/**
 * The `contract_audit_review` table and its CRUD functions. The database is an
 * in-memory map from primary key to row with an auto-increment counter;
 * deletion is soft: it only sets `is_deleted`.
 */
module AuditReviews {
  import opened Wrappers
  import opened Json

  /** `risk_level`: `Enum('高', '中', '低', '无')`. */
  datatype RiskLevel = High | Medium | Low | NoRisk

  /** `review_status`: `Enum('通过', '不通过', '待审查')`. */
  datatype ReviewStatus = Passed | Rejected | Pending

  function RiskLabel(r: RiskLevel): string
  {
    match r
    case High => "高"
    case Medium => "中"
    case Low => "低"
    case NoRisk => "无"
  }

  /** The column accepts exactly the four labels. */
  function ParseRisk(s: string): (r: Option<RiskLevel>)
    ensures r.Some? ==> RiskLabel(r.value) == s
    ensures r.None? ==> forall x :: RiskLabel(x) != s
  {
    if s == "高" then Some(High)
    else if s == "中" then Some(Medium)
    else if s == "低" then Some(Low)
    else if s == "无" then Some(NoRisk)
    else None
  }

  lemma RiskRoundTrip(r: RiskLevel)
    ensures ParseRisk(RiskLabel(r)) == Some(r)
  {
  }

  function StatusLabel(s: ReviewStatus): string
  {
    match s
    case Passed => "通过"
    case Rejected => "不通过"
    case Pending => "待审查"
  }

  /** The column accepts exactly the three labels. */
  function ParseStatus(s: string): (r: Option<ReviewStatus>)
    ensures r.Some? ==> StatusLabel(r.value) == s
    ensures r.None? ==> forall x :: StatusLabel(x) != s
  {
    if s == "通过" then Some(Passed)
    else if s == "不通过" then Some(Rejected)
    else if s == "待审查" then Some(Pending)
    else None
  }

  lemma StatusRoundTrip(s: ReviewStatus)
    ensures ParseStatus(StatusLabel(s)) == Some(s)
  {
  }

  /** One row of `contract_audit_review`; times are integer timestamps. */
  datatype Review = Review(
    id: nat,
    projectName: string,
    riskLevel: RiskLevel,
    reviewStatus: ReviewStatus,
    reviewer: Option<string>,
    reviewComment: Option<string>,
    isDeleted: bool,
    extJson: Option<Value>,
    updatedAt: int,
    createdAt: int)

  /** The `review_data` dict of a create: absent keys are `None`. */
  datatype ReviewData = ReviewData(
    projectName: Option<string>,
    riskLevel: Option<string>,
    reviewStatus: Option<string>,
    reviewer: Option<string>,
    reviewComment: Option<string>,
    isDeleted: Option<bool>,
    extJson: Option<Value>)

  /**
   * The `update_data` dict of an update: a column is set iff its key is
   * present (`Some`), and the value given may itself be `None`.
   */
  datatype ReviewPatch = ReviewPatch(
    projectName: Option<Option<string>>,
    riskLevel: Option<Option<string>>,
    reviewStatus: Option<Option<string>>,
    reviewer: Option<Option<string>>,
    reviewComment: Option<Option<string>>,
    isDeleted: Option<Option<bool>>,
    extJson: Option<Option<Value>>)

  /** Why the commit fails: a `NOT NULL` column left empty, or a label outside its enum. */
  datatype DbError = IntegrityError | DataError

  /** No `NOT NULL` column (`project_name`, `risk_level`, `review_status`, `is_deleted`) is set to `None`. */
  predicate PatchNotNull(p: ReviewPatch)
  {
    p.projectName != Some(None) && p.riskLevel != Some(None)
    && p.reviewStatus != Some(None) && p.isDeleted != Some(None)
  }

  /** Whether every enum label in a patch is valid. */
  predicate PatchLabelsValid(p: ReviewPatch)
    requires PatchNotNull(p)
  {
    (p.riskLevel == None || ParseRisk(p.riskLevel.value.value).Some?)
    && (p.reviewStatus == None || ParseStatus(p.reviewStatus.value.value).Some?)
  }

  /** The row after the `setattr` loop: supplied columns replaced, all others kept. */
  function Patched(r: Review, p: ReviewPatch): (q: Review)
    requires PatchNotNull(p) && PatchLabelsValid(p)
    ensures q.id == r.id && q.createdAt == r.createdAt && q.updatedAt == r.updatedAt
    ensures q.projectName == (if p.projectName.Some? then p.projectName.value.value else r.projectName)
    ensures q.riskLevel == (if p.riskLevel.Some? then ParseRisk(p.riskLevel.value.value).value else r.riskLevel)
    ensures RiskLabel(q.riskLevel) == (if p.riskLevel.Some? then p.riskLevel.value.value else RiskLabel(r.riskLevel))
    ensures StatusLabel(q.reviewStatus) == (if p.reviewStatus.Some? then p.reviewStatus.value.value else StatusLabel(r.reviewStatus))
    ensures q.reviewer == (if p.reviewer.Some? then p.reviewer.value else r.reviewer)
    ensures q.reviewComment == (if p.reviewComment.Some? then p.reviewComment.value else r.reviewComment)
    ensures q.isDeleted == (if p.isDeleted.Some? then p.isDeleted.value.value else r.isDeleted)
    ensures q.extJson == (if p.extJson.Some? then p.extJson.value else r.extJson)
  {
    Review(
      r.id,
      if p.projectName.Some? then p.projectName.value.value else r.projectName,
      if p.riskLevel.Some? then ParseRisk(p.riskLevel.value.value).value else r.riskLevel,
      if p.reviewStatus.Some? then ParseStatus(p.reviewStatus.value.value).value else r.reviewStatus,
      if p.reviewer.Some? then p.reviewer.value else r.reviewer,
      if p.reviewComment.Some? then p.reviewComment.value else r.reviewComment,
      if p.isDeleted.Some? then p.isDeleted.value.value else r.isDeleted,
      if p.extJson.Some? then p.extJson.value else r.extJson,
      r.updatedAt,
      r.createdAt)
  }

  /** An empty patch changes nothing, and patching twice with the same patch is patching once. */
  lemma PatchedIdempotent(r: Review, p: ReviewPatch)
    requires PatchNotNull(p) && PatchLabelsValid(p)
    ensures Patched(r, ReviewPatch(None, None, None, None, None, None, None)) == r
    ensures Patched(Patched(r, p), p) == Patched(r, p)
  {
  }

  /** The rows with id below `n` that are not deleted, by ascending id. */
  function Visible(rows: map<nat, Review>, n: nat): (v: seq<Review>)
    ensures forall i :: 0 <= i < |v| ==> !v[i].isDeleted && v[i].id < n
    ensures forall i :: 0 <= i < |v| ==> v[i].id in rows && rows[v[i].id] == v[i]
    ensures forall i, j :: 0 <= i < j < |v| ==> v[i].id < v[j].id
  {
    if n == 0 then []
    else
      var k := n - 1;
      Visible(rows, k) + if k in rows && rows[k].id == k && !rows[k].isDeleted then [rows[k]] else []
  }

  /** Every stored, non-deleted row below `n` is listed. */
  lemma {:induction false} VisibleComplete(rows: map<nat, Review>, n: nat, id: nat)
    requires id < n && id in rows && rows[id].id == id && !rows[id].isDeleted
    ensures rows[id] in Visible(rows, n)
  {
    if id < n - 1 {
      VisibleComplete(rows, n - 1, id);
    }
  }

  class ReviewTable {
    var rows: map<nat, Review>
    /** The next value of the auto-increment primary key. */
    var nextId: nat

    ghost predicate Valid()
      reads this
    {
      1 <= nextId && forall id :: id in rows ==> 1 <= id < nextId && rows[id].id == id
    }

    constructor ()
      ensures Valid() && rows == map[] && nextId == 1
    {
      rows := map[];
      nextId := 1;
    }

    /** `get_contract_audit_review(db, review_id)`: the row iff it exists and is not deleted. */
    function Get(id: int): (r: Option<Review>)
      reads this
      ensures r.Some? <==> id >= 0 && id in rows && !rows[id].isDeleted
      ensures r.Some? ==> r.value == rows[id]
    {
      if id >= 0 && id in rows && !rows[id].isDeleted then Some(rows[id]) else None
    }

    /** `list_contract_audit_reviews(db, skip, limit)`: the non-deleted rows by id, `skip` dropped, at most `limit`. */
    function List(skip: nat, limit: nat): (r: seq<Review>)
      reads this
      ensures var v := Visible(rows, nextId);
              |r| == (if skip >= |v| then 0 else if |v| - skip < limit then |v| - skip else limit) &&
              forall i :: 0 <= i < |r| ==> r[i] == v[skip + i]
      ensures forall i :: 0 <= i < |r| ==> !r[i].isDeleted && r[i].id in rows && rows[r[i].id] == r[i]
      ensures forall i, j :: 0 <= i < j < |r| ==> r[i].id < r[j].id
    {
      var v := Visible(rows, nextId);
      var rest := if skip >= |v| then [] else v[skip..];
      if |rest| <= limit then rest else rest[..limit]
    }

    /** With no offset and a large enough limit, exactly the rows `Get` finds are listed. */
    lemma ListShowsVisible(id: nat, limit: nat)
      requires Valid()
      requires limit >= |rows|
      ensures Get(id).Some? ==> Get(id).value in List(0, limit)
      ensures forall i :: 0 <= i < |List(0, limit)| ==> Get(List(0, limit)[i].id) == Some(List(0, limit)[i])
    {
      var v := Visible(rows, nextId);
      if Get(id).Some? {
        VisibleComplete(rows, nextId, id);
      }
      VisibleBound(rows, nextId);
    }

    /**
     * `create_contract_audit_review(db, review_data)`: a missing `project_name`
     * or a label outside its enum fails the commit; otherwise the row is
     * stored under a fresh id with the column defaults filled in.
     */
    method Create(data: ReviewData, now: int) returns (r: Result<Review, DbError>)
      requires Valid()
      modifies this
      ensures Valid()
      ensures data.projectName == None ==> r == Err(IntegrityError)
      ensures data.projectName != None
              && ((data.riskLevel.Some? && ParseRisk(data.riskLevel.value).None?)
                  || (data.reviewStatus.Some? && ParseStatus(data.reviewStatus.value).None?))
              ==> r == Err(DataError)
      ensures r.Err? ==> rows == old(rows) && nextId == old(nextId)
      ensures r.Ok? ==> r.value.id == old(nextId) && r.value.id !in old(rows)
                        && rows == old(rows)[r.value.id := r.value] && nextId == old(nextId) + 1
      ensures r.Ok? ==> data.projectName == Some(r.value.projectName)
                        && RiskLabel(r.value.riskLevel) == (if data.riskLevel.Some? then data.riskLevel.value else "无")
                        && StatusLabel(r.value.reviewStatus) == (if data.reviewStatus.Some? then data.reviewStatus.value else "待审查")
                        && r.value.isDeleted == (data.isDeleted == Some(true))
                        && r.value.reviewer == data.reviewer && r.value.reviewComment == data.reviewComment
                        && r.value.extJson == data.extJson
                        && r.value.createdAt == now && r.value.updatedAt == now
      ensures data.projectName != None
              && (data.riskLevel.None? || ParseRisk(data.riskLevel.value).Some?)
              && (data.reviewStatus.None? || ParseStatus(data.reviewStatus.value).Some?)
              ==> r.Ok?
    {
      if data.projectName == None {
        return Err(IntegrityError);
      }
      var risk := if data.riskLevel.Some? then ParseRisk(data.riskLevel.value) else Some(NoRisk);
      var status := if data.reviewStatus.Some? then ParseStatus(data.reviewStatus.value) else Some(Pending);
      if risk == None || status == None {
        return Err(DataError);
      }
      var review := Review(nextId, data.projectName.value, risk.value, status.value, data.reviewer, data.reviewComment,
                           data.isDeleted == Some(true), data.extJson, now, now);
      rows := rows[nextId := review];
      nextId := nextId + 1;
      r := Ok(review);
    }

    /**
     * `update_contract_audit_review(db, review_id, update_data)`: `None` for a
     * missing or deleted row; otherwise the supplied columns are set, and
     * `updated_at` moves to `now` iff some column changed.
     */
    method Update(id: int, patch: ReviewPatch, now: int) returns (r: Result<Option<Review>, DbError>)
      requires Valid()
      modifies this
      ensures Valid() && nextId == old(nextId)
      ensures old(Get(id)).None? ==> r == Ok(None) && rows == old(rows)
      ensures old(Get(id)).Some? && !PatchNotNull(patch) ==> r == Err(IntegrityError) && rows == old(rows)
      ensures old(Get(id)).Some? && PatchNotNull(patch) && !PatchLabelsValid(patch) ==> r == Err(DataError) && rows == old(rows)
      ensures old(Get(id)).Some? && PatchNotNull(patch) && PatchLabelsValid(patch) ==>
                var before := old(rows)[id];
                var after := Patched(before, patch);
                var stored := if after == before then before else after.(updatedAt := now);
                r == Ok(Some(stored)) && rows == old(rows)[id := stored]
    {
      var review := Get(id);
      if review.None? {
        return Ok(None);
      }
      if !PatchNotNull(patch) {
        return Err(IntegrityError);
      }
      if !PatchLabelsValid(patch) {
        return Err(DataError);
      }
      var after := Patched(review.value, patch);
      if after != review.value {
        after := after.(updatedAt := now);
      }
      rows := rows[id := after];
      r := Ok(Some(after));
    }

    /**
     * `delete_contract_audit_review(db, review_id)`: `False` for a missing or
     * deleted row; otherwise `is_deleted` is set (which moves `updated_at`).
     * Either way the row is gone for `get` afterwards.
     */
    method Delete(id: int, now: int) returns (deleted: bool)
      requires Valid()
      modifies this
      ensures Valid() && nextId == old(nextId)
      ensures deleted <==> old(Get(id)).Some?
      ensures !deleted ==> rows == old(rows)
      ensures deleted ==> rows == old(rows)[id := old(rows)[id].(isDeleted := true, updatedAt := now)]
      ensures Get(id) == None
      ensures forall other :: other != id ==> Get(other) == old(Get(other))
    {
      var review := Get(id);
      if review.None? {
        return false;
      }
      rows := rows[id := review.value.(isDeleted := true, updatedAt := now)];
      deleted := true;
    }
  }

  lemma {:induction false} VisibleBound(rows: map<nat, Review>, n: nat)
    ensures |Visible(rows, n)| <= |rows|
  {
    var v := Visible(rows, n);
    var ids := set i | 0 <= i < |v| :: v[i].id;
    assert ids <= rows.Keys;
    IdsDistinct(v);
    SubsetCard(ids, rows.Keys);
    assert |rows.Keys| == |rows|;
  }

  lemma SubsetCard<T>(a: set<T>, b: set<T>)
    requires a <= b
    ensures |a| <= |b|
  {
    assert b == a + (b - a);
  }

  lemma IdsDistinct(v: seq<Review>)
    requires forall i, j :: 0 <= i < j < |v| ==> v[i].id < v[j].id
    ensures |set i | 0 <= i < |v| :: v[i].id| == |v|
  {
    if v != [] {
      var init := v[..|v| - 1];
      IdsDistinct(init);
      var s := set i | 0 <= i < |init| :: init[i].id;
      assert (set i | 0 <= i < |v| :: v[i].id) == s + {v[|v| - 1].id};
      assert v[|v| - 1].id !in s;
    }
  }
}
