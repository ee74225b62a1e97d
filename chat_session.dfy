/**
 * The chat records shared by both chat managers (`ChatMessage`, `ChatSession`)
 * and the managers' session table: a dict from session id to session, kept
 * here as a map plus the dict's insertion order.
 */
module ChatSessions {
  import opened Wrappers

  /** `ChatMessage`; `metadata` is either empty or `{"error": True, "error_type": errorType}`. */
  datatype Message = Message(id: string, role: string, content: string, timestamp: int, errorType: Option<string>)

  /** `ChatSession`; times are microsecond counts. */
  datatype Session = Session(
    sessionId: string,
    userId: string,
    contractFile: Option<string>,
    createdAt: int,
    updatedAt: int,
    messages: seq<Message>)

  /** `ChatSession(session_id, user_id, contract_file)` with `__post_init__` defaults. */
  function NewSession(id: string, userId: string, contractFile: Option<string>, now: int): Session
  {
    Session(id, userId, contractFile, now, now, [])
  }

  /** `session.add_message(role, content, metadata)`: appends one message and touches `updated_at`. */
  function AddMessage(s: Session, id: string, role: string, content: string, errorType: Option<string>, now: int): Session
  {
    s.(messages := s.messages + [Message(id, role, content, now, errorType)], updatedAt := now)
  }

  function Min(a: int, b: int): int
  {
    if a < b then a else b
  }

  /** Where Python's slice `s[start:]` begins in a list of length `len`. */
  function SliceStart(start: int, len: nat): (r: nat)
    ensures r <= len
  {
    if start < 0 then (if start + len < 0 then 0 else start + len)
    else if start > len then len
    else start
  }

  /** `get_recent_messages(count)`: `messages[-count:] if len(messages) > count else messages`. */
  function RecentMessages(messages: seq<Message>, count: int): (r: seq<Message>)
    ensures |r| <= |messages| && r == messages[|messages| - |r|..]
    ensures count >= 1 ==> |r| == Min(count, |messages|)
    ensures count == 0 ==> r == messages
    ensures count < 0 && |messages| > -count ==> r == messages[-count..]
  {
    if |messages| > count then messages[SliceStart(-count, |messages|)..] else messages
  }

  // ---------------------------------------------------------------------------
  // The session table: a map plus the order in which the dict yields its keys.

  predicate Distinct(s: seq<string>)
  {
    forall i, j :: 0 <= i < j < |s| ==> s[i] != s[j]
  }

  /** The insertion order after `del d[k]`. */
  function Without(s: seq<string>, k: string): (r: seq<string>)
    ensures forall x :: x in r <==> x in s && x != k
    ensures |r| <= |s|
  {
    if s == [] then []
    else (if s[0] == k then [] else [s[0]]) + Without(s[1..], k)
  }

  lemma {:induction false} WithoutDistinct(s: seq<string>, k: string)
    requires Distinct(s)
    ensures Distinct(Without(s, k))
  {
    if s != [] {
      WithoutDistinct(s[1..], k);
      var rest := Without(s[1..], k);
      assert s[0] !in rest by {
        assert s[0] !in s[1..];
      }
    }
  }

  /** The order lists exactly the map's keys, each once. */
  ghost predicate Indexed(order: seq<string>, sessions: map<string, Session>)
  {
    Distinct(order) && (forall k :: k in order <==> k in sessions)
  }

  /** Whether a session passes `user_id is None or session.user_id == user_id`. */
  predicate OwnedBy(s: Session, user: Option<string>)
  {
    user == None || s.userId == user.value
  }

  /** The sessions of `user` (all sessions for `None`) in dict order. */
  function SessionsOf(order: seq<string>, sessions: map<string, Session>, user: Option<string>): seq<Session>
  {
    if order == [] then [] else Entry(order[0], sessions, user) + SessionsOf(order[1..], sessions, user)
  }

  /** What one key contributes to a listing. */
  function Entry(k: string, sessions: map<string, Session>, user: Option<string>): seq<Session>
  {
    if k in sessions && OwnedBy(sessions[k], user) then [sessions[k]] else []
  }

  lemma {:induction false} SessionsOfAppend(a: seq<string>, b: seq<string>, sessions: map<string, Session>, user: Option<string>)
    ensures SessionsOf(a + b, sessions, user) == SessionsOf(a, sessions, user) + SessionsOf(b, sessions, user)
  {
    if a == [] {
      assert a + b == b;
    } else {
      SessionsOfAppend(a[1..], b, sessions, user);
      assert (a + b)[0] == a[0];
      assert (a + b)[1..] == a[1..] + b;
    }
  }

  /** Listing reads only the entries named by the order. */
  lemma {:induction false} SessionsOfFrame(order: seq<string>, s1: map<string, Session>, s2: map<string, Session>, user: Option<string>)
    requires forall k :: k in order ==> (k in s1 <==> k in s2) && (k in s1 ==> s1[k] == s2[k])
    ensures SessionsOf(order, s1, user) == SessionsOf(order, s2, user)
  {
    if order != [] {
      SessionsOfFrame(order[1..], s1, s2, user);
    }
  }

  /** Exactly the sessions of the table that belong to `user` are listed, each once. */
  lemma {:induction false} SessionsOfMembers(order: seq<string>, sessions: map<string, Session>, user: Option<string>, k: string)
    requires Distinct(order) && k in order && k in sessions
    ensures multiset(SessionsOf(order, sessions, user))[sessions[k]] >= (if OwnedBy(sessions[k], user) then 1 else 0)
  {
    if order[0] != k {
      SessionsOfMembers(order[1..], sessions, user, k);
    }
  }

  /** Deleting key `k` removes exactly that session from every listing. */
  lemma {:induction false} SessionsOfWithout(order: seq<string>, sessions: map<string, Session>, k: string, user: Option<string>)
    requires Distinct(order) && k in order && k in sessions
    ensures |SessionsOf(Without(order, k), sessions - {k}, user)|
            == |SessionsOf(order, sessions, user)| - (if OwnedBy(sessions[k], user) then 1 else 0)
  {
    var rest := Without(order, k);
    SessionsOfFrame(rest, sessions - {k}, sessions, user);
    CountWithout(order, sessions, k, user);
  }

  lemma {:induction false} CountWithout(order: seq<string>, sessions: map<string, Session>, k: string, user: Option<string>)
    requires Distinct(order) && k in order && k in sessions
    ensures |SessionsOf(Without(order, k), sessions, user)|
            == |SessionsOf(order, sessions, user)| - (if OwnedBy(sessions[k], user) then 1 else 0)
  {
    if order[0] == k {
      assert k !in order[1..];
      WithoutAbsent(order[1..], k);
      assert Without(order, k) == Without(order[1..], k);
    } else {
      CountWithout(order[1..], sessions, k, user);
    }
  }

  lemma {:induction false} WithoutAbsent(s: seq<string>, k: string)
    requires k !in s
    ensures Without(s, k) == s
  {
    if s != [] {
      WithoutAbsent(s[1..], k);
    }
  }

  /** `sum(len(s.messages) for s in sessions.values())`. */
  function TotalMessages(order: seq<string>, sessions: map<string, Session>): nat
  {
    if order == [] then 0
    else (if order[0] in sessions then |sessions[order[0]].messages| else 0) + TotalMessages(order[1..], sessions)
  }

  lemma {:induction false} TotalMessagesAppend(a: seq<string>, b: seq<string>, sessions: map<string, Session>)
    ensures TotalMessages(a + b, sessions) == TotalMessages(a, sessions) + TotalMessages(b, sessions)
  {
    if a == [] {
      assert a + b == b;
    } else {
      TotalMessagesAppend(a[1..], b, sessions);
      assert (a + b)[1..] == a[1..] + b;
    }
  }

  /** Every session table the managers keep: indexed by its order, each session stored under its own id. */
  ghost predicate WellKeyed(order: seq<string>, sessions: map<string, Session>)
  {
    Indexed(order, sessions) && forall k :: k in sessions ==> sessions[k].sessionId == k
  }

  /** Whatever a listing yields is a stored session of that user, found under its own id. */
  lemma {:induction false} SessionsOfSound(order: seq<string>, sessions: map<string, Session>, user: Option<string>, i: nat)
    requires forall k :: k in sessions ==> sessions[k].sessionId == k
    requires i < |SessionsOf(order, sessions, user)|
    ensures var s := SessionsOf(order, sessions, user)[i];
            s.sessionId in order && s.sessionId in sessions && sessions[s.sessionId] == s && OwnedBy(s, user)
  {
    var head := Entry(order[0], sessions, user);
    if i >= |head| {
      SessionsOfSound(order[1..], sessions, user, i - |head|);
    }
  }

  /** Inserting a new key at the end of the dict adds its session, if it is the user's, at the end of the listing. */
  lemma ListAfterAdd(order: seq<string>, sessions: map<string, Session>, k: string, s: Session, user: Option<string>)
    requires k !in order
    ensures SessionsOf(order + [k], sessions[k := s], user)
            == SessionsOf(order, sessions, user) + (if OwnedBy(s, user) then [s] else [])
  {
    SessionsOfAppend(order, [k], sessions[k := s], user);
    SessionsOfFrame(order, sessions[k := s], sessions, user);
    assert SessionsOf([k], sessions[k := s], user) == Entry(k, sessions[k := s], user) + SessionsOf([], sessions[k := s], user);
  }

  /** Deleting a key whose session the listing does not show leaves the listing as it was. */
  lemma {:induction false} ListAfterDeleteOther(order: seq<string>, sessions: map<string, Session>, k: string, user: Option<string>)
    requires Entry(k, sessions, user) == []
    ensures SessionsOf(Without(order, k), sessions - {k}, user) == SessionsOf(order, sessions, user)
  {
    SessionsOfFrame(Without(order, k), sessions - {k}, sessions, user);
    DropHidden(order, sessions, k, user);
  }

  lemma {:induction false} DropHidden(order: seq<string>, sessions: map<string, Session>, k: string, user: Option<string>)
    requires Entry(k, sessions, user) == []
    ensures SessionsOf(Without(order, k), sessions, user) == SessionsOf(order, sessions, user)
  {
    if order != [] {
      DropHidden(order[1..], sessions, k, user);
      if order[0] == k {
        assert Without(order, k) == Without(order[1..], k);
      } else {
        assert Without(order, k) == [order[0]] + Without(order[1..], k);
        assert Without(order, k)[1..] == Without(order[1..], k);
      }
    }
  }

  /** Replacing a stored session by one of the same user keeps every listing's length. */
  lemma {:induction false} ListAfterReplace(order: seq<string>, sessions: map<string, Session>, k: string, s: Session, user: Option<string>)
    requires k in sessions && s.userId == sessions[k].userId
    ensures |SessionsOf(order, sessions[k := s], user)| == |SessionsOf(order, sessions, user)|
  {
    if order != [] {
      ListAfterReplace(order[1..], sessions, k, s, user);
    }
  }

  /** Inserting a new key keeps the table well keyed. */
  lemma WellKeyedAdd(order: seq<string>, sessions: map<string, Session>, s: Session)
    requires WellKeyed(order, sessions) && s.sessionId !in sessions
    ensures WellKeyed(order + [s.sessionId], sessions[s.sessionId := s])
  {
    var k := s.sessionId;
    assert k !in order;
    var o := order + [k];
    forall i, j | 0 <= i < j < |o|
      ensures o[i] != o[j]
    {
      if j == |order| {
        assert o[i] == order[i];
      }
    }
  }

  /** Deleting a key keeps the table well keyed. */
  lemma WellKeyedDelete(order: seq<string>, sessions: map<string, Session>, k: string)
    requires WellKeyed(order, sessions)
    ensures WellKeyed(Without(order, k), sessions - {k})
  {
    WithoutDistinct(order, k);
  }

  /** Replacing a stored session by one with the same id keeps the table well keyed. */
  lemma WellKeyedReplace(order: seq<string>, sessions: map<string, Session>, s: Session)
    requires WellKeyed(order, sessions) && s.sessionId in sessions
    ensures WellKeyed(order, sessions[s.sessionId := s])
  {
  }
}
