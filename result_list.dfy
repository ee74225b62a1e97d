/**
 * Front-end shaping of a completed rule: `process_rule_for_frontend` builds a
 * `resultList` of at most one item from the rule's `suggestions` and
 * `matchedContent` and writes it into the rule dict in place.
 */
module ResultList {
  import opened Json

  /** A mutable Python dict. */
  class Dict {
    var fields: seq<(string, Value)>

    constructor (fields: seq<(string, Value)>)
      ensures this.fields == fields
    {
      this.fields := fields;
    }

    /** `d.copy()`: a new dict with the same entries. */
    method Copy() returns (c: Dict)
      ensures fresh(c) && c.fields == fields
    {
      c := new Dict(fields);
    }
  }

  /** `result_item`: `suggestions` and `matched_content`, each present iff its source field is truthy. */
  function ResultItem(rule: seq<(string, Value)>): (item: seq<(string, Value)>)
    ensures HasKey(item, "suggestions") <==> Truthy(Lookup(rule, "suggestions"))
    ensures HasKey(item, "matched_content") <==> Truthy(Lookup(rule, "matchedContent"))
    ensures Truthy(Lookup(rule, "suggestions"))
            ==> Lookup(item, "suggestions") == Str(PyStr(Lookup(rule, "suggestions")))
    ensures Truthy(Lookup(rule, "matchedContent"))
            ==> Lookup(item, "matched_content") == Str(PyStr(Lookup(rule, "matchedContent")))
    ensures forall i :: 0 <= i < |item| ==> item[i].0 == "suggestions" || item[i].0 == "matched_content"
  {
    var s := Lookup(rule, "suggestions");
    var m := Lookup(rule, "matchedContent");
    if Truthy(s) && Truthy(m) then [("suggestions", Str(PyStr(s))), ("matched_content", Str(PyStr(m)))]
    else if Truthy(s) then [("suggestions", Str(PyStr(s)))]
    else if Truthy(m) then [("matched_content", Str(PyStr(m)))]
    else []
  }

  /** `result_list`: empty iff neither field is truthy, otherwise the one item. */
  function ResultListOf(rule: seq<(string, Value)>): (r: seq<Value>)
    ensures |r| <= 1
    ensures r == [] <==> !Truthy(Lookup(rule, "suggestions")) && !Truthy(Lookup(rule, "matchedContent"))
    ensures r != [] ==> r[0] == Obj(ResultItem(rule))
  {
    var item := ResultItem(rule);
    assert item == [] <==> !HasKey(item, "suggestions") && !HasKey(item, "matched_content") by {
      if item != [] {
        assert item[0].0 == "suggestions" || item[0].0 == "matched_content";
      }
    }
    if item != [] then [Obj(item)] else []
  }

  lemma LookupSetAll(fields: seq<(string, Value)>, k: string, v: Value)
    ensures forall k' :: Lookup(Set(fields, k, v), k') == if k' == k then v else Lookup(fields, k')
  {
    forall k' {
      LookupSet(fields, k, v, k');
    }
  }

  /** The rule dict after processing: `resultList` set, every other key read as before, keys in place. */
  function WithResultList(rule: seq<(string, Value)>): (r: seq<(string, Value)>)
    ensures |r| == if HasKey(rule, "resultList") then |rule| else |rule| + 1
    ensures Lookup(r, "resultList") == Arr(ResultListOf(rule))
    ensures forall k :: k != "resultList" ==> Lookup(r, k) == Lookup(rule, k)
    ensures forall i :: 0 <= i < |rule| && rule[i].0 != "resultList" ==> r[i] == rule[i]
  {
    var list := Arr(ResultListOf(rule));
    var r := Set(rule, "resultList", list);
    assert forall k :: Lookup(r, k) == if k == "resultList" then list else Lookup(rule, k) by {
      LookupSetAll(rule, "resultList", list);
    }
    r
  }

  lemma {:induction false} SetTwice(fields: seq<(string, Value)>, k: string, v: Value)
    ensures Set(Set(fields, k, v), k, v) == Set(fields, k, v)
  {
    if fields != [] && fields[0].0 != k {
      SetTwice(fields[1..], k, v);
    }
  }

  /** Processing an already processed rule changes nothing. */
  lemma ProcessIdempotent(rule: seq<(string, Value)>)
    ensures WithResultList(WithResultList(rule)) == WithResultList(rule)
  {
    var once := WithResultList(rule);
    assert Lookup(once, "suggestions") == Lookup(rule, "suggestions");
    assert Lookup(once, "matchedContent") == Lookup(rule, "matchedContent");
    assert ResultItem(once) == ResultItem(rule);
    SetTwice(rule, "resultList", Arr(ResultListOf(rule)));
  }

  /** `process_rule_for_frontend(rule)`: fills `result_item` and `result_list`, writes `rule['resultList']`, returns the same dict. */
  method ProcessRuleForFrontend(rule: Dict) returns (same: Dict)
    modifies rule
    ensures same == rule
    ensures rule.fields == WithResultList(old(rule.fields))
  {
    ghost var before := rule.fields;
    var resultList: seq<Value> := [];
    var resultItem: seq<(string, Value)> := [];
    var suggestions := Lookup(rule.fields, "suggestions");
    var matchedContent := Lookup(rule.fields, "matchedContent");
    if HasKey(rule.fields, "suggestions") && Truthy(suggestions) {
      resultItem := Set(resultItem, "suggestions", Str(PyStr(suggestions)));
      assert resultItem == [("suggestions", Str(PyStr(suggestions)))];
    }
    if HasKey(rule.fields, "matchedContent") && Truthy(matchedContent) {
      ghost var item0 := resultItem;
      ghost var entry := ("matched_content", Str(PyStr(matchedContent)));
      assert Set([], entry.0, entry.1) == [entry];
      assert item0 != [] ==> item0[0].0 != "matched_content" && item0[1..] == [] && item0 == [item0[0]];
      resultItem := Set(resultItem, "matched_content", Str(PyStr(matchedContent)));
      assert item0 != [] ==> resultItem == item0 + [("matched_content", Str(PyStr(matchedContent)))];
    }
    assert resultItem == ResultItem(before);
    if resultItem != [] {
      resultList := resultList + [Obj(resultItem)];
    }
    assert resultList == ResultListOf(before);
    rule.fields := Set(rule.fields, "resultList", Arr(resultList));
    same := rule;
  }

  /** The caller processes a copy: the original completed rule is left as it was. */
  method ProcessCompletedRule(completedRule: Dict) returns (processed: Dict)
    ensures fresh(processed)
    ensures completedRule.fields == old(completedRule.fields)
    ensures processed.fields == WithResultList(completedRule.fields)
  {
    var copy := completedRule.Copy();
    processed := ProcessRuleForFrontend(copy);
  }
}
