/**
 * Rule routing: the depth-first search for a rule's engine selector
 * (`censoredSearchEngine` / `censored_search_engine`) through a JSON-like
 * tree, the selection of the rules routed to the rule engine (selector `== 1`),
 * and the per-rule `"pass"` / `"done"` verdict read from the rule engine's
 * response envelope.
 */
module RuleRouting {
  import opened Wrappers
  import opened Json
  import Text

  const CamelKey := "censoredSearchEngine"
  const SnakeKey := "censored_search_engine"

  /** The selector at one dict level: `d.get(camel) or d.get(snake)`. */
  function LevelSelector(fields: seq<(string, Value)>): (r: Value)
    ensures Truthy(Lookup(fields, CamelKey)) ==> r == Lookup(fields, CamelKey)
    ensures !Truthy(Lookup(fields, CamelKey)) ==> r == Lookup(fields, SnakeKey)
    ensures r != Null ==> HasKey(fields, CamelKey) || HasKey(fields, SnakeKey)
  {
    Or(Lookup(fields, CamelKey), Lookup(fields, SnakeKey))
  }

  /** Path of a dict entry: `path.key`, or just `key` at the root. */
  function KeyPath(path: string, key: string): string
  {
    if path != "" then path + "." + key else key
  }

  /** Path of a list element: `path[i]`, or `[i]` at the root. */
  function IndexPath(path: string, i: nat): string
  {
    if path != "" then path + "[" + Text.NatToString(i) + "]" else "[" + Text.NatToString(i) + "]"
  }

  /** The `(value, path)` pair the search returns; `Null` stands for `None`. */
  datatype Found = Found(selector: Value, path: string)

  /**
   * `find_censored_search_engine(obj, path)`: the current dict level is
   * checked first, then its values in key order, then list elements in index
   * order; the first non-`None` hit wins.
   */
  function Find(v: Value, path: string): Found
    decreases v, 1
  {
    match v
    case Obj(fields) =>
      var here := LevelSelector(fields);
      if here != Null then Found(here, path) else FindInFields(v, 0, path)
    case Arr(_) => FindInItems(v, 0, path)
    case _ => Found(Null, path)
  }

  /** The `for key, value in obj.items()` loop, from the `i`-th entry on. */
  function FindInFields(dict: Value, i: nat, path: string): Found
    requires dict.Obj? && i <= |dict.fields|
    decreases dict, 0, |dict.fields| - i
  {
    if i == |dict.fields| then Found(Null, path)
    else
      var r := Find(dict.fields[i].1, KeyPath(path, dict.fields[i].0));
      if r.selector != Null then r else FindInFields(dict, i + 1, path)
  }

  /** The `for i, item in enumerate(obj)` loop, from the `i`-th element on. */
  function FindInItems(list: Value, i: nat, path: string): Found
    requires list.Arr? && i <= |list.items|
    decreases list, 0, |list.items| - i
  {
    if i == |list.items| then Found(Null, path)
    else
      var r := Find(list.items[i], IndexPath(path, i));
      if r.selector != Null then r else FindInItems(list, i + 1, path)
  }

  // ---------------------------------------------------------------------------
  // Reference definition: every selector in the tree, in depth-first pre-order.

  /** All dict levels with a non-`None` selector, each with its path, in pre-order. */
  function Hits(v: Value, path: string): seq<Found>
    decreases v, 1
  {
    match v
    case Obj(fields) =>
      (if LevelSelector(fields) != Null then [Found(LevelSelector(fields), path)] else [])
      + FieldHits(v, 0, path)
    case Arr(_) => ItemHits(v, 0, path)
    case _ => []
  }

  function FieldHits(dict: Value, i: nat, path: string): seq<Found>
    requires dict.Obj? && i <= |dict.fields|
    decreases dict, 0, |dict.fields| - i
  {
    if i == |dict.fields| then []
    else Hits(dict.fields[i].1, KeyPath(path, dict.fields[i].0)) + FieldHits(dict, i + 1, path)
  }

  function ItemHits(list: Value, i: nat, path: string): seq<Found>
    requires list.Arr? && i <= |list.items|
    decreases list, 0, |list.items| - i
  {
    if i == |list.items| then []
    else Hits(list.items[i], IndexPath(path, i)) + ItemHits(list, i + 1, path)
  }

  /** The first hit, or `(None, path)` when there is none. */
  function FirstOr(hits: seq<Found>, path: string): Found
  {
    if hits == [] then Found(Null, path) else hits[0]
  }

  /** The search returns the first selector in pre-order (current level before children, keys and indices in order). */
  lemma {:induction false} FindIsFirstHit(v: Value, path: string)
    ensures Find(v, path) == FirstOr(Hits(v, path), path)
    ensures forall h :: h in Hits(v, path) ==> h.selector != Null
    decreases v, 1
  {
    match v
    case Obj(_) => FieldsFirstHit(v, 0, path);
    case Arr(_) => ItemsFirstHit(v, 0, path);
    case _ =>
  }

  lemma {:induction false} FieldsFirstHit(dict: Value, i: nat, path: string)
    requires dict.Obj? && i <= |dict.fields|
    ensures FindInFields(dict, i, path) == FirstOr(FieldHits(dict, i, path), path)
    ensures forall h :: h in FieldHits(dict, i, path) ==> h.selector != Null
    decreases dict, 0, |dict.fields| - i
  {
    if i < |dict.fields| {
      FindIsFirstHit(dict.fields[i].1, KeyPath(path, dict.fields[i].0));
      FieldsFirstHit(dict, i + 1, path);
    }
  }

  lemma {:induction false} ItemsFirstHit(list: Value, i: nat, path: string)
    requires list.Arr? && i <= |list.items|
    ensures FindInItems(list, i, path) == FirstOr(ItemHits(list, i, path), path)
    ensures forall h :: h in ItemHits(list, i, path) ==> h.selector != Null
    decreases list, 0, |list.items| - i
  {
    if i < |list.items| {
      FindIsFirstHit(list.items[i], IndexPath(path, i));
      ItemsFirstHit(list, i + 1, path);
    }
  }

  /** A failed search returns `(None, path)` with the path it was given. */
  lemma FailedSearchKeepsPath(v: Value, path: string)
    requires Find(v, path).selector == Null
    ensures Find(v, path) == Found(Null, path)
  {
    FindIsFirstHit(v, path);
  }

  // ---------------------------------------------------------------------------
  // What a path names: the node reached by following child positions.

  /**
   * `node` is reached from `v` by the child positions `steps` (entry positions
   * in a dict, indices in a list), and `path` is the path string the search
   * builds for it when it starts from `start`.
   */
  predicate Reaches(v: Value, start: string, steps: seq<nat>, node: Value, path: string)
    decreases steps
  {
    if steps == [] then node == v && path == start
    else match v
      case Obj(fields) =>
        steps[0] < |fields|
        && Reaches(fields[steps[0]].1, KeyPath(start, fields[steps[0]].0), steps[1..], node, path)
      case Arr(items) =>
        steps[0] < |items| && Reaches(items[steps[0]], IndexPath(start, steps[0]), steps[1..], node, path)
      case _ => false
  }

  /** Every hit is the selector of a dict actually found at that hit's path. */
  lemma {:induction false} HitSound(v: Value, start: string, k: nat) returns (steps: seq<nat>, node: Value)
    requires k < |Hits(v, start)|
    ensures Reaches(v, start, steps, node, Hits(v, start)[k].path)
    ensures node.Obj? && LevelSelector(node.fields) == Hits(v, start)[k].selector
    decreases v, 1
  {
    match v
    case Obj(fields) =>
      if LevelSelector(fields) != Null && k == 0 {
        steps, node := [], v;
      } else {
        var k' := if LevelSelector(fields) != Null then k - 1 else k;
        steps, node := FieldHitSound(v, 0, start, k');
      }
    case Arr(_) =>
      steps, node := ItemHitSound(v, 0, start, k);
  }

  lemma {:induction false} FieldHitSound(dict: Value, i: nat, start: string, k: nat)
    returns (steps: seq<nat>, node: Value)
    requires dict.Obj? && i <= |dict.fields| && k < |FieldHits(dict, i, start)|
    ensures Reaches(dict, start, steps, node, FieldHits(dict, i, start)[k].path)
    ensures node.Obj? && LevelSelector(node.fields) == FieldHits(dict, i, start)[k].selector
    decreases dict, 0, |dict.fields| - i
  {
    var child := dict.fields[i].1;
    var childPath := KeyPath(start, dict.fields[i].0);
    var here := Hits(child, childPath);
    if k < |here| {
      var rest;
      rest, node := HitSound(child, childPath, k);
      steps := [i] + rest;
      assert steps[1..] == rest;
    } else {
      steps, node := FieldHitSound(dict, i + 1, start, k - |here|);
    }
  }

  lemma {:induction false} ItemHitSound(list: Value, i: nat, start: string, k: nat)
    returns (steps: seq<nat>, node: Value)
    requires list.Arr? && i <= |list.items| && k < |ItemHits(list, i, start)|
    ensures Reaches(list, start, steps, node, ItemHits(list, i, start)[k].path)
    ensures node.Obj? && LevelSelector(node.fields) == ItemHits(list, i, start)[k].selector
    decreases list, 0, |list.items| - i
  {
    var childPath := IndexPath(start, i);
    var here := Hits(list.items[i], childPath);
    if k < |here| {
      var rest;
      rest, node := HitSound(list.items[i], childPath, k);
      steps := [i] + rest;
      assert steps[1..] == rest;
    } else {
      steps, node := ItemHitSound(list, i + 1, start, k - |here|);
    }
  }

  lemma {:induction false} FieldHitsCover(dict: Value, i: nat, j: nat, start: string)
    requires dict.Obj? && i <= j < |dict.fields|
    ensures forall h :: h in Hits(dict.fields[j].1, KeyPath(start, dict.fields[j].0)) ==> h in FieldHits(dict, i, start)
    decreases j - i
  {
    if i < j {
      FieldHitsCover(dict, i + 1, j, start);
    }
  }

  lemma {:induction false} ItemHitsCover(list: Value, i: nat, j: nat, start: string)
    requires list.Arr? && i <= j < |list.items|
    ensures forall h :: h in Hits(list.items[j], IndexPath(start, j)) ==> h in ItemHits(list, i, start)
    decreases j - i
  {
    if i < j {
      ItemHitsCover(list, i + 1, j, start);
    }
  }

  /** Every selector anywhere in the tree is a hit. */
  lemma {:induction false} HitComplete(v: Value, start: string, steps: seq<nat>, node: Value, path: string)
    requires Reaches(v, start, steps, node, path)
    requires node.Obj? && LevelSelector(node.fields) != Null
    ensures Found(LevelSelector(node.fields), path) in Hits(v, start)
    decreases steps
  {
    if steps != [] {
      match v
      case Obj(fields) =>
        var j := steps[0];
        HitComplete(fields[j].1, KeyPath(start, fields[j].0), steps[1..], node, path);
        FieldHitsCover(v, 0, j, start);
      case Arr(items) =>
        var j := steps[0];
        HitComplete(items[j], IndexPath(start, j), steps[1..], node, path);
        ItemHitsCover(v, 0, j, start);
    }
  }

  /** A non-`None` result is the selector of a dict found in the tree at the returned path. */
  lemma FindSound(v: Value, start: string) returns (steps: seq<nat>, node: Value)
    requires Find(v, start).selector != Null
    ensures Reaches(v, start, steps, node, Find(v, start).path)
    ensures node.Obj? && LevelSelector(node.fields) == Find(v, start).selector
  {
    FindIsFirstHit(v, start);
    steps, node := HitSound(v, start, 0);
  }

  /** A `None` result means no dict anywhere in the tree carries a selector. */
  lemma FindNoneMeansAbsent(v: Value, start: string, steps: seq<nat>, node: Value, path: string)
    requires Find(v, start).selector == Null
    requires Reaches(v, start, steps, node, path) && node.Obj?
    ensures LevelSelector(node.fields) == Null
  {
    FindIsFirstHit(v, start);
    if LevelSelector(node.fields) != Null {
      HitComplete(v, start, steps, node, path);
      assert false;
    }
  }

  /** `{"nested": {"censoredSearchEngine": 0}}`: `0` is falsy and there is no snake_case key. */
  lemma NestedZeroSelector()
    ensures Find(Obj([("nested", Obj([(CamelKey, Int(0))]))]), "") == Found(Null, "")
  {
    var inner := Obj([(CamelKey, Int(0))]);
    var outer := Obj([("nested", inner)]);
    assert LevelSelector(inner.fields) == Null;
    assert Find(Int(0), KeyPath("nested", CamelKey)).selector == Null;
    assert FindInFields(inner, 1, "nested") == Found(Null, "nested");
    assert Find(inner, "nested") == Found(Null, "nested");
    assert LevelSelector(outer.fields) == Null;
    assert FindInFields(outer, 1, "") == Found(Null, "");
  }

  // ---------------------------------------------------------------------------
  // Selecting the rules routed to the rule engine.

  datatype PyError = TypeError | AttributeError

  /** `for x in v`: a list yields its items, a dict its keys, a string its characters. */
  function Iterate(v: Value): Result<seq<Value>, PyError>
  {
    match v
    case Arr(items) => Ok(items)
    case Obj(fields) => Ok(seq(|fields|, i requires 0 <= i < |fields| => Str(fields[i].0)))
    case Str(s) => Ok(seq(|s|, i requires 0 <= i < |s| => Str([s[i]])))
    case _ => Err(TypeError)
  }

  /** `msg.get('reviewRules') or msg.get('review_rules') or []`, iterated. */
  function RulesOf(msg: seq<(string, Value)>): (r: Result<seq<Value>, PyError>)
    ensures Lookup(msg, "reviewRules").Arr? && Truthy(Lookup(msg, "reviewRules"))
            ==> r == Ok(Lookup(msg, "reviewRules").items)
    ensures !Truthy(Lookup(msg, "reviewRules")) && Lookup(msg, "review_rules").Arr?
            ==> r == Ok(Lookup(msg, "review_rules").items)
    ensures !Truthy(Lookup(msg, "reviewRules")) && !Truthy(Lookup(msg, "review_rules")) ==> r == Ok([])
    ensures Truthy(Lookup(msg, "reviewRules")) ==> r == Iterate(Lookup(msg, "reviewRules"))
    ensures !Truthy(Lookup(msg, "reviewRules")) && Truthy(Lookup(msg, "review_rules")) ==> r == Iterate(Lookup(msg, "review_rules"))
    // a truthy string is iterated character by character, a truthy dict key by key
    ensures Lookup(msg, "reviewRules").Str? && Truthy(Lookup(msg, "reviewRules")) ==>
              var s := Lookup(msg, "reviewRules").s;
              r.Ok? && |r.value| == |s| && forall i :: 0 <= i < |s| ==> r.value[i] == Str([s[i]])
    ensures Lookup(msg, "reviewRules").Obj? && Truthy(Lookup(msg, "reviewRules")) ==>
              var fields := Lookup(msg, "reviewRules").fields;
              r.Ok? && |r.value| == |fields| && forall i :: 0 <= i < |fields| ==> r.value[i] == Str(fields[i].0)
    // any other truthy value (a non-zero number, `true`) is not iterable
    ensures var v := Lookup(msg, "reviewRules");
            Truthy(v) && !v.Arr? && !v.Obj? && !v.Str? ==> r == Err(TypeError)
  {
    Iterate(Or(Or(Lookup(msg, "reviewRules"), Lookup(msg, "review_rules")), Arr([])))
  }

  /** The rule's discovered selector equals 1 (`True == 1` in Python). */
  predicate IsCensored(rule: Value)
  {
    EqualsOne(Find(rule, "").selector)
  }

  /** The order-preserving selection of the censored rules. */
  function CensoredRules(rules: seq<Value>): seq<Value>
  {
    if rules == [] then []
    else
      var last := rules[|rules| - 1];
      CensoredRules(rules[..|rules| - 1]) + (if IsCensored(last) then [last] else [])
  }

  /** Selection distributes over concatenation, so it keeps the rules' relative order. */
  lemma {:induction false} CensoredRulesAppend(a: seq<Value>, b: seq<Value>)
    ensures CensoredRules(a + b) == CensoredRules(a) + CensoredRules(b)
  {
    if b == [] {
      assert a + b == a;
    } else {
      var b' := b[..|b| - 1];
      CensoredRulesAppend(a, b');
      assert (a + b)[..|a + b| - 1] == a + b';
    }
  }

  /** A rule is selected iff it is in the input and its selector equals 1. */
  lemma {:induction false} CensoredRulesMembers(rules: seq<Value>, x: Value)
    ensures x in CensoredRules(rules) <==> x in rules && IsCensored(x)
  {
    if rules != [] {
      var init := rules[..|rules| - 1];
      CensoredRulesMembers(init, x);
      assert rules == init + [rules[|rules| - 1]];
    }
  }

  /** The `censored_rules` loop; `rule.get(...)` raises on a rule that is not a dict. */
  method SelectCensoredRules(rules: seq<Value>) returns (res: Result<seq<Value>, PyError>)
    ensures (forall i :: 0 <= i < |rules| ==> rules[i].Obj?) ==> res == Ok(CensoredRules(rules))
    ensures (exists i :: 0 <= i < |rules| && !rules[i].Obj?) ==> res == Err(AttributeError)
  {
    var censored := [];
    var i := 0;
    while i < |rules|
      invariant 0 <= i <= |rules|
      invariant forall j :: 0 <= j < i ==> rules[j].Obj?
      invariant censored == CensoredRules(rules[..i])
    {
      var found := Find(rules[i], "");
      if !rules[i].Obj? {
        return Err(AttributeError);
      }
      if EqualsOne(found.selector) {
        censored := censored + [rules[i]];
      }
      assert rules[..i + 1][..i] == rules[..i];
      i := i + 1;
    }
    assert rules[..i] == rules;
    res := Ok(censored);
  }

  // ---------------------------------------------------------------------------
  // The per-rule review result.

  datatype Verdict = Pass | Done

  function VerdictLabel(v: Verdict): string
  {
    match v
    case Pass => "pass"
    case Done => "done"
  }

  /** The rule engine answered: a non-empty dict whose `error` is absent or falsy. */
  predicate EngineAnswered(engine: Value)
  {
    Truthy(engine) && engine.Obj? && !Truthy(Lookup(engine.fields, "error"))
  }

  /** `review_result` for one rule, given the single rule-engine response of the batch. */
  function ReviewVerdict(rule: Value, engine: Value): Verdict
  {
    if IsCensored(rule) && EngineAnswered(engine) then
      if Truthy(Lookup(engine.fields, "data")) then Pass else Done
    else Pass
  }

  /** The verdicts of a rule list, in rule order. */
  function Verdicts(rules: seq<Value>, engine: Value): (r: seq<Verdict>)
    ensures |r| == |rules|
  {
    if rules == [] then []
    else Verdicts(rules[..|rules| - 1], engine) + [ReviewVerdict(rules[|rules| - 1], engine)]
  }

  /** Without a usable engine answer, or with truthy `data`, every rule passes. */
  lemma {:induction false} AllPassUnlessEngineRejects(rules: seq<Value>, engine: Value)
    requires !EngineAnswered(engine) || Truthy(Lookup(engine.fields, "data"))
    ensures forall i :: 0 <= i < |rules| ==> Verdicts(rules, engine)[i] == Pass
  {
    if rules != [] {
      AllPassUnlessEngineRejects(rules[..|rules| - 1], engine);
    }
  }

  /** When the engine answers with falsy `data`, exactly the censored rules are `"done"`. */
  lemma {:induction false} DoneCountIsCensoredCount(rules: seq<Value>, engine: Value)
    requires EngineAnswered(engine) && !Truthy(Lookup(engine.fields, "data"))
    ensures multiset(Verdicts(rules, engine))[Done] == |CensoredRules(rules)|
  {
    if rules != [] {
      DoneCountIsCensoredCount(rules[..|rules| - 1], engine);
    }
  }

  /** A `"done"` rule is always one of the selected `censored_rules`. */
  lemma DoneRulesAreCensored(rules: seq<Value>, engine: Value, i: nat)
    requires i < |rules| && Verdicts(rules, engine)[i] == Done
    ensures rules[i] in CensoredRules(rules)
  {
    VerdictAt(rules, engine, i);
    CensoredRulesMembers(rules, rules[i]);
  }

  lemma {:induction false} VerdictAt(rules: seq<Value>, engine: Value, i: nat)
    requires i < |rules|
    ensures Verdicts(rules, engine)[i] == ReviewVerdict(rules[i], engine)
  {
    if i < |rules| - 1 {
      VerdictAt(rules[..|rules| - 1], engine, i);
    }
  }

  /** The per-rule loop: one verdict per rule, in order; `fr.get(...)` raises on a non-dict rule. */
  method ReviewRules(rules: seq<Value>, engine: Value) returns (res: Result<seq<Verdict>, PyError>)
    ensures (forall i :: 0 <= i < |rules| ==> rules[i].Obj?) ==> res == Ok(Verdicts(rules, engine))
    ensures (exists i :: 0 <= i < |rules| && !rules[i].Obj?) ==> res == Err(AttributeError)
  {
    var verdicts := [];
    var idx := 0;
    while idx < |rules|
      invariant 0 <= idx <= |rules|
      invariant forall j :: 0 <= j < idx ==> rules[j].Obj?
      invariant verdicts == Verdicts(rules[..idx], engine)
    {
      var fr := rules[idx];
      if !fr.Obj? {
        return Err(AttributeError);
      }
      var currentRuleCensored := false;
      var found := Find(fr, "");
      if EqualsOne(found.selector) {
        currentRuleCensored := true;
      }
      var reviewResult;
      if currentRuleCensored && Truthy(engine) && engine.Obj? && !Truthy(Lookup(engine.fields, "error")) {
        var ruleConfirmSuccess := Lookup(engine.fields, "data");
        if Truthy(ruleConfirmSuccess) {
          reviewResult := Pass;
        } else {
          reviewResult := Done;
        }
      } else {
        reviewResult := Pass;
      }
      assert reviewResult == ReviewVerdict(fr, engine);
      assert rules[..idx + 1][..idx] == rules[..idx];
      assert Verdicts(rules[..idx + 1], engine) == Verdicts(rules[..idx], engine) + [reviewResult];
      verdicts := verdicts + [reviewResult];
      idx := idx + 1;
    }
    assert rules[..idx] == rules;
    res := Ok(verdicts);
  }
}
