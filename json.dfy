/**
 * Python's JSON-shaped values: `None`, booleans, integers, strings, lists and
 * dicts (an ordered list of key/value pairs, in insertion order), with Python's
 * truthiness, `dict.get`, `dict[k] = v` and `str()`.
 */
module Json {
  import Text

  datatype Value =
    | Null
    | Bool(b: bool)
    | Int(i: int)
    | Str(s: string)
    | Arr(items: seq<Value>)
    | Obj(fields: seq<(string, Value)>)

  /** `bool(v)`: `None`, `False`, `0`, `""`, `[]` and `{}` are falsy. */
  predicate Truthy(v: Value)
  {
    match v
    case Null => false
    case Bool(b) => b
    case Int(i) => i != 0
    case Str(s) => s != ""
    case Arr(items) => items != []
    case Obj(fields) => fields != []
  }

  /** `v == 1` in Python, where `True == 1` holds as well. */
  predicate EqualsOne(v: Value)
  {
    v == Int(1) || v == Bool(true)
  }

  /** Python's `a or b`: `a` when it is truthy, `b` otherwise. */
  function Or(a: Value, b: Value): (r: Value)
    ensures Truthy(a) ==> r == a
    ensures !Truthy(a) ==> r == b
  {
    if Truthy(a) then a else b
  }

  /** `k in d`. */
  predicate HasKey(fields: seq<(string, Value)>, k: string)
  {
    fields != [] && (fields[0].0 == k || HasKey(fields[1..], k))
  }

  /** `d.get(k)`: the value stored under `k`, `None` when `k` is absent. */
  function Lookup(fields: seq<(string, Value)>, k: string): (r: Value)
    ensures !HasKey(fields, k) ==> r == Null
    ensures HasKey(fields, k) ==> (k, r) in fields
  {
    if fields == [] then Null
    else if fields[0].0 == k then fields[0].1
    else Lookup(fields[1..], k)
  }

  /** `o.get(k)` for any value: only a dict has keys. */
  function Get(o: Value, k: string): Value
  {
    if o.Obj? then Lookup(o.fields, k) else Null
  }

  /** `d[k] = v`: an existing key keeps its position, a new key goes last. */
  function Set(fields: seq<(string, Value)>, k: string, v: Value): (r: seq<(string, Value)>)
    ensures |r| == if HasKey(fields, k) then |fields| else |fields| + 1
    ensures forall i :: 0 <= i < |fields| && fields[i].0 != k ==> r[i] == fields[i]
    ensures forall i :: 0 <= i < |r| ==> r[i].0 == (if i < |fields| then fields[i].0 else k)
  {
    if fields == [] then [(k, v)]
    else if fields[0].0 == k then [(k, v)] + fields[1..]
    else [fields[0]] + Set(fields[1..], k, v)
  }

  /** After `d[k] = v`, `d.get(k)` is `v` and every other key reads as before. */
  lemma {:induction false} LookupSet(fields: seq<(string, Value)>, k: string, v: Value, k': string)
    ensures Lookup(Set(fields, k, v), k') == if k' == k then v else Lookup(fields, k')
  {
    if fields != [] && fields[0].0 != k {
      LookupSet(fields[1..], k, v, k');
    }
  }

  /** After `d[k] = v`, `k in d` holds and every other key is present iff it was. */
  lemma {:induction false} HasKeySet(fields: seq<(string, Value)>, k: string, v: Value, k': string)
    ensures HasKey(Set(fields, k, v), k') <==> k' == k || HasKey(fields, k')
  {
    if fields != [] && fields[0].0 != k {
      HasKeySet(fields[1..], k, v, k');
    }
  }

  /** `repr(v)`, used for the items of a list or dict inside `str()`. */
  function Repr(v: Value): string
    decreases v, 2
  {
    match v
    case Str(s) => "'" + s + "'"
    case _ => PyStr(v)
  }

  /** `str(v)`. */
  function PyStr(v: Value): string
    decreases v, 1
  {
    match v
    case Null => "None"
    case Bool(b) => if b then "True" else "False"
    case Int(i) => Text.IntToString(i)
    case Str(s) => s
    case Arr(items) => "[" + ItemsRepr(v, 0) + "]"
    case Obj(fields) => "{" + FieldsRepr(v, 0) + "}"
  }

  function ItemsRepr(list: Value, i: nat): string
    requires list.Arr? && i <= |list.items|
    decreases list, 0, |list.items| - i
  {
    if i == |list.items| then ""
    else (if i == 0 then "" else ", ") + Repr(list.items[i]) + ItemsRepr(list, i + 1)
  }

  function FieldsRepr(dict: Value, i: nat): string
    requires dict.Obj? && i <= |dict.fields|
    decreases dict, 0, |dict.fields| - i
  {
    if i == |dict.fields| then ""
    else (if i == 0 then "" else ", ") + "'" + dict.fields[i].0 + "': " + Repr(dict.fields[i].1)
         + FieldsRepr(dict, i + 1)
  }
}
