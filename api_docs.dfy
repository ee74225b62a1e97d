/**
 * The schema-to-text rules of the API documentation generator: the OpenAPI
 * type of a property as a TypeScript type, the example value the Postman
 * collection carries for each property, the parameter type shown in the
 * Markdown document, and the path segments of a Postman request.
 */
module ApiDocs {
  import opened Wrappers
  import opened Text
  import opened Json

  /** The entries of a JSON object; any other value has none. */
  function Fields(v: Value): seq<(string, Value)>
  {
    if v.Obj? then v.fields else []
  }

  /** The elements of a JSON array; any other value has none. */
  function Items(v: Value): seq<Value>
  {
    if v.Arr? then v.items else []
  }

  /** What `option['type']` finds in an `anyOf` option. */
  function OptionType(option: Value): Value
  {
    Lookup(Fields(option), "type")
  }

  // ---------------------------------------------------------------------------
  // TypeScript types

  /** The `types` list of an `anyOf`: `string` and `null` options only, in order. */
  function UnionMembers(options: seq<Value>): (types: seq<string>)
    ensures |types| <= |options|
  {
    if options == [] then []
    else UnionMembers(options[..|options| - 1]) + UnionMember(options[|options| - 1])
  }

  /** Every member is `string` or `null`, and there are none exactly when no option has either type. */
  lemma {:induction false} UnionMembersShape(options: seq<Value>)
    ensures var types := UnionMembers(options);
            forall i :: 0 <= i < |types| ==> types[i] == "string" || types[i] == "null"
    ensures UnionMembers(options) == [] <==>
              forall i :: 0 <= i < |options| ==> OptionType(options[i]) != Str("string") && OptionType(options[i]) != Str("null")
  {
    if options != [] {
      var init := options[..|options| - 1];
      var o := options[|options| - 1];
      assert options == init + [o];
      UnionMembersShape(init);
      assert UnionMembers(options) == UnionMembers(init) + UnionMember(o);
      assert UnionMember(o) == [] <==> OptionType(o) != Str("string") && OptionType(o) != Str("null");
    }
  }

  /** What one option adds to the union: its type when that is `string` or `null`. */
  function UnionMember(option: Value): seq<string>
  {
    var t := OptionType(option);
    if t == Str("string") then ["string"] else if t == Str("null") then ["null"] else []
  }

  /** The TypeScript type of one property schema. */
  function TsType(prop: Value): (r: string)
    ensures HasKey(Fields(prop), "type") ==> r in ["string", "number", "boolean", "any[]", "any"]
    ensures !HasKey(Fields(prop), "type") && HasKey(Fields(prop), "anyOf") ==>
              var types := UnionMembers(Items(Lookup(Fields(prop), "anyOf")));
              r == if types == [] then "any" else Join(types, " | ")
    ensures !HasKey(Fields(prop), "type") && !HasKey(Fields(prop), "anyOf") ==> r == "any"
    ensures r != ""
  {
    var f := Fields(prop);
    if HasKey(f, "type") then
      var t := Lookup(f, "type");
      if t == Str("string") then "string"
      else if t == Str("integer") then "number"
      else if t == Str("boolean") then "boolean"
      else if t == Str("array") then "any[]"
      else "any"
    else if HasKey(f, "anyOf") then
      var types := UnionMembers(Items(Lookup(f, "anyOf")));
      if types == [] then "any"
      else (UnionMembersShape(Items(Lookup(f, "anyOf"))); JoinStartsWith(types, " | "); Join(types, " | "))
    else "any"
  }

  /**
   * A string `type` decides the TypeScript type, whatever else the schema
   * holds: the four OpenAPI types with a counterpart map to it, every other
   * type (and a `type` that is not a string) is `any`.
   */
  lemma TsTypeOfType(prop: Value, t: string)
    ensures HasKey(Fields(prop), "type") && Lookup(Fields(prop), "type") == Str(t) ==>
              TsType(prop)
              == if t == "string" then "string"
                 else if t == "integer" then "number"
                 else if t == "boolean" then "boolean"
                 else if t == "array" then "any[]"
                 else "any"
    ensures HasKey(Fields(prop), "type") && !Lookup(Fields(prop), "type").Str? ==> TsType(prop) == "any"
  {
  }

  /** One option contributes its own type when it is `string` or `null`, and nothing otherwise. */
  lemma UnionMembersOne(option: Value)
    ensures UnionMembers([option])
            == if OptionType(option) == Str("string") then ["string"]
               else if OptionType(option) == Str("null") then ["null"]
               else []
  {
    assert [option][..0] == [];
  }

  /** Adding one option at the end adds its contribution at the end. */
  lemma UnionMembersSnoc(options: seq<Value>, option: Value)
    ensures UnionMembers(options + [option]) == UnionMembers(options) + UnionMember(option)
  {
    assert (options + [option])[..|options|] == options;
  }

  /** The union of a concatenation is the concatenation of the unions: options keep their order. */
  lemma {:induction false} UnionMembersAppend(a: seq<Value>, b: seq<Value>)
    ensures UnionMembers(a + b) == UnionMembers(a) + UnionMembers(b)
    decreases |b|
  {
    if b == [] {
      assert a + b == a;
    } else {
      var b', o := b[..|b| - 1], b[|b| - 1];
      assert b == b' + [o];
      UnionMembersAppend(a, b');
      UnionMembersAppendStep(a, b', o);
    }
  }

  /** The inductive step of `UnionMembersAppend`: one more option at the end of `b`. */
  lemma UnionMembersAppendStep(a: seq<Value>, b: seq<Value>, o: Value)
    requires UnionMembers(a + b) == UnionMembers(a) + UnionMembers(b)
    ensures UnionMembers(a + (b + [o])) == UnionMembers(a) + UnionMembers(b + [o])
  {
    var ua, ub, uo := UnionMembers(a), UnionMembers(b), UnionMember(o);
    calc {
      UnionMembers(a + (b + [o]));
      { assert a + (b + [o]) == (a + b) + [o]; }
      UnionMembers((a + b) + [o]);
      { UnionMembersSnoc(a + b, o); }
      (ua + ub) + uo;
      { SeqAssoc(ua, ub, uo); }
      ua + (ub + uo);
      { UnionMembersSnoc(b, o); }
      ua + UnionMembers(b + [o]);
    }
  }

  lemma SeqAssoc<T>(x: seq<T>, y: seq<T>, z: seq<T>)
    ensures (x + y) + z == x + (y + z)
  {
  }

  /** `Optional[str]`, an `anyOf` of a string option and a null option, becomes `string | null`. */
  lemma TsTypeOfOptionalString(prop: Value, s: Value, n: Value)
    requires !HasKey(Fields(prop), "type") && HasKey(Fields(prop), "anyOf")
    requires Lookup(Fields(prop), "anyOf") == Arr([s, n])
    requires OptionType(s) == Str("string") && OptionType(n) == Str("null")
    ensures TsType(prop) == "string | null"
  {
    UnionMembersOne(s);
    UnionMembersOne(n);
    UnionMembersAppend([s], [n]);
    assert [s] + [n] == [s, n];
    assert UnionMembers([s, n]) == ["string", "null"];
    JoinStringNull();
  }

  lemma JoinStringNull()
    ensures Join(["string", "null"], " | ") == "string | null"
  {
    assert ["string", "null"][1..] == ["null"];
  }

  /** An `anyOf` with neither a string nor a null option becomes `any`. */
  lemma TsTypeOfOtherUnion(prop: Value)
    requires !HasKey(Fields(prop), "type") && HasKey(Fields(prop), "anyOf")
    requires forall o :: o in Items(Lookup(Fields(prop), "anyOf")) ==> OptionType(o) != Str("string") && OptionType(o) != Str("null")
    ensures TsType(prop) == "any"
  {
    var options := Items(Lookup(Fields(prop), "anyOf"));
    assert forall i :: 0 <= i < |options| ==> options[i] in options;
    UnionMembersShape(options);
    assert UnionMembers(options) == [];
  }

  /** `prop_name in schema.get('required', [])`. */
  predicate IsRequired(schema: Value, name: string)
  {
    var required := Lookup(Fields(schema), "required");
    required.Arr? && Str(name) in required.items
  }

  /** `f"  {prop_name}{optional}: {ts_type};\n"`. */
  function PropertyLine(schema: Value, name: string, prop: Value): string
  {
    "  " + name + (if IsRequired(schema, name) then "" else "?") + ": " + TsType(prop) + ";\n"
  }

  /** The character after the property name is `?` exactly when the property is not required. */
  lemma OptionalMarker(schema: Value, name: string, prop: Value)
    ensures var line := PropertyLine(schema, name, prop);
            |line| > |name| + 2 && (line[|name| + 2] == '?' <==> !IsRequired(schema, name))
  {
    var line := PropertyLine(schema, name, prop);
    if IsRequired(schema, name) {
      assert line == "  " + name + ": " + TsType(prop) + ";\n";
      assert line[|name| + 2] == ':';
    } else {
      assert line == "  " + name + "?" + ": " + TsType(prop) + ";\n";
    }
  }

  /** The property lines of one interface, in property order. */
  function InterfaceLines(schema: Value, props: seq<(string, Value)>): string
  {
    if props == [] then ""
    else
      var last := props[|props| - 1];
      InterfaceLines(schema, props[..|props| - 1]) + PropertyLine(schema, last.0, last.1)
  }

  /** `export interface {name} {...}`. */
  function InterfaceText(name: string, schema: Value): string
  {
    "export interface " + name + " {\n" + InterfaceLines(schema, Fields(Lookup(Fields(schema), "properties"))) + "}\n\n"
  }

  const TsHeader := "// 合同审计系统 API 类型定义\n// 自动生成，请勿手动修改\n\n"

  /** The whole `api-types.ts` text for the schemas visited so far. */
  function TsFile(schemas: seq<(string, Value)>): string
  {
    if schemas == [] then TsHeader
    else
      var last := schemas[|schemas| - 1];
      TsFile(schemas[..|schemas| - 1]) + InterfaceText(last.0, last.1)
  }

  /** The inner loop of `generate_typescript_types`: one line per property. */
  method InterfaceBody(schema: Value) returns (body: string)
    ensures body == InterfaceLines(schema, Fields(Lookup(Fields(schema), "properties")))
  {
    body := "";
    var f := Fields(schema);
    if HasKey(f, "properties") {
      var props := Fields(Lookup(f, "properties"));
      for i := 0 to |props|
        invariant body == InterfaceLines(schema, props[..i])
      {
        var propName, propSchema := props[i].0, props[i].1;
        var tsType := TsTypeOf(propSchema);
        var optional := if IsRequired(schema, propName) then "" else "?";
        var line := "  " + propName + optional + ": " + tsType + ";\n";
        assert line == PropertyLine(schema, propName, propSchema);
        assert props[..i + 1][..i] == props[..i];
        assert InterfaceLines(schema, props[..i + 1]) == InterfaceLines(schema, props[..i]) + line;
        body := body + line;
      }
      assert props[..|props|] == props;
    } else {
      assert Lookup(f, "properties") == Null;
    }
  }

  /** The `if 'type' ... elif 'anyOf' ...` step of `generate_typescript_types` for one property. */
  method TsTypeOf(prop: Value) returns (tsType: string)
    ensures tsType == TsType(prop)
  {
    tsType := "any";
    var p := Fields(prop);
    if HasKey(p, "type") {
      var t := Lookup(p, "type");
      if t == Str("string") {
        tsType := "string";
      } else if t == Str("integer") {
        tsType := "number";
      } else if t == Str("boolean") {
        tsType := "boolean";
      } else if t == Str("array") {
        tsType := "any[]";
      }
    } else if HasKey(p, "anyOf") {
      var types := UnionOf(Items(Lookup(p, "anyOf")));
      tsType := if types != [] then Join(types, " | ") else "any";
    }
  }

  /** The `anyOf` loop of `generate_typescript_types`. */
  method UnionOf(options: seq<Value>) returns (types: seq<string>)
    ensures types == UnionMembers(options)
  {
    types := [];
    for i := 0 to |options|
      invariant types == UnionMembers(options[..i])
    {
      var option := Fields(options[i]);
      if HasKey(option, "type") {
        if Lookup(option, "type") == Str("string") {
          types := types + ["string"];
        } else if Lookup(option, "type") == Str("null") {
          types := types + ["null"];
        }
      }
      assert options[..i + 1][..i] == options[..i];
    }
    assert options[..|options|] == options;
  }

  /** `generate_typescript_types`: the file text, without writing it. */
  method GenerateTypeScript(schemas: seq<(string, Value)>) returns (ts: string)
    ensures ts == TsFile(schemas)
  {
    ts := TsHeader;
    for i := 0 to |schemas|
      invariant ts == TsFile(schemas[..i])
    {
      var name, schema := schemas[i].0, schemas[i].1;
      var body := InterfaceBody(schema);
      var text := "export interface " + name + " {\n" + body + "}\n\n";
      assert text == InterfaceText(name, schema);
      assert schemas[..i + 1][..i] == schemas[..i];
      assert TsFile(schemas[..i + 1]) == TsFile(schemas[..i]) + text;
      ts := ts + text;
    }
    assert schemas[..|schemas|] == schemas;
  }

  // ---------------------------------------------------------------------------
  // Example data

  /** Failures of `generate_example_data`: an `anyOf` option without `type`. */
  datatype DocError = KeyError | AttributeError | TypeError

  /** The example for a `string`, `integer` or `boolean` type; nothing for any other. */
  function ScalarExample(name: string, t: Value): Option<Value>
  {
    if t == Str("string") then Some(Str("示例" + name))
    else if t == Str("integer") then Some(Int(1))
    else if t == Str("boolean") then Some(Bool(false))
    else None
  }

  /**
   * The `for ... else` over `anyOf`: the first option whose type is not
   * `null` decides (and may assign nothing); all-null gives `None`.
   */
  function FirstNonNull(name: string, options: seq<Value>): Result<Option<Value>, DocError>
  {
    if options == [] then Ok(Some(Null))
    else
      var o := Fields(options[0]);
      if !HasKey(o, "type") then Err(KeyError)
      else if Lookup(o, "type") != Str("null") then Ok(ScalarExample(name, Lookup(o, "type")))
      else FirstNonNull(name, options[1..])
  }

  /** What `example[prop_name]` becomes for one property: `None` when the key is not assigned. */
  function ExampleValue(name: string, prop: Value): Result<Option<Value>, DocError>
  {
    var f := Fields(prop);
    if HasKey(f, "type") then
      var t := Lookup(f, "type");
      Ok(if t == Str("array") then Some(Arr([])) else ScalarExample(name, t))
    else if HasKey(f, "anyOf") then FirstNonNull(name, Items(Lookup(f, "anyOf")))
    else Ok(None)
  }

  /** The example dict after visiting `props`, or the error that stopped it. */
  function Example(props: seq<(string, Value)>): Result<seq<(string, Value)>, DocError>
  {
    if props == [] then Ok([])
    else
      var last := props[|props| - 1];
      var init := Example(props[..|props| - 1]);
      if init.Err? then init
      else
        var v := ExampleValue(last.0, last.1);
        if v.Err? then Err(v.error)
        else if v.value.None? then init
        else Ok(Set(init.value, last.0, v.value.value))
  }

  /** The `anyOf` loop of `generate_example_data`. */
  method AnyOfExample(name: string, options: seq<Value>) returns (r: Result<Option<Value>, DocError>)
    ensures r == FirstNonNull(name, options)
  {
    var i := 0;
    while i < |options|
      invariant 0 <= i <= |options|
      invariant FirstNonNull(name, options[i..]) == FirstNonNull(name, options)
    {
      var option := Fields(options[i]);
      if !HasKey(option, "type") {
        return Err(KeyError);
      }
      if Lookup(option, "type") != Str("null") {
        return Ok(ScalarExample(name, Lookup(option, "type")));
      }
      assert options[i..][1..] == options[i + 1..];
      i := i + 1;
    }
    return Ok(Some(Null));
  }

  /** `generate_example_data(schema, openapi_spec)`. */
  method GenerateExampleData(schema: Value) returns (r: Result<seq<(string, Value)>, DocError>)
    ensures r == Example(Fields(Lookup(Fields(schema), "properties")))
  {
    var example: seq<(string, Value)> := [];
    var f := Fields(schema);
    if !HasKey(f, "properties") {
      assert Lookup(f, "properties") == Null;
      return Ok(example);
    }
    var props := Fields(Lookup(f, "properties"));
    for i := 0 to |props|
      invariant Example(props[..i]) == Ok(example)
    {
      var propName, propSchema := props[i].0, props[i].1;
      var p := Fields(propSchema);
      assert props[..i + 1][..i] == props[..i];
      if HasKey(p, "type") {
        var t := Lookup(p, "type");
        if t == Str("string") {
          example := Set(example, propName, Str("示例" + propName));
        } else if t == Str("integer") {
          example := Set(example, propName, Int(1));
        } else if t == Str("boolean") {
          example := Set(example, propName, Bool(false));
        } else if t == Str("array") {
          example := Set(example, propName, Arr([]));
        }
      } else if HasKey(p, "anyOf") {
        var v := AnyOfExample(propName, Items(Lookup(p, "anyOf")));
        if v.Err? {
          ExampleErrSticks(props, i + 1);
          return Err(v.error);
        }
        if v.value.Some? {
          example := Set(example, propName, v.value.value);
        }
      }
    }
    assert props[..|props|] == props;
    r := Ok(example);
  }

  /** Once a property fails, the rest of the properties are never visited. */
  lemma {:induction false} ExampleErrSticks(props: seq<(string, Value)>, n: nat)
    requires n <= |props| && Example(props[..n]).Err?
    ensures Example(props) == Example(props[..n])
    decreases |props| - n
  {
    if n < |props| {
      var init := props[..|props| - 1];
      assert init[..n] == props[..n];
      ExampleErrSticks(init, n);
    } else {
      assert props[..n] == props;
    }
  }

  predicate DistinctNames(props: seq<(string, Value)>)
  {
    forall i, j :: 0 <= i < j < |props| ==> props[i].0 != props[j].0
  }

  /**
   * With distinct property names, a successful example holds a key for a
   * property exactly when that property's example assigns one, with that value.
   */
  lemma {:induction false} ExampleAt(props: seq<(string, Value)>, i: nat)
    requires DistinctNames(props) && i < |props| && Example(props).Ok?
    ensures ExampleValue(props[i].0, props[i].1).Ok?
    ensures var v := ExampleValue(props[i].0, props[i].1).value;
            var e := Example(props).value;
            (HasKey(e, props[i].0) <==> v.Some?) && (v.Some? ==> Lookup(e, props[i].0) == v.value)
  {
    var init := props[..|props| - 1];
    var last := props[|props| - 1];
    var name := props[i].0;
    assert DistinctNames(init);
    var e0 := Example(init).value;
    var v := ExampleValue(last.0, last.1).value;
    if i < |props| - 1 {
      assert init[i] == props[i];
      ExampleAt(init, i);
      assert name != last.0;
      if v.Some? {
        HasKeySet(e0, last.0, v.value, name);
        LookupSet(e0, last.0, v.value, name);
      }
    } else {
      if v.Some? {
        HasKeySet(e0, last.0, v.value, name);
        LookupSet(e0, last.0, v.value, name);
      } else {
        ExampleKeysFrom(init, name);
      }
    }
  }

  /** The example only has keys that are property names. */
  lemma {:induction false} ExampleKeysFrom(props: seq<(string, Value)>, name: string)
    requires Example(props).Ok?
    requires forall i :: 0 <= i < |props| ==> props[i].0 != name
    ensures !HasKey(Example(props).value, name)
  {
    if props != [] {
      var init := props[..|props| - 1];
      var last := props[|props| - 1];
      ExampleKeysFrom(init, name);
      var v := ExampleValue(last.0, last.1).value;
      if v.Some? {
        HasKeySet(Example(init).value, last.0, v.value, name);
      }
    }
  }

  /** `Optional[Model]`: an `anyOf` whose first option is a `$ref` without `type` fails with a `KeyError`. */
  lemma RefOptionFails()
    ensures ExampleValue("item", Obj([("anyOf", Arr([Obj([("$ref", Str("#/components/schemas/Item"))]), Obj([("type", Str("null"))])]))]))
            == Err(KeyError)
  {
    var r := Obj([("$ref", Str("#/components/schemas/Item"))]);
    assert !HasKey(Fields(r), "type");
    var f := [("anyOf", Arr([r, Obj([("type", Str("null"))])]))];
    assert !HasKey(f, "type") && HasKey(f, "anyOf");
  }

  /** An `anyOf` list whose first non-null option is an array assigns nothing; an all-null one assigns `None`. */
  lemma AnyOfArrayOrNull()
    ensures ExampleValue("tags", Obj([("anyOf", Arr([Obj([("type", Str("array"))]), Obj([("type", Str("null"))])]))])) == Ok(None)
    ensures ExampleValue("note", Obj([("anyOf", Arr([Obj([("type", Str("null"))])]))])) == Ok(Some(Null))
  {
    var a, n := Obj([("type", Str("array"))]), Obj([("type", Str("null"))]);
    assert HasKey(Fields(a), "type") && Lookup(Fields(a), "type") == Str("array");
    assert HasKey(Fields(n), "type") && Lookup(Fields(n), "type") == Str("null");
    assert [n][1..] == [];
    var f := [("anyOf", Arr([a, n]))];
    assert !HasKey(f, "type") && HasKey(f, "anyOf");
    var g := [("anyOf", Arr([n]))];
    assert !HasKey(g, "type") && HasKey(g, "anyOf");
  }

  // ---------------------------------------------------------------------------
  // Markdown parameter types and Postman paths

  function Last(parts: seq<string>): string
    requires parts != []
  {
    parts[|parts| - 1]
  }

  /** `o.get('type', 'any')` for one `anyOf` option that is a dict. */
  function OptionTypeOr(option: Value): Value
    requires option.Obj?
  {
    if HasKey(option.fields, "type") then Lookup(option.fields, "type") else Str("any")
  }

  /**
   * The list comprehension `[o.get('type', 'any') for o in anyOf]`: it is
   * built whole before it is joined, so a non-dict option raises
   * `AttributeError` whatever the types before it are.
   */
  function AnyOfTypes(options: seq<Value>): (r: Result<seq<Value>, DocError>)
    ensures r.Err? <==> exists i :: 0 <= i < |options| && !options[i].Obj?
    ensures r.Err? ==> r.error == AttributeError
    ensures r.Ok? ==> |r.value| == |options|
                      && forall i :: 0 <= i < |options| ==> options[i].Obj? && r.value[i] == OptionTypeOr(options[i])
  {
    if options == [] then Ok([])
    else
      var init := options[..|options| - 1];
      var o := options[|options| - 1];
      assert forall i :: 0 <= i < |init| ==> init[i] == options[i];
      var rest := AnyOfTypes(init);
      if rest.Err? then rest
      else if !o.Obj? then Err(AttributeError)
      else Ok(rest.value + [OptionTypeOr(o)])
  }

  /** `' | '.join(types)` accepts strings only: any other item raises `TypeError`. */
  function TypeNames(types: seq<Value>): (r: Result<seq<string>, DocError>)
    ensures r.Ok? <==> forall i :: 0 <= i < |types| ==> types[i].Str?
    ensures r.Err? ==> r.error == TypeError
    ensures r.Ok? ==> |r.value| == |types| && forall i :: 0 <= i < |types| ==> r.value[i] == types[i].s
  {
    if types == [] then Ok([])
    else
      var init := types[..|types| - 1];
      var t := types[|types| - 1];
      assert forall i :: 0 <= i < |init| ==> init[i] == types[i];
      var rest := TypeNames(init);
      if rest.Err? then rest
      else if !t.Str? then Err(TypeError)
      else Ok(rest.value + [t.s])
  }

  /**
   * The Markdown parameter type: `type`, else the last `/` segment of `$ref`,
   * else the `anyOf` types (`any` where missing), else `any`.
   */
  function ParamType(schema: Value): Result<string, DocError>
  {
    var f := Fields(schema);
    if HasKey(f, "type") then Ok(PyStr(Lookup(f, "type")))
    else if HasKey(f, "$ref") then
      var r := Lookup(f, "$ref");
      if r.Str? then Ok(Last(Split(r.s, '/'))) else Err(AttributeError)
    else if HasKey(f, "anyOf") then
      var types := AnyOfTypes(Items(Lookup(f, "anyOf")));
      if types.Err? then Err(types.error)
      else
        var names := TypeNames(types.value);
        if names.Err? then Err(names.error) else Ok(Join(names.value, " | "))
    else Ok("any")
  }

  /**
   * Which branch decides the parameter type: `type` first, then a `$ref`
   * (its last segment), then `anyOf` (a non-dict option is an
   * `AttributeError`, else a non-string type a `TypeError`, else the type
   * names joined by `" | "`), and `any` when none is present.
   */
  lemma ParamTypeChoice(schema: Value)
    ensures var f := Fields(schema);
            HasKey(f, "type") ==> ParamType(schema) == Ok(PyStr(Lookup(f, "type")))
    ensures var f := Fields(schema);
            !HasKey(f, "type") && HasKey(f, "$ref") ==>
              ParamType(schema) == (if Lookup(f, "$ref").Str? then Ok(Last(Split(Lookup(f, "$ref").s, '/'))) else Err(AttributeError))
    ensures var f := Fields(schema);
            var options := Items(Lookup(f, "anyOf"));
            !HasKey(f, "type") && !HasKey(f, "$ref") && HasKey(f, "anyOf") ==>
              ((exists i :: 0 <= i < |options| && !options[i].Obj?) ==> ParamType(schema) == Err(AttributeError))
    ensures var f := Fields(schema);
            var options := Items(Lookup(f, "anyOf"));
            !HasKey(f, "type") && !HasKey(f, "$ref") && HasKey(f, "anyOf")
            && (forall i :: 0 <= i < |options| ==> options[i].Obj?)
            && (exists i :: 0 <= i < |options| && !OptionTypeOr(options[i]).Str?) ==>
              ParamType(schema) == Err(TypeError)
    ensures var f := Fields(schema);
            var options := Items(Lookup(f, "anyOf"));
            !HasKey(f, "type") && !HasKey(f, "$ref") && HasKey(f, "anyOf")
            && (forall i :: 0 <= i < |options| ==> options[i].Obj? && OptionTypeOr(options[i]).Str?) ==>
              exists names: seq<string> ::
                |names| == |options|
                && (forall i :: 0 <= i < |options| ==> names[i] == OptionTypeOr(options[i]).s)
                && ParamType(schema) == Ok(Join(names, " | "))
    ensures var f := Fields(schema);
            !HasKey(f, "type") && !HasKey(f, "$ref") && !HasKey(f, "anyOf") ==> ParamType(schema) == Ok("any")
  {
    var f := Fields(schema);
    var options := Items(Lookup(f, "anyOf"));
    if !HasKey(f, "type") && !HasKey(f, "$ref") && HasKey(f, "anyOf") {
      var types := AnyOfTypes(options);
      if types.Ok? {
        var names := TypeNames(types.value);
        if (forall i :: 0 <= i < |options| ==> options[i].Obj? && OptionTypeOr(options[i]).Str?) {
          assert forall i :: 0 <= i < |types.value| ==> types.value[i].Str?;
          assert names.Ok?;
          assert forall i :: 0 <= i < |options| ==> names.value[i] == OptionTypeOr(options[i]).s;
        }
        if exists i :: 0 <= i < |options| && !OptionTypeOr(options[i]).Str? {
          var j :| 0 <= j < |options| && !OptionTypeOr(options[j]).Str?;
          assert !types.value[j].Str?;
          assert names.Err?;
        }
      }
    }
  }

  /**
   * A non-dict option raises `AttributeError` even after an option whose
   * type is not a string: the whole list is built before it is joined.
   */
  lemma ParamTypeNonDictBeforeJoin()
    ensures ParamType(Obj([("anyOf", Arr([Obj([("type", Int(1))]), Str("x")]))])) == Err(AttributeError)
  {
    var options := [Obj([("type", Int(1))]), Str("x")];
    assert !options[1].Obj?;
    assert AnyOfTypes(options).Err?;
  }

  /** The name taken from a `$ref` holds no `/` and is the end of the reference. */
  lemma RefNameIsLastSegment(ref: string)
    ensures var name := Last(Split(ref, '/'));
            '/' !in name && |name| <= |ref| && ref[|ref| - |name|..] == name
  {
    var parts := Split(ref, '/');
    SplitParts(ref, '/');
    assert parts[|parts| - 1] in parts;
    JoinSplit(ref, '/');
    JoinEndsWith(parts, "/");
  }

  lemma {:induction false} JoinEndsWith(parts: seq<string>, sep: string)
    requires |parts| >= 1
    ensures var j := Join(parts, sep);
            |Last(parts)| <= |j| && j[|j| - |Last(parts)|..] == Last(parts)
  {
    if |parts| > 1 {
      JoinEndsWith(parts[1..], sep);
      var rest := Join(parts[1..], sep);
      assert Join(parts, sep) == parts[0] + sep + rest;
      assert Last(parts[1..]) == Last(parts);
    }
  }

  /** `path.strip('/').split('/')`: the Postman `url.path` list. */
  function PathSegments(path: string): seq<string>
  {
    Split(Strip(path, '/'), '/')
  }

  /**
   * The segments hold no `/`, joining them with `/` gives the path without its
   * outer slashes, and a path with any other character has non-empty outer segments.
   */
  lemma PathSegmentsRoundTrip(path: string)
    ensures forall p :: p in PathSegments(path) ==> '/' !in p
    ensures Join(PathSegments(path), "/") == Strip(path, '/')
    ensures Strip(path, '/') != "" ==> PathSegments(path)[0] != "" && Last(PathSegments(path)) != ""
  {
    var s := Strip(path, '/');
    SplitParts(s, '/');
    JoinSplit(s, '/');
    assert "/" == ['/'];
    var parts := Split(s, '/');
    if s != "" {
      StripEnds(path);
      JoinStartsWith(parts, "/");
      JoinEndsWith(parts, "/");
      if Last(parts) == "" && |parts| > 1 {
        LastEmptyEndsWithSep(parts);
      }
    }
  }

  /** A stripped, non-empty path neither starts nor ends with `/`. */
  lemma StripEnds(path: string)
    requires Strip(path, '/') != ""
    ensures Strip(path, '/')[0] != '/' && Strip(path, '/')[|Strip(path, '/')| - 1] != '/'
  {
    var l := StripLeft(path, '/');
  }

  lemma {:induction false} LastEmptyEndsWithSep(parts: seq<string>)
    requires |parts| > 1 && Last(parts) == ""
    ensures var j := Join(parts, "/"); j != "" && j[|j| - 1] == '/'
  {
    if |parts| == 2 {
      assert Join(parts, "/") == parts[0] + "/" + "";
    } else {
      LastEmptyEndsWithSep(parts[1..]);
      assert Join(parts, "/") == parts[0] + "/" + Join(parts[1..], "/");
    }
  }
}
