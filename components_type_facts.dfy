/** What the type-expression synthesiser of src/parser.ts promises:
    the scalar and composite rules of `getType`, the enum deduplication,
    the `required` rule of inline object types, and the cycle guard of
    `getRefName`. */
module ComponentsTypeFacts {
  import opened Wrappers
  import opened JsonValues
  import opened Text
  import opened Types
  import opened Names
  import opened ComponentsPointer
  import opened ComponentsModel
  import opened ComponentsSynth
  import Utils

  // ---------------------------------------------------------------- enum sets

  /** Independent description of `Array.from(new Set(values))`: scanning
      from the end, an element is kept iff it does not occur before. */
  function KeepFirsts(values: seq<Option<Json>>): seq<Option<Json>> {
    if values == [] then []
    else
      var init := values[..|values| - 1];
      var last := values[|values| - 1];
      KeepFirsts(init) + (if last in init then [] else [last])
  }

  lemma {:induction false} UniqueFromSnoc(values: seq<Option<Json>>, x: Option<Json>, seen: set<Option<Json>>)
    ensures UniqueFrom(values + [x], seen)
         == UniqueFrom(values, seen) + (if x in values || x in seen then [] else [x])
    decreases |values|
  {
    if values == [] {
      var single: seq<Option<Json>> := [x];
      assert values + [x] == single && single[1..] == [];
    } else {
      assert (values + [x])[0] == values[0];
      assert (values + [x])[1..] == values[1..] + [x];
      if values[0] in seen {
        UniqueFromSnoc(values[1..], x, seen);
        assert x in values[1..] ==> x in values;
        assert x in values && x !in values[1..] ==> x == values[0];
      } else {
        UniqueFromSnoc(values[1..], x, seen + {values[0]});
        assert x in values <==> x == values[0] || x in values[1..];
      }
    }
  }

  /** The `Set` round trip keeps exactly the first occurrences, in order. */
  lemma {:induction false} UniqueKeepsFirsts(values: seq<Option<Json>>)
    ensures Unique(values) == KeepFirsts(values)
    decreases |values|
  {
    if values != [] {
      var init := values[..|values| - 1];
      var last := values[|values| - 1];
      assert values == init + [last];
      UniqueKeepsFirsts(init);
      UniqueFromSnoc(init, last, {});
    }
  }

  lemma {:induction false} UniqueFromElements(values: seq<Option<Json>>, seen: set<Option<Json>>, x: Option<Json>)
    ensures x in UniqueFrom(values, seen) <==> x in values && x !in seen
    decreases |values|
  {
    if values != [] {
      assert x in values <==> x == values[0] || x in values[1..];
      if values[0] in seen {
        UniqueFromElements(values[1..], seen, x);
      } else {
        UniqueFromElements(values[1..], seen + {values[0]}, x);
      }
    }
  }

  lemma {:induction false} UniqueFromDistinct(values: seq<Option<Json>>, seen: set<Option<Json>>)
    ensures forall i, j :: 0 <= i < j < |UniqueFrom(values, seen)| ==> UniqueFrom(values, seen)[i] != UniqueFrom(values, seen)[j]
    decreases |values|
  {
    if values != [] {
      if values[0] in seen {
        UniqueFromDistinct(values[1..], seen);
      } else {
        var rest := UniqueFrom(values[1..], seen + {values[0]});
        UniqueFromDistinct(values[1..], seen + {values[0]});
        UniqueFromElements(values[1..], seen + {values[0]}, values[0]);
        assert UniqueFrom(values, seen) == [values[0]] + rest;
      }
    }
  }

  /** An enum union lists every value once, and nothing else. */
  lemma UniqueIsSet(values: seq<Option<Json>>)
    ensures forall x :: x in Unique(values) <==> x in values
    ensures forall i, j :: 0 <= i < j < |Unique(values)| ==> Unique(values)[i] != Unique(values)[j]
  {
    forall x ensures x in Unique(values) <==> x in values {
      UniqueFromElements(values, {}, x);
    }
    UniqueFromDistinct(values, {});
  }

  // ---------------------------------------------------------------- scalars

  /** No name is in two of the scalar name lists, and the keywords of the
      composite branches are in none of them. */
  lemma NameListsDisjoint()
    ensures forall s :: s in DateNames ==> s !in NumberNames
    ensures forall s :: s in StringNames ==> s !in NumberNames && s !in DateNames
    ensures forall s :: s in ["boolean", "enum", "array", "object"] ==> s !in NumberNames && s !in DateNames && s !in StringNames
  {
  }

  /** The scalar rules of `getType`: a numeric `format` gives `number`,
      and otherwise the date names, the string names and `boolean` are
      matched against `type` alone; `enum` overrides them all. */
  lemma ScalarRules(v: Json)
    ensures Truthy(Lookup(v, "enum")) ==> ScalarKeyword(TypeKeyword(v)).None?
    ensures (!Truthy(Lookup(v, "enum")) && Includes(NumberNames, Lookup(v, "format"))) ==>
              ScalarKeyword(TypeKeyword(v)) == Some("number")
    ensures !Truthy(Lookup(v, "enum")) && !Includes(NumberNames, Lookup(v, "format")) ==>
              && (ScalarKeyword(TypeKeyword(v)) == Some("Date") <==> Includes(DateNames, Lookup(v, "type")))
              && (ScalarKeyword(TypeKeyword(v)) == Some("string") <==> Includes(StringNames, Lookup(v, "type")))
              && (ScalarKeyword(TypeKeyword(v)) == Some("boolean") <==> IsString(Lookup(v, "type"), "boolean"))
  {
    NameListsDisjoint();
    assert "enum" in ["boolean", "enum", "array", "object"];
    assert "boolean" in ["boolean", "enum", "array", "object"];
  }

  /** A scalar schema is its keyword, and does not touch the state. */
  lemma ScalarTypes(env: Env, st: State, v: Json)
    requires v.JObj? && !Truthy(Lookup(v, "$ref"))
    requires ScalarKeyword(TypeKeyword(v)).Some?
    ensures GetType(env, st, Some(v)) == Ok((Some(JStr(ScalarKeyword(TypeKeyword(v)).value)), st))
  {
  }

  /** `null`, `undefined` and non-object values. */
  lemma PlainValues(env: Env, st: State, x: Option<Json>)
    requires x.None? || (!x.value.JObj? && !x.value.JArr?)
    ensures x.None? || x == Some(JNull) ==> GetType(env, st, x) == Ok((Some(JStr("object")), st))
    ensures x.Some? && x != Some(JNull) ==> GetType(env, st, x) == Ok((x, st))
  {
  }

  /** A truthy `enum` takes the enum branch whatever `type` and `format`
      say; a list gives the union of its values, anything else `string`. */
  lemma EnumUnion(env: Env, st: State, v: Json)
    requires v.JObj? && !Truthy(Lookup(v, "$ref")) && Truthy(Lookup(v, "enum"))
    ensures GetType(env, st, Some(v)) == EnumType(env, st, v)
    ensures !Lookup(v, "enum").value.JArr? ==> EnumType(env, st, v) == Ok((Some(JStr("string")), st))
    ensures Lookup(v, "enum").value.JArr? ==>
              var p := EnumTypes(env, st, Lookup(v, "enum").value.items);
              p.Ok? ==> EnumType(env, st, v) == Ok((Some(JStr(JoinValues(Unique(p.value.0), " | "))), p.value.1))
  {
    ScalarRules(v);
    assert TypeKeyword(v) == Some(JStr("enum"));
  }

  /** `resolveObject` on an enum schema: a list gives `{type: <union>}`,
      the same union and state `getType`'s enum branch gives (see
      `EnumUnion`); any other truthy `enum` throws at `.map`. */
  lemma EnumObject(env: Env, st: State, v: Json)
    requires v.JObj? && !Truthy(Lookup(v, "$ref")) && Truthy(Lookup(v, "enum"))
    ensures ResolveObject(env, st, Some(v)) == ResolveEnumObject(env, st, v)
    ensures !Lookup(v, "enum").value.JArr? ==> ResolveEnumObject(env, st, v) == Failure(TypeError)
    ensures Lookup(v, "enum").value.JArr? ==>
              && (ResolveEnumObject(env, st, v).Ok? <==> EnumType(env, st, v).Ok?)
              && (EnumType(env, st, v).Ok? ==>
                    ResolveEnumObject(env, st, v)
                    == Ok((Value(Some(JObj([Member("type", EnumType(env, st, v).value.0.value)]))),
                           EnumType(env, st, v).value.1)))
    ensures Lookup(v, "enum").value.JArr? ==>
              var p := EnumTypes(env, st, Lookup(v, "enum").value.items);
              p.Ok? ==> ResolveEnumObject(env, st, v)
                        == Ok((Value(Some(JObj([Member("type", JStr(JoinValues(Unique(p.value.0), " | ")))]))),
                               p.value.1))
  {
    assert Prop(Some(v), "$ref") == Ok(Lookup(v, "$ref"));
  }

  /** Strings in an enum are quoted and never reach `getType`. */
  lemma {:induction false} StringEnumValues(env: Env, st: State, items: seq<Json>)
    requires forall i :: 0 <= i < |items| ==> items[i].JStr?
    ensures EnumTypes(env, st, items) == Ok((Quoted(items), st))
    decreases |items|
  {
    if items != [] {
      StringEnumValues(env, st, items[1..]);
    }
  }

  function Quoted(items: seq<Json>): seq<Option<Json>>
    requires forall i :: 0 <= i < |items| ==> items[i].JStr?
  {
    if items == [] then [] else [Some(JStr("\"" + items[0].s + "\""))] + Quoted(items[1..])
  }

  /** `enum: ['a', 'b', 'a']` gives `"a" | "b"`. */
  lemma StringEnum(env: Env, st: State, v: Json)
    requires v.JObj? && !Truthy(Lookup(v, "$ref"))
    requires Lookup(v, "enum") == Some(JArr([JStr("a"), JStr("b"), JStr("a")]))
    ensures GetType(env, st, Some(v)) == Ok((Some(JStr("\"a\" | \"b\"")), st))
  {
    var items := [JStr("a"), JStr("b"), JStr("a")];
    EnumUnion(env, st, v);
    StringEnumValues(env, st, items);
    QuotedABA();
    UniqueABA();
    JoinAB();
  }

  lemma QuotedABA()
    ensures Quoted([JStr("a"), JStr("b"), JStr("a")]) == [Some(JStr("\"a\"")), Some(JStr("\"b\"")), Some(JStr("\"a\""))]
  {
    var items := [JStr("a"), JStr("b"), JStr("a")];
    var a, b := Some(JStr("\"a\"")), Some(JStr("\"b\""));
    assert "\"" + "a" + "\"" == "\"a\"" && "\"" + "b" + "\"" == "\"b\"";
    assert Quoted(items[2..]) == [a];
    assert Quoted(items[1..]) == [b, a];
  }

  lemma UniqueABA()
    ensures var a, b := Some(JStr("\"a\"")), Some(JStr("\"b\""));
            Unique([a, b, a]) == [a, b]
  {
    var a, b := Some(JStr("\"a\"")), Some(JStr("\"b\""));
    assert a != b by {
      assert "\"a\""[1] != "\"b\""[1];
    }
    assert UniqueFrom([a], {a} + {b}) == [] by {
      assert [a][1..] == [];
    }
    assert UniqueFrom([b, a], {a}) == [b] by {
      assert [b, a][1..] == [a];
    }
    var none: set<Option<Json>> := {};
    assert none + {a} == {a};
    assert [a, b, a][1..] == [b, a];
    assert UniqueFrom([a, b, a], none) == [a] + UniqueFrom([b, a], none + {a});
  }

  lemma JoinAB()
    ensures JoinValues([Some(JStr("\"a\"")), Some(JStr("\"b\""))], " | ") == "\"a\" | \"b\""
  {
    var a, b := Some(JStr("\"a\"")), Some(JStr("\"b\""));
    assert [a, b][1..] == [b];
    assert JoinValues([b], " | ") == "\"b\"";
    assert "\"a\"" + " | " + "\"b\"" == "\"a\" | \"b\"";
  }

  // ---------------------------------------------------------------- arrays

  /** The keywords that select the composite branches are not scalar
      names. */
  lemma CompositeKeywords()
    ensures ScalarKeyword(Some(JStr("array"))).None?
    ensures ScalarKeyword(Some(JStr("enum"))).None?
    ensures ScalarKeyword(Some(JStr("object"))).None?
  {
    NameListsDisjoint();
    assert "array" in ["boolean", "enum", "array", "object"];
    assert "enum" in ["boolean", "enum", "array", "object"];
    assert "object" in ["boolean", "enum", "array", "object"];
  }

  /** A schema whose type is `array` (and has no `enum`) takes the array
      branch. */
  lemma ArrayBranch(env: Env, st: State, v: Json)
    requires v.JObj? && !Truthy(Lookup(v, "$ref")) && !Truthy(Lookup(v, "enum"))
    requires !Includes(NumberNames, Lookup(v, "format")) && IsString(Lookup(v, "type"), "array")
    ensures GetType(env, st, Some(v)) == ArrayType(env, st, v)
  {
    assert TypeKeyword(v) == Lookup(v, "type");
    CompositeKeywords();
  }

  /** `T[]`, with `T` parenthesised exactly when it is a union. */
  lemma ArrayOfItems(env: Env, st: State, v: Json)
    requires !Truthy(Lookup(v, "schema"))
    requires var items := Lookup(v, "items"); items.None? || !items.value.JArr?
    ensures var p := GetType(env, st, Lookup(v, "items"));
            p.Ok? && p.value.0.Some? && p.value.0.value.JStr? ==>
              var s := p.value.0.value.s;
              ArrayType(env, st, v)
                == Ok((Some(JStr(if Contains(s, " | ") then "(" + s + ")[]" else s + "[]")), p.value.1))
  {
  }

  /** A tuple: one type per item, in order, between brackets. */
  lemma TupleOfItems(env: Env, st: State, v: Json)
    requires !Truthy(Lookup(v, "schema"))
    requires var items := Lookup(v, "items"); items.Some? && items.value.JArr?
    ensures var p := TupleTypes(env, st, Lookup(v, "items").value.items);
            p.Ok? ==> |p.value.0| == |Lookup(v, "items").value.items|
                      && ArrayType(env, st, v) == Ok((Some(JStr("[" + JoinValues(p.value.0, ",") + "]")), p.value.1))
  {
  }

  /** An array of a union is parenthesised: `items: {enum: ['a', 'b', 'a']}`
      gives `("a" | "b")[]`. */
  lemma UnionArray(env: Env, st: State, v: Json, items: Json)
    requires !Truthy(Lookup(v, "schema")) && Lookup(v, "items") == Some(items)
    requires items.JObj? && !Truthy(Lookup(items, "$ref"))
    requires Lookup(items, "enum") == Some(JArr([JStr("a"), JStr("b"), JStr("a")]))
    ensures ArrayType(env, st, v) == Ok((Some(JStr("(\"a\" | \"b\")[]")), st))
  {
    StringEnum(env, st, items);
    ArrayOfItems(env, st, v);
    UnionText();
  }

  lemma UnionText()
    ensures Contains("\"a\" | \"b\"", " | ")
    ensures "(" + "\"a\" | \"b\"" + ")[]" == "(\"a\" | \"b\")[]"
  {
    assert OccursAt("\"a\" | \"b\"", " | ", 3);
  }

  // ---------------------------------------------------------------- oneOf and allOf

  /** A schema that takes none of the scalar, array and enum branches and
      has a non-empty `oneOf` is the union of its members' types, one per
      member and in order; a `oneOf` that is not a list has no `map`. */
  lemma OneOfUnion(env: Env, st: State, v: Json)
    requires v.JObj? && !Truthy(Lookup(v, "$ref"))
    requires ScalarKeyword(TypeKeyword(v)).None?
    requires !IsString(TypeKeyword(v), "array") && !IsString(TypeKeyword(v), "enum")
    requires NonEmpty(Lookup(v, "oneOf"))
    ensures !Lookup(v, "oneOf").value.JArr? ==> GetType(env, st, Some(v)) == Failure(TypeError)
    ensures Lookup(v, "oneOf").value.JArr? ==>
              var p := ListTypes(env, st, Lookup(v, "oneOf").value.items);
              && (p.Failure? ==> GetType(env, st, Some(v)) == Failure(p.error))
              && (p.Ok? ==> && |p.value.0| == |Lookup(v, "oneOf").value.items|
                            && GetType(env, st, Some(v)) == Ok((Some(JStr(JoinValues(p.value.0, " | "))), p.value.1)))
  {
    assert GetType(env, st, Some(v)) == ListJoin(env, st, v, "oneOf", " | ", "", "");
    if Lookup(v, "oneOf").value.JArr? {
      var p := ListTypes(env, st, Lookup(v, "oneOf").value.items);
      if p.Ok? {
        assert "" + JoinValues(p.value.0, " | ") + "" == JoinValues(p.value.0, " | ");
      }
    }
  }

  /** With no non-empty `oneOf`, a non-empty `allOf` is the intersection
      of its members' types, one per member and in order, in parentheses. */
  lemma AllOfIntersection(env: Env, st: State, v: Json)
    requires v.JObj? && !Truthy(Lookup(v, "$ref"))
    requires ScalarKeyword(TypeKeyword(v)).None?
    requires !IsString(TypeKeyword(v), "array") && !IsString(TypeKeyword(v), "enum")
    requires !NonEmpty(Lookup(v, "oneOf")) && NonEmpty(Lookup(v, "allOf"))
    ensures !Lookup(v, "allOf").value.JArr? ==> GetType(env, st, Some(v)) == Failure(TypeError)
    ensures Lookup(v, "allOf").value.JArr? ==>
              var p := ListTypes(env, st, Lookup(v, "allOf").value.items);
              && (p.Failure? ==> GetType(env, st, Some(v)) == Failure(p.error))
              && (p.Ok? ==> && |p.value.0| == |Lookup(v, "allOf").value.items|
                            && GetType(env, st, Some(v))
                               == Ok((Some(JStr("(" + JoinValues(p.value.0, " & ") + ")")), p.value.1)))
  {
    assert GetType(env, st, Some(v)) == ListJoin(env, st, v, "allOf", " & ", "(", ")");
  }

  // ---------------------------------------------------------------- objects

  /** Independent statement of the `required` rule of an inline object
      type: the property's own `required` if it has that key, otherwise
      the truthiness of the parent's `required`. */
  predicate LineRequired(v: Json, pv: Option<Json>) {
    if pv.Some? && Lookup(pv.value, "required").Some? then Truthy(Lookup(pv.value, "required"))
    else Truthy(Lookup(v, "required"))
  }

  /** The start of the line of property `key`. */
  function LineHead(key: string, required: bool): string {
    "'" + key + "'" + (if required then ": " else "?: ")
  }

  lemma PropertyLineHead(key: string, required: bool, t: Option<Json>, description: Option<Json>)
    ensures StartsWith(PropertyLine(key, required, t, description), LineHead(key, required))
  {
    var head := LineHead(key, required);
    var line := PropertyLine(key, required, t, description);
    assert line == head + line[|head|..];
  }

  /** One line per property, in key order, each starting with the quoted
      key and `?` exactly when the property is not required. */
  lemma {:induction false} PropertyLinesRequired(env: Env, st: State, v: Json, props: Json, keys: seq<string>)
    requires Size(props) < Size(v)
    ensures var r := PropertyLines(env, st, v, props, keys);
            r.Ok? ==> |r.value.0| == |keys|
                      && forall i :: 0 <= i < |keys| ==>
                           StartsWith(r.value.0[i], LineHead(keys[i], LineRequired(v, Lookup(props, keys[i]))))
    decreases |keys|
  {
    var r := PropertyLines(env, st, v, props, keys);
    if keys != [] && r.Ok? {
      var st' := PropertyLineFirst(env, st, v, props, keys);
      PropertyLinesRequired(env, st', v, props, keys[1..]);
      LinesFollowCons(r.value.0, PropertyLines(env, st', v, props, keys[1..]).value.0, v, props, keys);
    }
  }

  /** Every line starts as the key in the same position and its
      `required` ask. */
  predicate LinesFollow(lines: seq<string>, v: Json, props: Json, keys: seq<string>) {
    |lines| == |keys|
    && forall i :: 0 <= i < |keys| ==> StartsWith(lines[i], LineHead(keys[i], LineRequired(v, Lookup(props, keys[i]))))
  }

  lemma LinesFollowCons(lines: seq<string>, rest: seq<string>, v: Json, props: Json, keys: seq<string>)
    requires keys != [] && lines != [] && lines == [lines[0]] + rest
    requires StartsWith(lines[0], LineHead(keys[0], LineRequired(v, Lookup(props, keys[0]))))
    requires LinesFollow(rest, v, props, keys[1..])
    ensures LinesFollow(lines, v, props, keys)
  {
    forall i | 0 <= i < |keys|
      ensures StartsWith(lines[i], LineHead(keys[i], LineRequired(v, Lookup(props, keys[i]))))
    {
      if i > 0 {
        assert lines[i] == rest[i - 1] && keys[i] == keys[1..][i - 1];
      }
    }
  }

  /** The first line, and the state the other lines start from. */
  lemma PropertyLineFirst(env: Env, st: State, v: Json, props: Json, keys: seq<string>) returns (st': State)
    requires Size(props) < Size(v) && keys != [] && PropertyLines(env, st, v, props, keys).Ok?
    ensures var r := PropertyLines(env, st, v, props, keys);
            var rest := PropertyLines(env, st', v, props, keys[1..]);
            && rest.Ok?
            && r.value.0 == [r.value.0[0]] + rest.value.0
            && StartsWith(r.value.0[0], LineHead(keys[0], LineRequired(v, Lookup(props, keys[0]))))
  {
    var pv := Lookup(props, keys[0]);
    var t := GetType(env, st, pv).value;
    var holder := Or(pv, Some(JObj([])));
    var required := if Lookup(holder.value, "required").Some? then Lookup(holder.value, "required")
                    else Or(Lookup(v, "required"), Some(JBool(false)));
    PropertyLineHead(keys[0], Truthy(required), t.0, Prop(pv, "description").value);
    st' := t.1;
  }

  /** Any `required` list on the parent (even an empty one) makes every
      property without its own `required` key required. */
  lemma ParentListRequires(v: Json, pv: Option<Json>)
    requires Lookup(v, "required").Some? && Lookup(v, "required").value.JArr?
    requires pv.None? || Lookup(pv.value, "required").None?
    ensures LineRequired(v, pv)
  {
  }

  /** An object schema without properties is the type `object`. */
  lemma EmptyObject(env: Env, st: State, v: Json)
    requires v.JObj? && !Truthy(Lookup(v, "$ref")) && !Truthy(Lookup(v, "enum"))
    requires !Includes(NumberNames, Lookup(v, "format")) && IsString(Lookup(v, "type"), "object")
    requires !NonEmpty(Lookup(v, "oneOf")) && !NonEmpty(Lookup(v, "allOf"))
    requires Lookup(v, "properties").None? || Lookup(v, "properties") == Some(JObj([]))
    ensures GetType(env, st, Some(v)) == Ok((Some(JStr("object")), st))
  {
    assert TypeKeyword(v) == Lookup(v, "type");
    CompositeKeywords();
  }

  /** `getType(DEFAULT_SCHEMA)`, which `getFields` uses for a falsy
      property. */
  lemma DefaultSchemaType(env: Env, st: State)
    ensures GetType(env, st, Some(DefaultSchema)) == Ok((Some(JStr(DefaultSchemaText)), st))
  {
    var props := JObj([Member("id", JObj([Member("type", JStr("number"))]))]);
    DefaultSchemaIsObject(env, st);
    DefaultSchemaLines(env, st);
    DefaultSchemaLineText();
  }

  lemma DefaultSchemaLineText()
    ensures "{\n" + Join([PropertyLine("id", false, Some(JStr("number")), None)], "\n") + "\n}" == DefaultSchemaText
  {
    var line := PropertyLine("id", false, Some(JStr("number")), None);
    assert Join([line], "\n") == line;
    assert line == "'id'" + "?" + ": " + "number" + "; " + "";
    var text := "{\n" + line + "\n}";
    assert |text| == |DefaultSchemaText|;
    forall i | 0 <= i < |text| ensures text[i] == DefaultSchemaText[i] {
    }
  }

  lemma DefaultSchemaIsObject(env: Env, st: State)
    ensures GetType(env, st, Some(DefaultSchema)) == ObjectType(env, st, DefaultSchema)
  {
    var t := Some(JStr("object"));
    assert Lookup(DefaultSchema, "format").None? && Lookup(DefaultSchema, "enum").None?;
    assert Lookup(DefaultSchema, "type") == t;
    assert TypeKeyword(DefaultSchema) == t;
    NameListsDisjoint();
    assert "object" in ["boolean", "enum", "array", "object"];
    assert ScalarKeyword(t).None?;
    assert !IsString(t, "array") && !IsString(t, "enum");
    assert Lookup(DefaultSchema, "oneOf").None? && Lookup(DefaultSchema, "allOf").None?;
  }

  lemma DefaultSchemaLines(env: Env, st: State)
    ensures ObjectType(env, st, DefaultSchema)
              == Ok((Some(JStr("{\n" + Join([PropertyLine("id", false, Some(JStr("number")), None)], "\n") + "\n}")), st))
  {
    var id := JObj([Member("type", JStr("number"))]);
    var props := JObj([Member("id", id)]);
    assert Lookup(DefaultSchema, "properties") == Some(props);
    assert ObjectKeys(props) == ["id"];
    DefaultSchemaIdLine(env, st);
  }

  lemma DefaultSchemaIdLine(env: Env, st: State)
    ensures var props := JObj([Member("id", JObj([Member("type", JStr("number"))]))]);
            PropertyLines(env, st, DefaultSchema, props, ["id"])
              == Ok(([PropertyLine("id", false, Some(JStr("number")), None)], st))
  {
    var id := JObj([Member("type", JStr("number"))]);
    var props := JObj([Member("id", id)]);
    assert Lookup(props, "id") == Some(id);
    assert Lookup(DefaultSchema, "required").None?;
    DefaultSchemaIdType(env, st);
    assert IsObjectType(Or(Some(id), Some(JObj([]))));
    assert Prop(Some(id), "description") == Ok(None);
    assert PropertyLines(env, st, DefaultSchema, props, ["id"][1..]) == Ok(([], st));
    var r := PropertyLines(env, st, DefaultSchema, props, ["id"]);
    assert r.Ok?;
    assert r.value.0 == [PropertyLine("id", false, Some(JStr("number")), None)];
  }

  lemma DefaultSchemaIdType(env: Env, st: State)
    ensures GetType(env, st, Some(JObj([Member("type", JStr("number"))]))) == Ok((Some(JStr("number")), st))
  {
    var id := JObj([Member("type", JStr("number"))]);
    assert TypeKeyword(id) == Some(JStr("number"));
    assert ScalarKeyword(Some(JStr("number"))) == Some("number");
    ScalarTypes(env, st, id);
  }

  // ---------------------------------------------------------------- fields

  /** `required` of a field: whether a `required` list names the key. */
  predicate ListedRequired(v: Json, key: string, field: FieldObject) {
    Lookup(v, "required").Some? && Lookup(v, "required").value.JArr? ==>
      field.required == Some(JBool(JStr(key) in Lookup(v, "required").value.items))
  }

  /** `getFields`: one field per property, named by its key, whose
      `required` says whether a `required` list names the key. */
  lemma {:induction false} FieldsFollowKeys(env: Env, st: State, v: Json, props: Json, keys: seq<string>)
    ensures var r := FieldsFrom(env, st, v, props, keys);
            r.Ok? ==>
              && |r.value.0| == |keys|
              && (forall i :: 0 <= i < |keys| ==> r.value.0[i].name == Some(JStr(keys[i])))
              && (forall i :: 0 <= i < |keys| ==> ListedRequired(v, keys[i], r.value.0[i]))
    decreases |keys|
  {
    if keys != [] && FieldsFrom(env, st, v, props, keys).Ok? {
      var st' := FieldFirst(env, st, v, props, keys);
      FieldsFollowKeys(env, st', v, props, keys[1..]);
    }
  }

  /** The first field, and the state the other fields start from. */
  lemma FieldFirst(env: Env, st: State, v: Json, props: Json, keys: seq<string>) returns (st': State)
    requires keys != [] && FieldsFrom(env, st, v, props, keys).Ok?
    ensures var r := FieldsFrom(env, st, v, props, keys);
            var rest := FieldsFrom(env, st', v, props, keys[1..]);
            && rest.Ok?
            && r.value.0 == [r.value.0[0]] + rest.value.0
            && r.value.0[0].name == Some(JStr(keys[0]))
            && ListedRequired(v, keys[0], r.value.0[0])
  {
    var pv := Lookup(props, keys[0]);
    var t := if Truthy(pv) then GetType(env, st, pv) else Ok((Some(JStr(DefaultSchemaText)), st));
    st' := t.value.1;
  }

  // ---------------------------------------------------------------- references

  /** A schema with a truthy `$ref` is named by `getRefName`, whatever
      else it holds. */
  lemma RefTakesName(env: Env, st: State, ms: seq<Member>)
    requires Truthy(FindMember(ms, "$ref"))
    ensures GetType(env, st, Some(JObj(ms))) == GetRefName(env, st, Some(JObj(ms)))
  {
  }

  /** The name of a reference is the last `/`-segment of its `$ref`
      string; a `$ref` that is truthy but not a string is a TypeError. */
  lemma RefName(ms: seq<Member>)
    requires Truthy(FindMember(ms, "$ref"))
    ensures FindMember(ms, "$ref").value.JStr? ==>
              RefTypeName(Some(JObj(ms))) == Ok(Some(LastSegment(FindMember(ms, "$ref").value.s, '/')))
    ensures !FindMember(ms, "$ref").value.JStr? ==> RefTypeName(Some(JObj(ms))) == Failure(TypeError)
  {
  }

  /** A name already in `typeNameMap` (or one every object inherits) is
      not resolved again: the reference is its sanitised name and the
      state does not change. */
  lemma MarkedReference(env: Env, st: State, x: Option<Json>, typeName: string)
    requires RefTypeName(x) == Ok(Some(typeName))
    requires typeName in st.typeNameMap || Utils.Inherited(typeName)
    ensures GetRefName(env, st, x) == Ok((Some(JStr(ResolveTypeName(env.ext, typeName))), st))
  {
  }

  /** The first reference to a name is registered. */
  lemma FirstReference(env: Env, st: State, x: Option<Json>, typeName: string)
    requires RefTypeName(x) == Ok(Some(typeName))
    requires typeName !in st.typeNameMap && !Utils.Inherited(typeName)
    ensures GetRefName(env, st, x) == Register(env, st, typeName)
  {
  }

  /** A name that `components.schemas` does not define is a TypeError
      (`defines[typeName].description`). */
  lemma UndefinedReference(env: Env, st: State, typeName: string)
    requires typeName !in st.typeNameMap
    requires env.defines.None? || env.defines == Some(JNull)
             || (env.defines.value.JObj? && FindMember(env.defines.value.members, typeName).None?)
    ensures Register(env, st, typeName) == Failure(TypeError)
  {
  }

  /** A schema that refers to itself through a property: one record,
      whose field is typed by the schema's own name. */
  lemma SelfReferentialSchema(ext: Externals, ref: string)
    requires ref != "" && LastSegment(ref, '/') == "Node" && ResolveTypeName(ext, "Node") == "Node"
    ensures var next := JObj([Member("$ref", JStr(ref))]);
            var node := JObj([Member("properties", JObj([Member("next", next)]))]);
            var env := Env(JObj([]), Some(JObj([Member("Node", node)])), ext);
            GetType(env, State([], {}, None), Some(next))
              == Ok((Some(JStr("Node")),
                     State([Record("Node", None, Flat([NodeField]), None)], {"Node"}, None)))
  {
    var next := JObj([Member("$ref", JStr(ref))]);
    var node := JObj([Member("properties", JObj([Member("next", next)]))]);
    var env := Env(JObj([]), Some(JObj([Member("Node", node)])), ext);
    var st := State([], {}, None);
    RefName(next.members);
    assert FindMember(next.members, "$ref") == Some(JStr(ref));
    assert RefTypeName(Some(next)) == Ok(Some("Node"));
    assert !Utils.Inherited("Node");
    NodeRegister(ext, ref);
    calc {
      GetType(env, st, Some(next));
      { RefTakesName(env, st, next.members); }
      GetRefName(env, st, Some(next));
      { FirstReference(env, st, Some(next), "Node"); }
      Register(env, st, "Node");
    }
  }

  /** Registering a defined name appends the record of its resolved
      definition to whatever resolving it appended. */
  lemma RegisterDefined(env: Env, st: State, typeName: string, def: Json, description: Option<Json>,
                        res: Resolved, st': State)
    requires typeName !in st.typeNameMap
    requires Prop(env.defines, typeName) == Ok(Some(def))
    requires Prop(Some(def), "description") == Ok(description)
    requires ResolveObject(env, st.(typeNameMap := st.typeNameMap + {typeName}), Some(def)) == Ok((res, st'))
    ensures var name := ResolveTypeName(env.ext, typeName);
            Register(env, st, typeName)
              == Ok((Some(JStr(name)), st'.(interfaces := st'.interfaces + [Record(name, description, FieldsOf(res), st'.placement)])))
  {
  }

  lemma NodeRegister(ext: Externals, ref: string)
    requires ref != "" && LastSegment(ref, '/') == "Node" && ResolveTypeName(ext, "Node") == "Node"
    ensures var next := JObj([Member("$ref", JStr(ref))]);
            var node := JObj([Member("properties", JObj([Member("next", next)]))]);
            var env := Env(JObj([]), Some(JObj([Member("Node", node)])), ext);
            Register(env, State([], {}, None), "Node")
              == Ok((Some(JStr("Node")), State([Record("Node", None, Flat([NodeField]), None)], {"Node"}, None)))
  {
    var next := JObj([Member("$ref", JStr(ref))]);
    var node := JObj([Member("properties", JObj([Member("next", next)]))]);
    var env := Env(JObj([]), Some(JObj([Member("Node", node)])), ext);
    var st := State([], {}, None);
    var marked := State([], {"Node"}, None);
    NodeLiterals(ref);
    NodeFields(ext, ref);
    assert st.(typeNameMap := st.typeNameMap + {"Node"}) == marked;
    assert Prop(env.defines, "Node") == Ok(Some(node));
    RegisterDefined(env, st, "Node", node, None, Props([NodeField], None), marked);
    var record := Record("Node", None, Flat([NodeField]), None);
    assert FieldsOf(Props([NodeField], None)) == Flat([NodeField]);
    assert marked.(interfaces := marked.interfaces + [record]) == State([record], {"Node"}, None);
  }

  /** The one field of the self-referential schema. */
  const NodeField: FieldObject := FieldObject(Some(JStr("next")), None, Some(JStr("Node")), Some(JStr("")), None, None)

  /** The member reads of the self-referential schema. */
  lemma NodeLiterals(ref: string)
    ensures var next := JObj([Member("$ref", JStr(ref))]);
            var props := JObj([Member("next", next)]);
            var node := JObj([Member("properties", props)]);
            && Lookup(props, "next") == Some(next)
            && ObjectKeys(props) == ["next"]
            && Lookup(next, "title").None? && Lookup(next, "description").None?
            && Lookup(next, "format").None? && Lookup(next, "items").None?
            && Lookup(node, "properties") == Some(props)
            && Lookup(node, "$ref").None? && Lookup(node, "enum").None? && Lookup(node, "allOf").None?
            && Lookup(node, "description").None? && Lookup(node, "required").None?
  {
    assert "$ref"[0] == '$' && "title"[0] == 't' && "description"[0] == 'd' && "format"[0] == 'f';
    assert "items"[0] == 'i' && "properties"[0] == 'p' && "required"[0] == 'r' && "enum"[0] == 'e';
    assert "allOf"[0] == 'a';
  }

  /** A one-property object without a `required` list yields one field,
      typed by the property's schema. */
  lemma FieldsFromSingle(env: Env, st: State, v: Json, props: Json, key: string, t: Option<Json>, st': State)
    requires Truthy(Lookup(props, key)) && Lookup(v, "required").None?
    requires GetType(env, st, Lookup(props, key)) == Ok((t, st'))
    ensures var pv := Lookup(props, key).value;
            FieldsFrom(env, st, v, props, [key])
              == Ok(([FieldObject(Some(JStr(key)), None, t, Some(JStr(TitleAndDescription(pv))),
                                  Lookup(pv, "format"), Lookup(pv, "items"))], st'))
  {
    var pv := Lookup(props, key).value;
    var field := FieldObject(Some(JStr(key)), None, t, Some(JStr(TitleAndDescription(pv))),
                             Lookup(pv, "format"), Lookup(pv, "items"));
    assert [key][0] == key && [key][1..] == [];
    assert RequiredListed(Lookup(v, "required"), key) == Ok(None);
    assert FieldsFrom(env, st', v, props, []) == Ok(([], st'));
    assert [field] + [] == [field];
  }

  /** A schema with truthy `properties` and no `$ref`, `enum` or `allOf`
      resolves to its fields and description. */
  lemma PropertiesObject(env: Env, st: State, v: Json, fields: seq<FieldObject>, st': State)
    requires v.JObj? && Lookup(v, "$ref").None? && Lookup(v, "enum").None? && Lookup(v, "allOf").None?
    requires Truthy(Lookup(v, "properties"))
    requires GetFields(env, st, v) == Ok((fields, st'))
    ensures ResolveObject(env, st, Some(v)) == Ok((Props(fields, Lookup(v, "description")), st'))
  {
  }

  lemma NodeFields(ext: Externals, ref: string)
    requires ref != "" && LastSegment(ref, '/') == "Node" && ResolveTypeName(ext, "Node") == "Node"
    ensures var next := JObj([Member("$ref", JStr(ref))]);
            var node := JObj([Member("properties", JObj([Member("next", next)]))]);
            var env := Env(JObj([]), Some(JObj([Member("Node", node)])), ext);
            var marked := State([], {"Node"}, None);
            ResolveObject(env, marked, Some(node)) == Ok((Props([NodeField], None), marked))
  {
    var next := JObj([Member("$ref", JStr(ref))]);
    var props := JObj([Member("next", next)]);
    var node := JObj([Member("properties", props)]);
    var env := Env(JObj([]), Some(JObj([Member("Node", node)])), ext);
    var marked := State([], {"Node"}, None);
    NodeLiterals(ref);
    NodeFieldList(ext, ref);
    assert GetFields(env, marked, node) == Ok(([NodeField], marked));
    PropertiesObject(env, marked, node, [NodeField], marked);
  }

  lemma NodeFieldList(ext: Externals, ref: string)
    requires ref != "" && LastSegment(ref, '/') == "Node" && ResolveTypeName(ext, "Node") == "Node"
    ensures var next := JObj([Member("$ref", JStr(ref))]);
            var props := JObj([Member("next", next)]);
            var node := JObj([Member("properties", props)]);
            var env := Env(JObj([]), Some(JObj([Member("Node", node)])), ext);
            var marked := State([], {"Node"}, None);
            FieldsFrom(env, marked, node, props, ["next"]) == Ok(([NodeField], marked))
  {
    var next := JObj([Member("$ref", JStr(ref))]);
    var props := JObj([Member("next", next)]);
    var node := JObj([Member("properties", props)]);
    var env := Env(JObj([]), Some(JObj([Member("Node", node)])), ext);
    var marked := State([], {"Node"}, None);
    NodeLiterals(ref);
    NodeFieldType(ext, ref);
    FieldsFromSingle(env, marked, node, props, "next", Some(JStr("Node")), marked);
  }

  lemma NodeFieldType(ext: Externals, ref: string)
    requires ref != "" && LastSegment(ref, '/') == "Node" && ResolveTypeName(ext, "Node") == "Node"
    ensures var next := JObj([Member("$ref", JStr(ref))]);
            var node := JObj([Member("properties", JObj([Member("next", next)]))]);
            var env := Env(JObj([]), Some(JObj([Member("Node", node)])), ext);
            var marked := State([], {"Node"}, None);
            GetType(env, marked, Some(next)) == Ok((Some(JStr("Node")), marked))
  {
    var next := JObj([Member("$ref", JStr(ref))]);
    var node := JObj([Member("properties", JObj([Member("next", next)]))]);
    var env := Env(JObj([]), Some(JObj([Member("Node", node)])), ext);
    var marked := State([], {"Node"}, None);
    RefName(next.members);
    RefTakesName(env, marked, next.members);
    MarkedReference(env, marked, Some(next), "Node");
  }
}
