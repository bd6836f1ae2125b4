/** The closure of `parser` (src/parser.ts:66-552) as an object: the
    variables `interfaces`, `typeNameMap` and `placement` are fields that
    the grouping functions update in place, and each of their loops is a
    loop here. Every method is proved to leave the object in the state,
    and return the value, that the matching function of ComponentsParser
    computes from the state it started in. */
module ComponentsOperation {
  import opened Wrappers
  import opened JsonValues
  import opened Types
  import opened Names
  import opened Utils
  import opened ComponentsModel
  import opened ComponentsPointer
  import opened ComponentsSynth
  import opened ComponentsPathParams
  import opened ComponentsParser

  /** A call returned what `spec` computes, and left the state `spec`
      computes; after a throw the state no longer matters. */
  predicate Follows<T(==)>(r: Result<T>, spec: Result<(T, State)>, now: State) {
    match spec
    case Ok(v) => r == Ok(v.0) && now == v.1
    case Failure(e) => r == Failure(e)
  }

  /** The same, for a call that only changes the state. */
  predicate FollowsState(r: Result<()>, spec: Result<State>, now: State) {
    match spec
    case Ok(st) => r == Ok(()) && now == st
    case Failure(e) => r == Failure(e)
  }

  /** Fields already built, in front of a recursion's result. */
  function After(fields: seq<FieldObject>, rest: Result<(seq<FieldObject>, State)>): Result<(seq<FieldObject>, State)> {
    if rest.Ok? then Ok((fields + rest.value.0, rest.value.1)) else rest
  }

  /** Marked members already built, in front of the marking of the rest. */
  function AfterMembers(done: seq<Member>, rest: Result<seq<Member>>): Result<seq<Member>> {
    if rest.Ok? then Ok(done + rest.value) else rest
  }

  function AfterItems(done: seq<Json>, rest: Result<seq<Json>>): Result<seq<Json>> {
    if rest.Ok? then Ok(done + rest.value) else rest
  }

  // ---------------------------------------------------------------------
  // Unfolding the specification one step at a time

  lemma TypeParamsStep(env: Env, st: State, kept: seq<Json>, i: nat)
    requires i < |kept|
    ensures var p := kept[i];
            TypeParams(env, st, kept[i..])
            == if !RefOperand(p).value.JStr? then Failure(TypeError)
               else
                 var t := GetType(env, st, Or(Lookup(p, "schema"), Some(DefaultSchema)));
                 if t.Failure? then Failure(t.error) else TypeParams(env, t.value.1, kept[i + 1..])
  {
    assert kept[i..][0] == kept[i] && kept[i..][1..] == kept[i + 1..];
  }

  lemma ParamFieldsStep(env: Env, st: State, ps: seq<Json>, i: nat, fields: seq<FieldObject>)
    requires i < |ps|
    ensures var f := ParamField(env, st, ps[i]);
            After(fields, ParamFields(env, st, ps[i..]))
            == if f.Failure? then Failure(f.error)
               else After(fields + [f.value.0], ParamFields(env, f.value.1, ps[i + 1..]))
  {
    assert ps[i..][0] == ps[i] && ps[i..][1..] == ps[i + 1..];
    var f := ParamField(env, st, ps[i]);
    if f.Ok? {
      var rest := ParamFields(env, f.value.1, ps[i + 1..]);
      if rest.Ok? {
        assert fields + ([f.value.0] + rest.value.0) == (fields + [f.value.0]) + rest.value.0;
      }
    }
  }

  lemma GroupsFromStep(env: Env, st: State, resolved: seq<Json>, i: nat, acc: map<string, seq<Json>>)
    requires i < |Sources|
    ensures var kept := Select(resolved, Sources[i]);
            GroupsFrom(env, st, resolved, Sources[i..], acc)
            == if kept.Failure? then Failure(kept.error)
               else
                 var t := TypeParams(env, st, kept.value);
                 if t.Failure? then Failure(t.error)
                 else GroupsFrom(env, t.value, resolved, Sources[i + 1..],
                                 if kept.value != [] then acc[Sources[i] := kept.value] else acc)
  {
    assert Sources[i..][0] == Sources[i] && Sources[i..][1..] == Sources[i + 1..];
  }

  lemma MarkMembersStep(ms: seq<Member>, required: Option<Json>, i: nat, done: seq<Member>)
    requires i < |ms|
    ensures var v := MarkValue(ms[i].value, required, ms[i].key);
            AfterMembers(done, MarkMembers(ms[i..], required))
            == if v.Failure? then Failure(v.error)
               else AfterMembers(done + [Member(ms[i].key, v.value)], MarkMembers(ms[i + 1..], required))
  {
    assert ms[i..][0] == ms[i] && ms[i..][1..] == ms[i + 1..];
    var v := MarkValue(ms[i].value, required, ms[i].key);
    if v.Ok? {
      var rest := MarkMembers(ms[i + 1..], required);
      if rest.Ok? {
        assert done + ([Member(ms[i].key, v.value)] + rest.value) == (done + [Member(ms[i].key, v.value)]) + rest.value;
      }
    }
  }

  lemma MarkItemsStep(items: seq<Json>, required: Option<Json>, i: nat, done: seq<Json>)
    requires i < |items|
    ensures var v := MarkValue(items[i], required, NatToString(i));
            AfterItems(done, MarkItems(items[i..], required, i))
            == if v.Failure? then Failure(v.error)
               else AfterItems(done + [v.value], MarkItems(items[i + 1..], required, i + 1))
  {
    assert items[i..][0] == items[i] && items[i..][1..] == items[i + 1..];
    var v := MarkValue(items[i], required, NatToString(i));
    if v.Ok? {
      var rest := MarkItems(items[i + 1..], required, i + 1);
      if rest.Ok? {
        assert done + ([v.value] + rest.value) == (done + [v.value]) + rest.value;
      }
    }
  }

  // ---------------------------------------------------------------------
  // In-place rewrites of the document

  /** A falsy property is skipped by the `forEach`, and retyping would
      leave it alone anyway. */
  lemma FalsyNotRetyped(v: Json)
    requires !Truthy(Some(v))
    ensures RetypeFile(v) == v
  {
  }

  /** The `forEach` of `getBodyTP` over the keys of an object of
      properties, rewriting each truthy one in place. */
  method RetypeMembersInPlace(ms: seq<Member>) returns (out: seq<Member>)
    ensures out == RetypeMembers(ms)
  {
    out := ms;
    for i := 0 to |ms|
      invariant |out| == |ms|
      invariant forall j :: 0 <= j < i ==> out[j] == Member(ms[j].key, RetypeFile(ms[j].value))
      invariant forall j :: i <= j < |ms| ==> out[j] == ms[j]
    {
      if Truthy(Some(ms[i].value)) {
        out := out[i := Member(ms[i].key, RetypeFile(ms[i].value))];
      } else {
        FalsyNotRetyped(ms[i].value);
      }
    }
  }

  /** The same `forEach` when the properties are an array: its keys are
      the indices. */
  method RetypeItemsInPlace(items: seq<Json>) returns (out: seq<Json>)
    ensures out == RetypeItems(items)
  {
    out := items;
    for i := 0 to |items|
      invariant |out| == |items|
      invariant forall j :: 0 <= j < i ==> out[j] == RetypeFile(items[j])
      invariant forall j :: i <= j < |items| ==> out[j] == items[j]
    {
      if Truthy(Some(items[i])) {
        out := out[i := RetypeFile(items[i])];
      } else {
        FalsyNotRetyped(items[i]);
      }
    }
  }

  /** The properties after the `forEach` of `getBodyTP`; other values have
      no keys to visit. */
  method RetypeProperties(props: Json) returns (r: Json)
    ensures r == RetypeFiles(props)
  {
    match props
    case JObj(ms) =>
      var out := RetypeMembersInPlace(ms);
      r := JObj(out);
    case JArr(items) =>
      var out := RetypeItemsInPlace(items);
      r := JArr(out);
    case _ =>
      r := props;
  }

  /** The `.map` of `getResponseTP` that sets `required` on every
      property of the schema. */
  method MarkRequired(schema: Json) returns (r: Result<Json>)
    ensures r == WithRequired(schema)
  {
    if !schema.JObj? {
      return if schema.JArr? then Ok(schema) else Failure(TypeError);
    }
    var props := FindMember(schema.members, "properties");
    if props.None? {
      return Ok(schema);
    }
    var required := Lookup(schema, "required");
    match props.value
    case JObj(ms) =>
      var done: seq<Member> := [];
      assert ms[0..] == ms;
      var whole := MarkMembers(ms, required);
      assert whole.Ok? ==> [] + whole.value == whole.value;
      for i := 0 to |ms|
        invariant AfterMembers(done, MarkMembers(ms[i..], required)) == MarkMembers(ms, required)
      {
        MarkMembersStep(ms, required, i, done);
        var v := MarkValue(ms[i].value, required, ms[i].key);
        if v.Failure? {
          return Failure(v.error);
        }
        done := done + [Member(ms[i].key, v.value)];
      }
      assert ms[|ms|..] == [];
      assert done + [] == done;
      r := Ok(Assign(schema, "properties", JObj(done)));
    case JArr(items) =>
      var done: seq<Json> := [];
      assert items[0..] == items;
      var whole := MarkItems(items, required, 0);
      assert whole.Ok? ==> [] + whole.value == whole.value;
      for i := 0 to |items|
        invariant AfterItems(done, MarkItems(items[i..], required, i)) == MarkItems(items, required, 0)
      {
        MarkItemsStep(items, required, i, done);
        var v := MarkValue(items[i], required, NatToString(i));
        if v.Failure? {
          return Failure(v.error);
        }
        done := done + [v.value];
      }
      assert items[|items|..] == [];
      assert done + [] == done;
      r := Ok(Assign(schema, "properties", JArr(done)));
    case JNull =>
      r := Failure(TypeError);
    case JStr(s) =>
      r := if s == "" then Ok(schema) else Failure(TypeError);
    case _ =>
      r := Ok(schema);
  }

  // ---------------------------------------------------------------------
  // The closure

  class Parser {
    /** The document, `components.schemas` and the two libraries. */
    const env: Env
    /** The function name of the operation. */
    const name: string
    var interfaces: seq<Record>
    var typeNameMap: set<string>
    var placement: Option<Placement>

    function Snapshot(): State
      reads this
    {
      State(interfaces, typeNameMap, placement)
    }

    constructor (env: Env, name: string)
      ensures this.env == env && this.name == name
      ensures Snapshot() == State([], {}, None)
    {
      this.env := env;
      this.name := name;
      interfaces := [];
      typeNameMap := {};
      placement := None;
    }

    /** Takes on the state a specification step ends in. */
    method Commit<T(==)>(res: Result<(T, State)>) returns (r: Result<T>)
      modifies this
      ensures Follows(r, res, Snapshot())
    {
      if res.Failure? {
        return Failure(res.error);
      }
      interfaces, typeNameMap, placement := res.value.1.interfaces, res.value.1.typeNameMap, res.value.1.placement;
      return Ok(res.value.0);
    }

    /** `getType(x)`, with the records `getRefName` appends on the way. */
    method TypeOfSchema(x: Option<Json>) returns (r: Result<Option<Json>>)
      modifies this
      ensures Follows(r, GetType(env, old(Snapshot()), x), Snapshot())
    {
      r := Commit(GetType(env, Snapshot(), x));
    }

    /** The group's `.map`, calling `getType` on each kept parameter. */
    method TypeEach(kept: seq<Json>) returns (r: Result<()>)
      modifies this
      ensures FollowsState(r, TypeParams(env, old(Snapshot()), kept), Snapshot())
    {
      ghost var spec := TypeParams(env, Snapshot(), kept);
      assert kept[0..] == kept;
      for i := 0 to |kept|
        invariant TypeParams(env, Snapshot(), kept[i..]) == spec
      {
        TypeParamsStep(env, Snapshot(), kept, i);
        if !RefOperand(kept[i]).value.JStr? {
          return Failure(TypeError);
        }
        var t := TypeOfSchema(Or(Lookup(kept[i], "schema"), Some(DefaultSchema)));
        if t.Failure? {
          return Failure(t.error);
        }
      }
      assert kept[|kept|..] == [];
      return Ok(());
    }

    /** The `sources.forEach` loop, filling `templateParams`. */
    method GroupParams(resolved: seq<Json>) returns (r: Result<map<string, seq<Json>>>)
      modifies this
      ensures Follows(r, GroupsFrom(env, old(Snapshot()), resolved, Sources, map[]), Snapshot())
    {
      ghost var spec := GroupsFrom(env, Snapshot(), resolved, Sources, map[]);
      var templateParams: map<string, seq<Json>> := map[];
      assert Sources[0..] == Sources;
      for i := 0 to |Sources|
        invariant GroupsFrom(env, Snapshot(), resolved, Sources[i..], templateParams) == spec
      {
        GroupsFromStep(env, Snapshot(), resolved, i, templateParams);
        var source := Sources[i];
        var kept := Select(resolved, source);
        if kept.Failure? {
          return Failure(kept.error);
        }
        var done := TypeEach(kept.value);
        if done.Failure? {
          return Failure(done.error);
        }
        if kept.value != [] {
          templateParams := templateParams[source := kept.value];
        }
      }
      assert Sources[|Sources|..] == [];
      return Ok(templateParams);
    }

    /** The field pushed for one parameter. */
    method ParamFieldOf(p: Json) returns (r: Result<FieldObject>)
      modifies this
      ensures Follows(r, ParamField(env, old(Snapshot()), p), Snapshot())
    {
      var t := TypeOfSchema(Lookup(p, "schema"));
      if t.Failure? {
        return Failure(t.error);
      }
      var format := Prop(Lookup(p, "schema"), "format");
      if format.Failure? {
        return Failure(format.error);
      }
      return Ok(FieldObject(Lookup(p, "name"), Lookup(p, "required"), t.value, Lookup(p, "description"), format.value, None));
    }

    /** The `forEach` over a group's parameters, one field each. */
    method ParamFieldsOf(ps: seq<Json>) returns (r: Result<seq<FieldObject>>)
      modifies this
      ensures Follows(r, ParamFields(env, old(Snapshot()), ps), Snapshot())
    {
      ghost var spec := ParamFields(env, Snapshot(), ps);
      var fields: seq<FieldObject> := [];
      assert ps[0..] == ps;
      assert spec.Ok? ==> [] + spec.value.0 == spec.value.0;
      for i := 0 to |ps|
        invariant After(fields, ParamFields(env, Snapshot(), ps[i..])) == spec
      {
        ParamFieldsStep(env, Snapshot(), ps, i, fields);
        var f := ParamFieldOf(ps[i]);
        if f.Failure? {
          return Failure(f.error);
        }
        fields := fields + [f.value];
      }
      assert ps[|ps|..] == [];
      assert fields + [] == fields;
      return Ok(fields);
    }

    /** A group's record: `placement` is set, the fields are built and
      the record is pushed. */
    method PushParamRecord(typeName: string, pl: Placement, ps: seq<Json>) returns (r: Result<()>)
      modifies this
      ensures FollowsState(r, ParamRecord(env, old(Snapshot()), typeName, pl, ps), Snapshot())
    {
      placement := Some(pl);
      var fields := ParamFieldsOf(ps);
      if fields.Failure? {
        return Failure(fields.error);
      }
      interfaces := interfaces + [Record(typeName, None, Flat(fields.value), Some(pl))];
      return Ok(());
    }

    /** `getParamsTP(parameters, path)`. */
    method GetParamsTP(parameters: Option<Json>, path: string) returns (r: Result<Params>)
      modifies this
      ensures Follows(r, ParamsTP(env, old(Snapshot()), name, parameters, path), Snapshot())
    {
      var groups: map<string, seq<Json>> := map[];
      if NonEmpty(parameters) {
        if !parameters.value.JArr? {
          return Failure(TypeError);
        }
        var resolved := ResolveAll(env.doc, parameters.value.items);
        if resolved.Failure? {
          return Failure(resolved.error);
        }
        var g := GroupParams(resolved.value);
        if g.Failure? {
          return Failure(g.error);
        }
        groups := g.value;
      }
      var pathParams := GroupOf(groups, "path");
      if path != "" {
        pathParams := AddPathDefaults(pathParams, path);
      }
      var query := GroupOf(groups, "query");
      var pathVar: Option<string> := None;
      if pathParams != [] {
        var typeName := ToFirstUpperCase(name) + "PathVar";
        var done := PushParamRecord(typeName, PathPlacement, pathParams);
        if done.Failure? {
          return Failure(done.error);
        }
        pathVar := Some(typeName);
      }
      var queryName: Option<string> := None;
      if query != [] {
        var typeName := ToFirstUpperCase(name) + "Query";
        var done := PushParamRecord(typeName, BodyPlacement, query);
        if done.Failure? {
          return Failure(done.error);
        }
        queryName := Some(typeName);
      }
      return Ok(Params(pathVar, queryName));
    }

    /** `getBodyTP(requestBody)`. */
    method GetBodyTP(requestBody: Option<Json>) returns (r: Result<Option<Body>>)
      modifies this
      ensures Follows(r, BodyTP(env, old(Snapshot()), name, requestBody), Snapshot())
    {
      placement := Some(BodyPlacement);
      var e := BodyEntry(env, requestBody);
      if e.Failure? {
        return Failure(e.error);
      }
      if e.value.None? {
        return Ok(None);
      }
      var entry := e.value.value;
      var schema := if Truthy(entry.schema) then entry.schema.value else DefaultSchema;
      var mediaType := if entry.key == "*/*" then "" else entry.key;
      if !Promoted(schema) {
        var t := TypeOfSchema(Some(schema));
        if t.Failure? {
          return Failure(t.error);
        }
        return Ok(Some(Body(mediaType, t.value, None)));
      }
      var props := RetypeProperties(Lookup(schema, "properties").value);
      var retyped := Assign(schema, "properties", props);
      var fields := Commit(GetFields(env, Snapshot(), retyped));
      if fields.Failure? {
        return Failure(fields.error);
      }
      var typeName := ToFirstUpperCase(name) + "Body";
      interfaces := interfaces + [Record(typeName, Lookup(retyped, "description"), Flat(fields.value), placement)];
      var form := if entry.key == Multipart && Truthy(entry.schema) then Some(retyped) else None;
      return Ok(Some(Body(mediaType, Some(JStr(typeName)), form)));
    }

    /** `getResponseTP(responses)`. */
    method GetResponseTP(responses: Option<Json>) returns (r: Result<Option<Response>>)
      modifies this
      ensures Follows(r, ResponseTP(env, old(Snapshot()), responses), Snapshot())
    {
      placement := Some(ResPlacement);
      var e := ResponseEntry(env, responses);
      if e.Failure? {
        return Failure(e.error);
      }
      if e.value.None? {
        return Ok(None);
      }
      var entry := e.value.value;
      var schema := if Truthy(entry.schema) then entry.schema.value else DefaultSchema;
      var checked := RefCheck(env, schema);
      if checked.Failure? {
        return Failure(checked.error);
      }
      var marked := MarkRequired(schema);
      if marked.Failure? {
        return Failure(marked.error);
      }
      var t := TypeOfSchema(Some(marked.value));
      if t.Failure? {
        return Failure(t.error);
      }
      return Ok(Some(Response(entry.key, t.value)));
    }

    /** `getFileTP(requestBody)`, reading the schema `getBodyTP` may have
      retyped. */
    method GetFileTP(requestBody: Option<Json>, formSchema: Option<Json>) returns (r: Result<Option<seq<FileField>>>)
      modifies this
      ensures Follows(r, FileTP(env, old(Snapshot()), requestBody, formSchema), Snapshot())
    {
      var reqBody := Resolve(env.doc, OrEmptyObject(requestBody));
      if reqBody.Failure? {
        return Failure(reqBody.error);
      }
      if !Truthy(reqBody.value) {
        return Ok(None);
      }
      var content := Lookup(reqBody.value.value, "content");
      if !Truthy(content) {
        return Ok(None);
      }
      var mf := Lookup(content.value, Multipart);
      if !Truthy(mf) {
        return Ok(None);
      }
      var schema := if formSchema.Some? then formSchema else Lookup(mf.value, "schema");
      var files := Commit(ResolveFileTP(env, Snapshot(), schema, {}));
      if files.Failure? {
        return Failure(files.error);
      }
      return Ok(if files.value == [] then None else Some(files.value));
    }
  }

  /** `parser(openAPIData, path, method)`. */
  method Parse(doc: Json, path: string, verb: string, ext: Externals) returns (r: Result<Option<Outcome>>)
    ensures r == Parsed(doc, path, verb, ext)
  {
    var pathItem := Prop(Lookup(doc, "paths"), path);
    if pathItem.Failure? {
      return Failure(pathItem.error);
    }
    var op := Member?(pathItem.value, verb);
    if !Truthy(op) {
      return Ok(None);
    }
    var id := Lookup(op.value, "operationId");
    if id.None? || !id.value.JStr? {
      return Failure(TypeError);
    }
    var name := ResolveFunctionName(ext, StripDot(id.value.s), verb);
    var comment := Comment(Lookup(op.value, "summary"), Lookup(op.value, "description"));
    var defines := Prop(Lookup(doc, "components"), "schemas");
    if defines.Failure? {
      return Failure(defines.error);
    }
    var p := new Parser(Env(doc, defines.value, ext), name);
    var outcome := Run(p, comment, op.value, path);
    if outcome.Failure? {
      return Failure(outcome.error);
    }
    return Ok(Some(outcome.value));
  }

  /** The four group functions, in their order, on a fresh closure. */
  method Run(p: Parser, comment: string, op: Json, path: string) returns (r: Result<Outcome>)
    requires p.Snapshot() == State([], {}, None)
    modifies p
    ensures r == Assembled(p.env, p.name, comment, op, path)
  {
    ghost var env := p.env;
    ghost var st0 := p.Snapshot();
    var params := p.GetParamsTP(Lookup(op, "parameters"), path);
    if params.Failure? {
      return Failure(params.error);
    }
    ghost var st1 := p.Snapshot();
    var body := p.GetBodyTP(Lookup(op, "requestBody"));
    if body.Failure? {
      return Failure(body.error);
    }
    ghost var st2 := p.Snapshot();
    var res := p.GetResponseTP(Lookup(op, "responses"));
    if res.Failure? {
      return Failure(res.error);
    }
    var form := if body.value.Some? then body.value.value.formSchema else None;
    var file := p.GetFileTP(Lookup(op, "requestBody"), form);
    if file.Failure? {
      return Failure(file.error);
    }
    return Ok(Outcome(p.name, comment,
                      if body.value.Some? then body.value.value.typ else None,
                      FormData(body.value, file.value),
                      params.value.pathVar, params.value.query,
                      if res.value.Some? then res.value.value.typ else None,
                      p.interfaces));
  }
}
