/** The grouping functions of the components-shaped parser
    (src/parser.ts:252-450) and the assembly of its result
    (src/parser.ts:66-74, 538-552), as functions of the closure's state:
    each takes the `State` before the call and returns the state after it,
    as the type synthesiser does. The class in components_operation.dfy
    runs the same steps on mutable fields and is proved to agree with
    these functions. */
module ComponentsParser {
  import opened Wrappers
  import opened JsonValues
  import opened Text
  import opened Types
  import opened Names
  import opened Utils
  import opened ComponentsModel
  import opened ComponentsPointer
  import opened ComponentsSynth
  import opened ComponentsPathParams

  /** `b` comes from `a` by marking names and appending records. */
  lemma ExtendsTrans(a: State, b: State, c: State)
    requires Extends(a, b) && Extends(b, c)
    ensures Extends(a, c)
  {
  }

  // ---------------------------------------------------------------------
  // getParamsTP

  /** The parameter locations that get a group, in the order they are
      scanned. */
  const Sources: seq<string> := ["query", "path", "cookie"]

  /** `parameters.map((p) => resolveRefObject(p))`. */
  function ResolveAll(doc: Json, ps: seq<Json>): (r: Result<seq<Json>>)
    ensures r.Ok? ==> |r.value| == |ps|
  {
    if ps == [] then Ok([])
    else
      var p :- Resolve(doc, Some(ps[0]));
      var rest :- ResolveAll(doc, ps[1..]);
      Ok([p.value] + rest)
  }

  /** `.filter((p) => p.in === source)`: reading `in` on null throws. */
  function Select(ps: seq<Json>, source: string): (r: Result<seq<Json>>)
  {
    if ps == [] then Ok([])
    else if ps[0].JNull? then Failure(TypeError)
    else
      var rest :- Select(ps[1..], source);
      Ok((if IsString(Lookup(ps[0], "in"), source) then [ps[0]] else []) + rest)
  }

  /** The operand of `.split('/')` in the group's `.map`:
      `(p.schema || {}).$ref || p.$ref || ''`. */
  function RefOperand(p: Json): Option<Json> {
    var schema := Or(Lookup(p, "schema"), Some(JObj([])));
    Or(Or(Lookup(schema.value, "$ref"), Lookup(p, "$ref")), Some(JStr("")))
  }

  /** The group's `.map`: the `split` throws unless its operand is a
      string, then `getType(p.schema || DEFAULT_SCHEMA)` runs for its
      records. The spread copy it builds differs from `p` only in
      `isObject` and `type`, which nothing reads afterwards, so the group
      keeps `p` itself. */
  function TypeParams(env: Env, st: State, kept: seq<Json>): (r: Result<State>)
    ensures r.Ok? ==> Extends(st, r.value)
    decreases |kept|
  {
    if kept == [] then Ok(st)
    else if !RefOperand(kept[0]).value.JStr? then Failure(TypeError)
    else
      var t :- GetType(env, st, Or(Lookup(kept[0], "schema"), Some(DefaultSchema)));
      var r := TypeParams(env, t.1, kept[1..]);
      if r.Ok? then ExtendsTrans(st, t.1, r.value); r else r
  }

  /** The `sources.forEach` loop from the source `sources[0]` on, with
      `acc` the groups found so far (`templateParams`). */
  function GroupsFrom(env: Env, st: State, resolved: seq<Json>, sources: seq<string>,
                      acc: map<string, seq<Json>>): (r: Result<(map<string, seq<Json>>, State)>)
    ensures r.Ok? ==> Extends(st, r.value.1)
    decreases |sources|
  {
    if sources == [] then Ok((acc, st))
    else
      var kept :- Select(resolved, sources[0]);
      var st' :- TypeParams(env, st, kept);
      var r := GroupsFrom(env, st', resolved, sources[1..], if kept != [] then acc[sources[0] := kept] else acc);
      if r.Ok? then ExtendsTrans(st, st', r.value.1); r else r
  }

  /** The declared groups: none unless `parameters && parameters.length`;
      `.map` on anything but an array throws. */
  function Groups(env: Env, st: State, parameters: Option<Json>): (r: Result<(map<string, seq<Json>>, State)>)
    ensures r.Ok? ==> Extends(st, r.value.1)
  {
    if !NonEmpty(parameters) then Ok((map[], st))
    else if !parameters.value.JArr? then Failure(TypeError)
    else
      var resolved :- ResolveAll(env.doc, parameters.value.items);
      GroupsFrom(env, st, resolved, Sources, map[])
  }

  function GroupOf(groups: map<string, seq<Json>>, source: string): seq<Json> {
    if source in groups then groups[source] else []
  }

  /** The path group after the `regex.exec` loop: one default parameter
      is added for each `{word}` of a nonempty path that no parameter
      names. An empty result stands for the deleted group. */
  function PathGroup(declared: seq<Json>, path: string): seq<Json> {
    if path != "" then AddImplicit(declared, PathVariables(path, 0)) else declared
  }

  /** The field pushed for one parameter. `getType(parameter.schema)` runs
      before `parameter.schema.format` is read, which throws when the
      parameter has no schema. */
  function ParamField(env: Env, st: State, p: Json): (r: Result<(FieldObject, State)>)
    ensures r.Ok? ==> Extends(st, r.value.1)
  {
    var t :- GetType(env, st, Lookup(p, "schema"));
    var format :- Prop(Lookup(p, "schema"), "format");
    Ok((FieldObject(Lookup(p, "name"), Lookup(p, "required"), t.0, Lookup(p, "description"), format, None), t.1))
  }

  /** The `forEach` that builds a group's fields. */
  function ParamFields(env: Env, st: State, ps: seq<Json>): (r: Result<(seq<FieldObject>, State)>)
    ensures r.Ok? ==> Extends(st, r.value.1) && |r.value.0| == |ps|
    decreases |ps|
  {
    if ps == [] then Ok(([], st))
    else
      var f :- ParamField(env, st, ps[0]);
      var rest :- ParamFields(env, f.1, ps[1..]);
      ExtendsTrans(st, f.1, rest.1);
      Ok(([f.0] + rest.0, rest.1))
  }

  /** `placement` is set, the fields are built, and the group's record is
      pushed. */
  function ParamRecord(env: Env, st: State, typeName: string, pl: Placement, ps: seq<Json>): (r: Result<State>)
  {
    var f :- ParamFields(env, st.(placement := Some(pl)), ps);
    Ok(f.1.(interfaces := f.1.interfaces + [Record(typeName, None, Flat(f.0), Some(pl))]))
  }

  /** What the parser keeps of `templateParams`: the names of the path and
      query records. */
  datatype Params = Params(pathVar: Option<string>, query: Option<string>)

  /** `getParamsTP(parameters, path)` for the operation named `name`. */
  function ParamsTP(env: Env, st: State, name: string, parameters: Option<Json>, path: string)
    : (r: Result<(Params, State)>)
  {
    var g :- Groups(env, st, parameters);
    var pathParams := PathGroup(GroupOf(g.0, "path"), path);
    var query := GroupOf(g.0, "query");
    var pathName := ToFirstUpperCase(name) + "PathVar";
    var queryName := ToFirstUpperCase(name) + "Query";
    var st1 :- if pathParams == [] then Ok(g.1) else ParamRecord(env, g.1, pathName, PathPlacement, pathParams);
    var st2 :- if query == [] then Ok(st1) else ParamRecord(env, st1, queryName, BodyPlacement, query);
    Ok((Params(if pathParams == [] then None else Some(pathName), if query == [] then None else Some(queryName)), st2))
  }

  /** The filter keeps exactly the parameters of its location, in order,
      and throws exactly when a parameter is null. */
  lemma {:induction false} SelectExact(ps: seq<Json>, source: string)
    ensures Select(ps, source).Ok? <==> JNull !in ps
    ensures Select(ps, source).Ok? ==>
              && IsSubsequence(Select(ps, source).value, ps)
              && forall p :: p in Select(ps, source).value <==> p in ps && IsString(Lookup(p, "in"), source)
    decreases |ps|
  {
    if ps != [] {
      SelectExact(ps[1..], source);
      assert ps == [ps[0]] + ps[1..];
      var r := Select(ps, source);
      if r.Ok? {
        var rest := Select(ps[1..], source).value;
        if IsString(Lookup(ps[0], "in"), source) {
          assert r.value == [ps[0]] + rest;
          assert r.value[1..] == rest;
        } else {
          assert r.value == rest;
          SubsequenceOfTail(rest, ps);
        }
      }
    }
  }

  /** One field per parameter, in order, carrying its name, `required`
      and description; every parameter of a group that builds a record
      has a schema. */
  lemma {:induction false} ParamFieldsFollow(env: Env, st: State, ps: seq<Json>)
    requires ParamFields(env, st, ps).Ok?
    ensures var fs := ParamFields(env, st, ps).value.0;
            forall i :: 0 <= i < |ps| ==>
              && fs[i].name == Lookup(ps[i], "name")
              && fs[i].required == Lookup(ps[i], "required")
              && fs[i].description == Lookup(ps[i], "description")
              && Lookup(ps[i], "schema").Some? && Lookup(ps[i], "schema") != Some(JNull)
    decreases |ps|
  {
    if ps != [] {
      var f := ParamField(env, st, ps[0]).value;
      ParamFieldsFollow(env, f.1, ps[1..]);
      var fs := ParamFields(env, st, ps).value.0;
      assert fs == [f.0] + ParamFields(env, f.1, ps[1..]).value.0;
      forall i | 1 <= i < |ps|
        ensures fs[i] == ParamFields(env, f.1, ps[1..]).value.0[i - 1] && ps[i] == ps[1..][i - 1]
      {
      }
    }
  }

  /** A group's record comes last, under the group's name and placement,
      with one field per parameter; `placement` stays set. */
  lemma ParamRecordAppends(env: Env, st: State, typeName: string, pl: Placement, ps: seq<Json>)
    requires ParamRecord(env, st, typeName, pl, ps).Ok?
    ensures var st' := ParamRecord(env, st, typeName, pl, ps).value;
            && st.interfaces < st'.interfaces
            && st.typeNameMap <= st'.typeNameMap
            && st'.placement == Some(pl)
            && Last(st'.interfaces).name == typeName
            && Last(st'.interfaces).description.None?
            && Last(st'.interfaces).placement == Some(pl)
            && Last(st'.interfaces).fields.Flat?
            && |Last(st'.interfaces).fields.fields| == |ps|
            && forall i :: 0 <= i < |ps| ==> Last(st'.interfaces).fields.fields[i].name == Lookup(ps[i], "name")
  {
    var f := ParamFields(env, st.(placement := Some(pl)), ps).value;
    ParamFieldsFollow(env, st.(placement := Some(pl)), ps);
  }

  /** The query and path groups are the filters of the resolved
      parameters, and there are none without parameters. */
  lemma GroupsSelect(env: Env, st: State, parameters: Option<Json>)
    requires Groups(env, st, parameters).Ok?
    ensures var g := Groups(env, st, parameters).value.0;
            if NonEmpty(parameters) then
              var resolved := ResolveAll(env.doc, parameters.value.items).value;
              && GroupOf(g, "query") == Select(resolved, "query").value
              && GroupOf(g, "path") == Select(resolved, "path").value
            else g == map[]
  {
    if NonEmpty(parameters) {
      var resolved := ResolveAll(env.doc, parameters.value.items).value;
      var q := Select(resolved, "query").value;
      var st1 := TypeParams(env, st, q).value;
      var a1: map<string, seq<Json>> := if q != [] then map["query" := q] else map[];
      var p := Select(resolved, "path").value;
      var st2 := TypeParams(env, st1, p).value;
      var a2 := if p != [] then a1["path" := p] else a1;
      assert Sources[1..] == ["path", "cookie"] && Sources[1..][1..] == ["cookie"];
      var c := Select(resolved, "cookie").value;
      var st3 := TypeParams(env, st2, c).value;
      var a3 := if c != [] then a2["cookie" := c] else a2;
      assert GroupsFrom(env, st2, resolved, ["cookie"], a2) == Ok((a3, st3));
      assert GroupsFrom(env, st1, resolved, ["path", "cookie"], a1) == Ok((a3, st3));
      assert Groups(env, st, parameters).value.0 == a3;
    }
  }

  /** A path with a `{word}` in it always gets the `PathVar` record. */
  lemma PathVariablesGivePathVar(env: Env, st: State, name: string, parameters: Option<Json>, path: string)
    requires ParamsTP(env, st, name, parameters, path).Ok?
    requires PathVariables(path, 0) != []
    ensures ParamsTP(env, st, name, parameters, path).value.0.pathVar == Some(ToFirstUpperCase(name) + "PathVar")
  {
    var g := Groups(env, st, parameters).value;
    var vars := PathVariables(path, 0);
    ImplicitCovers(GroupOf(g.0, "path"), vars);
    assert vars[0] in vars;
    assert path != "";
    assert HasName(PathGroup(GroupOf(g.0, "path"), path), vars[0]);
  }

  /** The `Query` record exists exactly when some parameter is in the
      query; header and cookie parameters never give one. */
  lemma QueryIffQueryParameter(env: Env, st: State, name: string, parameters: Option<Json>, path: string)
    requires ParamsTP(env, st, name, parameters, path).Ok?
    ensures var r := ParamsTP(env, st, name, parameters, path).value.0;
            if NonEmpty(parameters) then
              var resolved := ResolveAll(env.doc, parameters.value.items).value;
              var inQuery := exists p :: p in resolved && IsString(Lookup(p, "in"), "query");
              r.query == Some(ToFirstUpperCase(name) + "Query") <==> inQuery
            else r.query.None?
  {
    GroupsSelect(env, st, parameters);
    if NonEmpty(parameters) {
      var resolved := ResolveAll(env.doc, parameters.value.items).value;
      SelectExact(resolved, "query");
      var q := Select(resolved, "query").value;
      if exists p :: p in resolved && IsString(Lookup(p, "in"), "query") {
        var p :| p in resolved && IsString(Lookup(p, "in"), "query");
        assert p in q;
      }
      if q != [] {
        assert q[0] in q;
      }
    }
  }

  // ---------------------------------------------------------------------
  // getBodyTP

  /** A defaulted `= {}` parameter: only a missing argument is replaced. */
  function OrEmptyObject(v: Option<Json>): (r: Option<Json>)
    ensures r.Some? && (v.Some? ==> r == v)
  {
    if v.None? then Some(JObj([])) else v
  }

  /** The retyping of one truthy property value: a `binary` property
      becomes a `File`, otherwise its `binary` items do. Only an object
      can carry either `format`. */
  function RetypeFile(v: Json): (r: Json)
    ensures v.JObj? && IsString(Lookup(v, "format"), "binary") ==> Lookup(r, "type") == Some(JStr("File"))
    ensures v.JObj? && !IsString(Lookup(v, "format"), "binary") && Lookup(v, "items").Some?
            && IsString(Lookup(Lookup(v, "items").value, "format"), "binary")
            ==> Lookup(r, "items").Some? && Lookup(Lookup(r, "items").value, "type") == Some(JStr("File"))
    ensures forall k :: k != "type" && k != "items" ==> Lookup(r, k) == Lookup(v, k)
    ensures !IsString(Lookup(v, "format"), "binary")
            && (Lookup(v, "items").None? || !IsString(Lookup(Lookup(v, "items").value, "format"), "binary"))
            ==> r == v
  {
    if !v.JObj? then v
    else if IsString(Lookup(v, "format"), "binary") then Assign(v, "type", JStr("File"))
    else
      var items := Lookup(v, "items");
      if items.Some? && IsString(Lookup(items.value, "format"), "binary")
      then
        NamedKeyOfArray(items.value, "format");
        Assign(v, "items", Assign(items.value, "type", JStr("File")))
      else v
  }

  /** The `forEach` over `Object.keys(schema.properties)`: every value of
      an object or an array is retyped; other values have no keys whose
      values could be. */
  function RetypeFiles(props: Json): (r: Json)
    ensures ObjectKeys(r) == ObjectKeys(props)
  {
    match props
    case JObj(ms) => JObj(RetypeMembers(ms))
    case JArr(items) => JArr(RetypeItems(items))
    case _ => props
  }

  function RetypeMembers(ms: seq<Member>): (r: seq<Member>)
    ensures |r| == |ms| && forall i :: 0 <= i < |ms| ==> r[i] == Member(ms[i].key, RetypeFile(ms[i].value))
  {
    seq(|ms|, i requires 0 <= i < |ms| => Member(ms[i].key, RetypeFile(ms[i].value)))
  }

  function RetypeItems(items: seq<Json>): (r: seq<Json>)
    ensures |r| == |items| && forall i :: 0 <= i < |items| ==> r[i] == RetypeFile(items[i])
  {
    seq(|items|, i requires 0 <= i < |items| => RetypeFile(items[i]))
  }

  /** `schema.type === 'object' && schema.properties`: the schema is
      promoted to a record of its own. */
  predicate Promoted(schema: Json) {
    IsString(Lookup(schema, "type"), "object") && Truthy(Lookup(schema, "properties"))
  }

  /** The schema after the retyping loop has run over its properties. */
  function Retyped(schema: Json): Json
    requires Promoted(schema)
  {
    Assign(schema, "properties", RetypeFiles(Lookup(schema, "properties").value))
  }

  /** `{mediaType, type}` of the body; `formSchema` is the retyped schema
      when it is the very object `getFileTP` reads again afterwards. */
  datatype Body = Body(mediaType: string, typ: Option<Json>, formSchema: Option<Json>)

  const Multipart := "multipart/form-data"

  /** The first media type of a `content` object and its `schema`. */
  datatype Entry = Entry(key: string, schema: Option<Json>)

  /** The part of `getBodyTP` up to `reqContent[mediaType].schema`:
      nothing when there is no body or its `content` is not an object. */
  function BodyEntry(env: Env, requestBody: Option<Json>): (r: Result<Option<Entry>>)
    ensures requestBody.None? ==> r == Ok(None)
  {
    var reqBody :- Resolve(env.doc, OrEmptyObject(requestBody));
    if !Truthy(reqBody) then Ok(None)
    else
      var content := Lookup(reqBody.value, "content");
      if !IsObjectType(content) then Ok(None)
      else if content.value.JNull? then Failure(TypeError)        // Object.keys(null)
      else
        var keys := ObjectKeys(content.value);
        if keys == [] then Failure(TypeError)                      // undefined.schema
        else
          var entry :- Prop(Lookup(content.value, keys[0]), "schema");
          Ok(Some(Entry(keys[0], entry)))
  }

  /** A body whose `content` is an object with members takes its first
      member's media type and `schema`. */
  lemma BodyEntryFirst(env: Env, requestBody: Option<Json>, reqBody: Json, content: seq<Member>)
    requires Resolve(env.doc, OrEmptyObject(requestBody)) == Ok(Some(reqBody)) && Truthy(Some(reqBody))
    requires Lookup(reqBody, "content") == Some(JObj(content)) && content != []
    ensures var r := BodyEntry(env, requestBody);
            r.Ok? <==> !content[0].value.JNull?
    ensures var r := BodyEntry(env, requestBody);
            r.Ok? ==> r.value == Some(Entry(content[0].key, Lookup(content[0].value, "schema")))
  {
    assert ObjectKeys(JObj(content))[0] == content[0].key;
  }

  /** The rest of `getBodyTP`: a promoted schema becomes the record
      `<Name>Body`, any other is typed in place. */
  function BodyOf(env: Env, placed: State, name: string, e: Entry): (r: Result<(Body, State)>)
    ensures r.Ok? ==> r.value.0.mediaType == (if e.key == "*/*" then "" else e.key)
  {
    var schema := if Truthy(e.schema) then e.schema.value else DefaultSchema;
    var mediaType := if e.key == "*/*" then "" else e.key;
    if Promoted(schema) then
      var retyped := Retyped(schema);
      var f :- GetFields(env, placed, retyped);
      var typeName := ToFirstUpperCase(name) + "Body";
      var record := Record(typeName, Lookup(retyped, "description"), Flat(f.0), f.1.placement);
      var form := if e.key == Multipart && Truthy(e.schema) then Some(retyped) else None;
      Ok((Body(mediaType, Some(JStr(typeName)), form), f.1.(interfaces := f.1.interfaces + [record])))
    else
      var t :- GetType(env, placed, Some(schema));
      Ok((Body(mediaType, t.0, None), t.1))
  }

  /** `getBodyTP(requestBody)`. */
  function BodyTP(env: Env, st: State, name: string, requestBody: Option<Json>): (r: Result<(Option<Body>, State)>)
    ensures r.Ok? ==> && r.value.1.placement == Some(BodyPlacement)
                      && st.interfaces <= r.value.1.interfaces
                      && st.typeNameMap <= r.value.1.typeNameMap
    ensures r.Ok? && r.value.0.Some? ==> r.value.0.value.mediaType != "*/*"
  {
    var placed := st.(placement := Some(BodyPlacement));
    var e :- BodyEntry(env, requestBody);
    if e.None? then Ok((None, placed))
    else
      var b :- BodyOf(env, placed, name, e.value);
      Ok((Some(b.0), b.1))
  }

  /** Reading a property after the retyping reads the retyped value. */
  lemma LookupRetyped(props: Json, k: string)
    ensures var before := Lookup(props, k);
            Lookup(RetypeFiles(props), k) == if before.Some? then Some(RetypeFile(before.value)) else None
  {
    match props
    case JObj(ms) => MemberRetyped(ms, k);
    case JArr(items) => IndexRetyped(items, k, 0);
    case _ =>
  }

  lemma {:induction false} MemberRetyped(ms: seq<Member>, k: string)
    ensures var before := FindMember(ms, k);
            FindMember(RetypeMembers(ms), k) == if before.Some? then Some(RetypeFile(before.value)) else None
  {
    if ms != [] && ms[0].key != k {
      MemberRetyped(ms[1..], k);
      assert RetypeMembers(ms)[1..] == RetypeMembers(ms[1..]);
    }
  }

  lemma {:induction false} IndexRetyped(items: seq<Json>, k: string, from: nat)
    requires from <= |items|
    ensures var before := FindIndex(items, k, from);
            FindIndex(RetypeItems(items), k, from) == if before.Some? then Some(RetypeFile(before.value)) else None
    decreases |items| - from
  {
    if from < |items| && !IndexKey(from, k) {
      IndexRetyped(items, k, from + 1);
    }
  }

  /** Retyping a property twice is retyping it once. */
  lemma RetypeFileTwice(v: Json)
    ensures RetypeFile(RetypeFile(v)) == RetypeFile(v)
  {
    var file := JStr("File");
    if v.JObj? && IsString(Lookup(v, "format"), "binary") {
      var w := Assign(v, "type", file);
      assert Lookup(w, "format") == Lookup(v, "format");
      assert RetypeFile(w) == Assign(w, "type", file);
      AssignTwice(v, "type", file);
    } else if v.JObj? {
      var items := Lookup(v, "items");
      if items.Some? && IsString(Lookup(items.value, "format"), "binary") {
        var it := Assign(items.value, "type", file);
        var w := Assign(v, "items", it);
        assert Lookup(w, "format") == Lookup(v, "format");
        assert Lookup(w, "items") == Some(it);
        assert Lookup(it, "format") == Lookup(items.value, "format");
        assert RetypeFile(w) == Assign(w, "items", Assign(it, "type", file));
        AssignTwice(items.value, "type", file);
        AssignTwice(v, "items", it);
      }
    }
  }

  /** The retyping loop is idempotent, so the document it mutates in
      place gives the same schema to every later parse. */
  lemma RetypeIdempotent(props: Json)
    ensures RetypeFiles(RetypeFiles(props)) == RetypeFiles(props)
  {
    match props
    case JObj(ms) =>
      forall i | 0 <= i < |ms| ensures RetypeFile(RetypeFile(ms[i].value)) == RetypeFile(ms[i].value) {
        RetypeFileTwice(ms[i].value);
      }
      assert RetypeMembers(RetypeMembers(ms)) == RetypeMembers(ms);
    case JArr(items) =>
      forall i | 0 <= i < |items| ensures RetypeFile(RetypeFile(items[i])) == RetypeFile(items[i]) {
        RetypeFileTwice(items[i]);
      }
      assert RetypeItems(RetypeItems(items)) == RetypeItems(items);
    case _ =>
  }

  /** In a promoted schema, a `binary` property is typed `File`, and so
      are the `binary` items of any other property; the property names
      are those of the schema. */
  lemma BinaryPropertyIsFile(schema: Json, k: string)
    requires Promoted(schema)
    requires var v := Lookup(Lookup(schema, "properties").value, k); v.Some? && v.value.JObj?
    ensures var props := Lookup(Retyped(schema), "properties");
            && props == Some(RetypeFiles(Lookup(schema, "properties").value))
            && ObjectKeys(props.value) == ObjectKeys(Lookup(schema, "properties").value)
    ensures var v := Lookup(Lookup(schema, "properties").value, k).value;
            var after := Lookup(Lookup(Retyped(schema), "properties").value, k);
            && after.Some?
            && (IsString(Lookup(v, "format"), "binary") ==> Lookup(after.value, "type") == Some(JStr("File")))
            && (!IsString(Lookup(v, "format"), "binary") && Lookup(v, "items").Some?
                && IsString(Lookup(Lookup(v, "items").value, "format"), "binary")
                ==> Lookup(after.value, "items").Some?
                    && Lookup(Lookup(after.value, "items").value, "type") == Some(JStr("File")))
  {
    NamedKeyOfArray(schema, "type");
    LookupRetyped(Lookup(schema, "properties").value, k);
  }

  /** The retyping replaces `properties` and keeps everything else. */
  lemma RetypedShape(schema: Json)
    requires Promoted(schema)
    ensures schema.JObj? && Truthy(Some(schema))
    ensures var props := Lookup(schema, "properties").value;
            && Lookup(Retyped(schema), "properties") == Some(RetypeFiles(props))
            && Lookup(Retyped(schema), "description") == Lookup(schema, "description")
            && ObjectKeys(RetypeFiles(props)) == ObjectKeys(props)
  {
    NamedKeyOfArray(schema, "type");
  }

  /** A promoted schema becomes the record `<Name>Body`, last among the
      records, with one field per property; a multipart body hands its
      retyped schema on to `getFileTP`. */
  lemma BodyPromotes(env: Env, placed: State, name: string, key: string, schema: Json)
    requires Promoted(schema)
    requires BodyOf(env, placed, name, Entry(key, Some(schema))).Ok?
    ensures var r := BodyOf(env, placed, name, Entry(key, Some(schema))).value;
            var typeName := ToFirstUpperCase(name) + "Body";
            && r.0.typ == Some(JStr(typeName))
            && r.0.formSchema == (if key == Multipart then Some(Retyped(schema)) else None)
            && placed.interfaces < r.1.interfaces
            && Last(r.1.interfaces).name == typeName
            && Last(r.1.interfaces).placement == placed.placement
            && Last(r.1.interfaces).description == Lookup(schema, "description")
            && Last(r.1.interfaces).fields.Flat?
            && |Last(r.1.interfaces).fields.fields| == |ObjectKeys(Lookup(schema, "properties").value)|
  {
    RetypedShape(schema);
    var props := Lookup(schema, "properties").value;
    var retyped := Retyped(schema);
    var f := GetFields(env, placed, retyped);
    assert f == FieldsFrom(env, placed, retyped, RetypeFiles(props), ObjectKeys(props));
    var typeName := ToFirstUpperCase(name) + "Body";
    var record := Record(typeName, Lookup(retyped, "description"), Flat(f.value.0), f.value.1.placement);
    var form := if key == Multipart then Some(retyped) else None;
    var mediaType := if key == "*/*" then "" else key;
    assert BodyOf(env, placed, name, Entry(key, Some(schema)))
           == Ok((Body(mediaType, Some(JStr(typeName)), form), f.value.1.(interfaces := f.value.1.interfaces + [record])));
  }

  // ---------------------------------------------------------------------
  // getResponseTP

  datatype Response = Response(mediaType: string, typ: Option<Json>)

  /** `responses.default || responses['200'] || responses['201']`. */
  function Picked(responses: Json): (r: Option<Json>)
    ensures Truthy(Lookup(responses, "default")) ==> r == Lookup(responses, "default")
    ensures !Truthy(Lookup(responses, "default")) && Truthy(Lookup(responses, "200")) ==> r == Lookup(responses, "200")
    ensures !Truthy(Lookup(responses, "default")) && !Truthy(Lookup(responses, "200")) ==> r == Lookup(responses, "201")
  {
    Or(Or(Lookup(responses, "default"), Lookup(responses, "200")), Lookup(responses, "201"))
  }

  /** The `$ref` branch only reads: its `split` needs a string and its
      lookup needs `components.schemas`; its reassignment of `schema` gives
      back the same value. */
  function RefCheck(env: Env, schema: Json): (r: Result<bool>)
    ensures r.Ok? <==> !Truthy(Lookup(schema, "$ref"))
                       || (Lookup(schema, "$ref").value.JStr? && env.defines.Some? && !env.defines.value.JNull?)
  {
    var ref := Lookup(schema, "$ref");
    if !Truthy(ref) then Ok(false)
    else if !ref.value.JStr? then Failure(TypeError)
    else if env.defines.None? || env.defines.value.JNull? then Failure(TypeError)
    else Ok(true)
  }

  /** `schema.required?.includes(fieldName) ?? false`. */
  function RequiredIncludes(required: Option<Json>, key: string): (r: Result<bool>)
    ensures r.Ok? <==> required.None? || required.value.JNull? || required.value.JArr? || required.value.JStr?
    ensures r.Ok? ==> (r.value <==> ListsName(required, key))
  {
    if required.None? || required.value.JNull? then Ok(false)
    else match required.value
      case JArr(items) => Ok(JStr(key) in items)
      case JStr(s) => Ok(Contains(s, key))
      case _ => Failure(TypeError)
  }

  /** `required` names `key`: as an element of an array, or as a part of
      a string. */
  predicate ListsName(required: Option<Json>, key: string) {
    required.Some?
    && ((required.value.JArr? && JStr(key) in required.value.items)
        || (required.value.JStr? && Contains(required.value.s, key)))
  }

  /** `schema.properties[key].required = ...`: an object takes the member;
      an array takes it outside anything JSON can hold; null and the
      primitives refuse the write. */
  function MarkValue(v: Json, required: Option<Json>, key: string): Result<Json> {
    var b :- RequiredIncludes(required, key);
    match v
    case JObj(ms) => Ok(JObj(SetMember(ms, "required", JBool(b))))
    case JArr(_) => Ok(v)
    case _ => Failure(TypeError)
  }

  function MarkMembers(ms: seq<Member>, required: Option<Json>): (r: Result<seq<Member>>)
    ensures r.Ok? ==> |r.value| == |ms| && forall i :: 0 <= i < |ms| ==> r.value[i].key == ms[i].key
  {
    if ms == [] then Ok([])
    else
      var v :- MarkValue(ms[0].value, required, ms[0].key);
      var rest :- MarkMembers(ms[1..], required);
      Ok([Member(ms[0].key, v)] + rest)
  }

  function MarkItems(items: seq<Json>, required: Option<Json>, from: nat): (r: Result<seq<Json>>)
    ensures r.Ok? ==> |r.value| == |items|
    decreases |items|
  {
    if items == [] then Ok([])
    else
      var v :- MarkValue(items[0], required, NatToString(from));
      var rest :- MarkItems(items[1..], required, from + 1);
      Ok([v] + rest)
  }

  /** The `.map` over `Object.keys(schema.properties)`. */
  function MarkProperties(schema: Json, props: Json): Result<Json> {
    var required := Lookup(schema, "required");
    match props
    case JNull => Failure(TypeError)                              // Object.keys(null)
    case JObj(ms) =>
      var marked :- MarkMembers(ms, required);
      Ok(Assign(schema, "properties", JObj(marked)))
    case JArr(items) =>
      var marked :- MarkItems(items, required, 0);
      Ok(Assign(schema, "properties", JArr(marked)))
    case JStr(s) => if s == "" then Ok(schema) else Failure(TypeError)
    case _ => Ok(schema)
  }

  /** `if ('properties' in schema) ...`: `in` needs an object. */
  function WithRequired(schema: Json): Result<Json> {
    match schema
    case JObj(ms) => if FindMember(ms, "properties").Some? then MarkProperties(schema, FindMember(ms, "properties").value) else Ok(schema)
    case JArr(_) => Ok(schema)
    case JNull => Failure(TypeError)
    case _ => Failure(TypeError)
  }

  /** The part of `getResponseTP` up to `resContent[mediaType].schema`:
      nothing without a success response or a named first media type. */
  function ResponseEntry(env: Env, responses: Option<Json>): (r: Result<Option<Entry>>)
    ensures var rs := OrEmptyObject(responses).value;
            !Truthy(Lookup(rs, "default")) && !Truthy(Lookup(rs, "200")) && !Truthy(Lookup(rs, "201"))
            ==> r == Ok(None)
    ensures r.Ok? && r.value.Some? ==> r.value.value.key != ""
  {
    var rs := OrEmptyObject(responses);
    if !Truthy(rs) then Ok(None)
    else
      var response :- Resolve(env.doc, Picked(rs.value));
      if !Truthy(response) then Ok(None)
      else
        var content := Lookup(response.value, "content");
        if !IsObjectType(content) || content.value.JNull? then Ok(None)
        else
          var keys := ObjectKeys(content.value);
          if keys == [] || keys[0] == "" then Ok(None)
          else
            var entry :- Prop(Lookup(content.value, keys[0]), "schema");
            Ok(Some(Entry(keys[0], entry)))
  }

  /** A success response whose `content` is an object with a named first
      member takes that member's media type and `schema`. */
  lemma ResponseEntryFirst(env: Env, responses: Option<Json>, response: Json, content: seq<Member>)
    requires Truthy(OrEmptyObject(responses))
    requires Resolve(env.doc, Picked(OrEmptyObject(responses).value)) == Ok(Some(response)) && Truthy(Some(response))
    requires Lookup(response, "content") == Some(JObj(content)) && content != [] && content[0].key != ""
    ensures var r := ResponseEntry(env, responses);
            r.Ok? <==> !content[0].value.JNull?
    ensures var r := ResponseEntry(env, responses);
            r.Ok? ==> r.value == Some(Entry(content[0].key, Lookup(content[0].value, "schema")))
  {
    assert ObjectKeys(JObj(content))[0] == content[0].key;
    assert Lookup(JObj(content), content[0].key) == Some(content[0].value);
    assert Prop(Some(content[0].value), "schema").Ok? <==> !content[0].value.JNull?;
  }

  /** The rest of `getResponseTP`: the reference check, the marking of
      `required`, and the type. */
  function ResponseOf(env: Env, placed: State, e: Entry): (r: Result<(Response, State)>)
    ensures r.Ok? ==> r.value.0.mediaType == e.key && Extends(placed, r.value.1)
  {
    var schema := if Truthy(e.schema) then e.schema.value else DefaultSchema;
    var checked :- RefCheck(env, schema);
    var marked :- WithRequired(schema);
    var t :- GetType(env, placed, Some(marked));
    Ok((Response(e.key, t.0), t.1))
  }

  /** `getResponseTP(responses)`. */
  function ResponseTP(env: Env, st: State, responses: Option<Json>): (r: Result<(Option<Response>, State)>)
    ensures r.Ok? ==> Extends(st.(placement := Some(ResPlacement)), r.value.1)
    ensures r.Ok? && r.value.0.Some? ==> r.value.0.value.mediaType != ""
  {
    var placed := st.(placement := Some(ResPlacement));
    var e :- ResponseEntry(env, responses);
    if e.None? then Ok((None, placed))
    else
      var res :- ResponseOf(env, placed, e.value);
      Ok((Some(res.0), res.1))
  }

  /** The marking succeeds exactly when every property value is an
      object or an array and, if there is any, `required` is absent, null,
      an array or a string. */
  lemma {:induction false} MarkMembersOk(ms: seq<Member>, required: Option<Json>)
    ensures MarkMembers(ms, required).Ok?
            <==> ms == [] || (RequiredIncludes(required, "").Ok?
                              && forall i :: 0 <= i < |ms| ==> ms[i].value.JObj? || ms[i].value.JArr?)
  {
    if ms != [] {
      MarkMembersOk(ms[1..], required);
      assert forall i :: 1 <= i < |ms| ==> ms[i] == ms[1..][i - 1];
    }
  }

  /** An object property comes out with `required` set to whether the
      schema lists its name, and its other members as they were. */
  lemma {:induction false} MarkedRequired(ms: seq<Member>, required: Option<Json>, k: string, vs: seq<Member>)
    requires MarkMembers(ms, required).Ok?
    requires FindMember(ms, k) == Some(JObj(vs))
    ensures RequiredIncludes(required, k).Ok?
    ensures FindMember(MarkMembers(ms, required).value, k)
            == Some(JObj(SetMember(vs, "required", JBool(RequiredIncludes(required, k).value))))
  {
    if ms[0].key != k {
      MarkedRequired(ms[1..], required, k, vs);
    }
  }

  /** With object-valued `properties`, the marking replaces them by their
      marked members. */
  lemma WithRequiredObject(schema: seq<Member>, ms: seq<Member>)
    requires FindMember(schema, "properties") == Some(JObj(ms))
    requires WithRequired(JObj(schema)).Ok?
    ensures var marked := MarkMembers(ms, FindMember(schema, "required"));
            && marked.Ok?
            && WithRequired(JObj(schema)) == Ok(JObj(SetMember(schema, "properties", JObj(marked.value))))
  {
  }

  /** Through `getResponseTP`'s marking: the property `k` of the schema
      reads `required: true` exactly when the schema's `required` lists
      it, and keeps everything else. */
  lemma ResponseRequiredMarked(schema: seq<Member>, ms: seq<Member>, k: string, vs: seq<Member>)
    requires FindMember(schema, "properties") == Some(JObj(ms))
    requires FindMember(ms, k) == Some(JObj(vs))
    requires WithRequired(JObj(schema)).Ok?
    ensures var marked := WithRequired(JObj(schema)).value;
            var props := Lookup(marked, "properties");
            && props.Some? && ObjectKeys(props.value) == ObjectKeys(JObj(ms))
            && Lookup(props.value, k).Some?
            && var v := Lookup(props.value, k).value;
               && (Lookup(v, "required") == Some(JBool(true))
                   <==> ListsName(FindMember(schema, "required"), k))
               && forall k' :: k' != "required" ==> Lookup(v, k') == FindMember(vs, k')
  {
    var required := FindMember(schema, "required");
    WithRequiredObject(schema, ms);
    MarkedRequired(ms, required, k, vs);
    var marked := MarkMembers(ms, required).value;
    SameKeys(marked, ms);
    var b := RequiredIncludes(required, k).value;
    assert Lookup(JObj(marked), k) == Some(JObj(SetMember(vs, "required", JBool(b))));
  }

  lemma {:induction false} MarkMembersTwice(ms: seq<Member>, required: Option<Json>)
    requires MarkMembers(ms, required).Ok?
    ensures MarkMembers(MarkMembers(ms, required).value, required) == MarkMembers(ms, required)
  {
    if ms != [] {
      MarkMembersTwice(ms[1..], required);
      var key := ms[0].key;
      var v := ms[0].value;
      if v.JObj? {
        SetMemberTwice(v.members, "required", JBool(RequiredIncludes(required, key).value));
      }
      var m := MarkValue(v, required, key).value;
      assert MarkValue(m, required, key) == Ok(m);
      var rest := MarkMembers(ms[1..], required).value;
      var marked := MarkMembers(ms, required).value;
      assert marked == [Member(key, m)] + rest;
      assert marked[1..] == rest;
    }
  }

  lemma {:induction false} MarkItemsTwice(items: seq<Json>, required: Option<Json>, from: nat)
    requires MarkItems(items, required, from).Ok?
    ensures MarkItems(MarkItems(items, required, from).value, required, from) == MarkItems(items, required, from)
    decreases |items|
  {
    if items != [] {
      MarkItemsTwice(items[1..], required, from + 1);
      var key := NatToString(from);
      var v := items[0];
      if v.JObj? {
        SetMemberTwice(v.members, "required", JBool(RequiredIncludes(required, key).value));
      }
      var m := MarkValue(v, required, key).value;
      assert MarkValue(m, required, key) == Ok(m);
      var rest := MarkItems(items[1..], required, from + 1).value;
      var marked := MarkItems(items, required, from).value;
      assert marked == [m] + rest;
      assert marked[1..] == rest;
    }
  }

  /** Marking `required` is idempotent, so the document it mutates in
      place gives the same schema to every later parse. */
  lemma MarkIdempotent(schema: Json)
    requires WithRequired(schema).Ok?
    ensures WithRequired(WithRequired(schema).value) == WithRequired(schema)
  {
    if schema.JObj? && FindMember(schema.members, "properties").Some? {
      var props := FindMember(schema.members, "properties").value;
      var required := Lookup(schema, "required");
      match props
      case JObj(ms) =>
        var marked := MarkMembers(ms, required).value;
        MarkMembersTwice(ms, required);
        AssignTwice(schema, "properties", JObj(marked));
      case JArr(items) =>
        var marked := MarkItems(items, required, 0).value;
        MarkItemsTwice(items, required, 0);
        AssignTwice(schema, "properties", JArr(marked));
      case _ =>
    }
  }

  // ---------------------------------------------------------------------
  // getFileTP

  /** `{title, multiple}` of a file field. */
  datatype FileField = FileField(title: Option<Json>, multiple: bool)

  predicate BinaryFormat(format: Option<Json>) {
    IsString(format, "binary") || IsString(format, "base64")
  }

  predicate Multiple(f: FieldObject) {
    IsString(f.typ, "string[]") || IsString(f.typ, "array")
  }

  /** The `filter` predicate: the items of a list-typed field are read
      without a guard. */
  function IsFileField(f: FieldObject): (r: Result<bool>)
    ensures r.Failure? <==> !BinaryFormat(f.format) && Multiple(f) && (f.items.None? || f.items == Some(JNull))
    ensures r.Ok? ==> (r.value <==> BinaryFormat(f.format) || (Multiple(f) && BinaryFormat(Lookup(f.items.value, "format"))))
  {
    if BinaryFormat(f.format) then Ok(true)
    else if !Multiple(f) then Ok(false)
    else if f.items.None? || f.items == Some(JNull) then Failure(TypeError)
    else Ok(BinaryFormat(Lookup(f.items.value, "format")))
  }

  function FileFieldsOf(fs: seq<FieldObject>): Result<seq<FileField>> {
    if fs == [] then Ok([])
    else
      var keep :- IsFileField(fs[0]);
      var rest :- FileFieldsOf(fs[1..]);
      Ok(if keep then [FileField(fs[0].name, Multiple(fs[0]))] + rest else rest)
  }

  /** Only `resolveProperties` yields a flat `fields` list; `allOf`
      groups are lists of lists, which the filter never keeps. */
  function FileFields(res: Resolved): Result<seq<FileField>> {
    if res.Props? then FileFieldsOf(res.fields) else Ok([])
  }

  /** `resolveFileTP(obj)`: the file fields of the schema, then those of
      its `type`, as long as that is truthy. Following the same schema
      again would recurse without end; that ends in StackOverflow. */
  function ResolveFileTP(env: Env, st: State, x: Option<Json>, seen: set<Json>)
    : (r: Result<(seq<FileField>, State)>)
    ensures r.Ok? ==> Extends(st, r.value.1)
    decreases Unvisited(Nodes(env.doc), seen), if x.Some? && x.value in Nodes(env.doc) then 0 else 1, SizeOf(x)
  {
    if x.Some? && x.value in seen then Failure(StackOverflow)
    else
      var res :- ResolveObject(env, st, x);
      var files :- FileFields(res.0);
      var next := TypeOf(res.0);
      if !Truthy(next) then Ok((files, res.1))
      else
        NextSmaller(env, st, x);
        VisitStep(env.doc, seen, x.value);
        var more :- ResolveFileTP(env, res.1, next, seen + {x.value});
        ExtendsTrans(st, res.1, more.1);
        Ok((files + more.0, more.1))
  }

  /** What `resolveObject` hands on as `type` is a node of the document,
      or a value smaller than the schema itself. */
  lemma NextSmaller(env: Env, st: State, x: Option<Json>)
    requires ResolveObject(env, st, x).Ok?
    ensures x.Some?
    ensures var next := TypeOf(ResolveObject(env, st, x).value.0);
            next.None? || next.value in Nodes(env.doc) || SizeOf(next) < SizeOf(x)
  {
    var res := ResolveObject(env, st, x).value.0;
    var v := x.value;
    if Truthy(Lookup(v, "$ref")) {
    } else if Truthy(Lookup(v, "enum")) {
      var e := Lookup(v, "enum");
      assert e.Some? && e.value.JArr?;
      var p := EnumTypes(env, st, e.value.items).value;
      var t := JObj([Member("type", JStr(JoinValues(Unique(p.0), " | ")))]);
      assert res == Value(Some(t));
      assert TypeOf(res) == Some(JStr(JoinValues(Unique(p.0), " | ")));
      assert Size(JStr(JoinValues(Unique(p.0), " | "))) == 1 <= Size(e.value) < Size(v);
    } else if NonEmpty(Lookup(v, "allOf")) {
    } else if Truthy(Lookup(v, "properties")) {
    } else if Truthy(Lookup(v, "items")) && IsString(Lookup(v, "type"), "array") {
      var a := ResolveArray(Lookup(v, "items").value).value;
      assert a.JObj? ==> TypeOf(res) == Some(a.members[0].value) && a.members[0].value.JStr?;
    } else {
    }
  }

  /** `getFileTP(requestBody)`: the file fields of the multipart schema,
      or nothing when there are none. */
  function FileTP(env: Env, st: State, requestBody: Option<Json>, formSchema: Option<Json>)
    : (r: Result<(Option<seq<FileField>>, State)>)
    ensures r.Ok? ==> Extends(st, r.value.1)
    ensures r.Ok? && r.value.0.Some? ==> r.value.0.value != []
    ensures requestBody.None? ==> r == Ok((None, st))
  {
    var reqBody :- Resolve(env.doc, OrEmptyObject(requestBody));
    if !Truthy(reqBody) then Ok((None, st))
    else
      var content := Lookup(reqBody.value, "content");
      if !Truthy(content) then Ok((None, st))
      else
        var mf := Lookup(content.value, Multipart);
        if !Truthy(mf) then Ok((None, st))
        else
          var schema := if formSchema.Some? then formSchema else Lookup(mf.value, "schema");
          var files :- ResolveFileTP(env, st, schema, {});
          Ok((if files.0 == [] then None else Some(files.0), files.1))
  }

  /** The filter keeps exactly the file fields, as `{title, multiple}`,
      and throws exactly when a list-typed field has no `items`. */
  lemma {:induction false} FileFieldsExact(fs: seq<FieldObject>)
    ensures FileFieldsOf(fs).Ok? <==> forall i :: 0 <= i < |fs| ==> IsFileField(fs[i]).Ok?
    ensures FileFieldsOf(fs).Ok? ==>
              && (forall i :: 0 <= i < |fs| && IsFileField(fs[i]).value
                    ==> FileField(fs[i].name, Multiple(fs[i])) in FileFieldsOf(fs).value)
              && (forall x :: x in FileFieldsOf(fs).value
                    ==> exists i :: 0 <= i < |fs| && IsFileField(fs[i]).value && x == FileField(fs[i].name, Multiple(fs[i])))
  {
    if fs != [] {
      FileFieldsExact(fs[1..]);
      assert forall i :: 1 <= i < |fs| ==> fs[i] == fs[1..][i - 1];
      if FileFieldsOf(fs).Ok? {
        var rest := FileFieldsOf(fs[1..]).value;
        forall x | x in FileFieldsOf(fs).value
          ensures exists i :: 0 <= i < |fs| && IsFileField(fs[i]).value && x == FileField(fs[i].name, Multiple(fs[i]))
        {
          if x !in rest {
            assert IsFileField(fs[0]).value && x == FileField(fs[0].name, Multiple(fs[0]));
          } else {
            var j :| 0 <= j < |fs[1..]| && IsFileField(fs[1..][j]).value && x == FileField(fs[1..][j].name, Multiple(fs[1..][j]));
            assert fs[j + 1] == fs[1..][j];
          }
        }
      }
    }
  }

  // ---------------------------------------------------------------------
  // The operation (src/parser.ts:66-74, 538-552)

  /** What `parser` returns for one operation. */
  datatype Outcome = Outcome(
    name: string,
    comment: string,
    body: Option<Json>,
    isFormData: bool,
    pathVar: Option<string>,
    query: Option<string>,
    res: Option<Json>,
    interfaces: seq<Record>)

  /** `!!((body && (body.mediaType || '').includes('form')) || file)`. */
  predicate FormData(body: Option<Body>, file: Option<seq<FileField>>) {
    (body.Some? && Contains(body.value.mediaType, "form")) || file.Some?
  }

  /** The four group functions in their order, over a fresh state. */
  function Assembled(env: Env, name: string, comment: string, op: Json, path: string): (r: Result<Outcome>)
    ensures r.Ok? ==> r.value.name == name && r.value.comment == comment
    ensures r.Ok? && Lookup(op, "requestBody").None? ==> r.value.body.None? && !r.value.isFormData
  {
    var params :- ParamsTP(env, State([], {}, None), name, Lookup(op, "parameters"), path);
    var body :- BodyTP(env, params.1, name, Lookup(op, "requestBody"));
    var res :- ResponseTP(env, body.1, Lookup(op, "responses"));
    var form := if body.0.Some? then body.0.value.formSchema else None;
    var file :- FileTP(env, res.1, Lookup(op, "requestBody"), form);
    Ok(Outcome(name, comment,
               if body.0.Some? then body.0.value.typ else None,
               FormData(body.0, file.0),
               params.0.pathVar, params.0.query,
               if res.0.Some? then res.0.value.typ else None,
               file.1.interfaces))
  }

  /** `parser(openAPIData, path, method)`: nothing when the path has no
      such operation; the operation's `operationId` must be a string, and
      the document must have `components`. */
  function Parsed(doc: Json, path: string, verb: string, ext: Externals): (r: Result<Option<Outcome>>)
    ensures Lookup(doc, "paths").None? || Lookup(doc, "paths") == Some(JNull) ==> r == Failure(TypeError)
    ensures var paths := Lookup(doc, "paths");
            paths.Some? && !paths.value.JNull? && !Truthy(Member?(Lookup(paths.value, path), verb)) ==> r == Ok(None)
    ensures r.Ok? && r.value.Some? ==>
              var id := Lookup(Member?(Lookup(Lookup(doc, "paths").value, path), verb).value, "operationId");
              id.Some? && id.value.JStr?
  {
    var pathItem :- Prop(Lookup(doc, "paths"), path);
    var op := Member?(pathItem, verb);
    if !Truthy(op) then Ok(None)
    else
      var id := Lookup(op.value, "operationId");
      if id.None? || !id.value.JStr? then Failure(TypeError)   // stripDot reads `replace`
      else
        var name := ResolveFunctionName(ext, StripDot(id.value.s), verb);
        var comment := Comment(Lookup(op.value, "summary"), Lookup(op.value, "description"));
        var defines :- Prop(Lookup(doc, "components"), "schemas");
        var outcome :- Assembled(Env(doc, defines, ext), name, comment, op.value, path);
        Ok(Some(outcome))
  }

  /** A request body whose first media type mentions `form` makes the
      operation form data. */
  lemma FormMediaTypeIsFormData(env: Env, name: string, comment: string, op: Json, path: string,
                                reqBody: Json, content: seq<Member>)
    requires Resolve(env.doc, OrEmptyObject(Lookup(op, "requestBody"))) == Ok(Some(reqBody)) && Truthy(Some(reqBody))
    requires Lookup(reqBody, "content") == Some(JObj(content)) && content != [] && Contains(content[0].key, "form")
    requires Assembled(env, name, comment, op, path).Ok?
    ensures Assembled(env, name, comment, op, path).value.isFormData
  {
    var params := ParamsTP(env, State([], {}, None), name, Lookup(op, "parameters"), path).value;
    FormBody(env, params.1, name, Lookup(op, "requestBody"), reqBody, content);
  }

  /** The same, for `getBodyTP` alone. */
  lemma FormBody(env: Env, st: State, name: string, requestBody: Option<Json>, reqBody: Json, content: seq<Member>)
    requires Resolve(env.doc, OrEmptyObject(requestBody)) == Ok(Some(reqBody)) && Truthy(Some(reqBody))
    requires Lookup(reqBody, "content") == Some(JObj(content)) && content != [] && Contains(content[0].key, "form")
    requires BodyTP(env, st, name, requestBody).Ok?
    ensures var b := BodyTP(env, st, name, requestBody).value.0;
            b.Some? && Contains(b.value.mediaType, "form")
  {
    BodyEntryFirst(env, requestBody, reqBody, content);
    CatchAllIsNotForm(content[0].key);
  }

  lemma CatchAllIsNotForm(key: string)
    requires Contains(key, "form")
    ensures key != "*/*"
  {
  }
}
