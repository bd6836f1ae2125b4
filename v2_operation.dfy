/** The entry of the definitions-shaped parser (src/v2/parser.ts): the path
    variables of a path template, the parameter groups of an operation,
    the request body, and the parse result that gathers them. */
module V2Operation {
  import opened Wrappers
  import opened JsonValues
  import opened Text
  import opened Types
  import opened Utils
  import opened Names
  import opened V2Parser

  // ---------------------------------------------------------------------
  // Path variables: `path.match(/\{(.+?)\}/g)?.map((d) => d.slice(1, -1)) || []`

  /** The first `}` from `j` on, provided no line terminator comes before
      it (`.` does not match one). */
  function CloseBrace(s: string, j: nat): (r: Option<nat>)
    requires j <= |s|
    ensures r.Some? ==> j <= r.value < |s| && s[r.value] == '}'
    ensures r.Some? ==> forall k :: j <= k < r.value ==> s[k] != '}' && !IsLineTerminator(s[k])
    decreases |s| - j
  {
    if j == |s| || IsLineTerminator(s[j]) then None
    else if s[j] == '}' then Some(j)
    else CloseBrace(s, j + 1)
  }

  /** No character of `v` is a line terminator. */
  predicate OnOneLine(v: string) {
    forall k :: 0 <= k < |v| ==> !IsLineTerminator(v[k])
  }

  /** The global lazy match: at a `{`, the shortest non-empty run of
      characters other than line terminators up to a `}`; the search goes
      on after that `}`, or after the `{` when there is no match there. */
  function PathVars(s: string): (r: seq<string>)
    ensures forall k :: 0 <= k < |r| ==> |r[k]| > 0 && OnOneLine(r[k])
    decreases |s|
  {
    if s == [] then []
    else if s[0] == '{' && |s| >= 2 && !IsLineTerminator(s[1]) && CloseBrace(s, 2).Some? then
      var j := CloseBrace(s, 2).value;
      assert forall k :: 0 <= k < j - 1 ==> s[1..j][k] == s[k + 1];
      [s[1..j]] + PathVars(s[j + 1..])
    else PathVars(s[1..])
  }

  lemma {:induction false} CloseBraceAt(s: string, j: nat, k: nat)
    requires j <= k < |s| && s[k] == '}'
    requires forall m :: j <= m < k ==> s[m] != '}' && !IsLineTerminator(s[m])
    ensures CloseBrace(s, j) == Some(k)
    decreases k - j
  {
    if j < k {
      CloseBraceAt(s, j + 1, k);
    }
  }

  /** A `{name}` segment gives the variable `name`, when the name holds no
      `}` and no line terminator. */
  lemma PathVarsVariable(v: string, rest: string)
    requires |v| > 0 && OnOneLine(v) && forall k :: 0 <= k < |v| ==> v[k] != '}'
    ensures PathVars("{" + v + "}" + rest) == [v] + PathVars(rest)
  {
    var s := "{" + v + "}" + rest;
    var j := |v| + 1;
    assert forall m :: 2 <= m < j ==> s[m] == v[m - 1];
    CloseBraceAt(s, 2, j);
    assert s[1..j] == v;
    assert s[j + 1..] == rest;
  }

  /** Text without `{` gives no variable. */
  lemma {:induction false} PathVarsLiteral(lit: string, rest: string)
    requires forall k :: 0 <= k < |lit| ==> lit[k] != '{'
    ensures PathVars(lit + rest) == PathVars(rest)
    decreases |lit|
  {
    if lit != [] {
      var s := lit + rest;
      assert s[0] == lit[0] != '{' && s[1..] == lit[1..] + rest;
      assert forall k :: 0 <= k < |lit| - 1 ==> lit[1..][k] == lit[k + 1];
      PathVarsLiteral(lit[1..], rest);
    } else {
      assert lit + rest == rest;
    }
  }

  // ---------------------------------------------------------------------
  // Parameter groups

  /** `pathVars.includes(parameter.name)`: only a string name can be equal
      to a path variable. */
  predicate NamedIn(p: Json, vars: seq<string>) {
    var name := Lookup(p, "name");
    name.Some? && name.value.JStr? && name.value.s in vars
  }

  datatype Group = PathGroup | QueryGroup | FormGroup

  /** The filters of resolvePath, resolveQuery and the form-data branch of
      resolveBodyInterface. */
  predicate InGroup(p: Json, g: Group, vars: seq<string>) {
    match g
    case PathGroup => IsString(Lookup(p, "in"), "path") || NamedIn(p, vars)
    case QueryGroup => IsString(Lookup(p, "in"), "query") && !NamedIn(p, vars)
    case FormGroup => IsString(Lookup(p, "in"), "formData") || IsString(Lookup(p, "in"), "body")
  }

  /** `parameters.filter(...)`: the callback reads a property of every
      element, so a null element is a TypeError. */
  function Select(params: seq<Json>, g: Group, vars: seq<string>): (r: Result<seq<Json>>)
    ensures r.Ok? ==> |r.value| <= |params|
  {
    if params == [] then Ok([])
    else
      var init :- Select(params[..|params| - 1], g, vars);
      var p := params[|params| - 1];
      if p == JNull then Failure(TypeError)
      else Ok(if InGroup(p, g, vars) then init + [p] else init)
  }

  /** The filter fails exactly on a null parameter; otherwise it keeps the
      parameters of the group, in order. */
  lemma {:induction false} SelectSpec(params: seq<Json>, g: Group, vars: seq<string>)
    ensures Select(params, g, vars).Ok? <==> JNull !in params
    ensures Select(params, g, vars).Ok? ==>
              (forall x :: x in Select(params, g, vars).value <==> x in params && InGroup(x, g, vars))
              && IsSubsequence(Select(params, g, vars).value, params)
    decreases |params|
  {
    if params != [] {
      var n := |params| - 1;
      var init := params[..n];
      var p := params[n];
      assert params == init + [p];
      SelectSpec(init, g, vars);
      if Select(init, g, vars).Ok? && p != JNull {
        var kept := Select(init, g, vars).value;
        if InGroup(p, g, vars) {
          SubsequenceSnoc(kept, init, p);
        } else {
          SubsequenceExtend(kept, init, p);
        }
      }
    }
  }

  /** A filter that went through saw no null parameter. */
  lemma SelectNoNull(params: seq<Json>, g: Group, vars: seq<string>)
    requires Select(params, g, vars).Ok?
    ensures JNull !in params
  {
    SelectSpec(params, g, vars);
  }

  /** No parameter goes both to the path record and to the query record. */
  lemma PathQueryDisjoint(params: seq<Json>, vars: seq<string>)
    requires Select(params, PathGroup, vars).Ok?
    ensures Select(params, QueryGroup, vars).Ok?
    ensures forall x :: x in Select(params, PathGroup, vars).value ==> x !in Select(params, QueryGroup, vars).value
  {
    SelectSpec(params, PathGroup, vars);
    SelectSpec(params, QueryGroup, vars);
  }

  /** `parameters.some((d) => d.in === 'formData')`, which reads elements
      up to the first form-data parameter. */
  function SomeFormData(params: seq<Json>): (r: Result<bool>)
    ensures r.Failure? ==> r.error == TypeError && JNull in params
    ensures r == Ok(true) ==> DeclaresFormData(params)
    decreases |params|
  {
    if params == [] then Ok(false)
    else if params[0] == JNull then Failure(TypeError)
    else if IsString(Lookup(params[0], "in"), "formData") then Ok(true)
    else SomeFormData(params[1..])
  }

  /** Without null parameters, `some` holds exactly when a parameter is
      declared in form data. */
  lemma {:induction false} SomeFormDataSpec(params: seq<Json>)
    requires JNull !in params
    ensures SomeFormData(params) == Ok(DeclaresFormData(params))
    decreases |params|
  {
    if params != [] {
      SomeFormDataSpec(params[1..]);
      assert forall i :: 1 <= i < |params| ==> params[i] == params[1..][i - 1];
      if IsString(Lookup(params[0], "in"), "formData") {
        assert 0 <= 0 < |params| && IsString(Lookup(params[0], "in"), "formData");
      } else {
        assert forall i :: 0 <= i < |params| && IsString(Lookup(params[i], "in"), "formData") ==> i >= 1;
      }
    }
  }

  /** The body parameter: the first declared in the body whose name is
      not a path variable. */
  predicate IsBodyParam(p: Json, vars: seq<string>) {
    IsString(Lookup(p, "in"), "body") && !NamedIn(p, vars)
  }

  /** `parameters.find(...)`, which reads elements up to the one found. */
  function BodyParam(params: seq<Json>, vars: seq<string>): (r: Result<Option<Json>>)
    ensures r.Ok? && r.value.Some? ==> r.value.value in params && IsBodyParam(r.value.value, vars)
    decreases |params|
  {
    if params == [] then Ok(None)
    else if params[0] == JNull then Failure(TypeError)
    else if IsBodyParam(params[0], vars) then Ok(Some(params[0]))
    else BodyParam(params[1..], vars)
  }

  /** Without null parameters the search succeeds, and what it finds has
      no body parameter before it. */
  lemma {:induction false} BodyParamFirst(params: seq<Json>, vars: seq<string>)
    requires JNull !in params
    ensures BodyParam(params, vars).Ok?
    ensures BodyParam(params, vars).value.None? <==> forall i :: 0 <= i < |params| ==> !IsBodyParam(params[i], vars)
    ensures BodyParam(params, vars).value.Some? ==>
              exists i :: 0 <= i < |params| && params[i] == BodyParam(params, vars).value.value
                          && forall j :: 0 <= j < i ==> !IsBodyParam(params[j], vars)
    decreases |params|
  {
    if params != [] {
      var tail := params[1..];
      assert forall i :: 1 <= i < |params| ==> params[i] == tail[i - 1];
      BodyParamFirst(tail, vars);
      if IsBodyParam(params[0], vars) {
        assert params[0] == BodyParam(params, vars).value.value;
      } else if BodyParam(tail, vars).value.Some? {
        var i :| 0 <= i < |tail| && tail[i] == BodyParam(tail, vars).value.value
                 && forall j :: 0 <= j < i ==> !IsBodyParam(tail[j], vars);
        assert params[i + 1] == tail[i];
        assert forall j :: 1 <= j < i + 1 ==> params[j] == tail[j - 1];
      } else {
        forall i | 0 <= i < |params| ensures !IsBodyParam(params[i], vars) {
          if i > 0 { assert params[i] == tail[i - 1]; }
        }
      }
    }
  }

  // ---------------------------------------------------------------------
  // The operation

  /** `paths[path]?.[method]`; reading `paths` of a document without any
      is a TypeError. */
  function Operation(doc: Json, path: string, httpMethod: string): (r: Result<Option<Json>>)
    ensures r.Failure? <==> Lookup(doc, "paths").None? || Lookup(doc, "paths") == Some(JNull)
  {
    var pathItem :- Prop(Lookup(doc, "paths"), path);
    Ok(Member?(pathItem, httpMethod))
  }

  /** `definition.parameters` as the `?.` reads see it: absent or null is
      no list, an array is the list, anything else has no `filter`. */
  function ParameterList(op: Json): (r: Result<Option<seq<Json>>>)
    ensures r.Failure? <==> var ps := Lookup(op, "parameters"); ps.Some? && !ps.value.JNull? && !ps.value.JArr?
  {
    var ps := Lookup(op, "parameters");
    if ps.None? || ps == Some(JNull) then Ok(None)
    else if ps.value.JArr? then Ok(Some(ps.value.items))
    else Failure(TypeError)
  }

  /** parseOperationId of the operation's id: only a string has `indexOf`. */
  function OperationName(op: Json): (r: Result<string>)
    ensures r.Ok? <==> Lookup(op, "operationId").Some? && Lookup(op, "operationId").value.JStr?
    ensures r.Ok? ==> r.value == BeforeUsing(Lookup(op, "operationId").value.s) && !Contains(r.value, "Using")
  {
    var id := Lookup(op, "operationId");
    if id.Some? && id.value.JStr? then Ok(BeforeUsing(id.value.s)) else Failure(TypeError)
  }

  /** `definition.parameters?.filter(...) || []`. */
  function GroupOf(op: Json, g: Group, vars: seq<string>): Result<seq<Json>> {
    var ps :- ParameterList(op);
    if ps.None? then Ok([]) else Select(ps.value, g, vars)
  }

  /** `<Name>PathVar` or `<Name>Query`. */
  function RecordName(name: string, suffix: string): (r: string)
    ensures |r| == |name| + |suffix| && r[|name|..] == suffix
  {
    ToFirstUpperCase(name) + suffix
  }

  /** What resolvePath or resolveQuery gives: a failure when the
      operation's id or its parameter list cannot be read, and otherwise
      resolveParameters' outcome on the group under `<Name><suffix>`. */
  predicate GroupOutcome(op: Json, g: Group, suffix: string, vars: seq<string>, r: Result<seq<Interface>>) {
    && (OperationName(op).Failure? || GroupOf(op, g, vars).Failure? ==> r.Failure?)
    && (r.Ok? ==> OperationName(op).Ok? && GroupOf(op, g, vars).Ok?)
    && (OperationName(op).Ok? && GroupOf(op, g, vars).Ok? ==>
          ParametersOutcome(RecordName(OperationName(op).value, suffix), GroupOf(op, g, vars).value, r))
  }

  /** resolvePath and resolveQuery: the parameters of one group resolved
      into the record `<Name>PathVar` or `<Name>Query`. */
  method ResolveGroup(op: Json, g: Group, suffix: string, vars: seq<string>, definitions: Option<Json>)
    returns (r: Result<seq<Interface>>)
    ensures GroupOutcome(op, g, suffix, vars, r)
    ensures r.Ok? ==> OnlyRepeats(r.value, RecordName(OperationName(op).value, suffix))
    ensures r.Ok? ==> LastName(r.value)
                      == NameAfterParameters(ParameterFold(GroupOf(op, g, vars).value).value,
                                             RecordName(OperationName(op).value, suffix))
  {
    var name := OperationName(op);
    if name.Failure? {
      return Failure(name.error);
    }
    var group := GroupOf(op, g, vars);
    if group.Failure? {
      return Failure(group.error);
    }
    r := ResolveParameters(RecordName(name.value, suffix), group.value, definitions);
  }

  /** `definition.parameters?.some((d) => d.in === 'formData')`. */
  function HasFormData(ps: Option<seq<Json>>): Result<bool> {
    if ps.None? then Ok(false) else SomeFormData(ps.value)
  }

  /** The schema of the body parameter, `{}` when there is none. */
  function BodySchema(ps: Option<seq<Json>>, vars: seq<string>): (r: Result<Json>)
    ensures r.Ok? ==> r.value != JNull
  {
    var found :- if ps.None? then Ok(None) else BodyParam(ps.value, vars);
    var schema := if found.Some? then Lookup(found.value, "schema") else None;
    Ok(Or(schema, Some(JObj([]))).value)
  }

  /** What resolveBodyInterface gives: with a form-data parameter, the
      form-data and body parameters resolved as the record `RequestBody`
      and named by the last record; otherwise the body parameter's schema
      (`{}` without one) resolved by resolveSchema as `RequestBody`. */
  predicate BodyOutcome(vars: seq<string>, ps: Option<seq<Json>>, definitions: Option<Json>, r: Result<Resolved>) {
    && (HasFormData(ps).Failure? ==> r.Failure?)
    && (HasFormData(ps) == Ok(true) ==>
          && (Select(ps.value, FormGroup, vars).Failure? ==> r.Failure?)
          && (r.Ok? ==>
                && Select(ps.value, FormGroup, vars).Ok?
                && r.value.name == LastName(r.value.collector))
          && (Select(ps.value, FormGroup, vars).Ok? ==>
                ParametersOutcome("RequestBody", Select(ps.value, FormGroup, vars).value,
                                  if r.Ok? then Ok(r.value.collector) else Failure(r.error))))
    && (HasFormData(ps) == Ok(false) ==>
          && (BodySchema(ps, vars).Failure? ==> r.Failure?)
          && (BodySchema(ps, vars).Ok? ==> SchemaOutcome(BodySchema(ps, vars).value, definitions, "RequestBody", r)))
  }

  /** resolveBodyInterface, as `BodyOutcome` describes it. */
  method ResolveBodyInterface(vars: seq<string>, ps: Option<seq<Json>>, definitions: Option<Json>)
    returns (r: Result<Resolved>)
    ensures BodyOutcome(vars, ps, definitions, r)
    ensures HasFormData(ps) == Ok(true) && r.Ok? ==>
              && Select(ps.value, FormGroup, vars).Ok?
              && ParameterFold(Select(ps.value, FormGroup, vars).value).Ok?
              && OnlyRepeats(r.value.collector, "RequestBody")
              && r.value.name == LastName(r.value.collector)
              == NameAfterParameters(ParameterFold(Select(ps.value, FormGroup, vars).value).value, "RequestBody")
    ensures HasFormData(ps) == Ok(false) && r.Ok? ==> BodySchema(ps, vars).Ok? && Distinct(r.value.collector)
    ensures HasFormData(ps) == Ok(false) && BodySchema(ps, vars) == Ok(JObj([])) && r.Ok? ==>
              r.value == Resolved([], None)
  {
    var hasForm := HasFormData(ps);
    if hasForm.Failure? {
      return Failure(hasForm.error);
    }
    if hasForm.value {
      r := ResolveFormBody(vars, ps.value, definitions);
    } else {
      r := ResolveBodySchema(vars, ps, definitions);
    }
  }

  /** The form-data and body parameters resolved as the record
      `RequestBody`, named by the last record. */
  method ResolveFormBody(vars: seq<string>, ps: seq<Json>, definitions: Option<Json>)
    returns (r: Result<Resolved>)
    ensures Select(ps, FormGroup, vars).Failure? ==> r.Failure?
    ensures r.Ok? ==> Select(ps, FormGroup, vars).Ok? && r.value.name == LastName(r.value.collector)
    ensures Select(ps, FormGroup, vars).Ok? ==>
              ParametersOutcome("RequestBody", Select(ps, FormGroup, vars).value,
                                if r.Ok? then Ok(r.value.collector) else Failure(r.error))
  {
    var form := Select(ps, FormGroup, vars);
    if form.Failure? {
      return Failure(form.error);
    }
    var collector := ResolveParameters("RequestBody", form.value, definitions);
    if collector.Failure? {
      return Failure(collector.error);
    }
    r := Ok(Resolved(collector.value, LastName(collector.value)));
  }

  /** The body parameter's schema (`{}` without one) resolved by
      resolveSchema as `RequestBody`. */
  method ResolveBodySchema(vars: seq<string>, ps: Option<seq<Json>>, definitions: Option<Json>)
    returns (r: Result<Resolved>)
    ensures BodySchema(ps, vars).Failure? ==> r.Failure?
    ensures BodySchema(ps, vars).Ok? ==> SchemaOutcome(BodySchema(ps, vars).value, definitions, "RequestBody", r)
    ensures r.Ok? ==> BodySchema(ps, vars).Ok? && Distinct(r.value.collector)
    ensures BodySchema(ps, vars) == Ok(JObj([])) && r.Ok? ==> r.value == Resolved([], None)
  {
    var schema := BodySchema(ps, vars);
    if schema.Failure? {
      return Failure(schema.error);
    }
    EmptySchemaFields();
    r := ResolveSchema(schema.value, definitions, "RequestBody");
    SchemaOutcomeDistinct(schema.value, definitions, "RequestBody", r);
  }

  /** Every outcome of resolveSchema holds distinct names. */
  lemma SchemaOutcomeDistinct(schema: Json, definitions: Option<Json>, defaultName: string, r: Result<Resolved>)
    requires SchemaOutcome(schema, definitions, defaultName, r)
    ensures r.Ok? ==> Distinct(r.value.collector)
  {
  }

  /** `{}` has no fields. */
  lemma EmptySchemaFields()
    ensures DefinitionFields(Some(JObj([])), true) == Ok([])
    ensures !IsArraySchema(JObj([])) && !Truthy(Lookup(JObj([]), "$ref"))
  {
  }

  /** `definition.responses[200].schema || {}`; a missing `responses` or
      `200` entry is a TypeError. */
  function ResponseSchema(op: Json): (r: Result<Json>)
    ensures r.Ok? ==> r.value != JNull
    ensures r.Failure? <==> var res := Lookup(op, "responses");
                            res.None? || res == Some(JNull)
                            || Lookup(res.value, "200").None? || Lookup(res.value, "200") == Some(JNull)
  {
    var ok :- Prop(Lookup(op, "responses"), "200");
    var schema :- Prop(ok, "schema");
    Ok(Or(schema, Some(JObj([]))).value)
  }

  /** Some parameter is declared in form data. */
  predicate DeclaresFormData(ps: seq<Json>) {
    exists i :: 0 <= i < |ps| && IsString(Lookup(ps[i], "in"), "formData")
  }

  /** `definition.parameters?.some(...)` as the result reports it:
      absent without a parameter list. */
  function FormDataFlag(ps: Option<seq<Json>>): (r: Option<bool>)
    requires ps.Some? ==> JNull !in ps.value
    ensures r == if ps.None? then None else Some(DeclaresFormData(ps.value))
  {
    if ps.None? then None
    else
      SomeFormDataSpec(ps.value);
      Some(SomeFormData(ps.value).value)
  }

  /** `result` is the parse of `op` built from the records `pathTypes`,
      `queryTypes`, `body` and `res` that resolvePath, resolveQuery,
      resolveBodyInterface and resolveSchema of the response give: its
      name, comment and form-data flag read off the operation, the four
      lists merged by `duplicate` in that order, and the type names of
      each part. */
  predicate ParsedFrom(op: Json, path: string, definitions: Option<Json>, result: ParseResult,
                       pathTypes: seq<Interface>, queryTypes: seq<Interface>, body: Resolved, res: Resolved) {
    var vars := PathVars(path);
    && OperationName(op) == Ok(result.name)
    && result.comment == Comment(Lookup(op, "summary"), Lookup(op, "description"))
    && ParameterList(op).Ok?
    && result.isFormData
       == (if ParameterList(op).value.None? then None else Some(DeclaresFormData(ParameterList(op).value.value)))
    && GroupOutcome(op, PathGroup, "PathVar", vars, Ok(pathTypes))
    && GroupOutcome(op, QueryGroup, "Query", vars, Ok(queryTypes))
    && BodyOutcome(vars, ParameterList(op).value, definitions, Ok(body))
    && ResponseSchema(op).Ok?
    && SchemaOutcome(ResponseSchema(op).value, definitions, "ResponseBody", Ok(res))
    && result.interfaces == Dedup(pathTypes + queryTypes + body.collector + res.collector)
    && result.pathVar == LastName(pathTypes)
    && result.query == LastName(queryTypes)
    && result.body == body.name
    && result.res == res.name
  }

  /** The parts of a parse, each as its resolution gives it, make the
      parse `ParsedFrom` describes. */
  lemma ParsedFromParts(op: Json, path: string, definitions: Option<Json>, result: ParseResult,
                        pathTypes: seq<Interface>, queryTypes: seq<Interface>, body: Resolved, res: Resolved)
    requires OperationName(op) == Ok(result.name)
    requires result.comment == Comment(Lookup(op, "summary"), Lookup(op, "description"))
    requires ParameterList(op).Ok?
    requires ParameterList(op).value.Some? ==> JNull !in ParameterList(op).value.value
    requires result.isFormData == FormDataFlag(ParameterList(op).value)
    requires GroupOutcome(op, PathGroup, "PathVar", PathVars(path), Ok(pathTypes))
    requires GroupOutcome(op, QueryGroup, "Query", PathVars(path), Ok(queryTypes))
    requires BodyOutcome(PathVars(path), ParameterList(op).value, definitions, Ok(body))
    requires ResponseSchema(op).Ok?
    requires SchemaOutcome(ResponseSchema(op).value, definitions, "ResponseBody", Ok(res))
    requires result.interfaces == Dedup(pathTypes + queryTypes + body.collector + res.collector)
    requires result.pathVar == LastName(pathTypes) && result.query == LastName(queryTypes)
    requires result.body == body.name && result.res == res.name
    ensures ParsedFrom(op, path, definitions, result, pathTypes, queryTypes, body, res)
  {
  }

  /** What a parse says about the path and query records: the records
      are distinct, and the type names of the path and query parts are
      among them, named as resolveParameters names them. */
  lemma ParsedFromFacts(op: Json, path: string, definitions: Option<Json>, result: ParseResult,
                        pathTypes: seq<Interface>, queryTypes: seq<Interface>, body: Resolved, res: Resolved)
    requires ParsedFrom(op, path, definitions, result, pathTypes, queryTypes, body, res)
    ensures Distinct(result.interfaces)
    ensures GroupOf(op, PathGroup, PathVars(path)).Ok?
            && ParameterFold(GroupOf(op, PathGroup, PathVars(path)).value).Ok?
            && GroupOf(op, QueryGroup, PathVars(path)).Ok?
            && ParameterFold(GroupOf(op, QueryGroup, PathVars(path)).value).Ok?
    ensures result.pathVar == NameAfterParameters(ParameterFold(GroupOf(op, PathGroup, PathVars(path)).value).value,
                                                  RecordName(result.name, "PathVar"))
    ensures result.query == NameAfterParameters(ParameterFold(GroupOf(op, QueryGroup, PathVars(path)).value).value,
                                                RecordName(result.name, "Query"))
    ensures result.pathVar.Some? ==> (result.pathVar.value in NamesOf(result.interfaces) <==> !Inherited(result.pathVar.value))
    ensures result.query.Some? ==> (result.query.value in NamesOf(result.interfaces) <==> !Inherited(result.query.value))
  {
    var all := pathTypes + queryTypes + body.collector + res.collector;
    DedupDistinct(all, {});
    DedupNames(all);
    if pathTypes != [] {
      assert all[|pathTypes| - 1] == pathTypes[|pathTypes| - 1];
    }
    if queryTypes != [] {
      assert all[|pathTypes| + |queryTypes| - 1] == queryTypes[|queryTypes| - 1];
    }
  }

  /** The parse of an operation that exists: its name, comment and record
      names, and the records of the path, query, body and response, merged
      with `duplicate`. */
  method ParseOperation(op: Json, path: string, definitions: Option<Json>)
    returns (r: Result<ParseResult>, ghost pathTypes: seq<Interface>, ghost queryTypes: seq<Interface>,
             ghost body: Resolved, ghost res: Resolved)
    ensures r.Ok? ==> ParsedFrom(op, path, definitions, r.value, pathTypes, queryTypes, body, res)
    ensures OperationName(op).Failure? || ParameterList(op).Failure? ==> r.Failure?
    ensures r.Ok? ==> OperationName(op) == Ok(r.value.name)
    ensures r.Ok? ==> r.value.comment == Comment(Lookup(op, "summary"), Lookup(op, "description"))
    ensures r.Ok? ==> Distinct(r.value.interfaces)
    ensures r.Ok? ==> ParameterList(op).Ok? && r.value.isFormData == (if ParameterList(op).value.None? then None else Some(DeclaresFormData(ParameterList(op).value.value)))
    ensures r.Ok? ==> GroupOf(op, PathGroup, PathVars(path)).Ok?
                      && ParameterFold(GroupOf(op, PathGroup, PathVars(path)).value).Ok?
                      && GroupOf(op, QueryGroup, PathVars(path)).Ok?
                      && ParameterFold(GroupOf(op, QueryGroup, PathVars(path)).value).Ok?
    ensures r.Ok? ==> r.value.pathVar
                      == NameAfterParameters(ParameterFold(GroupOf(op, PathGroup, PathVars(path)).value).value,
                                             RecordName(r.value.name, "PathVar"))
    ensures r.Ok? ==> r.value.query
                      == NameAfterParameters(ParameterFold(GroupOf(op, QueryGroup, PathVars(path)).value).value,
                                             RecordName(r.value.name, "Query"))
    ensures r.Ok? ==> (r.value.pathVar.Some? ==> (r.value.pathVar.value in NamesOf(r.value.interfaces) <==> !Inherited(r.value.pathVar.value)))
                      && (r.value.query.Some? ==> (r.value.query.value in NamesOf(r.value.interfaces) <==> !Inherited(r.value.query.value)))
  {
    pathTypes, queryTypes, body, res := [], [], Resolved([], None), Resolved([], None);
    var name := OperationName(op);
    if name.Failure? {
      return Failure(name.error), pathTypes, queryTypes, body, res;
    }
    var vars := PathVars(path);
    var pathGroup := ResolveGroup(op, PathGroup, "PathVar", vars, definitions);
    if pathGroup.Failure? {
      return Failure(pathGroup.error), pathTypes, queryTypes, body, res;
    }
    var queryGroup := ResolveGroup(op, QueryGroup, "Query", vars, definitions);
    if queryGroup.Failure? {
      return Failure(queryGroup.error), pathTypes, queryTypes, body, res;
    }
    var ps := ParameterList(op);
    assert ps.Ok?;
    if ps.value.Some? {
      SelectNoNull(ps.value.value, PathGroup, vars);
    }
    var bodyResolved := ResolveBodyInterface(vars, ps.value, definitions);
    if bodyResolved.Failure? {
      return Failure(bodyResolved.error), pathTypes, queryTypes, body, res;
    }
    var resSchema := ResponseSchema(op);
    if resSchema.Failure? {
      return Failure(resSchema.error), pathTypes, queryTypes, body, res;
    }
    var resResolved := ResolveSchema(resSchema.value, definitions, "ResponseBody");
    if resResolved.Failure? {
      return Failure(resResolved.error), pathTypes, queryTypes, body, res;
    }
    pathTypes, queryTypes, body, res := pathGroup.value, queryGroup.value, bodyResolved.value, resResolved.value;
    assert pathGroup == Ok(pathTypes) && queryGroup == Ok(queryTypes);
    assert bodyResolved == Ok(body) && resResolved == Ok(res);
    var interfaces := Merge(pathGroup.value, queryGroup.value, bodyResolved.value.collector, resResolved.value.collector);
    r := Ok(ParseResult(name.value, Comment(Lookup(op, "summary"), Lookup(op, "description")), interfaces,
                        bodyResolved.value.name, FormDataFlag(ps.value),
                        LastName(pathGroup.value), LastName(queryGroup.value), resResolved.value.name));
    ParsedFromParts(op, path, definitions, r.value, pathTypes, queryTypes, body, res);
    ParsedFromFacts(op, path, definitions, r.value, pathTypes, queryTypes, body, res);
  }

  /** `duplicate([...pathVarTypes, ...queryTypes, ...bodyTypes, ...resTypes])`:
      distinct names, every name but those `Object.prototype` supplies,
      and the last records of the path and query lists keep their names
      unless they are such names. */
  method Merge(pathTypes: seq<Interface>, queryTypes: seq<Interface>, bodyTypes: seq<Interface>,
               resTypes: seq<Interface>) returns (r: seq<Interface>)
    ensures r == Dedup(pathTypes + queryTypes + bodyTypes + resTypes)
    ensures Distinct(r) && IsSubsequence(r, pathTypes + queryTypes + bodyTypes + resTypes)
    ensures NamesOf(r) == set n | n in NamesOf(pathTypes + queryTypes + bodyTypes + resTypes) && !Inherited(n)
    ensures LastName(pathTypes).Some? ==> (LastName(pathTypes).value in NamesOf(r) <==> !Inherited(LastName(pathTypes).value))
    ensures LastName(queryTypes).Some? ==> (LastName(queryTypes).value in NamesOf(r) <==> !Inherited(LastName(queryTypes).value))
  {
    var all := pathTypes + queryTypes + bodyTypes + resTypes;
    r := Duplicate(all);
    DedupDistinct(all, {});
    DedupIsSubsequence(all, {});
    DedupNames(all);
    if pathTypes != [] {
      assert all[|pathTypes| - 1] == pathTypes[|pathTypes| - 1];
    }
    if queryTypes != [] {
      assert all[|pathTypes| + |queryTypes| - 1] == queryTypes[|queryTypes| - 1];
    }
  }

  /** parser: nothing for an operation that is not there; the parse of the
      operation otherwise. */
  method Parse(doc: Json, path: string, httpMethod: string)
    returns (r: Result<Option<ParseResult>>, ghost pathTypes: seq<Interface>, ghost queryTypes: seq<Interface>,
             ghost body: Resolved, ghost res: Resolved)
    ensures Operation(doc, path, httpMethod).Failure? ==> r.Failure?
    ensures r == Ok(None) <==> Operation(doc, path, httpMethod).Ok? && !Truthy(Operation(doc, path, httpMethod).value)
    ensures r.Ok? && r.value.Some? ==>
              var op := Operation(doc, path, httpMethod).value.value;
              && OperationName(op) == Ok(r.value.value.name)
              && Distinct(r.value.value.interfaces)
              && ParameterList(op).Ok?
              && r.value.value.isFormData
                 == (if ParameterList(op).value.None? then None else Some(DeclaresFormData(ParameterList(op).value.value)))
    ensures r.Ok? && r.value.Some? ==>
              ParsedFrom(Operation(doc, path, httpMethod).value.value, path, Lookup(doc, "definitions"),
                         r.value.value, pathTypes, queryTypes, body, res)
  {
    pathTypes, queryTypes, body, res := [], [], Resolved([], None), Resolved([], None);
    var op := Operation(doc, path, httpMethod);
    if op.Failure? {
      return Failure(op.error), pathTypes, queryTypes, body, res;
    }
    if !Truthy(op.value) {
      return Ok(None), pathTypes, queryTypes, body, res;
    }
    var result;
    result, pathTypes, queryTypes, body, res := ParseOperation(op.value.value, path, Lookup(doc, "definitions"));
    if result.Failure? {
      return Failure(result.error), pathTypes, queryTypes, body, res;
    }
    r := Ok(Some(result.value));
  }
}
