/** The type-expression synthesiser of the components-shaped parser
    (src/parser.ts:77-221, 452-536): `getType` and `getRefName` with the
    helpers they recurse through (`resolveObject`, `resolveEnumObject`,
    `resolveAllOfObject`, `resolveArray`, `getFields`).

    `getType` may return any JavaScript value (the raw `type` member, or
    a non-object schema itself), so its result is an `Option<Json>`, with
    `None` for `undefined`. The closure's `interfaces` and `typeNameMap`
    are threaded through as a `State`: every function takes the state
    before the call and returns the state after it. */
module ComponentsSynth {
  import opened Wrappers
  import opened JsonValues
  import opened Text
  import opened Types
  import opened Names
  import opened ComponentsPointer
  import opened ComponentsModel
  import Utils

  const NumberNames: seq<string> :=
    ["int64", "integer", "long", "float", "double", "number", "int", "float", "double", "int32", "int64"]
  const DateNames: seq<string> := ["Date", "date", "dateTime", "date-time", "datetime"]
  const StringNames: seq<string> := ["string", "email", "password", "url", "byte", "binary"]

  /** `list.includes(v)` for a list of strings. */
  predicate Includes(list: seq<string>, v: Option<Json>) {
    v.Some? && v.value.JStr? && v.value.s in list
  }

  /** `v.length`, as the `oneOf`/`allOf` guards read it. */
  function JsLength(v: Option<Json>): Option<Json> {
    match v
    case Some(JArr(items)) => Some(JNum(|items|))
    case Some(JStr(s)) => Some(JNum(|s|))
    case Some(JObj(ms)) => FindMember(ms, "length")
    case _ => None
  }

  /** `v && v.length`: present and not empty. */
  predicate NonEmpty(v: Option<Json>) {
    Truthy(v) && Truthy(JsLength(v))
  }

  /** `values.join(sep)`: `null` and `undefined` print as nothing. */
  function JoinValues(values: seq<Option<Json>>, sep: string): string {
    if values == [] then ""
    else
      var head := if values[0].None? || values[0] == Some(JNull) then "" else ToJsString(values[0]);
      if |values| == 1 then head else head + sep + JoinValues(values[1..], sep)
  }

  /** `Array.from(new Set(values))`: each value once, where it first
      occurs. */
  function Unique(values: seq<Option<Json>>): (r: seq<Option<Json>>)
    ensures |r| <= |values|
    ensures forall i :: 0 <= i < |r| ==> r[i] in values
  {
    UniqueFrom(values, {})
  }

  function UniqueFrom(values: seq<Option<Json>>, seen: set<Option<Json>>): (r: seq<Option<Json>>)
    ensures |r| <= |values|
    ensures forall i :: 0 <= i < |r| ==> r[i] in values && r[i] !in seen
  {
    if values == [] then []
    else if values[0] in seen then UniqueFrom(values[1..], seen)
    else [values[0]] + UniqueFrom(values[1..], seen + {values[0]})
  }

  /** `DEFAULT_SCHEMA`: an object with one numeric `id`. */
  const DefaultSchema: Json :=
    JObj([Member("type", JStr("object")),
          Member("properties", JObj([Member("id", JObj([Member("type", JStr("number"))]))]))])

  /** What `getType(DEFAULT_SCHEMA)` gives (proved in DefaultSchemaType). */
  const DefaultSchemaText: string := "{\n'id'?: number; \n}"

  /** The local `type` of `getType`: the `type` member, replaced by
      `number` for a numeric `format` and by `enum` when `enum` is truthy. */
  function TypeKeyword(v: Json): Option<Json> {
    var t := if Includes(NumberNames, Lookup(v, "format")) then Some(JStr("number")) else Lookup(v, "type");
    if Truthy(Lookup(v, "enum")) then Some(JStr("enum")) else t
  }

  /** The keyword of a scalar type name, checked in the source's order:
      the number names, the date names, the string names, `boolean`. */
  function ScalarKeyword(t: Option<Json>): Option<string> {
    if Includes(NumberNames, t) then Some("number")
    else if Includes(DateNames, t) then Some("Date")
    else if Includes(StringNames, t) then Some("string")
    else if IsString(t, "boolean") then Some("boolean")
    else None
  }

  /** `` arrayType.includes(' | ') ? `(${arrayType})[]` : `${arrayType}[]` ``;
      `includes` exists on strings and arrays only. */
  function ArrayOf(t: Option<Json>): Result<string> {
    match t
    case Some(JStr(s)) => Ok(if Contains(s, " | ") then "(" + s + ")[]" else s + "[]")
    case Some(JArr(a)) => Ok(if JStr(" | ") in a then "(" + JoinItems(a) + ")[]" else JoinItems(a) + "[]")
    case _ => Failure(TypeError)
  }

  /** One line of an inline object type. */
  function PropertyLine(key: string, required: bool, t: Option<Json>, description: Option<Json>): string {
    "'" + key + "'" + (if required then "" else "?") + ": " + ToJsString(t) + "; "
    + (if Truthy(description) then "// " + ToJsString(description) else "")
  }

  /** `schemaObject?.required?.some((key) => key === propName)`. */
  function RequiredListed(required: Option<Json>, key: string): Result<Option<Json>> {
    match required
    case None => Ok(None)
    case Some(JNull) => Ok(None)
    case Some(JArr(items)) => Ok(Some(JBool(JStr(key) in items)))
    case _ => Failure(TypeError)
  }

  /** `[schema.title, schema.description].filter((s) => s).join(' ')`. */
  function TitleAndDescription(schema: Json): string {
    var title := Lookup(schema, "title");
    var description := Lookup(schema, "description");
    if Truthy(title) && Truthy(description) then ToJsString(title) + " " + ToJsString(description)
    else if Truthy(title) then ToJsString(title)
    else if Truthy(description) then ToJsString(description)
    else ""
  }

  /** What `resolveObject` returns: a plain value (the schema itself, a
      resolved reference, `{type}` for an enum or a referenced array, or
      the string `'any[]'`), `{fields, description}` from
      `resolveProperties`, or `{fields}` from `resolveAllOfObject`. */
  datatype Resolved =
    | Value(v: Option<Json>)
    | Props(fields: seq<FieldObject>, description: Option<Json>)
    | AllOf(groups: seq<seq<FieldObject>>)

  /** `resolveObject(...).fields || []`, for records. */
  function FieldsOf(res: Resolved): FieldList {
    match res
    case Props(fs, _) => Flat(fs)
    case AllOf(gs) => Nested(gs)
    case Value(_) => Flat([])
  }

  /** `resolveObject(...).type`. */
  function TypeOf(res: Resolved): Option<Json> {
    if res.Value? && res.v.Some? then Lookup(res.v.value, "type") else None
  }

  /** `resolveArray`: `{type: '<name>[]'}` for items given by reference,
      the bare string `'any[]'` otherwise. */
  function ResolveArray(items: Json): (r: Result<Json>)
    ensures !Truthy(Lookup(items, "$ref")) ==> r == Ok(JStr("any[]"))
    ensures r.Failure? <==> Truthy(Lookup(items, "$ref")) && !Lookup(items, "$ref").value.JStr?
    ensures r.Ok? && Truthy(Lookup(items, "$ref")) ==>
              var name := LastSegment(Lookup(items, "$ref").value.s, '/');
              && ObjectKeys(r.value) == ["type"]
              && Lookup(r.value, "type") == Some(JStr(name + "[]"))
              && '/' !in name
  {
    var ref := Lookup(items, "$ref");
    if !Truthy(ref) then Ok(JStr("any[]"))
    else if !ref.value.JStr? then Failure(TypeError)
    else Ok(JObj([Member("type", JStr(LastSegment(ref.value.s, '/') + "[]"))]))
  }

  function SizeOf(x: Option<Json>): nat {
    if x.Some? then Size(x.value) else 0
  }

  /** `getType(schemaObject)`. */
  function GetType(env: Env, st: State, x: Option<Json>): (r: Result<(Option<Json>, State)>)
    ensures r.Ok? ==> Extends(st, r.value.1) && Unmarked(env, r.value.1) <= Unmarked(env, st)
    decreases Unmarked(env, st), SizeOf(x), 2, 0
  {
    if x.None? || x.value.JNull? then Ok((Some(JStr("object")), st))
    else if !x.value.JArr? && !x.value.JObj? then Ok((x, st))
    else if Truthy(Lookup(x.value, "$ref")) then GetRefName(env, st, x)
    else
      var v := x.value;
      var t := TypeKeyword(v);
      if ScalarKeyword(t).Some? then Ok((Some(JStr(ScalarKeyword(t).value)), st))
      else if IsString(t, "array") then ArrayType(env, st, v)
      else if IsString(t, "enum") then EnumType(env, st, v)
      else if NonEmpty(Lookup(v, "oneOf")) then ListJoin(env, st, v, "oneOf", " | ", "", "")
      else if NonEmpty(Lookup(v, "allOf")) then ListJoin(env, st, v, "allOf", " & ", "(", ")")
      else if IsString(Lookup(v, "type"), "object") || Truthy(Lookup(v, "properties")) then ObjectType(env, st, v)
      else Ok((t, st))
  }

  /** `getRefName(refObject)`: the type name of the reference's last
      segment; the first time a name is met it is marked, the fields of
      its definition are resolved, and then its record is appended. */
  function GetRefName(env: Env, st: State, x: Option<Json>): (r: Result<(Option<Json>, State)>)
    ensures r.Ok? ==> Extends(st, r.value.1) && Unmarked(env, r.value.1) <= Unmarked(env, st)
    decreases Unmarked(env, st), SizeOf(x), 1, 0
  {
    var typeName :- RefTypeName(x);
    if typeName.None? then Ok((x, st))
    else if typeName.value in st.typeNameMap || Utils.Inherited(typeName.value) then
      Ok((Some(JStr(ResolveTypeName(env.ext, typeName.value))), st))
    else Register(env, st, typeName.value)
  }

  /** The raw type name of a reference: the last `/`-segment of its
      `$ref`; `None` when the value is not an object with a truthy `$ref`
      (`split` exists on strings only). */
  function RefTypeName(x: Option<Json>): Result<Option<string>> {
    if !IsObjectType(x) then Ok(None)
    else
      var ref :- Prop(x, "$ref");
      if !Truthy(ref) then Ok(None)
      else if !ref.value.JStr? then Failure(TypeError)
      else Ok(Some(LastSegment(ref.value.s, '/')))
  }

  /** The first reference to `typeName`: mark it, resolve the fields of
      its definition, and append its record after any record found inside
      them. */
  function Register(env: Env, st: State, typeName: string): (r: Result<(Option<Json>, State)>)
    requires typeName !in st.typeNameMap
    ensures r.Ok? ==> Extends(st, r.value.1) && Unmarked(env, r.value.1) <= Unmarked(env, st)
    ensures r.Ok? ==> && r.value.0 == Some(JStr(ResolveTypeName(env.ext, typeName)))
                      && typeName in r.value.1.typeNameMap
                      && |r.value.1.interfaces| > |st.interfaces|
                      && Last(r.value.1.interfaces).name == ResolveTypeName(env.ext, typeName)
                      && Last(r.value.1.interfaces).placement == st.placement
    decreases Unmarked(env, st), 0, 0, 0
  {
    var name := ResolveTypeName(env.ext, typeName);
    var marked := st.(typeNameMap := st.typeNameMap + {typeName});
    var def :- Prop(env.defines, typeName);
    var description :- Prop(def, "description");
    LookupKey(env.defines.value, typeName);
    UnmarkedDrops(DefinedNames(env), st.typeNameMap, typeName);
    var p :- ResolveObject(env, marked, def);
    var record := Record(name, description, FieldsOf(p.0), p.1.placement);
    Ok((Some(JStr(name)), p.1.(interfaces := p.1.interfaces + [record])))
  }

  function Last(records: seq<Record>): Record
    requires records != []
  {
    records[|records| - 1]
  }

  /** The `array` branch of `getType`: a tuple for a list of item
      schemas, `T[]` otherwise. */
  function ArrayType(env: Env, st: State, v: Json): (r: Result<(Option<Json>, State)>)
    ensures r.Ok? ==> Extends(st, r.value.1) && Unmarked(env, r.value.1) <= Unmarked(env, st)
    decreases Unmarked(env, st), Size(v), 1, 0
  {
    var items := if Truthy(Lookup(v, "schema")) then Lookup(Lookup(v, "schema").value, "items") else Lookup(v, "items");
    if items.Some? && items.value.JArr? then
      var p :- TupleTypes(env, st, items.value.items);
      Ok((Some(JStr("[" + JoinValues(p.0, ",") + "]")), p.1))
    else
      var p :- GetType(env, st, items);
      var s :- ArrayOf(p.0);
      Ok((Some(JStr(s)), p.1))
  }

  /** The `enum` branch of `getType`. */
  function EnumType(env: Env, st: State, v: Json): (r: Result<(Option<Json>, State)>)
    ensures r.Ok? ==> Extends(st, r.value.1) && Unmarked(env, r.value.1) <= Unmarked(env, st)
    decreases Unmarked(env, st), Size(v), 1, 0
  {
    var e := Lookup(v, "enum");
    if e.Some? && e.value.JArr? then
      var p :- EnumTypes(env, st, e.value.items);
      Ok((Some(JStr(JoinValues(Unique(p.0), " | "))), p.1))
    else Ok((Some(JStr("string")), st))
  }

  /** The `oneOf` and `allOf` branches: the member types joined by `sep`
      between `open` and `close`; `.map` exists on arrays only. */
  function ListJoin(env: Env, st: State, v: Json, key: string, sep: string, open: string, close: string)
    : (r: Result<(Option<Json>, State)>)
    ensures r.Ok? ==> Extends(st, r.value.1) && Unmarked(env, r.value.1) <= Unmarked(env, st)
    decreases Unmarked(env, st), Size(v), 1, 0
  {
    var list := Lookup(v, key);
    if list.Some? && list.value.JArr? then
      var p :- ListTypes(env, st, list.value.items);
      Ok((Some(JStr(open + JoinValues(p.0, sep) + close)), p.1))
    else Failure(TypeError)
  }

  /** The object branch of `getType`. */
  function ObjectType(env: Env, st: State, v: Json): (r: Result<(Option<Json>, State)>)
    ensures r.Ok? ==> Extends(st, r.value.1) && Unmarked(env, r.value.1) <= Unmarked(env, st)
    decreases Unmarked(env, st), Size(v), 1, 0
  {
    var props := Lookup(v, "properties");
    if props.Some? && props.value.JStr? && props.value.s != "" then Failure(TypeError)   // `in` on a character
    else if !Truthy(props) || ObjectKeys(props.value) == [] then Ok((Some(JStr("object")), st))
    else
      var p :- PropertyLines(env, st, v, props.value, ObjectKeys(props.value));
      Ok((Some(JStr("{\n" + Join(p.0, "\n") + "\n}")), p.1))
  }

  /** The lines of an inline object type, one per key, in order. */
  function PropertyLines(env: Env, st: State, v: Json, props: Json, keys: seq<string>)
    : (r: Result<(seq<string>, State)>)
    requires Size(props) < Size(v)
    ensures r.Ok? ==> Extends(st, r.value.1) && Unmarked(env, r.value.1) <= Unmarked(env, st)
    ensures r.Ok? ==> |r.value.0| == |keys|
    decreases Unmarked(env, st), Size(props), 3, |keys|
  {
    if keys == [] then Ok(([], st))
    else
      var key := keys[0];
      var pv := Lookup(props, key);
      var holder := Or(pv, Some(JObj([])));
      if !IsObjectType(holder) then Failure(TypeError)        // `'required' in` a primitive
      else
        var required := if Lookup(holder.value, "required").Some? then Lookup(holder.value, "required")
                        else Or(Lookup(v, "required"), Some(JBool(false)));
        var description :- Prop(pv, "description");
        var t :- GetType(env, st, pv);
        var rest :- PropertyLines(env, t.1, v, props, keys[1..]);
        Ok(([PropertyLine(key, Truthy(required), t.0, description)] + rest.0, rest.1))
  }

  /** The tuple items: `getType(subType.schema || subType)` each. */
  function TupleTypes(env: Env, st: State, items: seq<Json>): (r: Result<(seq<Option<Json>>, State)>)
    ensures r.Ok? ==> Extends(st, r.value.1) && Unmarked(env, r.value.1) <= Unmarked(env, st)
    ensures r.Ok? ==> |r.value.0| == |items|
    decreases Unmarked(env, st), ItemsSize(items), 3, 0
  {
    if items == [] then Ok(([], st))
    else if items[0].JNull? then Failure(TypeError)
    else
      var t :- GetType(env, st, Or(Lookup(items[0], "schema"), Some(items[0])));
      var rest :- TupleTypes(env, t.1, items[1..]);
      Ok(([t.0] + rest.0, rest.1))
  }

  /** The enum values: strings wrapped in double quotes, anything else
      through `getType`. */
  function EnumTypes(env: Env, st: State, items: seq<Json>): (r: Result<(seq<Option<Json>>, State)>)
    ensures r.Ok? ==> Extends(st, r.value.1) && Unmarked(env, r.value.1) <= Unmarked(env, st)
    ensures r.Ok? ==> |r.value.0| == |items|
    decreases Unmarked(env, st), ItemsSize(items), 3, 0
  {
    if items == [] then Ok(([], st))
    else
      var t :- if items[0].JStr? then Ok((Some(JStr("\"" + items[0].s + "\"")), st))
               else GetType(env, st, Some(items[0]));
      var rest :- EnumTypes(env, t.1, items[1..]);
      Ok(([t.0] + rest.0, rest.1))
  }

  /** `items.map((item) => getType(item))`. */
  function ListTypes(env: Env, st: State, items: seq<Json>): (r: Result<(seq<Option<Json>>, State)>)
    ensures r.Ok? ==> Extends(st, r.value.1) && Unmarked(env, r.value.1) <= Unmarked(env, st)
    ensures r.Ok? ==> |r.value.0| == |items|
    decreases Unmarked(env, st), ItemsSize(items), 3, 0
  {
    if items == [] then Ok(([], st))
    else
      var t :- GetType(env, st, Some(items[0]));
      var rest :- ListTypes(env, t.1, items[1..]);
      Ok(([t.0] + rest.0, rest.1))
  }

  /** `resolveObject(schemaObject)`. */
  function ResolveObject(env: Env, st: State, s: Option<Json>): (r: Result<(Resolved, State)>)
    ensures r.Ok? ==> Extends(st, r.value.1) && Unmarked(env, r.value.1) <= Unmarked(env, st)
    decreases Unmarked(env, st), SizeOf(s), 1, 0
  {
    var ref :- Prop(s, "$ref");
    var v := s.value;
    if Truthy(ref) then
      var resolved :- Resolve(env.doc, s);
      Ok((Value(resolved), st))
    else if Truthy(Lookup(v, "enum")) then ResolveEnumObject(env, st, v)
    else if NonEmpty(Lookup(v, "allOf")) then ResolveAllOfObject(env, st, v)
    else if Truthy(Lookup(v, "properties")) then
      var p :- GetFields(env, st, v);
      Ok((Props(p.0, Lookup(v, "description")), p.1))
    else if Truthy(Lookup(v, "items")) && IsString(Lookup(v, "type"), "array") then
      var a :- ResolveArray(Lookup(v, "items").value);
      Ok((Value(Some(a)), st))
    else Ok((Value(s), st))
  }

  /** `resolveEnumObject`: `{type: <the enum union>}`; `.map` on a
      non-array `enum` throws before `Array.isArray` is asked. */
  function ResolveEnumObject(env: Env, st: State, v: Json): (r: Result<(Resolved, State)>)
    ensures r.Ok? ==> Extends(st, r.value.1) && Unmarked(env, r.value.1) <= Unmarked(env, st)
    decreases Unmarked(env, st), Size(v), 0, 0
  {
    var e := Lookup(v, "enum");
    if e.Some? && e.value.JArr? then
      var p :- EnumTypes(env, st, e.value.items);
      Ok((Value(Some(JObj([Member("type", JStr(JoinValues(Unique(p.0), " | ")))]))), p.1))
    else Failure(TypeError)
  }

  /** `resolveAllOfObject`: one group per `allOf` member. */
  function ResolveAllOfObject(env: Env, st: State, v: Json): (r: Result<(Resolved, State)>)
    ensures r.Ok? ==> Extends(st, r.value.1) && Unmarked(env, r.value.1) <= Unmarked(env, st)
    decreases Unmarked(env, st), Size(v), 0, 0
  {
    var list := Lookup(v, "allOf");
    if list.Some? && list.value.JArr? then
      var p :- AllOfGroups(env, st, list.value.items);
      Ok((AllOf(p.0), p.1))
    else Failure(TypeError)
  }

  /** A referenced member becomes one field typed by the last segment of
      its type name; any other member gives its own fields. */
  function AllOfGroups(env: Env, st: State, items: seq<Json>): (r: Result<(seq<seq<FieldObject>>, State)>)
    ensures r.Ok? ==> Extends(st, r.value.1) && Unmarked(env, r.value.1) <= Unmarked(env, st)
    ensures r.Ok? ==> |r.value.0| == |items|
    decreases Unmarked(env, st), ItemsSize(items) + 1, 0, 0
  {
    if items == [] then Ok(([], st))
    else
      var item := items[0];
      var ref :- Prop(Some(item), "$ref");
      var g :- if Truthy(ref) then RefGroup(env, st, item) else GetFields(env, st, item);
      var rest :- AllOfGroups(env, g.1, items[1..]);
      Ok(([g.0] + rest.0, rest.1))
  }

  /** `[{...item, type: getType(item).split('/').pop()}]`. */
  function RefGroup(env: Env, st: State, item: Json): (r: Result<(seq<FieldObject>, State)>)
    ensures r.Ok? ==> Extends(st, r.value.1) && Unmarked(env, r.value.1) <= Unmarked(env, st)
    decreases Unmarked(env, st), Size(item), 3, 0
  {
    var t :- GetType(env, st, Some(item));
    if t.0.Some? && t.0.value.JStr? then
      var field := FieldObject(Lookup(item, "name"), Lookup(item, "required"), Some(JStr(LastSegment(t.0.value.s, '/'))),
                               Lookup(item, "description"), Lookup(item, "format"), Lookup(item, "items"));
      Ok(([field], t.1))
    else Failure(TypeError)
  }

  /** `getFields(schemaObject)`: one field object per property, in key
      order. */
  function GetFields(env: Env, st: State, v: Json): (r: Result<(seq<FieldObject>, State)>)
    ensures r.Ok? ==> Extends(st, r.value.1) && Unmarked(env, r.value.1) <= Unmarked(env, st)
    decreases Unmarked(env, st), Size(v), 0, 0
  {
    var props := Lookup(v, "properties");
    if !Truthy(props) then Ok(([], st))
    else FieldsFrom(env, st, v, props.value, ObjectKeys(props.value))
  }

  function FieldsFrom(env: Env, st: State, v: Json, props: Json, keys: seq<string>)
    : (r: Result<(seq<FieldObject>, State)>)
    ensures r.Ok? ==> Extends(st, r.value.1) && Unmarked(env, r.value.1) <= Unmarked(env, st)
    ensures r.Ok? ==> |r.value.0| == |keys|
    decreases Unmarked(env, st), Size(props), 3, |keys|
  {
    if keys == [] then Ok(([], st))
    else
      var key := keys[0];
      var pv := Lookup(props, key);
      var schema := if Truthy(pv) then pv.value else DefaultSchema;
      var t :- if Truthy(pv) then GetType(env, st, pv) else Ok((Some(JStr(DefaultSchemaText)), st));
      var required :- RequiredListed(Lookup(v, "required"), key);
      var field := FieldObject(Some(JStr(key)), required, t.0, Some(JStr(TitleAndDescription(schema))),
                               Lookup(schema, "format"), Lookup(schema, "items"));
      var rest :- FieldsFrom(env, t.1, v, props, keys[1..]);
      Ok(([field] + rest.0, rest.1))
  }
}
