/** The definitions-shaped parser (src/v2/parser.ts): one operation of a
    Swagger 2 document becomes a name, a comment, the names of its path,
    query, body and response records, and the records themselves. */
module V2Parser {
  import opened Wrappers
  import opened JsonValues
  import opened Text
  import opened Types
  import opened Utils
  import opened Names

  const DefinitionPrefix := "#/definitions/"

  // ---------------------------------------------------------------------
  // javaTypeToTsKeyword

  /** The TypeScript keyword for a primitive schema: `File` for uploads,
      `number` for both numeric types, the type itself for `string`,
      `boolean` and `object`, an array type for arrays whose items are a
      reference or typed, and nothing otherwise. A `$ref` of the items is
      copied as written; the rewrite to a record name happens later. */
  /** The `type` values the mapping knows; any other gives no keyword. */
  const PrimitiveTypes: set<string> := {"file", "number", "integer", "string", "boolean", "object", "array"}

  function JavaTypeToTsKeyword(schema: Json): (r: Option<string>)
    requires schema != JNull
    ensures r.Some? ==> r.value != ""
    ensures (IsString(Lookup(schema, "type"), "file") || IsString(Lookup(schema, "format"), "binary"))
              ==> r == Some("File")
    ensures r.Some? ==> (r.value in {"File", "number", "string", "boolean", "object"}
                         || (|r.value| >= 2 && r.value[|r.value| - 2..] == "[]"))
    ensures !IsString(Lookup(schema, "format"), "binary") ==>
              && ((IsString(Lookup(schema, "type"), "number") || IsString(Lookup(schema, "type"), "integer")) ==> r == Some("number"))
              && (IsString(Lookup(schema, "type"), "string") ==> r == Some("string"))
              && (IsString(Lookup(schema, "type"), "boolean") ==> r == Some("boolean"))
              && (IsString(Lookup(schema, "type"), "object") ==> r == Some("object"))
              && (!(exists t :: t in PrimitiveTypes && IsString(Lookup(schema, "type"), t)) ==> r == None)
    ensures IsString(Lookup(schema, "type"), "array") && !IsString(Lookup(schema, "format"), "binary")
            && !Truthy(Member?(Lookup(schema, "items"), "$ref")) && !Truthy(Member?(Lookup(schema, "items"), "type"))
            ==> r == None
    // an array: the items' `$ref` as written, or else the items' keyword, followed by `[]`
    ensures IsString(Lookup(schema, "type"), "array") && !IsString(Lookup(schema, "format"), "binary") ==>
              if Truthy(Member?(Lookup(schema, "items"), "$ref"))
              then r == Some(ToJsString(Member?(Lookup(schema, "items"), "$ref")) + "[]")
              else Truthy(Member?(Lookup(schema, "items"), "type")) ==>
                     r == (var k := JavaTypeToTsKeyword(Lookup(schema, "items").value);
                           if k.Some? then Some(k.value + "[]") else None)
    decreases Size(schema)
  {
    var typ := Lookup(schema, "type");
    var items := Lookup(schema, "items");
    if IsString(typ, "file") || IsString(Lookup(schema, "format"), "binary") then Some("File")
    else if IsString(typ, "number") || IsString(typ, "integer") then Some("number")
    else if IsString(typ, "string") || IsString(typ, "boolean") || IsString(typ, "object") then Some(typ.value.s)
    else if IsString(typ, "array") then
      var itemRef := Member?(items, "$ref");
      if Truthy(itemRef) then Some(ToJsString(itemRef) + "[]")
      else if Truthy(Member?(items, "type")) then
        var k := JavaTypeToTsKeyword(items.value);
        if k.Some? then Some(k.value + "[]") else None
      else None
    else None
  }

  /** `{type: 'array', items}`. */
  function ArraySchema(items: Json): Json {
    JObj([Member("type", JStr("array")), Member("items", items)])
  }

  lemma ArraySchemaMembers(items: Json)
    ensures Lookup(ArraySchema(items), "type") == Some(JStr("array"))
    ensures Lookup(ArraySchema(items), "items") == Some(items)
    ensures Lookup(ArraySchema(items), "format") == None
    ensures Lookup(ArraySchema(items), "$ref") == None
  {
    var ms := [Member("type", JStr("array")), Member("items", items)];
    assert ms[1..] == [Member("items", items)];
    assert ms[1..][1..] == [];
    assert "type"[0] == 't' && "items"[0] == 'i' && "format"[0] == 'f' && "$ref"[0] == '$';
    assert FindMember(ms, "items") == FindMember(ms[1..], "items") == Some(items);
    assert FindMember(ms, "format") == FindMember(ms[1..], "format") == FindMember([], "format");
    assert FindMember(ms, "$ref") == FindMember(ms[1..], "$ref") == FindMember([], "$ref");
  }

  /** A typed item schema that is not a reference. */
  predicate TypedItems(items: Json) {
    items != JNull && Lookup(items, "$ref") == None && Truthy(Lookup(items, "type"))
  }

  /** What a one-member schema `{type: t}` maps to. */
  function BaseKeyword(t: string): string {
    if t == "file" then "File"
    else if t == "integer" then "number"
    else t
  }

  /** `{type: t}` for a primitive type name. */
  lemma LeafKeyword(t: string)
    requires t in {"file", "number", "integer", "string", "boolean", "object"}
    ensures TypedItems(JObj([Member("type", JStr(t))]))
    ensures JavaTypeToTsKeyword(JObj([Member("type", JStr(t))])) == Some(BaseKeyword(t))
  {
    assert [Member("type", JStr(t))][1..] == [];
    assert Lookup(JObj([Member("type", JStr(t))]), "type") == Some(JStr(t));
    assert Lookup(JObj([Member("type", JStr(t))]), "format") == None;
  }

  /** An array whose items are typed but not a reference maps to the
      items' keyword followed by `[]`, or to nothing with them; with
      `LeafKeyword` this gives `string[]`, `number[][]` and so on, one
      `[]` per level of nesting. */
  lemma ArrayKeyword(items: Json)
    requires TypedItems(items)
    ensures JavaTypeToTsKeyword(ArraySchema(items))
            == if JavaTypeToTsKeyword(items).Some? then Some(JavaTypeToTsKeyword(items).value + "[]") else None
  {
    var schema := ArraySchema(items);
    ArraySchemaMembers(items);
    var typ := Lookup(schema, "type");
    assert typ == Some(JStr("array"));
    assert !IsString(typ, "file") && !IsString(typ, "number") && !IsString(typ, "integer");
    assert !IsString(typ, "string") && !IsString(typ, "boolean") && !IsString(typ, "object");
    assert IsString(typ, "array");
    assert !IsString(Lookup(schema, "format"), "binary");
    assert Member?(Lookup(schema, "items"), "$ref") == None;
  }

  /** An array of references keeps the reference, followed by `[]`. */
  lemma ArrayOfRefKeyword(ref: string)
    requires ref != ""
    ensures JavaTypeToTsKeyword(ArraySchema(JObj([Member("$ref", JStr(ref))]))) == Some(ref + "[]")
  {
    var items := JObj([Member("$ref", JStr(ref))]);
    ArraySchemaMembers(items);
    assert Lookup(items, "$ref") == Some(JStr(ref));
  }

  // ---------------------------------------------------------------------
  // transformInterfaceBody's two regular expressions

  /** `\[.*\]$` matches from `q`: `[` there, `]` last, and no line
      terminator (which `.` does not match) after `q`. */
  predicate BracketsAt(t: string, q: nat) {
    q + 1 < |t| && t[q] == '[' && t[|t| - 1] == ']'
    && forall k :: q < k < |t| ==> !IsLineTerminator(t[k])
  }

  function BracketsFrom(t: string, q: nat): (r: Option<nat>)
    ensures r.Some? ==> (q <= r.value && BracketsAt(t, r.value)
                         && forall k :: q <= k < r.value ==> !BracketsAt(t, k))
    ensures r.None? ==> forall k :: q <= k ==> !BracketsAt(t, k)
    decreases |t| - q
  {
    if q + 1 >= |t| then None
    else if BracketsAt(t, q) then Some(q)
    else BracketsFrom(t, q + 1)
  }

  /** Where the trailing `[...]` group starts, if the type has one. */
  function BracketStart(t: string): Option<nat> {
    BracketsFrom(t, 0)
  }

  /** `t.split(/(\[.*\])?$/)[0]`: the type without its trailing group. */
  function RefPart(t: string): (r: string)
    ensures StartsWith(t, r)
  {
    match BracketStart(t)
    case Some(q) => t[..q]
    case None => t
  }

  /** The trailing `[...]` group, `$1` of the replacement. */
  function BracketSuffix(t: string): string {
    match BracketStart(t)
    case Some(q) => t[q..]
    case None => ""
  }

  /** One past the last line terminator: where `/.*?(\[.*\])?$/` matches. */
  function LineStart(t: string): (r: nat)
    ensures r <= |t|
    ensures forall k :: r <= k < |t| ==> !IsLineTerminator(t[k])
    ensures r == 0 || IsLineTerminator(t[r - 1])
  {
    if t == [] then 0
    else if IsLineTerminator(t[|t| - 1]) then |t|
    else LineStart(t[..|t| - 1])
  }

  /** `t.replace(/.*?(\[.*\])?$/, name + '$1')`. */
  function Rewrite(t: string, name: string): string {
    t[..LineStart(t)] + name + BracketSuffix(t)
  }

  /** One field after the transform: a type that starts with the
      definitions prefix becomes the record name it refers to, keeping
      its array brackets. */
  function TransformField(f: Field): (r: Field)
    ensures r.name == f.name && r.required == f.required
    ensures !StartsWith(f.typ, DefinitionPrefix) ==> r == f
  {
    if StartsWith(f.typ, DefinitionPrefix)
    then f.(typ := Rewrite(f.typ, MatchRefTypeName(DefinitionPrefix, Some(f.typ))))
    else f
  }

  function TransformFields(fs: seq<Field>): (r: seq<Field>)
    ensures |r| == |fs|
    ensures forall i :: 0 <= i < |fs| ==> r[i] == TransformField(fs[i])
  {
    seq(|fs|, i requires 0 <= i < |fs| => TransformField(fs[i]))
  }

  /** The record a field's type refers to, by name. */
  function RefTarget(f: Field): string {
    MatchRefTypeName(DefinitionPrefix, Some(RefPart(f.typ)))
  }

  /** The records the fields refer to: one name per field whose type
      starts with the definitions prefix. */
  function ReferencedNames(fs: seq<Field>): set<string> {
    if fs == [] then {}
    else ReferencedNames(fs[..|fs| - 1])
         + if StartsWith(fs[|fs| - 1].typ, DefinitionPrefix) then {RefTarget(fs[|fs| - 1])} else {}
  }

  lemma {:induction false} ReferencedNamesMembers(fs: seq<Field>)
    ensures forall i :: 0 <= i < |fs| && StartsWith(fs[i].typ, DefinitionPrefix) ==> RefTarget(fs[i]) in ReferencedNames(fs)
  {
    if fs != [] {
      ReferencedNamesMembers(fs[..|fs| - 1]);
      forall i | 0 <= i < |fs| - 1 ensures fs[i] == fs[..|fs| - 1][i] { }
    }
  }

  lemma TransformFieldsSnoc(fs: seq<Field>, i: nat)
    requires i < |fs|
    ensures TransformFields(fs[..i + 1]) == TransformFields(fs[..i]) + [TransformField(fs[i])]
  {
    assert fs[..i + 1][..i] == fs[..i];
  }

  /** The part of a type that refers to a definition keeps the prefix, so
      resolving it goes through the definitions table. */
  lemma RefPartKeepsPrefix(t: string)
    requires StartsWith(t, DefinitionPrefix)
    ensures StartsWith(RefPart(t), DefinitionPrefix)
  {
    assert forall k :: 0 <= k < |DefinitionPrefix| ==> t[k] == DefinitionPrefix[k];
    match BracketStart(t)
    case Some(q) =>
      assert q >= |DefinitionPrefix|;
      assert t[..q][..|DefinitionPrefix|] == t[..|DefinitionPrefix|];
    case None =>
  }

  predicate NoLineTerminator(s: string) {
    forall k :: 0 <= k < |s| ==> !IsLineTerminator(s[k])
  }

  /** A well-formed reference type: no `[` before the group and no line
      terminator anywhere. */
  lemma CanonicalRefShape(name: string, group: string)
    requires forall k :: 0 <= k < |name| ==> IsWordChar(name[k])
    requires NoLineTerminator(group)
    ensures var t := DefinitionPrefix + name + group;
            && (forall k :: 0 <= k < |DefinitionPrefix| + |name| ==> t[k] != '[')
            && NoLineTerminator(t)
  {
    var t := DefinitionPrefix + name + group;
    var q := |DefinitionPrefix| + |name|;
    forall k | 0 <= k < |t| ensures !IsLineTerminator(t[k]) && (k < q ==> t[k] != '[') {
      if k < |DefinitionPrefix| { assert t[k] == DefinitionPrefix[k]; }
      else if k < q { assert t[k] == name[k - |DefinitionPrefix|]; assert IsWordChar(name[k - |DefinitionPrefix|]); }
      else { assert t[k] == group[k - q]; }
    }
  }

  lemma NoTerminatorLineStart(t: string)
    requires NoLineTerminator(t)
    ensures LineStart(t) == 0
  {
  }

  lemma PlainRefType(name: string)
    requires name != "" && forall k :: 0 <= k < |name| ==> IsWordChar(name[k])
    ensures BracketStart(DefinitionPrefix + name) == None
  {
  }

  lemma GroupedRefType(name: string, group: string)
    requires forall k :: 0 <= k < |name| ==> IsWordChar(name[k])
    requires |group| >= 2 && group[0] == '[' && group[|group| - 1] == ']'
    requires NoLineTerminator(group)
    ensures var t := DefinitionPrefix + name + group;
            && BracketStart(t) == Some(|DefinitionPrefix| + |name|)
            && RefPart(t) == DefinitionPrefix + name
            && BracketSuffix(t) == group
  {
    var t := DefinitionPrefix + name + group;
    var q := |DefinitionPrefix| + |name|;
    CanonicalRefShape(name, group);
    assert BracketsAt(t, q);
    assert t[..q] == DefinitionPrefix + name;
    assert t[q..] == group;
  }

  /** Round trip of the transform on a well-formed reference type:
      `#/definitions/<name>` followed by a bracket group (or nothing) is
      cut at the group, the cut part names `<name>`, and the rewritten
      type is `<name>` followed by the same group. */
  lemma CanonicalRefType(name: string, group: string)
    requires name != "" && forall k :: 0 <= k < |name| ==> IsWordChar(name[k])
    requires group == "" || (|group| >= 2 && group[0] == '[' && group[|group| - 1] == ']')
    requires NoLineTerminator(group)
    ensures var t := DefinitionPrefix + name + group;
            && RefPart(t) == DefinitionPrefix + name
            && MatchRefTypeName(DefinitionPrefix, Some(RefPart(t))) == name
            && MatchRefTypeName(DefinitionPrefix, Some(t)) == name
            && Rewrite(t, name) == name + group
  {
    CanonicalCut(name, group);
    CanonicalMatches(name, group);
  }

  /** Where the canonical type is cut, and what the rewrite keeps. */
  lemma CanonicalCut(name: string, group: string)
    requires name != "" && forall k :: 0 <= k < |name| ==> IsWordChar(name[k])
    requires group == "" || (|group| >= 2 && group[0] == '[' && group[|group| - 1] == ']')
    requires NoLineTerminator(group)
    ensures var t := DefinitionPrefix + name + group;
            && RefPart(t) == DefinitionPrefix + name
            && Rewrite(t, name) == name + group
  {
    if group == "" {
      assert DefinitionPrefix + name + group == DefinitionPrefix + name;
      PlainCut(name);
    } else {
      GroupedCut(name, group);
    }
  }

  lemma PlainCut(name: string)
    requires name != "" && forall k :: 0 <= k < |name| ==> IsWordChar(name[k])
    ensures RefPart(DefinitionPrefix + name) == DefinitionPrefix + name
    ensures Rewrite(DefinitionPrefix + name, name) == name
  {
    var t := DefinitionPrefix + name;
    CanonicalRefShape(name, "");
    assert t + "" == t;
    NoTerminatorLineStart(t);
    PlainRefType(name);
    assert Rewrite(t, name) == t[..0] + name + "";
  }

  lemma GroupedCut(name: string, group: string)
    requires forall k :: 0 <= k < |name| ==> IsWordChar(name[k])
    requires |group| >= 2 && group[0] == '[' && group[|group| - 1] == ']'
    requires NoLineTerminator(group)
    ensures RefPart(DefinitionPrefix + name + group) == DefinitionPrefix + name
    ensures Rewrite(DefinitionPrefix + name + group, name) == name + group
  {
    var t := DefinitionPrefix + name + group;
    CanonicalRefShape(name, group);
    NoTerminatorLineStart(t);
    GroupedRefType(name, group);
    assert Rewrite(t, name) == t[..0] + name + group;
  }

  /** The name read from the canonical type, with or without its group. */
  lemma CanonicalMatches(name: string, group: string)
    requires name != "" && forall k :: 0 <= k < |name| ==> IsWordChar(name[k])
    requires group == "" || (|group| >= 2 && group[0] == '[' && group[|group| - 1] == ']')
    ensures MatchRefTypeName(DefinitionPrefix, Some(DefinitionPrefix + name)) == name
    ensures MatchRefTypeName(DefinitionPrefix, Some(DefinitionPrefix + name + group)) == name
  {
    MatchRefOfCanonical(DefinitionPrefix, name, "");
    assert DefinitionPrefix + name + "" == DefinitionPrefix + name;
    MatchRefOfCanonical(DefinitionPrefix, name, group);
  }

  // ---------------------------------------------------------------------
  // The fields of a definition (resolveProperties' loop)

  /** `required.includes(name)` on the definition's `required` list (or a
      string, where it is a substring test); other values have no
      `includes`. */
  function Includes(required: Json, name: string): (r: Result<bool>)
    ensures required.JArr? ==> r == Ok(JStr(name) in required.items)
    ensures !required.JArr? && !required.JStr? ==> r.Failure?
  {
    match required
    case JArr(items) => Ok(JStr(name) in items)
    case JStr(s) => Ok(Contains(s, name))
    case _ => Failure(TypeError)
  }

  /** `properties[propName] || {}`. */
  function PropertySchema(properties: Json, propName: string): (r: Json)
    ensures r != JNull
  {
    Or(Lookup(properties, propName), Some(JObj([]))).value
  }

  /** A property that has a field: a truthy `$ref`, or a truthy `type`
      the keyword table maps. */
  predicate Typed(prop: Json)
    requires prop != JNull
  {
    Truthy(Lookup(prop, "$ref")) || (Truthy(Lookup(prop, "type")) && JavaTypeToTsKeyword(prop).Some?)
  }

  /** The field one property contributes: none when it has neither a
      `$ref` nor a type the keyword table knows; a `$ref` that is not a
      string fails once the transform calls `startsWith` on it. */
  function PropertyField(properties: Json, propName: string, required: Json, markRequired: bool)
    : (r: Result<Option<Field>>)
    ensures r.Ok? && r.value.Some? ==> r.value.value.name == propName && r.value.value.typ != ""
    ensures r.Ok? && r.value.Some? && r.value.value.required ==> markRequired
    // a typed property is never skipped, and an untyped one always is
    ensures r.Ok? ==> (r.value.Some? <==> Typed(PropertySchema(properties, propName)))
    // it throws on a non-string `$ref`, or on a `required` without `includes`
    ensures r.Failure? <==>
              Typed(PropertySchema(properties, propName))
              && ((Truthy(Lookup(PropertySchema(properties, propName), "$ref"))
                   && !Lookup(PropertySchema(properties, propName), "$ref").value.JStr?)
                  || (markRequired && Includes(required, propName).Failure?))
    // the type is the `$ref` as written, or else the mapped keyword
    ensures r.Ok? && r.value.Some? && Truthy(Lookup(PropertySchema(properties, propName), "$ref")) ==>
              Lookup(PropertySchema(properties, propName), "$ref") == Some(JStr(r.value.value.typ))
    ensures r.Ok? && r.value.Some? && !Truthy(Lookup(PropertySchema(properties, propName), "$ref")) ==>
              JavaTypeToTsKeyword(PropertySchema(properties, propName)) == Some(r.value.value.typ)
    // `optional: !markRequired || !required.includes(propName)`
    ensures r.Ok? && r.value.Some? ==>
              (r.value.value.required <==> markRequired && Includes(required, propName) == Ok(true))
    ensures r.Ok? && r.value.Some? ==>
              && r.value.value.description == Lookup(PropertySchema(properties, propName), "description")
              && r.value.value.format == Lookup(PropertySchema(properties, propName), "format")
  {
    var prop := PropertySchema(properties, propName);
    var ref := Lookup(prop, "$ref");
    var keyword :=
      if Truthy(ref) then ref
      else if Truthy(Lookup(prop, "type")) then
        (match JavaTypeToTsKeyword(prop) case Some(k) => Some(JStr(k)) case None => None)
      else None;
    if !Truthy(keyword) then Ok(None)
    else if !keyword.value.JStr? then Failure(TypeError)
    else
      var isRequired :- if markRequired then Includes(required, propName) else Ok(false);
      Ok(Some(Field(propName, isRequired, keyword.value.s, Lookup(prop, "description"),
                    Lookup(prop, "format"), None)))
  }

  /** The fields of the properties named by `keys`, in order. */
  function PropertyFields(properties: Json, keys: seq<string>, required: Json, markRequired: bool)
    : (r: Result<seq<Field>>)
    ensures r.Ok? ==> |r.value| <= |keys|
    ensures r.Ok? ==> forall i :: 0 <= i < |r.value| ==> r.value[i].name in keys && r.value[i].typ != ""
    ensures r.Ok? && !markRequired ==> forall i :: 0 <= i < |r.value| ==> !r.value[i].required
  {
    if keys == [] then Ok([])
    else
      var init :- PropertyFields(properties, keys[..|keys| - 1], required, markRequired);
      var field :- PropertyField(properties, keys[|keys| - 1], required, markRequired);
      Ok(init + if field.Some? then [field.value] else [])
  }

  /** `definition || {}`. */
  function OrEmpty(definition: Option<Json>): (r: Json)
    ensures r != JNull
  {
    Or(definition, Some(JObj([]))).value
  }

  function DefinitionDescription(definition: Option<Json>): Option<Json> {
    Lookup(OrEmpty(definition), "description")
  }

  /** The fields of a definition: one per property that has a type, in
      property order; none without properties. */
  function DefinitionFields(definition: Option<Json>, markRequired: bool): (r: Result<seq<Field>>)
    ensures !Truthy(definition) ==> r == Ok([])
  {
    var d := OrEmpty(definition);
    var properties := Lookup(d, "properties");
    if Truthy(properties)
    then PropertyFields(properties.value, ObjectKeys(properties.value),
                        Lookup(d, "required").GetOr(JArr([])), markRequired)
    else Ok([])
  }

  /** Property order is kept and no property gives two fields. */
  lemma {:induction false} PropertyFieldsInOrder(properties: Json, keys: seq<string>, required: Json, markRequired: bool)
    requires PropertyFields(properties, keys, required, markRequired).Ok?
    ensures IsSubsequence(FieldNames(PropertyFields(properties, keys, required, markRequired).value), keys)
  {
    if keys != [] {
      var init := keys[..|keys| - 1];
      var last := keys[|keys| - 1];
      PropertyFieldsInOrder(properties, init, required, markRequired);
      var fs0 := PropertyFields(properties, init, required, markRequired).value;
      var field := PropertyField(properties, last, required, markRequired).value;
      var fs := PropertyFields(properties, keys, required, markRequired).value;
      assert fs == fs0 + if field.Some? then [field.value] else [];
      SubsequenceSnoc(FieldNames(fs0), init, last);
      assert init + [last] == keys;
      if field.None? {
        assert fs == fs0;
        SubsequenceExtend(FieldNames(fs0), init, last);
      } else {
        FieldNamesSnoc(fs0, field.value);
      }
    }
  }

  lemma {:induction false} SubsequenceSnoc<T>(r: seq<T>, xs: seq<T>, x: T)
    requires IsSubsequence(r, xs)
    ensures IsSubsequence(r + [x], xs + [x])
    decreases |xs|
  {
    if r == [] {
      assert r + [x] == [x];
      SubsequenceOfSingle(x, xs);
    } else if r[0] == xs[0] {
      assert (r + [x])[1..] == r[1..] + [x];
      assert (xs + [x])[1..] == xs[1..] + [x];
      SubsequenceSnoc(r[1..], xs[1..], x);
    } else {
      assert (xs + [x])[1..] == xs[1..] + [x];
      SubsequenceSnoc(r, xs[1..], x);
    }
  }

  lemma {:induction false} SubsequenceOfSingle<T>(x: T, xs: seq<T>)
    ensures IsSubsequence([x], xs + [x])
    decreases |xs|
  {
    if xs != [] && xs[0] != x {
      assert (xs + [x])[1..] == xs[1..] + [x];
      SubsequenceOfSingle(x, xs[1..]);
    } else if xs != [] {
      assert [x][1..] == [];
    }
  }

  lemma {:induction false} SubsequenceExtend<T>(r: seq<T>, xs: seq<T>, x: T)
    requires IsSubsequence(r, xs)
    ensures IsSubsequence(r, xs + [x])
    decreases |xs|
  {
    if r != [] {
      if r[0] == xs[0] {
        assert (xs + [x])[1..] == xs[1..] + [x];
        SubsequenceExtend(r[1..], xs[1..], x);
      } else {
        assert (xs + [x])[1..] == xs[1..] + [x];
        SubsequenceExtend(r, xs[1..], x);
      }
    }
  }

  // ---------------------------------------------------------------------
  // How a collector grows

  predicate Distinct(xs: seq<Interface>) {
    forall i, j :: 0 <= i < j < |xs| ==> xs[i].name != xs[j].name
  }

  /** Records whose names are distinct and none of them in `seen`. */
  predicate FreshPart(part: seq<Interface>, seen: set<string>) {
    Distinct(part) && forall i :: 0 <= i < |part| ==> part[i].name !in seen
  }

  /** `after` is `before` with the records `added` unshifted in front,
      all of them of new and distinct names: the cycle guard of
      `resolveInterface` at work. */
  predicate Unshifts(before: seq<Interface>, added: seq<Interface>, after: seq<Interface>) {
    after == added + before && FreshPart(added, NamesOf(before))
  }

  lemma UnshiftsNothing(xs: seq<Interface>)
    ensures Unshifts(xs, [], xs)
  {
    assert [] + xs == xs;
  }

  lemma NamesOfCons(x: Interface, xs: seq<Interface>)
    ensures NamesOf([x] + xs) == {x.name} + NamesOf(xs)
  {
    NamesOfConcat([x], xs);
    assert [x][0] == x;
    assert x.name in NamesOf([x]);
    assert NamesOf([x]) == {x.name};
  }

  lemma NamesOfConcat(a: seq<Interface>, b: seq<Interface>)
    ensures NamesOf(a + b) == NamesOf(a) + NamesOf(b)
  {
    forall n | n in NamesOf(a + b) ensures n in NamesOf(a) + NamesOf(b) {
      var i :| 0 <= i < |a + b| && (a + b)[i].name == n;
      if i >= |a| { assert b[i - |a|].name == n; }
    }
    forall n | n in NamesOf(a) ensures n in NamesOf(a + b) {
      var i :| 0 <= i < |a| && a[i].name == n;
      assert (a + b)[i] == a[i];
    }
    forall n | n in NamesOf(b) ensures n in NamesOf(a + b) {
      var i :| 0 <= i < |b| && b[i].name == n;
      assert (a + b)[|a| + i] == b[i];
    }
  }

  lemma UnshiftsNames(a: seq<Interface>, p: seq<Interface>, b: seq<Interface>)
    requires Unshifts(a, p, b)
    ensures NamesOf(b) == NamesOf(p) + NamesOf(a)
  {
    NamesOfConcat(p, a);
  }

  lemma UnshiftsOne(a: seq<Interface>, x: Interface)
    requires x.name !in NamesOf(a)
    ensures Unshifts(a, [x], [x] + a)
  {
  }

  /** Two rounds of unshifting are one. */
  lemma UnshiftsTrans(a: seq<Interface>, p: seq<Interface>, b: seq<Interface>, q: seq<Interface>, c: seq<Interface>)
    requires Unshifts(a, p, b) && Unshifts(b, q, c)
    ensures Unshifts(a, q + p, c)
  {
    assert c == (q + p) + a;
    NamesOfConcat(p, a);
    var part := q + p;
    forall i, j | 0 <= i < j < |part| ensures part[i].name != part[j].name {
      if j < |q| {
      } else if i >= |q| {
        assert part[i] == p[i - |q|] && part[j] == p[j - |q|];
      } else {
        assert part[j] == p[j - |q|];
        assert p[j - |q|].name in NamesOf(p);
      }
    }
    forall i | 0 <= i < |part| ensures part[i].name !in NamesOf(a) {
      if i >= |q| { assert part[i] == p[i - |q|]; }
    }
  }

  /** Replacing an added record by one of the same name keeps the
      growth and the names. */
  lemma UnshiftsUpdate(a: seq<Interface>, p: seq<Interface>, b: seq<Interface>, k: nat, x: Interface)
    requires Unshifts(a, p, b) && k < |p| && x.name == p[k].name
    ensures Unshifts(a, p[k := x], b[k := x]) && NamesOf(b[k := x]) == NamesOf(b)
  {
    assert b[k := x] == p[k := x] + a;
    assert forall i :: 0 <= i < |b| ==> b[k := x][i].name == b[i].name;
    assert forall i :: 0 <= i < |p| ==> p[k := x][i].name == p[i].name;
  }

  lemma UnshiftsDistinct(a: seq<Interface>, p: seq<Interface>, b: seq<Interface>)
    requires Distinct(a) && Unshifts(a, p, b)
    ensures Distinct(b)
  {
    forall i, j | 0 <= i < j < |b| ensures b[i].name != b[j].name {
      if i >= |p| {
        assert b[i] == a[i - |p|] && b[j] == a[j - |p|];
      } else if j >= |p| {
        assert b[j] == a[j - |p|];
        assert a[j - |p|].name in NamesOf(a);
      }
    }
  }

  /** After `unshift(w)` on a list of distinct names and further growth,
      only `w`'s name can occur twice. */
  lemma OnlyWrapperRepeats(a: seq<Interface>, w: Interface, p: seq<Interface>, b: seq<Interface>)
    requires Distinct(a) && Unshifts([w] + a, p, b)
    ensures forall i, j :: 0 <= i < j < |b| && b[i].name == b[j].name ==> b[i].name == w.name
  {
    assert b == p + ([w] + a);
    NamesOfCons(w, a);
    forall i, j | 0 <= i < j < |b| && b[i].name == b[j].name ensures b[i].name == w.name {
      if i == |p| {
        assert b[i] == w;
      }
    }
  }

  // ---------------------------------------------------------------------
  // The collector: resolveInterface, resolveProperties and
  // transformInterfaceBody, which share one mutable list of records.

  /** The record name a reference asks for: `matchRefTypeName` under
      the definitions prefix. */
  function RefName(ref: string): string {
    MatchRefTypeName(DefinitionPrefix, Some(ref))
  }

  /** A `$ref` value as resolveInterface reads it: a falsy value means no
      reference (`Ok(None)`), and a truthy value that is not a string
      has no `match` method, a TypeError. */
  function RefString(ref: Option<Json>): (r: Result<Option<string>>)
    ensures r.Ok? && r.value.Some? <==> Truthy(ref) && ref.value.JStr?
    ensures r.Failure? <==> Truthy(ref) && !ref.value.JStr?
    ensures r.Ok? && r.value.Some? ==> r.value.value == ref.value.s && r.value.value != ""
  {
    if !Truthy(ref) then Ok(None)
    else if ref.value.JStr? then Ok(Some(ref.value.s))
    else Failure(TypeError)
  }

  /** `ref.substring('#/definitions/'.length)`. */
  function DefinitionKey(ref: string): string {
    if |ref| >= |DefinitionPrefix| then ref[|DefinitionPrefix|..] else ""
  }

  lemma PropertyFieldsSnoc(properties: Json, keys: seq<string>, i: nat, required: Json, markRequired: bool,
                           fields: seq<Field>, field: Option<Field>, next: seq<Field>)
    requires i < |keys|
    requires PropertyFields(properties, keys[..i], required, markRequired) == Ok(fields)
    requires PropertyField(properties, keys[i], required, markRequired) == Ok(field)
    requires next == if field.Some? then fields + [field.value] else fields
    ensures PropertyFields(properties, keys[..i + 1], required, markRequired) == Ok(next)
  {
    assert keys[..i + 1][..i] == keys[..i];
    assert fields + [] == fields;
  }

  lemma ReferencedNamesSnoc(fs: seq<Field>, i: nat)
    requires i < |fs|
    ensures ReferencedNames(fs[..i + 1])
            == ReferencedNames(fs[..i]) + if StartsWith(fs[i].typ, DefinitionPrefix) then {RefTarget(fs[i])} else {}
  {
    assert fs[..i + 1][..i] == fs[..i];
  }

  /** One step of transformInterfaceBody keeps its loop invariants. */
  lemma TransformStep(keys: seq<string>, start: seq<Interface>, added: seq<Interface>, before: seq<Interface>,
                      more: seq<Interface>, after: seq<Interface>, fs: seq<Field>, i: nat)
    requires i < |fs|
    requires Unshifts(start, added, before) && Unshifts(before, more, after)
    requires Unresolved(keys, NamesOf(before)) <= Unresolved(keys, NamesOf(start))
    requires ReferencedNames(fs[..i]) <= NamesOf(before)
    requires StartsWith(fs[i].typ, DefinitionPrefix) ==> RefTarget(fs[i]) in NamesOf(after)
    ensures Unshifts(start, more + added, after)
    ensures Unresolved(keys, NamesOf(after)) <= Unresolved(keys, NamesOf(start))
    ensures TransformFields(fs[..i + 1]) == TransformFields(fs[..i]) + [TransformField(fs[i])]
    ensures ReferencedNames(fs[..i + 1]) <= NamesOf(after)
  {
    UnshiftsTrans(start, added, before, more, after);
    UnshiftsNames(before, more, after);
    UnresolvedShrinks(keys, NamesOf(before), NamesOf(after));
    TransformFieldsSnoc(fs, i);
    ReferencedNamesSnoc(fs, i);
  }

  /** The first property whose field fails makes the whole list fail
      with its error. */
  lemma PropertyFieldsStop(properties: Json, keys: seq<string>, i: nat, required: Json, markRequired: bool)
    requires i < |keys|
    requires PropertyFields(properties, keys[..i], required, markRequired).Ok?
    requires PropertyField(properties, keys[i], required, markRequired).Failure?
    ensures PropertyFields(properties, keys, required, markRequired)
            == Failure(PropertyField(properties, keys[i], required, markRequired).error)
  {
    assert keys[..i + 1][..i] == keys[..i];
    PropertyFieldsKeepFailure(properties, keys, i + 1, required, markRequired);
  }

  lemma {:induction false} PropertyFieldsKeepFailure(properties: Json, keys: seq<string>, n: nat,
                                                      required: Json, markRequired: bool)
    requires n <= |keys|
    requires PropertyFields(properties, keys[..n], required, markRequired).Failure?
    ensures PropertyFields(properties, keys, required, markRequired)
            == PropertyFields(properties, keys[..n], required, markRequired)
    decreases |keys|
  {
    if n == |keys| {
      assert keys[..n] == keys;
    } else {
      var init := keys[..|keys| - 1];
      assert init[..n] == keys[..n];
      PropertyFieldsKeepFailure(properties, init, n, required, markRequired);
    }
  }

  /** Each field of the loop is the one its property gives, and every
      property that gives a field has it in the list. */
  lemma {:induction false} PropertyFieldsFollow(properties: Json, keys: seq<string>, required: Json, markRequired: bool)
    requires PropertyFields(properties, keys, required, markRequired).Ok?
    ensures var fs := PropertyFields(properties, keys, required, markRequired).value;
            forall i :: 0 <= i < |fs| ==>
              PropertyField(properties, fs[i].name, required, markRequired) == Ok(Some(fs[i]))
    ensures var fs := PropertyFields(properties, keys, required, markRequired).value;
            forall j :: 0 <= j < |keys| ==>
              && PropertyField(properties, keys[j], required, markRequired).Ok?
              && (PropertyField(properties, keys[j], required, markRequired).value.Some? ==>
                    PropertyField(properties, keys[j], required, markRequired).value.value in fs)
  {
    if keys != [] {
      var init := keys[..|keys| - 1];
      var last := keys[|keys| - 1];
      PropertyFieldsFollow(properties, init, required, markRequired);
      var fs0 := PropertyFields(properties, init, required, markRequired).value;
      var field := PropertyField(properties, last, required, markRequired).value;
      var fs := PropertyFields(properties, keys, required, markRequired).value;
      assert fs == fs0 + if field.Some? then [field.value] else [];
      forall j | 0 <= j < |keys|
        ensures PropertyField(properties, keys[j], required, markRequired).Ok?
        ensures PropertyField(properties, keys[j], required, markRequired).value.Some? ==>
                  PropertyField(properties, keys[j], required, markRequired).value.value in fs
      {
        if j < |keys| - 1 {
          assert keys[j] == init[j];
        }
      }
    }
  }

  /** The loop throws exactly when some property's field throws. */
  lemma PropertyFieldsFail(properties: Json, keys: seq<string>, required: Json, markRequired: bool)
    ensures PropertyFields(properties, keys, required, markRequired).Failure? <==>
              exists j :: 0 <= j < |keys| && PropertyField(properties, keys[j], required, markRequired).Failure?
  {
    if PropertyFields(properties, keys, required, markRequired).Failure? {
      var j := FailingProperty(properties, keys, required, markRequired);
    } else {
      PropertyFieldsFollow(properties, keys, required, markRequired);
    }
  }

  /** A property whose field throws, when the loop throws. */
  lemma {:induction false} FailingProperty(properties: Json, keys: seq<string>, required: Json, markRequired: bool)
    returns (j: nat)
    requires PropertyFields(properties, keys, required, markRequired).Failure?
    ensures j < |keys| && PropertyField(properties, keys[j], required, markRequired).Failure?
  {
    var init := keys[..|keys| - 1];
    if PropertyFields(properties, init, required, markRequired).Failure? {
      j := FailingProperty(properties, init, required, markRequired);
      assert keys[j] == init[j];
    } else {
      j := |keys| - 1;
    }
  }

  /** The record name the definition under `key` is given. */
  function TargetName(key: string): string {
    MatchRefTypeName(DefinitionPrefix, Some(DefinitionPrefix + key))
  }

  /** How many of the definitions under `keys` name a record not yet
      among `names`: every resolution of a definition lowers it, which
      bounds the recursion. */
  ghost function Unresolved(keys: seq<string>, names: set<string>): nat {
    if keys == [] then 0
    else (if TargetName(keys[0]) in names then 0 else 1) + Unresolved(keys[1..], names)
  }

  /** More names leave no more definitions unresolved. */
  lemma {:induction false} UnresolvedShrinks(keys: seq<string>, names: set<string>, more: set<string>)
    requires names <= more
    ensures Unresolved(keys, more) <= Unresolved(keys, names)
    decreases |keys|
  {
    if keys != [] {
      UnresolvedShrinks(keys[1..], names, more);
    }
  }

  /** Taking the name of one more definition leaves one fewer unresolved. */
  lemma {:induction false} UnresolvedDrops(keys: seq<string>, names: set<string>, more: set<string>, i: nat)
    requires names <= more
    requires i < |keys| && TargetName(keys[i]) in more && TargetName(keys[i]) !in names
    ensures Unresolved(keys, more) < Unresolved(keys, names)
    decreases |keys|
  {
    if i == 0 {
      UnresolvedShrinks(keys[1..], names, more);
    } else {
      assert keys[1..][i - 1] == keys[i];
      UnresolvedDrops(keys[1..], names, more, i - 1);
    }
  }

  /** The property loop of resolveProperties: the fields of the listed
      properties, collected one property at a time. */
  method CollectProperties(properties: Json, keys: seq<string>, required: Json, markRequired: bool)
    returns (r: Result<seq<Field>>)
    ensures r == PropertyFields(properties, keys, required, markRequired)
  {
    var fields: seq<Field> := [];
    var i := 0;
    while i < |keys|
      invariant 0 <= i <= |keys|
      invariant PropertyFields(properties, keys[..i], required, markRequired) == Ok(fields)
    {
      var step := PropertyField(properties, keys[i], required, markRequired);
      if step.Failure? {
        PropertyFieldsStop(properties, keys, i, required, markRequired);
        return Failure(step.error);
      }
      var field := step.value;
      var next := if field.Some? then fields + [field.value] else fields;
      PropertyFieldsSnoc(properties, keys, i, required, markRequired, fields, field, next);
      fields := next;
      i := i + 1;
    }
    assert keys[..|keys|] == keys;
    r := Ok(fields);
  }

  /** The fields of a definition: those of its properties, in key order,
      and none when it has no properties. */
  method CollectFields(definition: Option<Json>, markRequired: bool) returns (r: Result<seq<Field>>)
    ensures r == DefinitionFields(definition, markRequired)
  {
    var d := OrEmpty(definition);
    var properties := Lookup(d, "properties");
    if Truthy(properties) {
      r := CollectProperties(properties.value, ObjectKeys(properties.value),
                             Lookup(d, "required").GetOr(JArr([])), markRequired);
    } else {
      r := Ok([]);
    }
  }

  /** Unshifting a record of a new name adds that name and no other. */
  lemma Unshifted(keys: seq<string>, before: seq<Interface>, record: Interface, bound: nat)
    requires record.name !in NamesOf(before)
    requires record.fields != [] ==> Unresolved(keys, NamesOf(before) + {record.name}) < bound
    ensures Unshifts(before, [record], [record] + before)
    ensures record.fields != [] ==> Unresolved(keys, NamesOf([record] + before)) < bound
  {
    NamesOfCons(record, before);
    assert NamesOf([record] + before) == NamesOf(before) + {record.name};
  }

  /** The record unshifted first still sits behind the records its
      fields refer to, and rewriting it in place keeps the growth and
      the names. */
  lemma Rewritten(before: seq<Interface>, record: Interface, more: seq<Interface>, grown: seq<Interface>,
                  fields: seq<Field>)
    requires record.name !in NamesOf(before)
    requires Unshifts([record] + before, more, grown)
    ensures |grown| - 1 - |before| == |more| && grown[|more|] == record
    ensures Unshifts(before, more + [record.(fields := fields)], grown[|more| := record.(fields := fields)])
    ensures NamesOf(grown[|more| := record.(fields := fields)]) == NamesOf(grown)
    ensures record.name in NamesOf(grown)
  {
    UnshiftsOne(before, record);
    UnshiftsTrans(before, [record], [record] + before, more, grown);
    UnshiftsUpdate(before, more + [record], grown, |more|, record.(fields := fields));
    assert (more + [record])[|more| := record.(fields := fields)] == more + [record.(fields := fields)];
  }

  /** `definitions[ref.substring('#/definitions/'.length)]`. */
  function RefDefinition(definitions: Option<Json>, ref: string): Result<Option<Json>> {
    Prop(definitions, DefinitionKey(ref))
  }

  /** `record` is the one resolveInterface builds for `ref`: named by the
      reference, with the description and the rewritten fields of the
      definition under the reference's key; and every record those fields
      refer to is among `items`. */
  predicate Built(record: Interface, items: seq<Interface>, definitions: Option<Json>, ref: string,
                  markRequired: bool) {
    && RefDefinition(definitions, ref).Ok?
    && DefinitionFields(RefDefinition(definitions, ref).value, markRequired).Ok?
    && record == Interface(RefName(ref), DefinitionDescription(RefDefinition(definitions, ref).value),
                           TransformFields(DefinitionFields(RefDefinition(definitions, ref).value, markRequired).value),
                           None)
    && ReferencedNames(DefinitionFields(RefDefinition(definitions, ref).value, markRequired).value) <= NamesOf(items)
  }

  /** The record resolveProperties builds from the definition a reference
      finds is the one `Built` describes. */
  lemma BuiltFromDefinition(record: Interface, items: seq<Interface>, definitions: Option<Json>, ref: string,
                            markRequired: bool, definition: Option<Json>)
    requires RefDefinition(definitions, ref) == Ok(definition)
    requires DefinitionFields(definition, markRequired).Ok?
    requires record == Interface(RefName(ref), DefinitionDescription(definition),
                                 TransformFields(DefinitionFields(definition, markRequired).value), None)
    requires ReferencedNames(DefinitionFields(definition, markRequired).value) <= NamesOf(items)
    ensures Built(record, items, definitions, ref, markRequired)
  {
  }

  /** The keys of the definitions table (none when it is absent). */
  function DefinitionKeys(definitions: Option<Json>): seq<string> {
    if definitions.Some? then ObjectKeys(definitions.value) else []
  }

  /** A reference under the prefix that finds its definition names the
      record of one of the keys. */
  lemma RefTargeted(definitions: Json, s: string) returns (i: nat)
    requires StartsWith(s, DefinitionPrefix)
    requires Lookup(definitions, DefinitionKey(s)).Some?
    ensures i < |ObjectKeys(definitions)|
    ensures TargetName(ObjectKeys(definitions)[i]) == RefName(s)
  {
    var keys := ObjectKeys(definitions);
    var key := DefinitionKey(s);
    assert s == DefinitionPrefix + key;
    LookupKey(definitions, key);
    i :| 0 <= i < |keys| && keys[i] == key;
  }

  /** One list of records under construction. `unshift` puts a record in
      front, so the first record added is always the last one. */
  class Collector {
    const definitions: Option<Json>
    var items: seq<Interface>

    constructor (definitions: Option<Json>)
      ensures this.definitions == definitions && items == []
    {
      this.definitions := definitions;
      items := [];
    }

    /** How many target names are still free. */
    ghost function Open(names: set<string>): nat {
      Unresolved(DefinitionKeys(definitions), names)
    }

    /** resolveInterface: the record a reference names, built unless a
        record of that name is already collected. `added` is what went
        in front of the list. */
    method ResolveInterface(ref: string, markRequired: bool, ghost bound: nat)
      returns (r: Result<()>, ghost added: seq<Interface>)
      requires Open(NamesOf(items)) < bound || (Open(NamesOf(items)) <= bound && StartsWith(ref, DefinitionPrefix))
      modifies this
      decreases bound, 3
      ensures r.Ok? ==> Unshifts(old(items), added, items)
      ensures ref == "" ==> r.Ok? && items == old(items)
      ensures r.Ok? && ref != "" ==> RefName(ref) in NamesOf(items)
      ensures ref != "" && RefName(ref) in NamesOf(old(items)) ==> r.Ok? && items == old(items)
      ensures r.Ok? && ref != "" && RefName(ref) !in NamesOf(old(items)) ==>
                added != [] && Built(added[|added| - 1], items, definitions, ref, markRequired)
      ensures (ref != "" && RefName(ref) !in NamesOf(old(items))
               && (definitions.None? || definitions == Some(JNull))) ==> r.Failure?
    {
      UnshiftsNothing(items);
      added := [];
      if ref == "" {
        r := Ok(());
      } else {
        var name := RefName(ref);
        if name in NamesOf(items) {
          r := Ok(());
        } else {
          var found := Prop(definitions, DefinitionKey(ref));
          if found.Failure? {
            r := Failure(found.error);
          } else {
            var definition := found.value;
            ghost var names := NamesOf(items);
            UnresolvedShrinks(DefinitionKeys(definitions), names, names + {name});
            if definition.Some? && StartsWith(ref, DefinitionPrefix) {
              var k := RefTargeted(definitions.value, ref);
              UnresolvedDrops(DefinitionKeys(definitions), names, names + {name}, k);
            }
            r, added := ResolveProperties(name, definition, markRequired, bound);
            if r.Ok? {
              BuiltFromDefinition(added[|added| - 1], items, definitions, ref, markRequired, definition);
            }
          }
        }
      }
    }

    /** resolveProperties: build the record `name` from a definition,
        put it in front, then resolve the definitions its fields refer to
        (which go in front of it) and rewrite those field types to record
        names. The record ends up last among the records added. */
    method ResolveProperties(name: string, definition: Option<Json>, markRequired: bool, ghost bound: nat)
      returns (r: Result<()>, ghost added: seq<Interface>)
      requires name !in NamesOf(items)
      requires definition.Some? ==> Open(NamesOf(items) + {name}) < bound
      modifies this
      decreases bound, 2
      ensures r.Ok? ==> Unshifts(old(items), added, items) && name in NamesOf(items)
      ensures r.Ok? ==>
                && DefinitionFields(definition, markRequired).Ok?
                && added != []
                && added[|added| - 1]
                   == Interface(name, DefinitionDescription(definition),
                                TransformFields(DefinitionFields(definition, markRequired).value), None)
      ensures r.Ok? ==> ReferencedNames(DefinitionFields(definition, markRequired).value) <= NamesOf(items)
      ensures DefinitionFields(definition, markRequired).Failure? ==> r.Failure?
    {
      added := [];
      var collected := CollectFields(definition, markRequired);
      if collected.Failure? {
        r := Failure(collected.error);
      } else {
        var fields := collected.value;
        var description := DefinitionDescription(definition);
        ghost var before := items;
        var position := |items|;
        var record := Interface(name, description, fields, None);
        items := [record] + items;
        Unshifted(DefinitionKeys(definitions), before, record, bound);
        var transformed, more := TransformInterfaceBody(fields, markRequired, bound);
        if transformed.Failure? {
          r := Failure(transformed.error);
        } else {
          Rewritten(before, record, more, items, transformed.value);
          items := items[|items| - 1 - position := Interface(name, description, transformed.value, None)];
          added := more + [Interface(name, description, transformed.value, None)];
          r := Ok(());
        }
      }
    }

    /** transformInterfaceBody: every field whose type refers to a
        definition has that definition resolved, and its type rewritten
        to the record's name. */
    method TransformInterfaceBody(fields: seq<Field>, markRequired: bool, ghost bound: nat)
      returns (r: Result<seq<Field>>, ghost added: seq<Interface>)
      requires |fields| > 0 ==> Open(NamesOf(items)) < bound
      modifies this
      decreases bound, 1
      ensures r.Ok? ==> r.value == TransformFields(fields) && Unshifts(old(items), added, items)
      ensures r.Ok? ==> ReferencedNames(fields) <= NamesOf(items)
    {
      UnshiftsNothing(items);
      added := [];
      var out: seq<Field> := [];
      var i := 0;
      while i < |fields|
        invariant 0 <= i <= |fields|
        invariant Unshifts(old(items), added, items)
        invariant Open(NamesOf(items)) <= Open(NamesOf(old(items)))
        invariant out == TransformFields(fields[..i])
        invariant ReferencedNames(fields[..i]) <= NamesOf(items)
      {
        ghost var before := items;
        var field, more := TransformItem(fields[i], markRequired, bound);
        if field.Failure? {
          return Failure(field.error), added;
        }
        TransformStep(DefinitionKeys(definitions), old(items), added, before, more, items, fields, i);
        added := more + added;
        out := out + [field.value];
        i := i + 1;
      }
      assert fields[..|fields|] == fields;
      r := Ok(out);
    }

    /** The callback of transformInterfaceBody, on one field. */
    method TransformItem(field: Field, markRequired: bool, ghost bound: nat)
      returns (r: Result<Field>, ghost added: seq<Interface>)
      requires Open(NamesOf(items)) < bound
      modifies this
      decreases bound, 0
      ensures r.Ok? ==> r.value == TransformField(field) && Unshifts(old(items), added, items)
      ensures r.Ok? && StartsWith(field.typ, DefinitionPrefix) ==> RefTarget(field) in NamesOf(items)
    {
      UnshiftsNothing(items);
      added := [];
      if StartsWith(field.typ, DefinitionPrefix) {
        var ref := RefPart(field.typ);
        RefPartKeepsPrefix(field.typ);
        assert |ref| >= |DefinitionPrefix|;
        assert RefName(ref) == RefTarget(field);
        var resolved;
        resolved, added := ResolveInterface(ref, markRequired, Open(NamesOf(items)));
        if resolved.Failure? {
          return Failure(resolved.error), added;
        }
      }
      r := Ok(TransformField(field));
    }
  }

  // ---------------------------------------------------------------------
  // resolveParameters

  /** `collector.at(-1)?.name`: the name of the first record collected. */
  function LastName(items: seq<Interface>): (r: Option<string>)
    ensures r.None? <==> items == []
  {
    if items == [] then None else Some(items[|items| - 1].name)
  }

  /** `parameter.schema.$ref`, read only when the schema is truthy. */
  function SchemaRef(p: Json): Option<Json> {
    var schema := Lookup(p, "schema");
    if Truthy(schema) then Lookup(schema.value, "$ref") else None
  }

  /** The reference a parameter hands to resolveInterface, if any. */
  function ParameterRef(p: Json): (r: Result<Option<string>>)
    ensures r.Failure? <==> Truthy(SchemaRef(p)) && !SchemaRef(p).value.JStr?
    ensures r.Ok? && r.value.Some? <==> Truthy(SchemaRef(p)) && SchemaRef(p).value.JStr?
    ensures r.Ok? && r.value.Some? ==> r.value.value == SchemaRef(p).value.s
  {
    RefString(SchemaRef(p))
  }

  /** The keyword of a parameter without a reference: the schema's own
      type when the schema is truthy, the parameter's type otherwise. */
  function PlainKeyword(p: Json): (r: Option<string>)
    requires p != JNull
    ensures r.Some? ==> r.value != ""
  {
    var schema := Lookup(p, "schema");
    if Truthy(schema) then
      if Truthy(Lookup(schema.value, "type")) then JavaTypeToTsKeyword(schema.value) else None
    else JavaTypeToTsKeyword(p)
  }

  /** `collector.at(-1)?.name` once `ref` is resolved: the first record
      collected stays last, and an empty collector gets the record the
      reference asks for. */
  function AfterRef(last: Option<string>, ref: string): string {
    if last.Some? then last.value else RefName(ref)
  }

  /** The field a parameter with this keyword contributes: none for a
      missing or empty keyword. */
  function KeywordField(p: Json, keyword: Option<string>): (r: Option<Field>)
    ensures r.Some? <==> keyword.Some? && keyword.value != ""
    ensures r.Some? ==> r.value.typ == keyword.value && r.value.name == ToJsString(Lookup(p, "name"))
                        && (r.value.required <==> Truthy(Lookup(p, "required")))
  {
    if keyword.None? || keyword.value == "" then None
    else Some(Field(ToJsString(Lookup(p, "name")), Truthy(Lookup(p, "required")), keyword.value,
                    Lookup(p, "description"), Lookup(p, "format"), None))
  }

  /** The parameters callback, folded over the list: the body of the
      parameters' record, and `collector.at(-1)?.name` after the last
      parameter. A parameter with a reference is typed by that name,
      which is the record of the first reference of the list. */
  function ParameterFold(params: seq<Json>): Result<(seq<Field>, Option<string>)> {
    if params == [] then Ok(([], None))
    else
      var acc :- ParameterFold(params[..|params| - 1]);
      var p := params[|params| - 1];
      if p == JNull then Failure(TypeError)
      else
        var ref :- ParameterRef(p);
        var last := if ref.Some? then Some(AfterRef(acc.1, ref.value)) else acc.1;
        var field := KeywordField(p, if ref.Some? then last else PlainKeyword(p));
        Ok((acc.0 + (if field.Some? then [field.value] else []), last))
  }

  /** The reference of the first parameter that goes through
      resolveInterface. */
  function FirstRef(params: seq<Json>): (r: Option<Json>)
    ensures r.Some? ==> Truthy(r)
  {
    if params == [] then None
    else
      var init := FirstRef(params[..|params| - 1]);
      if init.Some? then init
      else if Truthy(SchemaRef(params[|params| - 1])) then SchemaRef(params[|params| - 1])
      else None
  }

  /** FirstRef is the reference of the parameter that has one and has
      no parameter with one before it. */
  /** Parameter `i` is the first whose schema has a truthy reference. */
  predicate FirstRefAt(params: seq<Json>, i: int) {
    0 <= i < |params| && Truthy(SchemaRef(params[i]))
    && forall j :: 0 <= j < i ==> !Truthy(SchemaRef(params[j]))
  }

  lemma {:induction false} FirstRefIsFirst(params: seq<Json>)
    ensures FirstRef(params).None? ==> forall i :: 0 <= i < |params| ==> !Truthy(SchemaRef(params[i]))
    ensures FirstRef(params).Some? ==> exists i :: FirstRefAt(params, i) && FirstRef(params) == SchemaRef(params[i])
    decreases |params|
  {
    if params != [] {
      var n := |params| - 1;
      var init := params[..n];
      FirstRefIsFirst(init);
      if FirstRef(init).Some? {
        var i :| FirstRefAt(init, i) && FirstRef(init) == SchemaRef(init[i]);
        assert params[i] == init[i];
        assert forall j :: 0 <= j < i ==> params[j] == init[j];
        assert FirstRefAt(params, i);
      } else if Truthy(SchemaRef(params[n])) {
        assert forall j :: 0 <= j < n ==> params[j] == init[j];
        assert FirstRefAt(params, n);
      } else {
        forall i | 0 <= i < |params|
          ensures !Truthy(SchemaRef(params[i]))
        {
          if i < n {
            assert params[i] == init[i];
          }
        }
      }
    }
  }

  /** The name every parameter with a reference is typed by is the record
      name of the first reference of the list, which is a string. */
  lemma {:induction false} FoldFirstRef(params: seq<Json>)
    requires ParameterFold(params).Ok?
    ensures FirstRef(params).None? || FirstRef(params).value.JStr?
    ensures ParameterFold(params).value.1
            == if FirstRef(params).None? then None else Some(RefName(FirstRef(params).value.s))
    decreases |params|
  {
    if params != [] {
      var init := params[..|params| - 1];
      var p := params[|params| - 1];
      FoldFirstRef(init);
      var ref := ParameterRef(p);
      assert ref.Ok?;
      if FirstRef(init).None? && ref.value.Some? {
        assert FirstRef(params) == SchemaRef(p);
      }
    }
  }

  /** A null parameter, or a schema reference that is not a string, fails
      the fold; nothing else does. */
  lemma {:induction false} FoldFails(params: seq<Json>)
    ensures ParameterFold(params).Failure? <==>
              exists i :: 0 <= i < |params| && (params[i] == JNull || ParameterRef(params[i]).Failure?)
    decreases |params|
  {
    if params != [] {
      var n := |params| - 1;
      var init := params[..n];
      FoldFails(init);
      assert forall i :: 0 <= i < n ==> params[i] == init[i];
    }
  }

  /** The `name` of each parameter, as the field it gives would carry it. */
  function ParameterNames(params: seq<Json>): (r: seq<string>)
    ensures |r| == |params|
  {
    if params == [] then [] else ParameterNames(params[..|params| - 1]) + [ToJsString(Lookup(params[|params| - 1], "name"))]
  }

  function FieldNames(fs: seq<Field>): seq<string> {
    seq(|fs|, i requires 0 <= i < |fs| => fs[i].name)
  }

  lemma FieldNamesSnoc(fs: seq<Field>, f: Field)
    ensures FieldNames(fs + [f]) == FieldNames(fs) + [f.name]
  {
    assert forall i :: 0 <= i < |fs| ==> (fs + [f])[i] == fs[i];
  }

  /** One step of the fold: the last parameter appends its field, if any. */
  lemma FoldLastField(params: seq<Json>) returns (field: Option<Field>)
    requires params != [] && ParameterFold(params).Ok?
    ensures ParameterFold(params[..|params| - 1]).Ok?
    ensures ParameterFold(params).value.0
            == ParameterFold(params[..|params| - 1]).value.0 + (if field.Some? then [field.value] else [])
    ensures field.Some? ==> field.value.name == ToJsString(Lookup(params[|params| - 1], "name"))
  {
    var p := params[|params| - 1];
    var acc := ParameterFold(params[..|params| - 1]).value;
    var ref := ParameterRef(p).value;
    var last := if ref.Some? then Some(AfterRef(acc.1, ref.value)) else acc.1;
    field := KeywordField(p, if ref.Some? then last else PlainKeyword(p));
  }

  /** The last parameter adds at most one field, named after it. */
  lemma FoldSnoc(params: seq<Json>)
    requires params != [] && ParameterFold(params).Ok?
    ensures var fs0 := ParameterFold(params[..|params| - 1]).value.0;
            var fs := ParameterFold(params).value.0;
            FieldNames(fs) == FieldNames(fs0)
            || FieldNames(fs) == FieldNames(fs0) + [ToJsString(Lookup(params[|params| - 1], "name"))]
  {
    var field := FoldLastField(params);
    var fs0 := ParameterFold(params[..|params| - 1]).value.0;
    if field.Some? {
      FieldNamesSnoc(fs0, field.value);
    } else {
      assert fs0 + [] == fs0;
    }
  }

  /** Every field names its parameter, in parameter order. */
  lemma {:induction false} FoldInOrder(params: seq<Json>)
    requires ParameterFold(params).Ok?
    ensures IsSubsequence(FieldNames(ParameterFold(params).value.0), ParameterNames(params))
    decreases |params|
  {
    if params != [] {
      var init := params[..|params| - 1];
      var name := ToJsString(Lookup(params[|params| - 1], "name"));
      FoldInOrder(init);
      FoldSnoc(params);
      var names0 := FieldNames(ParameterFold(init).value.0);
      SubsequenceSnoc(names0, ParameterNames(init), name);
      SubsequenceExtend(names0, ParameterNames(init), name);
    }
  }

  /** One parameter of the loop is one step of the fold. */
  lemma FoldStep(params: seq<Json>, i: nat, fields: seq<Field>, last: Option<string>,
                 ref: Option<string>, keyword: Option<string>, next: Option<string>)
    requires i < |params| && params[i] != JNull
    requires ParameterFold(params[..i]) == Ok((fields, last))
    requires ParameterRef(params[i]) == Ok(ref)
    requires next == if ref.Some? then Some(AfterRef(last, ref.value)) else last
    requires keyword == if ref.Some? then next else PlainKeyword(params[i])
    ensures var field := KeywordField(params[i], keyword);
            ParameterFold(params[..i + 1]) == Ok((if field.Some? then fields + [field.value] else fields, next))
  {
    assert params[..i + 1][..i] == params[..i];
    var field := KeywordField(params[i], keyword);
    assert (if field.Some? then fields + [field.value] else fields) == fields + if field.Some? then [field.value] else [];
  }

  /** Only `name` may be carried by two records. */
  predicate OnlyRepeats(xs: seq<Interface>, name: string) {
    forall i, j :: 0 <= i < j < |xs| && xs[i].name == xs[j].name ==> xs[i].name == name
  }

  /** After a resolution the last record is the one that was last before,
      or, in a collector that was empty, the record the reference asked
      for. */
  lemma LastAfterRef(before: seq<Interface>, added: seq<Interface>, items: seq<Interface>, ref: string)
    requires Unshifts(before, added, items)
    requires before == [] ==> added != [] && added[|added| - 1].name == RefName(ref)
    ensures LastName(items) == Some(AfterRef(LastName(before), ref))
  {
    if before == [] {
      assert items == added;
    }
  }

  /** A record unshifted in front of distinct names and grown by
      transformInterfaceBody, then given its rewritten fields back. */
  lemma WrapperWritten(before: seq<Interface>, w: Interface, more: seq<Interface>, grown: seq<Interface>,
                       fields: seq<Field>)
    requires Distinct(before) && Unshifts([w] + before, more, grown)
    ensures |grown| - 1 - |before| == |more|
    ensures var after := grown[|more| := w.(fields := fields)];
            && OnlyRepeats(after, w.name)
            && NamesOf(after) == NamesOf(grown)
            && after[|more|] == w.(fields := fields)
            && LastName(after) == (if before == [] then Some(w.name) else LastName(before))
            && (before == [] ==> after[|after| - 1] == w.(fields := fields))
  {
    OnlyWrapperRepeats(before, w, more, grown);
    var after := grown[|more| := w.(fields := fields)];
    assert forall i :: 0 <= i < |grown| ==> after[i].name == grown[i].name;
    assert NamesOf(after) == NamesOf(grown);
  }

  /** `resolveInterface(ref, ...)` followed by `collector.at(-1)?.name`. */
  method ResolveLast(c: Collector, ref: string) returns (r: Result<string>, ghost added: seq<Interface>)
    requires ref != ""
    modifies c
    ensures r.Ok? ==> Unshifts(old(c.items), added, c.items)
    ensures r.Ok? ==> r.value == AfterRef(LastName(old(c.items)), ref)
    ensures r.Ok? ==> LastName(c.items) == Some(r.value)
    ensures r.Ok? && old(c.items) == [] ==> RefOutcome(c.items, c.definitions, ref)
  {
    ghost var before := c.items;
    var resolved;
    resolved, added := c.ResolveInterface(ref, true, c.Open(NamesOf(c.items)) + 1);
    if resolved.Failure? {
      return Failure(resolved.error), added;
    }
    if before == [] {
      assert NamesOf(before) == {};
      FreshRefOutcome(added, c.items, c.definitions, ref);
    }
    LastAfterRef(before, added, c.items, ref);
    r := Ok(LastName(c.items).value);
  }

  /** The keyword of one parameter, resolving its schema's reference into
      the collector first. */
  method ParameterKeywordOf(c: Collector, p: Json) returns (r: Result<Option<string>>, ghost added: seq<Interface>)
    requires p != JNull
    modifies c
    ensures r.Ok? ==> Unshifts(old(c.items), added, c.items) && ParameterRef(p).Ok?
    ensures r.Ok? ==> LastName(c.items)
                      == if ParameterRef(p).value.Some?
                         then Some(AfterRef(LastName(old(c.items)), ParameterRef(p).value.value))
                         else LastName(old(c.items))
    ensures r.Ok? ==> r.value == if ParameterRef(p).value.Some? then LastName(c.items) else PlainKeyword(p)
  {
    UnshiftsNothing(c.items);
    added := [];
    var schema := Lookup(p, "schema");
    var ref := if Truthy(schema) then RefString(Lookup(schema.value, "$ref")) else Ok(None);
    if ref.Failure? {
      r := Failure(ref.error);
    } else if ref.value.Some? {
      var name;
      name, added := ResolveLast(c, ref.value.value);
      if name.Failure? {
        r := Failure(name.error);
      } else {
        r := Ok(Some(name.value));
      }
    } else if Truthy(schema) {
      r := Ok(if Truthy(Lookup(schema.value, "type")) then JavaTypeToTsKeyword(schema.value) else None);
    } else {
      r := Ok(JavaTypeToTsKeyword(p));
    }
  }

  /** `collector.at(-1)?.name` once the parameters are resolved: the
      record of the first reference, else the parameters' own record when
      it has fields, else nothing. */
  function NameAfterParameters(folded: (seq<Field>, Option<string>), interfaceName: string): Option<string> {
    if folded.1.Some? then folded.1
    else if folded.0 == [] then None
    else Some(interfaceName)
  }

  /** resolveParameters: one record named `interfaceName` with a field per
      parameter that has a keyword, after the records its references
      need. Records are unshifted, so the first one collected stays last. */
  method ResolveParameters(interfaceName: string, params: seq<Json>, definitions: Option<Json>)
    returns (r: Result<seq<Interface>>)
    ensures r.Ok? ==> ParameterFold(params).Ok?
    ensures ParameterFold(params).Failure? ==> r.Failure?
    ensures r.Ok? ==> OnlyRepeats(r.value, interfaceName)
    ensures r.Ok? ==> ReferencedNames(ParameterFold(params).value.0) <= NamesOf(r.value)
    ensures r.Ok? && ParameterFold(params).value.0 != [] ==>
              Interface(interfaceName, None, TransformFields(ParameterFold(params).value.0), None) in r.value
    ensures r.Ok? ==> LastName(r.value) == NameAfterParameters(ParameterFold(params).value, interfaceName)
    ensures r.Ok? && ParameterFold(params).value.1.None? ==>
              r.value == [] || r.value[|r.value| - 1]
                               == Interface(interfaceName, None, TransformFields(ParameterFold(params).value.0), None)
  {
    var c := new Collector(definitions);
    var body: seq<Field> := [];
    var i := 0;
    while i < |params|
      invariant 0 <= i <= |params|
      invariant Distinct(c.items)
      invariant ParameterFold(params[..i]) == Ok((body, LastName(c.items)))
    {
      var p := params[i];
      if p == JNull {
        return Failure(TypeError);
      }
      ghost var before := c.items;
      var keyword, added := ParameterKeywordOf(c, p);
      if keyword.Failure? {
        return Failure(keyword.error);
      }
      UnshiftsDistinct(before, added, c.items);
      FoldStep(params, i, body, LastName(before), ParameterRef(p).value, keyword.value, LastName(c.items));
      var field := KeywordField(p, keyword.value);
      if field.Some? {
        body := body + [field.value];
      }
      i := i + 1;
    }
    assert params[..|params|] == params;
    if body != [] {
      ghost var before := c.items;
      var position := |c.items|;
      var wrapper := Interface(interfaceName, None, body, None);
      c.items := [wrapper] + c.items;
      var transformed, more := c.TransformInterfaceBody(body, true, c.Open(NamesOf(c.items)) + 1);
      if transformed.Failure? {
        return Failure(transformed.error);
      }
      ghost var grown := c.items;
      WrapperWritten(before, wrapper, more, grown, transformed.value);
      c.items := c.items[|c.items| - 1 - position := Interface(interfaceName, None, transformed.value, None)];
      assert c.items == grown[|more| := wrapper.(fields := transformed.value)];
    }
    r := Ok(c.items);
  }

  /** What resolveParameters gives for `params` under `interfaceName`, as
      its contract states it; for the callers that hold only its result. */
  predicate ParametersOutcome(interfaceName: string, params: seq<Json>, r: Result<seq<Interface>>) {
    && (ParameterFold(params).Failure? ==> r.Failure?)
    && (r.Ok? ==>
          && ParameterFold(params).Ok?
          && OnlyRepeats(r.value, interfaceName)
          && ReferencedNames(ParameterFold(params).value.0) <= NamesOf(r.value)
          && (ParameterFold(params).value.0 != [] ==>
                Interface(interfaceName, None, TransformFields(ParameterFold(params).value.0), None) in r.value)
          && LastName(r.value) == NameAfterParameters(ParameterFold(params).value, interfaceName)
          && (ParameterFold(params).value.1.None? ==>
                r.value == [] || r.value[|r.value| - 1]
                                 == Interface(interfaceName, None, TransformFields(ParameterFold(params).value.0), None)))
  }

  // ---------------------------------------------------------------------
  // resolveSchema

  /** The records a schema needed, and the type name it stands for. */
  datatype Resolved = Resolved(collector: seq<Interface>, name: Option<string>)

  predicate IsArraySchema(schema: Json) {
    IsString(Lookup(schema, "type"), "array")
  }

  /** `schema.items?.$ref`. */
  function ItemsRef(schema: Json): Option<Json> {
    Member?(Lookup(schema, "items"), "$ref")
  }

  /** A fresh collector after resolving `ref`: distinct names, and the
      record built for the reference last, behind the records it needs. */
  predicate RefOutcome(items: seq<Interface>, definitions: Option<Json>, ref: string) {
    Distinct(items) && items != [] && Built(items[|items| - 1], items, definitions, ref, true)
  }

  /** What a fresh collector holds after resolving one reference. */
  lemma FreshRefOutcome(added: seq<Interface>, items: seq<Interface>, definitions: Option<Json>, ref: string)
    requires Unshifts([], added, items)
    requires added != [] && Built(added[|added| - 1], items, definitions, ref, true)
    ensures RefOutcome(items, definitions, ref)
  {
    assert items == added;
    UnshiftsDistinct([], added, items);
  }

  /** A fresh collector that resolves one reference: the record asked for
      is the first one collected, so it ends up last. */
  method ResolveRefAlone(ref: Option<Json>, definitions: Option<Json>) returns (r: Result<seq<Interface>>)
    requires Truthy(ref)
    ensures ref.value.JStr? && r.Ok? ==> RefOutcome(r.value, definitions, ref.value.s)
    ensures !ref.value.JStr? ==> r.Failure?
  {
    var s := RefString(ref);
    if s.Failure? {
      return Failure(s.error);
    }
    var c := new Collector(definitions);
    var name, _ := ResolveLast(c, s.value.value);
    if name.Failure? {
      return Failure(name.error);
    }
    r := Ok(c.items);
  }

  /** resolveProperties on a fresh collector: the record `defaultName`
      comes last, behind the records its fields refer to. */
  method ResolveAlone(schema: Json, definitions: Option<Json>, defaultName: string) returns (r: Result<seq<Interface>>)
    ensures DefinitionFields(Some(schema), true).Failure? ==> r.Failure?
    ensures r.Ok? ==> DefinitionFields(Some(schema), true).Ok? && Distinct(r.value) && r.value != []
    ensures r.Ok? ==>
              r.value[|r.value| - 1]
              == Interface(defaultName, DefinitionDescription(Some(schema)),
                           TransformFields(DefinitionFields(Some(schema), true).value), None)
    ensures r.Ok? ==> ReferencedNames(DefinitionFields(Some(schema), true).value) <= NamesOf(r.value)
  {
    var c := new Collector(definitions);
    assert NamesOf(c.items) + {defaultName} == {defaultName};
    var resolved, added := c.ResolveProperties(defaultName, Some(schema), true, c.Open({defaultName}) + 1);
    if resolved.Failure? {
      return Failure(resolved.error);
    }
    assert c.items == added;
    UnshiftsNothing([]);
    UnshiftsDistinct([], added, c.items);
    r := Ok(c.items);
  }

  /** The records of an inline schema read as the definition
      `defaultName`: none when it has no fields, else that record last,
      behind the records its fields refer to. */
  predicate InlineOutcome(items: seq<Interface>, schema: Json, defaultName: string) {
    && Distinct(items)
    && DefinitionFields(Some(schema), true).Ok?
    && (items == [] <==> DefinitionFields(Some(schema), true).value == [])
    && (items != [] ==>
          items[|items| - 1]
          == Interface(defaultName, DefinitionDescription(Some(schema)),
                       TransformFields(DefinitionFields(Some(schema), true).value), None))
    && ReferencedNames(DefinitionFields(Some(schema), true).value) <= NamesOf(items)
  }

  /** An inline schema read as a definition named `defaultName`; the
      collector is emptied when that record has no fields. */
  method ResolveInline(schema: Json, definitions: Option<Json>, defaultName: string) returns (r: Result<seq<Interface>>)
    ensures DefinitionFields(Some(schema), true).Failure? ==> r.Failure?
    ensures r.Ok? ==> InlineOutcome(r.value, schema, defaultName)
  {
    r := ResolveAlone(schema, definitions, defaultName);
    if r.Ok? && r.value[|r.value| - 1].fields == [] {
      ghost var fields := DefinitionFields(Some(schema), true).value;
      assert |fields| == 0 && ReferencedNames(fields) == {};
      r := Ok([]);
    }
  }

  /** What resolveSchema gives for `schema`: an array of references is
      named after its items' record plus `[]`, any other array by its
      keyword with no records; a reference gives the records of its
      resolution; an inline schema is read as the definition
      `defaultName`. Outside arrays the name is that of the last record. */
  predicate SchemaOutcome(schema: Json, definitions: Option<Json>, defaultName: string, r: Result<Resolved>) {
    && (IsArraySchema(schema) && !Truthy(ItemsRef(schema)) ==> r == Ok(Resolved([], JavaTypeToTsKeyword(schema))))
    && (IsArraySchema(schema) && Truthy(ItemsRef(schema)) ==>
          && (!ItemsRef(schema).value.JStr? ==> r.Failure?)
          && (r.Ok? ==> && r.value.name == Some(RefName(ItemsRef(schema).value.s) + "[]")
                        && RefOutcome(r.value.collector, definitions, ItemsRef(schema).value.s)))
    && (!IsArraySchema(schema) && r.Ok? ==> r.value.name == LastName(r.value.collector))
    && (!IsArraySchema(schema) && Truthy(Lookup(schema, "$ref")) ==>
          && (!Lookup(schema, "$ref").value.JStr? ==> r.Failure?)
          && (r.Ok? ==> RefOutcome(r.value.collector, definitions, Lookup(schema, "$ref").value.s)))
    && (!IsArraySchema(schema) && !Truthy(Lookup(schema, "$ref")) ==>
          && (DefinitionFields(Some(schema), true).Failure? ==> r.Failure?)
          && (r.Ok? ==> InlineOutcome(r.value.collector, schema, defaultName)))
  }

  /** resolveSchema, as `SchemaOutcome` describes it. */
  method ResolveSchema(schema: Json, definitions: Option<Json>, defaultName: string) returns (r: Result<Resolved>)
    requires schema != JNull
    ensures SchemaOutcome(schema, definitions, defaultName, r)
  {
    if IsArraySchema(schema) {
      var itemsRef := ItemsRef(schema);
      if Truthy(itemsRef) {
        var collector := ResolveRefAlone(itemsRef, definitions);
        if collector.Failure? {
          return Failure(collector.error);
        }
        r := Ok(Resolved(collector.value, Some(LastName(collector.value).value + "[]")));
      } else {
        r := Ok(Resolved([], JavaTypeToTsKeyword(schema)));
      }
    } else {
      var ref := Lookup(schema, "$ref");
      var collector;
      if Truthy(ref) {
        collector := ResolveRefAlone(ref, definitions);
      } else {
        collector := ResolveInline(schema, definitions, defaultName);
      }
      if collector.Failure? {
        return Failure(collector.error);
      }
      r := Ok(Resolved(collector.value, LastName(collector.value)));
    }
  }
}
