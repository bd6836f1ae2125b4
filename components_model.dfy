/** The values the components-shaped parser (src/parser.ts) builds and the
    variables its closure shares: field objects, records ("interfaces"),
    `typeNameMap` and `placement`. */
module ComponentsModel {
  import opened Wrappers
  import opened JsonValues
  import opened Types
  import opened Names

  /** A field object as the parser builds it. Each member holds the value
      the source stores there, whatever its JSON type; `items` is the one
      member that the spread of the field's schema copies and that is read
      back (by the file-field detection). */
  datatype FieldObject = FieldObject(
    name: Option<Json>,
    required: Option<Json>,
    typ: Option<Json>,
    description: Option<Json>,
    format: Option<Json>,
    items: Option<Json>)

  /** A record's `fields`: a list of field objects, or the list of lists
      that `resolveAllOfObject` produces. */
  datatype FieldList = Flat(fields: seq<FieldObject>) | Nested(groups: seq<seq<FieldObject>>)

  datatype Record = Record(
    name: string,
    description: Option<Json>,
    fields: FieldList,
    placement: Option<Placement>)

  /** The closure's mutable variables: `interfaces`, the names set in
      `typeNameMap`, and `placement` (`undefined` until the first group
      function sets it). */
  datatype State = State(interfaces: seq<Record>, typeNameMap: set<string>, placement: Option<Placement>)

  /** What the closure reads and never writes: the document,
      `components.schemas`, and the reserved-word and pinyin libraries. */
  datatype Env = Env(doc: Json, defines: Option<Json>, ext: Externals)

  /** `st2` comes from `st` by marking names and appending records, one
      record per newly marked name; `placement` is untouched. */
  predicate Extends(st: State, st2: State) {
    && st2.placement == st.placement
    && st.typeNameMap <= st2.typeNameMap
    && st.interfaces <= st2.interfaces
    && |st2.typeNameMap| - |st.typeNameMap| == |st2.interfaces| - |st.interfaces|
  }

  /** The names `components.schemas` defines, in key order. */
  function DefinedNames(env: Env): seq<string> {
    if env.defines.Some? then ObjectKeys(env.defines.value) else []
  }

  /** How many of `keys` are not marked. */
  ghost function CountUnmarked(keys: seq<string>, marked: set<string>): nat {
    if keys == [] then 0 else (if keys[0] in marked then 0 else 1) + CountUnmarked(keys[1..], marked)
  }

  /** The termination measure of reference resolution: defined names not
      yet in `typeNameMap`. */
  ghost function Unmarked(env: Env, st: State): nat {
    CountUnmarked(DefinedNames(env), st.typeNameMap)
  }

  lemma {:induction false} UnmarkedShrinks(keys: seq<string>, marked: set<string>, more: set<string>)
    requires marked <= more
    ensures CountUnmarked(keys, more) <= CountUnmarked(keys, marked)
  {
    if keys != [] {
      UnmarkedShrinks(keys[1..], marked, more);
    }
  }

  lemma {:induction false} UnmarkedDrops(keys: seq<string>, marked: set<string>, k: string)
    requires k in keys && k !in marked
    ensures CountUnmarked(keys, marked + {k}) < CountUnmarked(keys, marked)
  {
    if keys[0] == k {
      UnmarkedShrinks(keys[1..], marked, marked + {k});
    } else {
      UnmarkedDrops(keys[1..], marked, k);
    }
  }
}
