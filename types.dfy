/** The engine's output: fields, named records ("interfaces") and the
    result of one parse call. */
module Types {
  import opened Wrappers
  import opened JsonValues
  import opened Text

  /** Where a record produced by the components-shaped parser is used. */
  datatype Placement = PathPlacement | BodyPlacement | ResPlacement

  /** One field of a record. `description` and `format` are copied from
      the document as they stand; `items` is the field schema's own
      `items`, which the form-data detection reads back. */
  datatype Field = Field(
    name: string,
    required: bool,
    typ: string,
    description: Option<Json>,
    format: Option<Json>,
    items: Option<Json>)

  datatype Interface = Interface(
    name: string,
    description: Option<Json>,
    fields: seq<Field>,
    placement: Option<Placement>)

  datatype ParseResult = ParseResult(
    name: string,
    comment: string,
    interfaces: seq<Interface>,
    body: Option<string>,
    isFormData: Option<bool>,
    pathVar: Option<string>,
    query: Option<string>,
    res: Option<string>)

  function NamesOf(xs: seq<Interface>): (r: set<string>)
    ensures forall i :: 0 <= i < |xs| ==> xs[i].name in r
    ensures forall n :: n in r ==> exists i :: 0 <= i < |xs| && xs[i].name == n
  {
    set i | 0 <= i < |xs| :: xs[i].name
  }

  /** The texts of the truthy values, in order: `filter(Boolean)` followed
      by the string conversion `join` applies. */
  function TruthyTexts(values: seq<Option<Json>>): seq<string> {
    if values == [] then []
    else (if Truthy(values[0]) then [ToJsString(values[0])] else []) + TruthyTexts(values[1..])
  }

  /** `[summary, description].filter(Boolean).join(', ')`. */
  function Comment(summary: Option<Json>, description: Option<Json>): (r: string)
    ensures r == Join(TruthyTexts([summary, description]), ", ")
  {
    var first := if Truthy(summary) then [ToJsString(summary)] else [];
    var second := if Truthy(description) then [ToJsString(description)] else [];
    assert [summary, description][1..] == [description] && [description][1..] == [];
    assert TruthyTexts([description]) == second + TruthyTexts([]);
    assert TruthyTexts([summary, description]) == first + TruthyTexts([description]);
    assert TruthyTexts([summary, description]) == first + second;
    if Truthy(summary) && Truthy(description) then
      assert (first + second)[1..] == second;
      ToJsString(summary) + ", " + ToJsString(description)
    else if Truthy(summary) then ToJsString(summary)
    else if Truthy(description) then ToJsString(description)
    else ""
  }
}
