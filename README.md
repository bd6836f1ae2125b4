# openapi-to-TypeScript parser core, modelled in Dafny

The modelled engine reads an API-description document (a parsed JSON value) and one `(path, method)` operation. It produces the TypeScript names and records ("interfaces") the code generator prints:

- the function name and comment of the operation;
- the type names of its path variables, query, request body and response;
- whether it sends form data;
- the list of records those names refer to.

There are two independent engines:

- **the components-shaped parser** (`src/parser.ts`, OpenAPI 3.0 documents with `components.schemas`);
  - Its identifier sanitisers are modelled as pure functions (`Names`).
  - Its type-expression synthesiser `getType`/`getRefName`/`resolveObject`/`getFields` is modelled as functions that thread the closure's state (`ComponentsSynth`). The state is `interfaces`, `typeNameMap` and `placement` (`ComponentsModel.State`).
  - `resolveRefObject` is a pointer walk (`ComponentsPointer`).
  - The grouping functions `getParamsTP`, `getBodyTP`, `getResponseTP` and `getFileTP` are specified as functions (`ComponentsParser`). They are also implemented as the methods of `ComponentsOperation.Parser`, a class whose fields are the closure's variables and which the methods update in place. The `regex.exec` loop over path templates, the per-group `forEach` loops, the binary-property retyping loop and the response `required` marking loop are `while`/`for` loops there. Each is proved to end in exactly the state and result the specification function computes.
- **the definitions-shaped parser** (`src/v2/parser.ts`, Swagger 2.0 documents with `definitions`);
  - The keyword mapping and the `$ref` rewriting of field types are functions.
  - The `collector` arrays that grow by `unshift` are `V2Parser.Collector` objects.
  - `resolveInterface`, `resolveProperties` and `transformInterfaceBody` are mutually recursive methods on them. They terminate by the number of definitions whose record is not yet collected.
- **shared helpers** (`src/utils.ts`): `matchRefTypeName`, `toFirstUpperCase` and `duplicate`.

JavaScript behaviour is kept where it shows in the result:

- A property read on `null`/`undefined`, a method called on a value that lacks it, the pointer error of `resolveRefObject` and the endless recursion of a reference cycle are not preconditions. They are the error results `TypeError`, `NotFound` and `StackOverflow` of a `Result`.
- Truthiness, `||`, `?.` and `Object.keys` of objects and arrays follow JavaScript's rules.
- `duplicate` tests `map[item.name]` on a `{}` literal. Names that `Object.prototype` supplies (`constructor`, `toString` and the like, `Utils.Inherited`) read as already seen there, so `Utils.Dedup` drops every record with such a name, as the source does.
- Regular expressions are replaced by explicit scanners: `\w`, `\s` and the line terminators that `.` does not match.

The two external libraries (the reserved-word table and the pinyin converter) are the function-typed parameters of `Names.Externals`.

Two behaviours of the code are easy to miss:

- The components-shaped parser does not deduplicate `interfaces`; only the definitions-shaped parser calls `duplicate`. A record therefore appears once per first reference, and the per-group records are appended as they are built.
- `getFields` decides `required` with `some`, but `getType` decides it with the truthiness of the parent's `required`. Any `required` list, even one that does not name the property, therefore makes an inline property required (`ComponentsTypeFacts.ParentListRequires`).

## Model

| member | source | states |
|---|---|---|
| JsonValues.NatToString | src/parser.ts:194 | the decimal key of an array index is a non-empty run of digits |
| JsonValues.Increment | src/parser.ts:194 | adding one to a decimal string gives a non-empty decimal string |
| JsonValues.FindMember | src/parser.ts:113 | a member read yields a value no larger than the object it was read from |
| JsonValues.FindMemberFound | src/parser.ts:113 | a member is found exactly when some member carries the key |
| JsonValues.FindIndex | src/parser.ts:441-442 | an index read on an array yields one of its elements |
| JsonValues.FindIndexFound | src/parser.ts:441-442 | an element is found exactly when some index from the start prints as the key |
| JsonValues.ObjectKeys | src/parser.ts:194 | `Object.keys` lists an object's member names and an array's indices, in order, and nothing for other values |
| JsonValues.Lookup | src/parser.ts:113 | a property read yields a strictly smaller part of the value |
| JsonValues.LookupKey | src/parser.ts:440 | a property is present exactly when `Object.keys` lists its name |
| JsonValues.Prop | src/parser.ts:68 | a read through `undefined` or `null` throws, and only then |
| JsonValues.Member? | src/parser.ts:68 | optional chaining yields undefined on a missing value and never throws |
| JsonValues.Or | src/parser.ts:354 | `a \|\| b` is `a` when truthy, else `b` |
| JsonValues.SetMember | src/parser.ts:442 | an assignment makes the key read the new value and leaves every other key as it was |
| JsonValues.Assign | src/parser.ts:365-367 | the same for a value that is an object; other values are left alone |
| JsonValues.SetMemberTwice | src/parser.ts:442 | assigning the same value twice is assigning it once |
| JsonValues.AssignTwice | src/parser.ts:365-367 | assigning the same value twice is assigning it once, on any value |
| JsonValues.NamedKeyOfArray | src/parser.ts:366 | an array has no property whose name does not start with a digit, so `items?.format` on an array is undefined |
| JsonValues.SameKeys | src/parser.ts:362 | objects whose members carry the same names in the same order have the same `Object.keys` |
| Text.UpperChar | src/utils.ts:9 | `toUpperCase` maps an ASCII lower-case letter to its capital and leaves other characters |
| Text.Upper | src/parser.ts:19 | upper-casing works character by character and keeps the length |
| Text.IndexOf | src/parser.ts:14 | `indexOf` finds the first occurrence, or reports that there is none |
| Text.IndexFrom | src/parser.ts:14 | the first occurrence from a given position on |
| Text.Split | src/parser.ts:82 | `split` on one character gives at least one part, and no part contains the separator |
| Text.SplitJoin | src/parser.ts:82 | joining the parts of `split` with the separator gives the string back |
| Text.SplitPlain | src/parser.ts:31 | a string without the separator is not cut |
| Text.SplitAround | src/parser.ts:31 | cutting at one separator splits the two sides independently |
| Text.LastSegment | src/parser.ts:31 | `split(c).pop()` contains no `c` |
| Text.LastSegmentSuffix | src/parser.ts:31 | the last segment is a suffix of the string, cut right after a separator when shorter |
| Text.LastSegmentOfPlain | src/parser.ts:31 | a string without the separator is its own last segment |
| Text.LastSegmentAfter | src/parser.ts:83 | whatever precedes the last separator does not change the last segment |
| Utils.WordRun | src/utils.ts:5 | the `(\w+)` capture is the maximal run of word characters at its start |
| Utils.FirstMatch | src/utils.ts:5 | `match` finds the leftmost position where `prefix\w` occurs, or none |
| Utils.MatchRefTypeName | src/utils.ts:4-6 | the name is a run of word characters, and empty for an undefined ref; `MatchRefTypeNameSpec` gives the exact emptiness condition and `MatchRefTypeNameAt` where the name is read |
| Utils.MatchRefTypeNameSpec | src/utils.ts:4-6 | `matchRefTypeName` yields word characters only, and is empty exactly when the ref is undefined or has no match |
| Utils.MatchRefTypeNameAt | src/utils.ts:4-6 | at the leftmost match the name is the non-empty maximal word run right after the prefix |
| Utils.MatchRefOfCanonical | src/utils.ts:4-6 | round trip: the name written after the prefix, followed by a non-word character or nothing, is read back |
| Utils.ToFirstUpperCase | src/utils.ts:8-10 | the first character is upper-cased and the rest kept |
| Utils.ToFirstUpperCaseIdempotent | src/utils.ts:8-10 | applying it twice is applying it once |
| Utils.Duplicate | src/utils.ts:12-21 | the `filter` loop with its `map` of seen names computes the first-wins deduplication, in which a name `{}` inherits counts as seen from the start |
| Utils.DedupIsSubsequence | src/utils.ts:12-21 | the result is the input with some records dropped, in order |
| Utils.DedupDistinct | src/utils.ts:12-21 | no two kept records share a name, and none carries a name already set or inherited |
| Utils.DedupKeepsFirst | src/utils.ts:12-21 | the first record of every name neither set nor inherited survives |
| Utils.DedupKeptIsFirst | src/utils.ts:12-21 | every kept record is the first of its name in the input |
| Utils.DedupOfDistinct | src/utils.ts:12-21 | a list with distinct names, none of them set or inherited, is left unchanged |
| Utils.DedupIdempotent | src/utils.ts:12-21 | deduplicating twice is deduplicating once |
| Utils.DedupNames | src/utils.ts:12-21 | the output carries exactly the names of the input that `Object.prototype` does not supply |
| Utils.FirstWithName | src/utils.ts:15-19 | every name present has a first record |
| Types.Comment | src/v2/parser.ts:255 | the comment is the texts of the truthy values among summary and description joined by `, ` (`TruthyTexts` is `filter(Boolean)`); the components-shaped parser builds it the same way at src/parser.ts:71 |
| Types.NamesOf | src/utils.ts:14-19 | the set of record names holds exactly the names of the list |
| Names.CamelCase | src/parser.ts:10 | the separator-to-capital replacement never lengthens the text |
| Names.CamelCasePlain | src/parser.ts:10 | text without separators is left alone |
| Names.CamelCaseJoin | src/parser.ts:34 | a separator before a word character is dropped and that character upper-cased |
| Names.StripDot | src/parser.ts:9-11 | `stripDot` never makes an id longer, and an id without `-`, `_`, space or `.` is kept as it is |
| Names.BeforeUsing | src/parser.ts:14-15 | the id is cut right before its first `Using`, kept whole without one, and contains no `Using` afterwards |
| Names.ResolveFunctionName | src/parser.ts:13-23 | the cut name gets `Using` plus the upper-cased method exactly when it is reserved; otherwise it is returned free of `Using` |
| Names.ResolveFunctionNamePlain | src/parser.ts:13-23 | a name without `Using` that is not reserved is kept as it is |
| Names.KeepIdentChars | src/parser.ts:35 | only word characters, `^`, white space and U+4E00–U+9FA5 survive, and text made of those is unchanged |
| Names.KeepIdentCharsOne | src/parser.ts:35 | a single character survives exactly when it is a word character, `^`, white space or in U+4E00–U+9FA5 |
| Names.KeepIdentCharsConcat | src/parser.ts:35 | the global replace works character by character: filtering a concatenation concatenates the filtered parts |
| Names.RemoveSpaces | src/parser.ts:46 | no space remains, and text without a space is unchanged |
| Names.RemoveSpacesOne | src/parser.ts:46 | a space is dropped and any other character kept |
| Names.RemoveSpacesConcat | src/parser.ts:46 | removing spaces from a concatenation concatenates the parts without spaces |
| Names.CleanTypeName | src/parser.ts:31-35 | the cleaned name holds only kept characters; a name without `/`, `.`, `-`, `_` or space is only filtered to its kept characters |
| Names.ResolveTypeName | src/parser.ts:26-29 | a reserved name gets the `__openAPI__` prefix before any cleanup (the other outcomes are the lemmas below) |
| Names.ResolvedTypeNameChars | src/parser.ts:31-44 | unless the pinyin step runs, a resolved name is made only of word characters, `^` and white space |
| Names.PinyinPrefixChars | src/parser.ts:38-39 | `Pinyin_` plus `_` or digits is a word |
| Names.ResolveTypeNameLastSegment | src/parser.ts:31 | only the last `/`-segment of a name matters |
| Names.PlainIdentifierUnchanged | src/parser.ts:31-44 | a non-reserved identifier of letters and digits, not all digits, is kept |
| Names.NumericNameMarked | src/parser.ts:38-40 | a name made only of digits becomes `Pinyin_` plus the name |
| ComponentsModel.UnmarkedShrinks | src/parser.ts:86-87 | marking more names leaves no more definitions unmarked |
| ComponentsModel.UnmarkedDrops | src/parser.ts:86-87 | marking a defined, unmarked name leaves one fewer unmarked: the cycle guard's measure |
| ComponentsPointer.Nodes | src/parser.ts:232-236 | the values a pointer walk can reach start with the document itself |
| ComponentsPointer.NodesClosed | src/parser.ts:234-236 | what lies inside a reachable value is reachable |
| ComponentsPointer.LookupInNodes | src/parser.ts:235 | a property read lands on a value inside the one read |
| ComponentsPointer.WalkInNodes | src/parser.ts:232-236 | the `forEach` walk from a value of the document ends on a value of the document |
| ComponentsPointer.UnvisitedShrinks | src/parser.ts:243-244 | visiting more values leaves no more unvisited |
| ComponentsPointer.UnvisitedDrops | src/parser.ts:243-244 | visiting a new value of the document leaves one fewer unvisited |
| ComponentsPointer.VisitStep | src/parser.ts:243-244 | entering one more pointer target shrinks the measure of the recursion |
| ComponentsPointer.TypeOfNode | src/parser.ts:415 | the `type` of a value of the document is a value of the document |
| ComponentsPointer.Remove | src/parser.ts:242-246 | dropping a key from a spread leaves every other key |
| ComponentsPointer.Put | src/parser.ts:242-246 | a spread with one key overridden reads that key as given and every other key as before |
| ComponentsPointer.Resolve | src/parser.ts:223-229 | the top-level call: a value without a truthy `$ref`, or whose `$ref` does not start at `#`, comes back as it is; a `$ref` that is not a string throws at `split`; otherwise the resolved `type` is a value of the document |
| ComponentsPointer.ResolveRef | src/parser.ts:223-250 | a falsy value, or one without a truthy `$ref`, is returned as it is; otherwise the resolved `type` is a value of the document |
| ComponentsPointer.MergedTypeInDoc | src/parser.ts:242-246 | the merged resolution's `type` is the target itself, or the `type` of the target's own resolution, so it stays a value of the document |
| ComponentsPointer.MissingTarget | src/parser.ts:238-240 | a `#`-pointer to a missing or falsy target throws the not-found error naming the reference |
| ComponentsPointer.DirectTarget | src/parser.ts:242-246 | a pointer to a non-reference object gives the target's members, `type` set to the target and `description` taken from the referring object |
| ComponentsPointer.TypedMerge | src/parser.ts:242-246 | setting `type` and then `description` leaves every other member of the spread |
| ComponentsPointer.DirectMerge | src/parser.ts:242-246 | the resolution of a direct reference is the spread of the target with `type` and `description` |
| ComponentsPointer.SelfReference | src/parser.ts:243-244 | an object whose pointer leads to an object pointing the same way never returns (stack overflow) |
| ComponentsPathParams.VarAt | src/parser.ts:288 | the captured word of a `{word}` match is non-empty and fits in the path |
| ComponentsPathParams.Exec | src/parser.ts:293 | `exec` from `lastIndex` finds a `{word}` at or after it, or none |
| ComponentsPathParams.ExecLeftmost | src/parser.ts:293 | the match found is the leftmost one |
| ComponentsPathParams.PathVariablesExec | src/parser.ts:293-300 | the remaining words are the one `exec` finds, then those after its match |
| ComponentsPathParams.VarAtOccurs | src/parser.ts:288 | a captured word is written between braces in the path |
| ComponentsPathParams.PathVariablesSound | src/parser.ts:288-300 | every variable found is a non-empty word written between braces in the path |
| ComponentsPathParams.PathVariablesComplete | src/parser.ts:288-300 | every `{word}` from the start on is found |
| ComponentsPathParams.DefaultPathParamFields | src/parser.ts:56-65 | the implicit parameter carries the name, `required: true` and a string schema |
| ComponentsPathParams.HasNameGrows | src/parser.ts:294 | a declared name stays declared when parameters are added |
| ComponentsPathParams.HasNamePush | src/parser.ts:294-299 | a loop step keeps the names already present |
| ComponentsPathParams.HasNameDefault | src/parser.ts:295-298 | pushing the default for a word declares it |
| ComponentsPathParams.ImplicitKeepsDeclared | src/parser.ts:290-300 | the declared path parameters stay first, in their order |
| ComponentsPathParams.ImplicitCovers | src/parser.ts:293-300 | afterwards every path variable has a parameter of its name |
| ComponentsPathParams.ImplicitAddsDefaults | src/parser.ts:294-299 | only defaults are added, each for a variable no declared parameter names |
| ComponentsPathParams.ImplicitAddsOnce | src/parser.ts:294-299 | no variable gets two defaults |
| ComponentsPathParams.AddImplicitCons | src/parser.ts:293-300 | the loop handles the variables one at a time, in order |
| ComponentsPathParams.ExecRegex | src/parser.ts:293 | one `exec` call: no match ends the list of variables, and a match yields the next word and advances `lastIndex` |
| ComponentsPathParams.AddPathDefaults | src/parser.ts:287-300 | the `while (regex.exec(path))` loop ends with the declared parameters followed by the defaults of all undeclared variables |
| ComponentsSynth.GetType | src/parser.ts:100-221 | a call only marks names and appends records, one record per newly marked name, and never lets the unmarked definitions grow |
| ComponentsSynth.GetRefName | src/parser.ts:77-98 | the same growth discipline for the reference resolver |
| ComponentsSynth.Register | src/parser.ts:86-95 | the first reference marks the name and appends a record named `resolveTypeName(segment)` with the current placement, after any record its fields discovered, and yields that name |
| ComponentsSynth.ArrayType | src/parser.ts:157-173 | the array branch keeps the growth discipline |
| ComponentsSynth.EnumType | src/parser.ts:175-183 | the enum branch keeps the growth discipline |
| ComponentsSynth.ListJoin | src/parser.ts:185-191 | the `oneOf`/`allOf` branches keep the growth discipline; what they give is stated by `ComponentsTypeFacts.OneOfUnion` and `ComponentsTypeFacts.AllOfIntersection` |
| ComponentsSynth.ObjectType | src/parser.ts:193-218 | the inline object branch keeps the growth discipline |
| ComponentsSynth.PropertyLines | src/parser.ts:198-217 | one line per property key |
| ComponentsSynth.TupleTypes | src/parser.ts:165 | one type per tuple item |
| ComponentsSynth.EnumTypes | src/parser.ts:179 | one literal or type per enum value |
| ComponentsSynth.ListTypes | src/parser.ts:186 | one type per `oneOf`/`allOf` member |
| ComponentsSynth.ResolveObject | src/parser.ts:452-479 | the dispatch of `resolveObject` keeps the growth discipline |
| ComponentsSynth.ResolveEnumObject | src/parser.ts:496-506 | the enum resolution keeps the growth discipline; its outcome is in EnumObject |
| ComponentsTypeFacts.EnumObject | src/parser.ts:496-506 | an enum schema goes to `resolveEnumObject`; a list `enum` gives `{type: <the values' types, deduplicated, joined by " \| ">}` with the state `getType`'s enum branch gives (EnumUnion), and any other truthy `enum` throws |
| ComponentsSynth.ResolveAllOfObject | src/parser.ts:481-487 | the `allOf` resolution keeps the growth discipline |
| ComponentsSynth.AllOfGroups | src/parser.ts:482-484 | one field group per `allOf` member |
| ComponentsSynth.RefGroup | src/parser.ts:483 | a referenced member keeps the growth discipline |
| ComponentsSynth.ResolveArray | src/parser.ts:508-519 | without a truthy `items.$ref` the type is `any[]`; a non-string `$ref` throws at `split`; otherwise the result is the object whose only key `type` is the last `/`-segment of the reference followed by `[]` |
| ComponentsSynth.GetFields | src/parser.ts:521-536 | `getFields` keeps the growth discipline |
| ComponentsSynth.FieldsFrom | src/parser.ts:523-534 | one field per property key |
| ComponentsSynth.Unique | src/parser.ts:177-181 | `Array.from(new Set(values))` is no longer than its input and keeps only input values; `UniqueKeepsFirsts` and `UniqueIsSet` give its content |
| ComponentsTypeFacts.UniqueKeepsFirsts | src/parser.ts:177-181 | `Array.from(new Set(values))` equals an independent first-occurrence filter |
| ComponentsTypeFacts.UniqueFromElements | src/parser.ts:177-181 | a value is kept exactly when it occurs and was not seen before |
| ComponentsTypeFacts.UniqueFromDistinct | src/parser.ts:177-181 | the kept values are distinct |
| ComponentsTypeFacts.UniqueIsSet | src/parser.ts:177-181 | an enum union lists every value once, and nothing else |
| ComponentsTypeFacts.NameListsDisjoint | src/parser.ts:115-131 | no name is in two of the scalar name lists, and the composite keywords are in none |
| ComponentsTypeFacts.ScalarRules | src/parser.ts:133-155 | a truthy `enum` disables the scalar keywords; otherwise a numeric `format` gives `number`, and `Date` is chosen from `type`, not `format` |
| ComponentsTypeFacts.ScalarTypes | src/parser.ts:141-155 | a scalar schema is its keyword, and the state is untouched |
| ComponentsTypeFacts.PlainValues | src/parser.ts:101-107 | null and undefined give `object`; any other non-object value is returned verbatim |
| ComponentsTypeFacts.EnumUnion | src/parser.ts:137-183 | a truthy `enum` takes the enum branch whatever `type` and `format` say; a non-array enum gives `string` |
| ComponentsTypeFacts.StringEnumValues | src/parser.ts:179 | string values are quoted without escaping and never reach `getType` |
| ComponentsTypeFacts.StringEnum | src/parser.ts:175-183 | `enum: ['a', 'b', 'a']` gives `"a" \| "b"` |
| ComponentsTypeFacts.CompositeKeywords | src/parser.ts:141-155 | `array`, `enum` and `object` are not scalar keywords |
| ComponentsTypeFacts.ArrayBranch | src/parser.ts:157 | a schema of type `array` without `enum` takes the array branch |
| ComponentsTypeFacts.ArrayOfItems | src/parser.ts:170-172 | `T[]`, with `T` parenthesised exactly when it contains ` \| ` |
| ComponentsTypeFacts.TupleOfItems | src/parser.ts:164-167 | a list of items gives one type per item, in order, between brackets |
| ComponentsTypeFacts.UnionArray | src/parser.ts:172 | an array of a two-value enum is `("a" \| "b")[]` |
| ComponentsTypeFacts.OneOfUnion | src/parser.ts:185-187 | a non-empty `oneOf` list is the types of its members, one per member and in order, joined by ` \| `; a non-list `oneOf` throws |
| ComponentsTypeFacts.AllOfIntersection | src/parser.ts:189-191 | a non-empty `allOf` list is the types of its members, one per member and in order, joined by ` & ` in parentheses; a non-list `allOf` throws |
| ComponentsTypeFacts.PropertyLineHead | src/parser.ts:213 | each line starts with the quoted key and `?` exactly when not required |
| ComponentsTypeFacts.PropertyLinesRequired | src/parser.ts:198-217 | one line per property, in key order, whose `?` follows the property's own `required` if present, else the truthiness of the parent's |
| ComponentsTypeFacts.PropertyLineFirst | src/parser.ts:198-217 | the first line, and the state the other lines start from |
| ComponentsTypeFacts.ParentListRequires | src/parser.ts:200-203 | any `required` list on the parent, even one not naming the property, makes it required |
| ComponentsTypeFacts.EmptyObject | src/parser.ts:193-196 | an object schema without properties is the type `object` |
| ComponentsTypeFacts.DefaultSchemaType | src/parser.ts:51-54 | `getType(DEFAULT_SCHEMA)` is the inline type with an optional numeric `id` |
| ComponentsTypeFacts.DefaultSchemaIsObject | src/parser.ts:193 | the default schema takes the object branch |
| ComponentsTypeFacts.DefaultSchemaLines | src/parser.ts:198-217 | its one line is `'id'?: number; ` |
| ComponentsTypeFacts.FieldsFollowKeys | src/parser.ts:521-535 | one field per property, named by its key, required exactly when the `required` list names it |
| ComponentsTypeFacts.FieldFirst | src/parser.ts:523-534 | the first field, and the state the other fields start from |
| ComponentsTypeFacts.RefTakesName | src/parser.ts:109-111 | a schema with a truthy `$ref` is named by `getRefName`, whatever else it holds |
| ComponentsTypeFacts.RefName | src/parser.ts:82-83 | the name is the last `/`-segment of a string `$ref`; any other `$ref` throws |
| ComponentsTypeFacts.MarkedReference | src/parser.ts:86-97 | a name already marked, or one every object inherits, gives the resolved name and changes nothing |
| ComponentsTypeFacts.FirstReference | src/parser.ts:86-95 | the first reference to a name registers it |
| ComponentsTypeFacts.UndefinedReference | src/parser.ts:91 | registering when `components.schemas` is absent throws |
| ComponentsTypeFacts.SelfReferentialSchema | src/parser.ts:77-98 | a schema that refers to itself through a property gives one record, whose field is typed by its own name, and terminates |
| ComponentsTypeFacts.RegisterDefined | src/parser.ts:86-95 | registering a defined name appends the record of its resolved fields, with its description and the current placement |
| ComponentsTypeFacts.FieldsFromSingle | src/parser.ts:523-534 | a one-property object without a `required` list yields one optional field |
| ComponentsTypeFacts.PropertiesObject | src/parser.ts:469-494 | a schema with truthy `properties` and no `$ref`, `enum` or `allOf` resolves to its fields and description |
| ComponentsParser.ExtendsTrans | src/parser.ts:72-75 | the growth of the closure's state composes |
| ComponentsParser.ResolveAll | src/parser.ts:261 | one resolved value per parameter |
| ComponentsParser.TypeParams | src/parser.ts:263-279 | typing a group's parameters only grows the state |
| ComponentsParser.GroupsFrom | src/parser.ts:258-284 | the `sources.forEach` loop only grows the state |
| ComponentsParser.Groups | src/parser.ts:255-285 | the declared groups only grow the state |
| ComponentsParser.ParamField | src/parser.ts:312-318 | one field only grows the state |
| ComponentsParser.ParamFields | src/parser.ts:311-319 | one field per parameter, and the state only grows |
| ComponentsParser.SelectExact | src/parser.ts:262 | the filter throws exactly on a null parameter, and otherwise keeps exactly the parameters of its location, in order |
| ComponentsParser.ParamFieldsFollow | src/parser.ts:311-319 | one field per parameter, in order, carrying its name, `required`, description and schema format |
| ComponentsParser.ParamRecordAppends | src/parser.ts:309-321 | a group's record comes last, under the group's name and placement, after any record its field types discovered |
| ComponentsParser.GroupsSelect | src/parser.ts:258-284 | the query and path groups are the filters of the resolved parameters, present only when non-empty; cookie parameters give no record |
| ComponentsParser.PathVariablesGivePathVar | src/parser.ts:287-307 | a path with a `{word}` always gets the `<Name>PathVar` record |
| ComponentsParser.QueryIffQueryParameter | src/parser.ts:325-341 | the `<Name>Query` record exists exactly when some parameter is in the query |
| ComponentsParser.OrEmptyObject | src/parser.ts:347 | a default parameter replaces only a missing argument |
| ComponentsParser.RetypeFile | src/parser.ts:363-368 | a `binary` property is typed `File`, else one whose `items` are binary gets `items.type = 'File'`; every other key is unchanged, and nothing changes without a binary format |
| ComponentsParser.RetypeFiles | src/parser.ts:362-370 | the retyping loop keeps the property names |
| ComponentsParser.RetypeMembers | src/parser.ts:362-370 | every object property is retyped in place, under its own name |
| ComponentsParser.RetypeItems | src/parser.ts:362-370 | every array element is retyped in place |
| ComponentsParser.BodyEntry | src/parser.ts:347-354 | no request body gives no body |
| ComponentsParser.BodyEntryFirst | src/parser.ts:349-354 | the first media type is taken with its `schema`; a null entry throws |
| ComponentsParser.BodyOf | src/parser.ts:354-378 | the catch-all media type reads as the empty media type |
| ComponentsParser.BodyTP | src/parser.ts:347-379 | `placement` becomes `body`, records are only appended, and the catch-all media type is never reported |
| ComponentsParser.LookupRetyped | src/parser.ts:362-368 | reading a property after the loop reads the retyped value |
| ComponentsParser.RetypeFileTwice | src/parser.ts:363-368 | retyping a property twice is retyping it once |
| ComponentsParser.RetypeIdempotent | src/parser.ts:362-370 | the retyping loop is idempotent, so mutating the shared document again changes nothing |
| ComponentsParser.BinaryPropertyIsFile | src/parser.ts:361-368 | in a promoted schema a `binary` property reads `type: 'File'` afterwards |
| ComponentsParser.RetypedShape | src/parser.ts:361-370 | the loop replaces `properties` by a list with the same keys and keeps everything else |
| ComponentsParser.BodyPromotes | src/parser.ts:361-375 | a promoted schema becomes the record `<Name>Body` with its description, its fields and placement `body`, last in `interfaces`, with one field per property; its type is the record's name |
| ComponentsParser.Picked | src/parser.ts:423 | `default`, else `200`, else `201` |
| ComponentsParser.RefCheck | src/parser.ts:430-438 | the `$ref` branch only reads; it throws exactly when `$ref` is truthy but not a string, or when `components.schemas` is absent or null |
| ComponentsParser.RequiredIncludes | src/parser.ts:442 | `required?.includes` throws unless the list is absent, null, an array or a string, and holds exactly when the list names the key |
| ComponentsParser.MarkMembers | src/parser.ts:441-443 | the marking keeps the property names in order |
| ComponentsParser.MarkItems | src/parser.ts:441-443 | the marking keeps the number of elements |
| ComponentsParser.ResponseEntry | src/parser.ts:420-428 | no truthy `default`, `200` or `201` gives no response; a response's media type is non-empty |
| ComponentsParser.ResponseEntryFirst | src/parser.ts:423-428 | the first named media type is taken with its `schema`; a null entry throws |
| ComponentsParser.ResponseOf | src/parser.ts:428-449 | the response keeps its media type and only grows the state |
| ComponentsParser.ResponseTP | src/parser.ts:420-450 | `placement` becomes `res`, records are only appended, and the media type is non-empty |
| ComponentsParser.MarkMembersOk | src/parser.ts:441-443 | the marking succeeds exactly when every property value is an object or an array and the `required` list can be searched |
| ComponentsParser.MarkedRequired | src/parser.ts:442 | an object property comes out with `required` set to whether the list names it |
| ComponentsParser.WithRequiredObject | src/parser.ts:440-443 | with object-valued `properties`, the marking replaces them by their marked copy |
| ComponentsParser.ResponseRequiredMarked | src/parser.ts:440-443 | through the whole marking, property `k` reads `required: true` exactly when the list names it, and the property names are kept |
| ComponentsParser.MarkMembersTwice | src/parser.ts:441-443 | marking object properties twice is marking them once |
| ComponentsParser.MarkItemsTwice | src/parser.ts:441-443 | marking array properties twice is marking them once |
| ComponentsParser.MarkIdempotent | src/parser.ts:440-443 | marking `required` is idempotent, so mutating the shared document again changes nothing |
| ComponentsParser.IsFileField | src/parser.ts:400-405 | the filter throws exactly when a list-typed field without binary format has no `items`, and otherwise keeps exactly binary/base64 fields and lists of them |
| ComponentsParser.ResolveFileTP | src/parser.ts:393-418 | the recursion on `resolved.type` only grows the state |
| ComponentsParser.NextSmaller | src/parser.ts:395-415 | what `resolveObject` hands on as `type` is absent, a value of the document, or smaller than the input |
| ComponentsParser.FileTP | src/parser.ts:381-391 | no request body gives `null`; a list is returned only when non-empty; the state only grows |
| ComponentsParser.FileFieldsExact | src/parser.ts:397-413 | the filter succeeds when every test does, and keeps exactly the file fields as `{title, multiple}` |
| ComponentsParser.Assembled | src/parser.ts:538-552 | the result keeps the operation's name and comment, and without a request body has no body and no form data |
| ComponentsParser.Parsed | src/parser.ts:67-74 | a document without `paths` throws; a missing operation gives undefined; a result has a string `operationId` |
| ComponentsParser.FormMediaTypeIsFormData | src/parser.ts:547 | a request body whose first media type contains `form` makes `isFormData` true |
| ComponentsParser.FormBody | src/parser.ts:353-378 | such a body reports a media type containing `form` |
| ComponentsParser.CatchAllIsNotForm | src/parser.ts:356-358 | a media type containing `form` is not the catch-all one |
| ComponentsOperation.TypeParamsStep | src/parser.ts:263-279 | one step of the group's `.map` is one unfolding of its specification |
| ComponentsOperation.ParamFieldsStep | src/parser.ts:311-319 | one step of the fields `forEach` is one unfolding of its specification |
| ComponentsOperation.GroupsFromStep | src/parser.ts:258-284 | one step of the sources loop is one unfolding of its specification |
| ComponentsOperation.MarkMembersStep | src/parser.ts:441-443 | one step of the marking loop is one unfolding of its specification |
| ComponentsOperation.MarkItemsStep | src/parser.ts:441-443 | the same for array-valued properties |
| ComponentsOperation.RetypeMembersInPlace | src/parser.ts:362-370 | the `forEach` rewriting each truthy property of an object in place ends with every property retyped |
| ComponentsOperation.RetypeItemsInPlace | src/parser.ts:362-370 | the same loop over the indices of an array |
| ComponentsOperation.RetypeProperties | src/parser.ts:362-370 | the loop leaves the properties as the retyping specification says |
| ComponentsOperation.MarkRequired | src/parser.ts:440-443 | the marking loop ends with the result, or throws the error, that the marking specification gives |
| ComponentsOperation.Parser.constructor | src/parser.ts:72-75 | a fresh closure: no records, no marked names, no placement |
| ComponentsOperation.Parser.Commit | src/parser.ts:77-98 | the object takes on the state a specification step ends in |
| ComponentsOperation.Parser.TypeOfSchema | src/parser.ts:100-221 | `getType` leaves the fields and returns the value that its specification computes |
| ComponentsOperation.Parser.TypeEach | src/parser.ts:263-279 | the group's `.map` loop ends in the state of its specification, or throws the same error |
| ComponentsOperation.Parser.GroupParams | src/parser.ts:253-285 | the `sources.forEach` loop fills `templateParams` as its specification does |
| ComponentsOperation.Parser.ParamFieldOf | src/parser.ts:312-318 | one field, with the state its specification computes |
| ComponentsOperation.Parser.ParamFieldsOf | src/parser.ts:311-319 | the fields loop builds the fields its specification computes |
| ComponentsOperation.Parser.PushParamRecord | src/parser.ts:306-342 | `placement` is set, the fields are built and the record pushed, as the specification says |
| ComponentsOperation.Parser.GetParamsTP | src/parser.ts:252-345 | `getParamsTP` returns the record names and leaves the state that its specification computes |
| ComponentsOperation.Parser.GetBodyTP | src/parser.ts:347-379 | `getBodyTP` returns the body and leaves the state that its specification computes |
| ComponentsOperation.Parser.GetResponseTP | src/parser.ts:420-450 | `getResponseTP` returns the response and leaves the state that its specification computes |
| ComponentsOperation.Parser.GetFileTP | src/parser.ts:381-391 | `getFileTP` returns the file fields and leaves the state that its specification computes |
| ComponentsOperation.Parse | src/parser.ts:67-74 | the imperative parse of an operation equals its specification `Parsed` |
| ComponentsOperation.Run | src/parser.ts:538-552 | the four group calls on a fresh closure give the outcome of `Assembled` |
| V2Parser.JavaTypeToTsKeyword | src/v2/parser.ts:7-20 | `file` or binary format gives `File`; otherwise `number`/`integer` give `number`, `string`/`boolean`/`object` themselves, a type outside the primitive names gives nothing, and an array gives its items' `$ref` as written, or else its items' keyword, followed by `[]`, and nothing when the items have neither `$ref` nor `type` or their keyword is none; any keyword is non-empty and is a primitive keyword or ends in `[]` |
| V2Parser.ArraySchemaMembers | src/v2/parser.ts:15-16 | the shape `{type: 'array', items}` reads as written |
| V2Parser.LeafKeyword | src/v2/parser.ts:9-13 | `number`/`integer` give `number`, `string`/`boolean`/`object` themselves, `file` gives `File` |
| V2Parser.ArrayKeyword | src/v2/parser.ts:15-18 | an array of typed items is the item keyword followed by `[]` |
| V2Parser.ArrayOfRefKeyword | src/v2/parser.ts:16-18 | an array of references is the reference followed by `[]` |
| V2Parser.BracketsFrom | src/v2/parser.ts:30 | the first position from which `\[.*\]$` matches, or none |
| V2Parser.RefPart | src/v2/parser.ts:30 | the part before the trailing group is a prefix of the type |
| V2Parser.LineStart | src/v2/parser.ts:32 | the lazy `.*?` starts after the last line terminator |
| V2Parser.TransformField | src/v2/parser.ts:28-33 | a field keeps its name and `required`, and one whose type does not start with the prefix is unchanged |
| V2Parser.TransformFields | src/v2/parser.ts:28-34 | every field is transformed, in order |
| V2Parser.ReferencedNamesMembers | src/v2/parser.ts:29-31 | every field that refers to a definition names a record to resolve |
| V2Parser.TransformFieldsSnoc | src/v2/parser.ts:28-34 | the `forEach` transforms one more field per step |
| V2Parser.RefPartKeepsPrefix | src/v2/parser.ts:30 | the cut part of a reference type still starts with the prefix |
| V2Parser.CanonicalRefShape | src/v2/parser.ts:30-32 | a well-formed reference type has no `[` before its group and no line terminator |
| V2Parser.NoTerminatorLineStart | src/v2/parser.ts:32 | a one-line type is matched from its start |
| V2Parser.PlainRefType | src/v2/parser.ts:30 | a reference without a group has no trailing group |
| V2Parser.GroupedRefType | src/v2/parser.ts:30-32 | a reference with a group is cut before it, and the group is kept |
| V2Parser.CanonicalRefType | src/v2/parser.ts:29-33 | round trip: `#/definitions/Name[...]` resolves `Name` and is rewritten to `Name[...]` |
| V2Parser.CanonicalCut | src/v2/parser.ts:30-32 | where the canonical type is cut, and what the rewrite keeps |
| V2Parser.PlainCut | src/v2/parser.ts:30-32 | a plain reference is rewritten to its name |
| V2Parser.GroupedCut | src/v2/parser.ts:30-32 | a grouped reference is rewritten to its name followed by the group |
| V2Parser.CanonicalMatches | src/v2/parser.ts:32 | the name is read from the canonical type with or without its group |
| V2Parser.Includes | src/v2/parser.ts:60 | `required.includes(name)` on a list tests membership; it throws on a value without `includes` |
| V2Parser.PropertyField | src/v2/parser.ts:48-64 | a property gives a field exactly when it has a truthy `$ref` or a truthy `type` the keyword table maps, and is otherwise skipped; the field is named after the property, typed by the `$ref` as written or else by the keyword, carries the property's `description` and `format`, and is required exactly when marking is on and `required.includes(name)` is true; it throws exactly on a typed property whose `$ref` is not a string or whose `required` has no `includes` while marking |
| V2Parser.PropertyFields | src/v2/parser.ts:47-66 | at most one field per key, each named by a key with a non-empty type; nothing is required without marking |
| V2Parser.PropertyFieldsFollow | src/v2/parser.ts:47-66 | every field is the one `PropertyField` gives for its name, and every property with a field has it in the list: the loop's fields are exactly its properties' fields |
| V2Parser.PropertyFieldsFail | src/v2/parser.ts:47-66 | the loop throws exactly when some property's field throws |
| V2Parser.FailingProperty | src/v2/parser.ts:47-66 | when the loop throws, some property's field throws |
| V2Parser.OrEmpty | src/v2/parser.ts:44 | `definition \|\| {}` is never null |
| V2Parser.DefinitionFields | src/v2/parser.ts:44-66 | an absent definition has no fields |
| V2Parser.PropertyFieldsInOrder | src/v2/parser.ts:47-66 | property order is kept and no property gives two fields |
| V2Parser.UnshiftsNothing | src/v2/parser.ts:68-72 | not unshifting is a trivial growth |
| V2Parser.NamesOfCons | src/v2/parser.ts:68-72 | an unshifted record adds its name |
| V2Parser.NamesOfConcat | src/v2/parser.ts:68-72 | the names of two lists together |
| V2Parser.UnshiftsNames | src/v2/parser.ts:68-72 | after unshifting, the names are the new ones and the old ones |
| V2Parser.UnshiftsOne | src/v2/parser.ts:68-72 | unshifting a record of a new name is a growth |
| V2Parser.UnshiftsTrans | src/v2/parser.ts:68-72 | two rounds of unshifting are one |
| V2Parser.UnshiftsUpdate | src/v2/parser.ts:32 | rewriting an added record's fields in place keeps the growth and the names |
| V2Parser.UnshiftsDistinct | src/v2/parser.ts:85 | the cycle guard keeps the collector's names distinct |
| V2Parser.OnlyWrapperRepeats | src/v2/parser.ts:131-137 | after the parameter record is unshifted, only its name can repeat |
| V2Parser.RefString | src/v2/parser.ts:83 | a falsy reference is no reference; a truthy non-string one throws; a string is taken as it is |
| V2Parser.PropertyFieldsSnoc | src/v2/parser.ts:48-65 | one more key adds its field, if any |
| V2Parser.ReferencedNamesSnoc | src/v2/parser.ts:28-34 | one more field adds its reference, if any |
| V2Parser.TransformStep | src/v2/parser.ts:28-34 | one step of `transformInterfaceBody` keeps the loop's invariants |
| V2Parser.PropertyFieldsStop | src/v2/parser.ts:48-65 | the first property whose field throws makes the whole loop throw |
| V2Parser.PropertyFieldsKeepFailure | src/v2/parser.ts:48-65 | a failure of a prefix is the failure of the whole |
| V2Parser.UnresolvedShrinks | src/v2/parser.ts:85 | more names leave no more definitions unresolved |
| V2Parser.UnresolvedDrops | src/v2/parser.ts:85-87 | taking the name of one more definition leaves one fewer unresolved: the recursion's measure |
| V2Parser.CollectProperties | src/v2/parser.ts:47-66 | the property loop builds exactly the specified fields, or throws the same error |
| V2Parser.CollectFields | src/v2/parser.ts:44-66 | the fields of a definition are those of its properties, in key order |
| V2Parser.Unshifted | src/v2/parser.ts:68-72 | unshifting a record of a new name adds that name and lowers the measure |
| V2Parser.Rewritten | src/v2/parser.ts:68-74 | the record unshifted first still sits behind the records its fields discovered, and can be rewritten there |
| V2Parser.RefTargeted | src/v2/parser.ts:84-87 | a reference that finds its definition names the record of one of the definition keys |
| V2Parser.Collector.constructor | src/v2/parser.ts:95 | a fresh, empty collector |
| V2Parser.Collector.ResolveInterface | src/v2/parser.ts:77-88 | an empty ref does nothing; a name already collected changes nothing; otherwise, on success, the last record added is the one built from the definition under the reference's key (named after the reference, with its description and rewritten fields) and every record those fields refer to is collected; without definitions it throws |
| V2Parser.Collector.ResolveProperties | src/v2/parser.ts:37-75 | the record `name` is unshifted with the definition's fields, rewritten, behind the records they refer to, all of which are collected |
| V2Parser.Collector.TransformInterfaceBody | src/v2/parser.ts:22-35 | every field is rewritten as `TransformFields` says, and every definition it refers to is collected |
| V2Parser.Collector.TransformItem | src/v2/parser.ts:28-33 | the callback rewrites one field and collects its target |
| V2Parser.LastName | src/v2/parser.ts:107 | `collector.at(-1)?.name` is undefined exactly on an empty collector |
| V2Parser.ParameterRef | src/v2/parser.ts:104-106 | a parameter's schema `$ref` is used when truthy; a non-string throws |
| V2Parser.PlainKeyword | src/v2/parser.ts:108-113 | a parameter's keyword, if any, is non-empty |
| V2Parser.KeywordField | src/v2/parser.ts:115-127 | a parameter with a keyword gives the field of its name, keyword and `!required` optionality; none otherwise |
| V2Parser.FirstRef | src/v2/parser.ts:104-107 | the first reference found is truthy |
| V2Parser.FirstRefIsFirst | src/v2/parser.ts:104-107 | it is the reference of the first parameter whose schema has one |
| V2Parser.FoldFirstRef | src/v2/parser.ts:106-107 | every parameter with a reference is typed by the record of the first reference (the `at(-1)` behaviour) |
| V2Parser.FoldFails | src/v2/parser.ts:98-128 | the loop throws exactly on a null parameter or a non-string schema reference |
| V2Parser.ParameterNames | src/v2/parser.ts:99 | one name per parameter |
| V2Parser.FieldNamesSnoc | src/v2/parser.ts:121-127 | pushing a field adds its name |
| V2Parser.FoldSnoc | src/v2/parser.ts:98-128 | the last parameter adds at most one field, named after it |
| V2Parser.FoldInOrder | src/v2/parser.ts:98-128 | every field names its parameter, in parameter order |
| V2Parser.FoldStep | src/v2/parser.ts:98-128 | one parameter of the loop is one step of the fold |
| V2Parser.LastAfterRef | src/v2/parser.ts:106-107 | after a resolution the last record is the one that was last before, or the resolved one |
| V2Parser.WrapperWritten | src/v2/parser.ts:130-137 | the parameter record, rewritten in place, is the only repeated name and stays last when first |
| V2Parser.ResolveLast | src/v2/parser.ts:106-107 | `resolveInterface` then `at(-1)?.name` gives the name the fold predicts; on an empty collector the names end distinct with the reference's record, built from its definition, last |
| V2Parser.ParameterKeywordOf | src/v2/parser.ts:99-113 | one parameter's keyword, resolving its schema's reference into the collector |
| V2Parser.ResolveParameters | src/v2/parser.ts:90-140 | the fields are those of the fold; only the record `interfaceName` may repeat; every referenced record is collected; the last name is as the fold predicts |
| V2Parser.ResolveRefAlone | src/v2/parser.ts:172-180 | a fresh collector resolving one reference ends with distinct names and the record built from the reference's definition last, every record its fields refer to collected; a non-string reference throws |
| V2Parser.ResolveAlone | src/v2/parser.ts:181-182 | an inline schema read as a definition gives distinct records, with `defaultName` last |
| V2Parser.ResolveInline | src/v2/parser.ts:181-187 | distinct names; the collector is empty exactly when the inline schema has no fields, and otherwise ends with the record `defaultName` holding the schema's description and rewritten fields, every record they refer to collected |
| V2Parser.ResolveSchema | src/v2/parser.ts:166-193 | an array without an items reference is its keyword with no records; an array of references is the reference's record name plus `[]` with the records a fresh resolution of it gives; another `$ref` gives those records and the name of the last; an inline schema gives the records of `ResolveInline` and the name of the last; a non-string reference throws |
| V2Operation.CloseBrace | src/v2/parser.ts:238 | the first `}` after an opening brace, with no line terminator between |
| V2Operation.PathVars | src/v2/parser.ts:238 | each variable `/\{(.+?)\}/g` finds is non-empty and on one line |
| V2Operation.CloseBraceAt | src/v2/parser.ts:238 | the lazy match closes at the first `}` |
| V2Operation.PathVarsVariable | src/v2/parser.ts:238 | a `{name}` segment gives the variable `name` |
| V2Operation.PathVarsLiteral | src/v2/parser.ts:238 | text without `{` gives no variable |
| V2Operation.Select | src/v2/parser.ts:210-228 | a filter keeps at most the parameters it is given |
| V2Operation.SelectSpec | src/v2/parser.ts:210-228 | the filter throws exactly on a null parameter, and otherwise keeps exactly the parameters of its group, in order |
| V2Operation.PathQueryDisjoint | src/v2/parser.ts:210-228 | no parameter goes both to the path record and to the query record |
| V2Operation.SomeFormData | src/v2/parser.ts:148 | `some` throws only at a null parameter, and holds only when some parameter is declared `in: formData`; `SomeFormDataSpec` gives the equivalence |
| V2Operation.SomeFormDataSpec | src/v2/parser.ts:148 | without null parameters, `some` holds exactly when a parameter is in form data |
| V2Operation.BodyParam | src/v2/parser.ts:158 | what `find` returns is a body parameter whose name is not a path variable |
| V2Operation.BodyParamFirst | src/v2/parser.ts:158 | without null parameters it finds the first such parameter, or none when there is none |
| V2Operation.Operation | src/v2/parser.ts:234-235 | reading `paths` of a document without it throws, and only then |
| V2Operation.ParameterList | src/v2/parser.ts:148-210 | `parameters?.` throws exactly on a present value that is neither null nor a list |
| V2Operation.OperationName | src/v2/parser.ts:195-199 | the name is the string id cut before `Using`; any other id fails: `indexOf` is missing on non-arrays, and an array id, which `indexOf` accepts, has no `charAt` for the `toFirstUpperCase` that resolvePath and resolveQuery apply to it next |
| V2Operation.RecordName | src/v2/parser.ts:209-227 | `<Name>PathVar`/`<Name>Query` ends in its suffix |
| V2Operation.ResolveGroup | src/v2/parser.ts:201-231 | an unreadable id or parameter list throws; otherwise the group's parameters give exactly what resolveParameters gives under `<Name>PathVar` or `<Name>Query`: only that record may repeat, it holds the rewritten fields of the fold, every referenced record is collected, and the last name is as the fold predicts |
| V2Operation.BodySchema | src/v2/parser.ts:157-159 | the body schema is never null |
| V2Operation.ResolveBodyInterface | src/v2/parser.ts:142-164 | with form data, what resolveParameters gives for the form-data and body parameters under `RequestBody`, named by the last record; otherwise what resolveSchema gives for the body parameter's schema, `{}` without one, which gives nothing |
| V2Operation.ResolveFormBody | src/v2/parser.ts:149-155 | the form-data and body parameters resolved by resolveParameters as `RequestBody`, named by the last record; a null parameter throws |
| V2Operation.ResolveBodySchema | src/v2/parser.ts:156-163 | the body parameter's schema, `{}` without one, resolved by resolveSchema as `RequestBody`, with distinct records; `{}` gives no records and no name |
| V2Operation.EmptySchemaFields | src/v2/parser.ts:159 | `{}` has no fields and is neither an array nor a reference |
| V2Operation.ResponseSchema | src/v2/parser.ts:249 | `responses[200].schema \|\| {}` is never null; missing `responses` or `200` throws |
| V2Operation.FormDataFlag | src/v2/parser.ts:261 | `isFormData` is undefined without parameters, else whether one is in form data |
| V2Operation.ParseOperation | src/v2/parser.ts:237-266 | a parse is built from what resolvePath, resolveQuery, resolveBodyInterface and resolveSchema of the `200` schema give: `interfaces` is `duplicate` of their four lists in that order, and `pathVar`, `query`, `body`, `res` are their names; name, comment and form-data flag are read off the operation; the records have distinct names, and `pathVar` and `query` name records in the list exactly when `Object.prototype` does not supply the name |
| V2Operation.ParsedFromFacts | src/v2/parser.ts:243-265 | a parse holds distinct records, and its `pathVar` and `query` are the names the fold predicts and name records in the list exactly when they are not inherited names |
| V2Operation.Merge | src/v2/parser.ts:265 | `duplicate` of the four lists concatenated in order: distinct names, order kept, every name kept except those `Object.prototype` supplies, and the path and query records kept unless their names are such names |
| V2Operation.Parse | src/v2/parser.ts:233-267 | a missing operation gives undefined, and only then; a parse carries the operation's name, distinct records and the form-data flag, and is built from the four resolved parts as in `ParseOperation`, records with inherited names dropped |

## Left out

- Network and file I/O, the code generator that prints the result, and `src/index.ts` (which dispatches to a `v3` parser that is not part of this model) are outside the core.
- The reserved-word table and the pinyin conversion are library calls. They are parameters (`Names.Externals`), so the results hold for any such library.
- `console.log` of ignored properties in the definitions-shaped parser has no effect on the result and is omitted.
- Numbers are JSON integers. Fractional numbers, and how JavaScript prints them, are not modelled.
- `Object.keys` puts integer-like keys first in ascending order. The model keeps document order for all keys.
- A duplicated key in a JSON object: the model reads the first occurrence, where `JSON.parse` keeps the last.
- Strings have no own properties in the model, so reads such as `'abc'.length` through a `$ref` value, or `'abc'[0]`, read as undefined.
- JsonValues.ObjectKeys: lists nothing for a string. `Object.keys` of a non-empty string lists its indices `"0"`, `"1"`, …, which the model does not list, because it has no index reads on strings either.
- ComponentsSynth.GetFields: a truthy string `properties` gives no fields. In the source it gives one field per character, typed by that character, since `Object.keys` lists the string's indices and `getType` returns a string schema as it is.
- `Set` membership in the enum union compares JSON values, not JavaScript identities. Two equal object literals are therefore one value here but two in JavaScript.
- ComponentsSynth.GetType: `getType` and `getRefName` are modelled as functions threading the closure's state, not as methods of `ComponentsOperation.Parser`. The parser calls them through `Parser.TypeOfSchema`, which commits the state they compute. Their contracts promise the growth discipline. The outcome of each branch is a lemma in `ComponentsTypeFacts`: `PlainValues`, `ScalarTypes`, `StringEnum`, `ArrayOfItems`, `TupleOfItems`, `OneOfUnion`, `AllOfIntersection`, `EmptyObject`, `PropertyLinesRequired`, `RefTakesName`, `MarkedReference` and `FirstReference`.
- ComponentsPointer.ResolveRef: a pointer cycle is a stack overflow in JavaScript. The model detects the repeated target value and reports `StackOverflow` instead of recursing without end. `ComponentsParser.ResolveFileTP` does the same for an endless `resolved.type` chain.
- `resolveObject` returns values whose `fields` member would be read by `getRefName` and `resolveFileTP`. A raw resolved value (one that is neither a `properties` record nor an `allOf` list) is treated as having no fields, and a string returned by `resolveArray` is taken as having no `type`.
- The spreads `{...p, isObject, type}` of `getParamsTP` and `{...schema, name, ...}` of `getFields` add members that the parser never reads again. Only the values it reads (name, required, type, description, format, items) are kept.
- `DEFAULT_SCHEMA` is one shared object that `getResponseTP` could mark in place. Its property `id` would gain `required: false`. A later `getType` sees it through `'required' in`, but `false` gives the same `?` that the default schema's absent `required` gives, so the mutation is not modelled.
- The in-place retyping and `required` marking change the caller's document. The model returns the rewritten copy within one parse and proves both rewrites idempotent (`ComponentsParser.RetypeIdempotent`, `ComponentsParser.MarkIdempotent`), so a second parse of the mutated document sees the same result.
- The retyped body schema is shared with `getFileTP` only when it is the schema of the `multipart/form-data` entry. The model passes it on exactly then, and does not model other aliasing between parts of the document.
- ComponentsParser.MarkItems: keeps the number of elements but does not record the `required` flag the source sets on an array-valued response property; the gap sits in the per-value helper `ComponentsParser.MarkValue`, which leaves an array unchanged because an array's own named properties are not modelled, and MarkItems and MarkMembers inherit it.
- The `placement` value `undefined` before the first group function is `None`.
- Text.UpperChar: ASCII case mapping only. `toUpperCase` also maps other letters, some to several characters (`ß` becomes `SS`), which the model does not.
- Text.Upper: ASCII case mapping only, as for `Text.UpperChar`; with full Unicode mapping the length could change.
- Utils.ToFirstUpperCase: ASCII case mapping only, as for `Text.UpperChar`.
- JsonValues.Lookup: reads own members only. An array's `length` and the names every object inherits (`constructor`, `toString` and the like) read as undefined.
- ComponentsPointer.ResolveRef: walks with `JsonValues.Lookup`, so a pointer through an inherited name, such as `#/components/schemas/constructor`, gives `NotFound` where JavaScript would reach a function value.
- V2Parser.KeywordField: a record field's name is a string, so the parameter's `name` is converted as `String(...)` converts it (`ToJsString`). The source stores the raw value, which the printer shows the same way.
