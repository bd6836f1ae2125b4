/** Identifier sanitisers of the components-shaped parser
    (src/parser.ts:5-49): camel-casing at separators, cutting an
    operation id at `Using`, reserved-word escaping and the pinyin
    fallback for names in CJK script. */
module Names {
  import opened Wrappers
  import opened Text

  /** The two libraries the sanitisers call: the reserved-word table of
      `reserved-words` and the romaniser of `tiny-pinyin`. */
  datatype Externals = Externals(isReserved: string -> bool, toPinyin: string -> string)

  /** `s.replace(/[<seps>](\w)/g, (_, c) => c.toUpperCase())`: a separator
      followed by a word character becomes that character, upper-cased;
      the scan goes on after the pair. */
  function CamelCase(s: string, seps: set<char>): (r: string)
    ensures |r| <= |s|
    decreases |s|
  {
    if |s| >= 2 && s[0] in seps && IsWordChar(s[1]) then [UpperChar(s[1])] + CamelCase(s[2..], seps)
    else if s == [] then []
    else [s[0]] + CamelCase(s[1..], seps)
  }

  /** Text without separators is left alone. */
  lemma {:induction false} CamelCasePlain(s: string, seps: set<char>)
    requires forall i :: 0 <= i < |s| ==> s[i] !in seps
    ensures CamelCase(s, seps) == s
  {
    if s != [] {
      CamelCasePlain(s[1..], seps);
    }
  }

  /** One separator between a separator-free head and a word: the word's
      first letter is upper-cased and the separator disappears. */
  lemma {:induction false} CamelCaseJoin(a: string, c: char, b: string, seps: set<char>)
    requires forall i :: 0 <= i < |a| ==> a[i] !in seps
    requires c in seps && b != [] && IsWordChar(b[0])
    ensures CamelCase(a + [c] + b, seps) == a + [UpperChar(b[0])] + CamelCase(b[1..], seps)
  {
    var s := a + [c] + b;
    if a == [] {
      assert s == [c] + b && s[0] == c && s[1] == b[0];
      assert s[2..] == b[1..];
    } else {
      assert s[0] == a[0] && s[0] !in seps;
      assert s[1..] == a[1..] + [c] + b;
      CamelCaseJoin(a[1..], c, b, seps);
      assert CamelCase(s, seps) == [a[0]] + CamelCase(s[1..], seps);
      assert [a[0]] + (a[1..] + [UpperChar(b[0])] + CamelCase(b[1..], seps))
          == a + [UpperChar(b[0])] + CamelCase(b[1..], seps);
    }
  }

  /** `stripDot`: camel-casing at `-`, `_`, space and `.`. */
  function StripDot(s: string): (r: string)
    ensures |r| <= |s|
    ensures (forall i :: 0 <= i < |s| ==> s[i] !in {'-', '_', ' ', '.'}) ==> r == s
  {
    if forall i :: 0 <= i < |s| ==> s[i] !in {'-', '_', ' ', '.'} then
      CamelCasePlain(s, {'-', '_', ' ', '.'});
      CamelCase(s, {'-', '_', ' ', '.'})
    else
      CamelCase(s, {'-', '_', ' ', '.'})
  }

  /** An operation id cut before its first `Using` (also the v2 parser's
      `parseOperationId`). */
  function BeforeUsing(s: string): (r: string)
    ensures !Contains(r, "Using")
    ensures IndexOf(s, "Using").None? ==> r == s
    ensures IndexOf(s, "Using").Some? ==> r == s[..IndexOf(s, "Using").value] && OccursAt(s, "Using", |r|)
  {
    match IndexOf(s, "Using")
    case None =>
      assert forall j :: 0 <= j <= |s| ==> !OccursAt(s, "Using", j);
      s
    case Some(i) =>
      var r := s[..i];
      assert forall j :: 0 <= j <= |r| && OccursAt(r, "Using", j) ==> OccursAt(s, "Using", j) by {
        forall j | 0 <= j <= |r| && OccursAt(r, "Using", j) ensures OccursAt(s, "Using", j) {
          assert s[j..j + 5] == r[j..j + 5];
        }
      }
      r
  }

  /** `resolveFunctionName`: the id cut at `Using`, and `Using<METHOD>`
      put back only when the cut name is a reserved word. */
  function ResolveFunctionName(ext: Externals, functionName: string, methodName: string): (r: string)
    ensures var cut := BeforeUsing(functionName);
      (ext.isReserved(cut) ==> r == cut + "Using" + Upper(methodName))
      && (!ext.isReserved(cut) ==> r == cut && !Contains(r, "Using"))
  {
    var cut := BeforeUsing(functionName);
    if ext.isReserved(cut) then cut + "Using" + Upper(methodName) else cut
  }

  /** A name without `Using` that is not reserved is kept as it is. */
  lemma ResolveFunctionNamePlain(ext: Externals, functionName: string, methodName: string)
    requires !Contains(functionName, "Using") && !ext.isReserved(functionName)
    ensures ResolveFunctionName(ext, functionName, methodName) == functionName
  {
  }

  /** The characters `[^\w^\s^一-龥]` does NOT delete. */
  predicate IsKeptChar(c: char) {
    IsWordChar(c) || c == '^' || IsJsSpace(c) || ('\U{4E00}' <= c <= '\U{9FA5}')
  }

  /** `replace(/[^\w^\s^一-龥]/g, '')`: deletes every character that is
      not kept, and only those. */
  function KeepIdentChars(s: string): (r: string)
    ensures |r| <= |s|
    ensures forall i :: 0 <= i < |r| ==> IsKeptChar(r[i])
    ensures (forall i :: 0 <= i < |s| ==> IsKeptChar(s[i])) ==> r == s
  {
    if s == [] then []
    else if IsKeptChar(s[0]) then [s[0]] + KeepIdentChars(s[1..])
    else KeepIdentChars(s[1..])
  }

  /** One character survives exactly when it is kept. */
  lemma KeepIdentCharsOne(c: char)
    ensures KeepIdentChars([c]) == if IsKeptChar(c) then [c] else []
  {
    assert [c][1..] == [];
  }

  /** The deletion works on each part of the text independently, so the
      kept characters survive in their order. */
  lemma {:induction false} KeepIdentCharsConcat(a: string, b: string)
    ensures KeepIdentChars(a + b) == KeepIdentChars(a) + KeepIdentChars(b)
  {
    if a == [] {
      assert a + b == b;
    } else {
      var c, rest := a[0], a[1..];
      var head := if IsKeptChar(c) then [c] else [];
      calc {
        KeepIdentChars(a + b);
        { assert a + b == [c] + (rest + b); }
        KeepIdentChars([c] + (rest + b));
        { KeepIdentCharsCons(c, rest + b); }
        head + KeepIdentChars(rest + b);
        { KeepIdentCharsConcat(rest, b); }
        head + (KeepIdentChars(rest) + KeepIdentChars(b));
        (head + KeepIdentChars(rest)) + KeepIdentChars(b);
        { assert a == [c] + rest; KeepIdentCharsCons(c, rest); }
        KeepIdentChars(a) + KeepIdentChars(b);
      }
    }
  }

  /** Deleting from a text that starts with `c`. */
  lemma KeepIdentCharsCons(c: char, s: string)
    ensures KeepIdentChars([c] + s) == (if IsKeptChar(c) then [c] else []) + KeepIdentChars(s)
  {
    assert ([c] + s)[0] == c && ([c] + s)[1..] == s;
  }

  /** `/[㈠-﨩]/`: the band whose names go through pinyin. */
  predicate InPinyinBand(c: char) {
    '\U{3220}' <= c <= '\U{FA29}'
  }

  predicate AllDigits(s: string) {
    forall i :: 0 <= i < |s| ==> IsDigit(s[i])
  }

  /** `name.replace(/ +/g, '')`. */
  function RemoveSpaces(s: string): (r: string)
    ensures ' ' !in r
    ensures ' ' !in s ==> r == s
  {
    if s == [] then [] else if s[0] == ' ' then RemoveSpaces(s[1..]) else [s[0]] + RemoveSpaces(s[1..])
  }

  /** One character survives exactly when it is not a space. */
  lemma RemoveSpacesOne(c: char)
    ensures RemoveSpaces([c]) == if c == ' ' then [] else [c]
  {
    assert [c][1..] == [];
  }

  /** Spaces are removed from each part independently, so every other
      character survives, in its order. */
  lemma {:induction false} RemoveSpacesConcat(a: string, b: string)
    ensures RemoveSpaces(a + b) == RemoveSpaces(a) + RemoveSpaces(b)
  {
    if a == [] {
      assert a + b == b;
    } else {
      var c, rest := a[0], a[1..];
      var head := if c == ' ' then [] else [c];
      calc {
        RemoveSpaces(a + b);
        { assert a + b == [c] + (rest + b); }
        RemoveSpaces([c] + (rest + b));
        { RemoveSpacesCons(c, rest + b); }
        head + RemoveSpaces(rest + b);
        { RemoveSpacesConcat(rest, b); }
        head + (RemoveSpaces(rest) + RemoveSpaces(b));
        (head + RemoveSpaces(rest)) + RemoveSpaces(b);
        { assert a == [c] + rest; RemoveSpacesCons(c, rest); }
        RemoveSpaces(a) + RemoveSpaces(b);
      }
    }
  }

  /** Removing spaces from a text that starts with `c`. */
  lemma RemoveSpacesCons(c: char, s: string)
    ensures RemoveSpaces([c] + s) == (if c == ' ' then [] else [c]) + RemoveSpaces(s)
  {
    assert ([c] + s)[0] == c && ([c] + s)[1..] == s;
  }

  /** No path, dot or camel-case separator in the name. */
  predicate NoSeparators(s: string) {
    forall i :: 0 <= i < |s| ==> s[i] !in {'/', '.', '-', '_', ' '}
  }

  /** The name before the pinyin step: last `/`-segment, then its last
      `.`-segment, camel-cased at `-`, `_`, space, stripped of every
      character outside `\w`, `^`, white space and U+4E00-U+9FA5. A name
      without separators only loses the characters that are not kept. */
  function CleanTypeName(typeName: string): (r: string)
    ensures forall i :: 0 <= i < |r| ==> IsKeptChar(r[i])
    ensures NoSeparators(typeName) ==> r == KeepIdentChars(typeName)
  {
    var last := LastSegment(LastSegment(typeName, '/'), '.');
    if NoSeparators(typeName) then
      LastSegmentOfPlain(typeName, '/');
      LastSegmentOfPlain(typeName, '.');
      CamelCasePlain(typeName, {'-', '_', ' '});
      KeepIdentChars(CamelCase(last, {'-', '_', ' '}))
    else
      KeepIdentChars(CamelCase(last, {'-', '_', ' '}))
  }

  /** `resolveTypeName`. */
  function ResolveTypeName(ext: Externals, typeName: string): (r: string)
    ensures ext.isReserved(typeName) ==> r == "__openAPI__" + typeName
  {
    if ext.isReserved(typeName) then "__openAPI__" + typeName
    else
      var name := CleanTypeName(typeName);
      if name == "_" || (name != "" && AllDigits(name)) then "Pinyin_" + name
      else if forall i :: 0 <= i < |name| ==> !InPinyinBand(name[i]) then name
      else ext.toPinyin(RemoveSpaces(name))
  }

  /** Unless the pinyin step runs, a non-reserved name comes out made only
      of word characters, `^` and white space. */
  lemma ResolvedTypeNameChars(ext: Externals, typeName: string)
    requires !ext.isReserved(typeName)
    requires forall i :: 0 <= i < |CleanTypeName(typeName)| ==> !InPinyinBand(CleanTypeName(typeName)[i])
    ensures var r := ResolveTypeName(ext, typeName);
      forall i :: 0 <= i < |r| ==> IsWordChar(r[i]) || r[i] == '^' || IsJsSpace(r[i])
  {
    var name := CleanTypeName(typeName);
    if name == "_" || (name != "" && AllDigits(name)) {
      PinyinPrefixChars(name);
    }
  }

  lemma PinyinPrefixChars(name: string)
    requires name == "_" || AllDigits(name)
    ensures forall i :: 0 <= i < |"Pinyin_" + name| ==> IsWordChar(("Pinyin_" + name)[i])
  {
    var p := "Pinyin_";
    assert p[0] == 'P' && p[1] == 'i' && p[2] == 'n' && p[3] == 'y' && p[4] == 'i' && p[5] == 'n' && p[6] == '_';
    forall i | 0 <= i < |p + name|
      ensures IsWordChar((p + name)[i])
    {
      if i >= |p| {
        assert (p + name)[i] == name[i - |p|];
      }
    }
  }

  /** Only the last path segment of a reference-like name matters. */
  lemma ResolveTypeNameLastSegment(ext: Externals, dir: string, base: string)
    requires '/' !in base
    requires !ext.isReserved(dir + "/" + base) && !ext.isReserved(base)
    ensures ResolveTypeName(ext, dir + "/" + base) == ResolveTypeName(ext, base)
  {
    LastSegmentAfter(dir, base, '/');
    LastSegmentOfPlain(base, '/');
  }

  /** A plain identifier of letters and digits, not all digits and not
      reserved, is its own type name. */
  lemma PlainIdentifierUnchanged(ext: Externals, typeName: string)
    requires !ext.isReserved(typeName)
    requires forall i :: 0 <= i < |typeName| ==> IsWordChar(typeName[i]) && typeName[i] != '_'
    requires !AllDigits(typeName)
    ensures ResolveTypeName(ext, typeName) == typeName
  {
    assert '/' !in typeName && '.' !in typeName;
    LastSegmentOfPlain(typeName, '/');
    LastSegmentOfPlain(typeName, '.');
    CamelCasePlain(typeName, {'-', '_', ' '});
    assert CleanTypeName(typeName) == typeName;
  }

  /** A definition named only by digits gets the `Pinyin_` marker. */
  lemma NumericNameMarked(ext: Externals, typeName: string)
    requires !ext.isReserved(typeName)
    requires typeName != "" && AllDigits(typeName)
    ensures ResolveTypeName(ext, typeName) == "Pinyin_" + typeName
  {
    assert '/' !in typeName && '.' !in typeName;
    LastSegmentOfPlain(typeName, '/');
    LastSegmentOfPlain(typeName, '.');
    CamelCasePlain(typeName, {'-', '_', ' '});
    assert CleanTypeName(typeName) == typeName;
  }
}
