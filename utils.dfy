/** Helpers shared by both parsers (src/utils.ts): the name carried by a
    `#/definitions/`-style reference, first-letter capitalisation and
    first-wins deduplication of records by name. */
module Utils {
  import opened Wrappers
  import opened Text
  import opened Types

  /** The longest run of `\w` characters starting at `j`. */
  function WordRun(s: string, j: nat): (r: string)
    requires j <= |s|
    ensures forall k :: 0 <= k < |r| ==> IsWordChar(r[k])
    ensures j + |r| <= |s| && s[j..j + |r|] == r
    ensures j + |r| == |s| || !IsWordChar(s[j + |r|])
    decreases |s| - j
  {
    if j < |s| && IsWordChar(s[j]) then [s[j]] + WordRun(s, j + 1) else ""
  }

  /** The pattern `<prefix>(\w+)` can start matching at `i`. */
  predicate MatchesAt(s: string, prefix: string, i: nat) {
    OccursAt(s, prefix, i) && i + |prefix| < |s| && IsWordChar(s[i + |prefix|])
  }

  function FirstMatch(s: string, prefix: string, from: nat): (r: Option<nat>)
    ensures r.Some? ==> (from <= r.value && MatchesAt(s, prefix, r.value)
                         && forall j :: from <= j < r.value ==> !MatchesAt(s, prefix, j))
    ensures r.None? ==> forall j :: from <= j ==> !MatchesAt(s, prefix, j)
    decreases |s| + 1 - from
  {
    if from > |s| then None
    else if MatchesAt(s, prefix, from) then Some(from)
    else FirstMatch(s, prefix, from + 1)
  }

  /** `$ref?.match(new RegExp(prefix + '(\\w+).*'))?.[1] || ''`: the word
      run after the leftmost occurrence of `prefix` that is followed by a
      word character; `''` when `$ref` is absent or nothing matches. The
      prefix is taken literally (the only prefix used, `#/definitions/`,
      holds no regular-expression operator). */
  function MatchRefTypeName(prefix: string, ref: Option<string>): (r: string)
    ensures forall k :: 0 <= k < |r| ==> IsWordChar(r[k])
    ensures ref.None? ==> r == ""
  {
    match ref
    case None => ""
    case Some(s) =>
      match FirstMatch(s, prefix, 0)
      case None => ""
      case Some(i) => WordRun(s, i + |prefix|)
  }

  /** What the match yields: a run of word characters, empty exactly
      when no occurrence of the prefix is followed by a word character. */
  lemma MatchRefTypeNameSpec(prefix: string, ref: Option<string>)
    ensures var r := MatchRefTypeName(prefix, ref);
      && (forall k :: 0 <= k < |r| ==> IsWordChar(r[k]))
      && (ref.None? ==> r == "")
      && (ref.Some? ==> (r == "" <==> forall i :: 0 <= i ==> !MatchesAt(ref.value, prefix, i)))
  {
  }

  /** At the leftmost match the name is the maximal word run right after
      the prefix. */
  lemma MatchRefTypeNameAt(prefix: string, s: string, i: nat)
    requires MatchesAt(s, prefix, i)
    requires forall j :: 0 <= j < i ==> !MatchesAt(s, prefix, j)
    ensures var r := MatchRefTypeName(prefix, Some(s));
      && r != ""
      && OccursAt(s, prefix + r, i)
      && (i + |prefix| + |r| == |s| || !IsWordChar(s[i + |prefix| + |r|]))
  {
    var m := FirstMatch(s, prefix, 0);
    assert m.Some? && m.value == i by {
      if m.None? || m.value < i {
        assert false;
      }
    }
    var r := WordRun(s, i + |prefix|);
    OccursThenFollows(s, prefix, r, i);
  }

  lemma OccursThenFollows(s: string, p: string, q: string, i: nat)
    requires OccursAt(s, p, i) && i + |p| + |q| <= |s| && s[i + |p|..i + |p| + |q|] == q
    ensures OccursAt(s, p + q, i)
  {
    assert s[i..i + |p| + |q|] == s[i..i + |p|] + s[i + |p|..i + |p| + |q|];
  }

  /** The maximal word run is determined by where it starts. */
  lemma {:induction false} WordRunIs(s: string, j: nat, w: string)
    requires j + |w| <= |s| && s[j..j + |w|] == w
    requires forall k :: 0 <= k < |w| ==> IsWordChar(w[k])
    requires j + |w| == |s| || !IsWordChar(s[j + |w|])
    ensures WordRun(s, j) == w
    decreases |w|
  {
    if w != [] {
      assert s[j] == w[0];
      WordRunIs(s, j + 1, w[1..]);
    }
  }

  /** Round trip: the name written after the prefix of a canonical
      reference is the name read back. */
  lemma MatchRefOfCanonical(prefix: string, name: string, rest: string)
    requires name != ""
    requires forall k :: 0 <= k < |name| ==> IsWordChar(name[k])
    requires rest == "" || !IsWordChar(rest[0])
    ensures MatchRefTypeName(prefix, Some(prefix + name + rest)) == name
  {
    var s := prefix + name + rest;
    assert s[..|prefix|] == prefix;
    assert MatchesAt(s, prefix, 0);
    assert s[|prefix|..|prefix| + |name|] == name;
    WordRunIs(s, |prefix|, name);
  }

  /** `str.charAt(0).toUpperCase() + str.slice(1)`, for ASCII letters. */
  function ToFirstUpperCase(s: string): (r: string)
    ensures |r| == |s|
    ensures s != "" ==> r[0] == UpperChar(s[0]) && r[1..] == s[1..]
  {
    if s == "" then "" else [UpperChar(s[0])] + s[1..]
  }

  lemma ToFirstUpperCaseIdempotent(s: string)
    ensures ToFirstUpperCase(ToFirstUpperCase(s)) == ToFirstUpperCase(s)
  {
  }

  // ---------------------------------------------------------------------
  // duplicate: keep the first record of each name, in input order.

  /** The names an empty object literal already holds, through
      `Object.prototype`: reading one of them from `{}` gives a truthy
      value (a function, or the prototype itself for `__proto__`), and
      assigning `true` keeps it truthy. */
  predicate Inherited(name: string) {
    name in {"constructor", "__proto__", "hasOwnProperty", "isPrototypeOf", "propertyIsEnumerable",
             "toLocaleString", "toString", "valueOf", "__defineGetter__", "__defineSetter__",
             "__lookupGetter__", "__lookupSetter__"}
  }

  /** `map[name]` is truthy: the name was set, or `{}` inherits it. */
  predicate Seen(seen: set<string>, name: string) {
    name in seen || Inherited(name)
  }

  /** What `duplicate` returns when its `map` has been set at `seen`. */
  function DedupFrom(xs: seq<Interface>, seen: set<string>): seq<Interface> {
    if xs == [] then []
    else if Seen(seen, xs[0].name) then DedupFrom(xs[1..], seen + {xs[0].name})
    else [xs[0]] + DedupFrom(xs[1..], seen + {xs[0].name})
  }

  /** `duplicate` starts from `{}`, whose inherited names read as
      already seen: a record with such a name is never kept. */
  function Dedup(xs: seq<Interface>): seq<Interface> {
    DedupFrom(xs, {})
  }

  /** `interfaces.filter(...)` with the `map` of names already seen,
      updated element by element. */
  method Duplicate(interfaces: seq<Interface>) returns (r: seq<Interface>)
    ensures r == Dedup(interfaces)
  {
    var seen: set<string> := {};
    r := [];
    var i := 0;
    while i < |interfaces|
      invariant 0 <= i <= |interfaces|
      invariant r + DedupFrom(interfaces[i..], seen) == Dedup(interfaces)
    {
      var item := interfaces[i];
      var has := Seen(seen, item.name);
      ghost var before := seen;
      seen := seen + {item.name};
      assert interfaces[i..][0] == item && interfaces[i..][1..] == interfaces[i + 1..];
      if !has {
        assert DedupFrom(interfaces[i..], before) == [item] + DedupFrom(interfaces[i + 1..], seen);
        r := r + [item];
      } else {
        assert DedupFrom(interfaces[i..], before) == DedupFrom(interfaces[i + 1..], seen);
      }
      i := i + 1;
    }
  }

  predicate IsSubsequence<T(==)>(r: seq<T>, xs: seq<T>) {
    if r == [] then true
    else if xs == [] then false
    else if r[0] == xs[0] then IsSubsequence(r[1..], xs[1..])
    else IsSubsequence(r, xs[1..])
  }

  /** The output is the input with some records dropped, order kept. */
  lemma {:induction false} DedupIsSubsequence(xs: seq<Interface>, seen: set<string>)
    ensures IsSubsequence(DedupFrom(xs, seen), xs)
  {
    if xs != [] {
      if Seen(seen, xs[0].name) {
        DedupIsSubsequence(xs[1..], seen + {xs[0].name});
        SubsequenceOfTail(DedupFrom(xs[1..], seen + {xs[0].name}), xs);
      } else {
        DedupIsSubsequence(xs[1..], seen + {xs[0].name});
      }
    }
  }

  lemma {:induction false} SubsequenceOfTail<T>(a: seq<T>, ys: seq<T>)
    requires ys != [] && IsSubsequence(a, ys[1..])
    ensures IsSubsequence(a, ys)
    decreases |ys|, 0
  {
    if a != [] && a[0] == ys[0] {
      SubsequenceDropFront(a, ys[1..]);
    }
  }

  lemma {:induction false} SubsequenceDropFront<T>(r: seq<T>, xs: seq<T>)
    requires r != [] && IsSubsequence(r, xs)
    ensures IsSubsequence(r[1..], xs)
    decreases |xs|, 1
  {
    if r[0] == xs[0] {
      SubsequenceOfTail(r[1..], xs);
    } else {
      SubsequenceDropFront(r, xs[1..]);
      SubsequenceOfTail(r[1..], xs);
    }
  }

  /** No name in the output is one already seen, and no two share a name. */
  lemma {:induction false} DedupDistinct(xs: seq<Interface>, seen: set<string>)
    ensures forall i :: 0 <= i < |DedupFrom(xs, seen)| ==> !Seen(seen, DedupFrom(xs, seen)[i].name)
    ensures forall i, j :: 0 <= i < j < |DedupFrom(xs, seen)| ==>
      DedupFrom(xs, seen)[i].name != DedupFrom(xs, seen)[j].name
  {
    if xs != [] {
      DedupDistinct(xs[1..], seen + {xs[0].name});
    }
  }

  /** Every name of the input that is not already seen survives, carried
      by the record where it first occurs. */
  lemma {:induction false} DedupKeepsFirst(xs: seq<Interface>, seen: set<string>, k: nat)
    requires k < |xs| && !Seen(seen, xs[k].name)
    requires forall j :: 0 <= j < k ==> xs[j].name != xs[k].name
    ensures xs[k] in DedupFrom(xs, seen)
  {
    if k > 0 {
      DedupKeepsFirst(xs[1..], seen + {xs[0].name}, k - 1);
    }
  }

  /** A record kept by `duplicate` is the first of its name in the input. */
  lemma {:induction false} DedupKeptIsFirst(xs: seq<Interface>, seen: set<string>, y: Interface)
    requires y in DedupFrom(xs, seen)
    ensures exists k :: 0 <= k < |xs| && xs[k] == y && forall j :: 0 <= j < k ==> xs[j].name != y.name
  {
    if xs[0] == y {
      assert 0 < |xs| && xs[0] == y;
    } else if Seen(seen, xs[0].name) {
      DedupKeptIsFirst(xs[1..], seen + {xs[0].name}, y);
      var k :| 0 <= k < |xs[1..]| && xs[1..][k] == y && forall j :: 0 <= j < k ==> xs[1..][j].name != y.name;
      DedupDistinct(xs[1..], seen + {xs[0].name});
      assert xs[k + 1] == y;
    } else {
      DedupKeptIsFirst(xs[1..], seen + {xs[0].name}, y);
      var k :| 0 <= k < |xs[1..]| && xs[1..][k] == y && forall j :: 0 <= j < k ==> xs[1..][j].name != y.name;
      DedupDistinct(xs[1..], seen + {xs[0].name});
      assert xs[k + 1] == y;
    }
  }

  /** A list with distinct names is left as it is, so `duplicate` is
      idempotent. */
  lemma {:induction false} DedupOfDistinct(xs: seq<Interface>, seen: set<string>)
    requires forall i :: 0 <= i < |xs| ==> !Seen(seen, xs[i].name)
    requires forall i, j :: 0 <= i < j < |xs| ==> xs[i].name != xs[j].name
    ensures DedupFrom(xs, seen) == xs
  {
    if xs != [] {
      DedupOfDistinct(xs[1..], seen + {xs[0].name});
    }
  }

  lemma DedupIdempotent(xs: seq<Interface>)
    ensures Dedup(Dedup(xs)) == Dedup(xs)
  {
    DedupDistinct(xs, {});
    DedupOfDistinct(Dedup(xs), {});
  }

  /** Name coverage: the output holds exactly the input's names that
      `Object.prototype` does not supply. */
  lemma DedupNames(xs: seq<Interface>)
    ensures NamesOf(Dedup(xs)) == set n | n in NamesOf(xs) && !Inherited(n)
  {
    forall n | n in NamesOf(xs) && !Inherited(n) ensures n in NamesOf(Dedup(xs)) {
      var k := FirstWithName(xs, n);
      DedupKeepsFirst(xs, {}, k);
    }
    forall n | n in NamesOf(Dedup(xs)) ensures n in NamesOf(xs) && !Inherited(n) {
      var i :| 0 <= i < |Dedup(xs)| && Dedup(xs)[i].name == n;
      DedupKeptIsFirst(xs, {}, Dedup(xs)[i]);
      DedupDistinct(xs, {});
    }
  }

  /** Index of the first record named `n`. */
  lemma FirstWithName(xs: seq<Interface>, n: string) returns (k: nat)
    requires n in NamesOf(xs)
    ensures k < |xs| && xs[k].name == n && forall j :: 0 <= j < k ==> xs[j].name != n
  {
    k := 0;
    while xs[k].name != n
      invariant k < |xs|
      invariant forall j :: 0 <= j < k ==> xs[j].name != n
      decreases |xs| - k
    {
      k := k + 1;
      if k == |xs| {
        var i :| 0 <= i < |xs| && xs[i].name == n;
        assert false;
      }
    }
  }
}
