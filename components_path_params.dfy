/** Path templating in the components-shaped parser (src/parser.ts): the
    variables `/\{(\w+)\}/g` finds in an operation's path, and the default
    path parameter added for each one no declared parameter names. */
module ComponentsPathParams {
  import opened Wrappers
  import opened JsonValues
  import opened Text
  import opened Utils

  /** `{<word>}` starts at `i`: a brace, a nonempty run of `\w`
      characters and a closing brace. Since `}` is not a word character,
      backtracking inside `\w+` cannot find a shorter match. */
  predicate IsVarAt(path: string, i: nat) {
    i < |path| && path[i] == '{'
    && var w := WordRun(path, i + 1);
       w != "" && i + 1 + |w| < |path| && path[i + 1 + |w|] == '}'
  }

  /** The word captured by a match at `i`. */
  function VarAt(path: string, i: nat): (r: string)
    requires IsVarAt(path, i)
    ensures r != [] && i + |r| + 2 <= |path|
  {
    WordRun(path, i + 1)
  }

  /** `regex.exec(path)` with `lastIndex == from`: the leftmost match
      at or after `from`. */
  function Exec(path: string, from: nat): (r: Option<nat>)
    ensures r.Some? ==> from <= r.value && IsVarAt(path, r.value)
    decreases |path| - from
  {
    if from >= |path| then None
    else if IsVarAt(path, from) then Some(from)
    else Exec(path, from + 1)
  }

  /** The match `exec` returns is the leftmost one. */
  lemma {:induction false} ExecLeftmost(path: string, from: nat)
    ensures var r := Exec(path, from);
            && (r.Some? ==> forall j :: from <= j < r.value ==> !IsVarAt(path, j))
            && (r.None? ==> forall j :: from <= j ==> !IsVarAt(path, j))
    decreases |path| - from
  {
    if from < |path| && !IsVarAt(path, from) {
      ExecLeftmost(path, from + 1);
    }
  }

  /** The captured words of all successive matches from `from` on, each
      search resuming after the previous match. */
  function PathVariables(path: string, from: nat): seq<string>
    decreases |path| - from
  {
    if from >= |path| then []
    else if IsVarAt(path, from) then [VarAt(path, from)] + PathVariables(path, from + |VarAt(path, from)| + 2)
    else PathVariables(path, from + 1)
  }

  /** One step of the `while` loop: the remaining words are those after
      the match `exec` returns, or none when it returns null. */
  lemma {:induction false} PathVariablesExec(path: string, from: nat)
    ensures Exec(path, from).None? ==> PathVariables(path, from) == []
    ensures Exec(path, from).Some? ==>
              var i := Exec(path, from).value;
              PathVariables(path, from) == [VarAt(path, i)] + PathVariables(path, i + |VarAt(path, i)| + 2)
    decreases |path| - from
  {
    if from >= |path| {
      assert Exec(path, from).None? && PathVariables(path, from) == [];
    } else if IsVarAt(path, from) {
      assert Exec(path, from) == Some(from);
    } else {
      assert Exec(path, from) == Exec(path, from + 1);
      assert PathVariables(path, from) == PathVariables(path, from + 1);
      PathVariablesExec(path, from + 1);
    }
  }

  /** `w` is a nonempty word written between braces somewhere in `path`. */
  predicate InBraces(path: string, w: string) {
    w != "" && (forall k :: 0 <= k < |w| ==> IsWordChar(w[k])) && Contains(path, "{" + w + "}")
  }

  lemma VarAtOccurs(path: string, i: nat)
    requires IsVarAt(path, i)
    ensures InBraces(path, VarAt(path, i))
  {
    var w := VarAt(path, i);
    assert path[i..i + |w| + 2] == "{" + w + "}";
    assert OccursAt(path, "{" + w + "}", i);
  }

  /** Every variable found is a nonempty word written between braces in
      the path. */
  lemma {:induction false} PathVariablesSound(path: string, from: nat)
    ensures forall w :: w in PathVariables(path, from) ==> InBraces(path, w)
    decreases |path| - from
  {
    if from < |path| {
      if IsVarAt(path, from) {
        var w := VarAt(path, from);
        VarAtOccurs(path, from);
        PathVariablesSound(path, from + |w| + 2);
      } else {
        PathVariablesSound(path, from + 1);
      }
    }
  }

  /** No match is skipped: the characters a match consumes after its
      opening brace are word characters and `}`, never a `{`. */
  lemma {:induction false} PathVariablesComplete(path: string, from: nat, j: nat)
    requires from <= j && IsVarAt(path, j)
    ensures VarAt(path, j) in PathVariables(path, from)
    decreases |path| - from
  {
    if from < j {
      if IsVarAt(path, from) {
        var w := VarAt(path, from);
        if j < from + |w| + 2 {
          assert false;
        }
        PathVariablesComplete(path, from + |w| + 2, j);
      } else {
        PathVariablesComplete(path, from + 1, j);
      }
    }
  }

  // ---------------------------------------------------------------------
  // implicit path parameters

  /** `{...DEFAULT_PATH_PARAM, name: w}`: a required string parameter. */
  function DefaultPathParam(w: string): Json {
    JObj([Member("in", JStr("path")), Member("name", JStr(w)),
          Member("schema", JObj([Member("type", JStr("string"))])),
          Member("required", JBool(true)), Member("isObject", JBool(false)),
          Member("type", JStr("string"))])
  }

  /** `params.some((p) => p.name === w)`. */
  predicate HasName(ps: seq<Json>, w: string) {
    exists i :: 0 <= i < |ps| && Lookup(ps[i], "name") == Some(JStr(w))
  }

  /** The body of the loop: a default parameter for `w` unless one
      already carries that name. */
  function Push(ps: seq<Json>, w: string): seq<Json> {
    if HasName(ps, w) then ps else ps + [DefaultPathParam(w)]
  }

  /** The path parameters after the loop has seen `vars`. */
  function AddImplicit(ps: seq<Json>, vars: seq<string>): seq<Json>
    decreases |vars|
  {
    if vars == [] then ps else AddImplicit(Push(ps, vars[0]), vars[1..])
  }

  lemma DefaultPathParamFields(w: string)
    ensures Lookup(DefaultPathParam(w), "name") == Some(JStr(w))
    ensures Lookup(DefaultPathParam(w), "required") == Some(JBool(true))
    ensures Lookup(DefaultPathParam(w), "schema") == Some(JObj([Member("type", JStr("string"))]))
  {
    var ms := DefaultPathParam(w).members;
    assert ms[1..][1..] == ms[2..] && ms[2..][1..] == ms[3..];
    assert FindMember(ms, "name") == FindMember(ms[1..], "name");
    assert FindMember(ms, "schema") == FindMember(ms[1..], "schema") == FindMember(ms[2..], "schema");
    assert FindMember(ms, "required") == FindMember(ms[1..], "required") == FindMember(ms[2..], "required")
        == FindMember(ms[3..], "required");
  }

  lemma HasNameGrows(ps: seq<Json>, more: seq<Json>, w: string)
    requires HasName(ps, w)
    ensures HasName(ps + more, w)
  {
    var i :| 0 <= i < |ps| && Lookup(ps[i], "name") == Some(JStr(w));
    assert (ps + more)[i] == ps[i];
  }

  lemma HasNamePush(ps: seq<Json>, v: string, w: string)
    ensures HasName(ps, w) ==> HasName(Push(ps, v), w)
  {
    if HasName(ps, w) && !HasName(ps, v) {
      HasNameGrows(ps, [DefaultPathParam(v)], w);
    }
  }

  lemma HasNameDefault(ps: seq<Json>, w: string)
    ensures HasName(ps + [DefaultPathParam(w)], w)
  {
    DefaultPathParamFields(w);
    assert (ps + [DefaultPathParam(w)])[|ps|] == DefaultPathParam(w);
  }

  /** The declared parameters stay first, in their order. */
  lemma {:induction false} ImplicitKeepsDeclared(ps: seq<Json>, vars: seq<string>)
    decreases |vars|
    ensures ps <= AddImplicit(ps, vars)
  {
    if vars != [] {
      var next := Push(ps, vars[0]);
      ImplicitKeepsDeclared(next, vars[1..]);
    }
  }

  /** Every variable of the path has a parameter of its name afterwards. */
  lemma {:induction false} ImplicitCovers(ps: seq<Json>, vars: seq<string>)
    decreases |vars|
    ensures forall w :: w in vars ==> HasName(AddImplicit(ps, vars), w)
  {
    if vars != [] {
      var next := Push(ps, vars[0]);
      if !HasName(ps, vars[0]) {
        HasNameDefault(ps, vars[0]);
      }
      ImplicitCovers(next, vars[1..]);
      ImplicitKeepsDeclared(next, vars[1..]);
      var r := AddImplicit(next, vars[1..]);
      assert r == AddImplicit(ps, vars);
      HasNameGrows(next, r[|next|..], vars[0]);
      assert next + r[|next|..] == r;
      assert forall w :: w in vars ==> w == vars[0] || w in vars[1..];
    }
  }

  /** Only defaults are added, each for a variable of the path that no
      declared parameter names. */
  lemma {:induction false} ImplicitAddsDefaults(ps: seq<Json>, vars: seq<string>)
    ensures var r := AddImplicit(ps, vars);
            forall i :: |ps| <= i < |r| ==> exists w :: w in vars && !HasName(ps, w) && r[i] == DefaultPathParam(w)
    decreases |vars|
  {
    ImplicitKeepsDeclared(ps, vars);
    if vars != [] {
      var v := vars[0];
      var next := Push(ps, v);
      ImplicitAddsDefaults(next, vars[1..]);
      ImplicitKeepsDeclared(next, vars[1..]);
      var r := AddImplicit(next, vars[1..]);
      forall i | |ps| <= i < |r|
        ensures exists w :: w in vars && !HasName(ps, w) && r[i] == DefaultPathParam(w)
      {
        if i < |next| {
          assert next == ps + [DefaultPathParam(v)];
          assert r[i] == next[i] == DefaultPathParam(v);
          assert v in vars;
        } else {
          assert |next| <= i < |r|;
          var w :| w in vars[1..] && !HasName(next, w) && r[i] == DefaultPathParam(w);
          assert w in vars;
          HasNamePush(ps, v, w);
        }
      }
    }
  }

  /** No variable gets two defaults. */
  lemma {:induction false} ImplicitAddsOnce(ps: seq<Json>, vars: seq<string>)
    ensures var r := AddImplicit(ps, vars);
            forall i, j :: |ps| <= i < j < |r| ==> r[i] != r[j]
    decreases |vars|
  {
    if vars != [] {
      var v := vars[0];
      var next := Push(ps, v);
      ImplicitAddsOnce(next, vars[1..]);
      if !HasName(ps, v) {
        ImplicitAddsDefaults(next, vars[1..]);
        ImplicitKeepsDeclared(next, vars[1..]);
        var r := AddImplicit(next, vars[1..]);
        forall j | |next| <= j < |r|
          ensures r[j] != r[|ps|]
        {
          var w :| w in vars[1..] && !HasName(next, w) && r[j] == DefaultPathParam(w);
          HasNameDefault(ps, v);
          DefaultPathParamFields(w);
          DefaultPathParamFields(v);
          assert r[|ps|] == next[|ps|] == DefaultPathParam(v);
        }
      }
    }
  }

  lemma AddImplicitCons(ps: seq<Json>, w: string, rest: seq<string>)
    ensures AddImplicit(ps, [w] + rest) == AddImplicit(Push(ps, w), rest)
  {
    assert ([w] + rest)[0] == w && ([w] + rest)[1..] == rest;
  }

  /** `regex.exec(path)` as the loop below calls it: the captured word
      and the new `lastIndex`, or null when no match remains. */
  method ExecRegex(path: string, lastIndex: nat) returns (found: Option<(string, nat)>)
    requires lastIndex <= |path|
    ensures found.None? ==> PathVariables(path, lastIndex) == []
    ensures found.Some? ==> lastIndex < found.value.1 <= |path|
                            && PathVariables(path, lastIndex) == [found.value.0] + PathVariables(path, found.value.1)
  {
    PathVariablesExec(path, lastIndex);
    var m := Exec(path, lastIndex);
    if m.None? {
      found := None;
    } else {
      var w := VarAt(path, m.value);
      found := Some((w, m.value + |w| + 2));
    }
  }

  /** The `while ((match = regex.exec(path)))` loop: pushes a default
      parameter for each variable not yet named. */
  method AddPathDefaults(declared: seq<Json>, path: string) returns (params: seq<Json>)
    ensures params == AddImplicit(declared, PathVariables(path, 0))
  {
    ghost var target := AddImplicit(declared, PathVariables(path, 0));
    params := declared;
    var lastIndex := 0;
    while true
      invariant lastIndex <= |path|
      invariant AddImplicit(params, PathVariables(path, lastIndex)) == target
      decreases |path| - lastIndex
    {
      var found := ExecRegex(path, lastIndex);
      if found.None? {
        return;
      }
      var (w, next) := found.value;
      AddImplicitCons(params, w, PathVariables(path, next));
      params := Push(params, w);
      lastIndex := next;
    }
  }
}
