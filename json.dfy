/** A parsed JSON document, and the handful of JavaScript operations the
    engine performs on such values: own-property lookup, `Object.keys`,
    truthiness, `String(...)` and strict equality against a string. */
module JsonValues {
  import opened Wrappers

  datatype Json =
    | JNull
    | JBool(b: bool)
    | JNum(n: int)
    | JStr(s: string)
    | JArr(items: seq<Json>)
    | JObj(members: seq<Member>)    // key order as written in the document

  datatype Member = Member(key: string, value: Json)

  /** Number of nodes; the measure for walking down a document. */
  function Size(j: Json): (r: nat)
    ensures r >= 1
  {
    match j
    case JArr(items) => 1 + ItemsSize(items)
    case JObj(ms) => 1 + MembersSize(ms)
    case _ => 1
  }

  function ItemsSize(items: seq<Json>): nat {
    if items == [] then 0 else Size(items[0]) + ItemsSize(items[1..])
  }

  function MembersSize(ms: seq<Member>): nat {
    if ms == [] then 0 else Size(ms[0].value) + MembersSize(ms[1..])
  }

  lemma {:induction false} ItemSmaller(items: seq<Json>, i: nat)
    requires i < |items|
    ensures Size(items[i]) <= ItemsSize(items)
  {
    if i > 0 { ItemSmaller(items[1..], i - 1); }
  }

  predicate IsDecimal(s: string) {
    forall i :: 0 <= i < |s| ==> '0' <= s[i] <= '9'
  }

  /** Decimal digits of a natural number, as JavaScript prints it: the
      digits of its predecessor, counted up by one. */
  function NatToString(n: nat): (r: string)
    ensures |r| > 0 && IsDecimal(r)
  {
    if n == 0 then "0" else Increment(NatToString(n - 1))
  }

  /** One more, in decimal: trailing nines roll over to zeros. */
  function Increment(s: string): (r: string)
    requires IsDecimal(s)
    ensures |r| > 0 && IsDecimal(r)
  {
    if s == [] then "1"
    else if s[|s| - 1] == '9' then Increment(s[..|s| - 1]) + "0"
    else s[..|s| - 1] + [(s[|s| - 1] as int + 1) as char]
  }

  function IntToString(n: int): string {
    if n < 0 then "-" + NatToString(-n) else NatToString(n)
  }

  /** The value of the first member named `k`. */
  function FindMember(ms: seq<Member>, k: string): (r: Option<Json>)
    ensures r.Some? ==> Size(r.value) <= MembersSize(ms)
  {
    if ms == [] then None
    else if ms[0].key == k then Some(ms[0].value)
    else FindMember(ms[1..], k)
  }

  /** A member is found exactly when some member carries the key. */
  lemma {:induction false} FindMemberFound(ms: seq<Member>, k: string)
    ensures FindMember(ms, k).Some? <==> exists i :: 0 <= i < |ms| && ms[i].key == k
  {
    if ms != [] && ms[0].key != k {
      FindMemberFound(ms[1..], k);
      assert forall i :: 1 <= i < |ms| ==> ms[i] == ms[1..][i - 1];
    }
  }

  /** Index `i` prints as `k`. */
  predicate IndexKey(i: nat, k: string) {
    NatToString(i) == k
  }

  /** The element whose decimal index, printed, is `k` (array `a["3"]`). */
  function FindIndex(items: seq<Json>, k: string, from: nat): (r: Option<Json>)
    requires from <= |items|
    ensures r.Some? ==> Size(r.value) <= ItemsSize(items)
    decreases |items| - from
  {
    if from == |items| then None
    else if IndexKey(from, k) then (ItemSmaller(items, from); Some(items[from]))
    else FindIndex(items, k, from + 1)
  }

  /** An element is found exactly when some index from `from` on prints
      as the key. */
  lemma {:induction false} FindIndexFound(items: seq<Json>, k: string, from: nat)
    requires from <= |items|
    ensures FindIndex(items, k, from).Some? <==> exists i {:trigger IndexKey(i, k)} :: from <= i < |items| && IndexKey(i, k)
  {
    if FindIndex(items, k, from).Some? {
      FindIndexSound(items, k, from);
    }
    if exists i {:trigger IndexKey(i, k)} :: from <= i < |items| && IndexKey(i, k) {
      var i :| from <= i < |items| && IndexKey(i, k);
      FindIndexComplete(items, k, from, i);
    }
  }

  /** What the search finds sits at an index that prints as the key. */
  lemma {:induction false} FindIndexSound(items: seq<Json>, k: string, from: nat)
    requires from <= |items| && FindIndex(items, k, from).Some?
    ensures exists i {:trigger IndexKey(i, k)} :: from <= i < |items| && IndexKey(i, k)
    decreases |items| - from
  {
    if IndexKey(from, k) {
      assert from <= from < |items| && IndexKey(from, k);
    } else {
      FindIndexSound(items, k, from + 1);
      var i :| from + 1 <= i < |items| && IndexKey(i, k);
      assert from <= i < |items| && IndexKey(i, k);
    }
  }

  /** An index at or after `from` that prints as the key is found. */
  lemma {:induction false} FindIndexComplete(items: seq<Json>, k: string, from: nat, i: nat)
    requires from <= i < |items| && IndexKey(i, k)
    ensures FindIndex(items, k, from).Some?
    decreases i - from
  {
    if !IndexKey(from, k) {
      FindIndexComplete(items, k, from + 1, i);
    }
  }

  /** `Object.keys(v)`: member names of an object, indices of an array,
      nothing for other values. */
  function ObjectKeys(v: Json): (r: seq<string>)
    ensures v.JObj? ==> |r| == |v.members| && forall i :: 0 <= i < |r| ==> r[i] == v.members[i].key
    ensures v.JArr? ==> |r| == |v.items| && forall i :: 0 <= i < |r| ==> r[i] == NatToString(i)
    ensures !v.JObj? && !v.JArr? ==> r == []
  {
    match v
    case JObj(ms) => seq(|ms|, i requires 0 <= i < |ms| => ms[i].key)
    case JArr(items) => seq(|items|, i requires 0 <= i < |items| => NatToString(i))
    case _ => []
  }

  /** An own property read `v[k]`; `None` stands for `undefined`. */
  function Lookup(v: Json, k: string): (r: Option<Json>)
    ensures r.Some? ==> Size(r.value) < Size(v)
  {
    match v
    case JObj(ms) => FindMember(ms, k)
    case JArr(items) => FindIndex(items, k, 0)
    case _ => None
  }

  /** A property is found exactly when `Object.keys` lists its key. */
  lemma LookupKey(v: Json, k: string)
    ensures Lookup(v, k).Some? <==> k in ObjectKeys(v)
  {
    match v
    case JObj(ms) =>
      FindMemberFound(ms, k);
      var keys := ObjectKeys(v);
      if FindMember(ms, k).Some? {
        var i :| 0 <= i < |ms| && ms[i].key == k;
        assert keys[i] == k;
      }
      if k in keys {
        var i :| 0 <= i < |keys| && keys[i] == k;
        assert 0 <= i < |ms| && ms[i].key == k;
        assert FindMember(ms, k).Some?;
      }
    case JArr(items) =>
      FindIndexFound(items, k, 0);
      var keys := ObjectKeys(v);
      if FindIndex(items, k, 0).Some? {
        var i :| 0 <= i < |items| && IndexKey(i, k);
        assert keys[i] == k;
      }
      if k in keys {
        var i :| 0 <= i < |keys| && keys[i] == k;
        assert 0 <= i < |items| && IndexKey(i, k);
      }
    case _ =>
  }

  /** `v[k]` where `v` may itself be undefined: a read on `undefined` or
      `null` is a TypeError. */
  function Prop(v: Option<Json>, k: string): (r: Result<Option<Json>>)
    ensures r.Failure? <==> v.None? || v == Some(JNull)
    ensures r.Ok? && r.value.Some? ==> Size(r.value.value) < Size(v.value)
  {
    match v
    case None => Failure(TypeError)
    case Some(JNull) => Failure(TypeError)
    case Some(j) => Ok(Lookup(j, k))
  }

  /** `v?.[k]`: optional chaining, `undefined` on null or undefined. */
  function Member?(v: Option<Json>, k: string): (r: Option<Json>)
    ensures r.Some? ==> v.Some? && Size(r.value) < Size(v.value)
  {
    match v
    case Some(j) => Lookup(j, k)
    case None => None
  }

  /** JavaScript truthiness. */
  predicate Truthy(v: Option<Json>) {
    match v
    case None => false
    case Some(JNull) => false
    case Some(JBool(b)) => b
    case Some(JNum(n)) => n != 0
    case Some(JStr(s)) => s != ""
    case Some(_) => true
  }

  /** `a || b` on possibly-undefined values. */
  function Or(a: Option<Json>, b: Option<Json>): (r: Option<Json>)
    ensures Truthy(a) ==> r == a
    ensures !Truthy(a) ==> r == b
  {
    if Truthy(a) then a else b
  }

  /** `v === s` for a string literal `s`. */
  predicate IsString(v: Option<Json>, s: string) {
    v == Some(JStr(s))
  }

  /** `typeof v === 'object'` (true for null and arrays too). */
  predicate IsObjectType(v: Option<Json>) {
    v.Some? && (v.value.JNull? || v.value.JArr? || v.value.JObj?)
  }

  /** `String(v)`, as template literals and `Array.prototype.join` use it. */
  function ToJsString(v: Option<Json>): string {
    match v
    case None => "undefined"
    case Some(j) => JsonToString(j)
  }

  function JsonToString(j: Json): string {
    match j
    case JNull => "null"
    case JBool(b) => if b then "true" else "false"
    case JNum(n) => IntToString(n)
    case JStr(s) => s
    case JArr(items) => JoinItems(items)
    case JObj(_) => "[object Object]"
  }

  /** `items.join(',')`: null elements print as nothing. */
  function JoinItems(items: seq<Json>): string {
    if items == [] then ""
    else
      var head := if items[0].JNull? then "" else JsonToString(items[0]);
      if |items| == 1 then head else head + "," + JoinItems(items[1..])
  }

  /** `obj[k] = val` on an object: an existing key keeps its place,
      a new key goes last. */
  function SetMember(ms: seq<Member>, k: string, val: Json): (r: seq<Member>)
    ensures FindMember(r, k) == Some(val)
    ensures forall k' :: k' != k ==> FindMember(r, k') == FindMember(ms, k')
  {
    if ms == [] then [Member(k, val)]
    else if ms[0].key == k then [Member(k, val)] + ms[1..]
    else [ms[0]] + SetMember(ms[1..], k, val)
  }

  /** Same, on a value that is an object; other values are left alone. */
  function Assign(v: Json, k: string, val: Json): (r: Json)
    ensures v.JObj? ==> r.JObj? && Lookup(r, k) == Some(val)
    ensures forall k' :: k' != k ==> Lookup(r, k') == Lookup(v, k')
  {
    if v.JObj? then JObj(SetMember(v.members, k, val)) else v
  }

  /** Assigning the same value twice is assigning it once. */
  lemma {:induction false} SetMemberTwice(ms: seq<Member>, k: string, val: Json)
    ensures SetMember(SetMember(ms, k, val), k, val) == SetMember(ms, k, val)
  {
    if ms != [] && ms[0].key != k {
      SetMemberTwice(ms[1..], k, val);
      var r := SetMember(ms, k, val);
      assert r == [ms[0]] + SetMember(ms[1..], k, val);
      assert r[1..] == SetMember(ms[1..], k, val);
    }
  }

  lemma AssignTwice(v: Json, k: string, val: Json)
    ensures Assign(Assign(v, k, val), k, val) == Assign(v, k, val)
  {
    if v.JObj? {
      SetMemberTwice(v.members, k, val);
    }
  }

  /** An array has no member whose name does not start with a digit. */
  lemma NamedKeyOfArray(v: Json, k: string)
    requires k != [] && !('0' <= k[0] <= '9')
    ensures v.JArr? ==> Lookup(v, k) == None
  {
    if v.JArr? {
      FindIndexFound(v.items, k, 0);
    }
  }

  /** Members with the same names, in the same order, have the same keys. */
  lemma SameKeys(a: seq<Member>, b: seq<Member>)
    requires |a| == |b| && forall i :: 0 <= i < |a| ==> a[i].key == b[i].key
    ensures ObjectKeys(JObj(a)) == ObjectKeys(JObj(b))
  {
  }
}
