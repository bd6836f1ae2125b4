/** `resolveRefObject` of the components-shaped parser (src/parser.ts:223-250):
    a `$ref` whose first `/`-segment is `#` is walked through the document
    one segment at a time (no `~0`/`~1` unescaping, no percent-decoding),
    and the reference reads as its target with `type` and `description`
    overridden. A chain of references that comes back to an object it has
    already left recurses without end; the model reports that as
    `StackOverflow`. */
module ComponentsPointer {
  import opened Wrappers
  import opened JsonValues
  import opened Text

  /** Every value inside `v`, `v` first. */
  function Nodes(v: Json): (r: seq<Json>)
    ensures |r| > 0 && r[0] == v
    decreases Size(v), 0
  {
    [v] + match v
      case JArr(items) => ItemNodes(items)
      case JObj(ms) => MemberNodes(ms)
      case _ => []
  }

  function ItemNodes(items: seq<Json>): seq<Json>
    decreases ItemsSize(items), 1
  {
    if items == [] then [] else Nodes(items[0]) + ItemNodes(items[1..])
  }

  function MemberNodes(ms: seq<Member>): seq<Json>
    decreases MembersSize(ms), 1
  {
    if ms == [] then [] else Nodes(ms[0].value) + MemberNodes(ms[1..])
  }

  /** `a` lists nothing `b` does not. */
  predicate Within(a: seq<Json>, b: seq<Json>) {
    forall u :: u in a ==> u in b
  }

  lemma {:induction false} ItemNodesHold(items: seq<Json>, i: nat)
    requires i < |items|
    ensures Within(Nodes(items[i]), ItemNodes(items))
  {
    if i > 0 {
      ItemNodesHold(items[1..], i - 1);
    }
  }

  lemma {:induction false} MemberNodesHold(ms: seq<Member>, i: nat)
    requires i < |ms|
    ensures Within(Nodes(ms[i].value), MemberNodes(ms))
  {
    if i > 0 {
      MemberNodesHold(ms[1..], i - 1);
    }
  }

  /** What lies inside a node of `v` lies inside `v`. */
  lemma {:induction false} NodesClosed(v: Json, w: Json)
    requires w in Nodes(v)
    ensures Within(Nodes(w), Nodes(v))
    decreases Size(v), 0
  {
    if w != v {
      match v
      case JArr(items) => ItemNodesClosed(items, w);
      case JObj(ms) => MemberNodesClosed(ms, w);
    }
  }

  lemma {:induction false} ItemNodesClosed(items: seq<Json>, w: Json)
    requires w in ItemNodes(items)
    ensures Within(Nodes(w), ItemNodes(items))
    decreases ItemsSize(items), 1
  {
    if w in Nodes(items[0]) {
      NodesClosed(items[0], w);
    } else {
      ItemNodesClosed(items[1..], w);
    }
  }

  lemma {:induction false} MemberNodesClosed(ms: seq<Member>, w: Json)
    requires w in MemberNodes(ms)
    ensures Within(Nodes(w), MemberNodes(ms))
    decreases MembersSize(ms), 1
  {
    if w in Nodes(ms[0].value) {
      NodesClosed(ms[0].value, w);
    } else {
      MemberNodesClosed(ms[1..], w);
    }
  }

  lemma {:induction false} FindMemberInNodes(ms: seq<Member>, k: string)
    requires FindMember(ms, k).Some?
    ensures FindMember(ms, k).value in MemberNodes(ms)
  {
    if ms[0].key != k {
      FindMemberInNodes(ms[1..], k);
    }
  }

  lemma {:induction false} FindIndexInNodes(items: seq<Json>, k: string, from: nat)
    requires from <= |items| && FindIndex(items, k, from).Some?
    ensures FindIndex(items, k, from).value in ItemNodes(items)
    decreases |items| - from
  {
    if IndexKey(from, k) {
      ItemNodesHold(items, from);
    } else {
      FindIndexInNodes(items, k, from + 1);
    }
  }

  /** A property read lands on a node of the value read. */
  lemma LookupInNodes(v: Json, k: string)
    requires Lookup(v, k).Some?
    ensures Lookup(v, k).value in Nodes(v)
  {
    match v
    case JObj(ms) => FindMemberInNodes(ms, k);
    case JArr(items) => FindIndexInNodes(items, k, 0);
  }

  /** `obj = obj[node]` for each segment in turn; a read on `null` or
      `undefined` is a TypeError. */
  function Walk(v: Option<Json>, nodes: seq<string>): Result<Option<Json>>
    decreases |nodes|
  {
    if nodes == [] then Ok(v)
    else
      var next :- Prop(v, nodes[0]);
      Walk(next, nodes[1..])
  }

  /** Whatever a walk from a node of `doc` reaches is a node of `doc`. */
  lemma {:induction false} WalkInNodes(doc: Json, v: Option<Json>, nodes: seq<string>)
    requires v.Some? && v.value in Nodes(doc)
    ensures Walk(v, nodes).Ok? && Walk(v, nodes).value.Some? ==> Walk(v, nodes).value.value in Nodes(doc)
    decreases |nodes|
  {
    if nodes != [] {
      var next := Prop(v, nodes[0]);
      if next.Ok? && next.value.Some? {
        LookupInNodes(v.value, nodes[0]);
        NodesClosed(doc, v.value);
        WalkInNodes(doc, next.value, nodes[1..]);
      }
    }
  }

  /** How many entries of `list` are not in `seen`. */
  ghost function Unvisited(list: seq<Json>, seen: set<Json>): nat {
    if list == [] then 0 else (if list[0] in seen then 0 else 1) + Unvisited(list[1..], seen)
  }

  lemma {:induction false} UnvisitedShrinks(list: seq<Json>, seen: set<Json>, more: set<Json>)
    requires seen <= more
    ensures Unvisited(list, more) <= Unvisited(list, seen)
  {
    if list != [] {
      UnvisitedShrinks(list[1..], seen, more);
    }
  }

  lemma {:induction false} UnvisitedDrops(list: seq<Json>, seen: set<Json>, x: Json)
    requires x in list && x !in seen
    ensures Unvisited(list, seen + {x}) < Unvisited(list, seen)
  {
    if list[0] == x {
      UnvisitedShrinks(list[1..], seen, seen + {x});
    } else {
      UnvisitedDrops(list[1..], seen, x);
    }
  }

  /** Entering one more object leaves no more nodes unvisited, and one
      fewer when it is a node of the document. */
  lemma VisitStep(doc: Json, visited: set<Json>, cur: Json)
    requires cur !in visited
    ensures Unvisited(Nodes(doc), visited + {cur}) <= Unvisited(Nodes(doc), visited)
    ensures cur in Nodes(doc) ==> Unvisited(Nodes(doc), visited + {cur}) < Unvisited(Nodes(doc), visited)
  {
    UnvisitedShrinks(Nodes(doc), visited, visited + {cur});
    if cur in Nodes(doc) {
      UnvisitedDrops(Nodes(doc), visited, cur);
    }
  }

  /** The `type` of a node is a node. */
  lemma TypeOfNode(doc: Json, v: Json)
    requires v in Nodes(doc)
    ensures Lookup(v, "type").Some? ==> Lookup(v, "type").value in Nodes(doc)
  {
    if Lookup(v, "type").Some? {
      LookupInNodes(v, "type");
      NodesClosed(doc, v);
    }
  }

  /** `{...v}`: the own enumerable members a spread copies. */
  function Spread(v: Option<Json>): seq<Member> {
    match v
    case Some(JObj(ms)) => ms
    case Some(JArr(items)) => seq(|items|, i requires 0 <= i < |items| => Member(NatToString(i), items[i]))
    case Some(JStr(s)) => seq(|s|, i requires 0 <= i < |s| => Member(NatToString(i), JStr([s[i]])))
    case _ => []
  }

  /** The members without any named `k`. */
  function Remove(ms: seq<Member>, k: string): (r: seq<Member>)
    ensures FindMember(r, k).None?
    ensures forall k' :: k' != k ==> FindMember(r, k') == FindMember(ms, k')
  {
    if ms == [] then []
    else if ms[0].key == k then Remove(ms[1..], k)
    else [ms[0]] + Remove(ms[1..], k)
  }

  /** `{...ms, k: v}`; a key set to `undefined` reads as absent. */
  function Put(ms: seq<Member>, k: string, v: Option<Json>): (r: seq<Member>)
    ensures FindMember(r, k) == v
    ensures forall k' :: k' != k ==> FindMember(r, k') == FindMember(ms, k')
  {
    if v.Some? then SetMember(ms, k, v.value) else Remove(ms, k)
  }

  /** The resolved value's `type` is a node of the document, or absent. */
  predicate TypeInDoc(doc: Json, v: Option<Json>) {
    v.Some? && (Lookup(v.value, "type").Some? ==> Lookup(v.value, "type").value in Nodes(doc))
  }

  /** The merge of a resolved target keeps a `type` from the document:
      the target itself, or the `type` its own resolution carries. */
  lemma MergedTypeInDoc(doc: Json, obj: Json, inner: Option<Json>, typeVal: Option<Json>, description: Option<Json>)
    requires obj in Nodes(doc)
    requires inner == Some(obj) || TypeInDoc(doc, inner)
    requires typeVal == if Truthy(Lookup(obj, "$ref")) then Member?(inner, "type") else Some(obj)
    ensures TypeInDoc(doc, Some(JObj(Put(Put(Spread(inner), "type", typeVal), "description", description))))
  {
    var merged := Put(Put(Spread(inner), "type", typeVal), "description", description);
    assert Lookup(JObj(merged), "type") == typeVal;
    if typeVal.Some? && Truthy(Lookup(obj, "$ref")) {
      if inner == Some(obj) {
        TypeOfNode(doc, obj);
      }
    }
  }

  /** `resolveRefObject(refObject)`, inside calls that are already
      resolving the objects in `visited`. */
  function ResolveRef(doc: Json, refObject: Option<Json>, visited: set<Json>): (r: Result<Option<Json>>)
    requires refObject.Some? ==> refObject.value !in visited
    ensures !Truthy(refObject) || !Truthy(Lookup(refObject.value, "$ref")) ==> r == Ok(refObject)
    ensures r.Ok? ==> r.value == refObject || TypeInDoc(doc, r.value)
    decreases Unvisited(Nodes(doc), visited), if refObject.Some? && refObject.value in Nodes(doc) then 0 else 1
  {
    if !Truthy(refObject) then Ok(refObject)
    else
      var cur := refObject.value;
      var ref := Lookup(cur, "$ref");
      if !Truthy(ref) then Ok(refObject)
      else if !ref.value.JStr? then Failure(TypeError)          // `.split` is not a function
      else if Split(ref.value.s, '/')[0] != "#" then Ok(refObject)
      else
        var obj :- Walk(Some(doc), Split(ref.value.s, '/')[1..]);
        if !Truthy(obj) then Failure(NotFound(ref.value.s))
        else if obj.value in visited + {cur} then Failure(StackOverflow)
        else
          WalkInNodes(doc, Some(doc), Split(ref.value.s, '/')[1..]);
          VisitStep(doc, visited, cur);
          var inner :- ResolveRef(doc, obj, visited + {cur});
          var typeVal := if Truthy(Lookup(obj.value, "$ref")) then Member?(inner, "type") else obj;
          MergedTypeInDoc(doc, obj.value, inner, typeVal, Lookup(cur, "description"));
          var merged := Put(Put(Spread(inner), "type", typeVal), "description", Lookup(cur, "description"));
          Ok(Some(JObj(merged)))
  }

  /** `resolveRefObject` as the parser calls it: a value without a truthy
      `$ref`, or with one that does not start at `#`, comes back as it is;
      a `$ref` that is not a string throws at `split`. */
  function Resolve(doc: Json, refObject: Option<Json>): (r: Result<Option<Json>>)
    ensures !Truthy(refObject) || !Truthy(Lookup(refObject.value, "$ref")) ==> r == Ok(refObject)
    ensures Truthy(refObject) && Truthy(Lookup(refObject.value, "$ref")) && !Lookup(refObject.value, "$ref").value.JStr?
            ==> r == Failure(TypeError)
    ensures (Truthy(refObject) && Truthy(Lookup(refObject.value, "$ref")) && Lookup(refObject.value, "$ref").value.JStr?
             && Split(Lookup(refObject.value, "$ref").value.s, '/')[0] != "#") ==> r == Ok(refObject)
    ensures r.Ok? ==> r.value == refObject || TypeInDoc(doc, r.value)
  {
    ResolveRef(doc, refObject, {})
  }

  /** A pointer to a missing or falsy target throws the "Notfoud" error,
      naming the reference. */
  lemma MissingTarget(doc: Json, refObject: Json, ref: string)
    requires Lookup(refObject, "$ref") == Some(JStr(ref)) && ref != ""
    requires Split(ref, '/')[0] == "#"
    requires Walk(Some(doc), Split(ref, '/')[1..]).Ok?
    requires !Truthy(Walk(Some(doc), Split(ref, '/')[1..]).value)
    ensures Resolve(doc, Some(refObject)) == Failure(NotFound(ref))
  {
  }

  /** A reference to a target that is not itself a reference reads as
      the target's members, with `type` set to the target and
      `description` taken from the referring object. */
  lemma DirectTarget(doc: Json, refObject: Json, ref: string, target: seq<Member>)
    requires Lookup(refObject, "$ref") == Some(JStr(ref)) && ref != ""
    requires Split(ref, '/')[0] == "#"
    requires Walk(Some(doc), Split(ref, '/')[1..]) == Ok(Some(JObj(target)))
    requires JObj(target) != refObject && !Truthy(FindMember(target, "$ref"))
    ensures Resolve(doc, Some(refObject)).Ok?
    ensures var v := Resolve(doc, Some(refObject)).value;
      v.Some? && v.value.JObj?
      && Lookup(v.value, "type") == Some(JObj(target))
      && Lookup(v.value, "description") == Lookup(refObject, "description")
      && forall k :: k != "type" && k != "description" ==> Lookup(v.value, k) == FindMember(target, k)
  {
    DirectMerge(doc, refObject, ref, target);
    TypedMerge(target, Some(JObj(target)), Lookup(refObject, "description"));
  }

  /** Setting `type` and then `description` leaves every other member. */
  lemma TypedMerge(target: seq<Member>, t: Option<Json>, d: Option<Json>)
    ensures var v := JObj(Put(Put(target, "type", t), "description", d));
      && Lookup(v, "type") == t
      && Lookup(v, "description") == d
      && forall k :: k != "type" && k != "description" ==> Lookup(v, k) == FindMember(target, k)
  {
    var typed := Put(target, "type", t);
    var merged := Put(typed, "description", d);
    assert "type"[0] == 't' && "description"[0] == 'd';
    assert FindMember(merged, "type") == FindMember(typed, "type") == t;
    forall k | k != "type" && k != "description"
      ensures FindMember(merged, k) == FindMember(target, k)
    {
      assert FindMember(merged, k) == FindMember(typed, k);
    }
  }

  /** The resolution step behind `DirectTarget`: the target, typed, with
      the referring object's description. */
  lemma DirectMerge(doc: Json, refObject: Json, ref: string, target: seq<Member>)
    requires Lookup(refObject, "$ref") == Some(JStr(ref)) && ref != ""
    requires Split(ref, '/')[0] == "#"
    requires Walk(Some(doc), Split(ref, '/')[1..]) == Ok(Some(JObj(target)))
    requires JObj(target) != refObject && !Truthy(FindMember(target, "$ref"))
    ensures Resolve(doc, Some(refObject))
      == Ok(Some(JObj(Put(Put(target, "type", Some(JObj(target))), "description", Lookup(refObject, "description")))))
  {
    var obj := Some(JObj(target));
    assert ResolveRef(doc, obj, {refObject}) == Ok(obj);
    assert !Truthy(Lookup(obj.value, "$ref"));
  }

  /** An object whose pointer leads to an object pointing the same way
      never finishes resolving. */
  lemma SelfReference(doc: Json, refObject: Json, ref: string, target: seq<Member>)
    requires Lookup(refObject, "$ref") == Some(JStr(ref)) && ref != ""
    requires Split(ref, '/')[0] == "#"
    requires Walk(Some(doc), Split(ref, '/')[1..]) == Ok(Some(JObj(target)))
    requires FindMember(target, "$ref") == Some(JStr(ref))
    ensures Resolve(doc, Some(refObject)) == Failure(StackOverflow)
  {
    var obj := Some(JObj(target));
    assert Truthy(obj);
    if JObj(target) != refObject {
      assert Lookup(obj.value, "$ref") == Some(JStr(ref));
      var visited: set<Json> := {};
      assert visited + {refObject} == {refObject};
      assert ResolveRef(doc, obj, visited + {refObject}) == Failure(StackOverflow);
    }
  }
}
