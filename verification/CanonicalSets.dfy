/**
 Canonical dependency and descriptor sets: the distinct members in the order of their
 identity bytes. One tuple stands for each set, so canonical union is a set union.
 */
module CanonicalSets {
  import opened Options
  import opened Ordering
  import opened Lex
  import opened Encoding
  import opened Encoder

  function Before(): (Value, Value) -> bool { (x: Value, y: Value) => LexLt(Raw(x), Raw(y)) }

  /** The canonical tuple of the members of a list. */
  ghost predicate IsCanonical(r: seq<Value>, values: seq<Value>) {
    Ascending(r, Before()) && forall x :: x in r <==> x in values
  }

  lemma BeforeAsymmetric()
    ensures forall x, y :: Before()(x, y) ==> !Before()(y, x)
  {
    hide Raw;
    forall x: Value, y: Value | Before()(x, y) ensures !Before()(y, x) {
      if LexLe(Raw(y), Raw(x)) { LexAntisymmetric(Raw(x), Raw(y)); }
    }
  }

  /** The tuple depends on the set of members only, and determines it. */
  lemma OneTuplePerSet(a: seq<Value>, b: seq<Value>, r: seq<Value>, s: seq<Value>)
    requires IsCanonical(r, a) && IsCanonical(s, b)
    ensures r == s <==> forall x :: x in a <==> x in b
  {
    hide Raw;
    BeforeAsymmetric();
    if forall x :: x in a <==> x in b {
      forall x ensures x in r <==> x in s { assert x in a <==> x in b; }
      AscendingUnique(r, s, Before());
    }
    if r == s {
      forall x ensures x in a <==> x in b { assert x in r <==> x in s; }
    }
  }

  /** Canonical union: the canonical tuple of two lists together. */
  ghost predicate IsUnion(r: seq<Value>, a: seq<Value>, b: seq<Value>) { IsCanonical(r, a + b) }

  lemma UnionCommutes(a: seq<Value>, b: seq<Value>, r: seq<Value>, s: seq<Value>)
    requires IsUnion(r, a, b) && IsUnion(s, b, a)
    ensures r == s
  {
    OneTuplePerSet(a + b, b + a, r, s);
  }

  lemma UnionAssociates(a: seq<Value>, b: seq<Value>, c: seq<Value>, ab: seq<Value>, bc: seq<Value>, r: seq<Value>, s: seq<Value>)
    requires IsUnion(ab, a, b) && IsUnion(r, ab, c) && IsUnion(bc, b, c) && IsUnion(s, a, bc)
    ensures r == s
  {
    hide Raw;
    forall x ensures x in ab + c <==> x in a + bc {
      assert x in ab <==> x in a + b;
      assert x in bc <==> x in b + c;
    }
    OneTuplePerSet(ab + c, a + bc, r, s);
  }

  lemma UnionIdempotent(a: seq<Value>, b: seq<Value>, r: seq<Value>)
    requires IsCanonical(a, b) && IsUnion(r, a, a)
    ensures r == a
  {
    OneTuplePerSet(a + a, b, r, a);
  }

  /** The set-field check of the encoder accepts exactly the tuples that are canonical for their own members. */
  lemma SetFieldCanonical(items: seq<Value>)
    ensures StrictlySorted(Raws(items)) <==> IsCanonical(items, items)
  {
    hide Raw;
    RawsAt(items);
    if StrictlySorted(Raws(items)) {
      forall i, j | 0 <= i < j < |items| ensures Before()(items[i], items[j]) {
        assert LexLt(Raws(items)[i], Raws(items)[j]);
      }
    } else {
      var i, j :| 0 <= i < j < |Raws(items)| && !LexLt(Raws(items)[i], Raws(items)[j]);
      assert !Before()(items[i], items[j]);
    }
  }

  // ----- canonicalization ---------------------------------------------------------------

  /** A value that is well formed deeper down is well formed nearer the root. */
  lemma {:induction false} SaneShallower(lim: Limits, schemas: Schemas, v: Value, depth: nat, less: nat, setOf: Option<Bytes>)
    requires Sane(lim, schemas, v, depth, setOf) && less <= depth
    ensures Sane(lim, schemas, v, less, setOf)
    decreases v, 1
  {
    match v
    case Tuple(items) => SaneAllShallower(lim, schemas, items, depth + 1, less + 1);
    case Record(name, fields) => SaneFieldsShallower(lim, schemas, schemas.records[name], fields, depth + 1, less + 1);
    case _ =>
  }

  lemma {:induction false} SaneAllShallower(lim: Limits, schemas: Schemas, items: seq<Value>, depth: nat, less: nat)
    requires SaneAll(lim, schemas, items, depth) && less <= depth
    ensures SaneAll(lim, schemas, items, less)
    decreases items, 0
  {
    if items != [] {
      SaneShallower(lim, schemas, items[0], depth, less, None);
      SaneAllShallower(lim, schemas, items[1..], depth, less);
    }
  }

  lemma {:induction false} SaneFieldsShallower(lim: Limits, schemas: Schemas, specs: seq<Spec>, fields: seq<Field>, depth: nat, less: nat)
    requires |specs| == |fields| && SaneFields(lim, schemas, specs, fields, depth) && less <= depth
    ensures SaneFields(lim, schemas, specs, fields, less)
    decreases fields, 0
  {
    if fields != [] {
      SaneShallower(lim, schemas, fields[0].value, depth, less, specs[0].setOf);
      SaneFieldsShallower(lim, schemas, specs[1..], fields[1..], depth, less);
    }
  }

  /** Every member of an accepted tuple has an identity of its own. */
  lemma {:induction false} MemberHasIdentity(lim: Limits, schemas: Schemas, items: seq<Value>, i: nat, depth: nat)
    requires SaneAll(lim, schemas, items, depth) && SizeAll(items) <= lim.maxNodes && i < |items|
    ensures IdentityBytes(lim, schemas, items[i]) == Some(MAGIC + Raw(items[i])) && Closed(items[i])
    decreases items
  {
    hide Raw, Encode, IdentityBytes;
    if i == 0 {
      SaneShallower(lim, schemas, items[0], depth, 0, None);
      IdentityIff(lim, schemas, items[0]);
    } else {
      MemberHasIdentity(lim, schemas, items[1..], i - 1, depth);
    }
  }

  /** What `canonical_dependencies` demands: a tuple of records of one type that has an identity. */
  predicate RootsOk(lim: Limits, schemas: Schemas, member: Bytes, roots: seq<Value>) {
    && |roots| + 1 <= lim.maxNodes
    && MembersOk(Some(member), roots)
    && IdentityBytes(lim, schemas, Tuple(roots)).Some?
  }

  /** Roots the tuple of which is well formed and fits the bounds, all records of the one type. */
  ghost predicate Lawful(lim: Limits, schemas: Schemas, member: Bytes, roots: seq<Value>) {
    Sane(lim, schemas, Tuple(roots), 0, None) && Size(Tuple(roots)) <= lim.maxNodes && forall x | x in roots :: x.Record? && x.name == member
  }

  lemma RootsIff(lim: Limits, schemas: Schemas, member: Bytes, roots: seq<Value>)
    ensures RootsOk(lim, schemas, member, roots) <==> Lawful(lim, schemas, member, roots)
  {
    hide Raw, Encode, IdentityBytes, Sane;
    IdentityIff(lim, schemas, Tuple(roots));
    SizeAtLeast(roots);
    assert MembersOk(Some(member), roots) <==> forall x | x in roots :: x.Record? && x.name == member;
  }

  lemma RootsSane(lim: Limits, schemas: Schemas, member: Bytes, roots: seq<Value>)
    requires RootsOk(lim, schemas, member, roots)
    ensures SaneAll(lim, schemas, roots, 1) && SizeAll(roots) <= lim.maxNodes
  {
    hide Raw, Encode, IdentityBytes, SaneAll;
    IdentityIff(lim, schemas, Tuple(roots));
  }

  lemma SharedHead(x: int, a: Bytes, b: Bytes)
    ensures LexLe([x] + a, [x] + b) <==> LexLe(a, b)
  {
    assert ([x] + a)[1..] == a && ([x] + b)[1..] == b;
  }

  lemma {:induction false} SharedFront(front: Bytes, a: Bytes, b: Bytes)
    ensures LexLe(front + a, front + b) <==> LexLe(a, b)
    decreases |front|
  {
    hide LexLe;
    if front == [] {
      assert front + a == a && front + b == b;
    } else {
      SharedFront(front[1..], a, b);
      SharedHead(front[0], front[1..] + a, front[1..] + b);
      assert front + a == [front[0]] + (front[1..] + a);
      assert front + b == [front[0]] + (front[1..] + b);
    }
  }

  lemma LexOrder()
    ensures TotalPreorder(LexLe)
  {
    forall a: Bytes, b: Bytes ensures LexLe(a, b) || LexLe(b, a) { LexTotal(a, b); }
    forall a: Bytes, b: Bytes, c: Bytes | LexLe(a, b) && LexLe(b, c) ensures LexLe(a, c) { LexTransitive(a, b, c); }
  }

  /** Each key leads to the value it is the identity of. */
  ghost predicate Keyed(byKey: map<Bytes, Value>, roots: seq<Value>) {
    && (forall k | k in byKey :: byKey[k] in roots && k == MAGIC + Raw(byKey[k]) && Closed(byKey[k]))
    && forall x | x in roots :: MAGIC + Raw(x) in byKey && Closed(x)
  }

  lemma KeyedStep(byKey: map<Bytes, Value>, roots: seq<Value>, i: nat)
    requires i < |roots| && Keyed(byKey, roots[..i]) && Closed(roots[i])
    ensures Keyed(byKey[MAGIC + Raw(roots[i]) := roots[i]], roots[..i + 1])
  {
    hide Raw, Closed;
    assert roots[..i + 1] == roots[..i] + [roots[i]];
  }

  /** Index the roots by their identity bytes, and list them in the order of the keys. */
  method CanonicalDependencies(lim: Limits, schemas: Schemas, member: Bytes, roots: seq<Value>) returns (r: Option<seq<Value>>)
    ensures r.Some? <==> Lawful(lim, schemas, member, roots)
    ensures r.Some? ==> IsCanonical(r.value, roots)
  {
    hide Raw, Encode, IdentityBytes, SaneAll, Closed, Keyed, LexLe, Size, SizeAll, Lawful;
    RootsIff(lim, schemas, member, roots);
    if !RootsOk(lim, schemas, member, roots) {
      return None;
    }
    RootsSane(lim, schemas, member, roots);
    var byKey: map<Bytes, Value> := map[];
    assert Keyed(byKey, roots[..0]) by { NoKeys(roots); }
    for i := 0 to |roots|
      invariant Keyed(byKey, roots[..i])
    {
      MemberHasIdentity(lim, schemas, roots, i, 1);
      KeyedStep(byKey, roots, i);
      byKey := byKey[IdentityBytes(lim, schemas, roots[i]).value := roots[i]];
    }
    assert roots[..|roots|] == roots;
    LexOrder();
    var keys := Ranking(byKey.Keys, LexLe);
    var listed := [];
    for i := 0 to |keys|
      invariant |listed| == i && forall j | 0 <= j < i :: keys[j] in byKey && listed[j] == byKey[keys[j]]
    {
      assert keys[i] in byKey.Keys;
      listed := listed + [byKey[keys[i]]];
    }
    ListedCanonical(byKey, roots, keys, listed);
    r := Some(listed);
  }

  lemma NoKeys(roots: seq<Value>)
    ensures Keyed(map[], roots[..0])
  {
  }

  lemma ListedCanonical(byKey: map<Bytes, Value>, roots: seq<Value>, keys: seq<Bytes>, listed: seq<Value>)
    requires Keyed(byKey, roots) && Enumerates(keys, byKey.Keys) && Ranked(keys, LexLe) && |listed| == |keys|
    requires forall j | 0 <= j < |keys| :: keys[j] in byKey && listed[j] == byKey[keys[j]]
    ensures IsCanonical(listed, roots)
  {
    hide Raw, Closed, LexLe;
    forall i, j | 0 <= i < j < |listed| ensures Before()(listed[i], listed[j]) {
      assert LexLe(keys[i], keys[j]) && keys[i] != keys[j];
      SharedFront(MAGIC, Raw(listed[i]), Raw(listed[j]));
    }
    forall x ensures x in listed <==> x in roots {
      if x in roots {
        var k := MAGIC + Raw(x);
        SameKey(byKey, roots, x);
        var j :| 0 <= j < |keys| && keys[j] == k;
        assert listed[j] == x;
      }
    }
  }

  /** By injectivity, the value under the key of a root is that root. */
  lemma SameKey(byKey: map<Bytes, Value>, roots: seq<Value>, x: Value)
    requires Keyed(byKey, roots) && x in roots
    ensures MAGIC + Raw(x) in byKey && byKey[MAGIC + Raw(x)] == x
  {
    hide Raw, Closed;
    var y := byKey[MAGIC + Raw(x)];
    Split(MAGIC, Raw(x), MAGIC, Raw(y));
    EncodingInjective(x, y);
  }
}
