/** Every lineage unfolds to a finite proof. */
module Proofs {
  // Every lineage unfolds to a finite proof: source leaves, inner nodes that are instances of
  // the one schema of the lineage, no assertion among its own ancestors, and dependency roots
  // that are exactly the roots at the leaves.

  import opened Inference
  import opened Reasoning

  datatype Proof = Leaf(fact: Ask, occurrence: int) | Node(conclusion: Ask, schema: Schema, premises: seq<Proof>)

  function Proved(p: Proof): Ask {
    match p
    case Leaf(fact, _) => fact
    case Node(conclusion, _, _) => conclusion
  }

  function Premises(ps: seq<Proof>): seq<Ask> { seq(|ps|, i requires 0 <= i < |ps| => Proved(ps[i])) }

  /** A proof from the sources: each inner node is an inference step. */
  ghost predicate Valid(sources: map<Ask, set<int>>, p: Proof)
    decreases p
  {
    match p
    case Leaf(fact, o) => !fact.basis.Derived? && fact in sources && o in sources[fact]
    case Node(conclusion, s, ps) =>
      && (forall i | 0 <= i < |ps| :: Valid(sources, ps[i]))
      && Instance(s, Premises(ps), conclusion)
  }

  /** Every assertion of a proof except the one it proves. */
  function Ancestors(p: Proof): set<Ask>
    decreases p, 0
  {
    match p
    case Leaf(_, _) => {}
    case Node(_, _, ps) => set i, x | 0 <= i < |ps| && x in Ancestors(ps[i]) + {Proved(ps[i])} :: x
  }

  /** No assertion occurs above itself. */
  ghost predicate Acyclic(p: Proof)
    decreases p
  {
    match p
    case Leaf(_, _) => true
    case Node(conclusion, _, ps) => conclusion !in Ancestors(p) && forall i | 0 <= i < |ps| :: Acyclic(ps[i])
  }

  ghost predicate OnlySchema(s: Schema, p: Proof)
    decreases p
  {
    match p
    case Leaf(_, _) => true
    case Node(_, t, ps) => t == s && forall i | 0 <= i < |ps| :: OnlySchema(s, ps[i])
  }

  /** The roots of the facts at the leaves. */
  function LeafRoots(p: Proof): set<int>
    decreases p
  {
    match p
    case Leaf(fact, _) => fact.roots
    case Node(_, _, ps) => set i, x | 0 <= i < |ps| && x in LeafRoots(ps[i]) :: x
  }

  // ----- unfolding ----------------------------------------------------------------------

  /** The proof behind a record, resolved through the records before it. */
  function Unfold(records: seq<Lineage>, key: DerivationKey, context: Context): Proof
    decreases |records|, 0
  {
    if records == [] then Node(key.conclusion, key.schema, []) else
      var init, r := records[..|records| - 1], records[|records| - 1];
      if r.key == key && r.context == context then Node(key.conclusion, key.schema, UnfoldAll(init, r)) else Unfold(init, key, context)
  }

  function UnfoldAll(records: seq<Lineage>, r: Lineage): seq<Proof>
    decreases |records|, 2
  {
    seq(|r.supports|, k requires 0 <= k < |r.supports| => if k < |r.Roles()| then Resolve(records, r.Roles()[k], r.supports[k]) else Leaf(r.Conclusion(), 0))
  }

  function Resolve(records: seq<Lineage>, parent: Ask, s: Support): Proof
    decreases |records|, 1
  {
    match s
    case Source(o) => Leaf(parent, o)
    case Via(key, context) => Unfold(records, key, context)
  }

  /** A proof that says about an assertion what its lineage says. */
  ghost predicate Faithful(sources: map<Ask, set<int>>, p: Proof, conclusion: Ask, ancestry: set<Ask>, s: Schema) {
    && Proved(p) == conclusion && Valid(sources, p)
    && Ancestors(p) == ancestry && Acyclic(p) && OnlySchema(s, p) && LeafRoots(p) == conclusion.roots
  }

  /** A resolved support proves its parent, with the ancestry the support brings. */
  lemma {:induction false} ResolveFaithful(sources: map<Ask, set<int>>, records: seq<Lineage>, context: Context, parent: Ask, s: Support)
    requires RecordsOk(sources, records) && SupportOk(sources, records, context, parent, s)
    ensures Faithful(sources, Resolve(records, parent, s), parent, AncestryOf(records, s), context.schema)
    decreases |records|, 1
  {
    hide RecordsOk, Faithful;
    match s
    case Source(o) => LeafFaithful(sources, parent, o, context.schema);
    case Via(key, c) =>
      UnfoldFaithful(sources, records, key, c);
      FindFinds(records, key, c);
  }

  lemma LeafFaithful(sources: map<Ask, set<int>>, parent: Ask, o: int, s: Schema)
    requires !parent.basis.Derived? && parent in sources && o in sources[parent]
    ensures Faithful(sources, Leaf(parent, o), parent, {}, s)
  {
  }

  /** Every record unfolds to a finite proof of its conclusion from the sources. */
  lemma {:induction false} UnfoldFaithful(sources: map<Ask, set<int>>, records: seq<Lineage>, key: DerivationKey, context: Context)
    requires RecordsOk(sources, records) && Find(records, key, context).Some?
    ensures var r := Find(records, key, context).value;
            Faithful(sources, Unfold(records, key, context), r.Conclusion(), r.ancestry, context.schema)
    decreases |records|, 0
  {
    hide Faithful, Concludes;
    var init, r := records[..|records| - 1], records[|records| - 1];
    if r.key == key && r.context == context {
      forall k | 0 <= k < |r.supports|
        ensures Faithful(sources, Resolve(init, r.Roles()[k], r.supports[k]), r.Roles()[k], AncestryOf(init, r.supports[k]), context.schema)
      {
        ResolveFaithful(sources, init, context, r.Roles()[k], r.supports[k]);
      }
      NodeFaithful(sources, init, r);
    } else {
      UnfoldFaithful(sources, init, key, context);
    }
  }

  /** Faithful premises make a faithful node. */
  lemma NodeFaithful(sources: map<Ask, set<int>>, records: seq<Lineage>, r: Lineage)
    requires LineageOk(sources, records, r)
    requires forall k | 0 <= k < |r.supports| ::
               Faithful(sources, Resolve(records, r.Roles()[k], r.supports[k]), r.Roles()[k], AncestryOf(records, r.supports[k]), r.key.schema)
    ensures Faithful(sources, Node(r.Conclusion(), r.key.schema, UnfoldAll(records, r)), r.Conclusion(), r.ancestry, r.key.schema)
  {
    hide Concludes, Instance, Find, Resolve, AncestryOf, Valid, Acyclic, OnlySchema, Ancestors, LeafRoots, SupportOk;
    var ps := UnfoldAll(records, r);
    var p := Node(r.Conclusion(), r.key.schema, ps);
    assert |ps| == |r.Roles()|;
    forall k | 0 <= k < |ps| ensures ps[k] == Resolve(records, r.Roles()[k], r.supports[k]) && Proved(ps[k]) == r.Roles()[k] {}
    assert Premises(ps) == r.Roles();
    ConcludesRoles(r.key.schema, r.Roles());
    InstanceIff(r.key.schema, r.Roles(), r.Conclusion());
    NodeAncestors(records, r, ps);
    NodeRoots(r, ps);
    NodeValid(sources, r, ps);
  }

  lemma NodeValid(sources: map<Ask, set<int>>, r: Lineage, ps: seq<Proof>)
    requires Premises(ps) == r.Roles() && (forall k | 0 <= k < |ps| :: Valid(sources, ps[k]) && Acyclic(ps[k]) && OnlySchema(r.key.schema, ps[k]))
    requires Instance(r.key.schema, r.Roles(), r.Conclusion())
    requires r.Conclusion() !in Ancestors(Node(r.Conclusion(), r.key.schema, ps))
    ensures var p := Node(r.Conclusion(), r.key.schema, ps); Valid(sources, p) && Acyclic(p) && OnlySchema(r.key.schema, p)
  {
    hide Instance, Ancestors;
  }

  lemma NodeAncestors(records: seq<Lineage>, r: Lineage, ps: seq<Proof>)
    requires |ps| == |r.Roles()| == |r.supports|
    requires forall k | 0 <= k < |ps| :: Proved(ps[k]) == r.Roles()[k] && Ancestors(ps[k]) == AncestryOf(records, r.supports[k])
    ensures Ancestors(Node(r.Conclusion(), r.key.schema, ps)) == Elements(r.Roles()) + SupportAncestry(records, r.supports)
  {
    hide AncestryOf;
    var p := Node(r.Conclusion(), r.key.schema, ps);
    forall x ensures x in Ancestors(p) <==> x in Elements(r.Roles()) + SupportAncestry(records, r.supports) {
      if x in Ancestors(p) {
        var i :| 0 <= i < |ps| && x in Ancestors(ps[i]) + {Proved(ps[i])};
        assert x == r.Roles()[i] || x in AncestryOf(records, r.supports[i]);
      }
      if x in Elements(r.Roles()) {
        var i :| 0 <= i < |ps| && r.Roles()[i] == x;
        assert x in Ancestors(ps[i]) + {Proved(ps[i])};
      }
      if x in SupportAncestry(records, r.supports) {
        var i :| 0 <= i < |ps| && x in AncestryOf(records, r.supports[i]);
        assert x in Ancestors(ps[i]) + {Proved(ps[i])};
      }
    }
  }

  lemma NodeRoots(r: Lineage, ps: seq<Proof>)
    requires |ps| == |r.Roles()| && r.Roles() != [] && r.Conclusion().roots == AllRoots(r.Roles())
    requires forall k | 0 <= k < |ps| :: LeafRoots(ps[k]) == r.Roles()[k].roots
    ensures LeafRoots(Node(r.Conclusion(), r.key.schema, ps)) == r.Conclusion().roots
  {
  }

  /** In every lawful reading in which the sources hold, whatever has a proof holds. */
  lemma {:induction false} ProofSound(holds: Reading, sources: map<Ask, set<int>>, p: Proof)
    requires Lawful(holds) && (forall x | x in sources :: Holds(holds, x)) && Valid(sources, p)
    ensures Holds(holds, Proved(p))
    decreases p
  {
    hide Lawful, Holds, Instance;
    if p.Node? {
      forall i | 0 <= i < |p.premises| ensures Holds(holds, Premises(p.premises)[i]) { ProofSound(holds, sources, p.premises[i]); }
      StepSound(holds, p.schema, Premises(p.premises), p.conclusion);
    }
  }

  /** In a lawful arena every lineage has such a proof. */
  lemma LineagesProved(a: Arena, i: nat)
    requires ArenaOk(a) && i < |a.records|
    ensures var r := a.records[i];
            Faithful(a.sources, Unfold(a.records, r.key, r.context), r.Conclusion(), r.ancestry, r.context.schema)
  {
    hide Faithful, Unfold;
    FindSelf(a.sources, a.records, i);
    UnfoldFaithful(a.sources, a.records, a.records[i].key, a.records[i].context);
  }

  /** Whatever is asserted in a reachable arena has a source, or a finite proof by one schema. */
  lemma AssertedProved(a: Arena, x: Ask)
    requires ArenaOk(a) && x in a.asserted && x.basis.Derived?
    ensures exists p: Proof, s: Schema :: ProvesAlone(a.sources, s, p, x)
  {
    hide Unfold, Valid, Acyclic, LeafRoots, OnlySchema, Ancestors;
    var i :| 0 <= i < |a.records| && a.records[i].Conclusion() == x;
    LineagesProved(a, i);
    var p := Unfold(a.records, a.records[i].key, a.records[i].context);
    assert ProvesAlone(a.sources, a.records[i].context.schema, p, x);
  }

  /** A finite proof of an assertion from the sources by one schema, over exactly its roots. */
  ghost predicate ProvesAlone(sources: map<Ask, set<int>>, s: Schema, p: Proof, x: Ask) {
    Proved(p) == x && Valid(sources, p) && Acyclic(p) && OnlySchema(s, p) && LeafRoots(p) == x.roots
  }
}
