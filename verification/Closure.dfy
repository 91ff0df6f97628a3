/** What a fixed point contains: everything each schema derives. */
module Closure {
  // A branch at a fixed point has recorded, for each schema, exactly the assertions that the
  // sources prove by that schema alone within the roots of the branch. Proofs that mix the two
  // schemas are lost: a concrete arena shows it.

  import opened Options
  import opened Inference
  import opened Reasoning
  import opened Proofs

  /** Recorded under this very context. */
  ghost predicate RecordedIn(records: seq<Lineage>, context: Context, x: Ask) {
    exists i :: 0 <= i < |records| && records[i].context == context && records[i].Conclusion() == x
  }

  /** Held by a source, or recorded under this very context. */
  ghost predicate HeldIn(a: Arena, context: Context, x: Ask) {
    x in a.sources || RecordedIn(a.records, context, x)
  }

  /** No step of the proof was blocked in this context before. */
  ghost predicate Unblocked(a: Arena, context: Context, p: Proof)
    decreases p
  {
    match p
    case Leaf(_, _) => true
    case Node(conclusion, s, ps) =>
      && (DerivationKey(conclusion, s, Premises(ps)), context) !in a.completed
      && forall i | 0 <= i < |ps| :: Unblocked(a, context, ps[i])
  }

  /** A proof a branch can carry out: from its sources, by one schema, within its roots, over no blocked step. */
  ghost predicate Within(a: Arena, branch: nat, s: Schema, p: Proof)
    requires branch < |a.contexts|
  {
    && Valid(a.sources, p) && OnlySchema(s, p) && LeafRoots(p) <= a.contexts[branch]
    && Unblocked(a, ContextOf(a, branch, s), p)
  }

  // ----- ancestors ----------------------------------------------------------------------

  /** Every ancestor of a record is a source, or was recorded earlier in the same context. */
  lemma {:induction false} AncestorsHeld(sources: map<Ask, set<int>>, records: seq<Lineage>, i: nat, x: Ask)
    requires RecordsOk(sources, records) && i < |records| && x in records[i].ancestry
    ensures (x in sources && !x.basis.Derived?) || RecordedIn(records, records[i].context, x)
    decreases |records|
  {
    hide Concludes, Find;
    var init, last := records[..|records| - 1], records[|records| - 1];
    var context := records[i].context;
    if i < |records| - 1 {
      AncestorsHeld(sources, init, i, x);
      RecordedMore(records, context, x);
    } else {
      assert LineageOk(sources, init, last);
      var k :| 0 <= k < |last.supports| && (x == last.Roles()[k] || x in AncestryOf(init, last.supports[k]));
      var support := last.supports[k];
      assert SupportOk(sources, init, last.context, last.Roles()[k], support);
      if support.Via? {
        FindFinds(init, support.key, support.context);
        var r := Find(init, support.key, support.context).value;
        var j :| 0 <= j < |init| && init[j] == r;
        if x == last.Roles()[k] {
          assert RecordedIn(init, context, x);
        } else {
          AncestorsHeld(sources, init, j, x);
        }
        RecordedMore(records, context, x);
      }
    }
  }

  lemma RecordedMore(records: seq<Lineage>, context: Context, x: Ask)
    requires records != []
    ensures RecordedIn(records[..|records| - 1], context, x) ==> RecordedIn(records, context, x)
  {
    var init := records[..|records| - 1];
    if RecordedIn(init, context, x) {
      var j :| 0 <= j < |init| && init[j].context == context && init[j].Conclusion() == x;
      assert records[j] == init[j];
    }
  }

  /** A valid proof depends on exactly the roots at its leaves. */
  lemma {:induction false} RootsAtLeaves(sources: map<Ask, set<int>>, p: Proof)
    requires Valid(sources, p)
    ensures Proved(p).roots == LeafRoots(p)
    decreases p
  {
    hide Instance, Concludes;
    if p.Node? {
      var parents := Premises(p.premises);
      InstanceIff(p.schema, parents, p.conclusion);
      ConcludesRoles(p.schema, parents);
      forall i | 0 <= i < |parents| ensures parents[i].roots == LeafRoots(p.premises[i]) {
        RootsAtLeaves(sources, p.premises[i]);
      }
      forall x ensures x in AllRoots(parents) <==> x in LeafRoots(p) {}
    }
  }

  // ----- completeness -------------------------------------------------------------------

  /** Nothing is left to do in this branch for this schema. */
  ghost predicate Exhausted(a: Arena, branch: nat, s: Schema)
    requires branch < |a.contexts|
  {
    forall q :: !Fires(a, branch, s, q)
  }

  /** An assertion held in the context of a branch, within its roots, is in the pool of the branch. */
  lemma HeldPooled(a: Arena, branch: nat, context: Context, x: Ask)
    requires ArenaOk(a) && branch < |a.contexts| && HeldIn(a, context, x) && x.roots <= a.contexts[branch]
    ensures x in Pool(a, branch)
    ensures x.basis.Derived? ==> RecordedIn(a.records, context, x)
    ensures !x.basis.Derived? ==> x in a.sources && a.sources[x] != {}
  {
    hide RecordsOk, InPlace;
    if RecordedIn(a.records, context, x) {
      var i :| 0 <= i < |a.records| && a.records[i].context == context && a.records[i].Conclusion() == x;
      RecordDerived(a.sources, a.records, i);
    }
  }

  lemma {:induction false} RecordDerived(sources: map<Ask, set<int>>, records: seq<Lineage>, i: nat)
    requires RecordsOk(sources, records) && i < |records|
    ensures records[i].Conclusion().basis.Derived?
    decreases |records|
  {
    hide Concludes, Find;
    if i < |records| - 1 { RecordDerived(sources, records[..|records| - 1], i); }
  }

  /**
   A binding of held parents whose conclusion was neither recorded nor blocked: if it does not
   fire, a parent stands on its own conclusion, so the conclusion is recorded by another way.
   */
  lemma StepHeld(a: Arena, branch: nat, s: Schema, parents: seq<Ask>)
    requires ArenaOk(a) && branch < |a.contexts| && Exhausted(a, branch, s)
    requires Concludes(s, parents).Some? && (KeyOf(s, parents), ContextOf(a, branch, s)) !in a.completed
    requires forall i | 0 <= i < |parents| :: HeldIn(a, ContextOf(a, branch, s), parents[i]) && parents[i].roots <= a.contexts[branch]
    ensures RecordedIn(a.records, ContextOf(a, branch, s), KeyOf(s, parents).conclusion)
  {
    hide ArenaOk, Concludes, RecordedIn, HeldIn, Pool, Paths;
    var context, key := ContextOf(a, branch, s), KeyOf(s, parents);
    assert !Fires(a, branch, s, parents);
    forall i | 0 <= i < |parents| ensures parents[i] in Pool(a, branch) { HeldPooled(a, branch, context, parents[i]); }
    if Find(a.records, key, context).Some? {
      FoundRecorded(a.records, key, context);
    } else {
      var i :| 0 <= i < |parents| && !Witnessed(a, context, key.conclusion, parents[i]);
      HeldPooled(a, branch, context, parents[i]);
      UnwitnessedHeld(a, context, key.conclusion, parents[i]);
    }
  }

  lemma FoundRecorded(records: seq<Lineage>, key: DerivationKey, context: Context)
    requires Find(records, key, context).Some?
    ensures RecordedIn(records, context, key.conclusion)
  {
    FindFinds(records, key, context);
    var r := Find(records, key, context).value;
    var i :| 0 <= i < |records| && records[i] == r;
  }

  /** A held parent without a witness for a derived conclusion stands on that conclusion. */
  lemma UnwitnessedHeld(a: Arena, context: Context, conclusion: Ask, parent: Ask)
    requires ArenaOk(a) && conclusion.basis.Derived? && !Witnessed(a, context, conclusion, parent)
    requires parent.basis.Derived? ==> RecordedIn(a.records, context, parent)
    requires !parent.basis.Derived? ==> parent in a.sources && a.sources[parent] != {}
    ensures RecordedIn(a.records, context, conclusion)
  {
    hide RecordsOk, InPlace;
    if parent != conclusion {
      var i :| 0 <= i < |a.records| && a.records[i].context == context && a.records[i].Conclusion() == parent;
      assert a.records[i] in Paths(a, context, conclusion, parent) <==> conclusion !in a.records[i].ancestry;
      AncestorsHeld(a.sources, a.records, i, conclusion);
    }
  }

  /** A branch that can carry out a proof can carry out each premise. */
  lemma PremiseWithin(a: Arena, branch: nat, s: Schema, p: Proof, i: nat)
    requires branch < |a.contexts| && Within(a, branch, s, p) && p.Node? && i < |p.premises|
    ensures Within(a, branch, s, p.premises[i])
  {
    hide Instance;
    assert Unblocked(a, ContextOf(a, branch, s), p.premises[i]);
    forall x | x in LeafRoots(p.premises[i]) ensures x in LeafRoots(p) {}
    assert LeafRoots(p.premises[i]) <= a.contexts[branch];
  }

  /** At a fixed point of a branch every proof it can carry out has its conclusion held there. */
  lemma {:induction false} FixedPointHolds(a: Arena, branch: nat, s: Schema, p: Proof)
    requires ArenaOk(a) && branch < |a.contexts| && Exhausted(a, branch, s) && Within(a, branch, s, p)
    ensures HeldIn(a, ContextOf(a, branch, s), Proved(p))
    ensures p.Node? ==> RecordedIn(a.records, ContextOf(a, branch, s), Proved(p))
    decreases p
  {
    hide ArenaOk, Exhausted, Concludes, Instance, RecordedIn;
    if p.Node? {
      var context, parents := ContextOf(a, branch, s), Premises(p.premises);
      InstanceIff(s, parents, p.conclusion);
      ConcludesRoles(s, parents);
      forall i | 0 <= i < |parents| ensures HeldIn(a, context, parents[i]) && parents[i].roots <= a.contexts[branch] {
        var q := p.premises[i];
        PremiseWithin(a, branch, s, p, i);
        FixedPointHolds(a, branch, s, q);
        RootsAtLeaves(a.sources, q);
      }
      StepHeld(a, branch, s, parents);
    }
  }

  // ----- soundness ----------------------------------------------------------------------

  /** What a record unfolds to uses steps that were not blocked in its context. */
  lemma {:induction false} UnfoldUnblocked(a: Arena, records: seq<Lineage>, key: DerivationKey, context: Context)
    requires RecordsOk(a.sources, records) && Find(records, key, context).Some?
    requires forall i | 0 <= i < |records| :: InPlace(a, records[i].key, records[i].context)
    ensures Unblocked(a, context, Unfold(records, key, context))
    decreases |records|
  {
    hide Concludes;
    var init, r := records[..|records| - 1], records[|records| - 1];
    if r.key == key && r.context == context {
      var ps := UnfoldAll(init, r);
      forall k | 0 <= k < |ps| ensures Unblocked(a, context, ps[k]) && Proved(ps[k]) == r.Roles()[k] {
        var support := r.supports[k];
        assert SupportOk(a.sources, init, context, r.Roles()[k], support);
        ResolveFaithful(a.sources, init, context, r.Roles()[k], support);
        if support.Via? { UnfoldUnblocked(a, init, support.key, support.context); }
      }
      assert Premises(ps) == r.Roles();
      assert InPlace(a, r.key, r.context);
    } else {
      UnfoldUnblocked(a, init, key, context);
    }
  }

  /** Every record of the context of a branch has a proof the branch can carry out. */
  lemma RecordWithin(a: Arena, branch: nat, s: Schema, x: Ask) returns (p: Proof)
    requires ArenaOk(a) && branch < |a.contexts| && RecordedIn(a.records, ContextOf(a, branch, s), x)
    ensures p.Node? && Proved(p) == x && Within(a, branch, s, p)
  {
    hide Unfold, Unblocked, Valid, OnlySchema, LeafRoots, RecordsOk;
    var context := ContextOf(a, branch, s);
    var i :| 0 <= i < |a.records| && a.records[i].context == context && a.records[i].Conclusion() == x;
    var key := a.records[i].key;
    FindSelf(a.sources, a.records, i);
    LineagesProved(a, i);
    UnfoldUnblocked(a, a.records, key, context);
    p := Unfold(a.records, key, context);
    assert InPlace(a, key, context);
    RecordDerived(a.sources, a.records, i);
    LeafNotDerived(a.sources, p);
  }

  lemma LeafNotDerived(sources: map<Ask, set<int>>, p: Proof)
    requires Valid(sources, p) && Proved(p).basis.Derived?
    ensures p.Node?
  {
  }

  /**
   The closure of a branch: at a fixed point, what a schema has recorded in the context of the
   branch is exactly what the sources prove by that schema alone within the roots of the
   branch, over steps that were not blocked there.
   */
  lemma ClosureIff(a: Arena, branch: nat, s: Schema, x: Ask)
    requires ArenaOk(a) && branch < |a.contexts| && Exhausted(a, branch, s)
    ensures RecordedIn(a.records, ContextOf(a, branch, s), x) <==> exists p: Proof :: p.Node? && Proved(p) == x && Within(a, branch, s, p)
  {
    hide ArenaOk, Within, RecordedIn, Exhausted;
    if RecordedIn(a.records, ContextOf(a, branch, s), x) {
      var p := RecordWithin(a, branch, s, x);
    }
    forall p: Proof | p.Node? && Proved(p) == x && Within(a, branch, s, p) ensures RecordedIn(a.records, ContextOf(a, branch, s), x) {
      FixedPointHolds(a, branch, s, p);
    }
  }

  /** Where nothing was blocked, the closure is everything the schema proves within the roots. */
  lemma UnblockedClosure(a: Arena, branch: nat, s: Schema, p: Proof)
    requires ArenaOk(a) && branch < |a.contexts| && Exhausted(a, branch, s)
    requires forall u | u in a.completed :: u.1 != ContextOf(a, branch, s)
    requires Valid(a.sources, p) && OnlySchema(s, p) && LeafRoots(p) <= a.contexts[branch]
    ensures HeldIn(a, ContextOf(a, branch, s), Proved(p))
  {
    hide ArenaOk, Exhausted, Valid, OnlySchema, LeafRoots, HeldIn;
    NeverBlocked(a, ContextOf(a, branch, s), p);
    FixedPointHolds(a, branch, s, p);
  }

  lemma {:induction false} NeverBlocked(a: Arena, context: Context, p: Proof)
    requires forall u | u in a.completed :: u.1 != context
    ensures Unblocked(a, context, p)
    decreases p
  {
    if p.Node? {
      forall i | 0 <= i < |p.premises| ensures Unblocked(a, context, p.premises[i]) { NeverBlocked(a, context, p.premises[i]); }
    }
  }

  // ----- no chaining --------------------------------------------------------------------

  const RULE := Ask(Conditional(Atom(0), Relation(0, 2, 3)), FormalGiven, 0, {})
  const FACT := Ask(Atom(0), OtherBasis(0), 0, {})
  const LAW := Ask(Transitive(0), FormalGiven, 0, {})
  const EDGE := Ask(Relation(0, 1, 2), OtherBasis(0), 0, {})
  const STEP := Ask(Relation(0, 2, 3), Derived, 0, {})
  const GOAL := Ask(Relation(0, 1, 3), Derived, 0, {})

  const MIXED := Node(GOAL, Composition, [Leaf(LAW, 0), Leaf(EDGE, 0), Node(STEP, ModusPonens, [Leaf(RULE, 0), Leaf(FACT, 0)])])

  /** Four sources from which the two schemas together prove the goal. */
  function MixedSources(): map<Ask, set<int>> { map[RULE := {0}, FACT := {0}, LAW := {0}, EDGE := {0}] }

  lemma MixedValid()
    ensures Valid(MixedSources(), MIXED) && Proved(MIXED) == GOAL
  {
    var inner := [Leaf(RULE, 0), Leaf(FACT, 0)];
    assert Premises(inner) == [RULE, FACT] && AllRoots([RULE, FACT]) == {};
    assert Concludes(ModusPonens, [RULE, FACT]) == Some(Relation(0, 2, 3));
    InstanceIff(ModusPonens, [RULE, FACT], STEP);
    assert forall i | 0 <= i < |inner| :: Valid(MixedSources(), inner[i]);
    var step := Node(STEP, ModusPonens, inner);
    assert Valid(MixedSources(), step);
    var outer := [Leaf(LAW, 0), Leaf(EDGE, 0), step];
    assert Premises(outer) == [LAW, EDGE, STEP] && AllRoots([LAW, EDGE, STEP]) == {};
    InstanceIff(Composition, [LAW, EDGE, STEP], GOAL);
    assert forall i | 0 <= i < |outer| :: Valid(MixedSources(), outer[i]);
  }

  /** Over those sources composition alone only reaches relations that end where the edge ends. */
  lemma {:induction false} CompositionEnds(p: Proof)
    requires Valid(MixedSources(), p) && OnlySchema(Composition, p) && Proved(p).claim.Relation?
    ensures Proved(p).claim.right == 2
    decreases p
  {
    if p.Node? {
      var parents := Premises(p.premises);
      assert |parents| == 3 && parents[2] == Proved(p.premises[2]);
      CompositionEnds(p.premises[2]);
    }
  }

  /** Derivations do not chain across the schemas: the goal has a valid proof and is in no lawful arena over its sources. */
  lemma NoChaining(a: Arena)
    requires ArenaOk(a) && a.sources == MixedSources()
    ensures Valid(a.sources, MIXED) && Proved(MIXED) == GOAL && GOAL !in a.asserted
  {
    hide ArenaOk, Acyclic, LeafRoots;
    MixedValid();
    if GOAL in a.asserted {
      AssertedProved(a, GOAL);
      var p: Proof, s: Schema :| ProvesAlone(a.sources, s, p, GOAL);
      GoalUnproved(s, p);
    }
  }

  lemma GoalUnproved(s: Schema, p: Proof)
    requires Valid(MixedSources(), p) && OnlySchema(s, p)
    ensures Proved(p) != GOAL
  {
    if p.Node? && s.ModusPonens? {
      var parents := Premises(p.premises);
      assert parents[0] == Proved(p.premises[0]);
      assert p.premises[0].Leaf?;
    } else if p.Node? && Proved(p).claim.Relation? {
      CompositionEnds(p);
    }
  }
}
