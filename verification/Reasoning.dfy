/**
 The rounds over an arena: seed sources and branches, discover the complete frontier of a
 branch, evaluate it, and publish all of it or nothing.
 */
module Reasoning {
  import opened FiniteSets
  import opened Options
  import opened Ordering
  import opened Inference

  datatype Verdict = Clear | Blocked | Incomplete

  datatype Discovery = Frontier(candidates: map<DerivationKey, Candidate>) | UnknownBranch | Overflow

  // ----- discovery ----------------------------------------------------------------------

  /** All role bindings of a schema over a pool. */
  function Bindings(pool: set<Ask>, arity: nat): set<seq<Ask>> {
    if arity == 0 then {[]} else set a, rest | a in pool && rest in Bindings(pool, arity - 1) :: [a] + rest
  }

  lemma {:induction false} BindingsAre(pool: set<Ask>, arity: nat, parents: seq<Ask>)
    ensures parents in Bindings(pool, arity) <==> |parents| == arity && forall i | 0 <= i < |parents| :: parents[i] in pool
    decreases arity
  {
    if arity > 0 {
      if parents in Bindings(pool, arity) {
        var a, rest :| a in pool && rest in Bindings(pool, arity - 1) && [a] + rest == parents;
        BindingsAre(pool, arity - 1, rest);
      }
      if |parents| == arity && forall i | 0 <= i < |parents| :: parents[i] in pool {
        BindingsAre(pool, arity - 1, parents[1..]);
        assert [parents[0]] + parents[1..] == parents;
      }
    }
  }

  function KeyOf(s: Schema, parents: seq<Ask>): DerivationKey
    requires Concludes(s, parents).Some?
  {
    DerivationKey(DerivedAsk(Concludes(s, parents).value, parents), s, parents)
  }

  /** A binding that a branch must still carry out: it concludes, was not used, and every parent has a witness. */
  ghost predicate Fires(a: Arena, branch: nat, s: Schema, parents: seq<Ask>)
    requires branch < |a.contexts|
  {
    var context := ContextOf(a, branch, s);
    && Concludes(s, parents).Some?
    && (forall i | 0 <= i < |parents| :: parents[i] in Pool(a, branch))
    && (KeyOf(s, parents), context) !in a.completed
    && Find(a.records, KeyOf(s, parents), context).None?
    && forall i | 0 <= i < |parents| :: Witnessed(a, context, KeyOf(s, parents).conclusion, parents[i])
  }

  ghost predicate CandidateOk(a: Arena, c: Candidate) {
    && c.context.schema == c.key.schema && Concludes(c.key.schema, c.key.roles).Some? && c.key == KeyOf(c.key.schema, c.key.roles)
    && |c.supports| == |c.ancestors| == |c.key.roles|
    && (forall k | 0 <= k < |c.supports| ::
          WitnessOk(a, c.context, c.key.conclusion, c.key.roles[k], c.supports[k], c.ancestors[k]))
    && Find(a.records, c.key, c.context).None? && InPlace(a, c.key, c.context)
  }

  /** The witnesses of one binding, parent by parent. */
  method Witnesses(a: Arena, context: Context, key: DerivationKey, le: (Lineage, Lineage) -> bool)
    returns (r: Option<Candidate>)
    requires ArenaOk(a) && TotalPreorder(le) && context.schema == key.schema
    requires Concludes(key.schema, key.roles).Some? && key == KeyOf(key.schema, key.roles) && Find(a.records, key, context).None?
    requires InPlace(a, key, context)
    ensures r.Some? <==> forall i | 0 <= i < |key.roles| :: Witnessed(a, context, key.conclusion, key.roles[i])
    ensures r.Some? ==> r.value.key == key && r.value.context == context && CandidateOk(a, r.value) && LeastSupports(a, r.value, le)
  {
    hide TotalPreorder, ArenaOk, InPlace, Witnessed, WitnessOk, LeastWitness, Concludes, Find;
    var supports, ancestors := [], [];
    for i := 0 to |key.roles|
      invariant |supports| == |ancestors| == i
      invariant forall k | 0 <= k < i :: Witnessed(a, context, key.conclusion, key.roles[k])
      invariant forall k | 0 <= k < i :: WitnessOk(a, context, key.conclusion, key.roles[k], supports[k], ancestors[k])
      invariant forall k | 0 <= k < i :: LeastWitness(a, context, key.conclusion, key.roles[k], le, supports[k])
    {
      var w := ParentWitness(a, context, key.conclusion, key.roles[i], le);
      if w.None? { return None; }
      supports, ancestors := supports + [w.value.0], ancestors + [w.value.1];
    }
    r := Some(Candidate(key, context, supports, ancestors));
  }

  ghost predicate FrontierOf(a: Arena, branch: nat, s: Schema, done: set<seq<Ask>>, found: map<DerivationKey, Candidate>)
    requires branch < |a.contexts|
  {
    && (forall k | k in found :: k.schema == s ==> k.roles in done && Fires(a, branch, s, k.roles) && k == KeyOf(s, k.roles))
    && (forall p | p in done && Fires(a, branch, s, p) :: KeyOf(s, p) in found)
  }

  ghost predicate FoundOk(a: Arena, branch: nat, policy: Policy, le: (Lineage, Lineage) -> bool, found: map<DerivationKey, Candidate>)
    requires branch < |a.contexts|
  {
    forall k | k in found ::
      && found[k].key == k && found[k].context == ContextOf(a, branch, k.schema) && CandidateOk(a, found[k])
      && LeastSupports(a, found[k], le) && |CandidateAncestry(found[k])| <= policy.maxAncestry
  }

  /** Every support of a candidate is the least eligible one for its parent. */
  ghost predicate LeastSupports(a: Arena, c: Candidate, le: (Lineage, Lineage) -> bool) {
    && |c.supports| == |c.key.roles|
    && forall k | 0 <= k < |c.supports| :: LeastWitness(a, c.context, c.key.conclusion, c.key.roles[k], le, c.supports[k])
  }

  /** What a binding that fires contributes to the frontier. */
  ghost predicate Contributes(a: Arena, branch: nat, le: (Lineage, Lineage) -> bool, c: Candidate)
    requires branch < |a.contexts|
  {
    && CandidateOk(a, c) && LeastSupports(a, c, le)
    && Fires(a, branch, c.key.schema, c.key.roles) && c.context == ContextOf(a, branch, c.key.schema)
  }

  /** More bindings fire than a frontier may hold, or one of them has too long an ancestry. */
  ghost predicate Exceeds(a: Arena, branch: nat, policy: Policy, le: (Lineage, Lineage) -> bool)
    requires branch < |a.contexts|
  {
    || (exists c :: Contributes(a, branch, le, c) && |CandidateAncestry(c)| > policy.maxAncestry)
    || exists found :: AllFire(a, branch, found) && |found| > policy.maxFrontier
  }

  ghost predicate AllFire(a: Arena, branch: nat, found: map<DerivationKey, Candidate>)
    requires branch < |a.contexts|
  {
    forall k | k in found :: Fires(a, branch, k.schema, k.roles) && k == KeyOf(k.schema, k.roles)
  }

  /** One schema over the whole pool. */
  method Discover(a: Arena, branch: nat, s: Schema, policy: Policy, le: (Lineage, Lineage) -> bool, start: map<DerivationKey, Candidate>)
    returns (ok: bool, found: map<DerivationKey, Candidate>)
    requires ArenaOk(a) && TotalPreorder(le) && branch < |a.contexts|
    requires FoundOk(a, branch, policy, le, start) && AllFire(a, branch, start) && forall k | k in start :: k.schema != s
    requires |start| <= policy.maxFrontier
    ensures |found| <= policy.maxFrontier || !ok
    ensures !ok ==> Exceeds(a, branch, policy, le)
    ensures ok ==> AllFire(a, branch, found)
    ensures ok ==> FoundOk(a, branch, policy, le, found) && FrontierOf(a, branch, s, Bindings(Pool(a, branch), Arity(s)), found)
    ensures ok ==> forall k: DerivationKey | k.schema != s :: (k in found <==> k in start) && (k in start ==> found[k] == start[k])
  {
    hide TotalPreorder, ArenaOk, Witnessed, Concludes, Find, CandidateOk, LeastSupports, Pool, Bindings;
    hide CandidateAncestry, FrontierOf, FoundOk, Fires;
    var all := Bindings(Pool(a, branch), Arity(s));
    var context := ContextOf(a, branch, s);
    found := start;
    var todo := all;
    StartFrontier(a, branch, s, all, found);
    while todo != {}
      invariant todo <= all
      invariant FoundOk(a, branch, policy, le, found) && FrontierOf(a, branch, s, all - todo, found) && AllFire(a, branch, found)
      invariant |found| <= policy.maxFrontier
      invariant forall k: DerivationKey | k.schema != s :: (k in found <==> k in start) && (k in start ==> found[k] == start[k])
      decreases |todo|
    {
      var parents :| parents in todo;
      BindingsAre(Pool(a, branch), Arity(s), parents);
      var c := TryBinding(a, branch, s, parents, le);
      if c.Some? {
        FiringKey(a, branch, s, parents, c.value);
        if |CandidateAncestry(c.value)| > policy.maxAncestry {
          assert Contributes(a, branch, le, c.value);
          return false, found;
        }
        AddFound(a, branch, s, policy, le, all, todo, found, parents, c.value);
        found := found[c.value.key := c.value];
        if |found| > policy.maxFrontier {
          assert AllFire(a, branch, found);
          return false, found;
        }
      } else {
        SkipFound(a, branch, s, all, todo, found, parents);
      }
      todo := todo - {parents};
    }
    assert all - todo == all;
    ok := true;
  }

  lemma FiringKey(a: Arena, branch: nat, s: Schema, parents: seq<Ask>, c: Candidate)
    requires branch < |a.contexts| && Fires(a, branch, s, parents) && c.key == KeyOf(s, parents)
    ensures c.key.schema == s && c.key.roles == parents
  {
  }

  /** One binding: filtered, matched, checked against what was already used, and witnessed. */
  method TryBinding(a: Arena, branch: nat, s: Schema, parents: seq<Ask>, le: (Lineage, Lineage) -> bool) returns (r: Option<Candidate>)
    requires ArenaOk(a) && TotalPreorder(le) && branch < |a.contexts|
    requires forall i | 0 <= i < |parents| :: parents[i] in Pool(a, branch)
    ensures r.Some? <==> Fires(a, branch, s, parents)
    ensures r.Some? ==> r.value.key == KeyOf(s, parents) && r.value.context == ContextOf(a, branch, s)
    ensures r.Some? ==> CandidateOk(a, r.value) && LeastSupports(a, r.value, le)
    ensures r.Some? ==> Instance(s, parents, r.value.key.conclusion)
    ensures r.None? ==> forall z: Ask | Instance(s, parents, z) ::
              var key, context := DerivationKey(z, s, parents), ContextOf(a, branch, s);
              || (key, context) in a.completed || (exists i :: 0 <= i < |a.records| && a.records[i].key == key && a.records[i].context == context)
              || exists i :: 0 <= i < |parents| && !Witnessed(a, context, z, parents[i])
  {
    hide TotalPreorder, LeastWitness, ArenaOk, Witnessed, Concludes, Instance, Find, CandidateOk, Pool;
    if Concludes(s, parents).Some? { ConcludesRoles(s, parents); }
    forall z: Ask ensures Instance(s, parents, z) <==> Concludes(s, parents).Some? && z == DerivedAsk(Concludes(s, parents).value, parents) {
      InstanceIff(s, parents, z);
    }
    var claim := Concludes(s, parents);
    if claim.None? { return None; }
    ConcludesRoles(s, parents);
    var key, context := KeyOf(s, parents), ContextOf(a, branch, s);
    if (key, context) in a.completed { return None; }
    FindFinds(a.records, key, context);
    if Find(a.records, key, context).Some? { return None; }
    PooledRoots(a, branch, parents);
    r := Witnesses(a, context, key, le);
  }

  /** A conclusion over the pool of a branch needs no root the branch does not assume. */
  lemma PooledRoots(a: Arena, branch: nat, parents: seq<Ask>)
    requires branch < |a.contexts| && forall i | 0 <= i < |parents| :: parents[i] in Pool(a, branch)
    ensures AllRoots(parents) <= a.contexts[branch]
  {
  }

  lemma ConcludesRoles(s: Schema, parents: seq<Ask>)
    requires Concludes(s, parents).Some?
    ensures |parents| == Arity(s) && parents != []
  {
  }

  lemma StartFrontier(a: Arena, branch: nat, s: Schema, all: set<seq<Ask>>, found: map<DerivationKey, Candidate>)
    requires branch < |a.contexts| && forall k | k in found :: k.schema != s
    ensures FrontierOf(a, branch, s, all - all, found)
  {
  }

  lemma AddFound(a: Arena, branch: nat, s: Schema, policy: Policy, le: (Lineage, Lineage) -> bool, all: set<seq<Ask>>, todo: set<seq<Ask>>,
                 found: map<DerivationKey, Candidate>, parents: seq<Ask>, c: Candidate)
    requires branch < |a.contexts| && parents in todo && todo <= all
    requires FoundOk(a, branch, policy, le, found) && FrontierOf(a, branch, s, all - todo, found)
    requires Fires(a, branch, s, parents) && c.key == KeyOf(s, parents) && c.context == ContextOf(a, branch, s) && CandidateOk(a, c)
    requires LeastSupports(a, c, le) && |CandidateAncestry(c)| <= policy.maxAncestry
    ensures FoundOk(a, branch, policy, le, found[c.key := c]) && FrontierOf(a, branch, s, all - (todo - {parents}), found[c.key := c])
  {
    hide Concludes, CandidateOk, LeastSupports, CandidateAncestry, Witnessed, Find, Pool;
    assert all - (todo - {parents}) == (all - todo) + {parents};
  }

  lemma SkipFound(a: Arena, branch: nat, s: Schema, all: set<seq<Ask>>, todo: set<seq<Ask>>, found: map<DerivationKey, Candidate>, parents: seq<Ask>)
    requires branch < |a.contexts| && parents in todo && todo <= all
    requires FrontierOf(a, branch, s, all - todo, found) && !Fires(a, branch, s, parents)
    ensures FrontierOf(a, branch, s, all - (todo - {parents}), found)
  {
    hide Concludes, Witnessed, Find, Pool;
    assert all - (todo - {parents}) == (all - todo) + {parents};
  }

  /** The complete frontier: exactly the bindings of either schema that fire in this branch. */
  ghost predicate CompleteFrontier(a: Arena, branch: nat, found: map<DerivationKey, Candidate>)
    requires branch < |a.contexts|
  {
    && (forall k | k in found :: Fires(a, branch, k.schema, k.roles) && k == KeyOf(k.schema, k.roles))
    && forall s: Schema, p: seq<Ask> | Fires(a, branch, s, p) :: KeyOf(s, p) in found
  }

  /** Some binding that fires has a constraint check that does not complete. */
  ghost predicate SomeIncomplete(a: Arena, branch: nat, le: (Lineage, Lineage) -> bool, verdict: Candidate -> Verdict)
    requires branch < |a.contexts|
  {
    exists c :: Contributes(a, branch, le, c) && verdict(c).Incomplete?
  }

  /** With every conclusion of the frontier the branch would hold more assertions than allowed. */
  ghost predicate Overfull(a: Arena, branch: nat, policy: Policy)
    requires branch < |a.contexts|
  {
    exists found :: CompleteFrontier(a, branch, found) && |a.asserted + Conclusions(found.Keys)| > policy.maxAssertions
  }

  /** All complete frontiers have the same bindings. */
  lemma SameFrontier(a: Arena, branch: nat, found: map<DerivationKey, Candidate>, other: map<DerivationKey, Candidate>)
    requires branch < |a.contexts| && CompleteFrontier(a, branch, found) && CompleteFrontier(a, branch, other)
    ensures found.Keys == other.Keys
  {
    hide Fires, KeyOf, Concludes;
  }

  lemma OverfullIs(a: Arena, branch: nat, policy: Policy, found: map<DerivationKey, Candidate>)
    requires branch < |a.contexts| && CompleteFrontier(a, branch, found)
    ensures Overfull(a, branch, policy) <==> |a.asserted + Conclusions(found.Keys)| > policy.maxAssertions
  {
    hide CompleteFrontier, Conclusions;
    forall other | CompleteFrontier(a, branch, other) ensures other.Keys == found.Keys { SameFrontier(a, branch, found, other); }
  }

  /** Least supports under an antisymmetric order leave one candidate for each binding. */
  lemma OneCandidate(a: Arena, le: (Lineage, Lineage) -> bool, c: Candidate, o: Candidate)
    requires Antisymmetric(le) && c.key == o.key && c.context == o.context
    requires CandidateOk(a, c) && CandidateOk(a, o) && LeastSupports(a, c, le) && LeastSupports(a, o, le)
    ensures c == o
  {
    hide Concludes, Find, InPlace, Paths, SupportOk;
    forall k | 0 <= k < |c.supports| ensures c.supports[k] == o.supports[k] && c.ancestors[k] == o.ancestors[k] {
      assert LeastWitness(a, c.context, c.key.conclusion, c.key.roles[k], le, c.supports[k]);
      assert LeastWitness(a, o.context, o.key.conclusion, o.key.roles[k], le, o.supports[k]);
      assert WitnessOk(a, c.context, c.key.conclusion, c.key.roles[k], c.supports[k], c.ancestors[k]);
      assert WitnessOk(a, o.context, o.key.conclusion, o.key.roles[k], o.supports[k], o.ancestors[k]);
    }
  }

  /** A complete frontier within the bounds holds whatever contributes, so no bound is exceeded. */
  lemma FrontierDecides(a: Arena, branch: nat, policy: Policy, le: (Lineage, Lineage) -> bool, found: map<DerivationKey, Candidate>)
    requires branch < |a.contexts| && Antisymmetric(le)
    requires CompleteFrontier(a, branch, found) && FoundOk(a, branch, policy, le, found) && |found| <= policy.maxFrontier
    ensures forall c | Contributes(a, branch, le, c) :: c.key in found && found[c.key] == c
    ensures forall k | k in found :: Contributes(a, branch, le, found[k])
    ensures !Exceeds(a, branch, policy, le)
  {
    hide Fires, Antisymmetric, LeastSupports, CandidateAncestry, KeyOf, Concludes, Witnessed, WitnessOk, Find, InPlace;
    forall c | Contributes(a, branch, le, c) ensures c.key in found && found[c.key] == c {
      assert Fires(a, branch, c.key.schema, c.key.roles);
      OneCandidate(a, le, found[c.key], c);
    }
    forall other: map<DerivationKey, Candidate> | AllFire(a, branch, other) ensures |other| <= |found| {
      assert other.Keys <= found.Keys;
      SubsetCardinality(other.Keys, found.Keys);
      assert |other| == |other.Keys| && |found| == |found.Keys|;
    }
  }

  /** Both schemas; it overflows exactly when a bound is exceeded, if the order of records leaves no ties. */
  method Candidates(a: Arena, branch: nat, policy: Policy, le: (Lineage, Lineage) -> bool) returns (r: Discovery)
    requires ArenaOk(a) && TotalPreorder(le)
    ensures r.UnknownBranch? <==> branch >= |a.contexts|
    ensures r.Overflow? ==> branch < |a.contexts| && Exceeds(a, branch, policy, le)
    ensures Antisymmetric(le) ==> (r.Overflow? <==> branch < |a.contexts| && Exceeds(a, branch, policy, le))
    ensures r.Frontier? ==> branch < |a.contexts| && CompleteFrontier(a, branch, r.candidates) && FoundOk(a, branch, policy, le, r.candidates)
    ensures r.Frontier? ==> |r.candidates| <= policy.maxFrontier
  {
    hide TotalPreorder, Antisymmetric, ArenaOk, Fires, CandidateOk, Bindings, FoundOk, FrontierOf, Exceeds;
    hide CompleteFrontier;
    if branch >= |a.contexts| { return UnknownBranch; }
    NothingFound(a, branch, policy, le);
    var ok, first := Discover(a, branch, ModusPonens, policy, le, map[]);
    if !ok { return Overflow; }
    var found;
    NoOtherSchema(a, branch, first);
    ok, found := Discover(a, branch, Composition, policy, le, first);
    if !ok { return Overflow; }
    BothSchemas(a, branch, first, found);
    if Antisymmetric(le) { FrontierDecides(a, branch, policy, le, found); }
    r := Frontier(found);
  }

  lemma NothingFound(a: Arena, branch: nat, policy: Policy, le: (Lineage, Lineage) -> bool)
    requires branch < |a.contexts|
    ensures FoundOk(a, branch, policy, le, map[])
  {
  }

  lemma NoOtherSchema(a: Arena, branch: nat, first: map<DerivationKey, Candidate>)
    requires forall k: DerivationKey | k.schema != ModusPonens :: k !in first
    ensures forall k | k in first :: k.schema != Composition
  {
  }

  lemma BothSchemas(a: Arena, branch: nat, first: map<DerivationKey, Candidate>, found: map<DerivationKey, Candidate>)
    requires branch < |a.contexts|
    requires FrontierOf(a, branch, ModusPonens, Bindings(Pool(a, branch), Arity(ModusPonens)), first)
    requires FrontierOf(a, branch, Composition, Bindings(Pool(a, branch), Arity(Composition)), found)
    requires forall k: DerivationKey | k.schema != Composition :: k in found <==> k in first
    requires forall k: DerivationKey | k.schema != ModusPonens :: k !in first
    ensures CompleteFrontier(a, branch, found)
  {
    hide Concludes, Witnessed, Find, Pool, Bindings;
    forall s: Schema, p: seq<Ask> | Fires(a, branch, s, p) ensures KeyOf(s, p) in found {
      ConcludesRoles(s, p);
      BindingsAre(Pool(a, branch), Arity(s), p);
    }
  }

  // ----- evaluation and publication -----------------------------------------------------

  function LineageOf(c: Candidate): Lineage { Lineage(c.key, c.context, CandidateAncestry(c), c.supports) }

  function Recorded(a: Arena, c: Candidate): Arena {
    a.(records := a.records + [LineageOf(c)], asserted := a.asserted + {c.key.conclusion})
  }

  /** A candidate never is its own ancestor, so its lineage is never refused. */
  lemma CandidateAcyclic(a: Arena, c: Candidate)
    requires CandidateOk(a, c)
    ensures c.key.conclusion !in CandidateAncestry(c)
    ensures CandidateAncestry(c) == Elements(c.key.roles) + SupportAncestry(a.records, c.supports)
  {
    hide Concludes, Find;
    forall k | 0 <= k < |c.supports|
      ensures c.key.roles[k] != c.key.conclusion && c.key.conclusion !in c.ancestors[k] && c.ancestors[k] == AncestryOf(a.records, c.supports[k])
    {
      assert WitnessOk(a, c.context, c.key.conclusion, c.key.roles[k], c.supports[k], c.ancestors[k]);
    }
  }

  lemma RecordKeeps(a: Arena, c: Candidate)
    requires ArenaOk(a) && CandidateOk(a, c)
    ensures ArenaOk(Recorded(a, c))
  {
    hide Concludes, Find, AncestryOf;
    CandidateAcyclic(a, c);
    var next := Recorded(a, c);
    assert next.records[..|a.records|] == a.records;
    assert LineageOk(a.sources, a.records, LineageOf(c)) by {
      forall k | 0 <= k < |c.supports| ensures SupportOk(a.sources, a.records, c.context, c.key.roles[k], c.supports[k]) {
        assert WitnessOk(a, c.context, c.key.conclusion, c.key.roles[k], c.supports[k], c.ancestors[k]);
      }
    }
    RecordsOkMore(a.sources, a.records, LineageOf(c));
    forall x | x in next.asserted && x.basis.Derived? ensures HasRecord(next.records, x) {
      HasRecordMore(a.records, LineageOf(c), x);
    }
  }

  lemma RecordsOkMore(sources: map<Ask, set<int>>, records: seq<Lineage>, r: Lineage)
    requires RecordsOk(sources, records) && LineageOk(sources, records, r)
    ensures RecordsOk(sources, records + [r])
  {
    assert (records + [r])[..|records|] == records;
  }

  lemma HasRecordMore(records: seq<Lineage>, r: Lineage, x: Ask)
    requires HasRecord(records, x) || r.Conclusion() == x
    ensures HasRecord(records + [r], x)
  {
    var more := records + [r];
    if HasRecord(records, x) {
      var i :| 0 <= i < |records| && records[i].Conclusion() == x;
      assert more[i].Conclusion() == x;
    } else {
      assert more[|records|].Conclusion() == x;
    }
  }

  /** Recording one candidate leaves every other candidate of the frontier as it was. */
  lemma CandidateStays(a: Arena, c: Candidate, o: Candidate)
    requires CandidateOk(a, c) && CandidateOk(a, o) && c.key != o.key
    ensures CandidateOk(Recorded(a, c), o)
  {
    hide Concludes, Find, AncestryOf;
    FindSkips(a.records, LineageOf(c), o.key, o.context);
    forall k | 0 <= k < |o.supports|
      ensures WitnessOk(Recorded(a, c), o.context, o.key.conclusion, o.key.roles[k], o.supports[k], o.ancestors[k])
    {
      assert WitnessOk(a, o.context, o.key.conclusion, o.key.roles[k], o.supports[k], o.ancestors[k]);
      SupportStays(a.sources, a.records, LineageOf(c), o.context, o.key.roles[k], o.supports[k]);
    }
  }

  function With(found: map<DerivationKey, Candidate>, verdict: Candidate -> Verdict, done: set<DerivationKey>, v: Verdict): (r: set<DerivationKey>)
    ensures r <= found.Keys
  {
    set k | k in done && k in found && verdict(found[k]) == v
  }

  function Conclusions(keys: set<DerivationKey>): set<Ask> { set k | k in keys :: k.conclusion }

  function Uses(found: map<DerivationKey, Candidate>, keys: set<DerivationKey>): set<(DerivationKey, Context)> {
    set k | k in keys && k in found :: (k, found[k].context)
  }

  /** What evaluating part of a frontier has written. */
  ghost predicate Evaluated(a: Arena, cur: Arena, found: map<DerivationKey, Candidate>, verdict: Candidate -> Verdict, done: set<DerivationKey>) {
    && a.records <= cur.records && cur.sources == a.sources && cur.constraints == a.constraints && cur.premises == a.premises && cur.contexts == a.contexts
    && cur.asserted == a.asserted + Conclusions(With(found, verdict, done, Clear))
    && cur.completed == a.completed + Uses(found, With(found, verdict, done, Blocked))
    && |cur.records| == |a.records| + |With(found, verdict, done, Clear)|
    && forall k | k in With(found, verdict, done, Clear) :: LineageOf(found[k]) in cur.records
  }

  /** What one verdict writes. */
  function Written(cur: Arena, c: Candidate, v: Verdict): Arena {
    match v
    case Clear => Recorded(cur, c)
    case Blocked => cur.(completed := cur.completed + {(c.key, c.context)})
    case Incomplete => cur
  }

  lemma WithStep(found: map<DerivationKey, Candidate>, verdict: Candidate -> Verdict,
                 all: set<DerivationKey>, todo: set<DerivationKey>, k: DerivationKey, v: Verdict)
    requires k in todo && todo <= all && k in found
    ensures var before, after := With(found, verdict, all - todo, v), With(found, verdict, all - (todo - {k}), v);
            k !in before && after == before + (if verdict(found[k]) == v then {k} else {})
  {
  }

  lemma EvaluatedStep(a: Arena, cur: Arena, found: map<DerivationKey, Candidate>, verdict: Candidate -> Verdict,
                      all: set<DerivationKey>, todo: set<DerivationKey>, k: DerivationKey)
    requires Evaluated(a, cur, found, verdict, all - todo) && k in todo && todo <= all && k in found && found[k].key == k
    ensures Evaluated(a, Written(cur, found[k], verdict(found[k])), found, verdict, all - (todo - {k}))
  {
    hide With, Conclusions, Uses, CandidateAncestry, LineageOf, Evaluated;
    match verdict(found[k])
    case Clear => ClearStep(a, cur, found, verdict, all, todo, k);
    case Blocked => BlockedStep(a, cur, found, verdict, all, todo, k);
    case Incomplete => IncompleteStep(a, cur, found, verdict, all, todo, k);
  }

  lemma ClearStep(a: Arena, cur: Arena, found: map<DerivationKey, Candidate>, verdict: Candidate -> Verdict,
                      all: set<DerivationKey>, todo: set<DerivationKey>, k: DerivationKey)
    requires Evaluated(a, cur, found, verdict, all - todo) && k in todo && todo <= all && k in found && found[k].key == k
    requires verdict(found[k]).Clear?
    ensures Evaluated(a, Recorded(cur, found[k]), found, verdict, all - (todo - {k}))
  {
    hide With, Conclusions, Uses, CandidateAncestry, LineageOf;
    WithStep(found, verdict, all, todo, k, Clear);
    WithStep(found, verdict, all, todo, k, Blocked);
    var clear, blocked := With(found, verdict, all - todo, Clear), With(found, verdict, all - todo, Blocked);
    AddsOne(found, clear, blocked, k);
    assert blocked + {} == blocked;
    var next := Recorded(cur, found[k]);
    assert next.records[|cur.records|] == LineageOf(found[k]);
    forall x | x in clear + {k} ensures LineageOf(found[x]) in next.records {}
  }

  lemma BlockedStep(a: Arena, cur: Arena, found: map<DerivationKey, Candidate>, verdict: Candidate -> Verdict,
                      all: set<DerivationKey>, todo: set<DerivationKey>, k: DerivationKey)
    requires Evaluated(a, cur, found, verdict, all - todo) && k in todo && todo <= all && k in found && found[k].key == k
    requires verdict(found[k]).Blocked?
    ensures Evaluated(a, cur.(completed := cur.completed + {(k, found[k].context)}), found, verdict, all - (todo - {k}))
  {
    hide With, Conclusions, Uses, CandidateAncestry, LineageOf;
    WithStep(found, verdict, all, todo, k, Clear);
    WithStep(found, verdict, all, todo, k, Blocked);
    var clear, blocked := With(found, verdict, all - todo, Clear), With(found, verdict, all - todo, Blocked);
    AddsOne(found, clear, blocked, k);
    assert clear + {} == clear;
  }

  lemma IncompleteStep(a: Arena, cur: Arena, found: map<DerivationKey, Candidate>, verdict: Candidate -> Verdict,
                      all: set<DerivationKey>, todo: set<DerivationKey>, k: DerivationKey)
    requires Evaluated(a, cur, found, verdict, all - todo) && k in todo && todo <= all && k in found && found[k].key == k
    requires verdict(found[k]).Incomplete?
    ensures Evaluated(a, cur, found, verdict, all - (todo - {k}))
  {
    hide With, Conclusions, Uses, CandidateAncestry, LineageOf;
    WithStep(found, verdict, all, todo, k, Clear);
    WithStep(found, verdict, all, todo, k, Blocked);
    var clear, blocked := With(found, verdict, all - todo, Clear), With(found, verdict, all - todo, Blocked);
    assert clear + {} == clear && blocked + {} == blocked;
  }

  lemma AddsOne(found: map<DerivationKey, Candidate>, clear: set<DerivationKey>, blocked: set<DerivationKey>, k: DerivationKey)
    requires k in found
    ensures Conclusions(clear + {k}) == Conclusions(clear) + {k.conclusion}
    ensures Uses(found, blocked + {k}) == Uses(found, blocked) + {(k, found[k].context)}
    ensures k !in clear ==> |clear + {k}| == |clear| + 1
  {
  }

  /** Evaluate a frontier against the constraint check: record what is clear, note what is blocked. */
  method EvaluateFrontier(a: Arena, found: map<DerivationKey, Candidate>, verdict: Candidate -> Verdict) returns (next: Arena, incomplete: bool)
    requires ArenaOk(a) && forall k | k in found :: found[k].key == k && CandidateOk(a, found[k])
    ensures ArenaOk(next) && Evaluated(a, next, found, verdict, found.Keys)
    ensures incomplete <==> exists k :: k in found && verdict(found[k]).Incomplete?
  {
    hide ArenaOk, CandidateOk, CandidateAncestry, Evaluated, With;
    next, incomplete := a, false;
    var todo := found.Keys;
    NothingEvaluated(a, found, verdict, todo);
    while todo != {}
      invariant todo <= found.Keys && ArenaOk(next)
      invariant forall k | k in todo :: CandidateOk(next, found[k])
      invariant Evaluated(a, next, found, verdict, found.Keys - todo)
      invariant incomplete <==> exists k :: k in found.Keys - todo && verdict(found[k]).Incomplete?
      decreases |todo|
    {
      var k :| k in todo;
      var c := found[k];
      EvaluatedStep(a, next, found, verdict, found.Keys, todo, k);
      match verdict(c) {
        case Incomplete => incomplete := true;
        case Blocked =>
          BlockedKeeps(next, k, c.context, found, todo);
          next := next.(completed := next.completed + {(k, c.context)});
        case Clear =>
          RecordKeeps(next, c);
          forall o | o in todo && o != k ensures CandidateOk(Recorded(next, c), found[o]) {
            CandidateStays(next, c, found[o]);
          }
          next := Recorded(next, c);
      }
      todo := todo - {k};
    }
    assert found.Keys - todo == found.Keys;
  }

  lemma NothingEvaluated(a: Arena, found: map<DerivationKey, Candidate>, verdict: Candidate -> Verdict, all: set<DerivationKey>)
    ensures Evaluated(a, a, found, verdict, all - all)
  {
    assert With(found, verdict, {}, Clear) == {} && With(found, verdict, {}, Blocked) == {};
    assert Conclusions({}) == {} && Uses(found, {}) == {};
    assert all - all == {};
    assert a.asserted + {} == a.asserted && a.completed + {} == a.completed;
  }

  lemma BlockedKeeps(a: Arena, k: DerivationKey, context: Context, found: map<DerivationKey, Candidate>, todo: set<DerivationKey>)
    requires ArenaOk(a) && k in todo && todo <= found.Keys && forall o | o in todo :: CandidateOk(a, found[o]) && found[o].key == o
    requires found[k].context == context
    ensures ArenaOk(a.(completed := a.completed + {(k, context)}))
    ensures forall o | o in todo - {k} :: CandidateOk(a.(completed := a.completed + {(k, context)}), found[o])
  {
    hide Concludes, Find, AncestryOf, RecordsOk;
    var next := a.(completed := a.completed + {(k, context)});
    FindFinds(a.records, k, context);
    forall i | 0 <= i < |a.records| ensures InPlace(next, a.records[i].key, a.records[i].context) {
      assert InPlace(a, a.records[i].key, a.records[i].context);
    }
    forall o | o in todo - {k} ensures CandidateOk(next, found[o]) {
      var c := found[o];
      forall i | 0 <= i < |c.supports| ensures WitnessOk(next, c.context, c.key.conclusion, c.key.roles[i], c.supports[i], c.ancestors[i]) {
        assert WitnessOk(a, c.context, c.key.conclusion, c.key.roles[i], c.supports[i], c.ancestors[i]);
      }
    }
  }

  datatype RoundResult = Round(arena: Arena, fixedPoint: bool) | Refused

  /**
   One round: discover the whole frontier, evaluate it, and publish all of it or nothing.
   It is refused for an unknown branch, a frontier or an arena over its bounds or an incomplete check only.
   `settled` says whether the check of the assertions already admitted completes.
   */
  method RunRound(a: Arena, branch: nat, policy: Policy, le: (Lineage, Lineage) -> bool, verdict: Candidate -> Verdict, settled: bool)
      returns (r: RoundResult, ghost found: map<DerivationKey, Candidate>)
    requires ArenaOk(a) && TotalPreorder(le)
    ensures r.Round? ==> branch < |a.contexts| && ArenaOk(r.arena)
    ensures r.Round? ==> CompleteFrontier(a, branch, found) && FoundOk(a, branch, policy, le, found) && |found| <= policy.maxFrontier
    ensures r.Round? ==> Evaluated(a, r.arena, found, verdict, found.Keys) && forall k | k in found :: !verdict(found[k]).Incomplete?
    ensures r.Round? && LastAdmitsAll(a) ==> LastAdmitsAll(r.arena)
    ensures r.Round? ==> (r.fixedPoint <==> forall s: Schema, p: seq<Ask> :: !Fires(a, branch, s, p))
    ensures r.Round? ==> Grows(a, r.arena) && (r.fixedPoint ==> r.arena == a)
    ensures r.Refused? ==> branch >= |a.contexts| || Exceeds(a, branch, policy, le) || Overfull(a, branch, policy) || !settled
                           || (CompleteFrontier(a, branch, found) && exists k :: k in found && verdict(found[k]).Incomplete?)
    ensures Antisymmetric(le) ==> (r.Refused? <==> branch >= |a.contexts| || Exceeds(a, branch, policy, le) || Overfull(a, branch, policy)
                                                   || !settled || SomeIncomplete(a, branch, le, verdict))
    ensures r.Round? ==> settled && |r.arena.asserted| <= policy.maxAssertions
  {
    hide TotalPreorder, Antisymmetric, ArenaOk, Fires, CandidateOk, CandidateAncestry, Exceeds, Overfull;
    hide Conclusions, With, LeastSupports, Contributes, CompleteFrontier;
    found := map[];
    var f := Candidates(a, branch, policy, le);
    if !f.Frontier? { return Refused, found; }
    found := f.candidates;
    var next, incomplete := EvaluateFrontier(a, f.candidates, verdict);
    if Antisymmetric(le) { FrontierDecides(a, branch, policy, le, found); }
    OverfullIs(a, branch, policy, found);
    FixedPointIs(a, branch, found);
    if |a.asserted + Conclusions(f.candidates.Keys)| > policy.maxAssertions { return Refused, found; }
    if incomplete || !settled { return Refused, found; }
    if LastAdmitsAll(a) { RoundAdmitted(a, branch, f.candidates, verdict, next); }
    EvaluatedGrows(a, next, found, verdict);
    EvaluatedFits(a, next, found, verdict);
    r := Round(next, f.candidates.Keys == {});
  }

  /** The frontier is empty exactly when no binding fires. */
  lemma FixedPointIs(a: Arena, branch: nat, found: map<DerivationKey, Candidate>)
    requires branch < |a.contexts| && CompleteFrontier(a, branch, found)
    ensures found.Keys == {} <==> forall s: Schema, p: seq<Ask> :: !Fires(a, branch, s, p)
  {
    hide Fires, Concludes;
    if k :| k in found.Keys { assert Fires(a, branch, k.schema, k.roles); }
  }

  lemma EvaluatedFits(a: Arena, next: Arena, found: map<DerivationKey, Candidate>, verdict: Candidate -> Verdict)
    requires Evaluated(a, next, found, verdict, found.Keys)
    ensures |next.asserted| <= |a.asserted + Conclusions(found.Keys)|
  {
    SubsetCardinality(next.asserted, a.asserted + Conclusions(found.Keys));
  }

  /** Nothing published is lost: assertions, sources, records, blocked uses, constraints and branches only grow. */
  ghost predicate Grows(a: Arena, b: Arena) {
    && a.asserted <= b.asserted && MoreSources(a.sources, b.sources) && a.records <= b.records
    && a.completed <= b.completed && a.constraints <= b.constraints && a.premises <= b.premises && a.contexts <= b.contexts
  }

  lemma GrowsFurther(a: Arena, b: Arena, c: Arena)
    requires Grows(a, b) && Grows(b, c)
    ensures Grows(a, c)
  {
  }

  lemma EvaluatedGrows(a: Arena, next: Arena, found: map<DerivationKey, Candidate>, verdict: Candidate -> Verdict)
    requires Evaluated(a, next, found, verdict, found.Keys)
    ensures Grows(a, next) && (found.Keys == {} ==> next == a)
  {
    if found.Keys == {} {
      assert With(found, verdict, found.Keys, Clear) == {} && With(found, verdict, found.Keys, Blocked) == {};
    }
  }

  // ----- seeding ------------------------------------------------------------------------

  function AllKnown(contexts: seq<set<int>>): set<int> { if contexts == [] then {} else contexts[|contexts| - 1] }

  /** Branches grow by assuming more: each contains the one before. */
  predicate Chained(contexts: seq<set<int>>) { forall i, j | 0 <= i <= j < |contexts| :: contexts[i] <= contexts[j] }

  /** The last branch assumes every root any assertion depends on. */
  ghost predicate LastAdmitsAll(a: Arena) {
    Chained(a.contexts) && forall x | x in a.asserted :: a.contexts != [] && x.roots <= AllKnown(a.contexts)
  }

  /** The branches there are, the first one being empty. */
  function Opened(contexts: seq<set<int>>): seq<set<int>> { if contexts == [] then [{}] else contexts }

  /** The new roots each need a branch, and the number of the last one is bounded. */
  predicate RoomForRoots(contexts: seq<set<int>>, roots: set<int>, maxBranches: nat) {
    var unseen := roots - AllKnown(Opened(contexts));
    unseen == {} || |Opened(contexts)| - 1 + |unseen| <= maxBranches
  }

  /** Each root not yet assumed opens a branch that assumes it on top of the last. */
  method OpenBranches(contexts: seq<set<int>>, roots: set<int>, maxBranches: nat) returns (ok: bool, more: seq<set<int>>)
    requires Chained(contexts)
    ensures ok <==> RoomForRoots(contexts, roots, maxBranches)
    ensures ok ==> more != [] && Chained(more) && contexts <= more && AllKnown(more) == AllKnown(Opened(contexts)) + roots
    ensures ok ==> |more| == |Opened(contexts)| + |roots - AllKnown(Opened(contexts))|
  {
    hide Chained, AllKnown, Opening;
    FirstBranch();
    more := Opened(contexts);
    var unseen := roots - AllKnown(more);
    var todo := unseen;
    OpeningStarts(contexts, unseen);
    while todo != {}
      invariant todo <= unseen && Opening(contexts, unseen, todo, more)
      invariant todo == unseen || |more| - 1 <= maxBranches
      decreases |todo|
    {
      var root := Min(todo);
      OpeningSize(contexts, unseen, todo, more);
      if |more| > maxBranches { return false, more; }
      OpeningStep(contexts, unseen, todo, more, root);
      more := more + [AllKnown(more) + {root}];
      todo := todo - {root};
    }
    OpeningEnds(contexts, roots, unseen, more);
    ok := true;
  }

  /** All but the roots in `todo` have their branch. */
  ghost predicate Opening(contexts: seq<set<int>>, unseen: set<int>, todo: set<int>, more: seq<set<int>>) {
    && todo <= unseen && more != [] && Chained(more) && contexts <= more
    && AllKnown(more) == AllKnown(Opened(contexts)) + (unseen - todo)
    && |more| + |todo| == |Opened(contexts)| + |unseen|
  }

  lemma OpeningStarts(contexts: seq<set<int>>, unseen: set<int>)
    requires Chained(contexts)
    ensures Opening(contexts, unseen, unseen, Opened(contexts))
  {
    assert AllKnown(Opened(contexts)) + (unseen - unseen) == AllKnown(Opened(contexts));
  }

  lemma OpeningSize(contexts: seq<set<int>>, unseen: set<int>, todo: set<int>, more: seq<set<int>>)
    requires Opening(contexts, unseen, todo, more) && todo != {}
    ensures |more| + |todo| == |Opened(contexts)| + |unseen| && |todo| >= 1
  {
  }

  lemma OpeningStep(contexts: seq<set<int>>, unseen: set<int>, todo: set<int>, more: seq<set<int>>, root: int)
    requires Opening(contexts, unseen, todo, more) && root in todo
    ensures Opening(contexts, unseen, todo - {root}, more + [AllKnown(more) + {root}])
  {
    hide Chained;
    ChainGrows(more, root);
    assert unseen - (todo - {root}) == (unseen - todo) + {root};
  }

  lemma OpeningEnds(contexts: seq<set<int>>, roots: set<int>, unseen: set<int>, more: seq<set<int>>)
    requires Opening(contexts, unseen, {}, more) && unseen == roots - AllKnown(Opened(contexts))
    ensures more != [] && Chained(more) && contexts <= more && AllKnown(more) == AllKnown(Opened(contexts)) + roots
    ensures |more| == |Opened(contexts)| + |unseen|
  {
    hide Chained;
  }

  /** What a seeding brings in: a sourced assertion, or an active constraint that depends on roots. */
  datatype Item = Assertion(x: Ask, occurrence: int) | Premise(constraint: int, premise: int, depends: set<int>)
  {
    function Roots(): set<int> { if Assertion? then x.roots else depends }
  }

  function ItemRoots(items: seq<Item>): set<int> { set i, r | 0 <= i < |items| && r in items[i].Roots() :: r }

  /** One item enters the arena; its branches are opened once for all items. */
  function Entered(a: Arena, item: Item): Arena {
    match item
    case Assertion(x, o) =>
      a.(asserted := a.asserted + {x}, sources := a.sources[x := (if x in a.sources then a.sources[x] else {}) + {o}])
    case Premise(constraint, premise, _) =>
      a.(constraints := a.constraints + {constraint}, premises := a.premises + {premise})
  }

  function EnteredAll(a: Arena, items: seq<Item>): Arena {
    if items == [] then a else Entered(EnteredAll(a, items[..|items| - 1]), items[|items| - 1])
  }

  ghost predicate Sourced(a: Arena, x: Ask, o: int) { x in a.sources && o in a.sources[x] }

  /** What a batch brings in: exactly its assertions, their occurrences, its constraints and its premises. */
  ghost predicate Brings(a: Arena, items: seq<Item>, b: Arena) {
    && (forall x :: x in b.asserted <==> x in a.asserted || exists i :: 0 <= i < |items| && items[i].Assertion? && items[i].x == x)
    && (forall x, o :: Sourced(b, x, o) <==> Sourced(a, x, o) || Assertion(x, o) in items)
    && (forall c :: c in b.constraints <==> c in a.constraints || exists i :: 0 <= i < |items| && items[i].Premise? && items[i].constraint == c)
    && (forall p :: p in b.premises <==> p in a.premises || exists i :: 0 <= i < |items| && items[i].Premise? && items[i].premise == p)
    && b.records == a.records && b.completed == a.completed && a.sources.Keys <= b.sources.Keys
  }

  lemma {:induction false} EnteredBrings(a: Arena, items: seq<Item>)
    ensures Brings(a, items, EnteredAll(a, items))
    decreases |items|
  {
    if items != [] {
      var init, item := items[..|items| - 1], items[|items| - 1];
      EnteredBrings(a, init);
      assert items == init + [item];
      BringsOne(EnteredAll(a, init), item);
      BringsMore(a, init, EnteredAll(a, init), item, Entered(EnteredAll(a, init), item));
    }
  }

  lemma BringsOne(b: Arena, item: Item)
    ensures Brings(b, [item], Entered(b, item))
  {
    var c := Entered(b, item);
    assert [item][0] == item;
    forall x, o ensures Sourced(c, x, o) <==> Sourced(b, x, o) || Assertion(x, o) in [item] {}
  }

  lemma BringsMore(a: Arena, init: seq<Item>, b: Arena, item: Item, c: Arena)
    requires Brings(a, init, b) && Brings(b, [item], c)
    ensures Brings(a, init + [item], c)
  {
    var items := init + [item];
    assert [item][0] == item && items[|init|] == item && forall i | 0 <= i < |init| :: items[i] == init[i];
    forall x ensures x in c.asserted <==> x in a.asserted || exists i :: 0 <= i < |items| && items[i].Assertion? && items[i].x == x {
      assert x in b.asserted <==> x in a.asserted || exists i :: 0 <= i < |init| && init[i].Assertion? && init[i].x == x;
    }
    forall k ensures k in c.constraints <==> k in a.constraints || exists i :: 0 <= i < |items| && items[i].Premise? && items[i].constraint == k {
      assert k in b.constraints <==> k in a.constraints || exists i :: 0 <= i < |init| && init[i].Premise? && init[i].constraint == k;
    }
    forall p ensures p in c.premises <==> p in a.premises || exists i :: 0 <= i < |items| && items[i].Premise? && items[i].premise == p {
      assert p in b.premises <==> p in a.premises || exists i :: 0 <= i < |init| && init[i].Premise? && init[i].premise == p;
    }
  }

  function SourcePairs(sources: map<Ask, set<int>>): (r: set<(Ask, int)>)
    ensures forall x, o :: (x, o) in r <==> x in sources && o in sources[x]
  {
    set x, o | x in sources && o in sources[x] :: (x, o)
  }

  /** The bounds on the complete semantic state. */
  ghost predicate Fits(a: Arena, policy: Policy) {
    |a.asserted| <= policy.maxAssertions && |SourcePairs(a.sources)| + |a.premises| <= policy.maxSources
  }

  ghost predicate ItemsOk(items: seq<Item>) {
    forall i | 0 <= i < |items| :: items[i].Assertion? ==> !items[i].x.basis.Derived?
  }

  /** A batch is seeded whole or refused whole: as too long, for want of branches, or for the bounds of the state. */
  ghost predicate Seedable(a: Arena, items: seq<Item>, policy: Policy) {
    |items| <= policy.maxSources && RoomForRoots(a.contexts, ItemRoots(items), policy.maxSources) && Fits(EnteredAll(a, items), policy)
  }

  /** The items enter, and each root not yet assumed opens a branch on top of the last. */
  ghost predicate Seeded(a: Arena, items: seq<Item>, b: Arena) {
    && b == EnteredAll(a, items).(contexts := b.contexts)
    && a.contexts <= b.contexts && AllKnown(b.contexts) == AllKnown(Opened(a.contexts)) + ItemRoots(items)
    && |b.contexts| == |Opened(a.contexts)| + |ItemRoots(items) - AllKnown(Opened(a.contexts))|
  }

  /** Source assertions and constraint premises enter together, and their new roots open branches. */
  method SeedSources(a: Arena, items: seq<Item>, policy: Policy) returns (ok: bool, next: Arena)
    requires ArenaOk(a) && LastAdmitsAll(a) && ItemsOk(items)
    ensures ArenaOk(next) && LastAdmitsAll(next) && Grows(a, next)
    ensures ok <==> Seedable(a, items, policy)
    ensures if ok then Seeded(a, items, next) else next == a
    ensures ok ==> Brings(a, items, next) && |items| <= policy.maxSources && |next.asserted| <= policy.maxAssertions
    ensures ok ==> |SourcePairs(next.sources)| + |next.premises| <= policy.maxSources
  {
    hide Brings, AllKnown, RoomForRoots, Entered, ArenaOk, LastAdmitsAll, SourcePairs, Grows, Chained;
    var contexts;
    next := a;
    GrowsFrom(a);
    if |items| > policy.maxSources { return false, a; }
    EnteringStarts(a);
    assert items[..0] == [];
    for i := 0 to |items|
      invariant next == EnteredAll(a, items[..i]) && Entering(a, items[..i], next)
    {
      assert items[..i + 1][..i] == items[..i];
      EnteringStep(a, items[..i + 1], next);
      next := Entered(next, items[i]);
    }
    assert items[..|items|] == items;
    LastIsChained(a);
    ok, contexts := OpenBranches(a.contexts, ItemRoots(items), policy.maxSources);
    if !ok || |next.asserted| > policy.maxAssertions || |SourcePairs(next.sources)| + |next.premises| > policy.maxSources { return false, a; }
    EnteredBrings(a, items);
    SameBrings(a, items, next, contexts);
    SeedKeeps(a, items, next, contexts);
    next := next.(contexts := contexts);
  }

  lemma SameBrings(a: Arena, items: seq<Item>, b: Arena, contexts: seq<set<int>>)
    requires Brings(a, items, b)
    ensures Brings(a, items, b.(contexts := contexts))
  {
    var c := b.(contexts := contexts);
    forall x, o ensures Sourced(c, x, o) <==> Sourced(b, x, o) {}
  }

  /** What entering items keeps before their branches are opened. */
  ghost predicate Entering(a: Arena, items: seq<Item>, b: Arena) {
    && ArenaOk(b) && Grows(a, b) && b.contexts == a.contexts
    && forall x | x in b.asserted :: x in a.asserted || x.roots <= ItemRoots(items)
  }

  lemma GrowsFrom(a: Arena)
    ensures Grows(a, a)
  {
  }

  lemma LastIsChained(a: Arena)
    requires LastAdmitsAll(a)
    ensures Chained(a.contexts)
  {
  }

  lemma EnteringStarts(a: Arena)
    requires ArenaOk(a)
    ensures Entering(a, [], a)
  {
    hide ArenaOk;
  }

  lemma EnteringStep(a: Arena, items: seq<Item>, b: Arena)
    requires items != [] && ItemsOk(items) && Entering(a, items[..|items| - 1], b)
    ensures Entering(a, items, Entered(b, items[|items| - 1]))
  {
    hide RecordsOk, InPlace;
    var init, item := items[..|items| - 1], items[|items| - 1];
    var next := Entered(b, item);
    MoreSourcesOk(b.sources, next.sources, b.records);
    GrowsFurther(a, b, next);
    forall i | 0 <= i < |b.records| ensures InPlace(next, b.records[i].key, b.records[i].context) {
      SameInPlace(b, next, b.records[i].key, b.records[i].context);
    }
    RootsMore(items);
  }

  lemma SameInPlace(a: Arena, b: Arena, key: DerivationKey, context: Context)
    requires a.completed == b.completed
    ensures InPlace(a, key, context) <==> InPlace(b, key, context)
  {
  }

  lemma RootsMore(items: seq<Item>)
    requires items != []
    ensures ItemRoots(items) == ItemRoots(items[..|items| - 1]) + items[|items| - 1].Roots()
  {
    var init := items[..|items| - 1];
    forall r ensures r in ItemRoots(items) <==> r in ItemRoots(init) + items[|items| - 1].Roots() {
      if r in ItemRoots(init) {
        var i :| 0 <= i < |init| && r in init[i].Roots();
        assert r in items[i].Roots();
      }
      if r in ItemRoots(items) {
        var i :| 0 <= i < |items| && r in items[i].Roots();
        assert i < |init| ==> init[i] == items[i];
      }
    }
  }

  lemma SeedKeeps(a: Arena, items: seq<Item>, entered: Arena, contexts: seq<set<int>>)
    requires LastAdmitsAll(a) && Entering(a, items, entered)
    requires contexts != [] && Chained(contexts) && a.contexts <= contexts && AllKnown(contexts) == AllKnown(Opened(a.contexts)) + ItemRoots(items)
    ensures var next := entered.(contexts := contexts); ArenaOk(next) && LastAdmitsAll(next) && Grows(a, next)
  {
    hide RecordsOk, Chained, ItemRoots, InPlace;
    var next := entered.(contexts := contexts);
    LastGrows(a.contexts, contexts);
    forall i | 0 <= i < |next.records| ensures InPlace(next, next.records[i].key, next.records[i].context) {
      SameInPlace(entered, next, next.records[i].key, next.records[i].context);
    }
  }

  lemma FirstBranch()
    ensures Chained([{}])
  {
  }

  lemma ChainGrows(contexts: seq<set<int>>, root: int)
    requires contexts != [] && Chained(contexts)
    ensures Chained(contexts + [AllKnown(contexts) + {root}])
    ensures AllKnown(contexts + [AllKnown(contexts) + {root}]) == AllKnown(contexts) + {root}
  {
  }

  lemma LastGrows(contexts: seq<set<int>>, more: seq<set<int>>)
    requires Chained(more) && contexts <= more
    ensures AllKnown(contexts) <= AllKnown(more)
  {
    if contexts != [] { assert contexts[|contexts| - 1] == more[|contexts| - 1]; }
  }

  /** A derived assertion depends on no more than its parents, so the last branch admits it too. */
  lemma RoundAdmitted(a: Arena, branch: nat, found: map<DerivationKey, Candidate>, verdict: Candidate -> Verdict, next: Arena)
    requires branch < |a.contexts| && LastAdmitsAll(a) && CompleteFrontier(a, branch, found)
    requires Evaluated(a, next, found, verdict, found.Keys)
    ensures LastAdmitsAll(next)
  {
    hide Concludes, Witnessed, Find, CandidateAncestry;
    forall x | x in next.asserted && x !in a.asserted ensures x.roots <= AllKnown(a.contexts) {
      var k :| k in found && k.conclusion == x;
      assert Fires(a, branch, k.schema, k.roles) && k == KeyOf(k.schema, k.roles);
      ConcludesRoles(k.schema, k.roles);
      forall o | o in x.roots ensures o in AllKnown(a.contexts) {
        var i :| 0 <= i < |k.roles| && o in k.roles[i].roots;
        assert k.roles[i] in Pool(a, branch);
        assert a.contexts[branch] <= AllKnown(a.contexts);
      }
    }
  }

  lemma EmptyOk()
    ensures ArenaOk(EmptyArena) && LastAdmitsAll(EmptyArena)
  {
  }

  // ----- every run ----------------------------------------------------------------------

  datatype Step =
    | Seed(items: seq<Item>)
    | Infer(branch: nat, verdict: Candidate -> Verdict, settled: bool)

  /** One step of a run: what it publishes, or nothing. */
  ghost predicate Stepped(a: Arena, step: Step, policy: Policy, le: (Lineage, Lineage) -> bool, b: Arena) {
    match step
    case Seed(items) => if Seedable(a, items, policy) then Seeded(a, items, b) && Brings(a, items, b) else b == a
    case Infer(branch, verdict, settled) =>
      || (b == a && Refusable(a, branch, policy, le, verdict, settled))
      || (branch < |a.contexts| && settled
          && exists found :: CompleteFrontier(a, branch, found) && Evaluated(a, b, found, verdict, found.Keys))
  }

  /** The reasons for which a round publishes nothing. */
  ghost predicate Refusable(a: Arena, branch: nat, policy: Policy, le: (Lineage, Lineage) -> bool, verdict: Candidate -> Verdict, settled: bool) {
    || branch >= |a.contexts| || Exceeds(a, branch, policy, le) || Overfull(a, branch, policy) || !settled
    || exists found :: CompleteFrontier(a, branch, found) && HasIncomplete(found, verdict)
  }

  ghost predicate HasIncomplete(found: map<DerivationKey, Candidate>, verdict: Candidate -> Verdict) {
    exists k :: k in found && verdict(found[k]).Incomplete?
  }

  /**
   Any sequence of seedings and rounds keeps the arena lawful, no step loses anything published,
   and whatever holds of the sources, in a reading that respects rules and transitivity, holds of
   everything derived.
   */
  method RunReasoning(steps: seq<Step>, policy: Policy, le: (Lineage, Lineage) -> bool) returns (a: Arena, ghost trail: seq<Arena>)
    requires TotalPreorder(le) && forall i | 0 <= i < |steps| :: steps[i].Seed? ==> ItemsOk(steps[i].items)
    ensures ArenaOk(a) && LastAdmitsAll(a)
    ensures forall holds: Reading, x | Lawful(holds) && (forall o | o in a.sources :: Holds(holds, o)) && x in a.asserted && x.basis.Derived? ::
              Holds(holds, x)
    ensures |trail| == |steps| + 1 && trail[0] == EmptyArena && trail[|steps|] == a
    ensures forall i | 0 <= i < |steps| :: Grows(trail[i], trail[i + 1]) && Stepped(trail[i], steps[i], policy, le, trail[i + 1])
  {
    hide TotalPreorder, LastAdmitsAll, Fires, ArenaOk, Grows, Seedable, Seeded, CompleteFrontier, Evaluated;
    hide FoundOk, Exceeds, Overfull, SomeIncomplete, ItemsOk, Brings;
    a := EmptyArena;
    trail := [a];
    EmptyOk();
    for i := 0 to |steps|
      invariant ArenaOk(a) && LastAdmitsAll(a) && |trail| == i + 1 && trail[0] == EmptyArena && trail[i] == a
      invariant forall j | 0 <= j < i :: Grows(trail[j], trail[j + 1]) && Stepped(trail[j], steps[j], policy, le, trail[j + 1])
    {
      GrowsFrom(a);
      match steps[i] {
        case Seed(items) =>
          var ok;
          ok, a := SeedSources(a, items, policy);
        case Infer(branch, verdict, settled) =>
          ghost var found;
          var r;
          r, found := RunRound(a, branch, policy, le, verdict, settled);
          if r.Round? { a := r.arena; }
      }
      trail := trail + [a];
    }
    forall holds: Reading, x | Lawful(holds) && (forall o | o in a.sources :: Holds(holds, o)) && x in a.asserted && x.basis.Derived?
      ensures Holds(holds, x)
    {
      ArenaSound(a, holds, x);
    }
  }
}
