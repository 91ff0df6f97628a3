/** The whole event-driven assembly stage of a tick: MAINTAIN, deduplicate, GROW, FORM. */
module AssemblyStage {
  import opened FiniteSets
  import opened Ordering
  import opened Lex
  import opened CoreModel
  import opened NetworkState
  import opened Learning
  import opened AssemblyModel
  import opened Maintenance
  import opened Growth
  import opened Formation

  // ----- from maintenance to the growth stage -------------------------------------------

  lemma DedupPrepared(n: Net, cfg: Config, v: View, touched: set<Pair>, ids: set<int>,
                      outcomes: map<int, Assembly>, current: map<int, Assembly>, deletes: set<int>)
    requires cfg.Valid() && IndexInv(n) && StructInv(n, cfg) && ConnectedInv(n, cfg)
    requires v.out == n.outgoing && Covers(touched, v)
    requires ids == Workset(n.memberships, SupportDelta(n.outgoing, v, cfg, touched))
    requires MaintainedAll(n, cfg, v, ids, outcomes, current, deletes)
    ensures DedupReady(n, ids, outcomes, Live(n, current, deletes))
  {
    hide StructInv, ConnectedInv, SoundLive, BoundedLive, Overlapping, Maintained, Workset, SupportDelta, Covers;
    MaintenanceSound(n, cfg, v, touched, ids, outcomes, current, deletes);
    forall i | i in n.assemblies && i !in ids ensures i in Live(n, current, deletes) {
      assert i !in deletes;
    }
  }

  /** Dropping every id that repeats a smaller one's member set leaves distinct sets. */
  lemma Deduplicated(n: Net, cfg: Config, v: View, current0: map<int, Assembly>, deletes0: set<int>,
                     current: map<int, Assembly>, deletes: set<int>)
    requires cfg.Valid()
    requires var live := Live(n, current0, deletes0);
             && SoundLive(n, cfg, v, live) && BoundedLive(cfg, live) && Overlapping(n, live)
             && current == current0 - Losers(live) && deletes == deletes0 + Losers(live)
    requires current0.Keys !! deletes0
    ensures LiveOk(n, cfg, v, Live(n, current, deletes)) && Overlapping(n, Live(n, current, deletes))
    ensures Live(n, current, deletes) == Live(n, current0, deletes0) - Losers(Live(n, current0, deletes0))
    ensures current.Keys !! deletes
  {
    hide Sound, LiveOwners;
    var live, next := Live(n, current0, deletes0), Live(n, current, deletes);
    var losers := Losers(live);
    assert next == live - losers;
    forall i, j | i in next && j in next && i != j ensures next[i].members != next[j].members {
      if i < j { assert j !in losers; } else { assert i !in losers; }
    }
    forall m ensures |LiveOwners(next, m)| <= cfg.mMax {
      FewerOwners(live, losers, m);
    }
  }

  lemma FewerOwners(live: map<int, Assembly>, losers: set<int>, m: int)
    ensures |LiveOwners(live - losers, m)| <= |LiveOwners(live, m)|
    ensures LiveOwners(live - losers, m) <= LiveOwners(live, m)
  {
    SubsetCardinality(LiveOwners(live - losers, m), LiveOwners(live, m));
  }

  /** The set-ownership map of the copied assemblies. */
  method OwnersOf(current: map<int, Assembly>) returns (owners: map<set<int>, int>)
    requires DistinctLive(current)
    ensures OwnersCached(current, owners)
  {
    owners := map[];
    var todo := current.Keys;
    while todo != {}
      invariant todo <= current.Keys
      invariant forall s | s in owners :: owners[s] in current && owners[s] !in todo && current[owners[s]].members == s
      invariant forall i | i in current && i !in todo :: current[i].members in owners && owners[current[i].members] == i
      decreases |todo|
    {
      var i := Min(todo);
      owners := owners[current[i].members := i];
      todo := todo - {i};
    }
  }

  /** Before any growth no live owner is missing from the snapshot's index. */
  lemma NothingCounted(n: Net, live: map<int, Assembly>)
    requires MembersIndexed(n.memberships, n.assemblies)
    requires forall i | i in live :: i in n.assemblies && live[i].members <= n.assemblies[i].members
    ensures CountsCached(n, live, map[])
  {
    forall m ensures LiveOwners(live, m) <= Owners(n.memberships, m) {
      forall i | i in LiveOwners(live, m) ensures i in Owners(n.memberships, m) {
        assert m in n.assemblies[i].members;
      }
    }
  }

  /** MAINTAIN: the workset at its fixed points, then one assembly for each member set. */
  method MaintainStage(n: Net, cfg: Config, v: View, touched: set<Pair>) returns (st: Stage, local: set<Pair>)
    requires cfg.Valid() && TickView(n, cfg, v) && ConnectedInv(n, cfg) && Covers(touched, v)
    ensures StageOk(n, cfg, v, st) && local == LocalDelta(n.outgoing, v, cfg, touched)
    ensures LiveOf(n, st) == Survivors(MaintainedLive(n, cfg, v, Workset(n.memberships, SupportDelta(n.outgoing, v, cfg, touched))))
  {
    hide Survivors, MaintainedLive, StageOk, DedupReady;
    var support;
    local, support := ChangedSupport(n.outgoing, v, cfg, touched);
    var ids := Workset(n.memberships, support);
    var outcomes, current0, deletes0 := MaintainAll(n, cfg, v, ids);
    MaintenanceSound(n, cfg, v, touched, ids, outcomes, current0, deletes0);
    DedupPrepared(n, cfg, v, touched, ids, outcomes, current0, deletes0);
    OverlayShowsMaintained(n, cfg, v, ids, outcomes, current0, deletes0);
    st := StageAfter(n, cfg, v, ids, outcomes, current0, deletes0);
  }

  method StageAfter(n: Net, cfg: Config, v: View, ids: set<int>, outcomes: map<int, Assembly>,
                    current0: map<int, Assembly>, deletes0: set<int>) returns (st: Stage)
    requires cfg.Valid() && MembersIndexed(n.memberships, n.assemblies)
    requires DedupReady(n, ids, outcomes, Live(n, current0, deletes0))
    requires MaintainedAll(n, cfg, v, ids, outcomes, current0, deletes0)
    requires var live := Live(n, current0, deletes0);
             && SoundLive(n, cfg, v, live) && BoundedLive(cfg, live) && Overlapping(n, live)
             && forall i | i in live :: i in n.assemblies && live[i].members <= n.assemblies[i].members
    ensures StageOk(n, cfg, v, st)
    ensures LiveOf(n, st) == Survivors(Live(n, current0, deletes0))
  {
    hide Sound, LiveOwners, Maintained, CountsCached, SoundLive, BoundedLive, Overlapping, LiveOk, Survivors, Losers;
    forall i | i in current0 ensures i in n.assemblies && i !in deletes0 && i in ids { assert i in outcomes; }
    var current, deletes := Deduplicate(n, ids, outcomes, current0, deletes0);
    Deduplicated(n, cfg, v, current0, deletes0, current, deletes);
    LosersGone(Live(n, current0, deletes0));
    CurrentDistinct(n, cfg, v, current, deletes);
    var owners := OwnersOf(current);
    NothingCounted(n, Live(n, current, deletes));
    st := Stage(current, deletes, map[], owners);
  }

  lemma CurrentDistinct(n: Net, cfg: Config, v: View, current: map<int, Assembly>, deletes: set<int>)
    requires cfg.Valid() && LiveOk(n, cfg, v, Live(n, current, deletes))
    ensures DistinctLive(current)
  {
    var live := Live(n, current, deletes);
    forall i, j | i in current && j in current && i != j ensures current[i].members != current[j].members {
      assert live[i].members != live[j].members;
    }
  }

  // ----- growth and formation -----------------------------------------------------------

  /** The qualifying candidates of the maintained assemblies, best first. */
  ghost predicate IsGrowthRanking(n: Net, cfg: Config, v: View, live: map<int, Assembly>, local: set<Pair>, ranked: seq<Candidacy>)
    requires cfg.Valid()
  {
    && Enumerates(ranked, set g | g in GrowthIdentities(n, cfg, v, live, local) && Qualifies(n, cfg, v, live, g))
    && forall i, j | 0 <= i < j < |ranked| :: ScoredBefore(v, cfg, live, ranked[i], ranked[j])
  }

  /** The scores of two candidates and then their ids leave no tie, so the ranking is one sequence. */
  lemma GrowthRankingUnique(n: Net, cfg: Config, v: View, live: map<int, Assembly>, local: set<Pair>, a: seq<Candidacy>, b: seq<Candidacy>)
    requires cfg.Valid() && IsGrowthRanking(n, cfg, v, live, local, a) && IsGrowthRanking(n, cfg, v, live, local, b)
    ensures a == b
  {
    hide GrowthIdentities, Qualifies, DensityOf, SpecificityOf, MeanOf;
    var lt := (x: Candidacy, y: Candidacy) => x != y && ScoredBefore(v, cfg, live, x, y);
    assert forall x, y :: lt(x, y) ==> !lt(y, x);
    forall i, j | 0 <= i < j < |a| ensures lt(a[i], a[j]) {}
    forall i, j | 0 <= i < j < |b| ensures lt(b[i], b[j]) {}
    AscendingUnique(a, b, lt);
  }

  /** GROW: the candidates in rank order, each against what the earlier ones left. */
  method GrowStage(n: Net, cfg: Config, v: View, st: Stage, local: set<Pair>) returns (next: Stage, ghost ranked: seq<Candidacy>)
    requires cfg.Valid() && TickView(n, cfg, v) && StageOk(n, cfg, v, st)
    ensures StageOk(n, cfg, v, next) && Growing(LiveOf(n, st), LiveOf(n, next)) && next.deletes == st.deletes
    ensures IsGrowthRanking(n, cfg, v, LiveOf(n, st), local, ranked)
    ensures LiveOf(n, next) == AdmittedAll(cfg, LiveOf(n, st), ranked)
  {
    hide TickView, StageOk, GrowthIdentities, Qualifies, Attached, ScoredBefore, AdmittedAll;
    var found := ScoreGrowth(n, cfg, v, LiveOf(n, st), local);
    forall g | g in found ensures Attached(n, cfg, v, LiveOf(n, st), g) {
      QualifiedSupported(n, cfg, v, LiveOf(n, st), g);
    }
    next := GrowAll(n, cfg, v, st, found);
    ranked := found;
  }

  function PairSum(v: View, cfg: Config, ids: seq<int>): real
    requires cfg.Valid()
  {
    if ids == [] then 0.0 else SumLocal(v, cfg, ids[0], ids[1..]) + PairSum(v, cfg, ids[1..])
  }

  function Cohesion(v: View, cfg: Config, members: set<int>): real
    requires cfg.Valid()
  {
    if |members| < 2 then 0.0
    else
      PairSum(v, cfg, Sorted(members)) / (Pairs(|members|) as real)
  }

  function Pairs(k: int): (r: int)
    requires k >= 2
    ensures r >= 1 && 2 * r == k * (k - 1)
  {
    if k == 2 then 1 else Pairs(k - 1) + k - 1
  }

  function CoverageOf(v: View, cfg: Config, c: set<int>): real
    requires cfg.Valid()
  {
    if c == {} then 0.0 else CoreCoverage(v, cfg, c)
  }

  /** Best core coverage, then cohesion, then lexicographic member order. */
  predicate FormBefore(v: View, cfg: Config, a: set<int>, b: set<int>)
    requires cfg.Valid()
  {
    var ca, cb := CoverageOf(v, cfg, a), CoverageOf(v, cfg, b);
    var ha, hb := Cohesion(v, cfg, a), Cohesion(v, cfg, b);
    ca > cb || (ca == cb && (ha > hb || (ha == hb && MembersBefore(a, b))))
  }

  lemma FormTotal(v: View, cfg: Config)
    requires cfg.Valid()
    ensures TotalPreorder((a: set<int>, b: set<int>) => FormBefore(v, cfg, a, b))
  {
    hide CoverageOf, Cohesion, MembersBefore;
    MembersTotal();
    var le := (a: set<int>, b: set<int>) => MembersBefore(a, b);
    assert forall a, b :: le(a, b) == MembersBefore(a, b);
  }

  lemma AcceptedAddable(n: Net, cfg: Config, v: View, local: set<Pair>, live: map<int, Assembly>,
                        candidates: set<set<int>>, accepted: set<set<int>>)
    requires cfg.Valid() && MembersIndexed(n.memberships, n.assemblies) && Overlapping(n, live)
    requires live.Keys <= n.assemblies.Keys
    requires forall c :: c in candidates <==> IsCandidate(v, cfg, Seeds(v, cfg, local), c)
    requires forall c | c in accepted :: c in candidates && c !in ExistingSets(n, live, candidates) && HasRoom(cfg, live, c)
    ensures Addable(n, cfg, v, local, live, accepted)
  {
    hide IsCandidate, Seeds, ExistingSets, HasRoom;
    forall c, i | c in accepted && i in live ensures live[i].members != c {
      if live[i].members == c { ExistingSetsComplete(n, live, candidates, c, i); }
    }
  }

  lemma RankedDisjoint(v: View, cfg: Config, seeds: set<int>, ranked: seq<set<int>>)
    requires cfg.Valid() && forall i, j | 0 <= i < j < |ranked| :: ranked[i] != ranked[j]
    requires forall c | c in ranked :: IsCandidate(v, cfg, seeds, c)
    ensures forall i, j | 0 <= i < j < |ranked| :: ranked[i] !! ranked[j]
  {
    hide IsCandidate;
    forall i, j | 0 <= i < j < |ranked| ensures ranked[i] !! ranked[j] {
      assert ranked[i] in ranked && ranked[j] in ranked;
      CandidatesDisjoint(v, cfg, seeds, ranked[i], ranked[j]);
    }
  }

  lemma StageFacts(n: Net, cfg: Config, v: View, st: Stage)
    requires cfg.Valid() && TickView(n, cfg, v) && StageOk(n, cfg, v, st)
    ensures LiveOk(n, cfg, v, LiveOf(n, st)) && Overlapping(n, LiveOf(n, st)) && CountsCached(n, LiveOf(n, st), st.counts)
    ensures LiveOf(n, st).Keys <= n.assemblies.Keys && st.current.Keys <= n.assemblies.Keys
    ensures MembersIndexed(n.memberships, n.assemblies) && n.nextAssembly >= 0
    ensures forall i | i in n.assemblies :: i < n.nextAssembly
  {
  }

  /** The forms a tick adds: candidate components with room whose member set is new. */
  ghost predicate IsNewForm(cfg: Config, v: View, local: set<Pair>, live: map<int, Assembly>, c: set<int>)
    requires cfg.Valid()
  {
    && IsCandidate(v, cfg, Seeds(v, cfg, local), c) && HasRoom(cfg, live, c)
    && forall i | i in live :: live[i].members != c
  }

  /** FORM: the candidates with room whose set is new, numbered after every stored id. */
  method FormStage(n: Net, cfg: Config, v: View, st: Stage, local: set<Pair>)
      returns (current: map<int, Assembly>, ghost order: seq<set<int>>)
    requires cfg.Valid() && TickView(n, cfg, v) && StageOk(n, cfg, v, st)
    ensures LiveOk(n, cfg, v, Live(n, current, st.deletes))
    ensures forall c :: c in order <==> IsNewForm(cfg, v, local, LiveOf(n, st), c)
    ensures forall i, j | 0 <= i < j < |order| :: order[i] != order[j] && MembersBefore(order[i], order[j])
    ensures (forall k | 0 <= k < |order| :: order[k] != {}) && current == Numbered(cfg, st.current, n.nextAssembly, order)
  {
    hide TickView, StageOk, IsCandidate, Seeds, FormBefore, HasRoom, LiveOk, CountsCached, Overlapping, Addable;
    hide MembersIndexed, ExistingSets, MembersBefore, LiveOf;
    StageFacts(n, cfg, v, st);
    var live, seeds := LiveOf(n, st), Seeds(v, cfg, local);
    var candidates := FormCandidates(v, cfg, seeds);
    var existing := ExistingSets(n, live, candidates);
    FormTotal(v, cfg);
    var ranked := Ranking(candidates - existing, (a: set<int>, b: set<int>) => FormBefore(v, cfg, a, b));
    RankedDisjoint(v, cfg, seeds, ranked);
    var accepted := AcceptForms(n, cfg, live, ranked, st.counts);
    AcceptedAddable(n, cfg, v, local, live, candidates, accepted);
    FormedAre(n, cfg, v, local, live, candidates, accepted);
    LiveOfIs(n, st);
    current, order := AssignForms(n, cfg, v, local, st.current, st.deletes, accepted, n.nextAssembly);
  }

  lemma LiveOfIs(n: Net, st: Stage)
    ensures LiveOf(n, st) == Live(n, st.current, st.deletes)
  {
  }

  lemma FormedAre(n: Net, cfg: Config, v: View, local: set<Pair>, live: map<int, Assembly>,
                  candidates: set<set<int>>, accepted: set<set<int>>)
    requires cfg.Valid() && Addable(n, cfg, v, local, live, accepted)
    requires forall c :: c in candidates <==> IsCandidate(v, cfg, Seeds(v, cfg, local), c)
    requires forall c :: c in accepted <==> c in candidates && c !in ExistingSets(n, live, candidates) && HasRoom(cfg, live, c)
    ensures forall c :: c in accepted <==> IsNewForm(cfg, v, local, live, c)
  {
    hide IsCandidate, Seeds, HasRoom;
    forall c | c in ExistingSets(n, live, candidates) ensures exists i :: i in live && live[i].members == c {}
  }

  /** Members a stored Assembly lost, with it or without it. */
  function RemovedMembers(n: Net, current: map<int, Assembly>, deletes: set<int>): (r: set<int>)
    ensures forall m :: m in r <==>
              exists i :: i in n.assemblies && m in n.assemblies[i].members && (i in deletes || (i in current && m !in current[i].members))
  {
    (set i, m | i in deletes && i in n.assemblies && m in n.assemblies[i].members :: m)
    + (set i, m | i in current && i in n.assemblies && m in n.assemblies[i].members && m !in current[i].members :: m)
  }

  /**
   What one tick makes of the stored assemblies: maintained, one per member set, grown in rank
   order, and joined by the new forms in the order of their member sets.
   */
  ghost predicate Restructured(n: Net, cfg: Config, v: View, touched: set<Pair>,
                               ranked: seq<Candidacy>, order: seq<set<int>>, live: map<int, Assembly>)
    requires cfg.Valid()
  {
    var local := LocalDelta(n.outgoing, v, cfg, touched);
    var kept := Survivors(MaintainedLive(n, cfg, v, Workset(n.memberships, SupportDelta(n.outgoing, v, cfg, touched))));
    var grown := AdmittedAll(cfg, kept, ranked);
    && IsGrowthRanking(n, cfg, v, kept, local, ranked)
    && IsFormOrder(cfg, v, local, grown, order)
    && live == Numbered(cfg, grown, n.nextAssembly, order)
  }

  /** The new forms, in the lexicographic order of their members. */
  ghost predicate IsFormOrder(cfg: Config, v: View, local: set<Pair>, live: map<int, Assembly>, order: seq<set<int>>)
    requires cfg.Valid()
  {
    && (forall c :: c in order <==> IsNewForm(cfg, v, local, live, c))
    && (forall i, j | 0 <= i < j < |order| :: order[i] != order[j] && MembersBefore(order[i], order[j]))
    && forall k | 0 <= k < |order| :: order[k] != {}
  }

  /** The outcome is determined by the snapshot and the edge changes: no cache or index shows through. */
  lemma RestructuredOnce(n: Net, cfg: Config, v: View, touched: set<Pair>, ranked: seq<Candidacy>, order: seq<set<int>>,
                         live: map<int, Assembly>, ranked': seq<Candidacy>, order': seq<set<int>>, live': map<int, Assembly>)
    requires cfg.Valid()
    requires Restructured(n, cfg, v, touched, ranked, order, live) && Restructured(n, cfg, v, touched, ranked', order', live')
    ensures live == live'
  {
    hide IsGrowthRanking, Numbered, AdmittedAll, Survivors, MaintainedLive, Workset, SupportDelta, LocalDelta;
    hide IsFormOrder;
    var local := LocalDelta(n.outgoing, v, cfg, touched);
    var kept := Survivors(MaintainedLive(n, cfg, v, Workset(n.memberships, SupportDelta(n.outgoing, v, cfg, touched))));
    GrowthRankingUnique(n, cfg, v, kept, local, ranked, ranked');
    FormOrderUnique(cfg, v, local, AdmittedAll(cfg, kept, ranked), order, order');
  }

  lemma FormOrderUnique(cfg: Config, v: View, local: set<Pair>, live: map<int, Assembly>, a: seq<set<int>>, b: seq<set<int>>)
    requires cfg.Valid() && IsFormOrder(cfg, v, local, live, a) && IsFormOrder(cfg, v, local, live, b)
    ensures a == b
  {
    hide IsNewForm, MembersBefore;
    var lt := (x: set<int>, y: set<int>) => x != y && MembersBefore(x, y);
    forall x, y | lt(x, y) ensures !lt(y, x) { MembersAntisymmetric(x, y); }
    AscendingUnique(a, b, lt);
  }

  lemma MembersAntisymmetric(a: set<int>, b: set<int>)
    ensures MembersBefore(a, b) && MembersBefore(b, a) ==> a == b
  {
    if MembersBefore(a, b) && MembersBefore(b, a) {
      LexAntisymmetric(Sorted(a), Sorted(b));
      assert forall x :: x in a <==> x in Sorted(a);
    }
  }

  /**
   From the edge changes of the tick to assembly upserts and deletes: whatever the changes,
   the assemblies left behind are sound, distinct and within the membership bound.
   */
  method ProcessAssemblies(n: Net, cfg: Config, upserts: map<EdgeKey, Synapse>, deletes: set<EdgeKey>, touched: set<Pair>)
      returns (current: map<int, Assembly>, gone: set<int>, removed: set<int>, ghost ranked: seq<Candidacy>, ghost order: seq<set<int>>)
    requires cfg.Valid() && TickView(n, cfg, View(n.outgoing, upserts, deletes)) && ConnectedInv(n, cfg)
    requires Covers(touched, View(n.outgoing, upserts, deletes))
    ensures LiveOk(n, cfg, View(n.outgoing, upserts, deletes), Live(n, current, gone))
    ensures Restructured(n, cfg, View(n.outgoing, upserts, deletes), touched, ranked, order, Live(n, current, gone))
    ensures removed == RemovedMembers(n, current, gone)
  {
    hide TickView, ConnectedInv, StageOk, LiveOk, Covers, Survivors, MaintainedLive, IsGrowthRanking;
    hide AdmittedAll, IsNewForm, MembersBefore, LocalDelta, SupportDelta, Workset, Live, LiveOf;
    var v := View(n.outgoing, upserts, deletes);
    var st, local := MaintainStage(n, cfg, v, touched);
    ghost var kept := LiveOf(n, st);
    st, ranked := GrowStage(n, cfg, v, st, local);
    gone := st.deletes;
    current, order := FormStage(n, cfg, v, st, local);
    NumberedLive(n, cfg, v, st, order);
    LiveOfIs(n, st);
    assert IsFormOrder(cfg, v, local, LiveOf(n, st), order);
    assert LiveOf(n, st) == AdmittedAll(cfg, kept, ranked);
    removed := RemovedMembers(n, current, gone);
  }

  /** Numbering the copied assemblies numbers the live ones: the new ids are above all others. */
  lemma NumberedLive(n: Net, cfg: Config, v: View, st: Stage, order: seq<set<int>>)
    requires cfg.Valid() && TickView(n, cfg, v) && StageOk(n, cfg, v, st) && forall k | 0 <= k < |order| :: order[k] != {}
    ensures Live(n, Numbered(cfg, st.current, n.nextAssembly, order), st.deletes) == Numbered(cfg, LiveOf(n, st), n.nextAssembly, order)
  {
    hide LiveOk, Overlapping, CountsCached, OwnersCached, StageOk, TickView, LiveOf, Live;
    StageFacts(n, cfg, v, st);
    LiveOfIs(n, st);
    forall i | i in st.current ensures i < n.nextAssembly { assert i in n.assemblies; }
    NumberedOver(cfg, n.assemblies, st.current, st.deletes, n.nextAssembly, order);
    LiveIs(n, st.current, st.deletes);
    LiveIs(n, Numbered(cfg, st.current, n.nextAssembly, order), st.deletes);
  }

  lemma LiveIs(n: Net, current: map<int, Assembly>, deletes: set<int>)
    ensures Live(n, current, deletes) == (n.assemblies - deletes) + current
  {
  }

  lemma NumberedOver(cfg: Config, stored: map<int, Assembly>, current: map<int, Assembly>, deletes: set<int>, next: int, order: seq<set<int>>)
    requires forall k | 0 <= k < |order| :: order[k] != {}
    requires (forall i | i in stored :: i < next) && forall i | i in current :: i < next
    ensures (stored - deletes) + Numbered(cfg, current, next, order) == Numbered(cfg, (stored - deletes) + current, next, order)
  {
    hide Numbered;
    var live := (stored - deletes) + current;
    var a, b := (stored - deletes) + Numbered(cfg, current, next, order), Numbered(cfg, live, next, order);
    forall i ensures (i in a <==> i in b) && (i in a ==> a[i] == b[i]) {
      NumberedAt(cfg, current, next, order, i);
      NumberedAt(cfg, live, next, order, i);
    }
  }
}
