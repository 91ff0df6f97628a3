/** One external event, and any run of them. */
module Engine {
  // One external event: the stages read a snapshot, fill one transaction and hand it to
  // `commit`. The transaction is always accepted, and the structural and connectivity
  // invariants of the whole network survive every run.

  import opened FiniteSets
  import opened Ordering
  import opened CoreModel
  import opened Connectivity
  import opened NetworkState
  import opened Invariants
  import opened Activation
  import opened Learning
  import opened Arbitration
  import opened Resources
  import opened Recruitment
  import opened Reclamation
  import opened AssemblyModel
  import opened Maintenance
  import opened Growth
  import opened AssemblyStage
  import opened Network

  /**
   What one event supplies from outside the network: receptor drives, evidence of the root,
   the novelty, the historical receptors of each blocked proposal, and the cells the
   temporal stream drops and still references.
   */
  datatype Event = Event(drives: map<int, real>, boundary: bool, root: int, evidence: seq<Evidence>, novelty: real,
                         reserves: map<EdgeKey, map<int, real>>, expired: set<int>, referenced: set<int>)

  /** Receptor ids come from the surface codec, which addresses existing logical ids only. */
  ghost predicate Addressable(cfg: Config, ev: Event) {
    && (forall c | c in ev.drives :: cfg.ValidId(c))
    && (forall k, c | k in ev.reserves && c in ev.reserves[k] :: cfg.ValidId(c))
    && 0.0 <= ev.novelty <= 1.0
  }

  ghost predicate Lawful(ev: Event) {
    (forall c | c in ev.drives :: 0.0 <= ev.drives[c] <= 1.0) && forall i | 0 <= i < |ev.evidence| :: LawfulEvidence(ev.evidence[i], ev.root)
  }

  /** Every cell is committed, and the active ids are exactly the cells with activation. */
  ghost predicate TickShaped(n: Net) {
    && (forall c | c in n.cells :: n.cells[c].committed)
    && (forall c :: c in n.active <==> c in n.cells && n.cells[c].activation > 0.0)
  }

  // ----- the transaction ----------------------------------------------------------------

  lemma ViewFacts(n: Net, cfg: Config, l: Learned, novelty: real, r: Resolution)
    requires cfg.Valid() && FullInv(n, cfg) && LearnedOk(n, cfg, l) && EdgesDone(n, cfg, l, novelty, r.upserts, r.deletes, r.blocked)
    requires r.touched == l.touched + DeletedPairs(r.deletes)
    ensures TickView(n, cfg, View(n.outgoing, r.upserts, r.deletes))
    ensures Covers(r.touched, View(n.outgoing, r.upserts, r.deletes))
  {
    hide IndexInv, StructInv, ConnectedInv, ChangesOk, AllDisplaced, SourceSettled;
    forall k | k in r.upserts ensures PairOf(k) in r.touched {
      assert FromLearning(cfg, l, k, r.upserts[k]);
    }
  }

  /** The edge half of the transaction passes the edge checks. */
  lemma ChangesAccepted(n: Net, cfg: Config, tx: Transaction)
    requires cfg.Valid() && IndexInv(n) && StructInv(n, cfg) && ChangesOk(n, cfg, tx.upserts, tx.deletes)
    ensures KeysMatch(tx.upserts) && EdgesAccepted(n, cfg, tx)
  {
    forall k | k in tx.upserts ensures tx.upserts[k].target == k.target && tx.upserts[k].scope == k.scope {
      assert UpsertOk(n, cfg, k, tx.upserts[k]);
    }
    forall s | s in Touched(tx.upserts, tx.deletes)
      ensures BucketAccepted(n.cells, cfg, s, PostBucket(n.outgoing, tx.upserts, tx.deletes, s))
    {
      TouchedCommitted(n, cfg, tx, s);
      var b := PostBucket(n.outgoing, tx.upserts, tx.deletes, s);
      forall p | p in b
        ensures CommittedIn(n.cells, p.peer) && SynapseOk(cfg, s, b[p]) && cfg.Eligible(EdgeKey(s, p.peer, p.scope))
      {
        BucketEntry(n, cfg, tx, s, p);
      }
    }
  }

  lemma TouchedCommitted(n: Net, cfg: Config, tx: Transaction, s: int)
    requires EndpointsCommitted(n.outgoing, n.cells) && ChangesOk(n, cfg, tx.upserts, tx.deletes)
    requires s in Touched(tx.upserts, tx.deletes)
    ensures CommittedIn(n.cells, s)
  {
    hide BudgetsKept;
    if k :| k in tx.upserts && k.source == s {
      assert UpsertOk(n, cfg, k, tx.upserts[k]);
    } else {
      var k :| k in tx.deletes && k.source == s;
      assert EdgeAt(n.outgoing, k).Some?;
    }
  }

  lemma BucketEntry(n: Net, cfg: Config, tx: Transaction, s: int, p: Port)
    requires IndexInv(n) && StructInv(n, cfg) && ChangesOk(n, cfg, tx.upserts, tx.deletes)
    requires p in PostBucket(n.outgoing, tx.upserts, tx.deletes, s)
    ensures var b := PostBucket(n.outgoing, tx.upserts, tx.deletes, s);
            CommittedIn(n.cells, p.peer) && SynapseOk(cfg, s, b[p]) && cfg.Eligible(EdgeKey(s, p.peer, p.scope))
  {
    hide BudgetsKept, BudgetsOk;
    var k := EdgeKey(s, p.peer, p.scope);
    PostBucketLookup(n.outgoing, tx.upserts, tx.deletes, k);
    if k in tx.upserts {
      assert UpsertOk(n, cfg, k, tx.upserts[k]);
    } else {
      assert EdgeAt(n.outgoing, k).Some?;
    }
  }

  lemma CellsPass(n: Net, cfg: Config, tx: Transaction, drives: map<int, real>, boundary: bool)
    requires cfg.Valid() && CellsOk(cfg, n.cells)
    requires forall c | c in tx.commits :: cfg.ValidId(c) && !CommittedIn(n.cells, c)
    requires forall c | c in tx.reclaims :: CommittedIn(n.cells, c)
    requires forall c | c in tx.activation :: CommittedIn(n.cells, c) && tx.activation[c] == NextValue(n, cfg, drives, boundary, c)
    ensures CellsAccepted(n, cfg, tx)
  {
    forall c | c in tx.activation ensures 0.0 <= tx.activation[c] <= 1.0 {}
  }

  /** Everything the stages produce together passes every check of commit. */
  lemma TransactionAccepted(n: Net, cfg: Config, tx: Transaction, ev: Event)
    requires cfg.Valid() && FullInv(n, cfg) && tx.baseVersion == n.version
    requires TickView(n, cfg, View(n.outgoing, tx.upserts, tx.deletes))
    requires LiveOk(n, cfg, View(n.outgoing, tx.upserts, tx.deletes), Live(n, tx.assemblyUpserts, tx.assemblyDeletes))
    requires forall c | c in tx.commits :: cfg.ValidId(c) && !CommittedIn(n.cells, c)
    requires ActivationDone(n, cfg, ev, tx.activation) && forall c | c in tx.activation :: CommittedIn(n.cells, c)
    requires ReclaimsDone(n, cfg, ev, tx)
    ensures Accepts(n, cfg, tx) && tx.upserts.Keys !! tx.deletes
  {
    hide NextValue, LiveOk, Live, Reclaimable, ReclaimAccepted, CellsAccepted, EdgesAccepted;
    hide AssembliesAccepted, Targets, Emission, RemovedMembers, DeletedEndpoints;
    assert tx.upserts.Keys !! tx.deletes;
    ChangesAccepted(n, cfg, tx);
    LiveAccepted(n, cfg, tx);
    var ch, held := Changes(tx.upserts, tx.deletes, tx.assemblyUpserts, tx.assemblyDeletes), tx.references + tx.commits + ev.referenced;
    forall c | c in tx.reclaims ensures ReclaimAccepted(n, tx, c) && CommittedIn(n.cells, c) {
      assert Reclaimable(n, cfg, ch, held, tx.activation, c);
      ReclaimableAccepted(n, cfg, tx, held, tx.activation, c);
      ReclaimedWasCommitted(n, cfg, ch, held, tx.activation, c);
    }
    CellsPass(n, cfg, tx, ev.drives, ev.boundary);
  }

  lemma ReclaimedWasCommitted(n: Net, cfg: Config, ch: Changes, held: set<int>, activation: map<int, real>, c: int)
    requires Reclaimable(n, cfg, ch, held, activation, c)
    ensures CommittedIn(n.cells, c)
  {
  }

  /** And its publication leaves every stored assembly connected, touched or not. */
  lemma TickKeeps(n: Net, cfg: Config, tx: Transaction, m: Net)
    requires cfg.Valid() && FullInv(n, cfg) && Accepts(n, cfg, tx) && Published(n, cfg, tx, m)
    requires tx.upserts.Keys !! tx.deletes
    requires LiveOk(n, cfg, View(n.outgoing, tx.upserts, tx.deletes), Live(n, tx.assemblyUpserts, tx.assemblyDeletes))
    ensures FullInv(m, cfg)
  {
    hide StructInv, LiveOk, Live, Accepts;
    CommitKeepsStruct(n, cfg, tx, m);
    forall i | i in n.assemblies && i !in Affected(tx) ensures Connected(CommitView(n.outgoing, tx), cfg, n.assemblies[i].members) {
      LiveConnected(n, cfg, tx, i);
    }
    CommitConnectedIff(n, cfg, tx, m);
  }

  lemma TickStaysShaped(n: Net, cfg: Config, tx: Transaction, m: Net, emission: set<int>, drives: map<int, real>)
    requires TickShaped(n) && tx.activation.Keys == Targets(n, emission, drives)
    requires m.cells == PostCells(n.cells, cfg, tx) && m.active == PostActive(n.cells, cfg, n.active, tx)
    requires forall c | c in tx.commits :: !CommittedIn(n.cells, c)
    requires forall c | c in tx.activation :: CommittedIn(n.cells, c)
    ensures TickShaped(m)
  {
    hide Targets;
    ActiveRewritten(n, emission, drives);
    var mid := CommittedCells(n.cells, cfg, tx.commits);
    assert forall c | c in mid :: mid[c].committed;
    assert forall c | c in n.cells :: mid[c] == n.cells[c];
    assert forall c | c in mid && c !in n.cells :: mid[c].activation == 0.0;
    var after := ActivatedCells(mid, tx.activation);
    forall c ensures c in ActivatedIds(mid, n.active, tx.activation) <==> c in after && after[c].activation > 0.0 {
      if c in n.active { assert c in tx.activation; }
    }
  }

  lemma ActiveRewritten(n: Net, emission: set<int>, drives: map<int, real>)
    requires TickShaped(n)
    ensures n.active <= Targets(n, emission, drives)
  {
  }

  // ----- process_event ------------------------------------------------------------------

  function Endpoints(upserts: map<EdgeKey, Synapse>, blocked: set<EdgeKey>): (r: set<int>)
    ensures forall c :: c in r <==> exists k :: (k in upserts || k in blocked) && (c == k.source || c == k.target)
  {
    (set k | k in upserts.Keys + blocked :: k.source) + (set k | k in upserts.Keys + blocked :: k.target)
  }

  function AllMembers(assemblies: map<int, Assembly>): (r: set<int>)
    ensures forall m :: m in r <==> exists i :: i in assemblies && m in assemblies[i].members
  {
    set i, m | i in assemblies && m in assemblies[i].members :: m
  }

  function DeletedEndpoints(deletes: set<EdgeKey>): (r: set<int>)
    ensures forall c :: c in r <==> exists k :: k in deletes && (c == k.source || c == k.target)
  {
    (set k | k in deletes :: k.source) + (set k | k in deletes :: k.target)
  }

  /** The ranking of the blocked proposals for expansion: mass first, then identity. */
  predicate RequestBefore(created: map<EdgeKey, real>, a: EdgeKey, b: EdgeKey) {
    var qa, qb := Mass(created, a), Mass(created, b);
    qa > qb || (qa == qb && (a.source < b.source || (a.source == b.source &&
      (a.target < b.target || (a.target == b.target && a.scope.Order() <= b.scope.Order())))))
  }

  lemma RequestTotal(created: map<EdgeKey, real>)
    ensures TotalPreorder((a: EdgeKey, b: EdgeKey) => RequestBefore(created, a, b))
  {
    hide Mass;
  }

  /** The blocked proposals, best first. */
  ghost predicate IsRequests(created: map<EdgeKey, real>, blocked: set<EdgeKey>, requests: seq<EdgeKey>) {
    && Enumerates(requests, blocked)
    && forall i, j | 0 <= i < j < |requests| :: RequestBefore(created, requests[i], requests[j])
  }

  /** What recruitment took: the ordinary receptors and, for the ranked requests, the expansion cells. */
  datatype Recruits = Recruits(ordinary: seq<int>, requests: seq<EdgeKey>, given: map<int, EdgeKey>)
  {
    function First(): set<int> { set c | c in ordinary }

    function Cells(): (r: set<int>)
      ensures forall c :: c in r <==> c in ordinary || c in given
    {
      First() + given.Keys
    }
  }

  ghost predicate Recruited(n: Net, cfg: Config, ev: Event, created: map<EdgeKey, real>, blocked: set<EdgeKey>, r: Recruits) {
    && OrdinaryDone(n, cfg, ev.drives, ev.novelty, r.ordinary)
    && IsRequests(created, blocked, r.requests)
    && ExpansionDone(n, cfg, r.requests, ev.reserves, r.First(), ev.novelty, r.given)
  }

  /** Cells taken this tick: the ordinary recruits and the expansion recruits. */
  method Recruit(n: Net, cfg: Config, ev: Event, created: map<EdgeKey, real>, blocked: set<EdgeKey>) returns (r: Recruits)
    requires cfg.Valid() && Addressable(cfg, ev)
    ensures Recruited(n, cfg, ev, created, blocked, r)
    ensures forall c | c in r.Cells() :: cfg.ValidId(c) && !CommittedIn(n.cells, c)
    ensures |r.Cells()| <= cfg.kR
  {
    hide RequestBefore, OrdinaryDone, ExpansionDone;
    var ordinary := OrdinaryRecruitment(n, cfg, ev.drives, ev.novelty);
    RequestTotal(created);
    var requests := Ranking(blocked, (a: EdgeKey, b: EdgeKey) => RequestBefore(created, a, b));
    var first := set c | c in ordinary;
    var given := AllocateExpansion(n, cfg, requests, ev.reserves, first, ev.novelty);
    r := Recruits(ordinary, requests, given);
    RecruitedCells(n, cfg, ev, r);
  }

  lemma RecruitedCells(n: Net, cfg: Config, ev: Event, r: Recruits)
    requires cfg.Valid() && Addressable(cfg, ev) && OrdinaryDone(n, cfg, ev.drives, ev.novelty, r.ordinary)
    requires ExpansionDone(n, cfg, r.requests, ev.reserves, r.First(), ev.novelty, r.given)
    ensures forall c | c in r.Cells() :: cfg.ValidId(c) && !CommittedIn(n.cells, c)
    ensures |r.Cells()| <= cfg.kR
  {
    hide Settled, InTurn, Bound, DriveBefore;
    DistinctLength(r.ordinary);
    forall c | c in r.given ensures cfg.ValidId(c) && !CommittedIn(n.cells, c) {
      assert c in Reserve(ev.reserves, r.given[c]);
    }
    forall c | c in r.First() ensures c in ev.drives && Free(n, c) { assert c in r.ordinary; }
    UnionSize(r.First(), r.given.Keys);
    assert |r.given| == |r.given.Keys|;
  }

  lemma {:induction false} DistinctLength(r: seq<int>)
    requires Distinct(r)
    ensures |set c | c in r| == |r|
    decreases |r|
  {
    if r != [] {
      var last, rest := r[|r| - 1], r[..|r| - 1];
      DistinctLength(rest);
      assert r == rest + [last];
      assert (set c | c in r) == (set c | c in rest) + {last};
    }
  }

  lemma UnionSize(a: set<int>, b: set<int>)
    ensures |a + b| <= |a| + |b|
  {
    assert a + b == a + (b - a);
    SubsetCardinality(b - a, b);
  }

  /** The learning stage: adjudicate the evidence of the root, then apply it. */
  method Learn(n: Net, cfg: Config, ev: Event) returns (ok: bool, l: Learned, ghost accepted: map<EdgeKey, Verdict>)
    requires cfg.Valid() && IndexInv(n) && StructInv(n, cfg)
    ensures ok <==> forall i | 0 <= i < |ev.evidence| :: LawfulEvidence(ev.evidence[i], ev.root)
    ensures ok ==> LearnedOk(n, cfg, l) && Adjudicated(ev.evidence, accepted) && l == LearnedOf(n, cfg, accepted)
  {
    hide IndexInv, StructInv, LearnedOk, LearnedOf;
    l := Learned(map[], map[], {});
    var verdicts, conflicts;
    ok, verdicts, conflicts := AggregateEvidence(ev.evidence, ev.root);
    accepted := verdicts;
    if ok {
      LearningSound(n, cfg, verdicts);
      l := ApplyLearning(n, cfg, verdicts);
    }
  }

  /** The intermediate results of the stages of one tick. */
  datatype Trace = Trace(accepted: map<EdgeKey, Verdict>, blocked: set<EdgeKey>, recruits: Recruits,
                         grown: seq<Candidacy>, formed: seq<set<int>>)

  /** What an event makes of a snapshot, stage by stage, from outside: no overlay, cache or index is named. */
  ghost predicate Performed(n: Net, cfg: Config, ev: Event, tx: Transaction, w: Trace)
    requires cfg.Valid()
  {
    var l := LearnedOf(n, cfg, w.accepted);
    && tx.baseVersion == n.version
    && ActivationDone(n, cfg, ev, tx.activation)
    && Adjudicated(ev.evidence, w.accepted)
    && EdgesDone(n, cfg, l, ev.novelty, tx.upserts, tx.deletes, w.blocked)
    && Recruited(n, cfg, ev, l.created, w.blocked, w.recruits) && tx.commits == w.recruits.Cells()
    && Restructured(n, cfg, View(n.outgoing, tx.upserts, tx.deletes), l.touched + DeletedPairs(tx.deletes), w.grown, w.formed,
                    Live(n, tx.assemblyUpserts, tx.assemblyDeletes))
    && tx.references == ev.drives.Keys + Endpoints(tx.upserts, w.blocked) + tx.commits + AllMembers(tx.assemblyUpserts)
    && ReclaimsDone(n, cfg, ev, tx)
  }

  ghost predicate ActivationDone(n: Net, cfg: Config, ev: Event, activation: map<int, real>)
    requires cfg.Valid()
  {
    && activation.Keys == Targets(n, Emission(n, cfg, ev.boundary), ev.drives)
    && forall c | c in activation :: c in n.cells && activation[c] == NextValue(n, cfg, ev.drives, ev.boundary, c)
  }

  /** Of the cells something let go of, exactly those that nothing else holds are dropped. */
  ghost predicate ReclaimsDone(n: Net, cfg: Config, ev: Event, tx: Transaction) {
    var held := tx.references + tx.commits + ev.referenced;
    var freed := ev.expired + RemovedMembers(n, tx.assemblyUpserts, tx.assemblyDeletes) + DeletedEndpoints(tx.deletes);
    tx.reclaims == ReclaimableOf(n, cfg, freed, Changes(tx.upserts, tx.deletes, tx.assemblyUpserts, tx.assemblyDeletes), held, tx.activation)
  }

  /** The stages over one snapshot, up to the finished transaction. */
  method BuildTransaction(n: Net, cfg: Config, ev: Event) returns (ok: bool, tx: Transaction, ghost w: Trace)
    requires cfg.Valid() && FullInv(n, cfg) && Addressable(cfg, ev)
    ensures ok <==> Lawful(ev)
    ensures ok ==> Performed(n, cfg, ev, tx, w)
    ensures ok ==> Accepts(n, cfg, tx) && tx.upserts.Keys !! tx.deletes
    ensures ok ==> LiveOk(n, cfg, View(n.outgoing, tx.upserts, tx.deletes), Live(n, tx.assemblyUpserts, tx.assemblyDeletes))
    ensures ok ==> forall c | c in tx.activation :: CommittedIn(n.cells, c)
    ensures ok ==> forall c | c in tx.commits :: !CommittedIn(n.cells, c)
  {
    hide IndexInv, StructInv, ConnectedInv, LearnedOk, LearnedOf, Adjudicated, LiveOk, Live, NextValue, Accepts;
    hide Targets, Emission, Performed, ActivationDone;
    tx := Transaction(n.version, map[], {}, {}, map[], {}, map[], {}, {});
    w := Trace(map[], {}, Recruits([], [], map[]), [], []);
    var activation, l;
    ghost var accepted;
    ok, activation := ComputeActivation(n, cfg, ev.drives, ev.boundary);
    if !ok {
      return;
    }
    ok, l, accepted := Learn(n, cfg, ev);
    if !ok {
      return;
    }
    Activated(n, cfg, ev, activation);
    tx, w := Restructure(n, cfg, ev, activation, l, accepted);
  }

  lemma Activated(n: Net, cfg: Config, ev: Event, activation: map<int, real>)
    requires cfg.Valid() && activation.Keys == Targets(n, Emission(n, cfg, ev.boundary), ev.drives)
    requires forall c | c in activation :: CommittedIn(n.cells, c) && activation[c] == NextValue(n, cfg, ev.drives, ev.boundary, c)
    ensures ActivationDone(n, cfg, ev, activation)
  {
  }

  /** The structural stages: edges, cells, assemblies and the cells to drop. */
  method Restructure(n: Net, cfg: Config, ev: Event, activation: map<int, real>, l: Learned, ghost accepted: map<EdgeKey, Verdict>)
      returns (tx: Transaction, ghost w: Trace)
    requires cfg.Valid() && FullInv(n, cfg) && Addressable(cfg, ev)
    requires LearnedOk(n, cfg, l) && Adjudicated(ev.evidence, accepted) && l == LearnedOf(n, cfg, accepted)
    requires ActivationDone(n, cfg, ev, activation) && forall c | c in activation :: CommittedIn(n.cells, c)
    ensures Performed(n, cfg, ev, tx, w) && tx.activation == activation
    ensures Accepts(n, cfg, tx) && tx.upserts.Keys !! tx.deletes
    ensures LiveOk(n, cfg, View(n.outgoing, tx.upserts, tx.deletes), Live(n, tx.assemblyUpserts, tx.assemblyDeletes))
    ensures forall c | c in tx.commits :: !CommittedIn(n.cells, c)
  {
    hide IndexInv, StructInv, ConnectedInv, TickView, LearnedOk, LearnedOf, Adjudicated, EdgesDone, Recruited;
    hide Restructured, LiveOk, Live, ReclaimableOf, Accepts, RemovedMembers, Covers, Addressable;
    hide ActivationDone, DeletedPairs, AllMembers, Endpoints, DeletedEndpoints;
    var r := ArbitrateSynapses(n, cfg, l, ev.novelty);
    ViewFacts(n, cfg, l, ev.novelty, r);
    var recruits := Recruit(n, cfg, ev, l.created, r.blocked);
    var reserved := recruits.Cells();
    var current, gone, removed;
    ghost var grown, formed;
    current, gone, removed, grown, formed := ProcessAssemblies(n, cfg, r.upserts, r.deletes, r.touched);
    var references := ev.drives.Keys + Endpoints(r.upserts, r.blocked) + reserved + AllMembers(current);
    var held := references + reserved + ev.referenced;
    var candidates := ev.expired + removed + DeletedEndpoints(r.deletes);
    var reclaims := ReclaimableCells(n, cfg, candidates, Changes(r.upserts, r.deletes, current, gone), held, activation);
    tx := Transaction(n.version, activation, reserved, reclaims, r.upserts, r.deletes, current, gone, references);
    w := Trace(accepted, r.blocked, recruits, grown, formed);
    TransactionAccepted(n, cfg, tx, ev);
  }

  /**
   One external event. Unlawful input aborts with the network untouched; otherwise every
   stage does its work, the transaction commits, and every stored assembly is connected afterwards.
   */
  method ProcessEvent(net: SparseNetwork, ev: Event) returns (r: Outcome, ghost tx: Transaction, ghost w: Trace)
    requires net.cfg.Valid() && FullInv(net.State(), net.cfg) && Addressable(net.cfg, ev)
    modifies net
    ensures FullInv(net.State(), net.cfg)
    ensures old(TickShaped(net.State())) ==> TickShaped(net.State())
    ensures r.Accepted? <==> Lawful(ev)
    ensures r.Accepted? ==> Performed(old(net.State()), net.cfg, ev, tx, w) && Published(old(net.State()), net.cfg, tx, net.State())
    ensures r.Rejected? ==> net.State() == old(net.State())
    ensures net.tick == old(net.tick) + (if Lawful(ev) then 1 else 0)
  {
    hide StructInv, ConnectedInv, IndexInv, LiveOk, Live, Accepts, Addressable, Targets, Emission, TickShaped;
    hide EdgesDone, ReclaimsDone, Recruited, Restructured, Adjudicated, LearnedOf;
    ghost var n := net.State();
    var ok, built;
    ok, built, w := BuildTransaction(net.State(), net.cfg, ev);
    tx := built;
    if !ok {
      return Rejected, tx, w;
    }
    r := net.Commit(built);
    TickKeeps(n, net.cfg, built, net.State());
    if TickShaped(n) {
      TickStaysShaped(n, net.cfg, built, net.State(), Emission(n, net.cfg, ev.boundary), ev.drives);
    }
  }

  ghost function LawfulCount(events: seq<Event>): nat {
    if events == [] then 0 else LawfulCount(events[..|events| - 1]) + (if Lawful(events[|events| - 1]) then 1 else 0)
  }

  /** A fresh network satisfies every invariant. */
  method NewNetwork(config: Config) returns (net: SparseNetwork)
    requires config.Valid()
    ensures fresh(net) && net.cfg == config && net.tick == 0 && FullInv(net.State(), config) && TickShaped(net.State())
  {
    hide FullInv;
    net := new SparseNetwork(config);
  }

  /** Any run from a fresh network: the invariants hold after it, and it ticked once per lawful event. */
  method Run(config: Config, events: seq<Event>) returns (net: SparseNetwork)
    requires config.Valid() && forall i | 0 <= i < |events| :: Addressable(config, events[i])
    ensures fresh(net) && net.cfg == config
    ensures FullInv(net.State(), config) && TickShaped(net.State())
    ensures net.tick == LawfulCount(events)
  {
    hide Performed, Published, FullInv, TickShaped, Addressable, Lawful;
    net := NewNetwork(config);
    var i := 0;
    assert events[..0] == [];
    while i < |events|
      invariant 0 <= i <= |events| && fresh(net) && net.cfg == config
      invariant FullInv(net.State(), config) && TickShaped(net.State())
      invariant net.tick == LawfulCount(events[..i])
    {
      ghost var tx, w;
      var r;
      assert events[..i + 1][..i] == events[..i];
      r, tx, w := ProcessEvent(net, events[i]);
      i := i + 1;
    }
    assert events[..i] == events;
  }
}
