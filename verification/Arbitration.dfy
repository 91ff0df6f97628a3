/**
 Competition for synaptic budgets: which proposed edges enter, and which provisional ones
 they displace.
 */
module Arbitration {
  import opened Options
  import opened CoreModel
  import opened NetworkState
  import opened Publication
  import opened Learning

  // ----- well-formed learning results ---------------------------------------------------

  ghost predicate UpdateOk(n: Net, cfg: Config, k: EdgeKey, u: Synapse) {
    EdgeAt(n.outgoing, k).Some? && SynapseOk(cfg, k.source, u) && u.target == k.target && u.scope == k.scope
  }

  ghost predicate CreateOk(n: Net, cfg: Config, k: EdgeKey, q: real) {
    && EdgeAt(n.outgoing, k).None? && 0.0 < q
    && CommittedIn(n.cells, k.source) && CommittedIn(n.cells, k.target) && cfg.Eligible(k)
    && SynapseOk(cfg, k.source, NewSynapse(cfg, k, q))
  }

  ghost predicate LearnedOk(n: Net, cfg: Config, l: Learned) {
    && (forall k | k in l.updates :: UpdateOk(n, cfg, k, l.updates[k]))
    && (forall k | k in l.created :: CreateOk(n, cfg, k, l.created[k]))
    && (forall k | k in l.updates.Keys + l.created.Keys :: PairOf(k) in l.touched)
  }

  lemma UpdateSound(n: Net, cfg: Config, k: EdgeKey, v: Verdict)
    requires cfg.Valid() && IndexInv(n) && StructInv(n, cfg)
    requires v.y in {0, 1} && 0.0 < v.q <= 1.0
    ensures Updates(n, k, v) ==> UpdateOk(n, cfg, k, Updated(n, cfg, k, EdgeAt(n.outgoing, k).value, v))
    ensures Creates(n, cfg, k, v) ==> CreateOk(n, cfg, k, v.q)
  {
    if Updates(n, k, v) { UpdatedFacts(n, cfg, k, EdgeAt(n.outgoing, k).value, v); }
    if Creates(n, cfg, k, v) { assert k.source >= 0 && k.target >= 0 by { assert CellsOk(cfg, n.cells); } }
  }

  /** Whatever was adjudicated, learning proposes only changes the network can hold. */
  lemma LearningSound(n: Net, cfg: Config, accepted: map<EdgeKey, Verdict>)
    requires cfg.Valid() && IndexInv(n) && StructInv(n, cfg)
    requires forall k | k in accepted :: accepted[k].y in {0, 1} && 0.0 < accepted[k].q <= 1.0
    ensures LearnedOk(n, cfg, LearnedOf(n, cfg, accepted))
  {
    var l := LearnedOf(n, cfg, accepted);
    forall k | k in l.updates ensures UpdateOk(n, cfg, k, l.updates[k]) { UpdateSound(n, cfg, k, accepted[k]); }
    forall k | k in l.created ensures CreateOk(n, cfg, k, l.created[k]) { UpdateSound(n, cfg, k, accepted[k]); }
    forall k | k in l.updates.Keys + l.created.Keys ensures PairOf(k) in l.touched {
      assert k in accepted && (Updates(n, k, accepted[k]) || Creates(n, cfg, k, accepted[k]));
    }
  }

  // ----- qualities ----------------------------------------------------------------------

  function Capped(cfg: Config, q: real): real { MinReal(q, cfg.eMax) }

  function NewQuality(cfg: Config, q: real): real
    requires cfg.eMax > 0.0
  {
    Capped(cfg, q) / cfg.eMax
  }

  function NewSynapse(cfg: Config, k: EdgeKey, q: real): (e: Synapse)
    ensures e.target == k.target && e.scope == k.scope && e.strength == 1.0 && e.state.Candidate?
    ensures e.evidence <= q && e.evidence <= cfg.eMax && e.evidence in {q, cfg.eMax}
  {
    Synapse(k.target, 1.0, Capped(cfg, q), Candidate, k.scope)
  }

  /** The ranking of the proposals of one source: best quality first, then mass, then identity. */
  predicate RankBefore(cfg: Config, created: map<EdgeKey, real>, a: EdgeKey, b: EdgeKey)
    requires cfg.eMax > 0.0
  {
    var qa, qb := Mass(created, a), Mass(created, b);
    var na, nb := NewQuality(cfg, qa), NewQuality(cfg, qb);
    na > nb || (na == nb && (qa > qb || (qa == qb &&
      (a.target < b.target || (a.target == b.target && a.scope.Order() <= b.scope.Order())))))
  }

  function Mass(created: map<EdgeKey, real>, k: EdgeKey): real { if k in created then created[k] else 0.0 }

  /** The record an existing edge has once learning has spoken. */
  function Current(n: Net, l: Learned, k: EdgeKey): Option<Synapse> {
    if k in l.updates then Some(l.updates[k]) else EdgeAt(n.outgoing, k)
  }

  // ----- what arbitration keeps ---------------------------------------------------------

  ghost predicate UpsertOk(n: Net, cfg: Config, k: EdgeKey, e: Synapse) {
    && CommittedIn(n.cells, k.source) && CommittedIn(n.cells, k.target)
    && SynapseOk(cfg, k.source, e) && cfg.Eligible(k) && e.target == k.target && e.scope == k.scope
  }

  ghost predicate BudgetsKept(n: Net, upserts: map<EdgeKey, Synapse>, deletes: set<EdgeKey>) {
    forall s | s in n.cells :: |PostBucket(n.outgoing, upserts, deletes, s)| <= n.cells[s].budget
  }

  /** Edge changes that `commit` accepts. */
  ghost predicate ChangesOk(n: Net, cfg: Config, upserts: map<EdgeKey, Synapse>, deletes: set<EdgeKey>) {
    && upserts.Keys !! deletes
    && (forall k | k in upserts :: UpsertOk(n, cfg, k, upserts[k]))
    && (forall k | k in deletes :: EdgeAt(n.outgoing, k).Some?)
    && BudgetsKept(n, upserts, deletes)
  }

  predicate FromLearning(cfg: Config, l: Learned, k: EdgeKey, e: Synapse) {
    (k in l.created && e == NewSynapse(cfg, k, l.created[k])) || (k in l.updates && e == l.updates[k])
  }

  /** `k` is an entrant of the same source that beats the edge `e`. */
  predicate Beats(cfg: Config, l: Learned, k: EdgeKey, source: int, e: Synapse)
    requires cfg.Valid()
  {
    k in l.created && k.source == source && NewQuality(cfg, l.created[k]) > Quality(cfg, e)
  }

  predicate Weak(cfg: Config, e: Synapse)
    requires cfg.Valid()
  {
    e.state.Candidate? && Quality(cfg, e) < cfg.thetaPrune
  }

  /** A displaced edge was provisional, below the pruning threshold, and beaten by an entrant. */
  ghost predicate Displaced(n: Net, cfg: Config, l: Learned, upserts: map<EdgeKey, Synapse>, v: EdgeKey)
    requires cfg.Valid()
  {
    var e := Current(n, l, v);
    e.Some? && Weak(cfg, e.value) && exists k :: k in upserts && Beats(cfg, l, k, v.source, e.value)
  }

  ghost predicate Arbitrated(n: Net, cfg: Config, l: Learned, upserts: map<EdgeKey, Synapse>, deletes: set<EdgeKey>)
    requires cfg.Valid()
  {
    && ChangesOk(n, cfg, upserts, deletes)
    && Provenance(cfg, l, upserts, deletes)
    && AllDisplaced(n, cfg, l, upserts, deletes)
  }

  /** Upserts are learning's own records; an update is written or its edge is displaced. */
  ghost predicate Provenance(cfg: Config, l: Learned, upserts: map<EdgeKey, Synapse>, deletes: set<EdgeKey>) {
    && (forall k | k in upserts :: FromLearning(cfg, l, k, upserts[k]))
    && (forall k | k in l.updates :: k in upserts || k in deletes)
  }

  ghost predicate AllDisplaced(n: Net, cfg: Config, l: Learned, upserts: map<EdgeKey, Synapse>, deletes: set<EdgeKey>)
    requires cfg.Valid()
  {
    forall v | v in deletes :: Displaced(n, cfg, l, upserts, v)
  }

  lemma DisplacedStays(n: Net, cfg: Config, l: Learned, upserts: map<EdgeKey, Synapse>, next: map<EdgeKey, Synapse>, deletes: set<EdgeKey>)
    requires cfg.Valid() && AllDisplaced(n, cfg, l, upserts, deletes)
    requires forall k | k in upserts && k in l.created :: k in next
    ensures AllDisplaced(n, cfg, l, next, deletes)
  {
    forall v | v in deletes ensures Displaced(n, cfg, l, next, v) {
      assert Displaced(n, cfg, l, upserts, v);
      var k :| k in upserts && Beats(cfg, l, k, v.source, Current(n, l, v).value);
      assert k in next;
    }
  }

  lemma UpdatedBucketSize(n: Net, cfg: Config, l: Learned, s: int)
    requires LearnedOk(n, cfg, l)
    ensures |PostBucket(n.outgoing, l.updates, {}, s)| == |Bucket(n.outgoing, s)|
  {
    var b := PostBucket(n.outgoing, l.updates, {}, s);
    forall p: Port ensures p in b <==> p in Bucket(n.outgoing, s) {
      PostBucketLookup(n.outgoing, l.updates, {}, EdgeKey(s, p.peer, p.scope));
    }
    assert b.Keys == Bucket(n.outgoing, s).Keys;
    assert |b| == |b.Keys| && |Bucket(n.outgoing, s)| == |Bucket(n.outgoing, s).Keys|;
  }

  lemma ArbitratedStart(n: Net, cfg: Config, l: Learned)
    requires cfg.Valid() && IndexInv(n) && StructInv(n, cfg) && LearnedOk(n, cfg, l)
    ensures Arbitrated(n, cfg, l, l.updates, {})
  {
    forall s | s in n.cells ensures |PostBucket(n.outgoing, l.updates, {}, s)| <= n.cells[s].budget {
      UpdatedBucketSize(n, cfg, l, s);
    }
    forall k | k in l.updates ensures UpsertOk(n, cfg, k, l.updates[k]) {
      assert UpdateOk(n, cfg, k, l.updates[k]);
    }
  }

  lemma MapSizes<K, V>(m: map<K, V>, k: K, v: V)
    ensures k !in m ==> |m[k := v]| == |m| + 1
    ensures k in m ==> |m - {k}| == |m| - 1
  {
    assert m[k := v].Keys == m.Keys + {k};
    assert (m - {k}).Keys == m.Keys - {k};
    assert |m| == |m.Keys| && |m[k := v]| == |m[k := v].Keys| && |m - {k}| == |(m - {k}).Keys|;
  }

  lemma AdmitBudgets(n: Net, upserts: map<EdgeKey, Synapse>, deletes: set<EdgeKey>, k: EdgeKey, e: Synapse)
    requires BudgetsKept(n, upserts, deletes) && k.source in n.cells && PostEdge(n.outgoing, upserts, deletes, k).None?
    requires |PostBucket(n.outgoing, upserts, deletes, k.source)| < n.cells[k.source].budget
    ensures BudgetsKept(n, upserts[k := e], deletes)
  {
    forall s | s in n.cells ensures |PostBucket(n.outgoing, upserts[k := e], deletes, s)| <= n.cells[s].budget {
      PostBucketUpsert(n.outgoing, upserts, deletes, s, k, e);
    }
    PostBucketLookup(n.outgoing, upserts, deletes, k);
    MapSizes(PostBucket(n.outgoing, upserts, deletes, k.source), Port(k.target, k.scope), e);
  }

  lemma PostBucketPrune(out: Adjacency, upserts: map<EdgeKey, Synapse>, deletes: set<EdgeKey>, s: int, v: EdgeKey)
    ensures PostBucket(out, upserts - {v}, deletes + {v}, s) ==
              if s == v.source then PostBucket(out, upserts, deletes, s) - {Port(v.target, v.scope)}
              else PostBucket(out, upserts, deletes, s)
  {
    var l := PostBucket(out, upserts, deletes, s);
    var b := if s == v.source then l - {Port(v.target, v.scope)} else l;
    forall p: Port
      ensures var e := PostEdge(out, upserts - {v}, deletes + {v}, EdgeKey(s, p.peer, p.scope));
              (p in b <==> e.Some?) && (p in b ==> b[p] == e.value)
    {
      PostBucketLookup(out, upserts, deletes, EdgeKey(s, p.peer, p.scope));
    }
    PostBucketIs(out, upserts - {v}, deletes + {v}, s, b);
  }

  lemma PruneBudgets(n: Net, upserts: map<EdgeKey, Synapse>, deletes: set<EdgeKey>, v: EdgeKey)
    requires BudgetsKept(n, upserts, deletes) && v.source in n.cells && PostEdge(n.outgoing, upserts, deletes, v).Some?
    ensures BudgetsKept(n, upserts - {v}, deletes + {v})
    ensures |PostBucket(n.outgoing, upserts - {v}, deletes + {v}, v.source)| < n.cells[v.source].budget
  {
    var b, p := PostBucket(n.outgoing, upserts, deletes, v.source), Port(v.target, v.scope);
    PostBucketLookup(n.outgoing, upserts, deletes, v);
    MapSizes(b, p, b[p]);
    forall s | s in n.cells
      ensures |PostBucket(n.outgoing, upserts - {v}, deletes + {v}, s)| <= n.cells[s].budget - (if s == v.source then 1 else 0)
    {
      PostBucketPrune(n.outgoing, upserts, deletes, s, v);
    }
  }

  lemma AdmitChanges(n: Net, cfg: Config, upserts: map<EdgeKey, Synapse>, deletes: set<EdgeKey>, k: EdgeKey, e: Synapse)
    requires ChangesOk(n, cfg, upserts, deletes) && UpsertOk(n, cfg, k, e)
    requires k !in deletes && PostEdge(n.outgoing, upserts, deletes, k).None?
    requires |PostBucket(n.outgoing, upserts, deletes, k.source)| < n.cells[k.source].budget
    ensures ChangesOk(n, cfg, upserts[k := e], deletes)
  {
    hide BudgetsKept;
    AdmitBudgets(n, upserts, deletes, k, e);
  }

  lemma PruneChanges(n: Net, cfg: Config, upserts: map<EdgeKey, Synapse>, deletes: set<EdgeKey>, v: EdgeKey)
    requires ChangesOk(n, cfg, upserts, deletes) && v.source in n.cells
    requires EdgeAt(n.outgoing, v).Some? && PostEdge(n.outgoing, upserts, deletes, v).Some?
    ensures ChangesOk(n, cfg, upserts - {v}, deletes + {v})
    ensures |PostBucket(n.outgoing, upserts - {v}, deletes + {v}, v.source)| < n.cells[v.source].budget
  {
    PruneBudgets(n, upserts, deletes, v);
  }

  /** A proposal that has not entered is on no overlay. */
  lemma NotShown(n: Net, cfg: Config, l: Learned, upserts: map<EdgeKey, Synapse>, deletes: set<EdgeKey>, k: EdgeKey)
    requires cfg.Valid() && ChangesOk(n, cfg, upserts, deletes)
    requires k in l.created && k !in upserts && CreateOk(n, cfg, k, l.created[k])
    ensures k !in deletes && PostEdge(n.outgoing, upserts, deletes, k).None?
    ensures UpsertOk(n, cfg, k, NewSynapse(cfg, k, l.created[k]))
  {
    hide BudgetsKept;
  }

  /** A proposal enters while its source has room. */
  lemma Admit(n: Net, cfg: Config, l: Learned, upserts: map<EdgeKey, Synapse>, deletes: set<EdgeKey>, k: EdgeKey)
    requires cfg.Valid() && LearnedOk(n, cfg, l) && Arbitrated(n, cfg, l, upserts, deletes)
    requires k in l.created && k !in upserts
    requires |PostBucket(n.outgoing, upserts, deletes, k.source)| < n.cells[k.source].budget
    ensures Arbitrated(n, cfg, l, upserts[k := NewSynapse(cfg, k, l.created[k])], deletes)
  {
    hide BudgetsKept, Displaced, ChangesOk, AllDisplaced;
    var e := NewSynapse(cfg, k, l.created[k]);
    assert CreateOk(n, cfg, k, l.created[k]);
    NotShown(n, cfg, l, upserts, deletes, k);
    AdmitChanges(n, cfg, upserts, deletes, k, e);
    DisplacedStays(n, cfg, l, upserts, upserts[k := e], deletes);
  }

  /** Or it displaces a weaker provisional edge of the same source. */
  lemma Displace(n: Net, cfg: Config, l: Learned, upserts: map<EdgeKey, Synapse>, deletes: set<EdgeKey>, k: EdgeKey, v: EdgeKey)
    requires cfg.Valid() && LearnedOk(n, cfg, l) && Arbitrated(n, cfg, l, upserts, deletes)
    requires k in l.created && k !in upserts && EdgeAt(n.outgoing, v).Some?
    requires PostEdge(n.outgoing, upserts, deletes, v).Some?
    requires Weak(cfg, PostEdge(n.outgoing, upserts, deletes, v).value)
    requires Beats(cfg, l, k, v.source, PostEdge(n.outgoing, upserts, deletes, v).value)
    ensures Arbitrated(n, cfg, l, (upserts - {v})[k := NewSynapse(cfg, k, l.created[k])], deletes + {v})
  {
    hide ChangesOk, Displaced, Weak, LearnedOk, Provenance, Quality, NewQuality, EdgeAt, PostEdge;
    var e := NewSynapse(cfg, k, l.created[k]);
    var less, gone := upserts - {v}, deletes + {v};
    NotCreated(n, cfg, l, v);
    DisplaceChanges(n, cfg, l, upserts, deletes, k, v);
    forall y | y in upserts && y in l.created ensures y in less[k := e] { assert y != v; }
    DisplacedStays(n, cfg, l, upserts, less[k := e], deletes);
    NewlyDisplaced(n, cfg, l, upserts, deletes, less[k := e], k, v);
    DisplaceProvenance(cfg, l, upserts, deletes, k, v);
  }

  lemma NotCreated(n: Net, cfg: Config, l: Learned, v: EdgeKey)
    requires LearnedOk(n, cfg, l) && EdgeAt(n.outgoing, v).Some?
    ensures v !in l.created
    ensures forall k | k in l.created :: k.source in n.cells
  {
    assert v in l.created ==> CreateOk(n, cfg, v, l.created[v]);
    forall k | k in l.created ensures k.source in n.cells { assert CreateOk(n, cfg, k, l.created[k]); }
  }

  lemma DisplaceProvenance(cfg: Config, l: Learned, upserts: map<EdgeKey, Synapse>, deletes: set<EdgeKey>, k: EdgeKey, v: EdgeKey)
    requires Provenance(cfg, l, upserts, deletes) && k in l.created
    ensures Provenance(cfg, l, (upserts - {v})[k := NewSynapse(cfg, k, l.created[k])], deletes + {v})
  {
    hide NewSynapse;
  }

  lemma DisplaceChanges(n: Net, cfg: Config, l: Learned, upserts: map<EdgeKey, Synapse>, deletes: set<EdgeKey>, k: EdgeKey, v: EdgeKey)
    requires cfg.Valid() && LearnedOk(n, cfg, l) && ChangesOk(n, cfg, upserts, deletes)
    requires k in l.created && k !in upserts && EdgeAt(n.outgoing, v).Some?
    requires PostEdge(n.outgoing, upserts, deletes, v).Some? && v.source == k.source && v.source in n.cells
    ensures ChangesOk(n, cfg, (upserts - {v})[k := NewSynapse(cfg, k, l.created[k])], deletes + {v})
    ensures k !in deletes + {v}
  {
    hide BudgetsKept;
    assert CreateOk(n, cfg, k, l.created[k]) && k !in deletes + {v};
    PruneChanges(n, cfg, upserts, deletes, v);
    AdmitChanges(n, cfg, upserts - {v}, deletes + {v}, k, NewSynapse(cfg, k, l.created[k]));
  }

  lemma NewlyDisplaced(n: Net, cfg: Config, l: Learned, upserts: map<EdgeKey, Synapse>, deletes: set<EdgeKey>,
                       next: map<EdgeKey, Synapse>, k: EdgeKey, v: EdgeKey)
    requires cfg.Valid() && LearnedOk(n, cfg, l) && Arbitrated(n, cfg, l, upserts, deletes)
    requires k in l.created && k in next && EdgeAt(n.outgoing, v).Some? && PostEdge(n.outgoing, upserts, deletes, v).Some?
    requires Weak(cfg, PostEdge(n.outgoing, upserts, deletes, v).value)
    requires Beats(cfg, l, k, v.source, PostEdge(n.outgoing, upserts, deletes, v).value)
    ensures Displaced(n, cfg, l, next, v)
  {
    CurrentShown(n, cfg, l, upserts, deletes, v);
  }

  /** The overlay shows the record learning left on a pre-existing edge. */
  lemma CurrentShown(n: Net, cfg: Config, l: Learned, upserts: map<EdgeKey, Synapse>, deletes: set<EdgeKey>, v: EdgeKey)
    requires cfg.Valid() && LearnedOk(n, cfg, l) && Arbitrated(n, cfg, l, upserts, deletes)
    requires EdgeAt(n.outgoing, v).Some? && PostEdge(n.outgoing, upserts, deletes, v).Some?
    ensures PostEdge(n.outgoing, upserts, deletes, v) == Current(n, l, v)
  {
    assert v in l.created ==> CreateOk(n, cfg, v, l.created[v]);
    assert v in upserts ==> FromLearning(cfg, l, v, upserts[v]);
  }
}
