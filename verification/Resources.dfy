/**
 Arbitration of the proposed edges of one tick, source by source: who enters, who is pruned
 for it, and why no other outcome is possible.
 */
module Resources {
  import opened FiniteSets
  import opened Ordering
  import opened Options
  import opened CoreModel
  import opened NetworkState
  import opened Publication
  import opened Learning
  import opened Arbitration

  // ----- arbitration --------------------------------------------------------------------

  /** Among the entries of one source, the admitted ones are an initial part of the ranking. */
  ghost predicate TopAdmitted(cfg: Config, l: Learned, upserts: map<EdgeKey, Synapse>, source: int)
    requires cfg.Valid()
  {
    forall a, b | a in l.created && b in l.created && a.source == source && b.source == source
                  && b in upserts && RankBefore(cfg, l.created, a, b) && !RankBefore(cfg, l.created, b, a) :: a in upserts
  }

  /** The pruning order on the records `e` at `a` and `f` at `b`. */
  predicate Worse(cfg: Config, e: Synapse, a: Port, f: Synapse, b: Port)
    requires cfg.Valid()
  {
    var qe, qf := Quality(cfg, e), Quality(cfg, f);
    qe < qf || (qe == qf && (a.peer < b.peer || (a.peer == b.peer && a.scope.Order() <= b.scope.Order())))
  }

  /** Edges were pruned at a full source only, and no survivor is worse than a pruned one. */
  ghost predicate WeakestPruned(n: Net, cfg: Config, l: Learned, source: int, overlay: map<Port, Synapse>, deletes: set<EdgeKey>)
    requires cfg.Valid() && source in n.cells
  {
    && ((exists v :: v in deletes && v.source == source) ==> |overlay| >= n.cells[source].budget)
    && forall v | v in deletes && v.source == source :: WorseThanKept(n, cfg, l, v, overlay)
  }

  ghost predicate WorseThanKept(n: Net, cfg: Config, l: Learned, v: EdgeKey, overlay: map<Port, Synapse>)
    requires cfg.Valid()
  {
    && Current(n, l, v).Some?
    && forall p | Prunable(n, cfg, overlay, v.source, p) :: Worse(cfg, Current(n, l, v).value, Port(v.target, v.scope), overlay[p], p)
  }

  /** The outcome at one source: the best proposals entered, the rest met a full source they could not improve. */
  ghost predicate SourceSettled(n: Net, cfg: Config, l: Learned, upserts: map<EdgeKey, Synapse>, deletes: set<EdgeKey>, source: int)
    requires cfg.Valid()
  {
    && TopAdmitted(cfg, l, upserts, source)
    && (source in n.cells ==>
          var overlay := PostBucket(n.outgoing, upserts, deletes, source);
          && WeakestPruned(n, cfg, l, source, overlay, deletes)
          && forall k | k in l.created && k.source == source && k !in upserts :: EntryBlocked(n, cfg, overlay, source, NewQuality(cfg, l.created[k])))
  }

  lemma RankTotal(cfg: Config, created: map<EdgeKey, real>)
    requires cfg.Valid()
    ensures TotalPreorder((a: EdgeKey, b: EdgeKey) => RankBefore(cfg, created, a, b))
  {
  }

  /** The order in which weak edges are offered for pruning: worst quality first, then identity. */
  predicate WeakBefore(cfg: Config, overlay: map<Port, Synapse>, a: Port, b: Port)
    requires cfg.Valid()
  {
    var qa, qb := PortQuality(cfg, overlay, a), PortQuality(cfg, overlay, b);
    qa < qb || (qa == qb && (a.peer < b.peer || (a.peer == b.peer && a.scope.Order() <= b.scope.Order())))
  }

  function PortQuality(cfg: Config, overlay: map<Port, Synapse>, p: Port): real
    requires cfg.Valid()
  {
    if p in overlay then Quality(cfg, overlay[p]) else 0.0
  }

  lemma WeakTotal(cfg: Config, overlay: map<Port, Synapse>)
    requires cfg.Valid()
    ensures TotalPreorder((a: Port, b: Port) => WeakBefore(cfg, overlay, a, b))
  {
  }

  predicate Prunable(n: Net, cfg: Config, overlay: map<Port, Synapse>, source: int, p: Port)
    requires cfg.Valid()
  {
    p in overlay && EdgeAt(n.outgoing, EdgeKey(source, p.peer, p.scope)).Some? && Weak(cfg, overlay[p])
  }

  /** No room, and no weak edge an entrant of this quality would beat. */
  ghost predicate EntryBlocked(n: Net, cfg: Config, overlay: map<Port, Synapse>, source: int, quality: real)
    requires cfg.Valid() && source in n.cells
  {
    && |overlay| >= n.cells[source].budget
    && forall p | Prunable(n, cfg, overlay, source, p) :: quality <= Quality(cfg, overlay[p])
  }

  /** The weakest prunable edge, if the entrant beats it. */
  method Victim(n: Net, cfg: Config, overlay: map<Port, Synapse>, source: int, quality: real) returns (v: Option<Port>)
    requires cfg.Valid() && source in n.cells && |overlay| >= n.cells[source].budget
    ensures v.Some? ==> Prunable(n, cfg, overlay, source, v.value) && quality > Quality(cfg, overlay[v.value])
    ensures v.Some? ==> forall p | Prunable(n, cfg, overlay, source, p) :: WeakBefore(cfg, overlay, v.value, p)
    ensures v.None? ==> EntryBlocked(n, cfg, overlay, source, quality)
  {
    var weak := set p | p in overlay && Prunable(n, cfg, overlay, source, p);
    if weak == {} {
      forall p | Prunable(n, cfg, overlay, source, p) ensures p in weak {}
      return None;
    }
    WeakTotal(cfg, overlay);
    var w := Least(weak, (a: Port, b: Port) => WeakBefore(cfg, overlay, a, b));
    if quality > Quality(cfg, overlay[w]) {
      forall p | Prunable(n, cfg, overlay, source, p) ensures WeakBefore(cfg, overlay, w, p) { assert p in weak; }
      return Some(w);
    }
    forall p | Prunable(n, cfg, overlay, source, p) ensures quality <= Quality(cfg, overlay[p]) {
      assert p in weak && WeakBefore(cfg, overlay, w, p);
    }
    return None;
  }

  /** A duplicate-free list in rank order. */
  ghost predicate IsRanked(cfg: Config, l: Learned, ranked: seq<EdgeKey>)
    requires cfg.Valid()
  {
    forall i, j | 0 <= i < j < |ranked| :: ranked[i] != ranked[j] && RankBefore(cfg, l.created, ranked[i], ranked[j])
  }

  // ----- total quality ------------------------------------------------------------------

  ghost function Total(cfg: Config, bucket: map<Port, Synapse>): real
    requires cfg.Valid()
    decreases |bucket|
  {
    if bucket == map[] then 0.0
    else
      var p :| p in bucket;
      MapSizes(bucket, p, bucket[p]);
      Quality(cfg, bucket[p]) + Total(cfg, bucket - {p})
  }

  /** Any entry may be counted first. */
  lemma {:induction false} TotalWithout(cfg: Config, bucket: map<Port, Synapse>, p: Port)
    requires cfg.Valid() && p in bucket
    ensures Total(cfg, bucket) == Quality(cfg, bucket[p]) + Total(cfg, bucket - {p})
    decreases |bucket|
  {
    hide Quality;
    var q :| q in bucket && Total(cfg, bucket) == Quality(cfg, bucket[q]) + Total(cfg, bucket - {q});
    if q != p {
      MapSizes(bucket, q, bucket[q]);
      MapSizes(bucket, p, bucket[p]);
      TotalWithout(cfg, bucket - {q}, p);
      TotalWithout(cfg, bucket - {p}, q);
      assert (bucket - {q}) - {p} == (bucket - {p}) - {q};
    }
  }

  lemma TotalPlus(cfg: Config, bucket: map<Port, Synapse>, p: Port, e: Synapse)
    requires cfg.Valid() && p !in bucket
    ensures Total(cfg, bucket[p := e]) == Total(cfg, bucket) + Quality(cfg, e)
  {
    TotalWithout(cfg, bucket[p := e], p);
    assert bucket[p := e] - {p} == bucket;
  }

  /** An entrant has exactly the quality it was ranked by, and it is positive. */
  lemma EntrantQuality(n: Net, cfg: Config, l: Learned, k: EdgeKey)
    requires cfg.Valid() && LearnedOk(n, cfg, l) && k in l.created
    ensures Quality(cfg, NewSynapse(cfg, k, l.created[k])) == NewQuality(cfg, l.created[k]) > 0.0
  {
    assert CreateOk(n, cfg, k, l.created[k]);
  }

  /** Progress through the ranking: the first `admitted` proposals entered, the rest met a full source. */
  ghost predicate Progress(n: Net, cfg: Config, l: Learned, source: int, ranked: seq<EdgeKey>,
                           i: nat, admitted: nat, overlay: map<Port, Synapse>,
                           upserts: map<EdgeKey, Synapse>, deletes: set<EdgeKey>)
    requires cfg.Valid() && source in n.cells
  {
    && admitted <= i <= |ranked|
    && (forall j | 0 <= j < |ranked| :: ranked[j] in l.created && ranked[j].source == source)
    && overlay == PostBucket(n.outgoing, upserts, deletes, source)
    && (forall j | 0 <= j < |ranked| :: ranked[j] in upserts <==> j < admitted)
    && (admitted < i ==> EntryBlocked(n, cfg, overlay, source, NewQuality(cfg, l.created[ranked[admitted]])))
    && WeakestPruned(n, cfg, l, source, overlay, deletes)
  }

  /** Only entries of `source` differ between the two stages. */
  ghost predicate OnlySource(source: int, before: map<EdgeKey, Synapse>, removed: set<EdgeKey>, after: map<EdgeKey, Synapse>, gone: set<EdgeKey>) {
    && (forall k: EdgeKey {:trigger k in after} {:trigger k in before} | k.source != source :: k in before <==> k in after)
    && (forall k | k in before && k in after && k.source != source :: before[k] == after[k])
    && (forall k: EdgeKey {:trigger k in gone} {:trigger k in removed} | k.source != source :: k in removed <==> k in gone)
  }

  /** The entrant is written, and the victim (if any) deleted. */
  function Enter(cfg: Config, l: Learned, upserts: map<EdgeKey, Synapse>, k: EdgeKey): map<EdgeKey, Synapse>
    requires k in l.created
  {
    upserts[k := NewSynapse(cfg, k, l.created[k])]
  }

  /** Everything that holds between two proposals of one source. */
  ghost predicate Contested(n: Net, cfg: Config, l: Learned, source: int, ranked: seq<EdgeKey>, i: nat, admitted: nat, overlay: map<Port, Synapse>,
                            upserts0: map<EdgeKey, Synapse>, deletes0: set<EdgeKey>, upserts: map<EdgeKey, Synapse>, deletes: set<EdgeKey>)
    requires cfg.Valid() && source in n.cells
  {
    && Progress(n, cfg, l, source, ranked, i, admitted, overlay, upserts, deletes)
    && Arbitrated(n, cfg, l, upserts, deletes) && OnlySource(source, upserts0, deletes0, upserts, deletes)
  }

  /** One proposal enters, takes the place of the weakest prunable edge, or is refused. */
  method Contend(n: Net, cfg: Config, l: Learned, source: int, ranked: seq<EdgeKey>, i: nat, ghost admitted: nat, overlay: map<Port, Synapse>,
                 ghost upserts0: map<EdgeKey, Synapse>, ghost deletes0: set<EdgeKey>, upserts: map<EdgeKey, Synapse>, deletes: set<EdgeKey>)
      returns (taken: bool, shown: map<Port, Synapse>, next: map<EdgeKey, Synapse>, gone: set<EdgeKey>)
    requires cfg.Valid() && source in n.cells && LearnedOk(n, cfg, l) && i < |ranked| && IsRanked(cfg, l, ranked)
    requires Contested(n, cfg, l, source, ranked, i, admitted, overlay, upserts0, deletes0, upserts, deletes)
    ensures Contested(n, cfg, l, source, ranked, i + 1, if taken then i + 1 else admitted, shown, upserts0, deletes0, next, gone)
    ensures taken ==> Total(cfg, shown) > Total(cfg, overlay)
    ensures !taken ==> shown == overlay && next == upserts && gone == deletes
  {
    hide Total, Arbitrated, IsRanked, OnlySource, WeakestPruned, WeakBefore, Prunable, LearnedOk, NewQuality;
    hide NewSynapse, EntryBlocked, Quality, Enter, PostBucket;
    var k := ranked[i];
    var quality := NewQuality(cfg, l.created[k]);
    ghost var port, entrant := Port(k.target, k.scope), NewSynapse(cfg, k, l.created[k]);
    taken, shown, next, gone := true, overlay, upserts, deletes;
    NewPort(n, cfg, l, source, overlay, upserts, deletes, k);
    EntrantQuality(n, cfg, l, k);
    if |overlay| < n.cells[source].budget {
      AdmitStep(n, cfg, l, source, ranked, i, admitted, overlay, upserts0, deletes0, upserts, deletes);
      TotalPlus(cfg, overlay, port, entrant);
      next := Enter(cfg, l, upserts, k);
      shown := overlay[Port(k.target, k.scope) := NewSynapse(cfg, k, l.created[k])];
    } else {
      var v := Victim(n, cfg, overlay, source, quality);
      if v.Some? {
        var pruned := EdgeKey(source, v.value.peer, v.value.scope);
        DisplaceStep(n, cfg, l, source, ranked, i, admitted, overlay, upserts0, deletes0, upserts, deletes, v.value);
        VictimListed(n, cfg, overlay, source, v.value);
        TotalWithout(cfg, overlay, v.value);
        TotalPlus(cfg, overlay - {v.value}, port, entrant);
        next, gone := Enter(cfg, l, upserts - {pruned}, k), deletes + {pruned};
        shown := (overlay - {v.value})[Port(k.target, k.scope) := NewSynapse(cfg, k, l.created[k])];
      } else {
        StillBlocked(n, cfg, l, source, ranked, i, admitted, overlay, upserts, deletes);
        taken := false;
      }
    }
  }

  lemma VictimListed(n: Net, cfg: Config, overlay: map<Port, Synapse>, source: int, p: Port)
    requires cfg.Valid() && Prunable(n, cfg, overlay, source, p)
    ensures p in overlay
  {
  }

  /** The stored edges of a source with the updates on top. */
  function Overlaid(out: Adjacency, upserts: map<EdgeKey, Synapse>, source: int): map<Port, Synapse> {
    Bucket(out, source) + (map p | p in UpsertPorts(upserts, source) :: upserts[EdgeKey(source, p.peer, p.scope)])
  }

  /** As long as nothing of the source is deleted, those are its edges after the tick. */
  lemma OverlaidIs(out: Adjacency, upserts: map<EdgeKey, Synapse>, deletes: set<EdgeKey>, source: int)
    requires forall v | v in deletes :: v.source != source
    ensures Overlaid(out, upserts, source) == PostBucket(out, upserts, deletes, source)
  {
    var a, b := Overlaid(out, upserts, source), PostBucket(out, upserts, deletes, source);
    forall p: Port ensures (p in a <==> p in b) && (p in a ==> a[p] == b[p]) {
      var k := EdgeKey(source, p.peer, p.scope);
      PostBucketLookup(out, upserts, deletes, k);
      if k in upserts { assert p in UpsertPorts(upserts, source); }
    }
  }

  /** The proposals of one source in rank order; every admission and every exchange raises the total quality. */
  method ArbitrateSource(n: Net, cfg: Config, l: Learned, source: int, ranked: seq<EdgeKey>,
                         upserts0: map<EdgeKey, Synapse>, deletes0: set<EdgeKey>)
      returns (upserts: map<EdgeKey, Synapse>, deletes: set<EdgeKey>, ghost admitted: nat)
    requires cfg.Valid() && source in n.cells && LearnedOk(n, cfg, l)
    requires Arbitrated(n, cfg, l, upserts0, deletes0)
    requires forall j | 0 <= j < |ranked| :: ranked[j] in l.created && ranked[j].source == source && ranked[j] !in upserts0
    requires IsRanked(cfg, l, ranked)
    requires forall v | v in deletes0 :: v.source != source
    ensures Arbitrated(n, cfg, l, upserts, deletes)
    ensures admitted <= |ranked| && forall j | 0 <= j < |ranked| :: ranked[j] in upserts <==> j < admitted
    ensures var overlay := PostBucket(n.outgoing, upserts, deletes, source);
            && WeakestPruned(n, cfg, l, source, overlay, deletes)
            && (admitted < |ranked| ==> EntryBlocked(n, cfg, overlay, source, NewQuality(cfg, l.created[ranked[admitted]])))
    ensures OnlySource(source, upserts0, deletes0, upserts, deletes)
    ensures var before, after := PostBucket(n.outgoing, upserts0, deletes0, source), PostBucket(n.outgoing, upserts, deletes, source);
            if admitted == 0 then after == before else Total(cfg, after) > Total(cfg, before)
  {
    hide Total, Arbitrated, Contested, Progress, IsRanked, OnlySource, WeakestPruned, LearnedOk, NewQuality;
    hide EntryBlocked, PostBucket;
    upserts, deletes, admitted := upserts0, deletes0, 0;
    OverlaidIs(n.outgoing, upserts, deletes, source);
    var overlay := Overlaid(n.outgoing, upserts, source);
    ghost var before := overlay;
    StartProgress(n, cfg, l, source, ranked, upserts, deletes);
    var i := 0;
    while i < |ranked|
      invariant i <= |ranked| && Contested(n, cfg, l, source, ranked, i, admitted, overlay, upserts0, deletes0, upserts, deletes)
      invariant if admitted == 0 then overlay == before else Total(cfg, overlay) > Total(cfg, before)
    {
      var taken;
      taken, overlay, upserts, deletes := Contend(n, cfg, l, source, ranked, i, admitted, overlay, upserts0, deletes0, upserts, deletes);
      admitted := if taken then i + 1 else admitted;
      i := i + 1;
    }
    EndProgress(n, cfg, l, source, ranked, admitted, overlay, upserts0, deletes0, upserts, deletes);
  }

  lemma StartProgress(n: Net, cfg: Config, l: Learned, source: int, ranked: seq<EdgeKey>, upserts: map<EdgeKey, Synapse>, deletes: set<EdgeKey>)
    requires cfg.Valid() && source in n.cells && Arbitrated(n, cfg, l, upserts, deletes)
    requires forall j | 0 <= j < |ranked| :: ranked[j] in l.created && ranked[j].source == source && ranked[j] !in upserts
    requires forall v | v in deletes :: v.source != source
    ensures Contested(n, cfg, l, source, ranked, 0, 0, PostBucket(n.outgoing, upserts, deletes, source), upserts, deletes, upserts, deletes)
  {
    hide Arbitrated;
  }

  lemma EndProgress(n: Net, cfg: Config, l: Learned, source: int, ranked: seq<EdgeKey>, admitted: nat, overlay: map<Port, Synapse>,
                    upserts0: map<EdgeKey, Synapse>, deletes0: set<EdgeKey>, upserts: map<EdgeKey, Synapse>, deletes: set<EdgeKey>)
    requires cfg.Valid() && source in n.cells
    requires Contested(n, cfg, l, source, ranked, |ranked|, admitted, overlay, upserts0, deletes0, upserts, deletes)
    ensures admitted <= |ranked| && forall j | 0 <= j < |ranked| :: ranked[j] in upserts <==> j < admitted
    ensures overlay == PostBucket(n.outgoing, upserts, deletes, source) && WeakestPruned(n, cfg, l, source, overlay, deletes)
    ensures admitted < |ranked| ==> ranked[admitted] in l.created && EntryBlocked(n, cfg, overlay, source, NewQuality(cfg, l.created[ranked[admitted]]))
    ensures Arbitrated(n, cfg, l, upserts, deletes) && OnlySource(source, upserts0, deletes0, upserts, deletes)
  {
    hide Arbitrated, OnlySource;
  }

  /** Within the budget the next proposal enters. */
  lemma AdmitStep(n: Net, cfg: Config, l: Learned, source: int, ranked: seq<EdgeKey>, i: nat, admitted: nat, overlay: map<Port, Synapse>,
                  upserts0: map<EdgeKey, Synapse>, deletes0: set<EdgeKey>,
                  upserts: map<EdgeKey, Synapse>, deletes: set<EdgeKey>)
    requires cfg.Valid() && source in n.cells && LearnedOk(n, cfg, l) && i < |ranked|
    requires IsRanked(cfg, l, ranked)
    requires Progress(n, cfg, l, source, ranked, i, admitted, overlay, upserts, deletes)
    requires Arbitrated(n, cfg, l, upserts, deletes) && OnlySource(source, upserts0, deletes0, upserts, deletes)
    requires |overlay| < n.cells[source].budget
    ensures var k := ranked[i];
            var next := Enter(cfg, l, upserts, k);
            && Progress(n, cfg, l, source, ranked, i + 1, i + 1, overlay[Port(k.target, k.scope) := NewSynapse(cfg, k, l.created[k])], next, deletes)
            && Arbitrated(n, cfg, l, next, deletes) && OnlySource(source, upserts0, deletes0, next, deletes)
  {
    hide Arbitrated, EntryBlocked, PostBucket, LearnedOk, RankBefore, NewSynapse, WeakestPruned, OnlySource;
    AdmittedNext(n, cfg, l, source, ranked, i, admitted, overlay, upserts, deletes);
    NewPort(n, cfg, l, source, overlay, upserts, deletes, ranked[i]);
    NothingPruned(n, cfg, l, source, overlay, deletes, Port(ranked[i].target, ranked[i].scope), NewSynapse(cfg, ranked[i], l.created[ranked[i]]));
    Admit(n, cfg, l, upserts, deletes, ranked[i]);
    EnterBucket(n, cfg, l, upserts, deletes, ranked[i]);
    EnteredHere(cfg, l, source, upserts0, deletes0, upserts, deletes, ranked[i]);
  }

  /** While there is room no edge of the source was pruned. */
  lemma NothingPruned(n: Net, cfg: Config, l: Learned, source: int, overlay: map<Port, Synapse>, deletes: set<EdgeKey>, p: Port, e: Synapse)
    requires cfg.Valid() && source in n.cells && WeakestPruned(n, cfg, l, source, overlay, deletes)
    requires |overlay| < n.cells[source].budget
    ensures WeakestPruned(n, cfg, l, source, overlay[p := e], deletes)
  {
    assert forall v | v in deletes :: v.source != source;
  }

  lemma EnteredHere(cfg: Config, l: Learned, source: int, upserts0: map<EdgeKey, Synapse>, deletes0: set<EdgeKey>,
                    upserts: map<EdgeKey, Synapse>, deletes: set<EdgeKey>, k: EdgeKey)
    requires OnlySource(source, upserts0, deletes0, upserts, deletes) && k in l.created && k.source == source
    ensures OnlySource(source, upserts0, deletes0, Enter(cfg, l, upserts, k), deletes)
  {
  }

  /** Over it, the next proposal takes the place of a weaker provisional edge. */
  lemma DisplaceStep(n: Net, cfg: Config, l: Learned, source: int, ranked: seq<EdgeKey>, i: nat, admitted: nat, overlay: map<Port, Synapse>,
                     upserts0: map<EdgeKey, Synapse>, deletes0: set<EdgeKey>,
                     upserts: map<EdgeKey, Synapse>, deletes: set<EdgeKey>, v: Port)
    requires cfg.Valid() && source in n.cells && LearnedOk(n, cfg, l) && i < |ranked|
    requires IsRanked(cfg, l, ranked)
    requires Progress(n, cfg, l, source, ranked, i, admitted, overlay, upserts, deletes)
    requires Arbitrated(n, cfg, l, upserts, deletes) && OnlySource(source, upserts0, deletes0, upserts, deletes)
    requires Prunable(n, cfg, overlay, source, v) && NewQuality(cfg, l.created[ranked[i]]) > Quality(cfg, overlay[v])
    requires |overlay| >= n.cells[source].budget && forall p | Prunable(n, cfg, overlay, source, p) :: WeakBefore(cfg, overlay, v, p)
    ensures var k, gone := ranked[i], EdgeKey(source, v.peer, v.scope);
            var next := Enter(cfg, l, upserts - {gone}, k);
            && Progress(n, cfg, l, source, ranked, i + 1, i + 1, (overlay - {v})[Port(k.target, k.scope) := NewSynapse(cfg, k, l.created[k])], next, deletes + {gone})
            && Arbitrated(n, cfg, l, next, deletes + {gone}) && OnlySource(source, upserts0, deletes0, next, deletes + {gone})
  {
    hide Arbitrated, EntryBlocked, PostBucket, LearnedOk, RankBefore, NewSynapse, WeakBefore, WeakestPruned;
    hide Prunable, OnlySource;
    var k, gone := ranked[i], EdgeKey(source, v.peer, v.scope);
    BeatenNext(n, cfg, l, source, ranked, i, admitted, overlay, upserts, deletes, v);
    NewPort(n, cfg, l, source, overlay, upserts, deletes, k);
    WeakestNext(n, cfg, l, source, overlay, upserts, deletes, k, v);
    DisplacePrunable(n, cfg, l, upserts, deletes, overlay, k, v);
    PostBucketPrune(n.outgoing, upserts, deletes, source, gone);
    NotAnEntrant(n, cfg, l, gone);
    EnterBucket(n, cfg, l, upserts - {gone}, deletes + {gone}, k);
    DisplacedHere(cfg, l, source, upserts0, deletes0, upserts, deletes, k, gone);
  }

  /** A prunable edge that the entrant beats may be displaced by it. */
  lemma DisplacePrunable(n: Net, cfg: Config, l: Learned, upserts: map<EdgeKey, Synapse>, deletes: set<EdgeKey>,
                         overlay: map<Port, Synapse>, k: EdgeKey, v: Port)
    requires cfg.Valid() && LearnedOk(n, cfg, l) && Arbitrated(n, cfg, l, upserts, deletes)
    requires k in l.created && k !in upserts && Prunable(n, cfg, overlay, k.source, v)
    requires PostEdge(n.outgoing, upserts, deletes, EdgeKey(k.source, v.peer, v.scope)) == Some(overlay[v])
    requires NewQuality(cfg, l.created[k]) > Quality(cfg, overlay[v])
    ensures var gone := EdgeKey(k.source, v.peer, v.scope);
            EdgeAt(n.outgoing, gone).Some? && Arbitrated(n, cfg, l, Enter(cfg, l, upserts - {gone}, k), deletes + {gone})
  {
    hide Arbitrated, LearnedOk, NewSynapse;
    Displace(n, cfg, l, upserts, deletes, k, EdgeKey(k.source, v.peer, v.scope));
  }

  lemma DisplacedHere(cfg: Config, l: Learned, source: int, upserts0: map<EdgeKey, Synapse>, deletes0: set<EdgeKey>,
                      upserts: map<EdgeKey, Synapse>, deletes: set<EdgeKey>, k: EdgeKey, gone: EdgeKey)
    requires OnlySource(source, upserts0, deletes0, upserts, deletes)
    requires k in l.created && k.source == source && gone.source == source
    ensures OnlySource(source, upserts0, deletes0, Enter(cfg, l, upserts - {gone}, k), deletes + {gone})
  {
  }

  /** The port of an entrant is new to the source, and an entrant is never prunable. */
  lemma NewPort(n: Net, cfg: Config, l: Learned, source: int, overlay: map<Port, Synapse>,
                upserts: map<EdgeKey, Synapse>, deletes: set<EdgeKey>, k: EdgeKey)
    requires cfg.Valid() && LearnedOk(n, cfg, l) && Arbitrated(n, cfg, l, upserts, deletes)
    requires k in l.created && k.source == source && k !in upserts && overlay == PostBucket(n.outgoing, upserts, deletes, source)
    ensures Port(k.target, k.scope) !in overlay && EdgeAt(n.outgoing, k).None?
  {
    hide AllDisplaced, Provenance;
    NotShown(n, cfg, l, upserts, deletes, k);
    PostBucketLookup(n.outgoing, upserts, deletes, k);
    assert CreateOk(n, cfg, k, l.created[k]);
  }

  /** The victim is the worst of the prunable edges, so none of those it leaves behind is worse. */
  lemma WeakestNext(n: Net, cfg: Config, l: Learned, source: int, overlay: map<Port, Synapse>,
                    upserts: map<EdgeKey, Synapse>, deletes: set<EdgeKey>, k: EdgeKey, v: Port)
    requires cfg.Valid() && source in n.cells && LearnedOk(n, cfg, l) && Arbitrated(n, cfg, l, upserts, deletes)
    requires overlay == PostBucket(n.outgoing, upserts, deletes, source) && WeakestPruned(n, cfg, l, source, overlay, deletes)
    requires k in l.created && k.source == source && Port(k.target, k.scope) !in overlay && EdgeAt(n.outgoing, k).None?
    requires Prunable(n, cfg, overlay, source, v) && |overlay| >= n.cells[source].budget
    requires forall p | Prunable(n, cfg, overlay, source, p) :: WeakBefore(cfg, overlay, v, p)
    ensures WeakestPruned(n, cfg, l, source, (overlay - {v})[Port(k.target, k.scope) := NewSynapse(cfg, k, l.created[k])],
                          deletes + {EdgeKey(source, v.peer, v.scope)})
  {
    hide LearnedOk, Arbitrated, Quality, NewSynapse;
    var gone, next := EdgeKey(source, v.peer, v.scope), (overlay - {v})[Port(k.target, k.scope) := NewSynapse(cfg, k, l.created[k])];
    PostBucketLookup(n.outgoing, upserts, deletes, gone);
    CurrentShown(n, cfg, l, upserts, deletes, gone);
    MapSizes(overlay, v, overlay[v]);
    MapSizes(overlay - {v}, Port(k.target, k.scope), NewSynapse(cfg, k, l.created[k]));
    forall p | Prunable(n, cfg, next, source, p)
      ensures Prunable(n, cfg, overlay, source, p) && next[p] == overlay[p] && Worse(cfg, overlay[v], v, next[p], p)
    {
      assert EdgeKey(source, p.peer, p.scope) != k;
    }
    forall w | w in deletes + {gone} && w.source == source ensures WorseThanKept(n, cfg, l, w, next) {
      if w != gone { assert WorseThanKept(n, cfg, l, w, overlay); }
    }
  }

  lemma EnterBucket(n: Net, cfg: Config, l: Learned, upserts: map<EdgeKey, Synapse>, deletes: set<EdgeKey>, k: EdgeKey)
    requires k in l.created
    ensures PostBucket(n.outgoing, Enter(cfg, l, upserts, k), deletes, k.source)
         == PostBucket(n.outgoing, upserts, deletes, k.source)[Port(k.target, k.scope) := NewSynapse(cfg, k, l.created[k])]
  {
    PostBucketUpsert(n.outgoing, upserts, deletes, k.source, k, NewSynapse(cfg, k, l.created[k]));
  }

  lemma NotAnEntrant(n: Net, cfg: Config, l: Learned, v: EdgeKey)
    requires cfg.Valid() && LearnedOk(n, cfg, l) && EdgeAt(n.outgoing, v).Some?
    ensures v !in l.created
  {
    assert v in l.created ==> CreateOk(n, cfg, v, l.created[v]);
  }

  /** With room left nothing was refused before. */
  lemma AdmittedNext(n: Net, cfg: Config, l: Learned, source: int, ranked: seq<EdgeKey>, i: nat, admitted: nat,
                     overlay: map<Port, Synapse>, upserts: map<EdgeKey, Synapse>, deletes: set<EdgeKey>)
    requires cfg.Valid() && source in n.cells
    requires Progress(n, cfg, l, source, ranked, i, admitted, overlay, upserts, deletes)
    requires |overlay| < n.cells[source].budget
    ensures admitted == i
  {
  }

  /** A refusal stands for every proposal ranked after it. */
  lemma RefusalStands(n: Net, cfg: Config, l: Learned, source: int, ranked: seq<EdgeKey>, i: nat, admitted: nat,
                      overlay: map<Port, Synapse>)
    requires cfg.Valid() && source in n.cells && admitted < i < |ranked|
    requires forall j | 0 <= j < |ranked| :: ranked[j] in l.created
    requires RankBefore(cfg, l.created, ranked[admitted], ranked[i])
    requires EntryBlocked(n, cfg, overlay, source, NewQuality(cfg, l.created[ranked[admitted]]))
    ensures EntryBlocked(n, cfg, overlay, source, NewQuality(cfg, l.created[ranked[i]]))
  {
  }

  lemma BeatenNext(n: Net, cfg: Config, l: Learned, source: int, ranked: seq<EdgeKey>, i: nat, admitted: nat,
                   overlay: map<Port, Synapse>, upserts: map<EdgeKey, Synapse>, deletes: set<EdgeKey>, v: Port)
    requires cfg.Valid() && source in n.cells && i < |ranked|
    requires Progress(n, cfg, l, source, ranked, i, admitted, overlay, upserts, deletes)
    requires IsRanked(cfg, l, ranked)
    requires Prunable(n, cfg, overlay, source, v)
    requires NewQuality(cfg, l.created[ranked[i]]) > Quality(cfg, overlay[v])
    ensures admitted == i
    ensures PostEdge(n.outgoing, upserts, deletes, EdgeKey(source, v.peer, v.scope)) == Some(overlay[v])
  {
    PostBucketLookup(n.outgoing, upserts, deletes, EdgeKey(source, v.peer, v.scope));
    if admitted < i {
      RefusalStands(n, cfg, l, source, ranked, i, admitted, overlay);
    }
  }

  lemma StillBlocked(n: Net, cfg: Config, l: Learned, source: int, ranked: seq<EdgeKey>, i: nat, admitted: nat,
                   overlay: map<Port, Synapse>, upserts: map<EdgeKey, Synapse>, deletes: set<EdgeKey>)
    requires cfg.Valid() && source in n.cells && i < |ranked|
    requires Progress(n, cfg, l, source, ranked, i, admitted, overlay, upserts, deletes)
    requires EntryBlocked(n, cfg, overlay, source, NewQuality(cfg, l.created[ranked[i]]))
    ensures Progress(n, cfg, l, source, ranked, i + 1, admitted, overlay, upserts, deletes)
  {
  }

  /** The edge changes of a tick: every source settled, and the refused proposals that may ask for cells. */
  ghost predicate EdgesDone(n: Net, cfg: Config, l: Learned, novelty: real, upserts: map<EdgeKey, Synapse>, deletes: set<EdgeKey>, blocked: set<EdgeKey>)
    requires cfg.Valid()
  {
    && Arbitrated(n, cfg, l, upserts, deletes)
    && (forall s :: SourceSettled(n, cfg, l, upserts, deletes, s))
    && blocked == set k | k in l.created && k !in upserts && l.created[k] >= cfg.thetaCreate && novelty >= cfg.thetaR
  }

  datatype Resolution = Resolution(upserts: map<EdgeKey, Synapse>, deletes: set<EdgeKey>, blocked: set<EdgeKey>, touched: set<Pair>)

  function DeletedPairs(deletes: set<EdgeKey>): set<Pair> { set v | v in deletes :: PairOf(v) }

  /** Source by source in ascending order; no source sees what another decided. */
  method ArbitrateSynapses(n: Net, cfg: Config, l: Learned, novelty: real) returns (r: Resolution)
    requires cfg.Valid() && IndexInv(n) && StructInv(n, cfg) && LearnedOk(n, cfg, l)
    ensures EdgesDone(n, cfg, l, novelty, r.upserts, r.deletes, r.blocked)
    ensures r.touched == l.touched + DeletedPairs(r.deletes)
  {
    hide Arbitrated, LearnedOk, IndexInv, StructInv, RankBefore, SourceSettled, OnlySource, WeakestPruned, EntryBlocked;
    var upserts, deletes := l.updates, {};
    ArbitratedStart(n, cfg, l);
    EntrantsAbsent(n, cfg, l);
    var sources := set k | k in l.created :: k.source;
    var todo := sources;
    while todo != {}
      invariant todo <= sources
      invariant Arbitrated(n, cfg, l, upserts, deletes)
      invariant forall k | k in l.created && k.source in todo :: k !in upserts
      invariant forall v | v in deletes :: v.source !in todo
      invariant forall s | s !in todo :: SourceSettled(n, cfg, l, upserts, deletes, s)
      decreases |todo|
    {
      var source := Min(todo);
      var keys := set k | k in l.created && k.source == source;
      RankTotal(cfg, l.created);
      var ranked := Ranking(keys, (a: EdgeKey, b: EdgeKey) => RankBefore(cfg, l.created, a, b));
      SourceStored(n, cfg, l, source);
      forall j | 0 <= j < |ranked| ensures ranked[j] in keys { assert ranked[j] in ranked; }
      ghost var before, removed := upserts, deletes;
      ghost var admitted;
      upserts, deletes, admitted := ArbitrateSource(n, cfg, l, source, ranked, upserts, deletes);
      RankingSettled(n, cfg, l, upserts, deletes, source, ranked, admitted);
      OthersUntouched(n, cfg, l, source, before, removed, upserts, deletes);
      OthersOpen(l, source, before, removed, upserts, deletes, todo);
      todo := todo - {source};
    }
    var blocked := set k | k in l.created && k !in upserts && l.created[k] >= cfg.thetaCreate && novelty >= cfg.thetaR;
    r := Resolution(upserts, deletes, blocked, l.touched + DeletedPairs(deletes));
  }

  lemma EntrantsAbsent(n: Net, cfg: Config, l: Learned)
    requires LearnedOk(n, cfg, l)
    ensures forall k | k in l.created :: k !in l.updates
    ensures cfg.Valid() ==> forall s | s !in set k | k in l.created :: k.source :: SourceSettled(n, cfg, l, l.updates, {}, s)
  {
    forall k | k in l.created ensures k !in l.updates {
      assert CreateOk(n, cfg, k, l.created[k]);
    }
  }

  lemma SourceStored(n: Net, cfg: Config, l: Learned, source: int)
    requires LearnedOk(n, cfg, l) && exists k :: k in l.created && k.source == source
    ensures source in n.cells
  {
    var k :| k in l.created && k.source == source;
    assert CreateOk(n, cfg, k, l.created[k]);
  }

  lemma TopOfRanking(cfg: Config, l: Learned, upserts: map<EdgeKey, Synapse>, source: int, ranked: seq<EdgeKey>, admitted: nat)
    requires cfg.Valid() && admitted <= |ranked|
    requires forall k :: k in ranked <==> k in l.created && k.source == source
    requires forall j | 0 <= j < |ranked| :: ranked[j] in upserts <==> j < admitted
    requires forall i, j | 0 <= i < j < |ranked| :: RankBefore(cfg, l.created, ranked[i], ranked[j])
    ensures TopAdmitted(cfg, l, upserts, source)
  {
    hide RankBefore;
    forall a, b | a in l.created && b in l.created && a.source == source && b.source == source
                  && b in upserts && RankBefore(cfg, l.created, a, b) && !RankBefore(cfg, l.created, b, a)
      ensures a in upserts
    {
      assert a in ranked && b in ranked;
      var i :| 0 <= i < |ranked| && ranked[i] == a;
      var j :| 0 <= j < |ranked| && ranked[j] == b;
    }
  }

  /** The sources still to come keep all their proposals out and all their edges in. */
  lemma OthersOpen(l: Learned, source: int, before: map<EdgeKey, Synapse>, removed: set<EdgeKey>,
                   after: map<EdgeKey, Synapse>, gone: set<EdgeKey>, todo: set<int>)
    requires OnlySource(source, before, removed, after, gone)
    requires forall k | k in l.created && k.source in todo :: k !in before
    requires forall v | v in removed :: v.source !in todo
    ensures forall k | k in l.created && k.source in todo - {source} :: k !in after
    ensures forall v | v in gone :: v.source !in todo - {source}
  {
  }

  /** What the loop over one ranking leaves is the settled outcome of that source. */
  lemma RankingSettled(n: Net, cfg: Config, l: Learned, upserts: map<EdgeKey, Synapse>, deletes: set<EdgeKey>, source: int,
                       ranked: seq<EdgeKey>, admitted: nat)
    requires cfg.Valid() && admitted <= |ranked| && source in n.cells
    requires forall k :: k in ranked <==> k in l.created && k.source == source
    requires forall j | 0 <= j < |ranked| :: ranked[j] in upserts <==> j < admitted
    requires forall i, j | 0 <= i < j < |ranked| :: RankBefore(cfg, l.created, ranked[i], ranked[j])
    requires var overlay := PostBucket(n.outgoing, upserts, deletes, source);
             && WeakestPruned(n, cfg, l, source, overlay, deletes)
             && (admitted < |ranked| ==> EntryBlocked(n, cfg, overlay, source, NewQuality(cfg, l.created[ranked[admitted]])))
    ensures SourceSettled(n, cfg, l, upserts, deletes, source)
  {
    hide RankBefore, WeakestPruned, TopAdmitted, EntryBlocked, PostBucket;
    TopOfRanking(cfg, l, upserts, source, ranked, admitted);
    var overlay := PostBucket(n.outgoing, upserts, deletes, source);
    forall k | k in l.created && k.source == source && k !in upserts
      ensures EntryBlocked(n, cfg, overlay, source, NewQuality(cfg, l.created[k]))
    {
      assert k in ranked;
      var i :| 0 <= i < |ranked| && ranked[i] == k;
      if admitted < i {
        RefusalStands(n, cfg, l, source, ranked, i, admitted, overlay);
      }
    }
  }

  lemma OthersUntouched(n: Net, cfg: Config, l: Learned, source: int, before: map<EdgeKey, Synapse>, removed: set<EdgeKey>,
                        after: map<EdgeKey, Synapse>, gone: set<EdgeKey>)
    requires cfg.Valid() && OnlySource(source, before, removed, after, gone)
    ensures forall s | s != source :: SourceSettled(n, cfg, l, before, removed, s) ==> SourceSettled(n, cfg, l, after, gone, s)
  {
    hide RankBefore, EntryBlocked, WorseThanKept, PostBucket;
    forall s | s != source && SourceSettled(n, cfg, l, before, removed, s) ensures SourceSettled(n, cfg, l, after, gone, s) {
      BucketUntouched(n, source, before, removed, after, gone, s);
    }
  }

  lemma BucketUntouched(n: Net, source: int, before: map<EdgeKey, Synapse>, removed: set<EdgeKey>,
                        after: map<EdgeKey, Synapse>, gone: set<EdgeKey>, s: int)
    requires OnlySource(source, before, removed, after, gone) && s != source
    ensures PostBucket(n.outgoing, after, gone, s) == PostBucket(n.outgoing, before, removed, s)
  {
    var b := PostBucket(n.outgoing, before, removed, s);
    forall p: Port
      ensures var e := PostEdge(n.outgoing, after, gone, EdgeKey(s, p.peer, p.scope)); (p in b <==> e.Some?) && (p in b ==> b[p] == e.value)
    {
      PostBucketLookup(n.outgoing, before, removed, EdgeKey(s, p.peer, p.scope));
    }
    PostBucketIs(n.outgoing, after, gone, s, b);
  }
}
