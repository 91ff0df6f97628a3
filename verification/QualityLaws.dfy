/** What links, scopes and the competition for budgets mean over strength and evidence. */
module QualityLaws {
  // Quality is a ratio; every threshold on it is stated here as a comparison of products, over
  // the stored fields alone.

  import opened RealFacts
  import opened CoreModel
  import opened NetworkState
  import opened Arbitration
  import opened Resources

  // ----- links --------------------------------------------------------------------------

  /** A consolidated edge with strength times evidence of at least `share` of the evidence cap. */
  ghost predicate Carries(v: View, cfg: Config, k: EdgeKey, share: real) {
    && v.Edge(k).Some? && v.Edge(k).value.state.Consolidated?
    && v.Edge(k).value.strength * v.Edge(k).value.evidence >= share * cfg.eMax
  }

  lemma QualityAtLeast(cfg: Config, e: Synapse, share: real)
    requires cfg.eMax > 0.0
    ensures Quality(cfg, e) >= share <==> e.strength * e.evidence >= share * cfg.eMax
  {
    var q := e.evidence / cfg.eMax;
    assert q * cfg.eMax == e.evidence;
    Swap(e.strength, q, cfg.eMax);
    assert Quality(cfg, e) * cfg.eMax == e.strength * e.evidence;
    if Quality(cfg, e) >= share { Monotone(cfg.eMax, share, Quality(cfg, e)); }
    if Quality(cfg, e) < share { StrictMonotone(cfg.eMax, Quality(cfg, e), share); }
  }

  lemma StrictMonotone(a: real, b: real, c: real)
    requires 0.0 < a && b < c
    ensures a * b < a * c
  {
  }

  /** Two cells are linked when both edges between them exist, are consolidated and strong enough. */
  lemma LinkedIff(v: View, cfg: Config, a: int, b: int)
    requires cfg.Valid()
    ensures Linked(v, cfg, a, b) <==> Carries(v, cfg, EdgeKey(a, b, Local), cfg.thetaA) && Carries(v, cfg, EdgeKey(b, a, Local), cfg.thetaA)
  {
    hide Quality;
    var f, r := v.Edge(EdgeKey(a, b, Local)), v.Edge(EdgeKey(b, a, Local));
    if f.Some? { QualityAtLeast(cfg, f.value, cfg.thetaA); }
    if r.Some? { QualityAtLeast(cfg, r.value, cfg.thetaA); }
  }

  /** The reciprocal quality is the weaker of two consolidated edges of one territory's scopes, and zero otherwise. */
  lemma ReciprocalIs(v: View, cfg: Config, a: int, b: int, scope: Scope)
    requires cfg.Valid()
    ensures var f, r := v.Edge(EdgeKey(a, b, scope)), v.Edge(EdgeKey(b, a, scope));
            var q := Reciprocal(v, cfg, a, b, scope);
            if !scope.CrossTerritory? && f.Some? && r.Some? && f.value.state.Consolidated? && r.value.state.Consolidated?
            then q <= Quality(cfg, f.value) && q <= Quality(cfg, r.value) && q in {Quality(cfg, f.value), Quality(cfg, r.value)}
            else q == 0.0
  {
    hide Quality;
  }

  /** A synapse joins two cells within the radius of its scope, and crosses territories exactly in the cross scope. */
  lemma EligibleIff(cfg: Config, k: EdgeKey)
    ensures cfg.Eligible(k) <==>
            && k.source != k.target
            && (k.scope.CrossTerritory? <==> cfg.topology.territoryOf(k.source) != cfg.topology.territoryOf(k.target))
            && cfg.topology.distance(k.source, k.target) <= (if k.scope.Local? then cfg.localRadius else cfg.associativeRadius)
  {
  }

  // ----- budgets ------------------------------------------------------------------------

  lemma CappedOrder(cfg: Config, p: real, q: real)
    requires cfg.Valid() && NewQuality(cfg, p) > NewQuality(cfg, q)
    ensures p > q
  {
    var a, b := MinReal(p, cfg.eMax), MinReal(q, cfg.eMax);
    if a <= b { Ordered(a, b, cfg.eMax); }
  }

  lemma Ordered(a: real, b: real, c: real)
    requires a <= b && 0.0 < c
    ensures a / c <= b / c
  {
  }

  /** Ranking by quality and then by mass is ranking by mass: more mass first, then the target, then the nearer scope. */
  lemma RankByMass(cfg: Config, created: map<EdgeKey, real>, a: EdgeKey, b: EdgeKey)
    requires cfg.Valid() && a in created && b in created
    ensures RankBefore(cfg, created, a, b) <==>
            || created[a] > created[b]
            || (created[a] == created[b] && (a.target < b.target || (a.target == b.target && a.scope.Order() <= b.scope.Order())))
    ensures Local.Order() < Associative.Order() < CrossTerritory.Order()
  {
    if created[a] > created[b] && NewQuality(cfg, created[a]) < NewQuality(cfg, created[b]) { CappedOrder(cfg, created[b], created[a]); }
    if NewQuality(cfg, created[a]) > NewQuality(cfg, created[b]) { CappedOrder(cfg, created[a], created[b]); }
  }

  /** An edge may be pruned when it was stored before the tick, is provisional and its strength times evidence is low. */
  lemma PrunableIff(n: Net, cfg: Config, overlay: map<Port, Synapse>, source: int, p: Port)
    requires cfg.Valid()
    ensures Prunable(n, cfg, overlay, source, p) <==>
            && p in overlay && overlay[p].state.Candidate? && EdgeAt(n.outgoing, EdgeKey(source, p.peer, p.scope)).Some?
            && overlay[p].strength * overlay[p].evidence < cfg.thetaPrune * cfg.eMax
  {
    hide Quality;
    if p in overlay { QualityAtLeast(cfg, overlay[p], cfg.thetaPrune); }
  }
}
