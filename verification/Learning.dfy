/**
 Evidence adjudication and synaptic updates of one external root: proposals are grouped by
 identity and target, conflicting identities are dropped, and each adjudicated identity either
 updates its stored edge, proposes a new one, or is ignored.
 */
module Learning {
  import opened FiniteSets
  import opened RealFacts
  import opened CoreModel
  import opened NetworkState

  datatype Evidence = Evidence(root: int, key: EdgeKey, q: real, y: int, external: bool)

  /** The single evidence mass and target an edge identity keeps for the root. */
  datatype Verdict = Verdict(q: real, y: int)

  datatype Pair = Pair(lo: int, hi: int)

  function PairOf(k: EdgeKey): (p: Pair)
    ensures p.lo <= p.hi && {p.lo, p.hi} == {k.source, k.target}
  {
    if k.source <= k.target then Pair(k.source, k.target) else Pair(k.target, k.source)
  }

  datatype Learned = Learned(updates: map<EdgeKey, Synapse>, created: map<EdgeKey, real>, touched: set<Pair>)

  // ----- adjudication ------------------------------------------------------------------

  predicate Counts(e: Evidence) { e.external && e.q > 0.0 }

  /** Evidence that aborts the tick. */
  /** Evidence of this root for one of the two targets, with a mass of at most one if it is external. */
  ghost predicate LawfulEvidence(e: Evidence, root: int) {
    e.root == root && e.y in {0, 1} && (e.external ==> e.q <= 1.0)
  }

  predicate Unlawful(e: Evidence, root: int) {
    e.root != root || !(e.y == 0 || e.y == 1) || (Counts(e) && e.q > 1.0)
  }

  ghost predicate Supported(proposals: seq<Evidence>, k: EdgeKey, y: int) {
    exists i :: 0 <= i < |proposals| && proposals[i].external && proposals[i].q > 0.0 && proposals[i].key == k && proposals[i].y == y
  }

  /** `q` is the largest mass any counted proposal gives to target `y` of `k`. */
  ghost predicate Largest(proposals: seq<Evidence>, k: EdgeKey, y: int, q: real) {
    && q > 0.0
    && (exists i :: 0 <= i < |proposals| && proposals[i].external && proposals[i].key == k && proposals[i].y == y && proposals[i].q == q)
    && (forall i | 0 <= i < |proposals| && proposals[i].external && proposals[i].key == k && proposals[i].y == y :: proposals[i].q <= q)
  }

  ghost predicate GroupedBy(proposals: seq<Evidence>, grouped: map<EdgeKey, map<int, real>>) {
    && (forall k | k in grouped :: grouped[k] != map[])
    && (forall k, y :: k in grouped && y in grouped[k] <==> Supported(proposals, k, y))
    && (forall k, y | k in grouped && y in grouped[k] :: Largest(proposals, k, y, grouped[k][y]))
  }

  /** The identities with counted evidence for one target only, each with that target and the largest mass behind it. */
  ghost predicate Adjudicated(proposals: seq<Evidence>, accepted: map<EdgeKey, Verdict>) {
    && (forall k :: k in accepted <==> Supported(proposals, k, 0) != Supported(proposals, k, 1))
    && forall k | k in accepted ::
         accepted[k].y in {0, 1} && 0.0 < accepted[k].q <= 1.0 && Largest(proposals, k, accepted[k].y, accepted[k].q)
  }

  /**
   Group the counted proposals by identity and target, keep the largest mass, reject the
   identities that claim both targets.
   */
  method AggregateEvidence(proposals: seq<Evidence>, root: int)
      returns (ok: bool, accepted: map<EdgeKey, Verdict>, conflicts: set<EdgeKey>)
    ensures ok <==> forall i | 0 <= i < |proposals| :: LawfulEvidence(proposals[i], root)
    ensures ok ==> forall k :: k in conflicts <==> Supported(proposals, k, 0) && Supported(proposals, k, 1)
    ensures ok ==> Adjudicated(proposals, accepted)
  {
    accepted, conflicts := map[], {};
    var lawful, grouped := Group(proposals, root);
    if !lawful {
      return false, accepted, conflicts;
    }
    var todo := grouped.Keys;
    while todo != {}
      invariant todo <= grouped.Keys
      invariant forall k :: k in conflicts <==> k in grouped && k !in todo && |grouped[k]| > 1
      invariant forall k :: k in accepted <==> k in grouped && k !in todo && |grouped[k]| <= 1
      invariant forall k | k in accepted :: accepted[k].y in grouped[k] && grouped[k][accepted[k].y] == accepted[k].q
      decreases |todo|
    {
      var k :| k in todo;
      var byTarget := grouped[k];
      if |byTarget| > 1 {
        conflicts := conflicts + {k};
      } else {
        var y := Min(byTarget.Keys);
        accepted := accepted[k := Verdict(byTarget[y], y)];
      }
      todo := todo - {k};
    }
    forall k | k in grouped ensures |grouped[k]| > 1 <==> Supported(proposals, k, 0) && Supported(proposals, k, 1) {
      TwoTargets(proposals, grouped, k);
    }
    forall k ensures k in grouped <==> Supported(proposals, k, 0) || Supported(proposals, k, 1) {
      SomeTarget(proposals, grouped, k);
    }
    ok := true;
  }

  lemma SomeTarget(proposals: seq<Evidence>, grouped: map<EdgeKey, map<int, real>>, k: EdgeKey)
    requires GroupedBy(proposals, grouped)
    requires forall k, y | k in grouped && y in grouped[k] :: y in {0, 1}
    ensures k in grouped <==> Supported(proposals, k, 0) || Supported(proposals, k, 1)
  {
    if k in grouped {
      assert grouped[k].Keys != {};
      var y := Pick(grouped[k].Keys);
      assert y in grouped[k];
    }
  }

  lemma TwoTargets(proposals: seq<Evidence>, grouped: map<EdgeKey, map<int, real>>, k: EdgeKey)
    requires GroupedBy(proposals, grouped) && k in grouped
    requires forall y | y in grouped[k] :: y in {0, 1}
    ensures |grouped[k]| > 1 <==> Supported(proposals, k, 0) && Supported(proposals, k, 1)
  {
    forall y | y in grouped[k].Keys ensures y in {0, 1} { assert y in grouped[k]; }
    assert |grouped[k]| == |grouped[k].Keys|;
    TwoKeys(grouped[k].Keys);
  }

  lemma TwoKeys(keys: set<int>)
    requires keys <= {0, 1}
    ensures |keys| > 1 <==> 0 in keys && 1 in keys
  {
    if 0 in keys && 1 in keys {
      assert keys == {0, 1};
    } else {
      SubsetCardinality(keys, if 0 in keys then {0} else {1});
    }
  }

  method Group(proposals: seq<Evidence>, root: int) returns (ok: bool, grouped: map<EdgeKey, map<int, real>>)
    ensures ok <==> forall i | 0 <= i < |proposals| :: LawfulEvidence(proposals[i], root)
    ensures ok ==> GroupedBy(proposals, grouped)
    ensures ok ==> forall k, y | k in grouped && y in grouped[k] :: y in {0, 1} && 0.0 < grouped[k][y] <= 1.0
  {
    grouped := map[];
    var i := 0;
    assert proposals[..0] == [];
    while i < |proposals|
      invariant 0 <= i <= |proposals|
      invariant forall j | 0 <= j < i :: LawfulEvidence(proposals[j], root)
      invariant GroupedBy(proposals[..i], grouped)
      invariant forall k, y | k in grouped && y in grouped[k] :: y in {0, 1} && 0.0 < grouped[k][y] <= 1.0
    {
      var e := proposals[i];
      if Unlawful(e, root) {
        return false, grouped;
      }
      assert proposals[..i + 1] == proposals[..i] + [e];
      if Counts(e) {
        GroupStep(proposals[..i], grouped, e);
        grouped := Put(grouped, e);
      } else {
        SkipStep(proposals[..i], grouped, e);
      }
      i := i + 1;
    }
    assert proposals[..i] == proposals;
    ok := true;
  }

  function Put(grouped: map<EdgeKey, map<int, real>>, e: Evidence): map<EdgeKey, map<int, real>> {
    var group := if e.key in grouped then grouped[e.key] else map[];
    var best := if e.y in group && group[e.y] > e.q then group[e.y] else e.q;
    grouped[e.key := group[e.y := best]]
  }

  lemma Extend(proposals: seq<Evidence>, e: Evidence, k: EdgeKey, y: int, q: real)
    ensures Supported(proposals + [e], k, y) <==> Supported(proposals, k, y) || (Counts(e) && e.key == k && e.y == y)
    ensures Largest(proposals, k, y, q) && !(Counts(e) && e.key == k && e.y == y && e.q > q) ==> Largest(proposals + [e], k, y, q)
    ensures (Counts(e) && e.key == k && e.y == y && e.q == q
             && (!Supported(proposals, k, y) || exists b: real :: b <= q && Largest(proposals, k, y, b))) ==>
              Largest(proposals + [e], k, y, q)
  {
    var all := proposals + [e];
    assert all[|proposals|] == e && forall i | 0 <= i < |proposals| :: all[i] == proposals[i];
    if Supported(proposals, k, y) {
      var i :| 0 <= i < |proposals| && Counts(proposals[i]) && proposals[i].key == k && proposals[i].y == y;
      assert Counts(all[i]) && all[i].key == k && all[i].y == y;
    }
    if Largest(proposals, k, y, q) {
      var i :| 0 <= i < |proposals| && Counts(proposals[i]) && proposals[i].key == k && proposals[i].y == y && proposals[i].q == q;
      assert Counts(all[i]) && all[i].key == k && all[i].y == y && all[i].q == q;
    }
  }

  lemma SkipStep(proposals: seq<Evidence>, grouped: map<EdgeKey, map<int, real>>, e: Evidence)
    requires GroupedBy(proposals, grouped) && !Counts(e)
    ensures GroupedBy(proposals + [e], grouped)
  {
    forall k, y ensures k in grouped && y in grouped[k] <==> Supported(proposals + [e], k, y) {
      Extend(proposals, e, k, y, 0.0);
    }
    forall k, y | k in grouped && y in grouped[k] ensures Largest(proposals + [e], k, y, grouped[k][y]) {
      Extend(proposals, e, k, y, grouped[k][y]);
    }
  }

  lemma GroupStep(proposals: seq<Evidence>, grouped: map<EdgeKey, map<int, real>>, e: Evidence)
    requires GroupedBy(proposals, grouped) && Counts(e)
    ensures GroupedBy(proposals + [e], Put(grouped, e))
  {
    var next := Put(grouped, e);
    forall k, y ensures k in next && y in next[k] <==> Supported(proposals + [e], k, y) {
      Extend(proposals, e, k, y, 0.0);
    }
    forall k, y | k in next && y in next[k] ensures Largest(proposals + [e], k, y, next[k][y]) {
      Extend(proposals, e, k, y, next[k][y]);
      if k == e.key && y == e.y && k in grouped && y in grouped[k] {
        assert Largest(proposals, k, y, grouped[k][y]);
      }
    }
  }

  // ----- application -------------------------------------------------------------------

  predicate ResourceValid(n: Net, cfg: Config, k: EdgeKey, strength: real, evidence: real) {
    && CommittedIn(n.cells, k.source) && CommittedIn(n.cells, k.target)
    && k.source != k.target
    && 0.0 <= strength <= 1.0 && 0.0 <= evidence <= cfg.eMax
    && cfg.Eligible(k)
    && |Bucket(n.outgoing, k.source)| <= n.cells[k.source].budget
  }

  function Factor(e: Synapse, v: Verdict): real
    requires e.evidence + v.q > 0.0
  {
    v.q / (e.evidence + v.q)
  }

  function Strengthened(e: Synapse, v: Verdict): real
    requires e.evidence + v.q > 0.0
  {
    e.strength + Factor(e, v) * (v.y as real - e.strength)
  }

  function Massed(cfg: Config, e: Synapse, v: Verdict): real {
    if e.evidence + v.q > cfg.eMax then cfg.eMax else e.evidence + v.q
  }

  function Updated(n: Net, cfg: Config, k: EdgeKey, e: Synapse, v: Verdict): Synapse
    requires cfg.eMax > 0.0 && e.evidence + v.q > 0.0
  {
    var strength := Strengthened(e, v);
    var evidence := Massed(cfg, e, v);
    var state :=
      if e.state.Candidate? then
        if strength >= cfg.thetaS && evidence / cfg.eMax >= cfg.thetaE && ResourceValid(n, cfg, k, strength, evidence)
        then Consolidated else e.state
      else if strength < cfg.thetaDemote then Candidate else e.state;
    Synapse(k.target, strength, evidence, state, k.scope)
  }

  predicate Updates(n: Net, k: EdgeKey, v: Verdict) {
    EdgeAt(n.outgoing, k).Some? && EdgeAt(n.outgoing, k).value.evidence + v.q > 0.0
  }

  predicate Creates(n: Net, cfg: Config, k: EdgeKey, v: Verdict) {
    && EdgeAt(n.outgoing, k).None?
    && v.y == 1 && v.q >= cfg.thetaCreate
    && ResourceValid(n, cfg, k, 1.0, if v.q > cfg.eMax then cfg.eMax else v.q)
  }

  function UpdatesOf(n: Net, cfg: Config, accepted: map<EdgeKey, Verdict>): map<EdgeKey, Synapse>
    requires cfg.Valid()
  {
    map k | k in accepted && Updates(n, k, accepted[k]) ::
      Updated(n, cfg, k, EdgeAt(n.outgoing, k).value, accepted[k])
  }

  function CreatedOf(n: Net, cfg: Config, accepted: map<EdgeKey, Verdict>): map<EdgeKey, real> {
    map k | k in accepted && Creates(n, cfg, k, accepted[k]) :: accepted[k].q
  }

  function TouchedOf(n: Net, cfg: Config, accepted: map<EdgeKey, Verdict>): set<Pair> {
    set k | k in accepted && (Updates(n, k, accepted[k]) || Creates(n, cfg, k, accepted[k])) :: PairOf(k)
  }

  function LearnedOf(n: Net, cfg: Config, accepted: map<EdgeKey, Verdict>): Learned
    requires cfg.Valid()
  {
    Learned(UpdatesOf(n, cfg, accepted), CreatedOf(n, cfg, accepted), TouchedOf(n, cfg, accepted))
  }

  lemma UpdateStep(n: Net, cfg: Config, a: map<EdgeKey, Verdict>, k: EdgeKey, v: Verdict)
    requires cfg.Valid() && k !in a
    ensures UpdatesOf(n, cfg, a[k := v]) ==
              if Updates(n, k, v) then UpdatesOf(n, cfg, a)[k := Updated(n, cfg, k, EdgeAt(n.outgoing, k).value, v)]
              else UpdatesOf(n, cfg, a)
  {
    hide Updated, EdgeAt;
  }

  lemma CreateStep(n: Net, cfg: Config, a: map<EdgeKey, Verdict>, k: EdgeKey, v: Verdict)
    requires cfg.Valid() && k !in a
    ensures CreatedOf(n, cfg, a[k := v]) == if Creates(n, cfg, k, v) then CreatedOf(n, cfg, a)[k := v.q] else CreatedOf(n, cfg, a)
  {
    hide Creates;
  }

  lemma TouchStep(n: Net, cfg: Config, a: map<EdgeKey, Verdict>, k: EdgeKey, v: Verdict)
    requires k !in a
    ensures TouchedOf(n, cfg, a[k := v]) ==
              if Updates(n, k, v) || Creates(n, cfg, k, v) then TouchedOf(n, cfg, a) + {PairOf(k)} else TouchedOf(n, cfg, a)
  {
    var b := a[k := v];
    forall x | x in a ensures b[x] == a[x] {}
    assert k in b;
  }

  lemma Shrink<K, V>(m: map<K, V>, todo: set<K>, k: K)
    requires k in todo && todo <= m.Keys
    ensures m - (todo - {k}) == (m - todo)[k := m[k]] && k !in m - todo
  {
  }

  /** Every adjudicated identity either updates its edge, proposes a new one, or is dropped. */
  method ApplyLearning(n: Net, cfg: Config, accepted: map<EdgeKey, Verdict>) returns (r: Learned)
    requires cfg.Valid()
    ensures r == LearnedOf(n, cfg, accepted)
    ensures IndexInv(n) && StructInv(n, cfg) && (forall k | k in accepted :: accepted[k].y in {0, 1} && 0.0 < accepted[k].q <= 1.0) ==>
              LearnsAll(n, cfg, accepted, r)
  {
    hide IndexInv, StructInv, LearnsAll;
    r := Learned(map[], map[], {});
    var todo := accepted.Keys;
    assert accepted - todo == map[];
    while todo != {}
      invariant todo <= accepted.Keys
      invariant r == LearnedOf(n, cfg, accepted - todo)
      decreases |todo|
    {
      var k :| k in todo;
      var v := accepted[k];
      Shrink(accepted, todo, k);
      UpdateStep(n, cfg, accepted - todo, k, v);
      CreateStep(n, cfg, accepted - todo, k, v);
      TouchStep(n, cfg, accepted - todo, k, v);
      var current := EdgeAt(n.outgoing, k);
      if current.None? {
        if Creates(n, cfg, k, v) {
          r := Learned(r.updates, r.created[k := v.q], r.touched + {PairOf(k)});
        }
      } else if current.value.evidence + v.q > 0.0 {
        r := Learned(r.updates[k := Updated(n, cfg, k, current.value, v)], r.created, r.touched + {PairOf(k)});
      }
      todo := todo - {k};
    }
    assert accepted - todo == accepted;
    if IndexInv(n) && StructInv(n, cfg) && (forall k | k in accepted :: accepted[k].y in {0, 1} && 0.0 < accepted[k].q <= 1.0) {
      LearnedMeans(n, cfg, accepted);
    }
  }

  // ----- what learning guarantees the later stages --------------------------------------

  /** Both ends are there, their scope is eligible, and the source is within its budget. */
  ghost predicate Supportable(n: Net, cfg: Config, k: EdgeKey) {
    && CommittedIn(n.cells, k.source) && CommittedIn(n.cells, k.target) && cfg.Eligible(k)
    && |Bucket(n.outgoing, k.source)| <= n.cells[k.source].budget
  }

  /**
   What one verdict does to a stored edge: the new strength is the mean of the old one and the
   target, weighted by evidence; evidence adds up to its cap; a candidate consolidates exactly
   at both thresholds with resources behind it; a consolidated edge is demoted exactly below the
   lower threshold.
   */
  ghost predicate Learns(n: Net, cfg: Config, k: EdgeKey, e: Synapse, v: Verdict, u: Synapse)
    requires cfg.eMax > 0.0
  {
    && u.target == k.target && u.scope == k.scope
    && u.strength * (e.evidence + v.q) == e.strength * e.evidence + v.q * (v.y as real)
    && (e.evidence + v.q <= cfg.eMax ==> u.evidence == e.evidence + v.q)
    && (e.evidence + v.q > cfg.eMax ==> u.evidence == cfg.eMax)
    && (e.state.Candidate? ==>
          (u.state.Consolidated? <==> u.strength >= cfg.thetaS && u.evidence / cfg.eMax >= cfg.thetaE && Supportable(n, cfg, k)))
    && (e.state.Consolidated? ==> (u.state.Candidate? <==> u.strength < cfg.thetaDemote))
  }

  lemma WeightedMean(s: real, e: real, q: real, y: real)
    requires e + q > 0.0
    ensures (s + q / (e + q) * (y - s)) * (e + q) == s * e + q * y
  {
    var d := e + q;
    var f := q / d;
    assert f * d == q;
    Swap(f, d, y - s);
    assert (s + f * (y - s)) * d == s * d + (f * (y - s)) * d;
    assert (f * (y - s)) * d == (f * d) * (y - s);
    assert q * (y - s) == q * y - q * s;
    assert s * d == s * e + s * q;
  }

  /** An update does exactly that, keeps the record within bounds and moves the strength towards the target. */
  lemma UpdatedFacts(n: Net, cfg: Config, k: EdgeKey, e: Synapse, v: Verdict)
    requires cfg.Valid() && SynapseOk(cfg, k.source, e) && e.target == k.target
    requires v.y in {0, 1} && 0.0 < v.q <= 1.0
    ensures var u := Updated(n, cfg, k, e, v);
            && Learns(n, cfg, k, e, v, u)
            && SynapseOk(cfg, k.source, u) && u.target == k.target && u.scope == k.scope
            && (v.y == 1 ==> e.strength <= u.strength) && (v.y == 0 ==> u.strength <= e.strength)
            && u.evidence >= e.evidence
  {
    hide Bucket;
    var f, step := Factor(e, v), v.y as real - e.strength;
    StrengthRange(e, v);
    WeightedMean(e.strength, e.evidence, v.q, v.y as real);
  }

  lemma StrengthRange(e: Synapse, v: Verdict)
    requires 0.0 <= e.strength <= 1.0 && 0.0 <= e.evidence && v.y in {0, 1} && 0.0 < v.q
    ensures 0.0 <= Strengthened(e, v) <= 1.0
    ensures (v.y == 1 ==> e.strength <= Strengthened(e, v)) && (v.y == 0 ==> Strengthened(e, v) <= e.strength)
  {
    var f, step := Factor(e, v), v.y as real - e.strength;
    Ratio(v.q, e.evidence + v.q);
    Convex(e.strength, f, v.y as real);
    if v.y == 1 {
      Product(f, step);
    } else {
      Product(f, -step);
      assert f * step == -(f * -step);
    }
  }

  /**
   Learning as a whole: every adjudicated identity that is stored is updated; of the others those
   are proposed that claim the link with enough mass and have resources behind them; the touched
   pairs are those of the two.
   */
  ghost predicate LearnsAll(n: Net, cfg: Config, accepted: map<EdgeKey, Verdict>, r: Learned)
    requires cfg.eMax > 0.0
  {
    && (forall k :: k in r.updates <==> k in accepted && EdgeAt(n.outgoing, k).Some?)
    && (forall k | k in r.updates :: Learns(n, cfg, k, EdgeAt(n.outgoing, k).value, accepted[k], r.updates[k]))
    && (forall k :: k in r.created <==>
          k in accepted && EdgeAt(n.outgoing, k).None? && accepted[k].y == 1 && accepted[k].q >= cfg.thetaCreate && Supportable(n, cfg, k))
    && (forall k | k in r.created :: r.created[k] == accepted[k].q)
    && (forall k | k in r.updates.Keys + r.created.Keys :: PairOf(k) in r.touched)
    && forall p | p in r.touched :: exists k :: k in r.updates.Keys + r.created.Keys && PairOf(k) == p
  }

  lemma LearnedMeans(n: Net, cfg: Config, accepted: map<EdgeKey, Verdict>)
    requires cfg.Valid() && IndexInv(n) && StructInv(n, cfg)
    requires forall k | k in accepted :: accepted[k].y in {0, 1} && 0.0 < accepted[k].q <= 1.0
    ensures LearnsAll(n, cfg, accepted, LearnedOf(n, cfg, accepted))
  {
    hide Learns, Updated, Bucket, MembersIndexed, SetsIndexed, BudgetsOk, CellsOk, ActiveCover, IdsBelow, CellsKeyed;
    var r := LearnedOf(n, cfg, accepted);
    forall k | k in accepted && EdgeAt(n.outgoing, k).Some?
      ensures Updates(n, k, accepted[k])
      ensures var e := EdgeAt(n.outgoing, k).value; Learns(n, cfg, k, e, accepted[k], Updated(n, cfg, k, e, accepted[k]))
    {
      assert SynapseOk(cfg, k.source, EdgeAt(n.outgoing, k).value);
      UpdatedFacts(n, cfg, k, EdgeAt(n.outgoing, k).value, accepted[k]);
    }
    forall k | k in accepted
      ensures Creates(n, cfg, k, accepted[k]) <==>
              EdgeAt(n.outgoing, k).None? && accepted[k].y == 1 && accepted[k].q >= cfg.thetaCreate && Supportable(n, cfg, k) {}
    forall p | p in r.touched ensures exists k :: k in r.updates.Keys + r.created.Keys && PairOf(k) == p {
      var k :| k in accepted && (Updates(n, k, accepted[k]) || Creates(n, cfg, k, accepted[k])) && PairOf(k) == p;
      assert k in r.updates.Keys + r.created.Keys;
    }
  }
}
