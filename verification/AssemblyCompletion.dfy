/**
 The reconstruction graph of a stored assembly, and why completion of a stored assembly only
 ever stalls at the threshold: the network keeps every stored assembly connected.
 */
module AssemblyCompletion {
  import opened FiniteSets
  import opened CoreModel
  import opened RealFacts
  import opened Connectivity
  import opened NetworkState
  import opened Reconstruction
  import opened CompletionLaws

  /** The links of a member set: every qualifying reciprocal pair once, with its quality. */
  ghost predicate GraphOf(v: View, cfg: Config, members: set<int>, links: seq<Link>)
    requires cfg.eMax > 0.0
  {
    && LinksOk(members, links)
    && forall a, b, q :: Link(a, b, q) in links <==>
         a in members && b in members && a < b && Linked(v, cfg, a, b) && q == Reciprocal(v, cfg, a, b, Local)
  }

  lemma QualityRange(out: Adjacency, cfg: Config, a: int, b: int)
    requires cfg.Valid() && EdgesOk(cfg, out)
    ensures 0.0 <= Reciprocal(Plain(out), cfg, a, b, Local) <= 1.0
    ensures Reciprocal(Plain(out), cfg, a, b, Local) == Reciprocal(Plain(out), cfg, b, a, Local)
  {
    var forward, reverse := EdgeAt(out, EdgeKey(a, b, Local)), EdgeAt(out, EdgeKey(b, a, Local));
    if forward.Some? && reverse.Some? {
      Ratio(forward.value.evidence, cfg.eMax);
      Ratio(reverse.value.evidence, cfg.eMax);
      UnitProduct(forward.value.strength, forward.value.evidence / cfg.eMax);
      UnitProduct(reverse.value.strength, reverse.value.evidence / cfg.eMax);
    }
  }

  /** The pairs already visited: all pairs of earlier rows, and the row of `i` up to `j`. */
  predicate Visited(order: seq<int>, i: nat, j: nat, a: int, b: int) {
    exists x, y {:trigger order[x], order[y]} ::
      0 <= x < y < |order| && order[x] == a && order[y] == b && (x < i || (x == i && y < j))
  }

  ghost predicate LinksUpTo(out: Adjacency, cfg: Config, order: seq<int>, i: nat, j: nat, links: seq<Link>)
    requires cfg.eMax > 0.0
  {
    && LinksOk(Elements(order), links)
    && forall a, b, q :: Link(a, b, q) in links <==>
         Visited(order, i, j, a, b) && Linked(Plain(out), cfg, a, b) && q == Reciprocal(Plain(out), cfg, a, b, Local)
  }

  predicate Ascends(order: seq<int>) { forall x, y | 0 <= x < y < |order| :: order[x] < order[y] }

  lemma PairStep(out: Adjacency, cfg: Config, order: seq<int>, i: nat, j: nat, links: seq<Link>)
    requires cfg.Valid() && EdgesOk(cfg, out) && Ascends(order) && i < j < |order| && LinksUpTo(out, cfg, order, i, j, links)
    ensures var q := Reciprocal(Plain(out), cfg, order[i], order[j], Local);
            LinksUpTo(out, cfg, order, i, j + 1, if q >= cfg.thetaA then links + [Link(order[i], order[j], q)] else links)
  {
    hide Reciprocal, EdgesOk;
    var l, r := order[i], order[j];
    var q := Reciprocal(Plain(out), cfg, l, r, Local);
    QualityRange(out, cfg, l, r);
    forall a, b ensures Visited(order, i, j + 1, a, b) <==> Visited(order, i, j, a, b) || (a == l && b == r) {
      VisitedStep(order, i, j, a, b);
    }
    assert !Visited(order, i, j, l, r);
    if q >= cfg.thetaA {
      var more := links + [Link(l, r, q)];
      forall x | 0 <= x < |links| ensures links[x].left != l || links[x].right != r {
        assert Link(links[x].left, links[x].right, links[x].quality) in links;
      }
      assert LinksOk(Elements(order), more);
    }
  }

  lemma VisitedStep(order: seq<int>, i: nat, j: nat, a: int, b: int)
    requires Ascends(order) && i < j < |order|
    ensures Visited(order, i, j + 1, a, b) <==> Visited(order, i, j, a, b) || (a == order[i] && b == order[j])
  {
  }

  lemma RowStep(out: Adjacency, cfg: Config, order: seq<int>, i: nat, links: seq<Link>)
    requires cfg.Valid() && Ascends(order) && i < |order| && LinksUpTo(out, cfg, order, i, |order|, links)
    ensures LinksUpTo(out, cfg, order, i + 1, i + 2, links)
  {
    forall a, b ensures Visited(order, i, |order|, a, b) <==> Visited(order, i + 1, i + 2, a, b) {}
  }

  /** Pair by pair in ascending order, keep the pairs whose reciprocal quality reaches the threshold. */
  method BuildReconstructionGraph(out: Adjacency, cfg: Config, members: set<int>) returns (links: seq<Link>)
    requires cfg.Valid() && EdgesOk(cfg, out)
    ensures GraphOf(Plain(out), cfg, members, links)
  {
    hide EdgesOk, LinksUpTo, Reciprocal, Sorted;
    var order := Sorted(members);
    SortedElements(members);
    links := [];
    NoLinksYet(out, cfg, order);
    var i := 0;
    while i < |order|
      invariant 0 <= i <= |order| && LinksUpTo(out, cfg, order, i, i + 1, links)
    {
      var j := i + 1;
      while j < |order|
        invariant i + 1 <= j <= |order| && LinksUpTo(out, cfg, order, i, j, links)
      {
        var quality := Reciprocal(Plain(out), cfg, order[i], order[j], Local);
        PairStep(out, cfg, order, i, j, links);
        if quality >= cfg.thetaA {
          links := links + [Link(order[i], order[j], quality)];
        }
        j := j + 1;
      }
      RowStep(out, cfg, order, i, links);
      i := i + 1;
    }
    AllVisited(out, cfg, members, order, links);
  }

  lemma NoLinksYet(out: Adjacency, cfg: Config, order: seq<int>)
    requires cfg.Valid()
    ensures LinksUpTo(out, cfg, order, 0, 1, [])
  {
  }

  lemma IndexOrder(order: seq<int>, x: nat, y: nat)
    requires Ascends(order) && y < |order| && x < |order|
    ensures order[x] < order[y] ==> x < y
  {
  }

  lemma AllVisited(out: Adjacency, cfg: Config, members: set<int>, order: seq<int>, links: seq<Link>)
    requires cfg.Valid() && Ascends(order) && Elements(order) == members && LinksUpTo(out, cfg, order, |order|, |order| + 1, links)
    ensures GraphOf(Plain(out), cfg, members, links)
  {
    hide Reciprocal;
    forall a, b ensures Visited(order, |order|, |order| + 1, a, b) <==> a in members && b in members && a < b {
      if a in members && b in members && a < b {
        var x :| 0 <= x < |order| && order[x] == a;
        var y :| 0 <= y < |order| && order[y] == b;
        IndexOrder(order, x, y);
      }
    }
  }

  /** Over a connected member set, a completion that admits someone but not everyone has a frontier. */
  lemma StalledFrontier(v: View, cfg: Config, members: set<int>, links: seq<Link>, adj: Qualities, admitted: set<int>) returns (c: int)
    requires cfg.Valid() && GraphOf(v, cfg, members, links) && Indexes(adj, members, links)
    requires Connected(v, cfg, members) && admitted != {} && admitted < members
    ensures c in members && c !in admitted && c in Frontier(adj, admitted)
  {
    hide Reciprocal, LinksOk;
    assert !Closed(v, cfg, members, admitted);
    var a, b :| a in admitted && b in members && Linked(v, cfg, a, b) && b !in admitted;
    LinkedFacts(v, cfg, a, b);
    c := b;
    assert a != b;
    var q := if a < b then Reciprocal(v, cfg, a, b, Local) else Reciprocal(v, cfg, b, a, Local);
    assert Link(a, b, q) in links || Link(b, a, q) in links;
    assert Entry(adj, a, b, q);
  }

  /**
   Complete any stored assembly of a network that meets the invariants. Either every member
   is admitted, or some member next to an admitted one has support below the threshold.
   */
  method CompleteStored(n: Net, cfg: Config, id: int, seeds: map<int, SeedValue>, theta: real)
    returns (lane: Lane, adj: Qualities, ghost stalled: int)
    requires cfg.Valid() && FullInv(n, cfg) && id in n.assemblies
    requires seeds != map[] && seeds.Keys <= n.assemblies[id].members && 0.0 < theta <= 1.0
    requires FlagsSound(seeds) && forall c | c in seeds :: SeedOk(seeds[c])
    ensures GraphOk(adj) && adj.Keys == n.assemblies[id].members && Completed(adj, theta, seeds, lane)
    ensures lane.drives.Keys != n.assemblies[id].members ==>
              stalled in Frontier(adj, lane.drives.Keys) && stalled in adj && Support(adj, lane, stalled) < theta
  {
    hide IndexInv, Connected, Complete, Completed, Reciprocal, FlagsSound, LinksOk, GraphOk, Shaped, BudgetsOk;
    hide CellsOk, EdgesOk, Frontier, Residual;
    var members := n.assemblies[id].members;
    var links := BuildReconstructionGraph(n.outgoing, cfg, members);
    var r := ReconstructPattern(members, links, seeds, theta);
    lane, adj := r.lane, r.adjacency;
    CompletionGuarantees(adj, theta, seeds);
    SeededLane(adj, theta, seeds);
    stalled := 0;
    if lane.drives.Keys != members {
      stalled := StalledFrontier(Plain(n.outgoing), cfg, members, links, adj, lane.drives.Keys);
      NothingLeftOut(adj, theta, seeds, stalled);
    }
  }

  lemma SeededLane(adj: Qualities, theta: real, seeds: map<int, SeedValue>)
    requires GraphOk(adj) && seeds != map[] && seeds.Keys <= adj.Keys
    ensures Complete(adj, theta, SeedLane(seeds), 0).drives.Keys != {}
    ensures Complete(adj, theta, SeedLane(seeds), 0).drives.Keys <= adj.Keys
  {
    hide Complete;
    var s := Pick(seeds.Keys);
    assert s in SeedLane(seeds).drives;
  }
}
