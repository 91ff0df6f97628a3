/** Overlap families and strict witness dominance. */
module Separation {
  // Pattern separation of assembly sources: overlap families and strict witness dominance. The
  // families are exactly the connected components of the overlap graph, and dominance always
  // leaves some source of each family undominated.

  import opened FiniteSets

  type Overlaps = map<int, set<int>>

  datatype Family = Family(ids: set<int>, undominated: set<int>)

  datatype Separated = Separated(families: seq<Family>, witnesses: map<int, set<int>>, dominance: set<(int, int)>) | Mismatched

  /** Two different sources overlap when they share a seed cell. */
  ghost predicate Overlap(seeds: map<int, set<int>>, a: int, b: int) {
    a in seeds && b in seeds && a != b && exists x :: x in seeds[a] && x in seeds[b]
  }

  ghost predicate IsOverlapGraph(seeds: map<int, set<int>>, adj: Overlaps) {
    adj.Keys == seeds.Keys && forall a, b :: (a in adj && b in adj[a]) <==> Overlap(seeds, a, b)
  }

  /** No overlap leads out of `part`. */
  ghost predicate ClosedPart(adj: Overlaps, part: set<int>) {
    forall a | a in part && a in adj :: adj[a] <= part
  }

  /** A connected component: closed, and without a smaller non-empty closed part. */
  ghost predicate IsComponent(adj: Overlaps, comp: set<int>) {
    && comp != {} && comp <= adj.Keys && ClosedPart(adj, comp)
    && forall part: set<int> | part <= comp && part != {} && ClosedPart(adj, part) :: part == comp
  }

  /** The witnesses of a source are its authorised members. */
  ghost predicate AreWitnesses(members: map<int, set<int>>, authorized: set<int>, witnesses: map<int, set<int>>) {
    witnesses.Keys == members.Keys && forall a, x | a in members :: x in witnesses[a] <==> x in members[a] && x in authorized
  }

  ghost predicate Dominates(adj: Overlaps, witnesses: map<int, set<int>>, a: int, b: int) {
    a in adj && b in adj[a] && a in witnesses && b in witnesses && witnesses[a] > witnesses[b]
  }

  ghost predicate IsDominance(adj: Overlaps, witnesses: map<int, set<int>>, dominance: set<(int, int)>) {
    forall a, b :: (a, b) in dominance <==> Dominates(adj, witnesses, a, b)
  }

  // ----- dominance ----------------------------------------------------------------------

  /** Along any chain of dominance the witnesses strictly shrink, so no chain returns to its start. */
  lemma {:induction false} DominanceAcyclic(adj: Overlaps, witnesses: map<int, set<int>>, chain: seq<int>)
    requires |chain| >= 2 && forall i | 0 <= i < |chain| - 1 :: Dominates(adj, witnesses, chain[i], chain[i + 1])
    ensures chain[0] in witnesses && chain[|chain| - 1] in witnesses
    ensures witnesses[chain[0]] > witnesses[chain[|chain| - 1]] && chain[0] != chain[|chain| - 1]
    decreases |chain|
  {
    assert Dominates(adj, witnesses, chain[0], chain[1]);
    if |chain| > 2 {
      var rest := chain[1..];
      forall i | 0 <= i < |rest| - 1 ensures Dominates(adj, witnesses, rest[i], rest[i + 1]) {
        assert Dominates(adj, witnesses, chain[i + 1], chain[i + 2]);
      }
      DominanceAcyclic(adj, witnesses, rest);
    }
  }

  lemma SmallerWitness(a: set<int>, b: set<int>)
    requires a > b
    ensures |a| > |b|
  {
    var extra := a - b;
    assert a == b + extra;
    assert extra != {};
  }

  /** Some source of a non-empty set has as many witnesses as any of them. */
  lemma {:induction false} MostWitnesses(witnesses: map<int, set<int>>, s: set<int>) returns (x: int)
    requires s != {} && s <= witnesses.Keys
    ensures x in s && forall y | y in s :: |witnesses[y]| <= |witnesses[x]|
    decreases |s|
  {
    x := Pick(s);
    if s != {x} {
      var y := MostWitnesses(witnesses, s - {x});
      if |witnesses[y]| > |witnesses[x]| { x := y; }
    }
  }

  /** Every family has an undominated source. */
  lemma SomeUndominated(adj: Overlaps, witnesses: map<int, set<int>>, comp: set<int>) returns (x: int)
    requires comp != {} && comp <= witnesses.Keys
    ensures x in comp && forall y | y in comp :: !Dominates(adj, witnesses, y, x)
  {
    x := MostWitnesses(witnesses, comp);
    forall y | y in comp ensures !Dominates(adj, witnesses, y, x) {
      if witnesses[y] > witnesses[x] { SmallerWitness(witnesses[y], witnesses[x]); }
    }
  }

  // ----- components ---------------------------------------------------------------------

  lemma OverlapSymmetric(seeds: map<int, set<int>>, adj: Overlaps)
    requires IsOverlapGraph(seeds, adj)
    ensures forall a, b | a in adj && b in adj[a] :: b in adj && a in adj[b]
  {
    forall a, b | a in adj && b in adj[a] ensures b in adj && a in adj[b] {
      assert Overlap(seeds, a, b);
      assert Overlap(seeds, b, a);
    }
  }

  /** Two components that meet are equal. */
  lemma OverlapComponentsDisjoint(adj: Overlaps, a: set<int>, b: set<int>)
    requires IsComponent(adj, a) && IsComponent(adj, b) && a * b != {}
    ensures a == b
  {
    assert ClosedPart(adj, a * b);
  }

  /** The least closed part around one source is a component, because overlap is symmetric. */
  lemma ReachedIsComponent(seeds: map<int, set<int>>, adj: Overlaps, first: int, comp: set<int>)
    requires IsOverlapGraph(seeds, adj) && first in comp && comp <= adj.Keys && ClosedPart(adj, comp)
    requires forall part: set<int> | first in part && part <= comp && ClosedPart(adj, part) :: comp <= part
    ensures IsComponent(adj, comp)
  {
    OverlapSymmetric(seeds, adj);
    forall part: set<int> | part <= comp && part != {} && ClosedPart(adj, part) ensures part == comp {
      if first !in part {
        var rest := comp - part;
        forall a, b | a in rest && a in adj && b in adj[a] ensures b in rest {}
        assert ClosedPart(adj, rest);
      }
    }
  }

  /** Breadth-first collection of the component of the least unseen source. */
  method Collect(seeds: map<int, set<int>>, adj: Overlaps, first: int, unseen0: set<int>) returns (comp: set<int>, unseen: set<int>)
    requires IsOverlapGraph(seeds, adj) && first in unseen0 && unseen0 <= adj.Keys && ClosedPart(adj, unseen0)
    ensures IsComponent(adj, comp) && first in comp && comp <= unseen0 && unseen == unseen0 - comp
  {
    hide IsOverlapGraph;
    comp, unseen := {}, unseen0 - {first};
    var queue := [first];
    ghost var reached := {first};
    while queue != []
      invariant reached <= unseen0 && unseen == unseen0 - reached && first in reached
      invariant forall x :: x in reached <==> x in comp || x in queue
      invariant forall a | a in comp :: adj[a] <= reached
      invariant forall part: set<int> | first in part && part <= unseen0 && ClosedPart(adj, part) :: reached <= part
      invariant comp !! set x | x in queue
      invariant forall i, j | 0 <= i < j < |queue| :: queue[i] != queue[j]
      decreases unseen0 - comp
    {
      var current := queue[0];
      assert current in reached;
      var pushed := NewNeighbours(adj[current], unseen);
      PopStep(queue, comp);
      ghost var before := reached;
      reached := reached + (adj[current] * unseen);
      unseen := unseen - adj[current];
      comp := comp + {current};
      forall part: set<int> | first in part && part <= unseen0 && ClosedPart(adj, part) ensures reached <= part {
        assert before <= part && adj[current] <= part;
      }
      PushStep(queue[1..], pushed, before);
      queue := queue[1..] + pushed;
    }
    forall x ensures x in reached <==> x in comp {}
    assert comp == reached;
    assert ClosedPart(adj, comp);
    ReachedIsComponent(seeds, adj, first, comp);
  }

  lemma PopStep(queue: seq<int>, comp: set<int>)
    requires queue != [] && comp !! (set x | x in queue)
    requires forall i, j | 0 <= i < j < |queue| :: queue[i] != queue[j]
    ensures forall x :: x in queue <==> x == queue[0] || x in queue[1..]
    ensures queue[0] !in queue[1..] && queue[0] !in comp
  {
    assert queue == [queue[0]] + queue[1..];
    assert queue[0] in set x | x in queue;
  }

  lemma PushStep(queue: seq<int>, pushed: seq<int>, reached: set<int>)
    requires forall i, j | 0 <= i < j < |queue| :: queue[i] != queue[j]
    requires forall i, j | 0 <= i < j < |pushed| :: pushed[i] != pushed[j]
    requires (forall x | x in queue :: x in reached) && (forall x | x in pushed :: x !in reached)
    ensures forall i, j | 0 <= i < j < |queue + pushed| :: (queue + pushed)[i] != (queue + pushed)[j]
  {
    var all := queue + pushed;
    forall i, j | 0 <= i < j < |all| ensures all[i] != all[j] {
      if j >= |queue| { assert all[j] in pushed; }
      if i < |queue| { assert all[i] in queue; }
    }
  }

  /** The neighbours still unseen, in ascending order. */
  method NewNeighbours(neighbours: set<int>, unseen: set<int>) returns (r: seq<int>)
    ensures forall x :: x in r <==> x in neighbours && x in unseen
    ensures forall i, j | 0 <= i < j < |r| :: r[i] != r[j]
  {
    var order := Sorted(neighbours);
    r := [];
    for i := 0 to |order|
      invariant forall x :: x in r <==> x in order[..i] && x in unseen
      invariant forall a, b | 0 <= a < b < |r| :: r[a] != r[b]
    {
      assert order[..i + 1] == order[..i] + [order[i]];
      assert order[i] !in order[..i];
      if order[i] in unseen { r := r + [order[i]]; }
    }
    assert order[..|order|] == order;
  }

  // ----- the whole separation -----------------------------------------------------------

  /** Compare every pair once, in ascending order, and record an overlap on both sides. */
  method BuildOverlaps(seeds: map<int, set<int>>) returns (adj: Overlaps)
    ensures IsOverlapGraph(seeds, adj)
  {
    hide Sorted, Overlap, PairsDone;
    adj := map a | a in seeds :: {};
    var order := Sorted(seeds.Keys);
    NoPairs(seeds, adj, order);
    var i := 0;
    while i < |order|
      invariant 0 <= i <= |order| && adj.Keys == seeds.Keys
      invariant PairsDone(seeds, adj, order, i, i + 1)
    {
      var j := i + 1;
      assert order[i] in seeds.Keys;
      while j < |order|
        invariant i + 1 <= j <= |order| && adj.Keys == seeds.Keys
        invariant PairsDone(seeds, adj, order, i, j)
      {
        var left, right := order[i], order[j];
        assert right in seeds.Keys;
        PairDone(seeds, adj, order, i, j);
        if seeds[left] * seeds[right] != {} {
          adj := adj[left := adj[left] + {right}];
          adj := adj[right := adj[right] + {left}];
        }
        j := j + 1;
      }
      RowDone(seeds, adj, order, i);
      i := i + 1;
    }
    AllPairs(seeds, adj, order);
  }

  /** The pair at positions x < y has been compared. */
  ghost predicate Compared(order: seq<int>, i: nat, j: nat, a: int, b: int) {
    exists x, y {:trigger order[x], order[y]} :: 0 <= x < y < |order| && order[x] == a && order[y] == b && (x < i || (x == i && y < j))
  }

  ghost predicate PairsDone(seeds: map<int, set<int>>, adj: Overlaps, order: seq<int>, i: nat, j: nat) {
    && (forall x, y | 0 <= x < y < |order| :: order[x] < order[y])
    && forall a, b :: (a in adj && b in adj[a]) <==> (Compared(order, i, j, a, b) || Compared(order, i, j, b, a)) && Overlap(seeds, a, b)
  }

  ghost function PutOverlap(adj: Overlaps, l: int, r: int): Overlaps
    requires l in adj && r in adj && l != r
  {
    adj[l := adj[l] + {r}][r := adj[r] + {l}]
  }

  lemma PairDone(seeds: map<int, set<int>>, adj: Overlaps, order: seq<int>, i: nat, j: nat)
    requires i < j < |order| && order[i] in seeds && order[j] in seeds && adj.Keys == seeds.Keys && PairsDone(seeds, adj, order, i, j)
    ensures order[i] != order[j]
    ensures PairsDone(seeds, if seeds[order[i]] * seeds[order[j]] != {} then PutOverlap(adj, order[i], order[j]) else adj, order, i, j + 1)
  {
    var l, r := order[i], order[j];
    var next := if seeds[l] * seeds[r] != {} then PutOverlap(adj, l, r) else adj;
    assert l < r;
    Meets(seeds[l], seeds[r]);
    Meets(seeds[r], seeds[l]);
    forall a, b
      ensures Compared(order, i, j + 1, a, b) <==> Compared(order, i, j, a, b) || (a == l && b == r)
    {}
    forall a, b
      ensures (a in next && b in next[a]) <==> (Compared(order, i, j + 1, a, b) || Compared(order, i, j + 1, b, a)) && Overlap(seeds, a, b)
    {
    }
  }

  lemma NoPairs(seeds: map<int, set<int>>, adj: Overlaps, order: seq<int>)
    requires forall x, y | 0 <= x < y < |order| :: order[x] < order[y]
    requires forall a | a in adj :: adj[a] == {}
    ensures PairsDone(seeds, adj, order, 0, 1)
  {
  }

  lemma RowDone(seeds: map<int, set<int>>, adj: Overlaps, order: seq<int>, i: nat)
    requires i < |order| && PairsDone(seeds, adj, order, i, |order|)
    ensures PairsDone(seeds, adj, order, i + 1, i + 2)
  {
    hide Overlap;
    forall a, b ensures Compared(order, i, |order|, a, b) <==> Compared(order, i + 1, i + 2, a, b) {}
  }

  lemma AllPairs(seeds: map<int, set<int>>, adj: Overlaps, order: seq<int>)
    requires adj.Keys == seeds.Keys && PairsDone(seeds, adj, order, |order|, |order| + 1)
    requires forall x :: x in order <==> x in seeds
    ensures IsOverlapGraph(seeds, adj)
  {
    forall a, b | Overlap(seeds, a, b) ensures Compared(order, |order|, |order| + 1, a, b) || Compared(order, |order|, |order| + 1, b, a) {
      var x :| 0 <= x < |order| && order[x] == a;
      var y :| 0 <= y < |order| && order[y] == b;
    }
  }

  /** A family: a component of the overlap graph with its undominated sources, at least one. */
  ghost predicate IsFamily(adj: Overlaps, witnesses: map<int, set<int>>, f: Family) {
    && IsComponent(adj, f.ids)
    && (forall x :: x in f.undominated <==> x in f.ids && forall y :: !Dominates(adj, witnesses, y, x))
    && f.undominated != {}
  }

  ghost predicate Holds(families: seq<Family>, a: int) {
    exists i :: 0 <= i < |families| && a in families[i].ids
  }

  /** Disjoint families, the first starting before the second. */
  ghost predicate Apart(f: Family, g: Family) {
    f.ids != {} && g.ids != {} && f.ids !! g.ids && Min(f.ids) < Min(g.ids)
  }

  /** The families are in order of their least sources, and partition the sources. */
  ghost predicate Partitions(families: seq<Family>, sources: set<int>) {
    && (forall i | 0 <= i < |families| :: families[i].ids != {} && families[i].ids <= sources)
    && (forall i, j | 0 <= i < j < |families| :: Apart(families[i], families[j]))
    && forall a | a in sources :: Holds(families, a)
  }

  function DominatedFrom(dominance: set<(int, int)>, comp: set<int>): set<int> {
    set p | p in dominance && p.0 in comp :: p.1
  }

  /** Sources of a component that no source dominates, read off the recorded pairs. */
  method Undominated(adj: Overlaps, witnesses: map<int, set<int>>, dominance: set<(int, int)>, comp: set<int>) returns (f: Family)
    requires IsComponent(adj, comp) && comp != {} && comp <= witnesses.Keys && IsDominance(adj, witnesses, dominance)
    requires forall a, b | a in adj && b in adj[a] :: b in adj && a in adj[b]
    ensures f.ids == comp && IsFamily(adj, witnesses, f)
  {
    hide IsDominance, Dominates, IsComponent, DominatedFrom;
    var free := comp - DominatedFrom(dominance, comp);
    f := Family(comp, free);
    forall x ensures x in free <==> x in comp && forall y :: !Dominates(adj, witnesses, y, x) {
      DominatedInside(adj, witnesses, dominance, comp, x);
    }
    ghost var x := SomeUndominated(adj, witnesses, comp);
    DominatedInside(adj, witnesses, dominance, comp, x);
    assert x in free;
  }

  /** Whoever dominates a source of a component is in the component. */
  lemma DominatedInside(adj: Overlaps, witnesses: map<int, set<int>>, dominance: set<(int, int)>, comp: set<int>, x: int)
    requires IsComponent(adj, comp) && IsDominance(adj, witnesses, dominance)
    requires forall a, b | a in adj && b in adj[a] :: b in adj && a in adj[b]
    ensures forall y | x in comp && Dominates(adj, witnesses, y, x) :: y in comp
    ensures x in comp ==> (x in DominatedFrom(dominance, comp) <==> exists y :: Dominates(adj, witnesses, y, x))
  {
    forall y | x in comp && Dominates(adj, witnesses, y, x) ensures y in comp && x in DominatedFrom(dominance, comp) {
      assert x in adj[y];
      assert y in adj[x];
      assert (y, x) in dominance;
    }
    if x in comp && x in DominatedFrom(dominance, comp) {
      var p :| p in dominance && p.0 in comp && p.1 == x;
      assert (p.0, x) in dominance;
      assert Dominates(adj, witnesses, p.0, x);
    }
  }

  method RecordDominance(adj: Overlaps, witnesses: map<int, set<int>>) returns (dominance: set<(int, int)>)
    requires adj.Keys == witnesses.Keys && forall a, b | a in adj && b in adj[a] :: b in adj
    ensures IsDominance(adj, witnesses, dominance)
  {
    dominance := {};
    var left := adj.Keys;
    while left != {}
      invariant left <= adj.Keys
      invariant forall a, b :: (a, b) in dominance <==> a in adj.Keys - left && Dominates(adj, witnesses, a, b)
      decreases left
    {
      var l := Min(left);
      var row := set r | r in adj[l] && witnesses[l] > witnesses[r] :: (l, r);
      dominance := dominance + row;
      left := left - {l};
    }
  }

  /** Separation of any sources: the families, and who dominates whom. */
  method SeparateSources(seeds: map<int, set<int>>, members: map<int, set<int>>, authorized: set<int>) returns (r: Separated, ghost adj: Overlaps)
    ensures r.Mismatched? <==> seeds.Keys != members.Keys
    ensures r.Separated? ==> IsOverlapGraph(seeds, adj) && AreWitnesses(members, authorized, r.witnesses)
    ensures r.Separated? ==> IsDominance(adj, r.witnesses, r.dominance)
    ensures r.Separated? ==> Partitions(r.families, seeds.Keys)
    ensures r.Separated? ==> forall i | 0 <= i < |r.families| :: IsFamily(adj, r.witnesses, r.families[i])
  {
    adj := map[];
    if seeds.Keys != members.Keys {
      return Mismatched, adj;
    }
    var graph := BuildOverlaps(seeds);
    adj := graph;
    var witnesses := map a | a in members :: members[a] * authorized;
    OverlapSymmetric(seeds, graph);
    var dominance := RecordDominance(graph, witnesses);
    var families := Families(seeds, graph, witnesses, dominance);
    r := Separated(families, witnesses, dominance);
  }

  method Families(seeds: map<int, set<int>>, adj: Overlaps, witnesses: map<int, set<int>>, dominance: set<(int, int)>)
    returns (families: seq<Family>)
    requires IsOverlapGraph(seeds, adj) && witnesses.Keys == adj.Keys == seeds.Keys && IsDominance(adj, witnesses, dominance)
    ensures Partitions(families, seeds.Keys)
    ensures forall i | 0 <= i < |families| :: IsFamily(adj, witnesses, families[i])
  {
    hide IsDominance, Dominates, Overlap, IsFamily, Partitions, ClosedPart, Earlier, IsOverlapGraph;
    OverlapSymmetric(seeds, adj);
    families := [];
    var unseen := adj.Keys;
    NoFamilies(adj);
    while unseen != {}
      invariant unseen <= adj.Keys && ClosedPart(adj, unseen)
      invariant Partitions(families, adj.Keys - unseen)
      invariant Earlier(families, unseen)
      invariant forall i | 0 <= i < |families| :: IsFamily(adj, witnesses, families[i])
      decreases |unseen|
    {
      var first := Min(unseen);
      var comp, rest := Collect(seeds, adj, first, unseen);
      assert comp <= adj.Keys;
      var f := Undominated(adj, witnesses, dominance, comp);
      NextFamily(adj, families, f, first, unseen, rest);
      assert rest < unseen;
      SmallerWitness(unseen, rest);
      unseen := rest;
      families := families + [f];
    }
    assert adj.Keys - unseen == seeds.Keys;
  }

  /** Every family found starts before every unseen source. */
  ghost predicate Earlier(families: seq<Family>, unseen: set<int>) {
    forall i | 0 <= i < |families| :: families[i].ids != {} && forall x | x in unseen :: Min(families[i].ids) < x
  }

  lemma NoFamilies(adj: Overlaps)
    requires forall a, b | a in adj && b in adj[a] :: b in adj
    ensures Partitions([], adj.Keys - adj.Keys) && Earlier([], adj.Keys) && ClosedPart(adj, adj.Keys)
  {
    assert adj.Keys - adj.Keys == {};
    forall a | a in adj ensures adj[a] <= adj.Keys {
      forall b | b in adj[a] ensures b in adj.Keys {}
    }
  }

  lemma NextFamily(adj: Overlaps, families: seq<Family>, f: Family, first: int, unseen: set<int>, rest: set<int>)
    requires unseen <= adj.Keys && ClosedPart(adj, unseen) && unseen != {} && first == Min(unseen)
    requires Partitions(families, adj.Keys - unseen) && Earlier(families, unseen)
    requires first in f.ids && f.ids <= unseen && rest == unseen - f.ids && IsComponent(adj, f.ids)
    requires forall a, b | a in adj && b in adj[a] :: b in adj && a in adj[b]
    ensures Partitions(families + [f], adj.Keys - rest) && ClosedPart(adj, rest) && Earlier(families + [f], rest)
  {
    hide Min, IsComponent, Partitions, Earlier, ClosedPart;
    LeastOfPart(unseen, f.ids, first);
    RestClosed(adj, f.ids, unseen);
    assert adj.Keys - rest == (adj.Keys - unseen) + f.ids;
    FamilyAdded(families, f, adj.Keys - unseen, unseen);
    EarlierAdded(families, f, unseen, rest);
  }

  lemma FamilyAdded(families: seq<Family>, f: Family, sources: set<int>, unseen: set<int>)
    requires Partitions(families, sources) && Earlier(families, unseen)
    requires f.ids != {} && f.ids !! sources && Min(f.ids) in unseen
    ensures Partitions(families + [f], sources + f.ids)
  {
    hide Min, Apart, Holds;
    var more := families + [f];
    forall a | a in sources + f.ids ensures Holds(more, a) {
      HoldsMore(families, f, a);
    }
    forall i, j | 0 <= i < j < |more| ensures Apart(more[i], more[j]) {
      assert more[i] == families[i];
      if j < |families| {
        assert more[j] == families[j];
      } else {
        assert Apart(families[i], f) by { FoundApart(families[i], f, sources); }
      }
    }
  }

  lemma FoundApart(g: Family, f: Family, sources: set<int>)
    requires g.ids != {} && g.ids <= sources && f.ids != {} && f.ids !! sources && Min(g.ids) < Min(f.ids)
    ensures Apart(g, f)
  {
    hide Min;
  }

  lemma HoldsMore(families: seq<Family>, f: Family, a: int)
    requires Holds(families, a) || a in f.ids
    ensures Holds(families + [f], a)
  {
    var more := families + [f];
    if a in f.ids {
      assert more[|families|] == f;
    } else {
      var i :| 0 <= i < |families| && a in families[i].ids;
      assert a in more[i].ids;
    }
  }

  lemma EarlierAdded(families: seq<Family>, f: Family, unseen: set<int>, rest: set<int>)
    requires Earlier(families, unseen) && rest <= unseen && f.ids != {} && forall x | x in rest :: Min(f.ids) < x
    ensures Earlier(families + [f], rest)
  {
    hide Min;
    var more := families + [f];
    forall i | 0 <= i < |more| ensures more[i].ids != {} && forall x | x in rest :: Min(more[i].ids) < x {
      if i < |families| { assert more[i] == families[i]; }
    }
  }

  lemma LeastOfPart(s: set<int>, part: set<int>, m: int)
    requires s != {} && part <= s && m == Min(s) && m in part
    ensures Min(part) == m
    ensures forall x | x in s - part :: m < x
  {
  }

  lemma RestClosed(adj: Overlaps, comp: set<int>, unseen: set<int>)
    requires IsComponent(adj, comp) && ClosedPart(adj, unseen) && comp <= unseen <= adj.Keys
    requires forall a, b | a in adj && b in adj[a] :: b in adj && a in adj[b]
    ensures ClosedPart(adj, unseen - comp)
  {
    forall a, b | a in unseen - comp && a in adj && b in adj[a] ensures b in unseen - comp {
      assert b in unseen;
      assert b in comp ==> a in comp;
    }
  }
}
