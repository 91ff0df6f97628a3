/** Pattern completion over one assembly graph. */
module Reconstruction {
  // Pattern completion over one assembly graph: rounds of synchronous admission with frozen
  // drives. The reference recomputes every support from scratch; the loop keeps a frontier and
  // multiplies residuals up. The loop refines the reference.

  import opened FiniteSets
  import opened RealFacts

  datatype SeedValue = SeedValue(drive: real, exactOne: bool)

  datatype Link = Link(left: int, right: int, quality: real)

  datatype CompletionStep = CompletionStep(cell: int, round: nat, supporters: set<int>)

  /** What completion has admitted so far: the keys of the three maps are the admitted cells. */
  datatype Lane = Lane(drives: map<int, real>, exact: map<int, bool>, rounds: map<int, nat>, steps: seq<CompletionStep>)

  type Qualities = map<int, map<int, real>>

  ghost predicate SeedOk(v: SeedValue) {
    0.0 < v.drive <= 1.0 && (v.exactOne ==> v.drive == 1.0)
  }

  ghost predicate LinksOk(members: set<int>, links: seq<Link>) {
    && (forall i | 0 <= i < |links| ::
          links[i].left < links[i].right && links[i].left in members && links[i].right in members && 0.0 <= links[i].quality <= 1.0)
    && forall i, j | 0 <= i < j < |links| :: links[i].left != links[j].left || links[i].right != links[j].right
  }

  /** Neighbour qualities over the members: symmetric, irreflexive, in the unit interval. */
  ghost predicate GraphOk(adj: Qualities) {
    forall a, b | a in adj && b in adj[a] ::
      a != b && b in adj && a in adj[b] && adj[b][a] == adj[a][b] && 0.0 <= adj[a][b] <= 1.0
  }

  // ----- residuals ----------------------------------------------------------------------

  function Factor(drives: map<int, real>, q: map<int, real>, x: int): real
    requires x in drives && x in q
  {
    1.0 - drives[x] * q[x]
  }

  /** The product of 1 - drive * quality over a set of supporters. */
  function Prod(drives: map<int, real>, q: map<int, real>, s: set<int>): real
    requires s <= drives.Keys && s <= q.Keys
    decreases |s|
  {
    if s == {} then 1.0 else Factor(drives, q, Min(s)) * Prod(drives, q, s - {Min(s)})
  }

  lemma LeastStays(s: set<int>, x: int)
    requires x in s && x != Min(s)
    ensures s - {x} != {} && Min(s - {x}) == Min(s)
  {
    assert Min(s) in s - {x};
  }

  lemma ProdUnfold(drives: map<int, real>, q: map<int, real>, s: set<int>)
    requires s != {} && s <= drives.Keys && s <= q.Keys
    ensures Prod(drives, q, s) == Factor(drives, q, Min(s)) * Prod(drives, q, s - {Min(s)})
  {
  }

  lemma {:induction false} ProdRemove(drives: map<int, real>, q: map<int, real>, s: set<int>, x: int)
    requires x in s && s <= drives.Keys && s <= q.Keys
    ensures Prod(drives, q, s) == Factor(drives, q, x) * Prod(drives, q, s - {x})
    decreases |s|
  {
    hide Factor, Min, Prod;
    var m := Min(s);
    ProdUnfold(drives, q, s);
    if m != x {
      ProdRemove(drives, q, s - {m}, x);
      LeastStays(s, x);
      ProdUnfold(drives, q, s - {x});
      assert s - {m} - {x} == s - {x} - {m};
      Swap(Factor(drives, q, m), Factor(drives, q, x), Prod(drives, q, s - {x} - {m}));
    }
  }

  /** A product over disjoint sets of supporters is the product of the products. */
  lemma {:induction false} ProdUnion(drives: map<int, real>, q: map<int, real>, a: set<int>, b: set<int>)
    requires a !! b && a + b <= drives.Keys && a + b <= q.Keys
    ensures Prod(drives, q, a + b) == Prod(drives, q, a) * Prod(drives, q, b)
    decreases |b|
  {
    hide Factor, Prod;
    if b == {} {
      assert a + b == a;
      ProdNone(drives, q);
    } else {
      var x := Pick(b);
      UnionStep(drives, q, a, b, x);
      ProdUnion(drives, q, a, b - {x});
      Swap(Factor(drives, q, x), Prod(drives, q, a), Prod(drives, q, b - {x}));
    }
  }

  lemma ProdNone(drives: map<int, real>, q: map<int, real>)
    ensures Prod(drives, q, {}) == 1.0
  {
  }

  /** One supporter leaves what its drive and its quality together do not reach. */
  lemma ProdOne(drives: map<int, real>, q: map<int, real>, x: int)
    requires x in drives && x in q
    ensures Prod(drives, q, {x}) == 1.0 - drives[x] * q[x]
  {
    ProdRemove(drives, q, {x}, x);
    assert {x} - {x} == {};
  }

  lemma UnionStep(drives: map<int, real>, q: map<int, real>, a: set<int>, b: set<int>, x: int)
    requires a !! b && a + b <= drives.Keys && a + b <= q.Keys && x in b
    ensures Prod(drives, q, b) == Factor(drives, q, x) * Prod(drives, q, b - {x})
    ensures Prod(drives, q, a + b) == Factor(drives, q, x) * Prod(drives, q, a + (b - {x}))
  {
    hide Factor, Prod;
    ProdRemove(drives, q, b, x);
    ProdRemove(drives, q, a + b, x);
    assert a + b - {x} == a + (b - {x});
  }

  lemma {:induction false} ProdSame(drives: map<int, real>, others: map<int, real>, q: map<int, real>, s: set<int>)
    requires s <= drives.Keys && s <= others.Keys && s <= q.Keys
    requires forall x | x in s :: drives[x] == others[x]
    ensures Prod(drives, q, s) == Prod(others, q, s)
    decreases |s|
  {
    if s != {} { ProdSame(drives, others, q, s - {Min(s)}); }
  }

  /** A residual lies in the unit interval, and vanishes exactly when one supporter is certain. */
  lemma {:induction false} ProdRange(drives: map<int, real>, q: map<int, real>, s: set<int>)
    requires s <= drives.Keys && s <= q.Keys
    requires forall x | x in s :: 0.0 <= drives[x] <= 1.0 && 0.0 <= q[x] <= 1.0
    ensures 0.0 <= Prod(drives, q, s) <= 1.0
    ensures Prod(drives, q, s) == 0.0 <==> exists x | x in s :: drives[x] == 1.0 && q[x] == 1.0
    decreases |s|
  {
    hide Factor;
    if s != {} {
      var m := Min(s);
      FactorRange(drives, q, m);
      ProdRange(drives, q, s - {m});
      UnitZero(Factor(drives, q, m), Prod(drives, q, s - {m}));
      assert forall x | x in s :: x == m || x in s - {m};
    }
  }

  lemma UnitZero(a: real, b: real)
    requires 0.0 <= a <= 1.0 && 0.0 <= b <= 1.0
    ensures 0.0 <= a * b <= 1.0 && (a * b == 0.0 <==> a == 0.0 || b == 0.0)
  {
    UnitProduct(a, b);
  }

  lemma FactorRange(drives: map<int, real>, q: map<int, real>, x: int)
    requires x in drives && x in q && 0.0 <= drives[x] <= 1.0 && 0.0 <= q[x] <= 1.0
    ensures 0.0 <= Factor(drives, q, x) <= 1.0
    ensures Factor(drives, q, x) == 0.0 <==> drives[x] == 1.0 && q[x] == 1.0
  {
    UnitProduct(drives[x], q[x]);
  }

  // ----- the reference: full recomputation ----------------------------------------------

  function Frontier(adj: Qualities, admitted: set<int>): set<int> {
    set a, b | a in admitted && a in adj && b in adj[a] && b !in admitted :: b
  }

  predicate Shaped(adj: Qualities, lane: Lane) {
    lane.drives.Keys == lane.exact.Keys == lane.rounds.Keys && lane.drives.Keys <= adj.Keys
  }

  /** The residual of a cell against every admitted neighbour. */
  function Residual(adj: Qualities, lane: Lane, c: int): real
    requires c in adj
  {
    Prod(lane.drives, adj[c], lane.drives.Keys * adj[c].Keys)
  }

  predicate ExactNew(adj: Qualities, lane: Lane, c: int)
    requires Shaped(adj, lane) && c in adj
  {
    exists s :: s in lane.drives.Keys * adj[c].Keys && lane.exact[s] && adj[c][s] == 1.0
  }

  predicate Proposed(adj: Qualities, theta: real, lane: Lane, c: int)
    requires Shaped(adj, lane) && c in adj
  {
    if theta == 1.0 then ExactNew(adj, lane, c) else Residual(adj, lane, c) <= 1.0 - theta
  }

  function Proposals(adj: Qualities, theta: real, lane: Lane): set<int>
    requires Shaped(adj, lane) && GraphOk(adj)
  {
    set c | c in Frontier(adj, lane.drives.Keys) && Proposed(adj, theta, lane, c)
  }

  function NewDrive(adj: Qualities, head: Lane, c: int): real
    requires Shaped(adj, head) && c in adj
  {
    if ExactNew(adj, head, c) then 1.0 else 1.0 - Residual(adj, head, c)
  }

  function Steps(adj: Qualities, head: Lane, order: seq<int>, round: nat): seq<CompletionStep>
    requires forall i | 0 <= i < |order| :: order[i] in adj
  {
    seq(|order|, i requires 0 <= i < |order| => CompletionStep(order[i], round, head.drives.Keys * adj[order[i]].Keys))
  }

  function DrivesAfter(adj: Qualities, head: Lane, p: set<int>): map<int, real>
    requires Shaped(adj, head) && p <= adj.Keys
  {
    map c | c in head.drives.Keys + p :: if c in p then NewDrive(adj, head, c) else head.drives[c]
  }

  function ExactAfter(adj: Qualities, head: Lane, p: set<int>): map<int, bool>
    requires Shaped(adj, head) && p <= adj.Keys
  {
    map c | c in head.drives.Keys + p :: if c in p then ExactNew(adj, head, c) else head.exact[c]
  }

  function RoundsAfter(rounds: map<int, nat>, p: set<int>, round: nat): map<int, nat> {
    map c | c in rounds.Keys + p :: if c in p then round else rounds[c]
  }

  /** Admit a set of cells at once: every drive is frozen from the state at the head of the round. */
  function AdmitSet(adj: Qualities, head: Lane, p: set<int>, order: seq<int>, round: nat): (l: Lane)
    requires Shaped(adj, head) && p <= adj.Keys && forall i | 0 <= i < |order| :: order[i] in p
    ensures Shaped(adj, l) && l.drives.Keys == head.drives.Keys + p
  {
    Lane(DrivesAfter(adj, head, p), ExactAfter(adj, head, p), RoundsAfter(head.rounds, p, round),
         head.steps + Steps(adj, head, order, round))
  }

  lemma ProposalsFree(adj: Qualities, theta: real, lane: Lane)
    requires Shaped(adj, lane) && GraphOk(adj)
    ensures Proposals(adj, theta, lane) !! lane.drives.Keys && Proposals(adj, theta, lane) <= adj.Keys
    ensures Proposals(adj, theta, lane) <= Frontier(adj, lane.drives.Keys)
  {
    hide Proposed;
  }

  function Elements(order: seq<int>): set<int> { set c | c in order }

  lemma SortedElements(p: set<int>)
    ensures Elements(Sorted(p)) == p
    ensures forall i | 0 <= i < |Sorted(p)| :: Sorted(p)[i] in p
  {
    forall c ensures c in Elements(Sorted(p)) <==> c in p {}
  }

  /** One round: every proposal is admitted, in ascending order. */
  function Admit(adj: Qualities, theta: real, lane: Lane, round: nat): (l: Lane)
    requires Shaped(adj, lane) && GraphOk(adj)
    ensures Shaped(adj, l) && l.drives.Keys == lane.drives.Keys + Proposals(adj, theta, lane)
  {
    var p := Proposals(adj, theta, lane);
    ProposalsFree(adj, theta, lane);
    SortedElements(p);
    AdmitSet(adj, lane, p, Sorted(p), round)
  }

  /** Rounds of admission until no cell qualifies. */
  function Complete(adj: Qualities, theta: real, lane: Lane, round: nat): (l: Lane)
    requires Shaped(adj, lane) && GraphOk(adj)
    ensures Shaped(adj, l) && lane.drives.Keys <= l.drives.Keys
    decreases adj.Keys - lane.drives.Keys
  {
    var p := Proposals(adj, theta, lane);
    if p == {} then lane else
      ProposalsFree(adj, theta, lane);
      Complete(adj, theta, Admit(adj, theta, lane, round + 1), round + 1)
  }

  // ----- the incremental loop -----------------------------------------------------------

  /** The residuals the loop carries: the frontier, each with its recomputed residual. */
  ghost predicate Tracked(adj: Qualities, lane: Lane, frontier: set<int>, residual: map<int, real>) {
    && frontier == Frontier(adj, lane.drives.Keys) && residual.Keys == frontier
    && forall c | c in frontier :: c in adj && residual[c] == Residual(adj, lane, c)
  }

  lemma FrontierInside(adj: Qualities, admitted: set<int>)
    requires GraphOk(adj)
    ensures Frontier(adj, admitted) <= adj.Keys && Frontier(adj, admitted) !! admitted
  {
  }

  function Neighbours(adj: Qualities, p: set<int>): set<int> {
    set a, b | a in p && a in adj && b in adj[a] :: b
  }

  /** The old frontier and the neighbours of the newly admitted, less the admitted, is the new frontier. */
  lemma FrontierStep(adj: Qualities, admitted: set<int>, p: set<int>)
    requires GraphOk(adj) && admitted <= adj.Keys && p <= Frontier(adj, admitted)
    ensures Frontier(adj, admitted) + Neighbours(adj, p) - (admitted + p) == Frontier(adj, admitted + p)
  {
  }

  /** Multiplying by the factors of the newly admitted neighbours gives the recomputed residual. */
  lemma ResidualStep(adj: Qualities, theta: real, lane: Lane, round: nat, c: int)
    requires Shaped(adj, lane) && GraphOk(adj) && c in adj
    ensures var p, l := Proposals(adj, theta, lane), Admit(adj, theta, lane, round);
            p <= l.drives.Keys && Residual(adj, l, c) == Residual(adj, lane, c) * Prod(l.drives, adj[c], p * adj[c].Keys)
  {
    hide Admit, Proposals, Prod;
    ProposalsFree(adj, theta, lane);
    Unchanged(adj, theta, lane, round);
    var p, l := Proposals(adj, theta, lane), Admit(adj, theta, lane, round);
    var before, new_ := lane.drives.Keys * adj[c].Keys, p * adj[c].Keys;
    assert l.drives.Keys * adj[c].Keys == before + new_;
    ProdUnion(l.drives, adj[c], before, new_);
    ProdSame(lane.drives, l.drives, adj[c], before);
  }

  lemma Unchanged(adj: Qualities, theta: real, lane: Lane, round: nat)
    requires Shaped(adj, lane) && GraphOk(adj)
    ensures var l := Admit(adj, theta, lane, round);
            forall c | c in lane.drives :: l.drives[c] == lane.drives[c] && l.exact[c] == lane.exact[c] && l.rounds[c] == lane.rounds[c]
  {
    hide NewDrive, ExactNew, Steps, Sorted, Proposals;
    ProposalsFree(adj, theta, lane);
  }

  /** A cell that was not on the frontier had no admitted neighbour. */
  lemma OffFrontier(adj: Qualities, admitted: set<int>, c: int)
    requires GraphOk(adj) && c in adj && c !in admitted && c !in Frontier(adj, admitted)
    ensures admitted * adj[c].Keys == {}
  {
    forall a ensures a !in admitted * adj[c].Keys {
      if a in adj[c] { assert c in adj[a]; }
    }
  }

  function SeedLane(seeds: map<int, SeedValue>): Lane {
    Lane(map c | c in seeds :: seeds[c].drive, map c | c in seeds :: seeds[c].exactOne, map c | c in seeds :: 0, [])
  }

  function PutLink(adj: Qualities, l: Link): Qualities
    requires l.left in adj && l.right in adj && l.left != l.right
  {
    adj[l.left := adj[l.left][l.right := l.quality]][l.right := adj[l.right][l.left := l.quality]]
  }

  predicate Entry(adj: Qualities, a: int, b: int, q: real) { a in adj && b in adj[a] && adj[a][b] == q }

  lemma PutLinkEntry(adj: Qualities, l: Link)
    requires l.left in adj && l.right in adj && l.left != l.right
    ensures PutLink(adj, l).Keys == adj.Keys
    ensures forall a, b, q :: Entry(PutLink(adj, l), a, b, q) <==>
              if (a == l.left && b == l.right) || (a == l.right && b == l.left) then q == l.quality else Entry(adj, a, b, q)
  {
  }

  /** The entries are exactly the links, in both directions. */
  ghost predicate Indexes(adj: Qualities, members: set<int>, links: seq<Link>) {
    && adj.Keys == members
    && forall a, b, q :: Entry(adj, a, b, q) <==> Link(a, b, q) in links || Link(b, a, q) in links
  }

  lemma IndexStep(adj: Qualities, members: set<int>, links: seq<Link>, i: nat)
    requires LinksOk(members, links) && i < |links| && Indexes(adj, members, links[..i])
    ensures Indexes(PutLink(adj, links[i]), members, links[..i + 1])
  {
    hide PutLink, Entry;
    var l, next := links[i], PutLink(adj, links[i]);
    assert links[..i + 1] == links[..i] + [l];
    PutLinkEntry(adj, l);
    forall a, b, q ensures Entry(next, a, b, q) <==> Link(a, b, q) in links[..i + 1] || Link(b, a, q) in links[..i + 1] {
      if (a == l.left && b == l.right) || (a == l.right && b == l.left) { LinkAlone(members, links, i, a, b, q); }
    }
  }

  lemma LinkAlone(members: set<int>, links: seq<Link>, i: nat, a: int, b: int, q: real)
    requires LinksOk(members, links) && i < |links|
    requires (a == links[i].left && b == links[i].right) || (a == links[i].right && b == links[i].left)
    ensures Link(a, b, q) !in links[..i] && Link(b, a, q) !in links[..i]
  {
  }

  lemma IndexedGraph(adj: Qualities, members: set<int>, links: seq<Link>)
    requires LinksOk(members, links) && Indexes(adj, members, links)
    ensures GraphOk(adj)
  {
    forall a, b | a in adj && b in adj[a]
      ensures a != b && b in adj && a in adj[b] && adj[b][a] == adj[a][b] && 0.0 <= adj[a][b] <= 1.0
    {
      assert Entry(adj, a, b, adj[a][b]);
      assert Entry(adj, b, a, adj[a][b]);
    }
  }

  method BuildAdjacency(members: set<int>, links: seq<Link>) returns (adj: Qualities)
    requires LinksOk(members, links)
    ensures GraphOk(adj) && Indexes(adj, members, links)
  {
    adj := map m | m in members :: map[];
    for i := 0 to |links|
      invariant Indexes(adj, members, links[..i])
    {
      var l := links[i];
      IndexStep(adj, members, links, i);
      adj := adj[l.left := adj[l.left][l.right := l.quality]];
      adj := adj[l.right := adj[l.right][l.left := l.quality]];
    }
    assert links[..|links|] == links;
    IndexedGraph(adj, members, links);
  }

  /** The proposals of a round, read off the carried residuals. */
  method Propose(adj: Qualities, theta: real, lane: Lane, frontier: set<int>, residual: map<int, real>) returns (p: set<int>)
    requires Shaped(adj, lane) && GraphOk(adj) && Tracked(adj, lane, frontier, residual)
    ensures p == Proposals(adj, theta, lane)
  {
    hide ExactNew, Residual;
    var exactNew := map c | c in frontier :: ExactNew(adj, lane, c);
    if theta == 1.0 {
      p := set c | c in frontier && exactNew[c];
    } else {
      var limit := 1.0 - theta;
      p := set c | c in frontier && residual[c] <= limit;
    }
  }

  /** The lane after the first `i` proposals of a round. */
  ghost predicate AdmittedUpTo(adj: Qualities, head: Lane, order: seq<int>, i: nat, round: nat, l: Lane)
    requires Shaped(adj, head) && i <= |order|
  {
    && (forall j | 0 <= j < |order| :: order[j] in adj)
    && Elements(order[..i]) <= adj.Keys && (forall j | 0 <= j < i :: order[j] in Elements(order[..i]))
    && l == AdmitSet(adj, head, Elements(order[..i]), order[..i], round)
  }

  method AdmitNext(adj: Qualities, lane: Lane, residual: map<int, real>, order: seq<int>, i: nat, round: nat, l: Lane) returns (next: Lane)
    requires Shaped(adj, lane) && i < |order| && AdmittedUpTo(adj, lane, order, i, round, l)
    requires order[i] in residual && residual[order[i]] == Residual(adj, lane, order[i])
    ensures AdmittedUpTo(adj, lane, order, i + 1, round, next)
  {
    hide ExactNew, Residual, Elements, AdmitSet;
    var c := order[i];
    var exact := ExactNew(adj, lane, c);
    PrefixSet(order, i);
    AdmitStep(adj, lane, Elements(order[..i]), order, i, round);
    next := Lane(l.drives[c := if exact then 1.0 else 1.0 - residual[c]], l.exact[c := exact], l.rounds[c := round],
                 l.steps + [CompletionStep(c, round, lane.drives.Keys * adj[c].Keys)]);
  }

  /** Admit the proposals in ascending order, every drive taken from the head of the round. */
  method AdmitRound(adj: Qualities, theta: real, lane: Lane, residual: map<int, real>, p: set<int>, round: nat) returns (next: Lane)
    requires Shaped(adj, lane) && GraphOk(adj)
    requires Tracked(adj, lane, Frontier(adj, lane.drives.Keys), residual) && p == Proposals(adj, theta, lane)
    ensures next == Admit(adj, theta, lane, round)
  {
    hide Residual, Proposals, Sorted, Frontier, AdmittedUpTo;
    ProposalsFree(adj, theta, lane);
    var order := Sorted(p);
    SortedElements(p);
    next := lane;
    AdmitNone(adj, lane, order, round);
    for i := 0 to |order|
      invariant AdmittedUpTo(adj, lane, order, i, round, next)
    {
      next := AdmitNext(adj, lane, residual, order, i, round, next);
    }
    AdmitEnd(adj, lane, order, round, next);
  }

  lemma AdmitEnd(adj: Qualities, head: Lane, order: seq<int>, round: nat, l: Lane)
    requires Shaped(adj, head) && AdmittedUpTo(adj, head, order, |order|, round, l)
    ensures Elements(order) <= adj.Keys && (forall j | 0 <= j < |order| :: order[j] in Elements(order))
    ensures l == AdmitSet(adj, head, Elements(order), order, round)
  {
    assert order[..|order|] == order;
  }

  lemma AdmitNone(adj: Qualities, lane: Lane, order: seq<int>, round: nat)
    requires Shaped(adj, lane) && forall j | 0 <= j < |order| :: order[j] in adj
    ensures AdmittedUpTo(adj, lane, order, 0, round, lane)
  {
    assert Elements(order[..0]) == {};
    assert lane.steps + Steps(adj, lane, order[..0], round) == lane.steps;
  }

  lemma DrivesStep(adj: Qualities, head: Lane, p: set<int>, c: int)
    requires Shaped(adj, head) && c in adj && p <= adj.Keys
    ensures DrivesAfter(adj, head, p + {c}) == DrivesAfter(adj, head, p)[c := NewDrive(adj, head, c)]
  {
    hide NewDrive;
  }

  lemma FlagsStep(adj: Qualities, head: Lane, p: set<int>, c: int, round: nat)
    requires Shaped(adj, head) && c in adj && p <= adj.Keys
    ensures ExactAfter(adj, head, p + {c}) == ExactAfter(adj, head, p)[c := ExactNew(adj, head, c)]
    ensures RoundsAfter(head.rounds, p + {c}, round) == RoundsAfter(head.rounds, p, round)[c := round]
  {
    hide ExactNew;
  }

  lemma StepsStep(adj: Qualities, head: Lane, order: seq<int>, i: nat, round: nat)
    requires i < |order| && forall j | 0 <= j < |order| :: order[j] in adj
    ensures Steps(adj, head, order[..i + 1], round)
            == Steps(adj, head, order[..i], round) + [CompletionStep(order[i], round, head.drives.Keys * adj[order[i]].Keys)]
  {
  }

  lemma AdmitStep(adj: Qualities, head: Lane, p: set<int>, order: seq<int>, i: nat, round: nat)
    requires Shaped(adj, head) && i < |order| && p <= adj.Keys
    requires forall j | 0 <= j < |order| :: order[j] in adj
    requires forall j | 0 <= j < i :: order[j] in p
    ensures var c, l := order[i], AdmitSet(adj, head, p, order[..i], round);
            AdmitSet(adj, head, p + {c}, order[..i + 1], round)
            == Lane(l.drives[c := NewDrive(adj, head, c)], l.exact[c := ExactNew(adj, head, c)], l.rounds[c := round],
                    l.steps + [CompletionStep(c, round, head.drives.Keys * adj[c].Keys)])
  {
    hide NewDrive, ExactNew, DrivesAfter, ExactAfter, RoundsAfter, Steps;
    DrivesStep(adj, head, p, order[i]);
    FlagsStep(adj, head, p, order[i], round);
    StepsStep(adj, head, order, i, round);
  }

  lemma PrefixSet(order: seq<int>, i: nat)
    requires i < |order|
    ensures Elements(order[..i + 1]) == Elements(order[..i]) + {order[i]}
    ensures forall j | 0 <= j < i + 1 :: order[j] in Elements(order[..i + 1])
  {
    assert order[..i + 1] == order[..i] + [order[i]];
  }

  /** The residuals of the next round, for the first `i` cells of its frontier. */
  ghost predicate RescaledUpTo(adj: Qualities, next: Lane, order: seq<int>, i: nat, values: map<int, real>)
    requires i <= |order|
  {
    values.Keys == Elements(order[..i]) && forall c | c in values :: c in adj && values[c] == Residual(adj, next, c)
  }

  /** Carry one residual over: an old frontier cell by multiplication, a new one from scratch. */
  method RescaleNext(adj: Qualities, theta: real, lane: Lane, next: Lane, residual: map<int, real>,
                     p: set<int>, round: nat, order: seq<int>, i: nat, values: map<int, real>)
    returns (more: map<int, real>)
    requires Shaped(adj, lane) && GraphOk(adj) && Tracked(adj, lane, residual.Keys, residual)
    requires p == Proposals(adj, theta, lane) && next == Admit(adj, theta, lane, round)
    requires i < |order| && order[i] in adj && RescaledUpTo(adj, next, order, i, values)
    ensures RescaledUpTo(adj, next, order, i + 1, more)
  {
    hide Admit, Proposals, Prod, Residual, Frontier, Elements;
    var c := order[i];
    ProposalsFree(adj, theta, lane);
    ResidualStep(adj, theta, lane, round, c);
    PrefixSet(order, i);
    if c in residual {
      more := values[c := residual[c] * Prod(next.drives, adj[c], p * adj[c].Keys)];
    } else {
      more := values[c := Residual(adj, next, c)];
    }
  }

  /** The frontier and the residuals at the head of the next round. */
  method Rescale(adj: Qualities, theta: real, lane: Lane, next: Lane, frontier: set<int>, residual: map<int, real>, p: set<int>, round: nat)
    returns (residual': map<int, real>, frontier': set<int>)
    requires Shaped(adj, lane) && GraphOk(adj) && Tracked(adj, lane, frontier, residual)
    requires p == Proposals(adj, theta, lane) && next == Admit(adj, theta, lane, round)
    ensures Tracked(adj, next, frontier', residual')
  {
    hide Proposals, Residual, Sorted, Frontier, Elements, Neighbours, AdmitSet, Shaped, GraphOk, Admit, RescaledUpTo;
    assert Shaped(adj, next);
    frontier' := frontier + Neighbours(adj, p) - next.drives.Keys;
    NextFrontier(adj, theta, lane, next, frontier, p, round);
    var order := Sorted(frontier');
    SortedElements(frontier');
    residual' := map[];
    RescaledNone(adj, next, order);
    for i := 0 to |order|
      invariant RescaledUpTo(adj, next, order, i, residual')
    {
      residual' := RescaleNext(adj, theta, lane, next, residual, p, round, order, i, residual');
    }
    RescaledAll(adj, next, order, residual');
  }

  lemma RescaledAll(adj: Qualities, next: Lane, order: seq<int>, values: map<int, real>)
    requires RescaledUpTo(adj, next, order, |order|, values)
    ensures values.Keys == Elements(order) && forall c | c in values :: c in adj && values[c] == Residual(adj, next, c)
  {
    assert order[..|order|] == order;
  }

  lemma RescaledNone(adj: Qualities, next: Lane, order: seq<int>)
    ensures RescaledUpTo(adj, next, order, 0, map[])
  {
    assert Elements(order[..0]) == {};
  }

  lemma NextFrontier(adj: Qualities, theta: real, lane: Lane, next: Lane, frontier: set<int>, p: set<int>, round: nat)
    requires Shaped(adj, lane) && GraphOk(adj) && frontier == Frontier(adj, lane.drives.Keys)
    requires p == Proposals(adj, theta, lane) && next == Admit(adj, theta, lane, round)
    ensures frontier + Neighbours(adj, p) - next.drives.Keys == Frontier(adj, next.drives.Keys)
    ensures Frontier(adj, next.drives.Keys) <= adj.Keys
  {
    hide Proposals, Residual, Frontier, Neighbours, AdmitSet;
    ProposalsFree(adj, theta, lane);
    FrontierStep(adj, lane.drives.Keys, p);
    FrontierInside(adj, next.drives.Keys);
  }

  lemma NothingProposed(adj: Qualities, theta: real, lane: Lane)
    requires Shaped(adj, lane) && GraphOk(adj) && Frontier(adj, lane.drives.Keys) == {}
    ensures Proposals(adj, theta, lane) == {}
  {
  }

  /** The rounds of the incremental loop compute exactly what full recomputation computes. */
  method RunRounds(adj: Qualities, seeds: map<int, SeedValue>, theta: real) returns (lane: Lane)
    requires GraphOk(adj) && seeds.Keys <= adj.Keys
    ensures lane == Complete(adj, theta, SeedLane(seeds), 0)
  {
    hide Admit, Proposals, Residual, Frontier;
    lane := SeedLane(seeds);
    ghost var whole := Complete(adj, theta, lane, 0);
    var frontier := Frontier(adj, lane.drives.Keys);
    FrontierInside(adj, lane.drives.Keys);
    var residual := map c | c in frontier :: Residual(adj, lane, c);
    var round: nat := 0;
    while frontier != {}
      invariant Shaped(adj, lane) && Tracked(adj, lane, frontier, residual)
      invariant whole == Complete(adj, theta, lane, round)
      decreases adj.Keys - lane.drives.Keys
    {
      var proposals := Propose(adj, theta, lane, frontier, residual);
      if proposals == {} { return; }
      round := round + 1;
      var next := AdmitRound(adj, theta, lane, residual, proposals, round);
      ProposalsFree(adj, theta, lane);
      residual, frontier := Rescale(adj, theta, lane, next, frontier, residual, proposals, round);
      lane := next;
    }
    assert Proposals(adj, theta, lane) == {} by { NothingProposed(adj, theta, lane); }
  }

  datatype Reconstructed = Pattern(lane: Lane, adjacency: Qualities) | Invalid

  /** Completion of a seed over the links of one assembly. */
  method ReconstructPattern(members: set<int>, links: seq<Link>, seeds: map<int, SeedValue>, theta: real) returns (r: Reconstructed)
    requires LinksOk(members, links)
    ensures r.Invalid? <==> !(seeds.Keys <= members) || theta <= 0.0 || theta > 1.0
    ensures r.Pattern? ==> GraphOk(r.adjacency) && Indexes(r.adjacency, members, links)
    ensures r.Pattern? ==> r.lane == Complete(r.adjacency, theta, SeedLane(seeds), 0)
  {
    if !(seeds.Keys <= members) || theta <= 0.0 || theta > 1.0 {
      return Invalid;
    }
    var adj := BuildAdjacency(members, links);
    var lane := RunRounds(adj, seeds, theta);
    r := Pattern(lane, adj);
  }
}
