/**
 Assembly MAINTAIN: which assemblies a tick must look at again, the fixed point each of
 them shrinks to, and the removal of exact duplicates among the results.
 */
module Maintenance {
  import opened FiniteSets
  import opened Options
  import opened CoreModel
  import opened Connectivity
  import opened NetworkState
  import opened Learning
  import opened AssemblyModel

  // ----- changed support ----------------------------------------------------------------

  predicate LocalChanged(out: Adjacency, v: View, cfg: Config, p: Pair)
    requires cfg.Valid()
  {
    Reciprocal(Plain(out), cfg, p.lo, p.hi, Local) != Reciprocal(v, cfg, p.lo, p.hi, Local)
  }

  predicate SupportChanged(out: Adjacency, v: View, cfg: Config, p: Pair)
    requires cfg.Valid()
  {
    LocalChanged(out, v, cfg, p)
    || Reciprocal(Plain(out), cfg, p.lo, p.hi, Associative) != Reciprocal(v, cfg, p.lo, p.hi, Associative)
  }

  function LocalDelta(out: Adjacency, v: View, cfg: Config, touched: set<Pair>): set<Pair>
    requires cfg.Valid()
  {
    set p | p in touched && LocalChanged(out, v, cfg, p)
  }

  function SupportDelta(out: Adjacency, v: View, cfg: Config, touched: set<Pair>): set<Pair>
    requires cfg.Valid()
  {
    set p | p in touched && SupportChanged(out, v, cfg, p)
  }

  lemma DeltaStep(out: Adjacency, v: View, cfg: Config, done: set<Pair>, p: Pair)
    requires cfg.Valid()
    ensures LocalDelta(out, v, cfg, done + {p}) == LocalDelta(out, v, cfg, done) + (if LocalChanged(out, v, cfg, p) then {p} else {})
    ensures SupportDelta(out, v, cfg, done + {p}) == SupportDelta(out, v, cfg, done) + (if SupportChanged(out, v, cfg, p) then {p} else {})
  {
    hide LocalChanged, SupportChanged;
  }

  /** The tick changes the reciprocal quality of a pair in one scope. */
  ghost predicate ChangedIn(out: Adjacency, v: View, cfg: Config, p: Pair, scope: Scope)
    requires cfg.Valid()
  {
    Reciprocal(Plain(out), cfg, p.lo, p.hi, scope) != Reciprocal(v, cfg, p.lo, p.hi, scope)
  }

  lemma DeltasAre(out: Adjacency, v: View, cfg: Config, touched: set<Pair>)
    requires cfg.Valid()
    ensures forall p :: p in LocalDelta(out, v, cfg, touched) <==> p in touched && ChangedIn(out, v, cfg, p, Local)
    ensures forall p :: p in SupportDelta(out, v, cfg, touched) <==>
              p in touched && (ChangedIn(out, v, cfg, p, Local) || ChangedIn(out, v, cfg, p, Associative))
  {
    hide Reciprocal;
  }

  /** The touched pairs whose reciprocal quality the tick changes. */
  method ChangedSupport(out: Adjacency, v: View, cfg: Config, touched: set<Pair>) returns (local: set<Pair>, support: set<Pair>)
    requires cfg.Valid()
    ensures local == LocalDelta(out, v, cfg, touched)
    ensures support == SupportDelta(out, v, cfg, touched)
    ensures forall p :: p in local <==> p in touched && ChangedIn(out, v, cfg, p, Local)
    ensures forall p :: p in support <==> p in touched && (ChangedIn(out, v, cfg, p, Local) || ChangedIn(out, v, cfg, p, Associative))
  {
    hide LocalChanged, SupportChanged;
    local, support := {}, {};
    var todo := touched;
    assert touched - todo == {};
    while todo != {}
      invariant todo <= touched
      invariant local == LocalDelta(out, v, cfg, touched - todo)
      invariant support == SupportDelta(out, v, cfg, touched - todo)
      decreases |todo|
    {
      var p :| p in todo;
      assert touched - (todo - {p}) == (touched - todo) + {p};
      DeltaStep(out, v, cfg, touched - todo, p);
      if LocalChanged(out, v, cfg, p) { local := local + {p}; }
      if SupportChanged(out, v, cfg, p) { support := support + {p}; }
      todo := todo - {p};
    }
    assert touched - todo == touched;
    DeltasAre(out, v, cfg, touched);
  }

  /** Every owner of an endpoint of a changed pair. */
  function Workset(memberships: map<int, set<int>>, support: set<Pair>): set<int> {
    set p, i | p in support && i in Owners(memberships, p.lo) + Owners(memberships, p.hi) :: i
  }

  /** The touched pairs cover every edge the tick changes. */
  ghost predicate Covers(touched: set<Pair>, v: View) {
    forall k | k in v.upserts || k in v.deletes :: PairOf(k) in touched
  }

  lemma ReciprocalSymmetric(v: View, cfg: Config, a: int, b: int, scope: Scope)
    requires cfg.Valid()
    ensures Reciprocal(v, cfg, a, b, scope) == Reciprocal(v, cfg, b, a, scope)
  {
  }

  lemma UntouchedPair(out: Adjacency, v: View, cfg: Config, touched: set<Pair>, a: int, b: int)
    requires cfg.Valid() && v.out == out && Covers(touched, v)
    requires PairOf(EdgeKey(a, b, Local)) !in touched
    ensures Reciprocal(Plain(out), cfg, a, b, Local) == Reciprocal(v, cfg, a, b, Local)
  {
    var f, r := EdgeKey(a, b, Local), EdgeKey(b, a, Local);
    assert PairOf(f) == PairOf(r);
    assert Plain(out).Edge(f) == v.Edge(f) && Plain(out).Edge(r) == v.Edge(r);
  }

  /** An assembly outside the workset sees none of its internal links change. */
  lemma OutsideWorkset(n: Net, v: View, cfg: Config, touched: set<Pair>, i: int, a: int, b: int)
    requires cfg.Valid() && v.out == n.outgoing && Covers(touched, v)
    requires MembersIndexed(n.memberships, n.assemblies)
    requires i in n.assemblies && a in n.assemblies[i].members && b in n.assemblies[i].members
    requires i !in Workset(n.memberships, SupportDelta(n.outgoing, v, cfg, touched))
    ensures Linked(v, cfg, a, b) <==> Linked(Plain(n.outgoing), cfg, a, b)
  {
    var p := PairOf(EdgeKey(a, b, Local));
    ReciprocalSymmetric(v, cfg, a, b, Local);
    ReciprocalSymmetric(Plain(n.outgoing), cfg, a, b, Local);
    if p !in touched {
      UntouchedPair(n.outgoing, v, cfg, touched, a, b);
    } else {
      assert i in Owners(n.memberships, a) && i in Owners(n.memberships, b);
      InWorkset(n.memberships, SupportDelta(n.outgoing, v, cfg, touched), p, i);
    }
  }

  lemma InWorkset(memberships: map<int, set<int>>, support: set<Pair>, p: Pair, i: int)
    ensures p in support && i in Owners(memberships, p.lo) ==> i in Workset(memberships, support)
  {
    if p in support && i in Owners(memberships, p.lo) {
      assert i in Owners(memberships, p.lo) + Owners(memberships, p.hi);
    }
  }

  // ----- member metrics -----------------------------------------------------------------

  function LinkedIn(v: View, cfg: Config, c: int, members: set<int>): set<int>
    requires cfg.Valid()
  {
    set m | m in members && Linked(v, cfg, c, m)
  }

  function Density(v: View, cfg: Config, c: int, members: set<int>): real
    requires cfg.Valid() && members != {}
  {
    |LinkedIn(v, cfg, c, members)| as real / |members| as real
  }

  function SumLocal(v: View, cfg: Config, c: int, ids: seq<int>): real
    requires cfg.Valid()
  {
    if ids == [] then 0.0 else Reciprocal(v, cfg, c, ids[0], Local) + SumLocal(v, cfg, c, ids[1..])
  }

  function SumSupport(v: View, cfg: Config, c: int, ids: seq<int>): real
    requires cfg.Valid()
  {
    if ids == [] then 0.0 else
      1.0 - (1.0 - Reciprocal(v, cfg, c, ids[0], Local)) * (1.0 - Reciprocal(v, cfg, c, ids[0], Associative))
      + SumSupport(v, cfg, c, ids[1..])
  }

  function MeanReciprocal(v: View, cfg: Config, c: int, members: set<int>): real
    requires cfg.Valid() && members != {}
  {
    SumLocal(v, cfg, c, Sorted(members)) / |members| as real
  }

  /** Zero where the sums and the guard cancel out; with lawful qualities they never do. */
  function Specificity(v: View, cfg: Config, c: int, members: set<int>): real
    requires cfg.Valid()
  {
    var below := SumSupport(v, cfg, c, Sorted(cfg.topology.near(c))) + cfg.epsilon;
    if below == 0.0 then 0.0 else SumLocal(v, cfg, c, Sorted(members)) / below
  }

  lemma DenseHasLink(v: View, cfg: Config, c: int, members: set<int>)
    requires cfg.Valid() && members != {} && Density(v, cfg, c, members) > 0.0
    ensures exists m :: m in members && Linked(v, cfg, c, m)
  {
    var linked := LinkedIn(v, cfg, c, members);
    assert 0.0 / |members| as real == 0.0;
    assert |linked| != 0;
    var m := Pick(linked);
    assert m in members && Linked(v, cfg, c, m);
  }

  // ----- the fixed point ----------------------------------------------------------------

  function Failing(v: View, cfg: Config, members: set<int>): set<int>
    requires cfg.Valid() && members != {}
  {
    set m | m in members && (Density(v, cfg, m, members) < cfg.rhoKeep || Specificity(v, cfg, m, members) < cfg.sigmaKeep)
  }

  /** What repeated removal of all failing members leaves. */
  function Kept(v: View, cfg: Config, members: set<int>): (r: set<int>)
    requires cfg.Valid()
    ensures r <= members
    ensures r != {} ==> Failing(v, cfg, r) == {}
    decreases |members|
  {
    if members == {} || Failing(v, cfg, members) == {} then members
    else
      SubsetCardinality(members - Failing(v, cfg, members), members);
      assert |members - Failing(v, cfg, members)| < |members|;
      Kept(v, cfg, members - Failing(v, cfg, members))
  }

  ghost function Maintained(v: View, cfg: Config, a: Assembly): Option<Assembly>
    requires cfg.Valid()
  {
    var kept := Kept(v, cfg, a.members);
    if |kept| < cfg.kMin || !Connected(v, cfg, kept) then None else Some(Assembly(a.id, a.territory, kept))
  }

  method Maintain(v: View, cfg: Config, a: Assembly) returns (r: Option<Assembly>)
    requires cfg.Valid()
    ensures r == Maintained(v, cfg, a)
  {
    var members := a.members;
    while members != {} && Failing(v, cfg, members) != {}
      invariant Kept(v, cfg, members) == Kept(v, cfg, a.members)
      decreases members
    {
      ghost var f := Pick(Failing(v, cfg, members));
      members := members - Failing(v, cfg, members);
    }
    if |members| < cfg.kMin {
      return None;
    }
    var linked := SearchConnected(v, cfg, members);
    if !linked {
      return None;
    }
    return Some(Assembly(a.id, a.territory, members));
  }

  lemma ShapeOfPart(cfg: Config, cells: map<int, Cell>, a: Assembly, part: set<int>)
    requires cfg.Valid() && AssemblyShape(cfg, cells, a) && part <= a.members && |part| >= cfg.kMin
    ensures AssemblyShape(cfg, cells, Assembly(a.id, a.territory, part)) && part * a.members != {}
  {
    SubsetCardinality(part, a.members);
    assert part * a.members == part;
  }

  /** A maintained assembly is sound and a part of the old one. */
  lemma MaintainedSound(n: Net, cfg: Config, v: View, a: Assembly)
    requires cfg.Valid() && AssemblyShape(cfg, n.cells, a) && Maintained(v, cfg, a).Some?
    ensures var b := Maintained(v, cfg, a).value;
            && Sound(n, cfg, v, b) && b.id == a.id && b.territory == a.territory
            && b.members <= a.members && b.members * a.members != {}
  {
    hide Connected;
    ShapeOfPart(cfg, n.cells, a, Kept(v, cfg, a.members));
  }

  // ----- maintenance of the workset -----------------------------------------------------

  ghost predicate MaintainedAll(n: Net, cfg: Config, v: View, ids: set<int>,
                                outcomes: map<int, Assembly>, current: map<int, Assembly>, deletes: set<int>)
    requires cfg.Valid()
  {
    && (forall i :: i in outcomes <==> i in ids && i in n.assemblies && Maintained(v, cfg, n.assemblies[i]).Some?)
    && (forall i | i in outcomes :: outcomes[i] == Maintained(v, cfg, n.assemblies[i]).value)
    && deletes == (set i | i in ids && i in n.assemblies && Maintained(v, cfg, n.assemblies[i]).None?)
    && current == map i | i in outcomes && outcomes[i] != n.assemblies[i] :: outcomes[i]
  }

  method MaintainAll(n: Net, cfg: Config, v: View, ids: set<int>)
      returns (outcomes: map<int, Assembly>, current: map<int, Assembly>, deletes: set<int>)
    requires cfg.Valid()
    ensures MaintainedAll(n, cfg, v, ids, outcomes, current, deletes)
  {
    hide Maintained;
    outcomes, current, deletes := map[], map[], {};
    var todo := ids;
    assert ids - todo == {};
    while todo != {}
      invariant todo <= ids
      invariant MaintainedAll(n, cfg, v, ids - todo, outcomes, current, deletes)
      decreases |todo|
    {
      var i := Min(todo);
      assert ids - (todo - {i}) == (ids - todo) + {i};
      if i in n.assemblies {
        var r := Maintain(v, cfg, n.assemblies[i]);
        MaintainStep(n, cfg, v, ids - todo, outcomes, current, deletes, i, r);
        if r.None? {
          deletes := deletes + {i};
        } else {
          outcomes := outcomes[i := r.value];
          if r.value != n.assemblies[i] {
            current := current[i := r.value];
          }
        }
      } else {
        assert MaintainedAll(n, cfg, v, (ids - todo) + {i}, outcomes, current, deletes);
      }
      todo := todo - {i};
    }
    assert ids - todo == ids;
  }

  lemma MaintainStep(n: Net, cfg: Config, v: View, done: set<int>, outcomes: map<int, Assembly>,
                     current: map<int, Assembly>, deletes: set<int>, i: int, r: Option<Assembly>)
    requires cfg.Valid() && MaintainedAll(n, cfg, v, done, outcomes, current, deletes)
    requires i in n.assemblies && i !in done && r == Maintained(v, cfg, n.assemblies[i])
    ensures r.None? ==> MaintainedAll(n, cfg, v, done + {i}, outcomes, current, deletes + {i})
    ensures r.Some? && r.value != n.assemblies[i] ==>
              MaintainedAll(n, cfg, v, done + {i}, outcomes[i := r.value], current[i := r.value], deletes)
    ensures r.Some? && r.value == n.assemblies[i] ==>
              MaintainedAll(n, cfg, v, done + {i}, outcomes[i := r.value], current, deletes)
  {
    hide Maintained;
  }

  /** The stored assemblies once the workset is maintained. */
  ghost function MaintainedLive(n: Net, cfg: Config, v: View, ids: set<int>): map<int, Assembly>
    requires cfg.Valid()
  {
    map i | i in n.assemblies && (i in ids ==> Maintained(v, cfg, n.assemblies[i]).Some?) ::
      if i in ids then Maintained(v, cfg, n.assemblies[i]).value else n.assemblies[i]
  }

  /** The overlay of deletes and changed copies shows exactly those. */
  lemma OverlayShowsMaintained(n: Net, cfg: Config, v: View, ids: set<int>,
                               outcomes: map<int, Assembly>, current: map<int, Assembly>, deletes: set<int>)
    requires cfg.Valid() && MaintainedAll(n, cfg, v, ids, outcomes, current, deletes)
    ensures Live(n, current, deletes) == MaintainedLive(n, cfg, v, ids)
  {
    hide Maintained;
    forall i | i in current ensures i in n.assemblies && i !in deletes { assert i in outcomes; }
    var live, expected := Live(n, current, deletes), MaintainedLive(n, cfg, v, ids);
    forall i ensures i in live <==> i in expected {}
    forall i | i in live ensures live[i] == expected[i] {}
  }

  /** After maintenance every live assembly is sound, bounded and overlaps its old self. */
  lemma MaintenanceSound(n: Net, cfg: Config, v: View, touched: set<Pair>, ids: set<int>,
                         outcomes: map<int, Assembly>, current: map<int, Assembly>, deletes: set<int>)
    requires cfg.Valid() && IndexInv(n) && StructInv(n, cfg) && ConnectedInv(n, cfg)
    requires v.out == n.outgoing && Covers(touched, v)
    requires ids == Workset(n.memberships, SupportDelta(n.outgoing, v, cfg, touched))
    requires MaintainedAll(n, cfg, v, ids, outcomes, current, deletes)
    ensures var live := Live(n, current, deletes);
            && SoundLive(n, cfg, v, live) && BoundedLive(cfg, live) && Overlapping(n, live)
            && live.Keys == n.assemblies.Keys - deletes
            && (forall i | i in live :: live[i].members <= n.assemblies[i].members && live[i].territory == n.assemblies[i].territory)
            && (forall i | i in live && i in ids :: i in outcomes && live[i] == outcomes[i])
            && (forall i | i in outcomes :: i in live)
            && (forall i | i in live && i !in ids :: live[i] == n.assemblies[i])
  {
    hide Maintained, Sound, AssemblyShape, Connected, SupportDelta, Workset;
    var live := Live(n, current, deletes);
    forall i | i in current ensures i in n.assemblies && i !in deletes { assert i in outcomes; }
    assert live.Keys == n.assemblies.Keys - deletes;
    forall i | i in live
      ensures live[i].id == i && Sound(n, cfg, v, live[i])
      ensures live[i].members <= n.assemblies[i].members && live[i].members * n.assemblies[i].members != {}
      ensures live[i].territory == n.assemblies[i].territory
    {
      if i in ids {
        assert live[i] == outcomes[i];
        MaintainedSound(n, cfg, v, n.assemblies[i]);
      } else {
        UntouchedSound(n, cfg, v, touched, i);
      }
    }
    forall m ensures |LiveOwners(live, m)| <= cfg.mMax {
      forall i | i in LiveOwners(live, m) ensures i in Owners(n.memberships, m) {
        assert m in n.assemblies[i].members;
      }
      SubsetCardinality(LiveOwners(live, m), Owners(n.memberships, m));
    }
  }

  lemma UntouchedSound(n: Net, cfg: Config, v: View, touched: set<Pair>, i: int)
    requires cfg.Valid() && IndexInv(n) && StructInv(n, cfg) && ConnectedInv(n, cfg)
    requires v.out == n.outgoing && Covers(touched, v)
    requires i in n.assemblies && i !in Workset(n.memberships, SupportDelta(n.outgoing, v, cfg, touched))
    ensures Sound(n, cfg, v, n.assemblies[i]) && n.assemblies[i].members * n.assemblies[i].members != {}
  {
    var members := n.assemblies[i].members;
    assert members * members == members;
    forall a, b | a in members && b in members && Linked(Plain(n.outgoing), cfg, a, b) ensures Linked(v, cfg, a, b) {
      OutsideWorkset(n, v, cfg, touched, i, a, b);
    }
    ConnectedMonotone(Plain(n.outgoing), v, cfg, members);
  }

  // ----- exact-set deduplication --------------------------------------------------------

  /** Live assemblies whose member set is one of `sets` and belongs to a smaller id too. */
  ghost function LosersIn(live: map<int, Assembly>, sets: set<set<int>>): set<int> {
    set i | i in live && live[i].members in sets && exists j :: j in live && j < i && live[j].members == live[i].members
  }

  /** The live ids whose member set a smaller live id has too. */
  ghost function Losers(live: map<int, Assembly>): set<int> {
    set i | i in live && exists j :: j in live && j < i && live[j].members == live[i].members
  }

  /** Of the assemblies with one member set, the one with the least id. */
  function Survivors(live: map<int, Assembly>): map<int, Assembly> {
    map i | i in live && (forall j | j in live && j < i :: live[j].members != live[i].members) :: live[i]
  }

  lemma LosersGone(live: map<int, Assembly>)
    ensures live - Losers(live) == Survivors(live)
  {
    forall i | i in live
      ensures i in Losers(live) <==> !(forall j | j in live && j < i :: live[j].members != live[i].members)
    {
    }
    assert (live - Losers(live)).Keys == Survivors(live).Keys;
  }

  ghost predicate DedupReady(n: Net, ids: set<int>, outcomes: map<int, Assembly>, live: map<int, Assembly>) {
    && SetsIndexed(n.byMembers, n.assemblies)
    && live.Keys <= n.assemblies.Keys
    && (forall i | i in live && i in ids :: i in outcomes && live[i] == outcomes[i])
    && (forall i | i in outcomes :: i in live && i in ids)
    && (forall i | i in live && i !in ids :: live[i] == n.assemblies[i])
    && (forall i | i in n.assemblies && i !in ids :: i in live)
  }

  function Group(n: Net, ids: set<int>, outcomes: map<int, Assembly>, members: set<int>): set<int> {
    (set i | i in outcomes && outcomes[i].members == members)
    + (if members in n.byMembers && n.byMembers[members] !in ids then {n.byMembers[members]} else {})
  }

  /** The collision group of a member set holds all live assemblies with that set. */
  lemma GroupIsExact(n: Net, ids: set<int>, outcomes: map<int, Assembly>, live: map<int, Assembly>, members: set<int>)
    requires DedupReady(n, ids, outcomes, live)
    ensures forall i :: i in Group(n, ids, outcomes, members) <==> i in live && live[i].members == members
  {
  }

  method Deduplicate(n: Net, ids: set<int>, outcomes: map<int, Assembly>, current0: map<int, Assembly>, deletes0: set<int>)
      returns (current: map<int, Assembly>, deletes: set<int>)
    requires DedupReady(n, ids, outcomes, Live(n, current0, deletes0))
    ensures current == current0 - Losers(Live(n, current0, deletes0))
    ensures deletes == deletes0 + Losers(Live(n, current0, deletes0))
  {
    hide Group, LosersIn, Losers, Live;
    ghost var live := Live(n, current0, deletes0);
    current, deletes := current0, deletes0;
    var sets := set i | i in outcomes :: outcomes[i].members;
    var todo := sets;
    assert sets - todo == {};
    NoLosers(live);
    assert current0 - {} == current0;
    while todo != {}
      invariant todo <= sets
      invariant current == current0 - LosersIn(live, sets - todo) && deletes == deletes0 + LosersIn(live, sets - todo)
      decreases |todo|
    {
      var members :| members in todo;
      var group := Group(n, ids, outcomes, members);
      GroupIsExact(n, ids, outcomes, live, members);
      var k :| k in outcomes && outcomes[k].members == members;
      assert k in group;
      var repeated := group - {Min(group)};
      DedupStep(current0, live, sets, todo, members, group);
      deletes := deletes + repeated;
      current := current - repeated;
      todo := todo - {members};
    }
    assert sets - todo == sets;
    AllLosers(n, ids, outcomes, live);
  }

  lemma NoLosers(live: map<int, Assembly>)
    ensures LosersIn(live, {}) == {}
  {
  }

  lemma DedupStep(current0: map<int, Assembly>, live: map<int, Assembly>, sets: set<set<int>>, todo: set<set<int>>,
                  members: set<int>, group: set<int>)
    requires members in todo && todo <= sets && group != {}
    requires forall i :: i in group <==> i in live && live[i].members == members
    ensures LosersIn(live, sets - (todo - {members})) == LosersIn(live, sets - todo) + (group - {Min(group)})
    ensures current0 - LosersIn(live, sets - (todo - {members})) == (current0 - LosersIn(live, sets - todo)) - (group - {Min(group)})
  {
    assert sets - (todo - {members}) == (sets - todo) + {members};
    LosersStep(live, sets - todo, members, group);
  }

  lemma LosersStep(live: map<int, Assembly>, done: set<set<int>>, members: set<int>, group: set<int>)
    requires members !in done && group != {}
    requires forall i :: i in group <==> i in live && live[i].members == members
    ensures LosersIn(live, done + {members}) == LosersIn(live, done) + (group - {Min(group)})
  {
    forall i | i in group - {Min(group)} ensures i in LosersIn(live, done + {members}) {
      assert Min(group) in live && Min(group) < i;
    }
  }

  /** Two live assemblies that share a set include a maintained one. */
  lemma AllLosers(n: Net, ids: set<int>, outcomes: map<int, Assembly>, live: map<int, Assembly>)
    requires DedupReady(n, ids, outcomes, live)
    ensures LosersIn(live, set k | k in outcomes :: outcomes[k].members) == Losers(live)
  {
    var sets := set k | k in outcomes :: outcomes[k].members;
    forall i, j | i in live && j in live && j < i && live[j].members == live[i].members ensures live[i].members in sets {
      assert i in outcomes || j in outcomes;
    }
  }
}
