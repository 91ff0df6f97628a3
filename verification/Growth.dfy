/**
 Assembly GROW: candidates of the changed local pairs, ranked on metrics frozen after
 maintenance, admitted one by one against lazy membership counts and set owners.
 */
module Growth {
  import opened FiniteSets
  import opened Ordering
  import opened Options
  import opened CoreModel
  import opened Connectivity
  import opened Components
  import opened NetworkState
  import opened Learning
  import opened AssemblyModel
  import opened Maintenance

  /** The lazy overlay: only touched assemblies are copied, counted or indexed. */
  datatype Stage = Stage(current: map<int, Assembly>, deletes: set<int>, counts: map<int, int>, owners: map<set<int>, int>)

  function LiveOf(n: Net, st: Stage): map<int, Assembly> { Live(n, st.current, st.deletes) }

  /** Cached counts are the true ones; an uncached cell has gained no owner since the snapshot. */
  ghost predicate CountsCached(n: Net, live: map<int, Assembly>, counts: map<int, int>) {
    && (forall m | m in counts :: counts[m] == |LiveOwners(live, m)|)
    && (forall m {:trigger LiveOwners(live, m)} | m !in counts :: LiveOwners(live, m) <= Owners(n.memberships, m))
  }

  /** The set-ownership map inverts the copied assemblies. */
  ghost predicate OwnersCached(current: map<int, Assembly>, owners: map<set<int>, int>) {
    && (forall s | s in owners :: owners[s] in current && current[owners[s]].members == s)
    && (forall i | i in current :: current[i].members in owners && owners[current[i].members] == i)
  }

  ghost predicate StageOk(n: Net, cfg: Config, v: View, st: Stage)
    requires cfg.Valid()
  {
    && st.current.Keys <= n.assemblies.Keys && st.current.Keys !! st.deletes
    && LiveOk(n, cfg, v, LiveOf(n, st))
    && Overlapping(n, LiveOf(n, st))
    && CountsCached(n, LiveOf(n, st), st.counts)
    && OwnersCached(st.current, st.owners)
  }

  // ----- lazy counts --------------------------------------------------------------------

  /** Owners the snapshot records for `m` that no longer hold it. */
  function Dropped(n: Net, live: map<int, Assembly>, m: int): set<int> {
    set i | i in Owners(n.memberships, m) && !(i in live && m in live[i].members)
  }

  /** The count of a cell: cached, or the indexed count less the owners that dropped it. */
  method Count(n: Net, live: map<int, Assembly>, counts0: map<int, int>, m: int) returns (value: int, counts: map<int, int>)
    requires CountsCached(n, live, counts0)
    ensures value == |LiveOwners(live, m)| && counts == counts0[m := value]
    ensures CountsCached(n, live, counts)
  {
    if m in counts0 {
      value, counts := counts0[m], counts0;
      assert counts0[m := value] == counts0;
      return;
    }
    value := CountUncached(n, live, m);
    counts := counts0[m := value];
  }

  method CountUncached(n: Net, live: map<int, Assembly>, m: int) returns (value: int)
    requires LiveOwners(live, m) <= Owners(n.memberships, m)
    ensures value == |LiveOwners(live, m)|
  {
    hide LiveOwners, Dropped, Owners;
    var owners := Owners(n.memberships, m);
    value := |owners|;
    var todo := owners;
    ghost var dropped := Dropped(n, live, m);
    DroppedIn(n, live, m);
    assert dropped - todo == {};
    while todo != {}
      invariant todo <= owners
      invariant value == |owners| - |dropped - todo|
      decreases |todo|
    {
      var i := Min(todo);
      DroppedStep(dropped, todo, i);
      if !(i in live && m in live[i].members) {
        value := value - 1;
      }
      todo := todo - {i};
    }
    assert dropped - todo == dropped;
    CountIs(n, live, m);
  }

  lemma DroppedStep(dropped: set<int>, todo: set<int>, i: int)
    requires i in todo
    ensures |dropped - (todo - {i})| == |dropped - todo| + (if i in dropped then 1 else 0)
  {
    assert dropped - (todo - {i}) == (dropped - todo) + (if i in dropped then {i} else {});
  }

  lemma DroppedIn(n: Net, live: map<int, Assembly>, m: int)
    ensures Dropped(n, live, m) <= Owners(n.memberships, m)
    ensures forall i | i in Owners(n.memberships, m) :: i in Dropped(n, live, m) <==> !(i in live && m in live[i].members)
  {
  }

  lemma CountIs(n: Net, live: map<int, Assembly>, m: int)
    requires LiveOwners(live, m) <= Owners(n.memberships, m)
    ensures |LiveOwners(live, m)| == |Owners(n.memberships, m)| - |Dropped(n, live, m)|
  {
    assert LiveOwners(live, m) == Owners(n.memberships, m) - Dropped(n, live, m);
  }

  // ----- exact set owners ---------------------------------------------------------------

  function ExactSetOwner(n: Net, st: Stage, members: set<int>): Option<int> {
    if members in st.owners && st.owners[members] in LiveOf(n, st) then Some(st.owners[members])
    else if members in n.byMembers && n.byMembers[members] in LiveOf(n, st)
         && LiveOf(n, st)[n.byMembers[members]].members == members then Some(n.byMembers[members])
    else None
  }

  /** The two indexes together answer for the whole overlay. */
  lemma ExactSetOwnerIsExact(n: Net, cfg: Config, v: View, st: Stage, members: set<int>)
    requires cfg.Valid() && StageOk(n, cfg, v, st) && SetsIndexed(n.byMembers, n.assemblies)
    ensures ExactSetOwner(n, st, members).None? ==> forall i | i in LiveOf(n, st) :: LiveOf(n, st)[i].members != members
    ensures ExactSetOwner(n, st, members).Some? ==>
              ExactSetOwner(n, st, members).value in LiveOf(n, st) && LiveOf(n, st)[ExactSetOwner(n, st, members).value].members == members
  {
    hide LiveOk, CountsCached, Overlapping;
    var live, owner := LiveOf(n, st), ExactSetOwner(n, st, members);
    forall i | i in st.current ensures i in live && live[i] == st.current[i] {}
    forall i | i in live && i !in st.current ensures i in n.assemblies && live[i] == n.assemblies[i] {}
    if members in st.owners {
      var j := st.owners[members];
      assert owner == Some(j) && j in live && live[j].members == members;
    } else {
      assert forall i | i in st.current :: live[i].members != members;
      forall i | i in live && live[i].members == members ensures owner == Some(i) {
        assert n.assemblies[i].members in n.byMembers && n.byMembers[n.assemblies[i].members] == i;
      }
    }
  }

  // ----- candidates ---------------------------------------------------------------------

  datatype Candidacy = Candidacy(id: int, cell: int)

  predicate LinkedPair(v: View, cfg: Config, p: Pair)
    requires cfg.Valid()
  {
    Linked(v, cfg, p.lo, p.hi)
  }

  function GrowthIdentities(n: Net, cfg: Config, v: View, live: map<int, Assembly>, local: set<Pair>): set<Candidacy>
    requires cfg.Valid()
  {
    (set p, i | p in local && LinkedPair(v, cfg, p) && i in Owners(n.memberships, p.lo)
                && i in live && p.hi !in live[i].members :: Candidacy(i, p.hi))
    + (set p, i | p in local && LinkedPair(v, cfg, p) && i in Owners(n.memberships, p.hi)
                  && i in live && p.lo !in live[i].members :: Candidacy(i, p.lo))
  }

  /** The thresholds a candidate must meet against the assembly as maintenance left it. */
  ghost predicate Qualifies(n: Net, cfg: Config, v: View, live: map<int, Assembly>, g: Candidacy)
    requires cfg.Valid()
  {
    && g.id in live && live[g.id].members != {} && g.cell in n.cells
    && n.cells[g.cell].territory == live[g.id].territory
    && Density(v, cfg, g.cell, live[g.id].members) >= cfg.rhoG
    && Specificity(v, cfg, g.cell, live[g.id].members) >= cfg.sigmaG
  }

  function DensityOf(v: View, cfg: Config, live: map<int, Assembly>, g: Candidacy): real
    requires cfg.Valid()
  {
    if g.id in live && live[g.id].members != {} then Density(v, cfg, g.cell, live[g.id].members) else 0.0
  }

  function SpecificityOf(v: View, cfg: Config, live: map<int, Assembly>, g: Candidacy): real
    requires cfg.Valid()
  {
    if g.id in live then Specificity(v, cfg, g.cell, live[g.id].members) else 0.0
  }

  function MeanOf(v: View, cfg: Config, live: map<int, Assembly>, g: Candidacy): real
    requires cfg.Valid()
  {
    if g.id in live && live[g.id].members != {} then MeanReciprocal(v, cfg, g.cell, live[g.id].members) else 0.0
  }

  /** Best density, then specificity, then mean quality, then identity. */
  predicate ScoredBefore(v: View, cfg: Config, live: map<int, Assembly>, a: Candidacy, b: Candidacy)
    requires cfg.Valid()
  {
    var da, db := DensityOf(v, cfg, live, a), DensityOf(v, cfg, live, b);
    var sa, sb := SpecificityOf(v, cfg, live, a), SpecificityOf(v, cfg, live, b);
    var ma, mb := MeanOf(v, cfg, live, a), MeanOf(v, cfg, live, b);
    da > db || (da == db && (sa > sb || (sa == sb && (ma > mb || (ma == mb &&
      (a.id < b.id || (a.id == b.id && a.cell <= b.cell)))))))
  }

  lemma ScoredTotal(v: View, cfg: Config, live: map<int, Assembly>)
    requires cfg.Valid()
    ensures TotalPreorder((a: Candidacy, b: Candidacy) => ScoredBefore(v, cfg, live, a, b))
  {
    hide DensityOf, SpecificityOf, MeanOf;
  }

  method ScoreGrowth(n: Net, cfg: Config, v: View, live: map<int, Assembly>, local: set<Pair>) returns (ranked: seq<Candidacy>)
    requires cfg.Valid()
    ensures Enumerates(ranked, set g | g in GrowthIdentities(n, cfg, v, live, local) && Qualifies(n, cfg, v, live, g))
    ensures forall i, j | 0 <= i < j < |ranked| :: ScoredBefore(v, cfg, live, ranked[i], ranked[j])
  {
    hide GrowthIdentities, ScoredBefore, Density, Specificity;
    var identities := GrowthIdentities(n, cfg, v, live, local);
    var qualified: set<Candidacy> := {};
    var todo := identities;
    while todo != {}
      invariant todo <= identities
      invariant qualified == set g | g in identities && g !in todo && Qualifies(n, cfg, v, live, g)
      decreases |todo|
    {
      var g :| g in todo;
      if g.id in live && live[g.id].members != {} && g.cell in n.cells && n.cells[g.cell].territory == live[g.id].territory {
        var density := Density(v, cfg, g.cell, live[g.id].members);
        var specificity := Specificity(v, cfg, g.cell, live[g.id].members);
        if density >= cfg.rhoG && specificity >= cfg.sigmaG { qualified := qualified + {g}; }
      }
      todo := todo - {g};
    }
    ScoredTotal(v, cfg, live);
    ranked := Ranking(qualified, (a: Candidacy, b: Candidacy) => ScoredBefore(v, cfg, live, a, b));
  }

  // ----- admission ----------------------------------------------------------------------

  /** What scoring established about a candidate still holds of the grown overlay. */
  ghost predicate Attached(n: Net, cfg: Config, v: View, live: map<int, Assembly>, g: Candidacy)
    requires cfg.Valid()
  {
    && g.id in live && g.cell in n.cells && n.cells[g.cell].territory == live[g.id].territory
    && exists m :: m in live[g.id].members && Linked(v, cfg, g.cell, m)
  }

  lemma QualifiedSupported(n: Net, cfg: Config, v: View, live: map<int, Assembly>, g: Candidacy)
    requires cfg.Valid() && Qualifies(n, cfg, v, live, g)
    ensures Attached(n, cfg, v, live, g)
  {
    DenseHasLink(v, cfg, g.cell, live[g.id].members);
  }

  function Grown(st: Stage, id: int, before: Assembly, c: int, counts: map<int, int>, value: int): Stage {
    var proposed := before.members + {c};
    var owners := if before.members in st.owners && st.owners[before.members] == id then st.owners - {before.members} else st.owners;
    Stage(st.current[id := Assembly(before.id, before.territory, proposed)], st.deletes, counts[c := value + 1], owners[proposed := id])
  }

  lemma GrownStage(n: Net, cfg: Config, v: View, st: Stage, g: Candidacy, counts: map<int, int>, value: int)
    requires cfg.Valid() && TickView(n, cfg, v) && StageOk(n, cfg, v, st)
    requires Attached(n, cfg, v, LiveOf(n, st), g) && g.cell !in LiveOf(n, st)[g.id].members
    requires Admissible(cfg, LiveOf(n, st)[g.id].members + {g.cell})
    requires value == |LiveOwners(LiveOf(n, st), g.cell)| && value < cfg.mMax
    requires CountsCached(n, LiveOf(n, st), counts) && g.cell in counts
    requires forall i | i in LiveOf(n, st) :: LiveOf(n, st)[i].members != LiveOf(n, st)[g.id].members + {g.cell}
    ensures var live := LiveOf(n, st);
            var next := Grown(st, g.id, live[g.id], g.cell, counts, value);
            && StageOk(n, cfg, v, next)
            && LiveOf(n, next) == live[g.id := Assembly(live[g.id].id, live[g.id].territory, live[g.id].members + {g.cell})]
  {
    hide Connected, TickView, LiveOk, CountsCached, OwnersCached;
    var live := LiveOf(n, st);
    var before := live[g.id];
    var a := Assembly(before.id, before.territory, before.members + {g.cell});
    var next := Grown(st, g.id, before, g.cell, counts, value);
    assert g.id in n.assemblies && g.id !in st.deletes;
    assert LiveOf(n, next) == live[g.id := a];
    GrownLiveOk(n, cfg, v, live, g);
    GrownCounts(n, live, counts, g.id, a, g.cell, value);
    GrownOwners(n, st, g.id, a, g.cell);
  }

  lemma GrownLiveOk(n: Net, cfg: Config, v: View, live: map<int, Assembly>, g: Candidacy)
    requires cfg.Valid() && TickView(n, cfg, v) && LiveOk(n, cfg, v, live) && Overlapping(n, live)
    requires Attached(n, cfg, v, live, g) && g.cell !in live[g.id].members
    requires Admissible(cfg, live[g.id].members + {g.cell})
    requires |LiveOwners(live, g.cell)| < cfg.mMax
    requires forall i | i in live :: live[i].members != live[g.id].members + {g.cell}
    ensures var next := live[g.id := Assembly(live[g.id].id, live[g.id].territory, live[g.id].members + {g.cell})];
            LiveOk(n, cfg, v, next) && Overlapping(n, next)
  {
    hide Sound, TickView;
    var before := live[g.id];
    var a := Assembly(before.id, before.territory, before.members + {g.cell});
    var m :| m in before.members && Linked(v, cfg, g.cell, m);
    GrownSound(n, cfg, v, before, g.cell, m);
    GrowLive(n, cfg, v, live, g.id, a, g.cell);
    forall i | i in live[g.id := a] && i in n.assemblies ensures live[g.id := a][i].members * n.assemblies[i].members != {} {
      if i == g.id {
        var x := Pick(before.members * n.assemblies[i].members);
        assert x in a.members * n.assemblies[i].members;
      }
    }
  }

  lemma GrownCounts(n: Net, live: map<int, Assembly>, counts: map<int, int>, id: int, a: Assembly, c: int, value: int)
    requires CountsCached(n, live, counts) && c in counts && value == |LiveOwners(live, c)|
    requires id in live && c !in live[id].members && a.members == live[id].members + {c}
    ensures CountsCached(n, live[id := a], counts[c := value + 1])
  {
    var next := live[id := a];
    forall m ensures m != c ==> LiveOwners(next, m) == LiveOwners(live, m) {}
    GrowOwners(live, id, a, c, c);
  }

  lemma GrownOwners(n: Net, st: Stage, id: int, a: Assembly, c: int)
    requires OwnersCached(st.current, st.owners)
    requires id in LiveOf(n, st) && a.members == LiveOf(n, st)[id].members + {c}
    requires forall i | i in LiveOf(n, st) :: LiveOf(n, st)[i].members != a.members
    ensures var before := LiveOf(n, st)[id];
            OwnersCached(st.current[id := a],
                         (if before.members in st.owners && st.owners[before.members] == id then st.owners - {before.members} else st.owners)[a.members := id])
  {
    forall i | i in st.current ensures i in LiveOf(n, st) && LiveOf(n, st)[i] == st.current[i] {}
  }

  /** Growth never shrinks an assembly, so the support of the remaining candidates persists. */
  lemma SupportPersists(n: Net, cfg: Config, v: View, live: map<int, Assembly>, next: map<int, Assembly>, g: Candidacy)
    requires cfg.Valid() && Attached(n, cfg, v, live, g)
    requires g.id in next && live[g.id].members <= next[g.id].members && next[g.id].territory == live[g.id].territory
    ensures Attached(n, cfg, v, next, g)
  {
    var m :| m in live[g.id].members && Linked(v, cfg, g.cell, m);
    assert m in next[g.id].members;
  }

  ghost predicate Growing(live: map<int, Assembly>, next: map<int, Assembly>) {
    && live.Keys == next.Keys
    && forall i | i in live :: live[i].members <= next[i].members && next[i].territory == live[i].territory
  }

  /** An assembly takes a candidate: in shape, within the membership bound, and to a set no live assembly has. */
  ghost predicate Takes(cfg: Config, live: map<int, Assembly>, g: Candidacy) {
    g.id in live &&
    var proposed := live[g.id].members + {g.cell};
    && g.cell !in live[g.id].members && Admissible(cfg, proposed) && |LiveOwners(live, g.cell)| < cfg.mMax
    && forall i | i in live :: live[i].members != proposed
  }

  /** One admission over the whole live map: no caches, no indexes. */
  ghost function Admitted(cfg: Config, live: map<int, Assembly>, g: Candidacy): map<int, Assembly> {
    if Takes(cfg, live, g) then live[g.id := Assembly(live[g.id].id, live[g.id].territory, live[g.id].members + {g.cell})] else live
  }

  /** One admission test, in the order of the checks; the lazy overlay answers as the whole map would. */
  method GrowOne(n: Net, cfg: Config, v: View, st: Stage, g: Candidacy) returns (next: Stage)
    requires cfg.Valid() && TickView(n, cfg, v) && StageOk(n, cfg, v, st)
    requires Attached(n, cfg, v, LiveOf(n, st), g)
    ensures StageOk(n, cfg, v, next) && Growing(LiveOf(n, st), LiveOf(n, next))
    ensures next.deletes == st.deletes
    ensures LiveOf(n, next) == Admitted(cfg, LiveOf(n, st), g)
  {
    hide LiveOk, Connected, TickView, Overlapping, CountsCached, OwnersCached, SetsIndexed, Admissible;
    next := st;
    var a := LiveOf(n, st)[g.id];
    if g.cell in a.members {
      return;
    }
    var proposed := a.members + {g.cell};
    var admissible := Admits(cfg, proposed);
    if !admissible {
      return;
    }
    var value, counts := Count(n, LiveOf(n, st), st.counts, g.cell);
    next := Stage(st.current, st.deletes, counts, st.owners);
    if value >= cfg.mMax {
      return;
    }
    SetsIndexedOf(n, cfg, v);
    ExactSetOwnerIsExact(n, cfg, v, next, proposed);
    var owner := ExactSetOwner(n, next, proposed);
    if owner.Some? && owner.value != g.id {
      return;
    }
    GrownStage(n, cfg, v, next, g, counts, value);
    next := Grown(next, g.id, a, g.cell, counts, value);
  }

  lemma SetsIndexedOf(n: Net, cfg: Config, v: View)
    requires cfg.Valid() && TickView(n, cfg, v)
    ensures SetsIndexed(n.byMembers, n.assemblies)
  {
  }

  /** The admissions one after the other, each against what the earlier ones left. */
  ghost function AdmittedAll(cfg: Config, live: map<int, Assembly>, ranked: seq<Candidacy>): map<int, Assembly> {
    if ranked == [] then live
    else Admitted(cfg, AdmittedAll(cfg, live, ranked[..|ranked| - 1]), ranked[|ranked| - 1])
  }

  method GrowAll(n: Net, cfg: Config, v: View, st: Stage, ranked: seq<Candidacy>) returns (next: Stage)
    requires cfg.Valid() && TickView(n, cfg, v) && StageOk(n, cfg, v, st)
    requires forall g | g in ranked :: Attached(n, cfg, v, LiveOf(n, st), g)
    ensures StageOk(n, cfg, v, next) && Growing(LiveOf(n, st), LiveOf(n, next)) && next.deletes == st.deletes
    ensures LiveOf(n, next) == AdmittedAll(cfg, LiveOf(n, st), ranked)
  {
    hide StageOk, TickView, LiveOf, Admitted;
    next := st;
    var i := 0;
    assert ranked[..0] == [];
    while i < |ranked|
      invariant 0 <= i <= |ranked|
      invariant StageOk(n, cfg, v, next) && Growing(LiveOf(n, st), LiveOf(n, next)) && next.deletes == st.deletes
      invariant LiveOf(n, next) == AdmittedAll(cfg, LiveOf(n, st), ranked[..i])
    {
      assert ranked[i] in ranked;
      CandidateKept(n, cfg, v, LiveOf(n, st), LiveOf(n, next), ranked[i]);
      next := GrowOne(n, cfg, v, next, ranked[i]);
      assert ranked[..i + 1][..i] == ranked[..i];
      i := i + 1;
    }
    assert ranked[..i] == ranked;
  }

  lemma CandidateKept(n: Net, cfg: Config, v: View, live: map<int, Assembly>, next: map<int, Assembly>, g: Candidacy)
    requires cfg.Valid() && Attached(n, cfg, v, live, g) && Growing(live, next)
    ensures Attached(n, cfg, v, next, g)
  {
    SupportPersists(n, cfg, v, live, next, g);
  }
}
