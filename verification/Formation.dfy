/**
 Assembly FORM: new assemblies from the whole qualifying components of the changed links, the
 room their members must have, and their numbering. Candidates are disjoint, so the order in
 which they are considered does not matter.
 */
module Formation {
  import opened FiniteSets
  import opened Ordering
  import opened Lex
  import opened Options
  import opened CoreModel
  import opened Connectivity
  import opened Components
  import opened NetworkState
  import opened Learning
  import opened AssemblyModel
  import opened Growth

  // ----- candidates ---------------------------------------------------------------------

  /** Endpoints of the changed local pairs that are linked now. */
  function Seeds(v: View, cfg: Config, local: set<Pair>): set<int>
    requires cfg.Valid()
  {
    (set p | p in local && LinkedPair(v, cfg, p) :: p.lo) + (set p | p in local && LinkedPair(v, cfg, p) :: p.hi)
  }

  function Degree(v: View, cfg: Config, c: int, members: set<int>): nat
    requires cfg.Valid()
  {
    |set m | m in members && m != c && Linked(v, cfg, c, m)|
  }

  function CoreCoverage(v: View, cfg: Config, members: set<int>): real
    requires cfg.Valid() && members != {}
  {
    |set m | m in members && Degree(v, cfg, m, members) >= cfg.dMin| as real / |members| as real
  }

  ghost predicate Formable(v: View, cfg: Config, members: set<int>)
    requires cfg.Valid()
  {
    members != {} && cfg.kMin <= |members| <= cfg.kMax && CoreCoverage(v, cfg, members) >= cfg.rho
  }

  /** A form candidate: the admissible, formable component of some seed. */
  ghost predicate IsCandidate(v: View, cfg: Config, seeds: set<int>, members: set<int>)
    requires cfg.Valid()
  {
    Admissible(cfg, members) && Formable(v, cfg, members) && exists s :: s in seeds && Component(v, cfg, s, members)
  }

  method FormCandidates(v: View, cfg: Config, seeds: set<int>) returns (candidates: set<set<int>>)
    requires cfg.Valid()
    ensures forall c :: c in candidates <==> IsCandidate(v, cfg, seeds, c)
  {
    hide Component, CoreCoverage, Admissible, Connected, IsCandidate;
    candidates := {};
    var todo := seeds;
    NoCandidate(v, cfg, seeds - todo);
    while todo != {}
      invariant todo <= seeds
      invariant forall c :: c in candidates <==> IsCandidate(v, cfg, seeds - todo, c)
      decreases |todo|
    {
      var seed := Min(todo);
      var r := FormCandidate(v, cfg, seed);
      ghost var done := seeds - todo;
      assert seeds - (todo - {seed}) == done + {seed};
      ghost var before := candidates;
      if r.Some? && cfg.kMin <= |r.value| <= cfg.kMax {
        ComponentConnected(v, cfg, seed, r.value);
        MembersThere(cfg, r.value);
        if CoreCoverage(v, cfg, r.value) >= cfg.rho {
          var linked := SearchConnected(v, cfg, r.value);
          if linked { candidates := candidates + {r.value}; }
        }
      }
      SeedStep(v, cfg, done, seed, r, before, candidates);
      todo := todo - {seed};
    }
    assert seeds - todo == seeds;
  }

  lemma NoCandidate(v: View, cfg: Config, seeds: set<int>)
    requires cfg.Valid() && seeds == {}
    ensures forall c :: !IsCandidate(v, cfg, seeds, c)
  {
  }

  lemma MembersThere(cfg: Config, members: set<int>)
    requires cfg.Valid() && cfg.kMin <= |members|
    ensures members != {}
  {
  }

  lemma SeedStep(v: View, cfg: Config, done: set<int>, seed: int, r: Option<set<int>>, before: set<set<int>>, after: set<set<int>>)
    requires cfg.Valid()
    requires forall c :: c in before <==> IsCandidate(v, cfg, done, c)
    requires r.Some? ==> Component(v, cfg, seed, r.value) && Admissible(cfg, r.value)
    requires r.None? ==> forall c: set<int> | Component(v, cfg, seed, c) :: !Admissible(cfg, c)
    requires after == before + (if r.Some? && Formable(v, cfg, r.value) then {r.value} else {})
    ensures forall c :: c in after <==> IsCandidate(v, cfg, done + {seed}, c)
  {
    hide Component, Formable, Admissible;
    forall c ensures c in after <==> IsCandidate(v, cfg, done + {seed}, c) {
      if IsCandidate(v, cfg, done + {seed}, c) {
        var s :| s in done + {seed} && Component(v, cfg, s, c);
        if s == seed {
          if r.Some? { ComponentUnique(v, cfg, seed, c, r.value); }
        } else {
          assert s in done;
        }
      }
      if c in after {
        if c in before {
          var s :| s in done && Component(v, cfg, s, c);
          assert s in done + {seed};
        } else {
          assert seed in done + {seed};
        }
      }
    }
  }

  /** Distinct candidates share no cell. */
  lemma CandidatesDisjoint(v: View, cfg: Config, seeds: set<int>, a: set<int>, b: set<int>)
    requires cfg.Valid() && IsCandidate(v, cfg, seeds, a) && IsCandidate(v, cfg, seeds, b) && a != b
    ensures a !! b
  {
    hide Component;
    var s :| s in seeds && Component(v, cfg, s, a);
    var t :| t in seeds && Component(v, cfg, t, b);
    ComponentsDisjoint(v, cfg, s, a, t, b);
  }

  // ----- acceptance ---------------------------------------------------------------------

  /** Member sets of the live assemblies indexed at some member of a candidate. */
  function ExistingSets(n: Net, live: map<int, Assembly>, candidates: set<set<int>>): set<set<int>> {
    set c, m, i | c in candidates && m in c && i in Owners(n.memberships, m) && i in live :: live[i].members
  }

  /** The bounded look-up finds every live assembly that already has a candidate's set. */
  lemma ExistingSetsComplete(n: Net, live: map<int, Assembly>, candidates: set<set<int>>, c: set<int>, i: int)
    requires MembersIndexed(n.memberships, n.assemblies) && Overlapping(n, live)
    requires i in live && i in n.assemblies && c in candidates && live[i].members == c
    ensures c in ExistingSets(n, live, candidates)
  {
    var m := Pick(live[i].members * n.assemblies[i].members);
    assert m in c && i in Owners(n.memberships, m);
  }

  /** Room for one more owner at every member. */
  ghost predicate HasRoom(cfg: Config, live: map<int, Assembly>, c: set<int>) {
    forall m | m in c :: |LiveOwners(live, m)| < cfg.mMax
  }

  /** Counts during acceptance: the live owners plus the accepted forms. */
  ghost predicate FormCounts(n: Net, live: map<int, Assembly>, accepted: set<set<int>>, counts: map<int, int>) {
    && (forall m | m in counts :: counts[m] == |LiveOwners(live, m)| + (if exists a :: a in accepted && m in a then 1 else 0))
    && (forall m {:trigger LiveOwners(live, m)} | m !in counts :: LiveOwners(live, m) <= Owners(n.memberships, m))
    && (forall a, m | a in accepted && m in a :: m in counts)
  }

  /** Whether every member of a disjoint candidate has room, counting lazily. */
  method RoomFor(n: Net, cfg: Config, live: map<int, Assembly>, accepted: set<set<int>>, counts0: map<int, int>, c: set<int>)
      returns (ok: bool, counts: map<int, int>)
    requires FormCounts(n, live, accepted, counts0)
    requires forall a | a in accepted :: a !! c
    ensures FormCounts(n, live, accepted, counts)
    ensures ok <==> HasRoom(cfg, live, c)
    ensures ok ==> forall m | m in c :: m in counts
  {
    hide LiveOwners;
    ok, counts := true, counts0;
    var todo := c;
    while todo != {} && ok
      invariant todo <= c
      invariant FormCounts(n, live, accepted, counts)
      invariant ok ==> forall m | m in c && m !in todo :: m in counts && |LiveOwners(live, m)| < cfg.mMax
      invariant !ok ==> !HasRoom(cfg, live, c)
      decreases |todo|, ok
    {
      var m := Min(todo);
      var value;
      if m in counts {
        value := counts[m];
      } else {
        value := CountUncached(n, live, m);
        counts := counts[m := value];
      }
      assert m in c;
      if value >= cfg.mMax {
        ok := false;
      }
      todo := todo - {m};
    }
  }

  /**
   Acceptance in any order of the ranking takes exactly the candidates with room: since
   candidates are disjoint, none of them uses up the room of another.
   */
  method AcceptForms(n: Net, cfg: Config, live: map<int, Assembly>, ranked: seq<set<int>>, counts0: map<int, int>)
      returns (accepted: set<set<int>>)
    requires CountsCached(n, live, counts0)
    requires forall i, j | 0 <= i < j < |ranked| :: ranked[i] != ranked[j] && ranked[i] !! ranked[j]
    ensures forall c :: c in accepted <==> c in ranked && HasRoom(cfg, live, c)
  {
    hide LiveOwners, HasRoom;
    accepted := {};
    var counts := counts0;
    var i := 0;
    while i < |ranked|
      invariant 0 <= i <= |ranked|
      invariant forall c :: c in accepted <==> c in ranked[..i] && HasRoom(cfg, live, c)
      invariant FormCounts(n, live, accepted, counts)
    {
      var c := ranked[i];
      forall a | a in accepted ensures a !! c {
        var j :| 0 <= j < i && ranked[j] == a;
        assert ranked[j] !! ranked[i];
      }
      var ok;
      ok, counts := RoomFor(n, cfg, live, accepted, counts, c);
      if ok {
        AcceptStep(n, live, accepted, counts, c);
        accepted := accepted + {c};
        counts := map m | m in counts :: if m in c then counts[m] + 1 else counts[m];
      }
      assert ranked[..i + 1] == ranked[..i] + [c];
      i := i + 1;
    }
    assert ranked[..i] == ranked;
  }

  lemma AcceptStep(n: Net, live: map<int, Assembly>, accepted: set<set<int>>, counts: map<int, int>, c: set<int>)
    requires FormCounts(n, live, accepted, counts)
    requires forall a | a in accepted :: a !! c
    requires forall m | m in c :: m in counts
    ensures FormCounts(n, live, accepted + {c}, map m | m in counts :: if m in c then counts[m] + 1 else counts[m])
  {
    hide LiveOwners;
    forall m | m in counts
      ensures (if exists a :: a in accepted + {c} && m in a then 1 else 0)
           == (if exists a :: a in accepted && m in a then 1 else 0) + (if m in c then 1 else 0)
    {
      if m in c { assert c in accepted + {c}; }
      if exists a :: a in accepted && m in a {
        var a :| a in accepted && m in a;
        assert a in accepted + {c};
      }
    }
  }

  // ----- identities ---------------------------------------------------------------------

  predicate MembersBefore(a: set<int>, b: set<int>) { LexLe(Sorted(a), Sorted(b)) }

  lemma MembersTotal()
    ensures TotalPreorder((a: set<int>, b: set<int>) => MembersBefore(a, b))
  {
    forall a: set<int>, b: set<int> ensures MembersBefore(a, b) || MembersBefore(b, a) { LexTotal(Sorted(a), Sorted(b)); }
    forall a: set<int>, b: set<int>, c: set<int> | MembersBefore(a, b) && MembersBefore(b, c) ensures MembersBefore(a, c) {
      LexTransitive(Sorted(a), Sorted(b), Sorted(c));
    }
  }

  function NewAssembly(cfg: Config, id: int, members: set<int>): Assembly
    requires members != {}
  {
    Assembly(id, cfg.topology.territoryOf(Min(members)), members)
  }

  /** An accepted component makes a sound assembly under any id. */
  lemma FormSound(n: Net, cfg: Config, v: View, local: set<Pair>, members: set<int>, id: int)
    requires cfg.Valid() && TickView(n, cfg, v) && id >= 0
    requires IsCandidate(v, cfg, Seeds(v, cfg, local), members)
    ensures Sound(n, cfg, v, NewAssembly(cfg, id, members))
  {
    hide TickView, Component, Connected;
    var s :| s in Seeds(v, cfg, local) && Component(v, cfg, s, members);
    var p :| p in local && LinkedPair(v, cfg, p) && (s == p.lo || s == p.hi);
    LinkedFacts(v, cfg, p.lo, p.hi);
    ComponentCells(n, cfg, v, s, if s == p.lo then p.hi else p.lo, members);
    ComponentConnected(v, cfg, s, members);
    CellTerritories(n, cfg, v);
  }

  lemma CellTerritories(n: Net, cfg: Config, v: View)
    requires cfg.Valid() && TickView(n, cfg, v)
    ensures forall c | c in n.cells :: n.cells[c].territory == cfg.topology.territoryOf(c)
  {
  }

  /** Forms that can still be added to the live assemblies. */
  ghost predicate Addable(n: Net, cfg: Config, v: View, local: set<Pair>, live: map<int, Assembly>, forms: set<set<int>>)
    requires cfg.Valid()
  {
    && (forall c | c in forms :: IsCandidate(v, cfg, Seeds(v, cfg, local), c) && HasRoom(cfg, live, c))
    && (forall c, i | c in forms && i in live :: live[i].members != c)
  }

  lemma AddForm(n: Net, cfg: Config, v: View, local: set<Pair>, live: map<int, Assembly>, forms: set<set<int>>, id: int, c: set<int>)
    requires cfg.Valid() && TickView(n, cfg, v) && LiveOk(n, cfg, v, live)
    requires Addable(n, cfg, v, local, live, forms) && c in forms && id !in live && id >= 0
    ensures c != {} && LiveOk(n, cfg, v, live[id := NewAssembly(cfg, id, c)])
    ensures Addable(n, cfg, v, local, live[id := NewAssembly(cfg, id, c)], forms - {c})
  {
    hide TickView, LiveOwners, Sound, Component, Seeds;
    var a := NewAssembly(cfg, id, c);
    var next := live[id := a];
    FormSound(n, cfg, v, local, c, id);
    FormLive(n, cfg, v, live, id, a);
    forall d | d in forms - {c} ensures HasRoom(cfg, next, d) {
      CandidatesDisjoint(v, cfg, Seeds(v, cfg, local), c, d);
      forall m | m in d ensures |LiveOwners(next, m)| < cfg.mMax {
        FormOwners(live, id, a, m);
      }
    }
  }

  /** The overlay with the forms numbered consecutively from `next`. */
  function Numbered(cfg: Config, current: map<int, Assembly>, next: int, forms: seq<set<int>>): map<int, Assembly>
    requires forall k | 0 <= k < |forms| :: forms[k] != {}
    decreases |forms|
  {
    if forms == [] then current else
      var last := |forms| - 1;
      Numbered(cfg, current, next, forms[..last])[next + last := NewAssembly(cfg, next + last, forms[last])]
  }

  lemma {:induction false} NumberedAt(cfg: Config, current: map<int, Assembly>, next: int, forms: seq<set<int>>, i: int)
    requires forall k | 0 <= k < |forms| :: forms[k] != {}
    requires forall k | k in current :: k < next
    ensures i in Numbered(cfg, current, next, forms) <==> i in current || next <= i < next + |forms|
    ensures i in current ==> Numbered(cfg, current, next, forms)[i] == current[i]
    ensures next <= i < next + |forms| ==> Numbered(cfg, current, next, forms)[i] == NewAssembly(cfg, i, forms[i - next])
    decreases |forms|
  {
    if forms != [] {
      NumberedAt(cfg, current, next, forms[..|forms| - 1], i);
    }
  }

  /** Fresh consecutive ids in the lexicographic order of the member sets. */
  method AssignForms(n: Net, cfg: Config, v: View, ghost local: set<Pair>, current0: map<int, Assembly>, deletes: set<int>,
                     accepted: set<set<int>>, next: int) returns (current: map<int, Assembly>, ghost order: seq<set<int>>)
    requires cfg.Valid() && TickView(n, cfg, v) && next >= 0
    requires forall i | i in n.assemblies || i in current0 :: i < next
    requires LiveOk(n, cfg, v, Live(n, current0, deletes))
    requires Addable(n, cfg, v, local, Live(n, current0, deletes), accepted)
    ensures LiveOk(n, cfg, v, Live(n, current, deletes))
    ensures Enumerates(order, accepted) && forall i, j | 0 <= i < j < |order| :: MembersBefore(order[i], order[j])
    ensures (forall k | 0 <= k < |order| :: order[k] != {}) && current == Numbered(cfg, current0, next, order)
  {
    hide TickView, LiveOk, Addable, MembersBefore, Rest, NewAssembly;
    current := current0;
    MembersTotal();
    var ranked := Ranking(accepted, (a: set<int>, b: set<int>) => MembersBefore(a, b));
    order := ranked;
    AddableNonEmpty(n, cfg, v, local, Live(n, current0, deletes), accepted);
    forall k | 0 <= k < |ranked| ensures ranked[k] != {} { assert ranked[k] in ranked; }
    RestStart(ranked, accepted);
    var offset := 0;
    while offset < |ranked|
      invariant 0 <= offset <= |ranked|
      invariant current == Numbered(cfg, current0, next, ranked[..offset])
      invariant LiveOk(n, cfg, v, Live(n, current, deletes))
      invariant Addable(n, cfg, v, local, Live(n, current, deletes), Rest(ranked, offset))
    {
      var members := ranked[offset];
      var id := next + offset;
      RestStep(ranked, offset);
      NumberedAt(cfg, current0, next, ranked[..offset], id);
      LivePut(n, current, deletes, id, NewAssembly(cfg, id, members));
      AddForm(n, cfg, v, local, Live(n, current, deletes), Rest(ranked, offset), id, members);
      assert ranked[..offset + 1][..offset] == ranked[..offset];
      current := current[id := NewAssembly(cfg, id, members)];
      offset := offset + 1;
    }
    assert ranked[..offset] == ranked;
  }

  lemma AddableNonEmpty(n: Net, cfg: Config, v: View, local: set<Pair>, live: map<int, Assembly>, forms: set<set<int>>)
    requires cfg.Valid() && Addable(n, cfg, v, local, live, forms)
    ensures forall c | c in forms :: c != {}
  {
  }

  lemma LivePut(n: Net, current: map<int, Assembly>, deletes: set<int>, id: int, a: Assembly)
    ensures Live(n, current[id := a], deletes) == Live(n, current, deletes)[id := a]
    ensures id !in current && id !in n.assemblies ==> id !in Live(n, current, deletes)
  {
  }

  ghost function Rest(ranked: seq<set<int>>, offset: nat): set<set<int>>
    requires offset <= |ranked|
  {
    set c | c in ranked[offset..]
  }

  lemma RestStart(ranked: seq<set<int>>, accepted: set<set<int>>)
    requires Enumerates(ranked, accepted)
    ensures Rest(ranked, 0) == accepted
  {
    assert ranked[0..] == ranked;
  }

  lemma RestStep(ranked: seq<set<int>>, offset: nat)
    requires offset < |ranked| && forall i, j | 0 <= i < j < |ranked| :: ranked[i] != ranked[j]
    ensures ranked[offset] in Rest(ranked, offset)
    ensures Rest(ranked, offset + 1) == Rest(ranked, offset) - {ranked[offset]}
  {
    assert ranked[offset..] == [ranked[offset]] + ranked[offset + 1..];
    var later := ranked[offset + 1..];
    forall c | c in later ensures c != ranked[offset] {
      var j :| 0 <= j < |later| && later[j] == c;
      assert c == ranked[offset + 1 + j];
    }
  }
}
