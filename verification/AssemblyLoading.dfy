/**
 Loading the assemblies of a record through the validated constructor. Each line is tested for
 shape, connectivity and membership counts against the lines before it, and the list of a
 lawful network passes.
 */
module AssemblyLoading {
  import opened FiniteSets
  import opened CoreModel
  import opened Connectivity
  import opened NetworkState
  import opened IndexUpdates
  import opened Network
  import opened SavedState

  ghost function AssembliesFrom(saved: seq<Assembly>): map<int, Assembly> {
    if saved == [] then map[] else
      var last := saved[|saved| - 1];
      AssembliesFrom(saved[..|saved| - 1])[last.id := last]
  }

  /** Ids the list makes owners of one member. */
  ghost function OwnersIn(saved: seq<Assembly>, m: int): set<int> {
    set i | 0 <= i < |saved| && m in saved[i].members :: saved[i].id
  }

  ghost predicate DistinctAssemblies(saved: seq<Assembly>) {
    forall i, j | 0 <= i < j < |saved| :: saved[i].id != saved[j].id && saved[i].members != saved[j].members
  }

  /** Every assembly well shaped and connected, no id or member set twice, no member over the bound. */
  ghost predicate AssembliesLawful(cfg: Config, cells: map<int, Cell>, out: Adjacency, saved: seq<Assembly>)
    requires cfg.Valid()
  {
    && (forall i | 0 <= i < |saved| :: AssemblyShape(cfg, cells, saved[i]) && Connected(Plain(out), cfg, saved[i].members))
    && DistinctAssemblies(saved)
    && forall m :: |OwnersIn(saved, m)| <= cfg.mMax
  }

  lemma {:induction false} AssembliesFromRecords(saved: seq<Assembly>)
    ensures forall c | c in AssembliesFrom(saved) :: AssembliesFrom(saved)[c] in saved && AssembliesFrom(saved)[c].id == c
    ensures forall x | x in saved :: x.id in AssembliesFrom(saved)
    decreases |saved|
  {
    if saved != [] {
      var init, last := saved[..|saved| - 1], saved[|saved| - 1];
      AssembliesFromRecords(init);
      assert saved == init + [last];
    }
  }

  lemma {:induction false} AssembliesFromDistinct(saved: seq<Assembly>)
    requires DistinctAssemblies(saved)
    ensures forall i | 0 <= i < |saved| :: saved[i].id in AssembliesFrom(saved) && AssembliesFrom(saved)[saved[i].id] == saved[i]
    decreases |saved|
  {
    if saved != [] {
      AssembliesFromDistinct(saved[..|saved| - 1]);
      forall i | 0 <= i < |saved|
        ensures saved[i].id in AssembliesFrom(saved) && AssembliesFrom(saved)[saved[i].id] == saved[i]
      {
        if i < |saved| - 1 { assert saved[..|saved| - 1][i] == saved[i]; }
      }
    }
  }

  lemma OwnersInStep(saved: seq<Assembly>, i: nat, m: int)
    requires i < |saved|
    ensures OwnersIn(saved[..i + 1], m) == OwnersIn(saved[..i], m) + (if m in saved[i].members then {saved[i].id} else {})
  {
    var next := saved[..i + 1];
    assert next == saved[..i] + [saved[i]];
    assert m in saved[i].members ==> next[i].id in OwnersIn(next, m);
    forall p | p in OwnersIn(saved[..i], m) ensures p in OwnersIn(next, m) {
      var j :| 0 <= j < i && m in saved[..i][j].members && saved[..i][j].id == p;
      assert next[j] == saved[..i][j];
    }
  }

  lemma OwnersAreIn(memberships: map<int, set<int>>, saved: seq<Assembly>, m: int)
    requires DistinctAssemblies(saved) && MembersIndexed(memberships, AssembliesFrom(saved))
    ensures Owners(memberships, m) == OwnersIn(saved, m)
  {
    AssembliesFromDistinct(saved);
    AssembliesFromRecords(saved);
    var all := AssembliesFrom(saved);
    forall i ensures i in Owners(memberships, m) <==> i in OwnersIn(saved, m) {
      assert i in Owners(memberships, m) <==> i in all && m in all[i].members;
      if i in Owners(memberships, m) {
        var j :| 0 <= j < |saved| && saved[j] == all[i];
      }
      if i in OwnersIn(saved, m) {
        var j :| 0 <= j < |saved| && m in saved[j].members && saved[j].id == i;
      }
    }
  }

  /** What `seed_assembly` asks of the next assembly is what the longer list needs. */
  lemma AssemblyAccepted(n: Net, cfg: Config, saved: seq<Assembly>, i: nat)
    requires cfg.Valid() && i < |saved| && n.assemblies == AssembliesFrom(saved[..i])
    requires AssembliesIndexed(n.assemblies, n.memberships, n.byMembers)
    requires AssembliesLawful(cfg, n.cells, n.outgoing, saved[..i])
    requires AssemblyLawful(n, cfg, saved[i])
    ensures AssembliesLawful(cfg, n.cells, n.outgoing, saved[..i + 1])
  {
    hide AssemblyShape, Connected, AssembliesFrom;
    var init, next, a := saved[..i], saved[..i + 1], saved[i];
    assert next == init + [a];
    AssembliesFromDistinct(init);
    forall m ensures |OwnersIn(next, m)| <= cfg.mMax {
      OwnersInStep(saved, i, m);
      OwnersAreIn(n.memberships, init, m);
    }
    forall j, k | 0 <= j < k < |next| ensures next[j].id != next[k].id && next[j].members != next[k].members {
      assert next[j] == init[j];
      if k < i { assert next[k] == init[k]; }
    }
    forall j | 0 <= j < |next|
      ensures AssemblyShape(cfg, n.cells, next[j]) && Connected(Plain(n.outgoing), cfg, next[j].members)
    {
      if j < i { assert next[j] == init[j]; }
    }
  }

  lemma AssemblyNeeded(n: Net, cfg: Config, saved: seq<Assembly>, i: nat)
    requires cfg.Valid() && i < |saved| && n.assemblies == AssembliesFrom(saved[..i])
    requires AssembliesIndexed(n.assemblies, n.memberships, n.byMembers)
    requires AssembliesLawful(cfg, n.cells, n.outgoing, saved)
    ensures AssemblyLawful(n, cfg, saved[i])
  {
    hide AssemblyShape, Connected, AssembliesFrom;
    var init, a := saved[..i], saved[i];
    AssembliesFromRecords(init);
    forall c | c in n.assemblies ensures c != a.id && n.assemblies[c].members != a.members {
      var j :| 0 <= j < i && init[j] == n.assemblies[c];
      assert saved[j] == init[j];
    }
    UnownedSet(n.byMembers, n.assemblies, a.members);
    forall m | m in a.members ensures |Owners(n.memberships, m)| < cfg.mMax {
      OwnersAreIn(n.memberships, init, m);
      OwnersGrow(saved, i, m);
    }
  }

  lemma UnownedSet(byMembers: map<set<int>, int>, assemblies: map<int, Assembly>, members: set<int>)
    requires SetsIndexed(byMembers, assemblies)
    requires forall c | c in assemblies :: assemblies[c].members != members
    ensures members !in byMembers
  {
    var i := if members in byMembers then byMembers[members] else 0;
    assert i in assemblies ==> assemblies[i].members != members;
  }

  lemma OwnersGrow(saved: seq<Assembly>, i: nat, m: int)
    requires i < |saved| && DistinctAssemblies(saved) && m in saved[i].members
    ensures |OwnersIn(saved[..i], m)| < |OwnersIn(saved, m)|
  {
    var small, big := OwnersIn(saved[..i], m), OwnersIn(saved, m);
    forall c | c in small ensures c in big && c != saved[i].id {
      var j :| 0 <= j < i && m in saved[..i][j].members && saved[..i][j].id == c;
      assert saved[j] == saved[..i][j];
    }
    assert saved[i].id in big;
    SubsetCardinality(small, big - {saved[i].id});
  }

  method LoadAssemblies(net: SparseNetwork, saved: seq<Assembly>) returns (r: Outcome)
    requires net.cfg.Valid() && net.assemblies == map[] && net.memberships == map[] && net.byMembers == map[]
    modifies net`assemblies, net`memberships, net`byMembers, net`nextAssembly
    ensures AssembliesIndexed(net.assemblies, net.memberships, net.byMembers)
    ensures r.Accepted? <==> AssembliesLawful(net.cfg, net.cells, net.outgoing, saved)
    ensures r.Accepted? ==> net.assemblies == AssembliesFrom(saved)
  {
    assert AssembliesIndexed(net.assemblies, net.memberships, net.byMembers);
    assert AssembliesLawful(net.cfg, net.cells, net.outgoing, saved[..0]) by {
      assert forall m :: OwnersIn(saved[..0], m) == {};
    }
    hide AssembliesLawful, AssembliesIndexed, AssemblyLawful;
    for i := 0 to |saved|
      invariant AssembliesIndexed(net.assemblies, net.memberships, net.byMembers)
      invariant AssembliesLawful(net.cfg, net.cells, net.outgoing, saved[..i])
      invariant net.assemblies == AssembliesFrom(saved[..i])
    {
      if AssembliesLawful(net.cfg, net.cells, net.outgoing, saved) {
        AssemblyNeeded(net.State(), net.cfg, saved, i);
      }
      if AssemblyLawful(net.State(), net.cfg, saved[i]) {
        AssemblyAccepted(net.State(), net.cfg, saved, i);
      }
      assert saved[..i + 1][..i] == saved[..i];
      r := net.SeedAssembly(saved[i]);
      if r.Rejected? { return; }
    }
    assert saved[..|saved|] == saved;
    r := Accepted;
  }

  lemma AssembliesSound(n: Net, cfg: Config, saved: seq<Assembly>)
    requires cfg.Valid() && AssembliesLawful(cfg, n.cells, n.outgoing, saved)
    requires n.assemblies == AssembliesFrom(saved) && MembersIndexed(n.memberships, n.assemblies)
    ensures forall i | i in n.assemblies :: AssemblyShape(cfg, n.cells, n.assemblies[i]) && n.assemblies[i].id == i
    ensures forall m :: |Owners(n.memberships, m)| <= cfg.mMax
    ensures ConnectedInv(n, cfg)
  {
    hide AssembliesFrom, Connected, AssemblyShape;
    AssembliesFromRecords(saved);
    forall i | i in n.assemblies
      ensures AssemblyShape(cfg, n.cells, n.assemblies[i]) && Connected(Plain(n.outgoing), cfg, n.assemblies[i].members)
    {
      var j :| 0 <= j < |saved| && saved[j] == n.assemblies[i];
    }
    forall m ensures |Owners(n.memberships, m)| <= cfg.mMax {
      OwnersAreIn(n.memberships, saved, m);
    }
  }

  /** The assemblies saved from a lawful network are lawful over any adjacency with the same edges. */
  lemma SavedAssembliesLawful(n: Net, cfg: Config, out: Adjacency, saved: seq<Assembly>)
    requires cfg.Valid() && FullInv(n, cfg) && AssembliesSaved(n.assemblies, saved) && SameEdges(n.outgoing, out)
    ensures AssembliesLawful(cfg, n.cells, out, saved)
  {
    hide AssemblyShape, Connected, BudgetsOk, EdgesOk, EdgesIndexed, CellsOk;
    forall i | 0 <= i < |saved|
      ensures AssemblyShape(cfg, n.cells, saved[i]) && Connected(Plain(out), cfg, saved[i].members)
    {
      assert saved[i] in saved;
      SameLinks(n.outgoing, out, cfg);
      ConnectedMonotone(Plain(n.outgoing), Plain(out), cfg, saved[i].members);
    }
    forall i, j | 0 <= i < j < |saved| ensures saved[i].id != saved[j].id && saved[i].members != saved[j].members {
      assert AssemblyBefore()(saved[i], saved[j]);
      assert saved[i] in saved && saved[j] in saved;
    }
    forall m ensures |OwnersIn(saved, m)| <= cfg.mMax {
      forall c | c in OwnersIn(saved, m) ensures c in Owners(n.memberships, m) {
        var j :| 0 <= j < |saved| && m in saved[j].members && saved[j].id == c;
        assert saved[j] in saved;
      }
      SubsetCardinality(OwnersIn(saved, m), Owners(n.memberships, m));
    }
  }

  lemma SameLinks(out: Adjacency, other: Adjacency, cfg: Config)
    requires cfg.Valid() && SameEdges(out, other)
    ensures forall a, b | Linked(Plain(out), cfg, a, b) :: Linked(Plain(other), cfg, a, b)
  {
    forall a, b ensures Reciprocal(Plain(out), cfg, a, b, Local) == Reciprocal(Plain(other), cfg, a, b, Local) {
      assert EdgeAt(out, EdgeKey(a, b, Local)) == EdgeAt(other, EdgeKey(a, b, Local));
      assert EdgeAt(out, EdgeKey(b, a, Local)) == EdgeAt(other, EdgeKey(b, a, Local));
    }
  }

  lemma AssembliesRestored(assemblies: map<int, Assembly>, saved: seq<Assembly>)
    requires AssembliesSaved(assemblies, saved) && forall i | i in assemblies :: assemblies[i].id == i
    ensures AssembliesFrom(saved) == assemblies
  {
    AssembliesFromRecords(saved);
    var m := AssembliesFrom(saved);
    forall c | c in assemblies ensures c in m { assert assemblies[c] in saved; }
    forall c | c in m ensures c in assemblies && assemblies[c] == m[c] { assert m[c] in saved; }
  }
}
