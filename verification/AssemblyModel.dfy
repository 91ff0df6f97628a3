/**
 The assemblies a tick would leave behind, as a value: what every stage of maintenance,
 growth and formation keeps of it, and why `commit` then accepts the result.
 */
module AssemblyModel {
  import opened FiniteSets
  import opened CoreModel
  import opened Connectivity
  import opened Components
  import opened NetworkState
  import opened Arbitration

  /** Snapshot assemblies under the lazy overlay of copied assemblies and deletions. */
  function Live(n: Net, current: map<int, Assembly>, deletes: set<int>): map<int, Assembly> {
    (n.assemblies - deletes) + current
  }

  function LiveOwners(live: map<int, Assembly>, m: int): set<int> {
    set i | i in live && m in live[i].members
  }

  ghost predicate DistinctLive(live: map<int, Assembly>) {
    forall i, j | i in live && j in live && i != j :: live[i].members != live[j].members
  }

  ghost predicate BoundedLive(cfg: Config, live: map<int, Assembly>) {
    forall m :: |LiveOwners(live, m)| <= cfg.mMax
  }

  /** An assembly `commit` will find well shaped and connected. */
  ghost predicate Sound(n: Net, cfg: Config, v: View, a: Assembly)
    requires cfg.Valid()
  {
    AssemblyShape(cfg, n.cells, a) && Connected(v, cfg, a.members)
  }

  ghost predicate SoundLive(n: Net, cfg: Config, v: View, live: map<int, Assembly>)
    requires cfg.Valid()
  {
    forall i | i in live :: live[i].id == i && Sound(n, cfg, v, live[i])
  }

  /** A surviving assembly keeps at least one of its old members. */
  ghost predicate Overlapping(n: Net, live: map<int, Assembly>) {
    forall i | i in live && i in n.assemblies :: live[i].members * n.assemblies[i].members != {}
  }

  ghost predicate LiveOk(n: Net, cfg: Config, v: View, live: map<int, Assembly>)
    requires cfg.Valid()
  {
    && SoundLive(n, cfg, v, live)
    && DistinctLive(live)
    && BoundedLive(cfg, live)
  }

  // ----- links imply usable cells -------------------------------------------------------

  /** The view of a tick whose edge changes `commit` accepts. */
  ghost predicate TickView(n: Net, cfg: Config, v: View)
    requires cfg.Valid()
  {
    && IndexInv(n) && StructInv(n, cfg)
    && v.out == n.outgoing && ChangesOk(n, cfg, v.upserts, v.deletes)
  }

  lemma LinkedCells(n: Net, cfg: Config, v: View, a: int, b: int)
    requires cfg.Valid() && TickView(n, cfg, v) && Linked(v, cfg, a, b)
    ensures CommittedIn(n.cells, a) && CommittedIn(n.cells, b) && n.cells[a].territory == n.cells[b].territory
    ensures a >= 0 && b >= 0 && a != b
  {
    LinkedFacts(v, cfg, a, b);
    var k := EdgeKey(a, b, Local);
    if k in v.upserts {
      assert UpsertOk(n, cfg, k, v.upserts[k]);
    } else {
      assert EdgeAt(n.outgoing, k).Some?;
    }
    assert cfg.Eligible(k);
  }

  /** All cells of a component with a link are committed and share a territory. */
  lemma ComponentCells(n: Net, cfg: Config, v: View, seed: int, other: int, members: set<int>)
    requires cfg.Valid() && TickView(n, cfg, v)
    requires Component(v, cfg, seed, members) && Linked(v, cfg, seed, other)
    ensures CommittedIn(n.cells, seed)
    ensures forall m | m in members :: m >= 0 && CommittedIn(n.cells, m) && n.cells[m].territory == n.cells[seed].territory
  {
    hide TickView;
    LinkedCells(n, cfg, v, seed, other);
    var part := set m | m in members && m >= 0 && CommittedIn(n.cells, m) && n.cells[m].territory == n.cells[seed].territory;
    forall a, b | a in part && Linked(v, cfg, a, b) ensures b in part {
      LinkedCells(n, cfg, v, a, b);
    }
    assert Sealed(v, cfg, part);
  }

  // ----- growth -------------------------------------------------------------------------

  lemma GrownSound(n: Net, cfg: Config, v: View, a: Assembly, c: int, m: int)
    requires cfg.Valid() && TickView(n, cfg, v) && Sound(n, cfg, v, a)
    requires c in n.cells && m in a.members && Linked(v, cfg, c, m) && n.cells[c].territory == a.territory
    requires Admissible(cfg, a.members + {c})
    ensures Sound(n, cfg, v, Assembly(a.id, a.territory, a.members + {c}))
  {
    hide TickView;
    LinkedCells(n, cfg, v, c, m);
    ConnectedGrow(v, cfg, a.members, c, m);
    SubsetCardinality(a.members, a.members + {c});
  }

  lemma GrowOwners(live: map<int, Assembly>, id: int, a: Assembly, c: int, m: int)
    requires id in live && c !in live[id].members && a.members == live[id].members + {c}
    ensures |LiveOwners(live[id := a], m)| == |LiveOwners(live, m)| + (if m == c then 1 else 0)
  {
    if m == c {
      assert LiveOwners(live[id := a], m) == LiveOwners(live, m) + {id};
    } else {
      assert LiveOwners(live[id := a], m) == LiveOwners(live, m);
    }
  }

  lemma GrowLive(n: Net, cfg: Config, v: View, live: map<int, Assembly>, id: int, a: Assembly, c: int)
    requires cfg.Valid() && LiveOk(n, cfg, v, live)
    requires id in live && c !in live[id].members && a.members == live[id].members + {c} && a.id == id
    requires Sound(n, cfg, v, a)
    requires forall j | j in live :: live[j].members != a.members
    requires |LiveOwners(live, c)| < cfg.mMax
    ensures LiveOk(n, cfg, v, live[id := a])
  {
    var next := live[id := a];
    forall m ensures |LiveOwners(next, m)| <= cfg.mMax {
      GrowOwners(live, id, a, c, m);
    }
  }

  // ----- formation ----------------------------------------------------------------------

  lemma FormOwners(live: map<int, Assembly>, id: int, a: Assembly, m: int)
    requires id !in live
    ensures |LiveOwners(live[id := a], m)| == |LiveOwners(live, m)| + (if m in a.members then 1 else 0)
  {
    if m in a.members {
      assert LiveOwners(live[id := a], m) == LiveOwners(live, m) + {id};
    } else {
      assert LiveOwners(live[id := a], m) == LiveOwners(live, m);
    }
  }

  lemma FormLive(n: Net, cfg: Config, v: View, live: map<int, Assembly>, id: int, a: Assembly)
    requires cfg.Valid() && LiveOk(n, cfg, v, live)
    requires id !in live && a.id == id && Sound(n, cfg, v, a)
    requires forall j | j in live :: live[j].members != a.members
    requires forall m | m in a.members :: |LiveOwners(live, m)| < cfg.mMax
    ensures LiveOk(n, cfg, v, live[id := a])
  {
    var next := live[id := a];
    forall m ensures |LiveOwners(next, m)| <= cfg.mMax {
      FormOwners(live, id, a, m);
    }
  }

  // ----- agreement with commit ----------------------------------------------------------

  lemma LiveIsPost(n: Net, tx: Transaction)
    ensures Live(n, tx.assemblyUpserts, tx.assemblyDeletes) == PostAssemblies(n.assemblies, tx)
  {
  }

  lemma LiveOwnersArePost(n: Net, tx: Transaction, m: int)
    requires MembersIndexed(n.memberships, n.assemblies)
    ensures LiveOwners(PostAssemblies(n.assemblies, tx), m) == PostOwners(n, tx, m)
  {
    forall i ensures i in LiveOwners(PostAssemblies(n.assemblies, tx), m) <==> i in PostOwners(n, tx, m) {
      assert i in Owners(n.memberships, m) <==> i in n.assemblies && m in n.assemblies[i].members;
    }
  }

  /**
   The producers' overlay and the validator's indexes agree: whatever leaves a sound,
   duplicate-free and bounded set of live assemblies passes every assembly check of commit.
   */
  lemma LiveAccepted(n: Net, cfg: Config, tx: Transaction)
    requires cfg.Valid() && IndexInv(n)
    requires tx.upserts.Keys !! tx.deletes
    requires LiveOk(n, cfg, View(n.outgoing, tx.upserts, tx.deletes), Live(n, tx.assemblyUpserts, tx.assemblyDeletes))
    ensures AssembliesAccepted(n, cfg, tx)
  {
    var live := Live(n, tx.assemblyUpserts, tx.assemblyDeletes);
    assert CommitView(n.outgoing, tx) == View(n.outgoing, tx.upserts, tx.deletes);
    forall i | i in tx.assemblyUpserts ensures UpsertAccepted(n, cfg, tx, i) {
      var a := tx.assemblyUpserts[i];
      assert live[i] == a;
      if a.members in n.byMembers && n.byMembers[a.members] !in Affected(tx) {
        var j := n.byMembers[a.members];
        assert j in live && live[j].members == a.members;
      }
    }
    forall i, j | i in tx.assemblyUpserts && j in tx.assemblyUpserts && i != j
      ensures tx.assemblyUpserts[i].members != tx.assemblyUpserts[j].members
    {
      assert live[i].members != live[j].members;
    }
    forall i, m | i in tx.assemblyUpserts && m in tx.assemblyUpserts[i].members ensures |PostOwners(n, tx, m)| <= cfg.mMax {
      LiveIsPost(n, tx);
      LiveOwnersArePost(n, tx, m);
    }
  }

  /** And the assemblies it leaves alone stay connected, so the published state is. */
  lemma LiveConnected(n: Net, cfg: Config, tx: Transaction, i: int)
    requires cfg.Valid() && tx.upserts.Keys !! tx.deletes
    requires LiveOk(n, cfg, View(n.outgoing, tx.upserts, tx.deletes), Live(n, tx.assemblyUpserts, tx.assemblyDeletes))
    requires i in n.assemblies && i !in Affected(tx)
    ensures Connected(CommitView(n.outgoing, tx), cfg, n.assemblies[i].members)
  {
    assert CommitView(n.outgoing, tx) == View(n.outgoing, tx.upserts, tx.deletes);
    assert Live(n, tx.assemblyUpserts, tx.assemblyDeletes)[i] == n.assemblies[i];
  }
}
