/** What an accepted and published write set keeps of the structural and connectivity invariants. */
module Invariants {
  import opened FiniteSets
  import opened Options
  import opened CoreModel
  import opened Connectivity
  import opened NetworkState
  import opened Publication

  /** A published bucket is the prospective bucket the budget check looked at. */
  lemma PublishedBucket(n: Net, tx: Transaction, out: Adjacency, s: int)
    requires EdgesWritten(n.outgoing, out, tx.upserts, tx.deletes)
    ensures Bucket(out, s) == PostBucket(n.outgoing, tx.upserts, tx.deletes, s)
  {
    forall p: Port
      ensures var e := PostEdge(n.outgoing, tx.upserts, tx.deletes, EdgeKey(s, p.peer, p.scope));
              (p in Bucket(out, s) <==> e.Some?) && (p in Bucket(out, s) ==> Bucket(out, s)[p] == e.value)
    {
      assert EdgeAt(out, EdgeKey(s, p.peer, p.scope)) == PostEdge(n.outgoing, tx.upserts, tx.deletes, EdgeKey(s, p.peer, p.scope));
    }
    PostBucketIs(n.outgoing, tx.upserts, tx.deletes, s, Bucket(out, s));
  }

  lemma KeepsCells(n: Net, cfg: Config, tx: Transaction, m: Net)
    requires cfg.Valid() && CellsOk(cfg, n.cells) && CellsAccepted(n, cfg, tx)
    requires m.cells == PostCells(n.cells, cfg, tx)
    ensures CellsOk(cfg, m.cells)
    ensures forall c | c in n.cells && c in m.cells :: m.cells[c].budget == n.cells[c].budget && m.cells[c].territory == n.cells[c].territory
    ensures forall c | c in m.cells && c !in n.cells :: m.cells[c].budget == cfg.defaultBudget
    ensures forall c | CommittedIn(n.cells, c) && c !in tx.reclaims :: CommittedIn(m.cells, c)
  {
  }

  lemma KeepsEdges(n: Net, cfg: Config, tx: Transaction, m: Net)
    requires EdgesOk(cfg, n.outgoing) && EdgesAccepted(n, cfg, tx)
    requires EdgesWritten(n.outgoing, m.outgoing, tx.upserts, tx.deletes)
    ensures EdgesOk(cfg, m.outgoing)
  {
    forall k: EdgeKey | EdgeAt(m.outgoing, k).Some?
      ensures SynapseOk(cfg, k.source, EdgeAt(m.outgoing, k).value) && cfg.Eligible(k)
    {
      PostBucketLookup(n.outgoing, tx.upserts, tx.deletes, k);
      if k.source in Touched(tx.upserts, tx.deletes) {
        var b := PostBucket(n.outgoing, tx.upserts, tx.deletes, k.source);
        assert BucketAccepted(n.cells, cfg, k.source, b);
        assert k == EdgeKey(k.source, Port(k.target, k.scope).peer, Port(k.target, k.scope).scope);
      } else {
        assert EdgeAt(n.outgoing, k).Some?;
      }
    }
  }

  lemma KeepsBudgets(n: Net, cfg: Config, tx: Transaction, m: Net)
    requires cfg.Valid() && BudgetsOk(n.outgoing, n.cells) && EndpointsCommitted(n.outgoing, n.cells)
    requires EdgesAccepted(n, cfg, tx)
    requires EdgesWritten(n.outgoing, m.outgoing, tx.upserts, tx.deletes)
    requires forall c | c in n.cells && c in m.cells :: m.cells[c].budget == n.cells[c].budget
    requires forall c | c in m.cells && c !in n.cells :: m.cells[c].budget == cfg.defaultBudget
    ensures BudgetsOk(m.outgoing, m.cells)
  {
    forall s | s in m.cells ensures |Bucket(m.outgoing, s)| <= m.cells[s].budget {
      PublishedBucket(n, tx, m.outgoing, s);
      if s in Touched(tx.upserts, tx.deletes) {
        assert BucketAccepted(n.cells, cfg, s, PostBucket(n.outgoing, tx.upserts, tx.deletes, s));
      } else {
        UntouchedBucket(n.outgoing, tx.upserts, tx.deletes, s);
        if s !in n.cells {
          NoBucket(n, s);
        }
      }
    }
  }

  lemma NoBucket(n: Net, s: int)
    requires EndpointsCommitted(n.outgoing, n.cells) && s !in n.cells
    ensures Bucket(n.outgoing, s) == map[]
  {
    assert forall p | p in Bucket(n.outgoing, s) :: EdgeAt(n.outgoing, EdgeKey(s, p.peer, p.scope)).Some?;
  }

  lemma KeepsCounts(n: Net, cfg: Config, tx: Transaction, m: Net, c: int)
    requires MembersIndexed(n.memberships, n.assemblies) && |Owners(n.memberships, c)| <= cfg.mMax
    requires CountsAccepted(n, cfg, tx)
    requires MembersIndexed(m.memberships, m.assemblies) && m.assemblies == PostAssemblies(n.assemblies, tx)
    ensures Owners(m.memberships, c) == PostOwners(n, tx, c)
    ensures |Owners(m.memberships, c)| <= cfg.mMax
  {
    forall i ensures i in Owners(m.memberships, c) <==> i in PostOwners(n, tx, c) {
      assert i in Owners(m.memberships, c) <==> i in m.assemblies && c in m.assemblies[i].members;
      assert i in Owners(n.memberships, c) <==> i in n.assemblies && c in n.assemblies[i].members;
    }
    if exists i :: i in tx.assemblyUpserts && c in tx.assemblyUpserts[i].members {
    } else {
      SubsetCardinality(PostOwners(n, tx, c), Owners(n.memberships, c));
    }
  }

  lemma KeepsShapes(n: Net, cfg: Config, tx: Transaction, m: Net)
    requires cfg.Valid() && IndexInv(n) && Accepts(n, cfg, tx)
    requires forall i | i in n.assemblies :: AssemblyShape(cfg, n.cells, n.assemblies[i])
    requires m.assemblies == PostAssemblies(n.assemblies, tx)
    requires forall c | CommittedIn(n.cells, c) && c !in tx.reclaims ::
               CommittedIn(m.cells, c) && m.cells[c].territory == n.cells[c].territory
    ensures forall i | i in m.assemblies :: AssemblyShape(cfg, m.cells, m.assemblies[i])
  {
    AcceptedPublishable(n, cfg, tx);
    forall i | i in m.assemblies ensures AssemblyShape(cfg, m.cells, m.assemblies[i]) {
      if i in tx.assemblyUpserts {
        assert UpsertAccepted(n, cfg, tx, i);
      }
      assert AssemblyShape(cfg, n.cells, m.assemblies[i]);
      forall c | c in m.assemblies[i].members
        ensures CommittedIn(m.cells, c) && m.cells[c].territory == m.assemblies[i].territory
      {
        assert i in PostAssemblies(n.assemblies, tx);
      }
    }
  }

  /** Budgets, eligibility, shapes, the membership bound: every accepted commit keeps them. */
  lemma CommitKeepsStruct(n: Net, cfg: Config, tx: Transaction, m: Net)
    requires cfg.Valid() && IndexInv(n) && StructInv(n, cfg)
    requires Accepts(n, cfg, tx) && Published(n, cfg, tx, m)
    ensures StructInv(m, cfg)
  {
    KeepsCells(n, cfg, tx, m);
    KeepsEdges(n, cfg, tx, m);
    KeepsBudgets(n, cfg, tx, m);
    KeepsShapes(n, cfg, tx, m);
    forall c ensures |Owners(m.memberships, c)| <= cfg.mMax {
      KeepsCounts(n, cfg, tx, m, c);
    }
  }

  /** The view `commit` searches shows exactly the edges it publishes. */
  lemma PublishedLinks(n: Net, cfg: Config, tx: Transaction, out: Adjacency, a: int, b: int)
    requires cfg.Valid() && EdgesWritten(n.outgoing, out, tx.upserts, tx.deletes)
    ensures Linked(Plain(out), cfg, a, b) <==> Linked(CommitView(n.outgoing, tx), cfg, a, b)
  {
    assert Plain(out).Edge(EdgeKey(a, b, Local)) == CommitView(n.outgoing, tx).Edge(EdgeKey(a, b, Local));
    assert Plain(out).Edge(EdgeKey(b, a, Local)) == CommitView(n.outgoing, tx).Edge(EdgeKey(b, a, Local));
  }

  lemma PublishedConnected(n: Net, cfg: Config, tx: Transaction, out: Adjacency, members: set<int>)
    requires cfg.Valid() && EdgesWritten(n.outgoing, out, tx.upserts, tx.deletes)
    ensures Connected(Plain(out), cfg, members) <==> Connected(CommitView(n.outgoing, tx), cfg, members)
  {
    forall a, b ensures Linked(Plain(out), cfg, a, b) <==> Linked(CommitView(n.outgoing, tx), cfg, a, b) {
      PublishedLinks(n, cfg, tx, out, a, b);
    }
    if Connected(Plain(out), cfg, members) {
      ConnectedMonotone(Plain(out), CommitView(n.outgoing, tx), cfg, members);
    }
    if Connected(CommitView(n.outgoing, tx), cfg, members) {
      ConnectedMonotone(CommitView(n.outgoing, tx), Plain(out), cfg, members);
    }
  }

  /**
   `commit` searches only the assemblies it is given. All stored assemblies are connected
   afterwards exactly when the ones it was not given still are.
   */
  lemma CommitConnectedIff(n: Net, cfg: Config, tx: Transaction, m: Net)
    requires cfg.Valid() && IndexInv(n) && Accepts(n, cfg, tx) && Published(n, cfg, tx, m)
    ensures ConnectedInv(m, cfg) <==>
            forall i | i in n.assemblies && i !in Affected(tx) :: Connected(CommitView(n.outgoing, tx), cfg, n.assemblies[i].members)
  {
    forall i | i in m.assemblies
      ensures Connected(Plain(m.outgoing), cfg, m.assemblies[i].members) <==>
              Connected(CommitView(n.outgoing, tx), cfg, m.assemblies[i].members)
    {
      PublishedConnected(n, cfg, tx, m.outgoing, m.assemblies[i].members);
    }
    forall i | i in tx.assemblyUpserts ensures Connected(CommitView(n.outgoing, tx), cfg, m.assemblies[i].members) {
      assert UpsertAccepted(n, cfg, tx, i);
    }
    if ConnectedInv(m, cfg) {
      forall i | i in n.assemblies && i !in Affected(tx)
        ensures Connected(CommitView(n.outgoing, tx), cfg, n.assemblies[i].members)
      {
        assert m.assemblies[i] == n.assemblies[i];
      }
    }
  }

  // ----- what an accepted commit may break ----------------------------------------------

  /** Delete the LOCAL edges that lead from one member to the others, and nothing else. */
  function Cut(n: Net, members: set<int>, x: int): Transaction {
    Transaction(n.version, map[], {}, {}, map[], set b | b in members - {x} :: EdgeKey(x, b, Local), map[], {}, {})
  }

  /** Deletes alone leave part of a bucket. */
  lemma DeletesShrink(out: Adjacency, deletes: set<EdgeKey>, s: int)
    ensures var b := PostBucket(out, map[], deletes, s);
            |b| <= |Bucket(out, s)| && forall p | p in b :: EdgeAt(out, EdgeKey(s, p.peer, p.scope)) == Some(b[p])
  {
    var b := PostBucket(out, map[], deletes, s);
    SubsetCardinality(b.Keys, Bucket(out, s).Keys);
  }

  lemma CutAccepted(n: Net, cfg: Config, id: int, x: int)
    requires cfg.Valid() && IndexInv(n) && StructInv(n, cfg) && id in n.assemblies && x in n.assemblies[id].members
    ensures Accepts(n, cfg, Cut(n, n.assemblies[id].members, x))
  {
    hide EdgesIndexed, MembersIndexed, SetsIndexed, PostBucket, CellsOk, ActiveCover, IdsBelow, CellsKeyed;
    var tx := Cut(n, n.assemblies[id].members, x);
    DeletesShrink(n.outgoing, tx.deletes, x);
    assert BucketAccepted(n.cells, cfg, x, PostBucket(n.outgoing, tx.upserts, tx.deletes, x));
  }

  lemma CutIsolates(n: Net, cfg: Config, members: set<int>, x: int)
    requires cfg.Valid() && x in members && |members| >= 2
    ensures !Connected(CommitView(n.outgoing, Cut(n, members, x)), cfg, members)
  {
    var v := CommitView(n.outgoing, Cut(n, members, x));
    forall b | b in members && Linked(v, cfg, x, b) ensures b == x {
      LinkedFacts(v, cfg, x, b);
    }
    assert Closed(v, cfg, members, {x});
    assert {x} != members;
  }

  /** Any stored assembly with two members can be torn by an accepted commit that does not mention it. */
  lemma CommitDisconnects(n: Net, cfg: Config, id: int, x: int)
    requires cfg.Valid() && FullInv(n, cfg) && id in n.assemblies
    requires x in n.assemblies[id].members && |n.assemblies[id].members| >= 2
    ensures var tx := Cut(n, n.assemblies[id].members, x);
            Accepts(n, cfg, tx) && forall m | Published(n, cfg, tx, m) :: !ConnectedInv(m, cfg)
  {
    var tx := Cut(n, n.assemblies[id].members, x);
    CutAccepted(n, cfg, id, x);
    CutIsolates(n, cfg, n.assemblies[id].members, x);
    forall m | Published(n, cfg, tx, m) ensures !ConnectedInv(m, cfg) {
      CommitConnectedIff(n, cfg, tx, m);
      assert id !in Affected(tx);
    }
  }

  /** The commit cuts an assembly it was not given. */
  ghost predicate Tears(n: Net, cfg: Config, tx: Transaction)
    requires cfg.Valid()
  {
    exists i | i in n.assemblies && i !in Affected(tx) :: !Connected(CommitView(n.outgoing, tx), cfg, n.assemblies[i].members)
  }

  /** Acceptance alone protects connectivity exactly while no stored assembly has two members. */
  lemma CommitTearsIff(n: Net, cfg: Config)
    requires cfg.Valid() && FullInv(n, cfg)
    ensures (exists tx :: Accepts(n, cfg, tx) && Tears(n, cfg, tx)) <==> exists i | i in n.assemblies :: |n.assemblies[i].members| >= 2
  {
    hide Connected, Accepts, Cut;
    forall tx | Tears(n, cfg, tx) ensures exists i | i in n.assemblies :: |n.assemblies[i].members| >= 2 {
      var i :| i in n.assemblies && i !in Affected(tx) && !Connected(CommitView(n.outgoing, tx), cfg, n.assemblies[i].members);
      if |n.assemblies[i].members| == 1 { SingleConnected(CommitView(n.outgoing, tx), cfg, n.assemblies[i].members); }
    }
    forall i | i in n.assemblies && |n.assemblies[i].members| >= 2 ensures exists tx :: Accepts(n, cfg, tx) && Tears(n, cfg, tx) {
      var x := Pick(n.assemblies[i].members);
      CutAccepted(n, cfg, i, x);
      CutIsolates(n, cfg, n.assemblies[i].members, x);
      CutAffects(n, n.assemblies[i].members, x);
      assert Tears(n, cfg, Cut(n, n.assemblies[i].members, x));
    }
  }

  lemma CutAffects(n: Net, members: set<int>, x: int)
    ensures Affected(Cut(n, members, x)) == {}
  {
  }

  lemma SingleConnected(v: View, cfg: Config, members: set<int>)
    requires cfg.Valid() && |members| == 1
    ensures Connected(v, cfg, members)
  {
    forall part: set<int> | part <= members && part != {} && Closed(v, cfg, members, part) ensures part == members {
      Subsingle(part, members);
    }
  }

  lemma Subsingle(part: set<int>, members: set<int>)
    requires part <= members && part != {} && |members| == 1
    ensures part == members
  {
    var y := Pick(part);
    assert members - {y} == {} by { assert |members - {y}| == 0; }
  }
}
