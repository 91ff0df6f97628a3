/**
 The sparse network: canonical state updated in place by one atomic transaction a tick, and
 by the validated administrative constructors the loader uses.
 */
module Network {
  import opened FiniteSets
  import opened Options
  import opened CoreModel
  import opened Connectivity
  import opened NetworkState
  import opened Publication
  import opened CommitChecks
  import opened IndexUpdates
  import opened Validation

  datatype Outcome = Accepted | Rejected

  class SparseNetwork {
    const cfg: Config
    var cells: map<int, Cell>
    var outgoing: Adjacency
    var incoming: Incoming
    var assemblies: map<int, Assembly>
    var memberships: map<int, set<int>>
    var byMembers: map<set<int>, int>
    var active: set<int>
    var version: int
    var tick: int
    var nextAssembly: int

    function State(): Net
      reads this
    {
      Net(cells, outgoing, incoming, assemblies, memberships, byMembers, active, version, tick, nextAssembly)
    }

    ghost predicate Valid()
      reads this
    {
      cfg.Valid() && IndexInv(State())
    }

    constructor (config: Config)
      requires config.Valid()
      ensures cfg == config && State() == EmptyNet && Valid()
      ensures FullInv(State(), cfg)
    {
      cfg := config;
      cells, outgoing, incoming := map[], map[], map[];
      assemblies, memberships, byMembers := map[], map[], map[];
      active, version, tick, nextAssembly := {}, 0, 0, 0;
    }
  
    // ----- commit ----------------------------------------------------------------------

    /** Validate the complete write set, then publish it: all of it or nothing. */
    method Commit(tx: Transaction) returns (r: Outcome)
      requires Valid()
      modifies this
      ensures Valid()
      ensures r.Accepted? <==> old(Accepts(State(), cfg, tx))
      ensures r.Accepted? ==> Published(old(State()), cfg, tx, State())
      ensures r.Rejected? ==> State() == old(State())
    {
      var ok := Validate(State(), cfg, tx);
      if !ok {
        return Rejected;
      }
      Publish(tx);
      return Accepted;
    }

    /** The canonical-order publication of an accepted write set. */
    method Publish(tx: Transaction)
      requires Valid() && Accepts(State(), cfg, tx)
      modifies this
      ensures Valid() && Published(old(State()), cfg, tx, State())
    {
      ghost var before := State();
      AcceptedPublishable(before, cfg, tx);
      PublishRecords(tx);
      nextAssembly := NextAbove(nextAssembly, tx.assemblyUpserts.Keys);
      version, tick := version + 1, tick + 1;
      PublishedWhole(before, cfg, tx, State());
    }

    method PublishRecords(tx: Transaction)
      requires EdgesIndexed(outgoing, incoming) && AssembliesIndexed(assemblies, memberships, byMembers)
      requires Publishable(State(), tx)
      modifies this`cells, this`active, this`outgoing, this`incoming, this`assemblies, this`memberships, this`byMembers
      ensures cells == PostCells(old(cells), cfg, tx) && active == PostActive(old(cells), cfg, old(active), tx)
      ensures EdgesIndexed(outgoing, incoming) && EdgesWritten(old(outgoing), outgoing, tx.upserts, tx.deletes)
      ensures AssembliesIndexed(assemblies, memberships, byMembers)
      ensures assemblies == PostAssemblies(old(assemblies), tx)
    {
      PublishCommits(tx);
      PublishEdges(tx);
      PublishAssemblies(tx);
      PublishActivation(tx);
      OwnersNotReclaimed(memberships, assemblies, tx.reclaims);
      PublishReclaims(tx);
    }

    method PublishCommits(tx: Transaction)
      modifies this`cells
      ensures cells == CommittedCells(old(cells), cfg, tx.commits)
    {
      ghost var before := cells;
      var todo := tx.commits;
      while todo != {}
        invariant todo <= tx.commits
        invariant cells == CommittedCells(before, cfg, tx.commits - todo)
        decreases |todo|
      {
        var c := Min(todo);
        CommitStep(before, cfg, tx.commits, todo, c);
        if c !in cells {
          cells := cells[c := Cell(c, cfg.topology.territoryOf(c), true, 0.0, cfg.defaultBudget)];
        } else if !cells[c].committed {
          cells := cells[c := cells[c].(committed := true, activation := 0.0)];
        }
        todo := todo - {c};
      }
      assert tx.commits - todo == tx.commits;
    }

    method PublishEdges(tx: Transaction)
      requires EdgesIndexed(outgoing, incoming) && KeysMatch(tx.upserts)
      modifies this`outgoing, this`incoming
      ensures EdgesIndexed(outgoing, incoming)
      ensures EdgesWritten(old(outgoing), outgoing, tx.upserts, tx.deletes)
    {
      ghost var before := outgoing;
      var todo := tx.deletes;
      while todo != {}
        invariant todo <= tx.deletes
        invariant EdgesIndexed(outgoing, incoming)
        invariant EdgesWritten(before, outgoing, map[], tx.deletes - todo)
        decreases |todo|
      {
        var k :| k in todo;
        ghost var out := outgoing;
        if EdgeAt(outgoing, k).Some? {
          DropEdge(outgoing, incoming, k);
          outgoing, incoming := DropOutgoing(outgoing, k), DropIncoming(incoming, k);
        }
        DeleteWritten(before, out, outgoing, tx.deletes, todo, k);
        todo := todo - {k};
      }
      assert tx.deletes - todo == tx.deletes;
      var left := tx.upserts.Keys;
      assert tx.upserts - left == map[];
      while left != {}
        invariant left <= tx.upserts.Keys
        invariant EdgesIndexed(outgoing, incoming)
        invariant EdgesWritten(before, outgoing, tx.upserts - left, tx.deletes)
        decreases |left|
      {
        var k :| k in left;
        ghost var out := outgoing;
        PutEdge(outgoing, incoming, k, tx.upserts[k]);
        outgoing, incoming := PutOutgoing(outgoing, k, tx.upserts[k]), PutIncoming(incoming, k);
        UpsertWritten(before, out, outgoing, tx.upserts, left, tx.deletes, k);
        left := left - {k};
      }
      assert tx.upserts - left == tx.upserts;
    }

    method PublishAssemblies(tx: Transaction)
      requires AssembliesIndexed(assemblies, memberships, byMembers)
      requires SetsFree(byMembers, tx)
      modifies this`assemblies, this`memberships, this`byMembers
      ensures AssembliesIndexed(assemblies, memberships, byMembers)
      ensures assemblies == PostAssemblies(old(assemblies), tx)
    {
      AcceptedEnrollable(assemblies, byMembers, tx);
      WithdrawAll(tx);
      EnrollAll(tx.assemblyUpserts);
    }

    method WithdrawAll(tx: Transaction)
      requires AssembliesIndexed(assemblies, memberships, byMembers)
      modifies this`assemblies, this`memberships, this`byMembers
      ensures AssembliesIndexed(assemblies, memberships, byMembers)
      ensures assemblies == old(assemblies) - Affected(tx)
    {
      hide AssembliesIndexed, Affected;
      ghost var before := assemblies;
      var ids := Affected(tx);
      var todo := ids;
      WithdrawStart(before, ids);
      while todo != {}
        invariant todo <= ids
        invariant AssembliesIndexed(assemblies, memberships, byMembers)
        invariant assemblies == before - (ids - todo)
        decreases |todo|
      {
        var id := Min(todo);
        WithdrawStep(before, ids, todo, id);
        WithdrawOne(id);
        todo := todo - {id};
      }
      assert ids - todo == ids;
    }

    method WithdrawOne(id: int)
      requires AssembliesIndexed(assemblies, memberships, byMembers)
      modifies this`assemblies, this`memberships, this`byMembers
      ensures AssembliesIndexed(assemblies, memberships, byMembers)
      ensures assemblies == old(assemblies) - {id}
    {
      if id in assemblies {
        var members := assemblies[id].members;
        WithdrawAssembly(memberships, byMembers, assemblies, id);
        assemblies := assemblies - {id};
        byMembers := byMembers - {members};
        memberships := Withdraw(memberships, members, id);
      } else {
        assert assemblies - {id} == assemblies;
      }
    }

    method EnrollAll(ups: map<int, Assembly>)
      requires AssembliesIndexed(assemblies, memberships, byMembers)
      requires Enrollable(assemblies, ups)
      modifies this`assemblies, this`memberships, this`byMembers
      ensures AssembliesIndexed(assemblies, memberships, byMembers)
      ensures assemblies == old(assemblies) + ups
    {
      ghost var whole := assemblies + ups;
      var rest := ups;
      while rest.Keys != {}
        invariant AssembliesIndexed(assemblies, memberships, byMembers)
        invariant Enrollable(assemblies, rest)
        invariant assemblies + rest == whole
        decreases |rest.Keys|
      {
        var id := Min(rest.Keys);
        EnrollNext(assemblies, rest, byMembers, id);
        EnrollOne(id, rest[id]);
        rest := rest - {id};
      }
      assert assemblies + rest == assemblies;
    }

    method EnrollOne(id: int, a: Assembly)
      requires AssembliesIndexed(assemblies, memberships, byMembers)
      requires id !in assemblies && a.members !in byMembers
      modifies this`assemblies, this`memberships, this`byMembers
      ensures AssembliesIndexed(assemblies, memberships, byMembers)
      ensures assemblies == old(assemblies)[id := a]
    {
      EnrollAssembly(memberships, byMembers, assemblies, id, a);
      assemblies := assemblies[id := a];
      byMembers := byMembers[a.members := id];
      memberships := Enroll(memberships, a.members, id);
    }

    method PublishActivation(tx: Transaction)
      modifies this`cells, this`active
      ensures cells == ActivatedCells(old(cells), tx.activation)
      ensures active == ActivatedIds(old(cells), old(active), tx.activation)
    {
      ghost var before, active0 := cells, active;
      var todo := tx.activation.Keys;
      assert tx.activation - todo == map[];
      while todo != {}
        invariant todo <= tx.activation.Keys
        invariant cells == ActivatedCells(before, tx.activation - todo)
        invariant active == ActivatedIds(before, active0, tx.activation - todo)
        decreases |todo|
      {
        var c := Min(todo);
        ActivateStep(before, active0, tx.activation, todo, c);
        if c in cells && cells[c].committed {
          cells := cells[c := cells[c].(activation := tx.activation[c])];
          active := if tx.activation[c] > 0.0 then active + {c} else active - {c};
        }
        todo := todo - {c};
      }
      assert tx.activation - todo == tx.activation;
    }

    method PublishReclaims(tx: Transaction)
      requires EdgesIndexed(outgoing, incoming)
      requires forall k: EdgeKey | EdgeAt(outgoing, k).Some? :: k.source !in tx.reclaims && k.target !in tx.reclaims
      requires memberships.Keys !! tx.reclaims
      modifies this`cells, this`active, this`outgoing, this`incoming, this`memberships
      ensures cells == old(cells) - tx.reclaims && active == old(active) - tx.reclaims
      ensures EdgesIndexed(outgoing, incoming) && memberships == old(memberships)
      ensures outgoing.Keys !! tx.reclaims && incoming.Keys !! tx.reclaims
      ensures forall k: EdgeKey {:trigger EdgeAt(outgoing, k)} :: EdgeAt(outgoing, k) == EdgeAt(old(outgoing), k)
    {
      ghost var cells0, active0, out := cells, active, outgoing;
      var todo := tx.reclaims;
      assert cells - (tx.reclaims - todo) == cells && active - (tx.reclaims - todo) == active;
      while todo != {}
        invariant todo <= tx.reclaims
        invariant cells == cells0 - (tx.reclaims - todo) && active == active0 - (tx.reclaims - todo)
        invariant EdgesIndexed(outgoing, incoming) && memberships == old(memberships)
        invariant forall k: EdgeKey {:trigger EdgeAt(outgoing, k)} :: EdgeAt(outgoing, k) == EdgeAt(out, k)
        invariant outgoing.Keys !! (tx.reclaims - todo) && incoming.Keys !! (tx.reclaims - todo)
        decreases |todo|
      {
        var c := Min(todo);
        ReclaimStep(cells0, active0, tx.reclaims, todo, c);
        DropCell(outgoing, incoming, c);
        assert memberships - {c} == memberships;
        cells, active := cells - {c}, active - {c};
        outgoing, incoming := outgoing - {c}, incoming - {c};
        memberships := memberships - {c};
        todo := todo - {c};
      }
      assert tx.reclaims - todo == tx.reclaims;
    }

    // ----- administrative seeding ------------------------------------------------------

    /** A cell is stored when its id, its fields and its territory are lawful. */
    method SeedCell(cell: Cell) returns (r: Outcome)
      modifies this`cells, this`active
      ensures r.Accepted? <==> CellLawful(cfg, cell)
      ensures r.Accepted? ==> cells == old(cells)[cell.id := cell]
                              && active == old(active) + (if cell.activation > 0.0 then {cell.id} else {})
      ensures r.Rejected? ==> cells == old(cells) && active == old(active)
    {
      if !cfg.ValidId(cell.id) || !ValidCell(cfg, cell) || cell.territory != cfg.topology.territoryOf(cell.id) {
        return Rejected;
      }
      cells := cells[cell.id := cell];
      if cell.activation > 0.0 {
        active := active + {cell.id};
      } else {
        assert active + {} == active;
      }
      return Accepted;
    }

    /** A synapse is stored between committed cells, once, and within the budget of its source. */
    method SeedSynapse(source: int, edge: Synapse) returns (r: Outcome)
      requires EdgesIndexed(outgoing, incoming)
      modifies this`outgoing, this`incoming
      ensures EdgesIndexed(outgoing, incoming)
      ensures r.Accepted? <==> old(SynapseLawful(cells, outgoing, cfg, source, edge))
      ensures r.Rejected? ==> outgoing == old(outgoing) && incoming == old(incoming)
      ensures r.Accepted? ==> forall k: EdgeKey {:trigger EdgeAt(outgoing, k)} ::
                EdgeAt(outgoing, k) == if k == EdgeKey(source, edge.target, edge.scope) then Some(edge) else EdgeAt(old(outgoing), k)
    {
      if source !in cells || edge.target !in cells || !cells[source].committed || !cells[edge.target].committed {
        return Rejected;
      }
      var k := EdgeKey(source, edge.target, edge.scope);
      if !ValidSynapse(cfg, source, edge) || !cfg.Eligible(k) {
        return Rejected;
      }
      var edges := Bucket(outgoing, source);
      if Port(edge.target, edge.scope) in edges || |edges| >= cells[source].budget {
        return Rejected;
      }
      PutEdge(outgoing, incoming, k, edge);
      outgoing, incoming := PutOutgoing(outgoing, k, edge), PutIncoming(incoming, k);
      return Accepted;
    }

    /** An assembly is stored when it is new, well shaped, connected and within the membership bound. */
    method SeedAssembly(a: Assembly) returns (r: Outcome)
      requires cfg.Valid() && AssembliesIndexed(assemblies, memberships, byMembers)
      modifies this`assemblies, this`memberships, this`byMembers, this`nextAssembly
      ensures AssembliesIndexed(assemblies, memberships, byMembers)
      ensures r.Accepted? <==> old(AssemblyLawful(State(), cfg, a))
      ensures r.Rejected? ==> State() == old(State())
      ensures r.Accepted? ==> assemblies == old(assemblies)[a.id := a]
                              && nextAssembly == if old(nextAssembly) > a.id then old(nextAssembly) else a.id + 1
    {
      var shaped := CheckShape(cfg, cells, a);
      if !shaped || a.id in assemblies || a.members in byMembers {
        return Rejected;
      }
      if exists m :: m in a.members && |Owners(memberships, m)| >= cfg.mMax {
        return Rejected;
      }
      var linked := SearchConnected(Plain(outgoing), cfg, a.members);
      if !linked {
        return Rejected;
      }
      EnrollOne(a.id, a);
      nextAssembly := if nextAssembly > a.id then nextAssembly else a.id + 1;
      return Accepted;
    }
  }

  ghost predicate CellLawful(cfg: Config, cell: Cell) {
    cfg.ValidId(cell.id) && CellOk(cfg, cell) && cell.territory == cfg.topology.territoryOf(cell.id)
  }

  ghost predicate SynapseLawful(cells: map<int, Cell>, outgoing: Adjacency, cfg: Config, source: int, edge: Synapse) {
    var k := EdgeKey(source, edge.target, edge.scope);
    && CommittedIn(cells, source) && CommittedIn(cells, edge.target)
    && SynapseOk(cfg, source, edge) && cfg.Eligible(k)
    && EdgeAt(outgoing, k).None? && |Bucket(outgoing, source)| < cells[source].budget
  }

  ghost predicate AssemblyLawful(n: Net, cfg: Config, a: Assembly)
    requires cfg.Valid()
  {
    && AssemblyShape(cfg, n.cells, a) && a.id !in n.assemblies && a.members !in n.byMembers
    && (forall m | m in a.members :: |Owners(n.memberships, m)| < cfg.mMax)
    && Connected(Plain(n.outgoing), cfg, a.members)
  }
}
