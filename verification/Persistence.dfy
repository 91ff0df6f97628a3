/** Saving and loading give the network back. */
module Persistence {
  // Loading replays a record through the validated constructors. It is accepted exactly when
  // the record is lawful, and the record of a network that ticks can reach always is: the
  // round trip gives the network back.

  import opened CoreModel
  import opened Connectivity
  import opened NetworkState
  import opened IndexUpdates
  import opened Network
  import opened Engine
  import opened SavedState
  import opened RecordLoading
  import opened AssemblyLoading

  /** Lawful lines throughout; assemblies are checked over the synapses of the record. */
  ghost predicate RecordLawful(cfg: Config, s: Saved)
    requires cfg.Valid()
  {
    && CellsLawful(cfg, s.cells)
    && SynapsesLawful(cfg, CellsFrom(s.cells), s.synapses)
    && AssembliesLawful(cfg, CellsFrom(s.cells), AdjacencyFrom(s.synapses), s.assemblies)
  }

  /** `next_assembly_id` is taken from the record unchecked: it is sound when it exceeds every id. */
  predicate NextSound(s: Saved) {
    s.next >= 0 && forall i | 0 <= i < |s.assemblies| :: s.assemblies[i].id < s.next
  }

  ghost predicate LoadedIs(m: Net, s: Saved) {
    && m.cells == CellsFrom(s.cells) && m.active == ActiveFrom(s.cells)
    && Reads(m.outgoing, s.synapses)
    && m.assemblies == AssembliesFrom(s.assemblies)
    && m.version == s.version && m.tick == s.tick && m.nextAssembly == s.next
  }

  /**
   Load a record into a fresh network. The loaded network meets every invariant exactly
   when the recorded next assembly id is above every stored id.
   */
  method Load(config: Config, s: Saved) returns (r: Outcome, net: SparseNetwork)
    requires config.Valid()
    ensures fresh(net) && net.cfg == config
    ensures r.Accepted? <==> RecordLawful(config, s)
    ensures r.Accepted? ==> LoadedIs(net.State(), s)
    ensures r.Accepted? ==> (FullInv(net.State(), config) <==> NextSound(s))
  {
    hide CellsLawful, SynapsesLawful, AssembliesLawful, CellsFrom, ActiveFrom, AssembliesFrom, AdjacencyFrom;
    hide EdgesIndexed, FullInv, AssembliesIndexed, Reads, CellsOk;
    net := new SparseNetwork(config);
    r := LoadCells(net, s.cells);
    if r.Rejected? { return; }
    CellsFromOk(config, s.cells);
    r := LoadSynapses(net, s.synapses);
    if r.Rejected? { return; }
    r := LoadAssemblies(net, s.assemblies);
    AdjacencyReads(s.synapses);
    if SynapsesLawful(config, net.cells, s.synapses) {
      SameReads(config, net.cells, net.outgoing, AdjacencyFrom(s.synapses), s);
    }
    if r.Rejected? { return; }
    net.version, net.tick, net.nextAssembly := s.version, s.tick, s.next;
    LoadedSound(net.State(), config, s);
  }

  lemma SameReads(cfg: Config, cells: map<int, Cell>, out: Adjacency, other: Adjacency, s: Saved)
    requires cfg.Valid() && Reads(out, s.synapses) && Reads(other, s.synapses)
    ensures AssembliesLawful(cfg, cells, out, s.assemblies) <==> AssembliesLawful(cfg, cells, other, s.assemblies)
  {
    hide Connected, AssemblyShape;
    forall k: EdgeKey ensures EdgeAt(out, k) == EdgeAt(other, k) {
      assert EdgeAt(out, k) == Lookup(s.synapses, k);
    }
    SameLinks(out, other, cfg);
    SameLinks(other, out, cfg);
    forall i | 0 <= i < |s.assemblies|
      ensures Connected(Plain(out), cfg, s.assemblies[i].members) <==> Connected(Plain(other), cfg, s.assemblies[i].members)
    {
      if Connected(Plain(out), cfg, s.assemblies[i].members) {
        ConnectedMonotone(Plain(out), Plain(other), cfg, s.assemblies[i].members);
      }
      if Connected(Plain(other), cfg, s.assemblies[i].members) {
        ConnectedMonotone(Plain(other), Plain(out), cfg, s.assemblies[i].members);
      }
    }
  }

  lemma LoadedSound(m: Net, cfg: Config, s: Saved)
    requires cfg.Valid() && LoadedIs(m, s) && RecordLawful(cfg, s)
    requires EdgesIndexed(m.outgoing, m.incoming) && AssembliesIndexed(m.assemblies, m.memberships, m.byMembers)
    ensures FullInv(m, cfg) <==> NextSound(s)
  {
    hide CellsLawful, SynapsesLawful, AssembliesLawful, AssembliesFrom, CellsFrom, ActiveFrom, EdgesIndexed;
    hide Reads, EdgesOk, BudgetsOk, EndpointsCommitted, CellsOk, MembersIndexed, SetsIndexed;
    AdjacencyReads(s.synapses);
    SameReads(cfg, m.cells, m.outgoing, AdjacencyFrom(s.synapses), s);
    CellsFromOk(cfg, s.cells);
    SynapsesSound(cfg, m.cells, m.outgoing, m.incoming, s.synapses);
    AssembliesSound(m, cfg, s.assemblies);
    NextSoundIff(m, cfg, s);
    MembersCommitted(m, cfg);
  }

  lemma MembersCommitted(m: Net, cfg: Config)
    requires forall i | i in m.assemblies :: AssemblyShape(cfg, m.cells, m.assemblies[i])
    ensures forall i, c | i in m.assemblies && c in m.assemblies[i].members :: CommittedIn(m.cells, c)
  {
  }

  lemma NextSoundIff(m: Net, cfg: Config, s: Saved)
    requires m.assemblies == AssembliesFrom(s.assemblies) && m.nextAssembly == s.next
    requires forall i | i in m.assemblies :: AssemblyShape(cfg, m.cells, m.assemblies[i]) && m.assemblies[i].id == i
    ensures IdsBelow(m.assemblies, m.nextAssembly) <==> NextSound(s)
  {
    hide AssembliesFrom;
    AssembliesFromRecords(s.assemblies);
    forall i | i in m.assemblies ensures 0 <= i && (NextSound(s) ==> i < s.next) {
      var j :| 0 <= j < |s.assemblies| && s.assemblies[j] == m.assemblies[i];
      assert AssemblyShape(cfg, m.cells, m.assemblies[i]);
    }
    forall j | 0 <= j < |s.assemblies| ensures s.assemblies[j].id in m.assemblies {
      assert s.assemblies[j] in s.assemblies;
    }
  }

  // ----- the round trip -----------------------------------------------------------------

  /** The record of a lawful network is lawful: no constructor refuses a line of it. */
  lemma SavedLawful(n: Net, cfg: Config, s: Saved)
    requires cfg.Valid() && FullInv(n, cfg) && Saves(n, s)
    ensures RecordLawful(cfg, s) && NextSound(s)
  {
    hide SynapsesLawful, AssembliesLawful, SynapsesSaved, AssembliesSaved, EdgesOk, BudgetsOk, EdgesIndexed;
    hide ConnectedInv, MembersIndexed, SetsIndexed, EndpointsCommitted, CellsFrom, AssembliesFrom;
    hide AdjacencyFrom, Reads, Connected, AssemblyShape;
    CellsRestored(n.cells, s.cells);
    forall i | 0 <= i < |s.cells| ensures CellLawful(cfg, s.cells[i]) {
      assert s.cells[i] in s.cells;
    }
    SavedSynapsesLawful(n, cfg, s.synapses);
    AdjacencyReads(s.synapses);
    SynapsesRestored(n, AdjacencyFrom(s.synapses), s.synapses);
    SavedAssembliesLawful(n, cfg, AdjacencyFrom(s.synapses), s.assemblies);
    SavedNext(n, s);
  }

  lemma SavedNext(n: Net, s: Saved)
    requires IdsBelow(n.assemblies, n.nextAssembly) && AssembliesSaved(n.assemblies, s.assemblies) && s.next == n.nextAssembly
    ensures NextSound(s)
  {
    forall i | 0 <= i < |s.assemblies| ensures s.assemblies[i].id < s.next {
      assert s.assemblies[i] in s.assemblies;
    }
  }

  /**
   The record of any lawful network is accepted with every other next id as well, and is then
   sound exactly when that id is above every stored one: with an Assembly `i`, never at `i`.
   */
  lemma NextUnchecked(n: Net, cfg: Config, s: Saved, next: int)
    requires cfg.Valid() && FullInv(n, cfg) && Saves(n, s)
    ensures RecordLawful(cfg, s.(next := next))
    ensures NextSound(s.(next := next)) <==> next >= 0 && forall i | i in n.assemblies :: i < next
  {
    hide SynapsesLawful, CellsLawful, AssembliesLawful, SynapsesSaved, CellsSaved, EdgesOk, BudgetsOk;
    hide EdgesIndexed, ConnectedInv, MembersIndexed, SetsIndexed, CellsFrom, AdjacencyFrom, CellsOk;
    SavedLawful(n, cfg, s);
    forall i | i in n.assemblies ensures n.assemblies[i] in s.assemblies {
      assert n.assemblies[i].id == i;
    }
    forall k | 0 <= k < |s.assemblies| ensures s.assemblies[k].id in n.assemblies {
      assert s.assemblies[k] in s.assemblies;
    }
  }

  /** What is loaded from the record of a network has the content of that network. */
  lemma LoadedSame(n: Net, m: Net, cfg: Config, s: Saved)
    requires cfg.Valid() && FullInv(n, cfg) && TickShaped(n) && Saves(n, s)
    requires FullInv(m, cfg) && LoadedIs(m, s)
    ensures SameContent(n, m) && TickShaped(m)
  {
    hide CellsFrom, AssembliesFrom, ActiveFrom, Reads, StructInv, ConnectedInv, EdgesIndexed, MembersIndexed;
    hide SetsIndexed, SynapsesSaved, AssembliesSaved;
    CellsRestored(n.cells, s.cells);
    AssembliesRestored(n.assemblies, s.assemblies);
    SynapsesRestored(n, m.outgoing, s.synapses);
    RecordsDetermineIndexes(n, m);
  }

  /** Save any lawful tick-shaped network and load the record: never refused, same content. */
  method Reload(net: SparseNetwork) returns (r: Outcome, copy: SparseNetwork)
    requires net.cfg.Valid() && FullInv(net.State(), net.cfg) && TickShaped(net.State())
    ensures fresh(copy) && copy.cfg == net.cfg
    ensures r.Accepted? && SameContent(net.State(), copy.State())
    ensures FullInv(copy.State(), copy.cfg) && TickShaped(copy.State())
  {
    hide TickShaped, RecordLawful, NextSound, LoadedIs, Saves, SameContent, FullInv, Reads;
    var n := net.State();
    assert IndexInv(n) by { LawfulIndexed(n, net.cfg); }
    var s := Save(n);
    r, copy := Load(net.cfg, s);
    SavedLawful(n, net.cfg, s);
    LoadedSame(n, copy.State(), net.cfg, s);
  }

  lemma LawfulIndexed(n: Net, cfg: Config)
    requires cfg.Valid() && FullInv(n, cfg)
    ensures IndexInv(n)
  {
  }

  /** Any run from a fresh network, saved and loaded. */
  method RunAndReload(config: Config, events: seq<Event>) returns (net: SparseNetwork, r: Outcome, copy: SparseNetwork)
    requires config.Valid() && forall i | 0 <= i < |events| :: Addressable(config, events[i])
    ensures r.Accepted? && SameContent(net.State(), copy.State()) && FullInv(copy.State(), config)
  {
    net := Run(config, events);
    r, copy := Reload(net);
  }
}
