/**
 Loading the cells and the synapses of a record, line by line through the validated
 constructors. Testing each line against what the lines before it left behind decides the
 lawfulness of the whole list, and the loaded maps read as the list does.
 */
module RecordLoading {
  import opened FiniteSets
  import opened Options
  import opened CoreModel
  import opened NetworkState
  import opened IndexUpdates
  import opened Network
  import opened SavedState

  // ----- cells --------------------------------------------------------------------------

  ghost function CellsFrom(cells: seq<Cell>): map<int, Cell> {
    if cells == [] then map[] else
      var last := cells[|cells| - 1];
      CellsFrom(cells[..|cells| - 1])[last.id := last]
  }

  ghost function ActiveFrom(cells: seq<Cell>): set<int> {
    set i | 0 <= i < |cells| && cells[i].activation > 0.0 :: cells[i].id
  }

  ghost predicate CellsLawful(cfg: Config, cells: seq<Cell>) {
    forall i | 0 <= i < |cells| :: CellLawful(cfg, cells[i])
  }

  method LoadCells(net: SparseNetwork, cells: seq<Cell>) returns (r: Outcome)
    requires net.cells == map[] && net.active == {}
    modifies net`cells, net`active
    ensures r.Accepted? <==> CellsLawful(net.cfg, cells)
    ensures r.Accepted? ==> net.cells == CellsFrom(cells) && net.active == ActiveFrom(cells)
  {
    for i := 0 to |cells|
      invariant CellsLawful(net.cfg, cells[..i])
      invariant net.cells == CellsFrom(cells[..i]) && net.active == ActiveFrom(cells[..i])
    {
      assert cells[..i + 1][..i] == cells[..i];
      ActiveFromStep(cells, i);
      r := net.SeedCell(cells[i]);
      if r.Rejected? { return; }
    }
    assert cells[..|cells|] == cells;
    r := Accepted;
  }

  lemma ActiveFromStep(cells: seq<Cell>, i: nat)
    requires i < |cells|
    ensures ActiveFrom(cells[..i + 1]) == ActiveFrom(cells[..i]) + (if cells[i].activation > 0.0 then {cells[i].id} else {})
  {
    var next := cells[..i + 1];
    assert next == cells[..i] + [cells[i]];
    assert cells[i].activation > 0.0 ==> next[i].id in ActiveFrom(next);
    forall c | c in ActiveFrom(cells[..i]) ensures c in ActiveFrom(next) {
      var j :| 0 <= j < i && cells[..i][j].activation > 0.0 && cells[..i][j].id == c;
      assert next[j] == cells[..i][j];
    }
  }

  lemma {:induction false} CellsFromRecords(cells: seq<Cell>)
    ensures forall c | c in CellsFrom(cells) :: CellsFrom(cells)[c] in cells && CellsFrom(cells)[c].id == c
    ensures forall x | x in cells :: x.id in CellsFrom(cells)
    decreases |cells|
  {
    if cells != [] {
      var init, last := cells[..|cells| - 1], cells[|cells| - 1];
      CellsFromRecords(init);
      assert cells == init + [last];
    }
  }

  lemma CellsFromOk(cfg: Config, cells: seq<Cell>)
    requires CellsLawful(cfg, cells)
    ensures CellsOk(cfg, CellsFrom(cells)) && CellsKeyed(CellsFrom(cells)) && ActiveCover(ActiveFrom(cells), CellsFrom(cells))
  {
    CellsFromRecords(cells);
    var m := CellsFrom(cells);
    forall c | c in m ensures CellLawful(cfg, m[c]) && (m[c].activation > 0.0 ==> c in ActiveFrom(cells)) {
      var i :| 0 <= i < |cells| && cells[i] == m[c];
    }
    forall c | c in ActiveFrom(cells) ensures c in m {
      var i :| 0 <= i < |cells| && cells[i].activation > 0.0 && cells[i].id == c;
      assert cells[i] in cells;
    }
  }

  lemma CellsRestored(cells: map<int, Cell>, saved: seq<Cell>)
    requires CellsSaved(cells, saved) && CellsKeyed(cells)
    ensures CellsFrom(saved) == cells
    ensures forall c :: c in ActiveFrom(saved) <==> c in cells && cells[c].activation > 0.0
  {
    CellsFromRecords(saved);
    var m := CellsFrom(saved);
    forall c | c in cells ensures c in m { assert cells[c] in saved; }
    forall c | c in m ensures c in cells && cells[c] == m[c] { assert m[c] in saved; }
    assert m == cells;
    forall c | c in cells && cells[c].activation > 0.0 ensures c in ActiveFrom(saved) {
      var i :| 0 <= i < |saved| && saved[i] == cells[c];
      assert saved[i].id == c;
    }
    forall c | c in ActiveFrom(saved) ensures c in cells && cells[c].activation > 0.0 {
      var i :| 0 <= i < |saved| && saved[i].activation > 0.0 && saved[i].id == c;
      assert saved[i] in saved;
    }
  }

  // ----- synapses -----------------------------------------------------------------------

  ghost function Lookup(synapses: seq<Stored>, k: EdgeKey): Option<Synapse> {
    if synapses == [] then None
    else if synapses[|synapses| - 1].Key() == k then Some(synapses[|synapses| - 1].edge)
    else Lookup(synapses[..|synapses| - 1], k)
  }

  /** The ports the list gives to one source. */
  ghost function PortsOf(synapses: seq<Stored>, source: int): set<Port> {
    set i | 0 <= i < |synapses| && synapses[i].source == source :: Port(synapses[i].edge.target, synapses[i].edge.scope)
  }

  ghost predicate StoredLawful(cfg: Config, cells: map<int, Cell>, x: Stored) {
    && CommittedIn(cells, x.source) && CommittedIn(cells, x.edge.target)
    && SynapseOk(cfg, x.source, x.edge) && cfg.Eligible(x.Key())
  }

  ghost predicate DistinctKeys(synapses: seq<Stored>) {
    forall i, j | 0 <= i < j < |synapses| :: synapses[i].Key() != synapses[j].Key()
  }

  /** Every line lawful on its own, no key twice, no source over its budget. */
  ghost predicate SynapsesLawful(cfg: Config, cells: map<int, Cell>, synapses: seq<Stored>) {
    && (forall i | 0 <= i < |synapses| :: StoredLawful(cfg, cells, synapses[i]))
    && DistinctKeys(synapses)
    && forall s | s in cells && cells[s].committed :: |PortsOf(synapses, s)| <= cells[s].budget
  }

  lemma {:induction false} LookupFinds(synapses: seq<Stored>, k: EdgeKey)
    ensures Lookup(synapses, k).Some? ==> Stored(k.source, Lookup(synapses, k).value) in synapses && Lookup(synapses, k).value.target == k.target && Lookup(synapses, k).value.scope == k.scope
    ensures Lookup(synapses, k).None? <==> forall i | 0 <= i < |synapses| :: synapses[i].Key() != k
    decreases |synapses|
  {
    if synapses != [] {
      var init, last := synapses[..|synapses| - 1], synapses[|synapses| - 1];
      LookupFinds(init, k);
      assert synapses == init + [last];
    }
  }

  lemma PortsOfStep(synapses: seq<Stored>, i: nat, s: int)
    requires i < |synapses|
    ensures var x := synapses[i];
            PortsOf(synapses[..i + 1], s) == PortsOf(synapses[..i], s) + (if x.source == s then {Port(x.edge.target, x.edge.scope)} else {})
  {
    var next, x := synapses[..i + 1], synapses[i];
    assert next == synapses[..i] + [x];
    assert x.source == s ==> Port(next[i].edge.target, next[i].edge.scope) in PortsOf(next, s);
    forall p | p in PortsOf(synapses[..i], s) ensures p in PortsOf(next, s) {
      var j :| 0 <= j < i && synapses[..i][j].source == s && Port(synapses[..i][j].edge.target, synapses[..i][j].edge.scope) == p;
      assert next[j] == synapses[..i][j];
    }
  }

  /** The adjacency holds exactly the lines read so far. */
  ghost predicate Reads(out: Adjacency, synapses: seq<Stored>) {
    forall k: EdgeKey {:trigger EdgeAt(out, k)} :: EdgeAt(out, k) == Lookup(synapses, k)
  }

  ghost function AdjacencyFrom(synapses: seq<Stored>): Adjacency {
    if synapses == [] then map[] else
      var last := synapses[|synapses| - 1];
      PutOutgoing(AdjacencyFrom(synapses[..|synapses| - 1]), last.Key(), last.edge)
  }

  lemma {:induction false} AdjacencyReads(synapses: seq<Stored>)
    ensures Reads(AdjacencyFrom(synapses), synapses)
    decreases |synapses|
  {
    if synapses != [] {
      var init, last := synapses[..|synapses| - 1], synapses[|synapses| - 1];
      AdjacencyReads(init);
      forall k: EdgeKey ensures EdgeAt(AdjacencyFrom(synapses), k) == Lookup(synapses, k) {
        assert EdgeAt(AdjacencyFrom(init), k) == Lookup(init, k);
      }
    }
  }

  lemma BucketReads(out: Adjacency, synapses: seq<Stored>, s: int)
    requires Reads(out, synapses)
    ensures Bucket(out, s).Keys == PortsOf(synapses, s)
  {
    forall p: Port ensures p in Bucket(out, s) <==> p in PortsOf(synapses, s) {
      var k := EdgeKey(s, p.peer, p.scope);
      assert EdgeAt(out, k) == Lookup(synapses, k);
      LookupFinds(synapses, k);
      if p in PortsOf(synapses, s) {
        var j :| 0 <= j < |synapses| && synapses[j].source == s && Port(synapses[j].edge.target, synapses[j].edge.scope) == p;
        assert synapses[j].Key() == k;
      }
      if p in Bucket(out, s) {
        var x := Stored(s, Lookup(synapses, k).value);
        var j :| 0 <= j < |synapses| && synapses[j] == x;
        assert Port(synapses[j].edge.target, synapses[j].edge.scope) == p;
      }
    }
  }

  /** Checking line by line, with the budget tested before each insertion, decides the whole. */
  lemma SynapseStep(cfg: Config, cells: map<int, Cell>, out: Adjacency, synapses: seq<Stored>, i: nat)
    requires i < |synapses| && Reads(out, synapses[..i]) && SynapsesLawful(cfg, cells, synapses[..i])
    ensures SynapseLawful(cells, out, cfg, synapses[i].source, synapses[i].edge) <==> SynapsesLawful(cfg, cells, synapses[..i + 1])
  {
    hide Lookup, SynapseOk, SynapseLawful, SynapsesLawful;
    if SynapseLawful(cells, out, cfg, synapses[i].source, synapses[i].edge) {
      LineAccepted(cfg, cells, out, synapses, i);
    }
    if SynapsesLawful(cfg, cells, synapses[..i + 1]) {
      LineNeeded(cfg, cells, out, synapses, i);
    }
  }

  lemma LineAccepted(cfg: Config, cells: map<int, Cell>, out: Adjacency, synapses: seq<Stored>, i: nat)
    requires i < |synapses| && Reads(out, synapses[..i]) && SynapsesLawful(cfg, cells, synapses[..i])
    requires SynapseLawful(cells, out, cfg, synapses[i].source, synapses[i].edge)
    ensures SynapsesLawful(cfg, cells, synapses[..i + 1])
  {
    hide Lookup, SynapseOk;
    var x, init, next := synapses[i], synapses[..i], synapses[..i + 1];
    assert next == init + [x];
    BucketReads(out, init, x.source);
    assert |Bucket(out, x.source)| == |Bucket(out, x.source).Keys|;
    LookupFinds(init, x.Key());
    forall s | s in cells && cells[s].committed ensures |PortsOf(next, s)| <= cells[s].budget {
      PortsOfStep(synapses, i, s);
    }
    assert EdgeAt(out, x.Key()) == Lookup(init, x.Key());
    hide PortsOf, StoredLawful, Bucket, EdgeAt;
    assert StoredLawful(cfg, cells, x);
    forall a, b | 0 <= a < b < |next| ensures next[a].Key() != next[b].Key() {
      assert a < i && init[a] == next[a];
      if b < i { assert init[b] == next[b]; }
    }
    forall a | 0 <= a < |next| ensures StoredLawful(cfg, cells, next[a]) {
      if a < i { assert init[a] == next[a]; }
    }
  }

  lemma LineNeeded(cfg: Config, cells: map<int, Cell>, out: Adjacency, synapses: seq<Stored>, i: nat)
    requires i < |synapses| && Reads(out, synapses[..i])
    requires SynapsesLawful(cfg, cells, synapses[..i + 1])
    ensures SynapseLawful(cells, out, cfg, synapses[i].source, synapses[i].edge)
  {
    hide Lookup, SynapseOk;
    var x, init, next := synapses[i], synapses[..i], synapses[..i + 1];
    assert next[i] == x && next[..i] == init;
    assert StoredLawful(cfg, cells, next[i]);
    BucketReads(out, init, x.source);
    assert |Bucket(out, x.source)| == |Bucket(out, x.source).Keys|;
    PortsOfStep(synapses, i, x.source);
    KeyIsNew(next, i);
    assert EdgeAt(out, x.Key()) == Lookup(init, x.Key());
  }

  lemma KeyIsNew(synapses: seq<Stored>, i: nat)
    requires i < |synapses| && DistinctKeys(synapses)
    ensures Lookup(synapses[..i], synapses[i].Key()).None?
  {
    var k := synapses[i].Key();
    LookupFinds(synapses[..i], k);
    forall j | 0 <= j < |synapses[..i]| ensures synapses[..i][j].Key() != k {
      assert synapses[..i][j] == synapses[j];
    }
  }

  lemma PrefixLawful(cfg: Config, cells: map<int, Cell>, synapses: seq<Stored>, i: nat)
    requires i <= |synapses| && SynapsesLawful(cfg, cells, synapses)
    ensures SynapsesLawful(cfg, cells, synapses[..i])
  {
    forall s | s in cells && cells[s].committed ensures |PortsOf(synapses[..i], s)| <= cells[s].budget {
      forall p | p in PortsOf(synapses[..i], s) ensures p in PortsOf(synapses, s) {
        var j :| 0 <= j < i && synapses[..i][j].source == s && Port(synapses[..i][j].edge.target, synapses[..i][j].edge.scope) == p;
        assert synapses[j] == synapses[..i][j];
      }
      SubsetCardinality(PortsOf(synapses[..i], s), PortsOf(synapses, s));
    }
  }

  method LoadSynapses(net: SparseNetwork, synapses: seq<Stored>) returns (r: Outcome)
    requires net.outgoing == map[] && net.incoming == map[] && CellsOk(net.cfg, net.cells)
    modifies net`outgoing, net`incoming
    ensures EdgesIndexed(net.outgoing, net.incoming)
    ensures r.Accepted? <==> SynapsesLawful(net.cfg, net.cells, synapses)
    ensures r.Accepted? ==> Reads(net.outgoing, synapses)
  {
    hide SynapsesLawful, EdgesIndexed, SynapseLawful;
    EmptyLawful(net.cfg, net.cells, synapses);
    for i := 0 to |synapses|
      invariant EdgesIndexed(net.outgoing, net.incoming)
      invariant SynapsesLawful(net.cfg, net.cells, synapses[..i]) && Reads(net.outgoing, synapses[..i])
    {
      SynapseStep(net.cfg, net.cells, net.outgoing, synapses, i);
      if SynapsesLawful(net.cfg, net.cells, synapses) { PrefixLawful(net.cfg, net.cells, synapses, i + 1); }
      assert synapses[..i + 1][..i] == synapses[..i];
      r := net.SeedSynapse(synapses[i].source, synapses[i].edge);
      if r.Rejected? { return; }
    }
    assert synapses[..|synapses|] == synapses;
    r := Accepted;
  }

  lemma EmptyLawful(cfg: Config, cells: map<int, Cell>, synapses: seq<Stored>)
    requires CellsOk(cfg, cells)
    ensures SynapsesLawful(cfg, cells, synapses[..0])
    ensures EdgesIndexed(map[], map[]) && Reads(map[], synapses[..0])
  {
  }

  lemma SynapsesSound(cfg: Config, cells: map<int, Cell>, out: Adjacency, incoming: Incoming, synapses: seq<Stored>)
    requires CellsOk(cfg, cells) && CellsKeyed(cells)
    requires SynapsesLawful(cfg, cells, synapses) && Reads(out, synapses)
    ensures EndpointsCommitted(out, cells) && EdgesOk(cfg, out) && BudgetsOk(out, cells)
  {
    hide Lookup;
    forall k: EdgeKey | EdgeAt(out, k).Some?
      ensures CommittedIn(cells, k.source) && CommittedIn(cells, k.target)
      ensures SynapseOk(cfg, k.source, EdgeAt(out, k).value) && cfg.Eligible(k)
    {
      LookupFinds(synapses, k);
      var x := Stored(k.source, EdgeAt(out, k).value);
      var i :| 0 <= i < |synapses| && synapses[i] == x;
      assert StoredLawful(cfg, cells, synapses[i]);
    }
    forall s | s in cells ensures |Bucket(out, s)| <= cells[s].budget {
      BucketReads(out, synapses, s);
      assert |Bucket(out, s)| == |Bucket(out, s).Keys|;
      if !cells[s].committed {
        assert forall p | p in Bucket(out, s) :: EdgeAt(out, EdgeKey(s, p.peer, p.scope)).Some?;
        assert Bucket(out, s).Keys == {};
      }
    }
  }

  /** The lines saved from a lawful network are lawful: its budgets are enough for every prefix. */
  lemma SavedSynapsesLawful(n: Net, cfg: Config, synapses: seq<Stored>)
    requires SynapsesSaved(n.outgoing, synapses) && EndpointsCommitted(n.outgoing, n.cells)
    requires EdgesOk(cfg, n.outgoing) && BudgetsOk(n.outgoing, n.cells)
    ensures SynapsesLawful(cfg, n.cells, synapses)
  {
    forall i | 0 <= i < |synapses| ensures StoredLawful(cfg, n.cells, synapses[i]) {
      assert synapses[i] in synapses;
      assert EdgeAt(n.outgoing, synapses[i].Key()).Some?;
    }
    forall i, j | 0 <= i < j < |synapses| ensures synapses[i].Key() != synapses[j].Key() {
      assert StoredBefore()(synapses[i], synapses[j]);
    }
    forall s | s in n.cells && n.cells[s].committed ensures |PortsOf(synapses, s)| <= n.cells[s].budget {
      forall p | p in PortsOf(synapses, s) ensures p in Bucket(n.outgoing, s).Keys {
        var i :| 0 <= i < |synapses| && synapses[i].source == s && Port(synapses[i].edge.target, synapses[i].edge.scope) == p;
        assert synapses[i] in synapses;
        assert EdgeAt(n.outgoing, synapses[i].Key()).Some?;
      }
      SubsetCardinality(PortsOf(synapses, s), Bucket(n.outgoing, s).Keys);
      assert |Bucket(n.outgoing, s)| == |Bucket(n.outgoing, s).Keys|;
    }
  }

  lemma SynapsesRestored(n: Net, out: Adjacency, synapses: seq<Stored>)
    requires EdgesIndexed(n.outgoing, n.incoming) && SynapsesSaved(n.outgoing, synapses) && Reads(out, synapses)
    ensures SameEdges(n.outgoing, out)
  {
    hide Lookup;
    forall k: EdgeKey ensures EdgeAt(n.outgoing, k) == EdgeAt(out, k) {
      LookupFinds(synapses, k);
      assert EdgeAt(out, k) == Lookup(synapses, k);
      if EdgeAt(n.outgoing, k).Some? {
        var x := Stored(k.source, EdgeAt(n.outgoing, k).value);
        assert x.Key() == k && x in synapses;
      }
      if EdgeAt(out, k).Some? {
        var x := Stored(k.source, EdgeAt(out, k).value);
        assert x.Key() == k && x in synapses;
      }
    }
  }
}
