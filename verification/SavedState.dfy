/**
 The canonical record of a network: three lists in canonical order and three counters. The
 record determines the content of the network, and the content determines the record: there is
 one record for each content.
 */
module SavedState {
  import opened FiniteSets
  import opened Ordering
  import opened Options
  import opened CoreModel
  import opened NetworkState
  import opened Engine

  /** A synapse together with its source, as one line of the record. */
  datatype Stored = Stored(source: int, edge: Synapse)
  {
    function Key(): EdgeKey { EdgeKey(source, edge.target, edge.scope) }
  }

  datatype Saved = Saved(version: int, tick: int, next: int,
                         cells: seq<Cell>, synapses: seq<Stored>, assemblies: seq<Assembly>)

  // ----- the canonical orders -----------------------------------------------------------

  predicate PortLt(p: Port, q: Port) {
    p.peer < q.peer || (p.peer == q.peer && p.scope.Order() < q.scope.Order())
  }

  predicate KeyLt(a: EdgeKey, b: EdgeKey) {
    a.source < b.source || (a.source == b.source && PortLt(Port(a.target, a.scope), Port(b.target, b.scope)))
  }

  // ----- what a record of a network says ------------------------------------------------

  function CellBefore(): (Cell, Cell) -> bool { (x: Cell, y: Cell) => x.id < y.id }
  function StoredBefore(): (Stored, Stored) -> bool { (x: Stored, y: Stored) => KeyLt(x.Key(), y.Key()) }
  function AssemblyBefore(): (Assembly, Assembly) -> bool { (x: Assembly, y: Assembly) => x.id < y.id }

  ghost predicate CellsSaved(cells: map<int, Cell>, saved: seq<Cell>) {
    && Ascending(saved, CellBefore())
    && forall x: Cell :: x in saved <==> x.id in cells && cells[x.id] == x
  }

  ghost predicate SynapsesSaved(out: Adjacency, saved: seq<Stored>) {
    && Ascending(saved, StoredBefore())
    && forall x: Stored :: x in saved <==> EdgeAt(out, x.Key()) == Some(x.edge)
  }

  ghost predicate AssembliesSaved(assemblies: map<int, Assembly>, saved: seq<Assembly>) {
    && Ascending(saved, AssemblyBefore())
    && forall x: Assembly :: x in saved <==> x.id in assemblies && assemblies[x.id] == x
  }

  ghost predicate Saves(n: Net, s: Saved) {
    && s.version == n.version && s.tick == n.tick && s.next == n.nextAssembly
    && CellsSaved(n.cells, s.cells)
    && SynapsesSaved(n.outgoing, s.synapses)
    && AssembliesSaved(n.assemblies, s.assemblies)
  }

  // ----- same content -------------------------------------------------------------------

  ghost predicate SameEdges(out: Adjacency, other: Adjacency) {
    forall k: EdgeKey {:trigger EdgeAt(out, k)} {:trigger EdgeAt(other, k)} :: EdgeAt(out, k) == EdgeAt(other, k)
  }

  ghost predicate SameRecords(n: Net, m: Net) {
    && n.cells == m.cells && n.assemblies == m.assemblies && SameEdges(n.outgoing, m.outgoing)
    && n.version == m.version && n.tick == m.tick && n.nextAssembly == m.nextAssembly
  }

  /** The same state, except that one may store empty adjacency buckets the other lacks. */
  ghost predicate SameContent(n: Net, m: Net) {
    && SameRecords(n, m)
    && n.active == m.active && n.memberships == m.memberships && n.byMembers == m.byMembers
    && forall t :: Sources(n.incoming, t) == Sources(m.incoming, t)
  }

  /** The index invariant leaves no freedom: the records determine every index. */
  lemma RecordsDetermineIndexes(n: Net, m: Net)
    requires IndexInv(n) && IndexInv(m) && SameRecords(n, m)
    requires TickShaped(n) && TickShaped(m)
    ensures SameContent(n, m)
  {
    forall t ensures Sources(n.incoming, t) == Sources(m.incoming, t) {
      forall p: Port ensures p in Sources(n.incoming, t) <==> p in Sources(m.incoming, t) {
        assert EdgeAt(n.outgoing, EdgeKey(p.peer, t, p.scope)) == EdgeAt(m.outgoing, EdgeKey(p.peer, t, p.scope));
      }
    }
    SameActive(n, m);
    SameMemberships(n.memberships, m.memberships, n.assemblies);
    SameSets(n.byMembers, m.byMembers, n.assemblies);
  }

  lemma SameActive(n: Net, m: Net)
    requires TickShaped(n) && TickShaped(m) && n.cells == m.cells
    ensures n.active == m.active
  {
    forall c ensures c in n.active <==> c in m.active {}
  }

  lemma SameSets(a: map<set<int>, int>, b: map<set<int>, int>, assemblies: map<int, Assembly>)
    requires SetsIndexed(a, assemblies) && SetsIndexed(b, assemblies)
    ensures a == b
  {
    forall s | s in a ensures s in b && b[s] == a[s] {
      var i := a[s];
      assert assemblies[i].members == s && assemblies[i].members in b;
    }
    forall s | s in b ensures s in a {
      var i := b[s];
      assert assemblies[i].members == s && assemblies[i].members in a;
    }
  }

  lemma SameMemberships(a: map<int, set<int>>, b: map<int, set<int>>, assemblies: map<int, Assembly>)
    requires MembersIndexed(a, assemblies) && MembersIndexed(b, assemblies)
    ensures a == b
  {
    forall c ensures Owners(a, c) == Owners(b, c) {
      forall i ensures i in Owners(a, c) <==> i in Owners(b, c) {
        assert i in Owners(a, c) <==> i in assemblies && c in assemblies[i].members;
        assert i in Owners(b, c) <==> i in assemblies && c in assemblies[i].members;
      }
    }
    forall c ensures c in a <==> c in b {
      assert c in a <==> Owners(a, c) != {};
      assert c in b <==> Owners(b, c) != {};
    }
    forall c | c in a ensures a[c] == b[c] {
      assert Owners(a, c) == Owners(b, c);
    }
  }

  /** The record is canonical: equal records exactly when the contents are equal. */
  lemma SaveCanonical(n: Net, m: Net, a: Saved, b: Saved)
    requires IndexInv(n) && IndexInv(m) && TickShaped(n) && TickShaped(m)
    requires Saves(n, a) && Saves(m, b)
    ensures a == b <==> SameContent(n, m)
  {
    hide IndexInv, TickShaped;
    if SameContent(n, m) {
      SameRecordsSaved(n, m, a, b);
    }
    if a == b {
      SavedRecords(n, m, a);
      RecordsDetermineIndexes(n, m);
    }
  }

  lemma SameRecordsSaved(n: Net, m: Net, a: Saved, b: Saved)
    requires Saves(n, a) && Saves(m, b) && SameRecords(n, m)
    ensures a == b
  {
    AscendingUnique(a.cells, b.cells, CellBefore());
    forall x: Stored ensures x in a.synapses <==> x in b.synapses {
      assert EdgeAt(n.outgoing, x.Key()) == EdgeAt(m.outgoing, x.Key());
    }
    AscendingUnique(a.synapses, b.synapses, StoredBefore());
    AscendingUnique(a.assemblies, b.assemblies, AssemblyBefore());
  }

  lemma SavedRecords(n: Net, m: Net, s: Saved)
    requires IndexInv(n) && IndexInv(m) && Saves(n, s) && Saves(m, s)
    ensures SameRecords(n, m)
  {
    SavedCells(n.cells, m.cells, s.cells);
    SavedAssemblies(n.assemblies, m.assemblies, s.assemblies);
    forall k: EdgeKey ensures EdgeAt(n.outgoing, k) == EdgeAt(m.outgoing, k) {
      SavedEdge(n, m, s.synapses, k);
      SavedEdge(m, n, s.synapses, k);
    }
  }

  lemma SavedCells(a: map<int, Cell>, b: map<int, Cell>, saved: seq<Cell>)
    requires CellsSaved(a, saved) && CellsSaved(b, saved) && CellsKeyed(a) && CellsKeyed(b)
    ensures a == b
  {
    assert forall c | c in a :: a[c] in saved && c in b && b[c] == a[c];
    assert forall c | c in b :: b[c] in saved && c in a;
  }

  lemma SavedAssemblies(a: map<int, Assembly>, b: map<int, Assembly>, saved: seq<Assembly>)
    requires AssembliesSaved(a, saved) && AssembliesSaved(b, saved)
    requires forall i | i in a :: a[i].id == i
    requires forall i | i in b :: b[i].id == i
    ensures a == b
  {
    assert forall c | c in a :: a[c] in saved && c in b && b[c] == a[c];
    assert forall c | c in b :: b[c] in saved && c in a;
  }

  lemma SavedEdge(n: Net, m: Net, saved: seq<Stored>, k: EdgeKey)
    requires EdgesIndexed(n.outgoing, n.incoming)
    requires SynapsesSaved(n.outgoing, saved) && SynapsesSaved(m.outgoing, saved)
    ensures EdgeAt(n.outgoing, k).Some? ==> EdgeAt(m.outgoing, k) == EdgeAt(n.outgoing, k)
  {
    if EdgeAt(n.outgoing, k).Some? {
      var x := Stored(k.source, EdgeAt(n.outgoing, k).value);
      assert x.Key() == k;
      assert x in saved;
    }
  }

  // ----- saving -------------------------------------------------------------------------

  /** The values of a map in ascending order of their ids. */
  method Listed<T>(records: map<int, T>) returns (values: seq<T>)
    ensures var ids := Sorted(records.Keys);
            |values| == |ids| && forall j | 0 <= j < |ids| :: ids[j] in records && values[j] == records[ids[j]]
  {
    var order := Sorted(records.Keys);
    values := [];
    for i := 0 to |order|
      invariant |values| == i && forall j | 0 <= j < i :: order[j] in records && values[j] == records[order[j]]
    {
      assert order[i] in records.Keys;
      values := values + [records[order[i]]];
    }
  }

  method SaveCells(cells: map<int, Cell>) returns (saved: seq<Cell>)
    requires CellsKeyed(cells)
    ensures CellsSaved(cells, saved)
  {
    hide Sorted;
    saved := Listed(cells);
    ghost var ids := Sorted(cells.Keys);
    assert forall j | 0 <= j < |ids| :: saved[j].id == ids[j];
    forall x: Cell | x.id in cells && cells[x.id] == x ensures x in saved {
      var j :| 0 <= j < |ids| && ids[j] == x.id;
      assert saved[j] == x;
    }
  }

  method SaveAssemblies(assemblies: map<int, Assembly>) returns (saved: seq<Assembly>)
    requires forall i | i in assemblies :: assemblies[i].id == i
    ensures AssembliesSaved(assemblies, saved)
  {
    hide Sorted;
    saved := Listed(assemblies);
    ghost var ids := Sorted(assemblies.Keys);
    assert forall j | 0 <= j < |ids| :: saved[j].id == ids[j];
    forall x: Assembly | x.id in assemblies && assemblies[x.id] == x ensures x in saved {
      var j :| 0 <= j < |ids| && ids[j] == x.id;
      assert saved[j] == x;
    }
  }

  predicate PortLe(p: Port, q: Port) { p == q || PortLt(p, q) }

  lemma PortsOrdered()
    ensures TotalPreorder(PortLe)
    ensures forall p, q :: PortLe(p, q) && p != q ==> PortLt(p, q)
  {
    forall p: Port, q: Port ensures PortLe(p, q) || PortLe(q, p) {
      assert p.peer == q.peer && p.scope.Order() == q.scope.Order() ==> p == q;
    }
  }

  /** The edges of one bucket, by target and then scope. */
  method SaveBucket(source: int, bucket: map<Port, Synapse>) returns (saved: seq<Stored>)
    requires forall p | p in bucket :: bucket[p].target == p.peer && bucket[p].scope == p.scope
    ensures Ascending(saved, StoredBefore())
    ensures forall x: Stored :: x in saved <==>
              x.source == source && Port(x.edge.target, x.edge.scope) in bucket && bucket[Port(x.edge.target, x.edge.scope)] == x.edge
  {
    PortsOrdered();
    var ports := Ranking(bucket.Keys, PortLe);
    saved := [];
    for i := 0 to |ports|
      invariant |saved| == i && forall j | 0 <= j < i :: ports[j] in bucket && saved[j] == Stored(source, bucket[ports[j]])
    {
      assert ports[i] in bucket.Keys;
      saved := saved + [Stored(source, bucket[ports[i]])];
    }
    forall i, j | 0 <= i < j < |saved| ensures KeyLt(saved[i].Key(), saved[j].Key()) {
      assert PortLe(ports[i], ports[j]) && ports[i] != ports[j];
    }
    forall x: Stored | x.source == source && Port(x.edge.target, x.edge.scope) in bucket && bucket[Port(x.edge.target, x.edge.scope)] == x.edge
      ensures x in saved
    {
      assert Port(x.edge.target, x.edge.scope) in ports;
      var j :| 0 <= j < |ports| && ports[j] == Port(x.edge.target, x.edge.scope);
      assert saved[j] == x;
    }
  }

  /** Source by source: the nested order is the canonical order of the keys. */
  method SaveSynapses(out: Adjacency, ghost incoming: Incoming) returns (saved: seq<Stored>)
    requires EdgesIndexed(out, incoming)
    ensures SynapsesSaved(out, saved)
  {
    hide Sorted, KeyLt;
    var ids := Sorted(out.Keys);
    saved := [];
    for i := 0 to |ids|
      invariant Ascending(saved, StoredBefore())
      invariant SavedUpTo(out, ids, i, saved)
    {
      var s := ids[i];
      assert s in out.Keys;
      forall p | p in out[s] ensures out[s][p].target == p.peer && out[s][p].scope == p.scope {
        assert EdgeAt(out, EdgeKey(s, p.peer, p.scope)).Some?;
      }
      var bucket := SaveBucket(s, out[s]);
      BucketFollows(ids, i, saved, bucket);
      BucketAppended(out, ids, i, saved, bucket);
      saved := saved + bucket;
    }
    assert ids[..|ids|] == ids;
    forall x: Stored | EdgeAt(out, x.Key()) == Some(x.edge) ensures x.source in ids {}
  }

  /** Of the first `i` sources, exactly the edges. */
  ghost predicate SavedUpTo(out: Adjacency, ids: seq<int>, i: nat, saved: seq<Stored>)
    requires i <= |ids|
  {
    forall x: Stored :: x in saved <==> x.source in ids[..i] && EdgeAt(out, x.Key()) == Some(x.edge)
  }

  lemma BucketAppended(out: Adjacency, ids: seq<int>, i: nat, saved: seq<Stored>, bucket: seq<Stored>)
    requires i < |ids| && ids[i] in out && SavedUpTo(out, ids, i, saved)
    requires forall x: Stored :: x in bucket <==>
               x.source == ids[i] && Port(x.edge.target, x.edge.scope) in out[ids[i]] && out[ids[i]][Port(x.edge.target, x.edge.scope)] == x.edge
    ensures SavedUpTo(out, ids, i + 1, saved + bucket)
  {
    assert ids[..i + 1] == ids[..i] + [ids[i]];
    forall x: Stored ensures x in saved + bucket <==> x.source in ids[..i + 1] && EdgeAt(out, x.Key()) == Some(x.edge) {
      assert x in bucket <==> x.source == ids[i] && EdgeAt(out, x.Key()) == Some(x.edge);
    }
  }

  lemma BucketFollows(ids: seq<int>, i: nat, saved: seq<Stored>, bucket: seq<Stored>)
    requires i < |ids| && forall a, b | 0 <= a < b < |ids| :: ids[a] < ids[b]
    requires Ascending(saved, StoredBefore()) && Ascending(bucket, StoredBefore())
    requires forall x | x in saved :: x.source in ids[..i]
    requires forall x | x in bucket :: x.source == ids[i]
    ensures Ascending(saved + bucket, StoredBefore())
  {
    var all := saved + bucket;
    forall a, b | 0 <= a < b < |all| ensures KeyLt(all[a].Key(), all[b].Key()) {
      if b < |saved| {
        assert StoredBefore()(saved[a], saved[b]);
      } else if a >= |saved| {
        assert StoredBefore()(bucket[a - |saved|], bucket[b - |saved|]);
      } else {
        assert all[a] in saved && all[b] in bucket;
        var j :| 0 <= j < i && ids[j] == all[a].source;
      }
    }
  }

  method Save(n: Net) returns (s: Saved)
    requires IndexInv(n)
    ensures Saves(n, s)
  {
    var cells := SaveCells(n.cells);
    var synapses := SaveSynapses(n.outgoing, n.incoming);
    var assemblies := SaveAssemblies(n.assemblies);
    s := Saved(n.version, n.tick, n.nextAssembly, cells, synapses, assemblies);
  }
}
