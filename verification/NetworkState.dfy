/**
 The canonical network state as a value, its invariants, the write set of one tick, and
 what it means for a write set to be accepted and to be published.
 */
module NetworkState {
  import opened FiniteSets
  import opened Options
  import opened CoreModel
  import opened Connectivity

  datatype Net = Net(
    cells: map<int, Cell>,
    outgoing: Adjacency,
    incoming: Incoming,
    assemblies: map<int, Assembly>,
    memberships: map<int, set<int>>,
    byMembers: map<set<int>, int>,
    active: set<int>,
    version: int,
    tick: int,
    nextAssembly: int)

  datatype Transaction = Transaction(
    baseVersion: int,
    activation: map<int, real>,
    commits: set<int>,
    reclaims: set<int>,
    upserts: map<EdgeKey, Synapse>,
    deletes: set<EdgeKey>,
    assemblyUpserts: map<int, Assembly>,
    assemblyDeletes: set<int>,
    references: set<int>)

  // ----- the joint index invariant -----------------------------------------------------

  predicate CommittedIn(cells: map<int, Cell>, c: int) { c in cells && cells[c].committed }

  /** `incoming` inverts `outgoing`, and every record agrees with its key. */
  ghost predicate EdgesIndexed(outgoing: Adjacency, incoming: Incoming) {
    forall k: EdgeKey {:trigger EdgeAt(outgoing, k)} ::
      var e := EdgeAt(outgoing, k);
      && (e.Some? <==> Port(k.source, k.scope) in Sources(incoming, k.target))
      && (e.Some? ==> e.value.target == k.target && e.value.scope == k.scope)
  }

  /** `memberships` inverts `assemblies` and stores no empty entry. */
  ghost predicate MembersIndexed(memberships: map<int, set<int>>, assemblies: map<int, Assembly>) {
    && (forall m, i :: i in Owners(memberships, m) <==> i in assemblies && m in assemblies[i].members)
    && (forall m | m in memberships :: memberships[m] != {})
  }

  /** `byMembers` inverts `assemblies`, so no two assemblies share a member set. */
  ghost predicate SetsIndexed(byMembers: map<set<int>, int>, assemblies: map<int, Assembly>) {
    && (forall s | s in byMembers :: byMembers[s] in assemblies && assemblies[byMembers[s]].members == s)
    && (forall i | i in assemblies :: assemblies[i].members in byMembers && byMembers[assemblies[i].members] == i)
  }

  ghost predicate EndpointsCommitted(outgoing: Adjacency, cells: map<int, Cell>) {
    forall k: EdgeKey | EdgeAt(outgoing, k).Some? :: CommittedIn(cells, k.source) && CommittedIn(cells, k.target)
  }

  ghost predicate IdsBelow(assemblies: map<int, Assembly>, next: int) {
    && next >= 0
    && forall i | i in assemblies :: 0 <= i < next && assemblies[i].id == i
  }

  ghost predicate ActiveCover(active: set<int>, cells: map<int, Cell>) {
    && active <= cells.Keys
    && forall c | c in cells && cells[c].activation > 0.0 :: c in active
  }

  ghost predicate CellsKeyed(cells: map<int, Cell>) { forall c | c in cells :: cells[c].id == c }

  ghost predicate IndexInv(n: Net) {
    && EdgesIndexed(n.outgoing, n.incoming)
    && MembersIndexed(n.memberships, n.assemblies)
    && SetsIndexed(n.byMembers, n.assemblies)
    && EndpointsCommitted(n.outgoing, n.cells)
    && IdsBelow(n.assemblies, n.nextAssembly)
    && ActiveCover(n.active, n.cells)
    && CellsKeyed(n.cells)
    && (forall i, m | i in n.assemblies && m in n.assemblies[i].members :: CommittedIn(n.cells, m))
  }

  // ----- the structural invariant ------------------------------------------------------

  ghost predicate AssemblyShape(cfg: Config, cells: map<int, Cell>, a: Assembly) {
    && AssemblyOk(a)
    && cfg.kMin <= |a.members| <= cfg.kMax
    && cfg.Fits(a.members)
    && forall m | m in a.members :: CommittedIn(cells, m) && cells[m].territory == a.territory
  }

  ghost predicate CellsOk(cfg: Config, cells: map<int, Cell>) {
    forall c | c in cells ::
      cfg.ValidId(c) && CellOk(cfg, cells[c]) && cells[c].territory == cfg.topology.territoryOf(c)
  }

  ghost predicate EdgesOk(cfg: Config, outgoing: Adjacency) {
    forall k: EdgeKey | EdgeAt(outgoing, k).Some? ::
      SynapseOk(cfg, k.source, EdgeAt(outgoing, k).value) && cfg.Eligible(k)
  }

  ghost predicate BudgetsOk(outgoing: Adjacency, cells: map<int, Cell>) {
    forall s | s in cells :: |Bucket(outgoing, s)| <= cells[s].budget
  }

  ghost predicate StructInv(n: Net, cfg: Config) {
    && CellsOk(cfg, n.cells)
    && EdgesOk(cfg, n.outgoing)
    && BudgetsOk(n.outgoing, n.cells)
    && (forall i | i in n.assemblies :: AssemblyShape(cfg, n.cells, n.assemblies[i]))
    && (forall m :: |Owners(n.memberships, m)| <= cfg.mMax)
  }

  /** Every stored assembly is connected, whether or not the last tick touched it. */
  ghost predicate ConnectedInv(n: Net, cfg: Config)
    requires cfg.Valid()
  {
    forall i | i in n.assemblies :: Connected(Plain(n.outgoing), cfg, n.assemblies[i].members)
  }

  ghost predicate FullInv(n: Net, cfg: Config)
    requires cfg.Valid()
  {
    IndexInv(n) && StructInv(n, cfg) && ConnectedInv(n, cfg)
  }

  const EmptyNet := Net(map[], map[], map[], map[], map[], map[], {}, 0, 0, 0)

  // ----- prospective edges -------------------------------------------------------------

  /** Publication deletes first, then upserts: an upsert wins over a delete of its key. */
  ghost function PostEdge(outgoing: Adjacency, upserts: map<EdgeKey, Synapse>, deletes: set<EdgeKey>, k: EdgeKey): Option<Synapse> {
    if k in upserts then Some(upserts[k])
    else if k in deletes then None
    else EdgeAt(outgoing, k)
  }

  function Touched(upserts: map<EdgeKey, Synapse>, deletes: set<EdgeKey>): set<int> {
    (set k | k in upserts :: k.source) + (set k | k in deletes :: k.source)
  }

  function UpsertPorts(upserts: map<EdgeKey, Synapse>, source: int): set<Port> {
    set k | k in upserts && k.source == source :: Port(k.target, k.scope)
  }

  ghost function PostBucket(outgoing: Adjacency, upserts: map<EdgeKey, Synapse>, deletes: set<EdgeKey>, source: int): map<Port, Synapse> {
    map p: Port |
      && p in Bucket(outgoing, source).Keys + UpsertPorts(upserts, source)
      && PostEdge(outgoing, upserts, deletes, EdgeKey(source, p.peer, p.scope)).Some?
      :: PostEdge(outgoing, upserts, deletes, EdgeKey(source, p.peer, p.scope)).value
  }

  lemma PostBucketLookup(outgoing: Adjacency, upserts: map<EdgeKey, Synapse>, deletes: set<EdgeKey>, k: EdgeKey)
    ensures var b := PostBucket(outgoing, upserts, deletes, k.source);
            var e := PostEdge(outgoing, upserts, deletes, k);
            var p := Port(k.target, k.scope);
            && (p in b <==> e.Some?)
            && (p in b ==> b[p] == e.value)
  {
    var p := Port(k.target, k.scope);
    assert k == EdgeKey(k.source, p.peer, p.scope);
    if k in upserts { assert p in UpsertPorts(upserts, k.source); }
  }

  // ----- prospective assemblies --------------------------------------------------------

  function Affected(tx: Transaction): set<int> { tx.assemblyDeletes + tx.assemblyUpserts.Keys }

  ghost function PostAssemblies(assemblies: map<int, Assembly>, tx: Transaction): map<int, Assembly> {
    (assemblies - Affected(tx)) + tx.assemblyUpserts
  }

  /** Ids of the upserted assemblies among `ids` that hold `member`. */
  ghost function Holders(upserts: map<int, Assembly>, ids: set<int>, member: int): set<int> {
    set i | i in ids && i in upserts && member in upserts[i].members
  }

  ghost function PostOwners(n: Net, tx: Transaction, member: int): set<int> {
    (Owners(n.memberships, member) - Affected(tx)) + Holders(tx.assemblyUpserts, tx.assemblyUpserts.Keys, member)
  }

  // ----- acceptance --------------------------------------------------------------------

  ghost predicate KeysMatch(upserts: map<EdgeKey, Synapse>) {
    forall k | k in upserts :: upserts[k].target == k.target && upserts[k].scope == k.scope
  }

  ghost predicate CellsAccepted(n: Net, cfg: Config, tx: Transaction) {
    && (forall c | c in tx.commits + tx.reclaims + tx.activation.Keys :: cfg.ValidId(c))
    && (forall c | c in tx.activation :: ActivationAccepted(n, tx, c))
  }

  /** A new activation is in range and its cell is known; a cell committed only now starts at zero. */
  ghost predicate ActivationAccepted(n: Net, tx: Transaction, c: int)
    requires c in tx.activation
  {
    && 0.0 <= tx.activation[c] <= 1.0
    && (c in n.cells || c in tx.commits)
    && (c in tx.commits && !CommittedIn(n.cells, c) ==> tx.activation[c] == 0.0)
  }

  ghost predicate BucketAccepted(cells: map<int, Cell>, cfg: Config, source: int, bucket: map<Port, Synapse>) {
    && CommittedIn(cells, source)
    && |bucket| <= cells[source].budget
    && forall p | p in bucket ::
         CommittedIn(cells, p.peer) && SynapseOk(cfg, source, bucket[p]) && cfg.Eligible(EdgeKey(source, p.peer, p.scope))
  }

  ghost predicate EdgesAccepted(n: Net, cfg: Config, tx: Transaction) {
    forall s | s in Touched(tx.upserts, tx.deletes) ::
      BucketAccepted(n.cells, cfg, s, PostBucket(n.outgoing, tx.upserts, tx.deletes, s))
  }

  /** No stored assembly that the tick leaves alone has this member set. */
  ghost predicate IndexFree(byMembers: map<set<int>, int>, tx: Transaction, id: int, members: set<int>) {
    members in byMembers ==> byMembers[members] == id || byMembers[members] in Affected(tx)
  }

  /** The overlay connectivity is checked in reads the edges publication will leave. */
  function CommitView(outgoing: Adjacency, tx: Transaction): (v: View)
    ensures forall k: EdgeKey {:trigger v.Edge(k)} :: v.Edge(k) == PostEdge(outgoing, tx.upserts, tx.deletes, k)
  {
    View(outgoing, tx.upserts, tx.deletes - tx.upserts.Keys)
  }

  ghost predicate UpsertAccepted(n: Net, cfg: Config, tx: Transaction, id: int)
    requires cfg.Valid() && id in tx.assemblyUpserts
  {
    var a := tx.assemblyUpserts[id];
    && a.id == id
    && AssemblyShape(cfg, n.cells, a)
    && IndexFree(n.byMembers, tx, id, a.members)
    && Connected(CommitView(n.outgoing, tx), cfg, a.members)
  }

  ghost predicate DistinctSets(upserts: map<int, Assembly>) {
    forall i, j | i in upserts && j in upserts && i != j :: upserts[i].members != upserts[j].members
  }

  /** Every upserted member set will be free, and no two upserts share one. */
  ghost predicate SetsFree(byMembers: map<set<int>, int>, tx: Transaction) {
    && DistinctSets(tx.assemblyUpserts)
    && forall i | i in tx.assemblyUpserts :: IndexFree(byMembers, tx, i, tx.assemblyUpserts[i].members)
  }

  ghost predicate CountsAccepted(n: Net, cfg: Config, tx: Transaction) {
    forall i, m | i in tx.assemblyUpserts && m in tx.assemblyUpserts[i].members :: |PostOwners(n, tx, m)| <= cfg.mMax
  }

  ghost predicate AssembliesAccepted(n: Net, cfg: Config, tx: Transaction)
    requires cfg.Valid()
  {
    && (forall i | i in tx.assemblyUpserts :: UpsertAccepted(n, cfg, tx, i))
    && DistinctSets(tx.assemblyUpserts)
    && CountsAccepted(n, cfg, tx)
  }

  /** Only a cell nothing structural refers to may be reclaimed. */
  ghost predicate ReclaimAccepted(n: Net, tx: Transaction, c: int) {
    && c !in tx.references && c !in tx.commits
    && PostBucket(n.outgoing, tx.upserts, tx.deletes, c) == map[]
    && (forall p | p in Sources(n.incoming, c) :: EdgeKey(p.peer, c, p.scope) in tx.deletes)
    && (forall k | k in tx.upserts :: k.target != c)
    && PostOwners(n, tx, c) == {}
  }

  ghost predicate Accepts(n: Net, cfg: Config, tx: Transaction)
    requires cfg.Valid()
  {
    && tx.baseVersion == n.version
    && KeysMatch(tx.upserts)
    && CellsAccepted(n, cfg, tx)
    && EdgesAccepted(n, cfg, tx)
    && AssembliesAccepted(n, cfg, tx)
    && (forall c | c in tx.reclaims :: ReclaimAccepted(n, tx, c))
  }

  // ----- publication -------------------------------------------------------------------

  ghost function CommittedCells(cells: map<int, Cell>, cfg: Config, commits: set<int>): map<int, Cell> {
    map c | c in cells.Keys + commits ::
      if c !in cells then Cell(c, cfg.topology.territoryOf(c), true, 0.0, cfg.defaultBudget)
      else if c in commits && !cells[c].committed then cells[c].(committed := true, activation := 0.0)
      else cells[c]
  }

  ghost function ActivatedCells(cells: map<int, Cell>, activation: map<int, real>): map<int, Cell> {
    map c | c in cells ::
      if c in activation && cells[c].committed then cells[c].(activation := activation[c]) else cells[c]
  }

  ghost function ActivatedIds(cells: map<int, Cell>, active: set<int>, activation: map<int, real>): set<int> {
    (set c | c in active && !(c in activation && CommittedIn(cells, c)))
    + (set c | c in activation && CommittedIn(cells, c) && activation[c] > 0.0)
  }

  ghost function PostCells(cells: map<int, Cell>, cfg: Config, tx: Transaction): map<int, Cell> {
    ActivatedCells(CommittedCells(cells, cfg, tx.commits), tx.activation) - tx.reclaims
  }

  ghost function PostActive(cells: map<int, Cell>, cfg: Config, active: set<int>, tx: Transaction): set<int> {
    ActivatedIds(CommittedCells(cells, cfg, tx.commits), active, tx.activation) - tx.reclaims
  }

  /** The least id that is at least `next` and above every one of `ids`. */
  function NextAbove(next: int, ids: set<int>): (r: int)
    ensures r >= next && forall i | i in ids :: i < r
    ensures r == next || r - 1 in ids
    decreases |ids|
  {
    if ids == {} then next else
      var m := Min(ids);
      var r := NextAbove(next, ids - {m});
      assert forall i | i in ids :: i == m || i in ids - {m};
      if m < r then r else m + 1
  }

  /** The whole new state; the three indexes are the ones IndexInv determines. */
  ghost predicate Published(n: Net, cfg: Config, tx: Transaction, m: Net) {
    && m.cells == PostCells(n.cells, cfg, tx)
    && (forall k: EdgeKey {:trigger EdgeAt(m.outgoing, k)} ::
          EdgeAt(m.outgoing, k) == PostEdge(n.outgoing, tx.upserts, tx.deletes, k))
    && m.assemblies == PostAssemblies(n.assemblies, tx)
    && m.active == PostActive(n.cells, cfg, n.active, tx)
    && m.version == n.version + 1 && m.tick == n.tick + 1
    && m.nextAssembly == NextAbove(n.nextAssembly, tx.assemblyUpserts.Keys)
    && IndexInv(m)
  }
}
