/**
 The validation half of `commit`, over the state it reads. Each method decides one group of
 checks exactly, with the running counts and the search the source uses; nothing is written.
 The publishing half is the class in `Network`.
 */
module CommitChecks {
  import opened FiniteSets
  import opened Options
  import opened CoreModel
  import opened Connectivity
  import opened NetworkState
  import opened Publication
  import opened Validation

  /** The affected buckets after the deletes and the upserts, or None on a key mismatch. */
  method ProspectiveEdges(outgoing: Adjacency, tx: Transaction) returns (r: Option<map<int, map<Port, Synapse>>>)
    ensures r.Some? <==> KeysMatch(tx.upserts)
    ensures r.Some? ==> Buckets(r.value, Touched(tx.upserts, tx.deletes), outgoing, tx.upserts, tx.deletes)
  {
    var affected := Touched(tx.upserts, tx.deletes);
    var start := map s | s in affected :: Bucket(outgoing, s);
    BucketsStart(affected, outgoing, start);
    var dropped := DropDeleted(outgoing, start, affected, tx);
    r := PutUpserted(outgoing, dropped, affected, tx);
  }

  method DropDeleted(ghost outgoing: Adjacency, start: map<int, map<Port, Synapse>>, ghost affected: set<int>, tx: Transaction)
      returns (result: map<int, map<Port, Synapse>>)
    requires Buckets(start, affected, outgoing, map[], {})
    requires forall k | k in tx.deletes :: k.source in affected
    ensures Buckets(result, affected, outgoing, map[], tx.deletes)
  {
    result := start;
    var todo := tx.deletes;
    assert tx.deletes - todo == {};
    while todo != {}
      invariant todo <= tx.deletes
      invariant Buckets(result, affected, outgoing, map[], tx.deletes - todo)
      decreases |todo|
    {
      var k :| k in todo;
      BucketsDelete(result, affected, outgoing, tx.deletes - todo, k);
      assert tx.deletes - (todo - {k}) == (tx.deletes - todo) + {k};
      result := result[k.source := result[k.source] - {Port(k.target, k.scope)}];
      todo := todo - {k};
    }
    assert tx.deletes - todo == tx.deletes;
  }

  method PutUpserted(ghost outgoing: Adjacency, dropped: map<int, map<Port, Synapse>>, ghost affected: set<int>, tx: Transaction)
      returns (r: Option<map<int, map<Port, Synapse>>>)
    requires Buckets(dropped, affected, outgoing, map[], tx.deletes)
    requires forall k | k in tx.upserts :: k.source in affected
    ensures r.Some? <==> KeysMatch(tx.upserts)
    ensures r.Some? ==> Buckets(r.value, affected, outgoing, tx.upserts, tx.deletes)
  {
    var result := dropped;
    var left := tx.upserts.Keys;
    assert tx.upserts - left == map[];
    while left != {}
      invariant left <= tx.upserts.Keys
      invariant forall k | k in tx.upserts && k !in left :: tx.upserts[k].target == k.target && tx.upserts[k].scope == k.scope
      invariant Buckets(result, affected, outgoing, tx.upserts - left, tx.deletes)
      decreases |left|
    {
      var k :| k in left;
      var edge := tx.upserts[k];
      if edge.target != k.target || edge.scope != k.scope {
        return None;
      }
      BucketsUpsert(result, affected, outgoing, tx.upserts, left, tx.deletes, k);
      result := result[k.source := result[k.source][Port(k.target, k.scope) := edge]];
      left := left - {k};
    }
    assert tx.upserts - left == tx.upserts;
    r := Some(result);
  }

  /** Membership counts once every deleted or replaced assembly is taken out. */
  method DiscountReplaced(n: Net, tx: Transaction) returns (counts: map<int, int>)
    requires MembersIndexed(n.memberships, n.assemblies)
    ensures Discounted(n, tx, Affected(tx), counts)
  {
    hide OwnerCounts, Shift, Discounted, MembersIndexed, StoredMembers, Affected, Min;
    counts := OwnerCounts(n, tx);
    var ids := Affected(tx);
    var todo := ids;
    assert ids - todo == {};
    DiscountStart(n, tx);
    while todo != {}
      invariant todo <= ids
      invariant Discounted(n, tx, ids - todo, counts)
      decreases |todo|
    {
      var id := Min(todo);
      DiscountStep(n, tx, ids - todo, counts, id);
      OneLess(ids, todo, id);
      counts := Shift(counts, StoredMembers(n, id), -1);
      todo := todo - {id};
    }
    assert ids - todo == ids;
  }

  /** Size, diameter and members of one assembly. */
  method CheckShape(cfg: Config, cells: map<int, Cell>, a: Assembly) returns (ok: bool)
    requires cfg.Valid()
    ensures ok <==> AssemblyShape(cfg, cells, a)
  {
    if !ValidAssembly(a) || |a.members| < cfg.kMin || |a.members| > cfg.kMax { return false; }
    var diameter := Diameter(cfg, a.members);
    DiameterFits(cfg, a.members, diameter);
    if diameter > cfg.assemblyRadius { return false; }
    var todo := a.members;
    while todo != {}
      invariant todo <= a.members
      invariant forall m | m in a.members && m !in todo :: CommittedIn(cells, m) && cells[m].territory == a.territory
      decreases |todo|
    {
      var m := Min(todo);
      if m !in cells || !cells[m].committed || cells[m].territory != a.territory { return false; }
      todo := todo - {m};
    }
    ok := true;
  }

  /** The checks on one upserted assembly that do not depend on the others. */
  method CheckUpsert(n: Net, cfg: Config, tx: Transaction, id: int) returns (ok: bool)
    requires cfg.Valid() && id in tx.assemblyUpserts
    ensures ok <==> UpsertAccepted(n, cfg, tx, id)
  {
    var a := tx.assemblyUpserts[id];
    ok := CheckShape(cfg, n.cells, a);
    if !ok || a.id != id { return false; }
    if a.members in n.byMembers {
      var owner := n.byMembers[a.members];
      if owner != id && owner !in tx.assemblyDeletes && owner !in tx.assemblyUpserts { return false; }
    }
    ok := SearchConnected(CommitView(n.outgoing, tx), cfg, a.members);
  }

  /** Raise the counts of the members of one upsert, or report one over the bound. */
  method CountUpsert(ghost n: Net, cfg: Config, tx: Transaction, ghost done: set<int>, counts: map<int, int>, id: int)
      returns (ok: bool, raised: map<int, int>)
    requires cfg.Valid()
    requires CountsWithin(n, cfg, tx, done, counts) && id in tx.assemblyUpserts && id !in done
    ensures ok ==> CountsWithin(n, cfg, tx, done + {id}, raised)
    ensures !ok ==> !AssembliesAccepted(n, cfg, tx)
  {
    var members := tx.assemblyUpserts[id].members;
    raised := Shift(counts, members, 1);
    ok := forall m | m in members :: m in counts ==> counts[m] + 1 <= cfg.mMax;
    if ok {
      WithinStep(n, cfg, tx, done, counts, id);
    } else {
      var m :| m in members && m in counts && counts[m] + 1 > cfg.mMax;
      WithinExceeded(n, cfg, tx, done, counts, id, m);
    }
  }

  /** Every check on the upserted assemblies, with the counts it leaves behind. */
  method CheckAssemblies(n: Net, cfg: Config, tx: Transaction) returns (ok: bool, counts: map<int, int>)
    requires cfg.Valid() && MembersIndexed(n.memberships, n.assemblies)
    ensures ok <==> AssembliesAccepted(n, cfg, tx)
    ensures ok ==> Counted(n, tx, tx.assemblyUpserts.Keys, counts)
  {
    counts := DiscountReplaced(n, tx);
    WithinStart(n, cfg, tx, counts);
    SetsStart(n, cfg, tx);
    var seen: set<set<int>> := {};
    var ids := tx.assemblyUpserts.Keys;
    var todo := ids;
    assert ids - todo == {};
    while todo != {}
      invariant todo <= ids
      invariant SetsChecked(n, cfg, tx, ids - todo, seen)
      invariant CountsWithin(n, cfg, tx, ids - todo, counts)
      decreases |todo|
    {
      var id := Min(todo);
      ghost var done := ids - todo;
      assert ids - (todo - {id}) == done + {id};
      var members := tx.assemblyUpserts[id].members;
      ok := CheckUpsert(n, cfg, tx, id);
      if !ok {
        SetsRejected(n, cfg, tx, id);
        return;
      }
      if members in seen {
        SetsRepeated(n, cfg, tx, done, seen, id);
        return false, counts;
      }
      ok, counts := CountUpsert(n, cfg, tx, done, counts, id);
      if !ok {
        return;
      }
      SetsStep(n, cfg, tx, done, seen, id);
      seen := seen + {members};
      todo := todo - {id};
    }
    assert ids - todo == ids;
    SetsDone(n, cfg, tx, seen, counts);
    ok := true;
  }

  /** Every id the transaction names is valid, and every new activation is lawful for its cell. */
  method CheckCells(n: Net, cfg: Config, tx: Transaction) returns (ok: bool)
    ensures ok <==> CellsAccepted(n, cfg, tx)
  {
    var named := tx.commits + tx.reclaims + tx.activation.Keys;
    var todo := named;
    while todo != {}
      invariant todo <= named && forall c | c in named && c !in todo :: cfg.ValidId(c)
      decreases |todo|
    {
      var c := Min(todo);
      if !cfg.ValidId(c) { return false; }
      todo := todo - {c};
    }
    todo := tx.activation.Keys;
    while todo != {}
      invariant todo <= tx.activation.Keys && forall c | c in tx.activation && c !in todo :: ActivationAccepted(n, tx, c)
      decreases |todo|
    {
      var c := Min(todo);
      if tx.activation[c] < 0.0 || tx.activation[c] > 1.0 { return false; }
      var known := c in n.cells;
      if !known && c !in tx.commits { return false; }
      if c in tx.commits && (!known || !n.cells[c].committed) && tx.activation[c] != 0.0 { return false; }
      todo := todo - {c};
    }
    ok := true;
  }

  /** The bucket a source will have: committed ends, lawful records in eligible scopes, within the budget. */
  method CheckBucket(cells: map<int, Cell>, cfg: Config, source: int, bucket: map<Port, Synapse>) returns (ok: bool)
    ensures ok <==> BucketAccepted(cells, cfg, source, bucket)
  {
    if source !in cells || !cells[source].committed || |bucket| > cells[source].budget { return false; }
    var todo := bucket.Keys;
    while todo != {}
      invariant todo <= bucket.Keys
      invariant forall p | p in bucket && p !in todo ::
                  CommittedIn(cells, p.peer) && SynapseOk(cfg, source, bucket[p]) && cfg.Eligible(EdgeKey(source, p.peer, p.scope))
      decreases |todo|
    {
      var p :| p in todo;
      if p.peer !in cells || !cells[p.peer].committed || !ValidSynapse(cfg, source, bucket[p]) { return false; }
      if !cfg.Eligible(EdgeKey(source, p.peer, p.scope)) { return false; }
      todo := todo - {p};
    }
    ok := true;
  }

  method CheckBuckets(n: Net, cfg: Config, tx: Transaction, buckets: map<int, map<Port, Synapse>>) returns (ok: bool)
    requires Buckets(buckets, Touched(tx.upserts, tx.deletes), n.outgoing, tx.upserts, tx.deletes)
    ensures ok <==> EdgesAccepted(n, cfg, tx)
  {
    hide BucketAccepted, PostBucket;
    var todo := buckets.Keys;
    while todo != {}
      invariant todo <= buckets.Keys && forall s | s in buckets && s !in todo :: BucketAccepted(n.cells, cfg, s, buckets[s])
      decreases |todo|
    {
      var s := Min(todo);
      ok := CheckBucket(n.cells, cfg, s, buckets[s]);
      if !ok {
        assert !EdgesAccepted(n, cfg, tx);
        return;
      }
      todo := todo - {s};
    }
    ok := true;
  }

  /** The whole validation phase. */
  method Validate(n: Net, cfg: Config, tx: Transaction) returns (ok: bool)
    requires cfg.Valid() && IndexInv(n)
    ensures ok <==> Accepts(n, cfg, tx)
  {
    if tx.baseVersion != n.version {
      return false;
    }
    var prospective := ProspectiveEdges(n.outgoing, tx);
    if prospective.None? {
      return false;
    }
    var cellsOk := CheckCells(n, cfg, tx);
    if !cellsOk {
      return false;
    }
    var buckets := prospective.value;
    var edgesOk := CheckBuckets(n, cfg, tx, buckets);
    if !edgesOk {
      return false;
    }
    var assembliesOk, counts := CheckAssemblies(n, cfg, tx);
    if !assembliesOk {
      return false;
    }
    ok := true;
    var todo := tx.reclaims;
    while todo != {}
      invariant todo <= tx.reclaims
      invariant forall c | c in tx.reclaims && c !in todo :: ReclaimAccepted(n, tx, c)
      decreases |todo|
    {
      var c := Min(todo);
      var isolated := CheckReclaim(n, tx, buckets, counts, c);
      if !isolated {
        return false;
      }
      todo := todo - {c};
    }
  }

  lemma RemainingIs(n: Net, tx: Transaction, buckets: map<int, map<Port, Synapse>>, c: int)
    requires Buckets(buckets, Touched(tx.upserts, tx.deletes), n.outgoing, tx.upserts, tx.deletes)
    ensures (if c in buckets then buckets[c] else Bucket(n.outgoing, c)) == PostBucket(n.outgoing, tx.upserts, tx.deletes, c)
  {
    if c !in buckets {
      UntouchedBucket(n.outgoing, tx.upserts, tx.deletes, c);
    }
  }

  method CheckReclaim(n: Net, tx: Transaction, buckets: map<int, map<Port, Synapse>>, counts: map<int, int>, c: int)
      returns (ok: bool)
    requires MembersIndexed(n.memberships, n.assemblies)
    requires Buckets(buckets, Touched(tx.upserts, tx.deletes), n.outgoing, tx.upserts, tx.deletes)
    requires Counted(n, tx, tx.assemblyUpserts.Keys, counts)
    ensures ok <==> ReclaimAccepted(n, tx, c)
  {
    hide Counted, MembersIndexed, PostOwners, PostBucket, Buckets;
    var remaining := if c in buckets then buckets[c] else Bucket(n.outgoing, c);
    RemainingIs(n, tx, buckets, c);
    var survivors := set p | p in Sources(n.incoming, c) && EdgeKey(p.peer, c, p.scope) !in tx.deletes;
    var added := exists k | k in tx.upserts :: k.target == c;
    CountFinal(n, tx, counts, c);
    ok := c !in tx.references && c !in tx.commits && remaining == map[] && survivors == {} && !added
      && CountOf(counts, n.memberships, c) == 0;
    if ok {
      forall p | p in Sources(n.incoming, c) ensures EdgeKey(p.peer, c, p.scope) in tx.deletes {
        assert p !in survivors;
      }
    }
  }
}
