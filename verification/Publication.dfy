/**
 Facts about the prospective buckets and the prospective membership counts of a write set, one
 write at a time: how each delete, upsert and reclaim moves them, and what the finished write
 set leaves. `commit` validates and publishes through these.
 */
module Publication {
  import opened FiniteSets
  import opened Options
  import opened CoreModel
  import opened NetworkState

  lemma PostBucketEmpty(out: Adjacency, s: int)
    ensures PostBucket(out, map[], {}, s) == Bucket(out, s)
  {
    var b := PostBucket(out, map[], {}, s);
    forall p | p in Bucket(out, s) ensures p in b && b[p] == Bucket(out, s)[p] {
      PostBucketLookup(out, map[], {}, EdgeKey(s, p.peer, p.scope));
    }
  }

  /** `result` holds exactly the prospective buckets of the affected sources. */
  ghost predicate Buckets(result: map<int, map<Port, Synapse>>, affected: set<int>, out: Adjacency,
                          upserts: map<EdgeKey, Synapse>, deletes: set<EdgeKey>) {
    && result.Keys == affected
    && forall s | s in affected :: result[s] == PostBucket(out, upserts, deletes, s)
  }

  lemma BucketsStart(affected: set<int>, out: Adjacency, result: map<int, map<Port, Synapse>>)
    requires result.Keys == affected
    requires forall s | s in affected :: result[s] == Bucket(out, s)
    ensures Buckets(result, affected, out, map[], {})
  {
    forall s | s in affected ensures result[s] == PostBucket(out, map[], {}, s) {
      PostBucketEmpty(out, s);
    }
  }

  /** A prospective bucket is determined by its look-ups. */
  lemma PostBucketIs(out: Adjacency, upserts: map<EdgeKey, Synapse>, deletes: set<EdgeKey>, s: int, b: map<Port, Synapse>)
    requires forall p: Port {:trigger p in b} ::
               var e := PostEdge(out, upserts, deletes, EdgeKey(s, p.peer, p.scope));
               (p in b <==> e.Some?) && (p in b ==> b[p] == e.value)
    ensures b == PostBucket(out, upserts, deletes, s)
  {
    var l := PostBucket(out, upserts, deletes, s);
    forall p: Port ensures (p in l <==> p in b) && (p in l ==> l[p] == b[p]) {
      PostBucketLookup(out, upserts, deletes, EdgeKey(s, p.peer, p.scope));
    }
  }

  lemma PostBucketDelete(out: Adjacency, deletes: set<EdgeKey>, s: int, k: EdgeKey)
    ensures PostBucket(out, map[], deletes + {k}, s) ==
              if s == k.source then PostBucket(out, map[], deletes, s) - {Port(k.target, k.scope)}
              else PostBucket(out, map[], deletes, s)
  {
    var l := PostBucket(out, map[], deletes, s);
    var b := if s == k.source then l - {Port(k.target, k.scope)} else l;
    forall p: Port
      ensures var e := PostEdge(out, map[], deletes + {k}, EdgeKey(s, p.peer, p.scope));
              (p in b <==> e.Some?) && (p in b ==> b[p] == e.value)
    {
      PostBucketLookup(out, map[], deletes, EdgeKey(s, p.peer, p.scope));
    }
    PostBucketIs(out, map[], deletes + {k}, s, b);
  }

  lemma PostBucketUpsert(out: Adjacency, done: map<EdgeKey, Synapse>, deletes: set<EdgeKey>, s: int, k: EdgeKey, edge: Synapse)
    ensures PostBucket(out, done[k := edge], deletes, s) ==
              if s == k.source then PostBucket(out, done, deletes, s)[Port(k.target, k.scope) := edge]
              else PostBucket(out, done, deletes, s)
  {
    var l := PostBucket(out, done, deletes, s);
    var b := if s == k.source then l[Port(k.target, k.scope) := edge] else l;
    forall p: Port
      ensures var e := PostEdge(out, done[k := edge], deletes, EdgeKey(s, p.peer, p.scope));
              (p in b <==> e.Some?) && (p in b ==> b[p] == e.value)
    {
      PostBucketLookup(out, done, deletes, EdgeKey(s, p.peer, p.scope));
    }
    PostBucketIs(out, done[k := edge], deletes, s, b);
  }

  lemma BucketsDelete(result: map<int, map<Port, Synapse>>, affected: set<int>, out: Adjacency,
                      deletes: set<EdgeKey>, k: EdgeKey)
    requires Buckets(result, affected, out, map[], deletes) && k.source in affected
    ensures Buckets(result[k.source := result[k.source] - {Port(k.target, k.scope)}], affected, out, map[], deletes + {k})
  {
    forall s | s in affected
      ensures PostBucket(out, map[], deletes + {k}, s)
           == if s == k.source then result[s] - {Port(k.target, k.scope)} else result[s]
    {
      PostBucketDelete(out, deletes, s, k);
    }
  }

  lemma BucketsUpsert(result: map<int, map<Port, Synapse>>, affected: set<int>, out: Adjacency,
                      upserts: map<EdgeKey, Synapse>, left: set<EdgeKey>, deletes: set<EdgeKey>, k: EdgeKey)
    requires Buckets(result, affected, out, upserts - left, deletes)
    requires k in left && k in upserts && k.source in affected
    ensures Buckets(result[k.source := result[k.source][Port(k.target, k.scope) := upserts[k]]], affected, out,
                    upserts - (left - {k}), deletes)
  {
    var done := upserts - left;
    assert upserts - (left - {k}) == done[k := upserts[k]];
    forall s | s in affected
      ensures PostBucket(out, done[k := upserts[k]], deletes, s)
           == if s == k.source then result[s][Port(k.target, k.scope) := upserts[k]] else result[s]
    {
      PostBucketUpsert(out, done, deletes, s, k, upserts[k]);
    }
  }

  // ----- membership counts -------------------------------------------------------------

  /** The count `commit` works with: adjusted for affected members, indexed for the rest. */
  function CountOf(counts: map<int, int>, memberships: map<int, set<int>>, m: int): int {
    if m in counts then counts[m] else |Owners(memberships, m)|
  }

  function AffectedMembers(n: Net, tx: Transaction): set<int> {
    (set i, m | i in Affected(tx) && i in n.assemblies && m in n.assemblies[i].members :: m)
    + (set i, m | i in tx.assemblyUpserts && m in tx.assemblyUpserts[i].members :: m)
  }

  lemma DropOwner(n: Net, done: set<int>, id: int, m: int)
    requires MembersIndexed(n.memberships, n.assemblies) && id !in done
    ensures |Owners(n.memberships, m) - (done + {id})|
         == |Owners(n.memberships, m) - done| - (if m in StoredMembers(n, id) then 1 else 0)
  {
    var s := Owners(n.memberships, m) - done;
    assert Owners(n.memberships, m) - (done + {id}) == s - {id};
    assert id in s <==> id in n.assemblies && m in n.assemblies[id].members;
  }

  lemma AddHolder(upserts: map<int, Assembly>, done: set<int>, id: int, m: int)
    requires id in upserts && id !in done
    ensures |Holders(upserts, done + {id}, m)|
         == |Holders(upserts, done, m)| + (if m in upserts[id].members then 1 else 0)
  {
    if m in upserts[id].members {
      assert Holders(upserts, done + {id}, m) == Holders(upserts, done, m) + {id};
    } else {
      assert Holders(upserts, done + {id}, m) == Holders(upserts, done, m);
    }
  }

  lemma HoldersMonotone(upserts: map<int, Assembly>, some: set<int>, all: set<int>, m: int)
    requires some <= all
    ensures |Holders(upserts, some, m)| <= |Holders(upserts, all, m)|
  {
    SubsetCardinality(Holders(upserts, some, m), Holders(upserts, all, m));
  }

  lemma PostOwnersCount(n: Net, tx: Transaction, m: int)
    ensures |PostOwners(n, tx, m)|
         == |Owners(n.memberships, m) - Affected(tx)| + |Holders(tx.assemblyUpserts, tx.assemblyUpserts.Keys, m)|
  {
    var kept := Owners(n.memberships, m) - Affected(tx);
    assert kept !! Holders(tx.assemblyUpserts, tx.assemblyUpserts.Keys, m);
  }

  lemma UnaffectedOwners(n: Net, tx: Transaction, m: int)
    requires MembersIndexed(n.memberships, n.assemblies)
    requires m !in AffectedMembers(n, tx)
    ensures PostOwners(n, tx, m) == Owners(n.memberships, m)
  {
    forall i | i in Owners(n.memberships, m) ensures i !in Affected(tx) {
      assert i in n.assemblies && m in n.assemblies[i].members;
    }
    forall i | i in tx.assemblyUpserts ensures m !in tx.assemblyUpserts[i].members {}
  }

  function Shift(counts: map<int, int>, members: set<int>, delta: int): map<int, int> {
    map m | m in counts :: if m in members then counts[m] + delta else counts[m]
  }

  /** Counts of the affected members without the owners in `done`. */
  ghost predicate Discounted(n: Net, tx: Transaction, done: set<int>, counts: map<int, int>) {
    && counts.Keys == AffectedMembers(n, tx)
    && forall m | m in counts :: counts[m] == |Owners(n.memberships, m) - done|
  }

  function OwnerCounts(n: Net, tx: Transaction): map<int, int> {
    map m | m in AffectedMembers(n, tx) :: |Owners(n.memberships, m)|
  }

  function StoredMembers(n: Net, id: int): set<int> {
    if id in n.assemblies then n.assemblies[id].members else {}
  }

  lemma DiscountStart(n: Net, tx: Transaction)
    ensures Discounted(n, tx, {}, OwnerCounts(n, tx))
  {
    forall m | m in AffectedMembers(n, tx) ensures Owners(n.memberships, m) - {} == Owners(n.memberships, m) {}
  }

  lemma DiscountStep(n: Net, tx: Transaction, done: set<int>, counts: map<int, int>, id: int)
    requires MembersIndexed(n.memberships, n.assemblies) && id !in done
    requires Discounted(n, tx, done, counts)
    ensures Discounted(n, tx, done + {id}, Shift(counts, StoredMembers(n, id), -1))
  {
    forall m | m in counts
      ensures |Owners(n.memberships, m) - (done + {id})|
           == counts[m] - (if m in StoredMembers(n, id) then 1 else 0)
    {
      DropOwner(n, done, id, m);
    }
  }

  /** Counts after the upserts in `done` are put back. */
  ghost predicate Counted(n: Net, tx: Transaction, done: set<int>, counts: map<int, int>) {
    && counts.Keys == AffectedMembers(n, tx)
    && forall m | m in counts ::
         counts[m] == |Owners(n.memberships, m) - Affected(tx)| + |Holders(tx.assemblyUpserts, done, m)|
  }

  lemma WithinStart(n: Net, cfg: Config, tx: Transaction, counts: map<int, int>)
    requires Discounted(n, tx, Affected(tx), counts)
    ensures CountsWithin(n, cfg, tx, {}, counts)
  {
    forall m | m in counts ensures Holders(tx.assemblyUpserts, {}, m) == {} {}
  }

  lemma CountStep(n: Net, tx: Transaction, done: set<int>, counts: map<int, int>, id: int)
    requires id in tx.assemblyUpserts && id !in done
    requires Counted(n, tx, done, counts)
    ensures Counted(n, tx, done + {id}, Shift(counts, tx.assemblyUpserts[id].members, 1))
  {
    forall m | m in counts
      ensures |Holders(tx.assemblyUpserts, done + {id}, m)|
           == |Holders(tx.assemblyUpserts, done, m)| + (if m in tx.assemblyUpserts[id].members then 1 else 0)
    {
      AddHolder(tx.assemblyUpserts, done, id, m);
    }
  }

  /** The counts of the members of the checked upserts are within the bound. */
  ghost predicate CountsWithin(n: Net, cfg: Config, tx: Transaction, done: set<int>, counts: map<int, int>) {
    && done <= tx.assemblyUpserts.Keys
    && Counted(n, tx, done, counts)
    && (forall i, m | i in done && m in tx.assemblyUpserts[i].members :: m in counts && counts[m] <= cfg.mMax)
  }

  lemma WithinStep(n: Net, cfg: Config, tx: Transaction, done: set<int>, counts: map<int, int>, id: int)
    requires CountsWithin(n, cfg, tx, done, counts)
    requires id in tx.assemblyUpserts && id !in done
    requires forall m | m in tx.assemblyUpserts[id].members && m in counts :: counts[m] + 1 <= cfg.mMax
    ensures CountsWithin(n, cfg, tx, done + {id}, Shift(counts, tx.assemblyUpserts[id].members, 1))
  {
    CountStep(n, tx, done, counts, id);
    forall m | m in tx.assemblyUpserts[id].members ensures m in counts { assert m in AffectedMembers(n, tx); }
  }

  /** An intermediate count over the bound stays over the bound. */
  lemma WithinExceeded(n: Net, cfg: Config, tx: Transaction, done: set<int>, counts: map<int, int>, id: int, m: int)
    requires CountsWithin(n, cfg, tx, done, counts)
    requires id in tx.assemblyUpserts && id !in done && m in tx.assemblyUpserts[id].members
    requires m in counts && counts[m] + 1 > cfg.mMax
    requires cfg.Valid()
    ensures !AssembliesAccepted(n, cfg, tx)
  {
    assert !CountsAccepted(n, cfg, tx) by {
    PostOwnersCount(n, tx, m);
    AddHolder(tx.assemblyUpserts, done, id, m);
    HoldersMonotone(tx.assemblyUpserts, done + {id}, tx.assemblyUpserts.Keys, m);
    }
  }

  lemma WithinDone(n: Net, cfg: Config, tx: Transaction, counts: map<int, int>)
    requires CountsWithin(n, cfg, tx, tx.assemblyUpserts.Keys, counts)
    ensures CountsAccepted(n, cfg, tx)
  {
    forall i, m | i in tx.assemblyUpserts && m in tx.assemblyUpserts[i].members
      ensures |PostOwners(n, tx, m)| <= cfg.mMax
    {
      PostOwnersCount(n, tx, m);
    }
  }

  lemma CountFinal(n: Net, tx: Transaction, counts: map<int, int>, m: int)
    requires MembersIndexed(n.memberships, n.assemblies)
    requires Counted(n, tx, tx.assemblyUpserts.Keys, counts)
    ensures CountOf(counts, n.memberships, m) == |PostOwners(n, tx, m)|
  {
    PostOwnersCount(n, tx, m);
    if m !in counts { UnaffectedOwners(n, tx, m); }
  }

  /** The upserts in `done` passed their own checks, and `seen` holds their member sets. */
  ghost predicate SetsChecked(n: Net, cfg: Config, tx: Transaction, done: set<int>, seen: set<set<int>>)
    requires cfg.Valid()
  {
    && done <= tx.assemblyUpserts.Keys
    && (forall i | i in done :: UpsertAccepted(n, cfg, tx, i) && tx.assemblyUpserts[i].members in seen)
    && (forall s | s in seen :: exists i :: i in done && tx.assemblyUpserts[i].members == s)
    && (forall i, j | i in done && j in done && i != j :: tx.assemblyUpserts[i].members != tx.assemblyUpserts[j].members)
  }

  lemma SetsStep(n: Net, cfg: Config, tx: Transaction, done: set<int>, seen: set<set<int>>, id: int)
    requires cfg.Valid() && SetsChecked(n, cfg, tx, done, seen)
    requires id in tx.assemblyUpserts && id !in done && UpsertAccepted(n, cfg, tx, id)
    requires tx.assemblyUpserts[id].members !in seen
    ensures SetsChecked(n, cfg, tx, done + {id}, seen + {tx.assemblyUpserts[id].members})
  {
    forall s | s in seen + {tx.assemblyUpserts[id].members}
      ensures exists i :: i in done + {id} && tx.assemblyUpserts[i].members == s
    {
      if s in seen {
        var i :| i in done && tx.assemblyUpserts[i].members == s;
        assert i in done + {id};
      } else {
        assert id in done + {id};
      }
    }
  }

  lemma SetsRepeated(n: Net, cfg: Config, tx: Transaction, done: set<int>, seen: set<set<int>>, id: int)
    requires cfg.Valid() && SetsChecked(n, cfg, tx, done, seen)
    requires id in tx.assemblyUpserts && id !in done && tx.assemblyUpserts[id].members in seen
    ensures !AssembliesAccepted(n, cfg, tx)
  {
    assert !DistinctSets(tx.assemblyUpserts);
  }

  lemma SetsStart(n: Net, cfg: Config, tx: Transaction)
    requires cfg.Valid()
    ensures SetsChecked(n, cfg, tx, {}, {})
  {
  }

  lemma SetsRejected(n: Net, cfg: Config, tx: Transaction, id: int)
    requires cfg.Valid() && id in tx.assemblyUpserts && !UpsertAccepted(n, cfg, tx, id)
    ensures !AssembliesAccepted(n, cfg, tx)
  {
  }

  lemma SetsDone(n: Net, cfg: Config, tx: Transaction, seen: set<set<int>>, counts: map<int, int>)
    requires cfg.Valid() && SetsChecked(n, cfg, tx, tx.assemblyUpserts.Keys, seen)
    requires CountsWithin(n, cfg, tx, tx.assemblyUpserts.Keys, counts)
    ensures AssembliesAccepted(n, cfg, tx) && Counted(n, tx, tx.assemblyUpserts.Keys, counts)
  {
    WithinDone(n, cfg, tx, counts);
  }

  // ----- publication -------------------------------------------------------------------

  lemma UntouchedBucket(out: Adjacency, upserts: map<EdgeKey, Synapse>, deletes: set<EdgeKey>, s: int)
    requires s !in Touched(upserts, deletes)
    ensures PostBucket(out, upserts, deletes, s) == Bucket(out, s)
  {
    forall p: Port
      ensures PostEdge(out, upserts, deletes, EdgeKey(s, p.peer, p.scope)) == EdgeAt(out, EdgeKey(s, p.peer, p.scope))
    {
    }
    PostBucketIs(out, upserts, deletes, s, Bucket(out, s));
  }

  /** The upserts can be put beside `kept` without two assemblies sharing an id or a member set. */
  ghost predicate Enrollable(kept: map<int, Assembly>, ups: map<int, Assembly>) {
    && kept.Keys !! ups.Keys
    && (forall i, j | i in kept && j in ups :: kept[i].members != ups[j].members)
    && DistinctSets(ups)
  }

  lemma AcceptedEnrollable(stored: map<int, Assembly>, index: map<set<int>, int>, tx: Transaction)
    requires SetsIndexed(index, stored) && SetsFree(index, tx)
    ensures Enrollable(stored - Affected(tx), tx.assemblyUpserts)
  {
    forall i, j | i in stored - Affected(tx) && j in tx.assemblyUpserts
      ensures stored[i].members != tx.assemblyUpserts[j].members
    {
      assert IndexFree(index, tx, j, tx.assemblyUpserts[j].members);
    }
  }

  lemma EnrollNext(assemblies: map<int, Assembly>, rest: map<int, Assembly>, byMembers: map<set<int>, int>, id: int)
    requires Enrollable(assemblies, rest) && id in rest && SetsIndexed(byMembers, assemblies)
    ensures id !in assemblies && rest[id].members !in byMembers
    ensures Enrollable(assemblies[id := rest[id]], rest - {id})
    ensures assemblies[id := rest[id]] + (rest - {id}) == assemblies + rest
  {
    var more, less := assemblies[id := rest[id]], rest - {id};
    assert more + less == assemblies + rest;
    forall i, j | i in more && j in less ensures more[i].members != less[j].members {
      assert i == id || i in assemblies;
    }
    assert rest[id].members !in byMembers by {
      assert forall i | i in assemblies :: assemblies[i].members != rest[id].members;
    }
  }

  /** What publication needs to know of an accepted write set. */
  ghost predicate Publishable(n: Net, tx: Transaction) {
    && KeysMatch(tx.upserts)
    && SetsFree(n.byMembers, tx)
    && (forall k: EdgeKey {:trigger PostEdge(n.outgoing, tx.upserts, tx.deletes, k)} |
          PostEdge(n.outgoing, tx.upserts, tx.deletes, k).Some? ::
          && CommittedIn(n.cells, k.source) && CommittedIn(n.cells, k.target)
          && k.source !in tx.reclaims && k.target !in tx.reclaims)
    && (forall i, m | i in PostAssemblies(n.assemblies, tx) && m in PostAssemblies(n.assemblies, tx)[i].members ::
          CommittedIn(n.cells, m) && m !in tx.reclaims)
  }

  lemma AcceptedPublishable(n: Net, cfg: Config, tx: Transaction)
    requires cfg.Valid() && IndexInv(n) && Accepts(n, cfg, tx)
    ensures Publishable(n, tx)
  {
    forall k: EdgeKey | PostEdge(n.outgoing, tx.upserts, tx.deletes, k).Some?
      ensures CommittedIn(n.cells, k.source) && CommittedIn(n.cells, k.target)
      ensures k.source !in tx.reclaims && k.target !in tx.reclaims
    {
      PostEdgeFacts(n, cfg, tx, k);
    }
    forall i, m | i in PostAssemblies(n.assemblies, tx) && m in PostAssemblies(n.assemblies, tx)[i].members
      ensures CommittedIn(n.cells, m) && m !in tx.reclaims
    {
      if i in tx.assemblyUpserts {
        assert UpsertAccepted(n, cfg, tx, i);
        assert i in Holders(tx.assemblyUpserts, tx.assemblyUpserts.Keys, m);
      } else {
        assert i in Owners(n.memberships, m);
      }
      assert i in PostOwners(n, tx, m);
    }
    forall i | i in tx.assemblyUpserts ensures IndexFree(n.byMembers, tx, i, tx.assemblyUpserts[i].members) {
      assert UpsertAccepted(n, cfg, tx, i);
    }
  }

  lemma ReclaimStep(cells: map<int, Cell>, active: set<int>, reclaims: set<int>, todo: set<int>, c: int)
    requires c in todo && todo <= reclaims
    ensures cells - (reclaims - (todo - {c})) == (cells - (reclaims - todo)) - {c}
    ensures active - (reclaims - (todo - {c})) == (active - (reclaims - todo)) - {c}
  {
  }

  lemma PostEdgeFacts(n: Net, cfg: Config, tx: Transaction, k: EdgeKey)
    requires cfg.Valid() && IndexInv(n) && Accepts(n, cfg, tx)
    requires PostEdge(n.outgoing, tx.upserts, tx.deletes, k).Some?
    ensures CommittedIn(n.cells, k.source) && CommittedIn(n.cells, k.target)
    ensures k.source !in tx.reclaims && k.target !in tx.reclaims
  {
    var b := PostBucket(n.outgoing, tx.upserts, tx.deletes, k.source);
    PostBucketLookup(n.outgoing, tx.upserts, tx.deletes, k);
    if k.source in Touched(tx.upserts, tx.deletes) {
      assert BucketAccepted(n.cells, cfg, k.source, b);
      assert Port(k.target, k.scope) in b;
    } else {
      assert EdgeAt(n.outgoing, k).Some?;
    }
    assert k.source in tx.reclaims ==> ReclaimAccepted(n, tx, k.source);
    assert k.target in tx.reclaims ==> ReclaimAccepted(n, tx, k.target);
    assert k !in tx.upserts ==> Port(k.source, k.scope) in Sources(n.incoming, k.target);
  }

  lemma ActivateStep(cells: map<int, Cell>, active: set<int>, activation: map<int, real>, todo: set<int>, c: int)
    requires c in todo && todo <= activation.Keys
    ensures var done, next := activation - todo, activation - (todo - {c});
            && ActivatedCells(cells, next) ==
               (if CommittedIn(cells, c) then ActivatedCells(cells, done)[c := cells[c].(activation := activation[c])]
                else ActivatedCells(cells, done))
            && ActivatedIds(cells, active, next) ==
               (if !CommittedIn(cells, c) then ActivatedIds(cells, active, done)
                else if activation[c] > 0.0 then ActivatedIds(cells, active, done) + {c}
                else ActivatedIds(cells, active, done) - {c})
  {
  }

  lemma OwnersNotReclaimed(memberships: map<int, set<int>>, assemblies: map<int, Assembly>, reclaims: set<int>)
    requires MembersIndexed(memberships, assemblies)
    requires forall i, m | i in assemblies && m in assemblies[i].members :: m !in reclaims
    ensures memberships.Keys !! reclaims
  {
    forall m | m in memberships ensures m !in reclaims {
      assert memberships[m] != {};
      var i := Pick(memberships[m]);
      assert i in Owners(memberships, m);
      assert i in assemblies && m in assemblies[i].members;
    }
  }

  lemma PostCellsFacts(n: Net, cfg: Config, tx: Transaction, m: Net)
    requires ActiveCover(n.active, n.cells) && CellsKeyed(n.cells)
    requires m.cells == PostCells(n.cells, cfg, tx) && m.active == PostActive(n.cells, cfg, n.active, tx)
    ensures ActiveCover(m.active, m.cells) && CellsKeyed(m.cells)
    ensures forall c | CommittedIn(n.cells, c) && c !in tx.reclaims :: CommittedIn(m.cells, c)
  {
  }

  lemma PostIdsBelow(n: Net, cfg: Config, tx: Transaction, next: int)
    requires cfg.Valid() && AssembliesAccepted(n, cfg, tx) && IdsBelow(n.assemblies, n.nextAssembly)
    requires next >= n.nextAssembly && (forall i | i in tx.assemblyUpserts :: i < next)
    ensures IdsBelow(PostAssemblies(n.assemblies, tx), next)
  {
    forall i | i in tx.assemblyUpserts ensures 0 <= i && tx.assemblyUpserts[i].id == i {
      assert UpsertAccepted(n, cfg, tx, i);
    }
  }

  /** The published pieces make up the new state, and the indexes are joint again. */
  lemma PublishedWhole(n: Net, cfg: Config, tx: Transaction, m: Net)
    requires cfg.Valid() && IndexInv(n) && Accepts(n, cfg, tx)
    requires m.cells == PostCells(n.cells, cfg, tx) && m.active == PostActive(n.cells, cfg, n.active, tx)
    requires EdgesWritten(n.outgoing, m.outgoing, tx.upserts, tx.deletes)
    requires EdgesIndexed(m.outgoing, m.incoming)
    requires m.assemblies == PostAssemblies(n.assemblies, tx)
    requires MembersIndexed(m.memberships, m.assemblies) && SetsIndexed(m.byMembers, m.assemblies)
    requires m.version == n.version + 1 && m.tick == n.tick + 1
    requires m.nextAssembly == NextAbove(n.nextAssembly, tx.assemblyUpserts.Keys)
    ensures Published(n, cfg, tx, m)
  {
    AcceptedPublishable(n, cfg, tx);
    PostCellsFacts(n, cfg, tx, m);
    PostIdsBelow(n, cfg, tx, m.nextAssembly);
    assert EndpointsCommitted(m.outgoing, m.cells);
  }

  lemma CommitStep(cells: map<int, Cell>, cfg: Config, commits: set<int>, todo: set<int>, c: int)
    requires c in todo && todo <= commits
    ensures var done, next := CommittedCells(cells, cfg, commits - todo), CommittedCells(cells, cfg, commits - (todo - {c}));
            && (c in done <==> c in cells)
            && (c in cells ==> done[c] == cells[c])
            && next == (if c !in cells then done[c := Cell(c, cfg.topology.territoryOf(c), true, 0.0, cfg.defaultBudget)]
                        else if !cells[c].committed then done[c := cells[c].(committed := true, activation := 0.0)]
                        else done)
  {
  }

  /** `out` is `before` after the deletes outside `todo` and the upserts outside `left`. */
  ghost predicate EdgesWritten(before: Adjacency, out: Adjacency, upserts: map<EdgeKey, Synapse>, deletes: set<EdgeKey>) {
    forall k: EdgeKey {:trigger EdgeAt(out, k)} :: EdgeAt(out, k) == PostEdge(before, upserts, deletes, k)
  }

  lemma DeleteWritten(before: Adjacency, out: Adjacency, out': Adjacency, deletes: set<EdgeKey>, todo: set<EdgeKey>, k: EdgeKey)
    requires EdgesWritten(before, out, map[], deletes - todo) && k in todo && todo <= deletes
    requires forall x: EdgeKey {:trigger EdgeAt(out', x)} :: EdgeAt(out', x) == if x == k then None else EdgeAt(out, x)
    ensures EdgesWritten(before, out', map[], deletes - (todo - {k}))
  {
  }

  lemma UpsertWritten(before: Adjacency, out: Adjacency, out': Adjacency, upserts: map<EdgeKey, Synapse>, left: set<EdgeKey>,
                      deletes: set<EdgeKey>, k: EdgeKey)
    requires EdgesWritten(before, out, upserts - left, deletes) && k in left && left <= upserts.Keys
    requires forall x: EdgeKey {:trigger EdgeAt(out', x)} :: EdgeAt(out', x) == if x == k then Some(upserts[k]) else EdgeAt(out, x)
    ensures EdgesWritten(before, out', upserts - (left - {k}), deletes)
  {
  }
}
