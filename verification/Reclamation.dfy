/** Which committed cells the tick may drop, and why `commit` agrees. */
module Reclamation {
  import opened FiniteSets
  import opened CoreModel
  import opened NetworkState

  /** The structural changes of the tick, as the stages hand them over. */
  datatype Changes = Changes(upserts: map<EdgeKey, Synapse>, deletes: set<EdgeKey>,
                             assemblyUpserts: map<int, Assembly>, assemblyDeletes: set<int>)

  function Surviving(n: Net, ch: Changes, c: int): set<int> {
    (set i | i in Owners(n.memberships, c) && i !in ch.assemblyDeletes
             && (i !in ch.assemblyUpserts || c in ch.assemblyUpserts[i].members))
    + (set i | i in ch.assemblyUpserts && c in ch.assemblyUpserts[i].members)
  }

  function LeavingPorts(n: Net, ch: Changes, c: int): set<Port> {
    (set p | p in Bucket(n.outgoing, c) && EdgeKey(c, p.peer, p.scope) !in ch.deletes) + UpsertPorts(ch.upserts, c)
  }

  predicate Reclaimable(n: Net, cfg: Config, ch: Changes, held: set<int>, activation: map<int, real>, c: int) {
    && CommittedIn(n.cells, c)
    && (if c in activation then activation[c] else n.cells[c].activation) < cfg.thetaActive
    && c !in held
    && Surviving(n, ch, c) == {}
    && LeavingPorts(n, ch, c) == {}
    && (forall p | p in Sources(n.incoming, c) :: EdgeKey(p.peer, c, p.scope) in ch.deletes)
    && (forall k | k in ch.upserts :: k.target != c)
  }

  function ReclaimableOf(n: Net, cfg: Config, candidates: set<int>, ch: Changes, held: set<int>, activation: map<int, real>): set<int> {
    set c | c in candidates && Reclaimable(n, cfg, ch, held, activation, c)
  }

  /** Nothing in the changed network ties to the cell: no Assembly holds it, no edge leaves or reaches it. */
  ghost predicate Untied(n: Net, ch: Changes, c: int) {
    && (forall i | i in (n.assemblies - ch.assemblyDeletes) + ch.assemblyUpserts :: c !in ((n.assemblies - ch.assemblyDeletes) + ch.assemblyUpserts)[i].members)
    && forall k: EdgeKey | k.source == c || k.target == c :: View(n.outgoing, ch.upserts, ch.deletes).Edge(k).None?
  }

  lemma OwnersGone(n: Net, ch: Changes, c: int)
    requires MembersIndexed(n.memberships, n.assemblies) && ch.assemblyDeletes !! ch.assemblyUpserts.Keys
    ensures Surviving(n, ch, c) == {} <==>
            var after := (n.assemblies - ch.assemblyDeletes) + ch.assemblyUpserts; forall i | i in after :: c !in after[i].members
  {
    var after := (n.assemblies - ch.assemblyDeletes) + ch.assemblyUpserts;
    forall i ensures i in Surviving(n, ch, c) <==> i in after && c in after[i].members {
      assert i in Owners(n.memberships, c) <==> i in n.assemblies && c in n.assemblies[i].members;
    }
    if Surviving(n, ch, c) != {} { var i := Pick(Surviving(n, ch, c)); }
  }

  lemma EdgesGone(n: Net, ch: Changes, c: int)
    requires EdgesIndexed(n.outgoing, n.incoming) && ch.upserts.Keys !! ch.deletes
    ensures (&& LeavingPorts(n, ch, c) == {}
             && (forall p | p in Sources(n.incoming, c) :: EdgeKey(p.peer, c, p.scope) in ch.deletes)
             && forall k | k in ch.upserts :: k.target != c)
       <==> forall k: EdgeKey | k.source == c || k.target == c :: View(n.outgoing, ch.upserts, ch.deletes).Edge(k).None?
  {
    var v := View(n.outgoing, ch.upserts, ch.deletes);
    forall p: Port ensures p in LeavingPorts(n, ch, c) <==> v.Edge(EdgeKey(c, p.peer, p.scope)).Some? {
      assert Port(p.peer, p.scope) == p;
      if EdgeKey(c, p.peer, p.scope) in ch.upserts { assert p in UpsertPorts(ch.upserts, c); }
    }
    if LeavingPorts(n, ch, c) != {} { var p := Pick(LeavingPorts(n, ch, c)); }
    forall k: EdgeKey | k.target == c
      ensures v.Edge(k).Some? <==> k in ch.upserts || (Port(k.source, k.scope) in Sources(n.incoming, c) && k !in ch.deletes) {}
    forall p | p in Sources(n.incoming, c) && EdgeKey(p.peer, c, p.scope) !in ch.deletes ensures v.Edge(EdgeKey(p.peer, c, p.scope)).Some? {}
    forall k: EdgeKey | k.source == c ensures v.Edge(k).Some? <==> Port(k.target, k.scope) in LeavingPorts(n, ch, c) {}
  }

  /** What may be reclaimed: a committed cell below the activity threshold that nothing holds and nothing ties to. */
  lemma ReclaimableIff(n: Net, cfg: Config, ch: Changes, held: set<int>, activation: map<int, real>, c: int)
    requires IndexInv(n) && ch.upserts.Keys !! ch.deletes && ch.assemblyDeletes !! ch.assemblyUpserts.Keys
    ensures Reclaimable(n, cfg, ch, held, activation, c) <==>
            && c in n.cells && n.cells[c].committed && c !in held && Untied(n, ch, c)
            && (c in activation ==> activation[c] < cfg.thetaActive) && (c !in activation ==> n.cells[c].activation < cfg.thetaActive)
  {
    hide Surviving, LeavingPorts, EdgesIndexed, MembersIndexed, SetsIndexed;
    OwnersGone(n, ch, c);
    EdgesGone(n, ch, c);
  }

  /** `held` are the referenced, reserved and temporally referenced cells. */
  method ReclaimableCells(n: Net, cfg: Config, candidates: set<int>, ch: Changes, held: set<int>, activation: map<int, real>)
      returns (r: set<int>)
    ensures r == ReclaimableOf(n, cfg, candidates, ch, held, activation)
  {
    hide Reclaimable;
    r := {};
    var todo := candidates;
    while todo != {}
      invariant todo <= candidates
      invariant r == set c | c in candidates && c !in todo && Reclaimable(n, cfg, ch, held, activation, c)
      decreases |todo|
    {
      var c := Min(todo);
      if Reclaimable(n, cfg, ch, held, activation, c) {
        r := r + {c};
      }
      todo := todo - {c};
    }
  }

  /** The producer's notion of isolated implies the validator's, for disjoint edge changes. */
  lemma ReclaimableAccepted(n: Net, cfg: Config, tx: Transaction, held: set<int>, activation: map<int, real>, c: int)
    requires tx.upserts.Keys !! tx.deletes
    requires tx.references + tx.commits <= held
    requires Reclaimable(n, cfg, Changes(tx.upserts, tx.deletes, tx.assemblyUpserts, tx.assemblyDeletes), held, activation, c)
    ensures ReclaimAccepted(n, tx, c)
  {
    var ch := Changes(tx.upserts, tx.deletes, tx.assemblyUpserts, tx.assemblyDeletes);
    forall p: Port ensures p !in PostBucket(n.outgoing, tx.upserts, tx.deletes, c) {
      assert p !in LeavingPorts(n, ch, c);
      PostBucketLookup(n.outgoing, tx.upserts, tx.deletes, EdgeKey(c, p.peer, p.scope));
    }
    forall i ensures i !in PostOwners(n, tx, c) {
      assert i !in Surviving(n, ch, c);
    }
  }
}
