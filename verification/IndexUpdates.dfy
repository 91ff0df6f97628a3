/**
 Single writes to the adjacency and to the assembly indexes, as `commit` and the seeding
 constructors perform them, and what each write keeps: the incoming map stays the inverse of
 the outgoing one, and both assembly indexes stay inverses of the assemblies.
 */
module IndexUpdates {
  import opened Options
  import opened CoreModel
  import opened NetworkState

  // ----- edges -------------------------------------------------------------------------

  function DropOutgoing(out: Adjacency, k: EdgeKey): Adjacency {
    if k.source in out then out[k.source := out[k.source] - {Port(k.target, k.scope)}] else out
  }

  function DropIncoming(incoming: Incoming, k: EdgeKey): Incoming {
    if k.target in incoming then incoming[k.target := incoming[k.target] - {Port(k.source, k.scope)}] else incoming
  }

  function PutOutgoing(out: Adjacency, k: EdgeKey, edge: Synapse): Adjacency {
    out[k.source := Bucket(out, k.source)[Port(k.target, k.scope) := edge]]
  }

  function PutIncoming(incoming: Incoming, k: EdgeKey): Incoming {
    incoming[k.target := Sources(incoming, k.target) + {Port(k.source, k.scope)}]
  }

  lemma PortsDetermineKeys(a: EdgeKey, b: EdgeKey)
    ensures a.source == b.source && Port(a.target, a.scope) == Port(b.target, b.scope) ==> a == b
    ensures a.target == b.target && Port(a.source, a.scope) == Port(b.source, b.scope) ==> a == b
  {
  }

  lemma DropEdge(out: Adjacency, incoming: Incoming, k: EdgeKey)
    requires EdgesIndexed(out, incoming)
    ensures EdgesIndexed(DropOutgoing(out, k), DropIncoming(incoming, k))
    ensures forall x: EdgeKey {:trigger EdgeAt(DropOutgoing(out, k), x)} ::
              EdgeAt(DropOutgoing(out, k), x) == if x == k then None else EdgeAt(out, x)
  {
    forall x: EdgeKey
      ensures EdgeAt(DropOutgoing(out, k), x) == if x == k then None else EdgeAt(out, x)
      ensures Port(x.source, x.scope) in Sources(DropIncoming(incoming, k), x.target)
         <==> x != k && Port(x.source, x.scope) in Sources(incoming, x.target)
    {
      PortsDetermineKeys(x, k);
    }
  }

  lemma PutEdge(out: Adjacency, incoming: Incoming, k: EdgeKey, edge: Synapse)
    requires EdgesIndexed(out, incoming) && edge.target == k.target && edge.scope == k.scope
    ensures EdgesIndexed(PutOutgoing(out, k, edge), PutIncoming(incoming, k))
    ensures forall x: EdgeKey {:trigger EdgeAt(PutOutgoing(out, k, edge), x)} ::
              EdgeAt(PutOutgoing(out, k, edge), x) == if x == k then Some(edge) else EdgeAt(out, x)
  {
    forall x: EdgeKey
      ensures EdgeAt(PutOutgoing(out, k, edge), x) == if x == k then Some(edge) else EdgeAt(out, x)
      ensures Port(x.source, x.scope) in Sources(PutIncoming(incoming, k), x.target)
         <==> x == k || Port(x.source, x.scope) in Sources(incoming, x.target)
    {
      PortsDetermineKeys(x, k);
    }
  }

  /** Removing the buckets of a cell no edge touches leaves every look-up as it was. */
  lemma DropCell(out: Adjacency, incoming: Incoming, c: int)
    requires EdgesIndexed(out, incoming)
    requires forall k: EdgeKey | EdgeAt(out, k).Some? :: k.source != c && k.target != c
    ensures EdgesIndexed(out - {c}, incoming - {c})
    ensures forall x: EdgeKey {:trigger EdgeAt(out - {c}, x)} :: EdgeAt(out - {c}, x) == EdgeAt(out, x)
  {
    forall x: EdgeKey
      ensures EdgeAt(out - {c}, x) == EdgeAt(out, x)
      ensures Port(x.source, x.scope) in Sources(incoming - {c}, x.target)
         <==> Port(x.source, x.scope) in Sources(incoming, x.target)
    {
      assert EdgeAt(out, x).Some? <==> Port(x.source, x.scope) in Sources(incoming, x.target);
    }
  }

  // ----- assemblies --------------------------------------------------------------------

  /** Take `id` out of the owner sets of `members`, dropping the sets that become empty. */
  function Withdraw(memberships: map<int, set<int>>, members: set<int>, id: int): map<int, set<int>> {
    map m | m in memberships && !(m in members && memberships[m] <= {id}) ::
      if m in members then memberships[m] - {id} else memberships[m]
  }

  function Enroll(memberships: map<int, set<int>>, members: set<int>, id: int): map<int, set<int>> {
    map m | m in memberships.Keys + members ::
      if m in members then Owners(memberships, m) + {id} else memberships[m]
  }

  lemma WithdrawAssembly(memberships: map<int, set<int>>, byMembers: map<set<int>, int>,
                         assemblies: map<int, Assembly>, id: int)
    requires MembersIndexed(memberships, assemblies) && SetsIndexed(byMembers, assemblies) && id in assemblies
    ensures MembersIndexed(Withdraw(memberships, assemblies[id].members, id), assemblies - {id})
    ensures SetsIndexed(byMembers - {assemblies[id].members}, assemblies - {id})
  {
    var members := assemblies[id].members;
    var ws := Withdraw(memberships, members, id);
    forall m, i
      ensures i in Owners(ws, m) <==> i in assemblies - {id} && m in assemblies[i].members
    {
      assert i in Owners(memberships, m) <==> i in assemblies && m in assemblies[i].members;
      assert id in Owners(memberships, m) <==> m in members;
    }
    forall m | m in ws ensures ws[m] != {} {
      if m in members {
        assert !(memberships[m] <= {id});
      }
    }
  }

  lemma EnrollAssembly(memberships: map<int, set<int>>, byMembers: map<set<int>, int>,
                       assemblies: map<int, Assembly>, id: int, a: Assembly)
    requires MembersIndexed(memberships, assemblies) && SetsIndexed(byMembers, assemblies)
    requires id !in assemblies && a.members !in byMembers
    ensures MembersIndexed(Enroll(memberships, a.members, id), assemblies[id := a])
    ensures SetsIndexed(byMembers[a.members := id], assemblies[id := a])
  {
    var es := Enroll(memberships, a.members, id);
    forall m, i
      ensures i in Owners(es, m) <==> i in assemblies[id := a] && m in assemblies[id := a][i].members
    {
      assert i in Owners(memberships, m) <==> i in assemblies && m in assemblies[i].members;
    }
  }

  /** The three assembly maps agree with each other. */
  ghost predicate AssembliesIndexed(assemblies: map<int, Assembly>, memberships: map<int, set<int>>, byMembers: map<set<int>, int>) {
    MembersIndexed(memberships, assemblies) && SetsIndexed(byMembers, assemblies)
  }

  lemma WithdrawStart(before: map<int, Assembly>, ids: set<int>)
    ensures before - (ids - ids) == before && ids - {} == ids
  {
    assert ids - ids == {};
  }

  lemma WithdrawStep(before: map<int, Assembly>, ids: set<int>, todo: set<int>, id: int)
    requires id in todo && todo <= ids
    ensures before - (ids - (todo - {id})) == (before - (ids - todo)) - {id}
  {
  }
}
