/**
 Canonical Layer 1 records, the calibration surface and the logical topology, together
 with the read-only synaptic view every producer of a tick works on.

 Floating-point numbers are modelled by reals. The distance between two logical ids, the
 territory an id belongs to and the specificity neighbourhood of an id are parameters of
 the topology: nothing below depends on how the grid lays ids out.
 */
module CoreModel {
  import opened Options

  datatype Territory = Language | Audio | Vision

  datatype SynapseState = Candidate | Consolidated

  datatype Scope = Local | Associative | CrossTerritory
  {
    function Order(): nat {
      match this
      case Local => 0
      case Associative => 1
      case CrossTerritory => 2
    }
  }

  datatype Cell = Cell(id: int, territory: Territory, committed: bool, activation: real, budget: int)

  datatype Synapse = Synapse(target: int, strength: real, evidence: real, state: SynapseState, scope: Scope)

  datatype Assembly = Assembly(id: int, territory: Territory, members: set<int>)

  /** Identity of a synapse: source, target and scope. */
  datatype EdgeKey = EdgeKey(source: int, target: int, scope: Scope)

  /** One end of an adjacency bucket: the cell at the other end, and the scope. */
  datatype Port = Port(peer: int, scope: Scope)

  type Adjacency = map<int, map<Port, Synapse>>
  type Incoming = map<int, set<Port>>

  datatype Topology = Topology(territoryOf: int -> Territory, distance: (int, int) -> real, near: int -> set<int>)

  datatype Config = Config(
    topology: Topology,
    capacity: int,
    defaultBudget: int,
    deltaA: real, gammaA: real, thetaActive: real, thetaEmit: real,
    localRadius: real, associativeRadius: real, assemblyRadius: real,
    thetaR: real, kR: int,
    thetaCreate: real, eMax: real, thetaS: real, thetaE: real, thetaDemote: real, thetaPrune: real,
    thetaA: real, kMin: int, kMax: int, dMin: int, rho: real, rhoG: real, sigmaG: real,
    rhoKeep: real, sigmaKeep: real, mMax: int, epsilon: real)
  {
    /** The calibration the constructor accepts, except that thetaA must be positive. */
    predicate Valid() {
      && capacity >= 3 && defaultBudget > 0 && kR > 0 && 0 < kMin <= kMax && mMax > 0
      && 0.0 < thetaActive <= thetaEmit <= 1.0
      && 0.0 <= deltaA <= 1.0 && 0.0 <= gammaA <= 1.0
      && 0.0 < eMax && 0.0 < epsilon && 0.0 < localRadius && 0.0 < associativeRadius && 0.0 < assemblyRadius
      && 0.0 <= thetaDemote < thetaS <= 1.0
      && 0.0 < thetaA <= 1.0
      && 0.0 <= rhoKeep < rhoG <= 1.0 && 0.0 <= sigmaKeep < sigmaG <= 1.0
      && 0.0 <= thetaR <= 1.0 && 0.0 <= thetaCreate <= 1.0 && 0.0 <= thetaE <= 1.0
      && 0.0 <= thetaPrune <= 1.0 && 0.0 <= rho <= 1.0
    }

    predicate ValidId(id: int): (ok: bool)
      ensures ok <==> 0 <= id && id < capacity
    {
      0 <= id < capacity
    }

    predicate Eligible(k: EdgeKey) {
      && k.source != k.target
      && match k.scope
         case Local => Same(k) && topology.distance(k.source, k.target) <= localRadius
         case Associative => Same(k) && topology.distance(k.source, k.target) <= associativeRadius
         case CrossTerritory => !Same(k) && topology.distance(k.source, k.target) <= associativeRadius
    }

    predicate Same(k: EdgeKey) { topology.territoryOf(k.source) == topology.territoryOf(k.target) }

    /** The largest pairwise distance of the members is within the assembly radius. */
    ghost predicate Fits(members: set<int>) {
      forall l, r | l in members && r in members && l < r :: topology.distance(l, r) <= assemblyRadius
    }
  }

  ghost predicate CellOk(cfg: Config, cell: Cell) {
    cell.id >= 0 && 0.0 <= cell.activation <= 1.0 && cell.budget > 0
  }

  ghost predicate SynapseOk(cfg: Config, source: int, edge: Synapse) {
    && source >= 0 && edge.target >= 0 && source != edge.target
    && 0.0 <= edge.strength <= 1.0 && 0.0 <= edge.evidence <= cfg.eMax
  }

  ghost predicate AssemblyOk(assembly: Assembly) {
    assembly.id >= 0 && assembly.members != {} && forall m | m in assembly.members :: m >= 0
  }

  // ----- adjacency look-ups ------------------------------------------------------------

  function Bucket(out: Adjacency, source: int): map<Port, Synapse> {
    if source in out then out[source] else map[]
  }

  function EdgeAt(out: Adjacency, k: EdgeKey): Option<Synapse> {
    var ports := Bucket(out, k.source);
    if Port(k.target, k.scope) in ports then Some(ports[Port(k.target, k.scope)]) else None
  }

  function Sources(incoming: Incoming, target: int): set<Port> {
    if target in incoming then incoming[target] else {}
  }

  function Owners(memberships: map<int, set<int>>, member: int): set<int> {
    if member in memberships then memberships[member] else {}
  }

  // ----- the synaptic view of one tick -------------------------------------------------

  /** The structural overlay: a snapshot adjacency under the edge changes of the tick. */
  datatype View = View(out: Adjacency, upserts: map<EdgeKey, Synapse>, deletes: set<EdgeKey>)
  {
    function Edge(k: EdgeKey): Option<Synapse> {
      if k in deletes then None
      else if k in upserts then Some(upserts[k])
      else EdgeAt(out, k)
    }
  }

  function Plain(out: Adjacency): View { View(out, map[], {}) }

  function Quality(cfg: Config, edge: Synapse): real
    requires cfg.eMax > 0.0
  {
    edge.strength * (edge.evidence / cfg.eMax)
  }

  function MinReal(a: real, b: real): real { if a <= b then a else b }

  /** Reciprocal quality: zero unless both directions exist and are consolidated. */
  function Reciprocal(v: View, cfg: Config, a: int, b: int, scope: Scope): real
    requires cfg.eMax > 0.0
  {
    var forward := v.Edge(EdgeKey(a, b, scope));
    var reverse := v.Edge(EdgeKey(b, a, scope));
    if scope.CrossTerritory? || forward.None? || reverse.None?
      || !forward.value.state.Consolidated? || !reverse.value.state.Consolidated? then 0.0
    else MinReal(Quality(cfg, forward.value), Quality(cfg, reverse.value))
  }

  /** The link assemblies are built from. */
  predicate Linked(v: View, cfg: Config, a: int, b: int)
    requires cfg.eMax > 0.0
  {
    Reciprocal(v, cfg, a, b, Local) >= cfg.thetaA
  }

  lemma LinkedFacts(v: View, cfg: Config, a: int, b: int)
    requires cfg.Valid() && Linked(v, cfg, a, b)
    ensures Linked(v, cfg, b, a)
    ensures v.Edge(EdgeKey(a, b, Local)).Some? && v.Edge(EdgeKey(b, a, Local)).Some?
  {
  }
}
