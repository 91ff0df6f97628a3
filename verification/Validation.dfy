/** What records check of themselves, and the diameter a topology measures. */
module Validation {
  import opened FiniteSets
  import opened CoreModel

  predicate ValidCell(cfg: Config, cell: Cell): (ok: bool)
    ensures ok <==> CellOk(cfg, cell)
  {
    if cell.id < 0 then false
    else if cell.activation < 0.0 || cell.activation > 1.0 then false
    else 0 < cell.budget
  }

  predicate ValidSynapse(cfg: Config, source: int, edge: Synapse): (ok: bool)
    ensures ok <==> SynapseOk(cfg, source, edge)
  {
    if source < 0 || edge.target < 0 then false
    else if source == edge.target then false
    else if edge.strength < 0.0 || edge.strength > 1.0 then false
    else 0.0 <= edge.evidence <= cfg.eMax
  }

  predicate ValidAssembly(assembly: Assembly): (ok: bool)
    ensures ok <==> AssemblyOk(assembly)
  {
    if assembly.id < 0 then false
    else if assembly.members == {} then false
    else !exists m :: m in assembly.members && m < 0
  }

  /** Some pair of members is that far apart. */
  ghost predicate Attained(cfg: Config, members: set<int>, d: real) {
    exists l, r :: l in members && r in members && l < r && cfg.topology.distance(l, r) == d
  }

  /** The largest distance between two members, zero if there is one member only. */
  ghost predicate DiameterIs(cfg: Config, members: set<int>, d: real) {
    && 0.0 <= d && (forall l, r | l in members && r in members && l < r :: cfg.topology.distance(l, r) <= d)
    && (d == 0.0 || Attained(cfg, members, d))
  }

  method Diameter(cfg: Config, members: set<int>) returns (maximum: real)
    ensures DiameterIs(cfg, members, maximum)
  {
    maximum := 0.0;
    var left := members;
    while left != {}
      invariant left <= members && 0.0 <= maximum
      invariant forall l, r | l in members - left && r in members && l < r :: cfg.topology.distance(l, r) <= maximum
      invariant maximum == 0.0 || Attained(cfg, members, maximum)
      decreases |left|
    {
      var l := Min(left);
      var right := set r | r in members && l < r;
      var todo := right;
      while todo != {}
        invariant todo <= right && 0.0 <= maximum
        invariant forall x, r | x in members - left && r in members && x < r :: cfg.topology.distance(x, r) <= maximum
        invariant forall r | r in right - todo :: cfg.topology.distance(l, r) <= maximum
        invariant maximum == 0.0 || Attained(cfg, members, maximum)
        decreases |todo|
      {
        var r := Min(todo);
        if cfg.topology.distance(l, r) > maximum {
          maximum := cfg.topology.distance(l, r);
          assert l in members && r in members && l < r && cfg.topology.distance(l, r) == maximum;
        }
        todo := todo - {r};
      }
      left := left - {l};
    }
  }

  /** A set fits exactly when its diameter is within the assembly radius. */
  lemma DiameterFits(cfg: Config, members: set<int>, d: real)
    requires cfg.Valid() && DiameterIs(cfg, members, d)
    ensures d <= cfg.assemblyRadius <==> cfg.Fits(members)
  {
  }
}
