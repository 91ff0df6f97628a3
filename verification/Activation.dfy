/** Snapshot-based activation dynamics. */
module Activation {
  import opened FiniteSets
  import opened RealFacts
  import opened CoreModel
  import opened NetworkState

  function ScopeResidual(out: Adjacency, cfg: Config, k: EdgeKey): real
    requires cfg.eMax > 0.0
  {
    match EdgeAt(out, k)
    case None => 1.0
    case Some(e) => 1.0 - Quality(cfg, e)
  }

  /** The scoped edges of one ordered pair combine into a single contribution. */
  function EffectiveQuality(out: Adjacency, cfg: Config, source: int, target: int): real
    requires cfg.eMax > 0.0
  {
    1.0 - ScopeResidual(out, cfg, EdgeKey(source, target, Local))
        * ScopeResidual(out, cfg, EdgeKey(source, target, Associative))
        * ScopeResidual(out, cfg, EdgeKey(source, target, CrossTerritory))
  }

  function Emission(n: Net, cfg: Config, boundary: bool): set<int> {
    if boundary then {} else set c | c in n.active && CommittedIn(n.cells, c) && n.cells[c].activation >= cfg.thetaEmit
  }

  predicate HasEdge(out: Adjacency, source: int, target: int) {
    exists p | p in Bucket(out, source) :: p.peer == target
  }

  /** Emitting sources with an edge to `target`. */
  function Emitters(n: Net, emission: set<int>, target: int): set<int> {
    set s | s in emission && HasEdge(n.outgoing, s, target)
  }

  function Reached(n: Net, emission: set<int>): set<int> {
    set s, p | s in emission && p in Bucket(n.outgoing, s) && CommittedIn(n.cells, p.peer) :: p.peer
  }

  /** Active cells, driven committed cells and the targets of the emission. */
  function Targets(n: Net, emission: set<int>, drives: map<int, real>): set<int> {
    set c | c in n.active + drives.Keys + Reached(n, emission) && CommittedIn(n.cells, c)
  }

  function Emitted(n: Net, source: int): real { if source in n.cells then n.cells[source].activation else 0.0 }

  function Residual(n: Net, cfg: Config, target: int, sources: seq<int>, start: real): real
    requires cfg.eMax > 0.0
    decreases |sources|
  {
    if sources == [] then start else
      var s := sources[|sources| - 1];
      Residual(n, cfg, target, sources[..|sources| - 1], start) * (1.0 - Emitted(n, s) * EffectiveQuality(n.outgoing, cfg, s, target))
  }

  function Clamp(x: real): real { if x < 0.0 then 0.0 else if x > 1.0 then 1.0 else x }

  function Drive(n: Net, cfg: Config, drives: map<int, real>, boundary: bool, target: int): real
    requires cfg.eMax > 0.0
  {
    var external := if target in drives then drives[target] else 0.0;
    1.0 - Residual(n, cfg, target, Sorted(Emitters(n, Emission(n, cfg, boundary), target)), 1.0 - external)
  }

  function Blend(cfg: Config, before: real, drive: real): real { Clamp((1.0 - cfg.deltaA) * before + cfg.gammaA * drive) }

  function NextValue(n: Net, cfg: Config, drives: map<int, real>, boundary: bool, target: int): real
    requires cfg.eMax > 0.0 && target in n.cells
  {
    var before := if boundary then 0.0 else n.cells[target].activation;
    Blend(cfg, before, Drive(n, cfg, drives, boundary, target))
  }

  predicate LawfulDrives(drives: map<int, real>) { forall c | c in drives :: 0.0 <= drives[c] <= 1.0 }

  /** Every target of the tick gets its next activation; an unlawful drive aborts. */
  method ComputeActivation(n: Net, cfg: Config, drives: map<int, real>, boundary: bool)
      returns (ok: bool, next: map<int, real>)
    requires cfg.Valid()
    ensures ok <==> LawfulDrives(drives)
    ensures ok ==> next.Keys == Targets(n, Emission(n, cfg, boundary), drives)
    ensures ok ==> forall c | c in next :: CommittedIn(n.cells, c) && next[c] == NextValue(n, cfg, drives, boundary, c)
  {
    hide NextValue, Targets, Emission, CommittedIn, LawfulDrives;
    next := map[];
    if !LawfulDrives(drives) {
      return false, next;
    }
    var targets := Targets(n, Emission(n, cfg, boundary), drives);
    TargetsCommitted(n, Emission(n, cfg, boundary), drives);
    var todo := targets;
    while todo != {}
      invariant todo <= targets && next.Keys == targets - todo
      invariant forall c | c in next :: next[c] == NextValue(n, cfg, drives, boundary, c)
      decreases |todo|
    {
      var c := Min(todo);
      next := next[c := NextValue(n, cfg, drives, boundary, c)];
      todo := todo - {c};
    }
    ok := true;
  }

  lemma TargetsCommitted(n: Net, emission: set<int>, drives: map<int, real>)
    ensures forall c | c in Targets(n, emission, drives) :: c in n.cells && CommittedIn(n.cells, c)
  {
  }

  lemma QualityRange(n: Net, cfg: Config, k: EdgeKey)
    requires cfg.Valid() && EdgesOk(cfg, n.outgoing)
    ensures 0.0 <= ScopeResidual(n.outgoing, cfg, k) <= 1.0
  {
    if EdgeAt(n.outgoing, k).Some? {
      var e := EdgeAt(n.outgoing, k).value;
      assert SynapseOk(cfg, k.source, e);
      Ratio(e.evidence, cfg.eMax);
      UnitProduct(e.strength, e.evidence / cfg.eMax);
    }
  }

  lemma EffectiveRange(n: Net, cfg: Config, source: int, target: int)
    requires cfg.Valid() && EdgesOk(cfg, n.outgoing)
    ensures 0.0 <= EffectiveQuality(n.outgoing, cfg, source, target) <= 1.0
  {
    QualityRange(n, cfg, EdgeKey(source, target, Local));
    QualityRange(n, cfg, EdgeKey(source, target, Associative));
    QualityRange(n, cfg, EdgeKey(source, target, CrossTerritory));
    var a := ScopeResidual(n.outgoing, cfg, EdgeKey(source, target, Local));
    var b := ScopeResidual(n.outgoing, cfg, EdgeKey(source, target, Associative));
    UnitProduct(a, b);
    UnitProduct(a * b, ScopeResidual(n.outgoing, cfg, EdgeKey(source, target, CrossTerritory)));
  }

  lemma ActivationRange(n: Net, cfg: Config, source: int)
    requires CellsOk(cfg, n.cells)
    ensures 0.0 <= Emitted(n, source) <= 1.0
  {
    if source in n.cells { assert CellOk(cfg, n.cells[source]); }
  }

  lemma StepRange(residual: real, start: real, activation: real, quality: real)
    requires 0.0 <= residual <= start <= 1.0 && 0.0 <= activation <= 1.0 && 0.0 <= quality <= 1.0
    ensures 0.0 <= residual * (1.0 - activation * quality) <= start
  {
    UnitProduct(activation, quality);
    UnitProduct(residual, 1.0 - activation * quality);
  }

  /** The running residual never leaves the unit interval and only falls. */
  lemma {:induction false} ResidualRange(n: Net, cfg: Config, target: int, sources: seq<int>, start: real)
    requires cfg.Valid() && EdgesOk(cfg, n.outgoing) && CellsOk(cfg, n.cells) && 0.0 <= start <= 1.0
    ensures 0.0 <= Residual(n, cfg, target, sources, start) <= start
    decreases |sources|
  {
    hide EffectiveQuality, Emitted, EdgesOk, CellsOk;
    if sources != [] {
      var s := sources[|sources| - 1];
      var rest := sources[..|sources| - 1];
      ResidualRange(n, cfg, target, rest, start);
      EffectiveRange(n, cfg, s, target);
      ActivationRange(n, cfg, s);
      StepRange(Residual(n, cfg, target, rest, start), start, Emitted(n, s), EffectiveQuality(n.outgoing, cfg, s, target));
    }
  }

  /** A drive is at least the external drive and at most one. */
  lemma DriveRange(n: Net, cfg: Config, drives: map<int, real>, boundary: bool, target: int)
    requires cfg.Valid() && EdgesOk(cfg, n.outgoing) && CellsOk(cfg, n.cells) && LawfulDrives(drives)
    ensures (if target in drives then drives[target] else 0.0) <= Drive(n, cfg, drives, boundary, target) <= 1.0
  {
    hide Residual, Emission, Emitters, EdgesOk, CellsOk;
    var external := if target in drives then drives[target] else 0.0;
    ResidualRange(n, cfg, target, Sorted(Emitters(n, Emission(n, cfg, boundary), target)), 1.0 - external);
  }
}
