/** What a tick of activation computes, independent of how it is enumerated. */
module ActivationLaws {
  // The next value of a cell, stated without the loop: every emitting cell of the network acts
  // on its own through each of its scoped edges, and the chances that nothing arrives multiply.

  import opened FiniteSets
  import opened RealFacts
  import opened CoreModel
  import opened NetworkState
  import opened Activation

  // ----- who emits, who is reached ------------------------------------------------------

  /** A cell emits if no boundary cuts the tick and its activation reaches the emission threshold. */
  ghost predicate Emits(n: Net, cfg: Config, boundary: bool, c: int) {
    !boundary && c in n.active && c in n.cells && n.cells[c].committed && n.cells[c].activation >= cfg.thetaEmit
  }

  /** A cell takes part if it is committed, and active, driven or reached by an edge of an emitting cell. */
  ghost predicate TakesPart(n: Net, cfg: Config, drives: map<int, real>, boundary: bool, c: int) {
    && c in n.cells && n.cells[c].committed
    && (c in n.active || c in drives || exists s, scope :: Emits(n, cfg, boundary, s) && EdgeAt(n.outgoing, EdgeKey(s, c, scope)).Some?)
  }

  lemma EmissionIs(n: Net, cfg: Config, boundary: bool, c: int)
    ensures c in Emission(n, cfg, boundary) <==> Emits(n, cfg, boundary, c)
  {
  }

  lemma EdgeToPort(out: Adjacency, s: int, c: int)
    ensures HasEdge(out, s, c) <==> exists scope :: EdgeAt(out, EdgeKey(s, c, scope)).Some?
  {
    if HasEdge(out, s, c) {
      var p :| p in Bucket(out, s) && p.peer == c;
      assert p == Port(c, p.scope);
      assert EdgeAt(out, EdgeKey(s, c, p.scope)).Some?;
    }
  }

  lemma TargetsAre(n: Net, cfg: Config, drives: map<int, real>, boundary: bool, c: int)
    ensures c in Targets(n, Emission(n, cfg, boundary), drives) <==> TakesPart(n, cfg, drives, boundary, c)
  {
    var emission := Emission(n, cfg, boundary);
    forall s ensures s in emission <==> Emits(n, cfg, boundary, s) { EmissionIs(n, cfg, boundary, s); }
    forall s | s in emission ensures HasEdge(n.outgoing, s, c) <==> exists scope :: EdgeAt(n.outgoing, EdgeKey(s, c, scope)).Some? {
      EdgeToPort(n.outgoing, s, c);
    }
    if c in Reached(n, emission) {
      var s, p :| s in emission && p in Bucket(n.outgoing, s) && CommittedIn(n.cells, p.peer) && p.peer == c;
      assert HasEdge(n.outgoing, s, c);
    }
    forall s | s in emission && HasEdge(n.outgoing, s, c) && CommittedIn(n.cells, c) ensures c in Reached(n, emission) {
      var p :| p in Bucket(n.outgoing, s) && p.peer == c;
    }
  }

  // ----- what arrives -------------------------------------------------------------------

  /** Strength times confidence, zero without an edge. */
  ghost function Carried(n: Net, cfg: Config, k: EdgeKey): real
    requires cfg.eMax > 0.0
  {
    match EdgeAt(n.outgoing, k)
    case None => 0.0
    case Some(e) => e.strength * (e.evidence / cfg.eMax)
  }

  /** What a unit of activation at `s` brings to `t` over its edges of all scopes. */
  ghost function Crossing(n: Net, cfg: Config, s: int, t: int): real
    requires cfg.eMax > 0.0
  {
    1.0 - (1.0 - Carried(n, cfg, EdgeKey(s, t, Local))) * (1.0 - Carried(n, cfg, EdgeKey(s, t, Associative)))
        * (1.0 - Carried(n, cfg, EdgeKey(s, t, CrossTerritory)))
  }

  /** What does not arrive of the activation of one source. */
  ghost function Miss(n: Net, cfg: Config, s: int, t: int): real
    requires cfg.eMax > 0.0 && s in n.cells
  {
    1.0 - n.cells[s].activation * Crossing(n, cfg, s, t)
  }

  /** Nothing arrives from any of the sources: each of them misses on its own. */
  ghost function Missed(n: Net, cfg: Config, t: int, sources: set<int>): real
    requires cfg.eMax > 0.0 && sources <= n.cells.Keys
    decreases |sources|
  {
    if sources == {} then 1.0 else
      var m := Min(sources);
      Missed(n, cfg, t, sources - {m}) * Miss(n, cfg, m, t)
  }

  lemma MissedUnfold(n: Net, cfg: Config, t: int, sources: set<int>)
    requires cfg.eMax > 0.0 && sources <= n.cells.Keys && sources != {}
    ensures Missed(n, cfg, t, sources) == Missed(n, cfg, t, sources - {Min(sources)}) * Miss(n, cfg, Min(sources), t)
  {
  }

  /** The order of the sources does not matter. */
  lemma {:induction false} MissedWithout(n: Net, cfg: Config, t: int, sources: set<int>, x: int)
    requires cfg.eMax > 0.0 && sources <= n.cells.Keys && x in sources
    ensures Missed(n, cfg, t, sources) == Missed(n, cfg, t, sources - {x}) * Miss(n, cfg, x, t)
    decreases |sources|
  {
    hide Miss, Missed, Min;
    var m := Min(sources);
    MissedUnfold(n, cfg, t, sources);
    if x != m {
      var rest := sources - {m} - {x};
      MissedWithout(n, cfg, t, sources - {m}, x);
      LeastWithout(sources, x);
      MissedUnfold(n, cfg, t, sources - {x});
      assert sources - {x} - {m} == rest;
      Exchange(Missed(n, cfg, t, rest), Miss(n, cfg, x, t), Miss(n, cfg, m, t));
    }
  }

  lemma Exchange(a: real, b: real, c: real)
    ensures (a * b) * c == (a * c) * b
  {
  }

  lemma LeastWithout(s: set<int>, x: int)
    requires x in s && x != Min(s)
    ensures s - {x} != {} && Min(s - {x}) == Min(s)
  {
    assert Min(s) in s - {x};
  }

  /** A source without an edge to the target brings nothing. */
  lemma {:induction false} SilentDropOut(n: Net, cfg: Config, t: int, sources: set<int>, heard: set<int>)
    requires cfg.eMax > 0.0 && heard <= sources <= n.cells.Keys
    requires forall s | s in sources - heard :: !HasEdge(n.outgoing, s, t)
    ensures Missed(n, cfg, t, sources) == Missed(n, cfg, t, heard)
    decreases |sources|
  {
    hide Crossing, HasEdge, Missed;
    if sources - heard == {} {
      assert sources == heard;
    } else {
      var x := Pick(sources - heard);
      MissedWithout(n, cfg, t, sources, x);
      NoCrossing(n, cfg, x, t);
      SilentDropOut(n, cfg, t, sources - {x}, heard);
    }
  }

  lemma NoCrossing(n: Net, cfg: Config, s: int, t: int)
    requires cfg.eMax > 0.0 && !HasEdge(n.outgoing, s, t)
    ensures Crossing(n, cfg, s, t) == 0.0
  {
    EdgeToPort(n.outgoing, s, t);
    assert EdgeAt(n.outgoing, EdgeKey(s, t, Local)).None? && EdgeAt(n.outgoing, EdgeKey(s, t, Associative)).None?
           && EdgeAt(n.outgoing, EdgeKey(s, t, CrossTerritory)).None?;
  }

  lemma CrossingIs(n: Net, cfg: Config, s: int, t: int)
    requires cfg.eMax > 0.0
    ensures EffectiveQuality(n.outgoing, cfg, s, t) == Crossing(n, cfg, s, t)
  {
    assert forall k: EdgeKey :: ScopeResidual(n.outgoing, cfg, k) == 1.0 - Carried(n, cfg, k);
  }

  lemma WithoutLast(order: seq<int>, sources: set<int>)
    requires order != [] && (forall x :: x in order <==> x in sources) && forall i, j | 0 <= i < j < |order| :: order[i] != order[j]
    ensures var x, init := order[|order| - 1], order[..|order| - 1];
            x in sources && forall y :: y in init <==> y in sources - {x}
  {
    var x, init := order[|order| - 1], order[..|order| - 1];
    assert x in order;
    forall y ensures y in init <==> y in sources - {x} {
      if y in sources - {x} {
        assert y in order;
        var i :| 0 <= i < |order| && order[i] == y;
        assert init[i] == y;
      }
      if y in init {
        var i :| 0 <= i < |init| && init[i] == y;
        assert order[i] == y;
      }
    }
  }

  lemma MissIs(n: Net, cfg: Config, s: int, t: int)
    requires cfg.eMax > 0.0 && s in n.cells
    ensures 1.0 - Emitted(n, s) * EffectiveQuality(n.outgoing, cfg, s, t) == Miss(n, cfg, s, t)
  {
    CrossingIs(n, cfg, s, t);
  }

  lemma NoneMissed(n: Net, cfg: Config, t: int)
    requires cfg.eMax > 0.0
    ensures Missed(n, cfg, t, {}) == 1.0
  {
  }

  lemma HeardAre(n: Net, emission: set<int>, t: int)
    ensures Emitters(n, emission, t) <= emission && forall s | s in emission - Emitters(n, emission, t) :: !HasEdge(n.outgoing, s, t)
  {
  }

  /** The loop over a list multiplies what a set of sources misses, whatever the order of the list. */
  lemma {:induction false} ResidualIs(n: Net, cfg: Config, t: int, order: seq<int>, sources: set<int>, start: real)
    requires cfg.eMax > 0.0 && sources <= n.cells.Keys
    requires (forall x :: x in order <==> x in sources) && forall i, j | 0 <= i < j < |order| :: order[i] != order[j]
    ensures Residual(n, cfg, t, order, start) == start * Missed(n, cfg, t, sources)
    decreases |order|
  {
    hide Miss, EffectiveQuality, Missed, Emitted;
    NoneMissed(n, cfg, t);
    if order == [] {
      assert forall x :: x !in sources;
      assert sources == {};
    } else {
      var x, init := order[|order| - 1], order[..|order| - 1];
      WithoutLast(order, sources);
      ResidualIs(n, cfg, t, init, sources - {x}, start);
      MissedWithout(n, cfg, t, sources, x);
      MissIs(n, cfg, x, t);
      Swap(start, Missed(n, cfg, t, sources - {x}), Miss(n, cfg, x, t));
    }
  }

  ghost function External(drives: map<int, real>, t: int): real { if t in drives then drives[t] else 0.0 }

  /** What the external drive and the sources bring together. */
  ghost function Arriving(n: Net, cfg: Config, drives: map<int, real>, t: int, sources: set<int>): real
    requires cfg.eMax > 0.0 && sources <= n.cells.Keys
  {
    1.0 - (1.0 - External(drives, t)) * Missed(n, cfg, t, sources)
  }

  lemma EmittingCells(n: Net, cfg: Config, boundary: bool, emitting: set<int>)
    requires forall c :: c in emitting <==> Emits(n, cfg, boundary, c)
    ensures emitting == Emission(n, cfg, boundary) && emitting <= n.cells.Keys
  {
    hide Emission;
    forall c ensures c in emitting <==> c in Emission(n, cfg, boundary) { EmissionIs(n, cfg, boundary, c); }
    forall c | c in emitting ensures c in n.cells.Keys { assert Emits(n, cfg, boundary, c); }
  }

  lemma DriveOfHeard(n: Net, cfg: Config, drives: map<int, real>, boundary: bool, t: int)
    requires cfg.eMax > 0.0 && Emission(n, cfg, boundary) <= n.cells.Keys
    ensures Emitters(n, Emission(n, cfg, boundary), t) <= n.cells.Keys
    ensures Drive(n, cfg, drives, boundary, t) == Arriving(n, cfg, drives, t, Emitters(n, Emission(n, cfg, boundary), t))
  {
    hide Emission, Residual, Missed, Emitters;
    var heard := Emitters(n, Emission(n, cfg, boundary), t);
    HeardAre(n, Emission(n, cfg, boundary), t);
    ResidualIs(n, cfg, t, Sorted(heard), heard, 1.0 - External(drives, t));
  }

  /** The drive of a cell: what the external drive and every emitting cell of the network miss together is left over. */
  lemma DriveIs(n: Net, cfg: Config, drives: map<int, real>, boundary: bool, t: int, emitting: set<int>)
    requires cfg.eMax > 0.0 && forall c :: c in emitting <==> Emits(n, cfg, boundary, c)
    ensures emitting <= n.cells.Keys
    ensures Drive(n, cfg, drives, boundary, t) == Arriving(n, cfg, drives, t, emitting)
  {
    hide Emission, Emits, Missed, HasEdge, Emitters, Drive;
    EmittingCells(n, cfg, boundary, emitting);
    DriveOfHeard(n, cfg, drives, boundary, t);
    HeardAre(n, emitting, t);
    SilentDropOut(n, cfg, t, emitting, Emitters(n, emitting, t));
  }

  // ----- the next value -----------------------------------------------------------------

  /** What is left of the old value and what the drive adds, capped at one. */
  ghost function NextOf(cfg: Config, before: real, drive: real): real {
    MinReal(1.0, (1.0 - cfg.deltaA) * before + cfg.gammaA * drive)
  }

  /** The next value blends the old value, which a boundary forgets, and the drive. */
  lemma NextValueIs(n: Net, cfg: Config, drives: map<int, real>, boundary: bool, t: int)
    requires cfg.Valid() && EdgesOk(cfg, n.outgoing) && CellsOk(cfg, n.cells) && LawfulDrives(drives) && t in n.cells
    ensures NextValue(n, cfg, drives, boundary, t)
         == NextOf(cfg, if boundary then 0.0 else n.cells[t].activation, Drive(n, cfg, drives, boundary, t))
  {
    hide Drive, EdgesOk, Blend, NextOf;
    DriveRange(n, cfg, drives, boundary, t);
    assert CellOk(cfg, n.cells[t]);
    BlendIs(cfg, if boundary then 0.0 else n.cells[t].activation, Drive(n, cfg, drives, boundary, t));
  }

  lemma BlendIs(cfg: Config, before: real, drive: real)
    requires cfg.Valid() && 0.0 <= before && 0.0 <= drive
    ensures Blend(cfg, before, drive) == NextOf(cfg, before, drive)
  {
    Product(1.0 - cfg.deltaA, before);
    Product(cfg.gammaA, drive);
  }

  /** Across a boundary only the external drive counts. */
  lemma BoundaryValue(n: Net, cfg: Config, drives: map<int, real>, t: int)
    requires cfg.Valid() && EdgesOk(cfg, n.outgoing) && CellsOk(cfg, n.cells) && LawfulDrives(drives) && t in n.cells
    ensures NextValue(n, cfg, drives, true, t) == cfg.gammaA * External(drives, t)
  {
    NextValueIs(n, cfg, drives, true, t);
    DriveIs(n, cfg, drives, true, t, {});
    UnitProduct(cfg.gammaA, External(drives, t));
  }

  /** The activation half of a tick, as a whole. */
  lemma ActivationMeans(n: Net, cfg: Config, drives: map<int, real>, boundary: bool, next: map<int, real>, emitting: set<int>)
    requires cfg.Valid() && EdgesOk(cfg, n.outgoing) && CellsOk(cfg, n.cells) && LawfulDrives(drives)
    requires forall c :: c in emitting <==> Emits(n, cfg, boundary, c)
    requires next.Keys == Targets(n, Emission(n, cfg, boundary), drives)
    requires forall c | c in next :: c in n.cells && next[c] == NextValue(n, cfg, drives, boundary, c)
    ensures emitting <= n.cells.Keys
    ensures forall c :: c in next <==> TakesPart(n, cfg, drives, boundary, c)
    ensures forall c | c in next ::
              next[c] == NextOf(cfg, if boundary then 0.0 else n.cells[c].activation, Arriving(n, cfg, drives, c, emitting))
  {
    hide NextValue, NextOf, Drive, Arriving, Targets, Emission, EdgesOk, CellsOk, TakesPart;
    forall c ensures c in next <==> TakesPart(n, cfg, drives, boundary, c) { TargetsAre(n, cfg, drives, boundary, c); }
    DriveIs(n, cfg, drives, boundary, 0, emitting);
    forall c | c in next
      ensures next[c] == NextOf(cfg, if boundary then 0.0 else n.cells[c].activation, Arriving(n, cfg, drives, c, emitting))
    {
      DriveIs(n, cfg, drives, boundary, c, emitting);
      NextValueIs(n, cfg, drives, boundary, c);
    }
  }
}
