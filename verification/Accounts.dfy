/** The books of one invocation. */
module Accounts {
  // The books of one invocation: its ledger, the escrows it delegated, and the charges ever
  // made. Every consumed unit has exactly one charge, and delegation conserves the budget.

  import opened Options
  import opened Ledger
  import opened Escrow

  /** A charge and the place of its unit: 0 is the parent ledger, k + 1 the k-th escrow. */
  datatype Entry = Entry(place: nat, charge: Charge)

  function UnitAt(ix: Index, pools: seq<Pool>, place: nat, unit: nat): Option<Unit> {
    if place == 0 then (if unit < |ix.units| then Some(ix.units[unit]) else None)
    else if place <= |pools| && unit < |pools[place - 1].index.units| then Some(pools[place - 1].index.units[unit])
    else None
  }

  ghost predicate HasEntry(log: seq<Entry>, place: nat, unit: nat) {
    exists j :: 0 <= j < |log| && log[j].place == place && log[j].charge.unit == unit
  }

  /** Charges and consumed units match one to one, under the same reservation. */
  ghost predicate Logged(ix: Index, pools: seq<Pool>, log: seq<Entry>) {
    && (forall j | 0 <= j < |log| ::
          UnitAt(ix, pools, log[j].place, log[j].charge.unit) == Some(Unit(Consumed, Some(log[j].charge.reservation))))
    && (forall i, j | 0 <= i < j < |log| :: log[i].place != log[j].place || log[i].charge.unit != log[j].charge.unit)
    && forall p: nat, u: nat {:trigger UnitAt(ix, pools, p, u)} ::
         UnitAt(ix, pools, p, u).Some? && UnitAt(ix, pools, p, u).value.state.Consumed? ==> HasEntry(log, p, u)
  }

  /** The escrow was issued by a record of the parent ledger whose units are all delegated. */
  ghost predicate IssuedBy(ix: Index, p: Pool) {
    && PoolOk(p) && p.parent.Issued? && p.parent.sequence in ix.records
    && ix.records[p.parent.sequence].identity == p.parent
    && |ix.records[p.parent.sequence].units| == 2 * p.horizon
    && forall i | i in ix.records[p.parent.sequence].units :: i < |ix.units| && ix.units[i].state.Delegated?
  }

  ghost predicate PoolsOk(ix: Index, pools: seq<Pool>) {
    && (forall k | 0 <= k < |pools| :: IssuedBy(ix, pools[k]))
    && forall k, l | 0 <= k < l < |pools| :: pools[k].parent.sequence < pools[l].parent.sequence
  }

  ghost predicate GeneralRecords(ix: Index) { forall t | t in ix.records :: ix.records[t].identity.Issued? }

  function In(units: seq<Unit>, s: UnitState): set<int> {
    set i | 0 <= i < |units| && units[i].state == s
  }

  function PoolSize(pools: seq<Pool>): nat {
    if pools == [] then 0 else PoolSize(pools[..|pools| - 1]) + |pools[|pools| - 1].index.units|
  }

  function PoolConsumed(pools: seq<Pool>): nat {
    if pools == [] then 0 else PoolConsumed(pools[..|pools| - 1]) + |In(pools[|pools| - 1].index.units, Consumed)|
  }

  ghost predicate AccountsOk(initial: nat, ix: Index, pools: seq<Pool>, log: seq<Entry>) {
    && IndexOk(ix) && NextFree(ix) && GeneralRecords(ix) && |ix.units| == initial
    && PoolsOk(ix, pools)
    && Logged(ix, pools, log)
    && |In(ix.units, Delegated)| == PoolSize(pools)
    && |log| == |In(ix.units, Consumed)| + PoolConsumed(pools)
  }

  // ----- what the books guarantee -------------------------------------------------------

  /** No unit is ever charged twice: different charges name different charge units. */
  lemma NoDoubleCharge(initial: nat, ix: Index, pools: seq<Pool>, log: seq<Entry>, i: nat, j: nat)
    requires AccountsOk(initial, ix, pools, log) && i < j < |log|
    ensures log[i].charge.reservation != log[j].charge.reservation || log[i].charge.unit != log[j].charge.unit
  {
    EntryReservation(ix, pools, log, i);
    EntryReservation(ix, pools, log, j);
    var p, q := log[i].place, log[j].place;
    if p > 0 && q > 0 && p != q {
      assert pools[p - 1].parent.sequence != pools[q - 1].parent.sequence;
    }
  }

  lemma EntryReservation(ix: Index, pools: seq<Pool>, log: seq<Entry>, i: nat)
    requires IndexOk(ix) && GeneralRecords(ix) && PoolsOk(ix, pools) && Logged(ix, pools, log) && i < |log|
    ensures var p, r := log[i].place, log[i].charge.reservation;
            p <= |pools| && if p == 0 then r.Issued? else r.Slot? && r.parent == pools[p - 1].parent
  {
    var p, u := log[i].place, log[i].charge.unit;
    assert UnitAt(ix, pools, p, u).Some?;
    if p == 0 {
      assert UnitOk(ix, u);
    } else {
      assert IssuedBy(ix, pools[p - 1]);
    }
  }

  lemma InStep(units: seq<Unit>, s: UnitState)
    requires units != []
    ensures |In(units, s)| == |In(units[..|units| - 1], s)| + (if units[|units| - 1].state == s then 1 else 0)
  {
    var last := |units| - 1;
    assert forall i | 0 <= i < last :: units[..last][i] == units[i];
    assert In(units, s) == In(units[..last], s) + (if units[last].state == s then {last} else {});
  }

  /** Every unit is in exactly one state. */
  lemma {:induction false} StatesPartition(units: seq<Unit>)
    ensures |In(units, Available)| + |In(units, Reserved)| + |In(units, Consumed)| + |In(units, Retired)| + |In(units, Delegated)| == |units|
    decreases |units|
  {
    hide In;
    if units == [] {
      forall s: UnitState ensures In(units, s) == {} { NoUnits(s); }
    } else {
      StatesPartition(units[..|units| - 1]);
      InStep(units, Available);
      InStep(units, Reserved);
      InStep(units, Consumed);
      InStep(units, Retired);
      InStep(units, Delegated);
    }
  }

  lemma NoUnits(s: UnitState)
    ensures In([], s) == {}
  {
  }

  /** The parent's own units and the escrow units together are the initial budget, always. */
  lemma Conservation(initial: nat, ix: Index, pools: seq<Pool>, log: seq<Entry>)
    requires AccountsOk(initial, ix, pools, log)
    ensures |In(ix.units, Available)| + |In(ix.units, Reserved)| + |In(ix.units, Consumed)| + |In(ix.units, Retired)| + PoolSize(pools) == initial
  {
    StatesPartition(ix.units);
  }

  /** So no run of charges exceeds the initial budget. */
  lemma ChargesBounded(initial: nat, ix: Index, pools: seq<Pool>, log: seq<Entry>)
    requires AccountsOk(initial, ix, pools, log)
    ensures |log| <= initial
  {
    StatesPartition(ix.units);
    ConsumedWithin(pools);
  }

  lemma {:induction false} ConsumedWithin(pools: seq<Pool>)
    ensures PoolConsumed(pools) <= PoolSize(pools)
    decreases |pools|
  {
    if pools != [] {
      ConsumedWithin(pools[..|pools| - 1]);
      StatesPartition(pools[|pools| - 1].index.units);
    }
  }

  // ----- steps --------------------------------------------------------------------------

  /** A step of the parent that neither charges nor delegates. */
  lemma QuietStep(initial: nat, ix: Index, iy: Index, pools: seq<Pool>, log: seq<Entry>)
    requires AccountsOk(initial, ix, pools, log)
    requires IndexOk(iy) && NextFree(iy) && GeneralRecords(iy) && Forward(ix, iy)
    requires forall i | 0 <= i < |ix.units| ::
               iy.units[i] == ix.units[i] || (!iy.units[i].state.Consumed? && !iy.units[i].state.Delegated?)
    ensures AccountsOk(initial, iy, pools, log)
  {
    hide IndexOk, NextFree;
    forall s: UnitState | s.Consumed? || s.Delegated? ensures In(iy.units, s) == In(ix.units, s) {
      forall i | 0 <= i < |ix.units| ensures ix.units[i].state == s <==> iy.units[i].state == s {
        assert Advances(ix.units[i], iy.units[i]);
      }
    }
    PoolsStay(ix, iy, pools);
    forall j | 0 <= j < |log|
      ensures UnitAt(iy, pools, log[j].place, log[j].charge.unit) == Some(Unit(Consumed, Some(log[j].charge.reservation)))
    {
      var u := log[j].charge.unit;
      assert UnitAt(ix, pools, log[j].place, u).Some?;
      if log[j].place == 0 { assert Advances(ix.units[u], iy.units[u]); }
    }
    forall p: nat, u: nat | UnitAt(iy, pools, p, u).Some? && UnitAt(iy, pools, p, u).value.state.Consumed? ensures HasEntry(log, p, u) {
      assert UnitAt(ix, pools, p, u) == UnitAt(iy, pools, p, u);
    }
  }

  /** Terminal units never move, so an escrow stays issued while the parent moves forward. */
  lemma PoolsStay(ix: Index, iy: Index, pools: seq<Pool>)
    requires PoolsOk(ix, pools) && Forward(ix, iy)
    ensures PoolsOk(iy, pools)
  {
    hide PoolOk;
    forall k | 0 <= k < |pools| ensures IssuedBy(iy, pools[k]) {
      assert IssuedBy(ix, pools[k]);
      forall i | i in ix.records[pools[k].parent.sequence].units ensures i < |iy.units| && iy.units[i].state.Delegated? {
        assert Advances(ix.units[i], iy.units[i]);
      }
    }
  }

  lemma MarkOne(units: seq<Unit>, i: nat, u: Unit, s: UnitState)
    requires i < |units| && units[i].state != u.state
    ensures In(units[i := u], s) ==
              if s == u.state then In(units, s) + {i} else if s == units[i].state then In(units, s) - {i} else In(units, s)
    ensures i !in In(units, u.state)
  {
  }

  lemma OneMore(s: set<int>, i: int)
    requires i !in s
    ensures |s + {i}| == |s| + 1
  {
  }

  /** A charge against the parent ledger. */
  lemma ChargeStep(initial: nat, ix: Index, pools: seq<Pool>, log: seq<Entry>, token: nat, unit: int, work: Work)
    requires AccountsOk(initial, ix, pools, log) && PrepareConsumption(ix, token, unit, work).Charging?
    ensures var s := PrepareConsumption(ix, token, unit, work);
            AccountsOk(initial, s.index, pools, log + [Entry(0, s.charge)]) && Forward(ix, s.index)
  {
    hide IndexOk, PrepareConsumption, PoolsOk;
    var s := PrepareConsumption(ix, token, unit, work);
    ConsumptionKeeps(ix, token, unit, work);
    PoolsStay(ix, s.index, pools);
    var u := Unit(Consumed, Some(s.charge.reservation));
    MarkOne(ix.units, unit, u, Consumed);
    MarkOne(ix.units, unit, u, Delegated);
    OneMore(In(ix.units, Consumed), unit);
    forall p: nat, v: nat ensures UnitAt(s.index, pools, p, v) == if p == 0 && v == unit then Some(u) else UnitAt(ix, pools, p, v) {}
    LogGrows(ix, s.index, pools, pools, log, 0, s.charge);
  }

  /** One unit becomes consumed, and one entry is written for it. */
  lemma LogGrows(ix: Index, iy: Index, pools: seq<Pool>, next: seq<Pool>, log: seq<Entry>, place: nat, c: Charge)
    requires Logged(ix, pools, log)
    requires UnitAt(ix, pools, place, c.unit).Some? && !UnitAt(ix, pools, place, c.unit).value.state.Consumed?
    requires forall p: nat, v: nat {:trigger UnitAt(iy, next, p, v)} ::
               UnitAt(iy, next, p, v) ==
               if p == place && v == c.unit then Some(Unit(Consumed, Some(c.reservation))) else UnitAt(ix, pools, p, v)
    ensures Logged(iy, next, log + [Entry(place, c)])
  {
    hide UnitAt;
    var more := log + [Entry(place, c)];
    forall j | 0 <= j < |log| ensures log[j].place != place || log[j].charge.unit != c.unit {
      assert UnitAt(ix, pools, log[j].place, log[j].charge.unit) == Some(Unit(Consumed, Some(log[j].charge.reservation)));
    }
    forall p: nat, v: nat | UnitAt(iy, next, p, v).Some? && UnitAt(iy, next, p, v).value.state.Consumed? ensures HasEntry(more, p, v) {
      if p == place && v == c.unit {
        assert more[|log|].place == p && more[|log|].charge.unit == v;
      } else {
        assert HasEntry(log, p, v);
        var j :| 0 <= j < |log| && log[j].place == p && log[j].charge.unit == v;
        assert more[j] == log[j];
      }
    }
  }

  lemma {:induction false} AscendingSize(r: seq<nat>)
    requires forall i, j | 0 <= i < j < |r| :: r[i] < r[j]
    ensures |Members(r)| == |r|
    decreases |r|
  {
    if r != [] {
      var last := |r| - 1;
      AscendingSize(r[..last]);
      assert r == r[..last] + [r[last]];
      assert Members(r) == Members(r[..last]) + {r[last]};
    }
  }

  function Members(r: seq<nat>): set<int> { set i | i in r }

  /** Delegation moves exactly the escrow's worth of units out of the parent. */
  lemma DelegateStep(initial: nat, owner: Owner, ix: Index, pools: seq<Pool>, log: seq<Entry>, horizon: int, binding: int)
    requires AccountsOk(initial, ix, pools, log) && PrepareDelegation(owner, ix, horizon, binding).Delegating?
    ensures var s := PrepareDelegation(owner, ix, horizon, binding);
            AccountsOk(initial, s.index, pools + [s.pool], log) && Forward(ix, s.index) && s.pool.horizon == horizon
  {
    hide IndexOk, PrepareDelegation, PoolOk, Logged, In, Members, PoolsOk;
    var s := PrepareDelegation(owner, ix, horizon, binding);
    DelegationKeeps(owner, ix, horizon, binding);
    PoolsStay(ix, s.index, pools);
    var more := pools + [s.pool];
    assert more[..|pools|] == pools;
    DelegatedIssue(owner, ix, pools, horizon, binding);
    DelegatedSets(ix.units, s.index.units, s.record.units, s.record.identity);
    AscendingSize(s.record.units);
    assert |In(s.index.units, Delegated)| == PoolSize(more) && PoolConsumed(more) == PoolConsumed(pools) + |In(s.pool.index.units, Consumed)|;
    FreshPoolUnspent(owner, ix, horizon, binding);
    LogUnchanged(ix, s.index, pools, s.pool, log);
  }

  lemma DelegatedSets(units: seq<Unit>, next: seq<Unit>, chosen: seq<nat>, id: ReservationId)
    requires |units| == |next| && forall i | i in chosen :: i < |units| && units[i].state.Available?
    requires forall i | 0 <= i < |units| :: next[i] == if i in chosen then Unit(Delegated, Some(id)) else units[i]
    ensures |In(next, Delegated)| == |In(units, Delegated)| + |Members(chosen)|
    ensures In(next, Consumed) == In(units, Consumed)
  {
    assert In(next, Delegated) == In(units, Delegated) + Members(chosen);
    assert In(units, Delegated) !! Members(chosen);
    assert In(next, Consumed) == In(units, Consumed);
  }

  lemma DelegatedIssue(owner: Owner, ix: Index, pools: seq<Pool>, horizon: int, binding: int)
    requires IndexOk(ix) && NextFree(ix) && PoolsOk(ix, pools) && PrepareDelegation(owner, ix, horizon, binding).Delegating?
    ensures var s := PrepareDelegation(owner, ix, horizon, binding);
            PoolsOk(s.index, pools + [s.pool])
  {
    hide IndexOk, PrepareDelegation, PoolOk;
    var s := PrepareDelegation(owner, ix, horizon, binding);
    DelegationKeeps(owner, ix, horizon, binding);
    PoolsStay(ix, s.index, pools);
    assert IssuedBy(s.index, s.pool) by {
      forall i | i in s.record.units ensures i < |s.index.units| && s.index.units[i].state.Delegated? {}
    }
    forall k | 0 <= k < |pools| ensures pools[k].parent.sequence < s.pool.parent.sequence {
      assert IssuedBy(ix, pools[k]);
    }
  }

  lemma FreshPoolUnspent(owner: Owner, ix: Index, horizon: int, binding: int)
    requires PrepareDelegation(owner, ix, horizon, binding).Delegating?
    ensures forall i | 0 <= i < |PrepareDelegation(owner, ix, horizon, binding).pool.index.units| ::
              PrepareDelegation(owner, ix, horizon, binding).pool.index.units[i].state.Reserved?
    ensures In(PrepareDelegation(owner, ix, horizon, binding).pool.index.units, Consumed) == {}
  {
  }

  lemma LogUnchanged(ix: Index, iy: Index, pools: seq<Pool>, p: Pool, log: seq<Entry>)
    requires Logged(ix, pools, log) && |ix.units| == |iy.units|
    requires forall i | 0 <= i < |ix.units| :: iy.units[i] == ix.units[i] || (ix.units[i].state.Available? && !iy.units[i].state.Consumed?)
    requires forall i | 0 <= i < |p.index.units| :: p.index.units[i].state.Reserved?
    ensures Logged(iy, pools + [p], log)
  {
    var more := pools + [p];
    forall j | 0 <= j < |log|
      ensures UnitAt(iy, more, log[j].place, log[j].charge.unit) == Some(Unit(Consumed, Some(log[j].charge.reservation)))
    {
      assert UnitAt(ix, pools, log[j].place, log[j].charge.unit).Some?;
    }
    forall q: nat, u: nat | UnitAt(iy, more, q, u).Some? && UnitAt(iy, more, q, u).value.state.Consumed? ensures HasEntry(log, q, u) {
      assert UnitAt(ix, pools, q, u) == UnitAt(iy, more, q, u);
    }
  }

  // ----- escrow steps -------------------------------------------------------------------

  /** Replacing one escrow by a later state of itself. */
  lemma PoolMoves(ix: Index, pools: seq<Pool>, k: nat, p: Pool)
    requires PoolsOk(ix, pools) && k < |pools| && PoolOk(p) && p.parent == pools[k].parent && p.horizon == pools[k].horizon
    ensures PoolsOk(ix, pools[k := p]) && PoolSize(pools[k := p]) == PoolSize(pools)
  {
    hide PoolOk;
    var next := pools[k := p];
    forall l | 0 <= l < |next| ensures IssuedBy(ix, next[l]) {
      assert IssuedBy(ix, pools[l]);
    }
    assert |p.index.units| == |pools[k].index.units| by { PoolLength(p); assert IssuedBy(ix, pools[k]); PoolLength(pools[k]); }
    SizeSame(pools, k, p);
  }

  lemma PoolLength(p: Pool)
    requires PoolOk(p)
    ensures |p.index.units| == 2 * p.horizon
  {
  }

  lemma {:induction false} SizeSame(pools: seq<Pool>, k: nat, p: Pool)
    requires k < |pools| && |p.index.units| == |pools[k].index.units|
    ensures PoolSize(pools[k := p]) == PoolSize(pools)
    decreases |pools|
  {
    var last := |pools| - 1;
    if k < last {
      SizeSame(pools[..last], k, p);
      assert pools[k := p][..last] == pools[..last][k := p];
    } else {
      assert pools[k := p][..last] == pools[..last];
    }
  }

  lemma {:induction false} ConsumedChange(pools: seq<Pool>, k: nat, p: Pool)
    requires k < |pools|
    ensures PoolConsumed(pools[k := p]) == PoolConsumed(pools) - |In(pools[k].index.units, Consumed)| + |In(p.index.units, Consumed)|
    decreases |pools|
  {
    var last := |pools| - 1;
    if k < last {
      ConsumedChange(pools[..last], k, p);
      assert pools[k := p][..last] == pools[..last][k := p];
    } else {
      assert pools[k := p][..last] == pools[..last];
    }
  }

  lemma OneUnitChanges(ix: Index, pools: seq<Pool>, k: nat, q: Pool, o: nat, u: Unit, next: seq<Pool>)
    requires k < |pools| && o < |pools[k].index.units| && q.index.units == pools[k].index.units[o := u] && next == pools[k := q]
    ensures forall pl: nat, v: nat {:trigger UnitAt(ix, next, pl, v)} ::
              UnitAt(ix, next, pl, v) == if pl == k + 1 && v == o then Some(u) else UnitAt(ix, pools, pl, v)
    ensures UnitAt(ix, pools, k + 1, o) == Some(pools[k].index.units[o])
  {
  }

  /** A charge against an escrow. */
  lemma PoolChargeStep(initial: nat, ix: Index, pools: seq<Pool>, log: seq<Entry>, k: nat, offset: int, phase: Phase)
    requires AccountsOk(initial, ix, pools, log) && k < |pools| && PrepareForecastConsumption(pools[k], offset, phase).Charging?
    ensures var s := PrepareForecastConsumption(pools[k], offset, phase);
            AccountsOk(initial, ix, pools[k := pools[k].(index := s.index)], log + [Entry(k + 1, s.charge)])
  {
    hide IndexOk, PrepareForecastConsumption, PoolOk, UnitAt, Logged;
    var p := pools[k];
    var s, o := PrepareForecastConsumption(p, offset, phase), Ordinal(offset, phase);
    var q := p.(index := s.index);
    assert IssuedBy(ix, p);
    ForecastConsumptionIff(p, offset, phase);
    PoolMoves(ix, pools, k, q);
    PoolLength(p);
    var u := Unit(Consumed, Some(s.charge.reservation));
    MarkOne(p.index.units, o, u, Consumed);
    OneMore(In(p.index.units, Consumed), o);
    ConsumedChange(pools, k, q);
    OneUnitChanges(ix, pools, k, q, o, u, pools[k := q]);
    LogGrows(ix, ix, pools, pools[k := q], log, k + 1, s.charge);
  }

  /** The retirement of an escrow charges nothing. */
  lemma PoolRetireStep(initial: nat, ix: Index, pools: seq<Pool>, log: seq<Entry>, k: nat)
    requires AccountsOk(initial, ix, pools, log) && k < |pools|
    ensures AccountsOk(initial, ix, pools[k := pools[k].(index := ForecastRetirement(pools[k]))], log)
  {
    hide IndexOk, PoolOk, ForecastRetirement;
    var p := pools[k];
    var q := p.(index := ForecastRetirement(p));
    assert IssuedBy(ix, p);
    ForecastRetirementKeeps(p);
    PoolMoves(ix, pools, k, q);
    PoolLength(p);
    assert In(q.index.units, Consumed) == In(p.index.units, Consumed);
    ConsumedChange(pools, k, q);
    assert Logged(ix, pools[k := q], log) by { LogRetired(ix, pools, log, k, q); }
  }

  lemma LogRetired(ix: Index, pools: seq<Pool>, log: seq<Entry>, k: nat, q: Pool)
    requires Logged(ix, pools, log) && k < |pools| && Forward(pools[k].index, q.index)
    requires forall i | 0 <= i < |q.index.units| :: q.index.units[i].state.Consumed? ==> pools[k].index.units[i].state.Consumed?
    ensures Logged(ix, pools[k := q], log)
  {
    var next := pools[k := q];
    forall j | 0 <= j < |log|
      ensures UnitAt(ix, next, log[j].place, log[j].charge.unit) == Some(Unit(Consumed, Some(log[j].charge.reservation)))
    {
      var v := log[j].charge.unit;
      assert UnitAt(ix, pools, log[j].place, v).Some?;
      if log[j].place == k + 1 { assert Advances(pools[k].index.units[v], q.index.units[v]); }
    }
    forall pl: nat, v: nat | UnitAt(ix, next, pl, v).Some? && UnitAt(ix, next, pl, v).value.state.Consumed? ensures HasEntry(log, pl, v) {
      if pl == k + 1 { assert Advances(pools[k].index.units[v], q.index.units[v]); }
      assert UnitAt(ix, pools, pl, v) == UnitAt(ix, next, pl, v);
    }
  }
}
