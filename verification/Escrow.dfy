/** Forecast escrows and causal sub-reservations. */
module Escrow {
  // One-way delegation of ledger units to a forecast escrow, and causal sub-reservations of one
  // unit per work class inside the parent ledger.

  import opened Options
  import opened Ledger

  // ----- forecast escrow ----------------------------------------------------------------

  const MAX_HORIZON := 64

  /** The escrow of a forecast: slot 2(k-1) pays the capture of offset k, slot 2k-1 its evaluation. */
  datatype Pool = Pool(parent: ReservationId, horizon: nat, index: Index)

  datatype Delegation =
    | Withheld(code: Code)
    | Delegating(token: nat, record: Reservation, pool: Pool, index: Index)

  function SlotWork(ordinal: nat): Work {
    Prediction(if ordinal % 2 == 0 then Capture else Evaluation, ordinal / 2 + 1)
  }

  function SlotId(parent: ReservationId, ordinal: nat): ReservationId { Slot(parent, ordinal, SlotWork(ordinal)) }

  function NewUnits(parent: ReservationId, count: nat): seq<Unit> {
    seq(count, i requires 0 <= i => Unit(Reserved, Some(SlotId(parent, i))))
  }

  function NewRecords(parent: ReservationId, count: nat): map<nat, Reservation> {
    map i: nat | i < count :: Reservation(SlotId(parent, i), [i], SlotWork(i))
  }

  function NewPool(parent: ReservationId, horizon: nat): Pool {
    Pool(parent, horizon, Index(NewUnits(parent, 2 * horizon), NewRecords(parent, 2 * horizon), 0))
  }

  /** An escrow that has only ever moved forward from a new one. */
  ghost predicate PoolOk(p: Pool) {
    && 1 <= p.horizon <= MAX_HORIZON
    && IndexOk(p.index)
    && p.index.records == NewRecords(p.parent, 2 * p.horizon)
    && |p.index.units| == 2 * p.horizon
    && forall i | 0 <= i < 2 * p.horizon ::
         p.index.units[i].reservation == Some(SlotId(p.parent, i)) && !p.index.units[i].state.Available? && !p.index.units[i].state.Delegated?
  }

  /** Slot by slot, one reservation each. */
  method BuildPool(parent: ReservationId, horizon: nat) returns (p: Pool)
    requires 1 <= horizon <= MAX_HORIZON
    ensures p == NewPool(parent, horizon) && PoolOk(p)
  {
    var units, records: map<nat, Reservation> := [], map[];
    for ordinal := 0 to 2 * horizon
      invariant units == NewUnits(parent, ordinal) && records == NewRecords(parent, ordinal)
    {
      units := units + [Unit(Reserved, Some(SlotId(parent, ordinal)))];
      records := records[ordinal := Reservation(SlotId(parent, ordinal), [ordinal], SlotWork(ordinal))];
    }
    p := Pool(parent, horizon, Index(units, records, 0));
    NewPoolOk(parent, horizon);
  }

  lemma NewPoolOk(parent: ReservationId, horizon: nat)
    requires 1 <= horizon <= MAX_HORIZON
    ensures PoolOk(NewPool(parent, horizon))
    ensures forall i | 0 <= i < 2 * horizon :: NewPool(parent, horizon).index.units[i].state.Reserved?
  {
    var ix := NewPool(parent, horizon).index;
    forall t | t in ix.records ensures RecordOk(ix, t) {}
    forall i | 0 <= i < |ix.units| ensures UnitOk(ix, i) {}
  }

  /** Reserve two units per offset and hand them over for good. */
  function PrepareDelegation(owner: Owner, ix: Index, horizon: int, binding: int): Delegation {
    if !(1 <= horizon <= MAX_HORIZON) then Withheld(InvalidInput)
    else match PrepareReservation(owner, ix, 2 * horizon, EscrowOf(binding, horizon))
      case Refused(code) => Withheld(code)
      case Staging(token, record, index) =>
        Delegating(token, record, NewPool(record.identity, horizon),
                   index.(units := Marked(index.units, record.units, Unit(Delegated, Some(record.identity)))))
  }

  lemma DelegationKeeps(owner: Owner, ix: Index, horizon: int, binding: int)
    requires IndexOk(ix) && NextFree(ix) && PrepareDelegation(owner, ix, horizon, binding).Delegating?
    ensures var s := PrepareDelegation(owner, ix, horizon, binding);
            && IndexOk(s.index) && NextFree(s.index) && Forward(ix, s.index) && PoolOk(s.pool)
            && s.token !in ix.records && s.index.records == ix.records[s.token := s.record]
            && s.pool.parent == s.record.identity && s.pool.horizon == horizon
            && s.record.identity == Issued(owner, s.token, s.record.work) && s.token == ix.sequence
            && |s.record.units| == 2 * horizon == |s.pool.index.units|
            && (forall i | i in s.record.units :: i < |ix.units| && ix.units[i].state.Available?)
            && (forall i, j | 0 <= i < j < |s.record.units| :: s.record.units[i] < s.record.units[j])
            && forall i | 0 <= i < |ix.units| ::
                 s.index.units[i] == if i in s.record.units then Unit(Delegated, Some(s.record.identity)) else ix.units[i]
  {
    hide PrepareReservation, Marked, NewPool;
    var work := EscrowOf(binding, horizon);
    var r := PrepareReservation(owner, ix, 2 * horizon, work);
    var s := PrepareDelegation(owner, ix, horizon, binding);
    ReservationKeeps(owner, ix, 2 * horizon, work);
    ReservedWere(owner, ix, 2 * horizon, work);
    StatesMove(r.index, s.index);
    ForwardTransitive(ix, r.index, s.index);
    NewPoolOk(r.record.identity, horizon);
    NewPoolShape(r.record.identity, horizon);
  }

  lemma NewPoolShape(parent: ReservationId, horizon: nat)
    ensures NewPool(parent, horizon).parent == parent && NewPool(parent, horizon).horizon == horizon
    ensures |NewPool(parent, horizon).index.units| == 2 * horizon
  {
  }

  lemma ReservedWere(owner: Owner, ix: Index, required: int, work: Work)
    requires PrepareReservation(owner, ix, required, work).Staging?
    ensures var s := PrepareReservation(owner, ix, required, work);
            && s.token == ix.sequence && s.record == Reservation(Issued(owner, ix.sequence, work), s.record.units, work)
            && |s.record.units| == required && s.index.sequence == ix.sequence + 1
            && (forall i | i in s.record.units :: i < |ix.units| && ix.units[i].state.Available?)
            && forall i, j | 0 <= i < j < |s.record.units| :: s.record.units[i] < s.record.units[j]
  {
    ChosenFacts(ix.units, required);
  }

  /** The charge of one phase of one offset. */
  function PrepareForecastConsumption(p: Pool, offset: int, phase: Phase): Charged {
    var ordinal := 2 * (offset - 1) + (if phase.Evaluation? then 1 else 0);
    if !(0 <= ordinal < 2 * p.horizon) then Denied(BudgetAbort)
    else PrepareConsumption(p.index, ordinal, ordinal, Prediction(phase, offset))
  }

  function Ordinal(offset: int, phase: Phase): int { 2 * (offset - 1) + (if phase.Evaluation? then 1 else 0) }

  /** A phase is payable exactly when its own slot is still reserved, and paying it touches that slot only. */
  lemma ForecastConsumptionIff(p: Pool, offset: int, phase: Phase)
    requires PoolOk(p)
    ensures var o, s := Ordinal(offset, phase), PrepareForecastConsumption(p, offset, phase);
            && (s.Charging? <==> 1 <= offset <= p.horizon && p.index.units[o].state.Reserved?)
            && (s.Charging? ==>
                  && s.charge == Charge(SlotId(p.parent, o), o, Prediction(phase, offset))
                  && s.index == p.index.(units := p.index.units[o := Unit(Consumed, Some(SlotId(p.parent, o)))])
                  && PoolOk(p.(index := s.index)) && Forward(p.index, s.index))
  {
    var o, s := Ordinal(offset, phase), PrepareForecastConsumption(p, offset, phase);
    if 0 <= o < 2 * p.horizon {
      assert SlotWork(o) == Prediction(phase, offset);
      assert p.index.records[o] == Reservation(SlotId(p.parent, o), [o], SlotWork(o));
    }
    if s.Charging? {
      ConsumptionKeeps(p.index, o, o, Prediction(phase, offset));
    }
  }

  /** What is left of an escrow when its forecast ends. */
  function ForecastRetirement(p: Pool): Index {
    p.index.(units := seq(|p.index.units|, i requires 0 <= i < |p.index.units| =>
      if p.index.units[i].state.Reserved? then Unit(Retired, p.index.units[i].reservation) else p.index.units[i]))
  }

  lemma ForecastRetirementKeeps(p: Pool)
    requires PoolOk(p)
    ensures PoolOk(p.(index := ForecastRetirement(p))) && Forward(p.index, ForecastRetirement(p))
    ensures forall i | 0 <= i < 2 * p.horizon ::
              ForecastRetirement(p).units[i].state == if p.index.units[i].state.Consumed? then Consumed else Retired
  {
    StatesMove(p.index, ForecastRetirement(p));
  }

  // ----- causal sub-reservations --------------------------------------------------------

  /** One single-unit reservation per work class, all of them or none. */
  function CausalIndex(ix: Index, study: int, works: seq<Work>): Option<Index>
    decreases |works|
  {
    if works == [] then Some(ix) else
      var last := |works| - 1;
      match CausalIndex(ix, study, works[..last])
      case None => None
      case Some(iy) =>
        match PrepareReservation(StudyOwner(study), iy, 1, works[last])
        case Refused(_) => None
        case Staging(_, _, iz) => Some(iz)
  }

  /** One single-unit reservation of a study, for one work class. */
  ghost predicate HeldAt(ix: Index, t: nat, study: int, work: Work) {
    t in ix.records && ix.records[t].identity == Issued(StudyOwner(study), t, work) && ix.records[t].work == work && |ix.records[t].units| == 1
  }

  /** The reservation of the k-th work class is keyed by the k-th sequence number from the base. */
  ghost predicate StudyHeld(ix: Index, base: nat, study: int, works: seq<Work>) {
    forall k | 0 <= k < |works| :: HeldAt(ix, base + k, study, works[k])
  }

  lemma {:induction false} CausalKeeps(ix: Index, study: int, works: seq<Work>)
    requires IndexOk(ix) && NextFree(ix) && CausalIndex(ix, study, works).Some?
    ensures var iy := CausalIndex(ix, study, works).value;
            && IndexOk(iy) && NextFree(iy) && Forward(ix, iy) && iy.sequence == ix.sequence + |works|
            && StudyHeld(iy, ix.sequence, study, works)
            && forall i | 0 <= i < |ix.units| :: iy.units[i] == ix.units[i] || (ix.units[i].state.Available? && iy.units[i].state.Reserved?)
    decreases |works|
  {
    hide PrepareReservation, IndexOk, NextFree;
    if works != [] {
      var last := |works| - 1;
      CausalKeeps(ix, study, works[..last]);
      var iy := CausalIndex(ix, study, works[..last]).value;
      ReservationKeeps(StudyOwner(study), iy, 1, works[last]);
      ReservedWere(StudyOwner(study), iy, 1, works[last]);
      var iz := CausalIndex(ix, study, works).value;
      ForwardTransitive(ix, iy, iz);
      forall k | 0 <= k < |works| ensures HeldAt(iz, ix.sequence + k, study, works[k]) {
        if k < last { assert HeldAt(iy, ix.sequence + k, study, works[..last][k]); }
      }
    }
  }

  /** All-or-nothing: the study is refused exactly when fewer units are available than it asks for. */
  lemma {:induction false} CausalIff(ix: Index, study: int, works: seq<Work>)
    requires IndexOk(ix) && NextFree(ix)
    ensures CausalIndex(ix, study, works).Some? <==> |works| <= |AvailableUnits(ix.units)|
    ensures CausalIndex(ix, study, works).Some? ==>
              |AvailableUnits(CausalIndex(ix, study, works).value.units)| == |AvailableUnits(ix.units)| - |works|
    decreases |works|
  {
    hide PrepareReservation, IndexOk, NextFree, AvailableUnits;
    if works != [] {
      var last := |works| - 1;
      CausalIff(ix, study, works[..last]);
      if CausalIndex(ix, study, works[..last]).Some? {
        var iy := CausalIndex(ix, study, works[..last]).value;
        CausalKeeps(ix, study, works[..last]);
        OneFewer(StudyOwner(study), iy, works[last]);
      }
    }
  }

  lemma OneFewer(owner: Owner, ix: Index, work: Work)
    requires IndexOk(ix) && NextFree(ix)
    ensures PrepareReservation(owner, ix, 1, work).Staging? <==> |AvailableUnits(ix.units)| >= 1
    ensures PrepareReservation(owner, ix, 1, work).Staging? ==>
              |AvailableUnits(PrepareReservation(owner, ix, 1, work).index.units)| == |AvailableUnits(ix.units)| - 1
  {
    if |AvailableUnits(ix.units)| >= 1 {
      var s := PrepareReservation(owner, ix, 1, work);
      ReservationKeeps(owner, ix, 1, work);
      ReservedWere(owner, ix, 1, work);
      var i := s.record.units[0];
      assert s.index.units == ix.units[i := Unit(Reserved, Some(s.record.identity))];
      TakenUnit(ix.units, i, Unit(Reserved, Some(s.record.identity)));
    }
  }

  lemma {:induction false} TakenUnit(units: seq<Unit>, i: nat, u: Unit)
    requires i < |units| && units[i].state.Available? && !u.state.Available?
    ensures |AvailableUnits(units[i := u])| == |AvailableUnits(units)| - 1
    decreases |units|
  {
    var last := |units| - 1;
    var next := units[i := u];
    if i < last {
      TakenUnit(units[..last], i, u);
      assert next[..last] == units[..last][i := u];
    } else {
      assert next[..last] == units[..last];
    }
  }

  /** The first position of a work class. */
  function Position(works: seq<Work>, work: Work): (r: Option<nat>)
    ensures match r
            case None => work !in works
            case Some(k) => k < |works| && works[k] == work && work !in works[..k]
  {
    if works == [] then None
    else if works[0] == work then Some(0)
    else match Position(works[1..], work) case None => None case Some(k) => Some(k + 1)
  }

  function PrepareCausalConsumption(ix: Index, base: nat, works: seq<Work>, work: Work): Charged {
    match Position(works, work)
    case None => Denied(WorkClassMismatch)
    case Some(k) =>
      if base + k !in ix.records || ix.records[base + k].units == [] then Denied(MissingCharge)
      else PrepareConsumption(ix, base + k, ix.records[base + k].units[0], work)
  }

  /** Units of the records of a study. */
  function StudyUnits(ix: Index, base: nat, works: seq<Work>): set<nat> {
    set t, i | t in ix.records && base <= t < base + |works| && i in ix.records[t].units :: i
  }

  lemma FirstUnit(ix: Index, t: nat)
    requires IndexOk(ix) && t in ix.records
    ensures ix.records[t].units != [] && ix.records[t].units[0] < |ix.units| && ix.records[t].units[0] in ix.records[t].units
  {
    assert RecordOk(ix, t);
  }

  /** A work class is charged on the unit its own sub-reservation took, as long as that is reserved. */
  lemma CausalConsumptionIff(ix: Index, base: nat, study: int, works: seq<Work>, work: Work)
    requires IndexOk(ix) && StudyHeld(ix, base, study, works)
    ensures work in works ==>
              var t := base + Position(works, work).value;
              t in ix.records && ix.records[t].units != [] && ix.records[t].units[0] < |ix.units|
    ensures match PrepareCausalConsumption(ix, base, works, work)
            case Denied(code) =>
              if work !in works then code == WorkClassMismatch
              else code == MissingCharge && !ix.units[ix.records[base + Position(works, work).value].units[0]].state.Reserved?
            case Charging(charge, iy) =>
              work in works && (var t := base + Position(works, work).value; Charges(ix, iy, t, ix.records[t].units[0], work, charge))
  {
    hide IndexOk, PrepareConsumption, Charges, Position;
    if Position(works, work).Some? {
      var k := Position(works, work).value;
      assert HeldAt(ix, base + k, study, works[k]);
      FirstUnit(ix, base + k);
      ConsumptionIff(ix, base + k, ix.records[base + k].units[0], work);
    }
  }

  /** A unit some record of the study took. */
  ghost predicate OfStudy(ix: Index, base: nat, count: nat, i: nat) {
    exists t | t in ix.records && base <= t < base + count :: i in ix.records[t].units
  }

  lemma StudyUnitsAre(ix: Index, base: nat, works: seq<Work>, i: nat)
    ensures i in StudyUnits(ix, base, works) <==> OfStudy(ix, base, |works|, i)
  {
  }

  function CausalRetirement(ix: Index, base: nat, works: seq<Work>): Index { RetireIn(ix, StudyUnits(ix, base, works)) }
}
