/** The nonrenewable unit ledger. */
module Ledger {
  // The nonrenewable unit ledger: one index of units and reservation records, and the
  // prospective indexes its operations build without writing anything.
  //
  // Tokens are opaque handles. A reservation made from a ledger is keyed by its sequence number,
  // a slot of a forecast escrow by its ordinal.

  import opened Options

  datatype Phase = Capture | Evaluation

  datatype Work = Plain(tag: int) | Prediction(phase: Phase, offset: int) | EscrowOf(binding: int, horizon: int)

  datatype Owner = InvocationOwner(id: int) | StudyOwner(study: int)

  datatype UnitState = Available | Reserved | Consumed | Retired | Delegated

  datatype ReservationId =
    | Issued(owner: Owner, sequence: nat, work: Work)
    | Slot(parent: ReservationId, ordinal: nat, slotWork: Work)
    | Retirement(retiree: int, revision: nat)

  datatype Unit = Unit(state: UnitState, reservation: Option<ReservationId>)

  datatype Reservation = Reservation(identity: ReservationId, units: seq<nat>, work: Work)

  datatype Index = Index(units: seq<Unit>, records: map<nat, Reservation>, sequence: nat)

  /** What a consumed unit was charged for. */
  datatype Charge = Charge(reservation: ReservationId, unit: nat, work: Work)

  datatype Code =
    | InvalidInput | BudgetAbort | CapacityAbort | MissingCharge | WorkClassMismatch | NotActive | Stale
    | EnvironmentStale | PayloadMismatch | ContractViolation

  datatype Staged =
    | Refused(code: Code)
    | Staging(token: nat, record: Reservation, index: Index)

  datatype Charged =
    | Denied(code: Code)
    | Charging(charge: Charge, index: Index)

  // ----- invariants ---------------------------------------------------------------------

  predicate Spendable(s: UnitState) { s.Available? || s.Reserved? }

  /** The token under which a reservation identity is recorded. */
  function TokenOf(id: ReservationId): Option<nat> {
    match id
    case Issued(_, sequence, _) => Some(sequence)
    case Slot(_, ordinal, _) => Some(ordinal)
    case Retirement(_, _) => None
  }

  /** A record owns its units: each names the record, and none is available. */
  ghost predicate RecordOk(ix: Index, t: nat)
    requires t in ix.records
  {
    var r := ix.records[t];
    && TokenOf(r.identity) == Some(t)
    && r.units != []
    && (forall i, j | 0 <= i < j < |r.units| :: r.units[i] < r.units[j])
    && forall i | 0 <= i < |r.units| :: r.units[i] < |ix.units| && ix.units[r.units[i]].reservation == Some(r.identity)
  }

  /** A unit is available, retired administratively, or in the record it names. */
  ghost predicate UnitOk(ix: Index, i: nat)
    requires i < |ix.units|
  {
    var u := ix.units[i];
    && (u.state.Available? <==> u.reservation.None?)
    && (u.reservation.Some? ==>
          var id := u.reservation.value;
          if id.Retirement? then u.state.Retired?
          else && TokenOf(id).value in ix.records
               && ix.records[TokenOf(id).value].identity == id
               && i in ix.records[TokenOf(id).value].units)
  }

  ghost predicate IndexOk(ix: Index) {
    && (forall t | t in ix.records :: RecordOk(ix, t))
    && forall i | 0 <= i < |ix.units| :: UnitOk(ix, i)
  }

  /** The next sequence number has not been used. */
  ghost predicate NextFree(ix: Index) { forall t | t in ix.records :: t < ix.sequence }

  /** Reservations own disjoint units. */
  lemma RecordsDisjoint(ix: Index, s: nat, t: nat, i: nat)
    requires IndexOk(ix) && s in ix.records && t in ix.records && s != t
    ensures !(i in ix.records[s].units && i in ix.records[t].units)
  {
    if i in ix.records[s].units {
      var j :| 0 <= j < |ix.records[s].units| && ix.records[s].units[j] == i;
      assert RecordOk(ix, s) && RecordOk(ix, t);
      forall k | 0 <= k < |ix.records[t].units| ensures ix.records[t].units[k] != i {
        assert ix.units[i].reservation == Some(ix.records[s].identity);
      }
    }
  }

  // ----- forward only -------------------------------------------------------------------

  function Rank(s: UnitState): nat {
    match s
    case Available => 0
    case Reserved => 1
    case Consumed => 2
    case Retired => 2
    case Delegated => 2
  }

  /** A unit stands still or moves forward, and keeps the reservation it has. */
  predicate Advances(u: Unit, v: Unit) {
    u == v || (Rank(u.state) < Rank(v.state) && (u.reservation.Some? ==> v.reservation == u.reservation))
  }

  ghost predicate Forward(ix: Index, iy: Index) {
    && |ix.units| == |iy.units| && ix.sequence <= iy.sequence
    && (forall i | 0 <= i < |ix.units| :: Advances(ix.units[i], iy.units[i]))
    && forall t | t in ix.records :: t in iy.records && iy.records[t] == ix.records[t]
  }

  lemma ForwardTransitive(ix: Index, iy: Index, iz: Index)
    requires Forward(ix, iy) && Forward(iy, iz)
    ensures Forward(ix, iz)
  {
  }

  // ----- reservation --------------------------------------------------------------------

  /** All available units in ascending order. */
  function AvailableUnits(units: seq<Unit>): (r: seq<nat>)
    ensures forall i, j | 0 <= i < j < |r| :: r[i] < r[j]
    ensures forall j | 0 <= j < |r| :: r[j] < |units| && units[r[j]].state.Available?
    ensures forall i: nat | i < |units| && units[i].state.Available? :: i in r
    decreases |units|
  {
    if units == [] then [] else
      var last := |units| - 1;
      var r := AvailableUnits(units[..last]);
      LastAvailable(units, r);
      if units[last].state.Available? then r + [last] else r
  }

  lemma LastAvailable(units: seq<Unit>, r: seq<nat>)
    requires units != [] && forall i: nat | i < |units| - 1 && units[..|units| - 1][i].state.Available? :: i in r
    ensures var last := |units| - 1;
            forall i: nat | i < |units| && units[i].state.Available? :: i in (if units[last].state.Available? then r + [last] else r)
  {
    var last := |units| - 1;
    forall i: nat | i < |units| && units[i].state.Available? ensures i in (if units[last].state.Available? then r + [last] else r) {
      if i < last { assert units[..last][i] == units[i] && i in r; }
    }
  }

  function Marked(units: seq<Unit>, chosen: seq<nat>, u: Unit): (r: seq<Unit>)
    ensures |r| == |units|
    ensures forall i | 0 <= i < |units| :: r[i] == if i in chosen then u else units[i]
  {
    seq(|units|, i requires 0 <= i < |units| => if i in chosen then u else units[i])
  }

  /** The exact first available units under a fresh record, or nothing. */
  function PrepareReservation(owner: Owner, ix: Index, required: int, work: Work): Staged {
    if required <= 0 then Refused(InvalidInput)
    else if required > |AvailableUnits(ix.units)| then Refused(BudgetAbort)
    else
      var chosen := AvailableUnits(ix.units)[..required];
      var id := Issued(owner, ix.sequence, work);
      var record := Reservation(id, chosen, work);
      Staging(ix.sequence, record, Index(Marked(ix.units, chosen, Unit(Reserved, Some(id))), ix.records[ix.sequence := record], ix.sequence + 1))
  }

  /** What a reservation does: the first available units, that many, go to a fresh record; nothing else moves. */
  ghost predicate Reserves(owner: Owner, ix: Index, iy: Index, required: int, work: Work, token: nat, record: Reservation) {
    && token == ix.sequence && token !in ix.records && iy.sequence == ix.sequence + 1 && iy.records == ix.records[token := record]
    && record.identity == Issued(owner, token, work) && record.work == work && |record.units| == required
    && (forall i, j | 0 <= i < j < required :: record.units[i] < record.units[j])
    && (forall i | i in record.units :: i < |ix.units| && ix.units[i].state.Available?)
    && (forall i, j | 0 <= i < |ix.units| && ix.units[i].state.Available? && i !in record.units && j in record.units :: j < i)
    && |iy.units| == |ix.units|
    && forall i | 0 <= i < |ix.units| ::
         iy.units[i] == if i in record.units then Unit(Reserved, Some(record.identity)) else ix.units[i]
  }

  /** It is refused exactly for a count that is not positive, or more than is available. */
  lemma ReservationIff(owner: Owner, ix: Index, required: int, work: Work)
    requires NextFree(ix)
    ensures match PrepareReservation(owner, ix, required, work)
            case Refused(code) => (required <= 0 && code == InvalidInput) || (required > |AvailableUnits(ix.units)| && required > 0 && code == BudgetAbort)
            case Staging(token, record, iy) => 0 < required <= |AvailableUnits(ix.units)| && Reserves(owner, ix, iy, required, work, token, record)
  {
    hide AvailableUnits;
    if 0 < required <= |AvailableUnits(ix.units)| { ChosenFacts(ix.units, required); }
  }

  lemma ReservationKeeps(owner: Owner, ix: Index, required: int, work: Work)
    requires IndexOk(ix) && NextFree(ix) && PrepareReservation(owner, ix, required, work).Staging?
    ensures var s := PrepareReservation(owner, ix, required, work);
            && IndexOk(s.index) && NextFree(s.index) && Forward(ix, s.index)
            && s.token !in ix.records && s.index.records == ix.records[s.token := s.record]
            && |s.record.units| == required
            && forall i | 0 <= i < |ix.units| ::
                 s.index.units[i] == if i in s.record.units then Unit(Reserved, Some(s.record.identity)) else ix.units[i]
  {
    hide AvailableUnits, Marked;
    var s := PrepareReservation(owner, ix, required, work);
    var iy, chosen := s.index, s.record.units;
    ChosenFacts(ix.units, required);
    forall i | 0 <= i < |ix.units| && ix.units[i].reservation.Some? ensures iy.units[i] == ix.units[i] {
      assert UnitOk(ix, i);
    }
    forall t | t in iy.records ensures RecordOk(iy, t) {
      if t != s.token { RecordStays(ix, iy, t); }
    }
    forall i | 0 <= i < |iy.units| ensures UnitOk(iy, i) && Advances(ix.units[i], iy.units[i]) {
      assert UnitOk(ix, i);
    }
  }

  /** Of the chosen units, none was reserved before: they are the first available ones. */
  lemma ChosenFacts(units: seq<Unit>, required: int)
    requires 0 < required <= |AvailableUnits(units)|
    ensures var chosen := AvailableUnits(units)[..required];
            && (forall i | 0 <= i < |chosen| :: chosen[i] < |units| && units[chosen[i]].state.Available?)
            && (forall i | i in chosen :: i < |units| && units[i].state.Available?)
            && (forall i, j | 0 <= i < j < |chosen| :: chosen[i] < chosen[j])
            && (forall i | 0 <= i < |units| && units[i].state.Available? && i !in chosen ::
                  forall j | j in chosen :: j < i)
  {
    var all := AvailableUnits(units);
    var chosen := all[..required];
    forall i | 0 <= i < |units| && units[i].state.Available? && i !in chosen
      ensures forall j | j in chosen :: j < i
    {
      var k :| 0 <= k < |all| && all[k] == i;
      InPrefix(all, required, k);
    }
  }

  lemma InPrefix(all: seq<nat>, n: nat, k: nat)
    requires n <= |all|
    ensures k < n ==> all[k] in all[..n]
  {
    if k < n { assert all[..n][k] == all[k]; }
  }

  /** A record keeps owning its units while they only move forward. */
  lemma RecordStays(ix: Index, iy: Index, t: nat)
    requires t in ix.records && RecordOk(ix, t) && t in iy.records && iy.records[t] == ix.records[t]
    requires |ix.units| == |iy.units|
    requires forall i | 0 <= i < |ix.units| && ix.units[i].reservation.Some? :: iy.units[i].reservation == ix.units[i].reservation
    ensures RecordOk(iy, t)
  {
  }

  // ----- consumption --------------------------------------------------------------------

  /** One reserved unit of a record becomes a charge for exactly the recorded work. */
  function PrepareConsumption(ix: Index, token: nat, unit: int, work: Work): Charged {
    if token !in ix.records then Denied(MissingCharge)
    else if !(0 <= unit < |ix.units|) then Denied(InvalidInput)
    else if work != ix.records[token].work then Denied(WorkClassMismatch)
    else if unit !in ix.records[token].units || !ix.units[unit].state.Reserved? then Denied(MissingCharge)
    else Charging(Charge(ix.records[token].identity, unit, work),
                  ix.(units := ix.units[unit := Unit(Consumed, ix.units[unit].reservation)]))
  }

  /** What a charge does: one reserved unit of the record is consumed under its reservation; nothing else moves. */
  ghost predicate Charges(ix: Index, iy: Index, token: nat, unit: int, work: Work, c: Charge) {
    && token in ix.records && unit in ix.records[token].units && ix.records[token].work == work
    && c == Charge(ix.records[token].identity, unit, work)
    && iy.records == ix.records && iy.sequence == ix.sequence && |iy.units| == |ix.units| && unit < |ix.units|
    && ix.units[unit] == Unit(Reserved, Some(c.reservation)) && iy.units[unit] == Unit(Consumed, Some(c.reservation))
    && forall i | 0 <= i < |ix.units| && i != unit :: iy.units[i] == ix.units[i]
  }

  /** What cannot be charged: an unknown token, a unit out of range, other work, a unit that is not the record's or not reserved. */
  lemma ConsumptionIff(ix: Index, token: nat, unit: int, work: Work)
    requires IndexOk(ix)
    ensures match PrepareConsumption(ix, token, unit, work)
            case Charging(charge, iy) => Charges(ix, iy, token, unit, work, charge)
            case Denied(code) =>
              || (token !in ix.records && code == MissingCharge)
              || (token in ix.records && !(0 <= unit < |ix.units|) && code == InvalidInput)
              || (token in ix.records && 0 <= unit < |ix.units| && work != ix.records[token].work && code == WorkClassMismatch)
              || (token in ix.records && 0 <= unit < |ix.units| && work == ix.records[token].work && code == MissingCharge
                  && !(unit in ix.records[token].units && ix.units[unit].state.Reserved?))
  {
    if PrepareConsumption(ix, token, unit, work).Charging? { ConsumptionKeeps(ix, token, unit, work); }
  }

  lemma ConsumptionKeeps(ix: Index, token: nat, unit: int, work: Work)
    requires IndexOk(ix) && PrepareConsumption(ix, token, unit, work).Charging?
    ensures var s := PrepareConsumption(ix, token, unit, work);
            && IndexOk(s.index) && Forward(ix, s.index)
            && s.index.records == ix.records && s.index.sequence == ix.sequence
            && 0 <= unit < |ix.units| && s.charge.unit == unit
            && ix.units[unit] == Unit(Reserved, Some(s.charge.reservation))
            && s.index.units == ix.units[unit := Unit(Consumed, Some(s.charge.reservation))]
  {
    var s := PrepareConsumption(ix, token, unit, work);
    assert RecordOk(ix, token);
    StatesMove(ix, s.index);
  }

  /** Changing states forward, while every reservation stays, keeps the index. */
  lemma StatesMove(ix: Index, iy: Index)
    requires IndexOk(ix) && iy.records == ix.records && ix.sequence <= iy.sequence && |ix.units| == |iy.units|
    requires forall i | 0 <= i < |ix.units| :: iy.units[i] == ix.units[i] ||
               (ix.units[i].state.Reserved? && !Spendable(iy.units[i].state) && iy.units[i].reservation == ix.units[i].reservation)
    ensures IndexOk(iy) && Forward(ix, iy)
  {
    forall t | t in iy.records ensures RecordOk(iy, t) {
      RecordStays(ix, iy, t);
    }
    forall i | 0 <= i < |iy.units| ensures UnitOk(iy, i) && Advances(ix.units[i], iy.units[i]) {
      assert UnitOk(ix, i);
    }
  }

  // ----- retirement ---------------------------------------------------------------------

  /** Every reserved unit among `which` is retired under its own reservation. */
  function RetireIn(ix: Index, which: set<nat>): Index {
    ix.(units := seq(|ix.units|, i requires 0 <= i < |ix.units| =>
      if i in which && ix.units[i].state.Reserved? then Unit(Retired, ix.units[i].reservation) else ix.units[i]))
  }

  /** What retirement does: the reserved units it is about end under their own reservation; nothing else moves. */
  ghost predicate Retires(ix: Index, iy: Index, which: set<nat>) {
    && iy.records == ix.records && iy.sequence == ix.sequence && |iy.units| == |ix.units|
    && (forall i | 0 <= i < |ix.units| && i in which && ix.units[i].state.Reserved? :: iy.units[i] == Unit(Retired, ix.units[i].reservation))
    && forall i | 0 <= i < |ix.units| && !(i in which && ix.units[i].state.Reserved?) :: iy.units[i] == ix.units[i]
  }

  lemma RetireInIs(ix: Index, which: set<nat>)
    ensures Retires(ix, RetireIn(ix, which), which)
  {
  }

  lemma RetireInKeeps(ix: Index, which: set<nat>)
    requires IndexOk(ix)
    ensures IndexOk(RetireIn(ix, which)) && Forward(ix, RetireIn(ix, which)) && Retires(ix, RetireIn(ix, which), which)
  {
    StatesMove(ix, RetireIn(ix, which));
  }

  function UnitsOf(s: seq<nat>): set<nat> { set i | i in s }

  function PrepareRetirement(ix: Index, token: nat): Option<Index> {
    if token !in ix.records || forall i | i in ix.records[token].units :: !(i < |ix.units| && ix.units[i].state.Reserved?) then None
    else Some(RetireIn(ix, UnitsOf(ix.records[token].units)))
  }

  /** A reservation is retired exactly when one of its units is still reserved, and cannot be charged any more. */
  lemma RetirementIff(ix: Index, token: nat)
    requires IndexOk(ix)
    ensures PrepareRetirement(ix, token).Some? <==> token in ix.records && exists i :: i in ix.records[token].units && ix.units[i].state.Reserved?
    ensures PrepareRetirement(ix, token).Some? ==>
              var iy := PrepareRetirement(ix, token).value;
              && Retires(ix, iy, UnitsOf(ix.records[token].units)) && (forall unit, work :: PrepareConsumption(iy, token, unit, work).Denied?)
              && forall i | i in ix.records[token].units :: i < |iy.units| && !iy.units[i].state.Reserved?
  {
    if token in ix.records {
      assert RecordOk(ix, token);
      RetireInKeeps(ix, UnitsOf(ix.records[token].units));
    }
  }

  /** Administrative retirement of everything spendable, available units under a retirement reservation. */
  function RetireSpendable(ix: Index, owner: int, revision: nat): Index {
    ix.(units := seq(|ix.units|, i requires 0 <= i < |ix.units| =>
      if ix.units[i].state.Available? then Unit(Retired, Some(Retirement(owner, revision)))
      else if ix.units[i].state.Reserved? then Unit(Retired, ix.units[i].reservation) else ix.units[i]))
  }

  lemma RetireSpendableKeeps(ix: Index, owner: int, revision: nat)
    requires IndexOk(ix)
    ensures IndexOk(RetireSpendable(ix, owner, revision)) && Forward(ix, RetireSpendable(ix, owner, revision))
    ensures var iy := RetireSpendable(ix, owner, revision);
            && iy.records == ix.records && iy.sequence == ix.sequence
            && forall i | 0 <= i < |ix.units| ::
                 && (ix.units[i].state.Available? ==> iy.units[i] == Unit(Retired, Some(Retirement(owner, revision))))
                 && (ix.units[i].state.Reserved? ==> iy.units[i] == Unit(Retired, ix.units[i].reservation))
                 && (!Spendable(ix.units[i].state) ==> iy.units[i] == ix.units[i])
  {
    var iy := RetireSpendable(ix, owner, revision);
    forall t | t in iy.records ensures RecordOk(iy, t) {
      assert RecordOk(ix, t);
      forall i | 0 <= i < |ix.units| && ix.units[i].reservation.Some? ensures iy.units[i].reservation == ix.units[i].reservation {
        assert UnitOk(ix, i);
      }
      RecordStays(ix, iy, t);
    }
    forall i | 0 <= i < |iy.units| ensures UnitOk(iy, i) && Advances(ix.units[i], iy.units[i]) {
      assert UnitOk(ix, i);
    }
  }
}
