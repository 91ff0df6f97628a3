/**
 One invocation: its lifecycle, its ledger, and the children it is accountable for. Each
 operation either publishes a whole prospective index or changes nothing.
 */
module Invocations {
  import opened Options
  import opened Ordering
  import opened Ledger
  import opened Escrow
  import opened Accounts

  datatype Life = Active | Closing | Closed

  /** A live causal study: its units are the records of `works` from sequence `base` on. */
  datatype Study = Study(id: int, base: nat, works: seq<Work>)

  /** What one seal is asked for: a projected target and a horizon. */
  datatype SealKey = SealKey(binding: int, horizon: int)

  datatype Answer<T> = Done(value: T) | Abort(code: Code)

  /** A new child, or one the same request already opened. */
  datatype Child = Opened(at: nat) | Kept(at: nat)

  /** The child a request already opened. */
  function Find<T(==)>(requests: seq<T>, request: T): (r: Option<nat>)
    ensures match r
            case None => request !in requests
            case Some(k) => k < |requests| && requests[k] == request
  {
    if requests == [] then None
    else if requests[|requests| - 1] == request then Some(|requests| - 1)
    else Find(requests[..|requests| - 1], request)
  }

  function Names(studies: seq<Study>): (r: seq<int>)
    ensures |r| == |studies| && forall k | 0 <= k < |r| :: r[k] == studies[k].id
  {
    seq(|studies|, k requires 0 <= k < |studies| => studies[k].id)
  }

  /** Every escrow has its own request, and every live study its own name, not used before. */
  ghost predicate RequestsOk(seals: seq<SealKey>, pools: seq<Pool>, retired: set<nat>, studies: seq<Study>, ended: set<int>) {
    && |seals| == |pools| && Distinct(seals) && (forall k | k in retired :: k < |seals|)
    && Distinct(Names(studies)) && forall k | 0 <= k < |studies| :: studies[k].id !in ended
  }

  /** The gate lets through exactly the current revision of an invocation that is active, or at least not closed. */
  function Gate(state: Life, revision: nat, given: int, active: bool): (r: Option<Code>)
    ensures r.None? <==> given == revision && !state.Closed? && (active ==> state.Active?)
    ensures r.Some? ==> r.value == if given == revision then NotActive else if given >= 0 then Stale else InvalidInput
  {
    if given < 0 then Some(InvalidInput)
    else if given != revision then Some(Stale)
    else if state.Closed? || (active && !state.Active?) then Some(NotActive)
    else None
  }

  ghost predicate Settled(ix: Index) { forall i | 0 <= i < |ix.units| :: !Spendable(ix.units[i].state) }

  predicate AnySpendable(units: seq<Unit>) { exists i :: 0 <= i < |units| && Spendable(units[i].state) }

  ghost predicate StudiesHeld(ix: Index, studies: seq<Study>) {
    forall k | 0 <= k < |studies| :: StudyHeld(ix, studies[k].base, studies[k].id, studies[k].works)
  }

  lemma StudiesStay(ix: Index, iy: Index, studies: seq<Study>)
    requires StudiesHeld(ix, studies) && Forward(ix, iy)
    ensures StudiesHeld(iy, studies)
  {
    forall k | 0 <= k < |studies| ensures StudyHeld(iy, studies[k].base, studies[k].id, studies[k].works) {
      HeldStays(ix, iy, studies[k].base, studies[k].id, studies[k].works);
    }
  }

  lemma HeldStays(ix: Index, iy: Index, base: nat, study: int, works: seq<Work>)
    requires StudyHeld(ix, base, study, works) && Forward(ix, iy)
    ensures StudyHeld(iy, base, study, works)
  {
    forall k | 0 <= k < |works| ensures HeldAt(iy, base + k, study, works[k]) {
      assert HeldAt(ix, base + k, study, works[k]);
    }
  }

  lemma SettledStays(ix: Index, iy: Index)
    requires Settled(ix) && Forward(ix, iy)
    ensures Settled(iy) && iy.units == ix.units
  {
    forall i | 0 <= i < |ix.units| ensures iy.units[i] == ix.units[i] {
      assert Advances(ix.units[i], iy.units[i]);
    }
  }

  lemma ForwardRefl(ix: Index)
    ensures Forward(ix, ix)
  {
  }

  /** Reserve one unit and consume it at once: how opening a child is paid for. */
  function PayOne(owner: Owner, ix: Index, work: Work): Charged {
    match PrepareReservation(owner, ix, 1, work)
    case Refused(code) => Denied(code)
    case Staging(token, record, index) =>
      if record.units == [] then Denied(BudgetAbort) else PrepareConsumption(index, token, record.units[0], work)
  }

  lemma ReserveStep(initial: nat, owner: Owner, ix: Index, pools: seq<Pool>, log: seq<Entry>, required: int, work: Work)
    requires AccountsOk(initial, ix, pools, log) && PrepareReservation(owner, ix, required, work).Staging?
    ensures var s := PrepareReservation(owner, ix, required, work);
            AccountsOk(initial, s.index, pools, log) && Forward(ix, s.index)
  {
    hide PrepareReservation, IndexOk, PoolsOk, Logged;
    ReservationKeeps(owner, ix, required, work);
    ReservedWere(owner, ix, required, work);
    QuietStep(initial, ix, PrepareReservation(owner, ix, required, work).index, pools, log);
  }

  /** Paying one unit succeeds exactly when one is available, and writes one charge. */
  lemma PayStep(initial: nat, owner: Owner, ix: Index, pools: seq<Pool>, log: seq<Entry>, work: Work)
    requires AccountsOk(initial, ix, pools, log)
    ensures PayOne(owner, ix, work).Charging? <==> |AvailableUnits(ix.units)| >= 1
    ensures var s := PayOne(owner, ix, work);
            s.Charging? ==>
              && AccountsOk(initial, s.index, pools, log + [Entry(0, s.charge)]) && Forward(ix, s.index)
              && s.index.sequence == ix.sequence + 1 && s.charge.work == work
  {
    hide IndexOk, PoolsOk, Logged, AvailableUnits, PrepareConsumption;
    var r := PrepareReservation(owner, ix, 1, work);
    if r.Staging? {
      ReserveStep(initial, owner, ix, pools, log, 1, work);
      ReservedWere(owner, ix, 1, work);
      PayableNow(owner, ix, work);
      ChargeStep(initial, r.index, pools, log, r.token, r.record.units[0], work);
      ForwardTransitive(ix, r.index, PayOne(owner, ix, work).index);
    }
  }

  lemma PayableNow(owner: Owner, ix: Index, work: Work)
    requires IndexOk(ix) && NextFree(ix) && PrepareReservation(owner, ix, 1, work).Staging?
    ensures var r := PrepareReservation(owner, ix, 1, work);
            && r.record.units != [] && PrepareConsumption(r.index, r.token, r.record.units[0], work).Charging?
            && PrepareConsumption(r.index, r.token, r.record.units[0], work).index.sequence == ix.sequence + 1
            && PrepareConsumption(r.index, r.token, r.record.units[0], work).charge.work == work
  {
    ReservationKeeps(owner, ix, 1, work);
    ReservedWere(owner, ix, 1, work);
    var r := PrepareReservation(owner, ix, 1, work);
    assert r.record.units[0] in r.record.units;
  }

  /** What is left when an invocation retires everything: available units under the retirement, reserved ones under their own. */
  ghost predicate AllRetired(ix: Index, iy: Index, owner: int, revision: nat) {
    && iy.records == ix.records && iy.sequence == ix.sequence && |iy.units| == |ix.units|
    && forall i | 0 <= i < |ix.units| ::
         && (ix.units[i].state.Available? ==> iy.units[i] == Unit(Retired, Some(Retirement(owner, revision))))
         && (ix.units[i].state.Reserved? ==> iy.units[i] == Unit(Retired, ix.units[i].reservation))
         && (!Spendable(ix.units[i].state) ==> iy.units[i] == ix.units[i])
  }

  lemma RetireStep(initial: nat, ix: Index, pools: seq<Pool>, log: seq<Entry>, which: set<nat>)
    requires AccountsOk(initial, ix, pools, log)
    ensures AccountsOk(initial, RetireIn(ix, which), pools, log) && Forward(ix, RetireIn(ix, which))
  {
    hide IndexOk, PoolsOk, Logged;
    RetireInKeeps(ix, which);
    QuietStep(initial, ix, RetireIn(ix, which), pools, log);
  }

  lemma RetireAllStep(initial: nat, ix: Index, pools: seq<Pool>, log: seq<Entry>, owner: int, revision: nat)
    requires AccountsOk(initial, ix, pools, log)
    ensures var iy := RetireSpendable(ix, owner, revision);
            AccountsOk(initial, iy, pools, log) && Forward(ix, iy) && Settled(iy) && AllRetired(ix, iy, owner, revision)
  {
    hide IndexOk, PoolsOk, Logged;
    RetireSpendableKeeps(ix, owner, revision);
    QuietStep(initial, ix, RetireSpendable(ix, owner, revision), pools, log);
  }

  lemma CausalStep(initial: nat, ix: Index, pools: seq<Pool>, log: seq<Entry>, study: int, works: seq<Work>)
    requires AccountsOk(initial, ix, pools, log) && CausalIndex(ix, study, works).Some?
    ensures var iy := CausalIndex(ix, study, works).value;
            AccountsOk(initial, iy, pools, log) && Forward(ix, iy) && StudyHeld(iy, ix.sequence, study, works)
  {
    hide IndexOk, PoolsOk, Logged, NextFree;
    CausalKeeps(ix, study, works);
    CausalIssued(ix, study, works);
    QuietStep(initial, ix, CausalIndex(ix, study, works).value, pools, log);
  }

  lemma {:induction false} CausalIssued(ix: Index, study: int, works: seq<Work>)
    requires GeneralRecords(ix) && CausalIndex(ix, study, works).Some?
    ensures GeneralRecords(CausalIndex(ix, study, works).value)
    decreases |works|
  {
    if works != [] { CausalIssued(ix, study, works[..|works| - 1]); }
  }

  /** A causal charge is a charge of the parent ledger. */
  lemma StudyChargeStep(initial: nat, ix: Index, pools: seq<Pool>, log: seq<Entry>, base: nat, works: seq<Work>, work: Work)
    requires AccountsOk(initial, ix, pools, log) && PrepareCausalConsumption(ix, base, works, work).Charging?
    ensures var s := PrepareCausalConsumption(ix, base, works, work);
            AccountsOk(initial, s.index, pools, log + [Entry(0, s.charge)]) && Forward(ix, s.index)
  {
    hide IndexOk, PoolsOk, Logged, PrepareConsumption;
    var k := Position(works, work).value;
    ChargeStep(initial, ix, pools, log, base + k, ix.records[base + k].units[0], work);
  }

  /** How a live study answers a charge. */
  lemma StudyAnswers(ix: Index, studies: seq<Study>, k: nat, work: Work)
    requires IndexOk(ix) && StudiesHeld(ix, studies) && k < |studies|
    ensures match Position(studies[k].works, work)
            case None => PrepareCausalConsumption(ix, studies[k].base, studies[k].works, work) == Denied(WorkClassMismatch)
            case Some(j) =>
              var t := studies[k].base + j;
              && t in ix.records && ix.records[t].units != [] && ix.records[t].units[0] < |ix.units|
              && match PrepareCausalConsumption(ix, studies[k].base, studies[k].works, work)
                 case Denied(code) => code == MissingCharge && !ix.units[ix.records[t].units[0]].state.Reserved?
                 case Charging(charge, iy) =>
                   && ix.units[ix.records[t].units[0]].state.Reserved? && Charges(ix, iy, t, ix.records[t].units[0], work, charge)
                   && charge == Charge(ix.records[t].identity, ix.records[t].units[0], work)
  {
    hide IndexOk, PrepareCausalConsumption, StudyHeld;
    assert StudyHeld(ix, studies[k].base, studies[k].id, studies[k].works);
    CausalConsumptionIff(ix, studies[k].base, studies[k].id, studies[k].works, work);
  }

  /** The units any of the studies reserved. */
  ghost function StudiesUnits(ix: Index, studies: seq<Study>): set<nat> {
    if studies == [] then {} else StudyUnits(ix, studies[0].base, studies[0].works) + StudiesUnits(ix, studies[1..])
  }

  /** Ending the first study and then the rest retires what all of them reserved. */
  lemma FirstEnds(ix: Index, studies: seq<Study>)
    requires studies != []
    ensures var first := StudyUnits(ix, studies[0].base, studies[0].works);
            RetireIn(RetireIn(ix, first), StudiesUnits(RetireIn(ix, first), studies[1..])) == RetireIn(ix, StudiesUnits(ix, studies))
  {
    var first := StudyUnits(ix, studies[0].base, studies[0].works);
    SameRecordUnits(ix, RetireIn(ix, first), studies[1..]);
    var rest := StudiesUnits(ix, studies[1..]);
    var a, b := RetireIn(RetireIn(ix, first), rest), RetireIn(ix, first + rest);
    forall i | 0 <= i < |ix.units| ensures a.units[i] == b.units[i] {}
    assert a.units == b.units;
  }

  lemma {:induction false} SameRecordUnits(ix: Index, iy: Index, studies: seq<Study>)
    requires ix.records == iy.records
    ensures StudiesUnits(ix, studies) == StudiesUnits(iy, studies)
    decreases |studies|
  {
    if studies != [] {
      SameRecordUnits(ix, iy, studies[1..]);
      assert StudyUnits(ix, studies[0].base, studies[0].works) == StudyUnits(iy, studies[0].base, studies[0].works);
    }
  }

  ghost function NamesIn(studies: seq<Study>): set<int> { set k | 0 <= k < |studies| :: studies[k].id }

  lemma FirstNamed(studies: seq<Study>)
    requires studies != []
    ensures NamesIn(studies) == {studies[0].id} + NamesIn(studies[1..])
  {
    forall n | n in NamesIn(studies) ensures n in {studies[0].id} + NamesIn(studies[1..]) {
      var k :| 0 <= k < |studies| && studies[k].id == n;
      if k > 0 { assert studies[1..][k - 1].id == n; }
    }
  }

  lemma NoneNamed()
    ensures NamesIn([]) == {}
  {
  }

  /** A unit some record of one of the studies took. */
  ghost predicate OfAny(ix: Index, studies: seq<Study>, i: nat) {
    exists k :: 0 <= k < |studies| && OfStudy(ix, studies[k].base, |studies[k].works|, i)
  }

  /** What ending studies does: what they had reserved and not spent is retired; nothing else moves. */
  ghost predicate Ends(ix: Index, iy: Index, studies: seq<Study>) {
    && iy.records == ix.records && iy.sequence == ix.sequence && |iy.units| == |ix.units|
    && forall i | 0 <= i < |ix.units| ::
         iy.units[i] == if OfAny(ix, studies, i) && ix.units[i].state.Reserved? then Unit(Retired, ix.units[i].reservation) else ix.units[i]
  }

  /** Nothing the studies took is still reserved. */
  ghost predicate NoneReserved(ix: Index, studies: seq<Study>) {
    forall i | 0 <= i < |ix.units| && OfAny(ix, studies, i) :: !ix.units[i].state.Reserved?
  }

  lemma {:induction false} StudiesUnitsAre(ix: Index, studies: seq<Study>, i: nat)
    ensures i in StudiesUnits(ix, studies) <==> OfAny(ix, studies, i)
    decreases |studies|
  {
    hide OfStudy, StudyUnits;
    if studies != [] {
      StudyUnitsAre(ix, studies[0].base, studies[0].works, i);
      StudiesUnitsAre(ix, studies[1..], i);
      if OfAny(ix, studies, i) {
        var k :| 0 <= k < |studies| && OfStudy(ix, studies[k].base, |studies[k].works|, i);
        assert k > 0 ==> studies[1..][k - 1] == studies[k];
      }
      if OfAny(ix, studies[1..], i) {
        var k :| 0 <= k < |studies[1..]| && OfStudy(ix, studies[1..][k].base, |studies[1..][k].works|, i);
        assert studies[k + 1] == studies[1..][k];
      }
    }
  }

  lemma RetiringEnds(ix: Index, studies: seq<Study>)
    ensures var iy := RetireIn(ix, StudiesUnits(ix, studies)); Ends(ix, iy, studies) && NoneReserved(iy, studies)
  {
    hide StudiesUnits, OfStudy;
    var iy := RetireIn(ix, StudiesUnits(ix, studies));
    RetireInIs(ix, StudiesUnits(ix, studies));
    forall i | 0 <= i < |ix.units| ensures i in StudiesUnits(ix, studies) <==> OfAny(ix, studies, i) { StudiesUnitsAre(ix, studies, i); }
    forall i: nat ensures OfAny(iy, studies, i) <==> OfAny(ix, studies, i) { SameOfAny(ix, iy, studies, i); }
  }

  lemma SameOfAny(ix: Index, iy: Index, studies: seq<Study>, i: nat)
    requires iy.records == ix.records
    ensures OfAny(iy, studies, i) <==> OfAny(ix, studies, i)
  {
    forall k | 0 <= k < |studies|
      ensures OfStudy(iy, studies[k].base, |studies[k].works|, i) <==> OfStudy(ix, studies[k].base, |studies[k].works|, i) {}
  }

  lemma OneStudy(ix: Index, s: Study)
    ensures StudiesUnits(ix, [s]) == StudyUnits(ix, s.base, s.works)
  {
    assert [s][1..] == [];
  }

  lemma NothingEnds(ix: Index)
    ensures RetireIn(ix, StudiesUnits(ix, [])) == ix
  {
    assert RetireIn(ix, {}).units == ix.units;
  }

  /** An invocation between two operations, as a value. */
  datatype Snapshot = Snapshot(id: int, index: Index, state: Life, revision: nat, epoch: bool, children: nat, pools: seq<Pool>,
                               seals: seq<SealKey>, retired: set<nat>, studies: seq<Study>, ended: set<int>, log: seq<Entry>)

  /** A new invocation: the whole budget is available, and nothing has happened. */
  ghost predicate Fresh(id: int, budget: nat, a: Snapshot) {
    && a.id == id && a.state.Active? && a.revision == 0 && !a.epoch && a.children == 0
    && a.log == [] && a.pools == [] && a.seals == [] && a.retired == {} && a.studies == [] && a.ended == {}
    && a.index.records == map[] && a.index.sequence == 0 && |a.index.units| == budget && forall i | 0 <= i < budget :: a.index.units[i] == Unit(Available, None)
  }

  class Invocation {
    const id: int
    const initial: nat
    var index: Index
    var state: Life
    var revision: nat
    var epoch: bool
    var children: nat
    var pools: seq<Pool>
    var seals: seq<SealKey>
    var retired: set<nat>
    var studies: seq<Study>
    var ended: set<int>
    ghost var log: seq<Entry>

    ghost predicate Valid()
      reads this
    {
      && AccountsOk(initial, index, pools, log)
      && StudiesHeld(index, studies)
      && children == |studies| + (if epoch then 1 else 0)
      && (state.Closed? ==> Settled(index))
      && RequestsOk(seals, pools, retired, studies, ended)
    }

    /** The caller holds the current revision of an active invocation. */
    predicate Live(given: int)
      reads this
    {
      state.Active? && given == revision
    }

    lemma Books()
      requires Valid()
      ensures IndexOk(index) && NextFree(index) && forall k | 0 <= k < |pools| :: PoolOk(pools[k])
    {
    }

    ghost function Now(): Snapshot
      reads this
    {
      Snapshot(id, index, state, revision, epoch, children, pools, seals, retired, studies, ended, log)
    }

    function Own(): Owner { InvocationOwner(id) }

    constructor (name: int, budget: nat)
      ensures Valid() && id == name && initial == budget && Fresh(name, budget, Now())
    {
      id, initial := name, budget;
      index := Index(seq(budget, i => Unit(Available, None)), map[], 0);
      state, revision, epoch, children := Active, 0, false, 0;
      pools, seals, retired, studies, ended, log := [], [], {}, [], {}, [];
      new;
      EmptyAccounts(initial, index);
    }

    // ----- general ledger --------------------------------------------------------------

    /** Reserve the exact first available units, or change nothing. */
    method Reserve(given: int, required: int, work: Work) returns (r: Answer<nat>)
      requires Valid()
      modifies this`index
      ensures Valid() && Forward(old(index), index)
      ensures required <= 0 ==> r == Abort(InvalidInput) && index == old(index)
      ensures required > 0 && old(Gate(state, revision, given, true)).Some? ==>
                r == Abort(old(Gate(state, revision, given, true)).value) && index == old(index)
      ensures required > 0 && old(Gate(state, revision, given, true)).None? ==>
                if required > old(|AvailableUnits(index.units)|) then r == Abort(BudgetAbort) && index == old(index)
                else r.Done? && r.value == old(index).sequence && r.value in index.records
                     && Reserves(Own(), old(index), index, required, work, r.value, index.records[r.value])
    {
      hide AccountsOk, PrepareReservation, StudiesHeld, Settled, RequestsOk, AvailableUnits;
      ReservationIff(Own(), index, required, work) by { Books(); }
      if required <= 0 { ForwardRefl(index); return Abort(InvalidInput); }
      var gate := Gate(state, revision, given, true);
      if gate.Some? { ForwardRefl(index); return Abort(gate.value); }
      var s := PrepareReservation(Own(), index, required, work);
      if s.Refused? { ForwardRefl(index); return Abort(s.code); }
      ReserveStep(initial, Own(), index, pools, log, required, work);
      StudiesStay(index, s.index, studies);
      index := s.index;
      return Done(s.token);
    }

    /** Charge one reserved unit for exactly the recorded work. */
    method Consume(given: int, token: nat, unit: int, work: Work) returns (r: Answer<Charge>)
      requires Valid()
      modifies this`index, this`log
      ensures Valid() && Forward(old(index), index)
      ensures old(Gate(state, revision, given, true)).Some? ==> r == Abort(old(Gate(state, revision, given, true)).value)
      ensures old(Gate(state, revision, given, true)).None? ==>
                if token !in old(index).records then r == Abort(MissingCharge)
                else if !(0 <= unit < |old(index).units|) then r == Abort(InvalidInput)
                else if work != old(index).records[token].work then r == Abort(WorkClassMismatch)
                else if unit !in old(index).records[token].units || !old(index).units[unit].state.Reserved? then r == Abort(MissingCharge)
                else r.Done? && Charges(old(index), index, token, unit, work, r.value) && log == old(log) + [Entry(0, r.value)]
      ensures r.Abort? ==> index == old(index) && log == old(log)
      ensures Took(old(Now()), DoConsume(given, token, unit, work), Now())
    {
      hide AccountsOk, PrepareConsumption, StudiesHeld, Settled, RequestsOk;
      ConsumptionIff(index, token, unit, work) by { Books(); }
      var gate := Gate(state, revision, given, true);
      if gate.Some? { ForwardRefl(index); return Abort(gate.value); }
      var s := PrepareConsumption(index, token, unit, work);
      if s.Denied? { ForwardRefl(index); return Abort(s.code); }
      ChargeStep(initial, index, pools, log, token, unit, work);
      StudiesStay(index, s.index, studies);
      index, log := s.index, log + [Entry(0, s.charge)];
      return Done(s.charge);
    }

    /** Retire what is still reserved of one reservation. */
    method Retire(given: int, token: nat) returns (r: Answer<()>)
      requires Valid()
      modifies this`index
      ensures Valid() && Forward(old(index), index)
      ensures old(Gate(state, revision, given, false)).Some? ==> r == Abort(old(Gate(state, revision, given, false)).value) && index == old(index)
      ensures old(Gate(state, revision, given, false)).None? ==>
                if token in old(index).records && exists i :: i in old(index).records[token].units && old(index).units[i].state.Reserved?
                then r == Done(()) && Retires(old(index), index, UnitsOf(old(index).records[token].units))
                else r == Abort(MissingCharge) && index == old(index)
      ensures r.Done? ==> forall unit, work :: PrepareConsumption(index, token, unit, work).Denied?
      ensures r.Done? ==> token in old(index).records && forall i | i in old(index).records[token].units :: i < |index.units| && !index.units[i].state.Reserved?
      ensures Took(old(Now()), DoRetire(given, token), Now())
    {
      hide AccountsOk, StudiesHeld, Settled, RetireIn, PrepareConsumption, RequestsOk;
      Books();
      RetirementIff(index, token);
      var gate := Gate(state, revision, given, false);
      if gate.Some? { ForwardRefl(index); return Abort(gate.value); }
      if token !in index.records { ForwardRefl(index); return Abort(MissingCharge); }
      var staged := PrepareRetirement(index, token);
      if staged.None? { ForwardRefl(index); return Abort(MissingCharge); }
      RetireStep(initial, index, pools, log, UnitsOf(index.records[token].units));
      StudiesStay(index, staged.value, studies);
      index := staged.value;
      return Done(());
    }

    /** Unit by unit: available and reserved units are retired, the rest stay. */
    method RetireUnused(given: int) returns (r: Answer<()>)
      requires Valid()
      modifies this`index
      ensures Valid() && Forward(old(index), index)
      ensures old(Gate(state, revision, given, false)).Some? ==> r == Abort(old(Gate(state, revision, given, false)).value) && index == old(index)
      ensures old(Gate(state, revision, given, false)).None? ==>
                r == Done(()) && Settled(index) && AllRetired(old(index), index, id, revision)
    {
      hide AccountsOk, StudiesHeld, RetireSpendable, AllRetired;
      var gate := Gate(state, revision, given, false);
      if gate.Some? { ForwardRefl(index); return Abort(gate.value); }
      RetireEverything();
      return Done(());
    }

    method RetireEverything()
      requires AccountsOk(initial, index, pools, log) && StudiesHeld(index, studies)
      modifies this`index
      ensures AccountsOk(initial, index, pools, log) && StudiesHeld(index, studies)
      ensures Forward(old(index), index) && Settled(index) && AllRetired(old(index), index, id, revision)
    {
      hide AccountsOk, StudiesHeld, AllRetired;
      var staged := [];
      for i := 0 to |index.units|
        invariant |staged| == i && forall j | 0 <= j < i :: staged[j] == RetireSpendable(index, id, revision).units[j]
      {
        var unit := index.units[i];
        if unit.state.Available? { unit := Unit(Reserved, Some(Retirement(id, revision))); }
        if unit.state.Reserved? { unit := Unit(Retired, unit.reservation); }
        staged := staged + [unit];
      }
      assert staged == RetireSpendable(index, id, revision).units;
      RetireAllStep(initial, index, pools, log, id, revision);
      StudiesStay(index, RetireSpendable(index, id, revision), studies);
      index := index.(units := staged);
    }

    // ----- children ---------------------------------------------------------------------

    /**
     Seal a forecast: pay one unit and delegate two per offset, published together. The look-up
     of the request comes before the lifecycle test, so it answers after a close as well.
     `barred` is what the checks on projection, environment, owner and registry refuse before
     the ledger is asked, `late` what the preflight and the publication refuse after it.
     */
    method Seal(given: int, work: Work, binding: int, horizon: int, most: nat, barred: Option<Code>, late: Option<Code>) returns (r: Answer<Child>)
      requires Valid() && most <= MAX_HORIZON
      modifies this`index, this`pools, this`seals, this`log
      ensures Valid() && Forward(old(index), index)
      ensures var key := SealKey(binding, horizon);
              var found := old(Find(seals, key));
              && (!(1 <= horizon <= most) ==> r == Abort(InvalidInput))
              && (1 <= horizon <= most && found.Some? ==> r == if found.value in retired then Abort(Stale) else Done(Kept(found.value)))
              && (1 <= horizon <= most && found.None? && !(old(state).Active? && given == old(revision)) ==> r == Abort(Stale))
              && (1 <= horizon <= most && found.None? && old(state).Active? && given == old(revision) && barred.Some? ==> r == Abort(barred.value))
      ensures r.Done? && r.value.Opened? <==>
                && 1 <= horizon <= most && SealKey(binding, horizon) !in old(seals) && old(state).Active? && given == old(revision)
                && barred.None? && late.None?
                && 2 * horizon + 1 <= old(|AvailableUnits(index.units)|)
      ensures r.Done? && r.value.Opened? ==>
                var paid := old(PayOne(Own(), index, work));
                && paid.Charging? && PrepareDelegation(Own(), paid.index, horizon, binding).Delegating?
                && index == PrepareDelegation(Own(), paid.index, horizon, binding).index
                && pools == old(pools) + [PrepareDelegation(Own(), paid.index, horizon, binding).pool]
                && seals == old(seals) + [SealKey(binding, horizon)]
                && log == old(log) + [Entry(0, paid.charge)] && r.value.at == |old(pools)|
      ensures !(r.Done? && r.value.Opened?) ==> index == old(index) && pools == old(pools) && seals == old(seals) && log == old(log)
      ensures Took(old(Now()), DoSeal(given, work, binding, horizon, most, barred, late), Now())
    {
      hide AccountsOk, PrepareDelegation, PayOne, StudiesHeld, Settled, AvailableUnits;
      SealNeeds(initial, Own(), index, pools, log, work, horizon, binding);
      ForwardRefl(index);
      if !(1 <= horizon <= most) { return Abort(InvalidInput); }
      var found := Find(seals, SealKey(binding, horizon));
      if found.Some? { return if found.value in retired then Abort(Stale) else Done(Kept(found.value)); }
      if !Live(given) { return Abort(Stale); }
      if barred.Some? { return Abort(barred.value); }
      var paid := PayOne(Own(), index, work);
      if paid.Denied? { return Abort(paid.code); }
      var delegation := PrepareDelegation(Own(), paid.index, horizon, binding);
      if delegation.Withheld? { return Abort(delegation.code); }
      if late.Some? { return Abort(late.value); }
      PayStep(initial, Own(), index, pools, log, work);
      DelegateStep(initial, Own(), paid.index, pools, log + [Entry(0, paid.charge)], horizon, binding);
      ForwardTransitive(index, paid.index, delegation.index);
      StudiesStay(index, delegation.index, studies);
      index, pools, log := delegation.index, pools + [delegation.pool], log + [Entry(0, paid.charge)];
      seals := seals + [SealKey(binding, horizon)];
      return Done(Opened(|pools| - 1));
    }

    /** Pay one phase of one offset of an escrow. */
    method ChargeForecast(k: nat, offset: int, phase: Phase) returns (r: Answer<Charge>)
      requires Valid() && k < |pools|
      modifies this`pools, this`log
      ensures Valid()
      ensures match old(PrepareForecastConsumption(pools[k], offset, phase))
              case Denied(code) => r == Abort(code) && pools == old(pools) && log == old(log)
              case Charging(charge, staged) =>
                r == Done(charge) && pools == old(pools)[k := old(pools)[k].(index := staged)] && log == old(log) + [Entry(k + 1, charge)]
      ensures Followed(old(Now()), DoChargeForecast(k, offset, phase), Now())
    {
      hide AccountsOk, PrepareForecastConsumption, StudiesHeld, Settled, PoolOk;
      ForecastConsumptionIff(pools[k], offset, phase) by { Books(); }
      var s := PrepareForecastConsumption(pools[k], offset, phase);
      if s.Denied? { return Abort(s.code); }
      PoolChargeStep(initial, index, pools, log, k, offset, phase);
      pools, log := pools[k := pools[k].(index := s.index)], log + [Entry(k + 1, s.charge)];
      return Done(s.charge);
    }

    /** Retire what a finished forecast did not spend. Nothing returns to the parent. */
    method RetireForecast(k: nat)
      requires Valid() && k < |pools|
      modifies this`pools, this`retired
      ensures Valid() && pools == old(pools)[k := old(pools)[k].(index := ForecastRetirement(old(pools)[k]))]
      ensures retired == old(retired) + {k}
      ensures Followed(old(Now()), DoRetireForecast(k), Now())
    {
      hide AccountsOk, ForecastRetirement, StudiesHeld, Settled;
      Books();
      ForecastRetirementKeeps(pools[k]);
      PoolRetireStep(initial, index, pools, log, k);
      pools, retired := pools[k := pools[k].(index := ForecastRetirement(pools[k]))], retired + {k};
    }

    /**
     Open a causal study: pay one unit and sub-reserve one per work class, all or nothing. The
     lifecycle test comes before the look-up of the study. `scope` is what the checks on the
     domain, policy and origin refuse before that look-up, `room` the registry capacity after
     it, `late` what the owner, the environment and the publication refuse after the ledger.
     */
    method OpenStudy(given: int, work: Work, study: int, works: seq<Work>, scope: Option<Code>, room: Option<Code>, late: Option<Code>)
        returns (r: Answer<Child>)
      requires Valid()
      modifies this`index, this`studies, this`children, this`log
      ensures Valid() && Forward(old(index), index)
      ensures var found := old(Find(Names(studies), study));
              && (!(old(state).Active? && given == old(revision)) ==> r == Abort(NotActive))
              && (old(state).Active? && given == old(revision) && scope.Some? ==> r == Abort(scope.value))
              && (old(state).Active? && given == old(revision) && scope.None? && found.Some? ==> r == Done(Kept(found.value)))
              && (old(state).Active? && given == old(revision) && scope.None? && study in ended ==> r == Abort(Stale))
              && (old(state).Active? && given == old(revision) && scope.None? && found.None? && study !in ended && room.Some? ==> r == Abort(room.value))
      ensures r.Done? && r.value.Opened? <==>
                && old(state).Active? && given == old(revision) && scope.None? && study !in old(Names(studies)) && study !in ended && room.None? && late.None?
                && 1 <= |works| <= 255 && |works| + 1 <= old(|AvailableUnits(index.units)|)
      ensures r.Done? && r.value.Opened? ==>
                var paid := old(PayOne(Own(), index, work));
                && paid.Charging? && CausalIndex(paid.index, study, works) == Some(index)
                && studies == old(studies) + [Study(study, paid.index.sequence, works)] && children == old(children) + 1
                && log == old(log) + [Entry(0, paid.charge)] && r.value.at == |old(studies)|
      ensures !(r.Done? && r.value.Opened?) ==>
                index == old(index) && studies == old(studies) && children == old(children) && log == old(log)
      ensures Took(old(Now()), DoOpenStudy(given, work, study, works, scope, room, late), Now())
    {
      hide AccountsOk, CausalIndex, PayOne, Settled, AvailableUnits, StudyHeld, Followed, Forward, Find;
      StudyNeeds(initial, Own(), index, pools, log, work, study, works);
      ForwardRefl(index);
      if !Live(given) { return Abort(NotActive); }
      if scope.Some? { return Abort(scope.value); }
      var found := Find(Names(studies), study);
      if found.Some? { return Done(Kept(found.value)); }
      if study in ended { return Abort(Stale); }
      if room.Some? { return Abort(room.value); }
      var paid := PayOne(Own(), index, work);
      if paid.Denied? { return Abort(paid.code); }
      if !(1 <= |works| <= 255) { return Abort(CapacityAbort); }
      var reserved := CausalIndex(paid.index, study, works);
      if reserved.None? { return Abort(BudgetAbort); }
      if late.Some? { return Abort(late.value); }
      PayStep(initial, Own(), index, pools, log, work);
      CausalStep(initial, paid.index, pools, log + [Entry(0, paid.charge)], study, works);
      ForwardTransitive(index, paid.index, reserved.value);
      StudiesStay(index, reserved.value, studies);
      index, log := reserved.value, log + [Entry(0, paid.charge)];
      studies, children := studies + [Study(study, paid.index.sequence, works)], children + 1;
      return Done(Opened(|studies| - 1));
    }

    /** Charge one work class of a study. */
    method ChargeStudy(given: int, k: nat, work: Work) returns (r: Answer<Charge>)
      requires Valid() && k < |studies|
      modifies this`index, this`log
      ensures Valid() && Forward(old(index), index)
      ensures old(Gate(state, revision, given, true)).Some? ==> r == Abort(old(Gate(state, revision, given, true)).value)
      ensures old(Gate(state, revision, given, true)).None? ==>
                match Position(studies[k].works, work)
                case None => r == Abort(WorkClassMismatch)
                case Some(_) => r.Done? || r == Abort(MissingCharge)
      ensures r.Done? ==> log == old(log) + [Entry(0, r.value)]
      ensures r.Abort? ==> index == old(index) && log == old(log)
      ensures Followed(old(Now()), DoChargeStudy(given, k, work), Now())
    {
      hide AccountsOk, PrepareCausalConsumption, Settled, RequestsOk, StudiesHeld, Position, Charges, Cycled, IndexOk, PoolOk, Forward;
      Books();
      StudyAnswers(index, studies, k, work);
      var gate := Gate(state, revision, given, true);
      if gate.Some? { ForwardRefl(index); return Abort(gate.value); }
      var s := PrepareCausalConsumption(index, studies[k].base, studies[k].works, work);
      if s.Denied? { ForwardRefl(index); return Abort(s.code); }
      StudyChargeStep(initial, index, pools, log, studies[k].base, studies[k].works, work);
      StudiesStay(index, s.index, studies);
      index, log := s.index, log + [Entry(0, s.charge)];
      return Done(s.charge);
    }

    /** End a study: what its reservations did not spend is retired. */
    method ReduceStudy(k: nat)
      requires Valid() && k < |studies|
      modifies this`index, this`studies, this`ended, this`children
      ensures Valid() && Forward(old(index), index)
      ensures index == old(CausalRetirement(index, studies[k].base, studies[k].works))
      ensures Ends(old(index), index, [old(studies)[k]]) && NoneReserved(index, [old(studies)[k]])
      ensures ended == old(ended) + {old(studies)[k].id}
      ensures studies == old(studies)[..k] + old(studies)[k + 1..] && children == old(children) - 1
    {
      hide AccountsOk, StudyUnits, RetireIn, Settled, StudyHeld, Ends, NoneReserved, StudiesUnits;
      RetiringEnds(index, [studies[k]]);
      OneStudy(index, studies[k]);
      var which := StudyUnits(index, studies[k].base, studies[k].works);
      RetireStep(initial, index, pools, log, which);
      StudiesStay(index, RetireIn(index, which), studies);
      if state.Closed? { SettledStays(index, RetireIn(index, which)); }
      index := RetireIn(index, which);
      ended := ended + {studies[k].id};
      studies, children := studies[..k] + studies[k + 1..], children - 1;
    }

    /** Open the one inference epoch an active invocation may hold. */
    method OpenEpoch(given: int) returns (r: Answer<()>)
      requires Valid()
      modifies this`epoch, this`children
      ensures Valid()
      ensures r.Done? <==> old(Gate(state, revision, given, true)).None? && !old(epoch)
      ensures if r.Done? then epoch && children == old(children) + 1 else epoch == old(epoch) && children == old(children)
    {
      hide AccountsOk, StudiesHeld, Settled;
      var gate := Gate(state, revision, given, true);
      if gate.Some? { return Abort(gate.value); }
      if epoch { return Abort(Stale); }
      epoch, children := true, children + 1;
      return Done(());
    }

    method FinishEpoch()
      requires Valid()
      modifies this`epoch, this`children
      ensures Valid() && !epoch && children == old(children) - (if old(epoch) then 1 else 0)
    {
      hide AccountsOk, StudiesHeld, Settled;
      if epoch { epoch, children := false, children - 1; }
    }

    // ----- closing ----------------------------------------------------------------------

    /** Finish the epoch, then every live study. */
    method CloseChildren()
      requires Valid()
      modifies this`index, this`epoch, this`studies, this`ended, this`children
      ensures Valid() && Forward(old(index), index) && children == 0 && studies == [] && !epoch
      ensures ended == old(ended) + NamesIn(old(studies))
      ensures index == RetireIn(old(index), StudiesUnits(old(index), old(studies)))
      ensures Ends(old(index), index, old(studies)) && NoneReserved(index, old(studies))
    {
      hide AccountsOk, StudiesHeld, Settled, StudyUnits, RetireIn, NamesIn, RequestsOk, Forward, StudiesUnits, Ends, NoneReserved;
      RetiringEnds(index, studies);
      FinishEpoch();
      ForwardRefl(index);
      while studies != []
        invariant Valid() && Forward(old(index), index) && !epoch
        invariant ended + NamesIn(studies) == old(ended) + NamesIn(old(studies))
        invariant RetireIn(index, StudiesUnits(index, studies)) == RetireIn(old(index), StudiesUnits(old(index), old(studies)))
        decreases |studies|
      {
        ghost var before := index;
        FirstEnds(index, studies);
        FirstNamed(studies);
        assert studies[..0] + studies[0 + 1..] == studies[1..];
        ReduceStudy(0);
        ForwardTransitive(old(index), before, index);
      }
      NothingEnds(index);
      assert NamesIn([]) == {} by { NoneNamed(); }
    }

    /** Phase one: the invocation stops accepting work and closes its children. */
    method BeginClose(given: int) returns (r: Answer<(Life, nat)>)
      requires Valid()
      modifies this`index, this`state, this`revision, this`epoch, this`studies, this`ended, this`children
      ensures Valid() && Forward(old(index), index) && old(ended) <= ended
      ensures old(Gate(state, revision, given, false)).Some? ==>
                r == Abort(old(Gate(state, revision, given, false)).value) && state == old(state) && revision == old(revision) && index == old(index)
                && studies == old(studies) && epoch == old(epoch) && ended == old(ended) && children == old(children)
      ensures old(Gate(state, revision, given, false)).None? ==>
                r == Done((state, revision)) && state.Closing?
                && (if old(state).Active? then
                      && revision == old(revision) + 1 && children == 0 && studies == [] && !epoch && ended == old(ended) + NamesIn(old(studies))
                      && Ends(old(index), index, old(studies)) && NoneReserved(index, old(studies))
                    else revision == old(revision) && index == old(index) && children == old(children)
                         && studies == old(studies) && epoch == old(epoch) && ended == old(ended))
    {
      hide AccountsOk, StudiesHeld, Settled;
      var gate := Gate(state, revision, given, false);
      if gate.Some? { ForwardRefl(index); return Abort(gate.value); }
      if state.Active? {
        state, revision := Closing, revision + 1;
        CloseChildren();
      } else {
        ForwardRefl(index);
      }
      return Done((state, revision));
    }

    /** Phase two: closed only when no child is left and nothing is spendable. */
    method FinalizeClose(given: int) returns (r: Answer<bool>)
      requires Valid()
      modifies this`state, this`revision
      ensures Valid()
      ensures r == Done(true) ==> state.Closed? && Settled(index) && children == 0 && revision == old(revision) + 1
      ensures r != Done(true) ==> state == old(state) && revision == old(revision)
      ensures r == Done(true) <==> old(Gate(state, revision, given, false)).None? && old(state).Closing? && children == 0 && Settled(index)
    {
      hide AccountsOk, StudiesHeld;
      var gate := Gate(state, revision, given, false);
      if gate.Some? { return Abort(gate.value); }
      if !state.Closing? { return Abort(NotActive); }
      if children != 0 || AnySpendable(index.units) { return Done(false); }
      state, revision := Closed, revision + 1;
      return Done(true);
    }

    /** The runtime is gone: whatever phase it was in, the invocation ends closed. */
    method Discard()
      requires Valid()
      modifies this`index, this`state, this`revision, this`epoch, this`studies, this`ended, this`children
      ensures Valid() && Forward(old(index), index) && state.Closed? && old(ended) <= ended
      ensures if old(state).Closed? then
                index == old(index) && revision == old(revision) && children == old(children)
                && studies == old(studies) && epoch == old(epoch) && ended == old(ended)
              else children == 0 && Settled(index) && revision == old(revision) + (if old(state).Active? then 2 else 1)
                   && studies == [] && !epoch && ended == old(ended) + NamesIn(old(studies))
                   && AllRetired(old(index), index, id, revision - 1)
    {
      hide AccountsOk, StudiesHeld, Settled, RetireIn, RetireSpendable, StudiesUnits, NoneReserved, OfAny;
      ForwardRefl(index);
      if state.Active? { state, revision := Closing, revision + 1; }
      if state.Closing? {
        CloseChildren();
        ghost var before := index;
        RetireEverything();
        ForwardTransitive(old(index), before, index);
        state, revision := Closed, revision + 1;
      }
    }

    /** The closing protocol always completes: close, retire the rest, finalize. */
    method CloseOut()
      requires Valid() && !state.Closed?
      modifies this`index, this`state, this`revision, this`epoch, this`studies, this`ended, this`children
      ensures Valid() && Forward(old(index), index) && old(ended) <= ended
      ensures old(state).Active? || old(children) == 0 ==> state.Closed?
    {
      hide AccountsOk, StudiesHeld, RetireIn, StudiesUnits;
      var began := BeginClose(revision);
      ghost var middle := index;
      var retired := RetireUnused(revision);
      ForwardTransitive(old(index), middle, index);
      var finished := FinalizeClose(revision);
    }
  }

  /** Sealing needs one unit for itself and two per offset. */
  lemma SealNeeds(initial: nat, owner: Owner, ix: Index, pools: seq<Pool>, log: seq<Entry>, work: Work, horizon: int, binding: int)
    requires AccountsOk(initial, ix, pools, log)
    ensures var paid := PayOne(owner, ix, work);
            (paid.Charging? && PrepareDelegation(owner, paid.index, horizon, binding).Delegating?)
            <==> 1 <= horizon <= MAX_HORIZON && 2 * horizon + 1 <= |AvailableUnits(ix.units)|
  {
    hide AvailableUnits;
    PayStep(initial, owner, ix, pools, log, work);
    if PayOne(owner, ix, work).Charging? {
      PaidLeaves(owner, ix, work);
    }
  }

  lemma PaidLeaves(owner: Owner, ix: Index, work: Work)
    requires IndexOk(ix) && NextFree(ix) && PayOne(owner, ix, work).Charging?
    ensures |AvailableUnits(PayOne(owner, ix, work).index.units)| == |AvailableUnits(ix.units)| - 1
  {
    hide AvailableUnits;
    OneFewer(owner, ix, work);
    var r := PrepareReservation(owner, ix, 1, work);
    var c := PayOne(owner, ix, work);
    AvailableSame(r.index.units, c.index.units);
  }

  lemma {:induction false} AvailableSame(units: seq<Unit>, next: seq<Unit>)
    requires |units| == |next| && forall i | 0 <= i < |units| :: units[i].state.Available? <==> next[i].state.Available?
    ensures AvailableUnits(units) == AvailableUnits(next)
    decreases |units|
  {
    if units != [] { AvailableSame(units[..|units| - 1], next[..|next| - 1]); }
  }

  lemma StudyNeeds(initial: nat, owner: Owner, ix: Index, pools: seq<Pool>, log: seq<Entry>, work: Work, study: int, works: seq<Work>)
    requires AccountsOk(initial, ix, pools, log)
    ensures var paid := PayOne(owner, ix, work);
            (paid.Charging? && CausalIndex(paid.index, study, works).Some?) <==> |works| + 1 <= |AvailableUnits(ix.units)|
  {
    hide AvailableUnits, CausalIndex, PayOne;
    PayStep(initial, owner, ix, pools, log, work);
    if PayOne(owner, ix, work).Charging? {
      PaidLeaves(owner, ix, work);
      CausalIff(PayOne(owner, ix, work).index, study, works);
    }
  }

  lemma EmptyAccounts(initial: nat, ix: Index)
    requires ix == Index(seq(initial, i => Unit(Available, None)), map[], 0)
    ensures AccountsOk(initial, ix, [], [])
  {
  }

  // ----- every run ----------------------------------------------------------------------

  datatype Op =
    | DoReserve(given: int, required: int, work: Work)
    | DoConsume(given: int, token: nat, unit: int, work: Work)
    | DoRetire(given: int, token: nat)
    | DoRetireUnused(given: int)
    | DoSeal(given: int, work: Work, binding: int, horizon: int, most: nat, barred: Option<Code>, late: Option<Code>)
    | DoChargeForecast(index: nat, offset: int, phase: Phase)
    | DoRetireForecast(index: nat)
    | DoOpenStudy(given: int, work: Work, study: int, works: seq<Work>, scope: Option<Code>, room: Option<Code>, late: Option<Code>)
    | DoChargeStudy(given: int, index: nat, work: Work)
    | DoReduceStudy(index: nat)
    | DoOpenEpoch(given: int)
    | DoFinishEpoch
    | DoBeginClose(given: int)
    | DoFinalizeClose(given: int)
    | DoDiscard

  ghost predicate Lives(a: Snapshot, given: int) { given == a.revision && a.state.Active? }

  ghost predicate Opens(a: Snapshot, given: int) { given == a.revision && !a.state.Closed? }

  ghost predicate Chargeable(ix: Index, token: nat, unit: int, work: Work) {
    && token in ix.records && ix.records[token].work == work && unit in ix.records[token].units
    && unit < |ix.units| && ix.units[unit].state.Reserved?
  }

  ghost predicate ReservedIn(ix: Index, token: nat) {
    token in ix.records && exists i :: i in ix.records[token].units && i < |ix.units| && ix.units[i].state.Reserved?
  }

  ghost predicate HoldsOne(ix: Index, token: nat) {
    && token in ix.records && ix.records[token].units != []
    && ix.records[token].units[0] < |ix.units| && ix.units[ix.records[token].units[0]].state.Reserved?
  }

  ghost predicate Payable(p: Pool, offset: int, phase: Phase) {
    && 1 <= offset <= p.horizon && Ordinal(offset, phase) < |p.index.units|
    && p.index.units[Ordinal(offset, phase)].state.Reserved?
  }

  ghost predicate OneMore(before: seq<Entry>, after: seq<Entry>, work: Work) {
    && |after| == |before| + 1 && after[..|before|] == before
    && after[|before|].place == 0 && after[|before|].charge.work == work
  }

  ghost predicate Seals(a: Snapshot, given: int, binding: int, horizon: int, most: nat, barred: Option<Code>, late: Option<Code>) {
    && Lives(a, given) && 1 <= horizon <= most <= MAX_HORIZON && SealKey(binding, horizon) !in a.seals && barred.None? && late.None?
    && 2 * horizon + 1 <= |AvailableUnits(a.index.units)|
  }

  ghost predicate Studies(a: Snapshot, given: int, study: int, works: seq<Work>, scope: Option<Code>, room: Option<Code>, late: Option<Code>) {
    && Lives(a, given) && scope.None? && study !in Names(a.studies) && study !in a.ended && room.None? && late.None?
    && 1 <= |works| <= 255 && |works| + 1 <= |AvailableUnits(a.index.units)|
  }

  ghost predicate PaysFor(a: Snapshot, token: nat, unit: nat, work: Work, b: Snapshot) {
    token in a.index.records && var c := Charge(a.index.records[token].identity, unit, work);
    b == a.(index := b.index, log := a.log + [Entry(0, c)]) && Charges(a.index, b.index, token, unit, work, c)
  }

  /** When an operation of the ledger takes effect, and all that it changes. */
  ghost predicate Took(a: Snapshot, op: Op, b: Snapshot) {
    match op
    case DoReserve(given, required, work) =>
      if Lives(a, given) && 0 < required <= |AvailableUnits(a.index.units)| then
        && b == a.(index := b.index) && a.index.sequence in b.index.records
        && Reserves(InvocationOwner(a.id), a.index, b.index, required, work, a.index.sequence, b.index.records[a.index.sequence])
      else b == a
    case DoConsume(given, token, unit, work) =>
      if Lives(a, given) && Chargeable(a.index, token, unit, work) then
        var c := Charge(a.index.records[token].identity, unit, work);
        b == a.(index := b.index, log := a.log + [Entry(0, c)]) && Charges(a.index, b.index, token, unit, work, c)
      else b == a
    case DoRetire(given, token) =>
      if Opens(a, given) && token in a.index.records && ReservedIn(a.index, token) then
        b == a.(index := b.index) && Retires(a.index, b.index, UnitsOf(a.index.records[token].units))
      else b == a
    case DoRetireUnused(given) =>
      if Opens(a, given) then b == a.(index := b.index) && AllRetired(a.index, b.index, a.id, a.revision) else b == a
    case DoSeal(given, work, binding, horizon, most, barred, late) =>
      if Seals(a, given, binding, horizon, most, barred, late) then
        && b == a.(index := b.index, pools := b.pools, seals := a.seals + [SealKey(binding, horizon)], log := b.log)
        && |b.pools| == |a.pools| + 1 && b.pools[..|a.pools|] == a.pools && b.pools[|a.pools|].horizon == horizon
        && OneMore(a.log, b.log, work)
      else b == a
    case DoOpenStudy(given, work, study, works, scope, room, late) =>
      if Studies(a, given, study, works, scope, room, late) then
        && b == a.(index := b.index, studies := a.studies + [Study(study, a.index.sequence + 1, works)], children := a.children + 1, log := b.log)
        && StudyHeld(b.index, a.index.sequence + 1, study, works) && OneMore(a.log, b.log, work)
      else b == a
    case _ => Followed(a, op, b)
  }

  /** The same for escrows and studies. */
  ghost predicate Followed(a: Snapshot, op: Op, b: Snapshot) {
    match op
    case DoChargeForecast(k, offset, phase) =>
      if k < |a.pools| && Payable(a.pools[k], offset, phase) then
        var p, o := a.pools[k], Ordinal(offset, phase);
        && b == a.(pools := b.pools, log := a.log + [Entry(k + 1, Charge(SlotId(p.parent, o), o, Prediction(phase, offset)))])
        && b.pools == a.pools[k := p.(index := p.index.(units := p.index.units[o := Unit(Consumed, Some(SlotId(p.parent, o)))]))]
      else b == a
    case DoRetireForecast(k) =>
      if k < |a.pools| then
        && b == a.(pools := b.pools, retired := a.retired + {k})
        && |b.pools| == |a.pools| && b.pools == a.pools[k := a.pools[k].(index := b.pools[k].index)]
        && |b.pools[k].index.units| == |a.pools[k].index.units|
        && forall i | 0 <= i < |a.pools[k].index.units| ::
             b.pools[k].index.units[i].state == if a.pools[k].index.units[i].state.Consumed? then Consumed else Retired
      else b == a
    case DoChargeStudy(given, k, work) =>
      if Lives(a, given) && k < |a.studies| && Position(a.studies[k].works, work).Some? then
        var token := a.studies[k].base + Position(a.studies[k].works, work).value;
        if HoldsOne(a.index, token) then PaysFor(a, token, a.index.records[token].units[0], work, b) else b == a
      else b == a
    case DoReduceStudy(k) =>
      if k < |a.studies| then
        && b == a.(index := b.index, studies := a.studies[..k] + a.studies[k + 1..], ended := a.ended + {a.studies[k].id}, children := b.children)
        && b.children + 1 == a.children && Ends(a.index, b.index, [a.studies[k]])
      else b == a
    case _ => Cycled(a, op, b)
  }

  /** The same for the epoch and the lifecycle. */
  ghost predicate Cycled(a: Snapshot, op: Op, b: Snapshot) {
    match op
    case DoOpenEpoch(given) =>
      b == if Lives(a, given) && !a.epoch then a.(epoch := true, children := a.children + 1) else a
    case DoFinishEpoch =>
      b == a.(epoch := false, children := b.children) && b.children + (if a.epoch then 1 else 0) == a.children
    case DoBeginClose(given) =>
      if Lives(a, given) then
        && b == a.(index := b.index, state := Closing, revision := a.revision + 1, epoch := false, children := 0, studies := [],
                   ended := a.ended + NamesIn(a.studies))
        && Ends(a.index, b.index, a.studies)
      else b == a
    case DoFinalizeClose(given) =>
      b == if Opens(a, given) && a.state.Closing? && a.children == 0 && Settled(a.index) then a.(state := Closed, revision := a.revision + 1) else a
    case DoDiscard =>
      if a.state.Closed? then b == a
      else
        var last := a.revision + (if a.state.Active? then 1 else 0);
        && b == a.(index := b.index, state := Closed, revision := last + 1, epoch := false, children := 0, studies := [], ended := a.ended + NamesIn(a.studies))
        && AllRetired(a.index, b.index, a.id, last)
    case _ => true
  }

  /** An operation on the epoch or the lifecycle. */
  method Cycle(inv: Invocation, op: Op)
    requires inv.Valid()
    modifies inv
    ensures inv.Valid() && Forward(old(inv.index), inv.index)
    ensures old(inv.seals) <= inv.seals && old(inv.retired) <= inv.retired && old(inv.ended) <= inv.ended
    ensures Cycled(old(inv.Now()), op, inv.Now())
  {
    hide AccountsOk, StudiesHeld, Forward, RequestsOk, AllRetired, Ends, NoneReserved, NamesIn;
    ForwardRefl(inv.index);
    match op
    case DoOpenEpoch(given) => { var _ := inv.OpenEpoch(given); }
    case DoFinishEpoch => { inv.FinishEpoch(); }
    case DoBeginClose(given) => { var _ := inv.BeginClose(given); }
    case DoFinalizeClose(given) => { var _ := inv.FinalizeClose(given); }
    case DoDiscard => { inv.Discard(); }
    case _ => {}
  }

  /** An operation on an escrow or a study. */
  method Follow(inv: Invocation, op: Op)
    requires inv.Valid()
    modifies inv
    ensures inv.Valid() && Forward(old(inv.index), inv.index)
    ensures old(inv.seals) <= inv.seals && old(inv.retired) <= inv.retired && old(inv.ended) <= inv.ended
    ensures Followed(old(inv.Now()), op, inv.Now())
  {
    hide AccountsOk, StudiesHeld, Forward, RequestsOk, Ends, NoneReserved, Settled, PrepareForecastConsumption, ForecastRetirement, Position, Cycled;
    ForwardRefl(inv.index);
    match op
    case DoChargeForecast(k, offset, phase) => { if k < |inv.pools| { var _ := inv.ChargeForecast(k, offset, phase); } }
    case DoRetireForecast(k) => { if k < |inv.pools| { inv.RetireForecast(k); } }
    case DoChargeStudy(given, k, work) => { if k < |inv.studies| { var _ := inv.ChargeStudy(given, k, work); } }
    case DoReduceStudy(k) => { if k < |inv.studies| { inv.ReduceStudy(k); } }
    case _ => { Cycle(inv, op); }
  }

  /** One operation, whichever it is. */
  method Perform(inv: Invocation, op: Op)
    requires inv.Valid()
    modifies inv
    ensures inv.Valid() && Forward(old(inv.index), inv.index)
    ensures old(inv.seals) <= inv.seals && old(inv.retired) <= inv.retired && old(inv.ended) <= inv.ended
    ensures Took(old(inv.Now()), op, inv.Now())
  {
    hide AccountsOk, StudiesHeld, Settled, Forward, RequestsOk, Charges, Retires, Reserves, AllRetired, AvailableUnits, UnitsOf, Followed;
    match op
    case DoReserve(given, required, work) => { var _ := inv.Reserve(given, required, work); }
    case DoConsume(given, token, unit, work) => { var _ := inv.Consume(given, token, unit, work); }
    case DoRetire(given, token) => { var _ := inv.Retire(given, token); }
    case DoRetireUnused(given) => { var _ := inv.RetireUnused(given); }
    case DoSeal(given, work, binding, horizon, most, barred, late) => {
      if most <= MAX_HORIZON { var _ := inv.Seal(given, work, binding, horizon, most, barred, late); } else { ForwardRefl(inv.index); }
    }
    case DoOpenStudy(given, work, study, works, scope, room, late) => {
      var _ := inv.OpenStudy(given, work, study, works, scope, room, late);
    }
    case _ => { Follow(inv, op); }
  }

  /** No two charges of the log name the same charge unit. */
  ghost predicate ChargedOnce(log: seq<Entry>) {
    forall i, j | 0 <= i < j < |log| ::
      log[i].charge.reservation != log[j].charge.reservation || log[i].charge.unit != log[j].charge.unit
  }

  ghost predicate Disjoint(ix: Index) {
    forall s, t, i | s in ix.records && t in ix.records && s != t :: !(i in ix.records[s].units && i in ix.records[t].units)
  }

  /** A whole run: each operation takes effect exactly when it should, and units only ever move forward. */
  ghost predicate Trail(ops: seq<Op>, trail: seq<Snapshot>) {
    && |trail| == |ops| + 1
    && forall i | 0 <= i < |ops| :: Took(trail[i], ops[i], trail[i + 1]) && Forward(trail[i].index, trail[i + 1].index)
  }

  /**
   Any interleaving of ledger, escrow, study and lifecycle operations, each carried out as it
   should: units only moved forward, reservations are disjoint, nothing was charged twice or
   beyond the budget, the budget is conserved across parent and escrows, closed means nothing is
   spendable, and no seal request or study name opened a second child, not even after the first
   one ended.
   */
  method Run(id: int, budget: nat, ops: seq<Op>) returns (inv: Invocation, ghost trail: seq<Snapshot>)
    ensures inv.Valid() && inv.initial == budget
    ensures Trail(ops, trail) && Fresh(id, budget, trail[0]) && trail[|ops|] == inv.Now() && Forward(trail[0].index, inv.index)
    ensures Disjoint(inv.index) && ChargedOnce(inv.log) && |inv.log| <= budget
    ensures |In(inv.index.units, Available)| + |In(inv.index.units, Reserved)| + |In(inv.index.units, Consumed)|
            + |In(inv.index.units, Retired)| + PoolSize(inv.pools) == budget
    ensures inv.state.Closed? ==> Settled(inv.index)
    ensures Distinct(inv.seals) && |inv.seals| == |inv.pools|
    ensures Distinct(Names(inv.studies)) && forall k | 0 <= k < |inv.studies| :: inv.studies[k].id !in inv.ended
  {
    hide AccountsOk, StudiesHeld, Settled, Forward, Took;
    inv := new Invocation(id, budget);
    trail := [inv.Now()];
    ForwardRefl(inv.index);
    for i := 0 to |ops|
      invariant inv.Valid() && fresh(inv) && inv.initial == budget
      invariant Trail(ops[..i], trail) && Fresh(id, budget, trail[0]) && trail[i] == inv.Now() && Forward(trail[0].index, inv.index)
    {
      ghost var before := inv.index;
      Perform(inv, ops[i]);
      ForwardTransitive(trail[0].index, before, inv.index);
      trail := trail + [inv.Now()];
    }
    assert ops[..|ops|] == ops;
    RunFacts(budget, inv.index, inv.pools, inv.log);
  }

  lemma RunFacts(initial: nat, ix: Index, pools: seq<Pool>, log: seq<Entry>)
    requires AccountsOk(initial, ix, pools, log)
    ensures Disjoint(ix) && ChargedOnce(log) && |log| <= initial
    ensures |In(ix.units, Available)| + |In(ix.units, Reserved)| + |In(ix.units, Consumed)| + |In(ix.units, Retired)| + PoolSize(pools) == initial
  {
    ChargesBounded(initial, ix, pools, log);
    Conservation(initial, ix, pools, log);
    forall i, j | 0 <= i < j < |log|
      ensures log[i].charge.reservation != log[j].charge.reservation || log[i].charge.unit != log[j].charge.unit
    {
      NoDoubleCharge(initial, ix, pools, log, i, j);
    }
    forall s, t, i | s in ix.records && t in ix.records && s != t ensures !(i in ix.records[s].units && i in ix.records[t].units) {
      RecordsDisjoint(ix, s, t, i);
    }
  }
}
