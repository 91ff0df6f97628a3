/**
 One sealed forecast: evaluation of future trusted occurrences against a fixed target, paid
 from a delegated escrow, with failures possible at every stage.
 */
module Forecast {
  import opened FiniteSets
  import opened Options
  import opened Ledger
  import opened Escrow
  import opened Invocations

  datatype Target = Carrier(carrier: int) | Branch(assembly: int, anchors: set<int>, pattern: set<int>)

  /** What one retrieval shows: the root witnesses, and per assembly source its witnesses and cells. */
  datatype Retrieval = Retrieval(roots: set<int>, sources: map<int, (set<int>, set<int>)>)

  const EmptyRetrieval := Retrieval({}, map[])

  datatype CaptureState = Captured | ProvenEmpty | Gap

  datatype Status =
    | Pending | Matched | WindowElapsed | Inconclusive
    | BoundaryTerminated | EnvironmentGone | TargetGone | Cancelled

  datatype Occurrence = Occurrence(version: nat, tick: nat, root: nat)

  datatype Coverage = Coverage(ordinal: nat, occurrence: Occurrence, state: CaptureState, matched: bool)

  datatype Outcome = Outcome(status: Status, coverage: seq<Coverage>)

  // ----- matching and status ------------------------------------------------------------

  function Match(target: Target, seen: Retrieval): bool {
    match target
    case Carrier(c) => c in seen.roots
    case Branch(a, anchors, pattern) =>
      a in seen.sources && anchors * seen.sources[a].0 != {} && pattern <= seen.sources[a].1
  }

  /** What a match means: the carrier is a root witness, or the Assembly is shown with a common anchor and all pattern cells. */
  ghost predicate Seen(target: Target, seen: Retrieval) {
    match target
    case Carrier(c) => c in seen.roots
    case Branch(a, anchors, pattern) =>
      && a in seen.sources
      && (exists x :: x in anchors && x in seen.sources[a].0)
      && forall x | x in pattern :: x in seen.sources[a].1
  }

  lemma Covers(a: set<int>, b: set<int>)
    ensures a <= b <==> forall x | x in a :: x in b
  {
    if forall x | x in a :: x in b { assert a - b == {}; }
  }

  lemma MatchIff(target: Target, seen: Retrieval)
    ensures Match(target, seen) <==> Seen(target, seen)
  {
    match target
    case Carrier(_) =>
    case Branch(a, anchors, pattern) =>
      if a in seen.sources {
        Meets(anchors, seen.sources[a].0);
        Covers(pattern, seen.sources[a].1);
      }
  }

  /** An empty retrieval never matches, and seeing more never loses a match. */
  lemma MatchMonotone(target: Target, seen: Retrieval, more: Retrieval)
    requires seen.roots <= more.roots
    requires forall a | a in seen.sources :: a in more.sources && seen.sources[a].0 <= more.sources[a].0 && seen.sources[a].1 <= more.sources[a].1
    ensures Match(target, seen) ==> Match(target, more)
    ensures !Match(target, EmptyRetrieval)
  {
    MatchIff(target, seen);
    MatchIff(target, more);
    if Seen(target, seen) && target.Branch? {
      var x :| x in target.anchors && x in seen.sources[target.assembly].0;
      assert x in more.sources[target.assembly].0;
    }
  }

  predicate AnyGap(coverage: seq<Coverage>) { exists i :: 0 <= i < |coverage| && coverage[i].state.Gap? }

  function StatusAfter(horizon: nat, coverage: seq<Coverage>, matched: bool): Status {
    if matched then Matched
    else if |coverage| < horizon then Pending
    else if AnyGap(coverage) then Inconclusive
    else WindowElapsed
  }

  // ----- well-formed outcomes -----------------------------------------------------------

  ghost predicate DistinctOccurrences(coverage: seq<Coverage>) {
    forall i, j | 0 <= i < j < |coverage| :: coverage[i].occurrence != coverage[j].occurrence
  }

  /** The coverage of a forecast of this horizon: offsets 1..k, distinct occurrences, a match only at the end. */
  ghost predicate CoverageOk(horizon: nat, coverage: seq<Coverage>) {
    && |coverage| <= horizon
    && (forall i | 0 <= i < |coverage| :: coverage[i].ordinal == i + 1 && (coverage[i].state.Gap? ==> !coverage[i].matched))
    && DistinctOccurrences(coverage)
    && forall i | 0 <= i < |coverage| - 1 :: !coverage[i].matched
  }

  /** What an outcome view accepts. */
  ghost predicate OutcomeOk(horizon: nat, o: Outcome) {
    && CoverageOk(horizon, o.coverage)
    && ((exists i :: 0 <= i < |o.coverage| && o.coverage[i].matched) ==> o.status.Matched?)
    && (o.status.Matched? ==> o.coverage != [] && o.coverage[|o.coverage| - 1].matched)
    && (o.status.Pending? ==> |o.coverage| < horizon)
    && (o.status.WindowElapsed? || o.status.Inconclusive? ==>
          |o.coverage| == horizon && (o.status.Inconclusive? <==> exists i :: 0 <= i < |o.coverage| && o.coverage[i].state.Gap?))
  }

  /** Statuses that end a forecast from outside. */
  predicate External(s: Status) { s.BoundaryTerminated? || s.EnvironmentGone? || s.TargetGone? || s.Cancelled? }

  /** Adding one evaluated occurrence to a pending outcome gives an outcome, whatever was seen. */
  lemma NextOutcomeOk(horizon: nat, coverage: seq<Coverage>, occ: Occurrence, state: CaptureState, matched: bool)
    requires OutcomeOk(horizon, Outcome(Pending, coverage)) && forall i | 0 <= i < |coverage| :: coverage[i].occurrence != occ
    requires state.Gap? ==> !matched
    ensures var next := coverage + [Coverage(|coverage| + 1, occ, state, matched)];
            OutcomeOk(horizon, Outcome(StatusAfter(horizon, next, matched), next))
  {
    var next := coverage + [Coverage(|coverage| + 1, occ, state, matched)];
    assert next[|next| - 1].matched == matched;
    forall i | 0 <= i < |coverage| ensures next[i] == coverage[i] && !coverage[i].matched {}
  }

  /** An outside ending leaves the coverage as it is. */
  lemma EndedOutcomeOk(horizon: nat, coverage: seq<Coverage>, status: Status)
    requires OutcomeOk(horizon, Outcome(Pending, coverage)) && External(status)
    ensures OutcomeOk(horizon, Outcome(status, coverage))
  {
  }

  // ----- the escrow of a forecast -------------------------------------------------------

  /** The first `paid` slots are consumed and the rest still reserved. */
  ghost predicate PaidPrefix(p: Pool, paid: nat) {
    && PoolOk(p) && paid <= 2 * p.horizon
    && forall i | 0 <= i < 2 * p.horizon :: p.index.units[i].state == if i < paid then Consumed else Reserved
  }

  /** The next slot is the only payable one. */
  lemma PayNext(p: Pool, paid: nat, offset: int, phase: Phase)
    requires PaidPrefix(p, paid)
    ensures var s := PrepareForecastConsumption(p, offset, phase);
            && (Ordinal(offset, phase) == paid && 1 <= offset <= p.horizon ==> s.Charging?)
            && (Ordinal(offset, phase) < paid ==> s.Denied?)
            && (s.Charging? && Ordinal(offset, phase) == paid ==> PaidPrefix(p.(index := s.index), paid + 1))
  {
    ForecastConsumptionIff(p, offset, phase);
  }

  // ----- failures -----------------------------------------------------------------------

  /** How the capture of one occurrence ends. */
  datatype Capturing = Shows(seen: Retrieval, explicitlyEmpty: bool) | Fails | Aborts

  /**
   Where one evaluation fails: publishing an earlier result, the capture, building the effect
   (once: fall back to a gap, twice: give up), building the result, publishing it, cleaning up.
   */
  datatype Faults = Faults(publishEarlier: bool, capture: Capturing, effectFailures: nat, resultFails: bool, publish: bool, cleanup: bool)

  /** The capture succeeded and could be represented. */
  ghost predicate Usable(fault: Faults) { fault.capture.Shows? && fault.effectFailures == 0 }

  /** The entry of one more offset: a gap unless the capture is usable, matched exactly if the target was then seen. */
  ghost predicate EntryIs(target: Target, ordinal: nat, occ: Occurrence, fault: Faults, entry: Coverage) {
    && entry.ordinal == ordinal && entry.occurrence == occ
    && (entry.state.Gap? <==> !Usable(fault))
    && (Usable(fault) ==> (entry.state.ProvenEmpty? <==> fault.capture.explicitlyEmpty))
    && (entry.matched <==> Usable(fault) && Seen(target, fault.capture.seen))
  }

  /** The status after one more offset: matched, or still open, or closed without a match, with or without a gap. */
  ghost predicate StatusIs(horizon: nat, coverage: seq<Coverage>, status: Status)
    requires coverage != []
  {
    && (status.Matched? <==> coverage[|coverage| - 1].matched)
    && (status.Pending? <==> !coverage[|coverage| - 1].matched && |coverage| < horizon)
    && (status.Inconclusive? <==> !coverage[|coverage| - 1].matched && |coverage| >= horizon
                                  && exists i :: 0 <= i < |coverage| && coverage[i].state.Gap?)
    && !External(status)
  }

  /** The coverage after one more offset, and its status. */
  ghost predicate ResultIs(horizon: nat, target: Target, coverage: seq<Coverage>, occ: Occurrence, fault: Faults, p: Prepared) {
    && |p.coverage| == |coverage| + 1 && p.coverage[..|coverage|] == coverage
    && EntryIs(target, |coverage| + 1, occ, fault, p.coverage[|coverage|])
    && StatusIs(horizon, p.coverage, p.status)
  }

  /** One offset has one result. */
  lemma ResultOnce(horizon: nat, target: Target, coverage: seq<Coverage>, occ: Occurrence, fault: Faults, p: Prepared, o: Prepared)
    requires ResultIs(horizon, target, coverage, occ, fault, p) && ResultIs(horizon, target, coverage, occ, fault, o)
    ensures p == o
  {
    hide Seen;
    assert p.coverage == coverage + [p.coverage[|coverage|]] && o.coverage == coverage + [o.coverage[|coverage|]];
    assert p.coverage[|coverage|] == o.coverage[|coverage|];
  }

  /** Failures after which no result exists. */
  predicate Lost(fault: Faults) { fault.capture.Aborts? || fault.effectFailures >= 2 || fault.resultFails }

  datatype Prepared = Prepared(coverage: seq<Coverage>, status: Status)

  ghost predicate StaleOk(s: Option<Status>) { s.Some? ==> s.value.EnvironmentGone? || s.value.TargetGone? }

  /** What a forecast shows between two calls. */
  datatype Shown = Shown(live: bool, status: Status, coverage: seq<Coverage>, pending: Option<Prepared>, paid: nat)
  {
    predicate Has(occ: Occurrence) { exists i :: 0 <= i < |coverage| && coverage[i].occurrence == occ }

    /** The occurrence was evaluated before, or its result is waiting to be published. */
    ghost predicate Awaits(occ: Occurrence) {
      Has(occ) || (pending.Some? && exists i :: 0 <= i < |pending.value.coverage| && pending.value.coverage[i].occurrence == occ)
    }

    /** A phase was charged and its result was lost: no further offset can be paid. */
    predicate Stuck() { live && status.Pending? && pending.None? && paid > 2 * |coverage| }
  }

  /** Publishing a prepared result: kept on failure; otherwise shown, and a terminal one ends the forecast unless cleanup fails. */
  ghost predicate PublishDone(before: Shown, fails: bool, cleanupFails: bool, after: Shown, r: Answer<Outcome>)
    requires before.pending.Some?
  {
    var p := before.pending.value;
    if fails then r.Abort? && after == before
    else if p.status.Pending? then r == Done(Outcome(Pending, p.coverage)) && after == Shown(true, Pending, p.coverage, None, before.paid)
    else if cleanupFails then r.Abort? && after == Shown(true, p.status, p.coverage, None, before.paid)
    else r == Done(Outcome(p.status, p.coverage)) && !after.live && after.paid == before.paid
  }

  /** Evaluating an occurrence not seen before: two payments and one more offset, or an abort that says how much was paid. */
  ghost predicate NewDone(horizon: nat, target: Target, before: Shown, occ: Occurrence, fault: Faults, after: Shown, r: Answer<Outcome>) {
    if before.Stuck() then r.Abort? && after == before
    else if Lost(fault) then
      r.Abort? && after == before.(paid := before.paid + if fault.capture.Aborts? || fault.effectFailures >= 2 then 1 else 2)
    else
      exists result :: ResultIs(horizon, target, before.coverage, occ, fault, result)
                       && PublishDone(before.(paid := before.paid + 2, pending := Some(result)), fault.publish, fault.cleanup, after, r)
  }

  /** Evaluating with nothing prepared: a repeated occurrence changes nothing, one not after the origin is refused. */
  ghost predicate FreshDone(horizon: nat, target: Target, origin: nat, before: Shown, occ: Occurrence, fault: Faults, after: Shown, r: Answer<Outcome>) {
    if before.Has(occ) then r == Done(Outcome(before.status, before.coverage)) && after == before
    else if occ.root <= origin then r.Abort? && after == before
    else NewDone(horizon, target, before, occ, fault, after, r)
  }

  /** Evaluating: an earlier paid result is published first, and only if the forecast goes on is the occurrence looked at. */
  ghost predicate EvaluateDone(horizon: nat, target: Target, origin: nat, before: Shown, occ: Occurrence, fault: Faults, after: Shown, r: Answer<Outcome>) {
    if before.pending.None? then FreshDone(horizon, target, origin, before, occ, fault, after, r)
    else if fault.publishEarlier || !before.pending.value.status.Pending? then
      PublishDone(before, fault.publishEarlier, fault.cleanup, after, r)
    else FreshDone(horizon, target, origin, before.(coverage := before.pending.value.coverage, pending := None), occ, fault, after, r)
  }

  /** Ending: nothing changes when cleanup fails. */
  ghost predicate RetireDone(before: Shown, asked: Status, cleanupFails: bool, after: Shown, r: Answer<Outcome>) {
    if cleanupFails then r.Abort? && after == before
    else r == Done(Outcome(if before.status.Pending? then asked else before.status, before.coverage)) && !after.live && after.paid == before.paid
  }

  /** A delivered event: a terminal forecast is cleaned up, a boundary or a stale target ends it, anything else is evaluated. */
  ghost predicate DeliverDone(horizon: nat, target: Target, origin: nat, before: Shown, occ: Occurrence, boundary: bool,
                              stale: Option<Status>, fault: Faults, after: Shown, r: Answer<Outcome>) {
    if !before.status.Pending? then RetireDone(before, before.status, fault.cleanup, after, r)
    else if boundary then RetireDone(before, BoundaryTerminated, fault.cleanup, after, r)
    else if stale.Some? then RetireDone(before, stale.value, fault.cleanup, after, r)
    else EvaluateDone(horizon, target, origin, before, occ, fault, after, r)
  }

  /** A new evaluation leaves the forecast stuck exactly when it already was, or when its result was lost. */
  lemma StuckIff(horizon: nat, target: Target, before: Shown, occ: Occurrence, fault: Faults, after: Shown, r: Answer<Outcome>)
    requires NewDone(horizon, target, before, occ, fault, after, r)
    requires before.live && before.status.Pending? && before.pending.None? && before.paid >= 2 * |before.coverage|
    ensures after.Stuck() <==> before.Stuck() || Lost(fault)
  {
    hide EntryIs, StatusIs;
  }

  /** A retry: a stale forecast ends, a waiting result is published, otherwise nothing changes. */
  ghost predicate RetryDone(before: Shown, stale: Option<Status>, fault: Faults, after: Shown, r: Answer<Outcome>) {
    if stale.Some? then RetireDone(before, stale.value, fault.cleanup, after, r)
    else if before.pending.None? then r == Done(Outcome(before.status, before.coverage)) && after == before
    else PublishDone(before, fault.publish, fault.cleanup, after, r)
  }

  /** What a stuck forecast may still become. */
  ghost predicate StuckKept(before: Shown, after: Shown) {
    before.Stuck() ==> after == before || !after.live
  }

  /** No event gets a stuck forecast going again: it stays as it is until it is ended from outside. */
  lemma DeliveryKeepsStuck(horizon: nat, target: Target, origin: nat, before: Shown, occ: Occurrence, boundary: bool,
                           stale: Option<Status>, fault: Faults, after: Shown, r: Answer<Outcome>)
    requires DeliverDone(horizon, target, origin, before, occ, boundary, stale, fault, after, r)
    ensures StuckKept(before, after)
    ensures before.Stuck() && after.live && !before.Has(occ) ==> r.Abort?
  {
    hide EntryIs, StatusIs;
  }

  lemma {:induction false} StuckForGood(views: seq<Shown>, i: nat, j: nat)
    requires i <= j < |views| && views[i].Stuck()
    requires forall k | 0 <= k < |views| - 1 :: StuckKept(views[k], views[k + 1]) && (!views[k].live ==> !views[k + 1].live)
    ensures views[j] == views[i] || !views[j].live
    decreases j
  {
    if i < j {
      StuckForGood(views, i, j - 1);
      assert StuckKept(views[j - 1], views[j - 1 + 1]);
    }
  }

  class Forecast {
    const horizon: nat
    const target: Target
    const originRoot: nat
    var pool: Pool
    var coverage: seq<Coverage>
    var status: Status
    var revision: nat
    var pending: Option<Prepared>
    var evaluated: set<Occurrence>
    var live: bool
    ghost var paid: nat

    ghost predicate Valid()
      reads this
    {
      && pool.horizon == horizon
      && (live ==>
            && PaidPrefix(pool, paid)
            && OutcomeOk(horizon, Outcome(status, coverage))
            && (status.Pending? || status.Matched? || status.WindowElapsed? || status.Inconclusive?)
            && evaluated == (set i | 0 <= i < |coverage| :: coverage[i].occurrence)
            && 2 * |coverage| <= paid <= 2 * |coverage| + 2
            && (!status.Pending? ==> pending.None? && paid == 2 * |coverage|)
            && (pending.Some? ==> paid == 2 * |coverage| + 2 && PendingOk(pending.value)))
      && (!live ==> !status.Pending? && pending.None? && PoolOk(pool) && forall i | 0 <= i < 2 * horizon :: !Spendable(pool.index.units[i].state))
    }

    /** A prepared result is one more evaluated offset, already paid for. */
    ghost predicate PendingOk(p: Prepared)
      reads this
    {
      && |p.coverage| == |coverage| + 1 && p.coverage[..|coverage|] == coverage
      && OutcomeOk(horizon, Outcome(p.status, p.coverage))
      && !External(p.status)
    }

    ghost function View(): Shown
      reads this
    {
      Shown(live, status, coverage, pending, paid)
    }

    constructor (parent: ReservationId, offsets: nat, goal: Target, origin: nat)
      requires 1 <= offsets <= MAX_HORIZON
      ensures Valid() && live && status.Pending? && coverage == [] && pending.None? && paid == 0
      ensures horizon == offsets && target == goal && originRoot == origin && pool == NewPool(parent, offsets) && revision == 0
    {
      horizon, target, originRoot := offsets, goal, origin;
      coverage, status, revision, pending, evaluated, live, paid := [], Pending, 0, None, {}, true, 0;
      pool := NewPool(parent, offsets);
      new;
      NewPoolOk(parent, offsets);
    }

    /** End the forecast. A published terminal status wins over the one asked for. */
    method Retire(asked: Status, cleanupFails: bool) returns (r: Answer<Outcome>)
      requires Valid() && live && (External(asked) || asked == status) && (status.Pending? ==> External(asked))
      modifies this
      ensures Valid() && (cleanupFails ==> pool == old(pool)) && revision == old(revision) + (if cleanupFails then 0 else 1)
      ensures RetireDone(old(View()), asked, cleanupFails, View(), r)
      ensures r.Done? ==> OutcomeOk(horizon, r.value) && !r.value.status.Pending?
    {
      hide PoolOk, ForecastRetirement;
      var ending := if status.Pending? then asked else status;
      if status.Pending? { EndedOutcomeOk(horizon, coverage, ending); }
      if cleanupFails { return Abort(ContractViolation); }
      r := Done(Outcome(ending, coverage));
      ForecastRetirementKeeps(pool);
      pool := pool.(index := ForecastRetirement(pool));
      live, status, revision, pending, coverage, evaluated := false, ending, revision + 1, None, [], {};
    }

    /** Attach the prepared result exactly as it was paid for; a terminal result also ends the forecast. */
    method Publish(fails: bool, cleanupFails: bool) returns (r: Answer<Outcome>)
      requires Valid() && live && status.Pending? && pending.Some?
      modifies this
      ensures Valid() && (live ==> pool == old(pool))
      ensures revision == old(revision) + (if fails then 0 else if live then 1 else 2)
      ensures PublishDone(old(View()), fails, cleanupFails, View(), r)
      ensures r.Done? ==> OutcomeOk(horizon, r.value)
    {
      hide PoolOk, PaidPrefix, OutcomeOk;
      if fails { return Abort(ContractViolation); }
      var next := pending.value;
      assert next.coverage[..|coverage|] == coverage;
      NewOccurrence(coverage, next.coverage);
      evaluated := evaluated + {next.coverage[|coverage|].occurrence};
      coverage, status, revision, pending := next.coverage, next.status, revision + 1, None;
      if !status.Pending? {
        r := Retire(status, cleanupFails);
        return;
      }
      r := Done(Outcome(status, coverage));
    }

    /** Evaluate one trusted occurrence. */
    method Evaluate(occ: Occurrence, fault: Faults) returns (r: Answer<Outcome>)
      requires Valid() && live && status.Pending?
      modifies this
      ensures Valid()
      ensures EvaluateDone(horizon, target, originRoot, old(View()), occ, fault, View(), r)
      ensures r.Done? ==> OutcomeOk(horizon, r.value)
    {
      hide PoolOk, PaidPrefix, OutcomeOk;
      if pending.Some? {
        r := Publish(fault.publishEarlier, fault.cleanup);
        if r.Abort? || !r.value.status.Pending? { return; }
      }
      if occ in evaluated {
        return Done(Outcome(status, coverage));
      }
      if occ.root <= originRoot { return Abort(InvalidInput); }
      r := EvaluateNew(occ, fault);
    }

    /** Pay, capture, pay, evaluate, and keep the result until it is published. */
    method EvaluateNew(occ: Occurrence, fault: Faults) returns (r: Answer<Outcome>)
      requires Valid() && live && status.Pending? && pending.None? && occ !in evaluated
      modifies this
      ensures Valid()
      ensures NewDone(horizon, target, old(View()), occ, fault, View(), r)
      ensures r.Done? ==> r.value.coverage != [] && EntryIs(target, |old(coverage)| + 1, occ, fault, r.value.coverage[|r.value.coverage| - 1])
      ensures r.Done? ==> OutcomeOk(horizon, r.value)
    {
      hide PoolOk, PaidPrefix, OutcomeOk, Match, StatusAfter, EntryIs, StatusIs;
      var offset := |coverage| + 1;
      PayNext(pool, paid, offset, Capture);
      PendingHasRoom(horizon, status, coverage);
      var captured := PrepareForecastConsumption(pool, offset, Capture);
      if captured.Denied? { return Abort(captured.code); }
      pool, paid := pool.(index := captured.index), paid + 1;
      if fault.capture.Aborts? { return Abort(ContractViolation); }
      var seen, state := EmptyRetrieval, Gap;
      if fault.capture.Shows? {
        seen := fault.capture.seen;
        state := if fault.capture.explicitlyEmpty then ProvenEmpty else Captured;
      }
      PayNext(pool, paid, offset, Evaluation);
      var evaluation := PrepareForecastConsumption(pool, offset, Evaluation);
      assert evaluation.Charging?;
      if fault.effectFailures == 1 { seen, state := EmptyRetrieval, Gap; }
      if fault.effectFailures >= 2 { return Abort(ContractViolation); }
      pool, paid := pool.(index := evaluation.index), paid + 1;
      if fault.resultFails { return Abort(ContractViolation); }
      Prepare(occ, seen, state, fault);
      r := Publish(fault.publish, fault.cleanup);
    }

    /** The result of an evaluation, held until it is published. */
    method Prepare(occ: Occurrence, seen: Retrieval, state: CaptureState, ghost fault: Faults)
      requires if Usable(fault) then seen == fault.capture.seen && state == (if fault.capture.explicitlyEmpty then ProvenEmpty else Captured)
               else state == Gap
      requires Valid() && live && status.Pending? && pending.None? && occ !in evaluated && paid == 2 * |coverage| + 2
      modifies this`pending
      ensures Valid() && pending.Some?
      ensures ResultIs(horizon, target, coverage, occ, fault, pending.value)
    {
      hide PoolOk, PaidPrefix, OutcomeOk, Match, StatusAfter;
      var offset := |coverage| + 1;
      var matched := !state.Gap? && Match(target, seen);
      var next := coverage + [Coverage(offset, occ, state, matched)];
      NextOutcomeOk(horizon, coverage, occ, state, matched);
      NotExternal(horizon, next, matched);
      MatchIff(target, seen);
      StatusMeans(horizon, next, matched);
      pending := Some(Prepared(next, StatusAfter(horizon, next, matched)));
    }

    /** A delivered core event: finish cleanup, terminate, or evaluate. Failures of evaluation are reported, not raised. */
    method Deliver(occ: Occurrence, boundary: bool, stale: Option<Status>, fault: Faults) returns (r: Answer<Outcome>)
      requires Valid() && live && StaleOk(stale)
      modifies this
      ensures Valid()
      ensures DeliverDone(horizon, target, originRoot, old(View()), occ, boundary, stale, fault, View(), r)
      ensures r.Done? && r.value.coverage != [] && r.value.coverage[|r.value.coverage| - 1].occurrence == occ && !old(View()).Awaits(occ) ==>
                (r.value.coverage[|r.value.coverage| - 1].matched <==> Usable(fault) && Seen(target, fault.capture.seen))
      ensures r.Done? ==> OutcomeOk(horizon, r.value)
    {
      hide PoolOk, PaidPrefix, OutcomeOk;
      if !status.Pending? {
        r := Retire(status, fault.cleanup);
      } else if boundary {
        r := Retire(BoundaryTerminated, fault.cleanup);
      } else if stale.Some? {
        r := Retire(stale.value, fault.cleanup);
      } else {
        r := Evaluate(occ, fault);
      }
    }

    /** Attach an already produced result; nothing is recomputed or paid. */
    method RetryPublication(stale: Option<Status>, fault: Faults) returns (r: Answer<Outcome>)
      requires Valid() && live && status.Pending? && StaleOk(stale)
      modifies this
      ensures Valid() && paid == old(paid)
      ensures r.Done? ==> OutcomeOk(horizon, r.value)
      ensures RetryDone(old(View()), stale, fault, View(), r)
    {
      hide PoolOk, PaidPrefix, OutcomeOk;
      if stale.Some? {
        r := Retire(stale.value, fault.cleanup);
        return;
      }
      if pending.None? {
        return Done(Outcome(status, coverage));
      }
      r := Publish(fault.publish, fault.cleanup);
    }
  }

  lemma StatusMeans(horizon: nat, coverage: seq<Coverage>, matched: bool)
    requires coverage != [] && coverage[|coverage| - 1].matched == matched
    ensures StatusIs(horizon, coverage, StatusAfter(horizon, coverage, matched))
  {
  }

  lemma NotExternal(horizon: nat, coverage: seq<Coverage>, matched: bool)
    ensures !External(StatusAfter(horizon, coverage, matched))
  {
  }

  lemma NewOccurrence(coverage: seq<Coverage>, next: seq<Coverage>)
    requires |next| == |coverage| + 1 && next[..|coverage|] == coverage
    ensures (set i | 0 <= i < |next| :: next[i].occurrence) == (set i | 0 <= i < |coverage| :: coverage[i].occurrence) + {next[|coverage|].occurrence}
  {
    var all := set i | 0 <= i < |next| :: next[i].occurrence;
    forall i | 0 <= i < |coverage| ensures coverage[i].occurrence in all { assert next[..|coverage|][i] == next[i]; }
    forall i | 0 <= i < |next| && i != |coverage| ensures next[i] == coverage[i] { assert next[..|coverage|][i] == next[i]; }
    assert next[|coverage|].occurrence in all;
  }

  lemma PendingHasRoom(horizon: nat, status: Status, coverage: seq<Coverage>)
    requires OutcomeOk(horizon, Outcome(status, coverage)) && status.Pending?
    ensures |coverage| < horizon
  {
  }

  // ----- every run ----------------------------------------------------------------------

  datatype Step =
    | Event(occ: Occurrence, boundary: bool, stale: Option<Status>, fault: Faults)
    | Retry(retryStale: Option<Status>, retryFault: Faults)
    | Cancel(cleanupFails: bool)

  /** What one step does: deliver, retry or cancel while the forecast lives; nothing once it has ended. */
  ghost predicate StepDone(horizon: nat, target: Target, origin: nat, before: Shown, step: Step, after: Shown) {
    if !before.live || (!step.Event? && !before.status.Pending?) then after == before
    else exists r :: StepAnswers(horizon, target, origin, before, step, after, r)
  }

  ghost predicate StepAnswers(horizon: nat, target: Target, origin: nat, before: Shown, step: Step, after: Shown, r: Answer<Outcome>) {
    match step
    case Event(occ, boundary, stale, fault) => DeliverDone(horizon, target, origin, before, occ, boundary, stale, fault, after, r)
    case Retry(stale, fault) => RetryDone(before, stale, fault, after, r)
    case Cancel(cleanupFails) => RetireDone(before, Cancelled, cleanupFails, after, r)
  }

  /**
   Any sequence of deliveries, retries and cancellations with any failures: every outcome is well
   formed, slots are paid in order, and a forecast that lost a paid result never goes on.
   */
  method RunForecast(parent: ReservationId, horizon: nat, target: Target, origin: nat, steps: seq<Step>)
    returns (f: Forecast, outcomes: seq<Outcome>, ghost views: seq<Shown>)
    requires 1 <= horizon <= MAX_HORIZON
    requires forall i | 0 <= i < |steps| :: steps[i].Event? ==> StaleOk(steps[i].stale)
    requires forall i | 0 <= i < |steps| :: steps[i].Retry? ==> StaleOk(steps[i].retryStale)
    ensures f.Valid() && f.horizon == horizon
    ensures forall i | 0 <= i < |outcomes| :: OutcomeOk(horizon, outcomes[i])
    ensures f.live ==> CoverageOk(horizon, f.coverage) && PaidPrefix(f.pool, f.paid) && 2 * |f.coverage| <= f.paid <= 2 * |f.coverage| + 2
    ensures |views| == |steps| + 1 && views[|steps|] == f.View()
    ensures views[0] == Shown(true, Pending, [], None, 0)
    ensures forall i | 0 <= i < |steps| :: StepDone(horizon, target, origin, views[i], steps[i], views[i + 1])
    ensures forall i, j | 0 <= i <= j < |views| && views[i].Stuck() :: views[j] == views[i] || !views[j].live
  {
    hide PoolOk, PaidPrefix, OutcomeOk, NewPool, DeliverDone, RetryDone, RetireDone, PublishDone;
    f := new Forecast(parent, horizon, target, origin);
    outcomes, views := [], [f.View()];
    for i := 0 to |steps|
      invariant f.Valid() && fresh(f) && f.horizon == horizon && f.target == target && f.originRoot == origin
      invariant |views| == i + 1 && views[0] == Shown(true, Pending, [], None, 0)
      invariant forall k | 0 <= k < i :: StepDone(horizon, target, origin, views[k], steps[k], views[k + 1])
      invariant forall j | 0 <= j < |outcomes| :: OutcomeOk(horizon, outcomes[j])
      invariant views[i] == f.View()
      invariant forall k | 0 <= k < |views| - 1 :: StuckKept(views[k], views[k + 1]) && (!views[k].live ==> !views[k + 1].live)
    {
      ghost var before := f.View();
      if !f.live {
        views := views + [f.View()];
        continue;
      }
      var r: Answer<Outcome> := Abort(NotActive);
      match steps[i] {
        case Event(occ, boundary, stale, fault) =>
          r := f.Deliver(occ, boundary, stale, fault);
          DeliveryKeepsStuck(horizon, f.target, f.originRoot, before, occ, boundary, stale, fault, f.View(), r);
        case Retry(stale, fault) =>
          if f.status.Pending? { r := f.RetryPublication(stale, fault); RetryKeepsStuck(before, stale, fault, f.View(), r); }
        case Cancel(cleanupFails) =>
          if f.status.Pending? { r := f.Retire(Cancelled, cleanupFails); EndingKeepsStuck(before, Cancelled, cleanupFails, f.View(), r); }
      }
      assert StepDone(horizon, target, origin, before, steps[i], f.View()) by {
        if before.live && (steps[i].Event? || before.status.Pending?) { assert StepAnswers(horizon, target, origin, before, steps[i], f.View(), r); }
      }
      if r.Done? { outcomes := outcomes + [r.value]; }
      views := views + [f.View()];
    }
    forall i, j | 0 <= i <= j < |views| && views[i].Stuck() ensures views[j] == views[i] || !views[j].live {
      StuckForGood(views, i, j);
    }
    if f.live { OutcomeCovers(horizon, Outcome(f.status, f.coverage)); }
  }

  lemma EndingKeepsStuck(before: Shown, asked: Status, cleanupFails: bool, after: Shown, r: Answer<Outcome>)
    requires RetireDone(before, asked, cleanupFails, after, r)
    ensures StuckKept(before, after)
  {
  }

  lemma RetryKeepsStuck(before: Shown, stale: Option<Status>, fault: Faults, after: Shown, r: Answer<Outcome>)
    requires RetryDone(before, stale, fault, after, r)
    ensures StuckKept(before, after)
  {
  }

  lemma OutcomeCovers(horizon: nat, o: Outcome)
    requires OutcomeOk(horizon, o)
    ensures CoverageOk(horizon, o.coverage)
  {
  }
}
