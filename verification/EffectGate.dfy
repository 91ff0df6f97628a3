/** The exactly-once effect gate. */
module EffectGate {
  // The effect gate: look up, authorize, charge and commit. A commit identity is stored at most
  // once, a retry returns the stored charge and pays nothing, and an interruption at any point
  // of the publication leaves the ledger, the owner and the arena as they were.

  import opened Options
  import opened Ordering
  import opened Ledger
  import opened Escrow
  import opened Accounts
  import opened Invocations

  /** What a reasoning effect adds to the arena, and whether it ends the epoch. */
  datatype Publication = Publication(additions: map<int, int>, terminal: bool)

  /** A frozen effect in its authority context: the commit identity. */
  datatype Effect = Effect(body: int, work: Work, ownerRevision: int, snapshot: Option<nat>, publication: Option<Publication>)

  datatype Request = Request(effect: Effect, supplied: Charge, ordinal: int, token: nat)

  datatype Arena = Arena(version: nat, entries: map<int, int>)

  datatype Limits = Limits(maxCommits: nat, maxRounds: nat, maxStaged: nat, maxEntries: nat)

  /** The first section of an attempt: a stored charge, a refusal, or leave to go on. */
  datatype Looked = Found(charge: Charge) | Barred(code: Code) | Clear

  datatype GateResult = Existing(charge: Charge) | Committed(charge: Charge) | Refusal(code: Code) | Interrupted

  // ----- lookup -------------------------------------------------------------------------

  /** The accounting binding of a unit, whatever its state: no permit, no charge. */
  function Inspect(ix: Index, token: nat, unit: int, work: Work): Answer<Charge> {
    if token !in ix.records then Abort(MissingCharge)
    else if !(0 <= unit < |ix.units|) then Abort(InvalidInput)
    else if unit !in ix.records[token].units then Abort(MissingCharge)
    else if work != ix.records[token].work then Abort(WorkClassMismatch)
    else if ix.units[unit].reservation != Some(ix.records[token].identity) then Abort(MissingCharge)
    else Done(Charge(ix.records[token].identity, unit, work))
  }

  /** A charge that names a unit of the reservation behind the token, for exactly the recorded work. */
  ghost predicate Genuine(ix: Index, token: nat, unit: int, work: Work, c: Charge) {
    && token in ix.records && ix.records[token].work == work && unit in ix.records[token].units
    && c == Charge(ix.records[token].identity, unit, work)
  }

  /** In a sound index the look-up finds exactly the genuine charges, spent or not. */
  lemma InspectIff(ix: Index, token: nat, unit: int, work: Work, c: Charge)
    requires IndexOk(ix)
    ensures Inspect(ix, token, unit, work) == Done(c) <==> Genuine(ix, token, unit, work, c)
  {
    if token in ix.records {
      assert RecordOk(ix, token);
      if unit in ix.records[token].units {
        var i :| 0 <= i < |ix.records[token].units| && ix.records[token].units[i] == unit;
      }
    }
  }

  /** What is consumed was inspectable as the same charge before. */
  lemma InspectedFirst(ix: Index, token: nat, unit: int, work: Work)
    requires IndexOk(ix) && PrepareConsumption(ix, token, unit, work).Charging?
    ensures Inspect(ix, token, unit, work) == Done(PrepareConsumption(ix, token, unit, work).charge)
  {
    ConsumptionKeeps(ix, token, unit, work);
  }

  // ----- the arena plan -----------------------------------------------------------------

  /** Additions agree with the entries already published under the same key. */
  predicate Agrees(entries: map<int, int>, additions: map<int, int>) {
    forall k | k in additions && k in entries :: entries[k] == additions[k]
  }

  function NextArena(a: Arena, additions: map<int, int>): Arena { Arena(a.version + 1, a.entries + additions) }

  /** The snapshot an effect binds is current, and its publication fits the arena. */
  predicate PlanOk(limits: Limits, arena: Option<Arena>, e: Effect, proven: Option<Publication>) {
    && (e.snapshot.Some? ==> arena.Some? && arena.value.version == e.snapshot.value)
    && (e.publication.Some? ==>
          && proven == e.publication && e.snapshot.Some?
          && arena.value.version < limits.maxRounds
          && |e.publication.value.additions| <= limits.maxStaged
          && Agrees(arena.value.entries, e.publication.value.additions)
          && |NextArena(arena.value, e.publication.value.additions).entries| <= limits.maxEntries)
  }

  ghost predicate Contradicts(entries: map<int, int>, additions: map<int, int>) {
    exists k | k in entries && k in additions :: entries[k] != additions[k]
  }

  /** What publishing means: nothing is dropped or rewritten, everything new is there, and nothing else. */
  ghost predicate Extends(before: map<int, int>, additions: map<int, int>, after: map<int, int>) {
    && (forall k | k in before :: k in after && after[k] == before[k])
    && (forall k | k in additions :: k in after && after[k] == additions[k])
    && forall k | k in after :: k in before || k in additions
  }

  /** The snapshot an effect binds is current, and there is room for an arena that takes its publication in. */
  ghost predicate PlanFits(limits: Limits, arena: Option<Arena>, e: Effect, proven: Option<Publication>) {
    && (e.snapshot.Some? ==> arena.Some? && arena.value.version == e.snapshot.value)
    && (e.publication.Some? ==>
          && e.snapshot.Some? && proven == e.publication
          && e.snapshot.value < limits.maxRounds && |e.publication.value.additions| <= limits.maxStaged
          && exists after :: Extends(arena.value.entries, e.publication.value.additions, after) && |after| <= limits.maxEntries)
  }

  /** An arena that takes additions in is determined by them, and there is one exactly when they agree with it. */
  lemma ExtensionIff(before: map<int, int>, additions: map<int, int>, after: map<int, int>)
    ensures Extends(before, additions, after) <==> Agrees(before, additions) && after == before + additions
  {
    if Extends(before, additions, after) {
      var both := before + additions;
      forall k ensures k in after <==> k in both {
        if k in before { assert k in after; }
        if k in additions { assert k in after; }
      }
      forall k | k in after ensures after[k] == both[k] { assert k in both; }
    }
  }

  /** The tests of the plan find exactly whether such an arena exists. */
  lemma PlanIff(limits: Limits, arena: Option<Arena>, e: Effect, proven: Option<Publication>)
    ensures PlanOk(limits, arena, e, proven) <==> PlanFits(limits, arena, e, proven)
    ensures e.publication.Some? && proven != e.publication ==> !PlanFits(limits, arena, e, proven)
    ensures PlanOk(limits, arena, e, proven) && e.publication.Some? ==>
              && arena.Some? && NextArena(arena.value, e.publication.value.additions).version == arena.value.version + 1
              && Extends(arena.value.entries, e.publication.value.additions, NextArena(arena.value, e.publication.value.additions).entries)
  {
    hide Agrees, Extends;
    if e.publication.Some? && arena.Some? {
      var before, additions := arena.value.entries, e.publication.value.additions;
      forall after ensures Extends(before, additions, after) <==> Agrees(before, additions) && after == before + additions {
        ExtensionIff(before, additions, after);
      }
    }
  }

  /** An addition that contradicts what is published leaves no arena to publish. */
  lemma ConflictUnfit(limits: Limits, arena: Option<Arena>, e: Effect, proven: Option<Publication>)
    requires e.publication.Some? && arena.Some? && Contradicts(arena.value.entries, e.publication.value.additions)
    ensures !PlanFits(limits, arena, e, proven)
  {
    forall after ensures !Extends(arena.value.entries, e.publication.value.additions, after) {}
  }

  // ----- the stored effects -------------------------------------------------------------

  /** Every stored effect holds its own consumed unit. */
  ghost predicate StoredOk(ix: Index, stored: map<Effect, Charge>) {
    && (forall e | e in stored ::
          && stored[e].work == e.work && stored[e].unit < |ix.units|
          && ix.units[stored[e].unit] == Unit(Consumed, Some(stored[e].reservation)))
    && forall e, f | e in stored && f in stored && e != f :: stored[e].unit != stored[f].unit
  }

  lemma StoredStays(ix: Index, iy: Index, stored: map<Effect, Charge>)
    requires StoredOk(ix, stored) && Forward(ix, iy)
    ensures StoredOk(iy, stored) && |iy.units| == |ix.units|
  {
    forall e | e in stored ensures iy.units[stored[e].unit] == ix.units[stored[e].unit] {
      assert Advances(ix.units[stored[e].unit], iy.units[stored[e].unit]);
    }
  }

  /** A new charge takes a unit no stored effect holds. */
  lemma StoredGrows(ix: Index, stored: map<Effect, Charge>, e: Effect, token: nat, unit: int)
    requires IndexOk(ix) && StoredOk(ix, stored) && e !in stored && PrepareConsumption(ix, token, unit, e.work).Charging?
    ensures var s := PrepareConsumption(ix, token, unit, e.work);
            StoredOk(s.index, stored[e := s.charge])
  {
    hide IndexOk;
    var s := PrepareConsumption(ix, token, unit, e.work);
    ConsumptionKeeps(ix, token, unit, e.work);
    StoredStays(ix, s.index, stored);
    forall f | f in stored ensures stored[f].unit != s.charge.unit {
      assert ix.units[stored[f].unit].state.Consumed?;
    }
  }

  /** Every stored effect was charged, once, in the log of the invocation. */
  lemma StoredCharged(initial: nat, ix: Index, pools: seq<Pool>, log: seq<Entry>, stored: map<Effect, Charge>, e: Effect)
    requires AccountsOk(initial, ix, pools, log) && StoredOk(ix, stored) && e in stored
    ensures exists j :: 0 <= j < |log| && log[j].place == 0 && log[j].charge.unit == stored[e].unit && log[j].charge.reservation == stored[e].reservation
  {
    var u := stored[e].unit;
    assert UnitAt(ix, pools, 0, u) == Some(Unit(Consumed, Some(stored[e].reservation)));
    assert HasEntry(log, 0, u);
    var j :| 0 <= j < |log| && log[j].place == 0 && log[j].charge.unit == u;
    assert UnitAt(ix, pools, log[j].place, log[j].charge.unit) == Some(Unit(Consumed, Some(log[j].charge.reservation)));
  }

  function Min2(a: nat, b: nat): nat { if a <= b then a else b }

  /** Everything the gate may write, as a value. */
  datatype Held = Held(index: Index, epoch: bool, children: nat, stored: map<Effect, Charge>, attached: bool, registered: bool,
                       arena: Option<Arena>, terminal: bool, lastArena: Option<Arena>)

  /** A gate between two steps, as a value. */
  datatype GateView = GateView(own: Snapshot, stored: map<Effect, Charge>, attached: bool, registered: bool, closed: bool,
                               arena: Option<Arena>, terminal: bool, lastArena: Option<Arena>)

  /** When a request commits: every gate passes and nothing interrupts. */
  ghost predicate Admits(limits: Limits, v: GateView, given: int, req: Request, proven: Option<Publication>, current: bool) {
    var e := req.effect;
    && given >= 0 && e.ownerRevision == given
    && v.own.state.Active? && v.own.revision == given
    && e !in v.stored && current && PlanFits(limits, v.arena, e, proven) && !v.closed
    && |v.stored| < limits.maxCommits && |v.stored| < |v.own.index.units|
    && PrepareConsumption(v.own.index, req.token, req.ordinal, e.work).Charging?
    && PrepareConsumption(v.own.index, req.token, req.ordinal, e.work).charge == req.supplied
  }

  /** A lookup of a stored effect by its owner, with a genuine charge: no current authority is needed. */
  ghost predicate Retries(v: GateView, given: int, req: Request) {
    && given >= 0 && req.effect.ownerRevision == given && req.effect in v.stored
    && Genuine(v.own.index, req.token, req.ordinal, req.effect.work, req.supplied)
  }

  /** What the first section lets through: an owner's live request with a genuine charge, not yet stored. */
  ghost predicate Proceeds(v: GateView, given: int, req: Request) {
    && given >= 0 && req.effect.ownerRevision == given && req.effect !in v.stored
    && Genuine(v.own.index, req.token, req.ordinal, req.effect.work, req.supplied)
    && v.own.state.Active? && v.own.revision == given
  }

  /** The arena now, or the last one if the epoch ended, has taken the publication in. */
  ghost predicate Takes(before: Arena, p: Publication, arena: Option<Arena>, lastArena: Option<Arena>) {
    var now := if p.terminal then lastArena else arena;
    now.Some? && now.value.version == before.version + 1 && Extends(before.entries, p.additions, now.value.entries)
  }

  /** What a publication does to the epoch: a terminal one ends it. */
  ghost predicate Publishes(a: GateView, p: Publication, b: GateView) {
    && a.arena.Some? && Takes(a.arena.value, p, b.arena, b.lastArena)
    && if p.terminal then b.arena.None? && b.terminal && !b.own.epoch && b.own.children + 1 == a.own.children
       else b.lastArena == a.lastArena && b.terminal == a.terminal && b.own.epoch == a.own.epoch && b.own.children == a.own.children
  }

  /** What a commit does, all of it: one unit charged, one effect stored, the publication taken in. */
  ghost predicate Commits(a: GateView, req: Request, b: GateView) {
    var e := req.effect;
    && b.stored == a.stored[e := req.supplied] && b.attached && b.registered && b.closed == a.closed
    && b.own == a.own.(index := b.own.index, epoch := b.own.epoch, children := b.own.children, log := a.own.log + [Entry(0, req.supplied)])
    && Charges(a.own.index, b.own.index, req.token, req.ordinal, e.work, req.supplied)
    && match e.publication
       case None =>
         && b.arena == a.arena && b.lastArena == a.lastArena && b.terminal == a.terminal
         && b.own.epoch == a.own.epoch && b.own.children == a.own.children
       case Some(p) => Publishes(a, p, b)
  }

  /** What another operation of the invocation means for its owner: the ledger moves, an epoch starts empty or ends, nothing is stored. */
  ghost predicate Aside(a: GateView, op: Op, b: GateView) {
    && Took(a.own, op, b.own) && b.stored == a.stored && b.attached == a.attached && b.registered == a.registered && b.lastArena == a.lastArena
    && b.arena == (if !b.own.epoch then None else if a.own.epoch then a.arena else Some(Arena(0, map[])))
    && (b.terminal <==> a.terminal && (b.own.epoch ==> a.own.epoch))
    && (b.closed <==> a.closed || (a.attached && !b.own.state.Active?))
  }

  class Gate {
    const inv: Invocation
    const limits: Limits
    var stored: map<Effect, Charge>
    var attached: bool
    var registered: bool
    var closed: bool
    var arena: Option<Arena>
    var terminal: bool
    var lastArena: Option<Arena>

    function State(): Held
      reads this, inv
    {
      Held(inv.index, inv.epoch, inv.children, stored, attached, registered, arena, terminal, lastArena)
    }

    ghost function View(): GateView
      reads this, inv
    {
      GateView(inv.Now(), stored, attached, registered, closed, arena, terminal, lastArena)
    }

    ghost predicate Valid()
      reads this, inv
    {
      && inv.Valid()
      && StoredOk(inv.index, stored)
      && |stored| <= limits.maxCommits && |stored| <= |inv.index.units|
      && (!attached ==> stored == map[])
      && (arena.Some? <==> inv.epoch)
    }

    constructor (invocation: Invocation, bounds: Limits)
      requires invocation.Valid() && !invocation.epoch
      ensures inv == invocation && limits == bounds && stored == map[] && Valid()
    {
      inv, limits := invocation, bounds;
      stored, attached, registered, closed := map[], false, false, false;
      arena, terminal, lastArena := None, false, None;
    }

    /** Put back everything a publication may have written. */
    method Restore(saved: Held)
      modifies this`stored, this`attached, this`registered, this`arena, this`terminal, this`lastArena, inv`index, inv`epoch, inv`children
      ensures State() == saved
    {
      inv.index, inv.epoch, inv.children := saved.index, saved.epoch, saved.children;
      stored, attached, registered := saved.stored, saved.attached, saved.registered;
      arena, terminal, lastArena := saved.arena, saved.terminal, saved.lastArena;
    }

    /**
     The pointer swaps of one publication, interrupted after the first `fault` of them (never,
     from nine on). The owner's index is swapped last: that swap is the logical commit.
     */
    method Swap(staged: Index, e: Effect, charge: Charge, fault: nat) returns (ok: bool)
      requires e.publication.Some? ==> arena.Some? && inv.children > 0
      modifies this`stored, this`attached, this`registered, this`arena, this`terminal, this`lastArena, inv`index, inv`epoch, inv`children
      ensures ok <==> fault >= 9
      ensures !ok ==> State() == old(State())
      ensures ok ==> inv.index == staged && stored == old(stored)[e := charge] && attached && registered
      ensures ok && e.publication.None? ==>
                && arena == old(arena) && terminal == old(terminal) && lastArena == old(lastArena)
                && inv.epoch == old(inv.epoch) && inv.children == old(inv.children)
      ensures ok && e.publication.Some? ==>
                var next := NextArena(old(arena).value, e.publication.value.additions);
                if e.publication.value.terminal
                then arena == None && terminal && lastArena == Some(next) && !inv.epoch && inv.children == old(inv.children) - 1
                else arena == Some(next) && terminal == old(terminal) && lastArena == old(lastArena)
                     && inv.epoch == old(inv.epoch) && inv.children == old(inv.children)
    {
      var before := State();
      if fault == 0 { return false; }
      inv.index := staged;
      if fault == 1 { Restore(before); return false; }
      registered := true;
      if fault == 2 { Restore(before); return false; }
      attached := true;
      if fault == 3 { Restore(before); return false; }
      if e.publication.Some? {
        var next := NextArena(arena.value, e.publication.value.additions);
        arena := if e.publication.value.terminal then None else Some(next);
        if fault == 4 { Restore(before); return false; }
        if e.publication.value.terminal {
          terminal := true;
          if fault == 5 { Restore(before); return false; }
          lastArena := Some(next);
          if fault == 6 { Restore(before); return false; }
          inv.epoch := false;
          if fault == 7 { Restore(before); return false; }
          inv.children := inv.children - 1;
        }
      }
      if fault < 9 { Restore(before); return false; }
      stored := stored[e := charge];
      return true;
    }

    /** The historical look-up: it needs a genuine owner and charge, and writes nothing. */
    method Look(given: int, req: Request) returns (r: Looked)
      requires Valid()
      ensures r.Found? <==> Retries(View(), given, req)
      ensures r.Found? ==> r.charge == stored[req.effect]
      ensures r.Clear? <==> Proceeds(View(), given, req)
    {
      hide AccountsOk, StudiesHeld, Settled, StoredOk, Inspect, Genuine;
      var e := req.effect;
      BooksIndexed(inv.initial, inv.index, inv.pools, inv.log);
      InspectIff(inv.index, req.token, req.ordinal, e.work, req.supplied);
      if given < 0 { return Barred(InvalidInput); }
      if e.ownerRevision != given { return Barred(Stale); }
      var seen := Inspect(inv.index, req.token, req.ordinal, e.work);
      if seen.Abort? { return Barred(seen.code); }
      if seen.value != req.supplied { return Barred(MissingCharge); }
      if e in stored { return Found(stored[e]); }
      if !inv.state.Active? || inv.revision != given { return Barred(Stale); }
      return Clear;
    }

    /** Charge and commit together or not at all, once every gate has passed. */
    method Publish(req: Request, ghost proven: Option<Publication>, staged: Index, fault: nat) returns (ok: bool)
      requires Valid() && inv.state.Active? && req.effect !in stored && |stored| < limits.maxCommits && |stored| < |inv.index.units|
      requires PlanOk(limits, arena, req.effect, proven)
      requires PrepareConsumption(inv.index, req.token, req.ordinal, req.effect.work) == Charging(req.supplied, staged)
      modifies this`stored, this`attached, this`registered, this`arena, this`terminal, this`lastArena
      modifies inv`index, inv`epoch, inv`children, inv`log
      ensures Valid() && Forward(old(inv.index), inv.index)
      ensures ok <==> fault >= 9
      ensures if ok then Commits(old(View()), req, View()) else View() == old(View())
    {
      hide AccountsOk, PrepareConsumption, StudiesHeld, Settled, StoredOk, RequestsOk, PlanOk, NextArena, Extends, PlanFits, Charges, Forward;
      ForwardRefl(inv.index);
      PlanIff(limits, arena, req.effect, proven);
      CommitStep(inv.initial, inv.index, inv.pools, inv.log, stored, req.effect, req.token, req.ordinal);
      StudiesStay(inv.index, staged, inv.studies);
      ok := Swap(staged, req.effect, req.supplied, fault);
      if !ok { return; }
      inv.log := inv.log + [Entry(0, req.supplied)];
    }

    /**
     The final section, entered some time after the look-up, when anything may have happened:
     look up again, then pass every gate, then charge and commit together or not at all.
     */
    method Finish(given: int, req: Request, proven: Option<Publication>, current: bool, fault: nat) returns (r: GateResult)
      requires Valid() && given >= 0 && req.effect.ownerRevision == given
      modifies this`stored, this`attached, this`registered, this`arena, this`terminal, this`lastArena
      modifies inv`index, inv`epoch, inv`children, inv`log
      ensures Valid() && Forward(old(inv.index), inv.index)
      ensures r.Committed? <==> Admits(limits, old(View()), given, req, proven, current) && fault >= 9
      ensures r.Interrupted? <==> Admits(limits, old(View()), given, req, proven, current) && fault < 9
      ensures r.Existing? <==> req.effect in old(stored)
      ensures r.Existing? ==> r.charge == old(stored)[req.effect]
      ensures r.Committed? ==> Commits(old(View()), req, View()) && r.charge == req.supplied
      ensures req.effect.publication.Some? && old(arena).Some? && Contradicts(old(arena).value.entries, req.effect.publication.value.additions) ==>
                !r.Committed? && !r.Interrupted?
      ensures !r.Committed? ==> View() == old(View())
    {
      hide AccountsOk, PrepareConsumption, StudiesHeld, Settled, StoredOk, PlanOk, NextArena, Extends, PlanFits, Charges, Forward, RequestsOk, Commits;
      var e := req.effect;
      ForwardRefl(inv.index);
      PlanIff(limits, arena, e, proven);
      if e.publication.Some? && arena.Some? && !Agrees(arena.value.entries, e.publication.value.additions) {
        ConflictUnfit(limits, arena, e, proven);
      }
      if e in stored { return Existing(stored[e]); }
      if !inv.state.Active? || inv.revision != given { return Refusal(Stale); }
      if !current { return Refusal(EnvironmentStale); }
      if e.publication.Some? && proven != e.publication { return Refusal(PayloadMismatch); }
      if !PlanOk(limits, arena, e, proven) { return Refusal(Stale); }
      if closed { return Refusal(Stale); }
      if |stored| >= Min2(limits.maxCommits, |inv.index.units|) { return Refusal(CapacityAbort); }
      var s := PrepareConsumption(inv.index, req.token, req.ordinal, e.work);
      if s.Denied? { return Refusal(s.code); }
      if s.charge != req.supplied { return Refusal(MissingCharge); }
      var ok := Publish(req, proven, s.index, fault);
      if !ok { return Interrupted; }
      return Committed(s.charge);
    }

    /** Both sections with nothing in between. */
    method Authorize(given: int, req: Request, proven: Option<Publication>, current: bool, fault: nat) returns (r: GateResult)
      requires Valid()
      modifies this`stored, this`attached, this`registered, this`arena, this`terminal, this`lastArena
      modifies inv`index, inv`epoch, inv`children, inv`log
      ensures Valid() && Forward(old(inv.index), inv.index)
      ensures r.Committed? <==> Admits(limits, old(View()), given, req, proven, current) && fault >= 9
      ensures r.Interrupted? <==> Admits(limits, old(View()), given, req, proven, current) && fault < 9
      ensures r.Existing? <==> Retries(old(View()), given, req)
      ensures r.Existing? ==> r.charge == old(stored)[req.effect]
      ensures r.Committed? ==> Commits(old(View()), req, View()) && r.charge == req.supplied
      ensures req.effect.publication.Some? && old(arena).Some? && Contradicts(old(arena).value.entries, req.effect.publication.value.additions) ==>
                !r.Committed? && !r.Interrupted?
      ensures !r.Committed? ==> View() == old(View())
    {
      hide AccountsOk, PrepareConsumption, StudiesHeld, Settled, StoredOk, PlanOk, NextArena, Inspect, PlanFits, Extends, Contradicts;
      if PrepareConsumption(inv.index, req.token, req.ordinal, req.effect.work).Charging? {
        InspectedFirst(inv.index, req.token, req.ordinal, req.effect.work) by { BooksIndexed(inv.initial, inv.index, inv.pools, inv.log); }
      }
      InspectIff(inv.index, req.token, req.ordinal, req.effect.work, req.supplied) by { BooksIndexed(inv.initial, inv.index, inv.pools, inv.log); }
      ForwardRefl(inv.index);
      var seen := Look(given, req);
      match seen {
        case Found(charge) => return Existing(charge);
        case Barred(code) => return Refusal(code);
        case Clear => r := Finish(given, req, proven, current, fault);
      }
    }

    /** A ledger or lifecycle operation of the invocation, and what it means for the owner. */
    method Outside(op: Op)
      requires Valid()
      modifies this, inv
      ensures Valid() && Forward(old(inv.index), inv.index)
      ensures Aside(old(View()), op, View())
    {
      hide AccountsOk, StudiesHeld, Settled, Forward, StoredOk, RequestsOk, Took;
      var open := inv.epoch;
      ghost var ix := inv.index;
      Perform(inv, op);
      StoredStays(ix, inv.index, stored);
      Attend(open);
    }

    /** A new epoch starts with an empty arena, an ended one has none, and a claimed owner closes with its invocation. */
    method Attend(open: bool)
      modifies this`arena, this`terminal, this`closed
      ensures arena == if !inv.epoch then None else if open then old(arena) else Some(Arena(0, map[]))
      ensures terminal <==> old(terminal) && (inv.epoch ==> open)
      ensures closed <==> old(closed) || (attached && !inv.state.Active?)
    {
      if inv.epoch && !open { arena, terminal := Some(Arena(0, map[])), false; }
      if !inv.epoch { arena := None; }
      if attached && !inv.state.Active? { closed := true; }
    }
  }

  lemma BooksIndexed(initial: nat, ix: Index, pools: seq<Pool>, log: seq<Entry>)
    requires AccountsOk(initial, ix, pools, log)
    ensures IndexOk(ix)
  {
  }

  lemma UnitsKept(ix: Index, iy: Index)
    requires Forward(ix, iy)
    ensures |ix.units| == |iy.units|
  {
  }

  lemma CommitStep(initial: nat, ix: Index, pools: seq<Pool>, log: seq<Entry>, stored: map<Effect, Charge>, e: Effect, token: nat, unit: int)
    requires AccountsOk(initial, ix, pools, log) && StoredOk(ix, stored) && e !in stored
    requires PrepareConsumption(ix, token, unit, e.work).Charging?
    ensures var s := PrepareConsumption(ix, token, unit, e.work);
            && AccountsOk(initial, s.index, pools, log + [Entry(0, s.charge)]) && Forward(ix, s.index)
            && StoredOk(s.index, stored[e := s.charge]) && |s.index.units| == |ix.units|
            && Charges(ix, s.index, token, unit, e.work, s.charge)
  {
    hide IndexOk, PrepareConsumption, PoolsOk, Logged, StoredOk, Charges;
    ConsumptionIff(ix, token, unit, e.work);
    UnitsKept(ix, PrepareConsumption(ix, token, unit, e.work).index) by { ChargeStep(initial, ix, pools, log, token, unit, e.work); }
    ChargeStep(initial, ix, pools, log, token, unit, e.work);
    StoredGrows(ix, stored, e, token, unit);
  }

  // ----- every run ----------------------------------------------------------------------

  /** The two sections of an attempt are separate steps: anything may come between them. */
  datatype GateOp =
    | Ask(given: int, req: Request)
    | Complete(attempt: nat, proven: Option<Publication>, current: bool, fault: nat)
    | Other(op: Op)

  /** An attempt the first section let through. */
  datatype Attempt = Attempt(given: int, req: Request)

  ghost predicate Keeps(before: map<Effect, Charge>, after: map<Effect, Charge>) {
    forall e | e in before :: e in after && after[e] == before[e]
  }

  ghost predicate Recorded(committed: seq<Effect>, stored: map<Effect, Charge>) {
    Distinct(committed) && (forall e :: e in committed <==> e in stored) && |stored| == |committed|
  }

  lemma RecordedNext(committed: seq<Effect>, stored: map<Effect, Charge>, e: Effect, charge: Charge)
    requires Recorded(committed, stored) && e !in stored
    ensures Recorded(committed + [e], stored[e := charge]) && Keeps(stored, stored[e := charge])
  {
    forall d ensures d in committed + [e] <==> d in stored[e := charge] {}
  }

  /** Within an epoch the published arena only gains entries and versions. */
  ghost predicate Later(a: Arena, b: Arena) {
    a.version <= b.version && forall k | k in a.entries :: k in b.entries && b.entries[k] == a.entries[k]
  }

  ghost predicate ArenaStep(a: Option<Arena>, b: Option<Arena>) {
    && (a.Some? && b.Some? ==> Later(a.value, b.value))
    && (a.None? && b.Some? ==> b.value == Arena(0, map[]))
  }

  lemma {:induction false} EpochGrows(views: seq<GateView>, i: nat, j: nat)
    requires i <= j < |views| && forall k | 0 <= k < |views| - 1 :: ArenaStep(views[k].arena, views[k + 1].arena)
    requires forall k | i <= k <= j :: views[k].arena.Some?
    ensures Later(views[i].arena.value, views[j].arena.value)
    decreases j
  {
    if i < j {
      EpochGrows(views, i, j - 1);
      assert ArenaStep(views[j - 1].arena, views[j - 1 + 1].arena);
    }
  }

  predicate Given(attempts: seq<Attempt>) {
    forall j | 0 <= j < |attempts| :: attempts[j].given >= 0 && attempts[j].req.effect.ownerRevision == attempts[j].given
  }

  /** One step of a run, all of it: what it lets through, commits or leaves alone. */
  ghost predicate Went(limits: Limits, a: GateView, attempts: seq<Attempt>, op: GateOp, b: GateView, open: seq<Attempt>) {
    match op
    case Ask(given, req) => b == a && open == if Proceeds(a, given, req) then attempts + [Attempt(given, req)] else attempts
    case Complete(k, proven, current, fault) =>
      && open == attempts
      && if k < |attempts| && fault >= 9 && Admits(limits, a, attempts[k].given, attempts[k].req, proven, current)
         then Commits(a, attempts[k].req, b) else b == a
    case Other(o) => open == attempts && Aside(a, o, b)
  }

  /** One step, and what it stored. */
  method GateStep(gate: Gate, attempts: seq<Attempt>, op: GateOp) returns (open: seq<Attempt>, ghost done: Option<Effect>)
    requires gate.Valid() && Given(attempts)
    modifies gate, gate.inv
    ensures gate.Valid() && Forward(old(gate.inv.index), gate.inv.index) && Given(open)
    ensures Went(gate.limits, old(gate.View()), attempts, op, gate.View(), open)
    ensures match done
            case None => gate.stored == old(gate.stored)
            case Some(e) => e !in old(gate.stored) && e in gate.stored && gate.stored == old(gate.stored)[e := gate.stored[e]]
    ensures ArenaStep(old(gate.arena), gate.arena)
  {
    hide Forward, StoredOk, AccountsOk, StudiesHeld, Settled, RequestsOk, Took, Charges, PlanFits, Genuine;
    ForwardRefl(gate.inv.index);
    open, done := attempts, None;
    match op {
      case Ask(given, req) =>
        var seen := gate.Look(given, req);
        if seen.Clear? { open := attempts + [Attempt(given, req)]; }
      case Complete(k, proven, current, fault) =>
        if k < |attempts| {
          var r := gate.Finish(attempts[k].given, attempts[k].req, proven, current, fault);
          if r.Committed? { done := Some(attempts[k].req.effect); }
        }
      case Other(op) =>
        gate.Outside(op);
    }
  }

  /** A whole run of the gate. */
  ghost predicate GateTrail(limits: Limits, ops: seq<GateOp>, views: seq<GateView>, attempts: seq<seq<Attempt>>) {
    && |views| == |attempts| == |ops| + 1 && attempts[0] == []
    && forall i | 0 <= i < |ops| ::
         && Went(limits, views[i], attempts[i], ops[i], views[i + 1], attempts[i + 1])
         && Keeps(views[i].stored, views[i + 1].stored) && ArenaStep(views[i].arena, views[i + 1].arena)
  }

  /**
   Any interleaving of look-ups, final sections, retries and faults with the other operations of
   the invocation, each carried out as it should: every stored identity was committed exactly
   once, no step drops or rewrites what was stored, and throughout an epoch the published arena
   only grows.
   */
  method RunGate(gate: Gate, ops: seq<GateOp>)
      returns (ghost committed: seq<Effect>, ghost views: seq<GateView>, ghost attempts: seq<seq<Attempt>>)
    requires gate.Valid() && gate.stored == map[]
    modifies gate, gate.inv
    ensures gate.Valid() && Forward(old(gate.inv.index), gate.inv.index)
    ensures GateTrail(gate.limits, ops, views, attempts) && views[0] == old(gate.View()) && views[|ops|] == gate.View()
    ensures Distinct(committed) && forall e :: e in committed <==> e in gate.stored
    ensures |gate.stored| == |committed|
    ensures forall i, j | 0 <= i <= j <= |ops| && (forall k | i <= k <= j :: views[k].arena.Some?) :: Later(views[i].arena.value, views[j].arena.value)
  {
    hide Forward, StoredOk, AccountsOk, StudiesHeld, Settled, RequestsOk, Keeps, Recorded, ArenaStep, Later, Went;
    committed, views, attempts := [], [gate.View()], [[]];
    NothingRecorded();
    var open: seq<Attempt> := [];
    ForwardRefl(gate.inv.index);
    for i := 0 to |ops|
      invariant gate.Valid() && Forward(old(gate.inv.index), gate.inv.index) && Given(open)
      invariant Recorded(committed, gate.stored)
      invariant GateTrail(gate.limits, ops[..i], views, attempts)
      invariant views[0] == old(gate.View()) && views[i] == gate.View() && attempts[i] == open
    {
      ghost var before, stored := gate.inv.index, gate.stored;
      ghost var done: Option<Effect>;
      open, done := GateStep(gate, open, ops[i]);
      ForwardTransitive(old(gate.inv.index), before, gate.inv.index);
      KeptAll(stored);
      if done.Some? {
        RecordedNext(committed, stored, done.value, gate.stored[done.value]);
        committed := committed + [done.value];
      }
      views, attempts := views + [gate.View()], attempts + [open];
    }
    assert ops[..|ops|] == ops;
    forall i, j | 0 <= i <= j <= |ops| && (forall k | i <= k <= j :: views[k].arena.Some?)
      ensures Later(views[i].arena.value, views[j].arena.value)
    {
      EpochGrows(views, i, j);
    }
    RecordedSays(committed, gate.stored);
  }

  lemma NothingRecorded()
    ensures Recorded([], map[])
  {
  }

  lemma KeptAll(stored: map<Effect, Charge>)
    ensures Keeps(stored, stored)
  {
  }

  lemma RecordedSays(committed: seq<Effect>, stored: map<Effect, Charge>)
    requires Recorded(committed, stored)
    ensures Distinct(committed) && (forall e :: e in committed <==> e in stored) && |stored| == |committed|
  {
  }
}
