/** Ranked barriers over any number of threads. */
module Locks {
  // Ranked barriers over any number of threads: the thread-local stacks, the re-entrant mutexes
  // beneath them, and the cleanups that garbage collection queues or runs.
  //
  // A thread is its stack of recorded barriers, its queue of deferred cleanups and its open
  // library frames. The frames make the windows visible in which a mutex is taken but not yet
  // recorded, or released but still recorded.

  import opened Options

  datatype Frame =
    | Acquiring(lock: int, saved: seq<int>, granted: bool)
    | Releasing(lock: int)
    | Draining
    | Cleanup(task: int)

  datatype Thread = Thread(stack: seq<int>, frames: seq<Frame>, queue: seq<int>, draining: bool)

  datatype Mutex = Free | Taken(by_: int, times: nat)

  datatype State = State(threads: map<int, Thread>, locks: map<int, Mutex>)

  datatype Act =
    | StartAcquire(lock: int)
    | Grant
    | GiveUp
    | Record
    | RecordFails
    | StartRelease(lock: int)
    | Pop
    | DrainNext
    | Collect(task: int)
    | EndCleanup

  type Ranks = int -> nat

  // ----- steps --------------------------------------------------------------------------

  function Top(th: Thread): Option<Frame> {
    if th.frames == [] then None else Some(th.frames[|th.frames| - 1])
  }

  function Under(th: Thread): seq<Frame>
    requires th.frames != []
  {
    th.frames[..|th.frames| - 1]
  }

  /** Outside any library frame, or inside a running cleanup. */
  predicate Running(th: Thread) { Top(th).None? || Top(th).value.Cleanup? }

  /** The order check of `acquire`. */
  predicate Legal(rank: Ranks, stack: seq<int>, l: int) {
    stack == [] || rank(stack[|stack| - 1]) < rank(l) || stack[|stack| - 1] == l
  }

  function TakeMutex(m: Mutex, t: int): Mutex { if m.Free? then Taken(t, 1) else Taken(m.by_, m.times + 1) }

  function DropMutex(m: Mutex): Mutex { if m.Free? || m.times <= 1 then Free else Taken(m.by_, m.times - 1) }

  predicate MayTake(m: Mutex, t: int) { m.Free? || m.by_ == t }

  /** The window in which a mutex is taken and not yet on the stack. */
  predicate InWindow(th: Thread) { Top(th).Some? && Top(th).value.Acquiring? && Top(th).value.granted }

  /**
   One step of a thread, or none if it is not at that point. A rejected acquire or release
   leaves everything as it was. Collection is possible everywhere, in the window only if
   `window`.
   */
  function Act1(rank: Ranks, window: bool, th: Thread, locks: map<int, Mutex>, t: int, act: Act): Option<(Thread, map<int, Mutex>)> {
    match act
    case StartAcquire(l) =>
      if !Running(th) || l !in locks then None
      else if !Legal(rank, th.stack, l) then Some((th, locks))
      else Some((th.(frames := th.frames + [Acquiring(l, th.stack + [l], false)]), locks))
    case Grant =>
      if !(Top(th).Some? && Top(th).value.Acquiring? && !Top(th).value.granted) then None else
        var l := Top(th).value.lock;
        if l !in locks || !MayTake(locks[l], t) then None
        else Some((th.(frames := Under(th) + [Top(th).value.(granted := true)]), locks[l := TakeMutex(locks[l], t)]))
    case GiveUp =>
      if !(Top(th).Some? && Top(th).value.Acquiring? && !Top(th).value.granted) then None
      else Some((th.(frames := Under(th)), locks))
    case Record =>
      if !InWindow(th) then None
      else Some((th.(stack := Top(th).value.saved, frames := Under(th)), locks))
    case RecordFails =>
      if !InWindow(th) || Top(th).value.lock !in locks then None else
        var l := Top(th).value.lock;
        Some((th.(frames := Under(th)), locks[l := DropMutex(locks[l])]))
    case StartRelease(l) =>
      if !Running(th) || l !in locks then None
      else if th.stack == [] || th.stack[|th.stack| - 1] != l then Some((th, locks))
      else Some((th.(frames := th.frames + [Releasing(l)]), locks[l := DropMutex(locks[l])]))
    case Pop =>
      if !(Top(th).Some? && Top(th).value.Releasing?) || th.stack == [] then None else
        var rest := th.stack[..|th.stack| - 1];
        if rest == [] && !th.draining
        then Some((th.(stack := rest, frames := Under(th) + [Draining], draining := true), locks))
        else Some((th.(stack := rest, frames := Under(th)), locks))
    case DrainNext =>
      if !(Top(th).Some? && Top(th).value.Draining?) then None
      else if th.queue == [] then Some((th.(frames := Under(th), draining := false), locks))
      else Some((th.(frames := th.frames + [Cleanup(th.queue[|th.queue| - 1])], queue := th.queue[..|th.queue| - 1]), locks))
    case Collect(task) =>
      if InWindow(th) && !window then None
      else if th.stack != [] || th.draining then Some((th.(queue := th.queue + [task]), locks))
      else Some((th.(frames := th.frames + [Cleanup(task)]), locks))
    case EndCleanup =>
      if !(Top(th).Some? && Top(th).value.Cleanup?) || th.stack != [] then None
      else Some((th.(frames := Under(th)), locks))
  }

  function Apply(rank: Ranks, window: bool, s: State, t: int, act: Act): Option<State> {
    if t !in s.threads then None else
      match Act1(rank, window, s.threads[t], s.locks, t, act)
      case None => None
      case Some(p) => Some(State(s.threads[t := p.0], p.1))
  }

  // ----- invariants ---------------------------------------------------------------------

  /** Ranks never go down, and stay level only by re-entering the same barrier. */
  ghost predicate Ordered(rank: Ranks, stack: seq<int>) {
    forall i, j | 0 <= i < j < |stack| :: rank(stack[i]) < rank(stack[j]) || stack[i] == stack[j]
  }

  /** A frame that is not on top waits for what was started above it, with nothing recorded then. */
  predicate Buried(f: Frame) {
    match f
    case Acquiring(l, saved, granted) => !granted && saved == [l]
    case Releasing(_) => false
    case Draining => true
    case Cleanup(_) => true
  }

  ghost predicate TopOk(rank: Ranks, th: Thread) {
    Top(th).Some? ==>
      match Top(th).value
      case Acquiring(l, saved, _) => saved == th.stack + [l] && Legal(rank, th.stack, l)
      case Releasing(l) => th.stack != [] && th.stack[|th.stack| - 1] == l
      case Draining => th.stack == []
      case Cleanup(_) => true
  }

  ghost predicate ThreadOk(rank: Ranks, th: Thread) {
    && Ordered(rank, th.stack) && TopOk(rank, th)
    && (forall i | 0 <= i < |th.frames| - 1 :: Buried(th.frames[i]) && (th.frames[i].Cleanup? || th.frames[i + 1].Cleanup?))
    && multiset(th.frames)[Draining] == (if th.draining then 1 else 0)
  }

  /** How many times a thread has taken a mutex. */
  function Holds(th: Thread, l: int): int {
    (multiset(th.stack)[l] as int)
    + (if InWindow(th) && Top(th).value.lock == l then 1 else 0)
    - (if Top(th).Some? && Top(th).value.Releasing? && Top(th).value.lock == l then 1 else 0)
  }

  function TimesTaken(m: Mutex, t: int): nat { if m.Taken? && m.by_ == t then m.times else 0 }

  ghost predicate LocksOk(s: State) {
    && (forall l | l in s.locks && s.locks[l].Taken? :: s.locks[l].times >= 1 && s.locks[l].by_ in s.threads)
    && (forall t, l | t in s.threads && l in s.locks :: Holds(s.threads[t], l) == TimesTaken(s.locks[l], t))
    && (forall t | t in s.threads :: Known(s.threads[t], s.locks.Keys))
  }

  /** A thread refers to existing barriers only. */
  ghost predicate Known(th: Thread, keys: set<int>) {
    && (forall l | l in th.stack :: l in keys)
    && forall i | 0 <= i < |th.frames| && th.frames[i].Acquiring? :: th.frames[i].lock in keys
  }

  ghost predicate Inv(rank: Ranks, s: State) {
    && (forall t | t in s.threads :: ThreadOk(rank, s.threads[t]))
    && LocksOk(s)
  }

  const Idle := Thread([], [], [], false)

  ghost predicate Init(s: State) {
    && (forall t | t in s.threads :: s.threads[t] == Idle)
    && forall l | l in s.locks :: s.locks[l].Free?
  }

  lemma InitOk(rank: Ranks, s: State)
    requires Init(s)
    ensures Inv(rank, s)
  {
  }

  // ----- preservation -------------------------------------------------------------------

  lemma LegalOrdered(rank: Ranks, stack: seq<int>, l: int)
    requires Ordered(rank, stack) && Legal(rank, stack, l)
    ensures Ordered(rank, stack + [l])
  {
    var next := stack + [l];
    forall i, j | 0 <= i < j < |next| ensures rank(next[i]) < rank(next[j]) || next[i] == next[j] {
      if j == |stack| && i < |stack| - 1 {
        assert rank(stack[i]) < rank(stack[|stack| - 1]) || stack[i] == stack[|stack| - 1];
      }
    }
  }

  lemma SplitTop(frames: seq<Frame>)
    requires frames != []
    ensures var top := frames[|frames| - 1];
            multiset(frames) == multiset(frames[..|frames| - 1]) + multiset{top}
  {
    assert frames == frames[..|frames| - 1] + [frames[|frames| - 1]];
  }

  /** Taking the top frame off: what comes to light is a running cleanup, or the end of one. */
  lemma TakeOff(rank: Ranks, th: Thread, next: Thread)
    requires ThreadOk(rank, th) && th.frames != [] && next.frames == Under(th) && Ordered(rank, next.stack)
    requires Top(th).value.Cleanup? ==> next.stack == []
    requires next.draining == (th.draining && !Top(th).value.Draining?)
    ensures ThreadOk(rank, next)
  {
    SplitTop(th.frames);
    var n := |th.frames|;
    if n >= 2 {
      assert Buried(th.frames[n - 2]) && (th.frames[n - 2].Cleanup? || th.frames[n - 1].Cleanup?);
    }
  }

  /** Putting a frame on: over a running cleanup, or a cleanup over anything that may wait. */
  lemma PutOn(rank: Ranks, th: Thread, next: Thread, f: Frame)
    requires ThreadOk(rank, th) && next.frames == th.frames + [f] && next.stack == th.stack && next.draining == th.draining
    requires !f.Draining? && TopOk(rank, next)
    requires Running(th) || (f.Cleanup? && Buried(Top(th).value))
    ensures ThreadOk(rank, next)
  {
    var n := |th.frames|;
    assert multiset(next.frames) == multiset(th.frames) + multiset{f};
    forall i | 0 <= i < n
      ensures Buried(next.frames[i]) && (next.frames[i].Cleanup? || next.frames[i + 1].Cleanup?)
    {
      assert next.frames[i] == th.frames[i];
      if i < n - 1 {
        assert Buried(th.frames[i]) && next.frames[i + 1] == th.frames[i + 1];
      }
    }
  }

  predicate AcquireSide(act: Act) { act.StartAcquire? || act.Grant? || act.GiveUp? || act.Record? || act.RecordFails? }

  lemma AcquireKeeps(rank: Ranks, th: Thread, locks: map<int, Mutex>, t: int, act: Act)
    requires AcquireSide(act) && ThreadOk(rank, th) && Act1(rank, false, th, locks, t, act).Some?
    ensures ThreadOk(rank, Act1(rank, false, th, locks, t, act).value.0)
  {
    var next := Act1(rank, false, th, locks, t, act).value.0;
    assert Ordered(rank, th.stack) && TopOk(rank, th);
    hide ThreadOk, Ordered;
    match act
    case StartAcquire(l) =>
      if Legal(rank, th.stack, l) { PutOn(rank, th, next, Acquiring(l, th.stack + [l], false)); }
    case Grant => SwapTop(rank, th, next);
    case Record =>
      LegalOrdered(rank, th.stack, Top(th).value.lock);
      TakeOff(rank, th, next);
    case _ => TakeOff(rank, th, next);
  }

  lemma DropKeeps(rank: Ranks, th: Thread, l: int)
    requires ThreadOk(rank, th) && Running(th) && th.stack != [] && th.stack[|th.stack| - 1] == l
    ensures ThreadOk(rank, th.(frames := th.frames + [Releasing(l)]))
  {
    hide ThreadOk, Ordered;
    PutOn(rank, th, th.(frames := th.frames + [Releasing(l)]), Releasing(l));
  }

  lemma PopKeeps(rank: Ranks, th: Thread, next: Thread)
    requires ThreadOk(rank, th) && Top(th).Some? && Top(th).value.Releasing? && th.stack != []
    requires next.stack == th.stack[..|th.stack| - 1]
    requires if next.stack == [] && !th.draining then next.draining && next.frames == Under(th) + [Draining]
             else next.draining == th.draining && next.frames == Under(th)
    ensures ThreadOk(rank, next)
  {
    assert Ordered(rank, th.stack) && TopOk(rank, th);
    hide ThreadOk, Ordered;
    OrderedPrefix(rank, th.stack);
    if next.stack == [] && !th.draining { SwapTop(rank, th, next); } else { TakeOff(rank, th, next); }
  }

  lemma ReleaseKeeps(rank: Ranks, th: Thread, locks: map<int, Mutex>, t: int, act: Act)
    requires (act.StartRelease? || act.Pop?) && ThreadOk(rank, th) && Act1(rank, false, th, locks, t, act).Some?
    ensures ThreadOk(rank, Act1(rank, false, th, locks, t, act).value.0)
  {
    hide ThreadOk;
    var next := Act1(rank, false, th, locks, t, act).value.0;
    if act.Pop? {
      PopKeeps(rank, th, next);
    } else if next != th {
      DropKeeps(rank, th, act.lock);
    }
  }

  lemma CleanupKeeps(rank: Ranks, th: Thread, locks: map<int, Mutex>, t: int, act: Act)
    requires (act.DrainNext? || act.Collect? || act.EndCleanup?) && ThreadOk(rank, th) && Act1(rank, false, th, locks, t, act).Some?
    ensures ThreadOk(rank, Act1(rank, false, th, locks, t, act).value.0)
  {
    var next := Act1(rank, false, th, locks, t, act).value.0;
    assert Ordered(rank, th.stack) && TopOk(rank, th);
    DrainFlag(rank, th);
    hide ThreadOk, Ordered;
    match act
    case DrainNext =>
      if th.queue == [] { TakeOff(rank, th, next); } else { PutOn(rank, th, next, next.frames[|th.frames|]); }
    case Collect(task) =>
      if th.stack != [] || th.draining { Queued(rank, th, task); } else { PutOn(rank, th, next, Cleanup(task)); }
    case EndCleanup => TakeOff(rank, th, next);
  }

  lemma Queued(rank: Ranks, th: Thread, task: int)
    requires ThreadOk(rank, th)
    ensures ThreadOk(rank, th.(queue := th.queue + [task]))
  {
  }

  /** A draining frame on top means the flag is set; without the flag there is none. */
  lemma DrainFlag(rank: Ranks, th: Thread)
    requires ThreadOk(rank, th)
    ensures Top(th).Some? && Top(th).value.Draining? ==> th.draining
  {
    if th.frames != [] { SplitTop(th.frames); }
  }

  lemma ThreadKeeps(rank: Ranks, th: Thread, locks: map<int, Mutex>, t: int, act: Act)
    requires ThreadOk(rank, th) && Act1(rank, false, th, locks, t, act).Some?
    ensures ThreadOk(rank, Act1(rank, false, th, locks, t, act).value.0)
  {
    hide ThreadOk, Act1;
    if AcquireSide(act) {
      AcquireKeeps(rank, th, locks, t, act);
    } else if act.StartRelease? || act.Pop? {
      ReleaseKeeps(rank, th, locks, t, act);
    } else {
      CleanupKeeps(rank, th, locks, t, act);
    }
  }

  lemma OrderedPrefix(rank: Ranks, stack: seq<int>)
    requires Ordered(rank, stack) && stack != []
    ensures Ordered(rank, stack[..|stack| - 1])
  {
  }

  /** Replacing the top frame by one that is not a cleanup. */
  lemma SwapTop(rank: Ranks, th: Thread, next: Thread)
    requires ThreadOk(rank, th) && th.frames != [] && next.frames != [] && Under(next) == Under(th)
    requires !Top(th).value.Cleanup? && !Top(th).value.Draining? && Ordered(rank, next.stack) && TopOk(rank, next)
    requires next.draining == (th.draining || Top(next).value.Draining?) && (Top(next).value.Draining? ==> !th.draining)
    ensures ThreadOk(rank, next)
  {
    SplitTop(th.frames);
    SplitTop(next.frames);
    var n := |th.frames|;
    forall i | 0 <= i < n - 1 ensures next.frames[i] == th.frames[i] {
      assert Under(next)[i] == Under(th)[i];
    }
  }

  // ----- mutual exclusion ---------------------------------------------------------------

  /** What a frame on top adds to, or takes from, what the stack records. */
  function Extra(th: Thread, l: int): int { Holds(th, l) - (multiset(th.stack)[l] as int) }

  /** Whatever the removal of the top frame brings to light is neither a taken nor a dropped mutex. */
  lemma Revealed(rank: Ranks, th: Thread, next: Thread, l: int)
    requires ThreadOk(rank, th) && th.frames != [] && next.frames == Under(th)
    ensures Extra(next, l) == 0
  {
    var n := |th.frames|;
    if n >= 2 { assert Buried(th.frames[n - 2]); }
  }

  /** A step changes what its thread holds exactly as it changes the mutex, and nothing for the others. */
  ghost predicate Balanced(th: Thread, next: Thread, locks: map<int, Mutex>, after: map<int, Mutex>, t: int) {
    && after.Keys == locks.Keys
    && (forall l | l in locks :: Holds(next, l) - Holds(th, l) == TimesTaken(after[l], t) - TimesTaken(locks[l], t))
    && (forall l, o | l in locks && o != t :: TimesTaken(after[l], o) == TimesTaken(locks[l], o))
    && (forall l | l in locks && after[l].Taken? :: after[l].times >= 1 && (after[l].by_ == t || after[l] == locks[l]))
    && Known(next, locks.Keys)
  }

  lemma StartBalanced(rank: Ranks, th: Thread, locks: map<int, Mutex>, t: int, act: Act)
    requires act.StartAcquire? || act.Grant?
    requires ThreadOk(rank, th) && Act1(rank, false, th, locks, t, act).Some? && Known(th, locks.Keys)
    requires forall l | l in locks && locks[l].Taken? :: locks[l].times >= 1
    requires forall l | l in locks :: Holds(th, l) == TimesTaken(locks[l], t)
    ensures var p := Act1(rank, false, th, locks, t, act).value; Balanced(th, p.0, locks, p.1, t)
  {
    hide ThreadOk;
    var p := Act1(rank, false, th, locks, t, act).value;
    forall l | l in locks
      ensures Holds(p.0, l) - Holds(th, l) == TimesTaken(p.1[l], t) - TimesTaken(locks[l], t)
    {}
  }

  /** Recording moves one hold from the frame to the stack. */
  lemma RecordHolds(th: Thread, next: Thread, l: int)
    requires InWindow(th) && next.stack == th.stack + [Top(th).value.lock] && Extra(next, l) == 0
    ensures Holds(next, l) == Holds(th, l)
  {
    assert multiset(next.stack) == multiset(th.stack) + multiset{Top(th).value.lock};
  }

  /** Popping drops from the stack the hold the release already gave up. */
  lemma PopHolds(th: Thread, next: Thread, l: int)
    requires Top(th).Some? && Top(th).value.Releasing? && th.stack != [] && th.stack[|th.stack| - 1] == Top(th).value.lock
    requires next.stack == th.stack[..|th.stack| - 1] && Extra(next, l) == 0
    ensures Holds(next, l) == Holds(th, l)
  {
    assert th.stack == next.stack + [Top(th).value.lock];
    assert multiset(th.stack) == multiset(next.stack) + multiset{Top(th).value.lock};
  }

  lemma KnownAfter(th: Thread, next: Thread, keys: set<int>)
    requires Known(th, keys) && th.frames != [] && (forall l | l in next.stack :: l in th.stack || l in keys)
    requires next.frames == Under(th) || (next.frames != [] && Under(next) == Under(th) && Top(next).value.Draining?)
    ensures Known(next, keys)
  {
    forall i | 0 <= i < |next.frames| && next.frames[i].Acquiring? ensures next.frames[i].lock in keys {
      if next.frames != Under(th) {
        assert i < |next.frames| - 1;
        assert Under(next)[i] == Under(th)[i];
      }
      assert next.frames[i] == th.frames[i];
    }
  }

  lemma RecordBalanced(rank: Ranks, th: Thread, locks: map<int, Mutex>, t: int, act: Act)
    requires act.Record?
    requires ThreadOk(rank, th) && Act1(rank, false, th, locks, t, act).Some? && Known(th, locks.Keys)
    requires forall l | l in locks && locks[l].Taken? :: locks[l].times >= 1
    requires forall l | l in locks :: Holds(th, l) == TimesTaken(locks[l], t)
    ensures var p := Act1(rank, false, th, locks, t, act).value; Balanced(th, p.0, locks, p.1, t)
  {
    var p := Act1(rank, false, th, locks, t, act).value;
    assert TopOk(rank, th);
    assert Top(th).value.lock in locks;
    KnownAfter(th, p.0, locks.Keys);
    forall l | l in locks ensures Holds(p.0, l) == Holds(th, l) {
      Revealed(rank, th, p.0, l);
      RecordHolds(th, p.0, l);
    }
  }

  /** Giving up a wait: the frame that goes had not taken anything. */
  lemma GiveUpBalanced(rank: Ranks, th: Thread, locks: map<int, Mutex>, t: int, act: Act)
    requires act.GiveUp?
    requires ThreadOk(rank, th) && Act1(rank, false, th, locks, t, act).Some? && Known(th, locks.Keys)
    requires forall l | l in locks && locks[l].Taken? :: locks[l].times >= 1
    ensures var p := Act1(rank, false, th, locks, t, act).value; Balanced(th, p.0, locks, p.1, t)
  {
    hide ThreadOk, Known;
    var next := Act1(rank, false, th, locks, t, act).value.0;
    KnownAfter(th, next, locks.Keys);
    forall l | l in locks ensures Holds(next, l) == Holds(th, l) {
      Revealed(rank, th, next, l);
    }
  }

  /** A failed recording gives the mutex back. */
  lemma FailBalanced(rank: Ranks, th: Thread, locks: map<int, Mutex>, t: int, act: Act)
    requires act.RecordFails?
    requires ThreadOk(rank, th) && Act1(rank, false, th, locks, t, act).Some? && Known(th, locks.Keys)
    requires forall l | l in locks && locks[l].Taken? :: locks[l].times >= 1
    requires forall l | l in locks :: Holds(th, l) == TimesTaken(locks[l], t)
    ensures var p := Act1(rank, false, th, locks, t, act).value; Balanced(th, p.0, locks, p.1, t)
  {
    hide ThreadOk, Known;
    var next, l0 := Act1(rank, false, th, locks, t, act).value.0, Top(th).value.lock;
    KnownAfter(th, next, locks.Keys);
    forall l | l in locks ensures Holds(next, l) == Holds(th, l) - (if l == l0 then 1 else 0) {
      Revealed(rank, th, next, l);
    }
    assert TimesTaken(locks[l0], t) >= 1;
    DropTimes(locks[l0], t);
  }

  lemma DropTimes(m: Mutex, t: int)
    requires TimesTaken(m, t) >= 1
    ensures TimesTaken(DropMutex(m), t) == TimesTaken(m, t) - 1
    ensures forall o | o != t :: TimesTaken(DropMutex(m), o) == TimesTaken(m, o)
  {
  }

  lemma DropBalanced(rank: Ranks, th: Thread, locks: map<int, Mutex>, t: int, act: Act)
    requires act.StartRelease?
    requires ThreadOk(rank, th) && Act1(rank, false, th, locks, t, act).Some? && Known(th, locks.Keys)
    requires forall l | l in locks && locks[l].Taken? :: locks[l].times >= 1
    requires forall l | l in locks :: Holds(th, l) == TimesTaken(locks[l], t)
    ensures var p := Act1(rank, false, th, locks, t, act).value; Balanced(th, p.0, locks, p.1, t)
  {
    hide ThreadOk;
    var p := Act1(rank, false, th, locks, t, act).value;
    if p.0 != th {
      assert th.stack[|th.stack| - 1] == act.lock && act.lock in th.stack;
      assert TimesTaken(locks[act.lock], t) >= 1;
    }
    forall l | l in locks
      ensures Holds(p.0, l) - Holds(th, l) == TimesTaken(p.1[l], t) - TimesTaken(locks[l], t)
    {}
  }

  lemma PopBalanced(rank: Ranks, th: Thread, locks: map<int, Mutex>, t: int, act: Act)
    requires act.Pop?
    requires ThreadOk(rank, th) && Act1(rank, false, th, locks, t, act).Some? && Known(th, locks.Keys)
    requires forall l | l in locks && locks[l].Taken? :: locks[l].times >= 1
    requires forall l | l in locks :: Holds(th, l) == TimesTaken(locks[l], t)
    ensures var p := Act1(rank, false, th, locks, t, act).value; Balanced(th, p.0, locks, p.1, t)
  {
    var p := Act1(rank, false, th, locks, t, act).value;
    assert TopOk(rank, th);
    KnownAfter(th, p.0, locks.Keys);
    forall l | l in locks ensures Holds(p.0, l) == Holds(th, l) {
      if !(p.0.stack == [] && !th.draining) { Revealed(rank, th, p.0, l); }
      PopHolds(th, p.0, l);
    }
  }

  /** A cleanup on top adds nothing to what is held, and was put on a frame that adds nothing. */
  lemma CleanupHolds(th: Thread, next: Thread, task: int, l: int)
    requires next.stack == th.stack && next.frames == th.frames + [Cleanup(task)] && Extra(th, l) == 0
    ensures Holds(next, l) == Holds(th, l)
  {
  }

  /** Nothing is recorded when a collected cleanup runs at once, so no frame adds to what is held. */
  lemma DirectExtra(rank: Ranks, th: Thread, l: int)
    requires ThreadOk(rank, th) && !InWindow(th) && th.stack == []
    ensures Extra(th, l) == 0
  {
  }

  lemma CleanupBalanced(rank: Ranks, th: Thread, locks: map<int, Mutex>, t: int, act: Act)
    requires (act.DrainNext? || act.Collect? || act.EndCleanup?) && ThreadOk(rank, th) && Act1(rank, false, th, locks, t, act).Some?
    requires Known(th, locks.Keys) && forall l | l in locks && locks[l].Taken? :: locks[l].times >= 1
    ensures var p := Act1(rank, false, th, locks, t, act).value; Balanced(th, p.0, locks, p.1, t)
  {
    hide ThreadOk, Legal, MayTake, TakeMutex, DropMutex;
    var next := Act1(rank, false, th, locks, t, act).value.0;
    forall l | l in locks ensures Holds(next, l) == Holds(th, l) {
      if act.EndCleanup? || (act.DrainNext? && th.queue == []) {
        Revealed(rank, th, next, l);
      } else if act.Collect? && next.frames != th.frames {
        DirectExtra(rank, th, l);
        CleanupHolds(th, next, act.task, l);
      }
    }
  }

  /** Every step of every thread keeps the invariant, as long as no callback runs in the window. */
  lemma StepKeeps(rank: Ranks, s: State, t: int, act: Act)
    requires Inv(rank, s) && Apply(rank, false, s, t, act).Some?
    ensures Inv(rank, Apply(rank, false, s, t, act).value)
  {
    hide ThreadOk, Act1, Holds, Known;
    var th := s.threads[t];
    var p := Act1(rank, false, th, s.locks, t, act).value;
    ThreadKeeps(rank, th, s.locks, t, act);
    if act.StartAcquire? || act.Grant? {
      StartBalanced(rank, th, s.locks, t, act);
    } else if act.Record? {
      RecordBalanced(rank, th, s.locks, t, act);
    } else if act.GiveUp? {
      GiveUpBalanced(rank, th, s.locks, t, act);
    } else if act.RecordFails? {
      FailBalanced(rank, th, s.locks, t, act);
    } else if act.StartRelease? {
      DropBalanced(rank, th, s.locks, t, act);
    } else if act.Pop? {
      PopBalanced(rank, th, s.locks, t, act);
    } else {
      CleanupBalanced(rank, th, s.locks, t, act);
    }
    assert s.locks.Keys == p.1.Keys;
  }

  // ----- no cyclic wait -----------------------------------------------------------------

  /** A thread waits for a barrier another thread has taken. */
  predicate Waits(s: State, t: int, l: int, o: int) {
    && t in s.threads && l in s.locks && o != t
    && Top(s.threads[t]).Some? && Top(s.threads[t]).value.Acquiring? && !Top(s.threads[t]).value.granted
    && Top(s.threads[t]).value.lock == l
    && s.locks[l].Taken? && s.locks[l].by_ == o
  }

  lemma BelowTop(rank: Ranks, stack: seq<int>, held: int)
    requires Ordered(rank, stack) && held in stack
    ensures rank(held) < rank(stack[|stack| - 1]) || held == stack[|stack| - 1]
  {
    var i :| 0 <= i < |stack| && stack[i] == held;
    if i < |stack| - 1 { assert rank(stack[i]) < rank(stack[|stack| - 1]) || stack[i] == stack[|stack| - 1]; }
  }

  /** While it waits, a thread has taken what its stack records. */
  lemma WaiterHolds(th: Thread, l: int)
    requires Top(th).Some? && Top(th).value.Acquiring? && !Top(th).value.granted
    ensures Holds(th, l) > 0 <==> l in th.stack
  {
  }

  /** A waiting thread holds only barriers of lower rank than the one it waits for. */
  lemma WaiterBelow(rank: Ranks, s: State, t: int, l: int, o: int, held: int)
    requires Inv(rank, s) && Waits(s, t, l, o) && held in s.locks && s.locks[held].Taken? && s.locks[held].by_ == t
    ensures rank(held) < rank(l)
  {
    var th := s.threads[t];
    assert TopOk(rank, th) && Ordered(rank, th.stack) by { assert ThreadOk(rank, th); }
    assert Holds(th, held) == TimesTaken(s.locks[held], t) >= 1 && Holds(th, l) == TimesTaken(s.locks[l], t) == 0;
    hide Inv, Holds, Ordered;
    WaiterHolds(th, held);
    WaiterHolds(th, l);
    BelowTop(rank, th.stack, held);
    assert l != th.stack[|th.stack| - 1];
  }

  /** A chain of waiting threads: each waits for a barrier the next one has taken. */
  predicate WaitChain(s: State, threads: seq<int>, locks: seq<int>) {
    && |threads| == |locks| + 1 && |locks| >= 1
    && forall i | 0 <= i < |locks| :: Waits(s, threads[i], locks[i], threads[i + 1])
  }

  lemma {:induction false} ChainClimbs(rank: Ranks, s: State, threads: seq<int>, locks: seq<int>)
    requires Inv(rank, s) && WaitChain(s, threads, locks)
    ensures rank(locks[0]) <= rank(locks[|locks| - 1])
    ensures |locks| > 1 ==> rank(locks[0]) < rank(locks[|locks| - 1])
    decreases |locks|
  {
    if |locks| > 1 {
      assert Waits(s, threads[0], locks[0], threads[1]);
      assert Waits(s, threads[1], locks[1], threads[2]);
      WaiterBelow(rank, s, threads[1], locks[1], threads[2], locks[0]);
      forall i | 0 <= i < |locks| - 1 ensures Waits(s, threads[1..][i], locks[1..][i], threads[1..][i + 1]) {
        assert Waits(s, threads[i + 1], locks[i + 1], threads[i + 2]);
      }
      ChainClimbs(rank, s, threads[1..], locks[1..]);
    }
  }

  predicate CyclicWait(s: State, threads: seq<int>, locks: seq<int>) {
    WaitChain(s, threads, locks) && threads[0] == threads[|threads| - 1]
  }

  /** Under the invariant no chain of waits closes. */
  lemma NoCyclicWait(rank: Ranks, s: State, threads: seq<int>, locks: seq<int>)
    requires Inv(rank, s)
    ensures !CyclicWait(s, threads, locks)
  {
    if WaitChain(s, threads, locks) {
      var n := |locks|;
      ChainClimbs(rank, s, threads, locks);
      assert Waits(s, threads[n - 1], locks[n - 1], threads[n]);
      assert Waits(s, threads[0], locks[0], threads[1]);
      if threads[0] == threads[n] {
        WaiterBelow(rank, s, threads[0], locks[0], threads[1], locks[n - 1]);
      }
    }
  }

  // ----- cleanups -----------------------------------------------------------------------

  ghost predicate HoldsNothing(s: State, t: int) {
    forall l | l in s.locks :: s.locks[l].Taken? ==> s.locks[l].by_ != t
  }

  lemma StartsClear(rank: Ranks, th: Thread, locks: map<int, Mutex>, t: int, act: Act)
    requires TopOk(rank, th) && Act1(rank, false, th, locks, t, act).Some?
    requires (act.DrainNext? && th.queue != []) || (act.Collect? && th.stack == [] && !th.draining)
    ensures th.stack == [] && !InWindow(th) && !(Top(th).Some? && Top(th).value.Releasing?)
  {
  }

  /** A cleanup starts, from the queue or directly, only when its thread has taken no mutex. */
  lemma CleanupStartsFree(rank: Ranks, s: State, t: int, act: Act)
    requires Inv(rank, s) && Apply(rank, false, s, t, act).Some?
    requires (act.DrainNext? && s.threads[t].queue != []) || (act.Collect? && s.threads[t].stack == [] && !s.threads[t].draining)
    ensures HoldsNothing(s, t)
  {
    hide Act1, TopOk, Ordered, Holds, InWindow;
    var th := s.threads[t];
    assert ThreadOk(rank, th);
    StartsClear(rank, th, s.locks, t, act);
    forall l | l in s.locks && s.locks[l].Taken? ensures s.locks[l].by_ != t {
      assert Holds(th, l) == TimesTaken(s.locks[l], t);
      HoldsNone(th, l);
    }
  }

  lemma HoldsNone(th: Thread, l: int)
    requires th.stack == [] && !InWindow(th) && !(Top(th).Some? && Top(th).value.Releasing?)
    ensures Holds(th, l) == 0
  {
  }

  // ----- every run ----------------------------------------------------------------------

  type Trace = seq<(int, Act)>

  /** Any interleaving of steps of any threads. */
  function Exec(rank: Ranks, window: bool, s: State, trace: Trace): Option<State> {
    if trace == [] then Some(s) else
      match Exec(rank, window, s, trace[..|trace| - 1])
      case None => None
      case Some(m) => Apply(rank, window, m, trace[|trace| - 1].0, trace[|trace| - 1].1)
  }

  /** After any run that starts idle, mutual exclusion and the order of every stack hold, and no wait is cyclic. */
  lemma {:induction false} RunSafe(rank: Ranks, s: State, trace: Trace)
    requires Init(s) && Exec(rank, false, s, trace).Some?
    ensures Inv(rank, Exec(rank, false, s, trace).value)
    ensures forall threads, locks :: !CyclicWait(Exec(rank, false, s, trace).value, threads, locks)
    decreases |trace|
  {
    hide Inv, CyclicWait, Apply;
    if trace == [] {
      InitOk(rank, s);
    } else {
      RunSafe(rank, s, trace[..|trace| - 1]);
      StepKeeps(rank, Exec(rank, false, s, trace[..|trace| - 1]).value, trace[|trace| - 1].0, trace[|trace| - 1].1);
    }
    forall threads, locks ensures !CyclicWait(Exec(rank, false, s, trace).value, threads, locks) {
      NoCyclicWait(rank, Exec(rank, false, s, trace).value, threads, locks);
    }
  }

  lemma ExecMore(rank: Ranks, window: bool, s: State, trace: Trace, t: int, act: Act)
    requires Exec(rank, window, s, trace).Some?
    ensures Exec(rank, window, s, trace + [(t, act)]) == Apply(rank, window, Exec(rank, window, s, trace).value, t, act)
  {
    var more := trace + [(t, act)];
    assert more[..|more| - 1] == trace;
  }

  /** Asking for a first barrier, outside any frame or inside a cleanup. */
  lemma FirstAsk(rank: Ranks, locks: map<int, Mutex>, t: int, frames: seq<Frame>, l: int)
    requires l in locks && (frames == [] || frames[|frames| - 1].Cleanup?)
    ensures Act1(rank, true, Thread([], frames, [], false), locks, t, StartAcquire(l))
            == Some((Thread([], frames + [Acquiring(l, [l], false)], [], false), locks))
  {
    assert [] + [l] == [l];
  }

  lemma FirstGrant(rank: Ranks, locks: map<int, Mutex>, t: int, l: int)
    requires l in locks && locks[l].Free?
    ensures Act1(rank, true, Thread([], [Acquiring(l, [l], false)], [], false), locks, t, Grant)
            == Some((Thread([], [Acquiring(l, [l], true)], [], false), locks[l := Taken(t, 1)]))
  {
    var frames := [Acquiring(l, [l], false)];
    assert frames[..|frames| - 1] + [Acquiring(l, [l], true)] == [Acquiring(l, [l], true)];
  }

  lemma WindowCollect(rank: Ranks, locks: map<int, Mutex>, t: int, l: int)
    ensures Act1(rank, true, Thread([], [Acquiring(l, [l], true)], [], false), locks, t, Collect(0))
            == Some((Thread([], [Acquiring(l, [l], true), Cleanup(0)], [], false), locks))
  {
    assert [Acquiring(l, [l], true)] + [Cleanup(0)] == [Acquiring(l, [l], true), Cleanup(0)];
  }

  lemma FirstRecord(rank: Ranks, locks: map<int, Mutex>, t: int, l: int)
    ensures Act1(rank, true, Thread([], [Acquiring(l, [l], true)], [], false), locks, t, Record)
            == Some((Thread([l], [], [], false), locks))
  {
  }

  lemma SecondAsk(rank: Ranks, locks: map<int, Mutex>, t: int, l: int, m: int)
    requires m in locks && rank(l) < rank(m)
    ensures Act1(rank, true, Thread([l], [], [], false), locks, t, StartAcquire(m))
            == Some((Thread([l], [Acquiring(m, [l, m], false)], [], false), locks))
  {
    assert [l] + [m] == [l, m];
    assert [] + [Acquiring(m, [l, m], false)] == [Acquiring(m, [l, m], false)];
  }

  /** The thread that takes `hi` and is interrupted in the window ends up asking for `lo`. */
  lemma Interrupted(rank: Ranks, s: State, a: int, lo: int, hi: int) returns (trace: Trace)
    requires Init(s) && a in s.threads && lo in s.locks && hi in s.locks
    ensures Exec(rank, true, s, trace)
            == Some(State(s.threads[a := Thread([], [Acquiring(hi, [hi], true), Cleanup(0)] + [Acquiring(lo, [lo], false)], [], false)],
                          s.locks[hi := Taken(a, 1)]))
  {
    hide Exec, Act1;
    ExecNone(rank, true, s);
    FirstAsk(rank, s.locks, a, [], hi);
    ExecMore(rank, true, s, [], a, StartAcquire(hi));
    trace := [] + [(a, StartAcquire(hi))];
    assert [] + [Acquiring(hi, [hi], false)] == [Acquiring(hi, [hi], false)];
    FirstGrant(rank, s.locks, a, hi);
    ExecMore(rank, true, s, trace, a, Grant);
    trace := trace + [(a, Grant)];
    var locks := s.locks[hi := Taken(a, 1)];
    WindowCollect(rank, locks, a, hi);
    ExecMore(rank, true, s, trace, a, Collect(0));
    trace := trace + [(a, Collect(0))];
    FirstAsk(rank, locks, a, [Acquiring(hi, [hi], true), Cleanup(0)], lo);
    ExecMore(rank, true, s, trace, a, StartAcquire(lo));
    trace := trace + [(a, StartAcquire(lo))];
    assert s.threads[a := Thread([], [Acquiring(hi, [hi], true), Cleanup(0)] + [Acquiring(lo, [lo], false)], [], false)]
      == Exec(rank, true, s, trace).value.threads;
  }

  /** Another thread then takes `lo` and asks for `hi`. */
  lemma Crossed(rank: Ranks, s: State, mid: State, b: int, lo: int, hi: int, before: Trace) returns (trace: Trace)
    requires Exec(rank, true, s, before) == Some(mid) && b in mid.threads && mid.threads[b] == Idle
    requires lo in mid.locks && hi in mid.locks && mid.locks[lo].Free? && rank(lo) < rank(hi)
    ensures Exec(rank, true, s, trace)
            == Some(State(mid.threads[b := Thread([lo], [Acquiring(hi, [lo, hi], false)], [], false)], mid.locks[lo := Taken(b, 1)]))
  {
    hide Exec, Act1;
    FirstAsk(rank, mid.locks, b, [], lo);
    ExecMore(rank, true, s, before, b, StartAcquire(lo));
    trace := before + [(b, StartAcquire(lo))];
    assert [] + [Acquiring(lo, [lo], false)] == [Acquiring(lo, [lo], false)];
    FirstGrant(rank, mid.locks, b, lo);
    ExecMore(rank, true, s, trace, b, Grant);
    trace := trace + [(b, Grant)];
    var locks := mid.locks[lo := Taken(b, 1)];
    FirstRecord(rank, locks, b, lo);
    ExecMore(rank, true, s, trace, b, Record);
    trace := trace + [(b, Record)];
    SecondAsk(rank, locks, b, lo, hi);
    ExecMore(rank, true, s, trace, b, StartAcquire(hi));
    trace := trace + [(b, StartAcquire(hi))];
    assert mid.threads[b := Thread([lo], [Acquiring(hi, [lo, hi], false)], [], false)] == Exec(rank, true, s, trace).value.threads;
  }

  /**
   A callback in the window sees an empty stack although a mutex is taken: it may then take a
   barrier of lower rank, unchecked, and two threads can wait for each other.
   */
  lemma WindowDeadlock(rank: Ranks, s: State, a: int, b: int, lo: int, hi: int) returns (trace: Trace, after: State)
    requires Init(s) && a in s.threads && b in s.threads && a != b && lo in s.locks && hi in s.locks && rank(lo) < rank(hi)
    ensures Exec(rank, true, s, trace) == Some(after) && CyclicWait(after, [a, b, a], [lo, hi])
  {
    hide Exec;
    var first := Interrupted(rank, s, a, lo, hi);
    var mid := Exec(rank, true, s, first).value;
    trace := Crossed(rank, s, mid, b, lo, hi, first);
    after := Exec(rank, true, s, trace).value;
    assert Waits(after, a, lo, b) && Waits(after, b, hi, a);
  }

  lemma ExecNone(rank: Ranks, window: bool, s: State)
    ensures Exec(rank, window, s, []) == Some(s)
  {
  }

  ghost predicate NeverCyclic(rank: Ranks, window: bool, s: State) {
    forall trace: Trace, threads, locks | Exec(rank, window, s, trace).Some? ::
      !CyclicWait(Exec(rank, window, s, trace).value, threads, locks)
  }

  /** With two threads and two ranks, the discipline is free of cyclic waits exactly when the window is closed. */
  lemma WindowDecides(rank: Ranks, window: bool, s: State, a: int, b: int, lo: int, hi: int)
    requires Init(s) && a in s.threads && b in s.threads && a != b && lo in s.locks && hi in s.locks && rank(lo) < rank(hi)
    ensures NeverCyclic(rank, window, s) <==> !window
  {
    hide CyclicWait, Apply, Exec;
    if window {
      var trace, after := WindowDeadlock(rank, s, a, b, lo, hi);
      assert Exec(rank, window, s, trace).Some? && CyclicWait(Exec(rank, window, s, trace).value, [a, b, a], [lo, hi]);
    } else {
      forall trace: Trace, threads, locks | Exec(rank, window, s, trace).Some?
        ensures !CyclicWait(Exec(rank, window, s, trace).value, threads, locks)
      {
        RunSafe(rank, s, trace);
      }
    }
  }
}
