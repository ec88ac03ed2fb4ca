/**
  The start lock of the daemon: a file created exclusively, removed by its owner, and
  removed by anybody who finds it older than a threshold. Any number of processes take
  the steps below in any interleaving; the clock is a non-decreasing number.
 */
module StartLock {
  import opened Wrappers

  type Process = nat

  const StaleLockThreshold: nat := 30_000

  /** Where a process is in `ensureDaemon`. */
  datatype Phase =
    | Idle                        // before, or after: waiting for another's daemon counts as after
    | Refused                     // the first creation failed
    | Seen(mtime: nat, at: nat)   // has the file's age, taken at `at`
    | Stale                       // found it too old, about to remove it
    | Removed                     // about to try again
    | Holding(since: nat)         // starting the daemon

  /** The lock file; `owner` is who created it, which no process can see. */
  datatype File = File(owner: Process, mtime: nat)

  datatype State = State(now: nat, lock: Option<File>, phases: map<Process, Phase>)

  datatype Event =
    | Acquire(p: Process)   // from Idle or Removed
    | Stat(p: Process)
    | Check(p: Process)
    | Unlink(p: Process)
    | Release(p: Process)
    | Crash(p: Process)     // dies holding the lock
    | Tick(ms: nat)

  function PhaseOf(s: State, p: Process): Phase {
    if p in s.phases then s.phases[p] else Idle
  }

  function Go(s: State, p: Process, phase: Phase): State {
    s.(phases := s.phases[p := phase])
  }

  /** Exclusive creation. */
  function Created(s: State, p: Process, otherwise: Phase): State {
    if s.lock == None then Go(s.(lock := Some(File(p, s.now))), p, Holding(s.now)) else Go(s, p, otherwise)
  }

  /** One step; `None` when the process is not at that point. */
  function Next(s: State, e: Event): Option<State> {
    match e
    case Tick(ms) => Some(s.(now := s.now + ms))
    case Acquire(p) =>
      if PhaseOf(s, p) == Idle then Some(Created(s, p, Refused))
      else if PhaseOf(s, p) == Removed then Some(Created(s, p, Idle))
      else None
    case Stat(p) =>
      if PhaseOf(s, p) != Refused then None
      else Some(Go(s, p, if s.lock == None then Idle else Seen(s.lock.value.mtime, s.now)))
    case Check(p) =>
      if !PhaseOf(s, p).Seen? then None
      else Some(Go(s, p, if s.now - PhaseOf(s, p).mtime > StaleLockThreshold then Stale else Idle))
    case Unlink(p) =>
      if PhaseOf(s, p) != Stale then None else Some(Go(s.(lock := None), p, Removed))
    case Release(p) =>
      if !PhaseOf(s, p).Holding? then None else Some(Go(s.(lock := None), p, Idle))
    case Crash(p) =>
      if !PhaseOf(s, p).Holding? then None else Some(Go(s, p, Idle))
  }

  const Initial := State(0, None, map[])

  /** The state after some steps, `None` if one was not possible. */
  function AfterFrom(start: State, events: seq<Event>): Option<State> {
    if events == [] then Some(start)
    else match AfterFrom(start, events[..|events| - 1])
      case None => None
      case Some(s) => Next(s, events[|events| - 1])
  }

  function After(events: seq<Event>): Option<State> {
    AfterFrom(Initial, events)
  }

  /**
    Timing: a lock is released at most `hold` after it was taken, and the age of a file
    is looked at no later than `delay` after it was read.
   */
  predicate Timely(s: State, e: Event, hold: nat, delay: nat) {
    match e
    case Release(p) => PhaseOf(s, p).Holding? ==> s.now - PhaseOf(s, p).since <= hold
    case Check(p) => PhaseOf(s, p).Seen? ==> s.now - PhaseOf(s, p).at <= delay
    case Tick(ms) => forall p :: p in s.phases && s.phases[p].Holding? ==> s.now + ms - s.phases[p].since <= hold
    case _ => true
  }

  /** A possible run without crashes in which every step is timely. */
  predicate TimelyRun(events: seq<Event>, hold: nat, delay: nat) {
    After(events).Some? &&
    (events == [] || (
      var last := events[|events| - 1];
      && TimelyRun(events[..|events| - 1], hold, delay)
      && !last.Crash?
      && Timely(After(events[..|events| - 1]).value, last, hold, delay)))
  }

  ghost predicate Exclusive(s: State) {
    forall p, q :: PhaseOf(s, p).Holding? && PhaseOf(s, q).Holding? ==> p == q
  }

  // ---------------------------------------------------------------- the invariant

  /** The file is there exactly while its creator holds the lock, and nobody takes a live lock for stale. */
  ghost predicate Inv(s: State, hold: nat) {
    && (forall p :: PhaseOf(s, p).Holding? ==>
      s.lock == Some(File(p, PhaseOf(s, p).since)) && PhaseOf(s, p).since <= s.now <= PhaseOf(s, p).since + hold)
    && (s.lock.Some? ==> PhaseOf(s, s.lock.value.owner).Holding?)
    && (forall p :: PhaseOf(s, p).Seen? ==> PhaseOf(s, p).at <= PhaseOf(s, p).mtime + hold && PhaseOf(s, p).at <= s.now)
    && (forall p :: PhaseOf(s, p) != Stale && PhaseOf(s, p) != Removed)
  }

  lemma {:induction false} StepKeepsInv(s: State, e: Event, hold: nat, delay: nat)
    requires Inv(s, hold) && hold + delay <= StaleLockThreshold
    requires Next(s, e).Some? && !e.Crash? && Timely(s, e, hold, delay)
    ensures Inv(Next(s, e).value, hold)
  {
    var t := Next(s, e).value;
    match e
    case Tick(ms) =>
      assert forall p :: PhaseOf(t, p) == PhaseOf(s, p);
      forall p | PhaseOf(t, p).Holding? ensures t.now <= PhaseOf(t, p).since + hold {
        assert p in s.phases;
      }
    case Acquire(p) =>
      assert forall q :: q != p ==> PhaseOf(t, q) == PhaseOf(s, q);
    case Stat(p) =>
      assert forall q :: q != p ==> PhaseOf(t, q) == PhaseOf(s, q);
    case Check(p) =>
      assert forall q :: q != p ==> PhaseOf(t, q) == PhaseOf(s, q);
    case Release(p) =>
      assert forall q :: q != p ==> PhaseOf(t, q) == PhaseOf(s, q);
    case Unlink(p) =>
  }

  lemma {:induction false} RunKeepsInv(events: seq<Event>, hold: nat, delay: nat)
    requires TimelyRun(events, hold, delay) && hold + delay <= StaleLockThreshold
    ensures Inv(After(events).value, hold)
  {
    if events != [] {
      var front, last := events[..|events| - 1], events[|events| - 1];
      RunKeepsInv(front, hold, delay);
      StepKeepsInv(After(front).value, last, hold, delay);
    }
  }

  /**
    With hold and delay together within the threshold, at most one process is between
    acquire and release, a release removes the releaser's own file, and the stale
    branch is never taken.
   */
  lemma MutualExclusion(events: seq<Event>, hold: nat, delay: nat)
    requires TimelyRun(events, hold, delay) && hold + delay <= StaleLockThreshold
    ensures Exclusive(After(events).value)
    ensures forall p :: PhaseOf(After(events).value, p).Holding? ==>
              After(events).value.lock.Some? && After(events).value.lock.value.owner == p
    ensures forall p :: PhaseOf(After(events).value, p) != Stale
  {
    RunKeepsInv(events, hold, delay);
  }

  // -------------------------------------------------------- the bound is needed

  /** The creations a process has tried since it was last idle. */
  ghost function Tries(events: seq<Event>, p: Process): nat
    requires After(events).Some?
  {
    if events == [] || PhaseOf(After(events).value, p) == Idle then 0
    else Tries(events[..|events| - 1], p) + if events[|events| - 1] == Acquire(p) then 1 else 0
  }

  /** Crashes or not, a process tries to create the file twice at most, and a second time only after removing it. */
  lemma {:induction false} AtMostTwoTries(events: seq<Event>, p: Process)
    requires After(events).Some?
    ensures Tries(events, p) <= 2
    ensures Tries(events, p) == 2 ==> PhaseOf(After(events).value, p).Holding?
    ensures PhaseOf(After(events).value, p) in {Refused, Stale, Removed} ==> Tries(events, p) == 1
    ensures PhaseOf(After(events).value, p).Seen? ==> Tries(events, p) == 1
  {
    if events != [] {
      AtMostTwoTries(events[..|events| - 1], p);
    }
  }

  lemma {:induction false} AfterSnoc(front: seq<Event>, e: Event)
    ensures After(front + [e]) == match After(front) case None => None case Some(s) => Next(s, e)
    ensures forall hold: nat, delay: nat :: TimelyRun(front + [e], hold, delay) <==>
      After(front + [e]).Some? && TimelyRun(front, hold, delay) && !e.Crash?
        && Timely(After(front).value, e, hold, delay)
  {
    assert (front + [e])[..|front|] == front;
  }

  ghost predicate Reached(events: seq<Event>, s: State, hold: nat, delay: nat) {
    After(events) == Some(s) && TimelyRun(events, hold, delay)
  }

  lemma {:induction false} Extend(events: seq<Event>, s: State, e: Event, hold: nat, delay: nat) returns (t: State)
    requires Reached(events, s, hold, delay) && Next(s, e).Some? && !e.Crash? && Timely(s, e, hold, delay)
    ensures t == Next(s, e).value && Reached(events + [e], t, hold, delay)
  {
    AfterSnoc(events, e);
    t := Next(s, e).value;
  }

  /** Process 1 reads the age of a file just before process 0 releases it, and acts on it when 0 holds the next one. */
  lemma {:induction false} Overtaken(hold: nat, delay: nat) returns (events: seq<Event>)
    requires hold + delay > StaleLockThreshold
    ensures TimelyRun(events, hold, delay) && !Exclusive(After(events).value)
  {
    var late := StaleLockThreshold + 1;
    var seen := if hold < late then hold else late;
    var s;
    events, s := UntilReleased(hold, delay, seen);
    s := Extend(events, s, Acquire(0), hold, delay);
    events := events + [Acquire(0)];
    s := Extend(events, s, Check(1), hold, delay);
    events := events + [Check(1)];
    s := Extend(events, s, Unlink(1), hold, delay);
    events := events + [Unlink(1)];
    s := Extend(events, s, Acquire(1), hold, delay);
    events := events + [Acquire(1)];
    assert PhaseOf(s, 0) == Holding(late) && PhaseOf(s, 1) == Holding(late);
  }

  lemma {:induction false} UntilReleased(hold: nat, delay: nat, seen: nat) returns (events: seq<Event>, s: State)
    requires seen <= hold && seen <= StaleLockThreshold + 1
    ensures Reached(events, s, hold, delay)
    ensures s.now == StaleLockThreshold + 1 && s.lock == None
    ensures PhaseOf(s, 0) == Idle && PhaseOf(s, 1) == Seen(0, seen) && s.phases.Keys == {0, 1}
  {
    events, s := UntilSeen(hold, delay, seen);
    s := Extend(events, s, Release(0), hold, delay);
    events := events + [Release(0)];
    s := Extend(events, s, Tick(StaleLockThreshold + 1 - seen), hold, delay);
    events := events + [Tick(StaleLockThreshold + 1 - seen)];
  }

  /** Process 0 creates the lock, and process 1 finds it there. */
  lemma {:induction false} UntilRefused(hold: nat, delay: nat) returns (events: seq<Event>, s: State)
    ensures Reached(events, s, hold, delay)
    ensures s == State(0, Some(File(0, 0)), map[0 := Holding(0), 1 := Refused])
  {
    s := Extend([], Initial, Acquire(0), hold, delay);
    events := [] + [Acquire(0)];
    assert s == State(0, Some(File(0, 0)), map[0 := Holding(0)]);
    s := Extend(events, s, Acquire(1), hold, delay);
    events := events + [Acquire(1)];
  }

  lemma {:induction false} UntilSeen(hold: nat, delay: nat, seen: nat) returns (events: seq<Event>, s: State)
    requires seen <= hold
    ensures Reached(events, s, hold, delay)
    ensures s == State(seen, Some(File(0, 0)), map[0 := Holding(0), 1 := Seen(0, seen)])
  {
    events, s := UntilRefused(hold, delay);
    s := Extend(events, s, Tick(seen), hold, delay);
    events := events + [Tick(seen)];
    assert s == State(seen, Some(File(0, 0)), map[0 := Holding(0), 1 := Refused]);
    s := Extend(events, s, Stat(1), hold, delay);
    events := events + [Stat(1)];
  }

  /** Mutual exclusion in every timely run holds exactly within the threshold. */
  lemma ExclusionIff(hold: nat, delay: nat)
    ensures (forall events :: TimelyRun(events, hold, delay) ==> Exclusive(After(events).value))
       <==> hold + delay <= 30_000
  {
    if hold + delay <= StaleLockThreshold {
      forall events | TimelyRun(events, hold, delay) ensures Exclusive(After(events).value) {
        MutualExclusion(events, hold, delay);
      }
    } else {
      var events := Overtaken(hold, delay);
    }
  }

  /** One step more. */
  lemma {:induction false} More(start: State, events: seq<Event>, s: State, e: Event) returns (events': seq<Event>,
      t: State)
    requires AfterFrom(start, events) == Some(s) && Next(s, e).Some?
    ensures t == Next(s, e).value && events' == events + [e] && AfterFrom(start, events') == Some(t)
  {
    events', t := events + [e], Next(s, e).value;
    assert events'[..|events|] == events;
  }

  /**
    A crash breaks exclusion with no delay at all: two processes find the dead file
    stale, and the second removes the file the first has created since.
   */
  lemma {:induction false} CrashBreaksExclusion() returns (events: seq<Event>)
    ensures After(events).Some? && !Exclusive(After(events).value)
  {
    var s;
    events, s := TwoFindItStale();
    events, s := More(Initial, events, s, Unlink(1));
    events, s := More(Initial, events, s, Acquire(1));
    events, s := More(Initial, events, s, Unlink(2));
    events, s := More(Initial, events, s, Acquire(2));
    assert PhaseOf(s, 1).Holding? && PhaseOf(s, 2).Holding?;
  }

  lemma {:induction false} TwoFindItStale() returns (events: seq<Event>, s: State)
    ensures After(events) == Some(s) && PhaseOf(s, 1) == PhaseOf(s, 2) == Stale
  {
    events, s := More(Initial, [], Initial, Acquire(0));
    events, s := More(Initial, events, s, Acquire(1));
    events, s := More(Initial, events, s, Acquire(2));
    events, s := More(Initial, events, s, Crash(0));
    events, s := More(Initial, events, s, Tick(StaleLockThreshold + 1));
    events, s := More(Initial, events, s, Stat(1));
    events, s := More(Initial, events, s, Stat(2));
    events, s := More(Initial, events, s, Check(1));
    events, s := More(Initial, events, s, Check(2));
  }

  // ------------------------------------------------------------------ the code

  /** The lock file of one daemon. `EnsureDaemon` here runs without another process between its steps. */
  class DaemonPaths {
    var lock: Option<File>

    constructor ()
      ensures lock == None
    {
      lock := None;
    }

    method AcquireStartLock(p: Process, now: nat) returns (acquired: bool)
      modifies this
      ensures acquired == (old(lock) == None)
      ensures lock == if acquired then Some(File(p, now)) else old(lock)
    {
      acquired := lock == None;
      if acquired {
        lock := Some(File(p, now));
      }
    }

    method ReleaseStartLock()
      modifies this
      ensures lock == None
    {
      lock := None;
    }

    /** Taking over a lock that is too old. */
    method Recover(p: Process, now: nat, ghost s: State, ghost before: seq<Event>, ghost t: State)
      returns (started: bool, ghost events: seq<Event>, ghost u: State)
      requires AfterFrom(s, before) == Some(t) && PhaseOf(t, p) == Refused
      requires lock.Some? && t.lock == lock && t.now == now
      modifies this
      ensures started == (now - old(lock).value.mtime > StaleLockThreshold)
      ensures AfterFrom(s, events) == Some(u) && u.lock == lock && u.now == now
      ensures PhaseOf(u, p) == if started then Holding(now) else Idle
      ensures !started ==> lock == old(lock)
    {
      started := false;
      events, u := More(s, before, t, Stat(p));
      events, u := More(s, events, u, Check(p));
      if now - lock.value.mtime > StaleLockThreshold {
        lock := None;
        events, u := More(s, events, u, Unlink(p));
        started := AcquireStartLock(p, now);
        events, u := More(s, events, u, Acquire(p));
      }
    }

    /**
      Takes exactly the steps of the protocol. Left alone it starts the daemon unless
      it runs or the lock is there and young, and leaves no lock of its own.
     */
    method EnsureDaemon(p: Process, running: bool, now: nat, startup: nat, ghost s: State) returns (started: bool,
        ghost events: seq<Event>)
      requires PhaseOf(s, p) == Idle && s.lock == lock && s.now == now
      modifies this
      ensures started == (!running && (old(lock) == None || now - old(lock).value.mtime > StaleLockThreshold))
      ensures lock == if started then None else old(lock)
      ensures AfterFrom(s, events).Some? && AfterFrom(s, events).value.lock == lock
      ensures PhaseOf(AfterFrom(s, events).value, p) == Idle
    {
      events := [];
      if running {
        return false, events;
      }
      ghost var t;
      started := AcquireStartLock(p, now);
      events, t := More(s, [], s, Acquire(p));
      if !started {
        started, events, t := Recover(p, now, s, events, t);
      }
      if started {
        ReleaseStartLock();
        events, t := More(s, events, t, Tick(startup));
        events, t := More(s, events, t, Release(p));
      }
    }
  }
}
