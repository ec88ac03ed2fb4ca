/**
  What the pool and the breaker give together: a bound on the connections a daemon
  holds, and a bound on the remote connects it starts against a dead backend.
 */
module PoolBounds {
  import opened Wrappers
  import opened Lists
  import opened PoolView
  import opened PoolRuns
  import B = CircuitBreaker

  // -------------------------------------------------------------- capacity

  function Keys(s: State): set<Key> {
    s.pool.connections.Keys + s.pool.pending.Keys
  }

  lemma UnionSize<T>(a: set<T>, b: set<T>)
    ensures |a + b| <= |a| + |b|
  {
    assert a + b == a + (b - a);
    SubsetSize(b - a, b);
  }

  lemma AdmitCapacity(v: View<nat>, key: Key, maxSize: int, configured: bool, id: nat, k: nat)
    requires |v.connections.Keys + v.pending.Keys| <= maxSize - 1 + k
    requires |Admit(v, key, maxSize, configured, id).0.pending| <= k
    ensures
      var v' := Admit(v, key, maxSize, configured, id).0;
      |v'.connections.Keys + v'.pending.Keys| <= maxSize - 1 + k
  {
    var v' := Admit(v, key, maxSize, configured, id).0;
    if v' != v {
      if key in v.connections {
        assert v'.connections.Keys + v'.pending.Keys == v.connections.Keys + v.pending.Keys;
      } else {
        UnionSize(v'.connections.Keys, v'.pending.Keys);
        assert |v'.pending.Keys| == |v'.pending| && |v'.connections.Keys| == |v'.connections|;
      }
    }
  }

  lemma EnterCapacity(s: State, key: Key, backend: Backend, configured: bool, cfg: Config, k: nat)
    requires |Keys(s)| <= cfg.maxSize - 1 + k
    requires |Enter(s, key, backend, configured, cfg).pool.pending| <= k
    ensures |Keys(Enter(s, key, backend, configured, cfg))| <= cfg.maxSize - 1 + k
  {
    AdmitCapacity(s.pool, key, cfg.maxSize, configured, s.nextId, k);
  }

  /** A settled attempt moves its key from one map to the other, or out. */
  lemma SettleKeys(s: State, id: nat, cfg: Config)
    requires SingleFlight(s) && Enabled(s, Settle(id))
    ensures Keys(Next(s, Settle(id), cfg)) <= Keys(s)
  {
    assert s.attempts[id].key in s.pool.pending;
  }

  lemma StepCapacity(s: State, e: Event, cfg: Config, k: nat)
    requires SingleFlight(s) && Enabled(s, e)
    requires |Keys(s)| <= cfg.maxSize - 1 + k
    requires |Next(s, e, cfg).pool.pending| <= k
    ensures |Keys(Next(s, e, cfg))| <= cfg.maxSize - 1 + k
  {
    var t := Next(s, e, cfg);
    if IsMove(e) {
      MoveIsMove(s, e, cfg);
    } else if e.Arrive? {
      if e.key !in s.pool.connections {
        EnterCapacity(s, e.key, e.backend, e.configured, cfg, k);
      }
    } else if e.Resume? {
      EnterCapacity(s.(callers := s.callers - {e.caller}), s.callers[e.caller].key, e.backend, e.configured, cfg, k);
    } else if e.Settle? {
      SettleKeys(s, e.id, cfg);
      SubsetSize(Keys(t), Keys(s));
    } else {
      QuietKeys(s, e, cfg);
      SubsetSize(Keys(t), Keys(s));
    }
  }

  lemma QuietKeys(s: State, e: Event, cfg: Config)
    requires Enabled(s, e) && IsQuiet(e)
    ensures Keys(Next(s, e, cfg)) <= Keys(s)
  {
  }

  /** At most `k` attempts are in flight in every state of the run. */
  ghost predicate InFlightAtMost(start: State, events: seq<Event>, cfg: Config, k: nat)
    requires Runs(start, events, cfg)
    decreases |events|
  {
    && |After(start, events, cfg).pool.pending| <= k
    && (events == [] || InFlightAtMost(start, events[..|events| - 1], cfg, k))
  }

  /**
    If at most `k` attempts are ever in flight together, the keys connected or
    connecting number at most `maxSize - 1 + k`.
   */
  lemma {:induction false} CapacityBound(start: State, events: seq<Event>, cfg: Config, k: nat)
    requires Runs(start, events, cfg) && InFlightAtMost(start, events, cfg, k)
    requires 1 <= k && 0 <= cfg.maxSize
    ensures |Keys(After(start, events, cfg))| <= cfg.maxSize - 1 + k
    decreases |events|
  {
    if events != [] {
      var front := events[..|events| - 1];
      CapacityBound(start, front, cfg, k);
      AlwaysSingleFlight(start, front, cfg);
      StepCapacity(After(start, front, cfg), events[|events| - 1], cfg, k);
    }
  }

  /** One attempt at a time never exceeds the configured size. */
  lemma SequentialNeverExceedsMax(start: State, events: seq<Event>, cfg: Config)
    requires Runs(start, events, cfg) && InFlightAtMost(start, events, cfg, 1)
    requires 0 <= cfg.maxSize
    ensures |Keys(After(start, events, cfg))| <= cfg.maxSize
  {
    CapacityBound(start, events, cfg, 1);
  }

  // ------------------------------------------------------- one key's history

  /** What a run looks like from one key; `early` counts its starts up to a deadline. */
  datatype KeyView = KeyView(now: int, file: B.State, phase: Option<Phase>, starts: nat, early: nat, lost: nat)

  function CountStarts(started: seq<Start>, k: Key): nat {
    if started == [] then 0 else
    CountStarts(started[..|started| - 1], k) + if started[|started| - 1].key == k then 1 else 0
  }

  function CountEarly(started: seq<Start>, k: Key, deadline: int): nat {
    if started == [] then 0 else
      var last := started[|started| - 1];
      CountEarly(started[..|started| - 1], k, deadline) + if last.key == k && last.at <= deadline then 1 else 0
  }

  function CountLost(lost: seq<Key>, k: Key): nat {
    if lost == [] then 0 else CountLost(lost[..|lost| - 1], k) + if lost[|lost| - 1] == k then 1 else 0
  }

  function PhaseOf(s: State, k: Key): Option<Phase>
    requires SingleFlight(s)
  {
    if k in s.pool.pending then Some(s.attempts[s.pool.pending[k]].phase) else None
  }

  function ViewOf(s: State, k: Key, deadline: int): KeyView
    requires SingleFlight(s)
  {
    KeyView(s.now, Stored(s, k), PhaseOf(s, k), CountStarts(s.started, k), CountEarly(s.started, k, deadline),
      CountLost(s.lost, k))
  }

  predicate Calm(p: Option<Phase>) {
    p.None? || p.value.Resolving? || p.value.Gate? || p.value.Local? || p.value.Ended?
  }

  /** The steps one key can see while its backend always fails. */
  predicate KeyStep(a: KeyView, b: KeyView, cfg: B.Config, deadline: int) {
    || Idle(a, b)
    || (a.phase == Some(Gate) && b == a.(phase := Some(GateLoaded(a.file))))
    || (a.phase.Some? && a.phase.value.GateLoaded? && Decided(a, b, cfg, deadline))
    || (a.phase == Some(Connecting) && b == a.(phase := Some(Recording(false))))
    || (a.phase == Some(Recording(false)) && b == a.(phase := Some(RecordLoaded(false, a.file))))
    || (&& a.phase.Some? && a.phase.value.RecordLoaded? && !a.phase.value.success && a.now <= b.now
        && b == a.(now := b.now, phase := Some(RecordSaving(false,
          B.AfterFailure(a.phase.value.s, cfg, a.now, b.now)))))
    || (&& a.phase.Some? && a.phase.value.RecordSaving? && !a.phase.value.success && Calm(b.phase)
        && b == a.(phase := b.phase, file := a.phase.value.s))
    || (&& a.phase.Some? && (a.phase.value.RecordSaving? || a.phase.value.Recording?) && !a.phase.value.success
        && Calm(b.phase) && b == a.(phase := b.phase, lost := a.lost + 1))
  }

  predicate Decided(a: KeyView, b: KeyView, cfg: B.Config, deadline: int)
    requires a.phase.Some? && a.phase.value.GateLoaded?
  {
    if B.ShouldAttempt(a.phase.value.s, cfg, a.now)
    then b == a.(phase := Some(Connecting), starts := a.starts + 1, early := a.early + if a.now <= deadline then 1
      else 0)
    else Calm(b.phase) && b == a.(phase := b.phase)
  }

  // --------------------------------------------- every run projects to a key

  predicate ConnectsUnder(s: State, e: Event, k: Key) {
    e.RemoteConnects? && e.id in s.attempts && s.attempts[e.id].key == k
  }

  /** No attempt of the key is reporting a success. */
  predicate NoSuccess(s: State, k: Key) {
    forall id :: id in s.attempts && s.attempts[id].key == k ==> NoSuccessIn(s.attempts[id].phase)
  }

  lemma CountAppend(started: seq<Start>, x: Start, k: Key, deadline: int)
    ensures CountStarts(started + [x], k) == CountStarts(started, k) + if x.key == k then 1 else 0
    ensures CountEarly(started + [x], k, deadline) == CountEarly(started, k, deadline) + if x.key == k
      && x.at <= deadline then 1 else 0
  {
    assert (started + [x])[..|started|] == started;
  }

  lemma LostAppend(lost: seq<Key>, x: Key, k: Key)
    ensures CountLost(lost + [x], k) == CountLost(lost, k) + if x == k then 1 else 0
  {
    assert (lost + [x])[..|lost|] == lost;
  }

  /** Nothing but the clock, and the phase between attempts. */
  predicate Idle(a: KeyView, b: KeyView) {
    b == a.(now := b.now, phase := b.phase) && a.now <= b.now
      && (b.phase == a.phase || (Calm(a.phase) && Calm(b.phase)))
  }

  /** The counters and the file of a key that an event of another key leaves alone. */
  lemma OtherKeyIdle(s: State, t: State, id: nat, k: Key, deadline: int)
    requires SingleFlight(s) && SingleFlight(t) && id in s.attempts && s.attempts[id].key != k
    requires t.pool == s.pool && id in t.attempts && t.attempts == s.attempts[id := t.attempts[id]] && s.now <= t.now
    requires t.started == s.started || t.started == s.started + [Start(s.attempts[id].key, s.now)]
    requires t.lost == s.lost || t.lost == s.lost + [s.attempts[id].key]
    requires Stored(t, k) == Stored(s, k)
    ensures Idle(ViewOf(s, k, deadline), ViewOf(t, k, deadline))
  {
    CountAppend(s.started, Start(s.attempts[id].key, s.now), k, deadline);
    LostAppend(s.lost, s.attempts[id].key, k);
    assert PhaseOf(t, k) == PhaseOf(s, k);
  }

  lemma MoveTrace(s: State, e: Event, cfg: Config, k: Key)
    requires Enabled(s, e) && IsMove(e) && s.attempts[Mover(e)].key != k
    ensures
      var t := Next(s, e, cfg);
      && s.now <= t.now && Stored(t, k) == Stored(s, k)
      && (t.started == s.started || t.started == s.started + [Start(s.attempts[Mover(e)].key, s.now)])
      && (t.lost == s.lost || t.lost == s.lost + [s.attempts[Mover(e)].key])
  {
  }

  lemma OwnPhase(s: State, t: State, id: nat, p: Phase, k: Key)
    requires SingleFlight(s) && SingleFlight(t) && id in s.attempts && s.attempts[id].key == k
    requires t.pool == s.pool && t.attempts == s.attempts[id := s.attempts[id].(phase := p)]
    ensures PhaseOf(s, k) == Some(s.attempts[id].phase) && PhaseOf(t, k) == Some(p)
  {
    assert s.pool.pending[k] == id;
  }

  /** A moved attempt changes the phase its key sees, and nothing else. */
  lemma MovedView(s: State, id: nat, p: Phase, k: Key, deadline: int)
    requires SingleFlight(s) && id in s.attempts && s.attempts[id].key == k
    ensures SingleFlight(Move(s, id, p))
    ensures ViewOf(s, k, deadline).phase == Some(s.attempts[id].phase)
    ensures ViewOf(Move(s, id, p), k, deadline) == ViewOf(s, k, deadline).(phase := Some(p))
  {
    MoveSingleFlight(s, id, p);
    OwnPhase(s, Move(s, id, p), id, p, k);
  }

  lemma StartedView(s: State, id: nat, k: Key, deadline: int)
    requires SingleFlight(s) && id in s.attempts && s.attempts[id].key == k
    ensures
      var t := Move(s, id, Connecting).(started := s.started + [Start(k, s.now)]);
      var a := ViewOf(s, k, deadline);
      SingleFlight(t) && ViewOf(t, k, deadline)
        == a.(phase := Some(Connecting), starts := a.starts + 1, early := a.early + if a.now <= deadline then 1 else 0)
  {
    MovedView(s, id, Connecting, k, deadline);
    CountAppend(s.started, Start(k, s.now), k, deadline);
    SameFlights(Move(s, id, Connecting), Move(s, id, Connecting).(started := s.started + [Start(k, s.now)]));
  }

  lemma LostView(s: State, id: nat, k: Key, deadline: int)
    requires SingleFlight(s) && id in s.attempts && s.attempts[id].key == k
    ensures
      var t := Move(s, id, Ended(false)).(lost := s.lost + [k]);
      var a := ViewOf(s, k, deadline);
      SingleFlight(t) && ViewOf(t, k, deadline) == a.(phase := Some(Ended(false)), lost := a.lost + 1)
  {
    MovedView(s, id, Ended(false), k, deadline);
    LostAppend(s.lost, k, k);
    SameFlights(Move(s, id, Ended(false)), Move(s, id, Ended(false)).(lost := s.lost + [k]));
  }

  lemma DecideProjects(s: State, id: nat, cfg: Config, k: Key, deadline: int)
    requires SingleFlight(s) && Enabled(s, Decide(id)) && SingleFlight(Next(s, Decide(id), cfg))
      && s.attempts[id].key == k
    ensures KeyStep(ViewOf(s, k, deadline), ViewOf(Next(s, Decide(id), cfg), k, deadline), cfg.breaker, deadline)
  {
    var p := if HasFallback(s.attempts[id].backend) then Local else Ended(false);
    MovedView(s, id, p, k, deadline);
    StartedView(s, id, k, deadline);
    assert Decided(ViewOf(s, k, deadline), ViewOf(Next(s, Decide(id), cfg), k, deadline), cfg.breaker, deadline);
  }

  lemma GateReadProjects(s: State, id: nat, cfg: Config, k: Key, deadline: int)
    requires SingleFlight(s) && Enabled(s, GateRead(id)) && SingleFlight(Next(s, GateRead(id), cfg))
      && s.attempts[id].key == k
    ensures KeyStep(ViewOf(s, k, deadline), ViewOf(Next(s, GateRead(id), cfg), k, deadline), cfg.breaker, deadline)
  {
    var t := Next(s, GateRead(id), cfg);
    OwnPhase(s, t, id, GateLoaded(Stored(s, k)), k);
  }

  lemma RemoteFailsProjects(s: State, id: nat, cfg: Config, k: Key, deadline: int)
    requires SingleFlight(s) && Enabled(s, RemoteFails(id)) && SingleFlight(Next(s, RemoteFails(id), cfg))
      && s.attempts[id].key == k
    ensures KeyStep(ViewOf(s, k, deadline), ViewOf(Next(s, RemoteFails(id), cfg), k, deadline), cfg.breaker, deadline)
  {
    OwnPhase(s, Next(s, RemoteFails(id), cfg), id, Recording(false), k);
  }

  lemma RecordReadProjects(s: State, id: nat, cfg: Config, k: Key, deadline: int)
    requires SingleFlight(s) && Enabled(s, RecordRead(id)) && SingleFlight(Next(s, RecordRead(id), cfg))
      && s.attempts[id].key == k
    requires NoSuccess(s, k)
    ensures KeyStep(ViewOf(s, k, deadline), ViewOf(Next(s, RecordRead(id), cfg), k, deadline), cfg.breaker, deadline)
  {
    OwnPhase(s, Next(s, RecordRead(id), cfg), id, RecordLoaded(false, Stored(s, k)), k);
  }

  lemma RecordComputeProjects(s: State, id: nat, later: nat, cfg: Config, k: Key, deadline: int)
    requires SingleFlight(s) && Enabled(s, RecordCompute(id, later))
      && SingleFlight(Next(s, RecordCompute(id, later), cfg))
    requires s.attempts[id].key == k && NoSuccess(s, k)
    ensures KeyStep(ViewOf(s, k, deadline), ViewOf(Next(s, RecordCompute(id, later), cfg), k, deadline), cfg.breaker,
      deadline)
  {
    var t := Next(s, RecordCompute(id, later), cfg);
    OwnPhase(s, t, id, RecordSaving(false, B.AfterFailure(s.attempts[id].phase.s, cfg.breaker, s.now,
      s.now + later)), k);
  }

  lemma RecordSaveProjects(s: State, id: nat, cfg: Config, k: Key, deadline: int)
    requires SingleFlight(s) && Enabled(s, RecordSave(id)) && SingleFlight(Next(s, RecordSave(id), cfg))
      && s.attempts[id].key == k
    requires NoSuccess(s, k)
    ensures KeyStep(ViewOf(s, k, deadline), ViewOf(Next(s, RecordSave(id), cfg), k, deadline), cfg.breaker, deadline)
  {
    var t := Next(s, RecordSave(id), cfg);
    OwnPhase(s, t, id, t.attempts[id].phase, k);
  }

  lemma RecordFailsProjects(s: State, id: nat, cfg: Config, k: Key, deadline: int)
    requires SingleFlight(s) && Enabled(s, RecordFails(id)) && SingleFlight(Next(s, RecordFails(id), cfg))
      && s.attempts[id].key == k
    requires NoSuccess(s, k)
    ensures KeyStep(ViewOf(s, k, deadline), ViewOf(Next(s, RecordFails(id), cfg), k, deadline), cfg.breaker, deadline)
  {
    MovedView(s, id, Ended(false), k, deadline);
    LostView(s, id, k, deadline);
    var p := s.attempts[id].phase;
    assert (p.Recording? || p.RecordSaving?) && !p.success;
    assert Next(s, RecordFails(id), cfg) == Move(s, id, Ended(false)).(lost := s.lost + [k]);
  }

  /** The moves that keep an attempt calm. */
  lemma CalmIdle(s: State, t: State, id: nat, p: Phase, k: Key, deadline: int)
    requires SingleFlight(s) && SingleFlight(t) && id in s.attempts && s.attempts[id].key == k
    requires t == Move(s, id, p) && Calm(Some(p)) && Calm(Some(s.attempts[id].phase))
    ensures Idle(ViewOf(s, k, deadline), ViewOf(t, k, deadline))
  {
    OwnPhase(s, t, id, p, k);
  }

  lemma CalmMoveIdle(s: State, e: Event, cfg: Config, k: Key, deadline: int)
    requires SingleFlight(s) && Enabled(s, e) && (e.SecretsResolve? || e.SecretsFail? || e.GateFails? || e.LocalEnds?)
    requires SingleFlight(Next(s, e, cfg)) && s.attempts[e.id].key == k
    ensures Idle(ViewOf(s, k, deadline), ViewOf(Next(s, e, cfg), k, deadline))
  {
    var t := Next(s, e, cfg);
    match e
    case SecretsResolve(id) =>
      var p := match s.attempts[id].backend case Remote(_) => Gate case Stdio => Local case Unsupported => Ended(false);
      CalmIdle(s, t, id, p, k, deadline);
    case SecretsFail(id) => CalmIdle(s, t, id, Ended(false), k, deadline);
    case GateFails(id) => CalmIdle(s, t, id, Ended(false), k, deadline);
    case LocalEnds(id, ok) => CalmIdle(s, t, id, Ended(ok), k, deadline);
  }

  /** The events that move no attempt leave a key where it was, or between attempts. */
  lemma QuietIdle(s: State, e: Event, cfg: Config, k: Key, deadline: int)
    requires SingleFlight(s) && Enabled(s, e) && IsQuiet(e) && SingleFlight(Next(s, e, cfg))
    ensures Idle(ViewOf(s, k, deadline), ViewOf(Next(s, e, cfg), k, deadline))
  {
    assert PhaseOf(Next(s, e, cfg), k) == PhaseOf(s, k);
  }

  lemma SettleIdle(s: State, id: nat, cfg: Config, k: Key, deadline: int)
    requires SingleFlight(s) && Enabled(s, Settle(id)) && SingleFlight(Next(s, Settle(id), cfg))
    ensures Idle(ViewOf(s, k, deadline), ViewOf(Next(s, Settle(id), cfg), k, deadline))
  {
    var t := Next(s, Settle(id), cfg);
    if s.attempts[id].key == k {
      assert s.pool.pending[k] == id;
      assert PhaseOf(t, k) == None;
    } else {
      assert PhaseOf(t, k) == PhaseOf(s, k);
    }
  }

  lemma EnterIdle(s: State, key: Key, backend: Backend, configured: bool, cfg: Config, k: Key, deadline: int)
    requires SingleFlight(s) && SingleFlight(Enter(s, key, backend, configured, cfg))
    ensures Idle(ViewOf(s, k, deadline), ViewOf(Enter(s, key, backend, configured, cfg), k, deadline))
  {
    var t := Enter(s, key, backend, configured, cfg);
    if k in s.pool.pending {
      assert PhaseOf(t, k) == PhaseOf(s, k);
    }
  }

  lemma ArriveIdle(s: State, e: Event, cfg: Config, k: Key, deadline: int)
    requires SingleFlight(s) && Enabled(s, e) && (e.Arrive? || e.Resume?) && SingleFlight(Next(s, e, cfg))
    ensures Idle(ViewOf(s, k, deadline), ViewOf(Next(s, e, cfg), k, deadline))
  {
    if e.Resume? {
      var s1 := s.(callers := s.callers - {e.caller});
      assert ViewOf(s1, k, deadline) == ViewOf(s, k, deadline);
      EnterIdle(s1, s.callers[e.caller].key, e.backend, e.configured, cfg, k, deadline);
    } else if e.key !in s.pool.connections {
      EnterIdle(s, e.key, e.backend, e.configured, cfg, k, deadline);
    }
  }

  /** While its backend fails, a key only ever sees key steps. */
  lemma StepProjects(s: State, e: Event, cfg: Config, k: Key, deadline: int)
    requires SingleFlight(s) && Enabled(s, e) && SingleFlight(Next(s, e, cfg))
    requires NoSuccess(s, k) && !ConnectsUnder(s, e, k)
    ensures KeyStep(ViewOf(s, k, deadline), ViewOf(Next(s, e, cfg), k, deadline), cfg.breaker, deadline)
  {
    if IsMove(e) && s.attempts[Mover(e)].key != k {
      MoveIsMove(s, e, cfg);
      MoveTrace(s, e, cfg, k);
      OtherKeyIdle(s, Next(s, e, cfg), Mover(e), k, deadline);
    } else {
      match e
      case Arrive(_, _, _, _) => ArriveIdle(s, e, cfg, k, deadline);
      case Resume(_, _, _) => ArriveIdle(s, e, cfg, k, deadline);
      case Settle(id) => SettleIdle(s, id, cfg, k, deadline);
      case Decide(id) => DecideProjects(s, id, cfg, k, deadline);
      case GateRead(id) => GateReadProjects(s, id, cfg, k, deadline);
      case RemoteFails(id) => RemoteFailsProjects(s, id, cfg, k, deadline);
      case RecordRead(id) => RecordReadProjects(s, id, cfg, k, deadline);
      case RecordCompute(id, later) => RecordComputeProjects(s, id, later, cfg, k, deadline);
      case RecordSave(id) => RecordSaveProjects(s, id, cfg, k, deadline);
      case RecordFails(id) => RecordFailsProjects(s, id, cfg, k, deadline);
      case SecretsResolve(_) => CalmMoveIdle(s, e, cfg, k, deadline);
      case SecretsFail(_) => CalmMoveIdle(s, e, cfg, k, deadline);
      case GateFails(_) => CalmMoveIdle(s, e, cfg, k, deadline);
      case LocalEnds(_, _) => CalmMoveIdle(s, e, cfg, k, deadline);
      case _ => QuietIdle(s, e, cfg, k, deadline);
    }
  }

  /** The phase does not report a success. */
  predicate NoSuccessIn(p: Phase) {
    match p
    case Recording(ok) => !ok
    case RecordLoaded(ok, _) => !ok
    case RecordSaving(ok, _) => !ok
    case _ => true
  }

  lemma MoverNoSuccess(s: State, e: Event, cfg: Config)
    requires Enabled(s, e) && IsMove(e) && !e.RemoteConnects? && Mover(e) in s.attempts
    requires NoSuccessIn(s.attempts[Mover(e)].phase)
    ensures Mover(e) in Next(s, e, cfg).attempts && NoSuccessIn(Next(s, e, cfg).attempts[Mover(e)].phase)
  {
  }

  lemma StepNoSuccess(s: State, e: Event, cfg: Config, k: Key)
    requires Enabled(s, e) && NoSuccess(s, k) && !ConnectsUnder(s, e, k)
    ensures NoSuccess(Next(s, e, cfg), k)
  {
    if IsMove(e) {
      MoveIsMove(s, e, cfg);
      if s.attempts[Mover(e)].key == k {
        MoverNoSuccess(s, e, cfg);
      }
    }
  }

  // ---------------------------------------------------------- the bound

  /** A breaker file with `th` failures counted opened no earlier than the cooldowns allow. */
  predicate Aged(f: B.State, cfg: B.Config, t0: int, now: int) {
    && B.Consistent(f, cfg)
    && (f.openedAt.Some?
      ==> f.openedAt.value <= now && (f.failureCount - B.Threshold(cfg)) * cfg.cooldownMs <= f.openedAt.value - t0)
  }

  /** A remote connect is under way, or its failure is not yet recorded. */
  predicate InFlight(p: Option<Phase>) {
    p.Some? && (p.value.Connecting? || p.value.Recording? || p.value.RecordLoaded? || p.value.RecordSaving?)
  }

  /** An open circuit lets a connect through only a cooldown after it opened. */
  predicate CooledDown(f: B.State, cfg: B.Config, now: int) {
    f.openedAt.Some? ==> now - f.openedAt.value >= cfg.cooldownMs
  }

  predicate KeyInv(v: KeyView, cfg: B.Config, t0: int, deadline: int) {
    && t0 <= v.now && Aged(v.file, cfg, t0, v.now)
    && v.starts == v.file.failureCount + v.lost + (if InFlight(v.phase) then 1 else 0)
    && (v.phase.Some? && v.phase.value.GateLoaded? ==> v.phase.value.s == v.file)
    && (InFlight(v.phase) ==> CooledDown(v.file, cfg, v.now))
    && (v.phase.Some? && v.phase.value.RecordLoaded? ==> v.phase.value.s == v.file)
    && (v.phase.Some? && v.phase.value.RecordSaving? ==>
          Aged(v.phase.value.s, cfg, t0, v.now) && v.phase.value.s.failureCount == v.file.failureCount + 1)
    && v.early <= v.starts
    && (v.early - v.lost - B.Threshold(cfg)) * cfg.cooldownMs <= deadline - t0
  }

  lemma MulStep(a: int, c: int)
    ensures (a + 1) * c == a * c + c
  {
  }

  lemma MulMono(a: int, b: int, c: int)
    requires a <= b && 0 <= c
    ensures a * c <= b * c
  {
  }

  /** A recorded failure keeps the file as old as its count says. */
  lemma FailureAged(f: B.State, cfg: B.Config, t0: int, stamp: int, check: int)
    requires Aged(f, cfg, t0, stamp) && CooledDown(f, cfg, stamp) && t0 <= stamp <= check
    ensures Aged(B.AfterFailure(f, cfg, stamp, check), cfg, t0, check)
  {
    B.TransitionsConsistent(f, cfg, stamp, check);
    MulStep(f.failureCount - B.Threshold(cfg), cfg.cooldownMs);
  }

  /** A connect begun by the deadline fits under the cooldowns that have passed. */
  lemma StartFits(v: KeyView, cfg: B.Config, t0: int, deadline: int)
    requires KeyInv(v, cfg, t0, deadline) && !InFlight(v.phase) && 0 <= cfg.cooldownMs
    requires v.now <= deadline && B.ShouldAttempt(v.file, cfg, v.now)
    ensures (v.early + 1 - v.lost - B.Threshold(cfg)) * cfg.cooldownMs <= deadline - t0
  {
    var th := B.Threshold(cfg);
    if v.file.openedAt.Some? {
      MulStep(v.file.failureCount - th, cfg.cooldownMs);
      MulMono(v.early + 1 - v.lost - th, v.file.failureCount - th + 1, cfg.cooldownMs);
    } else {
      MulMono(v.early + 1 - v.lost - th, 0, cfg.cooldownMs);
    }
  }

  lemma KeyStepInv(a: KeyView, b: KeyView, cfg: B.Config, t0: int, deadline: int)
    requires KeyInv(a, cfg, t0, deadline) && KeyStep(a, b, cfg, deadline) && 0 <= cfg.cooldownMs
    ensures KeyInv(b, cfg, t0, deadline)
  {
    if a.phase.Some? && a.phase.value.GateLoaded? && B.ShouldAttempt(a.file, cfg, a.now) && a.now <= deadline {
      StartFits(a, cfg, t0, deadline);
    }
    if a.phase.Some? && a.phase.value.RecordLoaded? && b.phase.Some? && b.phase.value.RecordSaving? {
      FailureAged(a.file, cfg, t0, a.now, b.now);
    }
    MulMono(b.early - b.lost - B.Threshold(cfg), b.early - a.lost - B.Threshold(cfg), cfg.cooldownMs);
  }

  /** No remote connect under the key succeeds in the run. */
  ghost predicate NeverConnects(start: State, events: seq<Event>, cfg: Config, k: Key)
    requires Runs(start, events, cfg)
    decreases |events|
  {
    events != [] ==>
      && NeverConnects(start, events[..|events| - 1], cfg, k)
      && !ConnectsUnder(After(start, events[..|events| - 1], cfg), events[|events| - 1], k)
  }

  predicate Fresh(f: B.State) {
    f.circuit == B.Closed && f.failureCount == 0 && f.openedAt == None
  }

  lemma {:induction false} AlwaysKeyInv(start: State, events: seq<Event>, cfg: Config, k: Key, deadline: int)
    requires Runs(start, events, cfg) && NeverConnects(start, events, cfg, k)
    requires Fresh(Stored(start, k)) && start.now <= deadline && 0 <= cfg.breaker.cooldownMs
    ensures SingleFlight(After(start, events, cfg)) && NoSuccess(After(start, events, cfg), k)
    ensures KeyInv(ViewOf(After(start, events, cfg), k, deadline), cfg.breaker, start.now, deadline)
    decreases |events|
  {
    if events == [] {
      StartInv(start, k, cfg.breaker, deadline);
    } else {
      var front, e := events[..|events| - 1], events[|events| - 1];
      AlwaysKeyInv(start, front, cfg, k, deadline);
      var s := After(start, front, cfg);
      StepSingleFlight(s, e, cfg);
      StepNoSuccess(s, e, cfg, k);
      StepProjects(s, e, cfg, k, deadline);
      KeyStepInv(ViewOf(s, k, deadline), ViewOf(Next(s, e, cfg), k, deadline), cfg.breaker, start.now, deadline);
    }
  }

  lemma StartInv(start: State, k: Key, cfg: B.Config, deadline: int)
    requires IsStart(start) && Fresh(Stored(start, k)) && start.now <= deadline && 0 <= cfg.cooldownMs
    ensures SingleFlight(start) && KeyInv(ViewOf(start, k, deadline), cfg, start.now, deadline)
  {
    var below: int := 0 - B.Threshold(cfg);
    MulMono(below, 0, cfg.cooldownMs);
  }

  lemma DivBound(m: int, t: nat, c: nat)
    requires 0 < c && m * c <= t
    ensures m <= t / c
  {
    if m > t / c {
      MulStep(t / c, c);
      MulMono(t / c + 1, m, c);
    }
  }

  /**
    Against a backend that always fails, the remote connects one daemon starts under
    a key in its first `window` milliseconds are at most the threshold plus one for
    each whole cooldown, plus one for each failure whose record was lost. Attempts of
    a key never overlap, however callers interleave: that is what makes this true.
   */
  lemma DeadBackendBound(start: State, events: seq<Event>, cfg: Config, k: Key, window: nat)
    requires Runs(start, events, cfg) && NeverConnects(start, events, cfg, k)
    requires Fresh(Stored(start, k)) && 0 < cfg.breaker.cooldownMs
    ensures
      var s := After(start, events, cfg);
      CountEarly(s.started, k, start.now + window)
        <= B.Threshold(cfg.breaker) + window / cfg.breaker.cooldownMs + CountLost(s.lost, k)
  {
    AlwaysKeyInv(start, events, cfg, k, start.now + window);
    var v := ViewOf(After(start, events, cfg), k, start.now + window);
    DivBound(v.early - v.lost - B.Threshold(cfg.breaker), window, cfg.breaker.cooldownMs);
  }

  /** With the configuration the daemon uses and every record saved: 5 and one a minute. */
  lemma DefaultDeadBackendBound(start: State, events: seq<Event>, cfg: Config, k: Key, window: nat)
    requires cfg.breaker == B.DEFAULT_CONFIG
    requires Runs(start, events, cfg) && NeverConnects(start, events, cfg, k)
    requires Fresh(Stored(start, k)) && After(start, events, cfg).lost == []
    ensures CountEarly(After(start, events, cfg).started, k, start.now + window) <= 5 + window / 60_000
  {
    DeadBackendBound(start, events, cfg, k, window);
  }
}
