/**
  The dead-backend bound of PoolBounds is reached: runs that fail as often as it allows,
  first with records that are lost, then up to the threshold, then once each cooldown.
 */
module DeadBackendRuns {
  import opened Wrappers
  import opened PoolView
  import opened PoolRuns
  import opened PoolBounds
  import opened PoolCapacity
  import B = CircuitBreaker

  /** The one attempt of the daemon, in a phase. */
  function Aloft(s: State, id: nat, key: Key, p: Phase): State {
    s.(pool := View(map[], map[key := id]), attempts := map[id := Attempt(key, Remote(false), p)])
  }

  /** No attempt is under way and nothing is connected. */
  predicate AtRest(s: State) {
    s.pool == View(map[], map[]) && s.attempts == map[] && s.callers == map[]
  }

  /** A run in which the key's backend never answers. */
  ghost predicate Dead(events: seq<Event>, cfg: Config, key: Key) {
    Runs(Empty(), events, cfg) && NeverConnects(Empty(), events, cfg, key)
  }

  lemma Continue(events: seq<Event>, cfg: Config, key: Key, e: Event)
    requires Dead(events, cfg, key) && !e.RemoteConnects? && Enabled(After(Empty(), events, cfg), e)
    ensures Dead(events + [e], cfg, key)
    ensures After(Empty(), events + [e], cfg) == Next(After(Empty(), events, cfg), e, cfg)
  {
    assert (events + [e])[..|events|] == events;
  }

  /** The attempt moves to another phase, with the rest of the state as given. */
  lemma Advance(events: seq<Event>, cfg: Config, key: Key, e: Event, s: State, id: nat, p: Phase, s': State, p': Phase)
    requires Dead(events, cfg, key) && After(Empty(), events, cfg) == Aloft(s, id, key, p)
    requires IsMove(e) && !e.RemoteConnects? && Enabled(Aloft(s, id, key, p), e)
    requires Next(Aloft(s, id, key, p), e, cfg) == Move(Aloft(s', id, key, p), id, p')
    ensures Dead(events + [e], cfg, key) && After(Empty(), events + [e], cfg) == Aloft(s', id, key, p')
  {
    Continue(events, cfg, key, e);
    assert Move(Aloft(s', id, key, p), id, p') == Aloft(s', id, key, p');
  }

  /** The state once the attempt has begun its connect. */
  function Begun(s: State, key: Key): State {
    s.(started := s.started + [Start(key, s.now)], nextId := s.nextId + 1)
  }

  /** A request arrives, starts an attempt and reads the breaker file. */
  lemma Arrives(events: seq<Event>, cfg: Config, key: Key) returns (more: seq<Event>)
    requires Dead(events, cfg, key) && AtRest(After(Empty(), events, cfg)) && 1 <= cfg.maxSize
    ensures Dead(more, cfg, key)
    ensures
      var s := After(Empty(), events, cfg);
      After(Empty(), more, cfg) == Aloft(s.(nextId := s.nextId + 1), s.nextId, key, GateLoaded(Stored(s, key)))
  {
    var s := After(Empty(), events, cfg);
    var id, s1 := s.nextId, s.(nextId := s.nextId + 1);
    Continue(events, cfg, key, Arrive(0, key, Remote(false), true));
    more := events + [Arrive(0, key, Remote(false), true)];
    assert After(Empty(), more, cfg) == Aloft(s1, id, key, Resolving);
    Advance(more, cfg, key, SecretsResolve(id), s1, id, Resolving, s1, Gate);
    more := more + [SecretsResolve(id)];
    Advance(more, cfg, key, GateRead(id), s1, id, Gate, s1, GateLoaded(Stored(s, key)));
    more := more + [GateRead(id)];
  }

  /** The breaker lets the connect through, and it fails. */
  lemma ConnectFails(events: seq<Event>, cfg: Config, key: Key) returns (more: seq<Event>)
    requires Dead(events, cfg, key) && AtRest(After(Empty(), events, cfg)) && 1 <= cfg.maxSize
    requires B.ShouldAttempt(Stored(After(Empty(), events, cfg), key), cfg.breaker, After(Empty(), events, cfg).now)
    ensures Dead(more, cfg, key)
    ensures
      var s := After(Empty(), events, cfg);
      After(Empty(), more, cfg) == Aloft(Begun(s, key), s.nextId, key, Recording(false))
  {
    var s := After(Empty(), events, cfg);
    var id, s1 := s.nextId, s.(nextId := s.nextId + 1);
    more := Arrives(events, cfg, key);
    Advance(more, cfg, key, Decide(id), s1, id, GateLoaded(Stored(s, key)), Begun(s, key), Connecting);
    more := more + [Decide(id)];
    Advance(more, cfg, key, RemoteFails(id), Begun(s, key), id, Connecting, Begun(s, key), Recording(false));
    more := more + [RemoteFails(id)];
  }

  lemma Settles(events: seq<Event>, cfg: Config, key: Key, s: State, id: nat) returns (more: seq<Event>)
    requires Dead(events, cfg, key) && After(Empty(), events, cfg) == Aloft(s, id, key, Ended(false))
    ensures Dead(more, cfg, key) && After(Empty(), more, cfg) == s.(pool := View(map[], map[]), attempts := map[])
  {
    Continue(events, cfg, key, Settle(id));
    more := events + [Settle(id)];
    assert map[key := id] - {key} == map[];
    assert map[id := Attempt(key, Remote(false), Ended(false))] - {id} == map[];
  }

  /** A failed connect whose record is saved. */
  lemma Recorded(events: seq<Event>, cfg: Config, key: Key) returns (more: seq<Event>)
    requires Dead(events, cfg, key) && AtRest(After(Empty(), events, cfg)) && 1 <= cfg.maxSize
    requires B.ShouldAttempt(Stored(After(Empty(), events, cfg), key), cfg.breaker, After(Empty(), events, cfg).now)
    ensures Dead(more, cfg, key)
    ensures
      var s := After(Empty(), events, cfg);
      After(Empty(), more, cfg)
        == Begun(s, key).(files := s.files[key := B.AfterFailure(Stored(s, key), cfg.breaker, s.now, s.now)])
  {
    var s := After(Empty(), events, cfg);
    var id, file, s1 := s.nextId, Stored(s, key), Begun(s, key);
    var file' := B.AfterFailure(file, cfg.breaker, s.now, s.now);
    var s2 := s1.(files := s.files[key := file']);
    more := ConnectFails(events, cfg, key);
    Advance(more, cfg, key, RecordRead(id), s1, id, Recording(false), s1, RecordLoaded(false, file));
    more := more + [RecordRead(id)];
    Advance(more, cfg, key, RecordCompute(id, 0), s1, id, RecordLoaded(false, file), s1, RecordSaving(false, file'));
    more := more + [RecordCompute(id, 0)];
    Advance(more, cfg, key, RecordSave(id), s1, id, RecordSaving(false, file'), s2, Ended(false));
    more := more + [RecordSave(id)];
    more := Settles(more, cfg, key, s2, id);
  }

  /** A failed connect whose record is lost. */
  lemma NotRecorded(events: seq<Event>, cfg: Config, key: Key) returns (more: seq<Event>)
    requires Dead(events, cfg, key) && AtRest(After(Empty(), events, cfg)) && 1 <= cfg.maxSize
    requires B.ShouldAttempt(Stored(After(Empty(), events, cfg), key), cfg.breaker, After(Empty(), events, cfg).now)
    ensures Dead(more, cfg, key)
    ensures
      var s := After(Empty(), events, cfg);
      After(Empty(), more, cfg) == Begun(s, key).(lost := s.lost + [key])
  {
    var s := After(Empty(), events, cfg);
    var id, s1 := s.nextId, Begun(s, key);
    var s2 := s1.(lost := s.lost + [key]);
    more := ConnectFails(events, cfg, key);
    Advance(more, cfg, key, RecordFails(id), s1, id, Recording(false), s2, Ended(false));
    more := more + [RecordFails(id)];
    more := Settles(more, cfg, key, s2, id);
  }

  /** The breaker file after so many recorded failures, the last of them just now. */
  predicate Counted(file: B.State, cfg: B.Config, recorded: nat, now: int) {
    && file.failureCount == recorded
    && if recorded < B.Threshold(cfg) then file.circuit == B.Closed
       else file.circuit == B.Open && file.openedAt == Some(now)
  }

  /** A daemon at rest after so many recorded and lost failures, all of them by the deadline. */
  ghost predicate TriedAt(s: State, cfg: Config, key: Key, deadline: int, recorded: nat, lost: nat, last: int) {
    && AtRest(s) && Counted(Stored(s, key), cfg.breaker, recorded, last)
    && CountEarly(s.started, key, deadline) == recorded + lost && CountLost(s.lost, key) == lost
  }

  /** A run that leads there, to the moment of the last failure. */
  ghost predicate Tried(events: seq<Event>, cfg: Config, key: Key, deadline: int, recorded: nat, lost: nat, now: int) {
    && Dead(events, cfg, key) && After(Empty(), events, cfg).now == now
    && TriedAt(After(Empty(), events, cfg), cfg, key, deadline, recorded, lost, now)
  }

  lemma {:induction false} LoseRecords(cfg: Config, key: Key, deadline: nat, lost: nat) returns (events: seq<Event>)
    requires 1 <= cfg.maxSize
    ensures Tried(events, cfg, key, deadline, 0, lost, 0)
  {
    events := [];
    if lost != 0 {
      events := LoseRecords(cfg, key, deadline, lost - 1);
      var s := After(Empty(), events, cfg);
      CountAppend(s.started, Start(key, 0), key, deadline);
      LostAppend(s.lost, key, key);
      events := NotRecorded(events, cfg, key);
    }
  }

  lemma CountsOn(file: B.State, cfg: B.Config, recorded: nat, now: int, wait: nat)
    requires Counted(file, cfg, recorded, now)
    requires wait == if recorded < B.Threshold(cfg) then 0 else cfg.cooldownMs
    ensures B.ShouldAttempt(file, cfg, now + wait)
    ensures Counted(B.AfterFailure(file, cfg, now + wait, now + wait), cfg, recorded + 1, now + wait)
  {
  }

  /** The state after one more recorded failure. */
  function Failed(s: State, cfg: Config, key: Key): State {
    Begun(s, key).(files := s.files[key := B.AfterFailure(Stored(s, key), cfg.breaker, s.now, s.now)])
  }

  lemma FailedTried(s: State, cfg: Config, key: Key, deadline: int, recorded: nat, lost: nat, last: int, wait: nat)
    requires TriedAt(s, cfg, key, deadline, recorded, lost, last) && s.now == last + wait <= deadline
    requires wait == if recorded < B.Threshold(cfg.breaker) then 0 else cfg.breaker.cooldownMs
    ensures B.ShouldAttempt(Stored(s, key), cfg.breaker, s.now)
    ensures TriedAt(Failed(s, cfg, key), cfg, key, deadline, recorded + 1, lost, last + wait)
  {
    CountsOn(Stored(s, key), cfg.breaker, recorded, last, wait);
    CountAppend(s.started, Start(key, s.now), key, deadline);
  }

  /** One more recorded failure, at once or when the cooldown has passed. */
  lemma FailOnce(before: seq<Event>, cfg: Config, key: Key, deadline: int, recorded: nat, lost: nat, now: int,
      wait: nat)
    returns (events: seq<Event>)
    requires Tried(before, cfg, key, deadline, recorded, lost, now) && 1 <= cfg.maxSize && now + wait <= deadline
    requires wait == if recorded < B.Threshold(cfg.breaker) then 0 else cfg.breaker.cooldownMs
    ensures Tried(events, cfg, key, deadline, recorded + 1, lost, now + wait)
  {
    var s := After(Empty(), before, cfg);
    Continue(before, cfg, key, Tick(wait));
    var waited := before + [Tick(wait)];
    var t := s.(now := s.now + wait);
    assert After(Empty(), waited, cfg) == t;
    assert TriedAt(t, cfg, key, deadline, recorded, lost, now);
    FailedTried(t, cfg, key, deadline, recorded, lost, now, wait);
    events := Recorded(waited, cfg, key);
    assert After(Empty(), events, cfg) == Failed(t, cfg, key);
  }

  lemma {:induction false} ReachThreshold(cfg: Config, key: Key, deadline: nat, recorded: nat, lost: nat)
    returns (events: seq<Event>)
    requires 1 <= cfg.maxSize && recorded <= B.Threshold(cfg.breaker)
    ensures Tried(events, cfg, key, deadline, recorded, lost, 0)
  {
    if recorded == 0 {
      events := LoseRecords(cfg, key, deadline, lost);
    } else {
      events := ReachThreshold(cfg, key, deadline, recorded - 1, lost);
      events := FailOnce(events, cfg, key, deadline, recorded - 1, lost, 0, 0);
    }
  }

  lemma {:induction false} ProbeEachCooldown(cfg: Config, key: Key, deadline: nat, lost: nat, probes: nat)
    returns (events: seq<Event>)
    requires 1 <= cfg.maxSize && 0 < cfg.breaker.cooldownMs && probes * cfg.breaker.cooldownMs <= deadline
    ensures Tried(events, cfg, key, deadline, B.Threshold(cfg.breaker) + probes, lost, probes * cfg.breaker.cooldownMs)
  {
    var th, c := B.Threshold(cfg.breaker), cfg.breaker.cooldownMs;
    if probes == 0 {
      events := ReachThreshold(cfg, key, deadline, th, lost);
    } else {
      var at := (probes - 1) * c;
      assert probes * c == at + c by {
        MulStep(probes - 1, c);
      }
      events := ProbeEachCooldown(cfg, key, deadline, lost, probes - 1);
      events := FailOnce(events, cfg, key, deadline, th + probes - 1, lost, at, c);
    }
  }

  /**
    For every configuration, window and number of lost records some run starts exactly as
    many connects in the window as the bound allows: each lost record costs one more, and
    with none lost the bound is still reached.
   */
  lemma DeadBackendBoundIsReached(cfg: Config, key: Key, window: nat, lost: nat)
    requires 1 <= cfg.maxSize && 0 < cfg.breaker.cooldownMs
    ensures exists events ::
      && Runs(Empty(), events, cfg) && NeverConnects(Empty(), events, cfg, key)
      && var s := After(Empty(), events, cfg);
         && CountLost(s.lost, key) == lost
         && CountEarly(s.started, key, window) == B.Threshold(cfg.breaker) + window / cfg.breaker.cooldownMs + lost
  {
    var events := ProbeEachCooldown(cfg, key, window, lost, window / cfg.breaker.cooldownMs);
    assert Tried(events, cfg, key, window, B.Threshold(cfg.breaker) + window / cfg.breaker.cooldownMs, lost,
                 (window / cfg.breaker.cooldownMs) * cfg.breaker.cooldownMs);
  }
}
