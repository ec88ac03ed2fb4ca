/**
  One daemon: callers of `getConnection`, the attempts it starts, and the breaker
  files those attempts drive, as steps between `await`s that interleave freely.
 */
module PoolRuns {
  import opened PoolView
  import B = CircuitBreaker

  datatype Backend = Remote(fallback: bool) | Stdio | Unsupported

  /** Where an attempt is; the breaker states are the ones it has read or is about to save. */
  datatype Phase =
    | Resolving
    | Gate
    | GateLoaded(s: B.State)
    | Connecting
    | Recording(success: bool)
    | RecordLoaded(success: bool, s: B.State)
    | RecordSaving(success: bool, s: B.State)
    | Local
    | Ended(ok: bool)

  datatype Attempt = Attempt(key: Key, backend: Backend, phase: Phase)

  datatype Caller = Checking(key: Key) | Closing(key: Key)

  datatype Config = Config(maxSize: int, breaker: B.Config)

  /** An HTTP or WebSocket connect begun under a key. */
  datatype Start = Start(key: Key, at: int)

  datatype State = State(
    now: int,
    pool: View<nat>,
    attempts: map<nat, Attempt>,        // not yet settled
    callers: map<nat, Caller>,
    files: map<Key, B.State>,
    nextId: nat,
    started: seq<Start>,
    lost: seq<Key>                      // failures whose record never reached the file
  )

  function Stored(s: State, key: Key): B.State {
    if key in s.files then s.files[key] else B.INITIAL
  }

  datatype Event =
    | Tick(d: nat)
    | Arrive(caller: nat, key: Key, backend: Backend, configured: bool)
    | Healthy(caller: nat)
    | Stale(caller: nat)
    | Resume(caller: nat, backend: Backend, configured: bool)
    | Evict(key: Key)
    | SecretsResolve(id: nat)
    | SecretsFail(id: nat)
    | GateRead(id: nat)
    | GateFails(id: nat)
    | Decide(id: nat)
    | RemoteFails(id: nat)
    | RemoteConnects(id: nat)
    | RecordRead(id: nat)
    | RecordCompute(id: nat, later: nat)
    | RecordSave(id: nat)
    | RecordFails(id: nat)
    | LocalEnds(id: nat, ok: bool)
    | Settle(id: nat)

  predicate InPhase(s: State, id: nat, p: Phase -> bool) {
    id in s.attempts && p(s.attempts[id].phase)
  }

  predicate Enabled(s: State, e: Event) {
    match e
    case Tick(_) => true
    case Arrive(c, _, _, _) => c !in s.callers
    case Healthy(c) => c in s.callers && s.callers[c].Checking?
    case Stale(c) => c in s.callers && s.callers[c].Checking?
    case Resume(c, _, _) => c in s.callers && s.callers[c].Closing?
    case Evict(_) => true
    case SecretsResolve(id) => InPhase(s, id, (p: Phase) => p.Resolving?)
    case SecretsFail(id) => InPhase(s, id, (p: Phase) => p.Resolving?)
    case GateRead(id) => InPhase(s, id, (p: Phase) => p.Gate?)
    case GateFails(id) => InPhase(s, id, (p: Phase) => p.Gate?)
    case Decide(id) => InPhase(s, id, (p: Phase) => p.GateLoaded?)
    case RemoteFails(id) => InPhase(s, id, (p: Phase) => p.Connecting?)
    case RemoteConnects(id) => InPhase(s, id, (p: Phase) => p.Connecting?)
    case RecordRead(id) => InPhase(s, id, (p: Phase) => p.Recording?)
    case RecordCompute(id, _) => InPhase(s, id, (p: Phase) => p.RecordLoaded?)
    case RecordSave(id) => InPhase(s, id, (p: Phase) => p.RecordSaving?)
    case RecordFails(id) => InPhase(s, id, (p: Phase) => p.Recording? || p.RecordSaving?)
    case LocalEnds(id, _) => InPhase(s, id, (p: Phase) => p.Local?)
    case Settle(id) => InPhase(s, id, (p: Phase) => p.Ended?)
  }

  function Move(s: State, id: nat, p: Phase): State
    requires id in s.attempts
  {
    s.(attempts := s.attempts[id := s.attempts[id].(phase := p)])
  }

  function HasFallback(b: Backend): bool {
    b.Remote? && b.fallback
  }

  /** After a failed or refused remote connect: the fallback, or the error. */
  function FallBack(s: State, id: nat): State
    requires id in s.attempts
  {
    Move(s, id, if HasFallback(s.attempts[id].backend) then Local else Ended(false))
  }

  /** `getConnection` from its look at `pending` on. */
  function Enter(s: State, key: Key, backend: Backend, configured: bool, cfg: Config): State {
    var (pool, r) := Admit(s.pool, key, cfg.maxSize, configured, s.nextId);
    if r.Started? then
      s.(pool := pool, attempts := s.attempts[s.nextId := Attempt(key, backend, Resolving)], nextId := s.nextId + 1)
    else s.(pool := pool)
  }

  function Next(s: State, e: Event, cfg: Config): State
    requires Enabled(s, e)
  {
    match e
    case Tick(d) => s.(now := s.now + d)
    case Arrive(c, key, backend, configured) =>
      if key in s.pool.connections then s.(callers := s.callers[c := Checking(key)])
      else Enter(s, key, backend, configured, cfg)
    case Healthy(c) => s.(callers := s.callers - {c})
    case Stale(c) =>
      var key := s.callers[c].key;
      s.(pool := s.pool.(connections := s.pool.connections - {key}), callers := s.callers[c := Closing(key)])
    case Resume(c, backend, configured) =>
      Enter(s.(callers := s.callers - {c}), s.callers[c].key, backend, configured, cfg)
    case Evict(key) => s.(pool := s.pool.(connections := s.pool.connections - {key}))
    case SecretsResolve(id) =>
      (match s.attempts[id].backend
       case Remote(_) => Move(s, id, Gate)
       case Stdio => Move(s, id, Local)
       case Unsupported => Move(s, id, Ended(false)))
    case SecretsFail(id) => Move(s, id, Ended(false))
    case GateRead(id) => Move(s, id, GateLoaded(Stored(s, s.attempts[id].key)))
    case GateFails(id) => Move(s, id, Ended(false))
    case Decide(id) =>
      if B.ShouldAttempt(s.attempts[id].phase.s, cfg.breaker, s.now)
      then Move(s, id, Connecting).(started := s.started + [Start(s.attempts[id].key, s.now)])
      else FallBack(s, id)
    case RemoteFails(id) => Move(s, id, Recording(false))
    case RemoteConnects(id) => Move(s, id, Recording(true))
    case RecordRead(id) => Move(s, id, RecordLoaded(s.attempts[id].phase.success, Stored(s, s.attempts[id].key)))
    case RecordCompute(id, later) =>
      var p := s.attempts[id].phase;
      var s1 := Move(s, id, RecordSaving(p.success,
        if p.success then B.AfterSuccess(p.s, s.now) else B.AfterFailure(p.s, cfg.breaker, s.now, s.now + later)));
      s1.(now := s.now + later)
    case RecordSave(id) =>
      var p := s.attempts[id].phase;
      var s1 := s.(files := s.files[s.attempts[id].key := p.s]);
      if p.success then Move(s1, id, Ended(true)) else FallBack(s1, id)
    case RecordFails(id) =>
      // a failed success record lands in the same catch as a failed connect
      if s.attempts[id].phase.success then Move(s, id, Recording(false))
      else Move(s, id, Ended(false)).(lost := s.lost + [s.attempts[id].key])
    case LocalEnds(id, ok) => Move(s, id, Ended(ok))
    case Settle(id) =>
      var a := s.attempts[id];
      s.(attempts := s.attempts - {id},
         pool := if a.phase.ok then Connected(s.pool, a.key, Entry(id, a.key.service)) else Failed(s.pool, a.key))
  }

  /** The state of a daemon before its first request. */
  ghost predicate IsStart(s: State) {
    s.pool == View(map[], map[]) && s.attempts == map[] && s.callers == map[] && s.started == [] && s.lost == []
  }

  /** Each event in turn is enabled in the state the earlier ones lead to. */
  ghost predicate Runs(start: State, events: seq<Event>, cfg: Config)
    decreases |events|, 0
  {
    if events == [] then IsStart(start)
    else Runs(start, events[..|events| - 1], cfg) && Enabled(After(start, events[..|events| - 1], cfg),
      events[|events| - 1])
  }

  ghost function After(start: State, events: seq<Event>, cfg: Config): State
    requires Runs(start, events, cfg)
    decreases |events|, 1
  {
    if events == [] then start else Next(After(start, events[..|events| - 1], cfg), events[|events| - 1], cfg)
  }

  // ---------------------------------------------------------- single flight

  /** `pending` and the unsettled attempts point at each other. */
  predicate SingleFlight(s: State) {
    && (forall k :: k in s.pool.pending ==> s.pool.pending[k] in s.attempts && s.attempts[s.pool.pending[k]].key == k)
    && (forall id :: id in s.attempts ==>
          s.attempts[id].key in s.pool.pending && s.pool.pending[s.attempts[id].key] == id && id < s.nextId)
  }

  lemma MoveSingleFlight(s: State, id: nat, p: Phase)
    requires SingleFlight(s) && id in s.attempts
    ensures SingleFlight(Move(s, id, p))
  {
  }

  lemma EnterSingleFlight(s: State, key: Key, backend: Backend, configured: bool, cfg: Config)
    requires SingleFlight(s)
    ensures SingleFlight(Enter(s, key, backend, configured, cfg))
  {
  }

  lemma SettleSingleFlight(s: State, id: nat, cfg: Config)
    requires SingleFlight(s) && Enabled(s, Settle(id))
    ensures SingleFlight(Next(s, Settle(id), cfg))
  {
    var t := Next(s, Settle(id), cfg);
    var key := s.attempts[id].key;
    assert t.pool.pending == s.pool.pending - {key} && t.attempts == s.attempts - {id};
  }

  lemma SameFlights(s: State, t: State)
    requires SingleFlight(s) && t.pool.pending == s.pool.pending && t.attempts == s.attempts && t.nextId == s.nextId
    ensures SingleFlight(t)
  {
  }

  /** The events that change neither `pending` nor the attempts. */
  predicate IsQuiet(e: Event) {
    e.Tick? || e.Healthy? || e.Stale? || e.Evict?
  }

  /** The events that move one attempt to another phase. */
  predicate IsMove(e: Event) {
    !IsQuiet(e) && !e.Arrive? && !e.Resume? && !e.Settle?
  }

  function Mover(e: Event): nat
    requires IsMove(e)
  {
    e.id
  }

  /** A moving event changes the phase of its attempt and no other pool state. */
  lemma MoveIsMove(s: State, e: Event, cfg: Config)
    requires IsMove(e) && Enabled(s, e)
    ensures
      var t := Next(s, e, cfg);
      && t.pool == s.pool && t.nextId == s.nextId && t.callers == s.callers
      && Mover(e) in t.attempts
      && t.attempts == s.attempts[Mover(e) := s.attempts[Mover(e)].(phase := t.attempts[Mover(e)].phase)]
  {
  }

  lemma StepSingleFlight(s: State, e: Event, cfg: Config)
    requires SingleFlight(s) && Enabled(s, e)
    ensures SingleFlight(Next(s, e, cfg))
  {
    var t := Next(s, e, cfg);
    if IsQuiet(e) {
      SameFlights(s, t);
    } else if IsMove(e) {
      MoveIsMove(s, e, cfg);
      MoveSingleFlight(s, Mover(e), t.attempts[Mover(e)].phase);
      SameFlights(Move(s, Mover(e), t.attempts[Mover(e)].phase), t);
    } else if e.Settle? {
      SettleSingleFlight(s, e.id, cfg);
    } else if e.Arrive? {
      EnterSingleFlight(s, e.key, e.backend, e.configured, cfg);
      if e.key in s.pool.connections {
        SameFlights(s, t);
      }
    } else {
      var s1 := s.(callers := s.callers - {e.caller});
      SameFlights(s, s1);
      EnterSingleFlight(s1, s.callers[e.caller].key, e.backend, e.configured, cfg);
    }
  }

  lemma {:induction false} AlwaysSingleFlight(start: State, events: seq<Event>, cfg: Config)
    requires Runs(start, events, cfg)
    ensures SingleFlight(After(start, events, cfg))
    decreases |events|
  {
    if events != [] {
      var front := events[..|events| - 1];
      AlwaysSingleFlight(start, front, cfg);
      StepSingleFlight(After(start, front, cfg), events[|events| - 1], cfg);
    }
  }

  /**
    In every interleaving, a key is pending exactly when an attempt for it is
    unsettled, and no key ever has two.
   */
  lemma AtMostOneAttemptPerKey(start: State, events: seq<Event>, cfg: Config)
    requires Runs(start, events, cfg)
    ensures
      var s := After(start, events, cfg);
      && (forall k :: k in s.pool.pending <==> exists id :: id in s.attempts && s.attempts[id].key == k)
      && (forall i, j :: i in s.attempts && j in s.attempts && s.attempts[i].key == s.attempts[j].key ==> i == j)
  {
    AlwaysSingleFlight(start, events, cfg);
  }
}
