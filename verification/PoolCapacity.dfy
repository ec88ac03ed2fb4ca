/** The capacity bound of PoolBounds is reached: runs that fill the pool and then race. */
module PoolCapacity {
  import opened PoolView
  import opened PoolRuns
  import opened PoolBounds
  import B = CircuitBreaker

  function KeyAt(i: nat): Key {
    Bare(seq(i, _ => 'x'))
  }

  function Empty(): State {
    State(0, View(map[], map[]), map[], map[], map[], 0, [], [])
  }

  /** So many keys connected and in flight, all with short names. */
  ghost predicate Holds(s: State, connected: nat, flying: nat) {
    && s.callers == map[]
    && (forall key :: key in s.pool.connections || key in s.pool.pending ==> |key.service| < connected + flying)
    && s.pool.connections.Keys !! s.pool.pending.Keys
    && |s.pool.connections| == connected && |s.pool.pending| == flying
    && SingleFlight(s)
  }

  /** A run to such a state. */
  ghost predicate Filled(events: seq<Event>, cfg: Config, connected: nat, flying: nat, k: nat) {
    && Runs(Empty(), events, cfg) && InFlightAtMost(Empty(), events, cfg, k)
    && Holds(After(Empty(), events, cfg), connected, flying)
  }

  lemma Extend(events: seq<Event>, cfg: Config, e: Event, k: nat)
    requires Runs(Empty(), events, cfg) && InFlightAtMost(Empty(), events, cfg, k)
    requires Enabled(After(Empty(), events, cfg), e)
    requires |Next(After(Empty(), events, cfg), e, cfg).pool.pending| <= k
    ensures Runs(Empty(), events + [e], cfg) && InFlightAtMost(Empty(), events + [e], cfg, k)
    ensures After(Empty(), events + [e], cfg) == Next(After(Empty(), events, cfg), e, cfg)
  {
    assert (events + [e])[..|events|] == events;
  }

  lemma OnlyKey(m: map<Key, nat>, key: Key)
    requires |m| == 1 && key in m
    ensures m.Keys == {key}
  {
    assert |m.Keys - {key}| == 0;
  }

  /** A request under a new name is admitted. */
  lemma ArriveHolds(s: State, cfg: Config, connected: nat, flying: nat)
    requires Holds(s, connected, flying) && connected < cfg.maxSize
    ensures
      var key := KeyAt(connected + flying);
      var e := Arrive(0, key, Stdio, true);
      && Enabled(s, e) && s.nextId !in s.attempts && Holds(Next(s, e, cfg), connected, flying + 1)
      && Next(s, e, cfg).attempts == s.attempts[s.nextId := Attempt(key, Stdio, Resolving)]
      && Next(s, e, cfg).pool == s.pool.(pending := s.pool.pending[key := s.nextId])
  {
    var key := KeyAt(connected + flying);
    assert |key.service| == connected + flying;
    assert key !in s.pool.connections && key !in s.pool.pending;
    var t := Next(s, Arrive(0, key, Stdio, true), cfg);
    assert t.pool == s.pool.(pending := s.pool.pending[key := s.nextId]);
    assert t.pool.pending.Keys == s.pool.pending.Keys + {key};
    StepSingleFlight(s, Arrive(0, key, Stdio, true), cfg);
  }

  /** One more key is admitted and stays in flight. */
  lemma Launch(events: seq<Event>, cfg: Config, connected: nat, flying: nat, k: nat) returns (more: seq<Event>)
    requires Filled(events, cfg, connected, flying, k)
    requires connected < cfg.maxSize && flying < k
    ensures Filled(more, cfg, connected, flying + 1, k)
    ensures
      var s, t := After(Empty(), events, cfg), After(Empty(), more, cfg);
      var key := KeyAt(connected + flying);
      && s.nextId !in s.attempts
      && t.attempts == s.attempts[s.nextId := Attempt(key, Stdio, Resolving)]
      && t.pool == s.pool.(pending := s.pool.pending[key := s.nextId])
  {
    var e := Arrive(0, KeyAt(connected + flying), Stdio, true);
    ArriveHolds(After(Empty(), events, cfg), cfg, connected, flying);
    Extend(events, cfg, e, k);
    more := events + [e];
  }

  lemma SettleOnly(s: State, id: nat, key: Key, cfg: Config)
    requires s.attempts == map[id := Attempt(key, Stdio, Ended(true))] && s.pool.pending == map[key := id]
    ensures Enabled(s, Settle(id))
    ensures
      var t := Next(s, Settle(id), cfg);
      && t.attempts == map[] && t.callers == s.callers
      && t.pool == View(s.pool.connections[key := Entry(id, key.service)], map[])
  {
    assert s.pool.pending - {key} == map[] && s.attempts - {id} == map[];
  }

  lemma ResolveOnly(s: State, id: nat, key: Key, cfg: Config)
    requires s.attempts == map[id := Attempt(key, Stdio, Resolving)]
    ensures Enabled(s, SecretsResolve(id))
    ensures Next(s, SecretsResolve(id), cfg) == s.(attempts := map[id := Attempt(key, Stdio, Local)])
  {
  }

  lemma EndOnly(s: State, id: nat, key: Key, cfg: Config)
    requires s.attempts == map[id := Attempt(key, Stdio, Local)]
    ensures Enabled(s, LocalEnds(id, true))
    ensures Next(s, LocalEnds(id, true), cfg) == s.(attempts := map[id := Attempt(key, Stdio, Ended(true))])
  {
  }

  /** The only attempt, over stdio, ends well and settles. */
  lemma ConnectOnly(events: seq<Event>, cfg: Config, id: nat, key: Key, k: nat) returns (more: seq<Event>)
    requires Runs(Empty(), events, cfg) && InFlightAtMost(Empty(), events, cfg, k)
    requires After(Empty(), events, cfg).attempts == map[id := Attempt(key, Stdio, Resolving)]
    requires After(Empty(), events, cfg).pool.pending == map[key := id] && 1 <= k
    ensures Runs(Empty(), more, cfg) && InFlightAtMost(Empty(), more, cfg, k)
    ensures
      var s, t := After(Empty(), events, cfg), After(Empty(), more, cfg);
      && t.attempts == map[] && t.callers == s.callers
      && t.pool == View(s.pool.connections[key := Entry(id, key.service)], map[])
  {
    var s := After(Empty(), events, cfg);
    ResolveOnly(s, id, key, cfg);
    var s1 := s.(attempts := map[id := Attempt(key, Stdio, Local)]);
    Extend(events, cfg, SecretsResolve(id), k);
    EndOnly(s1, id, key, cfg);
    var s2 := s.(attempts := map[id := Attempt(key, Stdio, Ended(true))]);
    Extend(events + [SecretsResolve(id)], cfg, LocalEnds(id, true), k);
    SettleOnly(s2, id, key, cfg);
    Extend(events + [SecretsResolve(id)] + [LocalEnds(id, true)], cfg, Settle(id), k);
    more := events + [SecretsResolve(id)] + [LocalEnds(id, true)] + [Settle(id)];
  }

  lemma LandedCounts(v: View<nat>, key: Key, entry: Entry<nat>, connected: nat)
    requires key !in v.connections && |v.connections| == connected && |key.service| == connected
    requires forall o :: o in v.connections ==> |o.service| < connected + 1
    ensures |v.connections[key := entry]| == connected + 1
    ensures forall o :: o in v.connections[key := entry] ==> |o.service| < connected + 1
  {
  }

  lemma SettledHolds(s: State, t: State, key: Key, id: nat, connected: nat)
    requires Holds(s, connected, 1) && s.pool.pending == map[key := id] && key == KeyAt(connected)
    requires t.attempts == map[] && t.callers == s.callers
    requires t.pool == View(s.pool.connections[key := Entry(id, key.service)], map[])
    ensures Holds(t, connected + 1, 0)
  {
    assert key in s.pool.pending && key !in s.pool.connections;
    LandedCounts(s.pool, key, Entry(id, key.service), connected);
  }

  lemma OnlyPending(s: State, key: Key, id: nat)
    requires SingleFlight(s) && |s.pool.pending| == 1 && id in s.attempts && s.attempts[id].key == key
    ensures s.pool.pending == map[key := id]
  {
    OnlyKey(s.pool.pending, key);
  }

  /** The one attempt in flight connects and settles. */
  lemma Land(events: seq<Event>, cfg: Config, connected: nat, id: nat, k: nat) returns (more: seq<Event>)
    requires Filled(events, cfg, connected, 1, k) && 1 <= k
    requires After(Empty(), events, cfg).attempts == map[id := Attempt(KeyAt(connected), Stdio, Resolving)]
    ensures Filled(more, cfg, connected + 1, 0, k)
    ensures After(Empty(), more, cfg).attempts == map[]
  {
    var s := After(Empty(), events, cfg);
    OnlyPending(s, KeyAt(connected), id);
    more := ConnectOnly(events, cfg, id, KeyAt(connected), k);
    SettledHolds(s, After(Empty(), more, cfg), KeyAt(connected), id, connected);
  }

  lemma NoneFilled(cfg: Config, k: nat)
    ensures Filled([], cfg, 0, 0, k) && After(Empty(), [], cfg).attempts == map[]
  {
    assert forall s :: s == Empty() ==> SingleFlight(s);
  }

  lemma OnlyAttempt(m: map<nat, Attempt>, id: nat, a: Attempt)
    requires m == map[]
    ensures m[id := a] == map[id := a]
  {
  }

  /** With nothing under way, one more key is admitted, connects and settles. */
  lemma FillOne(before: seq<Event>, cfg: Config, n: nat, k: nat) returns (events: seq<Event>)
    requires Filled(before, cfg, n, 0, k) && After(Empty(), before, cfg).attempts == map[]
    requires n < cfg.maxSize && 1 <= k
    ensures Filled(events, cfg, n + 1, 0, k) && After(Empty(), events, cfg).attempts == map[]
  {
    var launched := Launch(before, cfg, n, 0, k);
    var id := After(Empty(), before, cfg).nextId;
    OnlyAttempt(After(Empty(), before, cfg).attempts, id, Attempt(KeyAt(n), Stdio, Resolving));
    events := Land(launched, cfg, n, id, k);
  }

  lemma {:induction false} FillPool(cfg: Config, n: nat, k: nat) returns (events: seq<Event>)
    requires n < cfg.maxSize && 1 <= k
    ensures Filled(events, cfg, n, 0, k) && After(Empty(), events, cfg).attempts == map[]
  {
    if n == 0 {
      events := [];
      NoneFilled(cfg, k);
    } else {
      var before := FillPool(cfg, n - 1, k);
      events := FillOne(before, cfg, n - 1, k);
    }
  }

  lemma {:induction false} LaunchAll(events: seq<Event>, cfg: Config, connected: nat, flying: nat,
      k: nat) returns (more: seq<Event>)
    requires Filled(events, cfg, connected, 0, k) && connected < cfg.maxSize && flying <= k
    ensures Filled(more, cfg, connected, flying, k)
  {
    if flying == 0 {
      more := events;
    } else {
      var before := LaunchAll(events, cfg, connected, flying - 1, k);
      more := Launch(before, cfg, connected, flying - 1, k);
    }
  }

  /** For every size and every number of attempts in flight, some run reaches the bound. */
  lemma CapacityBoundIsReached(cfg: Config, k: nat)
    requires 1 <= k && 1 <= cfg.maxSize
    ensures exists events :: Runs(Empty(), events, cfg) && InFlightAtMost(Empty(), events, cfg, k)
                             && |Keys(After(Empty(), events, cfg))| == cfg.maxSize - 1 + k
  {
    var filled := FillPool(cfg, cfg.maxSize - 1, k);
    var events := LaunchAll(filled, cfg, cfg.maxSize - 1, k, k);
    var s := After(Empty(), events, cfg);
    assert |Keys(s)| == |s.pool.connections.Keys| + |s.pool.pending.Keys|;
  }
}
