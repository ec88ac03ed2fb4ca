/**
  Coherence of the pool with the credentials and the configuration: whatever is
  changed, and whichever writes and closes fail, a caller is served with the
  configuration that would be built for it now.
 */
module Coherence {
  import opened Wrappers
  import opened PoolView
  import opened Credentials

  /** The configuration a pool key stands for under the current store and services. */
  function Denotes(w: World, k: Key): Option<ServiceConfig> {
    if k.service !in w.services then None
    else
      match k
      case Bare(s) =>
        Some(if s in w.store.defaults then Merge(w.services[s], w.store.defaults[s]) else w.services[s])
      case Scoped(s, owner) =>
        match CredentialOf(w.store, IdentityOf(owner), s)
        case Some(c) => Some(Merge(w.services[s], c))
        case None => None
  }

  function IdentityOf(owner: string): string {
    if "user:" <= owner then owner[5..] else if "group:" <= owner then owner[6..] else owner
  }

  lemma OwnerIdentity(r: Resolved)
    ensures IdentityOf(Owner(r)) == r.identity
  {
    if r.source == User {
      assert ("user:" + r.identity)[5..] == r.identity;
    } else {
      assert ("group:" + r.identity)[0] == 'g';
      assert ("group:" + r.identity)[6..] == r.identity;
    }
  }

  /** Every pooled connection that a key still stands for is the one built now. */
  ghost predicate Coherent(w: World) {
    forall k :: k in w.pool ==>
      && w.pool[k].base == k.service && k.service in w.services
      && (Denotes(w, k).Some? ==> Denotes(w, k).value == w.pool[k].connection)
  }

  /** In addition no connection outlives what its key stands for. */
  ghost predicate Exact(w: World) {
    forall k :: k in w.pool ==> w.pool[k].base == k.service && Denotes(w, k) == Some(w.pool[k].connection)
  }

  // -------------------------------------------------------------- requests

  lemma {:induction false} FirstGroupHolds(store: Store, groups: seq<Group>, user: string, service: string)
    ensures
      match FirstGroup(store, groups, user, service)
      case Some(r) => r.source == GroupSource && CredentialOf(store, r.identity, service) == Some(r.credential)
      case None => true
  {
    if groups != [] {
      FirstGroupHolds(store, groups[1..], user, service);
    }
  }

  /** The pool key of a request stands for exactly what the request should get. */
  lemma RouteDenotes(w: World, user: string, service: string)
    requires ResolvePool(w, user, service).Route?
    ensures ResolvePool(w, user, service).key.service == service
    ensures Denotes(w, ResolvePool(w, user, service).key) == BuiltNow(w, user, service)
  {
    FirstGroupHolds(w.store, w.store.groups, user, service);
    match ResolveWithSource(w.store, user, service)
    case Some(r) => OwnerIdentity(r);
    case None =>
  }

  /** A served caller gets what would be built for it now, cached or not. */
  lemma ServedIsCurrent(w: World, user: string, service: string, healthy: bool, connects: bool, maxSize: int)
    requires Coherent(w)
    ensures
      var (w', a) := Request(w, user, service, healthy, connects, maxSize);
      a.Served? ==> BuiltNow(w, user, service) == Some(a.cfg)
  {
    var route := ResolvePool(w, user, service);
    if route.Route? {
      RouteDenotes(w, user, service);
    }
  }

  lemma PoolOnly(w: World, pool: Pool, k: Key)
    ensures Denotes(w.(pool := pool), k) == Denotes(w, k)
  {
  }

  /** A pool grown by one connection that is what its key stands for. */
  lemma GrownCoherent(w: World, pool: Pool, key: Key, cfg: ServiceConfig)
    requires forall k :: k in pool ==> k == key || (k in w.pool && pool[k] == w.pool[k])
    requires key in pool && key !in w.pool ==> pool[key] == Entry(cfg, key.service) && Denotes(w, key) == Some(cfg)
    requires key in pool && key in w.pool
      ==> pool[key] == w.pool[key] || (pool[key] == Entry(cfg, key.service) && Denotes(w, key) == Some(cfg))
    ensures Coherent(w) ==> Coherent(w.(pool := pool))
    ensures Exact(w) ==> Exact(w.(pool := pool))
  {
    forall k | k in pool
      ensures Denotes(w.(pool := pool), k) == Denotes(w, k)
    {
      PoolOnly(w, pool, k);
    }
  }

  /** A request changes nothing but the pool. */
  lemma RequestKeepsRest(w: World, user: string, service: string, healthy: bool, connects: bool, maxSize: int)
    ensures
      var w' := Request(w, user, service, healthy, connects, maxSize).0;
      w'.services == w.services && w'.store == w.store && w'.disk == w.disk && w' == w.(pool := w'.pool)
  {
    var route := ResolvePool(w, user, service);
    if route.Route? && !(route.key in w.pool && healthy) {
      ConnectKeepsRest(w.(pool := w.pool - {route.key}), route.key, route.override, service, connects, maxSize);
    }
  }

  lemma ConnectKeepsRest(w: World, key: Key, override: Option<ServiceConfig>, service: string, connects: bool,
      maxSize: int)
    ensures
      var w' := Connect(w, key, override, service, connects, maxSize).0;
      w'.services == w.services && w'.store == w.store && w'.disk == w.disk
  {
  }

  /** No key but the requested one gets a connection. */
  lemma RequestOthers(w: World, user: string, service: string, healthy: bool, connects: bool, maxSize: int, k: Key)
    requires ResolvePool(w, user, service).Route? && k != ResolvePool(w, user, service).key
    ensures var pool := Request(w, user, service, healthy, connects, maxSize).0.pool;
            k in pool ==> k in w.pool && pool[k] == w.pool[k]
  {
  }

  /** The requested key gets at most the connection that would be built for it now. */
  lemma RequestOwn(w: World, user: string, service: string, healthy: bool, connects: bool, maxSize: int)
    requires ResolvePool(w, user, service).Route?
    ensures
      var key := ResolvePool(w, user, service).key;
      var (w', a) := Request(w, user, service, healthy, connects, maxSize);
      key in w'.pool ==> (key in w.pool && w'.pool[key] == w.pool[key])
                         || (a.Served? && w'.pool[key] == Entry(a.cfg, service)
                           && BuiltNow(w, user, service) == Some(a.cfg))
  {
    var route := ResolvePool(w, user, service);
    if !(route.key in w.pool && healthy) {
      ConnectOwn(w.(pool := w.pool - {route.key}), route.key, route.override, service, connects, maxSize);
    }
  }

  lemma ConnectOwn(w: World, key: Key, override: Option<ServiceConfig>, service: string, connects: bool, maxSize: int)
    requires key !in w.pool
    ensures
      var (w', a) := Connect(w, key, override, service, connects, maxSize);
      key in w'.pool ==> a.Served? && w'.pool[key] == Entry(a.cfg, service)
                         && Some(a.cfg) == if override.Some? then override
                           else if service in w.services then Some(w.services[service]) else None
  {
  }

  lemma RequestKeepsCoherent(w: World, user: string, service: string, healthy: bool, connects: bool, maxSize: int)
    ensures
      var w' := Request(w, user, service, healthy, connects, maxSize).0;
      (Coherent(w) ==> Coherent(w')) && (Exact(w) ==> Exact(w'))
  {
    var (w', a) := Request(w, user, service, healthy, connects, maxSize);
    var route := ResolvePool(w, user, service);
    if route.Route? {
      RouteDenotes(w, user, service);
      RequestKeepsRest(w, user, service, healthy, connects, maxSize);
      forall k | k in w'.pool && k != route.key ensures k in w.pool && w'.pool[k] == w.pool[k] {
        RequestOthers(w, user, service, healthy, connects, maxSize, k);
      }
      RequestOwn(w, user, service, healthy, connects, maxSize);
      var cfg := if a.Served? then a.cfg else ServiceConfig(Http, map[], map[], false, "");
      GrownCoherent(w, w'.pool, route.key, cfg);
    }
  }

  // ------------------------------------------------------------ what a change touches

  lemma SetTouches(store: Store, identity: string, service: string, c: Credential, i: string, s: string)
    ensures CredentialOf(WithCredential(store, identity, service, c), i, s) ==
            if i == identity && s == service then Some(c) else CredentialOf(store, i, s)
  {
  }

  lemma RemoveTouches(store: Store, identity: string, service: string, i: string, s: string)
    requires RemoveCredentialIn(store, identity, service).Some?
    ensures CredentialOf(RemoveCredentialIn(store, identity, service).value, i, s) ==
            if i == identity && s == service then None else CredentialOf(store, i, s)
  {
    var own := store.credentials[identity] - {service};
    if i == identity && s != service && s in store.credentials[identity] {
      assert s in own;
    }
  }

  /** The keys whose meaning a committed change may move. */
  predicate MayTouch(w: World, c: Change, k: Key) {
    match c
    case SetCredential(_, s, _) => k.Scoped? && k.service == s
    case RemoveCredential(_, s) => k.Scoped? && k.service == s
    case SetDefault(s, _) => k == Bare(s)
    case RemoveDefault(s) => k == Bare(s)
    case RemoveGroup(n) => k.Scoped? && k.service in ServicesOf(w.store, n) && IdentityOf(k.identity) == n
    case _ => false
  }

  lemma ChangeTouches(w: World, c: Change, k: Key)
    requires Mutate(w.store, c).Some?
    ensures MayTouch(w, c, k) || Denotes(w.(store := Mutate(w.store, c).value), k) == Denotes(w, k)
  {
    if k.Scoped? {
      match c
      case SetCredential(i, s, credential) => SetTouches(w.store, i, s, credential.value, IdentityOf(k.identity),
        k.service);
      case RemoveCredential(i, s) => RemoveTouches(w.store, i, s, IdentityOf(k.identity), k.service);
      case RemoveGroup(n) => assert IdentityOf(k.identity) == n
        ==> (CredentialOf(w.store, n, k.service).Some? <==> k.service in ServicesOf(w.store, n));
      case _ =>
    }
  }

  /** What a group removal takes away it takes away altogether. */
  lemma RemovedGroupDenotesNothing(w: World, name: string, k: Key)
    requires Mutate(w.store, RemoveGroup(name)).Some? && k.Scoped? && IdentityOf(k.identity) == name
    ensures Denotes(w.(store := Mutate(w.store, RemoveGroup(name)).value), k) == None
  {
  }

  // ------------------------------------------------------------------- runs

  datatype Event =
    | Ask(user: string, service: string, healthy: bool, connects: bool)
    | Alter(change: Change, writes: bool, closed: set<string>, failing: set<string>)
    | Reload(store: Store)
    | Reconfigure(config: ConfigChange, closed: set<string>, failing: set<string>, applied: set<string>)

  predicate Enabled(w: World, e: Event) {
    match e
    case Ask(_, _, _, _) => true
    case Alter(c, writes, closed, failing) =>
      Mutate(w.store, c).Some? && writes ==>
        ClosesUntil(w.pool, Affected(w.store, Mutate(w.store, c).value, c), closed, failing)
    case Reload(_) => true
    case Reconfigure(c, closed, failing, applied) =>
      && ClosesUntil(w.pool, MustClose(w.services, c), closed, failing)
      && applied * w.services.Keys <= closed
  }

  function Next(w: World, e: Event, maxSize: int): World
    requires Enabled(w, e)
  {
    match e
    case Ask(user, service, healthy, connects) => Request(w, user, service, healthy, connects, maxSize).0
    case Alter(c, writes, closed, failing) => ChangeStep(w, c, writes, closed, failing)
    case Reload(store) => w.(store := store, disk := store, pool := map[])
    case Reconfigure(c, closed, failing, applied) => ConfigStep(w, c, closed, failing, applied)
  }

  /** A step after which every connection left still stands for what it did. */
  lemma ShrunkCoherent(w: World, w': World)
    requires forall k :: k in w'.pool ==>
      k in w.pool && w'.pool[k] == w.pool[k] && (k.service in w.services ==> k.service in w'.services)
    ensures Coherent(w) && (forall k :: k in w'.pool ==> Denotes(w', k) == Denotes(w, k) || Denotes(w', k) == None) ==>
              Coherent(w')
    ensures Exact(w) && (forall k :: k in w'.pool ==> Denotes(w', k) == Denotes(w, k)) ==> Exact(w')
  {
  }

  lemma ExactIsCoherent(w: World)
    requires Exact(w)
    ensures Coherent(w)
  {
    assert forall k :: k in w.pool ==> Denotes(w, k).Some?;
  }

  lemma AlterKeepsCoherent(w: World, c: Change, writes: bool, closed: set<string>, failing: set<string>)
    requires Coherent(w) && Enabled(w, Alter(c, writes, closed, failing))
    ensures
      var w' := ChangeStep(w, c, writes, closed, failing);
      Coherent(w') && (Exact(w) && (c.RemoveGroup? ==> failing == {}) ==> Exact(w'))
  {
    var w' := ChangeStep(w, c, writes, closed, failing);
    if Mutate(w.store, c).Some? && writes {
      var store := Mutate(w.store, c).value;
      forall k | k in w'.pool
        ensures k in w.pool && w'.pool[k] == w.pool[k]
        ensures Denotes(w', k) == Denotes(w, k) || (Denotes(w', k) == None && c.RemoveGroup? && failing != {})
      {
        PoolOnly(w.(store := store), w'.pool, k);
        ChangeTouches(w, c, k);
        if c.RemoveGroup? && MayTouch(w, c, k) {
          RemovedGroupDenotesNothing(w, c.name, k);
        }
      }
      ShrunkCoherent(w, w');
    }
  }

  /** A committed removal of a group closed the services of all connections opened for it. */
  ghost predicate Thorough(w: World, e: Event) {
    e.Alter? && e.change.RemoveGroup? && e.writes && Mutate(w.store, e.change).Some? ==>
      forall k :: k in w.pool && k.Scoped? && IdentityOf(k.identity) == e.change.name ==> k.service in e.closed
  }

  /** The exact condition: the removal leaves no stale connection if and only if it was thorough. */
  lemma RemovalExactIff(w: World, name: string, writes: bool, closed: set<string>, failing: set<string>)
    requires Exact(w) && Enabled(w, Alter(RemoveGroup(name), writes, closed, failing))
    ensures Exact(ChangeStep(w, RemoveGroup(name), writes, closed, failing))
            <==> Thorough(w, Alter(RemoveGroup(name), writes, closed, failing))
  {
    var c := RemoveGroup(name);
    if Mutate(w.store, c).Some? && writes {
      var w' := ChangeStep(w, c, writes, closed, failing);
      var w1 := w.(store := Mutate(w.store, c).value);
      forall k | k in w'.pool
        ensures k in w.pool && w'.pool[k] == w.pool[k] && k.service !in closed
        ensures Denotes(w', k)
                == if k.Scoped? && IdentityOf(k.identity) == name then None else Denotes(w, k)
      {
        PoolOnly(w1, w'.pool, k);
        ChangeTouches(w, c, k);
        if k.Scoped? && IdentityOf(k.identity) == name {
          RemovedGroupDenotesNothing(w, name, k);
        }
      }
      forall k | k in w.pool && k.Scoped? && IdentityOf(k.identity) == name
        ensures k in w'.pool <==> k.service !in closed
      {
        assert w.pool[k].base == k.service;
      }
    }
  }

  lemma ReconfigureKeepsCoherent(w: World, c: ConfigChange, closed: set<string>, failing: set<string>,
      applied: set<string>)
    requires Coherent(w) && Enabled(w, Reconfigure(c, closed, failing, applied))
    ensures
      var w' := ConfigStep(w, c, closed, failing, applied);
      Coherent(w') && (Exact(w) ==> Exact(w'))
  {
    var w' := ConfigStep(w, c, closed, failing, applied);
    forall k | k in w'.pool
      ensures k in w.pool && w'.pool[k] == w.pool[k]
      ensures k.service in w'.services && w'.services[k.service] == w.services[k.service]
      ensures Denotes(w', k) == Denotes(w, k)
    {
      assert k.service !in closed;
    }
    ShrunkCoherent(w, w');
  }

  ghost predicate Runs(start: World, events: seq<Event>, maxSize: int)
    decreases |events|, 0
  {
    if events == [] then start.pool == map[]
    else
      && Runs(start, events[..|events| - 1], maxSize)
      && Enabled(After(start, events[..|events| - 1], maxSize), events[|events| - 1])
  }

  ghost function After(start: World, events: seq<Event>, maxSize: int): World
    requires Runs(start, events, maxSize)
    decreases |events|, 1
  {
    if events == [] then start else Next(After(start, events[..|events| - 1], maxSize), events[|events| - 1], maxSize)
  }

  /** Every group removal of the run was thorough. */
  ghost predicate AllThorough(start: World, events: seq<Event>, maxSize: int)
    requires Runs(start, events, maxSize)
    decreases |events|
  {
    events != [] ==>
      && AllThorough(start, events[..|events| - 1], maxSize)
      && Thorough(After(start, events[..|events| - 1], maxSize), events[|events| - 1])
  }

  /** Exact in every state of the run. */
  ghost predicate ExactThroughout(start: World, events: seq<Event>, maxSize: int)
    requires Runs(start, events, maxSize)
    decreases |events|
  {
    && Exact(After(start, events, maxSize))
    && (events != [] ==> ExactThroughout(start, events[..|events| - 1], maxSize))
  }

  lemma StepKeepsCoherent(w: World, e: Event, maxSize: int)
    requires Coherent(w) && Enabled(w, e)
    ensures Coherent(Next(w, e, maxSize))
    ensures Exact(w) ==> (Exact(Next(w, e, maxSize)) <==> Thorough(w, e))
  {
    match e
    case Ask(user, service, healthy, connects) => RequestKeepsCoherent(w, user, service, healthy, connects, maxSize);
    case Alter(c, writes, closed, failing) =>
      AlterKeepsCoherent(w, c, writes, closed, failing);
      if c.RemoveGroup? && Exact(w) {
        RemovalExactIff(w, c.name, writes, closed, failing);
      }
    case Reload(_) =>
    case Reconfigure(c, closed, failing, applied) => ReconfigureKeepsCoherent(w, c, closed, failing, applied);
  }

  /** Coherence over every run; exactness in all its states if and only if group removals are thorough. */
  lemma {:induction false} AlwaysCoherent(start: World, events: seq<Event>, maxSize: int)
    requires Runs(start, events, maxSize)
    ensures Coherent(After(start, events, maxSize))
    ensures ExactThroughout(start, events, maxSize) <==> AllThorough(start, events, maxSize)
    decreases |events|
  {
    if events != [] {
      var front, e := events[..|events| - 1], events[|events| - 1];
      AlwaysCoherent(start, front, maxSize);
      StepKeepsCoherent(After(start, front, maxSize), e, maxSize);
    }
  }

  /** No removal of a group stops at a connection whose `close` throws. */
  predicate GroupRemovalsClose(events: seq<Event>) {
    forall i :: 0 <= i < |events| ==> (events[i].Alter? && events[i].change.RemoveGroup? ==> events[i].failing == {})
  }

  /** Removals that complete are thorough, so such runs are exact throughout. */
  lemma {:induction false} CompleteRemovalsKeepExact(start: World, events: seq<Event>, maxSize: int)
    requires Runs(start, events, maxSize) && GroupRemovalsClose(events)
    ensures ExactThroughout(start, events, maxSize)
    decreases |events|
  {
    if events != [] {
      var front, e := events[..|events| - 1], events[|events| - 1];
      assert forall i :: 0 <= i < |front| ==> front[i] == events[i];
      CompleteRemovalsKeepExact(start, front, maxSize);
      AlwaysCoherent(start, front, maxSize);
      var w := After(start, front, maxSize);
      StepKeepsCoherent(w, e, maxSize);
      if e.Alter? {
        AlterKeepsCoherent(w, e.change, e.writes, e.closed, e.failing);
      }
    }
  }

  lemma ChangeKeepsDisk(w: World, c: Change, writes: bool, closed: set<string>, failing: set<string>)
    requires w.store == w.disk
    ensures var w' := ChangeStep(w, c, writes, closed, failing); w'.store == w'.disk
  {
  }

  /** What is in memory is what is on disk, after every run. */
  lemma {:induction false} DiskFollowsStore(start: World, events: seq<Event>, maxSize: int)
    requires Runs(start, events, maxSize) && start.store == start.disk
    ensures After(start, events, maxSize).store == After(start, events, maxSize).disk
    decreases |events|
  {
    if events != [] {
      var front := events[..|events| - 1];
      DiskFollowsStore(start, front, maxSize);
      var w := After(start, front, maxSize);
      match events[|events| - 1]
      case Ask(user, service, healthy, connects) => RequestKeepsRest(w, user, service, healthy, connects, maxSize);
      case Alter(c, writes, closed, failing) => ChangeKeepsDisk(w, c, writes, closed, failing);
      case _ =>
    }
  }

  /** In every run, a served caller gets what would be built for it at that moment. */
  lemma EveryAnswerIsCurrent(start: World, events: seq<Event>, maxSize: int, user: string, service: string,
      healthy: bool, connects: bool)
    requires Runs(start, events, maxSize)
    ensures
      var w := After(start, events, maxSize);
      var a := Request(w, user, service, healthy, connects, maxSize).1;
      a.Served? ==> BuiltNow(w, user, service) == Some(a.cfg)
  {
    AlwaysCoherent(start, events, maxSize);
    ServedIsCurrent(After(start, events, maxSize), user, service, healthy, connects, maxSize);
  }

  /** A change that is refused, or whose write fails. */
  ghost predicate Fails(w: World, e: Event) {
    e.Alter? && (Mutate(w.store, e.change).None? || !e.writes)
  }

  /** The run without its failed changes. */
  ghost function Effective(start: World, events: seq<Event>, maxSize: int): seq<Event>
    requires Runs(start, events, maxSize)
    decreases |events|
  {
    if events == [] then []
    else
      var front, e := events[..|events| - 1], events[|events| - 1];
      Effective(start, front, maxSize) + if Fails(After(start, front, maxSize), e) then [] else [e]
  }

  /** Leaving the failed changes out of a run gives a run to the same services, store, disk and pool. */
  lemma {:induction false} FailedChangesLeaveNoTrace(start: World, events: seq<Event>, maxSize: int)
    requires Runs(start, events, maxSize)
    ensures Runs(start, Effective(start, events, maxSize), maxSize)
    ensures After(start, Effective(start, events, maxSize), maxSize) == After(start, events, maxSize)
    decreases |events|
  {
    if events != [] {
      var front, e := events[..|events| - 1], events[|events| - 1];
      FailedChangesLeaveNoTrace(start, front, maxSize);
      var kept := Effective(start, front, maxSize);
      if Fails(After(start, front, maxSize), e) {
        assert kept + [] == kept;
      } else {
        assert (kept + [e])[..|kept|] == kept;
      }
    }
  }

  /**
    A group removal that stops at a connection whose `close` throws leaves behind a
    connection whose key stands for nothing. Group `g` has credentials for `s` and a
    pooled connection; the bare connection of `s` fails to close.
   */
  lemma InterruptedRemovalIsNotExact(w: World, cfg: ServiceConfig, c: Credential)
    requires w.services == map["s" := cfg]
    requires w.store == Store([Group("g", ["u"])], map["g" := map["s" := c]], map[])
    requires w.pool == map[Bare("s") := Entry(cfg, "s"), Scoped("s", "group:g") := Entry(Merge(cfg, c), "s")]
    ensures Exact(w)
    ensures Enabled(w, Alter(RemoveGroup("g"), true, {}, {"s"}))
    ensures !Exact(ChangeStep(w, RemoveGroup("g"), true, {}, {"s"}))
  {
    var k := Scoped("s", "group:g");
    assert IdentityOf("group:g") == "g" by {
      assert "group:g"[0] == 'g' && "group:g"[6..] == "g";
    }
    var w' := ChangeStep(w, RemoveGroup("g"), true, {}, {"s"});
    RemovedGroupDenotesNothing(w, "g", k);
    PoolOnly(w.(store := Mutate(w.store, RemoveGroup("g")).value), w'.pool, k);
    assert k in w'.pool;
  }
}
