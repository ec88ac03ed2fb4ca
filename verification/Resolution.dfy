/** Which credential a caller gets, stated over the store, and what it makes of the service's configuration. */
module Resolution {
  import opened Wrappers
  import opened PoolView
  import opened Credentials
  import opened Coherence

  predicate Owns(store: Store, identity: string, service: string) {
    identity in store.credentials && service in store.credentials[identity]
  }

  /** The group at `i` has the user among its members and a credential for the service. */
  predicate Serves(store: Store, i: nat, user: string, service: string)
    requires i < |store.groups|
  {
    user in store.groups[i].members && Owns(store, store.groups[i].name, service)
  }

  /** The first such group. */
  ghost predicate ServesFirst(store: Store, i: nat, user: string, service: string) {
    i < |store.groups| && Serves(store, i, user, service) && forall j :: 0 <= j < i ==> !Serves(store, j, user, service)
  }

  ghost predicate Grouped(store: Store, user: string, service: string) {
    exists i: nat :: ServesFirst(store, i, user, service)
  }

  lemma {:induction false} FirstGroupIs(store: Store, n: nat, user: string, service: string)
    requires n <= |store.groups|
    requires forall j :: 0 <= j < n ==> !Serves(store, j, user, service)
    ensures
      match FirstGroup(store, store.groups[n..], user, service)
      case None => forall j :: 0 <= j < |store.groups| ==> !Serves(store, j, user, service)
      case Some(r) => exists i: nat :: ServesFirst(store, i, user, service) && r.identity == store.groups[i].name
    ensures
      var found := FirstGroup(store, store.groups[n..], user, service);
      found.Some? ==>
        var r := found.value;
        r.source == GroupSource && Owns(store, r.identity, service)
        && r.credential == store.credentials[r.identity][service]
    decreases |store.groups| - n
  {
    var groups := store.groups[n..];
    if groups != [] {
      assert groups[0] == store.groups[n] && groups[1..] == store.groups[n + 1..];
      if Serves(store, n, user, service) {
        assert ServesFirst(store, n, user, service);
      } else {
        FirstGroupIs(store, n + 1, user, service);
      }
    }
  }

  /**
    The order of the three sources: the user's own credential, then that of the first group
    with the user in it that has one, then the default, and otherwise none.
   */
  lemma ResolvedIs(store: Store, user: string, service: string)
    ensures
      var r := ResolveWithSource(store, user, service);
      && (Owns(store, user, service) ==> r == Some(Resolved(store.credentials[user][service], User, user)))
      && (!Owns(store, user, service) ==> forall i: nat :: ServesFirst(store, i, user, service) ==>
            var name := store.groups[i].name;
            r == Some(Resolved(store.credentials[name][service], GroupSource, name)))
      && (!Owns(store, user, service) && !Grouped(store, user, service) && service in store.defaults ==>
            r == Some(Resolved(store.defaults[service], Default, "default")))
      && (!Owns(store, user, service) && !Grouped(store, user, service) && service !in store.defaults ==> r == None)
  {
    assert store.groups[0..] == store.groups;
    FirstGroupIs(store, 0, user, service);
    forall i: nat, j: nat | ServesFirst(store, i, user, service) && ServesFirst(store, j, user, service)
      ensures i == j
    {
    }
  }

  /** Some group serves the user exactly when there is a first one that does. */
  lemma GroupedIff(store: Store, user: string, service: string)
    ensures Grouped(store, user, service) <==>
      exists i :: 0 <= i < |store.groups| && Serves(store, i, user, service)
  {
    assert store.groups[0..] == store.groups;
    FirstGroupIs(store, 0, user, service);
  }

  /** A caller gets no credential exactly when none of the three has one. */
  lemma UnresolvedIff(store: Store, user: string, service: string)
    ensures ResolveWithSource(store, user, service) == None <==>
      && !Owns(store, user, service) && service !in store.defaults
      && forall i :: 0 <= i < |store.groups| ==> !Serves(store, i, user, service)
  {
    ResolvedIs(store, user, service);
    assert store.groups[0..] == store.groups;
    FirstGroupIs(store, 0, user, service);
  }

  // --------------------------------------------------------------- merging

  /** `all` has the members of both, and where they agree on a name, the second's. */
  ghost predicate Overrides(all: map<string, string>, base: map<string, string>, over: Option<map<string, string>>) {
    forall k ::
      && (k in all <==> k in base || (over.Some? && k in over.value))
      && (k in all ==> all[k] == if over.Some? && k in over.value then over.value[k] else base[k])
  }

  /** Headers go to HTTP and WebSocket services and environment to stdio ones; all else stays. */
  lemma MergedIs(cfg: ServiceConfig, c: Credential)
    ensures
      var merged := Merge(cfg, c);
      && merged.backend == cfg.backend && merged.requiresCredentials == cfg.requiresCredentials
      && merged.rest == cfg.rest
      && Overrides(merged.headers, cfg.headers, if cfg.backend == Stdio then None else c.headers)
      && Overrides(merged.env, cfg.env, if cfg.backend == Stdio then c.env else None)
  {
  }

  // ----------------------------------------------------------------- answers

  /** What a served caller gets: the service as configured now, with the credential that comes first now. */
  ghost predicate GetsDue(w: World, user: string, service: string, cfg: ServiceConfig) {
    && service in w.services
    && var base := w.services[service];
       && (Owns(w.store, user, service) ==> cfg == Merge(base, w.store.credentials[user][service]))
       && (!Owns(w.store, user, service) ==> forall i: nat :: ServesFirst(w.store, i, user, service) ==>
             cfg == Merge(base, w.store.credentials[w.store.groups[i].name][service]))
       && (!Owns(w.store, user, service) && !Grouped(w.store, user, service) ==>
             cfg == if service in w.store.defaults then Merge(base, w.store.defaults[service]) else base)
  }

  /** In every run, a served caller gets what is due to it at that moment, cached or not. */
  lemma EveryAnswerIsDue(start: World, events: seq<Event>, maxSize: int, user: string, service: string, healthy: bool,
      connects: bool)
    requires Runs(start, events, maxSize)
    ensures
      var w := After(start, events, maxSize);
      var a := Request(w, user, service, healthy, connects, maxSize).1;
      a.Served? ==> GetsDue(w, user, service, a.cfg)
  {
    var w := After(start, events, maxSize);
    EveryAnswerIsCurrent(start, events, maxSize, user, service, healthy, connects);
    ResolvedIs(w.store, user, service);
    UnresolvedIff(w.store, user, service);
  }

  /** A request is refused exactly when the service asks for credentials and the caller has none. */
  lemma RefusedIff(w: World, user: string, service: string, healthy: bool, connects: bool, maxSize: int)
    ensures Request(w, user, service, healthy, connects, maxSize).1 == Refused <==>
      && service in w.services && w.services[service].requiresCredentials
      && ResolveWithSource(w.store, user, service) == None
  {
  }

  /** A request that is not refused is served from the pool, connects, or fails for one of three reasons. */
  lemma AnswerIs(w: World, user: string, service: string, healthy: bool, connects: bool, maxSize: int)
    requires ResolvePool(w, user, service).Route?
    ensures
      var key := ResolvePool(w, user, service).key;
      var (w', a) := Request(w, user, service, healthy, connects, maxSize);
      var others := w.pool - {key};
      if key in w.pool && healthy then a == Served(w.pool[key].connection) && w' == w
      else if |others| >= maxSize then a == Answer.LimitReached && w'.pool == others
      else if service !in w.services then a == Answer.NotConfigured && w'.pool == others
      else if connects then a.Served? && w'.pool == others[key := Entry(a.cfg, service)]
      else a == ConnectFailed && w'.pool == others
  {
    if ResolvePool(w, user, service).override.None? {
      assert ResolvePool(w, user, service).key == Bare(service);
    }
  }

  // ---------------------------------------------------------------- evictions

  /** A committed credential change closes nothing of other services. */
  lemma OtherServicesStay(w: World, c: Change, writes: bool, closed: set<string>, failing: set<string>, k: Key)
    requires Enabled(w, Alter(c, writes, closed, failing)) && k in w.pool && w.pool[k].base == k.service
    requires
      match c
      case SetCredential(_, s, _) => k.service != s
      case RemoveCredential(_, s) => k.service != s
      case SetDefault(s, _) => k.service != s
      case RemoveDefault(s) => k.service != s
      case AddGroup(n, _) => !Owns(w.store, n, k.service)
      case AddMembers(n, _) => !Owns(w.store, n, k.service)
      case RemoveMembers(n, _) => !Owns(w.store, n, k.service)
      case RemoveGroup(n) => !Owns(w.store, n, k.service)
    ensures
      var w' := ChangeStep(w, c, writes, closed, failing);
      k in w'.pool && w'.pool[k] == w.pool[k]
  {
    if Mutate(w.store, c).Some? && writes {
      var store := Mutate(w.store, c).value;
      if c.AddGroup? || c.AddMembers? || c.RemoveMembers? {
        assert store.credentials == w.store.credentials;
      }
    }
  }

  /** A change of a user's own credential leaves the shared connection of the service open. */
  lemma BareConnectionStays(w: World, identity: string, service: string, c: Option<Credential>, writes: bool)
    requires Bare(service) in w.pool
    ensures Bare(service) in ChangeStep(w, SetCredential(identity, service, c), writes, {}, {}).pool
    ensures Bare(service) in ChangeStep(w, RemoveCredential(identity, service), writes, {}, {}).pool
  {
  }

  /** A configuration change closes no connection of a service that stays as it was. */
  lemma UnchangedServicesStay(w: World, c: ConfigChange, closed: set<string>, failing: set<string>,
      applied: set<string>, k: Key)
    requires Enabled(w, Reconfigure(c, closed, failing, applied)) && k in w.pool && w.pool[k].base == k.service
    requires
      match c
      case AddService(_, _) => true
      case UpdateService(n, _) => k.service != n
      case RemoveService(n) => k.service != n
      case Replace(new_) => k.service in w.services && k.service in new_ && new_[k.service] == w.services[k.service]
      case MergeIn(new_) => k.service !in new_
    ensures
      var w' := ConfigStep(w, c, closed, failing, applied);
      k in w'.pool && w'.pool[k] == w.pool[k]
  {
  }
}
