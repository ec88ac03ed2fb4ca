/**
  Services, credentials and the pool of connections built from both: resolution,
  merging, the pool key of a request, and every mutation with its evictions.

  Header and environment values hold no caller templates here, so expanding them
  is the identity and is not shown.
 */
module Credentials {
  import opened Wrappers
  import opened Lists
  import opened Ordering
  import opened PoolView

  datatype Backend = Http | WebSocket | Stdio

  /**
    A service as its JSON text gives it. `rest` stands for what neither credentials nor
    pooling look at: the other fields, and the order in which all members stand, so that
    two services are equal exactly when their JSON texts are.
   */
  datatype ServiceConfig = ServiceConfig(backend: Backend, headers: map<string, string>, env: map<string, string>,
                                         requiresCredentials: bool, rest: string)

  datatype Credential = Credential(headers: Option<map<string, string>>, env: Option<map<string, string>>)

  datatype Group = Group(name: string, members: seq<string>)

  /** Groups are in the order an object lists them: the first matching one wins. */
  datatype Store = Store(groups: seq<Group>, credentials: map<string, map<string, Credential>>,
                         defaults: map<string, Credential>)

  datatype Source = User | GroupSource | Default

  datatype Resolved = Resolved(credential: Credential, source: Source, identity: string)

  type Pool = map<Key, Entry<ServiceConfig>>

  datatype World = World(services: map<string, ServiceConfig>, store: Store, disk: Store, pool: Pool)

  /** A credential overrides headers of HTTP and WebSocket services, environment of stdio ones. */
  function Merge(cfg: ServiceConfig, c: Credential): ServiceConfig {
    var cfg1 := if c.headers.Some? && cfg.backend != Stdio then cfg.(headers := cfg.headers + c.headers.value) else cfg;
    if c.env.Some? && cfg.backend == Stdio then cfg1.(env := cfg1.env + c.env.value) else cfg1
  }

  function CredentialOf(store: Store, identity: string, service: string): Option<Credential> {
    if identity in store.credentials && service in store.credentials[identity]
    then Some(store.credentials[identity][service])
    else None
  }

  function FirstGroup(store: Store, groups: seq<Group>, user: string, service: string): Option<Resolved> {
    if groups == [] then None
    else if user in groups[0].members && CredentialOf(store, groups[0].name, service).Some?
    then Some(Resolved(CredentialOf(store, groups[0].name, service).value, GroupSource, groups[0].name))
    else FirstGroup(store, groups[1..], user, service)
  }

  function ResolveWithSource(store: Store, user: string, service: string): Option<Resolved> {
    match CredentialOf(store, user, service)
    case Some(c) => Some(Resolved(c, User, user))
    case None =>
      match FirstGroup(store, store.groups, user, service)
      case Some(r) => Some(r)
      case None =>
        if service in store.defaults then Some(Resolved(store.defaults[service], Default, "default")) else None
  }

  function Owner(r: Resolved): string {
    match r.source
    case User => "user:" + r.identity
    case _ => "group:" + r.identity
  }

  function KeyFor(service: string, r: Resolved): Key {
    if r.source == Default then Bare(service) else Scoped(service, Owner(r))
  }

  datatype Route = Route(key: Key, override: Option<ServiceConfig>) | MissingCredential

  /** The pool key and configuration of an authenticated request. */
  function ResolvePool(w: World, user: string, service: string): Route {
    match ResolveWithSource(w.store, user, service)
    case Some(r) =>
      if service in w.services then Route(KeyFor(service, r), Some(Merge(w.services[service], r.credential)))
      else Route(Bare(service), None)
    case None =>
      if service in w.services && w.services[service].requiresCredentials then MissingCredential
      else Route(Bare(service), None)
  }

  // -------------------------------------------------------------- requests

  datatype Answer = Served(cfg: ServiceConfig) | Refused | LimitReached | NotConfigured | ConnectFailed

  /** One `/call`, `/list-tools` or `/schema` request, with what the network makes of it. */
  function Request(w: World, user: string, service: string, healthy: bool, connects: bool, maxSize: int)
    : (World, Answer)
  {
    match ResolvePool(w, user, service)
    case MissingCredential => (w, Refused)
    case Route(key, override) =>
      if key in w.pool && healthy then (w, Served(w.pool[key].connection))
      else Connect(w.(pool := w.pool - {key}), key, override, service, connects, maxSize)
  }

  function Connect(w: World, key: Key, override: Option<ServiceConfig>, service: string, connects: bool, maxSize: int)
    : (World, Answer)
  {
    if |w.pool| >= maxSize then (w, Answer.LimitReached)
    else
      var cfg := if override.Some? then override else if service in w.services then Some(w.services[service]) else None;
      match cfg
      case None => (w, Answer.NotConfigured)
      case Some(c) => if connects then (w.(pool := w.pool[key := Entry(c, service)]), Served(c)) else (w, ConnectFailed)
  }

  /** What a request would be served with if a connection were built for it now. */
  function BuiltNow(w: World, user: string, service: string): Option<ServiceConfig> {
    if service !in w.services then None
    else
      match ResolveWithSource(w.store, user, service)
      case Some(r) => Some(Merge(w.services[service], r.credential))
      case None => Some(w.services[service])
  }

  // ------------------------------------------------------------- evictions

  /**
    The pool after closing every service of `closed`, and of `failing` only its bare
    connection, whose `close` threw.
   */
  function Evicted(pool: Pool, closed: set<string>, failing: set<string>): Pool {
    map k | k in pool && !IsClosed(k, pool[k].base, closed, failing) :: pool[k]
  }

  predicate IsClosed(k: Key, base: string, closed: set<string>, failing: set<string>) {
    (base in closed && k != Bare(base)) || (k.Bare? && (k.service in closed || k.service in failing))
  }

  /** `closeServicePattern`: the scoped connections of a service. */
  function PatternEvicted(pool: Pool, service: string): Pool {
    pool - ScopedKeys(pool, service)
  }

  // ----------------------------------------------------- credential changes

  /** The outcome of changing the store in memory: an exception, or the new store. */
  type Mutation = Option<Store>

  function WithCredential(store: Store, identity: string, service: string, c: Credential): Store {
    var own := if identity in store.credentials then store.credentials[identity] else map[];
    store.(credentials := store.credentials[identity := own[service := c]])
  }

  function SetCredentialIn(store: Store, identity: string, service: string, c: Option<Credential>): Mutation {
    if c.None? then None else Some(WithCredential(store, identity, service, c.value))
  }

  function SetDefaultIn(store: Store, service: string, c: Option<Credential>): Mutation {
    if c.None? then None else Some(store.(defaults := store.defaults[service := c.value]))
  }

  function RemoveCredentialIn(store: Store, identity: string, service: string): Mutation {
    if CredentialOf(store, identity, service).None? then None
    else
      var own := store.credentials[identity] - {service};
      Some(store.(credentials := if own == map[] then store.credentials - {identity}
        else store.credentials[identity := own]))
  }

  function RemoveDefaultIn(store: Store, service: string): Mutation {
    if service !in store.defaults then None else Some(store.(defaults := store.defaults - {service}))
  }

  /** Where a group stands, or the number of groups. Names are those of one object, so no two agree. */
  function Place(groups: seq<Group>, name: string): (i: nat)
    ensures i <= |groups| && (i < |groups| ==> groups[i].name == name)
  {
    if groups == [] || groups[0].name == name then 0 else 1 + Place(groups[1..], name)
  }

  predicate HasGroup(groups: seq<Group>, name: string) {
    Place(groups, name) < |groups|
  }

  function AddGroupIn(store: Store, name: string, members: seq<string>): Mutation {
    if name in store.credentials || HasGroup(store.groups, name) then None
    else Some(store.(groups := Listed(store.groups, Group(name, members))))
  }

  /** A new name stands before an old one only if it is an index, and the other is none or a larger one. */
  predicate ListedBefore(name: string, other: string) {
    IsIndexName(name)
    && (!IsIndexName(other) || |name| < |other| || (|name| == |other| && name != other && Leq(name, other)))
  }

  /** One more group, where an object lists it. */
  function Listed(groups: seq<Group>, g: Group): seq<Group> {
    if groups == [] || ListedBefore(g.name, groups[0].name) then [g] + groups
    else [groups[0]] + Listed(groups[1..], g)
  }

  /** Indices come first and ascend; the other names stand in the order they were added. */
  ghost predicate InListing(groups: seq<Group>) {
    forall i, j :: 0 <= i < j < |groups| ==> !ListedBefore(groups[j].name, groups[i].name)
  }

  lemma ListedBeforeTransitive(a: string, b: string, c: string)
    requires ListedBefore(a, b) && !ListedBefore(c, b)
    ensures !ListedBefore(c, a)
  {
    LeqTotal(c, b);
    LeqIsTotalOrder();
    assert Leq(c, a) && Leq(a, b) ==> Leq(c, b);
  }

  lemma {:induction false} ListedMembers(groups: seq<Group>, g: Group, x: Group)
    ensures x in Listed(groups, g) <==> x == g || x in groups
  {
    if groups != [] && !ListedBefore(g.name, groups[0].name) {
      ListedMembers(groups[1..], g, x);
      assert groups == [groups[0]] + groups[1..];
    }
  }

  /** Adding a group keeps the listing in order. */
  lemma {:induction false} ListedKeepsListing(groups: seq<Group>, g: Group)
    requires InListing(groups)
    ensures InListing(Listed(groups, g))
  {
    var r := Listed(groups, g);
    if groups != [] && !ListedBefore(g.name, groups[0].name) {
      assert InListing(groups[1..]);
      ListedKeepsListing(groups[1..], g);
      forall j | 0 < j < |r| ensures !ListedBefore(r[j].name, r[0].name) {
        ListedMembers(groups[1..], g, r[j]);
        assert r[j] in Listed(groups[1..], g);
        if r[j] in groups[1..] {
          var k :| 0 <= k < |groups[1..]| && groups[1..][k] == r[j];
          assert groups[k + 1] == r[j];
        }
      }
      forall i, j | 0 < i < j < |r| ensures !ListedBefore(r[j].name, r[i].name) {
        assert r[i] == Listed(groups[1..], g)[i - 1] && r[j] == Listed(groups[1..], g)[j - 1];
      }
    } else if groups != [] {
      forall j | 0 <= j < |groups| ensures !ListedBefore(groups[j].name, g.name) {
        if j > 0 {
          ListedBeforeTransitive(g.name, groups[0].name, groups[j].name);
        } else {
          Asymmetric(g.name, groups[0].name);
        }
      }
    }
  }

  lemma Asymmetric(a: string, b: string)
    requires ListedBefore(a, b)
    ensures !ListedBefore(b, a)
  {
    if Leq(a, b) && Leq(b, a) {
      LeqAntisymmetric(a, b);
    }
  }

  /** A group with other members. */
  function Regrouped(store: Store, name: string, members: seq<string>): Store
    requires HasGroup(store.groups, name)
  {
    store.(groups := store.groups[Place(store.groups, name) := Group(name, members)])
  }

  function MembersOf(store: Store, name: string): seq<string>
    requires HasGroup(store.groups, name)
  {
    store.groups[Place(store.groups, name)].members
  }

  /** Members already in the group are not added again. */
  function AddMembersIn(store: Store, name: string, members: seq<string>): Mutation {
    if !HasGroup(store.groups, name) then None
    else
      var own := MembersOf(store, name);
      Some(Regrouped(store, name, own + Keep(members, set m | m in own)))
  }

  function RemoveMembersIn(store: Store, name: string, members: seq<string>): Mutation {
    if !HasGroup(store.groups, name) then None
    else Some(Regrouped(store, name, Keep(MembersOf(store, name), set m | m in members)))
  }

  function RemoveGroupIn(store: Store, name: string): Mutation {
    if !HasGroup(store.groups, name) then None
    else
      var i := Place(store.groups, name);
      Some(store.(groups := store.groups[..i] + store.groups[i + 1..], credentials := store.credentials - {name}))
  }

  /** The services an identity or group has credentials for. */
  function ServicesOf(store: Store, identity: string): set<string> {
    if identity in store.credentials then store.credentials[identity].Keys else {}
  }

  /** A transaction: the change and the write succeed together or leave no trace. */
  function Transaction(w: World, m: Mutation, writes: bool): (World, bool) {
    if m.Some? && writes then (w.(store := m.value, disk := m.value), true) else (w, false)
  }

  datatype Change =
    | SetCredential(identity: string, service: string, credential: Option<Credential>)
    | RemoveCredential(identity: string, service: string)
    | SetDefault(service: string, credential: Option<Credential>)
    | RemoveDefault(service: string)
    | AddGroup(name: string, members: seq<string>)
    | AddMembers(name: string, members: seq<string>)
    | RemoveMembers(name: string, members: seq<string>)
    | RemoveGroup(name: string)

  function Mutate(store: Store, c: Change): Mutation {
    match c
    case SetCredential(i, s, credential) => SetCredentialIn(store, i, s, credential)
    case RemoveCredential(i, s) => RemoveCredentialIn(store, i, s)
    case SetDefault(s, credential) => SetDefaultIn(store, s, credential)
    case RemoveDefault(s) => RemoveDefaultIn(store, s)
    case AddGroup(n, ms) => AddGroupIn(store, n, ms)
    case AddMembers(n, ms) => AddMembersIn(store, n, ms)
    case RemoveMembers(n, ms) => RemoveMembersIn(store, n, ms)
    case RemoveGroup(n) => RemoveGroupIn(store, n)
  }

  /** The services a committed change closes with `closeService`. */
  function Affected(before: Store, after: Store, c: Change): set<string> {
    match c
    case SetCredential(_, _, _) => {}
    case RemoveCredential(_, _) => {}
    case SetDefault(s, _) => {s}
    case RemoveDefault(s) => {s}
    case AddGroup(n, _) => ServicesOf(after, n)
    case AddMembers(n, _) => ServicesOf(after, n)
    case RemoveMembers(n, _) => ServicesOf(after, n)
    case RemoveGroup(n) => ServicesOf(before, n)
  }

  /** Closes run until one throws, and only a bare connection's close is not caught. */
  predicate ClosesUntil(pool: Pool, all: set<string>, closed: set<string>, failing: set<string>) {
    && closed <= all && failing <= all - closed && |failing| <= 1
    && (failing == {} ==> closed == all)
    && (forall s :: s in failing ==> Bare(s) in pool)
  }

  /**
    A credential change as one step. `closed` are the services whose `closeService`
    completed; when one of them throws, the ones left over stay open.
   */
  function ChangeStep(w: World, c: Change, writes: bool, closed: set<string>, failing: set<string>): World {
    var (w1, committed) := Transaction(w, Mutate(w.store, c), writes);
    if !committed then w
    else if c.SetCredential? || c.RemoveCredential? then w1.(pool := PatternEvicted(w1.pool, c.service))
    else w1.(pool := Evicted(w1.pool, closed, failing))
  }

  // --------------------------------------------------------- config changes

  datatype ConfigChange =
    | AddService(name: string, cfg: Option<ServiceConfig>)
    | UpdateService(name: string, cfg: Option<ServiceConfig>)
    | RemoveService(name: string)
    | Replace(services: map<string, ServiceConfig>)
    | MergeIn(services: map<string, ServiceConfig>)

  /** Services a new configuration removes or changes. */
  function Superseded(old_: map<string, ServiceConfig>, new_: map<string, ServiceConfig>): set<string> {
    set n | n in old_ && (n !in new_ || old_[n] != new_[n])
  }

  /** The services a configuration change closes before it takes effect. */
  function MustClose(services: map<string, ServiceConfig>, c: ConfigChange): set<string> {
    match c
    case AddService(_, _) => {}
    case UpdateService(n, cfg) => if n in services && cfg.Some? then {n} else {}
    case RemoveService(n) => if n in services then {n} else {}
    case Replace(new_) => Superseded(services, new_)
    case MergeIn(new_) => services.Keys * new_.Keys
  }

  /** The services after a change all of whose closes completed. */
  function Configured(services: map<string, ServiceConfig>, c: ConfigChange): map<string, ServiceConfig> {
    match c
    case AddService(n, cfg) => if n !in services && cfg.Some? then services[n := cfg.value] else services
    case UpdateService(n, cfg) => if n in services && cfg.Some? then services[n := cfg.value] else services
    case RemoveService(n) => services - {n}
    case Replace(new_) => new_
    case MergeIn(new_) => services + new_
  }

  /** The services once those of `applied` have been taken over from an import. */
  function TakenOver(services: map<string, ServiceConfig>, imported: map<string, ServiceConfig>, applied: set<string>)
    : map<string, ServiceConfig>
  {
    services + map n | n in imported && n in applied :: imported[n]
  }

  /**
    A configuration change as one step. When a close throws the change stops there:
    a merge keeps the services it has already taken over (`applied`), the others
    change nothing. A failed write does not undo the change in memory.
   */
  function ConfigStep(w: World, c: ConfigChange, closed: set<string>, failing: set<string>,
      applied: set<string>): World {
    w.(services := Reconfigured(w.services, c, failing, applied), pool := Evicted(w.pool, closed, failing))
  }

  function Reconfigured(services: map<string, ServiceConfig>, c: ConfigChange, failing: set<string>,
                        applied: set<string>): map<string, ServiceConfig>
  {
    if failing == {} then Configured(services, c)
    else if c.MergeIn? then TakenOver(services, c.services, applied)
    else services
  }
}
