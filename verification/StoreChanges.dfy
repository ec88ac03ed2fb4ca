/** What the changes of credentials, groups and services do, said by lookups. */
module StoreChanges {
  import opened Wrappers
  import opened Lists
  import opened PoolView
  import opened Credentials
  import opened Resolution

  // ---------------------------------------------------------------- credentials

  /** All but one credential are as before. */
  ghost predicate SameElsewhere(a: Store, b: Store, identity: string, service: string) {
    a.groups == b.groups && a.defaults == b.defaults &&
      forall i, s :: i != identity || s != service ==>
        (Owns(a, i, s) <==> Owns(b, i, s)) && (Owns(a, i, s) ==> a.credentials[i][s] == b.credentials[i][s])
  }

  lemma SetCredentialIs(store: Store, identity: string, service: string, c: Option<Credential>)
    ensures match Mutate(store, SetCredential(identity, service, c))
      case None => c == None
      case Some(t) =>
        && c.Some? && Owns(t, identity, service) && t.credentials[identity][service] == c.value
        && SameElsewhere(store, t, identity, service) && t.credentials.Keys == store.credentials.Keys + {identity}
  {
  }

  /** An identity without credentials left is dropped. */
  lemma RemoveCredentialIs(store: Store, identity: string, service: string)
    ensures match Mutate(store, RemoveCredential(identity, service))
      case None => !Owns(store, identity, service)
      case Some(t) =>
        && Owns(store, identity, service) && !Owns(t, identity, service) && SameElsewhere(store, t, identity, service)
        && forall i :: i in t.credentials <==>
             i in store.credentials && (i == identity ==> exists s :: s != service && Owns(store, i, s))
  {
    if Owns(store, identity, service) {
      var own := store.credentials[identity] - {service};
      if own != map[] {
        var s :| s in own;
        assert s != service && Owns(store, identity, s);
      } else {
        forall s ensures !(s != service && Owns(store, identity, s)) {
          assert s != service && Owns(store, identity, s) ==> s in own;
        }
      }
    }
  }

  lemma DefaultsAre(store: Store, service: string, c: Option<Credential>)
    ensures match Mutate(store, SetDefault(service, c))
      case None => c == None
      case Some(t) =>
        && c.Some? && t.groups == store.groups && t.credentials == store.credentials
        && (forall s :: s in t.defaults <==> s in store.defaults || s == service)
        && (forall s :: s in t.defaults ==> t.defaults[s] == if s == service then c.value else store.defaults[s])
    ensures match Mutate(store, RemoveDefault(service))
      case None => service !in store.defaults
      case Some(t) =>
        && service in store.defaults && t.groups == store.groups && t.credentials == store.credentials
        && (forall s :: s in t.defaults <==> s in store.defaults && s != service)
        && (forall s :: s in t.defaults ==> t.defaults[s] == store.defaults[s])
  {
  }

  // --------------------------------------------------------------------- groups

  ghost predicate IsGroupAt(store: Store, name: string, i: nat) {
    i < |store.groups| && store.groups[i].name == name && forall j :: 0 <= j < i ==> store.groups[j].name != name
  }

  ghost predicate IsGroup(store: Store, name: string) {
    exists i: nat :: IsGroupAt(store, name, i)
  }

  lemma {:induction false} PlaceIs(groups: seq<Group>, name: string)
    ensures forall j :: 0 <= j < Place(groups, name) ==> groups[j].name != name
  {
    if groups != [] && groups[0].name != name {
      PlaceIs(groups[1..], name);
      forall j | 0 <= j < Place(groups, name) ensures groups[j].name != name {
        assert j > 0 ==> groups[j] == groups[1..][j - 1];
      }
    }
  }

  lemma HasGroupIff(store: Store, name: string)
    ensures HasGroup(store.groups, name) <==> IsGroup(store, name)
    ensures HasGroup(store.groups, name) ==> IsGroupAt(store, name, Place(store.groups, name))
  {
    PlaceIs(store.groups, name);
    if HasGroup(store.groups, name) {
      assert IsGroupAt(store, name, Place(store.groups, name));
    }
  }

  /** `part` is `whole` without the elements of `gone`, in order and as often. */
  ghost predicate IsRest(part: seq<string>, whole: seq<string>, gone: seq<string>) {
    && (exists at :: StandsAt(part, whole, at))
    && forall x :: multiset(part)[x] == if x in gone then 0 else multiset(whole)[x]
  }

  lemma {:induction false} KeepStands<T>(s: seq<T>, gone: set<T>) returns (at: seq<nat>)
    ensures StandsAt(Keep(s, gone), s, at)
  {
    if s == [] {
      at := [];
    } else {
      var n := |s| - 1;
      var before := KeepStands(s[..n], gone);
      StandsLonger(Keep(s[..n], gone), s, before, n);
      at := if s[n] in gone then before else before + [n];
    }
  }

  lemma StandsLonger<T>(part: seq<T>, s: seq<T>, at: seq<nat>, n: nat)
    requires n == |s| - 1 && StandsAt(part, s[..n], at)
    ensures StandsAt(part, s, at) && StandsAt(part + [s[n]], s, at + [n])
  {
    forall k | 0 <= k < |at| ensures at[k] < n && s[at[k]] == part[k] {
      assert s[..n][at[k]] == part[k];
    }
  }

  lemma {:induction false} KeepCounts<T>(s: seq<T>, gone: set<T>, x: T)
    ensures multiset(Keep(s, gone))[x] == if x in gone then 0 else multiset(s)[x]
  {
    if s != [] {
      var front, last := s[..|s| - 1], s[|s| - 1];
      KeepCounts(front, gone, x);
      assert s == front + [last];
      assert multiset(s)[x] == multiset(front)[x] + multiset([last])[x];
      if last !in gone {
        assert multiset(Keep(s, gone))[x] == multiset(Keep(front, gone))[x] + multiset([last])[x];
      }
    }
  }

  lemma KeepIsRest(s: seq<string>, gone: seq<string>)
    ensures IsRest(Keep(s, set m | m in gone), s, gone)
  {
    var g := set m | m in gone;
    var at := KeepStands(s, g);
    forall x ensures multiset(Keep(s, g))[x] == if x in gone then 0 else multiset(s)[x] {
      KeepCounts(s, g, x);
    }
  }

  /** A new group, refused when its name is taken by a group or by an identity with credentials. */
  lemma AddGroupIs(store: Store, name: string, members: seq<string>)
    ensures match Mutate(store, AddGroup(name, members))
      case None => IsGroup(store, name) || name in store.credentials
      case Some(t) =>
        && !IsGroup(store, name) && name !in store.credentials
        && t.credentials == store.credentials && t.defaults == store.defaults
        && IsInserted(store.groups, Group(name, members), t.groups)
  {
    HasGroupIff(store, name);
    ListedInserts(store.groups, Group(name, members));
  }

  /** One group more, the others as they were and in their order. */
  ghost predicate IsInserted(groups: seq<Group>, g: Group, r: seq<Group>) {
    exists i :: 0 <= i <= |groups| && r == groups[..i] + [g] + groups[i..]
  }

  lemma {:induction false} ListedInserts(groups: seq<Group>, g: Group)
    ensures IsInserted(groups, g, Listed(groups, g))
  {
    if groups == [] || ListedBefore(g.name, groups[0].name) {
      assert groups[..0] + [g] + groups[0..] == [g] + groups;
    } else {
      ListedInserts(groups[1..], g);
      var i :| 0 <= i <= |groups[1..]| && Listed(groups[1..], g) == groups[1..][..i] + [g] + groups[1..][i..];
      assert groups[..i + 1] + [g] + groups[i + 1..] == [groups[0]] + (groups[1..][..i] + [g] + groups[1..][i..]);
    }
  }

  /** One group gets other members and everything else stays. */
  ghost predicate Remembered(store: Store, t: Store, i: nat, members: seq<string>)
    requires i < |store.groups|
  {
    && t.credentials == store.credentials && t.defaults == store.defaults && |t.groups| == |store.groups|
    && forall j :: 0 <= j < |t.groups| ==>
         t.groups[j] == if j == i then Group(store.groups[i].name, members) else store.groups[j]
  }

  /** New members come behind the old ones, unless they are members already. */
  lemma AddMembersIs(store: Store, name: string, members: seq<string>)
    ensures match Mutate(store, AddMembers(name, members))
      case None => !IsGroup(store, name)
      case Some(t) => exists i: nat, more ::
        && IsGroupAt(store, name, i) && IsRest(more, members, store.groups[i].members)
        && Remembered(store, t, i, store.groups[i].members + more)
  {
    HasGroupIff(store, name);
    if HasGroup(store.groups, name) {
      var i := Place(store.groups, name);
      var own := MembersOf(store, name);
      KeepIsRest(members, own);
      var more := Keep(members, set m | m in own);
      assert Remembered(store, AddMembersIn(store, name, members).value, i, own + more);
    }
  }

  lemma RemoveMembersIs(store: Store, name: string, members: seq<string>)
    ensures match Mutate(store, RemoveMembers(name, members))
      case None => !IsGroup(store, name)
      case Some(t) => exists i: nat, left ::
        && IsGroupAt(store, name, i) && IsRest(left, store.groups[i].members, members)
        && Remembered(store, t, i, left)
  {
    HasGroupIff(store, name);
    if HasGroup(store.groups, name) {
      var i := Place(store.groups, name);
      KeepIsRest(MembersOf(store, name), members);
      var left := Keep(MembersOf(store, name), set m | m in members);
      assert Remembered(store, RemoveMembersIn(store, name, members).value, i, left);
    }
  }

  /** A group goes with the credentials under its name. */
  lemma RemoveGroupIs(store: Store, name: string)
    ensures match Mutate(store, RemoveGroup(name))
      case None => !IsGroup(store, name)
      case Some(t) =>
        && (exists i: nat :: IsGroupAt(store, name, i) && t.groups == store.groups[..i] + store.groups[i + 1..])
        && t.defaults == store.defaults && (forall i :: i in t.credentials <==> i in store.credentials && i != name)
        && forall i :: i in t.credentials ==> t.credentials[i] == store.credentials[i]
  {
    HasGroupIff(store, name);
  }

  // ------------------------------------------------------------------- services

  /** The entry under a name is this one, or there is none. */
  predicate EntryIs(services: map<string, ServiceConfig>, name: string, cfg: Option<ServiceConfig>) {
    if cfg.Some? then name in services && services[name] == cfg.value else name !in services
  }

  /** What is to be found under a name. */
  function EntryOf(services: map<string, ServiceConfig>, name: string): Option<ServiceConfig> {
    if name in services then Some(services[name]) else None
  }

  /** The entry under `m` after a configuration change whose closes all completed. */
  lemma ConfiguredIs(services: map<string, ServiceConfig>, c: ConfigChange, m: string)
    ensures
      var after, before := Configured(services, c), EntryOf(services, m);
      match c
      case AddService(n, cfg) => EntryIs(after, m, if m == n && before == None then cfg else before)
      case UpdateService(n, cfg) => EntryIs(after, m, if m == n && before.Some? && cfg.Some? then cfg else before)
      case RemoveService(n) => EntryIs(after, m, if m == n then None else before)
      case Replace(new_) => EntryIs(after, m, EntryOf(new_, m))
      case MergeIn(new_) => EntryIs(after, m, if m in new_ then EntryOf(new_, m) else before)
  {
  }

  /** A close that throws stops the change: a merge keeps what it has taken over, the others do nothing. */
  lemma StoppedIs(services: map<string, ServiceConfig>, c: ConfigChange, failing: set<string>, applied: set<string>,
      m: string)
    requires failing != {}
    ensures EntryIs(Reconfigured(services, c, failing, applied), m,
      if c.MergeIn? && m in applied && m in c.services then EntryOf(c.services, m) else EntryOf(services, m))
  {
  }

  // ----------------------------------------------------------------- pool keys

  /** Two resolved credentials have one pool key exactly when they are the same assignment of one service. */
  lemma KeysAreSourcesIff(service: string, r: Resolved, other: string, q: Resolved)
    ensures KeyFor(service, r) == KeyFor(other, q) <==>
      service == other && r.source == q.source && (r.source != Default ==> r.identity == q.identity)
  {
    if KeyFor(service, r) == KeyFor(other, q) && r.source != Default {
      var a, b := Owner(r), Owner(q);
      assert a == b && a[0] == b[0];
      assert ("user:" + r.identity)[5..] == r.identity && ("group:" + r.identity)[6..] == r.identity;
      assert ("user:" + q.identity)[5..] == q.identity && ("group:" + q.identity)[6..] == q.identity;
    }
  }
}
