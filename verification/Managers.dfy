/**
  The credential and configuration managers: stores mutated in place, with the
  snapshot and rollback of a transaction and the closes that follow a change. Each
  method is proved to make one step of Credentials.
 */
module Managers {
  import opened Wrappers
  import opened Lists
  import opened PoolView
  import opened Credentials
  import opened Pools = ConnectionPool

  /** Closing services one after the other, until the close of a bare connection throws. */
  method CloseServices(pool: ConnectionPool<ServiceConfig>, names: set<string>, throws: set<string>)
    returns (closed: set<string>, failing: set<string>)
    modifies pool`connections
    ensures pool.connections == Evicted(old(pool.connections), closed, failing)
    ensures ClosesUntil(old(pool.connections), names, closed, failing) && failing <= throws
  {
    closed, failing := {}, {};
    var left := names;
    while left != {}
      invariant left <= names && closed == names - left
      invariant pool.connections == Evicted(old(pool.connections), closed, {})
      decreases |left|
    {
      var name :| name in left;
      left := left - {name};
      var done := pool.CloseService(name, name in throws);
      if !done {
        failing := {name};
        ServiceEvicted(old(pool.connections), closed, name);
        return;
      }
      ServiceEvicted(old(pool.connections), closed, name);
      closed := closed + {name};
    }
  }

  /** One service more, closed whole or only at its own key. */
  lemma ServiceEvicted(pool: Pool, closed: set<string>, name: string)
    ensures
      var before := Evicted(pool, closed, {});
      && before - {Bare(name)} == Evicted(pool, closed, {name})
      && before - ServiceKeys(before, name) == Evicted(pool, closed + {name}, {})
  {
  }

  lemma EvictedMore(pool: Pool, closed: set<string>, more: set<string>, failing: set<string>)
    ensures Evicted(Evicted(pool, closed, {}), more, failing) == Evicted(pool, closed + more, failing)
  {
  }

  lemma TakeOne(services: map<string, ServiceConfig>, imported: map<string, ServiceConfig>, applied: set<string>,
      name: string)
    requires name in imported
    ensures TakenOver(services, imported, applied + {name}) == TakenOver(services, imported,
      applied)[name := imported[name]]
  {
  }

  lemma TakeAll(services: map<string, ServiceConfig>, imported: map<string, ServiceConfig>)
    ensures TakenOver(services, imported, imported.Keys) == services + imported
    ensures TakenOver(services, imported, {}) == services
  {
  }

  class CredentialManager {
    var store: Store
    var disk: Store
    const pool: ConnectionPool<ServiceConfig>

    ghost function View(): World
      reads this, pool
    {
      World(map[], store, disk, pool.connections)
    }

    constructor (initial: Store, pool: ConnectionPool<ServiceConfig>)
      ensures store == initial && disk == initial && this.pool == pool
    {
      store, disk, this.pool := initial, initial, pool;
    }

    /** The write that ends a transaction; `snapshot` is put back when it fails. */
    method Commit(snapshot: Store, writes: bool) returns (ok: bool)
      modifies this
      ensures ok == writes
      ensures store == (if writes then old(store) else snapshot) && disk == if writes then old(store) else old(disk)
    {
      if !writes {
        store := snapshot;
        return false;
      }
      disk := store;
      return true;
    }

    method SetCredential(identity: string, service: string, credential: Option<Credential>,
        writes: bool) returns (ok: bool)
      modifies this, pool`connections
      ensures View() == ChangeStep(old(View()), Change.SetCredential(identity, service, credential), writes, {}, {})
      ensures ok == (credential.Some? && writes)
      ensures !ok ==> store == old(store) && disk == old(disk) && pool.connections == old(pool.connections)
    {
      var snapshot := store;
      if credential.None? {
        return false;
      }
      if identity !in store.credentials {
        store := store.(credentials := store.credentials[identity := map[]]);
      }
      var own := store.credentials[identity];
      store := store.(credentials := store.credentials[identity := own[service := credential.value]]);
      assert store == WithCredential(snapshot, identity, service, credential.value);
      ok := Commit(snapshot, writes);
      if ok {
        pool.CloseServicePattern(service);
      }
    }

    method RemoveCredential(identity: string, service: string, writes: bool) returns (ok: bool)
      modifies this, pool`connections
      ensures View() == ChangeStep(old(View()), Change.RemoveCredential(identity, service), writes, {}, {})
      ensures ok == (CredentialOf(old(store), identity, service).Some? && writes)
      ensures !ok ==> store == old(store) && disk == old(disk) && pool.connections == old(pool.connections)
    {
      var snapshot := store;
      if CredentialOf(store, identity, service).None? {
        return false;
      }
      var own := store.credentials[identity] - {service};
      store := store.(credentials := store.credentials[identity := own]);
      if own == map[] {
        store := store.(credentials := store.credentials - {identity});
        assert store.credentials == snapshot.credentials - {identity};
      }
      ok := Commit(snapshot, writes);
      if ok {
        pool.CloseServicePattern(service);
      }
    }

    /** The write that ends a transaction and, when it succeeds, the closes that follow it. */
    method Finish(snapshot: Store, affected: set<string>, writes: bool, throws: set<string>)
      returns (ok: bool, closed: set<string>, failing: set<string>)
      modifies this, pool`connections
      ensures ok == writes
      ensures ok
        ==> store == old(store) && disk == old(store) && ClosesUntil(old(pool.connections), affected, closed, failing)
      ensures ok ==> pool.connections == Evicted(old(pool.connections), closed, failing)
      ensures !ok ==> store == snapshot && disk == old(disk) && pool.connections == old(pool.connections)
    {
      closed, failing := {}, {};
      ok := Commit(snapshot, writes);
      if ok {
        closed, failing := CloseServices(pool, affected, throws);
      }
    }

    method SetDefault(service: string, credential: Option<Credential>, writes: bool, throws: set<string>)
      returns (ok: bool, closed: set<string>, failing: set<string>)
      modifies this, pool`connections
      ensures View() == ChangeStep(old(View()), Change.SetDefault(service, credential), writes, closed, failing)
      ensures ok == (Mutate(old(store), Change.SetDefault(service, credential)).Some? && writes)
      ensures ok ==> ClosesUntil(old(pool.connections), Affected(old(store), store,
        Change.SetDefault(service, credential)), closed, failing)
      ensures !ok ==> store == old(store) && disk == old(disk) && pool.connections == old(pool.connections)
    {
      var snapshot := store;
      if credential.None? {
        return false, {}, {};
      }
      store := store.(defaults := store.defaults[service := credential.value]);
      ok, closed, failing := Finish(snapshot, {service}, writes, throws);
    }

    method RemoveDefault(service: string, writes: bool, throws: set<string>)
      returns (ok: bool, closed: set<string>, failing: set<string>)
      modifies this, pool`connections
      ensures View() == ChangeStep(old(View()), Change.RemoveDefault(service), writes, closed, failing)
      ensures ok == (Mutate(old(store), Change.RemoveDefault(service)).Some? && writes)
      ensures ok ==> ClosesUntil(old(pool.connections), Affected(old(store), store, Change.RemoveDefault(service)),
        closed, failing)
      ensures !ok ==> store == old(store) && disk == old(disk) && pool.connections == old(pool.connections)
    {
      var snapshot := store;
      if service !in store.defaults {
        return false, {}, {};
      }
      store := store.(defaults := store.defaults - {service});
      ok, closed, failing := Finish(snapshot, {service}, writes, throws);
    }

    method AddGroup(name: string, members: seq<string>, writes: bool, throws: set<string>)
      returns (ok: bool, closed: set<string>, failing: set<string>)
      modifies this, pool`connections
      ensures View() == ChangeStep(old(View()), Change.AddGroup(name, members), writes, closed, failing)
      ensures ok == (Mutate(old(store), Change.AddGroup(name, members)).Some? && writes)
      ensures ok ==> ClosesUntil(old(pool.connections), Affected(old(store), store, Change.AddGroup(name, members)),
        closed, failing)
      ensures !ok ==> store == old(store) && disk == old(disk) && pool.connections == old(pool.connections)
    {
      var snapshot := store;
      if name in store.credentials {
        return false, {}, {};
      }
      if HasGroup(store.groups, name) {
        return false, {}, {};
      }
      store := store.(groups := Listed(store.groups, Group(name, members)));
      ok, closed, failing := Finish(snapshot, ServicesOf(store, name), writes, throws);
    }

    method AddGroupMembers(name: string, members: seq<string>, writes: bool, throws: set<string>)
      returns (ok: bool, closed: set<string>, failing: set<string>)
      modifies this, pool`connections
      ensures View() == ChangeStep(old(View()), Change.AddMembers(name, members), writes, closed, failing)
      ensures ok == (Mutate(old(store), Change.AddMembers(name, members)).Some? && writes)
      ensures ok ==> ClosesUntil(old(pool.connections), Affected(old(store), store,
        Change.AddMembers(name, members)), closed, failing)
      ensures !ok ==> store == old(store) && disk == old(disk) && pool.connections == old(pool.connections)
    {
      var snapshot := store;
      var i := Place(store.groups, name);
      if i == |store.groups| {
        return false, {}, {};
      }
      var own := store.groups[i].members;
      var newMembers := Keep(members, set m | m in own);
      store := store.(groups := store.groups[i := Group(name, own + newMembers)]);
      ok, closed, failing := Finish(snapshot, ServicesOf(store, name), writes, throws);
    }

    method RemoveGroupMembers(name: string, members: seq<string>, writes: bool, throws: set<string>)
      returns (ok: bool, closed: set<string>, failing: set<string>)
      modifies this, pool`connections
      ensures View() == ChangeStep(old(View()), Change.RemoveMembers(name, members), writes, closed, failing)
      ensures ok == (Mutate(old(store), Change.RemoveMembers(name, members)).Some? && writes)
      ensures ok ==> ClosesUntil(old(pool.connections), Affected(old(store), store,
        Change.RemoveMembers(name, members)), closed, failing)
      ensures !ok ==> store == old(store) && disk == old(disk) && pool.connections == old(pool.connections)
    {
      var snapshot := store;
      var i := Place(store.groups, name);
      if i == |store.groups| {
        return false, {}, {};
      }
      var left := Keep(store.groups[i].members, set m | m in members);
      store := store.(groups := store.groups[i := Group(name, left)]);
      ok, closed, failing := Finish(snapshot, ServicesOf(store, name), writes, throws);
    }

    /** Removes the group and the credentials assigned to its name. */
    method RemoveGroup(name: string, writes: bool, throws: set<string>)
      returns (ok: bool, closed: set<string>, failing: set<string>)
      modifies this, pool`connections
      ensures View() == ChangeStep(old(View()), Change.RemoveGroup(name), writes, closed, failing)
      ensures ok == (Mutate(old(store), Change.RemoveGroup(name)).Some? && writes)
      ensures ok ==> ClosesUntil(old(pool.connections), Affected(old(store), store, Change.RemoveGroup(name)),
        closed, failing)
      ensures !ok ==> store == old(store) && disk == old(disk) && pool.connections == old(pool.connections)
    {
      var snapshot := store;
      var i := Place(store.groups, name);
      if i == |store.groups| {
        return false, {}, {};
      }
      var affected := ServicesOf(store, name);
      store := store.(groups := store.groups[..i] + store.groups[i + 1..]);
      if name in store.credentials {
        store := store.(credentials := store.credentials - {name});
      }
      assert store.credentials == snapshot.credentials - {name};
      ok, closed, failing := Finish(snapshot, affected, writes, throws);
    }

    method ReloadFromDisk(read: Option<Store>) returns (ok: bool)
      modifies this, pool`connections
      ensures ok == read.Some?
      ensures View() == if ok then World(map[], read.value, read.value, map[]) else old(View())
    {
      if read.None? {
        return false;
      }
      store, disk := read.value, read.value;
      pool.CloseAll();
      return true;
    }
  }

  class ConfigManager {
    var services: map<string, ServiceConfig>
    const pool: ConnectionPool<ServiceConfig>

    constructor (initial: map<string, ServiceConfig>, pool: ConnectionPool<ServiceConfig>)
      ensures services == initial && this.pool == pool
    {
      services, this.pool := initial, pool;
    }

    method AddService(name: string, cfg: Option<ServiceConfig>) returns (ok: bool)
      modifies this
      ensures services == Reconfigured(old(services), ConfigChange.AddService(name, cfg), {}, {})
      ensures pool.connections == Evicted(old(pool.connections), {}, {})
      ensures ok == (name !in old(services) && cfg.Some?)
      ensures !ok ==> services == old(services)
    {
      ok := name !in services && cfg.Some?;
      if ok {
        services := services[name := cfg.value];
      }
      assert Evicted(pool.connections, {}, {}) == pool.connections;
    }

    method UpdateService(name: string, cfg: Option<ServiceConfig>, throws: bool)
      returns (ok: bool, closed: set<string>, failing: set<string>)
      modifies this, pool`connections
      ensures services == Reconfigured(old(services), ConfigChange.UpdateService(name, cfg), failing, {})
      ensures pool.connections == Evicted(old(pool.connections), closed, failing)
      ensures closed <= MustClose(old(services), ConfigChange.UpdateService(name, cfg))
      ensures failing == {} ==> closed == MustClose(old(services), ConfigChange.UpdateService(name, cfg))
      ensures !ok ==> services == old(services)
      ensures !ok && failing == {} ==> pool.connections == old(pool.connections)
    {
      ok, closed, failing := false, {}, {};
      assert Evicted(pool.connections, {}, {}) == pool.connections;
      if name in services && cfg.Some? {
        closed, failing := CloseServices(pool, {name}, if throws then {name} else {});
        if failing == {} {
          services := services[name := cfg.value];
          ok := true;
        }
      }
    }

    method RemoveService(name: string, throws: bool)
      returns (ok: bool, closed: set<string>, failing: set<string>)
      modifies this, pool`connections
      ensures services == Reconfigured(old(services), ConfigChange.RemoveService(name), failing, {})
      ensures pool.connections == Evicted(old(pool.connections), closed, failing)
      ensures closed <= MustClose(old(services), ConfigChange.RemoveService(name))
      ensures failing == {} ==> closed == MustClose(old(services), ConfigChange.RemoveService(name))
      ensures !ok ==> services == old(services)
      ensures !ok && failing == {} ==> pool.connections == old(pool.connections)
    {
      ok, closed, failing := false, {}, {};
      assert Evicted(pool.connections, {}, {}) == pool.connections;
      if name in services {
        closed, failing := CloseServices(pool, {name}, if throws then {name} else {});
        if failing == {} {
          services := services - {name};
          ok := true;
        }
      } else {
        assert services - {name} == services;
      }
    }

    /** `reloadFromDisk`, and `importFromUrl` in replace mode, once the new file is valid. */
    method Replace(updated: map<string, ServiceConfig>, throws: set<string>)
      returns (ok: bool, closed: set<string>, failing: set<string>)
      modifies this, pool`connections
      ensures services == Reconfigured(old(services), ConfigChange.Replace(updated), failing, {})
      ensures pool.connections == Evicted(old(pool.connections), closed, failing)
      ensures closed <= MustClose(old(services), ConfigChange.Replace(updated))
      ensures failing == {} ==> closed == MustClose(old(services), ConfigChange.Replace(updated))
      ensures !ok ==> services == old(services)
      ensures !ok && failing == {} ==> pool.connections == old(pool.connections)
    {
      closed, failing := CloseServices(pool, Superseded(services, updated), throws);
      ok := failing == {};
      if ok {
        services := updated;
      }
    }

    /** One service of an import: closed if it is known, then taken over. */
    method TakeOver(name: string, cfg: ServiceConfig, throws: set<string>) returns (known: bool, stuck: bool)
      modifies this, pool`connections
      ensures known == (name in old(services)) && (stuck ==> known)
      ensures services == if stuck then old(services) else old(services)[name := cfg]
      ensures pool.connections ==
              Evicted(old(pool.connections), if known && !stuck then {name} else {}, if stuck then {name} else {})
    {
      known, stuck := name in services, false;
      assert Evicted(pool.connections, {}, {}) == pool.connections;
      if known {
        var closed, failing := CloseServices(pool, {name}, throws);
        stuck := failing != {};
        assert stuck ==> failing == {name} && closed == {};
      }
      if !stuck {
        services := services[name := cfg];
      }
    }

    /** The listed services in turn, until one is stuck. */
    method TakeOverAll(imported: map<string, ServiceConfig>, throws: set<string>)
      returns (closed: set<string>, failing: set<string>, applied: set<string>)
      modifies this, pool`connections
      ensures services == TakenOver(old(services), imported, applied)
      ensures pool.connections == Evicted(old(pool.connections), closed, failing)
      ensures applied <= imported.Keys && closed == applied * old(services).Keys
      ensures failing == {} ==> applied == imported.Keys
    {
      closed, failing, applied := {}, {}, {};
      ghost var services0, pool0, known0 := services, pool.connections, services.Keys;
      TakeAll(services, imported);
      assert Evicted(pool0, {}, {}) == pool0;
      while applied != imported.Keys && failing == {}
        invariant applied <= imported.Keys && closed == applied * known0
        invariant services == TakenOver(services0, imported, applied)
        invariant pool.connections == Evicted(pool0, closed, failing)
        decreases |imported.Keys - applied|, failing == {}
      {
        assert imported.Keys - applied != {};
        var name :| name in imported.Keys - applied;
        var known, stuck := TakeOver(name, imported[name], throws);
        var more, failed := if known && !stuck then {name} else {}, if stuck then {name} else {};
        EvictedMore(pool0, closed, more, failed);
        TakeOne(services0, imported, applied, name);
        assert known <==> name in known0;
        Bookkeeping(imported.Keys, known0, applied, name, closed, more);
        closed, failing := closed + more, failed;
        if !stuck {
          applied := applied + {name};
        }
      }
    }

    /** `importFromUrl` in merge mode. */
    method MergeIn(imported: map<string, ServiceConfig>, throws: set<string>)
      returns (ok: bool, closed: set<string>, failing: set<string>, applied: set<string>)
      modifies this, pool`connections
      ensures services == Reconfigured(old(services), ConfigChange.MergeIn(imported), failing, applied)
      ensures pool.connections == Evicted(old(pool.connections), closed, failing)
      ensures applied * old(services).Keys <= closed <= MustClose(old(services), ConfigChange.MergeIn(imported))
      ensures failing == {} ==> closed == MustClose(old(services), ConfigChange.MergeIn(imported))
    {
      TakeAll(services, imported);
      closed, failing, applied := TakeOverAll(imported, throws);
      ok := failing == {};
    }
  }

  lemma Bookkeeping<T>(all: set<T>, known: set<T>, applied: set<T>, name: T, closed: set<T>, more: set<T>)
    requires applied <= all && name in all - applied && closed == applied * known
    ensures more == {} ==> closed + more == closed
    ensures more == (if name in known then {name} else {}) ==> closed + more == (applied + {name}) * known
    ensures |all - (applied + {name})| < |all - applied|
  {
    assert all - (applied + {name}) == all - applied - {name};
  }
}
