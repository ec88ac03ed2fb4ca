/**
  The pool's two maps and the segments of its methods that run without an `await`
  in between. `PoolRuns` interleaves these segments.
 */
module PoolView {

  /**
    A service name, or the encoding of `[service, identity]` that `userPoolKey`
    makes of a service and an identity (taken as injective and never a bare name).
   */
  datatype Key = Bare(service: string) | Scoped(service: string, identity: string)

  datatype Entry<C> = Entry(connection: C, base: string)

  /** `pending` maps a key to the attempt that is connecting it. */
  datatype View<C> = View(connections: map<Key, Entry<C>>, pending: map<Key, nat>)

  datatype Admission = Joined(attempt: nat) | LimitReached | NotConfigured | Started(attempt: nat)

  /**
    `getConnection` from the look at `pending` to the entry in it: join the attempt
    under way, refuse, or start attempt `id`.
   */
  function Admit<C>(v: View<C>, key: Key, maxSize: int, configured: bool, id: nat): (View<C>, Admission) {
    if key in v.pending then (v, Joined(v.pending[key]))
    else if key !in v.connections && |v.connections| >= maxSize then (v, LimitReached)
    else if !configured then (v, NotConfigured)
    else (v.(pending := v.pending[key := id]), Started(id))
  }

  function Connected<C>(v: View<C>, key: Key, entry: Entry<C>): View<C> {
    View(v.connections[key := entry], v.pending - {key})
  }

  function Failed<C>(v: View<C>, key: Key): View<C> {
    v.(pending := v.pending - {key})
  }

  /** Keys `closeServicePattern` closes: opened for the service under another key. */
  function ScopedKeys<C>(connections: map<Key, Entry<C>>, name: string): set<Key> {
    set k | k in connections && connections[k].base == name && k != Bare(name)
  }

  /** Keys `closeService` closes. */
  function ServiceKeys<C>(connections: map<Key, Entry<C>>, name: string): set<Key> {
    ScopedKeys(connections, name) + {Bare(name)}
  }
}

/** The pool itself: each method changes the maps as the functions of PoolView say. */
module ConnectionPool {
  import opened Wrappers
  import opened P = PoolView

  class ConnectionPool<C> {
    var connections: map<Key, Entry<C>>
    var pending: map<Key, nat>
    const maxSize: int

    function Current(): View<C>
      reads this
    {
      View(connections, pending)
    }

    constructor (maxSize: int)
      ensures connections == map[] && pending == map[] && this.maxSize == maxSize
    {
      connections, pending, this.maxSize := map[], map[], maxSize;
    }

    method Lookup(key: Key) returns (cached: Option<Entry<C>>)
      ensures cached == if key in connections then Some(connections[key]) else None
    {
      cached := if key in connections then Some(connections[key]) else None;
    }

    /** A cached connection failed its health check. */
    method DropStale(key: Key)
      modifies `connections
      ensures connections == old(connections) - {key}
    {
      connections := connections - {key};
    }

    method Admit(key: Key, configured: bool, id: nat) returns (r: Admission)
      modifies `pending
      ensures (Current(), r) == old(P.Admit(Current(), key, maxSize, configured, id))
    {
      if key in pending {
        return Joined(pending[key]);
      }
      if key !in connections {
        if |connections| >= maxSize {
          return LimitReached;
        }
      }
      if !configured {
        return NotConfigured;
      }
      pending := pending[key := id];
      return Started(id);
    }

    method SettleConnected(key: Key, connection: C, base: string)
      modifies this
      ensures Current() == old(P.Connected(Current(), key, Entry(connection, base)))
    {
      connections := connections[key := Entry(connection, base)];
      pending := pending - {key};
    }

    method SettleFailed(key: Key)
      modifies `pending
      ensures Current() == old(P.Failed(Current(), key))
    {
      pending := pending - {key};
    }

    method CollectScoped(name: string) returns (toClose: set<Key>)
      ensures toClose == ScopedKeys(connections, name)
    {
      toClose := {};
      var left := connections.Keys;
      while left != {}
        invariant left <= connections.Keys
        invariant toClose == ScopedKeys(connections, name) - left
        decreases |left|
      {
        var key :| key in left;
        left := left - {key};
        if connections[key].base == name && key != Bare(name) {
          toClose := toClose + {key};
        }
      }
    }

    /** Collects the scoped keys first, then deletes them one at a time. */
    method CloseServicePattern(name: string)
      modifies `connections
      ensures connections == old(connections) - ScopedKeys(old(connections), name)
    {
      var toClose := CollectScoped(name);
      ghost var all := toClose;
      while toClose != {}
        invariant toClose <= all
        invariant connections == old(connections) - (all - toClose)
        decreases |toClose|
      {
        var key :| key in toClose;
        connections := connections - {key};
        toClose := toClose - {key};
      }
    }

    /** The exact key, then the scoped ones; `closed` is false when closing the exact one throws. */
    method CloseService(name: string, closeThrows: bool) returns (closed: bool)
      modifies `connections
      ensures closed == !(Bare(name) in old(connections) && closeThrows)
      ensures connections == old(connections) - if closed then ServiceKeys(old(connections), name) else {Bare(name)}
    {
      if Bare(name) in connections {
        connections := connections - {Bare(name)};
        if closeThrows {
          return false;
        }
      }
      CloseServicePattern(name);
      assert ScopedKeys(connections, name) == {};
      return true;
    }

    method CloseAll()
      modifies `connections
      ensures connections == map[]
    {
      connections := map[];
    }
  }
}
