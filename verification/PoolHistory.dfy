/**
  The state of a daemon by what has happened to it: which attempt serves a key, whose
  record is in a breaker file, and why an attempt ended as it did.
 */
module PoolHistory {
  import opened PoolView
  import opened PoolRuns
  import B = CircuitBreaker

  // --------------------------------------------------------------- what happened

  /** An event, and the state it met. */
  datatype Happening = Happening(s: State, e: Event)

  ghost function Trace(start: State, events: seq<Event>, cfg: Config): seq<Happening>
    requires Runs(start, events, cfg)
    decreases |events|
  {
    if events == [] then []
    else
      var front := events[..|events| - 1];
      Trace(start, front, cfg) + [Happening(After(start, front, cfg), events[|events| - 1])]
  }

  lemma {:induction false} RunsPrefix(start: State, events: seq<Event>, cfg: Config, n: nat)
    requires Runs(start, events, cfg) && n <= |events|
    ensures Runs(start, events[..n], cfg)
    decreases |events|
  {
    if n == |events| {
      assert events[..n] == events;
    } else {
      RunsPrefix(start, events[..|events| - 1], cfg, n);
      assert events[..|events| - 1][..n] == events[..n];
    }
  }

  /** Each event, and the state the earlier ones lead to. */
  lemma {:induction false} TraceIs(start: State, events: seq<Event>, cfg: Config, i: nat)
    requires Runs(start, events, cfg) && i < |events|
    ensures |Trace(start, events, cfg)| == |events| && Runs(start, events[..i], cfg)
    ensures Trace(start, events, cfg)[i] == Happening(After(start, events[..i], cfg), events[i])
    decreases |events|
  {
    RunsPrefix(start, events, cfg, i);
    var front := events[..|events| - 1];
    if i < |front| {
      TraceIs(start, front, cfg, i);
      assert front[..i] == events[..i];
    } else if front != [] {
      TraceIs(start, front, cfg, 0);
    }
  }

  // ------------------------------------------------------- what serves a key

  /** The event ends an attempt `id` for the key well. */
  ghost predicate Puts(s: State, e: Event, k: Key, id: nat) {
    e == Settle(id) && id in s.attempts && s.attempts[id].key == k && s.attempts[id].phase == Ended(true)
  }

  /** The event closes the key's connection, or replaces it. */
  ghost predicate Touches(s: State, e: Event, k: Key) {
    || e == Evict(k)
    || (e.Stale? && e.caller in s.callers && s.callers[e.caller].key == k)
    || exists id: nat :: Puts(s, e, k, id)
  }

  /** Attempt `id` ended well for the key, and nothing has touched its connection since. */
  ghost predicate Serves(h: seq<Happening>, k: Key, id: nat) {
    exists i :: ServesSince(h, k, id, i)
  }

  ghost predicate ServesSince(h: seq<Happening>, k: Key, id: nat, i: int) {
    && 0 <= i < |h| && Puts(h[i].s, h[i].e, k, id)
    && forall j :: i < j < |h| ==> !Touches(h[j].s, h[j].e, k)
  }

  /** The key is connected through attempt `id`. */
  ghost predicate Connects(s: State, k: Key, id: nat) {
    k in s.pool.connections && s.pool.connections[k] == Entry(id, k.service)
  }

  lemma StepConnects(s: State, e: Event, cfg: Config, k: Key, id: nat)
    requires Enabled(s, e)
    ensures Connects(Next(s, e, cfg), k, id) <==> Puts(s, e, k, id) || (Connects(s, k, id) && !Touches(s, e, k))
  {
    StepPool(s, e, cfg, k);
  }

  /** What a step does to the connection of a key. */
  lemma StepPool(s: State, e: Event, cfg: Config, k: Key)
    requires Enabled(s, e)
    ensures
      var before, after := s.pool.connections, Next(s, e, cfg).pool.connections;
      && (forall id: nat :: Puts(s, e, k, id) ==> k in after && after[k] == Entry(id, k.service))
      && (!Touches(s, e, k) ==> (k in after <==> k in before) && (k in before ==> after[k] == before[k]))
      && ((forall id: nat :: !Puts(s, e, k, id)) && Touches(s, e, k) ==> k !in after)
  {
    if IsMove(e) {
      MoveIsMove(s, e, cfg);
    } else if e.Settle? {
      SettlePool(s, e.id, cfg, k);
    } else if e.Arrive? || e.Resume? {
      EnterPool(s, e, cfg);
    }
  }

  /** A request closes nothing and connects nothing at once. */
  lemma EnterPool(s: State, e: Event, cfg: Config)
    requires Enabled(s, e) && (e.Arrive? || e.Resume?)
    ensures Next(s, e, cfg).pool.connections == s.pool.connections
  {
  }

  lemma SettlePool(s: State, id: nat, cfg: Config, k: Key)
    requires Enabled(s, Settle(id))
    ensures
      var before, after := s.pool.connections, Next(s, Settle(id), cfg).pool.connections;
      if Puts(s, Settle(id), k, id) then k in after && after[k] == Entry(id, k.service)
      else (k in after <==> k in before) && (k in before ==> after[k] == before[k])
  {
    if s.attempts[id].key == k && s.attempts[id].phase.ok {
      assert Puts(s, Settle(id), k, id);
    }
  }

  lemma ServesSnoc(h: seq<Happening>, last: Happening, k: Key, id: nat)
    ensures Serves(h + [last], k, id) <==>
      Puts(last.s, last.e, k, id) || (Serves(h, k, id) && !Touches(last.s, last.e, k))
  {
    var all := h + [last];
    assert forall j :: 0 <= j < |h| ==> all[j] == h[j];
    assert all[|h|] == last;
    if Serves(all, k, id) {
      var i :| ServesSince(all, k, id, i);
      if i < |h| {
        assert !Touches(all[|h|].s, all[|h|].e, k);
        assert forall j :: i < j < |h| ==> !Touches(all[j].s, all[j].e, k);
        assert ServesSince(h, k, id, i);
      }
    }
    if Puts(last.s, last.e, k, id) {
      assert ServesSince(all, k, id, |h|);
    }
    if Serves(h, k, id) && !Touches(last.s, last.e, k) {
      var i :| ServesSince(h, k, id, i);
      assert ServesSince(all, k, id, i);
    }
  }

  /**
    In every interleaving a key is connected exactly through the attempt that last ended
    well for it, and only while nothing has closed that connection.
   */
  lemma {:induction false} ConnectedIff(start: State, events: seq<Event>, cfg: Config, k: Key, id: nat)
    requires Runs(start, events, cfg)
    ensures Connects(After(start, events, cfg), k, id) <==> Serves(Trace(start, events, cfg), k, id)
    decreases |events|
  {
    if events != [] {
      var front, last := events[..|events| - 1], events[|events| - 1];
      ConnectedIff(start, front, cfg, k, id);
      ServesSnoc(Trace(start, front, cfg), Happening(After(start, front, cfg), last), k, id);
      StepConnects(After(start, front, cfg), last, cfg, k, id);
    }
  }

  /** Every connection is one an attempt made. */
  lemma {:induction false} EveryConnectionServes(start: State, events: seq<Event>, cfg: Config, k: Key)
    requires Runs(start, events, cfg) && k in After(start, events, cfg).pool.connections
    ensures exists id :: Connects(After(start, events, cfg), k, id) && Serves(Trace(start, events, cfg), k, id)
    decreases |events|
  {
    var front, e := events[..|events| - 1], events[|events| - 1];
    var s := After(start, front, cfg);
    StepPool(s, e, cfg, k);
    var id: nat;
    if n: nat :| Puts(s, e, k, n) {
      id := n;
    } else {
      EveryConnectionServes(start, front, cfg, k);
      id :| Connects(s, k, id) && Serves(Trace(start, front, cfg), k, id);
    }
    StepConnects(s, e, cfg, k, id);
    ConnectedIff(start, events, cfg, k, id);
  }

  // ------------------------------------------------------- who may connect

  /** What `getConnection` does once the key has no connection that it trusts, in the order of its tests. */
  lemma AdmissionIff<C>(v: View<C>, key: Key, maxSize: int, configured: bool, id: nat)
    ensures
      var (after, r) := Admit(v, key, maxSize, configured, id);
      var full := key !in v.connections && |v.connections| >= maxSize;
      && (r.Joined? <==> key in v.pending) && (r.Joined? ==> r.attempt == v.pending[key])
      && (r == Admission.LimitReached <==> key !in v.pending && full)
      && (r == Admission.NotConfigured <==> key !in v.pending && !full && !configured)
      && (r.Started? <==> key !in v.pending && !full && configured) && (r.Started? ==> r.attempt == id)
      && after.connections == v.connections
      && (forall k :: k in after.pending <==> k in v.pending || (k == key && r.Started?))
      && (forall k :: k in after.pending ==> after.pending[k] == if k in v.pending then v.pending[k] else id)
  {
  }

  // -------------------------------------------------- why an attempt ended

  /** What has happened to attempt `id`. */
  ghost predicate Was(events: seq<Event>, e: Event) {
    e in events
  }

  /** Its secrets, its gate or its record could not be had. */
  ghost predicate Broke(events: seq<Event>, id: nat) {
    Was(events, SecretsFail(id)) || Was(events, GateFails(id)) || Was(events, RecordFails(id))
  }

  /** A remote connect that was made is lost only when its record fails. */
  ghost predicate KeepsConnect(events: seq<Event>, id: nat) {
    Was(events, RemoteConnects(id)) ==> Was(events, RecordFails(id))
  }

  ghost predicate Explained(events: seq<Event>, id: nat, a: Attempt) {
    match a.phase
    case Resolving => !Was(events, RemoteConnects(id))
    case Gate => a.backend.Remote? && !Was(events, RemoteConnects(id))
    case GateLoaded(_) => a.backend.Remote? && !Was(events, RemoteConnects(id))
    case Connecting => a.backend.Remote? && !Was(events, RemoteConnects(id))
    case Recording(ok) => a.backend.Remote? && ExplainsRecord(events, id, ok)
    case RecordLoaded(ok, _) => a.backend.Remote? && ExplainsRecord(events, id, ok)
    case RecordSaving(ok, _) => a.backend.Remote? && ExplainsRecord(events, id, ok)
    case Local => (a.backend.Stdio? || HasFallback(a.backend)) && KeepsConnect(events, id)
    case Ended(ok) => ExplainsEnd(events, id, a.backend, ok)
  }

  ghost predicate ExplainsRecord(events: seq<Event>, id: nat, ok: bool) {
    if ok then Was(events, RemoteConnects(id)) else KeepsConnect(events, id)
  }

  /** The reasons for an attempt to end well, and to end badly. */
  ghost predicate ExplainsEnd(events: seq<Event>, id: nat, backend: Backend, ok: bool) {
    if ok then
      || (backend.Remote? && Was(events, RemoteConnects(id)) && Was(events, RecordSave(id)))
      || ((backend.Stdio? || HasFallback(backend)) && Was(events, LocalEnds(id, true)))
    else
      && KeepsConnect(events, id)
      && (backend.Stdio? || HasFallback(backend) ==> Broke(events, id) || Was(events, LocalEnds(id, false)))
  }

  /** Only attempts that have begun are in the events. */
  ghost predicate Known(events: seq<Event>, s: State) {
    forall e :: e in events && IsMove(e) ==> Mover(e) < s.nextId
  }

  ghost predicate AllExplained(events: seq<Event>, s: State) {
    forall id :: id in s.attempts ==> Explained(events, id, s.attempts[id])
  }

  lemma OtherStays(events: seq<Event>, e: Event, id: nat, a: Attempt)
    requires Explained(events, id, a) && (IsMove(e) ==> Mover(e) != id)
    ensures Explained(events + [e], id, a)
  {
  }

  lemma MoverExplained(events: seq<Event>, s: State, e: Event, cfg: Config)
    requires IsMove(e) && Enabled(s, e) && Mover(e) in s.attempts && Explained(events, Mover(e), s.attempts[Mover(e)])
    ensures Mover(e) in Next(s, e, cfg).attempts
    ensures Explained(events + [e], Mover(e), Next(s, e, cfg).attempts[Mover(e)])
  {
    assert Was(events + [e], e);
    assert forall f :: Was(events, f) ==> Was(events + [e], f);
    assert forall f :: Was(events + [e], f) ==> Was(events, f) || f == e;
  }

  lemma FreshExplained(events: seq<Event>, e: Event, id: nat, a: Attempt)
    requires (forall f :: f in events && IsMove(f) ==> Mover(f) < id) && !IsMove(e) && a.phase == Resolving
    ensures Explained(events + [e], id, a)
  {
    assert IsMove(RemoteConnects(id)) && Mover(RemoteConnects(id)) == id;
  }

  lemma StepExplained(events: seq<Event>, s: State, e: Event, cfg: Config)
    requires Enabled(s, e) && SingleFlight(s) && AllExplained(events, s) && Known(events, s)
    ensures AllExplained(events + [e], Next(s, e, cfg)) && Known(events + [e], Next(s, e, cfg))
  {
    var t := Next(s, e, cfg);
    if IsMove(e) {
      MoveIsMove(s, e, cfg);
      MoverExplained(events, s, e, cfg);
    }
    forall id | id in t.attempts ensures Explained(events + [e], id, t.attempts[id]) {
      if id !in s.attempts {
        FreshExplained(events, e, id, t.attempts[id]);
      } else if !IsMove(e) || Mover(e) != id {
        OtherStays(events, e, id, s.attempts[id]);
      }
    }
  }

  lemma {:induction false} AlwaysExplained(start: State, events: seq<Event>, cfg: Config)
    requires Runs(start, events, cfg)
    ensures AllExplained(events, After(start, events, cfg)) && Known(events, After(start, events, cfg))
    decreases |events|
  {
    if events != [] {
      var front := events[..|events| - 1];
      AlwaysExplained(start, front, cfg);
      AlwaysSingleFlight(start, front, cfg);
      StepExplained(front, After(start, front, cfg), events[|events| - 1], cfg);
      assert events == front + [events[|events| - 1]];
    }
  }

  /**
    In every interleaving: an attempt ends well only with a remote connection whose success
    is recorded, or with a local one. A remote connection that was made is not lost unless
    its record failed. And with a local way to connect an attempt ends badly only when its
    secrets, its gate or its record could not be had, or when the local way failed too.
   */
  lemma OutcomesExplained(start: State, events: seq<Event>, cfg: Config, id: nat)
    requires Runs(start, events, cfg) && id in After(start, events, cfg).attempts
    ensures
      var a := After(start, events, cfg).attempts[id];
      a.phase.Ended? ==> ExplainsEnd(events, id, a.backend, a.phase.ok)
  {
    AlwaysExplained(start, events, cfg);
  }

  // -------------------------------------------------------- the breaker files

  /** The event saves this state under the key. */
  ghost predicate Saves(s: State, e: Event, k: Key, saved: B.State) {
    e.RecordSave? && e.id in s.attempts && s.attempts[e.id].key == k && s.attempts[e.id].phase.RecordSaving?
      && s.attempts[e.id].phase.s == saved
  }

  /** The file of a key changes just when a record of it is saved. */
  lemma FileIffSaved(s: State, e: Event, cfg: Config, k: Key)
    requires Enabled(s, e)
    ensures
      var t := Next(s, e, cfg);
      && (forall saved :: Saves(s, e, k, saved) ==> Stored(t, k) == saved)
      && ((forall saved :: !Saves(s, e, k, saved)) ==> Stored(t, k) == Stored(s, k))
  {
    if e.RecordSave? && s.attempts[e.id].key == k {
      assert Saves(s, e, k, s.attempts[e.id].phase.s);
    }
  }
}
