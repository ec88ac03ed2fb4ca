/**
  The circuit breaker of one key: its stored state, the transitions, the file it
  lives in, and what any history of reports leaves in that file.

  Times are milliseconds. A failure reads the clock twice: `stamp` is written into
  the state, `check` (read after it) decides whether the cooldown has passed.
 */
module CircuitBreaker {
  import opened Wrappers

  datatype Circuit = Closed | Open | HalfOpen

  datatype State = State(circuit: Circuit, failureCount: nat,
                         lastFailureAt: Option<int>, openedAt: Option<int>, lastSuccessAt: Option<int>)

  datatype Config = Config(failureThreshold: int, cooldownMs: int)

  const DEFAULT_CONFIG := Config(5, 60_000)

  const INITIAL := State(Closed, 0, None, None, None)

  /** The effective state: an open circuit whose cooldown has passed allows a probe. */
  function Resolve(s: State, cfg: Config, now: int): Circuit {
    if s.circuit != Open then s.circuit
    else if s.openedAt.Some? && now - s.openedAt.value >= cfg.cooldownMs then HalfOpen
    else Open
  }

  predicate ShouldAttempt(s: State, cfg: Config, now: int) {
    Resolve(s, cfg, now) != Open
  }

  function AfterFailure(s: State, cfg: Config, stamp: int, check: int): State {
    var s1 := s.(failureCount := s.failureCount + 1, lastFailureAt := Some(stamp));
    match Resolve(s1, cfg, check)
    case HalfOpen => s1.(circuit := Open, openedAt := Some(stamp))
    case Closed =>
      if s1.failureCount >= cfg.failureThreshold then s1.(circuit := Open, openedAt := Some(stamp)) else s1
    case Open => s1
  }

  function AfterSuccess(s: State, now: int): State {
    State(Closed, 0, s.lastFailureAt, None, Some(now))
  }

  /** The failures that open the circuit; a threshold below 1 acts as 1. */
  function Threshold(cfg: Config): (r: nat)
    ensures r >= 1
  {
    if cfg.failureThreshold < 1 then 1 else cfg.failureThreshold
  }

  // ------------------------------------------------------- the state file

  /** The persisted state; no readable file counts as the initial state. */
  class StateFile {
    var stored: Option<State>

    function Loaded(): State
      reads this
    {
      if stored.Some? then stored.value else INITIAL
    }

    constructor ()
      ensures stored == None
    {
      stored := None;
    }

    /** Overwrites the loaded fields one by one, then saves. */
    method RecordFailure(cfg: Config, stamp: int, check: int) returns (state: State)
      modifies this
      ensures state == AfterFailure(old(Loaded()), cfg, stamp, check) && stored == Some(state)
    {
      state := Loaded();
      state := state.(failureCount := state.failureCount + 1);
      state := state.(lastFailureAt := Some(stamp));
      var effective := Resolve(state, cfg, check);
      if effective == HalfOpen {
        state := state.(circuit := Open);
        state := state.(openedAt := Some(stamp));
      } else if effective == Closed && state.failureCount >= cfg.failureThreshold {
        state := state.(circuit := Open);
        state := state.(openedAt := Some(stamp));
      }
      stored := Some(state);
    }

    method RecordSuccess(now: int) returns (state: State)
      modifies this
      ensures state == AfterSuccess(old(Loaded()), now) && stored == Some(state)
    {
      state := Loaded();
      state := state.(circuit := Closed);
      state := state.(failureCount := 0);
      state := state.(lastSuccessAt := Some(now));
      state := state.(openedAt := None);
      stored := Some(state);
    }

    method Attempt(cfg: Config, now: int) returns (allowed: bool)
      ensures allowed == ShouldAttempt(Loaded(), cfg, now)
    {
      allowed := Resolve(Loaded(), cfg, now) != Open;
    }
  }

  // --------------------------------------------------- sequential histories

  datatype Report = Failed(stamp: int, check: int) | Succeeded(at: int)

  /** What a history of completed reports leaves in the file. */
  function After(history: seq<Report>, cfg: Config): State {
    if history == [] then INITIAL else
      var s := After(history[..|history| - 1], cfg);
      match history[|history| - 1]
      case Failed(stamp, check) => AfterFailure(s, cfg, stamp, check)
      case Succeeded(at) => AfterSuccess(s, at)
  }

  /** The failures after the last success, read off the history alone. */
  function FailuresSinceSuccess(history: seq<Report>): nat {
    if history == [] || history[|history| - 1].Succeeded? then 0
    else 1 + FailuresSinceSuccess(history[..|history| - 1])
  }

  /**
    When the circuit was last opened, read off the history: the failure that brings
    the count to the threshold, and then each failure a cooldown after the last opening.
   */
  function LastOpening(history: seq<Report>, cfg: Config): Option<int> {
    if history == [] || history[|history| - 1].Succeeded? then None
    else
      var last := history[|history| - 1];
      match LastOpening(history[..|history| - 1], cfg)
      case None => if FailuresSinceSuccess(history) >= Threshold(cfg) then Some(last.stamp) else None
      case Some(since) => if last.check - since >= cfg.cooldownMs then Some(last.stamp) else Some(since)
  }

  /** The last failure in a history carries this stamp. */
  ghost predicate FailedLastAt(history: seq<Report>, stamp: int) {
    exists i :: 0 <= i < |history| && history[i].Failed? && history[i].stamp == stamp
      && forall j :: i < j < |history| ==> !history[j].Failed?
  }

  ghost predicate SucceededLastAt(history: seq<Report>, at: int) {
    exists i :: 0 <= i < |history| && history[i] == Succeeded(at)
      && forall j :: i < j < |history| ==> !history[j].Succeeded?
  }

  lemma LastSnoc(front: seq<Report>, last: Report)
    ensures forall t :: FailedLastAt(front + [last], t) <==>
      if last.Failed? then t == last.stamp else FailedLastAt(front, t)
    ensures forall t :: SucceededLastAt(front + [last], t) <==>
      if last.Succeeded? then t == last.at else SucceededLastAt(front, t)
  {
    var all := front + [last];
    assert all[|front|] == last && forall i :: 0 <= i < |front| ==> all[i] == front[i];
    forall t | FailedLastAt(front, t) && !last.Failed? ensures FailedLastAt(all, t) {
      var i :| 0 <= i < |front| && front[i].Failed? && front[i].stamp == t
        && forall j :: i < j < |front| ==> !front[j].Failed?;
      assert all[i].Failed? && all[i].stamp == t;
    }
    forall t | SucceededLastAt(front, t) && !last.Succeeded? ensures SucceededLastAt(all, t) {
      var i :| 0 <= i < |front| && front[i] == Succeeded(t) && forall j :: i < j < |front| ==> !front[j].Succeeded?;
      assert all[i] == Succeeded(t);
    }
  }

  /** The two stamps of a stored state are those of the last failure and of the last success. */
  lemma {:induction false} StampsAreLast(history: seq<Report>, cfg: Config)
    ensures forall t :: After(history, cfg).lastFailureAt == Some(t) <==> FailedLastAt(history, t)
    ensures forall t :: After(history, cfg).lastSuccessAt == Some(t) <==> SucceededLastAt(history, t)
  {
    if history != [] {
      var front, last := history[..|history| - 1], history[|history| - 1];
      StampsAreLast(front, cfg);
      LastSnoc(front, last);
      assert history == front + [last];
    }
  }

  /** The stored state is a summary of the history, and is never stored half-open. */
  lemma {:induction false} StateSummarisesHistory(history: seq<Report>, cfg: Config)
    ensures
      var s := After(history, cfg);
      && s.failureCount == FailuresSinceSuccess(history)
      && (s.circuit == Open <==> FailuresSinceSuccess(history) >= Threshold(cfg))
      && s.circuit != HalfOpen
      && s.openedAt == LastOpening(history, cfg)
      && (s.openedAt.Some? <==> s.circuit == Open)
  {
    if history != [] {
      StateSummarisesHistory(history[..|history| - 1], cfg);
    }
  }

  /** HTTP is refused exactly within the cooldown of the last opening. */
  lemma RefusedWithinCooldown(history: seq<Report>, cfg: Config, now: int)
    ensures !ShouldAttempt(After(history, cfg), cfg, now) <==>
            FailuresSinceSuccess(history) >= Threshold(cfg) && LastOpening(history, cfg).Some?
            && now - LastOpening(history, cfg).value < cfg.cooldownMs
  {
    StateSummarisesHistory(history, cfg);
  }

  // --------------------------------------------------- interleaved reports

  /** What every state the program writes satisfies. */
  predicate Consistent(s: State, cfg: Config) {
    && s.circuit != HalfOpen
    && (s.circuit == Open <==> s.failureCount >= Threshold(cfg))
    && (s.circuit == Open <==> s.openedAt.Some?)
  }

  lemma TransitionsConsistent(s: State, cfg: Config, stamp: int, check: int)
    requires Consistent(s, cfg)
    ensures Consistent(AfterFailure(s, cfg, stamp, check), cfg)
    ensures Consistent(AfterSuccess(s, stamp), cfg)
    ensures AfterFailure(s, cfg, stamp, check).failureCount == s.failureCount + 1
  {
  }

  /** A report in progress: loaded, then computed, then saved. */
  datatype Phase = LoadedFor(failure: bool, s: State) | Saving(s: State)

  /** Any number of processes over one state file; `reported` counts begun failure reports. */
  datatype World = World(file: Option<State>, clients: map<nat, Phase>, reported: nat)

  datatype Event =
    | Load(client: nat, failure: bool)
    | Compute(client: nat, stamp: int, check: int)
    | Save(client: nat)
    | SaveFails(client: nat)
    | Clear

  function Stored(w: World): State {
    if w.file.Some? then w.file.value else INITIAL
  }

  predicate Enabled(w: World, e: Event) {
    match e
    case Load(c, _) => c !in w.clients
    case Compute(c, stamp, check) => c in w.clients && w.clients[c].LoadedFor? && stamp <= check
    case Save(c) => c in w.clients && w.clients[c].Saving?
    case SaveFails(c) => c in w.clients && w.clients[c].Saving?
    case Clear => true
  }

  function Next(w: World, e: Event, cfg: Config): World
    requires Enabled(w, e)
  {
    match e
    case Load(c, failure) =>
      w.(clients := w.clients[c := LoadedFor(failure, Stored(w))], reported := w.reported + if failure then 1 else 0)
    case Compute(c, stamp, check) =>
      var p := w.clients[c];
      w.(clients := w.clients[c := Saving(if p.failure then AfterFailure(p.s, cfg, stamp, check)
        else AfterSuccess(p.s, stamp))])
    case Save(c) => w.(file := Some(w.clients[c].s), clients := w.clients - {c})
    case SaveFails(c) => w.(clients := w.clients - {c})
    case Clear => w.(file := None)
  }

  ghost predicate IsRun(run: seq<World>, events: seq<Event>, cfg: Config) {
    && |run| == |events| + 1
    && run[0] == World(None, map[], 0)
    && forall i :: 0 <= i < |events| ==> Enabled(run[i], events[i]) && run[i + 1] == Next(run[i], events[i], cfg)
  }

  /**
    A loaded failure report has been counted in `reported` but not in its snapshot,
    so the count stays one behind until it is computed.
   */
  predicate WorldConsistent(w: World, cfg: Config) {
    && Consistent(Stored(w), cfg) && Stored(w).failureCount <= w.reported
    && forall c :: c in w.clients ==>
         && Consistent(w.clients[c].s, cfg)
         && w.clients[c].s.failureCount + (if w.clients[c].LoadedFor? && w.clients[c].failure then 1
           else 0) <= w.reported
  }

  /**
    However loads, saves, lost saves and resets interleave: an open circuit has an
    opening time and a count at the threshold, a closed one has neither, and the
    count never exceeds the failures reported.
   */
  lemma {:induction false} InterleavingKeepsConsistency(run: seq<World>, events: seq<Event>, cfg: Config, n: nat)
    requires IsRun(run, events, cfg) && n < |run|
    ensures WorldConsistent(run[n], cfg)
  {
    if n > 0 {
      InterleavingKeepsConsistency(run, events, cfg, n - 1);
      var w, e := run[n - 1], events[n - 1];
      assert run[n - 1 + 1] == Next(w, e, cfg);
      if e.Compute? {
        TransitionsConsistent(w.clients[e.client].s, cfg, e.stamp, e.check);
      }
    }
  }
}
