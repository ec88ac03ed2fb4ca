/**
  The import closure of the registry-mock check: the files a set of entrypoints
  loads through relative imports, and what the walk could not follow.

  A repository is a value: what each readable file imports, and what following a
  relative specifier comes to. ImportResolver gives the second part, so paths are
  a parameter here.
 */
module ImportClosure {

  /** A runtime import of a file: a readable specifier, or a computed target. */
  datatype Target = Specifier(text: string) | ComputedTarget(line: nat)

  /** What following one relative specifier comes to. */
  datatype Outcome<P> = Code(path: P) | Data | Vendored | Outside | Nothing

  datatype Repo<!P(!new)> = Repo(
    files: set<P>,
    imports: map<P, seq<Target>>,         // readable files only
    follow: (P, string) -> Outcome<P>
  ) {
    /** Code is only ever found in a file that exists. */
    ghost predicate Resolves() {
      forall file, spec :: follow(file, spec).Code? ==> follow(file, spec).path in files
    }
  }

  predicate IsRelative(spec: string) {
    "." <= spec
  }

  /** What the check reports about an import it did not follow. */
  datatype Unfollowed<P> =
    | Computed(file: P, line: nat)
    | OutsideRepo(file: P, spec: string)
    | Unresolved(file: P, spec: string)

  /** What one import adds to the report. */
  function Reports<P(==,!new)>(repo: Repo<P>, file: P, t: Target): seq<Unfollowed<P>> {
    match t
    case ComputedTarget(line) => [Computed(file, line)]
    case Specifier(spec) =>
      if !IsRelative(spec) then [] else
        match repo.follow(file, spec)
        case Code(_) => []
        case Data => []
        case Outside => [OutsideRepo(file, spec), Unresolved(file, spec)]
        case _ => [Unresolved(file, spec)]
  }

  // ---------------------------------------------------------- reachability

  /** `from` loads `to` through one of its relative imports. */
  predicate Edge<P(==,!new)>(repo: Repo<P>, from: P, to: P) {
    from in repo.imports &&
      exists i :: 0 <= i < |repo.imports[from]| && LoadsCode(repo, from, repo.imports[from][i], to)
  }

  predicate LoadsCode<P(==,!new)>(repo: Repo<P>, from: P, t: Target, to: P) {
    t.Specifier? && IsRelative(t.text) && repo.follow(from, t.text) == Code(to)
  }

  ghost predicate IsChain<P(!new)>(repo: Repo<P>, chain: seq<P>) {
    |chain| > 0 && forall i :: 0 <= i < |chain| - 1 ==> Edge(repo, chain[i], chain[i + 1])
  }

  ghost predicate Reached<P(!new)>(repo: Repo<P>, entrypoints: seq<P>, file: P) {
    exists chain :: IsChain(repo, chain) && chain[0] in entrypoints && chain[|chain| - 1] == file
  }

  lemma ReachStep<P(!new)>(repo: Repo<P>, entrypoints: seq<P>, from: P, to: P)
    requires Reached(repo, entrypoints, from) && Edge(repo, from, to)
    ensures Reached(repo, entrypoints, to)
  {
    var chain :| IsChain(repo, chain) && chain[0] in entrypoints && chain[|chain| - 1] == from;
    var longer := chain + [to];
    forall i | 0 <= i < |longer| - 1
      ensures Edge(repo, longer[i], longer[i + 1])
    {
      if i < |chain| - 1 {
        assert Edge(repo, chain[i], chain[i + 1]);
      }
    }
    assert IsChain(repo, longer);
  }

  /** A set that holds the entrypoints and follows every edge holds all that is reached. */
  lemma {:induction false} ClosedHoldsChain<P(!new)>(repo: Repo<P>, seen: set<P>, chain: seq<P>)
    requires IsChain(repo, chain) && chain[0] in seen
    requires forall f, g :: f in seen && Edge(repo, f, g) ==> g in seen
    ensures chain[|chain| - 1] in seen
    decreases |chain|
  {
    if |chain| > 1 {
      assert Edge(repo, chain[0], chain[1]);
      ClosedHoldsChain(repo, seen, chain[1..]);
    }
  }

  // ------------------------------------------------------------- the walk

  /** Every import of `file` is followed into `seen` or is in `unfollowed`. */
  ghost predicate Done<P(!new)>(repo: Repo<P>, file: P, upTo: int, seen: set<P>, unfollowed: seq<Unfollowed<P>>) {
    file in repo.imports ==>
      forall i :: 0 <= i < upTo && i < |repo.imports[file]| ==> DoneOne(repo, file, repo.imports[file][i], seen,
        unfollowed)
  }

  ghost predicate DoneOne<P(!new)>(repo: Repo<P>, file: P, t: Target, seen: set<P>, unfollowed: seq<Unfollowed<P>>) {
    && (forall to :: LoadsCode(repo, file, t, to) ==> to in seen)
    && (forall r :: r in Reports(repo, file, t) ==> r in unfollowed)
  }

  /** A report stands for an import of a reached file. */
  ghost predicate Justified<P(!new)>(repo: Repo<P>, entrypoints: seq<P>, r: Unfollowed<P>) {
    exists file, i :: Reached(repo, entrypoints, file) && file in repo.imports
                      && 0 <= i < |repo.imports[file]| && r in Reports(repo, file, repo.imports[file][i])
  }

  /** The files that are fully read. */
  ghost predicate AllDone<P(!new)>(repo: Repo<P>, done: set<P>, seen: set<P>, unfollowed: seq<Unfollowed<P>>) {
    forall f :: f in done && f in repo.imports ==> Done(repo, f, |repo.imports[f]|, seen, unfollowed)
  }

  ghost predicate AllReached<P(!new)>(repo: Repo<P>, entrypoints: seq<P>, seen: set<P>) {
    forall f :: f in seen ==> Reached(repo, entrypoints, f)
  }

  ghost predicate AllJustified<P(!new)>(repo: Repo<P>, entrypoints: seq<P>, unfollowed: seq<Unfollowed<P>>) {
    forall r :: r in unfollowed ==> Justified(repo, entrypoints, r)
  }

  lemma DoneGrows<P(!new)>(repo: Repo<P>, done: set<P>, seen: set<P>, unfollowed: seq<Unfollowed<P>>, seen': set<P>,
      unfollowed': seq<Unfollowed<P>>)
    requires AllDone(repo, done, seen, unfollowed) && seen <= seen' && unfollowed <= unfollowed'
    ensures AllDone(repo, done, seen', unfollowed')
  {
    forall f, i | f in done && f in repo.imports && 0 <= i < |repo.imports[f]|
      ensures DoneOne(repo, f, repo.imports[f][i], seen', unfollowed')
    {
      assert DoneOne(repo, f, repo.imports[f][i], seen, unfollowed);
    }
  }

  /** Once everything seen is read, nothing reachable is missing from either result. */
  lemma WalkComplete<P(!new)>(repo: Repo<P>, entrypoints: seq<P>, seen: set<P>, unfollowed: seq<Unfollowed<P>>)
    requires AllDone(repo, seen, seen, unfollowed)
    requires forall f :: f in entrypoints ==> f in seen
    ensures forall f :: Reached(repo, entrypoints, f) ==> f in seen
    ensures forall r :: Justified(repo, entrypoints, r) ==> r in unfollowed
  {
    forall f, g | f in seen && Edge(repo, f, g)
      ensures g in seen
    {
      var i :| 0 <= i < |repo.imports[f]| && LoadsCode(repo, f, repo.imports[f][i], g);
      assert DoneOne(repo, f, repo.imports[f][i], seen, unfollowed);
    }
    forall f | Reached(repo, entrypoints, f)
      ensures f in seen
    {
      var chain :| IsChain(repo, chain) && chain[0] in entrypoints && chain[|chain| - 1] == f;
      ClosedHoldsChain(repo, seen, chain);
    }
    forall r | Justified(repo, entrypoints, r)
      ensures r in unfollowed
    {
      var file, i :| Reached(repo, entrypoints, file) && file in repo.imports
                     && 0 <= i < |repo.imports[file]| && r in Reports(repo, file, repo.imports[file][i]);
      assert DoneOne(repo, file, repo.imports[file][i], seen, unfollowed);
    }
  }

  lemma EntriesReached<P(!new)>(repo: Repo<P>, entrypoints: seq<P>)
    ensures AllReached(repo, entrypoints, set f | f in entrypoints)
  {
    forall f | f in entrypoints
      ensures Reached(repo, entrypoints, f)
    {
      assert IsChain(repo, [f]);
    }
  }

  /** The queue holds seen files only, and every seen file that is not fully read. */
  ghost predicate Frontier<P(!new)>(seen: set<P>, queue: seq<P>, done: set<P>) {
    && done <= seen
    && (forall i :: 0 <= i < |queue| ==> queue[i] in seen)
    && (forall f :: f in seen ==> f in done || f in queue)
  }

  lemma EmptyFrontier<P(!new)>(seen: set<P>, queue: seq<P>, done: set<P>)
    requires queue == [] && Frontier(seen, queue, done)
    ensures done == seen
  {
    assert forall f :: f in seen ==> f !in queue;
  }

  /** Reading the last file of the queue, which may add to both, keeps the frontier. */
  lemma FrontierStep<P(!new)>(seen: set<P>, queue: seq<P>, done: set<P>, seen': set<P>, added: seq<P>)
    requires |queue| > 0 && Frontier(seen, queue, done)
    requires seen' == seen + set f | f in added
    ensures Frontier(seen', queue[..|queue| - 1] + added, done + {queue[|queue| - 1]})
  {
    var rest := queue[..|queue| - 1];
    assert queue == rest + [queue[|queue| - 1]];
    forall f | f in seen' && f !in done + {queue[|queue| - 1]}
      ensures f in rest + added
    {
      if f !in added {
        assert f in seen;
        assert f in rest;
      }
    }
  }

  /**
    The worklist. `files` is exactly what is reachable, and `unfollowed` is exactly
    what the imports of reachable readable files add to the report.
   */
  method WithLocalImports<P(==,!new)>(repo: Repo<P>, entrypoints: seq<P>) returns (files: set<P>,
      unfollowed: seq<Unfollowed<P>>)
    requires repo.Resolves()
    ensures forall f :: f in files <==> Reached(repo, entrypoints, f)
    ensures forall r :: r in unfollowed <==> Justified(repo, entrypoints, r)
  {
    ghost var universe := repo.files + set f | f in entrypoints;
    files := set f | f in entrypoints;
    ghost var start := files;
    var queue := entrypoints;
    unfollowed := [];
    ghost var done: set<P> := {};
    EntriesReached(repo, entrypoints);
    while |queue| > 0
      invariant start <= files <= universe
      invariant Frontier(files, queue, done)
      invariant AllReached(repo, entrypoints, files)
      invariant AllDone(repo, done, files, unfollowed)
      invariant AllJustified(repo, entrypoints, unfollowed)
      decreases universe - files, |queue|
    {
      var file := queue[|queue| - 1];
      ghost var seen, before := files, queue;
      var added;
      files, added, unfollowed := ReadFile(repo, entrypoints, file, files, unfollowed, done, universe);
      queue := queue[..|queue| - 1] + added;
      FrontierStep(seen, before, done, files, added);
      done := done + {file};
    }
    EmptyFrontier(files, queue, done);
    WalkComplete(repo, entrypoints, files, unfollowed);
  }

  /** One file off the queue: an unreadable one is skipped. `added` is what it queues. */
  method ReadFile<P(==,!new)>(repo: Repo<P>, ghost entrypoints: seq<P>, file: P, seen0: set<P>,
                  unfollowed0: seq<Unfollowed<P>>, ghost done: set<P>, ghost universe: set<P>)
    returns (seen: set<P>, added: seq<P>, unfollowed: seq<Unfollowed<P>>)
    requires repo.Resolves() && seen0 <= universe && repo.files <= universe && file in seen0
    requires AllReached(repo, entrypoints, seen0) && AllJustified(repo, entrypoints, unfollowed0)
    requires AllDone(repo, done, seen0, unfollowed0)
    ensures seen <= universe
    ensures seen == seen0 + set f | f in added
    ensures seen == seen0 ==> added == []
    ensures AllReached(repo, entrypoints, seen) && AllJustified(repo, entrypoints, unfollowed)
    ensures AllDone(repo, done + {file}, seen, unfollowed)
  {
    seen, added, unfollowed := seen0, [], unfollowed0;
    if file in repo.imports {
      seen, added, unfollowed := Walk(repo, entrypoints, file, seen, unfollowed, universe);
    }
    DoneGrows(repo, done, seen0, unfollowed0, seen, unfollowed);
  }

  /** The imports of one file, in order. */
  method Walk<P(==,!new)>(repo: Repo<P>, ghost entrypoints: seq<P>, file: P, seen0: set<P>,
              unfollowed0: seq<Unfollowed<P>>, ghost universe: set<P>)
    returns (seen: set<P>, added: seq<P>, unfollowed: seq<Unfollowed<P>>)
    requires file in repo.imports && Reached(repo, entrypoints, file)
    requires repo.Resolves() && seen0 <= universe && repo.files <= universe
    requires AllReached(repo, entrypoints, seen0) && AllJustified(repo, entrypoints, unfollowed0)
    ensures seen <= universe && unfollowed0 <= unfollowed
    ensures seen == seen0 + set f | f in added
    ensures seen == seen0 ==> added == []
    ensures AllReached(repo, entrypoints, seen) && AllJustified(repo, entrypoints, unfollowed)
    ensures Done(repo, file, |repo.imports[file]|, seen, unfollowed)
  {
    seen, added, unfollowed := seen0, [], unfollowed0;
    var targets := repo.imports[file];
    for i := 0 to |targets|
      invariant seen <= universe && unfollowed0 <= unfollowed
      invariant seen == seen0 + set f | f in added
      invariant seen == seen0 ==> added == []
      invariant AllReached(repo, entrypoints, seen) && AllJustified(repo, entrypoints, unfollowed)
      invariant Done(repo, file, i, seen, unfollowed)
    {
      var t := targets[i];
      ghost var unfollowed1 := unfollowed;
      if t.ComputedTarget? {
        unfollowed := unfollowed + [Computed(file, t.line)];
      } else if IsRelative(t.text) {
        var outcome := repo.follow(file, t.text);
        match outcome
        case Code(c) =>
          assert Edge(repo, file, c) by { assert LoadsCode(repo, file, repo.imports[file][i], c); }
          ReachStep(repo, entrypoints, file, c);
          if c !in seen {
            seen, added := seen + {c}, added + [c];
          }
        case Data =>
        case Outside => unfollowed := unfollowed + [OutsideRepo(file, t.text)] + [Unresolved(file, t.text)];
        case _ => unfollowed := unfollowed + [Unresolved(file, t.text)];
      }
      assert unfollowed == unfollowed1 + Reports(repo, file, t);
    }
  }

  /**
    An empty report means nothing reachable went unread: every relative import of
    every reached readable file is another reached file or a data file.
   */
  lemma EmptyReportFollowsAll<P(!new)>(repo: Repo<P>, entrypoints: seq<P>, file: P, i: nat)
    requires forall r :: !Justified(repo, entrypoints, r)
    requires Reached(repo, entrypoints, file) && file in repo.imports && i < |repo.imports[file]|
    ensures
      var t := repo.imports[file][i];
      && t.Specifier?
      && (IsRelative(t.text) ==>
            || repo.follow(file, t.text) == Data
            || (exists to :: repo.follow(file, t.text) == Code(to) && Reached(repo, entrypoints, to)))
  {
    var t := repo.imports[file][i];
    assert Reports(repo, file, t) == [] by {
      if Reports(repo, file, t) != [] {
        assert Justified(repo, entrypoints, Reports(repo, file, t)[0]);
      }
    }
    if t.Specifier? && IsRelative(t.text) && repo.follow(file, t.text).Code? {
      assert LoadsCode(repo, file, t, repo.follow(file, t.text).path);
      ReachStep(repo, entrypoints, file, repo.follow(file, t.text).path);
    }
  }
}
