/**
  Short files in which a run patches the registry and the check reports nothing: each
  clause of the fragment in AliasSoundness, and the clause on silenced names, excludes
  one of them.
 */
module AliasLimits {
  import opened Wrappers
  import opened AliasAnalysis
  import opened AliasSoundness

  /** Nothing stored turns up, computed names are empty. */
  const PLAIN_CHOICE := Choice((e: Expr) => "", (e: Expr) => 1)

  /** A run of `file` in which `site` patches the registry while the report is empty. */
  ghost predicate Missed(file: File, s: Sets, run: seq<World>, site: Expr, ch: Choice) {
    && IsLeastClosed(s, file) && Report(file, s, Silent(file)) == []
    && IsRun(file, run) && OccursInFile(site, file)
    && CallsModule(site, run[|run| - 1], ch)
  }

  // ------------------------------------------------------------ empty reports

  /** Nothing in the tree is recorded or read as the function. */
  predicate Quiet(e: Expr, s: Sets, silent: set<string>) {
    && OwnRecord(e, s) == [] && !IsModuleRead(e, s, silent)
    && forall i :: 0 <= i < Arity(e) ==> Quiet(Child(e, i), s, silent)
  }

  ghost predicate QuietParts(e: Expr, s: Sets, silent: set<string>) {
    forall i :: 0 <= i < Arity(e) ==> Quiet(Child(e, i), s, silent)
  }

  lemma {:induction false} NoCalls(e: Expr, n: nat, s: Sets, silent: set<string>)
    requires n <= Arity(e) && QuietParts(e, s, silent)
    ensures CallsInChildren(e, n, s) == []
    decreases e, 0, n
  {
    if n > 0 {
      NoCalls(e, n - 1, s, silent);
      var child := Child(e, n - 1);
      assert Quiet(child, s, silent);
      QuietCalls(child, s, silent);
      NoCallAdded(e, n, s);
    }
  }

  lemma {:induction false} QuietCalls(e: Expr, s: Sets, silent: set<string>)
    requires Quiet(e, s, silent)
    ensures CallsIn(e, s) == []
    decreases e, 1, 0
  {
    NoCalls(e, Arity(e), s, silent);
  }

  lemma {:induction false} NoEscapes(e: Expr, n: nat, s: Sets, silent: set<string>)
    requires n <= Arity(e) && QuietParts(e, s, silent)
    ensures EscapesInChildren(e, n, s, silent) == []
    decreases e, n
  {
    if n > 0 {
      NoEscapes(e, n - 1, s, silent);
      var child := Child(e, n - 1);
      assert Quiet(child, s, silent);
      NoEscapes(child, Arity(child), s, silent);
      NoEscapeAdded(e, n, s, silent);
    }
  }

  lemma {:induction false} NoCallAdded(e: Expr, n: nat, s: Sets)
    requires 0 < n <= Arity(e)
    requires CallsInChildren(e, n - 1, s) == [] && CallsIn(Child(e, n - 1), s) == []
    ensures CallsInChildren(e, n, s) == []
  {
  }

  lemma {:induction false} NoEscapeAdded(e: Expr, n: nat, s: Sets, silent: set<string>)
    requires 0 < n <= Arity(e)
    requires EscapesInChildren(e, n - 1, s, silent) == []
    requires EscapesIn(Child(e, n - 1), s, silent, e.Call? && n == 1) == []
    ensures EscapesInChildren(e, n, s, silent) == []
  {
  }

  /** A tree with nothing to report, perhaps because its value goes to a learned name. */
  ghost predicate QuietRoot(file: File, i: nat, s: Sets, silent: set<string>)
    requires i < |Roots(file)|
  {
    var root := Roots(file)[i];
    && OwnRecord(root, s) == [] && (IsModuleRead(root, s, silent) ==> Accounted(file, i, s))
    && QuietParts(root, s, silent)
  }

  ghost predicate AllQuiet(file: File, s: Sets, silent: set<string>) {
    forall i :: 0 <= i < |Roots(file)| ==> QuietRoot(file, i, s, silent)
  }

  lemma {:induction false} QuietCallRoots(file: File, n: nat, s: Sets, silent: set<string>)
    requires n <= |Roots(file)| && AllQuiet(file, s, silent)
    ensures CallReport(file, n, s) == []
  {
    if n > 0 {
      QuietCallRoots(file, n - 1, s, silent);
      NothingInRoot(file, n - 1, s, silent);
    }
  }

  lemma {:induction false} QuietEscapeRoots(file: File, n: nat, s: Sets, silent: set<string>)
    requires n <= |Roots(file)| && AllQuiet(file, s, silent)
    ensures EscapeReport(file, n, s, silent) == []
  {
    if n > 0 {
      QuietEscapeRoots(file, n - 1, s, silent);
      NothingInRoot(file, n - 1, s, silent);
    }
  }

  lemma {:induction false} NothingInRoot(file: File, i: nat, s: Sets, silent: set<string>)
    requires i < |Roots(file)| && AllQuiet(file, s, silent)
    ensures CallsIn(Roots(file)[i], s) == [] && EscapesIn(Roots(file)[i], s, silent, Accounted(file, i, s)) == []
  {
    assert QuietRoot(file, i, s, silent);
    NoCalls(Roots(file)[i], Arity(Roots(file)[i]), s, silent);
    NoEscapes(Roots(file)[i], Arity(Roots(file)[i]), s, silent);
  }

  lemma QuietFile(file: File, s: Sets, silent: set<string>)
    requires AllQuiet(file, s, silent)
    ensures Report(file, s, silent) == []
  {
    QuietCallRoots(file, |Roots(file)|, s, silent);
    QuietEscapeRoots(file, |Roots(file)|, s, silent);
  }

  // ---------------------------------------------------- two bindings and a call

  /** Two bindings and one call. */
  function TwoBindings(first: Binding, second: Binding, site: Expr): File {
    File([], [first, second], [site], {})
  }

  function InOrder(file: File): seq<World>
    requires |file.bindings| == 2
  {
    var w0 := World(StartFrom(file.imports), []);
    var w1 := Executed(file.bindings[0], w0, PLAIN_CHOICE);
    [w0, w1, Executed(file.bindings[1], w1, PLAIN_CHOICE)]
  }

  lemma InOrderIsRun(file: File, site: Expr)
    requires |file.bindings| == 2 && file.exprs == [site]
    ensures IsRun(file, InOrder(file)) && OccursInFile(site, file)
  {
    var run := InOrder(file);
    assert run[1] == Executed(file.bindings[0], run[0], PLAIN_CHOICE) && file.bindings[0] in file.bindings;
    assert run[2] == Executed(file.bindings[1], run[1], PLAIN_CHOICE) && file.bindings[1] in file.bindings;
    assert Roots(file)[2] == site && Occurs(site, Roots(file)[2]);
  }

  lemma QuietBindings(file: File, site: Expr, s: Sets, silent: set<string>)
    requires |file.bindings| == 2 && file.exprs == [site]
    requires Quiet(file.bindings[0].init, s, silent) && Quiet(file.bindings[1].init, s, silent)
      && Quiet(site, s, silent)
    ensures Report(file, s, silent) == []
  {
    assert Roots(file) == [file.bindings[0].init, file.bindings[1].init, site];
    QuietFile(file, s, silent);
  }

  function PatchThrough(name: string): Expr {
    Call(Member(Member(Id(name), Named("mock")), Named("module")), [Str("./target")])
  }

  lemma UnknownOwnerIsQuiet(name: string, s: Sets, silent: set<string>)
    requires name !in s.star && name !in s.wrap && s.fn == {}
    ensures Quiet(PatchThrough(name), s, silent)
  {
    var site := PatchThrough(name);
    assert Quiet(Id(name), s, silent) && Quiet(Str("./target"), s, silent);
    assert Quiet(site.callee.owner, s, silent);
    assert Quiet(site.callee, s, silent);
  }

  lemma ImportIsQuiet(s: Sets, silent: set<string>, w: World)
    ensures Quiet(Import([Str(BUN_TEST)]), s, silent)
    ensures Eval(Import([Str(BUN_TEST)]), w, PLAIN_CHOICE) == BunTest
  {
    assert Quiet(Str(BUN_TEST), s, silent);
    assert Eval(Str(BUN_TEST), w, PLAIN_CHOICE) == Text(BUN_TEST);
  }

  /** Two bindings of which only the first teaches anything, and what it teaches. */
  lemma TwoBindingsLeast(first: Binding, second: Binding, site: Expr, s: Sets)
    requires Sets({}, {}, {"require"}, {}, {}).Within(s) && Admits(s, first) && Admits(s, second)
    requires forall t: Sets :: Sets({}, {}, {"require"}, {}, {}).Within(t) && Admits(t, first) ==> s.Within(t)
    ensures IsLeastClosed(s, TwoBindings(first, second, site))
  {
    var file := TwoBindings(first, second, site);
    assert Seeds(file) == Sets({}, {}, {"require"}, {}, {});
    assert first in file.bindings;
  }

  /** The call reaches the function once the name holds the module object or a wrapper of `mock`. */
  lemma PatchThroughCalls(name: string, w: World)
    requires w.store == [] && name in w.env && (w.env[name] == BunTest || w.env[name] == Rec(map["mock" := Mock]))
    ensures CallsModule(PatchThrough(name), w, PLAIN_CHOICE)
  {
    var site := PatchThrough(name);
    assert Eval(Id(name), w, PLAIN_CHOICE) == w.env[name];
    assert Eval(site.callee.owner, w, PLAIN_CHOICE) == Mock;
  }

  function ModuleOf(owner: Expr): Expr {
    Call(Member(owner, Named("module")), [Str("./target")])
  }

  lemma {:induction false} ModuleOfIsQuiet(owner: Expr, s: Sets, silent: set<string>)
    requires !IsNamespace(owner, s) && Quiet(owner, s, silent)
    ensures Quiet(ModuleOf(owner), s, silent)
  {
    assert Quiet(Str("./target"), s, silent);
    assert Quiet(ModuleOf(owner).callee, s, silent);
  }

  lemma AwaitedRun(second: Binding, w: World)
    requires second == Binding(Name("bt"), Await(Id("p")), true)
    requires "p" in w.env && w.env["p"] == BunTest
    ensures Executed(second, w, PLAIN_CHOICE) == w.(env := w.env["bt" := BunTest])
  {
    assert Eval(Id("p"), w, PLAIN_CHOICE) == BunTest;
    assert Eval(second.init, w, PLAIN_CHOICE) == BunTest;
  }

  lemma AwaitedQuiet(file: File, s: Sets, silent: set<string>)
    requires |file.bindings| == 2 && file.exprs == [PatchThrough("bt")]
    requires file.bindings[0].init == Import([Str(BUN_TEST)]) && file.bindings[1].init == Await(Id("p"))
    requires s == Sets({}, {}, {"require"}, {"p"}, {})
    ensures Report(file, s, silent) == []
  {
    UnknownOwnerIsQuiet("bt", s, silent);
    ImportIsQuiet(s, silent, World(map[], []));
    assert Quiet(Id("p"), s, silent);
    assert Quiet(file.bindings[1].init, s, silent);
    QuietBindings(file, PatchThrough("bt"), s, silent);
  }

  /** `const p = import("bun:test"); const bt = await p;` -- `bt` is not learned. */
  lemma AwaitedNameIsMissed(first: Binding, second: Binding, site: Expr)
    requires first == Binding(Name("p"), Import([Str(BUN_TEST)]), true)
    requires second == Binding(Name("bt"), Await(Id("p")), true)
    requires site == PatchThrough("bt")
    ensures var file := TwoBindings(first, second, site);
            Missed(file, Sets({}, {}, {"require"}, {"p"}, {}), InOrder(file), site, PLAIN_CHOICE)
  {
    var s, file := Sets({}, {}, {"require"}, {"p"}, {}), TwoBindings(first, second, site);
    TwoBindingsLeast(first, second, site, s);
    InOrderIsRun(file, site);
    AwaitedQuiet(file, s, Silent(file));
    ImportIsQuiet(s, {}, InOrder(file)[0]);
    AwaitedRun(second, InOrder(file)[1]);
    PatchThroughCalls("bt", InOrder(file)[2]);
  }

  lemma AssignmentPatternRun(second: Binding, w: World)
    requires second == Binding(Literal([Element(Some("mock"), Name("m"))]), Id("bt"), false)
    requires "bt" in w.env && w.env["bt"] == BunTest
    ensures Executed(second, w, PLAIN_CHOICE) == w.(env := w.env["m" := Mock])
  {
    var t := second.target;
    assert Eval(second.init, w, PLAIN_CHOICE) == BunTest;
    assert AssignElems(t, t.elems, 0, BunTest, w.env, PLAIN_CHOICE.key) == w.env;
    assert AssignElems(t, t.elems, 1, BunTest, w.env, PLAIN_CHOICE.key)
        == Assign(Name("m"), Get(BunTest, "mock"), w.env, PLAIN_CHOICE.key);
  }

  lemma AssignmentPatternQuiet(file: File, s: Sets, silent: set<string>)
    requires |file.bindings| == 2 && file.exprs == [ModuleOf(Id("m"))]
    requires file.bindings[0].init == Import([Str(BUN_TEST)]) && file.bindings[1].init == Id("bt")
    requires s == Sets({}, {}, {"require"}, {"bt"}, {})
    ensures Report(file, s, silent) == []
  {
    ImportIsQuiet(s, silent, World(map[], []));
    assert Quiet(Id("m"), s, silent);
    ModuleOfIsQuiet(Id("m"), s, silent);
    assert Quiet(file.bindings[1].init, s, silent);
    QuietBindings(file, ModuleOf(Id("m")), s, silent);
  }

  lemma AssignmentPatternCalls(file: File)
    requires |file.bindings| == 2 && file.imports == []
    requires file.bindings[0] == Binding(Name("bt"), Import([Str(BUN_TEST)]), true)
    requires file.bindings[1] == Binding(Literal([Element(Some("mock"), Name("m"))]), Id("bt"), false)
    ensures CallsModule(ModuleOf(Id("m")), InOrder(file)[2], PLAIN_CHOICE)
  {
    var w1 := InOrder(file)[1];
    ImportIsQuiet(Sets({}, {}, {}, {}, {}), {}, InOrder(file)[0]);
    assert w1.env["bt"] == BunTest;
    AssignmentPatternRun(file.bindings[1], w1);
    assert Eval(Id("m"), InOrder(file)[2], PLAIN_CHOICE) == Mock;
  }

  /** `({ mock: m } = bt)` is not a binding pattern, so `m` is not learned. */
  lemma AssignmentPatternIsMissed(first: Binding, second: Binding, site: Expr)
    requires first == Binding(Name("bt"), Import([Str(BUN_TEST)]), true)
    requires second == Binding(Literal([Element(Some("mock"), Name("m"))]), Id("bt"), false)
    requires site == ModuleOf(Id("m"))
    ensures var file := TwoBindings(first, second, site);
            Missed(file, Sets({}, {}, {"require"}, {"bt"}, {}), InOrder(file), site, PLAIN_CHOICE)
  {
    var s, file := Sets({}, {}, {"require"}, {"bt"}, {}), TwoBindings(first, second, site);
    TwoBindingsLeast(first, second, site, s);
    InOrderIsRun(file, site);
    AssignmentPatternQuiet(file, s, Silent(file));
    AssignmentPatternCalls(file);
  }

  lemma WrapperRun(value: Expr, first: Binding, w: World)
    requires value == Member(Import([Str(BUN_TEST)]), Named("mock")) && w.store == []
    requires first == Binding(Name("w"), Object([Property(Some("mock"), value)]), true)
    ensures Executed(first, w, PLAIN_CHOICE) == w.(env := w.env["w" := Rec(map["mock" := Mock])])
  {
    assert EvalProps(first.init, 0, w, PLAIN_CHOICE) == map[];
    ImportIsQuiet(Sets({}, {}, {}, {}, {}), {}, w);
    assert Eval(value, w, PLAIN_CHOICE) == Mock;
    assert EvalProps(first.init, 1, w, PLAIN_CHOICE) == map[]["mock" := Mock];
    assert Eval(first.init, w, PLAIN_CHOICE) == Rec(map["mock" := Mock]);
  }

  lemma WrapperQuiet(file: File, value: Expr, s: Sets, silent: set<string>)
    requires value == Member(Import([Str(BUN_TEST)]), Named("mock"))
    requires |file.bindings| == 2 && file.exprs == [PatchThrough("w2")]
    requires file.bindings[0].init == Object([Property(Some("mock"), value)]) && file.bindings[1].init == Id("w")
    requires s == Sets({}, {}, {"require"}, {}, {"w"})
    ensures Report(file, s, silent) == []
  {
    UnknownOwnerIsQuiet("w2", s, silent);
    ImportIsQuiet(s, silent, World(map[], []));
    assert Quiet(value, s, silent) && Quiet(file.bindings[1].init, s, silent);
    assert Quiet(file.bindings[0].init, s, silent);
    QuietBindings(file, PatchThrough("w2"), s, silent);
  }

  /** `const w = { mock }; const w2 = w` copies a wrapper, which no set records. */
  lemma CopiedWrapperIsMissed(value: Expr, first: Binding, second: Binding, site: Expr)
    requires value == Member(Import([Str(BUN_TEST)]), Named("mock"))
    requires first == Binding(Name("w"), Object([Property(Some("mock"), value)]), true)
    requires second == Binding(Name("w2"), Id("w"), true)
    requires site == PatchThrough("w2")
    ensures var file := TwoBindings(first, second, site);
            Missed(file, Sets({}, {}, {"require"}, {}, {"w"}), InOrder(file), site, PLAIN_CHOICE)
  {
    var s, file := Sets({}, {}, {"require"}, {}, {"w"}), TwoBindings(first, second, site);
    forall t: Sets | Sets({}, {}, {"require"}, {}, {}).Within(t) && Admits(t, first)
      ensures s.Within(t)
    {
      assert AdmitsProp(t, "w", first.init.props[0]);
    }
    TwoBindingsLeast(first, second, site, s);
    InOrderIsRun(file, site);
    WrapperQuiet(file, value, s, Silent(file));
    WrapperRun(value, first, InOrder(file)[0]);
    PatchThroughCalls("w2", InOrder(file)[2]);
  }

  // ------------------------------------------- values that no binding carries

  const IMPORT_MOCK := NamedImport(BUN_TEST, "mock", "mock")
  const ONLY_MOCK := Sets({"mock"}, {}, {"require"}, {}, {})

  lemma OnlyMockSeeds(file: File)
    requires file.imports == [IMPORT_MOCK]
    ensures Seeds(file) == ONLY_MOCK
    ensures StartFrom(file.imports) == map["require" := Fetcher, "mock" := Mock]
  {
    assert file.imports[..0] == [];
    assert SeedFrom(Sets({}, {}, {"require"}, {}, {}), []) == Sets({}, {}, {"require"}, {}, {});
    assert StartFrom([]) == map["require" := Fetcher];
  }

  lemma NothingLearned(file: File)
    requires file.imports == [IMPORT_MOCK] && forall b :: b in file.bindings ==> Admits(ONLY_MOCK, b)
    ensures IsLeastClosed(ONLY_MOCK, file)
  {
    OnlyMockSeeds(file);
  }

  lemma ParameterReport(pass: Expr, site: Expr, file: File)
    requires pass == Call(Id("f"), [Id("mock")]) && site == ModuleOf(Id("m"))
    requires file == File([IMPORT_MOCK], [], [pass, site], {"m"})
    ensures Report(file, ONLY_MOCK, Silent(file)) == []
  {
    var silent := Silent(file);
    assert Roots(file) == [pass, site];
    ModuleOfIsQuiet(Id("m"), ONLY_MOCK, silent);
    assert Quiet(Id("f"), ONLY_MOCK, silent) && Quiet(Id("mock"), ONLY_MOCK, silent);
    QuietFile(file, ONLY_MOCK, silent);
  }

  function ParameterRun(file: File): seq<World> {
    var w0 := World(StartFrom(file.imports), []);
    var w1 := Kept(Id("mock"), w0, PLAIN_CHOICE);
    [w0, w1, w1.(env := w1.env["m" := w1.store[0]])]
  }

  lemma ParameterIsRun(pass: Expr, site: Expr, file: File)
    requires pass == Call(Id("f"), [Id("mock")]) && site == ModuleOf(Id("m"))
    requires file == File([IMPORT_MOCK], [], [pass, site], {"m"})
    ensures IsRun(file, ParameterRun(file)) && OccursInFile(site, file)
    ensures CallsModule(site, ParameterRun(file)[2], PLAIN_CHOICE)
  {
    OnlyMockSeeds(file);
    var run := ParameterRun(file);
    assert Roots(file) == [pass, site];
    assert Occurs(pass, Roots(file)[0]) && Occurs(site, Roots(file)[1]);
    assert IsArgument(Id("mock"), pass) && Loose(Id("mock"), file);
    assert Step(file, run[0], run[1]);
    assert run[2] == Passed("m", 0, run[1]);
    assert Step(file, run[1], run[2]);
    assert Eval(Id("m"), run[2], PLAIN_CHOICE) == Mock;
  }

  /** `function f(m) { m.module("./target") } f(mock)` -- a parameter carries the namespace. */
  lemma ParameterIsMissed(pass: Expr, site: Expr, file: File)
    requires pass == Call(Id("f"), [Id("mock")]) && site == ModuleOf(Id("m"))
    requires file == File([IMPORT_MOCK], [], [pass, site], {"m"})
    ensures !PlainFile(file, ONLY_MOCK)
    ensures Missed(file, ONLY_MOCK, ParameterRun(file), site, PLAIN_CHOICE)
  {
    NothingLearned(file);
    ParameterReport(pass, site, file);
    ParameterIsRun(pass, site, file);
    PassedIsNotPlain(pass);
    assert pass in file.exprs;
  }

  lemma PassedIsNotPlain(pass: Expr)
    requires pass == Call(Id("f"), [Id("mock")])
    ensures !Plain(pass, ONLY_MOCK)
  {
    assert Followed(pass.args[0], ONLY_MOCK);
    assert !PlainHere(pass, ONLY_MOCK);
  }

  /** The stored value turns up at `owner`. */
  function PickAt(owner: Expr): Choice {
    Choice((e: Expr) => "", (e: Expr) => if e == owner then 0 else 1)
  }

  /** The namespace stored outside the bindings and found again at `owner`. */
  function StoredFile(owner: Expr): File {
    File([IMPORT_MOCK], [], [Id("mock"), ModuleOf(owner)], {})
  }

  function StoredRun(owner: Expr): seq<World> {
    var w0 := World(StartFrom([IMPORT_MOCK]), []);
    [w0, Kept(Id("mock"), w0, PickAt(owner))]
  }

  /** A read or call that the analysis knows nothing of. */
  ghost predicate Unknown(owner: Expr) {
    && (owner.Member? || (owner.Call? && owner.callee == Id("g")))
    && !IsNamespace(owner, ONLY_MOCK) && forall silent :: Quiet(owner, ONLY_MOCK, silent)
  }

  lemma StoredReport(owner: Expr)
    requires Unknown(owner)
    ensures Report(StoredFile(owner), ONLY_MOCK, Silent(StoredFile(owner))) == []
  {
    var file := StoredFile(owner);
    var silent := Silent(file);
    assert Roots(file) == [Id("mock"), ModuleOf(owner)];
    ModuleOfIsQuiet(owner, ONLY_MOCK, silent);
    assert Quiet(Id("mock"), ONLY_MOCK, silent);
    QuietFile(file, ONLY_MOCK, silent);
  }

  lemma StoredTurnsUp(owner: Expr, w: World)
    requires owner.Member? || (owner.Call? && owner.callee == Id("g") && "g" !in w.env)
    requires w.store == [Mock]
    ensures CallsModule(ModuleOf(owner), w, PickAt(owner))
  {
    var callee := ModuleOf(owner).callee;
    assert Eval(owner, w, PickAt(owner)) == Mock;
    assert owner < callee;
    assert Eval(callee, w, PickAt(owner)) == Get(Mock, "module");
  }

  lemma StoredIsMissed(owner: Expr)
    requires Unknown(owner)
    ensures !PlainFile(StoredFile(owner), ONLY_MOCK)
    ensures Missed(StoredFile(owner), ONLY_MOCK, StoredRun(owner), ModuleOf(owner), PickAt(owner))
  {
    var file, run := StoredFile(owner), StoredRun(owner);
    OnlyMockSeeds(file);
    NothingLearned(file);
    StoredReport(owner);
    assert Roots(file)[1] == ModuleOf(owner) && Occurs(ModuleOf(owner), Roots(file)[1]);
    assert Id("mock") in file.exprs && Loose(Id("mock"), file);
    assert Step(file, run[0], run[1]);
    StoredTurnsUp(owner, run[1]);
  }

  /** `function g() { return mock } g().module("./target")` -- a return carries the namespace. */
  lemma ReturnIsMissed(call: Expr)
    requires call == Call(Id("g"), [])
    ensures Missed(StoredFile(call), ONLY_MOCK, StoredRun(call), ModuleOf(call), PickAt(call))
  {
    forall silent ensures Quiet(call, ONLY_MOCK, silent) {
      assert Quiet(Id("g"), ONLY_MOCK, silent);
    }
    StoredIsMissed(call);
  }

  /** `o.m = mock; o.m.module("./target")` -- a property carries the namespace. */
  lemma PropertyIsMissed(read: Expr)
    requires read == Member(Id("o"), Named("m"))
    ensures Missed(StoredFile(read), ONLY_MOCK, StoredRun(read), ModuleOf(read), PickAt(read))
  {
    forall silent ensures Quiet(read, ONLY_MOCK, silent) {
      assert Quiet(Id("o"), ONLY_MOCK, silent);
    }
    StoredIsMissed(read);
  }

  // ---------------------------------------------------- an escape that is silenced

  /** `let patch; patch = mock.module; const q = { f: patch }; q.f("./target")`. */
  function SilencedFile(site: Expr): File {
    var capture := Binding(Name("patch"), Member(Id("mock"), Named("module")), false);
    var wrap := Binding(Name("q"), Object([Property(Some("f"), Id("patch"))]), true);
    File([IMPORT_MOCK], [capture, wrap], [site], {"patch"})
  }

  const WITH_PATCH := Sets({"mock"}, {"patch"}, {"require"}, {}, {})

  lemma SilencedLeast(site: Expr)
    ensures IsLeastClosed(WITH_PATCH, SilencedFile(site))
  {
    var file := SilencedFile(site);
    OnlyMockSeeds(file);
    assert file.bindings[0] in file.bindings && file.bindings[1] in file.bindings;
  }

  lemma SilencedReport(site: Expr)
    requires site == Call(Member(Id("q"), Named("f")), [Str("./target")])
    ensures Report(SilencedFile(site), WITH_PATCH, Silent(SilencedFile(site))) == []
  {
    var file := SilencedFile(site);
    var silent := Silent(file);
    assert "patch" in silent;
    assert Roots(file) == [file.bindings[0].init, file.bindings[1].init, site];
    assert Accounted(file, 0, WITH_PATCH);
    assert Quiet(Id("mock"), WITH_PATCH, silent) && Quiet(Id("patch"), WITH_PATCH, silent);
    assert Quiet(Id("q"), WITH_PATCH, silent) && Quiet(Str("./target"), WITH_PATCH, silent);
    assert Quiet(site.callee, WITH_PATCH, silent);
    QuietFile(file, WITH_PATCH, silent);
  }

  lemma SilencedRun(site: Expr)
    requires site == Call(Member(Id("q"), Named("f")), [Str("./target")])
    ensures CallsModule(site, InOrder(SilencedFile(site))[2], PLAIN_CHOICE)
  {
    var file := SilencedFile(site);
    OnlyMockSeeds(file);
    var run := InOrder(file);
    assert Eval(Id("mock"), run[0], PLAIN_CHOICE) == Mock;
    assert Eval(file.bindings[0].init, run[0], PLAIN_CHOICE) == ModuleFn;
    var literal := file.bindings[1].init;
    assert EvalProps(literal, 0, run[1], PLAIN_CHOICE) == map[];
    assert Eval(Id("patch"), run[1], PLAIN_CHOICE) == ModuleFn;
    assert EvalProps(literal, 1, run[1], PLAIN_CHOICE) == map[]["f" := ModuleFn];
    assert Eval(Id("q"), run[2], PLAIN_CHOICE) == Rec(map["f" := ModuleFn]);
    assert Eval(site.callee, run[2], PLAIN_CHOICE) == Get(Rec(map["f" := ModuleFn]), "f");
  }

  lemma SilencedIsPlain(site: Expr)
    requires site == Call(Member(Id("q"), Named("f")), [Str("./target")])
    ensures PlainFile(SilencedFile(site), WITH_PATCH)
  {
    var file := SilencedFile(site);
    assert Plain(Id("mock"), WITH_PATCH) && Plain(Id("patch"), WITH_PATCH) && Plain(Id("q"), WITH_PATCH);
    assert Plain(Str("./target"), WITH_PATCH) && Plain(site.callee, WITH_PATCH);
    assert Plain(site, WITH_PATCH);
    assert Plain(file.bindings[0].init, WITH_PATCH);
  }

  /** A file of the fragment with an empty report that patches: its one escape is of a silent name. */
  lemma SilencedEscapeIsMissed(site: Expr)
    requires site == Call(Member(Id("q"), Named("f")), [Str("./target")])
    ensures PlainFile(SilencedFile(site), WITH_PATCH)
    ensures !NoSilencedEscape(SilencedFile(site), WITH_PATCH, Silent(SilencedFile(site)))
    ensures Missed(SilencedFile(site), WITH_PATCH, InOrder(SilencedFile(site)), site, PLAIN_CHOICE)
  {
    var file := SilencedFile(site);
    SilencedIsPlain(site);
    SilencedLeast(site);
    SilencedReport(site);
    SilencedRun(site);
    InOrderIsRun(file, site);
    if NoSilencedEscape(file, WITH_PATCH, Silent(file)) {
      CleanFileNeverPatches(file, WITH_PATCH, Silent(file), InOrder(file), 2, site, PLAIN_CHOICE);
    }
  }
}
