/**
  The analysis claims nothing without a reason: in a file that assigns no name twice in
  one place, every name of the least sets holds its value in some run, and every recorded
  call can be made of `mock.module`.
 */
module AliasReach {
  import opened Wrappers
  import opened Lists
  import opened AliasAnalysis
  import opened AliasSoundness
  import opened AliasPrecision

  // ------------------------------------------------------------ files without repeats

  /** No pattern binds a name twice. */
  predicate OnceBound(t: Target) {
    t.Name? || (
      && (forall i, j :: 0 <= i < j < |t.elems| ==> BoundNames(t.elems[i].target) !! BoundNames(t.elems[j].target))
      && forall i :: 0 <= i < |t.elems| ==> OnceBound(t.elems[i].target))
  }

  predicate OnceKeyed(e: Expr) {
    e.Object? ==> forall i, j :: 0 <= i < j < |e.props| ==> e.props[i].key == None || e.props[i].key != e.props[j].key
  }

  /** No import, pattern or literal gives one name two values, and `require` is not imported over. */
  ghost predicate NoRepeats(file: File) {
    && (forall i, j :: 0 <= i < j < |file.imports| ==> file.imports[i].local != file.imports[j].local)
    && (forall i :: 0 <= i < |file.imports| ==> file.imports[i].local != "require")
    && (forall b :: b in file.bindings ==> OnceBound(b.target) && OnceKeyed(b.init))
  }

  // ------------------------------------------------------------------- reached worlds

  /** Some run that stores nothing ends in the names. */
  ghost predicate Reached(file: File, env: Env) {
    exists run :: IsRun(file, run) && run[|run| - 1] == WorldOf(env)
  }

  ghost predicate Holds(file: File, x: string, v: Value) {
    exists env: Env :: Reached(file, env) && x in env && env[x] == v
  }

  ghost predicate HoldsWrapper(file: File, x: string) {
    exists env: Env :: Reached(file, env) && x in env && HasMock(env[x])
  }

  predicate HasMock(v: Value) {
    v.Rec? && "mock" in v.fields && v.fields["mock"] == Mock
  }

  lemma StartReached(file: File)
    ensures Reached(file, StartFrom(file.imports))
  {
    assert IsRun(file, [WorldOf(StartFrom(file.imports))]);
  }

  lemma OneMore(file: File, env: Env, b: Binding, name: string)
    requires Reached(file, env) && b in file.bindings
    ensures Reached(file, Executed(b, WorldOf(env), Naming(name)).env)
  {
    var run :| IsRun(file, run) && run[|run| - 1] == WorldOf(env);
    var w := Executed(b, WorldOf(env), Naming(name));
    var more := run + [w];
    forall i | 0 <= i < |more| - 1 ensures Step(file, more[i], more[i + 1]) {
      if i < |run| - 1 {
        assert Step(file, run[i], run[i + 1]);
      } else {
        assert more[i] == WorldOf(env);
      }
    }
    assert IsRun(file, more);
  }

  /** The sets of the names that really hold what the sets say. */
  ghost function Held(file: File, s: Sets): Sets {
    Sets(
      set x | x in s.ns && Holds(file, x, Mock),
      set x | x in s.fn && Holds(file, x, ModuleFn),
      set x | x in s.fetch && Holds(file, x, Fetcher),
      set x | x in s.star && Holds(file, x, BunTest),
      set x | x in s.wrap && HoldsWrapper(file, x))
  }

  // ----------------------------------------------------------------- expressions

  /** Some reached world gives the expression its value, whatever computed names are. */
  ghost predicate Gives(file: File, e: Expr, v: Value, env: Env) {
    Reached(file, env) && forall name :: Eval(e, WorldOf(env), Naming(name)) == v
  }

  lemma BunTestGiven(file: File, e: Expr, s: Sets) returns (env: Env)
    requires IsBunTest(e, Held(file, s))
    ensures Gives(file, e, BunTest, env)
  {
    StartReached(file);
    if e.Id? {
      env :| Reached(file, env) && e.name in env && env[e.name] == BunTest;
    } else {
      var call := if e.Await? then e.arg else e;
      env := StartFrom(file.imports);
      if call.Call? {
        env :| Reached(file, env) && call.callee.name in env && env[call.callee.name] == Fetcher;
      }
      assert forall name :: Eval(call.args[0], WorldOf(env), Naming(name)) == Text(BUN_TEST);
      assert forall name :: Eval(call, WorldOf(env), Naming(name)) == BunTest;
    }
  }

  lemma NamespaceGiven(file: File, e: Expr, s: Sets) returns (env: Env)
    requires IsNamespace(e, Held(file, s))
    ensures Gives(file, e, Mock, env)
  {
    if e.Id? {
      env :| Reached(file, env) && e.name in env && env[e.name] == Mock;
    } else if IsBunTest(e.owner, Held(file, s)) {
      env := BunTestGiven(file, e.owner, s);
    } else {
      env :| Reached(file, env) && e.owner.name in env && HasMock(env[e.owner.name]);
      assert forall name :: HasMock(Eval(e.owner, WorldOf(env), Naming(name)));
    }
  }

  lemma ModuleFnGiven(file: File, e: Expr, s: Sets) returns (env: Env)
    requires IsModuleFn(e, Held(file, s))
    ensures Gives(file, e, ModuleFn, env)
  {
    if e.Id? {
      env :| Reached(file, env) && e.name in env && env[e.name] == ModuleFn;
    } else {
      env := NamespaceGiven(file, e.owner, s);
    }
  }

  /** The module object or a wrapper gives the namespace to the key `mock`. */
  lemma HolderGiven(file: File, e: Expr, s: Sets) returns (env: Env)
    requires HoldsMock(e, Held(file, s))
    ensures Reached(file, env) && Get(Eval(e, WorldOf(env), Naming("")), "mock") == Mock
  {
    if IsBunTest(e, Held(file, s)) {
      env := BunTestGiven(file, e, s);
    } else {
      env :| Reached(file, env) && e.name in env && HasMock(env[e.name]);
    }
  }

  // ------------------------------------------------------------------- assignments

  /** Names that a target does not bind keep what they hold. */
  lemma {:induction false} AssignElsewhere(t: Target, v: Value, env: Env, key: Expr -> string, y: string)
    requires y !in BoundNames(t) && y in env
    ensures y in Assign(t, v, env, key) && Assign(t, v, env, key)[y] == env[y]
    decreases t, 1, 0
  {
    if !t.Name? {
      AssignElemsElsewhere(t, |t.elems|, v, env, key, y);
    }
  }

  lemma {:induction false} AssignElemsElsewhere(t: Target, n: nat, v: Value, env: Env, key: Expr -> string, y: string)
    requires !t.Name? && n <= |t.elems| && y !in BoundInElements(t, n) && y in env
    ensures
      var env' := AssignElems(t, t.elems, n, v, env, key);
      y in env' && env'[y] == env[y]
    decreases t, 0, n
  {
    if n > 0 {
      var el := t.elems[n - 1];
      AssignElemsElsewhere(t, n - 1, v, env, key, y);
      AssignElsewhere(el.target, Get(v, ElementKey(el, key)), AssignElems(t, t.elems, n - 1, v, env, key), key, y);
    }
  }

  /** The names of a pattern are those of its elements. */
  lemma {:induction false} ElementNames(t: Target, n: nat, i: nat)
    requires !t.Name? && i < n <= |t.elems|
    ensures BoundNames(t.elems[i].target) <= BoundInElements(t, n)
  {
    if i < n - 1 {
      ElementNames(t, n - 1, i);
    }
  }

  /** What one element assigns, the elements behind it leave. */
  lemma {:induction false} ElementStays(t: Target, n: nat, i: nat, v: Value, env: Env, key: Expr -> string, y: string)
    requires !t.Name? && OnceBound(t) && i < n <= |t.elems| && y in BoundNames(t.elems[i].target)
    requires
      var el := t.elems[i];
      y in Assign(el.target, Get(v, ElementKey(el, key)), AssignElems(t, t.elems, i, v, env, key), key)
    ensures
      var el := t.elems[i];
      var before := Assign(el.target, Get(v, ElementKey(el, key)), AssignElems(t, t.elems, i, v, env, key), key);
      var after := AssignElems(t, t.elems, n, v, env, key);
      y in after && after[y] == before[y]
    decreases n
  {
    if i < n - 1 {
      ElementStays(t, n - 1, i, v, env, key, y);
      var el := t.elems[n - 1];
      AssignElsewhere(el.target, Get(v, ElementKey(el, key)), AssignElems(t, t.elems, n - 1, v, env, key), key, y);
    }
  }

  /** A name among the elements gets the part under its key. */
  lemma NameGets(t: Target, i: nat, v: Value, env: Env, key: Expr -> string)
    requires !t.Name? && OnceBound(t) && i < |t.elems| && t.elems[i].target.Name?
    ensures
      var after := Assign(t, v, env, key);
      var x := t.elems[i].target.name;
      x in after && after[x] == Get(v, ElementKey(t.elems[i], key))
  {
    ElementStays(t, |t.elems|, i, v, env, key, t.elems[i].target.name);
  }

  /** The same in a pattern below an element. */
  lemma InnerNameGets(t: Target, i: nat, j: nat, v: Value, env: Env, key: Expr -> string)
    requires !t.Name? && OnceBound(t) && i < |t.elems| && t.elems[i].target.Pattern?
    requires j < |t.elems[i].target.elems| && t.elems[i].target.elems[j].target.Name?
    ensures
      var after := Assign(t, v, env, key);
      var inner := t.elems[i].target.elems[j];
      var x := inner.target.name;
      x in after && after[x] == Get(Get(v, ElementKey(t.elems[i], key)), ElementKey(inner, key))
  {
    var el := t.elems[i];
    var inner := el.target.elems[j];
    var env1 := AssignElems(t, t.elems, i, v, env, key);
    assert OnceBound(el.target);
    NameGets(el.target, j, Get(v, ElementKey(el, key)), env1, key);
    ElementNames(el.target, |el.target.elems|, j);
    assert inner.target.name in BoundNames(inner.target);
    ElementStays(t, |t.elems|, i, v, env, key, inner.target.name);
  }

  /** A literal has the namespace where one of its properties does. */
  lemma {:induction false} PropStays(e: Expr, n: nat, i: nat, w: World, ch: Choice)
    requires e.Object? && OnceKeyed(e) && i < n <= |e.props| && e.props[i].key == Some("mock")
    requires ch == Naming("")
    ensures
      var fields := EvalProps(e, n, w, ch);
      "mock" in fields && fields["mock"] == Eval(e.props[i].value, w, ch)
    decreases n
  {
    assert Child(e, i) == e.props[i].value;
    if i < n - 1 {
      PropStays(e, n - 1, i, w, ch);
      assert e.props[i].key != e.props[n - 1].key;
    }
  }

  // ------------------------------------------------------ the held names are closed

  lemma {:induction false} ImportHeld(imports: seq<ImportDecl>, i: nat)
    requires i < |imports|
    requires forall i, j :: 0 <= i < j < |imports| ==> imports[i].local != imports[j].local
    ensures imports[i].local in StartFrom(imports) && StartFrom(imports)[imports[i].local] == ImportValue(imports[i])
    decreases |imports|
  {
    if i < |imports| - 1 {
      var front := imports[..|imports| - 1];
      ImportHeld(front, i);
      assert front[i] == imports[i];
    }
  }

  lemma {:induction false} RequireHeld(imports: seq<ImportDecl>)
    requires forall i :: 0 <= i < |imports| ==> imports[i].local != "require"
    ensures "require" in StartFrom(imports) && StartFrom(imports)["require"] == Fetcher
  {
    if imports != [] {
      RequireHeld(imports[..|imports| - 1]);
    }
  }

  /** A seeded name holds its value from the start. */
  lemma {:induction false} SeedHeld(file: File, n: nat, x: string)
    requires NoRepeats(file) && n <= |file.imports|
    ensures
      var seeds, env := SeedFrom(Sets({}, {}, {"require"}, {}, {}), file.imports[..n]), StartFrom(file.imports);
      && (x in seeds.ns ==> x in env && env[x] == Mock) && (x in seeds.star ==> x in env && env[x] == BunTest)
      && (x in seeds.fetch ==> x in env && env[x] == Fetcher) && x !in seeds.fn && x !in seeds.wrap
  {
    RequireHeld(file.imports);
    if n > 0 {
      SeedHeld(file, n - 1, x);
      assert file.imports[..n][..n - 1] == file.imports[..n - 1];
      ImportHeld(file.imports, n - 1);
    }
  }

  lemma SeedsHeld(file: File, s: Sets)
    requires NoRepeats(file) && Seeds(file).Within(s)
    ensures Seeds(file).Within(Held(file, s))
  {
    var env := StartFrom(file.imports);
    StartReached(file);
    assert file.imports[..|file.imports|] == file.imports;
    forall x ensures x in Seeds(file).ns ==> x in Held(file, s).ns {
      SeedHeld(file, |file.imports|, x);
    }
    forall x ensures x in Seeds(file).star ==> x in Held(file, s).star {
      SeedHeld(file, |file.imports|, x);
    }
    forall x ensures x in Seeds(file).fetch ==> x in Held(file, s).fetch {
      SeedHeld(file, |file.imports|, x);
    }
    forall x ensures x !in Seeds(file).fn && x !in Seeds(file).wrap {
      SeedHeld(file, |file.imports|, x);
    }
  }

  lemma HeldWithin(file: File, s: Sets)
    ensures Held(file, s).Within(s)
  {
  }

  /** The name a binding assigns holds, after it, what the initializer gave. */
  lemma NameHolds(file: File, b: Binding, v: Value, env: Env)
    requires b in file.bindings && b.target.Name? && Reached(file, env)
    requires Eval(b.init, WorldOf(env), Naming("")) == v
    ensures Holds(file, b.target.name, v) && (HasMock(v) ==> HoldsWrapper(file, b.target.name))
  {
    OneMore(file, env, b, "");
  }

  lemma NameAdmitted(file: File, s: Sets, b: Binding)
    requires NoRepeats(file) && Admits(s, b) && b in file.bindings && b.target.Name?
    ensures Admits(Held(file, s), b)
  {
    var t := Held(file, s);
    HeldWithin(file, s);
    TestsMonotone(b.init, t, s);
    if IsFetcher(b.init, t) {
      var env: Env :| Reached(file, env) && b.init.name in env && env[b.init.name] == Fetcher;
      NameHolds(file, b, Fetcher, env);
    }
    if IsBunTest(b.init, t) {
      var env := BunTestGiven(file, b.init, s);
      NameHolds(file, b, BunTest, env);
    }
    if IsNamespace(b.init, t) {
      var env := NamespaceGiven(file, b.init, s);
      NameHolds(file, b, Mock, env);
    }
    if IsModuleFn(b.init, t) {
      var env := ModuleFnGiven(file, b.init, s);
      NameHolds(file, b, ModuleFn, env);
    }
    if b.init.Object? {
      forall i | 0 <= i < |b.init.props| ensures AdmitsProp(t, b.target.name, b.init.props[i]) {
        PropAdmitted(file, s, b, i);
      }
    }
  }

  lemma PropAdmitted(file: File, s: Sets, b: Binding, i: nat)
    requires NoRepeats(file) && b in file.bindings && b.target.Name? && b.init.Object? && i < |b.init.props|
    requires AdmitsProp(s, b.target.name, b.init.props[i])
    ensures AdmitsProp(Held(file, s), b.target.name, b.init.props[i])
  {
    var p := b.init.props[i];
    HeldWithin(file, s);
    TestsMonotone(p.value, Held(file, s), s);
    if p.key == Some("mock") && IsNamespace(p.value, Held(file, s)) {
      var env := NamespaceGiven(file, p.value, s);
      WrapperHolds(file, b, i, env);
    }
  }

  /** A literal with the namespace under `mock` makes its name a wrapper. */
  lemma WrapperHolds(file: File, b: Binding, i: nat, env: Env)
    requires OnceKeyed(b.init) && b in file.bindings && b.target.Name? && b.init.Object? && i < |b.init.props|
    requires b.init.props[i].key == Some("mock") && Gives(file, b.init.props[i].value, Mock, env)
    ensures HoldsWrapper(file, b.target.name)
  {
    PropStays(b.init, |b.init.props|, i, WorldOf(env), Naming(""));
    NameHolds(file, b, Eval(b.init, WorldOf(env), Naming("")), env);
  }

  lemma ElementAdmitted(file: File, s: Sets, b: Binding, i: nat)
    requires NoRepeats(file) && b in file.bindings && b.target.Pattern? && i < |b.target.elems|
    requires AdmitsElement(s, b.init, b.target.elems[i])
    ensures AdmitsElement(Held(file, s), b.init, b.target.elems[i])
  {
    var t, el := Held(file, s), b.target.elems[i];
    HeldWithin(file, s);
    TestsMonotone(b.init, t, s);
    if el.key == Some("mock") && HoldsMock(b.init, t) {
      var env := HolderGiven(file, b.init, s);
      OneMore(file, env, b, "");
      var v := Eval(b.init, WorldOf(env), Naming(""));
      if el.target.Name? {
        NameGets(b.target, i, v, env, Naming("").key);
      } else if el.target.Pattern? {
        forall j | 0 <= j < |el.target.elems| ensures AdmitsModuleElement(t, el.target.elems[j]) {
          if el.target.elems[j].key == Some("module") && el.target.elems[j].target.Name? {
            assert AdmitsModuleElement(s, el.target.elems[j]);
            InnerNameGets(b.target, i, j, v, env, Naming("").key);
          }
        }
      }
    }
    if el.key == Some("module") && IsNamespace(b.init, t) && el.target.Name? {
      var env := NamespaceGiven(file, b.init, s);
      OneMore(file, env, b, "");
      NameGets(b.target, i, Mock, env, Naming("").key);
    }
  }

  lemma HeldClosed(file: File, s: Sets)
    requires NoRepeats(file) && Closed(s, file)
    ensures Closed(Held(file, s), file)
  {
    SeedsHeld(file, s);
    forall b | b in file.bindings ensures Admits(Held(file, s), b) {
      if b.target.Name? {
        NameAdmitted(file, s, b);
      } else if b.target.Pattern? {
        forall i | 0 <= i < |b.target.elems| ensures AdmitsElement(Held(file, s), b.init, b.target.elems[i]) {
          ElementAdmitted(file, s, b, i);
        }
      }
    }
  }

  // --------------------------------------------------------------------- the claims

  /** Every name of the least sets holds, in some run, what the sets say. */
  lemma NamesAreHeld(file: File, s: Sets)
    requires NoRepeats(file) && IsLeastClosed(s, file)
    ensures Held(file, s) == s
  {
    HeldClosed(file, s);
    HeldWithin(file, s);
  }

  /** Through `bind` the function is not called yet. */
  ghost predicate BindsModule(site: Expr, w: World, ch: Choice) {
    && site.Call? && site.callee.Member? && site.callee.prop == Named("bind")
    && Eval(site.callee.owner, w, ch) == ModuleFn
  }

  ghost predicate PatchedIn(site: Expr, w: World, ch: Choice) {
    CallsModule(site, w, ch) || BindsModule(site, w, ch)
  }

  /** Every recorded call is one that some run can make of `mock.module`, or of its `bind`. */
  lemma EveryRecordCanPatch(file: File, s: Sets, silent: set<string>, r: Record)
    requires NoRepeats(file) && IsLeastClosed(s, file) && r in Report(file, s, silent) && r.CallRecord?
    ensures exists env: Env, ch: Choice :: Reached(file, env) && PatchedIn(r.site, WorldOf(env), ch)
  {
    NamesAreHeld(file, s);
    EveryRecordStandsForCall(file, s, silent, r);
    var env := SitePatches(file, s, r.site);
    assert PatchedIn(r.site, WorldOf(env), Naming("module"));
  }

  lemma SitePatches(file: File, s: Sets, site: Expr) returns (env: Env)
    requires Held(file, s) == s && CallsFunction(site, s)
    ensures Reached(file, env) && PatchedIn(site, WorldOf(env), Naming("module"))
  {
    var callee := site.callee;
    if IsModuleFn(callee, s) {
      env := ModuleFnGiven(file, callee, s);
    } else if callee.prop == Computed {
      env := NamespaceGiven(file, callee.owner, s);
      assert Eval(callee, WorldOf(env), Naming("module")) == Get(Mock, "module");
    } else {
      env := ModuleFnGiven(file, callee.owner, s);
    }
  }

  /** A file that nowhere reads a property `module` or a computed one, nor takes `module` out of a pattern. */
  predicate NamesNoModule(file: File) {
    && (forall i :: 0 <= i < |Roots(file)| ==> ReadsNoModule(Roots(file)[i]))
    && (forall i :: 0 <= i < |file.bindings| ==> TakesNoModule(file.bindings[i].target))
  }

  predicate ReadsNoModule(e: Expr) {
    && (e.Member? ==> e.prop != Named("module") && e.prop != Computed)
    && forall i :: 0 <= i < Arity(e) ==> ReadsNoModule(Child(e, i))
  }

  predicate TakesNoModule(t: Target) {
    !t.Name? ==> forall i :: 0 <= i < |t.elems| ==> t.elems[i].key != Some("module") && TakesNoModule(t.elems[i].target)
  }

  lemma {:induction false} OccursReadsNone(sub: Expr, e: Expr)
    requires Occurs(sub, e) && ReadsNoModule(e)
    ensures ReadsNoModule(sub)
    decreases e
  {
    if sub != e {
      var i :| 0 <= i < Arity(e) && (Occurs(sub, Child(e, i)));
      OccursReadsNone(sub, Child(e, i));
    }
  }

  /** Such a file teaches no name for the function. */
  lemma NoFunctionNames(file: File, s: Sets)
    requires NamesNoModule(file) && IsLeastClosed(s, file)
    ensures s.fn == {}
  {
    var t := s.(fn := {});
    SeedsNoFunction(file.imports);
    forall b | b in file.bindings ensures Admits(t, b) {
      var i :| 0 <= i < |file.bindings| && file.bindings[i] == b;
      assert Roots(file)[i] == b.init && ReadsNoModule(b.init) && TakesNoModule(b.target);
      assert Admits(s, b);
      if b.target.Name? && b.init.Object? {
        forall j | 0 <= j < |b.init.props| ensures AdmitsProp(t, b.target.name, b.init.props[j]) {
          assert AdmitsProp(s, b.target.name, b.init.props[j]);
        }
      } else if b.target.Pattern? {
        forall j | 0 <= j < |b.target.elems| ensures AdmitsElement(t, b.init, b.target.elems[j]) {
          assert AdmitsElement(s, b.init, b.target.elems[j]) && TakesNoModule(b.target.elems[j].target);
        }
      }
    }
    assert Closed(t, file);
  }

  lemma {:induction false} SeedsNoFunction(imports: seq<ImportDecl>)
    ensures SeedFrom(Sets({}, {}, {"require"}, {}, {}), imports).fn == {}
  {
    if imports != [] {
      SeedsNoFunction(imports[..|imports| - 1]);
    }
  }

  lemma NoSiteCalls(file: File, s: Sets, site: Expr)
    requires NamesNoModule(file) && s.fn == {} && OccursInFile(site, file)
    ensures !CallsFunction(site, s)
  {
    var i :| 0 <= i < |Roots(file)| && Occurs(site, Roots(file)[i]);
    OccursReadsNone(site, Roots(file)[i]);
    assert site.Call? ==> Child(site, 0) == site.callee && ReadsNoModule(site.callee);
    assert site.Call? && site.callee.Member? ==>
      Child(site.callee, 0) == site.callee.owner && ReadsNoModule(site.callee.owner);
  }

  lemma NameCannot(x: string, s: Sets)
    requires s.fn == {}
    ensures !CanBe(Id(x), ModuleFn, s)
  {
  }

  lemma NoReadEscapes(file: File, s: Sets, silent: set<string>, read: Expr)
    requires NamesNoModule(file) && s.fn == {} && ValueInFile(read, file, s)
    ensures !ReadsFunction(read, s, silent)
  {
    var i :| 0 <= i < |Roots(file)| && ValueIn(read, Roots(file)[i], Accounted(file, i, s));
    ValueOccurs(read, Roots(file)[i], Accounted(file, i, s));
    OccursReadsNone(read, Roots(file)[i]);
    if read.Id? {
      NameCannot(read.name, s);
    }
  }

  /** Nothing is reported of a file that names no `module`, whatever else it does with `mock`. */
  lemma NoModuleNoReport(file: File, s: Sets, silent: set<string>)
    requires NamesNoModule(file) && IsLeastClosed(s, file)
    ensures Report(file, s, silent) == []
  {
    NoFunctionNames(file, s);
    forall r ensures r !in Report(file, s, silent) {
      if r in Report(file, s, silent) {
        if r.CallRecord? {
          EveryRecordStandsForCall(file, s, silent, r);
          NoSiteCalls(file, s, r.site);
        } else {
          EveryEscapeIsRead(file, s, silent, r);
          NoReadEscapes(file, s, silent, r.read);
        }
      }
    }
    SomeElement(Report(file, s, silent));
  }

  lemma {:induction false} ValueOccurs(sub: Expr, e: Expr, accounted: bool)
    requires ValueIn(sub, e, accounted)
    ensures Occurs(sub, e)
    decreases e
  {
    if !(sub == e && !accounted) {
      var i :| 0 <= i < Arity(e) && ValueIn(sub, Child(e, i), e.Call? && i == 0);
      ValueOccurs(sub, Child(e, i), e.Call? && i == 0);
    }
  }
}
