/**
  What a record of the alias check stands for: the converse of AliasSoundness. Every
  record names an expression of the file that can be `mock.module`, and a file that
  nowhere reads it has an empty report.
 */
module AliasPrecision {
  import opened Wrappers
  import opened AliasAnalysis
  import opened AliasSoundness

  // ------------------------------------------ the tests, by what can be evaluated

  /** Nothing stored turns up, and computed names are `name`. */
  function Naming(name: string): Choice {
    Choice((e: Expr) => name, (e: Expr) => 0)
  }

  function WorldOf(env: Env): World {
    World(env, [])
  }

  /** In some world that the sets explain, with computed names `module`, the expression has the value. */
  ghost predicate CanBe(e: Expr, v: Value, s: Sets) {
    exists env: Env :: Covered(WorldOf(env), s) && Eval(e, WorldOf(env), Naming("module")) == v
  }

  /** The one name an expression of the analysis is about, and the value it would have to hold. */
  lemma BunTestCan(e: Expr, s: Sets) returns (env: Env)
    requires IsBunTest(e, s)
    ensures Covered(WorldOf(env), s) && forall name :: Eval(e, WorldOf(env), Naming(name)) == BunTest
  {
    if e.Id? {
      env := map[e.name := BunTest];
    } else {
      var call := if e.Await? then e.arg else e;
      var args := call.args;
      env := if call.Call? then map[call.callee.name := Fetcher] else map[];
      assert forall name :: Eval(args[0], WorldOf(env), Naming(name)) == Text(BUN_TEST);
      assert forall name :: Eval(call, WorldOf(env), Naming(name)) == BunTest;
    }
  }

  lemma NamespaceCan(e: Expr, s: Sets) returns (env: Env)
    requires IsNamespace(e, s)
    ensures Covered(WorldOf(env), s) && forall name :: Eval(e, WorldOf(env), Naming(name)) == Mock
  {
    if e.Id? {
      env := map[e.name := Mock];
    } else if IsBunTest(e.owner, s) {
      env := BunTestCan(e.owner, s);
    } else {
      var wrapper := Rec(map["mock" := Mock]);
      env := map[e.owner.name := wrapper];
      assert forall name :: Eval(e.owner, WorldOf(env), Naming(name)) == wrapper;
    }
  }

  lemma ModuleFnCan(e: Expr, s: Sets) returns (env: Env)
    requires IsModuleFn(e, s)
    ensures Covered(WorldOf(env), s) && forall name :: Eval(e, WorldOf(env), Naming(name)) == ModuleFn
  {
    if e.Id? {
      env := map[e.name := ModuleFn];
    } else {
      env := NamespaceCan(e.owner, s);
    }
  }

  /** A read by name or by a computed name, of the function or of something that may be it. */
  lemma ReadCan(e: Expr, s: Sets)
    requires IsModuleFn(e, s) || (e.Member? && e.prop == Computed && IsNamespace(e.owner, s))
    ensures CanBe(e, ModuleFn, s)
  {
    if IsModuleFn(e, s) {
      var env := ModuleFnCan(e, s);
    } else {
      var env := NamespaceCan(e.owner, s);
      assert Eval(e, WorldOf(env), Naming("module")) == Get(Mock, "module");
    }
  }

  // ------------------------------------------------------------ recorded calls

  /** The literal a call is given first. */
  ghost predicate GivenFirst(site: Expr, text: string) {
    site.Call? && |site.args| > 0 && site.args[0] == Str(text)
  }

  /**
    A record stands for a call that can be one of `mock.module`: of a name or a property
    that can hold it, of a computed property of the namespace, or through the function's
    own `call`, `apply` or `bind`. Its target is the literal given first, and it is dynamic
    when there is none or when it may not be the specifier.
   */
  ghost predicate StandsForCall(r: Record, s: Sets)
    requires r.CallRecord?
  {
    && r.site.Call?
    && var callee := r.site.callee;
       && (match r.via
           case AliasCall(x) => callee == Id(x) && x in s.fn && CanBe(callee, ModuleFn, s)
           case ModuleProperty => callee.Member? && callee.prop == Named("module") && CanBe(callee, ModuleFn, s)
           case ComputedProperty => callee.Member? && callee.prop == Computed && CanBe(callee.owner, Mock, s)
           case IndirectInvoke =>
             && callee.Member? && (exists p :: p in {"call", "apply", "bind"} && callee.prop == Named(p))
             && CanBe(callee.owner, ModuleFn, s))
       && (forall text :: r.target == Some(text) <==> GivenFirst(r.site, text))
       && (r.dynamic <==> r.via.ComputedProperty? || r.via.IndirectInvoke? || r.target == None)
  }

  lemma OwnStandsForCall(e: Expr, s: Sets, r: Record)
    requires r in OwnRecord(e, s)
    ensures r.CallRecord? && r.site == e && StandsForCall(r, s)
  {
    var callee := e.callee;
    if callee.Id? {
      ReadCan(callee, s);
    } else if IsIndirectInvoke(callee, s) {
      ReadCan(callee.owner, s);
      assert callee.prop == Named(callee.prop.text);
    } else {
      ReadCan(callee, s);
      var env := NamespaceCan(callee.owner, s);
      assert Eval(callee.owner, WorldOf(env), Naming("module")) == Mock;
    }
  }

  lemma {:induction false} CallsStand(e: Expr, s: Sets, r: Record)
    requires r in CallsIn(e, s)
    ensures r.CallRecord? && Occurs(r.site, e) && r in OwnRecord(r.site, s) && StandsForCall(r, s)
    decreases e, 1, 0
  {
    if r in OwnRecord(e, s) {
      OwnStandsForCall(e, s, r);
    } else {
      var i := ChildCallsStand(e, Arity(e), s, r);
      assert Occurs(r.site, Child(e, i));
    }
  }

  lemma {:induction false} ChildCallsStand(e: Expr, n: nat, s: Sets, r: Record) returns (i: nat)
    requires n <= Arity(e) && r in CallsInChildren(e, n, s)
    ensures i < n && r.CallRecord? && Occurs(r.site, Child(e, i)) && r in OwnRecord(r.site, s) && StandsForCall(r, s)
    decreases e, 0, n
  {
    if r in CallsInChildren(e, n - 1, s) {
      i := ChildCallsStand(e, n - 1, s, r);
    } else {
      i := n - 1;
      CallsStand(Child(e, i), s, r);
    }
  }

  lemma {:induction false} CallReportStands(file: File, n: nat, s: Sets, r: Record)
    requires n <= |Roots(file)| && r in CallReport(file, n, s)
    ensures r.CallRecord? && OccursInFile(r.site, file) && r in OwnRecord(r.site, s) && StandsForCall(r, s)
  {
    if r in CallReport(file, n - 1, s) {
      CallReportStands(file, n - 1, s, r);
    } else {
      CallsStand(Roots(file)[n - 1], s, r);
    }
  }

  /** A call site that the analysis takes for a call of the function, however it is spelled. */
  predicate CallsFunction(site: Expr, s: Sets) {
    && site.Call?
    && (|| IsModuleFn(site.callee, s)
        || (site.callee.Member? && site.callee.prop == Computed && IsNamespace(site.callee.owner, s))
        || (&& site.callee.Member? && site.callee.prop in {Named("call"), Named("apply"), Named("bind")}
            && IsModuleFn(site.callee.owner, s)))
  }

  /** A record is about one call site of the file; a site has one exactly when it calls the function. */
  lemma EveryRecordStandsForCall(file: File, s: Sets, silent: set<string>, r: Record)
    requires r in Report(file, s, silent) && r.CallRecord?
    ensures OccursInFile(r.site, file) && CallsFunction(r.site, s) && StandsForCall(r, s)
  {
    if r in Escapes(file, s, silent) {
      EscapesAreReads(file, |Roots(file)|, s, silent, r);
    } else {
      CallReportStands(file, |Roots(file)|, s, r);
      OwnIff(r.site, s);
    }
  }

  lemma OwnIff(site: Expr, s: Sets)
    ensures OwnRecord(site, s) != [] <==> CallsFunction(site, s)
    ensures |OwnRecord(site, s)| <= 1
  {
  }

  /** The call sites with a record are those that call the function. */
  lemma RecordedIff(file: File, s: Sets, silent: set<string>, site: Expr)
    requires OccursInFile(site, file)
    ensures (exists r :: r in Report(file, s, silent) && r.CallRecord? && r.site == site) <==> CallsFunction(site, s)
  {
    OwnIff(site, s);
    if CallsFunction(site, s) {
      var i :| 0 <= i < |Roots(file)| && Occurs(site, Roots(file)[i]);
      var r := OwnRecord(site, s)[0];
      OwnStandsForCall(site, s, r);
      OccursRecorded(site, Roots(file)[i], s);
      CallReported(file, |Roots(file)|, i, s, r);
    }
    if r :| r in Report(file, s, silent) && r.CallRecord? && r.site == site {
      EveryRecordStandsForCall(file, s, silent, r);
    }
  }

  // --------------------------------------------------------- reported escapes

  /** The expression stands in the tree where its value is used, and not only called or bound to a learned name. */
  predicate ValueIn(sub: Expr, e: Expr, accounted: bool) {
    || (sub == e && !accounted)
    || exists i :: 0 <= i < Arity(e) && ValueIn(sub, Child(e, i), e.Call? && i == 0)
  }

  predicate ValueInFile(sub: Expr, file: File, s: Sets) {
    exists i :: 0 <= i < |Roots(file)| && ValueIn(sub, Roots(file)[i], Accounted(file, i, s))
  }

  /** A read that can give the function, of a name that is not declared as something else too. */
  ghost predicate ReadsFunction(e: Expr, s: Sets, silent: set<string>) {
    && CanBe(e, ModuleFn, s) && !Silenced(e, silent)
    && (e.Id? || (e.Member? && e.prop in {Named("module"), Computed}))
  }

  lemma ModuleReadReads(e: Expr, s: Sets, silent: set<string>)
    requires IsModuleRead(e, s, silent)
    ensures ReadsFunction(e, s, silent)
  {
    ReadCan(e, s);
  }

  lemma {:induction false} EscapeIsRead(e: Expr, s: Sets, silent: set<string>, accounted: bool, r: Record)
    requires r in EscapesIn(e, s, silent, accounted)
    ensures r.EscapeRecord? && ValueIn(r.read, e, accounted) && ReadsFunction(r.read, s, silent)
    decreases e, 1, 0
  {
    if r in EscapesInChildren(e, Arity(e), s, silent) {
      var i := ChildEscapeIsRead(e, Arity(e), s, silent, r);
    } else {
      ModuleReadReads(e, s, silent);
    }
  }

  lemma {:induction false} ChildEscapeIsRead(e: Expr, n: nat, s: Sets, silent: set<string>, r: Record)
    returns (i: nat)
    requires n <= Arity(e) && r in EscapesInChildren(e, n, s, silent)
    ensures i < n && r.EscapeRecord? && ValueIn(r.read, Child(e, i), e.Call? && i == 0)
    ensures ReadsFunction(r.read, s, silent)
    decreases e, 0, n
  {
    if r in EscapesInChildren(e, n - 1, s, silent) {
      i := ChildEscapeIsRead(e, n - 1, s, silent, r);
    } else {
      i := n - 1;
      EscapeIsRead(Child(e, i), s, silent, e.Call? && i == 0, r);
    }
  }

  lemma {:induction false} EscapesAreReads(file: File, n: nat, s: Sets, silent: set<string>, r: Record)
    requires n <= |Roots(file)| && r in EscapeReport(file, n, s, silent)
    ensures r.EscapeRecord? && ValueInFile(r.read, file, s) && ReadsFunction(r.read, s, silent)
  {
    if r in EscapeReport(file, n - 1, s, silent) {
      EscapesAreReads(file, n - 1, s, silent, r);
    } else {
      EscapeIsRead(Roots(file)[n - 1], s, silent, Accounted(file, n - 1, s), r);
    }
  }

  // ------------------------------------------------------------ silenced names

  /** The target takes the name, itself or in a pattern. */
  ghost predicate Takes(t: Target, x: string) {
    match t
    case Name(y) => x == y
    case Pattern(elems) => exists i :: 0 <= i < |elems| && Takes(elems[i].target, x)
    case Literal(elems) => exists i :: 0 <= i < |elems| && Takes(elems[i].target, x)
  }

  lemma {:induction false} BoundIff(t: Target, x: string)
    ensures x in BoundNames(t) <==> Takes(t, x)
    decreases t, 1, 0
  {
    if !t.Name? {
      BoundInIff(t, |t.elems|, x);
    }
  }

  lemma {:induction false} BoundInIff(t: Target, n: nat, x: string)
    requires !t.Name? && n <= |t.elems|
    ensures x in BoundInElements(t, n) <==> exists i :: 0 <= i < n && Takes(t.elems[i].target, x)
    decreases t, 0, n
  {
    if n > 0 {
      BoundInIff(t, n - 1, x);
      BoundIff(t.elems[n - 1].target, x);
    }
  }

  /** The `i`-th binding declares the name, as something other than an alias known at its turn. */
  ghost predicate DeclaresOther(file: File, s: Sets, i: nat, x: string) {
    && i < |file.bindings| && file.bindings[i].declares && Takes(file.bindings[i].target, x)
    && var init, known := file.bindings[i].init, Learn(s, file.bindings[..i]);
       !IsNamespace(init, known) && !IsModuleFn(init, known) && !IsBunTest(init, known)
  }

  lemma {:induction false} ShadowsIff(file: File, s: Sets, n: nat, x: string)
    requires n <= |file.bindings|
    ensures x in Shadows(s, file.bindings[..n]) <==> exists i: nat :: i < n && DeclaresOther(file, s, i, x)
  {
    if n > 0 {
      ShadowsIff(file, s, n - 1, x);
      var bindings := file.bindings[..n];
      assert bindings[..n - 1] == file.bindings[..n - 1] && bindings[n - 1] == file.bindings[n - 1];
      BoundIff(file.bindings[n - 1].target, x);
      assert x in ShadowedBy(bindings[n - 1], Learn(s, bindings[..n - 1])) <==> DeclaresOther(file, s, n - 1, x);
    }
  }

  /**
    A name is silenced exactly when the file declares it as no value, or when some
    declaration takes it for what is, at its turn in the first pass, no alias.
   */
  lemma SilencedIff(file: File, x: string)
    ensures x in Silent(file) <==>
      x in file.declared || exists i: nat :: DeclaresOther(file, Seeds(file), i, x)
  {
    assert file.bindings[..|file.bindings|] == file.bindings;
    ShadowsIff(file, Seeds(file), |file.bindings|, x);
  }

  /** An escape in the report is a read, used as a value, that can give the function. */
  lemma EveryEscapeIsRead(file: File, s: Sets, silent: set<string>, r: Record)
    requires r in Report(file, s, silent) && r.EscapeRecord?
    ensures ValueInFile(r.read, file, s) && ReadsFunction(r.read, s, silent)
  {
    if r in Escapes(file, s, silent) {
      EscapesAreReads(file, |Roots(file)|, s, silent, r);
    } else {
      CallReportStands(file, |Roots(file)|, s, r);
    }
  }
}
