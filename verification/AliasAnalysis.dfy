/**
  The alias analysis of the registry-mock check: which names of a file can hold
  `mock`, `mock.module`, the `bun:test` module object, the module fetcher, or an
  object literal that carries `mock`.

  Part 1 is the syntax, part 2 the analysis (the transfer functions), part 3 its
  characterisation as a least fixed point. Module AliasSoundness has the semantics
  of a file and the soundness of the analysis for every run.
 */
module AliasAnalysis {
  import opened Wrappers
  import opened Lists

  // ---------------------------------------------------------------- syntax

  /** A property name, or one that cannot be read from the text (`mock[x]`). */
  datatype Prop = Named(text: string) | Computed

  /**
    Expressions after parentheses, `as`, `satisfies` and `!` are stripped. A form that
    is not listed is `Opaque`, and its parts are among the other expressions of the file:
    a function body and what it returns, the branches of a conditional, array elements,
    the right side of an assignment to a property or one whose value is used.
   */
  datatype Expr =
    | Id(name: string)
    | Str(text: string)
    | Member(owner: Expr, prop: Prop)
    | Call(callee: Expr, args: seq<Expr>)
    | Import(args: seq<Expr>)
    | Await(arg: Expr)
    | Object(props: seq<Property>)
    | Opaque

  /** `key: value` of an object literal; the key is absent when it is computed. */
  datatype Property = Property(key: Option<string>, value: Expr)

  /**
    What a binding assigns to: a name, the object pattern of a declaration, or
    the object pattern of an assignment expression (`({ mock: m } = bt)`).
   */
  datatype Target = Name(name: string) | Pattern(elems: seq<Element>) | Literal(elems: seq<Element>)

  datatype Element = Element(key: Option<string>, target: Target)

  /** A declaration with an initializer, or an assignment to a name or pattern. */
  datatype Binding = Binding(target: Target, init: Expr, declares: bool)

  /** The import forms that can bring `bun:test` into a file. */
  datatype ImportDecl =
    | NamedImport(specifier: string, imported: string, local: string)
    | StarImport(specifier: string, local: string)
    | ImportEquals(specifier: string, local: string)

  /**
    A file: imports, bindings in source order, its other expressions, and the names
    that parameters, catch clauses and declarations without an initializer declare.
   */
  datatype File = File(imports: seq<ImportDecl>, bindings: seq<Binding>, exprs: seq<Expr>, declared: set<string>)

  const BUN_TEST := "bun:test"
  const MAX_PASSES := 64

  // -------------------------------------------------------------- analysis

  /** The five sets the learn pass grows. */
  datatype Sets = Sets(ns: set<string>, fn: set<string>, fetch: set<string>, star: set<string>, wrap: set<string>) {
    ghost predicate Within(other: Sets) {
      ns <= other.ns && fn <= other.fn && fetch <= other.fetch && star <= other.star && wrap <= other.wrap
    }

    function Size(): nat {
      |ns| + |fn| + |fetch| + |star| + |wrap|
    }
  }

  /** The module object of `bun:test`: a star import, or a fetcher call of it. */
  predicate IsBunTest(e: Expr, s: Sets) {
    match e
    case Id(x) => x in s.star
    case Await(a) => IsBunTestCall(a, s)
    case _ => IsBunTestCall(e, s)
  }

  predicate IsBunTestCall(e: Expr, s: Sets) {
    match e
    case Call(callee, args) => FetchesBunTest(args) && callee.Id? && callee.name in s.fetch
    case Import(args) => FetchesBunTest(args)
    case _ => false
  }

  predicate FetchesBunTest(args: seq<Expr>) {
    |args| > 0 && args[0] == Str(BUN_TEST)
  }

  /** Does the expression evaluate to the `mock` namespace? */
  predicate IsNamespace(e: Expr, s: Sets) {
    match e
    case Id(x) => x in s.ns
    case Member(o, Named(p)) => p == "mock" && (IsBunTest(o, s) || IsWrapper(o, s))
    case _ => false
  }

  /** Does the expression evaluate to the function `mock.module`? */
  predicate IsModuleFn(e: Expr, s: Sets) {
    match e
    case Id(x) => x in s.fn
    case Member(o, Named(p)) => p == "module" && IsNamespace(o, s)
    case _ => false
  }

  predicate IsWrapper(e: Expr, s: Sets) {
    e.Id? && e.name in s.wrap
  }

  predicate IsFetcher(e: Expr, s: Sets) {
    e.Id? && e.name in s.fetch
  }

  predicate HoldsMock(e: Expr, s: Sets) {
    IsBunTest(e, s) || IsWrapper(e, s)
  }

  /** One property of `const x = { ... }`. */
  function BindProp(s: Sets, x: string, p: Property): Sets {
    if p.key == Some("mock") && IsNamespace(p.value, s) then s.(wrap := s.wrap + {x}) else s
  }

  function BindProps(s: Sets, x: string, props: seq<Property>): Sets {
    if props == [] then s else BindProp(BindProps(s, x, props[..|props| - 1]), x, props[|props| - 1])
  }

  /** One element of a pattern nested under `mock:`. */
  function BindModuleElement(s: Sets, el: Element): Sets {
    if el.key == Some("module") && el.target.Name? then s.(fn := s.fn + {el.target.name}) else s
  }

  function BindModuleFrom(s: Sets, elems: seq<Element>): Sets {
    if elems == [] then s else BindModuleElement(BindModuleFrom(s, elems[..|elems| - 1]), elems[|elems| - 1])
  }

  /** One element of a declaration's object pattern. */
  function BindElement(s: Sets, init: Expr, el: Element): Sets {
    if el.key == Some("mock") && HoldsMock(init, s) then
      match el.target
      case Name(x) => s.(ns := s.ns + {x})
      case Pattern(sub) => BindModuleFrom(s, sub)
      case Literal(_) => s
    else if el.key == Some("module") && IsNamespace(init, s) && el.target.Name? then
      s.(fn := s.fn + {el.target.name})
    else s
  }

  function BindElements(s: Sets, init: Expr, elems: seq<Element>): Sets {
    if elems == [] then s else BindElement(BindElements(s, init, elems[..|elems| - 1]), init, elems[|elems| - 1])
  }

  function BindFetch(s: Sets, x: string, init: Expr): Sets {
    if IsFetcher(init, s) then s.(fetch := s.fetch + {x}) else s
  }

  function BindStar(s: Sets, x: string, init: Expr): Sets {
    if IsBunTest(init, s) then s.(star := s.star + {x}) else s
  }

  function BindNs(s: Sets, x: string, init: Expr): Sets {
    if IsNamespace(init, s) then s.(ns := s.ns + {x}) else s
  }

  function BindFn(s: Sets, x: string, init: Expr): Sets {
    if IsModuleFn(init, s) then s.(fn := s.fn + {x}) else s
  }

  /** What one binding teaches, in the order the tests are made. */
  function Bind(s: Sets, b: Binding): Sets {
    match b.target
    case Name(x) =>
      var s0 := if b.init.Object? then BindProps(s, x, b.init.props) else s;
      BindFn(BindNs(BindStar(BindFetch(s0, x, b.init), x, b.init), x, b.init), x, b.init)
    case Pattern(elems) => BindElements(s, b.init, elems)
    case Literal(_) => s
  }

  function Learn(s: Sets, bindings: seq<Binding>): Sets {
    if bindings == [] then s else Bind(Learn(s, bindings[..|bindings| - 1]), bindings[|bindings| - 1])
  }

  function SeedImport(s: Sets, d: ImportDecl): Sets {
    if d.specifier != BUN_TEST then s else
      match d
      case NamedImport(_, imported, local) => if imported == "mock" then s.(ns := s.ns + {local}) else s
      case StarImport(_, local) => s.(star := s.star + {local})
      case ImportEquals(_, local) => s.(star := s.star + {local})
  }

  function SeedFrom(s: Sets, imports: seq<ImportDecl>): Sets {
    if imports == [] then s else SeedImport(SeedFrom(s, imports[..|imports| - 1]), imports[|imports| - 1])
  }

  function Seeds(file: File): Sets {
    SeedFrom(Sets({}, {}, {"require"}, {}, {}), file.imports)
  }

  /** The names a declared pattern binds. */
  function BoundNames(t: Target): set<string>
    decreases t, 1, 0
  {
    if t.Name? then {t.name} else BoundInElements(t, |t.elems|)
  }

  function BoundInElements(t: Target, n: nat): set<string>
    requires !t.Name? && n <= |t.elems|
    decreases t, 0, n
  {
    if n == 0 then {} else BoundInElements(t, n - 1) + BoundNames(t.elems[n - 1].target)
  }

  /** An initializer that makes a declaration an alias and not a shadow. */
  predicate IsAlias(init: Expr, s: Sets) {
    IsNamespace(init, s) || IsModuleFn(init, s) || IsBunTest(init, s)
  }

  function ShadowedBy(b: Binding, s: Sets): set<string> {
    if b.declares && !IsAlias(b.init, s) then BoundNames(b.target) else {}
  }

  /** The names one pass takes for shadows; each declaration is judged by what is known at its turn. */
  function Shadows(s: Sets, bindings: seq<Binding>): set<string> {
    if bindings == [] then {}
    else
      var front, last := bindings[..|bindings| - 1], bindings[|bindings| - 1];
      Shadows(s, front) + ShadowedBy(last, Learn(s, front))
  }

  /** The names whose reads the escape report passes over, wherever they stand. */
  function Silent(file: File): set<string> {
    file.declared + Shadows(Seeds(file), file.bindings)
  }

  // ---------------------------------------------- the transfer rules, stated

  /**
    A set of rules with no order in it: `s` admits `b` when every name `b` could
    teach is already known. This is the reference the loop is compared with.
   */
  ghost predicate Admits(s: Sets, b: Binding) {
    match b.target
    case Name(x) =>
      && (b.init.Object? ==>
            forall i :: 0 <= i < |b.init.props| ==> AdmitsProp(s, x, b.init.props[i]))
      && (IsFetcher(b.init, s) ==> x in s.fetch)
      && (IsBunTest(b.init, s) ==> x in s.star)
      && (IsNamespace(b.init, s) ==> x in s.ns)
      && (IsModuleFn(b.init, s) ==> x in s.fn)
    case Pattern(elems) =>
      forall i :: 0 <= i < |elems| ==> AdmitsElement(s, b.init, elems[i])
    case Literal(_) => true
  }

  ghost predicate AdmitsProp(s: Sets, x: string, p: Property) {
    p.key == Some("mock") && IsNamespace(p.value, s) ==> x in s.wrap
  }

  ghost predicate AdmitsModuleElement(s: Sets, el: Element) {
    el.key == Some("module") && el.target.Name? ==> el.target.name in s.fn
  }

  ghost predicate AdmitsElement(s: Sets, init: Expr, el: Element) {
    && (el.key == Some("mock") && HoldsMock(init, s) ==>
          && (el.target.Name? ==> el.target.name in s.ns)
          && (el.target.Pattern? ==>
                forall i :: 0 <= i < |el.target.elems| ==> AdmitsModuleElement(s, el.target.elems[i])))
    && (el.key == Some("module") && IsNamespace(init, s) && el.target.Name? ==> el.target.name in s.fn)
  }

  ghost predicate Closed(s: Sets, file: File) {
    Seeds(file).Within(s) && forall b :: b in file.bindings ==> Admits(s, b)
  }

  ghost predicate IsLeastClosed(s: Sets, file: File) {
    Closed(s, file) && forall t: Sets :: Closed(t, file) ==> s.Within(t)
  }

  // ------------------------------------------------------- growth and least

  lemma TestsMonotone(e: Expr, s: Sets, t: Sets)
    requires s.Within(t)
    ensures IsBunTest(e, s) ==> IsBunTest(e, t)
    ensures IsNamespace(e, s) ==> IsNamespace(e, t)
    ensures IsModuleFn(e, s) ==> IsModuleFn(e, t)
    ensures HoldsMock(e, s) ==> HoldsMock(e, t)
  {
  }

  lemma {:induction false} BindPropsBetween(s: Sets, x: string, props: seq<Property>, t: Sets)
    ensures s.Within(BindProps(s, x, props))
    ensures s.Within(t) && (forall i :: 0 <= i < |props| ==> AdmitsProp(t, x, props[i]))
      ==> BindProps(s, x, props).Within(t)
  {
    if props != [] {
      var init, last := props[..|props| - 1], props[|props| - 1];
      BindPropsBetween(s, x, init, t);
      var r := BindProps(s, x, init);
      if r.Within(t) {
        TestsMonotone(last.value, r, t);
      }
      assert forall i :: 0 <= i < |init| ==> props[i] == init[i];
    }
  }

  lemma {:induction false} BindModuleFromBetween(s: Sets, elems: seq<Element>, t: Sets)
    ensures s.Within(BindModuleFrom(s, elems))
    ensures s.Within(t) && (forall i :: 0 <= i < |elems| ==> AdmitsModuleElement(t, elems[i]))
      ==> BindModuleFrom(s, elems).Within(t)
  {
    if elems != [] {
      var init := elems[..|elems| - 1];
      BindModuleFromBetween(s, init, t);
      assert forall i :: 0 <= i < |init| ==> elems[i] == init[i];
    }
  }

  lemma BindElementBetween(s: Sets, init: Expr, el: Element, t: Sets)
    ensures s.Within(BindElement(s, init, el))
    ensures s.Within(t) && AdmitsElement(t, init, el) ==> BindElement(s, init, el).Within(t)
  {
    if el.target.Pattern? {
      BindModuleFromBetween(s, el.target.elems, t);
    }
    if s.Within(t) {
      TestsMonotone(init, s, t);
    }
  }

  lemma {:induction false} BindElementsBetween(s: Sets, init: Expr, elems: seq<Element>, t: Sets)
    ensures s.Within(BindElements(s, init, elems))
    ensures s.Within(t) && (forall i :: 0 <= i < |elems| ==> AdmitsElement(t, init, elems[i]))
      ==> BindElements(s, init, elems).Within(t)
  {
    if elems != [] {
      var front := elems[..|elems| - 1];
      BindElementsBetween(s, init, front, t);
      BindElementBetween(BindElements(s, init, front), init, elems[|elems| - 1], t);
      assert forall i :: 0 <= i < |front| ==> elems[i] == front[i];
    }
  }

  /** A binding only grows the sets, and never past sets that admit it. */
  lemma BindBetween(s: Sets, b: Binding, t: Sets)
    ensures s.Within(Bind(s, b))
    ensures s.Within(t) && Admits(t, b) ==> Bind(s, b).Within(t)
  {
    match b.target
    case Name(x) =>
      var s0 := if b.init.Object? then BindProps(s, x, b.init.props) else s;
      if b.init.Object? {
        BindPropsBetween(s, x, b.init.props, t);
      }
      var s1 := BindFetch(s0, x, b.init);
      var s2 := BindStar(s1, x, b.init);
      var s3 := BindNs(s2, x, b.init);
      if s.Within(t) && Admits(t, b) {
        TestsMonotone(b.init, s0, t);
        assert s1.Within(t);
        TestsMonotone(b.init, s1, t);
        assert s2.Within(t);
        TestsMonotone(b.init, s2, t);
        assert s3.Within(t);
        TestsMonotone(b.init, s3, t);
      }
    case Pattern(elems) => BindElementsBetween(s, b.init, elems, t);
    case Literal(_) =>
  }

  lemma {:induction false} LearnBetween(s: Sets, bindings: seq<Binding>, t: Sets)
    ensures s.Within(Learn(s, bindings))
    ensures s.Within(t) && (forall b :: b in bindings ==> Admits(t, b)) ==> Learn(s, bindings).Within(t)
  {
    if bindings != [] {
      var front := bindings[..|bindings| - 1];
      LearnBetween(s, front, t);
      BindBetween(Learn(s, front), bindings[|bindings| - 1], t);
      assert forall b :: b in front ==> b in bindings;
    }
  }

  /** A later pass takes no name for a shadow that the first one did not. */
  lemma {:induction false} ShadowsShrink(s: Sets, bindings: seq<Binding>, t: Sets)
    requires Learn(s, bindings).Within(t)
    ensures Shadows(t, bindings) <= Shadows(s, bindings)
  {
    if bindings != [] {
      var front, last := bindings[..|bindings| - 1], bindings[|bindings| - 1];
      BindBetween(Learn(s, front), last, t);
      ShadowsShrink(s, front, t);
      LearnBetween(t, front, t);
      TestsMonotone(last.init, Learn(s, front), Learn(t, front));
    }
  }

  lemma {:induction false} SettledPropsAdmit(s: Sets, x: string, props: seq<Property>)
    requires BindProps(s, x, props) == s
    ensures forall i :: 0 <= i < |props| ==> AdmitsProp(s, x, props[i])
  {
    if props != [] {
      var front := props[..|props| - 1];
      BindPropsBetween(s, x, front, s);
      var r := BindProps(s, x, front);
      BindPropsBetween(r, x, [props[|props| - 1]], r);
      SettledPropsAdmit(s, x, front);
      assert forall i :: 0 <= i < |front| ==> props[i] == front[i];
    }
  }

  lemma {:induction false} SettledModuleFromAdmit(s: Sets, elems: seq<Element>)
    requires BindModuleFrom(s, elems) == s
    ensures forall i :: 0 <= i < |elems| ==> AdmitsModuleElement(s, elems[i])
  {
    if elems != [] {
      var front := elems[..|elems| - 1];
      BindModuleFromBetween(s, front, s);
      SettledModuleFromAdmit(s, front);
      assert forall i :: 0 <= i < |front| ==> elems[i] == front[i];
    }
  }

  lemma {:induction false} SettledElementsAdmit(s: Sets, init: Expr, elems: seq<Element>)
    requires BindElements(s, init, elems) == s
    ensures forall i :: 0 <= i < |elems| ==> AdmitsElement(s, init, elems[i])
  {
    if elems != [] {
      var front, last := elems[..|elems| - 1], elems[|elems| - 1];
      BindElementsBetween(s, init, front, s);
      BindElementBetween(BindElements(s, init, front), init, last, s);
      SettledElementsAdmit(s, init, front);
      if last.key == Some("mock") && HoldsMock(init, s) && last.target.Pattern? {
        SettledModuleFromAdmit(s, last.target.elems);
      }
      assert forall i :: 0 <= i < |front| ==> elems[i] == front[i];
    }
  }

  /** A binding that teaches nothing is one the transfer rules admit, and conversely. */
  lemma SettledIffAdmits(s: Sets, b: Binding)
    ensures Bind(s, b) == s <==> Admits(s, b)
  {
    BindBetween(s, b, s);
    if Bind(s, b) == s {
      match b.target
      case Name(x) =>
        if b.init.Object? {
          BindPropsBetween(s, x, b.init.props, s);
          SettledPropsAdmit(s, x, b.init.props);
        }
      case Pattern(elems) => SettledElementsAdmit(s, b.init, elems);
      case Literal(_) =>
    }
  }

  lemma {:induction false} SettledPassAdmitsAll(s: Sets, bindings: seq<Binding>)
    requires Learn(s, bindings) == s
    ensures forall b :: b in bindings ==> Admits(s, b)
  {
    if bindings != [] {
      var front, last := bindings[..|bindings| - 1], bindings[|bindings| - 1];
      LearnBetween(s, front, s);
      BindBetween(Learn(s, front), last, s);
      SettledPassAdmitsAll(s, front);
      SettledIffAdmits(s, last);
      assert bindings == front + [last];
    }
  }

  // ------------------------------------------------- the bound on the passes

  function TargetNames(t: Target): set<string> {
    match t
    case Name(x) => {x}
    case Pattern(elems) => set i, x | 0 <= i < |elems| && x in ElementNames(elems[i]) :: x
    case Literal(elems) => set i, x | 0 <= i < |elems| && x in ElementNames(elems[i]) :: x
  }

  function ElementNames(el: Element): set<string> {
    TargetNames(el.target)
  }

  /** Every name the analysis of a file can ever put in a set. */
  function Names(file: File): set<string> {
    {"require"}
    + (set i | 0 <= i < |file.imports| :: file.imports[i].local)
    + (set i, x | 0 <= i < |file.bindings| && x in TargetNames(file.bindings[i].target) :: x)
  }

  function Full(names: set<string>): Sets {
    Sets(names, names, names, names, names)
  }

  lemma {:induction false} SeedsWithin(s: Sets, imports: seq<ImportDecl>, names: set<string>)
    requires s.Within(Full(names))
    requires forall i :: 0 <= i < |imports| ==> imports[i].local in names
    ensures SeedFrom(s, imports).Within(Full(names))
    ensures s.Within(SeedFrom(s, imports))
  {
    if imports != [] {
      SeedsWithin(s, imports[..|imports| - 1], names);
    }
  }

  /** The full sets satisfy every rule, so the analysis stays inside them. */
  lemma FullIsClosed(file: File)
    ensures Closed(Full(Names(file)), file)
  {
    var names := Names(file);
    SeedsWithin(Sets({}, {}, {"require"}, {}, {}), file.imports, names);
    forall b | b in file.bindings
      ensures Admits(Full(names), b)
    {
      var k :| 0 <= k < |file.bindings| && file.bindings[k] == b;
      assert TargetNames(b.target) <= names;
      if b.target.Pattern? {
        forall i | 0 <= i < |b.target.elems|
          ensures AdmitsElement(Full(names), b.init, b.target.elems[i])
        {
          var t := b.target.elems[i].target;
          assert ElementNames(b.target.elems[i]) <= TargetNames(b.target);
          assert TargetNames(t) <= names;
          if t.Pattern? {
            forall j | 0 <= j < |t.elems| && t.elems[j].target.Name?
              ensures t.elems[j].target.name in names
            {
              assert ElementNames(t.elems[j]) <= TargetNames(t);
              assert t.elems[j].target.name in ElementNames(t.elems[j]);
            }
          }
        }
      }
    }
  }

  lemma WithinSize(s: Sets, t: Sets)
    requires s.Within(t)
    ensures s.Size() <= t.Size()
    ensures s.Size() == t.Size() ==> s == t
  {
    SubsetSize(s.ns, t.ns);
    SubsetSize(s.fn, t.fn);
    SubsetSize(s.fetch, t.fetch);
    SubsetSize(s.star, t.star);
    SubsetSize(s.wrap, t.wrap);
  }

  /** Sets reached from the seeds that a whole pass leaves alone are the least closed ones. */
  lemma SettledIsLeast(s: Sets, file: File)
    requires Seeds(file).Within(s)
    requires forall t: Sets :: Closed(t, file) ==> s.Within(t)
    requires Learn(s, file.bindings) == s
    ensures IsLeastClosed(s, file)
  {
    SettledPassAdmitsAll(s, file.bindings);
  }

  /**
    The result does not depend on the order of the bindings or of the imports,
    nor on how often one is repeated: equal sets of them give equal results.
   */
  lemma OrderIndependence(f: File, g: File, s: Sets, t: Sets)
    requires forall b :: b in f.bindings <==> b in g.bindings
    requires forall d :: d in f.imports <==> d in g.imports
    requires IsLeastClosed(s, f) && IsLeastClosed(t, g)
    ensures s == t
  {
    SeedsAsUnion(f.imports);
    SeedsAsUnion(g.imports);
    assert Closed(s, g);
    assert Closed(t, f);
  }

  /** What the imports contribute, without an order. */
  lemma {:induction false} SeedsAsUnion(imports: seq<ImportDecl>)
    ensures
      var s := SeedFrom(Sets({}, {}, {"require"}, {}, {}), imports);
      && s.fn == {} && s.wrap == {} && s.fetch == {"require"}
      && (forall x :: x in s.ns <==>
        exists d :: d in imports && d.NamedImport? && d.specifier == BUN_TEST && d.imported == "mock" && d.local == x)
      && (forall x :: x in s.star <==>
        exists d :: d in imports && !d.NamedImport? && d.specifier == BUN_TEST && d.local == x)
  {
    if imports != [] {
      var front, last := imports[..|imports| - 1], imports[|imports| - 1];
      SeedsAsUnion(front);
      assert imports == front + [last];
    }
  }
}
