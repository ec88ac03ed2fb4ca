/**
  The check as it runs: five sets and a list of records updated in place. Every
  method is proved against the functions of AliasAnalysis and AliasSoundness.
 */
module AliasAnalyser {
  import opened Wrappers
  import opened A = AliasAnalysis
  import opened S = AliasSoundness

  /** The learn pass and its fixed-point loop, over sets updated in place. */
  class Analyser {
    var ns: set<string>
    var fn: set<string>
    var fetch: set<string>
    var star: set<string>
    var wrap: set<string>
    var shadowed: set<string>
    var calls: seq<Record>

    function View(): Sets
      reads this
    {
      Sets(ns, fn, fetch, star, wrap)
    }

    constructor (imports: seq<ImportDecl>)
      ensures View() == SeedFrom(Sets({}, {}, {"require"}, {}, {}), imports) && shadowed == {} && calls == []
    {
      ns, fn, fetch, star, wrap, shadowed, calls := {}, {}, {"require"}, {}, {}, {}, [];
      new;
      for i := 0 to |imports|
        invariant View() == SeedFrom(Sets({}, {}, {"require"}, {}, {}), imports[..i]) && shadowed == {} && calls == []
      {
        assert imports[..i + 1][..i] == imports[..i];
        var d := imports[i];
        if d.specifier == BUN_TEST {
          match d
          case NamedImport(_, imported, local) =>
            if imported == "mock" { ns := ns + {local}; }
          case StarImport(_, local) => star := star + {local};
          case ImportEquals(_, local) => star := star + {local};
        }
      }
      assert imports[..|imports|] == imports;
    }

    method BindModuleFrom(elems: seq<Element>)
      modifies `fn
      ensures View() == A.BindModuleFrom(old(View()), elems)
    {
      for i := 0 to |elems|
        invariant View() == A.BindModuleFrom(old(View()), elems[..i])
      {
        assert elems[..i + 1][..i] == elems[..i];
        if elems[i].key == Some("module") && elems[i].target.Name? {
          fn := fn + {elems[i].target.name};
        }
      }
      assert elems[..|elems|] == elems;
    }

    method BindName(x: string, init: Expr)
      modifies `ns, `fn, `fetch, `star, `wrap
      ensures View() == A.Bind(old(View()), Binding(Name(x), init, true))
    {
      if init.Object? {
        for i := 0 to |init.props|
          invariant View() == BindProps(old(View()), x, init.props[..i])
        {
          assert init.props[..i + 1][..i] == init.props[..i];
          if init.props[i].key == Some("mock") && IsNamespace(init.props[i].value, View()) {
            wrap := wrap + {x};
          }
        }
        assert init.props[..|init.props|] == init.props;
      }
      if IsFetcher(init, View()) { fetch := fetch + {x}; }
      if IsBunTest(init, View()) { star := star + {x}; }
      if IsNamespace(init, View()) { ns := ns + {x}; }
      if IsModuleFn(init, View()) { fn := fn + {x}; }
    }

    method BindPattern(elems: seq<Element>, init: Expr)
      modifies `ns, `fn, `fetch, `star, `wrap
      ensures View() == BindElements(old(View()), init, elems)
    {
      for i := 0 to |elems|
        invariant View() == BindElements(old(View()), init, elems[..i])
      {
        assert elems[..i + 1][..i] == elems[..i];
        var el := elems[i];
        if el.key == Some("mock") && HoldsMock(init, View()) {
          match el.target
          case Name(x) => ns := ns + {x};
          case Pattern(sub) => BindModuleFrom(sub);
          case Literal(_) =>
        } else if el.key == Some("module") && IsNamespace(init, View()) {
          if el.target.Name? { fn := fn + {el.target.name}; }
        }
      }
      assert elems[..|elems|] == elems;
    }

    /** The names a declaration takes, unless it is an alias of what is known at its turn. */
    method RecordShadow(b: Binding)
      modifies `shadowed
      ensures shadowed == old(shadowed) + ShadowedBy(b, View())
    {
      if b.declares && !IsAlias(b.init, View()) {
        shadowed := shadowed + BoundNames(b.target);
      }
    }

    method Learn(file: File)
      modifies `ns, `fn, `fetch, `star, `wrap, `shadowed
      ensures View() == A.Learn(old(View()), file.bindings)
      ensures shadowed == old(shadowed) + file.declared + Shadows(old(View()), file.bindings)
    {
      shadowed := shadowed + file.declared;
      ghost var known := shadowed;
      var bindings := file.bindings;
      for i := 0 to |bindings|
        invariant View() == A.Learn(old(View()), bindings[..i])
        invariant shadowed == known + Shadows(old(View()), bindings[..i])
      {
        assert bindings[..i + 1][..i] == bindings[..i];
        RecordShadow(bindings[i]);
        match bindings[i].target
        case Name(x) => BindName(x, bindings[i].init);
        case Pattern(elems) => BindPattern(elems, bindings[i].init);
        case Literal(_) =>
      }
      assert bindings[..|bindings|] == bindings;
    }

    /**
      Passes until one learns nothing, at most `MAX_PASSES` of them. Not settling
      is an error; it needs a file of more than 12 names.
     */
    method Settle(file: File) returns (settled: bool, passes: nat)
      requires View() == Seeds(file) && shadowed == {}
      modifies `ns, `fn, `fetch, `star, `wrap, `shadowed
      ensures settled ==> IsLeastClosed(View(), file)
      ensures shadowed == Silent(file)
      ensures passes <= 5 * |Names(file)|
      ensures !settled ==> passes == 64 && 5 * |Names(file)| > 64
      ensures 1 <= passes <= 64
    {
      settled, passes := false, 0;
      FullIsClosed(file);
      SeedsWithin(Sets({}, {}, {"require"}, {}, {}), file.imports, Names(file));
      WithinSize(Sets({}, {}, {"require"}, {}, {}), View());
      while passes < MAX_PASSES && !settled
        invariant passes <= MAX_PASSES && (passes == 0 ==> !settled)
        invariant Seeds(file).Within(View())
        invariant if passes == 0 then View() == Seeds(file) && shadowed == {}
                  else A.Learn(Seeds(file), file.bindings).Within(View()) && shadowed == Silent(file)
        invariant forall t: Sets :: Closed(t, file) ==> View().Within(t)
        invariant View().Size() >= if settled then passes else passes + 1
        invariant settled ==> A.Learn(View(), file.bindings) == View()
        decreases MAX_PASSES - passes, !settled
      {
        ghost var before := View();
        var sizeBefore := View().Size();
        if passes > 0 {
          ShadowsShrink(Seeds(file), file.bindings, before);
        }
        Learn(file);
        LearnBetween(before, file.bindings, before);
        forall t: Sets | Closed(t, file)
          ensures View().Within(t)
        {
          LearnBetween(before, file.bindings, t);
        }
        WithinSize(before, View());
        settled := View().Size() == sizeBefore;
        passes := passes + 1;
      }
      WithinSize(View(), Full(Names(file)));
      if settled {
        SettledIsLeast(View(), file);
      }
    }

    /** Records the calls of one tree, outermost first. */
    method Visit(e: Expr, ghost s: Sets)
      requires s == View()
      modifies `calls
      ensures calls == old(calls) + CallsIn(e, s)
      decreases e, 1
    {
      ghost var before := calls;
      RecordOwn(e, s);
      VisitChildren(e, s);
      assert calls == before + (OwnRecord(e, s) + CallsInChildren(e, Arity(e), s));
    }

    method RecordOwn(e: Expr, ghost s: Sets)
      requires s == View()
      modifies `calls
      ensures calls == old(calls) + OwnRecord(e, s)
    {
      if e.Call? {
        var via := CalleeVia(e.callee, View());
        if via.Some? {
          var literal := StaticSpecifier(e.args);
          var unresolvable := via.value.IndirectInvoke? || via.value.ComputedProperty?;
          calls := calls + [CallRecord(e, literal, unresolvable || literal.None?, via.value)];
        }
      }
    }

    method VisitChildren(e: Expr, ghost s: Sets)
      requires s == View()
      modifies `calls
      ensures calls == old(calls) + CallsInChildren(e, Arity(e), s)
      decreases e, 0
    {
      ghost var before := calls;
      var i := 0;
      while i < Arity(e)
        invariant i <= Arity(e)
        invariant calls == before + CallsInChildren(e, i, s)
      {
        Visit(Child(e, i), s);
        assert calls == before + (CallsInChildren(e, i, s) + CallsIn(Child(e, i), s));
        i := i + 1;
      }
    }

    /** Records the reads of `mock.module` that nothing accounts for. */
    method FindEscapes(e: Expr, accounted: bool, ghost s: Sets)
      requires s == View()
      modifies `calls
      ensures calls == old(calls) + EscapesIn(e, s, shadowed, accounted)
      decreases e, 1
    {
      ghost var before := calls;
      var own: seq<Record> := if IsModuleRead(e, View(), shadowed) && !accounted then [EscapeRecord(e)] else [];
      calls := calls + own;
      FindChildEscapes(e, s);
      assert calls == before + (own + EscapesInChildren(e, Arity(e), s, shadowed));
    }

    method FindChildEscapes(e: Expr, ghost s: Sets)
      requires s == View()
      modifies `calls
      ensures calls == old(calls) + EscapesInChildren(e, Arity(e), s, shadowed)
      decreases e, 0
    {
      ghost var before := calls;
      var i := 0;
      while i < Arity(e)
        invariant i <= Arity(e)
        invariant calls == before + EscapesInChildren(e, i, s, shadowed)
      {
        FindEscapes(Child(e, i), e.Call? && i == 0, s);
        assert calls == before + (EscapesInChildren(e, i, s, shadowed)
          + EscapesIn(Child(e, i), s, shadowed, e.Call? && i == 0));
        i := i + 1;
      }
    }

    method VisitAll(file: File, ghost s: Sets)
      requires s == View()
      modifies `calls
      ensures calls == old(calls) + CallReport(file, |Roots(file)|, s)
    {
      ghost var before := calls;
      var i := 0;
      while i < |Roots(file)|
        invariant i <= |Roots(file)|
        invariant calls == before + CallReport(file, i, s)
      {
        Visit(Roots(file)[i], s);
        assert calls == before + (CallReport(file, i, s) + CallsIn(Roots(file)[i], s));
        i := i + 1;
      }
    }

    method FindAllEscapes(file: File, ghost s: Sets)
      requires s == View()
      modifies `calls
      ensures calls == old(calls) + EscapeReport(file, |Roots(file)|, s, shadowed)
    {
      ghost var before := calls;
      var i := 0;
      while i < |Roots(file)|
        invariant i <= |Roots(file)|
        invariant calls == before + EscapeReport(file, i, s, shadowed)
      {
        FindEscapes(Roots(file)[i], Accounted(file, i, View()), s);
        assert calls == before + (EscapeReport(file, i, s, shadowed)
          + EscapesIn(Roots(file)[i], s, shadowed, Accounted(file, i, s)));
        i := i + 1;
      }
    }

    /** The whole check of one file: the report, or the error for not settling. */
    method Check(file: File) returns (settled: bool)
      requires View() == Seeds(file) && shadowed == {} && calls == []
      modifies this
      ensures !settled ==> 5 * |Names(file)| > 64
      ensures settled ==> IsLeastClosed(View(), file) && calls == Report(file, View(), Silent(file))
    {
      var passes;
      settled, passes := Settle(file);
      if settled {
        ghost var s := View();
        VisitAll(file, s);
        FindAllEscapes(file, s);
        assert [] + CallReport(file, |Roots(file)|, s) == CallReport(file, |Roots(file)|, s);
      }
    }
  }
}
