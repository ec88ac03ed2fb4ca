/**
  What the alias analysis is for: in every run of a file, a call of `mock.module`
  is made at a site the check has recorded, and a file with an empty report never
  makes one. Runs execute the bindings in any order and any number of times.
 */
module AliasSoundness {
  import opened Wrappers
  import opened AliasAnalysis

  // ------------------------------------------------------------- the report

  datatype Via = AliasCall(name: string) | IndirectInvoke | ModuleProperty | ComputedProperty

  /** A recorded call: its expression, the specifier when readable, how it was spelled. */
  datatype Record = CallRecord(site: Expr, target: Option<string>, dynamic: bool, via: Via)
                  | EscapeRecord(read: Expr)

  function CalleeVia(callee: Expr, s: Sets): Option<Via> {
    if callee.Id? && callee.name in s.fn then Some(AliasCall(callee.name))
    else if IsIndirectInvoke(callee, s) then Some(IndirectInvoke)
    else if callee.Member? && IsNamespace(callee.owner, s) then
      match callee.prop
      case Named(p) => if p == "module" then Some(ModuleProperty) else None
      case Computed => Some(ComputedProperty)
    else None
  }

  predicate IsIndirectInvoke(callee: Expr, s: Sets) {
    callee.Member? && callee.prop.Named? && callee.prop.text in {"call", "apply", "bind"} && IsModuleFn(callee.owner, s)
  }

  function StaticSpecifier(args: seq<Expr>): Option<string> {
    if |args| > 0 && args[0].Str? then Some(args[0].text) else None
  }

  function OwnRecord(e: Expr, s: Sets): seq<Record> {
    if e.Call? then
      match CalleeVia(e.callee, s)
      case Some(via) =>
        var literal := StaticSpecifier(e.args);
        [CallRecord(e, literal, via.IndirectInvoke? || via.ComputedProperty? || literal.None?, via)]
      case None => []
    else []
  }

  function Arity(e: Expr): nat {
    match e
    case Member(_, _) => 1
    case Call(_, args) => |args| + 1
    case Import(args) => |args|
    case Await(_) => 1
    case Object(props) => |props|
    case _ => 0
  }

  /** The subexpressions of a node, in source order. */
  function Child(e: Expr, i: nat): (c: Expr)
    requires i < Arity(e)
    ensures c < e
  {
    match e
    case Member(o, _) => o
    case Call(c, args) => if i == 0 then c else args[i - 1]
    case Import(args) => args[i]
    case Await(a) => a
    case Object(props) => props[i].value
  }

  /** The records of one expression tree, outermost call first. */
  function CallsIn(e: Expr, s: Sets): seq<Record>
    decreases e, 1, 0
  {
    OwnRecord(e, s) + CallsInChildren(e, Arity(e), s)
  }

  function CallsInChildren(e: Expr, n: nat, s: Sets): seq<Record>
    requires n <= Arity(e)
    decreases e, 0, n
  {
    if n == 0 then [] else
    CallsInChildren(e, n - 1, s) + CallsIn(Child(e, n - 1), s)
  }

  /**
    A read of `mock.module`, or of a name known to hold it, as a value. Reads of the
    `silent` names, which are declared as something else too, are passed over.
   */
  predicate IsModuleRead(e: Expr, s: Sets, silent: set<string>) {
    match e
    case Id(x) => x in s.fn && x !in silent
    case Member(o, Named(p)) => p == "module" && IsNamespace(o, s) && !IsSilent(o, silent)
    case Member(o, Computed) => IsNamespace(o, s) && !IsSilent(o, silent)
    case _ => false
  }

  predicate IsSilent(owner: Expr, silent: set<string>) {
    owner.Id? && owner.name in silent
  }

  /** A read that only the silence keeps out of the report. */
  predicate Silenced(read: Expr, silent: set<string>) {
    match read
    case Id(x) => x in silent
    case Member(o, _) => IsSilent(o, silent)
    case _ => false
  }

  /** `accounted`: the read is a callee, or is bound to a name the analysis learned. */
  function EscapesIn(e: Expr, s: Sets, silent: set<string>, accounted: bool): seq<Record>
    decreases e, 1, 0
  {
    (if IsModuleRead(e, s, silent) && !accounted then [EscapeRecord(e)] else [])
      + EscapesInChildren(e, Arity(e), s, silent)
  }

  function EscapesInChildren(e: Expr, n: nat, s: Sets, silent: set<string>): seq<Record>
    requires n <= Arity(e)
    decreases e, 0, n
  {
    if n == 0 then [] else
    EscapesInChildren(e, n - 1, s, silent) + EscapesIn(Child(e, n - 1), s, silent, e.Call? && n == 1)
  }

  /** A value bound to a name the learn pass resolved. */
  predicate LearnedBinding(b: Binding, s: Sets) {
    b.target.Name? && b.target.name in s.fn
  }

  /** The trees of a file: what each binding assigns, then the other expressions. */
  function Roots(file: File): seq<Expr> {
    seq(|file.bindings|, i requires 0 <= i < |file.bindings| => file.bindings[i].init) + file.exprs
  }

  predicate Accounted(file: File, i: nat, s: Sets) {
    i < |file.bindings| && LearnedBinding(file.bindings[i], s)
  }

  function CallReport(file: File, n: nat, s: Sets): seq<Record>
    requires n <= |Roots(file)|
  {
    if n == 0 then [] else CallReport(file, n - 1, s) + CallsIn(Roots(file)[n - 1], s)
  }

  function EscapeReport(file: File, n: nat, s: Sets, silent: set<string>): seq<Record>
    requires n <= |Roots(file)|
  {
    if n == 0 then [] else
    EscapeReport(file, n - 1, s, silent) + EscapesIn(Roots(file)[n - 1], s, silent, Accounted(file, n - 1, s))
  }

  /** Every call first, then every escaped reference. */
  function Report(file: File, s: Sets, silent: set<string>): seq<Record> {
    CallReport(file, |Roots(file)|, s) + Escapes(file, s, silent)
  }

  function Escapes(file: File, s: Sets, silent: set<string>): seq<Record> {
    EscapeReport(file, |Roots(file)|, s, silent)
  }

  /** A silent name that is read as the function is only called or bound to a learned name. */
  ghost predicate NoSilencedEscape(file: File, s: Sets, silent: set<string>) {
    forall r :: r in Escapes(file, s, {}) && r.EscapeRecord? ==> !Silenced(r.read, silent)
  }

  // ---------------------------------------------------------- the semantics

  /** Run-time values; every value the analysis does not follow is `Other`. */
  datatype Value =
    | Mock | ModuleFn | BunTest | Fetcher
    | Text(text: string)
    | Rec(fields: map<string, Value>)
    | Other

  type Env = map<string, Value>

  function Get(v: Value, k: string): Value {
    match v
    case Mock => if k == "module" then ModuleFn else Other
    case BunTest => if k == "mock" then Mock else Other
    case Rec(fields) => if k in fields then fields[k] else Other
    case _ => Other
  }

  /** The names of a program, and the values that flow where no name can be followed. */
  datatype World = World(env: Env, store: seq<Value>)

  /** What a run leaves open: computed property names, and which stored value turns up. */
  datatype Choice = Choice(key: Expr -> string, pick: Expr -> nat)

  /** A stored value: what a function returned, what a property or an element was given. */
  function Stored(e: Expr, w: World, ch: Choice): Value {
    if ch.pick(e) < |w.store| then w.store[ch.pick(e)] else Other
  }

  function Eval(e: Expr, w: World, ch: Choice): Value
    decreases e, 1, 0
  {
    match e
    case Id(x) => if x in w.env then w.env[x] else Other
    case Str(t) => Text(t)
    case Member(o, p) =>
      if ch.pick(e) < |w.store| then Stored(e, w, ch)
      else Get(Eval(o, w, ch), if p.Named? then p.text else ch.key(e))
    case Call(c, args) =>
      if Eval(c, w, ch) == Fetcher && |args| > 0 && Eval(args[0], w, ch) == Text(BUN_TEST) then BunTest
      else Stored(e, w, ch)
    case Import(args) =>
      if |args| > 0 && Eval(args[0], w, ch) == Text(BUN_TEST) then BunTest else Other
    case Await(a) => Eval(a, w, ch)
    case Object(props) => Rec(EvalProps(e, |props|, w, ch))
    case Opaque => Stored(e, w, ch)
  }

  function EvalProps(e: Expr, n: nat, w: World, ch: Choice): map<string, Value>
    requires e.Object? && n <= |e.props|
    decreases e, 0, n
  {
    if n == 0 then map[] else
    var p := e.props[n - 1];
    assert Child(e, n - 1) == p.value;
    EvalProps(e, n - 1, w, ch)[PropKey(p, ch.key) := Eval(p.value, w, ch)]
  }

  function PropKey(p: Property, key: Expr -> string): string {
    match p.key
    case Some(k) => k
    case None => key(p.value)
  }

  /** `key` also chooses the computed names of a pattern. */
  function Assign(t: Target, v: Value, env: Env, key: Expr -> string): Env
    decreases t, 1, 0
  {
    match t
    case Name(x) => env[x := v]
    case Pattern(elems) => AssignElems(t, elems, |elems|, v, env, key)
    case Literal(elems) => AssignElems(t, elems, |elems|, v, env, key)
  }

  function AssignElems(t: Target, elems: seq<Element>, n: nat, v: Value, env: Env, key: Expr -> string): Env
    requires !t.Name? && elems == t.elems && n <= |elems|
    decreases t, 0, n
  {
    if n == 0 then env else
    var el := elems[n - 1];
    Assign(el.target, Get(v, ElementKey(el, key)), AssignElems(t, elems, n - 1, v, env, key), key)
  }

  function ElementKey(el: Element, key: Expr -> string): string {
    match el.key
    case Some(k) => k
    case None => key(Opaque)
  }

  function ImportValue(d: ImportDecl): Value {
    if d.specifier != BUN_TEST then Other
    else if !d.NamedImport? then BunTest
    else if d.imported == "mock" then Mock
    else Other
  }

  function StartFrom(imports: seq<ImportDecl>): Env {
    if imports == [] then map["require" := Fetcher]
    else StartFrom(imports[..|imports| - 1])[imports[|imports| - 1].local := ImportValue(imports[|imports| - 1])]
  }

  /** `sub` is `e` or occurs in it. */
  predicate Occurs(sub: Expr, e: Expr) {
    sub == e || exists i :: 0 <= i < Arity(e) && Occurs(sub, Child(e, i))
  }

  predicate OccursInFile(sub: Expr, file: File) {
    exists i :: 0 <= i < |Roots(file)| && Occurs(sub, Roots(file)[i])
  }

  /** An expression whose value can go anywhere: an argument, or one outside the bindings. */
  ghost predicate Loose(e: Expr, file: File) {
    e in file.exprs || exists call :: IsArgument(e, call) && OccursInFile(call, file)
  }

  predicate IsArgument(e: Expr, call: Expr) {
    call.Call? && e in call.args
  }

  /** A binding is executed, a loose value is stored, or a stored value gets a name, as a parameter does. */
  ghost predicate Step(file: File, w: World, w': World) {
    || (exists b, ch: Choice :: b in file.bindings && w' == Executed(b, w, ch))
    || (exists e, ch: Choice :: Loose(e, file) && w' == Kept(e, w, ch))
    || (exists x, i: nat :: i < |w.store| && w' == Passed(x, i, w))
  }

  function Executed(b: Binding, w: World, ch: Choice): World {
    w.(env := Assign(b.target, Eval(b.init, w, ch), w.env, ch.key))
  }

  function Kept(e: Expr, w: World, ch: Choice): World {
    w.(store := w.store + [Eval(e, w, ch)])
  }

  function Passed(x: string, i: nat, w: World): World
    requires i < |w.store|
  {
    w.(env := w.env[x := w.store[i]])
  }

  /** Any number of steps in any order, from the imports on. */
  ghost predicate IsRun(file: File, run: seq<World>) {
    && |run| > 0 && run[0] == World(StartFrom(file.imports), [])
    && forall i :: 0 <= i < |run| - 1 ==> Step(file, run[i], run[i + 1])
  }

  // ----------------------------------------------------------- the fragment

  /** The namespace, the module object, the fetcher or a wrapper, by the analysis. */
  predicate Followed(e: Expr, s: Sets) {
    IsNamespace(e, s) || IsBunTest(e, s) || IsFetcher(e, s) || IsWrapper(e, s)
  }

  /**
    The flows the analysis follows, for everything but `mock.module` itself: no
    computed read of a followed value, a literal specifier at each fetch, `await`
    of a fetch only, and no followed value as an argument or inside a literal.
   */
  predicate Plain(e: Expr, s: Sets) {
    && (forall i :: 0 <= i < Arity(e) ==> Plain(Child(e, i), s))
    && PlainHere(e, s)
  }

  predicate PlainHere(e: Expr, s: Sets) {
    match e
    case Member(o, Computed) => !IsBunTest(o, s) && !IsWrapper(o, s)
    case Call(c, args) =>
      && (IsFetcher(c, s) && |args| > 0 ==> args[0].Str?)
      && (forall i :: 0 <= i < |args| ==> !Followed(args[i], s))
    case Import(args) => |args| > 0 ==> args[0].Str?
    case Await(a) => a.Call? || a.Import? || !Followed(a, s)
    case Object(props) => forall i :: 0 <= i < |props| ==> !Followed(props[i].value, s)
    case _ => true
  }

  /** `{ mock: <the namespace> }` and otherwise nothing followed. */
  predicate OneLevelLiteral(props: seq<Property>, s: Sets) {
    forall i :: 0 <= i < |props| ==>
      && Plain(props[i].value, s)
      && !IsBunTest(props[i].value, s) && !IsFetcher(props[i].value, s) && !IsWrapper(props[i].value, s)
      && (IsNamespace(props[i].value, s) ==> props[i].key == Some("mock"))
  }

  predicate ReadableKeys(elems: seq<Element>) {
    forall i :: 0 <= i < |elems| ==>
      && elems[i].key.Some?
      && !elems[i].target.Literal?
      && (elems[i].target.Pattern? ==> forall j :: 0 <= j < |elems[i].target.elems| ==>
            elems[i].target.elems[j].key.Some? && !elems[i].target.elems[j].target.Literal?)
  }

  predicate PlainBinding(b: Binding, s: Sets) {
    match b.target
    case Name(_) =>
      if b.init.Object? then OneLevelLiteral(b.init.props, s)
      else Plain(b.init, s) && !IsWrapper(b.init, s)
    case Pattern(elems) => Plain(b.init, s) && (Followed(b.init, s) ==> ReadableKeys(elems))
    case Literal(_) => Plain(b.init, s) && !Followed(b.init, s)
  }

  predicate PlainFile(file: File, s: Sets) {
    && (forall b :: b in file.bindings ==> PlainBinding(b, s))
    && (forall e :: e in file.exprs ==> Plain(e, s) && !Followed(e, s))
  }

  // ------------------------------------------------- what names may hold

  /** Nothing from which the namespace can be reached. */
  predicate NsFree(v: Value) {
    match v
    case Rec(fields) => forall k :: k in fields ==> NsFree(fields[k])
    case _ => !v.Mock? && !v.BunTest? && !v.Fetcher?
  }

  /** No record inside holds `mock.module`. */
  predicate ModFree(v: Value) {
    match v
    case Rec(fields) => forall k :: k in fields ==> ModFree(fields[k])
    case _ => !v.ModuleFn?
  }

  predicate Wrapped(v: Value) {
    v.Rec? && forall k :: k in v.fields ==> NsFree(v.fields[k]) || (k == "mock" && v.fields[k] == Mock)
  }

  /** The expression is in the set that matches the value it has. */
  predicate ExplainedNs(v: Value, e: Expr, s: Sets) {
    && (v.Mock? ==> IsNamespace(e, s))
    && (v.BunTest? ==> IsBunTest(e, s))
    && (v.Fetcher? ==> IsFetcher(e, s))
    && (v.Rec? ==> NsFree(v) || (IsWrapper(e, s) && Wrapped(v)))
  }

  predicate CoversNs(env: Env, s: Sets) {
    forall x :: x in env ==> ExplainedNs(env[x], Id(x), s)
  }

  predicate CoversFn(env: Env, s: Sets) {
    forall x :: x in env ==> (env[x].ModuleFn? ==> x in s.fn) && (env[x].Rec? ==> ModFree(env[x]))
  }

  /** Each name is in the set of whatever it holds. */
  predicate Covers(env: Env, s: Sets) {
    CoversNs(env, s) && CoversFn(env, s)
  }

  /** Nothing that is followed is in the store. */
  predicate StoreFree(w: World) {
    forall v :: v in w.store ==> NsFree(v) && ModFree(v)
  }

  predicate Covered(w: World, s: Sets) {
    Covers(w.env, s) && StoreFree(w)
  }

  lemma GetFree(v: Value, k: string)
    ensures NsFree(v) ==> NsFree(Get(v, k))
    ensures Wrapped(v) ==> NsFree(Get(v, k)) || (k == "mock" && Get(v, k) == Mock)
    ensures ModFree(v) && !v.Mock? ==> ModFree(Get(v, k))
  {
  }

  // -------------------------------------------------- expressions are sound

  lemma StoredFree(e: Expr, w: World, ch: Choice)
    requires StoreFree(w)
    ensures NsFree(Stored(e, w, ch)) && ModFree(Stored(e, w, ch))
  {
    if ch.pick(e) < |w.store| {
      assert w.store[ch.pick(e)] in w.store;
    }
  }

  lemma {:induction false} EvalNs(e: Expr, w: World, ch: Choice, s: Sets)
    requires Plain(e, s) && CoversNs(w.env, s) && StoreFree(w)
    ensures ExplainedNs(Eval(e, w, ch), e, s)
    decreases e, 1, 0
  {
    StoredFree(e, w, ch);
    match e
    case Member(o, p) =>
      assert Child(e, 0) == o;
      EvalNs(o, w, ch, s);
      GetFree(Eval(o, w, ch), if p.Named? then p.text else ch.key(e));
    case Call(c, args) =>
      assert Child(e, 0) == c;
      EvalNs(c, w, ch, s);
      if Eval(e, w, ch) == BunTest {
        assert IsFetcher(c, s) && args[0].Str?;
        assert Eval(args[0], w, ch) == Text(args[0].text);
      }
    case Import(args) =>
      if Eval(e, w, ch) == BunTest {
        assert Eval(args[0], w, ch) == Text(args[0].text);
      }
    case Await(a) =>
      assert Child(e, 0) == a;
      EvalNs(a, w, ch, s);
    case Object(props) =>
      EvalPropsNs(e, |props|, w, ch, s);
    case _ =>
  }

  lemma {:induction false} EvalPropsNs(e: Expr, n: nat, w: World, ch: Choice, s: Sets)
    requires e.Object? && n <= |e.props| && CoversNs(w.env, s) && StoreFree(w)
    requires forall i :: 0 <= i < Arity(e) ==> Plain(Child(e, i), s)
    requires forall i :: 0 <= i < |e.props| ==> !Followed(e.props[i].value, s)
    ensures NsFree(Rec(EvalProps(e, n, w, ch)))
    decreases e, 0, n
  {
    if n > 0 {
      EvalPropsNs(e, n - 1, w, ch, s);
      assert Child(e, n - 1) == e.props[n - 1].value;
      EvalNs(e.props[n - 1].value, w, ch, s);
    }
  }

  lemma {:induction false} ChildEscapes(e: Expr, n: nat, i: nat, s: Sets)
    requires i < n <= Arity(e)
    requires EscapesInChildren(e, n, s, {}) == []
    ensures EscapesIn(Child(e, i), s, {}, e.Call? && i == 0) == []
  {
    if i < n - 1 {
      ChildEscapes(e, n - 1, i, s);
    }
  }

  /** With no escape reported, `mock.module` is only ever a callee or a learned binding. */
  lemma {:induction false} EvalFn(e: Expr, w: World, ch: Choice, s: Sets, accounted: bool)
    requires Plain(e, s) && Covered(w, s)
    requires EscapesIn(e, s, {}, accounted) == []
    ensures Eval(e, w, ch).ModuleFn? ==> accounted && IsModuleRead(e, s, {})
    ensures Eval(e, w, ch).Rec? ==> ModFree(Eval(e, w, ch))
    decreases e, 1, 0
  {
    StoredFree(e, w, ch);
    match e
    case Member(o, p) =>
      assert Child(e, 0) == o;
      ChildEscapes(e, 1, 0, s);
      EvalFn(o, w, ch, s, false);
      EvalNs(o, w, ch, s);
      GetFree(Eval(o, w, ch), if p.Named? then p.text else ch.key(e));
    case Call(c, args) =>
    case Import(args) =>
    case Await(a) =>
      assert Child(e, 0) == a;
      ChildEscapes(e, 1, 0, s);
      EvalFn(a, w, ch, s, false);
    case Object(props) =>
      EvalPropsFn(e, |props|, w, ch, s);
    case _ =>
  }

  lemma {:induction false} EvalPropsFn(e: Expr, n: nat, w: World, ch: Choice, s: Sets)
    requires e.Object? && n <= |e.props| && Covered(w, s)
    requires forall i :: 0 <= i < Arity(e) ==> Plain(Child(e, i), s)
    requires EscapesInChildren(e, |e.props|, s, {}) == []
    ensures ModFree(Rec(EvalProps(e, n, w, ch)))
    decreases e, 0, n
  {
    if n > 0 {
      EvalPropsFn(e, n - 1, w, ch, s);
      PropOf(e, n - 1, s);
      EvalFn(e.props[n - 1].value, w, ch, s, false);
      PutFree(EvalProps(e, n - 1, w, ch), PropKey(e.props[n - 1], ch.key), Eval(e.props[n - 1].value, w, ch));
    }
  }

  /** What holds of an object literal's parts holds of its property values. */
  lemma PropOf(e: Expr, i: nat, s: Sets)
    requires e.Object? && i < |e.props|
    requires Plain(Child(e, i), s) && EscapesInChildren(e, |e.props|, s, {}) == []
    ensures Plain(e.props[i].value, s) && EscapesIn(e.props[i].value, s, {}, false) == []
    ensures e.props[i].value < e
  {
    ChildEscapes(e, |e.props|, i, s);
  }

  lemma PutFree(fields: map<string, Value>, k: string, v: Value)
    requires ModFree(Rec(fields)) && ModFree(v)
    ensures ModFree(Rec(fields[k := v]))
  {
  }

  /** The wrapper literal: only its `mock` field can hold the namespace. */
  lemma {:induction false} EvalWrapper(x: string, e: Expr, n: nat, w: World, ch: Choice, s: Sets)
    requires e.Object? && n <= |e.props| && CoversNs(w.env, s) && StoreFree(w)
    requires OneLevelLiteral(e.props, s)
    requires forall i :: 0 <= i < |e.props| ==> AdmitsProp(s, x, e.props[i])
    ensures
      var v := Rec(EvalProps(e, n, w, ch));
      Wrapped(v) && (x in s.wrap || NsFree(v))
  {
    if n > 0 {
      EvalWrapper(x, e, n - 1, w, ch, s);
      var p := e.props[n - 1];
      EvalNs(p.value, w, ch, s);
      var v := Eval(p.value, w, ch);
      if v.Mock? {
        assert x in s.wrap && PropKey(p, ch.key) == "mock";
      } else {
        assert NsFree(v);
      }
    }
  }

  // -------------------------------------------------- assignments are sound

  /** A value with nothing to follow can be taken apart by any target. */
  lemma {:induction false} AssignQuiet(t: Target, v: Value, env: Env, key: Expr -> string, s: Sets)
    requires NsFree(v) && ModFree(v) && Covers(env, s)
    ensures Covers(Assign(t, v, env, key), s)
    decreases t, 1, 0
  {
    if !t.Name? {
      AssignElemsQuiet(t, |t.elems|, v, env, key, s);
    }
  }

  lemma {:induction false} AssignElemsQuiet(t: Target, n: nat, v: Value, env: Env, key: Expr -> string, s: Sets)
    requires !t.Name? && n <= |t.elems| && Covers(env, s)
    requires (NsFree(v) && ModFree(v)) || v.ModuleFn?
    ensures Covers(AssignElems(t, t.elems, n, v, env, key), s)
    decreases t, 0, n
  {
    if n > 0 {
      AssignElemsQuiet(t, n - 1, v, env, key, s);
      var el := t.elems[n - 1];
      AssignQuiet(el.target, Get(v, ElementKey(el, key)), AssignElems(t, t.elems, n - 1, v, env, key), key, s);
    }
  }

  /** Destructuring the namespace: every `module` name is known to the analysis. */
  lemma {:induction false} AssignFromMock(t: Target, n: nat, env: Env, key: Expr -> string, s: Sets)
    requires t.Pattern? && n <= |t.elems| && Covers(env, s)
    requires forall i :: 0 <= i < |t.elems| ==> t.elems[i].key.Some? && AdmitsModuleElement(s, t.elems[i])
    ensures Covers(AssignElems(t, t.elems, n, Mock, env, key), s)
  {
    if n > 0 {
      AssignFromMock(t, n - 1, env, key, s);
      var el := t.elems[n - 1];
      var env1 := AssignElems(t, t.elems, n - 1, Mock, env, key);
      if el.key == Some("module") {
        if !el.target.Name? {
          AssignElemsQuiet(el.target, |el.target.elems|, ModuleFn, env1, key, s);
        }
      } else {
        AssignQuiet(el.target, Other, env1, key, s);
      }
    }
  }

  lemma {:induction false} AssignPattern(t: Target, n: nat, init: Expr, v: Value, env: Env, key: Expr -> string,
      s: Sets)
    requires t.Pattern? && n <= |t.elems| && Covers(env, s)
    requires ExplainedNs(v, init, s) && !v.ModuleFn? && (v.Rec? ==> ModFree(v))
    requires ReadableKeys(t.elems)
    requires forall i :: 0 <= i < |t.elems| ==> AdmitsElement(s, init, t.elems[i])
    ensures Covers(AssignElems(t, t.elems, n, v, env, key), s)
  {
    if n > 0 {
      AssignPattern(t, n - 1, init, v, env, key, s);
      var el := t.elems[n - 1];
      var env1 := AssignElems(t, t.elems, n - 1, v, env, key);
      var w := Get(v, ElementKey(el, key));
      GetFree(v, ElementKey(el, key));
      if w.Mock? {
        assert el.key == Some("mock") && HoldsMock(init, s);
        if el.target.Pattern? {
          AssignFromMock(el.target, |el.target.elems|, env1, key, s);
        }
      } else if w.ModuleFn? {
        assert el.key == Some("module") && IsNamespace(init, s);
        if !el.target.Name? {
          AssignElemsQuiet(el.target, |el.target.elems|, ModuleFn, env1, key, s);
        }
      } else {
        AssignQuiet(el.target, w, env1, key, s);
      }
    }
  }

  /** One executed binding keeps every name in the set of what it holds. */
  lemma {:induction false} BindingSound(b: Binding, w: World, ch: Choice, s: Sets)
    requires Covered(w, s) && PlainBinding(b, s) && Admits(s, b)
    requires EscapesIn(b.init, s, {}, LearnedBinding(b, s)) == []
    ensures Covered(Executed(b, w, ch), s)
  {
    var v := Eval(b.init, w, ch);
    match b.target
    case Name(x) =>
      if b.init.Object? {
        EvalWrapper(x, b.init, |b.init.props|, w, ch, s);
        forall i | 0 <= i < Arity(b.init)
          ensures Plain(Child(b.init, i), s)
        {
          assert Child(b.init, i) == b.init.props[i].value;
        }
        EvalPropsFn(b.init, |b.init.props|, w, ch, s);
      } else {
        EvalNs(b.init, w, ch, s);
        EvalFn(b.init, w, ch, s, LearnedBinding(b, s));
      }
    case Pattern(elems) =>
      EvalNs(b.init, w, ch, s);
      EvalFn(b.init, w, ch, s, false);
      if Followed(b.init, s) {
        AssignPattern(b.target, |elems|, b.init, v, w.env, ch.key, s);
      } else {
        AssignQuiet(b.target, v, w.env, ch.key, s);
      }
    case Literal(_) =>
      EvalNs(b.init, w, ch, s);
      EvalFn(b.init, w, ch, s, false);
      AssignQuiet(b.target, v, w.env, ch.key, s);
  }

  // ------------------------------------------------------- whole executions

  lemma {:induction false} StartCovered(imports: seq<ImportDecl>, s: Sets)
    requires SeedFrom(Sets({}, {}, {"require"}, {}, {}), imports).Within(s)
    ensures Covers(StartFrom(imports), s)
  {
    if imports != [] {
      var front, last := imports[..|imports| - 1], imports[|imports| - 1];
      SeedGrows(SeedFrom(Sets({}, {}, {"require"}, {}, {}), front), last);
      StartCovered(front, s);
    }
  }

  lemma SeedGrows(s: Sets, d: ImportDecl)
    ensures s.Within(SeedImport(s, d))
  {
  }

  /** Nothing escapes, by the reads alone. */
  ghost predicate NoEscape(file: File, s: Sets) {
    Escapes(file, s, {}) == []
  }

  lemma {:induction false} RootEscapes(file: File, n: nat, i: nat, s: Sets, silent: set<string>)
    requires i < n <= |Roots(file)| && EscapeReport(file, n, s, silent) == []
    ensures EscapesIn(Roots(file)[i], s, silent, Accounted(file, i, s)) == []
  {
    if i < n - 1 {
      RootEscapes(file, n - 1, i, s, silent);
    }
  }

  lemma BindingEscapes(file: File, b: Binding, s: Sets)
    requires NoEscape(file, s) && b in file.bindings
    ensures EscapesIn(b.init, s, {}, LearnedBinding(b, s)) == []
  {
    var i :| 0 <= i < |file.bindings| && file.bindings[i] == b;
    assert Roots(file)[i] == b.init;
    RootEscapes(file, |Roots(file)|, i, s, {});
  }

  /** No escape in a tree is none in its parts. */
  lemma {:induction false} PartEscapes(sub: Expr, e: Expr, s: Sets, accounted: bool)
    requires Occurs(sub, e) && EscapesIn(e, s, {}, accounted) == []
    ensures EscapesInChildren(sub, Arity(sub), s, {}) == []
    decreases e
  {
    if sub != e {
      var i :| 0 <= i < Arity(e) && (Occurs(sub, Child(e, i)));
      ChildEscapes(e, Arity(e), i, s);
      PartEscapes(sub, Child(e, i), s, e.Call? && i == 0);
    }
  }

  lemma RootIsFree(e: Expr, file: File, s: Sets)
    requires PlainFile(file, s) && NoEscape(file, s) && e in file.exprs
    ensures EscapesIn(e, s, {}, false) == []
  {
    var j :| 0 <= j < |file.exprs| && file.exprs[j] == e;
    var i := |file.bindings| + j;
    assert Roots(file)[i] == e;
    RootEscapes(file, |Roots(file)|, i, s, {});
  }

  lemma ArgumentIsFree(e: Expr, call: Expr, i: nat, file: File, s: Sets)
    requires PlainFile(file, s) && NoEscape(file, s) && IsArgument(e, call)
    requires i < |Roots(file)| && Occurs(call, Roots(file)[i])
    ensures Plain(e, s) && !Followed(e, s) && EscapesIn(e, s, {}, false) == []
  {
    var j :| 0 <= j < |call.args| && call.args[j] == e;
    OccursInPlainFile(call, file, i, s);
    RootEscapes(file, |Roots(file)|, i, s, {});
    PartEscapes(call, Roots(file)[i], s, Accounted(file, i, s));
    assert Child(call, j + 1) == e;
    ChildEscapes(call, Arity(call), j + 1, s);
  }

  /** A loose expression is in the fragment, is nothing followed, and does not read the function. */
  lemma LooseIsFree(e: Expr, file: File, s: Sets)
    requires PlainFile(file, s) && NoEscape(file, s) && Loose(e, file)
    ensures Plain(e, s) && !Followed(e, s) && EscapesIn(e, s, {}, false) == []
  {
    if e in file.exprs {
      RootIsFree(e, file, s);
    } else {
      var call :| IsArgument(e, call) && OccursInFile(call, file);
      var i :| 0 <= i < |Roots(file)| && Occurs(call, Roots(file)[i]);
      ArgumentIsFree(e, call, i, file, s);
    }
  }

  /** Keeping a loose value keeps the store free of anything followed. */
  lemma KeptSound(e: Expr, file: File, w: World, ch: Choice, s: Sets)
    requires PlainFile(file, s) && NoEscape(file, s) && Loose(e, file) && Covered(w, s)
    ensures Covered(Kept(e, w, ch), s)
  {
    LooseIsFree(e, file, s);
    EvalNs(e, w, ch, s);
    EvalFn(e, w, ch, s, false);
  }

  lemma PassedSound(x: string, i: nat, w: World, s: Sets)
    requires i < |w.store| && Covered(w, s)
    ensures Covered(Passed(x, i, w), s)
  {
    assert w.store[i] in w.store;
  }

  /** In every state of every run, each name is in the set of what it holds. */
  lemma {:induction false} RunCovered(file: File, s: Sets, run: seq<World>, n: nat)
    requires Closed(s, file) && PlainFile(file, s) && NoEscape(file, s)
    requires IsRun(file, run) && n < |run|
    ensures Covered(run[n], s)
  {
    if n == 0 {
      StartCovered(file.imports, s);
    } else {
      RunCovered(file, s, run, n - 1);
      var w := run[n - 1];
      assert Step(file, w, run[n - 1 + 1]);
      if b, ch: Choice :| b in file.bindings && run[n] == Executed(b, w, ch) {
        BindingEscapes(file, b, s);
        BindingSound(b, w, ch, s);
      } else if e, ch: Choice :| Loose(e, file) && run[n] == Kept(e, w, ch) {
        KeptSound(e, file, w, ch, s);
      } else {
        var x, i: nat :| i < |w.store| && run[n] == Passed(x, i, w);
        PassedSound(x, i, w, s);
      }
    }
  }

  // ------------------------------------------------------------ call sites

  /** In the state `w`, evaluating the call `site` calls `mock.module`. */
  predicate CallsModule(site: Expr, w: World, ch: Choice) {
    && site.Call?
    && (|| Eval(site.callee, w, ch).ModuleFn?
        || (&& site.callee.Member? && site.callee.prop.Named? && site.callee.prop.text in {"call", "apply"}
            && Eval(site.callee.owner, w, ch).ModuleFn?))
  }

  lemma {:induction false} ChildCalls(e: Expr, n: nat, i: nat, s: Sets, r: Record)
    requires i < n <= Arity(e)
    requires r in CallsIn(Child(e, i), s)
    ensures r in CallsInChildren(e, n, s)
  {
    if i < n - 1 {
      ChildCalls(e, n - 1, i, s, r);
    }
  }

  /** What is recorded for an inner expression is recorded for the whole tree. */
  lemma {:induction false} OccursRecorded(sub: Expr, e: Expr, s: Sets)
    requires Occurs(sub, e)
    ensures forall r :: r in OwnRecord(sub, s) ==> r in CallsIn(e, s)
    ensures Plain(e, s) ==> Plain(sub, s)
    decreases e
  {
    if sub != e {
      var i :| 0 <= i < Arity(e) && (Occurs(sub, Child(e, i)));
      OccursRecorded(sub, Child(e, i), s);
      forall r | r in OwnRecord(sub, s)
        ensures r in CallsIn(e, s)
      {
        ChildCalls(e, Arity(e), i, s, r);
      }
    }
  }

  /** A call occurring in a file of the fragment is itself in the fragment. */
  lemma OccursInPlainFile(site: Expr, file: File, i: nat, s: Sets)
    requires site.Call? && PlainFile(file, s)
    requires i < |Roots(file)| && Occurs(site, Roots(file)[i])
    ensures Plain(site, s)
  {
    var root := Roots(file)[i];
    if i < |file.bindings| && file.bindings[i].target.Name? && root.Object? {
      var j :| 0 <= j < Arity(root) && (Occurs(site, Child(root, j)));
      assert Child(root, j) == root.props[j].value;
      assert PlainBinding(file.bindings[i], s);
      OccursRecorded(site, Child(root, j), s);
    } else {
      if i < |file.bindings| {
        assert PlainBinding(file.bindings[i], s);
      } else {
        assert root in file.exprs;
      }
      OccursRecorded(site, root, s);
    }
  }

  /** A record of a call: the specifier is unknown, or it is the one the call gets. */
  ghost predicate Records(r: Record, site: Expr, w: World, ch: Choice) {
    && r.CallRecord? && r.site == site && site.Call?
    && (!r.dynamic ==> |site.args| > 0 && r.target.Some? && Eval(site.args[0], w, ch) == Text(r.target.value))
  }

  /** A direct call has exactly one record, and a readable target is the real one. */
  lemma DirectCallRecorded(site: Expr, w: World, ch: Choice, s: Sets)
    requires site.Call? && Plain(site, s) && Covered(w, s)
    requires EscapesIn(site.callee, s, {}, true) == []
    requires Eval(site.callee, w, ch).ModuleFn?
    ensures |OwnRecord(site, s)| == 1 && Records(OwnRecord(site, s)[0], site, w, ch)
  {
    assert Child(site, 0) == site.callee;
    EvalFn(site.callee, w, ch, s, true);
    if |site.args| > 0 && site.args[0].Str? {
      assert Eval(site.args[0], w, ch) == Text(site.args[0].text);
    }
  }

  /** With nothing escaping, `call` and `apply` on the function are recorded as indirect, without a specifier. */
  lemma IndirectCallRecorded(site: Expr, w: World, ch: Choice, s: Sets)
    requires site.Call? && Plain(site, s) && Covered(w, s)
    requires site.callee.Member? && site.callee.prop.Named? && site.callee.prop.text in {"call", "apply"}
    requires Eval(site.callee.owner, w, ch).ModuleFn?
    requires EscapesIn(site.callee.owner, s, {}, true) == []
    requires !(site.callee.owner.Member? && site.callee.owner.prop.Computed?)
    ensures OwnRecord(site, s) == [CallRecord(site, StaticSpecifier(site.args), true, IndirectInvoke)]
  {
    assert Child(site, 0) == site.callee && Child(site.callee, 0) == site.callee.owner;
    EvalFn(site.callee.owner, w, ch, s, true);
  }

  lemma {:induction false} CallReported(file: File, n: nat, i: nat, s: Sets, r: Record)
    requires i < n <= |Roots(file)| && r in CallsIn(Roots(file)[i], s)
    ensures r in CallReport(file, n, s)
  {
    if i < n - 1 {
      CallReported(file, n - 1, i, s, r);
    }
  }

  /** Every reported escape is one, and an escape that is not silenced is reported. */
  lemma {:induction false} EscapeKept(e: Expr, s: Sets, silent: set<string>, accounted: bool, r: Record)
    requires r in EscapesIn(e, s, {}, accounted)
    ensures r.EscapeRecord? && (Silenced(r.read, silent) || r in EscapesIn(e, s, silent, accounted))
    decreases e, 1, 0
  {
    var own: seq<Record> := if IsModuleRead(e, s, {}) && !accounted then [EscapeRecord(e)] else [];
    if r !in own {
      EscapeKeptInChildren(e, Arity(e), s, silent, r);
    }
  }

  lemma {:induction false} EscapeKeptInChildren(e: Expr, n: nat, s: Sets, silent: set<string>, r: Record)
    requires n <= Arity(e) && r in EscapesInChildren(e, n, s, {})
    ensures r.EscapeRecord? && (Silenced(r.read, silent) || r in EscapesInChildren(e, n, s, silent))
    decreases e, 0, n
  {
    if r in EscapesInChildren(e, n - 1, s, {}) {
      EscapeKeptInChildren(e, n - 1, s, silent, r);
    } else {
      EscapeKept(Child(e, n - 1), s, silent, e.Call? && n == 1, r);
    }
  }

  lemma {:induction false} EscapeReported(file: File, n: nat, s: Sets, silent: set<string>, r: Record)
    requires n <= |Roots(file)| && r in EscapeReport(file, n, s, {})
    ensures r.EscapeRecord? && (Silenced(r.read, silent) || r in EscapeReport(file, n, s, silent))
  {
    if r in EscapeReport(file, n - 1, s, {}) {
      EscapeReported(file, n - 1, s, silent, r);
    } else {
      EscapeKept(Roots(file)[n - 1], s, silent, Accounted(file, n - 1, s), r);
    }
  }

  /** With no escape reported and none silenced there is none. */
  lemma NoneReportedNoEscape(file: File, s: Sets, silent: set<string>)
    requires Escapes(file, s, silent) == [] && NoSilencedEscape(file, s, silent)
    ensures NoEscape(file, s)
  {
    if Escapes(file, s, {}) != [] {
      EscapeReported(file, |Roots(file)|, s, silent, Escapes(file, s, {})[0]);
    }
  }

  /**
    Whenever some run of a file without escapes reaches a state in which a call site
    calls `mock.module`, the site has a call record, and the record either claims no
    specifier or has the one that is patched.
   */
  lemma EveryCallIsRecorded(file: File, s: Sets, silent: set<string>, run: seq<World>, n: nat, site: Expr, ch: Choice)
    requires Closed(s, file) && PlainFile(file, s)
    requires Escapes(file, s, silent) == [] && NoSilencedEscape(file, s, silent)
    requires IsRun(file, run) && n < |run|
    requires OccursInFile(site, file) && CallsModule(site, run[n], ch)
    ensures exists r :: r in Report(file, s, silent) && Records(r, site, run[n], ch)
  {
    NoneReportedNoEscape(file, s, silent);
    RunCovered(file, s, run, n);
    var i :| 0 <= i < |Roots(file)| && Occurs(site, Roots(file)[i]);
    OccursInPlainFile(site, file, i, s);
    RootEscapes(file, |Roots(file)|, i, s, {});
    PartEscapes(site, Roots(file)[i], s, Accounted(file, i, s));
    assert Child(site, 0) == site.callee;
    ChildEscapes(site, Arity(site), 0, s);
    CalleeCalls(site, run[n], ch, s);
    DirectCallRecorded(site, run[n], ch, s);
    var r := OwnRecord(site, s)[0];
    OccursRecorded(site, Roots(file)[i], s);
    CallReported(file, |Roots(file)|, i, s, r);
  }

  /** Without escapes the function is only reached as a callee: `call` and `apply` on it read it as a value. */
  lemma CalleeCalls(site: Expr, w: World, ch: Choice, s: Sets)
    requires Plain(site, s) && Covered(w, s) && CallsModule(site, w, ch)
    requires EscapesIn(site.callee, s, {}, true) == []
    ensures Eval(site.callee, w, ch).ModuleFn?
  {
    assert Child(site, 0) == site.callee;
    if !Eval(site.callee, w, ch).ModuleFn? {
      assert Child(site.callee, 0) == site.callee.owner;
      ChildEscapes(site.callee, 1, 0, s);
      EvalFn(site.callee.owner, w, ch, s, false);
      assert false;
    }
  }

  /** A file with an empty report never patches the registry, in any run. */
  lemma CleanFileNeverPatches(file: File, s: Sets, silent: set<string>, run: seq<World>, n: nat, site: Expr, ch: Choice)
    requires Closed(s, file) && PlainFile(file, s)
    requires Report(file, s, silent) == [] && NoSilencedEscape(file, s, silent)
    requires IsRun(file, run) && n < |run| && OccursInFile(site, file)
    ensures !CallsModule(site, run[n], ch)
  {
    if CallsModule(site, run[n], ch) {
      EveryCallIsRecorded(file, s, silent, run, n, site, ch);
    }
  }
}
