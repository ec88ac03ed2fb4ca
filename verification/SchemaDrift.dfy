/**
  Drift between two lists of tools, and the fingerprint of a list. The two signals
  agree: the fingerprint texts are equal exactly when no tool drifted.
 */
module SchemaDrift {
  import opened Wrappers
  import opened Lists
  import opened Lookups
  import opened Strings
  import opened Ordering
  import CJ = CanonicalJson

  /** A tool with the hash of what it declares. */
  type Tool<N> = Named<N, string>

  datatype Kind = Added | Removed | Changed

  datatype Change<N> = Change(tool: N, kind: Kind)

  /** What happened to one name between the two lists. */
  function ChangeOf<N(==)>(cached: seq<Tool<N>>, live: seq<Tool<N>>, name: N): Option<Kind> {
    match (ValueOf(cached, name), ValueOf(live, name))
    case (None, None) => None
    case (Some(_), None) => Some(Removed)
    case (None, Some(_)) => Some(Added)
    case (Some(a), Some(b)) => if a == b then None else Some(Changed)
  }

  predicate HasTool<N(==)>(tools: seq<Tool<N>>, name: N) {
    exists i :: 0 <= i < |tools| && tools[i].name == name
  }

  /** The last entry of that name has this value. */
  ghost predicate IsLastTool<N>(tools: seq<Tool<N>>, name: N, value: string) {
    exists i :: 0 <= i < |tools| && tools[i] == Named(name, value)
      && forall j :: i < j < |tools| ==> tools[j].name != name
  }

  ghost predicate LastToolsDiffer<N>(a: seq<Tool<N>>, b: seq<Tool<N>>, name: N) {
    exists v, w :: v != w && IsLastTool(a, name, v) && IsLastTool(b, name, w)
  }

  lemma {:induction false} LastToolIff<N(!new)>(tools: seq<Tool<N>>, name: N)
    ensures HasTool(tools, name) <==> ValueOf(tools, name).Some?
    ensures forall v :: IsLastTool(tools, name, v) <==> ValueOf(tools, name) == Some(v)
  {
    if tools != [] {
      var n := |tools| - 1;
      var front := tools[..n];
      LastToolIff(front, name);
      if tools[n].name == name {
        assert IsLastTool(tools, name, tools[n].value);
      } else {
        forall v ensures IsLastTool(tools, name, v) <==> IsLastTool(front, name, v) {
          if i :| 0 <= i < n && front[i] == Named(name, v) && forall j :: i < j < n ==> front[j].name != name {
            assert tools[i] == Named(name, v) && forall j :: i < j < n ==> tools[j] == front[j];
          }
        }
        assert HasTool(tools, name) ==> HasTool(front, name);
        if HasTool(front, name) {
          var i :| 0 <= i < n && front[i].name == name;
          assert tools[i].name == name;
        }
      }
    }
  }

  /** What each kind means: the name is new, is gone, or stands for something else. */
  lemma KindIff<N(!new)>(cached: seq<Tool<N>>, live: seq<Tool<N>>, name: N)
    ensures ChangeOf(cached, live, name) == Some(Added) <==> !HasTool(cached, name) && HasTool(live, name)
    ensures ChangeOf(cached, live, name) == Some(Removed) <==> HasTool(cached, name) && !HasTool(live, name)
    ensures ChangeOf(cached, live, name) == Some(Changed) <==> LastToolsDiffer(cached, live, name)
  {
    LastToolIff(cached, name);
    LastToolIff(live, name);
  }

  // --------------------------------------------------------------- the drift

  /** One pass of `detectDrift`: names of one list that changed in the given way. */
  method Pass<N(==)>(cached: seq<Tool<N>>, live: seq<Tool<N>>, names: seq<N>, kind: Kind,
      changes: seq<Change<N>>) returns (r: seq<Change<N>>)
    requires kind == Removed ==> names == Names(cached)
    requires kind != Removed ==> names == Names(live)
    requires Once(changes) && forall c :: c in changes ==> c.kind != kind && IsChange(cached, live, c)
    ensures Once(r)
    ensures forall c :: c in r <==> c in changes || (c.kind == kind && IsChange(cached, live, c))
  {
    r := changes;
    for i := 0 to |names|
      invariant Once(r)
      invariant forall c :: c in r <==>
        c in changes || (c.kind == kind && c.tool in names[..i] && IsChange(cached, live, c))
    {
      Prefix(names, i);
      NamesAreLookups(cached, names[i]);
      NamesAreLookups(live, names[i]);
      var drifted := match kind
        case Removed => ValueOf(live, names[i]) == None
        case Added => ValueOf(cached, names[i]) == None
        case Changed => ValueOf(cached, names[i]).Some? && ValueOf(cached, names[i]) != ValueOf(live, names[i]);
      if drifted {
        forall j | 0 <= j < i ensures names[j] != names[i] {
          NamesOnce(if kind == Removed then cached else live, j, i);
        }
        OnceMore(r, Change(names[i], kind), cached, live);
        r := r + [Change(names[i], kind)];
      }
    }
    forall c: Change<N> | c.kind == kind && IsChange(cached, live, c) ensures c.tool in names {
      NamesAreLookups(cached, c.tool);
      NamesAreLookups(live, c.tool);
    }
    assert names[..|names|] == names;
  }

  predicate IsChange<N(==)>(cached: seq<Tool<N>>, live: seq<Tool<N>>, c: Change<N>) {
    ChangeOf(cached, live, c.tool) == Some(c.kind)
  }

  /** No name is reported twice. */
  ghost predicate Once<N>(changes: seq<Change<N>>) {
    forall i, j :: 0 <= i < j < |changes| ==> changes[i].tool != changes[j].tool
  }

  lemma OnceMore<N>(r: seq<Change<N>>, c: Change<N>, cached: seq<Tool<N>>, live: seq<Tool<N>>)
    requires Once(r) && c !in r && IsChange(cached, live, c)
    requires forall d :: d in r ==> IsChange(cached, live, d)
    ensures Once(r + [c])
  {
    forall i | 0 <= i < |r| ensures r[i].tool != c.tool {
      assert r[i] in r;
    }
  }

  lemma {:induction false} OncePermutes<N(!new)>(a: seq<Change<N>>, b: seq<Change<N>>)
    requires Once(a) && multiset(a) == multiset(b)
    ensures Once(b)
  {
    forall i, j | 0 <= i < j < |b| ensures b[i].tool != b[j].tool {
      assert b[i] in multiset(a) && b[j] in multiset(a);
      OnceCounts(a, b[i]);
      Twice(b, i, j);
      var x, y :| 0 <= x < |a| && 0 <= y < |a| && a[x] == b[i] && a[y] == b[j];
    }
  }

  lemma {:induction false} OnceCounts<N>(a: seq<Change<N>>, c: Change<N>)
    requires Once(a)
    ensures multiset(a)[c] <= 1
  {
    if a != [] {
      OnceCounts(a[1..], c);
      assert a == [a[0]] + a[1..];
      forall k | 0 <= k < |a[1..]| ensures a[1..][k] != a[0] {
        assert a[1..][k] == a[k + 1];
      }
    }
  }

  /**
    The changes are exactly the names whose lookups differ, each with its kind and
    once, in the order of `before`.
   */
  method DetectDrift<N(!new,==)>(cached: seq<Tool<N>>, live: seq<Tool<N>>, before: (Change<N>, Change<N>) -> bool)
    returns (hasDrift: bool, changes: seq<Change<N>>)
    requires TotalPreorder(before)
    ensures hasDrift <==> exists n :: ChangeOf(cached, live, n).Some?
    ensures forall c :: c in changes <==> ChangeOf(cached, live, c.tool) == Some(c.kind)
    ensures Once(changes) && Sorted(changes, before)
    ensures forall n :: Change(n, Added) in changes <==> !HasTool(cached, n) && HasTool(live, n)
    ensures forall n :: Change(n, Removed) in changes <==> HasTool(cached, n) && !HasTool(live, n)
    ensures forall n :: Change(n, Changed) in changes <==> LastToolsDiffer(cached, live, n)
  {
    forall n
      ensures ChangeOf(cached, live, n) == Some(Added) <==> !HasTool(cached, n) && HasTool(live, n)
      ensures ChangeOf(cached, live, n) == Some(Removed) <==> HasTool(cached, n) && !HasTool(live, n)
      ensures ChangeOf(cached, live, n) == Some(Changed) <==> LastToolsDiffer(cached, live, n)
    {
      KindIff(cached, live, n);
    }
    changes := Pass(cached, live, Names(cached), Removed, []);
    changes := Pass(cached, live, Names(live), Added, changes);
    changes := Pass(cached, live, Names(live), Changed, changes);
    var found := changes;
    changes := Sort(found, before);
    SortPermutes(found, before);
    SortSorts(found, before);
    OncePermutes(found, changes);
    forall c: Change<N> ensures c in changes <==> IsChange(cached, live, c) {
      SortMembers(found, before, c);
    }
    hasDrift := |changes| > 0;
    if hasDrift {
      assert changes[0] in changes;
    } else {
      forall n ensures ChangeOf(cached, live, n) == None {
        assert !IsChange(cached, live, Change(n, Added)) && !IsChange(cached, live, Change(n, Removed))
          && !IsChange(cached, live, Change(n, Changed));
      }
    }
  }

  // ---------------------------------------------------------- the fingerprint

  function Hashes<N>(tools: seq<Tool<N>>): seq<string> {
    if tools == [] then [] else [tools[0].value] + Hashes(tools[1..])
  }

  /** What the fingerprint digests. */
  function FingerprintText<N>(tools: seq<Tool<N>>): string {
    Join(Sort(Hashes(tools), Leq), "|")
  }

  predicate IsHash(h: string) {
    h != "" && '|' !in h
  }

  lemma {:induction false} JoinInjective(a: seq<string>, b: seq<string>)
    requires forall h :: h in a || h in b ==> IsHash(h)
    requires Join(a, "|") == Join(b, "|")
    ensures a == b
  {
    if a == [] || b == [] {
      JoinEmpty(a);
      JoinEmpty(b);
    } else {
      JoinBars(a);
      JoinBars(b);
      if |a| > 1 && |b| > 1 {
        FirstPart(a[0], Join(a[1..], "|"), b[0], Join(b[1..], "|"), '|');
        JoinInjective(a[1..], b[1..]);
        assert a == [a[0]] + a[1..] && b == [b[0]] + b[1..];
      }
    }
  }

  lemma JoinEmpty(a: seq<string>)
    requires forall h :: h in a ==> IsHash(h)
    ensures Join(a, "|") == "" ==> a == []
  {
    if a != [] {
      assert a[0] in a;
    }
  }

  lemma JoinBars(a: seq<string>)
    requires a != [] && IsHash(a[0])
    ensures '|' in Join(a, "|") <==> |a| > 1 || '|' in a[0]
  {
    if |a| > 1 {
      assert Join(a, "|")[|a[0]|] == '|';
    }
  }

  /** A hash covers the name, so one hash has one name. */
  ghost predicate HashesName<N>(a: seq<Tool<N>>, b: seq<Tool<N>>) {
    forall t, u :: t in a && u in b && t.value == u.value ==> t.name == u.name
  }

  lemma {:induction false} HashesMember<N>(tools: seq<Tool<N>>, h: string)
    ensures h in Hashes(tools) <==> exists t :: t in tools && t.value == h
  {
    if tools != [] {
      HashesMember(tools[1..], h);
      assert tools == [tools[0]] + tools[1..];
    }
  }

  lemma {:induction false} HashCount<N>(tools: seq<Tool<N>>, h: string)
    requires DistinctNames(tools) && HashesName(tools, tools)
    ensures multiset(Hashes(tools))[h] == if h in Hashes(tools) then 1 else 0
  {
    if tools != [] {
      assert tools == [tools[0]] + tools[1..];
      assert DistinctNames(tools[1..]) && HashesName(tools[1..], tools[1..]);
      HashCount(tools[1..], h);
      HashesMember(tools[1..], h);
      forall k | 0 <= k < |tools[1..]| ensures tools[1..][k].value != tools[0].value {
        assert tools[1..][k] == tools[k + 1] && tools[k + 1] in tools && tools[0] in tools;
      }
    }
  }

  /** Both lists have the same hashes. */
  ghost predicate SameHashes<N>(a: seq<Tool<N>>, b: seq<Tool<N>>) {
    forall h :: h in Hashes(a) <==> h in Hashes(b)
  }

  lemma {:induction false} NoDriftIffSameHashes<N(!new)>(a: seq<Tool<N>>, b: seq<Tool<N>>)
    requires DistinctNames(a) && DistinctNames(b) && HashesName(a, b)
    ensures (forall n :: ChangeOf(a, b, n) == None) <==> SameHashes(a, b)
  {
    if SameHashes(a, b) {
      forall n ensures ChangeOf(a, b, n) == None {
        SameLookup(a, b, n);
      }
    }
    if forall n :: ChangeOf(a, b, n) == None {
      forall h ensures h in Hashes(a) <==> h in Hashes(b) {
        HashesMember(a, h);
        HashesMember(b, h);
        if t :| t in a && t.value == h {
          ValueOfIff(a, t.name, h);
          ValueOfIff(b, t.name, h);
          assert ChangeOf(a, b, t.name) == None && t == Named(t.name, h);
        }
        if t :| t in b && t.value == h {
          ValueOfIff(a, t.name, h);
          ValueOfIff(b, t.name, h);
          assert ChangeOf(a, b, t.name) == None && t == Named(t.name, h);
        }
      }
    }
  }

  lemma {:induction false} SameLookup<N(!new)>(a: seq<Tool<N>>, b: seq<Tool<N>>, n: N)
    requires DistinctNames(a) && DistinctNames(b) && HashesName(a, b) && SameHashes(a, b)
    ensures ValueOf(a, n) == ValueOf(b, n)
  {
    if ValueOf(a, n).Some? {
      var h := ValueOf(a, n).value;
      ValueOfIff(a, n, h);
      HashesMember(a, h);
      HashesMember(b, h);
      var u :| u in b && u.value == h;
      assert u == Named(n, h);
      ValueOfIff(b, n, h);
    }
    if ValueOf(b, n).Some? {
      var h := ValueOf(b, n).value;
      ValueOfIff(b, n, h);
      HashesMember(b, h);
      HashesMember(a, h);
      var t :| t in a && t.value == h;
      assert t == Named(n, h);
      ValueOfIff(a, n, h);
    }
  }

  /** The fingerprint texts are equal exactly when no tool drifted. */
  lemma {:induction false} FingerprintIffNoDrift<N(!new)>(a: seq<Tool<N>>, b: seq<Tool<N>>)
    requires DistinctNames(a) && DistinctNames(b)
    requires HashesName(a, a) && HashesName(b, b) && HashesName(a, b)
    requires forall t :: t in a || t in b ==> IsHash(t.value)
    ensures FingerprintText(a) == FingerprintText(b) <==> forall n :: ChangeOf(a, b, n) == None
  {
    LeqIsTotalOrder();
    NoDriftIffSameHashes(a, b);
    if FingerprintText(a) == FingerprintText(b) {
      forall h | h in Sort(Hashes(a), Leq) || h in Sort(Hashes(b), Leq) ensures IsHash(h) {
        SortMembers(Hashes(a), Leq, h);
        SortMembers(Hashes(b), Leq, h);
        HashesMember(a, h);
        HashesMember(b, h);
      }
      JoinInjective(Sort(Hashes(a), Leq), Sort(Hashes(b), Leq));
      forall h ensures h in Hashes(a) <==> h in Hashes(b) {
        SortMembers(Hashes(a), Leq, h);
        SortMembers(Hashes(b), Leq, h);
      }
    }
    if SameHashes(a, b) {
      forall h ensures multiset(Hashes(a))[h] == multiset(Hashes(b))[h] {
        HashCount(a, h);
        HashCount(b, h);
      }
      assert multiset(Hashes(a)) == multiset(Hashes(b));
      SortIsCanonical(Hashes(a), Hashes(b), Leq);
    }
  }

  // ------------------------------------------------- down to what tools declare

  type Digest = CJ.Text -> string

  function HashTool(t: CJ.Tool, digest: Digest): string {
    digest(CJ.CanonicalText(CJ.Surface(t)))
  }

  function Hashed(tools: seq<CJ.Tool>, digest: Digest): (r: seq<Tool<string>>)
    ensures |r| == |tools| && forall i :: 0 <= i < |r| ==> r[i] == Named(tools[i].name, HashTool(tools[i], digest))
  {
    seq(|tools|, i requires 0 <= i < |tools| => Named(tools[i].name, HashTool(tools[i], digest)))
  }

  /** The digest tells texts apart and is a hash. */
  ghost predicate GoodDigest(digest: Digest) {
    && (forall s, t :: digest(s) == digest(t) ==> s == t)
    && forall t :: IsHash(digest(t))
  }

  ghost predicate Declared(tools: seq<CJ.Tool>) {
    && (forall i, j :: 0 <= i < j < |tools| ==> tools[i].name != tools[j].name)
    && forall i :: 0 <= i < |tools| ==> CJ.ProperTool(tools[i])
  }

  ghost predicate SameSurface(t: CJ.Tool, u: CJ.Tool) {
    && t.name == u.name
    && CJ.SameDescription(t.description, u.description)
    && CJ.Same(t.inputSchema, u.inputSchema, {CJ.Proto})
    && CJ.SameAnnotations(t.annotations, u.annotations)
  }

  /** Every tool of `a` is declared alike in `b`. */
  ghost predicate AllIn(a: seq<CJ.Tool>, b: seq<CJ.Tool>) {
    forall i :: 0 <= i < |a| ==> exists j :: 0 <= j < |b| && SameSurface(a[i], b[j])
  }

  lemma {:induction false} SameHashIff(a: seq<CJ.Tool>, b: seq<CJ.Tool>, i: nat, j: nat, digest: Digest)
    requires GoodDigest(digest) && Declared(a) && Declared(b) && i < |a| && j < |b|
    ensures HashTool(a[i], digest) == HashTool(b[j], digest) <==> SameSurface(a[i], b[j])
  {
    CJ.HashIffSameSurface(a[i], b[j], digest);
  }

  lemma {:induction false} HashedNames(a: seq<CJ.Tool>, b: seq<CJ.Tool>, digest: Digest)
    requires GoodDigest(digest) && Declared(a) && Declared(b)
    ensures HashesName(Hashed(a, digest), Hashed(b, digest))
  {
    var x, y := Hashed(a, digest), Hashed(b, digest);
    forall t, u | t in x && u in y && t.value == u.value ensures t.name == u.name {
      var i :| 0 <= i < |x| && x[i] == t;
      var j :| 0 <= j < |y| && y[j] == u;
      SameHashIff(a, b, i, j, digest);
    }
  }

  ghost predicate Within(s: seq<string>, t: seq<string>) {
    forall h :: h in s ==> h in t
  }

  lemma {:induction false} AllInIff(a: seq<CJ.Tool>, b: seq<CJ.Tool>, digest: Digest)
    requires GoodDigest(digest) && Declared(a) && Declared(b)
    ensures AllIn(a, b) <==> Within(Hashes(Hashed(a, digest)), Hashes(Hashed(b, digest)))
  {
    var x, y := Hashed(a, digest), Hashed(b, digest);
    if AllIn(a, b) {
      forall h | h in Hashes(x) ensures h in Hashes(y) {
        HashesMember(x, h);
        HashesMember(y, h);
        var i :| 0 <= i < |x| && x[i].value == h;
        var j :| 0 <= j < |b| && SameSurface(a[i], b[j]);
        SameHashIff(a, b, i, j, digest);
        assert y[j] in y;
      }
      assert Within(Hashes(x), Hashes(y));
    }
    if Within(Hashes(x), Hashes(y)) {
      forall i | 0 <= i < |a| ensures exists j :: 0 <= j < |b| && SameSurface(a[i], b[j]) {
        HashesMember(x, x[i].value);
        HashesMember(y, x[i].value);
        assert x[i] in x;
        var j :| 0 <= j < |y| && y[j].value == x[i].value;
        SameHashIff(a, b, i, j, digest);
        assert SameSurface(a[i], b[j]);
      }
      assert AllIn(a, b);
    }
  }

  lemma {:induction false} HashedProperly(a: seq<CJ.Tool>, digest: Digest)
    requires GoodDigest(digest) && Declared(a)
    ensures DistinctNames(Hashed(a, digest)) && HashesName(Hashed(a, digest), Hashed(a, digest))
    ensures forall t :: t in Hashed(a, digest) ==> IsHash(t.value)
  {
    HashedNames(a, a, digest);
  }

  lemma {:induction false} FingerprintIffSameHashes(a: seq<CJ.Tool>, b: seq<CJ.Tool>, digest: Digest)
    requires GoodDigest(digest) && Declared(a) && Declared(b)
    ensures FingerprintText(Hashed(a, digest)) == FingerprintText(Hashed(b, digest))
      <==> SameHashes(Hashed(a, digest), Hashed(b, digest))
  {
    HashedProperly(a, digest);
    HashedProperly(b, digest);
    HashedNames(a, b, digest);
    FingerprintIffNoDrift(Hashed(a, digest), Hashed(b, digest));
    NoDriftIffSameHashes(Hashed(a, digest), Hashed(b, digest));
  }

  /**
    End to end: two lists of tools have one fingerprint text exactly when each tool is
    declared alike in the other list, up to list order and member order at every depth.
   */
  lemma {:induction false} FingerprintIffSameSurfaces(a: seq<CJ.Tool>, b: seq<CJ.Tool>, digest: Digest)
    requires GoodDigest(digest) && Declared(a) && Declared(b)
    ensures FingerprintText(Hashed(a, digest)) == FingerprintText(Hashed(b, digest)) <==> AllIn(a, b) && AllIn(b, a)
  {
    FingerprintIffSameHashes(a, b, digest);
    AllInIff(a, b, digest);
    AllInIff(b, a, digest);
  }
}
