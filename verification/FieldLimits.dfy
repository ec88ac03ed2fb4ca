/**
  Fields that do not fit: inputs for which the code loses a field, stops, or changes
  its input. Each clause of `Maskable` excludes one of them.
 */
module FieldLimits {
  import opened Wrappers
  import opened Prototypes
  import opened FieldPaths
  import opened FieldCopies
  import opened FieldMask

  /** Plain objects inherit what they inherit in any engine. */
  ghost predicate IsPlain(host: Host) {
    forall s :: Segment(s) in host.objects <==> s in ObjectMembers
  }

  // -------------------------------------------------------- fields of two segments

  lemma ReadTwo(h: Heap, n: Node, a: Segment, b: Segment, host: Host)
    requires HeapClosed(h) && n in h
    ensures InHeap(h, Member(h, Ref(n), a, host))
    ensures Read(h, Ref(n), [a, b], host) == Member(h, Member(h, Ref(n), a, host), b, host)
  {
    var v := Member(h, Ref(n), a, host);
    assert [a, b][1..] == [b] && [b][1..] == [];
    assert Read(h, v, [b], host) == Read(h, Member(h, v, b, host), [], host);
  }

  lemma WritesTwo(run: seq<Point>, a: Segment, b: Segment, value: Value, host: Host, after: Heap)
    requires Writes(run, [a, b], value, host, after)
    ensures |run| == 2 && Steps(run[0], run[1], a, b, host)
    ensures run[1].node in run[1].h && PutAt(run[1], b, value, host) == Some(after)
  {
    assert [a, b][1..] == [b] && run[1..][0] == run[1];
    assert Writes(run[1..], [b], value, host, after);
  }

  lemma StopsTwo(run: seq<Point>, a: Segment, b: Segment, value: Value, host: Host)
    requires Stops(run, [a, b], value, host)
    ensures run[0].node in run[0].h
    ensures if |run| == 1 then Stuck(run[0], [a, b], value, host)
            else |run| == 2 && Steps(run[0], run[1], a, b, host) && Stuck(run[1], [b], value, host)
  {
    assert [a, b][1..] == [b];
    if |run| > 1 {
      assert run[1..][0] == run[1];
      assert Stops(run[1..], [b], value, host);
    }
  }

  lemma {:induction false} NoneMissing(hs: seq<Heap>, obj: Node, m: Node, fields: seq<Path>, host: Host,
      runs: seq<seq<Point>>)
    requires Filled(hs, obj, m, fields, host, runs)
    requires forall i :: 0 <= i < |fields| ==>
      HeapClosed(hs[i]) && obj in hs[i] && Read(hs[i], Ref(obj), fields[i], host) != Undefined
    ensures MissingOf(hs, obj, m, fields, host, runs) == []
    decreases |fields|
  {
    if fields != [] {
      var n := |fields| - 1;
      FilledFront(hs, obj, m, fields, host, runs);
      NoneMissing(hs[..n + 1], obj, m, fields[..n], host, runs[..n]);
    }
  }

  lemma TwoTurns(hs: seq<Heap>, obj: Node, m: Node, f: Path, g: Path, host: Host, runs: seq<seq<Point>>)
    requires Filled(hs, obj, m, [f, g], host, runs)
    ensures |hs| == 3 && |runs| == 2
    ensures FieldStep(hs[0], hs[1], obj, m, f, host, runs[0]) && FieldStep(hs[1], hs[2], obj, m, g, host, runs[1])
  {
    var fields: seq<Path> := [f, g];
    assert FieldStep(hs[0], hs[0 + 1], obj, m, fields[0], host, runs[0]);
    assert FieldStep(hs[1], hs[1 + 1], obj, m, fields[1], host, runs[1]);
  }

  // ------------------------------------------------------- null, and the prototype

  /** Writing `users.name` below a `null` puts an object in its place. */
  lemma NullIsReplaced(h: Heap, obj: Node, host: Host, run: seq<Point>, value: Value, after: Heap)
    requires obj in h && h[obj] == Cell(false, map[Users := Null])
    requires Writes(run, [Users, Name], value, host, after) && run[0] == Point(h, obj)
    ensures obj in after
    ensures exists child: Node ::
      && child !in h && child in after && after[obj] == Cell(false, map[Users := Ref(child)])
      && after[child] == Cell(false, map[Name := value])
  {
    WritesTwo(run, Users, Name, value, host, after);
    Differ();
    assert Lookup(h[obj], Users, host) == Null;
    assert map[Users := Null][Users := Ref(run[1].node)] == map[Users := Ref(run[1].node)];
    assert run[1].h[run[1].node] == Cell(false, map[]);
  }

  /** `__proto__` of any object is found, and so is its `__proto__`, which is `null`; nothing lies behind it. */
  lemma PrototypeEnds(h: Heap, obj: Node, host: Host, more: seq<Segment>)
    requires HeapClosed(h) && obj in h && Proto !in h[obj].members && !h[obj].isArray
    ensures Read(h, Ref(obj), [Proto, Proto], host) == Null
    ensures more != [] ==> Read(h, Ref(obj), [Proto, Proto] + more, host) == Undefined
  {
    ReadTwo(h, obj, Proto, Proto, host);
    var path := [Proto, Proto] + more;
    assert path[1..] == [Proto] + more && path[1..][1..] == more;
    assert Member(h, Ref(obj), Proto, host) == Builtin(Proto);
    if more != [] {
      ReadNothing(h, Null, more, host);
    }
  }

  // ------------------------------------------------------------ a key of digits

  const Users := Segment("users")
  const Digits := Segment("123")
  const Name := Segment("name")

  /** The engine reads `123` as a number and `name` as none, and no object inherits these names. */
  ghost predicate Reads(host: Host) {
    && host.number(Digits) == Some(Digits) && host.number(Name) == None
    && !Inherits(host, Users) && !Inherits(host, Name)
  }

  lemma Differ()
    ensures IsDigits(Digits.text) && !IsDigits(Name.text) && Digits != Name && Name != Segment("NaN")
      && Users != Name && Name != Proto
  {
    assert Digits.text[0] == '1' && Name.text[0] == 'n' && Users.text[0] == 'u' && Proto.text[0] == '_';
  }

  /** `{"users": {"123": 1, "name": "x"}}`, and an empty mask. */
  ghost predicate IsUsers(h: Heap, obj: Node, users: Node, m: Node) {
    && HeapClosed(h) && obj in h && users in h && m in h && obj != users && obj != m && users != m
    && h[obj] == Cell(false, map[Users := Ref(users)])
    && h[users] == Cell(false, map[Digits := Leaf("1"), Name := Leaf("x")])
    && h[m] == Cell(false, map[])
  }

  /** What the first field makes of the mask: an array, for its digits. */
  ghost predicate HasArray(h: Heap, h1: Heap, m: Node, u: Node) {
    && u !in h && h1.Keys == h.Keys + {u} && (forall n :: n in h && n != m ==> h1[n] == h[n])
    && m in h && h1[m] == Cell(false, map[Users := Ref(u)]) && h1[u] == Cell(true, map[Digits := Leaf("1")])
  }

  lemma DigitsMakeArray(obj: Node, users: Node, m: Node, host: Host, h: Heap, h1: Heap, run: seq<Point>)
    returns (u: Node)
    requires IsUsers(h, obj, users, m) && Reads(host)
    requires FieldStep(h, h1, obj, m, [Users, Digits], host, run)
    ensures HasArray(h, h1, m, u) && Read(h, Ref(obj), [Users, Digits], host) == Leaf("1")
  {
    Differ();
    ReadTwo(h, obj, Users, Digits, host);
    WritesTwo(run, Users, Digits, Leaf("1"), host, h1);
    u := run[1].node;
    assert Lookup(h[m], Users, host) == Undefined;
    assert run[1].h == WithChild(h, m, Users, u, true);
    assert h1 == WithMember(run[1].h, u, Digits, Leaf("1"));
  }

  /** The second field is then written under `NaN`. */
  lemma NameGoesToNaN(obj: Node, users: Node, m: Node, u: Node, host: Host, h: Heap, h1: Heap, h2: Heap,
      run: seq<Point>)
    requires IsUsers(h, obj, users, m) && Reads(host) && HasArray(h, h1, m, u)
    requires FieldStep(h1, h2, obj, m, [Users, Name], host, run)
    ensures Read(h1, Ref(obj), [Users, Name], host) == Leaf("x")
    ensures m in h2 && Read(h2, Ref(m), [Users, Name], host) == Undefined
  {
    Differ();
    ReadTwo(h1, obj, Users, Name, host);
    WritesTwo(run, Users, Name, Leaf("x"), host, h2);
    assert Lookup(h1[m], Users, host) == Ref(u);
    assert run[1] == Point(h1, u);
    assert h2 == WithMember(h1, u, Segment("NaN"), Leaf("x"));
    ReadTwo(h2, m, Users, Name, host);
  }

  /**
    Of `users.123` and `users.name` the second is found and not missing, and yet the mask
    does not have it.
   */
  lemma DigitKeyLosesField(obj: Node, users: Node, m: Node, host: Host, hs: seq<Heap>, runs: seq<seq<Point>>)
    requires hs != [] && IsUsers(hs[0], obj, users, m) && Reads(host)
    requires Filled(hs, obj, m, [[Users, Digits], [Users, Name]], host, runs)
    ensures MissingOf(hs, obj, m, [[Users, Digits], [Users, Name]], host, runs) == []
    ensures Read(hs[0], Ref(obj), [Users, Name], host) == Leaf("x")
    ensures
      var h2 := hs[2];
      HeapClosed(h2) && m in h2 && Read(h2, Ref(m), [Users, Name], host) == Undefined
  {
    TwoTurns(hs, obj, m, [Users, Digits], [Users, Name], host, runs);
    var u := DigitsMakeArray(obj, users, m, host, hs[0], hs[1], runs[0]);
    NameGoesToNaN(obj, users, m, u, host, hs[0], hs[1], hs[2], runs[1]);
    NoneMissing(hs, obj, m, [[Users, Digits], [Users, Name]], host, runs);
    ReadTwo(hs[0], obj, Users, Name, host);
    Differ();
  }

  /** The first of the two fields is the one that does not fit. */
  lemma DigitKeyDoesNotFit(h: Heap, obj: Node, users: Node, m: Node, host: Host)
    requires IsUsers(h, obj, users, m) && Reads(host)
    ensures !Fits(h, obj, [Users, Digits], host) && Fits(h, obj, [Users, Name], host)
  {
    Differ();
    TwoFit(h, obj, Users, Digits, host);
    TwoFit(h, obj, Users, Name, host);
  }

  lemma TwoFit(h: Heap, at: Node, a: Segment, b: Segment, host: Host)
    requires HeapClosed(h) && at in h && !h[at].isArray
    ensures
      var v := Member(h, Ref(at), a, host);
      Fits(h, at, [a, b], host) <==>
        !Inherits(host, a) && v.Ref? && h[v.node].isArray == IsDigits(b.text) && (h[v.node].isArray || b != Proto)
  {
    assert [a, b][1..] == [b];
  }

  /** Neither of the two fields stops. */
  lemma DigitKeyDoesNotStop(obj: Node, users: Node, m: Node, host: Host, h: Heap, h1: Heap, u: Node, run: seq<Point>)
    requires IsUsers(h, obj, users, m) && Reads(host)
    ensures !FieldStops(h, obj, m, [Users, Digits], host, run)
    ensures HeapClosed(h1) && HasArray(h, h1, m, u) ==> !FieldStops(h1, obj, m, [Users, Name], host, run)
  {
    Differ();
    if FieldStops(h, obj, m, [Users, Digits], host, run) {
      ReadTwo(h, obj, Users, Digits, host);
      StopsTwo(run, Users, Digits, Leaf("1"), host);
    }
    if HeapClosed(h1) && HasArray(h, h1, m, u) && FieldStops(h1, obj, m, [Users, Name], host, run) {
      ReadTwo(h1, obj, Users, Name, host);
      StopsTwo(run, Users, Name, Leaf("x"), host);
    }
  }

  // ------------------------------------------------------------ inherited names

  /**
    A field of an empty mask whose path goes on behind a name that objects inherit stops at
    once: the code goes on in what the name stands for in every object.
   */
  lemma InheritedStops(h: Heap, obj: Node, m: Node, name: Segment, more: seq<Segment>, host: Host)
    requires HeapClosed(h) && obj in h && m in h && h[m] == Cell(false, map[])
    requires more != [] && Inherits(host, name) && Read(h, Ref(obj), [name] + more, host) != Undefined
    ensures FieldStops(h, obj, m, [name] + more, host, [Point(h, m)])
    ensures forall h', run :: !FieldStep(h, h', obj, m, [name] + more, host, run)
  {
    var path: Path := [name] + more;
    assert Lookup(h[m], name, host) == Builtin(name);
  }

  /** `toString.name` is not found: an inherited function is no object to read on from. */
  lemma FunctionIsNoObject(h: Heap, obj: Node, name: Segment, more: Segment, host: Host)
    requires HeapClosed(h) && obj in h && !h[obj].isArray && name !in h[obj].members
    requires name in host.objects && name != Proto
    ensures Read(h, Ref(obj), [name], host) == Builtin(name)
    ensures Read(h, Ref(obj), [name, more], host) == Undefined
  {
    assert [name][1..] == [];
    ReadTwo(h, obj, name, more, host);
  }

  const Constructor := Segment("constructor")
  const Foo := Segment("foo")

  /** `constructor.name` of `{"constructor": {"name": "x"}}` and `__proto__.foo` of `{"__proto__": {"foo": 1}}`. */
  lemma InheritedNamesStop(h: Heap, obj: Node, inner: Node, m: Node, name: Segment, key: Segment, value: Value,
      host: Host)
    requires HeapClosed(h) && obj in h && inner in h && m in h && h[m] == Cell(false, map[]) && IsPlain(host)
    requires (name == Constructor && key == Name) || (name == Proto && key == Foo)
    requires h[obj] == Cell(false, map[name := Ref(inner)])
    requires h[inner] == Cell(false, map[key := value]) && value != Undefined
    ensures Read(h, Ref(obj), [name, key], host) == value
    ensures FieldStops(h, obj, m, [name, key], host, [Point(h, m)])
    ensures forall h', run :: !FieldStep(h, h', obj, m, [name, key], host, run)
  {
    ReadTwo(h, obj, name, key, host);
    assert "constructor" in ObjectMembers && Segment("constructor") in host.objects;
    assert [name] + [key] == [name, key];
    InheritedStops(h, obj, m, name, [key], host);
  }

  /** `{"a": {}}`, and a mask into which `a` was written: the object of the input itself. */
  ghost predicate SharesA(h: Heap, obj: Node, a: Node, m: Node, key: Segment) {
    && HeapClosed(h) && obj in h && a in h && m in h && obj != a && obj != m && a != m
    && h[obj] == Cell(false, map[key := Ref(a)]) && h[m] == Cell(false, map[key := Ref(a)])
    && h[a] == Cell(false, map[])
  }

  /** The field `a.toString` behind `a`: the inherited function becomes a member of the input. */
  lemma InheritedValueChangesInput(h: Heap, obj: Node, a: Node, m: Node, key: Segment, name: Segment, host: Host,
      h': Heap, run: seq<Point>)
    requires SharesA(h, obj, a, m, key) && name in host.objects && name != Proto
    requires FieldStep(h, h', obj, m, [key, name], host, run)
    ensures Read(h, Ref(obj), [key, name], host) == Builtin(name)
    ensures a in h' && h'[a] == Cell(false, map[name := Builtin(name)]) != h[a]
  {
    ReadTwo(h, obj, key, name, host);
    WritesTwo(run, key, name, Builtin(name), host, h');
    assert run[1] == Point(h, a);
    assert name in map[name := Builtin(name)];
  }
}
