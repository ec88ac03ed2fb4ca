/**
  Masks as partial copies of their input: what writing a found field into one keeps, and
  for which fields it does.
 */
module FieldCopies {
  import opened Wrappers
  import opened Lists
  import opened FieldPaths

  /**
    A mask over the input `h0`: `src` maps each of its own nodes to the input node
    it is a partial copy of, `place` the keys that lead to it from its root.
   */
  datatype Copy = Copy(src: map<Node, Node>, place: map<Node, seq<Segment>>)

  /** `v` stands in the mask where `w` stands in the input. */
  predicate Matches(c: Copy, v: Value, w: Value) {
    v == w || (v.Ref? && v.node in c.src && w == Ref(c.src[v.node]))
  }

  /** The input's member of a name: its own or, of an object, an inherited one. */
  function Own(h0: Heap, n: Node, k: Segment, host: Host): Value {
    if n !in h0 || (h0[n].isArray && k !in h0[n].members) then Undefined else Lookup(h0[n], k, host)
  }

  ghost predicate IsCopy(h0: Heap, h: Heap, c: Copy, host: Host) {
    && HeapClosed(h0) && HeapClosed(h)
    && c.src.Keys == c.place.Keys && c.src.Keys !! h0.Keys && h.Keys == h0.Keys + c.src.Keys
    && (forall n :: n in h0 ==> h[n] == h0[n])
    && (forall f :: f in c.src ==> NodeCopies(h0, h, c, f, host))
  }

  ghost predicate NodeCopies(h0: Heap, h: Heap, c: Copy, f: Node, host: Host)
    requires f in c.src && f in h && c.src.Keys == c.place.Keys
  {
    && c.src[f] in h0 && h[f].isArray == h0[c.src[f]].isArray
    && forall k :: k in h[f].members ==>
         && h[f].members[k] != Undefined && (k == Proto ==> h[f].isArray)
         && Matches(c, h[f].members[k], Own(h0, c.src[f], k, host))
         && (h[f].members[k].Ref? && h[f].members[k].node in c.src
           ==> c.place[h[f].members[k].node] == c.place[f] + [k])
  }

  /** Every step into the mask is a step into the input, or finds nothing but what all objects inherit. */
  lemma MemberMatches(h0: Heap, h: Heap, c: Copy, v: Value, w: Value, segment: Segment, host: Host)
    requires IsCopy(h0, h, c, host) && InHeap(h, v) && InHeap(h0, w) && Matches(c, v, w)
    ensures InHeap(h, Member(h, v, segment, host)) && InHeap(h0, Member(h0, w, segment, host))
    ensures v == w ==> Member(h, v, segment, host) == Member(h0, w, segment, host)
    ensures
      var r := Member(h, v, segment, host);
      || r == Undefined || Matches(c, r, Member(h0, w, segment, host))
      || (r == Builtin(segment) && Inherits(host, segment) && InMask(c, v))
  {
    if InMask(c, v) {
      assert NodeCopies(h0, h, c, v.node, host);
    }
  }

  predicate InMask(c: Copy, v: Value) {
    v.Ref? && v.node in c.src
  }

  /** What is read on from a value that is no node depends on no heap. */
  lemma {:induction false} ReadFlat(h: Heap, h': Heap, v: Value, path: seq<Segment>, host: Host)
    requires HeapClosed(h) && HeapClosed(h') && !v.Ref?
    ensures Read(h, v, path, host) == Read(h', v, path, host)
    ensures
      var r := Read(h, v, path, host);
      path != [] ==> r == Undefined || r.Builtin? || (r == Null && Proto in path)
    decreases |path|
  {
    if path != [] {
      ReadFlat(h, h', Member(h, v, path[0], host), path[1..], host);
      if path[1..] != [] {
        assert Proto in path[1..] ==> Proto in path;
      }
    }
  }

  /** A path that names nothing inherited reads nothing from an object's prototype. */
  predicate OwnOnly(path: seq<Segment>, host: Host) {
    forall i :: 0 <= i < |path| ==> !Inherits(host, path[i])
  }

  /**
    The mask is a sub-tree: whatever a path reads from it matches what it reads from the
    input, or is nothing of its own.
   */
  lemma {:induction false} MaskIsSubtree(h0: Heap, h: Heap, c: Copy, v: Value, w: Value, path: seq<Segment>,
      host: Host)
    requires IsCopy(h0, h, c, host) && InHeap(h, v) && InHeap(h0, w) && Matches(c, v, w)
    ensures v == w ==> Read(h, v, path, host) == Read(h0, w, path, host)
    ensures
      var r := Read(h, v, path, host);
      || r == Undefined || Matches(c, r, Read(h0, w, path, host))
      || (!OwnOnly(path, host) && (r.Builtin? || r == Null))
    decreases |path|
  {
    if path != [] {
      MemberMatches(h0, h, c, v, w, path[0], host);
      var v1, w1 := Member(h, v, path[0], host), Member(h0, w, path[0], host);
      if Matches(c, v1, w1) {
        MaskIsSubtree(h0, h, c, v1, w1, path[1..], host);
        assert OwnOnly(path, host) ==> OwnOnly(path[1..], host);
      } else {
        ReadFlat(h, h, v1, path[1..], host);
        if v1 == Undefined && |path| > 1 {
          ReadNothing(h, v1, path[1..], host);
        }
      }
    }
  }

  // --------------------------------------------------- how a mask may change

  function MembersOf(h: Heap, n: Node): map<Segment, Value> {
    if n in h then h[n].members else map[]
  }

  /** A later mask has the same nodes standing for the same ones. */
  ghost predicate Extends(c: Copy, c': Copy) {
    c.src.Keys == c.place.Keys && c'.src.Keys == c'.place.Keys
    && forall f :: f in c.src ==> f in c'.src && c'.src[f] == c.src[f] && c'.place[f] == c.place[f]
  }

  /** It keeps every member, or replaces it with the input's own value. */
  ghost predicate Refines(h0: Heap, h: Heap, c: Copy, h': Heap, host: Host) {
    forall f, k :: f in c.src && k in MembersOf(h, f) ==>
      k in MembersOf(h', f) && (MembersOf(h', f)[k] == MembersOf(h, f)[k]
        || MembersOf(h', f)[k] == Own(h0, c.src[f], k, host))
  }

  lemma RefinesTransitive(h0: Heap, h: Heap, c: Copy, h1: Heap, c1: Copy, h2: Heap, host: Host)
    requires Extends(c, c1) && Refines(h0, h, c, h1, host) && Refines(h0, h1, c1, h2, host)
    ensures Refines(h0, h, c, h2, host)
  {
    forall f, k | f in c.src && k in MembersOf(h, f)
      ensures k in MembersOf(h2, f) && (MembersOf(h2, f)[k] == MembersOf(h, f)[k]
        || MembersOf(h2, f)[k] == Own(h0, c.src[f], k, host))
    {
      assert k in MembersOf(h1, f);
    }
  }

  /** A path that reads the input's own value from the mask goes on doing so. */
  lemma {:induction false} ExactStays(h0: Heap, h: Heap, c: Copy, h': Heap, c': Copy, v: Value, w: Value,
      path: seq<Segment>, host: Host)
    requires IsCopy(h0, h, c, host) && IsCopy(h0, h', c', host) && Extends(c, c') && Refines(h0, h, c, h', host)
    requires InHeap(h, v) && InHeap(h0, w) && Matches(c, v, w)
    requires Read(h, v, path, host) == Read(h0, w, path, host) != Undefined
    ensures InHeap(h', v) && Read(h', v, path, host) == Read(h0, w, path, host)
    decreases |path|
  {
    if v == w {
      MaskIsSubtree(h0, h', c', w, w, path, host);
    } else if path != [] {
      MemberMatches(h0, h, c, v, w, path[0], host);
      var v1, w1 := Member(h, v, path[0], host), Member(h0, w, path[0], host);
      if v1 == Undefined && |path| > 1 {
        ReadNothing(h, v1, path[1..], host);
      }
      assert v1 != Undefined;
      if Matches(c, v1, w1) {
        MemberRefines(h0, h, c, h', c', v, w, path[0], host);
        if Member(h', v, path[0], host) == v1 {
          ExactStays(h0, h, c, h', c', v1, w1, path[1..], host);
        } else {
          MaskIsSubtree(h0, h', c', w1, w1, path[1..], host);
        }
      } else {
        if path[0] != Proto && |path| > 1 {
          ReadNothing(h, v1, path[1..], host);
        }
        InheritedStays(h0, h, c, h', c', v, w, path[0], host);
        ReadFlat(h, h', v1, path[1..], host);
      }
    }
  }

  lemma MemberRefines(h0: Heap, h: Heap, c: Copy, h': Heap, c': Copy, v: Value, w: Value, segment: Segment,
      host: Host)
    requires IsCopy(h0, h, c, host) && IsCopy(h0, h', c', host) && Extends(c, c') && Refines(h0, h, c, h', host)
    requires InHeap(h, v) && InHeap(h0, w) && Matches(c, v, w) && v != w
    requires Member(h, v, segment, host) != Undefined
    requires Matches(c, Member(h, v, segment, host), Member(h0, w, segment, host))
    ensures InHeap(h', v)
    ensures Member(h', v, segment, host) == Member(h, v, segment, host)
      || Member(h', v, segment, host) == Member(h0, w, segment, host)
  {
    assert NodeCopies(h0, h, c, v.node, host) && NodeCopies(h0, h', c', v.node, host);
    var k := if h[v.node].isArray then host.number(segment).value else segment;
    assert k in MembersOf(h, v.node) || Member(h, v, segment, host) == Builtin(segment);
  }

  /** A member read from the prototype is read from there, or from the mask as the input has it. */
  lemma InheritedStays(h0: Heap, h: Heap, c: Copy, h': Heap, c': Copy, v: Value, w: Value, segment: Segment,
      host: Host)
    requires IsCopy(h0, h, c, host) && IsCopy(h0, h', c', host) && Extends(c, c') && Refines(h0, h, c, h', host)
    requires InMask(c, v) && w == Ref(c.src[v.node]) && InHeap(h0, w)
    requires Member(h, v, segment, host) == Builtin(segment)
    requires segment == Proto || Member(h0, w, segment, host) == Builtin(segment)
    requires !Matches(c, Member(h, v, segment, host), Member(h0, w, segment, host))
    ensures InHeap(h', v) && Member(h', v, segment, host) == Builtin(segment)
  {
    assert NodeCopies(h0, h, c, v.node, host) && NodeCopies(h0, h', c', v.node, host);
  }

  predicate Stands(h0: Heap, c: Copy, current: Node, at: Node) {
    at in h0 && ((current in c.src && c.src[current] == at) || current == at)
  }

  // ------------------------------------------------------- what a mask may hold

  function IsPrefix(p: seq<Segment>, q: seq<Segment>): bool {
    |p| <= |q| && q[..|p|] == p
  }

  /** Of the mask's members only one may have changed. */
  ghost predicate OnlyAt(h: Heap, c: Copy, h': Heap, c': Copy, n: Node, k: Segment) {
    forall f, x :: f in c'.src && x in MembersOf(h', f) ==>
      (f == n && x == k) || (f in c.src && x in MembersOf(h, f) && MembersOf(h', f)[x] == MembersOf(h, f)[x])
  }

  /** Every new or changed member of the mask lies on the path; only at its end may it be an input's value. */
  ghost predicate Along(h: Heap, c: Copy, h': Heap, c': Copy, path: seq<Segment>) {
    c'.src.Keys == c'.place.Keys &&
    forall f, x :: f in c'.src && x in MembersOf(h', f) ==>
      || (f in c.src && x in MembersOf(h, f) && MembersOf(h', f)[x] == MembersOf(h, f)[x])
      || OnPath(c', f, x, MembersOf(h', f)[x], path)
  }

  ghost predicate OnPath(c: Copy, f: Node, x: Segment, v: Value, path: seq<Segment>)
    requires f in c.place
  {
    IsPrefix(c.place[f] + [x], path) && (InMask(c, v) || c.place[f] + [x] == path)
  }

  lemma AlongTransitive(h: Heap, c: Copy, h1: Heap, c1: Copy, h2: Heap, c2: Copy, path: seq<Segment>)
    requires Along(h, c, h1, c1, path) && Along(h1, c1, h2, c2, path) && Extends(c1, c2)
    ensures Along(h, c, h2, c2, path)
  {
    forall f, x | f in c2.src && x in MembersOf(h2, f)
      ensures || (f in c.src && x in MembersOf(h, f) && MembersOf(h2, f)[x] == MembersOf(h, f)[x])
              || OnPath(c2, f, x, MembersOf(h2, f)[x], path)
    {
      if f in c1.src && x in MembersOf(h1, f) && MembersOf(h2, f)[x] == MembersOf(h1, f)[x] {
        assert c2.place[f] == c1.place[f];
      }
    }
  }

  /** One step at the next segment of the path. */
  lemma AlongStep(h: Heap, c: Copy, h': Heap, c': Copy, n: Node, path: seq<Segment>, j: nat)
    requires c'.src.Keys == c'.place.Keys && j < |path| && OnlyAt(h, c, h', c', n, path[j])
    requires n in c'.src && path[j] in MembersOf(h', n) ==>
               || (n in c.src && path[j] in MembersOf(h, n) && MembersOf(h', n)[path[j]] == MembersOf(h, n)[path[j]])
               || (c'.place[n] == path[..j] && (InMask(c', MembersOf(h', n)[path[j]]) || j + 1 == |path|))
    ensures Along(h, c, h', c', path)
  {
    Prefix(path, j);
    assert j + 1 == |path| ==> path[..j + 1] == path;
  }

  /** A node of the mask with one more member, the input's own, among the others. */
  lemma MemberCopies(h0: Heap, h: Heap, c: Copy, f: Node, k: Segment, v: Value, g: Node, host: Host)
    requires IsCopy(h0, h, c, host) && f in c.src && (k == Proto ==> h[f].isArray) && g in c.src
    requires v != Undefined && v == Own(h0, c.src[f], k, host) && InHeap(h0, v)
    ensures NodeCopies(h0, WithMember(h, f, k, v), c, g, host)
  {
    assert NodeCopies(h0, h, c, g, host);
  }

  /** Giving a node of the mask one more member, the input's own. */
  lemma AddMember(h0: Heap, h: Heap, c: Copy, f: Node, k: Segment, v: Value, host: Host)
    requires IsCopy(h0, h, c, host) && f in c.src && (k == Proto ==> h[f].isArray)
    requires v != Undefined && v == Own(h0, c.src[f], k, host)
    ensures IsCopy(h0, WithMember(h, f, k, v), c, host)
  {
    assert NodeCopies(h0, h, c, f, host);
    forall g | g in c.src
      ensures NodeCopies(h0, WithMember(h, f, k, v), c, g, host)
    {
      MemberCopies(h0, h, c, f, k, v, g, host);
    }
  }

  lemma AddMemberRefines(h0: Heap, h: Heap, c: Copy, f: Node, k: Segment, v: Value, host: Host)
    requires f in h && f in c.src && v == Own(h0, c.src[f], k, host)
    ensures Refines(h0, h, c, WithMember(h, f, k, v), host) && OnlyAt(h, c, WithMember(h, f, k, v), c, f, k)
  {
  }

  /** The copies once `child` stands for `at`. */
  function WithCopy(c: Copy, f: Node, k: Segment, child: Node, at: Node): Copy
    requires f in c.place
  {
    Copy(c.src[child := at], c.place[child := c.place[f] + [k]])
  }

  /** A node that did not change is still a partial copy among more copies. */
  lemma UnchangedCopies(h0: Heap, h: Heap, c: Copy, h': Heap, c': Copy, g: Node, host: Host)
    requires IsCopy(h0, h, c, host) && Extends(c, c') && g in c.src && g in h' && h'[g] == h[g]
    requires forall n :: n in c'.src && n !in c.src ==> n !in h
    ensures NodeCopies(h0, h', c', g, host)
  {
    assert NodeCopies(h0, h, c, g, host);
  }

  lemma ChildCopies(h0: Heap, h: Heap, c: Copy, f: Node, k: Segment, child: Node, at: Node, host: Host)
    requires IsCopy(h0, h, c, host) && f in c.src && child !in h && at in h0 && (k == Proto ==> h[f].isArray)
    requires Own(h0, c.src[f], k, host) == Ref(at)
    ensures NodeCopies(h0, WithChild(h, f, k, child, h0[at].isArray), WithCopy(c, f, k, child, at), f, host)
  {
    assert NodeCopies(h0, h, c, f, host);
  }

  lemma ChildHeap(h0: Heap, h: Heap, c: Copy, f: Node, k: Segment, child: Node, at: Node, host: Host)
    requires IsCopy(h0, h, c, host) && f in c.src && child !in h && at in h0
    ensures
      var h', c' := WithChild(h, f, k, child, h0[at].isArray), WithCopy(c, f, k, child, at);
      && HeapClosed(h') && c'.src.Keys == c'.place.Keys && c'.src.Keys !! h0.Keys && h'.Keys == h0.Keys + c'.src.Keys
      && (forall n :: n in h0 ==> h'[n] == h0[n]) && Extends(c, c')
  {
    ChildClosed(h, f, k, child, h0[at].isArray);
  }

  /** The child itself is an empty copy. */
  lemma ChildIsCopy(h0: Heap, h: Heap, c: Copy, f: Node, k: Segment, child: Node, at: Node, host: Host)
    requires IsCopy(h0, h, c, host) && f in c.src && child !in h && at in h0
    ensures NodeCopies(h0, WithChild(h, f, k, child, h0[at].isArray), WithCopy(c, f, k, child, at), child, host)
  {
  }

  /** Giving a node of the mask a fresh child for a member it lacked. */
  lemma AddChild(h0: Heap, h: Heap, c: Copy, f: Node, k: Segment, child: Node, at: Node, host: Host)
    requires IsCopy(h0, h, c, host) && f in c.src && child !in h && at in h0 && (k == Proto ==> h[f].isArray)
    requires Own(h0, c.src[f], k, host) == Ref(at)
    ensures
      var h', c' := WithChild(h, f, k, child, h0[at].isArray), WithCopy(c, f, k, child, at);
      IsCopy(h0, h', c', host) && Extends(c, c')
  {
    var h', c' := WithChild(h, f, k, child, h0[at].isArray), WithCopy(c, f, k, child, at);
    ChildHeap(h0, h, c, f, k, child, at, host);
    ChildIsCopy(h0, h, c, f, k, child, at, host);
    forall g | g in c'.src
      ensures NodeCopies(h0, h', c', g, host)
    {
      if g == f {
        ChildCopies(h0, h, c, f, k, child, at, host);
      } else if g != child {
        UnchangedCopies(h0, h, c, h', c', g, host);
      }
    }
  }

  lemma AddChildRefines(h0: Heap, h: Heap, c: Copy, f: Node, k: Segment, child: Node, at: Node, isArray: bool,
      host: Host)
    requires f in h && f in c.place && c.src.Keys <= h.Keys && k !in h[f].members && child !in h
    ensures
      var h', c' := WithChild(h, f, k, child, isArray), WithCopy(c, f, k, child, at);
      Refines(h0, h, c, h', host) && OnlyAt(h, c, h', c', f, k)
  {
    var h' := WithChild(h, f, k, child, isArray);
    assert MembersOf(h', child) == map[];
    assert forall n :: n in h && n != f ==> MembersOf(h', n) == MembersOf(h, n);
  }

  // --------------------------------------------------------- the fields that fit

  /**
    The path can be written from `at` on into an empty mask: as long as it goes on, each
    array segment is its own key and each object segment a name that objects do not
    inherit; the object or array it goes on in is an array exactly when the next segment
    is made of digits; and the last segment of an object is not `__proto__`.
   */
  predicate Fits(h: Heap, at: Node, path: seq<Segment>, host: Host)
    requires at in h && path != [] && HeapClosed(h)
    decreases |path|
  {
    if |path| == 1 then h[at].isArray || path[0] != Proto
    else
      && OwnKey(h[at], path[0], host)
      && var v := Member(h, Ref(at), path[0], host);
         v.Ref? && h[v.node].isArray == IsDigits(path[1].text) && Fits(h, v.node, path[1..], host)
  }

  /** The segment names a member under which `setByPath` and `getByPath` find the same thing. */
  predicate OwnKey(c: Cell, segment: Segment, host: Host) {
    if c.isArray then host.number(segment) == Some(segment) else !Inherits(host, segment)
  }

  /** The keys that a path leads along. */
  function KeysOf(h: Heap, v: Value, path: seq<Segment>, host: Host): (keys: seq<Segment>)
    requires HeapClosed(h) && (v.Ref? ==> v.node in h)
    ensures |keys| == |path|
    decreases |path|
  {
    if path == [] then []
    else [KeyOf(h, v, path[0], host)] + KeysOf(h, Member(h, v, path[0], host), path[1..], host)
  }

  /** The key of a segment: of an array the number it is read as. */
  function KeyOf(h: Heap, v: Value, segment: Segment, host: Host): Segment
    requires v.Ref? ==> v.node in h
  {
    if v.Ref? && h[v.node].isArray && host.number(segment).Some? then host.number(segment).value else segment
  }

  // ------------------------------------------------------- writing a found field

  /** An empty node of the mask. */
  predicate IsBlank(c: Copy, p: Point) {
    p.node in p.h && p.h[p.node].members == map[] && p.node in c.src
  }

  /**
    What a walk has to go on with: it stands for the place where the input has the value.
    An inherited value must not be put into the input itself.
   */
  ghost predicate Found(h0: Heap, c: Copy, p: Point, at: Node, path: seq<Segment>, value: Value, host: Host)
    requires path != []
  {
    && IsCopy(h0, p.h, c, host) && Stands(h0, c, p.node, at) && Fits(h0, at, path, host)
    && (h0[at].isArray ==> IsDigits(path[0].text))
    && Read(h0, Ref(at), path, host) == value != Undefined && (value.Builtin? ==> IsBlank(c, p))
  }

  /** What every step keeps. */
  ghost predicate Kept(h0: Heap, h1: Heap, c1: Copy, h: Heap, c: Copy, host: Host) {
    IsCopy(h0, h, c, host) && Extends(c1, c) && Refines(h0, h1, c1, h, host)
  }

  /** A member that a mask or input node has stands for the input's. */
  lemma ChildStands(h0: Heap, c: Copy, p: Point, at: Node, path: seq<Segment>, value: Value, host: Host)
    requires |path| >= 2 && Found(h0, c, p, at, path, value, host)
    ensures p.node in p.h && (p.node in h0 ==> p.node == at && p.h[at] == h0[at])
    ensures Member(h0, Ref(at), path[0], host) == Own(h0, at, path[0], host)
    ensures Own(h0, at, path[0], host).Ref? && KeyOf(h0, Ref(at), path[0], host) == path[0] != Proto
    ensures
      var v, w := Lookup(p.h[p.node], path[0], host), Own(h0, at, path[0], host);
      if path[0] in p.h[p.node].members then
        && v == p.h[p.node].members[path[0]] && v.Ref? && Stands(h0, c, v.node, w.node)
        && (p.node in c.src && v.node in c.src ==> c.place[v.node] == c.place[p.node] + [path[0]])
        && (p.node in h0 ==> v == w)
      else p.node in c.src && v == Undefined
  {
    ProtoIsNoIndex();
    if p.node in c.src {
      assert NodeCopies(h0, p.h, c, p.node, host);
    }
  }

  /** A found field that fits does not get stuck. */
  lemma NotStuck(h0: Heap, c: Copy, p: Point, at: Node, path: seq<Segment>, value: Value, host: Host)
    requires path != [] && Found(h0, c, p, at, path, value, host)
    ensures !Stuck(p, path, value, host)
  {
    if |path| >= 2 {
      ChildStands(h0, c, p, at, path, value, host);
    } else if p.node in c.src {
      assert NodeCopies(h0, p.h, c, p.node, host);
    }
  }

  /** One step: the child, made if the mask lacks it, stands for the input's. */
  lemma StepKept(h0: Heap, c: Copy, p: Point, q: Point, at: Node, path: seq<Segment>, value: Value, host: Host)
    returns (at': Node, c': Copy)
    requires |path| >= 2 && Found(h0, c, p, at, path, value, host) && Steps(p, q, path[0], path[1], host)
    ensures Found(h0, c', q, at', path[1..], value, host) && Ref(at') == Member(h0, Ref(at), path[0], host)
    ensures Kept(h0, p.h, c, q.h, c', host)
    ensures p.node in h0 ==> q.h == p.h && c' == c && q.node in h0
    ensures p.node in c.src ==>
      && path[0] in MembersOf(q.h, p.node) && MembersOf(q.h, p.node)[path[0]] == Ref(q.node)
      && OnlyAt(p.h, c, q.h, c', p.node, path[0])
      && (if q.node in c'.src then c'.place[q.node] == c.place[p.node] + [path[0]] else q.h == p.h && c' == c)
  {
    ChildStands(h0, c, p, at, path, value, host);
    at', c' := Own(h0, at, path[0], host).node, c;
    assert path[1..][0] == path[1];
    if path[0] !in p.h[p.node].members {
      c' := WithCopy(c, p.node, path[0], q.node, at');
      AddChild(h0, p.h, c, p.node, path[0], q.node, at', host);
      AddChildRefines(h0, p.h, c, p.node, path[0], q.node, at', h0[at'].isArray, host);
    }
  }

  /** The key of the last assignment is the one the value is read from. */
  lemma LastKey(h0: Heap, c: Copy, p: Point, at: Node, last: Segment, value: Value, host: Host)
    requires Found(h0, c, p, at, [last], value, host)
    ensures p.node in p.h && p.h[p.node].isArray == h0[at].isArray && InHeap(h0, value)
    ensures
      var key := KeyOf(h0, Ref(at), last, host);
      && PutAt(p, last, value, host) == Some(WithMember(p.h, p.node, key, value))
      && Own(h0, at, key, host) == value && (key == Proto && p.node in c.src ==> p.h[p.node].isArray)
      && (h0[at].isArray ==> host.number(last) == Some(key))
  {
    assert Read(h0, Ref(at), [last], host) == Member(h0, Ref(at), last, host);
    if p.node in c.src {
      assert NodeCopies(h0, p.h, c, p.node, host);
    }
  }

  lemma PutInInput(h0: Heap, c: Copy, p: Point, at: Node, last: Segment, value: Value, host: Host)
    requires Found(h0, c, p, at, [last], value, host) && p.node !in c.src
    ensures p.node == at && p.h[at] == h0[at]
    ensures WithMember(p.h, p.node, KeyOf(h0, Ref(at), last, host), value) == p.h
  {
    LastKey(h0, c, p, at, last, value, host);
    var members, key := h0[at].members, KeyOf(h0, Ref(at), last, host);
    assert key in members && members[key] == value;
    assert members[key := value] == members;
  }

  /** The last assignment puts in the input's value. */
  lemma PutKept(h0: Heap, c: Copy, p: Point, at: Node, last: Segment, value: Value, host: Host, after: Heap)
    requires Found(h0, c, p, at, [last], value, host) && PutAt(p, last, value, host) == Some(after)
    ensures Kept(h0, p.h, c, after, c, host)
    ensures p.node in h0 ==> after == p.h
    ensures OnlyAt(p.h, c, after, c, p.node, KeyOf(h0, Ref(at), last, host))
    ensures p.node in after && Member(after, Ref(p.node), last, host) == value
  {
    LastKey(h0, c, p, at, last, value, host);
    var key := KeyOf(h0, Ref(at), last, host);
    if p.node in c.src {
      AddMember(h0, p.h, c, p.node, key, value, host);
      AddMemberRefines(h0, p.h, c, p.node, key, value, host);
    } else {
      PutInInput(h0, c, p, at, last, value, host);
    }
  }

  /** After the rest of the walk the node still leads to the value. */
  lemma StepReads(h0: Heap, c: Copy, p: Point, q: Point, at: Node, at': Node, path: seq<Segment>, value: Value,
      host: Host, c1: Copy, after: Heap, c': Copy)
    requires |path| >= 2 && Found(h0, c, p, at, path, value, host) && p.node in c.src
    requires Extends(c, c1) && Kept(h0, q.h, c1, after, c', host) && at' in h0 && q.node in after
    requires Ref(at') == Member(h0, Ref(at), path[0], host) && Read(h0, Ref(at'), path[1..], host) == value
    requires path[0] in MembersOf(q.h, p.node) && MembersOf(q.h, p.node)[path[0]] == Ref(q.node)
    requires Read(after, Ref(q.node), path[1..], host) == value
    ensures Read(after, Ref(p.node), path, host) == value
  {
    ChildStands(h0, c, p, at, path, value, host);
    assert NodeCopies(h0, p.h, c, p.node, host) && NodeCopies(h0, after, c', p.node, host);
    assert path[0] in MembersOf(after, p.node);
    assert Member(after, Ref(p.node), path[0], host) == MembersOf(after, p.node)[path[0]];
    MaskIsSubtree(h0, after, c', Ref(at'), Ref(at'), path[1..], host);
  }

  /** Where the walk changes the mask: along the keys of its path. */
  lemma StepAlong(h0: Heap, c: Copy, p: Point, q: Point, at: Node, at': Node, path: seq<Segment>, value: Value,
      host: Host, c1: Copy, after: Heap, c': Copy)
    requires |path| >= 2 && Found(h0, c, p, at, path, value, host) && p.node in c.src && at' in h0
    requires Kept(h0, p.h, c, q.h, c1, host) && Kept(h0, q.h, c1, after, c', host)
    requires Ref(at') == Member(h0, Ref(at), path[0], host) && OnlyAt(p.h, c, q.h, c1, p.node, path[0])
    requires path[0] in MembersOf(q.h, p.node) && MembersOf(q.h, p.node)[path[0]] == Ref(q.node)
    requires
      if q.node in c1.src then
        && c1.place[q.node] == c.place[p.node] + [path[0]]
        && Along(q.h, c1, after, c', c1.place[q.node] + KeysOf(h0, Ref(at'), path[1..], host))
      else q.h == p.h && c1 == c && after == q.h && c' == c1
    ensures Along(p.h, c, after, c', c.place[p.node] + KeysOf(h0, Ref(at), path, host))
  {
    if q.node in c1.src {
      ChildStands(h0, c, p, at, path, value, host);
      var pre, keys := c.place[p.node], KeysOf(h0, Ref(at'), path[1..], host);
      var all := pre + KeysOf(h0, Ref(at), path, host);
      Associative(pre, [path[0]], keys);
      assert all[|pre|] == path[0] && all[..|pre|] == pre;
      AlongStep(p.h, c, q.h, c1, p.node, all, |pre|);
      AlongTransitive(p.h, c, q.h, c1, after, c', all);
    }
  }

  /**
    Writing the value of a field that fits keeps the mask a partial copy, changes it only
    along the field, leaves the input as it was, and the field then reads that value.
   */
  lemma {:induction false} WalkKept(h0: Heap, c: Copy, run: seq<Point>, at: Node, path: seq<Segment>, value: Value,
      host: Host, after: Heap)
    returns (c': Copy)
    requires Writes(run, path, value, host, after) && Found(h0, c, run[0], at, path, value, host)
    ensures Kept(h0, run[0].h, c, after, c', host)
    ensures run[0].node in h0 ==> after == run[0].h && c' == c
    ensures run[0].node in c.src ==>
      Along(run[0].h, c, after, c', c.place[run[0].node] + KeysOf(h0, Ref(at), path, host))
    ensures run[0].node in after && Read(after, Ref(run[0].node), path, host) == value
    decreases |path|
  {
    var p := run[0];
    if |path| == 1 {
      c' := c;
      LastWritten(h0, c, p, at, path, value, host, after);
    } else {
      var at', c1 := StepKept(h0, c, p, run[1], at, path, value, host);
      assert run[1..][0] == run[1];
      c' := WalkKept(h0, c1, run[1..], at', path[1..], value, host, after);
      RefinesTransitive(h0, p.h, c, run[1].h, c1, after, host);
      if p.node in c.src {
        StepReads(h0, c, p, run[1], at, at', path, value, host, c1, after, c');
        StepAlong(h0, c, p, run[1], at, at', path, value, host, c1, after, c');
      }
    }
  }

  lemma LastWritten(h0: Heap, c: Copy, p: Point, at: Node, path: seq<Segment>, value: Value, host: Host, after: Heap)
    requires |path| == 1 && Found(h0, c, p, at, path, value, host) && PutAt(p, path[0], value, host) == Some(after)
    ensures Kept(h0, p.h, c, after, c, host)
    ensures p.node in h0 ==> after == p.h
    ensures p.node in c.src ==> Along(p.h, c, after, c, c.place[p.node] + KeysOf(h0, Ref(at), path, host))
    ensures p.node in after && Read(after, Ref(p.node), path, host) == value
  {
    assert path == [path[0]];
    PutKept(h0, c, p, at, path[0], value, host, after);
    if p.node in c.src {
      var pre, keys := c.place[p.node], KeysOf(h0, Ref(at), path, host);
      assert (pre + keys)[|pre|] == KeyOf(h0, Ref(at), path[0], host) && (pre + keys)[..|pre|] == pre;
      AlongStep(p.h, c, after, c, p.node, pre + keys, |pre|);
    }
  }

  /** A found field that fits is written to the end. */
  lemma {:induction false} FittingDoesNotStop(h0: Heap, c: Copy, run: seq<Point>, at: Node, path: seq<Segment>,
      value: Value, host: Host)
    requires path != [] && run != [] && Found(h0, c, run[0], at, path, value, host)
    ensures !Stops(run, path, value, host)
    decreases |path|
  {
    if Stops(run, path, value, host) {
      NotStuck(h0, c, run[0], at, path, value, host);
      var at', c1 := StepKept(h0, c, run[0], run[1], at, path, value, host);
      FittingDoesNotStop(h0, c1, run[1..], at', path[1..], value, host);
    }
  }

  // ------------------------------------------------------------ one found field

  /** No array of the input has a member under a name that is read as another. */
  ghost predicate Indexed(h: Heap, host: Host) {
    forall n, k :: n in h && h[n].isArray && k in h[n].members ==> host.number(k) == Some(k)
  }

  /** A mask with nothing in it yet. */
  ghost predicate StartsBlank(h0: Heap, run: seq<Point>, m: Node) {
    m !in h0 && run != [] && run[0] == Point(h0[m := Cell(false, map[])], m)
  }

  /** The written heap is a partial copy of `obj` with `m` at its root. */
  ghost predicate Copies(h0: Heap, after: Heap, c: Copy, m: Node, obj: Node, host: Host) {
    IsCopy(h0, after, c, host) && m in c.src && c.src[m] == obj && c.place[m] == []
  }

  /** A walk below an empty node of the mask changes nothing outside. */
  lemma {:induction false} WritesBelow(run: seq<Point>, path: seq<Segment>, value: Value, host: Host, after: Heap)
    requires Writes(run, path, value, host, after) && run[0].h[run[0].node].members == map[]
    ensures forall n :: n in run[0].h && n != run[0].node ==> n in after && after[n] == run[0].h[n]
    ensures run[0].node in after && after[run[0].node].isArray == run[0].h[run[0].node].isArray
    decreases |path|
  {
    if |path| > 1 {
      WritesBelow(run[1..], path[1..], value, host, after);
    }
  }

  /** An empty node gets the next one as its only member. */
  lemma BlankStep(run: seq<Point>, path: seq<Segment>, value: Value, host: Host, after: Heap)
    requires |path| >= 2 && Writes(run, path, value, host, after) && run[0].h[run[0].node].members == map[]
    ensures
      var p, q := run[0], run[1];
      && q.node !in p.h && q.node in q.h && q.h[q.node] == Cell(IsDigits(path[1].text), map[])
      && (forall n :: n in p.h ==> n in q.h)
      && p.node in after && path[0] in after[p.node].members && after[p.node].members[path[0]] == Ref(q.node)
      && Lookup(p.h[p.node], path[0], host) == Undefined
      && q.node in after && after[q.node].isArray == IsDigits(path[1].text)
  {
    assert run[1..][0] == run[1];
    WritesBelow(run[1..], path[1..], value, host, after);
  }

  /** Of a partial copy written by one walk the path fits. */
  lemma {:induction false} CopyFits(h0: Heap, run: seq<Point>, at: Node, path: seq<Segment>, value: Value,
      host: Host, after: Heap, c: Copy)
    requires Writes(run, path, value, host, after) && run[0].h[run[0].node].members == map[]
    requires IsCopy(h0, after, c, host) && Indexed(h0, host) && (forall n :: n in h0 ==> n in run[0].h)
    requires run[0].node in c.src && c.src[run[0].node] == at
    requires run[0].h[run[0].node].isArray == h0[at].isArray
    ensures Fits(h0, at, path, host)
    decreases |path|
  {
    if |path| > 1 {
      BlankStep(run, path, value, host, after);
      CopyStep(h0, run[0], run[1], at, path, host, after, c);
      assert run[1..][0] == run[1] && path[1..][0] == path[1];
      CopyFits(h0, run[1..], c.src[run[1].node], path[1..], value, host, after, c);
    }
  }

  /** In a partial copy a new child stands for the input's own member. */
  lemma CopyStep(h0: Heap, p: Point, q: Point, at: Node, path: seq<Segment>, host: Host, after: Heap, c: Copy)
    requires |path| >= 2 && p.node in p.h && q.node in after && q.node !in h0
    requires IsCopy(h0, after, c, host) && Indexed(h0, host) && p.node in c.src && c.src[p.node] == at
    requires p.h[p.node].members == map[] && p.h[p.node].isArray == h0[at].isArray
    requires Lookup(p.h[p.node], path[0], host) == Undefined
    requires path[0] in after[p.node].members && after[p.node].members[path[0]] == Ref(q.node)
    requires after[q.node].isArray == IsDigits(path[1].text)
    ensures OwnKey(h0[at], path[0], host) && q.node in c.src && c.src[q.node] in h0
    ensures Member(h0, Ref(at), path[0], host) == Ref(c.src[q.node])
    ensures h0[c.src[q.node]].isArray == IsDigits(path[1].text)
  {
    assert NodeCopies(h0, after, c, p.node, host);
    assert InHeap(h0, Own(h0, at, path[0], host));
    assert NodeCopies(h0, after, c, q.node, host);
  }

  lemma BlankIsCopy(h0: Heap, m: Node, obj: Node, host: Host)
    requires HeapClosed(h0) && m !in h0 && obj in h0 && !h0[obj].isArray
    ensures Copies(h0, h0[m := Cell(false, map[])], Copy(map[m := obj], map[m := []]), m, obj, host)
  {
  }

  /**
    One found field: the code writes it into an empty mask, and the mask is a partial copy
    of the input, if and only if the field fits.
   */
  lemma OneFieldIff(h0: Heap, obj: Node, path: Path, host: Host, m: Node, run: seq<Point>, after: Heap)
    requires HeapClosed(h0) && obj in h0 && !h0[obj].isArray && Indexed(h0, host) && StartsBlank(h0, run, m)
    requires Read(h0, Ref(obj), path, host) != Undefined
    requires
      var value := Read(h0, Ref(obj), path, host);
      Writes(run, path, value, host, after) || Stops(run, path, value, host)
    ensures
      var value := Read(h0, Ref(obj), path, host);
      Fits(h0, obj, path, host) <==>
        Writes(run, path, value, host, after) && exists c :: Copies(h0, after, c, m, obj, host)
    ensures Fits(h0, obj, path, host) ==>
      HeapClosed(after) && m in after && Read(after, Ref(m), path, host) == Read(h0, Ref(obj), path, host)
  {
    var value, c := Read(h0, Ref(obj), path, host), Copy(map[m := obj], map[m := []]);
    BlankIsCopy(h0, m, obj, host);
    if Fits(h0, obj, path, host) {
      assert Found(h0, c, run[0], obj, path, value, host);
      FittingDoesNotStop(h0, c, run, obj, path, value, host);
      var c' := WalkKept(h0, c, run, obj, path, value, host, after);
      assert Copies(h0, after, c', m, obj, host);
    } else if Writes(run, path, value, host, after) {
      forall c: Copy | Copies(h0, after, c, m, obj, host)
        ensures false
      {
        CopyFits(h0, run, obj, path, value, host, after, c);
      }
    }
  }
}
