/**
  Dotted paths through responses: walking one, and writing a value at one, with every
  member that objects and arrays inherit.

  Objects and arrays are heap nodes, an array's members keyed by the index as text.
  Lemmas are stated over snapshots of the heap (`Heap`).
 */
module FieldPaths {
  import opened Wrappers

  /** A property name or path segment. */
  datatype Segment = Segment(text: string)

  /** The name under which an object reads its prototype, and the one name whose assignment may set no member. */
  const Proto := Segment("__proto__")

  /** `Builtin` is an inherited function, or under the name `Proto` the prototype that plain objects share. */
  datatype Value = Undefined | Null | Leaf(text: string) | Builtin(name: Segment) | Ref(node: Node)

  class Node {
    const isArray: bool
    var members: map<Segment, Value>

    constructor (isArray: bool)
      ensures this.isArray == isArray && members == map[]
    {
      this.isArray := isArray;
      members := map[];
    }
  }

  /** The segments of a dotted path; `split` never gives none. */
  type Path = p: seq<Segment> | |p| > 0 witness [Segment("")]

  /**
    The engine: `Number(segment)` as a key (none for NaN), and the names that plain
    objects and arrays inherit, with `length` among those of arrays.
   */
  datatype Engine = Engine(number: Segment -> Option<Segment>, objects: set<Segment>, arrays: set<Segment>)

  /** No array inherits an index. */
  type Host = e: Engine | (forall s :: s in e.arrays ==> !IsDigits(s.text))
    witness Engine((s: Segment) => None, {}, {})

  predicate IsDigits(s: string) {
    |s| > 0 && forall i :: 0 <= i < |s| ==> '0' <= s[i] <= '9'
  }

  lemma ProtoIsNoIndex()
    ensures !IsDigits(Proto.text)
  {
    assert Proto.text[0] == '_';
  }

  // -------------------------------------------------------------- snapshots

  datatype Cell = Cell(isArray: bool, members: map<Segment, Value>)

  type Heap = map<Node, Cell>

  ghost function Snapshot(nodes: set<Node>): Heap
    reads nodes
  {
    map n | n in nodes :: Cell(n.isArray, n.members)
  }

  predicate HeapClosed(h: Heap) {
    forall n, k :: n in h && k in h[n].members && h[n].members[k].Ref? ==> h[n].members[k].node in h
  }

  ghost predicate InHeap(h: Heap, v: Value) {
    v.Ref? ==> v.node in h
  }

  /** A name that every plain object has a member of. */
  predicate Inherits(host: Host, k: Segment) {
    k == Proto || k in host.objects
  }

  /** The property `k` of an object or array, its own or inherited. */
  function Lookup(c: Cell, k: Segment, host: Host): Value {
    if k in c.members then c.members[k]
    else if (if c.isArray then k == Proto || k in host.arrays else Inherits(host, k)) then Builtin(k)
    else Undefined
  }

  /** One step of `getByPath`. An inherited function is no object; the shared prototype is one. */
  function Member(h: Heap, v: Value, segment: Segment, host: Host): Value
    requires v.Ref? ==> v.node in h
  {
    match v
    case Ref(n) =>
      if h[n].isArray then
        match host.number(segment)
        case None => Undefined
        case Some(k) => if k in h[n].members then h[n].members[k] else Undefined
      else Lookup(h[n], segment, host)
    case Builtin(name) =>
      if name != Proto then Undefined
      else if segment == Proto then Null
      else if segment in host.objects then Builtin(segment)
      else Undefined
    case _ => Undefined
  }

  function Read(h: Heap, v: Value, path: seq<Segment>, host: Host): Value
    requires HeapClosed(h) && (v.Ref? ==> v.node in h)
    decreases |path|
  {
    if path == [] then v else Read(h, Member(h, v, path[0], host), path[1..], host)
  }

  /** A value that no path goes on from. */
  predicate IsEnd(v: Value) {
    !v.Ref? && v != Builtin(Proto)
  }

  /** Reading on from a value that is not an object finds nothing. */
  lemma {:induction false} ReadNothing(h: Heap, v: Value, path: seq<Segment>, host: Host)
    requires HeapClosed(h) && IsEnd(v) && path != []
    ensures Read(h, v, path, host) == Undefined
    decreases |path|
  {
    if |path| > 1 {
      ReadNothing(h, Undefined, path[1..], host);
    }
  }

  // -------------------------------------------------------------- writing a path

  /** Where `setByPath` stands. */
  datatype Point = Point(h: Heap, node: Node)

  function WithMember(h: Heap, n: Node, k: Segment, v: Value): Heap
    requires n in h
  {
    h[n := h[n].(members := h[n].members[k := v])]
  }

  /** An empty object or array becomes a member. */
  function WithChild(h: Heap, n: Node, k: Segment, child: Node, isArray: bool): Heap
    requires n in h && child !in h
  {
    WithMember(h, n, k, Ref(child))[child := Cell(isArray, map[])]
  }

  /** One turn of the loop: into the member that is there, or into a new one for the next segment. */
  ghost predicate Steps(p: Point, q: Point, segment: Segment, next: Segment, host: Host) {
    && p.node in p.h
    && match Lookup(p.h[p.node], segment, host)
       case Ref(n) => q == Point(p.h, n)
       case Undefined =>
         q.node !in p.h && q.h == WithChild(p.h, p.node, segment, q.node, IsDigits(next.text))
       case Null =>
         q.node !in p.h && q.h == WithChild(p.h, p.node, segment, q.node, IsDigits(next.text))
       case _ => false
  }

  /**
    The last assignment; on an array the segment is turned into an index. None when it
    does not set a member: an object without a member `__proto__` takes it as its prototype.
   */
  function PutAt(p: Point, last: Segment, value: Value, host: Host): Option<Heap>
    requires p.node in p.h
  {
    if p.h[p.node].isArray then
      var key := match host.number(last) case None => Segment("NaN") case Some(k) => k;
      Some(WithMember(p.h, p.node, key, value))
    else if last == Proto && Proto !in p.h[p.node].members then None
    else Some(WithMember(p.h, p.node, last, value))
  }

  /** The points of a whole walk from `run[0]`, and the heap after its last assignment. */
  ghost predicate Writes(run: seq<Point>, path: seq<Segment>, value: Value, host: Host, after: Heap)
    decreases |path|
  {
    && |run| == |path| > 0 && run[0].node in run[0].h
    && if |path| == 1 then PutAt(run[0], path[0], value, host) == Some(after)
       else Steps(run[0], run[1], path[0], path[1], host) && Writes(run[1..], path[1..], value, host, after)
  }

  /** The next assignment would not be to the mask: it throws, or changes what all objects share. */
  ghost predicate Stuck(p: Point, path: seq<Segment>, value: Value, host: Host)
    requires path != []
  {
    && p.node in p.h
    && if |path| == 1 then PutAt(p, path[0], value, host) == None
       else var v := Lookup(p.h[p.node], path[0], host); v.Leaf? || v.Builtin?
  }

  /** A walk that gets stuck at its last point. */
  ghost predicate Stops(run: seq<Point>, path: seq<Segment>, value: Value, host: Host)
    decreases |path|
  {
    && 0 < |run| <= |path| && run[0].node in run[0].h
    && if |run| == 1 then Stuck(run[0], path, value, host)
       else Steps(run[0], run[1], path[0], path[1], host) && Stops(run[1..], path[1..], value, host)
  }

  /** A walk does one or the other. */
  lemma {:induction false} StopsIsNotWrites(run: seq<Point>, path: seq<Segment>, value: Value, host: Host, after: Heap)
    requires Stops(run, path, value, host)
    ensures !Writes(run, path, value, host, after)
    decreases |path|
  {
    if |path| > 1 && |run| > 1 {
      StopsIsNotWrites(run[1..], path[1..], value, host, after);
    }
  }

  /** The turns taken one after the other. */
  ghost predicate Stepping(run: seq<Point>, path: seq<Segment>, host: Host) {
    && 0 < |run| <= |path|
    && forall j :: 0 <= j < |run| - 1 ==> Steps(run[j], run[j + 1], path[j], path[j + 1], host)
  }

  lemma SteppingTail(run: seq<Point>, path: seq<Segment>, host: Host)
    requires Stepping(run, path, host) && |run| > 1
    ensures Stepping(run[1..], path[1..], host) && Steps(run[0], run[1], path[0], path[1], host)
    ensures run[1..][|run| - 2] == run[|run| - 1] && path[1..][|run| - 2..] == path[|run| - 1..]
  {
    forall j | 0 <= j < |run| - 2
      ensures Steps(run[1..][j], run[1..][j + 1], path[1..][j], path[1..][j + 1], host)
    {
      assert Steps(run[j + 1], run[j + 2], path[j + 1], path[j + 2], host);
    }
    assert Steps(run[0], run[0 + 1], path[0], path[0 + 1], host);
  }

  lemma {:induction false} SteppingWrites(run: seq<Point>, path: seq<Segment>, value: Value, host: Host, after: Heap)
    requires Stepping(run, path, host) && |run| == |path| && run[|run| - 1].node in run[|run| - 1].h
    requires PutAt(run[|run| - 1], path[|path| - 1], value, host) == Some(after)
    ensures Writes(run, path, value, host, after)
    decreases |path|
  {
    if |path| > 1 {
      SteppingTail(run, path, host);
      SteppingWrites(run[1..], path[1..], value, host, after);
    }
  }

  lemma {:induction false} SteppingStops(run: seq<Point>, path: seq<Segment>, value: Value, host: Host)
    requires Stepping(run, path, host) && Stuck(run[|run| - 1], path[|run| - 1..], value, host)
    ensures Stops(run, path, value, host)
    decreases |path|
  {
    if |run| > 1 {
      SteppingTail(run, path, host);
      SteppingStops(run[1..], path[1..], value, host);
    } else {
      assert path[0..] == path;
    }
  }

  lemma SteppingSnoc(run: seq<Point>, p: Point, path: seq<Segment>, host: Host)
    requires Stepping(run, path, host) && |run| < |path|
    requires Steps(run[|run| - 1], p, path[|run| - 1], path[|run|], host)
    ensures Stepping(run + [p], path, host)
  {
  }

  /** Every step on an array of a walk takes the index that its segment writes, and no node is met twice. */
  ghost predicate IsStraight(run: seq<Point>, path: seq<Segment>, host: Host)
    requires |run| == |path|
  {
    && (forall j :: 0 <= j < |run| && run[j].node in run[j].h && run[j].h[run[j].node].isArray ==>
          host.number(path[j]) == Some(path[j]))
    && (forall i, j :: 0 <= i < j < |run| ==> run[i].node != run[j].node)
  }

  lemma StepKeeps(p: Point, q: Point, segment: Segment, next: Segment, host: Host, n: Node)
    requires Steps(p, q, segment, next, host) && n in p.h && n != p.node
    ensures n in q.h && q.h[n] == p.h[n]
  {
  }

  /** The step leaves a member that leads on. */
  lemma StepLeads(p: Point, q: Point, segment: Segment, next: Segment, host: Host)
    requires Steps(p, q, segment, next, host)
    ensures p.node in q.h && q.h[p.node].isArray == p.h[p.node].isArray
    ensures segment in q.h[p.node].members && q.h[p.node].members[segment] == Ref(q.node)
  {
  }

  /** A walk leaves the nodes that it does not meet as they are. */
  lemma {:induction false} WritesKeep(run: seq<Point>, path: seq<Segment>, value: Value, host: Host, after: Heap,
      n: Node)
    requires Writes(run, path, value, host, after) && n in run[0].h
    requires forall j :: 0 <= j < |run| ==> run[j].node != n
    ensures n in after && after[n] == run[0].h[n]
    decreases |path|
  {
    if |path| > 1 {
      StepKeeps(run[0], run[1], path[0], path[1], host, n);
      assert run[1..][0] == run[1];
      WritesKeep(run[1..], path[1..], value, host, after, n);
    }
  }

  /** What a straight walk writes is what the path reads afterwards. */
  lemma {:induction false} WrittenIsRead(run: seq<Point>, path: seq<Segment>, value: Value, host: Host, after: Heap)
    requires Writes(run, path, value, host, after) && IsStraight(run, path, host)
    requires HeapClosed(after) && run[0].node in after
    ensures Read(after, Ref(run[0].node), path, host) == value
    decreases |path|
  {
    if |path| == 1 {
      assert path[1..] == [];
    } else {
      StepLeads(run[0], run[1], path[0], path[1], host);
      var rest := run[1..];
      assert rest[0] == run[1];
      assert forall j :: 0 <= j < |rest| ==> rest[j] == run[j + 1];
      WritesKeep(rest, path[1..], value, host, after, run[0].node);
      WrittenIsRead(rest, path[1..], value, host, after);
      assert Member(after, Ref(run[0].node), path[0], host) == Ref(run[1].node);
    }
  }

  lemma ChildClosed(h: Heap, n: Node, k: Segment, child: Node, isArray: bool)
    requires HeapClosed(h) && n in h && child !in h
    ensures HeapClosed(WithChild(h, n, k, child, isArray))
  {
  }

  // ------------------------------------------------------------ the methods

  method GetByPath(root: Value, path: Path, host: Host, ghost nodes: set<Node>) returns (r: Value)
    requires HeapClosed(Snapshot(nodes)) && InHeap(Snapshot(nodes), root)
    ensures r == Read(Snapshot(nodes), root, path, host)
    ensures InHeap(Snapshot(nodes), r)
  {
    ghost var h := Snapshot(nodes);
    var current := root;
    for i := 0 to |path|
      invariant InHeap(h, current)
      invariant Read(h, current, path[i..], host) == Read(h, root, path, host)
    {
      assert path[i..][0] == path[i] && path[i..][1..] == path[i + 1..];
      if IsEnd(current) {
        ReadNothing(h, current, path[i..], host);
        return Undefined;
      }
      if current.Ref? && current.node.isArray {
        var index := host.number(path[i]);
        if index.None? {
          if i + 1 < |path| {
            ReadNothing(h, Undefined, path[i + 1..], host);
          }
          return Undefined;
        }
        current := if index.value in current.node.members then current.node.members[index.value] else Undefined;
      } else {
        current := Property(current, path[i], host);
      }
    }
    assert path[|path|..] == [];
    return current;
  }

  /** A property of an object, or of the prototype they share. */
  method Property(v: Value, segment: Segment, host: Host) returns (r: Value)
    requires v.Ref? || v == Builtin(Proto)
    ensures v.Ref? ==> r == Lookup(Cell(v.node.isArray, v.node.members), segment, host)
    ensures !v.Ref? ==> r == Member(map[], v, segment, host)
  {
    if v.Ref? {
      r := Lookup(Cell(v.node.isArray, v.node.members), segment, host);
    } else if segment == Proto {
      r := Null;
    } else {
      r := if segment in host.objects then Builtin(segment) else Undefined;
    }
  }

  /** An empty object or array becomes a member. */
  method MakeChild(current: Node, segment: Segment, isArray: bool, ghost nodes: set<Node>) returns (child: Node)
    requires current in nodes && HeapClosed(Snapshot(nodes))
    modifies current
    ensures fresh(child) && HeapClosed(Snapshot(nodes + {child}))
    ensures child !in old(Snapshot(nodes))
    ensures Snapshot(nodes + {child}) == WithChild(old(Snapshot(nodes)), current, segment, child, isArray)
  {
    ghost var h := Snapshot(nodes);
    child := new Node(isArray);
    current.members := current.members[segment := Ref(child)];
    ChildClosed(h, current, segment, child, isArray);
    assert Snapshot(nodes + {child}) == WithChild(h, current, segment, child, isArray);
  }

  /** One turn of the loop of `setByPath`. */
  method Descend(current: Node, segment: Segment, next: Segment, host: Host, ghost nodes: set<Node>)
    returns (ok: bool, child: Node, ghost nodes': set<Node>)
    requires current in nodes && HeapClosed(Snapshot(nodes))
    modifies current
    ensures nodes <= nodes' && fresh(nodes' - nodes) && HeapClosed(Snapshot(nodes')) && child in nodes'
    ensures ok ==> Steps(Point(old(Snapshot(nodes)), current), Point(Snapshot(nodes'), child), segment, next, host)
    ensures !ok ==>
      var v := Lookup(Snapshot(nodes)[current], segment, host);
      nodes' == nodes && Snapshot(nodes) == old(Snapshot(nodes)) && (v.Leaf? || v.Builtin?)
  {
    var v := Lookup(Cell(current.isArray, current.members), segment, host);
    nodes' := nodes;
    if v == Undefined || v == Null {
      child := MakeChild(current, segment, IsDigits(next.text), nodes);
      nodes', ok := nodes + {child}, true;
    } else if v.Ref? {
      child, ok := v.node, true;
    } else {
      child, ok := current, false;
    }
  }

  method SetMember(current: Node, key: Segment, value: Value, ghost nodes: set<Node>)
    requires current in nodes && HeapClosed(Snapshot(nodes)) && InHeap(Snapshot(nodes), value)
    modifies current
    ensures HeapClosed(Snapshot(nodes))
    ensures Snapshot(nodes) == WithMember(old(Snapshot(nodes)), current, key, value)
  {
    ghost var h := Snapshot(nodes);
    current.members := current.members[key := value];
    assert Snapshot(nodes) == WithMember(h, current, key, value);
  }

  /** The last assignment. */
  method Put(current: Node, last: Segment, value: Value, host: Host, ghost nodes: set<Node>) returns (ok: bool)
    requires current in nodes && HeapClosed(Snapshot(nodes)) && InHeap(Snapshot(nodes), value)
    modifies current
    ensures HeapClosed(Snapshot(nodes))
    ensures
      PutAt(Point(old(Snapshot(nodes)), current), last, value, host) == if ok then Some(Snapshot(nodes)) else None
    ensures !ok ==> Snapshot(nodes) == old(Snapshot(nodes))
  {
    ok := true;
    if current.isArray {
      var index := host.number(last);
      SetMember(current, if index.Some? then index.value else Segment("NaN"), value, nodes);
    } else if last == Proto && Proto !in current.members {
      ok := false;
    } else {
      SetMember(current, last, value, nodes);
    }
  }

  /**
    Writes a value at a path, making the objects and arrays that are not there. It is not
    ok when the walk goes on in something that is no member of what it was given.
   */
  method SetByPath(root: Node, path: Path, value: Value, host: Host, ghost nodes: set<Node>)
    returns (ok: bool, ghost run: seq<Point>, ghost nodes': set<Node>)
    requires root in nodes && HeapClosed(Snapshot(nodes)) && InHeap(Snapshot(nodes), value)
    modifies nodes
    ensures nodes <= nodes' && fresh(nodes' - nodes) && HeapClosed(Snapshot(nodes'))
    ensures run != [] && run[0] == Point(old(Snapshot(nodes)), root)
    ensures ok ==> Writes(run, path, value, host, Snapshot(nodes'))
    ensures !ok ==> Stops(run, path, value, host)
  {
    var current := root;
    nodes', run := nodes, [Point(Snapshot(nodes), root)];
    for j := 0 to |path| - 1
      invariant nodes <= nodes' && fresh(nodes' - nodes) && HeapClosed(Snapshot(nodes')) && current in nodes'
      invariant |run| == j + 1 && run[0] == Point(old(Snapshot(nodes)), root)
      invariant run[j] == Point(Snapshot(nodes'), current) && Stepping(run, path, host)
    {
      var child;
      ghost var more;
      ok, child, more := Descend(current, path[j], path[j + 1], host, nodes');
      if !ok {
        assert path[j..][0] == path[j];
        SteppingStops(run, path, value, host);
        nodes' := more;
        return;
      }
      SteppingSnoc(run, Point(Snapshot(more), child), path, host);
      current, nodes', run := child, more, run + [Point(Snapshot(more), child)];
    }
    assert path[|path| - 1..] == [path[|path| - 1]];
    ok := Put(current, path[|path| - 1], value, host, nodes');
    if ok {
      SteppingWrites(run, path, value, host, Snapshot(nodes'));
    } else {
      SteppingStops(run, path, value, host);
    }
  }
}
