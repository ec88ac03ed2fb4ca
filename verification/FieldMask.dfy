/**
  Field masking of responses: the mask of one object, and of a list of items. Found
  fields that fit are copied exactly, nothing else is, and the input does not change.
 */
module FieldMask {
  import opened Wrappers
  import opened Lists
  import opened FieldPaths
  import opened FieldCopies

  predicate IsObject(h0: Heap, v: Value) {
    v.Ref? && v.node in h0 && !h0[v.node].isArray
  }

  /** The fields that one object has. */
  ghost function FoundIn(h0: Heap, obj: Value, fields: seq<Path>, host: Host): set<Path>
    requires HeapClosed(h0) && InHeap(h0, obj)
  {
    set f | f in fields && Read(h0, obj, f, host) != Undefined
  }

  /** The members of the mask lie on the way to some field that the object has. */
  ghost predicate Wanted(h0: Heap, h: Heap, c: Copy, obj: Node, fields: seq<Path>, host: Host)
    requires HeapClosed(h0) && obj in h0 && c.src.Keys == c.place.Keys
  {
    forall f, k :: f in c.src && k in MembersOf(h, f) ==> WantedMember(h0, c, obj, f, k, MembersOf(h, f)[k], fields,
      host)
  }

  ghost predicate WantedMember(h0: Heap, c: Copy, obj: Node, f: Node, k: Segment, v: Value, fields: seq<Path>,
      host: Host)
    requires HeapClosed(h0) && obj in h0 && f in c.place
  {
    exists g :: g in fields && Read(h0, Ref(obj), g, host) != Undefined
      && OnPath(c, f, k, v, KeysOf(h0, Ref(obj), g, host))
  }

  /**
    `m` is a mask of `obj`: a partial copy in which every field the object has reads as in
    the input, and which holds nothing but these fields.
   */
  ghost predicate Masks(h0: Heap, h: Heap, c: Copy, m: Node, obj: Node, fields: seq<Path>, host: Host) {
    && IsCopy(h0, h, c, host) && m in c.src && c.src[m] == obj && c.place[m] == []
    && Wanted(h0, h, c, obj, fields, host)
    && forall f :: f in fields && Read(h0, Ref(obj), f, host) != Undefined ==>
         Read(h, Ref(m), f, host) == Read(h0, Ref(obj), f, host)
  }

  lemma WantedStays(h0: Heap, h: Heap, c: Copy, h': Heap, c': Copy, obj: Node, fields: seq<Path>, last: Path,
      host: Host)
    requires HeapClosed(h0) && obj in h0 && Extends(c, c') && Wanted(h0, h, c, obj, fields, host)
    requires Read(h0, Ref(obj), last, host) != Undefined ==> Along(h, c, h', c', KeysOf(h0, Ref(obj), last, host))
    requires Read(h0, Ref(obj), last, host) == Undefined ==> h' == h && c' == c
    ensures Wanted(h0, h', c', obj, fields + [last], host)
  {
    forall f, k | f in c'.src && k in MembersOf(h', f)
      ensures WantedMember(h0, c', obj, f, k, MembersOf(h', f)[k], fields + [last], host)
    {
      var v := MembersOf(h', f)[k];
      if f in c.src && k in MembersOf(h, f) && MembersOf(h, f)[k] == v {
        assert WantedMember(h0, c, obj, f, k, v, fields, host);
        var g :| g in fields && Read(h0, Ref(obj), g, host) != Undefined
          && OnPath(c, f, k, v, KeysOf(h0, Ref(obj), g, host));
        assert g in fields + [last] && OnPath(c', f, k, v, KeysOf(h0, Ref(obj), g, host));
      } else {
        assert last in fields + [last] && OnPath(c', f, k, v, KeysOf(h0, Ref(obj), last, host));
      }
    }
  }

  /** What a path of own keys leads to. */
  function KeyRead(h: Heap, v: Value, keys: seq<Segment>): Value
    requires HeapClosed(h) && (v.Ref? ==> v.node in h)
    decreases |keys|
  {
    if keys == [] then v
    else KeyRead(h, if v.Ref? && keys[0] in h[v.node].members then h[v.node].members[keys[0]] else Undefined, keys[1..])
  }

  lemma {:induction false} KeyReadNothing(h: Heap, keys: seq<Segment>)
    requires HeapClosed(h)
    ensures KeyRead(h, Undefined, keys) == Undefined
    decreases |keys|
  {
    if keys != [] {
      KeyReadNothing(h, keys[1..]);
    }
  }

  /** One chain of keys goes on from the other. */
  predicate Related(p: seq<Segment>, q: seq<Segment>) {
    IsPrefix(p, q) || IsPrefix(q, p)
  }

  /** Below any of its nodes the mask holds only what leads to a field the object has, or lies below one. */
  lemma {:induction false} NothingElseBelow(h0: Heap, h: Heap, c: Copy, m: Node, obj: Node, fields: seq<Path>,
      host: Host, f: Node, keys: seq<Segment>)
    requires Masks(h0, h, c, m, obj, fields, host) && f in c.src && keys != []
    requires KeyRead(h, Ref(f), keys) != Undefined
    ensures exists g :: g in fields && Read(h0, Ref(obj), g, host) != Undefined
                        && Related(c.place[f] + keys, KeysOf(h0, Ref(obj), g, host))
    decreases |keys|
  {
    var k := keys[0];
    if k !in h[f].members {
      KeyReadNothing(h, keys[1..]);
    }
    assert k in MembersOf(h, f);
    assert NodeCopies(h0, h, c, f, host);
    assert WantedMember(h0, c, obj, f, k, h[f].members[k], fields, host);
    var g :| g in fields && Read(h0, Ref(obj), g, host) != Undefined
      && OnPath(c, f, k, h[f].members[k], KeysOf(h0, Ref(obj), g, host));
    assert keys == [k] + keys[1..];
    Associative(c.place[f], [k], keys[1..]);
    var way := KeysOf(h0, Ref(obj), g, host);
    if c.place[f] + [k] == way {
      assert IsPrefix(way, c.place[f] + keys);
    } else if keys[1..] == [] {
      assert keys == [k];
    } else {
      NothingElseBelow(h0, h, c, m, obj, fields, host, h[f].members[k].node, keys[1..]);
    }
  }

  /** A mask holds nothing that was not asked for. */
  lemma NothingElse(h0: Heap, h: Heap, c: Copy, m: Node, obj: Node, fields: seq<Path>, host: Host,
      keys: seq<Segment>)
    requires Masks(h0, h, c, m, obj, fields, host) && keys != [] && KeyRead(h, Ref(m), keys) != Undefined
    ensures exists g :: g in fields && Read(h0, Ref(obj), g, host) != Undefined
                        && Related(keys, KeysOf(h0, Ref(obj), g, host))
  {
    NothingElseBelow(h0, h, c, m, obj, fields, host, m, keys);
    assert [] + keys == keys;
  }

  lemma MasksStay(h0: Heap, h: Heap, c: Copy, h': Heap, c': Copy, m: Node, obj: Node, fields: seq<Path>, last: Path,
      host: Host)
    requires Masks(h0, h, c, m, obj, fields, host) && Kept(h0, h, c, h', c', host)
    requires Read(h0, Ref(obj), last, host) != Undefined ==>
      Along(h, c, h', c', KeysOf(h0, Ref(obj), last, host)) && Read(h', Ref(m), last, host)
        == Read(h0, Ref(obj), last, host)
    requires Read(h0, Ref(obj), last, host) == Undefined ==> h' == h && c' == c
    ensures Masks(h0, h', c', m, obj, fields + [last], host)
  {
    WantedStays(h0, h, c, h', c', obj, fields, last, host);
    forall f | f in fields && Read(h0, Ref(obj), f, host) != Undefined
      ensures Read(h', Ref(m), f, host) == Read(h0, Ref(obj), f, host)
    {
      ExactStays(h0, h, c, h', c', Ref(m), Ref(obj), f, host);
    }
  }

  // ------------------------------------------------------------- one field

  /**
    What is assumed of an object and the fields asked of it: a field that it has fits, and
    its value is not one that all objects inherit.
   */
  ghost predicate Maskable(h0: Heap, obj: Node, fields: seq<Path>, host: Host) {
    && HeapClosed(h0) && obj in h0 && !h0[obj].isArray
    && forall f :: f in fields && Read(h0, Ref(obj), f, host) != Undefined ==>
         Fits(h0, obj, f, host) && !Read(h0, Ref(obj), f, host).Builtin?
  }

  /** One turn of the loop over the fields: a field that the object has is written into the mask. */
  ghost predicate FieldStep(h: Heap, h': Heap, obj: Node, m: Node, field: Path, host: Host, run: seq<Point>) {
    && HeapClosed(h) && HeapClosed(h') && obj in h
    && var value := Read(h, Ref(obj), field, host);
       if value == Undefined then h' == h
       else run != [] && run[0] == Point(h, m) && Writes(run, field, value, host, h')
  }

  /** A turn that cannot be finished. */
  ghost predicate FieldStops(h: Heap, obj: Node, m: Node, field: Path, host: Host, run: seq<Point>) {
    && HeapClosed(h) && obj in h && Read(h, Ref(obj), field, host) != Undefined
    && run != [] && run[0] == Point(h, m) && Stops(run, field, Read(h, Ref(obj), field, host), host)
  }

  lemma MaskedFound(h0: Heap, h: Heap, c: Copy, m: Node, obj: Node, done: seq<Path>, field: Path, host: Host)
    requires Masks(h0, h, c, m, obj, done, host) && Maskable(h0, obj, [field], host)
    ensures HeapClosed(h) && obj in h && Read(h, Ref(obj), field, host) == Read(h0, Ref(obj), field, host)
    ensures
      var value := Read(h0, Ref(obj), field, host);
      value != Undefined ==> Found(h0, c, Point(h, m), obj, field, value, host)
  {
    MaskIsSubtree(h0, h, c, Ref(obj), Ref(obj), field, host);
    assert field in [field];
  }

  /** A turn of the loop for a field that fits leaves a mask with that field. */
  lemma FieldMasked(h0: Heap, h: Heap, c: Copy, h': Heap, m: Node, obj: Node, done: seq<Path>, field: Path, host: Host,
      run: seq<Point>)
    returns (c': Copy)
    requires Masks(h0, h, c, m, obj, done, host) && Maskable(h0, obj, [field], host)
    requires FieldStep(h, h', obj, m, field, host, run)
    ensures Masks(h0, h', c', m, obj, done + [field], host)
  {
    MaskedFound(h0, h, c, m, obj, done, field, host);
    c' := c;
    var value := Read(h0, Ref(obj), field, host);
    if value != Undefined {
      c' := WalkKept(h0, c, run, obj, field, value, host, h');
      assert [] + KeysOf(h0, Ref(obj), field, host) == KeysOf(h0, Ref(obj), field, host);
    }
    MasksStay(h0, h, c, h', c', m, obj, done, field, host);
  }

  lemma FieldDoesNotStop(h0: Heap, h: Heap, c: Copy, m: Node, obj: Node, done: seq<Path>, field: Path, host: Host,
      run: seq<Point>)
    requires Masks(h0, h, c, m, obj, done, host) && Maskable(h0, obj, [field], host)
    ensures !FieldStops(h, obj, m, field, host, run)
  {
    MaskedFound(h0, h, c, m, obj, done, field, host);
    if FieldStops(h, obj, m, field, host, run) {
      FittingDoesNotStop(h0, c, run, obj, field, Read(h0, Ref(obj), field, host), host);
    }
  }

  // ------------------------------------------------------ the mask of an object

  /** All turns of the loop over the fields so far. */
  ghost predicate Filled(hs: seq<Heap>, obj: Node, m: Node, fields: seq<Path>, host: Host, runs: seq<seq<Point>>) {
    && |hs| == |fields| + 1 && |runs| == |fields|
    && forall i :: 0 <= i < |fields| ==> FieldStep(hs[i], hs[i + 1], obj, m, fields[i], host, runs[i])
  }

  /** The fields that were found nowhere when their turn came. */
  ghost function MissingOf(hs: seq<Heap>, obj: Node, m: Node, fields: seq<Path>, host: Host, runs: seq<seq<Point>>)
    : seq<Path>
    requires Filled(hs, obj, m, fields, host, runs)
  {
    if fields == [] then []
    else
      var n := |fields| - 1;
      assert FieldStep(hs[n], hs[n + 1], obj, m, fields[n], host, runs[n]);
      FilledFront(hs, obj, m, fields, host, runs);
      MissingOf(hs[..n + 1], obj, m, fields[..n], host, runs[..n])
      + if Read(hs[n], Ref(obj), fields[n], host) == Undefined then [fields[n]] else []
  }

  lemma FilledFront(hs: seq<Heap>, obj: Node, m: Node, fields: seq<Path>, host: Host, runs: seq<seq<Point>>)
    requires Filled(hs, obj, m, fields, host, runs) && fields != []
    ensures Filled(hs[..|fields|], obj, m, fields[..|fields| - 1], host, runs[..|fields| - 1])
    ensures FieldStep(hs[|fields| - 1], hs[|fields|], obj, m, fields[|fields| - 1], host, runs[|fields| - 1])
  {
    forall i | 0 <= i < |fields| - 1
      ensures FieldStep(hs[..|fields|][i], hs[..|fields|][i + 1], obj, m, fields[..|fields| - 1][i], host,
                        runs[..|fields| - 1][i])
    {
      assert FieldStep(hs[i], hs[i + 1], obj, m, fields[i], host, runs[i]);
    }
    assert FieldStep(hs[|fields| - 1], hs[|fields| - 1 + 1], obj, m, fields[|fields| - 1], host, runs[|fields| - 1]);
  }

  /** The mask of an object whose fields fit, and the fields missing from it. */
  lemma {:induction false} FilledMasks(h0: Heap, hs: seq<Heap>, obj: Node, m: Node, fields: seq<Path>, host: Host,
      runs: seq<seq<Point>>)
    returns (c: Copy)
    requires Filled(hs, obj, m, fields, host, runs) && Maskable(h0, obj, fields, host)
    requires m !in h0 && hs[0] == h0[m := Cell(false, map[])]
    ensures Masks(h0, hs[|fields|], c, m, obj, fields, host)
    ensures MissingOf(hs, obj, m, fields, host, runs) == Keep(fields, FoundIn(h0, Ref(obj), fields, host))
    decreases |fields|
  {
    if fields == [] {
      c := Copy(map[m := obj], map[m := []]);
      BlankIsCopy(h0, m, obj, host);
    } else {
      var n := |fields| - 1;
      var front, last := fields[..n], fields[n];
      assert fields == front + [last];
      FilledFront(hs, obj, m, fields, host, runs);
      var before := FilledMasks(h0, hs[..n + 1], obj, m, front, host, runs[..n]);
      assert last in fields && hs[..n + 1][n] == hs[n];
      MaskedFound(h0, hs[n], before, m, obj, front, last, host);
      c := FieldMasked(h0, hs[n], before, hs[n + 1], m, obj, front, last, host, runs[n]);
      var found := FoundIn(h0, Ref(obj), fields, host);
      KeepSnoc(front, last, found);
      KeepAgrees(front, FoundIn(h0, Ref(obj), front, host), found);
    }
  }

  lemma {:induction false} KeepAgrees<T>(s: seq<T>, a: set<T>, b: set<T>)
    requires forall x :: x in s ==> (x in a <==> x in b)
    ensures Keep(s, a) == Keep(s, b)
  {
    if s != [] {
      KeepAgrees(s[..|s| - 1], a, b);
    }
  }

  lemma {:induction false} NeverStops(h0: Heap, hs: seq<Heap>, obj: Node, m: Node, fields: seq<Path>, i: nat,
      host: Host,
      runs: seq<seq<Point>>, run: seq<Point>)
    requires i < |fields| && Filled(hs, obj, m, fields[..i], host, runs) && Maskable(h0, obj, fields, host)
    requires m !in h0 && hs[0] == h0[m := Cell(false, map[])]
    ensures !FieldStops(hs[i], obj, m, fields[i], host, run)
  {
    assert forall f :: f in fields[..i] ==> f in fields;
    var c := FilledMasks(h0, hs, obj, m, fields[..i], host, runs);
    assert fields[i] in fields;
    FieldDoesNotStop(h0, hs[i], c, m, obj, fields[..i], fields[i], host, run);
  }

  /** One field: found and written into the mask, or missing. */
  method MaskField(masked: Node, obj: Node, field: Path, host: Host, ghost nodes: set<Node>)
    returns (found: bool, ok: bool, ghost run: seq<Point>, ghost nodes': set<Node>)
    requires obj in nodes && masked in nodes && HeapClosed(Snapshot(nodes))
    modifies nodes
    ensures nodes <= nodes' && fresh(nodes' - nodes) && HeapClosed(Snapshot(nodes'))
    ensures found == (Read(old(Snapshot(nodes)), Ref(obj), field, host) != Undefined)
    ensures ok ==> FieldStep(old(Snapshot(nodes)), Snapshot(nodes'), obj, masked, field, host, run)
    ensures !ok ==> FieldStops(old(Snapshot(nodes)), obj, masked, field, host, run)
  {
    var value := GetByPath(Ref(obj), field, host, nodes);
    found, ok, run, nodes' := value != Undefined, true, [], nodes;
    if found {
      ok, run, nodes' := SetByPath(masked, field, value, host, nodes);
    }
  }

  /** What the loop over the fields leaves: all turns and the missing fields, or a turn that stops. */
  ghost predicate Ran(ok: bool, hs: seq<Heap>, obj: Node, m: Node, fields: seq<Path>, host: Host,
      runs: seq<seq<Point>>, missing: seq<Path>, last: Heap) {
    if ok then
      && Filled(hs, obj, m, fields, host, runs) && hs[|fields|] == last
      && missing == MissingOf(hs, obj, m, fields, host, runs)
    else
      && 0 < |hs| == |runs| <= |fields|
      && var i := |hs| - 1;
         && Filled(hs, obj, m, fields[..i], host, runs[..i])
         && FieldStops(hs[i], obj, m, fields[i], host, runs[i])
  }

  lemma RanOn(hs: seq<Heap>, obj: Node, m: Node, fields: seq<Path>, i: nat, host: Host, runs: seq<seq<Point>>,
      missing: seq<Path>, h': Heap, run: seq<Point>)
    requires i < |fields| && Filled(hs, obj, m, fields[..i], host, runs)
    requires missing == MissingOf(hs, obj, m, fields[..i], host, runs)
    requires FieldStep(hs[i], h', obj, m, fields[i], host, run)
    ensures
      var found := Read(hs[i], Ref(obj), fields[i], host) != Undefined;
      Ran(true, hs + [h'], obj, m, fields[..i + 1], host, runs + [run], missing + if found then [] else [fields[i]], h')
  {
    FilledSnoc(hs, obj, m, fields[..i], host, runs, h', fields[i], run);
    Prefix(fields, i);
  }

  lemma RanToStop(hs: seq<Heap>, obj: Node, m: Node, fields: seq<Path>, i: nat, host: Host, runs: seq<seq<Point>>,
      missing: seq<Path>, run: seq<Point>)
    requires i < |fields| && Filled(hs, obj, m, fields[..i], host, runs)
    requires FieldStops(hs[i], obj, m, fields[i], host, run)
    ensures forall last :: Ran(false, hs, obj, m, fields, host, runs + [run], missing, last)
  {
    assert (runs + [run])[..i] == runs;
  }

  /** The loop over the fields. */
  method FillMask(obj: Node, masked: Node, fields: seq<Path>, host: Host, ghost nodes: set<Node>)
    returns (ok: bool, missing: seq<Path>, ghost hs: seq<Heap>, ghost runs: seq<seq<Point>>, ghost nodes': set<Node>)
    requires obj in nodes && masked in nodes && HeapClosed(Snapshot(nodes))
    modifies nodes
    ensures nodes <= nodes' && fresh(nodes' - nodes) && HeapClosed(Snapshot(nodes'))
    ensures hs != [] && hs[0] == old(Snapshot(nodes))
    ensures Ran(ok, hs, obj, masked, fields, host, runs, missing, Snapshot(nodes'))
  {
    ok, missing, runs, nodes', hs := true, [], [], nodes, [Snapshot(nodes)];
    for i := 0 to |fields|
      invariant nodes <= nodes' && fresh(nodes' - nodes) && HeapClosed(Snapshot(nodes'))
      invariant hs != [] && hs[0] == old(Snapshot(nodes))
      invariant Ran(true, hs, obj, masked, fields[..i], host, runs, missing, Snapshot(nodes'))
    {
      var found;
      ghost var run;
      found, ok, run, nodes' := MaskField(masked, obj, fields[i], host, nodes');
      if !ok {
        RanToStop(hs, obj, masked, fields, i, host, runs, missing, run);
        runs := runs + [run];
        return;
      }
      RanOn(hs, obj, masked, fields, i, host, runs, missing, Snapshot(nodes'), run);
      hs, runs := hs + [Snapshot(nodes')], runs + [run];
      if !found {
        missing := missing + [fields[i]];
      }
    }
    Prefixes(fields);
    ok := true;
  }

  /** What is promised of an object whose fields fit. */
  lemma RanMasks(ok: bool, h0: Heap, hs: seq<Heap>, obj: Node, m: Node, fields: seq<Path>, host: Host,
      runs: seq<seq<Point>>, missing: seq<Path>, last: Heap)
    returns (c: Copy)
    requires Ran(ok, hs, obj, m, fields, host, runs, missing, last) && Maskable(h0, obj, fields, host)
    requires m !in h0 && hs != [] && hs[0] == h0[m := Cell(false, map[])]
    ensures ok && Masks(h0, last, c, m, obj, fields, host)
    ensures missing == Keep(fields, FoundIn(h0, Ref(obj), fields, host))
  {
    if !ok {
      var i := |hs| - 1;
      NeverStops(h0, hs, obj, m, fields, i, host, runs[..i], runs[i]);
    }
    c := FilledMasks(h0, hs, obj, m, fields, host, runs);
  }

  /**
    The mask of one object, field by field; it is not ok when a field stops. When the
    fields fit it is ok, the input does not change, and the mask holds exactly them.
   */
  method ApplyToObject(obj: Node, fields: seq<Path>, host: Host, ghost nodes: set<Node>)
    returns (ok: bool, masked: Node, missing: seq<Path>, ghost hs: seq<Heap>, ghost runs: seq<seq<Point>>,
             ghost nodes': set<Node>, ghost c: Copy)
    requires obj in nodes && HeapClosed(Snapshot(nodes))
    modifies nodes
    ensures nodes <= nodes' && fresh(nodes' - nodes) && HeapClosed(Snapshot(nodes')) && fresh(masked)
    ensures hs != [] && hs[0] == old(Snapshot(nodes))[masked := Cell(false, map[])]
    ensures Ran(ok, hs, obj, masked, fields, host, runs, missing, Snapshot(nodes'))
    ensures Maskable(old(Snapshot(nodes)), obj, fields, host) ==>
      && ok && Masks(old(Snapshot(nodes)), Snapshot(nodes'), c, masked, obj, fields, host)
      && missing == Keep(fields, FoundIn(old(Snapshot(nodes)), Ref(obj), fields, host))
  {
    masked := new Node(false);
    c := Copy(map[], map[]);
    assert Snapshot(nodes + {masked}) == old(Snapshot(nodes))[masked := Cell(false, map[])];
    ok, missing, hs, runs, nodes' := FillMask(obj, masked, fields, host, nodes + {masked});
    if Maskable(old(Snapshot(nodes)), obj, fields, host) {
      c := RanMasks(ok, old(Snapshot(nodes)), hs, obj, masked, fields, host, runs, missing, Snapshot(nodes'));
    }
  }

  lemma FilledSnoc(hs: seq<Heap>, obj: Node, m: Node, fields: seq<Path>, host: Host, runs: seq<seq<Point>>, h': Heap,
      field: Path, run: seq<Point>)
    requires Filled(hs, obj, m, fields, host, runs) && FieldStep(hs[|fields|], h', obj, m, field, host, run)
    ensures Filled(hs + [h'], obj, m, fields + [field], host, runs + [run])
    ensures MissingOf(hs + [h'], obj, m, fields + [field], host, runs + [run])
         == MissingOf(hs, obj, m, fields, host, runs)
            + if Read(hs[|fields|], Ref(obj), field, host) == Undefined then [field] else []
  {
    var n := |fields|;
    forall i | 0 <= i < n + 1
      ensures FieldStep((hs + [h'])[i], (hs + [h'])[i + 1], obj, m, (fields + [field])[i], host, (runs + [run])[i])
    {
      if i < n {
        assert FieldStep(hs[i], hs[i + 1], obj, m, fields[i], host, runs[i]);
      }
    }
    assert (hs + [h'])[..n + 1] == hs && (fields + [field])[..n] == fields && (runs + [run])[..n] == runs;
  }

  // ------------------------------------------------------- the mask of any data

  ghost function FoundInItem(h0: Heap, item: Value, fields: seq<Path>, host: Host): set<Path>
    requires HeapClosed(h0) && InHeap(h0, item)
  {
    if IsObject(h0, item) then FoundIn(h0, item, fields, host) else {}
  }

  /** The fields that some object among the items has. */
  ghost function FoundAmong(h0: Heap, items: seq<Value>, fields: seq<Path>, host: Host): set<Path>
    requires HeapClosed(h0) && forall v :: v in items ==> InHeap(h0, v)
  {
    if items == [] then {}
    else FoundAmong(h0, items[..|items| - 1], fields, host) + FoundInItem(h0, items[|items| - 1], fields, host)
  }

  lemma {:induction false} FoundAmongIff(h0: Heap, items: seq<Value>, fields: seq<Path>, host: Host, f: Path)
    requires HeapClosed(h0) && forall v :: v in items ==> InHeap(h0, v)
    ensures f in FoundAmong(h0, items, fields, host) <==>
              f in fields && exists v :: v in items && IsObject(h0, v) && Read(h0, v, f, host) != Undefined
  {
    if items != [] {
      FoundAmongIff(h0, items[..|items| - 1], fields, host, f);
      assert items == items[..|items| - 1] + [items[|items| - 1]];
    }
  }

  /** Deleting from an insertion-ordered set every field that is not missing in one item. */
  method DropFound(all: seq<Path>, fields: seq<Path>, missing: seq<Path>) returns (r: seq<Path>)
    ensures r == Keep(all, set f | f in fields && f !in missing)
  {
    r := all;
    KeepAll(all);
    ghost var gone: set<Path> := {};
    for j := 0 to |fields|
      invariant gone == set f | f in fields[..j] && f !in missing
      invariant r == Keep(all, gone)
    {
      Prefix(fields, j);
      if fields[j] !in missing {
        KeepTwice(all, gone, {fields[j]});
        r := Keep(r, {fields[j]});
        gone := gone + {fields[j]};
      }
    }
    Prefixes(fields);
  }

  lemma NotMissing(h0: Heap, obj: Value, fields: seq<Path>, host: Host, missing: seq<Path>)
    requires HeapClosed(h0) && InHeap(h0, obj)
    requires missing == Keep(fields, FoundIn(h0, obj, fields, host))
    ensures FoundIn(h0, obj, fields, host) == set f | f in fields && f !in missing
  {
    forall f | f in fields
      ensures f in FoundIn(h0, obj, fields, host) <==> f !in missing
    {
      KeepMembers(fields, FoundIn(h0, obj, fields, host), f);
    }
  }

  /** An item of a masked array: a mask of the object, or the item itself. */
  ghost predicate ItemMasked(h0: Heap, item: Value, masked: Value, c: Copy, fields: seq<Path>, host: Host)
    reads c.src.Keys
  {
    if IsObject(h0, item) then
      masked.Ref? && Masks(h0, h0 + Snapshot(c.src.Keys), c, masked.node, item.node, fields, host)
    else
      masked == item && c == Copy(map[], map[])
  }

  /** Such an item, none of whose nodes are the input's: later work cannot reach it. */
  ghost predicate ItemDone(h0: Heap, item: Value, masked: Value, c: Copy, fields: seq<Path>, host: Host)
    reads c.src.Keys
  {
    c.src.Keys !! h0.Keys && ItemMasked(h0, item, masked, c, fields, host)
  }

  ghost predicate MaskableItem(h0: Heap, item: Value, fields: seq<Path>, host: Host) {
    InHeap(h0, item) && (IsObject(h0, item) ==> Maskable(h0, item.node, fields, host))
  }

  /** One item of an array, and the set of missing fields after it. */
  method MaskItem(item: Value, fields: seq<Path>, all: seq<Path>, host: Host, ghost nodes: set<Node>)
    returns (ok: bool, masked: Value, all': seq<Path>, ghost nodes': set<Node>, ghost c: Copy)
    requires HeapClosed(Snapshot(nodes)) && InHeap(Snapshot(nodes), item)
    modifies nodes
    ensures nodes <= nodes' && fresh(nodes' - nodes) && HeapClosed(Snapshot(nodes'))
    ensures MaskableItem(old(Snapshot(nodes)), item, fields, host) ==>
      && ok && Snapshot(nodes) == old(Snapshot(nodes)) && fresh(c.src.Keys)
      && ItemDone(old(Snapshot(nodes)), item, masked, c, fields, host)
      && all' == Keep(all, FoundInItem(old(Snapshot(nodes)), item, fields, host))
  {
    ghost var h0 := Snapshot(nodes);
    ok, masked, all', nodes', c := true, item, all, nodes, Copy(map[], map[]);
    KeepAll(all);
    if item.Ref? && !item.node.isArray {
      var m, missing;
      ghost var hs, runs;
      ok, m, missing, hs, runs, nodes', c := ApplyToObject(item.node, fields, host, nodes);
      masked := Ref(m);
      all' := DropFound(all, fields, missing);
      if MaskableItem(h0, item, fields, host) {
        CopiedHeap(h0, nodes, nodes', c, m, item.node, fields, host);
        NotMissing(h0, item, fields, host, missing);
      }
    }
  }

  /** The heap of a mask is the input and the nodes of the mask. */
  lemma CopiedHeap(h0: Heap, nodes: set<Node>, nodes': set<Node>, c: Copy, m: Node, obj: Node, fields: seq<Path>,
      host: Host)
    requires nodes <= nodes' && h0.Keys == nodes && Masks(h0, Snapshot(nodes'), c, m, obj, fields, host)
    ensures Snapshot(nodes) == h0 && c.src.Keys == nodes' - nodes && Snapshot(nodes') == h0 + Snapshot(c.src.Keys)
  {
    assert nodes' == nodes + c.src.Keys;
    forall n | n in nodes ensures Snapshot(nodes)[n] == h0[n] {
      assert Snapshot(nodes')[n] == h0[n];
    }
  }

  lemma FoundAmongSnoc(h0: Heap, items: seq<Value>, i: nat, fields: seq<Path>, host: Host, all: seq<Path>)
    requires HeapClosed(h0) && i < |items| && forall v :: v in items ==> InHeap(h0, v)
    ensures Keep(Keep(all, FoundAmong(h0, items[..i], fields, host)), FoundInItem(h0, items[i], fields, host))
         == Keep(all, FoundAmong(h0, items[..i + 1], fields, host))
  {
    Prefix(items, i);
    KeepTwice(all, FoundAmong(h0, items[..i], fields, host), FoundInItem(h0, items[i], fields, host));
    assert items[..i + 1][..i] == items[..i];
  }

  /** What masking an array promises: each item masked on its own, and the fields no object has. */
  ghost predicate ItemsMasked(h0: Heap, items: seq<Value>, masked: seq<Value>, cs: seq<Copy>, fields: seq<Path>,
      host: Host)
    requires |items| == |masked| == |cs|
    reads set i, n | 0 <= i < |cs| && n in cs[i].src.Keys :: n
  {
    forall i :: 0 <= i < |items| ==> ItemMasked(h0, items[i], masked[i], cs[i], fields, host)
  }

  /** The first items, masked, with nothing of the input in them. */
  ghost predicate ItemsDone(h0: Heap, items: seq<Value>, masked: seq<Value>, cs: seq<Copy>, fields: seq<Path>,
      host: Host)
    reads set i, n | 0 <= i < |cs| && n in cs[i].src.Keys :: n
  {
    && |masked| == |cs| <= |items|
    && forall i :: 0 <= i < |cs| ==> ItemDone(h0, items[i], masked[i], cs[i], fields, host)
  }

  /** One more item. */
  lemma OneMoreDone(h0: Heap, items: seq<Value>, masked: seq<Value>, cs: seq<Copy>, m: Value, c: Copy,
      fields: seq<Path>, host: Host)
    requires ItemsDone(h0, items, masked, cs, fields, host) && |cs| < |items|
    requires ItemDone(h0, items[|cs|], m, c, fields, host)
    ensures ItemsDone(h0, items, masked + [m], cs + [c], fields, host)
  {
    forall i | 0 <= i < |cs + [c]| ensures ItemDone(h0, items[i], (masked + [m])[i], (cs + [c])[i], fields, host) {
      if i < |cs| {
        assert ItemDone(h0, items[i], masked[i], cs[i], fields, host);
      }
    }
  }

  method AddItem(items: seq<Value>, before: seq<Value>, missing: seq<Path>, fields: seq<Path>, host: Host,
                 ghost h0: Heap, ghost csBefore: seq<Copy>, ghost nodes: set<Node>)
    returns (ok: bool, masked: seq<Value>, missing': seq<Path>, ghost nodes': set<Node>, ghost cs: seq<Copy>)
    requires HeapClosed(Snapshot(nodes)) && |before| < |items| && InHeap(Snapshot(nodes), items[|before|])
    modifies nodes
    ensures nodes <= nodes' && fresh(nodes' - nodes) && HeapClosed(Snapshot(nodes'))
    ensures |masked| == |before| + 1
    ensures old(Snapshot(nodes)) == h0 && MaskableItem(h0, items[|before|], fields, host)
            && old(ItemsDone(h0, items, before, csBefore, fields, host)) ==>
      && ok && Snapshot(nodes) == h0 && ItemsDone(h0, items, masked, cs, fields, host)
      && missing' == Keep(missing, FoundInItem(h0, items[|before|], fields, host))
  {
    var m; ghost var c;
    ghost var good := Snapshot(nodes) == h0 && MaskableItem(h0, items[|before|], fields, host)
                      && ItemsDone(h0, items, before, csBefore, fields, host);
    ok, m, missing', nodes', c := MaskItem(items[|before|], fields, missing, host, nodes);
    masked, cs := before + [m], csBefore + [c];
    if good {
      assert ItemsDone(h0, items, before, csBefore, fields, host);
      OneMoreDone(h0, items, before, csBefore, m, c, fields, host);
    }
  }

  /** The fields fit every object among the items. */
  ghost predicate MaskableItems(h0: Heap, items: seq<Value>, fields: seq<Path>, host: Host) {
    forall v :: v in items ==> MaskableItem(h0, v, fields, host)
  }

  ghost predicate AllInHeap(h: Heap, items: seq<Value>) {
    forall v :: v in items ==> InHeap(h, v)
  }

  /** What the first items leave: their masks, and the fields that none of them has. */
  ghost predicate ItemsSoFar(h0: Heap, items: seq<Value>, i: nat, masked: seq<Value>, cs: seq<Copy>,
      missing: seq<Path>, fields: seq<Path>, host: Host)
    requires HeapClosed(h0) && AllInHeap(h0, items) && i <= |items|
    reads set j, n | 0 <= j < |cs| && n in cs[j].src.Keys :: n
  {
    && |masked| == i && ItemsDone(h0, items, masked, cs, fields, host)
    && missing == Keep(Distinct(fields), FoundAmong(h0, items[..i], fields, host))
  }

  lemma SoFarStep(h0: Heap, items: seq<Value>, i: nat, masked: seq<Value>, cs: seq<Copy>, missing: seq<Path>,
      missing': seq<Path>, fields: seq<Path>, host: Host)
    requires HeapClosed(h0) && AllInHeap(h0, items) && i < |items| && |masked| == i + 1
    requires ItemsDone(h0, items, masked, cs, fields, host)
    requires missing == Keep(Distinct(fields), FoundAmong(h0, items[..i], fields, host))
    requires missing' == Keep(missing, FoundInItem(h0, items[i], fields, host))
    ensures ItemsSoFar(h0, items, i + 1, masked, cs, missing', fields, host)
  {
    FoundAmongSnoc(h0, items, i, fields, host, Distinct(fields));
  }

  lemma SoFarAll(h0: Heap, items: seq<Value>, masked: seq<Value>, cs: seq<Copy>, missing: seq<Path>,
      fields: seq<Path>, host: Host)
    requires HeapClosed(h0) && AllInHeap(h0, items)
    requires ItemsSoFar(h0, items, |items|, masked, cs, missing, fields, host)
    ensures |masked| == |cs| == |items| && ItemsMasked(h0, items, masked, cs, fields, host)
    ensures missing == Keep(Distinct(fields), FoundAmong(h0, items, fields, host))
  {
    assert items[..|items|] == items;
    forall i | 0 <= i < |items| ensures ItemMasked(h0, items[i], masked[i], cs[i], fields, host) {
      assert ItemDone(h0, items[i], masked[i], cs[i], fields, host);
    }
  }

  /** The items in turn. When the fields fit every object among them, each is masked on its own. */
  method ApplyToItems(items: seq<Value>, fields: seq<Path>, host: Host, ghost h0: Heap)
    returns (ok: bool, masked: seq<Value>, missing: seq<Path>, ghost cs: seq<Copy>)
    requires Snapshot(h0.Keys) == h0 && HeapClosed(h0) && AllInHeap(h0, items)
    modifies h0.Keys
    ensures MaskableItems(h0, items, fields, host) ==>
      && ok && Snapshot(h0.Keys) == h0 && |masked| == |cs| == |items|
      && ItemsMasked(h0, items, masked, cs, fields, host)
      && missing == Keep(Distinct(fields), FoundAmong(h0, items, fields, host))
  {
    ghost var good := MaskableItems(h0, items, fields, host);
    ghost var nodes := h0.Keys;
    ok, masked, missing, cs := true, [], Distinct(fields), [];
    KeepAll(missing);
    Prefixes(items);
    for i := 0 to |items|
      invariant h0.Keys <= nodes && fresh(nodes - h0.Keys) && HeapClosed(Snapshot(nodes)) && |masked| == i
      invariant good ==> ok && nodes == h0.Keys && Snapshot(nodes) == h0
      invariant good ==> ItemsSoFar(h0, items, i, masked, cs, missing, fields, host)
    {
      assert items[i] in items;
      ghost var more;
      ghost var before := missing;
      ok, masked, missing, more, cs := AddItem(items, masked, missing, fields, host, h0, cs, nodes);
      nodes := if good then nodes else more;
      if !ok {
        return;
      }
      if good {
        SoFarStep(h0, items, i, masked, cs, before, missing, fields, host);
      }
    }
    if good {
      SoFarAll(h0, items, masked, cs, missing, fields, host);
    }
  }

  /** Response data: a scalar, an object, or an array, whose items are visited in order. */
  datatype Data = Scalar(value: Value) | Object(node: Node) | Items(items: seq<Value>)

  /** The data as it comes: nodes of the input, objects and arrays told apart. */
  ghost predicate IsData(h0: Heap, data: Data) {
    && HeapClosed(h0)
    && match data
       case Scalar(v) => !v.Ref?
       case Object(node) => node in h0 && !h0[node].isArray
       case Items(items) => AllInHeap(h0, items)
  }

  /** The fields fit every object to be masked. */
  ghost predicate MaskableData(h0: Heap, data: Data, fields: seq<Path>, host: Host)
    requires IsData(h0, data)
  {
    match data
    case Scalar(_) => true
    case Object(node) => Maskable(h0, node, fields, host)
    case Items(items) => MaskableItems(h0, items, fields, host)
  }

  ghost function FoundInData(h0: Heap, data: Data, fields: seq<Path>, host: Host): set<Path>
    requires IsData(h0, data)
  {
    match data
    case Scalar(_) => {}
    case Object(node) => FoundIn(h0, Ref(node), fields, host)
    case Items(items) => FoundAmong(h0, items, fields, host)
  }

  ghost predicate DataMasked(h0: Heap, data: Data, masked: Data, cs: seq<Copy>, fields: seq<Path>, host: Host)
    reads set i, n | 0 <= i < |cs| && n in cs[i].src.Keys :: n
  {
    match data
    case Scalar(_) => masked == data
    case Object(node) =>
      masked.Object? && |cs| == 1 && ItemMasked(h0, Ref(node), Ref(masked.node), cs[0], fields, host)
    case Items(items) =>
      masked.Items? && |masked.items| == |cs| == |items| && ItemsMasked(h0, items, masked.items, cs, fields, host)
  }

  /**
    The mask of response data. When the fields fit, the input does not change, the masks
    hold exactly the fields found, and the missing fields are those found nowhere, in the
    order asked for, once each when the data is an array.
   */
  method ApplyFieldMask(data: Data, fields: seq<Path>, host: Host, ghost h0: Heap)
    returns (ok: bool, masked: Data, missing: seq<Path>, ghost cs: seq<Copy>)
    requires Snapshot(h0.Keys) == h0 && IsData(h0, data)
    modifies h0.Keys
    ensures MaskableData(h0, data, fields, host) ==>
      && ok && Snapshot(h0.Keys) == h0 && DataMasked(h0, data, masked, cs, fields, host)
      && missing == Keep(if data.Items? then Distinct(fields) else fields, FoundInData(h0, data, fields, host))
  {
    match data
    case Scalar(_) =>
      ok, masked, missing, cs := true, data, fields, [];
      KeepAll(fields);
    case Object(node) =>
      var m;
      ghost var hs, runs, nodes, c;
      ok, m, missing, hs, runs, nodes, c := ApplyToObject(node, fields, host, h0.Keys);
      masked, cs := Object(m), [c];
      if MaskableData(h0, data, fields, host) {
        CopiedHeap(h0, h0.Keys, nodes, c, m, node, fields, host);
      }
    case Items(items) =>
      var ms;
      ok, ms, missing, cs := ApplyToItems(items, fields, host, h0);
      masked := Items(ms);
  }
}
