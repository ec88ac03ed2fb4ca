/**
  Manual sections of a skill file: taken out of the old file and put into the newly
  generated one, line by line. ManualText says how this is done on texts.
 */
module ManualSections {
  import opened Lists

  /** Which lines hold which marker, and the empty line. */
  datatype Markers<!L> = Markers(start: L -> bool, end: L -> bool, autoEnd: L -> bool, blank: L)

  /** The first line from `from` on that a test holds of, or the length. */
  function FirstFrom<L>(lines: seq<L>, test: L -> bool, from: nat): (i: nat)
    requires from <= |lines|
    ensures from <= i <= |lines| && (i < |lines| ==> test(lines[i])) && forall k :: from <= k < i ==> !test(lines[k])
    decreases |lines| - from
  {
    if from == |lines| || test(lines[from]) then from else FirstFrom(lines, test, from + 1)
  }

  /** From a start marker to the next end marker below it. */
  predicate IsSection<L>(m: Markers<L>, s: seq<L>) {
    |s| >= 2 && m.start(s[0]) && m.end(s[|s| - 1]) && forall k :: 0 < k < |s| - 1 ==> !m.end(s[k])
  }

  /** All sections of a file; a section that is never closed ends the search. */
  function Sections<L>(m: Markers<L>, lines: seq<L>): seq<seq<L>>
    decreases |lines|
  {
    if lines == [] then []
    else if !m.start(lines[0]) then Sections(m, lines[1..])
    else
      var e := FirstFrom(lines, m.end, 1);
      if e == |lines| then [] else [lines[..e + 1]] + Sections(m, lines[e + 1..])
  }

  /** Each placeholder replaced by the next section while there is one. */
  function Replaced<L>(m: Markers<L>, lines: seq<L>, sections: seq<seq<L>>): seq<L>
    decreases |lines|
  {
    if lines == [] then []
    else if !m.start(lines[0]) then [lines[0]] + Replaced(m, lines[1..], sections)
    else
      var e := FirstFrom(lines, m.end, 1);
      if e == |lines| then lines
      else if sections == [] then lines[..e + 1] + Replaced(m, lines[e + 1..], [])
      else sections[0] + Replaced(m, lines[e + 1..], sections[1..])
  }

  /** Sections with an empty line between them. */
  function Blocks<L>(m: Markers<L>, sections: seq<seq<L>>): seq<L> {
    if sections == [] then []
    else if |sections| == 1 then sections[0]
    else sections[0] + ([m.blank] + Blocks(m, sections[1..]))
  }

  /** Text inserted before the first AUTO-GENERATED:END, or at the end of the file. */
  function AppendBeforeEndMarker<L>(m: Markers<L>, lines: seq<L>, more: seq<L>): seq<L> {
    var i := FirstFrom(lines, m.autoEnd, 0);
    if i < |lines| then lines[..i] + (more + ([m.blank] + lines[i..]))
    else lines + ([m.blank] + (more + [m.blank]))
  }

  /** A new file with the preserved sections in it. */
  function Injected<L>(m: Markers<L>, lines: seq<L>, sections: seq<seq<L>>): seq<L> {
    var k := |Sections(m, lines)|;
    if sections == [] then lines
    else
      var result := Replaced(m, lines, sections);
      if k < |sections| then AppendBeforeEndMarker(m, result, Blocks(m, sections[k..])) else result
  }

  lemma {:induction false} Shifted<L>(lines: seq<L>, test: L -> bool, i: nat, j: nat)
    requires i + j <= |lines|
    ensures FirstFrom(lines[i..], test, j) + i == FirstFrom(lines, test, i + j)
    decreases |lines| - i - j
  {
    if i + j < |lines| {
      assert lines[i..][j] == lines[i + j];
      if !test(lines[i + j]) {
        Shifted(lines, test, i, j + 1);
      }
    }
  }

  lemma {:induction false} SectionAt<L>(m: Markers<L>, lines: seq<L>, from: nat, end: nat)
    requires from < end < |lines| && m.start(lines[from]) && m.end(lines[end])
    requires forall k :: from < k < end ==> !m.end(lines[k])
    ensures IsSection(m, lines[from..end + 1])
    ensures Sections(m, lines[from..]) == [lines[from..end + 1]] + Sections(m, lines[end + 1..])
  {
    var rest := lines[from..];
    var e := FirstFrom(rest, m.end, 1);
    assert rest[end - from] == lines[end];
    forall k | 1 <= k < end - from ensures !m.end(rest[k]) {
      assert rest[k] == lines[from + k];
    }
    assert e == end - from;
    assert rest[..e + 1] == lines[from..end + 1] && rest[e + 1..] == lines[end + 1..];
  }

  lemma {:induction false} Unclosed<L>(m: Markers<L>, lines: seq<L>)
    requires lines != [] && m.start(lines[0]) && forall k :: 0 < k < |lines| ==> !m.end(lines[k])
    ensures Sections(m, lines) == []
  {
  }

  // ------------------------------------------------------------- what is read

  lemma {:induction false} SectionsAreSections<L>(m: Markers<L>, lines: seq<L>)
    ensures forall i :: 0 <= i < |Sections(m, lines)| ==> IsSection(m, Sections(m, lines)[i])
    decreases |lines|
  {
    if lines != [] {
      if !m.start(lines[0]) {
        SectionsAreSections(m, lines[1..]);
      } else {
        var e := FirstFrom(lines, m.end, 1);
        if e < |lines| {
          SectionsAreSections(m, lines[e + 1..]);
        }
      }
    }
  }

  /** A section in front is read first. */
  lemma {:induction false} SectionFirst<L>(m: Markers<L>, s: seq<L>, rest: seq<L>)
    requires IsSection(m, s)
    ensures Sections(m, s + rest) == [s] + Sections(m, rest)
  {
    var lines := s + rest;
    forall k | 0 < k < |s| - 1 ensures !m.end(lines[k]) {
      assert lines[k] == s[k];
    }
    SectionAt(m, lines, 0, |s| - 1);
    assert lines[0..] == lines && lines[0..|s|] == s && lines[|s|..] == rest;
  }

  ghost predicate NoStart<L>(m: Markers<L>, lines: seq<L>) {
    forall k :: 0 <= k < |lines| ==> !m.start(lines[k])
  }

  /** Lines without start markers are passed over. */
  lemma {:induction false} PassOver<L>(m: Markers<L>, lines: seq<L>, rest: seq<L>)
    requires NoStart(m, lines)
    ensures Sections(m, lines + rest) == Sections(m, rest)
  {
    if lines == [] {
      assert lines + rest == rest;
    } else {
      PassOver(m, lines[1..], rest);
      assert (lines + rest)[1..] == lines[1..] + rest;
    }
  }

  ghost predicate AllSections<L>(m: Markers<L>, sections: seq<seq<L>>) {
    forall i :: 0 <= i < |sections| ==> IsSection(m, sections[i])
  }

  lemma {:induction false} BlocksRead<L>(m: Markers<L>, sections: seq<seq<L>>, rest: seq<L>)
    requires AllSections(m, sections) && !m.start(m.blank)
    ensures Sections(m, Blocks(m, sections) + rest) == sections + Sections(m, rest)
  {
    if sections == [] {
      assert Blocks(m, sections) + rest == rest;
    } else {
      SectionFirst(m, sections[0], if |sections| == 1 then rest else [m.blank] + (Blocks(m, sections[1..]) + rest));
      if |sections| == 1 {
        assert sections == [sections[0]];
      } else {
        BlocksRead(m, sections[1..], rest);
        PassOver(m, [m.blank], Blocks(m, sections[1..]) + rest);
        assert Blocks(m, sections) + rest == sections[0] + ([m.blank] + (Blocks(m, sections[1..]) + rest));
        assert sections == [sections[0]] + sections[1..];
      }
    }
  }

  // ------------------------------------------------ what injection does to them

  /** The first sections, in place of as many of the file's own. */
  function Overwritten<T>(own: seq<T>, sections: seq<T>): seq<T> {
    if |sections| <= |own| then sections + own[|sections|..] else sections[..|own|]
  }

  /** Filling the placeholders of any text changes just what is read there. */
  lemma {:induction false} ReplacedReads<L>(m: Markers<L>, lines: seq<L>, sections: seq<seq<L>>)
    requires AllSections(m, sections)
    ensures Sections(m, Replaced(m, lines, sections)) == Overwritten(Sections(m, lines), sections)
    decreases |lines|
  {
    if lines == [] {
    } else if !m.start(lines[0]) {
      ReplacedReads(m, lines[1..], sections);
      PassOver(m, [lines[0]], Replaced(m, lines[1..], sections));
    } else {
      var e := FirstFrom(lines, m.end, 1);
      if e < |lines| {
        var own, rest := lines[..e + 1], lines[e + 1..];
        if sections == [] {
          ReplacedReads(m, rest, []);
          SectionFirst(m, own, Replaced(m, rest, []));
        } else {
          ReplacedReads(m, rest, sections[1..]);
          SectionFirst(m, sections[0], Replaced(m, rest, sections[1..]));
          OverwriteFirst(own, Sections(m, rest), sections);
        }
      } else {
        assert Sections(m, lines) == [];
      }
    }
  }

  lemma {:induction false} OverwriteFirst<T>(own: T, rest: seq<T>, sections: seq<T>)
    requires sections != []
    ensures Overwritten([own] + rest, sections) == [sections[0]] + Overwritten(rest, sections[1..])
  {
    var tail := sections[1..];
    assert sections == [sections[0]] + tail;
    if |tail| <= |rest| {
      assert ([own] + rest)[|sections|..] == rest[|tail|..];
      Associative([sections[0]], tail, rest[|tail|..]);
    } else {
      assert sections[..|rest| + 1] == [sections[0]] + tail[..|rest|];
    }
  }

  /** A template whose first AUTO-GENERATED:END stands before its placeholders. */
  ghost predicate EndsFirst<L>(m: Markers<L>, lines: seq<L>, i: nat) {
    i < |lines| && m.autoEnd(lines[i]) && (forall k :: 0 <= k < i ==> !m.autoEnd(lines[k]))
      && NoStart(m, lines[..i + 1])
  }

  lemma {:induction false} ReplacedKeepsFront<L>(m: Markers<L>, lines: seq<L>, i: nat, sections: seq<seq<L>>)
    requires i < |lines| && NoStart(m, lines[..i + 1])
    ensures Replaced(m, lines, sections) == lines[..i + 1] + Replaced(m, lines[i + 1..], sections)
  {
    assert lines[..i + 1][0] == lines[0];
    if i > 0 {
      NoStartTail(m, lines, i);
      ReplacedKeepsFront(m, lines[1..], i - 1, sections);
      assert lines[1..][i..] == lines[i + 1..];
      assert lines[..i + 1] == [lines[0]] + lines[1..][..i];
      Associative([lines[0]], lines[1..][..i], Replaced(m, lines[i + 1..], sections));
    } else {
      assert lines[..1] == [lines[0]];
    }
  }

  lemma {:induction false} NoStartTail<L>(m: Markers<L>, lines: seq<L>, i: nat)
    requires 0 < i < |lines| && NoStart(m, lines[..i + 1])
    ensures NoStart(m, lines[1..][..i])
  {
    forall k | 0 <= k < i ensures !m.start(lines[1..][..i][k]) {
      assert lines[1..][..i][k] == lines[..i + 1][k + 1];
    }
  }

  lemma {:induction false} EndFound<L>(m: Markers<L>, lines: seq<L>, i: nat)
    requires i < |lines| && m.autoEnd(lines[i]) && forall k :: 0 <= k < i ==> !m.autoEnd(lines[k])
    ensures FirstFrom(lines, m.autoEnd, 0) == i
  {
  }

  function RotatedLeft<T>(s: seq<T>, k: nat): seq<T>
    requires k <= |s|
  {
    s[k..] + s[..k]
  }

  /**
    With the end marker before the placeholders, taking the sections out of the new file
    gives those put in, rotated left by the number of placeholders: nothing is lost,
    duplicated or changed.
   */
  lemma {:induction false} InjectedRotates<L>(m: Markers<L>, lines: seq<L>, i: nat, sections: seq<seq<L>>)
    requires EndsFirst(m, lines, i) && AllSections(m, sections) && !m.start(m.blank)
    requires sections != [] && |Sections(m, lines)| <= |sections|
    ensures Sections(m, Injected(m, lines, sections)) == RotatedLeft(sections, |Sections(m, lines)|)
  {
    var k := |Sections(m, lines)|;
    var result := Replaced(m, lines, sections);
    ReplacedReads(m, lines, sections);
    if k < |sections| {
      FrontOfReplaced(m, lines, i, sections);
      FrontPassed(m, lines, i);
      var back := result[i..];
      ReadAround(m, lines[..i], sections[k..], back);
    } else {
      assert sections[k..] == [] && sections[..k] == sections;
    }
  }

  lemma {:induction false} FrontOfReplaced<L>(m: Markers<L>, lines: seq<L>, i: nat, sections: seq<seq<L>>)
    requires EndsFirst(m, lines, i)
    ensures
      var result := Replaced(m, lines, sections);
      FirstFrom(result, m.autoEnd, 0) == i < |result| && result[..i] == lines[..i] && result == lines[..i] + result[i..]
  {
    var result := Replaced(m, lines, sections);
    ReplacedKeepsFront(m, lines, i, sections);
    forall j | 0 <= j <= i ensures result[j] == lines[j] {
      assert result[j] == lines[..i + 1][j];
    }
    EndFound(m, result, i);
  }

  lemma {:induction false} ReadAround<L>(m: Markers<L>, front: seq<L>, sections: seq<seq<L>>, back: seq<L>)
    requires NoStart(m, front) && AllSections(m, sections) && !m.start(m.blank)
    ensures Sections(m, front + (Blocks(m, sections) + ([m.blank] + back))) == sections + Sections(m, front + back)
  {
    PassOver(m, front, Blocks(m, sections) + ([m.blank] + back));
    BlocksRead(m, sections, [m.blank] + back);
    PassOver(m, [m.blank], back);
    PassOver(m, front, back);
  }

  lemma {:induction false} FrontPassed<L>(m: Markers<L>, lines: seq<L>, i: nat)
    requires i < |lines| && NoStart(m, lines[..i + 1])
    ensures NoStart(m, lines[..i])
  {
    forall k | 0 <= k < i ensures !m.start(lines[..i][k]) {
      assert lines[..i][k] == lines[..i + 1][k];
    }
  }

  /** Without an end marker anywhere the sections keep their order. */
  lemma {:induction false} InjectedKeepsOrder<L>(m: Markers<L>, lines: seq<L>, sections: seq<seq<L>>)
    requires AllSections(m, sections) && !m.start(m.blank) && sections != []
    requires |Sections(m, lines)| <= |sections| && Closed(m, lines)
    requires FirstFrom(Replaced(m, lines, sections), m.autoEnd, 0) == |Replaced(m, lines, sections)|
    ensures Sections(m, Injected(m, lines, sections)) == sections
  {
    var k := |Sections(m, lines)|;
    var result := Replaced(m, lines, sections);
    ReplacedReads(m, lines, sections);
    ReplacedClosed(m, lines, sections);
    assert sections == sections[..k] + sections[k..];
    if k < |sections| {
      AppendedRead(m, result, sections[k..]);
    }
  }

  lemma {:induction false} AppendedRead<L>(m: Markers<L>, lines: seq<L>, sections: seq<seq<L>>)
    requires Closed(m, lines) && AllSections(m, sections) && !m.start(m.blank)
    ensures Sections(m, lines + ([m.blank] + (Blocks(m, sections) + [m.blank]))) == Sections(m, lines) + sections
  {
    var more := Blocks(m, sections) + [m.blank];
    ClosedAppend(m, lines, [m.blank] + more);
    PassOver(m, [m.blank], more);
    BlocksRead(m, sections, [m.blank]);
    PassOver(m, [m.blank], []);
    assert [m.blank] + [] == [m.blank] && sections + [] == sections;
  }

  /** No section is left without its end. */
  ghost predicate Closed<L>(m: Markers<L>, lines: seq<L>)
    decreases |lines|
  {
    if lines == [] then true
    else if !m.start(lines[0]) then Closed(m, lines[1..])
    else
      var e := FirstFrom(lines, m.end, 1);
      e < |lines| && Closed(m, lines[e + 1..])
  }

  lemma {:induction false} ClosedSection<L>(m: Markers<L>, s: seq<L>, rest: seq<L>)
    requires IsSection(m, s)
    ensures Closed(m, s + rest) == Closed(m, rest)
  {
    var lines := s + rest;
    var e := FirstFrom(lines, m.end, 1);
    forall k | 1 <= k < |s| - 1 ensures !m.end(lines[k]) {
      assert lines[k] == s[k];
    }
    assert lines[0] == s[0] && lines[|s| - 1] == s[|s| - 1];
    assert e == |s| - 1 && lines[e + 1..] == rest;
  }

  lemma {:induction false} ReplacedClosed<L>(m: Markers<L>, lines: seq<L>, sections: seq<seq<L>>)
    requires AllSections(m, sections) && Closed(m, lines)
    ensures Closed(m, Replaced(m, lines, sections))
    decreases |lines|
  {
    if lines == [] {
    } else if !m.start(lines[0]) {
      ReplacedClosed(m, lines[1..], sections);
      assert ([lines[0]] + Replaced(m, lines[1..], sections))[1..] == Replaced(m, lines[1..], sections);
    } else {
      var e := FirstFrom(lines, m.end, 1);
      var rest := lines[e + 1..];
      if sections == [] {
        ReplacedClosed(m, rest, []);
        ClosedSection(m, lines[..e + 1], Replaced(m, rest, []));
      } else {
        ReplacedClosed(m, rest, sections[1..]);
        ClosedSection(m, sections[0], Replaced(m, rest, sections[1..]));
      }
    }
  }

  lemma {:induction false} ClosedAppend<L>(m: Markers<L>, lines: seq<L>, more: seq<L>)
    requires Closed(m, lines)
    ensures Sections(m, lines + more) == Sections(m, lines) + Sections(m, more)
    decreases |lines|
  {
    if lines == [] {
      assert lines + more == more;
    } else if !m.start(lines[0]) {
      ClosedAppend(m, lines[1..], more);
      assert (lines + more)[1..] == lines[1..] + more;
    } else {
      var e := FirstFrom(lines, m.end, 1);
      var s, rest := lines[..e + 1], lines[e + 1..];
      ClosedAppend(m, rest, more);
      SectionFirst(m, s, rest + more);
      assert lines == s + rest;
      Associative(s, rest, more);
      Associative([s], Sections(m, rest), Sections(m, more));
    }
  }

  // -------------------------------------------------------------- many rounds

  function Iterated<T>(f: T -> T, x: T, n: nat): T {
    if n == 0 then x else f(Iterated(f, x, n - 1))
  }

  /** A step that moves the first element to the end, taken `n` times. */
  lemma {:induction false} IteratedRotates<T>(f: seq<T> -> seq<T>, s: seq<T>, n: nat)
    requires s != [] && n <= |s|
    requires forall k :: 0 <= k < |s| ==> f(RotatedLeft(s, k)) == RotatedLeft(RotatedLeft(s, k), 1)
    ensures Iterated(f, s, n) == RotatedLeft(s, n)
  {
    if n == 0 {
      NoRotation(s);
    } else {
      IteratedRotates(f, s, n - 1);
      OneFurther(s, n - 1);
    }
  }

  lemma {:induction false} RotatedSections<L>(m: Markers<L>, sections: seq<seq<L>>, k: nat)
    requires AllSections(m, sections) && k <= |sections|
    ensures AllSections(m, RotatedLeft(sections, k))
  {
  }

  lemma {:induction false} NoRotation<T>(s: seq<T>)
    ensures RotatedLeft(s, 0) == s && RotatedLeft(s, |s|) == s
  {
  }

  lemma {:induction false} OneFurther<T>(s: seq<T>, n: nat)
    requires n < |s|
    ensures RotatedLeft(RotatedLeft(s, n), 1) == RotatedLeft(s, n + 1)
  {
    assert s[n..] == [s[n]] + s[n + 1..];
  }

  /** A template with one section below its end marker. */
  lemma {:induction false} OneSection<L>(m: Markers<L>, above: seq<L>, end: L, notes: seq<L>, placeholder: seq<L>,
      below: seq<L>)
    requires NoStart(m, above) && (forall k :: 0 <= k < |above| ==> !m.autoEnd(above[k]))
    requires m.autoEnd(end) && !m.start(end) && NoStart(m, notes) && IsSection(m, placeholder) && NoStart(m, below)
    ensures var lines := above + ([end] + (notes + (placeholder + below)));
            EndsFirst(m, lines, |above|) && |Sections(m, lines)| == 1
  {
    var lines := above + ([end] + (notes + (placeholder + below)));
    assert lines[..|above| + 1] == above + [end];
    assert forall k :: 0 <= k < |above| ==> lines[k] == above[k];
    PassOver(m, above, [end] + (notes + (placeholder + below)));
    PassOver(m, [end], notes + (placeholder + below));
    PassOver(m, notes, placeholder + below);
    SectionFirst(m, placeholder, below);
    PassOver(m, below, []);
    assert below + [] == below;
  }
}
