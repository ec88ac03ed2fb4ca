/**
  Manual sections as texts: the expressions that find markers and placeholders, the
  replacement of placeholders, and what of it the lines of a file show.
 */
module ManualText {
  import opened Lists
  import opened Strings
  import opened ManualSections
  import opened MergeContent

  /** The names in the markers around a section, and in the one that ends the generated block. */
  datatype Names = Names(start: string, end: string, autoEnd: string) {
    predicate Valid() {
      IsName(start) && IsName(end) && IsName(autoEnd) && '\n' !in start && '\n' !in end && '\n' !in autoEnd
    }
  }

  const Manual := Names("MANUAL:START", "MANUAL:END", End)
  const Placeholder := "<!-- " + ("MANUAL:START" + " -->")

  lemma {:induction false} ManualNames()
    ensures Manual.Valid()
  {
  }

  /** A line with a marker somewhere in it. */
  predicate Holds(line: string, name: string) {
    FindMark(line, name).Position?
  }

  function TextMarkers(p: Names): Markers<string> {
    Markers(line => Holds(line, p.start), line => Holds(line, p.end), line => Holds(line, p.autoEnd), "")
  }

  function TextsOf(sections: seq<seq<string>>): (r: seq<string>)
    ensures |r| == |sections| && forall i :: 0 <= i < |r| ==> r[i] == Join(sections[i], "\n")
  {
    seq(|sections|, i requires 0 <= i < |sections| => Join(sections[i], "\n"))
  }

  function LineLists(texts: seq<string>): (r: seq<seq<string>>)
    ensures |r| == |texts| && forall i :: 0 <= i < |r| ==> r[i] == LinesOf(texts[i])
  {
    seq(|texts|, i requires 0 <= i < |texts| => LinesOf(texts[i]))
  }

  /** The manual sections of a file, each with its markers. */
  function Extracted(file: string): seq<string> {
    TextsOf(Sections(TextMarkers(Manual), LinesOf(file)))
  }

  // -------------------------------------------------------------- placeholders

  datatype Match = NoMatch | Match(start: nat, end: nat)

  lemma {:induction false} MarkFound(s: string, name: string)
    requires IsName(name)
    ensures FindMark(s, name).Position?
      ==> FindMark(s, name).index < |s| && MarkLength(s[FindMark(s, name).index..], name) > 0
  {
    FindMarkIsFirst(s, name);
  }

  /** From the first start marker to the first end marker behind it. */
  function FindBetween(s: string, p: Names): (r: Match)
    requires p.Valid()
    ensures r.Match? ==> r.start < r.end <= |s|
  {
    MarkFound(s, p.start);
    Between(s, FindMark(s, p.start), BehindStart(p))
  }

  function Between(s: string, start: Position, behind: string -> Position): Match {
    if start.Absent? || start.index > |s| then NoMatch
    else match behind(s[start.index..]) case Absent => NoMatch case Position(n) => Match(start.index, start.index + n)
  }

  /** Where the end marker ends that follows a start marker. */
  function BehindStart(p: Names): string -> Position {
    (s: string) => Behind(s, MarkLength(s, p.start), p.end)
  }

  function Behind(s: string, n: nat, name: string): (r: Position)
    requires n <= |s|
    ensures r.Position? ==> n <= r.index <= |s|
  {
    match EndOf(s[n..], name) case Absent => Absent case Position(k) => Position(n + k)
  }

  /** Where the first marker ends. */
  function EndOf(s: string, name: string): (r: Position)
    ensures r.Position? ==> r.index <= |s|
  {
    match FindMark(s, name) case Absent => Absent case Position(j) => Position(j + MarkLength(s[j..], name))
  }

  /** An expression whose matches are never empty. */
  type Finder = f: string -> Match | forall s :: f(s).Match? ==> f(s).start < f(s).end <= |s|
    witness (s: string) => NoMatch

  function Placeholders(p: Names): Finder
    requires p.Valid()
  {
    (s: string) => FindBetween(s, p)
  }

  function FindManual(): Finder {
    ManualNames();
    Placeholders(Manual)
  }

  function Used<T>(sections: seq<T>): seq<T> {
    if sections == [] then [] else sections[1..]
  }

  /** Every match in turn, replaced while there are sections. */
  function ReplaceAll(find: Finder, s: string, sections: seq<string>): string
    decreases |s|
  {
    match find(s)
    case NoMatch => s
    case Match(i, e) => Filled(s, i, e, sections, ReplaceAll(find, s[e..], Used(sections)))
  }

  function Filled(s: string, i: nat, e: nat, sections: seq<string>, more: string): string
    requires i <= e <= |s|
  {
    s[..i] + ((if sections == [] then s[i..e] else sections[0]) + more)
  }

  function CountAll(find: Finder, s: string): nat
    decreases |s|
  {
    match find(s) case NoMatch => 0 case Match(_, e) => 1 + CountAll(find, s[e..])
  }

  /** Text inserted before the first AUTO-GENERATED:END, or at the end of the file. */
  function AppendText(s: string, more: string): string {
    match FindMark(s, End)
    case Position(i) => s[..i] + (more + ("\n\n" + s[i..]))
    case Absent => s + ("\n\n" + (more + "\n"))
  }

  /** A new file with the preserved sections in it. */
  function InjectText(content: string, sections: seq<string>): string {
    if sections == [] then content
    else if !Includes(content, Placeholder) then AppendText(content, Join(sections, "\n\n"))
    else WithRest(ReplaceAll(FindManual(), content, sections), CountAll(FindManual(), content), sections)
  }

  /** The sections for which there was no placeholder, in front of the end marker. */
  function WithRest(result: string, k: nat, sections: seq<string>): string {
    if k < |sections| then AppendText(result, Join(sections[k..], "\n\n")) else result
  }

  // ------------------------------------------------------------------ the code

  method ExtractManualSections(file: string) returns (sections: seq<string>)
    ensures sections == Extracted(file)
  {
    sections := ScanLines(TextMarkers(Manual), LinesOf(file));
  }

  /** The sections of a file, found line by line. */
  method ScanLines(m: Markers<string>, lines: seq<string>) returns (sections: seq<string>)
    ensures sections == TextsOf(Sections(m, lines))
  {
    sections := [];
    var inManual, sectionLines := false, [];
    ghost var found: seq<seq<string>>, from: nat := [], 0;
    for i := 0 to |lines|
      invariant sections == TextsOf(found)
      invariant Scanning(m, lines, i, from, inManual, sectionLines)
      invariant found + Sections(m, lines[from..]) == Sections(m, lines)
    {
      var line := lines[i];
      ScanStep(m, lines, i, from, inManual, sectionLines);
      if !inManual && m.start(line) {
        inManual := true;
        sectionLines := [line];
      } else if inManual {
        sectionLines := sectionLines + [line];
        if m.end(line) {
          sections := sections + [Join(sectionLines, "\n")];
          Associative(found, [sectionLines], Sections(m, lines[i + 1..]));
          found := found + [sectionLines];
          inManual, sectionLines, from := false, [], i + 1;
        }
      } else {
        from := i + 1;
      }
    }
    if inManual {
      Unclosed(m, lines[from..]);
    }
    assert found + [] == found;
  }

  /** Where the search stands: in a section begun at `from`, or in none. */
  ghost predicate Scanning(m: Markers<string>, lines: seq<string>, i: nat, from: nat, inManual: bool,
      section: seq<string>) {
    && from <= i <= |lines|
    && (inManual ==>
          from < i && section == lines[from..i] && m.start(lines[from]) &&
            forall k :: from < k < i ==> !m.end(lines[k]))
    && (!inManual ==> from == i)
  }

  /** What one more line does to the search. */
  lemma {:induction false} ScanStep(m: Markers<string>, lines: seq<string>, i: nat, from: nat, inManual: bool,
      section: seq<string>)
    requires Scanning(m, lines, i, from, inManual, section) && i < |lines|
    ensures !inManual && m.start(lines[i]) ==> Scanning(m, lines, i + 1, from, true, [lines[i]])
    ensures !inManual && !m.start(lines[i]) ==> Sections(m, lines[from..]) == Sections(m, lines[i + 1..])
    ensures inManual && !m.end(lines[i]) ==> Scanning(m, lines, i + 1, from, true, section + [lines[i]])
    ensures inManual && m.end(lines[i]) ==>
      Sections(m, lines[from..]) == [section + [lines[i]]] + Sections(m, lines[i + 1..])
  {
    assert lines[i..][1..] == lines[i + 1..] && lines[i..i + 1] == [lines[i]];
    if inManual {
      assert lines[from..i + 1] == lines[from..i] + [lines[i]];
      if m.end(lines[i]) {
        SectionAt(m, lines, from, i);
      }
    }
  }

  /** Every placeholder in turn, with a counter of the sections used. */
  method ReplaceManualPlaceholders(find: Finder, content: string, sections: seq<string>)
    returns (result: string, sectionIdx: nat)
    ensures result == ReplaceAll(find, content, sections)
    ensures sectionIdx == if CountAll(find, content) <= |sections| then CountAll(find, content) else |sections|
  {
    result, sectionIdx := "", 0;
    var rest := content;
    ghost var found: nat := 0;
    var next := find(rest);
    while next.Match?
      invariant next == find(rest)
      invariant sectionIdx == (if found <= |sections| then found else |sections|)
      invariant result + ReplaceAll(find, rest, sections[sectionIdx..]) == ReplaceAll(find, content, sections)
      invariant found + CountAll(find, rest) == CountAll(find, content)
      decreases |rest|
    {
      var piece := rest[next.start..next.end];
      if sectionIdx < |sections| {
        piece := sections[sectionIdx];
      }
      ghost var left := sections[sectionIdx..];
      assert Used(left) == sections[if sectionIdx < |sections| then sectionIdx + 1 else sectionIdx..];
      ghost var more := ReplaceAll(find, rest[next.end..], Used(left));
      Associative(result, rest[..next.start], piece + more);
      Associative(result + rest[..next.start], piece, more);
      if sectionIdx < |sections| {
        sectionIdx := sectionIdx + 1;
      }
      result := result + rest[..next.start] + piece;
      rest, found := rest[next.end..], found + 1;
      next := find(rest);
    }
    result := result + rest;
  }

  method InjectManualSections(content: string, sections: seq<string>) returns (result: string)
    ensures result == InjectText(content, sections)
  {
    if |sections| == 0 {
      return content;
    }
    if !Includes(content, Placeholder) {
      return AppendText(content, Join(sections, "\n\n"));
    }
    var sectionIdx;
    result, sectionIdx := ReplaceManualPlaceholders(FindManual(), content, sections);
    if sectionIdx < |sections| {
      result := AppendText(result, Join(sections[sectionIdx..], "\n\n"));
    }
  }

  // ------------------------------------------------------ markers and their lines

  /** No marker starts in the line, whatever the next line is. */
  ghost predicate Plain(line: string, name: string) {
    forall i :: 0 <= i < |line| && StartsWith(line[i..], "<!--") ==> NoName(line[i..], name)
  }

  /** Something other than the name stands behind the opening of a comment. */
  predicate NoName(s: string, name: string)
    requires StartsWith(s, "<!--")
  {
    TrimStart(s[4..]) != "" && !StartsWith(TrimStart(s[4..]), name)
  }

  /** The line is a marker and nothing else, or no marker starts in it. */
  ghost predicate Tidy(line: string, name: string) {
    MarkLength(line, name) == |line| > 0 || Plain(line, name)
  }

  ghost predicate AllTidy(lines: seq<string>, name: string) {
    forall k :: 0 <= k < |lines| ==> Tidy(lines[k], name)
  }

  ghost predicate AllPlain(lines: seq<string>, name: string) {
    forall k :: 0 <= k < |lines| ==> Plain(lines[k], name)
  }

  /** The end of a text, or another line of it. */
  predicate GoesOn(z: string) {
    z == "" || z[0] == '\n'
  }

  lemma {:induction false} PlainHere(line: string, name: string, z: string, i: nat)
    requires Plain(line, name) && GoesOn(z) && '\n' !in name && i < |line|
    ensures MarkLength((line + z)[i..], name) == 0
  {
    var x := line[i..];
    assert (line + z)[i..] == x + z;
    if z == "" {
      assert x + z == x;
    } else {
      StartsWithin(x, z, "<!--");
      if StartsWith(x, "<!--") {
        assert NoName(x, name) && (x + z)[4..] == x[4..] + z;
        TrimStays(x[4..], z);
        StartsWithin(TrimStart(x[4..]), z, name);
      }
    }
  }

  /** A line holds a marker exactly when it is one. */
  lemma {:induction false} TidyHolds(line: string, name: string)
    requires IsName(name) && '\n' !in name && Tidy(line, name)
    ensures Holds(line, name) <==> MarkLength(line, name) == |line| > 0
    ensures !Holds(line, name) ==> Plain(line, name)
  {
    FindMarkIsFirst(line, name);
    if MarkLength(line, name) == |line| > 0 {
      assert line[0..] == line;
    } else {
      forall i | 0 <= i < |line| ensures MarkLength(line[i..], name) == 0 {
        PlainHere(line, name, "", i);
        assert line + "" == line;
      }
    }
  }

  /** Lines with a line feed before each. */
  function Trailing(lines: seq<string>): string {
    if lines == [] then "" else "\n" + Join(lines, "\n")
  }

  lemma {:induction false} TrailingFirst(line: string, lines: seq<string>)
    ensures Trailing([line] + lines) == ("\n" + line) + Trailing(lines)
  {
    assert ([line] + lines)[1..] == lines;
    if lines == [] {
      assert Trailing([line]) == "\n" + line && ("\n" + line) + "" == "\n" + line;
    } else {
      Associative("\n", line, Trailing(lines));
    }
  }

  lemma {:induction false} TrailingAppend(a: seq<string>, b: seq<string>)
    ensures Trailing(a + b) == Trailing(a) + Trailing(b)
  {
    if a == [] {
      assert a + b == b;
    } else if b == [] {
      assert a + b == a;
    } else {
      JoinAppend(a, b, "\n");
      Associative("\n", Join(a, "\n"), Trailing(b));
    }
  }

  lemma {:induction false} TrailingSame(a: seq<string>, s: string)
    requires a != [] && "\n" + s == Trailing(a)
    ensures s == Join(a, "\n")
  {
    assert ("\n" + s)[1..] == s && ("\n" + Join(a, "\n"))[1..] == Join(a, "\n");
  }

  /** Text in which no marker starts, even with what follows. */
  ghost predicate Passed(x: string, y: string, name: string) {
    forall i :: 0 <= i < |x| ==> MarkLength((x + y)[i..], name) == 0
  }

  /** One step of the search. */
  lemma {:induction false} FindShift(x: string, y: string, name: string)
    requires Passed(x, y, name)
    ensures FindMark(x + y, name) == Shift(FindMark(y, name), |x|)
  {
    if x == "" {
      assert x + y == y;
    } else {
      var s := x + y;
      assert s[0..] == s && s[1..] == x[1..] + y;
      forall i | 0 <= i < |x[1..]| ensures MarkLength((x[1..] + y)[i..], name) == 0 {
        assert (x[1..] + y)[i..] == s[i + 1..];
      }
      FindShift(x[1..], y, name);
    }
  }

  lemma {:induction false} PlainPassed(line: string, z: string, name: string)
    requires Plain(line, name) && GoesOn(z) && '\n' !in name
    ensures Passed("\n" + line, z, name)
  {
    var x := "\n" + line;
    forall i | 0 <= i < |x| ensures MarkLength((x + z)[i..], name) == 0 {
      if i > 0 {
        assert (x + z)[i..] == (line + z)[i - 1..];
        PlainHere(line, name, z, i - 1);
      } else {
        NoMarkAtBreak(x + z, name);
      }
    }
  }

  lemma {:induction false} NoMarkAtBreak(s: string, name: string)
    requires s != "" && s[0] == '\n'
    ensures MarkLength(s[0..], name) == 0
  {
    assert s[0..] == s;
    if MarkLength(s, name) > 0 {
      MarkOpens(s, name);
    }
  }

  /** The first line that holds a marker. */
  function FirstHolding(lines: seq<string>, name: string): (e: nat)
    ensures e <= |lines|
  {
    if lines == [] || Holds(lines[0], name) then 0 else 1 + FirstHolding(lines[1..], name)
  }

  lemma {:induction false} FirstHoldingIs(lines: seq<string>, name: string, test: string -> bool)
    requires forall line :: test(line) <==> Holds(line, name)
    ensures FirstFrom(lines, test, 0) == FirstHolding(lines, name)
  {
    if lines != [] && !Holds(lines[0], name) {
      FirstHoldingIs(lines[1..], name, test);
      Shifted(lines, test, 1, 0);
    }
  }

  /** The first line that holds a marker is where the text has its first. */
  lemma {:induction false} FindInLines(lines: seq<string>, name: string)
    requires IsName(name) && '\n' !in name && AllTidy(lines, name)
    ensures
      var e := FirstHolding(lines, name);
      FindMark(Trailing(lines), name) == if e == |lines| then Absent else Position(|Trailing(lines[..e])| + 1)
  {
    if lines != [] {
      var line, rest := lines[0], lines[1..];
      assert lines == [line] + rest;
      TidyHolds(line, name);
      if Holds(line, name) {
        TrailingFirst(line, rest);
        MarkedFirst(line, Trailing(rest), name);
      } else {
        FindInLines(rest, name);
        PlainFirst(line, rest, name);
        var e := FirstHolding(rest, name);
        TrailingFirst(line, rest[..e]);
        CutBehindFirst(line, rest, e);
      }
    }
  }

  lemma {:induction false} PlainFirst(line: string, rest: seq<string>, name: string)
    requires Plain(line, name) && '\n' !in name
    ensures FindMark(Trailing([line] + rest), name) == Shift(FindMark(Trailing(rest), name), 1 + |line|)
  {
    TrailingFirst(line, rest);
    PlainPassed(line, Trailing(rest), name);
    FindShift("\n" + line, Trailing(rest), name);
  }

  function Shift(i: Position, n: nat): Position {
    match i case Absent => Absent case Position(k) => Position(n + k)
  }

  /** A line that is a marker is found first. */
  lemma {:induction false} MarkedFirst(line: string, z: string, name: string)
    requires IsName(name) && MarkLength(line, name) == |line| > 0
    ensures FindMark(("\n" + line) + z, name) == Position(1) && MarkLength(line + z, name) == |line|
  {
    var s := ("\n" + line) + z;
    MarkLengthPrefix(line, z, name);
    assert line[..|line|] == line;
    NoMarkAtBreak(s, name);
    assert s[0..] == s && s[1..] == line + z;
  }

  // ------------------------------------------------- placeholders line by line

  ghost predicate TidyLines(p: Names, lines: seq<string>) {
    AllTidy(lines, p.start) && AllTidy(lines, p.end)
  }

  ghost predicate NoneEmpty(sections: seq<seq<string>>) {
    forall i :: 0 <= i < |sections| ==> sections[i] != []
  }

  function Moved(r: Match, n: nat): Match {
    match r case NoMatch => NoMatch case Match(i, e) => Match(n + i, n + e)
  }

  lemma {:induction false} ShiftedPlaceholder(p: Names, x: string, y: string)
    requires p.Valid() && Passed(x, y, p.start)
    ensures FindBetween(x + y, p) == Moved(FindBetween(y, p), |x|)
  {
    FindShift(x, y, p.start);
    BetweenMoved(x, y, FindMark(y, p.start), BehindStart(p));
  }

  lemma BetweenMoved(x: string, y: string, start: Position, behind: string -> Position)
    ensures Between(x + y, Shift(start, |x|), behind) == Moved(Between(y, start, behind), |x|)
  {
    if start.Position? && start.index <= |y| {
      assert (x + y)[|x| + start.index..] == y[start.index..];
    }
  }

  /** Text that no match touches is passed over. */
  lemma {:induction false} PassAll(find: Finder, x: string, y: string, sections: seq<string>)
    requires find(x + y) == Moved(find(y), |x|)
    ensures ReplaceAll(find, x + y, sections) == x + ReplaceAll(find, y, sections)
  {
    if find(y).Match? {
      SameBehind(x, y, find(y).end);
      PassMatch(find, x, y, x + y, find(y).start, find(y).end, y[find(y).end..], sections);
    }
  }

  lemma {:induction false} PassMatch(find: Finder, x: string, y: string, z: string, i: nat, e: nat, rest: string,
                                     sections: seq<string>)
    requires find(y) == Match(i, e) && find(z) == Match(|x| + i, |x| + e)
    requires z == x + y && z[|x| + e..] == rest && y[e..] == rest
    ensures ReplaceAll(find, z, sections) == x + ReplaceAll(find, y, sections)
  {
    var more := ReplaceAll(find, rest, Used(sections));
    MatchReplaced(find, z, |x| + i, |x| + e, rest, sections);
    MatchReplaced(find, y, i, e, rest, sections);
    PassFilled(x, y, i, e, sections, more, ReplaceAll(find, z, sections), ReplaceAll(find, y, sections));
  }

  lemma {:induction false} PassCount(find: Finder, x: string, y: string)
    requires find(x + y) == Moved(find(y), |x|)
    ensures CountAll(find, x + y) == CountAll(find, y)
  {
    if find(y).Match? {
      SameBehind(x, y, find(y).end);
    }
  }

  lemma PassFilled(x: string, y: string, i: nat, e: nat, sections: seq<string>, more: string, a: string, b: string)
    requires i <= e <= |y| && a == Filled(x + y, |x| + i, |x| + e, sections, more)
      && b == Filled(y, i, e, sections, more)
    ensures a == x + b
  {
    FilledMoved(x, y, i, e, sections, more);
  }

  lemma {:induction false} MatchReplaced(find: Finder, s: string, i: nat, e: nat, rest: string, sections: seq<string>)
    requires find(s) == Match(i, e) && s[e..] == rest
    ensures ReplaceAll(find, s, sections) == Filled(s, i, e, sections, ReplaceAll(find, rest, Used(sections)))
  {
  }

  lemma SameBehind(x: string, y: string, i: nat)
    requires i <= |y|
    ensures |x| + i <= |x + y| && (x + y)[|x| + i..] == y[i..]
  {
  }

  lemma FilledMoved(x: string, y: string, i: nat, e: nat, sections: seq<string>, more: string)
    requires i <= e <= |y|
    ensures Filled(x + y, |x| + i, |x| + e, sections, more) == x + Filled(y, i, e, sections, more)
  {
    assert (x + y)[..|x| + i] == x + y[..i] && (x + y)[|x| + i..|x| + e] == y[i..e];
    Associative(x, y[..i], (if sections == [] then y[i..e] else sections[0]) + more);
  }

  /** A start marker on the first line, and the first line with an end marker below it. */
  lemma {:induction false} PlaceholderFirst(p: Names, line: string, rest: seq<string>)
    requires p.Valid() && MarkLength(line, p.start) == |line| > 0 && AllTidy(rest, p.end)
    ensures
      var e := FirstHolding(rest, p.end);
      FindBetween(line + Trailing(rest), p)
        == if e == |rest| then NoMatch else Match(0, |line + Trailing(rest[..e + 1])|)
  {
    BehindLine(line, rest, p.end);
    MarkFirst(line, Trailing(rest), p.start);
    BetweenFirst(line + Trailing(rest), BehindStart(p));
  }

  lemma {:induction false} MarkFirst(line: string, below: string, name: string)
    requires IsName(name) && MarkLength(line, name) == |line| > 0
    ensures MarkLength(line + below, name) == |line| && FindMark(line + below, name) == Position(0)
  {
    MarkLengthPrefix(line, below, name);
    assert line[..|line|] == line;
  }

  lemma BetweenFirst(s: string, behind: string -> Position)
    ensures Between(s, Position(0), behind) == match behind(s) case Absent => NoMatch case Position(n) => Match(0, n)
  {
    assert s[0..] == s;
  }

  lemma {:induction false} BehindLine(line: string, rest: seq<string>, name: string)
    requires IsName(name) && '\n' !in name && AllTidy(rest, name)
    ensures
      var e := FirstHolding(rest, name);
      Behind(line + Trailing(rest), |line|, name)
        == if e == |rest| then Absent else Position(|line + Trailing(rest[..e + 1])|)
  {
    BehindIs(line, Trailing(rest), name);
    EndInLines(rest, name);
  }

  lemma BehindIs(line: string, below: string, name: string)
    ensures Behind(line + below, |line|, name) == Shift(EndOf(below, name), |line|)
  {
    assert (line + below)[|line|..] == below;
  }

  lemma {:induction false} EndFound(s: string, name: string, j: nat)
    requires FindMark(s, name) == Position(j) && j <= |s|
    ensures EndOf(s, name) == Position(j + MarkLength(s[j..], name))
  {
  }

  lemma {:induction false} EndInLines(rest: seq<string>, name: string)
    requires IsName(name) && '\n' !in name && AllTidy(rest, name)
    ensures
      var e := FirstHolding(rest, name);
      EndOf(Trailing(rest), name) == if e == |rest| then Absent else Position(|Trailing(rest[..e + 1])|)
  {
    FindInLines(rest, name);
    var e := FirstHolding(rest, name);
    if e < |rest| {
      EndOfLine(rest, name, e);
      EndFound(Trailing(rest), name, |Trailing(rest[..e])| + 1);
    }
  }

  /** The length of the marker found. */
  lemma {:induction false} EndOfLine(rest: seq<string>, name: string, e: nat)
    requires IsName(name) && '\n' !in name && e == FirstHolding(rest, name) < |rest| && AllTidy(rest, name)
    ensures
      var j := |Trailing(rest[..e])| + 1;
      j <= |Trailing(rest)| && j + MarkLength(Trailing(rest)[j..], name) == |Trailing(rest[..e + 1])|
  {
    HoldingHolds(rest, name);
    TidyHolds(rest[e], name);
    LineInText(rest, e);
    var line, back := rest[e], Trailing(rest[e + 1..]);
    MarkLengthPrefix(line, back, name);
    assert line[..|line|] == line;
  }

  /** A line in the text of all lines. */
  lemma {:induction false} LineInText(lines: seq<string>, e: nat)
    requires e < |lines|
    ensures
      var j := |Trailing(lines[..e])| + 1;
      && j <= |Trailing(lines)| && Trailing(lines)[j..] == lines[e] + Trailing(lines[e + 1..])
      && |Trailing(lines[..e + 1])| == j + |lines[e]|
  {
    var front, back := lines[..e], lines[e + 1..];
    AroundOne(lines, e);
    TrailingAppend(front, [lines[e]] + back);
    TrailingAppend(front, [lines[e]]);
    TrailingFirst(lines[e], back);
  }

  lemma AroundOne<T>(s: seq<T>, e: nat)
    requires e < |s|
    ensures s == s[..e] + ([s[e]] + s[e + 1..]) && s[..e + 1] == s[..e] + [s[e]]
  {
  }

  lemma {:induction false} HoldingHolds(lines: seq<string>, name: string)
    ensures FirstHolding(lines, name) < |lines| ==> Holds(lines[FirstHolding(lines, name)], name)
  {
    if lines != [] && !Holds(lines[0], name) {
      HoldingHolds(lines[1..], name);
    }
  }

  /**
    What an expression finds in the text of lines, one line at a time: nothing in a line
    without a start, and from one with a start to the next line with an end.
   */
  ghost predicate FindsLines(find: Finder, m: Markers<string>, lines: seq<string>) {
    forall k :: 0 <= k < |lines| ==> FindsLine(find, m, lines[k], lines[k + 1..])
  }

  ghost predicate FindsLine(find: Finder, m: Markers<string>, line: string, rest: seq<string>) {
    var s, e := line + Trailing(rest), FirstFrom([line] + rest, m.end, 1);
    && find("\n" + s) == Moved(find(s), 1)
    && (!m.start(line) ==> find(s) == Moved(find(Trailing(rest)), |line|))
    && (m.start(line) ==> find(s) == if e == |rest| + 1 then NoMatch else Match(0, |line + Trailing(rest[..e])|))
  }

  lemma {:induction false} FindsTail(find: Finder, m: Markers<string>, lines: seq<string>, n: nat)
    requires FindsLines(find, m, lines) && n <= |lines|
    ensures FindsLines(find, m, lines[n..])
  {
    var rest := lines[n..];
    forall k | 0 <= k < |rest| ensures FindsLine(find, m, rest[k], rest[k + 1..]) {
      assert rest[k] == lines[n + k] && rest[k + 1..] == lines[n + k + 1..];
    }
  }

  /** Replacing in the text is replacing in the lines, and as many placeholders are found. */
  lemma {:induction false} ReplaceBelow(find: Finder, m: Markers<string>, lines: seq<string>,
      sections: seq<seq<string>>)
    requires FindsLines(find, m, lines) && find("") == NoMatch && NoneEmpty(sections)
    ensures ReplaceAll(find, Trailing(lines), TextsOf(sections)) == Trailing(Replaced(m, lines, sections))
    ensures CountAll(find, Trailing(lines)) == |Sections(m, lines)|
    decreases |lines|
  {
    if lines != [] {
      var line, rest := lines[0], lines[1..];
      assert FindsLine(find, m, line, rest);
      var e := FirstFrom(lines, m.end, 1);
      if !m.start(line) {
        FindsTail(find, m, lines, 1);
        ReplaceBelow(find, m, rest, sections);
        PlainStep(find, m, lines, sections);
      } else if e < |lines| {
        FindsTail(find, m, lines, e + 1);
        ReplaceBelow(find, m, lines[e + 1..], Used(sections));
        MarkedStep(find, m, lines, e, sections);
      } else {
        OpenStep(find, m, lines, sections);
      }
    }
  }

  lemma {:induction false} BreakStep(find: Finder, line: string, rest: seq<string>, sections: seq<string>)
    requires find("\n" + (line + Trailing(rest))) == Moved(find(line + Trailing(rest)), 1)
    ensures Trailing([line] + rest) == "\n" + (line + Trailing(rest))
    ensures ReplaceAll(find, Trailing([line] + rest), sections)
      == "\n" + ReplaceAll(find, line + Trailing(rest), sections)
    ensures CountAll(find, Trailing([line] + rest)) == CountAll(find, line + Trailing(rest))
  {
    TrailingFirst(line, rest);
    Associative("\n", line, Trailing(rest));
    PassAll(find, "\n", line + Trailing(rest), sections);
    PassCount(find, "\n", line + Trailing(rest));
  }

  lemma {:induction false} PlainStep(find: Finder, m: Markers<string>, lines: seq<string>, sections: seq<seq<string>>)
    requires lines != [] && FindsLine(find, m, lines[0], lines[1..]) && !m.start(lines[0])
    requires ReplaceAll(find, Trailing(lines[1..]), TextsOf(sections)) == Trailing(Replaced(m, lines[1..], sections))
    requires CountAll(find, Trailing(lines[1..])) == |Sections(m, lines[1..])|
    ensures ReplaceAll(find, Trailing(lines), TextsOf(sections)) == Trailing(Replaced(m, lines, sections))
    ensures CountAll(find, Trailing(lines)) == |Sections(m, lines)|
  {
    var line, rest := lines[0], lines[1..];
    assert lines == [line] + rest;
    BreakStep(find, line, rest, TextsOf(sections));
    PassAll(find, line, Trailing(rest), TextsOf(sections));
    PassCount(find, line, Trailing(rest));
    var done := Replaced(m, rest, sections);
    TrailingFirst(line, done);
    Associative("\n", line, Trailing(done));
  }

  /** A placeholder and what is replaced behind it, put together. */
  lemma {:induction false} MarkedJoin(find: Finder, line: string, rest: seq<string>, e: nat,
      sections: seq<seq<string>>, done: seq<string>)
    requires 0 < e <= |rest| && NoneEmpty(sections)
    requires find(line + Trailing(rest)) == Match(0, |line + Trailing(rest[..e])|)
    requires ReplaceAll(find, Trailing(rest[e..]), TextsOf(Used(sections))) == Trailing(done)
    ensures
      var piece := if sections == [] then [line] + rest[..e] else sections[0];
      "\n" + ReplaceAll(find, line + Trailing(rest), TextsOf(sections)) == Trailing(piece + done)
    ensures CountAll(find, line + Trailing(rest)) == 1 + CountAll(find, Trailing(rest[e..]))
  {
    ReplaceOne(find, line, rest, e - 1, sections);
    var piece := if sections == [] then [line] + rest[..e] else sections[0];
    TrailingAppend(piece, done);
  }

  lemma {:induction false} MarkedStep(find: Finder, m: Markers<string>, lines: seq<string>, e: nat,
      sections: seq<seq<string>>)
    requires NoneEmpty(sections)
    requires lines != [] && FindsLine(find, m, lines[0], lines[1..]) && m.start(lines[0])
    requires e < |lines| && e == FirstFrom(lines, m.end, 1)
    requires ReplaceAll(find, Trailing(lines[e + 1..]), TextsOf(Used(sections)))
      == Trailing(Replaced(m, lines[e + 1..], Used(sections)))
    requires CountAll(find, Trailing(lines[e + 1..])) == |Sections(m, lines[e + 1..])|
    ensures ReplaceAll(find, Trailing(lines), TextsOf(sections)) == Trailing(Replaced(m, lines, sections))
    ensures CountAll(find, Trailing(lines)) == |Sections(m, lines)|
  {
    var line, rest := lines[0], lines[1..];
    assert lines == [line] + rest;
    CutBehindFirst(line, rest, e);
    BreakStep(find, line, rest, TextsOf(sections));
    MarkedJoin(find, line, rest, e, sections, Replaced(m, lines[e + 1..], Used(sections)));
    MarkedReplaced(m, lines, e, sections);
  }

  lemma CutBehindFirst<T>(first: T, rest: seq<T>, e: nat)
    requires e <= |rest|
    ensures ([first] + rest)[e + 1..] == rest[e..] && ([first] + rest)[..e + 1] == [first] + rest[..e]
  {
  }

  lemma {:induction false} MarkedReplaced(m: Markers<string>, lines: seq<string>, e: nat, sections: seq<seq<string>>)
    requires e < |lines| && m.start(lines[0]) && e == FirstFrom(lines, m.end, 1)
    ensures Replaced(m, lines, sections)
         == (if sections == [] then lines[..e + 1] else sections[0]) + Replaced(m, lines[e + 1..], Used(sections))
    ensures |Sections(m, lines)| == 1 + |Sections(m, lines[e + 1..])|
  {
  }

  lemma {:induction false} OpenStep(find: Finder, m: Markers<string>, lines: seq<string>, sections: seq<seq<string>>)
    requires lines != [] && FindsLine(find, m, lines[0], lines[1..]) && m.start(lines[0])
    requires FirstFrom(lines, m.end, 1) == |lines|
    ensures ReplaceAll(find, Trailing(lines), TextsOf(sections)) == Trailing(Replaced(m, lines, sections))
    ensures CountAll(find, Trailing(lines)) == |Sections(m, lines)|
  {
    var line, rest := lines[0], lines[1..];
    assert lines == [line] + rest;
    BreakStep(find, line, rest, TextsOf(sections));
  }

  lemma {:induction false} ReplaceOne(find: Finder, line: string, rest: seq<string>, e: nat, sections: seq<seq<string>>)
    requires e < |rest| && find(line + Trailing(rest)) == Match(0, |line + Trailing(rest[..e + 1])|)
    requires NoneEmpty(sections)
    ensures
      var piece := if sections == [] then [line] + rest[..e + 1] else sections[0];
      "\n" + ReplaceAll(find, line + Trailing(rest), TextsOf(sections))
        == Trailing(piece) + ReplaceAll(find, Trailing(rest[e + 1..]), TextsOf(Used(sections)))
    ensures CountAll(find, line + Trailing(rest)) == 1 + CountAll(find, Trailing(rest[e + 1..]))
  {
    var s, own := line + Trailing(rest), line + Trailing(rest[..e + 1]);
    CutPlaceholder(line, rest, e);
    assert TextsOf(Used(sections)) == Used(TextsOf(sections));
    TrailingFirst(line, rest[..e + 1]);
    Associative("\n", line, Trailing(rest[..e + 1]));
    var text := if sections == [] then own else Join(sections[0], "\n");
    var more := ReplaceAll(find, Trailing(rest[e + 1..]), TextsOf(Used(sections)));
    assert s[..0] + (text + more) == text + more;
    Associative("\n", text, more);
  }

  lemma {:induction false} CutPlaceholder(line: string, rest: seq<string>, e: nat)
    requires e < |rest|
    ensures
      var s, own := line + Trailing(rest), line + Trailing(rest[..e + 1]);
      |own| <= |s| && s[0..|own|] == own && s[|own|..] == Trailing(rest[e + 1..])
  {
    assert rest == rest[..e + 1] + rest[e + 1..];
    TrailingAppend(rest[..e + 1], rest[e + 1..]);
    Associative(line, Trailing(rest[..e + 1]), Trailing(rest[e + 1..]));
  }

  lemma {:induction false} ReplacedNotEmpty(m: Markers<string>, lines: seq<string>, sections: seq<seq<string>>)
    requires lines != [] && NoneEmpty(sections)
    ensures Replaced(m, lines, sections) != []
  {
  }

  /** In tidy lines the placeholders are found line by line. */
  lemma {:induction false} TidyFinds(p: Names, lines: seq<string>)
    requires p.Valid() && TidyLines(p, lines)
    ensures FindsLines(Placeholders(p), TextMarkers(p), lines) && Placeholders(p)("") == NoMatch
  {
    forall k | 0 <= k < |lines| ensures FindsLine(Placeholders(p), TextMarkers(p), lines[k], lines[k + 1..]) {
      TidyFindsLine(p, lines[k], lines[k + 1..]);
    }
    NothingInEmpty(p);
  }

  lemma {:induction false} NothingInEmpty(p: Names)
    requires p.Valid()
    ensures FindBetween("", p) == NoMatch
  {
    MarkFound("", p.start);
  }

  lemma {:induction false} TidyFindsLine(p: Names, line: string, rest: seq<string>)
    requires p.Valid() && Tidy(line, p.start) && AllTidy(rest, p.end)
    ensures FindsLine(Placeholders(p), TextMarkers(p), line, rest)
  {
    BreakFinds(p, line + Trailing(rest));
    LineFinds(p, line, rest);
  }

  lemma {:induction false} BreakFinds(p: Names, s: string)
    requires p.Valid()
    ensures Placeholders(p)("\n" + s) == Moved(Placeholders(p)(s), 1)
  {
    BreakPassed(s, p.start);
    ShiftedPlaceholder(p, "\n", s);
  }

  lemma {:induction false} LineFinds(p: Names, line: string, rest: seq<string>)
    requires p.Valid() && Tidy(line, p.start) && AllTidy(rest, p.end)
    ensures
      var m := TextMarkers(p);
      var find, s, e := Placeholders(p), line + Trailing(rest), FirstFrom([line] + rest, m.end, 1);
      && (!m.start(line) ==> find(s) == Moved(find(Trailing(rest)), |line|))
      && (m.start(line) ==> find(s) == if e == |rest| + 1 then NoMatch else Match(0, |line + Trailing(rest[..e])|))
  {
    TidyHolds(line, p.start);
    if Holds(line, p.start) {
      MarkedFinds(p, line, rest);
    } else {
      LinePassed(line, Trailing(rest), p.start);
      ShiftedPlaceholder(p, line, Trailing(rest));
    }
  }

  lemma {:induction false} MarkedFinds(p: Names, line: string, rest: seq<string>)
    requires p.Valid() && MarkLength(line, p.start) == |line| > 0 && AllTidy(rest, p.end)
    ensures
      var e := FirstFrom([line] + rest, TextMarkers(p).end, 1);
      Placeholders(p)(line + Trailing(rest)) == if e == |rest| + 1 then NoMatch
        else Match(0, |line + Trailing(rest[..e])|)
  {
    FirstEnd(line, rest, p);
    PlaceholderFirst(p, line, rest);
  }

  lemma {:induction false} FirstEnd(line: string, rest: seq<string>, p: Names)
    ensures FirstFrom([line] + rest, TextMarkers(p).end, 1) == 1 + FirstHolding(rest, p.end)
  {
    var m := TextMarkers(p);
    FirstHoldingIs(rest, p.end, m.end);
    Shifted([line] + rest, m.end, 1, 0);
    assert ([line] + rest)[1..] == rest;
  }

  lemma {:induction false} BreakPassed(s: string, name: string)
    ensures Passed("\n", s, name)
  {
    NoMarkAtBreak("\n" + s, name);
  }

  lemma {:induction false} LinePassed(line: string, z: string, name: string)
    requires Plain(line, name) && GoesOn(z) && '\n' !in name
    ensures Passed(line, z, name)
  {
    forall i | 0 <= i < |line| ensures MarkLength((line + z)[i..], name) == 0 {
      PlainHere(line, name, z, i);
    }
  }

  /** Replacing in the text of tidy lines is replacing in the lines. */
  lemma {:induction false} ReplaceLines(p: Names, lines: seq<string>, sections: seq<seq<string>>)
    requires p.Valid() && TidyLines(p, lines) && NoneEmpty(sections) && lines != []
    ensures ReplaceAll(Placeholders(p), Join(lines, "\n"), TextsOf(sections))
         == Join(Replaced(TextMarkers(p), lines, sections), "\n")
    ensures CountAll(Placeholders(p), Join(lines, "\n")) == |Sections(TextMarkers(p), lines)|
  {
    TidyFinds(p, lines);
    ReplaceJoined(Placeholders(p), TextMarkers(p), lines, sections);
  }

  lemma {:induction false} ReplaceJoined(find: Finder, m: Markers<string>, lines: seq<string>,
      sections: seq<seq<string>>)
    requires FindsLines(find, m, lines) && find("") == NoMatch && NoneEmpty(sections) && lines != []
    ensures ReplaceAll(find, Join(lines, "\n"), TextsOf(sections)) == Join(Replaced(m, lines, sections), "\n")
    ensures CountAll(find, Join(lines, "\n")) == |Sections(m, lines)|
  {
    ReplaceBelow(find, m, lines, sections);
    var line, rest := lines[0], lines[1..];
    assert FindsLine(find, m, line, rest) && lines == [line] + rest;
    TrailingFirst(line, rest);
    TrailingSame(lines, line + Trailing(rest));
    Associative("\n", line, Trailing(rest));
    PassAll(find, "\n", Join(lines, "\n"), TextsOf(sections));
    PassCount(find, "\n", Join(lines, "\n"));
    ReplacedNotEmpty(m, lines, sections);
    TrailingSame(Replaced(m, lines, sections), ReplaceAll(find, Join(lines, "\n"), TextsOf(sections)));
  }

  // ------------------------------------------------------- text put in line by line

  lemma {:induction false} PlainLinesPassed(lines: seq<string>, z: string, name: string)
    requires AllPlain(lines, name) && GoesOn(z) && '\n' !in name
    ensures Passed(Trailing(lines), z, name)
  {
    if lines != [] {
      var line, rest := lines[0], lines[1..];
      assert lines == [line] + rest;
      PlainLinesPassed(rest, z, name);
      TrailingFirst(line, rest);
      PlainPassed(line, Trailing(rest) + z, name);
      PassedBoth("\n" + line, Trailing(rest), z, name);
    }
  }

  lemma {:induction false} PassedBoth(a: string, b: string, z: string, name: string)
    requires Passed(a, b + z, name) && Passed(b, z, name)
    ensures Passed(a + b, z, name)
  {
    Associative(a, b, z);
    forall i | 0 <= i < |a + b| ensures MarkLength((a + b + z)[i..], name) == 0 {
      if i >= |a| {
        assert (a + (b + z))[i..] == (b + z)[i - |a|..];
      }
    }
  }

  /** The first line with a marker, below plain lines, is where the text has its first. */
  lemma {:induction false} FindBelow(front: seq<string>, line: string, back: seq<string>, name: string)
    requires IsName(name) && '\n' !in name && AllPlain(front, name) && MarkLength(line, name) == |line| > 0
    ensures FindMark(Join(front + ([line] + back), "\n"), name) == Position(|Trailing(front)|)
    ensures "\n" + Join(front + ([line] + back), "\n") == Trailing(front) + ("\n" + (line + Trailing(back)))
  {
    var text, z := Join(front + ([line] + back), "\n"), Trailing([line] + back);
    TrailingAppend(front, [line] + back);
    TrailingFirst(line, back);
    Associative("\n", line, Trailing(back));
    PlainLinesPassed(front, z, name);
    FindShift(Trailing(front), z, name);
    MarkedFirst(line, Trailing(back), name);
    BreakPassed(text, name);
    FindShift("\n", text, name);
  }

  /** Inserting before the end marker is inserting lines before its line. */
  lemma {:induction false} AppendFound(front: seq<string>, line: string, back: seq<string>, more: seq<string>)
    requires AllPlain(front, End) && MarkLength(line, End) == |line| > 0 && more != []
    ensures AppendText(Join(front + ([line] + back), "\n"), Join(more, "\n"))
         == Join(front + (more + ([""] + ([line] + back))), "\n")
  {
    ManualNames();
    var text, j := Join(front + ([line] + back), "\n"), |Trailing(front)|;
    FindBelow(front, line, back, End);
    CutText(text, Trailing(front), line + Trailing(back));
    var below := [""] + ([line] + back);
    TrailingFirst("", [line] + back);
    TrailingFirst(line, back);
    Associative("\n", line, Trailing(back));
    TrailingAppend(more, below);
    TrailingAppend(front, more + below);
    var done := AppendText(text, Join(more, "\n"));
    Insert(Trailing(front), text[..j], Join(more, "\n"), line + Trailing(back));
    TrailingSame(front + (more + below), done);
  }

  lemma CutText(text: string, front: string, back: string)
    requires "\n" + text == front + ("\n" + back)
    ensures |front| <= |text| && "\n" + text[..|front|] == front + "\n" && text[|front|..] == back
  {
    var s := "\n" + text;
    assert |s| == 1 + |text| && s[1..] == text;
    assert s[..|front| + 1] == "\n" + text[..|front|];
    assert s[|front| + 1..] == text[|front|..];
    assert (front + ("\n" + back))[..|front| + 1] == front + "\n";
    assert (front + ("\n" + back))[|front| + 1..] == back;
  }

  lemma Insert(front: string, head: string, more: string, back: string)
    requires "\n" + head == front + "\n"
    ensures "\n" + (head + (more + ("\n\n" + back))) == front + (("\n" + more) + (("\n" + "") + ("\n" + back)))
  {
    Associative("\n", head, more + ("\n\n" + back));
    Associative(front, "\n", more + ("\n\n" + back));
    Associative("\n", more, "\n\n" + back);
    Associative("\n", "\n", back);
    assert "\n" + "\n" == "\n\n" && "\n" + "" == "\n";
  }

  /** With no end marker, the lines go to the end of the file. */
  lemma {:induction false} AppendAtEnd(lines: seq<string>, more: seq<string>)
    requires FindMark(Join(lines, "\n"), End).Absent? && lines != [] && more != []
    ensures AppendText(Join(lines, "\n"), Join(more, "\n")) == Join(lines + ([""] + (more + [""])), "\n")
  {
    TrailingFirst("", more + [""]);
    TrailingAppend(more, [""]);
    TrailingAppend(lines, [""] + (more + [""]));
    TrailingFirst("", []);
    var text, x := Join(lines, "\n"), Join(more, "\n");
    assert [""] + [] == [""] && ("\n" + "") + "" == "\n" && "\n" + "" == "\n";
    Associative("\n", text, "\n\n" + (x + "\n"));
    Associative("\n", "\n", x + "\n");
    Associative("\n", x, "\n");
    assert "\n" + "\n" == "\n\n";
    TrailingSame(lines + ([""] + (more + [""])), text + ("\n\n" + (x + "\n")));
  }

  /** A marker in a line is one in the text. */
  lemma {:induction false} LineMarkInText(lines: seq<string>, k: nat, name: string)
    requires IsName(name) && k < |lines| && Holds(lines[k], name)
    ensures FindMark(Join(lines, "\n"), name).Position?
  {
    var line := lines[k];
    MarkFound(line, name);
    var i := FindMark(line, name).index;
    MarkGoesOn(line[i..], Trailing(lines[k + 1..]), name);
    TextAtLine(lines, k, i);
    MarkSeen(Join(lines, "\n"), |Trailing(lines[..k])| + i, name);
  }

  lemma TextAtLine(lines: seq<string>, k: nat, i: nat)
    requires k < |lines| && i <= |lines[k]|
    ensures
      var j, text := |Trailing(lines[..k])|, Join(lines, "\n");
      j + i <= |text| && text[j + i..] == lines[k][i..] + Trailing(lines[k + 1..])
  {
    LineInText(lines, k);
    Inside("\n", Join(lines, "\n"), |Trailing(lines[..k])|, lines[k], Trailing(lines[k + 1..]), i);
  }

  lemma Inside<T>(first: seq<T>, text: seq<T>, j: nat, x: seq<T>, z: seq<T>, i: nat)
    requires |first| == 1 && j + 1 <= |first + text| && (first + text)[j + 1..] == x + z && i <= |x|
    ensures j + i <= |text| && text[j + i..] == x[i..] + z
  {
    assert (first + text)[j + 1..] == text[j..];
    assert |text| - j == |x| + |z|;
    forall k | 0 <= k < |text| - j - i ensures text[j + i..][k] == (x[i..] + z)[k] {
      assert text[j + i..][k] == text[j..][i + k] == (x + z)[i + k];
    }
  }

  lemma {:induction false} MarkSeen(s: string, i: nat, name: string)
    requires IsName(name) && i <= |s| && MarkLength(s[i..], name) > 0
    ensures FindMark(s, name).Position?
  {
    FindMarkIsFirst(s, name);
  }

  /** Sections with an empty line between them, as text. */
  lemma {:induction false} BlocksText(m: Markers<string>, sections: seq<seq<string>>)
    requires NoneEmpty(sections) && m.blank == "" && sections != []
    ensures Blocks(m, sections) != [] && Join(TextsOf(sections), "\n\n") == Join(Blocks(m, sections), "\n")
  {
    var texts := TextsOf(sections);
    if |sections| > 1 {
      var rest := sections[1..];
      BlocksText(m, rest);
      assert texts[1..] == TextsOf(rest);
      var below := Blocks(m, rest);
      JoinAppend(sections[0], [""] + below, "\n");
      JoinFirst("", below, "\n");
      assert "" + ("\n" + Join(below, "\n")) == "\n" + Join(below, "\n");
      Associative("\n", "\n", Join(below, "\n"));
      assert "\n" + "\n" == "\n\n";
    }
  }
}
