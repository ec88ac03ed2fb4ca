/** What happens to the manual sections of a file when it is generated anew, on texts. */
module ManualRounds {
  import opened Lists
  import opened Strings
  import opened ManualSections
  import opened MergeContent
  import opened ManualText

  const M := TextMarkers(Manual)

  /**
    A text to put sections into: each marker is a line of its own, and if there are
    placeholders one is printed as the template prints it.
   */
  ghost predicate TidyText(content: string) {
    var lines := LinesOf(content);
    && TidyLines(Manual, lines) && AllTidy(lines, End)
    && (Sections(M, lines) != [] ==> Includes(content, Placeholder))
  }

  /** Each text is a section: from a line with a start marker to the first one with an end marker. */
  ghost predicate SectionTexts(sections: seq<string>) {
    AllSections(M, LineLists(sections))
  }

  // ------------------------------------------------- texts and their lines

  lemma {:induction false} TextsOfLines(sections: seq<string>)
    ensures TextsOf(LineLists(sections)) == sections && NoneEmpty(LineLists(sections))
  {
    forall i | 0 <= i < |sections| ensures Join(LinesOf(sections[i]), "\n") == sections[i] {
      JoinSplit(sections[i], '\n');
    }
  }

  lemma {:induction false} LinesOfTexts(sections: seq<seq<string>>)
    requires NoneEmpty(sections) && forall i :: 0 <= i < |sections| ==> NoBreaks(sections[i])
    ensures LineLists(TextsOf(sections)) == sections
  {
    forall i | 0 <= i < |sections| ensures LinesOf(Join(sections[i], "\n")) == sections[i] {
      SplitJoin(sections[i], '\n');
    }
  }

  ghost predicate AllNoBreaks(sections: seq<seq<string>>) {
    forall i :: 0 <= i < |sections| ==> NoBreaks(sections[i])
  }

  lemma {:induction false} SectionsNoBreaks(m: Markers<string>, lines: seq<string>)
    requires NoBreaks(lines)
    ensures AllNoBreaks(Sections(m, lines))
    decreases |lines|
  {
    if lines != [] {
      if !m.start(lines[0]) {
        SectionsNoBreaks(m, lines[1..]);
      } else {
        var e := FirstFrom(lines, m.end, 1);
        if e < |lines| {
          SectionsNoBreaks(m, lines[e + 1..]);
        }
      }
    }
  }

  lemma {:induction false} ReplacedNoBreaks(m: Markers<string>, lines: seq<string>, sections: seq<seq<string>>)
    requires NoBreaks(lines) && AllNoBreaks(sections)
    ensures NoBreaks(Replaced(m, lines, sections))
    decreases |lines|
  {
    if lines != [] {
      if !m.start(lines[0]) {
        ReplacedNoBreaks(m, lines[1..], sections);
      } else {
        var e := FirstFrom(lines, m.end, 1);
        if e < |lines| {
          ReplacedNoBreaks(m, lines[e + 1..], Used(sections));
        }
      }
    }
  }

  lemma {:induction false} BlocksNoBreaks(m: Markers<string>, sections: seq<seq<string>>)
    requires AllNoBreaks(sections) && m.blank == ""
    ensures NoBreaks(Blocks(m, sections))
  {
    if |sections| > 1 {
      BlocksNoBreaks(m, sections[1..]);
    }
  }

  lemma {:induction false} InjectedNoBreaks(m: Markers<string>, lines: seq<string>, sections: seq<seq<string>>)
    requires NoBreaks(lines) && AllNoBreaks(sections) && m.blank == ""
    ensures NoBreaks(Injected(m, lines, sections))
  {
    var k := |Sections(m, lines)|;
    ReplacedNoBreaks(m, lines, sections);
    if k < |sections| {
      BlocksNoBreaks(m, sections[k..]);
    }
  }

  // --------------------------------------- putting sections in, line by line

  /** The text has its first end marker, a line of its own, behind plain lines; or none at all. */
  ghost predicate Appendable(lines: seq<string>) {
    var i := FirstFrom(lines, M.autoEnd, 0);
    if i == |lines| then FindMark(Join(lines, "\n"), End).Absent?
    else AllPlain(lines[..i], End) && MarkLength(lines[i], End) == |lines[i]| > 0
  }

  lemma {:induction false} AppendLines(lines: seq<string>, more: seq<string>)
    requires lines != [] && more != [] && Appendable(lines)
    ensures AppendText(Join(lines, "\n"), Join(more, "\n")) == Join(AppendBeforeEndMarker(M, lines, more), "\n")
  {
    var i := FirstFrom(lines, M.autoEnd, 0);
    if i < |lines| {
      AroundOne(lines, i);
      assert [lines[i]] + lines[i + 1..] == lines[i..];
      AppendFound(lines[..i], lines[i], lines[i + 1..], more);
    } else {
      AppendAtEnd(lines, more);
    }
  }

  lemma {:induction false} NothingToReplace(m: Markers<string>, lines: seq<string>, sections: seq<seq<string>>)
    requires Sections(m, lines) == []
    ensures Replaced(m, lines, sections) == lines
    decreases |lines|
  {
    if lines != [] && !m.start(lines[0]) {
      NothingToReplace(m, lines[1..], sections);
      assert lines == [lines[0]] + lines[1..];
    }
  }

  lemma {:induction false} AppendRest(lines: seq<string>, sections: seq<string>, k: nat)
    requires lines != [] && Appendable(lines) && k < |sections|
    ensures AppendText(Join(lines, "\n"), Join(sections[k..], "\n\n"))
         == Join(AppendBeforeEndMarker(M, lines, Blocks(M, LineLists(sections)[k..])), "\n")
  {
    var lists := LineLists(sections);
    TextsOfLines(sections);
    assert TextsOf(lists[k..]) == sections[k..];
    BlocksText(M, lists[k..]);
    AppendLines(lines, Blocks(M, lists[k..]));
  }

  /** Putting sections into a tidy text is putting their lines between its lines. */
  lemma {:induction false} InjectLines(content: string, sections: seq<string>)
    requires TidyText(content) && Appendable(Replaced(M, LinesOf(content), LineLists(sections)))
    ensures InjectText(content, sections) == Join(Injected(M, LinesOf(content), LineLists(sections)), "\n")
  {
    InjectCases(content, sections);
    if sections == [] {
      InjectNone(content);
    } else if !Includes(content, Placeholder) {
      InjectBehind(content, sections);
    } else {
      InjectFound(content, sections);
    }
  }

  lemma {:induction false} InjectNone(content: string)
    requires TidyText(content)
    ensures content == Join(Injected(M, LinesOf(content), LineLists([])), "\n")
  {
    JoinSplit(content, '\n');
  }

  /** Without a placeholder every section goes in front of the end marker. */
  lemma {:induction false} InjectBehind(content: string, sections: seq<string>)
    requires TidyText(content) && Appendable(Replaced(M, LinesOf(content), LineLists(sections)))
    requires sections != [] && !Includes(content, Placeholder)
    ensures WithRest(content, 0, sections) == Join(Injected(M, LinesOf(content), LineLists(sections)), "\n")
  {
    JoinSplit(content, '\n');
    var lines, lists := LinesOf(content), LineLists(sections);
    NothingToReplace(M, lines, lists);
    RestLines(lines, sections, 0);
    assert lists[0..] == lists;
  }

  lemma {:induction false} InjectFound(content: string, sections: seq<string>)
    requires TidyText(content) && Appendable(Replaced(M, LinesOf(content), LineLists(sections))) && sections != []
    ensures WithRest(ReplaceAll(FindManual(), content, sections), CountAll(FindManual(), content), sections)
         == Join(Injected(M, LinesOf(content), LineLists(sections)), "\n")
  {
    var lines, lists := LinesOf(content), LineLists(sections);
    ReplaceContent(content, sections);
    RestLines(Replaced(M, lines, lists), sections, |Sections(M, lines)|);
  }

  lemma InjectCases(content: string, sections: seq<string>)
    ensures InjectText(content, sections) ==
      if sections == [] then content
      else if !Includes(content, Placeholder) then WithRest(content, 0, sections)
      else WithRest(ReplaceAll(FindManual(), content, sections), CountAll(FindManual(), content), sections)
  {
    assert sections[0..] == sections;
  }

  lemma {:induction false} RestLines(lines: seq<string>, sections: seq<string>, k: nat)
    requires lines != [] && Appendable(lines)
    ensures WithRest(Join(lines, "\n"), k, sections) ==
      Join(if k < |sections| then AppendBeforeEndMarker(M, lines, Blocks(M, LineLists(sections)[k..])) else lines, "\n")
  {
    if k < |sections| {
      AppendRest(lines, sections, k);
    }
  }

  lemma {:induction false} ReplaceContent(content: string, sections: seq<string>)
    requires TidyText(content)
    ensures
      var lines, lists := LinesOf(content), LineLists(sections);
      && ReplaceAll(FindManual(), content, sections) == Join(Replaced(M, lines, lists), "\n")
      && CountAll(FindManual(), content) == |Sections(M, lines)| && Replaced(M, lines, lists) != []
      && Join(lines, "\n") == content
  {
    JoinSplit(content, '\n');
    TextsOfLines(sections);
    ManualNames();
    ReplaceLines(Manual, LinesOf(content), LineLists(sections));
    ReplacedNotEmpty(M, LinesOf(content), LineLists(sections));
  }

  /** The sections read from the new text are those of its lines. */
  lemma {:induction false} InjectedRead(content: string, sections: seq<string>)
    requires TidyText(content) && Appendable(Replaced(M, LinesOf(content), LineLists(sections)))
    ensures Extracted(InjectText(content, sections)) == TextsOf(Sections(M,
      Injected(M, LinesOf(content), LineLists(sections))))
  {
    var lines, lists := LinesOf(content), LineLists(sections);
    InjectLines(content, sections);
    JoinSplit(content, '\n');
    forall i | 0 <= i < |sections| ensures NoBreaks(lists[i]) {
      JoinSplit(sections[i], '\n');
    }
    InjectedNoBreaks(M, lines, lists);
    InjectedNotEmpty(lines, lists);
    SplitJoin(Injected(M, lines, lists), '\n');
  }

  lemma {:induction false} InjectedNotEmpty(lines: seq<string>, sections: seq<seq<string>>)
    requires lines != [] && NoneEmpty(sections)
    ensures Injected(M, lines, sections) != []
  {
    ReplacedNotEmpty(M, lines, sections);
  }

  // ------------------------------------------------------------------ the claims

  lemma {:induction false} BlankIsPlain()
    ensures !M.start(M.blank)
  {
    assert FindMark("", "MANUAL:START") == Absent;
  }

  /** With the end marker in front, sections are put in behind plain lines. */
  lemma {:induction false} EndsFirstAppendable(lines: seq<string>, i: nat, sections: seq<seq<string>>)
    requires EndsFirst(M, lines, i) && AllTidy(lines, End)
    ensures Appendable(Replaced(M, lines, sections))
  {
    ManualNames();
    FrontOfReplaced(M, lines, i, sections);
    var result := Replaced(M, lines, sections);
    ReplacedKeepsFront(M, lines, i, sections);
    assert result[i] == lines[..i + 1][i] == lines[i];
    TidyHolds(lines[i], End);
    forall k | 0 <= k < i ensures Plain(lines[..i][k], End) {
      TidyHolds(lines[k], End);
    }
  }

  /**
    With the end marker before the placeholders, the sections taken out of the new file are
    those put in, rotated left by the number of placeholders: nothing is lost, duplicated or
    changed.
   */
  lemma {:induction false} TextRotates(content: string, i: nat, sections: seq<string>)
    requires TidyText(content) && EndsFirst(M, LinesOf(content), i)
    requires SectionTexts(sections) && sections != [] && |Extracted(content)| <= |sections|
    ensures Extracted(InjectText(content, sections)) == RotatedLeft(sections, |Extracted(content)|)
  {
    var lines, lists := LinesOf(content), LineLists(sections);
    EndsFirstAppendable(lines, i, lists);
    InjectedRead(content, sections);
    BlankIsPlain();
    InjectedRotates(M, lines, i, lists);
    TextsOfLines(sections);
    TextsRotated(lists, |Extracted(content)|);
  }

  lemma TextsRotated(sections: seq<seq<string>>, k: nat)
    requires k <= |sections|
    ensures TextsOf(RotatedLeft(sections, k)) == RotatedLeft(TextsOf(sections), k)
  {
  }

  /** With no end marker in the file once its placeholders are filled, the sections keep their order. */
  lemma {:induction false} TextKeepsOrder(content: string, sections: seq<string>)
    requires TidyText(content) && Closed(M, LinesOf(content))
    requires SectionTexts(sections) && sections != [] && |Extracted(content)| <= |sections|
    requires FindMark(ReplaceAll(FindManual(), content, sections), End).Absent?
    ensures Extracted(InjectText(content, sections)) == sections
  {
    var lines, lists := LinesOf(content), LineLists(sections);
    TextsOfLines(sections);
    ReplaceContent(content, sections);
    NoLineHolds(Replaced(M, lines, lists));
    InjectedRead(content, sections);
    BlankIsPlain();
    InjectedKeepsOrder(M, lines, lists);
  }

  lemma {:induction false} ReplacedPlain(m: Markers<string>, lines: seq<string>, sections: seq<seq<string>>,
      name: string)
    requires AllPlain(lines, name) && forall i :: 0 <= i < |sections| ==> AllPlain(sections[i], name)
    ensures AllPlain(Replaced(m, lines, sections), name)
    decreases |lines|
  {
    if lines != [] {
      if !m.start(lines[0]) {
        ReplacedPlain(m, lines[1..], sections, name);
      } else {
        var e := FirstFrom(lines, m.end, 1);
        if e < |lines| {
          ReplacedPlain(m, lines[e + 1..], Used(sections), name);
        }
      }
    }
  }

  /** In lines that begin no marker there is none. */
  lemma {:induction false} PlainHasNoMark(lines: seq<string>, name: string)
    requires AllPlain(lines, name) && lines != [] && IsName(name) && '\n' !in name
    ensures FindMark(Join(lines, "\n"), name).Absent?
  {
    PlainLinesPassed(lines, "", name);
    FindShift(Trailing(lines), "", name);
    assert Trailing(lines) + "" == "\n" + Join(lines, "\n");
    BreakPassed(Join(lines, "\n"), name);
    FindShift("\n", Join(lines, "\n"), name);
    assert FindMark("", name) == Absent;
  }

  /** When no line of the file or of the sections begins an end marker, the sections keep their order. */
  lemma {:induction false} PlainKeepsOrder(content: string, sections: seq<string>)
    requires TidyText(content) && Closed(M, LinesOf(content)) && AllPlain(LinesOf(content), End)
    requires SectionTexts(sections) && sections != [] && |Extracted(content)| <= |sections|
    requires forall i :: 0 <= i < |sections| ==> AllPlain(LinesOf(sections[i]), End)
    ensures Extracted(InjectText(content, sections)) == sections
  {
    ManualNames();
    ReplaceContent(content, sections);
    ReplacedPlain(M, LinesOf(content), LineLists(sections), End);
    PlainHasNoMark(Replaced(M, LinesOf(content), LineLists(sections)), End);
    TextKeepsOrder(content, sections);
  }

  lemma {:induction false} NoLineHolds(lines: seq<string>)
    requires FindMark(Join(lines, "\n"), End).Absent?
    ensures FirstFrom(lines, M.autoEnd, 0) == |lines| && Appendable(lines)
  {
    ManualNames();
    var i := FirstFrom(lines, M.autoEnd, 0);
    if i < |lines| {
      LineMarkInText(lines, i, End);
    }
  }

  /** The sections after `n` rounds of putting them into the template and taking them out again. */
  function Rounds(template: string, sections: seq<string>, n: nat): seq<string> {
    Iterated(s => Extracted(InjectText(template, s)), sections, n)
  }

  /** With one placeholder each round moves the first section to the end. */
  lemma {:induction false} RoundsRotate(template: string, i: nat, sections: seq<string>, n: nat)
    requires TidyText(template) && EndsFirst(M, LinesOf(template), i) && |Extracted(template)| == 1
    requires SectionTexts(sections) && 0 <= n <= |sections| && sections != []
    ensures Rounds(template, sections, n) == RotatedLeft(sections, n)
  {
    forall k | 0 <= k < |sections|
      ensures Extracted(InjectText(template, RotatedLeft(sections, k))) == RotatedLeft(RotatedLeft(sections, k), 1)
    {
      RotatedTexts(sections, k);
      TextRotates(template, i, RotatedLeft(sections, k));
    }
    IteratedRotates(s => Extracted(InjectText(template, s)), sections, n);
  }

  lemma RotatedTexts(sections: seq<string>, k: nat)
    requires SectionTexts(sections) && k <= |sections|
    ensures SectionTexts(RotatedLeft(sections, k))
  {
    assert LineLists(RotatedLeft(sections, k)) == RotatedLeft(LineLists(sections), k);
    RotatedSections(M, LineLists(sections), k);
  }

  /** As many rounds as there are sections give back the sections in their order. */
  lemma {:induction false} RoundsRestore(template: string, i: nat, sections: seq<string>)
    requires TidyText(template) && EndsFirst(M, LinesOf(template), i) && |Extracted(template)| == 1
    requires SectionTexts(sections) && sections != []
    ensures Rounds(template, sections, |sections|) == sections
  {
    RoundsRotate(template, i, sections, |sections|);
    NoRotation(sections);
  }

  /** Whatever is taken out of a file can be put into another. */
  lemma {:induction false} ExtractedAreSections(file: string)
    ensures SectionTexts(Extracted(file))
  {
    var found := Sections(M, LinesOf(file));
    JoinSplit(file, '\n');
    SectionsNoBreaks(M, LinesOf(file));
    SectionsAreSections(M, LinesOf(file));
    LinesOfTexts(found);
  }
}
