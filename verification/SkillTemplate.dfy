/** The generated skill file as a template for manual sections: one placeholder, below the generated block. */
module SkillTemplate {
  import opened Lists
  import opened Strings
  import opened ManualSections
  import opened MergeContent
  import opened ManualText
  import opened ManualRounds
  import opened SkillFile

  lemma {:induction false} SplitLines(a: string, b: string)
    ensures LinesOf(a + ("\n" + b)) == LinesOf(a) + LinesOf(b)
  {
    JoinSplit(a, '\n');
    JoinSplit(b, '\n');
    JoinAppend(LinesOf(a), LinesOf(b), "\n");
    SplitJoin(LinesOf(a) + LinesOf(b), '\n');
  }

  lemma {:induction false} JoinedLines(a: seq<string>, b: seq<string>)
    requires a != [] && b != []
    ensures LinesOf(Join(a + b, "\n")) == LinesOf(Join(a, "\n")) + LinesOf(Join(b, "\n"))
  {
    JoinAppend(a, b, "\n");
    SplitLines(Join(a, "\n"), Join(b, "\n"));
  }

  /** Lines with no comment in them, also when some hold line feeds. */
  lemma {:induction false} NoCommentLines(lines: seq<string>)
    requires Without("<!--", lines) && lines != []
    ensures Without("<!--", LinesOf(Join(lines, "\n")))
  {
    assert ['\n'] + "" == "\n";
    if Occurs("<!--", Join(lines, "\n")) {
      OccursJoined("<!--", lines, '\n', "");
    }
    PartsWithout("<!--", Join(lines, "\n"), '\n');
  }

  // ------------------------------------------------------- the lines of a file

  /** The lines above the end of the generated block, as they are read. */
  function Above(input: Input): seq<string> {
    LinesOf(Join(Header(input), "\n")) + [MarkerStart] + LinesOf(Join(Body(input), "\n"))
  }

  const Notes: seq<string> := ["", "## Notes", ""]
  const Section: seq<string> := [StartLine, NoteLine, EndLine]

  lemma {:induction false} TailIs()
    ensures Tail == Notes + (Section + [""])
  {
  }

  lemma {:induction false} LinesRead(input: Input)
    ensures LinesOf(SkillText(input)) == Above(input) + ([MarkerEnd] + (Notes + (Section + [""])))
  {
    var header, body, rest := Header(input), Body(input), [MarkerEnd] + Tail;
    FixedLines();
    TailIs();
    Regroup(header, [MarkerStart], body, [MarkerEnd], Tail);
    PartsRead(header, MarkerStart, body, rest);
    Regroup(LinesOf(Join(header, "\n")), [MarkerStart], LinesOf(Join(body, "\n")), [MarkerEnd], Tail);
    Associative(Above(input), [MarkerEnd], Tail);
  }

  lemma Regroup<T>(a: seq<T>, b: seq<T>, c: seq<T>, d: seq<T>, e: seq<T>)
    ensures a + b + c + d + e == a + (b + (c + (d + e)))
  {
  }

  lemma {:induction false} PartsRead(header: seq<string>, mark: string, body: seq<string>, rest: seq<string>)
    requires header != [] && body != [] && rest != [] && LinesOf(mark) == [mark]
    requires LinesOf(Join(rest, "\n")) == rest
    ensures LinesOf(Join(header + ([mark] + (body + rest)), "\n"))
         == LinesOf(Join(header, "\n")) + ([mark] + (LinesOf(Join(body, "\n")) + rest))
  {
    JoinedLines(header, [mark] + (body + rest));
    JoinedLines([mark], body + rest);
    JoinedLines(body, rest);
    assert Join([mark], "\n") == mark;
  }

  /** The lines that are printed as they are. */
  lemma {:induction false} FixedLines()
    ensures LinesOf(MarkerStart) == [MarkerStart]
    ensures LinesOf(Join([MarkerEnd] + Tail, "\n")) == [MarkerEnd] + Tail
  {
    NoBreakHere();
    SplitWhole(MarkerStart, '\n');
    TailIs();
    SplitJoin([MarkerEnd] + Tail, '\n');
  }

  lemma {:induction false} NoBreakHere()
    ensures '\n' !in MarkerStart && '\n' !in MarkerEnd && '\n' !in NoteLine && '\n' !in StartLine && '\n' !in EndLine
  {
  }

  // ------------------------------------------------------------ tidy markers

  /** No comment, no marker. */
  lemma {:induction false} NoCommentPlain(line: string, name: string)
    requires !Occurs("<!--", line)
    ensures Plain(line, name)
  {
    forall i | 0 <= i < |line| ensures !StartsWith(line[i..], "<!--") {
      assert !At("<!--", line, i);
      assert i + 4 <= |line| ==> line[i..][..4] == line[i..i + 4];
    }
  }

  lemma {:induction false} NoBracketPlain(line: string, name: string)
    requires '<' !in line
    ensures Plain(line, name)
  {
    forall i | 0 <= i < |line| ensures !StartsWith(line[i..], "<!--") {
      assert line[i..][0] == line[i];
      assert |line[i..]| >= 4 ==> line[i..][..4][0] == line[i];
    }
  }

  /** A comment that starts with another word. */
  lemma {:induction false} CommentPlain(words: string, name: string)
    requires '<' !in words && words != "" && !IsSpace(words[0]) && !StartsWith(words, name)
    ensures Plain("<!-- " + words, name)
  {
    var line := "<!-- " + words;
    forall i | 0 <= i < |line| && StartsWith(line[i..], "<!--") ensures NoName(line[i..], name) {
      assert line[i..][..4][0] == line[i] == '<';
      assert i == 0;
      assert line[0..] == line && line[4..] == " " + words;
      assert (" " + words)[1..] == words;
      assert TrimStart(line[4..]) == TrimStart(words) == words;
    }
  }

  /** A marker as it is printed is a whole line. */
  lemma {:induction false} MarkerLine(name: string)
    requires IsName(name)
    ensures MarkLength("<!-- " + (name + " -->"), name) == |"<!-- " + (name + " -->")| > 0
  {
    WordLength(" ", " ", "", name);
    assert "<!--" + (" " + (name + (" " + "-->"))) == "<!-- " + (name + " -->");
    assert Word(" ", " ", name) + "" == Word(" ", " ", name);
  }

  lemma {:induction false} OtherWord(words: string, name: string, k: nat)
    requires k < |words| && k < |name| && words[k] != name[k]
    ensures !StartsWith(words, name)
  {
    if |name| <= |words| {
      assert words[..|name|][k] == words[k];
    }
  }

  ghost predicate TidyLine(line: string) {
    Tidy(line, Manual.start) && Tidy(line, Manual.end) && Tidy(line, End)
  }

  lemma {:induction false} StartIsTidy()
    ensures TidyLine(StartLine) && MarkLength(StartLine, Manual.start) == |StartLine| > 0
  {
    ManualNames();
    var words := "MANUAL:START" + " -->";
    assert StartLine == "<!-- " + words;
    MarkerLine("MANUAL:START");
    OtherWord(words, Manual.end, 7);
    OtherWord(words, End, 0);
    CommentPlain(words, Manual.end);
    CommentPlain(words, End);
  }

  lemma {:induction false} EndIsTidy()
    ensures TidyLine(EndLine) && MarkLength(EndLine, Manual.end) == |EndLine| > 0
  {
    ManualNames();
    var words := "MANUAL:END" + " -->";
    assert EndLine == "<!-- " + words;
    MarkerLine("MANUAL:END");
    OtherWord(words, Manual.start, 7);
    OtherWord(words, End, 0);
    CommentPlain(words, Manual.start);
    CommentPlain(words, End);
  }

  lemma {:induction false} NoteIsTidy()
    ensures TidyLine(NoteLine) && Plain(NoteLine, Manual.end)
  {
    var words := NoteWords;
    assert words[0] == 'A' && words[1] == 'd';
    OtherWord(words, Manual.start, 0);
    OtherWord(words, Manual.end, 0);
    OtherWord(words, End, 1);
    CommentPlain(words, Manual.start);
    CommentPlain(words, Manual.end);
    CommentPlain(words, End);
  }

  lemma {:induction false} BlockStartIsPlain()
    ensures Plain(MarkerStart, Manual.start) && Plain(MarkerStart, Manual.end) && Plain(MarkerStart, End)
  {
    var words := "AUTO-GENERATED:START" + " -->";
    assert MarkerStart == "<!-- " + words;
    OtherWord(words, Manual.start, 0);
    OtherWord(words, Manual.end, 0);
    OtherWord(words, End, 15);
    CommentPlain(words, Manual.start);
    CommentPlain(words, Manual.end);
    CommentPlain(words, End);
  }

  lemma {:induction false} BlockEndIsTidy()
    ensures TidyLine(MarkerEnd) && MarkLength(MarkerEnd, End) == |MarkerEnd| > 0 && Plain(MarkerEnd, Manual.start)
  {
    BlockEndIsMarker();
    BlockEndIsPlain();
  }

  lemma {:induction false} BlockEndIsMarker()
    ensures MarkLength(MarkerEnd, End) == |MarkerEnd| > 0
  {
    ManualNames();
    assert MarkerEnd == "<!-- " + ("AUTO-GENERATED:END" + " -->");
    MarkerLine("AUTO-GENERATED:END");
  }

  lemma {:induction false} BlockEndIsPlain()
    ensures Plain(MarkerEnd, Manual.start) && Plain(MarkerEnd, Manual.end)
  {
    var words := "AUTO-GENERATED:END" + " -->";
    assert MarkerEnd == "<!-- " + words;
    OtherWord(words, Manual.start, 0);
    OtherWord(words, Manual.end, 0);
    CommentPlain(words, Manual.start);
    CommentPlain(words, Manual.end);
  }

  // ------------------------------------------------------------- the template

  /** No text in the file holds a comment but the markers. */
  ghost predicate NoComments(input: Input) {
    Without("<!--", Header(input)) && Without("<!--", Body(input))
  }

  lemma {:induction false} AboveIsPlain(input: Input, name: string)
    requires NoComments(input) && Plain(MarkerStart, name)
    ensures AllPlain(Above(input), name)
  {
    NoCommentLines(Header(input));
    NoCommentLines(Body(input));
    var lines := Above(input);
    var a, b := LinesOf(Join(Header(input), "\n")), LinesOf(Join(Body(input), "\n"));
    forall k | 0 <= k < |lines| ensures Plain(lines[k], name) {
      if k != |a| {
        assert lines[k] == if k < |a| then a[k] else b[k - |a| - 1];
        NoCommentPlain(lines[k], name);
      }
    }
  }

  lemma {:induction false} PlainHoldsNone(line: string, name: string)
    requires IsName(name) && '\n' !in name && Plain(line, name)
    ensures !Holds(line, name)
  {
    TidyHolds(line, name);
    if line != "" {
      PlainHere(line, name, "", 0);
      assert line + "" == line && line[0..] == line;
    }
  }

  lemma {:induction false} AllPlainHoldNone(lines: seq<string>, name: string)
    requires IsName(name) && '\n' !in name && AllPlain(lines, name)
    ensures forall k :: 0 <= k < |lines| ==> !Holds(lines[k], name)
  {
    forall k | 0 <= k < |lines| ensures !Holds(lines[k], name) {
      PlainHoldsNone(lines[k], name);
    }
  }

  lemma {:induction false} NotesArePlain(name: string)
    ensures AllPlain(Notes, name) && AllPlain([""], name)
  {
    NoBracketPlain("", name);
    NoBracketPlain("## Notes", name);
  }

  lemma {:induction false} SectionIsTidy(name: string)
    requires name in {Manual.start, Manual.end, End}
    ensures AllTidy(Section, name)
  {
    StartIsTidy();
    NoteIsTidy();
    EndIsTidy();
  }

  lemma {:induction false} LinesTidy(input: Input, name: string)
    requires NoComments(input) && name in {Manual.start, Manual.end, End}
    ensures AllTidy(LinesOf(SkillText(input)), name)
  {
    BlockStartIsPlain();
    AboveIsPlain(input, name);
    BlockEndIsTidy();
    NotesArePlain(name);
    SectionIsTidy(name);
    LinesRead(input);
    AllTidyAppend(Section, [""], name);
    AllTidyAppend(Notes, Section + [""], name);
    AllTidyAppend([MarkerEnd], Notes + (Section + [""]), name);
    AllTidyAppend(Above(input), [MarkerEnd] + (Notes + (Section + [""])), name);
  }

  lemma {:induction false} AllTidyAppend(a: seq<string>, b: seq<string>, name: string)
    requires AllTidy(a, name) && AllTidy(b, name)
    ensures AllTidy(a + b, name)
  {
  }

  /** The placeholder is a section. */
  lemma {:induction false} PlaceholderIsSection()
    ensures IsSection(M, Section)
  {
    ManualNames();
    StartIsTidy();
    NoteIsTidy();
    EndIsTidy();
    TidyHolds(StartLine, Manual.start);
    PlainHoldsNone(NoteLine, Manual.end);
    TidyHolds(EndLine, Manual.end);
  }

  /** The generated file has its one placeholder below the end of the block. */
  lemma {:induction false} OnePlaceholder(input: Input)
    requires NoComments(input)
    ensures EndsFirst(M, LinesOf(SkillText(input)), |Above(input)|) && |Extracted(SkillText(input))| == 1
  {
    ManualNames();
    BlockStartIsPlain();
    AboveIsPlain(input, Manual.start);
    AboveIsPlain(input, End);
    AllPlainHoldNone(Above(input), Manual.start);
    AllPlainHoldNone(Above(input), End);
    BlockEndIsTidy();
    PlainHoldsNone(MarkerEnd, Manual.start);
    TidyHolds(MarkerEnd, End);
    NotesArePlain(Manual.start);
    AllPlainHoldNone(Notes, Manual.start);
    AllPlainHoldNone([""], Manual.start);
    PlaceholderIsSection();
    LinesRead(input);
    OneSection(M, Above(input), MarkerEnd, Notes, Section, [""]);
  }

  lemma {:induction false} LineOccurs(lines: seq<string>, k: nat)
    requires k < |lines|
    ensures Occurs(lines[k], Join(lines, "\n"))
  {
    var text, j := Join(lines, "\n"), |Trailing(lines[..k])|;
    TextAtLine(lines, k, 0);
    Slices(text, j, lines[k], Trailing(lines[k + 1..]));
    assert At(lines[k], text, j);
  }

  lemma Slices<T>(s: seq<T>, j: nat, x: seq<T>, y: seq<T>)
    requires j <= |s| && s[j..] == x[0..] + y
    ensures j + |x| <= |s| && s[j..j + |x|] == x
  {
    assert s[j..j + |x|] == s[j..][..|x|];
  }

  lemma FifthBehind<T>(a: seq<T>, b: seq<T>)
    requires |b| > 4
    ensures (a + b)[|a| + 4] == b[4]
  {
  }

  lemma {:induction false} HasPlaceholder(input: Input)
    ensures Includes(SkillText(input), Placeholder)
  {
    LinesRead(input);
    JoinSplit(SkillText(input), '\n');
    FifthBehind(Above(input), [MarkerEnd] + (Notes + (Section + [""])));
    LineOccurs(LinesOf(SkillText(input)), |Above(input)| + 4);
    IncludesIff(SkillText(input), Placeholder);
  }

  lemma {:induction false} TemplateIsTidy(input: Input)
    requires NoComments(input)
    ensures TidyText(SkillText(input))
  {
    LinesTidy(input, Manual.start);
    LinesTidy(input, Manual.end);
    LinesTidy(input, End);
    HasPlaceholder(input);
  }

  /**
    Regenerating a skill file as often as it has manual sections, putting them back in
    each time, leaves the same sections in the same order.
   */
  lemma {:induction false} RegenerationRestores(input: Input, sections: seq<string>)
    requires NoComments(input) && SectionTexts(sections) && sections != []
    ensures Rounds(SkillText(input), sections, |sections|) == sections
    ensures Rounds(SkillText(input), sections, 1) == sections[1..] + [sections[0]]
  {
    OnePlaceholder(input);
    TemplateIsTidy(input);
    RoundsRestore(SkillText(input), |Above(input)|, sections);
    RoundsRotate(SkillText(input), |Above(input)|, sections, 1);
    RotatedOnce(sections);
  }

  lemma RotatedOnce<T>(s: seq<T>)
    requires s != []
    ensures RotatedLeft(s, 1) == s[1..] + [s[0]]
  {
  }
}
