/** What a printed skill file reads back as. */
module SkillRoundTrip {
  import opened Lists
  import opened Strings
  import opened Grouping
  import opened SkillFile

  // ------------------------------------ names read are pieces of the text read

  lemma {:induction false} TrimmedWithout(m: string, parts: seq<string>)
    requires Without(m, parts)
    ensures Without(m, NonEmpty(TrimAll(parts)))
  {
    if parts != [] {
      TrimmedWithout(m, parts[1..]);
      if Occurs(m, Trim(parts[0])) {
        OccursTrimmed(m, parts[0]);
      }
    }
  }

  function Names(tools: seq<Tool>): (r: seq<string>)
    ensures |r| == |tools| && forall i :: 0 <= i < |r| ==> r[i] == tools[i].name
  {
    seq(|tools|, i requires 0 <= i < |tools| => tools[i].name)
  }

  lemma {:induction false} UndescribedNames(names: seq<string>)
    ensures Names(Undescribed(names)) == names
  {
    if names != [] {
      UndescribedNames(names[1..]);
    }
  }

  lemma RowToolsWithout(m: string, kind: Kind, row: string)
    requires !Occurs(m, row)
    ensures Without(m, Names(RowTools(kind, row)))
  {
    PartsWithout(m, row, '|');
    TrimmedWithout(m, SplitOn(row, '|'));
    var cells := NonEmpty(TrimAll(SplitOn(row, '|')));
    if |cells| >= 2 {
      PartsWithout(m, cells[1], ',');
      TrimmedWithout(m, SplitOn(cells[1], ','));
      UndescribedNames(NonEmpty(TrimAll(SplitOn(cells[1], ','))));
    }
  }

  lemma FlatToolsWithout(m: string, line: string)
    requires !Occurs(m, line)
    ensures Without(m, Names(FlatTools(line)))
  {
    if StartsWith(line, "- ") {
      if Occurs(m, Trim(line[2..])) {
        OccursTrimmed(m, line[2..]);
        assert line[2..] == line[2..|line|];
        OccursSlice(m, line, 2, |line|);
      }
    }
  }

  lemma LineWithout(m: string, st: Parsed, line: string)
    requires Without(m, Names(st.tools)) && !Occurs(m, line)
    ensures Without(m, Names(ParseLine(st, line).tools))
  {
    var t := Trim(line);
    if Occurs(m, t) {
      OccursTrimmed(m, line);
    }
    RowToolsWithout(m, st.kind, t);
    FlatToolsWithout(m, t);
    WithoutAppend(m, st.tools, RowTools(st.kind, t));
    WithoutAppend(m, st.tools, FlatTools(t));
    ToolsAfter(st, line);
  }

  lemma WithoutAppend(m: string, a: seq<Tool>, b: seq<Tool>)
    requires Without(m, Names(a)) && Without(m, Names(b))
    ensures Without(m, Names(a + b))
  {
  }

  lemma ToolsAfter(st: Parsed, line: string)
    ensures ParseLine(st, line).tools in {st.tools, st.tools + RowTools(st.kind, Trim(line)),
      st.tools + FlatTools(Trim(line))}
  {
  }

  lemma {:induction false} LinesWithout(m: string, st: Parsed, lines: seq<string>)
    requires Without(m, Names(st.tools)) && Without(m, lines)
    ensures Without(m, Names(ParseLines(st, lines).tools))
    decreases |lines|
  {
    if lines != [] {
      assert !Occurs(m, lines[0]);
      LineWithout(m, st, lines[0]);
      assert forall i :: 0 <= i < |lines[1..]| ==> lines[1..][i] == lines[i + 1];
      LinesWithout(m, ParseLine(st, lines[0]), lines[1..]);
    }
  }

  /** In a file with its markers in order, no name is read that has the end marker in it. */
  lemma NoNameHoldsEnd(content: string)
    requires var a, b := IndexOf(content, MarkerStart), IndexOf(content, MarkerEnd);
             a.Position? && b.Position? && a.index < b.index
    ensures Without(MarkerEnd, Names(ParsedTools(content)))
  {
    ScopeHasNoEnd(content);
    PartsWithout(MarkerEnd, Scope(content), '\n');
    LinesWithout(MarkerEnd, Parsed(NoTable, false, []), SplitOn(Scope(content), '\n'));
  }

  lemma ScopeHasNoEnd(content: string)
    requires var a, b := IndexOf(content, MarkerStart), IndexOf(content, MarkerEnd);
             a.Position? && b.Position? && a.index < b.index
    ensures !Occurs(MarkerEnd, Scope(content))
  {
    var a, b := IndexOf(content, MarkerStart).index, IndexOf(content, MarkerEnd).index;
    IndexOfIsFirst(content, MarkerEnd);
    if a + |MarkerStart| <= b {
      NotBeforeFirst(MarkerEnd, content, a + |MarkerStart|, b);
    }
  }

  // ------------------------------------------------------- reading printed rows

  /** A tool name the format can carry, markers aside. */
  predicate Plain(name: string) {
    name != "" && IsTrimmed(name) && '|' !in name && ',' !in name && '\n' !in name
  }

  ghost predicate Visible(s: string) {
    exists i :: 0 <= i < |s| && !IsSpace(s[i])
  }

  /** A group whose row reads back. */
  ghost predicate Printable(g: ToolGroup<string>) {
    && g.tools != [] && (forall i :: 0 <= i < |g.tools| ==> Plain(g.tools[i]))
    && '|' !in g.caption && '\n' !in g.caption && Visible(g.caption) && '\n' !in g.filename
    && g.caption !in {"Tool", "tool", "Group"}
  }

  lemma {:induction false} NoBars(s: string)
    requires '|' !in s
    ensures EscapeBars(s) == s
  {
    if s != "" {
      assert s == [s[0]] + s[1..] && s[0] in s;
      NoBars(s[1..]);
    }
  }

  /** Every bar gets a backslash in front, and nothing else changes. */
  lemma {:induction false} BarsEscaped(a: string, b: string)
    requires '|' !in a
    ensures EscapeBars(a + ("|" + b)) == a + ("\\|" + EscapeBars(b))
  {
    if a == "" {
      assert "" + ("|" + b) == "|" + b && ("|" + b)[1..] == b;
    } else {
      assert a == [a[0]] + a[1..] && a[0] in a;
      BarsEscaped(a[1..], b);
      assert (a + ("|" + b))[1..] == a[1..] + ("|" + b);
    }
  }

  lemma {:induction false} JoinNames(names: seq<string>, c: char)
    requires names != [] && c != ',' && c != ' ' && forall i :: 0 <= i < |names| ==> c !in names[i]
    ensures c !in Join(names, ", ")
  {
    if |names| > 1 {
      JoinNames(names[1..], c);
    }
  }

  lemma {:induction false} JoinNamesTrimmed(names: seq<string>)
    requires names != [] && forall i :: 0 <= i < |names| ==> Plain(names[i])
    ensures IsTrimmed(Join(names, ", ")) && Join(names, ", ") != ""
  {
    assert Plain(names[0]);
    if |names| > 1 {
      JoinNamesTrimmed(names[1..]);
    }
  }

  /** The joined names come apart again: each is the trimmed part between commas. */
  lemma {:induction false} NamesReadBack(names: seq<string>, pad: string)
    requires names != [] && (pad == "" || pad == " ") && forall i :: 0 <= i < |names| ==> Plain(names[i])
    ensures NonEmpty(TrimAll(SplitOn(pad + Join(names, ", "), ','))) == names
  {
    var first := pad + names[0];
    assert Plain(names[0]);
    if pad == " " {
      TrimPadded(names[0]);
    } else {
      assert first == names[0];
      TrimTrimmed(names[0]);
    }
    assert Trim(first) == names[0] && ',' !in first;
    if |names| == 1 {
      SplitWhole(first, ',');
      TrimAllCons(first, []);
      assert [first] + [] == [first] && names == [names[0]];
    } else {
      NamesReadBack(names[1..], " ");
      var more := " " + Join(names[1..], ", ");
      PadJoin(names, pad);
      SplitFirst(first, ',', more);
      TrimAllCons(first, SplitOn(more, ','));
      assert names == [names[0]] + names[1..];
    }
  }

  lemma PadJoin(names: seq<string>, pad: string)
    requires |names| > 1
    ensures pad + Join(names, ", ") == (pad + names[0]) + ("," + (" " + Join(names[1..], ", ")))
  {
    var rest := Join(names[1..], ", ");
    assert ", " + rest == "," + (" " + rest);
  }

  lemma TrimAllCons(first: string, rest: seq<string>)
    ensures TrimAll([first] + rest) == [Trim(first)] + TrimAll(rest)
    ensures Trim(first) != "" ==> NonEmpty(TrimAll([first] + rest)) == [Trim(first)] + NonEmpty(TrimAll(rest))
    ensures Trim(first) == "" ==> NonEmpty(TrimAll([first] + rest)) == NonEmpty(TrimAll(rest))
  {
    assert ([first] + rest)[1..] == rest;
    assert ([Trim(first)] + TrimAll(rest))[1..] == TrimAll(rest);
  }

  /** The cells of a row of two cells and more. */
  lemma RowCells(a: string, b: string, rest: string)
    requires '|' !in a && '|' !in b && Trim(a) != "" && Trim(b) != ""
    ensures
      var cells := NonEmpty(TrimAll(SplitOn("|" + (a + ("|" + (b + ("|" + rest)))), '|')));
      |cells| >= 2 && cells[0] == Trim(a) && cells[1] == Trim(b)
  {
    var tail := b + ("|" + rest);
    SplitFirst("", '|', a + ("|" + tail));
    assert "" + ("|" + (a + ("|" + tail))) == "|" + (a + ("|" + tail));
    SplitFirst(a, '|', tail);
    SplitFirst(b, '|', rest);
    TrimAllCons("", [a] + ([b] + SplitOn(rest, '|')));
    TrimAllCons(a, [b] + SplitOn(rest, '|'));
    TrimAllCons(b, SplitOn(rest, '|'));
  }

  /** A row starts with a given cell exactly when that is its first. */
  lemma FirstCell(a: string, rest: string, x: string)
    requires '|' !in a && '|' !in x
    ensures StartsWith("|" + (a + ("|" + rest)), "|" + (x + "|")) ==> a == x
  {
    var row, start := "|" + (a + ("|" + rest)), "|" + (x + "|");
    if StartsWith(row, start) {
      var more := row[|start|..];
      assert row == start + more;
      assert row[1..] == a + ("|" + rest);
      assert (start + more)[1..] == x + ("|" + more);
      FirstPart(a, rest, x, more, '|');
    }
  }

  lemma PadTrimmed(s: string)
    requires Visible(s)
    ensures Trim(" " + (s + " ")) != ""
  {
    var i :| 0 <= i < |s| && !IsSpace(s[i]);
    assert (" " + (s + " "))[i + 1] == s[i];
    TrimKeepsSome(" " + (s + " "), i + 1);
  }

  lemma RowShape(g: ToolGroup<string>)
    requires Printable(g)
    ensures Trim(Row(g)) == Row(g) && StartsWith(Row(g), "|")
    ensures RowTools(Groups, Row(g)) == Undescribed(g.tools)
  {
    RowEnds(g);
    TrimTrimmed(Row(g));
    RowListsNames(g);
  }

  lemma RowListsNames(g: ToolGroup<string>)
    requires Printable(g)
    ensures RowTools(Groups, Row(g)) == Undescribed(g.tools)
  {
    var names := Join(g.tools, ", ");
    JoinNames(g.tools, '|');
    NoBars(names);
    JoinNamesTrimmed(g.tools);
    PadTrimmed(g.caption);
    TrimPadded(names);
    RowCells(" " + (g.caption + " "), " " + (names + " "), LinkCell(g.filename));
    NamesReadBack(g.tools, "");
    assert "" + names == names;
  }

  lemma RowEnds(g: ToolGroup<string>)
    ensures Row(g)[0] == '|' && Row(g)[|Row(g)| - 1] == '|' && IsTrimmed(Row(g)) && StartsWith(Row(g), "|")
  {
    var cell := LinkCell(g.filename);
    assert cell[|cell| - 1] == '|';
  }

  /** A row is no table header. */
  lemma RowIsNoHeader(g: ToolGroup<string>)
    requires Printable(g)
    ensures !StartsWith(Row(g), "| Tool |") && !StartsWith(Row(g), "| tool |") && !StartsWith(Row(g), "| Group |")
  {
    var a := " " + (g.caption + " ");
    var names := Join(g.tools, ", ");
    var rest := (" " + (EscapeBars(names) + " ")) + ("|" + LinkCell(g.filename));
    NotCell(g.caption, rest, "Tool");
    NotCell(g.caption, rest, "tool");
    NotCell(g.caption, rest, "Group");
    assert "|" + ((" " + ("Tool" + " ")) + "|") == "| Tool |";
    assert "|" + ((" " + ("tool" + " ")) + "|") == "| tool |";
    assert "|" + ((" " + ("Group" + " ")) + "|") == "| Group |";
  }

  lemma NotCell(caption: string, rest: string, x: string)
    requires '|' !in caption && '|' !in x && caption != x
    ensures !StartsWith("|" + ((" " + (caption + " ")) + ("|" + rest)), "|" + ((" " + (x + " ")) + "|"))
  {
    FirstCell(" " + (caption + " "), rest, " " + (x + " "));
    assert (" " + (caption + " "))[1..|caption| + 1] == caption;
    assert (" " + (x + " "))[1..|x| + 1] == x;
  }

  /** Inside the table each row adds its names. */
  lemma RowReads(st: Parsed, g: ToolGroup<string>)
    requires Printable(g) && st.kind == Groups && st.headerSeen
    ensures ParseLine(st, Row(g)) == Parsed(Groups, true, st.tools + Undescribed(g.tools))
  {
    RowShape(g);
    RowIsNoHeader(g);
  }

  lemma {:induction false} UndescribedAppend(a: seq<string>, b: seq<string>)
    ensures Undescribed(a + b) == Undescribed(a) + Undescribed(b)
  {
    if a == [] {
      assert a + b == b;
    } else {
      UndescribedAppend(a[1..], b);
      assert (a + b)[0] == a[0] && (a + b)[1..] == a[1..] + b;
      Associative([Tool(a[0], "")], Undescribed(a[1..]), Undescribed(b));
    }
  }

  lemma {:induction false} RowsRead(st: Parsed, groups: seq<ToolGroup<string>>)
    requires st.kind == Groups && st.headerSeen && forall i :: 0 <= i < |groups| ==> Printable(groups[i])
    ensures ParseLines(st, Rows(groups)) == Parsed(Groups, true, st.tools + Undescribed(AllTools(groups)))
    decreases |groups|
  {
    if groups == [] {
      assert st.tools + [] == st.tools;
    } else {
      RowReads(st, groups[0]);
      RowsRead(ParseLine(st, Row(groups[0])), groups[1..]);
      assert Rows(groups)[1..] == Rows(groups[1..]);
      UndescribedAppend(groups[0].tools, AllTools(groups[1..]));
      Associative(st.tools, Undescribed(groups[0].tools), Undescribed(AllTools(groups[1..])));
    }
  }

  // --------------------------------------------------- reading the whole block

  /** A line that lists nothing. */
  predicate Inert(line: string) {
    var t := Trim(line);
    t == "" || (t[0] != '|' && t[0] != '-')
  }

  lemma InertStep(st: Parsed, line: string)
    requires Inert(line) && (st.kind == NoTable || st.headerSeen)
    ensures ParseLine(st, line) == Parsed(NoTable, st.headerSeen, st.tools)
  {
    assert st.tools + [] == st.tools;
  }

  lemma {:induction false} InertLines(st: Parsed, lines: seq<string>)
    requires (st.kind == NoTable || st.headerSeen) && lines != [] && forall i :: 0 <= i < |lines| ==> Inert(lines[i])
    ensures ParseLines(st, lines) == Parsed(NoTable, st.headerSeen, st.tools)
    decreases |lines|
  {
    InertStep(st, lines[0]);
    assert ParseLines(st, lines) == ParseLines(ParseLine(st, lines[0]), lines[1..]);
    if |lines| > 1 {
      InertLines(ParseLine(st, lines[0]), lines[1..]);
    } else {
      assert lines[1..] == [];
      assert ParseLines(ParseLine(st, lines[0]), []) == ParseLine(st, lines[0]);
    }
  }

  lemma InertFirst(line: string)
    requires line != "" && !IsSpace(line[0]) && line[0] != '|' && line[0] != '-'
    ensures Inert(line)
  {
    TrimEndKeeps(line, 0);
  }

  lemma {:induction false} ParseAppend(st: Parsed, a: seq<string>, b: seq<string>)
    ensures ParseLines(st, a + b) == ParseLines(ParseLines(st, a), b)
  {
    FoldAppend(ParseLine, st, a, b);
  }

  lemma UsageInert(service: string)
    ensures forall i :: 0 <= i < |Usage(service)| ==> Inert(Usage(service)[i])
  {
    InertFirst("## Usage");
    InertFirst("```bash");
    InertFirst("```");
    assert References[0] == 'S';
    InertFirst(References);
    assert CallLine(service)[0] == 'm';
    InertFirst(CallLine(service));
    assert Inert("");
  }

  lemma GroupHeaderReads(st: Parsed)
    ensures ParseLine(st, GroupHeader) == Parsed(Groups, false, st.tools)
  {
    TrimTrimmed(GroupHeader);
    assert GroupHeader[..8][2] == 'G';
    assert "| Tool |"[2] == 'T' && "| tool |"[2] == 't';
    assert GroupHeader[..9] == "| Group |";
    assert At("Tools", GroupHeader, 10) by {
      assert GroupHeader[10..15] == "Tools";
    }
    IndexOfIsFirst(GroupHeader, "Tools");
  }

  lemma SeparatorReads(st: Parsed)
    requires st.kind == Groups && !st.headerSeen
    ensures ParseLine(st, GroupSeparator) == Parsed(Groups, true, st.tools)
  {
    TrimTrimmed(GroupSeparator);
    assert GroupSeparator[1] == '-';
    assert "| Tool |"[1] == "| tool |"[1] == "| Group |"[1] == ' ';
    assert !StartsWith(GroupSeparator, "| Tool |") by { assert GroupSeparator[..8][1] == '-'; }
    assert !StartsWith(GroupSeparator, "| tool |") by { assert GroupSeparator[..8][1] == '-'; }
    assert !StartsWith(GroupSeparator, "| Group |") by { assert GroupSeparator[..9][1] == '-'; }
    assert GroupSeparator[..4] == "|---";
  }

  const Start := Parsed(NoTable, false, [])

  lemma GroupListingReads(groups: seq<ToolGroup<string>>)
    requires forall i :: 0 <= i < |groups| ==> Printable(groups[i])
    ensures ParseLines(Start, ["## Tool Groups", "", GroupHeader, GroupSeparator] + Rows(groups))
      == Parsed(Groups, true, Undescribed(AllTools(groups)))
  {
    GroupHeadReads();
    ParseAppend(Start, GroupHead, Rows(groups));
    RowsRead(Parsed(Groups, true, []), groups);
    assert [] + Undescribed(AllTools(groups)) == Undescribed(AllTools(groups));
  }

  const GroupHead: seq<string> := ["## Tool Groups", "", GroupHeader, GroupSeparator]

  lemma GroupHeadReads()
    ensures ParseLines(Start, GroupHead) == Parsed(Groups, true, [])
  {
    var head := ["## Tool Groups", ""];
    InertFirst("## Tool Groups");
    assert Inert("");
    InertLines(Start, head);
    GroupHeaderReads(Start);
    SeparatorReads(Parsed(Groups, false, []));
    TwoLines(Start, GroupHeader, GroupSeparator);
    ParseAppend(Start, head, [GroupHeader, GroupSeparator]);
    Four("## Tool Groups", "", GroupHeader, GroupSeparator);
  }

  lemma Four<T>(a: T, b: T, c: T, d: T)
    ensures [a, b, c, d] == [a, b] + [c, d]
  {
  }

  lemma TwoLines(st: Parsed, a: string, b: string)
    ensures ParseLines(st, [a, b]) == ParseLine(ParseLine(st, a), b)
  {
    assert [a, b][1..] == [b] && [b][1..] == [];
    assert ParseLines(ParseLine(st, a), [b]) == ParseLines(ParseLine(ParseLine(st, a), b), []);
  }

  /** Without a blank in it a name is read from the flat list; with one it is not. */
  function Unblanked(names: seq<string>): seq<string> {
    if names == [] then [] else (if ' ' in names[0] then [] else [names[0]]) + Unblanked(names[1..])
  }

  lemma IncludesBlank(s: string)
    ensures Includes(s, " ") <==> ' ' in s
  {
    IndexOfIsFirst(s, " ");
    if ' ' in s {
      var i :| 0 <= i < |s| && s[i] == ' ';
      assert At(" ", s, i);
    }
    if i :| At(" ", s, i) {
      assert s[i..i + 1][0] == s[i];
    }
  }

  lemma FlatLineReads(st: Parsed, name: string)
    requires Plain(name) && st.kind == NoTable
    ensures ParseLine(st, "- " + name) == Parsed(NoTable, st.headerSeen,
      st.tools + Undescribed(if ' ' in name then [] else [name]))
  {
    var line := "- " + name;
    assert IsTrimmed(line) && line[0] == '-' && line[..2] == "- " && line[2..] == name;
    TrimTrimmed(line);
    TrimTrimmed(name);
    IncludesBlank(name);
    assert !StartsWith(line, "| Tool |") by { assert |line| >= 8 ==> line[..8][0] == '-'; }
    assert !StartsWith(line, "| tool |") by { assert |line| >= 8 ==> line[..8][0] == '-'; }
    assert !StartsWith(line, "| Group |") by { assert |line| >= 9 ==> line[..9][0] == '-'; }
    assert Undescribed([name]) == [Tool(name, "")] + Undescribed([]);
  }

  lemma {:induction false} FlatLinesRead(st: Parsed, names: seq<string>)
    requires st.kind == NoTable && forall i :: 0 <= i < |names| ==> Plain(names[i])
    ensures ParseLines(st, Each("- ", names)) == Parsed(NoTable, st.headerSeen,
      st.tools + Undescribed(Unblanked(names)))
    decreases |names|
  {
    if names == [] {
      assert st.tools + [] == st.tools;
    } else {
      FlatLineReads(st, names[0]);
      FlatLinesRead(ParseLine(st, "- " + names[0]), names[1..]);
      assert Each("- ", names)[1..] == Each("- ", names[1..]);
      var first := if ' ' in names[0] then [] else [names[0]];
      UndescribedAppend(first, Unblanked(names[1..]));
      Associative(st.tools, Undescribed(first), Undescribed(Unblanked(names[1..])));
    }
  }

  /** What a listing is read as. */
  function Listed(input: Input): seq<string> {
    if input.groups != [] then AllTools(input.groups) else Unblanked(input.tools)
  }

  /** What is listed can be printed: the groups, or without groups the tools. */
  ghost predicate AllPrintable(input: Input) {
    && (forall i :: 0 <= i < |input.groups| ==> Printable(input.groups[i]))
    && (input.groups == [] ==> forall i :: 0 <= i < |input.tools| ==> Plain(input.tools[i]))
  }

  /** No end marker in what is listed. */
  ghost predicate ListedEndFree(input: Input) {
    && (forall i :: 0 <= i < |input.groups| ==> EndFree(input.groups[i]))
    && (input.groups == [] ==> Without(MarkerEnd, input.tools))
  }

  lemma ListingReads(input: Input)
    requires AllPrintable(input)
    ensures
      var st := ParseLines(Start, Listing(input));
      st.tools == Undescribed(Listed(input)) && (st.kind == NoTable || st.headerSeen)
  {
    if input.groups != [] {
      GroupListingReads(input.groups);
    } else {
      var head := ["## Tools", ""];
      InertFirst("## Tools");
      assert Inert("");
      InertLines(Start, head);
      ParseAppend(Start, head, Each("- ", input.tools));
      FlatLinesRead(Start, input.tools);
      assert [] + Undescribed(Listed(input)) == Undescribed(Listed(input));
    }
  }

  /** The lines between the markers read back as the listing. */
  lemma BodyReads(input: Input)
    requires AllPrintable(input)
    ensures ParseLines(Start, [""] + Body(input) + [""]).tools == Undescribed(Listed(input))
  {
    ListingReads(input);
    UsageInert(input.service);
    assert Inert("");
    var blanks, tail := ["", ""], Usage(input.service) + [""];
    InertLines(Start, blanks);
    var st := ParseLines(Start, Listing(input));
    InertLines(st, tail);
    ParseAppend(Start, Listing(input), tail);
    ParseAppend(Start, blanks, Listing(input) + tail);
    Reassociate(Listing(input), Usage(input.service), "");
  }

  lemma Reassociate<T>(listing: seq<T>, usage: seq<T>, blank: T)
    ensures [blank] + ([blank] + listing + usage) + [blank] == [blank, blank] + (listing + (usage + [blank]))
  {
  }

  // ------------------------------------------------------------- the markers

  /** A mark with its opening character nowhere else, on one line. */
  predicate Mark(m: string) {
    m != "" && m[0] == '<' && '<' !in m[1..] && '\n' !in m
  }

  lemma MarkOf(a: string, b: string)
    requires Mark(a) && '<' !in b && '\n' !in b
    ensures Mark(a + b)
  {
    assert (a + b)[1..] == a[1..] + b;
  }

  lemma BothMarks()
    ensures Mark(MarkerStart) && Mark(MarkerEnd)
  {
    MarkOf("<!-- AUTO-", "GENERATED:START -->");
    MarkOf("<!-- AUTO-", "GENERATED:END -->");
  }

  lemma EndNotInStart()
    requires Mark(MarkerStart) && Mark(MarkerEnd)
    ensures !Occurs(MarkerEnd, MarkerStart)
  {
    assert MarkerStart[20] == 'S' && MarkerEnd[20] == 'E';
    NotAt(MarkerEnd, MarkerStart, 20);
  }

  lemma NotAt(m: string, s: string, k: nat)
    requires Mark(m) && Mark(s) && k < |m| && k < |s| && m[k] != s[k]
    ensures !Occurs(m, s)
  {
    forall i ensures !At(m, s, i) {
      if 0 <= i && i + |m| <= |s| {
        assert s[i..i + |m|][0] == s[i];
        if i == 0 {
          assert s[0..|m|][k] == s[k];
        } else {
          assert s[i] == s[1..][i - 1];
        }
      }
    }
  }

  lemma Marks()
    ensures Mark(MarkerStart) && Mark(MarkerEnd) && !Occurs(MarkerEnd, MarkerStart)
  {
    BothMarks();
    EndNotInStart();
  }

  lemma PrefixWithout(m: string, x: string, s: string)
    requires Mark(m) && '<' !in x && !Occurs(m, s)
    ensures !Occurs(m, x + s)
  {
    if Occurs(m, x + s) {
      OccursAfter(m, x, s);
    }
  }

  lemma PlainWithout(m: string, s: string)
    requires Mark(m) && '<' !in s
    ensures !Occurs(m, s)
  {
    forall i ensures !At(m, s, i) {
      if 0 <= i && i + |m| <= |s| {
        assert s[i..i + |m|][0] == s[i] && s[i] in s;
      }
    }
  }

  lemma {:induction false} DecimalPlain(n: nat)
    ensures '<' !in Decimal(n) && '\n' !in Decimal(n) && '|' !in Decimal(n) && Decimal(n) != ""
  {
    var digit := "0123456789"[n % 10];
    assert digit in "0123456789";
    if n >= 10 {
      DecimalPlain(n / 10);
    }
  }

  lemma AppendWithout(m: string, a: seq<string>, b: seq<string>)
    requires Without(m, a) && Without(m, b)
    ensures Without(m, a + b)
  {
  }

  /** No text of the header has the mark in it. */
  ghost predicate HeaderFree(m: string, input: Input) {
    && !Occurs(m, input.service) && !Occurs(m, input.description) && !Occurs(m, input.generatedAt)
      && !Occurs(m, input.schemaHash)
    && Without(m, input.triggers)
  }

  lemma EachWithout(m: string, prefix: string, parts: seq<string>)
    requires Mark(m) && '<' !in prefix && Without(m, parts)
    ensures Without(m, Each(prefix, parts))
  {
    forall i | 0 <= i < |parts| ensures !Occurs(m, Each(prefix, parts)[i]) {
      PrefixWithout(m, prefix, parts[i]);
    }
  }

  lemma FrontWithout(m: string, input: Input)
    requires Mark(m) && HeaderFree(m, input)
    ensures Without(m, Front(input))
  {
    PlainWithout(m, "---");
    PrefixWithout(m, "name: ", input.service);
    PrefixWithout(m, "description: ", input.description);
    var first := ["---", "name: " + input.service, "description: " + input.description];
    var second := Optional(input.toolCount.Some?, CountLine(input));
    if input.toolCount.Some? {
      DecimalPlain(input.toolCount.value);
      PlainWithout(m, CountLine(input));
    }
    PrefixWithout(m, "generated_at: ", input.generatedAt);
    PrefixWithout(m, "schema_hash: ", input.schemaHash);
    AppendWithout(m, first, second);
    AppendWithout(m, first + second, Optional(input.generatedAt != "", "generated_at: " + input.generatedAt));
  }

  lemma HeaderWithout(m: string, input: Input)
    requires Mark(m) && HeaderFree(m, input)
    ensures Without(m, Header(input))
  {
    FrontWithout(m, input);
    PlainWithout(m, "triggers:");
    PlainWithout(m, "---");
    PlainWithout(m, "");
    EachWithout(m, "  - ", input.triggers);
    PrefixWithout(m, "# ", input.service);
    AppendWithout(m, Front(input), ["triggers:"]);
    AppendWithout(m, Front(input) + ["triggers:"], Each("  - ", input.triggers));
  }

  /** What is printed of a group has no end marker in it. */
  ghost predicate EndFree(g: ToolGroup<string>) {
    !Occurs(MarkerEnd, g.caption) && !Occurs(MarkerEnd, g.filename) && Without(MarkerEnd, g.tools)
  }

  lemma PaddedWithout(x: string, s: string, y: string)
    requires !Occurs(MarkerEnd, s) && '<' !in x && '>' !in y
    ensures !Occurs(MarkerEnd, x + (s + y))
  {
    if Occurs(MarkerEnd, x + (s + y)) {
      OccursAfter(MarkerEnd, x, s + y);
      OccursBefore(MarkerEnd, s, y);
    }
  }

  lemma BesideWithout(a: string, c: char, b: string)
    requires c in {'|', '(', 't'} && !Occurs(MarkerEnd, a) && !Occurs(MarkerEnd, b)
    ensures !Occurs(MarkerEnd, a + ([c] + b))
  {
    if Occurs(MarkerEnd, a + ([c] + b)) {
      OccursBeside(MarkerEnd, a, c, b);
    }
  }

  lemma LinkWithout(filename: string)
    requires !Occurs(MarkerEnd, filename)
    ensures !Occurs(MarkerEnd, LinkCell(filename))
  {
    Marks();
    PaddedWithout(" [", filename, "]");
    PaddedWithout("references/", filename, ") |");
    BesideWithout(" [" + (filename + "]"), '(', "references/" + (filename + ") |"));
    LinkShape(filename);
  }

  lemma LinkShape(filename: string)
    ensures LinkCell(filename) == (" [" + (filename + "]")) + ("(" + ("references/" + (filename + ") |")))
  {
    var more := filename + ") |";
    assert "](references/" + more == "]" + ("(" + ("references/" + more));
    Associative(filename, "]", "(" + ("references/" + more));
    Associative(" [", filename + "]", "(" + ("references/" + more));
  }

  lemma JoinedWithout(m: string, parts: seq<string>)
    requires Mark(m) && ',' !in m && ' ' != m[0] && parts != [] && Without(m, parts)
    ensures !Occurs(m, Join(parts, ", "))
  {
    if Occurs(m, Join(parts, ", ")) {
      assert [','] + " " == ", ";
      OccursJoined(m, parts, ',', " ");
    }
  }

  lemma NamesWithout(g: ToolGroup<string>)
    requires Printable(g) && EndFree(g)
    ensures !Occurs(MarkerEnd, Join(g.tools, ", ")) && EscapeBars(Join(g.tools, ", ")) == Join(g.tools, ", ")
  {
    Marks();
    JoinNames(g.tools, '|');
    NoBars(Join(g.tools, ", "));
    JoinedWithout(MarkerEnd, g.tools);
  }

  lemma RowWithout(g: ToolGroup<string>)
    requires Printable(g) && EndFree(g)
    ensures !Occurs(MarkerEnd, Row(g))
  {
    Marks();
    var names := Join(g.tools, ", ");
    NamesWithout(g);
    LinkWithout(g.filename);
    PaddedWithout(" ", g.caption, " ");
    PaddedWithout(" ", names, " ");
    BesideWithout(" " + (names + " "), '|', LinkCell(g.filename));
    var rest := (" " + (names + " ")) + ("|" + LinkCell(g.filename));
    BesideWithout(" " + (g.caption + " "), '|', rest);
    PrefixWithout(MarkerEnd, "|", (" " + (g.caption + " ")) + ("|" + rest));
  }

  lemma CallWithout(service: string)
    requires !Occurs(MarkerEnd, service)
    ensures !Occurs(MarkerEnd, CallLine(service))
  {
    Marks();
    var tail := "ool> --params '{...}'";
    PaddedWithout("mcp2cli ", service, " <");
    PlainWithout(MarkerEnd, tail);
    BesideWithout("mcp2cli " + (service + " <"), 't', tail);
    assert " <tool> --params '{...}'" == " <" + ("t" + tail);
    Associative(service, " <", "t" + tail);
    Associative("mcp2cli ", service + " <", "t" + tail);
  }

  // ---------------------------------------------------------- the whole file

  lemma MiddleShape(body: seq<string>)
    requires body != []
    ensures Join([""] + body + [""], "\n") == "\n" + (Join(body, "\n") + "\n")
  {
    JoinAppend([""], body, "\n");
    JoinAppend([""] + body, [""], "\n");
    assert Join([""] + body, "\n") == "\n" + Join(body, "\n");
  }

  /** The text around the two markers. */
  lemma TextShape(header: seq<string>, start: string, body: seq<string>, end: string, tail: seq<string>)
    requires header != [] && body != [] && tail != []
    ensures
      Join(header + [start] + body + [end] + tail, "\n")
      == (Join(header, "\n") + "\n") + (start + (("\n" + (Join(body, "\n") + "\n"))
        + (end + ("\n" + Join(tail, "\n")))))
  {
    var h, b, t := Join(header, "\n"), Join(body, "\n"), Join(tail, "\n");
    JoinAppend(header, [start], "\n");
    JoinAppend(header + [start], body, "\n");
    JoinAppend(header + [start] + body, [end], "\n");
    JoinAppend(header + [start] + body + [end], tail, "\n");
    var x := h + ("\n" + start);
    var y := x + ("\n" + b);
    var z := y + ("\n" + end);
    Associative(y, "\n" + end, "\n" + t);
    Associative("\n", end, "\n" + t);
    Associative(x, "\n" + b, "\n" + (end + ("\n" + t)));
    Associative("\n", b, "\n" + (end + ("\n" + t)));
    Associative(b, "\n", end + ("\n" + t));
    Associative("\n", b + "\n", end + ("\n" + t));
    Associative(h, "\n" + start, ("\n" + (b + "\n")) + (end + ("\n" + t)));
    Associative("\n", start, ("\n" + (b + "\n")) + (end + ("\n" + t)));
    Associative(h, "\n", start + (("\n" + (b + "\n")) + (end + ("\n" + t))));
  }

  /** A mark in none of the lines is not in their text, nor in that text and a line feed. */
  lemma LinesText(m: string, lines: seq<string>)
    requires Mark(m) && Without(m, lines) && lines != []
    ensures !Occurs(m, Join(lines, "\n")) && !Occurs(m, Join(lines, "\n") + "\n")
  {
    assert ['\n'] + "" == "\n";
    if Occurs(m, Join(lines, "\n") + "\n") {
      PlainWithout(m, "");
      assert Join(lines, "\n") + "\n" == Join(lines, "\n") + (['\n'] + "");
      OccursBeside(m, Join(lines, "\n"), '\n', "");
    }
    if Occurs(m, Join(lines, "\n")) {
      OccursJoined(m, lines, '\n', "");
    }
  }

  lemma SidesWithout(m: string, before: string, start: string, middle: string)
    requires Mark(m) && !Occurs(m, before) && !Occurs(m, start) && !Occurs(m, middle)
    ensures !Occurs(m, (before + "\n") + (start + ("\n" + middle)))
  {
    if Occurs(m, (before + "\n") + (start + ("\n" + middle))) {
      Associative(before, "\n", start + ("\n" + middle));
      OccursBeside(m, before, '\n', start + ("\n" + middle));
      OccursBeside(m, start, '\n', middle);
    }
  }

  /** Between the first markers lies just what was printed between them. */
  lemma ScopeIs(before: string, middle: string, after: string)
    requires !Occurs(MarkerStart, before) && !Occurs(MarkerEnd, before + (MarkerStart + middle)) && middle != ""
    ensures Scope(before + (MarkerStart + (middle + (MarkerEnd + after)))) == middle
  {
    Marks();
    var text := before + (MarkerStart + (middle + (MarkerEnd + after)));
    IndexOfFirst(before, MarkerStart, middle + (MarkerEnd + after));
    var front := before + (MarkerStart + middle);
    Associative(MarkerStart, middle, MarkerEnd + after);
    Associative(before, MarkerStart + middle, MarkerEnd + after);
    assert text == front + (MarkerEnd + after);
    IndexOfFirst(front, MarkerEnd, after);
    var from, to := |before| + |MarkerStart|, |front|;
    assert to == from + |middle|;
    CutMiddle(before, MarkerStart, middle, MarkerEnd + after);
  }

  lemma CutMiddle(before: string, mark: string, middle: string, rest: string)
    ensures
      var text := before + (mark + (middle + rest));
      var from := |before| + |mark|;
      from + |middle| <= |text| && text[from..from + |middle|] == middle
  {
  }

  lemma RowOneLine(g: ToolGroup<string>)
    requires Printable(g)
    ensures '\n' !in Row(g)
  {
    JoinNames(g.tools, '\n');
    JoinNames(g.tools, '|');
    NoBars(Join(g.tools, ", "));
    assert '\n' !in LinkCell(g.filename);
  }

  lemma ListingOneLine(input: Input)
    requires AllPrintable(input)
    ensures NoBreaks(Listing(input))
  {
    if input.groups != [] {
      assert NoBreaks(GroupHead);
      forall i | 0 <= i < |input.groups| ensures '\n' !in Rows(input.groups)[i] {
        RowOneLine(input.groups[i]);
      }
    }
  }

  lemma BodyOneLine(input: Input)
    requires AllPrintable(input) && '\n' !in input.service
    ensures NoBreaks([""] + Body(input) + [""])
  {
    ListingOneLine(input);
    assert '\n' !in CallLine(input.service);
    ReferencesPlain('\n');
    assert NoBreaks(Usage(input.service));
  }

  lemma ListingWithout(input: Input)
    requires AllPrintable(input) && ListedEndFree(input)
    ensures Without(MarkerEnd, Listing(input))
  {
    Marks();
    if input.groups != [] {
      GroupHeadWithout();
      forall i | 0 <= i < |input.groups| ensures !Occurs(MarkerEnd, Rows(input.groups)[i]) {
        RowWithout(input.groups[i]);
      }
      AppendWithout(MarkerEnd, GroupHead, Rows(input.groups));
    } else {
      PlainWithout(MarkerEnd, "## Tools");
      PlainWithout(MarkerEnd, "");
      EachWithout(MarkerEnd, "- ", input.tools);
      AppendWithout(MarkerEnd, ["## Tools", ""], Each("- ", input.tools));
    }
  }

  lemma GroupHeadWithout()
    ensures Without(MarkerEnd, GroupHead)
  {
    Marks();
    PlainWithout(MarkerEnd, "## Tool Groups");
    PlainWithout(MarkerEnd, "");
    PlainWithout(MarkerEnd, GroupHeader);
    PlainWithout(MarkerEnd, GroupSeparator);
  }

  lemma ReferencesPlain(c: char)
    requires c == '<' || c == '\n'
    ensures c !in References
  {
    assert c !in "See `" && c !in "references/` for " && c !in "per-tool parameters, " && c !in "types, and examples.";
  }

  lemma UsageWithout(service: string)
    requires !Occurs(MarkerEnd, service)
    ensures Without(MarkerEnd, Usage(service))
  {
    Marks();
    PlainWithout(MarkerEnd, "");
    PlainWithout(MarkerEnd, "## Usage");
    PlainWithout(MarkerEnd, "```bash");
    PlainWithout(MarkerEnd, "```");
    ReferencesPlain('<');
    PlainWithout(MarkerEnd, References);
    CallWithout(service);
  }

  lemma BodyWithout(input: Input)
    requires AllPrintable(input) && ListedEndFree(input) && !Occurs(MarkerEnd, input.service)
    ensures Without(MarkerEnd, Body(input))
  {
    Marks();
    PlainWithout(MarkerEnd, "");
    ListingWithout(input);
    UsageWithout(input.service);
    AppendWithout(MarkerEnd, [""], Listing(input));
    AppendWithout(MarkerEnd, [""] + Listing(input), Usage(input.service));
  }

  /** What is asked of the texts around the listing: no marker, and a service name on one line. */
  ghost predicate GoodHeader(input: Input) {
    HeaderFree(MarkerStart, input) && HeaderFree(MarkerEnd, input) && '\n' !in input.service
  }

  lemma ScopeOfText(input: Input)
    requires AllPrintable(input) && GoodHeader(input) && ListedEndFree(input)
    ensures Scope(SkillText(input)) == Join([""] + Body(input) + [""], "\n")
  {
    Marks();
    var h, b := Join(Header(input), "\n"), Join(Body(input), "\n");
    HeaderWithout(MarkerStart, input);
    HeaderWithout(MarkerEnd, input);
    BodyWithout(input);
    LinesText(MarkerStart, Header(input));
    LinesText(MarkerEnd, Header(input));
    LinesText(MarkerEnd, Body(input));
    SidesWithout(MarkerEnd, h, MarkerStart, b + "\n");
    TextShape(Header(input), MarkerStart, Body(input), MarkerEnd, Tail);
    ScopeIs(h + "\n", "\n" + (b + "\n"), "\n" + Join(Tail, "\n"));
    MiddleShape(Body(input));
  }

  /** The printed file reads back as the tools it lists. */
  lemma ReadsBack(input: Input)
    requires AllPrintable(input) && GoodHeader(input) && ListedEndFree(input)
    ensures ParsedTools(SkillText(input)) == Undescribed(Listed(input))
  {
    ScopeOfText(input);
    BodyOneLine(input);
    SplitJoin([""] + Body(input) + [""], '\n');
    BodyReads(input);
  }

  lemma NotUpTo(before: string, start: string, rest: string, m: string, i: nat)
    requires Mark(m) && !Occurs(m, start) && !Occurs(m, before) && i <= |before| + 1
    ensures !At(m, (before + "\n") + (start + ("\n" + rest)), i)
  {
    var text := (before + "\n") + (start + ("\n" + rest));
    assert !At(m, before, i) && !At(m, start, 0);
    if i + |m| <= |text| {
      if i + |m| <= |before| {
        assert text[i..i + |m|] == before[i..i + |m|];
      } else if i <= |before| {
        assert text[i..i + |m|][|before| - i] == text[|before|] == '\n';
      } else if |m| <= |start| {
        assert text[i..i + |m|] == start[0..|m|];
      } else {
        assert text[i..i + |m|][|start|] == text[|before| + 1 + |start|] == '\n';
      }
    }
  }

  lemma OccursWider(m: string, x: string, s: string, y: string)
    requires Occurs(m, s)
    ensures Occurs(m, x + (s + y))
  {
    var i :| At(m, s, i);
    assert (x + (s + y))[|x| + i..|x| + i + |m|] == s[i..i + |m|];
    assert At(m, x + (s + y), |x| + i);
  }

  /** With a header free of markers the first end marker comes after the start marker, whatever is listed. */
  lemma MarkersInOrder(input: Input)
    requires GoodHeader(input)
    ensures
      var a, b := IndexOf(SkillText(input), MarkerStart), IndexOf(SkillText(input), MarkerEnd);
      a.Position? && b.Position? && a.index < b.index
  {
    Marks();
    var h, b, t := Join(Header(input), "\n"), Join(Body(input), "\n"), Join(Tail, "\n");
    HeaderWithout(MarkerStart, input);
    HeaderWithout(MarkerEnd, input);
    LinesText(MarkerStart, Header(input));
    LinesText(MarkerEnd, Header(input));
    TextShape(Header(input), MarkerStart, Body(input), MarkerEnd, Tail);
    var rest := (b + "\n") + (MarkerEnd + ("\n" + t));
    var text := SkillText(input);
    Associative("\n", b + "\n", MarkerEnd + ("\n" + t));
    assert text == (h + "\n") + (MarkerStart + ("\n" + rest));
    IndexOfFirst(h + "\n", MarkerStart, "\n" + rest);
    EndComesLater(h, rest, b + "\n", "\n" + t, text);
  }

  lemma EndComesLater(h: string, rest: string, b: string, t: string, text: string)
    requires !Occurs(MarkerEnd, h) && rest == b + (MarkerEnd + t) && text == (h + "\n") + (MarkerStart + ("\n" + rest))
    ensures IndexOf(text, MarkerEnd).Position? && IndexOf(text, MarkerEnd).index > |h| + 1
  {
    Marks();
    IndexOfIsFirst(text, MarkerEnd);
    assert MarkerEnd[0..|MarkerEnd|] == MarkerEnd;
    assert At(MarkerEnd, MarkerEnd, 0);
    OccursWider(MarkerEnd, b, MarkerEnd, t);
    assert "\n" + rest == "\n" + (rest + "");
    OccursWider(MarkerEnd, "\n", rest, "");
    assert MarkerStart + ("\n" + rest) == MarkerStart + (("\n" + rest) + "");
    OccursWider(MarkerEnd, MarkerStart, "\n" + rest, "");
    assert text == (h + "\n") + ((MarkerStart + ("\n" + rest)) + "");
    OccursWider(MarkerEnd, h + "\n", MarkerStart + ("\n" + rest), "");
    forall i: nat | i <= |h| + 1 ensures !At(MarkerEnd, text, i) {
      NotUpTo(h, MarkerStart, rest, MarkerEnd, i);
    }
  }

  /**
    A file printed from groups reads back as exactly their tools if and only if no
    tool has the end marker in its name.
   */
  lemma ReadsBackIff(input: Input)
    requires input.groups != [] && AllPrintable(input) && GoodHeader(input)
    requires Without(MarkerEnd, AllTools(input.groups)) ==>
      forall i :: 0 <= i < |input.groups| ==> EndFree(input.groups[i])
    ensures ParsedTools(SkillText(input)) == Undescribed(AllTools(input.groups))
      <==> Without(MarkerEnd, AllTools(input.groups))
    ensures multiset(Names(ParsedTools(SkillText(input)))) == multiset(AllTools(input.groups))
      <==> Without(MarkerEnd, AllTools(input.groups))
  {
    UndescribedNames(AllTools(input.groups));
    if Without(MarkerEnd, AllTools(input.groups)) {
      ReadsBack(input);
    } else {
      MarkersInOrder(input);
      NoNameHoldsEnd(SkillText(input));
      NotTheSame(Names(ParsedTools(SkillText(input))), AllTools(input.groups));
    }
  }

  lemma NotTheSame(a: seq<string>, b: seq<string>)
    requires Without(MarkerEnd, a) && !Without(MarkerEnd, b)
    ensures multiset(a) != multiset(b)
  {
    var i :| 0 <= i < |b| && Occurs(MarkerEnd, b[i]);
    assert b[i] in multiset(b);
    assert b[i] !in a;
  }
}
