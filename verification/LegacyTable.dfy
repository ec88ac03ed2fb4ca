/** What the parser reads from the older table of a skill file, which gives each tool a description. */
module LegacyTable {
  import opened Lists
  import opened Strings
  import opened Grouping
  import opened SkillFile
  import opened SkillRoundTrip

  const LegacyHeader := "| Tool | " + "Description |"
  const LowerHeader := "| tool | " + "Description |"
  const LegacySeparator := "|------|-------------|"

  function ToolRow(t: Tool): string {
    "|" + ((" " + (t.name + " ")) + ("|" + ((" " + (t.description + " ")) + ("|" + ""))))
  }

  function ToolRows(tools: seq<Tool>): (r: seq<string>)
    ensures |r| == |tools| && forall i :: 0 <= i < |r| ==> r[i] == ToolRow(tools[i])
  {
    seq(|tools|, i requires 0 <= i < |tools| => ToolRow(tools[i]))
  }

  predicate CellText(s: string) {
    s != "" && IsTrimmed(s) && '|' !in s && '\n' !in s
  }

  /** A tool whose row reads back. */
  predicate Listable(t: Tool) {
    CellText(t.name) && CellText(t.description) && t.name !in {"Tool", "tool", "Group"}
  }

  lemma ToolRowEnds(t: Tool)
    ensures ToolRow(t)[0] == '|' && ToolRow(t)[|ToolRow(t)| - 1] == '|' && StartsWith(ToolRow(t), "|")
  {
    var cell := (" " + (t.description + " ")) + ("|" + "");
    assert cell[|cell| - 1] == '|';
  }

  lemma ToolRowIsNoHeader(t: Tool)
    requires Listable(t)
    ensures !StartsWith(ToolRow(t), "| Tool |") && !StartsWith(ToolRow(t), "| tool |")
    ensures !StartsWith(ToolRow(t), "| Group |")
  {
    var rest := (" " + (t.description + " ")) + ("|" + "");
    NotCell(t.name, rest, "Tool");
    NotCell(t.name, rest, "tool");
    NotCell(t.name, rest, "Group");
    assert "|" + ((" " + ("Tool" + " ")) + "|") == "| Tool |";
    assert "|" + ((" " + ("tool" + " ")) + "|") == "| tool |";
    assert "|" + ((" " + ("Group" + " ")) + "|") == "| Group |";
  }

  /** Below the header and its separator, `| n | d |` reads as the tool `n` described `d`. */
  lemma ToolRowReads(st: Parsed, t: Tool)
    requires Listable(t) && st.kind == Legacy && st.headerSeen
    ensures ParseLine(st, ToolRow(t)) == Parsed(Legacy, true, st.tools + [t])
  {
    ToolRowEnds(t);
    TrimTrimmed(ToolRow(t));
    ToolRowIsNoHeader(t);
    TrimPadded(t.name);
    TrimPadded(t.description);
    RowCells(" " + (t.name + " "), " " + (t.description + " "), "");
    assert RowTools(Legacy, ToolRow(t)) == [Tool(t.name, t.description)];
  }

  lemma {:induction false} ToolRowsRead(st: Parsed, tools: seq<Tool>)
    requires st.kind == Legacy && st.headerSeen && forall i :: 0 <= i < |tools| ==> Listable(tools[i])
    ensures ParseLines(st, ToolRows(tools)) == Parsed(Legacy, true, st.tools + tools)
    decreases |tools|
  {
    if tools == [] {
      assert st.tools + [] == st.tools;
    } else {
      ToolRowReads(st, tools[0]);
      ToolRowsRead(ParseLine(st, ToolRow(tools[0])), tools[1..]);
      assert ToolRows(tools)[1..] == ToolRows(tools[1..]);
      assert tools == [tools[0]] + tools[1..];
      Associative(st.tools, [tools[0]], tools[1..]);
    }
  }

  lemma LegacyHeaderReads(st: Parsed)
    ensures ParseLine(st, LegacyHeader) == Parsed(Legacy, false, st.tools)
  {
    TrimTrimmed(LegacyHeader);
    assert LegacyHeader[..8] == "| Tool |";
    assert At("Description", LegacyHeader, 9) by {
      assert LegacyHeader[9..20] == "Description";
    }
    IndexOfIsFirst(LegacyHeader, "Description");
  }

  lemma LowerHeaderReads(st: Parsed)
    ensures ParseLine(st, LowerHeader) == Parsed(Legacy, false, st.tools)
  {
    TrimTrimmed(LowerHeader);
    assert LowerHeader[..8] == "| tool |";
    assert At("Description", LowerHeader, 9) by {
      assert LowerHeader[9..20] == "Description";
    }
    IndexOfIsFirst(LowerHeader, "Description");
  }

  lemma LegacySeparatorReads(st: Parsed)
    requires st.kind == Legacy && !st.headerSeen
    ensures ParseLine(st, LegacySeparator) == Parsed(Legacy, true, st.tools)
  {
    TrimTrimmed(LegacySeparator);
    assert !StartsWith(LegacySeparator, "| Tool |") by { assert LegacySeparator[..8][1] == '-'; }
    assert !StartsWith(LegacySeparator, "| tool |") by { assert LegacySeparator[..8][1] == '-'; }
    assert !StartsWith(LegacySeparator, "| Group |") by { assert LegacySeparator[..9][1] == '-'; }
    assert LegacySeparator[..4] == "|---";
  }

  /** The table with lines around it that list nothing. */
  function LegacyLines(above: seq<string>, header: string, tools: seq<Tool>, below: seq<string>): seq<string> {
    above + ([header, LegacySeparator] + (ToolRows(tools) + below))
  }

  predicate IsHeader(line: string) {
    line == LegacyHeader || line == LowerHeader
  }

  lemma AboveReads(above: seq<string>)
    requires forall i :: 0 <= i < |above| ==> Inert(above[i])
    ensures ParseLines(Parsed(NoTable, false, []), above) == Parsed(NoTable, false, [])
  {
    if above != [] {
      InertLines(Parsed(NoTable, false, []), above);
    }
  }

  lemma TableReads(st: Parsed, header: string, tools: seq<Tool>)
    requires IsHeader(header) && st == Parsed(NoTable, false, []) && forall i :: 0 <= i < |tools| ==> Listable(tools[i])
    ensures ParseLines(st, [header, LegacySeparator] + ToolRows(tools)) == Parsed(Legacy, true, tools)
  {
    var head := [header, LegacySeparator];
    ParseAppend(st, head, ToolRows(tools));
    LegacyHeaderReads(st);
    LowerHeaderReads(st);
    var one := ParseLine(st, header);
    LegacySeparatorReads(one);
    var two := ParseLine(one, LegacySeparator);
    assert head[1..] == [LegacySeparator] && head[1..][1..] == [];
    assert ParseLines(two, []) == two;
    assert ParseLines(one, [LegacySeparator]) == two;
    assert ParseLines(st, head) == two;
    ToolRowsRead(two, tools);
    assert [] + tools == tools;
  }

  lemma BelowReads(tools: seq<Tool>, below: seq<string>)
    requires forall i :: 0 <= i < |below| ==> Inert(below[i])
    ensures ParseLines(Parsed(Legacy, true, tools), below).tools == tools
  {
    if below != [] {
      InertLines(Parsed(Legacy, true, tools), below);
    }
  }

  lemma LegacyLinesRead(above: seq<string>, header: string, tools: seq<Tool>, below: seq<string>)
    requires IsHeader(header)
    requires forall i :: 0 <= i < |above| ==> Inert(above[i])
    requires forall i :: 0 <= i < |below| ==> Inert(below[i])
    requires forall i :: 0 <= i < |tools| ==> Listable(tools[i])
    ensures ParseLines(Parsed(NoTable, false, []), LegacyLines(above, header, tools, below)).tools == tools
  {
    var st, table := Parsed(NoTable, false, []), [header, LegacySeparator] + ToolRows(tools);
    Associative([header, LegacySeparator], ToolRows(tools), below);
    ParseAppend(st, above, table + below);
    AboveReads(above);
    ParseAppend(st, table, below);
    TableReads(st, header, tools);
    BelowReads(tools, below);
  }

  lemma LegacyBreaks(above: seq<string>, header: string, tools: seq<Tool>, below: seq<string>)
    requires IsHeader(header) && NoBreaks(above) && NoBreaks(below)
    requires forall i :: 0 <= i < |tools| ==> Listable(tools[i])
    ensures NoBreaks(LegacyLines(above, header, tools, below))
  {
    forall i | 0 <= i < |tools| ensures '\n' !in ToolRow(tools[i]) {
      assert Listable(tools[i]);
    }
    assert '\n' !in LegacyHeader && '\n' !in LowerHeader && '\n' !in LegacySeparator;
  }

  /** Only markers in order narrow the text that is read. */
  ghost predicate Unscoped(content: string) {
    !Occurs(MarkerStart, content) || !Occurs(MarkerEnd, content) || EndsFirst(content)
  }

  /** An end marker comes before every start marker. */
  ghost predicate EndsFirst(content: string) {
    exists j :: At(MarkerEnd, content, j) && forall i :: At(MarkerStart, content, i) ==> j < i
  }

  lemma UnscopedIsWhole(content: string)
    requires Unscoped(content)
    ensures Scope(content) == content
  {
    IndexOfIsFirst(content, MarkerStart);
    IndexOfIsFirst(content, MarkerEnd);
  }

  /** A file whose markers do not enclose anything and that has such a table lists its tools, with descriptions. */
  lemma LegacyReads(above: seq<string>, header: string, tools: seq<Tool>, below: seq<string>)
    requires IsHeader(header) && NoBreaks(above) && NoBreaks(below)
    requires forall i :: 0 <= i < |tools| ==> Listable(tools[i])
    requires forall i :: 0 <= i < |above| ==> Inert(above[i])
    requires forall i :: 0 <= i < |below| ==> Inert(below[i])
    requires Unscoped(Join(LegacyLines(above, header, tools, below), "\n"))
    ensures ParsedTools(Join(LegacyLines(above, header, tools, below), "\n")) == tools
  {
    var lines := LegacyLines(above, header, tools, below);
    UnscopedIsWhole(Join(lines, "\n"));
    LegacyBreaks(above, header, tools, below);
    SplitJoin(lines, '\n');
    LegacyLinesRead(above, header, tools, below);
  }
}
