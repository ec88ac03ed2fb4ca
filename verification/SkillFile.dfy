/**
  The front skill file: printing it from groups of tools, and reading the tool names
  back from it. A tool is represented by its name.
 */
module SkillFile {
  import opened Wrappers
  import opened Lists
  import opened Strings
  import opened Grouping

  /** What a skill file is made from; an empty `generatedAt` or `schemaHash` is left out. */
  datatype Input = Input(
    service: string, description: string, toolCount: Option<nat>, generatedAt: string, schemaHash: string,
    triggers: seq<string>, tools: seq<string>, groups: seq<ToolGroup<string>>)

  const MarkerStart := "<!-- AUTO-" + "GENERATED:START -->"
  const MarkerEnd := "<!-- AUTO-" + "GENERATED:END -->"

  // ---------------------------------------------------------------- the printer

  function Optional(present: bool, line: string): seq<string> {
    if present then [line] else []
  }

  function CountLine(input: Input): string {
    if input.toolCount == None then "" else "tool_count: " + Decimal(input.toolCount.value)
  }

  function Front(input: Input): seq<string> {
    ["---", "name: " + input.service, "description: " + input.description]
    + Optional(input.toolCount.Some?, CountLine(input))
    + Optional(input.generatedAt != "", "generated_at: " + input.generatedAt)
    + Optional(input.schemaHash != "", "schema_hash: " + input.schemaHash)
  }

  /** Everything above the generated block. */
  function Header(input: Input): seq<string> {
    Front(input) + ["triggers:"] + Each("  - ", input.triggers)
    + ["---", "", "# " + input.service, "", input.description, ""]
  }

  function EscapeBars(s: string): string {
    if s == "" then "" else (if s[0] == '|' then "\\|" else [s[0]]) + EscapeBars(s[1..])
  }

  /** One row of the group table. */
  function Row(g: ToolGroup<string>): string {
    "|" + ((" " + (g.caption + " ")) + ("|" + ((" " + (EscapeBars(Join(g.tools, ", ")) + " "))
      + ("|" + LinkCell(g.filename)))))
  }

  function LinkCell(filename: string): string {
    " [" + (filename + ("](references/" + (filename + ") |")))
  }

  function Rows(groups: seq<ToolGroup<string>>): (r: seq<string>)
    ensures |r| == |groups| && forall i :: 0 <= i < |r| ==> r[i] == Row(groups[i])
  {
    seq(|groups|, i requires 0 <= i < |groups| => Row(groups[i]))
  }

  const GroupHeader := "| Group | Tools | Reference |"
  const GroupSeparator := "|-------|-------|-----------|"

  /** The listing: a table of groups, or without groups a flat list of tools. */
  function Listing(input: Input): seq<string> {
    if input.groups != [] then ["## Tool Groups", "", GroupHeader, GroupSeparator] + Rows(input.groups)
    else ["## Tools", ""] + Each("- ", input.tools)
  }

  function CallLine(service: string): string {
    "mcp2cli " + (service + " <tool> --params '{...}'")
  }

  const References := "See `" + ("references/` for " + ("per-tool parameters, " + "types, and examples."))

  function Usage(service: string): seq<string> {
    ["", "## Usage", "", "```bash", CallLine(service), "```", "", References, ""]
  }

  /** The generated block between its markers. */
  function Body(input: Input): seq<string> {
    [""] + Listing(input) + Usage(input.service)
  }

  const NoteWords := "Add your custom notes, " + ("examples, or " + "overrides here -->")
  const StartLine := "<!-- " + ("MANUAL:START" + " -->")
  const NoteLine := "<!-- " + NoteWords
  const EndLine := "<!-- " + ("MANUAL:END" + " -->")

  const Tail: seq<string> := ["", "## Notes", "", StartLine, NoteLine, EndLine, ""]

  function SkillLines(input: Input): seq<string> {
    Header(input) + [MarkerStart] + Body(input) + [MarkerEnd] + Tail
  }

  function SkillText(input: Input): string {
    Join(SkillLines(input), "\n")
  }

  /** The file, line by line. */
  method GenerateSkillMd(input: Input) returns (text: string)
    ensures text == SkillText(input)
  {
    var lines := ["---", "name: " + input.service, "description: " + input.description];
    lines := PushIf(lines, input.toolCount.Some?, CountLine(input));
    lines := PushIf(lines, input.generatedAt != "", "generated_at: " + input.generatedAt);
    lines := PushIf(lines, input.schemaHash != "", "schema_hash: " + input.schemaHash);
    lines := lines + ["triggers:"];
    lines := PushEach(lines, "  - ", input.triggers);
    lines := lines + ["---", "", "# " + input.service, "", input.description, ""];
    var body := GenerateBody(input);
    lines := lines + [MarkerStart] + body + [MarkerEnd] + Tail;
    text := Join(lines, "\n");
  }

  method PushIf(lines: seq<string>, present: bool, line: string) returns (r: seq<string>)
    ensures r == lines + Optional(present, line)
  {
    r := lines;
    if present {
      r := r + [line];
    }
  }

  method PushEach(lines: seq<string>, prefix: string, parts: seq<string>) returns (r: seq<string>)
    ensures r == lines + Each(prefix, parts)
  {
    r := lines;
    for i := 0 to |parts|
      invariant r == lines + Each(prefix, parts)[..i]
    {
      r := r + [prefix + parts[i]];
    }
  }

  method GenerateBody(input: Input) returns (body: seq<string>)
    ensures body == Body(input)
  {
    body := [""];
    ghost var first := body;
    if |input.groups| > 0 {
      body := body + ["## Tool Groups", "", GroupHeader, GroupSeparator];
      body := PushRows(body, input.groups);
    } else {
      body := body + ["## Tools", ""];
      body := PushEach(body, "- ", input.tools);
    }
    Regroup(first, body, input);
    body := body + Usage(input.service);
  }

  lemma Regroup(first: seq<string>, body: seq<string>, input: Input)
    requires body == if input.groups != [] then first + ["## Tool Groups", "", GroupHeader, GroupSeparator]
      + Rows(input.groups)
                     else first + ["## Tools", ""] + Each("- ", input.tools)
    ensures body == first + Listing(input)
  {
    Associative(first, ["## Tool Groups", "", GroupHeader, GroupSeparator], Rows(input.groups));
    Associative(first, ["## Tools", ""], Each("- ", input.tools));
  }

  method PushRows(lines: seq<string>, groups: seq<ToolGroup<string>>) returns (r: seq<string>)
    ensures r == lines + Rows(groups)
  {
    r := lines;
    for i := 0 to |groups|
      invariant r == lines + Rows(groups)[..i]
    {
      r := r + [Row(groups[i])];
    }
  }

  // ----------------------------------------------------------------- the parser

  datatype Tool = Tool(name: string, description: string)

  datatype Kind = NoTable | Legacy | Groups

  datatype Parsed = Parsed(kind: Kind, headerSeen: bool, tools: seq<Tool>)

  function TrimAll(parts: seq<string>): seq<string> {
    if parts == [] then [] else [Trim(parts[0])] + TrimAll(parts[1..])
  }

  function NonEmpty(parts: seq<string>): seq<string> {
    if parts == [] then [] else (if parts[0] == "" then [] else [parts[0]]) + NonEmpty(parts[1..])
  }

  function Undescribed(names: seq<string>): seq<Tool> {
    if names == [] then [] else [Tool(names[0], "")] + Undescribed(names[1..])
  }

  /** What a data row of a table lists. */
  function RowTools(kind: Kind, row: string): seq<Tool> {
    var cells := NonEmpty(TrimAll(SplitOn(row, '|')));
    if |cells| < 2 then []
    else if kind == Legacy then [Tool(cells[0], cells[1])]
    else Undescribed(NonEmpty(TrimAll(SplitOn(cells[1], ','))))
  }

  /** What a line of a flat list lists: a name without blanks. */
  function FlatTools(line: string): seq<Tool> {
    if !StartsWith(line, "- ") then []
    else
      var name := Trim(line[2..]);
      if name != "" && !Includes(name, " ") then [Tool(name, "")] else []
  }

  function ParseLine(st: Parsed, line: string): Parsed {
    var t := Trim(line);
    if (StartsWith(t, "| Tool |") || StartsWith(t, "| tool |"))
      && Includes(t, "Description") then Parsed(Legacy, false, st.tools)
    else if StartsWith(t, "| Group |") && Includes(t, "Tools") then Parsed(Groups, false, st.tools)
    else if st.kind != NoTable && !st.headerSeen && StartsWith(t, "|---") then Parsed(st.kind, true, st.tools)
    else if st.kind != NoTable && st.headerSeen && StartsWith(t, "|")
      then Parsed(st.kind, st.headerSeen, st.tools + RowTools(st.kind, t))
    else
      var kind := if st.kind != NoTable && st.headerSeen && !StartsWith(t, "|") then NoTable else st.kind;
      Parsed(kind, st.headerSeen, if kind == NoTable then st.tools + FlatTools(t) else st.tools)
  }

  function ParseLines(st: Parsed, lines: seq<string>): Parsed {
    Fold(ParseLine, st, lines)
  }

  /** The text between the first markers when they are in order, else all of it. */
  function Scope(content: string): string {
    match (IndexOf(content, MarkerStart), IndexOf(content, MarkerEnd))
    case (Position(start), Position(end)) =>
      if end <= start then content
      else if start + |MarkerStart| <= end <= |content| then content[start + |MarkerStart|..end]
      else ""
    case _ => content
  }

  function ParsedTools(content: string): seq<Tool> {
    ParseLines(Parsed(NoTable, false, []), SplitOn(Scope(content), '\n')).tools
  }

  /** The tool names of a cell, one for each part between commas that is not blank. */
  method PushNames(tools: seq<Tool>, parts: seq<string>) returns (r: seq<Tool>)
    ensures r == tools + Undescribed(NonEmpty(TrimAll(parts)))
  {
    r := tools;
    for i := 0 to |parts|
      invariant r + Undescribed(NonEmpty(TrimAll(parts[i..]))) == tools + Undescribed(NonEmpty(TrimAll(parts)))
    {
      assert parts[i..][0] == parts[i] && parts[i..][1..] == parts[i + 1..];
      var name := Trim(parts[i]);
      ghost var rest := NonEmpty(TrimAll(parts[i + 1..]));
      if |name| > 0 {
        assert ([name] + rest)[1..] == rest;
        Associative(r, [Tool(name, "")], Undescribed(rest));
        r := r + [Tool(name, "")];
      } else {
        assert [] + rest == rest;
      }
    }
    assert parts[|parts|..] == [] && r + [] == r;
  }

  /** One line of the file. */
  method ReadLine(kind: Kind, headerSeen: bool, tools: seq<Tool>, line: string) returns (kind': Kind,
      headerSeen': bool, tools': seq<Tool>)
    ensures Parsed(kind', headerSeen', tools') == ParseLine(Parsed(kind, headerSeen, tools), line)
  {
    kind', headerSeen', tools' := kind, headerSeen, tools;
    var trimmed := Trim(line);
    if (StartsWith(trimmed, "| Tool |") || StartsWith(trimmed, "| tool |")) && Includes(trimmed, "Description") {
      return Legacy, false, tools;
    }
    if StartsWith(trimmed, "| Group |") && Includes(trimmed, "Tools") {
      return Groups, false, tools;
    }
    if kind != NoTable && !headerSeen && StartsWith(trimmed, "|---") {
      return kind, true, tools;
    }
    if kind != NoTable && headerSeen && StartsWith(trimmed, "|") {
      var cells := NonEmpty(TrimAll(SplitOn(trimmed, '|')));
      if kind == Legacy && |cells| >= 2 {
        tools' := tools + [Tool(cells[0], cells[1])];
      } else if kind == Groups && |cells| >= 2 {
        tools' := PushNames(tools, SplitOn(cells[1], ','));
      }
      return;
    }
    if kind != NoTable && headerSeen && !StartsWith(trimmed, "|") {
      kind' := NoTable;
    }
    if kind' == NoTable && StartsWith(trimmed, "- ") {
      var name := Trim(trimmed[2..]);
      if |name| > 0 && !Includes(name, " ") {
        tools' := tools + [Tool(name, "")];
      }
    }
  }

  /** The tools a skill file lists. */
  method ParseExistingTools(content: string) returns (tools: seq<Tool>)
    ensures tools == ParsedTools(content)
  {
    var lines := SplitOn(Scope(content), '\n');
    var kind, headerSeen := NoTable, false;
    tools := [];
    for i := 0 to |lines|
      invariant ParseLines(Parsed(kind, headerSeen, tools), lines[i..]).tools == ParsedTools(content)
    {
      assert lines[i..][0] == lines[i] && lines[i..][1..] == lines[i + 1..];
      kind, headerSeen, tools := ReadLine(kind, headerSeen, tools, lines[i]);
    }
  }
}
