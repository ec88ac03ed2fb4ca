/**
  The generated skill file is one that merging is stated for: its markers are in order
  and its front matter is read as it was printed.
 */
module SkillMerge {
  import opened Wrappers
  import opened Lists
  import opened Strings
  import opened Frontmatter
  import opened MergeContent
  import opened MergeFronts
  import opened MergeTwice
  import T = ManualText
  import G = Grouping
  import SF = SkillFile
  import ST = SkillTemplate

  /** No line feeds in the texts of the header, and triggers that their printed lines are read as. */
  ghost predicate Mergeable(input: SF.Input) {
    && ST.NoComments(input) && NoBreaks(SF.Header(input)) && AllStable(input.triggers)
    && forall i, j :: 0 <= i < j < |input.triggers| ==> input.triggers[i] != input.triggers[j]
  }

  // ----------------------------------------------------------- lines with keys

  /** A line with a key of its own, not that of the triggers. */
  predicate IsField(line: string) {
    KeyOf(line).Some? && KeyOf(line).value != Triggers && NoDash(line)
  }

  lemma {:induction false} FieldIs(prefix: string, key: string, text: string)
    requires prefix == key + ": " && key != "" && key != Triggers && key[0] != '-'
    requires forall i :: 0 <= i < |key| ==> IsKeyChar(key[i])
    ensures IsField(prefix + text)
  {
    KeyLine(key, " " + text);
    Associative(":", " ", text);
    assert ":" + " " == ": ";
    Associative(key, ": ", text);
    var line := prefix + text;
    assert line[0] == key[0];
    assert |line| >= 3 ==> line[..3][0] == line[0];
  }

  ghost predicate AllFields(lines: seq<string>) {
    forall i :: 0 <= i < |lines| ==> IsField(lines[i])
  }

  lemma {:induction false} NameIsField(text: string)
    ensures IsField("name: " + text)
  {
    FieldIs("name: ", "name", text);
  }

  lemma {:induction false} DescriptionIsField(text: string)
    ensures IsField("description: " + text)
  {
    FieldIs("description: ", "description", text);
  }

  lemma {:induction false} CountIsField(text: string)
    ensures IsField("tool_count: " + text)
  {
    FieldIs("tool_count: ", "tool_count", text);
  }

  lemma {:induction false} GeneratedIsField(text: string)
    ensures IsField("generated_at: " + text)
  {
    FieldIs("generated_at: ", "generated_at", text);
  }

  lemma {:induction false} HashIsField(text: string)
    ensures IsField("schema_hash: " + text)
  {
    FieldIs("schema_hash: ", "schema_hash", text);
  }

  /** The lines above the trigger list. */
  function Fields(input: SF.Input): seq<string> {
    SF.Front(input)[1..]
  }

  lemma {:induction false} FieldsAre(input: SF.Input)
    ensures SF.Front(input) == ["---"] + Fields(input) && AllFields(Fields(input))
  {
    var name, description := "name: " + input.service, "description: " + input.description;
    NameIsField(input.service);
    DescriptionIsField(input.description);
    OptionalFields(input);
    FrontCut("---", name, description, SF.Optional(input.toolCount.Some?, SF.CountLine(input)),
             SF.Optional(input.generatedAt != "", "generated_at: " + input.generatedAt),
             SF.Optional(input.schemaHash != "", "schema_hash: " + input.schemaHash));
  }

  lemma {:induction false} OptionalFields(input: SF.Input)
    ensures AllFields(SF.Optional(input.toolCount.Some?, SF.CountLine(input)))
    ensures AllFields(SF.Optional(input.generatedAt != "", "generated_at: " + input.generatedAt))
    ensures AllFields(SF.Optional(input.schemaHash != "", "schema_hash: " + input.schemaHash))
  {
    GeneratedIsField(input.generatedAt);
    HashIsField(input.schemaHash);
    if input.toolCount.Some? {
      CountIsField(G.Decimal(input.toolCount.value));
    }
  }

  lemma {:induction false} FrontCut(dashes: string, name: string, description: string,
                                    a: seq<string>, b: seq<string>, c: seq<string>)
    requires IsField(name) && IsField(description) && AllFields(a) && AllFields(b) && AllFields(c)
    ensures
      var front := [dashes, name, description] + a + b + c;
      front == [dashes] + front[1..] && AllFields(front[1..])
  {
    assert ([dashes, name, description] + a + b + c)[1..] == [name, description] + a + b + c;
  }

  function OwnBlocks(lines: seq<string>): seq<Block>
    requires AllFields(lines)
  {
    seq(|lines|, i requires 0 <= i < |lines| => Block(KeyOf(lines[i]).value, [lines[i]]))
  }

  lemma {:induction false} OwnLines(lines: seq<string>)
    requires AllFields(lines)
    ensures AllLines(OwnBlocks(lines)) == lines && AllWellFormed(OwnBlocks(lines))
  {
    if lines != [] {
      OwnLines(lines[1..]);
      assert OwnBlocks(lines)[1..] == OwnBlocks(lines[1..]);
      assert lines == [lines[0]] + lines[1..];
    }
  }

  // ----------------------------------------------------------- the front matter

  function FrontLines(input: SF.Input): seq<string> {
    Fields(input) + TriggerBlock(input.triggers).lines
  }

  function FrontParts(input: SF.Input): seq<Block>
    requires AllFields(Fields(input))
  {
    OwnBlocks(Fields(input)) + [TriggerBlock(input.triggers)]
  }

  lemma {:induction false} FrontLinesRead(input: SF.Input)
    requires AllFields(Fields(input))
    ensures Blocks(FrontLines(input)) == FrontParts(input) && AllLines(FrontParts(input)) == FrontLines(input)
  {
    OwnLines(Fields(input));
    TriggerBlockWellFormed(input.triggers);
    AllLinesSnoc(OwnBlocks(Fields(input)), TriggerBlock(input.triggers));
    BlocksReadBack(FrontParts(input));
  }

  /** The lines of the front matter are read as one block a field, and the trigger list. */
  lemma {:induction false} FrontBlocks(input: SF.Input)
    requires AllFields(Fields(input)) && AllStable(input.triggers)
    ensures
      var blocks := Blocks(FrontLines(input));
      && Printed(blocks, input.triggers, |Fields(input)|) && AllLines(blocks) == FrontLines(input)
      && TriggersOf(blocks) == input.triggers
  {
    FrontLinesRead(input);
    OwnLines(Fields(input));
    TriggerBlockWellFormed(input.triggers);
    PrintedParts(OwnBlocks(Fields(input)), input.triggers);
  }

  /** Blocks with a trigger list behind them, which is the only one. */
  lemma {:induction false} PrintedParts(own: seq<Block>, values: seq<string>)
    requires AllWellFormed(own + [TriggerBlock(values)]) && AllStable(values)
    requires forall i :: 0 <= i < |own| ==> own[i].key != Triggers
    ensures Printed(own + [TriggerBlock(values)], values, |own|)
    ensures TriggersOf(own + [TriggerBlock(values)]) == values
  {
    var blocks := own + [TriggerBlock(values)];
    BlockOfOnly(blocks, Triggers, |own|);
    TriggerBlockReads(values);
  }

  lemma {:induction false} FrontNoDash(input: SF.Input)
    requires AllFields(Fields(input))
    ensures AllHave(FrontLines(input), NoDash)
  {
    var list := TriggerBlock(input.triggers).lines;
    PrintedNoDash(input.triggers);
    assert "triggers:"[..3][0] == 't';
    forall i | 0 <= i < |list| ensures NoDash(list[i]) {
      assert i > 0 ==> list[i] == Each("  - ", input.triggers)[i - 1];
    }
  }

  /** The header is its front matter and what stands below it. */
  lemma {:induction false} HeaderIs(input: SF.Input) returns (rest: seq<string>)
    ensures rest == ["", "# " + input.service, "", input.description, ""]
    ensures SF.Header(input) == Enclosed(FrontLines(input), rest)
  {
    rest := ["", "# " + input.service, "", input.description, ""];
    FieldsAre(input);
    assert SF.Header(input) == SF.Front(input) + ["triggers:"] + Each("  - ", input.triggers) + (["---"] + rest);
  }

  /** Any text that starts with the lines of a header has its front matter. */
  lemma {:induction false} FrontRead(input: SF.Input, more: seq<string>)
    requires AllStable(input.triggers)
    ensures
      var lines := SF.Header(input) + more;
      && FrontOf(lines).FrontMatter? && FrontOf(lines).body == FrontLines(input)
      && lines[Closing(lines, 2)] == "---" && Closing(lines, 2) + 1 < |lines|
      && NoDash(FrontLines(input)[0])
  {
    FieldsAre(input);
    FrontNoDash(input);
    var rest := HeaderIs(input);
    var body := FrontLines(input);
    assert SF.Header(input) + more == Enclosed(body, rest + more);
    EnclosedReads(body, rest + more);
  }

  lemma {:induction false} FrontWithout(input: SF.Input)
    requires ST.NoComments(input)
    ensures Without("<!--", FrontLines(input))
  {
    var rest := HeaderIs(input);
    var body := FrontLines(input);
    forall i | 0 <= i < |body| ensures !Occurs("<!--", body[i]) {
      assert SF.Header(input)[i + 1] == body[i];
    }
  }

  /** The lines of the file, with the header as it was printed. */
  lemma {:induction false} HeaderRead(input: SF.Input) returns (more: seq<string>)
    requires NoBreaks(SF.Header(input))
    ensures LinesOf(SF.SkillText(input)) == SF.Header(input) + ([SF.MarkerStart] + more)
  {
    ST.LinesRead(input);
    SplitJoin(SF.Header(input), '\n');
    var a, b := SF.Header(input), LinesOf(Join(SF.Body(input), "\n"));
    var c := [SF.MarkerEnd] + (ST.Notes + (ST.Section + [""]));
    more := b + c;
    ST.Regroup(a, [SF.MarkerStart], b, c, []);
    assert b + (c + []) == more && a + [SF.MarkerStart] + b + c + [] == ST.Above(input) + c;
  }

  /** The front matter of a generated file is one that merging is stated for. */
  lemma {:induction false} FrontIsPrinted(input: SF.Input)
    requires Mergeable(input)
    ensures PrintedFront(SF.SkillText(input), input.triggers, |Fields(input)|)
  {
    var more := HeaderRead(input);
    FieldsAre(input);
    FrontRead(input, [SF.MarkerStart] + more);
    FrontBlocks(input);
    FrontWithout(input);
  }

  // ---------------------------------------------------------------- the markers

  lemma {:induction false} BlockStartIsMarker()
    ensures MarkLength(SF.MarkerStart, Start) == |SF.MarkerStart| > 0
  {
    NamesAreNames();
    assert SF.MarkerStart == "<!-- " + ("AUTO-GENERATED:START" + " -->");
    ST.MarkerLine("AUTO-GENERATED:START");
  }

  lemma {:induction false} HeaderIsPlain(input: SF.Input, name: string)
    requires ST.NoComments(input) && NoBreaks(SF.Header(input))
    ensures T.AllPlain(SF.Header(input), name)
  {
    forall k | 0 <= k < |SF.Header(input)| ensures T.Plain(SF.Header(input)[k], name) {
      ST.NoCommentPlain(SF.Header(input)[k], name);
    }
  }

  lemma {:induction false} StartMarkAt(input: SF.Input)
    requires ST.NoComments(input) && NoBreaks(SF.Header(input))
    ensures FindMark(SF.SkillText(input), Start) == Position(|T.Trailing(SF.Header(input))|)
  {
    NamesAreNames();
    T.ManualNames();
    var more := HeaderRead(input);
    JoinSplit(SF.SkillText(input), '\n');
    HeaderIsPlain(input, Start);
    BlockStartIsMarker();
    T.FindBelow(SF.Header(input), SF.MarkerStart, more, Start);
  }

  lemma {:induction false} EndMarkAt(input: SF.Input)
    requires ST.NoComments(input)
    ensures FindMark(SF.SkillText(input), End) == Position(|T.Trailing(ST.Above(input))|)
  {
    T.ManualNames();
    ST.LinesRead(input);
    JoinSplit(SF.SkillText(input), '\n');
    ST.BlockStartIsPlain();
    ST.AboveIsPlain(input, End);
    ST.BlockEndIsTidy();
    T.FindBelow(ST.Above(input), SF.MarkerEnd, ST.Notes + (ST.Section + [""]), End);
  }

  lemma {:induction false} MarkersInOrder(input: SF.Input)
    requires ST.NoComments(input) && NoBreaks(SF.Header(input))
    ensures InOrder(SF.SkillText(input))
  {
    StartMarkAt(input);
    EndMarkAt(input);
    SplitJoin(SF.Header(input), '\n');
    var body := LinesOf(Join(SF.Body(input), "\n"));
    T.TrailingAppend(SF.Header(input) + [SF.MarkerStart], body);
    T.TrailingAppend(SF.Header(input), [SF.MarkerStart]);
  }

  // ----------------------------------------------------------------- the claims

  /** The merged trigger list and the lines that only the existing file has join no marker. */
  ghost predicate KeepsApart(before: string, input: SF.Input)
  {
    var front := FrontOf(LinesOf(before));
    front.FrontMatter? ==>
      var was, gen := Blocks(front.body), Blocks(FrontLines(input));
      NoMarks(Join(TriggerBlock(Union(input.triggers, was)).lines + AllLines(ExistingOnly(gen, was)), "\n"))
  }

  /** The trigger list is the last of the generated blocks. */
  lemma {:induction false} KeepsApartIff(before: string, input: SF.Input)
    requires Mergeable(input) && PrintedFront(SF.SkillText(input), input.triggers, |Fields(input)|)
    ensures JoinsNoMark(before, SF.SkillText(input), input.triggers, |Fields(input)|) <==> KeepsApart(before, input)
  {
    GeneratedBody(input);
    FieldsAre(input);
    LastIsTriggers(input);
    if FrontOf(LinesOf(before)).FrontMatter? {
      NothingBehind(Blocks(FrontLines(input)), Blocks(FrontOf(LinesOf(before)).body), input.triggers, |Fields(input)|);
    }
  }

  lemma {:induction false} GeneratedBody(input: SF.Input)
    requires Mergeable(input)
    ensures FrontOf(LinesOf(SF.SkillText(input))).FrontMatter?
    ensures FrontOf(LinesOf(SF.SkillText(input))).body == FrontLines(input)
  {
    var more := HeaderRead(input);
    FrontRead(input, [SF.MarkerStart] + more);
  }

  lemma {:induction false} NothingBehind(gen: seq<Block>, was: seq<Block>, values: seq<string>, t: nat)
    requires |gen| == t + 1
    ensures KeptLines(gen, was, values, t) == TriggerBlock(Union(values, was)).lines + AllLines(ExistingOnly(gen, was))
  {
    assert gen[t + 1..] == [];
    var rest := AllLines(ExistingOnly(gen, was));
    assert AllLines(gen[t + 1..]) + rest == rest;
  }

  lemma {:induction false} LastIsTriggers(input: SF.Input)
    requires AllFields(Fields(input)) && AllStable(input.triggers)
    ensures |Blocks(FrontLines(input))| == |Fields(input)| + 1
  {
    var own, last := OwnBlocks(Fields(input)), TriggerBlock(input.triggers);
    OwnLines(Fields(input));
    TriggerBlockWellFormed(input.triggers);
    AllLinesSnoc(own, last);
    BlocksReadBack(own + [last]);
  }

  /**
    Merging a generated file into any file with its markers in order, twice, is merging it
    once exactly when the existing file is a good one.
   */
  lemma {:induction false} GeneratedMergeIff(existing: string, input: SF.Input)
    requires InOrder(existing) && Mergeable(input)
    ensures
      var generated, before := SF.SkillText(input), Before(existing);
      Merged(Merged(existing, generated), generated) == Merged(existing, generated) <==>
        StableTriggers(before) && !DashKey(before) && KeepsApart(before, input)
  {
    MarkersInOrder(input);
    FrontIsPrinted(input);
    KeepsApartIff(Before(existing), input);
    MergeIsIdempotentIff(existing, SF.SkillText(input), input.triggers, |Fields(input)|);
  }

  /** What stands above the block of a generated file. */
  lemma {:induction false} BeforeIs(input: SF.Input)
    requires ST.NoComments(input) && NoBreaks(SF.Header(input))
    ensures FindMark(SF.SkillText(input), Start).Position?
    ensures LinesOf(Before(SF.SkillText(input))) == SF.Header(input) + [""]
  {
    StartMarkAt(input);
    var header, text := SF.Header(input), SF.SkillText(input);
    var more := HeaderRead(input);
    JoinSplit(text, '\n');
    JoinAppend(header, [SF.MarkerStart] + more, "\n");
    var n := |Join(header, "\n")|;
    assert |T.Trailing(header)| == n + 1;
    assert text[..n + 1] == Join(header, "\n") + "\n";
    JoinAppend(header, [""], "\n");
    assert Join([""], "\n") == "" && "\n" + "" == "\n";
    SplitJoin(header + [""], '\n');
  }

  /** The front matter of a generated file is a good one. */
  lemma {:induction false} GeneratedIsGood(was: SF.Input)
    requires Mergeable(was)
    ensures
      && InOrder(SF.SkillText(was))
      && var before := Before(SF.SkillText(was));
         && StableTriggers(before) && !DashKey(before) && FrontOf(LinesOf(before)).FrontMatter?
         && Without("<!--", FrontOf(LinesOf(before)).body)
  {
    MarkersInOrder(was);
    BeforeIs(was);
    FrontRead(was, [""]);
    FieldsAre(was);
    FrontBlocks(was);
    FrontWithout(was);
  }

  /** A generated file is a good one: merging a newer one into it twice is always merging it once. */
  lemma {:induction false} RegenerationMergesOnce(was: SF.Input, now: SF.Input)
    requires Mergeable(was) && Mergeable(now)
    ensures
      var once := Merged(SF.SkillText(was), SF.SkillText(now));
      Merged(once, SF.SkillText(now)) == once
  {
    GeneratedIsGood(was);
    MarkersInOrder(now);
    FrontIsPrinted(now);
    NoCommentNoMarks(SF.SkillText(was), SF.SkillText(now), now.triggers, |Fields(now)|);
    MergeIsIdempotentIff(SF.SkillText(was), SF.SkillText(now), now.triggers, |Fields(now)|);
  }
}
