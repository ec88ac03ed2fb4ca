/** Merging the front matters: the lines of a merged one, and what a second merge makes of it. */
module MergeFronts {
  import opened Wrappers
  import opened Lists
  import opened Strings
  import opened Frontmatter
  import opened MergeContent

  // ------------------------------------------------ values are pieces of lines

  lemma {:induction false} OccursSuffix(m: string, s: string, i: nat)
    requires i <= |s| && Occurs(m, s[i..])
    ensures Occurs(m, s)
  {
    assert s[i..] == s[i..|s|];
    OccursSlice(m, s, i, |s|);
  }

  lemma {:induction false} OccursPrefix(m: string, s: string, i: nat)
    requires i <= |s| && Occurs(m, s[..i])
    ensures Occurs(m, s)
  {
    assert s[..i] == s[0..i];
    OccursSlice(m, s, 0, i);
  }

  lemma {:induction false} OccursTrimStart(m: string, s: string)
    requires Occurs(m, TrimStart(s))
    ensures Occurs(m, s)
  {
    TrimStartIsSuffix(s);
    OccursSuffix(m, s, |s| - |TrimStart(s)|);
  }

  lemma {:induction false} OccursTrimEnd(m: string, s: string)
    requires Occurs(m, TrimEnd(s))
    ensures Occurs(m, s)
  {
    TrimEndIsSlice(s);
    var j :| 0 <= j <= |s| && TrimEnd(s) == s[..j];
    OccursPrefix(m, s, j);
  }

  lemma {:induction false} UpToTerminatorIsPrefix(s: string)
    ensures UpToTerminator(s) == s[..|UpToTerminator(s)|]
  {
    if s != "" && !IsTerminator(s[0]) {
      UpToTerminatorIsPrefix(s[1..]);
      assert s[..|UpToTerminator(s)|] == [s[0]] + s[1..][..|UpToTerminator(s[1..])|];
    }
  }

  lemma {:induction false} OccursLastPlain(m: string, s: string)
    requires LastPlain(s).Some? && Occurs(m, LastPlain(s).value)
    ensures Occurs(m, s)
  {
    if IsTerminator(s[|s| - 1]) {
      OccursLastPlain(m, s[..|s| - 1]);
      OccursPrefix(m, s, |s| - 1);
    } else {
      assert [s[|s| - 1]] == s[|s| - 1..];
      OccursSuffix(m, s, |s| - 1);
    }
  }

  lemma {:induction false} OccursItem(m: string, line: string)
    requires ItemOf(line).Some? && Occurs(m, ItemOf(line).value)
    ensures Occurs(m, line)
  {
    var t := TrimStart(line);
    var value := TrimStart(t[1..]);
    if value == "" {
      OccursLastPlain(m, t[1..]);
    } else {
      UpToTerminatorIsPrefix(value);
      OccursPrefix(m, value, |UpToTerminator(value)|);
      OccursTrimStart(m, t[1..]);
    }
    OccursSuffix(m, t, 1);
    OccursTrimStart(m, line);
  }

  lemma {:induction false} ItemsWithout(m: string, lines: seq<string>)
    requires Without(m, lines)
    ensures Without(m, Items(lines))
  {
    if lines != [] {
      assert !Occurs(m, lines[0]);
      WithoutTail(m, lines);
      ItemsWithout(m, lines[1..]);
      if ItemOf(lines[0]).Some? && Occurs(m, ItemOf(lines[0]).value) {
        OccursItem(m, lines[0]);
      }
    }
  }

  lemma {:induction false} WithoutTail(m: string, lines: seq<string>)
    requires Without(m, lines) && lines != []
    ensures Without(m, lines[1..])
  {
    forall i | 0 <= i < |lines[1..]| ensures !Occurs(m, lines[1..][i]) {
      assert lines[1..][i] == lines[i + 1];
    }
  }

  lemma {:induction false} OccursUnquoted(m: string, s: string)
    requires Occurs(m, StripQuotes(Trim(s)))
    ensures Occurs(m, s)
  {
    var v := Trim(s);
    var t := if v != "" && IsQuote(v[0]) then v[1..] else v;
    if t != "" && IsQuote(t[|t| - 1]) {
      OccursPrefix(m, t, |t| - 1);
    }
    if v != "" && IsQuote(v[0]) {
      OccursSuffix(m, v, 1);
    }
    OccursTrimmed(m, s);
  }

  lemma {:induction false} UnquotedWithout(m: string, parts: seq<string>)
    requires Without(m, parts)
    ensures Without(m, Unquoted(parts))
  {
    if parts != [] {
      assert !Occurs(m, parts[0]);
      WithoutTail(m, parts);
      UnquotedWithout(m, parts[1..]);
      if Occurs(m, StripQuotes(Trim(parts[0]))) {
        OccursUnquoted(m, parts[0]);
      }
    }
  }

  lemma {:induction false} OccursAfterKey(m: string, line: string)
    requires Occurs(m, AfterKey(line))
    ensures Occurs(m, line)
  {
    var n := KeyLength(line);
    if n < |line| {
      OccursSuffix(m, line, n + 1);
    } else {
      assert line[|line|..] == "";
      OccursSuffix(m, line, |line|);
    }
  }

  /** What is in no line of a block is in none of its trigger values. */
  lemma {:induction false} ValuesWithout(m: string, b: Block)
    requires Without(m, b.lines)
    ensures Without(m, TriggerValues(b))
  {
    if b.lines != [] {
      var rest := TrimStart(AfterKey(b.lines[0]));
      var listed := TrimEnd(rest);
      assert !Occurs(m, b.lines[0]);
      WithoutTail(m, b.lines);
      ItemsWithout(m, b.lines[1..]);
      RestWithout(m, b.lines[0]);
      UnquotedWithout(m, [rest]);
      if |listed| >= 2 {
        InnerWithout(m, rest, listed);
        PartsWithout(m, listed[1..|listed| - 1], ',');
        UnquotedWithout(m, SplitOn(listed[1..|listed| - 1], ','));
      }
    }
  }

  lemma {:induction false} RestWithout(m: string, line: string)
    requires !Occurs(m, line)
    ensures !Occurs(m, TrimStart(AfterKey(line)))
  {
    if Occurs(m, TrimStart(AfterKey(line))) {
      OccursTrimStart(m, AfterKey(line));
      OccursAfterKey(m, line);
    }
  }

  lemma {:induction false} InnerWithout(m: string, rest: string, listed: string)
    requires listed == TrimEnd(rest) && |listed| >= 2 && !Occurs(m, rest)
    ensures !Occurs(m, listed[1..|listed| - 1])
  {
    if Occurs(m, listed[1..|listed| - 1]) {
      OccursSlice(m, listed, 1, |listed| - 1);
      OccursTrimEnd(m, rest);
    }
  }

  // --------------------------------------------------- lines of merged blocks

  /** Every line of every block has a property. */
  ghost predicate LinesHave(blocks: seq<Block>, p: string -> bool) {
    forall i :: 0 <= i < |blocks| ==> AllHave(blocks[i].lines, p)
  }

  ghost predicate AllHave(lines: seq<string>, p: string -> bool) {
    forall i :: 0 <= i < |lines| ==> p(lines[i])
  }

  lemma {:induction false} AllLinesHave(blocks: seq<Block>, p: string -> bool)
    requires LinesHave(blocks, p)
    ensures AllHave(AllLines(blocks), p)
  {
    if blocks != [] {
      AllLinesHave(blocks[1..], p);
    }
  }

  lemma {:induction false} AddLineHave(start: seq<Block>, line: string, p: string -> bool)
    requires LinesHave(start, p) && p(line)
    ensures LinesHave(AddLine(start, line), p)
  {
    if KeyOf(line) == None && start != [] {
      var last := start[|start| - 1];
      assert AllHave(last.lines, p);
      assert AllHave(last.lines + [line], p);
    }
  }

  lemma {:induction false} FoldHave(start: seq<Block>, body: seq<string>, p: string -> bool)
    requires LinesHave(start, p) && AllHave(body, p)
    ensures LinesHave(Fold(AddLine, start, body), p)
    decreases |body|
  {
    if body != [] {
      AddLineHave(start, body[0], p);
      FoldHave(AddLine(start, body[0]), body[1..], p);
    }
  }

  /** A first line without a key is dropped. */
  lemma {:induction false} FirstDropped(body: seq<string>, p: string -> bool)
    requires body != [] && AllHave(body[1..], p) && (p(body[0]) || KeyOf(body[0]) == None)
    ensures LinesHave(Blocks(body), p)
  {
    if KeyOf(body[0]) == None {
      assert AddLine([], body[0]) == [];
      FoldHave([], body[1..], p);
    } else {
      AddLineHave([], body[0], p);
      FoldHave(AddLine([], body[0]), body[1..], p);
    }
  }

  /** A property of the generated lines, and of every printed trigger, is one of the generated blocks merged. */
  lemma {:induction false} GeneratedHave(generated: seq<Block>, known: seq<string>, p: string -> bool)
    requires LinesHave(generated, p) && p("triggers:")
    requires forall i :: 0 <= i < |generated| ==> AllHave(Each("  - ", TriggerValues(generated[i])), p)
    requires AllHave(Each("  - ", known), p)
    ensures LinesHave(MergedGenerated(generated, known), p)
  {
    var front := MergedGenerated(generated, known);
    forall i | 0 <= i < |front| ensures AllHave(front[i].lines, p) {
      PrintedHave(generated[i], known, p);
    }
  }

  /** A property of the lines of both, and of every printed trigger, is one of the merged lines. */
  lemma {:induction false} MergedHave(generated: seq<Block>, existing: seq<Block>, p: string -> bool)
    requires LinesHave(generated, p) && LinesHave(existing, p) && p("triggers:")
    requires forall i :: 0 <= i < |generated| ==> AllHave(Each("  - ", TriggerValues(generated[i])), p)
    requires AllHave(Each("  - ", TriggersOf(existing)), p)
    ensures LinesHave(MergedBlocks(generated, existing), p)
  {
    var rest := ExistingOnly(generated, existing);
    GeneratedHave(generated, TriggersOf(existing), p);
    ExistingOnlyMembers(generated, existing);
    forall i | 0 <= i < |rest| ensures AllHave(rest[i].lines, p) {
      assert rest[i] in rest;
    }
  }

  lemma {:induction false} PrintedHave(b: Block, known: seq<string>, p: string -> bool)
    requires AllHave(b.lines, p) && p("triggers:")
    requires AllHave(Each("  - ", TriggerValues(b)), p) && AllHave(Each("  - ", known), p)
    ensures AllHave(MergedBlock(b, known).lines, p)
  {
    if b.key == Triggers {
      var all := TriggerValues(b) + known;
      var values := Distinct(all);
      forall i | 0 <= i < |values| ensures p(Each("  - ", values)[i]) {
        DistinctMembers(all, values[i]);
        assert values[i] in values;
        if values[i] in TriggerValues(b) {
          var j :| 0 <= j < |TriggerValues(b)| && TriggerValues(b)[j] == values[i];
          assert Each("  - ", TriggerValues(b))[j] == "  - " + values[i];
        } else {
          var j :| 0 <= j < |known| && known[j] == values[i];
          assert Each("  - ", known)[j] == "  - " + values[i];
        }
      }
    }
  }

  /** What neither the printed dash nor the key line of the list starts. */
  predicate Foreign(m: string) {
    m != "" && m[0] !in "  - " && m[0] !in "triggers:"
  }

  lemma {:induction false} PrintedWithout(m: string, values: seq<string>)
    requires Foreign(m) && Without(m, values)
    ensures Without(m, Each("  - ", values))
  {
    forall i | 0 <= i < |values| ensures !Occurs(m, Each("  - ", values)[i]) {
      if Occurs(m, "  - " + values[i]) {
        OccursAfter(m, "  - ", values[i]);
      }
    }
  }

  ghost predicate BlocksWithout(m: string, blocks: seq<Block>) {
    forall i :: 0 <= i < |blocks| ==> Without(m, blocks[i].lines)
  }

  lemma {:induction false} BlockOfWithout(m: string, blocks: seq<Block>, key: string)
    requires BlocksWithout(m, blocks) && BlockOf(blocks, key).Some?
    ensures Without(m, BlockOf(blocks, key).value.lines)
  {
    if blocks[|blocks| - 1].key != key {
      BlockOfWithout(m, blocks[..|blocks| - 1], key);
    }
  }

  lemma {:induction false} MergedWithout(m: string, generated: seq<Block>, existing: seq<Block>)
    requires Foreign(m) && BlocksWithout(m, generated) && BlocksWithout(m, existing)
    ensures BlocksWithout(m, MergedBlocks(generated, existing))
      && Without(m, AllLines(MergedBlocks(generated, existing)))
  {
    var p: string -> bool := s => !Includes(s, m);
    forall s ensures p(s) <==> !Occurs(m, s) {
      IncludesIff(s, m);
    }
    forall i | 0 <= i < |generated| ensures AllHave(Each("  - ", TriggerValues(generated[i])), p) {
      ValuesWithout(m, generated[i]);
      PrintedWithout(m, TriggerValues(generated[i]));
    }
    if BlockOf(existing, Triggers).Some? {
      BlockOfWithout(m, existing, Triggers);
      ValuesWithout(m, BlockOf(existing, Triggers).value);
    }
    PrintedWithout(m, TriggersOf(existing));
    if Occurs(m, "triggers:") {
      assert "triggers:" + "" == "triggers:";
      OccursAfter(m, "triggers:", "");
    }
    MergedHave(generated, existing, p);
    AllLinesHave(MergedBlocks(generated, existing), p);
  }

  lemma {:induction false} BodyWithout(m: string, body: seq<string>)
    requires Without(m, body)
    ensures BlocksWithout(m, Blocks(body))
  {
    var p: string -> bool := s => !Includes(s, m);
    forall s ensures p(s) <==> !Occurs(m, s) {
      IncludesIff(s, m);
    }
    FoldHave([], body, p);
    forall i | 0 <= i < |Blocks(body)| ensures Without(m, Blocks(body)[i].lines) {
      assert AllHave(Blocks(body)[i].lines, p);
    }
  }

  /** A line that does not close a front matter. */
  predicate NoDash(line: string) {
    !StartsWith(line, "---")
  }

  lemma {:induction false} MergedNoDash(generated: seq<Block>, existing: seq<Block>)
    requires LinesHave(generated, NoDash)
    ensures AllHave(AllLines(MergedGenerated(generated, TriggersOf(existing))), NoDash)
    ensures LinesHave(existing, NoDash) ==> AllHave(AllLines(MergedBlocks(generated, existing)), NoDash)
  {
    forall values: seq<string> ensures AllHave(Each("  - ", values), NoDash) {
      PrintedNoDash(values);
    }
    assert "triggers:"[..3][0] == 't';
    GeneratedHave(generated, TriggersOf(existing), NoDash);
    AllLinesHave(MergedGenerated(generated, TriggersOf(existing)), NoDash);
    if LinesHave(existing, NoDash) {
      MergedHave(generated, existing, NoDash);
      AllLinesHave(MergedBlocks(generated, existing), NoDash);
    }
  }

  lemma {:induction false} PrintedNoDash(values: seq<string>)
    ensures AllHave(Each("  - ", values), NoDash)
  {
    forall i | 0 <= i < |values| ensures NoDash(Each("  - ", values)[i]) {
      var line := "  - " + values[i];
      assert line[..3][0] == ' ';
    }
  }

  lemma {:induction false} MergedWellFormed(generated: seq<Block>, existing: seq<Block>)
    requires AllWellFormed(generated) && AllWellFormed(existing)
    ensures AllWellFormed(MergedBlocks(generated, existing))
  {
    ExistingOnlyMembers(generated, existing);
    var known := TriggersOf(existing);
    var front, rest := MergedGenerated(generated, known), ExistingOnly(generated, existing);
    forall i | 0 <= i < |front| ensures WellFormed(front[i]) {
      if generated[i].key == Triggers {
        TriggerBlockWellFormed(Distinct(TriggerValues(generated[i]) + known));
      }
    }
    forall i | 0 <= i < |rest| ensures WellFormed(rest[i]) {
      assert rest[i] in rest;
    }
  }

  // ------------------------------------------------------------ front matters

  /** A front matter printed around lines that do not close it is read as these lines. */
  lemma {:induction false} EnclosedReads(body: seq<string>, rest: seq<string>)
    requires body != [] && rest != [] && AllHave(body, NoDash)
    ensures FrontOf(Enclosed(body, rest)) == FrontMatter(body, rest)
    ensures Closing(Enclosed(body, rest), 2) == |body| + 1
  {
    var lines := Enclosed(body, rest);
    assert lines[|body| + 1] == "---";
    assert lines[|body| + 1][..3] == "---";
    forall k | 2 <= k < |body| + 1 ensures NoDash(lines[k]) {
      assert lines[k] == body[k - 1];
    }
    assert lines[1..|body| + 1] == body && lines[|body| + 2..] == rest;
  }

  lemma {:induction false} FrontBody(lines: seq<string>)
    requires FrontOf(lines).FrontMatter?
    ensures FrontOf(lines).body != [] && FrontOf(lines).rest != []
    ensures FrontOf(lines).body[0] == lines[1]
    ensures AllHave(FrontOf(lines).body[1..], NoDash)
    ensures forall i :: 0 <= i < |FrontOf(lines).body| ==> FrontOf(lines).body[i] in lines
  {
    var body := FrontOf(lines).body;
    forall i | 0 <= i < |body| ensures body[i] == lines[i + 1] {
    }
    forall i | 0 <= i < |body[1..]| ensures NoDash(body[1..][i]) {
      assert body[1..][i] == lines[i + 2];
    }
  }

  /** What stands below a front matter is the end of the text. */
  lemma {:induction false} BelowIsSuffix(lines: seq<string>)
    requires FrontOf(lines).FrontMatter?
    ensures IsSuffix(Join(FrontOf(lines).rest, "\n"), Join(lines, "\n"))
  {
    var i := Closing(lines, 2);
    var rest := FrontOf(lines).rest;
    if lines[i] != "---" {
      var x, more := lines[i][3..], lines[i + 1..];
      assert lines[i..] == [lines[i]] + more;
      CutFirst("---", x, more);
      assert lines[i] == "---" + x;
      SuffixOfLines(lines, i);
      SuffixThrough(Join(rest, "\n"), Join(lines[i..], "\n"), Join(lines, "\n"));
    } else if i + 1 < |lines| {
      SuffixOfLines(lines, i + 1);
    } else {
      assert Join(lines, "\n") == Join(lines, "\n") + "";
    }
  }

  ghost predicate IsSuffix(t: string, s: string) {
    |t| <= |s| && s[|s| - |t|..] == t
  }

  lemma {:induction false} SuffixThrough(a: string, b: string, c: string)
    requires IsSuffix(a, b) && IsSuffix(b, c)
    ensures IsSuffix(a, c)
  {
    assert c[|c| - |b|..][|b| - |a|..] == c[|c| - |a|..];
  }

  lemma {:induction false} SuffixOfLines(lines: seq<string>, i: nat)
    requires 0 < i < |lines|
    ensures IsSuffix(Join(lines[i..], "\n"), Join(lines, "\n"))
  {
    assert lines == lines[..i] + lines[i..];
    JoinAppend(lines[..i], lines[i..], "\n");
  }

  lemma {:induction false} CutFirst(x: string, y: string, more: seq<string>)
    ensures IsSuffix(Join([y] + more, "\n"), Join([x + y] + more, "\n"))
  {
    assert ([y] + more)[1..] == more && ([x + y] + more)[1..] == more;
    if more != [] {
      Associative(x, y, "\n" + Join(more, "\n"));
    }
  }

  lemma {:induction false} BreakOccurs(s: string)
    ensures '\n' in s <==> Occurs("\n", s)
  {
    if '\n' in s {
      var i :| 0 <= i < |s| && s[i] == '\n';
      assert At("\n", s, i);
    }
    if i :| At("\n", s, i) {
      assert s[i..i + 1][0] == s[i];
    }
  }

  lemma {:induction false} BreaksIff(lines: seq<string>)
    ensures NoBreaks(lines) <==> Without("\n", lines)
  {
    forall i | 0 <= i < |lines| ensures '\n' !in lines[i] <==> !Occurs("\n", lines[i]) {
      BreakOccurs(lines[i]);
    }
  }

  // ------------------------------------------------------- the front matters met

  /** The generated front matter as the template prints it; `values` are its triggers. */
  ghost predicate PrintedFront(generated: string, values: seq<string>, t: nat) {
    var lines := LinesOf(generated);
    && FrontOf(lines).FrontMatter?
    && lines[Closing(lines, 2)] == "---" && Closing(lines, 2) + 1 < |lines|
    && var body := FrontOf(lines).body;
       && Printed(Blocks(body), values, t) && AllLines(Blocks(body)) == body
       && (body != [] ==> NoDash(body[0])) && Without("<!--", body)
       && forall i, j :: 0 <= i < j < |values| ==> values[i] != values[j]
  }

  /** The first line of the existing front matter is a key that starts with `---`. */
  predicate DashKey(before: string) {
    var front := FrontOf(LinesOf(before));
    front.FrontMatter? && front.body != [] && !NoDash(front.body[0]) && KeyOf(front.body[0]).Some?
  }

  /** Every existing trigger is one that its printed line is read as. */
  ghost predicate StableTriggers(before: string) {
    var front := FrontOf(LinesOf(before));
    front.FrontMatter? ==> AllStable(TriggersOf(Blocks(front.body)))
  }

  lemma {:induction false} BlocksWellFormed(body: seq<string>)
    ensures AllWellFormed(Blocks(body))
  {
    FoldKeeps([], body);
  }

  lemma {:induction false} ForeignMarks()
    ensures Foreign("\n") && Foreign("<!--")
  {
  }

  lemma {:induction false} BodyLines(lines: seq<string>)
    requires FrontOf(lines).FrontMatter? && NoBreaks(lines)
    ensures Without("\n", FrontOf(lines).body)
  {
    FrontBody(lines);
    var body := FrontOf(lines).body;
    forall i | 0 <= i < |body| ensures '\n' !in body[i] {
      assert body[i] in lines;
    }
    BreaksIff(body);
  }

  lemma {:induction false} RestLines(lines: seq<string>)
    requires FrontOf(lines).FrontMatter? && NoBreaks(lines)
    ensures NoBreaks(FrontOf(lines).rest)
  {
  }

  /** The lines of a merged front matter are read as the merged blocks. */
  lemma {:induction false} MergedBodyReads(generated: seq<string>, existing: seq<string>)
    requires Blocks(generated) != []
    ensures MergedBody(generated, existing) != []
    ensures Blocks(MergedBody(generated, existing)) == MergedBlocks(Blocks(generated), Blocks(existing))
    ensures AllWellFormed(MergedBlocks(Blocks(generated), Blocks(existing)))
  {
    BlocksWellFormed(generated);
    BlocksWellFormed(existing);
    var blocks := MergedBlocks(Blocks(generated), Blocks(existing));
    MergedWellFormed(Blocks(generated), Blocks(existing));
    BlocksReadBack(blocks);
    assert blocks != [] && WellFormed(blocks[0]);
    assert AllLines(blocks) == blocks[0].lines + AllLines(blocks[1..]);
  }

  lemma {:induction false} MergedBodyWithout(m: string, generated: seq<string>, existing: seq<string>)
    requires Foreign(m) && Without(m, generated) && Without(m, existing)
    ensures Without(m, MergedBody(generated, existing))
  {
    BodyWithout(m, generated);
    BodyWithout(m, existing);
    MergedWithout(m, Blocks(generated), Blocks(existing));
  }

  lemma {:induction false} EnclosedLines(body: seq<string>, rest: seq<string>)
    requires Without("\n", body) && NoBreaks(rest)
    ensures LinesOf(Join(Enclosed(body, rest), "\n")) == Enclosed(body, rest)
  {
    BreaksIff(body);
    SplitJoin(Enclosed(body, rest), '\n');
  }

  /** The facts about both front matters that merging needs. */
  lemma {:induction false} BothFronts(before: string, generated: string, values: seq<string>, t: nat)
    requires PrintedFront(generated, values, t) && FrontOf(LinesOf(before)).FrontMatter?
    ensures
      var gen, front := FrontOf(LinesOf(generated)).body, FrontOf(LinesOf(before));
      var body := MergedBody(gen, front.body);
      && MergeGeneratedFrontmatter(before, generated) == Join(Enclosed(body, front.rest), "\n")
      && LinesOf(Join(Enclosed(body, front.rest), "\n")) == Enclosed(body, front.rest)
      && Without("\n", gen) && NoBreaks(front.rest) && front.rest != [] && body != [] && Without("\n", body)
      && Blocks(body) == MergedBlocks(Blocks(gen), Blocks(front.body)) && AllWellFormed(Blocks(body))
  {
    var gen, front := FrontOf(LinesOf(generated)).body, FrontOf(LinesOf(before));
    JoinSplit(generated, '\n');
    JoinSplit(before, '\n');
    FrontBody(LinesOf(before));
    BodyLines(LinesOf(generated));
    BodyLines(LinesOf(before));
    RestLines(LinesOf(before));
    ForeignMarks();
    MergedBodyReads(gen, front.body);
    MergedBodyWithout("\n", gen, front.body);
    EnclosedLines(MergedBody(gen, front.body), front.rest);
  }

  lemma {:induction false} GeneratedNoDash(generated: string, values: seq<string>, t: nat)
    requires PrintedFront(generated, values, t)
    ensures
      var gen := FrontOf(LinesOf(generated)).body;
      gen != [] && AllHave(gen, NoDash) && LinesHave(Blocks(gen), NoDash) && AllWellFormed(Blocks(gen))
        && Without("\n", gen)
  {
    var gen := FrontOf(LinesOf(generated)).body;
    FrontBody(LinesOf(generated));
    WholeNoDash(gen);
    FirstDropped(gen, NoDash);
    BlocksWellFormed(gen);
    JoinSplit(generated, '\n');
    BodyLines(LinesOf(generated));
  }

  /** Unless its first key starts with `---`, a merged front matter is read as the lines it was printed from. */
  lemma {:induction false} FrontReads(before: string, generated: string, values: seq<string>, t: nat)
    requires PrintedFront(generated, values, t) && FrontOf(LinesOf(before)).FrontMatter? && !DashKey(before)
    ensures
      var gen, front := FrontOf(LinesOf(generated)).body, FrontOf(LinesOf(before));
      var body := MergedBody(gen, front.body);
      && AllHave(body, NoDash)
      && FrontOf(LinesOf(MergeGeneratedFrontmatter(before, generated))) == FrontMatter(body, front.rest)
  {
    var gen, front := FrontOf(LinesOf(generated)).body, FrontOf(LinesOf(before));
    BothFronts(before, generated, values, t);
    GeneratedNoDash(generated, values, t);
    FrontBody(LinesOf(before));
    FirstDropped(front.body, NoDash);
    MergedNoDash(Blocks(gen), Blocks(front.body));
    EnclosedReads(MergedBody(gen, front.body), front.rest);
  }

  lemma {:induction false} EnclosedSame(a: seq<string>, b: seq<string>, rest: seq<string>)
    requires Without("\n", a) && Without("\n", b) && NoBreaks(rest)
    ensures Join(Enclosed(a, rest), "\n") == Join(Enclosed(b, rest), "\n") <==> a == b
  {
    EnclosedLines(a, rest);
    EnclosedLines(b, rest);
    if Enclosed(a, rest) == Enclosed(b, rest) {
      assert |a| == |b|;
      assert Enclosed(a, rest)[1..|a| + 1] == a && Enclosed(b, rest)[1..|b| + 1] == b;
    }
  }

  /** With a front matter there, the second merge changes nothing exactly when its triggers are stable. */
  lemma {:induction false} FrontTwice(before: string, generated: string, values: seq<string>, t: nat)
    requires PrintedFront(generated, values, t) && FrontOf(LinesOf(before)).FrontMatter? && !DashKey(before)
    ensures
      var once := MergeGeneratedFrontmatter(before, generated);
      MergeGeneratedFrontmatter(once, generated) == once <==> StableTriggers(before)
  {
    var gen, front := FrontOf(LinesOf(generated)).body, FrontOf(LinesOf(before));
    var once := MergedBody(gen, front.body);
    BothFronts(before, generated, values, t);
    FrontReads(before, generated, values, t);
    ForeignMarks();
    MergedBodyWithout("\n", gen, once);
    var twice := MergedBody(gen, once);
    EnclosedSame(twice, once, front.rest);
    MergeTwiceIff(Blocks(gen), values, t, Blocks(front.body));
    SameBlocks(gen, once);
  }

  /** Merged lines are the same exactly when their blocks are. */
  lemma {:induction false} SameBlocks(gen: seq<string>, once: seq<string>)
    requires AllWellFormed(Blocks(once)) && AllLines(Blocks(once)) == once
    ensures MergedBody(gen, once) == once <==> MergedBlocks(Blocks(gen), Blocks(once)) == Blocks(once)
  {
    BlocksWellFormed(gen);
    MergedWellFormed(Blocks(gen), Blocks(once));
    BlocksReadBack(MergedBlocks(Blocks(gen), Blocks(once)));
  }

  /** The generated front matter merged with itself. */
  lemma {:induction false} MergedSelf(generated: seq<Block>, values: seq<string>, t: nat)
    requires Printed(generated, values, t) && forall i, j :: 0 <= i < j < |values| ==> values[i] != values[j]
    ensures MergedBlocks(generated, generated) == generated
  {
    BlockOfOnly(generated, Triggers, t);
    TriggerBlockReads(values);
    DistinctAgain(values, values);
    DistinctSame(values);
    forall i | 0 <= i < |generated| ensures MergedBlock(generated[i], values) == generated[i]
      && HasKey(generated, generated[i].key) {
    }
    AllKept(generated, values);
    ExistingOnlySkips(generated, generated, []);
    assert generated + [] == generated;
  }

  lemma {:induction false} AllKept(generated: seq<Block>, known: seq<string>)
    requires forall i :: 0 <= i < |generated| ==> MergedBlock(generated[i], known) == generated[i]
    ensures MergedGenerated(generated, known) == generated
  {
  }

  /** Without a front matter the generated one is put in front. */
  lemma {:induction false} NoFrontOnce(before: string, generated: string, values: seq<string>, t: nat)
    requires PrintedFront(generated, values, t) && FrontOf(LinesOf(before)).NoFront?
    ensures
      var gen := FrontOf(LinesOf(generated)).body;
      MergeGeneratedFrontmatter(before, generated) == Join(Enclosed(gen, LinesOf(before)), "\n")
  {
    var lines := LinesOf(generated);
    var i := Closing(lines, 2);
    var gen := FrontOf(lines).body;
    assert lines[..i] == [lines[0]] + lines[1..i];
    JoinSplit(before, '\n');
    JoinAppend(["---"] + gen + ["---"], LinesOf(before), "\n");
    Associative(Join(["---"] + gen + ["---"], "\n"), "\n", before);
  }

  lemma {:induction false} NoFrontTwice(before: string, generated: string, values: seq<string>, t: nat)
    requires PrintedFront(generated, values, t) && FrontOf(LinesOf(before)).NoFront?
    ensures
      var once := MergeGeneratedFrontmatter(before, generated);
      MergeGeneratedFrontmatter(once, generated) == once
  {
    var gen := FrontOf(LinesOf(generated)).body;
    NoFrontOnce(before, generated, values, t);
    JoinSplit(generated, '\n');
    JoinSplit(before, '\n');
    FrontBody(LinesOf(generated));
    BodyLines(LinesOf(generated));
    EnclosedLines(gen, LinesOf(before));
    WholeNoDash(gen);
    EnclosedReads(gen, LinesOf(before));
    MergedSelf(Blocks(gen), values, t);
  }

  lemma {:induction false} WholeNoDash(body: seq<string>)
    requires body != [] && NoDash(body[0]) && AllHave(body[1..], NoDash)
    ensures AllHave(body, NoDash)
  {
    forall i | 0 <= i < |body| ensures NoDash(body[i]) {
      assert i > 0 ==> body[1..][i - 1] == body[i];
    }
  }

  // --------------------------------------------------- keys that start with dashes

  /** A front matter with its two `---`, and what stands below it. */
  function Headed(body: seq<string>, below: string): string {
    Join(["---"] + body + ["---"], "\n") + ("\n" + below)
  }

  lemma {:induction false} EnclosedText(body: seq<string>, rest: seq<string>)
    requires rest != []
    ensures Join(Enclosed(body, rest), "\n") == Headed(body, Join(rest, "\n"))
  {
    JoinAppend(["---"] + body + ["---"], rest, "\n");
  }

  /** Lines that a front matter can be printed from and read as. */
  ghost predicate Closed(body: seq<string>) {
    body != [] && AllHave(body, NoDash) && Without("\n", body)
  }

  lemma {:induction false} HeadedLines(body: seq<string>, below: string)
    requires Without("\n", body)
    ensures LinesOf(Headed(body, below)) == Enclosed(body, LinesOf(below))
  {
    JoinSplit(below, '\n');
    EnclosedText(body, LinesOf(below));
    EnclosedLines(body, LinesOf(below));
  }

  lemma {:induction false} HeadedFront(body: seq<string>, below: string)
    requires Closed(body)
    ensures FrontOf(LinesOf(Headed(body, below))) == FrontMatter(body, LinesOf(below))
  {
    HeadedLines(body, below);
    EnclosedReads(body, LinesOf(below));
  }

  /** Unless the first key starts with `---`, a merge closes the front matter with a line of its own. */
  lemma {:induction false} MergesHeaded(before: string, generated: string, values: seq<string>, t: nat)
    returns (body: seq<string>, below: string)
    requires PrintedFront(generated, values, t) && !DashKey(before)
    ensures Closed(body) && MergeGeneratedFrontmatter(before, generated) == Headed(body, below)
    ensures
      var gen, front := FrontOf(LinesOf(generated)).body, FrontOf(LinesOf(before));
      && body == (if front.NoFront? then gen else MergedBody(gen, front.body))
      && below == if front.NoFront? then before else Join(front.rest, "\n")
  {
    var gen, front := FrontOf(LinesOf(generated)).body, FrontOf(LinesOf(before));
    GeneratedNoDash(generated, values, t);
    if front.NoFront? {
      NoFrontOnce(before, generated, values, t);
      body, below := gen, before;
      JoinSplit(before, '\n');
      EnclosedText(gen, LinesOf(before));
    } else {
      BothFronts(before, generated, values, t);
      FrontReads(before, generated, values, t);
      body, below := MergedBody(gen, front.body), Join(front.rest, "\n");
      EnclosedText(body, front.rest);
    }
  }

  lemma {:induction false} DashesInKey(line: string)
    requires KeyOf(line).Some?
    ensures StartsWith(KeyOf(line).value, "---") <==> !NoDash(line)
  {
    var n := KeyLength(line);
    KeyChars(line);
    if !NoDash(line) {
      assert line[..3][0] == line[0] && line[..3][1] == line[1] && line[..3][2] == line[2];
      assert line[n] == ':' && n >= 3;
      assert line[..n][..3] == line[..3];
    }
    if StartsWith(line[..n], "---") {
      assert line[..n][..3] == line[..3];
    }
  }

  lemma {:induction false} KeyChars(line: string)
    ensures forall i :: 0 <= i < KeyLength(line) ==> IsKeyChar(line[i])
    ensures KeyLength(line) < |line| ==> !IsKeyChar(line[KeyLength(line)])
  {
    if line != "" && IsKeyChar(line[0]) {
      KeyChars(line[1..]);
      forall i | 0 <= i < KeyLength(line) ensures IsKeyChar(line[i]) {
        assert i > 0 ==> line[i] == line[1..][i - 1];
      }
    }
  }

  lemma {:induction false} FirstBlock(body: seq<string>)
    requires body != [] && KeyOf(body[0]).Some?
    ensures Blocks(body) != [] && Blocks(body)[0].lines != [] && Blocks(body)[0].lines[0] == body[0]
    ensures Blocks(body)[0].key == KeyOf(body[0]).value
  {
    var first := Block(KeyOf(body[0]).value, [body[0]]);
    assert AddLine([], body[0]) == [first];
    FirstStays([first], body[1..]);
  }

  lemma {:induction false} FirstStays(start: seq<Block>, body: seq<string>)
    requires start != [] && start[0].lines != []
    ensures
      var blocks := Fold(AddLine, start, body);
      blocks != [] && blocks[0].key == start[0].key && blocks[0].lines != [] && blocks[0].lines[0] == start[0].lines[0]
    decreases |body|
  {
    if body != [] {
      FirstStays(AddLine(start, body[0]), body[1..]);
    }
  }

  /** No block of lines that do not start with `---` has a key that does. */
  lemma {:induction false} NoDashKey(blocks: seq<Block>, key: string)
    requires LinesHave(blocks, NoDash) && AllWellFormed(blocks) && StartsWith(key, "---")
    ensures !HasKey(blocks, key)
  {
    forall i | 0 <= i < |blocks| ensures blocks[i].key != key {
      assert WellFormed(blocks[i]) && AllHave(blocks[i].lines, NoDash);
      DashesInKey(blocks[i].lines[0]);
    }
  }

  /** The first existing block comes first after the generated ones, when its key is not generated. */
  lemma {:induction false} FirstKept(generated: seq<Block>, existing: seq<Block>) returns (more: seq<string>)
    requires existing != [] && existing[0].lines != [] && !HasKey(generated, existing[0].key)
    ensures AllLines(MergedBlocks(generated, existing))
         == AllLines(MergedGenerated(generated, TriggersOf(existing))) + ([existing[0].lines[0]] + more)
  {
    var merged, rest := MergedGenerated(generated, TriggersOf(existing)), ExistingOnly(generated, existing);
    AllLinesAppend(merged, rest);
    assert rest[0] == existing[0];
    assert AllLines(rest) == rest[0].lines + AllLines(rest[1..]);
    more := AllLines(rest)[1..];
    assert AllLines(rest) == [existing[0].lines[0]] + more;
  }

  /** Where the key that starts with `---` ends up: first after the generated blocks, and it is kept. */
  lemma {:induction false} DashKeyKept(before: string, generated: string, values: seq<string>, t: nat)
    returns (front: seq<string>, more: seq<string>)
    requires PrintedFront(generated, values, t) && DashKey(before)
    ensures
      var gen, was := FrontOf(LinesOf(generated)).body, FrontOf(LinesOf(before)).body;
      MergedBody(gen, was) == front + ([was[0]] + more) && front != [] && AllHave(front, NoDash)
  {
    var gen, was := FrontOf(LinesOf(generated)).body, FrontOf(LinesOf(before)).body;
    GeneratedNoDash(generated, values, t);
    var g, e := Blocks(gen), Blocks(was);
    FirstBlock(was);
    DashesInKey(was[0]);
    NoDashKey(g, e[0].key);
    MergedNoDash(g, e);
    GeneratedLines(g, TriggersOf(e));
    front := AllLines(MergedGenerated(g, TriggersOf(e)));
    more := FirstKept(g, e);
  }

  lemma {:induction false} GeneratedLines(generated: seq<Block>, known: seq<string>)
    requires generated != [] && AllWellFormed(generated)
    ensures AllLines(MergedGenerated(generated, known)) != []
  {
    var merged := MergedGenerated(generated, known);
    assert merged[0] == MergedBlock(generated[0], known) && WellFormed(generated[0]);
    assert AllLines(merged) == merged[0].lines + AllLines(merged[1..]);
  }

  /** The key closes the merged front matter, which no merge of another kind does. */
  lemma {:induction false} DashKeyCloses(before: string, generated: string, values: seq<string>, t: nat,
                                         body: seq<string>, below: string)
    requires PrintedFront(generated, values, t) && DashKey(before) && Closed(body)
    ensures MergeGeneratedFrontmatter(before, generated) != Headed(body, below)
  {
    var gen, was := FrontOf(LinesOf(generated)).body, FrontOf(LinesOf(before));
    var front, more := DashKeyKept(before, generated, values, t);
    BothFronts(before, generated, values, t);
    HeadedLines(body, below);
    NotClosed("---");
    ClosedApart(front, was.body[0], more, was.rest, body, LinesOf(below));
  }

  lemma {:induction false} NotClosed(line: string)
    requires line == "---"
    ensures KeyOf(line) == None && !NoDash(line)
  {
    KeyChars(line);
  }

  lemma {:induction false} ClosedApart(front: seq<string>, x: string, more: seq<string>, rest: seq<string>,
                                       body: seq<string>, below: seq<string>)
    requires AllHave(front, NoDash) && AllHave(body, NoDash) && !NoDash(x) && x != "---" && !NoDash("---")
    ensures Enclosed(front + ([x] + more), rest) != Enclosed(body, below)
  {
    var a, b := Enclosed(front + ([x] + more), rest), Enclosed(body, below);
    var p, q := |front| + 1, |body| + 1;
    assert a[p] == x && b[q] == "---";
    if p < q {
      assert b[p] == body[p - 1];
    } else if q < p {
      assert a[q] == front[q - 1];
    }
  }

  /** A text cut off: its lines are the first lines, the last of them cut. */
  lemma {:induction false} PrefixLines(s: string, i: nat)
    requires i <= |s|
    ensures |LinesOf(s[..i])| <= |LinesOf(s)|
    ensures forall k :: 0 <= k < |LinesOf(s[..i])| ==> StartsWith(LinesOf(s)[k], LinesOf(s[..i])[k])
  {
    if i > 0 {
      PrefixLines(s[1..], i - 1);
      assert s[..i][0] == s[0] && s[..i][1..] == s[1..][..i - 1];
      var a, b := LinesOf(s[1..]), LinesOf(s[1..][..i - 1]);
      if s[0] == '\n' {
        assert LinesOf(s) == [""] + a && LinesOf(s[..i]) == [""] + b;
      } else {
        assert LinesOf(s) == [[s[0]] + a[0]] + a[1..] && LinesOf(s[..i]) == [[s[0]] + b[0]] + b[1..];
        assert ([s[0]] + a[0])[..|b[0]| + 1] == [s[0]] + a[0][..|b[0]|];
      }
    }
  }

  lemma {:induction false} NoDashPrefix(line: string, cut: string)
    requires NoDash(line) && StartsWith(line, cut)
    ensures NoDash(cut)
  {
    assert |cut| >= 3 ==> line[..3] == cut[..3];
  }

  /** The first line of a merged front matter is generated, and so starts with no `---`. */
  lemma {:induction false} MergedFirstLine(before: string, generated: string, values: seq<string>, t: nat)
    requires PrintedFront(generated, values, t)
    ensures
      var lines := LinesOf(MergeGeneratedFrontmatter(before, generated));
      |lines| > 1 && NoDash(lines[1])
  {
    if DashKey(before) {
      DashFirstLine(before, generated, values, t);
    } else {
      var body, below := MergesHeaded(before, generated, values, t);
      HeadedLines(body, below);
      EnclosedFirst(body, LinesOf(below));
    }
  }

  lemma {:induction false} DashFirstLine(before: string, generated: string, values: seq<string>, t: nat)
    requires PrintedFront(generated, values, t) && DashKey(before)
    ensures
      var lines := LinesOf(MergeGeneratedFrontmatter(before, generated));
      |lines| > 1 && NoDash(lines[1])
  {
    var front, more := DashKeyKept(before, generated, values, t);
    BothFronts(before, generated, values, t);
    var gen, was := FrontOf(LinesOf(generated)).body, FrontOf(LinesOf(before));
    EnclosedFirst(MergedBody(gen, was.body), was.rest);
    assert MergedBody(gen, was.body)[0] == front[0];
  }

  lemma {:induction false} EnclosedFirst(body: seq<string>, rest: seq<string>)
    requires body != []
    ensures |Enclosed(body, rest)| > 1 && Enclosed(body, rest)[1] == body[0]
  {
  }

  /** So its first key starts with no `---`, cut off or not. */
  lemma {:induction false} MergedHasNoDashKey(before: string, generated: string, values: seq<string>, t: nat, i: nat)
    requires PrintedFront(generated, values, t) && i <= |MergeGeneratedFrontmatter(before, generated)|
    ensures !DashKey(MergeGeneratedFrontmatter(before, generated)[..i])
  {
    var once := MergeGeneratedFrontmatter(before, generated);
    MergedFirstLine(before, generated, values, t);
    PrefixLines(once, i);
    var lines := LinesOf(once[..i]);
    if FrontOf(lines).FrontMatter? {
      NoDashPrefix(LinesOf(once)[1], lines[1]);
      FrontBody(lines);
    }
  }

  /**
    Merging the front matter twice is merging it once if and only if the existing triggers
    are stable and no key that starts with `---` comes first.
   */
  lemma {:induction false} FrontTwiceIff(before: string, generated: string, values: seq<string>, t: nat)
    requires PrintedFront(generated, values, t)
    ensures
      var once := MergeGeneratedFrontmatter(before, generated);
      MergeGeneratedFrontmatter(once, generated) == once <==> StableTriggers(before) && !DashKey(before)
  {
    var once := MergeGeneratedFrontmatter(before, generated);
    if FrontOf(LinesOf(before)).NoFront? {
      NoFrontTwice(before, generated, values, t);
    } else if !DashKey(before) {
      FrontTwice(before, generated, values, t);
    } else {
      assert once[..|once|] == once;
      MergedHasNoDashKey(before, generated, values, t, |once|);
      var body, below := MergesHeaded(once, generated, values, t);
      DashKeyCloses(before, generated, values, t, body, below);
    }
  }
}
