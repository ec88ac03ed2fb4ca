/** Existing files for which merging twice is not merging once, whatever is generated. */
module MergeLimits {
  import opened Wrappers
  import opened Lists
  import opened Strings
  import opened Frontmatter
  import opened MergeContent
  import opened MergeFronts
  import opened MergeTwice

  lemma {:induction false} NoBracketNoMark(s: string, name: string)
    requires '<' !in s
    ensures NoMark(s, name)
  {
    forall i | 0 <= i < |s| ensures MarkLength(s[i..], name) == 0 {
      NotOpened(s, i, name);
    }
  }

  lemma {:induction false} NoBracketNoComment(s: string)
    requires '<' !in s
    ensures !Occurs("<!--", s)
  {
    forall i ensures !At("<!--", s, i) {
      assert 0 <= i <= |s| - 4 ==> s[i..i + 4][0] == s[i];
    }
  }

  lemma {:induction false} NoBracketJoined(lines: seq<string>)
    requires forall i :: 0 <= i < |lines| ==> '<' !in lines[i]
    ensures '<' !in Join(lines, "\n")
  {
    if |lines| > 1 {
      NoBracketJoined(lines[1..]);
    }
  }

  /** An existing file: a front matter, and below it the block that is generated anyway. */
  function FileWith(body: seq<string>, generated: string): string {
    Join(Enclosed(body, [""]), "\n") + (AutoContent(generated) + "")
  }

  lemma {:induction false} FileReads(body: seq<string>, generated: string)
    requires InOrder(generated) && NoMarks(Join(Enclosed(body, [""]), "\n"))
    ensures InOrder(FileWith(body, generated)) && Before(FileWith(body, generated)) == Join(Enclosed(body, [""]), "\n")
  {
    BlockAround(generated, Join(Enclosed(body, [""]), "\n"), "");
  }

  // ------------------------------------------------------- a key of dashes

  const Dashed := "---x: 1"

  lemma {:induction false} DashedIsKey()
    ensures KeyOf(Dashed) == Some("---x") && !NoDash(Dashed)
  {
    KeyLine("---x", " 1");
    assert "---x" + (":" + " 1") == Dashed;
    assert Dashed[..3] == "---";
  }

  lemma {:induction false} DashedFront()
    ensures FrontOf(LinesOf(Join(Enclosed([Dashed], [""]), "\n"))) == FrontMatter([Dashed], [""])
    ensures '<' !in Join(Enclosed([Dashed], [""]), "\n")
  {
    var lines := Enclosed([Dashed], [""]);
    assert lines == ["---", Dashed, "---", ""];
    SplitJoin(lines, '\n');
    assert lines[2][..3] == "---";
    assert lines[1..2] == [Dashed] && lines[3..] == [""];
    NoBracketJoined(lines);
  }

  lemma {:induction false} DashedTriggers()
    ensures TriggersOf(Blocks([Dashed])) == []
  {
    DashedIsKey();
    assert Blocks([Dashed]) == AddLine([], Dashed) == [Block("---x", [Dashed])];
    assert BlockOf([], Triggers) == None;
  }

  /**
    The key line `---x: 1` is put behind the generated lines and closes the merged front
    matter there, so a second merge moves the rest out of it.
   */
  lemma {:induction false} DashKeyIsNotStable(generated: string, values: seq<string>, t: nat)
    requires InOrder(generated) && PrintedFront(generated, values, t)
    ensures
      var existing := FileWith([Dashed], generated);
      && InOrder(existing) && StableTriggers(Before(existing)) && NoMarks(FrontMerged(existing, generated))
      && Merged(Merged(existing, generated), generated) != Merged(existing, generated)
  {
    var existing := FileWith([Dashed], generated);
    DashedFront();
    DashedIsKey();
    NoBracketNoMark(Join(Enclosed([Dashed], [""]), "\n"), Start);
    NoBracketNoMark(Join(Enclosed([Dashed], [""]), "\n"), End);
    FileReads([Dashed], generated);
    NoBracketNoComment(Dashed);
    NoCommentNoMarks(existing, generated, values, t);
    DashedTriggers();
    MergeIsIdempotentIff(existing, generated, values, t);
  }

  // ------------------------------------------------------ a marker put together

  const Opening := "x" + (":" + " <!--")
  const Generated := "AUTO-GENERATED"
  const Naming := Generated + (":" + "START -->")
  const Parted := [Opening, "triggers:", Naming]

  lemma {:induction false} GeneratedIsKey()
    ensures forall i :: 0 <= i < |Generated| ==> IsKeyChar(Generated[i])
  {
  }

  lemma {:induction false} NamingIsKey()
    ensures KeyOf(Naming) == Some(Generated)
  {
    GeneratedIsKey();
    KeyLine(Generated, "START -->");
  }

  lemma {:induction false} OpeningIsKey()
    ensures KeyOf(Opening) == Some("x")
  {
    KeyLine("x", " <!--");
  }

  lemma {:induction false} PartedBlocks()
    ensures Blocks(Parted) == [Block("x", [Opening]), Block(Triggers, ["triggers:"]), Block(Generated, [Naming])]
  {
    OpeningIsKey();
    TriggerLine();
    NamingIsKey();
    var x, t, a := Block("x", [Opening]), Block(Triggers, ["triggers:"]), Block(Generated, [Naming]);
    TailsOf(Opening, "triggers:", Naming);
    assert AddLine([], Opening) == [x];
    assert AddLine([x], "triggers:") == [x, t];
    assert AddLine([x, t], Naming) == [x, t, a];
    FoldOne([], Parted);
    FoldOne([x], ["triggers:", Naming]);
    FoldOne([x, t], [Naming]);
  }

  lemma TailsOf<T>(a: T, b: T, c: T)
    ensures [a, b, c][1..] == [b, c] && [b, c][1..] == [c] && [c][1..] == []
  {
  }

  lemma {:induction false} FoldOne(start: seq<Block>, body: seq<string>)
    requires body != []
    ensures Fold(AddLine, start, body) == Fold(AddLine, AddLine(start, body[0]), body[1..])
  {
  }

  lemma {:induction false} PartedFront()
    ensures FrontOf(LinesOf(Join(Enclosed(Parted, [""]), "\n"))) == FrontMatter(Parted, [""])
  {
    var lines := Enclosed(Parted, [""]);
    assert lines == ["---", Opening, "triggers:", Naming, "---", ""];
    assert '\n' !in Opening && '\n' !in Naming && '\n' !in "triggers:";
    SplitJoin(lines, '\n');
    assert lines[2][..3][0] == 't' && lines[3][..3][0] == 'A' && lines[4][..3] == "---";
    assert Closing(lines, 2) == 4;
    assert lines[1..4] == Parted && lines[5..] == [""];
  }

  /** An opened comment with no name behind it is no marker. */
  lemma {:induction false} OpenIsNoMark(x: string, y: string, name: string)
    requires '<' !in x && '<' !in y && IsName(name) && y != "" && !IsSpace(y[0]) && y[0] != name[0]
    ensures NoMark(x + ("<!--\n" + y), name)
  {
    var s := x + ("<!--\n" + y);
    forall i | 0 <= i < |s| ensures MarkLength(s[i..], name) == 0 {
      if i == |x| {
        var t := s[i..];
        assert t == "<!--\n" + y && t[4..] == "\n" + y && ("\n" + y)[1..] == y;
        assert TrimStart("\n" + y) == TrimStart(y) == y;
        assert |name| <= |y| ==> y[..|name|][0] == y[0];
      } else {
        assert i > |x| ==> s[i] == ("<!--\n" + y)[i - |x|];
        NotOpened(s, i, name);
      }
    }
  }

  lemma {:induction false} PartedHasNoMarks()
    ensures NoMarks(Join(Enclosed(Parted, [""]), "\n"))
  {
    NamesAreNames();
    var lines := Enclosed(Parted, [""]);
    assert lines == ["---", Opening, "triggers:", Naming, "---", ""];
    var below := ["triggers:", Naming, "---", ""];
    var y := Join(below, "\n");
    assert '<' !in Naming && '<' !in "triggers:";
    NoBracketJoined(below);
    assert below == ["triggers:"] + [Naming, "---", ""] && lines == ["---"] + ([Opening] + below);
    JoinFirst("triggers:", [Naming, "---", ""], "\n");
    JoinFirst(Opening, below, "\n");
    JoinFirst("---", [Opening] + below, "\n");
    var x := "---\nx: ";
    assert Join(lines, "\n") == "---" + ("\n" + (Opening + ("\n" + y)));
    TwoLines(y);
    assert y[0] == 't' && Start[0] == 'A' && End[0] == 'A';
    OpenIsNoMark(x, y, Start);
    OpenIsNoMark(x, y, End);
  }

  lemma {:induction false} TwoLines(y: string)
    ensures "---" + ("\n" + (Opening + ("\n" + y))) == "---\nx: " + ("<!--\n" + y)
  {
    assert Opening + ("\n" + y) == "x: " + ("<!--\n" + y);
    assert "---" + ("\n" + ("x: " + ("<!--\n" + y))) == ("---" + ("\n" + "x: ")) + ("<!--\n" + y);
  }

  lemma {:induction false} MarkAcross()
    ensures Opening + ("\n" + Naming) == "x: " + Word("\n", " ", Start)
  {
    assert Start == Generated + ":START";
    assert Naming == Start + (" " + "-->");
    assert Opening == "x: " + "<!--";
    Associative("x: ", "<!--", "\n" + Naming);
  }

  /** Two lines with a marker across them. */
  lemma {:induction false} JoinedMark(front: seq<string>, below: seq<string>)
    requires front != [] && below != []
    ensures !NoMark(Join(front + [Opening, Naming] + below, "\n"), Start)
  {
    NamesAreNames();
    var z := "\n" + Join(below, "\n");
    JoinAppend(front + [Opening, Naming], below, "\n");
    JoinAppend(front, [Opening, Naming], "\n");
    assert [Opening, Naming][1..] == [Naming];
    var x := Join(front, "\n") + "\nx: ";
    var s := Join(front + [Opening, Naming] + below, "\n");
    MarkAcross();
    assert s == x + (Word("\n", " ", Start) + z);
    assert s[|x|..] == Word("\n", " ", Start) + z;
    WordLength("\n", " ", z, Start);
  }

  /**
    Dropping the generated key between `x: <!--` and `AUTO-GENERATED:START -->` joins them
    to a start marker, at which a second merge cuts the text.
   */
  lemma {:induction false} JoinedMarkIsNotStable(generated: string, values: seq<string>, t: nat)
    requires InOrder(generated) && PrintedFront(generated, values, t)
    requires
      var gen := Blocks(FrontOf(LinesOf(generated)).body);
      !HasKey(gen, "x") && !HasKey(gen, Generated)
    ensures
      var existing := FileWith(Parted, generated);
      && InOrder(existing) && StableTriggers(Before(existing)) && !DashKey(Before(existing))
      && Merged(Merged(existing, generated), generated) != Merged(existing, generated)
  {
    var existing := FileWith(Parted, generated);
    PartedFront();
    PartedBlocks();
    PartedHasNoMarks();
    FileReads(Parted, generated);
    PartedIsGood(Before(existing));
    PartedMerged(generated, values, t, Before(existing));
    MarkedNotAgain(existing, generated, values, t);
  }

  lemma {:induction false} PartedIsGood(before: string)
    requires FrontOf(LinesOf(before)) == FrontMatter(Parted, [""])
    ensures StableTriggers(before) && !DashKey(before)
  {
    PartedBlocks();
    NoTriggersListed(Blocks(Parted));
    assert Opening[..3][0] == 'x';
  }

  lemma {:induction false} NoTriggersListed(blocks: seq<Block>)
    requires |blocks| == 3 && blocks[1] == Block(Triggers, ["triggers:"]) && blocks[0].key != Triggers
      && blocks[2].key != Triggers
    ensures TriggersOf(blocks) == []
  {
    TriggerLine();
    assert blocks[..2][1] == blocks[1];
    assert BlockOf(blocks[..2], Triggers) == Some(blocks[1]);
    EmptyList(blocks[1]);
  }

  lemma {:induction false} EmptyList(b: Block)
    requires b == Block(Triggers, ["triggers:"]) && AfterKey("triggers:") == ""
    ensures TriggerValues(b) == []
  {
    assert b.lines[1..] == [];
  }

  lemma {:induction false} PartedMerged(generated: string, values: seq<string>, t: nat, before: string)
    requires PrintedFront(generated, values, t) && FrontOf(LinesOf(before)) == FrontMatter(Parted, [""])
    requires
      var gen := Blocks(FrontOf(LinesOf(generated)).body);
      !HasKey(gen, "x") && !HasKey(gen, Generated)
    ensures !NoMark(MergeGeneratedFrontmatter(before, generated), Start)
  {
    var gen := Blocks(FrontOf(LinesOf(generated)).body);
    PrintedHasTriggers(gen, values, t);
    var front := PartedLines(gen);
    MergedIsEnclosed(before, generated, values, t);
    EnclosedJoined(front);
  }

  lemma {:induction false} PrintedHasTriggers(gen: seq<Block>, values: seq<string>, t: nat)
    requires Printed(gen, values, t)
    ensures HasKey(gen, Triggers)
  {
    assert gen[t].key == Triggers;
  }

  lemma {:induction false} MergedIsEnclosed(before: string, generated: string, values: seq<string>, t: nat)
    requires PrintedFront(generated, values, t) && FrontOf(LinesOf(before)).FrontMatter?
    ensures
      var gen, front := FrontOf(LinesOf(generated)).body, FrontOf(LinesOf(before));
      MergeGeneratedFrontmatter(before, generated) == Join(Enclosed(MergedBody(gen, front.body), front.rest), "\n")
  {
    BothFronts(before, generated, values, t);
  }

  lemma {:induction false} EnclosedJoined(front: seq<string>)
    ensures !NoMark(Join(Enclosed(front + [Opening, Naming], [""]), "\n"), Start)
  {
    assert Enclosed(front + [Opening, Naming], [""]) == (["---"] + front) + [Opening, Naming] + ["---", ""];
    JoinedMark(["---"] + front, ["---", ""]);
  }

  lemma {:induction false} PartedLines(gen: seq<Block>) returns (front: seq<string>)
    requires !HasKey(gen, "x") && !HasKey(gen, Generated) && HasKey(gen, Triggers)
    ensures AllLines(MergedBlocks(gen, Blocks(Parted))) == front + [Opening, Naming]
  {
    var blocks := Blocks(Parted);
    PartedBlocks();
    PartedKept(gen, blocks);
    var merged, rest := MergedGenerated(gen, TriggersOf(blocks)), ExistingOnly(gen, blocks);
    AllLinesAppend(merged, rest);
    front := AllLines(merged);
    assert rest[1..] == [blocks[2]] && [blocks[2]][1..] == [];
    assert AllLines(rest[1..]) == [Naming] + AllLines([]);
    assert AllLines(rest) == [Opening] + AllLines(rest[1..]) == [Opening, Naming];
  }

  lemma {:induction false} PartedKept(gen: seq<Block>, blocks: seq<Block>)
    requires !HasKey(gen, "x") && !HasKey(gen, Generated) && HasKey(gen, Triggers)
    requires blocks == [Block("x", [Opening]), Block(Triggers, ["triggers:"]), Block(Generated, [Naming])]
    ensures ExistingOnly(gen, blocks) == [blocks[0], blocks[2]]
  {
    assert blocks[1..][1..] == [blocks[2]] && [blocks[2]][1..] == [];
    assert ExistingOnly(gen, [blocks[2]]) == [blocks[2]] + [];
    assert ExistingOnly(gen, blocks[1..]) == [] + ExistingOnly(gen, [blocks[2]]);
  }
}
