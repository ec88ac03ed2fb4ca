/** Merging is local, and when it is idempotent: what a merge keeps, and what a second merge finds. */
module MergeTwice {
  import opened Wrappers
  import opened Lists
  import opened Strings
  import opened Frontmatter
  import opened MergeContent
  import opened MergeFronts

  // ------------------------------------------------- no markers in front matters

  /** Lines without the start of a comment, and below them a text without markers. */
  lemma {:induction false} NoMarkBelow(lines: seq<string>, text: string, name: string)
    requires IsName(name) && lines != [] && Without("<!--", lines) && NoMark(text, name)
    ensures NoMark(Join(lines, "\n") + ("\n" + text), name)
  {
    var front := Join(lines, "\n");
    var s := front + ("\n" + text);
    assert ['\n'] + "" == "\n";
    if Occurs("<!--", front) {
      OccursJoined("<!--", lines, '\n', "");
    }
    forall i | 0 <= i < |s| ensures MarkLength(s[i..], name) == 0 {
      if i > |front| {
        assert s[i..] == text[i - |front| - 1..];
      } else {
        NoCommentAt(front, text, i);
      }
    }
  }

  lemma {:induction false} NoCommentAt(front: string, text: string, i: nat)
    requires !Occurs("<!--", front) && i <= |front|
    ensures !StartsWith((front + ("\n" + text))[i..], "<!--")
  {
    var s := front + ("\n" + text);
    assert !At("<!--", front, i);
    if i + 4 <= |front| {
      assert s[i..][..4] == front[i..i + 4];
    } else if i + 4 <= |s| {
      assert s[i..][..4][|front| - i] == s[|front|] == '\n';
    }
  }

  lemma {:induction false} SuffixHasNoMark(t: string, s: string, name: string)
    requires IsSuffix(t, s) && NoMark(s, name)
    ensures NoMark(t, name)
  {
    forall i | 0 <= i < |t| ensures MarkLength(t[i..], name) == 0 {
      assert t[i..] == s[|s| - |t| + i..];
    }
  }

  lemma {:induction false} DashesWithout(body: seq<string>)
    requires Without("<!--", body)
    ensures Without("<!--", ["---"] + body + ["---"])
  {
    assert |"<!--"| == 4 && |"---"| == 3;
    assert !Occurs("<!--", "---");
  }

  /** Without the start of a comment in the merged lines, no marker stands above the block. */
  lemma {:induction false} MergedHasNoMark(before: string, generated: string, values: seq<string>, t: nat, name: string)
    requires IsName(name) && PrintedFront(generated, values, t) && NoMark(before, name)
    ensures
      var gen, front := FrontOf(LinesOf(generated)).body, FrontOf(LinesOf(before));
      (front.FrontMatter? ==> Without("<!--", MergedBody(gen, front.body)))
        ==> NoMark(MergeGeneratedFrontmatter(before, generated), name)
  {
    var gen, front := FrontOf(LinesOf(generated)).body, FrontOf(LinesOf(before));
    JoinSplit(before, '\n');
    if front.NoFront? {
      NoFrontOnce(before, generated, values, t);
      DashesWithout(gen);
      EnclosedText(gen, LinesOf(before));
      NoMarkBelow(["---"] + gen + ["---"], before, name);
    } else if Without("<!--", MergedBody(gen, front.body)) {
      var body := MergedBody(gen, front.body);
      BothFronts(before, generated, values, t);
      BelowIsSuffix(LinesOf(before));
      SuffixHasNoMark(Join(front.rest, "\n"), before, name);
      DashesWithout(body);
      EnclosedText(body, front.rest);
      NoMarkBelow(["---"] + body + ["---"], Join(front.rest, "\n"), name);
    }
  }

  /** Merging puts no marker above the block when the existing front matter has no comment. */
  lemma {:induction false} FrontHasNoMark(before: string, generated: string, values: seq<string>, t: nat, name: string)
    requires IsName(name) && PrintedFront(generated, values, t) && NoMark(before, name)
    requires FrontOf(LinesOf(before)).FrontMatter? ==> Without("<!--", FrontOf(LinesOf(before)).body)
    ensures NoMark(MergeGeneratedFrontmatter(before, generated), name)
  {
    ForeignMarks();
    MergedHasNoMark(before, generated, values, t, name);
    if FrontOf(LinesOf(before)).FrontMatter? {
      MergedBodyWithout("<!--", FrontOf(LinesOf(generated)).body, FrontOf(LinesOf(before)).body);
    }
  }

  // ------------------------------------------- a marker in a merged front matter

  /** The front matter without its closing line. */
  function Opened(body: seq<string>): string {
    Join(["---"] + body, "\n")
  }

  lemma {:induction false} HeadedOpened(body: seq<string>, below: string)
    ensures Headed(body, below) == Opened(body) + ("\n---\n" + below)
  {
    JoinAppend(["---"] + body, ["---"], "\n");
    assert (["---"] + body) + ["---"] == ["---"] + body + ["---"];
    Associative(Opened(body), "\n---", "\n" + below);
    assert "\n" + "---" == "\n---" && "\n---" + ("\n" + below) == "\n---\n" + below;
  }

  lemma {:induction false} NotOpened(s: string, i: nat, name: string)
    requires i < |s| && s[i] != '<'
    ensures MarkLength(s[i..], name) == 0
  {
    if MarkLength(s[i..], name) > 0 {
      MarkOpens(s[i..], name);
    }
  }

  /** A marker above text without markers starts in the lines of the front matter. */
  lemma {:induction false} MarkInLines(body: seq<string>, below: string, i: nat, name: string)
    requires NoMark(below, name) && i < |Headed(body, below)| && MarkLength(Headed(body, below)[i..], name) > 0
    ensures i < |Opened(body)| && Headed(body, below)[..i] == Opened(body)[..i]
  {
    var s, front, closing := Headed(body, below), Opened(body), "\n---\n";
    HeadedOpened(body, below);
    forall k | |front| <= k < |s| ensures MarkLength(s[k..], name) == 0 {
      if k < |front| + |closing| {
        assert s[k] == closing[k - |front|];
        NotOpened(s, k, name);
      } else {
        assert s[k..] == below[k - |front| - |closing|..];
      }
    }
  }

  /** Cut off in its lines, a front matter is none. */
  lemma {:induction false} CutHasNoFront(body: seq<string>, i: nat)
    requires AllHave(body, NoDash) && Without("\n", body) && i <= |Opened(body)|
    ensures FrontOf(LinesOf(Opened(body)[..i])).NoFront?
  {
    BreaksIff(body);
    SplitJoin(["---"] + body, '\n');
    PrefixLines(Opened(body), i);
    var lines := LinesOf(Opened(body)[..i]);
    forall k | 1 <= k < |lines| ensures NoDash(lines[k]) {
      assert LinesOf(Opened(body))[k] == body[k - 1];
      NoDashPrefix(body[k - 1], lines[k]);
    }
  }

  /** Cut off at a marker, a merged front matter does not become itself by merging and going on. */
  lemma {:induction false} MarkNotAgain(before: string, generated: string, values: seq<string>, t: nat,
                                        i: nat, name: string, more: string)
    requires IsName(name) && PrintedFront(generated, values, t) && NoMark(before, name)
    requires var once := MergeGeneratedFrontmatter(before, generated); i < |once| && MarkLength(once[i..], name) > 0
    ensures
      var once := MergeGeneratedFrontmatter(before, generated);
      once != MergeGeneratedFrontmatter(once[..i], generated) + more
  {
    var once := MergeGeneratedFrontmatter(before, generated);
    MergedHasNoDashKey(before, generated, values, t, i);
    var body, below := MergesHeaded(once[..i], generated, values, t);
    HeadedOn(body, below, more);
    if DashKey(before) {
      DashKeyCloses(before, generated, values, t, body, below + more);
    } else {
      var now, rest := MergesHeaded(before, generated, values, t);
      MergedHasNoMark(before, generated, values, t, name);
      BelowHasNoMark(before, name);
      MarkInLines(now, rest, i, name);
      CutHasNoFront(now, i);
      HeadedFront(now, rest);
      HeadedFront(body, below + more);
    }
  }

  lemma {:induction false} HeadedOn(body: seq<string>, below: string, more: string)
    ensures Headed(body, below) + more == Headed(body, below + more)
  {
    var front := Join(["---"] + body + ["---"], "\n");
    Associative(front, "\n" + below, more);
    Associative("\n", below, more);
  }

  lemma {:induction false} BelowHasNoMark(before: string, name: string)
    requires NoMark(before, name)
    ensures FrontOf(LinesOf(before)).FrontMatter? ==> NoMark(Join(FrontOf(LinesOf(before)).rest, "\n"), name)
  {
    if FrontOf(LinesOf(before)).FrontMatter? {
      JoinSplit(before, '\n');
      BelowIsSuffix(LinesOf(before));
      SuffixHasNoMark(Join(FrontOf(LinesOf(before)).rest, "\n"), before, name);
    }
  }

  // ------------------------------------------- the lines the existing file has a part in

  /**
    Of two front matters, the lines of the merged one that the existing file has a part in:
    the trigger list, and below it the other generated lines and those that are kept.
   */
  function KeptLines(generated: seq<Block>, existing: seq<Block>, values: seq<string>, t: nat): seq<string>
    requires t < |generated|
  {
    TriggerBlock(Union(values, existing)).lines + (AllLines(generated[t + 1..])
      + AllLines(ExistingOnly(generated, existing)))
  }

  /** These lines as text hold no marker; without an existing front matter there are none. */
  ghost predicate JoinsNoMark(before: string, generated: string, values: seq<string>, t: nat)
    requires PrintedFront(generated, values, t)
  {
    var gen, front := Blocks(FrontOf(LinesOf(generated)).body), FrontOf(LinesOf(before));
    front.FrontMatter? ==> NoMarks(Join(KeptLines(gen, Blocks(front.body), values, t), "\n"))
  }

  /** Neither marker in a text. */
  ghost predicate NoMarks(s: string) {
    NoMark(s, Start) && NoMark(s, End)
  }

  lemma OneChanged<T>(a: seq<T>, b: seq<T>, t: nat)
    requires |a| == |b| && t < |a| && forall i :: 0 <= i < |a| && i != t ==> a[i] == b[i]
    ensures a == b[..t] + ([a[t]] + b[t + 1..])
  {
  }

  /** The lines above them are generated. */
  lemma {:induction false} MergedLines(generated: seq<Block>, existing: seq<Block>, values: seq<string>, t: nat)
    requires Printed(generated, values, t)
    ensures AllLines(MergedBlocks(generated, existing))
         == AllLines(generated[..t]) + KeptLines(generated, existing, values, t)
  {
    var known := TriggersOf(existing);
    var merged, rest := MergedGenerated(generated, known), ExistingOnly(generated, existing);
    MergedTriggers(generated, values, t, existing);
    OneChanged(merged, generated, t);
    AllLinesAppend(merged, rest);
    AroundBlock(generated[..t], TriggerBlock(Union(values, existing)), generated[t + 1..], AllLines(rest));
  }

  lemma {:induction false} AroundBlock(a: seq<Block>, b: Block, c: seq<Block>, rest: seq<string>)
    ensures AllLines(a + ([b] + c)) + rest == AllLines(a) + (b.lines + (AllLines(c) + rest))
  {
    AllLinesAppend(a, [b] + c);
    AllLinesAppend([b], c);
    OneBlock(b);
    Associative(AllLines(a), b.lines + AllLines(c), rest);
    Associative(b.lines, AllLines(c), rest);
  }

  lemma {:induction false} OneBlock(b: Block)
    ensures AllLines([b]) == b.lines
  {
    assert [b][1..] == [] && AllLines([]) == [] && b.lines + [] == b.lines;
  }

  /** A line of dashes below ends no marker. */
  lemma {:induction false} DashesEndNoMark(x: string, z: string, name: string)
    requires IsName(name) && name[0] != '-' && '\n' !in name && x != ""
    ensures MarkLength(x + ("\n---" + z), name) > 0 ==> MarkLength(x, name) > 0
  {
    var y := "\n---" + z;
    StartsWithin(x, y, "<!--");
    if StartsWith(x, "<!--") {
      assert (x + y)[4..] == x[4..] + y;
      if MarkLength(x + y, name) > 0 {
        NameBeforeDashes(x[4..], z, name);
      }
    }
  }

  lemma {:induction false} DashesLead(z: string)
    ensures TrimStart("\n---" + z) == "---" + z && !StartsWith("---" + z, "-->")
  {
    var y := "\n---" + z;
    assert y[1..] == "---" + z;
    assert ("---" + z)[..3][2] == '-';
  }

  /** After the opening: the name and the end of a marker are found in front of the dashes, or not at all. */
  lemma {:induction false} NameBeforeDashes(x: string, z: string, name: string)
    requires IsName(name) && name[0] != '-' && '\n' !in name
    requires
      var t := TrimStart(x + ("\n---" + z));
      StartsWith(t, name) && StartsWith(TrimStart(t[|name|..]), "-->")
    ensures
      var t := TrimStart(x);
      StartsWith(t, name) && StartsWith(TrimStart(t[|name|..]), "-->")
  {
    var y := "\n---" + z;
    SpacesThenDashes(x, z);
    var t := TrimStart(x);
    assert t == "" ==> !StartsWith("---" + z, name) by {
      assert |name| <= |"---" + z| ==> ("---" + z)[..|name|][0] == '-';
    }
    if t != "" {
      StartsWithin(t, y, name);
      assert (t + y)[|name|..] == t[|name|..] + y;
      SpacesThenDashes(t[|name|..], z);
      var u := TrimStart(t[|name|..]);
      if u != "" {
        StartsWithin(u, y, "-->");
      }
    }
  }

  /** Trimming stops in front of the line of dashes. */
  lemma {:induction false} SpacesThenDashes(x: string, z: string)
    ensures TrimStart(x + ("\n---" + z)) == if TrimStart(x) == "" then "---" + z else TrimStart(x) + ("\n---" + z)
    ensures !StartsWith("---" + z, "-->")
  {
    DashesLead(z);
    if x == "" {
      assert x + ("\n---" + z) == "\n---" + z;
    } else if IsSpace(x[0]) {
      SpacesThenDashes(x[1..], z);
      assert (x + ("\n---" + z))[1..] == x[1..] + ("\n---" + z);
    }
  }

  /** Behind lines without comments, and above a closing line and text without markers, only these lines count. */
  lemma {:induction false} OnlyTheseLines(front: seq<string>, kept: seq<string>, below: string, name: string)
    requires IsName(name) && name[0] != '-' && '\n' !in name && NoMark(below, name)
    requires Without("<!--", front) && kept != []
    ensures NoMark(Headed(front + kept, below), name) <==> NoMark(Join(kept, "\n"), name)
  {
    var lines, k, closing := ["---"] + front, Join(kept, "\n"), "\n---\n";
    var text := k + (closing + below);
    SplitHeaded(front, kept, below);
    OpenWithout(front);
    var s := Join(lines, "\n") + ("\n" + text);
    if NoMark(k, name) {
      forall i | 0 <= i < |text| ensures MarkLength(text[i..], name) == 0 {
        KeptThenClosing(k, below, name, i);
      }
      NoMarkBelow(lines, text, name);
    }
    if NoMark(s, name) {
      forall i | 0 <= i < |k| ensures MarkLength(k[i..], name) == 0 {
        var n := |Join(lines, "\n")| + 1 + i;
        InText(Join(lines, "\n"), k, closing + below, i);
        if MarkLength(k[i..], name) > 0 {
          MarkGoesOn(k[i..], closing + below, name);
        }
        assert MarkLength(s[n..], name) == 0;
      }
    }
  }

  lemma InText(a: string, k: string, z: string, i: nat)
    requires i <= |k|
    ensures (a + ("\n" + (k + z)))[|a| + 1 + i..] == k[i..] + z
  {
    var s := a + ("\n" + (k + z));
    assert s[|a|..] == "\n" + (k + z);
    assert s[|a| + 1..] == k + z;
    assert s[|a| + 1 + i..] == s[|a| + 1..][i..];
  }

  lemma {:induction false} OpenWithout(front: seq<string>)
    requires Without("<!--", front)
    ensures Without("<!--", ["---"] + front)
  {
    assert |"<!--"| == 4 && |"---"| == 3;
    assert !Occurs("<!--", "---");
  }

  lemma {:induction false} SplitHeaded(front: seq<string>, kept: seq<string>, below: string)
    requires kept != []
    ensures Headed(front + kept, below)
         == Join(["---"] + front, "\n") + ("\n" + (Join(kept, "\n") + ("\n---\n" + below)))
  {
    var a, k, z := Join(["---"] + front, "\n"), Join(kept, "\n"), "\n---\n" + below;
    HeadedOpened(front + kept, below);
    assert ["---"] + (front + kept) == (["---"] + front) + kept;
    JoinAppend(["---"] + front, kept, "\n");
    Associative(a, "\n" + k, z);
    Associative("\n", k, z);
  }

  lemma {:induction false} KeptThenClosing(k: string, below: string, name: string, i: nat)
    requires IsName(name) && name[0] != '-' && '\n' !in name && NoMark(k, name) && NoMark(below, name)
    requires i < |k + ("\n---\n" + below)|
    ensures MarkLength((k + ("\n---\n" + below))[i..], name) == 0
  {
    var closing := "\n---\n";
    var s := k + (closing + below);
    if i < |k| {
      assert s[i..] == k[i..] + (closing + below);
      assert closing + below == "\n---" + ("\n" + below);
      DashesEndNoMark(k[i..], "\n" + below, name);
    } else if i < |k| + |closing| {
      assert s[i] == closing[i - |k|];
      NotOpened(s, i, name);
    } else {
      assert s[i..] == below[i - |k| - |closing|..];
    }
  }

  /** The merged front matter has a marker exactly when the lines the existing file has a part in do. */
  lemma {:induction false} JoinsNoMarkIff(before: string, generated: string, values: seq<string>, t: nat)
    requires PrintedFront(generated, values, t) && NoMarks(before)
    ensures NoMarks(MergeGeneratedFrontmatter(before, generated)) <==> JoinsNoMark(before, generated, values, t)
  {
    NamesAreNames();
    if FrontOf(LinesOf(before)).NoFront? {
      MergedHasNoMark(before, generated, values, t, Start);
      MergedHasNoMark(before, generated, values, t, End);
    } else {
      NamesStand();
      KeptHasMark(before, generated, values, t, Start);
      KeptHasMark(before, generated, values, t, End);
    }
  }

  lemma {:induction false} NamesStand()
    ensures Start[0] != '-' && End[0] != '-' && '\n' !in Start && '\n' !in End
  {
  }

  lemma {:induction false} KeptHasMark(before: string, generated: string, values: seq<string>, t: nat, name: string)
    requires PrintedFront(generated, values, t) && FrontOf(LinesOf(before)).FrontMatter?
    requires IsName(name) && name[0] != '-' && '\n' !in name && NoMark(before, name)
    ensures
      var gen, was := Blocks(FrontOf(LinesOf(generated)).body), Blocks(FrontOf(LinesOf(before)).body);
      NoMark(MergeGeneratedFrontmatter(before, generated), name) <==>
        NoMark(Join(KeptLines(gen, was, values, t), "\n"), name)
  {
    var gen, front := Blocks(FrontOf(LinesOf(generated)).body), FrontOf(LinesOf(before));
    var a, k := AllLines(gen[..t]), KeptLines(gen, Blocks(front.body), values, t);
    KeptText(before, generated, values, t, a, k);
    GeneratedWithout(generated, values, t);
    BelowHasNoMark(before, name);
    OnlyTheseLines(a, k, Join(front.rest, "\n"), name);
  }

  lemma {:induction false} KeptText(before: string, generated: string, values: seq<string>, t: nat,
                                    a: seq<string>, k: seq<string>)
    requires PrintedFront(generated, values, t) && FrontOf(LinesOf(before)).FrontMatter?
    requires a == AllLines(Blocks(FrontOf(LinesOf(generated)).body)[..t])
    requires k == KeptLines(Blocks(FrontOf(LinesOf(generated)).body), Blocks(FrontOf(LinesOf(before)).body), values, t)
    ensures MergeGeneratedFrontmatter(before, generated) == Headed(a + k, Join(FrontOf(LinesOf(before)).rest, "\n"))
  {
    var gen, front := FrontOf(LinesOf(generated)).body, FrontOf(LinesOf(before));
    MergedLines(Blocks(gen), Blocks(front.body), values, t);
    BothFronts(before, generated, values, t);
    EnclosedText(a + k, front.rest);
  }

  lemma {:induction false} GeneratedWithout(generated: string, values: seq<string>, t: nat)
    requires PrintedFront(generated, values, t)
    ensures Without("<!--", AllLines(Blocks(FrontOf(LinesOf(generated)).body)[..t]))
  {
    var gen := Blocks(FrontOf(LinesOf(generated)).body);
    assert gen == gen[..t] + gen[t..];
    AllLinesAppend(gen[..t], gen[t..]);
    var all, front := AllLines(gen), AllLines(gen[..t]);
    forall i | 0 <= i < |front| ensures !Occurs("<!--", front[i]) {
      assert all[i] == front[i];
    }
  }

  // ---------------------------------------------------------------- the claims

  lemma {:induction false} AroundMarks(front: string, block: string, mark: string, after: string)
    requires NoMark(front, Start) && NoMark(front, End) && NoMark(block, End)
    requires MarkLength(block, Start) > 0 && MarkLength(mark, End) == |mark| > 0
    ensures var s := front + ((block + mark) + after); InOrder(s) && Before(s) == front && After(s) == after
  {
    MergedMarks(front, block, mark, after);
    Associative(block, mark, after);
    MarkOpens(block, Start);
  }

  lemma {:induction false} MergedIs(existing: string, generated: string)
    requires InOrder(existing)
    ensures Merged(existing, generated) == MergeGeneratedFrontmatter(Before(existing), generated)
      + (AutoContent(generated) + After(existing))
  {
  }

  /** Merging texts with their markers in order, given what the front matters merge to. */
  lemma {:induction false} MergedShape(existing: string, generated: string, front: string)
    requires InOrder(existing) && InOrder(generated)
    requires front == MergeGeneratedFrontmatter(Before(existing), generated) && NoMark(front, Start)
      && NoMark(front, End)
    ensures Merged(existing, generated) == front + (AutoContent(generated) + After(existing))
    ensures
      var merged := Merged(existing, generated);
      InOrder(merged) && Before(merged) == front && After(merged) == After(existing)
  {
    MergedIs(existing, generated);
    BlockAround(generated, front, After(existing));
  }

  lemma {:induction false} BlockAround(generated: string, front: string, after: string)
    requires InOrder(generated) && NoMark(front, Start) && NoMark(front, End)
    ensures var s := front + (AutoContent(generated) + after); InOrder(s) && Before(s) == front && After(s) == after
  {
    var gBefore, block, mark, gAfter := Parts(generated);
    AroundMarks(front, block, mark, after);
  }

  lemma {:induction false} BeforeHasNoMark(s: string)
    requires InOrder(s)
    ensures NoMark(Before(s), Start) && NoMark(Before(s), End)
  {
    var before, block, mark, after := Parts(s);
  }

  /** What a merge puts in front of the block. */
  function FrontMerged(existing: string, generated: string): string
    requires FindMark(existing, Start).Position?
  {
    MergeGeneratedFrontmatter(Before(existing), generated)
  }

  /** With a marker in front, the first marker of a text is there. */
  lemma {:induction false} FindInside(front: string, rest: string, name: string)
    requires IsName(name) && !NoMark(front, name) && rest != "" && rest[0] == '<'
    ensures
      && FindMark(front + rest, name).Position?
      && var i := FindMark(front + rest, name).index;
         && i < |front| && (front + rest)[..i] == front[..i]
         && 0 < MarkLength(front[i..], name) == MarkLength((front + rest)[i..], name) <= |front| - i
  {
    FindMarkIsFirst(front + rest, name);
    var k :| 0 <= k < |front| && MarkLength(front[k..], name) != 0;
    MarkInFrontOf(front, rest, name, k);
    var i := FindMark(front + rest, name).index;
    MarkInFrontOf(front, rest, name, i);
  }

  lemma {:induction false} MarkInFrontOf(front: string, rest: string, name: string, i: nat)
    requires IsName(name) && i < |front| && rest != "" && rest[0] == '<'
    ensures MarkLength((front + rest)[i..], name) == MarkLength(front[i..], name) <= |front| - i
  {
    assert (front + rest)[i..] == front[i..] + rest;
    MarkLengthLocal(front[i..], rest, name);
  }

  lemma {:induction false} AutoOpens(generated: string, after: string)
    requires InOrder(generated)
    ensures var rest := AutoContent(generated) + after; rest != "" && rest[0] == '<' && MarkLength(rest, Start) > 0
  {
    NamesAreNames();
    var before, block, mark, gAfter := Parts(generated);
    Associative(block, mark, after);
    MarkOpens(block, Start);
    MarkOpens(mark, End);
    MarkLengthLocal(block, mark + after, Start);
  }

  /**
    What a merge gives: the merged front matter on the existing text above the block, the
    generated block, and the text below it unchanged. The markers of the result are those
    of the block, in order, if and only if none stands in the merged front matter.
   */
  lemma {:induction false} MergedParts(existing: string, generated: string)
    requires InOrder(existing) && InOrder(generated)
    ensures
      var merged, front := Merged(existing, generated), FrontMerged(existing, generated);
      && merged == front + (AutoContent(generated) + After(existing))
      && (NoMarks(front) <==> InOrder(merged) && Before(merged) == front && After(merged) == After(existing))
  {
    NamesAreNames();
    MergedIs(existing, generated);
    AutoOpens(generated, After(existing));
    var merged, front := Merged(existing, generated), FrontMerged(existing, generated);
    if NoMarks(front) {
      MergedShape(existing, generated, front);
    } else {
      var rest := AutoContent(generated) + After(existing);
      if !NoMark(front, Start) {
        FindInside(front, rest, Start);
      } else {
        FindInside(front, rest, End);
        FindAfter(front, rest, Start);
      }
    }
  }

  /** The text in front of the first start marker of a merged text. */
  lemma {:induction false} CutFront(front: string, rest: string) returns (i: nat)
    requires rest != "" && rest[0] == '<' && MarkLength(rest, Start) > 0
    ensures i <= |front| && FindMark(front + rest, Start) == Position(i) && (front + rest)[..i] == front[..i]
    ensures if NoMark(front, Start) then i == |front| else i < |front| && MarkLength(front[i..], Start) > 0
  {
    NamesAreNames();
    if NoMark(front, Start) {
      FindAfter(front, rest, Start);
      i := |front|;
      assert (front + rest)[..i] == front == front[..i];
    } else {
      FindInside(front, rest, Start);
      i := FindMark(front + rest, Start).index;
    }
  }

  /** The text behind the first end marker, when that stands in front of the block. */
  lemma {:induction false} EndInside(front: string, rest: string) returns (tail: string)
    requires rest != "" && rest[0] == '<' && !NoMark(front, End)
    ensures FindMark(front + rest, End).Position? && After(front + rest) == tail + rest
  {
    NamesAreNames();
    FindInside(front, rest, End);
    var e := FindMark(front + rest, End).index;
    var n := MarkLength(front[e..], End);
    AfterIs(front + rest, e);
    tail := front[e + n..];
    assert (front + rest)[e + n..] == tail + rest;
  }

  lemma {:induction false} SecondIs(once: string, generated: string, i: nat)
    requires FindMark(once, Start) == Position(i) && FindMark(once, End).Position? && i <= |once|
    ensures Merged(once, generated) == MergeGeneratedFrontmatter(once[..i], generated)
      + (AutoContent(generated) + After(once))
  {
  }

  lemma {:induction false} Cancel(a: string, b: string, auto: string, tail: string, after: string)
    requires a + (auto + (tail + (auto + after))) == b + (auto + after)
    ensures b == a + (auto + tail)
  {
    Associative(a, auto + tail, auto + after);
    Associative(auto, tail, auto + after);
    SameFront(a + (auto + tail), b, auto + after);
  }

  /** An end marker in the merged front matter, but no start marker: a second merge changes the text. */
  lemma {:induction false} EndNotAgain(front: string, second: string, generated: string, tail: string)
    requires InOrder(generated) && NoMark(front, Start)
    ensures front != second + (AutoContent(generated) + tail)
  {
    AutoOpens(generated, tail);
    var rest := AutoContent(generated) + tail;
    assert (second + rest)[|second|..] == rest;
  }

  /** A marker in the merged front matter: a second merge changes the text. */
  lemma {:induction false} MarkedNotAgain(existing: string, generated: string, values: seq<string>, t: nat)
    requires InOrder(existing) && InOrder(generated) && PrintedFront(generated, values, t)
    requires !NoMarks(FrontMerged(existing, generated))
    ensures Merged(Merged(existing, generated), generated) != Merged(existing, generated)
  {
    NamesAreNames();
    BeforeHasNoMark(existing);
    MergedParts(existing, generated);
    var auto, after, front := AutoContent(generated), After(existing), FrontMerged(existing, generated);
    AutoOpens(generated, after);
    var once := Merged(existing, generated);
    var i := CutFront(front, auto + after);
    var second := MergeGeneratedFrontmatter(front[..i], generated);
    if NoMark(front, End) {
      EndBehind(front, generated, after);
      SecondIs(once, generated, i);
      SameFront(second, front, auto + after);
      MarkNotAgain(Before(existing), generated, values, t, i, Start, "");
      assert second + "" == second;
    } else {
      var tail := EndInside(front, auto + after);
      SecondIs(once, generated, i);
      if NoMark(front, Start) {
        EndNotAgain(front, second, generated, tail);
      } else {
        MarkNotAgain(Before(existing), generated, values, t, i, Start, auto + tail);
      }
      if Merged(once, generated) == once {
        Cancel(second, front, auto, tail, after);
      }
    }
  }

  lemma {:induction false} EndBehind(front: string, generated: string, after: string)
    requires InOrder(generated) && NoMark(front, End)
    ensures
      var s := front + (AutoContent(generated) + after);
      FindMark(s, End).Position? && After(s) == after
  {
    var gBefore, block, mark, gAfter := Parts(generated);
    MarkOpens(block, Start);
    EndMark(front, block, mark, after);
    Associative(block, mark, after);
  }

  /**
    A second merge of the same generated text changes nothing if and only if every trigger
    of the existing file is one that its printed line is read as, its front matter does not
    start with a key that would close it, and the trigger list and the lines below it that
    are generated or kept join no marker.
   */
  lemma {:induction false} MergeIsIdempotentIff(existing: string, generated: string, values: seq<string>, t: nat)
    requires InOrder(existing) && InOrder(generated) && PrintedFront(generated, values, t)
    ensures Merged(Merged(existing, generated), generated) == Merged(existing, generated)
       <==> StableTriggers(Before(existing)) && !DashKey(Before(existing))
              && JoinsNoMark(Before(existing), generated, values, t)
  {
    BeforeHasNoMark(existing);
    JoinsNoMarkIff(Before(existing), generated, values, t);
    if NoMarks(FrontMerged(existing, generated)) {
      MergedParts(existing, generated);
      FrontTwiceIff(Before(existing), generated, values, t);
      TwiceByFront(existing, generated);
    } else {
      MarkedNotAgain(existing, generated, values, t);
    }
  }

  /** Without comments in the existing front matter no marker is joined. */
  lemma {:induction false} NoCommentNoMarks(existing: string, generated: string, values: seq<string>, t: nat)
    requires InOrder(existing) && PrintedFront(generated, values, t)
    requires
      var front := FrontOf(LinesOf(Before(existing)));
      front.FrontMatter? ==> Without("<!--", front.body)
    ensures NoMarks(FrontMerged(existing, generated)) && JoinsNoMark(Before(existing), generated, values, t)
  {
    NamesAreNames();
    BeforeHasNoMark(existing);
    FrontHasNoMark(Before(existing), generated, values, t, Start);
    FrontHasNoMark(Before(existing), generated, values, t, End);
    JoinsNoMarkIff(Before(existing), generated, values, t);
  }

  lemma {:induction false} TwiceByFront(existing: string, generated: string)
    requires
      var once := Merged(existing, generated);
      && InOrder(once) && once == Before(once) + (AutoContent(generated) + After(once))
    ensures
      var once := Merged(existing, generated);
      Merged(once, generated) == once <==> MergeGeneratedFrontmatter(Before(once), generated) == Before(once)
  {
    var once := Merged(existing, generated);
    MergedIs(once, generated);
    SameFront(MergeGeneratedFrontmatter(Before(once), generated), Before(once), AutoContent(generated) + After(once));
  }

  lemma {:induction false} SameFront(a: string, b: string, rest: string)
    ensures a + rest == b + rest <==> a == b
  {
    if a + rest == b + rest {
      assert |a| == |b|;
      assert (a + rest)[..|a|] == a && (b + rest)[..|b|] == b;
    }
  }

  /** Every block the merged front matter keeps, and its one trigger list. */
  ghost predicate Kept(generated: seq<Block>, existing: seq<Block>, values: seq<string>, now: seq<Block>) {
    && (forall b :: b in existing && !HasKey(generated, b.key) ==> b in now)
    && (forall i :: 0 <= i < |generated| ==> generated[i].key == Triggers || generated[i] in now)
    && BlockOf(now, Triggers) == Some(TriggerBlock(Union(values, existing)))
  }

  lemma {:induction false} MergedKept(generated: seq<Block>, existing: seq<Block>, values: seq<string>, t: nat)
    requires Printed(generated, values, t)
    ensures Kept(generated, existing, values, MergedBlocks(generated, existing))
  {
    var blocks := MergedBlocks(generated, existing);
    var rest := ExistingOnly(generated, existing);
    ExistingOnlyMembers(generated, existing);
    forall b | b in existing && !HasKey(generated, b.key) ensures b in blocks {
      assert b in rest;
    }
    forall i | 0 <= i < |generated| ensures generated[i].key == Triggers || generated[i] in blocks {
      assert blocks[i] == MergedBlock(generated[i], TriggersOf(existing));
    }
    MergedTriggers(generated, values, t, existing);
    forall i | 0 <= i < |blocks| && i != t ensures blocks[i].key != Triggers {
      OtherKeys(generated, existing, values, t, i);
    }
    BlockOfOnly(blocks, Triggers, t);
  }

  lemma {:induction false} OtherKeys(generated: seq<Block>, existing: seq<Block>, values: seq<string>, t: nat, i: nat)
    requires Printed(generated, values, t) && i < |MergedBlocks(generated, existing)| && i != t
    ensures MergedBlocks(generated, existing)[i].key != Triggers
  {
    if i < |generated| {
      MergedKeys(generated, TriggersOf(existing), i);
    } else {
      var b := ExistingOnly(generated, existing)[i - |generated|];
      ExistingOnlyMembers(generated, existing);
      assert b in ExistingOnly(generated, existing);
      assert HasKey(generated, generated[t].key);
    }
  }

  /**
    What a merge keeps of a file with a front matter: every block whose key is not
    generated, the triggers of both, generated ones first, without repetitions, and the
    text below the front matter and below the block. The printed blocks are read back as
    they are; as a front matter, if and only if no key that starts with `---` comes first.
   */
  lemma {:induction false} MergeIsLocal(existing: string, generated: string, values: seq<string>, t: nat)
    requires InOrder(existing) && InOrder(generated) && PrintedFront(generated, values, t)
    requires FrontOf(LinesOf(Before(existing))).FrontMatter?
    ensures
      var gen, was := Blocks(FrontOf(LinesOf(generated)).body), FrontOf(LinesOf(Before(existing)));
      var blocks, front := MergedBlocks(gen, Blocks(was.body)), FrontMerged(existing, generated);
      && Kept(gen, Blocks(was.body), values, blocks) && Blocks(AllLines(blocks)) == blocks
      && front == Join(Enclosed(AllLines(blocks), was.rest), "\n")
      && Merged(existing, generated) == front + (AutoContent(generated) + After(existing))
      && (FrontOf(LinesOf(front)) == FrontMatter(AllLines(blocks), was.rest) <==> !DashKey(Before(existing)))
  {
    var before := Before(existing);
    MergedIs(existing, generated);
    BothFronts(before, generated, values, t);
    MergedKept(Blocks(FrontOf(LinesOf(generated)).body), Blocks(FrontOf(LinesOf(before)).body), values, t);
    if DashKey(before) {
      DashKeyCutsFront(before, generated, values, t);
    } else {
      FrontReads(before, generated, values, t);
    }
  }

  /** The key that starts with `---` closes the merged front matter before its other lines. */
  lemma {:induction false} DashKeyCutsFront(before: string, generated: string, values: seq<string>, t: nat)
    requires PrintedFront(generated, values, t) && DashKey(before)
    ensures
      var gen, was := FrontOf(LinesOf(generated)).body, FrontOf(LinesOf(before));
      FrontOf(LinesOf(MergeGeneratedFrontmatter(before, generated))) != FrontMatter(MergedBody(gen, was.body), was.rest)
  {
    var gen, was := FrontOf(LinesOf(generated)).body, FrontOf(LinesOf(before));
    var front, more := DashKeyKept(before, generated, values, t);
    BothFronts(before, generated, values, t);
    ClosesEarly(front, was.body[0], more, was.rest);
  }

  lemma {:induction false} ClosesEarly(front: seq<string>, x: string, more: seq<string>, rest: seq<string>)
    requires front != [] && AllHave(front, NoDash) && !NoDash(x)
    ensures FrontOf(Enclosed(front + ([x] + more), rest)).FrontMatter?
         && FrontOf(Enclosed(front + ([x] + more), rest)).body == front
  {
    var lines := Enclosed(front + ([x] + more), rest);
    assert lines[|front| + 1] == x;
    forall k | 2 <= k < |front| + 1 ensures NoDash(lines[k]) {
      assert lines[k] == front[k - 1];
    }
    assert lines[1..|front| + 1] == front;
  }
}
