/** Merging into a file that has no generated block yet: the block goes behind the text, once. */
module MergeAppend {
  import opened Lists
  import opened Strings
  import opened MergeContent
  import opened MergeFronts
  import opened MergeTwice

  /** One of the two markers occurs nowhere in a text. */
  ghost predicate Unmarked(s: string) {
    NoMark(s, Start) || NoMark(s, End)
  }

  /** The first start marker opens `block`, and the first end marker closes it. */
  ghost predicate IsBlock(s: string, block: string) {
    exists before, inner, mark, after ::
      && s == before + (inner + (mark + after)) && block == inner + mark
      && NoMark(before, Start) && NoMark(before, End) && NoMark(inner, End)
      && MarkLength(inner, Start) > 0 && MarkLength(mark, End) == |mark| > 0
  }

  lemma NoneFound(s: string, name: string)
    requires IsName(name) && NoMark(s, name)
    ensures FindMark(s, name) == Absent
  {
    FindMarkIsFirst(s, name);
  }

  lemma UnmarkedFindsNone(s: string)
    requires Unmarked(s)
    ensures FindMark(s, Start) == Absent || FindMark(s, End) == Absent
  {
    NamesAreNames();
    if NoMark(s, Start) {
      NoneFound(s, Start);
    } else {
      NoneFound(s, End);
    }
  }

  /** Without both markers the whole existing text stays, and the generated part is put on new lines behind it. */
  lemma UnmarkedKeepsText(existing: string, generated: string)
    requires Unmarked(existing)
    ensures exists part ::
      && Merged(existing, generated) == existing + ("\n" + part)
      && (InOrder(generated) ==> IsBlock(generated, part))
      && (Unmarked(generated) ==> part == generated)
  {
    UnmarkedFindsNone(existing);
    var part := AutoContent(generated);
    if InOrder(generated) {
      var before, inner, mark, after := Parts(generated);
      assert IsBlock(generated, part);
    }
    if Unmarked(generated) {
      UnmarkedFindsNone(generated);
    }
    assert Merged(existing, generated) == existing + ("\n" + part);
  }

  /** The end marker in front of the start marker ends before it. */
  lemma EndsBeforeStart(s: string, a: nat, b: nat)
    requires b < a < |s| && MarkLength(s[a..], Start) > 0
    ensures b + MarkLength(s[b..], End) <= a
  {
    NamesAreNames();
    MarkOpens(s[a..], Start);
    assert s[b..] == s[b..a] + s[a..];
    MarkLengthLocal(s[b..a], s[a..], End);
  }

  /** Generated text with its markers the wrong way round gives nothing. */
  lemma ReversedGivesNothing(generated: string, a: nat, b: nat)
    requires FindMark(generated, Start) == Position(a) && FindMark(generated, End) == Position(b) && b < a
    ensures AutoContent(generated) == ""
  {
    NamesAreNames();
    FindMarkIsFirst(generated, Start);
    EndsBeforeStart(generated, a, b);
  }

  lemma BreakHasNoMark(s: string, name: string)
    requires IsName(name) && NoMark(s, name)
    ensures NoMark(s + "\n", name)
  {
    forall i | 0 <= i < |s + "\n"| ensures MarkLength((s + "\n")[i..], name) == 0 {
      if i < |s| {
        assert (s + "\n")[i..] == s[i..] + "\n";
        if MarkLength(s[i..] + "\n", name) > 0 {
          MarkEndsBefore(s[i..], name);
        }
      } else {
        assert (s + "\n")[i..] == "\n";
      }
    }
  }

  /** A line feed at the end is in no marker. */
  lemma MarkEndsBefore(s: string, name: string)
    requires IsName(name) && MarkLength(s + "\n", name) > 0
    ensures MarkLength(s, name) > 0
  {
    var n := MarkLength(s + "\n", name);
    MarkIsWord(s + "\n", name);
    var a, b :| AllSpace(a) && AllSpace(b) && (s + "\n")[..n] == Word(a, b, name);
    var w := Word(a, b, name);
    WordParts(a, b, "", name);
    assert w + "" == w;
    assert w[|w| - 1] == '>';
    assert (s + "\n")[n - 1] == (s + "\n")[..n][n - 1] == '>';
    assert n <= |s|;
    assert s[..n] == w;
    WordLength(a, b, s[n..], name);
    assert s == w + s[n..];
  }

  /** The block appended to a text without markers is the only one in the file. */
  lemma OnceShape(existing: string, generated: string)
    requires NoMarks(existing) && InOrder(generated)
    ensures
      var once := Merged(existing, generated);
      once == (existing + "\n") + AutoContent(generated) && InOrder(once)
        && Before(once) == existing + "\n" && After(once) == ""
  {
    NamesAreNames();
    UnmarkedFindsNone(existing);
    BreakHasNoMark(existing, Start);
    BreakHasNoMark(existing, End);
    var front, auto := existing + "\n", AutoContent(generated);
    BlockAround(generated, front, "");
    assert auto + "" == auto;
    Associative(existing, "\n", auto);
  }

  lemma SameBlock(again: string, front: string, auto: string)
    ensures again + auto == front + auto <==> again == front
  {
    if again + auto == front + auto {
      SameFront(again, front, auto);
    }
  }

  /**
    A second merge into a file without markers appends no second block: it replaces the
    first one, and puts the generated front matter into the text above it.
   */
  lemma AppendedOnce(existing: string, generated: string)
    requires NoMarks(existing) && InOrder(generated)
    ensures Merged(Merged(existing, generated), generated)
      == MergeGeneratedFrontmatter(existing + "\n", generated) + AutoContent(generated)
    ensures Merged(Merged(existing, generated), generated) == Merged(existing, generated)
      <==> MergeGeneratedFrontmatter(existing + "\n", generated) == existing + "\n"
  {
    OnceShape(existing, generated);
    var auto := AutoContent(generated);
    MergedIs(Merged(existing, generated), generated);
    assert auto + "" == auto;
    SameBlock(MergeGeneratedFrontmatter(existing + "\n", generated), existing + "\n", auto);
  }
}
