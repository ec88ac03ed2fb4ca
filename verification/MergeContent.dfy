/**
  Merging a generated skill file into an existing one: the generated block replaces the
  one between the markers, the front matters are merged, the rest stays.
 */
module MergeContent {
  import opened Lists
  import opened Strings
  import opened Frontmatter

  const Start := "AUTO-GENERATED:START"
  const End := "AUTO-GENERATED:END"

  // ------------------------------------------------------------------- markers

  /** The length of a marker at the start of a text, none being 0. White space around the name does not matter. */
  function MarkLength(s: string, name: string): (n: nat)
    ensures n <= |s|
  {
    if !StartsWith(s, "<!--") then 0
    else
      var t := TrimStart(s[4..]);
      if !StartsWith(t, name) then 0
      else
        var u := TrimStart(t[|name|..]);
        if !StartsWith(u, "-->") then 0 else |s| - |u| + 3
  }

  /** Where the first marker stands. */
  function FindMark(s: string, name: string): (r: Position)
    ensures r.Position? ==> r.index <= |s|
  {
    if MarkLength(s, name) > 0 then Position(0)
    else if s == "" then Absent
    else match FindMark(s[1..], name) case Absent => Absent case Position(i) => Position(i + 1)
  }

  /** A name that can stand in a marker. */
  predicate IsName(name: string) {
    name != "" && !IsSpace(name[0]) && '<' !in name
  }

  lemma {:induction false} NamesAreNames()
    ensures IsName(Start) && IsName(End)
  {
  }

  lemma {:induction false} TrimStartIsSuffix(s: string)
    ensures |TrimStart(s)| <= |s| && TrimStart(s) == s[|s| - |TrimStart(s)|..]
    ensures TrimStart(s) != "" ==> !IsSpace(TrimStart(s)[0])
    ensures forall i :: 0 <= i < |s| - |TrimStart(s)| ==> IsSpace(s[i])
  {
    if s != "" && IsSpace(s[0]) {
      TrimStartIsSuffix(s[1..]);
      var t := TrimStart(s[1..]);
      assert s[1..][|s[1..]| - |t|..] == s[|s| - |t|..];
      forall i | 0 <= i < |s| - |t| ensures IsSpace(s[i]) {
        assert i > 0 ==> s[i] == s[1..][i - 1];
      }
    }
  }

  lemma {:induction false} TrimStartAppend(s: string, y: string)
    requires y != "" && !IsSpace(y[0])
    ensures TrimStart(s + y) == TrimStart(s) + y
  {
    if s == "" {
      assert s + y == y;
    } else if IsSpace(s[0]) {
      TrimStartAppend(s[1..], y);
      assert (s + y)[1..] == s[1..] + y;
    }
  }

  lemma {:induction false} StartsWithin(x: string, y: string, p: string)
    requires y != "" && (y[0] !in p || |p| <= |x|)
    ensures StartsWith(x + y, p) <==> StartsWith(x, p)
  {
    if |p| <= |x| {
      assert (x + y)[..|p|] == x[..|p|];
    } else if |p| <= |x + y| {
      assert (x + y)[..|p|][|x|] == y[0];
    }
  }

  /** A marker that starts before a `<` ends before it. */
  lemma {:induction false} MarkLengthLocal(x: string, y: string, name: string)
    requires IsName(name) && x != "" && y != "" && y[0] == '<'
    ensures MarkLength(x + y, name) == MarkLength(x, name) <= |x|
  {
    if |x| >= 4 {
      StartsWithin(x, y, "<!--");
      assert (x + y)[4..] == x[4..] + y;
      TrimStartIsSuffix(x[4..]);
      TrimStartAppend(x[4..], y);
      var t := TrimStart(x[4..]);
      StartsWithin(t, y, name);
      if StartsWith(t, name) {
        assert (t + y)[|name|..] == t[|name|..] + y;
        TrimStartIsSuffix(t[|name|..]);
        TrimStartAppend(t[|name|..], y);
        StartsWithin(TrimStart(t[|name|..]), y, "-->");
      }
    } else {
      assert |x| < 4;
      if |x + y| >= 4 {
        assert (x + y)[..4][|x|] == '<';
      }
    }
  }

  /** What follows a marker does not matter. */
  lemma {:induction false} MarkLengthPrefix(s: string, z: string, name: string)
    requires IsName(name) && MarkLength(s, name) > 0
    ensures MarkLength(s, name) <= |s| && MarkLength(s[..MarkLength(s, name)] + z, name) == MarkLength(s, name)
  {
    MarkIsWord(s, name);
    var a, b :| AllSpace(a) && AllSpace(b) && s[..MarkLength(s, name)] == Word(a, b, name);
    WordLength(a, b, z, name);
  }

  lemma {:induction false} TrimStays(x: string, z: string)
    requires TrimStart(x) != ""
    ensures TrimStart(x + z) == TrimStart(x) + z
  {
    if IsSpace(x[0]) {
      TrimStays(x[1..], z);
      assert (x + z)[1..] == x[1..] + z;
    }
  }

  lemma {:induction false} MarkIsWord(s: string, name: string)
    requires IsName(name) && MarkLength(s, name) > 0
    ensures MarkLength(s, name) <= |s|
    ensures exists a, b :: AllSpace(a) && AllSpace(b) && s[..MarkLength(s, name)] == Word(a, b, name)
  {
    var t := TrimStart(s[4..]);
    var u := TrimStart(t[|name|..]);
    SpacesBefore(s[4..]);
    SpacesBefore(t[|name|..]);
    var a, b := Spaces(s[4..]), Spaces(t[|name|..]);
    MarkShape(s, a, t, b, u, name);
    assert |s| - |u| + 3 == |Word(a, b, name)|;
    assert (Word(a, b, name) + u[3..])[..|Word(a, b, name)|] == Word(a, b, name);
  }

  lemma {:induction false} MarkGoesOn(s: string, z: string, name: string)
    requires IsName(name) && MarkLength(s, name) > 0
    ensures MarkLength(s + z, name) > 0
  {
    var n := MarkLength(s, name);
    MarkLengthPrefix(s, s[n..] + z, name);
    assert s + z == s[..n] + (s[n..] + z);
  }

  /** The white space a text starts with. */
  function Spaces(s: string): string {
    s[..|s| - |TrimStart(s)|]
  }

  lemma {:induction false} SpacesBefore(s: string)
    ensures AllSpace(Spaces(s)) && s == Spaces(s) + TrimStart(s)
  {
    TrimStartIsSuffix(s);
  }

  function Word(a: string, b: string, name: string): string {
    "<!--" + (a + (name + (b + "-->")))
  }

  predicate AllSpace(s: string) {
    forall i :: 0 <= i < |s| ==> IsSpace(s[i])
  }

  lemma {:induction false} MarkShape(s: string, a: string, t: string, b: string, u: string, name: string)
    requires StartsWith(s, "<!--") && s[4..] == a + t
    requires StartsWith(t, name) && t[|name|..] == b + u && StartsWith(u, "-->")
    ensures s == Word(a, b, name) + u[3..]
  {
    assert s == "<!--" + (a + t);
    assert t == name + (b + u);
    assert u == "-->" + u[3..];
    WordParts(a, b, u[3..], name);
  }

  lemma {:induction false} TrimSpaces(a: string, rest: string)
    requires AllSpace(a) && rest != "" && !IsSpace(rest[0])
    ensures TrimStart(a + rest) == rest
  {
    if a == "" {
      assert a + rest == rest;
    } else {
      TrimSpaces(a[1..], rest);
      assert (a + rest)[1..] == a[1..] + rest;
    }
  }

  lemma {:induction false} WordLength(a: string, b: string, z: string, name: string)
    requires IsName(name) && AllSpace(a) && AllSpace(b)
    ensures MarkLength(Word(a, b, name) + z, name) == |Word(a, b, name)|
  {
    var s := Word(a, b, name) + z;
    var u := "-->" + z;
    var t := name + (b + u);
    WordParts(a, b, z, name);
    assert s[..4] == "<!--" && s[4..] == a + t;
    TrimSpaces(a, t);
    assert t[..|name|] == name && t[|name|..] == b + u;
    TrimSpaces(b, u);
    assert u[..3] == "-->";
  }

  lemma {:induction false} WordParts(a: string, b: string, z: string, name: string)
    ensures Word(a, b, name) + z == "<!--" + (a + (name + (b + ("-->" + z))))
  {
    Associative(b, "-->", z);
    Associative(name, b + "-->", z);
    Associative(a, name + (b + "-->"), z);
    Associative("<!--", a + (name + (b + "-->")), z);
  }

  /** The first place with a marker. */
  lemma {:induction false} FindMarkIsFirst(s: string, name: string)
    requires IsName(name)
    ensures FindMark(s, name).Position?
      ==> FindMark(s, name).index < |s| && MarkLength(s[FindMark(s, name).index..], name) > 0
    ensures forall i :: 0 <= i <= |s| && MarkLength(s[i..], name) > 0 ==>
      FindMark(s, name).Position? && FindMark(s, name).index <= i
  {
    if MarkLength(s, name) > 0 {
      assert s[0..] == s;
    } else if s != "" {
      FindMarkIsFirst(s[1..], name);
      forall i | 0 < i <= |s| ensures s[i..] == s[1..][i - 1..] {
      }
      assert s[0..] == s;
    }
  }

  /** No marker starts in a text. */
  ghost predicate NoMark(s: string, name: string) {
    forall i :: 0 <= i < |s| ==> MarkLength(s[i..], name) == 0
  }

  /** With no marker in front, the first is where the text goes on with one. */
  lemma {:induction false} FindAfter(x: string, y: string, name: string)
    requires IsName(name) && NoMark(x, name) && MarkLength(y, name) > 0
    ensures FindMark(x + y, name) == Position(|x|)
  {
    FindMarkIsFirst(x + y, name);
    assert (x + y)[|x|..] == y;
    MarkOpens(y, name);
    forall i | 0 <= i < |x| ensures MarkLength((x + y)[i..], name) == 0 {
      NoMarkIn(x, y, name, i);
    }
  }

  lemma {:induction false} MarkOpens(s: string, name: string)
    requires MarkLength(s, name) > 0
    ensures s != "" && s[0] == '<'
  {
    assert s[..4][0] == s[0];
  }

  lemma {:induction false} NoMarkIn(x: string, y: string, name: string, i: nat)
    requires IsName(name) && NoMark(x, name) && y != "" && y[0] == '<' && i < |x|
    ensures MarkLength((x + y)[i..], name) == 0
  {
    assert (x + y)[i..] == x[i..] + y;
    MarkLengthLocal(x[i..], y, name);
  }

  lemma {:induction false} NoMarkBefore(s: string, name: string, i: nat)
    requires IsName(name) && i < |s| && s[i] == '<' && (FindMark(s, name).Position? ==> i <= FindMark(s, name).index)
    ensures NoMark(s[..i], name)
  {
    FindMarkIsFirst(s, name);
    forall k | 0 <= k < i ensures MarkLength(s[..i][k..], name) == 0 {
      assert s[k..] == s[..i][k..] + s[i..];
      MarkLengthLocal(s[..i][k..], s[i..], name);
    }
  }

  lemma {:induction false} NoMarkAppend(x: string, y: string, name: string)
    requires IsName(name) && NoMark(x, name) && NoMark(y, name) && y != "" && y[0] == '<'
    ensures NoMark(x + y, name)
  {
    forall i | 0 <= i < |x + y| ensures MarkLength((x + y)[i..], name) == 0 {
      if i < |x| {
        NoMarkIn(x, y, name, i);
      } else {
        assert (x + y)[i..] == y[i - |x|..];
      }
    }
  }

  // ------------------------------------------------------------- front matters

  /** The lines between the two `---` and the lines below, or no front matter. */
  datatype FrontMatter = NoFront | FrontMatter(body: seq<string>, rest: seq<string>)

  /** The first line from `from` on that starts with `---`. */
  function Closing(lines: seq<string>, from: nat): (i: nat)
    requires from <= |lines|
    ensures from <= i <= |lines| && (i < |lines| ==> StartsWith(lines[i], "---"))
    ensures forall k :: from <= k < i ==> !StartsWith(lines[k], "---")
    decreases |lines| - from
  {
    if from == |lines| || StartsWith(lines[from], "---") then from else Closing(lines, from + 1)
  }

  /** What follows the closing `---`; its line feed belongs to the front matter. */
  function Below(lines: seq<string>, i: nat): seq<string>
    requires i < |lines| && |lines[i]| >= 3
  {
    if lines[i] != "---" then [lines[i][3..]] + lines[i + 1..]
    else if i + 1 < |lines| then lines[i + 1..]
    else [""]
  }

  function FrontOf(lines: seq<string>): FrontMatter {
    if |lines| < 3 || lines[0] != "---" || Closing(lines, 2) == |lines| then NoFront
    else FrontMatter(lines[1..Closing(lines, 2)], Below(lines, Closing(lines, 2)))
  }

  /** The text of a front matter as it was matched. */
  function FrontText(lines: seq<string>): string
    requires FrontOf(lines).FrontMatter?
  {
    var i := Closing(lines, 2);
    Join(lines[..i] + ["---"], "\n") + if lines[i] == "---" && i + 1 < |lines| then "\n" else ""
  }

  function Enclosed(body: seq<string>, rest: seq<string>): seq<string> {
    ["---"] + body + ["---"] + rest
  }

  function MergeGeneratedFrontmatter(before: string, generated: string): string {
    match FrontOf(SplitOn(generated, '\n'))
    case NoFront => before
    case FrontMatter(body, _) =>
      match FrontOf(SplitOn(before, '\n'))
      case NoFront => FrontText(SplitOn(generated, '\n')) + before
      case FrontMatter(existing, rest) => Join(Enclosed(MergedBody(body, existing), rest), "\n")
  }

  // ---------------------------------------------------------------- the merge

  function Slice(s: string, i: nat, j: nat): string
    requires i <= |s| && j <= |s|
  {
    if i <= j then s[i..j] else ""
  }

  /** The generated block with its markers; all of the text when a marker is missing. */
  function AutoContent(generated: string): string {
    match (FindMark(generated, Start), FindMark(generated, End))
    case (Position(a), Position(b)) => Slice(generated, a, b + MarkLength(generated[b..], End))
    case _ => generated
  }

  function Merged(existing: string, generated: string): string {
    match (FindMark(existing, Start), FindMark(existing, End))
    case (Position(a), Position(b)) =>
      MergeGeneratedFrontmatter(existing[..a], generated) + (AutoContent(generated)
        + existing[b + MarkLength(existing[b..], End)..])
    case _ => existing + ("\n" + AutoContent(generated))
  }

  /** Both markers, in order. */
  ghost predicate InOrder(s: string) {
    FindMark(s, Start).Position? && FindMark(s, End).Position? && FindMark(s, Start).index < FindMark(s, End).index
  }

  /** A text with its markers in order falls into four parts. */
  lemma {:induction false} Parts(s: string) returns (before: string, block: string, mark: string, after: string)
    requires InOrder(s)
    ensures s == before + (block + (mark + after))
    ensures before == s[..FindMark(s, Start).index] && after
      == s[FindMark(s, End).index + MarkLength(s[FindMark(s, End).index..], End)..]
    ensures AutoContent(s) == block + mark
    ensures NoMark(before, Start) && NoMark(before, End) && NoMark(block, End)
    ensures MarkLength(block, Start) > 0 && MarkLength(mark, End) == |mark| > 0
  {
    var a, b := FindMark(s, Start).index, FindMark(s, End).index;
    var n := MarkLength(s[b..], End);
    before, block, mark, after := s[..a], s[a..b], s[b..][..n], s[b..][n..];
    PartsNoMark(s, a, b);
    PartsMarks(s, a, b);
    PartsJoin(s, a, b, n);
  }

  lemma {:induction false} PartsJoin(s: string, a: nat, b: nat, n: nat)
    requires InOrder(s) && FindMark(s, Start) == Position(a) && FindMark(s, End) == Position(b)
    requires n == MarkLength(s[b..], End)
    ensures s == s[..a] + (s[a..b] + (s[b..][..n] + s[b..][n..])) && s[b..][n..] == s[b + n..]
    ensures AutoContent(s) == s[a..b] + s[b..][..n]
  {
    AutoIs(s);
    Cut(s, a, b, n);
  }

  lemma {:induction false} Cut<T>(s: seq<T>, a: nat, b: nat, n: nat)
    requires a <= b && b + n <= |s|
    ensures s == s[..a] + (s[a..b] + (s[b..][..n] + s[b..][n..]))
    ensures s[a..b + n] == s[a..b] + s[b..][..n] && s[b..][n..] == s[b + n..]
  {
  }

  lemma {:induction false} PartsNoMark(s: string, a: nat, b: nat)
    requires InOrder(s) && a == FindMark(s, Start).index && b == FindMark(s, End).index
    ensures NoMark(s[..a], Start) && NoMark(s[..a], End) && NoMark(s[a..b], End)
  {
    NamesAreNames();
    FindMarkIsFirst(s, Start);
    FindMarkIsFirst(s, End);
    MarkOpens(s[a..], Start);
    MarkOpens(s[b..], End);
    NoMarkBefore(s, Start, a);
    NoMarkBefore(s, End, a);
    NoMarkBefore(s, End, b);
    SuffixNoMark(s[..b], a, End);
    assert s[..b][a..] == s[a..b];
  }

  lemma {:induction false} PartsMarks(s: string, a: nat, b: nat)
    requires InOrder(s) && a == FindMark(s, Start).index && b == FindMark(s, End).index
    ensures MarkLength(s[a..b], Start) > 0
    ensures var n := MarkLength(s[b..], End); MarkLength(s[b..][..n], End) == |s[b..][..n]| == n > 0
  {
    NamesAreNames();
    FindMarkIsFirst(s, Start);
    FindMarkIsFirst(s, End);
    WholeMark(s[b..], End);
    MarkOpens(s[b..], End);
    MarkInFront(s, a, b);
  }

  lemma {:induction false} WholeMark(s: string, name: string)
    requires IsName(name) && MarkLength(s, name) > 0
    ensures MarkLength(s[..MarkLength(s, name)], name) == MarkLength(s, name)
  {
    MarkLengthPrefix(s, "", name);
    var mark := s[..MarkLength(s, name)];
    assert mark + "" == mark;
  }

  lemma {:induction false} MarkInFront(s: string, a: nat, b: nat)
    requires a < b < |s| && s[b] == '<' && MarkLength(s[a..], Start) > 0
    ensures MarkLength(s[a..b], Start) > 0
  {
    NamesAreNames();
    assert s[a..] == s[a..b] + s[b..];
    MarkLengthLocal(s[a..b], s[b..], Start);
  }

  lemma {:induction false} AutoIs(s: string)
    requires InOrder(s)
    ensures var b := FindMark(s, End).index;
            AutoContent(s) == s[FindMark(s, Start).index..b + MarkLength(s[b..], End)]
  {
  }

  lemma {:induction false} SuffixNoMark(s: string, i: nat, name: string)
    requires i <= |s| && NoMark(s, name)
    ensures NoMark(s[i..], name)
  {
    forall k | 0 <= k < |s[i..]| ensures MarkLength(s[i..][k..], name) == 0 {
      assert s[i..][k..] == s[i + k..];
    }
  }

  /** The text in front of the block and the text behind it. */
  function Before(s: string): string
    requires FindMark(s, Start).Position?
  {
    s[..FindMark(s, Start).index]
  }

  function After(s: string): string
    requires FindMark(s, End).Position?
  {
    var b := FindMark(s, End).index;
    s[b + MarkLength(s[b..], End)..]
  }

  lemma {:induction false} AfterIs(s: string, b: nat)
    requires FindMark(s, End) == Position(b)
    ensures b <= |s| && b + MarkLength(s[b..], End) <= |s| && After(s) == s[b + MarkLength(s[b..], End)..]
  {
  }

  /** The markers of a merged text are those of the generated block put in. */
  lemma {:induction false} MergedMarks(front: string, block: string, mark: string, after: string)
    requires NoMark(front, Start) && NoMark(front, End) && NoMark(block, End)
    requires MarkLength(block, Start) > 0 && MarkLength(mark, End) == |mark| > 0
    ensures var s := front + (block + (mark + after));
            && FindMark(s, Start) == Position(|front|) && FindMark(s, End) == Position(|front| + |block|)
            && Before(s) == front && After(s) == after
  {
    MarkOpens(block, Start);
    StartMark(front, block, mark, after);
    EndMark(front, block, mark, after);
  }

  lemma {:induction false} StartMark(front: string, block: string, mark: string, after: string)
    requires NoMark(front, Start) && MarkLength(block, Start) > 0 && MarkLength(mark, End) > 0
    ensures var s := front + (block + (mark + after)); FindMark(s, Start) == Position(|front|) && Before(s) == front
  {
    NamesAreNames();
    MarkOpens(mark, End);
    MarkOpens(block, Start);
    MarkLengthLocal(block, mark + after, Start);
    FindAfter(front, block + (mark + after), Start);
  }

  lemma {:induction false} EndMark(front: string, block: string, mark: string, after: string)
    requires NoMark(front, End) && NoMark(block, End) && block != "" && block[0] == '<'
    requires MarkLength(mark, End) == |mark| > 0
    ensures
      var s := front + (block + (mark + after)); FindMark(s, End) == Position(|front| + |block|) && After(s) == after
  {
    NamesAreNames();
    var x, rest := front + block, mark + after;
    MarkLengthPrefix(mark, after, End);
    assert mark[..|mark|] == mark;
    NoMarkAppend(front, block, End);
    FindAfter(x, rest, End);
    AfterMark(x, mark, after);
    Associative(front, block, rest);
  }

  lemma {:induction false} AfterMark(x: string, mark: string, after: string)
    requires FindMark(x + (mark + after), End) == Position(|x|) && MarkLength(mark + after, End) == |mark|
    ensures After(x + (mark + after)) == after
  {
    AfterIs(x + (mark + after), |x|);
    assert (x + (mark + after))[|x|..] == mark + after;
  }
}
