/** Joining strings with a separator, splitting them at a character, searching and trimming them. */
module Strings {
  import opened Lists

  function Join(parts: seq<string>, separator: string): string {
    if parts == [] then ""
    else if |parts| == 1 then parts[0]
    else parts[0] + (separator + Join(parts[1..], separator))
  }

  /** One line for each element. */
  function Each(prefix: string, parts: seq<string>): (r: seq<string>)
    ensures |r| == |parts| && forall i :: 0 <= i < |r| ==> r[i] == prefix + parts[i]
  {
    seq(|parts|, i requires 0 <= i < |parts| => prefix + parts[i])
  }

  /** Lines with no line feed in them. */
  ghost predicate NoBreaks(lines: seq<string>) {
    forall i :: 0 <= i < |lines| ==> '\n' !in lines[i]
  }

  /** A text with one part cut off at the first separator. */
  lemma {:induction false} FirstPart(x: string, u: string, y: string, v: string, c: char)
    requires c !in x && c !in y && x + ([c] + u) == y + ([c] + v)
    ensures x == y && u == v
  {
    var s := x + ([c] + u);
    assert s[|x|] == c && s[|y|] == c;
    assert forall k :: 0 <= k < |x| ==> s[k] == x[k];
    assert forall k :: 0 <= k < |y| ==> s[k] == y[k];
    assert |x| == |y|;
    assert s[..|x|] == x && s[..|y|] == y;
    assert s[|x| + 1..] == u && s[|y| + 1..] == v;
  }

  /** The parts between the separators: one more than there are separators. */
  function SplitOn(s: string, c: char): (r: seq<string>)
    ensures r != []
  {
    if s == "" then [""]
    else
      var rest := SplitOn(s[1..], c);
      if s[0] == c then [""] + rest else [[s[0]] + rest[0]] + rest[1..]
  }

  /** A part without separators in front of one is the first part. */
  lemma {:induction false} SplitFirst(part: string, c: char, rest: string)
    requires c !in part
    ensures SplitOn(part + ([c] + rest), c) == [part] + SplitOn(rest, c)
  {
    var s := part + ([c] + rest);
    if part == "" {
      assert s == [c] + rest && s[1..] == rest;
    } else {
      SplitFirst(part[1..], c, rest);
      assert s[1..] == part[1..] + ([c] + rest);
      assert part == [part[0]] + part[1..] && s[0] == part[0] && part[0] in part;
      assert ([part[1..]] + SplitOn(rest, c))[1..] == SplitOn(rest, c);
    }
  }

  lemma {:induction false} SplitWhole(part: string, c: char)
    requires c !in part
    ensures SplitOn(part, c) == [part]
  {
    if part != "" {
      SplitWhole(part[1..], c);
      assert part == [part[0]] + part[1..] && part[0] in part;
    }
  }

  /** Joined parts come apart again when no part has the separator in it. */
  lemma {:induction false} SplitJoin(parts: seq<string>, c: char)
    requires parts != [] && forall i :: 0 <= i < |parts| ==> c !in parts[i]
    ensures SplitOn(Join(parts, [c]), c) == parts
  {
    if |parts| == 1 {
      SplitWhole(parts[0], c);
      assert parts == [parts[0]];
    } else {
      SplitJoin(parts[1..], c);
      SplitFirst(parts[0], c, Join(parts[1..], [c]));
      assert parts == [parts[0]] + parts[1..];
    }
  }

  lemma {:induction false} JoinSplit(s: string, c: char)
    ensures Join(SplitOn(s, c), [c]) == s
    ensures forall i :: 0 <= i < |SplitOn(s, c)| ==> c !in SplitOn(s, c)[i]
  {
    if s != "" {
      JoinSplit(s[1..], c);
      var rest := SplitOn(s[1..], c);
      if s[0] == c {
        assert ([""] + rest)[1..] == rest;
        assert s == "" + ([c] + s[1..]);
      } else {
        var parts := [[s[0]] + rest[0]] + rest[1..];
        assert parts[1..] == rest[1..];
        assert s == [s[0]] + s[1..];
        if |rest| > 1 {
          Associative([s[0]], rest[0], [c] + Join(rest[1..], [c]));
        }
      }
    }
  }

  lemma {:induction false} JoinFirst(part: string, parts: seq<string>, separator: string)
    requires parts != []
    ensures Join([part] + parts, separator) == part + (separator + Join(parts, separator))
  {
    assert ([part] + parts)[1..] == parts;
  }

  lemma {:induction false} JoinAppend(a: seq<string>, b: seq<string>, separator: string)
    requires a != [] && b != []
    ensures Join(a + b, separator) == Join(a, separator) + (separator + Join(b, separator))
  {
    var rest := a[1..];
    assert a == [a[0]] + rest && a + b == [a[0]] + (rest + b);
    JoinFirst(a[0], rest + b, separator);
    if rest == [] {
      assert rest + b == b;
    } else {
      JoinAppend(rest, b, separator);
      JoinFirst(a[0], rest, separator);
      var more, tail := Join(rest, separator), separator + Join(b, separator);
      Associative(separator, more, tail);
      Associative(a[0], separator + more, tail);
    }
  }

  function LinesOf(s: string): seq<string> {
    SplitOn(s, '\n')
  }

  // ------------------------------------------------------------------ searching

  predicate At(m: string, s: string, i: int) {
    0 <= i && i + |m| <= |s| && s[i..i + |m|] == m
  }

  ghost predicate Occurs(m: string, s: string) {
    exists i :: At(m, s, i)
  }

  datatype Position = Absent | Position(index: nat)

  /** The first place where `m` occurs. */
  function IndexOf(s: string, m: string): Position {
    if StartsWith(s, m) then Position(0)
    else if s == "" then Absent
    else match IndexOf(s[1..], m) case Absent => Absent case Position(i) => Position(i + 1)
  }

  lemma {:induction false} IndexOfIsFirst(s: string, m: string)
    ensures IndexOf(s, m).Position? ==> At(m, s, IndexOf(s, m).index)
    ensures forall i :: At(m, s, i) ==> IndexOf(s, m).Position? && IndexOf(s, m).index <= i
  {
    if !StartsWith(s, m) && s != "" {
      IndexOfIsFirst(s[1..], m);
      forall i ensures At(m, s[1..], i) ==> At(m, s, i + 1) {
        if At(m, s[1..], i) {
          assert s[1..][i..i + |m|] == s[i + 1..i + 1 + |m|];
        }
      }
      forall i | At(m, s, i) ensures i > 0 && At(m, s[1..], i - 1) {
        assert s[0..|m|] == s[..|m|];
        assert i > 0;
        assert s[1..][i - 1..i - 1 + |m|] == s[i..i + |m|];
      }
    }
  }

  predicate Includes(s: string, part: string) {
    IndexOf(s, part).Position?
  }

  lemma IncludesIff(s: string, part: string)
    ensures Includes(s, part) <==> Occurs(part, s)
  {
    IndexOfIsFirst(s, part);
  }

  /** Nothing that starts with `m`'s first character can start where that character is missing. */
  lemma OccursAfter(m: string, x: string, s: string)
    requires m != "" && m[0] !in x && Occurs(m, x + s)
    ensures Occurs(m, s)
  {
    var i :| At(m, x + s, i);
    assert (x + s)[i..i + |m|][0] == m[0] && (x + s)[i] == m[0];
    assert i >= |x|;
    assert (x + s)[i..i + |m|] == s[i - |x|..i - |x| + |m|];
    assert At(m, s, i - |x|);
  }

  lemma OccursBefore(m: string, s: string, x: string)
    requires m != "" && m[|m| - 1] !in x && Occurs(m, s + x)
    ensures Occurs(m, s)
  {
    var i :| At(m, s + x, i);
    var last := i + |m| - 1;
    assert (s + x)[i..i + |m|][|m| - 1] == m[|m| - 1] && (s + x)[last] == m[|m| - 1];
    assert last < |s|;
    assert (s + x)[i..i + |m|] == s[i..i + |m|];
    assert At(m, s, i);
  }

  /** What does not contain a character lies on one side of it. */
  lemma OccursBeside(m: string, a: string, c: char, b: string)
    requires c !in m && Occurs(m, a + ([c] + b))
    ensures Occurs(m, a) || Occurs(m, b)
  {
    var s := a + ([c] + b);
    var i :| At(m, s, i);
    forall j | i <= j < i + |m| ensures s[j] != c {
      assert s[i..i + |m|][j - i] == s[j];
    }
    assert s[|a|] == c;
    if i + |m| <= |a| {
      assert s[i..i + |m|] == a[i..i + |m|];
      assert At(m, a, i);
    } else {
      assert s[i..i + |m|] == b[i - |a| - 1..i - |a| - 1 + |m|];
      assert At(m, b, i - |a| - 1);
    }
  }

  lemma {:induction false} OccursJoined(m: string, parts: seq<string>, c: char, more: string)
    requires m != "" && c !in m && m[0] !in more && m[0] != c && parts != []
    requires Occurs(m, Join(parts, [c] + more))
    ensures exists i :: 0 <= i < |parts| && Occurs(m, parts[i])
  {
    if |parts| > 1 {
      var tail := Join(parts[1..], [c] + more);
      assert ([c] + more) + tail == [c] + (more + tail);
      OccursBeside(m, parts[0], c, more + tail);
      if !Occurs(m, parts[0]) {
        OccursAfter(m, more, tail);
        OccursJoined(m, parts[1..], c, more);
        var i :| 0 <= i < |parts[1..]| && Occurs(m, parts[1..][i]);
        assert parts[i + 1] == parts[1..][i];
      }
    }
  }

  /** The first occurrence of a mark that does not occur before, and cannot overlap itself. */
  lemma IndexOfFirst(before: string, m: string, rest: string)
    requires m != "" && m[0] !in m[1..] && !Occurs(m, before)
    ensures IndexOf(before + (m + rest), m) == Position(|before|)
  {
    var s := before + (m + rest);
    assert s[|before|..|before| + |m|] == m;
    assert At(m, s, |before|);
    forall i | 0 <= i < |before| ensures !At(m, s, i) {
      if i + |m| <= |before| {
        assert s[i..i + |m|] == before[i..i + |m|];
        assert !At(m, before, i);
      } else {
        var k := |before| - i;
        assert s[i..i + |m|][k] == s[|before|] == m[0];
        assert m[k] == m[1..][k - 1] && m[k] in m[1..];
      }
    }
    IndexOfIsFirst(s, m);
  }

  // ------------------------------------------------------------------- trimming

  predicate IsSpace(c: char) {
    || c == ' ' || ('\t' <= c && c <= '\r')
    || c as int in {0xA0, 0x1680, 0x2028, 0x2029, 0x202F, 0x205F, 0x3000, 0xFEFF}
    || (0x2000 <= c as int && c as int <= 0x200A)
  }

  /** A character that ends a line for `.` and `$` in an expression. */
  predicate IsTerminator(c: char) {
    c == '\n' || c == '\r' || c as int == 0x2028 || c as int == 0x2029
  }

  function TrimStart(s: string): (r: string)
    ensures |r| <= |s|
  {
    if s != "" && IsSpace(s[0]) then TrimStart(s[1..]) else s
  }

  function TrimEnd(s: string): string {
    if s != "" && IsSpace(s[|s| - 1]) then TrimEnd(s[..|s| - 1]) else s
  }

  function Trim(s: string): string {
    TrimEnd(TrimStart(s))
  }

  /** No white space at either end. */
  predicate IsTrimmed(s: string) {
    s != "" ==> !IsSpace(s[0]) && !IsSpace(s[|s| - 1])
  }

  lemma TrimTrimmed(s: string)
    requires IsTrimmed(s)
    ensures Trim(s) == s
  {
  }

  lemma TrimPadded(s: string)
    requires IsTrimmed(s) && s != ""
    ensures Trim(" " + s) == s && Trim(" " + (s + " ")) == s
  {
    assert (" " + s)[1..] == s;
    assert TrimStart(" " + s) == TrimStart(s) == s;
    assert (" " + (s + " "))[1..] == s + " ";
    assert TrimStart(" " + (s + " ")) == TrimStart(s + " ") == s + " ";
    assert (s + " ")[..|s|] == s;
    assert TrimEnd(s + " ") == TrimEnd(s) == s;
  }

  /** Trimming does not remove what comes before a character that is no space. */
  lemma {:induction false} TrimEndKeeps(s: string, i: nat)
    requires i < |s| && !IsSpace(s[i])
    ensures |TrimEnd(s)| > i && forall k :: 0 <= k <= i ==> TrimEnd(s)[k] == s[k]
  {
    if IsSpace(s[|s| - 1]) {
      TrimEndKeeps(s[..|s| - 1], i);
    }
  }

  lemma {:induction false} TrimKeepsSome(s: string, i: nat)
    requires i < |s| && !IsSpace(s[i])
    ensures Trim(s) != ""
  {
    if IsSpace(s[0]) {
      TrimKeepsSome(s[1..], i - 1);
    } else {
      TrimEndKeeps(s, 0);
    }
  }

  predicate StartsWith(s: string, p: string) {
    |p| <= |s| && s[..|p|] == p
  }

  // ------------------------------------------------------------ pieces of a text

  lemma SliceOfSlice<T>(s: seq<T>, i: nat, j: nat, a: nat, b: nat)
    requires i <= j <= |s| && a <= b <= j - i
    ensures s[i..j][a..b] == s[i + a..i + b]
  {
    forall x | 0 <= x < b - a ensures s[i..j][a..b][x] == s[i + a..i + b][x] {
      assert s[i..j][a..b][x] == s[i..j][a + x] == s[i + (a + x)];
      assert s[i + a..i + b][x] == s[(i + a) + x];
    }
  }

  lemma AtSlice(m: string, s: string, i: nat, j: nat, k: nat)
    requires i <= j <= |s| && At(m, s[i..j], k)
    ensures At(m, s, i + k)
  {
    SliceOfSlice(s, i, j, k, k + |m|);
  }

  lemma OccursSlice(m: string, s: string, i: nat, j: nat)
    requires i <= j <= |s| && Occurs(m, s[i..j])
    ensures Occurs(m, s)
  {
    var k :| At(m, s[i..j], k);
    AtSlice(m, s, i, j, k);
  }

  /** Before its first occurrence a string does not occur. */
  lemma NotBeforeFirst(m: string, s: string, from: nat, end: nat)
    requires IndexOf(s, m) == Position(end) && from <= end <= |s| && m != ""
    ensures !Occurs(m, s[from..end])
  {
    IndexOfIsFirst(s, m);
    if k :| At(m, s[from..end], k) {
      AtSlice(m, s, from, end, k);
    }
  }

  lemma {:induction false} OccursTrimmed(m: string, s: string)
    requires Occurs(m, Trim(s))
    ensures Occurs(m, s)
  {
    TrimIsSlice(s);
    var i, j :| 0 <= i <= j <= |s| && Trim(s) == s[i..j];
    OccursSlice(m, s, i, j);
  }

  lemma {:induction false} TrimIsSlice(s: string)
    ensures exists i, j :: 0 <= i <= j <= |s| && Trim(s) == s[i..j]
  {
    if s != "" && IsSpace(s[0]) {
      TrimIsSlice(s[1..]);
      var i, j :| 0 <= i <= j <= |s[1..]| && Trim(s[1..]) == s[1..][i..j];
      assert Trim(s) == s[i + 1..j + 1];
    } else {
      TrimEndIsSlice(s);
      var j :| 0 <= j <= |s| && TrimEnd(s) == s[..j];
      assert Trim(s) == s[0..j];
    }
  }

  lemma {:induction false} TrimEndIsSlice(s: string)
    ensures exists j :: 0 <= j <= |s| && TrimEnd(s) == s[..j]
  {
    if s != "" && IsSpace(s[|s| - 1]) {
      TrimEndIsSlice(s[..|s| - 1]);
      var j :| 0 <= j <= |s| - 1 && TrimEnd(s[..|s| - 1]) == s[..|s| - 1][..j];
      assert TrimEnd(s) == s[..j];
    } else {
      assert TrimEnd(s) == s[..|s|];
    }
  }

  lemma {:induction false} SplitHead(s: string, c: char)
    ensures StartsWith(s, SplitOn(s, c)[0])
  {
    if s != "" && s[0] != c {
      SplitHead(s[1..], c);
      var rest := SplitOn(s[1..], c)[0];
      assert s[..|rest| + 1] == [s[0]] + s[1..][..|rest|];
    }
  }

  lemma {:induction false} OccursInPart(m: string, s: string, c: char, i: nat)
    requires i < |SplitOn(s, c)| && Occurs(m, SplitOn(s, c)[i])
    ensures Occurs(m, s)
  {
    if i == 0 {
      SplitHead(s, c);
      assert SplitOn(s, c)[0] == s[0..|SplitOn(s, c)[0]|];
      OccursSlice(m, s, 0, |SplitOn(s, c)[0]|);
    } else {
      assert s != "";
      assert SplitOn(s, c)[i] == SplitOn(s[1..], c)[if s[0] == c then i - 1 else i];
      OccursInPart(m, s[1..], c, if s[0] == c then i - 1 else i);
      assert s[1..] == s[1..|s|];
      OccursSlice(m, s, 1, |s|);
    }
  }

  /** None of the parts contains `m`. */
  ghost predicate Without(m: string, parts: seq<string>) {
    forall i :: 0 <= i < |parts| ==> !Occurs(m, parts[i])
  }

  lemma PartsWithout(m: string, s: string, c: char)
    requires !Occurs(m, s)
    ensures Without(m, SplitOn(s, c))
  {
    forall i | 0 <= i < |SplitOn(s, c)| ensures !Occurs(m, SplitOn(s, c)[i]) {
      if Occurs(m, SplitOn(s, c)[i]) {
        OccursInPart(m, s, c, i);
      }
    }
  }
}
