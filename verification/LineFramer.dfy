/**
  Cutting a stream of text chunks into lines, with a limit on what is carried over from
  one chunk to the next.
 */
module LineFramer {
  import opened Lists

  /** What is handed on and what is kept for the next chunk. */
  datatype State = State(lines: seq<string>, carry: string)

  /** The complete lines of a text, and the text after its last line feed. */
  function Split(s: string): State {
    if s == "" then State([], "") else Put(s[0], Split(s[1..]))
  }

  /** One more character in front. */
  function Put(c: char, st: State): State {
    if c == '\n' then State([""] + st.lines, st.carry)
    else if st.lines == [] then State([], [c] + st.carry)
    else State([[c] + st.lines[0]] + st.lines[1..], st.carry)
  }

  /** One chunk: over the limit, only the text after the last line feed is kept, if there is one. */
  function Feed(st: State, chunk: string, limit: nat): State {
    var text := st.carry + chunk;
    if |text| > limit then State(st.lines, if '\n' in text then Split(text).carry else "")
    else State(st.lines + Split(text).lines, Split(text).carry)
  }

  function Run(chunks: seq<string>, limit: nat): State {
    if chunks == [] then State([], "") else Feed(Run(chunks[..|chunks| - 1], limit), chunks[|chunks| - 1], limit)
  }

  function Concat(chunks: seq<string>): string {
    if chunks == [] then "" else Concat(chunks[..|chunks| - 1]) + chunks[|chunks| - 1]
  }

  /** The text after the last line feed. */
  function SinceBreak(s: string): string {
    if s == "" || s[|s| - 1] == '\n' then "" else SinceBreak(s[..|s| - 1]) + [s[|s| - 1]]
  }

  /** Each chunk and the text since the last line feed before it are together within the limit. */
  ghost predicate Fits(chunks: seq<string>, limit: nat) {
    forall k :: 0 <= k < |chunks| ==> |SinceBreak(Concat(chunks[..k]))| + |chunks[k]| <= limit
  }

  /** No chunk made the carried text too long. */
  predicate NeverOver(chunks: seq<string>, limit: nat) {
    chunks == [] || (
      && NeverOver(chunks[..|chunks| - 1], limit)
      && |Run(chunks[..|chunks| - 1], limit).carry| + |chunks[|chunks| - 1]| <= limit)
  }

  // ------------------------------------------------------------------ splitting

  lemma {:induction false} CarryHasNoBreak(s: string)
    ensures '\n' !in Split(s).carry
    ensures forall i :: 0 <= i < |Split(s).lines| ==> '\n' !in Split(s).lines[i]
    ensures |Split(s).carry| <= |s|
    ensures Split(s).lines == [] <==> '\n' !in s
    ensures Split(s).lines == [] ==> Split(s).carry == s
  {
    if s != "" {
      CarryHasNoBreak(s[1..]);
      assert s == [s[0]] + s[1..];
    }
  }

  /** A line without line feeds in front of a break is the first line. */
  lemma {:induction false} FirstLine(line: string, rest: string)
    requires '\n' !in line
    ensures Split(line + ("\n" + rest)) == State([line] + Split(rest).lines, Split(rest).carry)
  {
    var s := line + ("\n" + rest);
    if line == "" {
      assert s == "\n" + rest && s[1..] == rest;
    } else {
      FirstLine(line[1..], rest);
      assert s[1..] == line[1..] + ("\n" + rest);
      assert line == [line[0]] + line[1..] && s[0] == line[0] && line[0] in line;
      assert ([line[1..]] + Split(rest).lines)[1..] == Split(rest).lines;
    }
  }

  /** Splitting can be taken up at the carry: the lines so far stay as they are. */
  lemma {:induction false} SplitAppend(s: string, t: string)
    ensures Split(s + t) == State(Split(s).lines + Split(Split(s).carry + t).lines, Split(Split(s).carry + t).carry)
  {
    if s == "" {
      assert s + t == t;
      assert Split(s).carry + t == t;
    } else {
      SplitAppend(s[1..], t);
      assert (s + t)[1..] == s[1..] + t;
      PutAppend(s[0], Split(s[1..]), t);
    }
  }

  lemma PutAppend(c: char, st: State, t: string)
    ensures Put(c, State(st.lines + Split(st.carry + t).lines, Split(st.carry + t).carry))
         == State(Put(c, st).lines + Split(Put(c, st).carry + t).lines, Split(Put(c, st).carry + t).carry)
  {
    var more := Split(st.carry + t);
    if c == '\n' {
      Associative([""], st.lines, more.lines);
    } else if st.lines == [] {
      assert [] + more.lines == more.lines;
      Associative([c], st.carry, t);
      assert ([c] + (st.carry + t))[1..] == st.carry + t;
    } else {
      assert (st.lines + more.lines)[1..] == st.lines[1..] + more.lines;
      Associative([[c] + st.lines[0]], st.lines[1..], more.lines);
    }
  }

  lemma {:induction false} CarryAfter(s: string, rest: string)
    requires '\n' !in rest
    ensures Split(s + ("\n" + rest)).carry == rest
  {
    if s == "" {
      FirstLine("", rest);
      CarryHasNoBreak(rest);
    } else {
      var text := s[1..] + ("\n" + rest);
      CarryAfter(s[1..], rest);
      assert (s + ("\n" + rest))[1..] == text;
      CarryHasNoBreak(text);
      assert text[|s[1..]|] == '\n';
    }
  }

  /** How much text a state accounts for; each line had a line feed. */
  function Length(st: State): nat {
    LinesLength(st.lines) + |st.carry|
  }

  function LinesLength(lines: seq<string>): nat {
    if lines == [] then 0 else |lines[0]| + 1 + LinesLength(lines[1..])
  }

  lemma {:induction false} LengthAppend(a: seq<string>, b: seq<string>)
    ensures LinesLength(a + b) == LinesLength(a) + LinesLength(b)
  {
    if a == [] {
      assert a + b == b;
    } else {
      LengthAppend(a[1..], b);
      assert (a + b)[1..] == a[1..] + b;
    }
  }

  lemma {:induction false} SplitLength(s: string)
    ensures Length(Split(s)) == |s|
  {
    if s != "" {
      SplitLength(s[1..]);
      var rest := Split(s[1..]);
      if s[0] == '\n' {
        assert ([""] + rest.lines)[1..] == rest.lines;
      } else if rest.lines != [] {
        assert ([[s[0]] + rest.lines[0]] + rest.lines[1..])[1..] == rest.lines[1..];
      }
    }
  }

  // ----------------------------------------------------------------- the claims

  lemma FeedBounds(st: State, chunk: string, limit: nat)
    requires '\n' !in st.carry
    ensures '\n' !in Feed(st, chunk, limit).carry
    ensures |Feed(st, chunk, limit).carry| <= if |chunk| > limit then |chunk| else limit
  {
    var text := st.carry + chunk;
    CarryHasNoBreak(text);
    if |text| > limit && '\n' in text {
      SplitAppend(st.carry, chunk);
      CarryHasNoBreak(st.carry);
      BreakShortens(chunk, st.carry);
    }
  }

  /** With a line feed in the chunk, the new carry lies within the chunk. */
  lemma {:induction false} BreakShortens(chunk: string, carry: string)
    requires '\n' in chunk && '\n' !in carry
    ensures |Split(carry + chunk).carry| < |chunk|
  {
    if carry == "" {
      assert carry + chunk == chunk;
      CarryHasNoBreak(chunk[1..]);
      if chunk[0] != '\n' {
        assert chunk == [chunk[0]] + chunk[1..];
        BreakShortens(chunk[1..], "");
        assert "" + chunk[1..] == chunk[1..];
      }
    } else {
      BreakShortens(chunk, carry[1..]);
      assert (carry + chunk)[1..] == carry[1..] + chunk && carry[0] in carry;
      CarryHasNoBreak(carry[1..] + chunk);
      assert forall x :: x in chunk ==> x in carry[1..] + chunk;
    }
  }

  /** In every run the carry has no line feed and is no longer than the limit or the last chunk. */
  lemma {:induction false} CarryBounded(chunks: seq<string>, limit: nat)
    ensures '\n' !in Run(chunks, limit).carry
    ensures chunks != [] ==> |Run(chunks, limit).carry| <= if |chunks[|chunks| - 1]| > limit
      then |chunks[|chunks| - 1]| else limit
  {
    if chunks != [] {
      CarryBounded(chunks[..|chunks| - 1], limit);
      FeedBounds(Run(chunks[..|chunks| - 1], limit), chunks[|chunks| - 1], limit);
    }
  }

  lemma {:induction false} RunLength(chunks: seq<string>, limit: nat)
    ensures Length(Run(chunks, limit)) <= |Concat(chunks)|
    ensures !NeverOver(chunks, limit) ==> Length(Run(chunks, limit)) < |Concat(chunks)|
  {
    if chunks != [] {
      var front, last := chunks[..|chunks| - 1], chunks[|chunks| - 1];
      RunLength(front, limit);
      var st := Run(front, limit);
      SplitLength(st.carry + last);
      LengthAppend(st.lines, Split(st.carry + last).lines);
      if |st.carry + last| > limit && '\n' in st.carry + last {
        CarryHasNoBreak(st.carry + last);
      }
    }
  }

  /** The carry of a text is what follows its last line feed. */
  lemma {:induction false} CarryIsSinceBreak(s: string)
    ensures Split(s).carry == SinceBreak(s)
  {
    if s != "" {
      var front, last := s[..|s| - 1], s[|s| - 1];
      CarryIsSinceBreak(front);
      SplitAppend(front, [last]);
      assert s == front + [last];
      CarryHasNoBreak(front);
      OneMore(Split(front).carry, last);
    }
  }

  lemma {:induction false} OneMore(carry: string, c: char)
    requires '\n' !in carry
    ensures Split(carry + [c]).carry == if c == '\n' then "" else carry + [c]
  {
    if c == '\n' {
      CarryAfter(carry, "");
      assert "\n" + "" == [c];
    } else {
      CarryHasNoBreak(carry + [c]);
    }
  }

  /** What has to fit, seen from the input and from the run. */
  lemma {:induction false} FitsIff(chunks: seq<string>, limit: nat)
    ensures Fits(chunks, limit) <==> NeverOver(chunks, limit)
  {
    if chunks != [] {
      var front, last := chunks[..|chunks| - 1], chunks[|chunks| - 1];
      FitsIff(front, limit);
      FitsSnoc(front, last, limit);
      assert chunks == front + [last];
      CarryIsSinceBreak(Concat(front));
      if NeverOver(front, limit) {
        FittingRun(front, limit);
      }
    }
  }

  lemma {:induction false} FitsSnoc(front: seq<string>, last: string, limit: nat)
    ensures Fits(front + [last], limit) <==> Fits(front, limit) && |SinceBreak(Concat(front))| + |last| <= limit
  {
    var chunks := front + [last];
    assert chunks[..|front|] == front && chunks[|front|] == last;
    forall k | 0 <= k < |front| ensures chunks[..k] == front[..k] && chunks[k] == front[k] {
    }
    if Fits(chunks, limit) {
      forall k | 0 <= k < |front| ensures |SinceBreak(Concat(front[..k]))| + |front[k]| <= limit {
        assert |SinceBreak(Concat(chunks[..k]))| + |chunks[k]| <= limit;
      }
    }
  }

  /**
    The lines handed on and the carry are those of the whole input, however it is cut
    into chunks, exactly when each chunk fits.
   */
  lemma {:induction false} ChunkIndependence(chunks: seq<string>, limit: nat)
    ensures Run(chunks, limit) == Split(Concat(chunks)) <==> Fits(chunks, limit)
  {
    FitsIff(chunks, limit);
    if NeverOver(chunks, limit) {
      FittingRun(chunks, limit);
    } else {
      RunLength(chunks, limit);
      SplitLength(Concat(chunks));
    }
  }

  lemma {:induction false} FittingRun(chunks: seq<string>, limit: nat)
    requires NeverOver(chunks, limit)
    ensures Run(chunks, limit) == Split(Concat(chunks))
  {
    if chunks != [] {
      FittingRun(chunks[..|chunks| - 1], limit);
      SplitAppend(Concat(chunks[..|chunks| - 1]), chunks[|chunks| - 1]);
    }
  }

  /** Past the limit even a short line may be handed on cut: what is discarded takes its beginning along. */
  lemma DiscardCutsALine()
    ensures Run(["abc", "d\n"], 2).lines == ["d"] && Split(Concat(["abc", "d\n"])).lines == ["abcd"]
  {
    var chunks := ["abc", "d\n"];
    assert chunks[..1] == ["abc"] && ["abc"][..0] == [];
    assert Run([], 2) == State([], "") && Concat([]) == "";
    assert "" + "abc" == "abc" && Run(["abc"], 2) == State([], "") && Concat(["abc"]) == "abc";
    assert "" + "d\n" == "d" + ("\n" + "") && "abc" + "d\n" == "abcd" + ("\n" + "");
    FirstLine("d", "");
    FirstLine("abcd", "");
  }

  // ----------------------------------------------------------------- the method

  /** The first line feed, or the length. */
  method IndexOfBreak(s: string) returns (i: nat)
    ensures i <= |s| && '\n' !in s[..i] && (i < |s| ==> s[i] == '\n')
  {
    i := 0;
    while i < |s| && s[i] != '\n'
      invariant i <= |s| && '\n' !in s[..i]
    {
      i := i + 1;
    }
  }

  /** The text after the last line feed, and whether there is one. */
  method AfterLastBreak(s: string) returns (found: bool, rest: string)
    ensures found <==> '\n' in s
    ensures found ==> rest == Split(s).carry
  {
    var i := |s|;
    assert s[|s|..] == "";
    while i > 0 && s[i - 1] != '\n'
      invariant 0 <= i <= |s| && '\n' !in s[i..]
    {
      i := i - 1;
    }
    found := i > 0;
    rest := s[i..];
    if found {
      assert s == s[..i - 1] + ("\n" + rest);
      CarryAfter(s[..i - 1], rest);
    } else {
      assert s == s[i..];
    }
  }

  /** The read loop, one turn for each chunk the stream delivers before it ends. */
  method ReadStdout(chunks: seq<string>, limit: nat) returns (lines: seq<string>, buffer: string, overflows: nat)
    ensures State(lines, buffer) == Run(chunks, limit)
    ensures overflows == 0 <==> Fits(chunks, limit)
  {
    lines, buffer, overflows := [], "", 0;
    Prefixes(chunks);
    for i := 0 to |chunks|
      invariant State(lines, buffer) == Run(chunks[..i], limit)
      invariant overflows == 0 <==> NeverOver(chunks[..i], limit)
    {
      assert chunks[..i + 1][..i] == chunks[..i];
      buffer := buffer + chunks[i];
      if |buffer| > limit {
        CarryHasNoBreak(buffer);
        var found, rest := AfterLastBreak(buffer);
        buffer := if found then rest else "";
        overflows := overflows + 1;
        CarryHasNoBreak(buffer);
        assert lines + [] == lines;
      }
      lines, buffer := TakeLines(lines, buffer);
    }
    FitsIff(chunks, limit);
  }

  /** The inner loop: every complete line is cut off the front. */
  method TakeLines(lines: seq<string>, buffer: string) returns (lines': seq<string>, rest: string)
    ensures lines' == lines + Split(buffer).lines && rest == Split(buffer).carry
  {
    lines', rest := lines, buffer;
    var newline: nat := IndexOfBreak(rest);
    while newline < |rest|
      invariant newline <= |rest| && '\n' !in rest[..newline] && (newline < |rest| ==> rest[newline] == '\n')
      invariant lines' + Split(rest).lines == lines + Split(buffer).lines && Split(rest).carry == Split(buffer).carry
      decreases |rest|
    {
      var line := rest[..newline];
      FirstLine(line, rest[newline + 1..]);
      assert rest == line + ("\n" + rest[newline + 1..]);
      Associative(lines', [line], Split(rest[newline + 1..]).lines);
      lines' := lines' + [line];
      rest := rest[newline + 1..];
      newline := IndexOfBreak(rest);
    }
    assert rest[..newline] == rest;
    CarryHasNoBreak(rest);
    assert lines' + [] == lines';
  }
}
