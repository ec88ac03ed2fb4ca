/** The spellings of a trigger list in a front matter, and the triggers each of them stands for. */
module TriggerLists {
  import opened Wrappers
  import opened Lists
  import opened Strings
  import opened Frontmatter
  import opened MergeContent

  // ------------------------------------------------------------- one value

  predicate IsQuoteMark(s: string) {
    s == "'" || s == "\""
  }

  predicate OpensQuoted(s: string) {
    s != "" && IsQuoteMark(s[..1])
  }

  predicate EndsQuoted(s: string) {
    s != "" && IsQuoteMark(s[|s| - 1..])
  }

  /** A quote in front and one behind, if there are such. */
  ghost predicate Quotes(text: string, v: string) {
    exists q, r :: IsQuoting(text, v, q, r)
  }

  ghost predicate IsQuoting(text: string, v: string, q: string, r: string) {
    && text == q + (v + r)
    && (if OpensQuoted(text) then IsQuoteMark(q) else q == "")
    && (if EndsQuoted(v + r) then IsQuoteMark(r) else r == "")
  }

  /** The value a part stands for: white space around it and a quote at either end do not matter. */
  ghost predicate Spells(part: string, v: string) {
    exists a, text, b :: IsPadded(part, a, text, b) && Quotes(text, v)
  }

  ghost predicate IsPadded(part: string, a: string, text: string, b: string) {
    part == a + (text + b) && AllSpace(a) && AllSpace(b) && IsTrimmed(text)
  }

  lemma {:induction false} TrimEndSpaces(s: string, b: string)
    requires AllSpace(b)
    ensures TrimEnd(s + b) == TrimEnd(s)
  {
    if b == "" {
      assert s + b == s;
    } else {
      TrimEndSpaces(s, b[..|b| - 1]);
      assert (s + b)[..|s + b| - 1] == s + b[..|b| - 1];
    }
  }

  lemma TrimsTo(part: string, a: string, text: string, b: string)
    requires IsPadded(part, a, text, b)
    ensures Trim(part) == text
  {
    if text != "" {
      TrimSpaces(a, text + b);
      TrimEndSpaces(text, b);
    } else {
      assert part == a + b && AllSpace(part);
      BlankTrims(part);
    }
  }

  lemma {:induction false} BlankTrims(s: string)
    requires AllSpace(s)
    ensures Trim(s) == ""
  {
    if s != "" {
      assert AllSpace(s[1..]);
      BlankTrims(s[1..]);
    }
  }

  lemma {:induction false} TrimEndIsPrefix(s: string)
    ensures exists b :: AllSpace(b) && s == TrimEnd(s) + b
    ensures TrimEnd(s) != "" ==> !IsSpace(TrimEnd(s)[|TrimEnd(s)| - 1]) && TrimEnd(s)[0] == s[0]
  {
    if s != "" && IsSpace(s[|s| - 1]) {
      var front := s[..|s| - 1];
      TrimEndIsPrefix(front);
      var b :| AllSpace(b) && front == TrimEnd(front) + b;
      assert AllSpace(b + [s[|s| - 1]]) && s == TrimEnd(s) + (b + [s[|s| - 1]]);
    } else {
      assert AllSpace("") && s == TrimEnd(s) + "";
    }
  }

  lemma IsPaddedTrim(part: string)
    ensures exists a, b :: IsPadded(part, a, Trim(part), b)
  {
    SpacesBefore(part);
    TrimStartIsSuffix(part);
    var rest := TrimStart(part);
    TrimEndIsPrefix(rest);
    var b :| AllSpace(b) && rest == Trim(part) + b;
    assert IsPadded(part, Spaces(part), Trim(part), b);
  }

  lemma OpensIff(text: string)
    ensures OpensQuoted(text) <==> text != "" && IsQuote(text[0])
    ensures EndsQuoted(text) <==> text != "" && IsQuote(text[|text| - 1])
  {
    if text != "" {
      assert text[..1] == [text[0]] && text[|text| - 1..] == [text[|text| - 1]];
    }
  }

  /** A text without the quote it opens with. */
  function Opened(text: string): string {
    if OpensQuoted(text) then text[1..] else text
  }

  function Ended(text: string): string {
    if EndsQuoted(text) then text[..|text| - 1] else text
  }

  lemma StripIs(text: string)
    ensures StripQuotes(text) == Ended(Opened(text))
  {
    OpensIff(text);
    OpensIff(Opened(text));
  }

  lemma QuotesSome(text: string)
    ensures Quotes(text, Ended(Opened(text)))
  {
    var q := if OpensQuoted(text) then text[..1] else "";
    var t := Opened(text);
    var r := if EndsQuoted(t) then t[|t| - 1..] else "";
    assert text == q + t && t == Ended(t) + r;
    assert IsQuoting(text, Ended(t), q, r);
  }

  lemma QuotesNoOther(text: string, v: string)
    requires Quotes(text, v)
    ensures v == Ended(Opened(text))
  {
    var q, r :| IsQuoting(text, v, q, r);
    assert v + r == text[|q|..] == Opened(text);
    assert v == (v + r)[..|v + r| - |r|];
  }

  lemma QuotesOnce(text: string)
    ensures Quotes(text, StripQuotes(text))
    ensures forall v :: Quotes(text, v) ==> v == StripQuotes(text)
  {
    StripIs(text);
    QuotesSome(text);
    forall v | Quotes(text, v) ensures v == StripQuotes(text) {
      QuotesNoOther(text, v);
    }
  }

  /** Every part spells one value. */
  lemma SpellsIff(part: string, v: string)
    ensures Spells(part, v) <==> v == StripQuotes(Trim(part))
  {
    IsPaddedTrim(part);
    QuotesOnce(Trim(part));
    if Spells(part, v) {
      var a, text, b :| IsPadded(part, a, text, b) && Quotes(text, v);
      TrimsTo(part, a, text, b);
    }
  }

  // ------------------------------------------------------------ the spellings

  ghost predicate AllSpell(parts: seq<string>, values: seq<string>) {
    |values| == |parts| && forall i :: 0 <= i < |parts| ==> Spells(parts[i], values[i])
  }

  lemma {:induction false} UnquotedAre(parts: seq<string>, values: seq<string>)
    requires AllSpell(parts, values)
    ensures Unquoted(parts) == Keep(values, {""})
  {
    if parts == [] {
      assert values == [];
    } else {
      assert AllSpell(parts[1..], values[1..]);
      UnquotedAre(parts[1..], values[1..]);
      SpellsIff(parts[0], values[0]);
      KeepFirst(values, {""});
    }
  }

  lemma {:induction false} KeepFirst<T>(s: seq<T>, gone: set<T>)
    requires s != []
    ensures Keep(s, gone) == (if s[0] in gone then [] else [s[0]]) + Keep(s[1..], gone)
  {
    if |s| > 1 {
      var front := s[..|s| - 1];
      KeepFirst(front, gone);
      assert front[1..] == s[1..][..|s[1..]| - 1];
    }
  }

  lemma {:induction false} JoinedNoTerminator(parts: seq<string>)
    requires forall i :: 0 <= i < |parts| ==> NoTerminator(parts[i])
    ensures NoTerminator(Join(parts, ","))
  {
    if |parts| > 1 {
      JoinedNoTerminator(parts[1..]);
    }
  }

  /** A list in brackets on the key line stands for what its parts spell, the empty ones left out. */
  lemma InlineListIs(b: Block, parts: seq<string>, values: seq<string>)
    requires b.lines != [] && parts != [] && AfterKey(b.lines[0]) == "[" + (Join(parts, ",") + "]")
    requires forall i :: 0 <= i < |parts| ==> NoTerminator(parts[i]) && ',' !in parts[i]
    requires AllSpell(parts, values)
    ensures TriggerValues(b) == Keep(values, {""})
  {
    JoinedNoTerminator(parts);
    Bracketed(b, Join(parts, ","));
    SplitJoin(parts, ',');
    UnquotedAre(parts, values);
  }

  /** What the expression for one value on the key line gives. */
  lemma ScalarTaken(b: Block, rest: string)
    requires b.lines != [] && rest == TrimStart(AfterKey(b.lines[0])) && rest != "" && rest[0] != '['
    requires NoTerminator(rest)
    ensures TriggerValues(b) == Unquoted([rest])
  {
    TrimEndIsPrefix(rest);
  }

  lemma TrimmedStart(line: string)
    ensures Trim(TrimStart(line)) == Trim(line)
    ensures NoTerminator(line) ==> NoTerminator(TrimStart(line))
    ensures Trim(line) != "" ==> TrimStart(line) != "" && TrimStart(line)[0] == Trim(line)[0]
  {
    TrimStartIsSuffix(line);
    TrimEndIsPrefix(TrimStart(line));
    TrimStartTwice(line);
  }

  lemma OneUnquoted(part: string, v: string)
    requires Spells(part, v)
    ensures Unquoted([part]) == Keep([v], {""})
  {
    UnquotedAre([part], [v]);
  }

  /** One value on the key line, with no bracket around it. */
  lemma InlineScalarIs(b: Block, v: string)
    requires b.lines != [] && Spells(AfterKey(b.lines[0]), v)
    requires NoTerminator(AfterKey(b.lines[0])) && Trim(AfterKey(b.lines[0])) != ""
    requires Trim(AfterKey(b.lines[0]))[0] != '['
    ensures TriggerValues(b) == Keep([v], {""})
  {
    var line := AfterKey(b.lines[0]);
    TrimmedStart(line);
    SpellsIff(line, v);
    SpellsIff(TrimStart(line), v);
    ScalarTaken(b, TrimStart(line));
    OneUnquoted(TrimStart(line), v);
  }

  lemma {:induction false} TrimStartTwice(s: string)
    ensures TrimStart(TrimStart(s)) == TrimStart(s)
  {
    TrimStartIsSuffix(s);
  }

  // ------------------------------------------------ the spellings stand for the same

  /** A value that can be written in each of them. */
  predicate Writable(v: string) {
    v != "" && NoTerminator(v) && IsTrimmed(v) && ',' !in v && !OpensQuoted(v) && !EndsQuoted(v) && v[0] != '['
  }

  lemma PlainSpells(v: string)
    requires Writable(v)
    ensures Quotes(v, v) && Spells(v, v) && Spells(" " + v, v)
  {
    assert v + "" == v;
    assert IsQuoting(v, v, "", "");
    assert IsPadded(v, "", v, "") && IsPadded(" " + v, " ", v, "");
  }

  lemma QuotedSpells(v: string)
    requires Writable(v)
    ensures Spells("\"" + (v + "\""), v)
  {
    var quoted := "\"" + (v + "\"");
    assert quoted[..1] == "\"" && (v + "\"")[|v|..] == "\"";
    assert IsQuoting(quoted, v, "\"", "\"");
    assert IsPadded(quoted, "", quoted, "");
  }

  function QuotedAll(values: seq<string>): (r: seq<string>)
    ensures |r| == |values| && forall i :: 0 <= i < |r| ==> r[i] == "\"" + (values[i] + "\"")
  {
    seq(|values|, i requires 0 <= i < |values| => "\"" + (values[i] + "\""))
  }

  lemma {:induction false} KeepWritable(values: seq<string>)
    requires forall i :: 0 <= i < |values| ==> Writable(values[i])
    ensures Keep(values, {""}) == values
  {
    if values != [] {
      KeepWritable(values[..|values| - 1]);
      assert values == values[..|values| - 1] + [values[|values| - 1]];
    }
  }

  lemma WritablesSpell(values: seq<string>)
    requires forall i :: 0 <= i < |values| ==> Writable(values[i])
    ensures AllSpell(values, values) && AllSpell(QuotedAll(values), values)
    ensures forall i :: 0 <= i < |values| ==> NoTerminator(QuotedAll(values)[i]) && ',' !in QuotedAll(values)[i]
  {
    forall i | 0 <= i < |values|
      ensures Spells(values[i], values[i]) && Spells(QuotedAll(values)[i], values[i])
      ensures NoTerminator(QuotedAll(values)[i]) && ',' !in QuotedAll(values)[i]
    {
      PlainSpells(values[i]);
      QuotedSpells(values[i]);
    }
  }

  /** The dash list, the bare list in brackets and the quoted one are read as the same triggers. */
  lemma SpellingsAgree(values: seq<string>)
    requires values != [] && forall i :: 0 <= i < |values| ==> Writable(values[i])
    ensures TriggerValues(TriggerBlock(values)) == values
    ensures TriggerValues(ListBlock(values)) == values
    ensures TriggerValues(ListBlock(QuotedAll(values))) == values
  {
    TriggerBlockReads(values);
    WritablesSpell(values);
    KeepWritable(values);
    OnKeyLine(values, values);
    OnKeyLine(QuotedAll(values), values);
  }

  /** A list in brackets on the key line. */
  function ListBlock(parts: seq<string>): Block {
    Block(Triggers, [Triggers + (":" + ("[" + (Join(parts, ",") + "]")))])
  }

  lemma OnKeyLine(parts: seq<string>, values: seq<string>)
    requires parts != [] && AllSpell(parts, values)
    requires forall i :: 0 <= i < |parts| ==> NoTerminator(parts[i]) && ',' !in parts[i]
    ensures TriggerValues(ListBlock(parts)) == Keep(values, {""})
  {
    TriggersIsKey();
    var list := "[" + (Join(parts, ",") + "]");
    KeyLine(Triggers, list);
    InlineListIs(ListBlock(parts), parts, values);
  }

  /** One trigger on the key line. */
  lemma ScalarAgrees(v: string)
    requires Writable(v)
    ensures TriggerValues(Block(Triggers, [Triggers + (":" + (" " + v))])) == [v]
  {
    TriggersIsKey();
    KeyLine(Triggers, " " + v);
    PlainSpells(v);
    TrimsTo(" " + v, " ", v, "");
    InlineScalarIs(Block(Triggers, [Triggers + (":" + (" " + v))]), v);
    KeepWritable([v]);
  }
}
