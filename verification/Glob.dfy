/**
  Tool access by glob patterns: the compiled regular expression accepts what the glob
  accepts, the table of compiled patterns never disagrees, and policies decide by globs.
  Characters are UTF-16 code units.
 */
module Glob {
  import opened Wrappers
  import opened Strings

  // ------------------------------------------------- what a pattern stands for

  predicate All(s: string, any: char -> bool) {
    forall i :: 0 <= i < |s| ==> any(s[i])
  }

  /** `*` stands for any string and `?` for any one character, of those a wildcard may be. */
  ghost predicate Accepts(pattern: string, name: string, any: char -> bool)
    decreases |pattern|
  {
    if pattern == "" then name == ""
    else if pattern[0] == '*' then
      exists k :: 0 <= k <= |name| && All(name[..k], any) && Accepts(pattern[1..], name[k..], any)
    else
      && name != "" && (if pattern[0] == '?' then any(name[0]) else name[0] == pattern[0])
      && Accepts(pattern[1..], name[1..], any)
  }

  ghost predicate StarTakes(pattern: string, name: string, k: nat, any: char -> bool)
    requires pattern != "" && k <= |name|
  {
    All(name[..k], any) && Accepts(pattern[1..], name[k..], any)
  }

  lemma AcceptsStar(pattern: string, name: string, any: char -> bool)
    requires pattern != "" && pattern[0] == '*'
    ensures Accepts(pattern, name, any) <==> exists k :: 0 <= k <= |name| && StarTakes(pattern, name, k, any)
  {
    if Accepts(pattern, name, any) {
      var k :| 0 <= k <= |name| && All(name[..k], any) && Accepts(pattern[1..], name[k..], any);
      assert StarTakes(pattern, name, k, any);
    }
    if k :| 0 <= k <= |name| && StarTakes(pattern, name, k, any) {
      assert All(name[..k], any) && Accepts(pattern[1..], name[k..], any);
    }
  }

  predicate AnyChar(c: char) {
    true
  }

  // ------------------------------------------------------- regular expressions

  /** What one part matches: a given character or `.`. */
  datatype Part = Literal(c: char) | Dot

  datatype Atom = Once(part: Part) | Repeat(part: Part)

  predicate IsSyntax(c: char) {
    c in {'.', '+', '^', '$', '{', '}', '(', ')', '|', '[', ']', '\\', '*', '?'}
  }

  predicate PartMatches(part: Part, c: char) {
    match part case Literal(x) => c == x case Dot => !IsTerminator(c)
  }

  datatype PartRead = NoPart | APart(part: Part, rest: string)

  /** An escaped syntax character, `.`, or a character that is no syntax. */
  function ReadPart(text: string): (r: PartRead)
    requires text != ""
    ensures r.APart? ==> |r.rest| < |text|
  {
    if text[0] == '\\' then
      if |text| > 1 && IsSyntax(text[1]) then APart(Literal(text[1]), text[2..]) else NoPart
    else if text[0] == '.' then APart(Dot, text[1..])
    else if IsSyntax(text[0]) then NoPart
    else APart(Literal(text[0]), text[1..])
  }

  /** The text between `^` and `$`: parts, each with or without `*` after it. */
  function ReadRegex(text: string): Option<seq<Atom>>
    decreases |text|
  {
    if text == "" then Some([])
    else match ReadPart(text)
      case NoPart => None
      case APart(part, rest) =>
        if rest != "" && rest[0] == '*' then Cons(Repeat(part), ReadRegex(rest[1..]))
        else Cons(Once(part), ReadRegex(rest))
  }

  function Cons(a: Atom, rest: Option<seq<Atom>>): Option<seq<Atom>> {
    match rest case None => None case Some(atoms) => Some([a] + atoms)
  }

  predicate AllOf(s: string, part: Part) {
    forall i :: 0 <= i < |s| ==> PartMatches(part, s[i])
  }

  ghost predicate Matches(atoms: seq<Atom>, name: string)
    decreases |atoms|
  {
    if atoms == [] then name == ""
    else match atoms[0]
      case Once(part) => name != "" && PartMatches(part, name[0]) && Matches(atoms[1..], name[1..])
      case Repeat(part) => exists k :: 0 <= k <= |name| && AllOf(name[..k], part) && Matches(atoms[1..], name[k..])
  }

  ghost predicate RepeatTakes(atoms: seq<Atom>, name: string, k: nat)
    requires atoms != [] && k <= |name|
  {
    AllOf(name[..k], atoms[0].part) && Matches(atoms[1..], name[k..])
  }

  lemma MatchesRepeat(atoms: seq<Atom>, name: string)
    requires atoms != [] && atoms[0].Repeat?
    ensures Matches(atoms, name) <==> exists k :: 0 <= k <= |name| && RepeatTakes(atoms, name, k)
  {
    if Matches(atoms, name) {
      var k :| 0 <= k <= |name| && AllOf(name[..k], atoms[0].part) && Matches(atoms[1..], name[k..]);
      assert RepeatTakes(atoms, name, k);
    }
    if k :| 0 <= k <= |name| && RepeatTakes(atoms, name, k) {
      assert AllOf(name[..k], atoms[0].part) && Matches(atoms[1..], name[k..]);
    }
  }

  // ------------------------------------------------------------- the compiler

  /** The first replacement: every syntax character but `*` and `?` gets a backslash. */
  function Escape(p: string): string {
    if p == "" then ""
    else (if IsSyntax(p[0]) && p[0] != '*' && p[0] != '?' then ['\\', p[0]] else [p[0]]) + Escape(p[1..])
  }

  function DropStars(p: string): (r: string)
    ensures |r| <= |p|
  {
    if p != "" && p[0] == '*' then DropStars(p[1..]) else p
  }

  /** The second: every run of `*` becomes `.*`. */
  function Collapse(p: string): string
    decreases |p|
  {
    if p == "" then ""
    else if p[0] == '*' then ".*" + Collapse(DropStars(p[1..]))
    else [p[0]] + Collapse(p[1..])
  }

  /** The third: every `?` becomes `.`. */
  function Question(p: string): string {
    if p == "" then "" else [if p[0] == '?' then '.' else p[0]] + Question(p[1..])
  }

  function RegexText(pattern: string): string {
    Question(Collapse(Escape(pattern)))
  }

  /** What the text is read as. */
  function Atoms(p: string): seq<Atom>
    decreases |p|
  {
    if p == "" then []
    else if p[0] == '*' then [Repeat(Dot)] + Atoms(DropStars(p[1..]))
    else [Once(if p[0] == '?' then Dot else Literal(p[0]))] + Atoms(p[1..])
  }

  lemma {:induction false} DropEscaped(p: string)
    ensures DropStars(Escape(p)) == Escape(DropStars(p))
  {
    if p != "" && p[0] == '*' {
      assert Escape(p) == ['*'] + Escape(p[1..]) && Escape(p)[1..] == Escape(p[1..]);
      DropEscaped(p[1..]);
    } else if p != "" {
      assert Escape(p)[0] != '*';
    }
  }

  /** What one character of the pattern adds to the text. */
  function Piece(c: char): string {
    if c == '?' then "." else if IsSyntax(c) then ['\\', c] else [c]
  }

  lemma CollapseOne(c: char, rest: string)
    requires c != '*'
    ensures Collapse([c] + rest) == [c] + Collapse(rest)
  {
    assert ([c] + rest)[1..] == rest;
  }

  lemma QuestionOne(c: char, rest: string)
    ensures Question([c] + rest) == [if c == '?' then '.' else c] + Question(rest)
  {
    assert ([c] + rest)[1..] == rest;
  }

  lemma TextOfStar(p: string)
    requires p != "" && p[0] == '*'
    ensures RegexText(p) == ".*" + RegexText(DropStars(p[1..]))
  {
    var e := Escape(p[1..]);
    assert Escape(p) == ['*'] + e && Escape(p)[1..] == e;
    DropEscaped(p[1..]);
    var rest := Collapse(Escape(DropStars(p[1..])));
    assert Collapse(Escape(p)) == ['.'] + (['*'] + rest);
    QuestionOne('.', ['*'] + rest);
    QuestionOne('*', rest);
  }

  lemma TextOfSyntax(p: string)
    requires p != "" && IsSyntax(p[0]) && p[0] != '*' && p[0] != '?'
    ensures RegexText(p) == ['\\', p[0]] + RegexText(p[1..])
  {
    var e := Escape(p[1..]);
    assert Escape(p) == ['\\'] + ([p[0]] + e);
    CollapseOne('\\', [p[0]] + e);
    CollapseOne(p[0], e);
    QuestionOne('\\', [p[0]] + Collapse(e));
    QuestionOne(p[0], Collapse(e));
  }

  lemma TextOf(p: string)
    requires p != ""
    ensures RegexText(p) == if p[0] == '*' then ".*" + RegexText(DropStars(p[1..])) else Piece(p[0]) + RegexText(p[1..])
  {
    if p[0] == '*' {
      TextOfStar(p);
    } else if IsSyntax(p[0]) && p[0] != '?' {
      TextOfSyntax(p);
    } else {
      CollapseOne(p[0], Escape(p[1..]));
      QuestionOne(p[0], Collapse(Escape(p[1..])));
    }
  }

  /** The text does not start with `*`, so nothing before it is repeated by accident. */
  lemma StartsPart(p: string)
    ensures RegexText(p) == "" || RegexText(p)[0] != '*'
  {
    if p != "" {
      TextOf(p);
    }
  }

  /** The emitted text is well formed and is read as the pattern's parts. */
  lemma {:induction false} TextReads(p: string)
    ensures ReadRegex(RegexText(p)) == Some(Atoms(p))
    decreases |p|
  {
    if p != "" {
      TextOf(p);
      var text := RegexText(p);
      if p[0] == '*' {
        var rest := RegexText(DropStars(p[1..]));
        TextReads(DropStars(p[1..]));
        assert text[1..] == "*" + rest && text[1..][1..] == rest;
      } else {
        var rest := RegexText(p[1..]);
        TextReads(p[1..]);
        StartsPart(p[1..]);
        assert text[|Piece(p[0])|..] == rest;
        assert ReadPart(text) == APart(if p[0] == '?' then Dot else Literal(p[0]), rest);
      }
    }
  }

  predicate NoTerminator(c: char) {
    !IsTerminator(c)
  }

  /** A star can take one character more. */
  /** Two stars take what one takes. */
  lemma {:induction false} StarTwice(pattern: string, name: string, k: nat, any: char -> bool)
    requires |pattern| > 1 && pattern[0] == '*' && pattern[1] == '*' && k <= |name|
    requires StarTakes(pattern, name, k, any)
    ensures Accepts(pattern[1..], name, any)
  {
    var q, tail := pattern[1..], name[k..];
    AcceptsStar(q, tail, any);
    AcceptsStar(q, name, any);
    var j :| 0 <= j <= |tail| && StarTakes(q, tail, j, any);
    TakesMore(q, name, k, j, any);
  }

  lemma {:induction false} TakesMore(q: string, name: string, k: nat, j: nat, any: char -> bool)
    requires q != "" && q[0] == '*' && k <= |name| && j <= |name[k..]|
    requires All(name[..k], any) && StarTakes(q, name[k..], j, any)
    ensures StarTakes(q, name, k + j, any)
  {
    assert name[k..][j..] == name[k + j..];
    var whole := name[..k + j];
    forall i | 0 <= i < |whole| ensures any(whole[i]) {
      if i < k {
        assert name[..k][i] == name[i];
      } else {
        assert name[k..][..j][i - k] == name[i];
      }
    }
  }

  lemma {:induction false} StarAgain(pattern: string, name: string, any: char -> bool)
    requires pattern != "" && pattern[0] == '*' && pattern[1..] != "" && pattern[1] == '*'
    ensures Accepts(pattern, name, any) <==> Accepts(pattern[1..], name, any)
  {
    AcceptsStar(pattern, name, any);
    if Accepts(pattern, name, any) {
      var k :| 0 <= k <= |name| && StarTakes(pattern, name, k, any);
      StarTwice(pattern, name, k, any);
    }
    if Accepts(pattern[1..], name, any) {
      assert name[..0] == "" && name[0..] == name;
      assert StarTakes(pattern, name, 0, any);
    }
  }

  lemma {:induction false} RunAsOne(p: string, name: string, any: char -> bool)
    requires p != "" && p[0] == '*'
    ensures Accepts(p, name, any) <==> Accepts("*" + DropStars(p[1..]), name, any)
    decreases |p|
  {
    if p[1..] != "" && p[1] == '*' {
      StarAgain(p, name, any);
      RunAsOne(p[1..], name, any);
    } else {
      assert p == "*" + DropStars(p[1..]);
    }
  }

  /** The parts match exactly the names the glob accepts, a wildcard never taking a line terminator. */
  lemma {:induction false} AtomsAccept(p: string, name: string)
    ensures Matches(Atoms(p), name) <==> Accepts(p, name, NoTerminator)
    decreases |p|
  {
    if p == "" {
    } else if p[0] == '*' {
      var q := DropStars(p[1..]);
      RunAsOne(p, name, NoTerminator);
      assert ("*" + q)[1..] == q;
      assert Atoms(p)[1..] == Atoms(q);
      MatchesRepeat(Atoms(p), name);
      AcceptsStar("*" + q, name, NoTerminator);
      forall k | 0 <= k <= |name| ensures RepeatTakes(Atoms(p), name, k)
        <==> StarTakes("*" + q, name, k, NoTerminator) {
        AtomsAccept(q, name[k..]);
        assert AllOf(name[..k], Dot) <==> All(name[..k], NoTerminator);
      }
    } else if name != "" {
      AtomsAccept(p[1..], name[1..]);
      assert Atoms(p)[1..] == Atoms(p[1..]);
    }
  }

  ghost predicate RegexAccepts(text: string, name: string) {
    ReadRegex(text).Some? && Matches(ReadRegex(text).value, name)
  }

  lemma {:induction false} AnyIfNoTerminator(p: string, name: string)
    requires All(name, NoTerminator)
    ensures Accepts(p, name, NoTerminator) <==> Accepts(p, name, AnyChar)
    decreases |p|
  {
    if p == "" {
    } else if p[0] == '*' {
      AcceptsStar(p, name, NoTerminator);
      AcceptsStar(p, name, AnyChar);
      forall k | 0 <= k <= |name| ensures StarTakes(p, name, k, NoTerminator) <==> StarTakes(p, name, k, AnyChar) {
        AnyIfNoTerminator(p[1..], name[k..]);
      }
    } else if name != "" {
      AnyIfNoTerminator(p[1..], name[1..]);
    }
  }

  /** For any pattern and any name without line terminators, the compiled expression is the glob. */
  lemma CompiledIsGlob(p: string, name: string)
    ensures RegexAccepts(RegexText(p), name) <==> Accepts(p, name, NoTerminator)
    ensures All(name, NoTerminator) ==> (RegexAccepts(RegexText(p), name) <==> Accepts(p, name, AnyChar))
  {
    TextReads(p);
    AtomsAccept(p, name);
    if All(name, NoTerminator) {
      AnyIfNoTerminator(p, name);
    }
  }

  /** A name with a line feed: the glob takes it, the expression does not. */
  lemma TerminatorIsNotMatched()
    ensures Accepts("*", "\n", AnyChar) && !RegexAccepts(RegexText("*"), "\n")
  {
    var line := "\n";
    CompiledIsGlob("*", line);
    AcceptsStar("*", line, AnyChar);
    AcceptsStar("*", line, NoTerminator);
    assert "*"[1..] == "" && line[1..] == "" && line[0] == '\n';
    assert StarTakes("*", line, 1, AnyChar);
    assert !Accepts("", line[0..], NoTerminator);
    assert line[..1][0] == '\n';
    assert !StarTakes("*", line, 0, NoTerminator) && !StarTakes("*", line, 1, NoTerminator);
  }

  // ----------------------------------------------------------------- the table

  const MaxPattern: nat := 200

  /** Compiled patterns, kept by pattern. */
  class RegexCache {
    var table: map<string, string>

    ghost predicate Valid() reads this {
      forall p :: p in table ==> |p| <= MaxPattern && table[p] == RegexText(p)
    }

    constructor ()
      ensures Valid() && table == map[]
    {
      table := map[];
    }

    /** A pattern is compiled once; one that is too long is never stored. */
    method GlobToRegex(pattern: string) returns (r: Option<string>)
      requires Valid()
      modifies this
      ensures Valid() && r == if |pattern| > MaxPattern then None else Some(RegexText(pattern))
      ensures table == if |pattern| > MaxPattern then old(table) else old(table)[pattern := RegexText(pattern)]
    {
      if pattern in table {
        return Some(table[pattern]);
      }
      if |pattern| > MaxPattern {
        return None;
      }
      var regex := Question(Collapse(Escape(pattern)));
      table := table[pattern := regex];
      r := Some(regex);
    }

    /** Whether a name matches some pattern; a pattern too long fails the test unless an earlier one matches. */
    method MatchesAny(name: string, patterns: seq<string>, test: (string, string) -> bool) returns (r: Option<bool>)
      requires Valid() && Tests(test)
      modifies this
      ensures Valid() && r == AnyMatch(name, patterns)
    {
      for i := 0 to |patterns|
        invariant Valid() && AnyMatch(name, patterns) == AnyMatch(name, patterns[i..])
      {
        assert patterns[i..][1..] == patterns[i + 1..];
        var regex := GlobToRegex(patterns[i]);
        if regex == None {
          return None;
        }
        CompiledIsGlob(patterns[i], name);
        if test(regex.value, name) {
          return Some(true);
        }
      }
      r := Some(false);
    }

    method CheckToolAccess(name: string, policy: Policy, test: (string, string) -> bool) returns (r: Option<Decision>)
      requires Valid() && Tests(test)
      modifies this
      ensures Valid() && r == Access(name, policy)
    {
      if policy.allow != [] {
        var inList := MatchesAny(name, policy.allow, test);
        if inList != Some(true) {
          return if inList == None then None else Some(NotListed);
        }
      }
      if policy.block != [] {
        var blocked := MatchesAny(name, policy.block, test);
        if blocked != Some(false) {
          return if blocked == None then None else Some(Blocked);
        }
      }
      r := Some(Allowed);
    }

    /** The tools a policy lets through, in order; all of them without a policy. */
    method FilterTools(names: seq<string>, policy: Policy, test: (string,
        string) -> bool) returns (r: Option<seq<string>>)
      requires Valid() && Tests(test)
      modifies this
      ensures Valid() && r == Filtered(names, policy)
    {
      if policy.allow == [] && policy.block == [] {
        NoPolicyAllows(names, policy);
        return Some(names);
      }
      var kept := [];
      assert names[..0] == [];
      for i := 0 to |names|
        invariant Valid() && Filtered(names[..i], policy) == Some(kept)
      {
        assert names[..i + 1][..i] == names[..i];
        var decision := CheckToolAccess(names[i], policy, test);
        if decision == None {
          FilterFails(names, i, policy);
          return None;
        }
        if decision == Some(Allowed) {
          kept := kept + [names[i]];
        }
      }
      assert names[..|names|] == names;
      r := Some(kept);
    }
  }

  /** The engine's test: whether an expression accepts a name. */
  ghost predicate Tests(test: (string, string) -> bool) {
    forall text, name :: test(text, name) <==> RegexAccepts(text, name)
  }

  // ------------------------------------------------------------------ policies

  /** The allow and block lists; a missing list is an empty one. */
  datatype Policy = Policy(allow: seq<string>, block: seq<string>)

  datatype Decision = Allowed | NotListed | Blocked

  /** The first pattern that matches, or is too long, decides. */
  ghost function AnyMatch(name: string, patterns: seq<string>): Option<bool> {
    if patterns == [] then Some(false)
    else if |patterns[0]| > MaxPattern then None
    else if Accepts(patterns[0], name, NoTerminator) then Some(true)
    else AnyMatch(name, patterns[1..])
  }

  ghost function Access(name: string, policy: Policy): Option<Decision> {
    match if policy.allow == [] then Some(true) else AnyMatch(name, policy.allow)
    case None => None
    case Some(false) => Some(NotListed)
    case Some(true) =>
      match AnyMatch(name, policy.block)
      case None => None
      case Some(blocked) => Some(if blocked then Blocked else Allowed)
  }

  ghost function Filtered(names: seq<string>, policy: Policy): Option<seq<string>> {
    if names == [] then Some([])
    else match (Filtered(names[..|names| - 1], policy), Access(names[|names| - 1], policy))
      case (Some(kept), Some(decision)) => Some(if decision == Allowed then kept + [names[|names| - 1]] else kept)
      case _ => None
  }

  lemma {:induction false} FilterFails(names: seq<string>, i: nat, policy: Policy)
    requires i < |names| && Access(names[i], policy) == None
    ensures Filtered(names, policy) == None
  {
    if i < |names| - 1 {
      FilterFails(names[..|names| - 1], i, policy);
    }
  }

  lemma {:induction false} NoPolicyAllows(names: seq<string>, policy: Policy)
    requires policy.allow == [] && policy.block == []
    ensures Filtered(names, policy) == Some(names)
  {
    if names != [] {
      NoPolicyAllows(names[..|names| - 1], policy);
      assert names == names[..|names| - 1] + [names[|names| - 1]];
    }
  }

  /** Some pattern accepts the name. */
  ghost predicate SomeAccepts(name: string, patterns: seq<string>) {
    exists p :: p in patterns && Accepts(p, name, NoTerminator)
  }

  lemma {:induction false} AnyMatchIff(name: string, patterns: seq<string>)
    requires forall p :: p in patterns ==> |p| <= MaxPattern
    ensures AnyMatch(name, patterns) == Some(SomeAccepts(name, patterns))
  {
    if patterns != [] {
      AnyMatchIff(name, patterns[1..]);
      assert patterns == [patterns[0]] + patterns[1..];
    }
  }

  /**
    With patterns of the allowed length a tool is let through exactly when some allow
    pattern accepts its name, or there is none, and no block pattern accepts it. So a
    block pattern always wins, and the order of patterns does not matter.
   */
  lemma AllowedIff(name: string, policy: Policy)
    requires forall p :: p in policy.allow || p in policy.block ==> |p| <= MaxPattern
    ensures Access(name, policy) == Some(Allowed) <==>
            (policy.allow == [] || SomeAccepts(name, policy.allow)) && !SomeAccepts(name, policy.block)
    ensures Access(name, policy) == Some(NotListed) <==> policy.allow != [] && !SomeAccepts(name, policy.allow)
    ensures Access(name, policy) == Some(Blocked) <==>
            (policy.allow == [] || SomeAccepts(name, policy.allow)) && SomeAccepts(name, policy.block)
  {
    AnyMatchIff(name, policy.allow);
    AnyMatchIff(name, policy.block);
  }

  /** A pattern counts as too long from 201 characters on, and it fails the test unless an earlier one decides. */
  lemma {:induction false} TooLongIff(name: string, patterns: seq<string>)
    ensures AnyMatch(name, patterns) == None <==> exists k :: FirstTooLong(name, patterns, k)
  {
    if patterns != [] {
      TooLongIff(name, patterns[1..]);
      if |patterns[0]| <= 200 && !Accepts(patterns[0], name, NoTerminator) {
        if AnyMatch(name, patterns[1..]) == None {
          var k :| FirstTooLong(name, patterns[1..], k);
          forall j | 0 <= j < k + 1 ensures |patterns[j]| <= 200 && !Accepts(patterns[j], name, NoTerminator) {
            assert j > 0 ==> patterns[j] == patterns[1..][j - 1];
          }
          assert FirstTooLong(name, patterns, k + 1);
        }
        if k :| FirstTooLong(name, patterns, k) {
          assert patterns[1..][k - 1] == patterns[k];
          forall j | 0 <= j < k - 1
            ensures |patterns[1..][j]| <= 200 && !Accepts(patterns[1..][j], name, NoTerminator)
          {
            assert patterns[1..][j] == patterns[j + 1];
          }
          assert FirstTooLong(name, patterns[1..], k - 1);
        }
      } else if |patterns[0]| > 200 {
        assert FirstTooLong(name, patterns, 0);
      }
    }
  }

  /** The `k`-th pattern has more than 200 characters, and none before it decides. */
  ghost predicate FirstTooLong(name: string, patterns: seq<string>, k: int) {
    && 0 <= k < |patterns| && |patterns[k]| > 200
    && forall j :: 0 <= j < k ==> |patterns[j]| <= 200 && !Accepts(patterns[j], name, NoTerminator)
  }
}
