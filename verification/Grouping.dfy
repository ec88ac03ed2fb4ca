/**
  Grouping tools by the noun in their names, or by the alphabet when nouns do not tell
  them apart. No tool is lost or listed twice.
 */
module Grouping {
  import opened Lists
  import opened Strings
  import opened Ordering

  /** The tools collected under one noun. */
  datatype Entry<K, T> = Entry(noun: K, tools: seq<T>)

  datatype ToolGroup<T> = ToolGroup(prefix: string, caption: string, tools: seq<T>, filename: string)

  // --------------------------------------------------------------------- nouns

  /** The last underscore segment of a name. */
  function ExtractNoun(name: string): string {
    var segments := SplitOn(name, '_');
    segments[|segments| - 1]
  }

  /** A trailing "s" is dropped from longer nouns. */
  function NormalizeNoun(noun: string): string {
    if |noun| > 3 && noun[|noun| - 1] == 's' then noun[..|noun| - 1] else noun
  }

  function NounOf(name: string): string {
    NormalizeNoun(ExtractNoun(name))
  }

  /** The part of a name behind its last underscore, or all of it. */
  ghost predicate IsLastSegment(name: string, noun: string) {
    '_' !in noun && (name == noun || exists before :: name == before + ("_" + noun))
  }

  lemma {:induction false} LastSegmentIs(name: string)
    ensures forall noun :: IsLastSegment(name, noun) <==> noun == ExtractNoun(name)
  {
    JoinSplit(name, '_');
    var segments := SplitOn(name, '_');
    var front, last := segments[..|segments| - 1], segments[|segments| - 1];
    assert segments == front + [last];
    if front != [] {
      JoinAppend(front, [last], "_");
      assert name == Join(front, "_") + ("_" + last);
    }
    forall noun | IsLastSegment(name, noun) ensures noun == last {
      if name == noun {
        SplitWhole(noun, '_');
      } else {
        var before :| name == before + ("_" + noun);
        JoinSplit(before, '_');
        SplitWhole(noun, '_');
        JoinAppend(SplitOn(before, '_'), [noun], "_");
        SplitJoin(SplitOn(before, '_') + [noun], '_');
      }
    }
  }

  /** A noun of more than three characters that ends in "s". */
  ghost predicate IsFolded(noun: string) {
    exists one :: |one| >= 3 && noun == one + "s"
  }

  /** `many` is the longer form of `one`, which has no shorter form itself. */
  ghost predicate IsPlural(many: string, one: string) {
    many == one + "s" && |many| > 3 && !IsFolded(one)
  }

  /** Two nouns that stand for one group: the same one, or a noun and its plural. */
  ghost predicate SameNoun(a: string, b: string) {
    a == b || IsPlural(a, b) || IsPlural(b, a)
  }

  lemma FoldedIff(noun: string)
    ensures IsFolded(noun) <==> |noun| > 3 && noun[|noun| - 1] == 's'
  {
    if |noun| > 3 && noun[|noun| - 1] == 's' {
      assert noun == noun[..|noun| - 1] + "s";
    }
  }

  /** Nouns fold into one exactly when they are the same or differ by a plural "s". */
  lemma SameNounIff(a: string, b: string)
    ensures NormalizeNoun(a) == NormalizeNoun(b) <==> SameNoun(a, b)
    ensures SameNoun(NormalizeNoun(a), a) || IsPlural(a, NormalizeNoun(a)) || IsFolded(NormalizeNoun(a))
  {
    FoldedIff(a);
    FoldedIff(b);
    FoldedIff(NormalizeNoun(a));
    assert IsFolded(a) ==> a == NormalizeNoun(a) + "s";
    assert IsFolded(b) ==> b == NormalizeNoun(b) + "s";
  }

  /** The first letter in upper case; `upper` is the host's conversion. */
  function Capitalize(s: string, upper: char -> string): string {
    if s == "" then s else upper(s[0]) + s[1..]
  }

  /** `k` leading segments are shared by all names, and every name has more. */
  predicate Shared(segmented: seq<seq<string>>, k: nat) {
    && (forall i :: 0 <= i < |segmented| ==> k < |segmented[i]|)
    && (forall i :: 0 <= i < |segmented| ==> segmented[i][..k] == segmented[0][..k])
  }

  predicate IsLongest(segmented: seq<seq<string>>, k: nat) {
    Shared(segmented, k) && !Shared(segmented, k + 1)
  }

  /** What is left of a name after its first segments ends in the same noun. */
  lemma {:induction false} StripKeepsNoun(name: string, k: nat)
    requires 0 < k < |SplitOn(name, '_')|
    ensures
      var prefix := Join(SplitOn(name, '_')[..k], "_");
      |prefix| < |name| && name == prefix + ("_" + name[|prefix| + 1..])
        && ExtractNoun(name[|prefix| + 1..]) == ExtractNoun(name)
  {
    var segments := SplitOn(name, '_');
    JoinSplit(name, '_');
    assert segments == segments[..k] + segments[k..];
    JoinAppend(segments[..k], segments[k..], "_");
    var prefix, rest := Join(segments[..k], "_"), Join(segments[k..], "_");
    assert name[|prefix| + 1..] == rest;
    SplitJoin(segments[k..], '_');
  }

  /** Whether the `i`-th segment of every name is that of the first. */
  method AllMatch(segmented: seq<seq<string>>, i: nat) returns (all: bool)
    requires forall j :: 0 <= j < |segmented| ==> i < |segmented[j]|
    ensures all <==> forall j :: 0 <= j < |segmented| ==> segmented[j][i] == segmented[0][i]
  {
    for j := 0 to |segmented|
      invariant forall l :: 0 <= l < j ==> segmented[l][i] == segmented[0][i]
    {
      if segmented[j][i] != segmented[0][i] {
        return false;
      }
    }
    all := true;
  }

  /** The least number of segments. */
  method MinSegments(segmented: seq<seq<string>>) returns (min: nat)
    requires segmented != []
    ensures forall j :: 0 <= j < |segmented| ==> min <= |segmented[j]|
    ensures exists j :: 0 <= j < |segmented| && min == |segmented[j]|
  {
    min := |segmented[0]|;
    for j := 1 to |segmented|
      invariant forall l :: 0 <= l < j ==> min <= |segmented[l]|
      invariant exists l :: 0 <= l < j && min == |segmented[l]|
    {
      if |segmented[j]| < min {
        min := |segmented[j]|;
      }
    }
  }

  /** The most segments all names share while each keeps at least one. */
  method CommonCount(segmented: seq<seq<string>>) returns (count: nat)
    requires segmented != [] && forall j :: 0 <= j < |segmented| ==> segmented[j] != []
    ensures IsLongest(segmented, count)
  {
    var min := MinSegments(segmented);
    count := 0;
    for i := 0 to min - 1
      invariant count == i && Shared(segmented, count)
    {
      var all := AllMatch(segmented, i);
      if !all {
        ghost var j :| 0 <= j < |segmented| && segmented[j][i] != segmented[0][i];
        assert segmented[j][..i + 1][i] != segmented[0][..i + 1][i];
        return;
      }
      forall j | 0 <= j < |segmented| ensures segmented[j][..i + 1] == segmented[0][..i + 1] {
        assert segmented[j][..i + 1] == segmented[j][..i] + [segmented[j][i]];
      }
      count := i + 1;
    }
  }

  function Segmented(names: seq<string>): (r: seq<seq<string>>)
    ensures |r| == |names| && forall i :: 0 <= i < |r| ==> r[i] == SplitOn(names[i], '_')
  {
    seq(|names|, i requires 0 <= i < |names| => SplitOn(names[i], '_'))
  }

  /** The longest prefix of whole segments that all names share, and the names without it. */
  method StripServicePrefix(names: seq<string>) returns (prefix: string, stripped: seq<string>)
    ensures |stripped| == |names|
    ensures forall i :: 0 <= i < |names| ==> ExtractNoun(stripped[i]) == ExtractNoun(names[i])
    ensures prefix == "" ==> stripped == names || forall i :: 0 <= i < |names| ==> names[i] == "_" + stripped[i]
    ensures |names| >= 2 ==>
      exists count: nat :: IsLongest(Segmented(names), count) && prefix == Join(Segmented(names)[0][..count], "_")
    ensures prefix != "" ==> forall i :: 0 <= i < |names| ==> names[i] == prefix + ("_" + stripped[i])
  {
    if |names| < 2 {
      return "", names;
    }
    var segmented := Segmented(names);
    var count := CommonCount(segmented);
    if count == 0 {
      return "", names;
    }
    prefix := Join(segmented[0][..count], "_");
    stripped := [];
    for i := 0 to |names|
      invariant |stripped| == i
      invariant forall j :: 0 <= j < i ==> IsStripped(names[j], prefix, stripped[j])
    {
      StripOne(segmented, names, i, count, prefix);
      stripped := stripped + [names[i][|prefix| + 1..]];
    }
  }

  /** What is left of a name behind the prefix ends in the same noun. */
  ghost predicate IsStripped(name: string, prefix: string, rest: string) {
    ExtractNoun(rest) == ExtractNoun(name) && name == prefix + ("_" + rest)
  }

  lemma StripOne(segmented: seq<seq<string>>, names: seq<string>, i: nat, count: nat, prefix: string)
    requires segmented == Segmented(names) && i < |names| && 0 < count && Shared(segmented, count)
    requires prefix == Join(segmented[0][..count], "_")
    ensures |prefix| < |names[i]| && IsStripped(names[i], prefix, names[i][|prefix| + 1..])
  {
    StripKeepsNoun(names[i], count);
    assert segmented[i][..count] == segmented[0][..count];
  }

  // -------------------------------------------------------------------- tables

  /** The tools of one noun, in order. */
  function Class<K(==), T>(tools: seq<T>, nouns: seq<K>, noun: K): seq<T>
    requires |tools| == |nouns|
  {
    if tools == [] then []
    else Class(tools[..|tools| - 1], nouns[..|nouns| - 1], noun) + if nouns[|nouns| - 1] == noun
      then [tools[|tools| - 1]] else []
  }

  function Flatten<K, T>(table: seq<Entry<K, T>>): seq<T> {
    if table == [] then [] else Flatten(table[..|table| - 1]) + table[|table| - 1].tools
  }

  lemma FlattenSnoc<K, T>(table: seq<Entry<K, T>>, e: Entry<K, T>)
    ensures Flatten(table + [e]) == Flatten(table) + e.tools
  {
    assert (table + [e])[..|table|] == table;
  }

  lemma MoreBehind<T>(a: seq<T>, b: seq<T>, more: seq<T>)
    ensures multiset(a + (b + more)) == multiset(a + b) + multiset(more)
  {
    Associative(a, b, more);
  }

  lemma MoreInFront<T>(x: seq<T>, y: seq<T>, more: seq<T>, last: seq<T>)
    requires multiset(x) == multiset(y) + multiset(more)
    ensures multiset(x + last) == multiset(y + last) + multiset(more)
  {
  }

  lemma FlattenLast<K, T>(table: seq<Entry<K, T>>)
    requires table != []
    ensures Flatten(table) == Flatten(table[..|table| - 1]) + table[|table| - 1].tools
  {
  }

  /** Adding tools to one entry adds just these. */
  lemma {:induction false} FlattenUpdate<K, T>(table: seq<Entry<K, T>>, j: nat, more: seq<T>)
    requires j < |table|
    ensures multiset(Flatten(table[j := Entry(table[j].noun, table[j].tools + more)]))
      == multiset(Flatten(table)) + multiset(more)
  {
    var e := Entry(table[j].noun, table[j].tools + more);
    var front, last := table[..|table| - 1], table[|table| - 1];
    FlattenLast(table);
    if j == |table| - 1 {
      assert table[j := e] == front + [e];
      FlattenSnoc(front, e);
      MoreBehind(Flatten(front), last.tools, more);
    } else {
      FlattenUpdate(front, j, more);
      assert table[j := e] == front[j := e] + [last];
      FlattenSnoc(front[j := e], last);
      MoreInFront(Flatten(front[j := e]), Flatten(front), more, last.tools);
    }
  }

  /** Where a noun stands in a table of distinct nouns. */
  method Find<K(==), T>(table: seq<Entry<K, T>>, noun: K) returns (j: nat)
    ensures j <= |table| && (j < |table| ==> table[j].noun == noun)
    ensures forall i :: 0 <= i < j ==> table[i].noun != noun
  {
    j := 0;
    while j < |table| && table[j].noun != noun
      invariant j <= |table| && forall i :: 0 <= i < j ==> table[i].noun != noun
    {
      j := j + 1;
    }
  }

  ghost predicate HasNoun<K, T>(table: seq<Entry<K, T>>, noun: K) {
    exists j :: 0 <= j < |table| && table[j].noun == noun
  }

  ghost predicate NounsDiffer<K, T>(table: seq<Entry<K, T>>) {
    forall i, j :: 0 <= i < j < |table| ==> table[i].noun != table[j].noun
  }

  ghost predicate IsClass<K, T>(e: Entry<K, T>, tools: seq<T>, nouns: seq<K>)
    requires |tools| == |nouns|
  {
    e.tools == Class(tools, nouns, e.noun) && e.tools != [] && e.noun in nouns
  }

  ghost predicate Classes<K, T>(table: seq<Entry<K, T>>, tools: seq<T>, nouns: seq<K>)
    requires |tools| == |nouns|
  {
    forall i :: 0 <= i < |table| ==> IsClass(table[i], tools, nouns)
  }

  ghost predicate Covers<K, T>(table: seq<Entry<K, T>>, nouns: seq<K>) {
    forall i :: 0 <= i < |nouns| ==> HasNoun(table, nouns[i])
  }

  /** One entry for each noun, with all its tools in order. */
  ghost predicate Tabulates<K, T>(table: seq<Entry<K, T>>, tools: seq<T>, nouns: seq<K>)
    requires |tools| == |nouns|
  {
    NounsDiffer(table) && Classes(table, tools, nouns) && Covers(table, nouns)
      && multiset(Flatten(table)) == multiset(tools)
  }

  lemma {:induction false} ClassNone<K, T>(tools: seq<T>, nouns: seq<K>, noun: K)
    requires |tools| == |nouns| && noun !in nouns
    ensures Class(tools, nouns, noun) == []
  {
    if tools != [] {
      ClassNone(tools[..|tools| - 1], nouns[..|nouns| - 1], noun);
    }
  }

  lemma ClassSnoc<K, T>(tools: seq<T>, nouns: seq<K>, t: T, n: K, noun: K)
    requires |tools| == |nouns|
    ensures Class(tools + [t], nouns + [n], noun) == if n == noun then Class(tools, nouns, noun) + [t]
      else Class(tools, nouns, noun)
  {
    assert (tools + [t])[..|tools|] == tools && (nouns + [n])[..|nouns|] == nouns;
  }

  /** One tool more for an entry. */
  function Grown<K, T>(e: Entry<K, T>, t: T): Entry<K, T> {
    Entry(e.noun, e.tools + [t])
  }

  lemma StaysClass<K, T>(e: Entry<K, T>, tools: seq<T>, nouns: seq<K>, t: T, n: K)
    requires |tools| == |nouns| && IsClass(e, tools, nouns)
    ensures IsClass(if e.noun == n then Grown(e, t) else e, tools + [t], nouns + [n])
  {
    ClassSnoc(tools, nouns, t, n, e.noun);
  }

  lemma CoversMore<K, T>(table: seq<Entry<K, T>>, r: seq<Entry<K, T>>, nouns: seq<K>, n: K)
    requires Covers(table, nouns) && HasNoun(r, n)
    requires |r| >= |table| && forall i :: 0 <= i < |table| ==> r[i].noun == table[i].noun
    ensures Covers(r, nouns + [n])
  {
    forall i | 0 <= i < |nouns + [n]| ensures HasNoun(r, (nouns + [n])[i]) {
      if i < |nouns| {
        assert HasNoun(table, nouns[i]);
        var k :| 0 <= k < |table| && table[k].noun == nouns[i];
        assert r[k].noun == nouns[i];
      }
    }
  }

  lemma UpdateTabulates<K, T>(table: seq<Entry<K, T>>, tools: seq<T>, nouns: seq<K>, t: T, j: nat)
    requires |tools| == |nouns| && Tabulates(table, tools, nouns) && j < |table|
    ensures Tabulates(table[j := Grown(table[j], t)], tools + [t], nouns + [table[j].noun])
  {
    var n := table[j].noun;
    var r := table[j := Grown(table[j], t)];
    assert r[j].noun == n;
    assert HasNoun(r, n);
    CoversMore(table, r, nouns, n);
    FlattenUpdate(table, j, [t]);
    forall i | 0 <= i < |r| ensures IsClass(r[i], tools + [t], nouns + [n]) {
      assert IsClass(table[i], tools, nouns);
      StaysClass(table[i], tools, nouns, t, n);
    }
  }

  lemma AppendTabulates<K, T>(table: seq<Entry<K, T>>, tools: seq<T>, nouns: seq<K>, t: T, n: K)
    requires |tools| == |nouns| && Tabulates(table, tools, nouns) && !HasNoun(table, n)
    ensures Tabulates(table + [Entry(n, [t])], tools + [t], nouns + [n])
  {
    var e := Entry(n, [t]);
    var r := table + [e];
    assert r[|table|].noun == n;
    assert HasNoun(r, n);
    CoversMore(table, r, nouns, n);
    FlattenSnoc(table, e);
    NewNoun(table, nouns, n);
    ClassNone(tools, nouns, n);
    ClassSnoc(tools, nouns, t, n, n);
    AppendClasses(table, tools, nouns, t, n);
  }

  lemma AppendClasses<K, T>(table: seq<Entry<K, T>>, tools: seq<T>, nouns: seq<K>, t: T, n: K)
    requires |tools| == |nouns| && Classes(table, tools, nouns) && !HasNoun(table, n)
    requires IsClass(Entry(n, [t]), tools + [t], nouns + [n])
    ensures Classes(table + [Entry(n, [t])], tools + [t], nouns + [n])
  {
    forall i | 0 <= i < |table| ensures IsClass(table[i], tools + [t], nouns + [n]) {
      assert IsClass(table[i], tools, nouns);
      StaysClass(table[i], tools, nouns, t, n);
    }
  }

  lemma NewNoun<K, T>(table: seq<Entry<K, T>>, nouns: seq<K>, n: K)
    requires Covers(table, nouns) && !HasNoun(table, n)
    ensures n !in nouns
  {
  }

  /** Tools of the nouns of the entries, in order. */
  ghost predicate FirstsAt<K, T>(table: seq<Entry<K, T>>, nouns: seq<K>, at: seq<nat>) {
    && |at| == |table| && (forall k :: 0 <= k < |at| ==> at[k] < |nouns| && nouns[at[k]] == table[k].noun)
    && forall j, k :: 0 <= j < k < |at| ==> at[j] < at[k]
  }

  ghost predicate InTurn<K, T>(table: seq<Entry<K, T>>, nouns: seq<K>) {
    exists at :: FirstsAt(table, nouns, at)
  }

  lemma UpdateFirsts<K, T>(table: seq<Entry<K, T>>, nouns: seq<K>, at: seq<nat>, j: nat, e: Entry<K, T>, n: K)
    requires FirstsAt(table, nouns, at) && j < |table| && e.noun == table[j].noun
    ensures FirstsAt(table[j := e], nouns + [n], at)
  {
  }

  lemma AppendFirsts<K, T>(table: seq<Entry<K, T>>, nouns: seq<K>, at: seq<nat>, e: Entry<K, T>)
    requires FirstsAt(table, nouns, at)
    ensures FirstsAt(table + [e], nouns + [e.noun], at + [|nouns|])
  {
  }

  /** The table of the first tools, and where its nouns come from. */
  ghost predicate TableUpTo<K, T>(table: seq<Entry<K, T>>, tools: seq<T>, nouns: seq<K>, i: nat, at: seq<nat>)
    requires i <= |tools| == |nouns|
  {
    Tabulates(table, tools[..i], nouns[..i]) && FirstsAt(table, nouns[..i], at)
  }

  lemma NothingYet<K, T>(tools: seq<T>, nouns: seq<K>)
    requires |tools| == |nouns|
    ensures TableUpTo<K, T>([], tools, nouns, 0, [])
  {
    assert tools[..0] == [] && nouns[..0] == [];
  }

  lemma GrowStep<K, T>(table: seq<Entry<K, T>>, tools: seq<T>, nouns: seq<K>, i: nat, at: seq<nat>, j: nat)
    requires i < |tools| == |nouns| && TableUpTo(table, tools, nouns, i, at)
    requires j < |table| && table[j].noun == nouns[i]
    ensures TableUpTo(table[j := Grown(table[j], tools[i])], tools, nouns, i + 1, at)
  {
    Prefix(tools, i);
    Prefix(nouns, i);
    UpdateTabulates(table, tools[..i], nouns[..i], tools[i], j);
    UpdateFirsts(table, nouns[..i], at, j, Grown(table[j], tools[i]), nouns[i]);
  }

  lemma AppendStep<K, T>(table: seq<Entry<K, T>>, tools: seq<T>, nouns: seq<K>, i: nat, at: seq<nat>)
    requires i < |tools| == |nouns| && TableUpTo(table, tools, nouns, i, at) && !HasNoun(table, nouns[i])
    ensures TableUpTo(table + [Entry(nouns[i], [tools[i]])], tools, nouns, i + 1, at + [i])
  {
    Prefix(tools, i);
    Prefix(nouns, i);
    AppendTabulates(table, tools[..i], nouns[..i], tools[i], nouns[i]);
    AppendFirsts(table, nouns[..i], at, Entry(nouns[i], [tools[i]]));
  }

  /** The tools under their nouns, in order of first appearance. */
  method ByNoun<K(==), T>(tools: seq<T>, nouns: seq<K>) returns (table: seq<Entry<K, T>>)
    requires |tools| == |nouns|
    ensures Tabulates(table, tools, nouns) && InTurn(table, nouns)
  {
    table := [];
    ghost var at: seq<nat> := [];
    NothingYet<K, T>(tools, nouns);
    for i := 0 to |tools|
      invariant TableUpTo(table, tools, nouns, i, at)
    {
      ghost var place: nat := i;
      var j := Find(table, nouns[i]);
      if j < |table| {
        GrowStep(table, tools, nouns, i, at, j);
        table := table[j := Grown(table[j], tools[i])];
      } else {
        NotFound(table, nouns[i]);
        AppendStep(table, tools, nouns, i, at);
        table := table + [Entry(nouns[i], [tools[i]])];
        at := at + [place];
      }
    }
    Finished(table, tools, nouns, at);
  }

  lemma Finished<K, T>(table: seq<Entry<K, T>>, tools: seq<T>, nouns: seq<K>, at: seq<nat>)
    requires |tools| == |nouns| && TableUpTo(table, tools, nouns, |tools|, at)
    ensures Tabulates(table, tools, nouns) && InTurn(table, nouns)
  {
    assert tools[..|tools|] == tools && nouns[..|nouns|] == nouns;
  }

  /** A noun that was not found is new. */
  lemma NotFound<K, T>(table: seq<Entry<K, T>>, noun: K)
    requires forall i :: 0 <= i < |table| ==> table[i].noun != noun
    ensures !HasNoun(table, noun)
  {
  }

  /** An entry a group is made of: all tools of a noun, of which there are two or more. */
  ghost predicate Large<K, T>(table: seq<Entry<K, T>>, e: Entry<K, T>) {
    e in table && |e.tools| >= 2
  }

  ghost predicate AllWithin<T>(s: seq<T>, t: seq<T>) {
    forall x :: x in s ==> x in t
  }

  lemma DifferMore<K, T>(table: seq<Entry<K, T>>, i: nat, valid: seq<Entry<K, T>>)
    requires NounsDiffer(table) && NounsDiffer(valid) && i < |table| && AllWithin(valid, table[..i])
    ensures NounsDiffer(valid + [table[i]]) && AllWithin(valid, table[..i + 1])
      && AllWithin(valid + [table[i]], table[..i + 1])
  {
    Prefix(table, i);
    assert AllWithin(valid, table[..i + 1]);
    forall k | 0 <= k < |valid| ensures valid[k].noun != table[i].noun {
      assert valid[k] in valid;
      assert valid[k] in table[..i];
    }
  }

  lemma CountMore<K, T>(table: seq<Entry<K, T>>, i: nat, valid: seq<Entry<K, T>>, single: seq<T>)
    requires i < |table| && multiset(Flatten(valid)) + multiset(single) == multiset(Flatten(table[..i]))
    ensures multiset(Flatten(valid + [table[i]])) + multiset(single) == multiset(Flatten(table[..i + 1]))
    ensures multiset(Flatten(valid)) + multiset(single + table[i].tools) == multiset(Flatten(table[..i + 1]))
  {
    Prefix(table, i);
    FlattenSnoc(table[..i], table[i]);
    FlattenSnoc(valid, table[i]);
  }

  /** The tool of an entry that no group is made of. */
  ghost predicate IsSingle<K(!new), T(!new)>(table: seq<Entry<K, T>>, t: T) {
    exists e :: e in table && |e.tools| < 2 && t in e.tools
  }

  /** The tools of the entries that no group is made of. */
  ghost predicate AreSingle<K(!new), T(!new)>(table: seq<Entry<K, T>>, single: seq<T>) {
    forall t :: t in single <==> IsSingle(table, t)
  }

  lemma SingleMore<K(!new), T(!new)>(table: seq<Entry<K, T>>, i: nat, single: seq<T>)
    requires i < |table| && AreSingle(table[..i], single)
    ensures AreSingle(table[..i + 1], if |table[i].tools| < 2 then single + table[i].tools else single)
  {
    Prefix(table, i);
    forall t ensures IsSingle(table[..i + 1], t) <==>
      IsSingle(table[..i], t) || (|table[i].tools| < 2 && t in table[i].tools)
    {
      if IsSingle(table[..i], t) {
        var e :| e in table[..i] && |e.tools| < 2 && t in e.tools;
        assert e in table[..i + 1];
      }
      assert table[i] in table[..i + 1];
    }
  }

  ghost predicate AreLarge<K(!new), T(!new)>(table: seq<Entry<K, T>>, valid: seq<Entry<K, T>>) {
    forall e :: e in valid <==> Large(table, e)
  }

  lemma LargeMore<K(!new), T(!new)>(table: seq<Entry<K, T>>, i: nat, valid: seq<Entry<K, T>>)
    requires i < |table| && AreLarge(table[..i], valid)
    ensures AreLarge(table[..i + 1], if |table[i].tools| < 2 then valid else valid + [table[i]])
  {
    Prefix(table, i);
    forall e ensures Large(table[..i + 1], e) <==> Large(table[..i], e) || (|table[i].tools| >= 2 && e == table[i]) {
      assert table[..i + 1] == table[..i] + [table[i]];
    }
  }

  /** The tools of the entries that no group is made of, one entry after the other. */
  function SmallTools<K, T>(table: seq<Entry<K, T>>): seq<T> {
    if table == [] then []
    else
      var last := table[|table| - 1];
      SmallTools(table[..|table| - 1]) + if |last.tools| < 2 then last.tools else []
  }

  lemma SmallSnoc<K, T>(table: seq<Entry<K, T>>, e: Entry<K, T>)
    ensures SmallTools(table + [e]) == SmallTools(table) + if |e.tools| < 2 then e.tools else []
  {
    assert (table + [e])[..|table|] == table;
  }

  /** Entries of one tool, collected; the others as they are. */
  method Separate<K(!new), T(!new)>(table: seq<Entry<K, T>>) returns (valid: seq<Entry<K, T>>, single: seq<T>)
    requires NounsDiffer(table)
    ensures NounsDiffer(valid) && AreLarge(table, valid)
    ensures AreSingle(table, single) && single == SmallTools(table)
    ensures multiset(Flatten(valid)) + multiset(single) == multiset(Flatten(table))
  {
    valid, single := [], [];
    Prefixes(table);
    for i := 0 to |table|
      invariant NounsDiffer(valid) && AllWithin(valid, table[..i])
      invariant AreLarge(table[..i], valid)
      invariant AreSingle(table[..i], single) && single == SmallTools(table[..i])
      invariant multiset(Flatten(valid)) + multiset(single) == multiset(Flatten(table[..i]))
    {
      DifferMore(table, i, valid);
      CountMore(table, i, valid, single);
      LargeMore(table, i, valid);
      SingleMore(table, i, single);
      Prefix(table, i);
      SmallSnoc(table[..i], table[i]);
      if |table[i].tools| < 2 {
        single := single + table[i].tools;
      } else {
        valid := valid + [table[i]];
      }
    }
  }

  /** The general tools: the single ones, and those whose noun is the general one. */
  ghost predicate AreGeneral<K(!new), T(!new)>(valid: seq<Entry<K, T>>, single: seq<T>, general: K, tools: seq<T>) {
    forall t :: t in tools <==> t in single || exists v :: v in valid && v.noun == general && t in v.tools
  }

  /** `r` is `valid` with the single tools added to the general entry, or as one. */
  ghost predicate Completes<K(!new), T(!new)>(r: seq<Entry<K, T>>, valid: seq<Entry<K, T>>, single: seq<T>, general: K)
  {
    && NounsDiffer(r)
    && (forall e: Entry<K, T> :: e.noun != general ==> (e in r <==> e in valid))
    && (forall e :: e in r && e.noun == general ==> AreGeneral(valid, single, general, e.tools))
    && (HasNoun(r, general) <==> HasNoun(valid, general) || single != [])
  }

  /** The tools of the general entry: those it had, and then the single ones. */
  ghost predicate GeneralBehind<K(!new), T(!new)>(r: seq<Entry<K, T>>, valid: seq<Entry<K, T>>, single: seq<T>,
      general: K)
  {
    forall e :: e in r && e.noun == general ==>
      if HasNoun(valid, general) then exists v :: v in valid && v.noun == general && e.tools == v.tools + single
      else e.tools == single
  }

  lemma UpdateBehind<K(!new), T(!new)>(valid: seq<Entry<K, T>>, single: seq<T>, general: K, j: nat)
    requires j < |valid| && valid[j].noun == general && NounsDiffer(valid)
    ensures GeneralBehind(valid[j := Entry(general, valid[j].tools + single)], valid, single, general)
  {
    var r := valid[j := Entry(general, valid[j].tools + single)];
    forall e | e in r && e.noun == general ensures e.tools == valid[j].tools + single && valid[j] in valid {
      var k :| 0 <= k < |r| && r[k] == e;
      assert k == j;
    }
  }

  lemma AppendBehind<K(!new), T(!new)>(valid: seq<Entry<K, T>>, single: seq<T>, general: K)
    requires !HasNoun(valid, general)
    ensures GeneralBehind(valid + [Entry(general, single)], valid, single, general)
  {
    forall v | v in valid ensures v.noun != general {
      var k :| 0 <= k < |valid| && valid[k] == v;
    }
  }

  lemma NoneBehind<K(!new), T(!new)>(valid: seq<Entry<K, T>>, general: K)
    ensures GeneralBehind(valid, valid, [], general)
  {
    forall e | e in valid && e.noun == general ensures HasNoun(valid, general) && e.tools == e.tools + [] {
      var k :| 0 <= k < |valid| && valid[k] == e;
      assert valid[k].noun == general;
    }
  }

  lemma UpdateCompletes<K(!new), T(!new)>(valid: seq<Entry<K, T>>, single: seq<T>, general: K, j: nat)
    requires j < |valid| && valid[j].noun == general && NounsDiffer(valid)
    ensures Completes(valid[j := Entry(general, valid[j].tools + single)], valid, single, general)
  {
    var r := valid[j := Entry(general, valid[j].tools + single)];
    assert r[j].noun == general;
    forall e: Entry<K, T> | e.noun != general ensures e in r <==> e in valid {
      if e in r {
        var k :| 0 <= k < |r| && r[k] == e;
        assert valid[k] == e;
      }
      if e in valid {
        var k :| 0 <= k < |valid| && valid[k] == e;
        assert r[k] == e;
      }
    }
    forall e | e in r && e.noun == general ensures AreGeneral(valid, single, general, e.tools) {
      var k :| 0 <= k < |r| && r[k] == e;
      assert k == j;
      forall v | v in valid && v.noun == general ensures v == valid[j] {
        var l :| 0 <= l < |valid| && valid[l] == v;
        assert l == j;
      }
      assert valid[j] in valid;
    }
  }

  lemma AppendCompletes<K(!new), T(!new)>(valid: seq<Entry<K, T>>, single: seq<T>, general: K)
    requires NounsDiffer(valid) && !HasNoun(valid, general) && single != []
    ensures Completes(valid + [Entry(general, single)], valid, single, general)
  {
    var r := valid + [Entry(general, single)];
    assert r[|valid|].noun == general;
    forall v | v in valid ensures v.noun != general {
      var l :| 0 <= l < |valid| && valid[l] == v;
    }
    forall e | e in r && e.noun == general ensures AreGeneral(valid, single, general, e.tools) {
      assert e == Entry(general, single);
    }
  }

  lemma NoneCompletes<K(!new), T(!new)>(valid: seq<Entry<K, T>>, general: K)
    requires NounsDiffer(valid)
    ensures Completes(valid, valid, [], general)
  {
    forall e | e in valid && e.noun == general ensures AreGeneral(valid, [], general, e.tools) {
      var k :| 0 <= k < |valid| && valid[k] == e;
      forall v | v in valid && v.noun == general ensures v == e {
        var l :| 0 <= l < |valid| && valid[l] == v;
        assert l == k;
      }
    }
  }

  /** The single tools go under `general`, behind the tools that noun may have already. */
  method AddGeneral<K(==,!new), T(!new)>(valid: seq<Entry<K, T>>, single: seq<T>,
      general: K) returns (r: seq<Entry<K, T>>)
    requires NounsDiffer(valid) && forall e :: e in valid ==> e.tools != []
    ensures Completes(r, valid, single, general) && GeneralBehind(r, valid, single, general)
    ensures forall e :: e in r ==> e.tools != []
    ensures multiset(Flatten(r)) == multiset(Flatten(valid)) + multiset(single)
  {
    r := valid;
    if single != [] {
      var j := Find(valid, general);
      if j < |valid| {
        FlattenUpdate(valid, j, single);
        UpdateCompletes(valid, single, general, j);
        UpdateBehind(valid, single, general, j);
        r := valid[j := Entry(general, valid[j].tools + single)];
      } else {
        FlattenSnoc(valid, Entry(general, single));
        AppendCompletes(valid, single, general);
        AppendBehind(valid, single, general);
        r := valid + [Entry(general, single)];
      }
    } else {
      NoneCompletes(valid, general);
      NoneBehind(valid, general);
    }
  }

  // -------------------------------------------------------------------- groups

  function AllTools<T>(groups: seq<ToolGroup<T>>): seq<T> {
    if groups == [] then [] else groups[0].tools + AllTools(groups[1..])
  }

  lemma {:induction false} AllToolsSnoc<T>(groups: seq<ToolGroup<T>>, g: ToolGroup<T>)
    ensures AllTools(groups + [g]) == AllTools(groups) + g.tools
  {
    if groups == [] {
      assert [g][1..] == [];
    } else {
      AllToolsSnoc(groups[1..], g);
      assert (groups + [g])[1..] == groups[1..] + [g];
    }
  }

  lemma {:induction false} AllToolsInsert<T>(g: ToolGroup<T>, groups: seq<ToolGroup<T>>,
      before: (ToolGroup<T>, ToolGroup<T>) -> bool)
    ensures multiset(AllTools(Insert(g, groups, before))) == multiset(AllTools(groups)) + multiset(g.tools)
  {
    if groups == [] {
      assert [g][1..] == [];
    } else if before(g, groups[0]) {
      assert ([g] + groups)[1..] == groups;
    } else {
      AllToolsInsert(g, groups[1..], before);
      assert ([groups[0]] + Insert(g, groups[1..], before))[1..] == Insert(g, groups[1..], before);
    }
  }

  lemma {:induction false} AllToolsSort<T>(groups: seq<ToolGroup<T>>, before: (ToolGroup<T>, ToolGroup<T>) -> bool)
    ensures multiset(AllTools(Sort(groups, before))) == multiset(AllTools(groups))
  {
    if groups != [] {
      AllToolsSort(groups[1..], before);
      AllToolsInsert(groups[0], Sort(groups[1..], before), before);
    }
  }

  function Decimal(n: nat): string {
    var digit := ["0123456789"[n % 10]];
    if n < 10 then digit else Decimal(n / 10) + digit
  }

  /** Digits that write the number, none of them a zero to skip. */
  lemma {:induction false} DecimalReads(n: nat)
    ensures NumberOf(Decimal(n)) == n && DigitsOnly(Decimal(n)) && Decimal(n) != ""
    ensures Decimal(n)[0] == '0' ==> n == 0
  {
    var digit := ["0123456789"[n % 10]];
    assert NumberOf(digit) == 10 * NumberOf("") + DigitOf(digit[0]) by {
      assert digit[..0] == "";
    }
    if n >= 10 {
      DecimalReads(n / 10);
      assert (Decimal(n / 10) + digit)[..|Decimal(n / 10)|] == Decimal(n / 10);
    }
  }

  const General := "general"

  /** The group made of an entry. */
  function GroupOf<T>(e: Entry<string, T>, upper: char -> string): ToolGroup<T> {
    ToolGroup(e.noun, if e.noun == General then "General" else Capitalize(e.noun, upper) + " Operations", e.tools,
      e.noun + "-ops.md")
  }

  function PartOf<T>(i: nat, tools: seq<T>): ToolGroup<T> {
    ToolGroup("group-" + Decimal(i), "Tools (Part " + (Decimal(i) + ")"), tools, "tools-" + (Decimal(i) + ".md"))
  }

  /** One group for each entry, made by `make`. */
  method BuildGroups<K, T>(valid: seq<Entry<K, T>>, make: Entry<K,
      T> -> ToolGroup<T>) returns (groups: seq<ToolGroup<T>>)
    requires forall e :: make(e).tools == e.tools
    ensures |groups| == |valid| && forall i :: 0 <= i < |groups| ==> groups[i] == make(valid[i])
    ensures AllTools(groups) == Flatten(valid)
  {
    groups := [];
    Prefixes(valid);
    for i := 0 to |valid|
      invariant |groups| == i && forall j :: 0 <= j < i ==> groups[j] == make(valid[j])
      invariant AllTools(groups) == Flatten(valid[..i])
    {
      Prefix(valid, i);
      FlattenSnoc(valid[..i], valid[i]);
      AllToolsSnoc(groups, make(valid[i]));
      groups := groups + [make(valid[i])];
    }
  }

  /** Part `i` of an alphabetical list. */
  ghost predicate IsPart<T>(g: ToolGroup<T>, i: nat, make: (nat, seq<T>) -> ToolGroup<T>) {
    g == make(i + 1, g.tools) && 0 < |g.tools| <= 8
  }

  ghost predicate AreParts<T>(groups: seq<ToolGroup<T>>, make: (nat, seq<T>) -> ToolGroup<T>) {
    forall i :: 0 <= i < |groups| ==> IsPart(groups[i], i, make)
  }

  /** A part is made of just the tools given. */
  ghost predicate Faithful<T(!new)>(make: (nat, seq<T>) -> ToolGroup<T>) {
    forall i, part :: make(i, part).tools == part
  }

  /** The sorted tools in parts of five to eight, all but the last of one size. */
  method AlphabeticalChunks<T(!new)>(tools: seq<T>, before: (T, T) -> bool,
      make: (nat, seq<T>) -> ToolGroup<T>) returns (groups: seq<ToolGroup<T>>)
    requires Faithful(make)
    ensures AllTools(groups) == Sort(tools, before)
    ensures AreParts(groups, make)
    ensures forall i :: 0 <= i < |groups| - 1 ==>
      |groups[i].tools| == (if |tools| >= 8 then 8 else if |tools| >= 5 then |tools| else 5)
  {
    var sorted := Sort(tools, before);
    SortPermutes(tools, before);
    var largest := if |sorted| > 5 then |sorted| else 5;
    var chunkSize := if largest < 8 then largest else 8;
    groups := [];
    Prefixes(sorted);
    var i := 0;
    while i < |sorted|
      invariant 0 <= i <= |sorted| && AllTools(groups) == sorted[..i]
      invariant AreParts(groups, make)
      invariant forall j :: 0 <= j < |groups| && i < |sorted| ==> |groups[j].tools| == chunkSize
      invariant forall j :: 0 <= j < |groups| - 1 ==> |groups[j].tools| == chunkSize
    {
      var next := if i + chunkSize < |sorted| then i + chunkSize else |sorted|;
      var part := sorted[i..next];
      var g := make(|groups| + 1, part);
      Between(sorted, i, next);
      MorePart(groups, part, make);
      groups := groups + [g];
      i := next;
    }
  }

  lemma MorePart<T(!new)>(groups: seq<ToolGroup<T>>, part: seq<T>, make: (nat, seq<T>) -> ToolGroup<T>)
    requires Faithful(make) && 0 < |part| <= 8 && AreParts(groups, make)
    ensures AreParts(groups + [make(|groups| + 1, part)], make)
    ensures AllTools(groups + [make(|groups| + 1, part)]) == AllTools(groups) + part
  {
    var g := make(|groups| + 1, part);
    assert g.tools == part;
    AllToolsSnoc(groups, g);
    PartSnoc(groups, g, make);
  }

  lemma PartSnoc<T(!new)>(groups: seq<ToolGroup<T>>, g: ToolGroup<T>, make: (nat, seq<T>) -> ToolGroup<T>)
    requires AreParts(groups, make) && IsPart(g, |groups|, make)
    ensures AreParts(groups + [g], make)
  {
    forall i: nat | i < |groups + [g]| ensures IsPart((groups + [g])[i], i, make) {
      if i < |groups| {
        assert IsPart(groups[i], i, make);
      }
    }
  }

  lemma Between<T>(s: seq<T>, i: nat, j: nat)
    requires i <= j <= |s|
    ensures s[..j] == s[..i] + s[i..j]
  {
  }

  /** Makes groups of just the tools given. */
  ghost predicate KeepsTools<K(!new), T(!new)>(make: Entry<K, T> -> ToolGroup<T>) {
    forall e :: make(e).tools == e.tools
  }

  /** The tools of the general group: those of that noun if there are two, and then those whose noun is not shared. */
  ghost predicate AreGeneralTools<K(!new), T(!new)>(all: seq<T>, tools: seq<T>, nouns: seq<K>, general: K)
    requires |tools| == |nouns|
  {
    exists single, at :: IsGeneralList(all, single, at, tools, nouns, general)
  }

  ghost predicate IsGeneralList<K, T>(all: seq<T>, single: seq<T>, at: seq<nat>, tools: seq<T>, nouns: seq<K>,
      general: K)
    requires |tools| == |nouns|
  {
    && StandsAt(single, tools, at) && (forall k :: 0 <= k < |at| ==> !IsShared(nouns, at[k]))
    && all == (if |Class(tools, nouns, general)| >= 2 then Class(tools, nouns, general) else []) + single
  }

  /** The tools of one noun, two or more, or the general ones. */
  ghost predicate IsNounEntry<K(!new), T(!new)>(e: Entry<K, T>, tools: seq<T>, nouns: seq<K>, general: K)
    requires |tools| == |nouns|
  {
    if e.noun == general then AreGeneralTools(e.tools, tools, nouns, general)
    else IsClass(e, tools, nouns) && |e.tools| >= 2
  }

  /** A group of all tools of one noun, or the general one. */
  ghost predicate IsNounGroup<K(!new), T(!new)>(g: ToolGroup<T>, tools: seq<T>, nouns: seq<K>, general: K,
      make: Entry<K, T> -> ToolGroup<T>)
    requires |tools| == |nouns|
  {
    exists e :: g == make(e) && IsNounEntry(e, tools, nouns, general)
  }

  ghost predicate AreNounGroups<K(!new), T(!new)>(groups: seq<ToolGroup<T>>, tools: seq<T>, nouns: seq<K>,
      general: K, make: Entry<K, T> -> ToolGroup<T>)
    requires |tools| == |nouns|
  {
    forall g :: g in groups ==> IsNounGroup(g, tools, nouns, general, make)
  }

  // ---------------------------------------------------------- where a tool belongs

  ghost predicate IsShared<K>(nouns: seq<K>, i: int)
    requires 0 <= i < |nouns|
  {
    exists j :: 0 <= j < |nouns| && j != i && nouns[j] == nouns[i]
  }

  /** The group of the `i`-th tool: that of its noun if another tool has it too. */
  ghost function KeyOf<K>(nouns: seq<K>, general: K, i: int): K
    requires 0 <= i < |nouns|
  {
    if IsShared(nouns, i) then nouns[i] else general
  }

  /** The `i`-th tool is `t`, and belongs to the group `key`. */
  ghost predicate Belongs<K, T>(tools: seq<T>, nouns: seq<K>, general: K, key: K, t: T, i: int)
    requires |tools| == |nouns|
  {
    0 <= i < |tools| && tools[i] == t && KeyOf(nouns, general, i) == key
  }

  ghost predicate SomeBelongs<K, T>(tools: seq<T>, nouns: seq<K>, general: K, key: K, t: T)
    requires |tools| == |nouns|
  {
    exists i :: Belongs(tools, nouns, general, key, t, i)
  }

  ghost predicate IsKey<K>(nouns: seq<K>, general: K, key: K) {
    exists i :: 0 <= i < |nouns| && KeyOf(nouns, general, i) == key
  }

  /** Just the tools that belong to a group. */
  ghost predicate IsKeyed<K(!new), T(!new)>(e: Entry<K, T>, tools: seq<T>, nouns: seq<K>, general: K)
    requires |tools| == |nouns|
  {
    forall t :: t in e.tools <==> SomeBelongs(tools, nouns, general, e.noun, t)
  }

  /** All groups there are, with just the tools that belong to them. */
  ghost predicate Keyed<K(!new), T(!new)>(entries: seq<Entry<K, T>>, tools: seq<T>, nouns: seq<K>, general: K)
    requires |tools| == |nouns|
  {
    && (forall key :: HasNoun(entries, key) <==> IsKey(nouns, general, key))
    && (forall e :: e in entries ==> IsKeyed(e, tools, nouns, general))
  }

  lemma {:induction false} ClassMember<K, T>(tools: seq<T>, nouns: seq<K>, noun: K, t: T)
    requires |tools| == |nouns|
    ensures t in Class(tools, nouns, noun) <==> exists i :: 0 <= i < |tools| && tools[i] == t && nouns[i] == noun
  {
    if tools != [] {
      var n := |tools| - 1;
      ClassMember(tools[..n], nouns[..n], noun, t);
      if i :| 0 <= i < n && tools[i] == t && nouns[i] == noun {
        assert tools[..n][i] == t && nouns[..n][i] == noun;
      }
    }
  }

  lemma {:induction false} ClassOnly<K, T>(tools: seq<T>, nouns: seq<K>, i: nat)
    requires |tools| == |nouns| && i < |nouns|
    ensures Class(tools, nouns, nouns[i]) != []
    ensures |Class(tools, nouns, nouns[i])| >= 2 <==> IsShared(nouns, i)
    decreases |tools|
  {
    var n := |tools| - 1;
    if i < n {
      ClassOnly(tools[..n], nouns[..n], i);
      if IsShared(nouns[..n], i) {
        var j :| 0 <= j < n && j != i && nouns[..n][j] == nouns[..n][i];
        assert nouns[j] == nouns[i];
      }
      if j :| 0 <= j < n && j != i && nouns[j] == nouns[i] {
        assert nouns[..n][j] == nouns[..n][i];
      }
    } else if j :| 0 <= j < n && nouns[j] == nouns[i] {
      ClassOnly(tools[..n], nouns[..n], j);
    } else {
      assert forall j :: 0 <= j < n ==> nouns[..n][j] != nouns[i];
      ClassNone(tools[..n], nouns[..n], nouns[i]);
    }
  }

  /** What an entry of the table says of the tools in it. */
  lemma EntryKeys<K(!new), T(!new)>(e: Entry<K, T>, tools: seq<T>, nouns: seq<K>, i: nat)
    requires |tools| == |nouns| && i < |nouns| && IsClass(e, tools, nouns) && nouns[i] == e.noun
    ensures tools[i] in e.tools && (|e.tools| >= 2 <==> IsShared(nouns, i))
  {
    ClassMember(tools, nouns, e.noun, tools[i]);
    ClassOnly(tools, nouns, i);
  }

  lemma EntryAt<K(!new), T(!new)>(table: seq<Entry<K, T>>, tools: seq<T>, nouns: seq<K>, i: nat) returns (e: Entry<K,
      T>)
    requires |tools| == |nouns| && i < |nouns| && Tabulates(table, tools, nouns)
    ensures e in table && e.noun == nouns[i] && tools[i] in e.tools
    ensures |e.tools| >= 2 <==> IsShared(nouns, i)
  {
    assert HasNoun(table, nouns[i]);
    var k :| 0 <= k < |table| && table[k].noun == nouns[i];
    e := table[k];
    assert IsClass(e, tools, nouns);
    EntryKeys(e, tools, nouns, i);
  }

  lemma ToolAt<K(!new), T(!new)>(e: Entry<K, T>, tools: seq<T>, nouns: seq<K>, t: T) returns (i: nat)
    requires |tools| == |nouns| && IsClass(e, tools, nouns) && t in e.tools
    ensures i < |tools| && tools[i] == t && nouns[i] == e.noun
    ensures |e.tools| >= 2 <==> IsShared(nouns, i)
  {
    ClassMember(tools, nouns, e.noun, t);
    i :| 0 <= i < |tools| && tools[i] == t && nouns[i] == e.noun;
    EntryKeys(e, tools, nouns, i);
  }

  /** An entry of two tools or more holds just the tools that belong to its noun. */
  lemma LargeKeyed<K(!new), T(!new)>(e: Entry<K, T>, tools: seq<T>, nouns: seq<K>, general: K)
    requires |tools| == |nouns| && IsClass(e, tools, nouns) && |e.tools| >= 2 && e.noun != general
    ensures IsKeyed(e, tools, nouns, general) && IsKey(nouns, general, e.noun)
  {
    forall t ensures t in e.tools <==> SomeBelongs(tools, nouns, general, e.noun, t) {
      if t in e.tools {
        var i := ToolAt(e, tools, nouns, t);
        assert Belongs(tools, nouns, general, e.noun, t, i);
      }
      if i :| Belongs(tools, nouns, general, e.noun, t, i) {
        EntryKeys(e, tools, nouns, i);
      }
    }
    var t := e.tools[0];
    assert SomeBelongs(tools, nouns, general, e.noun, t);
    var i :| Belongs(tools, nouns, general, e.noun, t, i);
    assert KeyOf(nouns, general, i) == e.noun;
  }

  /** The separated table, and what the general entry is made of. */
  ghost predicate Parted<K(!new), T(!new)>(table: seq<Entry<K, T>>, valid: seq<Entry<K, T>>, single: seq<T>) {
    AreLarge(table, valid) && AreSingle(table, single)
  }

  lemma GeneralTool<K(!new), T(!new)>(table: seq<Entry<K, T>>, valid: seq<Entry<K, T>>, single: seq<T>,
      tools: seq<T>, nouns: seq<K>, general: K, t: T)
    requires |tools| == |nouns| && Tabulates(table, tools, nouns) && Parted(table, valid, single)
    ensures SomeBelongs(tools, nouns, general, general, t) <==>
      t in single || exists v :: v in valid && v.noun == general && t in v.tools
  {
    if t in single {
      var e :| e in table && |e.tools| < 2 && t in e.tools;
      assert IsClass(e, tools, nouns);
      var i := ToolAt(e, tools, nouns, t);
      assert Belongs(tools, nouns, general, general, t, i);
    }
    if v :| v in valid && v.noun == general && t in v.tools {
      assert Large(table, v);
      assert IsClass(v, tools, nouns);
      var i := ToolAt(v, tools, nouns, t);
      assert Belongs(tools, nouns, general, general, t, i);
    }
    if i :| Belongs(tools, nouns, general, general, t, i) {
      var e := EntryAt(table, tools, nouns, i);
      if |e.tools| >= 2 {
        assert Large(table, e);
      } else {
        assert IsSingle(table, t);
      }
    }
  }

  lemma GeneralIsKey<K(!new), T(!new)>(table: seq<Entry<K, T>>, valid: seq<Entry<K, T>>, single: seq<T>,
      tools: seq<T>, nouns: seq<K>, general: K)
    requires |tools| == |nouns| && Tabulates(table, tools, nouns) && Parted(table, valid, single)
    ensures IsKey(nouns, general, general) <==> HasNoun(valid, general) || single != []
  {
    if i :| 0 <= i < |nouns| && KeyOf(nouns, general, i) == general {
      assert Belongs(tools, nouns, general, general, tools[i], i);
      GeneralTool(table, valid, single, tools, nouns, general, tools[i]);
    }
    if single != [] || HasNoun(valid, general) {
      var t: T;
      if single != [] {
        t := single[0];
      } else {
        var j :| 0 <= j < |valid| && valid[j].noun == general;
        assert valid[j] in valid && Large(table, valid[j]);
        t := valid[j].tools[0];
      }
      GeneralTool(table, valid, single, tools, nouns, general, t);
      var i :| Belongs(tools, nouns, general, general, t, i);
      assert KeyOf(nouns, general, i) == general;
    }
  }

  lemma EntriesKeyed<K(!new), T(!new)>(table: seq<Entry<K, T>>, valid: seq<Entry<K, T>>, single: seq<T>,
      entries: seq<Entry<K, T>>, tools: seq<T>, nouns: seq<K>, general: K)
    requires |tools| == |nouns| && Tabulates(table, tools, nouns) && Parted(table, valid, single)
    requires Completes(entries, valid, single, general)
    ensures Keyed(entries, tools, nouns, general)
  {
    forall e | e in entries ensures IsKeyed(e, tools, nouns, general) && IsKey(nouns, general, e.noun) {
      if e.noun == general {
        forall t
          ensures SomeBelongs(tools, nouns, general, general, t) <==>
            t in single || exists v :: v in valid && v.noun == general && t in v.tools
        {
          GeneralTool(table, valid, single, tools, nouns, general, t);
        }
        GeneralIsKey(table, valid, single, tools, nouns, general);
        var k :| 0 <= k < |entries| && entries[k] == e;
        assert HasNoun(entries, general);
      } else {
        assert Large(table, e);
        assert IsClass(e, tools, nouns);
        LargeKeyed(e, tools, nouns, general);
      }
    }
    GeneralIsKey(table, valid, single, tools, nouns, general);
    forall key | IsKey(nouns, general, key) ensures HasNoun(entries, key) {
      if key != general {
        var i :| 0 <= i < |nouns| && KeyOf(nouns, general, i) == key;
        var e := EntryAt(table, tools, nouns, i);
        assert Large(table, e);
        var k :| 0 <= k < |entries| && entries[k] == e;
        assert entries[k].noun == key;
      }
    }
    forall key | HasNoun(entries, key) ensures IsKey(nouns, general, key) {
      var k :| 0 <= k < |entries| && entries[k].noun == key;
      assert entries[k] in entries;
    }
  }

  /** All tools belong to one group. */
  ghost predicate OneKey<K>(nouns: seq<K>, general: K) {
    forall i, j :: 0 <= i < |nouns| && 0 <= j < |nouns| ==> KeyOf(nouns, general, i) == KeyOf(nouns, general, j)
  }

  lemma FewEntries<K(!new), T(!new)>(entries: seq<Entry<K, T>>, tools: seq<T>, nouns: seq<K>, general: K)
    requires |tools| == |nouns| && Keyed(entries, tools, nouns, general) && NounsDiffer(entries) && tools != []
    ensures |entries| < 2 <==> OneKey(nouns, general)
  {
    if |entries| < 2 {
      forall i, j | 0 <= i < |nouns| && 0 <= j < |nouns|
        ensures KeyOf(nouns, general, i) == KeyOf(nouns, general, j)
      {
        assert IsKey(nouns, general, KeyOf(nouns, general, i)) && IsKey(nouns, general, KeyOf(nouns, general, j));
      }
    } else {
      assert entries[0].noun != entries[1].noun;
      assert HasNoun(entries, entries[0].noun) && HasNoun(entries, entries[1].noun);
      var i :| 0 <= i < |nouns| && KeyOf(nouns, general, i) == entries[0].noun;
      var j :| 0 <= j < |nouns| && KeyOf(nouns, general, j) == entries[1].noun;
    }
  }

  /** Places of tools in the list, in order and none with a shared noun. */
  ghost predicate StandAlone<K, T>(part: seq<T>, tools: seq<T>, nouns: seq<K>, at: seq<nat>, below: nat)
    requires |tools| == |nouns|
  {
    StandsAt(part, tools, at) && forall k :: 0 <= k < |at| ==> at[k] < below && !IsShared(nouns, at[k])
  }

  lemma AloneMore<K, T>(part: seq<T>, tools: seq<T>, nouns: seq<K>, at: seq<nat>, below: nat, i: nat, t: T)
    requires |tools| == |nouns| && StandAlone(part, tools, nouns, at, below) && below <= i < |tools|
    requires tools[i] == t && !IsShared(nouns, i)
    ensures StandAlone(part + [t], tools, nouns, at + [i], i + 1)
  {
  }

  /** The single tools stand in the list in order, and share their nouns with no other. */
  lemma {:induction false} SmallStand<K(!new), T(!new)>(table: seq<Entry<K, T>>, tools: seq<T>, nouns: seq<K>,
      firsts: seq<nat>) returns (at: seq<nat>, below: nat)
    requires |tools| == |nouns| && Classes(table, tools, nouns) && FirstsAt(table, nouns, firsts)
    ensures StandAlone(SmallTools(table), tools, nouns, at, below)
    ensures below == if table == [] then 0 else firsts[|firsts| - 1] + 1
  {
    if table == [] {
      at, below := [], 0;
    } else {
      var n := |table| - 1;
      at, below := SmallStand(table[..n], tools, nouns, firsts[..n]);
      var e, i := table[n], firsts[n];
      assert below <= i;
      assert IsClass(e, tools, nouns);
      EntryKeys(e, tools, nouns, i);
      if |e.tools| < 2 {
        assert e.tools == [tools[i]];
        AloneMore(SmallTools(table[..n]), tools, nouns, at, below, i, tools[i]);
        at := at + [i];
      }
      below := i + 1;
    }
  }

  lemma GeneralListed<K(!new), T(!new)>(table: seq<Entry<K, T>>, valid: seq<Entry<K, T>>, single: seq<T>,
      entries: seq<Entry<K, T>>, tools: seq<T>, nouns: seq<K>, e: Entry<K, T>)
    requires |tools| == |nouns| && Tabulates(table, tools, nouns) && InTurn(table, nouns)
    requires Parted(table, valid, single) && single == SmallTools(table)
    requires GeneralBehind(entries, valid, single, e.noun) && e in entries
    ensures AreGeneralTools(e.tools, tools, nouns, e.noun)
  {
    var firsts :| FirstsAt(table, nouns, firsts);
    var at, below := SmallStand(table, tools, nouns, firsts);
    GeneralOwn(table, valid, tools, nouns, e.noun);
    if !HasNoun(valid, e.noun) {
      assert e.tools == [] + single;
    }
    assert IsGeneralList(e.tools, single, at, tools, nouns, e.noun);
  }

  /** What a noun's own entry has, if a group is made of it. */
  lemma GeneralOwn<K(!new), T(!new)>(table: seq<Entry<K, T>>, valid: seq<Entry<K, T>>, tools: seq<T>, nouns: seq<K>,
      noun: K)
    requires |tools| == |nouns| && Tabulates(table, tools, nouns) && AreLarge(table, valid)
    ensures HasNoun(valid, noun) <==> |Class(tools, nouns, noun)| >= 2
    ensures forall v :: v in valid && v.noun == noun ==> v.tools == Class(tools, nouns, noun)
  {
    forall v | v in valid && v.noun == noun ensures v.tools == Class(tools, nouns, noun) {
      assert Large(table, v);
      assert IsClass(v, tools, nouns);
    }
    if HasNoun(valid, noun) {
      var k :| 0 <= k < |valid| && valid[k].noun == noun;
      assert valid[k] in valid && Large(table, valid[k]);
    }
    if |Class(tools, nouns, noun)| >= 2 {
      ClassMember(tools, nouns, noun, Class(tools, nouns, noun)[0]);
      var i :| 0 <= i < |tools| && nouns[i] == noun;
      assert HasNoun(table, nouns[i]);
      var k :| 0 <= k < |table| && table[k].noun == noun;
      assert IsClass(table[k], tools, nouns) && Large(table, table[k]);
      var l :| 0 <= l < |valid| && valid[l] == table[k];
      assert valid[l].noun == noun;
    }
  }

  /** The entries of the noun groups. */
  method NounEntries<K(==,!new), T(!new)>(tools: seq<T>, nouns: seq<K>, general: K) returns (entries: seq<Entry<K, T>>)
    requires |tools| == |nouns|
    ensures NounsDiffer(entries) && multiset(Flatten(entries)) == multiset(tools)
    ensures forall e :: e in entries ==> e.tools != []
    ensures forall e :: e in entries ==> IsNounEntry(e, tools, nouns, general)
    ensures Keyed(entries, tools, nouns, general)
  {
    var table := ByNoun(tools, nouns);
    var valid, single := Separate(table);
    entries := AddGeneral(valid, single, general);
    forall e | e in entries ensures IsNounEntry(e, tools, nouns, general) {
      if e.noun != general {
        assert Large(table, e);
      } else {
        GeneralListed(table, valid, single, entries, tools, nouns, e);
      }
    }
    EntriesKeyed(table, valid, single, entries, tools, nouns, general);
  }

  lemma MadeGroups<K(!new), T(!new)>(entries: seq<Entry<K, T>>, groups: seq<ToolGroup<T>>, tools: seq<T>,
      nouns: seq<K>, general: K, make: Entry<K, T> -> ToolGroup<T>)
    requires |tools| == |nouns| && KeepsTools(make) && |groups| == |entries|
    requires forall i :: 0 <= i < |groups| ==> groups[i] == make(entries[i])
    requires forall e :: e in entries ==> e.tools != [] && IsNounEntry(e, tools, nouns, general)
    ensures AreNounGroups(groups, tools, nouns, general, make)
    ensures forall g :: g in groups ==> g.tools != []
  {
    forall g | g in groups ensures IsNounGroup(g, tools, nouns, general, make) && g.tools != [] {
      var i :| 0 <= i < |groups| && groups[i] == g;
      assert entries[i] in entries;
    }
  }

  /**
    Groups by noun, the single tools under `general`; if that makes fewer than two
    groups, alphabetical parts. Either way every tool is in exactly one group.
   */
  method Group<K(==,!new), T(!new)>(tools: seq<T>, nouns: seq<K>, general: K, byName: (T, T) -> bool,
      byPrefix: (ToolGroup<T>, ToolGroup<T>) -> bool, makeGroup: Entry<K, T> -> ToolGroup<T>,
        makePart: (nat, seq<T>) -> ToolGroup<T>)
    returns (groups: seq<ToolGroup<T>>, ghost chunked: bool)
    requires |tools| == |nouns| && KeepsTools(makeGroup) && Faithful(makePart)
    requires TotalPreorder(byName) && TotalPreorder(byPrefix)
    ensures multiset(AllTools(groups)) == multiset(tools)
    ensures forall g :: g in groups ==> g.tools != []
    ensures chunked ==> AllTools(groups) == Sort(tools, byName) && AreParts(groups, makePart)
    ensures !chunked && tools != [] ==> |groups| >= 2 && Sorted(groups, byPrefix)
    ensures !chunked ==> AreNounGroups(groups, tools, nouns, general, makeGroup)
    ensures chunked <==> tools != [] && OneKey(nouns, general)
    ensures !chunked ==> AllKeyed(groups, tools, nouns, general, makeGroup)
  {
    if |tools| == 0 {
      return [], false;
    }
    var entries := NounEntries(tools, nouns, general);
    chunked := |entries| < 2;
    FewEntries(entries, tools, nouns, general);
    if |entries| < 2 {
      groups := AlphabeticalChunks(tools, byName, makePart);
      SortPermutes(tools, byName);
      PartsNonempty(groups, makePart);
      return;
    }
    var unsorted := BuildGroups(entries, makeGroup);
    MadeGroups(entries, unsorted, tools, nouns, general, makeGroup);
    MadeKeyed(entries, unsorted, tools, nouns, general, makeGroup);
    groups := Sort(unsorted, byPrefix);
    SortSorts(unsorted, byPrefix);
    SortPermutes(unsorted, byPrefix);
    AllToolsSort(unsorted, byPrefix);
    forall g ensures g in groups <==> g in unsorted {
      SortMembers(unsorted, byPrefix, g);
    }
  }

  /** `g` is made of just the tools that belong to `key`. */
  ghost predicate IsGroupFor<K(!new), T(!new)>(g: ToolGroup<T>, key: K, tools: seq<T>, nouns: seq<K>, general: K,
      make: Entry<K, T> -> ToolGroup<T>)
    requires |tools| == |nouns|
  {
    exists e: Entry<K, T> :: g == make(e) && e.noun == key && IsKeyed(e, tools, nouns, general)
  }

  /** Every key has a group, and every group is that of a key. */
  ghost predicate AllKeyed<K(!new), T(!new)>(groups: seq<ToolGroup<T>>, tools: seq<T>, nouns: seq<K>, general: K,
      make: Entry<K, T> -> ToolGroup<T>)
    requires |tools| == |nouns|
  {
    && (forall g :: g in groups ==> exists key :: IsGroupFor(g, key, tools, nouns, general, make))
    && (forall key :: IsKey(nouns, general, key) ==>
          exists g :: g in groups && IsGroupFor(g, key, tools, nouns, general, make))
  }

  lemma MadeKeyed<K(!new), T(!new)>(entries: seq<Entry<K, T>>, groups: seq<ToolGroup<T>>, tools: seq<T>,
      nouns: seq<K>, general: K, make: Entry<K, T> -> ToolGroup<T>)
    requires |tools| == |nouns| && Keyed(entries, tools, nouns, general) && |groups| == |entries|
    requires forall i :: 0 <= i < |groups| ==> groups[i] == make(entries[i])
    ensures AllKeyed(groups, tools, nouns, general, make)
  {
    forall i | 0 <= i < |groups| ensures IsGroupFor(groups[i], entries[i].noun, tools, nouns, general, make) {
      assert entries[i] in entries;
    }
    forall key | IsKey(nouns, general, key)
      ensures exists g :: g in groups && IsGroupFor(g, key, tools, nouns, general, make)
    {
      assert HasNoun(entries, key);
      var k :| 0 <= k < |entries| && entries[k].noun == key;
      assert groups[k] in groups;
    }
  }

  lemma PartsNonempty<T>(groups: seq<ToolGroup<T>>, make: (nat, seq<T>) -> ToolGroup<T>)
    requires AreParts(groups, make)
    ensures forall g :: g in groups ==> g.tools != []
  {
    forall g | g in groups ensures g.tools != [] {
      var i :| 0 <= i < |groups| && groups[i] == g;
      assert IsPart(groups[i], i, make);
    }
  }

  /** The nouns of tool names; the shared service prefix makes no difference. */
  function NounsOf(names: seq<string>): (r: seq<string>)
    ensures |r| == |names| && forall i :: 0 <= i < |r| ==> r[i] == NounOf(names[i])
  {
    seq(|names|, i requires 0 <= i < |names| => NounOf(names[i]))
  }

  function NamesOf<T>(tools: seq<T>, name: T -> string): (r: seq<string>)
    ensures |r| == |tools| && forall i :: 0 <= i < |r| ==> r[i] == name(tools[i])
  {
    seq(|tools|, i requires 0 <= i < |tools| => name(tools[i]))
  }

  // ------------------------------------------------------- said of the names alone

  /** Two names that end in the same noun, be it once in the plural. */
  ghost predicate ShareNoun(a: string, b: string) {
    exists x, y :: IsLastSegment(a, x) && IsLastSegment(b, y) && SameNoun(x, y)
  }

  /** A noun and the form its group is named after. */
  ghost predicate SingularIs(noun: string, form: string) {
    if IsFolded(noun) then noun == form + "s" else noun == form
  }

  /** The `i`-th name belongs to the group of that prefix: its noun's, or the general one if no other name has it. */
  ghost predicate PlacedIn(names: seq<string>, i: int, prefix: string)
    requires 0 <= i < |names|
  {
    if exists j :: 0 <= j < |names| && j != i && ShareNoun(names[i], names[j])
    then exists noun :: IsLastSegment(names[i], noun) && SingularIs(noun, prefix)
    else prefix == General
  }

  /** No two names belong to different groups. */
  ghost predicate OnePlace(names: seq<string>) {
    forall i, j, p, q :: 0 <= i < |names| && 0 <= j < |names| && PlacedIn(names, i, p) && PlacedIn(names, j, q)
      ==> p == q
  }

  lemma ShareNounIff(a: string, b: string)
    ensures ShareNoun(a, b) <==> NounOf(a) == NounOf(b)
  {
    LastSegmentIs(a);
    LastSegmentIs(b);
    SameNounIff(ExtractNoun(a), ExtractNoun(b));
  }

  lemma SingularIff(noun: string, form: string)
    ensures SingularIs(noun, form) <==> NormalizeNoun(noun) == form
  {
    FoldedIff(noun);
    if IsFolded(noun) {
      assert noun == NormalizeNoun(noun) + "s";
    }
  }

  /** Where a name belongs is the key its noun has among the nouns of all names. */
  lemma PlacedIff(names: seq<string>, i: nat, prefix: string)
    requires i < |names|
    ensures PlacedIn(names, i, prefix) <==> KeyOf(NounsOf(names), General, i) == prefix
  {
    var nouns := NounsOf(names);
    forall j | 0 <= j < |names| ensures ShareNoun(names[i], names[j]) <==> nouns[j] == nouns[i] {
      ShareNounIff(names[i], names[j]);
    }
    LastSegmentIs(names[i]);
    SingularIff(ExtractNoun(names[i]), prefix);
  }

  lemma OnePlaceIff(names: seq<string>)
    ensures OnePlace(names) <==> OneKey(NounsOf(names), General)
  {
    var nouns := NounsOf(names);
    forall i: nat, p | i < |names| ensures PlacedIn(names, i, p) <==> KeyOf(nouns, General, i) == p {
      PlacedIff(names, i, p);
    }
    if OnePlace(names) {
      forall i: nat, j: nat | i < |names| && j < |names|
        ensures KeyOf(nouns, General, i) == KeyOf(nouns, General, j)
      {
        assert PlacedIn(names, i, KeyOf(nouns, General, i)) && PlacedIn(names, j, KeyOf(nouns, General, j));
      }
    }
  }

  /** The `i`-th tool is `t` and belongs to the group of that prefix. */
  ghost predicate IsPlaced<T>(tools: seq<T>, names: seq<string>, t: T, prefix: string, i: int)
    requires |tools| == |names|
  {
    0 <= i < |tools| && tools[i] == t && PlacedIn(names, i, prefix)
  }

  /** A group of just the tools that belong to its prefix, with the texts made of that prefix. */
  ghost predicate IsPlaceOf<T(!new)>(g: ToolGroup<T>, tools: seq<T>, names: seq<string>, upper: char -> string)
    requires |tools| == |names|
  {
    && (forall t :: t in g.tools <==> exists i :: IsPlaced(tools, names, t, g.prefix, i))
    && g.filename == g.prefix + "-ops.md"
    && (g.prefix == General ==> g.caption == "General")
    && (forall c: char, rest :: g.prefix == [c] + rest && g.prefix != General ==>
          g.caption == upper(c) + rest + " Operations")
  }

  /** One group for each place of a tool, and no other. */
  ghost predicate ByPlace<T(!new)>(groups: seq<ToolGroup<T>>, tools: seq<T>, names: seq<string>, upper: char -> string)
    requires |tools| == |names|
  {
    && (forall g :: g in groups ==> IsPlaceOf(g, tools, names, upper))
    && (forall i :: 0 <= i < |names| ==> HasPlace(groups, names, i))
  }

  ghost predicate HasPlace<T>(groups: seq<ToolGroup<T>>, names: seq<string>, i: int)
    requires 0 <= i < |names|
  {
    exists g :: g in groups && PlacedIn(names, i, g.prefix)
  }

  lemma KeyedIsPlace<T(!new)>(g: ToolGroup<T>, key: string, tools: seq<T>, names: seq<string>, upper: char -> string)
    requires |tools| == |names| && IsGroupFor(g, key, tools, NounsOf(names), General, MakeGroup(upper))
    ensures g.prefix == key && IsPlaceOf(g, tools, names, upper)
  {
    var e: Entry<string, T> :| g == MakeGroup(upper)(e) && e.noun == key && IsKeyed(e, tools, NounsOf(names), General);
    forall i: nat | i < |names| ensures PlacedIn(names, i, key) <==> KeyOf(NounsOf(names), General, i) == key {
      PlacedIff(names, i, key);
    }
    forall t ensures t in g.tools <==> exists i :: IsPlaced(tools, names, t, key, i) {
      if t in g.tools {
        var i :| Belongs(tools, NounsOf(names), General, key, t, i);
        assert IsPlaced(tools, names, t, key, i);
      }
      if i :| IsPlaced(tools, names, t, key, i) {
        assert Belongs(tools, NounsOf(names), General, key, t, i);
      }
    }
    forall c: char, rest | key == [c] + rest ensures Capitalize(key, upper) == upper(c) + rest {
      assert key[1..] == rest;
    }
  }

  lemma KeyedByPlace<T(!new)>(groups: seq<ToolGroup<T>>, tools: seq<T>, names: seq<string>, upper: char -> string)
    requires |tools| == |names| && AllKeyed(groups, tools, NounsOf(names), General, MakeGroup(upper))
    ensures ByPlace(groups, tools, names, upper)
  {
    forall g | g in groups ensures IsPlaceOf(g, tools, names, upper) {
      var key :| IsGroupFor(g, key, tools, NounsOf(names), General, MakeGroup(upper));
      KeyedIsPlace(g, key, tools, names, upper);
    }
    forall i: nat | i < |names| ensures HasPlace(groups, names, i) {
      var key := KeyOf(NounsOf(names), General, i);
      assert IsKey(NounsOf(names), General, key);
      var g :| g in groups && IsGroupFor(g, key, tools, NounsOf(names), General, MakeGroup(upper));
      KeyedIsPlace(g, key, tools, names, upper);
      PlacedIff(names, i, key);
    }
  }

  /** Names that end in one noun, be it once in the plural, are in one group. */
  lemma NounsMeet<T(!new)>(groups: seq<ToolGroup<T>>, tools: seq<T>, names: seq<string>, upper: char -> string,
      i: nat, j: nat)
    requires |tools| == |names| && ByPlace(groups, tools, names, upper) && i < |names| && j < |names|
    requires ShareNoun(names[i], names[j])
    ensures exists g :: g in groups && tools[i] in g.tools && tools[j] in g.tools
  {
    assert HasPlace(groups, names, i);
    var g :| g in groups && PlacedIn(names, i, g.prefix);
    PlacedIff(names, i, g.prefix);
    PlacedIff(names, j, g.prefix);
    ShareNounIff(names[i], names[j]);
    assert IsPlaced(tools, names, tools[i], g.prefix, i);
    if i != j {
      assert NounsOf(names)[i] == NounsOf(names)[j];
      assert IsPlaced(tools, names, tools[j], g.prefix, j);
    }
  }

  /** The groups of a service's tools. */
  method DetectPrefixGroups<T(!new)>(tools: seq<T>, name: T -> string, upper: char -> string, byName: (T, T) -> bool,
      byPrefix: (ToolGroup<T>, ToolGroup<T>) -> bool) returns (groups: seq<ToolGroup<T>>, ghost chunked: bool)
    requires TotalPreorder(byName) && TotalPreorder(byPrefix)
    ensures multiset(AllTools(groups)) == multiset(tools)
    ensures forall g :: g in groups ==> g.tools != []
    ensures chunked ==> AllTools(groups) == Sort(tools, byName) && AreParts(groups, MakePart)
    ensures !chunked && tools != [] ==> |groups| >= 2 && Sorted(groups, byPrefix)
    ensures !chunked ==> AreNounGroups(groups, tools, NounsOf(NamesOf(tools, name)), General, MakeGroup(upper))
    ensures chunked <==> tools != [] && OnePlace(NamesOf(tools, name))
    ensures !chunked ==> ByPlace(groups, tools, NamesOf(tools, name), upper)
  {
    var names := NamesOf(tools, name);
    var prefix, stripped := StripServicePrefix(names);
    var nouns := NounsOf(stripped);
    assert nouns == NounsOf(names);
    groups, chunked := Group(tools, nouns, General, byName, byPrefix, MakeGroup(upper), MakePart);
    OnePlaceIff(names);
    if !chunked {
      KeyedByPlace(groups, tools, names, upper);
    }
  }

  function MakeGroup<T>(upper: char -> string): Entry<string, T> -> ToolGroup<T> {
    (e: Entry<string, T>) => GroupOf(e, upper)
  }

  function MakePart<T>(i: nat, part: seq<T>): ToolGroup<T> {
    PartOf(i, part)
  }
}
