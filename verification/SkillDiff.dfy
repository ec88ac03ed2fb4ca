/**
  The difference between a skill file's tools and a service's: exact after a round trip
  through the printed file.
 */
module SkillDiff {
  import opened Wrappers
  import opened Lists
  import opened Lookups
  import opened Strings
  import opened Ordering
  import opened Grouping
  import SF = SkillFile
  import RT = SkillRoundTrip

  // ------------------------------------------------------------- the difference

  /** What a name's descriptions in the two lists say about it. */
  predicate IsAdded<N(==)>(existing: seq<Named<N, string>>, current: seq<Named<N, string>>, n: N) {
    ValueOf(existing, n) == None && ValueOf(current, n).Some?
  }

  predicate IsRemoved<N(==)>(existing: seq<Named<N, string>>, current: seq<Named<N, string>>, n: N) {
    ValueOf(existing, n).Some? && ValueOf(current, n) == None
  }

  /** An empty description in the existing list means that it is not known. */
  predicate IsModified<N(==)>(existing: seq<Named<N, string>>, current: seq<Named<N, string>>, n: N) {
    ValueOf(existing, n).Some? && ValueOf(current, n).Some? && ValueOf(existing, n).value != ""
      && ValueOf(existing, n) != ValueOf(current, n)
  }

  /** A list without repetitions of just the elements with a property. */
  ghost predicate JustThose<N(!new)>(s: seq<N>, p: N -> bool) {
    (forall n :: n in s <==> p(n)) && forall i, j :: 0 <= i < j < |s| ==> s[i] != s[j]
  }

  function Filter<N>(s: seq<N>, p: N -> bool): seq<N> {
    if s == [] then [] else Filter(s[..|s| - 1], p) + if p(s[|s| - 1]) then [s[|s| - 1]] else []
  }

  lemma {:induction false} FilterStep<N>(s: seq<N>, i: nat, p: N -> bool)
    requires i < |s|
    ensures Filter(s[..i + 1], p) == if p(s[i]) then Filter(s[..i], p) + [s[i]] else Filter(s[..i], p)
  {
    assert s[..i + 1][..i] == s[..i];
  }

  lemma {:induction false} FilterMembers<N>(s: seq<N>, p: N -> bool, n: N)
    ensures n in Filter(s, p) <==> n in s && p(n)
  {
    if s != [] {
      FilterMembers(s[..|s| - 1], p, n);
      assert s == s[..|s| - 1] + [s[|s| - 1]];
    }
  }

  lemma {:induction false} FilterNone<N>(s: seq<N>, p: N -> bool)
    requires forall n :: n in s ==> !p(n)
    ensures Filter(s, p) == []
  {
    if s != [] {
      FilterNone(s[..|s| - 1], p);
    }
  }

  lemma {:induction false} FilterOnce<N>(s: seq<N>, p: N -> bool)
    requires forall i, j :: 0 <= i < j < |s| ==> s[i] != s[j]
    ensures forall i, j :: 0 <= i < j < |Filter(s, p)| ==> Filter(s, p)[i] != Filter(s, p)[j]
  {
    if s != [] {
      var front, last := s[..|s| - 1], s[|s| - 1];
      FilterOnce(front, p);
      var r := Filter(front, p);
      forall i | 0 <= i < |r| ensures r[i] != last {
        FilterMembers(front, p, r[i]);
        assert r[i] in r;
        var k :| 0 <= k < |front| && front[k] == r[i];
        assert s[k] != s[|s| - 1];
      }
    }
  }

  lemma {:induction false} OncePermuted<N(!new)>(a: seq<N>, b: seq<N>)
    requires multiset(a) == multiset(b) && forall i, j :: 0 <= i < j < |a| ==> a[i] != a[j]
    ensures forall i, j :: 0 <= i < j < |b| ==> b[i] != b[j]
  {
    forall i, j | 0 <= i < j < |b| ensures b[i] != b[j] {
      OnceCount(a, b[i]);
      Twice(b, i, j);
    }
  }

  lemma {:induction false} OnceCount<N>(a: seq<N>, n: N)
    requires forall i, j :: 0 <= i < j < |a| ==> a[i] != a[j]
    ensures multiset(a)[n] <= 1
  {
    if a != [] {
      OnceCount(a[1..], n);
      assert a == [a[0]] + a[1..];
      forall k | 0 <= k < |a[1..]| ensures a[1..][k] != a[0] {
        assert a[1..][k] == a[k + 1];
      }
    }
  }

  /** Sorting the filtered names of a list. */
  lemma SortedFilter<N(!new)>(tools: seq<Named<N, string>>, p: N -> bool, q: N -> bool, before: (N, N) -> bool)
    requires TotalPreorder(before) && forall n :: q(n) <==> p(n) && ValueOf(tools, n).Some?
    ensures (forall n :: !q(n)) ==> Sort(Filter(Names(tools), p), before) == []
    ensures JustThose(Sort(Filter(Names(tools), p), before), q) && Sorted(Sort(Filter(Names(tools), p), before), before)
  {
    var names := Names(tools);
    var found := Filter(names, p);
    SortSorts(found, before);
    SortPermutes(found, before);
    forall i, j | 0 <= i < j < |names| ensures names[i] != names[j] {
      NamesOnce(tools, i, j);
    }
    FilterOnce(names, p);
    if forall n :: n in names ==> !p(n) {
      FilterNone(names, p);
    }
    OncePermuted(found, Sort(found, before));
    forall n ensures n in Sort(found, before) <==> q(n) {
      SortMembers(found, before, n);
      FilterMembers(names, p, n);
      NamesAreLookups(tools, n);
    }
    forall n | n in names ensures p(n) <==> q(n) {
      NamesAreLookups(tools, n);
    }
  }

  /** The three lists, each sorted and without repetitions, and whether any has an entry. */
  method ComputeSkillDiff<N(!new,==)>(existing: seq<Named<N, string>>, current: seq<Named<N, string>>,
      before: (N, N) -> bool)
    returns (added: seq<N>, removed: seq<N>, modified: seq<N>, hasChanges: bool)
    requires TotalPreorder(before)
    ensures JustThose(added, n => IsAdded(existing, current, n)) && Sorted(added, before)
    ensures JustThose(removed, n => IsRemoved(existing, current, n)) && Sorted(removed, before)
    ensures JustThose(modified, n => IsModified(existing, current, n)) && Sorted(modified, before)
    ensures (forall n :: !IsModified(existing, current, n)) ==> modified == []
    ensures hasChanges <==> added != [] || removed != [] || modified != []
  {
    added, removed, modified := [], [], [];
    var gone := n => ValueOf(current, n) == None;
    var names := Names(existing);
    Prefixes(names);
    for i := 0 to |names|
      invariant removed == Filter(names[..i], gone)
    {
      FilterStep(names, i, gone);
      if ValueOf(current, names[i]) == None {
        removed := removed + [names[i]];
      }
    }
    var unknown := n => ValueOf(existing, n) == None;
    var differs := n => ValueOf(existing, n).Some? && ValueOf(existing, n).value != ""
      && ValueOf(existing, n) != ValueOf(current, n);
    names := Names(current);
    Prefixes(names);
    for i := 0 to |names|
      invariant added == Filter(names[..i], unknown) && modified == Filter(names[..i], differs)
    {
      FilterStep(names, i, unknown);
      FilterStep(names, i, differs);
      NamesAreLookups(current, names[i]);
      if ValueOf(existing, names[i]) == None {
        added := added + [names[i]];
      } else if ValueOf(existing, names[i]).value != "" && ValueOf(existing, names[i]).value != ValueOf(current,
        names[i]).value {
        modified := modified + [names[i]];
      }
    }
    SortedFilter(existing, gone, n => IsRemoved(existing, current, n), before);
    SortedFilter(current, unknown, n => IsAdded(existing, current, n), before);
    SortedFilter(current, differs, n => IsModified(existing, current, n), before);
    added, removed, modified := Sort(added, before), Sort(removed, before), Sort(modified, before);
    hasChanges := |added| > 0 || |removed| > 0 || |modified| > 0;
  }

  // ------------------------------------------- groups of plain names print well

  /** The host's upper case of a character: itself, or nothing that the format uses. */
  ghost predicate UpperIsPlain(upper: char -> string) {
    forall c :: upper(c) == [c] || ('<' !in upper(c) && '|' !in upper(c) && '\n' !in upper(c))
  }

  /** Tool names the format can carry. */
  ghost predicate AllPlain(names: seq<string>) {
    forall i :: 0 <= i < |names| ==> RT.Plain(names[i])
  }

  lemma {:induction false} CharInPart(s: string, c: char, i: nat, x: char)
    requires i < |SplitOn(s, c)| && x in SplitOn(s, c)[i]
    ensures x in s
  {
    if s != "" {
      assert s == [s[0]] + s[1..];
      var rest := SplitOn(s[1..], c);
      if s[0] == c {
        if i > 0 {
          CharInPart(s[1..], c, i - 1, x);
        }
      } else if i > 0 {
        CharInPart(s[1..], c, i, x);
      } else if x != s[0] {
        assert x in rest[0];
        CharInPart(s[1..], c, 0, x);
      }
    }
  }

  lemma NounCharacters(name: string, x: char)
    requires x in NounOf(name)
    ensures x in name
  {
    var segments := SplitOn(name, '_');
    assert x in segments[|segments| - 1];
    CharInPart(name, '_', |segments| - 1, x);
  }

  lemma NounOccurs(name: string, m: string)
    requires Occurs(m, NounOf(name))
    ensures Occurs(m, name)
  {
    var segments := SplitOn(name, '_');
    var noun := ExtractNoun(name);
    assert noun[..|noun|] == noun;
    OccursSlice(m, noun, 0, |NounOf(name)|);
    OccursInPart(m, name, '_', |segments| - 1);
  }

  /** A noun the format can carry. */
  ghost predicate GoodNoun(noun: string, marked: bool) {
    '|' !in noun && '\n' !in noun && (!marked ==> !Occurs(SF.MarkerEnd, noun))
  }

  lemma NounIsGood(name: string)
    requires RT.Plain(name)
    ensures GoodNoun(NounOf(name), Occurs(SF.MarkerEnd, name))
  {
    if '|' in NounOf(name) {
      NounCharacters(name, '|');
    }
    if '\n' in NounOf(name) {
      NounCharacters(name, '\n');
    }
    if Occurs(SF.MarkerEnd, NounOf(name)) {
      NounOccurs(name, SF.MarkerEnd);
    }
  }

  lemma CapitalIsGood(noun: string, upper: char -> string, marked: bool)
    requires GoodNoun(noun, marked) && UpperIsPlain(upper)
    ensures GoodNoun(Capitalize(noun, upper), marked)
  {
    if noun != "" {
      var first, rest := upper(noun[0]), noun[1..];
      assert noun == [noun[0]] + rest;
      if first != [noun[0]] && Occurs(SF.MarkerEnd, first + rest) {
        RT.Marks();
        OccursAfter(SF.MarkerEnd, first, rest);
        assert rest == noun[1..|noun|];
        OccursSlice(SF.MarkerEnd, noun, 1, |noun|);
      }
    }
  }

  lemma CaptionIsGood(noun: string, upper: char -> string, marked: bool)
    requires GoodNoun(noun, marked) && UpperIsPlain(upper)
    ensures var caption := Capitalize(noun, upper) + " Operations";
            GoodNoun(caption, marked) && RT.Visible(caption) && |caption| > 5
  {
    CapitalIsGood(noun, upper, marked);
    var capital := Capitalize(noun, upper);
    var caption := capital + " Operations";
    assert caption[|capital| + 1] == 'O';
    if Occurs(SF.MarkerEnd, caption) {
      RT.Marks();
      OccursBefore(SF.MarkerEnd, capital, " Operations");
    }
  }

  lemma FilenameIsGood(noun: string, marked: bool)
    requires GoodNoun(noun, marked)
    ensures GoodNoun(noun + "-ops.md", marked)
  {
    if Occurs(SF.MarkerEnd, noun + "-ops.md") {
      RT.Marks();
      OccursBefore(SF.MarkerEnd, noun, "-ops.md");
    }
  }

  /** How a group is labelled in the file, whatever tools it has. */
  ghost predicate GoodLabels(g: ToolGroup<string>, marked: bool) {
    && GoodNoun(g.caption, marked) && RT.Visible(g.caption) && |g.caption| > 5
    && GoodNoun(g.filename, marked)
  }

  lemma NounGroupLabels(e: Entry<string, string>, upper: char -> string, marked: bool)
    requires GoodNoun(e.noun, marked) && UpperIsPlain(upper)
    ensures GoodLabels(GroupOf(e, upper), marked)
  {
    CaptionIsGood(e.noun, upper, marked);
    FilenameIsGood(e.noun, marked);
    if e.noun == General {
      RT.Marks();
      RT.PlainWithout(SF.MarkerEnd, "General");
      assert "General"[0] == 'G';
    }
  }

  lemma PartLabels(i: nat, part: seq<string>)
    ensures GoodLabels(PartOf(i, part), false)
  {
    RT.Marks();
    RT.DecimalPlain(i);
    var g := PartOf(i, part);
    RT.PlainWithout(SF.MarkerEnd, g.caption);
    RT.PlainWithout(SF.MarkerEnd, g.filename);
    assert g.caption[0] == 'T';
  }

  lemma LabelsPrint(g: ToolGroup<string>, marked: bool)
    requires GoodLabels(g, marked) && g.tools != [] && AllPlain(g.tools)
    ensures RT.Printable(g)
    ensures !marked && Without(SF.MarkerEnd, g.tools) ==> RT.EndFree(g)
  {
    assert |"Tool"| == 4 && |"tool"| == 4 && |"Group"| == 5;
  }

  function Itself(name: string): string {
    name
  }

  /** What `DetectPrefixGroups` promises of its groups. */
  ghost predicate AreGroupsOf(groups: seq<ToolGroup<string>>, tools: seq<string>, upper: char -> string) {
    && multiset(AllTools(groups)) == multiset(tools)
    && (forall g :: g in groups ==> g.tools != [])
    && (AreParts(groups, MakePart) || AreNounGroups(groups, tools, NounsOf(NamesOf(tools, Itself)), General,
      MakeGroup(upper)))
  }

  lemma {:induction false} ToolIsListed(groups: seq<ToolGroup<string>>, g: ToolGroup<string>, t: string)
    requires g in groups && t in g.tools
    ensures t in AllTools(groups)
  {
    if g != groups[0] {
      assert g in groups[1..];
      ToolIsListed(groups[1..], g, t);
    }
  }

  lemma GroupLabels(groups: seq<ToolGroup<string>>, tools: seq<string>, upper: char -> string, g: ToolGroup<string>,
      marked: bool)
    requires AreGroupsOf(groups, tools, upper) && UpperIsPlain(upper) && AllPlain(tools) && g in groups
    requires !marked ==> Without(SF.MarkerEnd, tools)
    ensures GoodLabels(g, marked)
  {
    if AreParts(groups, MakePart) {
      var i :| 0 <= i < |groups| && groups[i] == g;
      assert IsPart(groups[i], i, MakePart);
      PartLabels(i + 1, g.tools);
    } else {
      var nouns := NounsOf(NamesOf(tools, Itself));
      assert IsNounGroup(g, tools, nouns, General, MakeGroup(upper));
      var e :| g == MakeGroup(upper)(e) && (e.noun == General || (IsClass(e, tools, nouns) && |e.tools| >= 2));
      if e.noun == General {
        GeneralIsGood(marked);
      } else {
        var i :| 0 <= i < |nouns| && nouns[i] == e.noun;
        NounIsGood(tools[i]);
      }
      NounGroupLabels(e, upper, marked);
    }
  }

  lemma GeneralIsGood(marked: bool)
    ensures GoodNoun(General, marked)
  {
    RT.Marks();
    RT.PlainWithout(SF.MarkerEnd, General);
  }

  lemma GroupPrints(groups: seq<ToolGroup<string>>, tools: seq<string>, upper: char -> string, g: ToolGroup<string>)
    requires AreGroupsOf(groups, tools, upper) && UpperIsPlain(upper) && AllPlain(tools) && g in groups
    ensures RT.Printable(g) && (Without(SF.MarkerEnd, tools) ==> RT.EndFree(g))
  {
    var marked := !Without(SF.MarkerEnd, tools);
    GroupLabels(groups, tools, upper, g, marked);
    forall i | 0 <= i < |g.tools| ensures RT.Plain(g.tools[i]) && (!marked ==> !Occurs(SF.MarkerEnd, g.tools[i])) {
      ToolIsListed(groups, g, g.tools[i]);
      assert g.tools[i] in multiset(tools);
      var k :| 0 <= k < |tools| && tools[k] == g.tools[i];
    }
    LabelsPrint(g, marked);
  }

  lemma SameWithout(a: seq<string>, b: seq<string>, m: string)
    requires multiset(a) == multiset(b)
    ensures Without(m, a) <==> Without(m, b)
  {
    if Without(m, a) {
      forall i | 0 <= i < |b| ensures !Occurs(m, b[i]) {
        assert b[i] in multiset(a);
      }
    }
    if Without(m, b) {
      forall i | 0 <= i < |a| ensures !Occurs(m, a[i]) {
        assert a[i] in multiset(b);
      }
    }
  }

  /** The text between the listing and the reader, for any groups of plain names. */
  lemma GroupsReadBack(input: SF.Input, tools: seq<string>, upper: char -> string)
    requires AreGroupsOf(input.groups, tools, upper) && UpperIsPlain(upper) && AllPlain(tools)
    requires RT.GoodHeader(input) && input.tools == tools
    ensures Without(SF.MarkerEnd, tools)
      ==> SF.ParsedTools(SF.SkillText(input)) == SF.Undescribed(AllTools(input.groups))
    ensures multiset(RT.Names(SF.ParsedTools(SF.SkillText(input)))) == multiset(tools) <==> Without(SF.MarkerEnd, tools)
  {
    forall i | 0 <= i < |input.groups| ensures RT.Printable(input.groups[i])
      && (Without(SF.MarkerEnd, tools) ==> RT.EndFree(input.groups[i])) {
      GroupPrints(input.groups, tools, upper, input.groups[i]);
    }
    SameWithout(AllTools(input.groups), tools, SF.MarkerEnd);
    if input.groups == [] {
      assert |multiset(tools)| == 0;
      assert tools == [];
      RT.ReadsBack(input);
      assert AllTools(input.groups) == [] && RT.Listed(input) == [];
    } else {
      RT.ReadsBackIff(input);
    }
  }

  /** Parsed tools as a list of descriptions. */
  function Described(tools: seq<SF.Tool>): seq<Named<string, string>> {
    if tools == [] then []
    else Described(tools[..|tools| - 1]) + [Named(tools[|tools| - 1].name, tools[|tools| - 1].description)]
  }

  lemma {:induction false} UndescribedSnoc(names: seq<string>, last: string)
    ensures SF.Undescribed(names + [last]) == SF.Undescribed(names) + [SF.Tool(last, "")]
  {
    if names == [] {
      assert [last][1..] == [];
      assert SF.Undescribed([last]) == [SF.Tool(last, "")] + SF.Undescribed([]);
    } else {
      UndescribedSnoc(names[1..], last);
      assert (names + [last])[1..] == names[1..] + [last];
    }
  }

  lemma {:induction false} DescribedLookup(names: seq<string>, n: string)
    ensures ValueOf(Described(SF.Undescribed(names)), n) == if n in names then Some("") else None
  {
    if names != [] {
      var front, last := names[..|names| - 1], names[|names| - 1];
      assert names == front + [last];
      UndescribedSnoc(front, last);
      DescribedLookup(front, n);
      var tools := SF.Undescribed(front);
      assert (tools + [SF.Tool(last, "")])[..|tools|] == tools;
      assert Described(tools + [SF.Tool(last, "")]) == Described(tools) + [Named(last, "")];
      assert (Described(tools) + [Named(last, "")])[..|Described(tools)|] == Described(tools);
    } else {
      assert SF.Undescribed(names) == [];
    }
  }

  /** The existing list has the given names, without descriptions. */
  ghost predicate JustNames<N(!new)>(existing: seq<Named<N, string>>, names: seq<N>) {
    forall n :: ValueOf(existing, n) == if n in names then Some("") else None
  }

  lemma ReadNames(input: SF.Input, tools: seq<string>, upper: char -> string)
    requires AreGroupsOf(input.groups, tools, upper) && UpperIsPlain(upper) && AllPlain(tools)
    requires RT.GoodHeader(input) && input.tools == tools && Without(SF.MarkerEnd, tools)
    ensures JustNames(Described(SF.ParsedTools(SF.SkillText(input))), tools)
  {
    GroupsReadBack(input, tools, upper);
    forall n ensures ValueOf(Described(SF.Undescribed(AllTools(input.groups))), n) == if n in tools then Some("")
      else None {
      DescribedLookup(AllTools(input.groups), n);
      assert n in multiset(AllTools(input.groups)) <==> n in multiset(tools);
    }
  }

  /** Writing a skill file for some tools and reading it again. */
  method GenerateThenParse(base: SF.Input, tools: seq<string>, upper: char -> string,
      before: (string, string) -> bool, byPrefix: (ToolGroup<string>, ToolGroup<string>) -> bool)
    returns (content: string, read: seq<SF.Tool>)
    requires TotalPreorder(before) && TotalPreorder(byPrefix) && UpperIsPlain(upper)
    requires AllPlain(tools) && RT.GoodHeader(base)
    ensures multiset(RT.Names(read)) == multiset(tools) <==> Without(SF.MarkerEnd, tools)
    ensures Without(SF.MarkerEnd, tools) ==> JustNames(Described(read), tools)
  {
    var groups; ghost var chunked;
    groups, chunked := DetectPrefixGroups(tools, Itself, upper, before, byPrefix);
    assert AreGroupsOf(groups, tools, upper);
    var input := base.(groups := groups, tools := tools);
    content := SF.GenerateSkillMd(input);
    read := SF.ParseExistingTools(content);
    GroupsReadBack(input, tools, upper);
    if Without(SF.MarkerEnd, tools) {
      ReadNames(input, tools, upper);
    }
  }

  /** Against names without descriptions the difference is one of names. */
  lemma NameDifference<N(!new)>(existing: seq<Named<N, string>>, latest: seq<Named<N, string>>, tools: seq<N>,
      added: seq<N>, removed: seq<N>, modified: seq<N>)
    requires JustNames(existing, tools)
    requires JustThose(added, n => IsAdded(existing, latest, n))
    requires JustThose(removed, n => IsRemoved(existing, latest, n))
    requires (forall n :: !IsModified(existing, latest, n)) ==> modified == []
    ensures JustThose(added, n => n !in tools && ValueOf(latest, n).Some?)
    ensures JustThose(removed, n => n in tools && ValueOf(latest, n) == None)
    ensures modified == []
  {
  }

  /**
    A skill file is generated from some tools, read again and compared with a service's
    tools. The names read are the names written, as a multiset, if and only if none of
    them has the end marker in it; then the difference is exactly the new names, the
    names gone, and nothing modified.
   */
  method GenerateThenDiff(base: SF.Input, tools: seq<string>, latest: seq<Named<string, string>>, upper: char -> string,
      before: (string, string) -> bool, byPrefix: (ToolGroup<string>, ToolGroup<string>) -> bool)
    returns (read: seq<SF.Tool>, added: seq<string>, removed: seq<string>, modified: seq<string>)
    requires TotalPreorder(before) && TotalPreorder(byPrefix) && UpperIsPlain(upper)
    requires AllPlain(tools) && RT.GoodHeader(base)
    ensures multiset(RT.Names(read)) == multiset(tools) <==> Without(SF.MarkerEnd, tools)
    ensures Without(SF.MarkerEnd, tools) ==> JustThose(added, n => n !in tools && ValueOf(latest, n).Some?)
    ensures Without(SF.MarkerEnd, tools) ==> JustThose(removed, n => n in tools && ValueOf(latest, n) == None)
    ensures Without(SF.MarkerEnd, tools) ==> modified == []
  {
    var content, changes;
    content, read := GenerateThenParse(base, tools, upper, before, byPrefix);
    added, removed, modified, changes := ComputeSkillDiff(Described(read), latest, before);
    if Without(SF.MarkerEnd, tools) {
      NameDifference(Described(read), latest, tools, added, removed, modified);
    }
  }
}
