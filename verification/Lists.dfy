/** Plain facts about lists, and about the sizes of sets. */
module Lists {

  /** What is left of a list without some elements. */
  function Keep<T(==)>(s: seq<T>, gone: set<T>): seq<T> {
    if s == [] then [] else Keep(s[..|s| - 1], gone) + if s[|s| - 1] in gone then [] else [s[|s| - 1]]
  }

  /** First occurrences, in order: an insertion-ordered set. */
  function Distinct<T(==)>(s: seq<T>): seq<T> {
    if s == [] then [] else
      var r := Distinct(s[..|s| - 1]);
      if s[|s| - 1] in r then r else r + [s[|s| - 1]]
  }

  lemma {:induction false} KeepSnoc<T>(s: seq<T>, last: T, gone: set<T>)
    ensures Keep(s + [last], gone) == if last in gone then Keep(s, gone) else Keep(s, gone) + [last]
  {
    assert (s + [last])[..|s|] == s;
  }

  lemma {:induction false} KeepMembers<T>(s: seq<T>, gone: set<T>, x: T)
    ensures x in Keep(s, gone) <==> x in s && x !in gone
  {
    if s != [] {
      KeepMembers(s[..|s| - 1], gone, x);
      assert s == s[..|s| - 1] + [s[|s| - 1]];
    }
  }

  lemma {:induction false} DistinctMembers<T>(s: seq<T>, x: T)
    ensures x in Distinct(s) <==> x in s
  {
    if s != [] {
      DistinctMembers(s[..|s| - 1], x);
      assert s == s[..|s| - 1] + [s[|s| - 1]];
    }
  }

  lemma {:induction false} DistinctOnce<T>(s: seq<T>, i: nat, j: nat)
    requires i < j < |Distinct(s)|
    ensures Distinct(s)[i] != Distinct(s)[j]
  {
    var r := Distinct(s[..|s| - 1]);
    if j < |r| {
      DistinctOnce(s[..|s| - 1], i, j);
    }
  }

  lemma {:induction false} KeepTwice<T>(s: seq<T>, a: set<T>, b: set<T>)
    ensures Keep(Keep(s, a), b) == Keep(s, a + b)
  {
    if s != [] {
      var front, last := s[..|s| - 1], s[|s| - 1];
      KeepTwice(front, a, b);
      KeepSnoc(Keep(front, a), last, b);
      assert Keep(s, a) == if last in a then Keep(front, a) else Keep(front, a) + [last];
    }
  }

  lemma {:induction false} KeepAll<T>(s: seq<T>)
    ensures Keep(s, {}) == s
  {
    if s != [] {
      KeepAll(s[..|s| - 1]);
      assert s == s[..|s| - 1] + [s[|s| - 1]];
    }
  }

  lemma Prefix<T>(s: seq<T>, i: nat)
    requires i < |s|
    ensures s[..i + 1] == s[..i] + [s[i]] && s[i] in s
  {
  }

  lemma Prefixes<T>(s: seq<T>)
    ensures s[..0] == [] && s[..|s|] == s
  {
  }

  lemma Twice<T>(s: seq<T>, i: nat, j: nat)
    requires i < j < |s|
    ensures s[i] == s[j] ==> multiset(s)[s[i]] >= 2
  {
    assert s == s[..j] + [s[j]] + s[j + 1..] && s[..j][i] == s[i];
    assert s[i] in s[..j];
  }

  lemma {:induction false} DistinctSnoc<T>(s: seq<T>, x: T)
    ensures Distinct(s + [x]) == if x in s then Distinct(s) else Distinct(s) + [x]
  {
    assert (s + [x])[..|s|] == s;
    DistinctMembers(s, x);
  }

  function Fold<S, T>(step: (S, T) -> S, start: S, s: seq<T>): S
    decreases |s|
  {
    if s == [] then start else Fold(step, step(start, s[0]), s[1..])
  }

  lemma {:induction false} FoldAppend<S, T>(step: (S, T) -> S, start: S, a: seq<T>, b: seq<T>)
    ensures Fold(step, start, a + b) == Fold(step, Fold(step, start, a), b)
    decreases |a|
  {
    if a == [] {
      assert a + b == b;
    } else {
      FoldAppend(step, step(start, a[0]), a[1..], b);
      assert (a + b)[1..] == a[1..] + b;
    }
  }

  lemma Associative<T>(a: seq<T>, b: seq<T>, c: seq<T>)
    ensures a + (b + c) == (a + b) + c
  {
  }

  lemma SubsetSize<T>(a: set<T>, b: set<T>)
    requires a <= b
    ensures |a| <= |b|
    ensures |a| == |b| ==> a == b
  {
    assert b == a + (b - a);
  }

  lemma SomeElement<T>(s: seq<T>)
    ensures s == [] || exists x :: x in s
  {
    if s != [] {
      assert s[0] in s;
    }
  }

  /** `part` stands in `whole` at these places, in order. */
  ghost predicate StandsAt<T>(part: seq<T>, whole: seq<T>, at: seq<nat>) {
    && |at| == |part| && (forall k :: 0 <= k < |at| ==> at[k] < |whole| && whole[at[k]] == part[k])
    && forall j, k :: 0 <= j < k < |at| ==> at[j] < at[k]
  }
}
