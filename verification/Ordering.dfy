/** Sorting by a comparison, and the code-unit order of strings. */
module Ordering {

  ghost predicate TotalPreorder<T(!new)>(leq: (T, T) -> bool) {
    && (forall x, y :: leq(x, y) || leq(y, x))
    && (forall x, y, z :: leq(x, y) && leq(y, z) ==> leq(x, z))
  }

  ghost predicate TotalOrder<T(!new)>(leq: (T, T) -> bool) {
    TotalPreorder(leq) && forall x, y :: leq(x, y) && leq(y, x) ==> x == y
  }

  predicate Sorted<T>(s: seq<T>, leq: (T, T) -> bool) {
    forall i, j :: 0 <= i < j < |s| ==> leq(s[i], s[j])
  }

  /** Puts `x` before the first element it may precede. */
  function Insert<T>(x: T, s: seq<T>, leq: (T, T) -> bool): seq<T> {
    if s == [] then [x]
    else if leq(x, s[0]) then [x] + s
    else [s[0]] + Insert(x, s[1..], leq)
  }

  /** A stable sort. */
  function Sort<T>(s: seq<T>, leq: (T, T) -> bool): seq<T> {
    if s == [] then [] else Insert(s[0], Sort(s[1..], leq), leq)
  }

  lemma {:induction false} InsertPermutes<T>(x: T, s: seq<T>, leq: (T, T) -> bool)
    ensures multiset(Insert(x, s, leq)) == multiset(s) + multiset{x}
  {
    if s != [] && !leq(x, s[0]) {
      InsertPermutes(x, s[1..], leq);
      assert s == [s[0]] + s[1..];
    }
  }

  lemma {:induction false} SortPermutes<T>(s: seq<T>, leq: (T, T) -> bool)
    ensures multiset(Sort(s, leq)) == multiset(s)
    ensures |Sort(s, leq)| == |s|
  {
    if s != [] {
      SortPermutes(s[1..], leq);
      InsertPermutes(s[0], Sort(s[1..], leq), leq);
      assert s == [s[0]] + s[1..];
      assert |multiset(Sort(s, leq))| == |s|;
    }
  }

  lemma SortMembers<T>(s: seq<T>, leq: (T, T) -> bool, x: T)
    ensures x in Sort(s, leq) <==> x in s
  {
    SortPermutes(s, leq);
    assert x in multiset(Sort(s, leq)) <==> x in multiset(s);
  }

  lemma {:induction false} InsertSorts<T(!new)>(x: T, s: seq<T>, leq: (T, T) -> bool)
    requires TotalPreorder(leq) && Sorted(s, leq)
    ensures Sorted(Insert(x, s, leq), leq)
  {
    if s != [] && !leq(x, s[0]) {
      InsertSorts(x, s[1..], leq);
      InsertPermutes(x, s[1..], leq);
      var r := Insert(x, s[1..], leq);
      forall i | 0 <= i < |r|
        ensures leq(s[0], r[i])
      {
        assert r[i] in multiset(r);
        if r[i] in s[1..] {
          var j :| 0 <= j < |s[1..]| && s[1..][j] == r[i];
          assert s[j + 1] == r[i];
        }
      }
    }
  }

  lemma {:induction false} SortSorts<T(!new)>(s: seq<T>, leq: (T, T) -> bool)
    requires TotalPreorder(leq)
    ensures Sorted(Sort(s, leq), leq)
  {
    if s != [] {
      SortSorts(s[1..], leq);
      InsertSorts(s[0], Sort(s[1..], leq), leq);
    }
  }

  /** A list is determined by its elements and their order. */
  lemma {:induction false} SortedUnique<T(!new)>(a: seq<T>, b: seq<T>, leq: (T, T) -> bool)
    requires TotalOrder(leq) && Sorted(a, leq) && Sorted(b, leq) && multiset(a) == multiset(b)
    ensures a == b
  {
    assert |multiset(a)| == |multiset(b)|;
    if a != [] {
      assert a[0] in multiset(b) && b[0] in multiset(a);
      FirstIsLeast(a, b[0], leq);
      FirstIsLeast(b, a[0], leq);
      assert a == [a[0]] + a[1..] && b == [b[0]] + b[1..];
      assert multiset(a[1..]) == multiset(a) - multiset{a[0]};
      assert multiset(b[1..]) == multiset(b) - multiset{a[0]};
      SortedUnique(a[1..], b[1..], leq);
    }
  }

  lemma FirstIsLeast<T(!new)>(s: seq<T>, x: T, leq: (T, T) -> bool)
    requires TotalPreorder(leq) && Sorted(s, leq) && x in s
    ensures leq(s[0], x)
  {
  }

  lemma SortIsCanonical<T(!new)>(a: seq<T>, b: seq<T>, leq: (T, T) -> bool)
    requires TotalOrder(leq)
    ensures Sort(a, leq) == Sort(b, leq) <==> multiset(a) == multiset(b)
  {
    SortPermutes(a, leq);
    SortPermutes(b, leq);
    if multiset(a) == multiset(b) {
      SortSorts(a, leq);
      SortSorts(b, leq);
      SortedUnique(Sort(a, leq), Sort(b, leq), leq);
    }
  }

  /** The order in which `sort` without a comparison puts strings: by code unit. */
  predicate Leq(a: string, b: string) {
    a == "" || (b != "" && (a[0] < b[0] || (a[0] == b[0] && Leq(a[1..], b[1..]))))
  }

  lemma {:induction false} LeqTotal(a: string, b: string)
    ensures Leq(a, b) || Leq(b, a)
  {
    if a != "" && b != "" {
      LeqTotal(a[1..], b[1..]);
    }
  }

  lemma {:induction false} LeqTransitive(a: string, b: string, c: string)
    requires Leq(a, b) && Leq(b, c)
    ensures Leq(a, c)
  {
    if a != "" && a[0] == b[0] == c[0] {
      LeqTransitive(a[1..], b[1..], c[1..]);
    }
  }

  lemma {:induction false} LeqAntisymmetric(a: string, b: string)
    requires Leq(a, b) && Leq(b, a)
    ensures a == b
  {
    if a != "" {
      LeqAntisymmetric(a[1..], b[1..]);
      assert a == [a[0]] + a[1..] && b == [b[0]] + b[1..];
    }
  }

  lemma LeqIsTotalOrder()
    ensures TotalOrder(Leq)
  {
    forall a, b ensures Leq(a, b) || Leq(b, a) {
      LeqTotal(a, b);
    }
    forall a, b, c | Leq(a, b) && Leq(b, c) ensures Leq(a, c) {
      LeqTransitive(a, b, c);
    }
    forall a, b | Leq(a, b) && Leq(b, a) ensures a == b {
      LeqAntisymmetric(a, b);
    }
  }

  // ------------------------------------------------------- names of members

  predicate DigitsOnly(s: string) {
    forall i :: 0 <= i < |s| ==> '0' <= s[i] <= '9'
  }

  /** The names an object lists first, by number: canonical decimals below 2^32 - 1. */
  predicate IsIndexName(s: string) {
    && s != "" && DigitsOnly(s) && (s[0] == '0' ==> |s| == 1)
    && (|s| < 10 || (|s| == 10 && Leq(s, "4294967294")))
  }

  /** The number that digits write. */
  ghost function NumberOf(s: string): nat {
    if s == "" then 0 else 10 * NumberOf(s[..|s| - 1]) + DigitOf(s[|s| - 1])
  }

  ghost function DigitOf(c: char): nat {
    if '0' <= c <= '9' then c as int - '0' as int else 0
  }

  function Tens(n: nat): nat {
    if n == 0 then 1 else 10 * Tens(n - 1)
  }

  lemma NumberSnoc(s: string, c: char)
    ensures NumberOf(s + [c]) == 10 * NumberOf(s) + DigitOf(c)
  {
    assert (s + [c])[..|s|] == s;
  }

  lemma {:induction false} NumberFirst(s: string)
    requires s != ""
    ensures NumberOf(s) == DigitOf(s[0]) * Tens(|s| - 1) + NumberOf(s[1..])
  {
    if |s| == 1 {
      assert s[..0] == "" && s[1..] == "";
    } else {
      var front, last := s[..|s| - 1], s[|s| - 1];
      NumberFirst(front);
      assert s[1..] == front[1..] + [last];
      NumberSnoc(front[1..], last);
      TenTimes(DigitOf(s[0]), Tens(|s| - 2));
    }
  }

  lemma TenTimes(d: nat, t: nat)
    ensures d * (10 * t) == 10 * (d * t)
  {
  }

  lemma {:induction false} NumberBelow(s: string)
    ensures NumberOf(s) < Tens(|s|)
  {
    if s != "" {
      NumberBelow(s[..|s| - 1]);
    }
  }

  /** Of digits in equal number, the order of the texts is that of the numbers. */
  lemma {:induction false} LeqIsNumeric(a: string, b: string)
    requires |a| == |b| && DigitsOnly(a) && DigitsOnly(b)
    ensures Leq(a, b) <==> NumberOf(a) <= NumberOf(b)
  {
    if a != "" {
      NumberFirst(a);
      NumberFirst(b);
      NumberBelow(a[1..]);
      NumberBelow(b[1..]);
      LeqIsNumeric(a[1..], b[1..]);
      var x, y, t := DigitOf(a[0]), DigitOf(b[0]), Tens(|a| - 1);
      Scaled(x, y, t);
    }
  }

  lemma Scaled(x: nat, y: nat, t: nat)
    ensures x < y ==> x * t + t <= y * t
    ensures y < x ==> y * t + t <= x * t
  {
    if x < y {
      assert (x + 1) * t <= y * t;
    } else if y < x {
      assert (y + 1) * t <= x * t;
    }
  }

  lemma {:induction false} FewDigits(s: string)
    requires DigitsOnly(s) && |s| < 10
    ensures NumberOf(s) < 1_000_000_000
  {
    NumberBelow(s);
    TensGrow(|s|, 9);
    assert Tens(9) == 10 * Tens(8) == 100 * Tens(7) == 1000 * Tens(6) == 10_000 * Tens(5) == 100_000 * Tens(4);
    assert Tens(4) == 10 * Tens(3) == 100 * Tens(2) == 1000 * Tens(1) == 10_000;
  }

  lemma {:induction false} TensGrow(m: nat, n: nat)
    requires m <= n
    ensures 1 <= Tens(m) <= Tens(n)
  {
    if m < n {
      TensGrow(m, n - 1);
    } else if m > 0 {
      TensGrow(m - 1, n - 1);
    }
  }

  lemma {:induction false} ManyDigits(s: string)
    requires DigitsOnly(s) && |s| > 10 && s[0] != '0'
    ensures NumberOf(s) >= 10_000_000_000
  {
    NumberFirst(s);
    TensGrow(10, |s| - 1);
    assert Tens(10) == 10 * Tens(9) == 100 * Tens(8) == 1000 * Tens(7) == 10_000 * Tens(6) == 100_000 * Tens(5);
    assert Tens(5) == 10 * Tens(4) == 100 * Tens(3) == 1000 * Tens(2) == 10_000 * Tens(1) == 100_000;
    Scaled(1, DigitOf(s[0]), Tens(|s| - 1));
  }

  lemma OneDigit(s: string, c: char, t: string, value: nat)
    requires t == s + [c] && NumberOf(s) == value
    ensures NumberOf(t) == 10 * value + DigitOf(c)
  {
    NumberSnoc(s, c);
  }

  lemma HalfIndex()
    ensures NumberOf("42949") == 42_949
  {
    OneDigit("", '4', "4", 0);
    OneDigit("4", '2', "42", 4);
    OneDigit("42", '9', "429", 42);
    OneDigit("429", '4', "4294", 429);
    OneDigit("4294", '9', "42949", 4294);
  }

  lemma LargestIndex()
    ensures DigitsOnly("4294967294") && NumberOf("4294967294") == 4_294_967_294
  {
    HalfIndex();
    OneDigit("42949", '6', "429496", 42_949);
    OneDigit("429496", '7', "4294967", 429_496);
    OneDigit("4294967", '2', "42949672", 4_294_967);
    OneDigit("42949672", '9', "429496729", 42_949_672);
    OneDigit("429496729", '4', "4294967294", 429_496_729);
  }

  /** The names that count as array indices: numbers below 2^32 - 1, written without leading zeros. */
  lemma IndexNameIff(s: string)
    ensures IsIndexName(s) <==>
      s != "" && DigitsOnly(s) && (s[0] == '0' ==> |s| == 1) && NumberOf(s) < 0x1_0000_0000 - 1
  {
    if s != "" && DigitsOnly(s) && (s[0] == '0' ==> |s| == 1) {
      if |s| < 10 {
        FewDigits(s);
      } else if |s| == 10 {
        LargestIndex();
        LeqIsNumeric(s, "4294967294");
      } else {
        ManyDigits(s);
      }
    }
  }
}
