/** Lists of named values read as a `Map`: the last value of a name counts, names keep their first place. */
module Lookups {
  import opened Wrappers

  datatype Named<N, V> = Named(name: N, value: V)

  /** The names in order of first appearance, once each. */
  function Names<N(==), V>(s: seq<Named<N, V>>): seq<N> {
    if s == [] then [] else
      var before, last := Names(s[..|s| - 1]), s[|s| - 1];
      if last.name in before then before else before + [last.name]
  }

  function ValueOf<N(==), V>(s: seq<Named<N, V>>, name: N): Option<V> {
    if s == [] then None
    else if s[|s| - 1].name == name then Some(s[|s| - 1].value)
    else ValueOf(s[..|s| - 1], name)
  }

  lemma {:induction false} NamesAreLookups<N, V>(s: seq<Named<N, V>>, name: N)
    ensures name in Names(s) <==> ValueOf(s, name).Some?
  {
    if s != [] {
      NamesAreLookups(s[..|s| - 1], name);
    }
  }

  lemma {:induction false} NamesOnce<N, V>(s: seq<Named<N, V>>, i: nat, j: nat)
    requires i < j < |Names(s)|
    ensures Names(s)[i] != Names(s)[j]
  {
    var before := Names(s[..|s| - 1]);
    if j < |before| {
      NamesOnce(s[..|s| - 1], i, j);
    }
  }

  ghost predicate DistinctNames<N, V>(s: seq<Named<N, V>>) {
    forall i, j :: 0 <= i < j < |s| ==> s[i].name != s[j].name
  }

  lemma {:induction false} ValueOfIff<N, V>(s: seq<Named<N, V>>, name: N, v: V)
    requires DistinctNames(s)
    ensures ValueOf(s, name) == Some(v) <==> Named(name, v) in s
  {
    if s != [] {
      var front, last := s[..|s| - 1], s[|s| - 1];
      assert s == front + [last];
      ValueOfIff(front, name, v);
      forall k | 0 <= k < |front| ensures front[k].name != last.name {
        assert s[k] == front[k];
      }
    }
  }
}
