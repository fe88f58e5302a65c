/** Sequence helpers: duplicates, first occurrences, subsequences and the
    first-occurrence deduplication that `[...new Set(xs)]` performs. */
module Sequences {

  predicate NoDuplicates<T(==)>(s: seq<T>) {
    forall i, j :: 0 <= i < j < |s| ==> s[i] != s[j]
  }

  /** The index of the first occurrence of `x` in `s`. */
  function FirstIndex<T(==)>(s: seq<T>, x: T): (k: nat)
    requires x in s
    ensures k < |s| && s[k] == x
    ensures forall j :: 0 <= j < k ==> s[j] != x
  {
    if s[0] == x then 0 else 1 + FirstIndex(s[1..], x)
  }

  /** The first occurrence of `x` in a prefix is its first occurrence in
      the whole sequence. */
  lemma {:induction false} FirstIndexInPrefix<T>(s: seq<T>, n: nat, x: T)
    requires n <= |s| && x in s[..n]
    ensures x in s && FirstIndex(s[..n], x) == FirstIndex(s, x)
  {
    var k := FirstIndex(s[..n], x);
    assert s[..n][k] == s[k] == x;
    var k' := FirstIndex(s, x);
    assert k' <= k;
    assert s[..n][k'] == s[k'];
  }

  /** `[...new Set(s)]`: the distinct elements of `s`, each at the place of
      its first occurrence (see DistinctKeepsFirstOccurrenceOrder). */
  function Distinct<T(==)>(s: seq<T>): (r: seq<T>)
    ensures NoDuplicates(r)
    ensures forall i :: 0 <= i < |r| ==> r[i] in s
    ensures forall i :: 0 <= i < |s| ==> s[i] in r
  {
    if s == [] then []
    else
      var d := Distinct(s[..|s| - 1]);
      assert forall i :: 0 <= i < |s| - 1 ==> s[..|s| - 1][i] == s[i];
      if s[|s| - 1] in d then d else d + [s[|s| - 1]]
  }

  /** `Distinct(s)` holds exactly the elements of `s`. */
  lemma DistinctSameElements<T>(s: seq<T>)
    ensures (set x | x in Distinct(s)) == set x | x in s
  {
    var d := Distinct(s);
    forall x | x in d ensures x in s {
      var i :| 0 <= i < |d| && d[i] == x;
    }
    forall x | x in s ensures x in d {
      var i :| 0 <= i < |s| && s[i] == x;
    }
  }

  /** The distinct elements come in the order of their first occurrences. */
  lemma {:induction false} DistinctKeepsFirstOccurrenceOrder<T>(s: seq<T>)
    ensures forall i, j :: 0 <= i < j < |Distinct(s)| ==> FirstIndex(s, Distinct(s)[i]) < FirstIndex(s, Distinct(s)[j])
  {
    if s != [] {
      var init := s[..|s| - 1];
      var d := Distinct(init);
      DistinctKeepsFirstOccurrenceOrder(init);
      forall x | x in d ensures FirstIndex(init, x) == FirstIndex(s, x) {
        FirstIndexInPrefix(s, |s| - 1, x);
      }
      if s[|s| - 1] !in d {
        assert FirstIndex(s, s[|s| - 1]) == |s| - 1;
      }
    }
  }

  /** `a` is `b` with some elements left out and the rest kept in order. */
  ghost predicate IsSubsequence<T>(a: seq<T>, b: seq<T>)
    decreases |b|
  {
    || a == []
    || (&& b != []
        && (|| IsSubsequence(a, b[..|b| - 1])
            || (a[|a| - 1] == b[|b| - 1] && IsSubsequence(a[..|a| - 1], b[..|b| - 1]))))
  }
}
