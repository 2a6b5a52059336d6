/** Facts about finite sets and sequences that several modules share. */
module Basics {

  datatype Option<+T> = None | Some(value: T)

  const UINT32_RANGE: nat := 0x1_0000_0000
  const INT32_RANGE: nat := 0x8000_0000

  function Elements<T>(s: seq<T>): set<T> {
    set x | x in s
  }

  ghost predicate Distinct<T(!new)>(s: seq<T>) {
    forall i, j :: 0 <= i < j < |s| ==> s[i] != s[j]
  }

  /** How often `x` occurs in `s`. */
  ghost function Occurrences<T>(s: seq<T>, x: T): nat {
    multiset(s)[x]
  }

  lemma OccurrencesOfAppend<T>(s: seq<T>, x: T, y: T)
    ensures Occurrences(s + [x], y) == Occurrences(s, y) + if x == y then 1 else 0
  {
  }

  lemma SubsetCardinality<T>(a: set<T>, b: set<T>)
    requires a <= b
    ensures |a| <= |b|
    ensures |a| == |b| ==> a == b
  {
    assert b == a + (b - a);
  }

  lemma ElementsOfAppend<T>(s: seq<T>, x: T)
    ensures Elements(s + [x]) == Elements(s) + {x}
  {
  }

  lemma ElementsOfParts<T>(a: seq<T>, b: seq<T>)
    ensures Elements(a + b) == Elements(a) + Elements(b)
  {
  }

  lemma {:induction false} ElementsCardinality<T>(s: seq<T>)
    ensures |Elements(s)| <= |s|
  {
    if s != [] {
      var n := |s| - 1;
      ElementsCardinality(s[..n]);
      assert s == s[..n] + [s[n]];
      ElementsOfAppend(s[..n], s[n]);
    }
  }

  /** Pigeonhole: a sequence as long as its set of elements repeats nothing. */
  lemma {:induction false} PigeonholeOnce<T>(s: seq<T>, x: T)
    requires |Elements(s)| == |s|
    ensures x in s ==> Occurrences(s, x) == 1
  {
    if s != [] {
      var n := |s| - 1;
      var front, last := s[..n], s[n];
      assert s == front + [last];
      ElementsOfAppend(front, last);
      ElementsCardinality(front);
      assert last !in Elements(front);
      PigeonholeOnce(front, x);
      assert multiset(s) == multiset(front) + multiset{last};
    }
  }

  /** Two positions that hold the same element make two occurrences. */
  lemma TwoPositions<T>(s: seq<T>, i: nat, j: nat)
    requires i < j < |s| && s[i] == s[j]
    ensures Occurrences(s, s[i]) >= 2
  {
    assert s == s[..i] + [s[i]] + s[i + 1..j] + [s[j]] + s[j + 1..];
    assert multiset(s) == multiset(s[..i]) + multiset{s[i]} + multiset(s[i + 1..j]) + multiset{s[j]} +
      multiset(s[j + 1..]);
  }

  lemma {:induction false} DistinctCardinality<T(!new)>(s: seq<T>)
    requires Distinct(s)
    ensures |Elements(s)| == |s|
  {
    if s != [] {
      var n := |s| - 1;
      assert s == s[..n] + [s[n]];
      DistinctCardinality(s[..n]);
      ElementsOfAppend(s[..n], s[n]);
    }
  }
}
