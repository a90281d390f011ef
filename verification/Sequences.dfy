/** The elements of a sequence, and sequences that name each of theirs once. */
module Sequences {

  ghost predicate Distinct<T>(q: seq<T>) {
    forall i, j :: 0 <= i < j < |q| ==> q[i] != q[j]
  }

  ghost function Elements<T>(q: seq<T>): set<T> {
    set x | x in q
  }

  lemma ElementsSnoc<T>(q: seq<T>)
    requires q != []
    ensures Elements(q) == Elements(q[..|q| - 1]) + {q[|q| - 1]}
  {}

  lemma {:induction false} DistinctElements<T>(q: seq<T>)
    requires Distinct(q)
    ensures |Elements(q)| == |q|
  {
    if q != [] {
      var n := |q| - 1;
      DistinctElements(q[..n]);
      ElementsSnoc(q);
      assert q[n] !in Elements(q[..n]);
    }
  }

  /** A sequence that names elements of a set once is no longer than the set is large. */
  lemma DistinctWithin<T>(q: seq<T>, s: set<T>)
    requires Distinct(q) && forall x | x in q :: x in s
    ensures |q| <= |s|
    ensures (forall x | x in s :: x in q) ==> |q| == |s|
  {
    DistinctElements(q);
    SubsetSize(Elements(q), s);
    if forall x | x in s :: x in q {
      assert Elements(q) == s;
    }
  }

  lemma SubsetSize<T>(a: set<T>, b: set<T>)
    requires a <= b
    ensures |a| <= |b| && |b - a| == |b| - |a|
  {
    assert b == a + (b - a);
  }
}
