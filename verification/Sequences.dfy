/** Sequences without repeats. */
module Sequences {
  ghost predicate Distinct<T(!new)>(s: seq<T>) {
    forall i, j :: 0 <= i < j < |s| ==> s[i] != s[j]
  }

  ghost function Elems<T(!new)>(s: seq<T>): set<T> {
    set x | x in s
  }

  lemma DistinctPush<T(!new)>(q: seq<T>, s: T)
    requires Distinct(q) && s !in q
    ensures Distinct(q + [s])
  {
    forall i, j | 0 <= i < j < |q + [s]| ensures (q + [s])[i] != (q + [s])[j] {
      if j == |q| { assert q[i] in q; }
    }
  }

  lemma {:induction false} DistinctFitsIn<T(!new)>(p: seq<T>, s: set<T>)
    requires Distinct(p) && forall i :: 0 <= i < |p| ==> p[i] in s
    ensures |p| <= |s|
    decreases |p|
  {
    if p != [] {
      DistinctFitsIn(p[..|p| - 1], s - {p[|p| - 1]});
    }
  }

  lemma {:induction false} DistinctCount<T(!new)>(s: seq<T>)
    requires Distinct(s)
    ensures |Elems(s)| == |s|
  {
    if s != [] {
      var last := s[|s| - 1];
      DistinctCount(s[..|s| - 1]);
      assert Elems(s) == Elems(s[..|s| - 1]) + {last};
    }
  }

  /** A sequence without repeats inside `s` is as long as `s` exactly when it covers it. */
  lemma DistinctFills<T(!new)>(p: seq<T>, s: set<T>)
    requires Distinct(p) && forall i :: 0 <= i < |p| ==> p[i] in s
    ensures |p| <= |s|
    ensures |p| == |s| <==> forall x :: x in s ==> x in p
  {
    DistinctFitsIn(p, s);
    if |p| == |s| {
      forall x | x in s ensures x in p {
        if x !in p { DistinctFitsIn(p, s - {x}); }
      }
    } else {
      DistinctCount(p);
      assert Elems(p) != s;
      assert Elems(p) <= s;
    }
  }
}
