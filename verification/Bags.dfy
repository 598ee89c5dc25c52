/** The multiset a function takes on a sequence, and filtering. */
module Bags {
  ghost function Bag<A, B>(f: A -> B, s: seq<A>): multiset<B> {
    if s == [] then multiset{} else Bag(f, s[..|s| - 1]) + multiset{f(s[|s| - 1])}
  }

  function Filter<A>(p: A -> bool, s: seq<A>): seq<A> {
    if s == [] then []
    else Filter(p, s[..|s| - 1]) + if p(s[|s| - 1]) then [s[|s| - 1]] else []
  }

  function Map<A, B>(f: A -> B, s: seq<A>): (r: seq<B>)
    ensures |r| == |s| && forall i :: 0 <= i < |s| ==> r[i] == f(s[i])
  {
    seq(|s|, i requires 0 <= i < |s| => f(s[i]))
  }

  lemma BagEmpty<A, B>(f: A -> B)
    ensures Bag(f, []) == multiset{}
  {}

  lemma BagPush<A, B>(f: A -> B, s: seq<A>, x: A)
    ensures Bag(f, s + [x]) == Bag(f, s) + multiset{f(x)}
  {
    assert (s + [x])[..|s|] == s;
  }

  lemma FilterPush<A>(p: A -> bool, s: seq<A>, x: A)
    ensures Filter(p, s + [x]) == Filter(p, s) + if p(x) then [x] else []
  {
    assert (s + [x])[..|s|] == s;
  }

  lemma {:induction false} BagConcat<A, B>(f: A -> B, a: seq<A>, b: seq<A>)
    ensures Bag(f, a + b) == Bag(f, a) + Bag(f, b)
    decreases |b|
  {
    if b == [] {
      assert a + b == a;
    } else {
      assert (a + b)[..|a + b| - 1] == a + b[..|b| - 1];
      BagConcat(f, a, b[..|b| - 1]);
    }
  }

  lemma Regroup<B>(m: multiset<B>, n: multiset<B>, x: multiset<B>)
    ensures m + n + x == m + x + n == m + (n + x)
  {}

  lemma BagRemove<A, B>(f: A -> B, s: seq<A>, k: nat)
    requires k < |s|
    ensures Bag(f, s) == Bag(f, s[..k] + s[k + 1..]) + multiset{f(s[k])}
  {
    hide Bag;
    assert s == s[..k] + [s[k]] + s[k + 1..];
    BagConcat(f, s[..k] + [s[k]], s[k + 1..]);
    BagPush(f, s[..k], s[k]);
    BagConcat(f, s[..k], s[k + 1..]);
    Regroup(Bag(f, s[..k]), Bag(f, s[k + 1..]), multiset{f(s[k])});
  }

  /** Moving an element over to a second sequence keeps what the two hold together. */
  lemma BagMove<A, C, B>(f: A -> B, s: seq<A>, k: nat, g: C -> B, t: seq<C>, y: C)
    requires k < |s| && g(y) == f(s[k])
    ensures Bag(f, s[..k] + s[k + 1..]) + Bag(g, t + [y]) == Bag(f, s) + Bag(g, t)
  {
    BagRemove(f, s, k);
    BagPush(g, t, y);
    Regroup(Bag(f, s[..k] + s[k + 1..]), Bag(g, t), multiset{g(y)});
  }

  lemma Cancel<A>(m: multiset<A>, n: multiset<A>, x: A)
    requires m + multiset{x} == n + multiset{x}
    ensures m == n
  {
    assert m == (m + multiset{x}) - multiset{x};
    assert n == (n + multiset{x}) - multiset{x};
  }

  lemma MultisetRemove<A>(s: seq<A>, k: nat)
    requires k < |s|
    ensures multiset(s) == multiset(s[..k] + s[k + 1..]) + multiset{s[k]}
  {
    assert s == s[..k] + [s[k]] + s[k + 1..];
  }

  /** Only the elements matter, not their order. */
  lemma {:induction false} BagUnordered<A, B>(f: A -> B, a: seq<A>, b: seq<A>)
    requires multiset(a) == multiset(b)
    ensures Bag(f, a) == Bag(f, b)
    decreases |a|
  {
    if a == [] {
      assert |multiset(b)| == |b|;
    } else {
      var n := |a| - 1;
      MultisetRemove(a, n);
      assert a[..n] + a[n + 1..] == a[..n];
      assert a[n] in multiset(b);
      var k :| 0 <= k < |b| && b[k] == a[n];
      MultisetRemove(b, k);
      Cancel(multiset(a[..n]), multiset(b[..k] + b[k + 1..]), a[n]);
      BagUnordered(f, a[..n], b[..k] + b[k + 1..]);
      BagRemove(f, b, k);
    }
  }

  lemma {:induction false} BagAgree<A, B>(f: A -> B, g: A -> B, s: seq<A>)
    requires forall i :: 0 <= i < |s| ==> f(s[i]) == g(s[i])
    ensures Bag(f, s) == Bag(g, s)
    decreases |s|
  {
    if s != [] {
      BagAgree(f, g, s[..|s| - 1]);
    }
  }

  lemma {:induction false} BagPointwise<A, B, C>(f: A -> C, s: seq<A>, g: B -> C, t: seq<B>)
    requires |s| == |t| && forall i :: 0 <= i < |s| ==> f(s[i]) == g(t[i])
    ensures Bag(f, s) == Bag(g, t)
    decreases |s|
  {
    if s != [] {
      BagPointwise(f, s[..|s| - 1], g, t[..|t| - 1]);
    }
  }

  lemma {:induction false} BagMembers<A, B>(f: A -> B, s: seq<A>, y: B)
    ensures y in Bag(f, s) <==> exists i :: 0 <= i < |s| && f(s[i]) == y
    decreases |s|
  {
    if s != [] {
      BagMembers(f, s[..|s| - 1], y);
    }
  }

  lemma {:induction false} BagOfMap<A, B, C>(f: B -> C, g: A -> B, h: A -> C, s: seq<A>)
    requires forall i :: 0 <= i < |s| ==> h(s[i]) == f(g(s[i]))
    ensures Bag(f, Map(g, s)) == Bag(h, s)
    decreases |s|
  {
    if s != [] {
      var init := s[..|s| - 1];
      BagOfMap(f, g, h, init);
      assert Map(g, s)[..|init|] == Map(g, init);
    }
  }

  lemma {:induction false} MultisetOfMap<A, B>(g: A -> B, s: seq<A>)
    ensures multiset(Map(g, s)) == Bag(g, s)
    decreases |s|
  {
    if s != [] {
      var init, last := s[..|s| - 1], s[|s| - 1];
      MultisetOfMap(g, init);
      assert Map(g, s) == Map(g, init) + [g(last)];
    }
  }

  lemma {:induction false} FilterMembers<A>(p: A -> bool, s: seq<A>, x: A)
    ensures x in Filter(p, s) <==> x in s && p(x)
    decreases |s|
  {
    if s != [] {
      FilterMembers(p, s[..|s| - 1], x);
      assert s == s[..|s| - 1] + [s[|s| - 1]];
    }
  }

  lemma {:induction false} FilterAll<A>(p: A -> bool, s: seq<A>)
    requires forall i :: 0 <= i < |s| ==> p(s[i])
    ensures Filter(p, s) == s
    decreases |s|
  {
    if s != [] {
      FilterAll(p, s[..|s| - 1]);
    }
  }

  /** How many elements `p` takes. */
  ghost function Count<A>(p: A -> bool, s: seq<A>): nat {
    if s == [] then 0 else Count(p, s[..|s| - 1]) + if p(s[|s| - 1]) then 1 else 0
  }

  /** Filtering keeps the order: an element's place is the number of elements taken before it. */
  lemma {:induction false} FilterAt<A>(p: A -> bool, s: seq<A>, j: nat)
    requires j < |s| && p(s[j])
    ensures |Filter(p, s)| == Count(p, s)
    ensures Count(p, s[..j]) < |Filter(p, s)| && Filter(p, s)[Count(p, s[..j])] == s[j]
    decreases |s|
  {
    FilterCount(p, s);
    FilterCount(p, s[..|s| - 1]);
    if j < |s| - 1 {
      assert s[..|s| - 1][..j] == s[..j];
      FilterAt(p, s[..|s| - 1], j);
    }
  }

  lemma {:induction false} FilterCount<A>(p: A -> bool, s: seq<A>)
    ensures |Filter(p, s)| == Count(p, s)
    decreases |s|
  {
    if s != [] { FilterCount(p, s[..|s| - 1]); }
  }

  /** Every place of the filtered sequence comes from one element. */
  lemma {:induction false} FilterFrom<A>(p: A -> bool, s: seq<A>, k: nat) returns (j: nat)
    requires k < |Filter(p, s)|
    ensures j < |s| && p(s[j]) && Count(p, s[..j]) == k && Filter(p, s)[k] == s[j]
    decreases |s|
  {
    var init := s[..|s| - 1];
    if k < |Filter(p, init)| {
      j := FilterFrom(p, init, k);
      assert init[..j] == s[..j];
    } else {
      j := |s| - 1;
      FilterCount(p, init);
    }
  }

  lemma {:induction false} FilterAgree<A>(p: A -> bool, q: A -> bool, s: seq<A>)
    requires forall i :: 0 <= i < |s| ==> p(s[i]) == q(s[i])
    ensures Filter(p, s) == Filter(q, s) && Count(p, s) == Count(q, s)
    decreases |s|
  {
    if s != [] { FilterAgree(p, q, s[..|s| - 1]); }
  }

  /** A filter and its complement share the elements out. */
  lemma {:induction false} BagSplit<A, B>(f: A -> B, p: A -> bool, q: A -> bool, s: seq<A>)
    requires forall i :: 0 <= i < |s| ==> q(s[i]) == !p(s[i])
    ensures Bag(f, s) == Bag(f, Filter(p, s)) + Bag(f, Filter(q, s))
    decreases |s|
  {
    if s != [] {
      var init, x := s[..|s| - 1], s[|s| - 1];
      BagSplit(f, p, q, init);
      Regroup(Bag(f, Filter(p, init)), Bag(f, Filter(q, init)), multiset{f(x)});
      BagFilterLast(f, p, s);
      BagFilterLast(f, q, s);
    }
  }

  lemma Regroup3<B>(a: multiset<B>, b: multiset<B>, c: multiset<B>, x: multiset<B>)
    ensures a + b + c + x == (a + x) + b + c == a + (b + x) + c == a + b + (c + x)
  {}

  /** Three filters of which exactly one takes each element share the elements out. */
  lemma {:induction false} BagSplit3<A, B>(f: A -> B, p: A -> bool, q: A -> bool, r: A -> bool, s: seq<A>)
    requires forall i :: 0 <= i < |s| ==> Exactly1(p(s[i]), q(s[i]), r(s[i]))
    ensures Bag(f, s) == Bag(f, Filter(p, s)) + Bag(f, Filter(q, s)) + Bag(f, Filter(r, s))
    decreases |s|
  {
    if s != [] {
      var init, x := s[..|s| - 1], s[|s| - 1];
      BagSplit3(f, p, q, r, init);
      Regroup3(Bag(f, Filter(p, init)), Bag(f, Filter(q, init)), Bag(f, Filter(r, init)), multiset{f(x)});
      BagFilterLast(f, p, s);
      BagFilterLast(f, q, s);
      BagFilterLast(f, r, s);
    }
  }

  ghost predicate Exactly1(p: bool, q: bool, r: bool) {
    (p && !q && !r) || (!p && q && !r) || (!p && !q && r)
  }

  lemma BagFilterLast<A, B>(f: A -> B, p: A -> bool, s: seq<A>)
    requires s != []
    ensures var init, x := s[..|s| - 1], s[|s| - 1];
      Bag(f, Filter(p, s)) == if p(x) then Bag(f, Filter(p, init)) + multiset{f(x)} else Bag(f, Filter(p, init))
  {
    var init, x := s[..|s| - 1], s[|s| - 1];
    BagPush(f, Filter(p, init), x);
    assert Filter(p, init) + [] == Filter(p, init);
  }
}
