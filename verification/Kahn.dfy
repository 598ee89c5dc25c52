/** Kahn's topological sort on a graph given as each node's list of
    dependencies, repeats included. */
module Kahn {
  import opened Results
  import opened Sequences

  type Graph<T> = map<T, seq<T>>

  ghost predicate Closed<T(!new)>(g: Graph<T>) {
    forall s, d :: s in g && d in g[s] ==> d in g
  }

  /** `p[0]` depends on `p[1]`, which depends on `p[2]`, and so on. */
  ghost predicate IsPath<T(!new)>(g: Graph<T>, p: seq<T>) {
    && (forall i :: 0 <= i < |p| ==> p[i] in g)
    && (forall i, j :: 0 <= i < |p| && j == i + 1 < |p| ==> p[j] in g[p[i]])
  }

  ghost predicate IsCycle<T(!new)>(g: Graph<T>, p: seq<T>) {
    |p| >= 2 && p[0] == p[|p| - 1] && IsPath(g, p)
  }

  ghost predicate Cyclic<T(!new)>(g: Graph<T>) {
    exists p :: IsCycle(g, p)
  }

  /** Every node of `result` comes after everything it depends on. */
  ghost predicate InOrder<T(!new)>(g: Graph<T>, result: seq<T>) {
    forall i :: 0 <= i < |result| && result[i] in g ==> forall d :: d in g[result[i]] ==> d in result[..i]
  }

  /** Every node exactly once, each after everything it depends on. */
  ghost predicate TopologicalOrder<T(!new)>(g: Graph<T>, order: seq<T>) {
    Distinct(order) && (forall s :: s in order <==> s in g) && InOrder(g, order)
  }

  // ---- A topological order excludes cycles -----------------------------------

  lemma {:induction false} PathStaysEarlier<T(!new)>(g: Graph<T>, order: seq<T>, p: seq<T>, i: nat)
    requires TopologicalOrder(g, order) && IsPath(g, p) && |p| >= 2
    requires i < |order| && order[i] == p[0]
    ensures p[|p| - 1] in order[..i]
    decreases |p|
  {
    assert p[1] in g[p[0]];
    assert p[1] in order[..i];
    if |p| > 2 {
      var j :| 0 <= j < i && order[j] == p[1];
      PathStaysEarlier(g, order, p[1..], j);
    }
  }

  lemma OrderExcludesCycles<T(!new)>(g: Graph<T>, order: seq<T>)
    requires TopologicalOrder(g, order)
    ensures Closed(g) && !Cyclic(g)
  {
    forall s, d | s in g && d in g[s] ensures d in g {
      var i :| 0 <= i < |order| && order[i] == s;
      assert d in order[..i];
    }
    forall p ensures !IsCycle(g, p) {
      if IsCycle(g, p) {
        var i :| 0 <= i < |order| && order[i] == p[0];
        PathStaysEarlier(g, order, p, i);
        assert false;
      }
    }
  }

  // ---- Nodes that all wait on each other contain a cycle -------------------------

  ghost predicate WaitsInside<T(!new)>(g: Graph<T>, stuck: set<T>, s: T) {
    s in g && exists d :: d in g[s] && d in stuck
  }

  /** Every node of `stuck` depends on another node of `stuck`. */
  ghost predicate Stuck<T(!new)>(g: Graph<T>, stuck: set<T>) {
    stuck <= g.Keys && forall s {:trigger WaitsInside(g, stuck, s)} :: s in stuck ==> WaitsInside(g, stuck, s)
  }

  lemma Blocker<T(!new)>(g: Graph<T>, stuck: set<T>, s: T) returns (d: T)
    requires Stuck(g, stuck) && s in stuck
    ensures d in stuck && s in g && d in g && d in g[s]
  {
    assert WaitsInside(g, stuck, s);
    d :| d in g[s] && d in stuck;
  }

  lemma PathPush<T(!new)>(g: Graph<T>, p: seq<T>, d: T)
    requires IsPath(g, p) && p != [] && d in g && d in g[p[|p| - 1]]
    ensures IsPath(g, p + [d])
  {}

  lemma {:induction false} WalkInside<T(!new)>(g: Graph<T>, stuck: set<T>, s: T, n: nat) returns (p: seq<T>)
    requires Stuck(g, stuck) && s in stuck
    ensures |p| == n + 1 && IsPath(g, p)
    ensures forall i :: 0 <= i < |p| ==> p[i] in stuck
    decreases n
  {
    p := [s];
    if n > 0 {
      p := WalkInside(g, stuck, s, n - 1);
      var d := Blocker(g, stuck, p[n - 1]);
      PathPush(g, p, d);
      p := p + [d];
    }
  }

  lemma StuckContainsCycle<T(!new)>(g: Graph<T>, stuck: set<T>)
    requires Stuck(g, stuck) && stuck != {}
    ensures Cyclic(g)
  {
    var s :| s in stuck;
    var p := WalkInside(g, stuck, s, |stuck|);
    if Distinct(p) {
      DistinctFitsIn(p, stuck);
    }
    RepeatIsCycle(g, p);
  }

  lemma RepeatIsCycle<T(!new)>(g: Graph<T>, p: seq<T>)
    requires IsPath(g, p) && !Distinct(p)
    ensures Cyclic(g)
  {
    var i, j :| 0 <= i < j < |p| && p[i] == p[j];
    PathSlice(g, p, i, j + 1);
    assert IsCycle(g, p[i..j + 1]);
  }

  lemma PathSlice<T(!new)>(g: Graph<T>, p: seq<T>, i: nat, j: nat)
    requires IsPath(g, p) && i <= j <= |p|
    ensures IsPath(g, p[i..j])
  {}

  // ---- Counting edges, repeats included -------------------------------------------

  /** How many entries of `names` are outside `done`. */
  ghost function Remaining<T(!new)>(names: seq<T>, done: set<T>): nat {
    if names == [] then 0
    else (if names[0] in done then 0 else 1) + Remaining(names[1..], done)
  }

  lemma {:induction false} RemainingAfter<T(!new)>(names: seq<T>, done: set<T>, d: T)
    requires d !in done
    ensures Remaining(names, done) == Remaining(names, done + {d}) + multiset(names)[d]
  {
    if names != [] {
      RemainingAfter(names[1..], done, d);
      assert names == [names[0]] + names[1..];
    }
  }

  lemma {:induction false} NothingRemains<T(!new)>(names: seq<T>, done: set<T>)
    ensures Remaining(names, done) == 0 <==> forall n :: n in names ==> n in done
  {
    if names != [] {
      NothingRemains(names[1..], done);
      assert forall n :: n in names <==> n == names[0] || n in names[1..];
    }
  }

  lemma {:induction false} AllRemain<T(!new)>(names: seq<T>)
    ensures Remaining(names, {}) == |names|
  {
    if names != [] { AllRemain(names[1..]); }
  }

  // ---- The queue -------------------------------------------------------------------

  /** `adjacent[d]` lists `s` once for each time `s` names `d`. */
  ghost predicate Adjacency<T(!new)>(g: Graph<T>, adjacent: map<T, seq<T>>) {
    && adjacent.Keys == g.Keys
    && (forall d {:trigger Reverses(g, d, adjacent[d])} :: d in g ==> Reverses(g, d, adjacent[d]))
  }

  ghost predicate Reverses<T(!new)>(g: Graph<T>, d: T, dependents: seq<T>) {
    && (forall s :: s in dependents ==> s in g)
    && (forall s :: s in g ==> multiset(dependents)[s] == multiset(g[s])[d])
  }

  /** Each counter is the number of names, repeats included. */
  ghost predicate Degrees<T(!new)>(g: Graph<T>, inDegree: map<T, nat>) {
    inDegree.Keys == g.Keys && forall s :: s in g ==> inDegree[s] == |g[s]|
  }

  lemma ReversesPush<T(!new)>(g: Graph<T>, step: T, dep: T, d: T, dependents: seq<T>)
    requires step in g && Reverses(g, d, dependents)
    ensures Reverses(g[step := g[step] + [dep]], d, if d == dep then dependents + [step] else dependents)
  {}

  /** Adds the edge `dep` -> `step`. */
  lemma AdjacencyPush<T(!new)>(g: Graph<T>, adjacent: map<T, seq<T>>, step: T, dep: T, g': Graph<T>)
    requires Adjacency(g, adjacent) && step in g && dep in g
    requires g' == g[step := g[step] + [dep]]
    ensures Adjacency(g', adjacent[dep := adjacent[dep] + [step]])
  {
    var adjacent' := adjacent[dep := adjacent[dep] + [step]];
    forall d | d in g' ensures Reverses(g', d, adjacent'[d]) {
      assert Reverses(g, d, adjacent[d]);
      ReversesPush(g, step, dep, d, adjacent[d]);
    }
  }

  method AddEdge<T(==,!new)>(ghost g: Graph<T>, step: T, dep: T, degrees: map<T, nat>, edges: map<T, seq<T>>)
    returns (ghost g': Graph<T>, inDegree: map<T, nat>, adjacent: map<T, seq<T>>)
    requires step in g && dep in g && Degrees(g, degrees) && Adjacency(g, edges)
    ensures g' == g[step := g[step] + [dep]]
    ensures Degrees(g', inDegree) && Adjacency(g', adjacent)
  {
    g' := g[step := g[step] + [dep]];
    AdjacencyPush(g, edges, step, dep, g');
    adjacent := edges[dep := edges[dep] + [step]];
    inDegree := degrees[step := degrees[step] + 1];
  }

  /** Adds the edges into `step`, one per name; stops at a name that is not a node. */
  method AddEdges<T(==,!new)>(ghost g: Graph<T>, nodes: set<T>, step: T, names: seq<T>,
                              degrees: map<T, nat>, edges: map<T, seq<T>>)
    returns (unknown: Option<T>, ghost built: Graph<T>, inDegree: map<T, nat>, adjacent: map<T, seq<T>>)
    requires nodes == g.Keys && step in g && g[step] == []
    requires Degrees(g, degrees) && Adjacency(g, edges)
    ensures unknown.Some? ==> unknown.value in names && unknown.value !in nodes
    ensures unknown.None? ==> Elems(names) <= nodes && built == g[step := names]
    ensures Degrees(built, inDegree) && Adjacency(built, adjacent)
  {
    unknown, built, inDegree, adjacent := None, g, degrees, edges;
    var i := 0;
    while i < |names|
      invariant 0 <= i <= |names|
      invariant forall k :: 0 <= k < i ==> names[k] in nodes
      invariant built.Keys == nodes && built[step] == names[..i]
      invariant forall s :: s in nodes && s != step ==> built[s] == g[s]
      invariant Degrees(built, inDegree) && Adjacency(built, adjacent)
    {
      if names[i] !in nodes {
        unknown := Some(names[i]);
        return;
      }
      assert names[..i + 1] == names[..i] + [names[i]];
      built, inDegree, adjacent := AddEdge(built, step, names[i], inDegree, adjacent);
      i := i + 1;
    }
    assert names[..i] == names;
  }

  /** Each counter is the number of names outside `done`, less those in `released`. */
  ghost predicate Counts<T(!new)>(g: Graph<T>, inDegree: map<T, nat>, done: set<T>, released: multiset<T>) {
    && inDegree.Keys == g.Keys
    && (forall s :: s in g ==> inDegree[s] + released[s] == Remaining(g[s], done))
  }

  /** `nodes` are exactly the nodes whose counter is zero, once each. */
  ghost predicate ZeroCounted<T(!new)>(g: Graph<T>, inDegree: map<T, nat>, nodes: seq<T>)
    requires inDegree.Keys == g.Keys
  {
    && Distinct(nodes)
    && (forall s :: s in nodes <==> s in g && inDegree[s] == 0)
  }

  /** Between two pops: `result` is sorted, and with the queue it holds exactly the nodes
      that wait on nothing outside `result`. */
  ghost predicate Invariant<T(!new)>(g: Graph<T>, inDegree: map<T, nat>, queue: seq<T>, result: seq<T>) {
    && Counts(g, inDegree, Elems(result), multiset{})
    && ZeroCounted(g, inDegree, result + queue)
    && InOrder(g, result)
  }

  method InitialQueue<T(==,!new)>(ghost g: Graph<T>, inDegree: map<T, nat>) returns (queue: seq<T>)
    requires inDegree.Keys == g.Keys
    ensures ZeroCounted(g, inDegree, queue)
  {
    queue := [];
    var todo := inDegree.Keys;
    while todo != {}
      invariant todo <= g.Keys
      invariant Distinct(queue)
      invariant forall s :: s in queue <==> s in g && s !in todo && inDegree[s] == 0
      decreases todo
    {
      var s :| s in todo;
      if inDegree[s] == 0 {
        DistinctPush(queue, s);
        queue := queue + [s];
      }
      todo := todo - {s};
    }
  }

  /** Decrement the counter of every dependent of `step`; queue those that reach zero. */
  method Release<T(==,!new)>(ghost g: Graph<T>, dependents: seq<T>, ghost step: T, inDegree: map<T, nat>, queue: seq<T>,
                             ghost result: seq<T>, ghost done: set<T>)
    returns (inDegree': map<T, nat>, queue': seq<T>)
    requires Counts(g, inDegree, done, multiset{}) && step !in done
    requires ZeroCounted(g, inDegree, result + queue)
    requires Reverses(g, step, dependents)
    ensures Counts(g, inDegree', done, multiset(dependents))
    ensures ZeroCounted(g, inDegree', result + queue')
  {
    inDegree', queue' := inDegree, queue;
    for k := 0 to |dependents|
      invariant Counts(g, inDegree', done, multiset(dependents[..k]))
      invariant ZeroCounted(g, inDegree', result + queue')
    {
      var s := dependents[k];
      assert dependents[..k + 1] == dependents[..k] + [s];
      CounterIsPositive(dependents, k);
      RemainingAfter(g[s], done, step);
      assert inDegree'[s] > 0;
      assert s !in result + queue';
      inDegree' := inDegree'[s := inDegree'[s] - 1];
      if inDegree'[s] == 0 {
        DistinctPush(result + queue', s);
        assert result + (queue' + [s]) == (result + queue') + [s];
        queue' := queue' + [s];
      }
    }
    assert dependents[..|dependents|] == dependents;
  }

  lemma CounterIsPositive<T(!new)>(dependents: seq<T>, k: nat)
    requires k < |dependents|
    ensures multiset(dependents[..k])[dependents[k]] < multiset(dependents)[dependents[k]]
  {
    assert dependents == dependents[..k] + [dependents[k]] + dependents[k + 1..];
  }

  /** After the release of `step`, the counters count what is outside `done + {step}`. */
  lemma ReleasedCounts<T(!new)>(g: Graph<T>, inDegree: map<T, nat>, done: set<T>, step: T, dependents: seq<T>)
    requires Counts(g, inDegree, done, multiset(dependents)) && step !in done
    requires Reverses(g, step, dependents)
    ensures Counts(g, inDegree, done + {step}, multiset{})
  {
    forall s | s in g ensures inDegree[s] == Remaining(g[s], done + {step}) {
      RemainingAfter(g[s], done, step);
    }
  }

  lemma HeadIsNext<T(!new)>(g: Graph<T>, inDegree: map<T, nat>, queue: seq<T>, result: seq<T>)
    requires Invariant(g, inDegree, queue, result) && queue != []
    ensures queue[0] in g && queue[0] !in Elems(result)
    ensures Elems(result + [queue[0]]) == Elems(result) + {queue[0]}
    ensures ZeroCounted(g, inDegree, result + [queue[0]] + queue[1..])
    ensures InOrder(g, result + [queue[0]])
  {
    var step, all := queue[0], result + queue;
    assert all == result + [step] + queue[1..];
    assert all[|result|] == step && step in all;
    forall i | 0 <= i < |result| ensures result[i] != step { assert all[i] == result[i]; }
    NothingRemains(g[step], Elems(result));
    var result' := result + [step];
    forall i | 0 <= i < |result'| && result'[i] in g ensures forall d :: d in g[result'[i]] ==> d in result'[..i] {
      if i < |result| {
        assert result'[i] == result[i] && result'[..i] == result[..i];
      } else {
        assert result'[..i] == result;
      }
    }
  }

  lemma ResultFits<T(!new)>(g: Graph<T>, inDegree: map<T, nat>, queue: seq<T>, result: seq<T>)
    requires Invariant(g, inDegree, queue, result)
    ensures Distinct(result) && |result| <= |g.Keys|
  {
    var all := result + queue;
    forall i, j | 0 <= i < j < |result| ensures result[i] != result[j] {
      assert all[i] == result[i] && all[j] == result[j];
    }
    forall i | 0 <= i < |result| ensures result[i] in g { assert all[i] == result[i] && all[i] in all; }
    DistinctFitsIn(result, g.Keys);
  }

  /** With the queue drained, the unsorted nodes wait on each other. */
  lemma LeftoverIsStuck<T(!new)>(g: Graph<T>, inDegree: map<T, nat>, result: seq<T>)
    requires Closed(g) && Counts(g, inDegree, Elems(result), multiset{}) && ZeroCounted(g, inDegree, result)
    ensures Stuck(g, g.Keys - Elems(result))
  {
    var stuck := g.Keys - Elems(result);
    forall s | s in stuck ensures WaitsInside(g, stuck, s) {
      assert s !in result;
      NothingRemains(g[s], Elems(result));
      var d :| d in g[s] && d !in Elems(result);
      assert d in stuck;
    }
  }

  lemma DrainedQueue<T(!new)>(g: Graph<T>, inDegree: map<T, nat>, result: seq<T>)
    requires Closed(g) && Invariant(g, inDegree, [], result)
    ensures |result| == |g| ==> TopologicalOrder(g, result)
    ensures |result| != |g| ==> Cyclic(g)
  {
    assert result + [] == result;
    DistinctCount(result);
    var stuck := g.Keys - Elems(result);
    assert g.Keys == stuck + Elems(result);
    assert |g| == |g.Keys| == |stuck| + |result|;
    if stuck != {} {
      LeftoverIsStuck(g, inDegree, result);
      StuckContainsCycle(g, stuck);
    }
  }

  /** One turn of the queue loop. */
  method Pop<T(==,!new)>(ghost g: Graph<T>, adjacent: map<T, seq<T>>, inDegree: map<T, nat>, queue: seq<T>,
                         result: seq<T>)
    returns (inDegree': map<T, nat>, queue': seq<T>, result': seq<T>)
    requires Adjacency(g, adjacent) && Invariant(g, inDegree, queue, result) && queue != []
    ensures Invariant(g, inDegree', queue', result') && |result'| == |result| + 1 <= |g.Keys|
  {
    var step := queue[0];
    HeadIsNext(g, inDegree, queue, result);
    ghost var done := Elems(result);
    result' := result + [step];
    assert Reverses(g, step, adjacent[step]);
    inDegree', queue' := Release(g, adjacent[step], step, inDegree, queue[1..], result', done);
    ReleasedCounts(g, inDegree', done, step, adjacent[step]);
    ResultFits(g, inDegree', queue', result');
  }

  /** The queue loop: a topological order, or `None` with a real cycle in the graph. */
  method Sort<T(==,!new)>(ghost g: Graph<T>, degrees: map<T, nat>, adjacent: map<T, seq<T>>) returns (r: Option<seq<T>>)
    requires Closed(g) && Adjacency(g, adjacent)
    requires Degrees(g, degrees)
    ensures r.Some? ==> TopologicalOrder(g, r.value)
    ensures r.None? ==> Cyclic(g)
  {
    var inDegree := degrees;
    var queue := InitialQueue(g, inDegree);
    var result: seq<T> := [];
    forall s | s in g { AllRemain(g[s]); }
    assert Elems(result) == {} && result + queue == queue;
    while queue != []
      invariant Invariant(g, inDegree, queue, result)
      decreases |g.Keys| - |result|
    {
      inDegree, queue, result := Pop(g, adjacent, inDegree, queue, result);
    }
    DrainedQueue(g, inDegree, result);
    if |result| != |degrees| {
      return None;
    }
    r := Some(result);
  }
}
