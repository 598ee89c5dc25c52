/** Flow graphs: Kahn's topological sort over the names of every step's
    dependency tree, and the example-only readiness filter. */
module Dag {
  import opened Results
  import opened Sequences
  import opened DependsOn
  import opened Gate
  import opened Kahn

  datatype FlowStep = FlowStep(dependsOn: seq<Entry>)

  type Flow = map<string, FlowStep>

  /** Every step with the names its tree mentions, repeats kept. */
  ghost function GraphOf(flow: Flow): Graph<string> {
    map s | s in flow :: Names(flow[s].dependsOn)
  }

  /** The graph with only the steps of `built` given their edges. */
  ghost function PartialGraph(flow: Flow, built: set<string>): Graph<string> {
    map s | s in flow :: if s in built then Names(flow[s].dependsOn) else []
  }

  datatype DagError = UnknownStep(step: string, dep: string) | CycleDetected

  method BuildGraph(flow: Flow)
    returns (r: Result<(map<string, nat>, map<string, seq<string>>), DagError>)
    ensures r.Ok? <==> Closed(GraphOf(flow))
    ensures r.Ok? ==> Degrees(GraphOf(flow), r.value.0) && Adjacency(GraphOf(flow), r.value.1)
    ensures r.Err? ==> r.error.UnknownStep? && r.error.step in flow
                       && r.error.dep in GraphOf(flow)[r.error.step] && r.error.dep !in flow
  {
    hide Names;
    var inDegree: map<string, nat> := map s | s in flow :: 0;
    var adjacent: map<string, seq<string>> := map s | s in flow :: [];
    var todo := flow.Keys;
    ghost var built := PartialGraph(flow, {});
    while todo != {}
      invariant todo <= flow.Keys
      invariant built == PartialGraph(flow, flow.Keys - todo)
      invariant Degrees(built, inDegree) && Adjacency(built, adjacent) && Closed(built)
      decreases todo
    {
      var step :| step in todo;
      var names := CollectNames(flow[step].dependsOn, []);
      assert names == GraphOf(flow)[step];
      var unknown;
      unknown, built, inDegree, adjacent := AddEdges(built, flow.Keys, step, names, inDegree, adjacent);
      if unknown.Some? {
        return Err(UnknownStep(step, unknown.value));
      }
      PartialGraphGrows(flow, todo, step);
      todo := todo - {step};
    }
    assert built == GraphOf(flow);
    r := Ok((inDegree, adjacent));
  }

  lemma PartialGraphGrows(flow: Flow, todo: set<string>, step: string)
    requires step in todo && todo <= flow.Keys
    requires Elems(Names(flow[step].dependsOn)) <= flow.Keys
    ensures PartialGraph(flow, flow.Keys - todo)[step := Names(flow[step].dependsOn)]
         == PartialGraph(flow, flow.Keys - (todo - {step}))
    ensures Closed(PartialGraph(flow, flow.Keys - todo)) ==> Closed(PartialGraph(flow, flow.Keys - (todo - {step})))
  {
    var names := Names(flow[step].dependsOn);
    assert forall n :: n in names ==> n in Elems(names);
  }

  /** Sorts the flow, or says why it cannot: accepted exactly when every name exists and the
      graph has no cycle, whatever order the maps are walked in. */
  method ValidateDag(flow: Flow) returns (r: Result<seq<string>, DagError>)
    ensures r.Ok? <==> Closed(GraphOf(flow)) && !Cyclic(GraphOf(flow))
    ensures r.Ok? ==> TopologicalOrder(GraphOf(flow), r.value)
    ensures r.Err? && r.error.UnknownStep? ==>
      r.error.step in flow && r.error.dep in GraphOf(flow)[r.error.step] && r.error.dep !in flow
    ensures r == Err(CycleDetected) ==> Closed(GraphOf(flow)) && Cyclic(GraphOf(flow))
  {
    var graph := BuildGraph(flow);
    if graph.Err? {
      return Err(graph.error);
    }
    var sorted := Sort(GraphOf(flow), graph.value.0, graph.value.1);
    if sorted.None? {
      return Err(CycleDetected);
    }
    OrderExcludesCycles(GraphOf(flow), sorted.value);
    r := Ok(sorted.value);
  }

  // ---- The readiness filter ------------------------------------------------------

  ghost predicate IsReady(flow: Flow, completed: set<string>, s: string) {
    s in flow && s !in completed && forall n :: n in GraphOf(flow)[s] ==> n in completed
  }

  method ReadySteps(flow: Flow, completed: set<string>) returns (ready: seq<string>)
    ensures Distinct(ready)
    ensures forall s :: s in ready <==> IsReady(flow, completed, s)
    ensures forall s :: s in ready ==> s in flow && s !in completed
  {
    ready := [];
    var todo := flow.Keys;
    while todo != {}
      invariant todo <= flow.Keys
      invariant Distinct(ready)
      invariant forall s :: s in ready <==> s in flow.Keys - todo && IsReady(flow, completed, s)
      decreases todo
    {
      var s :| s in todo;
      if s !in completed {
        var names := CollectNames(flow[s].dependsOn, []);
        if forall n :: n in names ==> n in completed {
          DistinctPush(ready, s);
          ready := ready + [s];
        }
      }
      todo := todo - {s};
    }
  }

  /** On validated trees whose accept sets all contain `completed`, a reported step's gate is open,
      whatever the outcome of every step that has not completed. */
  lemma ReadyMeansOpen(flow: Flow, completed: set<string>, s: string, outcomeOf: OutcomeOf)
    requires IsReady(flow, completed, s)
    requires WellFormedTree(flow[s].dependsOn)
    requires forall e :: e in flow[s].dependsOn ==> AcceptsCompleted(e)
    requires forall n :: n in completed ==> outcomeOf(n) == Terminal(Completed)
    ensures Decide(flow[s].dependsOn, outcomeOf) == Open
  {
    var deps := flow[s].dependsOn;
    WaitsIffSomeNamePending(deps, outcomeOf);
    forall i | 0 <= i < |deps| ensures Satisfied(deps[i], outcomeOf) {
      forall n | Mentions(deps[i], n) ensures outcomeOf(n) == Terminal(Completed) {
        NamesAreTheLeaves(deps, n);
      }
      CompletedSatisfies(deps[i], outcomeOf);
    }
  }

  /** On trees of bare names and `all` groups the filter and the gate agree both ways. */
  lemma ReadyIffOpen(flow: Flow, completed: set<string>, s: string, outcomeOf: OutcomeOf)
    requires s in flow && s !in completed
    requires forall e :: e in flow[s].dependsOn ==> Conjunctive(e)
    requires forall n :: n in GraphOf(flow)[s] ==> (outcomeOf(n) == Terminal(Completed) <==> n in completed)
    ensures IsReady(flow, completed, s) <==> Decide(flow[s].dependsOn, outcomeOf) == Open
  {
    var deps := flow[s].dependsOn;
    WaitsIffSomeNamePending(deps, outcomeOf);
    forall i | 0 <= i < |deps| {
      ConjunctiveNeedsEveryLeaf(deps[i], outcomeOf);
    }
    forall n {
      NamesAreTheLeaves(deps, n);
    }
  }
}
