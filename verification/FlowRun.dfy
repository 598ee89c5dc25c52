/** A flow run as a transition system over the gate: a pending step whose gate
    is open takes its own outcome, one whose gate blocks becomes omitted. */
module FlowRun {
  import opened Results
  import opened Sequences
  import opened DependsOn
  import opened Gate
  import opened Kahn
  import opened Dag

  type State = map<string, DepOutcome>

  /** The outcome a step takes once its gate opens: any function of the step and of the
      outcomes its tree names. */
  type Behaviour = (string, map<string, DepOutcome>) -> Outcome

  ghost function Live(st: State): OutcomeOf {
    n => if n in st then st[n] else Pending
  }

  ghost function Initial(flow: Flow): State {
    map s | s in flow :: Pending
  }

  ghost function DepsOf(flow: Flow, s: string): seq<string> {
    if s in flow then GraphOf(flow)[s] else []
  }

  /** The outcomes of the steps that `s` names. */
  ghost function Seen(flow: Flow, st: State, s: string): map<string, DepOutcome> {
    map d | d in DepsOf(flow, s) :: Live(st)(d)
  }

  ghost predicate Enabled(flow: Flow, st: State, s: string) {
    s in flow && Live(st)(s) == Pending && Decide(flow[s].dependsOn, Live(st)) != Wait
  }

  ghost function OutcomeAt(flow: Flow, own: Behaviour, st: State, s: string): Outcome
    requires s in flow
  {
    if Decide(flow[s].dependsOn, Live(st)) == Open then own(s, Seen(flow, st, s)) else Omitted
  }

  /** The state after the steps of `schedule` fired in that order. */
  ghost function Run(flow: Flow, own: Behaviour, schedule: seq<string>): State {
    if schedule == [] then Initial(flow)
    else
      var st, s := Run(flow, own, schedule[..|schedule| - 1]), schedule[|schedule| - 1];
      if s in flow then st[s := Terminal(OutcomeAt(flow, own, st, s))] else st
  }

  /** Every step of `schedule` was enabled when it fired. */
  ghost predicate IsRun(flow: Flow, own: Behaviour, schedule: seq<string>) {
    schedule != [] ==>
      var init := schedule[..|schedule| - 1];
      IsRun(flow, own, init) && Enabled(flow, Run(flow, own, init), schedule[|schedule| - 1])
  }

  ghost predicate Finished(flow: Flow, st: State) {
    forall s :: s in flow ==> Live(st)(s) != Pending
  }

  ghost predicate Maximal(flow: Flow, own: Behaviour, schedule: seq<string>) {
    IsRun(flow, own, schedule) && forall s :: !Enabled(flow, Run(flow, own, schedule), s)
  }

  ghost predicate Accepted(flow: Flow) {
    Closed(GraphOf(flow)) && !Cyclic(GraphOf(flow))
  }

  // ---- Runs are exactly the dependency-respecting schedules ----------------------

  lemma {:induction false} FiredIffTerminal(flow: Flow, own: Behaviour, schedule: seq<string>, n: string)
    requires forall s :: s in schedule ==> s in flow
    ensures Run(flow, own, schedule).Keys == flow.Keys
    ensures Live(Run(flow, own, schedule))(n) != Pending <==> n in schedule
    decreases |schedule|
  {
    if schedule != [] {
      var init, last := schedule[..|schedule| - 1], schedule[|schedule| - 1];
      assert schedule == init + [last];
      FiredIffTerminal(flow, own, init, n);
    }
  }

  lemma EnabledIffDepsFired(flow: Flow, own: Behaviour, schedule: seq<string>, s: string)
    requires forall n :: n in schedule ==> n in flow
    ensures Enabled(flow, Run(flow, own, schedule), s) <==>
            s in flow && s !in schedule && forall d :: d in DepsOf(flow, s) ==> d in schedule
  {
    forall n { FiredIffTerminal(flow, own, schedule, n); }
    if s in flow {
      WaitsIffSomeNamePending(flow[s].dependsOn, Live(Run(flow, own, schedule)));
    }
  }

  /** Fires each step at most once, each after everything its tree names. */
  ghost predicate Respects(flow: Flow, schedule: seq<string>) {
    Distinct(schedule) && (forall s :: s in schedule ==> s in flow) && InOrder(GraphOf(flow), schedule)
  }

  lemma RespectsPush(flow: Flow, init: seq<string>, s: string)
    ensures Respects(flow, init + [s]) <==>
            Respects(flow, init) && s in flow && s !in init && forall d :: d in DepsOf(flow, s) ==> d in init
  {
    var g, all := GraphOf(flow), init + [s];
    assert all[|init|] == s && all[..|init|] == init;
    assert forall i :: 0 <= i < |init| ==> all[i] == init[i] && all[..i] == init[..i];
    assert s in all;
    if Respects(flow, all) {
      forall n | n in init ensures n in flow { assert n in all; }
      forall i, j | 0 <= i < j < |init| ensures init[i] != init[j] { assert all[i] != all[j]; }
      assert InOrder(g, init);
    }
    if Respects(flow, init) && s in flow && s !in init && forall d :: d in DepsOf(flow, s) ==> d in init {
      DistinctPush(init, s);
      assert InOrder(g, all);
    }
  }

  /** Whatever outcomes the steps take, the runs of a flow are the orders that respect its
      dependencies: no accept set, `any` group or failure lets a step fire early or late. */
  lemma {:induction false} RunIffRespects(flow: Flow, own: Behaviour, schedule: seq<string>)
    ensures IsRun(flow, own, schedule) <==> Respects(flow, schedule)
    decreases |schedule|
  {
    if schedule != [] {
      var init, last := schedule[..|schedule| - 1], schedule[|schedule| - 1];
      assert schedule == init + [last];
      RunIffRespects(flow, own, init);
      RespectsPush(flow, init, last);
      if Respects(flow, init) {
        EnabledIffDepsFired(flow, own, init, last);
      }
    }
  }

  /** Every run stops within one firing per step. */
  lemma RunLength(flow: Flow, own: Behaviour, schedule: seq<string>)
    requires IsRun(flow, own, schedule)
    ensures |schedule| <= |flow|
    ensures |schedule| == |flow| <==> Finished(flow, Run(flow, own, schedule))
  {
    RunIffRespects(flow, own, schedule);
    DistinctFills(schedule, flow.Keys);
    forall s { FiredIffTerminal(flow, own, schedule, s); }
  }

  // ---- Progress --------------------------------------------------------------------

  /** No reachable state of an accepted flow with a pending step is stuck. */
  lemma Progress(flow: Flow, own: Behaviour, schedule: seq<string>)
    requires Accepted(flow) && IsRun(flow, own, schedule)
    requires !Finished(flow, Run(flow, own, schedule))
    ensures exists s :: Enabled(flow, Run(flow, own, schedule), s)
  {
    RunIffRespects(flow, own, schedule);
    var g, pending := GraphOf(flow), flow.Keys - Elems(schedule);
    var first :| first in flow && Live(Run(flow, own, schedule))(first) == Pending;
    FiredIffTerminal(flow, own, schedule, first);
    assert first in pending;
    if forall s :: !Enabled(flow, Run(flow, own, schedule), s) {
      forall s | s in pending ensures WaitsInside(g, pending, s) {
        EnabledIffDepsFired(flow, own, schedule, s);
        assert s !in schedule;
        var d :| d in g[s] && d !in schedule;
        assert d in g && d in pending;
      }
      StuckContainsCycle(g, pending);
    }
  }

  /** For an accepted flow, the maximal runs are exactly the runs that fire every step once, and
      their schedules are exactly the topological orders of the flow. */
  lemma MaximalRunsAreTopologicalOrders(flow: Flow, own: Behaviour, schedule: seq<string>)
    requires Accepted(flow)
    ensures Maximal(flow, own, schedule) <==> TopologicalOrder(GraphOf(flow), schedule)
    ensures Maximal(flow, own, schedule) ==> |schedule| == |flow| && Finished(flow, Run(flow, own, schedule))
  {
    RunIffRespects(flow, own, schedule);
    if IsRun(flow, own, schedule) {
      RunLength(flow, own, schedule);
      forall n { FiredIffTerminal(flow, own, schedule, n); }
      if Maximal(flow, own, schedule) && !Finished(flow, Run(flow, own, schedule)) {
        Progress(flow, own, schedule);
      }
    }
  }

  /** A flow can finish at all exactly when it is accepted: a cycle or an unknown name leaves a
      step waiting in every run. */
  lemma FinishesIffAccepted(flow: Flow, own: Behaviour)
    ensures (exists schedule :: IsRun(flow, own, schedule) && Finished(flow, Run(flow, own, schedule)))
            <==> Accepted(flow)
  {
    if schedule :| IsRun(flow, own, schedule) && Finished(flow, Run(flow, own, schedule)) {
      RunIffRespects(flow, own, schedule);
      forall n { FiredIffTerminal(flow, own, schedule, n); }
      OrderExcludesCycles(GraphOf(flow), schedule);
    }
    if Accepted(flow) {
      var schedule := Complete(flow, own, []);
    }
  }

  lemma {:induction false} Complete(flow: Flow, own: Behaviour, schedule: seq<string>) returns (full: seq<string>)
    requires Accepted(flow) && IsRun(flow, own, schedule)
    ensures IsRun(flow, own, full) && Finished(flow, Run(flow, own, full))
    decreases |flow| - |schedule|
  {
    RunLength(flow, own, schedule);
    if |schedule| == |flow| {
      full := schedule;
    } else {
      Progress(flow, own, schedule);
      var s :| Enabled(flow, Run(flow, own, schedule), s);
      var longer := schedule + [s];
      assert longer[..|longer| - 1] == schedule;
      RunLength(flow, own, longer);
      full := Complete(flow, own, longer);
    }
  }

  // ---- Confluence -------------------------------------------------------------------

  /** The declarative meaning of a finished flow: every step holds the outcome its gate and its
      own behaviour give it, judged from that same final state. */
  ghost predicate Settled(flow: Flow, own: Behaviour, final: State) {
    && final.Keys == flow.Keys
    && forall s :: s in flow ==> final[s] == Terminal(OutcomeAt(flow, own, final, s))
  }

  lemma OutcomeReadsOnlyDeps(flow: Flow, own: Behaviour, a: State, b: State, s: string)
    requires s in flow && forall d :: d in DepsOf(flow, s) ==> Live(a)(d) == Live(b)(d)
    ensures OutcomeAt(flow, own, a, s) == OutcomeAt(flow, own, b, s)
  {
    DecisionReadsOnlyNames(flow[s].dependsOn, Live(a), Live(b));
    assert Seen(flow, a, s) == Seen(flow, b, s);
  }

  lemma FiresAsSettled(flow: Flow, own: Behaviour, init: seq<string>, s: string, final: State)
    requires IsRun(flow, own, init) && Enabled(flow, Run(flow, own, init), s)
    requires forall n :: n in init ==> Live(Run(flow, own, init))(n) == Live(final)(n)
    ensures OutcomeAt(flow, own, Run(flow, own, init), s) == OutcomeAt(flow, own, final, s)
  {
    hide Run, IsRun, OutcomeAt, DepsOf;
    RunIffRespects(flow, own, init);
    EnabledIffDepsFired(flow, own, init, s);
    OutcomeReadsOnlyDeps(flow, own, Run(flow, own, init), final, s);
  }

  /** At every point of every run, each fired step already has its settled outcome. */
  lemma {:induction false} RunAgreesWithSettled(flow: Flow, own: Behaviour, schedule: seq<string>, final: State)
    requires IsRun(flow, own, schedule) && Settled(flow, own, final)
    ensures forall s :: s in schedule ==> Live(Run(flow, own, schedule))(s) == Live(final)(s)
    decreases |schedule|
  {
    hide OutcomeAt, Decide;
    if schedule != [] {
      var init, last := schedule[..|schedule| - 1], schedule[|schedule| - 1];
      assert schedule == init + [last];
      RunAgreesWithSettled(flow, own, init, final);
      FiresAsSettled(flow, own, init, last, final);
    }
  }

  /** A fired step keeps its outcome, and it is still the one judged from the current state. */
  lemma {:induction false} FiredStepsStaySettled(flow: Flow, own: Behaviour, schedule: seq<string>, s: string)
    requires IsRun(flow, own, schedule) && s in schedule
    ensures s in flow
    ensures Live(Run(flow, own, schedule))(s) == Terminal(OutcomeAt(flow, own, Run(flow, own, schedule), s))
    decreases |schedule|
  {
    var init, last := schedule[..|schedule| - 1], schedule[|schedule| - 1];
    assert schedule == init + [last];
    RunIffRespects(flow, own, schedule);
    RunIffRespects(flow, own, init);
    var before, after := Run(flow, own, init), Run(flow, own, schedule);
    EnabledIffDepsFired(flow, own, init, last);
    forall n { FiredIffTerminal(flow, own, init, n); }
    if s != last {
      FiredStepsStaySettled(flow, own, init, s);
      FiredDepsAreFired(flow, own, init, s);
    }
    OutcomeReadsOnlyDeps(flow, own, before, after, s);
  }

  lemma FiredDepsAreFired(flow: Flow, own: Behaviour, schedule: seq<string>, s: string)
    requires Respects(flow, schedule) && s in schedule
    ensures forall d :: d in DepsOf(flow, s) ==> d in schedule
  {
    var i :| 0 <= i < |schedule| && schedule[i] == s;
    forall d | d in DepsOf(flow, s) ensures d in schedule {
      assert d in schedule[..i];
    }
  }

  lemma FinishedRunIsSettled(flow: Flow, own: Behaviour, schedule: seq<string>)
    requires IsRun(flow, own, schedule) && Finished(flow, Run(flow, own, schedule))
    ensures Settled(flow, own, Run(flow, own, schedule))
  {
    RunIffRespects(flow, own, schedule);
    forall s | s in flow ensures s in schedule && Run(flow, own, schedule).Keys == flow.Keys {
      FiredIffTerminal(flow, own, schedule, s);
    }
    if flow == map[] { FiredIffTerminal(flow, own, schedule, ""); }
    forall s | s in flow { FiredStepsStaySettled(flow, own, schedule, s); }
  }

  /** The outcomes the steps that `s` names ended with. */
  ghost function Inputs(flow: Flow, final: State, s: string): map<string, DepOutcome>
    requires s in flow && final.Keys == flow.Keys && Closed(GraphOf(flow))
  {
    map d | d in Names(flow[s].dependsOn) :: assert d in GraphOf(flow)[s] && d in GraphOf(flow); final[d]
  }

  /** `s` ended with its own outcome if the final outcomes fulfil its tree, and was omitted otherwise. */
  ghost predicate EndsAsGated(flow: Flow, own: Behaviour, final: State, s: string, outcomeOf: OutcomeOf)
    requires s in flow && final.Keys == flow.Keys && Closed(GraphOf(flow))
  {
    final[s] ==
      Terminal(if Fulfilled(All(flow[s].dependsOn), outcomeOf) then own(s, Inputs(flow, final, s)) else Omitted)
  }

  /** What the end of a run must be. */
  ghost predicate FollowsGates(flow: Flow, own: Behaviour, final: State) {
    && final.Keys == flow.Keys && Closed(GraphOf(flow))
    && forall s, outcomeOf: OutcomeOf :: s in flow && (forall n :: n in final ==> outcomeOf(n) == final[n]) ==>
         EndsAsGated(flow, own, final, s, outcomeOf)
  }

  lemma OutcomeIsGated(flow: Flow, own: Behaviour, final: State, s: string, outcomeOf: OutcomeOf)
    requires s in flow && final.Keys == flow.Keys && Closed(GraphOf(flow)) && Finished(flow, final)
    requires forall n :: n in final ==> outcomeOf(n) == final[n]
    ensures final[s] == Terminal(OutcomeAt(flow, own, final, s)) <==> EndsAsGated(flow, own, final, s, outcomeOf)
  {
    forall d | d in Names(flow[s].dependsOn) ensures d in final && outcomeOf(d) != Pending {
      assert d in GraphOf(flow)[s] && d in GraphOf(flow);
      assert Live(final)(d) == final[d];
    }
    assert Seen(flow, final, s) == Inputs(flow, final, s);
    hide Fulfilled, Decide, Names, Seen, Inputs;
    DecisionReadsOnlyNames(flow[s].dependsOn, Live(final), outcomeOf);
    DecidesByFulfilment(flow[s].dependsOn, outcomeOf);
  }

  lemma SettledIffFollowsGates(flow: Flow, own: Behaviour, final: State)
    requires Closed(GraphOf(flow))
    ensures Settled(flow, own, final) <==> FollowsGates(flow, own, final)
  {
    hide OutcomeAt, EndsAsGated, Closed, GraphOf;
    if Settled(flow, own, final) {
      forall s, outcomeOf: OutcomeOf | s in flow && (forall n :: n in final ==> outcomeOf(n) == final[n])
        ensures EndsAsGated(flow, own, final, s, outcomeOf)
      {
        OutcomeIsGated(flow, own, final, s, outcomeOf);
      }
    }
    if FollowsGates(flow, own, final) {
      forall s | s in flow ensures final[s] != Pending { GatedIsTerminal(flow, own, final, s); }
      forall s | s in flow ensures final[s] == Terminal(OutcomeAt(flow, own, final, s)) {
        OutcomeIsGated(flow, own, final, s, Live(final));
      }
    }
  }

  lemma GatedIsTerminal(flow: Flow, own: Behaviour, final: State, s: string)
    requires FollowsGates(flow, own, final) && s in flow
    ensures final[s] != Pending
  {
    hide Fulfilled, Closed, GraphOf;
    assert EndsAsGated(flow, own, final, s, Live(final));
  }

  /** Every run that finishes ends as the gates say. */
  lemma FinishedRunFollowsGates(flow: Flow, own: Behaviour, schedule: seq<string>)
    requires IsRun(flow, own, schedule) && Finished(flow, Run(flow, own, schedule))
    ensures FollowsGates(flow, own, Run(flow, own, schedule))
  {
    hide Run, IsRun, Finished, Settled, FollowsGates, Cyclic;
    FinishesIffAccepted(flow, own);
    FinishedRunIsSettled(flow, own, schedule);
    SettledIffFollowsGates(flow, own, Run(flow, own, schedule));
  }

  /** A step without dependencies always ends with its own outcome. */
  lemma RootsRun(flow: Flow, own: Behaviour, final: State, s: string)
    requires FollowsGates(flow, own, final) && s in flow && flow[s].dependsOn == []
    ensures final[s] == Terminal(own(s, map[]))
  {
    var outcomeOf := Live(final);
    assert Fits(All([]), Every([])) && forall leaf :: !Takes(All([]), Every([]), leaf);
    assert Fulfilled(All([]), outcomeOf);
    assert Inputs(flow, final, s) == map[];
    assert EndsAsGated(flow, own, final, s, outcomeOf);
  }

  /** On trees of bare names and `all` groups: a step runs exactly when everything it names completed. */
  lemma ConjunctiveStepRunsIff(flow: Flow, own: Behaviour, final: State, s: string)
    requires FollowsGates(flow, own, final) && s in flow && forall e :: e in flow[s].dependsOn ==> Conjunctive(e)
    ensures final[s] ==
      Terminal(if forall d :: d in Names(flow[s].dependsOn) ==> d in final && final[d] == Terminal(Completed)
               then own(s, Inputs(flow, final, s)) else Omitted)
  {
    var deps, outcomeOf := flow[s].dependsOn, Live(final);
    SatisfiedIffFulfilled(All(deps), outcomeOf);
    ConjunctiveNeedsEveryLeaf(All(deps), outcomeOf);
    forall n ensures n in Names(deps) <==> Mentions(All(deps), n) { NamesAreTheLeaves(deps, n); }
    assert forall d :: d in Names(deps) ==> d in GraphOf(flow)[s];
    hide Fulfilled, Satisfied, Conjunctive;
    assert EndsAsGated(flow, own, final, s, outcomeOf);
  }

  /** So a step that did not complete omits everything below it, along any chain of such steps. */
  lemma {:induction false} FailureOmitsTheChain(flow: Flow, own: Behaviour, final: State, chain: seq<string>)
    requires FollowsGates(flow, own, final) && IsPath(GraphOf(flow), chain) && |chain| >= 2
    requires forall i, e :: 0 <= i < |chain| - 1 && e in flow[chain[i]].dependsOn ==> Conjunctive(e)
    requires final[chain[|chain| - 1]] != Terminal(Completed)
    ensures final[chain[0]] == Terminal(Omitted)
    decreases |chain|
  {
    hide FollowsGates, Conjunctive;
    assert chain[0] in flow && chain[1] in GraphOf(flow)[chain[0]];
    if |chain| > 2 {
      var rest := chain[1..];
      assert forall i :: 0 <= i < |rest| ==> rest[i] == chain[i + 1];
      FailureOmitsTheChain(flow, own, final, rest);
    }
    ConjunctiveStepRunsIff(flow, own, final, chain[0]);
  }

  /** For an accepted flow the settled state exists, is unique, and is where every maximal run
      ends, whatever the schedule. */
  lemma Confluence(flow: Flow, own: Behaviour, schedule: seq<string>, final: State)
    requires Accepted(flow) && Maximal(flow, own, schedule)
    ensures Settled(flow, own, final) <==> final == Run(flow, own, schedule)
  {
    hide OutcomeAt, Run, IsRun, Enabled, InOrder;
    MaximalRunsAreTopologicalOrders(flow, own, schedule);
    FinishedRunIsSettled(flow, own, schedule);
    if Settled(flow, own, final) {
      RunAgreesWithSettled(flow, own, schedule, final);
      forall s | s in flow ensures final[s] == Run(flow, own, schedule)[s] { assert s in schedule; }
    }
  }

  /** Any two maximal runs end alike, and every partial run is already part of that end. */
  lemma SchedulesAgree(flow: Flow, own: Behaviour, one: seq<string>, other: seq<string>)
    requires Accepted(flow) && Maximal(flow, own, one) && IsRun(flow, own, other)
    ensures forall s :: s in other ==> Live(Run(flow, own, other))(s) == Live(Run(flow, own, one))(s)
    ensures Maximal(flow, own, other) ==> Run(flow, own, other) == Run(flow, own, one)
  {
    MaximalRunsAreTopologicalOrders(flow, own, one);
    FinishedRunIsSettled(flow, own, one);
    RunAgreesWithSettled(flow, own, other, Run(flow, own, one));
    if Maximal(flow, own, other) {
      Confluence(flow, own, other, Run(flow, own, one));
    }
  }

  method FireStep(flow: Flow, own: Behaviour, st: State, s: string) returns (st': State)
    requires s in flow
    ensures st' == st[s := Terminal(OutcomeAt(flow, own, st, s))]
  {
    var live := n => if n in st then st[n] else Pending;
    DecisionReadsOnlyNames(flow[s].dependsOn, live, Live(st));
    var names := CollectNames(flow[s].dependsOn, []);
    var seen := map d | d in names :: live(d);
    assert seen == Seen(flow, st, s);
    var outcome := if Decide(flow[s].dependsOn, live) == Open then own(s, seen) else Omitted;
    st' := st[s := Terminal(outcome)];
  }

  /** One pass over the order that validation returns gives the state every maximal run ends in. */
  method RunInOrder(flow: Flow, own: Behaviour) returns (final: Result<State, DagError>)
    ensures final.Ok? <==> Accepted(flow)
    ensures final.Ok? ==> FollowsGates(flow, own, final.value)
    ensures final.Ok? ==> forall schedule :: Maximal(flow, own, schedule) ==> final.value == Run(flow, own, schedule)
  {
    hide OutcomeAt, FollowsGates, Maximal, InOrder, Cyclic;
    var sorted := ValidateDag(flow);
    if sorted.Err? {
      return Err(sorted.error);
    }
    var order := sorted.value;
    var st: State := map s | s in flow :: Pending;
    for i := 0 to |order|
      invariant st == Run(flow, own, order[..i])
    {
      assert order[i] in order;
      assert order[..i + 1][..i] == order[..i];
      st := FireStep(flow, own, st, order[i]);
    }
    assert order[..|order|] == order;
    OrderSettles(flow, own, order);
    final := Ok(st);
  }

  lemma OrderSettles(flow: Flow, own: Behaviour, order: seq<string>)
    requires Accepted(flow) && TopologicalOrder(GraphOf(flow), order)
    ensures FollowsGates(flow, own, Run(flow, own, order))
    ensures forall schedule :: Maximal(flow, own, schedule) ==> Run(flow, own, order) == Run(flow, own, schedule)
  {
    MaximalRunsAreTopologicalOrders(flow, own, order);
    FinishedRunFollowsGates(flow, own, order);
    hide FollowsGates, Run, Accepted;
    forall schedule | Maximal(flow, own, schedule) ensures Run(flow, own, order) == Run(flow, own, schedule) {
      SchedulesAgree(flow, own, schedule, order);
    }
  }
}
