/** Turns whose results go to the wrong call, from the suspension to the
    resumed conversation. */
module AgentAstray {
  import opened Results
  import opened Bags
  import opened Json
  import opened LegacyHistory
  import opened AgentMessages
  import opened AgentState
  import opened AgentLoop
  import opened AgentRuns
  import opened AgentAnswers

  lemma TwoOfAKind(world: World, first: ToolCall, second: ToolCall, kind: Kind)
    requires KindOf(world, first) == KindOf(world, second) == kind
    ensures forall k: Kind :: OfKind(world, [first, second], k) == if k == kind then [first, second] else []
  {
    hide KindOf, Filter;
    forall k: Kind ensures OfKind(world, [first, second], k) == if k == kind then [first, second] else [] {
      assert [first, second] == [] + [first] + [second];
      NoneOfAnyKind(world, k);
      FilterPush(IsKind(world, k), [], first);
      FilterPush(IsKind(world, k), [] + [first], second);
    }
  }

  lemma NoneOfAnyKind(world: World, kind: Kind)
    ensures Filter(IsKind(world, kind), []) == []
  {}

  /** Two task calls of one turn, both accepted, suspend the step on two jobs. */
  lemma TwoTasksSuspend(agent: Agent, world: World, st: Saved, first: ToolCall, second: ToolCall, job0: string,
                        job1: string)
    requires KindOf(world, first) == KindOf(world, second) == Task
    requires ResolveTask(agent, first.name).Ok? && ResolveTask(agent, second.name).Ok?
    requires forall task, input :: world.job(st.turn, 0, task, input) == Some(job0)
    requires forall task, input :: world.job(st.turn, 1, task, input) == Some(job1)
    requires world.saved(st.turn)
    ensures RouteCalls(agent, world, st, [first, second]) == Stop(Ok(WaitingForTools(st.(pending := st.pending
      + [PendingToolCall(WireOf(first), first.name, job0), PendingToolCall(WireOf(second), second.name, job1)]))))
  {
    hide KindOf, ResolveTask, OfKind;
    TwoOfAKind(world, first, second, Task);
    var tasks := [first, second];
    assert tasks[..1] == [first] && tasks[..1][..0] == [];
    RunNoTasks(agent, world, st.turn);
    assert tasks[..0] == [];
    RunOneMore(agent, world, st.turn, tasks, 0);
    RunOneMore(agent, world, st.turn, tasks, 1);
    assert tasks[..2] == tasks;
    var p, q := PendingToolCall(WireOf(first), first.name, job0), PendingToolCall(WireOf(second), second.name, job1);
    assert [] + [p] + [q] == [p, q];
    assert RunTasks(agent, world, st.turn, tasks) == TaskRun([], [p, q], true);
    assert agent.Encoded(UnknownAnswers([])) == agent.Encoded(McpAnswers(world, st.turn, [])) == [];
    assert agent.Encoded([]) == [];
    assert st.messages + [] + [] + [] == st.messages;
  }

  lemma BothJobsDone(waiting: Saved, p: PendingToolCall, q: PendingToolCall, text0: string, text1: string)
    requires waiting.pending == [p, q] && waiting.resolved == [] && p.childJobId != q.childJobId
    ensures ApplyAll(waiting, [ChildDone(p.childJobId, text0), ChildDone(q.childJobId, text1)]) ==
      waiting.(pending := [], resolved :=
        [ResolvedToolResult(p.toolCallId, text0), ResolvedToolResult(q.toolCallId, text1)])
  {
    var moves := [ChildDone(p.childJobId, text0), ChildDone(q.childJobId, text1)];
    assert moves[..1] == [moves[0]] && moves[..1][..0] == [];
    assert ApplyAll(waiting, []) == waiting;
    assert ApplyAll(waiting, moves[..1]) == Apply(waiting, moves[0]);
    assert Without([p, q], 0) == [q] && Without([q], 0) == [];
  }

  /** An agent with two tasks, and surroundings in which everything succeeds. */
  ghost function TwoTasks(codec: Codec, lift: Lift): Agent {
    Agent(None, false, ["a", "b"], ["a", "b"], "", codec, lift)
  }

  ghost function Willing(): World {
    World(_ => false, _ => None, _ => false, (_, _) => "", (_, i, _, _) => Some(if i == 0 then "job-0" else "job-1"),
          _ => true, _ => None)
  }

  lemma WillingRunsTwoTasks(codec: Codec, lift: Lift, call: ToolCall)
    requires call.name == TASK_PREFIX + "a" || call.name == TASK_PREFIX + "b"
    ensures KindOf(Willing(), call) == Task && ResolveTask(TwoTasks(codec, lift), call.name).Ok?
  {
    var agent, name := TwoTasks(codec, lift), call.name[|TASK_PREFIX|..];
    assert call.name[0] == 's';
    assert name == "a" || name == "b";
    assert name in agent.taskInfos && name in agent.tools;
  }

  /** Distinct ids, even distinct wire ids, do not pair results with calls: after a call with both an item id and a wire
      id, a later call of the turn whose wire id is either of the two loses its result to it, from the suspension to
      the resumed conversation. */
  lemma ShadowedResultGoesAstray(codec: Codec, lift: Lift, itemId: string, wireId: string, other: string,
                                 arguments: Json, text0: string, text1: string)
    requires codec.Faithful() && (other == itemId || other == wireId)
    ensures var agent, world := TwoTasks(codec, lift), Willing();
      var first := ToolCall(Dual(itemId, wireId), TASK_PREFIX + "a", arguments);
      var second := ToolCall(Wire(other), TASK_PREFIX + "b", arguments);
      var st := NEW_STATE.(messages := agent.Encoded([Assistant(None, [Calling(first), Calling(second)])]), turn := 1);
      var waiting := st.(pending :=
        [PendingToolCall(wireId, first.name, "job-0"), PendingToolCall(other, second.name, "job-1")]);
      var moves := [ChildDone("job-0", text0), ChildDone("job-1", text1)];
      && DistinctIds([first, second]) && Shadowed([first, second], 1)
      && SuspendedAt(agent, world, st, [first, second], waiting) && AllDone(waiting, moves)
      && History(agent, Resumed(agent, ApplyAll(waiting, moves), []))
         == History(agent, st) + [User([Answer(ResultFor(first, text0)), Answer(ResultFor(first, text1))])]
  {
    var agent, world := TwoTasks(codec, lift), Willing();
    var first := ToolCall(Dual(itemId, wireId), TASK_PREFIX + "a", arguments);
    var second := ToolCall(Wire(other), TASK_PREFIX + "b", arguments);
    WillingRunsTwoTasks(codec, lift, first);
    WillingRunsTwoTasks(codec, lift, second);
    TurnGoesAstray(agent, world, first, second, text0, text1);
  }

  lemma SavedTurn(agent: Agent, said: Message)
    requires agent.codec.Faithful()
    ensures ParseHistory(agent.codec, agent.Encoded([said])) == [said] && AllInert(agent.Encoded([said]))
  {
    ParseAppended(agent.codec, [], [said]);
    assert [] + agent.Encoded([said]) == agent.Encoded([said]) && [] + [said] == [said];
    EncodedIsInert(agent, [said]);
  }

  lemma TwoCalls(first: ToolCall, second: ToolCall)
    ensures CallsOf([Calling(first), Calling(second)]) == [first, second]
  {
    var content := [Calling(first), Calling(second)];
    assert content[1..] == [Calling(second)] && content[1..][1..] == [];
    assert CallsOf([Calling(second)]) == [second] by { assert [Calling(second)][1..] == []; }
  }

  lemma NothingAtOnce(agent: Agent, world: World, st: Saved, calls: seq<ToolCall>, waiting: Saved)
    requires SuspendedAt(agent, world, st, calls, waiting) && waiting.messages == st.messages
    ensures RoutedAnswers(agent, world, st.turn, calls) == []
  {
    hide RoutedAnswers, RouteCalls, OfKind, ParseHistory, LastTurn;
    SuspendedOnTasks(agent, world, st, calls, waiting);
    var encoded := agent.Encoded(RoutedAnswers(agent, world, st.turn, calls));
    assert |st.messages + encoded| == |st.messages| + |encoded|;
  }

  lemma TwoResults(history: seq<Message>, k: nat, calls: seq<ToolCall>, call: ToolCall, one: ResolvedToolResult,
                   other: ResolvedToolResult)
    requires LastTurn(history, k, calls)
    requires FirstMatch(calls, one.toolCallId) == FirstMatch(calls, other.toolCallId) == Some(call)
    ensures Injected(history, Map(ResultPair, [one, other]))
         == [User([Answer(ResultFor(call, one.text)), Answer(ResultFor(call, other.text))])]
  {
    hide FirstMatch, LastTurn, FindCall;
    FindInLastTurn(history, k, calls, one.toolCallId);
    FindInLastTurn(history, k, calls, other.toolCallId);
    var results := [(one.toolCallId, one.text), (other.toolCallId, other.text)];
    assert Map(ResultPair, [one, other]) == results;
    assert ResumedAnswers(history, results) == [Answer(ResultFor(call, one.text)), Answer(ResultFor(call, other.text))];
  }

  lemma TurnGoesAstray(agent: Agent, world: World, first: ToolCall, second: ToolCall, text0: string, text1: string)
    requires agent.codec.Faithful() && KindOf(world, first) == KindOf(world, second) == Task
    requires ResolveTask(agent, first.name).Ok? && ResolveTask(agent, second.name).Ok?
    requires forall task, input :: world.job(1, 0, task, input) == Some("job-0")
    requires forall task, input :: world.job(1, 1, task, input) == Some("job-1")
    requires world.saved(1)
    requires first.id != second.id && Matches(first, WireOf(second))
    ensures var said := Assistant(None, [Calling(first), Calling(second)]);
      var st := NEW_STATE.(messages := agent.Encoded([said]), turn := 1);
      var waiting := st.(pending :=
        [PendingToolCall(WireOf(first), first.name, "job-0"), PendingToolCall(WireOf(second), second.name, "job-1")]);
      var moves := [ChildDone("job-0", text0), ChildDone("job-1", text1)];
      && DistinctIds([first, second]) && Shadowed([first, second], 1)
      && SuspendedAt(agent, world, st, [first, second], waiting) && AllDone(waiting, moves)
      && History(agent, Resumed(agent, ApplyAll(waiting, moves), []))
         == History(agent, st) + [User([Answer(ResultFor(first, text0)), Answer(ResultFor(first, text1))])]
  {
    hide KindOf, ResolveTask, OfKind, RunTasks, RouteCalls, Resumed, ApplyAll, ParseHistory, EncodeAll, Injected;
    var calls, said := [first, second], Assistant(None, [Calling(first), Calling(second)]);
    var st := NEW_STATE.(messages := agent.Encoded([said]), turn := 1);
    var p := PendingToolCall(WireOf(first), first.name, "job-0");
    var q := PendingToolCall(WireOf(second), second.name, "job-1");
    var waiting, moves := st.(pending := [p, q]), [ChildDone("job-0", text0), ChildDone("job-1", text1)];
    TwoTasksSuspend(agent, world, st, first, second, "job-0", "job-1");
    assert [] + [p, q] == [p, q];
    BothJobsDone(waiting, p, q, text0, text1);
    SavedTurn(agent, said);
    TwoCalls(first, second);
    TwoOfAKind(world, first, second, Task);
    ResumedTurn(agent, world, st, calls, waiting, moves);
    NothingAtOnce(agent, world, st, calls, waiting);
    var history := History(agent, st);
    assert history + [] == history;
    TwoResults(history, 0, calls, first,
               ResolvedToolResult(WireOf(first), text0), ResolvedToolResult(WireOf(second), text1));
  }
}
