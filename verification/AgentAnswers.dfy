/** Every tool call of a turn is answered exactly once, across the suspension
    its child jobs cause, and exactly when that can go wrong. */
module AgentAnswers {
  import opened Results
  import opened Bags
  import opened Json
  import opened LegacyHistory
  import opened AgentMessages
  import opened AgentState
  import opened AgentLoop
  import opened AgentRuns

  // ---- Ids of calls and of answers ----------------------------------------------------

  function IdOf(call: ToolCall): CallId { call.id }

  function WireOf(call: ToolCall): string { WireId(call.id) }

  predicate IsAnswer(c: UserContent) { c.Answer? }

  function AnsweredId(c: UserContent): CallId { if c.Answer? then c.result.call else Wire("") }

  ghost function CallIds(calls: seq<ToolCall>): multiset<CallId> {
    Bag(IdOf, calls)
  }

  /** The tool results of the messages, in order. */
  ghost function AnswersOf(ms: seq<Message>): seq<UserContent> {
    if ms == [] then []
    else AnswersOf(ms[..|ms| - 1]) + if ms[|ms| - 1].User? then Filter(IsAnswer, ms[|ms| - 1].answers) else []
  }

  /** The ids that the tool results of the messages carry. */
  ghost function AnswerIds(ms: seq<Message>): multiset<CallId> {
    Bag(AnsweredId, AnswersOf(ms))
  }

  lemma {:induction false} AnswersOfConcat(a: seq<Message>, b: seq<Message>)
    ensures AnswersOf(a + b) == AnswersOf(a) + AnswersOf(b)
    decreases |b|
  {
    if b == [] {
      assert a + b == a;
    } else {
      assert (a + b)[..|a + b| - 1] == a + b[..|b| - 1];
      AnswersOfConcat(a, b[..|b| - 1]);
    }
  }

  lemma AnswerIdsConcat(a: seq<Message>, b: seq<Message>)
    ensures AnswerIds(a + b) == AnswerIds(a) + AnswerIds(b)
  {
    AnswersOfConcat(a, b);
    BagConcat(AnsweredId, AnswersOf(a), AnswersOf(b));
  }

  ghost predicate AnswersCall(m: Message, call: ToolCall) {
    m.User? && |m.answers| == 1 && m.answers[0].Answer? && m.answers[0].result.call == call.id
  }

  /** One message answering each call in turn. */
  ghost predicate AnswersEach(ms: seq<Message>, calls: seq<ToolCall>) {
    |ms| == |calls| && forall i :: 0 <= i < |ms| ==> AnswersCall(ms[i], calls[i])
  }

  lemma {:induction false} AnswersEachCarriesIds(ms: seq<Message>, calls: seq<ToolCall>)
    requires AnswersEach(ms, calls)
    ensures AnswerIds(ms) == CallIds(calls)
    decreases |ms|
  {
    if ms != [] {
      var n := |ms| - 1;
      AnswersEachCarriesIds(ms[..n], calls[..n]);
      assert AnswersCall(ms[n], calls[n]);
      var answer := ms[n].answers[0];
      assert ms[n].answers == [answer];
      FilterAll(IsAnswer, [answer]);
      assert AnswersOf(ms) == AnswersOf(ms[..n]) + [answer];
      BagPush(AnsweredId, AnswersOf(ms[..n]), answer);
    }
  }

  // ---- What a turn answers at once, and what it leaves pending ----------------------------

  function IsAccepted(agent: Agent): ToolCall -> bool {
    (call: ToolCall) => ResolveTask(agent, call.name).Ok?
  }

  function IsRefused(agent: Agent): ToolCall -> bool {
    (call: ToolCall) => ResolveTask(agent, call.name).Err?
  }

  /** The calls handed to child jobs. */
  ghost function DelegatedCalls(agent: Agent, world: World, calls: seq<ToolCall>): seq<ToolCall> {
    Filter(IsAccepted(agent), OfKind(world, calls, Task))
  }

  /** Task calls are either refused at once or left pending under their wire id. */
  lemma {:induction false} TasksAnsweredOrPending(agent: Agent, world: World, turn: nat, tasks: seq<ToolCall>)
    requires RunTasks(agent, world, turn, tasks).ok
    ensures AnswersEach(RunTasks(agent, world, turn, tasks).answers, Filter(IsRefused(agent), tasks))
    ensures Map(PendingId, RunTasks(agent, world, turn, tasks).pending) == Map(WireOf, Filter(IsAccepted(agent), tasks))
    decreases |tasks|
  {
    hide ResolveTask;
    if tasks != [] {
      var init, call := tasks[..|tasks| - 1], tasks[|tasks| - 1];
      TasksAnsweredOrPending(agent, world, turn, init);
      hide AnswersCall, WireOf, PendingId;
      assert AnswersCall(AnswerMessage(call, ""), call);
    }
  }

  lemma UnknownAndMcpAnswered(world: World, turn: nat, calls: seq<ToolCall>)
    ensures AnswerIds(UnknownAnswers(calls)) == CallIds(calls)
    ensures AnswerIds(McpAnswers(world, turn, calls)) == CallIds(calls)
  {
    AnswersEachCarriesIds(UnknownAnswers(calls), calls);
    forall i | 0 <= i < |calls| ensures AnswersCall(McpAnswers(world, turn, calls)[i], calls[i]) {
      assert McpAnswers(world, turn, calls)[i] == AnswerMessage(calls[i], world.mcp(turn, i));
    }
    AnswersEachCarriesIds(McpAnswers(world, turn, calls), calls);
  }

  /** Without `ask_user`, every call is unknown, for a tool server, or a task. */
  lemma KindsShareCalls(world: World, calls: seq<ToolCall>)
    requires OfKind(world, calls, AskUser) == []
    ensures CallIds(calls)
         == CallIds(OfKind(world, calls, Unknown)) + CallIds(OfKind(world, calls, Mcp))
            + CallIds(OfKind(world, calls, Task))
  {
    hide KindOf, Filter;
    forall i | 0 <= i < |calls| ensures KindOf(world, calls[i]) != AskUser {
      FilterMembers(IsKind(world, AskUser), calls, calls[i]);
    }
    BagSplit3(IdOf, IsKind(world, Unknown), IsKind(world, Mcp), IsKind(world, Task), calls);
  }

  /** A turn without `ask_user` answers every call at once, except those it delegated. */
  lemma TurnAnswersTheRest(agent: Agent, world: World, turn: nat, calls: seq<ToolCall>)
    requires OfKind(world, calls, AskUser) == []
    requires RunTasks(agent, world, turn, OfKind(world, calls, Task)).ok
    ensures AnswerIds(RoutedAnswers(agent, world, turn, calls)) + CallIds(DelegatedCalls(agent, world, calls)) ==
      CallIds(calls)
  {
    hide OfKind, AnswerIds, UnknownAnswers, McpAnswers;
    var tasks := OfKind(world, calls, Task);
    var unknown := UnknownAnswers(OfKind(world, calls, Unknown));
    var mcp := McpAnswers(world, turn, OfKind(world, calls, Mcp));
    var refusals := RunTasks(agent, world, turn, tasks).answers;
    AnswerIdsConcat(unknown, mcp);
    AnswerIdsConcat(unknown + mcp, refusals);
    UnknownAndMcpAnswered(world, turn, OfKind(world, calls, Unknown));
    UnknownAndMcpAnswered(world, turn, OfKind(world, calls, Mcp));
    TasksAnsweredOrPending(agent, world, turn, tasks);
    AnswersEachCarriesIds(refusals, Filter(IsRefused(agent), tasks));
    BagSplit(IdOf, IsRefused(agent), IsAccepted(agent), tasks);
    KindsShareCalls(world, calls);
  }

  // ---- Which call a saved handle finds --------------------------------------------------------

  ghost predicate DistinctIds(calls: seq<ToolCall>) {
    forall i, j :: 0 <= i < j < |calls| ==> calls[i].id != calls[j].id
  }

  /** An earlier call of the turn answers to this call's wire id: by its own wire id or by its item id. */
  ghost predicate Shadowed(calls: seq<ToolCall>, j: nat)
    requires j < |calls|
  {
    exists i :: 0 <= i < j && Matches(calls[i], WireOf(calls[j]))
  }

  lemma {:induction false} FirstMatchIs(calls: seq<ToolCall>, handle: string) returns (k: nat)
    requires exists i :: 0 <= i < |calls| && Matches(calls[i], handle)
    ensures k < |calls| && FirstMatch(calls, handle) == Some(calls[k]) && Matches(calls[k], handle)
    ensures forall i :: 0 <= i < k ==> !Matches(calls[i], handle)
    decreases |calls|
  {
    hide Matches;
    if Matches(calls[0], handle) {
      k := 0;
    } else {
      var i :| 0 <= i < |calls| && Matches(calls[i], handle);
      assert calls[1..][i - 1] == calls[i];
      var k' := FirstMatchIs(calls[1..], handle);
      k := k' + 1;
      forall i | 0 <= i < k ensures !Matches(calls[i], handle) {
        if i > 0 { assert calls[i] == calls[1..][i - 1]; }
      }
    }
  }

  /** A handle finds its own call exactly when that call is not shadowed; otherwise an earlier one. */
  lemma HandleFinds(calls: seq<ToolCall>, j: nat) returns (k: nat)
    requires j < |calls|
    ensures k <= j && FirstMatch(calls, WireOf(calls[j])) == Some(calls[k])
    ensures k == j <==> !Shadowed(calls, j)
  {
    assert Matches(calls[j], WireOf(calls[j]));
    k := FirstMatchIs(calls, WireOf(calls[j]));
  }

  /** The id that the result injected for a handle carries. */
  ghost function FoundId(calls: seq<ToolCall>, handle: string): CallId {
    match FirstMatch(calls, handle)
    case Some(call) => call.id
    case None => Wire(handle)
  }

  ghost function Finds(calls: seq<ToolCall>): string -> CallId {
    handle => FoundId(calls, handle)
  }

  ghost function FindsFor(calls: seq<ToolCall>): ToolCall -> CallId {
    call => FoundId(calls, WireOf(call))
  }

  /** No call handed to a child job is shadowed. */
  ghost predicate NoneShadowed(agent: Agent, world: World, calls: seq<ToolCall>) {
    forall j :: 0 <= j < |calls| && calls[j] in DelegatedCalls(agent, world, calls) ==> !Shadowed(calls, j)
  }

  lemma DelegatedIsCall(agent: Agent, world: World, calls: seq<ToolCall>, call: ToolCall)
    requires call in DelegatedCalls(agent, world, calls)
    ensures call in calls
  {
    FilterMembers(IsAccepted(agent), OfKind(world, calls, Task), call);
    FilterMembers(IsKind(world, Task), calls, call);
  }

  lemma {:induction false} LastShadowed(agent: Agent, world: World, calls: seq<ToolCall>, n: nat) returns (lost: nat)
    requires n <= |calls|
    requires exists j :: 0 <= j < n && calls[j] in DelegatedCalls(agent, world, calls) && Shadowed(calls, j)
    requires forall j :: n <= j < |calls| && calls[j] in DelegatedCalls(agent, world, calls) ==> !Shadowed(calls, j)
    ensures lost < n && calls[lost] in DelegatedCalls(agent, world, calls) && Shadowed(calls, lost)
    ensures forall j :: lost < j < |calls| && calls[j] in DelegatedCalls(agent, world, calls) ==> !Shadowed(calls, j)
    decreases n
  {
    hide DelegatedCalls, Shadowed;
    if calls[n - 1] in DelegatedCalls(agent, world, calls) && Shadowed(calls, n - 1) {
      lost := n - 1;
    } else {
      lost := LastShadowed(agent, world, calls, n - 1);
    }
  }

  /** The handles of the delegated calls find exactly those calls when, and only when, none of them is shadowed. */
  lemma HandlesFindTheirCallsIff(agent: Agent, world: World, calls: seq<ToolCall>)
    requires DistinctIds(calls)
    ensures Bag(FindsFor(calls), DelegatedCalls(agent, world, calls)) == CallIds(DelegatedCalls(agent, world, calls))
            <==> NoneShadowed(agent, world, calls)
  {
    hide DelegatedCalls;
    var delegated := DelegatedCalls(agent, world, calls);
    if NoneShadowed(agent, world, calls) {
      forall i | 0 <= i < |delegated| ensures FindsFor(calls)(delegated[i]) == IdOf(delegated[i]) {
        DelegatedIsCall(agent, world, calls, delegated[i]);
        var j :| 0 <= j < |calls| && calls[j] == delegated[i];
        var k := HandleFinds(calls, j);
        assert FoundId(calls, WireOf(calls[j])) == calls[j].id;
      }
      BagAgree(FindsFor(calls), IdOf, delegated);
    } else {
      var lost := LastShadowed(agent, world, calls, |calls|);
      forall i | 0 <= i < |delegated| ensures FindsFor(calls)(delegated[i]) != IdOf(calls[lost]) {
        DelegatedIsCall(agent, world, calls, delegated[i]);
        var j :| 0 <= j < |calls| && calls[j] == delegated[i];
        var k := HandleFinds(calls, j);
        assert k != lost && FoundId(calls, WireOf(calls[j])) == calls[k].id;
      }
      BagMembers(FindsFor(calls), delegated, IdOf(calls[lost]));
      BagMembers(IdOf, delegated, IdOf(calls[lost]));
    }
  }

  // ---- After the suspension -----------------------------------------------------------------------

  /** The conversation's last assistant message holds `calls`; only answers follow it. */
  ghost predicate LastTurn(history: seq<Message>, k: nat, calls: seq<ToolCall>) {
    && k < |history| && history[k].Assistant? && CallsOf(history[k].content) == calls
    && forall i :: k < i < |history| ==> history[i].User?
  }

  lemma {:induction false} FindInLastTurn(history: seq<Message>, k: nat, calls: seq<ToolCall>, handle: string)
    requires LastTurn(history, k, calls) && FirstMatch(calls, handle).Some?
    ensures FindCall(history, handle) == FirstMatch(calls, handle)
    decreases |history|
  {
    hide CallsOf, FirstMatch;
    if k < |history| - 1 {
      FindInLastTurn(history[..|history| - 1], k, calls, handle);
    }
  }

  function Handle(r: (string, string)): string { r.0 }

  ghost function ResumedFor(history: seq<Message>): ((string, string)) -> UserContent {
    (r: (string, string)) => Answer(ResumedToolResult(history, r.0, r.1))
  }

  ghost function FindsHandle(calls: seq<ToolCall>): ((string, string)) -> CallId {
    (r: (string, string)) => FoundId(calls, r.0)
  }

  lemma AnswersOfOne(answers: seq<UserContent>)
    requires forall i :: 0 <= i < |answers| ==> IsAnswer(answers[i])
    ensures AnswersOf([User(answers)]) == answers
  {
    FilterAll(IsAnswer, answers);
    assert AnswersOf([User(answers)][..0]) == [];
  }

  /** The message injected on resume carries, for each result, the id its handle finds. */
  lemma ResumedAnswerIds(history: seq<Message>, k: nat, calls: seq<ToolCall>, results: seq<(string, string)>)
    requires LastTurn(history, k, calls)
    requires forall i :: 0 <= i < |results| ==> FirstMatch(calls, results[i].0).Some?
    ensures AnswerIds([User(ResumedAnswers(history, results))]) == Bag(Finds(calls), Map(Handle, results))
  {
    hide FirstMatch, Bag;
    var answers := ResumedAnswers(history, results);
    assert answers == Map(ResumedFor(history), results);
    AnswersOfOne(answers);
    hide AnswersOf, ResumedAnswers;
    forall i | 0 <= i < |results|
      ensures FindsHandle(calls)(results[i]) == AnsweredId(ResumedFor(history)(results[i]))
    {
      FindInLastTurn(history, k, calls, results[i].0);
    }
    BagOfMap(AnsweredId, ResumedFor(history), FindsHandle(calls), results);
    BagOfMap(Finds(calls), Handle, FindsHandle(calls), results);
  }

  /** The state of a suspended turn once every child job has finished: the handles of the delegated
      calls, in the order the jobs finished. */
  lemma ResolvedHandles(agent: Agent, world: World, turn: nat, calls: seq<ToolCall>, waiting: Saved, moves: seq<Move>)
    requires RunTasks(agent, world, turn, OfKind(world, calls, Task)).ok
    requires waiting.pending == RunTasks(agent, world, turn, OfKind(world, calls, Task)).pending
    requires waiting.resolved == []
    requires (forall m :: m in moves ==> m.ChildDone?) && ApplyAll(waiting, moves).pending == []
    ensures multiset(Map(ResolvedId, ApplyAll(waiting, moves).resolved)) ==
      multiset(Map(WireOf, DelegatedCalls(agent, world, calls)))
  {
    hide OfKind, RunTasks, ApplyAll, Filter, Bag;
    ChildrenConserveIds(waiting, moves);
    TasksAnsweredOrPending(agent, world, turn, OfKind(world, calls, Task));
    MultisetOfMap(PendingId, waiting.pending);
    MultisetOfMap(ResolvedId, ApplyAll(waiting, moves).resolved);
    BagEmpty(PendingId);
    BagEmpty(ResolvedId);
    var resolved := Bag(ResolvedId, ApplyAll(waiting, moves).resolved);
    assert multiset{} + resolved == resolved;
    assert Bag(PendingId, waiting.pending) + multiset{} == Bag(PendingId, waiting.pending);
  }

  lemma DelegatedHandleMatches(agent: Agent, world: World, calls: seq<ToolCall>, handle: string)
    requires handle in multiset(Map(WireOf, DelegatedCalls(agent, world, calls)))
    ensures FirstMatch(calls, handle).Some?
  {
    hide DelegatedCalls;
    var delegated := DelegatedCalls(agent, world, calls);
    var i :| 0 <= i < |delegated| && WireOf(delegated[i]) == handle;
    DelegatedIsCall(agent, world, calls, delegated[i]);
    var j :| 0 <= j < |calls| && calls[j] == delegated[i];
    assert Matches(calls[j], handle);
    var k := FirstMatchIs(calls, handle);
  }

  /** What a resume appends to the conversation of a suspended turn. */
  ghost function Injected(history: seq<Message>, results: seq<(string, string)>): seq<Message> {
    if results == [] then [] else [User(ResumedAnswers(history, results))]
  }

  lemma NoAnswers()
    ensures AnswerIds([]) == multiset{}
  {}

  /** What the resumed dispatch injects carries the ids that the delegated calls' handles find. */
  lemma InjectedIds(agent: Agent, world: World, history: seq<Message>, k: nat, calls: seq<ToolCall>,
                    resolved: seq<ResolvedToolResult>, results: seq<(string, string)>)
    requires LastTurn(history, k, calls)
    requires multiset(Map(ResolvedId, resolved)) == multiset(Map(WireOf, DelegatedCalls(agent, world, calls)))
    requires Map(Handle, results) == Map(ResolvedId, resolved)
    ensures AnswerIds(Injected(history, results)) == Bag(FindsFor(calls), DelegatedCalls(agent, world, calls))
  {
    hide DelegatedCalls, FirstMatch, AnswerIds;
    var delegated := DelegatedCalls(agent, world, calls);
    forall i | 0 <= i < |results| ensures FirstMatch(calls, results[i].0).Some? {
      assert Map(Handle, results)[i] in multiset(Map(ResolvedId, resolved));
      DelegatedHandleMatches(agent, world, calls, results[i].0);
    }
    ResumedAnswerIds(history, k, calls, results);
    BagUnordered(Finds(calls), Map(Handle, results), Map(WireOf, delegated));
    BagOfMap(Finds(calls), WireOf, FindsFor(calls), delegated);
    NoAnswers();
    BagEmpty(Finds(calls));
    if results == [] { assert Map(Handle, results) == []; }
  }

  lemma RoutedAnswersAreUser(agent: Agent, world: World, turn: nat, calls: seq<ToolCall>)
    requires OfKind(world, calls, AskUser) == [] ==> RunTasks(agent, world, turn, OfKind(world, calls, Task)).ok
    ensures forall m :: m in RoutedAnswers(agent, world, turn, calls) ==> m.User?
  {
    hide OfKind, Filter, RunTasks;
    var unknowns := UnknownAnswers(OfKind(world, calls, Unknown));
    var mcps := McpAnswers(world, turn, OfKind(world, calls, Mcp));
    assert forall i :: 0 <= i < |unknowns| ==> unknowns[i].User?;
    forall i | 0 <= i < |mcps| ensures mcps[i].User? {
      assert mcps[i] == AnswerMessage(OfKind(world, calls, Mcp)[i], world.mcp(turn, i));
    }
    if OfKind(world, calls, AskUser) == [] {
      TasksAnsweredOrPending(agent, world, turn, OfKind(world, calls, Task));
      var refusals := RunTasks(agent, world, turn, OfKind(world, calls, Task)).answers;
      forall i | 0 <= i < |refusals| ensures refusals[i].User? {
        assert AnswersCall(refusals[i], Filter(IsRefused(agent), OfKind(world, calls, Task))[i]);
      }
    }
  }

  /** The conversation a suspended turn resumes with: its answers so far, then the injected results. */
  lemma ResumedHistory(agent: Agent, st: Saved, answers: seq<Message>, after: Saved)
    requires agent.codec.Faithful() && AllInert(st.messages)
    requires after.messages == st.messages + agent.Encoded(answers)
    ensures var results := EffectiveResults(after, []);
      History(agent, Resumed(agent, after, [])) == History(agent, st) + answers +
        Injected(History(agent, st) + answers, results)
  {
    ParseAppended(agent.codec, st.messages, answers);
    EncodedIsInert(agent, answers);
    InertIsUntouched(after.messages, agent.lift);
    var results := EffectiveResults(after, []);
    if results != [] {
      ParseAppended(agent.codec, after.messages, [User(ResumedAnswers(History(agent, st) + answers, results))]);
    }
  }

  lemma CancelLeft<A>(m: multiset<A>, n: multiset<A>, k: multiset<A>)
    ensures m + n == m + k <==> n == k
  {
    assert n == (m + n) - m && k == (m + k) - m;
  }

  lemma SuspendedOnTasks(agent: Agent, world: World, st: Saved, calls: seq<ToolCall>, waiting: Saved)
    requires OfKind(world, calls, AskUser) == []
    requires RouteCalls(agent, world, st, calls) == Stop(Ok(WaitingForTools(waiting)))
    ensures var run := RunTasks(agent, world, st.turn, OfKind(world, calls, Task));
      run.ok && waiting.pending == st.pending + run.pending && waiting.resolved == st.resolved
    ensures waiting.messages == st.messages + agent.Encoded(RoutedAnswers(agent, world, st.turn, calls))
  {
    RoutingAppends(agent, world, st, calls);
    hide OfKind, RunTasks, RoutedAnswers, UnknownAnswers, McpAnswers;
  }

  /** The calls of the assistant message that ends `st` suspended the step in `waiting`, on child jobs alone. */
  ghost predicate SuspendedAt(agent: Agent, world: World, st: Saved, calls: seq<ToolCall>, waiting: Saved) {
    && AllInert(st.messages) && st.pending == [] && st.resolved == []
    && History(agent, st) != [] && LastTurn(History(agent, st), |History(agent, st)| - 1, calls)
    && OfKind(world, calls, AskUser) == []
    && RouteCalls(agent, world, st, calls) == Stop(Ok(WaitingForTools(waiting)))
  }

  /** The moves finish every child job. */
  ghost predicate AllDone(waiting: Saved, moves: seq<Move>) {
    (forall m :: m in moves ==> m.ChildDone?) && ApplyAll(waiting, moves).pending == []
  }

  /** The conversation once the jobs finished and the step resumed: as before, what the turn answered at once, and
      the results the state collected. */
  lemma ResumedTurn(agent: Agent, world: World, st: Saved, calls: seq<ToolCall>, waiting: Saved, moves: seq<Move>)
    requires agent.codec.Faithful() && SuspendedAt(agent, world, st, calls, waiting) && AllDone(waiting, moves)
    ensures var before, after := History(agent, st), ApplyAll(waiting, moves);
      var answers := RoutedAnswers(agent, world, st.turn, calls);
      && History(agent, Resumed(agent, after, []))
         == before + answers + Injected(before + answers, Map(ResultPair, after.resolved))
      && LastTurn(before + answers, |before| - 1, calls)
    ensures RunTasks(agent, world, st.turn, OfKind(world, calls, Task)).ok && waiting.resolved == []
    ensures waiting.pending == RunTasks(agent, world, st.turn, OfKind(world, calls, Task)).pending
  {
    hide RoutedAnswers, Resumed, ApplyAll, ParseHistory, RouteCalls, RunTasks, OfKind, CallsOf;
    var answers := RoutedAnswers(agent, world, st.turn, calls);
    SuspendedOnTasks(agent, world, st, calls, waiting);
    assert [] + waiting.pending == waiting.pending;
    var after := ApplyAll(waiting, moves);
    MovesKeepConversation(waiting, moves);
    ResumedHistory(agent, st, answers, after);
    RoutedAnswersAreUser(agent, world, st.turn, calls);
    assert EffectiveResults(after, []) == Map(ResultPair, after.resolved);
  }

  /** A turn with no `ask_user` that suspended on child jobs, once they all finished, in whatever order,
      and the step resumed: the results that follow the assistant message carry each call's own id exactly
      once, if and only if no delegated call is shadowed. */
  lemma SuspendedTurnAnsweredIff(agent: Agent, world: World, st: Saved, calls: seq<ToolCall>, waiting: Saved,
                                 moves: seq<Move>)
    requires agent.codec.Faithful() && SuspendedAt(agent, world, st, calls, waiting) && AllDone(waiting, moves)
    requires DistinctIds(calls)
    ensures var before, now := History(agent, st), History(agent, Resumed(agent, ApplyAll(waiting, moves), []));
      before <= now && (AnswerIds(now[|before|..]) == CallIds(calls) <==> NoneShadowed(agent, world, calls))
  {
    hide AnswerIds, CallIds, NoneShadowed, DelegatedCalls, RoutedAnswers, Resumed, ApplyAll, ParseHistory, DistinctIds;
    hide RouteCalls, RunTasks, OfKind, Bag, CallsOf, Injected;
    var answers, delegated := RoutedAnswers(agent, world, st.turn, calls), DelegatedCalls(agent, world, calls);
    var before, after := History(agent, st), ApplyAll(waiting, moves);
    ResumedTurn(agent, world, st, calls, waiting, moves);
    ResolvedHandles(agent, world, st.turn, calls, waiting, moves);
    var results := Map(ResultPair, after.resolved);
    assert Map(Handle, results) == Map(ResolvedId, after.resolved);
    InjectedIds(agent, world, before + answers, |before| - 1, calls, after.resolved, results);
    SuffixIds(before, answers, results);
    TurnAnswersTheRest(agent, world, st.turn, calls);
    CancelLeft(AnswerIds(answers), Bag(FindsFor(calls), delegated), CallIds(delegated));
    HandlesFindTheirCallsIff(agent, world, calls);
  }

  lemma SuffixIds(before: seq<Message>, answers: seq<Message>, results: seq<(string, string)>)
    ensures var injected := Injected(before + answers, results);
      AnswerIds((before + answers + injected)[|before|..]) == AnswerIds(answers) + AnswerIds(injected)
  {
    hide AnswerIds;
    var injected := Injected(before + answers, results);
    assert (before + answers + injected)[|before|..] == answers + injected;
    AnswerIdsConcat(answers, injected);
  }

  /** A turn with no `ask_user` and no child job has answered every call before the next request. */
  lemma ContinuedTurnIsAnswered(agent: Agent, world: World, st: Saved, calls: seq<ToolCall>, next: Saved)
    requires agent.codec.Faithful() && OfKind(world, calls, AskUser) == []
    requires RouteCalls(agent, world, st, calls) == Continue(next)
    ensures var before, now := History(agent, st), History(agent, next);
      before <= now && AnswerIds(now[|before|..]) == CallIds(calls)
  {
    hide AnswerIds, CallIds, ParseHistory, RoutedAnswers;
    var before, answers := History(agent, st), RoutedAnswers(agent, world, st.turn, calls);
    RoutingAppends(agent, world, st, calls);
    ParseAppended(agent.codec, st.messages, answers);
    assert (before + answers)[|before|..] == answers;
    TurnAnswersTheRest(agent, world, st.turn, calls);
    NothingDelegated(agent, world, calls);
  }

  lemma NothingDelegated(agent: Agent, world: World, calls: seq<ToolCall>)
    requires OfKind(world, calls, Task) == []
    ensures CallIds(DelegatedCalls(agent, world, calls)) == multiset{}
  {}

  /** The same, from the model's reply to the next request: the conversation continues with the reply and
      then with exactly one result for each of its calls, if and only if no delegated call is shadowed. */
  lemma NextRequestAnswersTheTurnIff(agent: Agent, world: World, now: Saved, reply: Reply, waiting: Saved,
                                     moves: seq<Move>)
    requires agent.codec.Faithful() && AllInert(now.messages) && now.turn >= 1
    requires now.pending == [] && now.resolved == []
    requires CallsOf(reply.choice) != [] && DistinctIds(CallsOf(reply.choice))
    requires OfKind(world, CallsOf(reply.choice), AskUser) == []
    requires HandleReply(agent, world, now, reply) == Stop(Ok(WaitingForTools(waiting))) && AllDone(waiting, moves)
    ensures var sent := Asked(agent, now) + [Assistant(reply.id, reply.choice)];
      var next := Request(agent, Resumed(agent, ApplyAll(waiting, moves), []).(turn := now.turn + 1));
      sent <= next && (AnswerIds(next[|sent|..]) == CallIds(CallsOf(reply.choice))
                       <==> NoneShadowed(agent, world, CallsOf(reply.choice)))
  {
    hide AnswerIds, CallIds, NoneShadowed, Resumed, RouteCalls, OfKind, DistinctIds, CallsOf, ApplyAll;
    var received := ReceivedReply(agent, now, reply);
    SuspendedTurnAnsweredIff(agent, world, received, CallsOf(reply.choice), waiting, moves);
  }

  /** The state the reply was saved in, and its last turn. */
  lemma ReceivedReply(agent: Agent, now: Saved, reply: Reply) returns (received: Saved)
    requires agent.codec.Faithful()
    ensures received == Received(agent, now, reply)
    ensures History(agent, received) == Asked(agent, now) + [Assistant(reply.id, reply.choice)]
    ensures AllInert(now.messages) ==> AllInert(received.messages)
    ensures LastTurn(History(agent, received), |History(agent, received)| - 1, CallsOf(reply.choice))
  {
    received := Received(agent, now, reply);
    assert received.messages + agent.Encoded([]) == received.messages;
    SavedMessagesAreAppended(agent, now, reply, [], received);
    var sent := Asked(agent, now) + [Assistant(reply.id, reply.choice)];
    assert sent + [] == sent;
  }

  lemma SuspendedOnUser(agent: Agent, world: World, st: Saved, calls: seq<ToolCall>, waiting: Saved, message: string)
    requires RouteCalls(agent, world, st, calls) == Stop(Ok(WaitingForUser(waiting, message)))
    ensures var asks := OfKind(world, calls, AskUser);
      && asks != [] && waiting.askUserCall == Some(AskUserCall(WireOf(asks[|asks| - 1]), message))
      && waiting.resolved == st.resolved
    ensures waiting.messages == st.messages + agent.Encoded(RoutedAnswers(agent, world, st.turn, calls))
  {
    RoutingAppends(agent, world, st, calls);
    hide OfKind, RunTasks, RoutedAnswers, UnknownAnswers, McpAnswers;
  }

  /** A turn that asked the user, once they answered and the step resumed: the conversation continues with what the
      turn answered at once and then the user's text, as the result of the last `ask_user` call if and only if that
      call is not shadowed. */
  lemma UserAnswerPairsIff(agent: Agent, world: World, st: Saved, calls: seq<ToolCall>, j: nat, waiting: Saved,
                           message: string, text: string)
    requires agent.codec.Faithful() && AllInert(st.messages) && st.resolved == []
    requires History(agent, st) != [] && LastTurn(History(agent, st), |History(agent, st)| - 1, calls)
    requires RouteCalls(agent, world, st, calls) == Stop(Ok(WaitingForUser(waiting, message)))
    requires j < |calls|
    requires var asks := OfKind(world, calls, AskUser); asks != [] && calls[j] == asks[|asks| - 1]
    ensures var now := History(agent, Resumed(agent, Apply(waiting, UserAnswered(text)), []));
      exists k :: 0 <= k <= j && (k == j <==> !Shadowed(calls, j))
        && now == History(agent, st) + RoutedAnswers(agent, world, st.turn, calls) + [AnswerMessage(calls[k], text)]
  {
    hide RouteCalls, OfKind, RunTasks, RoutedAnswers, Resumed, ParseHistory, CallsOf, Shadowed;
    SuspendedOnUser(agent, world, st, calls, waiting, message);
    var before, answers := History(agent, st), RoutedAnswers(agent, world, st.turn, calls);
    var after := Apply(waiting, UserAnswered(text));
    ResumedHistory(agent, st, answers, after);
    RoutedAnswersAreUser(agent, world, st.turn, calls);
    assert LastTurn(before + answers, |before| - 1, calls);
    var k := HandleFinds(calls, j);
    FindInLastTurn(before + answers, |before| - 1, calls, WireOf(calls[j]));
    assert after.resolved == [ResolvedToolResult(WireOf(calls[j]), text)];
    assert EffectiveResults(after, []) == [(WireOf(calls[j]), text)];
    assert ResumedAnswers(before + answers, [(WireOf(calls[j]), text)]) == [Answer(ResultFor(calls[k], text))];
  }

  lemma {:induction false} EachIdOnce(calls: seq<ToolCall>, j: nat)
    requires DistinctIds(calls) && j < |calls|
    ensures CallIds(calls)[calls[j].id] == 1
    decreases |calls|
  {
    var n := |calls| - 1;
    if j < n {
      EachIdOnce(calls[..n], j);
      assert calls[j].id != calls[n].id;
    } else {
      BagMembers(IdOf, calls[..n], calls[n].id);
    }
  }
}
