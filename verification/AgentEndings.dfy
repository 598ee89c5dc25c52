/** How many turns a dispatch takes and how it ends, told by what the model
    replied and by what its surroundings did. */
module AgentEndings {
  import opened Results
  import opened Bags
  import opened Json
  import T = Text
  import opened LegacyHistory
  import opened AgentMessages
  import opened AgentState
  import opened AgentLoop
  import opened AgentRuns
  import opened AgentRouting

  // ---- What a reply holds -----------------------------------------------------------------------

  predicate IsCalling(c: AssistantContent) { c.Calling? }

  function CallIn(c: AssistantContent): ToolCall { if c.Calling? then c.call else ToolCall(Wire(""), "", Null) }

  predicate IsText(c: AssistantContent) { c.Text? }

  function TextIn(c: AssistantContent): string { if c.Text? then c.text else "" }

  lemma {:induction false} CallsPush(content: seq<AssistantContent>, c: AssistantContent)
    ensures CallsOf(content + [c]) == CallsOf(content) + if c.Calling? then [c.call] else []
    decreases |content|
  {
    if content == [] {
      assert (content + [c])[1..] == [];
    } else {
      assert (content + [c])[1..] == content[1..] + [c];
      CallsPush(content[1..], c);
      assert (content + [c])[0] == content[0];
      var first := if content[0].Calling? then [content[0].call] else [];
      var last := if c.Calling? then [c.call] else [];
      assert first + (CallsOf(content[1..]) + last) == (first + CallsOf(content[1..])) + last;
    }
  }

  /** The tool calls of a reply, in order. */
  lemma {:induction false} CallsInOrder(content: seq<AssistantContent>)
    ensures CallsOf(content) == Map(CallIn, Filter(IsCalling, content))
    decreases |content|
  {
    if content != [] {
      var init, last := content[..|content| - 1], content[|content| - 1];
      assert content == init + [last];
      CallsPush(init, last);
      CallsInOrder(init);
    }
  }

  lemma {:induction false} TextsPush(content: seq<AssistantContent>, c: AssistantContent)
    ensures Texts(content + [c]) == Texts(content) + if c.Text? then [c.text] else []
    decreases |content|
  {
    if content == [] {
      assert (content + [c])[1..] == [];
    } else {
      assert (content + [c])[1..] == content[1..] + [c];
      TextsPush(content[1..], c);
      assert (content + [c])[0] == content[0];
      var first := if content[0].Text? then [content[0].text] else [];
      var last := if c.Text? then [c.text] else [];
      assert first + (Texts(content[1..]) + last) == (first + Texts(content[1..])) + last;
    }
  }

  /** The texts of a reply, in order. */
  lemma {:induction false} TextsInOrder(content: seq<AssistantContent>)
    ensures Texts(content) == Map(TextIn, Filter(IsText, content))
    decreases |content|
  {
    if content != [] {
      var init, last := content[..|content| - 1], content[|content| - 1];
      assert content == init + [last];
      TextsPush(init, last);
      TextsInOrder(init);
    }
  }

  /** Some call of the reply is one that `p` takes. */
  ghost predicate Says(reply: Reply, p: ToolCall -> bool) {
    exists i :: 0 <= i < |reply.choice| && reply.choice[i].Calling? && p(reply.choice[i].call)
  }

  ghost predicate SaysCall(reply: Reply) {
    exists i :: 0 <= i < |reply.choice| && reply.choice[i].Calling?
  }

  lemma SaysIff(reply: Reply, p: ToolCall -> bool)
    ensures Says(reply, p) <==> Filter(p, CallsOf(reply.choice)) != []
    ensures SaysCall(reply) <==> CallsOf(reply.choice) != []
  {
    var calls, callings := CallsOf(reply.choice), Filter(IsCalling, reply.choice);
    CallsInOrder(reply.choice);
    hide Filter, CallsOf;
    if i :| 0 <= i < |reply.choice| && reply.choice[i].Calling? {
      FilterAt(IsCalling, reply.choice, i);
    }
    if i :| 0 <= i < |reply.choice| && reply.choice[i].Calling? && p(reply.choice[i].call) {
      FilterAt(IsCalling, reply.choice, i);
      var k := Count(IsCalling, reply.choice[..i]);
      assert calls[k] == reply.choice[i].call;
      FilterAt(p, calls, k);
    }
    if calls != [] {
      var i := FilterFrom(IsCalling, reply.choice, 0);
    }
    if Filter(p, calls) != [] {
      var k := FilterFrom(p, calls, 0);
      var i := FilterFrom(IsCalling, reply.choice, k);
    }
  }

  // ---- How a turn ends ----------------------------------------------------------------------------

  /** The dispatch goes on after the reply: it has a call, does not ask the user of an interactive agent, and hands
      nothing to a job unless a refused question takes precedence. */
  ghost predicate GoesOn(agent: Agent, world: World, reply: Reply) {
    && SaysCall(reply)
    && if Says(reply, AsksUser) then !agent.interactive else !Says(reply, ForJob(world))
  }

  /** What a call asks the user: its message, or a stock phrase. */
  ghost predicate IsQuestion(call: ToolCall, message: string) {
    if exists s :: Get(call.arguments, "message") == Some(Str(s))
    then Get(call.arguments, "message") == Some(Str(message))
    else message == "Please provide input"
  }

  /** `message` is what the last `ask_user` call asks. */
  ghost predicate Asks(calls: seq<ToolCall>, message: string) {
    exists j :: 0 <= j < |calls| && IsLastAsk(calls, j) && IsQuestion(calls[j], message)
  }

  ghost predicate IsLastAsk(calls: seq<ToolCall>, j: nat)
    requires j < |calls|
  {
    AsksUser(calls[j]) && forall i :: j < i < |calls| ==> !AsksUser(calls[i])
  }

  /** How a reply that does not go on ends the dispatch. */
  ghost predicate ReplyEnds(agent: Agent, world: World, turn: nat, reply: Reply, end: End) {
    if !SaysCall(reply) then
      match world.finalOutput(T.Join(Map(TextIn, Filter(IsText, reply.choice)), "\n"))
      case Some(output) => end.Ok? && end.value.Completed? && end.value.output == output && end.value.turns == turn
      case None => end == Err(BadOutput)
    else if Says(reply, AsksUser) then
      if world.saved(turn)
      then end.Ok? && end.value.WaitingForUser? && end.value.state.suspendedForAskUser
           && Asks(CallsOf(reply.choice), end.value.message)
      else end == Err(SaveFailed)
    else if !JobsSucceed(agent, world, turn, CallsOf(reply.choice)) then end == Err(JobFailed)
    else if world.saved(turn) then end.Ok? && end.value.WaitingForTools?
    else end == Err(SaveFailed)
  }

  lemma QuestionOf(call: ToolCall)
    ensures IsQuestion(call, AskMessage(call))
  {}

  lemma AsksItsLast(calls: seq<ToolCall>)
    requires Filter(AsksUser, calls) != []
    ensures Asks(calls, AskMessage(Filter(AsksUser, calls)[|Filter(AsksUser, calls)| - 1]))
  {
    var asks := Filter(AsksUser, calls);
    var j := FilterFrom(AsksUser, calls, |asks| - 1);
    hide Filter, Count, AskMessage, IsQuestion;
    QuestionOf(calls[j]);
    forall i | j < i < |calls| ensures !AsksUser(calls[i]) {
      if AsksUser(calls[i]) {
        FilterAt(AsksUser, calls, i);
        CountGrows(AsksUser, calls, j, i);
        FilterCount(AsksUser, calls);
      }
    }
    assert IsLastAsk(calls, j);
  }

  lemma RouteEnds(agent: Agent, world: World, st: Saved, calls: seq<ToolCall>)
    ensures var end := RouteCalls(agent, world, st, calls);
      var asks, tasks := OfKind(world, calls, AskUser), OfKind(world, calls, Task);
      && (end.Continue? <==> if asks != [] then !agent.interactive else tasks == [])
      && (end.Stop? && asks != [] ==>
            if world.saved(st.turn) then end.end.Ok? && end.end.value.WaitingForUser?
                                         && end.end.value.state.suspendedForAskUser
                                         && end.end.value.message == AskMessage(asks[|asks| - 1])
            else end.end == Err(SaveFailed))
      && (end.Stop? && asks == [] ==>
            if !RunTasks(agent, world, st.turn, tasks).ok then end.end == Err(JobFailed)
            else if world.saved(st.turn) then end.end.Ok? && end.end.value.WaitingForTools?
            else end.end == Err(SaveFailed))
  {
    hide OfKind, RunTasks, EncodeAll, UnknownAnswers, McpAnswers, AskMessage;
  }

  lemma TurnEnds(agent: Agent, world: World, now: Saved, reply: Reply)
    ensures var end := HandleReply(agent, world, now, reply);
      && (end.Continue? <==> GoesOn(agent, world, reply))
      && (end.Stop? ==> ReplyEnds(agent, world, now.turn, reply, end.end))
  {
    hide Filter, OfKind, CallsOf, RunTasks, JobsSucceed, Says, SaysCall, Asks, Texts, AskMessage, T.Join, RouteCalls;
    hide EncodeAll, Map;
    var calls := CallsOf(reply.choice);
    SaysIff(reply, AsksUser);
    SaysIff(reply, ForJob(world));
    KindsByName(world, calls);
    TextsInOrder(reply.choice);
    JobsSucceedIff(agent, world, now.turn, calls);
    if Filter(AsksUser, calls) != [] { AsksItsLast(calls); }
    RouteEnds(agent, world, Received(agent, now, reply), calls);
  }

  // ---- How a dispatch ends --------------------------------------------------------------------------

  /** The turn is taken and the dispatch goes on after it. */
  ghost predicate TurnGoesOn(agent: Agent, world: World, turn: nat) {
    !world.cancelled(turn) && world.llm(turn).Some? && GoesOn(agent, world, world.llm(turn).value)
  }

  /** The most turns a step may take: what the action allows, 25 if it does not say, and never more than 100. */
  ghost function Limit(agent: Agent): nat {
    match agent.maxTurns
    case Some(n) => if n > 100 then 100 else n
    case None => 25
  }

  /** All turns but the last go on. Either so does the last, and the next one was cancelled or is over the limit; or
      the model failed; or its reply ended the dispatch. */
  ghost predicate EndsByReplies(agent: Agent, world: World, st: Saved, trace: Trace) {
    var last := st.turn + |trace.requests|;
    && (forall t :: st.turn < t < last ==> TurnGoesOn(agent, world, t))
    && (trace.requests != [] ==> last <= Limit(agent) && !world.cancelled(last))
    && if trace.requests == [] || TurnGoesOn(agent, world, last)
       then trace.end == Ok(Failed) && (world.cancelled(last + 1) || last + 1 > Limit(agent))
       else if world.llm(last).None? then trace.end == Err(LlmFailed)
       else ReplyEnds(agent, world, last, world.llm(last).value, trace.end)
  }

  lemma EndsAfterTurn(agent: Agent, world: World, st: Saved, next: Saved, rest: Trace, request: seq<Message>)
    requires next.turn == st.turn + 1 <= Limit(agent) && TurnGoesOn(agent, world, st.turn + 1)
    requires EndsByReplies(agent, world, next, rest)
    ensures EndsByReplies(agent, world, st, rest.Preceded([request]))
  {
    NotCancelled(agent, world, st.turn + 1);
    hide TurnGoesOn, ReplyEnds;
    assert |rest.Preceded([request]).requests| == |rest.requests| + 1;
  }

  lemma {:induction false} LoopEndsByReplies(agent: Agent, world: World, st: Saved)
    ensures EndsByReplies(agent, world, st, Loop(agent, world, st))
    decreases agent.MaxTurns() + 1 - st.turn
  {
    hide HandleReply, Request, GoesOn, ReplyEnds, Received;
    var now := st.(turn := st.turn + 1);
    if !world.cancelled(now.turn) && now.turn <= agent.MaxTurns() && world.llm(now.turn).Some? {
      var reply := world.llm(now.turn).value;
      TurnEnds(agent, world, now, reply);
      match HandleReply(agent, world, now, reply)
      case Stop(end) =>
      case Continue(next) =>
        LoopGoesOn(agent, world, st, next);
        LoopEndsByReplies(agent, world, next);
        EndsAfterTurn(agent, world, st, next, Loop(agent, world, next), Request(agent, now));
    }
  }

  /** A dispatch none of whose turns is cancelled or ends it sends exactly as many requests as the limit leaves, and
      fails. */
  lemma RunsToTheLimit(agent: Agent, world: World, st: Saved)
    requires st.turn <= Limit(agent) && forall t :: st.turn < t <= Limit(agent) ==> TurnGoesOn(agent, world, t)
    ensures var trace := Loop(agent, world, st);
      |trace.requests| == Limit(agent) - st.turn && trace.end == Ok(Failed)
  {
    hide Loop, TurnGoesOn;
    LoopEndsByReplies(agent, world, st);
    forall t | st.turn < t <= Limit(agent) ensures !world.cancelled(t) { NotCancelled(agent, world, t); }
  }

  lemma NotCancelled(agent: Agent, world: World, turn: nat)
    requires TurnGoesOn(agent, world, turn)
    ensures !world.cancelled(turn)
  {}

  /** A dispatch completes exactly when the reply to its last request has no call and its texts, joined by newlines in
      order, give an output; that is its output. */
  lemma CompletesIff(agent: Agent, world: World, st: Saved, output: Json)
    ensures var trace := Loop(agent, world, st);
      var last := st.turn + |trace.requests|;
      (trace.end.Ok? && trace.end.value.Completed? && trace.end.value.output == output) <==>
        && trace.requests != [] && world.llm(last).Some? && !SaysCall(world.llm(last).value)
        && world.finalOutput(T.Join(Map(TextIn, Filter(IsText, world.llm(last).value.choice)), "\n")) == Some(output)
  {
    hide Loop, Says, SaysCall, Filter, Map, T.Join, JobsSucceed, Asks;
    LoopEndsByReplies(agent, world, st);
  }
}
