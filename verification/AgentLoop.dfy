/** The multi-turn agent dispatch loop: ask the model, route its tool calls,
    and suspend on child jobs or on the user. The model, the tools and the
    surroundings are oracles indexed by turn. */
module AgentLoop {
  import opened Results
  import opened Json
  import opened Bags
  import T = Text
  import opened LegacyHistory
  import opened AgentMessages
  import opened AgentState

  const DEFAULT_MAX_TURNS: nat := 25
  const TASK_PREFIX := "strom_task_"
  const NOT_INTERACTIVE :=
    "Error: ask_user is not available. The 'interactive' flag is not enabled on this action."

  datatype Agent = Agent(
    maxTurns: Option<nat>, interactive: bool, tools: seq<string>, taskInfos: seq<string>, prompt: string,
    codec: Codec, lift: Lift)
  {
    function MaxTurns(): nat {
      var wanted := if maxTurns.Some? then maxTurns.value else DEFAULT_MAX_TURNS;
      if wanted < 100 then wanted else 100
    }

    function Encoded(ms: seq<Message>): seq<Json> {
      EncodeAll(codec, ms)
    }
  }

  /** The model's answer; a counter the provider did not report is 0. */
  datatype Reply = Reply(id: Option<string>, choice: seq<AssistantContent>, input: nat, output: nat)

  /** Everything outside the loop. `mcp` and `job` are indexed by turn and by the call's place
      among the calls of its kind, `job` by the task and its input as well; `None` is a failed call. */
  datatype World = World(
    cancelled: nat -> bool,
    llm: nat -> Option<Reply>,
    isMcp: string -> bool,
    mcp: (nat, nat) -> string,
    job: (nat, nat, string, Json) -> Option<string>,
    saved: nat -> bool,
    finalOutput: string -> Option<Json>)

  datatype Outcome =
    | Completed(output: Json, totalInput: nat, totalOutput: nat, turns: nat)
    | WaitingForTools(state: Saved)
    | WaitingForUser(state: Saved, message: string)
    | Failed

  datatype DispatchError = LlmFailed | BadOutput | JobFailed | SaveFailed

  type End = Result<Outcome, DispatchError>

  // ---- Routing tool calls -----------------------------------------------------------

  datatype Kind = AskUser | Mcp | Task | Unknown

  function KindOf(world: World, call: ToolCall): Kind {
    if call.name == "ask_user" then AskUser
    else if world.isMcp(call.name) then Mcp
    else if TASK_PREFIX <= call.name then Task
    else Unknown
  }

  function IsKind(world: World, kind: Kind): ToolCall -> bool {
    call => KindOf(world, call) == kind
  }

  function OfKind(world: World, calls: seq<ToolCall>, kind: Kind): seq<ToolCall> {
    Filter(IsKind(world, kind), calls)
  }

  function ReplaceChar(s: string, from: char, to: char): string {
    seq(|s|, i requires 0 <= i < |s| => if s[i] == from then to else s[i])
  }

  /** The task a tool name stands for, or the text of the refusal. */
  function ResolveTask(agent: Agent, tool: string): Result<string, string> {
    var name := if TASK_PREFIX <= tool then tool[|TASK_PREFIX|..] else tool;
    var hyphened := ReplaceChar(name, '_', '-');
    if name !in agent.taskInfos && hyphened !in agent.taskInfos then
      Err("Error: task '" + name + "' not found")
    else
      var task := if name in agent.taskInfos then name else hyphened;
      if exists t :: t in agent.tools && (t == task || ReplaceChar(t, '-', '_') == name)
      then Ok(task)
      else Err("Error: task '" + task + "' is not in the allowed tool set")
  }

  /** No job is created but for a task the agent knows and is allowed, up to the spelling of `-` and `_`. */
  lemma ResolvedTaskIsAllowed(agent: Agent, tool: string, task: string)
    requires ResolveTask(agent, tool) == Ok(task)
    ensures task in agent.taskInfos
    ensures exists t :: t in agent.tools && ReplaceChar(t, '-', '_') == ReplaceChar(task, '-', '_')
  {
    var name := if TASK_PREFIX <= tool then tool[|TASK_PREFIX|..] else tool;
    var t :| t in agent.tools && (t == task || ReplaceChar(t, '-', '_') == name);
    if t != task {
      assert ReplaceChar(task, '-', '_') == name;
    }
  }

  function AnswerMessage(call: ToolCall, text: string): Message {
    User([Answer(ResultFor(call, text))])
  }

  function UnknownAnswers(calls: seq<ToolCall>): seq<Message> {
    seq(|calls|, i requires 0 <= i < |calls| =>
      AnswerMessage(calls[i], "Error: unknown tool '" + calls[i].name + "'"))
  }

  function McpAnswers(world: World, turn: nat, calls: seq<ToolCall>): seq<Message> {
    seq(|calls|, i requires 0 <= i < |calls| => AnswerMessage(calls[i], world.mcp(turn, i)))
  }

  /** The input a child job gets: the call's arguments, if they are an object. */
  function JobInput(call: ToolCall): (input: Json)
    ensures input.Obj? && (call.arguments.Obj? ==> input == call.arguments)
    ensures !call.arguments.Obj? ==> input.fields == map[]
  {
    if call.arguments.Obj? then call.arguments else Obj(map[])
  }

  /** What the task calls of a turn lead to: refusals answered at once, child jobs left pending. */
  datatype TaskRun = TaskRun(answers: seq<Message>, pending: seq<PendingToolCall>, ok: bool)

  function RunTasks(agent: Agent, world: World, turn: nat, tasks: seq<ToolCall>): TaskRun {
    if tasks == [] then TaskRun([], [], true)
    else
      var call := tasks[|tasks| - 1];
      var before := RunTasks(agent, world, turn, tasks[..|tasks| - 1]);
      if !before.ok then before
      else
        match ResolveTask(agent, call.name)
        case Err(text) => before.(answers := before.answers + [AnswerMessage(call, text)])
        case Ok(task) =>
          match world.job(turn, |tasks| - 1, task, JobInput(call))
          case None => before.(ok := false)
          case Some(child) =>
            before.(pending := before.pending + [PendingToolCall(WireId(call.id), call.name, child)])
  }

  function AskMessage(call: ToolCall): string {
    match AsStr(Get(call.arguments, "message"))
    case Some(text) => text
    case None => "Please provide input"
  }

  // ---- One turn -----------------------------------------------------------------------

  datatype TurnEnd = Continue(next: Saved) | Stop(end: End)

  /** Routes the calls of a turn whose assistant message is already saved. */
  function RouteCalls(agent: Agent, world: World, st: Saved, calls: seq<ToolCall>): TurnEnd {
    var asks, tasks := OfKind(world, calls, AskUser), OfKind(world, calls, Task);
    var answered := st.(messages := st.messages
      + agent.Encoded(UnknownAnswers(OfKind(world, calls, Unknown)))
      + agent.Encoded(McpAnswers(world, st.turn, OfKind(world, calls, Mcp))));
    if asks != [] then
      var call := asks[|asks| - 1];
      if !agent.interactive then
        Continue(answered.(messages := answered.messages + agent.Encoded([AnswerMessage(call, NOT_INTERACTIVE)])))
      else
        var asking := answered.(suspendedForAskUser := true,
                                askUserCall := Some(AskUserCall(WireId(call.id), AskMessage(call))));
        Stop(if world.saved(st.turn) then Ok(WaitingForUser(asking, AskMessage(call))) else Err(SaveFailed))
    else if tasks != [] then
      var run := RunTasks(agent, world, st.turn, tasks);
      var waiting := answered.(messages := answered.messages + agent.Encoded(run.answers),
                               pending := answered.pending + run.pending);
      Stop(if !run.ok then Err(JobFailed)
           else if world.saved(st.turn) then Ok(WaitingForTools(waiting))
           else Err(SaveFailed))
    else
      Continue(answered)
  }

  function PromptMessage(agent: Agent): Message {
    User([Prompt(agent.prompt)])
  }

  /** Sent, but not saved, when there is nothing else to send. */
  const CONTINUE := User([Prompt("Continue.")])

  /** The conversation sent to the model on turn `st.turn`. */
  function Request(agent: Agent, st: Saved): seq<Message> {
    var history := ParseHistory(agent.codec, st.messages);
    if st.turn == 1 then history + [PromptMessage(agent)]
    else if history == [] then [CONTINUE]
    else history
  }

  function Texts(choice: seq<AssistantContent>): seq<string> {
    if choice == [] then []
    else (if choice[0].Text? then [choice[0].text] else []) + Texts(choice[1..])
  }

  /** The state once the model's reply is counted and saved. */
  function Received(agent: Agent, st: Saved, reply: Reply): Saved {
    st.(totalInput := st.totalInput + reply.input,
        totalOutput := st.totalOutput + reply.output,
        messages := st.messages
          + agent.Encoded((if st.turn == 1 then [PromptMessage(agent)] else []) + [Assistant(reply.id, reply.choice)]))
  }

  function HandleReply(agent: Agent, world: World, st: Saved, reply: Reply): TurnEnd {
    var received, calls := Received(agent, st, reply), CallsOf(reply.choice);
    if calls == [] then
      var output := world.finalOutput(T.Join(Texts(reply.choice), "\n"));
      Stop(if output.Some?
           then Ok(Completed(output.value, received.totalInput, received.totalOutput, received.turn))
           else Err(BadOutput))
    else RouteCalls(agent, world, received, calls)
  }

  // ---- The loop ---------------------------------------------------------------------------

  /** How a dispatch ended, and every conversation it sent to the model. */
  datatype Trace = Trace(end: End, requests: seq<seq<Message>>)
  {
    /** The same trace with earlier requests in front. */
    function Preceded(earlier: seq<seq<Message>>): Trace {
      Trace(end, earlier + requests)
    }
  }

  function Loop(agent: Agent, world: World, st: Saved): Trace
    decreases agent.MaxTurns() + 1 - st.turn
  {
    var now := st.(turn := st.turn + 1);
    if world.cancelled(now.turn) || now.turn > agent.MaxTurns() then Trace(Ok(Failed), [])
    else
      var request := Request(agent, now);
      match world.llm(now.turn)
      case None => Trace(Err(LlmFailed), [request])
      case Some(reply) =>
        match HandleReply(agent, world, now, reply)
        case Stop(end) => Trace(end, [request])
        case Continue(next) =>
          assert next.turn == now.turn;
          Loop(agent, world, next).Preceded([request])
  }

  /** The results to inject on resume: those passed in, otherwise those collected in the state. */
  function EffectiveResults(st: Saved, results: seq<(string, string)>): seq<(string, string)> {
    if results != [] then results
    else seq(|st.resolved|, i requires 0 <= i < |st.resolved| => (st.resolved[i].toolCallId, st.resolved[i].text))
  }

  function ResumedAnswers(history: seq<Message>, results: seq<(string, string)>): seq<UserContent> {
    seq(|results|, i requires 0 <= i < |results| =>
      Answer(ResumedToolResult(history, results[i].0, results[i].1)))
  }

  /** The state the loop starts from: legacy history lifted, collected results injected. */
  ghost function Resumed(agent: Agent, st: Saved, results: seq<(string, string)>): Saved {
    var lifted := Lifted(st.messages, agent.lift);
    var effective := EffectiveResults(st, results);
    if effective == [] then st.(messages := lifted)
    else
      var answer := User(ResumedAnswers(ParseHistory(agent.codec, lifted), effective));
      st.(messages := lifted + agent.Encoded([answer]), resolved := if results == [] then [] else st.resolved)
  }

  ghost function Dispatch(agent: Agent, world: World, resume: Option<Saved>, results: seq<(string, string)>): Trace {
    Loop(agent, world, Resumed(agent, if resume.Some? then resume.value else NEW_STATE, results))
  }

  // ---- The loop as it runs ------------------------------------------------------------------

  method Resume(agent: Agent, conv: AgentConversationState, results: seq<(string, string)>)
    modifies conv
    ensures conv.Save() == Resumed(agent, old(conv.Save()), results)
  {
    var ms := conv.messages;
    var saved := new Json[|ms|](i requires 0 <= i < |ms| => ms[i]);
    assert saved[..] == ms;
    Upgrade(saved, agent.lift);
    conv.messages := saved[..];
    var effective := EffectiveResults(conv.Save(), results);
    if effective != [] {
      var answer := User(ResumedAnswers(ParseHistory(agent.codec, conv.messages), effective));
      conv.messages := conv.messages + agent.Encoded([answer]);
      if results == [] {
        conv.resolved := [];
      }
    }
  }

  lemma UnknownAnswersPush(agent: Agent, calls: seq<ToolCall>, call: ToolCall)
    ensures agent.Encoded(UnknownAnswers(calls + [call]))
         == agent.Encoded(UnknownAnswers(calls))
            + [agent.codec.encode(AnswerMessage(call, "Error: unknown tool '" + call.name + "'"))]
  {}

  /** The calls of each kind, in order. */
  datatype Sorted = Sorted(mcps: seq<ToolCall>, tasks: seq<ToolCall>, asks: seq<ToolCall>, unknowns: seq<ToolCall>)

  ghost function SortCalls(world: World, calls: seq<ToolCall>): Sorted {
    Sorted(OfKind(world, calls, Mcp), OfKind(world, calls, Task), OfKind(world, calls, AskUser),
           OfKind(world, calls, Unknown))
  }

  lemma SortPush(world: World, calls: seq<ToolCall>, call: ToolCall)
    ensures SortCalls(world, calls + [call]) ==
      var s := SortCalls(world, calls);
      match KindOf(world, call)
      case Mcp => s.(mcps := s.mcps + [call])
      case Task => s.(tasks := s.tasks + [call])
      case AskUser => s.(asks := s.asks + [call])
      case Unknown => s.(unknowns := s.unknowns + [call])
  {
    hide KindOf, Filter;
    forall kind: Kind ensures
      OfKind(world, calls + [call], kind)
      == OfKind(world, calls, kind) + if KindOf(world, call) == kind then [call] else []
    {
      FilterPush(IsKind(world, kind), calls, call);
    }
    forall kind: Kind ensures OfKind(world, calls, kind) + [] == OfKind(world, calls, kind) {}
  }

  /** Sorts the calls by kind, answering the unknown ones on the way; the last `ask_user` wins. */
  method Partition(agent: Agent, world: World, conv: AgentConversationState, calls: seq<ToolCall>)
    returns (mcps: seq<ToolCall>, tasks: seq<ToolCall>, ask: Option<ToolCall>)
    modifies conv
    ensures mcps == OfKind(world, calls, Mcp) && tasks == OfKind(world, calls, Task)
    ensures ask == var asks := OfKind(world, calls, AskUser); if asks == [] then None else Some(asks[|asks| - 1])
    ensures conv.Save() == old(conv.Save()).(messages :=
      old(conv.messages) + agent.Encoded(UnknownAnswers(OfKind(world, calls, Unknown))))
  {
    hide KindOf, OfKind, UnknownAnswers;
    mcps, tasks, ask := [], [], None;
    ghost var sorted := SortCalls(world, []);
    NoCalls(agent, world);
    for k := 0 to |calls|
      invariant sorted == SortCalls(world, calls[..k])
      invariant mcps == sorted.mcps && tasks == sorted.tasks
      invariant ask == if sorted.asks == [] then None else Some(sorted.asks[|sorted.asks| - 1])
      invariant conv.Save() == old(conv.Save()).(messages :=
        old(conv.messages) + agent.Encoded(UnknownAnswers(sorted.unknowns)))
    {
      var call := calls[k];
      assert calls[..k + 1] == calls[..k] + [call];
      SortPush(world, calls[..k], call);
      match KindOf(world, call) {
        case AskUser => ask := Some(call);
        case Mcp => mcps := mcps + [call];
        case Task => tasks := tasks + [call];
        case Unknown =>
          UnknownAnswersPush(agent, sorted.unknowns, call);
          var answer := AnswerMessage(call, "Error: unknown tool '" + call.name + "'");
          conv.messages := conv.messages + [agent.codec.encode(answer)];
      }
      sorted := SortCalls(world, calls[..k + 1]);
    }
    assert calls[..|calls|] == calls;
  }

  lemma NoCalls(agent: Agent, world: World)
    ensures SortCalls(world, []) == Sorted([], [], [], [])
    ensures agent.Encoded(UnknownAnswers([])) == []
  {}

  method CallMcpTools(agent: Agent, world: World, conv: AgentConversationState, mcps: seq<ToolCall>)
    modifies conv
    ensures conv.Save() == old(conv.Save()).(messages :=
      old(conv.messages) + agent.Encoded(McpAnswers(world, old(conv.turn), mcps)))
  {
    for k := 0 to |mcps|
      invariant conv.Save() == old(conv.Save()).(messages :=
        old(conv.messages) + agent.Encoded(McpAnswers(world, conv.turn, mcps[..k])))
    {
      var answer := AnswerMessage(mcps[k], world.mcp(conv.turn, k));
      assert McpAnswers(world, conv.turn, mcps[..k + 1]) == McpAnswers(world, conv.turn, mcps[..k]) + [answer];
      EncodePush(agent.codec, McpAnswers(world, conv.turn, mcps[..k]), answer);
      conv.messages := conv.messages + [agent.codec.encode(answer)];
    }
    assert mcps[..|mcps|] == mcps;
  }

  lemma {:induction false} FailedTasksStayFailed(agent: Agent, world: World, turn: nat, tasks: seq<ToolCall>, k: nat)
    requires k <= |tasks| && !RunTasks(agent, world, turn, tasks[..k]).ok
    ensures !RunTasks(agent, world, turn, tasks).ok
    decreases |tasks|
  {
    if k < |tasks| {
      assert tasks[..|tasks| - 1][..k] == tasks[..k];
      FailedTasksStayFailed(agent, world, turn, tasks[..|tasks| - 1], k);
    } else {
      assert tasks[..k] == tasks;
    }
  }

  lemma RunNoTasks(agent: Agent, world: World, turn: nat)
    ensures RunTasks(agent, world, turn, []) == TaskRun([], [], true)
    ensures agent.Encoded([]) == []
  {}

  lemma RunOneMore(agent: Agent, world: World, turn: nat, tasks: seq<ToolCall>, k: nat)
    requires k < |tasks| && RunTasks(agent, world, turn, tasks[..k]).ok
    ensures RunTasks(agent, world, turn, tasks[..k + 1]) ==
      var before, task, job :=
        RunTasks(agent, world, turn, tasks[..k]), ResolveTask(agent, tasks[k].name),
        (task: string) => world.job(turn, k, task, JobInput(tasks[k]));
      if task.Err? then before.(answers := before.answers + [AnswerMessage(tasks[k], task.error)])
      else if job(task.value).None? then before.(ok := false)
      else before.(pending :=
        before.pending + [PendingToolCall(WireId(tasks[k].id), tasks[k].name, job(task.value).value)])
  {
    hide ResolveTask;
    assert tasks[..k + 1][..k] == tasks[..k];
  }

  method CreateJobs(agent: Agent, world: World, conv: AgentConversationState, tasks: seq<ToolCall>) returns (ok: bool)
    modifies conv
    ensures ok == RunTasks(agent, world, old(conv.turn), tasks).ok
    ensures ok ==> conv.Save() == var run := RunTasks(agent, world, old(conv.turn), tasks);
      old(conv.Save()).(messages := old(conv.messages) + agent.Encoded(run.answers),
                        pending := old(conv.pending) + run.pending)
  {
    hide ResolveTask, RunTasks, EncodeAll;
    RunNoTasks(agent, world, old(conv.turn));
    for k := 0 to |tasks|
      invariant RunTasks(agent, world, old(conv.turn), tasks[..k]).ok
      invariant conv.Save() == var run := RunTasks(agent, world, old(conv.turn), tasks[..k]);
        old(conv.Save()).(messages := old(conv.messages) + agent.Encoded(run.answers),
                          pending := old(conv.pending) + run.pending)
    {
      var call := tasks[k];
      RunOneMore(agent, world, old(conv.turn), tasks, k);
      var task := ResolveTask(agent, call.name);
      if task.Err? {
        var answer := AnswerMessage(call, task.error);
        EncodePush(agent.codec, RunTasks(agent, world, old(conv.turn), tasks[..k]).answers, answer);
        conv.messages := conv.messages + [agent.codec.encode(answer)];
      } else {
        var child := world.job(conv.turn, k, task.value, JobInput(call));
        if child.None? {
          FailedTasksStayFailed(agent, world, old(conv.turn), tasks, k + 1);
          return false;
        }
        conv.pending := conv.pending + [PendingToolCall(WireId(call.id), call.name, child.value)];
      }
    }
    assert tasks[..|tasks|] == tasks;
    ok := true;
  }

  method Route(agent: Agent, world: World, conv: AgentConversationState, calls: seq<ToolCall>)
    returns (stop: Option<End>)
    modifies conv
    ensures stop.None? ==> RouteCalls(agent, world, old(conv.Save()), calls) == Continue(conv.Save())
    ensures stop.Some? ==> RouteCalls(agent, world, old(conv.Save()), calls) == Stop(stop.value)
  {
    hide OfKind, RunTasks, EncodeAll, UnknownAnswers, McpAnswers;
    var mcps, tasks, ask := Partition(agent, world, conv, calls);
    CallMcpTools(agent, world, conv, mcps);
    if ask.Some? {
      var call := ask.value;
      if !agent.interactive {
        conv.messages := conv.messages + agent.Encoded([AnswerMessage(call, NOT_INTERACTIVE)]);
        return None;
      }
      conv.suspendedForAskUser := true;
      conv.askUserCall := Some(AskUserCall(WireId(call.id), AskMessage(call)));
      if !world.saved(conv.turn) {
        return Some(Err(SaveFailed));
      }
      return Some(Ok(WaitingForUser(conv.Save(), AskMessage(call))));
    }
    if tasks != [] {
      var ok := CreateJobs(agent, world, conv, tasks);
      if !ok {
        return Some(Err(JobFailed));
      }
      if !world.saved(conv.turn) {
        return Some(Err(SaveFailed));
      }
      return Some(Ok(WaitingForTools(conv.Save())));
    }
    stop := None;
  }

  /** Counts and saves the reply, then finishes or routes its calls. */
  method Handle(agent: Agent, world: World, conv: AgentConversationState, reply: Reply) returns (stop: Option<End>)
    modifies conv
    ensures stop.None? ==> HandleReply(agent, world, old(conv.Save()), reply) == Continue(conv.Save())
    ensures stop.Some? ==> HandleReply(agent, world, old(conv.Save()), reply) == Stop(stop.value)
  {
    hide RouteCalls, CallsOf, Texts, T.Join, EncodeAll;
    conv.totalInput := conv.totalInput + reply.input;
    conv.totalOutput := conv.totalOutput + reply.output;
    var said := (if conv.turn == 1 then [PromptMessage(agent)] else []) + [Assistant(reply.id, reply.choice)];
    conv.messages := conv.messages + agent.Encoded(said);
    var calls := CallsOf(reply.choice);
    if calls != [] {
      stop := Route(agent, world, conv, calls);
      return;
    }
    var output := world.finalOutput(T.Join(Texts(reply.choice), "\n"));
    if output.None? {
      return Some(Err(BadOutput));
    }
    stop := Some(Ok(Completed(output.value, conv.totalInput, conv.totalOutput, conv.turn)));
  }

  lemma PrecededTwice(t: Trace, earlier: seq<seq<Message>>, first: seq<Message>)
    ensures t.Preceded([first]).Preceded(earlier) == t.Preceded(earlier + [first])
  {
    assert earlier + ([first] + t.requests) == (earlier + [first]) + t.requests;
  }

  lemma ContinueKeepsTurn(agent: Agent, world: World, st: Saved, reply: Reply)
    ensures HandleReply(agent, world, st, reply).Continue? ==> HandleReply(agent, world, st, reply).next.turn == st.turn
  {
    hide OfKind, RunTasks, CallsOf, EncodeAll, UnknownAnswers, McpAnswers;
  }

  lemma LoopGoesOn(agent: Agent, world: World, st: Saved, next: Saved)
    requires !world.cancelled(st.turn + 1) && st.turn + 1 <= agent.MaxTurns() && world.llm(st.turn + 1).Some?
    requires HandleReply(agent, world, st.(turn := st.turn + 1), world.llm(st.turn + 1).value) == Continue(next)
    ensures next.turn == st.turn + 1
    ensures Loop(agent, world, st) == Loop(agent, world, next).Preceded([Request(agent, st.(turn := st.turn + 1))])
  {
    ContinueKeepsTurn(agent, world, st.(turn := st.turn + 1), world.llm(st.turn + 1).value);
    hide HandleReply, Request;
  }

  /** One turn of the loop. */
  method Turn(agent: Agent, world: World, conv: AgentConversationState, requests: seq<seq<Message>>)
    returns (end: Option<End>, requests': seq<seq<Message>>)
    modifies conv
    ensures end.Some? ==> old(Loop(agent, world, conv.Save())).Preceded(requests) == Trace(end.value, requests')
    ensures end.None? ==> conv.turn == old(conv.turn) + 1 <= agent.MaxTurns()
    ensures end.None? ==>
      old(Loop(agent, world, conv.Save())).Preceded(requests) == Loop(agent, world, conv.Save()).Preceded(requests')
  {
    hide HandleReply, Request;
    conv.turn := conv.turn + 1;
    if world.cancelled(conv.turn) || conv.turn > agent.MaxTurns() {
      return Some(Ok(Failed)), requests;
    }
    requests' := requests + [Request(agent, conv.Save())];
    var reply := world.llm(conv.turn);
    if reply.None? {
      return Some(Err(LlmFailed)), requests';
    }
    end := Handle(agent, world, conv, reply.value);
    if end.None? {
      LoopGoesOn(agent, world, old(conv.Save()), conv.Save());
      PrecededTwice(Loop(agent, world, conv.Save()), requests, Request(agent, old(conv.Save()).(turn := conv.turn)));
    }
  }

  /** Runs turns until the agent answers, suspends or fails. */
  method DispatchAgentLoop(agent: Agent, world: World, resume: Option<Saved>, results: seq<(string, string)>)
    returns (end: End, requests: seq<seq<Message>>)
    ensures Dispatch(agent, world, resume, results) == Trace(end, requests)
  {
    hide Loop, Resumed;
    var conv := new AgentConversationState.Restore(if resume.Some? then resume.value else NEW_STATE);
    Resume(agent, conv, results);
    requests := [];
    while true
      invariant Loop(agent, world, conv.Save()).Preceded(requests) == Dispatch(agent, world, resume, results)
      invariant fresh(conv)
      decreases agent.MaxTurns() - conv.turn
    {
      var stop;
      stop, requests := Turn(agent, world, conv, requests);
      if stop.Some? {
        return stop.value, requests;
      }
    }
  }
}
