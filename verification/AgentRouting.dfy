/** What a turn does with each call, told by its name and its place among the
    calls, and how a dispatch ends, told by what the model replied. */
module AgentRouting {
  import opened Results
  import opened Bags
  import opened Json
  import T = Text
  import opened LegacyHistory
  import opened AgentMessages
  import opened AgentState
  import opened AgentLoop
  import opened AgentRuns

  // ---- Calls by name -------------------------------------------------------------------------

  predicate AsksUser(call: ToolCall) { call.name == "ask_user" }

  ghost function ForServer(world: World): ToolCall -> bool {
    (call: ToolCall) => call.name != "ask_user" && world.isMcp(call.name)
  }

  ghost function ForJob(world: World): ToolCall -> bool {
    (call: ToolCall) => call.name != "ask_user" && !world.isMcp(call.name) && "strom_task_" <= call.name
  }

  ghost function ForNobody(world: World): ToolCall -> bool {
    (call: ToolCall) => call.name != "ask_user" && !world.isMcp(call.name) && !("strom_task_" <= call.name)
  }

  lemma KindsByName(world: World, calls: seq<ToolCall>)
    ensures OfKind(world, calls, AskUser) == Filter(AsksUser, calls)
    ensures OfKind(world, calls, Mcp) == Filter(ForServer(world), calls)
    ensures OfKind(world, calls, Task) == Filter(ForJob(world), calls)
    ensures OfKind(world, calls, Unknown) == Filter(ForNobody(world), calls)
  {
    hide Filter;
    FilterAgree(IsKind(world, AskUser), AsksUser, calls);
    FilterAgree(IsKind(world, Mcp), ForServer(world), calls);
    FilterAgree(IsKind(world, Task), ForJob(world), calls);
    FilterAgree(IsKind(world, Unknown), ForNobody(world), calls);
  }

  /** The result of a call: its own id, its tool's name, and the text. */
  ghost function ResultOf(call: ToolCall, text: string): Message {
    User([Answer(ToolResult(call.id, call.name, text))])
  }

  // ---- What is answered at once ------------------------------------------------------------------

  /** Among the answers of a turn, first come those to calls for nobody, then those of the tool servers, each in the
      order of the calls; a server is asked with the number of its calls before. */
  lemma AnsweredByName(agent: Agent, world: World, turn: nat, calls: seq<ToolCall>, j: nat)
    requires j < |calls|
    ensures var answers, nobody := RoutedAnswers(agent, world, turn, calls), Count(ForNobody(world), calls);
      && nobody + Count(ForServer(world), calls) <= |answers|
      && (ForNobody(world)(calls[j]) ==>
            var k := Count(ForNobody(world), calls[..j]);
            k < nobody && answers[k] == ResultOf(calls[j], "Error: unknown tool '" + calls[j].name + "'"))
      && (ForServer(world)(calls[j]) ==>
            var k := Count(ForServer(world), calls[..j]);
            k < Count(ForServer(world), calls) && answers[nobody + k] == ResultOf(calls[j], world.mcp(turn, k)))
  {
    KindsByName(world, calls);
    FilterCount(ForNobody(world), calls);
    FilterCount(ForServer(world), calls);
    if ForNobody(world)(calls[j]) { FilterAt(ForNobody(world), calls, j); }
    if ForServer(world)(calls[j]) { FilterAt(ForServer(world), calls, j); }
    hide OfKind, Filter, Count, RunTasks, ForNobody, ForServer;
  }

  /** What a turn with an `ask_user` adds to that: nothing when the agent is interactive, otherwise the refusal of the
      last such call. Its task calls get no answer. */
  lemma AskIsRefused(agent: Agent, world: World, turn: nat, calls: seq<ToolCall>, j: nat)
    requires j < |calls| && AsksUser(calls[j]) && forall i :: j < i < |calls| ==> !AsksUser(calls[i])
    ensures var answers := RoutedAnswers(agent, world, turn, calls);
      var atOnce := Count(ForNobody(world), calls) + Count(ForServer(world), calls);
      if agent.interactive then |answers| == atOnce
      else |answers| == atOnce + 1 && answers[atOnce] == ResultOf(calls[j],
             "Error: ask_user is not available. The 'interactive' flag is not enabled on this action.")
  {
    KindsByName(world, calls);
    FilterCount(ForNobody(world), calls);
    FilterCount(ForServer(world), calls);
    LastTaken(AsksUser, calls, j);
    hide OfKind, Filter, Count, RunTasks, ForNobody, ForServer;
  }

  lemma LastTaken<A>(p: A -> bool, s: seq<A>, j: nat)
    requires j < |s| && p(s[j]) && forall i :: j < i < |s| ==> !p(s[i])
    ensures Filter(p, s) != [] && Filter(p, s)[|Filter(p, s)| - 1] == s[j]
  {
    FilterAt(p, s, j);
    var k := FilterFrom(p, s, |Filter(p, s)| - 1);
    if k < j {
      FilterAt(p, s, k);
      CountGrows(p, s, k, j);
    }
  }

  lemma {:induction false} CountGrows<A>(p: A -> bool, s: seq<A>, i: nat, j: nat)
    requires i < j <= |s| && p(s[i])
    ensures Count(p, s[..i]) < Count(p, s[..j])
    decreases j
  {
    assert s[..j][..j - 1] == s[..j - 1];
    if i < j - 1 { CountGrows(p, s, i, j - 1); }
  }

  // ---- Task calls ---------------------------------------------------------------------------------

  /** Replacing one character by another, place by place. */
  lemma Replaced(s: string, from: char, to: char)
    ensures |ReplaceChar(s, from, to)| == |s|
    ensures forall i :: 0 <= i < |s| ==> ReplaceChar(s, from, to)[i] == if s[i] == from then to else s[i]
  {}

  /** What a task tool's name stands for: the known task of that name, or else of that name with hyphens, if the agent
      may use it; otherwise the refusal. */
  lemma TaskByName(agent: Agent, name: string)
    ensures var hyphened := ReplaceChar(name, '_', '-');
      var task := if name in agent.taskInfos then name else hyphened;
      var allowed := exists t :: t in agent.tools && (t == task || ReplaceChar(t, '-', '_') == name);
      ResolveTask(agent, "strom_task_" + name) ==
        if name !in agent.taskInfos && hyphened !in agent.taskInfos then Err("Error: task '" + name + "' not found")
        else if !allowed then Err("Error: task '" + task + "' is not in the allowed tool set")
        else Ok(task)
  {
    assert ("strom_task_" + name)[|TASK_PREFIX|..] == name;
    hide ReplaceChar;
  }

  /** The name the model is given for a task. */
  function ToolName(task: string): string {
    "strom_task_" + ReplaceChar(task, '-', '_')
  }

  /** A known and allowed task is found again under its tool name exactly when the name has no hyphen to begin with, or
      has no underscore and no other known task has it with underscores. */
  lemma ToolNameFindsItsTaskIff(agent: Agent, task: string)
    requires task in agent.taskInfos && task in agent.tools
    ensures ResolveTask(agent, ToolName(task)) == Ok(task) <==>
      '-' !in task || ('_' !in task && ReplaceChar(task, '-', '_') !in agent.taskInfos)
  {
    var name := ReplaceChar(task, '-', '_');
    TaskByName(agent, name);
    if '-' !in task {
      assert name == task;
    } else {
      var i :| 0 <= i < |task| && task[i] == '-';
      assert name[i] != task[i];
    }
    var hyphened := ReplaceChar(name, '_', '-');
    if '_' !in task {
      assert hyphened == task;
    } else {
      var i :| 0 <= i < |task| && task[i] == '_';
      assert hyphened[i] == '-';
    }
  }

  /** The task at place `k`: refused with its answer, or delegated to the job created for that place. */
  ghost predicate TaskSettled(agent: Agent, world: World, turn: nat, call: ToolCall, k: nat, answers: seq<Message>,
                              pending: seq<PendingToolCall>) {
    match ResolveTask(agent, call.name)
    case Err(text) => ResultOf(call, text) in answers
    case Ok(task) =>
      var job := world.job(turn, k, task, JobInput(call));
      job.Some? && PendingToolCall(WireId(call.id), call.name, job.value) in pending
  }

  /** The job for the task call at place `k` is created, if the call is accepted. */
  ghost predicate GetsItsJob(agent: Agent, world: World, turn: nat, call: ToolCall, k: nat) {
    match ResolveTask(agent, call.name)
    case Err(_) => true
    case Ok(task) => world.job(turn, k, task, JobInput(call)).Some?
  }

  lemma {:induction false} TasksSettled(agent: Agent, world: World, turn: nat, tasks: seq<ToolCall>, k: nat)
    requires k < |tasks| && RunTasks(agent, world, turn, tasks).ok
    ensures var run := RunTasks(agent, world, turn, tasks);
      TaskSettled(agent, world, turn, tasks[k], k, run.answers, run.pending)
    decreases |tasks|
  {
    hide ResolveTask;
    if k < |tasks| - 1 {
      TasksSettled(agent, world, turn, tasks[..|tasks| - 1], k);
    }
  }

  lemma {:induction false} TasksOkIff(agent: Agent, world: World, turn: nat, tasks: seq<ToolCall>)
    ensures RunTasks(agent, world, turn, tasks).ok <==>
      forall k :: 0 <= k < |tasks| ==> GetsItsJob(agent, world, turn, tasks[k], k)
    decreases |tasks|
  {
    hide ResolveTask;
    if tasks != [] {
      var init := tasks[..|tasks| - 1];
      TasksOkIff(agent, world, turn, init);
      assert forall k :: 0 <= k < |init| ==> init[k] == tasks[k];
    }
  }

  /** Every accepted task call gets its job. */
  ghost predicate JobsSucceed(agent: Agent, world: World, turn: nat, calls: seq<ToolCall>) {
    forall j :: 0 <= j < |calls| && ForJob(world)(calls[j]) ==>
      GetsItsJob(agent, world, turn, calls[j], Count(ForJob(world), calls[..j]))
  }

  lemma JobsSucceedIff(agent: Agent, world: World, turn: nat, calls: seq<ToolCall>)
    ensures RunTasks(agent, world, turn, OfKind(world, calls, Task)).ok <==> JobsSucceed(agent, world, turn, calls)
  {
    KindsByName(world, calls);
    var p, tasks := ForJob(world), OfKind(world, calls, Task);
    TasksOkIff(agent, world, turn, tasks);
    hide OfKind, RunTasks, ResolveTask, Filter, ForJob, Count;
    forall j | 0 <= j < |calls| && p(calls[j])
      ensures Count(p, calls[..j]) < |tasks| && tasks[Count(p, calls[..j])] == calls[j]
    {
      FilterAt(p, calls, j);
    }
    if JobsSucceed(agent, world, turn, calls) {
      forall k | 0 <= k < |tasks| ensures GetsItsJob(agent, world, turn, tasks[k], k) {
        var j := FilterFrom(p, calls, k);
      }
    }
  }

  /** A turn without `ask_user` settles each task call, the `k`th by the job created for it. */
  lemma JobsByName(agent: Agent, world: World, st: Saved, calls: seq<ToolCall>, waiting: Saved, j: nat)
    requires RouteCalls(agent, world, st, calls) == Stop(Ok(WaitingForTools(waiting)))
    requires j < |calls| && ForJob(world)(calls[j])
    ensures TaskSettled(agent, world, st.turn, calls[j], Count(ForJob(world), calls[..j]),
                        RoutedAnswers(agent, world, st.turn, calls), waiting.pending)
  {
    KindsByName(world, calls);
    var p, tasks := ForJob(world), OfKind(world, calls, Task);
    FilterAt(p, calls, j);
    hide OfKind, Filter, Count, ForJob, RunTasks, ResolveTask;
    TasksSettled(agent, world, st.turn, tasks, Count(p, calls[..j]));
  }
}
