# Strøm workflow engine: a verified model

This project models the decision logic of the Strøm workflow engine in Dafny and proves what that logic promises.

- **Dependency engine.** A flow step names other steps in nested `all` / `any` trees. `DependsOn` validates the trees,
  `Kahn` and `Dag` sort the flow, `Gate` decides whether a step may run, must wait or is omitted, and `FlowRun` is the
  transition system of gate firings: what holds over every schedule of every flow.
- **Agent conversation loop.** `AgentLoop` is one dispatch of an agent step, `AgentState` the state that survives a
  suspension and the server's moves on it, `LegacyHistory` the migration of old conversations. `AgentRuns` states what
  holds over a whole step, however often it suspends. `AgentAnswers` states when every tool call of a turn is answered
  exactly once, `AgentTexts` that each gets its own job's text, `AgentRouting` what becomes of each call by its name,
  `AgentEndings` how a dispatch ends, `AgentAstray` shows turns that go wrong, and `AgentSessions` carries the answers
  over every later request of a step.
- **Connection resolution.** `Connections` locates connections across workspaces, `Provenance` resolves a step's input
  by role: each value against the workspace that supplied it.
- **Text engines.** `JsonField` (templates inside JSON values and their error positions), `DottedPath` and
  `PrintedPath` (the dotted-path tokenizer and the paths it reads back), `ShellWords` (quoting, read back by the rules
  of the POSIX.1 Shell Command Language), `Duration` and `FileField` (round trips).

`Results`, `Sequences`, `Bags`, `Text` and `Json` hold shared vocabulary. A loop over a hash map picks its next key
with `:|`, so what is proved holds for any iteration order. The language model, tool servers, child jobs, the
template engine and the JSON parser are function parameters: every theorem is for all of them.

## What the model shows about the code

- A result that comes back after a suspension is paired with the latest assistant message's first call whose wire id
  *or* item id is the saved handle, and that handle is the wire id of the call waited for. So a later call of the turn
  loses its result to an earlier one that has its wire id as item id, and equally to an earlier one that has the same
  wire id beside another item id. Distinct call ids are not enough, nor are distinct wire ids.
  `AgentAstray.ShadowedResultGoesAstray` shows both families of turns, from suspension to resumed conversation.
  `AgentAnswers.SuspendedTurnAnsweredIff`, `AgentTexts.SuspendedTurnTextsIff` and `AgentAnswers.UserAnswerPairsIff`
  prove the exact condition: results pair with their calls if and only if no call waited for is shadowed, that is, no
  earlier call of the turn answers to its wire id.
- A resumed state past its first turn with no message that parses and no result to inject makes the loop send an unsaved
  "Continue."; the conversation goes on without it. `AgentRuns.RequestsContinueIff` proves that this is exactly when a
  step's requests do not all extend one another. A step started fresh never gets there.
- `ask_user` takes priority over task calls, so a turn with both leaves its task calls without an answer; the theorems
  about answering every call are about turns without `ask_user`, as in the code.
- A turn whose task calls are all refused still suspends the step, with nothing pending.
- A task tool's name is the task's with `-` written as `_`, and looking it up again tries the name itself and then the
  name with every `_` as `-`. So a task whose name mixes the two, or has a known rival under the same tool name, is not
  found or is confused with the rival. `AgentRouting.ToolNameFindsItsTaskIff` is the exact condition.
- The dotted-path tokenizer is documented to honour `[…]`. It reads `a["x"]` and `a['x.y'].b` as meant, but drops the
  first character of a segment that stands in brackets without quotes and keeps the closing bracket, and misreads
  brackets that do not follow a bare segment. `PrintedPath.TokensOfPrintedIff` is the exact condition, and
  `PrintedPath.BareIndexFindsNothing` an input.
- The documentation of `parse_duration` lists plain numbers and unit strings; the code also accepts a leading `+` on a
  plain number, because the standard library's number parser does. The model follows the code.
- A unit string whose components each fit in 64 bits but whose sum does not is accepted and means the 64-bit maximum.

## Model

| member | source | states |
|---|---|---|
| `DependsOn.NamesAreTheLeaves` | crates/stroem-common/src/depends_on.rs:163-172 | the collected names are exactly the names of the leaves, at any depth |
| `DependsOn.CollectNames` | crates/stroem-common/src/depends_on.rs:163-172 | appends every leaf name, left to right, repeats kept |
| `DependsOn.CheckSiblings` | crates/stroem-common/src/depends_on.rs:174-185 | keeps earlier errors, and adds one exactly when two leaves of the group name the same step |
| `DependsOn.CheckAccept` | crates/stroem-common/src/depends_on.rs:187-206 | adds an error exactly when the accept list is empty or repeats an outcome |
| `DependsOn.CheckNested` | crates/stroem-common/src/depends_on.rs:187-226 | adds an error exactly when the entry is ill-formed somewhere below |
| `DependsOn.ValidateTree` | crates/stroem-common/src/depends_on.rs:233-244 | accepts exactly the well-formed trees (the empty root included); a refusal lists errors |
| `Gate.WaitsIffSomeNamePending` | crates/stroem-common/src/gate.rs:71-108 | the gate waits exactly while some step named anywhere in the tree is pending |
| `Gate.DecisionReadsOnlyNames` | crates/stroem-common/src/gate.rs:71-108 | the decision depends on the outcomes of the named steps only |
| `Gate.DecisionIsStable` | crates/stroem-common/src/gate.rs:99-108 | a decision other than wait never changes as further steps finish |
| `Gate.SatisfiedIffFulfilled` | crates/stroem-common/src/gate.rs:82-93 | a tree is satisfied exactly when some choice of one child per `any` group takes only leaves whose outcome they accept |
| `Gate.DecidesByFulfilment` | crates/stroem-common/src/gate.rs:99-108 | with every named step finished, the gate opens exactly when the tree is so fulfilled, and omits the step exactly when it is not |
| `Gate.CompletedSatisfies` | crates/stroem-common/src/gate.rs:82-93 | a well-formed tree whose accept sets contain completed is satisfied when all its names completed |
| `Gate.ConjunctiveNeedsEveryLeaf` | crates/stroem-common/src/gate.rs:82-93 | a tree of bare names and `all` groups is satisfied exactly when every leaf completed |
| `Kahn.OrderExcludesCycles` | crates/stroem-common/src/dag.rs:78-111 | a graph with a topological order is closed and has no cycle |
| `Kahn.StuckContainsCycle` | crates/stroem-common/src/dag.rs:106-111 | a set of nodes that all wait on nodes of the set contains a real cycle |
| `Kahn.AddEdge` | crates/stroem-common/src/dag.rs:67-74 | one more edge keeps in-degrees and adjacency lists exact, repeats counted |
| `Kahn.AddEdges` | crates/stroem-common/src/dag.rs:53-76 | all edges into a step, or a name that is not a step |
| `Kahn.InitialQueue` | crates/stroem-common/src/dag.rs:82-87 | the queue starts with exactly the steps of in-degree zero |
| `Kahn.Release` | crates/stroem-common/src/dag.rs:93-102 | counters drop by one per repeated edge; steps that reach zero join the queue once |
| `Kahn.Pop` | crates/stroem-common/src/dag.rs:89-104 | one pop keeps the invariant: the result is in order, and result plus queue are exactly the unblocked steps |
| `Kahn.Sort` | crates/stroem-common/src/dag.rs:78-111 | a topological order, or a cycle exists |
| `Dag.BuildGraph` | crates/stroem-common/src/dag.rs:43-76 | succeeds exactly when every name exists, and then counts every edge; otherwise names a real dangling reference |
| `Dag.ValidateDag` | crates/stroem-common/src/dag.rs:42-112 | accepted exactly when every name exists and there is no cycle; the result is a duplicate-free topological order; each error is true |
| `Dag.ReadySteps` | crates/stroem-common/src/dag.rs:18-38 | exactly the steps not completed whose names all completed, once each |
| `Dag.ReadyMeansOpen` | crates/stroem-common/src/dag.rs:8-38 | on validated trees whose accept sets contain completed, a ready step's gate is open |
| `Dag.ReadyIffOpen` | crates/stroem-common/src/dag.rs:8-38 | on bare names and `all` groups the filter and the gate agree both ways |
| `FlowRun.EnabledIffDepsFired` | crates/stroem-common/src/gate.rs:99-108 | after any firings, a step may fire exactly when it has not and everything it names has |
| `FlowRun.RunIffRespects` | crates/stroem-common/src/gate.rs:99-108 | the runs of a flow are exactly the duplicate-free orders that respect its dependencies, whatever the outcomes |
| `FlowRun.RunLength` | crates/stroem-common/src/gate.rs:99-108 | a run fires each step at most once, and is full length exactly when every step is terminal |
| `FlowRun.Progress` | crates/stroem-common/src/gate.rs:99-108 | in an accepted flow no reachable state with a pending step is stuck |
| `FlowRun.MaximalRunsAreTopologicalOrders` | crates/stroem-common/src/dag.rs:78-111 | in an accepted flow the maximal runs are exactly the topological orders, and all end with every step terminal |
| `FlowRun.FinishesIffAccepted` | crates/stroem-common/src/dag.rs:42-112 | some run finishes the flow exactly when validation accepts it |
| `FlowRun.RunAgreesWithSettled` | crates/stroem-common/src/gate.rs:71-108 | at every point of every run, fired steps already have their final outcome |
| `FlowRun.FiredStepsStaySettled` | crates/stroem-common/src/gate.rs:71-108 | a fired step's outcome is still the one its gate gives in every later state |
| `FlowRun.FinishedRunIsSettled` | crates/stroem-common/src/gate.rs:71-108 | a finished run ends in a state where every step holds the outcome judged from that state |
| `FlowRun.SettledIffFollowsGates` | crates/stroem-common/src/gate.rs:99-108 | settled states are exactly those in which a step whose tree the final outcomes fulfil has its own outcome on them, and every other step is omitted |
| `FlowRun.FinishedRunFollowsGates` | crates/stroem-server/src/cascade.rs:388-414 | every finished run ends so |
| `FlowRun.RootsRun` | crates/stroem-server/src/cascade.rs:395-406 | a step without dependencies always ends with its own outcome |
| `FlowRun.ConjunctiveStepRunsIff` | crates/stroem-common/src/gate.rs:82-108 | on bare names and `all` groups a step runs exactly when everything it names completed |
| `FlowRun.FailureOmitsTheChain` | crates/stroem-common/src/gate.rs:82-108 | there, a step that did not complete omits every step above it on any chain of dependencies |
| `FlowRun.Confluence` | crates/stroem-common/src/gate.rs:71-108 | for an accepted flow the settled state is unique, and it is where every maximal run ends |
| `FlowRun.SchedulesAgree` | crates/stroem-common/src/gate.rs:71-108 | any two maximal runs end alike; every partial run agrees with that end |
| `FlowRun.FireStep` | crates/stroem-common/src/gate.rs:99-108 | firing a step computes the outcome its gate and its own behaviour give, from the names it collects |
| `FlowRun.RunInOrder` | crates/stroem-common/src/dag.rs:42-112 | one pass over the validated order gives the outcome map of every maximal run, and it follows the gates |
| `LegacyHistory.RegisterCall` | crates/stroem-agent/src/legacy_history.rs:103-115 | filing one more call keeps the index exact: every id still answers with the first call saved under it |
| `LegacyHistory.UpgradeAssistantItem` | crates/stroem-agent/src/legacy_history.rs:96-129 | rewrites a tagless item by its shape and keeps the index exact: every id answers with the first call saved under it |
| `LegacyHistory.UpgradeToolResult` | crates/stroem-agent/src/legacy_history.rs:132-150 | the call found by `id`, then by `call_id`, or an orphan id under a placeholder name |
| `LegacyHistory.UpgradeAssistants` | crates/stroem-agent/src/legacy_history.rs:33-43 | the first pass rewrites assistant messages in place and indexes every legacy call |
| `LegacyHistory.UpgradeUser` | crates/stroem-agent/src/legacy_history.rs:45-56 | rewrites exactly the legacy results of one message |
| `LegacyHistory.Upgrade` | crates/stroem-agent/src/legacy_history.rs:29-57 | the array ends as the lifted conversation |
| `LegacyHistory.UpgradeKeepsShape` | crates/stroem-agent/src/legacy_history.rs:29-57 | message count, order, roles, other fields and item counts are kept |
| `LegacyHistory.UpgradeKeepsPayload` | crates/stroem-agent/src/legacy_history.rs:96-150 | inside an item only ids, tag, issuer, call and name are ever rewritten |
| `LegacyHistory.InertIsUntouched` | crates/stroem-agent/src/legacy_history.rs:29-57 | a conversation with no legacy item is left alone |
| `LegacyHistory.UpgradeLeavesInert` | crates/stroem-agent/src/legacy_history.rs:29-57 | an upgraded conversation has no legacy item left to rewrite |
| `LegacyHistory.UpgradeIsIdempotent` | crates/stroem-agent/src/legacy_history.rs:29-57 | a second upgrade, even under another issuer and other minted ids, changes nothing, for every JSON history |
| `LegacyHistory.FindIsACall` | crates/stroem-agent/src/legacy_history.rs:132-150 | an id is found exactly when some call was saved under it |
| `LegacyHistory.UniqueIdFindsItsCall` | crates/stroem-agent/src/legacy_history.rs:132-150 | with unique ids, an id finds exactly its own call |
| `LegacyHistory.ResultAnswersItsCall` | crates/stroem-agent/src/legacy_history.rs:82-150 | with unique ids, an upgraded result carries exactly the upgraded call's id and tool name |
| `LegacyHistory.MessageHas` | crates/stroem-agent/src/legacy_history.rs:59-70 | which objects are messages with a role and with items |
| `LegacyHistory.TaggedByShape` | crates/stroem-agent/src/legacy_history.rs:96-129 | a tagless item becomes `toolcall`, `reasoning` under the issuer, `image` or `text` exactly by what it holds, in that order, and otherwise stays; a call keeps its ids as one current id |
| `LegacyHistory.LegacyCallIdIsFor` | crates/stroem-agent/src/legacy_history.rs:82-89 | the current id carries both saved ids when they differ, the one there is, or a minted handle |
| `LegacyHistory.NamedTool` | crates/stroem-agent/src/legacy_history.rs:106-110 | a call's tool is the name in its function, or null |
| `LegacyHistory.OrphanKeepsItsIds` | crates/stroem-agent/src/legacy_history.rs:132-150 | a result no call was saved for keeps its own ids, under `unknown_tool` |
| `LegacyHistory.OtherItemsStay` | crates/stroem-agent/src/legacy_history.rs:33-56 | tagged items, current results and messages of another role are left alone |
| `AgentMessages.LegacyHandlesStillMatch` | crates/stroem-agent/src/legacy_history.rs:82-89 | a lifted call is found under exactly the ids it was saved with |
| `AgentMessages.ParseAppended` | crates/stroem-agent/src/loop_dispatch.rs:608-613 | what the loop appends is what it reads back, after whatever was there |
| `AgentMessages.FindsInTheLatest` | crates/stroem-agent/src/loop_dispatch.rs:634-654 | a handle finds a call of the latest message that has one answering to it, and nothing exactly when there is none |
| `AgentMessages.UnmatchedResult` | crates/stroem-agent/src/loop_dispatch.rs:655-663 | a result whose handle finds no call keeps the handle as the id, under `unknown_tool` |
| `AgentState.ChildDoneConservesIds` | crates/stroem-agent/src/state.rs:97-107 | a finished child moves one id from pending to resolved; pending plus resolved ids are the same multiset |
| `AgentState.ChildrenConserveIds` | crates/stroem-server/src/settlement/propagate.rs:79-86 | the same for any number of finished children in any order |
| `AgentState.ResultsAreOwn` | crates/stroem-server/src/settlement/propagate.rs:70-86 | with distinct child jobs, every result collected so far carries the text of its own job; nothing pending has been reported yet |
| `AgentState.MovesKeepConversation` | crates/stroem-server/src/settlement/propagate.rs:79-86 | nothing the server does to a suspended step touches the conversation, the turn or the totals |
| `AgentState.AgentConversationState.ResolveToolCall` | crates/stroem-agent/src/state.rs:97-107 | removes and returns the first pending call of the child, nothing else; an unknown child changes nothing |
| `AgentState.AgentConversationState.ChildFinished` | crates/stroem-server/src/settlement/propagate.rs:53-100 | the new state, with all ids conserved; the step becomes ready exactly when this was its last pending call |
| `AgentState.AgentConversationState.UserReplied` | crates/stroem-server/src/web/api/jobs.rs:1054-1072 | the answer is stored under the asking call's id and the question is cleared |
| `AgentLoop.ResolvedTaskIsAllowed` | crates/stroem-agent/src/loop_dispatch.rs:437-480 | a job is only created for a known task that is in the allowed tool set, up to `-` and `_` |
| `AgentLoop.Resume` | crates/stroem-agent/src/loop_dispatch.rs:133-178 | history lifted, then at most one message of injected results; the state's own results are cleared only when used |
| `AgentLoop.Partition` | crates/stroem-agent/src/loop_dispatch.rs:333-360 | calls sorted by kind in order, unknown ones answered on the way, the last `ask_user` wins |
| `AgentLoop.CallMcpTools` | crates/stroem-agent/src/loop_dispatch.rs:362-395 | one answer per tool-server call, in order |
| `AgentLoop.CreateJobs` | crates/stroem-agent/src/loop_dispatch.rs:437-510 | refusals answered, accepted calls pending under their wire id; the first failed job ends the dispatch |
| `AgentLoop.Route` | crates/stroem-agent/src/loop_dispatch.rs:333-513 | routing in the code's order of priority leaves exactly the specified state or outcome |
| `AgentLoop.Handle` | crates/stroem-agent/src/loop_dispatch.rs:240-331 | a reply is counted and saved, then finishes the step or is routed |
| `AgentLoop.Turn` | crates/stroem-agent/src/loop_dispatch.rs:187-513 | one turn of the loop takes the whole trace one step further |
| `AgentLoop.DispatchAgentLoop` | crates/stroem-agent/src/loop_dispatch.rs:118-513 | the loop terminates, and its outcome and the conversations it sent are those of the specification |
| `AgentRouting.AnsweredByName` | crates/stroem-agent/src/loop_dispatch.rs:338-395 | by name and place: calls for no tool get the unknown-tool text, calls for a tool server the server's text for that place, each under its own id and in order |
| `AgentRouting.AskIsRefused` | crates/stroem-agent/src/loop_dispatch.rs:399-412 | with `ask_user`, an agent that is not interactive refuses the last such call, and an interactive one answers nothing more |
| `AgentRouting.TaskByName` | crates/stroem-agent/src/loop_dispatch.rs:437-485 | which task a tool name stands for, and the text of each refusal |
| `AgentRouting.ToolNameFindsItsTaskIff` | crates/stroem-agent/src/tools.rs:14-28 | a known and allowed task is found again under the name the model was given, if and only if its name has no hyphen, or no underscore and no known rival |
| `AgentRouting.JobsSucceedIff` | crates/stroem-agent/src/loop_dispatch.rs:486-505 | the jobs of a turn are all created exactly when each accepted task call gets the one for its place |
| `AgentRouting.JobsByName` | crates/stroem-agent/src/loop_dispatch.rs:437-510 | a suspended turn refused each task call in its answers, or left it pending on the job for its place |
| `AgentEndings.CallsInOrder` | crates/stroem-agent/src/loop_dispatch.rs:270-285 | the calls of a reply, in order |
| `AgentEndings.TextsInOrder` | crates/stroem-agent/src/loop_dispatch.rs:270-278 | the texts of a reply, in order |
| `AgentEndings.TurnEnds` | crates/stroem-agent/src/loop_dispatch.rs:313-513 | whether a turn goes on, and how it ends the dispatch, by the calls of the reply, the jobs and the save |
| `AgentEndings.LoopEndsByReplies` | crates/stroem-agent/src/loop_dispatch.rs:187-513 | all turns of a dispatch but the last went on; the last ended it, or the next was cancelled or over the limit |
| `AgentEndings.RunsToTheLimit` | crates/stroem-agent/src/loop_dispatch.rs:118-206 | a dispatch whose turns all go on sends exactly min(max_turns or 25, 100) requests, less the turns before it, and fails |
| `AgentEndings.CompletesIff` | crates/stroem-agent/src/loop_dispatch.rs:313-331 | a dispatch completes exactly when its last reply has no call and its texts, joined by newlines in order, give the output |
| `AgentRuns.RequestIsAsked` | crates/stroem-agent/src/loop_dispatch.rs:207-215 | a turn sends the saved conversation and its prompt, or an unsaved "Continue." when that is empty |
| `AgentRuns.TurnAppends` | crates/stroem-agent/src/loop_dispatch.rs:240-513 | a turn appends to what it asked the reply and the answers, in that order, and nothing else |
| `AgentRuns.LoopIsSound` | crates/stroem-agent/src/loop_dispatch.rs:187-259 | within a dispatch each saved request is strictly extended by the next, totals are per-turn sums, turns stay within the limit |
| `AgentRuns.ResumeContinues` | crates/stroem-agent/src/loop_dispatch.rs:136-178 | resuming keeps the lifted conversation, the turn and the totals, and adds at most one message |
| `AgentRuns.ResumeInjects` | crates/stroem-agent/src/loop_dispatch.rs:142-178 | the results passed in, otherwise those collected, one message, each under the call its handle finds; only the collected ones are cleared |
| `AgentRuns.CanStartIsReady` | crates/stroem-agent/src/loop_dispatch.rs:136-215 | the first turn after a resume has something to send exactly when it is turn 1, some message parses, or results are injected |
| `AgentRuns.StepIsSound` | crates/stroem-agent/src/loop_dispatch.rs:118-259 | over any number of suspensions and resumptions, from any state: nothing lost, reordered or repeated between saved requests, totals are sums, and the turn limit bounds model calls |
| `AgentRuns.RequestsContinueIff` | crates/stroem-agent/src/loop_dispatch.rs:187-259 | all requests of a step strictly extend one another if and only if its first one had something to send, or there is at most one |
| `AgentRuns.ModelCallsAreBounded` | crates/stroem-agent/src/loop_dispatch.rs:118-206 | a step started fresh calls the model at most min(max_turns, 100) times in all, each request extending the one before it |
| `AgentRuns.ResumeUpgradeIsNoOp` | crates/stroem-agent/src/loop_dispatch.rs:136-140 | resuming from a returned state, after any server moves, never rewrites its history |
| `AgentAnswers.TasksAnsweredOrPending` | crates/stroem-agent/src/loop_dispatch.rs:437-510 | each task call is refused at once under its own id or left pending under its wire id |
| `AgentAnswers.TurnAnswersTheRest` | crates/stroem-agent/src/loop_dispatch.rs:338-510 | without `ask_user`, answered ids plus delegated ids are exactly the ids of the calls |
| `AgentAnswers.HandleFinds` | crates/stroem-agent/src/loop_dispatch.rs:634-663 | in any turn, a saved handle finds its own call exactly when that call is not shadowed, otherwise an earlier one |
| `AgentAnswers.HandlesFindTheirCallsIff` | crates/stroem-agent/src/loop_dispatch.rs:634-663 | with distinct call ids, the handles of the delegated calls find exactly those calls if and only if none is shadowed |
| `AgentAnswers.SuspendedTurnAnsweredIff` | crates/stroem-agent/src/loop_dispatch.rs:149-178 | with distinct call ids: once all child jobs finished, in any order, and the step resumed, every call has exactly one result under its own id, if and only if no delegated call is shadowed |
| `AgentAnswers.NextRequestAnswersTheTurnIff` | crates/stroem-agent/src/loop_dispatch.rs:149-215 | the same, from the model's reply to the next request sent |
| `AgentAnswers.ContinuedTurnIsAnswered` | crates/stroem-agent/src/loop_dispatch.rs:338-510 | a turn with neither `ask_user` nor child jobs has answered every call before the next request |
| `AgentAnswers.UserAnswerPairsIff` | crates/stroem-agent/src/loop_dispatch.rs:399-435 | the user's answer ends the resumed conversation as the result of the last `ask_user` call, if and only if that call is not shadowed |
| `AgentAnswers.EachIdOnce` | crates/stroem-agent/src/loop_dispatch.rs:634-663 | with distinct call ids, each id occurs once, so "the same multiset" means exactly one result each |
| `AgentTexts.ResumedAnswerPairs` | crates/stroem-agent/src/loop_dispatch.rs:162-170 | the injected message carries, for each collected result, its text under the id its handle finds |
| `AgentTexts.SuspendedTurnTextsIff` | crates/stroem-agent/src/loop_dispatch.rs:149-178 | with distinct call ids and child jobs, the results after a resume are those given at once and each delegated call's own id with its own job's text, if and only if no delegated call is shadowed |
| `AgentAstray.ShadowedResultGoesAstray` | crates/stroem-agent/src/loop_dispatch.rs:634-663 | two families of turns with distinct call ids, from suspension to resumed conversation: a later call whose wire id is the first call's item id or wire id loses its result to the first |
| `AgentSessions.ContinuedTurnIsGood` | crates/stroem-agent/src/loop_dispatch.rs:333-513 | a turn that goes on leaves nothing pending or unresolved, and its calls answered |
| `AgentSessions.ToolTurnIsGood` | crates/stroem-agent/src/loop_dispatch.rs:149-178 | so does a turn that suspended on child jobs, once they finished and the step resumed |
| `AgentSessions.UserTurnIsGood` | crates/stroem-agent/src/loop_dispatch.rs:399-435 | so does a turn that asked the user, as to everything but its own calls |
| `AgentSessions.LoopAnswersTurns` | crates/stroem-agent/src/loop_dispatch.rs:187-513 | so every request of a dispatch, and every state it can be resumed from, has its earlier turns answered |
| `AgentSessions.ServedIsSession` | crates/stroem-worker/src/agent_executor.rs:262-280 | a step as the server and the workers run it is one of the steps that the run theorems cover |
| `AgentSessions.EveryTurnIsAnswered` | crates/stroem-worker/src/agent_executor.rs:262-280 | in every conversation such a step sends, every earlier turn of the step without `ask_user` and with distinct call ids has exactly one result per call under its own id, if and only if no delegated call of it is shadowed |
| `AgentCodec.FaithfulCodecExists` | crates/stroem-agent/src/loop_dispatch.rs:608-613 | the two properties assumed of message serialisation can be met together |
| `JsonField.WrittenIsSingle` | crates/stroem-common/src/json_field.rs:41-66 | every way of writing one expression between braces is classified as that expression, at its place |
| `JsonField.SingleIsWritten` | crates/stroem-common/src/json_field.rs:41-66 | nothing else is classified as a single expression |
| `JsonField.LiteralIff` | crates/stroem-common/src/json_field.rs:41-44 | a string is literal exactly when no template block opens in it |
| `JsonField.HasDelimiterIff` | crates/stroem-common/src/json_field.rs:58-61 | the delimiters that make a string mixed are exactly the six of the template language |
| `JsonField.PositionsAreACursor` | crates/stroem-common/src/json_field.rs:70-75 | positions are those of a cursor that starts at line 1, column 1, and goes to the next line on a newline |
| `JsonField.InnerIsASlice` | crates/stroem-common/src/json_field.rs:41-75 | the expression is a verbatim slice of the author's string, and its start is that slice's position |
| `JsonField.PositionsMapBack` | crates/stroem-common/src/json_field.rs:70-112 | every wrapper character of the expression maps to its own line and column; every other one maps to nothing |
| `JsonField.Walk` | crates/stroem-common/src/json_field.rs:147-186 | succeeds exactly when no string offends; same tree with expressions replaced by values; each rendered exactly once; an error locates an offending string |
| `JsonField.SubstByPlace` | crates/stroem-common/src/json_field.rs:147-186 | at every place of the result: a single expression is its value, a container kept its keys or length, everything else stayed |
| `JsonField.EvalSingle` | crates/stroem-common/src/json_field.rs:105-112 | the one place that renders: the expression's value, with one entry in the log of renderings |
| `JsonField.WalkString` | crates/stroem-common/src/json_field.rs:153-164 | the same for one string: literal, single or mixed |
| `JsonField.WalkArray` | crates/stroem-common/src/json_field.rs:176-184 | the same for an array, in order |
| `JsonField.WalkObject` | crates/stroem-common/src/json_field.rs:165-175 | the same for an object, keys kept, whatever order they are walked in |
| `JsonField.LintWalk` | crates/stroem-common/src/json_field.rs:215-237 | each flag is set exactly when some string of the value calls for it |
| `JsonField.JsonEncodeIsLast` | crates/stroem-common/src/json_field.rs:230-237 | an expression encodes to text exactly when its last filter is `json_encode`, with or without arguments |
| `JsonField.LintAgreesWithWalk` | crates/stroem-common/src/json_field.rs:209-228 | with an engine that always yields JSON, the walk fails exactly on what the lint calls mixed |
| `Connections.QualifiedRefIff` | crates/stroem-common/src/template.rs:145-150 | a name is split exactly when it is two non-empty parts around its first dot |
| `Connections.TypeDenotes` | crates/stroem-common/src/template.rs:234-277 | a type reference resolves to a type exactly when it denotes it: whole name first, then an existing type of the named workspace, or the whole name again when that workspace does not exist |
| `Connections.SpellingsAgree` | crates/stroem-common/src/template.rs:234-277 | a type's own name at home and its qualified name elsewhere are one canonical type |
| `Connections.ReferenceDenotes` | crates/stroem-common/src/template.rs:333-386 | a reference resolves to a connection exactly when it denotes it: own name first, then qualified, then fallback, nothing unshared across a boundary |
| `Connections.ReferenceFails` | crates/stroem-common/src/template.rs:333-386 | why a reference does not resolve: which workspace is missing, what is not found, what is not shared |
| `Connections.FilledInIff` | crates/stroem-common/src/models/workflow.rs:48-61 | every value the connection sets, the type's default for what it does not set, and nothing else |
| `Connections.ConnectionGives` | crates/stroem-common/src/template.rs:820-872 | a connection yields values exactly when it is untyped or of the field's type and, for another workspace's type, every required property is set and no value is empty |
| `Connections.FieldResolvesToItsMeaning` | crates/stroem-common/src/template.rs:791-880 | a connection field resolves exactly to what it means: an object to itself, a name to what its connection yields |
| `Connections.OnlyConnectionFieldsResolve` | crates/stroem-common/src/template.rs:791-812 | fields of the nine primitive types are left alone |
| `Connections.ResolveConnectionInputsScoped` | crates/stroem-common/src/template.rs:791-880 | same keys, every field its own result; an error is the error of some field |
| `Connections.OutcomeIsUnique` | crates/stroem-common/src/template.rs:791-880 | success, and its result, do not depend on the order of the schema |
| `Provenance.BareNameByRole` | crates/stroem-common/src/template.rs:1088-1183 | a bare name is looked up in the supplier's config, then in the schema role's, freely only within one workspace |
| `Provenance.BucketView` | crates/stroem-common/src/template.rs:1088-1183 | what each workspace name shows while a bucket is resolved: the supplier's config over the schema role's commit, the schema role's own, or the live one |
| `Provenance.ResolveBucketByRole` | crates/stroem-common/src/template.rs:1136-1183 | the bucket resolves field by field in the scope its two roles give |
| `Provenance.FieldReadsTheView` | crates/stroem-common/src/template.rs:791-880 | resolution reads nothing of a workspace but its connections and connection types |
| `Provenance.RoleKeyedIsNameKeyed` | crates/stroem-common/src/template.rs:1094-1183 | when each role's config is the live one, role-keyed and name-keyed resolution have the same outcomes |
| `Provenance.RendersDeepIff` | crates/stroem-common/src/template.rs:437-472 | deep rendering fails exactly when some string with a `{{`, at some place, does not render |
| `Provenance.RenderedByPlace` | crates/stroem-common/src/template.rs:437-472 | otherwise every such string at every place is its rendering and everything else stayed |
| `Provenance.DefaultByPlace` | crates/stroem-common/src/template.rs:987-1000 | a `json` default has its expressions replaced by their values, any other its strings rendered, place by place; when it fails |
| `Provenance.RenderDefault` | crates/stroem-common/src/template.rs:987-1000 | a default rendered once, by the rule of its field's type |
| `Provenance.MergeActionDefaults` | crates/stroem-common/src/template.rs:977-1009 | supplied fields untouched, absent fields with a default rendered once, nothing else; fails only on a default that does not render |
| `Provenance.ResolvedFieldsStay` | crates/stroem-common/src/template.rs:1202-1232 | a resolved field is never resolved again, against any config |
| `Provenance.PrepareActionInputRoles` | crates/stroem-common/src/template.rs:1202-1232 | supplied fields end with their caller-pass value, defaults with the owner-resolved value of one rendering; fails only if no such result exists |
| `Provenance.BucketFieldHasProvenance` | crates/stroem-common/src/template.rs:1358-1384 | a resolved connection field is an object from inside the task's workspace, or what the named connection means for its supplier |
| `Provenance.ResolveProvenanceBucket` | crates/stroem-common/src/template.rs:1358-1384 | succeeds exactly when only names cross the workspace boundary and every field resolves |
| `Provenance.ResolveTaskInputByProvenanceRoles` | crates/stroem-common/src/template.rs:1331-1356 | succeeds exactly when both buckets do; the caller's values win; every connection-typed output is an object from inside the task's workspace or an allowed connection's content |
| `DottedPath.PointerMachina.constructor` | crates/stroem-common/src/tera_compat.rs:111-120 | a fresh machine at the start of its pointer |
| `DottedPath.PointerMachina.EndToken` | crates/stroem-common/src/tera_compat.rs:122-135 | ends a token: emitted if not empty, otherwise the scan goes on; off a character boundary the machine breaks |
| `DottedPath.PointerMachina.Take` | crates/stroem-common/src/tera_compat.rs:137-200 | one byte: quotes, brackets, dots and the escape flag |
| `DottedPath.PointerMachina.Advance` | crates/stroem-common/src/tera_compat.rs:137-217 | the scan loop yields the specified token and machine |
| `DottedPath.Next` | crates/stroem-common/src/tera_compat.rs:137-217 | on every input, a token strictly advances the position, within one past the end |
| `DottedPath.ParseIndexIff` | crates/stroem-common/src/tera_compat.rs:221-226 | a token is an array index exactly when it is a canonical decimal numeral that fits |
| `DottedPath.StepIntoReaches` | crates/stroem-common/src/tera_compat.rs:230-247 | one traversal step reaches a value exactly when the key or index is there |
| `PrintedPath.UnescapeInvertsEscape` | crates/stroem-common/src/tera_compat.rs:230-247 | unescaping in the order of section 4 of RFC 6901 undoes the escaping of section 3 |
| `PrintedPath.TokensOfPrintedIff` | crates/stroem-common/src/tera_compat.rs:137-217 | a path printed with any mix of bare, quoted and bracketed segments is tokenized into its segments, escaped, if and only if whatever is in brackets is in quotes and right after a bare segment |
| `DottedPath.Dotted` | crates/stroem-common/src/tera_compat.rs:230-247 | terminates; follows all the tokens, or nothing when the machine broke |
| `DottedPath.FoldReaches` | crates/stroem-common/src/tera_compat.rs:230-247 | following tokens reaches a value exactly when step-by-step traversal does |
| `PrintedPath.DottedFollowsPieces` | crates/stroem-common/src/tera_compat.rs:230-247 | on such a path, exactly the value that plain key and index traversal of the segments reaches |
| `PrintedPath.DottedFollowsSegments` | crates/stroem-common/src/tera_compat.rs:230-247 | so on every path of segments joined by dots, those with a dot in double quotes |
| `PrintedPath.BareIndexFindsNothing` | crates/stroem-common/src/tera_compat.rs:137-217 | `a[0]` finds nothing although the list under `a` has a first element |
| `ShellWords.ReadQuoted` | crates/stroem-runner/src/script_exec.rs:56-58 | a quoted word reads back as itself, whatever is in it |
| `ShellWords.ArgumentsReadBack` | crates/stroem-runner/src/script_exec.rs:206-217 | the joined arguments read back as exactly those words, in order, none split or joined |
| `ShellWords.SuffixAppends` | crates/stroem-runner/src/script_exec.rs:363-374 | the argument suffix appends exactly those words to a line |
| `ShellWords.InstallLine` | crates/stroem-runner/src/script_exec.rs:65-105 | the install prefix is the tool's plain words, then the quoted dependencies |
| `ShellWords.LineIsOneCommand` | crates/stroem-runner/src/script_exec.rs:246-273 | a line of plain and quoted words is one command of exactly those words |
| `ShellWords.TwoLines` | crates/stroem-runner/src/script_exec.rs:259-301 | an install line and a run line are two commands |
| `ShellWords.InvocationReadsBack` | crates/stroem-runner/src/script_exec.rs:246-301 | an interpreter's command text means: install exactly the dependencies if the tool needs it, then run exactly the path with exactly the arguments |
| `Duration.ReadComponent` | crates/stroem-common/src/duration.rs:72-97 | one number and unit within 64 bits, or the first error that applies: no number, number too large, unknown unit, product too large |
| `Duration.ParseUnits` | crates/stroem-common/src/duration.rs:63-120 | accepts exactly the lists of valid components that are not all zero; the saturated sum |
| `Duration.ParseDuration` | crates/stroem-common/src/duration.rs:49-120 | accepts exactly the strings that mean a duration, with that meaning |
| `Duration.DisplayIsComponents` | crates/stroem-common/src/duration.rs:20-40 | the printed form is valid components that add up to the number |
| `Duration.DisplayParsesBack` | crates/stroem-common/src/duration.rs:20-40 | parsing the printed form gives the number back, for every positive 64-bit number |
| `Duration.UnitNotationMeansItsSum` | crates/stroem-common/src/duration.rs:63-120 | a list of valid components means its sum, saturated at the 64-bit maximum |
| `Duration.AcceptedIsPlainOrUnits` | crates/stroem-common/src/duration.rs:49-120 | everything accepted is a plain number or such a list |
| `FileField.SafeName` | crates/stroem-common/src/file_field.rs:28-58 | the in-place edits compute the safe form of the last path component |
| `FileField.BaseName` | crates/stroem-common/src/file_field.rs:29-29 | the longest suffix without a separator |
| `FileField.SafeNameIsSafe` | crates/stroem-common/src/file_field.rs:28-58 | every result is a non-empty component of safe characters, at most 128 bytes, neither hidden nor an option |
| `FileField.RefusedIff` | crates/stroem-common/src/file_field.rs:29-32 | a name is refused exactly when nothing, `.` or `..` follows its last separator |
| `FileField.CleanedByPlace` | crates/stroem-common/src/file_field.rs:33-45 | character by character: a safe one stays unless it is a leading dot or hyphen, any other becomes an underscore |
| `FileField.SafeIffUnchanged` | crates/stroem-common/src/file_field.rs:28-58 | the safe names are exactly those left as they are |
| `FileField.SafeNameIsIdempotent` | crates/stroem-common/src/file_field.rs:28-58 | a second pass changes nothing |
| `FileField.TruncatedKeepsTheFront` | crates/stroem-common/src/file_field.rs:46-56 | length capped at 128; the first 96 bytes always survive |
| `FileField.ShortExtensionSurvives` | crates/stroem-common/src/file_field.rs:46-56 | an extension of at most 32 bytes survives any cut, with as much of the front as fits |
| `FileField.FileIdIff` | crates/stroem-common/src/file_field.rs:66-70 | a file id is `file_` and 32 lowercase hexadecimal digits |
| `FileField.FileAtIff` | crates/stroem-common/src/file_field.rs:223-230 | a path leads to a file exactly when it is that file's path under that root |
| `FileField.ResolveTargetIff` | crates/stroem-common/src/file_field.rs:234-242 | a value names a file exactly when it is the file's id or its path |
| `FileField.ResolveInvertsPath` | crates/stroem-common/src/file_field.rs:147-151 | resolving undoes naming, under any root |
| `FileField.RebaseIsIdempotent` | crates/stroem-common/src/file_field.rs:201-220 | rebasing twice is rebasing once, at any depth |
| `FileField.RebaseActsOnEveryString` | crates/stroem-common/src/file_field.rs:201-220 | the shape is kept and every string at any depth is rebased on its own |
| `FileField.OtherStringsStay` | crates/stroem-common/src/file_field.rs:201-220 | a string that is no attached file's canonical path is left alone |
| `FileField.RebasedPathNamesItsFile` | crates/stroem-common/src/file_field.rs:201-242 | a rebased canonical path is the file's path and resolves to the same file |
| `FileField.NewJobFiles` | crates/stroem-common/src/file_field.rs:100-115 | the loop fills both maps, attachment by attachment |
| `FileField.FieldsHoldAttachedFiles` | crates/stroem-common/src/file_field.rs:100-115 | exactly the attached fields are there, each holds the id of an attached file, and valid attachments make a valid job |
| `FileField.LastAttachmentWins` | crates/stroem-common/src/file_field.rs:100-115 | the last attachment of a field is the one it holds; the last of a file id is its file |
| `FileField.TemplateInput` | crates/stroem-common/src/file_field.rs:155-168 | exactly the fields that still hold their own file's id become its path |

## Left out

- Classification of database rows (`from_row`), loop-instance names, claims, retries and loop steps: the flow model fires steps by the gate alone.
- A step's own work: its outcome once its gate opens is an arbitrary function of the step and of the outcomes its tree names.
- Error texts, logging, asynchronous scheduling and timeouts; an error is a constructor, and which of several failing fields is reported is left open, as it is in the code's map iteration.
- The message library's JSON form: serialisation is a parameter with two properties (round trip, current schema), shown to be consistent by `AgentCodec.FaithfulCodecExists`. Message kinds other than text, tool calls and tool results are one opaque constructor.
- A failed model call, job creation, save or output conversion ends the dispatch with an error; runs after such an exit are not modelled.
- 32-bit and 64-bit overflow of the turn and token counters: turns are bounded by 100, tokens are unbounded numbers.
- Tool definitions sent to the model, system prompts, temperature and the provider clients.
- "Exactly once" rendering is stated on a log that `JsonField.EvalSingle`, the only member of the walk that calls the engine, writes beside its call: Dafny functions leave no trace of their own.
- Identity of minted call ids and of new file ids: an oracle per position, respectively an argument.
- The template engine, its filters and date handling: rendering is an uninterpreted function of template and context.
- The error location of `render_value_deep`, and warnings about unknown connection fields.
- The name-keyed wrappers around the role-keyed resolvers, `merge_defaults`, `render_input_map` and re-run sentinels: each is one call or one branch away from what is modelled.
- The `if command -v` chain that tries several interpreters, the here-document script builder and the passthrough of shell files: the model covers the text of each branch, not the chain around it.
- `template_prepared`, which repeats `template_input` over a schema.
- Parsing of YAML and JSON into flows, actions and durations.
- Provenance.RenderDeep: models the deep renderer on values, as a function, because the source's in-place recursion is only observable through its result.
- FileField.Safe: characters stand for bytes once unsafe ones are replaced; an original name is a sequence of characters, not of bytes.
- DottedPath.Scan: strings are the bytes of their UTF-8 form, one per element.
- Kahn.Sort: the queue and the maps are values that the loop reassigns, so aliasing is not part of the model.
