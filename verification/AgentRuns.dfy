/** What holds over a whole agent step: any number of dispatches, suspended and
    resumed from the state they returned. */
module AgentRuns {
  import opened Results
  import opened Json
  import opened LegacyHistory
  import opened AgentMessages
  import opened AgentState
  import opened AgentLoop

  ghost function History(agent: Agent, st: Saved): seq<Message> {
    ParseHistory(agent.codec, st.messages)
  }

  ghost predicate AllInert(ms: seq<Json>) {
    forall m :: m in ms ==> IsInert(m)
  }

  lemma EncodedIsInert(agent: Agent, ms: seq<Message>)
    requires agent.codec.Faithful()
    ensures AllInert(agent.Encoded(ms))
  {
    forall i | 0 <= i < |ms| ensures IsInert(agent.Encoded(ms)[i]) {
      assert IsCurrent(agent.codec.encode(ms[i]));
      CurrentIsInert(agent.codec.encode(ms[i]));
    }
  }

  // ---- What one turn appends ---------------------------------------------------------

  /** The answers a turn appends to the conversation before it goes on or suspends. */
  ghost function RoutedAnswers(agent: Agent, world: World, turn: nat, calls: seq<ToolCall>): seq<Message> {
    var asks, tasks := OfKind(world, calls, AskUser), OfKind(world, calls, Task);
    UnknownAnswers(OfKind(world, calls, Unknown)) + McpAnswers(world, turn, OfKind(world, calls, Mcp)) +
    if asks != [] then
      if agent.interactive then [] else [AnswerMessage(asks[|asks| - 1], NOT_INTERACTIVE)]
    else RunTasks(agent, world, turn, tasks).answers
  }

  /** The state a turn hands on, if it does. */
  ghost function HandedOn(end: TurnEnd): Option<Saved> {
    match end
    case Continue(next) => Some(next)
    case Stop(Ok(WaitingForTools(st))) => Some(st)
    case Stop(Ok(WaitingForUser(st, _))) => Some(st)
    case Stop(_) => None
  }

  lemma RoutingAppends(agent: Agent, world: World, st: Saved, calls: seq<ToolCall>)
    ensures var next := HandedOn(RouteCalls(agent, world, st, calls));
      next.Some? ==>
        && next.value.messages == st.messages + agent.Encoded(RoutedAnswers(agent, world, st.turn, calls))
        && next.value.turn == st.turn
        && next.value.totalInput == st.totalInput && next.value.totalOutput == st.totalOutput
  {
    hide OfKind, UnknownAnswers, McpAnswers, ResolveTask;
    var unknown := UnknownAnswers(OfKind(world, calls, Unknown));
    var mcp := McpAnswers(world, st.turn, OfKind(world, calls, Mcp));
    var asks, tasks := OfKind(world, calls, AskUser), OfKind(world, calls, Task);
    var rest := if asks != [] then
                  if agent.interactive then [] else [AnswerMessage(asks[|asks| - 1], NOT_INTERACTIVE)]
                else RunTasks(agent, world, st.turn, tasks).answers;
    EncodeConcat(agent.codec, unknown, mcp);
    EncodeConcat(agent.codec, unknown + mcp, rest);
    assert st.messages + agent.Encoded(unknown) + agent.Encoded(mcp) + agent.Encoded(rest)
        == st.messages + agent.Encoded(unknown + mcp + rest);
    if rest == [] {
      assert agent.Encoded(unknown) + agent.Encoded(mcp) + [] == agent.Encoded(unknown) + agent.Encoded(mcp);
      var all := st.messages + agent.Encoded(unknown) + agent.Encoded(mcp);
      assert all + [] == all;
    }
  }

  /** What a turn asks and saves: the conversation so far, and on the first turn the prompt. */
  ghost function Asked(agent: Agent, now: Saved): seq<Message> {
    History(agent, now) + if now.turn == 1 then [PromptMessage(agent)] else []
  }

  /** The request is what was asked, unless nothing was. */
  lemma RequestIsAsked(agent: Agent, now: Saved)
    ensures Request(agent, now) == if Asked(agent, now) == [] then [CONTINUE] else Asked(agent, now)
  {}

  /** `next` is `now` once the model's reply and then `answers` were saved. */
  ghost predicate Appended(agent: Agent, now: Saved, reply: Reply, answers: seq<Message>, next: Saved) {
    && History(agent, next) == Asked(agent, now) + [Assistant(reply.id, reply.choice)] + answers
    && next.turn == now.turn
    && next.totalInput == now.totalInput + reply.input
    && next.totalOutput == now.totalOutput + reply.output
    && (AllInert(now.messages) ==> AllInert(next.messages))
  }

  lemma SavedMessagesAreAppended(agent: Agent, now: Saved, reply: Reply, answers: seq<Message>, next: Saved)
    requires agent.codec.Faithful()
    requires next.messages == Received(agent, now, reply).messages + agent.Encoded(answers)
    ensures History(agent, next) == Asked(agent, now) + [Assistant(reply.id, reply.choice)] + answers
    ensures AllInert(now.messages) ==> AllInert(next.messages)
  {
    var said := (if now.turn == 1 then [PromptMessage(agent)] else []) + [Assistant(reply.id, reply.choice)];
    ParseAppended(agent.codec, now.messages, said);
    ParseAppended(agent.codec, Received(agent, now, reply).messages, answers);
    EncodedIsInert(agent, said);
    EncodedIsInert(agent, answers);
    assert History(agent, now) + said == Asked(agent, now) + [Assistant(reply.id, reply.choice)];
  }

  /** A turn makes of what it asked exactly that, the reply, and the answers to its calls. */
  lemma TurnAppends(agent: Agent, world: World, now: Saved, reply: Reply)
    requires agent.codec.Faithful()
    ensures HandedOn(HandleReply(agent, world, now, reply)).Some? ==>
      Appended(agent, now, reply, RoutedAnswers(agent, world, now.turn, CallsOf(reply.choice)),
               HandedOn(HandleReply(agent, world, now, reply)).value)
  {
    var received, calls := Received(agent, now, reply), CallsOf(reply.choice);
    var next := HandedOn(RouteCalls(agent, world, received, calls));
    if calls != [] && next.Some? {
      RoutingAppends(agent, world, received, calls);
      SavedMessagesAreAppended(agent, now, reply, RoutedAnswers(agent, world, now.turn, calls), next.value);
    }
  }

  // ---- One dispatch --------------------------------------------------------------------

  /** Each conversation sent to the model continues the one before it, and is longer. */
  ghost predicate Chain(requests: seq<seq<Message>>) {
    forall i, j :: 0 <= i < j < |requests| ==> requests[i] < requests[j]
  }

  ghost predicate AllWithin(requests: seq<seq<Message>>, history: seq<Message>) {
    forall i :: 0 <= i < |requests| ==> requests[i] < history
  }

  ghost predicate AllContinue(requests: seq<seq<Message>>, history: seq<Message>) {
    forall i :: 0 <= i < |requests| ==> history <= requests[i]
  }

  /** The tokens of the `n` turns after turn `from`. */
  ghost function Tokens(world: World, from: nat, n: nat): (nat, nat)
    decreases n
  {
    if n == 0 then (0, 0)
    else
      var rest, reply := Tokens(world, from + 1, n - 1), world.llm(from + 1);
      if reply.Some? then (reply.value.input + rest.0, reply.value.output + rest.1) else rest
  }

  lemma {:induction false} TokensAdd(world: World, from: nat, n: nat, m: nat)
    ensures Tokens(world, from, n + m).0 == Tokens(world, from, n).0 + Tokens(world, from + n, m).0
    ensures Tokens(world, from, n + m).1 == Tokens(world, from, n).1 + Tokens(world, from + n, m).1
    decreases n
  {
    if n > 0 { TokensAdd(world, from + 1, n - 1, m); }
  }

  /** The state a dispatch left for a later resume. */
  ghost function SuspendedIn(end: End): Option<Saved> {
    match end
    case Ok(WaitingForTools(st)) => Some(st)
    case Ok(WaitingForUser(st, _)) => Some(st)
    case _ => None
  }

  /** `turn` and the totals are those of `st` and `n` more turns. */
  ghost predicate Adds(world: World, st: Saved, n: nat, turn: nat, totalInput: nat, totalOutput: nat) {
    && turn == st.turn + n
    && totalInput == st.totalInput + Tokens(world, st.turn, n).0
    && totalOutput == st.totalOutput + Tokens(world, st.turn, n).1
  }

  /** The trace's closing figures are those of `st` and `n` more turns. */
  ghost predicate Counted(world: World, st: Saved, n: nat, end: End) {
    match end
    case Ok(Completed(_, input, output, turns)) => Adds(world, st, n, turns, input, output)
    case Ok(WaitingForTools(next)) => Adds(world, st, n, next.turn, next.totalInput, next.totalOutput)
    case Ok(WaitingForUser(next, _)) => Adds(world, st, n, next.turn, next.totalInput, next.totalOutput)
    case _ => true
  }

  /** The requests that were saved: all of them, but for a first one that had nothing to send. */
  ghost function Kept(ready: bool, requests: seq<seq<Message>>): seq<seq<Message>> {
    if ready || requests == [] then requests else requests[1..]
  }

  /** The saved requests continue each other; one that was not saved is followed by a conversation without it. */
  ghost predicate Extends(ready: bool, requests: seq<seq<Message>>) {
    && Chain(Kept(ready, requests))
    && (!ready && requests != [] ==> requests[0] == [CONTINUE] && AllStartWithReply(requests[1..]))
  }

  ghost predicate AllStartWithReply(requests: seq<seq<Message>>) {
    forall i :: 0 <= i < |requests| ==> requests[i] != [] && requests[i][0].Assistant?
  }

  /** So the first request is continued exactly when it was saved. */
  lemma ExtendsMeans(ready: bool, requests: seq<seq<Message>>)
    requires Extends(ready, requests)
    ensures Chain(requests) <==> ready || |requests| <= 1
  {
    if !ready && |requests| > 1 {
      assert requests[1..][0] == requests[1] && requests[1][0] != requests[0][0];
      assert !(requests[0] < requests[1]);
    }
  }

  /** A dispatch from `st` that ended in `next`. */
  ghost predicate Hands(agent: Agent, requests: seq<seq<Message>>, st: Saved, next: Saved) {
    && requests != []
    && AllWithin(Kept(Ready(agent, st), requests), History(agent, next))
    && History(agent, st) < History(agent, next)
    && (!Ready(agent, st) ==> History(agent, next)[0].Assistant?)
    && (AllInert(st.messages) ==> AllInert(next.messages))
  }

  ghost predicate Sound(agent: Agent, world: World, st: Saved, trace: Trace) {
    && Extends(Ready(agent, st), trace.requests)
    && AllContinue(trace.requests, History(agent, st))
    && Counted(world, st, |trace.requests|, trace.end)
    && (trace.requests != [] ==> st.turn + |trace.requests| <= agent.MaxTurns())
    && (SuspendedIn(trace.end).Some? ==> Hands(agent, trace.requests, st, SuspendedIn(trace.end).value))
  }

  /** The next turn has something to send: a first turn its prompt, a later one the conversation. */
  ghost predicate Ready(agent: Agent, st: Saved) {
    st.turn == 0 || History(agent, st) != []
  }

  lemma ChainPush(first: seq<Message>, rest: seq<seq<Message>>, history: seq<Message>)
    requires first < history && Chain(rest) && AllContinue(rest, history)
    ensures Chain([first] + rest)
  {
    var all := [first] + rest;
    forall i, j | 0 <= i < j < |all| ensures all[i] < all[j] {
      assert all[j] == rest[j - 1] && history <= rest[j - 1];
      if i > 0 { assert all[i] == rest[i - 1]; }
    }
  }

  /** One more request, `asked` if that is not empty, before requests that continue `history`. */
  lemma ExtendsPush(asked: seq<Message>, reply: Message, history: seq<Message>, rest: seq<seq<Message>>)
    requires reply.Assistant? && asked + [reply] <= history && Chain(rest) && AllContinue(rest, history)
    ensures Extends(asked != [], [if asked == [] then [CONTINUE] else asked] + rest)
  {
    assert history[|asked|] == (asked + [reply])[|asked|];
    var all := [if asked == [] then [CONTINUE] else asked] + rest;
    assert all[1..] == rest;
    if asked == [] {
      forall i | 0 <= i < |rest| ensures rest[i] != [] && rest[i][0].Assistant? { assert history <= rest[i]; }
    } else {
      ChainPush(asked, rest, history);
    }
  }

  lemma CountedAfterTurn(world: World, st: Saved, reply: Reply, next: Saved, n: nat, end: End)
    requires world.llm(st.turn + 1) == Some(reply) && next.turn == st.turn + 1
    requires next.totalInput == st.totalInput + reply.input && next.totalOutput == st.totalOutput + reply.output
    requires Counted(world, next, n, end)
    ensures Counted(world, st, n + 1, end)
  {
    TokensAdd(world, st.turn, 1, n);
    assert Tokens(world, st.turn + 1, 0) == (0, 0);
  }

  /** The turn's request, its place in the conversation before and after. */
  lemma TurnGrows(agent: Agent, st: Saved, reply: Reply, answers: seq<Message>, next: Saved)
    requires Appended(agent, st.(turn := st.turn + 1), reply, answers, next)
    ensures var asked := Asked(agent, st.(turn := st.turn + 1));
      && Request(agent, st.(turn := st.turn + 1)) == (if asked == [] then [CONTINUE] else asked)
      && (Ready(agent, st) <==> asked != []) && Ready(agent, next)
      && History(agent, st) <= asked && asked + [Assistant(reply.id, reply.choice)] <= History(agent, next)
  {
    RequestIsAsked(agent, st.(turn := st.turn + 1));
  }

  lemma RequestsAfterTurn(before: seq<Message>, asked: seq<Message>, reply: Message, history: seq<Message>,
                          rest: seq<seq<Message>>)
    requires before <= asked && reply.Assistant? && asked + [reply] <= history
    requires Chain(rest) && AllContinue(rest, history)
    ensures var all := [if asked == [] then [CONTINUE] else asked] + rest;
      && Extends(asked != [], all) && AllContinue(all, before)
      && before < history && (asked == [] ==> history[0].Assistant?)
  {
    ExtendsPush(asked, reply, history, rest);
    assert history[|asked|] == (asked + [reply])[|asked|];
    var all := [if asked == [] then [CONTINUE] else asked] + rest;
    hide Extends, Chain;
    forall i | 0 <= i < |all| ensures before <= all[i] {
      if i > 0 { assert history <= rest[i - 1]; }
    }
  }

  lemma WithinAfterTurn(asked: seq<Message>, reply: Message, history: seq<Message>, rest: seq<seq<Message>>,
                        longer: seq<Message>)
    requires asked + [reply] <= history <= longer && AllWithin(rest, longer)
    ensures AllWithin(Kept(asked != [], [if asked == [] then [CONTINUE] else asked] + rest), longer)
  {
    var all := [if asked == [] then [CONTINUE] else asked] + rest;
    assert all[1..] == rest;
    assert asked < history;
  }

  /** A sound rest of the dispatch after one more turn is sound. */
  lemma SoundAfterTurn(agent: Agent, world: World, st: Saved, reply: Reply, answers: seq<Message>, next: Saved,
                       rest: Trace)
    requires world.llm(st.turn + 1) == Some(reply) && st.turn + 1 <= agent.MaxTurns()
    requires Appended(agent, st.(turn := st.turn + 1), reply, answers, next)
    requires Sound(agent, world, next, rest)
    ensures Sound(agent, world, st, rest.Preceded([Request(agent, st.(turn := st.turn + 1))]))
  {
    hide Request, History, Ready, Asked, Extends, Counted, Chain, Kept, AllWithin, AllContinue;
    var asked, said := Asked(agent, st.(turn := st.turn + 1)), Assistant(reply.id, reply.choice);
    CountedAfterTurn(world, st, reply, next, |rest.requests|, rest.end);
    TurnGrows(agent, st, reply, answers, next);
    ExtendsMeans(true, rest.requests);
    RequestsAfterTurn(History(agent, st), asked, said, History(agent, next), rest.requests);
    if SuspendedIn(rest.end).Some? {
      KeptAll(rest.requests);
      WithinAfterTurn(asked, said, History(agent, next), rest.requests, History(agent, SuspendedIn(rest.end).value));
    }
  }

  lemma KeptAll(requests: seq<seq<Message>>)
    ensures Kept(true, requests) == requests
  {}

  lemma CompletionCounts(agent: Agent, world: World, now: Saved, reply: Reply, end: Outcome)
    requires HandleReply(agent, world, now, reply) == Stop(Ok(end)) && end.Completed?
    ensures end.turns == now.turn
    ensures end.totalInput == now.totalInput + reply.input && end.totalOutput == now.totalOutput + reply.output
  {}

  /** A turn that ends the dispatch. */
  lemma SoundLastTurn(agent: Agent, world: World, st: Saved, reply: Reply, end: End)
    requires agent.codec.Faithful()
    requires world.llm(st.turn + 1) == Some(reply) && st.turn + 1 <= agent.MaxTurns()
    requires HandleReply(agent, world, st.(turn := st.turn + 1), reply) == Stop(end)
    ensures Sound(agent, world, st, Trace(end, [Request(agent, st.(turn := st.turn + 1))]))
  {
    hide HandleReply, RouteCalls, RoutedAnswers, Request, History, Asked, Ready, Extends, Kept;
    var now := st.(turn := st.turn + 1);
    TurnAppends(agent, world, now, reply);
    OneRequest(agent, st);
    OneTurnOfTokens(world, st.turn, reply);
    if end.Ok? && end.value.Completed? {
      CompletionCounts(agent, world, now, reply, end.value);
    }
    if SuspendedIn(end).Some? {
      var asked, said, next := Asked(agent, now), Assistant(reply.id, reply.choice), SuspendedIn(end).value;
      TurnGrows(agent, st, reply, RoutedAnswers(agent, world, now.turn, CallsOf(reply.choice)), next);
      RequestsAfterTurn(History(agent, st), asked, said, History(agent, next), []);
      WithinAfterTurn(asked, said, History(agent, next), [], History(agent, next));
      assert [Request(agent, now)] + [] == [Request(agent, now)];
    }
  }

  lemma OneRequest(agent: Agent, st: Saved)
    ensures var requests := [Request(agent, st.(turn := st.turn + 1))];
      Extends(Ready(agent, st), requests) && AllContinue(requests, History(agent, st))
  {
    RequestIsAsked(agent, st.(turn := st.turn + 1));
  }

  lemma OneTurnOfTokens(world: World, turn: nat, reply: Reply)
    requires world.llm(turn + 1) == Some(reply)
    ensures Tokens(world, turn, 1) == (reply.input, reply.output)
  {
    assert Tokens(world, turn + 1, 0) == (0, 0);
  }

  /** A dispatch that stops before its first turn, or on the model's failure in it. */
  lemma SoundFailure(agent: Agent, world: World, st: Saved)
    ensures Sound(agent, world, st, Trace(Ok(Failed), []))
    ensures st.turn + 1 <= agent.MaxTurns() ==>
      Sound(agent, world, st, Trace(Err(LlmFailed), [Request(agent, st.(turn := st.turn + 1))]))
  {
    OneRequest(agent, st);
    NoRequests(Ready(agent, st), History(agent, st));
    hide Ready, History, Request, Extends, AllContinue;
  }

  lemma NoRequests(ready: bool, history: seq<Message>)
    ensures Extends(ready, []) && AllContinue([], history)
  {}

  lemma {:induction false} LoopIsSound(agent: Agent, world: World, st: Saved)
    requires agent.codec.Faithful()
    ensures Sound(agent, world, st, Loop(agent, world, st))
    decreases agent.MaxTurns() + 1 - st.turn
  {
    hide HandleReply, RouteCalls, RoutedAnswers, Request, History, Sound, Appended;
    var now := st.(turn := st.turn + 1);
    if !world.cancelled(now.turn) && now.turn <= agent.MaxTurns() && world.llm(now.turn).Some? {
      var reply := world.llm(now.turn).value;
      match HandleReply(agent, world, now, reply)
      case Stop(end) => SoundLastTurn(agent, world, st, reply, end);
      case Continue(next) =>
        TurnAppends(agent, world, now, reply);
        LoopGoesOn(agent, world, st, next);
        LoopIsSound(agent, world, next);
        SoundAfterTurn(agent, world, st, reply, RoutedAnswers(agent, world, now.turn, CallsOf(reply.choice)), next,
                       Loop(agent, world, next));
    } else {
      SoundFailure(agent, world, st);
    }
  }

  // ---- A whole step: dispatches, suspensions, resumptions ------------------------------------

  /** One dispatch of the step: the state it resumes from and the results passed to it. */
  datatype Hop = Hop(start: Saved, results: seq<(string, string)>)

  ghost function HopTrace(agent: Agent, world: World, hop: Hop): Trace {
    Dispatch(agent, world, Some(hop.start), hop.results)
  }

  /** Each dispatch but the last suspended, and the next one resumed from that state after any
      moves of the server on it. */
  ghost predicate IsSession(agent: Agent, world: World, first: Saved, hops: seq<Hop>) {
    if |hops| == 0 then false
    else if |hops| == 1 then hops[0].start == first
    else
      && IsSession(agent, world, first, hops[..|hops| - 1])
      && SuspendedIn(HopTrace(agent, world, hops[|hops| - 2]).end).Some?
      && Follows(SuspendedIn(HopTrace(agent, world, hops[|hops| - 2]).end).value, hops[|hops| - 1].start)
  }

  ghost predicate Follows(suspended: Saved, start: Saved) {
    exists moves :: start == ApplyAll(suspended, moves)
  }

  /** Every conversation the step sent to the model, in order. */
  ghost function AllRequests(agent: Agent, world: World, hops: seq<Hop>): seq<seq<Message>> {
    if hops == [] then []
    else AllRequests(agent, world, hops[..|hops| - 1]) + HopTrace(agent, world, hops[|hops| - 1]).requests
  }

  /** The first dispatch has something to send: its prompt, a conversation that parses, or results to inject. */
  ghost predicate CanStart(agent: Agent, hop: Hop) {
    || hop.start.turn == 0
    || ParseHistory(agent.codec, Lifted(hop.start.messages, agent.lift)) != []
    || EffectiveResults(hop.start, hop.results) != []
  }

  lemma CanStartIsReady(agent: Agent, hop: Hop)
    requires agent.codec.Faithful()
    ensures CanStart(agent, hop) <==> Ready(agent, Resumed(agent, hop.start, hop.results))
  {
    var lifted, effective := Lifted(hop.start.messages, agent.lift), EffectiveResults(hop.start, hop.results);
    if effective != [] {
      ParseAppended(agent.codec, lifted, [User(ResumedAnswers(ParseHistory(agent.codec, lifted), effective))]);
    }
  }

  /** Resuming keeps the lifted conversation and adds at most one message of answers. */
  lemma ResumeContinues(agent: Agent, st: Saved, results: seq<(string, string)>)
    requires agent.codec.Faithful()
    ensures var history, resumed :=
      ParseHistory(agent.codec, Lifted(st.messages, agent.lift)), Resumed(agent, st, results);
      && history <= History(agent, resumed) && |History(agent, resumed)| <= |history| + 1
      && resumed.turn == st.turn && resumed.totalInput == st.totalInput && resumed.totalOutput == st.totalOutput
      && AllInert(resumed.messages)
  {
    var lifted := Lifted(st.messages, agent.lift);
    UpgradeLeavesInert(st.messages, agent.lift);
    var effective := EffectiveResults(st, results);
    if effective != [] {
      var answer := User(ResumedAnswers(ParseHistory(agent.codec, lifted), effective));
      ParseAppended(agent.codec, lifted, [answer]);
      EncodedIsInert(agent, [answer]);
    }
  }

  /** What a resume injects: the results passed to it, otherwise those the state collected, which are then gone; one
      message, each result under the call its handle finds. Nothing else of the state changes. */
  lemma ResumeInjects(agent: Agent, st: Saved, results: seq<(string, string)>, i: nat)
    requires agent.codec.Faithful()
    ensures var before := ParseHistory(agent.codec, Lifted(st.messages, agent.lift));
      var resumed := Resumed(agent, st, results);
      var n := if results != [] then |results| else |st.resolved|;
      && resumed.pending == st.pending && resumed.askUserCall == st.askUserCall
      && resumed.suspendedForAskUser == st.suspendedForAskUser
      && resumed.resolved == (if results == [] then [] else st.resolved)
      && (n == 0 ==> History(agent, resumed) == before)
      && (n > 0 ==> |History(agent, resumed)| == |before| + 1 && before < History(agent, resumed))
      && (n > 0 ==> History(agent, resumed)[|before|].User? && |History(agent, resumed)[|before|].answers| == n)
      && (i < n ==> History(agent, resumed)[|before|].answers[i] == Answer(
            if results != [] then ResumedToolResult(before, results[i].0, results[i].1)
            else ResumedToolResult(before, st.resolved[i].toolCallId, st.resolved[i].text)))
  {
    hide Lifted, ParseHistory, ResumedToolResult;
    var before, effective := ParseHistory(agent.codec, Lifted(st.messages, agent.lift)), EffectiveResults(st, results);
    if effective != [] {
      ParseAppended(agent.codec, Lifted(st.messages, agent.lift), [User(ResumedAnswers(before, effective))]);
    }
  }

  /** `all` is what the step sent so far, and `end` how its last dispatch ended. */
  ghost predicate StepSound(agent: Agent, world: World, ready: bool, first: Saved, all: seq<seq<Message>>, end: End) {
    && Extends(ready, all)
    && Counted(world, first, |all|, end)
    && (all != [] ==> first.turn + |all| <= agent.MaxTurns())
    && (SuspendedIn(end).Some? ==>
          var st := SuspendedIn(end).value;
          && all != [] && AllWithin(Kept(ready, all), History(agent, st)) && AllInert(st.messages)
          && History(agent, st) != [] && (!ready ==> History(agent, st)[0].Assistant?))
  }

  lemma FirstHopIsSound(agent: Agent, world: World, hop: Hop)
    requires agent.codec.Faithful()
    ensures var trace := HopTrace(agent, world, hop);
      StepSound(agent, world, CanStart(agent, hop), hop.start, trace.requests, trace.end)
  {
    hide Loop, Resumed, CanStart, History, Lifted, Extends, Kept, AllWithin, AllContinue, Tokens;
    ResumeContinues(agent, hop.start, hop.results);
    LoopIsSound(agent, world, Resumed(agent, hop.start, hop.results));
    CanStartIsReady(agent, hop);
  }

  lemma ChainConcat(a: seq<seq<Message>>, b: seq<seq<Message>>, between: seq<Message>)
    requires Chain(a) && Chain(b) && AllWithin(a, between) && AllContinue(b, between)
    ensures Chain(a + b)
  {
    var all := a + b;
    forall i, j | 0 <= i < j < |all| ensures all[i] < all[j] {
      if i < |a| <= j {
        assert a[i] < between && between <= b[j - |a|];
      }
    }
  }

  lemma WithinLonger(requests: seq<seq<Message>>, shorter: seq<Message>, longer: seq<Message>)
    requires AllWithin(requests, shorter) && shorter <= longer
    ensures AllWithin(requests, longer)
  {
    forall i | 0 <= i < |requests| ensures requests[i] < longer {
      assert requests[i] < shorter;
    }
  }

  lemma ExtendsConcat(ready: bool, a: seq<seq<Message>>, b: seq<seq<Message>>, between: seq<Message>)
    requires Extends(ready, a) && a != [] && AllWithin(Kept(ready, a), between)
    requires Chain(b) && AllContinue(b, between) && between != [] && (!ready ==> between[0].Assistant?)
    ensures Extends(ready, a + b) && Kept(ready, a + b) == Kept(ready, a) + b
  {
    assert (a + b)[1..] == a[1..] + b;
    ChainConcat(Kept(ready, a), b, between);
    forall i | 0 <= i < |b| ensures between <= b[i] {}
  }

  /** A sound dispatch from `resumed`, after the step sent `all` and reached `st`. */
  lemma SoundHopExtendsStep(agent: Agent, world: World, ready: bool, first: Saved, all: seq<seq<Message>>, st: Saved,
                            resumed: Saved, trace: Trace)
    requires Extends(ready, all) && all != [] && AllWithin(Kept(ready, all), History(agent, st))
    requires Adds(world, first, |all|, st.turn, st.totalInput, st.totalOutput)
    requires all != [] ==> first.turn + |all| <= agent.MaxTurns()
    requires SameConversation(resumed.(messages := st.messages), st) && History(agent, st) <= History(agent, resumed)
    requires History(agent, st) != [] && (!ready ==> History(agent, st)[0].Assistant?)
    requires AllInert(resumed.messages) && Sound(agent, world, resumed, trace)
    ensures StepSound(agent, world, ready, first, all + trace.requests, trace.end)
  {
    TokensAdd(world, first.turn, |all|, |trace.requests|);
    WithinLonger(Kept(ready, all), History(agent, st), History(agent, resumed));
    ExtendsMeans(true, trace.requests);
    ExtendsConcat(ready, all, trace.requests, History(agent, resumed));
    if SuspendedIn(trace.end).Some? {
      WithinLonger(Kept(ready, all), History(agent, resumed), History(agent, SuspendedIn(trace.end).value));
    }
  }

  /** The next dispatch of a step that suspended in `st` and was resumed after `moves`. */
  lemma NextHop(agent: Agent, world: World, st: Saved, moves: seq<Move>, results: seq<(string, string)>)
    returns (resumed: Saved)
    requires agent.codec.Faithful() && AllInert(st.messages) && History(agent, st) != []
    ensures SameConversation(resumed.(messages := st.messages), st) && History(agent, st) <= History(agent, resumed)
    ensures AllInert(resumed.messages)
    ensures Sound(agent, world, resumed, HopTrace(agent, world, Hop(ApplyAll(st, moves), results)))
  {
    hide Loop, Resumed, Sound;
    var start := ApplyAll(st, moves);
    MovesKeepConversation(st, moves);
    InertIsUntouched(start.messages, agent.lift);
    ResumeContinues(agent, start, results);
    resumed := Resumed(agent, start, results);
    LoopIsSound(agent, world, resumed);
  }

  /** Over any step, however often it suspends: each conversation sent to the model strictly continues
      the one before it, the totals are the sums over its turns, and the turn limit bounds the number
      of model calls. Only a first request that had nothing to send is not continued. */
  lemma {:induction false} StepIsSound(agent: Agent, world: World, first: Saved, hops: seq<Hop>)
    requires agent.codec.Faithful() && IsSession(agent, world, first, hops)
    ensures StepSound(agent, world, CanStart(agent, hops[0]), first, AllRequests(agent, world, hops),
                      HopTrace(agent, world, hops[|hops| - 1]).end)
    decreases |hops|
  {
    hide HopTrace, Sound, CanStart;
    var init, last := hops[..|hops| - 1], hops[|hops| - 1];
    if |hops| == 1 {
      FirstHopIsSound(agent, world, last);
      assert AllRequests(agent, world, init) == [];
      assert [] + HopTrace(agent, world, last).requests == HopTrace(agent, world, last).requests;
    } else {
      StepIsSound(agent, world, first, init);
      var st := SuspendedIn(HopTrace(agent, world, hops[|hops| - 2]).end).value;
      var moves :| last.start == ApplyAll(st, moves);
      var resumed := NextHop(agent, world, st, moves, last.results);
      SoundHopExtendsStep(agent, world, CanStart(agent, hops[0]), first, AllRequests(agent, world, init), st, resumed,
                          HopTrace(agent, world, last));
    }
  }

  /** The requests of a step all continue one another exactly when its first one had something to send. */
  lemma RequestsContinueIff(agent: Agent, world: World, first: Saved, hops: seq<Hop>)
    requires agent.codec.Faithful() && IsSession(agent, world, first, hops)
    ensures var all := AllRequests(agent, world, hops); Chain(all) <==> CanStart(agent, hops[0]) || |all| <= 1
  {
    hide HopTrace, CanStart;
    StepIsSound(agent, world, first, hops);
    ExtendsMeans(CanStart(agent, hops[0]), AllRequests(agent, world, hops));
  }

  lemma {:induction false} SessionStarts(agent: Agent, world: World, first: Saved, hops: seq<Hop>)
    requires IsSession(agent, world, first, hops)
    ensures hops[0].start == first
    decreases |hops|
  {
    if |hops| > 1 { SessionStarts(agent, world, first, hops[..|hops| - 1]); }
  }

  /** A step started fresh calls the model at most `min(max_turns, 100)` times, and every request but the first
      continues the one before it. */
  lemma ModelCallsAreBounded(agent: Agent, world: World, hops: seq<Hop>)
    requires agent.codec.Faithful() && IsSession(agent, world, NEW_STATE, hops)
    ensures |AllRequests(agent, world, hops)| <= agent.MaxTurns() <= 100
    ensures agent.maxTurns.Some? ==> agent.MaxTurns() <= agent.maxTurns.value
    ensures Chain(AllRequests(agent, world, hops))
  {
    hide HopTrace;
    StepIsSound(agent, world, NEW_STATE, hops);
    SessionStarts(agent, world, NEW_STATE, hops);
    RequestsContinueIff(agent, world, NEW_STATE, hops);
  }

  /** The state of every suspension is one the upgrade leaves alone, so a resume never rewrites history. */
  lemma ResumeUpgradeIsNoOp(agent: Agent, world: World, first: Saved, hops: seq<Hop>, moves: seq<Move>)
    requires agent.codec.Faithful() && IsSession(agent, world, first, hops)
    requires SuspendedIn(HopTrace(agent, world, hops[|hops| - 1]).end).Some?
    ensures var start := ApplyAll(SuspendedIn(HopTrace(agent, world, hops[|hops| - 1]).end).value, moves);
      Lifted(start.messages, agent.lift) == start.messages
  {
    hide HopTrace, CanStart;
    StepIsSound(agent, world, first, hops);
    var st := SuspendedIn(HopTrace(agent, world, hops[|hops| - 1]).end).value;
    MovesKeepConversation(st, moves);
    InertIsUntouched(st.messages, agent.lift);
  }
}
