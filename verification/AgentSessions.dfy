/** Over a whole step, resumed as the server resumes it: every tool call of
    every turn without `ask_user` is answered in every later request. */
module AgentSessions {
  import opened Results
  import opened Bags
  import opened Json
  import opened LegacyHistory
  import opened AgentMessages
  import opened AgentState
  import opened AgentLoop
  import opened AgentRuns
  import opened AgentAnswers

  // ---- Turns of a conversation ----------------------------------------------------------

  /** Where the next assistant message is, from `i` on, or the end. */
  ghost function NextReply(h: seq<Message>, i: nat): (n: nat)
    requires i <= |h|
    ensures i <= n <= |h| && (n < |h| ==> h[n].Assistant?)
    ensures forall k :: i <= k < n ==> !h[k].Assistant?
    decreases |h| - i
  {
    if i == |h| || h[i].Assistant? then i else NextReply(h, i + 1)
  }

  /** What was said between the message at `i` and the next assistant message. */
  ghost function After(h: seq<Message>, i: nat): seq<Message>
    requires i < |h|
  {
    h[i + 1..NextReply(h, i + 1)]
  }

  /** The results in `answers` answer the calls of `said`, each once and under its own id, if and only if no delegated
      call is shadowed; nothing is said of a turn that asks the user or repeats an id. */
  ghost predicate AnswersTurn(agent: Agent, world: World, said: Message, answers: seq<Message>)
    requires said.Assistant?
  {
    var calls := CallsOf(said.content);
    OfKind(world, calls, AskUser) == [] && DistinctIds(calls) ==>
      (AnswerIds(answers) == CallIds(calls) <==> NoneShadowed(agent, world, calls))
  }

  /** The turns of the conversation from `base` on are answered. */
  ghost predicate TurnsAnswered(agent: Agent, world: World, h: seq<Message>, base: nat) {
    forall i :: base <= i < |h| && h[i].Assistant? ==> AnswersTurn(agent, world, h[i], After(h, i))
  }

  ghost predicate AllUser(ms: seq<Message>) {
    forall m :: m in ms ==> m.User?
  }

  lemma AfterIsKept(h: seq<Message>, said: Message, answers: seq<Message>, i: nat)
    requires said.Assistant? && AllUser(answers) && i <= |h|
    ensures i < |h| ==> After(h + [said] + answers, i) == After(h, i)
    ensures i == |h| ==> After(h + [said] + answers, i) == answers
  {
    var all := h + [said] + answers;
    assert all[|h|] == said;
    if i < |h| {
      var n := NextReply(h, i + 1);
      assert forall k :: 0 <= k < |h| ==> all[k] == h[k];
      assert NextReply(all, i + 1) == n;
      assert all[i + 1..n] == h[i + 1..n];
    } else {
      forall k | |h| < k < |all| ensures !all[k].Assistant? { assert all[k] in answers; }
      assert NextReply(all, |h| + 1) == |all|;
      assert all[|h| + 1..] == answers;
    }
  }

  /** One more turn, and its answers. */
  lemma TurnsAnsweredPush(agent: Agent, world: World, h: seq<Message>, base: nat, said: Message, answers: seq<Message>)
    requires TurnsAnswered(agent, world, h, base)
    requires said.Assistant? && AllUser(answers) && AnswersTurn(agent, world, said, answers)
    ensures TurnsAnswered(agent, world, h + [said] + answers, base)
  {
    hide AnswersTurn, After;
    var all := h + [said] + answers;
    forall i | base <= i < |all| && all[i].Assistant? ensures AnswersTurn(agent, world, all[i], After(all, i)) {
      assert i <= |h| by {
        assert forall k :: |h| < k < |all| ==> all[k] in answers;
      }
      assert all[i] == if i < |h| then h[i] else said;
      AfterIsKept(h, said, answers, i);
    }
  }

  lemma AfterUser(h: seq<Message>, m: Message, i: nat)
    requires m.User? && i < |h|
    ensures After(h + [m], i) == After(h, i) || After(h + [m], i) == After(h, i) + [m]
  {
    var all, n := h + [m], NextReply(h, i + 1);
    assert forall k :: 0 <= k < |h| ==> all[k] == h[k];
    assert all[|h|] == m;
    if n < |h| {
      assert NextReply(all, i + 1) == n;
      assert all[i + 1..n] == h[i + 1..n];
    } else {
      assert NextReply(all, i + 1) == |all|;
      assert all[i + 1..|all|] == h[i + 1..|h|] + [m];
    }
  }

  /** A message that answers nothing changes nothing. */
  lemma PromptAnswersNothing(agent: Agent, world: World, h: seq<Message>, base: nat, prompt: string)
    requires TurnsAnswered(agent, world, h, base)
    ensures TurnsAnswered(agent, world, h + [User([Prompt(prompt)])], base)
  {
    hide AnswerIds, CallIds, OfKind, DistinctIds, NoneShadowed, CallsOf, After;
    var asked := User([Prompt(prompt)]);
    var all := h + [asked];
    forall i | base <= i < |all| && all[i].Assistant? ensures AnswersTurn(agent, world, all[i], After(all, i)) {
      assert i < |h| && all[i] == h[i];
      AfterUser(h, asked, i);
      AnswerIdsConcat(After(h, i), [asked]);
      NoAnswerIn(prompt);
      assert AnswerIds(After(h, i)) + multiset{} == AnswerIds(After(h, i));
    }
  }

  lemma NoAnswerIn(prompt: string)
    ensures AnswerIds([User([Prompt(prompt)])]) == multiset{}
  {
    var asked := User([Prompt(prompt)]);
    assert Filter(IsAnswer, [Prompt(prompt)]) == [] by { assert [Prompt(prompt)][..0] == []; }
    assert [asked][..0] == [] && AnswersOf([asked]) == [];
  }

  // ---- The states turns start from ----------------------------------------------------------

  ghost predicate Clean(st: Saved) {
    st.pending == [] && st.resolved == []
  }

  /** Nothing is left over from earlier turns, and they are answered. */
  ghost predicate Good(agent: Agent, world: World, base: nat, st: Saved) {
    AllInert(st.messages) && Clean(st) && TurnsAnswered(agent, world, History(agent, st), base)
  }

  /** How the server resumes a step: once every child job finished, or once the user answered. */
  ghost predicate Resumption(end: End, start: Saved) {
    match end
    case Ok(WaitingForTools(st)) => exists moves :: AllDone(st, moves) && start == ApplyAll(st, moves)
    case Ok(WaitingForUser(st, _)) => exists text :: start == Apply(st, UserAnswered(text))
    case _ => false
  }

  ghost predicate ResumesGood(agent: Agent, world: World, base: nat, end: End) {
    forall start :: Resumption(end, start) ==> Good(agent, world, base, Resumed(agent, start, []))
  }

  lemma AskedIsAnswered(agent: Agent, world: World, base: nat, now: Saved)
    requires TurnsAnswered(agent, world, History(agent, now), base)
    ensures TurnsAnswered(agent, world, Asked(agent, now), base)
    ensures TurnsAnswered(agent, world, Request(agent, now), base)
  {
    hide TurnsAnswered, ParseHistory;
    RequestIsAsked(agent, now);
    if now.turn == 1 {
      PromptAnswersNothing(agent, world, History(agent, now), base, agent.prompt);
    } else {
      assert History(agent, now) + [] == History(agent, now);
    }
    NoTurns(agent, world, base);
  }

  lemma NoTurns(agent: Agent, world: World, base: nat)
    ensures TurnsAnswered(agent, world, [CONTINUE], base)
  {}

  /** Resuming leaves nothing pending and nothing to inject. */
  lemma ResumedIsClean(agent: Agent, start: Saved)
    requires agent.codec.Faithful() && start.pending == []
    ensures Clean(Resumed(agent, start, [])) && AllInert(Resumed(agent, start, []).messages)
  {
    ResumeContinues(agent, start, []);
  }

  // ---- One turn ---------------------------------------------------------------------------------

  lemma ContinueKeepsClean(agent: Agent, world: World, now: Saved, reply: Reply)
    requires HandleReply(agent, world, now, reply).Continue? && Clean(now)
    ensures Clean(HandleReply(agent, world, now, reply).next) && CallsOf(reply.choice) != []
    ensures OfKind(world, CallsOf(reply.choice), AskUser) == [] ==> OfKind(world, CallsOf(reply.choice), Task) == []
  {
    hide OfKind, CallsOf, EncodeAll, UnknownAnswers, McpAnswers;
  }

  /** A turn that goes on. */
  lemma ContinuedTurnIsGood(agent: Agent, world: World, base: nat, now: Saved, reply: Reply, next: Saved)
    requires agent.codec.Faithful() && Good(agent, world, base, now)
    requires HandleReply(agent, world, now, reply) == Continue(next)
    ensures Good(agent, world, base, next)
  {
    hide HandleReply, RoutedAnswers, TurnsAnswered, History, Asked, CallsOf, OfKind, RunTasks;
    var calls, said := CallsOf(reply.choice), Assistant(reply.id, reply.choice);
    var answers := RoutedAnswers(agent, world, now.turn, calls);
    TurnAppends(agent, world, now, reply);
    ContinueKeepsClean(agent, world, now, reply);
    AskedIsAnswered(agent, world, base, now);
    RunNoTasks(agent, world, now.turn);
    RoutedAnswersAreUser(agent, world, now.turn, calls);
    if OfKind(world, calls, AskUser) == [] { NoTasksAnswered(agent, world, now.turn, calls); }
    TurnsAnsweredPush(agent, world, Asked(agent, now), base, said, answers);
  }

  lemma NoTasksAnswered(agent: Agent, world: World, turn: nat, calls: seq<ToolCall>)
    requires OfKind(world, calls, AskUser) == [] && OfKind(world, calls, Task) == []
    ensures AnswerIds(RoutedAnswers(agent, world, turn, calls)) == CallIds(calls) && NoneShadowed(agent, world, calls)
  {
    hide RoutedAnswers, OfKind, AnswerIds, CallIds;
    RunNoTasks(agent, world, turn);
    TurnAnswersTheRest(agent, world, turn, calls);
    NothingDelegated(agent, world, calls);
    assert AnswerIds(RoutedAnswers(agent, world, turn, calls)) + multiset{} ==
      AnswerIds(RoutedAnswers(agent, world, turn, calls));
  }

  /** A turn that suspended on child jobs, once the step is resumed. */
  lemma ToolTurnIsGood(agent: Agent, world: World, base: nat, now: Saved, reply: Reply, waiting: Saved,
                       moves: seq<Move>)
    requires agent.codec.Faithful() && Good(agent, world, base, now)
    requires HandleReply(agent, world, now, reply) == Stop(Ok(WaitingForTools(waiting))) && AllDone(waiting, moves)
    ensures Good(agent, world, base, Resumed(agent, ApplyAll(waiting, moves), []))
  {
    hide RoutedAnswers, TurnsAnswered, ParseHistory, Asked, CallsOf, RunTasks, Resumed, ApplyAll, Injected, RouteCalls;
    hide AnswerIds, CallIds, NoneShadowed, OfKind, DistinctIds;
    var calls, said, start := CallsOf(reply.choice), Assistant(reply.id, reply.choice), ApplyAll(waiting, moves);
    var received := ReceivedReply(agent, now, reply);
    ToolTurnHasNoAsk(agent, world, now, reply);
    ResumedTurn(agent, world, received, calls, waiting, moves);
    var answers := RoutedAnswers(agent, world, received.turn, calls);
    var injected := Injected(History(agent, received) + answers, Map(ResultPair, start.resolved));
    RoutedAnswersAreUser(agent, world, received.turn, calls);
    InjectedIsUser(History(agent, received) + answers, Map(ResultPair, start.resolved));
    var asked, suffix := Asked(agent, now), answers + injected;
    assert asked + [said] + suffix == asked + [said] + answers + injected;
    if DistinctIds(calls) {
      SuspendedTurnAnsweredIff(agent, world, received, calls, waiting, moves);
      assert (asked + [said] + suffix)[|asked + [said]|..] == suffix;
    }
    AskedIsAnswered(agent, world, base, now);
    TurnsAnsweredPush(agent, world, asked, base, said, suffix);
    ResumedIsClean(agent, start);
  }

  lemma InjectedIsUser(history: seq<Message>, results: seq<(string, string)>)
    ensures AllUser(Injected(history, results))
  {}

  lemma ToolTurnHasNoAsk(agent: Agent, world: World, now: Saved, reply: Reply)
    ensures match HandleReply(agent, world, now, reply)
            case Stop(Ok(WaitingForTools(waiting))) =>
              && OfKind(world, CallsOf(reply.choice), AskUser) == []
              && RouteCalls(agent, world, Received(agent, now, reply), CallsOf(reply.choice)) ==
                Stop(Ok(WaitingForTools(waiting)))
            case Stop(Ok(WaitingForUser(waiting, message))) =>
              && OfKind(world, CallsOf(reply.choice), AskUser) != [] && waiting.pending == now.pending
              && RouteCalls(agent, world, Received(agent, now, reply), CallsOf(reply.choice))
                 == Stop(Ok(WaitingForUser(waiting, message)))
            case _ => true
  {
    hide OfKind, CallsOf, EncodeAll, UnknownAnswers, McpAnswers, RunTasks;
  }

  /** A turn that suspended on the user, once they answered and the step is resumed. */
  lemma UserTurnIsGood(agent: Agent, world: World, base: nat, now: Saved, reply: Reply, waiting: Saved, message: string,
                       text: string)
    requires agent.codec.Faithful() && Good(agent, world, base, now)
    requires HandleReply(agent, world, now, reply) == Stop(Ok(WaitingForUser(waiting, message)))
    ensures Good(agent, world, base, Resumed(agent, Apply(waiting, UserAnswered(text)), []))
  {
    hide RoutedAnswers, TurnsAnswered, ParseHistory, Asked, CallsOf, RunTasks, Resumed, Injected, RouteCalls, OfKind;
    var calls, said := CallsOf(reply.choice), Assistant(reply.id, reply.choice);
    var start := Apply(waiting, UserAnswered(text));
    var received := ReceivedReply(agent, now, reply);
    ToolTurnHasNoAsk(agent, world, now, reply);
    SuspendedOnUser(agent, world, received, calls, waiting, message);
    var answers, results := RoutedAnswers(agent, world, received.turn, calls), EffectiveResults(start, []);
    ResumedHistory(agent, received, answers, start);
    var injected := Injected(History(agent, received) + answers, results);
    RoutedAnswersAreUser(agent, world, received.turn, calls);
    InjectedIsUser(History(agent, received) + answers, results);
    var asked, suffix := Asked(agent, now), answers + injected;
    assert asked + [said] + suffix == asked + [said] + answers + injected;
    AskedIsAnswered(agent, world, base, now);
    TurnsAnsweredPush(agent, world, asked, base, said, suffix);
    ResumedIsClean(agent, start);
  }

  // ---- One dispatch, and a whole step --------------------------------------------------------------

  ghost predicate AllAnswered(agent: Agent, world: World, base: nat, requests: seq<seq<Message>>) {
    forall i :: 0 <= i < |requests| ==> TurnsAnswered(agent, world, requests[i], base)
  }

  lemma LastTurnResumesGood(agent: Agent, world: World, base: nat, now: Saved, reply: Reply, end: End)
    requires agent.codec.Faithful() && Good(agent, world, base, now)
    requires HandleReply(agent, world, now, reply) == Stop(end)
    ensures ResumesGood(agent, world, base, end)
  {
    hide HandleReply, Good, Resumed, ApplyAll, Apply, AllDone;
    forall start | Resumption(end, start) ensures Good(agent, world, base, Resumed(agent, start, [])) {
      match end
      case Ok(WaitingForTools(waiting)) =>
        var moves :| AllDone(waiting, moves) && start == ApplyAll(waiting, moves);
        ToolTurnIsGood(agent, world, base, now, reply, waiting, moves);
      case Ok(WaitingForUser(waiting, message)) =>
        var text :| start == Apply(waiting, UserAnswered(text));
        UserTurnIsGood(agent, world, base, now, reply, waiting, message, text);
    }
  }

  lemma {:induction false} LoopAnswersTurns(agent: Agent, world: World, base: nat, st: Saved)
    requires agent.codec.Faithful() && Good(agent, world, base, st)
    ensures AllAnswered(agent, world, base, Loop(agent, world, st).requests)
    ensures ResumesGood(agent, world, base, Loop(agent, world, st).end)
    decreases agent.MaxTurns() + 1 - st.turn
  {
    hide HandleReply, Request, TurnsAnswered, History;
    var now := st.(turn := st.turn + 1);
    SameHistory(agent, st, now);
    AskedIsAnswered(agent, world, base, now);
    if !world.cancelled(now.turn) && now.turn <= agent.MaxTurns() && world.llm(now.turn).Some? {
      var reply := world.llm(now.turn).value;
      match HandleReply(agent, world, now, reply)
      case Stop(end) => LastTurnResumesGood(agent, world, base, now, reply, end);
      case Continue(next) =>
        ContinuedTurnIsGood(agent, world, base, now, reply, next);
        LoopGoesOn(agent, world, st, next);
        LoopAnswersTurns(agent, world, base, next);
    }
  }

  lemma SameHistory(agent: Agent, a: Saved, b: Saved)
    requires a.messages == b.messages
    ensures History(agent, a) == History(agent, b)
  {}

  /** A step as the server and the workers run it: it starts with no call pending, a worker passes no results of its
      own, and each dispatch but the first resumes the suspension before it. */
  ghost predicate IsServed(agent: Agent, world: World, first: Saved, hops: seq<Hop>) {
    if |hops| == 0 then false
    else if |hops| == 1 then hops[0] == Hop(first, []) && first.pending == []
    else
      && IsServed(agent, world, first, hops[..|hops| - 1])
      && hops[|hops| - 1].results == []
      && Resumption(HopTrace(agent, world, hops[|hops| - 2]).end, hops[|hops| - 1].start)
  }

  /** Such a step is one of the steps above. */
  lemma {:induction false} ServedIsSession(agent: Agent, world: World, first: Saved, hops: seq<Hop>)
    requires IsServed(agent, world, first, hops)
    ensures IsSession(agent, world, first, hops)
    decreases |hops|
  {
    hide HopTrace, Apply;
    if |hops| > 1 {
      ServedIsSession(agent, world, first, hops[..|hops| - 1]);
      match HopTrace(agent, world, hops[|hops| - 2]).end
      case Ok(WaitingForTools(_)) =>
      case Ok(WaitingForUser(st, _)) =>
        var text :| hops[|hops| - 1].start == Apply(st, UserAnswered(text));
        var moves := [UserAnswered(text)];
        assert moves[..0] == [] && ApplyAll(st, moves) == hops[|hops| - 1].start;
      case _ =>
    }
  }

  /** In every conversation such a step sends to the model, every earlier turn of the step that does not ask the user
      and repeats no id has exactly one result for each of its calls, under that call's own id, if and only if no
      delegated call of the turn is shadowed. */
  lemma {:induction false} EveryTurnIsAnswered(agent: Agent, world: World, first: Saved, hops: seq<Hop>)
    requires agent.codec.Faithful() && IsServed(agent, world, first, hops)
    ensures var base := |History(agent, Resumed(agent, first, []))|;
      && AllAnswered(agent, world, base, AllRequests(agent, world, hops))
      && ResumesGood(agent, world, base, HopTrace(agent, world, hops[|hops| - 1]).end)
    decreases |hops|
  {
    hide Loop, Resumed, History, TurnsAnswered, ResumesGood;
    var base := |History(agent, Resumed(agent, first, []))|;
    var init, last := hops[..|hops| - 1], hops[|hops| - 1];
    if |hops| == 1 {
      ResumedIsClean(agent, first);
      NothingSaidYet(agent, world, History(agent, Resumed(agent, first, [])));
      assert AllRequests(agent, world, init) == [];
    } else {
      EveryTurnIsAnswered(agent, world, first, init);
      ResumesAt(agent, world, base, HopTrace(agent, world, hops[|hops| - 2]).end, last.start);
    }
    LoopAnswersTurns(agent, world, base, Resumed(agent, last.start, []));
  }

  lemma NothingSaidYet(agent: Agent, world: World, h: seq<Message>)
    ensures TurnsAnswered(agent, world, h, |h|)
  {}

  lemma ResumesAt(agent: Agent, world: World, base: nat, end: End, start: Saved)
    requires ResumesGood(agent, world, base, end) && Resumption(end, start)
    ensures Good(agent, world, base, Resumed(agent, start, []))
  {}
}
