/** The results of a suspended turn with their texts: each call gets what its
    own child job said. */
module AgentTexts {
  import opened Results
  import opened Bags
  import opened Json
  import opened LegacyHistory
  import opened AgentMessages
  import opened AgentState
  import opened AgentLoop
  import opened AgentRuns
  import opened AgentAnswers

  function AnsweredPair(c: UserContent): (CallId, string) {
    if c.Answer? then (c.result.call, c.result.text) else (Wire(""), "")
  }

  /** The ids that the tool results of the messages carry, each with its text. */
  ghost function AnswerPairs(ms: seq<Message>): multiset<(CallId, string)> {
    Bag(AnsweredPair, AnswersOf(ms))
  }

  lemma AnswerPairsConcat(a: seq<Message>, b: seq<Message>)
    ensures AnswerPairs(a + b) == AnswerPairs(a) + AnswerPairs(b)
  {
    AnswersOfConcat(a, b);
    BagConcat(AnsweredPair, AnswersOf(a), AnswersOf(b));
  }

  function First(pair: (CallId, string)): CallId { pair.0 }

  ghost function PairFound(calls: seq<ToolCall>): ((string, string)) -> (CallId, string) {
    (r: (string, string)) => (FoundId(calls, r.0), r.1)
  }

  /** The message injected on resume carries, for each result, its text under the id its handle finds. */
  lemma ResumedAnswerPairs(history: seq<Message>, k: nat, calls: seq<ToolCall>, results: seq<(string, string)>)
    requires LastTurn(history, k, calls)
    requires forall i :: 0 <= i < |results| ==> FirstMatch(calls, results[i].0).Some?
    ensures AnswerPairs(Injected(history, results)) == Bag(PairFound(calls), results)
  {
    hide FirstMatch, Bag;
    BagEmpty(AnsweredPair);
    BagEmpty(PairFound(calls));
    if results != [] {
      var answers := ResumedAnswers(history, results);
      assert answers == Map(ResumedFor(history), results);
      AnswersOfOne(answers);
      hide AnswersOf, ResumedAnswers;
      forall i | 0 <= i < |results|
        ensures PairFound(calls)(results[i]) == AnsweredPair(ResumedFor(history)(results[i]))
      {
        FindInLastTurn(history, k, calls, results[i].0);
      }
      BagOfMap(AnsweredPair, ResumedFor(history), PairFound(calls), results);
    }
  }

  /** Each delegated call's own id, with the text of its own child job. */
  ghost function OwnAnswers(delegated: seq<ToolCall>, pending: seq<PendingToolCall>, moves: seq<Move>)
    : seq<(CallId, string)>
    requires |delegated| == |pending|
  {
    seq(|pending|, i requires 0 <= i < |pending| => (delegated[i].id, TextFor(moves, pending[i].childJobId)))
  }

  /** With distinct child jobs, what the state collected is each pending call's id with its own job's text. */
  lemma CollectedAreOwn(waiting: Saved, moves: seq<Move>)
    requires AllDone(waiting, moves) && waiting.resolved == [] && DistinctChildren(waiting.pending)
    ensures var after := ApplyAll(waiting, moves);
      multiset(Map(ResultPair, after.resolved)) == multiset(Map(OwnResult(moves), waiting.pending))
  {
    hide Bag, ApplyAll, Map;
    var after, own := ApplyAll(waiting, moves), OwnResult(moves);
    ResultsAreOwn(waiting, moves, |moves|);
    assert moves[..|moves|] == moves;
    BagEmpty(own);
    BagEmpty(ResultPair);
    MultisetOfMap(ResultPair, after.resolved);
    MultisetOfMap(own, waiting.pending);
    assert multiset{} + Bag(ResultPair, after.resolved) == Bag(ResultPair, after.resolved);
    assert Bag(own, waiting.pending) + multiset{} == Bag(own, waiting.pending);
  }

  /** When no delegated call is shadowed, the handles of the pending calls find the calls they stand for. */
  lemma HandlesFindOwn(agent: Agent, world: World, calls: seq<ToolCall>, pending: seq<PendingToolCall>,
                       moves: seq<Move>)
    requires NoneShadowed(agent, world, calls)
    requires Map(PendingId, pending) == Map(WireOf, DelegatedCalls(agent, world, calls))
    ensures var delegated := DelegatedCalls(agent, world, calls);
      |delegated| == |pending|
      && Map(PairFound(calls), Map(OwnResult(moves), pending)) == OwnAnswers(delegated, pending, moves)
  {
    hide DelegatedCalls, Shadowed;
    var delegated := DelegatedCalls(agent, world, calls);
    assert |Map(PendingId, pending)| == |pending|;
    forall i | 0 <= i < |pending| ensures FoundId(calls, pending[i].toolCallId) == delegated[i].id {
      assert Map(PendingId, pending)[i] == Map(WireOf, delegated)[i];
      DelegatedIsCall(agent, world, calls, delegated[i]);
      var j :| 0 <= j < |calls| && calls[j] == delegated[i];
      var k := HandleFinds(calls, j);
    }
  }

  lemma PendingAreDelegated(agent: Agent, world: World, turn: nat, calls: seq<ToolCall>, pending: seq<PendingToolCall>)
    requires RunTasks(agent, world, turn, OfKind(world, calls, Task)).ok
    requires pending == RunTasks(agent, world, turn, OfKind(world, calls, Task)).pending
    ensures Map(PendingId, pending) == Map(WireOf, DelegatedCalls(agent, world, calls))
    ensures |DelegatedCalls(agent, world, calls)| == |pending|
  {
    hide RunTasks, OfKind, Filter;
    TasksAnsweredOrPending(agent, world, turn, OfKind(world, calls, Task));
    assert |Map(PendingId, pending)| == |pending|;
  }

  lemma InjectedAreOwn(agent: Agent, world: World, history: seq<Message>, k: nat, calls: seq<ToolCall>, waiting: Saved,
                       moves: seq<Move>)
    requires LastTurn(history, k, calls) && NoneShadowed(agent, world, calls)
    requires AllDone(waiting, moves) && waiting.resolved == [] && DistinctChildren(waiting.pending)
    requires Map(PendingId, waiting.pending) == Map(WireOf, DelegatedCalls(agent, world, calls))
    requires |DelegatedCalls(agent, world, calls)| == |waiting.pending|
    ensures AnswerPairs(Injected(history, Map(ResultPair, ApplyAll(waiting, moves).resolved)))
         == multiset(OwnAnswers(DelegatedCalls(agent, world, calls), waiting.pending, moves))
  {
    hide AnswerPairs, NoneShadowed, DelegatedCalls, ApplyAll, Bag, Injected, LastTurn, DistinctChildren, FirstMatch;
    hide OwnAnswers;
    var results, own := Map(ResultPair, ApplyAll(waiting, moves).resolved), Map(OwnResult(moves), waiting.pending);
    CollectedAreOwn(waiting, moves);
    forall i | 0 <= i < |results| ensures FirstMatch(calls, results[i].0).Some? {
      assert results[i] in multiset(own);
      var j :| 0 <= j < |own| && own[j] == results[i];
      assert Map(PendingId, waiting.pending)[j] in multiset(Map(WireOf, DelegatedCalls(agent, world, calls)));
      DelegatedHandleMatches(agent, world, calls, results[i].0);
    }
    ResumedAnswerPairs(history, k, calls, results);
    BagUnordered(PairFound(calls), results, own);
    MultisetOfMap(PairFound(calls), own);
    HandlesFindOwn(agent, world, calls, waiting.pending, moves);
  }

  /** Equal results have equal ids. */
  lemma PairsGiveIds(now: seq<Message>, answers: seq<Message>, delegated: seq<ToolCall>, pending: seq<PendingToolCall>,
                     moves: seq<Move>)
    requires |delegated| == |pending|
    ensures AnswerPairs(now) == AnswerPairs(answers) + multiset(OwnAnswers(delegated, pending, moves))
            ==> AnswerIds(now) == AnswerIds(answers) + CallIds(delegated)
  {
    hide AnswersOf, Bag;
    var own := OwnAnswers(delegated, pending, moves);
    var left, right := Map(AnsweredPair, AnswersOf(now)), Map(AnsweredPair, AnswersOf(answers));
    MultisetOfMap(AnsweredPair, AnswersOf(now));
    MultisetOfMap(AnsweredPair, AnswersOf(answers));
    assert multiset(right + own) == multiset(right) + multiset(own);
    if multiset(left) == multiset(right + own) {
      BagUnordered(First, left, right + own);
      BagConcat(First, right, own);
      BagOfMap(First, AnsweredPair, AnsweredId, AnswersOf(now));
      BagOfMap(First, AnsweredPair, AnsweredId, AnswersOf(answers));
      BagPointwise(First, own, IdOf, delegated);
    }
  }

  /** The results of a suspended turn, with their texts: with distinct child jobs, those answered at once and then each
      delegated call's own id with the text of its own job, if and only if no delegated call is shadowed. */
  lemma SuspendedTurnTextsIff(agent: Agent, world: World, st: Saved, calls: seq<ToolCall>, waiting: Saved,
                              moves: seq<Move>)
    requires agent.codec.Faithful() && SuspendedAt(agent, world, st, calls, waiting) && AllDone(waiting, moves)
    requires DistinctIds(calls) && DistinctChildren(waiting.pending)
    ensures var before, now := History(agent, st), History(agent, Resumed(agent, ApplyAll(waiting, moves), []));
      var delegated := DelegatedCalls(agent, world, calls);
      && before <= now && |delegated| == |waiting.pending|
      && (AnswerPairs(now[|before|..]) == AnswerPairs(RoutedAnswers(agent, world, st.turn, calls))
                                          + multiset(OwnAnswers(delegated, waiting.pending, moves))
          <==> NoneShadowed(agent, world, calls))
  {
    hide AnswerPairs, NoneShadowed, DelegatedCalls, RoutedAnswers, Resumed, ApplyAll, ParseHistory, DistinctIds;
    hide RouteCalls, RunTasks, OfKind, Bag, CallsOf, Injected, LastTurn, Map, DistinctChildren;
    var answers, delegated := RoutedAnswers(agent, world, st.turn, calls), DelegatedCalls(agent, world, calls);
    var before, after := History(agent, st), ApplyAll(waiting, moves);
    ResumedTurn(agent, world, st, calls, waiting, moves);
    PendingAreDelegated(agent, world, st.turn, calls, waiting.pending);
    var injected := Injected(before + answers, Map(ResultPair, after.resolved));
    assert (before + answers + injected)[|before|..] == answers + injected;
    AnswerPairsConcat(answers, injected);
    if NoneShadowed(agent, world, calls) {
      InjectedAreOwn(agent, world, before + answers, |before| - 1, calls, waiting, moves);
    } else {
      SuspendedTurnAnsweredIff(agent, world, st, calls, waiting, moves);
      TurnAnswersTheRest(agent, world, st.turn, calls);
      PairsGiveIds(answers + injected, answers, delegated, waiting.pending, moves);
    }
  }
}
