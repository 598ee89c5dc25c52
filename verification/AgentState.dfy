/** The persisted state of a multi-turn agent step, and the server's moves on
    it while the step is suspended. */
module AgentState {
  import opened Results
  import opened Json
  import opened Bags

  datatype PendingToolCall = PendingToolCall(toolCallId: string, toolName: string, childJobId: string)

  datatype AskUserCall = AskUserCall(toolCallId: string, message: string)

  datatype ResolvedToolResult = ResolvedToolResult(toolCallId: string, text: string)

  /** The state as it is saved between suspensions. */
  datatype Saved = Saved(
    messages: seq<Json>,
    turn: nat,
    totalInput: nat,
    totalOutput: nat,
    pending: seq<PendingToolCall>,
    suspendedForAskUser: bool,
    askUserCall: Option<AskUserCall>,
    resolved: seq<ResolvedToolResult>)

  const NEW_STATE := Saved([], 0, 0, 0, [], false, None, [])

  // ---- Server moves on the saved value ----------------------------------------------

  function Position(pending: seq<PendingToolCall>, child: string): (k: nat)
    ensures k <= |pending|
    ensures forall i :: 0 <= i < k ==> pending[i].childJobId != child
    ensures k < |pending| ==> pending[k].childJobId == child
  {
    if pending == [] || pending[0].childJobId == child then 0 else 1 + Position(pending[1..], child)
  }

  /** `pending` less the call at `k`. */
  function Without(pending: seq<PendingToolCall>, k: nat): seq<PendingToolCall>
    requires k < |pending|
  {
    pending[..k] + pending[k + 1..]
  }

  /** A move of the server on a suspended step: a child job finished, or the user answered. */
  datatype Move = ChildDone(child: string, text: string) | UserAnswered(text: string)

  function Apply(st: Saved, move: Move): Saved {
    match move
    case ChildDone(child, text) =>
      var k := Position(st.pending, child);
      if k == |st.pending| then st
      else st.(pending := Without(st.pending, k),
               resolved := st.resolved + [ResolvedToolResult(st.pending[k].toolCallId, text)])
    case UserAnswered(text) =>
      var id := if st.askUserCall.Some? then st.askUserCall.value.toolCallId else "";
      st.(askUserCall := None, suspendedForAskUser := false,
          resolved := st.resolved + [ResolvedToolResult(id, text)])
  }

  ghost function ApplyAll(st: Saved, moves: seq<Move>): Saved {
    if moves == [] then st else Apply(ApplyAll(st, moves[..|moves| - 1]), moves[|moves| - 1])
  }

  // ---- Tool call ids are conserved -----------------------------------------------------

  function PendingId(p: PendingToolCall): string { p.toolCallId }

  function ResolvedId(r: ResolvedToolResult): string { r.toolCallId }

  ghost function Ids(st: Saved): multiset<string> {
    Bag(PendingId, st.pending) + Bag(ResolvedId, st.resolved)
  }

  /** A finished child moves one id from pending to resolved and loses none; an unknown child changes nothing. */
  lemma ChildDoneConservesIds(st: Saved, child: string, text: string)
    ensures Ids(Apply(st, ChildDone(child, text))) == Ids(st)
  {
    hide Bag, Position;
    var k := Position(st.pending, child);
    if k < |st.pending| {
      BagMove(PendingId, st.pending, k, ResolvedId, st.resolved, ResolvedToolResult(st.pending[k].toolCallId, text));
    }
  }

  /** Any number of finished children, in any order. */
  lemma {:induction false} ChildrenConserveIds(st: Saved, moves: seq<Move>)
    requires forall m :: m in moves ==> m.ChildDone?
    ensures Ids(ApplyAll(st, moves)) == Ids(st)
    decreases |moves|
  {
    if moves != [] {
      var init, last := moves[..|moves| - 1], moves[|moves| - 1];
      assert last in moves && forall m :: m in init ==> m in moves;
      ChildrenConserveIds(st, init);
      ChildDoneConservesIds(ApplyAll(st, init), last.child, last.text);
    }
  }

  // ---- Each result carries the text of its own child job ------------------------------------

  /** What the first move that finishes `child` says; nothing if none does. */
  ghost function TextFor(moves: seq<Move>, child: string): string {
    if moves == [] then ""
    else if moves[0].ChildDone? && moves[0].child == child then moves[0].text
    else TextFor(moves[1..], child)
  }

  lemma {:induction false} TextOfFirst(moves: seq<Move>, n: nat)
    requires n < |moves| && moves[n].ChildDone?
    requires forall i :: 0 <= i < n && moves[i].ChildDone? ==> moves[i].child != moves[n].child
    ensures TextFor(moves, moves[n].child) == moves[n].text
    decreases n
  {
    if n > 0 {
      forall i | 0 <= i < n - 1 && moves[1..][i].ChildDone? ensures moves[1..][i].child != moves[n].child {
        assert moves[1..][i] == moves[i + 1];
      }
      assert moves[1..][n - 1] == moves[n];
      TextOfFirst(moves[1..], n - 1);
    }
  }

  /** A pending call's id, with what its own child job will say. */
  ghost function OwnResult(moves: seq<Move>): PendingToolCall -> (string, string) {
    (p: PendingToolCall) => (p.toolCallId, TextFor(moves, p.childJobId))
  }

  function ResultPair(r: ResolvedToolResult): (string, string) { (r.toolCallId, r.text) }

  ghost predicate DistinctChildren(pending: seq<PendingToolCall>) {
    forall i, j :: 0 <= i < j < |pending| ==> pending[i].childJobId != pending[j].childJobId
  }

  /** None of the first `n` moves finishes a job that is still pending. */
  ghost predicate StillPending(pending: seq<PendingToolCall>, moves: seq<Move>, n: nat)
    requires n <= |moves|
  {
    forall k, i :: 0 <= k < |pending| && 0 <= i < n && moves[i].ChildDone? ==> moves[i].child != pending[k].childJobId
  }

  lemma StillPendingAfter(st: Saved, moves: seq<Move>, n: nat)
    requires n < |moves| && moves[n].ChildDone? && DistinctChildren(st.pending) && StillPending(st.pending, moves, n)
    ensures DistinctChildren(Apply(st, moves[n]).pending) && StillPending(Apply(st, moves[n]).pending, moves, n + 1)
  {
    hide Position;
  }

  /** With distinct child jobs, every result collected carries the text of its own job. */
  lemma {:induction false} ResultsAreOwn(st: Saved, moves: seq<Move>, n: nat)
    requires n <= |moves| && (forall m :: m in moves ==> m.ChildDone?) && DistinctChildren(st.pending)
    ensures var now, own := ApplyAll(st, moves[..n]), OwnResult(moves);
      && DistinctChildren(now.pending) && StillPending(now.pending, moves, n)
      && Bag(own, now.pending) + Bag(ResultPair, now.resolved) == Bag(own, st.pending) + Bag(ResultPair, st.resolved)
    decreases n
  {
    hide Bag, DistinctChildren, StillPending, Position;
    if n == 0 {
      NothingMoved(st, moves);
    } else {
      assert moves[..n][..n - 1] == moves[..n - 1] && moves[n - 1] in moves;
      var now := ApplyAll(st, moves[..n - 1]);
      ResultsAreOwn(st, moves, n - 1);
      StillPendingAfter(now, moves, n - 1);
      OneResultIsOwn(now, moves, n - 1);
    }
  }

  lemma NothingMoved(st: Saved, moves: seq<Move>)
    requires DistinctChildren(st.pending)
    ensures moves[..0] == [] && StillPending(st.pending, moves, 0)
  {}

  lemma OneResultIsOwn(now: Saved, moves: seq<Move>, n: nat)
    requires n < |moves| && moves[n].ChildDone? && StillPending(now.pending, moves, n)
    ensures var next, own := Apply(now, moves[n]), OwnResult(moves);
      Bag(own, next.pending) + Bag(ResultPair, next.resolved) == Bag(own, now.pending) + Bag(ResultPair, now.resolved)
  {
    hide Bag, Position;
    var k := Position(now.pending, moves[n].child);
    if k < |now.pending| {
      TextOfFirst(moves, n);
      var result := ResolvedToolResult(now.pending[k].toolCallId, moves[n].text);
      BagMove(OwnResult(moves), now.pending, k, ResultPair, now.resolved, result);
    }
  }

  /** The conversation itself is never touched while the step is suspended. */
  ghost predicate SameConversation(a: Saved, b: Saved) {
    a.messages == b.messages && a.turn == b.turn && a.totalInput == b.totalInput && a.totalOutput == b.totalOutput
  }

  lemma {:induction false} MovesKeepConversation(st: Saved, moves: seq<Move>)
    ensures SameConversation(st, ApplyAll(st, moves))
    decreases |moves|
  {
    if moves != [] { MovesKeepConversation(st, moves[..|moves| - 1]); }
  }

  // ---- The live state -----------------------------------------------------------------

  class AgentConversationState {
    var messages: seq<Json>
    var turn: nat
    var totalInput: nat
    var totalOutput: nat
    var pending: seq<PendingToolCall>
    var suspendedForAskUser: bool
    var askUserCall: Option<AskUserCall>
    var resolved: seq<ResolvedToolResult>

    function Save(): Saved
      reads this
    {
      Saved(messages, turn, totalInput, totalOutput, pending, suspendedForAskUser, askUserCall, resolved)
    }

    constructor Restore(st: Saved)
      ensures Save() == st
    {
      messages, turn, totalInput, totalOutput := st.messages, st.turn, st.totalInput, st.totalOutput;
      pending, suspendedForAskUser, askUserCall := st.pending, st.suspendedForAskUser, st.askUserCall;
      resolved := st.resolved;
    }

    predicate AllToolCallsResolved()
      reads this
    {
      pending == []
    }

    /** Removes the first pending call of `child`, if there is one, and nothing else. */
    method ResolveToolCall(child: string) returns (r: Option<PendingToolCall>)
      modifies this
      ensures r.Some? <==> Position(old(pending), child) < |old(pending)|
      ensures r.None? ==> Save() == old(Save())
      ensures r.Some? ==> r.value == old(pending)[Position(old(pending), child)]
      ensures r.Some? ==> Save() == old(Save()).(pending := Without(old(pending), Position(old(pending), child)))
    {
      var k := Position(pending, child);
      if k < |pending| {
        r := Some(pending[k]);
        pending := Without(pending, k);
      } else {
        r := None;
      }
    }

    /** The child job `child` finished with `text`; `ready` says the step may be claimed again, its last pending call
        resolved. */
    method ChildFinished(child: string, text: string) returns (ready: bool)
      modifies this
      ensures Save() == Apply(old(Save()), ChildDone(child, text))
      ensures Ids(Save()) == old(Ids(Save()))
      ensures ready <==> old(pending) != [] && pending == []
    {
      ChildDoneConservesIds(Save(), child, text);
      var found := ResolveToolCall(child);
      if found.None? {
        return false;
      }
      resolved := resolved + [ResolvedToolResult(found.value.toolCallId, text)];
      ready := AllToolCallsResolved();
    }

    /** The user answered the suspended question. */
    method UserReplied(text: string)
      modifies this
      ensures Save() == Apply(old(Save()), UserAnswered(text))
    {
      var id := if askUserCall.Some? then askUserCall.value.toolCallId else "";
      askUserCall := None;
      suspendedForAskUser := false;
      resolved := resolved + [ResolvedToolResult(id, text)];
    }
  }
}
