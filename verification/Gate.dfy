/** The dependency gate: whether a step may run, must wait, or is omitted,
    decided from the live outcomes of the steps its tree names. */
module Gate {
  import opened DependsOn

  /** A dependency's live state; a terminal row carries its schema outcome. */
  datatype DepOutcome = Pending | Terminal(outcome: Outcome)

  datatype Decision = Open | Wait | Block

  type OutcomeOf = string -> DepOutcome

  predicate AllTerminal(e: Entry, outcomeOf: OutcomeOf) {
    match e
    case Name(n) => outcomeOf(n) != Pending
    case Step(s, _) => outcomeOf(s) != Pending
    case All(cs) => forall i | 0 <= i < |cs| :: AllTerminal(cs[i], outcomeOf)
    case Any(cs) => forall i | 0 <= i < |cs| :: AllTerminal(cs[i], outcomeOf)
  }

  predicate Satisfied(e: Entry, outcomeOf: OutcomeOf) {
    match e
    case Name(n) => outcomeOf(n) == Terminal(Completed)
    case Step(s, accept) => outcomeOf(s).Terminal? && accept.Contains(outcomeOf(s).outcome)
    case All(cs) => forall i | 0 <= i < |cs| :: Satisfied(cs[i], outcomeOf)
    case Any(cs) => exists i | 0 <= i < |cs| :: Satisfied(cs[i], outcomeOf)
  }

  /** The top level is an implicit `all` group. */
  function Decide(dependsOn: seq<Entry>, outcomeOf: OutcomeOf): Decision {
    if !forall i | 0 <= i < |dependsOn| :: AllTerminal(dependsOn[i], outcomeOf) then Wait
    else if forall i | 0 <= i < |dependsOn| :: Satisfied(dependsOn[i], outcomeOf) then Open
    else Block
  }

  // ---- The readiness barrier ---------------------------------------------

  lemma {:induction false} TerminalIffNoLeafPending(e: Entry, outcomeOf: OutcomeOf)
    ensures AllTerminal(e, outcomeOf) <==> forall n :: Mentions(e, n) ==> outcomeOf(n) != Pending
    decreases e
  {
    match e
    case Name(n) => assert Mentions(e, n);
    case Step(s, _) => assert Mentions(e, s);
    case All(cs) => GroupTerminalIffNoLeafPending(e, cs, outcomeOf);
    case Any(cs) => GroupTerminalIffNoLeafPending(e, cs, outcomeOf);
  }

  lemma {:induction false} GroupTerminalIffNoLeafPending(e: Entry, cs: seq<Entry>, outcomeOf: OutcomeOf)
    requires e == All(cs) || e == Any(cs)
    ensures AllTerminal(e, outcomeOf) <==> forall n :: Mentions(e, n) ==> outcomeOf(n) != Pending
    decreases e, 0
  {
    forall i | 0 <= i < |cs|
      ensures AllTerminal(cs[i], outcomeOf) <==> forall n :: Mentions(cs[i], n) ==> outcomeOf(n) != Pending
    {
      TerminalIffNoLeafPending(cs[i], outcomeOf);
    }
    if !AllTerminal(e, outcomeOf) {
      var i :| 0 <= i < |cs| && !AllTerminal(cs[i], outcomeOf);
      var n :| Mentions(cs[i], n) && outcomeOf(n) == Pending;
      assert Mentions(e, n);
    }
  }

  /** The gate waits exactly while some step named anywhere in the tree is pending:
      no `any` group short-circuits and no hard block decides early. */
  lemma WaitsIffSomeNamePending(dependsOn: seq<Entry>, outcomeOf: OutcomeOf)
    ensures Decide(dependsOn, outcomeOf) == Wait <==>
            exists n :: n in Names(dependsOn) && outcomeOf(n) == Pending
  {
    forall i | 0 <= i < |dependsOn| {
      TerminalIffNoLeafPending(dependsOn[i], outcomeOf);
    }
    if Decide(dependsOn, outcomeOf) == Wait {
      var i :| 0 <= i < |dependsOn| && !AllTerminal(dependsOn[i], outcomeOf);
      var n :| Mentions(dependsOn[i], n) && outcomeOf(n) == Pending;
      NamesAreTheLeaves(dependsOn, n);
    }
    if n :| n in Names(dependsOn) && outcomeOf(n) == Pending {
      NamesAreTheLeaves(dependsOn, n);
    }
  }

  // ---- The decision reads only the tree's own names -------------------------

  lemma {:induction false} SatisfiedReadsOnlyMentions(e: Entry, f: OutcomeOf, g: OutcomeOf)
    requires forall n :: Mentions(e, n) ==> f(n) == g(n)
    ensures Satisfied(e, f) == Satisfied(e, g)
    decreases e
  {
    match e
    case Name(n) => assert Mentions(e, n);
    case Step(s, _) => assert Mentions(e, s);
    case All(cs) =>
      forall i | 0 <= i < |cs| ensures Satisfied(cs[i], f) == Satisfied(cs[i], g) {
        assert forall n :: Mentions(cs[i], n) ==> Mentions(e, n);
        SatisfiedReadsOnlyMentions(cs[i], f, g);
      }
    case Any(cs) =>
      forall i | 0 <= i < |cs| ensures Satisfied(cs[i], f) == Satisfied(cs[i], g) {
        assert forall n :: Mentions(cs[i], n) ==> Mentions(e, n);
        SatisfiedReadsOnlyMentions(cs[i], f, g);
      }
  }

  lemma DecisionReadsOnlyNames(dependsOn: seq<Entry>, f: OutcomeOf, g: OutcomeOf)
    requires forall n :: n in Names(dependsOn) ==> f(n) == g(n)
    ensures Decide(dependsOn, f) == Decide(dependsOn, g)
  {
    WaitsIffSomeNamePending(dependsOn, f);
    WaitsIffSomeNamePending(dependsOn, g);
    forall i | 0 <= i < |dependsOn| ensures Satisfied(dependsOn[i], f) == Satisfied(dependsOn[i], g) {
      forall n | Mentions(dependsOn[i], n) ensures f(n) == g(n) {
        NamesAreTheLeaves(dependsOn, n);
      }
      SatisfiedReadsOnlyMentions(dependsOn[i], f, g);
    }
  }

  /** Once the gate has decided, later outcomes of other steps never change it. */
  lemma DecisionIsStable(dependsOn: seq<Entry>, now: OutcomeOf, later: OutcomeOf)
    requires Decide(dependsOn, now) != Wait
    requires forall n :: now(n) != Pending ==> later(n) == now(n)
    ensures Decide(dependsOn, later) == Decide(dependsOn, now)
  {
    WaitsIffSomeNamePending(dependsOn, now);
    DecisionReadsOnlyNames(dependsOn, now, later);
  }

  // ---- What the gate decides ---------------------------------------------------

  /** A way through a tree: every child of an `all` group, one child of an `any` group. */
  datatype Choice = Take | Every(choices: seq<Choice>) | One(index: nat, choice: Choice)

  ghost predicate Fits(e: Entry, c: Choice) {
    match e
    case Name(_) => c.Take?
    case Step(_, _) => c.Take?
    case All(cs) => c.Every? && |c.choices| == |cs| && forall i :: 0 <= i < |cs| ==> Fits(cs[i], c.choices[i])
    case Any(cs) => c.One? && c.index < |cs| && Fits(cs[c.index], c.choice)
  }

  /** `leaf` is one of the leaves that the choice takes. */
  ghost predicate Takes(e: Entry, c: Choice, leaf: Entry)
    requires Fits(e, c)
  {
    match e
    case Name(_) => leaf == e
    case Step(_, _) => leaf == e
    case All(cs) => exists i :: 0 <= i < |cs| && Takes(cs[i], c.choices[i], leaf)
    case Any(cs) => Takes(cs[c.index], c.choice, leaf)
  }

  /** A bare name accepts completion; a step entry any terminal outcome, or those it lists. */
  ghost predicate Accepts(leaf: Entry, outcomeOf: OutcomeOf) {
    match leaf
    case Name(n) => outcomeOf(n) == Terminal(Completed)
    case Step(s, AnyOutcome) => outcomeOf(s) != Pending
    case Step(s, Outcomes(list)) => exists o :: o in list && outcomeOf(s) == Terminal(o)
    case _ => false
  }

  /** Some way through the tree takes only leaves that accept. */
  ghost predicate Fulfilled(e: Entry, outcomeOf: OutcomeOf) {
    exists c :: Fits(e, c) && forall leaf :: Takes(e, c, leaf) ==> Accepts(leaf, outcomeOf)
  }

  lemma {:induction false} ChoiceOf(e: Entry, outcomeOf: OutcomeOf) returns (c: Choice)
    requires Satisfied(e, outcomeOf)
    ensures Fits(e, c) && forall leaf :: Takes(e, c, leaf) ==> Accepts(leaf, outcomeOf)
    decreases e
  {
    match e
    case Name(_) => c := Take;
    case Step(s, accept) => c := Take;
    case All(cs) =>
      var choices := ChoicesOf(cs, outcomeOf);
      c := Every(choices);
    case Any(cs) =>
      var i :| 0 <= i < |cs| && Satisfied(cs[i], outcomeOf);
      var choice := ChoiceOf(cs[i], outcomeOf);
      c := One(i, choice);
  }

  lemma {:induction false} ChoicesOf(cs: seq<Entry>, outcomeOf: OutcomeOf) returns (choices: seq<Choice>)
    requires forall i :: 0 <= i < |cs| ==> Satisfied(cs[i], outcomeOf)
    ensures |choices| == |cs| && forall i :: 0 <= i < |cs| ==> Fits(cs[i], choices[i])
    ensures forall i, leaf :: 0 <= i < |cs| && Takes(cs[i], choices[i], leaf) ==> Accepts(leaf, outcomeOf)
    decreases cs
  {
    hide Fits, Takes, Accepts, Satisfied;
    choices := [];
    if cs != [] {
      var first := ChoiceOf(cs[0], outcomeOf);
      var rest := ChoicesOf(cs[1..], outcomeOf);
      choices := [first] + rest;
      forall i | 0 <= i < |cs| ensures Fits(cs[i], choices[i]) { if i > 0 { assert cs[i] == cs[1..][i - 1]; } }
      forall i, leaf | 0 <= i < |cs| && Takes(cs[i], choices[i], leaf) ensures Accepts(leaf, outcomeOf) {
        if i > 0 { assert cs[i] == cs[1..][i - 1]; }
      }
    }
  }

  lemma {:induction false} ChoiceSatisfies(e: Entry, c: Choice, outcomeOf: OutcomeOf)
    requires Fits(e, c) && forall leaf :: Takes(e, c, leaf) ==> Accepts(leaf, outcomeOf)
    ensures Satisfied(e, outcomeOf)
    decreases e
  {
    match e
    case Name(_) => assert Takes(e, c, e);
    case Step(_, _) => assert Takes(e, c, e);
    case All(cs) =>
      forall i | 0 <= i < |cs| ensures Satisfied(cs[i], outcomeOf) {
        assert forall leaf :: Takes(cs[i], c.choices[i], leaf) ==> Takes(e, c, leaf);
        ChoiceSatisfies(cs[i], c.choices[i], outcomeOf);
      }
    case Any(cs) =>
      ChoiceSatisfies(cs[c.index], c.choice, outcomeOf);
  }

  /** A tree is satisfied exactly when some choice of one child per `any` group takes only leaves that accept. */
  lemma SatisfiedIffFulfilled(e: Entry, outcomeOf: OutcomeOf)
    ensures Satisfied(e, outcomeOf) <==> Fulfilled(e, outcomeOf)
  {
    hide Satisfied, Takes, Fits, Accepts;
    if Satisfied(e, outcomeOf) {
      var c := ChoiceOf(e, outcomeOf);
    }
    if c :| Fits(e, c) && forall leaf :: Takes(e, c, leaf) ==> Accepts(leaf, outcomeOf) {
      ChoiceSatisfies(e, c, outcomeOf);
    }
  }

  /** With every named step finished, the gate opens exactly when the tree as a whole is fulfilled, and omits the step
      exactly when it is not. */
  lemma DecidesByFulfilment(dependsOn: seq<Entry>, outcomeOf: OutcomeOf)
    ensures var finished := forall n :: n in Names(dependsOn) ==> outcomeOf(n) != Pending;
      && (Decide(dependsOn, outcomeOf) == Open <==> finished && Fulfilled(All(dependsOn), outcomeOf))
      && (Decide(dependsOn, outcomeOf) == Block <==> finished && !Fulfilled(All(dependsOn), outcomeOf))
  {
    WaitsIffSomeNamePending(dependsOn, outcomeOf);
    SatisfiedIffFulfilled(All(dependsOn), outcomeOf);
    hide Fulfilled;
  }

  // ---- When every named step has completed -----------------------------------

  /** Every explicit accept set below `e` tolerates completion. */
  ghost predicate AcceptsCompleted(e: Entry) {
    match e
    case Name(_) => true
    case Step(_, accept) => accept.Contains(Completed)
    case All(cs) => forall c :: c in cs ==> AcceptsCompleted(c)
    case Any(cs) => forall c :: c in cs ==> AcceptsCompleted(c)
  }

  lemma {:induction false} CompletedSatisfies(e: Entry, outcomeOf: OutcomeOf)
    requires WellFormed(e) && AcceptsCompleted(e)
    requires forall n :: Mentions(e, n) ==> outcomeOf(n) == Terminal(Completed)
    ensures Satisfied(e, outcomeOf)
    decreases e
  {
    match e
    case Name(n) => assert Mentions(e, n);
    case Step(s, _) => assert Mentions(e, s);
    case All(cs) =>
      forall i | 0 <= i < |cs| ensures Satisfied(cs[i], outcomeOf) {
        assert forall n :: Mentions(cs[i], n) ==> Mentions(e, n);
        CompletedSatisfies(cs[i], outcomeOf);
      }
    case Any(cs) =>
      assert forall n :: Mentions(cs[0], n) ==> Mentions(e, n);
      CompletedSatisfies(cs[0], outcomeOf);
  }

  /** Only bare names under `all` groups. */
  ghost predicate Conjunctive(e: Entry) {
    match e
    case Name(_) => true
    case Step(_, _) => false
    case All(cs) => forall c :: c in cs ==> Conjunctive(c)
    case Any(_) => false
  }

  lemma {:induction false} ConjunctiveNeedsEveryLeaf(e: Entry, outcomeOf: OutcomeOf)
    requires Conjunctive(e)
    ensures Satisfied(e, outcomeOf) <==> forall n :: Mentions(e, n) ==> outcomeOf(n) == Terminal(Completed)
    decreases e
  {
    match e
    case Name(n) => assert Mentions(e, n);
    case All(cs) =>
      forall i | 0 <= i < |cs|
        ensures Satisfied(cs[i], outcomeOf) <==> forall n :: Mentions(cs[i], n) ==> outcomeOf(n) == Terminal(Completed)
      {
        ConjunctiveNeedsEveryLeaf(cs[i], outcomeOf);
      }
      if !Satisfied(e, outcomeOf) {
        var i :| 0 <= i < |cs| && !Satisfied(cs[i], outcomeOf);
        var n :| Mentions(cs[i], n) && outcomeOf(n) != Terminal(Completed);
        assert Mentions(e, n);
      }
  }
}
