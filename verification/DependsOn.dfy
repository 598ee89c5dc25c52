/** Dependency trees of a flow step: leaves that name a step, with the outcomes
    they accept, under nested `all` / `any` groups. */
module DependsOn {
  import opened Results
  import opened Sequences

  datatype Outcome = Completed | Failed | Cancelled | Skipped | Omitted

  datatype AcceptSet = AnyOutcome | Outcomes(list: seq<Outcome>) {
    predicate Contains(o: Outcome) {
      match this
      case AnyOutcome => true
      case Outcomes(list) => o in list
    }
  }

  datatype Entry =
    | Name(name: string)
    | Step(step: string, accept: AcceptSet)
    | All(all: seq<Entry>)
    | Any(any: seq<Entry>)
  {
    function LeafName(): Option<string> {
      match this
      case Name(n) => Some(n)
      case Step(s, _) => Some(s)
      case All(_) | Any(_) => None
    }

    function Children(): Option<seq<Entry>> {
      match this
      case All(cs) => Some(cs)
      case Any(cs) => Some(cs)
      case Name(_) | Step(_, _) => None
    }
  }

  // ---- Names of a tree -------------------------------------------------

  /** Every leaf of the trees, left to right, repeats kept. */
  ghost function Names(entries: seq<Entry>): seq<string> {
    if entries == [] then [] else EntryNames(entries[0]) + Names(entries[1..])
  }

  ghost function EntryNames(e: Entry): seq<string> {
    match e
    case Name(n) => [n]
    case Step(s, _) => [s]
    case All(cs) => Names(cs)
    case Any(cs) => Names(cs)
  }

  /** `n` is the name of some leaf below `e`. */
  ghost predicate Mentions(e: Entry, n: string) {
    match e
    case Name(m) => m == n
    case Step(s, _) => s == n
    case All(cs) => exists i :: 0 <= i < |cs| && Mentions(cs[i], n)
    case Any(cs) => exists i :: 0 <= i < |cs| && Mentions(cs[i], n)
  }

  lemma {:induction false} NamesAreTheLeaves(entries: seq<Entry>, n: string)
    ensures n in Names(entries) <==> exists i :: 0 <= i < |entries| && Mentions(entries[i], n)
    decreases entries
  {
    if entries != [] {
      EntryNamesAreTheLeaves(entries[0], n);
      NamesAreTheLeaves(entries[1..], n);
      if n in Names(entries[1..]) {
        var i :| 0 <= i < |entries[1..]| && Mentions(entries[1..][i], n);
        assert Mentions(entries[i + 1], n);
      }
      if i :| 0 <= i < |entries| && Mentions(entries[i], n) {
        if i > 0 { assert entries[1..][i - 1] == entries[i]; }
      }
    }
  }

  lemma {:induction false} EntryNamesAreTheLeaves(e: Entry, n: string)
    ensures n in EntryNames(e) <==> Mentions(e, n)
    decreases e
  {
    match e
    case Name(_) =>
    case Step(_, _) =>
    case All(cs) => NamesAreTheLeaves(cs, n);
    case Any(cs) => NamesAreTheLeaves(cs, n);
  }

  lemma NamesSplit(entries: seq<Entry>, i: nat)
    requires i < |entries|
    ensures Names(entries[..i + 1]) == Names(entries[..i]) + EntryNames(entries[i])
    decreases i
  {
    if i == 0 {
      assert entries[..1][1..] == [];
    } else {
      NamesSplit(entries[1..], i - 1);
      assert entries[1..][..i] == entries[..i + 1][1..];
      assert entries[1..][..i - 1] == entries[..i][1..];
    }
  }

  method CollectNames(entries: seq<Entry>, out: seq<string>) returns (out': seq<string>)
    ensures out' == out + Names(entries)
    decreases entries
  {
    out' := out;
    for i := 0 to |entries|
      invariant out' == out + Names(entries[..i])
    {
      var e := entries[i];
      NamesSplit(entries, i);
      if e.LeafName().Some? {
        out' := out' + [e.LeafName().value];
      }
      if e.Children().Some? {
        out' := CollectNames(e.Children().value, out');
      }
    }
    assert entries[..|entries|] == entries;
  }

  // ---- Structural validation ---------------------------------------------

  datatype TreeError =
    | DuplicateSibling(name: string)
    | EmptyGroup
    | EmptyAccept(step: string)
    | DuplicateAccept(step: string, outcome: Outcome)

  /** No two entries of one group are leaves naming the same step. */
  ghost predicate DistinctSiblings(children: seq<Entry>) {
    forall i, j :: 0 <= i < j < |children| && children[i].LeafName().Some? ==>
      children[i].LeafName() != children[j].LeafName()
  }

  /** The authored shape is acceptable at and below `e`. */
  ghost predicate WellFormed(e: Entry) {
    match e
    case Name(_) => true
    case Step(_, accept) => accept.Outcomes? ==> accept.list != [] && Distinct(accept.list)
    case All(cs) => cs != [] && DistinctSiblings(cs) && forall c :: c in cs ==> WellFormed(c)
    case Any(cs) => cs != [] && DistinctSiblings(cs) && forall c :: c in cs ==> WellFormed(c)
  }

  ghost predicate AllWellFormed(entries: seq<Entry>) {
    forall e :: e in entries ==> WellFormed(e)
  }

  ghost predicate WellFormedTree(entries: seq<Entry>) {
    DistinctSiblings(entries) && AllWellFormed(entries)
  }

  /** Errors are only ever added, and none is added exactly when `ok` holds. */
  ghost predicate Reports(before: seq<TreeError>, after: seq<TreeError>, ok: bool) {
    before <= after && (after == before <==> ok)
  }

  lemma ReportsInTurn(a: seq<TreeError>, b: seq<TreeError>, c: seq<TreeError>, first: bool, second: bool)
    requires Reports(a, b, first) && Reports(b, c, second)
    ensures Reports(a, c, first && second)
  {}

  method CheckSiblings(children: seq<Entry>, errors: seq<TreeError>) returns (errors': seq<TreeError>)
    ensures Reports(errors, errors', DistinctSiblings(children))
  {
    errors' := errors;
    var seen: set<string> := {};
    for i := 0 to |children|
      invariant seen == set j | 0 <= j < i && children[j].LeafName().Some? :: children[j].LeafName().value
      invariant Reports(errors, errors', DistinctSiblings(children[..i]))
    {
      var leaf := children[i].LeafName();
      assert DistinctSiblings(children[..i + 1]) <==>
        DistinctSiblings(children[..i]) && !(leaf.Some? && leaf.value in seen) by {
        if DistinctSiblings(children[..i + 1]) {
          assert forall j :: 0 <= j < i ==> children[..i + 1][j] == children[..i][j] == children[j];
        }
      }
      if leaf.Some? {
        if leaf.value in seen {
          errors' := errors' + [DuplicateSibling(leaf.value)];
        }
        seen := seen + {leaf.value};
      }
    }
    assert children[..|children|] == children;
  }

  method CheckAccept(step: string, list: seq<Outcome>, errors: seq<TreeError>) returns (errors': seq<TreeError>)
    ensures Reports(errors, errors', list != [] && Distinct(list))
  {
    errors' := errors;
    if list == [] {
      errors' := errors' + [EmptyAccept(step)];
    }
    var seen: set<Outcome> := {};
    for i := 0 to |list|
      invariant seen == set o | o in list[..i]
      invariant Reports(errors, errors', list != [] && Distinct(list[..i]))
    {
      assert Distinct(list[..i + 1]) <==> Distinct(list[..i]) && list[i] !in seen by {
        if Distinct(list[..i + 1]) {
          assert forall j :: 0 <= j < i ==> list[..i + 1][j] == list[..i][j];
        }
      }
      if list[i] in seen {
        errors' := errors' + [DuplicateAccept(step, list[i])];
      }
      seen := seen + {list[i]};
    }
    assert list[..|list|] == list;
  }

  method CheckEach(children: seq<Entry>, errors: seq<TreeError>) returns (errors': seq<TreeError>)
    ensures Reports(errors, errors', AllWellFormed(children))
    decreases children, 1
  {
    errors' := errors;
    for i := 0 to |children|
      invariant Reports(errors, errors', AllWellFormed(children[..i]))
    {
      var errors0 := errors';
      errors' := CheckNested(children[i], errors0);
      ReportsInTurn(errors, errors0, errors', AllWellFormed(children[..i]), WellFormed(children[i]));
      assert children[..i + 1] == children[..i] + [children[i]];
    }
    assert children[..|children|] == children;
  }

  method CheckGroup(children: seq<Entry>, errors: seq<TreeError>) returns (errors': seq<TreeError>)
    ensures Reports(errors, errors', children != [] && DistinctSiblings(children) && AllWellFormed(children))
    decreases children, 2
  {
    var errors0 := if children == [] then errors + [EmptyGroup] else errors;
    var errors1 := CheckSiblings(children, errors0);
    ReportsInTurn(errors, errors0, errors1, children != [], DistinctSiblings(children));
    errors' := CheckEach(children, errors1);
    ReportsInTurn(errors, errors1, errors', children != [] && DistinctSiblings(children), AllWellFormed(children));
  }

  method CheckNested(e: Entry, errors: seq<TreeError>) returns (errors': seq<TreeError>)
    ensures Reports(errors, errors', WellFormed(e))
    decreases e, 0
  {
    match e
    case Name(_) => errors' := errors;
    case Step(s, accept) =>
      errors' := errors;
      if accept.Outcomes? {
        errors' := CheckAccept(s, accept.list, errors');
      }
    case All(cs) => errors' := CheckGroup(cs, errors);
    case Any(cs) => errors' := CheckGroup(cs, errors);
  }

  /** Accepts exactly the well-formed trees; a refusal lists at least one error. */
  method ValidateTree(entries: seq<Entry>) returns (r: Result<(), seq<TreeError>>)
    ensures r.Ok? <==> WellFormedTree(entries)
    ensures r.Err? ==> r.error != []
  {
    var errors0 := CheckSiblings(entries, []);
    var errors := CheckEach(entries, errors0);
    ReportsInTurn([], errors0, errors, DistinctSiblings(entries), AllWellFormed(entries));
    r := if errors == [] then Ok(()) else Err(errors);
  }
}
