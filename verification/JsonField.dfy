/** The rule for `json` input fields: every string is literal text, a single
    `{{ expression }}` that takes the expression's value, or an error. */
module JsonField {
  import opened Results
  import opened Sequences
  import opened Json
  import opened Text

  const PREFIX := "{% set __stroem_v = "
  const SUFFIX := SET_END + UNDEFINED_CHECK + WRITE_OUT + ENCODE
  const SET_END := " %}"
  const UNDEFINED_CHECK := "{% if __stroem_v is undefined %}"
  const WRITE_OUT := "{{ __stroem_v }}{% endif %}"
  const ENCODE := "{{ __stroem_v | json_encode() }}"
  const DELIMITERS := ["{{", "}}", "{%", "%}", "{#", "#}"]

  type Position = (nat, nat)

  datatype Classified = Literal | Single(inner: string, start: Position) | Mixed

  predicate LooksTemplated(s: string) {
    Contains(s, "{{") || Contains(s, "{%") || Contains(s, "{#")
  }

  // ---- Lines and columns -------------------------------------------------------------

  function Newlines(s: string): nat {
    if s == [] then 0 else Newlines(s[..|s| - 1]) + if s[|s| - 1] == '\n' then 1 else 0
  }

  /** Characters after the last newline. */
  function LastLine(s: string): nat {
    if s == [] || s[|s| - 1] == '\n' then 0 else LastLine(s[..|s| - 1]) + 1
  }

  /** 1-based line and column of the character at `offset`. */
  function PositionOf(s: string, offset: nat): Position
    requires offset <= |s|
  {
    (1 + Newlines(s[..offset]), LastLine(s[..offset]) + 1)
  }

  lemma {:induction false} LinesConcat(a: string, b: string)
    ensures Newlines(a + b) == Newlines(a) + Newlines(b)
    ensures LastLine(a + b) == if Newlines(b) == 0 then LastLine(a) + |b| else LastLine(b)
    decreases |b|
  {
    if b == [] {
      assert a + b == a;
    } else {
      assert (a + b)[..|a + b| - 1] == a + b[..|b| - 1];
      LinesConcat(a, b[..|b| - 1]);
    }
  }

  /** Positions are those of a cursor: it starts at line 1, column 1, and a newline takes it to the next line. */
  lemma PositionsAreACursor(s: string, offset: nat)
    requires offset < |s|
    ensures PositionOf(s, 0) == (1, 1)
    ensures var (line, column) := PositionOf(s, offset);
      PositionOf(s, offset + 1) == if s[offset] == '\n' then (line + 1, 1) else (line, column + 1)
  {
    assert s[..0] == [];
    assert s[..offset + 1][..offset] == s[..offset];
  }

  // ---- Classification ------------------------------------------------------------------

  /** The text between the outer braces of a trimmed string, if it has them. */
  function Body(trimmed: string): Option<string> {
    if "{{" <= trimmed && EndsWith(trimmed[2..], "}}") then Some(trimmed[2..|trimmed| - 2]) else None
  }

  function OpenLength(body: string): nat {
    if "-" <= body then 3 else 2
  }

  function Inner(body: string): string {
    var b := if "-" <= body then body[1..] else body;
    if EndsWith(b, "-") then b[..|b| - 1] else b
  }

  predicate HasDelimiter(inner: string) {
    exists i | 0 <= i < |DELIMITERS| :: Contains(inner, DELIMITERS[i])
  }

  /** A delimiter of the template language: two characters that open or close a block. */
  ghost predicate IsDelimiter(a: char, b: char) {
    (a == '{' && b in {'{', '%', '#'}) || (b == '}' && a in {'}', '%', '#'})
  }

  lemma DelimiterIff(s: string, a: char, b: char)
    ensures Contains(s, [a, b]) <==> exists i :: 0 <= i && i + 1 < |s| && s[i] == a && s[i + 1] == b
  {
    if i: int :| 0 <= i && i + 1 < |s| && s[i] == a && s[i + 1] == b {
      assert s[i..i + 2] == [a, b] && OccursAt(s, [a, b], i);
    }
    if Contains(s, [a, b]) {
      var i :| 0 <= i <= |s| && OccursAt(s, [a, b], i);
      assert s[i] == s[i..i + 2][0] && s[i + 1] == s[i..i + 2][1];
    }
  }

  /** A string is literal exactly when no block opens in it. */
  lemma LiteralIff(s: string)
    ensures Classify(s).Literal? <==> forall i, j :: 0 <= i && j == i + 1 < |s| ==>
      !(s[i] == '{' && IsDelimiter(s[i], s[j]))
  {
    DelimiterIff(s, '{', '{');
    DelimiterIff(s, '{', '%');
    DelimiterIff(s, '{', '#');
    hide Contains, Body, Inner, HasDelimiter, Trim, PositionOf;
  }

  lemma HasDelimiterIff(s: string)
    ensures HasDelimiter(s) <==> exists i, j :: 0 <= i && j == i + 1 < |s| && IsDelimiter(s[i], s[j])
  {
    DelimiterIff(s, '{', '{');
    DelimiterIff(s, '{', '%');
    DelimiterIff(s, '{', '#');
    DelimiterIff(s, '}', '}');
    DelimiterIff(s, '%', '}');
    DelimiterIff(s, '#', '}');
    hide Contains;
    assert HasDelimiter(s) <==>
      || Contains(s, DELIMITERS[0]) || Contains(s, DELIMITERS[1]) || Contains(s, DELIMITERS[2])
      || Contains(s, DELIMITERS[3]) || Contains(s, DELIMITERS[4]) || Contains(s, DELIMITERS[5]);
    assert DELIMITERS[0] == ['{', '{'] && DELIMITERS[1] == ['}', '}'] && DELIMITERS[2] == ['{', '%'];
    assert DELIMITERS[3] == ['%', '}'] && DELIMITERS[4] == ['{', '#'] && DELIMITERS[5] == ['#', '}'];
  }

  function Classify(s: string): Classified {
    if !LooksTemplated(s) then Literal
    else
      var lead := Leading(s, IsAsciiWhitespace);
      var body := Body(Trim(s, IsAsciiWhitespace));
      if body.None? || HasDelimiter(Inner(body.value)) then Mixed
      else
        assert lead + OpenLength(body.value) <= |s|;
        Single(Inner(body.value), PositionOf(s, lead + OpenLength(body.value)))
  }

  /** Where the expression of a single string begins. */
  ghost function InnerOffset(s: string): nat
    requires Classify(s).Single?
  {
    Leading(s, IsAsciiWhitespace) + OpenLength(Body(Trim(s, IsAsciiWhitespace)).value)
  }

  lemma BodyIsASlice(trimmed: string)
    requires Body(trimmed).Some?
    ensures |Body(trimmed).value| + 4 == |trimmed| && trimmed[2..|trimmed| - 2] == Body(trimmed).value
  {}

  lemma BodyBraces(trimmed: string)
    requires Body(trimmed).Some?
    ensures trimmed == Braced(Body(trimmed).value)
  {
    assert trimmed == trimmed[..2] + trimmed[2..];
    assert trimmed[2..] == Body(trimmed).value + "}}";
  }

  lemma InnerIsASliceOfBody(body: string)
    ensures var o := OpenLength(body) - 2; o + |Inner(body)| <= |body| && body[o..o + |Inner(body)|] == Inner(body)
  {}

  /** The expression is that slice of the author's string, verbatim, and `start` is where it begins. */
  lemma InnerIsASlice(s: string)
    requires Classify(s).Single?
    ensures var o, inner := InnerOffset(s), Classify(s).inner;
      o + |inner| <= |s| && s[o..o + |inner|] == inner && Classify(s).start == PositionOf(s, o)
  {
    hide LooksTemplated, HasDelimiter, Trim, IsAsciiWhitespace, PositionOf, Body, Inner;
    TrimIsASlice(s, IsAsciiWhitespace);
    var trimmed := Trim(s, IsAsciiWhitespace);
    BodyIsASlice(trimmed);
    InnerIsASliceOfBody(Body(trimmed).value);
    SliceChain(s, Leading(s, IsAsciiWhitespace), trimmed, Body(trimmed).value, OpenLength(Body(trimmed).value) - 2,
               Inner(Body(trimmed).value));
  }

  /** `dash` is the optional whitespace-control mark. */
  predicate IsDash(dash: string) {
    dash == "" || dash == "-"
  }

  /** One expression between braces, whitespace around it allowed; a mark next to a brace is never part of it. */
  ghost predicate IsWritten(lead: string, open: string, inner: string, close: string, trail: string) {
    && (forall i :: 0 <= i < |lead| ==> IsAsciiWhitespace(lead[i]))
    && (forall i :: 0 <= i < |trail| ==> IsAsciiWhitespace(trail[i]))
    && IsDash(open) && IsDash(close) && !HasDelimiter(inner)
    && (open == "" ==> !("-" <= inner + close)) && (close == "" ==> !EndsWith(inner, "-"))
  }

  function Braced(body: string): string {
    "{{" + body + "}}"
  }

  lemma BodyOfBraced(body: string)
    ensures Body(Braced(body)) == Some(body)
    ensures var text := Braced(body); |text| >= 4 && text[0] == text[1] == '{' && text[|text| - 1] == '}'
  {
    assert Braced(body)[2..] == body + "}}";
  }

  lemma InnerOfMarked(open: string, inner: string, close: string)
    requires IsDash(open) && IsDash(close)
    requires (open == "" ==> !("-" <= inner + close)) && (close == "" ==> !EndsWith(inner, "-"))
    ensures Inner(open + inner + close) == inner && OpenLength(open + inner + close) == 2 + |open|
  {
    var body := open + inner + close;
    if open == "" {
      assert body == inner + close;
    } else {
      assert body[1..] == inner + close;
    }
    assert close == "-" ==> (inner + close)[..|inner|] == inner;
    assert close == "" ==> inner + close == inner;
  }

  /** However a single expression is written, it is classified as that expression, where it stands. */
  lemma WrittenIsSingle(lead: string, open: string, inner: string, close: string, trail: string)
    requires IsWritten(lead, open, inner, close, trail)
    ensures var s := lead + Braced(open + inner + close) + trail;
      Classify(s) == Single(inner, PositionOf(s, |lead| + 2 + |open|))
  {
    var body := open + inner + close;
    InnerOfMarked(open, inner, close);
    BodyOfBraced(body);
    hide IsDash, Inner, Body, OpenLength, HasDelimiter, PositionOf, EndsWith, Trim, Braced, LooksTemplated;
    TrimBetween(lead, Braced(body), trail, IsAsciiWhitespace);
    BracesLookTemplated(lead, Braced(body), trail);
  }

  lemma BracesLookTemplated(lead: string, core: string, trail: string)
    requires |core| >= 2 && core[0] == '{' && core[1] == '{'
    ensures LooksTemplated(lead + core + trail)
  {
    var s := lead + core + trail;
    assert s[|lead|] == '{' && s[|lead| + 1] == '{';
    assert s[|lead|..|lead| + 2] == "{{";
    assert OccursAt(s, "{{", |lead|);
  }

  /** Nothing else is classified so. */
  lemma SingleIsWritten(s: string) returns (lead: string, open: string, close: string, trail: string)
    requires Classify(s).Single?
    ensures IsWritten(lead, open, Classify(s).inner, close, trail)
    ensures s == lead + Braced(open + Classify(s).inner + close) + trail
  {
    hide *;
    var body := BodyOfSingle(s);
    lead, trail := TrimLeaves(s, IsAsciiWhitespace);
    open, close := MarksOf(body);
    AreWritten(lead, open, Inner(body), close, trail);
  }

  lemma AreWritten(lead: string, open: string, inner: string, close: string, trail: string)
    requires forall i :: 0 <= i < |lead| ==> IsAsciiWhitespace(lead[i])
    requires forall i :: 0 <= i < |trail| ==> IsAsciiWhitespace(trail[i])
    requires IsDash(open) && IsDash(close) && !HasDelimiter(inner)
    requires (open == "" ==> !("-" <= inner + close)) && (close == "" ==> !EndsWith(inner, "-"))
    ensures IsWritten(lead, open, inner, close, trail)
  {}

  lemma BodyOfSingle(s: string) returns (body: string)
    requires Classify(s).Single?
    ensures Classify(s).inner == Inner(body) && !HasDelimiter(Inner(body))
    ensures Trim(s, IsAsciiWhitespace) == Braced(body)
  {
    hide LooksTemplated, HasDelimiter, PositionOf, Trim, Inner, Body, Braced;
    body := Body(Trim(s, IsAsciiWhitespace)).value;
    BodyBraces(Trim(s, IsAsciiWhitespace));
  }

  lemma MarksOf(body: string) returns (open: string, close: string)
    ensures IsDash(open) && IsDash(close) && body == open + Inner(body) + close
    ensures (open == "" ==> !("-" <= Inner(body) + close)) && (close == "" ==> !EndsWith(Inner(body), "-"))
  {
    open := if "-" <= body then "-" else "";
    close := if EndsWith(body[|open|..], "-") then "-" else "";
    assert Inner(body) + close == body[|open|..];
  }

  lemma SliceChain(s: string, lead: nat, trimmed: string, body: string, o: nat, inner: string)
    requires lead + |trimmed| <= |s| && trimmed == s[lead..lead + |trimmed|]
    requires |body| + 4 == |trimmed| && body == trimmed[2..|trimmed| - 2]
    requires o + |inner| <= |body| && inner == body[o..o + |inner|]
    ensures s[lead + 2 + o..lead + 2 + o + |inner|] == inner
  {
    forall i | 0 <= i < |inner| ensures inner[i] == s[lead + 2 + o + i] {
      assert inner[i] == body[o + i];
      assert body[o + i] == trimmed[2 + o + i];
    }
  }

  // ---- Mapping positions back -------------------------------------------------------------

  function Wrapper(inner: string): string {
    PREFIX + inner + SUFFIX
  }

  function MapPosition(inner: string, start: Position, pos: Position): Option<Position> {
    var p, (l, c) := |PREFIX|, pos;
    var newlines := Newlines(inner);
    var lastLine := 1 + newlines;
    var lastCol := if newlines == 0 then p + |inner| else LastLine(inner);
    if (l == 0 || (l == 1 && c < p + 1)) || (l > lastLine || (l == lastLine && c > lastCol)) then None
    else if l == 1 then Some((start.0, start.1 + c - (p + 1)))
    else Some((start.0 + l - 1, c))
  }

  lemma {:induction false} NoNewlines(s: string)
    requires forall i :: 0 <= i < |s| ==> s[i] != '\n'
    ensures Newlines(s) == 0 && LastLine(s) == |s|
    decreases |s|
  {
    if s != [] { NoNewlines(s[..|s| - 1]); }
  }

  predicate OneLine(s: string) {
    forall i :: 0 <= i < |s| ==> s[i] != '\n'
  }

  lemma WrapperIsOneLine()
    ensures OneLine(PREFIX) && OneLine(SUFFIX)
  {
    assert OneLine(SET_END);
    assert OneLine(UNDEFINED_CHECK);
    assert OneLine(WRITE_OUT);
    assert OneLine(ENCODE);
  }

  lemma WrapperHasNoNewlines(k: nat)
    ensures k <= |PREFIX| ==> Newlines(PREFIX[..k]) == 0 && LastLine(PREFIX[..k]) == k
    ensures k <= |SUFFIX| ==> Newlines(SUFFIX[..k]) == 0 && LastLine(SUFFIX[..k]) == k
  {
    WrapperIsOneLine();
    if k <= |PREFIX| { NoNewlines(PREFIX[..k]); }
    if k <= |SUFFIX| { NoNewlines(SUFFIX[..k]); }
  }

  lemma {:induction false} LastLineFits(s: string, k: nat)
    requires k < |s|
    ensures Newlines(s[..k]) <= Newlines(s)
    ensures Newlines(s[..k]) == Newlines(s) ==> LastLine(s[..k]) < LastLine(s)
    decreases |s|
  {
    assert s[..k] + s[k..] == s;
    LinesConcat(s[..k], s[k..]);
    if Newlines(s[k..]) == 0 { assert |s[k..]| > 0; }
  }

  /** Every character of the expression maps to its own line and column in the author's string; every
      character of the wrapper around it maps to nothing. */
  lemma PositionsMapBack(s: string, o: nat)
    requires Classify(s).Single? && o < |Wrapper(Classify(s).inner)|
    ensures var expr := Classify(s);
      InnerOffset(s) + |expr.inner| <= |s| &&
      MapPosition(expr.inner, expr.start, PositionOf(Wrapper(expr.inner), o))
        == if |PREFIX| <= o < |PREFIX| + |expr.inner|
           then Some(PositionOf(s, InnerOffset(s) + (o - |PREFIX|)))
           else None
  {
    hide *;
    InnerIsASlice(s);
    var inner := Classify(s).inner;
    if o < |PREFIX| {
      BeforeExpression(inner, Classify(s).start, o);
    } else {
      WrapperHasNoNewlines(|PREFIX|);
      assert PREFIX[..|PREFIX|] == PREFIX;
      WrapperLength(inner);
      if o < |PREFIX| + |inner| {
        InsideExpression(s, inner, InnerOffset(s), o - |PREFIX|);
      } else {
        AfterExpression(inner, Classify(s).start, o - |PREFIX| - |inner|);
      }
    }
  }

  lemma WrapperLength(inner: string)
    ensures |Wrapper(inner)| == |PREFIX| + |inner| + |SUFFIX|
  {}

  lemma BeforeExpression(inner: string, start: Position, o: nat)
    requires o < |PREFIX|
    ensures MapPosition(inner, start, PositionOf(Wrapper(inner), o)) == None
  {
    assert Wrapper(inner)[..o] == PREFIX[..o];
    WrapperHasNoNewlines(o);
    hide Newlines, LastLine, Wrapper;
  }

  lemma WrapperUpTo(inner: string, k: nat)
    requires k <= |inner|
    ensures |PREFIX| + k <= |Wrapper(inner)| && Wrapper(inner)[..|PREFIX| + k] == PREFIX + inner[..k]
  {}

  lemma InsideExpression(s: string, inner: string, o: nat, k: nat)
    requires o + |inner| <= |s| && s[o..o + |inner|] == inner && k < |inner|
    requires Newlines(PREFIX) == 0 && LastLine(PREFIX) == |PREFIX|
    ensures MapPosition(inner, PositionOf(s, o), PositionOf(Wrapper(inner), |PREFIX| + k)) == Some(PositionOf(s, o + k))
  {
    var before := inner[..k];
    WrapperUpTo(inner, k);
    hide Newlines, LastLine, Wrapper;
    LinesConcat(PREFIX, before);
    assert s[..o + k] == s[..o] + before;
    LinesConcat(s[..o], before);
    LastLineFits(inner, k);
    if Newlines(inner) == 0 { NoNewlineLength(inner); }
    if Newlines(before) == 0 { NoNewlineLength(before); }
  }

  lemma {:induction false} NoNewlineLength(s: string)
    requires Newlines(s) == 0
    ensures LastLine(s) == |s|
    decreases |s|
  {
    if s != [] { NoNewlineLength(s[..|s| - 1]); }
  }

  lemma AfterExpression(inner: string, start: Position, k: nat)
    requires k < |SUFFIX|
    requires Newlines(PREFIX) == 0 && LastLine(PREFIX) == |PREFIX|
    ensures MapPosition(inner, start, PositionOf(Wrapper(inner), |PREFIX| + |inner| + k)) == None
  {
    assert Wrapper(inner)[..|PREFIX| + |inner| + k] == PREFIX + inner + SUFFIX[..k];
    LinesConcat(PREFIX, inner);
    LinesConcat(PREFIX + inner, SUFFIX[..k]);
    WrapperHasNoNewlines(k);
  }

  // ---- Strings inside a value ------------------------------------------------------------------

  ghost predicate StringAt(v: Json, p: Path) {
    At(v, p).Some? && At(v, p).value.Str?
  }

  ghost predicate SingleAt(v: Json, p: Path) {
    StringAt(v, p) && Classify(At(v, p).value.s).Single?
  }

  ghost predicate MixedAt(v: Json, p: Path) {
    StringAt(v, p) && Classify(At(v, p).value.s).Mixed?
  }

  /** The template engine and the JSON parser. */
  datatype Engine = Engine(render: string -> Option<string>, parse: string -> Option<Json>)
  {
    /** The value of one expression. */
    ghost function Eval(inner: string): Option<Json> {
      match render(Wrapper(inner))
      case None => None
      case Some(text) => parse(text)
    }
  }

  /** The string at `p` makes the walk fail. */
  ghost predicate OffendsAt(engine: Engine, v: Json, p: Path) {
    MixedAt(v, p) || (SingleAt(v, p) && engine.Eval(Classify(At(v, p).value.s).inner).None?)
  }

  /** The same tree with every single expression replaced by its value. */
  ghost function Subst(engine: Engine, v: Json): Json {
    match v
    case Str(s) =>
      var value := if Classify(s).Single? then engine.Eval(Classify(s).inner) else None;
      if value.Some? then value.value else v
    case Arr(items) => Arr(seq(|items|, i requires 0 <= i < |items| => Subst(engine, items[i])))
    case Obj(fields) => Obj(map k | k in fields :: Subst(engine, fields[k]))
    case _ => v
  }

  /** At every place: a single expression has become its value, a container keeps its keys or its length, and
      everything else stayed. */
  lemma {:induction false} SubstByPlace(engine: Engine, v: Json, p: Path)
    requires At(v, p).Some? && forall q :: !OffendsAt(engine, v, q)
    ensures At(Subst(engine, v), p).Some?
    ensures var before, after := At(v, p).value, At(Subst(engine, v), p).value;
      match before
      case Arr(items) => after.Arr? && |after.items| == |items|
      case Obj(fields) => after.Obj? && after.fields.Keys == fields.Keys
      case Str(s) => if Classify(s).Single? then Some(after) == engine.Eval(Classify(s).inner) else after == before
      case _ => after == before
    decreases |p|
  {
    hide Classify;
    if p == [] {
      assert !OffendsAt(engine, v, []);
    } else {
      var child := Child(v, p[0]).value;
      forall q ensures !OffendsAt(engine, child, q) {
        BelowChild(engine, v, p[0], child, q);
        assert !OffendsAt(engine, v, [p[0]] + q);
      }
      SubstByPlace(engine, child, p[1..]);
      assert Child(Subst(engine, v), p[0]) == Some(Subst(engine, child));
    }
  }

  // ---- The walk ----------------------------------------------------------------------------------

  /** What an error says about where it happened: array indices, and that a key was passed. */
  function Location(p: Path): (location: seq<Option<nat>>)
    ensures |location| == |p|
    ensures forall i :: 0 <= i < |p| ==>
      (p[i].Index? ==> location[i] == Some(p[i].index)) && (p[i].Key? ==> location[i].None?)
  {
    seq(|p|, i requires 0 <= i < |p| => if p[i].Index? then Some(p[i].index) else None)
  }

  function Under(step: Step, paths: seq<Path>): seq<Path> {
    seq(|paths|, i requires 0 <= i < |paths| => [step] + paths[i])
  }

  /** `rendered` lists single expressions of `v`, none twice; all of them if `complete`. */
  ghost predicate Renders(v: Json, rendered: seq<Path>, complete: bool) {
    && Distinct(rendered)
    && (forall p :: p in rendered ==> SingleAt(v, p))
    && (complete ==> forall p :: SingleAt(v, p) ==> p in rendered)
  }

  /** The same of what lies below the steps in `done`. */
  ghost predicate RendersBelow(v: Json, done: set<Step>, rendered: seq<Path>, complete: bool) {
    && Distinct(rendered)
    && (forall p :: p in rendered ==> p != [] && p[0] in done && SingleAt(v, p))
    && (complete ==> forall p :: p != [] && p[0] in done && SingleAt(v, p) ==> p in rendered)
  }

  lemma BelowChild(engine: Engine, v: Json, step: Step, child: Json, p: Path)
    requires Child(v, step) == Some(child)
    ensures SingleAt(v, [step] + p) <==> SingleAt(child, p)
    ensures OffendsAt(engine, v, [step] + p) <==> OffendsAt(engine, child, p)
  {
    hide Classify;
    assert ([step] + p)[1..] == p;
  }

  lemma RendersOneMore(engine: Engine, v: Json, done: set<Step>, step: Step, child: Json,
                       rendered: seq<Path>, below: seq<Path>, complete: bool)
    requires Child(v, step) == Some(child) && step !in done
    requires RendersBelow(v, done, rendered, true) && Renders(child, below, complete)
    ensures RendersBelow(v, done + {step}, rendered + Under(step, below), complete)
  {
    hide SingleAt, Child;
    var all := rendered + Under(step, below);
    forall p | p in all ensures p != [] && p[0] in done + {step} && SingleAt(v, p) {
      if p !in rendered {
        var i :| 0 <= i < |below| && p == [step] + below[i];
        BelowChild(engine, v, step, child, below[i]);
      }
    }
    UnderIsDistinct(step, rendered, below);
    if complete {
      forall p | p != [] && p[0] in done + {step} && SingleAt(v, p) ensures p in all {
        if p[0] == step {
          assert p == [step] + p[1..];
          BelowChild(engine, v, step, child, p[1..]);
          var i :| 0 <= i < |below| && below[i] == p[1..];
          assert Under(step, below)[i] == p;
        }
      }
    }
  }

  lemma UnderIsDistinct(step: Step, rendered: seq<Path>, below: seq<Path>)
    requires Distinct(rendered) && Distinct(below)
    requires forall p :: p in rendered ==> p != [] && p[0] != step
    ensures Distinct(rendered + Under(step, below))
  {
    var all := rendered + Under(step, below);
    forall i, j | 0 <= i < j < |all| ensures all[i] != all[j] {
      if i < |rendered| <= j {
        assert rendered[i] in rendered;
      } else if |rendered| <= i {
        assert all[i][1..] == below[i - |rendered|] && all[j][1..] == below[j - |rendered|];
      }
    }
  }

  ghost function Steps(v: Json): set<Step> {
    match v
    case Obj(fields) => set k | k in fields :: Key(k)
    case Arr(items) => set i: nat | i < |items| :: Index(i)
    case _ => {}
  }

  /** With every child done, everything below a container is done. */
  lemma AllBelow(engine: Engine, v: Json, rendered: seq<Path>, complete: bool)
    requires v.Obj? || v.Arr?
    requires RendersBelow(v, Steps(v), rendered, complete)
    ensures Renders(v, rendered, complete)
  {
    hide Classify;
    forall p | SingleAt(v, p) ensures p != [] && p[0] in Steps(v) {}
  }

  lemma SomeBelow(v: Json, done: set<Step>, rendered: seq<Path>)
    requires RendersBelow(v, done, rendered, false)
    ensures Renders(v, rendered, false)
  {}

  /** The children in `done` hold no offending string. */
  ghost predicate NoneOffends(engine: Engine, v: Json, done: set<Step>) {
    forall p :: p != [] && p[0] in done ==> !OffendsAt(engine, v, p)
  }

  lemma NoneOffendsOneMore(engine: Engine, v: Json, done: set<Step>, step: Step, child: Json)
    requires Child(v, step) == Some(child) && NoneOffends(engine, v, done)
    requires forall p :: !OffendsAt(engine, child, p)
    ensures NoneOffends(engine, v, done + {step})
  {
    hide OffendsAt, Child;
    forall p | p != [] && p[0] in done + {step} ensures !OffendsAt(engine, v, p) {
      if p[0] == step {
        assert p == [step] + p[1..];
        BelowChild(engine, v, step, child, p[1..]);
      }
    }
  }

  lemma NoneOffendsAtAll(engine: Engine, v: Json)
    requires v.Obj? || v.Arr?
    requires NoneOffends(engine, v, Steps(v))
    ensures forall p :: !OffendsAt(engine, v, p)
  {
    hide Classify;
    forall p ensures !OffendsAt(engine, v, p) {
      if p != [] && p[0] !in Steps(v) { assert Child(v, p[0]).None?; }
    }
  }

  /** The walk failed at a string that offends, and says where without naming a key. */
  ghost predicate Blames(engine: Engine, v: Json, path: Path, error: seq<Option<nat>>) {
    exists p :: OffendsAt(engine, v, p) && error == Location(path + p)
  }

  lemma BlameBelow(engine: Engine, v: Json, step: Step, child: Json, path: Path, error: seq<Option<nat>>)
    requires Child(v, step) == Some(child) && Blames(engine, child, path + [step], error)
    ensures Blames(engine, v, path, error) && exists p :: OffendsAt(engine, v, p)
  {
    hide OffendsAt, Child;
    var p :| OffendsAt(engine, child, p) && error == Location(path + [step] + p);
    BelowChild(engine, v, step, child, p);
    assert path + [step] + p == path + ([step] + p);
  }

  /** Succeeds exactly when no string offends; the result is the same tree with every single expression
      replaced by its value, and each of them is rendered exactly once, nothing else at all. Even a walk
      that fails renders nothing twice. */
  method Walk(engine: Engine, v: Json, path: Path) returns (r: Result<Json, seq<Option<nat>>>, rendered: seq<Path>)
    ensures r.Ok? <==> forall p :: !OffendsAt(engine, v, p)
    ensures r.Ok? ==> r.value == Subst(engine, v)
    ensures r.Err? ==> Blames(engine, v, path, r.error)
    ensures Renders(v, rendered, r.Ok?)
    decreases v, 1
  {
    match v
    case Str(s) =>
      r, rendered := WalkString(engine, s, path);
    case Obj(_) =>
      r, rendered := WalkObject(engine, v, path);
    case Arr(_) =>
      r, rendered := WalkArray(engine, v, path);
    case _ =>
      LeafHasNoStrings(engine, v);
      r, rendered := Ok(v), [];
  }

  lemma LeafHasNoStrings(engine: Engine, v: Json)
    requires v.Null? || v.Bool? || v.Num?
    ensures forall p :: !OffendsAt(engine, v, p) && !SingleAt(v, p)
  {
    hide Classify;
  }

  lemma StringIsALeaf(engine: Engine, s: string, p: Path)
    ensures SingleAt(Str(s), p) <==> p == [] && Classify(s).Single?
    ensures OffendsAt(engine, Str(s), p) <==>
            p == [] && (Classify(s).Mixed? || (Classify(s).Single? && engine.Eval(Classify(s).inner).None?))
  {
    hide Classify;
  }

  /** Evaluates the expression at `place`; this is where the engine renders, and where that is logged. */
  method EvalSingle(engine: Engine, inner: string, place: Path, log: seq<Path>)
    returns (value: Option<Json>, log': seq<Path>)
    ensures value == engine.Eval(inner)
    ensures log' == log + [place]
  {
    var text := engine.render(Wrapper(inner));
    log' := log + [place];
    value := if text.Some? then engine.parse(text.value) else None;
  }

  method WalkString(engine: Engine, s: string, path: Path)
    returns (r: Result<Json, seq<Option<nat>>>, rendered: seq<Path>)
    ensures r.Ok? <==> forall p :: !OffendsAt(engine, Str(s), p)
    ensures r.Ok? ==> r.value == Subst(engine, Str(s))
    ensures r.Err? ==> Blames(engine, Str(s), path, r.error)
    ensures Renders(Str(s), rendered, r.Ok?)
  {
    hide Classify, OffendsAt, SingleAt;
    forall p { StringIsALeaf(engine, s, p); }
    assert path + [] == path;
    match Classify(s)
    case Literal =>
      r, rendered := Ok(Str(s)), [];
    case Mixed =>
      assert OffendsAt(engine, Str(s), []);
      r, rendered := Err(Location(path)), [];
    case Single(inner, _) =>
      var value;
      value, rendered := EvalSingle(engine, inner, [], []);
      assert value.None? ==> OffendsAt(engine, Str(s), []);
      r := if value.Some? then Ok(value.value) else Err(Location(path));
  }

  lemma NothingWalked(engine: Engine, v: Json)
    ensures RendersBelow(v, {}, [], true) && NoneOffends(engine, v, {})
  {
    hide OffendsAt, SingleAt;
  }

  lemma SubstOfArray(engine: Engine, v: Json, out: seq<Json>)
    requires v.Arr? && |out| == |v.items| && forall i :: 0 <= i < |out| ==> out[i] == Subst(engine, v.items[i])
    ensures Subst(engine, v) == Arr(out)
  {}

  lemma SubstOfObject(engine: Engine, v: Json, out: map<string, Json>)
    requires v.Obj? && out.Keys == v.fields.Keys && forall k :: k in out ==> out[k] == Subst(engine, v.fields[k])
    ensures Subst(engine, v) == Obj(out)
  {}

  method WalkArray(engine: Engine, v: Json, path: Path) returns (r: Result<Json, seq<Option<nat>>>, rendered: seq<Path>)
    requires v.Arr?
    ensures r.Ok? <==> forall p :: !OffendsAt(engine, v, p)
    ensures r.Ok? ==> r.value == Subst(engine, v)
    ensures r.Err? ==> Blames(engine, v, path, r.error)
    ensures Renders(v, rendered, r.Ok?)
    decreases v, 0
  {
    hide OffendsAt, SingleAt, RendersBelow, NoneOffends, Renders, Blames, Subst, Under;
    NothingWalked(engine, v);
    var items := v.items;
    var out := [];
    rendered := [];
    ghost var done: set<Step> := {};
    for i := 0 to |items|
      invariant done == set k: nat | k < i :: Index(k)
      invariant |out| == i && forall k :: 0 <= k < i ==> out[k] == Subst(engine, items[k])
      invariant RendersBelow(v, done, rendered, true) && NoneOffends(engine, v, done)
    {
      var child, below := Walk(engine, items[i], path + [Index(i)]);
      RendersOneMore(engine, v, done, Index(i), items[i], rendered, below, child.Ok?);
      rendered := rendered + Under(Index(i), below);
      if child.Err? {
        BlameBelow(engine, v, Index(i), items[i], path, child.error);
        SomeBelow(v, done + {Index(i)}, rendered);
        return Err(child.error), rendered;
      }
      NoneOffendsOneMore(engine, v, done, Index(i), items[i]);
      out := out + [child.value];
      done := done + {Index(i)};
    }
    assert done == Steps(v);
    NoneOffendsAtAll(engine, v);
    AllBelow(engine, v, rendered, true);
    SubstOfArray(engine, v, out);
    r := Ok(Arr(out));
  }

  method WalkObject(engine: Engine, v: Json, path: Path)
    returns (r: Result<Json, seq<Option<nat>>>, rendered: seq<Path>)
    requires v.Obj?
    ensures r.Ok? <==> forall p :: !OffendsAt(engine, v, p)
    ensures r.Ok? ==> r.value == Subst(engine, v)
    ensures r.Err? ==> Blames(engine, v, path, r.error)
    ensures Renders(v, rendered, r.Ok?)
    decreases v, 0
  {
    hide OffendsAt, SingleAt, RendersBelow, NoneOffends, Renders, Blames, Subst, Under;
    NothingWalked(engine, v);
    var fields := v.fields;
    var out: map<string, Json> := map[];
    rendered := [];
    var todo := fields.Keys;
    ghost var done: set<Step> := {};
    while todo != {}
      invariant todo <= fields.Keys
      invariant done == set k | k in fields.Keys - todo :: Key(k)
      invariant out.Keys == fields.Keys - todo && forall k :: k in out ==> out[k] == Subst(engine, fields[k])
      invariant RendersBelow(v, done, rendered, true) && NoneOffends(engine, v, done)
      decreases todo
    {
      var k :| k in todo;
      var child, below := Walk(engine, fields[k], path + [Key(k)]);
      RendersOneMore(engine, v, done, Key(k), fields[k], rendered, below, child.Ok?);
      rendered := rendered + Under(Key(k), below);
      if child.Err? {
        BlameBelow(engine, v, Key(k), fields[k], path, child.error);
        SomeBelow(v, done + {Key(k)}, rendered);
        return Err(child.error), rendered;
      }
      NoneOffendsOneMore(engine, v, done, Key(k), fields[k]);
      out := out[k := child.value];
      done := done + {Key(k)};
      todo := todo - {k};
    }
    assert done == Steps(v);
    NoneOffendsAtAll(engine, v);
    AllBelow(engine, v, rendered, true);
    SubstOfObject(engine, v, out);
    r := Ok(Obj(out));
  }

  // ---- The lint --------------------------------------------------------------------------------------

  datatype JsonLint = JsonLint(mixed: bool, encodesToText: bool)

  function AfterLast(s: string, c: char): Option<string> {
    if s == [] then None
    else if s[|s| - 1] == c then Some([])
    else
      var rest := AfterLast(s[..|s| - 1], c);
      if rest.Some? then Some(rest.value + [s[|s| - 1]]) else None
  }

  predicate EndsInJsonEncode(inner: string) {
    match AfterLast(inner, '|')
    case None => false
    case Some(tail) =>
      var last := Trim(tail, IsWhitespace);
      "json_encode" <= last && (|last| == |"json_encode"| || last[|"json_encode"|] == '(')
  }

  /** The last filter of the expression is `json_encode`, with or without arguments. */
  lemma JsonEncodeIsLast(before: string, tail: string)
    requires '|' !in tail
    ensures var filter := Trim(tail, IsWhitespace);
      EndsInJsonEncode(before + "|" + tail) <==> filter == "json_encode" || "json_encode(" <= filter
    ensures !EndsInJsonEncode(tail)
  {
    AfterLastIs(before, tail);
    NoneAfter(tail);
    hide AfterLast, Trim;
    var filter, name := Trim(tail, IsWhitespace), "json_encode";
    assert "json_encode(" == name + "(";
    if "json_encode(" <= filter { assert filter[..|name|] == name && filter[|name|] == '('; }
    if name <= filter && |filter| > |name| && filter[|name|] == '(' { assert filter[..|name| + 1] == name + "("; }
  }

  lemma {:induction false} AfterLastIs(before: string, tail: string)
    requires '|' !in tail
    ensures AfterLast(before + "|" + tail, '|') == Some(tail)
    decreases |tail|
  {
    var s := before + "|" + tail;
    if tail != [] {
      assert s[..|s| - 1] == before + "|" + tail[..|tail| - 1];
      AfterLastIs(before, tail[..|tail| - 1]);
      assert s[|s| - 1] == tail[|tail| - 1] && s[|s| - 1] in tail;
      assert tail[..|tail| - 1] + [tail[|tail| - 1]] == tail;
    }
  }

  lemma {:induction false} NoneAfter(tail: string)
    requires '|' !in tail
    ensures AfterLast(tail, '|').None?
    decreases |tail|
  {
    if tail != [] { NoneAfter(tail[..|tail| - 1]); }
  }

  ghost predicate EncodesAt(v: Json, p: Path) {
    SingleAt(v, p) && EndsInJsonEncode(Classify(At(v, p).value.s).inner)
  }

  /** `lint` is `before` with what the paths under `done` of `v` add. */
  ghost predicate LintedBelow(v: Json, done: set<Step>, before: JsonLint, lint: JsonLint) {
    && (lint.mixed <==> before.mixed || exists p :: p != [] && p[0] in done && MixedAt(v, p))
    && (lint.encodesToText <==> before.encodesToText || exists p :: p != [] && p[0] in done && EncodesAt(v, p))
  }

  ghost predicate Linted(v: Json, before: JsonLint, lint: JsonLint) {
    && (lint.mixed <==> before.mixed || exists p :: MixedAt(v, p))
    && (lint.encodesToText <==> before.encodesToText || exists p :: EncodesAt(v, p))
  }

  lemma LintBelowChild(v: Json, step: Step, child: Json, p: Path)
    requires Child(v, step) == Some(child)
    ensures MixedAt(v, [step] + p) <==> MixedAt(child, p)
    ensures EncodesAt(v, [step] + p) <==> EncodesAt(child, p)
  {
    hide Classify, EndsInJsonEncode;
    assert ([step] + p)[1..] == p;
  }

  lemma LintOneMore(v: Json, done: set<Step>, step: Step, child: Json, before: JsonLint, sofar: JsonLint,
                    lint: JsonLint)
    requires Child(v, step) == Some(child)
    requires LintedBelow(v, done, before, sofar) && Linted(child, sofar, lint)
    ensures LintedBelow(v, done + {step}, before, lint)
  {
    hide MixedAt, EncodesAt, Child;
    forall p { LintBelowChild(v, step, child, p); }
    SomewhereOneMore(p => MixedAt(v, p), p => MixedAt(child, p), done, step);
    SomewhereOneMore(p => EncodesAt(v, p), p => EncodesAt(child, p), done, step);
  }

  /** A place under the steps in `done` or under `step` is one of either. */
  lemma SomewhereOneMore(here: Path -> bool, below: Path -> bool, done: set<Step>, step: Step)
    requires forall p :: here([step] + p) <==> below(p)
    ensures (exists p: Path :: p != [] && p[0] in done + {step} && here(p))
       <==> (exists p: Path :: p != [] && p[0] in done && here(p)) || exists p :: below(p)
  {
    if p: Path :| p != [] && p[0] in done + {step} && here(p) {
      if p[0] == step {
        assert p == [step] + p[1..] && below(p[1..]);
      }
    }
    if p :| below(p) {
      assert here([step] + p) && ([step] + p)[0] == step;
    }
  }

  lemma LintAllBelow(v: Json, before: JsonLint, lint: JsonLint)
    requires (v.Obj? || v.Arr?) && LintedBelow(v, Steps(v), before, lint)
    ensures Linted(v, before, lint)
  {
    hide Classify;
    forall p | StringAt(v, p) ensures p != [] && p[0] in Steps(v) {}
  }

  lemma LintLeaf(v: Json)
    requires !v.Obj? && !v.Arr?
    ensures forall p :: (MixedAt(v, p) <==> p == [] && v.Str? && Classify(v.s).Mixed?)
                     && (EncodesAt(v, p) <==> p == [] && v.Str? && Classify(v.s).Single?
                                              && EndsInJsonEncode(Classify(v.s).inner))
  {
    hide Classify, EndsInJsonEncode;
  }

  /** Sets each flag exactly when some string of the value calls for it, and clears neither. */
  method LintWalk(v: Json, before: JsonLint) returns (lint: JsonLint)
    ensures Linted(v, before, lint)
    decreases v
  {
    hide MixedAt, EncodesAt, Classify, EndsInJsonEncode;
    lint := before;
    ghost var done: set<Step> := {};
    match v
    case Str(s) =>
      LintLeaf(v);
      if Classify(s).Mixed? {
        assert MixedAt(v, []);
        lint := lint.(mixed := true);
      } else if Classify(s).Single? && EndsInJsonEncode(Classify(s).inner) {
        assert EncodesAt(v, []);
        lint := lint.(encodesToText := true);
      }
    case Arr(items) =>
      for i := 0 to |items|
        invariant done == set k: nat | k < i :: Index(k)
        invariant LintedBelow(v, done, before, lint)
      {
        var next := LintWalk(items[i], lint);
        LintOneMore(v, done, Index(i), items[i], before, lint, next);
        lint, done := next, done + {Index(i)};
      }
      assert done == Steps(v);
      LintAllBelow(v, before, lint);
    case Obj(fields) =>
      var todo := fields.Keys;
      while todo != {}
        invariant todo <= fields.Keys && done == set k | k in fields.Keys - todo :: Key(k)
        invariant LintedBelow(v, done, before, lint)
        decreases todo
      {
        var k :| k in todo;
        var next := LintWalk(fields[k], lint);
        LintOneMore(v, done, Key(k), fields[k], before, lint, next);
        lint, done, todo := next, done + {Key(k)}, todo - {k};
      }
      assert done == Steps(v);
      LintAllBelow(v, before, lint);
    case _ =>
      LintLeaf(v);
  }

  /** With an engine that always yields JSON, the walk fails exactly on the values the lint calls mixed. */
  method LintAgreesWithWalk(engine: Engine, v: Json) returns (lint: JsonLint, r: Result<Json, seq<Option<nat>>>)
    requires forall inner :: engine.Eval(inner).Some?
    ensures r.Ok? <==> !lint.mixed
    ensures r.Ok? ==> r.value == Subst(engine, v)
  {
    hide Classify;
    assert forall p :: OffendsAt(engine, v, p) <==> MixedAt(v, p);
    lint := LintWalk(v, JsonLint(false, false));
    var rendered;
    r, rendered := Walk(engine, v, []);
  }
}
