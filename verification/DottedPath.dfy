/** The dotted-path lookup of the `map`/`filter` attributes: a stateful
    tokenizer with quoting, then a fold over the value. A string here is the
    sequence of its UTF-8 bytes, one character each, as the tokenizer's
    positions count bytes. */
module DottedPath {
  import opened Results
  import opened Json
  import opened Text

  predicate IsContinuation(c: char) {
    0x80 <= c as int < 0xC0
  }

  predicate IsBoundary(s: string, i: nat) {
    i == 0 || i == |s| || (i < |s| && !IsContinuation(s[i]))
  }

  /** A slice between character boundaries. */
  function Slice(s: string, from: nat, to: nat): Option<string> {
    if from <= to <= |s| && IsBoundary(s, from) && IsBoundary(s, to) then Some(s[from..to]) else None
  }

  // ---- The tokenizer --------------------------------------------------------------------

  datatype Machine = Machine(single: bool, dual: bool, escaped: bool, position: nat, broken: bool)
  {
    predicate Unquoted() {
      !single && !dual && !escaped
    }
  }

  const START := Machine(false, false, false, 0, false)

  datatype Token = Token(text: Option<string>, machine: Machine)

  /** One byte: the call is over, or the scan goes on. */
  datatype Step = Over(token: Token) | On(machine: Machine, offset: nat)

  /** The end of a token at `i`: emit it if it is not empty, otherwise carry on from the new position. */
  function CutAt(pointer: string, m: Machine, i: nat, offset: nat): Step {
    match Slice(pointer, m.position + offset, m.position + i)
    case None => Over(Token(None, m.(broken := true)))
    case Some(text) =>
      var next := m.(position := m.position + i + 1);
      if text != [] then Over(Token(Some(text), next)) else On(next, offset)
  }

  /** The step at the `i`th byte of `pointer[base..]`. */
  function StepAt(pointer: string, m: Machine, base: nat, i: nat, offset: nat): (step: Step)
    requires base + i < |pointer|
    ensures step.On? ==> m.position <= step.machine.position
    ensures step.Over? && step.token.text.Some? ==> m.position < step.token.machine.position <= |pointer| + 1
  {
    var c := pointer[base + i];
    var plain := m.(escaped := false);
    if c == '\\' then On(m.(escaped := true), offset)
    else if (c == '"' || c == '\'') && !m.escaped then
      var toggled := if c == '"' then plain.(dual := !m.dual) else plain.(single := !m.single);
      if i == offset then On(toggled, offset + 1) else CutAt(pointer, toggled, i, offset)
    else if c == ']' && m.Unquoted() then On(plain, offset + 1)
    else if c == '.' && m.Unquoted() && i == offset then On(plain, offset + 1)
    else if (c == '[' || c == '.') && m.Unquoted() then CutAt(pointer, plain, i, offset)
    else On(plain, offset)
  }

  /** Scanning `pointer[base..]` from its `i`th byte. */
  function Scan(pointer: string, m: Machine, base: nat, i: nat, offset: nat): (t: Token)
    requires base + i <= |pointer|
    ensures t.text.Some? ==> m.position < t.machine.position <= |pointer| + 1
    decreases |pointer| - base - i
  {
    if base + i == |pointer| then
      if m.position + offset >= |pointer| then Token(None, m)
      else
        match Slice(pointer, m.position + offset, |pointer|)
        case None => Token(None, m.(broken := true))
        case Some(text) => Token(Some(text), m.(position := |pointer|))
    else
      match StepAt(pointer, m, base, i, offset)
      case Over(token) => token
      case On(next, offset') => Scan(pointer, next, base, i + 1, offset')
  }

  function Next(pointer: string, m: Machine): (t: Token)
    ensures t.text.Some? ==> m.position < t.machine.position <= |pointer| + 1
  {
    if m.broken then Token(None, m)
    else if Slice(pointer, m.position, |pointer|).None? then Token(None, m.(broken := true))
    else Scan(pointer, m, m.position, 0, 0)
  }

  datatype Tokens = Tokens(tokens: seq<string>, broken: bool)

  /** All tokens: each one advances the position, so there are finitely many. */
  function AllTokens(pointer: string, m: Machine): Tokens
    decreases |pointer| + 1 - m.position
  {
    var t := Next(pointer, m);
    if t.text.None? then Tokens([], t.machine.broken)
    else
      var rest := AllTokens(pointer, t.machine);
      Tokens([t.text.value] + rest.tokens, rest.broken)
  }

  class PointerMachina {
    const pointer: string
    var single: bool
    var dual: bool
    var escaped: bool
    var position: nat
    var broken: bool

    function View(): Machine
      reads this
    {
      Machine(single, dual, escaped, position, broken)
    }

    constructor (text: string)
      ensures pointer == text && View() == START
    {
      pointer := text;
      single, dual, escaped, position, broken := false, false, false, 0, false;
    }

    /** Ends the token that runs to `i`; `done` says the call is over. */
    method EndToken(i: nat, offset: nat) returns (done: bool, r: Option<string>)
      modifies this
      ensures CutAt(pointer, old(View()), i, offset) == if done then Over(Token(r, View())) else On(View(), offset)
    {
      var text := Slice(pointer, position + offset, position + i);
      if text.None? {
        broken := true;
        return true, None;
      }
      position := position + i + 1;
      done := text.value != [];
      r := if done then text else None;
    }

    /** Takes the byte at `i`; `done` says the call is over. */
    method Take(base: nat, i: nat, offset: nat) returns (done: bool, r: Option<string>, offset': nat)
      requires base + i < |pointer|
      modifies this
      ensures StepAt(pointer, old(View()), base, i, offset)
           == if done then Over(Token(r, View())) else On(View(), offset')
    {
      hide CutAt;
      done, r, offset' := false, None, offset;
      var c := pointer[base + i];
      if c == '\\' {
        escaped := true;
        return;
      }
      var unquoted := !single && !dual && !escaped;
      var ends := false;
      if (c == '"' || c == '\'') && !escaped {
        if c == '"' { dual := !dual; } else { single := !single; }
        if i == offset { offset' := offset + 1; } else { ends := true; }
      } else if c == ']' && unquoted {
        offset' := offset + 1;
      } else if c == '.' && unquoted && i == offset {
        offset' := offset + 1;
      } else if (c == '[' || c == '.') && unquoted {
        ends := true;
      }
      escaped := false;
      if ends {
        done, r := EndToken(i, offset);
      }
    }

    method Advance() returns (r: Option<string>)
      modifies this
      ensures Next(pointer, old(View())) == Token(r, View())
    {
      if broken {
        return None;
      }
      if Slice(pointer, position, |pointer|).None? {
        broken := true;
        return None;
      }
      assert position <= |pointer|;
      hide Slice, StepAt;
      var base, i, offset := position, 0, 0;
      while base + i < |pointer|
        invariant base + i <= |pointer|
        invariant Next(pointer, old(View())) == Scan(pointer, View(), base, i, offset)
      {
        var done;
        done, r, offset := Take(base, i, offset);
        if done {
          return;
        }
        i := i + 1;
      }
      if position + offset < |pointer| {
        r := Slice(pointer, position + offset, |pointer|);
        if r.None? {
          broken := true;
        } else {
          position := |pointer|;
        }
      } else {
        r := None;
      }
    }
  }

  // ---- The lookup --------------------------------------------------------------------------

  const USIZE_MAX: nat := 0xFFFF_FFFF_FFFF_FFFF

  /** An array index: no sign, no leading zero, within the machine word. */
  function ParseIndex(s: string): Option<nat> {
    if "+" <= s || ("0" <= s && |s| != 1) then None
    else if s != [] && AllDigits(s) && Value(s) <= USIZE_MAX then Some(Value(s))
    else None
  }

  /** The indices are exactly the decimal numerals. */
  lemma ParseIndexIff(s: string, n: nat)
    ensures ParseIndex(s) == Some(n) <==> n <= USIZE_MAX && s == Decimal(n)
  {
    DecimalIsANumeral(n);
    if ParseIndex(s) == Some(n) {
      NumeralIsDecimal(s);
    }
    if n <= USIZE_MAX && s == Decimal(n) {
      assert IsDigit(s[0]);
    }
  }

  function StepInto(v: Json, token: string): Option<Json> {
    match v
    case Obj(fields) => if token in fields then Some(fields[token]) else None
    case Arr(items) =>
      var n := ParseIndex(token);
      if n.Some? && n.value < |items| then Some(items[n.value]) else None
    case _ => None
  }

  /** `w` is the field of `v` named `segment`, or its element numbered `segment`. */
  ghost predicate Reaches(v: Json, segment: string, w: Json) {
    || (v.Obj? && segment in v.fields && v.fields[segment] == w)
    || (v.Arr? && exists n: nat :: n <= USIZE_MAX && n < |v.items| && segment == Decimal(n) && v.items[n] == w)
  }

  lemma StepIntoReaches(v: Json, segment: string, w: Json)
    ensures StepInto(v, segment) == Some(w) <==> Reaches(v, segment, w)
  {
    forall n: nat { ParseIndexIff(segment, n); }
  }

  function Fold(v: Json, tokens: seq<string>): Option<Json>
    decreases |tokens|
  {
    if tokens == [] then Some(v)
    else
      var next := StepInto(v, tokens[0]);
      if next.Some? then Fold(next.value, tokens[1..]) else None
  }

  /** Every non-overlapping `~` `digit`, left to right. */
  function ReplaceTilde(s: string, digit: char, to: char): string {
    if s == [] then []
    else if |s| >= 2 && s[0] == '~' && s[1] == digit then [to] + ReplaceTilde(s[2..], digit, to)
    else [s[0]] + ReplaceTilde(s[1..], digit, to)
  }

  /** `~1` first, then `~0`, as section 4 of RFC 6901 orders it. */
  function Unescape(token: string): string {
    ReplaceTilde(ReplaceTilde(token, '1', '/'), '0', '~')
  }

  function UnescapeAll(tokens: seq<string>): seq<string> {
    seq(|tokens|, i requires 0 <= i < |tokens| => Unescape(tokens[i]))
  }

  ghost function DottedSpec(v: Json, pointer: string): Option<Json> {
    if pointer == [] then Some(v)
    else
      var all := AllTokens(pointer, START);
      if all.broken then None else Fold(v, UnescapeAll(all.tokens))
  }

  lemma TokenByToken(pointer: string, m: Machine)
    ensures AllTokens(pointer, m) ==
      var t := Next(pointer, m);
      if t.text.None? then Tokens([], t.machine.broken)
      else Tokens([t.text.value] + AllTokens(pointer, t.machine).tokens, AllTokens(pointer, t.machine).broken)
  {}

  method Dotted(v: Json, pointer: string) returns (r: Option<Json>)
    ensures r == DottedSpec(v, pointer)
  {
    hide Next, Fold, Unescape, AllTokens;
    if pointer == [] {
      return Some(v);
    }
    var machina := new PointerMachina(pointer);
    var tokens: seq<string> := [];
    ghost var raw: seq<string> := [];
    TokenByToken(pointer, START);
    var t := machina.Advance();
    while t.Some?
      invariant fresh(machina)
      invariant machina.pointer == pointer && tokens == UnescapeAll(raw)
      invariant t.Some? ==> machina.position <= |pointer| + 1
      invariant var rest := AllTokens(pointer, machina.View());
        AllTokens(pointer, START) == if t.Some? then Tokens(raw + [t.value] + rest.tokens, rest.broken)
                                     else Tokens(raw, machina.broken)
      decreases if t.Some? then |pointer| + 2 - machina.position else 0
    {
      TokenByToken(pointer, machina.View());
      ghost var rest := AllTokens(pointer, machina.View()).tokens;
      raw := raw + [t.value];
      tokens := tokens + [Unescape(t.value)];
      t := machina.Advance();
      if t.Some? {
        assert rest[0] == t.value;
        assert raw + rest == raw + [t.value] + rest[1..];
      } else {
        assert raw + rest == raw;
      }
    }
    if machina.broken {
      return None;
    }
    r := Fold(v, tokens);
  }

  // ---- Following keys and indices ------------------------------------------------------------

  /** Following the segments one by one, as keys and indices, leads to `w`. */
  ghost predicate ReachesBy(v: Json, segments: seq<string>, w: Json)
    decreases |segments|
  {
    if segments == [] then v == w
    else exists next :: Reaches(v, segments[0], next) && ReachesBy(next, segments[1..], w)
  }

  lemma {:induction false} FoldReaches(v: Json, segments: seq<string>, w: Json)
    ensures Fold(v, segments) == Some(w) <==> ReachesBy(v, segments, w)
    decreases |segments|
  {
    hide StepInto, Reaches;
    if segments != [] {
      var next := StepInto(v, segments[0]);
      forall u { StepIntoReaches(v, segments[0], u); }
      if next.Some? { FoldReaches(next.value, segments[1..], w); }
    }
  }
}
