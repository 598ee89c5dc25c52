/** Paths printed in any of the forms the tokenizer knows, and which of them
    it reads back. */
module PrintedPath {
  import opened Results
  import opened Json
  import opened DottedPath

  // ---- Segments ------------------------------------------------------------------------------

  /** Section 3 of RFC 6901: `~` as `~0`, `/` as `~1`. */
  function Escape(s: string): string {
    if s == [] then []
    else (if s[0] == '~' then "~0" else if s[0] == '/' then "~1" else [s[0]]) + Escape(s[1..])
  }

  predicate IsSpecial(c: char) {
    c == '"' || c == '\'' || c == '[' || c == ']' || c == '\\'
  }

  /** A segment that can be printed: not empty, no quote, bracket or backslash, starting on a character. */
  predicate IsSegment(s: string) {
    s != [] && !IsContinuation(s[0]) && forall i :: 0 <= i < |s| ==> !IsSpecial(s[i])
  }

  function EscapeTilde(s: string): string {
    if s == [] then [] else (if s[0] == '~' then "~0" else [s[0]]) + EscapeTilde(s[1..])
  }

  /** A pair that is not the one replaced, and a lone character, stay. */
  lemma ReplaceSteps(rest: string, digit: char, other: char, to: char, c: char)
    requires digit != other && other != '~' && c != '~'
    ensures ReplaceTilde(['~', other] + rest, digit, to) == ['~', other] + ReplaceTilde(rest, digit, to)
    ensures ReplaceTilde(['~', digit] + rest, digit, to) == [to] + ReplaceTilde(rest, digit, to)
    ensures ReplaceTilde([c] + rest, digit, to) == [c] + ReplaceTilde(rest, digit, to)
  {
    var pair := ['~', other] + rest;
    assert pair[1..] == [other] + rest && ([other] + rest)[1..] == rest;
    assert ReplaceTilde([other] + rest, digit, to) == [other] + ReplaceTilde(rest, digit, to);
    assert (['~', digit] + rest)[2..] == rest && ([c] + rest)[1..] == rest;
  }

  lemma {:induction false} SlashesComeBack(s: string)
    ensures ReplaceTilde(Escape(s), '1', '/') == EscapeTilde(s)
    decreases |s|
  {
    hide ReplaceTilde;
    if s == [] {
      NothingToReplace('1', '/');
    } else {
      SlashesComeBack(s[1..]);
      ReplaceSteps(Escape(s[1..]), '1', '0', '/', if s[0] == '~' then 'x' else s[0]);
    }
  }

  lemma NothingToReplace(digit: char, to: char)
    ensures ReplaceTilde([], digit, to) == []
  {}

  lemma {:induction false} TildesComeBack(s: string)
    ensures ReplaceTilde(EscapeTilde(s), '0', '~') == s
    decreases |s|
  {
    hide ReplaceTilde;
    if s == [] {
      NothingToReplace('0', '~');
    } else {
      TildesComeBack(s[1..]);
      ReplaceSteps(EscapeTilde(s[1..]), '0', '1', '~', if s[0] == '~' then 'x' else s[0]);
      assert s == [s[0]] + s[1..];
    }
  }

  lemma UnescapeInvertsEscape(s: string)
    ensures Unescape(Escape(s)) == s
  {
    SlashesComeBack(s);
    TildesComeBack(s);
  }

  lemma {:induction false} EscapeKeepsPlain(s: string)
    requires forall i :: 0 <= i < |s| ==> !IsSpecial(s[i])
    ensures forall i :: 0 <= i < |Escape(s)| ==> !IsSpecial(Escape(s)[i]) && (Escape(s)[i] == '.' ==> '.' in s)
    ensures s != [] ==> Escape(s) != [] && (Escape(s)[0] == s[0] || Escape(s)[0] == '~')
    decreases |s|
  {
    if s != [] {
      EscapeKeepsPlain(s[1..]);
      assert forall c :: c in s[1..] ==> c in s;
    }
  }

  // ---- Forms ----------------------------------------------------------------------------------

  /** How a segment is printed: as it is, in quotes, in brackets and quotes, or in brackets alone. */
  datatype Style = Bare | Quoted(quote: char) | Bracketed(quote: char) | BareBracketed

  datatype Piece = Piece(style: Style, segment: string)
  {
    /** A segment that can be printed so; one with a dot needs quotes. */
    predicate Valid() {
      && IsSegment(segment)
      && (style.Bare? || style.BareBracketed? ==> '.' !in segment)
      && (style.Quoted? || style.Bracketed? ==> style.quote == '"' || style.quote == '\'')
    }

    function Core(): string {
      var text := Escape(segment);
      if style.Quoted? || style.Bracketed? then [style.quote] + text + [style.quote] else text
    }

    predicate InBrackets() {
      style.Bracketed? || style.BareBracketed?
    }
  }

  predicate AllValid(pieces: seq<Piece>) {
    forall i :: 0 <= i < |pieces| ==> pieces[i].Valid()
  }

  /** The pieces after the first: brackets follow directly, everything else after a dot. */
  function Tail(pieces: seq<Piece>): string {
    if pieces == [] then []
    else if pieces[0].InBrackets() then "[" + pieces[0].Core() + "]" + Tail(pieces[1..])
    else "." + pieces[0].Core() + Tail(pieces[1..])
  }

  function Print(pieces: seq<Piece>): string {
    if pieces != [] && !pieces[0].InBrackets() then pieces[0].Core() + Tail(pieces[1..]) else Tail(pieces)
  }

  function Segments(pieces: seq<Piece>): seq<string> {
    seq(|pieces|, i requires 0 <= i < |pieces| => pieces[i].segment)
  }

  /** Where the tokenizer is: at the start, or after a piece. */
  datatype Place = Start | AfterBare | AfterQuoted | AfterBracketed

  function PlaceAfter(piece: Piece): Place {
    match piece.style
    case Bare => AfterBare
    case Quoted(_) => AfterQuoted
    case _ => AfterBracketed
  }

  /** What is left to read: a bare piece has taken the dot or bracket after it, a bracketed one has left its bracket. */
  function Left(place: Place, pieces: seq<Piece>): string {
    match place
    case Start => Print(pieces)
    case AfterBare => if pieces == [] then [] else Tail(pieces)[1..]
    case AfterQuoted => Tail(pieces)
    case AfterBracketed => "]" + Tail(pieces)
  }

  /** The piece is read back at that place: brackets only with quotes inside, and only right after a bare piece. */
  predicate Fits(place: Place, piece: Piece) {
    match piece.style
    case Bare => true
    case Quoted(_) => true
    case Bracketed(_) => place.AfterBare?
    case BareBracketed => false
  }

  predicate AllFit(place: Place, pieces: seq<Piece>)
    decreases |pieces|
  {
    pieces != [] ==> Fits(place, pieces[0]) && AllFit(PlaceAfter(pieces[0]), pieces[1..])
  }

  /** Text that needs no escape: not empty, starting on a character, without quotes, brackets and backslashes. */
  predicate IsPlain(text: string) {
    text != [] && !IsContinuation(text[0]) && forall k :: 0 <= k < |text| ==> !IsSpecial(text[k])
  }

  lemma CoreIsPlain(piece: Piece)
    requires piece.Valid()
    ensures IsPlain(Escape(piece.segment))
    ensures piece.style.Bare? || piece.style.BareBracketed? ==> '.' !in Escape(piece.segment)
  {
    EscapeKeepsPlain(piece.segment);
  }

  // ---- Scanning ---------------------------------------------------------------------------------

  /** A character that the tokenizer in state `m` passes over. */
  predicate Passes(m: Machine, c: char) {
    !IsSpecial(c) && (c == '.' ==> m.single || m.dual)
  }

  lemma {:induction false} ScanPasses(pointer: string, m: Machine, base: nat, i: nat, j: nat, offset: nat)
    requires i <= j && base + j <= |pointer| && !m.escaped
    requires forall k :: base + i <= k < base + j ==> Passes(m, pointer[k])
    ensures Scan(pointer, m, base, i, offset) == Scan(pointer, m, base, j, offset)
    decreases j - i
  {
    if i < j {
      assert Passes(m, pointer[base + i]);
      assert m.(escaped := false) == m;
      ScanPasses(pointer, m, base, i + 1, j, offset);
    }
  }

  /** At a token boundary: outside quotes, at `position`. */
  function Ready(position: nat): Machine {
    Machine(false, false, false, position, false)
  }

  /** `pointer` from `at` on is `text`. */
  ghost predicate Remains(pointer: string, at: nat, text: string) {
    at <= |pointer| && pointer[at..] == text
  }

  lemma CharAt(pointer: string, at: nat, text: string, k: nat)
    requires Remains(pointer, at, text) && k < |text|
    ensures at + |text| == |pointer| && pointer[at + k] == text[k]
  {
    assert |pointer[at..]| == |text|;
    assert pointer[at..][k] == text[k];
  }

  /** Past the first part, the second remains. */
  lemma Rest(pointer: string, at: nat, first: string, second: string)
    requires Remains(pointer, at, first + second)
    ensures at + |first| + |second| == |pointer|
    ensures pointer[at..at + |first|] == first && Remains(pointer, at + |first|, second)
  {
    var all := pointer[at..];
    assert |all| == |first| + |second|;
    assert pointer[at..at + |first|] == all[..|first|] == first;
    assert pointer[at + |first|..] == all[|first|..] == second;
  }

  lemma SlicePlain(pointer: string, at: nat, text: string, to: nat)
    requires Remains(pointer, at, text) && at <= to <= |pointer| && text != [] && !IsContinuation(text[0])
    requires to == |pointer| || !IsContinuation(pointer[to])
    ensures Slice(pointer, at, to) == Some(pointer[at..to])
  {
    CharAt(pointer, at, text, 0);
  }

  /** Plain text without dots, up to a dot, a bracket or the end. */
  lemma ScanBare(pointer: string, base: nat, offset: nat, text: string, rest: string)
    requires Remains(pointer, base + offset, text + rest) && IsPlain(text) && '.' !in text
    requires rest == [] || rest[0] == '.' || rest[0] == '['
    ensures Scan(pointer, Ready(base), base, offset, offset)
         == Token(Some(text), Ready(if rest == [] then |pointer| else base + offset + |text| + 1))
    ensures rest != [] ==> base + offset + |text| + 1 <= |pointer|
  {
    var at, all := base + offset, text + rest;
    Rest(pointer, at, text, rest);
    forall k | at <= k < at + |text| ensures Passes(Ready(base), pointer[k]) {
      CharAt(pointer, at, all, k - at);
      assert all[k - at] == text[k - at] && text[k - at] in text;
    }
    ScanPasses(pointer, Ready(base), base, offset, offset + |text|, offset);
    if rest != [] { CharAt(pointer, at + |text|, rest, 0); }
    assert all[0] == text[0];
    SlicePlain(pointer, at, all, at + |text|);
    hide Passes, Remains, Slice, IsPlain;
    assert Ready(base).(escaped := false) == Ready(base);
  }

  ghost predicate IsQuote(c: char) { c == '"' || c == '\'' }

  function Inside(position: nat, quote: char): Machine {
    if quote == '"' then Ready(position).(dual := true) else Ready(position).(single := true)
  }

  function InQuotes(quote: char, text: string): string {
    [quote] + text + [quote]
  }

  /** Plain text in quotes, whatever follows. */
  lemma ScanQuoted(pointer: string, base: nat, offset: nat, quote: char, text: string, rest: string)
    requires Remains(pointer, base + offset, InQuotes(quote, text) + rest) && IsQuote(quote) && IsPlain(text)
    ensures Scan(pointer, Ready(base), base, offset, offset) == Token(Some(text), Ready(base + offset + |text| + 2))
    ensures base + offset + |text| + 2 <= |pointer|
  {
    var at, all := base + offset, InQuotes(quote, text) + rest;
    QuotesAt(pointer, at, quote, text, rest);
    hide Remains, InQuotes;
    assert Scan(pointer, Ready(base), base, offset, offset)
        == Scan(pointer, Inside(base, quote), base, offset + 1, offset + 1);
    ScanPasses(pointer, Inside(base, quote), base, offset + 1, offset + 1 + |text|, offset + 1);
    hide Slice;
  }

  lemma QuotesAt(pointer: string, at: nat, quote: char, text: string, rest: string)
    requires Remains(pointer, at, InQuotes(quote, text) + rest) && IsQuote(quote) && IsPlain(text)
    ensures var end := at + 1 + |text|;
      && end < |pointer| && pointer[at] == pointer[end] == quote
      && Slice(pointer, at + 1, end) == Some(text) && pointer[at + 1] == text[0] && !IsQuote(text[0])
      && forall k :: at + 1 <= k < end ==> !IsSpecial(pointer[k])
  {
    var all, end := InQuotes(quote, text) + rest, at + 1 + |text|;
    forall k | 0 <= k < |all| ensures pointer[at + k] == all[k] { CharAt(pointer, at, all, k); }
    assert pointer[at + 0] == quote && pointer[at + (|text| + 1)] == quote && pointer[at + 1] == text[0];
    assert !IsSpecial(text[0]);
    assert all == [quote] + (text + ([quote] + rest));
    Rest(pointer, at, [quote], text + ([quote] + rest));
    Rest(pointer, at + 1, text, [quote] + rest);
    assert (text + ([quote] + rest))[0] == text[0];
    SlicePlain(pointer, at + 1, text + ([quote] + rest), end);
    forall k | at + 1 <= k < end ensures !IsSpecial(pointer[k]) {
      assert pointer[at + (k - at)] == all[k - at] == text[k - at - 1];
    }
  }

  predicate IsJunk(s: string) { s == "" || s == "." || s == "]." }

  lemma Begin(pointer: string, at: nat)
    requires at < |pointer| && !IsContinuation(pointer[at])
    ensures Next(pointer, Ready(at)) == Scan(pointer, Ready(at), at, 0, 0)
  {
    assert IsBoundary(pointer, at);
  }

  lemma PassOne(pointer: string, at: nat, i: nat)
    requires at + i < |pointer| && (pointer[at + i] == '.' || pointer[at + i] == ']')
    ensures Scan(pointer, Ready(at), at, i, i) == Scan(pointer, Ready(at), at, i + 1, i + 1)
  {
    assert Ready(at).(escaped := false) == Ready(at);
  }

  /** A dot, and a closing bracket before it, are passed over. */
  lemma PassOver(pointer: string, at: nat, junk: string, rest: string)
    requires IsJunk(junk) && Remains(pointer, at, junk + rest) && rest != [] && !IsContinuation(rest[0])
    ensures at + |junk| <= |pointer|
    ensures Next(pointer, Ready(at)) == Scan(pointer, Ready(at), at, |junk|, |junk|)
  {
    hide Next, Scan, Remains;
    Rest(pointer, at, junk, rest);
    CharAt(pointer, at, junk + rest, 0);
    Begin(pointer, at);
    if junk != "" {
      PassOne(pointer, at, 0);
      if junk != "." {
        CharAt(pointer, at, junk + rest, 1);
        PassOne(pointer, at, 1);
      }
    }
  }

  // ---- Pieces that are read back -----------------------------------------------------------------

  /** What is left once a bare text has taken the character after it. */
  function Beyond(rest: string): string {
    if rest == [] then [] else rest[1..]
  }

  function JunkAt(place: Place): (junk: string)
    ensures IsJunk(junk)
  {
    match place
    case Start => ""
    case AfterBare => ""
    case AfterQuoted => "."
    case AfterBracketed => "]."
  }

  /** What follows the core of the first piece. */
  function RestOf(pieces: seq<Piece>): string
    requires pieces != []
  {
    if pieces[0].InBrackets() then "]" + Tail(pieces[1..]) else Tail(pieces[1..])
  }

  /** A piece that fits stands after what is passed over, */
  lemma LeftStarts(place: Place, pieces: seq<Piece>)
    requires pieces != [] && Fits(place, pieces[0])
    ensures Left(place, pieces) == JunkAt(place) + (pieces[0].Core() + RestOf(pieces))
  {
    TailSplits(pieces);
    var text := pieces[0].Core() + RestOf(pieces);
    hide Piece.Core, Tail;
    assert "" + text == text && "]" + ("." + text) == "]." + text;
  }

  /** and before what is left for the next. */
  lemma LeftGoesOn(place: Place, pieces: seq<Piece>)
    requires pieces != [] && Fits(place, pieces[0])
    ensures pieces[0].style.Bare? ==> RestOf(pieces) == [] || RestOf(pieces)[0] == '.' || RestOf(pieces)[0] == '['
    ensures Left(PlaceAfter(pieces[0]), pieces[1..])
         == if pieces[0].style.Bare? then Beyond(RestOf(pieces)) else RestOf(pieces)
  {
    hide Piece.Core;
  }

  lemma TailSplits(pieces: seq<Piece>)
    requires pieces != []
    ensures var core, tail := pieces[0].Core(), Tail(pieces[1..]);
      && Tail(pieces) == (if pieces[0].InBrackets() then "[" + (core + ("]" + tail)) else "." + (core + tail))
      && Tail(pieces)[1..] == (if pieces[0].InBrackets() then core + ("]" + tail) else core + tail)
      && (tail == [] || tail[0] == '.' || tail[0] == '[')
  {
    hide Piece.Core;
    var core, tail := pieces[0].Core(), Tail(pieces[1..]);
    assert "[" + core + "]" + tail == "[" + (core + ("]" + tail));
    assert "." + core + tail == "." + (core + tail);
  }

  lemma NextBare(pointer: string, at: nat, junk: string, text: string, rest: string)
    requires IsJunk(junk) && IsPlain(text) && '.' !in text && Remains(pointer, at, junk + (text + rest))
    requires rest == [] || rest[0] == '.' || rest[0] == '['
    ensures var t := Next(pointer, Ready(at));
      && t.text == Some(text) && t.machine == Ready(t.machine.position)
      && Remains(pointer, t.machine.position, Beyond(rest))
  {
    assert (text + rest)[0] == text[0];
    PassOver(pointer, at, junk, text + rest);
    hide Next, Scan, IsJunk, IsPlain, Remains, Beyond;
    Rest(pointer, at, junk, text + rest);
    ScanBare(pointer, at, |junk|, text, rest);
    TakesOneMore(pointer, at + |junk|, text, rest);
  }

  lemma NextQuoted(pointer: string, at: nat, junk: string, quote: char, text: string, rest: string)
    requires IsJunk(junk) && IsQuote(quote) && IsPlain(text)
    requires Remains(pointer, at, junk + (InQuotes(quote, text) + rest))
    ensures var t := Next(pointer, Ready(at));
      t.text == Some(text) && t.machine == Ready(t.machine.position) && Remains(pointer, t.machine.position, rest)
  {
    var core := InQuotes(quote, text);
    assert (core + rest)[0] == quote;
    PassOver(pointer, at, junk, core + rest);
    hide Next, Scan, IsJunk, IsPlain, Remains, InQuotes;
    Rest(pointer, at, junk, core + rest);
    ScanQuoted(pointer, at, |junk|, quote, text, rest);
    Rest(pointer, at + |junk|, core, rest);
    QuotesAreTwo(quote, text);
  }

  lemma NextCore(pointer: string, at: nat, junk: string, piece: Piece, rest: string)
    requires piece.Valid() && !piece.style.BareBracketed? && IsJunk(junk)
    requires Remains(pointer, at, junk + (piece.Core() + rest))
    requires piece.style.Bare? ==> rest == [] || rest[0] == '.' || rest[0] == '['
    ensures var t := Next(pointer, Ready(at));
      && t.text == Some(Escape(piece.segment)) && t.machine == Ready(t.machine.position)
      && Remains(pointer, t.machine.position, if piece.style.Bare? then Beyond(rest) else rest)
  {
    CoreIsPlain(piece);
    hide Next, Escape, IsSegment, IsJunk, IsPlain, Remains, Beyond;
    if piece.style.Bare? {
      NextBare(pointer, at, junk, Escape(piece.segment), rest);
    } else {
      NextQuoted(pointer, at, junk, piece.style.quote, Escape(piece.segment), rest);
    }
  }

  lemma QuotesAreTwo(quote: char, text: string)
    ensures |InQuotes(quote, text)| == |text| + 2
  {}

  lemma TakesOneMore(pointer: string, at: nat, text: string, rest: string)
    requires Remains(pointer, at, text + rest)
    ensures Remains(pointer, if rest == [] then |pointer| else at + |text| + 1, Beyond(rest))
  {
    hide Remains;
    Rest(pointer, at, text, rest);
    if rest == [] {
      AtTheEnd(pointer);
    } else {
      assert rest == rest[..1] + rest[1..];
      Rest(pointer, at + |text|, rest[..1], rest[1..]);
    }
  }

  lemma AtTheEnd(pointer: string)
    ensures Remains(pointer, |pointer|, [])
  {}

  /** The next token is that segment, escaped, and the machine is ready for what is left. */
  lemma NextFits(pointer: string, at: nat, place: Place, pieces: seq<Piece>)
    requires pieces != [] && pieces[0].Valid() && Fits(place, pieces[0]) && Remains(pointer, at, Left(place, pieces))
    ensures var t := Next(pointer, Ready(at));
      && t.text == Some(Escape(pieces[0].segment)) && t.machine == Ready(t.machine.position)
      && Remains(pointer, t.machine.position, Left(PlaceAfter(pieces[0]), pieces[1..]))
  {
    hide Left, Next, Piece.Core, Piece.Valid, Escape, PlaceAfter, IsJunk, Remains, Beyond, JunkAt, RestOf;
    LeftStarts(place, pieces);
    LeftGoesOn(place, pieces);
    NextCore(pointer, at, JunkAt(place), pieces[0], RestOf(pieces));
  }

  lemma NothingLeft(pointer: string, at: nat, place: Place)
    requires Remains(pointer, at, Left(place, []))
    ensures AllTokens(pointer, Ready(at)) == Tokens([], false)
  {
    assert |pointer[at..]| == |pointer| - at;
    if place == AfterBracketed {
      CharAt(pointer, at, "]", 0);
      assert IsBoundary(pointer, at);
      assert Next(pointer, Ready(at)) == Scan(pointer, Ready(at), at, 1, 1);
    }
  }

  // ---- Pieces that are misread ----------------------------------------------------------------------

  /** Inside quotes, a token that has begun runs at least to the next quote: it keeps its first character. */
  lemma {:induction false} KeepsItsStart(pointer: string, m: Machine, i: nat)
    requires (m.single || m.dual) && 1 <= i && m.position + i <= |pointer|
    ensures var t := Scan(pointer, m, m.position, i, 0);
      t.machine.broken || (t.text.Some? && t.text.value != [] && t.text.value[0] == pointer[m.position])
    decreases |pointer| - m.position - i
  {
    if m.position + i < |pointer| {
      var step := StepAt(pointer, m, m.position, i, 0);
      if step.On? {
        KeepsItsStart(pointer, step.machine, i + 1);
      }
    }
  }

  /** A quote that is not where a token may begin ends one. */
  lemma QuoteCuts(pointer: string, at: nat, n: nat, quote: char)
    requires n <= 1 && at + n + 1 < |pointer| && pointer[at + n + 1] == quote && IsQuote(quote)
    ensures var t := Scan(pointer, Ready(at + n + 1), at, n + 1, n);
      t.text.Some? ==>
        && at + 2 * n + 2 <= |pointer| && t.text.value == pointer[at + 2 * n + 1..at + 2 * n + 2]
        && t.machine == Inside(at + 2 * n + 3, quote)
  {
    assert Ready(at + n + 1).(escaped := false) == Ready(at + n + 1);
  }

  /** A piece in brackets and quotes at a place where it does not fit. */
  lemma QuotedBracketMisread(pointer: string, at: nat, bracket: bool, quote: char, text: string, rest: string)
    requires IsQuote(quote) && IsPlain(text) && rest != [] && rest[0] == ']'
    requires Remains(pointer, at, (if bracket then "][" else "[") + (InQuotes(quote, text) + rest))
    ensures var t := Next(pointer, Ready(at));
      t.text == Some(text) ==> t.machine == Inside(t.machine.position, quote) && t.machine.position < |pointer|
                               && pointer[t.machine.position] == ']'
  {
    var front, n := if bracket then "][" else "[", if bracket then 1 else 0;
    Rest(pointer, at, front, InQuotes(quote, text) + rest);
    QuotesAt(pointer, at + n + 1, quote, text, rest);
    Rest(pointer, at + n + 1, InQuotes(quote, text), rest);
    CharAt(pointer, at + n + |text| + 3, rest, 0);
    BracketOpens(pointer, at, front);
    hide Remains, InQuotes, IsPlain, Next, Scan;
    QuoteCuts(pointer, at, n, quote);
  }

  predicate IsFront(s: string) { s == "" || s == "[" || s == "][" }

  /** Up to the opening bracket, which the tokenizer passes over or has passed. */
  lemma BracketOpens(pointer: string, at: nat, front: string)
    requires IsFront(front) && at + |front| < |pointer| && pointer[at..at + |front|] == front
    requires !IsContinuation(pointer[at])
    ensures Next(pointer, Ready(at)) == Scan(pointer, Ready(at + |front|), at, |front|, if front == "][" then 1 else 0)
  {
    assert IsBoundary(pointer, at);
    assert Ready(at).(escaped := false) == Ready(at);
    if front == "[" {
      assert pointer[at] == pointer[at..at + 1][0] == '[';
      assert pointer[at..at] == [];
    } else if front == "][" {
      assert pointer[at] == pointer[at..at + 2][0] == ']' && pointer[at + 1] == pointer[at..at + 2][1] == '[';
      assert Next(pointer, Ready(at)) == Scan(pointer, Ready(at), at, 1, 1);
      assert pointer[at + 1..at + 1] == [];
    }
  }

  /** Past the closing bracket the start of the token is off by one, so its text is not the one in brackets. */
  lemma CutMisreads(pointer: string, at: nat, n: nat, opens: nat, text: string, rest: string)
    requires (n == 0 && opens == 0) || (n == 1 && opens == 0) || (n == 2 && opens == 1)
    requires at + n + |text| + 1 + |rest| == |pointer| && text != [] && ']' !in text
    requires pointer[at + n + |text|] == ']' && (rest != [] ==> pointer[at + n + |text| + 1] == rest[0])
    requires rest == [] || rest[0] == '.' || rest[0] == '['
    ensures Scan(pointer, Ready(at + n), at, n + |text| + 1, opens + 1).text != Some(text)
  {
    var m := Ready(at + n);
    assert m.(escaped := false) == m;
    var t := Scan(pointer, m, at, n + |text| + 1, opens + 1);
    assert t.text.Some? && |t.text.value| == |text| ==> t.text.value[|text| - 1] == ']';
  }

  /** A piece in brackets alone, wherever it stands. */
  lemma BareBracketMisread(pointer: string, at: nat, front: string, text: string, rest: string)
    requires IsPlain(text) && '.' !in text && IsFront(front) && Remains(pointer, at, front + (text + ("]" + rest)))
    requires rest == [] || rest[0] == '.' || rest[0] == '['
    ensures Next(pointer, Ready(at)).text != Some(text)
  {
    hide Remains, Next, Scan, IsFront;
    var n, opens := |front|, if front == "][" then 1 else 0;
    var m, end := Ready(at + n), at + n + |text|;
    Rest(pointer, at, front, text + ("]" + rest));
    Rest(pointer, at + n, text, "]" + rest);
    Rest(pointer, end, "]", rest);
    CharAt(pointer, end, "]" + rest, 0);
    if rest != [] { CharAt(pointer, end + 1, rest, 0); }
    StartsOnCharacter(pointer, at, front, text + ("]" + rest));
    BracketOpens(pointer, at, front);
    TextPasses(pointer, at + n, text);
    ScanPasses(pointer, m, at, n, n + |text|, opens);
    ClosingBracket(pointer, at, n, |text|, opens);
    FrontLengths(front);
    CutMisreads(pointer, at, n, opens, text, rest);
  }

  lemma StartsOnCharacter(pointer: string, at: nat, front: string, text: string)
    requires IsFront(front) && Remains(pointer, at, front + text) && text != [] && !IsContinuation(text[0])
    ensures at < |pointer| && !IsContinuation(pointer[at])
  {
    CharAt(pointer, at, front + text, 0);
  }

  lemma FrontLengths(front: string)
    requires IsFront(front)
    ensures |front| <= 2 && (|front| == 2 <==> front == "][")
  {}

  lemma TextPasses(pointer: string, at: nat, text: string)
    requires at + |text| <= |pointer| && pointer[at..at + |text|] == text && IsPlain(text) && '.' !in text
    ensures ']' !in text && forall k, m: Machine :: at <= k < at + |text| ==> Passes(m, pointer[k])
  {
    forall k | at <= k < at + |text| ensures !IsSpecial(pointer[k]) && pointer[k] != '.' {
      assert pointer[k] == text[k - at] && text[k - at] in text;
    }
  }

  lemma ClosingBracket(pointer: string, at: nat, n: nat, length: nat, offset: nat)
    requires at + n + length < |pointer| && pointer[at + n + length] == ']'
    ensures Scan(pointer, Ready(at + n), at, n + length, offset)
         == Scan(pointer, Ready(at + n), at, n + length + 1, offset + 1)
  {
    assert Ready(at + n).(escaped := false) == Ready(at + n);
  }

  // ---- Which paths are read back ------------------------------------------------------------------------

  function EscapeAll(segments: seq<string>): seq<string> {
    seq(|segments|, i requires 0 <= i < |segments| => Escape(segments[i]))
  }

  /** A piece that does not fit is misread: its token is another one, or the machine breaks, or the next token is no
      segment at all. */
  lemma MisfitIsMisread(pointer: string, at: nat, place: Place, pieces: seq<Piece>)
    requires pieces != [] && AllValid(pieces) && !Fits(place, pieces[0]) && Remains(pointer, at, Left(place, pieces))
    ensures AllTokens(pointer, Ready(at)) != Tokens(EscapeAll(Segments(pieces)), false)
  {
    hide Tail, Left, Escape, IsPlain, Remains, Next, IsSegment, IsFront, Fits, FrontAt, Piece.Core, InQuotes, EscapeAll;
    var piece, text, tail := pieces[0], Escape(pieces[0].segment), Tail(pieces[1..]);
    CoreIsPlain(piece);
    TailSplits(pieces);
    MisfitLeft(place, pieces);
    MisfitCore(place, piece);
    EscapedSplit(pieces);
    if piece.style.BareBracketed? {
      BareBracketMisread(pointer, at, FrontAt(place), text, tail);
    } else {
      QuotedBracketMisread(pointer, at, place.AfterBracketed?, piece.style.quote, text, "]" + tail);
      if Next(pointer, Ready(at)).text == Some(text) {
        NextIsNoSegment(pointer, Next(pointer, Ready(at)).machine, pieces[1..]);
      }
    }
  }

  lemma EscapedSplit(pieces: seq<Piece>)
    requires pieces != []
    ensures var all := EscapeAll(Segments(pieces));
      all != [] && all[0] == Escape(pieces[0].segment) && all[1..] == EscapeAll(Segments(pieces[1..]))
  {}

  lemma MisfitCore(place: Place, piece: Piece)
    requires !Fits(place, piece)
    ensures piece.style.BareBracketed? ==> piece.Core() == Escape(piece.segment)
    ensures !piece.style.BareBracketed? ==> piece.style.Bracketed?
    ensures piece.style.Bracketed? ==>
      && piece.Core() == InQuotes(piece.style.quote, Escape(piece.segment))
      && FrontAt(place) == if place.AfterBracketed? then "][" else "["
  {}

  function FrontAt(place: Place): (front: string)
    ensures IsFront(front)
  {
    if place.AfterBare? then "" else if place.AfterBracketed? then "][" else "["
  }

  lemma MisfitLeft(place: Place, pieces: seq<Piece>)
    requires pieces != [] && !Fits(place, pieces[0])
    ensures Left(place, pieces) == FrontAt(place) + (pieces[0].Core() + ("]" + Tail(pieces[1..])))
  {
    TailSplits(pieces);
    hide Tail, Piece.Core, IsFront;
    var text := pieces[0].Core() + ("]" + Tail(pieces[1..]));
    Joins(text);
    assert pieces[0].InBrackets();
    hide Piece.InBrackets;
    match place
    case Start =>
    case AfterBare =>
    case AfterQuoted =>
    case AfterBracketed =>
  }

  lemma Joins(text: string)
    ensures "" + text == text && "]" + ("[" + text) == "][" + text
  {}

  lemma NextIsNoSegment(pointer: string, m: Machine, pieces: seq<Piece>)
    requires m.position < |pointer| && pointer[m.position] == ']' && (m.single || m.dual) && !m.broken && !m.escaped
    requires AllValid(pieces)
    ensures AllTokens(pointer, m) != Tokens(EscapeAll(Segments(pieces)), false)
  {
    assert IsBoundary(pointer, m.position);
    assert m.(escaped := false) == m;
    assert Next(pointer, m) == Scan(pointer, m, m.position, 1, 0);
    KeepsItsStart(pointer, m, 1);
    hide Scan, Next, Escape;
    if pieces != [] {
      CoreIsPlain(pieces[0]);
      assert EscapeAll(Segments(pieces))[0] == Escape(pieces[0].segment);
    }
  }

  /** The tokens of a printed path are its segments, escaped, if and only if every piece fits: whatever is in brackets
      is in quotes and stands right after a bare segment. */
  lemma {:induction false} TokensOfPrintedIff(pointer: string, at: nat, place: Place, pieces: seq<Piece>)
    requires AllValid(pieces) && Remains(pointer, at, Left(place, pieces))
    ensures AllTokens(pointer, Ready(at)) == Tokens(EscapeAll(Segments(pieces)), false) <==> AllFit(place, pieces)
    decreases |pieces|
  {
    hide Left, Next, Piece.Valid, Escape, PlaceAfter, Remains, Fits;
    if pieces == [] {
      NothingLeft(pointer, at, place);
    } else if !Fits(place, pieces[0]) {
      MisfitIsMisread(pointer, at, place, pieces);
    } else {
      NextFits(pointer, at, place, pieces);
      TokensOfPrintedIff(pointer, Next(pointer, Ready(at)).machine.position, PlaceAfter(pieces[0]), pieces[1..]);
      var all, rest := EscapeAll(Segments(pieces)), EscapeAll(Segments(pieces[1..]));
      assert all == [Escape(pieces[0].segment)] + rest && all[1..] == rest;
    }
  }

  /** Looking up such a path reaches exactly the value its segments lead to. */
  lemma DottedFollowsPieces(v: Json, pieces: seq<Piece>, w: Json)
    requires AllValid(pieces) && AllFit(Start, pieces)
    ensures DottedSpec(v, Print(pieces)) == Some(w) <==> ReachesBy(v, Segments(pieces), w)
  {
    hide Fold, ReachesBy, AllTokens, Unescape, Escape, AllFit;
    var pointer, segments := Print(pieces), Segments(pieces);
    FoldReaches(v, segments, w);
    if pieces != [] {
      PrintIsNotEmpty(pieces);
      TokensOfPrintedIff(pointer, 0, Start, pieces);
      forall i | 0 <= i < |segments| { UnescapeInvertsEscape(segments[i]); }
      assert UnescapeAll(EscapeAll(segments)) == segments;
    } else {
      NoSegments(v);
    }
  }

  lemma NoSegments(v: Json)
    ensures Fold(v, []) == Some(v)
  {}

  lemma PrintIsNotEmpty(pieces: seq<Piece>)
    requires pieces != [] && pieces[0].Valid()
    ensures Print(pieces) != []
  {
    EscapeKeepsPlain(pieces[0].segment);
  }

  /** Segments joined by dots, those with a dot in double quotes. */
  function Joined(segments: seq<string>): seq<Piece> {
    seq(|segments|, i requires 0 <= i < |segments| =>
      Piece(if '.' in segments[i] then Quoted('"') else Bare, segments[i]))
  }

  /** Looking up segments joined by dots reaches exactly the value they lead to. */
  lemma DottedFollowsSegments(v: Json, segments: seq<string>, w: Json)
    requires forall i :: 0 <= i < |segments| ==> IsSegment(segments[i])
    ensures DottedSpec(v, Print(Joined(segments))) == Some(w) <==> ReachesBy(v, segments, w)
  {
    var pieces := Joined(segments);
    forall i | 0 <= i < |pieces| ensures pieces[i].Valid() {}
    JoinedFits(Start, pieces);
    assert Segments(pieces) == segments;
    DottedFollowsPieces(v, pieces, w);
  }

  lemma {:induction false} JoinedFits(place: Place, pieces: seq<Piece>)
    requires forall i :: 0 <= i < |pieces| ==> !pieces[i].InBrackets()
    ensures AllFit(place, pieces)
    decreases |pieces|
  {
    if pieces != [] { JoinedFits(PlaceAfter(pieces[0]), pieces[1..]); }
  }

  lemma TokensOfBareIndex()
    ensures AllTokens("a[0]", Ready(0)) == Tokens(["a", "]"], false)
  {
    var pointer := "a[0]";
    assert pointer[0..] == "a" + "[0]";
    Begin(pointer, 0);
    ScanBare(pointer, 0, 0, "a", "[0]");
    assert Next(pointer, Ready(0)) == Token(Some("a"), Ready(2));
    Begin(pointer, 2);
    ScanPasses(pointer, Ready(2), 2, 0, 1, 0);
    ClosingBracket(pointer, 2, 0, 1, 0);
    assert pointer[3..4] == "]" && IsBoundary(pointer, 3);
    assert Next(pointer, Ready(2)) == Token(Some("]"), Ready(4));
    assert Next(pointer, Ready(4)) == Token(None, Ready(4));
    hide Next;
    assert AllTokens(pointer, Ready(4)) == Tokens([], false);
    assert AllTokens(pointer, Ready(2)) == Tokens(["]"] + [], false);
    assert ["a"] + ["]"] == ["a", "]"];
  }

  /** An index in brackets alone is misread: `a[0]` finds nothing in a list under `a` that does have a first element. */
  lemma BareIndexFindsNothing(w: Json)
    ensures var v, pieces := Obj(map["a" := Arr([w])]), [Piece(Bare, "a"), Piece(BareBracketed, "0")];
      && Print(pieces) == "a[0]" && AllValid(pieces) && !AllFit(Start, pieces)
      && ReachesBy(v, Segments(pieces), w) && DottedSpec(v, "a[0]") == None
  {
    var v, pieces := Obj(map["a" := Arr([w])]), [Piece(Bare, "a"), Piece(BareBracketed, "0")];
    PrintsBareIndex(pieces);
    TokensOfBareIndex();
    IndexLeadsTo(v, w);
    assert Segments(pieces) == ["a", "0"];
    hide AllTokens, ReachesBy;
    NothingToReplace('1', '/');
    UnescapeInvertsEscape("a");
    UnescapeInvertsEscape("]");
    PlainIsItself("a");
    PlainIsItself("]");
    assert UnescapeAll(["a", "]"]) == ["a", "]"];
    FoldMisses(v, w);
  }

  lemma PlainIsItself(s: string)
    requires |s| == 1 && s[0] != '~' && s[0] != '/'
    ensures Escape(s) == s
  {
    assert s[1..] == [] && Escape([]) == [];
    assert [s[0]] + [] == s;
  }

  lemma PrintsBareIndex(pieces: seq<Piece>)
    requires pieces == [Piece(Bare, "a"), Piece(BareBracketed, "0")]
    ensures Print(pieces) == "a[0]" && AllValid(pieces) && !AllFit(Start, pieces)
  {
    PlainIsItself("a");
    PlainIsItself("0");
    hide Escape;
    assert pieces[1..] == [Piece(BareBracketed, "0")] && pieces[1..][1..] == [];
    assert Tail([]) == [];
    assert Tail(pieces[1..]) == "[0]";
  }

  lemma IndexLeadsTo(v: Json, w: Json)
    requires v == Obj(map["a" := Arr([w])])
    ensures ReachesBy(v, ["a", "0"], w)
  {
    ParseIndexIff("0", 0);
    assert ["a", "0"][1..] == ["0"] && ["0"][1..] == [];
    assert ReachesBy(w, [], w);
    assert Reaches(v, "a", Arr([w])) && Reaches(Arr([w]), "0", w);
    assert ReachesBy(Arr([w]), ["0"], w);
  }

  lemma FoldMisses(v: Json, w: Json)
    requires v == Obj(map["a" := Arr([w])])
    ensures Fold(v, ["a", "]"]) == None
  {
    assert ["a", "]"][1..] == ["]"];
    assert StepInto(v, "a") == Some(Arr([w]));
    assert ParseIndex("]").None?;
    assert StepInto(Arr([w]), "]").None?;
  }
}
