/** Human-readable durations: printing seconds as hours, minutes and seconds,
    and parsing them back within 64 bits. */
module Duration {
  import opened Results
  import opened Text

  const U64_MAX: nat := 0xFFFF_FFFF_FFFF_FFFF

  function Saturate(n: nat): nat {
    if n <= U64_MAX then n else U64_MAX
  }

  /** An unsigned 64-bit number as the standard library reads it: a sign `+` is allowed. */
  function ParseU64(s: string): Option<nat> {
    var digits := if "+" <= s then s[1..] else s;
    if digits != [] && AllDigits(digits) && Value(digits) <= U64_MAX then Some(Value(digits)) else None
  }

  // ---- The unit notation -----------------------------------------------------------------

  datatype Component = Component(digits: string, unit: char)
  {
    function Text(): string {
      digits + [unit]
    }

    /** A number within 64 bits, a known unit, and a product within 64 bits. */
    predicate Valid() {
      && digits != [] && AllDigits(digits) && Value(digits) <= U64_MAX
      && SecondsPer(unit).Some? && Value(digits) * SecondsPer(unit).value <= U64_MAX
    }

    function Seconds(): nat
      requires Valid()
    {
      Value(digits) * SecondsPer(unit).value
    }
  }

  function SecondsPer(unit: char): Option<nat> {
    if unit == 'h' then Some(3600) else if unit == 'm' then Some(60) else if unit == 's' then Some(1) else None
  }

  ghost function TextOf(cs: seq<Component>): string {
    if cs == [] then [] else cs[0].Text() + TextOf(cs[1..])
  }

  ghost predicate AllValid(cs: seq<Component>) {
    forall i :: 0 <= i < |cs| ==> cs[i].Valid()
  }

  ghost function Total(cs: seq<Component>): nat
    requires AllValid(cs)
  {
    if cs == [] then 0 else cs[0].Seconds() + Total(cs[1..])
  }

  /** Reading components off the front; `None` when the text is not made of valid ones. */
  ghost function Units(s: string): Option<nat> {
    if s == [] then Some(0)
    else
      var k := Leading(s, IsDigit);
      if k == |s| || !Component(s[..k], s[k]).Valid() then None
      else
        var rest := Units(s[k + 1..]);
        if rest.Some? then Some(Component(s[..k], s[k]).Seconds() + rest.value) else None
  }

  lemma LeadingDigits(digits: string, unit: char, rest: string)
    requires AllDigits(digits) && !IsDigit(unit)
    ensures Leading(digits + [unit] + rest, IsDigit) == |digits|
  {
    var s := digits + [unit] + rest;
    assert s[|digits|] == unit && forall i :: 0 <= i < |digits| ==> s[i] == digits[i];
  }

  lemma {:induction false} UnitsOfText(cs: seq<Component>)
    requires AllValid(cs)
    ensures Units(TextOf(cs)) == Some(Total(cs))
    decreases |cs|
  {
    hide Component.Valid, Component.Seconds, Value, Units;
    if cs == [] {
      UnitsAtEnd([]);
    } else {
      var c, rest := cs[0], TextOf(cs[1..]);
      assert c.Valid();
      UnitsOfText(cs[1..]);
      ValidIsNumberAndUnit(c);
      UnitsStep(c.digits, c.unit, rest);
      assert c == Component(c.digits, c.unit);
    }
  }

  lemma {:induction false} TextOfUnits(s: string) returns (cs: seq<Component>)
    requires Units(s).Some?
    ensures AllValid(cs) && TextOf(cs) == s && Total(cs) == Units(s).value
    decreases |s|
  {
    hide Component.Valid, Component.Seconds, Value, Units;
    UnitsAtEnd([]);
    if s == [] {
      cs := [];
    } else {
      var k := UnitAfterDigits(s);
      var c := Component(s[..k], s[k]);
      UnitsUnfold(s, k);
      var rest := TextOfUnits(s[k + 1..]);
      cs := [c] + rest;
      assert cs[1..] == rest && AllValid(cs);
      assert s == s[..k] + [s[k]] + s[k + 1..];
    }
  }

  // ---- Parsing ------------------------------------------------------------------------------

  datatype DurationError = Empty | Zero | NoNumber(at: char) | BadNumber | Overflow | UnknownUnit(unit: char) | NoUnit

  /** What a string stands for: a plain number of seconds, or the saturated sum of its components. */
  ghost function Meaning(s: string): Option<nat> {
    var t := Trim(s, IsWhitespace);
    if t == [] then None
    else if ParseU64(t).Some? then
      if ParseU64(t).value == 0 then None else ParseU64(t)
    else if Units(t).None? || Units(t).value == 0 then None
    else Some(Saturate(Units(t).value))
  }

  method ParseDuration(input: string) returns (r: Result<nat, DurationError>)
    ensures r.Ok? <==> Meaning(input).Some?
    ensures r.Ok? ==> r.value == Meaning(input).value
  {
    hide Value;
    var s := Trim(input, IsWhitespace);
    if s == [] {
      return Err(Empty);
    }
    var plain := ParseU64(s);
    if plain.Some? {
      return if plain.value == 0 then Err(Zero) else Ok(plain.value);
    }
    r := ParseUnits(s);
  }

  /** `total` is the saturated sum of what was read; `rest` is still to be read. */
  ghost predicate ReadSoFar(s: string, sum: nat, total: nat, rest: string) {
    && total == Saturate(sum)
    && Units(s) == if Units(rest).Some? then Some(sum + Units(rest).value) else None
  }

  /** What is wrong with a component, the number before the unit and the unit before the product. */
  ghost function FirstError(digits: string, unit: char): DurationError
    requires AllDigits(digits)
  {
    if digits == [] then NoNumber(unit)
    else if Value(digits) > U64_MAX then BadNumber
    else if SecondsPer(unit).None? then UnknownUnit(unit)
    else Overflow
  }

  method ReadComponent(digits: string, unit: char) returns (r: Result<nat, DurationError>)
    requires AllDigits(digits)
    ensures r.Ok? <==> Component(digits, unit).Valid()
    ensures r.Ok? ==> r.value == Component(digits, unit).Seconds()
    ensures r.Err? ==> r.error == FirstError(digits, unit)
  {
    hide Value;
    NoSign(digits);
    if digits == [] {
      return Err(NoNumber(unit));
    }
    var n := ParseU64(digits);
    if n.None? {
      return Err(BadNumber);
    }
    var per := SecondsPer(unit);
    if per.None? {
      return Err(UnknownUnit(unit));
    }
    if n.value * per.value > U64_MAX {
      return Err(Overflow);
    }
    r := Ok(n.value * per.value);
  }

  method ParseUnits(s: string) returns (r: Result<nat, DurationError>)
    requires s != []
    ensures r.Ok? <==> Units(s).Some? && Units(s).value > 0
    ensures r.Ok? ==> r.value == Saturate(Units(s).value)
  {
    hide Units, Value, Component.Valid, Component.Seconds;
    var total: nat, current, hasAnyUnit := 0, "", false;
    ghost var sum: nat, start := 0, 0;
    assert s[0..] == s;
    for i := 0 to |s|
      invariant 0 <= start <= i && current == s[start..i] && AllDigits(current)
      invariant ReadSoFar(s, sum, total, s[start..])
      invariant hasAnyUnit <==> start > 0
    {
      if IsDigit(s[i]) {
        current := current + [s[i]];
      } else {
        ghost var rest := s[start..];
        LeadingDigits(current, s[i], s[i + 1..]);
        assert rest == current + [s[i]] + s[i + 1..];
        UnitsStep(current, s[i], s[i + 1..]);
        var component := ReadComponent(current, s[i]);
        if component.Err? {
          return Err(component.error);
        }
        total := Saturate(total + component.value);
        sum := sum + component.value;
        current, hasAnyUnit := [], true;
        start := i + 1;
      }
    }
    assert s[start..] == current;
    UnitsAtEnd(current);
    if current != [] {
      return Err(NoUnit);
    }
    if !hasAnyUnit {
      return Err(NoUnit);
    }
    r := if total == 0 then Err(Zero) else Ok(total);
  }

  lemma NoSign(digits: string)
    requires AllDigits(digits)
    ensures ParseU64(digits) == if digits != [] && Value(digits) <= U64_MAX then Some(Value(digits)) else None
  {
    hide Value;
    assert digits != [] ==> IsDigit(digits[0]);
  }

  lemma ValidIsNumberAndUnit(c: Component)
    requires c.Valid()
    ensures AllDigits(c.digits) && !IsDigit(c.unit)
  {}

  lemma UnitAfterDigits(s: string) returns (k: nat)
    requires s != [] && Units(s).Some?
    ensures k < |s| && k == Leading(s, IsDigit)
  {
    hide Component.Valid, Component.Seconds, Value;
    k := Leading(s, IsDigit);
  }

  lemma UnitsUnfold(s: string, k: nat)
    requires k < |s| && k == Leading(s, IsDigit)
    ensures var c := Component(s[..k], s[k]);
      Units(s) == if !c.Valid() || Units(s[k + 1..]).None? then None else Some(c.Seconds() + Units(s[k + 1..]).value)
  {
    hide Component.Valid, Component.Seconds, Value;
  }

  lemma UnitsStep(digits: string, unit: char, rest: string)
    requires AllDigits(digits) && !IsDigit(unit)
    ensures var c := Component(digits, unit);
      Units(digits + [unit] + rest) ==
        if !c.Valid() || Units(rest).None? then None else Some(c.Seconds() + Units(rest).value)
  {
    hide Component.Valid, Component.Seconds, Value, Units, Leading;
    LeadingDigits(digits, unit, rest);
    var s := digits + [unit] + rest;
    UnitsUnfold(s, |digits|);
    assert s[..|digits|] == digits && s[|digits|] == unit && s[|digits| + 1..] == rest;
  }

  lemma UnitsAtEnd(digits: string)
    requires AllDigits(digits)
    ensures Units(digits) == if digits == [] then Some(0) else None
  {
    var k := Leading(digits, IsDigit);
  }

  // ---- Printing ------------------------------------------------------------------------------

  function Display(secs: nat): string {
    if secs == 0 then "0s"
    else
      var h, m, s := secs / 3600, (secs % 3600) / 60, secs % 60;
      (if h > 0 then Decimal(h) + "h" else "")
      + (if m > 0 then Decimal(m) + "m" else "")
      + (if s > 0 || (h == 0 && m == 0) then Decimal(s) + "s" else "")
  }

  ghost function ComponentsOf(secs: nat): seq<Component> {
    var h, m, s := secs / 3600, (secs % 3600) / 60, secs % 60;
    (if h > 0 then [Component(Decimal(h), 'h')] else [])
    + (if m > 0 then [Component(Decimal(m), 'm')] else [])
    + (if s > 0 || (h == 0 && m == 0) then [Component(Decimal(s), 's')] else [])
  }

  lemma {:induction false} TextConcat(a: seq<Component>, b: seq<Component>)
    ensures TextOf(a + b) == TextOf(a) + TextOf(b)
    ensures AllValid(a) && AllValid(b) ==> AllValid(a + b) && Total(a + b) == Total(a) + Total(b)
    decreases |a|
  {
    if a == [] {
      assert a + b == b;
    } else {
      assert (a + b)[1..] == a[1..] + b;
      TextConcat(a[1..], b);
      assert a[0].Text() + (TextOf(a[1..]) + TextOf(b)) == TextOf(a) + TextOf(b);
      assert AllValid(a) ==> AllValid(a[1..]);
    }
  }

  lemma OneComponent(n: nat, unit: char, on: bool)
    requires SecondsPer(unit).Some? && n * SecondsPer(unit).value <= U64_MAX && n <= U64_MAX
    ensures var cs := if on then [Component(Decimal(n), unit)] else [];
      && AllValid(cs) && TextOf(cs) == (if on then Decimal(n) + [unit] else "")
      && Total(cs) == if on then n * SecondsPer(unit).value else 0
  {
    DecimalIsANumeral(n);
    if on {
      var cs := [Component(Decimal(n), unit)];
      assert cs[1..] == [];
      assert cs[0].Text() + [] == cs[0].Text();
    }
  }

  /** The printed form is made of valid components that add up to the number. */
  lemma DisplayIsComponents(secs: nat)
    requires 0 < secs <= U64_MAX
    ensures AllValid(ComponentsOf(secs)) && TextOf(ComponentsOf(secs)) == Display(secs) &&
      Total(ComponentsOf(secs)) == secs
  {
    hide Decimal, Value, Component.Valid, Component.Seconds, TextOf, Total;
    var h, m, s := secs / 3600, (secs % 3600) / 60, secs % 60;
    var hs := if h > 0 then [Component(Decimal(h), 'h')] else [];
    var ms := if m > 0 then [Component(Decimal(m), 'm')] else [];
    var ss := if s > 0 || (h == 0 && m == 0) then [Component(Decimal(s), 's')] else [];
    OneComponent(h, 'h', h > 0);
    OneComponent(m, 'm', m > 0);
    OneComponent(s, 's', s > 0 || (h == 0 && m == 0));
    TextConcat(hs, ms);
    TextConcat(hs + ms, ss);
  }

  lemma {:induction false} TextEnds(cs: seq<Component>)
    requires cs != [] && AllValid(cs)
    ensures TextOf(cs) != [] && IsDigit(TextOf(cs)[0]) && SecondsPer(TextOf(cs)[|TextOf(cs)| - 1]).Some?
    decreases |cs|
  {
    hide Value;
    if |cs| > 1 { TextEnds(cs[1..]); }
  }

  lemma NothingToTrim(s: string)
    requires s != [] && !IsWhitespace(s[0]) && !IsWhitespace(s[|s| - 1])
    ensures Trim(s, IsWhitespace) == s
  {
    assert Leading(s, IsWhitespace) == 0;
    assert s[0..] == s;
  }

  /** Every duration of at least one second prints to text that parses back to it, without overflow on the way. */
  lemma DisplayParsesBack(secs: nat)
    requires 0 < secs <= U64_MAX
    ensures Meaning(Display(secs)) == Some(secs)
  {
    DisplayIsComponents(secs);
    var cs, text := ComponentsOf(secs), Display(secs);
    UnitsOfText(cs);
    assert cs != [];
    hide *;
    TextEnds(cs);
    EndsAreNotBlank(text);
    NothingToTrim(text);
    LastIsAUnit(text);
    OnlyUnits(text);
  }

  lemma EndsAreNotBlank(text: string)
    requires text != [] && IsDigit(text[0]) && SecondsPer(text[|text| - 1]).Some?
    ensures !IsWhitespace(text[0]) && !IsWhitespace(text[|text| - 1])
  {}

  lemma OnlyUnits(text: string)
    requires text != [] && Trim(text, IsWhitespace) == text && ParseU64(text).None?
    requires Units(text).Some? && 0 < Units(text).value <= U64_MAX
    ensures Meaning(text) == Units(text)
  {
    hide Units, Trim, ParseU64;
  }

  lemma LastIsAUnit(text: string)
    requires text != [] && SecondsPer(text[|text| - 1]).Some?
    ensures ParseU64(text).None?
  {
    hide Value;
    var digits := if "+" <= text then text[1..] else text;
    assert digits != [] ==> digits[|digits| - 1] == text[|text| - 1];
  }

  /** A string in the unit notation is accepted exactly when it is a list of valid components that is not all zeros, and
      then it means their sum, saturated at the 64-bit maximum. */
  lemma UnitNotationMeansItsSum(input: string, cs: seq<Component>)
    requires cs != [] && AllValid(cs) && Trim(input, IsWhitespace) == TextOf(cs)
    ensures Meaning(input) == if Total(cs) == 0 then None else Some(Saturate(Total(cs)))
  {
    UnitsOfText(cs);
    TextEnds(cs);
    LastIsAUnit(TextOf(cs));
  }

  /** Everything accepted is a plain number or such a list. */
  lemma AcceptedIsPlainOrUnits(input: string) returns (cs: seq<Component>)
    requires Meaning(input).Some?
    ensures var t := Trim(input, IsWhitespace);
      ParseU64(t) == Meaning(input) ||
      (cs != [] && AllValid(cs) && TextOf(cs) == t && Meaning(input) == Some(Saturate(Total(cs))))
  {
    var t := Trim(input, IsWhitespace);
    cs := [];
    if ParseU64(t).None? {
      cs := TextOfUnits(t);
    }
  }
}
