/** Strings: searching, trimming, decimal numerals. */
module Text {
  predicate EndsWith(s: string, t: string) {
    |t| <= |s| && s[|s| - |t|..] == t
  }

  predicate OccursAt(s: string, t: string, i: nat) {
    i + |t| <= |s| && s[i..i + |t|] == t
  }

  predicate Contains(s: string, t: string) {
    exists i | 0 <= i <= |s| :: OccursAt(s, t, i)
  }

  /** Leading characters taken by `p`. */
  function Leading(s: string, p: char -> bool): (n: nat)
    ensures n <= |s| && (forall i :: 0 <= i < n ==> p(s[i])) && (n < |s| ==> !p(s[n]))
  {
    if s == [] || !p(s[0]) then 0 else 1 + Leading(s[1..], p)
  }

  /** What is left once the trailing characters taken by `p` are dropped. */
  function TrimEnd(s: string, p: char -> bool): (r: string)
    ensures r <= s && (r != [] ==> !p(r[|r| - 1]))
    ensures forall i :: |r| <= i < |s| ==> p(s[i])
  {
    if s == [] || !p(s[|s| - 1]) then s else TrimEnd(s[..|s| - 1], p)
  }

  function Trim(s: string, p: char -> bool): string {
    TrimEnd(s[Leading(s, p)..], p)
  }

  lemma TrimIsASlice(s: string, p: char -> bool)
    ensures var lead, t := Leading(s, p), Trim(s, p); lead + |t| <= |s| && t == s[lead..lead + |t|]
  {}

  lemma {:induction false} TrimEndOf(core: string, trail: string, p: char -> bool)
    requires core != "" && !p(core[|core| - 1]) && forall i :: 0 <= i < |trail| ==> p(trail[i])
    ensures TrimEnd(core + trail, p) == core
    decreases |trail|
  {
    if trail == [] {
      assert core + trail == core;
    } else {
      assert (core + trail)[..|core + trail| - 1] == core + trail[..|trail| - 1];
      TrimEndOf(core, trail[..|trail| - 1], p);
    }
  }

  lemma {:induction false} LeadingOf(lead: string, rest: string, p: char -> bool)
    requires rest != "" && !p(rest[0]) && forall i :: 0 <= i < |lead| ==> p(lead[i])
    ensures Leading(lead + rest, p) == |lead|
    decreases |lead|
  {
    if lead == [] {
      assert lead + rest == rest;
    } else {
      assert (lead + rest)[1..] == lead[1..] + rest;
      LeadingOf(lead[1..], rest, p);
    }
  }

  lemma TrimBetween(lead: string, core: string, trail: string, p: char -> bool)
    requires forall i :: 0 <= i < |lead| ==> p(lead[i])
    requires forall i :: 0 <= i < |trail| ==> p(trail[i])
    requires core != "" && !p(core[0]) && !p(core[|core| - 1])
    ensures Leading(lead + core + trail, p) == |lead| && Trim(lead + core + trail, p) == core
  {
    hide Leading, TrimEnd;
    assert lead + core + trail == lead + (core + trail);
    LeadingOf(lead, core + trail, p);
    assert (lead + core + trail)[|lead|..] == core + trail;
    TrimEndOf(core, trail, p);
  }

  lemma TrimLeaves(s: string, p: char -> bool) returns (lead: string, trail: string)
    ensures (forall i :: 0 <= i < |lead| ==> p(lead[i])) && (forall i :: 0 <= i < |trail| ==> p(trail[i]))
    ensures s == lead + Trim(s, p) + trail
  {
    var n := Leading(s, p);
    hide Leading, TrimEnd;
    lead, trail := s[..n], s[n + |Trim(s, p)|..];
    forall i | 0 <= i < |trail| ensures p(trail[i]) { assert trail[i] == s[n..][|Trim(s, p)| + i]; }
  }

  /** The Unicode White_Space property. */
  predicate IsWhitespace(c: char) {
    var n := c as int;
    9 <= n <= 13 || n == 0x20 || n == 0x85 || n == 0xA0 || n == 0x1680 || 0x2000 <= n <= 0x200A
    || n == 0x2028 || n == 0x2029 || n == 0x202F || n == 0x205F || n == 0x3000
  }

  lemma WhitespaceIs(c: char)
    ensures IsWhitespace(c) <==> c as int in {0x9, 0xA, 0xB, 0xC, 0xD, 0x20, 0x85, 0xA0, 0x1680, 0x2000, 0x2001, 0x2002,
      0x2003, 0x2004, 0x2005, 0x2006, 0x2007, 0x2008, 0x2009, 0x200A, 0x2028, 0x2029, 0x202F, 0x205F, 0x3000}
    ensures IsAsciiWhitespace(c) <==> c as int in {0x9, 0xA, 0xC, 0xD, 0x20}
  {}

  predicate IsAsciiWhitespace(c: char) {
    c == ' ' || c == '\t' || c == '\n' || c as int == 12 || c == '\r'
  }

  function Join(parts: seq<string>, separator: string): string {
    if parts == [] then [] else if |parts| == 1 then parts[0] else parts[0] + separator + Join(parts[1..], separator)
  }

  /** The parts in order, the separator between each two. */
  lemma {:induction false} JoinInOrder(a: seq<string>, b: seq<string>, separator: string)
    requires a != [] && b != []
    ensures Join(a + b, separator) == Join(a, separator) + separator + Join(b, separator)
    decreases |a|
  {
    if |a| == 1 {
      assert (a + b)[1..] == b;
    } else {
      assert (a + b)[1..] == a[1..] + b;
      JoinInOrder(a[1..], b, separator);
      var rest, last := Join(a[1..], separator), Join(b, separator);
      assert a[0] + separator + (rest + separator + last) == a[0] + separator + rest + separator + last;
    }
  }

  // ---- Decimal numerals ---------------------------------------------------------------

  predicate IsDigit(c: char) {
    '0' <= c <= '9'
  }

  predicate AllDigits(s: string) {
    forall i :: 0 <= i < |s| ==> IsDigit(s[i])
  }

  function DigitOf(n: nat): (c: char)
    requires n < 10
    ensures IsDigit(c) && c as int == '0' as int + n
  {
    '0' + n as char
  }

  /** The number a numeral stands for. */
  function Value(s: string): nat
    requires AllDigits(s)
  {
    if s == [] then 0 else 10 * Value(s[..|s| - 1]) + (s[|s| - 1] as int - '0' as int)
  }

  function Decimal(n: nat): string {
    if n < 10 then [DigitOf(n)] else Decimal(n / 10) + [DigitOf(n % 10)]
  }

  lemma {:induction false} DecimalIsANumeral(n: nat)
    ensures AllDigits(Decimal(n)) && Decimal(n) != [] && Value(Decimal(n)) == n
    ensures n > 0 ==> Decimal(n)[0] != '0'
  {
    if n >= 10 {
      DecimalIsANumeral(n / 10);
      assert Decimal(n)[..|Decimal(n)| - 1] == Decimal(n / 10);
    } else {
      assert Decimal(n)[..0] == [];
    }
  }

  /** A numeral without a leading zero is the decimal form of its value. */
  lemma {:induction false} NumeralIsDecimal(s: string)
    requires AllDigits(s) && s != [] && (s[0] == '0' ==> |s| == 1)
    ensures Decimal(Value(s)) == s
    ensures |s| > 1 ==> Value(s) >= 10
    decreases |s|
  {
    var init, last := s[..|s| - 1], s[|s| - 1];
    assert s == init + [last];
    if init != [] {
      if |init| > 1 { NumeralIsDecimal(init); } else { assert init[..0] == []; }
      assert Value(init) >= 1;
      NumeralIsDecimal(init);
      assert Value(s) / 10 == Value(init);
    }
  }
}
