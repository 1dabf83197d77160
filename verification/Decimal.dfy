/** Decimal numerals as the C library writes and reads them. */
module Decimal {
  import opened Common

  const ULONG_MAX: nat := 0xFFFF_FFFF_FFFF_FFFF
  const LONG_MAX: int := 0x7FFF_FFFF_FFFF_FFFF

  predicate IsDigit(c: char) { '0' <= c <= '9' }

  function Digit(d: nat): char
    requires d < 10
  {
    '0' + d as char
  }

  function Value(c: char): nat
    requires IsDigit(c)
  {
    (c - '0') as nat
  }

  /** `%u`, with no leading zeros. */
  function Digits(n: nat): string {
    if n < 10 then [Digit(n)] else Digits(n / 10) + [Digit(n % 10)]
  }

  /** `%d`. */
  function Signed(n: int): string {
    if n < 0 then "-" + Digits(-n) else Digits(n)
  }

  predicate IsSpace(c: char) {
    c == ' ' || '\t' <= c <= '\r'
  }

  function SkipSpace(s: string): string {
    if s != "" && IsSpace(s[0]) then SkipSpace(s[1..]) else s
  }

  /** The value of the digits at the front of `s`, after `sofar`. */
  function Leading(s: string, sofar: nat): nat {
    if s != "" && IsDigit(s[0]) then Leading(s[1..], sofar * 10 + Value(s[0])) else sofar
  }

  /** Whether a minus sign was read, and the magnitude. */
  function ParseNumber(s: string): (bool, nat) {
    var t := SkipSpace(s);
    if t != "" && t[0] == '-' then (true, Leading(t[1..], 0))
    else if t != "" && t[0] == '+' then (false, Leading(t[1..], 0))
    else (false, Leading(t, 0))
  }

  /** `strtoul(s, NULL, 10)` with 64-bit longs: negation wraps, overflow saturates. */
  function StrToUl(s: string): (r: nat)
    ensures r <= ULONG_MAX
  {
    var (negative, n) := ParseNumber(s);
    if n > ULONG_MAX then ULONG_MAX
    else if negative && n > 0 then ULONG_MAX + 1 - n
    else n
  }

  /** `strtol(s, NULL, 10)`, saturating at both ends. */
  function StrToL(s: string): (r: int)
    ensures -LONG_MAX - 1 <= r <= LONG_MAX
  {
    var (negative, n) := ParseNumber(s);
    if negative then if n > LONG_MAX then -LONG_MAX - 1 else -(n as int)
    else if n > LONG_MAX then LONG_MAX else n
  }

  function ParseUint32(s: string): (r: nat)
    ensures r < UINT32
  {
    StrToUl(s) % UINT32
  }

  lemma {:induction false} DigitsAreDigits(n: nat)
    ensures |Digits(n)| > 0 && forall k :: 0 <= k < |Digits(n)| ==> IsDigit(Digits(n)[k])
  {
    if n >= 10 { DigitsAreDigits(n / 10); }
  }

  lemma {:induction false} LeadingAppend(s: string, c: char, sofar: nat)
    requires IsDigit(c) && forall k :: 0 <= k < |s| ==> IsDigit(s[k])
    ensures Leading(s + [c], sofar) == Leading(s, sofar) * 10 + Value(c)
  {
    if s == "" {
      assert (s + [c])[1..] == "";
    } else {
      assert (s + [c])[1..] == s[1..] + [c];
      LeadingAppend(s[1..], c, sofar * 10 + Value(s[0]));
    }
  }

  lemma {:induction false} LeadingDigits(n: nat)
    ensures Leading(Digits(n), 0) == n
  {
    if n < 10 {
      assert Digits(n)[1..] == "";
    } else {
      DigitsAreDigits(n / 10);
      LeadingDigits(n / 10);
      LeadingAppend(Digits(n / 10), Digit(n % 10), 0);
    }
  }

  /** Reading what was written gives the number back. */
  lemma UnsignedRoundTrip(n: nat)
    requires n <= ULONG_MAX
    ensures StrToUl(Digits(n)) == n
    ensures n < UINT32 ==> ParseUint32(Digits(n)) == n
  {
    DigitsAreDigits(n);
    LeadingDigits(n);
    assert !IsSpace(Digits(n)[0]);
  }

  lemma SignedRoundTrip(n: int)
    requires -LONG_MAX - 1 <= n <= LONG_MAX
    ensures StrToL(Signed(n)) == n
  {
    var m := if n < 0 then -n else n;
    DigitsAreDigits(m);
    LeadingDigits(m);
    assert !IsSpace(Signed(n)[0]);
    assert n < 0 ==> Signed(n)[1..] == Digits(m);
  }

  /* Any text */

  predicate AllDigits(d: string) {
    forall k :: 0 <= k < |d| ==> IsDigit(d[k])
  }

  /** The number that digits write, by their places. */
  function DigitsValue(d: string): nat
    requires AllDigits(d)
  {
    if d == "" then 0 else DigitsValue(d[..|d| - 1]) * 10 + (d[|d| - 1] - '0') as nat
  }

  lemma {:induction false} LeadingStops(d: string, junk: string, sofar: nat)
    requires AllDigits(d) && (junk == "" || !('0' <= junk[0] <= '9'))
    ensures Leading(d + junk, sofar) == Leading(d, sofar)
  {
    if d == "" {
      assert d + junk == junk;
    } else {
      assert (d + junk)[1..] == d[1..] + junk;
      LeadingStops(d[1..], junk, sofar * 10 + Value(d[0]));
    }
  }

  lemma {:induction false} LeadingIsValue(d: string)
    requires AllDigits(d)
    ensures Leading(d, 0) == DigitsValue(d)
  {
    if d != "" {
      var n := |d| - 1;
      assert d == d[..n] + [d[n]];
      LeadingIsValue(d[..n]);
      LeadingAppend(d[..n], d[n], 0);
    }
  }

  predicate AllSpace(s: string) {
    forall k :: 0 <= k < |s| ==> s[k] == ' ' || 9 <= s[k] as nat <= 13
  }

  /** White space, a sign or none, digits, and what does not go on with them. */
  datatype Numeral = Numeral(space: string, sign: string, digits: string, junk: string)
  {
    ghost predicate WellFormed() {
      && AllSpace(space)
      && (sign == "-" || sign == "+" || sign == "")
      && AllDigits(digits)
      && (junk != "" ==> !('0' <= junk[0] <= '9'))
      && (sign == digits == "" && junk != "" ==>
            junk[0] != '-' && junk[0] != '+' && junk[0] != ' ' && !(9 <= junk[0] as nat <= 13))
    }

    function Whole(): string {
      space + (sign + (digits + junk))
    }
  }

  lemma {:induction false} SpaceSkipped(space: string, rest: string)
    requires AllSpace(space)
    requires rest == "" || !IsSpace(rest[0])
    ensures SkipSpace(space + rest) == rest
  {
    if space == "" {
      assert space + rest == rest;
    } else {
      assert (space + rest)[1..] == space[1..] + rest && IsSpace(space[0]);
      SpaceSkipped(space[1..], rest);
    }
  }

  lemma NumeralParsed(t: Numeral)
    requires t.WellFormed()
    ensures ParseNumber(t.Whole()) == (t.sign == "-", DigitsValue(t.digits))
  {
    var rest := t.sign + (t.digits + t.junk);
    SpaceSkipped(t.space, rest);
    LeadingStops(t.digits, t.junk, 0);
    LeadingIsValue(t.digits);
    if t.sign != "" {
      assert rest[0] == t.sign[0] && rest[1..] == t.digits + t.junk;
    } else {
      assert rest == t.digits + t.junk;
    }
  }

  function Clamp(n: int, low: int, high: int): int {
    if n < low then low else if n > high then high else n
  }

  /** Every text has those parts and is read as the number of its digits under its sign: signed, held
      within the range of 64 bits; unsigned, modulo that range unless its digits alone are past it. */
  lemma AnyText(s: string) returns (t: Numeral)
    ensures t.WellFormed() && t.Whole() == s
    ensures var n: int := DigitsValue(t.digits);
      && StrToL(s) == Clamp(if t.sign == "-" then -n else n, -0x8000_0000_0000_0000, 0x7FFF_FFFF_FFFF_FFFF)
      && StrToUl(s)
         == (if n >= 0x1_0000_0000_0000_0000 then 0xFFFF_FFFF_FFFF_FFFF
             else (if t.sign == "-" then -n else n) % 0x1_0000_0000_0000_0000)
      && (n < 0x1_0000_0000_0000_0000 ==> ParseUint32(s) == (if t.sign == "-" then -n else n) % 0x1_0000_0000)
  {
    t := TakenApart(s);
    NumeralParsed(t);
    var n: int := DigitsValue(t.digits);
    WordOfLong(if t.sign == "-" then -n else n);
  }

  lemma WordOfLong(n: int)
    ensures n % 0x1_0000_0000_0000_0000 % 0x1_0000_0000 == n % 0x1_0000_0000
  {
    var q, r := n / 0x1_0000_0000_0000_0000, n % 0x1_0000_0000_0000_0000;
    var high, low := r / 0x1_0000_0000, r % 0x1_0000_0000;
    assert n == q * 0x1_0000_0000_0000_0000 + high * 0x1_0000_0000 + low;
    Remainder(n, q * 0x1_0000_0000 + high, low);
  }

  lemma Remainder(n: int, q: int, r: nat)
    requires n == q * 0x1_0000_0000 + r && r < 0x1_0000_0000
    ensures n % 0x1_0000_0000 == r
  {
  }

  /** What is written is the number's digits with none too many. */
  lemma {:induction false} DigitsMean(n: nat)
    ensures AllDigits(Digits(n)) && DigitsValue(Digits(n)) == n
    ensures Digits(n) != "" && (Digits(n)[0] == '0' ==> Digits(n) == "0")
  {
    DigitsAreDigits(n);
    LeadingDigits(n);
    LeadingIsValue(Digits(n));
    if n >= 10 { DigitsMean(n / 10); }
  }

  function SpaceOf(s: string): nat {
    if s != "" && IsSpace(s[0]) then 1 + SpaceOf(s[1..]) else 0
  }

  lemma {:induction false} SpaceOfIs(s: string)
    ensures SpaceOf(s) <= |s| && (SpaceOf(s) < |s| ==> !IsSpace(s[SpaceOf(s)]))
    ensures AllSpace(s[..SpaceOf(s)])
  {
    if s != "" && IsSpace(s[0]) {
      SpaceOfIs(s[1..]);
      assert s[..SpaceOf(s)] == [s[0]] + s[1..][..SpaceOf(s[1..])];
    }
  }

  lemma DigitsEnd(s: string) returns (k: nat)
    ensures k <= |s| && AllDigits(s[..k]) && (k < |s| ==> !IsDigit(s[k]))
  {
    k := 0;
    while k < |s| && IsDigit(s[k])
      invariant k <= |s| && AllDigits(s[..k])
    {
      k := k + 1;
    }
  }

  lemma TakenApart(s: string) returns (t: Numeral)
    ensures t.WellFormed() && t.Whole() == s
  {
    var i := SpaceOf(s);
    SpaceOfIs(s);
    var rest := s[i..];
    var sign := if rest != "" && (rest[0] == '-' || rest[0] == '+') then rest[..1] else "";
    var number := rest[|sign|..];
    var k := DigitsEnd(number);
    t := Numeral(s[..i], sign, number[..k], number[k..]);
    Parts(s, i);
    Parts(rest, |sign|);
    Parts(number, k);
  }

  lemma Parts(s: string, i: nat)
    requires i <= |s|
    ensures s == s[..i] + s[i..]
  {
  }
}
