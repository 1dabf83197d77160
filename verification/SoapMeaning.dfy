/** What texts mean to the reader of a call, whoever wrote them. */
module SoapMeaning {
  import opened Common
  import opened Decimal
  import opened SoapModel

  /* Case */

  /** The same letter but for its case. */
  predicate SameLetter(a: char, b: char) {
    || a == b
    || ('A' <= a <= 'Z' && b as nat == a as nat + 32)
    || ('A' <= b <= 'Z' && a as nat == b as nat + 32)
  }

  predicate SameLetters(a: string, b: string) {
    |a| == |b| && forall i :: 0 <= i < |a| ==> SameLetter(a[i], b[i])
  }

  lemma SameIs(a: string, b: string)
    ensures Same(a, b) <==> SameLetters(a, b)
  {
    if Same(a, b) {
      forall i | 0 <= i < |a| ensures SameLetter(a[i], b[i]) { assert Lower(a)[i] == Lower(b)[i]; }
    }
    if SameLetters(a, b) {
      assert forall i :: 0 <= i < |a| ==> SameLetter(a[i], b[i]) && Lower(a)[i] == Lower(b)[i];
    }
  }

  /** The texts that are true: 1, and `true` and `yes` in any case; every other is false. */
  lemma BoolMeans(s: string)
    ensures ParseBool(s) <==> s == "1" || SameLetters(s, "true") || SameLetters(s, "yes")
  {
    SameIs(s, "true");
    SameIs(s, "false");
    SameIs(s, "yes");
  }

  /** A name is found among the parameters in any case, exactly if it is there. */
  lemma FindMeans(v: seq<string>, name: string)
    ensures Find(v, name) < |v| <==> exists i :: 0 <= i < |v| && SameLetters(v[i], name)
  {
    forall i | 0 <= i < |v| ensures Same(v[i], name) <==> SameLetters(v[i], name) { SameIs(v[i], name); }
  }

  /* Values */

  /** How many values a number of that width has. */
  function Range(t: Type): nat {
    match t
    case I8 => 0x100
    case UI8 => 0x100
    case I16 => 0x1_0000
    case UI16 => 0x1_0000
    case _ => 0x1_0000_0000
  }

  predicate Numeric(t: Type) {
    t != BOOL && t != STRING && !t.ENUM?
  }

  /** Any text of a number is read as the value of its digits under its sign, cut to the width; 64 bits
      are enough to hold what is cut. */
  lemma NumberMeans(d: Data, t: Type, s: string) returns (x: Numeral)
    requires Numeric(t)
    ensures x.WellFormed() && x.Whole() == s
    ensures DigitsValue(x.digits) < 0x8000_0000_0000_0000 ==>
      var n: int := DigitsValue(x.digits);
      Read(d, t, s) == Num((if x.sign == "-" then -n else n) % Range(t))
  {
    x := AnyText(s);
    var n: int := DigitsValue(x.digits);
    var m := if x.sign == "-" then -n else n;
    CutTwice(m, Range(t));
  }

  lemma CutTwice(n: int, range: nat)
    requires range == 0x100 || range == 0x1_0000 || range == 0x1_0000_0000
    ensures n % 0x1_0000_0000_0000_0000 % range == n % range
  {
    var q, r := n / 0x1_0000_0000_0000_0000, n % 0x1_0000_0000_0000_0000;
    if range == 0x100 {
      CutByte(n, q * 0x100_0000_0000_0000 + r / 0x100, r % 0x100);
    } else if range == 0x1_0000 {
      CutShort(n, q * 0x1_0000_0000_0000 + r / 0x1_0000, r % 0x1_0000);
    } else {
      WordOfLong(n);
    }
  }

  lemma CutByte(n: int, q: int, low: nat)
    requires low < 0x100 && n == q * 0x100 + low
    ensures n % 0x100 == low
  {
  }

  lemma CutShort(n: int, q: int, low: nat)
    requires low < 0x1_0000 && n == q * 0x1_0000 + low
    ensures n % 0x1_0000 == low
  {
  }

  /** Text is read as it is, and an enumerated value as the first place of its name, or past the last. */
  lemma OthersMean(d: Data, which: nat, s: string)
    requires which < |d.enums| && |d.enums[which]| < UINT32
    ensures Read(d, STRING, s) == Str(s)
    ensures Read(d, BOOL, s) == Num(if s == "1" || SameLetters(s, "true") || SameLetters(s, "yes") then 1 else 0)
    ensures var v := Read(d, ENUM(which), s);
      && v.Num? && v.n <= |d.enums[which]|
      && (v.n < |d.enums[which]| ==> d.enums[which][v.n] == s)
      && forall j :: 0 <= j < v.n ==> d.enums[which][j] != s
  {
    BoolMeans(s);
  }

  /** How numbers are written: their digits with none too many, and a minus sign if negative, as only
      those of 32 bits can be; truth as 1 or 0. */
  lemma NumberWritten(d: Data, t: Type, v: Value) returns (digits: string)
    requires Numeric(t) && Writable(d, t, v)
    ensures AllDigits(digits) && digits != "" && (digits[0] == '0' ==> digits == "0")
    ensures if t == I32 && v.n >= 0x8000_0000
            then Written(d, t, v) == "-" + digits && DigitsValue(digits) == 0x1_0000_0000 - v.n
            else Written(d, t, v) == digits && DigitsValue(digits) == v.n
  {
    var n := if t == I32 && v.n >= 0x8000_0000 then 0x1_0000_0000 - v.n else v.n;
    DigitsMean(n);
    digits := Digits(n);
  }

  lemma OthersWritten(d: Data, which: nat, v: Value)
    ensures v.Num? && v.n < 0x100 ==> Written(d, BOOL, v) == if v.n == 0 then "0" else "1"
    ensures v.Str? ==> Written(d, STRING, v) == v.s
    ensures Writable(d, ENUM(which), v) ==> Written(d, ENUM(which), v) == d.enums[which][v.n]
  {
  }
}
