/** Polynomials over one bit, and their remainders modulo x^16 + x^12 + x^5 + 1. */
module Polynomial {

  /* Polynomials, by their coefficients from the highest */

  function Zeros(n: nat): (z: seq<bool>)
    ensures |z| == n
  {
    seq(n, _ => false)
  }

  function Xor(p: seq<bool>, q: seq<bool>): (r: seq<bool>)
    requires |p| == |q|
    ensures |r| == |p|
  {
    seq(|p|, i requires 0 <= i < |p| => p[i] != q[i])
  }

  /** The divisor, or nothing of it. */
  function Divisor(t: bool): (g: seq<bool>)
    ensures |g| == 17
  {
    seq(17, i => t && (i == 0 || i == 4 || i == 11 || i == 16))
  }

  function Init<T>(s: seq<T>): seq<T>
    requires s != []
  {
    s[..|s| - 1]
  }

  function Last<T>(s: seq<T>): T
    requires s != []
  {
    s[|s| - 1]
  }

  /** The divisor times `q`: for each coefficient of `q`, the product so far times x, and the divisor. */
  function Product(q: seq<bool>): (p: seq<bool>)
    ensures |p| == |q| + 16
  {
    if q == [] then Zeros(16)
    else Xor(Product(Init(q)) + [false], Zeros(|q| - 1) + Divisor(Last(q)))
  }

  /** `p` is the divisor times `q`, and `r` of lower degree over. */
  predicate IsDivision(p: seq<bool>, q: seq<bool>, r: seq<bool>) {
    |q| == |p| && |r| == 16 && Zeros(16) + p == Xor(Product(q), Zeros(|p|) + r)
  }

  ghost predicate IsRemainder(p: seq<bool>, r: seq<bool>) {
    exists q: seq<bool> :: IsDivision(p, q, r)
  }

  /* Long division, a coefficient at a time */

  /** The remainder so far times x, with the next coefficient, less the divisor if it goes. */
  function Step(r: seq<bool>, c: bool): (n: seq<bool>)
    requires |r| == 16
    ensures |n| == 16
  {
    Xor(r + [c], Divisor(r[0]))[1..]
  }

  function Run(r: seq<bool>, p: seq<bool>): (n: seq<bool>)
    requires |r| == 16
    ensures |n| == 16
  {
    if p == [] then r else Step(Run(r, Init(p)), Last(p))
  }

  function Remainder(p: seq<bool>): (r: seq<bool>)
    ensures |r| == 16
  {
    Run(Zeros(16), p)
  }

  /** The coefficients of the divisor that long division takes away. */
  function Quotient(p: seq<bool>): (q: seq<bool>)
    ensures |q| == |p|
  {
    if p == [] then [] else Quotient(Init(p)) + [Remainder(Init(p))[0]]
  }

  lemma {:induction false} Divides(p: seq<bool>)
    ensures IsDivision(p, Quotient(p), Remainder(p))
  {
    if p == [] {
      assert Zeros(16) + [] == Xor(Zeros(16), Zeros(0) + Zeros(16));
    } else {
      var n, q, r := |p| - 1, Quotient(Init(p)), Remainder(Init(p));
      Divides(Init(p));
      var g, next := Divisor(r[0]), Remainder(p);
      assert Init(Quotient(p)) == q;
      assert next == Xor(r + [Last(p)], g)[1..];
      DivisionStep(p, Product(q), r, g, next);
    }
  }

  /** One step keeps the equation between the polynomial, its quotient and its remainder. */
  lemma DivisionStep(p: seq<bool>, m: seq<bool>, r: seq<bool>, g: seq<bool>, next: seq<bool>)
    requires p != [] && |r| == 16 && |m| == |p| + 15 && g == Divisor(r[0])
    requires Zeros(16) + Init(p) == Xor(m, Zeros(|p| - 1) + r)
    requires next == Xor(r + [Last(p)], g)[1..]
    ensures Zeros(16) + p == Xor(Xor(m + [false], Zeros(|p| - 1) + g), Zeros(|p|) + next)
  {
    var n, a, b := |p|, Zeros(16) + Init(p), Zeros(16) + p;
    forall i | 0 <= i < n + 16
      ensures b[i] == Xor(Xor(m + [false], Zeros(n - 1) + g), Zeros(n) + next)[i]
    {
      if i < n + 15 {
        assert b[i] == a[i] == Xor(m, Zeros(n - 1) + r)[i];
      }
    }
  }

  /** A product's leading coefficients give its factor back. */
  lemma {:induction false} LeadingUnique(q: seq<bool>, s: seq<bool>)
    requires |q| == |s| && Product(q)[..|q|] == Product(s)[..|s|]
    ensures q == s
  {
    if q != [] {
      var n := |q| - 1;
      var a, b := Product(Init(q)), Product(Init(s));
      forall i | 0 <= i < n ensures a[i] == b[i] {
        assert Product(q)[..|q|][i] == a[i] && Product(s)[..|q|][i] == b[i];
      }
      assert a[..n] == b[..n];
      LeadingUnique(Init(q), Init(s));
      assert Product(q)[..|q|][n] == (a[n] != Last(q)) && Product(s)[..|q|][n] == (b[n] != Last(s));
      assert q == Init(q) + [Last(q)] && s == Init(s) + [Last(s)];
    }
  }

  lemma DivisionUnique(p: seq<bool>, q: seq<bool>, r: seq<bool>, s: seq<bool>, t: seq<bool>)
    requires IsDivision(p, q, r) && IsDivision(p, s, t)
    ensures q == s && r == t
  {
    var n := |p|;
    forall i | 0 <= i < n ensures Product(q)[i] == Product(s)[i] {
      assert (Zeros(16) + p)[i] == (Product(q)[i] != false);
      assert (Zeros(16) + p)[i] == (Product(s)[i] != false);
    }
    assert Product(q)[..n] == Product(s)[..n];
    LeadingUnique(q, s);
    forall i | 0 <= i < 16 ensures r[i] == t[i] {
      assert (Zeros(16) + p)[n + i] == (Product(q)[n + i] != r[i]);
      assert (Zeros(16) + p)[n + i] == (Product(s)[n + i] != t[i]);
    }
  }

  /** Long division finds the remainder, and there is only one. */
  lemma RemainderIsTheOne(p: seq<bool>, r: seq<bool>)
    ensures IsRemainder(p, r) <==> r == Remainder(p)
  {
    Divides(p);
    if IsRemainder(p, r) {
      var q :| IsDivision(p, q, r);
      DivisionUnique(p, q, r, Quotient(p), Remainder(p));
    }
  }

  /* Runs of steps */

  lemma {:induction false} RunOn(r: seq<bool>, p: seq<bool>, q: seq<bool>)
    requires |r| == 16
    ensures Run(r, p + q) == Run(Run(r, p), q)
  {
    if q == [] {
      assert p + q == p;
    } else {
      assert Init(p + q) == p + Init(q);
      RunOn(r, p, Init(q));
    }
  }

  lemma StepLinear(r: seq<bool>, a: bool, s: seq<bool>, b: bool)
    requires |r| == |s| == 16
    ensures Step(Xor(r, s), a != b) == Xor(Step(r, a), Step(s, b))
  {
  }

  lemma {:induction false} RunLinear(r: seq<bool>, p: seq<bool>, s: seq<bool>, q: seq<bool>)
    requires |r| == |s| == 16 && |p| == |q|
    ensures Run(Xor(r, s), Xor(p, q)) == Xor(Run(r, p), Run(s, q))
  {
    if p != [] {
      RunLinear(r, Init(p), s, Init(q));
      StepLinear(Run(r, Init(p)), Last(p), Run(s, Init(q)), Last(q));
      assert Init(Xor(p, q)) == Xor(Init(p), Init(q));
    } else {
      assert Xor(p, q) == [];
    }
  }

  /** Nothing is taken away until the register is full. */
  lemma {:induction false} RunFilling(low: seq<bool>, p: seq<bool>)
    requires |low| + |p| <= 16
    ensures Run(Zeros(16 - |low|) + low, p) == Zeros(16 - |low| - |p|) + low + p
  {
    if p == [] {
      assert low + p == low;
      assert Zeros(16 - |low|) + low == Zeros(16 - |low| - |p|) + low + p;
    } else {
      RunFilling(low, Init(p));
      var r := Zeros(16 - |low| - |Init(p)|) + low + Init(p);
      assert Step(r, Last(p)) == Zeros(16 - |low| - |p|) + low + p;
    }
  }

  /** The remainder of a sum is the sum of the remainders. */
  lemma RemainderLinear(p: seq<bool>, q: seq<bool>)
    requires |p| == |q|
    ensures Remainder(Xor(p, q)) == Xor(Remainder(p), Remainder(q))
  {
    RunLinear(Zeros(16), p, Zeros(16), q);
    assert Xor(Zeros(16), Zeros(16)) == Zeros(16);
  }

  lemma StepZero(s: seq<bool>)
    requires |s| == 16
    ensures Step(s, false) == Zeros(16) <==> s == Zeros(16)
  {
    assert Step(s, false)[15] == s[0];
    if !s[0] {
      forall i | 0 < i < 16 ensures Step(s, false)[i - 1] == s[i] { }
      if s == Zeros(16) {
        assert Step(s, false) == Zeros(16);
      } else {
        var i :| 0 < i < 16 && s[i];
        assert Step(s, false)[i - 1];
      }
    }
  }

  /** Steps on nothing lose nothing. */
  lemma {:induction false} RunZeros(r: seq<bool>, n: nat)
    requires |r| == 16
    ensures Run(r, Zeros(n)) == Zeros(16) <==> r == Zeros(16)
  {
    if n > 0 {
      assert Init(Zeros(n)) == Zeros(n - 1);
      var s := Run(r, Zeros(n - 1));
      RunZeros(r, n - 1);
      StepZero(s);
    }
  }

  /** A burst of at most sixteen coefficients, anywhere, leaves a remainder. */
  lemma BurstRemains(before: nat, w: seq<bool>, after: nat)
    requires |w| <= 16 && true in w
    ensures Remainder(Zeros(before) + w + Zeros(after)) != Zeros(16)
  {
    var z := Zeros(16);
    RunOn(z, Zeros(before) + w, Zeros(after));
    RunOn(z, Zeros(before), w);
    RunZeros(z, before);
    RunFilling([], w);
    assert Zeros(16) + [] == Zeros(16);
    var r := Zeros(16 - |w|) + [] + w;
    var i :| 0 <= i < |w| && w[i];
    assert r[16 - |w| + i];
    RunZeros(r, after);
  }

  /** Eight steps take the top byte away, and the rest only moves up. */
  lemma RunByte(r: seq<bool>, b: seq<bool>)
    requires |r| == 16 && |b| == 8
    ensures Run(r, b) == Xor(Run(r[..8] + Zeros(8), Zeros(8)), r[8..] + b)
  {
    var high, low := r[..8] + Zeros(8), Zeros(8) + r[8..];
    assert r == Xor(high, low);
    assert b == Xor(Zeros(8), b);
    RunLinear(high, Zeros(8), low, b);
    RunFilling(r[8..], b);
    assert Zeros(0) + r[8..] + b == r[8..] + b;
  }

  /** Sixteen zeros after eight coefficients, as a sum. */
  lemma EightAndZeros(r: seq<bool>, b: seq<bool>)
    requires |r| == 16 && |b| == 8
    ensures Run(Run(r, b), Zeros(16)) == Xor(Run(Run(r, Zeros(16)), Zeros(8)), Run(b + Zeros(8), Zeros(8)))
  {
    var z := Zeros(8);
    RunOn(r, b, Zeros(16));
    assert Xor(r, Zeros(16)) == r && Xor(Zeros(24), b + Zeros(16)) == b + Zeros(16);
    RunLinear(r, Zeros(24), Zeros(16), b + Zeros(16));
    ZerosEntered(r);
    EightEntered(b);
  }

  lemma ZerosEntered(r: seq<bool>)
    requires |r| == 16
    ensures Run(r, Zeros(24)) == Run(Run(r, Zeros(16)), Zeros(8))
  {
    assert Zeros(24) == Zeros(16) + Zeros(8);
    RunOn(r, Zeros(16), Zeros(8));
  }

  /** The first sixteen coefficients fill the register. */
  lemma SixteenEntered(w: seq<bool>)
    requires |w| == 16
    ensures Run(Zeros(16), w) == w
  {
    RunFilling([], w);
    assert Zeros(16) + [] == Zeros(16) && Zeros(0) + [] + w == w;
  }

  lemma EightEntered(b: seq<bool>)
    requires |b| == 8
    ensures Run(Zeros(16), b + Zeros(16)) == Run(b + Zeros(8), Zeros(8))
  {
    var w := b + Zeros(8);
    assert b + Zeros(16) == w + Zeros(8);
    RunOn(Zeros(16), w, Zeros(8));
    SixteenEntered(w);
  }

  lemma SwapSums(p: seq<bool>, low: seq<bool>, q: seq<bool>)
    requires |p| == |low| == |q|
    ensures Xor(Xor(p, low), q) == Xor(Xor(p, q), low)
  {
  }

  /** The register's top byte and the new one go through together. */
  lemma RunByteAndZeros(r: seq<bool>, b: seq<bool>)
    requires |r| == 16 && |b| == 8
    ensures var x := Run(r, Zeros(16));
      Run(Run(r, b), Zeros(16)) == Xor(Run(Xor(x[..8], b) + Zeros(8), Zeros(8)), x[8..] + Zeros(8))
  {
    var x, z := Run(r, Zeros(16)), Zeros(8);
    EightAndZeros(r, b);
    RunByte(x, z);
    RunLinear(x[..8] + z, z, b + z, z);
    assert Xor(z, z) == z && Xor(x[..8] + z, b + z) == Xor(x[..8], b) + z;
    SwapSums(Run(x[..8] + z, z), x[8..] + z, Run(b + z, z));
  }
}
