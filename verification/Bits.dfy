/** Bitwise or on natural numbers, and where a shifted operand puts its bits. */
module Bits {

  function BitOr(a: nat, b: nat): (r: nat)
    decreases a + b
  {
    if a + b == 0 then 0 else 2 * BitOr(a / 2, b / 2) + (if a % 2 == 1 || b % 2 == 1 then 1 else 0)
  }

  function ShiftLeft(a: nat, k: nat): nat {
    if k == 0 then a else 2 * ShiftLeft(a, k - 1)
  }

  function ShiftRight(a: nat, k: nat): nat {
    if k == 0 then a else ShiftRight(a / 2, k - 1)
  }

  /** The last `k` bits. */
  function Low(a: nat, k: nat): nat {
    if k == 0 then 0 else 2 * Low(a / 2, k - 1) + a % 2
  }

  lemma {:induction false} OrZero(a: nat)
    ensures BitOr(a, 0) == a && BitOr(0, a) == a
  {
    if a > 0 { OrZero(a / 2); }
  }

  /** No bit of either operand is lost. */
  lemma {:induction false} OrAtLeast(a: nat, b: nat)
    ensures BitOr(a, b) >= a && BitOr(a, b) >= b
    decreases a + b
  {
    if a + b > 0 { OrAtLeast(a / 2, b / 2); }
  }

  lemma {:induction false} OrFits(a: nat, b: nat, k: nat)
    requires a < ShiftLeft(1, k) && b < ShiftLeft(1, k)
    ensures BitOr(a, b) < ShiftLeft(1, k)
  {
    if k > 0 { OrFits(a / 2, b / 2, k - 1); }
  }

  lemma {:induction false} Split(a: nat, k: nat)
    ensures a == Low(a, k) + ShiftLeft(ShiftRight(a, k), k)
    ensures Low(a, k) < ShiftLeft(1, k)
  {
    if k > 0 { Split(a / 2, k - 1); }
  }

  /** An operand shifted left leaves the low bits of the other alone, and meets only its high bits. */
  lemma {:induction false} OrShifted(a: nat, b: nat, k: nat)
    ensures BitOr(a, ShiftLeft(b, k)) == Low(a, k) + ShiftLeft(BitOr(ShiftRight(a, k), b), k)
  {
    if k > 0 {
      OrShifted(a / 2, b, k - 1);
      assert ShiftLeft(b, k) / 2 == ShiftLeft(b, k - 1);
    }
  }

  lemma {:induction false} ShiftIsProduct(a: nat, k: nat)
    ensures ShiftLeft(a, k) == a * ShiftLeft(1, k)
  {
    if k > 0 {
      ShiftIsProduct(a, k - 1);
      DoubleProduct(a, ShiftLeft(1, k - 1));
    }
  }

  lemma DoubleProduct(a: nat, b: nat)
    ensures 2 * (a * b) == a * (2 * b)
  {
  }

  lemma {:induction false} ShiftAdds(a: nat, j: nat, k: nat)
    ensures ShiftLeft(a, j + k) == ShiftLeft(ShiftLeft(a, j), k)
  {
    if k > 0 { ShiftAdds(a, j, k - 1); }
  }
}
