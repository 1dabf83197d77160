/** The checksum of a message to the player, made a byte at a time from a table. */
module Crc16 {
  import opened Polynomial

  /* The table */

  function Row0(j: bv8): bv16 {
    match j
    case 0 => 0x0000 case 1 => 0x1021 case 2 => 0x2042 case 3 => 0x3063 case 4 => 0x4084 case 5 => 0x50a5 case 6 => 0x60c6 case 7 => 0x70e7
    case 8 => 0x8108 case 9 => 0x9129 case 10 => 0xa14a case 11 => 0xb16b case 12 => 0xc18c case 13 => 0xd1ad case 14 => 0xe1ce case _ => 0xf1ef
  }

  function Row1(j: bv8): bv16 {
    match j
    case 0 => 0x1231 case 1 => 0x0210 case 2 => 0x3273 case 3 => 0x2252 case 4 => 0x52b5 case 5 => 0x4294 case 6 => 0x72f7 case 7 => 0x62d6
    case 8 => 0x9339 case 9 => 0x8318 case 10 => 0xb37b case 11 => 0xa35a case 12 => 0xd3bd case 13 => 0xc39c case 14 => 0xf3ff case _ => 0xe3de
  }

  function Row2(j: bv8): bv16 {
    match j
    case 0 => 0x2462 case 1 => 0x3443 case 2 => 0x0420 case 3 => 0x1401 case 4 => 0x64e6 case 5 => 0x74c7 case 6 => 0x44a4 case 7 => 0x5485
    case 8 => 0xa56a case 9 => 0xb54b case 10 => 0x8528 case 11 => 0x9509 case 12 => 0xe5ee case 13 => 0xf5cf case 14 => 0xc5ac case _ => 0xd58d
  }

  function Row3(j: bv8): bv16 {
    match j
    case 0 => 0x3653 case 1 => 0x2672 case 2 => 0x1611 case 3 => 0x0630 case 4 => 0x76d7 case 5 => 0x66f6 case 6 => 0x5695 case 7 => 0x46b4
    case 8 => 0xb75b case 9 => 0xa77a case 10 => 0x9719 case 11 => 0x8738 case 12 => 0xf7df case 13 => 0xe7fe case 14 => 0xd79d case _ => 0xc7bc
  }

  function Row4(j: bv8): bv16 {
    match j
    case 0 => 0x48c4 case 1 => 0x58e5 case 2 => 0x6886 case 3 => 0x78a7 case 4 => 0x0840 case 5 => 0x1861 case 6 => 0x2802 case 7 => 0x3823
    case 8 => 0xc9cc case 9 => 0xd9ed case 10 => 0xe98e case 11 => 0xf9af case 12 => 0x8948 case 13 => 0x9969 case 14 => 0xa90a case _ => 0xb92b
  }

  function Row5(j: bv8): bv16 {
    match j
    case 0 => 0x5af5 case 1 => 0x4ad4 case 2 => 0x7ab7 case 3 => 0x6a96 case 4 => 0x1a71 case 5 => 0x0a50 case 6 => 0x3a33 case 7 => 0x2a12
    case 8 => 0xdbfd case 9 => 0xcbdc case 10 => 0xfbbf case 11 => 0xeb9e case 12 => 0x9b79 case 13 => 0x8b58 case 14 => 0xbb3b case _ => 0xab1a
  }

  function Row6(j: bv8): bv16 {
    match j
    case 0 => 0x6ca6 case 1 => 0x7c87 case 2 => 0x4ce4 case 3 => 0x5cc5 case 4 => 0x2c22 case 5 => 0x3c03 case 6 => 0x0c60 case 7 => 0x1c41
    case 8 => 0xedae case 9 => 0xfd8f case 10 => 0xcdec case 11 => 0xddcd case 12 => 0xad2a case 13 => 0xbd0b case 14 => 0x8d68 case _ => 0x9d49
  }

  function Row7(j: bv8): bv16 {
    match j
    case 0 => 0x7e97 case 1 => 0x6eb6 case 2 => 0x5ed5 case 3 => 0x4ef4 case 4 => 0x3e13 case 5 => 0x2e32 case 6 => 0x1e51 case 7 => 0x0e70
    case 8 => 0xff9f case 9 => 0xefbe case 10 => 0xdfdd case 11 => 0xcffc case 12 => 0xbf1b case 13 => 0xaf3a case 14 => 0x9f59 case _ => 0x8f78
  }

  function Row8(j: bv8): bv16 {
    match j
    case 0 => 0x9188 case 1 => 0x81a9 case 2 => 0xb1ca case 3 => 0xa1eb case 4 => 0xd10c case 5 => 0xc12d case 6 => 0xf14e case 7 => 0xe16f
    case 8 => 0x1080 case 9 => 0x00a1 case 10 => 0x30c2 case 11 => 0x20e3 case 12 => 0x5004 case 13 => 0x4025 case 14 => 0x7046 case _ => 0x6067
  }

  function Row9(j: bv8): bv16 {
    match j
    case 0 => 0x83b9 case 1 => 0x9398 case 2 => 0xa3fb case 3 => 0xb3da case 4 => 0xc33d case 5 => 0xd31c case 6 => 0xe37f case 7 => 0xf35e
    case 8 => 0x02b1 case 9 => 0x1290 case 10 => 0x22f3 case 11 => 0x32d2 case 12 => 0x4235 case 13 => 0x5214 case 14 => 0x6277 case _ => 0x7256
  }

  function RowA(j: bv8): bv16 {
    match j
    case 0 => 0xb5ea case 1 => 0xa5cb case 2 => 0x95a8 case 3 => 0x8589 case 4 => 0xf56e case 5 => 0xe54f case 6 => 0xd52c case 7 => 0xc50d
    case 8 => 0x34e2 case 9 => 0x24c3 case 10 => 0x14a0 case 11 => 0x0481 case 12 => 0x7466 case 13 => 0x6447 case 14 => 0x5424 case _ => 0x4405
  }

  function RowB(j: bv8): bv16 {
    match j
    case 0 => 0xa7db case 1 => 0xb7fa case 2 => 0x8799 case 3 => 0x97b8 case 4 => 0xe75f case 5 => 0xf77e case 6 => 0xc71d case 7 => 0xd73c
    case 8 => 0x26d3 case 9 => 0x36f2 case 10 => 0x0691 case 11 => 0x16b0 case 12 => 0x6657 case 13 => 0x7676 case 14 => 0x4615 case _ => 0x5634
  }

  function RowC(j: bv8): bv16 {
    match j
    case 0 => 0xd94c case 1 => 0xc96d case 2 => 0xf90e case 3 => 0xe92f case 4 => 0x99c8 case 5 => 0x89e9 case 6 => 0xb98a case 7 => 0xa9ab
    case 8 => 0x5844 case 9 => 0x4865 case 10 => 0x7806 case 11 => 0x6827 case 12 => 0x18c0 case 13 => 0x08e1 case 14 => 0x3882 case _ => 0x28a3
  }

  function RowD(j: bv8): bv16 {
    match j
    case 0 => 0xcb7d case 1 => 0xdb5c case 2 => 0xeb3f case 3 => 0xfb1e case 4 => 0x8bf9 case 5 => 0x9bd8 case 6 => 0xabbb case 7 => 0xbb9a
    case 8 => 0x4a75 case 9 => 0x5a54 case 10 => 0x6a37 case 11 => 0x7a16 case 12 => 0x0af1 case 13 => 0x1ad0 case 14 => 0x2ab3 case _ => 0x3a92
  }

  function RowE(j: bv8): bv16 {
    match j
    case 0 => 0xfd2e case 1 => 0xed0f case 2 => 0xdd6c case 3 => 0xcd4d case 4 => 0xbdaa case 5 => 0xad8b case 6 => 0x9de8 case 7 => 0x8dc9
    case 8 => 0x7c26 case 9 => 0x6c07 case 10 => 0x5c64 case 11 => 0x4c45 case 12 => 0x3ca2 case 13 => 0x2c83 case 14 => 0x1ce0 case _ => 0x0cc1
  }

  function RowF(j: bv8): bv16 {
    match j
    case 0 => 0xef1f case 1 => 0xff3e case 2 => 0xcf5d case 3 => 0xdf7c case 4 => 0xaf9b case 5 => 0xbfba case 6 => 0x8fd9 case 7 => 0x9ff8
    case 8 => 0x6e17 case 9 => 0x7e36 case 10 => 0x4e55 case 11 => 0x5e74 case 12 => 0x2e93 case 13 => 0x3eb2 case 14 => 0x0ed1 case _ => 0x1ef0
  }

  function Table(i: bv8): bv16 {
    var j := i & 0xF;
    match i >> 4
    case 0 => Row0(j) case 1 => Row1(j) case 2 => Row2(j) case 3 => Row3(j)
    case 4 => Row4(j) case 5 => Row5(j) case 6 => Row6(j) case 7 => Row7(j)
    case 8 => Row8(j) case 9 => Row9(j) case 10 => RowA(j) case 11 => RowB(j)
    case 12 => RowC(j) case 13 => RowD(j) case 14 => RowE(j) case _ => RowF(j)
  }

  /* The checksum */

  function Sum(r: bv16, s: bv16): bv16 {
    r ^ s
  }

  function ByteSum(a: bv8, b: bv8): bv8 {
    a ^ b
  }

  function Update(crc: bv16, b: bv8): bv16 {
    Sum(Sum(Table((crc >> 8) as bv8), crc << 8), b as bv16)
  }

  function Checksum(m: seq<bv8>): bv16 {
    if m == [] then 0 else Update(Checksum(Init(m)), Last(m))
  }

  /** The usual form, which divides the message with two zero bytes after it. */
  function XmodemUpdate(crc: bv16, b: bv8): bv16 {
    Sum(Table(ByteSum((crc >> 8) as bv8, b)), crc << 8)
  }

  function Xmodem(m: seq<bv8>): bv16 {
    if m == [] then 0 else XmodemUpdate(Xmodem(Init(m)), Last(m))
  }

  /* Words as coefficients */

  /** The coefficient at `k` from the top. */
  predicate Coefficient(r: bv16, k: nat) {
    match k
    case 0 => r & 0x8000 != 0 case 1 => r & 0x4000 != 0 case 2 => r & 0x2000 != 0 case 3 => r & 0x1000 != 0
    case 4 => r & 0x800 != 0 case 5 => r & 0x400 != 0 case 6 => r & 0x200 != 0 case 7 => r & 0x100 != 0
    case 8 => r & 0x80 != 0 case 9 => r & 0x40 != 0 case 10 => r & 0x20 != 0 case 11 => r & 0x10 != 0
    case 12 => r & 8 != 0 case 13 => r & 4 != 0 case 14 => r & 2 != 0 case _ => r & 1 != 0
  }

  function Bits16(r: bv16): (p: seq<bool>)
    ensures |p| == 16
  {
    seq(16, k requires 0 <= k => Coefficient(r, k))
  }

  predicate ByteCoefficient(b: bv8, k: nat) {
    match k
    case 0 => b & 0x80 != 0 case 1 => b & 0x40 != 0 case 2 => b & 0x20 != 0 case 3 => b & 0x10 != 0
    case 4 => b & 8 != 0 case 5 => b & 4 != 0 case 6 => b & 2 != 0 case _ => b & 1 != 0
  }

  function Bits8(b: bv8): (p: seq<bool>)
    ensures |p| == 8
  {
    seq(8, k requires 0 <= k => ByteCoefficient(b, k))
  }

  function Bits(m: seq<bv8>): (p: seq<bool>)
    ensures |p| == 8 * |m|
  {
    if m == [] then [] else Bits(Init(m)) + Bits8(Last(m))
  }

  /* What each operation does to one coefficient */

  predicate XorAt(r: bv16, s: bv16, x: bv16, k: nat) {
    Coefficient(x, k) == (Coefficient(r, k) != Coefficient(s, k))
  }

  predicate XorByteAt(a: bv8, b: bv8, x: bv8, k: nat) {
    ByteCoefficient(x, k) == (ByteCoefficient(a, k) != ByteCoefficient(b, k))
  }

  /** A word moved up by a byte, and its high byte. */
  predicate ByteMovedAt(r: bv16, up: bv16, high: bv8, k: nat) {
    Coefficient(up, k) == Coefficient(r, k + 8) && !Coefficient(up, k + 8) && ByteCoefficient(high, k) == Coefficient(r, k)
  }

  predicate WidenedAt(b: bv8, w: bv16, k: nat) {
    !Coefficient(w, k) && Coefficient(w, k + 8) == ByteCoefficient(b, k)
  }

  lemma XorCoefficient(r: bv16, s: bv16, k: nat)
    ensures XorAt(r, s, r ^ s, k)
  {
    match k
    case 0 => case 1 => case 2 => case 3 => case 4 => case 5 => case 6 => case 7 =>
    case 8 => case 9 => case 10 => case 11 => case 12 => case 13 => case 14 => case _ =>
  }

  lemma XorByteCoefficient(a: bv8, b: bv8, k: nat)
    ensures XorByteAt(a, b, a ^ b, k)
  {
    match k
    case 0 => case 1 => case 2 => case 3 => case 4 => case 5 => case 6 => case _ =>
  }

  lemma MovedCoefficient(r: bv16, k: nat)
    requires k < 8
    ensures ByteMovedAt(r, r << 8, (r >> 8) as bv8, k)
  {
    match k
    case 0 => case 1 => case 2 => case 3 => case 4 => case 5 => case 6 => case _ =>
  }

  lemma WidenedCoefficient(b: bv8, k: nat)
    requires k < 8
    ensures WidenedAt(b, b as bv16, k)
  {
    match k
    case 0 => case 1 => case 2 => case 3 => case 4 => case 5 => case 6 => case _ =>
  }

  /* And to all of them */

  lemma SumOfWords(r: bv16, s: bv16)
    ensures Bits16(Sum(r, s)) == Xor(Bits16(r), Bits16(s))
  {
    var x := r ^ s;
    forall k | 0 <= k < 16 ensures XorAt(r, s, x, k) { XorCoefficient(r, s, k); }
    AllXored(r, s, x);
  }

  lemma AllXored(r: bv16, s: bv16, x: bv16)
    requires forall k | 0 <= k < 16 :: XorAt(r, s, x, k)
    ensures Bits16(x) == Xor(Bits16(r), Bits16(s))
  {
    forall k | 0 <= k < 16 ensures Bits16(x)[k] == (Bits16(r)[k] != Bits16(s)[k]) { assert XorAt(r, s, x, k); }
  }

  lemma SumOfBytes(a: bv8, b: bv8)
    ensures Bits8(ByteSum(a, b)) == Xor(Bits8(a), Bits8(b))
  {
    var x := a ^ b;
    forall k | 0 <= k < 8 ensures XorByteAt(a, b, x, k) { XorByteCoefficient(a, b, k); }
    AllBytesXored(a, b, x);
  }

  lemma AllBytesXored(a: bv8, b: bv8, x: bv8)
    requires forall k | 0 <= k < 8 :: XorByteAt(a, b, x, k)
    ensures Bits8(x) == Xor(Bits8(a), Bits8(b))
  {
    forall k | 0 <= k < 8 ensures Bits8(x)[k] == (Bits8(a)[k] != Bits8(b)[k]) { assert XorByteAt(a, b, x, k); }
  }

  lemma MovedWord(r: bv16)
    ensures Bits16(r << 8) == Bits16(r)[8..] + Zeros(8)
    ensures Bits8((r >> 8) as bv8) == Bits16(r)[..8]
  {
    var up, high := r << 8, (r >> 8) as bv8;
    forall k | 0 <= k < 8 ensures ByteMovedAt(r, up, high, k) { MovedCoefficient(r, k); }
    AllMoved(r, up, high);
  }

  lemma AllMoved(r: bv16, up: bv16, high: bv8)
    requires forall k | 0 <= k < 8 :: ByteMovedAt(r, up, high, k)
    ensures Bits16(up) == Bits16(r)[8..] + Zeros(8) && Bits8(high) == Bits16(r)[..8]
  {
    forall k | 0 <= k < 16 ensures Bits16(up)[k] == (Bits16(r)[8..] + Zeros(8))[k] {
      assert ByteMovedAt(r, up, high, if k < 8 then k else k - 8);
    }
    forall k | 0 <= k < 8 ensures Bits8(high)[k] == Bits16(r)[k] { assert ByteMovedAt(r, up, high, k); }
  }

  lemma WidenedByte(b: bv8)
    ensures Bits16(b as bv16) == Zeros(8) + Bits8(b)
  {
    var w := b as bv16;
    forall k | 0 <= k < 8 ensures WidenedAt(b, w, k) { WidenedCoefficient(b, k); }
    AllWidened(b, w);
  }

  lemma AllWidened(b: bv8, w: bv16)
    requires forall k | 0 <= k < 8 :: WidenedAt(b, w, k)
    ensures Bits16(w) == Zeros(8) + Bits8(b)
  {
    forall k | 0 <= k < 16 ensures Bits16(w)[k] == (Zeros(8) + Bits8(b))[k] {
      assert WidenedAt(b, w, if k < 8 then k else k - 8);
    }
  }

  /* The table is right */

  function StepWord(r: bv16): bv16 {
    if r & 0x8000 != 0 then (r << 1) ^ 0x1021 else r << 1
  }

  /** A byte from the top of the register, after it has all been shifted out. */
  function Eight(i: bv8): bv16 {
    StepWord(StepWord(StepWord(StepWord(StepWord(StepWord(StepWord(StepWord((i as bv16) << 8))))))))
  }

  predicate StepAt(r: bv16, n: bv16, k: nat) {
    Coefficient(n, k) == ((k < 15 && Coefficient(r, k + 1)) != (Coefficient(r, 0) && (k == 3 || k == 10 || k == 15)))
  }

  lemma StepCoefficient(r: bv16, k: nat)
    requires k < 16
    ensures StepAt(r, StepWord(r), k)
  {
    if r & 0x8000 != 0 {
      match k
      case 0 => case 1 => case 2 => case 3 => case 4 => case 5 => case 6 => case 7 =>
      case 8 => case 9 => case 10 => case 11 => case 12 => case 13 => case 14 => case _ =>
    } else {
      match k
      case 0 => case 1 => case 2 => case 3 => case 4 => case 5 => case 6 => case 7 =>
      case 8 => case 9 => case 10 => case 11 => case 12 => case 13 => case 14 => case _ =>
    }
  }

  lemma StepOfWord(r: bv16)
    ensures Bits16(StepWord(r)) == Step(Bits16(r), false)
  {
    var n := StepWord(r);
    forall k | 0 <= k < 16 ensures StepAt(r, n, k) { StepCoefficient(r, k); }
    AllStepped(r, n);
  }

  lemma AllStepped(r: bv16, n: bv16)
    requires forall k | 0 <= k < 16 :: StepAt(r, n, k)
    ensures Bits16(n) == Step(Bits16(r), false)
  {
    forall k | 0 <= k < 16 ensures Bits16(n)[k] == Step(Bits16(r), false)[k] { assert StepAt(r, n, k); }
  }

  lemma Rows0(j: bv8)
    requires j < 16
    ensures Row0(j) == Eight(0x00 + j)
    ensures Row1(j) == Eight(0x10 + j)
    ensures Row2(j) == Eight(0x20 + j)
    ensures Row3(j) == Eight(0x30 + j)
  {
  }

  lemma Rows1(j: bv8)
    requires j < 16
    ensures Row4(j) == Eight(0x40 + j)
    ensures Row5(j) == Eight(0x50 + j)
    ensures Row6(j) == Eight(0x60 + j)
    ensures Row7(j) == Eight(0x70 + j)
  {
  }

  lemma Rows2(j: bv8)
    requires j < 16
    ensures Row8(j) == Eight(0x80 + j)
    ensures Row9(j) == Eight(0x90 + j)
    ensures RowA(j) == Eight(0xA0 + j)
    ensures RowB(j) == Eight(0xB0 + j)
  {
  }

  lemma Rows3(j: bv8)
    requires j < 16
    ensures RowC(j) == Eight(0xC0 + j)
    ensures RowD(j) == Eight(0xD0 + j)
    ensures RowE(j) == Eight(0xE0 + j)
    ensures RowF(j) == Eight(0xF0 + j)
  {
  }

  lemma TableRight(i: bv8)
    ensures Table(i) == Eight(i)
  {
    var j := i & 0xF;
    assert i == (i & 0xF0) + j;
    if i < 0x40 {
      Rows0(j);
    } else if i < 0x80 {
      Rows1(j);
    } else if i < 0xC0 {
      Rows2(j);
    } else {
      Rows3(j);
    }
  }

  lemma RunZero(r: seq<bool>, n: nat)
    requires |r| == 16
    ensures Run(r, Zeros(n + 1)) == Step(Run(r, Zeros(n)), false)
  {
    assert Init(Zeros(n + 1)) == Zeros(n);
  }

  lemma {:induction false} EightBits(w: bv16, n: nat)
    ensures Bits16(StepWords(w, n)) == Run(Bits16(w), Zeros(n))
  {
    if n > 0 {
      EightBits(w, n - 1);
      StepOfWord(StepWords(w, n - 1));
      RunZero(Bits16(w), n - 1);
    } else {
      assert Zeros(0) == [];
    }
  }

  function StepWords(w: bv16, n: nat): bv16 {
    if n == 0 then w else StepWord(StepWords(w, n - 1))
  }

  lemma EightIsEight(i: bv8)
    ensures Eight(i) == StepWords((i as bv16) << 8, 8)
  {
    var w := (i as bv16) << 8;
    FourSteps(w, 0);
    FourSteps(w, 4);
  }

  lemma FourSteps(w: bv16, n: nat)
    ensures StepWords(w, n + 4) == StepWord(StepWord(StepWord(StepWord(StepWords(w, n)))))
  {
    assert StepWords(w, n + 1) == StepWord(StepWords(w, n));
    assert StepWords(w, n + 2) == StepWord(StepWords(w, n + 1));
    assert StepWords(w, n + 3) == StepWord(StepWords(w, n + 2));
  }

  /** A table entry is what is left of its index after eight more steps. */
  lemma TableBits(i: bv8)
    ensures Bits16(Table(i)) == Run(Bits8(i) + Zeros(8), Zeros(8))
  {
    TableRight(i);
    EightIsEight(i);
    EightBits((i as bv16) << 8, 8);
    WidenedByte(i);
    MovedWord(i as bv16);
    assert (Zeros(8) + Bits8(i))[8..] == Bits8(i);
  }

  lemma XorBeside(t: seq<bool>, low: seq<bool>, b: seq<bool>)
    requires |t| == 16 && |low| == |b| == 8
    ensures Xor(Xor(t, low + Zeros(8)), Zeros(8) + b) == Xor(t, low + b)
  {
  }

  lemma UpdateBits(crc: bv16, b: bv8)
    ensures Bits16(Update(crc, b)) == Run(Bits16(crc), Bits8(b))
  {
    var high, up, w := (crc >> 8) as bv8, crc << 8, b as bv16;
    MovedWord(crc);
    WidenedByte(b);
    TableBits(high);
    SumOfWords(Table(high), up);
    SumOfWords(Sum(Table(high), up), w);
    RunByte(Bits16(crc), Bits8(b));
    XorBeside(Bits16(Table(high)), Bits16(crc)[8..], Bits8(b));
  }

  /** A byte at a time from the table is the same as a coefficient at a time. */
  lemma {:induction false} ChecksumBits(m: seq<bv8>)
    ensures Bits16(Checksum(m)) == Remainder(Bits(m))
  {
    if m == [] {
      ZeroBits();
    } else {
      ChecksumBits(Init(m));
      UpdateBits(Checksum(Init(m)), Last(m));
      RunOn(Zeros(16), Bits(Init(m)), Bits8(Last(m)));
    }
  }

  lemma ZeroBits()
    ensures Bits16(0) == Zeros(16) && Bits8(0) == Zeros(8)
  {
  }

  /** The checksum is the one remainder of the message's polynomial, with nothing added after it. */
  lemma ChecksumIsTheRemainder(m: seq<bv8>, r: seq<bool>)
    ensures IsRemainder(Bits(m), r) <==> r == Bits16(Checksum(m))
  {
    ChecksumBits(m);
    RemainderIsTheOne(Bits(m), r);
  }

  /** Messages that differ only within sixteen consecutive bits have different checksums. */
  lemma BurstDetected(a: seq<bv8>, b: seq<bv8>, before: nat, w: seq<bool>, after: nat)
    requires |a| == |b| && Xor(Bits(a), Bits(b)) == Zeros(before) + w + Zeros(after)
    requires |w| <= 16 && true in w
    ensures Checksum(a) != Checksum(b)
  {
    ChecksumBits(a);
    ChecksumBits(b);
    RemainderLinear(Bits(a), Bits(b));
    BurstRemains(before, w, after);
    var r := Bits16(Checksum(a));
    assert Xor(r, r) == Zeros(16);
  }

  lemma SameBits(r: bv16, s: bv16)
    requires Coefficient(r, 0) == Coefficient(s, 0)
    requires Coefficient(r, 1) == Coefficient(s, 1)
    requires Coefficient(r, 2) == Coefficient(s, 2)
    requires Coefficient(r, 3) == Coefficient(s, 3)
    requires Coefficient(r, 4) == Coefficient(s, 4)
    requires Coefficient(r, 5) == Coefficient(s, 5)
    requires Coefficient(r, 6) == Coefficient(s, 6)
    requires Coefficient(r, 7) == Coefficient(s, 7)
    requires Coefficient(r, 8) == Coefficient(s, 8)
    requires Coefficient(r, 9) == Coefficient(s, 9)
    requires Coefficient(r, 10) == Coefficient(s, 10)
    requires Coefficient(r, 11) == Coefficient(s, 11)
    requires Coefficient(r, 12) == Coefficient(s, 12)
    requires Coefficient(r, 13) == Coefficient(s, 13)
    requires Coefficient(r, 14) == Coefficient(s, 14)
    requires Coefficient(r, 15) == Coefficient(s, 15)
    ensures r == s
  {
  }

  lemma SameWord(r: bv16, s: bv16)
    requires Bits16(r) == Bits16(s)
    ensures r == s
  {
    forall k | 0 <= k < 16 ensures Coefficient(r, k) == Coefficient(s, k) {
      assert Bits16(r)[k] == Bits16(s)[k];
    }
    SameBits(r, s);
  }

  /** Byte by byte, one message and another of its length. */
  function SumOfMessages(a: seq<bv8>, b: seq<bv8>): (m: seq<bv8>)
    requires |a| == |b|
    ensures |m| == |a|
  {
    seq(|a|, i requires 0 <= i < |a| => ByteSum(a[i], b[i]))
  }

  lemma LastOfSum(a: seq<bv8>, b: seq<bv8>)
    requires |a| == |b| > 0
    ensures Init(SumOfMessages(a, b)) == SumOfMessages(Init(a), Init(b))
    ensures Last(SumOfMessages(a, b)) == ByteSum(Last(a), Last(b))
  {
  }

  lemma {:induction false} BitsOfSum(a: seq<bv8>, b: seq<bv8>)
    requires |a| == |b|
    ensures Bits(SumOfMessages(a, b)) == Xor(Bits(a), Bits(b))
  {
    if a != [] {
      LastOfSum(a, b);
      BitsOfSum(Init(a), Init(b));
      SumOfBytes(Last(a), Last(b));
      XorJoined(Bits(Init(a)), Bits8(Last(a)), Bits(Init(b)), Bits8(Last(b)));
    }
  }

  lemma XorJoined(a: seq<bool>, p: seq<bool>, b: seq<bool>, q: seq<bool>)
    requires |a| == |b| && |p| == |q|
    ensures Xor(a + p, b + q) == Xor(a, b) + Xor(p, q)
  {
  }

  /** The checksum is linear. */
  lemma ChecksumLinear(a: seq<bv8>, b: seq<bv8>)
    requires |a| == |b|
    ensures Bits16(Checksum(SumOfMessages(a, b))) == Xor(Bits16(Checksum(a)), Bits16(Checksum(b)))
  {
    ChecksumBits(a);
    ChecksumBits(b);
    ChecksumBits(SumOfMessages(a, b));
    BitsOfSum(a, b);
    RemainderLinear(Bits(a), Bits(b));
  }

  /* The usual form */

  lemma ZeroAfter(m: seq<bv8>)
    ensures Bits(m + [0]) == Bits(m) + Zeros(8)
  {
    ZeroBits();
    assert Init(m + [0]) == m;
  }

  lemma TwoZeros(m: seq<bv8>)
    ensures Bits16(Checksum(m + [0, 0])) == Run(Remainder(Bits(m)), Zeros(16))
  {
    ChecksumBits(m + [0, 0]);
    assert m + [0] + [0] == m + [0, 0];
    ZeroAfter(m);
    ZeroAfter(m + [0]);
    assert Bits(m) + Zeros(8) + Zeros(8) == Bits(m) + Zeros(16);
    RunOn(Zeros(16), Bits(m), Zeros(16));
  }

  lemma XmodemUpdateBits(crc: bv16, b: bv8, r: seq<bool>)
    requires |r| == 16 && Bits16(crc) == Run(r, Zeros(16))
    ensures Bits16(XmodemUpdate(crc, b)) == Run(Run(r, Bits8(b)), Zeros(16))
  {
    var high := (crc >> 8) as bv8;
    MovedWord(crc);
    SumOfBytes(high, b);
    TableBits(ByteSum(high, b));
    SumOfWords(Table(ByteSum(high, b)), crc << 8);
    RunByteAndZeros(r, Bits8(b));
  }

  lemma {:induction false} XmodemBits(m: seq<bv8>)
    ensures Bits16(Xmodem(m)) == Run(Remainder(Bits(m)), Zeros(16))
  {
    if m == [] {
      ZeroBits();
      RunZeros(Zeros(16), 16);
    } else {
      XmodemBits(Init(m));
      XmodemUpdateBits(Xmodem(Init(m)), Last(m), Remainder(Bits(Init(m))));
      RunOn(Zeros(16), Bits(Init(m)), Bits8(Last(m)));
    }
  }

  /** With two zero bytes after it, a message has the usual checksum, which takes them as read. */
  lemma TwoZerosMakeItUsual(m: seq<bv8>)
    ensures Checksum(m + [0, 0]) == Xmodem(m)
  {
    TwoZeros(m);
    XmodemBits(m);
    SameWord(Checksum(m + [0, 0]), Xmodem(m));
  }

  /* As it runs */

  method CRC16(buffer: array<bv8>, length: nat) returns (crc: bv16)
    requires length <= buffer.Length
    ensures crc == Checksum(buffer[..length])
  {
    ghost var m := buffer[..length];
    crc := 0;
    var left, p := length, 0;
    while left > 0
      invariant p + left == length && crc == Checksum(m[..p])
    {
      left := left - 1;
      assert Init(m[..p + 1]) == m[..p] && Last(m[..p + 1]) == buffer[p];
      crc := Update(crc, buffer[p]);
      p := p + 1;
    }
    assert m[..p] == m;
  }
}
