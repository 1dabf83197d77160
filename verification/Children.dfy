/** The children field: a count and that many ids, as characters of UTF-8 in its original form of up
    to six octets (section 2 of RFC 2279). */
module Children {

  import opened Common

  const LIMIT: nat := 0x8000_0000
  const MAX_CHILDREN: nat := 20000

  /* The format */

  /** How many octets a character takes. */
  function Octets(ch: nat): (n: nat)
    requires ch < LIMIT
    ensures 1 <= n <= 6
  {
    if ch < 0x80 then 1
    else if ch < 0x800 then 2
    else if ch < 0x1_0000 then 3
    else if ch < 0x20_0000 then 4
    else if ch < 0x400_0000 then 5
    else 6
  }

  /** The high-order bits of the first of `n` octets: `n` ones and a zero. */
  function Mark(n: nat): nat {
    match n
    case 2 => 0xC0
    case 3 => 0xE0
    case 4 => 0xF0
    case 5 => 0xF8
    case 6 => 0xFC
    case _ => 0
  }

  /** What is left of a character above its last `k` groups of six bits. */
  function Above(ch: nat, k: nat): nat {
    if k == 0 then ch else Above(ch / 64, k - 1)
  }

  /** The last `k` groups of six bits, each after the bits 10. */
  function Tail(ch: nat, k: nat): seq<Byte> {
    if k == 0 then [] else Tail(ch / 64, k - 1) + [0x80 + ch % 64]
  }

  /** The first of the octets: its mark, and the bits that the others leave over. */
  function Lead(ch: nat): (b: Byte)
    requires ch < LIMIT
    ensures Mark(Octets(ch)) <= b
    ensures 1 < Octets(ch) < 6 ==> b < Mark(Octets(ch) + 1)
    ensures Octets(ch) == 6 ==> b < 0xFE
  {
    if ch < 0x80 then ch
    else if ch < 0x800 then 0xC0 + ch / 0x40
    else if ch < 0x1_0000 then 0xE0 + ch / 0x1000
    else if ch < 0x20_0000 then 0xF0 + ch / 0x4_0000
    else if ch < 0x400_0000 then 0xF8 + ch / 0x100_0000
    else 0xFC + ch / 0x4000_0000
  }

  function Character(ch: nat): seq<Byte>
    requires ch < LIMIT
  {
    [Lead(ch)] + Tail(ch, Octets(ch) - 1)
  }

  /** What is written for any value: a question mark for 0, and nothing where the format ends. */
  function Encoding(ch: nat): seq<Byte> {
    if ch == 0 then [63] else if ch < LIMIT then Character(ch) else []
  }

  /* Reading, past the end as a C string reads its terminator */

  function ByteAt(s: seq<Byte>, p: nat): Byte {
    if p < |s| then s[p] else 0
  }

  /** How many octets follow the first, by its high-order bits. */
  function Following(b: Byte): nat {
    if b < 0xC0 then 0
    else if b < 0xE0 then 1
    else if b < 0xF0 then 2
    else if b < 0xF8 then 3
    else if b < 0xFC then 4
    else if b < 0xFE then 5
    else 0
  }

  function Bits(s: seq<Byte>, p: nat): nat {
    ByteAt(s, p) % 64
  }

  function TailValue(s: seq<Byte>, p: nat, k: nat, sofar: nat): nat
    decreases k
  {
    if k == 0 then sofar else TailValue(s, p + 1, k - 1, sofar * 64 + Bits(s, p))
  }

  /** The character at `p`, and where the next one starts. */
  function Read(s: seq<Byte>, p: nat): (nat, nat) {
    var b := ByteAt(s, p);
    var k := Following(b);
    if b == 0 then (0, p)
    else if b < 0x80 then (b, p + 1)
    else if k == 0 then (0, p + 1)
    else (TailValue(s, p + 1, k, b - Mark(k + 1)), p + 1 + k)
  }

  function ReadAll(s: seq<Byte>, p: nat, n: nat): seq<nat>
    decreases n
  {
    if n == 0 then []
    else var (ch, q) := Read(s, p); [ch] + ReadAll(s, q, n - 1)
  }

  function Decode(s: seq<Byte>): seq<nat> {
    var (n, p) := Read(s, 0);
    if n == 0 || n > MAX_CHILDREN then [] else ReadAll(s, p, n)
  }

  function EncodeAll(v: seq<nat>): seq<Byte> {
    if v == [] then [] else Encoding(v[0]) + EncodeAll(v[1..])
  }

  function Encode(v: seq<nat>): seq<Byte> {
    if v == [] then [] else Encoding(|v| % UINT32) + EncodeAll(v)
  }

  /* Reading back what was written */

  lemma {:induction false} TailSize(ch: nat, k: nat)
    ensures |Tail(ch, k)| == k
  {
    if k > 0 { TailSize(ch / 64, k - 1); }
  }

  lemma {:induction false} TailValueSplit(s: seq<Byte>, p: nat, k: nat, sofar: nat)
    requires k > 0
    ensures TailValue(s, p, k, sofar) == TailValue(s, p, k - 1, sofar) * 64 + ByteAt(s, p + k - 1) % 64
    decreases k
  {
    if k > 1 { TailValueSplit(s, p + 1, k - 1, sofar * 64 + ByteAt(s, p) % 64); }
  }

  lemma {:induction false} TailValueOfTail(s: seq<Byte>, p: nat, ch: nat, k: nat)
    requires p + k <= |s| && s[p..p + k] == Tail(ch, k)
    ensures TailValue(s, p, k, Above(ch, k)) == ch
  {
    if k > 0 {
      TailSize(ch / 64, k - 1);
      assert s[p..p + k - 1] == s[p..p + k][..k - 1] == Tail(ch / 64, k - 1);
      assert s[p + k - 1] == s[p..p + k][k - 1] == Tail(ch, k)[k - 1] == 0x80 + ch % 64;
      TailValueOfTail(s, p, ch / 64, k - 1);
      TailValueSplit(s, p, k, Above(ch, k));
    }
  }

  lemma Aboves(ch: nat)
    ensures Above(ch, 1) == ch / 0x40 && Above(ch, 2) == ch / 0x1000 && Above(ch, 3) == ch / 0x4_0000
    ensures Above(ch, 4) == ch / 0x100_0000 && Above(ch, 5) == ch / 0x4000_0000
  {
    assert Above(ch, 4) == Above(ch / 64, 3) == ch / 0x100_0000;
    assert Above(ch, 5) == Above(ch / 64, 4) == Above(ch / 64 / 64, 3) == ch / 0x4000_0000;
  }

  /** One character, wherever it stands. */
  lemma ReadCharacter(pre: seq<Byte>, ch: nat, post: seq<Byte>)
    requires 0 < ch < LIMIT
    ensures Read(pre + Character(ch) + post, |pre|) == (ch, |pre| + |Character(ch)|)
  {
    var s, n, c := pre + Character(ch) + post, Octets(ch), Character(ch);
    TailSize(ch, n - 1);
    assert s[|pre|] == c[0];
    if n > 1 {
      Aboves(ch);
      assert s[|pre| + 1..|pre| + n] == c[1..] == Tail(ch, n - 1);
      TailValueOfTail(s, |pre| + 1, ch, n - 1);
    }
  }

  predicate Representable(v: seq<nat>) {
    forall i | 0 <= i < |v| :: 0 < v[i] < LIMIT
  }

  lemma Joined(a: seq<Byte>, b: seq<Byte>, c: seq<Byte>)
    ensures a + (b + c) == a + b + c
  {
  }

  /** The first character of a list, and then the rest. */
  lemma ReadFirst(pre: seq<Byte>, v: seq<nat>, n: nat)
    requires v != [] && 0 < v[0] < LIMIT && n > 0
    ensures var s, c := pre + EncodeAll(v), Character(v[0]);
      && s == (pre + c) + EncodeAll(v[1..])
      && ReadAll(s, |pre|, n) == [v[0]] + ReadAll(s, |pre + c|, n - 1)
  {
    var c, rest := Character(v[0]), EncodeAll(v[1..]);
    ReadCharacter(pre, v[0], rest);
    Joined(pre, c, rest);
  }

  function Zeros(k: nat): (r: seq<nat>)
    ensures |r| == k
  {
    seq(k, _ => 0)
  }

  /** At the terminator every further character reads as zero. */
  lemma {:induction false} ReadAtEnd(s: seq<Byte>, k: nat)
    ensures ReadAll(s, |s|, k) == Zeros(k)
  {
    if k > 0 {
      ReadAtEnd(s, k - 1);
      assert Zeros(k) == [0] + Zeros(k - 1);
    }
  }

  /** A list is read back, and if more is asked for than was written then zeros after it. */
  lemma {:induction false} ReadAllBack(pre: seq<Byte>, v: seq<nat>, n: nat)
    requires Representable(v) && n >= |v|
    ensures ReadAll(pre + EncodeAll(v), |pre|, n) == v + Zeros(n - |v|)
    decreases v
  {
    if v == [] {
      assert pre + [] == pre && [] + Zeros(n) == Zeros(n);
      ReadAtEnd(pre, n);
    } else {
      ReadAllBack(pre + Character(v[0]), v[1..], n - 1);
      ReadNext(pre, v, n, v[1..] + Zeros(n - |v|));
      FirstAndRest(v, Zeros(n - |v|));
    }
  }

  lemma ReadNext(pre: seq<Byte>, v: seq<nat>, n: nat, rest: seq<nat>)
    requires v != [] && 0 < v[0] < LIMIT && n > 0
    requires var c := Character(v[0]); ReadAll(pre + c + EncodeAll(v[1..]), |pre + c|, n - 1) == rest
    ensures ReadAll(pre + EncodeAll(v), |pre|, n) == [v[0]] + rest
  {
    ReadFirst(pre, v, n);
  }

  lemma FirstAndRest(v: seq<nat>, z: seq<nat>)
    requires v != []
    ensures v + z == [v[0]] + (v[1..] + z)
  {
  }

  lemma ReadAllSame(pre: seq<Byte>, v: seq<nat>, n: nat)
    requires Representable(v) && n == |v|
    ensures ReadAll(pre + EncodeAll(v), |pre|, n) == v
  {
    ReadAllBack(pre, v, n);
    assert v + Zeros(n - |v|) == v;
  }

  function Pow64(k: nat): (r: nat)
    ensures r > 0
  {
    if k == 0 then 1 else 64 * Pow64(k - 1)
  }

  /** Reading gives no value at or past the end of the format. */
  lemma {:induction false} TailValueBound(s: seq<Byte>, p: nat, k: nat, sofar: nat)
    ensures TailValue(s, p, k, sofar) < (sofar + 1) * Pow64(k)
    decreases k
  {
    if k > 0 {
      var next := sofar * 64 + ByteAt(s, p) % 64;
      TailValueBound(s, p + 1, k - 1, next);
      assert (next + 1) * Pow64(k - 1) <= (sofar * 64 + 64) * Pow64(k - 1) == (sofar + 1) * Pow64(k) by {
        MulMono(next + 1, sofar * 64 + 64, Pow64(k - 1));
        assert (sofar * 64 + 64) * Pow64(k - 1) == (sofar + 1) * (64 * Pow64(k - 1));
      }
    }
  }

  lemma MulMono(a: nat, b: nat, c: nat)
    requires a <= b
    ensures a * c <= b * c
  {
  }

  lemma ReadBound(s: seq<Byte>, p: nat)
    ensures Read(s, p).0 < LIMIT
  {
    var b := ByteAt(s, p);
    var k := Following(b);
    if b >= 0xC0 && k > 0 {
      TailValueBound(s, p + 1, k, b - Mark(k + 1));
      assert Pow64(1) == 64 && Pow64(2) == 64 * 64 && Pow64(3) == 64 * 64 * 64;
      assert Pow64(4) == 64 * Pow64(3) && Pow64(5) == 64 * Pow64(4);
    }
  }

  lemma ConsDiffers(x: nat, a: seq<nat>, b: seq<nat>)
    requires a != b
    ensures [x] + a != [x] + b
  {
    assert ([x] + a)[1..] == a && ([x] + b)[1..] == b;
  }

  /** A first child that has no representation of its own is read back as something else. */
  lemma FirstDiffers(pre: seq<Byte>, v: seq<nat>)
    requires v != [] && !(0 < v[0] < LIMIT)
    ensures Read(pre + EncodeAll(v), |pre|).0 != v[0]
  {
    var s := pre + EncodeAll(v);
    if v[0] == 0 {
      assert s[|pre|] == EncodeAll(v)[0] == 63;
    } else {
      ReadBound(s, |pre|);
    }
  }

  lemma RestDiffers(pre: seq<Byte>, v: seq<nat>)
    requires v != [] && 0 < v[0] < LIMIT
    requires var c := Character(v[0]); ReadAll(pre + c + EncodeAll(v[1..]), |pre + c|, |v| - 1) != v[1..]
    ensures ReadAll(pre + EncodeAll(v), |pre|, |v|) != v
  {
    var c := Character(v[0]);
    var rest := ReadAll(pre + c + EncodeAll(v[1..]), |pre + c|, |v| - 1);
    ReadNext(pre, v, |v|, rest);
    ConsDiffers(v[0], rest, v[1..]);
    assert v == [v[0]] + v[1..];
  }

  lemma {:induction false} ReadAllDiffers(pre: seq<Byte>, v: seq<nat>)
    requires !Representable(v)
    ensures ReadAll(pre + EncodeAll(v), |pre|, |v|) != v
    decreases v
  {
    if 0 < v[0] < LIMIT {
      ReadAllDiffers(pre + Character(v[0]), v[1..]);
      RestDiffers(pre, v);
    } else {
      FirstDiffers(pre, v);
      assert ReadAll(pre + EncodeAll(v), |pre|, |v|)[0] == Read(pre + EncodeAll(v), |pre|).0;
    }
  }

  /** What comes back of a list, by its length. */
  lemma DecodeList(v: seq<nat>)
    requires 0 < |v| < LIMIT
    ensures var count := Character(|v|);
      Decode(Encode(v)) == if |v| > MAX_CHILDREN then [] else ReadAll(count + EncodeAll(v), |count|, |v|)
  {
    var count := Character(|v|);
    ReadCharacter([], |v|, EncodeAll(v));
    SmallModulo(|v|);
    assert [] + count == count;
    assert Read(Encode(v), 0) == (|v|, |count|);
  }

  lemma SmallModulo(n: nat)
    requires n < LIMIT
    ensures n % UINT32 == n
  {
  }

  lemma ReadAllOfList(pre: seq<Byte>, v: seq<nat>)
    ensures ReadAll(pre + EncodeAll(v), |pre|, |v|) == v <==> Representable(v)
  {
    if Representable(v) { ReadAllSame(pre, v, |v|); } else { ReadAllDiffers(pre, v); }
  }

  /** A list of ids survives the round trip exactly when it is not too long and every id is one
      the format can represent. */
  lemma RoundTrip(v: seq<nat>)
    requires |v| < LIMIT
    ensures Decode(Encode(v)) == v <==> |v| <= MAX_CHILDREN && Representable(v)
  {
    if v != [] {
      DecodeList(v);
      ReadAllOfList(Character(|v|), v);
    }
  }

  /** A list as it is read back: nothing tells a zero from the question mark written for it. */
  function Seen(v: seq<nat>): (r: seq<nat>)
    ensures |r| == |v|
  {
    seq(|v|, i requires 0 <= i < |v| => if v[i] == 0 then 63 else v[i])
  }

  lemma {:induction false} EncodeSeen(v: seq<nat>)
    ensures EncodeAll(Seen(v)) == EncodeAll(v)
  {
    if v != [] {
      assert Seen(v)[1..] == Seen(v[1..]);
      EncodeSeen(v[1..]);
      assert Encoding(63) == Encoding(0) by { assert Tail(63, 0) == []; }
    }
  }

  /** The values that anything is written for. */
  function Written(v: seq<nat>): (r: seq<nat>)
    ensures |r| <= |v| && forall c <- r :: c < LIMIT
  {
    if v == [] then [] else (if v[0] < LIMIT then [v[0]] else []) + Written(v[1..])
  }

  lemma {:induction false} WrittenAll(v: seq<nat>)
    ensures Written(v) == v <==> forall i | 0 <= i < |v| :: v[i] < LIMIT
    ensures EncodeAll(Written(v)) == EncodeAll(v)
  {
    if v != [] {
      WrittenAll(v[1..]);
      assert v == [v[0]] + v[1..];
      if v[0] < LIMIT {
        assert Written(v)[1..] == Written(v[1..]);
      } else {
        assert Written(v) == Written(v[1..]);
        assert EncodeAll(v) == [] + EncodeAll(v[1..]);
      }
    }
  }

  lemma SeenRepresentable(w: seq<nat>)
    requires forall c <- w :: c < LIMIT
    ensures Representable(Seen(w))
  {
    forall i | 0 <= i < |w| ensures 0 < Seen(w)[i] < LIMIT { assert w[i] in w; }
  }

  lemma ReadAllWritten(pre: seq<Byte>, v: seq<nat>)
    ensures ReadAll(pre + EncodeAll(v), |pre|, |v|) == Seen(Written(v)) + Zeros(|v| - |Written(v)|)
  {
    var w := Written(v);
    WrittenAll(v);
    EncodeSeen(w);
    SeenRepresentable(w);
    ReadAllBack(pre, Seen(w), |v|);
  }

  /** Any short list as it is read back: zeros as the question marks written for them, and what is
      past the format's end, for which nothing is written though it is counted, as zeros at the end. */
  lemma ReadsAsWritten(v: seq<nat>)
    requires |v| <= MAX_CHILDREN
    ensures Decode(Encode(v)) == Seen(Written(v)) + Zeros(|v| - |Written(v)|)
  {
    if v != [] {
      DecodeList(v);
      ReadAllWritten(Character(|v|), v);
    }
  }

  lemma ReadsAsSeen(v: seq<nat>)
    requires |v| <= MAX_CHILDREN && forall i | 0 <= i < |v| :: v[i] < LIMIT
    ensures Decode(Encode(v)) == Seen(v)
  {
    ReadsAsWritten(v);
    WrittenAll(v);
    assert Seen(v) + Zeros(0) == Seen(v);
  }

  lemma {:induction false} ReadAllBound(s: seq<Byte>, p: nat, n: nat)
    ensures |ReadAll(s, p, n)| == n
    ensures forall i | 0 <= i < n :: ReadAll(s, p, n)[i] < LIMIT
    decreases n
  {
    if n > 0 {
      ReadBound(s, p);
      ReadAllBound(s, Read(s, p).1, n - 1);
    }
  }

  /** Whatever the field holds, what is read from it is a short list of values below the limit. */
  lemma DecodeBound(s: seq<Byte>)
    ensures |Decode(s)| <= MAX_CHILDREN
    ensures forall i | 0 <= i < |Decode(s)| :: Decode(s)[i] < LIMIT
  {
    var (n, p) := Read(s, 0);
    ReadAllBound(s, p, n);
  }

  /** The groups of six bits that follow the first octet, from the left. */
  function Group(ch: nat, k: nat): Byte {
    0x80 + Above(ch, k) % 0x40
  }

  /** The groups are consecutive six-bit digits. */
  lemma {:induction false} TailFront(ch: nat, k: nat)
    ensures Tail(ch, k + 1) == [Group(ch, k)] + Tail(ch, k)
  {
    if k > 0 {
      TailFront(ch / 64, k - 1);
      assert Tail(ch, k + 1) == Tail(ch / 64, k) + [0x80 + ch % 64];
    } else {
      assert Tail(ch, 0) == [];
    }
  }

  lemma ShortTails(ch: nat)
    ensures Tail(ch, 0) == []
    ensures Tail(ch, 1) == [Group(ch, 0)]
    ensures Tail(ch, 2) == [Group(ch, 1), Group(ch, 0)]
    ensures Tail(ch, 3) == [Group(ch, 2), Group(ch, 1), Group(ch, 0)]
  {
    TailFront(ch, 0);
    TailFront(ch, 1);
    TailFront(ch, 2);
  }

  lemma LongTails(ch: nat)
    ensures Tail(ch, 4) == [Group(ch, 3), Group(ch, 2), Group(ch, 1), Group(ch, 0)]
    ensures Tail(ch, 5) == [Group(ch, 4), Group(ch, 3), Group(ch, 2), Group(ch, 1), Group(ch, 0)]
  {
    ShortTails(ch);
    TailFront(ch, 3);
    TailFront(ch, 4);
  }

  /** Octets appended together, and one at a time. */
  lemma Appended(s: seq<Byte>, a: Byte, b: Byte, c: Byte, d: Byte, e: Byte, f: Byte)
    ensures s + [a, b] == s + [a] + [b]
    ensures s + [a, b, c] == s + [a] + [b] + [c]
    ensures s + [a, b, c, d] == s + [a] + [b] + [c] + [d]
    ensures s + [a, b, c, d, e] == s + [a] + [b] + [c] + [d] + [e]
    ensures s + [a, b, c, d, e, f] == s + [a] + [b] + [c] + [d] + [e] + [f]
  {
    assert s + [a, b] == s + [a] + [b];
    assert s + [a, b, c] == s + [a, b] + [c];
    assert s + [a, b, c, d] == s + [a, b, c] + [d];
    assert s + [a, b, c, d, e] == s + [a, b, c, d] + [e];
    assert s + [a, b, c, d, e, f] == s + [a, b, c, d, e] + [f];
  }

  /** The layouts of up to four octets. */
  lemma ShortLayouts(s: seq<Byte>, ch: nat)
    requires ch < LIMIT
    ensures Octets(ch) == 2 ==> s + Character(ch) == s + [0xC0 + ch / 0x40] + [Group(ch, 0)]
    ensures Octets(ch) == 3 ==> s + Character(ch) == s + [0xE0 + ch / 0x1000] + [Group(ch, 1)] + [Group(ch, 0)]
    ensures Octets(ch) == 4 ==>
      s + Character(ch) == s + [0xF0 + ch / 0x4_0000] + [Group(ch, 2)] + [Group(ch, 1)] + [Group(ch, 0)]
  {
    ShortTails(ch);
    Appended(s, Lead(ch), Group(ch, 0), 0, 0, 0, 0);
    Appended(s, Lead(ch), Group(ch, 1), Group(ch, 0), 0, 0, 0);
    Appended(s, Lead(ch), Group(ch, 2), Group(ch, 1), Group(ch, 0), 0, 0);
  }

  /** The layouts of five and six octets. */
  lemma LongLayouts(s: seq<Byte>, ch: nat)
    requires ch < LIMIT
    ensures Octets(ch) == 5 ==>
      s + Character(ch)
      == s + [0xF8 + ch / 0x100_0000] + [Group(ch, 3)] + [Group(ch, 2)] + [Group(ch, 1)] + [Group(ch, 0)]
    ensures Octets(ch) == 6 ==>
      s + Character(ch)
      == s + [0xFC + ch / 0x4000_0000] + [Group(ch, 4)] + [Group(ch, 3)] + [Group(ch, 2)] + [Group(ch, 1)]
      + [Group(ch, 0)]
  {
    LongTails(ch);
    Appended(s, Lead(ch), Group(ch, 3), Group(ch, 2), Group(ch, 1), Group(ch, 0), 0);
    Appended(s, Lead(ch), Group(ch, 4), Group(ch, 3), Group(ch, 2), Group(ch, 1), Group(ch, 0));
  }

  /* As it runs */

  method AppendUTF8(s: seq<Byte>, ch: nat) returns (r: seq<Byte>)
    requires ch < UINT32
    ensures r == s + Encoding(ch)
  {
    Aboves(ch);
    r := s;
    if ch == 0 {
      r := r + [63];
    } else if ch < 0x80 {
      r := r + [ch];
    } else if ch < 0x800 {
      ShortLayouts(s, ch);
      r := r + [0xC0 + ch / 0x40];
      r := r + [0x80 + ch % 0x40];
    } else if ch < 0x1_0000 {
      ShortLayouts(s, ch);
      r := r + [0xE0 + ch / 0x1000];
      r := r + [0x80 + ch / 0x40 % 0x40];
      r := r + [0x80 + ch % 0x40];
    } else if ch < 0x20_0000 {
      ShortLayouts(s, ch);
      r := r + [0xF0 + ch / 0x4_0000];
      r := r + [0x80 + ch / 0x1000 % 0x40];
      r := r + [0x80 + ch / 0x40 % 0x40];
      r := r + [0x80 + ch % 0x40];
    } else if ch < 0x400_0000 {
      LongLayouts(s, ch);
      r := r + [0xF8 + ch / 0x100_0000];
      r := r + [0x80 + ch / 0x4_0000 % 0x40];
      r := r + [0x80 + ch / 0x1000 % 0x40];
      r := r + [0x80 + ch / 0x40 % 0x40];
      r := r + [0x80 + ch % 0x40];
    } else if ch < 0x8000_0000 {
      LongLayouts(s, ch);
      r := r + [0xFC + ch / 0x4000_0000];
      r := r + [0x80 + ch / 0x100_0000 % 0x40];
      r := r + [0x80 + ch / 0x4_0000 % 0x40];
      r := r + [0x80 + ch / 0x1000 % 0x40];
      r := r + [0x80 + ch / 0x40 % 0x40];
      r := r + [0x80 + ch % 0x40];
    }
  }

  lemma EncodeNext(r: seq<Byte>, v: seq<nat>, i: nat)
    requires i < |v|
    ensures r + EncodeAll(v[i..]) == r + Encoding(v[i]) + EncodeAll(v[i + 1..])
  {
    assert v[i..][1..] == v[i + 1..];
    Joined(r, Encoding(v[i]), EncodeAll(v[i + 1..]));
  }

  lemma EncodeStart(v: seq<nat>)
    requires v != []
    ensures [] + Encoding(|v| % UINT32) + EncodeAll(v[0..]) == Encode(v)
  {
    assert v[0..] == v && [] + Encoding(|v| % UINT32) == Encoding(|v| % UINT32);
  }

  lemma EncodeEnd(r: seq<Byte>, v: seq<nat>)
    ensures r + EncodeAll(v[|v|..]) == r
  {
    assert v[|v|..] == [];
  }

  method VectorToChildren(v: seq<nat>) returns (r: seq<Byte>)
    requires forall i | 0 <= i < |v| :: v[i] < UINT32
    ensures r == Encode(v)
  {
    if |v| == 0 {
      return [];
    }
    r := AppendUTF8([], |v| % UINT32);
    EncodeStart(v);
    for i := 0 to |v|
      invariant r + EncodeAll(v[i..]) == Encode(v)
    {
      EncodeNext(r, v, i);
      r := AppendUTF8(r, v[i]);
    }
    EncodeEnd(r, v);
  }

  /** Up to five following octets, added up by their places. */
  lemma TailValues(s: seq<Byte>, p: nat, x: nat)
    ensures TailValue(s, p, 1, x) == Bits(s, p) + x * 0x40
    ensures TailValue(s, p, 2, x) == Bits(s, p + 1) + Bits(s, p) * 0x40 + x * 0x1000
    ensures TailValue(s, p, 3, x) == Bits(s, p + 2) + Bits(s, p + 1) * 0x40 + Bits(s, p) * 0x1000 + x * 0x4_0000
    ensures TailValue(s, p, 4, x) == Bits(s, p + 3) + Bits(s, p + 2) * 0x40 + Bits(s, p + 1) * 0x1000
                                     + Bits(s, p) * 0x4_0000 + x * 0x100_0000
    ensures TailValue(s, p, 5, x) == Bits(s, p + 4) + Bits(s, p + 3) * 0x40 + Bits(s, p + 2) * 0x1000
                                     + Bits(s, p + 1) * 0x4_0000 + Bits(s, p) * 0x100_0000 + x * 0x4000_0000
  {
    TailValueSplit(s, p, 2, x);
    TailValueSplit(s, p, 3, x);
    TailValueSplit(s, p, 4, x);
    TailValueSplit(s, p, 5, x);
  }

  lemma LowBits(b: Byte)
    ensures 0xC0 <= b < 0xE0 ==> b % 0x20 == b - 0xC0
    ensures 0xE0 <= b < 0xF0 ==> b % 0x10 == b - 0xE0
    ensures 0xF0 <= b < 0xF8 ==> b % 8 == b - 0xF0
    ensures 0xF8 <= b < 0xFC ==> b % 4 == b - 0xF8
    ensures 0xFC <= b < 0xFE ==> b % 2 == b - 0xFC
  {
  }

  /** The five forms of more than one octet. */
  lemma ReadLayouts(s: seq<Byte>, p: nat)
    ensures var b := ByteAt(s, p); 0xC0 <= b < 0xE0 ==> Read(s, p) == (Bits(s, p + 1) + b % 0x20 * 0x40, p + 2)
    ensures var b := ByteAt(s, p); 0xE0 <= b < 0xF0 ==>
      Read(s, p) == (Bits(s, p + 2) + Bits(s, p + 1) * 0x40 + b % 0x10 * 0x1000, p + 3)
    ensures var b := ByteAt(s, p); 0xF0 <= b < 0xF8 ==>
      Read(s, p) == (Bits(s, p + 3) + Bits(s, p + 2) * 0x40 + Bits(s, p + 1) * 0x1000 + b % 8 * 0x4_0000, p + 4)
    ensures var b := ByteAt(s, p); 0xF8 <= b < 0xFC ==>
      Read(s, p) == (Bits(s, p + 4) + Bits(s, p + 3) * 0x40 + Bits(s, p + 2) * 0x1000 + Bits(s, p + 1) * 0x4_0000
                     + b % 4 * 0x100_0000, p + 5)
    ensures var b := ByteAt(s, p); 0xFC <= b < 0xFE ==>
      Read(s, p) == (Bits(s, p + 5) + Bits(s, p + 4) * 0x40 + Bits(s, p + 3) * 0x1000 + Bits(s, p + 2) * 0x4_0000
                     + Bits(s, p + 1) * 0x100_0000 + b % 2 * 0x4000_0000, p + 6)
  {
    var b := ByteAt(s, p);
    LowBits(b);
    if 0xC0 <= b < 0xFE {
      TailValues(s, p + 1, b - Mark(Following(b) + 1));
    }
  }

  method GetUTF8Char(s: seq<Byte>, ptr: nat) returns (ch: nat, next: nat)
    ensures (ch, next) == Read(s, ptr)
  {
    next := ptr;
    var b: nat := ByteAt(s, next);
    if b == 0 {
      return b, next;
    }
    ReadLayouts(s, ptr);
    next := next + 1;
    if b < 0x80 {
      return b, next;
    } else if b < 0xC0 {
      return 0, next;
    } else if b < 0xE0 {
      var b2: nat := ByteAt(s, next);
      next := next + 1;
      ch := b2 % 0x40 + b % 0x20 * 0x40;
    } else if b < 0xF0 {
      var b2: nat, b3: nat := ByteAt(s, next), ByteAt(s, next + 1);
      next := next + 2;
      ch := b3 % 0x40 + b2 % 0x40 * 0x40 + b % 0x10 * 0x1000;
    } else if b < 0xF8 {
      var b2: nat, b3: nat, b4: nat := ByteAt(s, next), ByteAt(s, next + 1), ByteAt(s, next + 2);
      next := next + 3;
      ch := b4 % 0x40 + b3 % 0x40 * 0x40 + b2 % 0x40 * 0x1000 + b % 8 * 0x4_0000;
    } else if b < 0xFC {
      var b2: nat, b3: nat := ByteAt(s, next), ByteAt(s, next + 1);
      var b4: nat, b5: nat := ByteAt(s, next + 2), ByteAt(s, next + 3);
      next := next + 4;
      ch := b5 % 0x40 + b4 % 0x40 * 0x40 + b3 % 0x40 * 0x1000 + b2 % 0x40 * 0x4_0000 + b % 4 * 0x100_0000;
    } else if b < 0xFE {
      var b2: nat, b3: nat := ByteAt(s, next), ByteAt(s, next + 1);
      var b4: nat, b5: nat := ByteAt(s, next + 2), ByteAt(s, next + 3);
      var b6: nat := ByteAt(s, next + 4);
      next := next + 5;
      ch := b6 % 0x40 + b5 % 0x40 * 0x40 + b4 % 0x40 * 0x1000 + b3 % 0x40 * 0x4_0000 + b2 % 0x40 * 0x100_0000
        + b % 2 * 0x4000_0000;
    } else {
      return 0, next;
    }
  }

  lemma ReadAllNext(s: seq<Byte>, p: nat, v: seq<nat>, i: nat, n: nat)
    requires i < n && |v| == n
    ensures var (ch, q) := Read(s, p);
      v[..i] + ReadAll(s, p, n - i) == v[i := ch][..i + 1] + ReadAll(s, q, n - i - 1)
  {
    var (ch, q) := Read(s, p);
    assert v[i := ch][..i + 1] == v[..i] + [ch];
  }

  method ChildrenToVector(s: seq<Byte>) returns (v: seq<nat>)
    ensures v == Decode(s)
  {
    v := [];
    if ByteAt(s, 0) == 0 {
      return;
    }
    var n, p := GetUTF8Char(s, 0);
    if n == 0 || n > MAX_CHILDREN {
      return;
    }
    v := seq(n, _ => 0);
    ghost var first := p;
    for i := 0 to n
      invariant |v| == n
      invariant v[..i] + ReadAll(s, p, n - i) == ReadAll(s, first, n)
    {
      ReadAllNext(s, p, v, i, n);
      var ch;
      ch, p := GetUTF8Char(s, p);
      v := v[i := ch];
    }
  }

  /* What the octets look like */

  /** How many characters there are that take at most `n` octets. */
  function Room(n: nat): nat {
    match n
    case 1 => 0x80
    case 2 => 0x800
    case 3 => 0x1_0000
    case 4 => 0x20_0000
    case 5 => 0x400_0000
    case 6 => 0x8000_0000
    case _ => 0
  }

  lemma {:induction false} TailMarked(ch: nat, k: nat)
    ensures |Tail(ch, k)| == k && forall i | 0 <= i < k :: 0x80 <= Tail(ch, k)[i] < 0xC0
  {
    if k > 0 { TailMarked(ch / 64, k - 1); }
  }

  /** Every character is in its shortest form; its first octet says how many there are; and the others,
      and no first one, begin with the bits 10. */
  lemma CharacterMarked(ch: nat)
    requires ch < LIMIT
    ensures var c := Character(ch);
      var n := |c|;
      && 1 <= n <= 6 && ch < Room(n) && (n > 1 ==> ch >= Room(n - 1))
      && (n == 1 <==> c[0] < 0x80) && (n == 2 <==> 0xC0 <= c[0] < 0xE0) && (n == 3 <==> 0xE0 <= c[0] < 0xF0)
      && (n == 4 <==> 0xF0 <= c[0] < 0xF8) && (n == 5 <==> 0xF8 <= c[0] < 0xFC) && (n == 6 <==> 0xFC <= c[0] < 0xFE)
      && forall i | 1 <= i < n :: 0x80 <= c[i] < 0xC0
  {
    TailMarked(ch, Octets(ch) - 1);
  }

  lemma EncodingHasNoZero(ch: nat)
    ensures 0 !in Encoding(ch)
  {
    if 0 < ch < LIMIT {
      TailMarked(ch, Octets(ch) - 1);
    }
  }

  lemma {:induction false} EncodeAllHasNoZero(v: seq<nat>)
    ensures 0 !in EncodeAll(v)
  {
    if v != [] {
      EncodingHasNoZero(v[0]);
      EncodeAllHasNoZero(v[1..]);
    }
  }

  /** What is written for a list has no zero byte in it, so that it ends where a string of C does. */
  lemma NoZeroInside(v: seq<nat>)
    ensures 0 !in Encode(v)
  {
    EncodingHasNoZero(|v| % UINT32);
    EncodeAllHasNoZero(v);
  }
}
