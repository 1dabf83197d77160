/** SOAP calls: how parameters are written as elements, and how a parser of element events puts them
    back (section 3.2 of UPnP Device Architecture 1.0). */
module SoapModel {
  import opened Common
  import opened Decimal
  import opened Keys

  const MAX_PARAMS: nat := 8
  const NO_PARAM: nat := 255

  /* Names, compared without regard to case */

  function LowerChar(c: char): char {
    if 'A' <= c <= 'Z' then c + 32 as char else c
  }

  function Lower(s: string): (t: string)
    ensures |t| == |s|
  {
    seq(|s|, i requires 0 <= i < |s| => LowerChar(s[i]))
  }

  predicate Same(a: string, b: string) {
    Lower(a) == Lower(b)
  }

  predicate Sorted(v: seq<string>) {
    forall i, j | 0 <= i < j < |v| :: StrLess(Lower(v[i]), Lower(v[j]))
  }

  /** The place of a name, or the number of names. */
  function Find(v: seq<string>, name: string): (i: nat)
    ensures i <= |v| && (i < |v| ==> Same(v[i], name))
    ensures forall j | 0 <= j < i :: !Same(v[j], name)
  {
    if v == [] then 0 else if Same(v[0], name) then 0 else Find(v[1..], name) + 1
  }

  /** The place of a text in an enumeration, compared exactly. */
  function ParseEnum(s: string, v: seq<string>): (i: nat)
    ensures i <= |v| && (i < |v| ==> v[i] == s)
    ensures forall j | 0 <= j < i :: v[j] != s
  {
    if v == [] then 0 else if v[0] == s then 0 else ParseEnum(s, v[1..]) + 1
  }

  predicate ParseBool(s: string) {
    s == "1" || (s != "0" && (Same(s, "true") || (!Same(s, "false") && Same(s, "yes"))))
  }

  /* Parameters */

  datatype Type = BOOL | I8 | UI8 | I16 | UI16 | I32 | UI32 | STRING | ENUM(which: nat)

  datatype Data = Data(params: seq<string>, types: seq<Type>, enums: seq<seq<string>>)

  /** The slots, by size. */
  datatype Params = Params(bytes: seq<nat>, shorts: seq<nat>, ints: seq<nat>, strings: seq<string>)

  datatype Width = Byte | Short | Int | Text

  function WidthOf(t: Type): Width {
    match t
    case BOOL => Byte case I8 => Byte case UI8 => Byte
    case I16 => Short case UI16 => Short
    case STRING => Text
    case _ => Int
  }

  predicate Shaped(p: Params) {
    && |p.bytes| == |p.shorts| == |p.ints| == |p.strings| == MAX_PARAMS
    && (forall i | 0 <= i < MAX_PARAMS :: p.bytes[i] < 0x100)
    && (forall i | 0 <= i < MAX_PARAMS :: p.shorts[i] < 0x1_0000)
    && (forall i | 0 <= i < MAX_PARAMS :: p.ints[i] < UINT32)
  }

  predicate WellFormed(d: Data) {
    && |d.types| == |d.params| <= NO_PARAM
    && Sorted(d.params)
    && (forall i | 0 <= i < |d.params| :: ':' !in d.params[i])
    && (forall i | 0 <= i < |d.types| :: d.types[i].ENUM? ==> d.types[i].which < |d.enums|)
  }

  /** How many of the first `k` parameters are of a width. */
  function Count(d: Data, args: seq<nat>, k: nat, w: Width): (n: nat)
    requires k <= |args| && AreParams(d, args)
    ensures n <= k
  {
    if k == 0 then 0 else Count(d, args, k - 1, w) + (if WidthOf(TypeOf(d, args, k - 1)) == w then 1 else 0)
  }

  predicate AreParams(d: Data, args: seq<nat>) {
    |d.types| == |d.params| && forall i | 0 <= i < |args| :: args[i] < |d.params|
  }

  function TypeOf(d: Data, args: seq<nat>, k: nat): Type
    requires k < |args| && AreParams(d, args)
  {
    d.types[args[k]]
  }

  /** The slot of parameter `k`: the next of its width. */
  function Slot(d: Data, args: seq<nat>, k: nat): nat
    requires k < |args| && AreParams(d, args)
  {
    Count(d, args, k, WidthOf(TypeOf(d, args, k)))
  }

  /** The parameters of a call: distinct, and no more of a width than there are slots. */
  predicate GoodArgs(d: Data, args: seq<nat>) {
    && AreParams(d, args)
    && (forall i, j | 0 <= i < j < |args| :: args[i] != args[j])
    && forall k | 0 <= k < |args| :: Slot(d, args, k) < MAX_PARAMS
  }

  /* Slots */

  datatype Value = Num(n: nat) | Str(s: string)

  function At(p: Params, w: Width, i: nat): Value
    requires Shaped(p) && i < MAX_PARAMS
  {
    match w
    case Byte => Num(p.bytes[i])
    case Short => Num(p.shorts[i])
    case Int => Num(p.ints[i])
    case Text => Str(p.strings[i])
  }

  predicate Suits(w: Width, v: Value) {
    match w
    case Byte => v.Num? && v.n < 0x100
    case Short => v.Num? && v.n < 0x1_0000
    case Int => v.Num? && v.n < UINT32
    case Text => v.Str?
  }

  function Store(p: Params, w: Width, i: nat, v: Value): (q: Params)
    requires Shaped(p) && i < MAX_PARAMS && Suits(w, v)
    ensures Shaped(q) && At(q, w, i) == v
    ensures forall u: Width, j: nat | j < MAX_PARAMS && (u != w || j != i) :: At(q, u, j) == At(p, u, j)
  {
    match w
    case Byte => p.(bytes := p.bytes[i := v.n])
    case Short => p.(shorts := p.shorts[i := v.n])
    case Int => p.(ints := p.ints[i := v.n])
    case Text => p.(strings := p.strings[i := v.s])
  }

  /* Values as text */

  /** The text of a parameter; an enumerated value must be one of its enumeration's. */
  predicate Writable(d: Data, t: Type, v: Value) {
    Suits(WidthOf(t), v) && (t.ENUM? ==> t.which < |d.enums| && v.n < |d.enums[t.which]|)
  }

  function Written(d: Data, t: Type, v: Value): string
    requires Writable(d, t, v)
  {
    match t
    case BOOL => if v.n != 0 then "1" else "0"
    case STRING => v.s
    case ENUM(which) => d.enums[which][v.n]
    case I32 => Signed(if v.n < 0x8000_0000 then v.n else v.n - UINT32)
    case _ => Digits(v.n)
  }

  predicate Readable(d: Data, t: Type) {
    t.ENUM? ==> t.which < |d.enums| && |d.enums[t.which]| < UINT32
  }

  /** What a text is read as; a number is cut to its width. */
  function Read(d: Data, t: Type, s: string): (v: Value)
    requires Readable(d, t)
    ensures Suits(WidthOf(t), v)
  {
    match t
    case BOOL => Num(if ParseBool(s) then 1 else 0)
    case STRING => Str(s)
    case ENUM(which) => Num(ParseEnum(s, d.enums[which]))
    case I8 => Num(StrToL(s) % 0x100)
    case UI8 => Num(StrToUl(s) % 0x100)
    case I16 => Num(StrToL(s) % 0x1_0000)
    case UI16 => Num(StrToUl(s) % 0x1_0000)
    case I32 => Num(StrToL(s) % UINT32)
    case UI32 => Num(StrToUl(s) % UINT32)
  }

  /** The values that come back: a truth value must be 0 or 1, and the text of an enumerated value
      must not be that of an earlier one. */
  predicate Restorable(d: Data, t: Type, v: Value)
    requires Writable(d, t, v)
  {
    (t.BOOL? ==> v.n < 2)
    && (t.ENUM? ==> forall j | 0 <= j < v.n :: d.enums[t.which][j] != d.enums[t.which][v.n])
  }

  lemma SmallSigned(n: nat)
    requires n < UINT32
    ensures StrToL(Digits(n)) == n
  {
    assert Signed(n) == Digits(n);
    SignedRoundTrip(n);
  }

  lemma WordRoundTrip(n: nat)
    requires n < UINT32
    ensures StrToL(Signed(if n < 0x8000_0000 then n else n - UINT32)) % UINT32 == n
  {
    SignedRoundTrip(if n < 0x8000_0000 then n else n - UINT32);
  }

  lemma NumberRoundTrip(d: Data, t: Type, v: Value)
    requires Writable(d, t, v) && !t.BOOL? && !t.STRING? && !t.ENUM?
    ensures Read(d, t, Written(d, t, v)) == v
  {
    UnsignedRoundTrip(v.n);
    SmallSigned(v.n);
    WordRoundTrip(v.n);
  }

  lemma EnumRoundTrip(d: Data, t: Type, v: Value)
    requires Writable(d, t, v) && Readable(d, t) && t.ENUM?
    ensures Read(d, t, Written(d, t, v)) == v <==> Restorable(d, t, v)
  {
    var e := d.enums[t.which];
    var i := ParseEnum(e[v.n], e);
    assert i <= v.n;
  }

  /** A value is read back from its text exactly when it is one of those that come back. */
  lemma ValueRoundTrip(d: Data, t: Type, v: Value)
    requires Writable(d, t, v) && Readable(d, t)
    ensures Read(d, t, Written(d, t, v)) == v <==> Restorable(d, t, v)
  {
    if t.ENUM? {
      EnumRoundTrip(d, t, v);
    } else if !t.BOOL? && !t.STRING? {
      NumberRoundTrip(d, t, v);
    }
  }
}
