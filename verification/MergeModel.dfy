/** What the merged database shows of the databases behind it: each one's number in the top eight
    bits of its ids, and one root whose children are all their roots' children. */
module MergeModel {
  import opened Common
  import opened Bits
  import opened Children

  const TAG: nat := 0x100_0000
  const MAX_DATABASES: nat := 256

  const ID: nat := 0
  const CHILDREN: nat := 25
  const IDHIGH: nat := 26
  const IDPARENT: nat := 27
  const BROWSE_ROOT: nat := 0x100

  /** A record's fields; a field that was never set reads as zero or as no text. */
  datatype Record = Record(ints: map<nat, nat>, strings: map<nat, seq<Byte>>) {
    function Int(which: nat): nat {
      if which in ints then ints[which] else 0
    }

    function String(which: nat): seq<Byte> {
      if which in strings then strings[which] else []
    }
  }

  /** The place a database was given; removing a database leaves its place empty. */
  datatype Slot = Absent | Present(records: seq<Record>)

  /* Queries */

  datatype Comparison = EQ | NE | GT | LT

  datatype Restriction = Restriction(which: nat, rt: Comparison, ival: nat)

  predicate Meets(r: Record, q: Restriction) {
    match q.rt
    case EQ => r.Int(q.which) == q.ival
    case NE => r.Int(q.which) != q.ival
    case GT => r.Int(q.which) > q.ival
    case LT => r.Int(q.which) < q.ival
  }

  predicate MeetsAll(r: Record, q: seq<Restriction>) {
    forall i | 0 <= i < |q| :: Meets(r, q[i])
  }

  /** The first record at or after `i` that meets the restrictions, or the end. */
  function First(records: seq<Record>, q: seq<Restriction>, i: nat): (r: nat)
    requires i <= |records|
    ensures i <= r <= |records|
    ensures r < |records| ==> MeetsAll(records[r], q)
    ensures forall k | i <= k < r :: !MeetsAll(records[k], q)
    decreases |records| - i
  {
    if i == |records| || MeetsAll(records[i], q) then i else First(records, q, i + 1)
  }

  function ById(id: nat): seq<Restriction> {
    [Restriction(ID, EQ, id)]
  }

  /** Where a query goes: nowhere, to no records, or to one of the databases and behind which face. */
  datatype Face = Plain | Wrapped | Root
  datatype Route = Refused | NoRecords | To(db: nat, query: seq<Restriction>, face: Face)

  predicate IsPresent(slots: seq<Slot>, k: nat) {
    k < |slots| && slots[k].Present?
  }

  function RouteOf(slots: seq<Slot>, q: seq<Restriction>): (r: Route)
    ensures r.To? ==> IsPresent(slots, r.db)
  {
    if !IsPresent(slots, 0) then NoRecords
    else if |q| == 1 && q[0].which == ID && q[0].rt == EQ then
      var id, k := q[0].ival, q[0].ival / TAG;
      if !IsPresent(slots, k) then Refused
      else if k != 0 || id == BROWSE_ROOT then
        To(k, ById(id % TAG), if id == BROWSE_ROOT then Root else Wrapped)
      else To(0, q, Plain)
    else To(0, q, Plain)
  }

  /* Ids */

  function Tagged(m: nat, c: nat): nat {
    BitOr(c, m * TAG % UINT32)
  }

  function TagAll(m: nat, v: seq<nat>): (r: seq<nat>)
    ensures |r| == |v|
  {
    seq(|v|, i requires 0 <= i < |v| => Tagged(m, v[i]))
  }

  function Untagged(v: seq<nat>): (r: seq<nat>)
    ensures |r| == |v|
  {
    seq(|v|, i requires 0 <= i < |v| => v[i] % TAG)
  }

  predicate IsIdField(which: nat) {
    which == ID || which == IDHIGH || which == IDPARENT
  }

  /* Fields seen through a wrapped record, and written through it */

  function WrapInt(m: nat, which: nat, value: nat): nat {
    if IsIdField(which) && value != BROWSE_ROOT && value != 0 then Tagged(m, value) else value
  }

  function UnwrapInt(which: nat, value: nat): nat {
    if IsIdField(which) then value % TAG else value
  }

  function WrapString(m: nat, which: nat, s: seq<Byte>): seq<Byte> {
    if which == CHILDREN && s != [] then Encode(TagAll(m, Decode(s))) else s
  }

  function UnwrapString(which: nat, s: seq<Byte>): seq<Byte> {
    if which != CHILDREN || s == [] then s else Encode(Untagged(Decode(s)))
  }

  /* The root */

  /** The children of one database's own root, if it has one. */
  function OwnChildren(slot: Slot): seq<nat> {
    if slot.Absent? then []
    else
      var i := First(slot.records, ById(BROWSE_ROOT), 0);
      if i == |slot.records| then [] else Decode(slot.records[i].String(CHILDREN))
  }

  function Lists(slots: seq<Slot>): (r: seq<seq<nat>>)
    ensures |r| == |slots|
  {
    seq(|slots|, i requires 0 <= i < |slots| => OwnChildren(slots[i]))
  }

  /** The first `n` lists, each tagged with its number, one after another. */
  function TagJoin(lists: seq<seq<nat>>, n: nat): seq<nat>
    requires n <= |lists|
  {
    if n == 0 then [] else TagJoin(lists, n - 1) + TagAll(n - 1, lists[n - 1])
  }

  lemma JoinNext(lists: seq<seq<nat>>, n: nat, tagged: seq<nat>)
    requires n < |lists| && tagged == TagAll(n, lists[n])
    ensures TagJoin(lists, n + 1) == TagJoin(lists, n) + tagged
  {
  }

  /** The merged root's children, those of every database in turn. */
  function RootChildren(slots: seq<Slot>): seq<nat> {
    TagJoin(Lists(slots), |slots|)
  }

  function RootString(slots: seq<Slot>): seq<Byte> {
    Encode(RootChildren(slots))
  }

  function Untaggable(v: seq<nat>): seq<nat> {
    if v == [] then []
    else if v[0] > 0xFF_FFFF then Untaggable(v[1..])
    else [v[0]] + Untaggable(v[1..])
  }

  /** What is stored in database 0 when the root's field is written. */
  function RootStored(which: nat, s: seq<Byte>): seq<Byte> {
    if which != CHILDREN then s else Encode(Untaggable(Decode(s)))
  }

  /* Tags */

  lemma TagShift(m: nat, k: nat)
    requires k == 24
    ensures ShiftLeft(m, k) == m * TAG
  {
    ShiftIsProduct(m, k);
    ShiftAdds(1, 12, 12);
    assert ShiftLeft(1, 12) == 4096;
    ShiftIsProduct(4096, 12);
  }

  lemma OrTag(m: nat, c: nat, k: nat)
    requires k == 24
    ensures BitOr(c, m * TAG) == c % TAG + BitOr(c / TAG, m) * TAG
  {
    var high := ShiftRight(c, k);
    Split(c, k);
    TagShift(1, k);
    TagShift(high, k);
    TagShift(m, k);
    TagShift(BitOr(high, m), k);
    OrShifted(c, m, k);
    assert high == c / TAG && Low(c, k) == c % TAG;
  }

  lemma SmallTag(m: nat)
    requires m < MAX_DATABASES
    ensures m * TAG % UINT32 == m * TAG
  {
  }

  lemma Quotient(x: nat, low: nat, high: nat)
    requires low < TAG && x == low + high * TAG
    ensures x % TAG == low && x / TAG == high
  {
  }

  lemma TaggedValue(m: nat, c: nat)
    requires m < MAX_DATABASES
    ensures Tagged(m, c) == c % TAG + BitOr(c / TAG, m) * TAG
  {
    SmallTag(m);
    OrTag(m, c, 24);
  }

  /** A tagged id keeps the local id below the tag, and the number or'd into what was above. */
  lemma TaggedParts(m: nat, c: nat)
    requires m < MAX_DATABASES
    ensures Tagged(m, c) % TAG == c % TAG && Tagged(m, c) / TAG == BitOr(c / TAG, m)
    ensures Tagged(m, c) == c % TAG + BitOr(c / TAG, m) * TAG
    ensures c < TAG ==> Tagged(m, c) == c + m * TAG
  {
    TaggedValue(m, c);
    Quotient(Tagged(m, c), c % TAG, BitOr(c / TAG, m));
    OrZero(m);
  }

  /** Tagged ids are distinct, and each says whose it is. */
  lemma TaggedApart(m: nat, c: nat, n: nat, d: nat)
    requires m < MAX_DATABASES && n < MAX_DATABASES && c < TAG && d < TAG
    ensures Tagged(m, c) == Tagged(n, d) <==> m == n && c == d
    ensures Tagged(m, c) / TAG == m && Tagged(m, c) % TAG == c
  {
    TaggedParts(m, c);
    TaggedParts(n, d);
  }

  /** A tagged id is one that the children field can hold exactly when its database is one of the
      first 128 and it is not the zero id of the first. */
  lemma TaggedRepresentable(m: nat, c: nat)
    requires m < MAX_DATABASES && c < LIMIT
    ensures 0 < Tagged(m, c) < LIMIT <==> m < 128 && (m > 0 || c > 0)
  {
    TaggedParts(m, c);
    OrAtLeast(c / TAG, m);
    if m < 128 {
      assert ShiftLeft(1, 7) == 128;
      OrFits(c / TAG, m, 7);
    }
  }

  lemma TaggedFits(m: nat, c: nat)
    requires m < MAX_DATABASES && c < LIMIT
    ensures Tagged(m, c) < UINT32
  {
    TaggedParts(m, c);
    assert ShiftLeft(1, 8) == 256;
    OrFits(c / TAG, m, 8);
  }

  /* Integers through the wrapper */

  /** Writing back what was read through a wrapped record changes nothing, exactly when the field
      holds a local id or is not an id. */
  lemma IntWriteBack(m: nat, which: nat, value: nat)
    requires m < MAX_DATABASES
    ensures UnwrapInt(which, WrapInt(m, which, value)) == value <==> !IsIdField(which) || value < TAG
  {
    TaggedParts(m, value);
  }

  /* Children through the wrapper */

  predicate Local(v: seq<nat>) {
    forall i | 0 <= i < |v| :: 0 < v[i] < TAG
  }

  /** Past the 128th database no tagged id can be written. */
  lemma TaggedFar(m: nat, c: nat)
    requires 128 <= m < MAX_DATABASES
    ensures Tagged(m, c) >= LIMIT
  {
    TaggedParts(m, c);
    OrAtLeast(c / TAG, m);
  }

  lemma {:induction false} WrittenNone(v: seq<nat>)
    requires forall i | 0 <= i < |v| :: v[i] >= LIMIT
    ensures Written(v) == []
  {
    if v != [] { WrittenNone(v[1..]); }
  }

  /** What a client of a wrapped record reads as its children: its own, each tagged, or zeros for
      them if the database is not one of the first 128. */
  lemma WrappedChildren(m: nat, s: seq<Byte>)
    requires 0 < m < MAX_DATABASES
    ensures var v := Decode(s);
      Decode(WrapString(m, CHILDREN, s)) == if m < 128 then TagAll(m, v) else Zeros(|v|)
  {
    if s != [] {
      var v := Decode(s);
      DecodeBound(s);
      if m < 128 {
        forall i | 0 <= i < |v| ensures 0 < TagAll(m, v)[i] < LIMIT { TaggedRepresentable(m, v[i]); }
        RoundTrip(TagAll(m, v));
      } else {
        forall i | 0 <= i < |v| ensures TagAll(m, v)[i] >= LIMIT { TaggedFar(m, v[i]); }
        WrittenNone(TagAll(m, v));
        ReadsAsWritten(TagAll(m, v));
        assert [] + Zeros(|v|) == Zeros(|v|);
      }
    }
  }

  /** Writing those children back stores the list it came from, exactly when they are local ids, or
      past the 128th database all the id that is written for zero. */
  lemma ChildrenWriteBack(m: nat, s: seq<Byte>)
    requires 0 < m < MAX_DATABASES
    ensures Decode(UnwrapString(CHILDREN, WrapString(m, CHILDREN, s))) == Decode(s)
      <==> if m < 128 then Local(Decode(s)) else forall c <- Decode(s) :: c == 63
  {
    var v, t := Decode(s), WrapString(m, CHILDREN, s);
    WrappedChildren(m, s);
    DecodeBound(s);
    if m < 128 {
      forall i | 0 <= i < |v| ensures TagAll(m, v)[i] % TAG == v[i] % TAG { TaggedParts(m, v[i]); }
      assert Untagged(TagAll(m, v)) == Untagged(v);
      ReadsAsSeen(Untagged(v));
      SeenUntagged(v);
    } else {
      assert Untagged(Zeros(|v|)) == Zeros(|v|);
      ReadsAsSeen(Zeros(|v|));
      SeenZeros(v);
    }
    if t == [] {
      assert Decode(t) == [] && v == [];
    }
  }

  lemma SeenZeros(v: seq<nat>)
    ensures Seen(Zeros(|v|)) == v <==> forall c <- v :: c == 63
  {
    if Seen(Zeros(|v|)) != v {
      var i :| 0 <= i < |v| && Seen(Zeros(|v|))[i] != v[i];
      assert v[i] in v;
    }
  }

  lemma SeenUntagged(v: seq<nat>)
    ensures Seen(Untagged(v)) == v <==> Local(v)
  {
    if Local(v) {
      assert Seen(Untagged(v)) == v;
    } else {
      var i :| 0 <= i < |v| && !(0 < v[i] < TAG);
      assert Seen(Untagged(v))[i] < TAG && Seen(Untagged(v))[i] > 0;
    }
  }

  /* The merged root's children */

  predicate Holds(lists: seq<seq<nat>>, n: nat)
    requires n <= |lists|
  {
    forall k | 0 <= k < n :: ListFits(lists, k)
  }

  /** One database's children all have a place in the merged list. */
  predicate ListFits(lists: seq<seq<nat>>, k: nat)
    requires k < |lists|
  {
    forall c <- lists[k] :: k < 128 && (k > 0 || c > 0)
  }

  /** Every list is one that was read from a field. */
  ghost predicate Readable(lists: seq<seq<nat>>) {
    forall k | 0 <= k < |lists| :: ListRead(lists[k])
  }

  predicate ListRead(v: seq<nat>) {
    |v| <= MAX_CHILDREN && forall i | 0 <= i < |v| :: v[i] < LIMIT
  }

  lemma OwnChildrenBound(slot: Slot)
    ensures ListRead(OwnChildren(slot))
  {
    if slot.Present? {
      var i := First(slot.records, ById(BROWSE_ROOT), 0);
      if i < |slot.records| { DecodeBound(slot.records[i].String(CHILDREN)); }
    }
  }

  lemma ListsReadable(slots: seq<Slot>)
    ensures Readable(Lists(slots))
  {
    forall k | 0 <= k < |slots| ensures ListRead(Lists(slots)[k]) { OwnChildrenBound(slots[k]); }
  }

  lemma ListRepresentable(lists: seq<seq<nat>>, k: nat)
    requires k < |lists| <= MAX_DATABASES && ListRead(lists[k])
    ensures Representable(TagAll(k, lists[k])) <==> ListFits(lists, k)
  {
    var v := lists[k];
    forall i | 0 <= i < |v|
      ensures 0 < TagAll(k, v)[i] < LIMIT <==> k < 128 && (k > 0 || v[i] > 0)
    {
      TaggedRepresentable(k, v[i]);
    }
    if ListFits(lists, k) {
      forall i | 0 <= i < |v| ensures 0 < TagAll(k, v)[i] < LIMIT { assert v[i] in v; }
    }
    if Representable(TagAll(k, v)) {
      forall c | c in v ensures k < 128 && (k > 0 || c > 0) {
        var i :| 0 <= i < |v| && v[i] == c;
        assert 0 < TagAll(k, v)[i] < LIMIT;
      }
    }
  }

  lemma HoldsNext(lists: seq<seq<nat>>, n: nat)
    requires n < |lists|
    ensures Holds(lists, n + 1) <==> Holds(lists, n) && ListFits(lists, n)
  {
  }

  lemma BothRepresentable(a: seq<nat>, b: seq<nat>)
    ensures Representable(a + b) <==> Representable(a) && Representable(b)
  {
    if Representable(a + b) {
      forall i | 0 <= i < |a| ensures 0 < a[i] < LIMIT { assert (a + b)[i] == a[i]; }
      forall i | 0 <= i < |b| ensures 0 < b[i] < LIMIT { assert (a + b)[|a| + i] == b[i]; }
    }
  }

  lemma {:induction false} RootRepresentable(lists: seq<seq<nat>>, n: nat)
    requires n <= |lists| <= MAX_DATABASES && Readable(lists)
    ensures Representable(TagJoin(lists, n)) <==> Holds(lists, n)
  {
    if n > 0 {
      RootRepresentable(lists, n - 1);
      HoldsNext(lists, n - 1);
      ListRepresentable(lists, n - 1);
      BothRepresentable(TagJoin(lists, n - 1), TagAll(n - 1, lists[n - 1]));
    }
  }

  lemma {:induction false} RootSize(lists: seq<seq<nat>>, n: nat)
    requires n <= |lists| && Readable(lists)
    ensures |TagJoin(lists, n)| <= n * MAX_CHILDREN
  {
    if n > 0 {
      RootSize(lists, n - 1);
    }
  }

  lemma JoinReads(lists: seq<seq<nat>>)
    requires |lists| <= MAX_DATABASES && Readable(lists)
    ensures var all := TagJoin(lists, |lists|);
      Decode(Encode(all)) == all <==> |all| <= MAX_CHILDREN && Holds(lists, |lists|)
  {
    RootSize(lists, |lists|);
    RootRepresentable(lists, |lists|);
    RoundTrip(TagJoin(lists, |lists|));
  }

  /** The merged root's field reads as the children of every database's root, each tagged, in order of
      the databases, exactly when there are not too many of them, none is in a database after the
      first 128 and none is the zero id of the first. */
  lemma RootReads(slots: seq<Slot>)
    requires |slots| <= MAX_DATABASES
    ensures var all := RootChildren(slots);
      Decode(RootString(slots)) == all <==> |all| <= MAX_CHILDREN && Holds(Lists(slots), |slots|)
  {
    ListsReadable(slots);
    JoinReads(Lists(slots));
  }

  /** Only the first database's children have no tag. */
  lemma TagsOf(m: nat, v: seq<nat>)
    requires m < MAX_DATABASES
    ensures m == 0 ==> TagAll(m, v) == v
    ensures m > 0 ==> forall i | 0 <= i < |v| :: TAG <= TagAll(m, v)[i]
  {
    forall i | 0 <= i < |v| ensures if m == 0 then Tagged(m, v[i]) == v[i] else TAG <= Tagged(m, v[i]) {
      TaggedParts(m, v[i]);
      OrAtLeast(v[i] / TAG, m);
      OrZero(v[i] / TAG);
    }
  }

  predicate AllTagged(v: seq<nat>) {
    forall i | 0 <= i < |v| :: TAG <= v[i]
  }

  /** The merged children after those of the first database. */
  function Others(lists: seq<seq<nat>>, n: nat): seq<nat>
    requires 0 < n <= |lists|
  {
    if n == 1 then [] else Others(lists, n - 1) + TagAll(n - 1, lists[n - 1])
  }

  lemma PartsNext(own: seq<nat>, before: seq<nat>, others: seq<nat>, more: seq<nat>)
    requires before == own + others && AllTagged(others) && AllTagged(more)
    ensures before + more == own + (others + more) && AllTagged(others + more)
  {
  }

  /** The first database's children come first and unchanged, and every other child has a tag. */
  lemma {:induction false} RootParts(lists: seq<seq<nat>>, n: nat)
    requires 0 < n <= |lists| <= MAX_DATABASES
    ensures TagJoin(lists, n) == lists[0] + Others(lists, n) && AllTagged(Others(lists, n))
  {
    TagsOf(n - 1, lists[n - 1]);
    if n == 1 {
      FirstParts(lists);
    } else {
      RootParts(lists, n - 1);
      PartsNext(lists[0], TagJoin(lists, n - 1), Others(lists, n - 1), TagAll(n - 1, lists[n - 1]));
    }
  }

  lemma FirstParts(lists: seq<seq<nat>>)
    requires 0 < |lists| && TagAll(0, lists[0]) == lists[0]
    ensures TagJoin(lists, 1) == lists[0] + Others(lists, 1)
  {
    var own := lists[0];
    assert TagJoin(lists, 0) == [] && [] + own == own == own + [];
  }

  lemma JoinThree(a: seq<nat>, b: seq<nat>, c: seq<nat>)
    ensures (a + b) + c == a + (b + c)
  {
  }

  lemma {:induction false} UntaggableJoin(a: seq<nat>, b: seq<nat>)
    ensures Untaggable(a + b) == Untaggable(a) + Untaggable(b)
  {
    if a == [] {
      assert [] + b == b;
    } else {
      assert (a + b)[1..] == a[1..] + b;
      UntaggableJoin(a[1..], b);
      if a[0] < TAG { JoinThree([a[0]], Untaggable(a[1..]), Untaggable(b)); }
    }
  }

  lemma {:induction false} UntaggableNone(v: seq<nat>)
    requires AllTagged(v)
    ensures Untaggable(v) == []
  {
    if v != [] { UntaggableNone(v[1..]); }
  }

  lemma {:induction false} UntaggableBelow(v: seq<nat>)
    ensures |Untaggable(v)| <= |v|
    ensures forall c <- Untaggable(v) :: c in v && c < TAG
  {
    if v != [] { UntaggableBelow(v[1..]); }
  }

  lemma {:induction false} UntaggableKeeps(v: seq<nat>)
    requires forall i | 0 <= i < |v| :: v[i] < TAG
    ensures Untaggable(v) == v
  {
    if v != [] {
      UntaggableKeeps(v[1..]);
      assert v == [v[0]] + v[1..];
    }
  }

  lemma {:induction false} WrittenJoin(a: seq<nat>, b: seq<nat>)
    ensures Written(a + b) == Written(a) + Written(b)
  {
    if a == [] {
      assert [] + b == b;
    } else {
      assert (a + b)[1..] == a[1..] + b;
      WrittenJoin(a[1..], b);
      JoinThree(if a[0] < LIMIT then [a[0]] else [], Written(a[1..]), Written(b));
    }
  }

  lemma {:induction false} WrittenTagged(v: seq<nat>)
    requires AllTagged(v)
    ensures AllTagged(Written(v))
  {
    if v != [] { WrittenTagged(v[1..]); }
  }

  lemma KeptOfRead(own: seq<nat>, w: seq<nat>, k: nat, read: seq<nat>)
    requires AllTagged(w) && read == Seen(own + w) + Zeros(k)
    ensures Untaggable(read) == Untaggable(Seen(own)) + Zeros(k)
  {
    assert Seen(own + w) == Seen(own) + Seen(w);
    UntaggableJoin(Seen(own) + Seen(w), Zeros(k));
    UntaggableJoin(Seen(own), Seen(w));
    UntaggableNone(Seen(w));
    UntaggableKeeps(Zeros(k));
    assert Untaggable(Seen(own)) + [] == Untaggable(Seen(own));
  }

  lemma WrittenOfParts(own: seq<nat>, others: seq<nat>, all: seq<nat>)
    requires (forall i | 0 <= i < |own| :: own[i] < LIMIT) && all == own + others
    ensures Written(all) == own + Written(others)
    ensures |all| - |Written(all)| == |others| - |Written(others)|
  {
    WrittenAll(own);
    WrittenJoin(own, others);
  }

  lemma SameRead(w: seq<nat>, k: nat, w': seq<nat>, k': nat, read: seq<nat>)
    requires read == Seen(w) + Zeros(k) && w == w' && k == k'
    ensures read == Seen(w') + Zeros(k')
  {
  }

  /** What database 0 would keep of a list that starts with its own children: those without a tag,
      and a zero for every child after them that nothing was written for. */
  lemma KeptOfParts(own: seq<nat>, others: seq<nat>, all: seq<nat>)
    requires (forall i | 0 <= i < |own| :: own[i] < LIMIT) && all == own + others && |all| <= MAX_CHILDREN
    requires AllTagged(others)
    ensures Untaggable(Decode(Encode(all))) == Untaggable(Seen(own)) + Zeros(|others| - |Written(others)|)
  {
    var w, k := Written(others), |others| - |Written(others)|;
    WrittenOfParts(own, others, all);
    DecodedParts(own, w, k, all);
    WrittenTagged(others);
    KeptOfRead(own, w, k, Decode(Encode(all)));
  }

  lemma DecodedParts(own: seq<nat>, w: seq<nat>, k: nat, all: seq<nat>)
    requires |all| <= MAX_CHILDREN && Written(all) == own + w && |all| - |Written(all)| == k
    ensures Decode(Encode(all)) == Seen(own + w) + Zeros(k)
  {
    ReadsAsWritten(all);
    SameRead(Written(all), |all| - |Written(all)|, own + w, k, Decode(Encode(all)));
  }

  /** How many of the merged children nothing is written for: those past the 128th database. */
  function Unwritten(lists: seq<seq<nat>>): nat
    requires 0 < |lists|
  {
    var others := Others(lists, |lists|);
    |others| - |Written(others)|
  }

  predicate NoneFar(lists: seq<seq<nat>>, n: nat)
    requires n <= |lists|
  {
    forall k | 128 <= k < n :: lists[k] == []
  }

  lemma WrittenOf(m: nat, v: seq<nat>)
    requires m < MAX_DATABASES && forall i | 0 <= i < |v| :: v[i] < LIMIT
    ensures |Written(TagAll(m, v))| == if m < 128 then |v| else 0
  {
    var tagged := TagAll(m, v);
    if m < 128 {
      forall i | 0 <= i < |v| ensures tagged[i] < LIMIT { TaggedBelow(m, v[i]); }
      WrittenAll(tagged);
    } else {
      forall i | 0 <= i < |v| ensures tagged[i] >= LIMIT { TaggedFar(m, v[i]); }
      WrittenNone(tagged);
    }
  }

  lemma TaggedBelow(m: nat, c: nat)
    requires m < 128 && c < LIMIT
    ensures Tagged(m, c) < LIMIT
  {
    TaggedParts(m, c);
    assert ShiftLeft(1, 7) == 128;
    OrFits(c / TAG, m, 7);
  }

  lemma {:induction false} OthersWritten(lists: seq<seq<nat>>, n: nat)
    requires 0 < n <= |lists| <= MAX_DATABASES && Readable(lists)
    ensures |Others(lists, n)| == |Written(Others(lists, n))| <==> NoneFar(lists, n)
  {
    if n > 1 {
      var before, v := Others(lists, n - 1), lists[n - 1];
      OthersWritten(lists, n - 1);
      WrittenOf(n - 1, v);
      WrittenJoin(before, TagAll(n - 1, v));
      assert NoneFar(lists, n) <==> NoneFar(lists, n - 1) && (n - 1 < 128 || v == []);
    }
  }

  /** What is kept is as it was read exactly when the list was local and nothing was put after it. */
  lemma KeptIfLocal(own: seq<nat>, k: nat)
    ensures Seen(Untaggable(Seen(own)) + Zeros(k)) == own <==> Local(own) && k == 0
    ensures |Untaggable(Seen(own))| <= |own|
    ensures forall i | 0 <= i < |Untaggable(Seen(own)) + Zeros(k)| :: (Untaggable(Seen(own)) + Zeros(k))[i] < TAG
  {
    var mine := Untaggable(Seen(own));
    var kept := mine + Zeros(k);
    UntaggableBelow(Seen(own));
    forall i | 0 <= i < |kept| ensures kept[i] < TAG && 0 < Seen(kept)[i] < TAG {
      assert i < |mine| ==> mine[i] in mine;
    }
    if Local(own) {
      assert Seen(own) == own;
      UntaggableKeeps(own);
      if k == 0 { assert kept == own; }
    }
  }

  lemma KeptOfList(own: seq<nat>, others: seq<nat>, all: seq<nat>)
    requires (forall i | 0 <= i < |own| :: own[i] < LIMIT) && all == own + others && |all| < LIMIT
    requires AllTagged(others)
    ensures Untaggable(Decode(Encode(all)))
      == if |all| > MAX_CHILDREN then [] else Untaggable(Seen(own)) + Zeros(|others| - |Written(others)|)
  {
    if |all| > MAX_CHILDREN {
      DecodeList(all);
    } else {
      KeptOfParts(own, others, all);
    }
  }

  lemma JoinKept(lists: seq<seq<nat>>)
    requires 0 < |lists| <= MAX_DATABASES && Readable(lists)
    ensures var all := TagJoin(lists, |lists|);
      Untaggable(Decode(Encode(all)))
      == if |all| > MAX_CHILDREN then [] else Untaggable(Seen(lists[0])) + Zeros(Unwritten(lists))
  {
    RootSize(lists, |lists|);
    RootParts(lists, |lists|);
    KeptOfList(lists[0], Others(lists, |lists|), TagJoin(lists, |lists|));
  }

  lemma KeptBecomes(own: seq<nat>, k: nat, kept: seq<nat>)
    requires kept == Untaggable(Seen(own)) + Zeros(k) && |kept| <= MAX_CHILDREN
    ensures Decode(Encode(kept)) == Seen(kept)
  {
    KeptIfLocal(own, k);
    ReadsAsSeen(kept);
  }

  /** What database 0's list becomes when the merged children are written back through the root:
      empty if there were too many of them to read, and otherwise its own without tags, and then 63
      for every child past the 128th database. */
  lemma RootBecomes(slots: seq<Slot>)
    requires 0 < |slots| <= MAX_DATABASES
    ensures var own, all := OwnChildren(slots[0]), RootChildren(slots);
      Decode(RootStored(CHILDREN, RootString(slots)))
      == if |all| > MAX_CHILDREN then [] else Seen(Untaggable(Seen(own)) + Zeros(Unwritten(Lists(slots))))
  {
    var lists := Lists(slots);
    ListsReadable(slots);
    JoinKept(lists);
    RootParts(lists, |lists|);
    if |TagJoin(lists, |lists|)| <= MAX_CHILDREN {
      UntaggableBelow(Seen(lists[0]));
      KeptBecomes(lists[0], Unwritten(lists), Untaggable(Seen(lists[0])) + Zeros(Unwritten(lists)));
    }
  }

  /** Writing the merged children back through the root leaves database 0's own list as it was,
      exactly when that list holds local ids and either all the children could be written and read
      or, if there were too many to read, there was nothing in it to lose. */
  lemma RootWriteBack(slots: seq<Slot>)
    requires 0 < |slots| <= MAX_DATABASES
    ensures var own, all := OwnChildren(slots[0]), RootChildren(slots);
      Decode(RootStored(CHILDREN, RootString(slots))) == own
      <==> Local(own) && if |all| <= MAX_CHILDREN then NoneFar(Lists(slots), |slots|) else own == []
  {
    RootBecomes(slots);
    ListsReadable(slots);
    KeptIfLocal(OwnChildren(slots[0]), Unwritten(Lists(slots)));
    OthersWritten(Lists(slots), |slots|);
  }

  /* Two ways to lose */

  /** A database with just a root that lists `v`. */
  function RootListing(v: seq<nat>): Slot {
    Present([Record(map[ID := BROWSE_ROOT], map[CHILDREN := Encode(v)])])
  }

  lemma ListingRead(v: seq<nat>)
    requires |v| <= MAX_CHILDREN && Representable(v)
    ensures OwnChildren(RootListing(v)) == v
  {
    var slot := RootListing(v);
    assert Meets(slot.records[0], ById(BROWSE_ROOT)[0]);
    assert First(slot.records, ById(BROWSE_ROOT), 0) == 0;
    RoundTrip(v);
  }

  /** With one child in the first database and 20000 in the second, the first loses its child. */
  lemma TooManyClears()
    ensures var slots := [RootListing([1]), RootListing(seq(MAX_CHILDREN, _ => 1))];
      && OwnChildren(slots[0]) == [1] && |RootChildren(slots)| == 20001
      && Decode(RootStored(CHILDREN, RootString(slots))) == []
  {
    var many := seq(MAX_CHILDREN, _ => 1);
    var slots := [RootListing([1]), RootListing(many)];
    ListingRead([1]);
    ListingRead(many);
    JoinTwo(Lists(slots), [1], many);
    RootBecomes(slots);
  }

  lemma JoinTwo(lists: seq<seq<nat>>, a: seq<nat>, b: seq<nat>)
    requires |lists| == 2 && lists[0] == a && lists[1] == b
    ensures |TagJoin(lists, 2)| == |a| + |b|
  {
    assert |TagJoin(lists, 1)| == |a|;
  }

  /** One database in the first place and one in the 129th, and none between. */
  function FarSlots(): seq<Slot> {
    [RootListing([5])] + seq(127, _ => Absent) + [RootListing([3])]
  }

  lemma FarParts(lists: seq<seq<nat>>)
    requires |lists| == 129 && lists[0] == [5] && lists[128] == [3] && forall k | 1 <= k < 128 :: lists[k] == []
    ensures |TagJoin(lists, 129)| == 2 && Unwritten(lists) == 1
  {
    NoOthers(lists, 128);
    WrittenOf(128, [3]);
    var far := TagAll(128, [3]);
    assert Others(lists, 129) == Others(lists, 128) + far == [] + far == far;
    RootParts(lists, 129);
  }

  lemma FiveAnd63()
    ensures Seen(Untaggable(Seen([5])) + Zeros(1)) == [5, 63]
  {
    UntaggableKeeps([5]);
    assert Seen([5]) == [5] && [5] + Zeros(1) == [5, 0];
  }

  lemma FarPlaces()
    ensures |FarSlots()| == 129 && FarSlots()[0] == RootListing([5]) && FarSlots()[128] == RootListing([3])
    ensures forall k | 1 <= k < 128 :: FarSlots()[k] == Absent
  {
  }

  lemma FarLists()
    ensures var lists := Lists(FarSlots());
      |lists| == 129 && lists[0] == [5] && lists[128] == [3] && forall k | 1 <= k < 128 :: lists[k] == []
  {
    FarPlaces();
    ListingRead([5]);
    ListingRead([3]);
  }

  /** With a child in each, the first database gains the child 63. */
  lemma FarChildAdds63()
    ensures OwnChildren(FarSlots()[0]) == [5] && Decode(RootStored(CHILDREN, RootString(FarSlots()))) == [5, 63]
  {
    FarLists();
    FarParts(Lists(FarSlots()));
    FiveAnd63();
    RootBecomes(FarSlots());
  }

  lemma {:induction false} NoOthers(lists: seq<seq<nat>>, n: nat)
    requires 0 < n <= |lists| && forall k | 1 <= k < n :: lists[k] == []
    ensures Others(lists, n) == []
  {
    if n > 1 {
      NoOthers(lists, n - 1);
      assert TagAll(n - 1, lists[n - 1]) == [];
    }
  }

  /* Following an id */

  predicate HasId(slot: Slot, id: nat) {
    slot.Present? && First(slot.records, ById(id), 0) < |slot.records|
  }

  /** The id that the answer to a query for `id` says it has, if there is an answer. */
  function Reported(slots: seq<Slot>, id: nat): Option<nat> {
    match RouteOf(slots, ById(id))
    case To(k, q, face) =>
      var records := slots[k].records;
      var i := First(records, q, 0);
      if i == |records| then None
      else if face == Wrapped then Some(WrapInt(k, ID, records[i].Int(ID)))
      else Some(records[i].Int(ID))
    case _ => None
  }

  /** A query for an id is answered from the database it names, by the record with that local id; and
      the answer has the id asked for, unless it is another database's root or its zero id. */
  lemma QueryReports(slots: seq<Slot>, id: nat)
    requires |slots| <= MAX_DATABASES && IsPresent(slots, 0) && IsPresent(slots, id / TAG)
    ensures Reported(slots, id).Some? <==> HasId(slots[id / TAG], id % TAG)
    ensures Reported(slots, id).Some? ==>
      (Reported(slots, id).value == id <==> id / TAG == 0 || (id % TAG != 0 && id % TAG != BROWSE_ROOT))
  {
    var k, c := id / TAG, id % TAG;
    var records := slots[k].records;
    var i := First(records, ById(c), 0);
    if i < |records| {
      assert Meets(records[i], ById(c)[0]);
      TaggedParts(k, c);
    }
  }

  lemma TaggedIn(k: nat, v: seq<nat>, c: nat)
    requires c in v
    ensures Tagged(k, c) in TagAll(k, v)
  {
    var i :| 0 <= i < |v| && v[i] == c;
    assert TagAll(k, v)[i] == Tagged(k, c);
  }

  lemma {:induction false} RootLists(lists: seq<seq<nat>>, k: nat, c: nat, n: nat)
    requires k < n <= |lists| && c in lists[k]
    ensures Tagged(k, c) in TagJoin(lists, n)
  {
    var last := TagAll(n - 1, lists[n - 1]);
    assert TagJoin(lists, n) == TagJoin(lists, n - 1) + last;
    if k == n - 1 {
      TaggedIn(k, lists[k], c);
    } else {
      RootLists(lists, k, c, n - 1);
    }
  }

  /** Every child of any database's root is a child of the merged root under its tagged id, and a
      query for that id finds it and says so. */
  lemma ChildrenReachable(slots: seq<Slot>, k: nat, c: nat)
    requires |slots| <= MAX_DATABASES && IsPresent(slots, 0) && k < |slots|
    requires c in OwnChildren(slots[k]) && 0 < c < TAG && c != BROWSE_ROOT && HasId(slots[k], c)
    ensures Tagged(k, c) in RootChildren(slots)
    ensures Reported(slots, Tagged(k, c)) == Some(Tagged(k, c))
  {
    RootLists(Lists(slots), k, c, |slots|);
    TaggedApart(k, c, k, c);
    QueryReports(slots, Tagged(k, c));
  }
}
