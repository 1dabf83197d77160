/** Records with lazily converted fields, and the indexes kept beside them, as functions on values.

    A field's string index and integer index are one map here, as a key says which
    of the two it belongs to.
 */
module SteamModel {
  import opened Common
  import opened Decimal
  import opened Keys

  datatype FieldType = StringField | IntField

  datatype FieldInfo = FieldInfo(ftype: FieldType, indexed: bool)

  /** Either form of the value, or both, may be valid. */
  datatype FieldValue = FieldValue(s: string, i: nat, svalid: bool, ivalid: bool)

  const UNSET := FieldValue("", 0, false, false)

  type Row = seq<FieldValue>
  type Index = map<Key, set<nat>>

  datatype Db = Db(fields: seq<FieldInfo>, rows: map<nat, Row>, index: seq<Index>, next: nat)

  function Create(fields: seq<FieldInfo>): Db {
    Db(fields, map[], seq(|fields|, _ => map[]), 0)
  }

  /* What a caller can see of a field */

  function IntOf(v: FieldValue): nat {
    if v.ivalid then v.i else if v.svalid then ParseUint32(v.s) else 0
  }

  function StringOf(v: FieldValue): string {
    if v.svalid then v.s else if v.ivalid && v.i != 0 then Digits(v.i) else ""
  }

  /** The key under which an indexed field of this type is to be found. */
  function KeyOf(t: FieldType, v: FieldValue): Option<Key> {
    match t
    case IntField => if v.ivalid then Some(IntKey(v.i)) else None
    case StringField => if v.svalid then Some(StrKey(v.s)) else None
  }

  /* Indexes */

  function Unlink(ix: Index, key: Option<Key>, r: nat): Index {
    if key.None? || key.value !in ix then ix
    else if ix[key.value] - {r} == {} then ix - {key.value}
    else ix[key.value := ix[key.value] - {r}]
  }

  function Link(ix: Index, key: Key, r: nat): Index {
    ix[key := (if key in ix then ix[key] else {}) + {r}]
  }

  /* Setting a field */

  function WithString(info: FieldInfo, v: FieldValue, s: string): FieldValue {
    if v.svalid && v.s == s then v
    else match info.ftype
      case IntField => FieldValue(Digits(ParseUint32(s)), ParseUint32(s), true, true)
      case StringField => FieldValue(s, v.i, true, false)
  }

  function WithInteger(info: FieldInfo, v: FieldValue, n: nat): FieldValue {
    if info.indexed && info.ftype == StringField then FieldValue(Digits(n), n, true, true)
    else FieldValue(v.s, n, false, true)
  }

  predicate HasField(db: Db, r: nat, f: nat) {
    r in db.rows && f < |db.rows[r]| == |db.fields| == |db.index|
  }

  function Field(db: Db, r: nat, f: nat): FieldValue {
    if HasField(db, r, f) then db.rows[r][f] else UNSET
  }

  /** Replace a field's value and move the record to its new key, if it has one. */
  function Store(db: Db, r: nat, f: nat, v: FieldValue): Db
    requires HasField(db, r, f)
  {
    var info := db.fields[f];
    var was, now := KeyOf(info.ftype, db.rows[r][f]), KeyOf(info.ftype, v);
    var db' := db.(rows := db.rows[r := db.rows[r][f := v]]);
    if info.indexed && now.Some? then
      db'.(index := db.index[f := Link(Unlink(db.index[f], was, r), now.value, r)])
    else db'
  }

  function SetString(db: Db, r: nat, f: nat, s: string): Db
    requires HasField(db, r, f)
  {
    var v := db.rows[r][f];
    if v.svalid && v.s == s then db else Store(db, r, f, WithString(db.fields[f], v, s))
  }

  function SetInteger(db: Db, r: nat, f: nat, n: nat): Db
    requires HasField(db, r, f)
  {
    Store(db, r, f, WithInteger(db.fields[f], db.rows[r][f], n))
  }

  /** Reading an integer keeps the converted value, without touching any index. */
  function Cache(db: Db, r: nat, f: nat): Db
    requires HasField(db, r, f)
  {
    var v := db.rows[r][f];
    if !v.ivalid && v.svalid then
      db.(rows := db.rows[r := db.rows[r][f := v.(i := ParseUint32(v.s), ivalid := true)]])
    else db
  }

  function Add(db: Db): Db {
    db.(rows := db.rows[db.next := seq(|db.fields|, _ => UNSET)], next := db.next + 1)
  }

  /** Take a record out of the indexes of its fields from `f` on. */
  function UnlinkFrom(db: Db, r: nat, f: nat): Db
    requires r in db.rows && |db.rows[r]| == |db.fields| == |db.index| && f <= |db.fields|
    decreases |db.fields| - f
  {
    if f == |db.fields| then db
    else
      var key := KeyOf(db.fields[f].ftype, db.rows[r][f]);
      UnlinkFrom(if db.fields[f].indexed then db.(index := db.index[f := Unlink(db.index[f], key, r)]) else db, r, f + 1)
  }

  function Delete(db: Db, r: nat): Db
    requires r in db.rows && |db.rows[r]| == |db.fields| == |db.index|
  {
    var db' := UnlinkFrom(db, r, 0);
    db'.(rows := db'.rows - {r})
  }

  /* The invariant */

  predicate Shaped(db: Db) {
    && |db.index| == |db.fields|
    && (forall r | r in db.rows :: r < db.next && |db.rows[r]| == |db.fields|)
  }

  /** The keys a field's index ought to hold: none, unless the field is indexed. */
  function Column(db: Db, f: nat): map<nat, Key> {
    map r | r in db.rows && HasField(db, r, f) && db.fields[f].indexed && KeyOf(db.fields[f].ftype, db.rows[r][f]).Some?
      :: KeyOf(db.fields[f].ftype, db.rows[r][f]).value
  }

  /** An index holds each record under its key and nothing else, and has no empty bucket. */
  ghost predicate Agrees(ix: Index, column: map<nat, Key>) {
    && (forall k, r :: k in ix && r in ix[k] ==> r in column && column[r] == k)
    && (forall r :: r in column ==> column[r] in ix && r in ix[column[r]])
    && (forall k :: k in ix ==> ix[k] != {})
  }

  /** A converted value agrees with what it was converted from, and on an indexed field the
      form that is not indexed is valid only if the indexed one is.  An integer field's text is
      a numeral. */
  predicate Coherent(info: FieldInfo, v: FieldValue) {
    && (v.svalid && v.ivalid ==> v.i == ParseUint32(v.s))
    && (info.ftype == IntField && v.svalid ==> v.ivalid && v.s == Digits(v.i))
    && (info.indexed && (v.svalid || v.ivalid) ==> KeyOf(info.ftype, v).Some?)
    && v.i < UINT32
  }

  ghost predicate AllCoherent(db: Db) {
    forall r: nat, f: nat :: HasField(db, r, f) ==> Coherent(db.fields[f], db.rows[r][f])
  }

  ghost predicate AllAgree(db: Db)
    requires |db.index| == |db.fields|
  {
    forall f: nat :: f < |db.index| ==> Agrees(db.index[f], Column(db, f))
  }

  ghost predicate Consistent(db: Db) {
    Shaped(db) && AllCoherent(db) && AllAgree(db)
  }

  /** The same to every reader. */
  ghost predicate SameView(a: Db, b: Db) {
    && b.fields == a.fields && b.index == a.index && b.next == a.next
    && b.rows.Keys == a.rows.Keys
    && (forall r: nat, f: nat :: HasField(a, r, f) <==> HasField(b, r, f))
    && (forall r: nat, f: nat :: HasField(a, r, f) ==>
          && IntOf(b.rows[r][f]) == IntOf(a.rows[r][f])
          && StringOf(b.rows[r][f]) == StringOf(a.rows[r][f]))
  }

  /* Every operation keeps the invariant */

  lemma UnlinkAgrees(ix: Index, column: map<nat, Key>, r: nat)
    requires Agrees(ix, column)
    ensures Agrees(Unlink(ix, if r in column then Some(column[r]) else None, r), column - {r})
  {
  }

  lemma LinkAgrees(ix: Index, column: map<nat, Key>, r: nat, k: Key)
    requires Agrees(ix, column) && r !in column
    ensures Agrees(Link(ix, k, r), column[r := k])
  {
  }

  lemma StoreCoherent(db: Db, r: nat, f: nat, v: FieldValue)
    requires Shaped(db) && AllCoherent(db) && HasField(db, r, f) && Coherent(db.fields[f], v)
    ensures Shaped(Store(db, r, f, v)) && AllCoherent(Store(db, r, f, v))
  {
    var db' := Store(db, r, f, v);
    assert db'.rows == db.rows[r := db.rows[r][f := v]] && db'.fields == db.fields;
    forall r': nat, f': nat | HasField(db', r', f') ensures Coherent(db'.fields[f'], db'.rows[r'][f']) {
      assert HasField(db, r', f');
    }
  }

  lemma StoreColumn(db: Db, r: nat, f: nat, v: FieldValue, g: nat)
    requires Shaped(db) && HasField(db, r, f) && g < |db.fields|
    requires db.fields[f].indexed ==> KeyOf(db.fields[f].ftype, v).Some?
    ensures Column(Store(db, r, f, v), g) ==
      if g == f && db.fields[f].indexed then (Column(db, f) - {r})[r := KeyOf(db.fields[f].ftype, v).value] else Column(db, g)
  {
    var db' := Store(db, r, f, v);
    assert db'.rows == db.rows[r := db.rows[r][f := v]] && db'.fields == db.fields;
    assert |db'.index| == |db.index|;
  }

  lemma StoreConsistent(db: Db, r: nat, f: nat, v: FieldValue)
    requires Consistent(db) && HasField(db, r, f)
    requires Coherent(db.fields[f], v) && (v.svalid || v.ivalid)
    ensures Consistent(Store(db, r, f, v))
  {
    StoreCoherent(db, r, f, v);
    var column, was := Column(db, f), KeyOf(db.fields[f].ftype, db.rows[r][f]);
    assert was == if r in column then Some(column[r]) else if db.fields[f].indexed then None else was;
    if db.fields[f].indexed {
      UnlinkAgrees(db.index[f], column, r);
      LinkAgrees(Unlink(db.index[f], was, r), column - {r}, r, KeyOf(db.fields[f].ftype, v).value);
    }
    forall g: nat | g < |db.index| ensures Agrees(Store(db, r, f, v).index[g], Column(Store(db, r, f, v), g)) {
      StoreColumn(db, r, f, v, g);
    }
  }

  lemma SetStringConsistent(db: Db, r: nat, f: nat, s: string)
    requires Consistent(db) && HasField(db, r, f)
    ensures Consistent(SetString(db, r, f, s))
  {
    UnsignedRoundTrip(ParseUint32(s));
    if !(db.rows[r][f].svalid && db.rows[r][f].s == s) {
      StoreConsistent(db, r, f, WithString(db.fields[f], db.rows[r][f], s));
    }
  }

  lemma SetIntegerConsistent(db: Db, r: nat, f: nat, n: nat)
    requires Consistent(db) && HasField(db, r, f) && n < UINT32
    ensures Consistent(SetInteger(db, r, f, n))
  {
    UnsignedRoundTrip(n);
    StoreConsistent(db, r, f, WithInteger(db.fields[f], db.rows[r][f], n));
  }

  lemma CacheConsistent(db: Db, r: nat, f: nat)
    requires Consistent(db) && HasField(db, r, f)
    ensures Consistent(Cache(db, r, f)) && SameView(db, Cache(db, r, f))
  {
    var db' := Cache(db, r, f);
    forall g: nat | g < |db.fields| ensures Column(db', g) == Column(db, g) {
    }
  }

  lemma AddConsistent(db: Db)
    requires Consistent(db)
    ensures Consistent(Add(db))
  {
    var db' := Add(db);
    forall g: nat | g < |db.fields| ensures Column(db', g) == Column(db, g) {
    }
  }

  lemma {:induction false} UnlinkFromAgrees(db: Db, r: nat, f: nat)
    requires r in db.rows && |db.rows[r]| == |db.fields| == |db.index| && f <= |db.fields|
    requires forall g :: f <= g < |db.fields| ==> Agrees(db.index[g], Column(db, g))
    requires forall g :: 0 <= g < f ==> Agrees(db.index[g], Column(db, g) - {r})
    ensures var db' := UnlinkFrom(db, r, f);
      && db'.fields == db.fields && db'.rows == db.rows && db'.next == db.next && |db'.index| == |db.index|
      && forall g :: 0 <= g < |db.fields| ==> Agrees(db'.index[g], Column(db, g) - {r})
    decreases |db.fields| - f
  {
    if f < |db.fields| {
      var key := KeyOf(db.fields[f].ftype, db.rows[r][f]);
      var db1 := if db.fields[f].indexed then db.(index := db.index[f := Unlink(db.index[f], key, r)]) else db;
      UnlinkAgrees(db.index[f], Column(db, f), r);
      assert !db.fields[f].indexed ==> Column(db, f) - {r} == Column(db, f);
      forall g: nat | g < |db.fields| ensures Column(db1, g) == Column(db, g) {
      }
      UnlinkFromAgrees(db1, r, f + 1);
    }
  }

  lemma DeleteConsistent(db: Db, r: nat)
    requires Consistent(db) && r in db.rows
    ensures Consistent(Delete(db, r))
    ensures Delete(db, r).rows == db.rows - {r} && Delete(db, r).fields == db.fields && Delete(db, r).next == db.next
    ensures forall f: nat :: f < |db.fields| ==> Column(Delete(db, r), f) == Column(db, f) - {r}
  {
    UnlinkFromAgrees(db, r, 0);
    var db' := Delete(db, r);
    forall g: nat | g < |db.fields| ensures Column(db', g) == Column(db, g) - {r} {
    }
  }

  /* Whole runs */

  datatype Op =
    | OpAdd
    | OpSetString(r: nat, f: nat, s: string)
    | OpSetInteger(r: nat, f: nat, n: nat)
    | OpGetInteger(r: nat, f: nat)
    | OpDelete(r: nat)

  /** An operation on a record that does not exist changes nothing. */
  function Apply(db: Db, op: Op): Db {
    match op
    case OpAdd => Add(db)
    case OpSetString(r, f, s) => if HasField(db, r, f) then SetString(db, r, f, s) else db
    case OpSetInteger(r, f, n) => if HasField(db, r, f) then SetInteger(db, r, f, n % UINT32) else db
    case OpGetInteger(r, f) => if HasField(db, r, f) then Cache(db, r, f) else db
    case OpDelete(r) =>
      if r in db.rows && |db.rows[r]| == |db.fields| == |db.index| then Delete(db, r) else db
  }

  function Run(db: Db, ops: seq<Op>): Db
    decreases ops
  {
    if ops == [] then db else Run(Apply(db, ops[0]), ops[1..])
  }

  lemma ApplyConsistent(db: Db, op: Op)
    requires Consistent(db)
    ensures Consistent(Apply(db, op))
  {
    match op
    case OpAdd => AddConsistent(db);
    case OpSetString(r, f, s) => if HasField(db, r, f) { SetStringConsistent(db, r, f, s); }
    case OpSetInteger(r, f, n) => if HasField(db, r, f) { SetIntegerConsistent(db, r, f, n % UINT32); }
    case OpGetInteger(r, f) => if HasField(db, r, f) { CacheConsistent(db, r, f); }
    case OpDelete(r) => if r in db.rows { DeleteConsistent(db, r); }
  }

  lemma {:induction false} RunConsistentFrom(db: Db, ops: seq<Op>)
    requires Consistent(db)
    ensures Consistent(Run(db, ops))
    decreases |ops|
  {
    if ops != [] {
      ApplyConsistent(db, ops[0]);
      RunConsistentFrom(Apply(db, ops[0]), ops[1..]);
    }
  }

  /** Over every run from an empty database the indexes agree with the records. */
  lemma RunConsistent(fields: seq<FieldInfo>, ops: seq<Op>)
    ensures Consistent(Run(Create(fields), ops))
  {
    RunConsistentFrom(Create(fields), ops);
  }

  /* What reads give back after writes */

  lemma ReadsAfterSetString(db: Db, r: nat, f: nat, s: string)
    requires Consistent(db) && HasField(db, r, f)
    ensures var v := SetString(db, r, f, s).rows[r][f];
      && IntOf(v) == ParseUint32(s)
      && StringOf(v) == (if db.fields[f].ftype == StringField || (db.rows[r][f].svalid && db.rows[r][f].s == s) then s
                         else Digits(ParseUint32(s)))
  {
    UnsignedRoundTrip(ParseUint32(s));
  }

  lemma ReadsAfterSetInteger(db: Db, r: nat, f: nat, n: nat)
    requires Consistent(db) && HasField(db, r, f) && n < UINT32
    ensures var v := SetInteger(db, r, f, n).rows[r][f];
      && IntOf(v) == n
      && StringOf(v) == (if n == 0 && !(db.fields[f].indexed && db.fields[f].ftype == StringField) then "" else Digits(n))
  {
  }
}
