/** Query trees held as signed references, and the four kinds of cursor, as functions on values. */
module SteamQuery {
  import opened Ordering
  import opened Decimal
  import opened Keys
  import opened SteamModel

  datatype Comparison = EQ | NE | GT | LT | GE | LE | LIKE

  datatype Restriction = Restriction(which: nat, rt: Comparison, isString: bool, sval: string, ival: nat)
  {
    predicate Supported() { if isString then rt.EQ? || rt.NE? || rt.LIKE? else !rt.LIKE? }
  }

  datatype Relation = Relation(anditive: bool, a: int, b: int)

  /** A positive reference names a restriction, a negative one a relation, and 0 nothing.
      `like(val, pattern)` stands for the regular-expression match. */
  datatype Tree = Tree(
    restrictions: seq<Restriction>, relations: seq<Relation>, root: int,
    orderBy: seq<nat>, collateBy: seq<nat>, like: (string, string) -> bool)
  {
    predicate Refers(e: int) {
      && e != 0
      && (if e > 0 then e <= |restrictions| else -e <= |relations|)
    }

    /** Relations refer only to what was there before them. */
    predicate WellFormed() {
      && (forall k | 0 <= k < |restrictions| :: restrictions[k].Supported())
      && (forall k | 0 <= k < |relations| ::
            && Refers(relations[k].a) && -relations[k].a <= k
            && Refers(relations[k].b) && -relations[k].b <= k)
      && (root == 0 || Refers(root))
    }
  }

  predicate Satisfies(t: Tree, db: Db, r: nat, x: Restriction)
    requires x.Supported()
  {
    if x.isString then
      var val := StringOf(Field(db, r, x.which));
      match x.rt
      case EQ => val == x.sval
      case NE => val != x.sval
      case _ => t.like(val, x.sval)
    else
      var val := IntOf(Field(db, r, x.which));
      match x.rt
      case EQ => val == x.ival
      case NE => val != x.ival
      case GT => val > x.ival
      case LT => val < x.ival
      case LE => val <= x.ival
      case _ => val >= x.ival
  }

  predicate MatchElement(t: Tree, db: Db, r: nat, e: int)
    requires t.WellFormed() && t.Refers(e)
    decreases if e > 0 then 0 else -e
  {
    if e > 0 then Satisfies(t, db, r, t.restrictions[e - 1])
    else
      var rel := t.relations[-e - 1];
      if rel.anditive then MatchElement(t, db, r, rel.a) && MatchElement(t, db, r, rel.b)
      else MatchElement(t, db, r, rel.a) || MatchElement(t, db, r, rel.b)
  }

  predicate Matches(t: Tree, db: Db, r: nat)
    requires t.WellFormed()
  {
    t.root == 0 || MatchElement(t, db, r, t.root)
  }

  lemma {:induction false} MatchElementSameView(t: Tree, a: Db, b: Db, r: nat, e: int)
    requires t.WellFormed() && t.Refers(e) && SameView(a, b)
    ensures MatchElement(t, a, r, e) == MatchElement(t, b, r, e)
    decreases if e > 0 then 0 else -e
  {
    if e > 0 {
      var f := t.restrictions[e - 1].which;
      assert HasField(a, r, f) <==> HasField(b, r, f);
    } else {
      var rel := t.relations[-e - 1];
      MatchElementSameView(t, a, b, r, rel.a);
      MatchElementSameView(t, a, b, r, rel.b);
    }
  }

  /* Building a tree */

  function PushRestriction(t: Tree, x: Restriction): (Tree, int) {
    (t.(restrictions := t.restrictions + [x]), |t.restrictions| + 1)
  }

  function PushRelation(t: Tree, anditive: bool, a: int, b: int): (Tree, int) {
    (t.(relations := t.relations + [Relation(anditive, a, b)]), -(|t.relations| + 1))
  }

  ghost predicate Within(t: Tree, t': Tree) {
    t.restrictions <= t'.restrictions && t.relations <= t'.relations && t'.like == t.like
  }

  /** Growing a tree does not change what is already in it. */
  lemma {:induction false} MatchElementWithin(t: Tree, t': Tree, db: Db, r: nat, e: int)
    requires t.WellFormed() && t'.WellFormed() && Within(t, t') && t.Refers(e)
    ensures t'.Refers(e) && MatchElement(t', db, r, e) == MatchElement(t, db, r, e)
    decreases if e > 0 then 0 else -e
  {
    if e < 0 {
      var rel := t.relations[-e - 1];
      assert t'.relations[-e - 1] == rel;
      MatchElementWithin(t, t', db, r, rel.a);
      MatchElementWithin(t, t', db, r, rel.b);
    } else {
      assert t'.restrictions[e - 1] == t.restrictions[e - 1];
    }
  }

  /** `And` and `Or` mean conjunction and disjunction, and keep every earlier reference valid. */
  lemma RelationMeaning(t: Tree, anditive: bool, a: int, b: int, db: Db, r: nat)
    requires t.WellFormed() && t.Refers(a) && t.Refers(b)
    ensures var (t', e) := PushRelation(t, anditive, a, b);
      && t'.WellFormed() && Within(t, t') && t'.Refers(e)
      && MatchElement(t', db, r, e) == (if anditive then MatchElement(t, db, r, a) && MatchElement(t, db, r, b)
                                        else MatchElement(t, db, r, a) || MatchElement(t, db, r, b))
  {
    var (t', e) := PushRelation(t, anditive, a, b);
    MatchElementWithin(t, t', db, r, a);
    MatchElementWithin(t, t', db, r, b);
  }

  /* Scanning all records */

  datatype Cursor = AtEnd | At(record: nat)

  function Above(s: set<nat>, r: nat): set<nat> {
    set x | x in s && r < x
  }

  /** The first matching record of `todo`. */
  function ScanFrom(t: Tree, db: Db, todo: set<nat>): Cursor
    requires t.WellFormed()
  {
    if todo == {} then AtEnd
    else if Matches(t, db, Least(todo)) then At(Least(todo))
    else ScanFrom(t, db, todo - {Least(todo)})
  }

  function ScanYields(t: Tree, db: Db, todo: set<nat>): seq<nat>
    requires t.WellFormed()
    decreases todo
  {
    var c := ScanFrom(t, db, todo);
    ScanFromIs(t, db, todo);
    if c.AtEnd? then [] else [c.record] + ScanYields(t, db, Above(todo, c.record))
  }

  /** Stopping points of a scan: the least match, or the end when there is none. */
  lemma {:induction false} ScanFromIs(t: Tree, db: Db, todo: set<nat>)
    requires t.WellFormed()
    ensures match ScanFrom(t, db, todo)
      case AtEnd => forall r :: r in todo ==> !Matches(t, db, r)
      case At(x) => x in todo && Matches(t, db, x) && forall r :: r in todo && r < x ==> !Matches(t, db, r)
  {
    if todo != {} && !Matches(t, db, Least(todo)) {
      ScanFromIs(t, db, todo - {Least(todo)});
    }
  }

  /** A scan yields the matching records, once each, in ascending order. */
  lemma {:induction false} ScanYieldsMatches(t: Tree, db: Db, todo: set<nat>)
    requires t.WellFormed()
    ensures forall r :: r in ScanYields(t, db, todo) <==> r in todo && Matches(t, db, r)
    ensures StrictlyIncreasing(ScanYields(t, db, todo))
    decreases todo
  {
    var c := ScanFrom(t, db, todo);
    ScanFromIs(t, db, todo);
    if c.At? {
      var rest := ScanYields(t, db, Above(todo, c.record));
      assert ScanYields(t, db, todo) == [c.record] + rest;
      ScanYieldsMatches(t, db, Above(todo, c.record));
      forall k | 0 <= k < |rest| ensures c.record < rest[k] { assert rest[k] in rest; }
    }
  }

  /* Following one bucket of an index */

  function Bucket(ix: Index, key: Key): seq<nat> {
    if key in ix then Ascending(ix[key]) else []
  }

  /** The cursor counts how far into the bucket it is. */
  function BucketAt(ix: Index, key: Key, sub: nat): Cursor {
    if sub < |Bucket(ix, key)| then At(Bucket(ix, key)[sub]) else AtEnd
  }

  function BucketYields(ix: Index, key: Key, sub: nat): seq<nat>
    decreases |Bucket(ix, key)| - sub
  {
    var c := BucketAt(ix, key, sub);
    if c.AtEnd? then [] else [c.record] + BucketYields(ix, key, sub + 1)
  }

  lemma {:induction false} BucketYieldsAll(ix: Index, key: Key, sub: nat)
    requires sub <= |Bucket(ix, key)|
    ensures BucketYields(ix, key, sub) == Bucket(ix, key)[sub..]
    decreases |Bucket(ix, key)| - sub
  {
    if sub < |Bucket(ix, key)| { BucketYieldsAll(ix, key, sub + 1); }
  }

  /* Which cursor a query gets */

  datatype AccessPath = NoAccess | CollatePath(f: nat) | OrderedPath(f: nat) | IndexedPath(f: nat, key: Key) | ScanPath

  function AccessFor(t: Tree, db: Db): AccessPath
    requires forall k | 0 <= k < |t.restrictions| :: t.restrictions[k].which < |db.fields|
    requires forall k | 0 <= k < |t.collateBy| :: t.collateBy[k] < |db.fields|
  {
    if t.collateBy != [] then
      if !db.fields[t.collateBy[0]].indexed || |t.collateBy| > 1 then NoAccess else CollatePath(t.collateBy[0])
    else if t.orderBy != [] then OrderedPath(t.orderBy[0])
    else if |t.restrictions| == 1 && t.restrictions[0].rt.EQ? && db.fields[t.restrictions[0].which].indexed then
      IndexedPath(t.restrictions[0].which, KeyFor(t.restrictions[0]))
    else ScanPath
  }

  function KeyFor(x: Restriction): Key {
    if x.isString then StrKey(x.sval) else IntKey(x.ival)
  }

  /** Any tree over a single restriction means that restriction. */
  lemma {:induction false} SingleRestriction(t: Tree, db: Db, r: nat, e: int)
    requires t.WellFormed() && t.Refers(e) && |t.restrictions| == 1
    ensures MatchElement(t, db, r, e) == Satisfies(t, db, r, t.restrictions[0])
    decreases if e > 0 then 0 else -e
  {
    if e < 0 {
      var rel := t.relations[-e - 1];
      SingleRestriction(t, db, r, rel.a);
      SingleRestriction(t, db, r, rel.b);
    }
  }

  predicate SameType(k: Key, f: FieldType) {
    k.IntKey? <==> f == IntField
  }

  /** What reading an unset field gives. */
  predicate IsDefault(k: Key) {
    k == IntKey(0) || k == StrKey("")
  }

  /** How one record answers an equality query on an indexed field. */
  lemma EqualityMatch(t: Tree, db: Db, r: nat)
    requires t.WellFormed() && t.root != 0 && Consistent(db) && r in db.rows
    requires |t.restrictions| == 1 && t.restrictions[0].rt.EQ?
    requires t.restrictions[0].which < |db.fields| && db.fields[t.restrictions[0].which].indexed
    ensures var f, k := t.restrictions[0].which, KeyFor(t.restrictions[0]);
      var column := Column(db, f);
      if SameType(k, db.fields[f].ftype) then Matches(t, db, r) <==> if r in column then column[r] == k else IsDefault(k)
      else
        && !(r in column && column[r] == k)
        && (Matches(t, db, r) <==> if r in column then ReadsAs(db, f, r, column[r], k) else IsDefault(k))
  {
    SingleRestriction(t, db, r, t.root);
    var f := t.restrictions[0].which;
    assert HasField(db, r, f);
    assert Coherent(db.fields[f], db.rows[r][f]);
  }

  /** Read in the form of key `k`, a record under key `x` of the other type has the value `k`.
      Zero reads as no text unless it was written as text. */
  predicate ReadsAs(db: Db, f: nat, r: nat, x: Key, k: Key) {
    match (x, k)
    case (StrKey(s), IntKey(n)) => ParseUint32(s) == n
    case (IntKey(n), StrKey(s)) => s == if n != 0 || Field(db, r, f).svalid then Digits(n) else ""
    case _ => false
  }

  predicate AllSet(db: Db, f: nat) {
    Column(db, f).Keys == db.rows.Keys
  }

  /** Nothing in the index reads as `k`, a key of the type that the index does not have: as an
      integer no key's text has that value; as text no key is its numeral, and for zero no
      record under it has that text. */
  ghost predicate NoneReadsAs(db: Db, f: nat, k: Key)
    requires f < |db.index|
  {
    match k
    case IntKey(n) => forall x :: x in db.index[f] && x.StrKey? ==> ParseUint32(x.s) != n
    case StrKey(s) => forall x :: x in db.index[f] && x.IntKey? ==>
      if x.n != 0 then Digits(x.n) != s
      else forall r :: r in db.index[f][x] ==> s != if Field(db, r, f).svalid then "0" else ""
  }

  lemma NoTextReadsAs(db: Db, f: nat, n: nat)
    requires Consistent(db) && f < |db.fields| && db.fields[f].indexed && db.fields[f].ftype == StringField
    ensures NoneReadsAs(db, f, IntKey(n)) <==> forall r :: r in Column(db, f) ==> !ReadsAs(db, f, r, Column(db, f)[r], IntKey(n))
  {
    var ix, column := db.index[f], Column(db, f);
    assert Agrees(ix, column);
    if forall r :: r in column ==> !ReadsAs(db, f, r, column[r], IntKey(n)) {
      forall x | x in ix && x.StrKey? ensures ParseUint32(x.s) != n {
        var r :| r in ix[x];
        assert column[r] == x;
      }
    }
  }

  lemma NoIntegerReadsAs(db: Db, f: nat, s: string)
    requires Consistent(db) && f < |db.fields| && db.fields[f].indexed && db.fields[f].ftype == IntField
    ensures NoneReadsAs(db, f, StrKey(s)) <==> forall r :: r in Column(db, f) ==> !ReadsAs(db, f, r, Column(db, f)[r], StrKey(s))
  {
    var ix, column := db.index[f], Column(db, f);
    assert Agrees(ix, column);
    assert Digits(0) == "0";
    if forall r :: r in column ==> !ReadsAs(db, f, r, column[r], StrKey(s)) {
      forall x | x in ix && x.IntKey? && x.n != 0 ensures Digits(x.n) != s {
        var r :| r in ix[x];
        assert column[r] == x;
      }
      forall x, r | x in ix && x.IntKey? && x.n == 0 && r in ix[x] ensures s != if Field(db, r, f).svalid then "0" else "" {
        assert column[r] == x;
      }
    }
  }

  lemma BucketElements(ix: Index, column: map<nat, Key>, k: Key)
    requires Agrees(ix, column)
    ensures forall r :: r in Bucket(ix, k) <==> r in column && column[r] == k
    ensures StrictlyIncreasing(Bucket(ix, k))
  {
    if k in ix {
      AscendingElements(ix[k]);
      assert forall r :: r in ix[k] <==> r in column && column[r] == k;
    }
  }

  lemma BucketIs(ix: Index, column: map<nat, Key>, k: Key)
    requires Agrees(ix, column)
    ensures forall r :: r in BucketYields(ix, k, 0) <==> r in column && column[r] == k
    ensures StrictlyIncreasing(BucketYields(ix, k, 0))
  {
    BucketYieldsAll(ix, k, 0);
    assert BucketYields(ix, k, 0) == Bucket(ix, k);
    BucketElements(ix, column, k);
  }

  /** An indexed cursor agrees with the full scan exactly when no record that the index does not
      have under the key reads as it: neither one whose field was never set, which reads as the
      default, nor, if the key is of the other type, one under a key that converts to it. */
  lemma AccessPathsAgree(t: Tree, db: Db)
    requires t.WellFormed() && t.root != 0 && Consistent(db)
    requires |t.restrictions| == 1 && t.restrictions[0].rt.EQ?
    requires t.restrictions[0].which < |db.fields| && db.fields[t.restrictions[0].which].indexed
    ensures var f, k := t.restrictions[0].which, KeyFor(t.restrictions[0]);
      BucketYields(db.index[f], k, 0) == ScanYields(t, db, db.rows.Keys) <==>
        (!IsDefault(k) || AllSet(db, f)) && (SameType(k, db.fields[f].ftype) || NoneReadsAs(db, f, k))
  {
    var f, k := t.restrictions[0].which, KeyFor(t.restrictions[0]);
    var column := Column(db, f);
    var bucket, scan := BucketYields(db.index[f], k, 0), ScanYields(t, db, db.rows.Keys);
    BucketIs(db.index[f], column, k);
    ScanYieldsMatches(t, db, db.rows.Keys);
    SameElements(bucket, scan);
    forall r | r in db.rows
      ensures if SameType(k, db.fields[f].ftype)
        then r in scan <==> if r in column then r in bucket else IsDefault(k)
        else r !in bucket && (r in scan <==> if r in column then ReadsAs(db, f, r, column[r], k) else IsDefault(k))
    {
      EqualityMatch(t, db, r);
    }
    if k.IntKey? && db.fields[f].ftype == StringField { NoTextReadsAs(db, f, k.n); }
    if k.StrKey? && db.fields[f].ftype == IntField { NoIntegerReadsAs(db, f, k.s); }
    if column.Keys != db.rows.Keys {
      var r :| r in db.rows && r !in column;
      assert r !in bucket;
    }
  }

  lemma SameElements(a: seq<nat>, b: seq<nat>)
    requires StrictlyIncreasing(a) && StrictlyIncreasing(b)
    ensures a == b <==> forall x :: x in a <==> x in b
  {
    if forall x :: x in a <==> x in b { IncreasingUnique(a, b); }
  }
}
