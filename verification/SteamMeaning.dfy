/** What queries ask of the values of fields, and what the cursors they get yield. */
module SteamMeaning {
  import opened Ordering
  import opened Keys
  import opened SteamModel
  import opened SteamQuery
  import opened SteamOrder

  /* One restriction */

  /** A restriction of an integer holds of the records whose value compares so with it; pushing it keeps
      every earlier reference valid. */
  lemma IntegerMeaning(t: Tree, f: nat, rt: Comparison, n: nat, db: Db, r: nat)
    requires t.WellFormed() && !rt.LIKE?
    ensures var (t', e) := PushRestriction(t, Restriction(f, rt, false, "", n));
      var val := IntOf(Field(db, r, f));
      && t'.WellFormed() && Within(t, t') && t'.Refers(e)
      && (rt == EQ ==> (MatchElement(t', db, r, e) <==> val == n))
      && (rt == NE ==> (MatchElement(t', db, r, e) <==> val != n))
      && (rt == GT ==> (MatchElement(t', db, r, e) <==> val > n))
      && (rt == LT ==> (MatchElement(t', db, r, e) <==> val < n))
      && (rt == GE ==> (MatchElement(t', db, r, e) <==> val >= n))
      && (rt == LE ==> (MatchElement(t', db, r, e) <==> val <= n))
  {
    PushedWellFormed(t, Restriction(f, rt, false, "", n));
  }

  /** One of a string holds where the text is the same, or not, or is like the pattern. */
  lemma StringMeaning(t: Tree, f: nat, rt: Comparison, s: string, db: Db, r: nat)
    requires t.WellFormed() && (rt.EQ? || rt.NE? || rt.LIKE?)
    ensures var (t', e) := PushRestriction(t, Restriction(f, rt, true, s, 0));
      var val := StringOf(Field(db, r, f));
      && t'.WellFormed() && Within(t, t') && t'.Refers(e)
      && (rt == EQ ==> (MatchElement(t', db, r, e) <==> val == s))
      && (rt == NE ==> (MatchElement(t', db, r, e) <==> val != s))
      && (rt == LIKE ==> (MatchElement(t', db, r, e) <==> t.like(val, s)))
  {
    PushedWellFormed(t, Restriction(f, rt, true, s, 0));
  }

  lemma PushedWellFormed(t: Tree, x: Restriction)
    requires t.WellFormed() && x.Supported()
    ensures var (t', e) := PushRestriction(t, x);
      t'.WellFormed() && Within(t, t') && t'.Refers(e) && e == |t'.restrictions| && t'.restrictions[e - 1] == x
  {
  }

  /* Several */

  /** `f >= a` and `f < b`, or `f < b` or `f >= a`, as a caller builds them. */
  function RangeQuery(f: nat, a: nat, b: nat, anditive: bool, like: (string, string) -> bool): Tree {
    var (t1, e1) := PushRestriction(Tree([], [], 0, [], [], like), Restriction(f, GE, false, "", a));
    var (t2, e2) := PushRestriction(t1, Restriction(f, LT, false, "", b));
    var (t3, e3) := PushRelation(t2, anditive, e1, e2);
    t3.(root := e3)
  }

  /** A range of values: the records that have one in it, once each and in order. */
  lemma RangeYields(f: nat, a: nat, b: nat, anditive: bool, like: (string, string) -> bool, db: Db)
    ensures var t := RangeQuery(f, a, b, anditive, like);
      && t.WellFormed()
      && StrictlyIncreasing(ScanYields(t, db, db.rows.Keys))
      && forall r :: r in ScanYields(t, db, db.rows.Keys) <==>
        r in db.rows && var val := IntOf(Field(db, r, f)); if anditive then a <= val < b else a <= val || val < b
  {
    var t := RangeQuery(f, a, b, anditive, like);
    forall r ensures t.WellFormed() && (Matches(t, db, r) <==>
        var val := IntOf(Field(db, r, f)); if anditive then a <= val < b else a <= val || val < b)
    {
      RangeMatches(f, a, b, anditive, like, db, r);
    }
    ScanYieldsMatches(t, db, db.rows.Keys);
  }

  lemma RangeMatches(f: nat, a: nat, b: nat, anditive: bool, like: (string, string) -> bool, db: Db, r: nat)
    ensures var t := RangeQuery(f, a, b, anditive, like);
      && t.WellFormed()
      && (Matches(t, db, r) <==>
            var val := IntOf(Field(db, r, f)); if anditive then a <= val < b else a <= val || val < b)
  {
    var t0 := Tree([], [], 0, [], [], like);
    var (t1, e1) := PushRestriction(t0, Restriction(f, GE, false, "", a));
    IntegerMeaning(t0, f, GE, a, db, r);
    var (t2, e2) := PushRestriction(t1, Restriction(f, LT, false, "", b));
    IntegerMeaning(t1, f, LT, b, db, r);
    MatchElementWithin(t1, t2, db, r, e1);
    RelationMeaning(t2, anditive, e1, e2, db, r);
    var (t3, e3) := PushRelation(t2, anditive, e1, e2);
    RootedAlike(t3, e3, db, r);
  }

  /** Naming a root changes what is asked, not what its parts mean. */
  lemma RootedAlike(t: Tree, e: int, db: Db, r: nat)
    requires t.WellFormed() && t.Refers(e)
    ensures t.(root := e).WellFormed() && (Matches(t.(root := e), db, r) <==> MatchElement(t, db, r, e))
  {
    MatchElementWithin(t, t.(root := e), db, r, e);
  }

  /* One restriction, and what it yields */

  /** A query of one restriction. */
  function OneQuery(x: Restriction, like: (string, string) -> bool): Tree {
    var (t, e) := PushRestriction(Tree([], [], 0, [], [], like), x);
    t.(root := e)
  }

  lemma OneMatches(x: Restriction, like: (string, string) -> bool, db: Db, r: nat)
    requires x.Supported()
    ensures var t := OneQuery(x, like);
      && t.WellFormed()
      && (Matches(t, db, r) <==> Satisfies(Tree([], [], 0, [], [], like), db, r, x))
  {
    var t0 := Tree([], [], 0, [], [], like);
    var (t, e) := PushRestriction(t0, x);
    PushedWellFormed(t0, x);
    RootedAlike(t, e, db, r);
  }

  /** A comparison of an integer yields the records whose value compares so. */
  lemma ComparisonYields(f: nat, n: nat, like: (string, string) -> bool, db: Db, r: nat)
    ensures Yields(Restriction(f, EQ, false, "", n), like, db, r) <==> r in db.rows && IntOf(Field(db, r, f)) == n
    ensures Yields(Restriction(f, NE, false, "", n), like, db, r) <==> r in db.rows && IntOf(Field(db, r, f)) != n
    ensures Yields(Restriction(f, GT, false, "", n), like, db, r) <==> r in db.rows && IntOf(Field(db, r, f)) > n
    ensures Yields(Restriction(f, LT, false, "", n), like, db, r) <==> r in db.rows && IntOf(Field(db, r, f)) < n
    ensures Yields(Restriction(f, GE, false, "", n), like, db, r) <==> r in db.rows && IntOf(Field(db, r, f)) >= n
    ensures Yields(Restriction(f, LE, false, "", n), like, db, r) <==> r in db.rows && IntOf(Field(db, r, f)) <= n
  {
    YieldsIs(Restriction(f, EQ, false, "", n), like, db, r);
    YieldsIs(Restriction(f, NE, false, "", n), like, db, r);
    YieldsIs(Restriction(f, GT, false, "", n), like, db, r);
    YieldsIs(Restriction(f, LT, false, "", n), like, db, r);
    YieldsIs(Restriction(f, GE, false, "", n), like, db, r);
    YieldsIs(Restriction(f, LE, false, "", n), like, db, r);
  }

  /** One of a string, those whose text is it, is not, or is like it. */
  lemma TextYields(f: nat, s: string, like: (string, string) -> bool, db: Db, r: nat)
    ensures Yields(Restriction(f, EQ, true, s, 0), like, db, r) <==> r in db.rows && StringOf(Field(db, r, f)) == s
    ensures Yields(Restriction(f, NE, true, s, 0), like, db, r) <==> r in db.rows && StringOf(Field(db, r, f)) != s
    ensures Yields(Restriction(f, LIKE, true, s, 0), like, db, r) <==> r in db.rows && like(StringOf(Field(db, r, f)), s)
  {
    YieldsIs(Restriction(f, EQ, true, s, 0), like, db, r);
    YieldsIs(Restriction(f, NE, true, s, 0), like, db, r);
    YieldsIs(Restriction(f, LIKE, true, s, 0), like, db, r);
  }

  ghost predicate Yields(x: Restriction, like: (string, string) -> bool, db: Db, r: nat) {
    var t := OneQuery(x, like);
    t.WellFormed() && r in ScanYields(t, db, db.rows.Keys)
  }

  lemma YieldsIs(x: Restriction, like: (string, string) -> bool, db: Db, r: nat)
    requires x.Supported()
    ensures Yields(x, like, db, r) <==> r in db.rows && Satisfies(Tree([], [], 0, [], [], like), db, r, x)
  {
    OneMatches(x, like, db, r);
    ScanYieldsMatches(OneQuery(x, like), db, db.rows.Keys);
  }

  /* What a query is answered with */

  predicate Fits(t: Tree, db: Db) {
    && t.WellFormed() && (t.restrictions != [] ==> t.root != 0)
    && (forall k | 0 <= k < |t.restrictions| :: t.restrictions[k].which < |db.fields|)
    && (forall k | 0 <= k < |t.orderBy| :: t.orderBy[k] < |db.fields|)
    && (forall k | 0 <= k < |t.collateBy| :: t.collateBy[k] < |db.fields|)
  }

  /** The records that the cursor of a query that does not collate yields. */
  function Answer(t: Tree, db: Db): seq<nat>
    requires Consistent(db) && Fits(t, db)
  {
    match AccessFor(t, db)
    case OrderedPath(f) => StartOnRecord(db, f); OrderedYields(db.index[f], OrderedStart(db.index[f]))
    case IndexedPath(f, k) => BucketYields(db.index[f], k, 0)
    case _ => ScanYields(t, db, db.rows.Keys)
  }

  lemma StartOnRecord(db: Db, f: nat)
    requires Consistent(db) && f < |db.index|
    ensures var p := OrderedStart(db.index[f]); p.InBucket? ==> OnRecord(db.index[f], p)
  {
    assert Agrees(db.index[f], Column(db, f));
    if db.index[f].Keys != {} { assert db.index[f][LeastKey(db.index[f].Keys)] != {}; }
  }

  /** The field is indexed and has been given a value in that record. */
  predicate IsSet(db: Db, f: nat, r: nat) {
    f < |db.fields| && db.fields[f].indexed && (Field(db, r, f).svalid || Field(db, r, f).ivalid)
  }

  lemma SetInColumn(db: Db, f: nat, r: nat)
    requires Consistent(db) && f < |db.fields|
    ensures r in Column(db, f) <==> r in db.rows && IsSet(db, f, r)
    ensures r in Column(db, f) && db.fields[f].ftype == IntField ==> Column(db, f)[r] == IntKey(IntOf(Field(db, r, f)))
    ensures r in Column(db, f) && db.fields[f].ftype == StringField ==> Column(db, f)[r] == StrKey(StringOf(Field(db, r, f)))
  {
    if r in db.rows {
      assert HasField(db, r, f);
      assert Coherent(db.fields[f], db.rows[r][f]);
    }
  }

  /** In ascending order of the field's values, integers by size and texts by their first difference,
      and where those are equal by record. */
  ghost predicate InOrder(db: Db, f: nat, rs: seq<nat>)
    requires f < |db.fields|
  {
    forall i, j :: 0 <= i < j < |rs| ==> NotAfter(db, f, rs[i], rs[j])
  }

  ghost predicate NotAfter(db: Db, f: nat, a: nat, b: nat)
    requires f < |db.fields|
  {
    if db.fields[f].ftype == IntField then
      var x, y := IntOf(Field(db, a, f)), IntOf(Field(db, b, f));
      x < y || (x == y && a < b)
    else
      var x, y := StringOf(Field(db, a, f)), StringOf(Field(db, b, f));
      (exists k: nat :: FirstLess(x, y, k)) || (x == y && a < b)
  }

  lemma BeforeIsNotAfter(db: Db, f: nat, a: nat, b: nat)
    requires Consistent(db) && f < |db.fields| && Before(Column(db, f), a, b)
    ensures NotAfter(db, f, a, b)
  {
    SetInColumn(db, f, a);
    SetInColumn(db, f, b);
    StrLessIs(StringOf(Field(db, a, f)), StringOf(Field(db, b, f)));
  }

  /** An ordered query is answered with every record that has the first of its fields set, in order of
      that field, whatever it asks; with none if the field is not indexed. */
  lemma OrderedAnswer(t: Tree, db: Db)
    requires Consistent(db) && Fits(t, db) && t.collateBy == [] && t.orderBy != []
    ensures var f, rs := t.orderBy[0], Answer(t, db);
      (forall r :: r in rs <==> r in db.rows && IsSet(db, f, r)) && InOrder(db, f, rs)
  {
    var f, rs := t.orderBy[0], Answer(t, db);
    OrderedYieldsAll(db, f);
    forall r ensures r in rs <==> r in db.rows && IsSet(db, f, r) { SetInColumn(db, f, r); }
    forall i, j | 0 <= i < j < |rs| ensures NotAfter(db, f, rs[i], rs[j]) { BeforeIsNotAfter(db, f, rs[i], rs[j]); }
  }

  /** A query that does not is answered in order of record. */
  lemma PlainAnswer(t: Tree, db: Db)
    requires Consistent(db) && Fits(t, db) && t.collateBy == [] && t.orderBy == []
    ensures StrictlyIncreasing(Answer(t, db))
    ensures (forall r :: r in Answer(t, db) <==> r in db.rows && Matches(t, db, r)) <==> PlainRight(t, db)
  {
    ScanYieldsMatches(t, db, db.rows.Keys);
    if LooksUp(t, db) {
      var f, k := t.restrictions[0].which, KeyFor(t.restrictions[0]);
      AccessPathsAgree(t, db);
      BucketIs(db.index[f], Column(db, f), k);
      SameElements(BucketYields(db.index[f], k, 0), ScanYields(t, db, db.rows.Keys));
    }
  }

  /** One equality on an indexed field is looked up. */
  predicate LooksUp(t: Tree, db: Db) {
    |t.restrictions| == 1 && t.restrictions[0].rt == EQ && t.restrictions[0].which < |db.fields|
    && db.fields[t.restrictions[0].which].indexed
  }

  /** What is looked up is all there is: the value asked for is no default, or the field is set in every
      record; and it is of the field's own type, or nothing in the index reads as it. */
  ghost predicate PlainRight(t: Tree, db: Db) {
    LooksUp(t, db) && |db.index| == |db.fields| ==>
      var f := t.restrictions[0].which;
      var k := if t.restrictions[0].isString then StrKey(t.restrictions[0].sval) else IntKey(t.restrictions[0].ival);
      && ((k != IntKey(0) && k != StrKey("")) || forall r :: r in db.rows ==> IsSet(db, f, r))
      && ((k.IntKey? <==> db.fields[f].ftype == IntField) || NoneReadsAs(db, f, k))
  }

  /** A query is answered with the records that match it, and no others, exactly if an ordered one asks
      for just those with its field set, and one that looks up a value finds all that have it. */
  lemma AnswerIsRight(t: Tree, db: Db)
    requires Consistent(db) && Fits(t, db) && t.collateBy == []
    ensures (forall r :: r in Answer(t, db) <==> r in db.rows && Matches(t, db, r))
      <==> if t.orderBy != [] then forall r :: r in db.rows ==> (Matches(t, db, r) <==> IsSet(db, t.orderBy[0], r))
           else PlainRight(t, db)
  {
    if t.orderBy != [] { OrderedAnswer(t, db); } else { PlainAnswer(t, db); }
  }

  /** A collating query has a cursor exactly if it names one field, and that is indexed. */
  lemma CollatedAnswer(t: Tree, db: Db)
    requires Fits(t, db) && t.collateBy != []
    ensures AccessFor(t, db)
      == if |t.collateBy| == 1 && db.fields[t.collateBy[0]].indexed then CollatePath(t.collateBy[0]) else NoAccess
  {
  }

  /* Records */

  /** A new record has a number of its own, and every field of it reads as zero and as no text. */
  lemma AddedReads(db: Db)
    requires Consistent(db)
    ensures var db', n := Add(db), db.next;
      && n !in db.rows && db'.next == n + 1 && db'.rows.Keys == db.rows.Keys + {n}
      && (forall f: nat :: f < |db.fields| ==>
            HasField(db', n, f) && IntOf(Field(db', n, f)) == 0 && StringOf(Field(db', n, f)) == "")
      && forall r :: r in db.rows ==> db'.rows[r] == db.rows[r]
  {
  }

  /** Everything but one field of one record is as it was. */
  ghost predicate OnlyField(db: Db, db': Db, r: nat, f: nat) {
    && db'.rows.Keys == db.rows.Keys && db'.fields == db.fields && db'.next == db.next
    && (forall r', f': nat :: HasField(db, r', f') && (r' != r || f' != f) ==> Field(db', r', f') == Field(db, r', f'))
  }

  lemma SetsOnlyThat(db: Db, r: nat, f: nat, s: string, n: nat)
    requires Consistent(db) && HasField(db, r, f)
    ensures OnlyField(db, SetString(db, r, f, s), r, f) && OnlyField(db, SetInteger(db, r, f, n), r, f)
  {
  }
}
