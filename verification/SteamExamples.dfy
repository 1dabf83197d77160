/** Runs of the steam database on which its cursors fall short of a scan. */
module SteamExamples {
  import opened Common
  import opened Ordering
  import opened Keys
  import opened SteamModel
  import opened SteamQuery
  import opened SteamOrder
  import opened SteamMeaning

  /** One indexed integer field. */
  const FIELDS := [FieldInfo(IntField, true)]

  /** The query for records whose field is `n`. */
  function IsInteger(n: nat, like: (string, string) -> bool): Tree {
    Tree([Restriction(0, EQ, false, "", n)], [], 1, [], [], like)
  }

  lemma OneField()
    ensures Create(FIELDS).index == [map[]]
    ensures forall db: Db :: db.fields == FIELDS ==> Add(db).rows == db.rows[db.next := [UNSET]]
  {
    forall db: Db | db.fields == FIELDS ensures Add(db).rows == db.rows[db.next := [UNSET]] {
      assert seq(|db.fields|, _ => UNSET) == [UNSET];
    }
  }

  /** A record whose field was never set reads as 0, but a query for 0 by the index misses it. */
  lemma DefaultKeyMissed(like: (string, string) -> bool)
    ensures var db, t := Run(Create(FIELDS), [OpAdd]), IsInteger(0, like);
      && AccessFor(t, db) == IndexedPath(0, IntKey(0))
      && BucketYields(db.index[0], IntKey(0), 0) == [] && ScanYields(t, db, db.rows.Keys) == [0]
  {
    var db, t := Run(Create(FIELDS), [OpAdd]), IsInteger(0, like);
    OneField();
    assert [OpAdd][1..] == [];
    assert db == Add(Create(FIELDS)) && db.rows == map[0 := [UNSET]] && db.index == [map[]];
    assert db.rows.Keys == {0} && Matches(t, db, 0);
    assert Above({0}, 0) == {};
    assert ScanYields(t, db, {}) == [];
  }

  const TWO_FIVES := [OpAdd, OpSetInteger(0, 0, 5), OpAdd, OpSetInteger(1, 0, 5)]

  const FIVE := FieldValue("", 5, false, true)

  lemma SetFive(db: Db, r: nat)
    requires db.fields == FIELDS && |db.index| == 1 && r in db.rows && db.rows[r] == [UNSET]
    ensures var db' := Apply(db, OpSetInteger(r, 0, 5));
      && db'.rows == db.rows[r := [FIVE]] && db'.fields == FIELDS && db'.next == db.next
      && db'.index == [Link(db.index[0], IntKey(5), r)]
  {
    assert [UNSET][0 := FIVE] == [FIVE];
  }

  lemma LinkFives()
    ensures Link(map[], IntKey(5), 0) == map[IntKey(5) := {0}]
    ensures Link(map[IntKey(5) := {0}], IntKey(5), 1) == map[IntKey(5) := {0, 1}]
  {
    var one: Index, both: Index := map[IntKey(5) := {0}], map[IntKey(5) := {0, 1}];
    var ix := Link(one, IntKey(5), 1);
    assert one[IntKey(5)] + {1} == both[IntKey(5)] == {0, 1};
    assert ix.Keys == both.Keys && ix[IntKey(5)] == both[IntKey(5)];
    assert Link(map[], IntKey(5), 0)[IntKey(5)] == {0};
  }

  lemma TwoFives()
    ensures var db := Run(Create(FIELDS), TWO_FIVES);
      db.fields == FIELDS && db.index == [map[IntKey(5) := {0, 1}]]
  {
    OneField();
    LinkFives();
    assert TWO_FIVES[1..] == [OpSetInteger(0, 0, 5), OpAdd, OpSetInteger(1, 0, 5)];
    assert TWO_FIVES[1..][1..] == [OpAdd, OpSetInteger(1, 0, 5)];
    assert TWO_FIVES[1..][1..][1..] == [OpSetInteger(1, 0, 5)];
    assert TWO_FIVES[1..][1..][1..][1..] == [];
    var db1 := Apply(Create(FIELDS), OpAdd);
    SetFive(db1, 0);
    var db2 := Apply(db1, OpSetInteger(0, 0, 5));
    var db3 := Apply(db2, OpAdd);
    SetFive(db3, 1);
    assert Run(Create(FIELDS), TWO_FIVES) == Apply(db3, OpSetInteger(1, 0, 5));
  }

  lemma FirstTwo()
    ensures Ascending({0, 1}) == [0, 1] && Ascending({1}) == [1]
  {
    AscendingElements({0, 1});
    IncreasingUnique(Ascending({0, 1}), [0, 1]);
    AscendingElements({1});
    IncreasingUnique(Ascending({1}), [1]);
  }

  /** Deleting the first of two records with one key ends an ordered cursor, though the second is there. */
  lemma SecondSkipped()
    ensures var ix := Run(Create(FIELDS), TWO_FIVES).index[0];
      var p := OrderedStart(ix);
      && OnRecord(ix, p) && RecordAt(ix, p) == 0
      && OnRecord(ix, OrderedNext(ix, p)) && RecordAt(ix, OrderedNext(ix, p)) == 1
      && OrderedNext(Unlink(ix, Some(p.key), 0), p) == Done
  {
    TwoFives();
    FirstTwo();
    var ix, k := Run(Create(FIELDS), TWO_FIVES).index[0], IntKey(5);
    assert ix.Keys == {k} && LeastKey(ix.Keys) == k;
    var p := OrderedStart(ix);
    assert p == InBucket(k, 0);
    OrderedNextIs(ix, p);
    assert OrderedNext(ix, p) == InBucket(k, 1);
    var ix' := Unlink(ix, Some(k), 0);
    assert {0, 1} - {0} == {1};
    assert ix' == map[k := {1}] && ix'.Keys == {k};
    OrderedNextIs(ix', p);
    assert After(ix'.Keys, k) == {};
  }

  /** Collating the integers of the records that have 7 yields a 5, and no record has 7. */
  lemma CollatesUnmatched(like: (string, string) -> bool)
    ensures var db, t := Run(Create(FIELDS), TWO_FIVES), IsInteger(7, like);
      && CollateYields(t, db, 0, db.index[0].Keys) == [IntKey(5)]
      && ScanYields(t, db, db.rows.Keys) == []
  {
    TwoFives();
    var db, t := Run(Create(FIELDS), TWO_FIVES), IsInteger(7, like);
    RunConsistent(FIELDS, TWO_FIVES);
    var ks := CollateYields(t, db, 0, db.index[0].Keys);
    CollateYieldsValues(t, db, 0);
    CollateYieldsWanted(t, db, 0, db.index[0].Keys);
    assert db.index[0].Keys == {IntKey(5)};
    OneKey(ks, IntKey(5));
    ScanFromIs(t, db, db.rows.Keys);
    forall r | r in db.rows ensures !Matches(t, db, r) { EqualityMatch(t, db, r); NoSeven(db, r); }
    assert ScanFrom(t, db, db.rows.Keys).AtEnd?;
  }

  /** Nor does an order keep to what is asked: those who want the records with 7 in order get both. */
  lemma OrderedUnmatched(like: (string, string) -> bool)
    ensures var db, t := Run(Create(FIELDS), TWO_FIVES), IsInteger(7, like).(orderBy := [0]);
      && Consistent(db) && Fits(t, db)
      && (forall r :: r in Answer(t, db) <==> r == 0 || r == 1)
      && forall r :: r in db.rows ==> !Matches(t, db, r)
  {
    TwoFives();
    var db, t := Run(Create(FIELDS), TWO_FIVES), IsInteger(7, like).(orderBy := [0]);
    RunConsistent(FIELDS, TWO_FIVES);
    assert Fits(t, db);
    OrderedAnswer(t, db);
    forall r ensures r in Answer(t, db) <==> r == 0 || r == 1 {
      assert Agrees(db.index[0], Column(db, 0));
      SetInColumn(db, 0, r);
      assert db.index[0][IntKey(5)] == {0, 1};
    }
    forall r | r in db.rows ensures !Matches(t, db, r) { EqualityMatch(t, db, r); NoSeven(db, r); }
  }

  lemma NoSeven(db: Db, r: nat)
    requires Consistent(db) && |db.fields| == 1 && db.index == [map[IntKey(5) := {0, 1}]]
    ensures !(r in Column(db, 0) && Column(db, 0)[r] == IntKey(7))
  {
    assert Agrees(db.index[0], Column(db, 0));
  }

  lemma OneKey(ks: seq<Key>, k: Key)
    requires SortedKeys(ks) && forall x :: x in ks <==> x == k
    ensures ks == [k]
  {
    assert k in ks;
    if |ks| > 1 {
      assert ks[0] in ks && ks[1] in ks;
      Total(k, k);
    }
  }
}
