/** Cursors that follow a whole index: by record in key order, and by distinct key. */
module SteamOrder {
  import opened Common
  import opened Ordering
  import opened Keys
  import opened SteamModel
  import opened SteamQuery

  /* Ordered cursors */

  /** Where an ordered cursor is: at the end, or `sub` records into a bucket. */
  datatype Place = Done | InBucket(key: Key, sub: nat)

  predicate OnRecord(ix: Index, p: Place) {
    p.InBucket? && p.key in ix && p.sub < |ix[p.key]|
  }

  function RecordAt(ix: Index, p: Place): nat
    requires OnRecord(ix, p)
  {
    AscendingElements(ix[p.key]);
    Ascending(ix[p.key])[p.sub]
  }

  function OrderedStart(ix: Index): Place {
    if ix.Keys == {} then Done else InBucket(LeastKey(ix.Keys), 0)
  }

  /** Go on to the next bucket for as long as `sub` is past the end of this one. */
  function SkipFull(ix: Index, k: Key, sub: nat): (p: Place)
    requires k in ix
    ensures p.InBucket? ==> OnRecord(ix, p) && (p == InBucket(k, sub) || Less(k, p.key))
    decreases After(ix.Keys, k)
  {
    if sub < |ix[k]| then InBucket(k, sub)
    else if After(ix.Keys, k) == {} then Done
    else
      var next := LeastKey(After(ix.Keys, k));
      AfterShrinks(ix.Keys, k, next);
      SkipFull(ix, next, 0)
  }

  lemma AfterShrinks(keys: set<Key>, k: Key, next: Key)
    requires next in After(keys, k)
    ensures After(keys, next) < After(keys, k)
    ensures forall x :: Less(next, x) ==> Less(k, x)
  {
    Total(next, next);
    forall x | Less(next, x) ensures Less(k, x) { Trans(k, next, x); }
  }

  /** Find the key again, as the index may have changed, and move on by one record. */
  function OrderedNext(ix: Index, p: Place): (p': Place)
    ensures p'.InBucket? ==> OnRecord(ix, p')
  {
    if p.Done? || From(ix.Keys, p.key) == {} then Done
    else
      var k := LeastKey(From(ix.Keys, p.key));
      SkipFull(ix, k, if k != p.key then 0 else p.sub + 1)
  }

  /** While the key is there, moving on stays in its bucket or goes to a greater key. */
  lemma OrderedNextIs(ix: Index, p: Place)
    requires p.InBucket? && p.key in ix
    ensures OrderedNext(ix, p) == SkipFull(ix, p.key, p.sub + 1)
  {
    Total(p.key, p.key);
    assert p.key in From(ix.Keys, p.key);
    var k := LeastKey(From(ix.Keys, p.key));
    Total(k, p.key);
  }

  function OrderedYields(ix: Index, p: Place): seq<nat>
    requires p.InBucket? ==> OnRecord(ix, p)
    decreases if p.Done? then {} else {p.key} + After(ix.Keys, p.key), if p.Done? then 0 else |ix[p.key]| - p.sub
  {
    if p.Done? then [] else
      OrderedNextIs(ix, p);
      var p' := OrderedNext(ix, p);
      Total(p.key, p.key);
      assert p'.InBucket? && p'.key != p.key ==> {p'.key} + After(ix.Keys, p'.key) < {p.key} + After(ix.Keys, p.key) by {
        if p'.InBucket? && p'.key != p.key { AfterShrinks(ix.Keys, p.key, p'.key); Total(p'.key, p.key); }
      }
      [RecordAt(ix, p)] + OrderedYields(ix, p')
  }

  /** By key, and by number where keys are equal. */
  ghost predicate Before(column: map<nat, Key>, a: nat, b: nat) {
    a in column && b in column && (Less(column[a], column[b]) || (column[a] == column[b] && a < b))
  }

  ghost predicate SortedBy(column: map<nat, Key>, rs: seq<nat>) {
    forall i, j :: 0 <= i < j < |rs| ==> Before(column, rs[i], rs[j])
  }

  /** Still to come at place `p`. */
  ghost predicate Ahead(ix: Index, column: map<nat, Key>, p: Place, r: nat)
    requires p.InBucket? ==> OnRecord(ix, p)
  {
    p.InBucket? && r in column && (Less(p.key, column[r]) || (column[r] == p.key && r >= RecordAt(ix, p)))
  }

  /** One step: what is ahead now is this record and what is ahead of the next place. */
  lemma StepAhead(ix: Index, column: map<nat, Key>, p: Place, r: nat)
    requires Agrees(ix, column) && OnRecord(ix, p)
    ensures Ahead(ix, column, p, r) <==> r == RecordAt(ix, p) || Ahead(ix, column, OrderedNext(ix, p), r)
    ensures Ahead(ix, column, OrderedNext(ix, p), r) ==> Before(column, RecordAt(ix, p), r)
  {
    OrderedNextIs(ix, p);
    var p' := OrderedNext(ix, p);
    var bucket := Ascending(ix[p.key]);
    AscendingElements(ix[p.key]);
    assert RecordAt(ix, p) in ix[p.key];
    Total(p.key, p.key);
    if p.sub + 1 < |bucket| {
      assert p' == InBucket(p.key, p.sub + 1);
      if r in column && column[r] == p.key {
        assert r in bucket;
        var j :| 0 <= j < |bucket| && bucket[j] == r;
      }
    } else {
      if r in column && column[r] == p.key {
        assert r in bucket;
        var j :| 0 <= j < |bucket| && bucket[j] == r;
      }
      LaterBucket(ix, column, p.key, r);
    }
  }

  /** The first record of the least key after `k` is ahead of everything with a greater key. */
  lemma LaterBucket(ix: Index, column: map<nat, Key>, k: Key, r: nat)
    requires Agrees(ix, column) && k in ix
    ensures var p := SkipFull(ix, k, |ix[k]|);
      Ahead(ix, column, p, r) <==> r in column && Less(k, column[r])
  {
    assert r in column && Less(k, column[r]) ==> column[r] in After(ix.Keys, k);
    if After(ix.Keys, k) != {} {
      var next := LeastKey(After(ix.Keys, k));
      assert ix[next] != {};
      assert SkipFull(ix, k, |ix[k]|) == InBucket(next, 0);
      AfterShrinks(ix.Keys, k, next);
      AscendingElements(ix[next]);
      if r in column && column[r] == next {
        assert r in Ascending(ix[next]);
        var j :| 0 <= j < |ix[next]| && Ascending(ix[next])[j] == r;
      }
    }
  }

  lemma {:induction false} OrderedYieldsAhead(ix: Index, column: map<nat, Key>, p: Place)
    requires Agrees(ix, column) && (p.InBucket? ==> OnRecord(ix, p))
    ensures forall r :: r in OrderedYields(ix, p) <==> Ahead(ix, column, p, r)
    ensures SortedBy(column, OrderedYields(ix, p))
    decreases if p.Done? then {} else {p.key} + After(ix.Keys, p.key), if p.Done? then 0 else |ix[p.key]| - p.sub
  {
    if p.InBucket? {
      var p' := OrderedNext(ix, p);
      OrderedNextIs(ix, p);
      Total(p.key, p.key);
      if p'.InBucket? && p'.key != p.key { AfterShrinks(ix.Keys, p.key, p'.key); Total(p'.key, p.key); }
      OrderedYieldsAhead(ix, column, p');
      var rest := OrderedYields(ix, p');
      assert OrderedYields(ix, p) == [RecordAt(ix, p)] + rest;
      forall r ensures r in OrderedYields(ix, p) <==> Ahead(ix, column, p, r) {
        StepAhead(ix, column, p, r);
      }
      forall j | 0 <= j < |rest| ensures Before(column, RecordAt(ix, p), rest[j]) {
        assert rest[j] in rest;
        StepAhead(ix, column, p, rest[j]);
      }
    }
  }

  /** An ordered cursor yields every record with the field set exactly once, in order. */
  lemma OrderedYieldsAll(db: Db, f: nat)
    requires Consistent(db) && f < |db.fields|
    ensures var rs := OrderedYields(db.index[f], OrderedStart(db.index[f]));
      && (forall r :: r in rs <==> r in Column(db, f))
      && SortedBy(Column(db, f), rs)
  {
    var ix, column := db.index[f], Column(db, f);
    var p := OrderedStart(ix);
    if p.InBucket? {
      assert ix[p.key] != {};
      AscendingElements(ix[p.key]);
      forall r | r in column ensures Ahead(ix, column, p, r) {
        assert column[r] in ix;
        if column[r] == p.key {
          assert r in Ascending(ix[p.key]);
          var j :| 0 <= j < |ix[p.key]| && Ascending(ix[p.key])[j] == r;
        }
      }
    }
    OrderedYieldsAhead(ix, column, p);
  }

  /* Deleting at an ordered cursor */

  lemma IncreasingWithout(a: seq<nat>, i: nat)
    requires StrictlyIncreasing(a) && i < |a|
    ensures var b := a[..i] + a[i + 1..];
      StrictlyIncreasing(b) && forall x :: x in b <==> x in a && x != a[i]
  {
    var b := a[..i] + a[i + 1..];
    assert forall j :: 0 <= j < i ==> b[j] == a[j];
    assert forall j :: i < j < |a| ==> b[j - 1] == a[j];
    forall x ensures x in b <==> x in a && x != a[i] {
      if x in a && x != a[i] {
        var j :| 0 <= j < |a| && a[j] == x;
        assert b[if j < i then j else j - 1] == x;
      }
    }
  }

  ghost predicate SameRecord(ix: Index, p: Place, ix': Index, p': Place)
    requires (p.InBucket? ==> OnRecord(ix, p)) && (p'.InBucket? ==> OnRecord(ix', p'))
  {
    p.Done? == p'.Done? && (p.InBucket? ==> RecordAt(ix, p) == RecordAt(ix', p'))
  }

  /** Deleting from the last position of a bucket leads to the same place as moving on. */
  lemma DeleteLast(ix: Index, column: map<nat, Key>, p: Place, ix': Index)
    requires Agrees(ix, column) && OnRecord(ix, p) && p.sub + 1 == |ix[p.key]|
    requires ix' == Unlink(ix, Some(p.key), RecordAt(ix, p))
    ensures OrderedNext(ix', p) == OrderedNext(ix, p)
    ensures SameRecord(ix, OrderedNext(ix, p), ix', OrderedNext(ix', p))
  {
    var r, k := RecordAt(ix, p), p.key;
    AscendingElements(ix[k]);
    assert r in ix[k];
    Total(k, k);
    OrderedNextIs(ix, p);
    assert After(ix'.Keys, k) == After(ix.Keys, k);
    if k in ix' {
      OrderedNextIs(ix', p);
      assert |ix'[k]| == |ix[k]| - 1;
    } else {
      forall x ensures x in From(ix'.Keys, k) <==> x in After(ix.Keys, k) { Total(x, k); }
      assert From(ix'.Keys, k) == After(ix.Keys, k);
    }
    if After(ix.Keys, k) != {} {
      var next := LeastKey(After(ix.Keys, k));
      assert ix'[next] == ix[next] && ix[next] != {};
    }
  }

  /** Deleting from an earlier position of a bucket skips the record after it. */
  lemma DeleteSkips(ix: Index, column: map<nat, Key>, p: Place, ix': Index)
    requires Agrees(ix, column) && OnRecord(ix, p) && p.sub + 1 < |ix[p.key]|
    requires ix' == Unlink(ix, Some(p.key), RecordAt(ix, p))
    ensures !SameRecord(ix, OrderedNext(ix, p), ix', OrderedNext(ix', p))
  {
    var k, bucket := p.key, Ascending(ix[p.key]);
    AscendingElements(ix[k]);
    assert bucket[p.sub] in ix[k] && bucket[p.sub + 1] in ix[k];
    UnlinkAgrees(ix, column, bucket[p.sub]);
    assert bucket[p.sub + 1] in ix[k] - {bucket[p.sub]};
    assert k in ix' && ix'[k] == ix[k] - {bucket[p.sub]};
    OrderedNextIs(ix, p);
    OrderedNextIs(ix', p);
    SkippedRecord(ix', column - {bucket[p.sub]}, p, bucket);
  }

  /** What the cursor finds once position `p.sub` of `bucket` has gone. */
  lemma SkippedRecord(ix: Index, column: map<nat, Key>, p: Place, bucket: seq<nat>)
    requires Agrees(ix, column) && p.InBucket? && p.key in ix && StrictlyIncreasing(bucket)
    requires p.sub + 1 < |bucket| && |ix[p.key]| == |bucket| - 1
    requires forall r :: r in ix[p.key] <==> r in bucket && r != bucket[p.sub]
    ensures var p' := SkipFull(ix, p.key, p.sub + 1);
      p'.InBucket? ==> RecordAt(ix, p') != bucket[p.sub + 1]
  {
    var k, p' := p.key, SkipFull(ix, p.key, p.sub + 1);
    if p.sub + 2 < |bucket| {
      AscendingElements(ix[k]);
      IncreasingWithout(bucket, p.sub);
      var without := bucket[..p.sub] + bucket[p.sub + 1..];
      IncreasingUnique(Ascending(ix[k]), without);
      assert without[p.sub + 1] == bucket[p.sub + 2];
    } else if p'.InBucket? {
      assert p'.key != k by { Total(k, k); }
      assert bucket[p.sub + 1] in ix[k];
      OtherBucket(ix, column, p', bucket[p.sub + 1]);
    }
  }

  lemma OtherBucket(ix: Index, column: map<nat, Key>, p: Place, r: nat)
    requires Agrees(ix, column) && OnRecord(ix, p) && r in column && column[r] != p.key
    ensures RecordAt(ix, p) != r
  {
    AscendingElements(ix[p.key]);
    assert RecordAt(ix, p) in ix[p.key];
  }

  /** After deleting the current record, the cursor moves to the record that was next exactly
      when the deleted one was the last with its key. */
  lemma DeleteAdvances(ix: Index, column: map<nat, Key>, p: Place)
    requires Agrees(ix, column) && OnRecord(ix, p)
    ensures var ix' := Unlink(ix, Some(p.key), RecordAt(ix, p));
      SameRecord(ix, OrderedNext(ix, p), ix', OrderedNext(ix', p)) <==> p.sub + 1 == |ix[p.key]|
  {
    var ix' := Unlink(ix, Some(p.key), RecordAt(ix, p));
    if p.sub + 1 == |ix[p.key]| {
      DeleteLast(ix, column, p, ix');
    } else {
      DeleteSkips(ix, column, p, ix');
    }
  }

  lemma BucketWithout(ix: Index, k: Key, i: nat)
    requires i < |Bucket(ix, k)|
    ensures var b := Bucket(ix, k); Bucket(Unlink(ix, Some(k), b[i]), k) == b[..i] + b[i + 1..]
  {
    var b := Bucket(ix, k);
    AscendingElements(ix[k]);
    IncreasingWithout(b, i);
    assert b[i] in ix[k];
    AscendingElements(ix[k] - {b[i]});
    if ix[k] - {b[i]} == {} {
      assert forall x :: x in b <==> x == b[i];
      assert |b| == 1;
    } else {
      IncreasingUnique(Ascending(ix[k] - {b[i]}), b[..i] + b[i + 1..]);
    }
  }

  /** The same of a cursor over one bucket: it counts, so what closes up behind the deleted
      record is passed over. */
  lemma IndexedDeleteAdvances(ix: Index, k: Key, sub: nat)
    requires sub < |Bucket(ix, k)|
    ensures var ix' := Unlink(ix, Some(k), Bucket(ix, k)[sub]);
      && BucketAt(ix', k, sub + 1) == BucketAt(ix, k, sub + 2)
      && (BucketAt(ix', k, sub + 1) == BucketAt(ix, k, sub + 1) <==> sub + 1 == |Bucket(ix, k)|)
  {
    BucketWithout(ix, k, sub);
    if k in ix { AscendingElements(ix[k]); }
  }

  /* Collating cursors */

  /** A string key is worth yielding if one of its records satisfies the query; an integer key always is. */
  predicate KeyWanted(t: Tree, db: Db, f: nat, k: Key)
    requires t.WellFormed() && f < |db.fields| == |db.index|
  {
    db.fields[f].ftype == IntField || (k in db.index[f] && exists r | r in db.index[f][k] :: Matches(t, db, r))
  }

  function CollateFrom(t: Tree, db: Db, f: nat, todo: set<Key>): Option<Key>
    requires t.WellFormed() && f < |db.fields| == |db.index|
  {
    if todo == {} then None
    else if KeyWanted(t, db, f, LeastKey(todo)) then Some(LeastKey(todo))
    else CollateFrom(t, db, f, todo - {LeastKey(todo)})
  }

  lemma {:induction false} CollateFromIs(t: Tree, db: Db, f: nat, todo: set<Key>)
    requires t.WellFormed() && f < |db.fields| == |db.index|
    ensures match CollateFrom(t, db, f, todo)
      case None => forall k :: k in todo ==> !KeyWanted(t, db, f, k)
      case Some(x) => x in todo && KeyWanted(t, db, f, x) && forall k :: k in todo && Less(k, x) ==> !KeyWanted(t, db, f, k)
  {
    if todo != {} {
      var m := LeastKey(todo);
      Total(m, m);
      forall k | k in todo && k != m ensures !Less(k, m) { Total(k, m); }
      if !KeyWanted(t, db, f, m) {
        CollateFromIs(t, db, f, todo - {m});
      }
    }
  }

  function CollateYields(t: Tree, db: Db, f: nat, todo: set<Key>): seq<Key>
    requires t.WellFormed() && f < |db.fields| == |db.index|
    decreases todo
  {
    var k := CollateFrom(t, db, f, todo);
    CollateFromIs(t, db, f, todo);
    if k.None? then [] else
      Total(k.value, k.value);
      [k.value] + CollateYields(t, db, f, After(todo, k.value))
  }

  ghost predicate SortedKeys(ks: seq<Key>) {
    forall i, j :: 0 <= i < j < |ks| ==> Less(ks[i], ks[j])
  }

  /** A collating cursor yields each wanted key once, in ascending order. */
  lemma {:induction false} CollateYieldsWanted(t: Tree, db: Db, f: nat, todo: set<Key>)
    requires t.WellFormed() && f < |db.fields| == |db.index|
    ensures forall k :: k in CollateYields(t, db, f, todo) <==> k in todo && KeyWanted(t, db, f, k)
    ensures SortedKeys(CollateYields(t, db, f, todo))
    decreases todo
  {
    var c := CollateFrom(t, db, f, todo);
    CollateFromIs(t, db, f, todo);
    if c.Some? {
      Total(c.value, c.value);
      var rest := CollateYields(t, db, f, After(todo, c.value));
      CollateYieldsWanted(t, db, f, After(todo, c.value));
      assert CollateYields(t, db, f, todo) == [c.value] + rest;
      forall k ensures k in [c.value] + rest <==> k in todo && KeyWanted(t, db, f, k) { Total(k, c.value); }
      forall j | 0 <= j < |rest| ensures Less(c.value, rest[j]) { assert rest[j] in rest; }
    }
  }

  /** In terms of the records: string collation gives the sorted distinct values of the matching
      records, integer collation those of all records, whatever the query asks. */
  lemma CollateYieldsValues(t: Tree, db: Db, f: nat)
    requires t.WellFormed() && Consistent(db) && f < |db.fields|
    ensures var ks := CollateYields(t, db, f, db.index[f].Keys);
      && SortedKeys(ks)
      && forall k :: k in ks <==> exists r :: r in Column(db, f) && Column(db, f)[r] == k
                                    && (db.fields[f].ftype == IntField || Matches(t, db, r))
  {
    var ix, column, ks := db.index[f], Column(db, f), CollateYields(t, db, f, db.index[f].Keys);
    CollateYieldsWanted(t, db, f, ix.Keys);
    forall k ensures k in ks <==>
      exists r :: r in column && column[r] == k && (db.fields[f].ftype == IntField || Matches(t, db, r))
    {
      if k in ks {
        assert ix[k] != {};
        var r :| r in ix[k] && (db.fields[f].ftype == IntField || Matches(t, db, r));
        assert r in column && column[r] == k;
      }
    }
  }
}
