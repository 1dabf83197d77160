/** The sweep at the end of a scan: delete the records whose files are no longer there. */
module StaleSweep {
  import opened Common
  import opened Keys
  import opened SteamModel
  import opened SteamQuery
  import opened SteamOrder
  import opened Steam

  ghost predicate Unique(column: map<nat, Key>) {
    forall a, b :: a in column && b in column && column[a] == column[b] ==> a == b
  }

  /** The records of a column are enough to say what its index is. */
  lemma AgreesUnique(a: Index, b: Index, column: map<nat, Key>)
    requires Agrees(a, column) && Agrees(b, column)
    ensures a == b
  {
    forall k ensures k in a <==> k in b {
      if k in a {
        var r :| r in a[k];
        assert r in column && column[r] == k;
      }
      if k in b {
        var r :| r in b[k];
        assert r in column && column[r] == k;
      }
    }
    forall k | k in a ensures a[k] == b[k] {
      assert forall r :: r in a[k] <==> r in column && column[r] == k;
      assert forall r :: r in b[k] <==> r in column && column[r] == k;
    }
  }

  ghost predicate Passed(p: Place, k: Key) {
    p.Done? || Less(k, p.key)
  }

  /** With unique keys a bucket holds one record, and both moving on and deleting pass exactly its key. */
  lemma UniqueStep(ix: Index, column: map<nat, Key>, p: Place)
    requires Agrees(ix, column) && Unique(column) && OnRecord(ix, p) && p.sub == 0
    ensures var p' := OrderedNext(ix, p);
      && (p'.InBucket? ==> p'.sub == 0)
      && (forall k :: Passed(p, k) || k == p.key ==> Passed(p', k))
      && (forall k :: k in ix.Keys && Passed(p', k) ==> Passed(p, k) || k == p.key)
      && OrderedNext(Unlink(ix, Some(p.key), RecordAt(ix, p)), p) == p'
  {
    var bucket := ix[p.key];
    Ordering.AscendingElements(bucket);
    var r := RecordAt(ix, p);
    assert r in Ordering.Ascending(bucket);
    forall x | x in bucket ensures x == r { assert column[x] == column[r]; }
    assert bucket == {r};
    DeleteLast(ix, column, p, Unlink(ix, Some(p.key), r));
    OrderedNextIs(ix, p);
    Total(p.key, p.key);
    var later := After(ix.Keys, p.key);
    assert later != {} ==> ix[LeastKey(later)] != {};
    forall k ensures Passed(p, k) || k == p.key ==> Passed(OrderedNext(ix, p), k) {
      if later != {} && Less(k, p.key) { Trans(k, p.key, LeastKey(later)); }
    }
    forall k | k in ix.Keys && Passed(OrderedNext(ix, p), k) ensures Passed(p, k) || k == p.key {
      Total(k, p.key);
      assert Less(p.key, k) ==> k in later;
      if later != {} { Total(k, LeastKey(later)); }
    }
  }

  /** What is left of the column once everything before `p` has been dealt with. */
  ghost predicate SweptTo(was: map<nat, Key>, now: map<nat, Key>, scanned: set<Key>, p: Place) {
    && (forall r :: r in now <==> r in was && (was[r] in scanned || !Passed(p, was[r])))
    && (forall r :: r in now ==> now[r] == was[r])
  }

  lemma SweepStarts(ix: Index, was: map<nat, Key>, scanned: set<Key>)
    requires Agrees(ix, was) && scanned <= was.Values
    ensures SweptTo(was, was, scanned, OrderedStart(ix))
    ensures Unpassed(scanned, OrderedStart(ix)) == scanned
  {
    forall k | k in was.Values ensures !Passed(OrderedStart(ix), k) {
      var r :| r in was && was[r] == k;
      assert k in ix.Keys;
      Total(k, LeastKey(ix.Keys));
    }
  }

  /** Passing the key of a record that goes if it was not scanned, and stays if it was. */
  lemma SweptStep(ix: Index, was: map<nat, Key>, now: map<nat, Key>, scanned: set<Key>, p: Place, r: nat, p': Place)
    requires Agrees(ix, now) && Unique(now) && SweptTo(was, now, scanned, p)
    requires OnRecord(ix, p) && r in now && now[r] == p.key
    requires forall k :: Passed(p, k) || k == p.key ==> Passed(p', k)
    requires forall k :: k in ix.Keys && Passed(p', k) ==> Passed(p, k) || k == p.key
    ensures SweptTo(was, if p.key in scanned then now else now - {r}, scanned, p')
    ensures scanned <= was.Values ==> Unpassed(scanned, p') == Unpassed(scanned, p) - {p.key}
  {
    Total(p.key, p.key);
    forall x | x in was && !Passed(p, was[x]) ensures x in now && was[x] in ix.Keys {
    }
    if scanned <= was.Values {
      forall k | k in scanned ensures Passed(p', k) <==> Passed(p, k) || k == p.key {
        var x :| x in was && was[x] == k;
      }
    }
  }

  class FileScanner {
    const db: Database
    const path: nat // the field holding the unique path of each file

    constructor (db: Database, path: nat)
      ensures this.db == db && this.path == path
    {
      this.db, this.path := db, path;
    }

    ghost predicate Ready()
      reads this, db
    {
      && db.Valid() && path < |db.fields|
      && db.fields[path] == FieldInfo(StringField, true)
      && Unique(Column(db.St(), path))
    }

    ghost function Paths(): map<nat, Key>
      requires path < |db.fields|
      reads this, db
    {
      Column(db.St(), path)
    }

    /** Half-way through a sweep of what was once the column `was` of the records `rows`. */
    ghost predicate Sweeping(rs: OrderedRecordset, was: map<nat, Key>, rows: map<nat, Row>, scanned: set<Key>)
      reads this, db, rs, rs.rs, rs.rs.db
    {
      && Ready() && rs.rs.db == db && rs.field == path && rs.Settled() && (rs.rs.eof || rs.sub == 0)
      && SweptTo(was, Paths(), scanned, rs.Where())
      && db.rows == rows - (was.Keys - Paths().Keys)
    }

    /** What a step of the sweep may use about the record the cursor is on. */
    lemma SweepStep(rs: OrderedRecordset, was: map<nat, Key>, rows: map<nat, Row>, scanned: set<Key>)
      requires Sweeping(rs, was, rows, scanned) && !rs.rs.eof && scanned <= was.Values
      ensures var r, p' := rs.rs.record, OrderedNext(db.index[path], rs.Where());
        && r in Paths() && Paths()[r] == rs.key
        && (p'.InBucket? ==> p'.sub == 0)
        && OrderedNext(Unlink(db.index[path], Some(rs.key), r), rs.Where()) == p'
        && SweptTo(was, if rs.key in scanned then Paths() else Paths() - {r}, scanned, p')
        && Unpassed(scanned, p') == Unpassed(scanned, rs.Where()) - {rs.key}
    {
      PlaceInRows(db.St(), path, rs.Where());
      UniqueStep(db.index[path], Paths(), rs.Where());
      SweptStep(db.index[path], was, Paths(), scanned, rs.Where(), rs.rs.record, OrderedNext(db.index[path], rs.Where()));
    }

    /** Delete the current record, whose path was not scanned. */
    method DeleteStale(rs: OrderedRecordset, ghost was: map<nat, Key>, ghost rows: map<nat, Row>, ghost scanned: set<Key>)
      requires Sweeping(rs, was, rows, scanned) && !rs.rs.eof && rs.key !in scanned && scanned <= was.Values
      modifies rs, rs.rs, db
      ensures Sweeping(rs, was, rows, scanned)
      ensures Paths() == old(Paths()) - {old(rs.rs.record)} && old(rs.rs.record) in old(Paths())
      ensures Unpassed(scanned, rs.Where()) == Unpassed(scanned, old(rs.Where()))
    {
      ghost var st, r, p := db.St(), rs.rs.record, rs.Where();
      ghost var ix, column := db.index[path], Paths();
      SweepStep(rs, was, rows, scanned);
      DeleteConsistent(st, r);
      UnlinkAgrees(ix, column, r);
      RowsLess(rows, was, column, r);
      var rc := rs.Delete();
      AgreesUnique(db.index[path], Unlink(ix, Some(p.key), r), column - {r});
    }

    /** Pass a record whose path was scanned. */
    method PassScanned(rs: OrderedRecordset, ghost was: map<nat, Key>, ghost rows: map<nat, Row>, ghost scanned: set<Key>)
      requires Sweeping(rs, was, rows, scanned) && !rs.rs.eof && rs.key in scanned && scanned <= was.Values
      modifies rs, rs.rs
      ensures Sweeping(rs, was, rows, scanned) && Paths() == old(Paths())
      ensures Unpassed(scanned, rs.Where()) == Unpassed(scanned, old(rs.Where())) - {old(rs.key)}
    {
      SweepStep(rs, was, rows, scanned);
      rs.MoveNext();
    }

    /** The path of the record the cursor is on. */
    method PathAt(rs: OrderedRecordset) returns (s: string)
      requires Ready() && rs.rs.db == db && rs.field == path && rs.Settled() && !rs.rs.eof
      ensures StrKey(s) == rs.key
    {
      PlaceInRows(db.St(), path, rs.Where());
      s := rs.rs.GetString(path);
    }

    /** Keep exactly the records whose paths were scanned. */
    method OnFinished(scanned: set<Key>)
      requires Ready() && scanned <= Paths().Values
      modifies db
      ensures Ready()
      ensures Paths() == map r | r in old(Paths()) && old(Paths())[r] in scanned :: old(Paths())[r]
      ensures Paths().Values == scanned
      ensures db.rows == old(db.rows) - (old(Paths()).Keys - Paths().Keys)
    {
      ghost var was, rows := Paths(), db.rows;
      SweepStarts(db.index[path], was, scanned);
      var rs := new OrderedRecordset(db, path);
      Merge(rs, was, rows, scanned);
      DeleteRest(rs, was, rows, scanned);
    }

    /** Walk both lists as long as both have something left. */
    method Merge(rs: OrderedRecordset, ghost was: map<nat, Key>, ghost rows: map<nat, Row>, scanned: set<Key>)
      requires Sweeping(rs, was, rows, scanned) && scanned <= was.Values && Unpassed(scanned, rs.Where()) == scanned
      modifies rs, rs.rs, db
      ensures Sweeping(rs, was, rows, scanned) && Unpassed(scanned, rs.Where()) == {}
    {
      var left := scanned;
      while !rs.rs.eof && left != {}
        invariant Sweeping(rs, was, rows, scanned) && left == Unpassed(scanned, rs.Where())
        decreases Paths().Keys, left
      {
        left := MergeStep(rs, was, rows, scanned, left);
      }
    }

    /** Compare the two paths at the front. */
    method MergeStep(rs: OrderedRecordset, ghost was: map<nat, Key>, ghost rows: map<nat, Row>, ghost scanned: set<Key>,
                     left: set<Key>) returns (left': set<Key>)
      requires Sweeping(rs, was, rows, scanned) && scanned <= was.Values
      requires !rs.rs.eof && left == Unpassed(scanned, rs.Where()) != {}
      modifies rs, rs.rs, db
      ensures Sweeping(rs, was, rows, scanned) && left' == Unpassed(scanned, rs.Where())
      ensures Paths().Keys < old(Paths().Keys) || (Paths().Keys == old(Paths().Keys) && left' < left)
    {
      var dbpath := PathAt(rs);
      var mappath := LeastKey(left);
      Total(rs.key, mappath);
      CurrentUnpassed(scanned, rs.Where());
      if Less(mappath, StrKey(dbpath)) {
        assert false; // the scan saw every path before this one
      } else if Less(StrKey(dbpath), mappath) {
        DeleteStale(rs, was, rows, scanned);
        left' := left;
      } else {
        PassScanned(rs, was, rows, scanned);
        left' := left - {mappath};
      }
    }

    /** Every path that was scanned has been passed. */
    method DeleteRest(rs: OrderedRecordset, ghost was: map<nat, Key>, ghost rows: map<nat, Row>, ghost scanned: set<Key>)
      requires Sweeping(rs, was, rows, scanned) && scanned <= was.Values && Unpassed(scanned, rs.Where()) == {}
      modifies rs, rs.rs, db
      ensures Ready()
      ensures Paths() == map r | r in was && was[r] in scanned :: was[r]
      ensures Paths().Values == scanned
      ensures db.rows == rows - (was.Keys - Paths().Keys)
    {
      while !rs.rs.eof
        invariant Sweeping(rs, was, rows, scanned) && Unpassed(scanned, rs.Where()) == {}
        decreases Paths().Keys
      {
        CurrentUnpassed(scanned, rs.Where());
        DeleteStale(rs, was, rows, scanned);
      }
      SweptAll(was, Paths(), scanned, rs.Where());
    }
  }

  ghost function Unpassed(scanned: set<Key>, p: Place): set<Key> {
    set k | k in scanned && !Passed(p, k)
  }

  lemma CurrentUnpassed(scanned: set<Key>, p: Place)
    requires p.InBucket?
    ensures p.key in scanned <==> p.key in Unpassed(scanned, p)
  {
    Total(p.key, p.key);
  }

  lemma RowsLess(rows: map<nat, Row>, was: map<nat, Key>, now: map<nat, Key>, r: nat)
    requires r in now && now.Keys <= was.Keys
    ensures (rows - (was.Keys - now.Keys)) - {r} == rows - (was.Keys - (now - {r}).Keys)
  {
  }

  lemma SweptAll(was: map<nat, Key>, now: map<nat, Key>, scanned: set<Key>, p: Place)
    requires SweptTo(was, now, scanned, p) && p.Done? && scanned <= was.Values
    ensures now == map r | r in was && was[r] in scanned :: was[r]
    ensures now.Values == scanned
  {
    forall k | k in scanned ensures k in now.Values {
      var r :| r in was && was[r] == k;
      assert r in now;
    }
  }
}
