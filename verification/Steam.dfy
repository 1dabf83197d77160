/** The in-memory database as it runs: records, indexes and cursors changed in place. */
module Steam {
  import opened Common
  import opened Ordering
  import opened Decimal
  import opened Keys
  import opened SteamModel
  import opened SteamQuery
  import opened SteamOrder

  class Database {
    const fields: seq<FieldInfo>
    var rows: map<nat, Row>
    var index: seq<Index>
    var next: nat

    ghost function St(): Db
      reads this
    {
      Db(fields, rows, index, next)
    }

    ghost predicate Valid()
      reads this
    {
      Consistent(St())
    }

    constructor (fields: seq<FieldInfo>)
      ensures Valid() && St() == Create(fields)
    {
      this.fields := fields;
      rows, index, next := map[], seq(|fields|, _ => map[]), 0;
      new;
      RunConsistent(fields, []);
    }
  }

  /** The part of a cursor that reads and writes the record it is on. */
  class Recordset {
    const db: Database
    var record: nat
    var eof: bool

    /** Start on the first record, if there is one. */
    constructor (db: Database)
      ensures this.db == db
      ensures Position() == if db.rows.Keys == {} then AtEnd else At(Least(db.rows.Keys))
    {
      this.db := db;
      record := if db.rows.Keys == {} then 0 else Least(db.rows.Keys);
      eof := db.rows.Keys == {};
    }

    ghost function Position(): Cursor
      reads this
    {
      if eof then AtEnd else At(record)
    }

    /** Whether there is a record to work on. */
    ghost predicate Live()
      reads this, db
    {
      !eof && record in db.rows
    }

    method GetInteger(which: nat) returns (n: nat)
      requires db.Valid() && which < |db.fields|
      modifies db
      ensures db.Valid() && SameView(old(db.St()), db.St())
      ensures db.St() == if old(Live()) then Cache(old(db.St()), record, which) else old(db.St())
      ensures n == if old(Live()) then IntOf(old(db.rows)[record][which]) else 0
    {
      if eof || record !in db.rows {
        return 0;
      }
      CacheConsistent(db.St(), record, which);
      var v := db.rows[record][which];
      if v.ivalid {
        return v.i;
      }
      if v.svalid {
        n := ParseUint32(v.s);
        db.rows := db.rows[record := db.rows[record][which := v.(i := n, ivalid := true)]];
        return n;
      }
      return 0;
    }

    method GetString(which: nat) returns (s: string)
      requires db.Valid() && which < |db.fields|
      ensures s == if Live() then StringOf(db.rows[record][which]) else ""
    {
      if eof || record !in db.rows {
        return "";
      }
      var v := db.rows[record][which];
      if v.svalid {
        return v.s;
      }
      if v.ivalid && v.i != 0 {
        return Digits(v.i);
      }
      return "";
    }

    method SetString(which: nat, s: string) returns (rc: nat)
      requires db.Valid() && which < |db.fields|
      modifies db
      ensures db.Valid()
      ensures if old(Live()) then rc == 0 && db.St() == SteamModel.SetString(old(db.St()), record, which, s)
        else rc == ENOENT && db.St() == old(db.St())
    {
      if eof || record !in db.rows {
        return ENOENT;
      }
      SetStringConsistent(db.St(), record, which, s);
      var v := db.rows[record][which];
      if v.svalid && v.s == s {
        return 0;
      }
      var ix;
      ix, v := StringChange(db.fields[which], db.index[which], v, s);
      db.index := db.index[which := ix];
      db.rows := db.rows[record := db.rows[record][which := v]];
      assert db.St() == SteamModel.SetString(old(db.St()), record, which, s);
      rc := 0;
    }

    /** The field's index and value once `s` is stored in it. */
    method StringChange(info: FieldInfo, ix: Index, v: FieldValue, s: string) returns (ix': Index, v': FieldValue)
      requires !(v.svalid && v.s == s)
      ensures v' == WithString(info, v, s)
      ensures ix' == if info.indexed then Link(Unlink(ix, KeyOf(info.ftype, v), record), KeyOf(info.ftype, v').value, record) else ix
    {
      ix', v' := ix, v;
      if info.indexed && info.ftype == StringField {
        if v.svalid {
          ix' := Unlink(ix', Some(StrKey(v.s)), record);
        }
        ix' := Link(ix', StrKey(s), record);
        v' := v'.(ivalid := false);
      } else if info.indexed {
        if v.ivalid {
          ix' := Unlink(ix', Some(IntKey(v.i)), record);
        }
        v' := v'.(i := ParseUint32(s), ivalid := true);
        ix' := Link(ix', IntKey(v'.i), record);
      } else {
        v' := v'.(ivalid := false);
      }
      if info.ftype == IntField {
        if !v'.ivalid {
          v' := v'.(i := ParseUint32(s), ivalid := true);
        }
        v' := v'.(s := Digits(v'.i));
      } else {
        v' := v'.(s := s);
      }
      v' := v'.(svalid := true);
    }

    method SetInteger(which: nat, n: nat) returns (rc: nat)
      requires db.Valid() && which < |db.fields| && n < UINT32
      modifies db
      ensures db.Valid()
      ensures if old(Live()) then rc == 0 && db.St() == SteamModel.SetInteger(old(db.St()), record, which, n)
        else rc == ENOENT && db.St() == old(db.St())
    {
      if eof || record !in db.rows {
        return ENOENT;
      }
      SetIntegerConsistent(db.St(), record, which, n);
      var ix, v := IntegerChange(db.fields[which], db.index[which], db.rows[record][which], n);
      db.index := db.index[which := ix];
      db.rows := db.rows[record := db.rows[record][which := v]];
      assert db.St() == SteamModel.SetInteger(old(db.St()), record, which, n);
      rc := 0;
    }

    /** The field's index and value once `n` is stored in it. */
    method IntegerChange(info: FieldInfo, ix: Index, v: FieldValue, n: nat) returns (ix': Index, v': FieldValue)
      ensures v' == WithInteger(info, v, n)
      ensures ix' == if info.indexed then Link(Unlink(ix, KeyOf(info.ftype, v), record), KeyOf(info.ftype, v').value, record) else ix
    {
      ix', v' := ix, v;
      if info.indexed && info.ftype == IntField {
        if v.ivalid {
          ix' := Unlink(ix', Some(IntKey(v.i)), record);
        }
        ix' := Link(ix', IntKey(n), record);
        v' := v'.(svalid := false);
      } else if info.indexed {
        if v.svalid {
          ix' := Unlink(ix', Some(StrKey(v.s)), record);
        }
        v' := v'.(s := Digits(n), svalid := true);
        ix' := Link(ix', StrKey(v'.s), record);
      } else {
        v' := v'.(svalid := false);
      }
      v' := v'.(i := n, ivalid := true);
    }

    method AddRecord() returns (rc: nat)
      requires db.Valid()
      modifies this, db
      ensures db.Valid() && db.St() == Add(old(db.St()))
      ensures rc == 0 && Position() == At(old(db.next)) && Live()
    {
      AddConsistent(db.St());
      record := db.next;
      db.rows := db.rows[db.next := seq(|db.fields|, _ => UNSET)];
      db.next := db.next + 1;
      eof := false;
      rc := 0;
    }

    /** Delete the record, leaving it to the cursor to move on. */
    method RemoveRecord() returns (rc: nat)
      requires db.Valid()
      modifies db
      ensures db.Valid()
      ensures if old(Live()) then rc == 0 && db.St() == Delete(old(db.St()), record)
        else rc == ENOENT && db.St() == old(db.St())
    {
      if eof || record !in db.rows {
        return ENOENT;
      }
      DeleteConsistent(db.St(), record);
      var f := 0;
      while f < |db.fields|
        invariant f <= |db.fields| && db.rows == old(db.rows) && db.next == old(db.next) && |db.index| == |db.fields|
        invariant UnlinkFrom(db.St(), record, f) == UnlinkFrom(old(db.St()), record, 0)
      {
        var v := db.rows[record][f];
        assert db.index == db.index[f := db.index[f]];
        if db.fields[f].indexed {
          if db.fields[f].ftype == IntField {
            if v.ivalid {
              db.index := db.index[f := Unlink(db.index[f], Some(IntKey(v.i)), record)];
            }
          } else if v.svalid {
            db.index := db.index[f := Unlink(db.index[f], Some(StrKey(v.s)), record)];
          }
        }
        f := f + 1;
      }
      db.rows := db.rows - {record};
      rc := 0;
    }
  }

  /** A query: restrictions and relations pushed one after another. */
  class Query {
    const like: (string, string) -> bool
    var restrictions: seq<Restriction>
    var relations: seq<Relation>
    var root: int
    var orderBy: seq<nat>
    var collateBy: seq<nat>

    ghost function T(): Tree
      reads this
    {
      Tree(restrictions, relations, root, orderBy, collateBy, like)
    }

    constructor (like: (string, string) -> bool)
      ensures T() == Tree([], [], 0, [], [], like)
    {
      this.like := like;
      restrictions, relations, root, orderBy, collateBy := [], [], 0, [], [];
    }

    method RestrictString(which: nat, rt: Comparison, val: string) returns (e: int)
      modifies this
      ensures (T(), e) == PushRestriction(old(T()), Restriction(which, rt, true, val, 0))
    {
      restrictions := restrictions + [Restriction(which, rt, true, val, 0)];
      e := |restrictions|;
    }

    method RestrictInteger(which: nat, rt: Comparison, val: nat) returns (e: int)
      modifies this
      ensures (T(), e) == PushRestriction(old(T()), Restriction(which, rt, false, "", val))
    {
      restrictions := restrictions + [Restriction(which, rt, false, "", val)];
      e := |restrictions|;
    }

    method And(a: int, b: int) returns (e: int)
      requires T().Refers(a) && T().Refers(b)
      modifies this
      ensures (T(), e) == PushRelation(old(T()), true, a, b)
    {
      relations := relations + [Relation(true, a, b)];
      e := -|relations|;
    }

    method Or(a: int, b: int) returns (e: int)
      requires T().Refers(a) && T().Refers(b)
      modifies this
      ensures (T(), e) == PushRelation(old(T()), false, a, b)
    {
      relations := relations + [Relation(false, a, b)];
      e := -|relations|;
    }

    method Where(e: int)
      requires e == 0 || T().Refers(e)
      modifies this
      ensures T() == old(T()).(root := e)
    {
      root := e;
    }

    /** Whether every field a restriction names exists. */
    ghost predicate Fits(db: Database)
      reads this
    {
      && (forall k :: 0 <= k < |restrictions| ==> restrictions[k].which < |db.fields|)
      && (forall k :: 0 <= k < |orderBy| ==> orderBy[k] < |db.fields|)
      && (forall k :: 0 <= k < |collateBy| ==> collateBy[k] < |db.fields|)
    }

    /** Evaluating may convert and keep integer values; no reader can tell. */
    method MatchElement(rs: Recordset, e: int) returns (b: bool)
      requires T().WellFormed() && T().Refers(e) && Fits(rs.db) && rs.db.Valid() && rs.Live()
      modifies rs.db
      ensures rs.db.Valid() && SameView(old(rs.db.St()), rs.db.St())
      ensures b == SteamQuery.MatchElement(T(), old(rs.db.St()), rs.record, e)
      decreases if e > 0 then 0 else -e
    {
      if e > 0 {
        var r := restrictions[e - 1];
        if r.isString {
          var val := rs.GetString(r.which);
          match r.rt {
            case EQ => b := val == r.sval;
            case NE => b := val != r.sval;
            case _ => b := like(val, r.sval);
          }
        } else {
          var val := rs.GetInteger(r.which);
          match r.rt {
            case EQ => b := val == r.ival;
            case NE => b := val != r.ival;
            case GT => b := val > r.ival;
            case LT => b := val < r.ival;
            case LE => b := val <= r.ival;
            case _ => b := val >= r.ival;
          }
        }
      } else {
        var rel := relations[-e - 1];
        b := MatchElement(rs, rel.a);
        if rel.anditive == b {
          MatchElementSameView(T(), old(rs.db.St()), rs.db.St(), rs.record, rel.b);
          ghost var mid := rs.db.St();
          b := MatchElement(rs, rel.b);
          SameViewTrans(old(rs.db.St()), mid, rs.db.St());
        }
      }
    }

    method Match(rs: Recordset) returns (b: bool)
      requires T().WellFormed() && Fits(rs.db) && rs.db.Valid() && rs.Live()
      modifies rs.db
      ensures rs.db.Valid() && SameView(old(rs.db.St()), rs.db.St())
      ensures b == Matches(T(), old(rs.db.St()), rs.record)
    {
      if root == 0 {
        return true;
      }
      b := MatchElement(rs, root);
    }
  }

  lemma SameViewTrans(a: Db, b: Db, c: Db)
    requires SameView(a, b) && SameView(b, c)
    ensures SameView(a, c)
  {
    forall r: nat, f: nat ensures HasField(a, r, f) <==> HasField(c, r, f) {
      assert HasField(a, r, f) <==> HasField(b, r, f);
    }
    forall r: nat, f: nat | HasField(a, r, f)
      ensures IntOf(c.rows[r][f]) == IntOf(a.rows[r][f]) && StringOf(c.rows[r][f]) == StringOf(a.rows[r][f])
    {
      assert HasField(b, r, f);
    }
  }

  lemma {:induction false} ScanSameView(t: Tree, a: Db, b: Db, todo: set<nat>)
    requires t.WellFormed() && SameView(a, b)
    ensures ScanFrom(t, a, todo) == ScanFrom(t, b, todo)
  {
    if todo != {} {
      if t.root != 0 { MatchElementSameView(t, a, b, Least(todo), t.root); }
      ScanSameView(t, a, b, todo - {Least(todo)});
    }
  }

  /** Every record that satisfies a query, in record order. */
  class SimpleRecordset {
    const rs: Recordset
    const query: Query

    constructor (db: Database, query: Query)
      requires db.Valid() && query.T().WellFormed() && query.Fits(db)
      modifies db
      ensures rs.db == db && this.query == query && fresh(rs)
      ensures db.Valid() && SameView(old(db.St()), db.St())
      ensures rs.Position() == ScanFrom(query.T(), old(db.St()), old(db.rows.Keys))
    {
      rs := new Recordset(db);
      this.query := query;
      new;
      if !rs.eof {
        var b := query.Match(rs);
        if !b {
          ghost var mid := db.St();
          ScanSameView(query.T(), old(db.St()), mid, Above(db.rows.Keys, rs.record));
          assert Above(db.rows.Keys, rs.record) == db.rows.Keys - {rs.record};
          MoveNext();
          SameViewTrans(old(db.St()), mid, db.St());
        }
      }
    }

    /** Go to the next record that matches, also if the current one has gone. */
    method MoveNext()
      requires rs.db.Valid() && query.T().WellFormed() && query.Fits(rs.db)
      modifies rs, rs.db
      ensures rs.db.Valid() && SameView(old(rs.db.St()), rs.db.St())
      ensures rs.Position() == if old(rs.eof) then AtEnd else
        ScanFrom(query.T(), old(rs.db.St()), Above(old(rs.db.rows.Keys), old(rs.record)))
    {
      if rs.eof {
        return;
      }
      ghost var t := query.T();
      while true
        invariant rs.db.Valid() && SameView(old(rs.db.St()), rs.db.St()) && !rs.eof && query.T() == t
        invariant ScanFrom(t, old(rs.db.St()), Above(old(rs.db.rows.Keys), old(rs.record)))
          == ScanFrom(t, rs.db.St(), Above(rs.db.rows.Keys, rs.record))
        decreases Above(rs.db.rows.Keys, rs.record)
      {
        var above := Above(rs.db.rows.Keys, rs.record);
        if above == {} {
          rs.eof := true;
          return;
        }
        rs.record := Least(above);
        assert Above(rs.db.rows.Keys, rs.record) == above - {rs.record};
        label before:
        ghost var mid := rs.db.St();
        var b := query.Match(rs);
        SameViewTrans(old(rs.db.St()), mid, rs.db.St());
        if b {
          return;
        }
        ScanSameView(t, mid, rs.db.St(), Above(rs.db.rows.Keys, rs.record));
      }
    }

    /** Deleting is safe here: the next match is found by record number. */
    method Delete() returns (rc: nat)
      requires rs.db.Valid() && query.T().WellFormed() && query.Fits(rs.db)
      modifies rs, rs.db
      ensures rs.db.Valid()
      ensures if old(rs.Live()) then
          && rc == 0
          && SameView(SteamModel.Delete(old(rs.db.St()), old(rs.record)), rs.db.St())
          && rs.Position() == ScanFrom(query.T(), SteamModel.Delete(old(rs.db.St()), old(rs.record)),
                                       Above(old(rs.db.rows.Keys) - {old(rs.record)}, old(rs.record)))
        else rc == ENOENT && rs.db.St() == old(rs.db.St()) && rs.Position() == old(rs.Position())
    {
      ghost var live := rs.Live();
      if live {
        DeleteConsistent(rs.db.St(), rs.record);
      }
      rc := rs.RemoveRecord();
      if rc == 0 {
        MoveNext();
      }
    }
  }

  /** The records under one key of an index. */
  class IndexedRecordset {
    const rs: Recordset
    const field: nat
    const key: Key
    var sub: nat

    constructor (db: Database, field: nat, key: Key)
      requires db.Valid() && field < |db.fields|
      ensures rs.db == db && this.field == field && this.key == key && fresh(rs) && sub == 0
      ensures rs.Position() == BucketAt(db.index[field], key, 0)
    {
      rs := new Recordset(db);
      this.field, this.key, sub := field, key, 0;
      new;
      var ix := db.index[field];
      if key !in ix {
        rs.eof := true;
      } else {
        assert Agrees(ix, Column(db.St(), field));
        AscendingElements(ix[key]);
        rs.eof := false;
        rs.record := Ascending(ix[key])[0];
      }
    }

    method MoveNext()
      requires rs.db.Valid() && field < |rs.db.fields|
      modifies this, rs
      ensures if old(rs.eof) then rs.eof
        else rs.Position() == BucketAt(rs.db.index[field], key, old(sub) + 1)
      ensures !rs.eof ==> sub == old(sub) + 1
    {
      if rs.eof {
        return;
      }
      var ix := rs.db.index[field];
      if key !in ix {
        rs.eof := true;
        return;
      }
      AscendingElements(ix[key]);
      sub := sub + 1;
      if sub >= |ix[key]| {
        rs.eof := true;
        return;
      }
      rs.record := Ascending(ix[key])[sub];
    }

    /** Delete the record and move on, counting on from where it was. */
    method Delete() returns (rc: nat)
      requires rs.db.Valid() && field < |rs.db.fields|
      modifies this, rs, rs.db
      ensures rs.db.Valid()
      ensures if old(rs.Live()) then
          && rc == 0
          && rs.db.St() == SteamModel.Delete(old(rs.db.St()), old(rs.record))
          && rs.Position() == BucketAt(rs.db.index[field], key, old(sub) + 1)
        else rc == ENOENT && rs.db.St() == old(rs.db.St()) && rs.Position() == old(rs.Position()) && sub == old(sub)
    {
      if rs.Live() {
        DeleteConsistent(rs.db.St(), rs.record);
      }
      rc := rs.RemoveRecord();
      if rc == 0 {
        MoveNext();
      }
    }
  }

  /** Every record with a field set, in the order of that field. */
  class OrderedRecordset {
    const rs: Recordset
    const field: nat
    var key: Key
    var sub: nat

    ghost function Where(): Place
      reads this, rs
    {
      if rs.eof then Done else InBucket(key, sub)
    }

    /** The record is the one at the cursor's place. */
    ghost predicate Settled()
      requires rs.db.Valid() && field < |rs.db.fields|
      reads this, rs, rs.db
    {
      !rs.eof ==> OnRecord(rs.db.index[field], Where()) && rs.record == RecordAt(rs.db.index[field], Where())
    }

    constructor (db: Database, field: nat)
      requires db.Valid() && field < |db.fields|
      ensures rs.db == db && this.field == field && fresh(rs)
      ensures Where() == OrderedStart(db.index[field]) && Settled()
    {
      rs := new Recordset(db);
      this.field := field;
      key, sub := IntKey(0), 0;
      new;
      var ix := db.index[field];
      if ix.Keys == {} {
        rs.eof := true;
      } else {
        assert Agrees(ix, Column(db.St(), field));
        rs.eof := false;
        key := LeastKey(ix.Keys);
        AscendingElements(ix[key]);
        rs.record := Ascending(ix[key])[0];
      }
    }

    method MoveNext()
      requires rs.db.Valid() && field < |rs.db.fields|
      modifies this, rs
      ensures Where() == OrderedNext(rs.db.index[field], old(Where())) && Settled()
    {
      if rs.eof {
        return;
      }
      var ix := rs.db.index[field];
      var later := From(ix.Keys, key);
      if later == {} {
        rs.eof := true;
        return;
      }
      var k := LeastKey(later);
      var n: nat := if k != key then 0 else sub + 1;
      while n >= |ix[k]|
        invariant k in ix && !rs.eof
        invariant SkipFull(ix, k, n) == OrderedNext(ix, old(Where()))
        decreases After(ix.Keys, k)
      {
        var rest := After(ix.Keys, k);
        if rest == {} {
          rs.eof := true;
          return;
        }
        AfterShrinks(ix.Keys, k, LeastKey(rest));
        k, n := LeastKey(rest), 0;
      }
      key, sub := k, n;
      AscendingElements(ix[k]);
      rs.record := Ascending(ix[k])[n];
    }

    method Delete() returns (rc: nat)
      requires rs.db.Valid() && field < |rs.db.fields| && Settled()
      modifies this, rs, rs.db
      ensures rs.db.Valid() && Settled()
      ensures if old(rs.eof) then rc == ENOENT && rs.eof && rs.db.St() == old(rs.db.St())
        else
          && rc == 0
          && old(rs.record) in old(rs.db.rows)
          && rs.db.St() == SteamModel.Delete(old(rs.db.St()), old(rs.record))
          && Where() == OrderedNext(rs.db.index[field], old(Where()))
    {
      if !rs.eof {
        PlaceInRows(rs.db.St(), field, Where());
      }
      rc := rs.RemoveRecord();
      if rc == 0 {
        MoveNext();
      }
    }
  }

  lemma PlaceInRows(db: Db, f: nat, p: Place)
    requires Consistent(db) && f < |db.fields| && OnRecord(db.index[f], p)
    ensures RecordAt(db.index[f], p) in Column(db, f) && Column(db, f)[RecordAt(db.index[f], p)] == p.key
  {
    AscendingElements(db.index[f][p.key]);
    assert Agrees(db.index[f], Column(db, f));
  }

  lemma BucketInRows(db: Db, f: nat, key: Key)
    requires Consistent(db) && f < |db.fields| && key in db.index[f]
    ensures db.index[f][key] <= db.rows.Keys
  {
    assert Agrees(db.index[f], Column(db, f));
    forall r | r in db.index[f][key] ensures r in db.rows { assert r in Column(db, f); }
  }

  /** The distinct values of a field. */
  class CollateRecordset {
    const rs: Recordset // a cursor of its own, for asking the query about a record
    const field: nat
    const query: Query
    var key: Key
    var eof: bool

    ghost function Value(): Option<Key>
      reads this
    {
      if eof then None else Some(key)
    }

    constructor (db: Database, field: nat, query: Query)
      requires db.Valid() && field < |db.fields| && query.T().WellFormed() && query.Fits(db)
      modifies db
      ensures rs.db == db && this.field == field && this.query == query && fresh(rs)
      ensures db.Valid() && SameView(old(db.St()), db.St())
      ensures Value() == CollateFrom(query.T(), old(db.St()), field, old(db.index[field].Keys))
    {
      rs := new Recordset(db);
      this.field, this.query := field, query;
      key, eof := IntKey(0), false;
      new;
      MoveUntilValid(db.index[field].Keys);
    }

    /** Find the first of the keys `todo` that is wanted. */
    method MoveUntilValid(todo: set<Key>)
      requires rs.db.Valid() && field < |rs.db.fields| && query.T().WellFormed() && query.Fits(rs.db)
      requires todo <= rs.db.index[field].Keys && !eof
      modifies this, rs, rs.db
      ensures rs.db.Valid() && SameView(old(rs.db.St()), rs.db.St())
      ensures Value() == CollateFrom(query.T(), old(rs.db.St()), field, todo)
    {
      ghost var t, db0 := query.T(), rs.db.St();
      var left := todo;
      while true
        invariant rs.db.Valid() && SameView(db0, rs.db.St()) && !eof && query.T() == t
        invariant left <= todo
        invariant CollateFrom(t, db0, field, todo) == CollateFrom(t, db0, field, left)
        decreases left
      {
        if left == {} {
          eof := true;
          return;
        }
        key := LeastKey(left);
        if rs.db.fields[field].ftype == IntField {
          return;
        }
        ghost var mid := rs.db.St();
        BucketInRows(mid, field, key);
        KeyWantedSameView(t, db0, mid, field, key);
        var found := AnyMatch(rs.db.index[field][key]);
        SameViewTrans(db0, mid, rs.db.St());
        if found {
          return;
        }
        left := left - {key};
      }
    }

    /** Whether any of these records satisfies the query. */
    method AnyMatch(records: set<nat>) returns (found: bool)
      requires rs.db.Valid() && query.T().WellFormed() && query.Fits(rs.db) && records <= rs.db.rows.Keys
      modifies rs, rs.db
      ensures rs.db.Valid() && SameView(old(rs.db.St()), rs.db.St())
      ensures found <==> exists r :: r in records && Matches(query.T(), old(rs.db.St()), r)
    {
      ghost var t, db0 := query.T(), rs.db.St();
      var left := records;
      while left != {}
        invariant left <= records && rs.db.Valid() && SameView(db0, rs.db.St()) && query.T() == t
        invariant forall r :: r in records && r !in left ==> !Matches(t, db0, r)
        decreases left
      {
        rs.record := Least(left);
        rs.eof := false;
        ghost var mid := rs.db.St();
        found := query.Match(rs);
        if t.root != 0 { MatchElementSameView(t, db0, mid, rs.record, t.root); }
        SameViewTrans(db0, mid, rs.db.St());
        if found {
          return;
        }
        left := left - {rs.record};
      }
      found := false;
    }

    method MoveNext()
      requires rs.db.Valid() && field < |rs.db.fields| && query.T().WellFormed() && query.Fits(rs.db)
      requires !eof ==> key in rs.db.index[field]
      modifies this, rs, rs.db
      ensures rs.db.Valid() && SameView(old(rs.db.St()), rs.db.St())
      ensures Value() == if old(eof) then None
        else CollateFrom(query.T(), old(rs.db.St()), field, After(old(rs.db.index[field].Keys), old(key)))
    {
      if eof {
        return;
      }
      MoveUntilValid(After(rs.db.index[field].Keys, key));
    }
  }

  lemma KeyWantedSameView(t: Tree, a: Db, b: Db, f: nat, k: Key)
    requires t.WellFormed() && SameView(a, b) && f < |a.fields| == |a.index|
    ensures KeyWanted(t, a, f, k) == KeyWanted(t, b, f, k)
  {
    if t.root != 0 {
      forall r ensures Matches(t, a, r) == Matches(t, b, r) {
        MatchElementSameView(t, a, b, r, t.root);
      }
    }
  }

  /* Choosing a cursor */

  datatype AnyRecordset =
    | NoRecordset
    | Collated(c: CollateRecordset)
    | Ordered(o: OrderedRecordset)
    | Indexed(i: IndexedRecordset)
    | Simple(s: SimpleRecordset)

  /** The cursor a query gets is the one its access path names, at its start. */
  method Execute(db: Database, q: Query) returns (c: AnyRecordset)
    requires db.Valid() && q.T().WellFormed() && q.Fits(db)
    requires q.restrictions != [] ==> q.root != 0
    modifies db
    ensures db.Valid() && SameView(old(db.St()), db.St())
    ensures match AccessFor(q.T(), old(db.St()))
      case NoAccess => c.NoRecordset?
      case CollatePath(f) =>
        && c.Collated? && c.c.rs.db == db && c.c.field == f
        && c.c.Value() == CollateFrom(q.T(), old(db.St()), f, old(db.index[f].Keys))
      case OrderedPath(f) =>
        && c.Ordered? && c.o.rs.db == db && c.o.field == f
        && c.o.Where() == OrderedStart(old(db.index[f]))
      case IndexedPath(f, k) =>
        && c.Indexed? && c.i.rs.db == db && c.i.field == f && c.i.key == k
        && c.i.rs.Position() == BucketAt(old(db.index[f]), k, 0)
      case ScanPath =>
        && c.Simple? && c.s.rs.db == db
        && c.s.rs.Position() == ScanFrom(q.T(), old(db.St()), old(db.rows.Keys))
  {
    if q.collateBy != [] {
      var field := q.collateBy[0];
      if !db.fields[field].indexed || |q.collateBy| > 1 {
        return NoRecordset;
      }
      var r := new CollateRecordset(db, field, q);
      return Collated(r);
    }
    if q.orderBy != [] {
      var r := new OrderedRecordset(db, q.orderBy[0]);
      return Ordered(r);
    }
    if |q.restrictions| == 1 && q.restrictions[0].rt == EQ {
      var x := q.restrictions[0];
      if db.fields[x.which].indexed {
        var r := new IndexedRecordset(db, x.which, if x.isString then StrKey(x.sval) else IntKey(x.ival));
        return Indexed(r);
      }
    }
    var r := new SimpleRecordset(db, q);
    return Simple(r);
  }
}
