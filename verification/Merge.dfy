/** The merged database as it runs: its places, its queries and its two kinds of recordset. */
module Merge {
  import opened Common
  import opened Children
  import opened MergeModel

  class LocalDatabase {
    var records: seq<Record>

    constructor (records: seq<Record>)
      ensures this.records == records
    {
      this.records := records;
    }

    method Execute(query: seq<Restriction>) returns (rs: Cursor)
      ensures fresh(rs) && rs.db == this && rs.recno == First(records, query, 0)
    {
      var i := 0;
      while i < |records| && !MeetsAll(records[i], query)
        invariant i <= |records| && First(records, query, 0) == First(records, query, i)
      {
        i := i + 1;
      }
      rs := new Cursor(this, i);
    }
  }

  /** A recordset of one of the databases, at one of its records or past the last. */
  class Cursor {
    const db: LocalDatabase
    var recno: nat

    constructor (db: LocalDatabase, recno: nat)
      ensures this.db == db && this.recno == recno
    {
      this.db, this.recno := db, recno;
    }

    predicate IsEOF()
      reads this, db
    {
      recno >= |db.records|
    }

    function GetInteger(which: nat): nat
      reads this, db
    {
      if IsEOF() then 0 else db.records[recno].Int(which)
    }

    function GetString(which: nat): seq<Byte>
      reads this, db
    {
      if IsEOF() then [] else db.records[recno].String(which)
    }

    method SetInteger(which: nat, value: nat) returns (rc: nat)
      modifies db
      ensures rc == (if old(IsEOF()) then EINVAL else 0)
      ensures |db.records| == |old(db.records)|
      ensures forall i | 0 <= i < |db.records| && i != recno :: db.records[i] == old(db.records[i])
      ensures !IsEOF() ==>
        db.records[recno] == old(db.records[recno]).(ints := old(db.records[recno]).ints[which := value])
    {
      if recno >= |db.records| {
        return EINVAL;
      }
      var r := db.records[recno];
      db.records := db.records[recno := r.(ints := r.ints[which := value])];
      rc := 0;
    }

    method SetString(which: nat, value: seq<Byte>) returns (rc: nat)
      modifies db
      ensures rc == (if old(IsEOF()) then EINVAL else 0)
      ensures |db.records| == |old(db.records)|
      ensures forall i | 0 <= i < |db.records| && i != recno :: db.records[i] == old(db.records[i])
      ensures !IsEOF() ==>
        db.records[recno] == old(db.records[recno]).(strings := old(db.records[recno]).strings[which := value])
    {
      if recno >= |db.records| {
        return EINVAL;
      }
      var r := db.records[recno];
      db.records := db.records[recno := r.(strings := r.strings[which := value])];
      rc := 0;
    }
  }

  /** Puts a database's number into ids. */
  method Tag(m: nat, these: seq<nat>) returns (tagged: seq<nat>)
    requires m < MAX_DATABASES && forall i | 0 <= i < |these| :: these[i] < LIMIT
    ensures tagged == TagAll(m, these) && forall i | 0 <= i < |tagged| :: tagged[i] < UINT32
  {
    tagged := these;
    for j := 0 to |these|
      invariant |tagged| == |these|
      invariant forall k | 0 <= k < j :: tagged[k] == Tagged(m, these[k]) && tagged[k] < UINT32
      invariant forall k | j <= k < |these| :: tagged[k] == these[k]
    {
      TaggedFits(m, these[j]);
      tagged := tagged[j := Tagged(m, these[j])];
    }
    assert tagged == TagAll(m, these);
  }

  /** A record of a database other than the first. */
  class WrapRecordset {
    const rs: Cursor
    const id: nat

    constructor (rs: Cursor, id: nat)
      ensures this.rs == rs && this.id == id
    {
      this.rs, this.id := rs, id;
    }

    method GetInteger(which: nat) returns (result: nat)
      ensures result == WrapInt(id, which, rs.GetInteger(which))
    {
      result := rs.GetInteger(which);
      if (which == ID || which == IDPARENT || which == IDHIGH) && result != BROWSE_ROOT && result != 0 {
        result := Tagged(id, result);
      }
    }

    method GetString(which: nat) returns (result: seq<Byte>)
      requires id < MAX_DATABASES
      ensures result == WrapString(id, which, rs.GetString(which))
    {
      result := rs.GetString(which);
      if which == CHILDREN && result != [] {
        var children := ChildrenToVector(result);
        DecodeBound(result);
        children := Tag(id, children);
        result := VectorToChildren(children);
      }
    }

    method SetInteger(which: nat, value: nat) returns (rc: nat)
      modifies rs.db
      ensures rc == (if old(rs.IsEOF()) then EINVAL else 0)
      ensures |rs.db.records| == |old(rs.db.records)|
      ensures forall i | 0 <= i < |rs.db.records| && i != rs.recno :: rs.db.records[i] == old(rs.db.records[i])
      ensures !rs.IsEOF() ==>
        rs.db.records[rs.recno]
        == old(rs.db.records[rs.recno]).(ints := old(rs.db.records[rs.recno]).ints[which := UnwrapInt(which, value)])
    {
      var v := value;
      if which == ID || which == IDHIGH || which == IDPARENT {
        v := v % TAG;
      }
      rc := rs.SetInteger(which, v);
    }

    method SetString(which: nat, value: seq<Byte>) returns (rc: nat)
      modifies rs.db
      ensures rc == (if old(rs.IsEOF()) then EINVAL else 0)
      ensures |rs.db.records| == |old(rs.db.records)|
      ensures forall i | 0 <= i < |rs.db.records| && i != rs.recno :: rs.db.records[i] == old(rs.db.records[i])
      ensures !rs.IsEOF() ==>
        rs.db.records[rs.recno]
        == old(rs.db.records[rs.recno]).(strings := old(rs.db.records[rs.recno]).strings[which := UnwrapString(which, value)])
    {
      if which != CHILDREN || value == [] {
        rc := rs.SetString(which, value);
        return;
      }
      var children := ChildrenToVector(value);
      ghost var before := children;
      for i := 0 to |children|
        invariant |children| == |before|
        invariant forall j | 0 <= j < i :: children[j] == before[j] % TAG
        invariant forall j | i <= j < |children| :: children[j] == before[j]
      {
        children := children[i := children[i] % TAG];
      }
      assert children == Untagged(before);
      var s := VectorToChildren(children);
      rc := rs.SetString(which, s);
    }
  }

  /** The root of the first database, showing every root's children. */
  class RootRecordset {
    const rs: Cursor
    const database: Database
    var children: seq<Byte>

    constructor (rs: Cursor, database: Database)
      ensures this.rs == rs && this.database == database && children == []
    {
      this.rs, this.database, children := rs, database, [];
    }

    /** The merged list is made when it is first asked for, and that list is given from then on. */
    method GetString(which: nat) returns (result: seq<Byte>)
      requires |database.databases| <= MAX_DATABASES
      modifies this
      ensures which != CHILDREN || rs.IsEOF() ==> result == rs.GetString(which) && children == old(children)
      ensures which == CHILDREN && !rs.IsEOF() ==>
        result == children == (if old(children) != [] then old(children) else RootString(database.Slots()))
    {
      if which != CHILDREN || rs.IsEOF() {
        return rs.GetString(which);
      }
      if children != [] {
        return children;
      }
      var all := database.MergeChildren();
      children := VectorToChildren(all);
      result := children;
    }

    /** The list already made is not made again. */
    method SetString(which: nat, value: seq<Byte>) returns (rc: nat)
      modifies rs.db
      ensures rc == (if old(rs.IsEOF()) then EINVAL else 0)
      ensures |rs.db.records| == |old(rs.db.records)|
      ensures forall i | 0 <= i < |rs.db.records| && i != rs.recno :: rs.db.records[i] == old(rs.db.records[i])
      ensures !rs.IsEOF() ==>
        rs.db.records[rs.recno]
        == old(rs.db.records[rs.recno]).(strings := old(rs.db.records[rs.recno]).strings[which := RootStored(which, value)])
    {
      if which != CHILDREN {
        rc := rs.SetString(which, value);
        return;
      }
      var v := ChildrenToVector(value);
      UntaggableBelow(v);
      forall i | 0 <= i < |Untaggable(v)| ensures Untaggable(v)[i] < UINT32 { assert Untaggable(v)[i] in Untaggable(v); }
      var s := VectorToChildren(Untaggable(v));
      rc := rs.SetString(which, s);
    }
  }

  datatype Answer =
    | NullRecordset
    | EmptyRecordset
    | PlainAnswer(cursor: Cursor)
    | WrapAnswer(wrap: WrapRecordset)
    | RootAnswer(root: RootRecordset)

  class Database {
    var databases: seq<LocalDatabase?>

    constructor ()
      ensures databases == []
    {
      databases := [];
    }

    ghost function Slots(): (slots: seq<Slot>)
      reads this, databases
      ensures |slots| == |databases|
    {
      seq(|databases|, i requires 0 <= i < |databases| reads this, databases =>
        if databases[i] == null then Absent else Present(databases[i].records))
    }

    static ghost predicate TookFirstFree(before: seq<LocalDatabase?>, k: nat) {
      && k <= |before|
      && (k < |before| ==> before[k] == null)
      && forall j | 0 <= j < k :: before[j] != null
    }

    /** A database takes the first free place, and no other moves. */
    method AddDatabase(db: LocalDatabase) returns (rc: nat)
      modifies this
      ensures forall j | 0 <= j < |old(databases)| && old(databases)[j] != null ::
        j < |databases| && databases[j] == old(databases)[j]
      ensures |databases| <= |old(databases)| + 1
      ensures rc == 0 <==> null in old(databases) || |old(databases)| < MAX_DATABASES
      ensures rc != 0 ==> rc == ENOSPC && databases == old(databases)
      ensures rc == 0 ==> exists k | 0 <= k < |databases| :: databases[k] == db && TookFirstFree(old(databases), k)
    {
      for i := 0 to |databases|
        invariant databases == old(databases)
        invariant forall j | 0 <= j < i :: databases[j] != null
      {
        if databases[i] == null {
          databases := databases[i := db];
          assert databases[i] == db && TookFirstFree(old(databases), i);
          return 0;
        }
      }
      if |databases| >= MAX_DATABASES {
        return ENOSPC;
      }
      databases := databases + [db];
      assert databases[|old(databases)|] == db && TookFirstFree(old(databases), |old(databases)|);
      rc := 0;
    }

    /** The place of a database that goes stays, empty. */
    method RemoveDatabase(db: LocalDatabase) returns (rc: nat)
      modifies this
      ensures rc == 0 && |databases| == |old(databases)|
      ensures db !in old(databases) ==> databases == old(databases)
      ensures forall j | 0 <= j < |databases| && old(databases)[j] != db :: databases[j] == old(databases)[j]
      ensures db in old(databases) ==> multiset(databases) == multiset(old(databases)) - multiset{db} + multiset{null}
    {
      for i := 0 to |databases|
        invariant databases == old(databases)
        invariant db !in databases[..i]
      {
        if databases[i] == db {
          databases := databases[i := null];
          return 0;
        }
      }
      rc := 0;
    }

    method MergeChildren() returns (children: seq<nat>)
      requires |databases| <= MAX_DATABASES
      ensures children == RootChildren(Slots())
      ensures forall i | 0 <= i < |children| :: children[i] < UINT32
    {
      children := [];
      ghost var lists := Lists(Slots());
      for i := 0 to |databases|
        invariant children == TagJoin(lists, i)
        invariant forall j | 0 <= j < |children| :: children[j] < UINT32
      {
        var tagged := TaggedChildren(i);
        assert lists[i] == OwnChildren(Slots()[i]);
        JoinNext(lists, i, tagged);
        children := children + tagged;
      }
    }

    /** The children of one database's root, if there is a database, each tagged. */
    method TaggedChildren(i: nat) returns (tagged: seq<nat>)
      requires i < |databases| <= MAX_DATABASES
      ensures tagged == TagAll(i, OwnChildren(Slots()[i]))
      ensures forall j | 0 <= j < |tagged| :: tagged[j] < UINT32
    {
      tagged := [];
      if databases[i] != null {
        var these := RootOf(i);
        tagged := Tag(i, these);
      }
    }

    method RootOf(i: nat) returns (these: seq<nat>)
      requires i < |databases| && databases[i] != null
      ensures these == OwnChildren(Slots()[i])
      ensures forall j | 0 <= j < |these| :: these[j] < LIMIT
    {
      these := [];
      OwnChildrenBound(Slots()[i]);
      var rs := databases[i].Execute(ById(BROWSE_ROOT));
      if !rs.IsEOF() {
        these := ChildrenToVector(rs.GetString(CHILDREN));
      }
    }

    method Execute(restrictions: seq<Restriction>) returns (a: Answer)
      ensures match RouteOf(Slots(), restrictions)
              case NoRecords => a.EmptyRecordset?
              case Refused => a.NullRecordset?
              case To(k, q, face) =>
                var at := First(Slots()[k].records, q, 0);
                match face
                case Plain => a.PlainAnswer? && a.cursor.db == databases[k] && a.cursor.recno == at
                case Wrapped =>
                  a.WrapAnswer? && a.wrap.id == k && a.wrap.rs.db == databases[k] && a.wrap.rs.recno == at
                case Root =>
                  a.RootAnswer? && a.root.database == this && a.root.rs.db == databases[k] && a.root.rs.recno == at
    {
      if |databases| == 0 || databases[0] == null {
        return EmptyRecordset;
      }
      if |restrictions| == 1 && restrictions[0].which == ID && restrictions[0].rt == EQ {
        var id := restrictions[0].ival;
        var dbno := id / TAG;
        if dbno >= |databases| || databases[dbno] == null {
          return NullRecordset;
        }
        if dbno != 0 || id == BROWSE_ROOT {
          var rs := databases[dbno].Execute(ById(id % TAG));
          if id == BROWSE_ROOT {
            var root := new RootRecordset(rs, this);
            return RootAnswer(root);
          }
          var wrap := new WrapRecordset(rs, dbno);
          return WrapAnswer(wrap);
        }
      }
      var plain := databases[0].Execute(restrictions);
      a := PlainAnswer(plain);
    }
  }
}
