/** The synchroniser as it runs: fields updated in place, proved to compute the functions of SyncModel. */
module Synchroniser {
  import opened Common
  import opened Ordering
  import opened EditScript
  import opened SyncModel
  import opened SyncCopy

  /** The wanted ones of `ids`, and their names. */
  method GetNames(db: Db, ids: seq<Id>) returns (kept: seq<Id>, names: seq<ItemName>)
    ensures AllIn(kept, db) && kept == Named(db, ids) && names == Names(db, kept)
  {
    kept, names := [], [];
    var i := 0;
    while i < |ids|
      invariant i <= |ids| && AllIn(kept, db)
      invariant Named(db, ids) == kept + Named(db, ids[i..])
      invariant names == Names(db, kept)
    {
      if Wanted(db, ids[i]) {
        kept := kept + [ids[i]];
        names := names + [db[ids[i]].Name()];
      }
      i := i + 1;
    }
  }

  class Synchroniser {
    const env: Env
    var dest: Db
    var seen: set<Id>
    var srcToDest: map<Id, Id>
    var destToSrc: map<Id, Id>
    var maybeAdd: set<Id>
    var maybeDelete: set<Id>
    var addTune: set<Id>
    var amendMetadata: set<Id>
    var addPlaylist: seq<Id>
    var amendPlaylist: set<Id>
    var anyDeleted: bool
    var statistics: Statistics
    var events: seq<Event>
    var idsTaken: nat

    ghost function St(): State
      reads this
    {
      State(dest, seen, srcToDest, destToSrc, maybeAdd, maybeDelete, addTune, amendMetadata,
            addPlaylist, amendPlaylist, anyDeleted, statistics, events, idsTaken)
    }

    constructor (env: Env, dest: Db)
      ensures this.env == env && St() == Fresh(dest)
    {
      this.env := env;
      this.dest := dest;
      seen, srcToDest, destToSrc := {}, map[], map[];
      maybeAdd, maybeDelete, addTune, amendMetadata := {}, {}, {}, {};
      addPlaylist, amendPlaylist := [], {};
      anyDeleted, statistics, events, idsTaken := false, NO_STATISTICS, [], 0;
    }

    method PairItems(s: Id, d: Id) returns (s': Id)
      requires s in env.src && d in dest
      modifies this
      ensures (St(), s') == Pair(env.src, old(St()), s, d)
    {
      s' := CompareItems(s, d);
      destToSrc := destToSrc[d := s'];
      srcToDest := srcToDest[s' := d];
    }

    method CompareItems(s: Id, d: Id) returns (s': Id)
      requires s in env.src && d in dest
      modifies this
      ensures (St(), s') == Compare(env.src, old(St()), s, d)
    {
      s' := s;
      if !dest[d].IsComposite() {
        var size := env.src[s].size;
        var high := env.src[s].idHigh;
        if high != 0 && high in env.src {
          srcToDest := srcToDest[s := d];
          s' := high;
          size := env.src[high].size;
        }
        if size != dest[d].size {
          addTune := addTune + {s'};
        } else if env.src[s].tags != dest[d].tags {
          amendMetadata := amendMetadata + {s'};
          statistics := statistics.(filesModified := statistics.filesModified + 1);
        }
      }
    }

    method CheckPlaylistNames(s: Id, d: Id, amendParent: bool) returns (rc: nat, amendParent': bool)
      requires SeenAreMapped(St())
      modifies this
      ensures Checked(rc, St(), amendParent') == Check(env.src, old(St()), s, d, amendParent)
      decreases env.src.Keys - seen, 0
    {
      amendParent' := amendParent;
      if s in seen && s in srcToDest {
        if srcToDest[s] != d {
          maybeDelete := maybeDelete + {d};
          amendParent' := true;
        }
        return 0, amendParent';
      }
      seen := seen + {s};
      if s !in env.src || d !in dest {
        return ENOENT, amendParent';
      }
      var s' := PairItems(s, d);
      var srcIds, srcNames := GetNames(env.src, env.src[s].children);
      var destIds, destNames := GetNames(dest, dest[d].children);
      var script := Diff(destNames, srcNames);
      var m := Matching(srcIds, destIds, script);
      assert m == Match(env.src, dest, s, d);
      var amend;
      rc, amend := MatchChildren(m);
      if rc == 0 && amend {
        amendPlaylist := amendPlaylist + {s'};
      }
    }

    /** The loop over both child lists. */
    method MatchChildren(m: Matching) returns (rc: nat, amend: bool)
      requires SeenAreMapped(St()) && Aligned(env.src, dest, m, 0, 0)
      modifies this
      ensures Checked(rc, St(), amend) == Walk(env.src, old(St()), m, 0, 0, false)
      decreases env.src.Keys - seen, 2
    {
      var i, j := 0, 0;
      amend := false;
      while i < |m.srcIds| || j < |m.destIds|
        invariant old(seen) <= seen && dest == old(dest)
        invariant SeenAreMapped(St()) && Aligned(env.src, dest, m, i, j)
        invariant Walk(env.src, St(), m, i, j, amend) == Walk(env.src, old(St()), m, 0, 0, false)
        decreases |m.srcIds| - i + |m.destIds| - j
      {
        rc, i, j, amend := MatchNext(m, i, j, amend);
        if rc != 0 {
          return;
        }
      }
      rc := 0;
    }

    /** The body of that loop, with the positions after it. */
    method MatchNext(m: Matching, i: nat, j: nat, amend: bool) returns (rc: nat, i': nat, j': nat, amend': bool)
      requires SeenAreMapped(St()) && Aligned(env.src, dest, m, i, j) && (i < |m.srcIds| || j < |m.destIds|)
      modifies this
      ensures old(seen) <= seen && dest == old(dest) && i <= i' && j <= j'
      ensures rc == 0 ==>
        && SeenAreMapped(St()) && Aligned(env.src, dest, m, i', j') && i + j < i' + j'
        && Walk(env.src, St(), m, i', j', amend') == Walk(env.src, old(St()), m, i, j, amend)
      ensures rc != 0 ==> Checked(rc, St(), amend') == Walk(env.src, old(St()), m, i, j, amend)
      decreases env.src.Keys - seen, 1
    {
      AlignedStep(env.src, dest, m, i, j);
      rc, i', j', amend' := 0, i, j, true;
      if i < |m.srcIds| && i + 1 in m.script.additions {
        maybeAdd := maybeAdd + {m.srcIds[i]};
        i' := i + 1;
      } else if j < |m.destIds| && j + 1 in m.script.deletions {
        maybeDelete := maybeDelete + {m.destIds[j]};
        j' := j + 1;
      } else {
        rc, amend' := CheckPlaylistNames(m.srcIds[i], m.destIds[j], amend);
        i', j' := i + 1, j + 1;
      }
    }

    method MaybeDelete(d: Id, already: set<Id>) returns (rc: nat, already': set<Id>)
      modifies this
      ensures Pruned(rc, St(), already') == SyncModel.MaybeDelete(env, old(St()), d, already)
      decreases dest.Keys - already, 0
    {
      already' := already;
      if d in already {
        return 0, already';
      }
      already' := already' + {d};
      if d in destToSrc || d !in dest {
        return 0, already';
      }
      var record := dest[d];
      rc, already' := MaybeDeleteEach(record.children, already');
      if rc != 0 {
        return;
      }
      rc := DeleteItem(d, record);
    }

    method DeleteItem(d: Id, record: Record) returns (rc: nat)
      requires d in dest && dest[d] == record
      modifies this
      ensures St() == DeleteRecord(env, old(St()), d) && rc == if env.dry then 0 else env.remove(d)
    {
      rc := 0;
      if !anyDeleted {
        events := events + [OnStage(DELETING)];
        anyDeleted := true;
      }
      if record.IsComposite() {
        statistics := statistics.(playlistsDeleted := statistics.playlistsDeleted + 1);
      } else {
        statistics := statistics.(filesDeleted := statistics.filesDeleted + 1);
      }
      if !env.dry {
        rc := env.remove(d);
        if rc == 0 {
          dest := dest - {d};
        }
      }
      events := events + [OnDelete(d)];
    }

    method MaybeDeleteEach(ds: seq<Id>, already: set<Id>) returns (rc: nat, already': set<Id>)
      modifies this
      ensures Pruned(rc, St(), already') == MaybeDeleteAll(env, old(St()), ds, already)
      decreases dest.Keys - already, 1
    {
      already' := already;
      var i := 0;
      while i < |ds|
        invariant i <= |ds| && already <= already' && dest.Keys <= old(dest.Keys)
        invariant MaybeDeleteAll(env, St(), ds[i..], already') == MaybeDeleteAll(env, old(St()), ds, already)
      {
        assert ds[i..][1..] == ds[i + 1..];
        rc, already' := MaybeDelete(ds[i], already');
        if rc != 0 {
          return;
        }
        i := i + 1;
      }
      rc := 0;
    }

    method MaybeAdd(s: Id, already: set<Id>) returns (rc: nat, already': set<Id>)
      modifies this
      ensures Pruned(rc, St(), already') == SyncModel.MaybeAdd(env, old(St()), s, already)
      decreases env.src.Keys - already, 0
    {
      already' := already;
      if s in already {
        return 0, already';
      }
      already' := already' + {s};
      if s in srcToDest {
        return 0, already';
      }
      if s !in env.src {
        return ENOENT, already';
      }
      if env.src[s].mtype.File? {
        srcToDest := srcToDest[s := 0];
        return 0, already';
      }
      rc, already' := MaybeAddEach(env.src[s].children, already');
      if rc == 0 {
        AddItem(s);
      }
    }

    method AddItem(s: Id)
      requires s in env.src
      modifies this
      ensures St() == AddRecord(env, old(St()), s)
    {
      var s' := TakeId(s);
      var record := env.src[s'];
      if record.IsComposite() {
        statistics := statistics.(playlistsAdded := statistics.playlistsAdded + 1);
        addPlaylist := addPlaylist + [s'];
      } else if record.mtype.Tune? || record.mtype.TuneHigh? {
        addTune := addTune + {s'};
        statistics := statistics.(filesAdded := statistics.filesAdded + 1,
                                  bytesTransferred := statistics.bytesTransferred + record.size);
      }
    }

    method TakeId(s: Id) returns (s': Id)
      requires s in env.src
      modifies this
      ensures (St(), s') == AssignId(env, old(St()), s)
    {
      var d := env.alloc(idsTaken);
      idsTaken := idsTaken + 1;
      srcToDest := srcToDest[s := d];
      destToSrc := destToSrc[d := s];
      s' := s;
      var high := env.src[s].idHigh;
      if high != 0 && high in env.src {
        s' := high;
        srcToDest := srcToDest[s' := d];
      }
    }

    method MaybeAddEach(ss: seq<Id>, already: set<Id>) returns (rc: nat, already': set<Id>)
      modifies this
      ensures Pruned(rc, St(), already') == MaybeAddAll(env, old(St()), ss, already)
      decreases env.src.Keys - already, 1
    {
      already' := already;
      var i := 0;
      while i < |ss|
        invariant i <= |ss| && already <= already'
        invariant MaybeAddAll(env, St(), ss[i..], already') == MaybeAddAll(env, old(St()), ss, already)
      {
        assert ss[i..][1..] == ss[i + 1..];
        rc, already' := MaybeAdd(ss[i], already');
        if rc != 0 {
          return;
        }
        i := i + 1;
      }
      rc := 0;
    }

    /** The destination ids of a child list, without the items that have none. */
    method MapChildren(srcIds: seq<Id>) returns (destIds: seq<Id>)
      modifies this`srcToDest
      ensures srcToDest == TouchAll(old(srcToDest), srcIds)
      ensures destIds == Mapped(old(srcToDest), srcIds)
    {
      destIds := [];
      var i := 0;
      while i < |srcIds|
        invariant i <= |srcIds|
        invariant TouchAll(old(srcToDest), srcIds) == TouchAll(srcToDest, srcIds[i..])
        invariant Mapped(old(srcToDest), srcIds) == destIds + Mapped(srcToDest, srcIds[i..])
      {
        var c := Lookup(srcToDest, srcIds[i]);
        MappedSame(srcToDest, Touch(srcToDest, srcIds[i]), srcIds[i + 1..]);
        srcToDest := Touch(srcToDest, srcIds[i]);
        if c != 0 {
          destIds := destIds + [c];
        }
        i := i + 1;
      }
    }

    method CopyPlaylist(s: Id, d: Id) returns (rc: nat)
      modifies this
      ensures Outcome(rc, St()) == SyncModel.CopyPlaylist(env, old(St()), s, d)
    {
      if s !in env.src {
        return ENOENT;
      }
      var destIds := MapChildren(env.src[s].children);
      rc := 0;
      if !env.dry {
        var record := if d in dest then dest[d] else BLANK;
        record := record.(title := env.src[s].title);
        record := record.(mtype := env.src[s].mtype);
        record := record.(children := destIds);
        dest := dest[d := record];
        rc := env.commitPlaylist(s);
      }
    }

    method CopyMetadata(s: Id, d: Id) returns (rc: nat)
      modifies this
      ensures Outcome(rc, St()) == SyncModel.CopyMetadata(env, old(St()), s, d)
    {
      if s !in env.src {
        return ENOENT;
      }
      rc := 0;
      if !env.dry {
        var record := env.src[s];
        if record.mtype.TuneHigh? {
          record := record.(mtype := Tune);
        }
        if record.title == "" {
          record := record.(title := env.leafName(record.path));
        }
        dest := dest[d := record];
        rc := env.commitTune(s);
      }
    }

    method AddTune(s: Id, d: Id) returns (rc: nat)
      modifies this
      ensures Outcome(rc, St()) ==
        if d == 0 then Outcome(EINVAL, old(St()))
        else
          var r := SyncModel.CopyMetadata(env, old(St()), s, d);
          if r.rc != 0 || env.dry then r else Outcome(env.transfer(s), r.st)
    {
      if d == 0 {
        return EINVAL;
      }
      rc := CopyMetadata(s, d);
      if rc == 0 && !env.dry {
        rc := env.transfer(s);
      }
    }

    method Copy(phase: Phase, s: Id, num: nat, denom: nat) returns (rc: nat)
      modifies this
      ensures Outcome(rc, St()) == CopyItem(env, old(St()), phase, s, num, denom)
    {
      if phase == AmendPlaylists {
        statistics := statistics.(playlistsModified := statistics.playlistsModified + 1);
      }
      events := events + [OnCopy(phase, s, num, denom)];
      var d := Lookup(srcToDest, s);
      srcToDest := Touch(srcToDest, s);
      match phase {
        case AmendPlaylists => rc := CopyPlaylist(s, d);
        case AddPlaylists => rc := CopyPlaylist(s, d);
        case AddTunes => rc := AddTune(s, d);
        case AmendTunes => rc := CopyMetadata(s, d);
      }
    }

    method CopyEach(phase: Phase, items: seq<Id>) returns (rc: nat)
      modifies this
      ensures Outcome(rc, St()) == CopyItems(env, old(St()), phase, items, 0)
    {
      var j := 0;
      while j < |items|
        invariant j <= |items|
        invariant CopyItems(env, St(), phase, items, j) == CopyItems(env, old(St()), phase, items, 0)
      {
        rc := Copy(phase, items[j], j, |items|);
        if rc != 0 {
          return;
        }
        j := j + 1;
      }
      rc := 0;
    }

    /** Match, delete and allocate. */
    method MakePlan() returns (rc: nat)
      modifies this
      ensures Outcome(rc, St()) == Plan(env, old(St()))
    {
      events := events + [OnStage(BEGIN)];
      seen := {};
      anyDeleted := false;
      var amend, done;
      rc, amend := CheckPlaylistNames(ROOT, ROOT, false);
      if rc == 0 {
        rc, done := MaybeDeleteEach(Ascending(maybeDelete), {});
        if rc == 0 {
          rc, done := MaybeAddEach(Ascending(maybeAdd), {});
        }
      }
    }

    method CopyEverything() returns (rc: nat)
      modifies this
      ensures Outcome(rc, St()) == CopyAll(env, Outcome(0, old(St())))
    {
      rc := CopyEach(AmendPlaylists, Ascending(amendPlaylist));
      if rc == 0 {
        rc := CopyEach(AddPlaylists, addPlaylist);
      }
      if rc == 0 {
        rc := CopyEach(AddTunes, Ascending(addTune));
      }
      if rc == 0 {
        rc := CopyEach(AmendTunes, Ascending(amendMetadata));
      }
    }

    method Synchronise() returns (rc: nat)
      modifies this
      ensures Outcome(rc, St()) == SyncModel.Synchronise(env, old(St()))
    {
      rc := MakePlan();
      if rc == 0 {
        rc := CopyEverything();
        if rc == 0 {
          events := events + [OnStage(END)];
        }
      }
    }
  }
}
