/** The counts of additions and changes are those of the plan's queues. */
module SyncCounts {
  import opened Ordering
  import opened SyncModel

  /** No item of the source names another one of it as its high-quality version. */
  ghost predicate NoTwins(src: Db) {
    forall s :: s in src ==> src[s].idHigh == 0 || src[s].idHigh !in src
  }

  function Size(src: Db, s: Id): nat {
    if s in src then src[s].size else 0
  }

  ghost function Sizes(src: Db, items: set<Id>): nat {
    if items == {} then 0 else Size(src, Least(items)) + Sizes(src, items - {Least(items)})
  }

  lemma {:induction false} SizesAdd(src: Db, items: set<Id>, s: Id)
    requires s !in items
    ensures Sizes(src, items + {s}) == Sizes(src, items) + Size(src, s)
    decreases |items|
  {
    var m := Least(items + {s});
    if m == s {
      assert items + {s} - {s} == items;
    } else {
      assert IsLeast(m, items) && Least(items) == m;
      assert items + {s} - {m} == (items - {m}) + {s};
      SizesAdd(src, items - {m}, s);
    }
  }

  /* Matching counts the tunes whose tags differ */

  predicate CountsKept(st: State, st': State) {
    && st'.stats.filesAdded == st.stats.filesAdded && st'.stats.playlistsAdded == st.stats.playlistsAdded
    && st'.stats.bytesTransferred == st.stats.bytesTransferred && st'.addPlaylist == st.addPlaylist
  }

  /** Each amended tune was counted once, and only mapped items are queued. */
  ghost predicate ChangesCounted(st: State) {
    && st.stats.filesModified == |st.amendMetadata|
    && st.amendMetadata <= st.s2d.Keys && st.addTune <= st.s2d.Keys
  }

  lemma CompareCounts(src: Db, st: State, s: Id, d: Id)
    requires NoTwins(src) && s in src && d in st.dest && s !in st.amendMetadata
    ensures var (st', s') := Compare(src, st, s, d);
      && s' == s && CountsKept(st, st')
      && st' == st.(addTune := st'.addTune, amendMetadata := st'.amendMetadata, stats := st'.stats)
      && st'.addTune <= st.addTune + {s} && st'.amendMetadata <= st.amendMetadata + {s}
      && st'.stats.filesModified - st.stats.filesModified == |st'.amendMetadata| - |st.amendMetadata|
  {
  }

  lemma PairCounts(src: Db, st: State, s: Id, d: Id)
    requires NoTwins(src) && s in src && d in st.dest && s !in st.s2d && ChangesCounted(st)
    ensures var (st', s') := Pair(src, st, s, d);
      s' == s && st'.s2d == st.s2d[s := d] && ChangesCounted(st') && CountsKept(st, st')
  {
    CompareCounts(src, st, s, d);
    assert st.s2d[s := d].Keys == st.s2d.Keys + {s};
  }

  ghost predicate CheckCounted(st: State, r: Checked) {
    && ChangesCounted(r.st) && CountsKept(st, r.st)
    && (r.rc == 0 ==> r.st.seen == r.st.s2d.Keys)
  }

  lemma {:induction false} CheckCounts(src: Db, st: State, s: Id, d: Id, amend: bool)
    requires NoTwins(src) && st.seen == st.s2d.Keys && ChangesCounted(st)
    ensures CheckCounted(st, Check(src, st, s, d, amend))
    decreases src.Keys - st.seen, 0
  {
    var st1 := st.(seen := st.seen + {s});
    if s !in st.s2d && s in src && d in st.dest {
      PairCounts(src, st1, s, d);
      WalkCounts(src, Pair(src, st1, s, d).0, Match(src, st.dest, s, d), 0, 0, false);
    }
  }

  lemma {:induction false} WalkCounts(src: Db, st: State, m: Matching, i: nat, j: nat, amend: bool)
    requires NoTwins(src) && st.seen == st.s2d.Keys && ChangesCounted(st) && Aligned(src, st.dest, m, i, j)
    ensures CheckCounted(st, Walk(src, st, m, i, j, amend))
    decreases src.Keys - st.seen, 1 + |m.srcIds| - i + |m.destIds| - j
  {
    AlignedStep(src, st.dest, m, i, j);
    if i == |m.srcIds| && j == |m.destIds| {
    } else if i < |m.srcIds| && i + 1 in m.script.additions {
      var n := st.(maybeAdd := st.maybeAdd + {m.srcIds[i]});
      WalkCounts(src, n, m, i + 1, j, true);
      assert Walk(src, st, m, i, j, amend) == Walk(src, n, m, i + 1, j, true);
    } else if j < |m.destIds| && j + 1 in m.script.deletions {
      var n := st.(maybeDelete := st.maybeDelete + {m.destIds[j]});
      WalkCounts(src, n, m, i, j + 1, true);
      assert Walk(src, st, m, i, j, amend) == Walk(src, n, m, i, j + 1, true);
    } else {
      CheckCounts(src, st, m.srcIds[i], m.destIds[j], amend);
      var r := Check(src, st, m.srcIds[i], m.destIds[j], amend);
      if r.rc == 0 {
        WalkCounts(src, r.st, m, i + 1, j + 1, r.amend);
        assert Walk(src, st, m, i, j, amend) == Walk(src, r.st, m, i + 1, j + 1, r.amend);
      }
    }
  }

  /* Adding counts what it queues */

  /** Beyond the tunes of `base`, which are to be copied over a record, what is queued is counted. */
  ghost predicate AdditionsCounted(src: Db, base: set<Id>, st: State) {
    && base <= st.addTune <= st.s2d.Keys
    && st.stats.filesAdded == |st.addTune - base|
    && st.stats.bytesTransferred == Sizes(src, st.addTune - base)
    && st.stats.playlistsAdded == |st.addPlaylist|
  }

  lemma TuneCounts(src: Db, base: set<Id>, tunes: set<Id>, s: Id)
    requires s !in tunes && base <= tunes
    ensures |tunes + {s} - base| == |tunes - base| + 1
    ensures Sizes(src, tunes + {s} - base) == Sizes(src, tunes - base) + Size(src, s)
  {
    assert tunes + {s} - base == (tunes - base) + {s};
    SizesAdd(src, tunes - base, s);
  }

  lemma QueueCounts(src: Db, base: set<Id>, st: State, s: Id)
    requires s in src && s in st.s2d && s !in st.addTune && AdditionsCounted(src, base, st)
    ensures AdditionsCounted(src, base, QueueCopy(src, st, s))
  {
    TuneCounts(src, base, st.addTune, s);
  }

  lemma QueueKeeps(src: Db, st: State, s: Id)
    requires s in src
    ensures var st' := QueueCopy(src, st, s);
      st'.s2d == st.s2d && st'.amendMetadata == st.amendMetadata && st'.stats.filesModified == st.stats.filesModified
  {
  }

  lemma AssignCounts(env: Env, base: set<Id>, st: State, s: Id)
    requires NoTwins(env.src) && s in env.src && AdditionsCounted(env.src, base, st)
    ensures var (st', s') := AssignId(env, st, s);
      && s' == s && st' == st.(idsTaken := st'.idsTaken, s2d := st'.s2d, d2s := st'.d2s)
      && st'.s2d == st.s2d[s := env.alloc(st.idsTaken)] && st.addTune <= st'.s2d.Keys
  {
    assert st.s2d[s := env.alloc(st.idsTaken)].Keys == st.s2d.Keys + {s};
  }

  lemma RecordCounts(env: Env, base: set<Id>, st: State, s: Id)
    requires NoTwins(env.src) && s in env.src && s !in st.s2d && AdditionsCounted(env.src, base, st)
    ensures var st' := AddRecord(env, st, s);
      && AdditionsCounted(env.src, base, st') && st'.s2d == st.s2d[s := env.alloc(st.idsTaken)]
      && st'.amendMetadata == st.amendMetadata && st'.stats.filesModified == st.stats.filesModified
  {
    AssignCounts(env, base, st, s);
    var st' := AssignId(env, st, s).0;
    assert AdditionsCounted(env.src, base, st');
    QueueCounts(env.src, base, st', s);
    QueueKeeps(env.src, st', s);
    assert AddRecord(env, st, s) == QueueCopy(env.src, st', s);
  }

  lemma AddClosesCounts(env: Env, base: set<Id>, st: State, s: Id, already: set<Id>, r: Pruned, end: State)
    requires s !in already && AddCounted(env.src, base, st, already + {s}, r)
    requires AdditionsCounted(env.src, base, end) && (forall x :: x != s ==> (x in end.s2d <==> x in r.st.s2d))
    requires end.amendMetadata == r.st.amendMetadata && end.stats.filesModified == r.st.stats.filesModified
    ensures AddCounted(env.src, base, st, already, Pruned(0, end, r.already))
  {
  }

  /** What was visited is not mapped later. */
  ghost predicate AddCounted(src: Db, base: set<Id>, st: State, already: set<Id>, r: Pruned) {
    && AdditionsCounted(src, base, r.st) && r.st.amendMetadata == st.amendMetadata
    && r.st.stats.filesModified == st.stats.filesModified
    && (forall x :: x in already && x !in st.s2d ==> x !in r.st.s2d)
  }

  lemma {:induction false} MaybeAddCounts(env: Env, base: set<Id>, st: State, s: Id, already: set<Id>)
    requires NoTwins(env.src) && AdditionsCounted(env.src, base, st)
    ensures AddCounted(env.src, base, st, already, MaybeAdd(env, st, s, already))
    decreases env.src.Keys - already, 0
  {
    if s !in already && s !in st.s2d && s in env.src && !env.src[s].mtype.File? {
      var r := MaybeAddAll(env, st, env.src[s].children, already + {s});
      MaybeAddAllCounts(env, base, st, env.src[s].children, already + {s});
      if r.rc == 0 {
        RecordCounts(env, base, r.st, s);
        AddClosesCounts(env, base, st, s, already, r, AddRecord(env, r.st, s));
      }
    }
  }

  lemma {:induction false} MaybeAddAllCounts(env: Env, base: set<Id>, st: State, ss: seq<Id>, already: set<Id>)
    requires NoTwins(env.src) && AdditionsCounted(env.src, base, st)
    ensures AddCounted(env.src, base, st, already, MaybeAddAll(env, st, ss, already))
    decreases env.src.Keys - already, 1 + |ss|
  {
    if ss != [] {
      MaybeAddCounts(env, base, st, ss[0], already);
      var r := MaybeAdd(env, st, ss[0], already);
      if r.rc == 0 { MaybeAddAllCounts(env, base, r.st, ss[1..], r.already); }
    }
  }

  /* The other phases count none of these */

  /** Neither the queues nor the counts of them change. */
  predicate SameBooks(st: State, st': State) {
    && CountsKept(st, st') && st'.stats.filesModified == st.stats.filesModified
    && st'.addTune == st.addTune && st'.amendMetadata == st.amendMetadata
  }

  lemma {:induction false} MaybeDeleteBooks(env: Env, st: State, d: Id, already: set<Id>)
    ensures SameBooks(st, MaybeDelete(env, st, d, already).st) && MaybeDelete(env, st, d, already).st.s2d == st.s2d
    decreases st.dest.Keys - already, 0
  {
    if d !in already && d !in st.d2s && d in st.dest {
      MaybeDeleteAllBooks(env, st, st.dest[d].children, already + {d});
    }
  }

  lemma {:induction false} MaybeDeleteAllBooks(env: Env, st: State, ds: seq<Id>, already: set<Id>)
    ensures SameBooks(st, MaybeDeleteAll(env, st, ds, already).st) && MaybeDeleteAll(env, st, ds, already).st.s2d == st.s2d
    decreases st.dest.Keys - already, 1 + |ds|
  {
    if ds != [] {
      MaybeDeleteBooks(env, st, ds[0], already);
      var r := MaybeDelete(env, st, ds[0], already);
      if r.rc == 0 { MaybeDeleteAllBooks(env, r.st, ds[1..], r.already); }
    }
  }

  lemma {:induction false} CopyItemsBooks(env: Env, st: State, phase: Phase, items: seq<Id>, k: nat)
    requires k <= |items|
    ensures SameBooks(st, CopyItems(env, st, phase, items, k).st)
    decreases |items| - k
  {
    if k < |items| {
      var r := CopyItem(env, st, phase, items[k], k, |items|);
      assert SameBooks(st, r.st);
      CopyItemsBooks(env, r.st, phase, items, k + 1);
    }
  }

  lemma CopyPhaseBooks(env: Env, r: Outcome, phase: Phase)
    ensures SameBooks(r.st, CopyPhase(env, r, phase).st)
  {
    if r.rc == 0 { CopyItemsBooks(env, r.st, phase, Items(r.st, phase), 0); }
  }

  lemma CopyAllBooks(env: Env, r: Outcome)
    ensures SameBooks(r.st, CopyAll(env, r).st)
  {
    CopyPhaseBooks(env, r, AmendPlaylists);
    var r1 := CopyPhase(env, r, AmendPlaylists);
    CopyPhaseBooks(env, r1, AddPlaylists);
    var r2 := CopyPhase(env, r1, AddPlaylists);
    CopyPhaseBooks(env, r2, AddTunes);
    CopyPhaseBooks(env, CopyPhase(env, r2, AddTunes), AmendTunes);
  }

  /** The counts of a run against its queues: `base` are the tunes matched to a record of another size. */
  predicate Balanced(src: Db, base: set<Id>, st: State) {
    && st.stats.playlistsAdded == |st.addPlaylist|
    && base <= st.addTune
    && st.stats.filesAdded == |st.addTune - base|
    && st.stats.filesModified == |st.amendMetadata|
  }

  lemma PlanBalances(env: Env, dest: Db)
    requires NoTwins(env.src)
    ensures var st, base := Plan(env, Fresh(dest)).st, Check(env.src, Start(Fresh(dest)), ROOT, ROOT, false).st.addTune;
      Balanced(env.src, base, st) && st.stats.bytesTransferred == Sizes(env.src, st.addTune - base)
  {
    CheckCounts(env.src, Start(Fresh(dest)), ROOT, ROOT, false);
    var c := Check(env.src, Start(Fresh(dest)), ROOT, ROOT, false);
    assert c.st.addTune - c.st.addTune == {};
    if c.rc == 0 {
      var doomed := Ascending(c.st.maybeDelete);
      MaybeDeleteAllBooks(env, c.st, doomed, {});
      var del := MaybeDeleteAll(env, c.st, doomed, {});
      if del.rc == 0 {
        MaybeAddAllCounts(env, c.st.addTune, del.st, Ascending(del.st.maybeAdd), {});
      }
    }
  }

  /** Over a whole run, real or dry, to any database and finished or not: as many playlists and tunes
      are counted added, and tunes modified, as are queued for it, and the bytes are those of the
      added tunes.  Tunes copied over a record of another size count as neither. */
  lemma StatisticsBalance(env: Env, dest: Db)
    requires NoTwins(env.src)
    ensures var st, base := Synchronise(env, Fresh(dest)).st, Check(env.src, Start(Fresh(dest)), ROOT, ROOT, false).st.addTune;
      Balanced(env.src, base, st) && st.stats.bytesTransferred == Sizes(env.src, st.addTune - base)
  {
    PlanBalances(env, dest);
    CopyAllBooks(env, Plan(env, Fresh(dest)));
  }
}
