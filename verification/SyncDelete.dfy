/** Deletion is safe on every destination, shared and cyclic ones included. */
module SyncDelete {
  import Ordering
  import opened SyncModel

  ghost predicate Prefix(a: seq<Event>, b: seq<Event>) {
    |a| <= |b| && b[..|a|] == a
  }

  /** Position `i` announces the deletion of `d`. */
  predicate Deletes(events: seq<Event>, i: nat, d: Id) {
    i < |events| && events[i] == OnDelete(d)
  }

  /** Deleting record `d` takes it away. */
  predicate Removed(env: Env, d: Id) {
    !env.dry && env.remove(d) == 0
  }

  /** The announcements from position `n` on are of distinct records, none visited before
      and none matched; the records removed are exactly those of them whose deletion succeeds, and
      the first that does not succeed is the last. */
  ghost predicate DeletedWell(env: Env, st: State, already: set<Id>, r: Pruned) {
    && r.st == st.(dest := r.st.dest, stats := r.st.stats, events := r.st.events, anyDeleted := r.st.anyDeleted)
    && already <= r.already
    && Prefix(st.events, r.st.events)
    && (forall i, d :: |st.events| <= i && Deletes(r.st.events, i, d) ==>
          d in st.dest && d !in st.d2s && d in r.already && d !in already && (d !in r.st.dest <==> Removed(env, d)))
    && (forall i, j, d ::
          |st.events| <= i && |st.events| <= j && Deletes(r.st.events, i, d) && Deletes(r.st.events, j, d) ==> i == j)
    && (r.rc == 0 ==> forall d :: d in r.already && d !in already ==> d in st.d2s || d !in r.st.dest || env.dry)
    && (r.rc == 0 <==> forall i, d :: |st.events| <= i && Deletes(r.st.events, i, d) ==> env.dry || env.remove(d) == 0)
    && (forall d :: d in r.st.dest ==> d in st.dest && r.st.dest[d] == st.dest[d])
    && (forall d :: d in st.dest && d !in r.st.dest ==>
          exists i :: |st.events| <= i && Deletes(r.st.events, i, d))
  }

  lemma DeletedTrans(env: Env, st: State, already: set<Id>, r1: Pruned, r2: Pruned)
    requires DeletedWell(env, st, already, r1) && r1.rc == 0 && DeletedWell(env, r1.st, r1.already, r2)
    ensures DeletedWell(env, st, already, r2)
  {
    var n, n1 := |st.events|, |r1.st.events|;
    forall i, d | n <= i < n1 && Deletes(r2.st.events, i, d) ensures Deletes(r1.st.events, i, d) {
      assert r1.st.events[i] == r2.st.events[..n1][i];
    }
    forall i, d | n <= i && Deletes(r1.st.events, i, d) ensures Deletes(r2.st.events, i, d) {
      assert r1.st.events[i] == r2.st.events[..n1][i];
    }
    assert r2.st.events[..n] == r2.st.events[..n1][..n];
  }

  /** Deleting `d` itself, after a well-behaved deletion of its children. */
  lemma DeleteRecordWell(env: Env, st: State, d: Id, already: set<Id>, r: Pruned)
    requires d !in already && d in st.dest && d !in st.d2s && d in r.st.dest
    requires DeletedWell(env, st, already + {d}, r) && r.rc == 0
    ensures DeletedWell(env, st, already, Pruned(if env.dry then 0 else env.remove(d), DeleteRecord(env, r.st, d), r.already))
  {
    var end := DeleteRecord(env, r.st, d);
    var n, last := |st.events|, |end.events| - 1;
    assert end.events[..n] == r.st.events[..n];
    assert Deletes(end.events, last, d);
    forall i, x | n <= i && Deletes(end.events, i, x) ensures i == last || Deletes(r.st.events, i, x) {
    }
    forall i, x | Deletes(r.st.events, i, x) ensures Deletes(end.events, i, x) {
    }
  }

  lemma {:induction false} MaybeDeleteWell(env: Env, st: State, d: Id, already: set<Id>)
    ensures DeletedWell(env, st, already, MaybeDelete(env, st, d, already))
    decreases st.dest.Keys - already, 0
  {
    if d !in already && d !in st.d2s && d in st.dest {
      var r := MaybeDeleteAll(env, st, st.dest[d].children, already + {d});
      MaybeDeleteAllWell(env, st, st.dest[d].children, already + {d});
      if r.rc == 0 { DeleteRecordWell(env, st, d, already, r); }
    }
  }

  lemma {:induction false} MaybeDeleteAllWell(env: Env, st: State, ds: seq<Id>, already: set<Id>)
    ensures DeletedWell(env, st, already, MaybeDeleteAll(env, st, ds, already))
    decreases st.dest.Keys - already, 1 + |ds|
  {
    if ds != [] {
      var r := MaybeDelete(env, st, ds[0], already);
      MaybeDeleteWell(env, st, ds[0], already);
      if r.rc == 0 {
        MaybeDeleteAllWell(env, r.st, ds[1..], r.already);
        DeletedTrans(env, st, already, r, MaybeDeleteAll(env, r.st, ds[1..], r.already));
      }
    }
  }

  lemma {:induction false} MaybeDeleteAllVisits(env: Env, st: State, ds: seq<Id>, already: set<Id>)
    requires MaybeDeleteAll(env, st, ds, already).rc == 0
    ensures forall d :: d in ds ==> d in MaybeDeleteAll(env, st, ds, already).already
    decreases |ds|
  {
    if ds != [] {
      var r := MaybeDelete(env, st, ds[0], already);
      MaybeDeleteAllVisits(env, r.st, ds[1..], r.already);
    }
  }

  /* The other phases delete nothing */

  /** What a run tells its observers and counts of deletions and amended playlists stays the same. */
  predicate Quiet(st: State, st': State) {
    && st'.events == st.events
    && st'.stats.filesDeleted == st.stats.filesDeleted && st'.stats.playlistsDeleted == st.stats.playlistsDeleted
    && st'.stats.playlistsModified == st.stats.playlistsModified
  }

  lemma AddRecordDeletesNothing(env: Env, st: State, s: Id)
    requires s in env.src
    ensures AddRecord(env, st, s).dest == st.dest && Quiet(st, AddRecord(env, st, s))
  {
  }

  lemma {:induction false} MaybeAddDeletesNothing(env: Env, st: State, s: Id, already: set<Id>)
    ensures MaybeAdd(env, st, s, already).st.dest == st.dest && Quiet(st, MaybeAdd(env, st, s, already).st)
    decreases env.src.Keys - already, 0
  {
    if s !in already && s !in st.s2d && s in env.src {
      MaybeAddAllDeletesNothing(env, st, env.src[s].children, already + {s});
      AddRecordDeletesNothing(env, MaybeAddAll(env, st, env.src[s].children, already + {s}).st, s);
    }
  }

  lemma {:induction false} MaybeAddAllDeletesNothing(env: Env, st: State, ss: seq<Id>, already: set<Id>)
    ensures MaybeAddAll(env, st, ss, already).st.dest == st.dest && Quiet(st, MaybeAddAll(env, st, ss, already).st)
    decreases env.src.Keys - already, 1 + |ss|
  {
    if ss != [] {
      MaybeAddDeletesNothing(env, st, ss[0], already);
      var r := MaybeAdd(env, st, ss[0], already);
      MaybeAddAllDeletesNothing(env, r.st, ss[1..], r.already);
    }
  }

  ghost predicate SameDeletions(a: seq<Event>, b: seq<Event>) {
    forall i, d :: Deletes(a, i, d) <==> Deletes(b, i, d)
  }

  lemma {:induction false} CopyItemsDeletesNothing(env: Env, st: State, phase: Phase, items: seq<Id>, k: nat)
    requires k <= |items|
    ensures SameDeletions(st.events, CopyItems(env, st, phase, items, k).st.events)
    decreases |items| - k
  {
    if k < |items| {
      var r := CopyItem(env, st, phase, items[k], k, |items|);
      assert r.st.events == st.events + [OnCopy(phase, items[k], k, |items|)];
      CopyItemsDeletesNothing(env, r.st, phase, items, k + 1);
    }
  }

  lemma CopyPhaseDeletesNothing(env: Env, r: Outcome, phase: Phase)
    ensures SameDeletions(r.st.events, CopyPhase(env, r, phase).st.events)
  {
    if r.rc == 0 { CopyItemsDeletesNothing(env, r.st, phase, Items(r.st, phase), 0); }
  }

  lemma {:induction false} CheckSilent(src: Db, st: State, s: Id, d: Id, amend: bool)
    requires SeenAreMapped(st)
    ensures Quiet(st, Check(src, st, s, d, amend).st)
    decreases src.Keys - st.seen, 0
  {
    if !(s in st.seen && s in st.s2d) && s in src && d in st.dest {
      var st' := Pair(src, st.(seen := st.seen + {s}), s, d).0;
      assert Quiet(st, st');
      WalkSilent(src, st', Match(src, st.dest, s, d), 0, 0, false);
    }
  }

  lemma {:induction false} WalkSilent(src: Db, st: State, m: Matching, i: nat, j: nat, amend: bool)
    requires SeenAreMapped(st) && Aligned(src, st.dest, m, i, j)
    ensures Quiet(st, Walk(src, st, m, i, j, amend).st)
    decreases src.Keys - st.seen, 1 + |m.srcIds| - i + |m.destIds| - j
  {
    AlignedStep(src, st.dest, m, i, j);
    if i == |m.srcIds| && j == |m.destIds| {
    } else if i < |m.srcIds| && i + 1 in m.script.additions {
      WalkSilent(src, st.(maybeAdd := st.maybeAdd + {m.srcIds[i]}), m, i + 1, j, true);
    } else if j < |m.destIds| && j + 1 in m.script.deletions {
      WalkSilent(src, st.(maybeDelete := st.maybeDelete + {m.destIds[j]}), m, i, j + 1, true);
    } else {
      CheckSilent(src, st, m.srcIds[i], m.destIds[j], amend);
      var r := Check(src, st, m.srcIds[i], m.destIds[j], amend);
      if r.rc == 0 { WalkSilent(src, r.st, m, i + 1, j + 1, r.amend); }
    }
  }

  lemma RestDeletesNothing(env: Env, p: Outcome)
    ensures SameDeletions(p.st.events, CopyAll(env, p).st.events)
    ensures SameDeletions(p.st.events, CopyAll(env, p).st.events + [OnStage(END)])
  {
    CopyPhaseDeletesNothing(env, p, AmendPlaylists);
    var r1 := CopyPhase(env, p, AmendPlaylists);
    CopyPhaseDeletesNothing(env, r1, AddPlaylists);
    var r2 := CopyPhase(env, r1, AddPlaylists);
    CopyPhaseDeletesNothing(env, r2, AddTunes);
    var r3 := CopyPhase(env, r2, AddTunes);
    CopyPhaseDeletesNothing(env, r3, AmendTunes);
  }

  /** Every announced record existed, was not matched with anything, and is announced once;
      the records gone are exactly those announced whose deletion succeeds. */
  ghost predicate DeletionsSafe(env: Env, dest: Db, d2s: map<Id, Id>, events: seq<Event>, left: Db) {
    && (forall i, d :: Deletes(events, i, d) ==> d in dest && d !in d2s)
    && (forall i, j, d :: Deletes(events, i, d) && Deletes(events, j, d) ==> i == j)
    && (forall d :: d in dest && d !in left <==> Removed(env, d) && exists i :: Deletes(events, i, d))
  }

  lemma PrefixDeletes(a: seq<Event>, b: seq<Event>)
    requires Prefix(a, b)
    ensures forall i: nat, d :: i < |a| ==> (Deletes(a, i, d) <==> Deletes(b, i, d))
  {
    forall i: nat | i < |a| ensures a[i] == b[i] {
      assert b[..|a|][i] == b[i];
    }
  }

  lemma SafeFromStart(env: Env, st: State, r: Pruned)
    requires DeletedWell(env, st, {}, r) && forall i: nat, d :: !Deletes(st.events, i, d)
    ensures DeletionsSafe(env, st.dest, st.d2s, r.st.events, r.st.dest)
  {
    PrefixDeletes(st.events, r.st.events);
  }

  /** Deletions are safe, and if none fails in a real run then every candidate that was not
      matched after all is gone. */
  lemma PlanDeletesSafely(env: Env, dest: Db)
    ensures var r, m := Plan(env, Fresh(dest)), Check(env.src, Start(Fresh(dest)), ROOT, ROOT, false).st;
      && DeletionsSafe(env, dest, m.d2s, r.st.events, r.st.dest)
      && (r.rc == 0 && !env.dry ==> forall d :: d in m.maybeDelete && d !in m.d2s ==> d !in r.st.dest)
  {
    var st := Start(Fresh(dest));
    var c := Check(env.src, st, ROOT, ROOT, false);
    CheckSilent(env.src, st, ROOT, ROOT, false);
    if c.rc == 0 {
      var doomed := Ordering.Ascending(c.st.maybeDelete);
      MaybeDeleteAllWell(env, c.st, doomed, {});
      var del := MaybeDeleteAll(env, c.st, doomed, {});
      SafeFromStart(env, c.st, del);
      if del.rc == 0 {
        MaybeDeleteAllVisits(env, c.st, doomed, {});
        Ordering.AscendingElements(c.st.maybeDelete);
      }
      MaybeAddAllDeletesNothing(env, del.st, Ordering.Ascending(del.st.maybeAdd), {});
    }
  }

  /** Over a whole run on any two databases, finished or not, deletions are safe. */
  lemma RunDeletesSafely(env: Env, dest: Db)
    ensures DeletionsSafe(env, dest, Check(env.src, Start(Fresh(dest)), ROOT, ROOT, false).st.d2s,
                          Synchronise(env, Fresh(dest)).st.events, Plan(env, Fresh(dest)).st.dest)
  {
    var p := Plan(env, Fresh(dest));
    PlanDeletesSafely(env, dest);
    RestDeletesNothing(env, p);
    SafeCarries(env, dest, Check(env.src, Start(Fresh(dest)), ROOT, ROOT, false).st.d2s,
                p.st.events, Synchronise(env, Fresh(dest)).st.events, p.st.dest);
  }

  lemma SafeCarries(env: Env, dest: Db, d2s: map<Id, Id>, events: seq<Event>, events': seq<Event>, left: Db)
    requires DeletionsSafe(env, dest, d2s, events, left) && SameDeletions(events, events')
    ensures DeletionsSafe(env, dest, d2s, events', left)
  {
  }
}
