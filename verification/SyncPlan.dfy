/** What a run plans after matching, and how the plan is carried out. */
module SyncPlan {
  import opened Ordering
  import opened SyncModel
  import opened SyncMatch
  import opened SyncDelete
  import opened SyncAdd
  import opened SyncCopy

  /** A planned item either matched a record that is still there or is queued as new. */
  ghost predicate Ready(env: Env, st: State, s: Id) {
    && s in st.s2d && s in env.src
    && (forall k :: 0 <= k < |Kids(env.src, s)| ==> Lookup(st.s2d, Kids(env.src, s)[k]) != 0)
    && (if st.s2d[s] in st.dest then
          && Alike(env.src, st.dest, s, st.s2d[s])
          && s !in st.addPlaylist
          && (s in st.amendPlaylist || SameFrom(st.s2d, Kids(env.src, s), Kids(st.dest, st.s2d[s]), 0, 0))
        else
          && Issued(env, 0, st.idsTaken, st.s2d[s])
          && s !in st.amendPlaylist
          && (env.src[s].IsComposite() ==> s in st.addPlaylist)
          && (env.src[s].IsItem() && env.src[s].IsCopied() ==> s in st.addTune)
          && s !in st.amendMetadata
          && (s in st.addTune ==> env.src[s].IsCopied()))
  }

  /** Items that have one id have it from matching. */
  ghost predicate OnlyOldShared(dest: Db, s2d: map<Id, Id>) {
    forall s, s' :: Lookup(s2d, s) != 0 && Lookup(s2d, s) == Lookup(s2d, s') ==> s == s' || Lookup(s2d, s) in dest
  }

  ghost predicate Planned(env: Env, st: State) {
    && Sourced(env.src, st.s2d)
    && ROOT in st.s2d && st.s2d[ROOT] == ROOT && ROOT in st.dest
    && (forall s {:trigger Ready(env, st, s)} :: Lookup(st.s2d, s) != 0 ==> Ready(env, st, s))
    && PlannedQueues(env, st)
    && OnlyOldShared(st.dest, st.s2d)
  }

  /** A matched list that is not to be amended named no record that was deleted. */
  ghost predicate ListsKept(dest: Db, st: State) {
    forall s :: Lookup(st.s2d, s) != 0 && Lookup(st.s2d, s) in st.dest && s !in st.amendPlaylist ==>
      Kids(st.dest, Lookup(st.s2d, s)) == Kids(dest, Lookup(st.s2d, s))
  }

  ghost predicate PlannedQueues(env: Env, st: State) {
    && (forall s :: s in st.amendPlaylist || s in st.addPlaylist || s in st.addTune || s in st.amendMetadata ==>
          s in env.src && Lookup(st.s2d, s) != 0)
    && (forall s :: s in st.addPlaylist ==> env.src[s].IsComposite())
    && (forall s :: s in st.addTune || s in st.amendMetadata ==> env.src[s].IsItem())
  }

  /* Planning */

  /** What deleting leaves of the state after matching. */
  ghost predicate Deleted(dest: Db, m: State, del: State) {
    && del == m.(dest := del.dest, stats := del.stats, events := del.events, anyDeleted := del.anyDeleted)
    && (forall d :: d in del.dest ==> d in dest && del.dest[d] == dest[d])
    && (forall d :: d in m.d2s && d in dest ==> d in del.dest)
  }

  /** The three parts of a plan: matched, pruned and added to. */
  ghost predicate Parts(env: Env, dest: Db, m: State, del: State, r: Pruned) {
    && Paired(env, m) && m.dest == dest && ROOT in m.s2d && m.s2d[ROOT] == ROOT && m.addPlaylist == []
    && (forall s :: s in m.s2d ==> Settled(env, m, s))
    && Deleted(dest, m, del)
    && AddedWell(env, del, {}, r)
    && (forall x :: x in m.maybeAdd ==> x in r.already)
  }

  /** The parts of a plan of which no deletion fails. */
  lemma PlanParts(env: Env, dest: Db) returns (m: State, del: State, r: Pruned)
    requires GoodSource(env.src) && Rooted(dest) && Plan(env, Fresh(dest)).rc == 0
    ensures Parts(env, dest, m, del, r) && Plan(env, Fresh(dest)) == Outcome(0, r.st)
    ensures m == Check(env.src, Start(Fresh(dest)), ROOT, ROOT, false).st
  {
    var st := Start(Fresh(dest));
    MatchingSettles(env, st);
    m := Check(env.src, st, ROOT, ROOT, false).st;
    var doomed := Ascending(m.maybeDelete);
    MaybeDeleteAllWell(env, m, doomed, {});
    del := MaybeDeleteAll(env, m, doomed, {}).st;
    PlanAdds(env, m, del);
    r := MaybeAddAll(env, del, Ascending(del.maybeAdd), {});
  }

  /** Every candidate for addition is visited unless one fails, and one does exactly if something is
      missing that would be added. */
  lemma PlanAdds(env: Env, m: State, del: State)
    requires GoodSource(env.src) && Paired(env, m) && del.s2d == m.s2d && del.maybeAdd == m.maybeAdd
    ensures var r := MaybeAddAll(env, del, Ascending(del.maybeAdd), {});
      && (r.rc == 0 ==> AddedWell(env, del, {}, r) && forall x :: x in m.maybeAdd ==> x in r.already)
      && (r.rc == 0 <==> AllThere(env.src, m))
  {
    var wanted := Ascending(del.maybeAdd);
    AscendingElements(del.maybeAdd);
    MaybeAddAllWell(env, del, wanted, {});
    MaybeAddAllFails(env, del, wanted);
    if a: set<Id> :| Complete(env.src, m.s2d, a) && forall s :: s in wanted ==> s in a {
      assert m.maybeAdd <= a;
    }
  }

  /** All that would be added is there, with all that it lists. */
  ghost predicate AllThere(src: Db, m: State) {
    exists a: set<Id> :: Complete(src, m.s2d, a) && m.maybeAdd <= a
  }

  ghost predicate AddsThere(src: Db, dest: Db) {
    AllThere(src, Check(src, Start(Fresh(dest)), ROOT, ROOT, false).st)
  }

  /** Nothing is missing from a source whose lists name only what is there. */
  lemma ClosedThere(src: Db, dest: Db)
    requires GoodSource(src) && Rooted(dest)
    requires forall s, c :: s in src && c in src[s].children ==> c in src
    ensures AddsThere(src, dest)
  {
    var env := JustSource(src);
    MatchingSettles(env, Start(Fresh(dest)));
    assert Complete(src, Matched(src, dest), src.Keys);
  }

  /** A plan deletes records and changes none, and leaves the root. */
  lemma PlanLeaves(env: Env, dest: Db)
    requires GoodSource(env.src) && Rooted(dest)
    ensures var left := Plan(env, Fresh(dest)).st.dest;
      ROOT in left && forall d :: d in left ==> d in dest && left[d] == dest[d]
  {
    var st := Start(Fresh(dest));
    MatchingSettles(env, st);
    var m := Check(env.src, st, ROOT, ROOT, false).st;
    var doomed := Ascending(m.maybeDelete);
    MaybeDeleteAllWell(env, m, doomed, {});
    var del := MaybeDeleteAll(env, m, doomed, {}).st;
    MaybeAddAllDeletesNothing(env, del, Ascending(del.maybeAdd), {});
    PlanDeletesSafely(env, dest);
    assert ROOT in m.d2s;
  }

  /** A plan fails exactly when one of the deletions it announced does, or something to be added is missing. */
  ghost predicate DeletionsDone(env: Env, events: seq<Event>) {
    forall d :: OnDelete(d) in events ==> env.dry || env.remove(d) == 0
  }

  lemma DeletionsDecide(env: Env, st: State, r: Pruned)
    requires DeletedWell(env, st, {}, r) && forall d :: OnDelete(d) !in st.events
    ensures r.rc == 0 <==> DeletionsDone(env, r.st.events)
  {
    forall i: nat | i < |st.events| ensures r.st.events[i] in st.events {
      assert r.st.events[i] == r.st.events[..|st.events|][i];
    }
    forall d | OnDelete(d) in r.st.events ensures exists i: nat :: |st.events| <= i && Deletes(r.st.events, i, d) {
      var i: nat :| i < |r.st.events| && r.st.events[i] == OnDelete(d);
      assert Deletes(r.st.events, i, d);
    }
    forall i: nat, d | Deletes(r.st.events, i, d) ensures OnDelete(d) in r.st.events {
      assert r.st.events[i] in r.st.events;
    }
  }

  lemma PlanFails(env: Env, dest: Db)
    requires GoodSource(env.src) && Rooted(dest)
    ensures Plan(env, Fresh(dest)).rc == 0
      <==> DeletionsDone(env, Plan(env, Fresh(dest)).st.events) && AddsThere(env.src, dest)
  {
    var st := Start(Fresh(dest));
    MatchingSettles(env, st);
    CheckSilent(env.src, st, ROOT, ROOT, false);
    var m := Check(env.src, st, ROOT, ROOT, false).st;
    MaybeDeleteAllWell(env, m, Ascending(m.maybeDelete), {});
    PlanFailsFrom(env, m);
  }

  lemma PlanFailsFrom(env: Env, m: State)
    requires GoodSource(env.src) && Paired(env, m) && m.events == [OnStage(BEGIN)]
    ensures var del := MaybeDeleteAll(env, m, Ascending(m.maybeDelete), {});
      var add := MaybeAddAll(env, del.st, Ascending(del.st.maybeAdd), {});
      && (del.rc == 0 <==> DeletionsDone(env, del.st.events))
      && (del.rc == 0 ==> add.st.events == del.st.events && (add.rc == 0 <==> AllThere(env.src, m)))
  {
    MaybeDeleteAllWell(env, m, Ascending(m.maybeDelete), {});
    var del := MaybeDeleteAll(env, m, Ascending(m.maybeDelete), {});
    DeletionsDecide(env, m, del);
    PlanAdds(env, m, del.st);
    MaybeAddAllDeletesNothing(env, del.st, Ascending(del.st.maybeAdd), {});
  }

  lemma {:induction false} NamedSame(db: Db, db': Db, ids: seq<Id>)
    requires forall c :: c in ids ==> (Wanted(db, c) <==> Wanted(db', c))
    ensures Named(db, ids) == Named(db', ids)
  {
    if ids != [] { NamedSame(db, db', ids[1..]); }
  }

  /** A list that needs no amending lists the same wanted records when the deletions are done. */
  lemma LeftKids(dest: Db, left: Db, s2d: map<Id, Id>, srcIds: seq<Id>, d: Id)
    requires d in dest && d in left && left[d] == dest[d] && SameFrom(s2d, srcIds, Kids(dest, d), 0, 0)
    requires forall x :: x in left ==> x in dest && left[x] == dest[x]
    requires forall s :: s in s2d && s2d[s] in dest ==> s2d[s] in left
    ensures Kids(left, d) == Kids(dest, d)
  {
    NamedElements(dest, dest[d].children);
    forall c | c in dest[d].children ensures Wanted(dest, c) <==> Wanted(left, c) {
      if Wanted(dest, c) {
        assert c in Kids(dest, d);
        var k :| 0 <= k < |Kids(dest, d)| && Kids(dest, d)[k] == c;
        assert s2d[srcIds[k]] == c;
      }
    }
    NamedSame(dest, left, dest[d].children);
  }

  /** Matched records are not deleted. */
  lemma MatchedLeft(env: Env, dest: Db, m: State, del: State)
    requires Paired(env, m) && m.dest == dest && Deleted(dest, m, del)
    ensures forall x :: x in m.s2d ==> m.s2d[x] in del.dest && Alike(env.src, del.dest, x, m.s2d[x])
  {
    forall x | x in m.s2d ensures m.s2d[x] in del.dest && Alike(env.src, del.dest, x, m.s2d[x]) {
      assert m.s2d[x] in m.d2s && Alike(env.src, dest, x, m.s2d[x]);
    }
  }

  lemma SettledKids(env: Env, dest: Db, m: State, del: State, r: Pruned, s: Id)
    requires Parts(env, dest, m, del, r) && FreshIds(env, del.dest, r.st.idsTaken) && s in m.s2d
    ensures forall k :: 0 <= k < |Kids(env.src, s)| ==> Lookup(r.st.s2d, Kids(env.src, s)[k]) != 0
  {
    assert Settled(env, m, s);
    forall k | 0 <= k < |Kids(env.src, s)| ensures Lookup(r.st.s2d, Kids(env.src, s)[k]) != 0 {
      KidWanted(env.src, s, k);
      KidMapped(env, dest, m, del, r, Kids(env.src, s)[k]);
    }
  }

  /** A matched item's list is to be amended, or is right in what the deletions left. */
  lemma SettledLeft(env: Env, dest: Db, m: State, del: State, s: Id)
    requires Paired(env, m) && m.dest == dest && Deleted(dest, m, del) && s in m.s2d && Settled(env, m, s)
    ensures s in m.amendPlaylist
      || (Kids(del.dest, m.s2d[s]) == Kids(dest, m.s2d[s]) && SameFrom(m.s2d, Kids(env.src, s), Kids(del.dest, m.s2d[s]), 0, 0))
  {
    MatchedLeft(env, dest, m, del);
    if s !in m.amendPlaylist { LeftKids(dest, del.dest, m.s2d, Kids(env.src, s), m.s2d[s]); }
  }

  /** A matched item whose list was settled, once the rest of the plan is there. */
  lemma ReadyIfSettled(env: Env, m: State, st: State, s: Id)
    requires s in m.s2d && Extends(m.s2d, st.s2d) && st.amendPlaylist == m.amendPlaylist && s !in st.addPlaylist
    requires Alike(env.src, st.dest, s, m.s2d[s])
    requires forall k :: 0 <= k < |Kids(env.src, s)| ==> Lookup(st.s2d, Kids(env.src, s)[k]) != 0
    requires s in m.amendPlaylist || SameFrom(m.s2d, Kids(env.src, s), Kids(st.dest, m.s2d[s]), 0, 0)
    ensures Ready(env, st, s)
  {
  }

  lemma SettledReady(env: Env, dest: Db, m: State, del: State, r: Pruned, s: Id)
    requires Parts(env, dest, m, del, r) && FreshIds(env, del.dest, r.st.idsTaken) && s in m.s2d
    ensures Ready(env, r.st, s)
  {
    MatchedLeft(env, dest, m, del);
    SettledKids(env, dest, m, del, r, s);
    SettledLeft(env, dest, m, del, s);
    assert r.st.dest == del.dest && Alike(env.src, del.dest, s, m.s2d[s]);
    ReadyIfSettled(env, m, r.st, s);
  }

  /** Every wanted item that is mapped at all has an id. */
  lemma KidMapped(env: Env, dest: Db, m: State, del: State, r: Pruned, c: Id)
    requires Parts(env, dest, m, del, r) && FreshIds(env, del.dest, r.st.idsTaken) && Wanted(env.src, c) && c in r.st.s2d
    ensures Lookup(r.st.s2d, c) != 0
  {
    if c in m.s2d {
      assert r.st.s2d[c] == m.s2d[c];
    } else {
      assert Added(env, del, r, c);
    }
  }

  lemma AddedReady(env: Env, dest: Db, m: State, del: State, r: Pruned, s: Id)
    requires Parts(env, dest, m, del, r) && FreshIds(env, del.dest, r.st.idsTaken)
    requires s !in m.s2d && Lookup(r.st.s2d, s) != 0
    ensures Ready(env, r.st, s)
  {
    assert Added(env, del, r, s);
    IssuedWider(env, del.idsTaken, r.st.idsTaken, 0, r.st.idsTaken, r.st.s2d[s]);
    NamedElements(env.src, env.src[s].children);
    forall k | 0 <= k < |Kids(env.src, s)| ensures Lookup(r.st.s2d, Kids(env.src, s)[k]) != 0 {
      assert Kids(env.src, s)[k] in Kids(env.src, s);
      KidMapped(env, dest, m, del, r, Kids(env.src, s)[k]);
    }
  }

  /** What the queues of the three parts of a plan hold. */
  ghost predicate QueueParts(env: Env, m: State, del: State, end: State) {
    && PairedQueues(env.src, m.s2d.Keys, m) && m.addPlaylist == [] && del.s2d == m.s2d
    && del.addTune == m.addTune && del.amendMetadata == m.amendMetadata && del.addPlaylist == m.addPlaylist
    && del.amendPlaylist == m.amendPlaylist && end.amendPlaylist == del.amendPlaylist && end.amendMetadata == del.amendMetadata
    && Sourced(env.src, end.s2d) && Extends(del.s2d, end.s2d) && QueuedOnlyNew(env, del, end)
  }

  lemma TuneQueued(env: Env, m: State, del: State, r: Pruned, s: Id)
    requires QueueParts(env, m, del, r.st) && (s in r.st.addTune || s in r.st.amendMetadata)
    ensures s in r.st.s2d && s in env.src && env.src[s].IsItem()
    ensures s !in m.s2d ==> s in r.st.addTune && env.src[s].IsCopied()
  {
    assert s in r.st.s2d && s in env.src;
  }

  lemma ListQueued(env: Env, dest: Db, m: State, del: State, r: Pruned, s: Id)
    requires QueueParts(env, m, del, r.st) && (s in r.st.addPlaylist || s in r.st.amendPlaylist)
    requires 0 !in env.src && forall x :: x in m.s2d ==> Alike(env.src, dest, x, m.s2d[x])
    ensures s in r.st.s2d && Wanted(env.src, s) && (s in r.st.addPlaylist ==> env.src[s].IsComposite())
  {
    assert s in m.s2d ==> Alike(env.src, dest, s, m.s2d[s]);
  }

  lemma PlanQueued(env: Env, dest: Db, m: State, del: State, r: Pruned)
    requires GoodSource(env.src) && Parts(env, dest, m, del, r) && FreshIds(env, del.dest, r.st.idsTaken)
    ensures PlannedQueues(env, r.st)
  {
    forall s | s in r.st.addTune || s in r.st.amendMetadata ensures s in r.st.s2d && s in env.src && env.src[s].IsItem() {
      TuneQueued(env, m, del, r, s);
    }
    forall s | s in r.st.addPlaylist || s in r.st.amendPlaylist ensures s in r.st.s2d && Wanted(env.src, s) {
      ListQueued(env, dest, m, del, r, s);
    }
    forall s | s in r.st.s2d && Wanted(env.src, s) ensures Lookup(r.st.s2d, s) != 0 {
      KidMapped(env, dest, m, del, r, s);
    }
  }

  /** `now` is `was` with ids for new items that are outside `dest` and apart from each other. */
  ghost predicate GrownOutside(dest: Db, was: map<Id, Id>, now: map<Id, Id>) {
    && (forall s :: Lookup(was, s) != 0 ==> Lookup(now, s) == Lookup(was, s) && Lookup(was, s) in dest)
    && (forall s :: Lookup(now, s) != 0 && Lookup(was, s) == 0 ==> Lookup(now, s) !in dest && s !in was)
    && NewApart(was, now)
  }

  lemma PartsGrow(env: Env, dest: Db, m: State, del: State, r: Pruned)
    requires Parts(env, dest, m, del, r) && FreshIds(env, del.dest, r.st.idsTaken)
    ensures GrownOutside(del.dest, m.s2d, r.st.s2d)
  {
    forall s | s in m.s2d ensures Lookup(m.s2d, s) != 0 && Lookup(r.st.s2d, s) == m.s2d[s] && m.s2d[s] in del.dest {
      assert Alike(env.src, dest, s, m.s2d[s]) && m.s2d[s] in m.d2s;
    }
    forall s | Lookup(r.st.s2d, s) != 0 && s !in m.s2d ensures Lookup(r.st.s2d, s) !in del.dest {
      assert Added(env, del, r, s);
    }
  }

  /** New ids are neither among the old ones nor equal to each other. */
  lemma GrownApart(dest: Db, was: map<Id, Id>, now: map<Id, Id>)
    requires GrownOutside(dest, was, now)
    ensures Injective(now) <==> Injective(was)
    ensures OnlyOldShared(dest, now)
  {
  }

  lemma PartsKeep(env: Env, dest: Db, m: State, del: State, r: Pruned)
    requires Parts(env, dest, m, del, r) && FreshIds(env, del.dest, r.st.idsTaken)
    ensures ListsKept(dest, r.st)
  {
    PartsGrow(env, dest, m, del, r);
    forall s | Lookup(r.st.s2d, s) != 0 && Lookup(r.st.s2d, s) in r.st.dest && s !in r.st.amendPlaylist
      ensures Kids(r.st.dest, Lookup(r.st.s2d, s)) == Kids(dest, Lookup(r.st.s2d, s))
    {
      if s in m.s2d { SettledLeft(env, dest, m, del, s); }
    }
  }

  /** What a run needs of the ids it is given: they are fresh when its deletions are done. */
  ghost predicate GivenFresh(env: Env, dest: Db) {
    var st := Plan(env, Fresh(dest)).st;
    FreshIds(env, st.dest, st.idsTaken)
  }

  /** Every item that is to be added is of a kind that is copied; for others an id is taken, and no record
      made. */
  ghost predicate NewCopied(src: Db, was: map<Id, Id>, now: map<Id, Id>) {
    forall s :: Lookup(now, s) != 0 && s !in was ==> s in src && src[s].IsCopied()
  }

  ghost predicate AddsCopied(env: Env, dest: Db) {
    NewCopied(env.src, Matched(env.src, dest), Plan(env, Fresh(dest)).st.s2d)
  }

  /** Unless a deletion fails, what a plan holds is consistent. */
  lemma PlanGood(env: Env, dest: Db)
    requires GoodSource(env.src) && Rooted(dest) && GivenFresh(env, dest) && Plan(env, Fresh(dest)).rc == 0
    ensures var st := Plan(env, Fresh(dest)).st;
      && Planned(env, st) && ListsKept(dest, st) && GrownOutside(st.dest, Matched(env.src, dest), st.s2d)
      && forall d :: d in st.dest ==> d in dest && st.dest[d] == dest[d]
  {
    var m, del, r := PlanParts(env, dest);
    forall s | Lookup(r.st.s2d, s) != 0 ensures Ready(env, r.st, s) {
      if s in m.s2d {
        SettledReady(env, dest, m, del, r, s);
      } else {
        AddedReady(env, dest, m, del, r, s);
      }
    }
    MatchedLeft(env, dest, m, del);
    PlanQueued(env, dest, m, del, r);
    PartsKeep(env, dest, m, del, r);
    PartsGrow(env, dest, m, del, r);
    GrownApart(del.dest, m.s2d, r.st.s2d);
  }

  /* Copying */

  lemma QueuedCopyable(env: Env, st: State, phase: Phase, s: Id)
    requires PlannedQueues(env, st) && s in Items(st, phase)
    ensures s in env.src && Lookup(st.s2d, s) != 0
  {
    match phase
    case AmendPlaylists => AscendingHas(st.amendPlaylist, s);
    case AddPlaylists =>
    case AddTunes => AscendingHas(st.addTune, s);
    case AmendTunes => AscendingHas(st.amendMetadata, s);
  }

  lemma ListsOf(env: Env, st: State, s: Id)
    requires PlannedQueues(env, st)
    ensures s in Items(st, AmendPlaylists) <==> s in st.amendPlaylist
    ensures s in Items(st, AddTunes) <==> s in st.addTune
    ensures s in Items(st, AmendTunes) <==> s in st.amendMetadata
    ensures s in st.addTune || s in st.amendMetadata ==> s in env.src && env.src[s].IsItem()
  {
    AscendingHas(st.amendPlaylist, s);
    AscendingHas(st.addTune, s);
    AscendingHas(st.amendMetadata, s);
  }

  lemma QueuesCopyable(env: Env, st: State)
    requires PlannedQueues(env, st)
    ensures forall phase {:trigger Items(st, phase)} :: Copyable(env, st.s2d, Items(st, phase))
  {
    forall phase, s | s in Items(st, phase) ensures s in env.src && Lookup(st.s2d, s) != 0 {
      QueuedCopyable(env, st, phase, s);
    }
  }

  /** Every call that a phase makes for its items succeeds. */
  ghost predicate PhaseDone(env: Env, st: State, phase: Phase) {
    env.dry || forall s :: s in Items(st, phase) ==> ItemRc(env, phase, s) == 0
  }

  /** No deletion that was announced fails, and no call that copies a queued item. */
  ghost predicate NothingFails(env: Env, st: State) {
    DeletionsDone(env, st.events) && forall phase {:trigger PhaseDone(env, st, phase)} :: PhaseDone(env, st, phase)
  }

  lemma PhaseFails(env: Env, st0: State, st: State, phase: Phase)
    requires Copyable(env, st.s2d, Items(st, phase)) && SamePlans(st0, st)
    ensures var r := CopyPhase(env, Outcome(0, st), phase);
      SamePlans(st0, r.st) && (r.rc == 0 <==> PhaseDone(env, st0, phase))
  {
    var items := Items(st, phase);
    CopyItemsWell(env, st, phase, items, 0);
    assert (forall i :: 0 <= i < |items| ==> ItemRc(env, phase, items[i]) == 0)
      ==> forall s :: s in items ==> ItemRc(env, phase, s) == 0;
    assert (forall s :: s in items ==> ItemRc(env, phase, s) == 0)
      ==> forall i :: 0 <= i < |items| ==> items[i] in items && ItemRc(env, phase, items[i]) == 0;
  }

  /** The copying phases fail exactly when a commit or transfer of theirs does. */
  lemma CopyAllFails(env: Env, st: State)
    requires PlannedQueues(env, st)
    ensures var r := CopyAll(env, Outcome(0, st));
      && SamePlans(st, r.st)
      && (r.rc == 0 <==> forall phase {:trigger PhaseDone(env, st, phase)} :: PhaseDone(env, st, phase))
  {
    QueuesCopyable(env, st);
    PhaseFails(env, st, st, AmendPlaylists);
    var r1 := CopyPhase(env, Outcome(0, st), AmendPlaylists);
    SamePlansCopyable(env, st, r1.st, AddPlaylists);
    PhaseFails(env, st, r1.st, AddPlaylists);
    var r2 := CopyPhase(env, r1, AddPlaylists);
    if r1.rc == 0 && r2.rc == 0 {
      SamePlansCopyable(env, st, r2.st, AddTunes);
      PhaseFails(env, st, r2.st, AddTunes);
      var r3 := CopyPhase(env, r2, AddTunes);
      SamePlansCopyable(env, st, r3.st, AmendTunes);
      PhaseFails(env, st, r3.st, AmendTunes);
      AllPhases(env, st);
    }
  }

  lemma AllPhases(env: Env, st: State)
    ensures (forall phase {:trigger PhaseDone(env, st, phase)} :: PhaseDone(env, st, phase))
      <==> (&& PhaseDone(env, st, AmendPlaylists) && PhaseDone(env, st, AddPlaylists)
            && PhaseDone(env, st, AddTunes) && PhaseDone(env, st, AmendTunes))
  {
    if PhaseDone(env, st, AmendPlaylists) && PhaseDone(env, st, AddPlaylists) && PhaseDone(env, st, AddTunes)
       && PhaseDone(env, st, AmendTunes) {
      forall phase ensures PhaseDone(env, st, phase) {
        match phase
        case _ =>
      }
    }
  }

  /** The four phases of a finished real run. */
  ghost predicate Ran(env: Env, st0: State, st1: State, st2: State, st3: State, st4: State, d: Id) {
    && Phased(env, st0, AmendPlaylists, st1, d) && Phased(env, st1, AddPlaylists, st2, d)
    && Phased(env, st2, AddTunes, st3, d) && Phased(env, st3, AmendTunes, st4, d)
  }

  lemma PhasesRun(env: Env, st: State) returns (st1: State, st2: State, st3: State, st4: State)
    requires PlannedQueues(env, st) && !env.dry && CopyAll(env, Outcome(0, st)).rc == 0
    ensures st4 == CopyAll(env, Outcome(0, st)).st
    ensures SamePlans(st, st1) && SamePlans(st, st2) && SamePlans(st, st3) && SamePlans(st, st4)
    ensures forall d {:trigger Ran(env, st, st1, st2, st3, st4, d)} :: Ran(env, st, st1, st2, st3, st4, d)
  {
    QueuesCopyable(env, st);
    st1 := CopyPhase(env, Outcome(0, st), AmendPlaylists).st;
    AfterPhase(env, st, AmendPlaylists);
    SamePlansCopyable(env, st, st1, AddPlaylists);
    st2 := CopyPhase(env, Outcome(0, st1), AddPlaylists).st;
    AfterPhase(env, st1, AddPlaylists);
    SamePlansCopyable(env, st, st2, AddTunes);
    st3 := CopyPhase(env, Outcome(0, st2), AddTunes).st;
    AfterPhase(env, st2, AddTunes);
    SamePlansCopyable(env, st, st3, AmendTunes);
    st4 := CopyPhase(env, Outcome(0, st3), AmendTunes).st;
    AfterPhase(env, st3, AmendTunes);
    forall d ensures Ran(env, st, st1, st2, st3, st4, d) {
      assert Phased(env, st, AmendPlaylists, st1, d) && Phased(env, st1, AddPlaylists, st2, d);
      assert Phased(env, st2, AddTunes, st3, d) && Phased(env, st3, AmendTunes, st4, d);
    }
  }

  /** Records that nothing maps to are left alone. */
  lemma UnmappedStays(env: Env, st: State, d: Id)
    requires PlannedQueues(env, st) && !env.dry && CopyAll(env, Outcome(0, st)).rc == 0
    requires forall s :: Lookup(st.s2d, s) != d
    ensures SameAt(st.dest, CopyAll(env, Outcome(0, st)).st.dest, d)
  {
    var st1, st2, st3, st4 := PhasesRun(env, st);
    assert Ran(env, st, st1, st2, st3, st4, d);
  }

  /* Failure */

  /** A run, real or dry, fails exactly when a deletion it announced does, or something to be added is
      missing, or a call for a queued item fails. */
  lemma SynchroniseFails(env: Env, dest: Db)
    requires GoodSource(env.src) && Rooted(dest) && GivenFresh(env, dest)
    ensures var r := Synchronise(env, Fresh(dest)); r.rc == 0 <==> NothingFails(env, r.st) && AddsThere(env.src, dest)
  {
    PlanFails(env, dest);
    var p := Plan(env, Fresh(dest));
    RestDeletesNothing(env, p);
    var r := Synchronise(env, Fresh(dest));
    SameDone(env, p.st.events, r.st.events);
    if p.rc == 0 {
      PlanGood(env, dest);
      CopyAllFails(env, p.st);
      SameQueuesDone(env, p.st, r.st);
    }
  }

  lemma SameDone(env: Env, a: seq<Event>, b: seq<Event>)
    requires SameDeletions(a, b)
    ensures DeletionsDone(env, a) <==> DeletionsDone(env, b)
  {
    forall d ensures OnDelete(d) in a <==> OnDelete(d) in b {
      if OnDelete(d) in a {
        var i: nat :| i < |a| && a[i] == OnDelete(d);
        assert Deletes(a, i, d) && Deletes(b, i, d);
      }
      if OnDelete(d) in b {
        var i: nat :| i < |b| && b[i] == OnDelete(d);
        assert Deletes(b, i, d) && Deletes(a, i, d);
      }
    }
  }

  lemma SameQueuesDone(env: Env, st: State, st': State)
    requires SamePlans(st, st')
    ensures (forall phase {:trigger PhaseDone(env, st, phase)} :: PhaseDone(env, st, phase))
      <==> (forall phase {:trigger PhaseDone(env, st', phase)} :: PhaseDone(env, st', phase))
  {
    assert forall phase {:trigger PhaseDone(env, st, phase)} {:trigger PhaseDone(env, st', phase)} ::
        PhaseDone(env, st, phase) <==> PhaseDone(env, st', phase);
  }
}
