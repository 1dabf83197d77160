/** A run on a destination that is as the source already does nothing. */
module SyncAgain {
  import opened Ordering
  import opened EditScript
  import opened SyncModel
  import opened SyncMatch
  import opened SyncCopy
  import opened SyncPlan
  import opened SyncLists
  import opened SyncMirror
  import opened SyncTunes

  /** Where item `s` goes there is nothing left to do for it: it is mirrored, what it lists is
      listed there under the same names, and an item is up to date.  Several items may go to one record. */
  ghost predicate Finished(src: Db, dest: Db, f: map<Id, Id>, s: Id) {
    && Mirrored(src, dest, f, s)
    && Kids(dest, Lookup(f, s)) == MapAll(f, Kids(src, s))
    && (forall c <- Kids(src, s) :: c in src && Lookup(f, c) in dest && dest[Lookup(f, c)].title == src[c].title)
    && (src[s].IsItem() ==> UpToDate(src, dest, s, Lookup(f, s)))
  }

  ghost predicate AllFinished(src: Db, dest: Db, f: map<Id, Id>) {
    && Lookup(f, ROOT) == ROOT
    && forall s {:trigger Finished(src, dest, f, s)} :: Lookup(f, s) != 0 ==> Finished(src, dest, f, s)
  }

  /** Matching that has found nothing to do so far. */
  ghost predicate Idle(dest: Db, f: map<Id, Id>, st: State) {
    && st.dest == dest && st.stats == NO_STATISTICS && st.events == [OnStage(BEGIN)] && st.idsTaken == 0
    && st.maybeAdd == {} && st.maybeDelete == {} && st.addTune == {} && st.amendMetadata == {}
    && st.addPlaylist == [] && st.amendPlaylist == {}
    && st.seen == st.s2d.Keys
    && (forall x :: x in st.s2d ==> st.s2d[x] == Lookup(f, x) != 0)
  }

  lemma KidFinished(src: Db, dest: Db, f: map<Id, Id>, s: Id, k: nat)
    requires AllFinished(src, dest, f) && Lookup(f, s) != 0 && k < |Kids(src, s)|
    ensures var c := Kids(src, s)[k];
      && |Kids(dest, Lookup(f, s))| == |Kids(src, s)| && Kids(dest, Lookup(f, s))[k] == Lookup(f, c) != 0
      && c in src && Lookup(f, c) in dest && src[c].Name() == dest[Lookup(f, c)].Name()
  {
    assert Finished(src, dest, f, s);
    var c := Kids(src, s)[k];
    KidWanted(src, s, k);
    KidWanted(dest, Lookup(f, s), k);
    assert Finished(src, dest, f, c);
    assert c in Kids(src, s);
  }

  /** The names below a finished item are the same, so the script is empty. */
  lemma NothingToEdit(src: Db, dest: Db, f: map<Id, Id>, s: Id)
    requires AllFinished(src, dest, f) && Lookup(f, s) != 0
    ensures Match(src, dest, s, Lookup(f, s))
      == Matching(Kids(src, s), MapAll(f, Kids(src, s)), Script(0, {}, {}))
  {
    var d := Lookup(f, s);
    assert Finished(src, dest, f, s);
    var m := Match(src, dest, s, d);
    var names := Names(src, m.srcIds);
    assert Names(dest, m.destIds) == names by {
      forall k | 0 <= k < |names| ensures Names(dest, m.destIds)[k] == names[k] { KidFinished(src, dest, f, s, k); }
    }
    DiffOfEqual(names, |names|);
  }

  lemma PairIdle(src: Db, dest: Db, f: map<Id, Id>, st: State, s: Id)
    requires GoodSource(src) && AllFinished(src, dest, f) && Idle(dest, f, st)
    requires Lookup(f, s) != 0 && s !in st.s2d
    ensures s in src && Lookup(f, s) in dest
    ensures var (st', s') := Pair(src, st.(seen := st.seen + {s}), s, Lookup(f, s));
      s' == s && Idle(dest, f, st') && s in st'.s2d
  {
    assert Finished(src, dest, f, s) && Untwinned(src, s);
    var st1 := st.(seen := st.seen + {s});
    assert Compare(src, st1, s, Lookup(f, s)) == (st1, s);
  }

  lemma {:induction false} CheckIdle(src: Db, dest: Db, f: map<Id, Id>, st: State, s: Id, amend: bool)
    requires GoodSource(src) && AllFinished(src, dest, f) && Idle(dest, f, st) && Lookup(f, s) != 0
    ensures var r := Check(src, st, s, Lookup(f, s), amend);
      r.rc == 0 && r.amend == amend && Idle(dest, f, r.st)
    decreases src.Keys - st.seen, 0
  {
    if s !in st.s2d {
      PairIdle(src, dest, f, st, s);
      NothingToEdit(src, dest, f, s);
      WalkIdle(src, dest, f, Pair(src, st.(seen := st.seen + {s}), s, Lookup(f, s)).0,
               Match(src, dest, s, Lookup(f, s)), s, 0);
    }
  }

  lemma {:induction false} WalkIdle(src: Db, dest: Db, f: map<Id, Id>, st: State, m: Matching, s: Id, i: nat)
    requires GoodSource(src) && AllFinished(src, dest, f) && Idle(dest, f, st) && Lookup(f, s) != 0
    requires m == Matching(Kids(src, s), MapAll(f, Kids(src, s)), Script(0, {}, {}))
    requires i <= |Kids(src, s)| && Aligned(src, dest, m, i, i)
    ensures var r := Walk(src, st, m, i, i, false);
      r.rc == 0 && !r.amend && Idle(dest, f, r.st)
    decreases src.Keys - st.seen, 1 + |Kids(src, s)| - i
  {
    if i < |m.srcIds| {
      KidFinished(src, dest, f, s, i);
      CheckIdle(src, dest, f, st, m.srcIds[i], false);
      WalkCompared(src, st, m, i, i, false);
      WalkIdle(src, dest, f, Check(src, st, m.srcIds[i], m.destIds[i], false).st, m, s, i + 1);
    }
  }

  lemma NothingQueued(env: Env, st: State)
    requires st.amendPlaylist == {} && st.addPlaylist == [] && st.addTune == {} && st.amendMetadata == {}
    ensures CopyAll(env, Outcome(0, st)) == Outcome(0, st)
  {
    assert Ascending({}) == [];
    assert forall phase :: CopyItems(env, st, phase, [], 0) == Outcome(0, st);
  }

  /** On a destination where all is finished, a run of either kind succeeds, queues, announces and
      counts nothing, and leaves every record as it is. */
  lemma NothingToDo(env: Env, dest: Db, f: map<Id, Id>)
    requires GoodSource(env.src) && AllFinished(env.src, dest, f)
    ensures var r := Synchronise(env, Fresh(dest));
      && r.rc == 0 && r.st.dest == dest && r.st.stats == NO_STATISTICS && r.st.idsTaken == 0
      && r.st.s2d == Matched(env.src, dest)
      && r.st.events == [OnStage(BEGIN), OnStage(END)]
      && r.st.amendPlaylist == {} && r.st.addPlaylist == [] && r.st.addTune == {} && r.st.amendMetadata == {}
  {
    CheckIdle(env.src, dest, f, Start(Fresh(dest)), ROOT, false);
    var c := Check(env.src, Start(Fresh(dest)), ROOT, ROOT, false);
    assert Ascending({}) == [];
    assert Plan(env, Fresh(dest)) == Outcome(0, c.st);
    NothingQueued(env, c.st);
  }

  /* A second run */

  /** What is no container in the source lists nothing. */
  ghost predicate ItemsAreLeaves(src: Db) {
    forall s :: s in src && src[s].IsItem() ==> src[s].children == []
  }

  /** Nothing that is listed has the root's record, or both roots have one title. */
  ghost predicate RootsAgree(src: Db, dest: Db) {
    || (forall s, c :: s in src && c in src[s].children ==> Lookup(Matched(src, dest), c) != ROOT)
    || RootsTitled(src, dest)
  }

  ghost predicate ListsNothing(st: State, s: Id, now: Db) {
    Lookup(st.s2d, s) in now && now[Lookup(st.s2d, s)].children == []
  }

  /** A phase that writes the record of a tune that lists nothing writes an empty list. */
  lemma PhaseLists(env: Env, st: State, st1: State, phase: Phase, st2: State, s: Id)
    requires ItemsAreLeaves(env.src) && Planned(env, st) && SamePlans(st, st1) && Lookup(st.s2d, s) != 0
    requires GoodSource(env.src) && s in env.src && env.src[s].IsItem()
    requires Phased(env, st1, phase, st2, Lookup(st.s2d, s))
    requires ListsNothing(st, s, st1.dest) || Target(st1.s2d, Items(st1, phase), 0, Lookup(st.s2d, s))
    ensures ListsNothing(st, s, st2.dest)
  {
    var items, d := Items(st1, phase), Lookup(st.s2d, s);
    if Target(st1.s2d, items, 0, d) {
      var i :| 0 <= i < |items| && Lookup(st1.s2d, items[i]) == d && CopiedAt(env, st1.s2d, phase, items[i], st2.dest);
      assert Ready(env, st, s) && Ready(env, st, items[i]);
      assert env.src[items[i]].children == [];
    }
  }

  /** The phase that first writes a tune's record, unless the record stays as it is. */
  lemma TuneTargeted(env: Env, st: State, s: Id) returns (phase: Phase, x: Id)
    requires Planned(env, st) && AllCopied(env, st) && !Unwritten(st, s)
    requires s in env.src && env.src[s].IsItem() && Lookup(st.s2d, s) != 0
    ensures x in Items(st, phase) && Lookup(st.s2d, x) == Lookup(st.s2d, s)
  {
    assert Ready(env, st, s);
    if Lookup(st.s2d, s) !in st.dest {
      x := s;
    } else {
      x :| (x in st.amendPlaylist || x in st.addTune || x in st.amendMetadata) && Lookup(st.s2d, x) == Lookup(st.s2d, s);
    }
    ListsOf(env, st, x);
    phase := if x in st.amendPlaylist then AmendPlaylists else if x in st.addTune then AddTunes else AmendTunes;
  }

  lemma TuneListsNothing(env: Env, st: State, s: Id)
    requires ItemsAreLeaves(env.src) && Planned(env, st) && AllCopied(env, st)
    requires Lookup(st.s2d, s) != 0 && !Unwritten(st, s)
    requires GoodSource(env.src) && s in env.src && env.src[s].IsItem()
    requires !env.dry && CopyAll(env, Outcome(0, st)).rc == 0
    ensures ListsNothing(st, s, CopyAll(env, Outcome(0, st)).st.dest)
  {
    var st1, st2, st3, st4 := PhasesRun(env, st);
    assert Ran(env, st, st1, st2, st3, st4, Lookup(st.s2d, s));
    var phase, x := TuneTargeted(env, st, s);
    TargetedSame(st, st1, st2, st3, phase, x);
    if phase == AmendPlaylists {
      PhaseLists(env, st, st, AmendPlaylists, st1, s);
    }
    if phase == AmendPlaylists || phase == AddPlaylists {
      PhaseLists(env, st, st1, AddPlaylists, st2, s);
    }
    if phase != AmendTunes {
      PhaseLists(env, st, st2, AddTunes, st3, s);
    }
    PhaseLists(env, st, st3, AmendTunes, st4, s);
  }

  /** What a phase of the plan writes is written when its turn comes. */
  lemma TargetedSame(st: State, st1: State, st2: State, st3: State, phase: Phase, x: Id)
    requires SamePlans(st, st1) && SamePlans(st, st2) && SamePlans(st, st3) && x in Items(st, phase)
    ensures var d := Lookup(st.s2d, x);
      && Target(st.s2d, Items(st, phase), 0, d) && Target(st1.s2d, Items(st1, phase), 0, d)
      && Target(st2.s2d, Items(st2, phase), 0, d) && Target(st3.s2d, Items(st3, phase), 0, d)
  {
    QueuedIsTarget(st, phase, x);
    QueuedIsTarget(st1, phase, x);
    QueuedIsTarget(st2, phase, x);
    QueuedIsTarget(st3, phase, x);
  }

  lemma TuneFinished(env: Env, dest: Db, st: State, s: Id)
    requires Done(env, dest, st) && AllCopied(env, st) && ItemsAreLeaves(env.src) && Lookup(st.s2d, s) != 0 && Clean(dest, st, s)
    requires s in env.src && env.src[s].IsItem()
    ensures Kids(CopyAll(env, Outcome(0, st)).st.dest, Lookup(st.s2d, s)) == [] == Kids(env.src, s)
  {
    if Unwritten(st, s) {
      UnwrittenStays(env, st, s);
      RunEnds(env, st);
      KeptKids(env, dest, st, s, CopyAll(env, Outcome(0, st)).st.dest);
    } else {
      TuneListsNothing(env, st, s);
    }
  }

  /** Where the roots have one title, and no item takes its file's name for one, what is listed is listed
      by its title. */
  lemma KidTitled(env: Env, dest: Db, st: State, s: Id, c: Id)
    requires Done(env, dest, st) && AllCopied(env, st) && GrownOutside(st.dest, Matched(env.src, dest), st.s2d)
    requires RootsAgree(env.src, dest) && NoneRenamed(env)
    requires s in env.src && c in Kids(env.src, s) && Lookup(st.s2d, c) != 0
    ensures var end, d := CopyAll(env, Outcome(0, st)).st.dest, Lookup(st.s2d, c);
      c in env.src && d in end && end[d].title == env.src[c].title
  {
    NamedElements(env.src, env.src[s].children);
    assert Ready(env, st, c);
    assert Lookup(st.s2d, c) == ROOT ==> Lookup(Matched(env.src, dest), c) == ROOT;
    EndShows(env, st, c);
  }

  /** No list that is kept names a record that the run makes, be it that of a container or of a tune. */
  ghost predicate AllClean(env: Env, dest: Db) {
    forall s :: Clean(dest, Plan(env, Fresh(dest)).st, s)
  }

  /** After a finished real run everything is finished if what shares records agrees. */
  lemma RunFinishes(env: Env, dest: Db)
    requires GoodSource(env.src) && ItemsAreLeaves(env.src) && NoneRenamed(env) && Rooted(dest) && RootsAgree(env.src, dest)
    requires SharedListsAgree(env.src, Matched(env.src, dest)) && SharedAgree(env.src, Matched(env.src, dest))
    requires GivenFresh(env, dest) && AllClean(env, dest) && AddsCopied(env, dest)
    requires !env.dry && Synchronise(env, Fresh(dest)).rc == 0
    ensures var end := Synchronise(env, Fresh(dest)).st; AllFinished(env.src, end.dest, end.s2d)
  {
    SynchroniseReflects(env, dest);
    SynchroniseCopiesItems(env, dest);
    RunDone(env, dest);
    var st := Plan(env, Fresh(dest)).st;
    var end := Synchronise(env, Fresh(dest)).st;
    assert ItemsUpToDate(env.src, end.dest, end.s2d);
    forall s | Lookup(end.s2d, s) != 0 ensures Finished(env.src, end.dest, end.s2d, s) {
      ItemFinished(env, dest, st, s, end);
    }
  }

  lemma ItemFinished(env: Env, dest: Db, st: State, s: Id, end: State)
    requires Done(env, dest, st) && AllCopied(env, st) && GrownOutside(st.dest, Matched(env.src, dest), st.s2d)
    requires ItemsAreLeaves(env.src) && RootsAgree(env.src, dest) && NoneRenamed(env) && Clean(dest, st, s)
    requires end.dest == CopyAll(env, Outcome(0, st)).st.dest && SameLookups(st.s2d, end.s2d)
    requires Reflects(env.src, end.dest, end.s2d) && ItemsUpToDate(env.src, end.dest, end.s2d) && Lookup(end.s2d, s) != 0
    ensures Finished(env.src, end.dest, end.s2d, s)
  {
    assert Mirrored(env.src, end.dest, end.s2d, s);
    if env.src[s].IsItem() { TuneFinished(env, dest, st, s); }
    forall c | c in Kids(env.src, s)
      ensures c in env.src && Lookup(end.s2d, c) in end.dest && end.dest[Lookup(end.s2d, c)].title == env.src[c].title
    {
      assert Ready(env, st, s);
      var k :| 0 <= k < |Kids(env.src, s)| && Kids(env.src, s)[k] == c;
      KidTitled(env, dest, st, s, c);
    }
  }

  /** A second run from the same source, real or dry, finds nothing to do. */
  lemma SecondRunIdle(env: Env, env': Env, dest: Db)
    requires GoodSource(env.src) && ItemsAreLeaves(env.src) && NoneRenamed(env) && Rooted(dest) && RootsAgree(env.src, dest)
    requires SharedListsAgree(env.src, Matched(env.src, dest)) && SharedAgree(env.src, Matched(env.src, dest))
    requires GivenFresh(env, dest) && AllClean(env, dest) && AddsCopied(env, dest)
    requires !env.dry && Synchronise(env, Fresh(dest)).rc == 0
    requires env'.src == env.src
    ensures var end := Synchronise(env, Fresh(dest)).st.dest;
      var r := Synchronise(env', Fresh(end));
      && r.rc == 0 && r.st.dest == end && r.st.stats == NO_STATISTICS
      && r.st.events == [OnStage(BEGIN), OnStage(END)]
  {
    RunFinishes(env, dest);
    var end := Synchronise(env, Fresh(dest)).st;
    NothingToDo(env', end.dest, end.s2d);
  }
}
