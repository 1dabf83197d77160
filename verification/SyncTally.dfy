/** The statistics of a run are a tally of what its observers were told. */
module SyncTally {
  import opened Ordering
  import opened SyncModel
  import opened SyncDelete

  /** Deletions of files and of containers, as they were in the destination at first, and amended playlists. */
  datatype Tally = Tally(files: nat, playlists: nat, amended: nat)

  function Add(dest: Db, t: Tally, e: Event): Tally {
    match e
    case OnDelete(d) =>
      if d !in dest then t
      else if dest[d].IsComposite() then t.(playlists := t.playlists + 1)
      else t.(files := t.files + 1)
    case OnCopy(AmendPlaylists, _, _, _) => t.(amended := t.amended + 1)
    case _ => t
  }

  function TallyOf(dest: Db, events: seq<Event>): Tally {
    if events == [] then Tally(0, 0, 0) else Add(dest, TallyOf(dest, events[..|events| - 1]), events[|events| - 1])
  }

  function Counted(s: Statistics): Tally {
    Tally(s.filesDeleted, s.playlistsDeleted, s.playlistsModified)
  }

  predicate Tallied(dest: Db, st: State) {
    Counted(st.stats) == TallyOf(dest, st.events)
  }

  lemma TallyNext(dest: Db, events: seq<Event>, e: Event)
    ensures TallyOf(dest, events + [e]) == Add(dest, TallyOf(dest, events), e)
  {
    assert (events + [e])[..|events|] == events;
  }

  /** What is left of the destination is as it was. */
  ghost predicate Left(dest: Db, now: Db) {
    forall d :: d in now ==> d in dest && now[d] == dest[d]
  }

  lemma StageTallies(dest: Db, events: seq<Event>, e: Event)
    requires e.OnStage?
    ensures TallyOf(dest, events + [e]) == TallyOf(dest, events)
  {
    TallyNext(dest, events, e);
  }

  lemma DeleteRecordTallies(env: Env, dest: Db, st: State, d: Id)
    requires d in st.dest && Left(dest, st.dest) && Tallied(dest, st)
    ensures Tallied(dest, DeleteRecord(env, st, d))
  {
    var before := st.events + (if st.anyDeleted then [] else [OnStage(DELETING)]);
    if st.anyDeleted {
      assert before == st.events;
    } else {
      StageTallies(dest, st.events, OnStage(DELETING));
    }
    TallyNext(dest, before, OnDelete(d));
  }

  lemma {:induction false} MaybeDeleteTallies(env: Env, dest: Db, st: State, d: Id, already: set<Id>)
    requires Left(dest, st.dest) && Tallied(dest, st)
    ensures var r := MaybeDelete(env, st, d, already); Left(dest, r.st.dest) && Tallied(dest, r.st)
    decreases st.dest.Keys - already, 0
  {
    if d !in already && d !in st.d2s && d in st.dest {
      MaybeDeleteAllTallies(env, dest, st, st.dest[d].children, already + {d});
      DeleteRecordTallies(env, dest, MaybeDeleteAll(env, st, st.dest[d].children, already + {d}).st, d);
    }
  }

  lemma {:induction false} MaybeDeleteAllTallies(env: Env, dest: Db, st: State, ds: seq<Id>, already: set<Id>)
    requires Left(dest, st.dest) && Tallied(dest, st)
    ensures var r := MaybeDeleteAll(env, st, ds, already); Left(dest, r.st.dest) && Tallied(dest, r.st)
    decreases st.dest.Keys - already, 1 + |ds|
  {
    if ds != [] {
      MaybeDeleteTallies(env, dest, st, ds[0], already);
      var r := MaybeDelete(env, st, ds[0], already);
      MaybeDeleteAllTallies(env, dest, r.st, ds[1..], r.already);
    }
  }

  lemma CopyItemTallies(env: Env, dest: Db, st: State, phase: Phase, s: Id, num: nat, denom: nat)
    requires Tallied(dest, st)
    ensures Tallied(dest, CopyItem(env, st, phase, s, num, denom).st)
  {
    TallyNext(dest, st.events, OnCopy(phase, s, num, denom));
  }

  lemma {:induction false} CopyItemsTallies(env: Env, dest: Db, st: State, phase: Phase, items: seq<Id>, k: nat)
    requires k <= |items| && Tallied(dest, st)
    ensures Tallied(dest, CopyItems(env, st, phase, items, k).st)
    decreases |items| - k
  {
    if k < |items| {
      CopyItemTallies(env, dest, st, phase, items[k], k, |items|);
      CopyItemsTallies(env, dest, CopyItem(env, st, phase, items[k], k, |items|).st, phase, items, k + 1);
    }
  }

  lemma CopyPhaseTallies(env: Env, dest: Db, r: Outcome, phase: Phase)
    requires Tallied(dest, r.st)
    ensures Tallied(dest, CopyPhase(env, r, phase).st)
  {
    if r.rc == 0 { CopyItemsTallies(env, dest, r.st, phase, Items(r.st, phase), 0); }
  }

  lemma CopyAllTallies(env: Env, dest: Db, r: Outcome)
    requires Tallied(dest, r.st)
    ensures Tallied(dest, CopyAll(env, r).st)
  {
    CopyPhaseTallies(env, dest, r, AmendPlaylists);
    var r1 := CopyPhase(env, r, AmendPlaylists);
    CopyPhaseTallies(env, dest, r1, AddPlaylists);
    var r2 := CopyPhase(env, r1, AddPlaylists);
    CopyPhaseTallies(env, dest, r2, AddTunes);
    CopyPhaseTallies(env, dest, CopyPhase(env, r2, AddTunes), AmendTunes);
  }

  lemma PlanTallies(env: Env, dest: Db)
    ensures Tallied(dest, Plan(env, Fresh(dest)).st)
  {
    var st := Start(Fresh(dest));
    TallyNext(dest, [], OnStage(BEGIN));
    assert st.events == [] + [OnStage(BEGIN)];
    CheckSilent(env.src, st, ROOT, ROOT, false);
    var c := Check(env.src, st, ROOT, ROOT, false);
    if c.rc == 0 {
      MaybeDeleteAllTallies(env, dest, c.st, Ascending(c.st.maybeDelete), {});
      var del := MaybeDeleteAll(env, c.st, Ascending(c.st.maybeDelete), {}).st;
      MaybeAddAllDeletesNothing(env, del, Ascending(del.maybeAdd), {});
    }
  }

  /** Over a whole run, real or dry, on any two databases and finished or not: as many files and
      containers are counted deleted, and playlists modified, as the observers were told of. */
  lemma StatisticsTally(env: Env, dest: Db)
    ensures var st := Synchronise(env, Fresh(dest)).st;
      Tally(st.stats.filesDeleted, st.stats.playlistsDeleted, st.stats.playlistsModified) == TallyOf(dest, st.events)
  {
    PlanTallies(env, dest);
    CopyAllTallies(env, dest, Plan(env, Fresh(dest)));
    TallyNext(dest, CopyAll(env, Plan(env, Fresh(dest))).st.events, OnStage(END));
  }
}
