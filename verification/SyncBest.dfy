/** What a run from a source with high-quality versions does: what it would from the source resolved, but
    that the records it makes are copies of those versions. */
module SyncBest {
  import opened Ordering
  import opened SyncModel
  import opened SyncMatch
  import opened SyncAdd
  import opened SyncCopy
  import opened SyncPlan
  import opened SyncLists
  import opened SyncMirror
  import opened SyncTunes
  import opened SyncHigh

  /* Planning */

  lemma StartStands(src: Db, dest: Db)
    ensures Stands(src, Start(Fresh(dest)), Start(Fresh(dest)))
  {
    assert Bests(src, {}) == {};
  }

  lemma RootNotHigh(src: Db)
    requires HighSource(src)
    ensures !IsHigh(src, ROOT)
  {
  }

  lemma AddsNotHigh(src: Db, st: State, n: State)
    requires Stands(src, st, n)
    ensures forall s :: s in Ascending(st.maybeAdd) ==> !IsHigh(src, s)
  {
    forall s | s in Ascending(st.maybeAdd) ensures !IsHigh(src, s) { AscendingHas(st.maybeAdd, s); }
  }

  /** The plans from the source and from it resolved are the same: they delete and add the same, and
      give the same ids; what is queued of one are the best versions of what is queued of the other. */
  lemma PlanStands(env: Env, dest: Db)
    requires HighSource(env.src) && Rooted(dest)
    ensures var a, b := Plan(env, Fresh(dest)), Plan(ResolvedEnv(env), Fresh(dest));
      a.rc == b.rc && Stands(env.src, a.st, b.st)
  {
    var env', start := ResolvedEnv(env), Start(Fresh(dest));
    StartStands(env.src, dest);
    RootNotHigh(env.src);
    CheckStands(env.src, start, start, ROOT, ROOT, false);
    var a, b := Check(env.src, start, ROOT, ROOT, false), Check(env'.src, start, ROOT, ROOT, false);
    if a.rc == 0 { RestStands(env, a.st, b.st); }
  }

  lemma RestStands(env: Env, a: State, b: State)
    requires HighSource(env.src) && Stands(env.src, a, b)
    ensures var del := MaybeDeleteAll(env, a, Ascending(a.maybeDelete), {});
      var del' := MaybeDeleteAll(ResolvedEnv(env), b, Ascending(b.maybeDelete), {});
      && PrunedStand(env.src, del, del')
      && (del.rc == 0 ==>
            PrunedStand(env.src, MaybeAddAll(env, del.st, Ascending(del.st.maybeAdd), {}),
                        MaybeAddAll(ResolvedEnv(env), del'.st, Ascending(del'.st.maybeAdd), {})))
  {
    MaybeDeleteAllStands(env, a, b, Ascending(a.maybeDelete), {});
    var del := MaybeDeleteAll(env, a, Ascending(a.maybeDelete), {});
    var del' := MaybeDeleteAll(ResolvedEnv(env), b, Ascending(b.maybeDelete), {});
    if del.rc == 0 {
      AddsNotHigh(env.src, del.st, del'.st);
      MaybeAddAllStands(env, del.st, del'.st, Ascending(del.st.maybeAdd), {});
    }
  }

  /* Copying */

  lemma BestLooksUp(src: Db, st: State, n: State, s: Id)
    requires Stands(src, st, n) && Lookup(n.s2d, s) != 0
    ensures !IsHigh(src, s) && Lookup(st.s2d, s) == Lookup(n.s2d, s) == Lookup(st.s2d, Best(src, s))
  {
    assert s in n.s2d;
  }

  lemma BestItem(src: Db, s: Id)
    requires HighSource(src) && s in Resolved(src)
    ensures s in src && Best(src, s) in src && Resolved(src)[s].mtype == src[Best(src, s)].mtype
    ensures Resolved(src)[s].IsComposite() == src[s].IsComposite() && (src[s].IsComposite() ==> Best(src, s) == s)
    ensures !HasHigh(src, s) ==> Resolved(src)[s] == src[s]
  {
  }

  lemma PlannedStand(env: Env, st: State, n: State)
    requires HighSource(env.src) && Stands(env.src, st, n) && PlannedQueues(ResolvedEnv(env), n)
    ensures PlannedQueues(env, st)
  {
    forall x | x in st.amendPlaylist || x in st.addTune || x in st.amendMetadata
      ensures x in env.src && Lookup(st.s2d, x) != 0 && (x in st.addTune || x in st.amendMetadata ==> env.src[x].IsItem())
    {
      var s :| (x in st.amendPlaylist ==> s in n.amendPlaylist) && (x in st.addTune ==> s in n.addTune)
        && (x in st.amendMetadata ==> s in n.amendMetadata) && x == Best(env.src, s);
      BestItem(env.src, s);
      BestLooksUp(env.src, st, n, s);
    }
    forall s | s in st.addPlaylist ensures s in env.src && Lookup(st.s2d, s) != 0 && env.src[s].IsComposite() {
      BestItem(env.src, s);
      BestLooksUp(env.src, st, n, s);
    }
  }

  /** The items of a phase are the best versions of those of the other run's. */
  lemma ItemsStand(env: Env, st: State, n: State, phase: Phase)
    requires HighSource(env.src) && Stands(env.src, st, n) && PlannedQueues(ResolvedEnv(env), n)
    ensures forall s :: s in Items(n, phase) ==> Best(env.src, s) in Items(st, phase)
    ensures forall x :: x in Items(st, phase) ==> exists s :: s in Items(n, phase) && x == Best(env.src, s)
  {
    forall s | s in Items(n, phase) ensures Best(env.src, s) in Items(st, phase) {
      ItemStands(env, st, n, phase, s);
    }
    forall x | x in Items(st, phase) ensures exists s :: s in Items(n, phase) && x == Best(env.src, s) {
      var s := ItemOf(env, st, n, phase, x);
    }
  }

  lemma ItemStands(env: Env, st: State, n: State, phase: Phase, s: Id)
    requires HighSource(env.src) && Stands(env.src, st, n) && PlannedQueues(ResolvedEnv(env), n) && s in Items(n, phase)
    ensures Best(env.src, s) in Items(st, phase)
  {
    match phase
    case AmendPlaylists =>
      AscendingHas(n.amendPlaylist, s);
      AscendingHas(st.amendPlaylist, Best(env.src, s));
    case AddPlaylists => BestItem(env.src, s);
    case AddTunes =>
      AscendingHas(n.addTune, s);
      AscendingHas(st.addTune, Best(env.src, s));
    case AmendTunes =>
      AscendingHas(n.amendMetadata, s);
      AscendingHas(st.amendMetadata, Best(env.src, s));
  }

  lemma ItemOf(env: Env, st: State, n: State, phase: Phase, x: Id) returns (s: Id)
    requires HighSource(env.src) && Stands(env.src, st, n) && PlannedQueues(ResolvedEnv(env), n) && x in Items(st, phase)
    ensures s in Items(n, phase) && x == Best(env.src, s)
  {
    match phase
    case AmendPlaylists =>
      AscendingHas(st.amendPlaylist, x);
      s :| s in n.amendPlaylist && x == Best(env.src, s);
      AscendingHas(n.amendPlaylist, s);
    case AddPlaylists =>
      BestItem(env.src, x);
      s := x;
    case AddTunes =>
      AscendingHas(st.addTune, x);
      s :| s in n.addTune && x == Best(env.src, s);
      AscendingHas(n.addTune, s);
    case AmendTunes =>
      AscendingHas(st.amendMetadata, x);
      s :| s in n.amendMetadata && x == Best(env.src, s);
      AscendingHas(n.amendMetadata, s);
  }

  lemma DoneStands(env: Env, st: State, n: State)
    requires HighSource(env.src) && Stands(env.src, st, n) && PlannedQueues(ResolvedEnv(env), n)
    ensures (forall phase {:trigger PhaseDone(env, st, phase)} :: PhaseDone(env, st, phase))
      <==> forall phase {:trigger PhaseDone(ResolvedEnv(env), n, phase)} :: PhaseDone(ResolvedEnv(env), n, phase)
  {
    var env' := ResolvedEnv(env);
    forall phase ensures PhaseDone(env, st, phase) <==> PhaseDone(env', n, phase) {
      ItemsStand(env, st, n, phase);
      assert forall s :: ItemRc(env', phase, s) == ItemRc(env, phase, Best(env.src, s));
    }
  }

  lemma FreshStands(env: Env, dest: Db)
    requires HighSource(env.src) && Rooted(dest) && GivenFresh(env, dest)
    ensures GivenFresh(ResolvedEnv(env), dest)
  {
    PlanStands(env, dest);
    var st := Plan(env, Fresh(dest)).st;
    SameFresh(env, ResolvedEnv(env), st.dest, st.idsTaken);
  }

  lemma SameFresh(env: Env, env': Env, left: Db, n: nat)
    requires FreshIds(env, left, n) && env'.alloc == env.alloc
    ensures FreshIds(env', left, n)
  {
  }

  /** What both runs have planned once they are past planning. */
  lemma BothPlanned(env: Env, dest: Db)
    requires HighSource(env.src) && Rooted(dest) && GivenFresh(env, dest) && Plan(env, Fresh(dest)).rc == 0
    ensures var a, b, env' := Plan(env, Fresh(dest)), Plan(ResolvedEnv(env), Fresh(dest)), ResolvedEnv(env);
      && b.rc == 0 && Stands(env.src, a.st, b.st) && GoodSource(env'.src) && GivenFresh(env', dest)
      && Planned(env', b.st) && PlannedQueues(env, a.st)
  {
    PlanStands(env, dest);
    FreshStands(env, dest);
    ResolvedIsGood(env.src);
    PlanGood(ResolvedEnv(env), dest);
    PlannedStand(env, Plan(env, Fresh(dest)).st, Plan(ResolvedEnv(env), Fresh(dest)).st);
  }

  /** A run from the source fails exactly if one from it resolved does, in which a high-quality version is
      copied as well as it is in the other. */
  lemma FailsAsResolved(env: Env, dest: Db)
    requires HighSource(env.src) && Rooted(dest) && GivenFresh(env, dest)
    ensures Synchronise(env, Fresh(dest)).rc == 0 <==> Synchronise(ResolvedEnv(env), Fresh(dest)).rc == 0
  {
    PlanStands(env, dest);
    var a, b := Plan(env, Fresh(dest)), Plan(ResolvedEnv(env), Fresh(dest));
    if a.rc == 0 {
      BothPlanned(env, dest);
      CopyAllFails(env, a.st);
      CopyAllFails(ResolvedEnv(env), b.st);
      DoneStands(env, a.st, b.st);
    }
  }

  /* What is copied */

  /** No other item that is listed has the record of `s`. */
  ghost predicate SoleOwner(src: Db, m: map<Id, Id>, s: Id) {
    forall t :: Lookup(m, t) == Lookup(m, s) && !IsHigh(src, t) ==> t == s
  }

  lemma SoleStands(src: Db, st: State, n: State, s: Id, t: Id)
    requires Stands(src, st, n) && SoleOwner(src, st.s2d, s) && Lookup(n.s2d, s) == Lookup(n.s2d, t) != 0
    ensures t == s
  {
    BestLooksUp(src, st, n, s);
    BestLooksUp(src, st, n, t);
  }

  /** If any item that is copied as a tune goes to the record of `s`, it is the best version of it. */
  lemma SoleCopied(env: Env, st: State, n: State, s: Id, w: Id)
    requires HighSource(env.src) && Stands(env.src, st, n) && PlannedQueues(ResolvedEnv(env), n)
    requires Lookup(n.s2d, s) != 0 && SoleOwner(env.src, st.s2d, s)
    requires QueuedAsTune(st, w) && Lookup(st.s2d, w) == Lookup(st.s2d, s)
    ensures w == Best(env.src, s) && (s in n.addTune || s in n.amendMetadata)
  {
    var t :| (t in n.addTune || t in n.amendMetadata) && w == Best(env.src, t);
    BestLooksUp(env.src, st, n, t);
    BestLooksUp(env.src, st, n, s);
    SoleStands(env.src, st, n, s, t);
  }

  /** The record of an item that has it alone is of the size of its best version, and a copy of that
      version in every field, or else has the item's tags as it had them before.  There is none if the
      item is new and its best version of a kind that is not copied. */
  ghost predicate BestThere(env: Env, was: Db, now: Db, s: Id, d: Id) {
    var x := Best(env.src, s);
    && s in env.src && x in env.src
    && if d in now then
         && now[d].size == env.src[x].size
         && (IsCopyOf(env, env.src[x], now[d]) || (d in was && now[d].tags == was[d].tags == env.src[s].tags))
       else !env.src[x].IsCopied()
  }

  lemma QueuedBest(env: Env, st: State, n: State, s: Id)
    requires HighSource(env.src) && Stands(env.src, st, n) && PlannedQueues(ResolvedEnv(env), n) && PlannedQueues(env, st)
    requires !env.dry && CopyAll(env, Outcome(0, st)).rc == 0
    requires Lookup(n.s2d, s) != 0 && SoleOwner(env.src, st.s2d, s) && QueuedAsTune(n, s)
    ensures var now, d := CopyAll(env, Outcome(0, st)).st.dest, Lookup(st.s2d, s);
      && s in env.src && Best(env.src, s) in env.src
      && d in now && IsCopyOf(env, env.src[Best(env.src, s)], now[d]) && now[d].size == env.src[Best(env.src, s)].size
  {
    var x := Best(env.src, s);
    BestItem(env.src, s);
    BestLooksUp(env.src, st, n, s);
    assert QueuedAsTune(st, x);
    QueuedWhole(env, st, x);
    var now, d := CopyAll(env, Outcome(0, st)).st.dest, Lookup(st.s2d, s);
    var w :| QueuedAsTune(st, w) && w in env.src && Lookup(st.s2d, w) == d && IsCopyOf(env, env.src[w], now[d]);
    SoleCopied(env, st, n, s, w);
  }

  /** A record that no tune goes to keeps its size and tags. */
  lemma UncopiedKeeps(env: Env, st: State, d: Id)
    requires PlannedQueues(env, st) && !env.dry && CopyAll(env, Outcome(0, st)).rc == 0 && d in st.dest
    requires forall w :: QueuedAsTune(st, w) ==> Lookup(st.s2d, w) != d
    ensures var now := CopyAll(env, Outcome(0, st)).st.dest;
      d in now && now[d].size == st.dest[d].size && now[d].tags == st.dest[d].tags
  {
    var st1, st2, st3, st4 := PhasesRun(env, st);
    assert Ran(env, st, st1, st2, st3, st4, d);
    AscendingElements(st.addTune);
    AscendingElements(st.amendMetadata);
    assert forall w :: w in Items(st2, AddTunes) || w in Items(st3, AmendTunes) ==> QueuedAsTune(st, w);
  }

  lemma UnqueuedBest(env: Env, dest: Db, st: State, n: State, s: Id)
    requires HighSource(env.src) && Stands(env.src, st, n) && Planned(ResolvedEnv(env), n) && PlannedQueues(env, st)
    requires !env.dry && CopyAll(env, Outcome(0, st)).rc == 0 && AllCompared(Resolved(env.src), n.dest, n)
    requires s in env.src && env.src[s].IsItem() && Lookup(n.s2d, s) != 0 && SoleOwner(env.src, st.s2d, s) && !QueuedAsTune(n, s)
    requires forall d :: d in n.dest ==> d in dest && n.dest[d] == dest[d]
    requires Lookup(n.s2d, s) in n.dest
    ensures BestThere(env, dest, CopyAll(env, Outcome(0, st)).st.dest, s, Lookup(n.s2d, s))
  {
    var d := Lookup(n.s2d, s);
    ResolvedAt(env.src, s);
    BestLooksUp(env.src, st, n, s);
    assert Compared(Resolved(env.src), n.dest, n.s2d, n.addTune, n.amendMetadata, s);
    forall w | QueuedAsTune(st, w) ensures Lookup(st.s2d, w) != d {
      if Lookup(st.s2d, w) == d { SoleCopied(env, st, n, s, w); }
    }
    UncopiedKeeps(env, st, d);
  }

  /** A new item that is not copied gets no record. */
  lemma UncopiedBest(env: Env, dest: Db, st: State, n: State, s: Id)
    requires HighSource(env.src) && Stands(env.src, st, n) && Planned(ResolvedEnv(env), n) && PlannedQueues(env, st)
    requires !env.dry && CopyAll(env, Outcome(0, st)).rc == 0
    requires s in env.src && env.src[s].IsItem() && Lookup(n.s2d, s) != 0 && SoleOwner(env.src, st.s2d, s) && !QueuedAsTune(n, s)
    requires Lookup(n.s2d, s) !in n.dest
    ensures BestThere(env, dest, CopyAll(env, Outcome(0, st)).st.dest, s, Lookup(n.s2d, s))
  {
    var d := Lookup(n.s2d, s);
    BestItem(env.src, s);
    BestLooksUp(env.src, st, n, s);
    assert Ready(ResolvedEnv(env), n, s);
    forall w | w in st.amendPlaylist || w in st.addPlaylist || QueuedAsTune(st, w) ensures Lookup(st.s2d, w) != d {
      if Lookup(st.s2d, w) == d { NoneGoes(env, st, n, s, w); }
    }
    UntargetedStays(env, st, d);
  }

  lemma NoneGoes(env: Env, st: State, n: State, s: Id, w: Id)
    requires HighSource(env.src) && Stands(env.src, st, n) && PlannedQueues(ResolvedEnv(env), n)
    requires Lookup(n.s2d, s) != 0 && SoleOwner(env.src, st.s2d, s) && Lookup(st.s2d, w) == Lookup(st.s2d, s)
    requires s !in n.amendPlaylist && s !in n.addPlaylist && !QueuedAsTune(n, s)
    ensures w !in st.amendPlaylist && w !in st.addPlaylist && !QueuedAsTune(st, w)
  {
    BestLooksUp(env.src, st, n, s);
    if QueuedAsTune(st, w) { SoleCopied(env, st, n, s, w); }
    if w in st.amendPlaylist {
      var t :| t in n.amendPlaylist && w == Best(env.src, t);
      BestLooksUp(env.src, st, n, t);
      SoleStands(env.src, st, n, s, t);
    }
    if w in st.addPlaylist {
      BestLooksUp(env.src, st, n, w);
      SoleStands(env.src, st, n, s, w);
    }
  }

  /** After a finished real run the record of every item that has one alone is that of its best version,
      or is as good: of that version's size, and of the item's tags. */
  lemma BestVersionsThere(env: Env, dest: Db, s: Id)
    requires HighSource(env.src) && Rooted(dest) && GivenFresh(env, dest) && !env.dry
    requires Synchronise(env, Fresh(dest)).rc == 0
    requires var m := Synchronise(env, Fresh(dest)).st.s2d;
      s in env.src && env.src[s].IsItem() && !IsHigh(env.src, s) && Lookup(m, s) != 0 && SoleOwner(env.src, m, s)
    ensures var end := Synchronise(env, Fresh(dest)).st; BestThere(env, dest, end.dest, s, Lookup(end.s2d, s))
  {
    BothPlanned(env, dest);
    PlanCompares(ResolvedEnv(env), dest);
    PlanGood(ResolvedEnv(env), dest);
    var st, n := Plan(env, Fresh(dest)).st, Plan(ResolvedEnv(env), Fresh(dest)).st;
    CopyAllFails(env, st);
    SoleSame(env.src, CopyAll(env, Outcome(0, st)).st.s2d, st.s2d, s);
    ResolvedAt(env.src, s);
    BestOf(env, dest, st, n, s);
  }

  lemma SoleSame(src: Db, m: map<Id, Id>, m': map<Id, Id>, s: Id)
    requires SameLookups(m', m) && SoleOwner(src, m, s)
    ensures SoleOwner(src, m', s)
  {
  }

  lemma BestOf(env: Env, dest: Db, st: State, n: State, s: Id)
    requires HighSource(env.src) && Stands(env.src, st, n) && Planned(ResolvedEnv(env), n) && PlannedQueues(env, st)
    requires !env.dry && CopyAll(env, Outcome(0, st)).rc == 0 && AllCompared(Resolved(env.src), n.dest, n)
    requires s in env.src && env.src[s].IsItem() && !IsHigh(env.src, s) && Lookup(st.s2d, s) != 0 && SoleOwner(env.src, st.s2d, s)
    requires forall d :: d in n.dest ==> d in dest && n.dest[d] == dest[d]
    ensures BestThere(env, dest, CopyAll(env, Outcome(0, st)).st.dest, s, Lookup(st.s2d, s))
  {
    assert Lookup(n.s2d, s) == Lookup(st.s2d, s);
    if QueuedAsTune(n, s) {
      QueuedBest(env, st, n, s);
    } else if Lookup(n.s2d, s) in n.dest {
      UnqueuedBest(env, dest, st, n, s);
    } else {
      UncopiedBest(env, dest, st, n, s);
    }
  }
}
