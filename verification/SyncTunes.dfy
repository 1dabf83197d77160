/** After a successful run the tunes themselves are up to date, and whatever else is no container. */
module SyncTunes {
  import opened Ordering
  import opened SyncModel
  import opened SyncMatch
  import opened SyncAdd
  import opened SyncCopy
  import opened SyncPlan
  import opened SyncLists

  /** The destination's record has the item's size and tags. */
  predicate UpToDate(src: Db, dest: Db, s: Id, d: Id) {
    s in src && d in dest && dest[d].size == src[s].size && dest[d].tags == src[s].tags
  }

  /** A mapped item is to be copied, or the destination's record of it has its size and tags; unless it
      is new and of a kind that is not copied. */
  predicate Compared(src: Db, dest: Db, s2d: map<Id, Id>, add: set<Id>, amend: set<Id>, s: Id) {
    s in src && src[s].IsItem() && Lookup(s2d, s) != 0 ==>
      s in add || s in amend || UpToDate(src, dest, s, s2d[s]) || (s2d[s] !in dest && !src[s].IsCopied())
  }

  ghost predicate EachCompared(src: Db, dest: Db, s2d: map<Id, Id>, add: set<Id>, amend: set<Id>) {
    forall s {:trigger Compared(src, dest, s2d, add, amend, s)} :: Compared(src, dest, s2d, add, amend, s)
  }

  ghost predicate AllCompared(src: Db, dest: Db, st: State) {
    EachCompared(src, dest, st.s2d, st.addTune, st.amendMetadata)
  }

  lemma PairCompares(src: Db, st: State, s: Id, d: Id)
    requires GoodSource(src) && s in src && d in st.dest && AllCompared(src, st.dest, st)
    requires src[s].IsComposite() == st.dest[d].IsComposite()
    ensures AllCompared(src, st.dest, Pair(src, st, s, d).0)
  {
    var (n, s') := Pair(src, st, s, d);
    assert Untwinned(src, s) && s' == s;
    forall x ensures Compared(src, st.dest, n.s2d, n.addTune, n.amendMetadata, x) {
      assert Compared(src, st.dest, st.s2d, st.addTune, st.amendMetadata, x);
    }
  }

  lemma {:induction false} CheckCompares(src: Db, st: State, s: Id, d: Id, amend: bool)
    requires GoodSource(src) && SeenAreMapped(st) && AllCompared(src, st.dest, st)
    requires s in src && d in st.dest ==> src[s].IsComposite() == st.dest[d].IsComposite()
    ensures AllCompared(src, st.dest, Check(src, st, s, d, amend).st)
    decreases src.Keys - st.seen, 0
  {
    var st1 := st.(seen := st.seen + {s});
    if s in st.seen && s in st.s2d {
    } else if s in src && d in st.dest {
      PairCompares(src, st1, s, d);
      WalkCompares(src, Pair(src, st1, s, d).0, Match(src, st.dest, s, d), 0, 0, false);
    }
  }

  lemma {:induction false} WalkCompares(src: Db, st: State, m: Matching, i: nat, j: nat, amend: bool)
    requires GoodSource(src) && SeenAreMapped(st) && AllCompared(src, st.dest, st)
    requires Aligned(src, st.dest, m, i, j)
    ensures AllCompared(src, st.dest, Walk(src, st, m, i, j, amend).st)
    decreases src.Keys - st.seen, 1 + |m.srcIds| - i + |m.destIds| - j, 1
  {
    AlignedStep(src, st.dest, m, i, j);
    if i == |m.srcIds| && j == |m.destIds| {
    } else if i < |m.srcIds| && i + 1 in m.script.additions {
      WalkCompares(src, st.(maybeAdd := st.maybeAdd + {m.srcIds[i]}), m, i + 1, j, true);
    } else if j < |m.destIds| && j + 1 in m.script.deletions {
      WalkCompares(src, st.(maybeDelete := st.maybeDelete + {m.destIds[j]}), m, i, j + 1, true);
    } else {
      WalkComparesPair(src, st, m, i, j, amend);
    }
  }

  /** A walk whose next step compares a pair. */
  lemma {:induction false} WalkComparesPair(src: Db, st: State, m: Matching, i: nat, j: nat, amend: bool)
    requires GoodSource(src) && SeenAreMapped(st) && AllCompared(src, st.dest, st)
    requires Aligned(src, st.dest, m, i, j) && i < |m.srcIds| && j < |m.destIds|
    requires i + 1 !in m.script.additions && j + 1 !in m.script.deletions
    ensures AllCompared(src, st.dest, Walk(src, st, m, i, j, amend).st)
    decreases src.Keys - st.seen, 1 + |m.srcIds| - i + |m.destIds| - j, 0
  {
    AlignedStep(src, st.dest, m, i, j);
    WalkCompared(src, st, m, i, j, amend);
    CheckCompares(src, st, m.srcIds[i], m.destIds[j], amend);
    var r := Check(src, st, m.srcIds[i], m.destIds[j], amend);
    if r.rc == 0 { WalkCompares(src, r.st, m, i + 1, j + 1, r.amend); }
  }

  /** Items that share a record agree on what is compared. */
  ghost predicate SharedAgree(src: Db, s2d: map<Id, Id>) {
    forall s, s' ::
      s in src && src[s].IsItem() && s' in src && src[s'].IsItem() && Lookup(s2d, s) == Lookup(s2d, s') != 0
      ==> src[s].size == src[s'].size && src[s].tags == src[s'].tags
  }

  /** What a plan knows of its tunes. */
  ghost predicate TunesPlanned(src: Db, dest: Db, st: State) {
    AllCompared(src, st.dest, st) && (SharedAgree(src, st.s2d) <==> SharedAgree(src, Matched(src, dest)))
  }

  lemma PlanCompares(env: Env, dest: Db)
    requires GoodSource(env.src) && Rooted(dest) && GivenFresh(env, dest) && Plan(env, Fresh(dest)).rc == 0
    ensures TunesPlanned(env.src, dest, Plan(env, Fresh(dest)).st)
  {
    var m, del, r := PlanParts(env, dest);
    CheckCompares(env.src, Start(Fresh(dest)), ROOT, ROOT, false);
    PartsGrow(env, dest, m, del, r);
    GrownAgree(env.src, del.dest, m.s2d, r.st.s2d);
    PartsCompared(env, dest, m, del, r);
  }

  lemma GrownAgree(src: Db, dest: Db, was: map<Id, Id>, now: map<Id, Id>)
    requires GrownOutside(dest, was, now)
    ensures SharedAgree(src, was) <==> SharedAgree(src, now)
  {
    GrownApart(dest, was, now);
    assert SharedAgree(src, now) ==> SharedAgree(src, was);
  }

  lemma PartsCompared(env: Env, dest: Db, m: State, del: State, r: Pruned)
    requires AllCompared(env.src, dest, m) && Parts(env, dest, m, del, r) && FreshIds(env, del.dest, r.st.idsTaken)
    ensures AllCompared(env.src, r.st.dest, r.st)
  {
    forall s ensures Compared(env.src, r.st.dest, r.st.s2d, r.st.addTune, r.st.amendMetadata, s) {
      if s in m.s2d {
        OldCompared(env, dest, m, del, r, s);
      } else if s in r.st.s2d {
        NewCompared(env, dest, m, del, r, s);
      }
    }
  }

  lemma NewCompared(env: Env, dest: Db, m: State, del: State, r: Pruned, s: Id)
    requires Parts(env, dest, m, del, r) && FreshIds(env, del.dest, r.st.idsTaken) && s in r.st.s2d && s !in m.s2d
    ensures Compared(env.src, r.st.dest, r.st.s2d, r.st.addTune, r.st.amendMetadata, s)
  {
    assert Added(env, del, r, s);
  }

  lemma OldCompared(env: Env, dest: Db, m: State, del: State, r: Pruned, s: Id)
    requires AllCompared(env.src, dest, m) && Parts(env, dest, m, del, r) && s in m.s2d
    ensures Compared(env.src, r.st.dest, r.st.s2d, r.st.addTune, r.st.amendMetadata, s)
  {
    MatchedLeft(env, dest, m, del);
    assert Compared(env.src, dest, m.s2d, m.addTune, m.amendMetadata, s);
    assert Alike(env.src, del.dest, s, m.s2d[s]);
  }

  /** The two phases that write lists leave sizes and tags alone; a phase that writes tunes to `d`
      leaves it with those of one of them, which are those of `s`. */
  lemma TunePhase(env: Env, st: State, phase: Phase, s: Id, st': State)
    requires phase == AddTunes || phase == AmendTunes
    requires SharedAgree(env.src, st.s2d) && s in env.src && env.src[s].IsItem() && Lookup(st.s2d, s) != 0
    requires forall x :: x in Items(st, phase) ==> x in env.src && env.src[x].IsItem()
    requires Phased(env, st, phase, st', Lookup(st.s2d, s))
    ensures s in Items(st, phase) ==> UpToDate(env.src, st'.dest, s, Lookup(st.s2d, s))
    ensures UpToDate(env.src, st.dest, s, Lookup(st.s2d, s)) ==> UpToDate(env.src, st'.dest, s, Lookup(st.s2d, s))
  {
    var items, d := Items(st, phase), Lookup(st.s2d, s);
    if s in items {
      var i :| 0 <= i < |items| && items[i] == s;
      assert Target(st.s2d, items, 0, d);
    }
    if Target(st.s2d, items, 0, d) {
      var i :| 0 <= i < |items| && Lookup(st.s2d, items[i]) == d && CopiedAt(env, st.s2d, phase, items[i], st'.dest);
      assert items[i] in items;
    }
  }

  lemma SharedAgreeSame(src: Db, m: map<Id, Id>, m': map<Id, Id>)
    requires SameLookups(m, m') && SharedAgree(src, m)
    ensures SharedAgree(src, m')
  {
  }

  /** One mapped item through the four phases. */
  lemma TuneCopied(env: Env, st: State, s: Id)
    requires Planned(env, st) && !env.dry && CopyAll(env, Outcome(0, st)).rc == 0
    requires AllCompared(env.src, st.dest, st) && SharedAgree(env.src, st.s2d)
    requires s in env.src && env.src[s].IsItem() && Lookup(st.s2d, s) != 0
    requires Lookup(st.s2d, s) in st.dest || env.src[s].IsCopied()
    ensures UpToDate(env.src, CopyAll(env, Outcome(0, st)).st.dest, s, Lookup(st.s2d, s))
  {
    var d := Lookup(st.s2d, s);
    var st1, st2, st3, st4 := PhasesRun(env, st);
    assert Ran(env, st, st1, st2, st3, st4, d);
    forall x ensures x in Items(st, AddTunes) || x in Items(st, AmendTunes) ==> x in env.src && env.src[x].IsItem() {
      ListsOf(env, st, x);
    }
    ListsOf(env, st, s);
    TuneStarts(env, st, s);
    TunePhases(env, st, st2, st3, st4, s);
  }

  lemma TunePhases(env: Env, st: State, st2: State, st3: State, st4: State, s: Id)
    requires SharedAgree(env.src, st.s2d) && s in env.src && env.src[s].IsItem() && Lookup(st.s2d, s) != 0
    requires SamePlans(st, st2) && SamePlans(st, st3)
    requires forall x :: x in Items(st, AddTunes) || x in Items(st, AmendTunes) ==> x in env.src && env.src[x].IsItem()
    requires Phased(env, st2, AddTunes, st3, Lookup(st.s2d, s)) && Phased(env, st3, AmendTunes, st4, Lookup(st.s2d, s))
    requires s in Items(st, AddTunes) || s in Items(st, AmendTunes) || UpToDate(env.src, st2.dest, s, Lookup(st.s2d, s))
    ensures UpToDate(env.src, st4.dest, s, Lookup(st.s2d, s))
  {
    SharedAgreeSame(env.src, st.s2d, st2.s2d);
    SharedAgreeSame(env.src, st.s2d, st3.s2d);
    TunePhase(env, st2, AddTunes, s, st3);
    TunePhase(env, st3, AmendTunes, s, st4);
  }

  lemma TuneStarts(env: Env, st: State, s: Id)
    requires Planned(env, st) && AllCompared(env.src, st.dest, st)
    requires s in env.src && env.src[s].IsItem() && Lookup(st.s2d, s) != 0
    requires Lookup(st.s2d, s) in st.dest || env.src[s].IsCopied()
    ensures s in st.addTune || s in st.amendMetadata || UpToDate(env.src, st.dest, s, Lookup(st.s2d, s))
  {
    assert Compared(env.src, st.dest, st.s2d, st.addTune, st.amendMetadata, s);
    assert Ready(env, st, s);
  }

  ghost predicate ItemsUpToDate(src: Db, dest: Db, s2d: map<Id, Id>) {
    forall s :: s in src && src[s].IsItem() && Lookup(s2d, s) != 0 ==> UpToDate(src, dest, s, Lookup(s2d, s))
  }

  /** A finished real run leaves every mapped item that is no container with the source's size and tags
      exactly when items that matching took one record for have the same, and it makes a record for
      each that it adds. */
  lemma SynchroniseCopiesItems(env: Env, dest: Db)
    requires GoodSource(env.src) && Rooted(dest) && GivenFresh(env, dest) && !env.dry
    requires Synchronise(env, Fresh(dest)).rc == 0
    ensures var end := Synchronise(env, Fresh(dest)).st;
      ItemsUpToDate(env.src, end.dest, end.s2d) <==> SharedAgree(env.src, Matched(env.src, dest)) && AddsCopied(env, dest)
  {
    PlanGood(env, dest);
    PlanCompares(env, dest);
    var st := Plan(env, Fresh(dest)).st;
    var end := CopyAll(env, Outcome(0, st)).st;
    CopyAllFails(env, st);
    if SharedAgree(env.src, st.s2d) && AddsCopied(env, dest) {
      forall s | s in env.src && env.src[s].IsItem() && Lookup(end.s2d, s) != 0
        ensures UpToDate(env.src, end.dest, s, Lookup(end.s2d, s))
      {
        TuneCopied(env, st, s);
      }
    }
    if ItemsUpToDate(env.src, end.dest, end.s2d) {
      SharedSame(env.src, end.dest, st.s2d, end.s2d);
      forall s | Lookup(st.s2d, s) != 0 && s !in Matched(env.src, dest) ensures s in env.src && env.src[s].IsCopied() {
        assert Ready(env, st, s) && Lookup(end.s2d, s) != 0;
        if !env.src[s].IsCopied() { UncopiedAbsent(env, st, s); }
      }
    }
  }

  lemma SharedSame(src: Db, end: Db, m: map<Id, Id>, m': map<Id, Id>)
    requires SameLookups(m, m') && ItemsUpToDate(src, end, m')
    ensures SharedAgree(src, m)
  {
  }

  /* Whole records */

  ghost predicate QueuedAsTune(st: State, w: Id) {
    w in st.addTune || w in st.amendMetadata
  }

  /** The record of `s` is, field by field, some queued item that has it. */
  ghost predicate Whole(env: Env, st: State, s: Id, now: Db) {
    var d := Lookup(st.s2d, s);
    d in now && exists w :: QueuedAsTune(st, w) && w in env.src && Lookup(st.s2d, w) == d && IsCopyOf(env, env.src[w], now[d])
  }

  lemma PhaseWhole(env: Env, st: State, st1: State, phase: Phase, st2: State, s: Id)
    requires (phase == AddTunes || phase == AmendTunes) && SamePlans(st, st1)
    requires Phased(env, st1, phase, st2, Lookup(st.s2d, s))
    requires Whole(env, st, s, st1.dest) || s in Items(st1, phase)
    ensures Whole(env, st, s, st2.dest)
  {
    var items, d := Items(st1, phase), Lookup(st.s2d, s);
    if s in items { QueuedIsTarget(st1, phase, s); }
    if Target(st1.s2d, items, 0, d) {
      var i :| 0 <= i < |items| && Lookup(st1.s2d, items[i]) == d && CopiedAt(env, st1.s2d, phase, items[i], st2.dest);
      assert items[i] in items;
      AscendingHas(st.addTune, items[i]);
      AscendingHas(st.amendMetadata, items[i]);
      assert QueuedAsTune(st, items[i]) && Lookup(st.s2d, items[i]) == d && IsCopyOf(env, env.src[items[i]], st2.dest[d]);
    } else {
      var w :| QueuedAsTune(st, w) && w in env.src && Lookup(st.s2d, w) == d && IsCopyOf(env, env.src[w], st1.dest[d]);
      assert st2.dest[d] == st1.dest[d];
    }
  }

  lemma TunePhasesWhole(env: Env, st: State, st2: State, st3: State, st4: State, s: Id)
    requires SamePlans(st, st2) && SamePlans(st, st3) && (s in Items(st, AddTunes) || s in Items(st, AmendTunes))
    requires Phased(env, st2, AddTunes, st3, Lookup(st.s2d, s)) && Phased(env, st3, AmendTunes, st4, Lookup(st.s2d, s))
    ensures Whole(env, st, s, st4.dest)
  {
    if s in Items(st, AddTunes) { PhaseWhole(env, st, st2, AddTunes, st3, s); }
    PhaseWhole(env, st, st3, AmendTunes, st4, s);
  }

  lemma QueuedWhole(env: Env, st: State, s: Id)
    requires PlannedQueues(env, st) && !env.dry && CopyAll(env, Outcome(0, st)).rc == 0
    requires s in st.addTune || s in st.amendMetadata
    ensures Whole(env, st, s, CopyAll(env, Outcome(0, st)).st.dest)
  {
    var st1, st2, st3, st4 := PhasesRun(env, st);
    assert Ran(env, st, st1, st2, st3, st4, Lookup(st.s2d, s));
    ListsOf(env, st, s);
    TunePhasesWhole(env, st, st2, st3, st4, s);
  }

  ghost predicate Alone(st: State, s: Id) {
    forall x :: Lookup(st.s2d, x) == Lookup(st.s2d, s) ==> x == s
  }

  /** What became of the record of `s`: a whole copy, and its own if no other item has the record. */
  ghost predicate OwnWhole(env: Env, st: State, s: Id, now: Db) {
    && Whole(env, st, s, now)
    && (Alone(st, s) ==> s in env.src && IsCopyOf(env, env.src[s], now[Lookup(st.s2d, s)]))
  }

  ghost predicate Untargeted(st: State, d: Id) {
    forall x :: x in st.amendPlaylist || x in st.addPlaylist || x in st.addTune || x in st.amendMetadata ==>
      Lookup(st.s2d, x) != d
  }

  ghost predicate AllWhole(env: Env, st: State, now: Db) {
    && (forall s :: s in st.addTune || s in st.amendMetadata ==> OwnWhole(env, st, s, now))
    && (forall d {:trigger Untargeted(st, d)} :: d in st.dest && Untargeted(st, d) ==> d in now && now[d] == st.dest[d])
  }

  lemma RunWhole(env: Env, st: State)
    requires PlannedQueues(env, st) && !env.dry && CopyAll(env, Outcome(0, st)).rc == 0
    ensures AllWhole(env, st, CopyAll(env, Outcome(0, st)).st.dest)
  {
    var end := CopyAll(env, Outcome(0, st)).st.dest;
    forall s | s in st.addTune || s in st.amendMetadata ensures OwnWhole(env, st, s, end) {
      QueuedWhole(env, st, s);
    }
    forall d | d in st.dest && Untargeted(st, d) ensures d in end && end[d] == st.dest[d] {
      UntargetedStays(env, st, d);
    }
  }

  /** After a finished real run the record of every item that was queued, for its contents or its tags, is
      in every field a copy of an item that has it, and of that one if no other has.  The records that no
      queued item has are as they were. */
  lemma QueuedAreWhole(env: Env, dest: Db)
    requires GoodSource(env.src) && Rooted(dest) && GivenFresh(env, dest) && !env.dry
    requires Synchronise(env, Fresh(dest)).rc == 0
    ensures AllWhole(env, Plan(env, Fresh(dest)).st, Synchronise(env, Fresh(dest)).st.dest)
    ensures forall d :: d in Plan(env, Fresh(dest)).st.dest ==> d in dest && Plan(env, Fresh(dest)).st.dest[d] == dest[d]
  {
    PlanGood(env, dest);
    RunWhole(env, Plan(env, Fresh(dest)).st);
  }
}
