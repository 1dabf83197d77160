/** No child list that a run writes names a record that is missing at the end. */
module SyncLists {
  import opened Ordering
  import opened SyncModel
  import opened SyncMatch
  import opened SyncAdd
  import opened SyncCopy
  import opened SyncPlan

  /** Copying adds records and takes none away. */
  ghost predicate Lands(st: State, items: seq<Id>, k: nat, st': State) {
    && SamePlans(st, st') && st.dest.Keys <= st'.dest.Keys
    && (forall i :: k <= i < |items| ==> Lookup(st.s2d, items[i]) in st'.dest)
  }

  ghost predicate SourceItems(src: Db, items: seq<Id>) {
    forall s :: s in items ==> s in src
  }

  lemma ItemRecorded(env: Env, st: State, phase: Phase, s: Id, num: nat, denom: nat)
    requires !env.dry && s in env.src && CopyItem(env, st, phase, s, num, denom).rc == 0
    ensures var st' := CopyItem(env, st, phase, s, num, denom).st;
      SamePlans(st, st') && st.dest.Keys <= st'.dest.Keys && Lookup(st.s2d, s) in st'.dest
  {
    TouchAllKeeps(Touch(st.s2d, s), env.src[s].children);
  }

  lemma {:induction false} CopyItemsLand(env: Env, st: State, phase: Phase, items: seq<Id>, k: nat)
    requires !env.dry && k <= |items| && SourceItems(env.src, items) && CopyItems(env, st, phase, items, k).rc == 0
    ensures Lands(st, items, k, CopyItems(env, st, phase, items, k).st)
    decreases |items| - k
  {
    if k < |items| {
      var st1 := CopyItem(env, st, phase, items[k], k, |items|).st;
      assert items[k] in items;
      ItemRecorded(env, st, phase, items[k], k, |items|);
      CopyItemsLand(env, st1, phase, items, k + 1);
    }
  }

  /** Every item of the plan's queues that has an id has a record in `end`. */
  ghost predicate AllLanded(st: State, end: State) {
    && SamePlans(st, end) && st.dest.Keys <= end.dest.Keys
    && (forall s :: s in st.addPlaylist || s in st.addTune ==> Lookup(st.s2d, s) in end.dest)
  }

  lemma PhaseLands(env: Env, st0: State, st: State, phase: Phase)
    requires !env.dry && SamePlans(st0, st) && CopyPhase(env, Outcome(0, st), phase).rc == 0
    requires SourceItems(env.src, Items(st0, phase))
    ensures var st' := CopyPhase(env, Outcome(0, st), phase).st;
      && SamePlans(st0, st') && st.dest.Keys <= st'.dest.Keys
      && forall s :: s in Items(st0, phase) ==> Lookup(st0.s2d, s) in st'.dest
  {
    var items := Items(st, phase);
    CopyItemsLand(env, st, phase, items, 0);
    forall s | s in items ensures Lookup(st0.s2d, s) in CopyPhase(env, Outcome(0, st), phase).st.dest {
      var i :| 0 <= i < |items| && items[i] == s;
    }
  }

  lemma CopyAllLands(env: Env, st: State)
    requires !env.dry && CopyAll(env, Outcome(0, st)).rc == 0
    requires forall phase {:trigger Items(st, phase)} :: SourceItems(env.src, Items(st, phase))
    ensures AllLanded(st, CopyAll(env, Outcome(0, st)).st)
  {
    AscendingElements(st.addTune);
    PhaseLands(env, st, st, AmendPlaylists);
    var r1 := CopyPhase(env, Outcome(0, st), AmendPlaylists);
    PhaseLands(env, st, r1.st, AddPlaylists);
    var r2 := CopyPhase(env, r1, AddPlaylists);
    PhaseLands(env, st, r2.st, AddTunes);
    var r3 := CopyPhase(env, r2, AddTunes);
    PhaseLands(env, st, r3.st, AmendTunes);
  }

  ghost predicate QueuesSourced(src: Db, st: State) {
    forall s :: s in st.addPlaylist || s in st.addTune || s in st.amendPlaylist || s in st.amendMetadata ==> s in src
  }

  lemma PlanQueuesSourced(env: Env, dest: Db, m: State, del: State, r: Pruned)
    requires Parts(env, dest, m, del, r)
    ensures QueuesSourced(env.src, r.st)
  {
    assert forall s :: s in r.st.addPlaylist || s in r.st.addTune || s in r.st.amendPlaylist || s in r.st.amendMetadata ==>
        s in r.st.s2d;
  }

  lemma QueuesFromSource(src: Db, st: State)
    requires QueuesSourced(src, st)
    ensures forall phase {:trigger Items(st, phase)} :: SourceItems(src, Items(st, phase))
  {
    AscendingElements(st.amendPlaylist);
    AscendingElements(st.addTune);
    AscendingElements(st.amendMetadata);
  }

  /** An item with an id was matched to a record that stays, or is queued. */
  lemma MappedKeptOrQueued(env: Env, dest: Db, m: State, del: State, r: Pruned, s: Id)
    requires Parts(env, dest, m, del, r) && Lookup(r.st.s2d, s) != 0 && NewCopied(env.src, m.s2d, r.st.s2d)
    ensures Lookup(r.st.s2d, s) in r.st.dest || s in r.st.addPlaylist || s in r.st.addTune
  {
    if s in m.s2d {
      assert Alike(env.src, dest, s, m.s2d[s]) && m.s2d[s] in m.d2s;
    } else {
      assert Added(env, del, r, s);
    }
  }

  /** After a finished real run every id that an item is mapped to is that of a record, whatever
      the destination shares and whatever ids it allocates, if what is added is of kinds that are copied. */
  lemma IdsLeadSomewhere(env: Env, dest: Db)
    requires GoodSource(env.src) && Rooted(dest) && AddsCopied(env, dest)
    requires !env.dry && Synchronise(env, Fresh(dest)).rc == 0
    ensures var end := Synchronise(env, Fresh(dest)).st;
      forall s :: Lookup(end.s2d, s) != 0 ==> Lookup(end.s2d, s) in end.dest
  {
    var m, del, r := PlanParts(env, dest);
    PlanQueuesSourced(env, dest, m, del, r);
    QueuesFromSource(env.src, r.st);
    CopyAllLands(env, r.st);
    forall s | Lookup(r.st.s2d, s) != 0 ensures Lookup(r.st.s2d, s) in Synchronise(env, Fresh(dest)).st.dest {
      MappedKeptOrQueued(env, dest, m, del, r, s);
    }
  }

  /** No phase writes a record that no queued item has. */
  lemma UntargetedStays(env: Env, st: State, d: Id)
    requires PlannedQueues(env, st) && !env.dry && CopyAll(env, Outcome(0, st)).rc == 0
    requires forall x :: x in st.amendPlaylist || x in st.addPlaylist || x in st.addTune || x in st.amendMetadata ==>
      Lookup(st.s2d, x) != d
    ensures SameAt(st.dest, CopyAll(env, Outcome(0, st)).st.dest, d)
  {
    var st1, st2, st3, st4 := PhasesRun(env, st);
    assert Ran(env, st, st1, st2, st3, st4, d);
    AscendingElements(st.amendPlaylist);
    AscendingElements(st.addTune);
    AscendingElements(st.amendMetadata);
  }

  /** A new item of another kind gets no record. */
  lemma UncopiedAbsent(env: Env, st: State, s: Id)
    requires Planned(env, st) && !env.dry && CopyAll(env, Outcome(0, st)).rc == 0
    requires Lookup(st.s2d, s) != 0 && Lookup(st.s2d, s) !in st.dest && !env.src[s].IsCopied()
    ensures Lookup(st.s2d, s) !in CopyAll(env, Outcome(0, st)).st.dest
  {
    assert Ready(env, st, s);
    UntargetedStays(env, st, Lookup(st.s2d, s));
  }

  /** If the ids are fresh it is exactly then. */
  lemma IdsLeadIfCopied(env: Env, dest: Db)
    requires GoodSource(env.src) && Rooted(dest) && GivenFresh(env, dest)
    requires !env.dry && Synchronise(env, Fresh(dest)).rc == 0
    ensures var end := Synchronise(env, Fresh(dest)).st;
      (forall s :: Lookup(end.s2d, s) != 0 ==> Lookup(end.s2d, s) in end.dest) <==> AddsCopied(env, dest)
  {
    PlanGood(env, dest);
    var st, end := Plan(env, Fresh(dest)).st, Synchronise(env, Fresh(dest)).st;
    CopyAllFails(env, st);
    if AddsCopied(env, dest) { IdsLeadSomewhere(env, dest); }
    if forall s :: Lookup(end.s2d, s) != 0 ==> Lookup(end.s2d, s) in end.dest {
      forall s | Lookup(st.s2d, s) != 0 && s !in Matched(env.src, dest) ensures s in env.src && env.src[s].IsCopied() {
        assert Ready(env, st, s) && Lookup(end.s2d, s) != 0;
        if !env.src[s].IsCopied() { UncopiedAbsent(env, st, s); }
      }
    }
  }

  lemma {:induction false} MappedElements(s2d: map<Id, Id>, ids: seq<Id>, x: Id) returns (c: Id)
    requires x in Mapped(s2d, ids)
    ensures Lookup(s2d, c) == x != 0
  {
    if x == Lookup(s2d, ids[0]) && x != 0 {
      c := ids[0];
    } else {
      c := MappedElements(s2d, ids[1..], x);
    }
  }

  /** So no list that is written for an item names a record that is not there. */
  lemma WrittenListsLeadSomewhere(env: Env, dest: Db, s: Id)
    requires GoodSource(env.src) && Rooted(dest) && AddsCopied(env, dest)
    requires !env.dry && Synchronise(env, Fresh(dest)).rc == 0
    requires s in env.src
    ensures var end := Synchronise(env, Fresh(dest)).st;
      forall x <- Mapped(end.s2d, env.src[s].children) :: x in end.dest
  {
    IdsLeadSomewhere(env, dest);
    var end := Synchronise(env, Fresh(dest)).st;
    forall x | x in Mapped(end.s2d, env.src[s].children) ensures x in end.dest {
      var c := MappedElements(end.s2d, env.src[s].children, x);
    }
  }

  /** No tune is copied to the record of a container. */
  lemma TunesElsewhere(env: Env, st: State, s: Id)
    requires Planned(env, st) && s in env.src && env.src[s].IsComposite() && Lookup(st.s2d, s) != 0
    ensures forall x :: x in st.addTune || x in st.amendMetadata ==> Lookup(st.s2d, x) != Lookup(st.s2d, s)
  {
    assert Ready(env, st, s);
    forall x | x in st.addTune || x in st.amendMetadata ensures Lookup(st.s2d, x) != Lookup(st.s2d, s) {
      assert Lookup(st.s2d, x) != 0 && Ready(env, st, x);
    }
  }

  /** A record that is written as a list has the list written last for it. */
  lemma ListWriter(env: Env, st: State, st1: State, st2: State, d: Id) returns (writer: Id)
    requires Phased(env, st, AmendPlaylists, st1, d) && Phased(env, st1, AddPlaylists, st2, d) && SamePlans(st, st1)
    requires Target(st.s2d, Items(st, AmendPlaylists), 0, d) || Target(st.s2d, Items(st, AddPlaylists), 0, d)
    ensures writer in env.src && Lookup(st.s2d, writer) == d && d in st2.dest
    ensures st2.dest[d].children == Mapped(st.s2d, env.src[writer].children)
  {
    var lists, added := Items(st, AmendPlaylists), Items(st, AddPlaylists);
    if Target(st.s2d, added, 0, d) {
      var k :| 0 <= k < |added| && Lookup(st.s2d, added[k]) == d;
      assert Lookup(st1.s2d, added[k]) == d;
      var i :| 0 <= i < |added| && Lookup(st1.s2d, added[i]) == d && CopiedAt(env, st1.s2d, AddPlaylists, added[i], st2.dest);
      writer := added[i];
      MappedSame(st.s2d, st1.s2d, env.src[writer].children);
    } else {
      assert !Target(st1.s2d, added, 0, d);
      var i :| 0 <= i < |lists| && Lookup(st.s2d, lists[i]) == d && CopiedAt(env, st.s2d, AmendPlaylists, lists[i], st1.dest);
      writer := lists[i];
    }
  }

  lemma QueuedIsTarget(st: State, phase: Phase, s: Id)
    requires s in Items(st, phase)
    ensures Target(st.s2d, Items(st, phase), 0, Lookup(st.s2d, s))
  {
    var i :| 0 <= i < |Items(st, phase)| && Items(st, phase)[i] == s;
  }

  /** So the last two phases leave the record of a container alone. */
  lemma ListStays(env: Env, st: State, st2: State, st3: State, st4: State, s: Id)
    requires Planned(env, st) && s in env.src && env.src[s].IsComposite() && Lookup(st.s2d, s) != 0
    requires SamePlans(st, st2) && SamePlans(st, st3)
    requires Phased(env, st2, AddTunes, st3, Lookup(st.s2d, s)) && Phased(env, st3, AmendTunes, st4, Lookup(st.s2d, s))
    ensures SameAt(st2.dest, st4.dest, Lookup(st.s2d, s))
  {
    AscendingElements(st.addTune);
    AscendingElements(st.amendMetadata);
    TunesElsewhere(env, st, s);
  }

  /** The list as it stands at the end is one that was written for some item. */
  lemma ListAtEnd(env: Env, dest: Db, s: Id) returns (writer: Id)
    requires GoodSource(env.src) && Rooted(dest) && GivenFresh(env, dest) && !env.dry
    requires Synchronise(env, Fresh(dest)).rc == 0
    requires s in env.src && env.src[s].IsComposite()
    requires s in Plan(env, Fresh(dest)).st.amendPlaylist || s in Plan(env, Fresh(dest)).st.addPlaylist
    ensures var end := Synchronise(env, Fresh(dest)).st;
      var d := Lookup(end.s2d, s);
      && d in end.dest && writer in env.src && Lookup(end.s2d, writer) == d
      && end.dest[d].children == Mapped(end.s2d, env.src[writer].children)
      && (AddsCopied(env, dest) ==> forall x <- end.dest[d].children :: x in end.dest)
  {
    PlanGood(env, dest);
    var st := Plan(env, Fresh(dest)).st;
    writer := ListWritten(env, st, s);
    var end := CopyAll(env, Outcome(0, st)).st;
    CopyAllFails(env, st);
    MappedSame(st.s2d, end.s2d, env.src[writer].children);
    if AddsCopied(env, dest) { WrittenListsLeadSomewhere(env, dest, writer); }
  }

  lemma ListWritten(env: Env, st: State, s: Id) returns (writer: Id)
    requires Planned(env, st) && !env.dry && CopyAll(env, Outcome(0, st)).rc == 0
    requires s in env.src && env.src[s].IsComposite() && (s in st.amendPlaylist || s in st.addPlaylist)
    ensures var end, d := CopyAll(env, Outcome(0, st)).st.dest, Lookup(st.s2d, s);
      && d in end && writer in env.src && Lookup(st.s2d, writer) == d
      && end[d].children == Mapped(st.s2d, env.src[writer].children)
  {
    var d := Lookup(st.s2d, s);
    var st1, st2, st3, st4 := PhasesRun(env, st);
    assert Ran(env, st, st1, st2, st3, st4, d);
    assert PlannedQueues(env, st) && d != 0;
    AscendingHas(st.amendPlaylist, s);
    QueuedIsTarget(st, if s in st.amendPlaylist then AmendPlaylists else AddPlaylists, s);
    writer := ListWriter(env, st, st1, st2, d);
    ListStays(env, st, st2, st3, st4, s);
  }
}
