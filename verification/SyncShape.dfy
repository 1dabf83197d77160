/** What a run from a source with high-quality versions leaves has the shape of what a run from it
    resolved does, and so mirrors the source. */
module SyncShape {
  import opened SyncModel
  import opened SyncMatch
  import opened SyncAdd
  import opened SyncCopy
  import opened SyncPlan
  import opened SyncLists
  import opened SyncMirror
  import opened SyncHigh
  import opened SyncBest

  /** Of record `d`, which item `s` has: the same kind, and if `s` has no high-quality version the same
      title and list. */
  ghost predicate SameShape(src: Db, dest: Db, dest': Db, s: Id, d: Id) {
    && (d in dest <==> d in dest')
    && (d in dest ==> dest[d].mtype == dest'[d].mtype)
    && (d in dest && !HasHigh(src, s) ==> dest[d].title == dest'[d].title && dest[d].children == dest'[d].children)
  }

  lemma {:induction false} MappedStand(src: Db, m: map<Id, Id>, n: map<Id, Id>, ss: seq<Id>)
    requires MapsStand(src, m, n) && forall c :: c in ss ==> !IsHigh(src, c)
    ensures Mapped(m, ss) == Mapped(n, ss)
  {
    if ss != [] {
      assert Lookup(m, ss[0]) == Lookup(n, ss[0]);
      MappedStand(src, m, n, ss[1..]);
    }
  }

  /** What copying `s` in one run and its best version in the other makes of their record. */
  lemma CopiedShape(env: Env, st: State, n: State, m1: map<Id, Id>, n1: map<Id, Id>, phase: Phase, s: Id, dest: Db, dest': Db)
    requires HighSource(env.src) && Stands(env.src, st, n) && SameLookups(st.s2d, m1) && SameLookups(n.s2d, n1)
    requires s in env.src && Lookup(n.s2d, s) != 0
    requires CopiedAt(env, m1, phase, Best(env.src, s), dest) && CopiedAt(ResolvedEnv(env), n1, phase, s, dest')
    ensures SameShape(env.src, dest, dest', s, Lookup(n.s2d, s))
  {
    BestLooksUp(env.src, st, n, s);
    BestItem(env.src, s);
    if !HasHigh(env.src, s) {
      var cs := env.src[s].children;
      MappedSame(st.s2d, m1, cs);
      MappedSame(n.s2d, n1, cs);
      MappedStand(env.src, st.s2d, n.s2d, cs);
    }
  }

  /** Whether a phase writes the record that `s` has alone. */
  lemma Targets(env: Env, st: State, n: State, m1: map<Id, Id>, n1: map<Id, Id>, phase: Phase, s: Id)
    requires HighSource(env.src) && Stands(env.src, st, n) && PlannedQueues(ResolvedEnv(env), n)
    requires SameLookups(st.s2d, m1) && SameLookups(n.s2d, n1)
    requires Lookup(n.s2d, s) != 0 && SoleOwner(env.src, st.s2d, s)
    ensures forall x :: x in Items(st, phase) && Lookup(m1, x) == Lookup(n.s2d, s) ==>
      x == Best(env.src, s) && s in Items(n, phase)
    ensures forall t :: t in Items(n, phase) && Lookup(n1, t) == Lookup(n.s2d, s) ==>
      t == s && Best(env.src, s) in Items(st, phase)
    ensures s in Items(n, phase) ==> Lookup(m1, Best(env.src, s)) == Lookup(n1, s) == Lookup(n.s2d, s)
  {
    ItemsStand(env, st, n, phase);
    BestLooksUp(env.src, st, n, s);
    forall x | x in Items(st, phase) && Lookup(m1, x) == Lookup(n.s2d, s) ensures x == Best(env.src, s) && s in Items(n, phase) {
      var t :| t in Items(n, phase) && x == Best(env.src, t);
      QueuedCopyable(ResolvedEnv(env), n, phase, t);
      BestLooksUp(env.src, st, n, t);
      SoleStands(env.src, st, n, s, t);
    }
    forall t | t in Items(n, phase) && Lookup(n1, t) == Lookup(n.s2d, s) ensures t == s {
      SoleStands(env.src, st, n, s, t);
    }
  }

  /** A phase of which `x` alone can go to record `d`. */
  lemma SoleWritten(env: Env, st1: State, phase: Phase, st2: State, d: Id, x: Id)
    requires Phased(env, st1, phase, st2, d)
    requires forall w :: w in Items(st1, phase) && Lookup(st1.s2d, w) == d ==> w == x
    requires x in Items(st1, phase) ==> Lookup(st1.s2d, x) == d
    ensures if x in Items(st1, phase) then CopiedAt(env, st1.s2d, phase, x, st2.dest) else SameAt(st1.dest, st2.dest, d)
  {
    var items := Items(st1, phase);
    if x in items {
      var i: nat :| i < |items| && items[i] == x;
      assert Target(st1.s2d, items, 0, d);
      var k: nat :| k < |items| && Lookup(st1.s2d, items[k]) == d && CopiedAt(env, st1.s2d, phase, items[k], st2.dest);
      assert items[k] in items;
    }
  }

  lemma PhaseShape(env: Env, st: State, n: State, phase: Phase, s: Id, st1: State, n1: State, st2: State, n2: State)
    requires HighSource(env.src) && Stands(env.src, st, n) && PlannedQueues(ResolvedEnv(env), n)
    requires s in env.src && Lookup(n.s2d, s) != 0 && SoleOwner(env.src, st.s2d, s)
    requires SamePlans(st, st1) && SamePlans(n, n1)
    requires Phased(env, st1, phase, st2, Lookup(n.s2d, s)) && Phased(ResolvedEnv(env), n1, phase, n2, Lookup(n.s2d, s))
    requires SameShape(env.src, st1.dest, n1.dest, s, Lookup(n.s2d, s))
    ensures SameShape(env.src, st2.dest, n2.dest, s, Lookup(n.s2d, s))
  {
    var d, x := Lookup(n.s2d, s), Best(env.src, s);
    SameItems(st, st1, phase);
    SameItems(n, n1, phase);
    Targets(env, st, n, st1.s2d, n1.s2d, phase, s);
    SoleWritten(env, st1, phase, st2, d, x);
    SoleWritten(ResolvedEnv(env), n1, phase, n2, d, s);
    ItemsStand(env, st, n, phase);
    if s in Items(n, phase) {
      CopiedShape(env, st, n, st1.s2d, n1.s2d, phase, s, st2.dest, n2.dest);
    } else {
      NotQueued(env, st, n, phase, s);
    }
  }

  lemma SameItems(st: State, st1: State, phase: Phase)
    requires SamePlans(st, st1)
    ensures Items(st1, phase) == Items(st, phase)
  {
  }

  lemma NotQueued(env: Env, st: State, n: State, phase: Phase, s: Id)
    requires HighSource(env.src) && Stands(env.src, st, n) && PlannedQueues(ResolvedEnv(env), n)
    requires Lookup(n.s2d, s) != 0 && SoleOwner(env.src, st.s2d, s) && s !in Items(n, phase)
    ensures Best(env.src, s) !in Items(st, phase)
  {
    Targets(env, st, n, st.s2d, n.s2d, phase, s);
    BestLooksUp(env.src, st, n, s);
  }

  /** Nothing goes to a record that no item has. */
  lemma UnmappedShape(env: Env, st: State, n: State, d: Id)
    requires HighSource(env.src) && Stands(env.src, st, n) && PlannedQueues(ResolvedEnv(env), n) && PlannedQueues(env, st)
    requires !env.dry && CopyAll(env, Outcome(0, st)).rc == 0 && CopyAll(ResolvedEnv(env), Outcome(0, n)).rc == 0
    requires forall s :: Lookup(n.s2d, s) != d
    ensures SameAt(st.dest, CopyAll(env, Outcome(0, st)).st.dest, d)
    ensures SameAt(st.dest, CopyAll(ResolvedEnv(env), Outcome(0, n)).st.dest, d)
  {
    forall x ensures Lookup(st.s2d, x) != d {
      if x in st.s2d && IsHigh(env.src, x) {
        var s :| HasHigh(env.src, s) && Best(env.src, s) == x;
        assert Lookup(n.s2d, s) != d;
      } else {
        assert Lookup(n.s2d, x) != d;
      }
    }
    UnmappedStays(env, st, d);
    UnmappedStays(ResolvedEnv(env), n, d);
  }

  lemma OwnedShape(env: Env, st: State, n: State, s: Id)
    requires HighSource(env.src) && Stands(env.src, st, n) && PlannedQueues(ResolvedEnv(env), n) && PlannedQueues(env, st)
    requires !env.dry && CopyAll(env, Outcome(0, st)).rc == 0 && CopyAll(ResolvedEnv(env), Outcome(0, n)).rc == 0
    requires s in env.src && Lookup(n.s2d, s) != 0 && SoleOwner(env.src, st.s2d, s)
    ensures SameShape(env.src, CopyAll(env, Outcome(0, st)).st.dest, CopyAll(ResolvedEnv(env), Outcome(0, n)).st.dest,
                      s, Lookup(n.s2d, s))
  {
    var d := Lookup(n.s2d, s);
    var st1, st2, st3, st4 := PhasesRun(env, st);
    var n1, n2, n3, n4 := PhasesRun(ResolvedEnv(env), n);
    assert Ran(env, st, st1, st2, st3, st4, d) && Ran(ResolvedEnv(env), n, n1, n2, n3, n4, d);
    PhaseShape(env, st, n, AmendPlaylists, s, st, n, st1, n1);
    PhaseShape(env, st, n, AddPlaylists, s, st1, n1, st2, n2);
    PhaseShape(env, st, n, AddTunes, s, st2, n2, st3, n3);
    PhaseShape(env, st, n, AmendTunes, s, st3, n3, st4, n4);
  }

  /* Titles in the resolved run */

  ghost predicate TitleAt(dest: Db, from: Record, d: Id) {
    d in dest && from.title != "" ==> dest[d].title == from.title
  }

  ghost predicate Only(m: map<Id, Id>, s: Id) {
    forall t :: Lookup(m, t) == Lookup(m, s) ==> t == s
  }

  lemma PhaseTitle(env: Env, n: State, phase: Phase, s: Id, n1: State, n2: State)
    requires PlannedQueues(env, n) && SamePlans(n, n1) && s in env.src && Lookup(n.s2d, s) != 0 && Only(n.s2d, s)
    requires Phased(env, n1, phase, n2, Lookup(n.s2d, s)) && TitleAt(n1.dest, env.src[s], Lookup(n.s2d, s))
    ensures TitleAt(n2.dest, env.src[s], Lookup(n.s2d, s))
  {
    SameItems(n, n1, phase);
    SoleWritten(env, n1, phase, n2, Lookup(n.s2d, s), s);
  }

  /** An item that has its record alone keeps its title there. */
  lemma TitleKept(env: Env, n: State, s: Id)
    requires Planned(env, n) && !env.dry && CopyAll(env, Outcome(0, n)).rc == 0
    requires s in env.src && Lookup(n.s2d, s) != 0 && Only(n.s2d, s) && s != ROOT
    ensures TitleAt(CopyAll(env, Outcome(0, n)).st.dest, env.src[s], Lookup(n.s2d, s))
  {
    var n1, n2, n3, n4 := PhasesRun(env, n);
    assert Ran(env, n, n1, n2, n3, n4, Lookup(n.s2d, s));
    assert Ready(env, n, s);
    PhaseTitle(env, n, AmendPlaylists, s, n, n1);
    PhaseTitle(env, n, AddPlaylists, s, n1, n2);
    PhaseTitle(env, n, AddTunes, s, n2, n3);
    PhaseTitle(env, n, AmendTunes, s, n3, n4);
  }

  /* The mirror */

  /** The records are there for the same ids, each of the same kind. */
  ghost predicate SameKinds(dest: Db, dest': Db) {
    forall d :: (d in dest <==> d in dest') && (d in dest ==> dest[d].mtype == dest'[d].mtype)
  }

  lemma {:induction false} NamedSame(dest: Db, dest': Db, ids: seq<Id>)
    requires SameKinds(dest, dest')
    ensures Named(dest, ids) == Named(dest', ids)
  {
    if ids != [] { NamedSame(dest, dest', ids[1..]); }
  }

  /** What shows of item `s`: it is there in its kind; and without a high-quality version it is mirrored. */
  ghost predicate ShownAt(src: Db, dest: Db, m: map<Id, Id>, s: Id) {
    && Wanted(src, s) && Wanted(dest, Lookup(m, s)) && src[s].IsComposite() == dest[Lookup(m, s)].IsComposite()
    && (!HasHigh(src, s) ==> Mirrored(src, dest, m, s))
  }

  lemma KidsStand(src: Db, st: State, n: State, s: Id)
    requires HighSource(src) && Stands(src, st, n) && s in src
    ensures Kids(Resolved(src), s) == Kids(src, s)
    ensures MapAll(st.s2d, Kids(src, s)) == MapAll(n.s2d, Kids(src, s))
  {
    NamedResolved(src, src[s].children);
    NamedElements(src, src[s].children);
    var kids := Kids(src, s);
    forall k | 0 <= k < |kids| ensures Lookup(st.s2d, kids[k]) == Lookup(n.s2d, kids[k]) {
      assert kids[k] in kids && !IsHigh(src, kids[k]);
    }
  }

  /** One item in both runs: what is shown from the source is mirrored from it resolved. */
  lemma ShownStands(src: Db, st: State, n: State, dest: Db, dest': Db, s: Id)
    requires HighSource(src) && Stands(src, st, n) && SameKinds(dest, dest') && s in src && Lookup(n.s2d, s) != 0
    requires SameShape(src, dest, dest', s, Lookup(n.s2d, s))
    requires HasHigh(src, s) ==> TitleAt(dest', Resolved(src)[s], Lookup(n.s2d, s))
    ensures ShownAt(src, dest, st.s2d, s) <==> Mirrored(Resolved(src), dest', n.s2d, s)
  {
    BestLooksUp(src, st, n, s);
    BestItem(src, s);
    ResolvedAt(src, s);
    KidsStand(src, st, n, s);
    var d := Lookup(n.s2d, s);
    if d in dest && !HasHigh(src, s) { NamedSame(dest, dest', dest[d].children); }
  }

  /** Every item that is mapped, and is no high-quality version itself, shows in a record it has alone. */
  ghost predicate HighMirror(src: Db, dest: Db, m: map<Id, Id>) {
    && Lookup(m, ROOT) == ROOT
    && forall s {:trigger ShownAt(src, dest, m, s)} {:trigger SoleOwner(src, m, s)} :: Lookup(m, s) != 0 && !IsHigh(src, s) ==>
      SoleOwner(src, m, s) && ShownAt(src, dest, m, s)
  }

  ghost predicate AllSole(src: Db, m: map<Id, Id>) {
    forall s {:trigger SoleOwner(src, m, s)} :: Lookup(m, s) != 0 && !IsHigh(src, s) ==> SoleOwner(src, m, s)
  }

  lemma SoleIfInjective(src: Db, st: State, n: State)
    requires Stands(src, st, n)
    ensures AllSole(src, st.s2d) <==> Injective(n.s2d)
  {
    if AllSole(src, st.s2d) {
      forall s, s' | Lookup(n.s2d, s) != 0 && Lookup(n.s2d, s) == Lookup(n.s2d, s') ensures s == s' {
        BestLooksUp(src, st, n, s);
        assert SoleOwner(src, st.s2d, s);
        SoleStands(src, st, n, s, s');
      }
    }
    if Injective(n.s2d) {
      forall s | Lookup(st.s2d, s) != 0 && !IsHigh(src, s) ensures SoleOwner(src, st.s2d, s) {
        assert forall t :: !IsHigh(src, t) ==> Lookup(st.s2d, t) == Lookup(n.s2d, t);
      }
    }
  }

  /** Two finished runs, past planning. */
  ghost predicate BothRan(env: Env, st: State, n: State) {
    && HighSource(env.src) && Stands(env.src, st, n) && Planned(ResolvedEnv(env), n) && PlannedQueues(env, st)
    && !env.dry && CopyAll(env, Outcome(0, st)).rc == 0 && CopyAll(ResolvedEnv(env), Outcome(0, n)).rc == 0
  }

  lemma KindsSame(env: Env, st: State, n: State)
    requires BothRan(env, st, n) && AllSole(env.src, st.s2d)
    ensures SameKinds(CopyAll(env, Outcome(0, st)).st.dest, CopyAll(ResolvedEnv(env), Outcome(0, n)).st.dest)
  {
    var end, end' := CopyAll(env, Outcome(0, st)).st.dest, CopyAll(ResolvedEnv(env), Outcome(0, n)).st.dest;
    forall d ensures (d in end <==> d in end') && (d in end ==> end[d].mtype == end'[d].mtype) {
      if s :| Lookup(n.s2d, s) == d && d != 0 {
        OwnerShape(env, st, n, s);
      } else if d != 0 {
        UnmappedShape(env, st, n, d);
      } else {
        ZeroShape(env, st, n);
      }
    }
  }

  lemma OwnerShape(env: Env, st: State, n: State, s: Id)
    requires BothRan(env, st, n) && AllSole(env.src, st.s2d) && Lookup(n.s2d, s) != 0
    ensures s in env.src && SoleOwner(env.src, st.s2d, s) && !IsHigh(env.src, s)
    ensures SameShape(env.src, CopyAll(env, Outcome(0, st)).st.dest, CopyAll(ResolvedEnv(env), Outcome(0, n)).st.dest,
                      s, Lookup(n.s2d, s))
  {
    BestLooksUp(env.src, st, n, s);
    OwnedShape(env, st, n, s);
  }

  /** No queued item goes to a record 0. */
  lemma ZeroShape(env: Env, st: State, n: State)
    requires BothRan(env, st, n)
    ensures SameAt(st.dest, CopyAll(env, Outcome(0, st)).st.dest, 0)
    ensures SameAt(st.dest, CopyAll(ResolvedEnv(env), Outcome(0, n)).st.dest, 0)
  {
    UntargetedStays(env, st, 0);
    UntargetedStays(ResolvedEnv(env), n, 0);
  }

  lemma BothShow(env: Env, st: State, n: State, s: Id)
    requires BothRan(env, st, n) && AllSole(env.src, st.s2d) && Lookup(n.s2d, s) != 0
    ensures ShownAt(env.src, CopyAll(env, Outcome(0, st)).st.dest, st.s2d, s)
      <==> Mirrored(Resolved(env.src), CopyAll(ResolvedEnv(env), Outcome(0, n)).st.dest, n.s2d, s)
  {
    OwnerShape(env, st, n, s);
    KindsSame(env, st, n);
    if HasHigh(env.src, s) {
      SoleIfInjective(env.src, st, n);
      TitleKept(ResolvedEnv(env), n, s);
    }
    ShownStands(env.src, st, n, CopyAll(env, Outcome(0, st)).st.dest, CopyAll(ResolvedEnv(env), Outcome(0, n)).st.dest, s);
  }

  ghost predicate ShowAlike(src: Db, dest: Db, m: map<Id, Id>, dest': Db, n: map<Id, Id>, s: Id) {
    Lookup(n, s) != 0 ==> (ShownAt(src, dest, m, s) <==> Mirrored(Resolved(src), dest', n, s))
  }

  lemma MirrorsIf(src: Db, dest: Db, m: map<Id, Id>, dest': Db, n: map<Id, Id>)
    requires HighMirror(src, dest, m) && Injective(n) && Lookup(n, ROOT) == ROOT
    requires forall s :: Lookup(n, s) != 0 ==> !IsHigh(src, s) && Lookup(m, s) == Lookup(n, s)
    requires forall s {:trigger ShowAlike(src, dest, m, dest', n, s)} :: ShowAlike(src, dest, m, dest', n, s)
    ensures Mirror(Resolved(src), dest', n)
  {
    forall s | Lookup(n, s) != 0 ensures Mirrored(Resolved(src), dest', n, s) {
      assert ShowAlike(src, dest, m, dest', n, s) && ShownAt(src, dest, m, s);
    }
  }

  lemma ShowsIf(src: Db, dest: Db, m: map<Id, Id>, dest': Db, n: map<Id, Id>)
    requires Mirror(Resolved(src), dest', n) && AllSole(src, m) && Lookup(m, ROOT) == ROOT
    requires forall s :: Lookup(m, s) != 0 && !IsHigh(src, s) ==> Lookup(m, s) == Lookup(n, s)
    requires forall s {:trigger ShowAlike(src, dest, m, dest', n, s)} :: ShowAlike(src, dest, m, dest', n, s)
    ensures HighMirror(src, dest, m)
  {
    forall s | Lookup(m, s) != 0 && !IsHigh(src, s) ensures SoleOwner(src, m, s) && ShownAt(src, dest, m, s) {
      assert ShowAlike(src, dest, m, dest', n, s) && Mirrored(Resolved(src), dest', n, s);
    }
  }

  lemma SameIds(src: Db, st: State, n: State)
    requires Stands(src, st, n)
    ensures forall s :: Lookup(n.s2d, s) != 0 ==> !IsHigh(src, s) && Lookup(st.s2d, s) == Lookup(n.s2d, s)
    ensures forall s :: Lookup(st.s2d, s) != 0 && !IsHigh(src, s) ==> Lookup(st.s2d, s) == Lookup(n.s2d, s)
  {
  }

  /** A run from the source mirrors it exactly if one from it resolved does. */
  lemma BothMirror(env: Env, st: State, n: State)
    requires BothRan(env, st, n)
    ensures HighMirror(env.src, CopyAll(env, Outcome(0, st)).st.dest, st.s2d)
      <==> Mirror(Resolved(env.src), CopyAll(ResolvedEnv(env), Outcome(0, n)).st.dest, n.s2d)
  {
    var end, end' := CopyAll(env, Outcome(0, st)).st.dest, CopyAll(ResolvedEnv(env), Outcome(0, n)).st.dest;
    SoleIfInjective(env.src, st, n);
    SameIds(env.src, st, n);
    RootNotHigh(env.src);
    assert Lookup(n.s2d, ROOT) == ROOT;
    if AllSole(env.src, st.s2d) {
      forall s ensures ShowAlike(env.src, end, st.s2d, end', n.s2d, s) {
        if Lookup(n.s2d, s) != 0 { BothShow(env, st, n, s); }
      }
      if HighMirror(env.src, end, st.s2d) { MirrorsIf(env.src, end, st.s2d, end', n.s2d); }
      if Mirror(Resolved(env.src), end', n.s2d) { ShowsIf(env.src, end, st.s2d, end', n.s2d); }
    } else {
      SoleOfMirror(env.src, end, st.s2d);
    }
  }

  lemma SoleOfMirror(src: Db, dest: Db, m: map<Id, Id>)
    ensures HighMirror(src, dest, m) ==> AllSole(src, m)
  {
  }

  lemma ShownOver(src: Db, dest: Db, m: map<Id, Id>, m': map<Id, Id>)
    requires SameLookups(m, m') && HighMirror(src, dest, m)
    ensures HighMirror(src, dest, m')
  {
    forall s | Lookup(m', s) != 0 && !IsHigh(src, s) ensures SoleOwner(src, m', s) && ShownAt(src, dest, m', s) {
      assert Lookup(m, s) != 0 && ShownAt(src, dest, m, s);
      MirroredSame(src, dest, m, m', s);
      SoleSame(src, m, m', s);
    }
  }

  lemma ShownSame(src: Db, dest: Db, m: map<Id, Id>, m': map<Id, Id>)
    requires SameLookups(m, m')
    ensures HighMirror(src, dest, m) <==> HighMirror(src, dest, m')
  {
    if HighMirror(src, dest, m) { ShownOver(src, dest, m, m'); }
    if HighMirror(src, dest, m') { ShownOver(src, dest, m', m); }
  }

  /** What a finished real run from a source with high-quality versions leaves mirrors it, but for the
      titles of those versions, exactly when matching took no record for two of its items, no list that is
      kept names a record that the run makes, and it makes one for each item it adds. */
  lemma BestMirrors(env: Env, dest: Db)
    requires HighSource(env.src) && Rooted(dest) && GivenFresh(env, dest) && !env.dry
    requires Synchronise(env, Fresh(dest)).rc == 0
    ensures var end := Synchronise(env, Fresh(dest)).st;
      HighMirror(env.src, end.dest, end.s2d)
      <==> && Injective(Matched(Resolved(env.src), dest)) && KeptClean(ResolvedEnv(env), dest)
           && AddsCopied(ResolvedEnv(env), dest)
  {
    BothPlanned(env, dest);
    FailsAsResolved(env, dest);
    var st, n := Plan(env, Fresh(dest)).st, Plan(ResolvedEnv(env), Fresh(dest)).st;
    CopyAllFails(env, st);
    CopyAllFails(ResolvedEnv(env), n);
    SynchroniseMirrors(ResolvedEnv(env), dest);
    BothMirror(env, st, n);
    var end, end' := Synchronise(env, Fresh(dest)).st, Synchronise(ResolvedEnv(env), Fresh(dest)).st;
    ShownSame(env.src, end.dest, st.s2d, end.s2d);
    ReflectsSame(Resolved(env.src), end'.dest, n.s2d, end'.s2d);
    InjectiveSame(n.s2d, end'.s2d);
  }
}
