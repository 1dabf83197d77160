/** A dry run reports what the real run does, whatever ids the two are allocated. */
module SyncDryRun {
  import opened SyncModel
  import opened SyncDelete
  import Ordering

  /** The same job, once for real and once dry. */
  ghost predicate SameJob(live: Env, dry: Env) {
    && !live.dry && dry.dry && dry.src == live.src
    && forall n: nat :: live.alloc(n) != 0 && dry.alloc(n) != 0
  }

  /* Deletions */

  ghost predicate DeletionTwins(a: State, b: State, already: set<Id>) {
    && b == a.(dest := b.dest)
    && (forall d :: d in a.dest ==> d in b.dest && b.dest[d] == a.dest[d])
    && (forall d :: d in b.dest && d !in already ==> d in a.dest)
  }

  ghost predicate PrunedTwins(ra: Pruned, rb: Pruned, dest: Db) {
    && rb.rc == 0 && rb.already == ra.already
    && DeletionTwins(ra.st, rb.st, ra.already)
    && rb.st.dest == dest
  }

  lemma DeleteRecordTwins(live: Env, dry: Env, a: State, b: State, d: Id, already: set<Id>)
    requires SameJob(live, dry) && DeletionTwins(a, b, already) && d in already && d in a.dest && d in b.dest
    requires live.remove(d) == 0
    ensures DeletionTwins(DeleteRecord(live, a, d), DeleteRecord(dry, b, d), already)
    ensures DeleteRecord(dry, b, d).dest == b.dest
  {
  }

  lemma {:induction false} MaybeDeleteTwins(live: Env, dry: Env, a: State, b: State, d: Id, already: set<Id>)
    requires SameJob(live, dry) && DeletionTwins(a, b, already)
    ensures var ra := MaybeDelete(live, a, d, already);
      ra.rc == 0 ==> PrunedTwins(ra, MaybeDelete(dry, b, d, already), b.dest)
    decreases b.dest.Keys - already, 0
  {
    if d !in already && d !in a.d2s && d in b.dest {
      var kids, now := b.dest[d].children, already + {d};
      MaybeDeleteAllTwins(live, dry, a, b, kids, now);
      var ra, rb := MaybeDeleteAll(live, a, kids, now), MaybeDeleteAll(dry, b, kids, now);
      if ra.rc == 0 && live.remove(d) == 0 { DeleteRecordTwins(live, dry, ra.st, rb.st, d, ra.already); }
    }
  }

  lemma {:induction false} MaybeDeleteAllTwins(live: Env, dry: Env, a: State, b: State, ds: seq<Id>, already: set<Id>)
    requires SameJob(live, dry) && DeletionTwins(a, b, already)
    ensures var ra := MaybeDeleteAll(live, a, ds, already);
      ra.rc == 0 ==> PrunedTwins(ra, MaybeDeleteAll(dry, b, ds, already), b.dest)
    decreases b.dest.Keys - already, 1 + |ds|
  {
    if ds != [] {
      MaybeDeleteTwins(live, dry, a, b, ds[0], already);
      var ra, rb := MaybeDelete(live, a, ds[0], already), MaybeDelete(dry, b, ds[0], already);
      if ra.rc == 0 { MaybeDeleteAllTwins(live, dry, ra.st, rb.st, ds[1..], ra.already); }
    }
  }

  /* Additions and copies */

  ghost predicate SameDomains(m: map<Id, Id>, m': map<Id, Id>) {
    forall s :: (s in m <==> s in m') && (Lookup(m, s) == 0 <==> Lookup(m', s) == 0)
  }

  /** Equal but for the destination and the values of its ids. */
  ghost predicate Twins(a: State, b: State, dest: Db) {
    && b == a.(dest := dest, s2d := b.s2d, d2s := b.d2s)
    && SameDomains(a.s2d, b.s2d)
  }

  lemma SameDomainsUpdate(m: map<Id, Id>, m': map<Id, Id>, s: Id, d: Id, d': Id)
    requires SameDomains(m, m') && d != 0 && d' != 0
    ensures SameDomains(m[s := d], m'[s := d'])
  {
  }

  lemma AssignIdTwins(live: Env, dry: Env, a: State, b: State, s: Id, dest: Db)
    requires SameJob(live, dry) && Twins(a, b, dest) && s in live.src
    ensures var ra, rb := AssignId(live, a, s), AssignId(dry, b, s);
      rb.1 == ra.1 && Twins(ra.0, rb.0, dest)
  {
    var d, d' := live.alloc(a.idsTaken), dry.alloc(a.idsTaken);
    SameDomainsUpdate(a.s2d, b.s2d, s, d, d');
    SameDomainsUpdate(a.s2d[s := d], b.s2d[s := d'], live.src[s].idHigh, d, d');
  }

  lemma AddRecordTwins(live: Env, dry: Env, a: State, b: State, s: Id, dest: Db)
    requires SameJob(live, dry) && Twins(a, b, dest) && s in live.src
    ensures Twins(AddRecord(live, a, s), AddRecord(dry, b, s), dest)
  {
    AssignIdTwins(live, dry, a, b, s, dest);
  }

  lemma {:induction false} MaybeAddTwins(live: Env, dry: Env, a: State, b: State, s: Id, already: set<Id>, dest: Db)
    requires SameJob(live, dry) && Twins(a, b, dest)
    ensures var ra, rb := MaybeAdd(live, a, s, already), MaybeAdd(dry, b, s, already);
      rb.rc == ra.rc && rb.already == ra.already && Twins(ra.st, rb.st, dest)
    decreases live.src.Keys - already, 0
  {
    if s !in already && s !in a.s2d && s in live.src && !live.src[s].mtype.File? {
      var kids, now := live.src[s].children, already + {s};
      MaybeAddAllTwins(live, dry, a, b, kids, now, dest);
      var ra, rb := MaybeAddAll(live, a, kids, now), MaybeAddAll(dry, b, kids, now);
      AddRecordTwins(live, dry, ra.st, rb.st, s, dest);
    }
  }

  lemma {:induction false} MaybeAddAllTwins(live: Env, dry: Env, a: State, b: State, ss: seq<Id>, already: set<Id>, dest: Db)
    requires SameJob(live, dry) && Twins(a, b, dest)
    ensures var ra, rb := MaybeAddAll(live, a, ss, already), MaybeAddAll(dry, b, ss, already);
      rb.rc == ra.rc && rb.already == ra.already && Twins(ra.st, rb.st, dest)
    decreases live.src.Keys - already, 1 + |ss|
  {
    if ss != [] {
      MaybeAddTwins(live, dry, a, b, ss[0], already, dest);
      var ra, rb := MaybeAdd(live, a, ss[0], already), MaybeAdd(dry, b, ss[0], already);
      if ra.rc == 0 {
        MaybeAddAllTwins(live, dry, ra.st, rb.st, ss[1..], ra.already, dest);
      }
    }
  }

  lemma {:induction false} TouchAllDomains(m: map<Id, Id>, m': map<Id, Id>, ss: seq<Id>)
    requires SameDomains(m, m')
    ensures SameDomains(TouchAll(m, ss), TouchAll(m', ss))
    decreases ss
  {
    if ss != [] { TouchAllDomains(Touch(m, ss[0]), Touch(m', ss[0]), ss[1..]); }
  }

  lemma CopyItemTwins(live: Env, dry: Env, a: State, b: State, phase: Phase, s: Id, num: nat, denom: nat, dest: Db)
    requires SameJob(live, dry) && Twins(a, b, dest)
    requires CopyItem(live, a, phase, s, num, denom).rc == 0
    ensures CopyItem(dry, b, phase, s, num, denom).rc == 0
    ensures Twins(CopyItem(live, a, phase, s, num, denom).st, CopyItem(dry, b, phase, s, num, denom).st, dest)
  {
    if s in live.src {
      TouchAllDomains(Touch(a.s2d, s), Touch(b.s2d, s), live.src[s].children);
    }
  }

  lemma {:induction false} CopyItemsTwins(live: Env, dry: Env, a: State, b: State, phase: Phase, items: seq<Id>, k: nat, dest: Db)
    requires SameJob(live, dry) && Twins(a, b, dest) && k <= |items|
    requires CopyItems(live, a, phase, items, k).rc == 0
    ensures CopyItems(dry, b, phase, items, k).rc == 0
    ensures Twins(CopyItems(live, a, phase, items, k).st, CopyItems(dry, b, phase, items, k).st, dest)
    decreases |items| - k
  {
    if k < |items| {
      CopyItemTwins(live, dry, a, b, phase, items[k], k, |items|, dest);
      CopyItemsTwins(live, dry, CopyItem(live, a, phase, items[k], k, |items|).st,
                     CopyItem(dry, b, phase, items[k], k, |items|).st, phase, items, k + 1, dest);
    }
  }

  ghost predicate OutcomeTwins(ra: Outcome, rb: Outcome, dest: Db) {
    ra.rc == 0 ==> rb.rc == 0 && Twins(ra.st, rb.st, dest)
  }

  lemma CopyPhaseTwins(live: Env, dry: Env, ra: Outcome, rb: Outcome, phase: Phase, dest: Db)
    requires SameJob(live, dry) && OutcomeTwins(ra, rb, dest)
    ensures OutcomeTwins(CopyPhase(live, ra, phase), CopyPhase(dry, rb, phase), dest)
  {
    if CopyPhase(live, ra, phase).rc == 0 {
      CopyItemsTwins(live, dry, ra.st, rb.st, phase, Items(ra.st, phase), 0, dest);
    }
  }

  lemma PlanTwins(live: Env, dry: Env, st: State)
    requires SameJob(live, dry)
    ensures OutcomeTwins(Plan(live, st), Plan(dry, st), st.dest)
  {
    var c := Check(live.src, Start(st), ROOT, ROOT, false);
    if c.rc == 0 {
      var doomed := Ordering.Ascending(c.st.maybeDelete);
      MaybeDeleteAllTwins(live, dry, c.st, c.st, doomed, {});
      var a, b := MaybeDeleteAll(live, c.st, doomed, {}), MaybeDeleteAll(dry, c.st, doomed, {}).st;
      if a.rc == 0 { MaybeAddAllTwins(live, dry, a.st, b, Ordering.Ascending(a.st.maybeAdd), {}, st.dest); }
    }
  }

  /** On any two databases, from any state: if the real run succeeds then the dry run succeeds
      with the same statistics and the same calls on its observers, and changes no record. */
  lemma DryRunPredicts(live: Env, dry: Env, st: State)
    requires SameJob(live, dry) && Synchronise(live, st).rc == 0
    ensures var ra, rb := Synchronise(live, st), Synchronise(dry, st);
      rb.rc == 0 && rb.st.stats == ra.st.stats && rb.st.events == ra.st.events && rb.st.dest == st.dest
  {
    var a0, b0 := Plan(live, st), Plan(dry, st);
    PlanTwins(live, dry, st);
    CopyPhaseTwins(live, dry, a0, b0, AmendPlaylists, st.dest);
    var a1, b1 := CopyPhase(live, a0, AmendPlaylists), CopyPhase(dry, b0, AmendPlaylists);
    CopyPhaseTwins(live, dry, a1, b1, AddPlaylists, st.dest);
    var a2, b2 := CopyPhase(live, a1, AddPlaylists), CopyPhase(dry, b1, AddPlaylists);
    CopyPhaseTwins(live, dry, a2, b2, AddTunes, st.dest);
    CopyPhaseTwins(live, dry, CopyPhase(live, a2, AddTunes), CopyPhase(dry, b2, AddTunes), AmendTunes, st.dest);
  }

  lemma {:induction false} DryCopyKeepsDest(env: Env, st: State, phase: Phase, items: seq<Id>, k: nat)
    requires env.dry && k <= |items|
    ensures CopyItems(env, st, phase, items, k).st.dest == st.dest
    decreases |items| - k
  {
    if k < |items| {
      DryCopyKeepsDest(env, CopyItem(env, st, phase, items[k], k, |items|).st, phase, items, k + 1);
    }
  }

  lemma DryCopyAllKeepsDest(env: Env, r: Outcome)
    requires env.dry
    ensures CopyAll(env, r).st.dest == r.st.dest
  {
    DryCopyKeepsDest(env, r.st, AmendPlaylists, Items(r.st, AmendPlaylists), 0);
    var r1 := CopyPhase(env, r, AmendPlaylists);
    DryCopyKeepsDest(env, r1.st, AddPlaylists, Items(r1.st, AddPlaylists), 0);
    var r2 := CopyPhase(env, r1, AddPlaylists);
    DryCopyKeepsDest(env, r2.st, AddTunes, Items(r2.st, AddTunes), 0);
    var r3 := CopyPhase(env, r2, AddTunes);
    DryCopyKeepsDest(env, r3.st, AmendTunes, Items(r3.st, AmendTunes), 0);
  }

  lemma NothingRemoved(env: Env, st: State, already: set<Id>, r: Pruned)
    requires env.dry && DeletedWell(env, st, already, r)
    ensures r.st.dest == st.dest
  {
    assert forall d :: d in st.dest ==> d in r.st.dest;
  }

  lemma DryPlanKeepsDest(env: Env, st: State)
    requires env.dry
    ensures Plan(env, st).st.dest == st.dest
  {
    var c := Check(env.src, Start(st), ROOT, ROOT, false);
    var doomed := Ordering.Ascending(c.st.maybeDelete);
    MaybeDeleteAllWell(env, c.st, doomed, {});
    var del := MaybeDeleteAll(env, c.st, doomed, {});
    NothingRemoved(env, c.st, {}, del);
    MaybeAddAllDeletesNothing(env, del.st, Ordering.Ascending(del.st.maybeAdd), {});
  }

  /** A dry run changes no record, whether or not it succeeds. */
  lemma DryRunKeepsDestination(env: Env, st: State)
    requires env.dry
    ensures Synchronise(env, st).st.dest == st.dest
  {
    DryPlanKeepsDest(env, st);
    DryCopyAllKeepsDest(env, Plan(env, st));
  }
}
