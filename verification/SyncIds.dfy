/** What the two allocators make of a run: when the ids they give it are as it needs them. */
module SyncIds {
  import A = AllocateId
  import opened SyncModel
  import opened SyncMatch
  import opened SyncAdd
  import opened SyncPlan
  import opened SyncMirror
  import opened SyncTunes

  /** A run of `n` takes. */
  function Takes(n: nat): seq<A.Op> {
    seq(n, _ => A.TakeId)
  }

  /** The Empeg's allocator gives fresh ids, however many are taken. */
  lemma SixteensAreFresh(env: Env, left: Db, gap: A.Gap, n: nat)
    requires gap.begin > 0
    requires var st := A.State(gap, left.Keys, {});
      && A.Safe16(st) && A.Possible16(st, Takes(n))
      && forall i :: 0 <= i < |A.Taken16(st, Takes(n))| ==> env.alloc(i) == A.Taken16(st, Takes(n))[i]
    ensures FreshIds(env, left, n)
  {
    var st := A.State(gap, left.Keys, {});
    A.Run16Increasing(st, Takes(n));
    A.TakenOutside(st, Takes(n));
  }

  /** The plain one does exactly while no more are taken than the first gap it finds has. */
  lemma PlainAreFresh(env: Env, left: Db, gap: A.Gap, m: Id, n: nat)
    requires gap.Used() && A.Room(A.State(gap, left.Keys, {}))
    requires m in left && m <= gap.end + 1
    requires forall i :: 0 <= i < n ==> env.alloc(i) == A.Nth(gap, left.Keys, i)
    ensures var g := A.NewGap(gap, left.Keys);
      FreshIds(env, left, n) <==> n <= g.end - g.begin
  {
    A.TakesLast(gap, left.Keys, m);
    var g := A.NewGap(gap, left.Keys);
    if n > g.end - g.begin {
      assert env.alloc(0) == A.Nth(gap, left.Keys, 0) == g.begin == env.alloc(g.end - g.begin);
    }
  }

  /* Whole runs */

  /** The ids that a run is given are those that the Empeg's allocator gives from `gap` on. */
  ghost predicate FromSixteens(env: Env, dest: Db, gap: A.Gap) {
    var st := Plan(env, Fresh(dest)).st;
    var ids, ops := A.State(gap, st.dest.Keys, {}), Takes(st.idsTaken);
    A.Possible16(ids, ops) && forall i :: 0 <= i < |A.Taken16(ids, ops)| ==> env.alloc(i) == A.Taken16(ids, ops)[i]
  }

  /** The ids that a run is given are those that the plain allocator gives from `gap` on. */
  ghost predicate FromPlain(env: Env, dest: Db, gap: A.Gap) {
    var st := Plan(env, Fresh(dest)).st;
    && A.Room(A.State(gap, st.dest.Keys, {}))
    && forall i :: 0 <= i < st.idsTaken ==> env.alloc(i) == A.Nth(gap, st.dest.Keys, i)
  }

  /** What a run takes from the Empeg's allocator is as it needs it, deletions or not. */
  lemma SixteensAreGiven(env: Env, dest: Db, gap: A.Gap)
    requires GoodSource(env.src) && Rooted(dest)
    requires gap.begin > 0 && A.Safe16(A.State(gap, dest.Keys, {})) && FromSixteens(env, dest, gap)
    ensures GivenFresh(env, dest)
  {
    var st := Plan(env, Fresh(dest)).st;
    PlanLeaves(env, dest);
    SixteensAreFresh(env, st.dest, gap, st.idsTaken);
  }

  /** What it takes from the plain one is exactly while the first gap that is found, when the
      deletions are done, has room for all of it. */
  lemma PlainAreGiven(env: Env, dest: Db, gap: A.Gap)
    requires GoodSource(env.src) && Rooted(dest)
    requires gap.Used() && ROOT <= gap.end + 1 && FromPlain(env, dest, gap)
    ensures var st := Plan(env, Fresh(dest)).st;
      var g := A.NewGap(gap, st.dest.Keys);
      GivenFresh(env, dest) <==> st.idsTaken <= g.end - g.begin
  {
    var st := Plan(env, Fresh(dest)).st;
    PlanLeaves(env, dest);
    PlainAreFresh(env, st.dest, gap, ROOT, st.idsTaken);
  }

  /** So a run to an Empeg fails exactly when one of its calls does or something to be added is missing;
      and when it has finished, the destination has a record of its own for each item, shows the source
      as it is, and has its items up to date exactly when what matching made share a record allows each
      of these, what is added is of kinds that are copied, and for the first two no list that is kept
      names a record that the run makes. */
  lemma EmpegRun(env: Env, dest: Db, gap: A.Gap)
    requires GoodSource(env.src) && Rooted(dest)
    requires gap.begin > 0 && A.Safe16(A.State(gap, dest.Keys, {})) && FromSixteens(env, dest, gap)
    ensures var r, matched := Synchronise(env, Fresh(dest)), Matched(env.src, dest);
      && (r.rc == 0 <==> NothingFails(env, r.st) && AddsThere(env.src, dest))
      && (r.rc == 0 && !env.dry ==>
            && (Mirror(env.src, r.st.dest, r.st.s2d)
                <==> Injective(matched) && KeptClean(env, dest) && AddsCopied(env, dest))
            && (Reflects(env.src, r.st.dest, r.st.s2d)
                <==> SharedListsAgree(env.src, matched) && KeptClean(env, dest) && AddsCopied(env, dest))
            && (ItemsUpToDate(env.src, r.st.dest, r.st.s2d) <==> SharedAgree(env.src, matched) && AddsCopied(env, dest)))
    ensures ListsWanted(dest) ==> KeptClean(env, dest)
  {
    SixteensAreGiven(env, dest, gap);
    SynchroniseMirrors(env, dest);
    if Synchronise(env, Fresh(dest)).rc == 0 && !env.dry {
      SynchroniseReflects(env, dest);
      SynchroniseCopiesItems(env, dest);
    }
    if ListsWanted(dest) { WantedClean(env, dest); }
  }
}
