/** What the addition phase establishes: every item that must be present has a destination id. */
module SyncAdd {
  import opened SyncModel
  import opened SyncMatch

  /** The first `n` ids that are allocated differ from each other. */
  ghost predicate DistinctIds(env: Env, n: nat) {
    forall i, j :: 0 <= i < n && 0 <= j < n && env.alloc(i) == env.alloc(j) ==> i == j
  }

  /** They are also non-zero and not in `left`. */
  ghost predicate FreshIds(env: Env, left: Db, n: nat) {
    && DistinctIds(env, n)
    && forall i :: 0 <= i < n ==> env.alloc(i) != 0 && env.alloc(i) !in left
  }

  /** Only items of the source are mapped, and files that are no media items to 0. */
  ghost predicate Sourced(src: Db, s2d: map<Id, Id>) {
    forall s :: s in s2d ==> s in src && (src[s].mtype.File? ==> s2d[s] == 0)
  }

  /** Every id in use leads back to an item that has it. */
  ghost predicate Backed(s2d: map<Id, Id>, d2s: map<Id, Id>) {
    && (forall s :: s in s2d && s2d[s] != 0 ==> s2d[s] in d2s)
    && (forall d :: d in d2s ==> d2s[d] in s2d && s2d[d2s[d]] == d)
  }

  ghost predicate Issued(env: Env, lo: nat, hi: nat, d: Id) {
    exists k :: lo <= k < hi && d == env.alloc(k)
  }

  /** A newly added item has a new id, is queued for copying, and all its children were visited. */
  ghost predicate Added(env: Env, st: State, r: Pruned, s: Id) {
    && s in r.st.s2d && s in env.src
    && (!env.src[s].mtype.File? ==>
          && Issued(env, st.idsTaken, r.st.idsTaken, r.st.s2d[s])
          && (env.src[s].IsComposite() ==> s in r.st.addPlaylist)
          && (env.src[s].IsItem() && env.src[s].IsCopied() ==> s in r.st.addTune)
          && forall c :: c in env.src[s].children ==> c in r.already)
  }

  ghost predicate AllAdded(env: Env, st: State, r: Pruned) {
    forall s {:trigger Added(env, st, r, s)} :: s in r.st.s2d && s !in st.s2d ==> Added(env, st, r, s)
  }

  /** No two items of `now` that were not in `was` have one id. */
  ghost predicate NewApart(was: map<Id, Id>, now: map<Id, Id>) {
    forall s, s' :: s in now && s !in was && s' in now && s' !in was && now[s] == now[s'] != 0 ==> s == s'
  }

  ghost predicate Unadded(st: State, st': State) {
    && st'.dest == st.dest && st'.maybeAdd == st.maybeAdd
    && st'.amendPlaylist == st.amendPlaylist && st'.amendMetadata == st.amendMetadata
    && Extends(st.s2d, st'.s2d) && st.idsTaken <= st'.idsTaken
    && (forall s :: s in st.addPlaylist ==> s in st'.addPlaylist)
    && st.addTune <= st'.addTune
  }

  ghost predicate QueuedOnlyNew(env: Env, st: State, st': State)
    requires forall s :: s in st'.s2d ==> s in env.src
  {
    && (forall s :: s in st'.addPlaylist && s !in st.addPlaylist ==>
          s in st'.s2d && s !in st.s2d && env.src[s].IsComposite())
    && (forall s :: s in st'.addTune && s !in st.addTune ==>
          s in st'.s2d && s !in st.s2d && env.src[s].IsItem() && env.src[s].IsCopied())
  }

  ghost predicate AddedWell(env: Env, st: State, already: set<Id>, r: Pruned) {
    && r.rc == 0 && already <= r.already
    && Sourced(env.src, r.st.s2d)
    && (Backed(st.s2d, st.d2s) ==> Backed(r.st.s2d, r.st.d2s))
    && Unadded(st, r.st)
    && (forall s :: s in r.already && s !in already ==> s in r.st.s2d)
    && (forall s :: s in r.st.s2d && s !in st.s2d ==> s in r.already && s !in already)
    && AllAdded(env, st, r)
    && (DistinctIds(env, r.st.idsTaken) ==> NewApart(st.s2d, r.st.s2d))
    && QueuedOnlyNew(env, st, r.st)
  }

  lemma IssuedWider(env: Env, lo: nat, hi: nat, lo': nat, hi': nat, d: Id)
    requires Issued(env, lo, hi, d) && lo' <= lo && hi <= hi'
    ensures Issued(env, lo', hi', d)
  {
  }

  lemma AllAddedTrans(env: Env, st: State, r1: Pruned, r2: Pruned)
    requires AllAdded(env, st, r1) && AllAdded(env, r1.st, r2) && Unadded(st, r1.st) && Unadded(r1.st, r2.st)
    requires r1.already <= r2.already
    ensures AllAdded(env, st, r2)
  {
    forall s | s in r2.st.s2d && s !in st.s2d ensures Added(env, st, r2, s) {
      if s in r1.st.s2d {
        assert Added(env, st, r1, s);
      } else {
        assert Added(env, r1.st, r2, s);
      }
    }
  }

  /** Ids issued at different times are different. */
  lemma NewApartTrans(env: Env, st: State, r1: Pruned, r2: Pruned)
    requires DistinctIds(env, r2.st.idsTaken) && r1.st.idsTaken <= r2.st.idsTaken
    requires Extends(r1.st.s2d, r2.st.s2d) && Sourced(env.src, r2.st.s2d)
    requires AllAdded(env, st, r1) && AllAdded(env, r1.st, r2)
    requires NewApart(st.s2d, r1.st.s2d) && NewApart(r1.st.s2d, r2.st.s2d)
    ensures NewApart(st.s2d, r2.st.s2d)
  {
    forall s, s' | s in r2.st.s2d && s !in st.s2d && s' in r2.st.s2d && s' !in st.s2d && r2.st.s2d[s] == r2.st.s2d[s'] != 0
      ensures s == s'
    {
      assert s in r1.st.s2d ==> Added(env, st, r1, s);
      assert s !in r1.st.s2d ==> Added(env, r1.st, r2, s);
      assert s' in r1.st.s2d ==> Added(env, st, r1, s');
      assert s' !in r1.st.s2d ==> Added(env, r1.st, r2, s');
    }
  }

  lemma AddedTrans(env: Env, st: State, already: set<Id>, r1: Pruned, r2: Pruned)
    requires AddedWell(env, st, already, r1) && AddedWell(env, r1.st, r1.already, r2)
    ensures AddedWell(env, st, already, r2)
  {
    AllAddedTrans(env, st, r1, r2);
    if DistinctIds(env, r2.st.idsTaken) { NewApartTrans(env, st, r1, r2); }
  }

  /** What recording one item without a high-quality version does to the state. */
  ghost predicate Recorded(env: Env, st: State, s: Id, st': State)
    requires s in env.src
  {
    && st'.dest == st.dest && st'.maybeAdd == st.maybeAdd
    && st'.amendPlaylist == st.amendPlaylist && st'.amendMetadata == st.amendMetadata
    && st'.idsTaken == st.idsTaken + 1
    && st'.s2d == st.s2d[s := env.alloc(st.idsTaken)] && st'.d2s == st.d2s[env.alloc(st.idsTaken) := s]
    && st'.addPlaylist == (if env.src[s].IsComposite() then st.addPlaylist + [s] else st.addPlaylist)
    && st'.addTune == (if env.src[s].IsItem() && env.src[s].IsCopied() then st.addTune + {s} else st.addTune)
  }

  lemma AddRecordRecords(env: Env, st: State, s: Id)
    requires s in env.src && Untwinned(env.src, s)
    ensures Recorded(env, st, s, AddRecord(env, st, s))
  {
  }

  lemma RecordQueues(env: Env, st: State, s: Id, mid: State, end: State)
    requires s in env.src && s !in st.s2d && Recorded(env, mid, s, end)
    requires (forall x :: x in mid.s2d ==> x in env.src) && Unadded(st, mid) && QueuedOnlyNew(env, st, mid)
    requires s !in mid.s2d
    ensures QueuedOnlyNew(env, st, end) && Unadded(st, end)
    ensures forall x :: x in mid.addPlaylist ==> x in end.addPlaylist
    ensures env.src[s].IsComposite() ==> s in end.addPlaylist
  {
    assert forall x :: x in end.addPlaylist <==> x in mid.addPlaylist || (x == s && env.src[s].IsComposite());
  }

  lemma RecordAdded(env: Env, st: State, s: Id, r: Pruned, r': Pruned)
    requires s in env.src && s !in st.s2d && s !in r.st.s2d && Recorded(env, r.st, s, r'.st)
    requires AllAdded(env, st, r) && r'.already == r.already && st.idsTaken <= r.st.idsTaken
    requires forall x :: x in r.st.addPlaylist ==> x in r'.st.addPlaylist
    requires env.src[s].IsComposite() ==> s in r'.st.addPlaylist
    requires forall c :: c in env.src[s].children ==> c in r.already
    ensures AllAdded(env, st, r')
  {
    assert Issued(env, st.idsTaken, r'.st.idsTaken, env.alloc(r.st.idsTaken));
    forall x | x in r'.st.s2d && x !in st.s2d ensures Added(env, st, r', x) {
      if x != s {
        assert Added(env, st, r, x);
      }
    }
  }

  lemma RecordBacked(s2d: map<Id, Id>, d2s: map<Id, Id>, s: Id, d: Id)
    requires Backed(s2d, d2s) && s !in s2d
    ensures Backed(s2d[s := d], d2s[d := s])
  {
  }

  lemma RecordApart(env: Env, st: State, s: Id, r: Pruned, end: State)
    requires DistinctIds(env, end.idsTaken) && s in env.src && s !in r.st.s2d && Recorded(env, r.st, s, end)
    requires AllAdded(env, st, r) && NewApart(st.s2d, r.st.s2d) && Sourced(env.src, r.st.s2d)
    ensures NewApart(st.s2d, end.s2d)
  {
    forall x | x in r.st.s2d && x !in st.s2d && r.st.s2d[x] != 0 ensures r.st.s2d[x] != end.s2d[s] {
      assert Added(env, st, r, x);
    }
  }

  /** Recording `s` itself, after its children. */
  lemma RecordWell(env: Env, st: State, s: Id, already: set<Id>, r: Pruned, end: State)
    requires s in env.src && !env.src[s].mtype.File? && s !in already && s !in st.s2d
    requires AddedWell(env, st, already + {s}, r) && Recorded(env, r.st, s, end)
    requires forall c :: c in env.src[s].children ==> c in r.already
    ensures AddedWell(env, st, already, Pruned(0, end, r.already))
  {
    assert s !in r.st.s2d;
    RecordQueues(env, st, s, r.st, end);
    RecordAdded(env, st, s, r, Pruned(0, end, r.already));
    if Backed(r.st.s2d, r.st.d2s) { RecordBacked(r.st.s2d, r.st.d2s, s, end.s2d[s]); }
    if DistinctIds(env, end.idsTaken) { RecordApart(env, st, s, r, end); }
  }

  /** A file that is no media item is mapped to nothing. */
  lemma FileAdded(env: Env, st: State, s: Id, already: set<Id>)
    requires Sourced(env.src, st.s2d) && s in env.src && env.src[s].mtype.File? && s !in already && s !in st.s2d
    ensures AddedWell(env, st, already, Pruned(0, st.(s2d := st.s2d[s := 0]), already + {s}))
  {
    var r := Pruned(0, st.(s2d := st.s2d[s := 0]), already + {s});
    assert Added(env, st, r, s);
  }

  lemma {:induction false} MaybeAddWell(env: Env, st: State, s: Id, already: set<Id>)
    requires UntwinnedSource(env.src) && Sourced(env.src, st.s2d)
    ensures var r := MaybeAdd(env, st, s, already); r.rc == 0 ==> AddedWell(env, st, already, r)
    decreases env.src.Keys - already, 0
  {
    if s !in already && s !in st.s2d && s in env.src {
      if env.src[s].mtype.File? {
        FileAdded(env, st, s, already);
      } else {
        var kids := env.src[s].children;
        assert Untwinned(env.src, s);
        MaybeAddAllWell(env, st, kids, already + {s});
        var r := MaybeAddAll(env, st, kids, already + {s});
        if r.rc == 0 {
          AddRecordRecords(env, r.st, s);
          RecordWell(env, st, s, already, r, AddRecord(env, r.st, s));
        }
      }
    }
  }

  lemma {:induction false} MaybeAddAllWell(env: Env, st: State, ss: seq<Id>, already: set<Id>)
    requires UntwinnedSource(env.src) && Sourced(env.src, st.s2d)
    ensures var r := MaybeAddAll(env, st, ss, already);
      r.rc == 0 ==> AddedWell(env, st, already, r) && forall s :: s in ss ==> s in r.already
    decreases env.src.Keys - already, 1 + |ss|
  {
    if ss != [] {
      MaybeAddWell(env, st, ss[0], already);
      var r := MaybeAdd(env, st, ss[0], already);
      if r.rc == 0 {
        MaybeAddAllWell(env, r.st, ss[1..], r.already);
        var r' := MaybeAddAll(env, r.st, ss[1..], r.already);
        if r'.rc == 0 { AddedTrans(env, st, already, r, r'); }
      }
    }
  }

  /* When adding fails */

  /** What `a` has that is not mapped is there, with all that it lists. */
  ghost predicate Complete(src: Db, was: map<Id, Id>, a: set<Id>) {
    forall s :: s in a && s !in was ==>
      s in src && (!src[s].mtype.File? ==> forall c :: c in src[s].children ==> c in a)
  }

  lemma {:induction false} MaybeAddFinds(env: Env, st: State, s: Id, already: set<Id>, was: map<Id, Id>, a: set<Id>)
    requires Complete(env.src, was, a) && s in a && was.Keys <= st.s2d.Keys
    ensures var r := MaybeAdd(env, st, s, already); r.rc == 0 && was.Keys <= r.st.s2d.Keys
    decreases env.src.Keys - already, 0
  {
    if s !in already && s !in st.s2d && !env.src[s].mtype.File? {
      MaybeAddAllFinds(env, st, env.src[s].children, already + {s}, was, a);
    }
  }

  lemma {:induction false} MaybeAddAllFinds(env: Env, st: State, ss: seq<Id>, already: set<Id>, was: map<Id, Id>, a: set<Id>)
    requires Complete(env.src, was, a) && (forall s :: s in ss ==> s in a) && was.Keys <= st.s2d.Keys
    ensures var r := MaybeAddAll(env, st, ss, already); r.rc == 0 && was.Keys <= r.st.s2d.Keys
    decreases env.src.Keys - already, 1 + |ss|
  {
    if ss != [] {
      MaybeAddFinds(env, st, ss[0], already, was, a);
      var r := MaybeAdd(env, st, ss[0], already);
      MaybeAddAllFinds(env, r.st, ss[1..], r.already, was, a);
    }
  }

  /** Adding fails exactly when an item is missing that would be added, or is listed by one that would be. */
  lemma MaybeAddAllFails(env: Env, st: State, ss: seq<Id>)
    requires UntwinnedSource(env.src) && Sourced(env.src, st.s2d)
    ensures MaybeAddAll(env, st, ss, {}).rc == 0 <==>
      exists a: set<Id> :: Complete(env.src, st.s2d, a) && forall s :: s in ss ==> s in a
  {
    var r := MaybeAddAll(env, st, ss, {});
    if a: set<Id> :| Complete(env.src, st.s2d, a) && forall s :: s in ss ==> s in a {
      MaybeAddAllFinds(env, st, ss, {}, st.s2d, a);
    }
    if r.rc == 0 {
      MaybeAddAllWell(env, st, ss, {});
      forall s | s in r.already && s !in st.s2d ensures s in env.src
        && (!env.src[s].mtype.File? ==> forall c :: c in env.src[s].children ==> c in r.already)
      {
        assert Added(env, st, r, s);
      }
      assert Complete(env.src, st.s2d, r.already);
    }
  }
}
