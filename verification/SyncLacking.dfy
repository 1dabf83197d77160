/** Two runs that do not show the source as it is though each destination lists a record once at most.
    In one a list names a record which is not there: its id is given to a new record, and the list,
    which needs no amending, then names that.  In the other an item of a kind that is not copied is
    given an id, and no record. */
module SyncLacking {
  import opened Ordering
  import opened EditScript
  import opened SyncModel
  import opened SyncMatch
  import opened SyncTree
  import opened SyncAdd
  import opened SyncPlan
  import opened SyncLists
  import opened SyncMirror

  const SOURCE := map[ROOT := BLANK.(mtype := Dir, children := [7]), 7 := BLANK.(mtype := Dir, title := "q", children := [8]),
                      8 := BLANK.(mtype := Tune, title := "t")]
  const LACKING := map[ROOT := BLANK.(mtype := Dir, children := [6, 0x130]), 6 := BLANK.(mtype := Dir, title := "q")]

  /* Matching */

  ghost predicate Containers(src: Db, dest: Db, s: Id, d: Id) {
    s in src && src[s].IsComposite() && d in dest && dest[d].IsComposite()
  }

  /** A container that lists one item, matched to one that lists nothing. */
  lemma NewKid(src: Db, st: State, s: Id, d: Id, t: Id, amend: bool)
    requires SeenAreMapped(st) && s !in st.seen && Containers(src, st.dest, s, d)
    requires Kids(src, s) == [t] && Kids(st.dest, d) == []
    ensures Check(src, st, s, d, amend)
      == Checked(0, st.(seen := st.seen + {s}, s2d := st.s2d[s := d], d2s := st.d2s[d := s],
                        maybeAdd := st.maybeAdd + {t}, amendPlaylist := st.amendPlaylist + {s}), amend)
  {
    var m := Match(src, st.dest, s, d);
    var st1 := Pair(src, st.(seen := st.seen + {s}), s, d).0;
    AlignedStep(src, st.dest, m, 0, 0);
    AlignedStep(src, st.dest, m, 1, 0);
    var st2 := st1.(maybeAdd := st1.maybeAdd + {t});
    assert Walk(src, st1, m, 0, 0, false) == Walk(src, st2, m, 1, 0, true) == Checked(0, st2, true);
  }

  /** Two containers that list one item each, of the same name. */
  lemma SameKid(src: Db, st: State, s: Id, d: Id, t: Id, u: Id, amend: bool)
    requires SeenAreMapped(st) && s !in st.seen && Containers(src, st.dest, s, d)
    requires Match(src, st.dest, s, d) == Matching([t], [u], Script(0, {}, {}))
    ensures var st1 := st.(seen := st.seen + {s}, s2d := st.s2d[s := d], d2s := st.d2s[d := s]);
      var c := Check(src, st1, t, u, false);
      c.rc == 0 && !c.amend ==> Check(src, st, s, d, amend) == Checked(0, c.st, amend)
  {
    var m := Match(src, st.dest, s, d);
    var st1 := Pair(src, st.(seen := st.seen + {s}), s, d).0;
    WalkCompared(src, st1, m, 0, 0, false);
    var c := Check(src, st1, t, u, false);
    if c.rc == 0 && !c.amend { assert Walk(src, c.st, m, 1, 1, false) == Checked(0, c.st, false); }
  }

  lemma LackingLists()
    ensures Kids(SOURCE, ROOT) == [7] && Kids(SOURCE, 7) == [8] && Kids(LACKING, ROOT) == [6] && Kids(LACKING, 6) == []
    ensures Match(SOURCE, LACKING, ROOT, ROOT) == Matching([7], [6], Script(0, {}, {}))
  {
    assert Named(SOURCE, [7][1..]) == [] && Named(SOURCE, [8][1..]) == [] && Named(LACKING, [6, 0x130][1..][1..]) == [];
    assert [6, 0x130][1..] == [0x130];
    assert Named(LACKING, [0x130]) == [];
    var names := Names(LACKING, [6]);
    assert names == Names(SOURCE, [7]);
    DiffOfEqual(names, 1);
  }

  /** Matching leaves the root as it is: only what lists the tune is to be amended. */
  lemma Matches() returns (m: State)
    ensures Check(SOURCE, Start(Fresh(LACKING)), ROOT, ROOT, false) == Checked(0, m, false)
    ensures m == Start(Fresh(LACKING)).(seen := {ROOT, 7}, s2d := map[ROOT := ROOT, 7 := 6], d2s := map[ROOT := ROOT, 6 := 7],
                                        maybeAdd := {8}, amendPlaylist := {7})
  {
    LackingLists();
    var st := Start(Fresh(LACKING));
    var st1 := st.(seen := st.seen + {ROOT}, s2d := st.s2d[ROOT := ROOT], d2s := st.d2s[ROOT := ROOT]);
    NewKid(SOURCE, st1, 7, 6, 8, false);
    SameKid(SOURCE, st, ROOT, ROOT, 7, 6, false);
    m := Check(SOURCE, st1, 7, 6, false).st;
  }

  /* Planning */

  /** A plan that deletes nothing and adds one item. */
  lemma OneAdded(env: Env, m: State, t: Id)
    requires m.maybeDelete == {} && m.maybeAdd == {t} && t !in m.s2d && t in env.src
    requires env.src[t].IsItem() && env.src[t].children == [] && env.src[t].idHigh == 0
    ensures var del := MaybeDeleteAll(env, m, Ascending(m.maybeDelete), {});
      && del.rc == 0 && del.st == m
      && var r := MaybeAddAll(env, m, Ascending(m.maybeAdd), {});
      r.rc == 0 && r.st == AddRecord(env, m, t)
  {
    AscendingElements({t});
    IncreasingUnique(Ascending({t}), [t]);
    assert [t][1..] == [];
    assert MaybeAdd(env, m, t, {}) == Pruned(0, AddRecord(env, m, t), {t});
  }

  ghost predicate IsPlan(st: State) {
    && st.dest == LACKING && st.s2d == map[ROOT := ROOT, 7 := 6, 8 := 0x130] && st.idsTaken == 1
    && st.amendPlaylist == {7} && st.addTune == {8} && st.amendMetadata == {}
  }

  lemma TuneAdded(env: Env, m: State)
    requires env.src == SOURCE && env.alloc(0) == 0x130
    requires m == Start(Fresh(LACKING)).(seen := {ROOT, 7}, s2d := map[ROOT := ROOT, 7 := 6], d2s := map[ROOT := ROOT, 6 := 7],
                                         maybeAdd := {8}, amendPlaylist := {7})
    ensures IsPlan(AddRecord(env, m, 8))
  {
  }

  /** All that the run is given is the one id, which the root's list names. */
  lemma LackingPlan(env: Env)
    requires env.src == SOURCE && env.alloc(0) == 0x130
    ensures IsPlan(Plan(env, Fresh(LACKING)).st)
  {
    var m := Matches();
    TuneAdded(env, m);
    OneAdded(env, m, 8);
  }

  /** The root is left alone, and its list names the tune's new record. */
  lemma PlanUnclean(st: State)
    requires IsPlan(st)
    ensures !Clean(LACKING, st, ROOT)
  {
    assert Unwritten(st, ROOT) && Lookup(st.s2d, 8) == 0x130;
  }

  lemma LackingIsTree()
    ensures GoodSource(SOURCE) && Tree(LACKING)
  {
    LackingLists();
    assert forall y, k, x {:trigger SyncTree.Lists(LACKING, y, k, x)} ::
        SyncTree.Lists(LACKING, y, k, x) ==> y == ROOT && k == 0 && x == 6;
  }

  lemma LackingUnclean(env: Env)
    requires env.src == SOURCE && env.alloc(0) == 0x130
    ensures GivenFresh(env, LACKING) && !KeptClean(env, LACKING)
  {
    LackingPlan(env);
    PlanUnclean(Plan(env, Fresh(LACKING)).st);
  }

  lemma UncleanNeverReflects(env: Env, dest: Db)
    requires GoodSource(env.src) && Rooted(dest) && GivenFresh(env, dest) && !KeptClean(env, dest) && !env.dry
    requires Synchronise(env, Fresh(dest)).rc == 0
    ensures var end := Synchronise(env, Fresh(dest)).st; !Reflects(env.src, end.dest, end.s2d)
  {
    SynchroniseReflects(env, dest);
  }

  /** On a destination that lists each record once at most, with an id that is not in use, no finished
      run shows the source as it is: the tune turns up in the root as well. */
  lemma LackingNeverReflects(env: Env)
    requires env.src == SOURCE && env.alloc(0) == 0x130 && !env.dry && Synchronise(env, Fresh(LACKING)).rc == 0
    ensures Tree(LACKING) && GivenFresh(env, LACKING)
    ensures var end := Synchronise(env, Fresh(LACKING)).st; !Reflects(env.src, end.dest, end.s2d)
  {
    LackingIsTree();
    LackingUnclean(env);
    UncleanNeverReflects(env, LACKING);
  }

  /* A kind that is not copied */

  const PICTURE := map[ROOT := BLANK.(mtype := Dir, children := [7]), 7 := BLANK.(mtype := Image, title := "p")]
  const BARE := map[ROOT := BLANK.(mtype := Dir)]

  lemma PictureLists()
    ensures GoodSource(PICTURE) && Rooted(BARE) && Kids(PICTURE, ROOT) == [7] && Kids(BARE, ROOT) == []
  {
    assert Named(PICTURE, [7][1..]) == [];
  }

  lemma PicturePlan(env: Env)
    requires env.src == PICTURE && env.alloc(0) != 0 && env.alloc(0) != ROOT
    ensures GivenFresh(env, BARE) && !AddsCopied(env, BARE)
  {
    PictureLists();
    var st := Start(Fresh(BARE));
    NewKid(PICTURE, st, ROOT, ROOT, 7, false);
    var m := Check(PICTURE, st, ROOT, ROOT, false).st;
    assert m.maybeAdd == {7} && m.s2d == map[ROOT := ROOT];
    OneAdded(env, m, 7);
    assert Lookup(Plan(env, Fresh(BARE)).st.s2d, 7) == env.alloc(0);
  }

  /** No finished run makes a record for the id that the picture is given. */
  lemma PictureNeverReflects(env: Env)
    requires env.src == PICTURE && env.alloc(0) != 0 && env.alloc(0) != ROOT && !env.dry
    requires Synchronise(env, Fresh(BARE)).rc == 0
    ensures var end := Synchronise(env, Fresh(BARE)).st;
      && !Reflects(env.src, end.dest, end.s2d)
      && exists s :: Lookup(end.s2d, s) != 0 && Lookup(end.s2d, s) !in end.dest
  {
    PictureLists();
    PicturePlan(env);
    IdsLeadIfCopied(env, BARE);
    SynchroniseReflects(env, BARE);
  }
}
