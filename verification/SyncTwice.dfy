/** Destinations that list one record twice: one on which no run leaves every item a record of its
    own, and one on which no run even shows the source as it is. */
module SyncTwice {
  import opened EditScript
  import opened SyncModel
  import opened SyncMatch
  import opened SyncTree
  import opened SyncPlan
  import opened SyncMirror
  import opened SyncAgain

  /* Roots that list the same names */

  /** Every item that a walk comes to from place `i` on is mapped, and all that was. */
  ghost predicate MapsFrom(st: State, m: Matching, i: nat, w: Checked) {
    w.rc == 0 && Extends(st.s2d, w.st.s2d) && forall k :: i <= k < |m.srcIds| ==> m.srcIds[k] in w.st.s2d
  }

  /** One pair compared, and then the rest of the walk. */
  lemma MapsOneMore(env: Env, st: State, m: Matching, s: Id, d: Id, i: nat, amend: bool, c: Checked, w: Checked)
    requires i < |m.srcIds| && CheckedWell(env, st, s, d, amend, c) && m.srcIds[i] == s && MapsFrom(c.st, m, i + 1, w)
    ensures MapsFrom(st, m, i, w)
  {
  }

  /** Where the script is empty a walk maps every item that it comes to. */
  lemma {:induction false} WalkMapsAll(env: Env, st: State, m: Matching, s: Id, d: Id, i: nat, amend: bool)
    requires GoodSource(env.src) && Paired(env, st) && ROOT in st.s2d && m.script == Script(0, {}, {})
    requires m.srcIds == Kids(env.src, s) && m.destIds == Kids(st.dest, d) && Aligned(env.src, st.dest, m, i, i)
    ensures MapsFrom(st, m, i, Walk(env.src, st, m, i, i, amend))
    decreases |m.srcIds| - i
  {
    AlignedStep(env.src, st.dest, m, i, i);
    if i < |m.srcIds| {
      var s', d' := m.srcIds[i], m.destIds[i];
      KidsAlike(env, st, m, s, d, i, i);
      WalkCompared(env.src, st, m, i, i, amend);
      CheckMatches(env, st, s', d', amend);
      var c := Check(env.src, st, s', d', amend);
      WalkMapsAll(env, c.st, m, s, d, i + 1, c.amend);
      MapsOneMore(env, st, m, s', d', i, amend, c, Walk(env.src, c.st, m, i + 1, i + 1, c.amend));
    }
  }

  /** So matching maps all that the source's root lists if the two roots list the same names. */
  lemma RootKidsMatched(src: Db, dest: Db)
    requires GoodSource(src) && Rooted(dest)
    requires Match(src, dest, ROOT, ROOT) == Matching(Kids(src, ROOT), Kids(dest, ROOT), Script(0, {}, {}))
    ensures forall c :: c in Kids(src, ROOT) ==> c in Matched(src, dest) && Alike(src, dest, c, Matched(src, dest)[c])
  {
    var env := JustSource(src);
    var st := Start(Fresh(dest));
    var st1 := Pair(src, st.(seen := st.seen + {ROOT}), ROOT, ROOT).0;
    assert Untwinned(src, ROOT);
    PairAdds(env, st, ROOT, ROOT);
    PairOpens(env, st, ROOT, ROOT, st1);
    WalkMapsAll(env, st1, Match(src, dest, ROOT, ROOT), ROOT, ROOT, 0, false);
    CheckIsWalk(env, st, ROOT, ROOT, false);
    MatchingSettles(env, st);
  }

  /* Tunes */

  const TWO := map[ROOT := BLANK.(mtype := Dir, children := [7, 8]), 7 := BLANK.(mtype := Tune, title := "a"),
                   8 := BLANK.(mtype := Tune, title := "a")]
  const TWICE := map[ROOT := BLANK.(mtype := Dir, children := [5, 5]), 5 := BLANK.(mtype := Tune, title := "a")]

  lemma TwoMatching()
    ensures Kids(TWO, ROOT) == [7, 8] && Kids(TWICE, ROOT) == [5, 5]
    ensures Match(TWO, TWICE, ROOT, ROOT) == Matching([7, 8], [5, 5], Script(0, {}, {}))
  {
    assert Named(TWO, [7, 8][1..][1..]) == [] && Named(TWICE, [5, 5][1..][1..]) == [];
    assert [7, 8][1..] == [8] && [5, 5][1..] == [5];
    assert Named(TWO, [8]) == [8] && Named(TWICE, [5]) == [5];
    var names := Names(TWICE, [5, 5]);
    assert names == Names(TWO, [7, 8]);
    DiffOfEqual(names, 2);
  }

  lemma TwiceIsNoTree()
    ensures GoodSource(TWO) && !Tree(TWICE)
  {
    TwoMatching();
    assert Lists(TWICE, ROOT, 0, 5) && Lists(TWICE, ROOT, 1, 5);
  }

  /** There is one record that looks like either tune. */
  lemma OneLooksAlike(matched: map<Id, Id>)
    requires ROOT in matched && 7 in matched && 8 in matched
    requires forall s :: s in matched ==> Alike(TWO, TWICE, s, matched[s])
    ensures matched == map[ROOT := ROOT, 7 := 5, 8 := 5]
  {
    assert Alike(TWO, TWICE, ROOT, matched[ROOT]) && Alike(TWO, TWICE, 7, matched[7]) && Alike(TWO, TWICE, 8, matched[8]);
    assert forall s :: s in matched ==> s == ROOT || s == 7 || s == 8;
  }

  lemma TwiceMatched()
    ensures Matched(TWO, TWICE) == map[ROOT := ROOT, 7 := 5, 8 := 5]
  {
    TwoMatching();
    RootKidsMatched(TWO, TWICE);
    MatchingSettles(JustSource(TWO), Start(Fresh(TWICE)));
    assert 7 in Kids(TWO, ROOT) && 8 in Kids(TWO, ROOT);
    OneLooksAlike(Matched(TWO, TWICE));
  }

  /** Two tunes of the source are matched to the one record that the destination lists twice. */
  lemma SharedRecordMatchedTwice()
    ensures GoodSource(TWO) && Rooted(TWICE) && !Tree(TWICE)
    ensures Lookup(Matched(TWO, TWICE), 7) == Lookup(Matched(TWO, TWICE), 8) == 5
  {
    TwiceIsNoTree();
    TwiceMatched();
  }

  /** Every item of the source has its record, and the two tunes the same one. */
  lemma TwiceIsFinished()
    ensures AllFinished(TWO, TWICE, map[ROOT := ROOT, 7 := 5, 8 := 5])
  {
    TwoMatching();
    assert Kids(TWO, 7) == Kids(TWO, 8) == Kids(TWICE, 5) == [];
    var f := map[ROOT := ROOT, 7 := 5, 8 := 5];
    assert Finished(TWO, TWICE, f, ROOT) by { assert MapAll(f, [7, 8]) == [5, 5]; }
  }

  /** So any run from the one to the other succeeds and does nothing.  What it leaves shows the source
      as it is, and is no mirror only because the two tunes have one record. */
  lemma TwiceNeverMirrors(env: Env)
    requires env.src == TWO
    ensures var r := Synchronise(env, Fresh(TWICE));
      && r.rc == 0 && r.st.dest == TWICE
      && Reflects(TWO, r.st.dest, r.st.s2d) && !Mirror(TWO, r.st.dest, r.st.s2d)
  {
    SharedRecordMatchedTwice();
    TwiceIsFinished();
    var f := map[ROOT := ROOT, 7 := 5, 8 := 5];
    NothingToDo(env, TWICE, f);
    assert Matched(TWO, TWICE) == f by { TwiceMatched(); }
    forall s | Lookup(f, s) != 0 ensures Mirrored(TWO, TWICE, f, s) { assert Finished(TWO, TWICE, f, s); }
  }

  /* Containers */

  const UNLIKE := map[ROOT := BLANK.(mtype := Dir, children := [7, 8]), 7 := BLANK.(mtype := Dir, title := "a", children := [9]),
                      8 := BLANK.(mtype := Dir, title := "a"), 9 := BLANK.(mtype := Tune, title := "b")]
  const SHARED := map[ROOT := BLANK.(mtype := Dir, children := [5, 5]), 5 := BLANK.(mtype := Dir, title := "a")]

  lemma UnlikeMatching()
    ensures Kids(UNLIKE, ROOT) == [7, 8] && Kids(SHARED, ROOT) == [5, 5]
    ensures Match(UNLIKE, SHARED, ROOT, ROOT) == Matching([7, 8], [5, 5], Script(0, {}, {}))
  {
    assert Named(UNLIKE, [7, 8][1..][1..]) == [] && Named(SHARED, [5, 5][1..][1..]) == [];
    assert [7, 8][1..] == [8] && [5, 5][1..] == [5];
    assert Named(UNLIKE, [8]) == [8] && Named(SHARED, [5]) == [5];
    var names := Names(SHARED, [5, 5]);
    assert names == Names(UNLIKE, [7, 8]);
    DiffOfEqual(names, 2);
  }

  /** One container lists a tune and the other nothing. */
  lemma UnlikeLists()
    ensures GoodSource(UNLIKE) && Rooted(SHARED)
    ensures |Kids(UNLIKE, 7)| == 1 && |Kids(UNLIKE, 8)| == 0
  {
    UnlikeMatching();
    assert Named(UNLIKE, [9][1..]) == [];
  }

  /** Whatever their lists, both are matched to the record that the destination lists twice. */
  lemma UnlikeShare()
    ensures Lookup(Matched(UNLIKE, SHARED), 7) == Lookup(Matched(UNLIKE, SHARED), 8) == 5
  {
    UnlikeLists();
    UnlikeMatching();
    RootKidsMatched(UNLIKE, SHARED);
    var matched := Matched(UNLIKE, SHARED);
    assert 7 in Kids(UNLIKE, ROOT) && 8 in Kids(UNLIKE, ROOT);
    assert Alike(UNLIKE, SHARED, 7, matched[7]) && Alike(UNLIKE, SHARED, 8, matched[8]);
  }

  /** So no finished run shows the one on the other, whichever of their lists is written last. */
  lemma UnlikeNeverReflects(env: Env)
    requires env.src == UNLIKE && GivenFresh(env, SHARED) && !env.dry
    requires Synchronise(env, Fresh(SHARED)).rc == 0
    ensures var end := Synchronise(env, Fresh(SHARED)).st; !Reflects(UNLIKE, end.dest, end.s2d)
  {
    UnlikeLists();
    UnlikeShare();
    SynchroniseReflects(env, SHARED);
    assert !SameLists(UNLIKE, Matched(UNLIKE, SHARED), 7, 8);
  }
}
