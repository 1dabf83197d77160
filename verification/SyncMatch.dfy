/** What matching by name establishes, on any destination whose root is a container. */
module SyncMatch {
  import opened SyncModel

  ghost predicate Rooted(db: Db) {
    ROOT in db && db[ROOT].IsComposite()
  }

  /** A source rooted in a container, and without usable high-quality versions. */
  ghost predicate GoodSource(src: Db) {
    && Rooted(src) && 0 !in src
    && UntwinnedSource(src)
  }

  ghost predicate UntwinnedSource(src: Db) {
    forall s :: s in src ==> Untwinned(src, s)
  }

  /** The high-quality version of `s`, if it names one, is not there. */
  ghost predicate Untwinned(src: Db, s: Id)
    requires s in src
  {
    src[s].idHigh == 0 || src[s].idHigh !in src
  }

  /** The pairs matched so far: source and destination agree on kind, and on title below the root. */
  ghost predicate Alike(src: Db, dest: Db, s: Id, d: Id) {
    && Wanted(src, s) && Wanted(dest, d)
    && src[s].IsComposite() == dest[d].IsComposite()
    && (if s == ROOT then d == ROOT else src[s].title == dest[d].title)
  }

  /** Several items may be matched to one record, which then names the last of them. */
  ghost predicate BackLinked(s2d: map<Id, Id>, d2s: map<Id, Id>) {
    && (forall s :: s in s2d ==> s2d[s] in d2s)
    && (forall d :: d in d2s ==> d2s[d] in s2d && s2d[d2s[d]] == d)
  }

  ghost predicate PairedMaps(src: Db, dest: Db, s2d: map<Id, Id>, d2s: map<Id, Id>) {
    BackLinked(s2d, d2s) && forall s :: s in s2d ==> Alike(src, dest, s, s2d[s])
  }

  ghost predicate PairedQueues(src: Db, mapped: set<Id>, st: State) {
    && st.amendPlaylist <= mapped
    && (forall s :: s in st.addTune || s in st.amendMetadata ==> s in mapped && s in src && src[s].IsItem())
    && (forall s :: s in st.maybeAdd ==> Wanted(src, s))
  }

  ghost predicate Paired(env: Env, st: State) {
    && st.seen == st.s2d.Keys
    && PairedMaps(env.src, st.dest, st.s2d, st.d2s)
    && PairedQueues(env.src, st.s2d.Keys, st)
  }

  ghost predicate Extends(m: map<Id, Id>, m': map<Id, Id>) {
    forall x :: x in m ==> x in m' && m'[x] == m[x]
  }

  ghost predicate Grows(st: State, st': State) {
    && st'.dest == st.dest
    && Extends(st.s2d, st'.s2d)
    && st.maybeAdd <= st'.maybeAdd
    && st.amendPlaylist <= st'.amendPlaylist
    && st'.addPlaylist == st.addPlaylist
    && st'.idsTaken == st.idsTaken
  }

  /** From position `i` of the source's and `j` of the destination's list, items correspond one to one. */
  ghost predicate SameFrom(s2d: map<Id, Id>, srcIds: seq<Id>, destIds: seq<Id>, i: nat, j: nat) {
    && i <= |srcIds| && j <= |destIds| && |srcIds| - i == |destIds| - j
    && (forall k :: i <= k < |srcIds| ==> srcIds[k] in s2d && s2d[srcIds[k]] == destIds[k - i + j])
  }

  ghost predicate AccountedFrom(st: State, srcIds: seq<Id>, i: nat) {
    forall k :: i <= k < |srcIds| ==> srcIds[k] in st.s2d || srcIds[k] in st.maybeAdd
  }

  /** A matched item has all its children accounted for, and differs from its
      destination's list only if it is due to be amended. */
  ghost predicate Settled(env: Env, st: State, s: Id) {
    && s in st.s2d
    && AccountedFrom(st, Kids(env.src, s), 0)
    && (s in st.amendPlaylist || SameFrom(st.s2d, Kids(env.src, s), Kids(st.dest, st.s2d[s]), 0, 0))
  }

  ghost predicate NewSettled(env: Env, st: State, st': State) {
    forall x {:trigger Settled(env, st', x)} :: x in st'.s2d && x !in st.s2d ==> Settled(env, st', x)
  }

  lemma NewSettledTrans(env: Env, st: State, st1: State, st2: State)
    requires Grows(st, st1) && Grows(st1, st2)
    requires NewSettled(env, st, st1) && NewSettled(env, st1, st2)
    ensures NewSettled(env, st, st2)
  {
    forall x | x in st2.s2d && x !in st.s2d ensures Settled(env, st2, x) {
      if x in st1.s2d { assert Settled(env, st1, x); }
    }
  }

  ghost predicate CheckedWell(env: Env, st: State, s: Id, d: Id, amend: bool, r: Checked) {
    && r.rc == 0
    && Paired(env, r.st) && Grows(st, r.st)
    && s in r.st.s2d
    && (!r.amend ==> !amend && r.st.s2d[s] == d)
    && NewSettled(env, st, r.st)
  }

  ghost predicate WalkedWell(env: Env, st: State, m: Matching, i: nat, j: nat, amend: bool, r: Checked) {
    && r.rc == 0
    && Paired(env, r.st) && Grows(st, r.st)
    && AccountedFrom(r.st, m.srcIds, i)
    && (!r.amend ==> !amend && SameFrom(r.st.s2d, m.srcIds, m.destIds, i, j))
    && NewSettled(env, st, r.st)
  }

  /** The state after mapping `s` and `d` to each other. */
  ghost predicate PairAdded(env: Env, st: State, s: Id, d: Id, st': State) {
    && st'.dest == st.dest
    && st'.seen == st.seen + {s}
    && st'.s2d == st.s2d[s := d] && st'.d2s == st.d2s[d := s]
    && st'.maybeAdd == st.maybeAdd && st'.amendPlaylist == st.amendPlaylist
    && st'.addPlaylist == st.addPlaylist && st'.idsTaken == st.idsTaken
    && (forall x :: x in st'.addTune ==> x in st.addTune || (x == s && s in env.src && env.src[s].IsItem()))
    && (forall x :: x in st'.amendMetadata ==> x in st.amendMetadata || (x == s && s in env.src && env.src[s].IsItem()))
  }

  lemma PairAdds(env: Env, st: State, s: Id, d: Id)
    requires s in env.src && Untwinned(env.src, s) && Alike(env.src, st.dest, s, d)
    ensures var (st', s') := Pair(env.src, st.(seen := st.seen + {s}), s, d);
      s' == s && PairAdded(env, st, s, d, st')
  {
    var st1 := st.(seen := st.seen + {s});
    var (st2, s') := Compare(env.src, st1, s, d);
    assert s' == s && st2.s2d == st1.s2d;
  }

  lemma PairMaps(src: Db, dest: Db, s2d: map<Id, Id>, d2s: map<Id, Id>, s: Id, d: Id)
    requires PairedMaps(src, dest, s2d, d2s) && s !in s2d && Alike(src, dest, s, d)
    ensures PairedMaps(src, dest, s2d[s := d], d2s[d := s]) && Extends(s2d, s2d[s := d])
  {
  }

  /** Mapping two alike items to each other opens a walk over their children. */
  lemma PairOpens(env: Env, st: State, s: Id, d: Id, st': State)
    requires Paired(env, st) && PairAdded(env, st, s, d, st')
    requires s !in st.s2d && Alike(env.src, st.dest, s, d)
    ensures Paired(env, st') && Grows(st, st')
  {
    PairMaps(env.src, st.dest, st.s2d, st.d2s, s, d);
  }

  /** The state after a walk over the children of `s`. */
  function Closed(w: Checked, s: Id): State {
    if w.amend then w.st.(amendPlaylist := w.st.amendPlaylist + {s}) else w.st
  }

  /** A walk over the children of a pair settles the pair. */
  lemma WalkCloses(env: Env, st: State, s: Id, d: Id, st': State, m: Matching, w: Checked, amend: bool)
    requires s !in st.s2d && PairAdded(env, st, s, d, st') && Paired(env, st') && Grows(st, st')
    requires m.srcIds == Kids(env.src, s) && m.destIds == Kids(st.dest, d)
    requires WalkedWell(env, st', m, 0, 0, false, w)
    ensures CheckedWell(env, st, s, d, amend, Checked(0, Closed(w, s), amend))
  {
    var end := Closed(w, s);
    assert s in st'.s2d && st'.s2d[s] == d;
    forall x | x in end.s2d && x !in st.s2d ensures Settled(env, end, x) {
      if x != s { assert Settled(env, w.st, x); }
    }
  }

  /** An item that has been seen stays where it is mapped. */
  function Seen(st: State, s: Id, d: Id, amend: bool): Checked
    requires s in st.s2d
  {
    if st.s2d[s] != d then Checked(0, st.(maybeDelete := st.maybeDelete + {d}), true) else Checked(0, st, amend)
  }

  lemma SeenChecked(env: Env, st: State, s: Id, d: Id, amend: bool)
    requires Paired(env, st) && s in st.s2d
    ensures CheckedWell(env, st, s, d, amend, Seen(st, s, d, amend))
  {
  }

  lemma CheckIsWalk(env: Env, st: State, s: Id, d: Id, amend: bool)
    requires SeenAreMapped(st) && s !in st.seen
    requires s in env.src && Untwinned(env.src, s) && Alike(env.src, st.dest, s, d)
    ensures var (st', _) := Pair(env.src, st.(seen := st.seen + {s}), s, d);
      var w := Walk(env.src, st', Match(env.src, st.dest, s, d), 0, 0, false);
      w.rc == 0 ==> Check(env.src, st, s, d, amend) == Checked(0, Closed(w, s), amend)
  {
  }

  lemma {:induction false} CheckMatches(env: Env, st: State, s: Id, d: Id, amend: bool)
    requires GoodSource(env.src) && Paired(env, st)
    requires s in st.s2d || Alike(env.src, st.dest, s, d)
    requires s == ROOT || ROOT in st.s2d
    ensures CheckedWell(env, st, s, d, amend, Check(env.src, st, s, d, amend))
    decreases env.src.Keys - st.seen, 0
  {
    if s in st.s2d {
      SeenChecked(env, st, s, d, amend);
      assert Check(env.src, st, s, d, amend) == Seen(st, s, d, amend);
    } else {
      assert Untwinned(env.src, s);
      PairAdds(env, st, s, d);
      var (st', _) := Pair(env.src, st.(seen := st.seen + {s}), s, d);
      PairOpens(env, st, s, d, st');
      var m := Match(env.src, st.dest, s, d);
      WalkMatches(env, st', m, s, d, 0, 0, false);
      CheckIsWalk(env, st, s, d, amend);
      WalkCloses(env, st, s, d, st', m, Walk(env.src, st', m, 0, 0, false), amend);
    }
  }

  lemma SameFromStep(s2d: map<Id, Id>, s2d': map<Id, Id>, srcIds: seq<Id>, destIds: seq<Id>, i: nat, j: nat)
    requires i < |srcIds| && j < |destIds| && Extends(s2d, s2d')
    requires srcIds[i] in s2d && s2d[srcIds[i]] == destIds[j] && SameFrom(s2d', srcIds, destIds, i + 1, j + 1)
    ensures SameFrom(s2d', srcIds, destIds, i, j)
  {
  }

  /** One matched pair of children, and then the rest of the walk. */
  lemma WalkStep(env: Env, st: State, m: Matching, i: nat, j: nat, amend: bool, c: Checked, r: Checked)
    requires i < |m.srcIds| && j < |m.destIds|
    ensures CheckedWell(env, st, m.srcIds[i], m.destIds[j], amend, c) && WalkedWell(env, c.st, m, i + 1, j + 1, c.amend, r)
      ==> WalkedWell(env, st, m, i, j, amend, r)
  {
    if CheckedWell(env, st, m.srcIds[i], m.destIds[j], amend, c) && WalkedWell(env, c.st, m, i + 1, j + 1, c.amend, r) {
      NewSettledTrans(env, st, c.st, r.st);
      if !r.amend {
        SameFromStep(c.st.s2d, r.st.s2d, m.srcIds, m.destIds, i, j);
      }
    }
  }

  /** At the end of both lists there is nothing to account for. */
  lemma WalkEnds(env: Env, st: State, m: Matching, amend: bool)
    requires Paired(env, st)
    ensures WalkedWell(env, st, m, |m.srcIds|, |m.destIds|, amend, Checked(0, st, amend))
  {
  }

  /** A source name that the script adds. */
  lemma SourceSkipped(env: Env, st: State, m: Matching, i: nat, j: nat, amend: bool, r: Checked)
    requires i < |m.srcIds|
    ensures WalkedWell(env, st.(maybeAdd := st.maybeAdd + {m.srcIds[i]}), m, i + 1, j, true, r)
      ==> WalkedWell(env, st, m, i, j, amend, r)
  {
    assert m.srcIds[i] in st.maybeAdd + {m.srcIds[i]};
  }

  /** A destination name that the script deletes. */
  lemma DestSkipped(env: Env, st: State, m: Matching, i: nat, j: nat, amend: bool, r: Checked)
    requires j < |m.destIds|
    ensures WalkedWell(env, st.(maybeDelete := st.maybeDelete + {m.destIds[j]}), m, i, j + 1, true, r)
      ==> WalkedWell(env, st, m, i, j, amend, r)
  {
  }

  lemma {:induction false} WalkMatches(env: Env, st: State, m: Matching, s: Id, d: Id, i: nat, j: nat, amend: bool)
    requires GoodSource(env.src) && Paired(env, st)
    requires ROOT in st.s2d && m.srcIds == Kids(env.src, s) && m.destIds == Kids(st.dest, d)
    requires Aligned(env.src, st.dest, m, i, j)
    ensures WalkedWell(env, st, m, i, j, amend, Walk(env.src, st, m, i, j, amend))
    decreases env.src.Keys - st.seen, 1 + |m.srcIds| - i + |m.destIds| - j, 1
  {
    AlignedStep(env.src, st.dest, m, i, j);
    if i == |m.srcIds| && j == |m.destIds| {
      WalkEnds(env, st, m, amend);
    } else if i < |m.srcIds| && i + 1 in m.script.additions {
      WalkMatchesAdded(env, st, m, s, d, i, j, amend);
    } else if j < |m.destIds| && j + 1 in m.script.deletions {
      var n := st.(maybeDelete := st.maybeDelete + {m.destIds[j]});
      WalkMatches(env, n, m, s, d, i, j + 1, true);
      DestSkipped(env, st, m, i, j, amend, Walk(env.src, n, m, i, j + 1, true));
    } else {
      WalkMatchesPair(env, st, m, s, d, i, j, amend);
    }
  }

  /** A walk whose next step finds a name that only the source has. */
  lemma {:induction false} WalkMatchesAdded(env: Env, st: State, m: Matching, s: Id, d: Id, i: nat, j: nat, amend: bool)
    requires GoodSource(env.src) && Paired(env, st)
    requires ROOT in st.s2d && m.srcIds == Kids(env.src, s) && m.destIds == Kids(st.dest, d)
    requires Aligned(env.src, st.dest, m, i, j) && i < |m.srcIds| && i + 1 in m.script.additions
    ensures WalkedWell(env, st, m, i, j, amend, Walk(env.src, st, m, i, j, amend))
    decreases env.src.Keys - st.seen, 1 + |m.srcIds| - i + |m.destIds| - j, 0
  {
    AlignedStep(env.src, st.dest, m, i, j);
    var n := st.(maybeAdd := st.maybeAdd + {m.srcIds[i]});
    KidWanted(env.src, s, i);
    WalkMatches(env, n, m, s, d, i + 1, j, true);
    SourceSkipped(env, st, m, i, j, amend, Walk(env.src, n, m, i + 1, j, true));
  }

  /** A walk whose next step compares a pair. */
  lemma {:induction false} WalkMatchesPair(env: Env, st: State, m: Matching, s: Id, d: Id, i: nat, j: nat, amend: bool)
    requires GoodSource(env.src) && Paired(env, st)
    requires ROOT in st.s2d && m.srcIds == Kids(env.src, s) && m.destIds == Kids(st.dest, d)
    requires Aligned(env.src, st.dest, m, i, j)
    requires i < |m.srcIds| && j < |m.destIds| && i + 1 !in m.script.additions && j + 1 !in m.script.deletions
    ensures WalkedWell(env, st, m, i, j, amend, Walk(env.src, st, m, i, j, amend))
    decreases env.src.Keys - st.seen, 1 + |m.srcIds| - i + |m.destIds| - j, 0
  {
    var s', d' := m.srcIds[i], m.destIds[j];
    AlignedStep(env.src, st.dest, m, i, j);
    KidsAlike(env, st, m, s, d, i, j);
    CheckMatches(env, st, s', d', amend);
    var c := Check(env.src, st, s', d', amend);
    WalkMatches(env, c.st, m, s, d, i + 1, j + 1, c.amend);
    WalkStep(env, st, m, i, j, amend, c, Walk(env.src, c.st, m, i + 1, j + 1, c.amend));
  }

  /** Two children at the same name in a walk. */
  lemma KidsAlike(env: Env, st: State, m: Matching, s: Id, d: Id, i: nat, j: nat)
    requires m.srcIds == Kids(env.src, s) && m.destIds == Kids(st.dest, d)
    requires i < |m.srcIds| && j < |m.destIds| && AllIn(m.srcIds, env.src) && AllIn(m.destIds, st.dest)
    requires env.src[m.srcIds[i]].Name() == st.dest[m.destIds[j]].Name() && GoodSource(env.src)
    ensures m.srcIds[i] == ROOT || Alike(env.src, st.dest, m.srcIds[i], m.destIds[j])
  {
    KidWanted(env.src, s, i);
    KidWanted(st.dest, d, j);
  }

  lemma KidWanted(db: Db, id: Id, k: nat)
    requires k < |Kids(db, id)|
    ensures Wanted(db, Kids(db, id)[k])
  {
    NamedElements(db, db[id].children);
    assert Kids(db, id)[k] in Kids(db, id);
  }

  /** No two items are mapped to one record. */
  ghost predicate Injective(s2d: map<Id, Id>) {
    forall s, s' :: Lookup(s2d, s) != 0 && Lookup(s2d, s) == Lookup(s2d, s') ==> s == s'
  }

  /** Where matching from the two roots maps the items it finds in both. */
  ghost function Matched(src: Db, dest: Db): map<Id, Id> {
    Check(src, Start(Fresh(dest)), ROOT, ROOT, false).st.s2d
  }

  /** After matching from the roots, everything matched is settled. */
  lemma MatchingSettles(env: Env, st: State)
    requires GoodSource(env.src) && Rooted(st.dest) && st == Start(Fresh(st.dest))
    ensures var r := Check(env.src, st, ROOT, ROOT, false);
      && r.rc == 0 && Paired(env, r.st) && Grows(st, r.st)
      && ROOT in r.st.s2d && r.st.s2d[ROOT] == ROOT
      && forall s :: s in r.st.s2d ==> Settled(env, r.st, s)
  {
    CheckMatches(env, st, ROOT, ROOT, false);
  }

  /** All that matching reads of what a run cannot change is the source. */
  function JustSource(src: Db): Env {
    Env(src, true, _ => 0, _ => 0, _ => 0, _ => 0, _ => 0, s => s)
  }
}
