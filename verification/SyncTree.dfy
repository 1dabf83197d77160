/** Destinations on which matching pairs each record with one item at most. */
module SyncTree {
  import opened SyncModel
  import opened SyncMatch

  /** `x` is the wanted child at position `k` of destination record `y`. */
  ghost predicate Lists(dest: Db, y: Id, k: nat, x: Id) {
    k < |Kids(dest, y)| && Kids(dest, y)[k] == x
  }

  /** Every wanted record is listed as a child at most once, and the root never. */
  ghost predicate Tree(dest: Db) {
    && Rooted(dest)
    && (forall y, k :: !Lists(dest, y, k, ROOT))
    && (forall x, y1, k1, y2, k2 :: Lists(dest, y1, k1, x) && Lists(dest, y2, k2, x) ==> y1 == y2 && k1 == k2)
  }

  ghost predicate Inverse(s2d: map<Id, Id>, d2s: map<Id, Id>) {
    && (forall s :: s in s2d ==> s2d[s] in d2s && d2s[s2d[s]] == s)
    && (forall d :: d in d2s ==> d2s[d] in s2d && s2d[d2s[d]] == d)
  }

  /** `d` is the root, or a child of a matched record. */
  ghost predicate Hung(dest: Db, d2s: map<Id, Id>, d: Id) {
    d == ROOT || exists y, k :: y in d2s && Lists(dest, y, k, d)
  }

  ghost predicate AllHung(dest: Db, d2s: map<Id, Id>) {
    forall d {:trigger Hung(dest, d2s, d)} :: d in d2s ==> Hung(dest, d2s, d)
  }

  ghost predicate OneToOne(dest: Db, s2d: map<Id, Id>, d2s: map<Id, Id>) {
    Inverse(s2d, d2s) && AllHung(dest, d2s)
  }

  /** Newly matched destinations hang below `d`. */
  ghost predicate Below(dest: Db, was: map<Id, Id>, now: map<Id, Id>, d: Id) {
    forall x {:trigger NewBelow(dest, was, now, d, x)} :: x in now && x !in was ==> NewBelow(dest, was, now, d, x)
  }

  ghost predicate NewBelow(dest: Db, was: map<Id, Id>, now: map<Id, Id>, d: Id, x: Id) {
    x == d || exists y, k :: y in now && y !in was && Lists(dest, y, k, x)
  }

  /** Newly matched destinations are listed by `d` or by another newly matched one. */
  ghost predicate Hangs(dest: Db, was: map<Id, Id>, now: map<Id, Id>, d: Id) {
    forall x {:trigger NewHanging(dest, was, now, d, x)} :: x in now && x !in was ==> NewHanging(dest, was, now, d, x)
  }

  ghost predicate NewHanging(dest: Db, was: map<Id, Id>, now: map<Id, Id>, d: Id, x: Id) {
    exists y, k :: (y == d || (y in now && y !in was)) && Lists(dest, y, k, x)
  }

  /** None of the listed children from position `j` on is matched yet. */
  ghost predicate Untouched(d2s: map<Id, Id>, destIds: seq<Id>, j: nat) {
    forall k :: j <= k < |destIds| ==> destIds[k] !in d2s
  }

  lemma HungGrows(dest: Db, was: map<Id, Id>, now: map<Id, Id>)
    requires AllHung(dest, was) && Extends(was, now)
    requires forall x :: x in now && x !in was ==> Hung(dest, was, x)
    ensures AllHung(dest, now)
  {
    forall x | x in now ensures Hung(dest, now, x) {
      assert Hung(dest, was, x);
      if x != ROOT {
        var y, k :| y in was && Lists(dest, y, k, x);
        assert y in now && Lists(dest, y, k, x);
      }
    }
  }

  lemma UntouchedAfter(dest: Db, was: map<Id, Id>, now: map<Id, Id>, d: Id, j: nat)
    requires Tree(dest) && d in was && j < |Kids(dest, d)|
    requires Untouched(was, Kids(dest, d), j) && Below(dest, was, now, Kids(dest, d)[j])
    ensures Untouched(now, Kids(dest, d), j + 1)
  {
    var kids := Kids(dest, d);
    assert Lists(dest, d, j, kids[j]);
    forall k | j + 1 <= k < |kids| ensures kids[k] !in now {
      assert Lists(dest, d, k, kids[k]);
      assert kids[k] in now && kids[k] !in was ==> NewBelow(dest, was, now, kids[j], kids[k]);
    }
  }

  lemma HangsTrans(dest: Db, was: map<Id, Id>, mid: map<Id, Id>, now: map<Id, Id>, d: Id, k: nat, x: Id)
    requires Extends(was, mid) && Extends(mid, now) && Lists(dest, d, k, x)
    requires Below(dest, was, mid, x) && Hangs(dest, mid, now, d)
    ensures Hangs(dest, was, now, d)
  {
    forall y | y in now && y !in was ensures NewHanging(dest, was, now, d, y) {
      if y in mid {
        assert NewBelow(dest, was, mid, x, y);
      } else {
        assert NewHanging(dest, mid, now, d, y);
      }
    }
  }

  /** Nothing listed by a record about to be matched is matched, as the record lists it alone. */
  lemma NoKidMatched(dest: Db, d2s: map<Id, Id>, s: Id, d: Id)
    requires Tree(dest) && d !in d2s && Hung(dest, d2s, d) && AllHung(dest, d2s)
    ensures Untouched(d2s[d := s], Kids(dest, d), 0)
  {
    var kids := Kids(dest, d);
    forall k | 0 <= k < |kids| ensures kids[k] !in d2s[d := s] {
      assert Lists(dest, d, k, kids[k]);
      assert kids[k] in d2s ==> Hung(dest, d2s, kids[k]);
    }
  }

  lemma BelowPair(dest: Db, was: map<Id, Id>, s: Id, d: Id, now: map<Id, Id>)
    requires Hangs(dest, was[d := s], now, d) && d in now && d !in was
    ensures Below(dest, was, now, d)
  {
    forall x | x in now && x !in was ensures NewBelow(dest, was, now, d, x) {
      if x != d { assert NewHanging(dest, was[d := s], now, d, x); }
    }
  }

  ghost predicate CheckedApart(st: State, d: Id, end: State) {
    && OneToOne(st.dest, end.s2d, end.d2s)
    && Extends(st.d2s, end.d2s) && Below(st.dest, st.d2s, end.d2s, d)
  }

  ghost predicate WalkedApart(st: State, d: Id, end: State) {
    && OneToOne(st.dest, end.s2d, end.d2s)
    && Extends(st.d2s, end.d2s) && Hangs(st.dest, st.d2s, end.d2s, d)
  }

  /** Mapping an item and a record that are both new to the maps. */
  lemma PairApart(dest: Db, s2d: map<Id, Id>, d2s: map<Id, Id>, s: Id, d: Id)
    requires Tree(dest) && OneToOne(dest, s2d, d2s) && s !in s2d && d !in d2s && Hung(dest, d2s, d)
    ensures OneToOne(dest, s2d[s := d], d2s[d := s]) && Untouched(d2s[d := s], Kids(dest, d), 0)
  {
    HungGrows(dest, d2s, d2s[d := s]);
    NoKidMatched(dest, d2s, s, d);
  }

  lemma {:induction false} CheckApart(env: Env, st: State, s: Id, d: Id, amend: bool)
    requires GoodSource(env.src) && Tree(st.dest) && Paired(env, st) && OneToOne(st.dest, st.s2d, st.d2s)
    requires s in st.s2d || (Alike(env.src, st.dest, s, d) && d !in st.d2s && Hung(st.dest, st.d2s, d))
    requires s == ROOT || ROOT in st.s2d
    ensures CheckedApart(st, d, Check(env.src, st, s, d, amend).st)
    decreases env.src.Keys - st.seen, 0
  {
    if s !in st.s2d {
      assert Untwinned(env.src, s);
      PairAdds(env, st, s, d);
      var (st', _) := Pair(env.src, st.(seen := st.seen + {s}), s, d);
      PairOpens(env, st, s, d, st');
      PairApart(st.dest, st.s2d, st.d2s, s, d);
      var m := Match(env.src, st.dest, s, d);
      WalkMatches(env, st', m, s, d, 0, 0, false);
      WalkApart(env, st', m, s, d, 0, 0, false);
      CheckIsWalk(env, st, s, d, amend);
      BelowPair(st.dest, st.d2s, s, d, Walk(env.src, st', m, 0, 0, false).st.d2s);
    }
  }

  lemma {:induction false} WalkApart(env: Env, st: State, m: Matching, s: Id, d: Id, i: nat, j: nat, amend: bool)
    requires GoodSource(env.src) && Tree(st.dest) && Paired(env, st) && OneToOne(st.dest, st.s2d, st.d2s)
    requires ROOT in st.s2d && d in st.d2s && m.srcIds == Kids(env.src, s) && m.destIds == Kids(st.dest, d)
    requires Aligned(env.src, st.dest, m, i, j) && Untouched(st.d2s, m.destIds, j)
    ensures WalkedApart(st, d, Walk(env.src, st, m, i, j, amend).st)
    decreases env.src.Keys - st.seen, 1 + |m.srcIds| - i + |m.destIds| - j, 1
  {
    AlignedStep(env.src, st.dest, m, i, j);
    if i == |m.srcIds| && j == |m.destIds| {
    } else if i < |m.srcIds| && i + 1 in m.script.additions {
      KidWanted(env.src, s, i);
      WalkApart(env, st.(maybeAdd := st.maybeAdd + {m.srcIds[i]}), m, s, d, i + 1, j, true);
    } else if j < |m.destIds| && j + 1 in m.script.deletions {
      WalkApart(env, st.(maybeDelete := st.maybeDelete + {m.destIds[j]}), m, s, d, i, j + 1, true);
    } else {
      WalkApartPair(env, st, m, s, d, i, j, amend);
    }
  }

  /** One pair compared, and then the rest of the walk. */
  lemma ApartStep(st: State, mid: State, end: State, d: Id, j: nat, x: Id)
    requires mid.dest == st.dest && Lists(st.dest, d, j, x)
    ensures CheckedApart(st, x, mid) && WalkedApart(mid, d, end) ==> WalkedApart(st, d, end)
  {
    if CheckedApart(st, x, mid) && WalkedApart(mid, d, end) {
      HangsTrans(st.dest, st.d2s, mid.d2s, end.d2s, d, j, x);
    }
  }

  /** A walk whose next step compares a pair. */
  lemma {:induction false} WalkApartPair(env: Env, st: State, m: Matching, s: Id, d: Id, i: nat, j: nat, amend: bool)
    requires GoodSource(env.src) && Tree(st.dest) && Paired(env, st) && OneToOne(st.dest, st.s2d, st.d2s)
    requires ROOT in st.s2d && d in st.d2s && m.srcIds == Kids(env.src, s) && m.destIds == Kids(st.dest, d)
    requires Aligned(env.src, st.dest, m, i, j) && Untouched(st.d2s, m.destIds, j)
    requires i < |m.srcIds| && j < |m.destIds| && i + 1 !in m.script.additions && j + 1 !in m.script.deletions
    ensures WalkedApart(st, d, Walk(env.src, st, m, i, j, amend).st)
    decreases env.src.Keys - st.seen, 1 + |m.srcIds| - i + |m.destIds| - j, 0
  {
    var s', d' := m.srcIds[i], m.destIds[j];
    AlignedStep(env.src, st.dest, m, i, j);
    KidsAlike(env, st, m, s, d, i, j);
    assert Lists(st.dest, d, j, d');
    CheckMatches(env, st, s', d', amend);
    CheckApart(env, st, s', d', amend);
    var c := Check(env.src, st, s', d', amend);
    UntouchedAfter(st.dest, st.d2s, c.st.d2s, d, j);
    WalkApart(env, c.st, m, s, d, i + 1, j + 1, c.amend);
    WalkCompared(env.src, st, m, i, j, amend);
    ApartStep(st, c.st, Walk(env.src, c.st, m, i + 1, j + 1, c.amend).st, d, j, d');
  }

  /** On a destination that lists every record once at most, no two items are matched to one record. */
  lemma TreeMatchedApart(src: Db, dest: Db)
    requires GoodSource(src) && Tree(dest)
    ensures Injective(Matched(src, dest))
  {
    var env := JustSource(src);
    CheckApart(env, Start(Fresh(dest)), ROOT, ROOT, false);
  }

  /** Names tell the source's items apart, and none but the root can be taken for the destination's root. */
  ghost predicate NamesApart(src: Db, dest: Db) {
    && (forall s, s' :: Wanted(src, s) && Wanted(src, s') && s != ROOT && s' != ROOT ==>
          src[s].Name() == src[s'].Name() ==> s == s')
    && (forall s :: Wanted(src, s) && s != ROOT && ROOT in dest ==> src[s].Name() != dest[ROOT].Name())
  }

  /** Whatever the destination shares, no two items are then matched to one record. */
  lemma NamesMatchedApart(src: Db, dest: Db)
    requires GoodSource(src) && Rooted(dest) && NamesApart(src, dest)
    ensures Injective(Matched(src, dest))
  {
    var env := JustSource(src);
    MatchingSettles(env, Start(Fresh(dest)));
    var s2d := Matched(src, dest);
    forall s, s' | Lookup(s2d, s) != 0 && Lookup(s2d, s) == Lookup(s2d, s') ensures s == s' {
      assert Alike(src, dest, s, s2d[s]) && Alike(src, dest, s', s2d[s']);
    }
  }
}
