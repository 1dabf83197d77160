/** When a successful run makes the destination mirror the source. */
module SyncMirror {
  import opened Ordering
  import opened SyncModel
  import opened SyncMatch
  import opened SyncTree
  import opened SyncAdd
  import opened SyncCopy
  import opened SyncPlan
  import opened SyncLists

  function MapAll(s2d: map<Id, Id>, ss: seq<Id>): seq<Id> {
    seq(|ss|, k requires 0 <= k < |ss| => Lookup(s2d, ss[k]))
  }

  /** An item without a title, which is given its file's name when it is copied, may have any. */
  predicate Titled(src: Db, s: Id)
    requires s in src
  {
    src[s].IsComposite() || src[s].title != ""
  }

  /** Item `s` and its destination agree on kind, on title below the destination's root, and, for a
      container, on the wanted children in order. */
  ghost predicate Mirrored(src: Db, dest: Db, s2d: map<Id, Id>, s: Id) {
    var d := Lookup(s2d, s);
    && Wanted(src, s) && Wanted(dest, d)
    && src[s].IsComposite() == dest[d].IsComposite()
    && (d != ROOT && Titled(src, s) ==> dest[d].title == src[s].title)
    && (src[s].IsComposite() ==> Kids(dest, d) == MapAll(s2d, Kids(src, s)))
  }

  /** The destination shows the source as it is, though several items may have one record. */
  ghost predicate Reflects(src: Db, dest: Db, s2d: map<Id, Id>) {
    && Lookup(s2d, ROOT) == ROOT
    && (forall s {:trigger Mirrored(src, dest, s2d, s)} :: Lookup(s2d, s) != 0 ==> Mirrored(src, dest, s2d, s))
  }

  /** Every item has a record of its own as well. */
  ghost predicate Mirror(src: Db, dest: Db, s2d: map<Id, Id>) {
    Reflects(src, dest, s2d) && Injective(s2d)
  }

  /* Containers that share a record */

  ghost predicate SameRecord(s2d: map<Id, Id>, c: Id, c': Id) {
    c == c' || Lookup(s2d, c) == Lookup(s2d, c') != 0
  }

  ghost predicate SameLists(src: Db, s2d: map<Id, Id>, s: Id, s': Id) {
    && |Kids(src, s)| == |Kids(src, s')|
    && forall k :: 0 <= k < |Kids(src, s)| ==> SameRecord(s2d, Kids(src, s)[k], Kids(src, s')[k])
  }

  /** Containers that share a record list as many wanted items, at each place the same one or two
      that share a record. */
  ghost predicate SharedListsAgree(src: Db, s2d: map<Id, Id>) {
    forall s, s' {:trigger SameLists(src, s2d, s, s')} ::
      s in src && s' in src && src[s].IsComposite() && src[s'].IsComposite() && Lookup(s2d, s) == Lookup(s2d, s') != 0
      ==> SameLists(src, s2d, s, s')
  }

  lemma GrownSame(dest: Db, was: map<Id, Id>, now: map<Id, Id>, c: Id, c': Id)
    requires GrownOutside(dest, was, now) && Lookup(now, c) != 0
    ensures SameRecord(was, c, c') <==> Lookup(now, c) == Lookup(now, c')
  {
  }

  /** Whether two containers list the same records in the end is decided by matching. */
  lemma GrownLists(src: Db, dest: Db, was: map<Id, Id>, now: map<Id, Id>, s: Id, s': Id)
    requires GrownOutside(dest, was, now)
    requires forall k :: 0 <= k < |Kids(src, s)| ==> Lookup(now, Kids(src, s)[k]) != 0
    ensures SameLists(src, was, s, s') <==> MapAll(now, Kids(src, s)) == MapAll(now, Kids(src, s'))
  {
    forall k | 0 <= k < |Kids(src, s)| && k < |Kids(src, s')|
      ensures SameRecord(was, Kids(src, s)[k], Kids(src, s')[k])
        <==> MapAll(now, Kids(src, s))[k] == MapAll(now, Kids(src, s'))[k]
    {
      GrownSame(dest, was, now, Kids(src, s)[k], Kids(src, s')[k]);
    }
  }

  /* Kinds and titles */

  ghost predicate RootsTitled(src: Db, dest: Db) {
    ROOT in src && ROOT in dest && src[ROOT].title == dest[ROOT].title
  }

  /** No item without a title has a file name that it would be given for one. */
  ghost predicate NoneRenamed(env: Env) {
    forall s :: s in env.src && !Titled(env.src, s) ==> env.leafName(env.src[s].path) == ""
  }

  /** `rec`, with id `d`, is of the kind of item `s` and has its title, except perhaps at the root and
      where the source has none. */
  ghost predicate LooksLike(env: Env, dest: Db, s: Id, d: Id, rec: Record) {
    && s in env.src && rec.IsComposite() == env.src[s].IsComposite() && !rec.mtype.File?
    && ((d != ROOT || RootsTitled(env.src, dest)) && (Titled(env.src, s) || NoneRenamed(env))
        ==> rec.title == env.src[s].title)
  }

  ghost predicate Shown(env: Env, st: State, s: Id, now: Db) {
    var d := Lookup(st.s2d, s);
    d in now && LooksLike(env, st.dest, s, d, now[d])
  }

  lemma SharersLookAlike(env: Env, st: State, s: Id, x: Id, rec: Record)
    requires Planned(env, st) && Lookup(st.s2d, s) == Lookup(st.s2d, x) != 0
    requires LooksLike(env, st.dest, x, Lookup(st.s2d, x), rec)
    ensures LooksLike(env, st.dest, s, Lookup(st.s2d, s), rec)
  {
    assert Ready(env, st, s) && Ready(env, st, x);
  }

  /** What is written for an item looks like it. */
  lemma WrittenLooks(env: Env, st: State, st1: State, phase: Phase, x: Id, rec: Record)
    requires GoodSource(env.src) && Planned(env, st) && SamePlans(st, st1) && x in Items(st1, phase)
    requires x in env.src && Copied(env, st1.s2d, phase, x, rec)
    ensures Lookup(st.s2d, x) != 0 && LooksLike(env, st.dest, x, Lookup(st.s2d, x), rec)
  {
    QueuedCopyable(env, st, phase, x);
    ListsOf(env, st, x);
    assert Ready(env, st, x);
  }

  /** A phase that writes the record of `s` writes what looks like `s`, and otherwise leaves it. */
  lemma PhaseShows(env: Env, st: State, st1: State, phase: Phase, st2: State, s: Id)
    requires GoodSource(env.src) && Planned(env, st) && SamePlans(st, st1) && Lookup(st.s2d, s) != 0
    requires Phased(env, st1, phase, st2, Lookup(st.s2d, s))
    requires Shown(env, st, s, st1.dest) || s in Items(st1, phase)
    ensures Shown(env, st, s, st2.dest)
  {
    var items, d := Items(st1, phase), Lookup(st.s2d, s);
    if s in items { QueuedIsTarget(st1, phase, s); }
    if Target(st1.s2d, items, 0, d) {
      var i :| 0 <= i < |items| && Lookup(st1.s2d, items[i]) == d && CopiedAt(env, st1.s2d, phase, items[i], st2.dest);
      WrittenLooks(env, st, st1, phase, items[i], st2.dest[d]);
      SharersLookAlike(env, st, s, items[i], st2.dest[d]);
    }
  }

  /** At the end every item's record looks like it. */
  lemma EndShows(env: Env, st: State, s: Id)
    requires GoodSource(env.src) && Planned(env, st) && !env.dry && Lookup(st.s2d, s) != 0
    requires s in env.src && (Lookup(st.s2d, s) in st.dest || env.src[s].IsCopied())
    requires CopyAll(env, Outcome(0, st)).rc == 0
    ensures Shown(env, st, s, CopyAll(env, Outcome(0, st)).st.dest)
  {
    var st1, st2, st3, st4 := PhasesRun(env, st);
    assert Ran(env, st, st1, st2, st3, st4, Lookup(st.s2d, s));
    assert Ready(env, st, s);
    ListsOf(env, st, s);
    if Lookup(st.s2d, s) in st.dest {
      PhaseShows(env, st, st, AmendPlaylists, st1, s);
      PhaseShows(env, st, st1, AddPlaylists, st2, s);
      PhaseShows(env, st, st2, AddTunes, st3, s);
    } else if env.src[s].IsComposite() {
      PhaseShows(env, st, st1, AddPlaylists, st2, s);
      PhaseShows(env, st, st2, AddTunes, st3, s);
    } else {
      PhaseShows(env, st, st2, AddTunes, st3, s);
    }
    PhaseShows(env, st, st3, AmendTunes, st4, s);
  }

  /* Lists */

  lemma {:induction false} NamedOfMapped(src: Db, end: Db, s2d: map<Id, Id>, ids: seq<Id>)
    requires forall c :: c in ids ==> (Lookup(s2d, c) != 0 <==> Wanted(src, c))
    requires forall c :: c in ids && Lookup(s2d, c) != 0 ==> Wanted(end, Lookup(s2d, c))
    ensures Named(end, Mapped(s2d, ids)) == MapAll(s2d, Named(src, ids))
  {
    if ids != [] {
      var d, rest := Lookup(s2d, ids[0]), Mapped(s2d, ids[1..]);
      NamedOfMapped(src, end, s2d, ids[1..]);
      assert ids[0] in ids;
      if d != 0 {
        assert Named(end, [d] + rest) == [d] + Named(end, rest) by { assert ([d] + rest)[1..] == rest; }
      } else {
        assert [] + rest == rest;
      }
    }
  }

  ghost predicate AllWanted(st: State, end: Db) {
    forall x :: Lookup(st.s2d, x) != 0 ==> Wanted(end, Lookup(st.s2d, x))
  }

  ghost predicate OthersStay(st: State, end: Db) {
    forall d :: (forall x :: Lookup(st.s2d, x) != d) ==> SameAt(st.dest, end, d)
  }

  /** A record with the list that was written for `s` names the images of what `s` lists. */
  lemma CopiedKids(env: Env, st: State, s: Id, d: Id, end: Db)
    requires Planned(env, st) && Lookup(st.s2d, s) != 0 && s in env.src && 0 !in env.src && AllWanted(st, end)
    requires d in end && end[d].children == Mapped(st.s2d, env.src[s].children)
    ensures Kids(end, d) == MapAll(st.s2d, Kids(env.src, s))
  {
    var ids := env.src[s].children;
    assert Ready(env, st, s);
    NamedElements(env.src, ids);
    forall c | c in ids ensures Lookup(st.s2d, c) != 0 <==> Wanted(env.src, c) {
      if Wanted(env.src, c) {
        assert c in Kids(env.src, s);
        var k :| 0 <= k < |Kids(env.src, s)| && Kids(env.src, s)[k] == c;
      }
    }
    NamedOfMapped(env.src, end, st.s2d, ids);
  }

  /** No queued item has the record of `s`, so that the record stays as it is. */
  ghost predicate Unwritten(st: State, s: Id) {
    && Lookup(st.s2d, s) != 0 && Lookup(st.s2d, s) in st.dest
    && forall x :: x in st.amendPlaylist || x in st.addTune || x in st.amendMetadata ==>
      Lookup(st.s2d, x) != Lookup(st.s2d, s)
  }

  /** If the record of `s` stays as it is, it names no new record: the id of an item is in its list
      only if it was that of a wanted record. */
  ghost predicate Clean(dest: Db, st: State, s: Id) {
    Unwritten(st, s) ==>
      forall x :: Lookup(st.s2d, x) != 0 && Lookup(st.s2d, x) in st.dest[Lookup(st.s2d, s)].children ==>
        Wanted(dest, Lookup(st.s2d, x))
  }

  ghost predicate ListsClean(src: Db, dest: Db, st: State) {
    forall s {:trigger Clean(dest, st, s)} :: s in src && src[s].IsComposite() ==> Clean(dest, st, s)
  }

  /** Then none of the ids that it names for no record is given to an item. */
  lemma KeptApart(env: Env, dest: Db, st: State, s: Id, c: Id)
    requires ListsKept(dest, st) && Planned(env, st) && Unwritten(st, s) && Clean(dest, st, s)
    requires c in st.dest[Lookup(st.s2d, s)].children && c != 0 && !Wanted(st.dest, c)
    requires Lookup(st.s2d, s) in dest && dest[Lookup(st.s2d, s)] == st.dest[Lookup(st.s2d, s)]
    ensures forall x :: Lookup(st.s2d, x) != c
  {
    var d := Lookup(st.s2d, s);
    NamedElements(dest, st.dest[d].children);
    NamedElements(st.dest, st.dest[d].children);
    assert Wanted(dest, c) ==> c in Kids(dest, d);
  }

  /** A record whose list was not rewritten names the same wanted records before and after. */
  lemma KeptKids(env: Env, dest: Db, st: State, s: Id, end: Db)
    requires ListsKept(dest, st) && Planned(env, st) && Unwritten(st, s) && Clean(dest, st, s)
    requires AllWanted(st, end) && OthersStay(st, end)
    requires var d := Lookup(st.s2d, s);
      d in end && end[d].children == st.dest[d].children && d in dest && dest[d] == st.dest[d]
    ensures Kids(end, Lookup(st.s2d, s)) == MapAll(st.s2d, Kids(env.src, s))
  {
    var d := Lookup(st.s2d, s);
    var ids, kids := st.dest[d].children, Kids(st.dest, d);
    assert Ready(env, st, s);
    NamedElements(st.dest, ids);
    assert kids == MapAll(st.s2d, Kids(env.src, s));
    forall c | c in ids ensures Wanted(st.dest, c) <==> Wanted(end, c) {
      if Wanted(st.dest, c) {
        assert c in kids;
        var k :| 0 <= k < |kids| && kids[k] == c;
      } else if c != 0 {
        KeptApart(env, dest, st, s, c);
        assert SameAt(st.dest, end, c);
      }
    }
    NamedSame(st.dest, end, ids);
  }

  lemma {:induction false} NamedMore(db: Db, db': Db, ids: seq<Id>, c: Id)
    requires (forall x :: x in ids && Wanted(db, x) ==> Wanted(db', x)) && Wanted(db', c) && !Wanted(db, c)
    ensures |Named(db', ids)| >= |Named(db, ids)| + (if c in ids then 1 else 0)
  {
    if ids != [] { NamedMore(db, db', ids[1..], c); }
  }

  /** If a list that is kept names a new record it names too many. */
  lemma UncleanShows(env: Env, dest: Db, st: State, s: Id, x: Id, end: Db)
    requires Planned(env, st) && Unwritten(st, s) && AllWanted(st, end)
    requires forall d :: d in st.dest ==> d in dest && st.dest[d] == dest[d]
    requires var d := Lookup(st.s2d, s); d in end && end[d].children == st.dest[d].children
    requires Lookup(st.s2d, x) != 0 && Lookup(st.s2d, x) in st.dest[Lookup(st.s2d, s)].children
    requires !Wanted(dest, Lookup(st.s2d, x))
    ensures Kids(end, Lookup(st.s2d, s)) != MapAll(st.s2d, Kids(env.src, s))
  {
    var d := Lookup(st.s2d, s);
    var ids, kids := st.dest[d].children, Kids(st.dest, d);
    assert Ready(env, st, s);
    NamedElements(st.dest, ids);
    assert kids == MapAll(st.s2d, Kids(env.src, s));
    forall c | c in ids && Wanted(st.dest, c) ensures Wanted(end, c) {
      assert c in kids;
      var k :| 0 <= k < |kids| && kids[k] == c;
    }
    NamedMore(st.dest, end, ids, Lookup(st.s2d, x));
  }

  lemma UnwrittenStays(env: Env, st: State, s: Id)
    requires Planned(env, st) && !env.dry && CopyAll(env, Outcome(0, st)).rc == 0 && Unwritten(st, s)
    ensures SameAt(st.dest, CopyAll(env, Outcome(0, st)).st.dest, Lookup(st.s2d, s))
  {
    forall x | x in st.addPlaylist ensures Lookup(st.s2d, x) != Lookup(st.s2d, s) {
      assert Lookup(st.s2d, x) != 0 && Ready(env, st, x);
    }
    UntargetedStays(env, st, Lookup(st.s2d, s));
  }

  /** Where a container's record does not stay, a phase writes a list to it. */
  lemma ListTargeted(env: Env, st: State, s: Id)
    requires Planned(env, st) && s in env.src && env.src[s].IsComposite() && Lookup(st.s2d, s) != 0 && !Unwritten(st, s)
    ensures var d := Lookup(st.s2d, s);
      Target(st.s2d, Items(st, AmendPlaylists), 0, d) || Target(st.s2d, Items(st, AddPlaylists), 0, d)
  {
    assert Ready(env, st, s);
    TunesElsewhere(env, st, s);
    if Lookup(st.s2d, s) in st.dest {
      var x :| x in st.amendPlaylist && Lookup(st.s2d, x) == Lookup(st.s2d, s);
      AscendingHas(st.amendPlaylist, x);
      QueuedIsTarget(st, AmendPlaylists, x);
    } else {
      QueuedIsTarget(st, AddPlaylists, s);
    }
  }

  /** The four phases seen from the list of a container: left alone, or written for some item. */
  lemma ListWrittenOrNot(env: Env, st: State, s: Id) returns (writer: Id)
    requires Planned(env, st) && !env.dry && CopyAll(env, Outcome(0, st)).rc == 0
    requires s in env.src && env.src[s].IsComposite() && Lookup(st.s2d, s) != 0
    ensures var end, d := CopyAll(env, Outcome(0, st)).st.dest, Lookup(st.s2d, s);
      && d in end && writer in env.src && Lookup(st.s2d, writer) == d
      && if Unwritten(st, s) then writer == s && end[d] == st.dest[d]
         else end[d].children == Mapped(st.s2d, env.src[writer].children)
  {
    if Unwritten(st, s) {
      UnwrittenStays(env, st, s);
      writer := s;
    } else {
      var d := Lookup(st.s2d, s);
      var st1, st2, st3, st4 := PhasesRun(env, st);
      assert Ran(env, st, st1, st2, st3, st4, d);
      ListTargeted(env, st, s);
      ListStays(env, st, st2, st3, st4, s);
      writer := ListWriter(env, st, st1, st2, d);
    }
  }

  /* The whole run */

  /** Every item with a new id is of a kind that is copied. */
  ghost predicate AllCopied(env: Env, st: State) {
    forall s :: Lookup(st.s2d, s) != 0 && Lookup(st.s2d, s) !in st.dest ==> s in env.src && env.src[s].IsCopied()
  }

  /** What a finished real run leaves of a plan. */
  ghost predicate Ended(env: Env, st: State, end: Db) {
    && AllWanted(st, end) && OthersStay(st, end)
    && forall s {:trigger Shown(env, st, s, end)} :: Lookup(st.s2d, s) != 0 ==> Shown(env, st, s, end)
  }

  lemma RunEnds(env: Env, st: State)
    requires GoodSource(env.src) && Planned(env, st) && AllCopied(env, st)
    requires !env.dry && CopyAll(env, Outcome(0, st)).rc == 0
    ensures Ended(env, st, CopyAll(env, Outcome(0, st)).st.dest)
  {
    var end := CopyAll(env, Outcome(0, st)).st.dest;
    forall s | Lookup(st.s2d, s) != 0 ensures Shown(env, st, s, end) {
      assert Ready(env, st, s);
      EndShows(env, st, s);
    }
    forall d | forall x :: Lookup(st.s2d, x) != d ensures SameAt(st.dest, end, d) {
      UnmappedStays(env, st, d);
    }
  }

  /** The record of a container names the images of what some item with that record lists. */
  lemma KidsOfOne(env: Env, dest: Db, st: State, s: Id) returns (writer: Id)
    requires GoodSource(env.src) && Planned(env, st) && ListsKept(dest, st) && AllCopied(env, st)
    requires forall d :: d in st.dest ==> d in dest && st.dest[d] == dest[d]
    requires !env.dry && CopyAll(env, Outcome(0, st)).rc == 0
    requires s in env.src && env.src[s].IsComposite() && Lookup(st.s2d, s) != 0 && Clean(dest, st, s)
    ensures writer in env.src && env.src[writer].IsComposite() && Lookup(st.s2d, writer) == Lookup(st.s2d, s)
    ensures Kids(CopyAll(env, Outcome(0, st)).st.dest, Lookup(st.s2d, s)) == MapAll(st.s2d, Kids(env.src, writer))
  {
    var end, d := CopyAll(env, Outcome(0, st)).st.dest, Lookup(st.s2d, s);
    writer := ListWrittenOrNot(env, st, s);
    RunEnds(env, st);
    assert Shown(env, st, s, end) && Shown(env, st, writer, end);
    if Unwritten(st, s) {
      KeptKids(env, dest, st, s, end);
    } else {
      CopiedKids(env, st, writer, d, end);
    }
  }

  lemma MirroredSame(src: Db, end: Db, m: map<Id, Id>, m': map<Id, Id>, s: Id)
    requires SameLookups(m, m')
    ensures Mirrored(src, end, m, s) <==> Mirrored(src, end, m', s)
  {
    assert MapAll(m, Kids(src, s)) == MapAll(m', Kids(src, s));
  }

  lemma ReflectsSame(src: Db, end: Db, m: map<Id, Id>, m': map<Id, Id>)
    requires SameLookups(m, m')
    ensures Reflects(src, end, m) <==> Reflects(src, end, m')
  {
    forall s ensures Mirrored(src, end, m, s) <==> Mirrored(src, end, m', s) { MirroredSame(src, end, m, m', s); }
  }

  /** What a finished real run has planned, and done. */
  ghost predicate Done(env: Env, dest: Db, st: State) {
    && GoodSource(env.src) && Planned(env, st) && ListsKept(dest, st)
    && (forall d :: d in st.dest ==> d in dest && st.dest[d] == dest[d])
    && !env.dry && CopyAll(env, Outcome(0, st)).rc == 0
  }

  lemma ItemMirrored(env: Env, dest: Db, st: State, was: map<Id, Id>, s: Id)
    requires Done(env, dest, st) && GrownOutside(st.dest, was, st.s2d) && SharedListsAgree(env.src, was)
    requires ListsClean(env.src, dest, st) && AllCopied(env, st) && Lookup(st.s2d, s) != 0
    ensures Mirrored(env.src, CopyAll(env, Outcome(0, st)).st.dest, st.s2d, s)
  {
    var end := CopyAll(env, Outcome(0, st)).st.dest;
    RunEnds(env, st);
    assert Shown(env, st, s, end) && Ready(env, st, s);
    if env.src[s].IsComposite() {
      assert Clean(dest, st, s);
      var writer := KidsOfOne(env, dest, st, s);
      if writer != s {
        assert SameLists(env.src, was, s, writer);
        GrownLists(env.src, st.dest, was, st.s2d, s, writer);
      }
    }
  }

  lemma ReflectedAgree(env: Env, dest: Db, st: State, was: map<Id, Id>)
    requires Done(env, dest, st) && GrownOutside(st.dest, was, st.s2d)
    requires Reflects(env.src, CopyAll(env, Outcome(0, st)).st.dest, st.s2d)
    ensures SharedListsAgree(env.src, was)
  {
    var end := CopyAll(env, Outcome(0, st)).st.dest;
    forall s, s' | s in env.src && s' in env.src && env.src[s].IsComposite() && env.src[s'].IsComposite()
      && Lookup(was, s) == Lookup(was, s') != 0
      ensures SameLists(env.src, was, s, s')
    {
      assert Mirrored(env.src, end, st.s2d, s) && Mirrored(env.src, end, st.s2d, s') && Ready(env, st, s);
      GrownLists(env.src, st.dest, was, st.s2d, s, s');
    }
  }

  lemma ReflectedClean(env: Env, dest: Db, st: State)
    requires Done(env, dest, st) && Reflects(env.src, CopyAll(env, Outcome(0, st)).st.dest, st.s2d)
    ensures ListsClean(env.src, dest, st) && AllCopied(env, st)
  {
    var end := CopyAll(env, Outcome(0, st)).st.dest;
    forall s | Lookup(st.s2d, s) != 0
      ensures Wanted(end, Lookup(st.s2d, s)) && (Lookup(st.s2d, s) !in st.dest ==> s in env.src && env.src[s].IsCopied())
    {
      assert Mirrored(env.src, end, st.s2d, s);
      if Lookup(st.s2d, s) !in st.dest && !env.src[s].IsCopied() { UncopiedAbsent(env, st, s); }
    }
    forall s | s in env.src && env.src[s].IsComposite() ensures Clean(dest, st, s) {
      if Unwritten(st, s) {
        UnwrittenStays(env, st, s);
        assert Mirrored(env.src, end, st.s2d, s);
        forall x | Lookup(st.s2d, x) != 0 && Lookup(st.s2d, x) in st.dest[Lookup(st.s2d, s)].children
          ensures Wanted(dest, Lookup(st.s2d, x))
        {
          if !Wanted(dest, Lookup(st.s2d, x)) { UncleanShows(env, dest, st, s, x, end); }
        }
      }
    }
  }

  lemma DoneReflects(env: Env, dest: Db, st: State, was: map<Id, Id>)
    requires Done(env, dest, st) && GrownOutside(st.dest, was, st.s2d)
    ensures Reflects(env.src, CopyAll(env, Outcome(0, st)).st.dest, st.s2d)
      <==> SharedListsAgree(env.src, was) && ListsClean(env.src, dest, st) && AllCopied(env, st)
  {
    if SharedListsAgree(env.src, was) && ListsClean(env.src, dest, st) && AllCopied(env, st) {
      forall s | Lookup(st.s2d, s) != 0 ensures Mirrored(env.src, CopyAll(env, Outcome(0, st)).st.dest, st.s2d, s) {
        ItemMirrored(env, dest, st, was, s);
      }
    }
    if Reflects(env.src, CopyAll(env, Outcome(0, st)).st.dest, st.s2d) {
      ReflectedAgree(env, dest, st, was);
      ReflectedClean(env, dest, st);
    }
  }

  lemma RunDone(env: Env, dest: Db)
    requires GoodSource(env.src) && Rooted(dest) && GivenFresh(env, dest) && !env.dry
    requires Synchronise(env, Fresh(dest)).rc == 0
    ensures var st, end := Plan(env, Fresh(dest)).st, Synchronise(env, Fresh(dest)).st;
      var copied := CopyAll(env, Outcome(0, st)).st;
      && Done(env, dest, st) && GrownOutside(st.dest, Matched(env.src, dest), st.s2d)
      && end.dest == copied.dest && end.s2d == copied.s2d && SameLookups(st.s2d, end.s2d)
      && (AllCopied(env, st) <==> AddsCopied(env, dest))
  {
    PlanGood(env, dest);
    CopyAllFails(env, Plan(env, Fresh(dest)).st);
  }

  lemma InjectiveAgrees(src: Db, s2d: map<Id, Id>)
    requires Injective(s2d)
    ensures SharedListsAgree(src, s2d)
  {
    forall s, s' | Lookup(s2d, s) == Lookup(s2d, s') != 0 ensures SameLists(src, s2d, s, s') {
      assert s == s';
    }
  }

  /** No container's list that the plan keeps names a record that the run will make. */
  ghost predicate KeptClean(env: Env, dest: Db) {
    ListsClean(env.src, dest, Plan(env, Fresh(dest)).st)
  }

  /** The main result, whatever the destination shares.  What a finished real run leaves shows the
      source as it is exactly when containers that matching took one record for list the same, no
      list that is kept names a record that the run makes, and it makes one for each item it adds. */
  lemma SynchroniseReflects(env: Env, dest: Db)
    requires GoodSource(env.src) && Rooted(dest) && GivenFresh(env, dest) && !env.dry
    requires Synchronise(env, Fresh(dest)).rc == 0
    ensures var end := Synchronise(env, Fresh(dest)).st;
      Reflects(env.src, end.dest, end.s2d)
      <==> SharedListsAgree(env.src, Matched(env.src, dest)) && KeptClean(env, dest) && AddsCopied(env, dest)
  {
    RunDone(env, dest);
    var st, end := Plan(env, Fresh(dest)).st, Synchronise(env, Fresh(dest)).st;
    DoneReflects(env, dest, st, Matched(env.src, dest));
    ReflectsSame(env.src, end.dest, st.s2d, end.s2d);
  }

  lemma InjectiveSame(m: map<Id, Id>, m': map<Id, Id>)
    requires SameLookups(m, m')
    ensures Injective(m) <==> Injective(m')
  {
  }

  /** A run fails exactly when one of the calls it makes on the databases does or something that it
      would add is missing; and what a finished real run leaves has a record for each item besides
      exactly when matching took none for two. */
  lemma SynchroniseMirrors(env: Env, dest: Db)
    requires GoodSource(env.src) && Rooted(dest) && GivenFresh(env, dest)
    ensures var r := Synchronise(env, Fresh(dest));
      && (r.rc == 0 <==> NothingFails(env, r.st) && AddsThere(env.src, dest))
      && (r.rc == 0 && !env.dry ==>
            (Mirror(env.src, r.st.dest, r.st.s2d)
             <==> Injective(Matched(env.src, dest)) && KeptClean(env, dest) && AddsCopied(env, dest)))
  {
    SynchroniseFails(env, dest);
    var r := Synchronise(env, Fresh(dest));
    if r.rc == 0 && !env.dry {
      SynchroniseReflects(env, dest);
      RunDone(env, dest);
      var st := Plan(env, Fresh(dest)).st;
      GrownApart(st.dest, Matched(env.src, dest), st.s2d);
      InjectiveSame(st.s2d, r.st.s2d);
      if Injective(Matched(env.src, dest)) { InjectiveAgrees(env.src, Matched(env.src, dest)); }
    }
  }

  /** It does on every destination that lists each record once at most... */
  lemma TreeMirrors(env: Env, dest: Db)
    requires GoodSource(env.src) && Tree(dest) && GivenFresh(env, dest) && !env.dry
    requires Synchronise(env, Fresh(dest)).rc == 0
    ensures var st := Synchronise(env, Fresh(dest)).st;
      Mirror(env.src, st.dest, st.s2d) <==> KeptClean(env, dest) && AddsCopied(env, dest)
  {
    SynchroniseMirrors(env, dest);
    TreeMatchedApart(env.src, dest);
  }

  /** ...and on every destination if names tell the source's items apart. */
  lemma NamesApartMirrors(env: Env, dest: Db)
    requires GoodSource(env.src) && Rooted(dest) && NamesApart(env.src, dest) && GivenFresh(env, dest) && !env.dry
    requires Synchronise(env, Fresh(dest)).rc == 0
    ensures var st := Synchronise(env, Fresh(dest)).st;
      Mirror(env.src, st.dest, st.s2d) <==> KeptClean(env, dest) && AddsCopied(env, dest)
  {
    SynchroniseMirrors(env, dest);
    NamesMatchedApart(env.src, dest);
  }

  /** Every list names only wanted records. */
  ghost predicate ListsWanted(dest: Db) {
    forall y, c :: y in dest && c in dest[y].children ==> Wanted(dest, c)
  }

  /** Where every list names only wanted records the lists that are kept do. */
  lemma WantedClean(env: Env, dest: Db)
    requires GoodSource(env.src) && Rooted(dest) && ListsWanted(dest)
    ensures KeptClean(env, dest) && forall s :: Clean(dest, Plan(env, Fresh(dest)).st, s)
  {
    PlanLeaves(env, dest);
  }

  /* Both directions of reachability */

  /** `path` leads from the root through wanted children. */
  ghost predicate Path(db: Db, path: seq<Id>) {
    && |path| > 0 && path[0] == ROOT
    && forall i :: 0 <= i < |path| - 1 ==>
      path[i] in db && db[path[i]].IsComposite() && path[i + 1] in Kids(db, path[i])
  }

  /** Everything reachable in the source has a counterpart. */
  lemma {:induction false} ReachableMapped(src: Db, dest: Db, s2d: map<Id, Id>, path: seq<Id>)
    requires Reflects(src, dest, s2d) && Path(src, path)
    ensures Lookup(s2d, path[|path| - 1]) != 0
    decreases |path|
  {
    if |path| > 1 {
      var prefix := path[..|path| - 1];
      var s, c := prefix[|prefix| - 1], path[|path| - 1];
      ReachableMapped(src, dest, s2d, prefix);
      assert Mirrored(src, dest, s2d, s);
      var k :| 0 <= k < |Kids(src, s)| && Kids(src, s)[k] == c;
      assert Kids(dest, Lookup(s2d, s))[k] == Lookup(s2d, c);
      KidWanted(dest, Lookup(s2d, s), k);
    }
  }

  /** Everything reachable in the destination is the counterpart of something. */
  lemma {:induction false} ReachableIsImage(src: Db, dest: Db, s2d: map<Id, Id>, path: seq<Id>) returns (s: Id)
    requires Reflects(src, dest, s2d) && Path(dest, path)
    ensures Lookup(s2d, s) == path[|path| - 1] != 0
    decreases |path|
  {
    if |path| == 1 {
      s := ROOT;
    } else {
      var prefix := path[..|path| - 1];
      var p := ReachableIsImage(src, dest, s2d, prefix);
      assert Mirrored(src, dest, s2d, p);
      var d := path[|path| - 2];
      var k :| 0 <= k < |Kids(dest, d)| && Kids(dest, d)[k] == path[|path| - 1];
      s := Kids(src, p)[k];
      KidWanted(dest, d, k);
    }
  }
}
