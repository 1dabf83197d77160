/** What the copying phases leave behind, record by record. */
module SyncCopy {
  import opened Common
  import opened SyncModel
  import opened SyncMatch

  ghost predicate SameLookups(m: map<Id, Id>, m': map<Id, Id>) {
    forall x :: Lookup(m, x) == Lookup(m', x)
  }

  lemma {:induction false} TouchAllKeeps(s2d: map<Id, Id>, ss: seq<Id>)
    ensures SameLookups(s2d, TouchAll(s2d, ss))
    decreases ss
  {
    if ss != [] { TouchAllKeeps(Touch(s2d, ss[0]), ss[1..]); }
  }

  /** Looking up a list's items leaves an entry for each, of zero where there was none. */
  lemma {:induction false} TouchAllMaps(s2d: map<Id, Id>, ss: seq<Id>)
    ensures forall x :: x in TouchAll(s2d, ss) <==> x in s2d || x in ss
    ensures forall x :: x in s2d ==> TouchAll(s2d, ss)[x] == s2d[x]
    ensures forall x :: x in ss && x !in s2d ==> TouchAll(s2d, ss)[x] == 0
    decreases ss
  {
    if ss != [] { TouchAllMaps(Touch(s2d, ss[0]), ss[1..]); }
  }

  lemma {:induction false} MappedSame(m: map<Id, Id>, m': map<Id, Id>, ss: seq<Id>)
    requires SameLookups(m, m')
    ensures Mapped(m, ss) == Mapped(m', ss)
  {
    if ss != [] { MappedSame(m, m', ss[1..]); }
  }

  /** The destination's record of `s` is what copying it in `phase` writes. */
  ghost predicate Copied(env: Env, s2d: map<Id, Id>, phase: Phase, s: Id, rec: Record)
    requires s in env.src
  {
    match phase
    case AmendPlaylists | AddPlaylists =>
      && rec.title == env.src[s].title && rec.mtype == env.src[s].mtype
      && rec.children == Mapped(s2d, env.src[s].children)
    case AddTunes | AmendTunes => IsCopyOf(env, env.src[s], rec)
  }

  /** `rec` is item `from` in every field but two: a high-quality tune is a tune there, and an item without
      a title has its file's name for one. */
  ghost predicate IsCopyOf(env: Env, from: Record, rec: Record) {
    && rec.mtype == (if from.mtype.TuneHigh? then Tune else from.mtype)
    && rec.title == (if from.title == "" then env.leafName(from.path) else from.title)
    && rec.(mtype := from.mtype, title := from.title) == from
  }

  lemma CopiedSame(env: Env, m: map<Id, Id>, m': map<Id, Id>, phase: Phase, s: Id, rec: Record)
    requires s in env.src && SameLookups(m, m') && Copied(env, m, phase, s, rec)
    ensures Copied(env, m', phase, s, rec)
  {
    MappedSame(m, m', env.src[s].children);
  }

  ghost predicate SamePlans(st: State, st': State) {
    && st'.amendPlaylist == st.amendPlaylist && st'.addPlaylist == st.addPlaylist
    && st'.addTune == st.addTune && st'.amendMetadata == st.amendMetadata
    && SameLookups(st.s2d, st'.s2d)
  }

  /** What the calls for one item of a phase return: a commit, and for a new tune the transfer after it. */
  function ItemRc(env: Env, phase: Phase, s: Id): nat {
    match phase
    case AmendPlaylists | AddPlaylists => env.commitPlaylist(s)
    case AddTunes => if env.commitTune(s) != 0 then env.commitTune(s) else env.transfer(s)
    case AmendTunes => env.commitTune(s)
  }

  lemma CopyPlaylistPlans(env: Env, st: State, s: Id, d: Id)
    requires s in env.src
    ensures var r := CopyPlaylist(env, st, s, d);
      SamePlans(st, r.st) && r.rc == if env.dry then 0 else env.commitPlaylist(s)
  {
    TouchAllKeeps(st.s2d, env.src[s].children);
  }

  lemma CopyItemPlans(env: Env, st: State, phase: Phase, s: Id, num: nat, denom: nat)
    requires s in env.src && Lookup(st.s2d, s) != 0
    ensures var r := CopyItem(env, st, phase, s, num, denom);
      SamePlans(st, r.st) && r.rc == if env.dry then 0 else ItemRc(env, phase, s)
  {
    var d := Lookup(st.s2d, s);
    var st' := st.(events := st.events + [OnCopy(phase, s, num, denom)], s2d := Touch(st.s2d, s));
    match phase
    case AmendPlaylists =>
      CopyPlaylistPlans(env, st'.(stats := st.stats.(playlistsModified := st.stats.playlistsModified + 1)), s, d);
    case AddPlaylists => CopyPlaylistPlans(env, st', s, d);
    case AmendTunes =>
    case AddTunes =>
  }

  /** What a real run writes for one item. */
  ghost predicate ItemWritten(env: Env, st: State, phase: Phase, s: Id, dest: Db) {
    var d := Lookup(st.s2d, s);
    && CopiedAt(env, st.s2d, phase, s, dest)
    && dest == st.dest[d := dest[d]]
    && (phase == AmendPlaylists || phase == AddPlaylists ==> BodyKept(st.dest, dest, d) && (d !in st.dest ==> Unset(dest[d])))
  }

  /** A record of which only kind, title and children were ever set. */
  predicate Unset(rec: Record) {
    rec.size == 0 && rec.idHigh == 0 && rec.tags == Tags("", "", "", "", "") && rec.path == "" && rec.rest == []
  }

  lemma CopyItemWrites(env: Env, st: State, phase: Phase, s: Id, num: nat, denom: nat)
    requires s in env.src && Lookup(st.s2d, s) != 0 && !env.dry
    ensures ItemWritten(env, st, phase, s, CopyItem(env, st, phase, s, num, denom).st.dest)
  {
    MappedSame(st.s2d, Touch(st.s2d, s), env.src[s].children);
  }

  /** Copying one item writes that item's record and no other, and keeps of a list's record
      all but its kind, title and children. */
  lemma CopyItemWell(env: Env, st: State, phase: Phase, s: Id, num: nat, denom: nat)
    requires s in env.src && Lookup(st.s2d, s) != 0
    ensures var r := CopyItem(env, st, phase, s, num, denom);
      && SamePlans(st, r.st)
      && r.rc == (if env.dry then 0 else ItemRc(env, phase, s))
      && (if env.dry then r.st.dest == st.dest else ItemWritten(env, st, phase, s, r.st.dest))
  {
    CopyItemPlans(env, st, phase, s, num, denom);
    if !env.dry { CopyItemWrites(env, st, phase, s, num, denom); }
  }

  /** What cannot be copied is refused, and nothing written: a new tune that is mapped to nothing, and
      otherwise what the source does not have. */
  lemma CopyRefused(env: Env, st: State, phase: Phase, s: Id, num: nat, denom: nat)
    ensures var r := CopyItem(env, st, phase, s, num, denom);
      && (phase == AddTunes && Lookup(st.s2d, s) == 0 ==> r.rc == EINVAL && r.st.dest == st.dest)
      && (s !in env.src && !(phase == AddTunes && Lookup(st.s2d, s) == 0) ==> r.rc == ENOENT && r.st.dest == st.dest)
  {
  }

  ghost predicate Copyable(env: Env, s2d: map<Id, Id>, items: seq<Id>) {
    forall s :: s in items ==> s in env.src && Lookup(s2d, s) != 0
  }

  /** `d` is where one of the items from position `k` on is copied to. */
  ghost predicate Target(s2d: map<Id, Id>, items: seq<Id>, k: nat, d: Id) {
    exists i :: k <= i < |items| && Lookup(s2d, items[i]) == d
  }

  /** `d` is as one of the items from position `k` on that go there was written. */
  ghost predicate Written(env: Env, s2d: map<Id, Id>, phase: Phase, items: seq<Id>, k: nat, d: Id, dest: Db) {
    exists i :: k <= i < |items| && Lookup(s2d, items[i]) == d && CopiedAt(env, s2d, phase, items[i], dest)
  }

  ghost predicate SameAt(dest: Db, dest': Db, d: Id) {
    (d in dest' <==> d in dest) && (d in dest ==> dest'[d] == dest[d])
  }

  /** Nothing but kind, title and children of record `d` has changed. */
  predicate BodyKept(dest: Db, dest': Db, d: Id) {
    d in dest ==>
      d in dest' && dest'[d].(mtype := dest[d].mtype, title := dest[d].title, children := dest[d].children) == dest[d]
  }

  ghost predicate CopiedAt(env: Env, s2d: map<Id, Id>, phase: Phase, s: Id, dest: Db) {
    s in env.src && Lookup(s2d, s) in dest && Copied(env, s2d, phase, s, dest[Lookup(s2d, s)])
  }

  /** What copying the items from position `k` on does to record `d`. */
  ghost predicate CopiedTo(env: Env, st: State, phase: Phase, items: seq<Id>, k: nat, r: Outcome, d: Id) {
    && (phase == AmendPlaylists || phase == AddPlaylists ==> BodyKept(st.dest, r.st.dest, d))
    && (if Target(st.s2d, items, k, d) then r.rc == 0 ==> Written(env, st.s2d, phase, items, k, d, r.st.dest)
        else SameAt(st.dest, r.st.dest, d))
  }

  ghost predicate CopiedWell(env: Env, st: State, phase: Phase, items: seq<Id>, k: nat, r: Outcome) {
    && SamePlans(st, r.st)
    && (if env.dry then r.st.dest == st.dest else
        forall d {:trigger CopiedTo(env, st, phase, items, k, r, d)} ::
          CopiedTo(env, st, phase, items, k, r, d))
    && (r.rc == 0 <==> env.dry || forall i :: k <= i < |items| ==> ItemRc(env, phase, items[i]) == 0)
  }

  lemma WrittenSame(env: Env, m: map<Id, Id>, m': map<Id, Id>, phase: Phase, items: seq<Id>, k: nat, k': nat, d: Id, dest: Db)
    requires SameLookups(m, m') && Written(env, m, phase, items, k, d, dest) && k' <= k
    ensures Written(env, m', phase, items, k', d, dest)
  {
    var i :| k <= i < |items| && Lookup(m, items[i]) == d && CopiedAt(env, m, phase, items[i], dest);
    CopiedSame(env, m, m', phase, items[i], dest[d]);
  }

  lemma TargetSame(m: map<Id, Id>, m': map<Id, Id>, items: seq<Id>, k: nat, d: Id)
    requires SameLookups(m, m') && k < |items|
    ensures Target(m, items, k, d) <==> Lookup(m, items[k]) == d || Target(m', items, k + 1, d)
  {
  }

  /** One record through the copying of the item at `k` and of those after it. */
  lemma CopyStep(env: Env, st: State, phase: Phase, items: seq<Id>, k: nat, r1: Outcome, r: Outcome, d: Id)
    requires k < |items| && SamePlans(st, r1.st)
    requires ItemWritten(env, st, phase, items[k], r1.st.dest)
    requires CopiedTo(env, r1.st, phase, items, k + 1, r, d)
    ensures CopiedTo(env, st, phase, items, k, r, d)
  {
    TargetSame(st.s2d, r1.st.s2d, items, k, d);
    if r.rc == 0 && Target(r1.st.s2d, items, k + 1, d) {
      WrittenSame(env, r1.st.s2d, st.s2d, phase, items, k + 1, k, d, r.st.dest);
    }
  }

  /** The record of the item at `k` if the copying stops there, and every other. */
  lemma CopyStops(env: Env, st: State, phase: Phase, items: seq<Id>, k: nat, r: Outcome, d: Id)
    requires k < |items| && r.rc != 0 && ItemWritten(env, st, phase, items[k], r.st.dest)
    ensures CopiedTo(env, st, phase, items, k, r, d)
  {
    if d == Lookup(st.s2d, items[k]) { assert Target(st.s2d, items, k, d); }
  }

  lemma CopyJoins(env: Env, st: State, phase: Phase, items: seq<Id>, k: nat, r1: Outcome, r: Outcome)
    requires k < |items| && SamePlans(st, r1.st) && ItemWritten(env, st, phase, items[k], r1.st.dest) && !env.dry
    requires ItemRc(env, phase, items[k]) == 0 && CopiedWell(env, r1.st, phase, items, k + 1, r)
    ensures CopiedWell(env, st, phase, items, k, r)
  {
    forall d ensures CopiedTo(env, st, phase, items, k, r, d) {
      CopyStep(env, st, phase, items, k, r1, r, d);
    }
  }

  lemma {:induction false} CopyItemsWell(env: Env, st: State, phase: Phase, items: seq<Id>, k: nat)
    requires k <= |items| && Copyable(env, st.s2d, items)
    ensures CopiedWell(env, st, phase, items, k, CopyItems(env, st, phase, items, k))
    decreases |items| - k
  {
    if k < |items| {
      var r1 := CopyItem(env, st, phase, items[k], k, |items|);
      CopyItemWell(env, st, phase, items[k], k, |items|);
      if r1.rc != 0 {
        forall d ensures CopiedTo(env, st, phase, items, k, r1, d) {
          CopyStops(env, st, phase, items, k, r1, d);
        }
      } else {
        CopyItemsWell(env, r1.st, phase, items, k + 1);
        if !env.dry { CopyJoins(env, st, phase, items, k, r1, CopyItems(env, r1.st, phase, items, k + 1)); }
      }
    }
  }

  /** What a finished real phase does to record `d`. */
  ghost predicate Phased(env: Env, st: State, phase: Phase, st': State, d: Id) {
    CopiedTo(env, st, phase, Items(st, phase), 0, Outcome(0, st'), d)
  }

  /** A phase writes each record that some item of it goes to as one of those items, and no other. */
  lemma AfterPhase(env: Env, st: State, phase: Phase)
    requires Copyable(env, st.s2d, Items(st, phase)) && !env.dry
    ensures var r := CopyPhase(env, Outcome(0, st), phase);
      && SamePlans(st, r.st)
      && (r.rc == 0 ==> forall d {:trigger Phased(env, st, phase, r.st, d)} :: Phased(env, st, phase, r.st, d))
  {
    var r := CopyPhase(env, Outcome(0, st), phase);
    CopyItemsWell(env, st, phase, Items(st, phase), 0);
    if r.rc == 0 {
      forall d ensures Phased(env, st, phase, r.st, d) {
        assert CopiedTo(env, st, phase, Items(st, phase), 0, r, d);
      }
    }
  }

  lemma SamePlansCopyable(env: Env, st: State, st': State, phase: Phase)
    requires SamePlans(st, st') && Copyable(env, st.s2d, Items(st, phase))
    ensures Copyable(env, st'.s2d, Items(st', phase)) && Items(st', phase) == Items(st, phase)
  {
  }
}
