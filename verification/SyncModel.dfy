/** The database synchroniser, as functions from one state of a run to the next.

    The state holds the destination database, every field of the synchroniser,
    its statistics, and the calls it has made on its observers.  Class
    `Synchroniser.Synchroniser` computes these functions in place.
 */
module SyncModel {
  import opened Common
  import opened Ordering
  import opened EditScript

  type Id = nat

  const ROOT: Id := 0x100

  datatype MediaType =
    | File | Tune | TuneHigh | Spoken | Playlist | Dir | Image | Video | Radio | Tv | Query | Pending

  datatype Tags = Tags(artist: string, album: string, genre: string, trackNumber: string, year: string)

  /** `rest` stands for the fields the synchroniser copies without looking at them. */
  datatype Record = Record(
    mtype: MediaType, title: string, size: nat, children: seq<Id>, idHigh: Id,
    tags: Tags, path: string, rest: seq<string>)
  {
    predicate IsComposite() { mtype.Playlist? || mtype.Dir? }
    predicate IsItem() { !IsComposite() && !mtype.File? }
    predicate IsCopied() { IsComposite() || mtype.Tune? || mtype.TuneHigh? }
    function Name(): ItemName { ItemName(title, IsComposite()) }
  }

  const BLANK := Record(File, "", 0, [], 0, Tags("", "", "", "", ""), "", [])

  datatype ItemName = ItemName(title: string, isComposite: bool)

  type Db = map<Id, Record>

  /** What a run cannot change: the source, whether it is a dry run, and the outcomes of
      calls that leave the synchroniser.  `alloc(n)` is the `n`-th id the destination
      allocates, `remove(d)` the result of deleting destination record `d`,
      `commitPlaylist(s)` and `commitTune(s)` those of committing what was written for source
      item `s` as a playlist and as a tune, and `transfer(s)` that of copying its contents.
      A record whose deletion fails stays; one whose commit fails has been written. */
  datatype Env = Env(
    src: Db, dry: bool, alloc: nat -> Id, remove: Id -> nat, commitPlaylist: Id -> nat, commitTune: Id -> nat,
    transfer: Id -> nat, leafName: string -> string)

  datatype Statistics = Statistics(
    filesAdded: nat, filesDeleted: nat, filesModified: nat,
    playlistsAdded: nat, playlistsDeleted: nat, playlistsModified: nat, bytesTransferred: nat)

  datatype Stage = BEGIN | DELETING | END

  datatype Event =
    | OnStage(stage: Stage)
    | OnDelete(destId: Id)
    | OnCopy(phase: Phase, srcId: Id, num: nat, denom: nat)

  datatype Phase = AmendPlaylists | AddPlaylists | AddTunes | AmendTunes

  datatype State = State(
    dest: Db, seen: set<Id>, s2d: map<Id, Id>, d2s: map<Id, Id>,
    maybeAdd: set<Id>, maybeDelete: set<Id>, addTune: set<Id>, amendMetadata: set<Id>,
    addPlaylist: seq<Id>, amendPlaylist: set<Id>,
    anyDeleted: bool, stats: Statistics, events: seq<Event>, idsTaken: nat)

  const NO_STATISTICS := Statistics(0, 0, 0, 0, 0, 0, 0)

  function Fresh(dest: Db): State {
    State(dest, {}, map[], map[], {}, {}, {}, {}, [], {}, false, NO_STATISTICS, [], 0)
  }

  datatype Outcome = Outcome(rc: nat, st: State)

  /* Reading child lists */

  predicate Wanted(db: Db, id: Id) {
    id != 0 && id in db && !db[id].mtype.File?
  }

  /** The listed children that exist and are media items. */
  function Named(db: Db, ids: seq<Id>): seq<Id> {
    if ids == [] then []
    else if Wanted(db, ids[0]) then [ids[0]] + Named(db, ids[1..])
    else Named(db, ids[1..])
  }

  lemma {:induction false} NamedElements(db: Db, ids: seq<Id>)
    ensures forall id :: id in Named(db, ids) <==> id in ids && Wanted(db, id)
  {
    if ids != [] { NamedElements(db, ids[1..]); }
  }

  ghost predicate AllIn(ids: seq<Id>, db: Db) {
    forall k :: 0 <= k < |ids| ==> ids[k] in db
  }

  lemma NamedAllIn(db: Db, ids: seq<Id>)
    ensures AllIn(Named(db, ids), db)
  {
    NamedElements(db, ids);
  }

  function Names(db: Db, ids: seq<Id>): seq<ItemName>
    requires AllIn(ids, db)
  {
    seq(|ids|, k requires 0 <= k < |ids| => db[ids[k]].Name())
  }

  function Kids(db: Db, id: Id): seq<Id> {
    if id in db then Named(db, db[id].children) else []
  }

  /* Matching items by name */

  datatype Checked = Checked(rc: nat, st: State, amend: bool)

  datatype Matching = Matching(srcIds: seq<Id>, destIds: seq<Id>, script: Script)

  ghost predicate Aligned(src: Db, dest: Db, m: Matching, i: nat, j: nat) {
    && i <= |m.srcIds| && j <= |m.destIds|
    && AllIn(m.srcIds, src) && AllIn(m.destIds, dest)
    && KeptFrom(Names(src, m.srcIds), m.script.additions, i)
       == KeptFrom(Names(dest, m.destIds), m.script.deletions, j)
  }

  /** What the next step of a walk may rely on. */
  lemma AlignedStep(src: Db, dest: Db, m: Matching, i: nat, j: nat)
    requires Aligned(src, dest, m, i, j)
    ensures
      if i < |m.srcIds| && i + 1 in m.script.additions then Aligned(src, dest, m, i + 1, j)
      else if j < |m.destIds| && j + 1 in m.script.deletions then Aligned(src, dest, m, i, j + 1)
      else if i == |m.srcIds| || j == |m.destIds| then i == |m.srcIds| && j == |m.destIds|
      else
        && Aligned(src, dest, m, i + 1, j + 1)
        && src[m.srcIds[i]].Name() == dest[m.destIds[j]].Name()
  {
    var from, to := Names(src, m.srcIds), Names(dest, m.destIds);
    var a, b := KeptFrom(from, m.script.additions, i), KeptFrom(to, m.script.deletions, j);
    if i < |m.srcIds| && i + 1 in m.script.additions {
    } else if j < |m.destIds| && j + 1 in m.script.deletions {
    } else if i < |m.srcIds| && j < |m.destIds| {
      assert a[0] == from[i] && b[0] == to[j];
      assert a[1..] == KeptFrom(from, m.script.additions, i + 1);
      assert b[1..] == KeptFrom(to, m.script.deletions, j + 1);
    }
  }

  /** Diff the child lists of source item `s` and destination item `d`. */
  ghost function Match(src: Db, dest: Db, s: Id, d: Id): (m: Matching)
    ensures Aligned(src, dest, m, 0, 0)
  {
    var srcIds, destIds := Kids(src, s), Kids(dest, d);
    assert AllIn(srcIds, src) && AllIn(destIds, dest) by {
      if s in src { NamedAllIn(src, src[s].children); }
      if d in dest { NamedAllIn(dest, dest[d].children); }
    }
    var from, to := Names(dest, destIds), Names(src, srcIds);
    var script := Cell(from, to, |from|, |to|);
    assert KeptFrom(to, script.additions, 0) == KeptFrom(from, script.deletions, 0) by {
      DiffFits(from, to);
      FitsFromStart(from, to, script);
    }
    Matching(srcIds, destIds, script)
  }

  /** Compare two items that are not containers, preferring the source's high-quality version. */
  function Compare(src: Db, st: State, s: Id, d: Id): (r: (State, Id))
    requires s in src && d in st.dest
    ensures r.0.dest == st.dest && r.0.seen == st.seen
    ensures forall x :: x in st.s2d || x == s ==> x in r.0.s2d || x == r.1
  {
    var from, to := src[s], st.dest[d];
    if to.IsComposite() then (st, s)
    else
      var upgrade := from.idHigh != 0 && from.idHigh in src;
      var s' := if upgrade then from.idHigh else s;
      var st' := if upgrade then st.(s2d := st.s2d[s := d]) else st;
      if src[s'].size != to.size then (st'.(addTune := st'.addTune + {s'}), s')
      else if from.tags != to.tags then
        (st'.(amendMetadata := st'.amendMetadata + {s'},
              stats := st'.stats.(filesModified := st'.stats.filesModified + 1)), s')
      else (st', s')
  }

  /** Compare two items and map them to each other. */
  function Pair(src: Db, st: State, s: Id, d: Id): (r: (State, Id))
    requires s in src && d in st.dest
    ensures r.0.dest == st.dest && r.0.seen == st.seen
    ensures forall x :: x in st.s2d || x == s ==> x in r.0.s2d
  {
    var (st', s') := Compare(src, st, s, d);
    (st'.(d2s := st'.d2s[d := s'], s2d := st'.s2d[s' := d]), s')
  }

  /** Nothing is seen without also being mapped; this is why cyclic sources terminate. */
  ghost predicate SeenAreMapped(st: State) {
    st.seen <= st.s2d.Keys
  }

  ghost function Check(src: Db, st: State, s: Id, d: Id, amend: bool): (r: Checked)
    requires SeenAreMapped(st)
    ensures st.seen <= r.st.seen && st.dest == r.st.dest
    ensures r.rc == 0 ==> SeenAreMapped(r.st)
    decreases src.Keys - st.seen, 0
  {
    if s in st.seen && s in st.s2d then
      if st.s2d[s] != d then Checked(0, st.(maybeDelete := st.maybeDelete + {d}), true)
      else Checked(0, st, amend)
    else
      var st1 := st.(seen := st.seen + {s});
      if s !in src || d !in st.dest then Checked(ENOENT, st1, amend)
      else
        var (st2, s') := Pair(src, st1, s, d);
        var r := Walk(src, st2, Match(src, st.dest, s, d), 0, 0, false);
        if r.rc != 0 then r.(amend := amend)
        else Checked(0, if r.amend then r.st.(amendPlaylist := r.st.amendPlaylist + {s'}) else r.st, amend)
  }

  /** Follow the script of a matching from positions `i` and `j`. */
  ghost function Walk(src: Db, st: State, m: Matching, i: nat, j: nat, amend: bool): (r: Checked)
    requires SeenAreMapped(st)
    requires Aligned(src, st.dest, m, i, j)
    ensures st.seen <= r.st.seen && st.dest == r.st.dest
    ensures r.rc == 0 ==> SeenAreMapped(r.st)
    decreases src.Keys - st.seen, 1 + |m.srcIds| - i + |m.destIds| - j
  {
    AlignedStep(src, st.dest, m, i, j);
    if i == |m.srcIds| && j == |m.destIds| then Checked(0, st, amend)
    else if i < |m.srcIds| && i + 1 in m.script.additions then
      Walk(src, st.(maybeAdd := st.maybeAdd + {m.srcIds[i]}), m, i + 1, j, true)
    else if j < |m.destIds| && j + 1 in m.script.deletions then
      Walk(src, st.(maybeDelete := st.maybeDelete + {m.destIds[j]}), m, i, j + 1, true)
    else
      var r := Check(src, st, m.srcIds[i], m.destIds[j], amend);
      if r.rc != 0 then r else Walk(src, r.st, m, i + 1, j + 1, r.amend)
  }

  /** A step of a walk that compares a pair. */
  lemma WalkCompared(src: Db, st: State, m: Matching, i: nat, j: nat, amend: bool)
    requires SeenAreMapped(st) && Aligned(src, st.dest, m, i, j) && i < |m.srcIds| && j < |m.destIds|
    requires i + 1 !in m.script.additions && j + 1 !in m.script.deletions
    ensures Aligned(src, st.dest, m, i + 1, j + 1)
    ensures var c := Check(src, st, m.srcIds[i], m.destIds[j], amend);
      Walk(src, st, m, i, j, amend) == if c.rc != 0 then c else Walk(src, c.st, m, i + 1, j + 1, c.amend)
  {
    AlignedStep(src, st.dest, m, i, j);
  }

  /* Deletions */

  datatype Pruned = Pruned(rc: nat, st: State, already: set<Id>)

  /** Delete one destination record whose children have been dealt with. */
  function DeleteRecord(env: Env, st: State, d: Id): State
    requires d in st.dest
  {
    st.(anyDeleted := true,
        events := st.events + (if st.anyDeleted then [] else [OnStage(DELETING)]) + [OnDelete(d)],
        stats := if st.dest[d].IsComposite() then st.stats.(playlistsDeleted := st.stats.playlistsDeleted + 1)
                 else st.stats.(filesDeleted := st.stats.filesDeleted + 1),
        dest := if env.dry || env.remove(d) != 0 then st.dest else st.dest - {d})
  }

  ghost function MaybeDelete(env: Env, st: State, d: Id, already: set<Id>): (r: Pruned)
    ensures already + {d} <= r.already
    ensures r.st.dest.Keys <= st.dest.Keys
    ensures forall x :: x in already && x in st.dest ==> x in r.st.dest && r.st.dest[x] == st.dest[x]
    decreases st.dest.Keys - already, 0
  {
    if d in already then Pruned(0, st, already)
    else if d in st.d2s || d !in st.dest then Pruned(0, st, already + {d})
    else
      var r := MaybeDeleteAll(env, st, st.dest[d].children, already + {d});
      if r.rc != 0 then r
      else Pruned(if env.dry then 0 else env.remove(d), DeleteRecord(env, r.st, d), r.already)
  }

  ghost function MaybeDeleteAll(env: Env, st: State, ds: seq<Id>, already: set<Id>): (r: Pruned)
    ensures already <= r.already
    ensures r.st.dest.Keys <= st.dest.Keys
    ensures forall x :: x in already && x in st.dest ==> x in r.st.dest && r.st.dest[x] == st.dest[x]
    decreases st.dest.Keys - already, 1 + |ds|
  {
    if ds == [] then Pruned(0, st, already)
    else
      var r := MaybeDelete(env, st, ds[0], already);
      if r.rc != 0 then r else MaybeDeleteAll(env, r.st, ds[1..], r.already)
  }

  /* Additions */

  /** Give a source item, whose children have been dealt with, a new destination id. */
  function AssignId(env: Env, st: State, s: Id): (r: (State, Id))
    requires s in env.src
    ensures r.1 in env.src
  {
    var d := env.alloc(st.idsTaken);
    var high := env.src[s].idHigh;
    var st' := st.(idsTaken := st.idsTaken + 1, s2d := st.s2d[s := d], d2s := st.d2s[d := s]);
    if high != 0 && high in env.src then (st'.(s2d := st'.s2d[high := d]), high) else (st', s)
  }

  /** Queue an item to be copied later. */
  function QueueCopy(src: Db, st: State, s: Id): State
    requires s in src
  {
    if src[s].IsComposite() then
      st.(stats := st.stats.(playlistsAdded := st.stats.playlistsAdded + 1),
          addPlaylist := st.addPlaylist + [s])
    else if src[s].mtype.Tune? || src[s].mtype.TuneHigh? then
      st.(stats := st.stats.(filesAdded := st.stats.filesAdded + 1,
                             bytesTransferred := st.stats.bytesTransferred + src[s].size),
          addTune := st.addTune + {s})
    else st
  }

  function AddRecord(env: Env, st: State, s: Id): State
    requires s in env.src
  {
    var (st', s') := AssignId(env, st, s);
    QueueCopy(env.src, st', s')
  }

  ghost function MaybeAdd(env: Env, st: State, s: Id, already: set<Id>): (r: Pruned)
    ensures already + {s} <= r.already
    decreases env.src.Keys - already, 0
  {
    if s in already then Pruned(0, st, already)
    else if s in st.s2d then Pruned(0, st, already + {s})
    else if s !in env.src then Pruned(ENOENT, st, already + {s})
    else if env.src[s].mtype.File? then Pruned(0, st.(s2d := st.s2d[s := 0]), already + {s})
    else
      var r := MaybeAddAll(env, st, env.src[s].children, already + {s});
      if r.rc != 0 then r else Pruned(0, AddRecord(env, r.st, s), r.already)
  }

  ghost function MaybeAddAll(env: Env, st: State, ss: seq<Id>, already: set<Id>): (r: Pruned)
    ensures already <= r.already
    decreases env.src.Keys - already, 1 + |ss|
  {
    if ss == [] then Pruned(0, st, already)
    else
      var r := MaybeAdd(env, st, ss[0], already);
      if r.rc != 0 then r else MaybeAddAll(env, r.st, ss[1..], r.already)
  }

  /* Copying */

  function Lookup(s2d: map<Id, Id>, s: Id): Id {
    if s in s2d then s2d[s] else 0
  }

  /** Looking an item up by subscript leaves a zero behind for an item that had no entry. */
  function Touch(s2d: map<Id, Id>, s: Id): map<Id, Id> {
    s2d[s := Lookup(s2d, s)]
  }

  function TouchAll(s2d: map<Id, Id>, ss: seq<Id>): map<Id, Id>
    decreases ss
  {
    if ss == [] then s2d else TouchAll(Touch(s2d, ss[0]), ss[1..])
  }

  function Mapped(s2d: map<Id, Id>, ss: seq<Id>): seq<Id> {
    if ss == [] then []
    else (if Lookup(s2d, ss[0]) != 0 then [Lookup(s2d, ss[0])] else []) + Mapped(s2d, ss[1..])
  }

  function CopyPlaylist(env: Env, st: State, s: Id, d: Id): Outcome {
    if s !in env.src then Outcome(ENOENT, st)
    else
      var from := env.src[s];
      var st' := st.(s2d := TouchAll(st.s2d, from.children));
      if env.dry then Outcome(0, st')
      else
        var was := if d in st.dest then st.dest[d] else BLANK;
        Outcome(env.commitPlaylist(s),
                st'.(dest := st.dest[d := was.(title := from.title, mtype := from.mtype,
                                               children := Mapped(st.s2d, from.children))]))
  }

  /** The destination's record of a source tune. */
  function TuneCopy(env: Env, from: Record): Record {
    from.(mtype := if from.mtype.TuneHigh? then Tune else from.mtype,
          title := if from.title == "" then env.leafName(from.path) else from.title)
  }

  function CopyMetadata(env: Env, st: State, s: Id, d: Id): Outcome {
    if s !in env.src then Outcome(ENOENT, st)
    else if env.dry then Outcome(0, st)
    else Outcome(env.commitTune(s), st.(dest := st.dest[d := TuneCopy(env, env.src[s])]))
  }

  function CopyItem(env: Env, st: State, phase: Phase, s: Id, num: nat, denom: nat): Outcome {
    var d := Lookup(st.s2d, s);
    var st' := st.(events := st.events + [OnCopy(phase, s, num, denom)], s2d := Touch(st.s2d, s));
    match phase
    case AmendPlaylists =>
      CopyPlaylist(env, st'.(stats := st.stats.(playlistsModified := st.stats.playlistsModified + 1)), s, d)
    case AddPlaylists => CopyPlaylist(env, st', s, d)
    case AmendTunes => CopyMetadata(env, st', s, d)
    case AddTunes =>
      if d == 0 then Outcome(EINVAL, st')
      else
        var r := CopyMetadata(env, st', s, d);
        if r.rc != 0 || env.dry then r else Outcome(env.transfer(s), r.st)
  }

  /** Copy the items from position `k` on, stopping at the first failure. */
  function CopyItems(env: Env, st: State, phase: Phase, items: seq<Id>, k: nat): Outcome
    requires k <= |items|
    decreases |items| - k
  {
    if k == |items| then Outcome(0, st)
    else
      var r := CopyItem(env, st, phase, items[k], k, |items|);
      if r.rc != 0 then r else CopyItems(env, r.st, phase, items, k + 1)
  }

  function Items(st: State, phase: Phase): seq<Id> {
    match phase
    case AmendPlaylists => Ascending(st.amendPlaylist)
    case AddPlaylists => st.addPlaylist
    case AddTunes => Ascending(st.addTune)
    case AmendTunes => Ascending(st.amendMetadata)
  }

  function CopyPhase(env: Env, r: Outcome, phase: Phase): Outcome {
    if r.rc != 0 then r else CopyItems(env, r.st, phase, Items(r.st, phase), 0)
  }

  /** The four copying phases in the order that keeps orphans unlikely if one of them fails. */
  function CopyAll(env: Env, r: Outcome): Outcome {
    var r1 := CopyPhase(env, r, AmendPlaylists);
    var r2 := CopyPhase(env, r1, AddPlaylists);
    var r3 := CopyPhase(env, r2, AddTunes);
    CopyPhase(env, r3, AmendTunes)
  }

  /* The whole run */

  function Start(st: State): State {
    st.(events := st.events + [OnStage(BEGIN)], seen := {}, anyDeleted := false)
  }

  ghost function Plan(env: Env, st: State): Outcome {
    var c := Check(env.src, Start(st), ROOT, ROOT, false);
    if c.rc != 0 then Outcome(c.rc, c.st)
    else
      var del := MaybeDeleteAll(env, c.st, Ascending(c.st.maybeDelete), {});
      if del.rc != 0 then Outcome(del.rc, del.st)
      else
        var add := MaybeAddAll(env, del.st, Ascending(del.st.maybeAdd), {});
        Outcome(add.rc, add.st)
  }

  ghost function Synchronise(env: Env, st: State): Outcome {
    var r := CopyAll(env, Plan(env, st));
    if r.rc != 0 then r else Outcome(0, r.st.(events := r.st.events + [OnStage(END)]))
  }
}
