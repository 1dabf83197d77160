/** Runs from a source with high-quality versions: each stands for the item that names it, whose place
    the destination's record of it takes. */
module SyncHigh {
  import opened SyncModel
  import opened SyncMatch

  predicate HasHigh(src: Db, s: Id) {
    s in src && src[s].idHigh != 0 && src[s].idHigh in src
  }

  /** The version of an item that is to be copied. */
  function Best(src: Db, s: Id): Id {
    if HasHigh(src, s) then src[s].idHigh else s
  }

  ghost predicate IsHigh(src: Db, h: Id) {
    exists s :: HasHigh(src, s) && Best(src, s) == h
  }

  /** High-quality versions are of items and items themselves, each of one only that has no other; and no
      list has them, so that they are reached only through the items that name them. */
  ghost predicate HighSource(src: Db) {
    && Rooted(src) && 0 !in src
    && (forall s :: HasHigh(src, s) ==> src[s].IsItem() && src[Best(src, s)].IsItem() && !HasHigh(src, Best(src, s)))
    && (forall s, t :: HasHigh(src, s) && HasHigh(src, t) && Best(src, s) == Best(src, t) ==> s == t)
    && (forall p, c :: p in src && c in src[p].children ==> !IsHigh(src, c))
  }

  /** The source as it would be if every item were its best version, under its own name and tags. */
  function Resolved(src: Db): Db {
    map s | s in src :: ResolvedRecord(src, s)
  }

  function ResolvedRecord(src: Db, s: Id): Record
    requires s in src
  {
    if HasHigh(src, s) then
      src[Best(src, s)].(title := src[s].title, children := src[s].children, tags := src[s].tags, idHigh := 0)
    else src[s]
  }

  lemma ResolvedIsGood(src: Db)
    requires HighSource(src)
    ensures GoodSource(Resolved(src))
  {
  }

  function Bests(src: Db, a: set<Id>): set<Id> {
    set s | s in a :: Best(src, s)
  }

  /** Every item is mapped as `n` has it, and its high-quality version with it. */
  ghost predicate MapsStand(src: Db, m: map<Id, Id>, n: map<Id, Id>) {
    && (forall x :: x in n ==> !IsHigh(src, x))
    && (forall x :: !IsHigh(src, x) ==> (x in m <==> x in n) && (x in n ==> m[x] == n[x]))
    && (forall s :: HasHigh(src, s) ==> (Best(src, s) in m <==> s in n) && (s in n ==> m[Best(src, s)] == n[s]))
  }

  /** `st` is a state of a run from the source itself, `n` of one from it resolved. */
  ghost predicate Stands(src: Db, st: State, n: State) {
    && st == n.(s2d := st.s2d, d2s := st.d2s, addTune := Bests(src, n.addTune),
                amendMetadata := Bests(src, n.amendMetadata), amendPlaylist := Bests(src, n.amendPlaylist))
    && st.d2s.Keys == n.d2s.Keys
    && (forall s :: s in n.maybeAdd ==> !IsHigh(src, s))
    && MapsStand(src, st.s2d, n.s2d)
  }

  lemma BestsAdd(src: Db, a: set<Id>, s: Id)
    ensures Bests(src, a + {s}) == Bests(src, a) + {Best(src, s)}
  {
  }

  lemma MapsStandPut(src: Db, m: map<Id, Id>, n: map<Id, Id>, s: Id, d: Id)
    requires HighSource(src) && MapsStand(src, m, n) && !IsHigh(src, s)
    ensures MapsStand(src, m[s := d][Best(src, s) := d], n[s := d])
  {
    var m', n' := m[s := d][Best(src, s) := d], n[s := d];
    forall x: Id | !IsHigh(src, x) ensures (x in m' <==> x in n') && (x in n' ==> m'[x] == n'[x]) {
      if HasHigh(src, s) { assert IsHigh(src, Best(src, s)); }
    }
    forall t: Id | HasHigh(src, t) ensures (Best(src, t) in m' <==> t in n') && (t in n' ==> m'[Best(src, t)] == n'[t]) {
      assert IsHigh(src, Best(src, t));
    }
  }

  /* Matching */

  lemma {:induction false} NamedResolved(src: Db, ids: seq<Id>)
    requires HighSource(src)
    ensures Named(Resolved(src), ids) == Named(src, ids)
  {
    if ids != [] { NamedResolved(src, ids[1..]); }
  }

  lemma MatchResolved(src: Db, dest: Db, s: Id, d: Id)
    requires HighSource(src)
    ensures Match(Resolved(src), dest, s, d) == Match(src, dest, s, d)
  {
    var ids := Kids(src, s);
    if s in src { NamedResolved(src, src[s].children); }
    assert Kids(Resolved(src), s) == ids;
    assert AllIn(ids, src) by { if s in src { NamedAllIn(src, src[s].children); } }
    assert Names(Resolved(src), ids) == Names(src, ids);
  }

  predicate OnlyQueues(st: State, st': State) {
    st' == st.(addTune := st'.addTune, amendMetadata := st'.amendMetadata, stats := st'.stats)
  }

  /** Two queues, and the count of changes, of two states. */
  ghost predicate QueuesStand(src: Db, st: State, n: State) {
    && st.addTune == Bests(src, n.addTune) && st.amendMetadata == Bests(src, n.amendMetadata) && st.stats == n.stats
  }

  /** What comparing finds of an item's size and tags. */
  datatype Finding = OtherSize | OtherTags | AsItIs

  function FindingOf(size: nat, tags: Tags, to: Record): Finding {
    if size != to.size then OtherSize else if tags != to.tags then OtherTags else AsItIs
  }

  function Queued(st: State, f: Finding, x: Id): State {
    match f
    case OtherSize => st.(addTune := st.addTune + {x})
    case OtherTags => st.(amendMetadata := st.amendMetadata + {x},
                          stats := st.stats.(filesModified := st.stats.filesModified + 1))
    case AsItIs => st
  }

  lemma CompareIs(src: Db, st: State, s: Id, d: Id)
    requires s in src && d in st.dest && !st.dest[d].IsComposite()
    ensures var x := Best(src, s);
      Compare(src, st, s, d)
      == (Queued(if HasHigh(src, s) then st.(s2d := st.s2d[s := d]) else st,
                 FindingOf(src[x].size, src[s].tags, st.dest[d]), x), x)
  {
  }

  lemma QueuedStands(src: Db, st: State, n: State, f: Finding, s: Id)
    requires QueuesStand(src, st, n)
    ensures QueuesStand(src, Queued(st, f, Best(src, s)), Queued(n, f, s)) && OnlyQueues(n, Queued(n, f, s))
    ensures OnlyQueues(st, Queued(st, f, Best(src, s)))
  {
    BestsAdd(src, n.addTune, s);
    BestsAdd(src, n.amendMetadata, s);
  }

  lemma ResolvedAt(src: Db, s: Id)
    requires HighSource(src) && s in src
    ensures var r := Resolved(src)[s];
      && r.size == src[Best(src, s)].size && r.tags == src[s].tags && r.children == src[s].children
      && r.Name() == src[s].Name() && r.mtype.File? == src[s].mtype.File?
      && !HasHigh(Resolved(src), s) && Best(Resolved(src), s) == s
  {
  }

  /** Two states whose queues stand, and whose maps get one more entry. */
  lemma LinkedStands(src: Db, st: State, n: State, q: State, k: State, s: Id, x: Id, d: Id, m: map<Id, Id>)
    requires Stands(src, st, n) && QueuesStand(src, q, k) && MapsStand(src, m, n.s2d[s := d])
    requires OnlyQueues(st.(s2d := q.s2d), q) && OnlyQueues(n, k)
    ensures Stands(src, q.(d2s := q.d2s[d := x], s2d := m), k.(d2s := k.d2s[d := s], s2d := k.s2d[s := d]))
  {
  }

  lemma PairStands(src: Db, st: State, n: State, s: Id, d: Id)
    requires HighSource(src) && Stands(src, st, n) && !IsHigh(src, s) && s in src && d in st.dest
    requires src[s].IsComposite() == st.dest[d].IsComposite()
    ensures var (st', s') := Pair(src, st, s, d);
      var (n', s'') := Pair(Resolved(src), n, s, d);
      Stands(src, st', n') && s' == Best(src, s) && s'' == s
  {
    MapsStandPut(src, st.s2d, n.s2d, s, d);
    if st.dest[d].IsComposite() { PairListStands(src, st, n, s, d); } else { PairItemStands(src, st, n, s, d); }
  }

  lemma PairListStands(src: Db, st: State, n: State, s: Id, d: Id)
    requires Stands(src, st, n) && s in src && d in st.dest && st.dest[d].IsComposite() && !HasHigh(src, s)
    requires MapsStand(src, st.s2d[s := d][s := d], n.s2d[s := d])
    ensures var (st', s') := Pair(src, st, s, d);
      var (n', s'') := Pair(Resolved(src), n, s, d);
      Stands(src, st', n') && s' == s && s'' == s
  {
    assert st.s2d[s := d][s := d] == st.s2d[s := d];
    LinkedStands(src, st, n, st, n, s, s, d, st.s2d[s := d]);
  }

  lemma PairItemStands(src: Db, st: State, n: State, s: Id, d: Id)
    requires HighSource(src) && Stands(src, st, n) && s in src && d in st.dest && !st.dest[d].IsComposite()
    requires MapsStand(src, st.s2d[s := d][Best(src, s) := d], n.s2d[s := d])
    ensures var (st', s') := Pair(src, st, s, d);
      var (n', s'') := Pair(Resolved(src), n, s, d);
      Stands(src, st', n') && s' == Best(src, s) && s'' == s
  {
    ResolvedAt(src, s);
    CompareIs(src, st, s, d);
    CompareIs(Resolved(src), n, s, d);
    var x := Best(src, s);
    ItemLinked(src, st, n, if HasHigh(src, s) then st.s2d[s := d] else st.s2d,
               FindingOf(src[x].size, src[s].tags, st.dest[d]), s, d);
  }

  lemma ItemLinked(src: Db, st: State, n: State, m: map<Id, Id>, f: Finding, s: Id, d: Id)
    requires Stands(src, st, n) && m == (if HasHigh(src, s) then st.s2d[s := d] else st.s2d)
    requires MapsStand(src, st.s2d[s := d][Best(src, s) := d], n.s2d[s := d])
    ensures var x := Best(src, s);
      var q, k := Queued(st.(s2d := m), f, x), Queued(n, f, s);
      Stands(src, q.(d2s := q.d2s[d := x], s2d := q.s2d[x := d]), k.(d2s := k.d2s[d := s], s2d := k.s2d[s := d]))
  {
    var x, st1 := Best(src, s), st.(s2d := m);
    QueuedStands(src, st1, n, f, s);
    assert m[x := d] == st.s2d[s := d][x := d];
    LinkedStands(src, st, n, Queued(st1, f, x), Queued(n, f, s), s, x, d, m[x := d]);
  }

  ghost predicate ChecksStand(src: Db, a: Checked, b: Checked) {
    a.rc == b.rc && a.amend == b.amend && Stands(src, a.st, b.st)
  }

  lemma KidNotHigh(src: Db, p: Id, k: nat)
    requires HighSource(src) && k < |Kids(src, p)|
    ensures !IsHigh(src, Kids(src, p)[k]) && Kids(src, p)[k] in src
  {
    NamedElements(src, src[p].children);
    assert Kids(src, p)[k] in Kids(src, p);
  }

  /** What is seen is mapped in both. */
  lemma SeenStands(src: Db, st: State, n: State)
    requires Stands(src, st, n) && SeenAreMapped(n)
    ensures SeenAreMapped(st)
  {
  }

  /** A pair whose walk has ended. */
  lemma ClosedStands(src: Db, a: Checked, b: Checked, s: Id, amend: bool)
    requires ChecksStand(src, a, b)
    ensures ChecksStand(src, a.(amend := amend), b.(amend := amend))
    ensures ChecksStand(src, Checked(0, Closed(a, Best(src, s)), amend), Checked(0, Closed(b, s), amend))
  {
    BestsAdd(src, b.st.amendPlaylist, s);
  }

  lemma {:induction false} CheckStands(src: Db, st: State, n: State, s: Id, d: Id, amend: bool)
    requires HighSource(src) && Stands(src, st, n) && SeenAreMapped(st) && SeenAreMapped(n) && !IsHigh(src, s)
    requires s in src && d in st.dest ==> src[s].IsComposite() == st.dest[d].IsComposite()
    ensures ChecksStand(src, Check(src, st, s, d, amend), Check(Resolved(src), n, s, d, amend))
    decreases src.Keys - st.seen, 0
  {
    if s !in st.seen || s !in st.s2d {
      var st1, n1 := st.(seen := st.seen + {s}), n.(seen := n.seen + {s});
      if s in src && d in st.dest {
        PairStands(src, st1, n1, s, d);
        MatchResolved(src, st.dest, s, d);
        var m := Match(src, st.dest, s, d);
        var (st2, s') := Pair(src, st1, s, d);
        var (n2, s'') := Pair(Resolved(src), n1, s, d);
        WalkStands(src, st2, n2, m, s, 0, 0, false);
        var a, b := Walk(src, st2, m, 0, 0, false), Walk(Resolved(src), n2, m, 0, 0, false);
        CheckIs(src, st, s, d, amend);
        CheckIs(Resolved(src), n, s, d, amend);
        ClosedStands(src, a, b, s, amend);
      }
    }
  }

  lemma CheckIs(src: Db, st: State, s: Id, d: Id, amend: bool)
    requires SeenAreMapped(st) && (s !in st.seen || s !in st.s2d) && s in src && d in st.dest
    ensures var (st2, s') := Pair(src, st.(seen := st.seen + {s}), s, d);
      var w := Walk(src, st2, Match(src, st.dest, s, d), 0, 0, false);
      Check(src, st, s, d, amend) == if w.rc != 0 then w.(amend := amend) else Checked(0, Closed(w, s'), amend)
  {
  }

  /** Two walks at the same step of the same matching. */
  ghost predicate Walking(src: Db, st: State, n: State, m: Matching, p: Id, i: nat, j: nat) {
    && HighSource(src) && Stands(src, st, n) && SeenAreMapped(st) && SeenAreMapped(n) && m.srcIds == Kids(src, p)
    && Aligned(src, st.dest, m, i, j) && Aligned(Resolved(src), n.dest, m, i, j)
  }

  ghost predicate WalksStand(src: Db, st: State, n: State, m: Matching, i: nat, j: nat, amend: bool)
    requires SeenAreMapped(st) && SeenAreMapped(n)
    requires Aligned(src, st.dest, m, i, j) && Aligned(Resolved(src), n.dest, m, i, j)
  {
    ChecksStand(src, Walk(src, st, m, i, j, amend), Walk(Resolved(src), n, m, i, j, amend))
  }

  lemma {:induction false} WalkStands(src: Db, st: State, n: State, m: Matching, p: Id, i: nat, j: nat, amend: bool)
    requires Walking(src, st, n, m, p, i, j)
    ensures WalksStand(src, st, n, m, i, j, amend)
    decreases src.Keys - st.seen, 1 + |m.srcIds| - i + |m.destIds| - j, 1
  {
    AlignedStep(src, st.dest, m, i, j);
    if i == |m.srcIds| && j == |m.destIds| {
    } else if i < |m.srcIds| && i + 1 in m.script.additions {
      WalkAddedStands(src, st, n, m, p, i, j, amend);
    } else if j < |m.destIds| && j + 1 in m.script.deletions {
      WalkDeletedStands(src, st, n, m, p, i, j, amend);
    } else {
      WalkPairStands(src, st, n, m, p, i, j, amend);
    }
  }

  lemma {:induction false} WalkAddedStands(src: Db, st: State, n: State, m: Matching, p: Id, i: nat, j: nat, amend: bool)
    requires Walking(src, st, n, m, p, i, j) && i < |m.srcIds| && i + 1 in m.script.additions
    ensures WalksStand(src, st, n, m, i, j, amend)
    decreases src.Keys - st.seen, 1 + |m.srcIds| - i + |m.destIds| - j, 0
  {
    AlignedStep(src, st.dest, m, i, j);
    AlignedStep(Resolved(src), n.dest, m, i, j);
    KidNotHigh(src, p, i);
    var s := m.srcIds[i];
    WalkStands(src, st.(maybeAdd := st.maybeAdd + {s}), n.(maybeAdd := n.maybeAdd + {s}), m, p, i + 1, j, true);
  }

  lemma {:induction false} WalkDeletedStands(src: Db, st: State, n: State, m: Matching, p: Id, i: nat, j: nat, amend: bool)
    requires Walking(src, st, n, m, p, i, j) && !(i < |m.srcIds| && i + 1 in m.script.additions)
    requires j < |m.destIds| && j + 1 in m.script.deletions
    ensures WalksStand(src, st, n, m, i, j, amend)
    decreases src.Keys - st.seen, 1 + |m.srcIds| - i + |m.destIds| - j, 0
  {
    AlignedStep(src, st.dest, m, i, j);
    AlignedStep(Resolved(src), n.dest, m, i, j);
    var d := m.destIds[j];
    WalkStands(src, st.(maybeDelete := st.maybeDelete + {d}), n.(maybeDelete := n.maybeDelete + {d}), m, p, i, j + 1, true);
  }

  lemma PairOfWalk(src: Db, st: State, n: State, m: Matching, p: Id, i: nat, j: nat)
    requires Walking(src, st, n, m, p, i, j)
    requires i < |m.srcIds| && j < |m.destIds| && i + 1 !in m.script.additions && j + 1 !in m.script.deletions
    ensures !IsHigh(src, m.srcIds[i]) && m.srcIds[i] in src && m.destIds[j] in st.dest
    ensures src[m.srcIds[i]].IsComposite() == st.dest[m.destIds[j]].IsComposite()
    ensures Aligned(src, st.dest, m, i + 1, j + 1) && Aligned(Resolved(src), n.dest, m, i + 1, j + 1)
  {
    AlignedStep(src, st.dest, m, i, j);
    AlignedStep(Resolved(src), n.dest, m, i, j);
    KidNotHigh(src, p, i);
  }

  lemma WalkingOn(src: Db, st: State, n: State, m: Matching, p: Id, i: nat, j: nat, st': State, n': State)
    requires Walking(src, st, n, m, p, i, j) && Stands(src, st', n') && st'.dest == st.dest && SeenAreMapped(n')
    requires Aligned(src, st.dest, m, i + 1, j + 1) && Aligned(Resolved(src), n.dest, m, i + 1, j + 1)
    ensures Walking(src, st', n', m, p, i + 1, j + 1)
  {
    SeenStands(src, st', n');
  }

  lemma {:induction false} WalkPairStands(src: Db, st: State, n: State, m: Matching, p: Id, i: nat, j: nat, amend: bool)
    requires Walking(src, st, n, m, p, i, j)
    requires i < |m.srcIds| && j < |m.destIds| && i + 1 !in m.script.additions && j + 1 !in m.script.deletions
    ensures WalksStand(src, st, n, m, i, j, amend)
    decreases src.Keys - st.seen, 1 + |m.srcIds| - i + |m.destIds| - j, 0
  {
    PairOfWalk(src, st, n, m, p, i, j);
    CheckStands(src, st, n, m.srcIds[i], m.destIds[j], amend);
    var a, b := Check(src, st, m.srcIds[i], m.destIds[j], amend), Check(Resolved(src), n, m.srcIds[i], m.destIds[j], amend);
    if a.rc == 0 {
      WalkingOn(src, st, n, m, p, i, j, a.st, b.st);
      WalkStands(src, a.st, b.st, m, p, i + 1, j + 1, a.amend);
    }
    PairJoins(src, st, n, m, i, j, amend, a, b);
  }

  lemma PairJoins(src: Db, st: State, n: State, m: Matching, i: nat, j: nat, amend: bool, a: Checked, b: Checked)
    requires SeenAreMapped(st) && SeenAreMapped(n) && ChecksStand(src, a, b)
    requires Aligned(src, st.dest, m, i, j) && Aligned(Resolved(src), n.dest, m, i, j)
    requires i < |m.srcIds| && j < |m.destIds| && i + 1 !in m.script.additions && j + 1 !in m.script.deletions
    requires a == Check(src, st, m.srcIds[i], m.destIds[j], amend)
    requires b == Check(Resolved(src), n, m.srcIds[i], m.destIds[j], amend)
    requires Aligned(src, st.dest, m, i + 1, j + 1) && Aligned(Resolved(src), n.dest, m, i + 1, j + 1)
    requires a.rc == 0 ==> WalksStand(src, a.st, b.st, m, i + 1, j + 1, a.amend)
    ensures WalksStand(src, st, n, m, i, j, amend)
  {
    WalkCompared(src, st, m, i, j, amend);
    WalkCompared(Resolved(src), n, m, i, j, amend);
  }

  /* Deleting */

  ghost predicate PrunedStand(src: Db, a: Pruned, b: Pruned) {
    a.rc == b.rc && a.already == b.already && Stands(src, a.st, b.st)
  }

  /** The calls on high-quality versions, as calls on the items that they stand for. */
  function ResolvedEnv(env: Env): Env {
    env.(src := Resolved(env.src),
         commitPlaylist := s => env.commitPlaylist(Best(env.src, s)),
         commitTune := s => env.commitTune(Best(env.src, s)),
         transfer := s => env.transfer(Best(env.src, s)))
  }

  lemma {:induction false} MaybeDeleteStands(env: Env, st: State, n: State, d: Id, already: set<Id>)
    requires Stands(env.src, st, n)
    ensures PrunedStand(env.src, MaybeDelete(env, st, d, already), MaybeDelete(ResolvedEnv(env), n, d, already))
    decreases st.dest.Keys - already, 0
  {
    if d !in already && d !in st.d2s && d in st.dest {
      MaybeDeleteAllStands(env, st, n, st.dest[d].children, already + {d});
      var a := MaybeDeleteAll(env, st, st.dest[d].children, already + {d});
      var b := MaybeDeleteAll(ResolvedEnv(env), n, st.dest[d].children, already + {d});
      if a.rc == 0 { DeleteRecordStands(env, a.st, b.st, d); }
    }
  }

  lemma DeleteRecordStands(env: Env, st: State, n: State, d: Id)
    requires Stands(env.src, st, n) && d in st.dest
    ensures Stands(env.src, DeleteRecord(env, st, d), DeleteRecord(ResolvedEnv(env), n, d))
  {
  }

  lemma {:induction false} MaybeDeleteAllStands(env: Env, st: State, n: State, ds: seq<Id>, already: set<Id>)
    requires Stands(env.src, st, n)
    ensures PrunedStand(env.src, MaybeDeleteAll(env, st, ds, already), MaybeDeleteAll(ResolvedEnv(env), n, ds, already))
    decreases st.dest.Keys - already, 1 + |ds|
  {
    if ds != [] {
      MaybeDeleteStands(env, st, n, ds[0], already);
      var a, b := MaybeDelete(env, st, ds[0], already), MaybeDelete(ResolvedEnv(env), n, ds[0], already);
      if a.rc == 0 { MaybeDeleteAllStands(env, a.st, b.st, ds[1..], a.already); }
    }
  }

  /* Adding */

  lemma PutTwice(m: map<Id, Id>, s: Id, d: Id)
    ensures m[s := d][s := d] == m[s := d]
  {
  }

  lemma AssignIs(env: Env, st: State, s: Id)
    requires s in env.src
    ensures var d, x := env.alloc(st.idsTaken), Best(env.src, s);
      AssignId(env, st, s)
      == (st.(idsTaken := st.idsTaken + 1, s2d := st.s2d[s := d][x := d], d2s := st.d2s[d := s]), x)
  {
    PutTwice(st.s2d, s, env.alloc(st.idsTaken));
  }

  lemma AssignedStands(src: Db, st: State, n: State, s: Id, d: Id)
    requires HighSource(src) && Stands(src, st, n) && !IsHigh(src, s)
    ensures Stands(src, st.(idsTaken := st.idsTaken + 1, s2d := st.s2d[s := d][Best(src, s) := d], d2s := st.d2s[d := s]),
                   n.(idsTaken := n.idsTaken + 1, s2d := n.s2d[s := d], d2s := n.d2s[d := s]))
  {
    MapsStandPut(src, st.s2d, n.s2d, s, d);
  }

  lemma AssignStands(env: Env, st: State, n: State, s: Id)
    requires HighSource(env.src) && Stands(env.src, st, n) && s in env.src && !IsHigh(env.src, s)
    ensures var (st', s') := AssignId(env, st, s);
      var (n', s'') := AssignId(ResolvedEnv(env), n, s);
      Stands(env.src, st', n') && s' == Best(env.src, s) && s'' == s
  {
    ResolvedAt(env.src, s);
    AssignIs(env, st, s);
    AssignIs(ResolvedEnv(env), n, s);
    PutTwice(n.s2d, s, env.alloc(n.idsTaken));
    AssignedStands(env.src, st, n, s, env.alloc(st.idsTaken));
  }

  lemma QueueCopyStands(src: Db, r: Db, st: State, n: State, s: Id, x: Id)
    requires Stands(src, st, n) && x in src && s in r && x == Best(src, s) && (r[s].IsComposite() ==> x == s)
    requires src[x].mtype == r[s].mtype && src[x].size == r[s].size
    ensures Stands(src, QueueCopy(src, st, x), QueueCopy(r, n, s))
  {
    BestsAdd(src, n.addTune, s);
  }

  lemma AddRecordStands(env: Env, st: State, n: State, s: Id)
    requires HighSource(env.src) && Stands(env.src, st, n) && s in env.src && !IsHigh(env.src, s)
    ensures Stands(env.src, AddRecord(env, st, s), AddRecord(ResolvedEnv(env), n, s))
  {
    AssignStands(env, st, n, s);
    QueueCopyStands(env.src, Resolved(env.src), AssignId(env, st, s).0, AssignId(ResolvedEnv(env), n, s).0, s, Best(env.src, s));
  }

  lemma {:induction false} MaybeAddStands(env: Env, st: State, n: State, s: Id, already: set<Id>)
    requires HighSource(env.src) && Stands(env.src, st, n) && !IsHigh(env.src, s)
    ensures PrunedStand(env.src, MaybeAdd(env, st, s, already), MaybeAdd(ResolvedEnv(env), n, s, already))
    decreases env.src.Keys - already, 0
  {
    if s !in already && s !in st.s2d && s in env.src {
      ResolvedAt(env.src, s);
      if env.src[s].mtype.File? {
        MapsStandPut(env.src, st.s2d, n.s2d, s, 0);
        assert st.s2d[s := 0][s := 0] == st.s2d[s := 0];
      } else {
        var kids := env.src[s].children;
        MaybeAddAllStands(env, st, n, kids, already + {s});
        var a, b := MaybeAddAll(env, st, kids, already + {s}), MaybeAddAll(ResolvedEnv(env), n, kids, already + {s});
        if a.rc == 0 { AddRecordStands(env, a.st, b.st, s); }
      }
    }
  }

  lemma {:induction false} MaybeAddAllStands(env: Env, st: State, n: State, ss: seq<Id>, already: set<Id>)
    requires HighSource(env.src) && Stands(env.src, st, n) && forall s :: s in ss ==> !IsHigh(env.src, s)
    ensures PrunedStand(env.src, MaybeAddAll(env, st, ss, already), MaybeAddAll(ResolvedEnv(env), n, ss, already))
    decreases env.src.Keys - already, 1 + |ss|
  {
    if ss != [] {
      MaybeAddStands(env, st, n, ss[0], already);
      var a, b := MaybeAdd(env, st, ss[0], already), MaybeAdd(ResolvedEnv(env), n, ss[0], already);
      if a.rc == 0 { MaybeAddAllStands(env, a.st, b.st, ss[1..], a.already); }
    }
  }
}
