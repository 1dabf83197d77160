/** What the observers of a run are told, in which order, whatever its source and from whatever state. */
module SyncEvents {
  import opened Ordering
  import opened SyncModel
  import opened SyncMatch
  import opened SyncCopy

  /* Copying */

  /** The calls for the items of a phase from position `i` to `j`. */
  function CopyCalls(phase: Phase, items: seq<Id>, i: nat, j: nat): seq<Event>
    requires i <= j <= |items|
  {
    seq(j - i, k requires 0 <= k < j - i => OnCopy(phase, items[i + k], i + k, |items|))
  }

  ghost predicate SameQueues(st: State, st': State) {
    && st'.amendPlaylist == st.amendPlaylist && st'.addPlaylist == st.addPlaylist
    && st'.addTune == st.addTune && st'.amendMetadata == st.amendMetadata
  }

  lemma CopyItemTells(env: Env, st: State, phase: Phase, s: Id, num: nat, denom: nat)
    ensures var r := CopyItem(env, st, phase, s, num, denom);
      r.st.events == st.events + [OnCopy(phase, s, num, denom)] && SameQueues(st, r.st)
  {
  }

  lemma CallsFrom(phase: Phase, items: seq<Id>, i: nat, j: nat)
    requires i < j <= |items|
    ensures CopyCalls(phase, items, i, j) == [OnCopy(phase, items[i], i, |items|)] + CopyCalls(phase, items, i + 1, j)
  {
  }

  /** Every item is announced before it is copied, with its place and how many there are, up to the first
      that fails. */
  lemma {:induction false} CopyItemsTell(env: Env, st: State, phase: Phase, items: seq<Id>, i: nat) returns (j: nat)
    requires i <= |items|
    ensures i <= j <= |items|
    ensures var r := CopyItems(env, st, phase, items, i);
      && r.st.events == st.events + CopyCalls(phase, items, i, j) && SameQueues(st, r.st)
      && (r.rc == 0 ==> j == |items|)
      && (r.rc != 0 ==> i < j)
    decreases |items| - i
  {
    NoCalls(phase, items, i);
    j := i;
    if i < |items| {
      var r := CopyItem(env, st, phase, items[i], i, |items|);
      CopyItemTells(env, st, phase, items[i], i, |items|);
      j := i + 1;
      if r.rc == 0 {
        j := CopyItemsTell(env, r.st, phase, items, i + 1);
      } else {
        NoCalls(phase, items, j);
      }
      CallsFrom(phase, items, i, j);
      OneMoreCall(st.events, OnCopy(phase, items[i], i, |items|), CopyCalls(phase, items, i + 1, j));
    }
  }

  lemma OneMoreCall(before: seq<Event>, e: Event, rest: seq<Event>)
    ensures before + [e] + rest == before + ([e] + rest) && before + [e] + [] == before + [e]
  {
  }

  lemma NoCalls(phase: Phase, items: seq<Id>, i: nat)
    requires i <= |items|
    ensures CopyCalls(phase, items, i, i) == []
  {
  }

  /** The calls of a run that copies all it has planned. */
  function PhaseCalls(st: State, phase: Phase): seq<Event> {
    CopyCalls(phase, Items(st, phase), 0, |Items(st, phase)|)
  }

  function AllCalls(st: State): seq<Event> {
    PhaseCalls(st, AmendPlaylists) + PhaseCalls(st, AddPlaylists) + PhaseCalls(st, AddTunes) + PhaseCalls(st, AmendTunes)
  }

  /** What a phase adds, after phases that went well, to what they told. */
  lemma PhaseTells(env: Env, st: State, r: Outcome, phase: Phase) returns (calls: seq<Event>)
    requires r.rc == 0 && SameQueues(st, r.st)
    ensures var r' := CopyPhase(env, r, phase);
      && r'.st.events == r.st.events + calls && SameQueues(st, r'.st) && calls <= PhaseCalls(st, phase)
      && (r'.rc == 0 ==> calls == PhaseCalls(st, phase))
  {
    var items := Items(r.st, phase);
    var j := CopyItemsTell(env, r.st, phase, items, 0);
    calls := CopyCalls(phase, items, 0, j);
    assert items == Items(st, phase);
    assert calls == PhaseCalls(st, phase)[..j];
  }

  /** `r` has told `calls`: all of `due`, or if it has failed the first of them. */
  ghost predicate HasTold(st: State, r: Outcome, calls: seq<Event>, due: seq<Event>) {
    r.st.events == st.events + calls && SameQueues(st, r.st) && calls <= due && (r.rc == 0 ==> calls == due)
  }

  lemma PhaseTold(env: Env, st: State, r: Outcome, phase: Phase, calls: seq<Event>, due: seq<Event>) returns (calls': seq<Event>)
    requires HasTold(st, r, calls, due)
    ensures HasTold(st, CopyPhase(env, r, phase), calls', due + PhaseCalls(st, phase))
  {
    calls' := calls;
    if r.rc == 0 {
      var more := PhaseTells(env, st, r, phase);
      calls' := calls + more;
      Further(st.events, calls, more, PhaseCalls(st, phase));
    } else {
      assert due + PhaseCalls(st, phase) == calls + (due[|calls|..] + PhaseCalls(st, phase));
    }
  }

  lemma Further(before: seq<Event>, calls: seq<Event>, more: seq<Event>, all: seq<Event>)
    requires more <= all
    ensures before + calls + more == before + (calls + more) && calls + more <= calls + all
  {
  }

  /** The copying phases tell all their calls in the order of the phases, or the first of them if one fails. */
  lemma CopyAllTells(env: Env, st: State) returns (calls: seq<Event>)
    ensures HasTold(st, CopyAll(env, Outcome(0, st)), calls, AllCalls(st))
  {
    var none: seq<Event> := [];
    assert st.events + none == st.events;
    var c1 := PhaseTold(env, st, Outcome(0, st), AmendPlaylists, none, none);
    var r1 := CopyPhase(env, Outcome(0, st), AmendPlaylists);
    assert none + PhaseCalls(st, AmendPlaylists) == PhaseCalls(st, AmendPlaylists);
    var c2 := PhaseTold(env, st, r1, AddPlaylists, c1, PhaseCalls(st, AmendPlaylists));
    var r2 := CopyPhase(env, r1, AddPlaylists);
    var c3 := PhaseTold(env, st, r2, AddTunes, c2, PhaseCalls(st, AmendPlaylists) + PhaseCalls(st, AddPlaylists));
    calls := PhaseTold(env, st, CopyPhase(env, r2, AddTunes), AmendTunes, c3,
                       PhaseCalls(st, AmendPlaylists) + PhaseCalls(st, AddPlaylists) + PhaseCalls(st, AddTunes));
  }

  /* Deleting */

  ghost predicate OnlyDeletes(evs: seq<Event>) {
    forall k :: 0 <= k < |evs| ==> evs[k].OnDelete?
  }

  /** Deletions alone; before the first of a run, once, that they begin. */
  ghost predicate DeletionCalls(was: bool, now: bool, evs: seq<Event>) {
    if evs == [] then now == was
    else now && if was then OnlyDeletes(evs) else |evs| > 1 && evs[0] == OnStage(DELETING) && OnlyDeletes(evs[1..])
  }

  lemma CallsJoin(was: bool, mid: bool, now: bool, a: seq<Event>, b: seq<Event>)
    requires DeletionCalls(was, mid, a) && DeletionCalls(mid, now, b)
    ensures DeletionCalls(was, now, a + b)
  {
    if a == [] {
      assert a + b == b;
    } else if !was {
      assert (a + b)[1..] == a[1..] + b;
    }
  }

  lemma DeleteRecordTells(env: Env, st: State, d: Id) returns (evs: seq<Event>)
    requires d in st.dest
    ensures var st' := DeleteRecord(env, st, d);
      st'.events == st.events + evs && DeletionCalls(st.anyDeleted, st'.anyDeleted, evs)
  {
    evs := (if st.anyDeleted then [] else [OnStage(DELETING)]) + [OnDelete(d)];
  }

  lemma {:induction false} MaybeDeleteTells(env: Env, st: State, d: Id, already: set<Id>) returns (evs: seq<Event>)
    ensures var r := MaybeDelete(env, st, d, already);
      r.st.events == st.events + evs && DeletionCalls(st.anyDeleted, r.st.anyDeleted, evs)
    decreases st.dest.Keys - already, 0
  {
    evs := [];
    if d !in already && d !in st.d2s && d in st.dest {
      evs := MaybeDeleteAllTells(env, st, st.dest[d].children, already + {d});
      var r := MaybeDeleteAll(env, st, st.dest[d].children, already + {d});
      if r.rc == 0 {
        var more := DeleteRecordTells(env, r.st, d);
        CallsJoin(st.anyDeleted, r.st.anyDeleted, DeleteRecord(env, r.st, d).anyDeleted, evs, more);
        evs := evs + more;
      }
    }
  }

  lemma {:induction false} MaybeDeleteAllTells(env: Env, st: State, ds: seq<Id>, already: set<Id>) returns (evs: seq<Event>)
    ensures var r := MaybeDeleteAll(env, st, ds, already);
      r.st.events == st.events + evs && DeletionCalls(st.anyDeleted, r.st.anyDeleted, evs)
    decreases st.dest.Keys - already, 1 + |ds|
  {
    evs := [];
    if ds != [] {
      evs := MaybeDeleteTells(env, st, ds[0], already);
      var r := MaybeDelete(env, st, ds[0], already);
      if r.rc == 0 {
        var more := MaybeDeleteAllTells(env, r.st, ds[1..], r.already);
        CallsJoin(st.anyDeleted, r.st.anyDeleted, MaybeDeleteAll(env, r.st, ds[1..], r.already).st.anyDeleted, evs, more);
        evs := evs + more;
      }
    }
  }

  /* Whole runs */

  /** Matching and adding tell nothing. */
  lemma {:induction false} CheckTells(src: Db, st: State, s: Id, d: Id, amend: bool)
    requires SeenAreMapped(st)
    ensures Silent(st, Check(src, st, s, d, amend).st)
    decreases src.Keys - st.seen, 0
  {
    if (s !in st.seen || s !in st.s2d) && s in src && d in st.dest {
      var st1 := st.(seen := st.seen + {s});
      PairTells(src, st1, s, d);
      WalkTells(src, Pair(src, st1, s, d).0, Match(src, st.dest, s, d), 0, 0, false);
    }
  }

  lemma PairTells(src: Db, st: State, s: Id, d: Id)
    requires s in src && d in st.dest
    ensures Silent(st, Pair(src, st, s, d).0)
  {
  }

  ghost predicate Silent(st: State, st': State) {
    st'.events == st.events && st'.anyDeleted == st.anyDeleted
  }

  lemma {:induction false} WalkTells(src: Db, st: State, m: Matching, i: nat, j: nat, amend: bool)
    requires SeenAreMapped(st) && Aligned(src, st.dest, m, i, j)
    ensures Silent(st, Walk(src, st, m, i, j, amend).st)
    decreases src.Keys - st.seen, 1 + |m.srcIds| - i + |m.destIds| - j
  {
    AlignedStep(src, st.dest, m, i, j);
    if i == |m.srcIds| && j == |m.destIds| {
    } else if i < |m.srcIds| && i + 1 in m.script.additions {
      WalkTells(src, st.(maybeAdd := st.maybeAdd + {m.srcIds[i]}), m, i + 1, j, true);
    } else if j < |m.destIds| && j + 1 in m.script.deletions {
      WalkTells(src, st.(maybeDelete := st.maybeDelete + {m.destIds[j]}), m, i, j + 1, true);
    } else {
      var r := Check(src, st, m.srcIds[i], m.destIds[j], amend);
      CheckTells(src, st, m.srcIds[i], m.destIds[j], amend);
      if r.rc == 0 { WalkTells(src, r.st, m, i + 1, j + 1, r.amend); }
    }
  }

  lemma {:induction false} MaybeAddTells(env: Env, st: State, s: Id, already: set<Id>)
    ensures MaybeAdd(env, st, s, already).st.events == st.events
    decreases env.src.Keys - already, 0
  {
    if s !in already && s !in st.s2d && s in env.src && !env.src[s].mtype.File? {
      MaybeAddAllTells(env, st, env.src[s].children, already + {s});
    }
  }

  lemma {:induction false} MaybeAddAllTells(env: Env, st: State, ss: seq<Id>, already: set<Id>)
    ensures MaybeAddAll(env, st, ss, already).st.events == st.events
    decreases env.src.Keys - already, 1 + |ss|
  {
    if ss != [] {
      MaybeAddTells(env, st, ss[0], already);
      var r := MaybeAdd(env, st, ss[0], already);
      if r.rc == 0 { MaybeAddAllTells(env, r.st, ss[1..], r.already); }
    }
  }

  /** A plan tells that the run begins, and of its deletions. */
  lemma PlanTells(env: Env, st: State) returns (dels: seq<Event>, any: bool)
    ensures Plan(env, st).st.events == st.events + [OnStage(BEGIN)] + dels && DeletionCalls(false, any, dels)
  {
    var start := Start(st);
    CheckTells(env.src, start, ROOT, ROOT, false);
    var c := Check(env.src, start, ROOT, ROOT, false);
    dels, any := [], false;
    assert start.events + [] == start.events;
    if c.rc == 0 {
      dels := MaybeDeleteAllTells(env, c.st, Ascending(c.st.maybeDelete), {});
      var del := MaybeDeleteAll(env, c.st, Ascending(c.st.maybeDelete), {});
      any := del.st.anyDeleted;
      MaybeAddAllTells(env, del.st, Ascending(del.st.maybeAdd), {});
    }
  }

  /** Any run, from any state of the synchroniser, tells its observers that it begins; then, once and only
      if there are any, that it is deleting, and each deletion; then each item that it copies, with its
      place in its phase, the phases in order; and that it has ended if it was not broken off.  If it was
      planned, what it has told of copying is all that is due, or if it failed the first of it. */
  lemma RunTells(env: Env, st: State) returns (dels: seq<Event>, calls: seq<Event>, any: bool)
    ensures var p, r := Plan(env, st), Synchronise(env, st);
      && DeletionCalls(false, any, dels)
      && r.st.events
         == st.events + [OnStage(BEGIN)] + dels + calls + (if r.rc == 0 then [OnStage(END)] else [])
      && (if p.rc != 0 then calls == [] && r.rc == p.rc else calls <= AllCalls(p.st))
      && (r.rc == 0 ==> calls == AllCalls(p.st))
  {
    dels, any := PlanTells(env, st);
    var p := Plan(env, st);
    calls := [];
    assert p.st.events + [] == p.st.events;
    if p.rc == 0 { calls := CopyAllTells(env, p.st); }
    assert p.st.events + calls + [] == p.st.events + calls;
  }
}
