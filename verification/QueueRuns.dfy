/** The playback queue over whole runs of its operations. */
module QueueRuns {
  import opened QueueModel

  /** What can be done to a queue, the player's reports that the current track or the next one has
      begun among it.  Where an insertion by entry puts the track in the playing order,
      and how a shuffle comes out, is any of the outcomes there are. */
  datatype Op =
    | OpAdd(e: Entry)
    | OpQueueInsert(e: Entry, at: nat)
    | OpEntryInsert(e: Entry, at: nat, pos: nat)
    | OpQueueRemove(first: nat, last: nat)
    | OpEntryRemove(first: nat, last: nat)
    | OpShuffle(on: bool)
    | OpPlayed
    | OpAdvance
    | OpSeek(index: nat)

  /** The current track has begun to play. */
  function Played(st: State): State
    requires st.current < |st.queue| && st.queue[st.current] < |st.entries|
  {
    var x := st.queue[st.current];
    st.(entries := st.entries[x := st.entries[x].(played := true)])
  }

  ghost predicate Plays(st: State, st': State) {
    st.current < |st.queue| && st.queue[st.current] < |st.entries| && st' == Played(st)
  }

  ghost predicate Next(st: State, op: Op, st': State)
    requires st.current <= |st.queue|
  {
    match op
    case OpAdd(e) => e.db != 0 && st' == st.(entries := st.entries + [e], queue := st.queue + [|st.entries|])
    case OpQueueInsert(e, at) => e.db != 0 && at <= |st.queue| && st' == QueueInsert(st, e, at)
    case OpEntryInsert(e, at, pos) =>
      e.db != 0 && at <= |st.entries| && pos <= |st.queue| && st' == EntryInsert(st, e, at, pos)
    case OpQueueRemove(first, last) => first <= last <= |st.queue| && st' == QueueRemoved(st, first, last)
    case OpEntryRemove(first, last) => first <= last <= |st.entries| && st' == Remove(st, Range(first, last))
    case OpShuffle(on) =>
      if on == st.shuffled || |st.entries| <= 1 then st' == st.(shuffled := on)
      else st.current < |st.queue| && if on then Bipartite(st, st') else st' == Unshuffle(st)
    case OpPlayed => Plays(st, st')
    case OpAdvance => Plays(st.(current := st.current + 1), st')
    case OpSeek(index) => st' == if index < |st.queue| then st.(current := index) else st
  }

  lemma AddSound(st: State, e: Entry)
    requires Sound(st) && e.db != 0
    ensures Sound(st.(entries := st.entries + [e], queue := st.queue + [|st.entries|]))
  {
    PermutationSize(st.queue, |st.entries|);
    QueueInsertOrder(st, e, |st.queue|);
    assert InsertAt(st.queue, |st.queue|, |st.entries|) == st.queue + [|st.entries|];
  }

  lemma InsertReal(es: seq<Entry>, at: nat, e: Entry)
    requires at <= |es| && e.db != 0 && forall x :: x in es ==> x.db != 0
    ensures forall x :: x in InsertAt(es, at, e) ==> x.db != 0
  {
  }

  /** Every operation keeps the queue sound; and valid, unless it inserts by playing order where
      there was nothing to play. */
  lemma NextSound(st: State, op: Op, st': State)
    requires Sound(st) && Next(st, op, st')
    ensures Sound(st')
    ensures Valid(st) && !(op.OpQueueInsert? && st.queue == []) ==> Valid(st')
  {
    match op
    case OpAdd(e) => AddSound(st, e);
    case OpQueueInsert(e, at) => QueueInsertOrder(st, e, at);
    case OpEntryInsert(e, at, pos) =>
      EntryInsertOrder(st, e, at, pos);
      InsertReal(st.entries, at, e);
    case OpQueueRemove(first, last) => RemoveValid(st, Elements(st.queue[first..last]));
    case OpEntryRemove(first, last) => RemoveValid(st, Range(first, last));
    case OpShuffle(on) =>
      if on != st.shuffled && |st.entries| > 1 {
        if on { ShuffleValid(st, st'); } else { UnshuffleValid(st); }
      }
    case OpPlayed =>
    case OpAdvance =>
    case OpSeek(_) =>
  }

  /** The states that a run goes through, one more than its operations. */
  ghost predicate Run(states: seq<State>, ops: seq<Op>) {
    |states| == |ops| + 1 && forall i :: 0 <= i < |ops| ==> Step(states, ops, i)
  }

  ghost predicate Step(states: seq<State>, ops: seq<Op>, i: nat)
    requires i < |ops| && |states| == |ops| + 1
  {
    states[i].current <= |states[i].queue| && Next(states[i], ops[i], states[i + 1])
  }

  /** Over every run the playing order is a permutation of the entries. */
  lemma {:induction false} RunSound(states: seq<State>, ops: seq<Op>, n: nat)
    requires Run(states, ops) && Sound(states[0]) && n <= |ops|
    ensures Sound(states[n])
  {
    if n > 0 {
      RunSound(states, ops, n - 1);
      assert Step(states, ops, n - 1);
      NextSound(states[n - 1], ops[n - 1], states[n]);
    }
  }

  /** And unless one of its operations inserts into an empty queue by playing order, a track is
      current whenever there is one. */
  lemma {:induction false} RunValid(states: seq<State>, ops: seq<Op>, n: nat)
    requires Run(states, ops) && Valid(states[0]) && n <= |ops|
    requires forall i :: 0 <= i < n && ops[i].OpQueueInsert? ==> states[i].queue != []
    ensures Valid(states[n])
  {
    if n > 0 {
      RunValid(states, ops, n - 1);
      assert Step(states, ops, n - 1);
      NextSound(states[n - 1], ops[n - 1], states[n]);
    }
  }

  /* What comes and goes */

  datatype Track = Track(db: nat, id: nat)

  function TrackOf(e: Entry): Track {
    Track(e.db, e.id)
  }

  /** The tracks of the entries, whether played or not. */
  function Tracks(es: seq<Entry>): seq<Track> {
    seq(|es|, i requires 0 <= i < |es| => TrackOf(es[i]))
  }

  function Added(op: Op): multiset<Track> {
    match op
    case OpAdd(e) => multiset{TrackOf(e)}
    case OpQueueInsert(e, _) => multiset{TrackOf(e)}
    case OpEntryInsert(e, _, _) => multiset{TrackOf(e)}
    case _ => multiset{}
  }

  function TracksIn(es: seq<Entry>, gone: set<nat>, n: nat): multiset<Track>
    requires n <= |es|
  {
    if n == 0 then multiset{}
    else TracksIn(es, gone, n - 1) + (if n - 1 in gone then multiset{TrackOf(es[n - 1])} else multiset{})
  }

  function Removed(st: State, op: Op): multiset<Track> {
    match op
    case OpQueueRemove(first, last) =>
      if first <= last <= |st.queue| then TracksIn(st.entries, Elements(st.queue[first..last]), |st.entries|) else multiset{}
    case OpEntryRemove(first, last) => TracksIn(st.entries, Range(first, last), |st.entries|)
    case _ => multiset{}
  }

  lemma TracksMore(es: seq<Entry>, e: Entry)
    ensures Tracks(es + [e]) == Tracks(es) + [TrackOf(e)]
    ensures multiset(Tracks(es + [e])) == multiset(Tracks(es)) + multiset{TrackOf(e)}
  {
    assert Tracks(es + [e]) == Tracks(es) + [TrackOf(e)];
  }

  lemma OneKept(kept: seq<Entry>, gone: multiset<Track>, all: seq<Entry>, x: Entry)
    requires multiset(Tracks(kept)) + gone == multiset(Tracks(all))
    ensures multiset(Tracks(kept + [x])) + (gone + multiset{}) == multiset(Tracks(all + [x]))
  {
    TracksMore(kept, x);
    TracksMore(all, x);
  }

  lemma OneGone(kept: seq<Entry>, gone: multiset<Track>, all: seq<Entry>, x: Entry)
    requires multiset(Tracks(kept)) + gone == multiset(Tracks(all))
    ensures multiset(Tracks(kept + [])) + (gone + multiset{TrackOf(x)}) == multiset(Tracks(all + [x]))
  {
    assert kept + [] == kept;
    TracksMore(all, x);
  }

  lemma AllButLast(es: seq<Entry>, n: nat)
    requires 0 < n <= |es|
    ensures es[..n] == es[..n - 1] + [es[n - 1]]
  {
  }

  lemma {:induction false} KeptAndGone(es: seq<Entry>, gone: set<nat>, n: nat)
    requires n <= |es|
    ensures multiset(Tracks(KeptEntries(es, gone, n))) + TracksIn(es, gone, n) == multiset(Tracks(es[..n]))
  {
    if n > 0 {
      KeptAndGone(es, gone, n - 1);
      AllButLast(es, n);
      if n - 1 in gone {
        OneGone(KeptEntries(es, gone, n - 1), TracksIn(es, gone, n - 1), es[..n - 1], es[n - 1]);
      } else {
        OneKept(KeptEntries(es, gone, n - 1), TracksIn(es, gone, n - 1), es[..n - 1], es[n - 1]);
      }
    }
  }

  lemma KeptAndGoneAll(es: seq<Entry>, gone: set<nat>)
    ensures multiset(Tracks(KeptEntries(es, gone, |es|))) + TracksIn(es, gone, |es|) == multiset(Tracks(es))
  {
    KeptAndGone(es, gone, |es|);
    assert es[..|es|] == es;
  }

  lemma InsertConserves(es: seq<Entry>, at: nat, e: Entry)
    requires at <= |es|
    ensures multiset(Tracks(InsertAt(es, at, e))) == multiset(Tracks(es)) + multiset{TrackOf(e)}
  {
    var ts := Tracks(es);
    assert Tracks(InsertAt(es, at, e)) == InsertAt(ts, at, TrackOf(e));
    assert ts == ts[..at] + ts[at..];
  }

  lemma PlayedConserves(st: State)
    requires st.current < |st.queue| && st.queue[st.current] < |st.entries|
    ensures Tracks(Played(st).entries) == Tracks(st.entries)
  {
  }

  lemma Unchanged<T>(a: multiset<T>)
    ensures a + multiset{} == a
  {
  }

  lemma NextConserves(st: State, op: Op, st': State)
    requires st.current <= |st.queue| && Next(st, op, st')
    ensures multiset(Tracks(st'.entries)) + Removed(st, op) == multiset(Tracks(st.entries)) + Added(op)
  {
    Unchanged(multiset(Tracks(st.entries)));
    Unchanged(multiset(Tracks(st'.entries)));
    match op
    case OpAdd(e) => TracksMore(st.entries, e);
    case OpQueueInsert(e, _) => TracksMore(st.entries, e);
    case OpEntryInsert(e, at, _) => InsertConserves(st.entries, at, e);
    case OpQueueRemove(first, last) => KeptAndGoneAll(st.entries, Elements(st.queue[first..last]));
    case OpEntryRemove(first, last) => KeptAndGoneAll(st.entries, Range(first, last));
    case OpShuffle(_) => assert st'.entries == st.entries;
    case OpPlayed => PlayedConserves(st);
    case OpAdvance => PlayedConserves(st.(current := st.current + 1));
    case OpSeek(_) =>
  }

  function AllAdded(ops: seq<Op>, n: nat): multiset<Track>
    requires n <= |ops|
  {
    if n == 0 then multiset{} else AllAdded(ops, n - 1) + Added(ops[n - 1])
  }

  function AllRemoved(states: seq<State>, ops: seq<Op>, n: nat): multiset<Track>
    requires n <= |ops| <= |states|
  {
    if n == 0 then multiset{} else AllRemoved(states, ops, n - 1) + Removed(states[n - 1], ops[n - 1])
  }

  lemma Balance<T>(now: multiset<T>, before: multiset<T>, first: multiset<T>, gone: multiset<T>, come: multiset<T>,
                   r: multiset<T>, a: multiset<T>)
    requires before + gone == first + come && now + r == before + a
    ensures now + (gone + r) == first + (come + a)
  {
    assert now + (gone + r) == (now + r) + gone == (before + a) + gone == (before + gone) + a;
  }

  /** Over every run the tracks in the queue are those that were there and those inserted, but for
      those in the ranges removed. */
  lemma {:induction false} RunConserves(states: seq<State>, ops: seq<Op>, n: nat)
    requires Run(states, ops) && n <= |ops|
    ensures multiset(Tracks(states[n].entries)) + AllRemoved(states, ops, n)
      == multiset(Tracks(states[0].entries)) + AllAdded(ops, n)
  {
    if n > 0 {
      RunConserves(states, ops, n - 1);
      assert Step(states, ops, n - 1);
      NextConserves(states[n - 1], ops[n - 1], states[n]);
      Balance(multiset(Tracks(states[n].entries)), multiset(Tracks(states[n - 1].entries)), multiset(Tracks(states[0].entries)),
              AllRemoved(states, ops, n - 1), AllAdded(ops, n - 1), Removed(states[n - 1], ops[n - 1]), Added(ops[n - 1]));
    }
  }
}
