/** The player and the current track: when the URL it is expected to play is the current track's. */
module QueueCurrent {
  import opened QueueModel
  import opened QueueRuns
  import opened QueuePlayer

  /** The track that is current in the playing order, if one is, has the URL expected. */
  ghost predicate AtCurrent(get: Urls, p: Player)
    requires Sound(p.st)
  {
    p.st.current < |PlayOrder(p.st)| ==>
      var e := PlayOrder(p.st)[p.st.current]; p.url == get(e.db, e.id)
  }

  lemma OrderSize(st: State)
    requires Sound(st)
    ensures |PlayOrder(st)| == |st.queue| == |st.entries|
  {
    PermutationSize(st.queue, |st.entries|);
  }

  /* What is announced */

  /** Starting the player announces the current track and the next one, whatever it was told before. */
  lemma StartTells(get: Urls, p: Player)
    requires Sound(p.st)
    ensures var order, c, p' := PlayOrder(p.st), p.st.current, SetNextUrl(get, SetUrl(get, p));
      && p'.st == p.st
      && p'.url == (if c < |order| then get(order[c].db, order[c].id) else p.url)
      && p'.nextUrl == (if c + 1 < |order| then get(order[c + 1].db, order[c + 1].id) else p.nextUrl)
  {
    OrderSize(p.st);
  }

  /** So do a seek, a removal of the current track and an insertion by entry in its place: the track
      that they leave current is announced. */
  ghost predicate Renews(st: State, op: Op) {
    match op
    case OpSeek(_) => true
    case OpQueueRemove(first, last) => first <= st.current < last
    case OpEntryRemove(first, last) => st.current < |st.queue| && first <= st.queue[st.current] < last
    case OpEntryInsert(_, _, pos) => pos == st.current
    case _ => false
  }

  lemma RenewedIsCurrent(get: Urls, p: Player, op: Op, st': State)
    requires Sound(p.st) && Next(p.st, op, st') && Sound(st') && Renews(p.st, op)
    ensures AtCurrent(get, Told(get, p, op, st'))
  {
    OrderSize(st');
  }

  /* What is not */

  /** No other operation puts another track in the current one's place, but where there was none an
      addition does, and so does a removal by entry, which takes the first one left; and the report of
      the next track makes the one of that place current, of whatever URL. */
  ghost predicate KeepsCurrent(get: Urls, p: Player, op: Op)
    requires Sound(p.st)
  {
    match op
    case OpAdd(e) => p.st.current == |p.st.queue| ==> p.url == get(e.db, e.id)
    case OpEntryRemove(first, last) =>
      p.st.current == |p.st.queue| && OneStays(p.st.queue, first, last, 0) ==> p.url == UrlFrom(get, p.st, first, last, 0)
    case OpAdvance =>
      p.st.current + 1 < |p.st.queue| ==>
        var x := p.st.queue[p.st.current + 1];
        assert x in p.st.queue; p.nextUrl == get(p.st.entries[x].db, p.st.entries[x].id)
    case _ => true
  }

  /** The same track is current, or none is. */
  ghost predicate SameCurrent(st: State, st': State)
    requires Sound(st) && Sound(st')
  {
    if st.current < |st.queue| then
      st'.current < |st'.queue| && |PlayOrder(st')| == |st'.queue| && |PlayOrder(st)| == |st.queue|
      && TrackOf(PlayOrder(st')[st'.current]) == TrackOf(PlayOrder(st)[st.current])
    else st'.current == |st'.queue|
  }

  lemma SameStays(get: Urls, p: Player, p': Player)
    requires Sound(p.st) && Sound(p'.st) && AtCurrent(get, p) && SameCurrent(p.st, p'.st) && p'.url == p.url
    ensures AtCurrent(get, p')
  {
    OrderSize(p.st);
    OrderSize(p'.st);
  }

  lemma InsertionKeeps(st: State, op: Op, st': State)
    requires Sound(st) && Next(st, op, st') && Sound(st')
    requires op.OpQueueInsert? || (op.OpEntryInsert? && op.pos != st.current)
    ensures SameCurrent(st, st')
  {
    OrderSize(st);
    OrderSize(st');
    match op
    case OpQueueInsert(e, at) =>
      QueueInsertCurrent(st, e, at);
      QueueInsertOrder(st, e, at);
    case OpEntryInsert(e, at, pos) =>
      EntryInsertCurrent(st, e, at, pos);
  }

  lemma RemovalKeeps(st: State, gone: set<nat>)
    requires Sound(st) && st.current < |st.queue| && st.queue[st.current] !in gone
    ensures Sound(Remove(st, gone)) && SameCurrent(st, Remove(st, gone))
  {
    RemoveCurrent(st, gone, st.current);
    OrderSize(st);
    OrderSize(Remove(st, gone));
  }

  lemma ShuffleKeeps(st: State, on: bool, st': State)
    requires Sound(st) && Next(st, OpShuffle(on), st') && Sound(st')
    ensures SameCurrent(st, st')
  {
    OrderSize(st);
    OrderSize(st');
    if on != st.shuffled && |st.entries| > 1 {
      if on { ShuffleValid(st, st'); } else { UnshuffleValid(st); }
    }
  }

  /** What the report of a track marks: that track's flag and no more. */
  lemma PlayedMarks(st: State)
    requires Sound(st) && st.current < |st.queue|
    ensures st.queue[st.current] in st.queue
    ensures var st', c := Played(st), st.queue[st.current];
      && Sound(st') && st'.queue == st.queue && st'.current == st.current && st'.shuffled == st.shuffled
      && |st'.entries| == |st.entries|
      && (forall x: nat :: x < |st.entries| && x != c ==> st'.entries[x] == st.entries[x])
      && st'.entries[c] == Entry(st.entries[c].db, st.entries[c].id, true)
      && SameCurrent(st, st')
  {
    assert st.queue[st.current] in st.queue;
    assert Next(st, OpPlayed, Played(st));
    NextSound(st, OpPlayed, Played(st));
    OrderSize(st);
    OrderSize(Played(st));
  }

  /* Each operation */

  lemma AddCurrent(get: Urls, p: Player, e: Entry, st': State)
    requires Sound(p.st) && AtCurrent(get, p) && Next(p.st, OpAdd(e), st') && Sound(st')
    ensures AtCurrent(get, Told(get, p, OpAdd(e), st')) <==> KeepsCurrent(get, p, OpAdd(e))
  {
    OrderSize(p.st);
    OrderSize(st');
    QueueInsertOrder(p.st, e, |p.st.queue|);
    assert InsertAt(p.st.queue, |p.st.queue|, |p.st.entries|) == p.st.queue + [|p.st.entries|];
    assert PlayOrder(st') == InsertAt(PlayOrder(p.st), |p.st.queue|, e);
  }

  lemma RemoveCurrentKept(get: Urls, p: Player, op: Op, st': State)
    requires Sound(p.st) && AtCurrent(get, p) && Next(p.st, op, st') && Sound(st')
    requires op.OpQueueRemove? && !Renews(p.st, op)
    ensures AtCurrent(get, Told(get, p, op, st'))
  {
    if p.st.current < |p.st.queue| {
      RangeSurvives(p.st.queue, op.first, op.last);
      RemovalKeeps(p.st, Elements(p.st.queue[op.first..op.last]));
    }
    OrderSize(st');
    SameStays(get, p, Told(get, p, op, st'));
  }

  /** From past the end a removal by entry goes to the top. */
  lemma TopOfKept(get: Urls, st: State, first: nat, last: nat)
    requires Sound(st) && st.current == |st.queue|
    ensures var st' := Remove(st, Range(first, last));
      && Sound(st') && st'.current == 0
      && (|st'.queue| > 0 <==> OneStays(st.queue, first, last, 0))
      && (|st'.queue| > 0 ==> |PlayOrder(st')| > 0 && UrlOf(get, PlayOrder(st')[0]) == UrlFrom(get, st, first, last, 0))
  {
    var q, gone := st.queue, Range(first, last);
    var k := FirstKept(q, gone, 0);
    RemoveValid(st, gone);
    FirstIfOne(q, first, last, 0);
    KeptQueueSkips(q, gone, 0, k);
    OrderSize(Remove(st, gone));
    if k < |q| {
      OneMore(q, gone, k);
      KeptQueuePrefix(q, gone, k + 1, |q|);
      assert q[k] in q;
      KeptEntriesAt(st.entries, gone, |st.entries|, q[k]);
    }
  }

  lemma EntryRemoveCurrent(get: Urls, p: Player, first: nat, last: nat, st': State)
    requires Sound(p.st) && AtCurrent(get, p) && Next(p.st, OpEntryRemove(first, last), st') && Sound(st')
    requires !Renews(p.st, OpEntryRemove(first, last))
    ensures AtCurrent(get, Told(get, p, OpEntryRemove(first, last), st')) <==> KeepsCurrent(get, p, OpEntryRemove(first, last))
  {
    OrderSize(p.st);
    OrderSize(st');
    if p.st.current < |p.st.queue| {
      RangeMember(first, last, p.st.queue[p.st.current]);
      RemovalKeeps(p.st, Range(first, last));
      SameStays(get, p, Told(get, p, OpEntryRemove(first, last), st'));
    } else {
      TopOfKept(get, p.st, first, last);
    }
  }

  lemma AdvanceCurrent(get: Urls, p: Player, st': State)
    requires Sound(p.st) && Next(p.st, OpAdvance, st') && Sound(st')
    ensures AtCurrent(get, Told(get, p, OpAdvance, st')) <==> KeepsCurrent(get, p, OpAdvance)
  {
    PlayedMarks(p.st.(current := p.st.current + 1));
    OrderSize(st');
  }

  lemma InsertionCurrent(get: Urls, p: Player, op: Op, st': State)
    requires Sound(p.st) && AtCurrent(get, p) && Next(p.st, op, st') && Sound(st') && !Renews(p.st, op)
    requires op.OpQueueInsert? || op.OpEntryInsert?
    ensures AtCurrent(get, Told(get, p, op, st'))
  {
    InsertionKeeps(p.st, op, st');
    OrderSize(p.st);
    OrderSize(st');
    SameStays(get, p, Told(get, p, op, st').(url := p.url));
  }

  lemma ShuffleCurrent(get: Urls, p: Player, on: bool, st': State)
    requires Sound(p.st) && AtCurrent(get, p) && Next(p.st, OpShuffle(on), st') && Sound(st')
    ensures AtCurrent(get, Told(get, p, OpShuffle(on), st'))
  {
    ShuffleKeeps(p.st, on, st');
    SameStays(get, p, Told(get, p, OpShuffle(on), st'));
  }

  lemma PlayedCurrent(get: Urls, p: Player, st': State)
    requires Sound(p.st) && AtCurrent(get, p) && Next(p.st, OpPlayed, st') && Sound(st')
    ensures AtCurrent(get, Told(get, p, OpPlayed, st'))
  {
    PlayedMarks(p.st);
    SameStays(get, p, Told(get, p, OpPlayed, st'));
  }

  /** An operation leaves the player expecting the current track exactly under that condition. */
  lemma ToldAtCurrent(get: Urls, p: Player, op: Op, st': State)
    requires Sound(p.st) && AtCurrent(get, p) && Next(p.st, op, st')
    ensures Sound(st')
    ensures AtCurrent(get, Told(get, p, op, st')) <==> KeepsCurrent(get, p, op)
  {
    NextSound(p.st, op, st');
    if Renews(p.st, op) {
      RenewedIsCurrent(get, p, op, st');
    } else {
      match op
      case OpAdd(e) => AddCurrent(get, p, e, st');
      case OpQueueInsert(_, _) => InsertionCurrent(get, p, op, st');
      case OpEntryInsert(_, _, _) => InsertionCurrent(get, p, op, st');
      case OpQueueRemove(_, _) => RemoveCurrentKept(get, p, op, st');
      case OpEntryRemove(first, last) => EntryRemoveCurrent(get, p, first, last, st');
      case OpShuffle(on) => ShuffleCurrent(get, p, on, st');
      case OpPlayed => PlayedCurrent(get, p, st');
      case OpAdvance => AdvanceCurrent(get, p, st');
    }
  }

  /** With a track current, or none to be, only an addition to an empty queue goes unannounced: the
      player is given it when it starts. */
  lemma ValidKeepsCurrent(get: Urls, p: Player, op: Op, st': State)
    requires Valid(p.st) && InStep(get, p) && Next(p.st, op, st')
    ensures KeepsCurrent(get, p, op) <==> (op.OpAdd? && p.st.queue == [] ==> p.url == get(op.e.db, op.e.id))
  {
    OrderSize(p.st);
    NextUrlIs(get, p.st);
  }

  /* Reports and runs */

  /** While both URLs agree with the queue, a report of the one expected now leaves the current track
      where it is, one of the other moves to the next, and either marks as played a track of the URL
      reported and no other; any other report changes nothing. */
  lemma ReportMarksTrack(get: Urls, p: Player, url: string)
    requires Sound(p.st) && AtCurrent(get, p) && InStep(get, p) && !PastEnd(p, url)
    ensures var p' := OnUrl(get, p, url);
      var c := p'.st.current;
      && Sound(p'.st) && AtCurrent(get, p')
      && (url == "" || (url != p.url && url != p.nextUrl) ==> p' == p)
      && (url != "" && (url == p.url || url == p.nextUrl) ==>
            && c == (if url == p.url then p.st.current else p.st.current + 1)
            && MarksAt(p.st, p'.st)
            && UrlOf(get, p'.st.entries[p'.st.queue[c]]) == url == p'.url)
  {
    var p' := OnUrl(get, p, url);
    if url != "" && url == p.url {
      PlayedMarks(p.st);
      ToldAtCurrent(get, p, OpPlayed, p'.st);
      OrderSize(p'.st);
    } else if url != "" && url == p.nextUrl {
      PlayedMarks(p.st.(current := p.st.current + 1));
      ToldAtCurrent(get, p, OpAdvance, p'.st);
      OrderSize(p'.st);
    }
  }

  /** All that has changed but for the index is that the track at the new one is marked. */
  ghost predicate MarksAt(st: State, st': State) {
    && st'.queue == st.queue && st'.shuffled == st.shuffled && |st'.entries| == |st.entries|
    && st'.current < |st'.queue| && st'.queue[st'.current] < |st'.entries|
    && var c := st'.queue[st'.current];
    && st'.entries[c].played && TrackOf(st'.entries[c]) == TrackOf(st.entries[c])
    && forall x: nat :: x < |st.entries| && x != c ==> st'.entries[x] == st.entries[x]
  }

  /** Over every run the player expects the current track if it is kept in step with the next one, and
      no operation leaves another current unannounced. */
  lemma {:induction false} RunAtCurrent(get: Urls, ps: seq<Player>, es: seq<Event>, n: nat)
    requires PlayerRun(get, ps, es) && n <= |es| && Sound(ps[0].st) && InStep(get, ps[0]) && AtCurrent(get, ps[0])
    requires forall i :: 0 <= i < n && es[i].Does? ==> Sound(ps[i].st) && StaysInStep(get, ps[i].st, es[i].op)
    requires forall i :: 0 <= i < n && es[i].Does? ==> Sound(ps[i].st) && KeepsCurrent(get, ps[i], es[i].op)
    ensures Sound(ps[n].st) && InStep(get, ps[n]) && AtCurrent(get, ps[n])
  {
    RunInStep(get, ps, es, n);
    if n > 0 {
      RunAtCurrent(get, ps, es, n - 1);
      assert HappensAt(get, ps, es, n - 1);
      match es[n - 1]
      case Does(op) => ToldAtCurrent(get, ps[n - 1], op, ps[n].st);
      case Starts => StartTells(get, ps[n - 1]);
      case Reports(url) => ReportMarksTrack(get, ps[n - 1], url);
    }
  }
}
