/** What the player is told of the queue: which tracks it is to expect, now and next. */
module QueuePlayer {
  import opened QueueModel
  import opened QueueRuns

  /** The URLs that the queue expects the player to report, the current track's and the next one's;
      empty if it expects none. */
  datatype Player = Player(st: State, url: string, nextUrl: string)

  /** A database's URL for an id. */
  type Urls = (nat, nat) -> string

  const SILENT := Player(State([], [], 0, false), "", "")

  function UrlAt(get: Urls, st: State, i: nat): string
    requires i < |st.queue| && st.queue[i] < |st.entries|
  {
    get(st.entries[st.queue[i]].db, st.entries[st.queue[i]].id)
  }

  /** The URL of the track after the current one. */
  function NextUrl(get: Urls, st: State): string
    requires Sound(st)
  {
    if st.current + 1 < |st.queue| then assert st.queue[st.current + 1] in st.queue; UrlAt(get, st, st.current + 1) else ""
  }

  /** What the queue expects next is the track that comes next. */
  ghost predicate InStep(get: Urls, p: Player)
    requires Sound(p.st)
  {
    p.nextUrl == NextUrl(get, p.st)
  }

  function SetUrl(get: Urls, p: Player): Player
    requires Sound(p.st)
  {
    if p.st.current >= |p.st.queue| then p
    else assert p.st.queue[p.st.current] in p.st.queue; p.(url := UrlAt(get, p.st, p.st.current))
  }

  /** Where no track comes next, what was expected stays. */
  function SetNextUrl(get: Urls, p: Player): Player
    requires Sound(p.st)
  {
    if p.st.current + 1 >= |p.st.queue| then p else p.(nextUrl := NextUrl(get, p.st))
  }

  /* Operations */

  /** Whether an operation gives the player a new track. */
  predicate SetsUrl(st: State, op: Op) {
    match op
    case OpQueueInsert(_, _) => st.entries == []
    case OpEntryInsert(_, _, pos) => pos == st.current
    case OpQueueRemove(first, last) => first <= st.current < last
    case OpEntryRemove(first, last) => st.current < |st.queue| && first <= st.queue[st.current] < last
    case OpSeek(_) => true
    case _ => false
  }

  /** Whether it gives it a new next track.  A removal by entry takes the first entry for the next
      one where there is none. */
  predicate SetsNextUrl(st: State, op: Op) {
    match op
    case OpAdd(_) => st.current + 1 == |st.queue|
    case OpQueueInsert(_, at) => at == st.current + 1
    case OpEntryInsert(_, _, pos) => pos == st.current + 1
    case OpQueueRemove(first, last) => first <= st.current < last || st.current + 1 == first
    case OpEntryRemove(first, last) =>
      first <= (if st.current + 1 < |st.queue| then st.queue[st.current + 1] else 0) < last
    case OpShuffle(on) => on != st.shuffled && |st.entries| > 1
    case OpAdvance => true
    case OpSeek(_) => true
    case OpPlayed => false
  }

  /** The queue is `st'` after `op`, and the player has been told. */
  function Told(get: Urls, p: Player, op: Op, st': State): Player
    requires Sound(st')
  {
    var p0 := if op.OpAdvance? then Player(st', p.nextUrl, "") else p.(st := st');
    var p1 := if SetsUrl(p.st, op) then SetUrl(get, p0) else p0;
    if SetsNextUrl(p.st, op) then SetNextUrl(get, p1) else p1
  }

  /* Removals */

  /** The first place from `i` on whose track stays. */
  function FirstKept(q: seq<nat>, gone: set<nat>, i: nat): (k: nat)
    requires i <= |q|
    ensures i <= k <= |q| && (k < |q| ==> q[k] !in gone) && forall j :: i <= j < k ==> q[j] in gone
    decreases |q| - i
  {
    if i == |q| || q[i] !in gone then i else FirstKept(q, gone, i + 1)
  }

  /** The old place of the track that a removal leaves next, or the length if it leaves none. */
  function NewNext(q: seq<nat>, gone: set<nat>, current: nat): (k: nat)
    requires current <= |q|
    ensures k <= |q|
  {
    var k := FirstKept(q, gone, current);
    var i := if k < |q| then k else FirstKept(q, gone, 0);
    if i < |q| then FirstKept(q, gone, i + 1) else |q|
  }

  /** The survivor after the survivor at `i` comes after it in the end. */
  lemma AfterKept(q: seq<nat>, gone: set<nat>, i: nat)
    requires i < |q| && q[i] !in gone
    ensures var at, all, j := |KeptQueue(q, gone, i)|, KeptQueue(q, gone, |q|), FirstKept(q, gone, i + 1);
      && at < |all| && (at + 1 < |all| <==> j < |q|)
      && (j < |q| ==> all[at + 1] == Rank(gone, q[j]))
  {
    var j := FirstKept(q, gone, i + 1);
    KeptQueueSkips(q, gone, i + 1, j);
    OneMore(q, gone, i);
    if j < |q| {
      OneMore(q, gone, j);
      KeptQueuePrefix(q, gone, j + 1, |q|);
      LaterKept(KeptQueue(q, gone, j), Rank(gone, q[j]), KeptQueue(q, gone, j + 1), KeptQueue(q, gone, |q|));
    }
  }

  lemma OneMore(q: seq<nat>, gone: set<nat>, i: nat)
    requires i < |q| && q[i] !in gone
    ensures KeptQueue(q, gone, i + 1) == KeptQueue(q, gone, i) + [Rank(gone, q[i])]
  {
  }

  lemma LaterKept(some: seq<nat>, x: nat, more: seq<nat>, all: seq<nat>)
    requires more == some + [x] && more <= all
    ensures |some| < |all| && all[|some|] == x
  {
    assert all[..|more|][|some|] == more[|some|];
  }

  lemma RemovedPlace(st: State, gone: set<nat>)
    requires st.current <= |st.queue|
    ensures var st', j := Remove(st, gone), NewNext(st.queue, gone, st.current);
      && (st'.current + 1 < |st'.queue| <==> j < |st.queue|)
      && (j < |st.queue| ==> st.queue[j] !in gone && st'.queue[st'.current + 1] == Rank(gone, st.queue[j]))
  {
    var q := st.queue;
    var i0, top := FirstKept(q, gone, st.current), FirstKept(q, gone, 0);
    KeptQueueSkips(q, gone, st.current, i0);
    KeptQueueSkips(q, gone, 0, top);
    var i := if i0 < |q| then i0 else top;
    if i < |q| { AfterKept(q, gone, i); }
  }

  lemma RemovedNext(get: Urls, st: State, gone: set<nat>)
    requires Sound(st)
    ensures var st', j := Remove(st, gone), NewNext(st.queue, gone, st.current);
      && Sound(st') && (st'.current + 1 < |st'.queue| <==> j < |st.queue|)
      && (j < |st.queue| ==> st.queue[j] in st.queue && NextUrl(get, st') == UrlAt(get, st, j))
  {
    RemoveValid(st, gone);
    RemovedPlace(st, gone);
    var j := NewNext(st.queue, gone, st.current);
    if j < |st.queue| {
      assert st.queue[j] in st.queue;
      KeptEntriesAt(st.entries, gone, |st.entries|, st.queue[j]);
    }
  }

  /** The track that a removal leaves next is announced, or is what was expected. */
  ghost predicate RemovalTold(get: Urls, st: State, gone: set<nat>, announced: bool)
    requires Sound(st)
  {
    var j := NewNext(st.queue, gone, st.current);
    if j < |st.queue| then
      assert st.queue[j] in st.queue;
      announced || UrlAt(get, st, j) == NextUrl(get, st)
    else NextUrl(get, st) == ""
  }

  /* When the player stays in step */

  /** The condition on the queue before an operation: no track takes the place of the current one
      in front of it, unless of the same URL as the next; a removal leaves a next track that is
      announced or as expected; and a shuffle or seek leaves a track to come if there was one. */
  ghost predicate StaysInStep(get: Urls, st: State, op: Op)
    requires Sound(st)
  {
    match op
    case OpEntryInsert(_, _, pos) =>
      pos == st.current < |st.queue| ==> assert st.queue[pos] in st.queue; UrlAt(get, st, pos) == NextUrl(get, st)
    case OpQueueRemove(first, last) =>
      first <= last <= |st.queue| && st.current < |st.queue| ==>
        RemovalTold(get, st, Elements(st.queue[first..last]), SetsNextUrl(st, op))
    case OpEntryRemove(first, last) => RemovalTold(get, st, Range(first, last), SetsNextUrl(st, op))
    case OpShuffle(on) =>
      SetsNextUrl(st, op) && st.current < |st.queue| && NextUrl(get, st) != "" ==>
        var c := st.queue[st.current];
        if on then exists x :: 0 <= x < |st.entries| && x != c && !st.entries[x].played else c + 1 < |st.entries|
    case OpSeek(index) => index + 1 == |st.queue| ==> NextUrl(get, st) == ""
    case _ => true
  }

  function UrlOf(get: Urls, e: Entry): string {
    get(e.db, e.id)
  }

  /** In terms of the playing order. */
  lemma NextUrlIs(get: Urls, st: State)
    requires Sound(st)
    ensures |PlayOrder(st)| == |st.queue| == |st.entries|
    ensures NextUrl(get, st) == if st.current + 1 < |st.queue| then UrlOf(get, PlayOrder(st)[st.current + 1]) else ""
  {
    PermutationSize(st.queue, |st.entries|);
  }

  /** An insertion at `pos` of the playing order that leaves the current index at `c`. */
  lemma InsertedNext(get: Urls, st: State, st': State, e: Entry, pos: nat)
    requires Sound(st) && Sound(st') && pos <= |st.queue| && PlayOrder(st') == InsertAt(PlayOrder(st), pos, e)
    requires st'.current == st.current || (pos <= st.current && st'.current == st.current + 1)
    ensures st'.current == st.current + 1 || pos > st.current + 1 ==> NextUrl(get, st') == NextUrl(get, st)
    ensures st'.current == st.current && pos == st.current + 1 ==> st'.current + 1 < |st'.queue|
    ensures st'.current == st.current == pos < |st.queue| ==> NextUrl(get, st') == UrlOf(get, PlayOrder(st)[pos])
    ensures st'.current == st.current == pos == |st.queue| ==> NextUrl(get, st') == "" == NextUrl(get, st)
  {
    NextUrlIs(get, st);
    NextUrlIs(get, st');
    var order, now := PlayOrder(st), PlayOrder(st');
    assert forall k :: pos < k < |now| ==> now[k] == order[k - 1];
    assert forall k :: 0 <= k < pos ==> now[k] == order[k];
  }

  lemma AddTold(get: Urls, p: Player, e: Entry, st': State)
    requires Sound(p.st) && InStep(get, p) && Next(p.st, OpAdd(e), st') && Sound(st')
    ensures InStep(get, Told(get, p, OpAdd(e), st'))
  {
    var st := p.st;
    NextUrlIs(get, st);
    QueueInsertOrder(st, e, |st.queue|);
    var st1 := QueueInsert(st, e, |st.queue|);
    assert InsertAt(st.queue, |st.queue|, |st.entries|) == st.queue + [|st.entries|];
    assert PlayOrder(st') == PlayOrder(st1);
    InsertedNext(get, st, st', e, |st.queue|);
  }

  lemma QueueInsertTold(get: Urls, p: Player, e: Entry, at: nat, st': State)
    requires Sound(p.st) && InStep(get, p) && Next(p.st, OpQueueInsert(e, at), st') && Sound(st')
    ensures InStep(get, Told(get, p, OpQueueInsert(e, at), st'))
  {
    QueueInsertOrder(p.st, e, at);
    InsertedNext(get, p.st, st', e, at);
  }

  lemma EntryInsertTold(get: Urls, p: Player, e: Entry, at: nat, pos: nat, st': State)
    requires Sound(p.st) && InStep(get, p) && Next(p.st, OpEntryInsert(e, at, pos), st') && Sound(st')
    ensures InStep(get, Told(get, p, OpEntryInsert(e, at, pos), st')) <==> StaysInStep(get, p.st, OpEntryInsert(e, at, pos))
  {
    EntryInsertOrder(p.st, e, at, pos);
    InsertedNext(get, p.st, st', e, pos);
  }

  /** A removal, with `announced` for whether the next track is announced. */
  lemma RemoveTold(get: Urls, p: Player, gone: set<nat>, url: string, announced: bool)
    requires Sound(p.st) && InStep(get, p)
    ensures var st' := Remove(p.st, gone);
      && Sound(st')
      && var p1 := Player(st', url, p.nextUrl);
      InStep(get, if announced then SetNextUrl(get, p1) else p1) <==> RemovalTold(get, p.st, gone, announced)
  {
    RemovedNext(get, p.st, gone);
  }

  lemma QueueRemoveTold(get: Urls, p: Player, first: nat, last: nat, st': State)
    requires Sound(p.st) && InStep(get, p) && Next(p.st, OpQueueRemove(first, last), st') && Sound(st')
    ensures InStep(get, Told(get, p, OpQueueRemove(first, last), st')) <==> StaysInStep(get, p.st, OpQueueRemove(first, last))
  {
    var op := OpQueueRemove(first, last);
    if p.st.current < |p.st.queue| {
      var url := Told(get, p, op, st').url;
      RemoveTold(get, p, Elements(p.st.queue[first..last]), url, SetsNextUrl(p.st, op));
    }
  }

  lemma EntryRemoveTold(get: Urls, p: Player, first: nat, last: nat, st': State)
    requires Sound(p.st) && InStep(get, p) && Next(p.st, OpEntryRemove(first, last), st') && Sound(st')
    ensures InStep(get, Told(get, p, OpEntryRemove(first, last), st')) <==> StaysInStep(get, p.st, OpEntryRemove(first, last))
  {
    var op := OpEntryRemove(first, last);
    var url := Told(get, p, op, st').url;
    RemoveTold(get, p, Range(first, last), url, SetsNextUrl(p.st, op));
  }

  /** A shuffle leaves a track to come exactly when another is unplayed. */
  lemma ShuffledNext(st: State, st': State)
    requires Sound(st) && st.current < |st.queue| && Bipartite(st, st')
    ensures st'.current + 1 < |st'.queue| <==>
      exists x :: 0 <= x < |st.entries| && x != st.queue[st.current] && !st.entries[x].played
  {
    var c := st.queue[st.current];
    var rest, others := st'.queue[st'.current + 1..], OthersPlayed(st.entries, c, false, |st.entries|);
    OthersElements(st.entries, c, false, |st.entries|);
    assert |multiset(rest)| == |multiset(others)|;
    if |others| > 0 { assert others[0] in others; }
  }

  lemma ShuffleTold(get: Urls, p: Player, on: bool, st': State)
    requires Sound(p.st) && InStep(get, p) && Next(p.st, OpShuffle(on), st') && Sound(st')
    ensures InStep(get, Told(get, p, OpShuffle(on), st')) <==> StaysInStep(get, p.st, OpShuffle(on))
  {
    var st := p.st;
    NextUrlIs(get, st);
    if SetsNextUrl(st, OpShuffle(on)) && on { ShuffledNext(st, st'); }
  }

  lemma PlayedNext(get: Urls, st: State)
    requires Sound(st) && st.current < |st.queue| && st.queue[st.current] < |st.entries| && Sound(Played(st))
    ensures NextUrl(get, Played(st)) == NextUrl(get, st)
  {
    var es := Played(st).entries;
    assert forall x :: 0 <= x < |es| ==> es[x].db == st.entries[x].db && es[x].id == st.entries[x].id;
    assert st.current + 1 < |st.queue| ==> st.queue[st.current + 1] in st.queue;
  }

  /** Any operation keeps the player in step with the queue exactly under that condition. */
  lemma ToldInStep(get: Urls, p: Player, op: Op, st': State)
    requires Sound(p.st) && InStep(get, p) && Next(p.st, op, st')
    ensures Sound(st')
    ensures InStep(get, Told(get, p, op, st')) <==> StaysInStep(get, p.st, op)
  {
    NextSound(p.st, op, st');
    match op
    case OpAdd(e) => AddTold(get, p, e, st');
    case OpQueueInsert(e, at) => QueueInsertTold(get, p, e, at, st');
    case OpEntryInsert(e, at, pos) => EntryInsertTold(get, p, e, at, pos, st');
    case OpQueueRemove(first, last) => QueueRemoveTold(get, p, first, last, st');
    case OpEntryRemove(first, last) => EntryRemoveTold(get, p, first, last, st');
    case OpShuffle(on) => ShuffleTold(get, p, on, st');
    case OpPlayed => PlayedNext(get, p.st);
    case OpAdvance =>
    case OpSeek(index) => NextUrlIs(get, p.st);
  }

  /* The player's reports */

  datatype Report = Current | Following | Stranger

  function ReportOf(p: Player, url: string): Report {
    if url == "" then Stranger
    else if url == p.url then Current
    else if url == p.nextUrl then Following
    else Stranger
  }

  /** The track that is taken to have begun is past the end of the queue. */
  predicate PastEnd(p: Player, url: string) {
    match ReportOf(p, url)
    case Current => p.st.current >= |p.st.queue|
    case Following => p.st.current + 1 >= |p.st.queue|
    case Stranger => false
  }

  /** The player has begun to play a URL. */
  function OnUrl(get: Urls, p: Player, url: string): Player
    requires Sound(p.st) && !PastEnd(p, url)
  {
    match ReportOf(p, url)
    case Current =>
      assert p.st.queue[p.st.current] in p.st.queue;
      p.(st := Played(p.st))
    case Following =>
      var st := p.st.(current := p.st.current + 1);
      assert st.queue[st.current] in st.queue;
      NextSound(p.st, OpAdvance, Played(st));
      Told(get, p, OpAdvance, Played(st))
    case Stranger => p
  }

  /** While the player is in step a report of the next track is never of one past the end, and only
      one of a current track that is gone from the end can be; and it stays in step. */
  lemma ReportInStep(get: Urls, p: Player, url: string)
    requires Sound(p.st) && InStep(get, p)
    ensures PastEnd(p, url) <==> url != "" && url == p.url && p.st.current == |p.st.queue|
    ensures !PastEnd(p, url) ==> var p' := OnUrl(get, p, url); Sound(p'.st) && InStep(get, p')
  {
    if !PastEnd(p, url) {
      match ReportOf(p, url)
      case Current =>
        assert p.st.queue[p.st.current] in p.st.queue;
        ToldInStep(get, p, OpPlayed, Played(p.st));
      case Following =>
        var st := p.st.(current := p.st.current + 1);
        assert st.queue[st.current] in st.queue;
        ToldInStep(get, p, OpAdvance, Played(st));
      case Stranger =>
    }
  }

  /* Whole runs */

  datatype Event = Does(op: Op) | Starts | Reports(url: string)

  ghost predicate Happens(get: Urls, p: Player, e: Event, p': Player) {
    && Sound(p.st) && Sound(p'.st)
    && match e
       case Does(op) =>
         !op.OpPlayed? && !op.OpAdvance? && Next(p.st, op, p'.st) && p' == Told(get, p, op, p'.st)
       case Starts => p' == SetNextUrl(get, SetUrl(get, p))
       case Reports(url) => !PastEnd(p, url) && p' == OnUrl(get, p, url)
  }

  ghost predicate PlayerRun(get: Urls, ps: seq<Player>, es: seq<Event>) {
    |ps| == |es| + 1 && forall i :: 0 <= i < |es| ==> HappensAt(get, ps, es, i)
  }

  ghost predicate HappensAt(get: Urls, ps: seq<Player>, es: seq<Event>, i: nat)
    requires i < |es| && |ps| == |es| + 1
  {
    Happens(get, ps[i], es[i], ps[i + 1])
  }

  /** Over every run of operations, starts and reports the player stays in step if each operation meets its
      condition, so that no report of a next track runs past the end. */
  lemma {:induction false} RunInStep(get: Urls, ps: seq<Player>, es: seq<Event>, n: nat)
    requires PlayerRun(get, ps, es) && n <= |es| && Sound(ps[0].st) && InStep(get, ps[0])
    requires forall i :: 0 <= i < n && es[i].Does? ==> Sound(ps[i].st) && StaysInStep(get, ps[i].st, es[i].op)
    ensures Sound(ps[n].st) && InStep(get, ps[n])
    ensures forall url :: ReportOf(ps[n], url).Following? ==> !PastEnd(ps[n], url)
  {
    if n > 0 {
      RunInStep(get, ps, es, n - 1);
      assert HappensAt(get, ps, es, n - 1);
      match es[n - 1]
      case Does(op) => ToldInStep(get, ps[n - 1], op, ps[n].st);
      case Starts =>
      case Reports(url) => ReportInStep(get, ps[n - 1], url);
    }
    forall url | ReportOf(ps[n], url).Following? ensures !PastEnd(ps[n], url) { ReportInStep(get, ps[n], url); }
  }

  /* What the conditions come to */

  lemma FirstOutside(q: seq<nat>, gone: set<nat>, first: nat, last: nat, i: nat)
    requires i <= |q| && first <= last <= |q|
    requires forall k :: 0 <= k < |q| ==> (q[k] in gone <==> first <= k < last)
    ensures FirstKept(q, gone, i) == if first <= i < last then last else i
  {
    if last < |q| { assert q[last] !in gone; }
  }

  /** The place that is next once places `first` to `last` have gone. */
  lemma NextOutside(q: seq<nat>, gone: set<nat>, first: nat, last: nat, current: nat)
    requires current < |q| && first <= last <= |q|
    requires forall k :: 0 <= k < |q| ==> (q[k] in gone <==> first <= k < last)
    ensures last <= current || current + 1 < first ==> NewNext(q, gone, current) == current + 1
    ensures first <= current + 1 && current < last ==>
      (NewNext(q, gone, current) < |q| <==>
        if last < |q| then current < first || last + 1 < |q| else first <= current && 2 <= first)
  {
    FirstOutside(q, gone, first, last, current);
    FirstOutside(q, gone, first, last, 0);
    var k := FirstKept(q, gone, current);
    var i := if k < |q| then k else FirstKept(q, gone, 0);
    if i < |q| { FirstOutside(q, gone, first, last, i + 1); }
  }

  /** Removing places of the playing order: the next track is left or renewed unless the range takes
      all that come after the current one, or it and all but one, or with it all but the top. */
  lemma QueueRemoveStays(get: Urls, st: State, first: nat, last: nat)
    requires Sound(st) && first <= last <= |st.queue| && st.current < |st.queue|
    ensures StaysInStep(get, st, OpQueueRemove(first, last)) <==>
      || last <= st.current || st.current + 1 < first || NextUrl(get, st) == ""
      || (if last < |st.queue| then st.current < first || last + 1 < |st.queue| else first <= st.current && 2 <= first)
  {
    RangeSurvives(st.queue, first, last);
    NextOutside(st.queue, Elements(st.queue[first..last]), first, last, st.current);
  }

  /** Whether a track from place `i` on stays when entries `first` to `last` go, and whether two do. */
  ghost predicate OneStays(q: seq<nat>, first: nat, last: nat, i: nat) {
    exists k :: i <= k < |q| && !(first <= q[k] < last)
  }

  ghost predicate TwoStay(q: seq<nat>, first: nat, last: nat, i: nat) {
    exists k, l :: i <= k < l < |q| && !(first <= q[k] < last) && !(first <= q[l] < last)
  }

  lemma {:induction false} RangeHas(first: nat, last: nat)
    ensures forall x :: x in Range(first, last) <==> first <= x < last
  {
    if first < last { RangeHas(first, last - 1); }
  }

  lemma FirstIfOne(q: seq<nat>, first: nat, last: nat, i: nat)
    requires i <= |q|
    ensures FirstKept(q, Range(first, last), i) < |q| <==> OneStays(q, first, last, i)
  {
    RangeHas(first, last);
    var k := FirstKept(q, Range(first, last), i);
    if OneStays(q, first, last, i) {
      var l :| i <= l < |q| && !(first <= q[l] < last);
      assert q[l] !in Range(first, last);
    }
  }

  lemma SecondIfTwo(q: seq<nat>, first: nat, last: nat, i: nat)
    requires i <= |q|
    ensures var k := FirstKept(q, Range(first, last), i);
      TwoStay(q, first, last, i) <==> k < |q| && OneStays(q, first, last, k + 1)
  {
    RangeHas(first, last);
    FirstIfOne(q, first, last, i);
    var gone, k := Range(first, last), FirstKept(q, Range(first, last), i);
    if TwoStay(q, first, last, i) {
      var a, b :| i <= a < b < |q| && !(first <= q[a] < last) && !(first <= q[b] < last);
      assert q[a] !in gone && q[b] !in gone;
      assert k <= a;
    }
  }

  /** The URL of the first track from place `i` on that stays, or none. */
  function UrlFrom(get: Urls, st: State, first: nat, last: nat, i: nat): string
    requires Sound(st)
  {
    var j := if i <= |st.queue| then FirstKept(st.queue, Range(first, last), i) else i;
    if j < |st.queue| then assert st.queue[j] in st.queue; UrlAt(get, st, j) else ""
  }

  /** The place that is next if the current track goes. */
  lemma NextIfGone(q: seq<nat>, gone: set<nat>, c: nat)
    requires c < |q| && q[c] in gone
    ensures var i := FirstKept(q, gone, c + 1);
      NewNext(q, gone, c) ==
        if i < |q| then FirstKept(q, gone, i + 1)
        else var top := FirstKept(q, gone, 0); if top < |q| then FirstKept(q, gone, top + 1) else |q|
  {
  }

  /** Whether there is a second track from place `i` on that stays. */
  lemma TwoFrom(q: seq<nat>, first: nat, last: nat, i: nat)
    requires i <= |q|
    ensures var gone := Range(first, last);
      var k := FirstKept(q, gone, i);
      TwoStay(q, first, last, i) <==> k < |q| && FirstKept(q, gone, k + 1) < |q|
  {
    var k := FirstKept(q, Range(first, last), i);
    SecondIfTwo(q, first, last, i);
    if k < |q| { FirstIfOne(q, first, last, k + 1); }
  }

  /** Where the next track goes, and with it or not the current one, whether a next one is left. */
  lemma NextLeft(q: seq<nat>, first: nat, last: nat, c: nat)
    requires c + 1 < |q| && first <= q[c + 1] < last
    ensures NewNext(q, Range(first, last), c) < |q| <==>
      if first <= q[c] < last then
        TwoStay(q, first, last, c + 2) || (!OneStays(q, first, last, c + 2) && TwoStay(q, first, last, 0))
      else OneStays(q, first, last, c + 2)
  {
    var gone := Range(first, last);
    RangeMember(first, last, q[c]);
    RangeMember(first, last, q[c + 1]);
    FirstIfOne(q, first, last, c + 2);
    if q[c] in gone {
      NextIfGone(q, gone, c);
      TwoFrom(q, first, last, 0);
      TwoFrom(q, first, last, c + 2);
    }
  }

  /** The current track is the last one. */
  lemma LastTold(get: Urls, st: State, first: nat, last: nat, announced: bool)
    requires Sound(st) && st.current + 1 == |st.queue|
    ensures var q := st.queue;
      RemovalTold(get, st, Range(first, last), announced) <==>
        || !(first <= q[st.current] < last) || announced || !TwoStay(q, first, last, 0)
        || UrlFrom(get, st, first, last, FirstKept(q, Range(first, last), 0) + 1) == ""
  {
    RangeMember(first, last, st.queue[st.current]);
    TwoFrom(st.queue, first, last, 0);
    if st.queue[st.current] in Range(first, last) { NextIfGone(st.queue, Range(first, last), st.current); }
  }

  /** The next track stays. */
  lemma NextStaysTold(get: Urls, st: State, first: nat, last: nat)
    requires Sound(st) && st.current + 1 < |st.queue| && !(first <= st.queue[st.current + 1] < last)
    ensures RemovalTold(get, st, Range(first, last), false) <==>
      !(first <= st.queue[st.current] < last) || UrlFrom(get, st, first, last, st.current + 2) == NextUrl(get, st)
  {
    RangeMember(first, last, st.queue[st.current]);
    RangeMember(first, last, st.queue[st.current + 1]);
    if st.queue[st.current] in Range(first, last) { NextIfGone(st.queue, Range(first, last), st.current); }
  }

  /** When removing entries keeps the player in step.  With a next track that stays: if the current one
      does too, or if by chance the URL after the next is the next one's.  With one that goes: if another
      comes after it, or two if the current one goes as well, or two in all if none does after.  With
      none: if the current one stays, or the first entry goes, which is announced for a next one, or at
      most one track is left, or one with no URL comes next. */
  lemma EntryRemoveStays(get: Urls, st: State, first: nat, last: nat)
    requires Sound(st) && st.current < |st.queue|
    ensures var q, c := st.queue, st.current;
      var stays := !(first <= q[c] < last);
      StaysInStep(get, st, OpEntryRemove(first, last)) <==>
        if c + 1 == |q| then
          || stays || first == 0 || !TwoStay(q, first, last, 0)
          || UrlFrom(get, st, first, last, FirstKept(q, Range(first, last), 0) + 1) == ""
        else if first <= q[c + 1] < last then
          || NextUrl(get, st) == ""
          || (if stays then OneStays(q, first, last, c + 2)
              else TwoStay(q, first, last, c + 2) || (!OneStays(q, first, last, c + 2) && TwoStay(q, first, last, 0)))
        else stays || UrlFrom(get, st, first, last, c + 2) == NextUrl(get, st)
  {
    if st.current + 1 == |st.queue| {
      LastTold(get, st, first, last, first <= 0 < last);
    } else if first <= st.queue[st.current + 1] < last {
      NextLeft(st.queue, first, last, st.current);
    } else {
      NextStaysTold(get, st, first, last);
    }
  }

  ghost predicate UrlsDiffer(get: Urls, st: State) {
    forall x, y :: 0 <= x < |st.entries| && 0 <= y < |st.entries| && UrlOf(get, st.entries[x]) == UrlOf(get, st.entries[y])
      ==> x == y
  }

  /** Removing just the current one of entries with URLs of their own never keeps the player in step. */
  lemma CurrentRemovedUntold(get: Urls, st: State, first: nat, last: nat)
    requires Sound(st) && st.current + 1 < |st.queue| && NextUrl(get, st) != ""
    requires UrlsDiffer(get, st)
    requires first <= st.queue[st.current] < last && !(first <= st.queue[st.current + 1] < last)
    ensures !StaysInStep(get, st, OpEntryRemove(first, last))
  {
    var q, gone := st.queue, Range(first, last);
    RangeMember(first, last, q[st.current]);
    RangeMember(first, last, q[st.current + 1]);
    assert FirstKept(q, gone, st.current) == st.current + 1;
    var j := NewNext(q, gone, st.current);
    assert q[st.current + 1] in q && (j < |q| ==> q[j] in q);
  }

  const PAIR := State([Entry(1, 1, true), Entry(1, 2, false)], [0, 1], 0, false)

  lemma PairIsSound()
    ensures Sound(PAIR)
  {
    assert forall x: nat :: x in PAIR.queue <==> x == 0 || x == 1;
  }

  lemma FirstOfPair()
    ensures QueueRemoved(PAIR, 1, 2) == State([Entry(1, 1, true)], [0], 0, false)
  {
    var q, es, gone := PAIR.queue, PAIR.entries, {1};
    assert q[1..2] == [1] && Elements([1]) == gone;
    assert KeptQueue(q, gone, 1) == [] + [0] && KeptQueue(q, gone, 2) == KeptQueue(q, gone, 1) + [];
    assert KeptEntries(es, gone, 1) == [] + [es[0]] && KeptEntries(es, gone, 2) == KeptEntries(es, gone, 1) + [];
  }

  /** Of two tracks, the first current, the second is removed.  The player still expects it next, and
      when it reports it the index runs past the end. */
  lemma StaleNextRunsPast(get: Urls)
    requires get(1, 1) != "" && get(1, 2) != "" && get(1, 1) != get(1, 2)
    ensures var p, op, st' := Player(PAIR, get(1, 1), get(1, 2)), OpQueueRemove(1, 2), QueueRemoved(PAIR, 1, 2);
      && Sound(PAIR) && InStep(get, p) && Next(PAIR, op, st') && Sound(st')
      && PastEnd(Told(get, p, op, st'), get(1, 2))
  {
    PairIsSound();
    FirstOfPair();
    NextSound(PAIR, OpQueueRemove(1, 2), QueueRemoved(PAIR, 1, 2));
  }
}
