/** The playback queue as it runs: two vectors and a current index changed in place. */
module PlayQueue {
  import opened QueueModel
  import opened QueueRuns
  import opened QueuePlayer

  /** Any permutation at all: every choice of positions is possible. */
  method StdShuffle(s: seq<nat>) returns (r: seq<nat>)
    ensures multiset(r) == multiset(s)
  {
    r := s;
    var i := 0;
    while i < |r|
      invariant i <= |r| && multiset(r) == multiset(s)
    {
      var j :| i <= j < |r|;
      SwapKeeps(r, i, j);
      r := r[i := r[j]][j := r[i]];
      i := i + 1;
    }
  }

  lemma SwapKeeps(r: seq<nat>, i: nat, j: nat)
    requires i < |r| && j < |r|
    ensures multiset(r[i := r[j]][j := r[i]]) == multiset(r)
  {
  }

  class Queue {
    const getUrl: Urls
    var entries: seq<Entry>
    var queue: seq<nat>
    var currentIndex: nat
    var shuffled: bool
    var expectedUrl: string
    var expectedNextUrl: string

    ghost function St(): State
      reads this
    {
      State(entries, queue, currentIndex, shuffled)
    }

    ghost function Pl(): Player
      reads this
    {
      Player(St(), expectedUrl, expectedNextUrl)
    }

    constructor (getUrl: Urls)
      ensures Pl() == SILENT && Valid(St()) && this.getUrl == getUrl
    {
      this.getUrl := getUrl;
      entries, queue, currentIndex, shuffled := [], [], 0, false;
      expectedUrl, expectedNextUrl := "", "";
    }

    /* What the player is told */

    method SetURL()
      requires Sound(St())
      modifies this`expectedUrl
      ensures Pl() == SetUrl(getUrl, old(Pl()))
    {
      PermutationSize(queue, |entries|);
      if currentIndex >= |entries| {
        return;
      }
      assert queue[currentIndex] in queue;
      var dbp := entries[queue[currentIndex]];
      expectedUrl := getUrl(dbp.db, dbp.id);
    }

    method SetNextURL()
      requires Sound(St())
      modifies this`expectedNextUrl
      ensures Pl() == SetNextUrl(getUrl, old(Pl()))
    {
      PermutationSize(queue, |entries|);
      if currentIndex + 1 >= |entries| {
        return;
      }
      assert queue[currentIndex + 1] in queue;
      var dbp := entries[queue[currentIndex + 1]];
      expectedNextUrl := getUrl(dbp.db, dbp.id);
    }

    /** After the locked part of an operation. */
    method Tell(setUrl: bool, setNextUrl: bool, ghost p: Player, ghost op: Op)
      requires Sound(St()) && Pl() == p.(st := St()) && !op.OpAdvance?
      requires setUrl == SetsUrl(p.st, op) && setNextUrl == SetsNextUrl(p.st, op)
      modifies this`expectedUrl, this`expectedNextUrl
      ensures Pl() == Told(getUrl, p, op, old(St()))
    {
      if setUrl {
        SetURL();
      }
      if setNextUrl {
        SetNextURL();
      }
    }

    /** The player says what it has begun to play; if it is none of ours someone else controls it.
        What is past the end is not there to be marked. */
    method OnURL(url: string) returns (stranger: bool)
      requires Sound(St()) && !PastEnd(Pl(), url)
      modifies this
      ensures Sound(St()) && Pl() == OnUrl(getUrl, old(Pl()), url)
      ensures stranger <==> ReportOf(old(Pl()), url).Stranger?
    {
      var current, next := false, false;
      if url == expectedUrl && url != "" {
        current := true;
        assert queue[currentIndex] in queue;
        MarkPlayed();
      } else if url == expectedNextUrl && url != "" {
        next := true;
        currentIndex := currentIndex + 1;
        expectedUrl := expectedNextUrl;
        expectedNextUrl := "";
        assert queue[currentIndex] in queue;
        MarkPlayed();
      }
      if next {
        NextSound(old(St()), OpAdvance, St());
        SetNextURL();
      }
      stranger := !next && !current;
    }

    method MarkPlayed()
      requires currentIndex < |queue| && queue[currentIndex] < |entries|
      modifies this`entries
      ensures St() == Played(old(St()))
    {
      var x := queue[currentIndex];
      entries := entries[x := entries[x].(played := true)];
    }

    /** Start the player on the current track. */
    method Play()
      requires Sound(St())
      modifies this`expectedUrl, this`expectedNextUrl
      ensures Pl() == SetNextUrl(getUrl, SetUrl(getUrl, old(Pl())))
    {
      PermutationSize(queue, |entries|);
      if entries == [] {
        return;
      }
      SetURL();
      SetNextURL();
    }

    /** Go to a place of the playing order, and play on if playing. */
    method Seek(index: nat, playing: bool)
      requires Sound(St())
      modifies this
      ensures Sound(St()) && Next(old(St()), OpSeek(index), St())
      ensures Pl() == Told(getUrl, old(Pl()), OpSeek(index), St())
    {
      if index < |queue| {
        currentIndex := index;
      }
      SetURL();
      SetNextURL();
      if playing {
        Play();
      }
    }

    /* Operations: the part of each under the lock, and then the whole */

    method AddTrack(db: nat, id: nat) returns (setNextUrl: bool)
      requires Sound(St()) && db != 0
      modifies this`entries, this`queue, this`currentIndex, this`shuffled
      ensures Sound(St()) && Next(old(St()), OpAdd(Entry(db, id, false)), St())
      ensures PlayOrder(St()) == PlayOrder(old(St())) + [Entry(db, id, false)]
      ensures currentIndex == old(currentIndex) && shuffled == old(shuffled)
      ensures entries == old(entries) + [Entry(db, id, false)]
      ensures setNextUrl <==> old(currentIndex) + 1 == |old(queue)|
    {
      PermutationSize(queue, |entries|);
      QueueInsertOrder(St(), Entry(db, id, false), |queue|);
      assert InsertAt(queue, |queue|, |entries|) == queue + [|entries|];
      assert InsertAt(PlayOrder(St()), |queue|, Entry(db, id, false)) == PlayOrder(St()) + [Entry(db, id, false)];
      entries := entries + [Entry(db, id, false)];
      queue := queue + [|entries| - 1];
      setNextUrl := currentIndex + 2 == |entries|;
    }

    method Add(db: nat, id: nat)
      requires Sound(St()) && db != 0
      modifies this
      ensures Sound(St()) && Next(old(St()), OpAdd(Entry(db, id, false)), St())
      ensures PlayOrder(St()) == PlayOrder(old(St())) + [Entry(db, id, false)]
      ensures currentIndex == old(currentIndex) && shuffled == old(shuffled)
      ensures entries == old(entries) + [Entry(db, id, false)]
      ensures Pl() == Told(getUrl, old(Pl()), OpAdd(Entry(db, id, false)), St())
    {
      var setNextUrl := AddTrack(db, id);
      Tell(false, setNextUrl, old(Pl()), OpAdd(Entry(db, id, false)));
    }

    method InsertInQueue(db: nat, id: nat, at: nat) returns (setUrl: bool, setNextUrl: bool)
      requires Sound(St()) && db != 0 && at <= |queue|
      modifies this`entries, this`queue, this`currentIndex, this`shuffled
      ensures Sound(St()) && Next(old(St()), OpQueueInsert(Entry(db, id, false), at), St())
      ensures St() == QueueModel.QueueInsert(old(St()), Entry(db, id, false), at)
      ensures setUrl <==> old(entries) == []
      ensures setNextUrl <==> at > 0 && at == old(currentIndex) + 1
    {
      entries := entries + [Entry(db, id, false)];
      queue := queue[..at] + [|entries| - 1] + queue[at..];
      setUrl, setNextUrl := false, false;
      if at > 0 && currentIndex == at - 1 {
        setNextUrl := true;
      } else if currentIndex >= at {
        currentIndex := currentIndex + 1;
      }
      if |entries| == 1 {
        setUrl := true;
      }
      NextSound(old(St()), OpQueueInsert(Entry(db, id, false), at), St());
    }

    /** Insert at a position of the playing order. */
    method QueueInsert(db: nat, id: nat, at: nat)
      requires Sound(St()) && db != 0 && at <= |queue|
      modifies this
      ensures Sound(St()) && Next(old(St()), OpQueueInsert(Entry(db, id, false), at), St())
      ensures Pl() == Told(getUrl, old(Pl()), OpQueueInsert(Entry(db, id, false), at),
                           QueueModel.QueueInsert(old(St()), Entry(db, id, false), at))
    {
      var setUrl, setNextUrl := InsertInQueue(db, id, at);
      Tell(setUrl, setNextUrl, old(Pl()), OpQueueInsert(Entry(db, id, false), at));
    }

    method RaiseQueue(at: nat)
      modifies this`queue
      ensures queue == Raised(old(queue), at)
    {
      var i := 0;
      while i < |queue|
        invariant i <= |queue| == |old(queue)|
        invariant forall k :: 0 <= k < i ==> queue[k] == Raised(old(queue), at)[k]
        invariant forall k :: i <= k < |queue| ==> queue[k] == old(queue)[k]
      {
        if queue[i] >= at {
          queue := queue[i := queue[i] + 1];
        }
        i := i + 1;
      }
    }

    /** In shuffled order the track is put at random among those still to come; `random` is any number.
        While playing there is no such place if there is no current track. */
    method InsertInEntries(db: nat, id: nat, at: nat, playing: bool, random: nat)
      returns (pos: nat, setUrl: bool, setNextUrl: bool)
      requires Sound(St()) && db != 0 && at <= |entries|
      requires !(shuffled && playing && currentIndex == |queue|)
      modifies this`entries, this`queue, this`currentIndex, this`shuffled
      ensures Sound(St()) && Next(old(St()), OpEntryInsert(Entry(db, id, false), at, pos), St())
      ensures pos <= |old(queue)| && St() == QueueModel.EntryInsert(old(St()), Entry(db, id, false), at, pos)
      ensures if old(shuffled) then pos >= old(currentIndex) + (if playing then 1 else 0) else pos == at
      ensures setUrl <==> pos == old(currentIndex)
      ensures setNextUrl <==> pos == old(currentIndex) + 1
    {
      PermutationSize(queue, |entries|);
      entries := entries[..at] + [Entry(db, id, false)] + entries[at..];
      RaiseQueue(at);
      if shuffled {
        var firstAvailable := currentIndex;
        if playing {
          firstAvailable := firstAvailable + 1;
        }
        if firstAvailable == |queue| {
          pos := |queue|;
        } else {
          pos := firstAvailable + random % (|queue| - firstAvailable + 1);
        }
      } else {
        pos := at;
      }
      queue := queue[..pos] + [at] + queue[pos..];
      setUrl, setNextUrl := false, false;
      if pos > 0 && currentIndex == pos - 1 {
        setNextUrl := true;
      } else if pos == currentIndex {
        setUrl := true;
      } else if currentIndex > pos {
        currentIndex := currentIndex + 1;
      }
      NextSound(old(St()), OpEntryInsert(Entry(db, id, false), at, pos), St());
    }

    /** Insert at a position of the entries. */
    method EntryInsert(db: nat, id: nat, at: nat, playing: bool, random: nat) returns (pos: nat)
      requires Sound(St()) && db != 0 && at <= |entries|
      requires !(shuffled && playing && currentIndex == |queue|)
      modifies this
      ensures Sound(St()) && Next(old(St()), OpEntryInsert(Entry(db, id, false), at, pos), St())
      ensures if old(shuffled) then pos >= old(currentIndex) + (if playing then 1 else 0) else pos == at
      ensures pos <= |old(queue)|
      ensures Pl() == Told(getUrl, old(Pl()), OpEntryInsert(Entry(db, id, false), at, pos),
                           QueueModel.EntryInsert(old(St()), Entry(db, id, false), at, pos))
    {
      var setUrl, setNextUrl;
      pos, setUrl, setNextUrl := InsertInEntries(db, id, at, playing, random);
      Tell(setUrl, setNextUrl, old(Pl()), OpEntryInsert(Entry(db, id, false), at, pos));
    }

    /** Mark a range of the playing order for deletion. */
    method MarkGone(first: nat, last: nat)
      requires first <= last <= |queue| && forall x :: x in queue ==> x < |entries|
      modifies this`entries
      ensures |entries| == |old(entries)|
      ensures Marked(old(entries), entries, Elements(queue[first..last]))
    {
      var i := first;
      while i < last
        invariant first <= i <= last && |entries| == |old(entries)|
        invariant Marked(old(entries), entries, Elements(queue[first..i]))
      {
        assert queue[first..i + 1] == queue[first..i] + [queue[i]];
        assert queue[i] in queue;
        entries := entries[queue[i] := entries[queue[i]].(db := 0)];
        i := i + 1;
      }
    }

    /** The map from old positions to new ones, for entries that are not marked. */
    method SurvivorRanks(ghost gone: set<nat>) returns (ranks: map<nat, nat>)
      requires forall x: nat :: x < |entries| ==> (entries[x].db == 0 <==> x in gone)
      ensures forall x: nat :: x in ranks <==> x < |entries| && x !in gone
      ensures forall x :: x in ranks ==> ranks[x] == Rank(gone, x)
    {
      ranks := map[];
      var i, j := 0, 0;
      while i < |entries|
        invariant i <= |entries| && j == Rank(gone, i)
        invariant forall x: nat :: x in ranks <==> x < i && x !in gone
        invariant forall x :: x in ranks ==> ranks[x] == Rank(gone, x)
      {
        if entries[i].db != 0 {
          ranks := ranks[i := j];
          j := j + 1;
        }
        i := i + 1;
      }
    }

    method Renumber(ranks: map<nat, nat>, ghost gone: set<nat>)
      requires forall x :: x in queue ==> x in ranks && ranks[x] == Rank(gone, x)
      modifies this`queue
      ensures queue == Ranks(gone, old(queue))
    {
      var i := 0;
      while i < |queue|
        invariant i <= |queue| == |old(queue)|
        invariant forall k :: 0 <= k < i ==> queue[k] == Rank(gone, old(queue)[k])
        invariant forall k :: i <= k < |queue| ==> queue[k] == old(queue)[k]
      {
        assert queue[i] in old(queue);
        queue := queue[i := ranks[queue[i]]];
        i := i + 1;
      }
    }

    method RemoveFromQueue(first: nat, last: nat) returns (setUrl: bool, setNextUrl: bool)
      requires Sound(St()) && first <= last <= |queue|
      modifies this`entries, this`queue, this`currentIndex, this`shuffled
      ensures Sound(St()) && Next(old(St()), OpQueueRemove(first, last), St())
      ensures St() == QueueRemoved(old(St()), first, last)
      ensures setUrl <==> first <= old(currentIndex) < last
      ensures setNextUrl <==> setUrl || old(currentIndex) + 1 == first
    {
      PermutationSize(queue, |entries|);
      RangeCounts(St(), first, last);
      RemoveRange(first, last);
      setUrl, setNextUrl := false, false;
      if currentIndex >= last {
        currentIndex := currentIndex - (last - first);
      } else if currentIndex >= first {
        setUrl := true;
        setNextUrl := true;
        if first == |entries| {
          currentIndex := 0;
        } else {
          currentIndex := first;
        }
      } else if first > 0 && currentIndex == first - 1 {
        setNextUrl := true;
      }
      NextSound(old(St()), OpQueueRemove(first, last), St());
    }

    /** Remove a range of the playing order. */
    method QueueRemove(first: nat, last: nat)
      requires Sound(St()) && first <= last <= |queue|
      modifies this
      ensures Sound(St()) && Next(old(St()), OpQueueRemove(first, last), St())
      ensures Pl() == Told(getUrl, old(Pl()), OpQueueRemove(first, last), QueueRemoved(old(St()), first, last))
    {
      var setUrl, setNextUrl := RemoveFromQueue(first, last);
      Tell(setUrl, setNextUrl, old(Pl()), OpQueueRemove(first, last));
    }

    /** The part of a removal that concerns the two vectors. */
    method RemoveRange(first: nat, last: nat)
      requires Sound(St()) && first <= last <= |queue|
      modifies this`entries, this`queue
      ensures entries == KeptEntries(old(entries), Elements(old(queue)[first..last]), |old(entries)|)
      ensures queue == KeptQueue(old(queue), Elements(old(queue)[first..last]), |old(queue)|)
    {
      ghost var q, gone := queue, Elements(queue[first..last]);
      RangeSurvives(q, first, last);
      RangeKept(q, first, last, |q|);
      assert q[last..|q|] == q[last..];
      var ranks := EraseRange(first, last);
      queue := queue[..first] + queue[last..];
      Renumber(ranks, gone);
    }

    /** Mark the entries, work out where the others go, and erase the marked ones. */
    method EraseRange(first: nat, last: nat) returns (ranks: map<nat, nat>)
      requires Sound(St()) && first <= last <= |queue|
      modifies this`entries
      ensures entries == KeptEntries(old(entries), Elements(queue[first..last]), |old(entries)|)
      ensures forall x: nat :: x in ranks <==> x < |old(entries)| && x !in Elements(queue[first..last])
      ensures forall x :: x in ranks ==> ranks[x] == Rank(Elements(queue[first..last]), x)
    {
      ghost var es, gone := entries, Elements(queue[first..last]);
      assert forall x: nat :: x < |es| ==> es[x] in es;
      MarkGone(first, last);
      ranks := SurvivorRanks(gone);
      RealIsKept(es, entries, gone, |es|);
      entries := Real(entries, |entries|);
    }

    /** Close up the queue in place after entries `first` to `last` have gone. */
    method CompactQueue(first: nat, last: nat) returns (j: nat, newCurrent: nat, setUrl: bool)
      requires first <= last
      modifies this`queue
      ensures |queue| == |old(queue)| && j <= |queue|
      ensures queue[..j] == KeptQueue(old(queue), Range(first, last), |queue|)
      ensures newCurrent == if currentIndex < |queue| then |KeptQueue(old(queue), Range(first, last), currentIndex)| else 0
      ensures setUrl <==> currentIndex < |queue| && first <= old(queue)[currentIndex] < last
    {
      ghost var gone := Range(first, last);
      j, newCurrent, setUrl := 0, 0, false;
      var i := 0;
      while i < |queue|
        invariant j <= i <= |queue| == |old(queue)|
        invariant queue[..j] == KeptQueue(old(queue), gone, i)
        invariant queue[i..] == old(queue)[i..]
        invariant newCurrent == if currentIndex < i then |KeptQueue(old(queue), gone, currentIndex)| else 0
        invariant setUrl <==> currentIndex < i && first <= old(queue)[currentIndex] < last
      {
        var q := queue[i];
        assert q == old(queue)[i];
        RangeRank(first, last, q);
        ghost var kept := queue[..j];
        if currentIndex == i {
          newCurrent := j;
        }
        if q >= last {
          queue := queue[j := first + (q - last)];
          j := j + 1;
        } else if q < first {
          queue := queue[j := q];
          j := j + 1;
        } else if currentIndex == i {
          setUrl := true;
        }
        assert queue[..j] == kept + (if q in gone then [] else [Rank(gone, q)]);
        i := i + 1;
      }
    }

    method RemoveFromEntries(first: nat, last: nat) returns (setUrl: bool, setNextUrl: bool)
      requires Sound(St()) && first <= last <= |entries|
      modifies this`entries, this`queue, this`currentIndex, this`shuffled
      ensures St() == Remove(old(St()), Range(first, last))
      ensures setUrl <==> old(currentIndex) < |old(queue)| && first <= old(queue)[old(currentIndex)] < last
      ensures setNextUrl <==>
        first <= (if old(currentIndex) + 1 < |old(queue)| then old(queue)[old(currentIndex) + 1] else 0) < last
    {
      ghost var st, gone := St(), Range(first, last);
      RemovedSize(st, gone);
      RangeEntries(entries, first, last, |entries|);
      var nextEntry := 0;
      if currentIndex + 1 < |queue| {
        nextEntry := queue[currentIndex + 1];
      }
      setNextUrl := first <= nextEntry < last;
      var j, newCurrent;
      j, newCurrent, setUrl := CompactQueue(first, last);
      entries := entries[..first] + entries[last..];
      assert entries == KeptEntries(st.entries, gone, |st.entries|);
      currentIndex := newCurrent;
      queue := queue[..|entries|];
      assert queue == KeptQueue(st.queue, gone, |st.queue|);
      if currentIndex == |queue| {
        currentIndex := 0;
      }
      assert St() == Remove(st, gone);
    }

    /** Remove a range of the entries. */
    method EntryRemove(first: nat, last: nat)
      requires Sound(St()) && first <= last <= |entries|
      modifies this
      ensures Sound(St()) && Next(old(St()), OpEntryRemove(first, last), St())
      ensures Pl() == Told(getUrl, old(Pl()), OpEntryRemove(first, last), Remove(old(St()), Range(first, last)))
    {
      var setUrl, setNextUrl := RemoveFromEntries(first, last);
      NextSound(old(St()), OpEntryRemove(first, last), St());
      Tell(setUrl, setNextUrl, old(Pl()), OpEntryRemove(first, last));
    }

    method Reorder(whether: bool) returns (setNextUrl: bool)
      requires Sound(St()) && (whether != shuffled && |entries| > 1 ==> currentIndex < |queue|)
      modifies this`entries, this`queue, this`currentIndex, this`shuffled
      ensures Next(old(St()), OpShuffle(whether), St())
      ensures entries == old(entries) && shuffled == whether
      ensures setNextUrl <==> whether != old(shuffled) && |entries| > 1
    {
      setNextUrl := false;
      if whether == shuffled {
        return;
      }
      shuffled := whether;
      if |entries| <= 1 {
        return;
      }
      if whether {
        ShuffleApart();
      } else {
        assert queue[currentIndex] in queue;
        var currentEntry := queue[currentIndex];
        queue := InOrder();
        currentIndex := currentEntry;
      }
      setNextUrl := true;
    }

    /** Played tracks behind the current one, the others ahead, each part in any order. */
    method ShuffleApart()
      requires Sound(St()) && currentIndex < |queue| && shuffled
      modifies this`queue, this`currentIndex
      ensures Bipartite(old(St()), St())
    {
      var currentEntry := queue[currentIndex];
      var front := Others(currentEntry, true);
      front := StdShuffle(front);
      var back := Others(currentEntry, false);
      back := StdShuffle(back);
      queue := front + [currentEntry] + back;
      currentIndex := |front|;
      assert queue[..currentIndex] == front && queue[currentIndex + 1..] == back;
    }

    /** With more than one track there must be a current one to keep. */
    method SetShuffle(whether: bool)
      requires Sound(St()) && (whether != shuffled && |entries| > 1 ==> currentIndex < |queue|)
      modifies this
      ensures Sound(St()) && Next(old(St()), OpShuffle(whether), St())
      ensures entries == old(entries) && shuffled == whether
      ensures Pl() == Told(getUrl, old(Pl()), OpShuffle(whether), St())
    {
      var setNextUrl := Reorder(whether);
      NextSound(old(St()), OpShuffle(whether), St());
      Tell(false, setNextUrl, old(Pl()), OpShuffle(whether));
    }

    method InOrder() returns (q: seq<nat>)
      ensures q == Identity(|entries|)
    {
      q := [];
      var i := 0;
      while i < |entries|
        invariant i <= |entries| && q == Identity(i)
      {
        q := q + [i];
        i := i + 1;
      }
    }

    /** The entries other than the current one that have, or have not, been played. */
    method Others(currentEntry: nat, played: bool) returns (r: seq<nat>)
      ensures r == OthersPlayed(entries, currentEntry, played, |entries|)
    {
      r := [];
      var i := 0;
      while i < |entries|
        invariant i <= |entries| && r == OthersPlayed(entries, currentEntry, played, i)
      {
        if i != currentEntry && entries[i].played == played {
          r := r + [i];
        }
        i := i + 1;
      }
    }
  }

  /* Facts about ranges */

  /** `marked` is `es` with the entries in `gone` marked for deletion. */
  ghost predicate Marked(es: seq<Entry>, marked: seq<Entry>, gone: set<nat>) {
    && |marked| == |es|
    && (forall x: nat :: x < |es| ==> marked[x] == (if x in gone then es[x].(db := 0) else es[x]))
  }

  lemma RemovedSize(st: State, gone: set<nat>)
    requires Sound(st)
    ensures |KeptQueue(st.queue, gone, |st.queue|)| == |KeptEntries(st.entries, gone, |st.entries|)|
    ensures |KeptQueue(st.queue, gone, st.current)| <= |KeptQueue(st.queue, gone, |st.queue|)|
  {
    RemovePermutation(st, gone);
    PermutationSize(KeptQueue(st.queue, gone, |st.queue|), |KeptEntries(st.entries, gone, |st.entries|)|);
    KeptQueuePrefix(st.queue, gone, st.current, |st.queue|);
  }

  /** How many survive in all, and before the current track. */
  lemma RangeCounts(st: State, first: nat, last: nat)
    requires Sound(st) && first <= last <= |st.queue|
    ensures var gone, c := Elements(st.queue[first..last]), st.current;
      && |KeptEntries(st.entries, gone, |st.entries|)| == |KeptQueue(st.queue, gone, |st.queue|)| == |st.queue| - (last - first)
      && |KeptQueue(st.queue, gone, c)| == if c < first then c else if c < last then first else c - (last - first)
  {
    RemovedSize(st, Elements(st.queue[first..last]));
    RangeKept(st.queue, first, last, |st.queue|);
    RangeKept(st.queue, first, last, st.current);
  }

  /** The entries among the first `n` that are not marked. */
  function Real(es: seq<Entry>, n: nat): seq<Entry>
    requires n <= |es|
  {
    if n == 0 then [] else Real(es, n - 1) + (if es[n - 1].db == 0 then [] else [es[n - 1]])
  }

  lemma {:induction false} RealIsKept(es: seq<Entry>, marked: seq<Entry>, gone: set<nat>, n: nat)
    requires n <= |es| && Marked(es, marked, gone) && forall x: nat :: x < n ==> es[x].db != 0
    ensures Real(marked, n) == KeptEntries(es, gone, n)
  {
    if n > 0 { RealIsKept(es, marked, gone, n - 1); }
  }

  function Ranks(gone: set<nat>, q: seq<nat>): seq<nat> {
    seq(|q|, i requires 0 <= i < |q| => Rank(gone, q[i]))
  }

  lemma {:induction false} RangeKept(q: seq<nat>, first: nat, last: nat, m: nat)
    requires Distinct(q) && first <= last <= |q| && m <= |q|
    ensures KeptQueue(q, Elements(q[first..last]), m)
      == Ranks(Elements(q[first..last]), q[..if m < first then m else first] + q[last..if m < last then last else m])
  {
    var gone := Elements(q[first..last]);
    if m > 0 {
      RangeKept(q, first, last, m - 1);
      RangeSurvives(q, first, last);
      if m <= first {
        assert q[..m] == q[..m - 1] + [q[m - 1]];
      } else if m > last {
        assert q[last..m] == q[last..m - 1] + [q[m - 1]];
      }
    }
  }

  lemma {:induction false} RangeRank(first: nat, last: nat, x: nat)
    requires first <= last
    ensures x in Range(first, last) <==> first <= x < last
    ensures Rank(Range(first, last), x) == if x < first then x else if x < last then first else first + (x - last)
  {
    RangeMember(first, last, x);
    if x > 0 { RangeRank(first, last, x - 1); }
  }

  lemma {:induction false} RangeEntries(es: seq<Entry>, first: nat, last: nat, n: nat)
    requires first <= last <= |es| && n <= |es|
    ensures KeptEntries(es, Range(first, last), n)
      == es[..if n < first then n else first] + es[last..if n < last then last else n]
  {
    if n > 0 {
      RangeEntries(es, first, last, n - 1);
      RangeMember(first, last, n - 1);
      if n <= first {
        assert es[..n] == es[..n - 1] + [es[n - 1]];
      } else if n > last {
        assert es[last..n] == es[last..n - 1] + [es[n - 1]];
      }
    }
  }
}
