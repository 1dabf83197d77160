/** The playback queue on values: what its two orders mean, and what each operation does to both. */
module QueueModel {

  /** A database of 0 stands for the null pointer that marks an entry for deletion. */
  datatype Entry = Entry(db: nat, id: nat, played: bool)

  /** `queue` holds positions in `entries`, in playing order. */
  datatype State = State(entries: seq<Entry>, queue: seq<nat>, current: nat, shuffled: bool)

  ghost predicate Distinct(q: seq<nat>) {
    forall i, j :: 0 <= i < j < |q| ==> q[i] != q[j]
  }

  /** Each of 0 to n-1 appears exactly once. */
  ghost predicate Permutation(q: seq<nat>, n: nat) {
    Distinct(q) && forall x: nat :: x in q <==> x < n
  }

  ghost predicate CurrentValid(st: State) {
    st.current < |st.queue| || (st.queue == [] && st.current == 0)
  }

  ghost predicate Valid(st: State) {
    && Permutation(st.queue, |st.entries|)
    && CurrentValid(st)
    && (forall e :: e in st.entries ==> e.db != 0)
  }

  /** Short of valid only in that with tracks in the queue none need be current: the index may be
      one past the last. */
  ghost predicate Sound(st: State) {
    && Permutation(st.queue, |st.entries|)
    && st.current <= |st.queue|
    && (forall e :: e in st.entries ==> e.db != 0)
  }

  function PlayOrder(st: State): seq<Entry>
    requires forall x :: x in st.queue ==> x < |st.entries|
  {
    seq(|st.queue|, i requires 0 <= i < |st.queue| => assert st.queue[i] in st.queue; st.entries[st.queue[i]])
  }

  /* Counting */

  function Elements(q: seq<nat>): set<nat> {
    set x | x in q
  }

  lemma {:induction false} DistinctSize(q: seq<nat>)
    requires Distinct(q)
    ensures |Elements(q)| == |q|
  {
    if q != [] {
      DistinctSize(q[1..]);
      assert q == [q[0]] + q[1..];
      assert Elements(q) == {q[0]} + Elements(q[1..]);
    }
  }

  ghost function Below(n: nat): set<nat> {
    if n == 0 then {} else Below(n - 1) + {n - 1}
  }

  lemma {:induction false} BelowSize(n: nat)
    ensures |Below(n)| == n && forall x: nat :: x in Below(n) <==> x < n
  {
    if n > 0 { BelowSize(n - 1); }
  }

  lemma PermutationSize(q: seq<nat>, n: nat)
    requires Permutation(q, n)
    ensures |q| == n
  {
    DistinctSize(q);
    BelowSize(n);
    assert Elements(q) == Below(n);
  }

  /** Distinct positions below the length are all of them: this is how the queue can be checked. */
  lemma PermutationFromSize(q: seq<nat>)
    requires Distinct(q) && forall x :: x in q ==> x < |q|
    ensures Permutation(q, |q|)
  {
    DistinctSize(q);
    BelowSize(|q|);
    SubsetFull(Elements(q), Below(|q|));
    assert forall x: nat :: x in q <==> x in Elements(q);
  }

  lemma {:induction false} SubsetFull(a: set<nat>, b: set<nat>)
    requires a <= b && |a| == |b|
    ensures a == b
  {
    if a != {} {
      var x :| x in a;
      SubsetFull(a - {x}, b - {x});
    } else {
      assert b == {};
    }
  }

  /* Removal */

  /** The position of `x` once the positions in `gone` are closed up. */
  function Rank(gone: set<nat>, x: nat): nat {
    if x == 0 then 0 else Rank(gone, x - 1) + (if x - 1 in gone then 0 else 1)
  }

  function KeptEntries(es: seq<Entry>, gone: set<nat>, n: nat): seq<Entry>
    requires n <= |es|
  {
    if n == 0 then []
    else KeptEntries(es, gone, n - 1) + (if n - 1 in gone then [] else [es[n - 1]])
  }

  /** The survivors among the first `n` of the queue, renumbered. */
  function KeptQueue(q: seq<nat>, gone: set<nat>, n: nat): seq<nat>
    requires n <= |q|
  {
    if n == 0 then []
    else KeptQueue(q, gone, n - 1) + (if q[n - 1] in gone then [] else [Rank(gone, q[n - 1])])
  }

  /** Remove a set of entries.  The new current index counts the survivors that play before the old
      one: the current track if it survives, else the next survivor, else the top. */
  function Remove(st: State, gone: set<nat>): State
    requires st.current <= |st.queue|
  {
    var q := KeptQueue(st.queue, gone, |st.queue|);
    var before := |KeptQueue(st.queue, gone, st.current)|;
    State(KeptEntries(st.entries, gone, |st.entries|), q, if before == |q| then 0 else before, st.shuffled)
  }

  lemma {:induction false} RankLess(gone: set<nat>, x: nat, y: nat)
    requires x < y
    ensures Rank(gone, x) <= Rank(gone, y)
    ensures x !in gone ==> Rank(gone, x) < Rank(gone, y)
  {
    if x < y - 1 { RankLess(gone, x, y - 1); }
  }

  lemma {:induction false} KeptEntriesSize(es: seq<Entry>, gone: set<nat>, n: nat)
    requires n <= |es|
    ensures |KeptEntries(es, gone, n)| == Rank(gone, n)
  {
    if n > 0 { KeptEntriesSize(es, gone, n - 1); }
  }

  /** A survivor is found again at its rank. */
  lemma {:induction false} KeptEntriesAt(es: seq<Entry>, gone: set<nat>, n: nat, x: nat)
    requires x < n <= |es| && x !in gone
    ensures |KeptEntries(es, gone, n)| == Rank(gone, n) && Rank(gone, x) < Rank(gone, n)
    ensures KeptEntries(es, gone, n)[Rank(gone, x)] == es[x]
  {
    KeptEntriesSize(es, gone, n - 1);
    if x < n - 1 { KeptEntriesAt(es, gone, n - 1, x); }
  }

  /** Every position of the closed-up list comes from a survivor. */
  lemma {:induction false} RankOnto(gone: set<nat>, n: nat, y: nat) returns (x: nat)
    requires y < Rank(gone, n)
    ensures x < n && x !in gone && Rank(gone, x) == y
  {
    if y == Rank(gone, n - 1) {
      x := n - 1;
    } else {
      x := RankOnto(gone, n - 1, y);
    }
  }

  lemma {:induction false} KeptQueueElements(q: seq<nat>, gone: set<nat>, n: nat)
    requires n <= |q|
    ensures forall y: nat :: y in KeptQueue(q, gone, n) <==> exists i :: 0 <= i < n && q[i] !in gone && Rank(gone, q[i]) == y
  {
    if n > 0 { KeptQueueElements(q, gone, n - 1); }
  }

  lemma {:induction false} KeptQueueDistinct(q: seq<nat>, gone: set<nat>, n: nat)
    requires n <= |q| && Distinct(q)
    ensures Distinct(KeptQueue(q, gone, n))
  {
    if n > 0 {
      KeptQueueDistinct(q, gone, n - 1);
      KeptQueueElements(q, gone, n - 1);
      var kept := KeptQueue(q, gone, n - 1);
      forall k | 0 <= k < |kept| && q[n - 1] !in gone ensures kept[k] != Rank(gone, q[n - 1]) {
        assert kept[k] in kept;
        var i :| 0 <= i < n - 1 && q[i] !in gone && Rank(gone, q[i]) == kept[k];
        if q[i] < q[n - 1] { RankLess(gone, q[i], q[n - 1]); } else { RankLess(gone, q[n - 1], q[i]); }
      }
    }
  }

  /** Survivors keep their order: an earlier prefix of the queue gives an earlier prefix. */
  lemma {:induction false} KeptQueuePrefix(q: seq<nat>, gone: set<nat>, m: nat, n: nat)
    requires m <= n <= |q|
    ensures KeptQueue(q, gone, m) <= KeptQueue(q, gone, n)
  {
    if m < n { KeptQueuePrefix(q, gone, m, n - 1); }
  }

  lemma RemovePermutation(st: State, gone: set<nat>)
    requires Permutation(st.queue, |st.entries|) && st.current <= |st.queue|
    ensures Permutation(Remove(st, gone).queue, |Remove(st, gone).entries|)
  {
    var n := |st.entries|;
    var st' := Remove(st, gone);
    KeptQueueDistinct(st.queue, gone, |st.queue|);
    KeptEntriesSize(st.entries, gone, n);
    forall y: nat ensures y in st'.queue <==> y < |st'.entries| {
      RemovedElement(st.queue, gone, n, y);
    }
  }

  lemma RemovedElement(q: seq<nat>, gone: set<nat>, n: nat, y: nat)
    requires Permutation(q, n)
    ensures y in KeptQueue(q, gone, |q|) <==> y < Rank(gone, n)
  {
    KeptQueueElements(q, gone, |q|);
    if y in KeptQueue(q, gone, |q|) {
      var i :| 0 <= i < |q| && q[i] !in gone && Rank(gone, q[i]) == y;
      assert q[i] in q;
      RankLess(gone, q[i], n);
    }
    if y < Rank(gone, n) {
      var x := RankOnto(gone, n, y);
      assert x in q;
    }
  }

  /** The survivors among the first `n` tracks to play. */
  function Surviving(st: State, gone: set<nat>, n: nat): seq<Entry>
    requires n <= |st.queue| && forall x :: x in st.queue ==> x < |st.entries|
  {
    if n == 0 then [] else
      assert st.queue[n - 1] in st.queue;
      Surviving(st, gone, n - 1) + (if st.queue[n - 1] in gone then [] else [st.entries[st.queue[n - 1]]])
  }

  lemma {:induction false} SurvivingAt(st: State, gone: set<nat>, n: nat)
    requires n <= |st.queue| && forall x :: x in st.queue ==> x < |st.entries|
    ensures var q, es := KeptQueue(st.queue, gone, n), KeptEntries(st.entries, gone, |st.entries|);
      && |Surviving(st, gone, n)| == |q|
      && forall k :: 0 <= k < |q| ==> q[k] < |es| && es[q[k]] == Surviving(st, gone, n)[k]
  {
    if n > 0 {
      SurvivingAt(st, gone, n - 1);
      var x := st.queue[n - 1];
      assert x in st.queue;
      if x !in gone { KeptEntriesAt(st.entries, gone, |st.entries|, x); }
    }
  }

  /** After a removal the survivors play in their old order. */
  lemma RemovePlayOrder(st: State, gone: set<nat>)
    requires Sound(st)
    ensures Permutation(Remove(st, gone).queue, |Remove(st, gone).entries|)
    ensures PlayOrder(Remove(st, gone)) == Surviving(st, gone, |st.queue|)
  {
    RemovePermutation(st, gone);
    SurvivingAt(st, gone, |st.queue|);
  }

  /** The first survivor from the old current position on becomes current; if there is none, the top does. */
  lemma RemoveCurrent(st: State, gone: set<nat>, i: nat)
    requires Sound(st) && st.current <= i <= |st.queue|
    requires forall k :: st.current <= k < i ==> st.queue[k] in gone
    requires i < |st.queue| ==> st.queue[i] !in gone
    ensures Valid(Remove(st, gone))
    ensures i == |st.queue| ==> Remove(st, gone).current == 0
    ensures i < |st.queue| ==>
      var st' := Remove(st, gone);
      && st'.current < |st'.queue| && st'.queue[st'.current] == Rank(gone, st.queue[i])
      && PlayOrder(st')[st'.current] == PlayOrder(st)[i]
  {
    RemoveValid(st, gone);
    KeptQueueSkips(st.queue, gone, st.current, i);
    if i < |st.queue| {
      KeptQueuePrefix(st.queue, gone, i + 1, |st.queue|);
      assert st.queue[i] in st.queue;
      KeptEntriesAt(st.entries, gone, |st.entries|, st.queue[i]);
    }
  }

  lemma {:induction false} KeptQueueSkips(q: seq<nat>, gone: set<nat>, m: nat, n: nat)
    requires m <= n <= |q| && forall k :: m <= k < n ==> q[k] in gone
    ensures KeptQueue(q, gone, n) == KeptQueue(q, gone, m)
  {
    if m < n { KeptQueueSkips(q, gone, m, n - 1); }
  }

  lemma {:induction false} KeptEntriesReal(es: seq<Entry>, gone: set<nat>, n: nat)
    requires n <= |es| && forall e :: e in es ==> e.db != 0
    ensures forall e :: e in KeptEntries(es, gone, n) ==> e.db != 0
  {
    if n > 0 { KeptEntriesReal(es, gone, n - 1); }
  }

  /** A removal leaves a track current whenever there is one. */
  lemma RemoveValid(st: State, gone: set<nat>)
    requires Sound(st)
    ensures Valid(Remove(st, gone))
  {
    RemovePermutation(st, gone);
    KeptEntriesReal(st.entries, gone, |st.entries|);
    KeptQueuePrefix(st.queue, gone, st.current, |st.queue|);
  }

  /** Removing a range of the playing order leaves an index past the end there. */
  function QueueRemoved(st: State, first: nat, last: nat): State
    requires st.current <= |st.queue| && first <= last <= |st.queue|
  {
    var st' := Remove(st, Elements(st.queue[first..last]));
    if st.current == |st.queue| then st'.(current := |st'.queue|) else st'
  }

  function Range(first: nat, last: nat): set<nat> {
    if last <= first then {} else Range(first, last - 1) + {last - 1}
  }

  lemma {:induction false} RangeMember(first: nat, last: nat, x: nat)
    ensures x in Range(first, last) <==> first <= x < last
  {
    if first < last { RangeMember(first, last - 1, x); }
  }

  /** What is outside a range of a queue without repetitions is not among what is inside. */
  lemma RangeSurvives(q: seq<nat>, first: nat, last: nat)
    requires Distinct(q) && first <= last <= |q|
    ensures forall k :: 0 <= k < |q| ==> (q[k] in Elements(q[first..last]) <==> first <= k < last)
    ensures forall x :: x in q[..first] + q[last..] ==> x in q && x !in Elements(q[first..last])
  {
    var inside, outside := q[first..last], q[..first] + q[last..];
    forall k | 0 <= k < |q| ensures q[k] in inside <==> first <= k < last {
      if q[k] in inside {
        var i :| 0 <= i < |inside| && inside[i] == q[k];
        assert q[first + i] == q[k];
      }
      assert first <= k < last ==> inside[k - first] == q[k];
    }
    forall x | x in outside ensures x in q && x !in inside {
      var i :| 0 <= i < |outside| && outside[i] == x;
      assert x == q[if i < first then i else i - first + last];
    }
  }

  /* Insertion */

  function InsertAt<T>(s: seq<T>, i: nat, x: T): seq<T>
    requires i <= |s|
  {
    s[..i] + [x] + s[i..]
  }

  /** Insert by playing order: the entry goes last among the entries. */
  function QueueInsert(st: State, e: Entry, at: nat): State
    requires at <= |st.queue|
  {
    st.(entries := st.entries + [e], queue := InsertAt(st.queue, at, |st.entries|),
        current := if (at == 0 || st.current != at - 1) && st.current >= at then st.current + 1 else st.current)
  }

  function Raised(q: seq<nat>, at: nat): seq<nat> {
    seq(|q|, i requires 0 <= i < |q| => if q[i] >= at then q[i] + 1 else q[i])
  }

  /** Insert by entry order, at position `pos` of the playing order. */
  function EntryInsert(st: State, e: Entry, at: nat, pos: nat): State
    requires at <= |st.entries| && pos <= |st.queue|
  {
    st.(entries := InsertAt(st.entries, at, e), queue := InsertAt(Raised(st.queue, at), pos, at),
        current := if st.current > pos then st.current + 1 else st.current)
  }

  lemma JoinDistinct(a: seq<nat>, c: nat, b: seq<nat>)
    requires Distinct(a) && Distinct(b) && c !in a && c !in b && forall x :: x in a ==> x !in b
    ensures Distinct(a + [c] + b)
  {
    var q := a + [c] + b;
    assert forall k :: 0 <= k < |a| ==> q[k] in a;
    assert forall k :: |a| < k < |q| ==> q[k] in b && q[k] == b[k - |a| - 1];
  }

  lemma InsertDistinct(q: seq<nat>, i: nat, x: nat)
    requires i <= |q| && Distinct(q) && x !in q
    ensures Distinct(InsertAt(q, i, x)) && forall y :: y in InsertAt(q, i, x) <==> y in q || y == x
  {
    var a, b := q[..i], q[i..];
    assert q == a + b;
    forall y | y in a ensures y in q && y !in b {
      var j :| 0 <= j < i && q[j] == y;
      assert forall k :: 0 <= k < |b| ==> b[k] == q[i + k];
    }
    JoinDistinct(a, x, b);
  }

  lemma QueueInsertOrder(st: State, e: Entry, at: nat)
    requires Permutation(st.queue, |st.entries|) && at <= |st.queue|
    ensures var st' := QueueInsert(st, e, at);
      Permutation(st'.queue, |st'.entries|) && PlayOrder(st') == InsertAt(PlayOrder(st), at, e)
  {
    var st' := QueueInsert(st, e, at);
    PermutationSize(st.queue, |st.entries|);
    InsertDistinct(st.queue, at, |st.entries|);
    var play := PlayOrder(st');
    forall k | 0 <= k < |play| ensures play[k] == InsertAt(PlayOrder(st), at, e)[k] {
      if k != at {
        var q := st.queue[if k < at then k else k - 1];
        assert st'.queue[k] == q && q in st.queue;
      }
    }
  }

  /** The current track stays current; if there was none there is none, and the index is one past the end. */
  lemma QueueInsertCurrent(st: State, e: Entry, at: nat)
    requires Sound(st) && at <= |st.queue| && e.db != 0
    ensures var st' := QueueInsert(st, e, at);
      if st.current < |st.queue| then Valid(st') && st'.queue[st'.current] == st.queue[st.current]
      else !Valid(st') && st'.current == |st'.queue|
  {
    QueueInsertOrder(st, e, at);
  }

  lemma EntryInsertOrder(st: State, e: Entry, at: nat, pos: nat)
    requires Permutation(st.queue, |st.entries|) && at <= |st.entries| && pos <= |st.queue|
    ensures var st' := EntryInsert(st, e, at, pos);
      Permutation(st'.queue, |st'.entries|) && PlayOrder(st') == InsertAt(PlayOrder(st), pos, e)
  {
    var st' := EntryInsert(st, e, at, pos);
    PermutationSize(st.queue, |st.entries|);
    RaisedDistinct(st.queue, at);
    InsertDistinct(Raised(st.queue, at), pos, at);
    forall x: nat ensures x in st'.queue <==> x < |st'.entries| {
      RaisedElements(st.queue, |st.entries|, at, x);
    }
    var play := PlayOrder(st');
    forall k | 0 <= k < |play| ensures play[k] == InsertAt(PlayOrder(st), pos, e)[k] {
      if k != pos {
        var q := st.queue[if k < pos then k else k - 1];
        assert q in st.queue;
        assert st'.queue[k] == if q >= at then q + 1 else q;
      }
    }
  }

  lemma RaisedDistinct(q: seq<nat>, at: nat)
    requires Distinct(q)
    ensures Distinct(Raised(q, at)) && at !in Raised(q, at)
  {
  }

  lemma RaisedElements(q: seq<nat>, n: nat, at: nat, x: nat)
    requires Permutation(q, n) && at <= n
    ensures x in Raised(q, at) <==> x < n + 1 && x != at
  {
    if x in Raised(q, at) {
      var i :| 0 <= i < |q| && Raised(q, at)[i] == x;
      assert q[i] in q;
    }
    if x < at {
      assert x in q;
      var i :| 0 <= i < |q| && q[i] == x;
      assert Raised(q, at)[i] == x;
    } else if at < x <= n {
      assert x - 1 in q;
      var i :| 0 <= i < |q| && q[i] == x - 1;
      assert Raised(q, at)[i] == x;
    }
  }

  /** The track being played changes exactly when the new one lands on its position. */
  lemma EntryInsertCurrent(st: State, e: Entry, at: nat, pos: nat)
    requires Sound(st) && at <= |st.entries| && pos <= |st.queue| && e.db != 0
    ensures var st' := EntryInsert(st, e, at, pos);
      && Sound(st') && (Valid(st') <==> Valid(st) || pos == st.current)
      && (st.current < |st.queue| && pos != st.current ==>
            PlayOrder(st')[st'.current] == PlayOrder(st)[st.current]
            && st'.queue[st'.current] == Raised(st.queue, at)[st.current])
      && (pos == st.current ==> st'.queue[st'.current] == at)
      && (pos > st.current ==> PlayOrder(st')[..st.current + 1] == PlayOrder(st)[..st.current + 1] && st'.current == st.current)
  {
    EntryInsertOrder(st, e, at, pos);
  }

  /* Shuffling */

  /** Entries other than the current one, by whether they have been played. */
  function OthersPlayed(es: seq<Entry>, current: nat, played: bool, n: nat): seq<nat>
    requires n <= |es|
  {
    if n == 0 then []
    else OthersPlayed(es, current, played, n - 1) + (if n - 1 != current && es[n - 1].played == played then [n - 1] else [])
  }

  function Identity(n: nat): seq<nat> {
    seq(n, i => i)
  }

  /** Played entries first in any order, then the current one, then the unplayed ones in any order. */
  ghost predicate Bipartite(st: State, st': State)
    requires st.current < |st.queue|
  {
    var c := st.queue[st.current];
    && st'.entries == st.entries && st'.shuffled
    && st'.current < |st'.queue| && st'.queue[st'.current] == c
    && multiset(st'.queue[..st'.current]) == multiset(OthersPlayed(st.entries, c, true, |st.entries|))
    && multiset(st'.queue[st'.current + 1..]) == multiset(OthersPlayed(st.entries, c, false, |st.entries|))
  }

  lemma {:induction false} OthersElements(es: seq<Entry>, current: nat, played: bool, n: nat)
    requires n <= |es|
    ensures forall x: nat :: x in OthersPlayed(es, current, played, n) <==> x < n && x != current && es[x].played == played
    ensures Distinct(OthersPlayed(es, current, played, n))
  {
    if n > 0 { OthersElements(es, current, played, n - 1); }
  }

  lemma {:induction false} DistinctSame(a: seq<nat>, b: seq<nat>)
    requires multiset(a) == multiset(b) && Distinct(a)
    ensures Distinct(b) && forall x :: x in b <==> x in a
  {
    forall i, j | 0 <= i < j < |b| ensures b[i] != b[j] {
      if b[i] == b[j] {
        assert b == b[..i] + [b[i]] + b[i + 1..j] + [b[j]] + b[j + 1..];
        assert multiset(b)[b[i]] >= 2;
        DistinctOnce(a, b[i]);
        assert false;
      }
    }
    forall x ensures x in b <==> x in a {
      assert x in multiset(a) <==> x in multiset(b);
    }
  }

  lemma {:induction false} DistinctOnce(a: seq<nat>, x: nat)
    requires Distinct(a)
    ensures multiset(a)[x] <= 1
  {
    if a != [] {
      assert a == [a[0]] + a[1..];
      DistinctOnce(a[1..], x);
      if a[0] == x { assert x !in a[1..]; }
    }
  }

  lemma ShuffleParts(st: State, st': State)
    requires Valid(st) && st.current < |st.queue| && Bipartite(st, st')
    ensures var c, front, back := st.queue[st.current], st'.queue[..st'.current], st'.queue[st'.current + 1..];
      && st'.queue == front + [c] + back && c < |st.entries|
      && Distinct(front) && (forall x: nat :: x in front <==> x < |st.entries| && x != c && st.entries[x].played)
      && Distinct(back) && (forall x: nat :: x in back <==> x < |st.entries| && x != c && !st.entries[x].played)
  {
    var c, n := st.queue[st.current], |st.entries|;
    assert c in st.queue;
    OthersElements(st.entries, c, true, n);
    OthersElements(st.entries, c, false, n);
    DistinctSame(OthersPlayed(st.entries, c, true, n), st'.queue[..st'.current]);
    DistinctSame(OthersPlayed(st.entries, c, false, n), st'.queue[st'.current + 1..]);
  }

  /** Shuffling keeps the queue a permutation with the same track current. */
  lemma ShuffleValid(st: State, st': State)
    requires Valid(st) && st.current < |st.queue| && Bipartite(st, st')
    ensures Valid(st')
    ensures PlayOrder(st')[st'.current] == PlayOrder(st)[st.current]
  {
    var c, front, back := st.queue[st.current], st'.queue[..st'.current], st'.queue[st'.current + 1..];
    ShuffleParts(st, st');
    JoinDistinct(front, c, back);
    assert forall x: nat :: x in st'.queue <==> x in front || x == c || x in back;
  }

  /** Exactly the other tracks that have been played lie before the current one. */
  lemma ShuffleOrder(st: State, st': State, k: nat)
    requires Valid(st) && Valid(st') && st.current < |st.queue| && Bipartite(st, st')
    requires k < |st'.queue| && k != st'.current
    ensures k < st'.current <==> PlayOrder(st')[k].played
  {
    ShuffleParts(st, st');
    PartOf(st'.queue[..st'.current], st.queue[st.current], st'.queue[st'.current + 1..], k);
  }

  lemma PartOf(front: seq<nat>, c: nat, back: seq<nat>, k: nat)
    requires k <= |front| + |back| && k != |front|
    ensures if k < |front| then (front + [c] + back)[k] in front else (front + [c] + back)[k] in back
  {
    var q := front + [c] + back;
    if k < |front| {
      assert q[k] == front[k];
    } else {
      assert q[k] == back[k - |front| - 1];
    }
  }

  /** Unshuffling restores the identity order around the same track. */
  function Unshuffle(st: State): State
    requires st.current < |st.queue|
  {
    State(st.entries, Identity(|st.entries|), st.queue[st.current], false)
  }

  lemma UnshuffleValid(st: State)
    requires Valid(st) && st.current < |st.queue|
    ensures Valid(Unshuffle(st)) && Unshuffle(st).current < |st.entries|
    ensures PlayOrder(Unshuffle(st)) == st.entries
    ensures PlayOrder(Unshuffle(st))[Unshuffle(st).current] == PlayOrder(st)[st.current]
  {
    assert st.queue[st.current] in st.queue;
    var q := Identity(|st.entries|);
    forall x: nat ensures x in q <==> x < |st.entries| {
      assert x < |st.entries| ==> q[x] == x;
    }
  }
}
