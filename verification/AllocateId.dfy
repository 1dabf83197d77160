/** The two allocators of unused record ids, which remember a gap found by scanning the ids in use. */
module AllocateId {
  import opened Ordering

  const UINT_MAX: nat := 0xFFFF_FFFF
  const FIRST: nat := 0x120

  datatype Gap = Gap(begin: nat, end: nat)
  {
    predicate Holds(id: nat) { begin <= id < end }
    predicate Used() { begin == end }
  }

  ghost predicate FreeOf(gap: Gap, ids: set<nat>) {
    forall id :: id in ids ==> !gap.Holds(id)
  }

  /* The scans, over the ids from position `k` on */

  /** Any gap will do: the scan starts at the lowest id whatever was allocated before. */
  function FindGap(ids: seq<nat>, k: nat, expected: nat): Gap
    requires k <= |ids|
    decreases |ids| - k
  {
    if k == |ids| then Gap(expected, UINT_MAX)
    else if ids[k] > expected then Gap(expected, ids[k])
    else FindGap(ids, k + 1, ids[k] + 1)
  }

  /** Only gaps past the previous one will do, and ids are multiples of sixteen. */
  function FindGap16(ids: seq<nat>, k: nat, last: nat, expected: nat): Gap
    requires k <= |ids|
    decreases |ids| - k
  {
    if k == |ids| then Gap(expected, UINT_MAX)
    else if ids[k] > expected then Gap(expected, ids[k])
    else FindGap16(ids, k + 1, last, if ids[k] > last then ids[k] + 16 else expected)
  }

  lemma {:induction false} FindGapFree(ids: seq<nat>, k: nat, expected: nat)
    requires StrictlyIncreasing(ids) && k <= |ids|
    requires k == 0 || expected == ids[k - 1] + 1
    ensures forall i :: 0 <= i < |ids| && ids[i] < UINT_MAX ==> !FindGap(ids, k, expected).Holds(ids[i])
    decreases |ids| - k
  {
    if k < |ids| && ids[k] <= expected { FindGapFree(ids, k + 1, ids[k] + 1); }
  }

  /** Every id is a multiple of sixteen, clear of wrap-around. */
  ghost predicate Fids(ids: set<nat>) {
    forall id :: id in ids ==> id % 16 == 0 && id + 32 < UINT_MAX
  }

  lemma {:induction false} FindGap16Free(ids: seq<nat>, k: nat, last: nat, expected: nat)
    requires StrictlyIncreasing(ids) && k <= |ids| && last % 16 == 0 && expected % 16 == 0
    requires forall i :: 0 <= i < |ids| ==> ids[i] % 16 == 0 && ids[i] + 32 < UINT_MAX
    requires last < expected && expected + 16 <= UINT_MAX
    requires forall i :: 0 <= i < k ==> ids[i] < expected
    requires expected == last + 16 || (k > 0 && expected == ids[k - 1] + 16)
    ensures var g := FindGap16(ids, k, last, expected);
      && last < g.begin && g.begin + 16 <= g.end && g.begin % 16 == 0 && (g.end % 16 == 0 || g.end == UINT_MAX)
      && (forall i :: 0 <= i < |ids| ==> !g.Holds(ids[i]))
    decreases |ids| - k
  {
    if k < |ids| && ids[k] <= expected {
      FindGap16Free(ids, k + 1, last, if ids[k] > last then ids[k] + 16 else expected);
    }
  }

  /* One allocation */

  function NewGap(gap: Gap, ids: set<nat>): Gap {
    if gap.Used() then FindGap(Ascending(ids), 0, gap.end + 1) else gap
  }

  function NewGap16(gap: Gap, ids: set<nat>): Gap {
    if gap.Used() then FindGap16(Ascending(ids), 0, gap.end, gap.end + 16) else gap
  }

  function Take(gap: Gap, ids: set<nat>): (Gap, nat) {
    var g := NewGap(gap, ids);
    (Gap(g.begin + 1, g.end), g.begin)
  }

  function Take16(gap: Gap, ids: set<nat>): (Gap, nat) {
    var g := NewGap16(gap, ids);
    (Gap(g.begin + 16, g.end), g.begin)
  }

  /** Ids in the database, ids handed out but not yet inserted there, and the allocator's gap. */
  datatype State = State(gap: Gap, ids: set<nat>, pending: set<nat>)

  datatype Op = TakeId | Insert(id: nat) | Remove(id: nat)

  /** Only ids that were handed out are ever inserted. */
  predicate Enabled(st: State, op: Op) {
    op.Insert? ==> op.id in st.pending
  }

  function Step(st: State, op: Op): State {
    match op
    case TakeId =>
      var (gap, id) := Take(st.gap, st.ids);
      st.(gap := gap, pending := st.pending + {id})
    case Insert(id) => st.(ids := st.ids + {id}, pending := st.pending - {id})
    case Remove(id) => st.(ids := st.ids - {id})
  }

  function Step16(st: State, op: Op): State {
    match op
    case TakeId =>
      var (gap, id) := Take16(st.gap, st.ids);
      st.(gap := gap, pending := st.pending + {id})
    case _ => Step(st, op)
  }

  /* The plain allocator */

  /** No id in use, or on its way into use, lies in the gap. */
  ghost predicate Safe(st: State) {
    st.gap.begin <= st.gap.end && FreeOf(st.gap, st.ids) && FreeOf(st.gap, st.pending)
  }

  /** Ids have not run out: arithmetic stays below the 32-bit limit. */
  ghost predicate Room(st: State) {
    && (forall id :: id in st.ids ==> id + 1 < UINT_MAX)
    && (st.gap.Used() ==> st.gap.end + 1 < UINT_MAX)
  }

  lemma ScanFree(ids: set<nat>, expected: nat)
    requires forall id :: id in ids ==> id + 1 < UINT_MAX
    requires expected < UINT_MAX
    ensures var g := FindGap(Ascending(ids), 0, expected);
      g.begin < g.end && FreeOf(g, ids)
  {
    AscendingElements(ids);
    FindGapFree(Ascending(ids), 0, expected);
    assert forall i :: 0 <= i < |Ascending(ids)| ==> Ascending(ids)[i] in ids;
    FindGapProper(Ascending(ids), 0, expected);
    forall id | id in ids ensures !FindGap(Ascending(ids), 0, expected).Holds(id) {
      assert id in Ascending(ids);
    }
  }

  lemma {:induction false} FindGapProper(ids: seq<nat>, k: nat, expected: nat)
    requires k <= |ids| && expected < UINT_MAX
    requires forall i :: 0 <= i < |ids| ==> ids[i] + 1 < UINT_MAX
    ensures FindGap(ids, k, expected).begin < FindGap(ids, k, expected).end
    decreases |ids| - k
  {
    if k < |ids| && ids[k] <= expected { FindGapProper(ids, k + 1, ids[k] + 1); }
  }

  /** Below `p` a free number lies between two ids in use. */
  ghost predicate GapBelow(ids: set<nat>, p: nat) {
    exists m, y, x :: m in ids && y !in ids && x in ids && m < y < x < p
  }

  /** A scan that expects `expected` first takes the gap that `p` is in: the first above the
      lowest id, or all below that if it lies higher than expected. */
  ghost predicate Reaches(ids: set<nat>, expected: nat, p: nat) {
    && p !in ids && p < UINT_MAX
    && (if exists m :: m in ids && m <= expected
        then (exists m :: m in ids && m < p) && !GapBelow(ids, p)
        else expected <= p && forall x :: x in ids ==> p < x)
  }

  /** From the end of the run of ids that starts with the lowest. */
  lemma {:induction false} FindGapReaches(s: set<nat>, ids: seq<nat>, k: nat, p: nat)
    requires StrictlyIncreasing(ids) && (forall x :: x in ids <==> x in s) && 0 < k <= |ids|
    requires forall i :: 0 <= i < k ==> ids[i] == ids[0] + i
    requires p !in s && p < UINT_MAX && forall i :: 0 <= i < |ids| ==> ids[i] + 1 < UINT_MAX
    ensures FindGap(ids, k, ids[k - 1] + 1).Holds(p) <==> ids[0] < p && !GapBelow(s, p)
    decreases |ids| - k
  {
    if k == |ids| {
      RunFilled(s, ids, k, p);
    } else if ids[k] > ids[k - 1] + 1 {
      RunFilled(s, ids, k, p);
      if ids[k] < p { assert ids[0] in s && ids[k] in s && ids[k - 1] + 1 !in s by { Unlisted(ids, k); } }
    } else {
      assert ids[k] == ids[k - 1] + 1;
      assert ids[k] in s;
      FindGapReaches(s, ids, k + 1, p);
    }
  }

  lemma Unlisted(ids: seq<nat>, k: nat)
    requires StrictlyIncreasing(ids) && 0 < k < |ids| && ids[k - 1] + 1 < ids[k]
    ensures ids[k - 1] + 1 !in ids
  {
  }

  /** Numbers from the lowest id up to the end of its run are in use. */
  lemma RunFilled(s: set<nat>, ids: seq<nat>, k: nat, p: nat)
    requires StrictlyIncreasing(ids) && (forall x :: x in ids <==> x in s) && 0 < k <= |ids|
    requires forall i :: 0 <= i < k ==> ids[i] == ids[0] + i
    requires p !in s
    ensures ids[0] < p <==> ids[k - 1] < p
    ensures forall y :: ids[0] < y && y !in s ==> ids[k - 1] < y
    ensures p < (if k < |ids| then ids[k] else UINT_MAX) ==> !GapBelow(s, p)
  {
    forall y: nat | ids[0] <= y <= ids[k - 1] ensures y in s {
      assert ids[y - ids[0]] == y;
    }
    forall m, y, x | m in s && y !in s && x in s && m < y < x ensures k < |ids| && ids[k] <= x {
      var a :| 0 <= a < |ids| && ids[a] == m;
      var b :| 0 <= b < |ids| && ids[b] == x;
    }
    if ids[0] < p { assert ids[k - 1] < p; }
  }

  lemma ScanReaches(ids: set<nat>, expected: nat, p: nat)
    requires (forall id :: id in ids ==> id + 1 < UINT_MAX) && expected < UINT_MAX
    ensures FindGap(Ascending(ids), 0, expected).Holds(p) <==> Reaches(ids, expected, p)
  {
    ScanFree(ids, expected);
    var a := Ascending(ids);
    AscendingElements(ids);
    assert forall i :: 0 <= i < |a| ==> a[i] in a;
    ScanBelow(a, 0, expected);
    if p !in ids && p < UINT_MAX && a != [] {
      LowestFirst(ids, a);
      if a[0] <= expected { FindGapReaches(ids, a, 1, p); }
    }
  }

  lemma LowestFirst(s: set<nat>, ids: seq<nat>)
    requires StrictlyIncreasing(ids) && (forall x :: x in ids <==> x in s) && ids != []
    ensures ids[0] in s && forall m :: m in s ==> ids[0] <= m
  {
    assert ids[0] in ids;
    forall m | m in s ensures ids[0] <= m { var i :| 0 <= i < |ids| && ids[i] == m; }
  }

  lemma {:induction false} ScanBelow(ids: seq<nat>, k: nat, expected: nat)
    requires k <= |ids| && forall i :: 0 <= i < |ids| ==> ids[i] < UINT_MAX
    ensures FindGap(ids, k, expected).end <= UINT_MAX
    decreases |ids| - k
  {
    if k < |ids| && ids[k] <= expected { ScanBelow(ids, k + 1, ids[k] + 1); }
  }

  /** A returned id is not in the database.  It is also unlike every id still on its way there, and
      stays out of the way of later ones, exactly when the gap in hand is not used up or no id on
      its way is in reach of the scan for a new one. */
  lemma TakeIsUnused(st: State)
    requires Safe(st) && Room(st)
    ensures var id := Take(st.gap, st.ids).1;
      && id !in st.ids
      && (id !in st.pending && Safe(Step(st, TakeId)) <==>
            !st.gap.Used() || forall p :: p in st.pending ==> !Reaches(st.ids, st.gap.end + 1, p))
  {
    if st.gap.Used() {
      ScanFree(st.ids, st.gap.end + 1);
      forall p ensures NewGap(st.gap, st.ids).Holds(p) <==> Reaches(st.ids, st.gap.end + 1, p) {
        ScanReaches(st.ids, st.gap.end + 1, p);
      }
    }
    var g := NewGap(st.gap, st.ids);
    var st' := Step(st, TakeId);
    if FreeOf(g, st.pending) {
      assert Safe(st');
    } else {
      var p :| p in st.pending && g.Holds(p);
      assert p == g.begin || st'.gap.Holds(p);
    }
  }

  /** A caller who inserts what it was given before a new scan is needed is safe. */
  predicate Prompt(st: State, op: Op) {
    op.TakeId? && st.gap.Used() ==> st.pending == {}
  }

  lemma StepSafe(st: State, op: Op)
    requires Safe(st) && Room(st) && Enabled(st, op) && Prompt(st, op)
    ensures Safe(Step(st, op))
    ensures op.TakeId? ==> Take(st.gap, st.ids).1 !in st.ids + st.pending
  {
    if op.TakeId? { TakeIsUnused(st); }
  }

  /** Ids 0x100 and 0x103 exist.  Two ids are handed out before either is inserted; the third call
      repeats the first, and once the second is inserted the fourth returns an id already in use. */
  lemma LateInsertsClash()
    ensures var st0 := State(Gap(FIRST, FIRST), {0x100, 0x103}, {});
      var st1 := Step(st0, TakeId);
      var st2 := Step(st1, TakeId);
      var st3 := Step(st2, TakeId);
      var st4 := Step(st3, Insert(0x102));
      && Take(st0.gap, st0.ids).1 == 0x101 == Take(st2.gap, st2.ids).1
      && Enabled(st3, Insert(0x102))
      && Take(st4.gap, st4.ids).1 in st4.ids
  {
    var ids := {0x100, 0x103};
    AscendingElements(ids);
    assert StrictlyIncreasing([0x100, 0x103]);
    IncreasingUnique(Ascending(ids), [0x100, 0x103]);
    assert FindGap([0x100, 0x103], 1, 0x101) == Gap(0x101, 0x103);
  }

  /* Taking many ids before inserting any */

  /** The gap in hand after `n` takes with nothing inserted or removed in between. */
  function After(gap: Gap, ids: set<nat>, n: nat): Gap {
    if n == 0 then gap else Take(After(gap, ids, n - 1), ids).0
  }

  /** The id that the take after those gives. */
  function Nth(gap: Gap, ids: set<nat>, n: nat): nat {
    Take(After(gap, ids, n), ids).1
  }

  lemma {:induction false} AfterInHand(gap: Gap, ids: set<nat>, n: nat)
    requires gap.Used() && var g := NewGap(gap, ids); g.begin < g.end && 0 < n && g.begin + n <= g.end
    ensures var g := NewGap(gap, ids); After(gap, ids, n) == Gap(g.begin + n, g.end)
  {
    if n > 1 { AfterInHand(gap, ids, n - 1); }
  }

  lemma {:induction false} FindGapAbove(ids: seq<nat>, k: nat)
    requires StrictlyIncreasing(ids) && 0 < k <= |ids|
    ensures FindGap(ids, k, ids[k - 1] + 1).begin > ids[0]
    decreases |ids| - k
  {
    if k < |ids| && ids[k] <= ids[k - 1] + 1 { FindGapAbove(ids, k + 1); }
  }

  /** A scan that starts no lower than the lowest id finds the same gap wherever it starts. */
  lemma SameScan(a: seq<nat>, expected: nat)
    requires StrictlyIncreasing(a) && a != [] && a[0] <= expected
    ensures FindGap(a, 0, expected) == FindGap(a, 1, a[0] + 1) && FindGap(a, 0, expected).begin > a[0]
  {
    FindGapAbove(a, 1);
  }

  /** Until the gap that the first scan finds is used up every id is a new one; the next take
      scans again, finds the same gap, and repeats the first. */
  lemma TakesLast(gap: Gap, ids: set<nat>, m: nat)
    requires gap.Used() && Room(State(gap, ids, {}))
    requires m in ids && m <= gap.end + 1
    ensures var g := NewGap(gap, ids);
      && g.begin < g.end && 0 < g.begin
      && (forall n: nat :: n < g.end - g.begin ==> Nth(gap, ids, n) == g.begin + n && Nth(gap, ids, n) !in ids)
      && Nth(gap, ids, g.end - g.begin) == g.begin
  {
    var g := NewGap(gap, ids);
    ScanFree(ids, gap.end + 1);
    forall n: nat | n < g.end - g.begin ensures Nth(gap, ids, n) == g.begin + n && Nth(gap, ids, n) !in ids {
      if n > 0 { AfterInHand(gap, ids, n); }
      assert g.Holds(g.begin + n);
    }
    AfterInHand(gap, ids, g.end - g.begin);
    var a := Ascending(ids);
    AscendingElements(ids);
    var i :| 0 <= i < |a| && a[i] == m;
    SameScan(a, gap.end + 1);
    SameScan(a, g.end + 1);
  }

  /* The allocator of multiples of sixteen */

  /** Everything handed out so far lies below the gap. */
  ghost predicate Safe16(st: State) {
    && st.gap.begin % 16 == 0 && st.gap.begin <= st.gap.end
    && (st.gap.end % 16 == 0 || st.gap.end == UINT_MAX)
    && Fids(st.ids) && FreeOf(st.gap, st.ids)
    && (forall id :: id in st.pending ==> id % 16 == 0 && id < st.gap.begin)
  }

  ghost predicate Room16(st: State) {
    st.gap.begin + 48 < UINT_MAX
  }

  lemma Scan16Free(ids: set<nat>, last: nat)
    requires Fids(ids) && last % 16 == 0 && last + 48 < UINT_MAX
    ensures var g := FindGap16(Ascending(ids), 0, last, last + 16);
      && last < g.begin && g.begin % 16 == 0 && (g.end % 16 == 0 || g.end == UINT_MAX) && FreeOf(g, ids)
      && g.begin + 16 <= g.end
  {
    var a := Ascending(ids);
    AscendingElements(ids);
    assert forall i :: 0 <= i < |a| ==> a[i] in ids;
    FindGap16Free(a, 0, last, last + 16);
    forall id | id in ids ensures !FindGap16(a, 0, last, last + 16).Holds(id) { assert id in a; }
  }

  /** The gap that the next id comes from. */
  lemma NewGap16Free(st: State)
    requires Safe16(st) && Room16(st)
    ensures var g := NewGap16(st.gap, st.ids);
      && st.gap.begin <= g.begin && g.begin % 16 == 0 && g.begin + 16 <= g.end
      && (g.end % 16 == 0 || g.end == UINT_MAX) && FreeOf(g, st.ids)
  {
    if st.gap.Used() { Scan16Free(st.ids, st.gap.end); }
  }

  lemma Take16Safe(st: State, g: Gap)
    requires Safe16(st) && st.gap.begin <= g.begin && g.begin % 16 == 0 && g.begin + 16 <= g.end
    requires (g.end % 16 == 0 || g.end == UINT_MAX) && FreeOf(g, st.ids)
    ensures Safe16(st.(gap := Gap(g.begin + 16, g.end), pending := st.pending + {g.begin})) && g.begin !in st.ids
  {
    assert g.Holds(g.begin);
    assert (g.begin + 16) % 16 == 0;
  }

  /** With no condition on the caller: what is returned is a multiple of sixteen, not in the
      database, and greater than anything returned before. */
  lemma Step16Safe(st: State, op: Op)
    requires Safe16(st) && Room16(st) && Enabled(st, op)
    ensures Safe16(Step16(st, op)) && st.gap.begin <= Step16(st, op).gap.begin
    ensures op.TakeId? ==>
      var id := Take16(st.gap, st.ids).1;
      id % 16 == 0 && id !in st.ids && st.gap.begin <= id < Step16(st, op).gap.begin
  {
    if op.TakeId? {
      NewGap16Free(st);
      Take16Safe(st, NewGap16(st.gap, st.ids));
    }
  }

  /** A run, and the ids it is given in turn. */
  function Taken16(st: State, ops: seq<Op>): seq<nat>
    decreases ops
  {
    if ops == [] then []
    else (if ops[0].TakeId? then [Take16(st.gap, st.ids).1] else []) + Taken16(Step16(st, ops[0]), ops[1..])
  }

  ghost predicate Possible16(st: State, ops: seq<Op>)
    decreases ops
  {
    ops == [] || (Enabled(st, ops[0]) && Room16(st) && Possible16(Step16(st, ops[0]), ops[1..]))
  }

  /** Over every run the ids come in strictly increasing order, in steps of sixteen. */
  lemma {:induction false} Run16Increasing(st: State, ops: seq<Op>)
    requires Safe16(st) && Possible16(st, ops)
    ensures StrictlyIncreasing(Taken16(st, ops))
    ensures forall k :: 0 <= k < |Taken16(st, ops)| ==> Taken16(st, ops)[k] >= st.gap.begin && Taken16(st, ops)[k] % 16 == 0
    decreases ops
  {
    if ops != [] {
      Step16Safe(st, ops[0]);
      Run16Increasing(Step16(st, ops[0]), ops[1..]);
    }
  }

  /** Taking nothing but ids, each of them is outside the database. */
  lemma {:induction false} TakenOutside(st: State, ops: seq<Op>)
    requires Safe16(st) && Possible16(st, ops) && forall i :: 0 <= i < |ops| ==> ops[i].TakeId?
    ensures |Taken16(st, ops)| == |ops|
    ensures forall k :: 0 <= k < |ops| ==> Taken16(st, ops)[k] !in st.ids
    decreases ops
  {
    if ops != [] {
      Step16Safe(st, ops[0]);
      TakenOutside(Step16(st, ops[0]), ops[1..]);
    }
  }

  /* The allocators as they run; `ids` are what the integer-collating cursor yields */

  class PlainAllocator {
    var gapBegin: nat
    var gapEnd: nat

    constructor ()
      ensures gapBegin == gapEnd == FIRST
    {
      gapBegin, gapEnd := FIRST, FIRST;
    }

    method Allocate(ids: set<nat>) returns (id: nat)
      modifies this
      ensures (Gap(gapBegin, gapEnd), id) == Take(Gap(old(gapBegin), old(gapEnd)), ids)
    {
      if gapBegin == gapEnd {
        var cursor, k := Ascending(ids), 0;
        var expected: nat := gapEnd + 1;
        while k < |cursor|
          invariant k <= |cursor| && gapBegin == old(gapBegin) && gapEnd == old(gapEnd)
          invariant FindGap(cursor, k, expected) == FindGap(cursor, 0, old(gapEnd) + 1)
        {
          var found := cursor[k];
          if found > expected {
            gapBegin, gapEnd := expected, found;
            break;
          }
          expected := found + 1;
          k := k + 1;
        }
        if k == |cursor| {
          gapBegin, gapEnd := expected, UINT_MAX;
        }
      }
      id := gapBegin;
      gapBegin := gapBegin + 1;
    }
  }

  class EmpegAllocator {
    var gapBegin: nat
    var gapEnd: nat

    constructor ()
      ensures gapBegin == gapEnd == FIRST
    {
      gapBegin, gapEnd := FIRST, FIRST;
    }

    method Allocate(ids: set<nat>) returns (id: nat)
      modifies this
      ensures (Gap(gapBegin, gapEnd), id) == Take16(Gap(old(gapBegin), old(gapEnd)), ids)
    {
      if gapBegin == gapEnd {
        var cursor, k := Ascending(ids), 0;
        var expected: nat := gapEnd + 16;
        while k < |cursor|
          invariant k <= |cursor| && gapBegin == old(gapBegin) && gapEnd == old(gapEnd)
          invariant FindGap16(cursor, k, gapEnd, expected) == FindGap16(cursor, 0, old(gapEnd), old(gapEnd) + 16)
        {
          var found := cursor[k];
          if found > expected {
            gapBegin, gapEnd := expected, found;
            break;
          }
          if found > gapEnd {
            expected := found + 16;
          }
          k := k + 1;
        }
        if k == |cursor| {
          gapBegin, gapEnd := expected, UINT_MAX;
        }
      }
      id := gapBegin;
      gapBegin := gapBegin + 16;
    }
  }
}
