/** The edit script between two sequences, with additions and deletions only.

    Positions in a script are 1-based, as the callers expect them: a deletion
    names a position of the first sequence, an addition a position of the second.
 */
module EditScript {

  datatype Script = Script(cost: nat, deletions: set<nat>, additions: set<nat>)

  /** The subsequence of the first `n` items whose 1-based positions are not in `removed`. */
  ghost function Kept<T>(s: seq<T>, removed: set<nat>, n: nat): seq<T>
    requires n <= |s|
  {
    if n == 0 then []
    else if n in removed then Kept(s, removed, n - 1)
    else Kept(s, removed, n - 1) + [s[n - 1]]
  }

  /** Likewise for the items from index `i` on. */
  ghost function KeptFrom<T>(s: seq<T>, removed: set<nat>, i: nat): seq<T>
    requires i <= |s|
    decreases |s| - i
  {
    if i == |s| then []
    else if i + 1 in removed then KeptFrom(s, removed, i + 1)
    else [s[i]] + KeptFrom(s, removed, i + 1)
  }

  /** The positions 1 to n. */
  function UpTo(n: nat): set<nat> {
    if n == 0 then {} else UpTo(n - 1) + {n}
  }

  ghost predicate Within(positions: set<nat>, n: nat) {
    forall k :: k in positions ==> 1 <= k <= n
  }

  /** One cell of the dynamic-programming table, with the tie-breaking of the loop below. */
  function Cell<T(==)>(s1: seq<T>, s2: seq<T>, i: nat, j: nat): Script
    requires i <= |s1| && j <= |s2|
    decreases i + j
  {
    if i == 0 then Script(j, {}, UpTo(j))
    else if j == 0 then
      var del := Cell(s1, s2, i - 1, 0);
      Script(del.cost + 1, del.deletions + {i}, del.additions)
    else
      Best(s1[i - 1] == s2[j - 1], Cell(s1, s2, i - 1, j - 1), Cell(s1, s2, i, j - 1), Cell(s1, s2, i - 1, j), i, j)
  }

  function Best(equal: bool, same: Script, add: Script, del: Script, i: nat, j: nat): Script {
    if equal && same.cost <= add.cost + 1 && same.cost <= del.cost + 1 then same
    else if add.cost <= del.cost then Script(add.cost + 1, add.deletions, add.additions + {j})
    else Script(del.cost + 1, del.deletions + {i}, del.additions)
  }

  /** What a caller may rely on: the script fits the sequences and leaves equal remainders. */
  ghost predicate Fits<T>(s1: seq<T>, s2: seq<T>, r: Script) {
    && Within(r.deletions, |s1|)
    && Within(r.additions, |s2|)
    && Kept(s1, r.deletions, |s1|) == Kept(s2, r.additions, |s2|)
  }

  lemma {:induction false} KeptAgree<T>(s: seq<T>, a: set<nat>, b: set<nat>, n: nat)
    requires n <= |s|
    requires forall k: nat :: 1 <= k <= n ==> (k in a <==> k in b)
    ensures Kept(s, a, n) == Kept(s, b, n)
  {
    if n > 0 { KeptAgree(s, a, b, n - 1); }
  }

  lemma {:induction false} UpToWithin(n: nat)
    ensures Within(UpTo(n), n)
  {
    if n > 0 { UpToWithin(n - 1); }
  }

  lemma {:induction false} KeptNothing<T>(s: seq<T>, removed: set<nat>, n: nat)
    requires n <= |s| && UpTo(n) <= removed
    ensures Kept(s, removed, n) == []
  {
    if n > 0 { KeptNothing(s, removed, n - 1); }
  }

  /** A script for the first `i` and `j` items, costing what it leaves out. */
  ghost predicate PrefixFits<T>(s1: seq<T>, s2: seq<T>, i: nat, j: nat, r: Script)
    requires i <= |s1| && j <= |s2|
  {
    && Within(r.deletions, i)
    && Within(r.additions, j)
    && Kept(s1, r.deletions, i) == Kept(s2, r.additions, j)
    && r.cost == i + j - 2 * |Kept(s1, r.deletions, i)|
  }

  lemma DeleteFits<T>(s1: seq<T>, s2: seq<T>, i: nat, j: nat, del: Script)
    requires 0 < i <= |s1| && j <= |s2| && PrefixFits(s1, s2, i - 1, j, del)
    ensures PrefixFits(s1, s2, i, j, Script(del.cost + 1, del.deletions + {i}, del.additions))
  {
    KeptAgree(s1, del.deletions + {i}, del.deletions, i - 1);
  }

  lemma AddFits<T>(s1: seq<T>, s2: seq<T>, i: nat, j: nat, add: Script)
    requires i <= |s1| && 0 < j <= |s2| && PrefixFits(s1, s2, i, j - 1, add)
    ensures PrefixFits(s1, s2, i, j, Script(add.cost + 1, add.deletions, add.additions + {j}))
  {
    KeptAgree(s2, add.additions + {j}, add.additions, j - 1);
  }

  lemma BestFits<T>(s1: seq<T>, s2: seq<T>, i: nat, j: nat, same: Script, add: Script, del: Script)
    requires 0 < i <= |s1| && 0 < j <= |s2|
    requires PrefixFits(s1, s2, i - 1, j - 1, same)
    requires PrefixFits(s1, s2, i, j - 1, add)
    requires PrefixFits(s1, s2, i - 1, j, del)
    ensures PrefixFits(s1, s2, i, j, Best(s1[i - 1] == s2[j - 1], same, add, del, i, j))
  {
    AddFits(s1, s2, i, j, add);
    DeleteFits(s1, s2, i, j, del);
  }

  /** Every cell is a script for its two prefixes, and its cost is what it leaves out. */
  lemma {:induction false} CellFits<T>(s1: seq<T>, s2: seq<T>, i: nat, j: nat)
    requires i <= |s1| && j <= |s2|
    ensures PrefixFits(s1, s2, i, j, Cell(s1, s2, i, j))
    decreases i + j
  {
    if i == 0 {
      UpToWithin(j);
      KeptNothing(s2, UpTo(j), j);
    } else if j == 0 {
      CellFits(s1, s2, i - 1, 0);
      DeleteFits(s1, s2, i, 0, Cell(s1, s2, i - 1, 0));
    } else {
      CellFits(s1, s2, i - 1, j - 1);
      CellFits(s1, s2, i, j - 1);
      CellFits(s1, s2, i - 1, j);
      BestFits(s1, s2, i, j, Cell(s1, s2, i - 1, j - 1), Cell(s1, s2, i, j - 1), Cell(s1, s2, i - 1, j));
    }
  }

  /** No script for the two prefixes is cheaper. */
  lemma {:induction false} CellIsLeast<T>(s1: seq<T>, s2: seq<T>, i: nat, j: nat, deletions: set<nat>, additions: set<nat>)
    requires i <= |s1| && j <= |s2|
    requires Kept(s1, deletions, i) == Kept(s2, additions, j)
    ensures Cell(s1, s2, i, j).cost <= i + j - 2 * |Kept(s1, deletions, i)|
    decreases i + j
  {
    if i == 0 {
    } else if j == 0 {
      CellIsLeast(s1, s2, i - 1, 0, deletions, additions);
    } else if i in deletions {
      CellIsLeast(s1, s2, i - 1, j, deletions, additions);
    } else if j in additions {
      CellIsLeast(s1, s2, i, j - 1, deletions, additions);
    } else {
      var k1, k2 := Kept(s1, deletions, i - 1), Kept(s2, additions, j - 1);
      assert k1 == (k1 + [s1[i - 1]])[..|k1|] && k2 == (k2 + [s2[j - 1]])[..|k2|];
      assert (k1 + [s1[i - 1]])[|k1|] == (k2 + [s2[j - 1]])[|k2|];
      CellIsLeast(s1, s2, i - 1, j - 1, deletions, additions);
    }
  }

  lemma {:induction false} KeptSplits<T>(s: seq<T>, removed: set<nat>, i: nat)
    requires i <= |s|
    ensures Kept(s, removed, |s|) == Kept(s, removed, i) + KeptFrom(s, removed, i)
    decreases |s| - i
  {
    if i < |s| { KeptSplits(s, removed, i + 1); }
  }

  /** The form in which a merge walk over both sequences uses a script. */
  lemma FitsFromStart<T>(s1: seq<T>, s2: seq<T>, r: Script)
    requires Fits(s1, s2, r)
    ensures KeptFrom(s1, r.deletions, 0) == KeptFrom(s2, r.additions, 0)
  {
    KeptSplits(s1, r.deletions, 0);
    KeptSplits(s2, r.additions, 0);
    assert forall s: seq<T> :: [] + s == s;
  }

  lemma DiffFits<T>(s1: seq<T>, s2: seq<T>)
    ensures Fits(s1, s2, Cell(s1, s2, |s1|, |s2|))
  {
    CellFits(s1, s2, |s1|, |s2|);
  }

  lemma {:induction false} CellCost<T>(s1: seq<T>, s2: seq<T>, i: nat, j: nat)
    requires i <= |s1| && j <= |s2|
    ensures Cell(s1, s2, i, j).cost <= i + j
    decreases i + j
  {
    if i > 0 {
      CellCost(s1, s2, i - 1, j);
      if j > 0 { CellCost(s1, s2, i, j - 1); }
    }
  }

  lemma DiffIsLeast<T>(s1: seq<T>, s2: seq<T>)
    ensures forall d, a :: Kept(s1, d, |s1|) == Kept(s2, a, |s2|) ==>
      Cell(s1, s2, |s1|, |s2|).cost <= |s1| + |s2| - 2 * |Kept(s1, d, |s1|)|
  {
    forall d, a | Kept(s1, d, |s1|) == Kept(s2, a, |s2|)
      ensures Cell(s1, s2, |s1|, |s2|).cost <= |s1| + |s2| - 2 * |Kept(s1, d, |s1|)|
    {
      CellIsLeast(s1, s2, |s1|, |s2|, d, a);
    }
  }

  /** Nothing is edited in a sequence that has not changed. */
  lemma {:induction false} DiffOfEqual<T>(s: seq<T>, n: nat)
    requires n <= |s|
    ensures Cell(s, s, n, n) == Script(0, {}, {})
  {
    if n > 0 { DiffOfEqual(s, n - 1); }
  }

  /** What a cell costs next to its neighbours. */
  lemma CostStep<T>(s1: seq<T>, s2: seq<T>, i: nat, j: nat)
    requires i <= |s1| && j <= |s2|
    ensures i > 0 ==> Cell(s1, s2, i, j).cost <= Cell(s1, s2, i - 1, j).cost + 1
    ensures j > 0 ==> Cell(s1, s2, i, j).cost <= Cell(s1, s2, i, j - 1).cost + 1
    ensures i > 0 && j > 0 ==>
      var c := Cell(s1, s2, i, j).cost;
      || c == Cell(s1, s2, i - 1, j - 1).cost || c == Cell(s1, s2, i, j - 1).cost + 1 || c == Cell(s1, s2, i - 1, j).cost + 1
    ensures i == 0 || j == 0 ==> Cell(s1, s2, i, j).cost == i + j
    decreases i
  {
    if i > 0 && j == 0 { CostStep(s1, s2, i - 1, 0); }
  }

  /** One item less changes the cost by one at most. */
  lemma {:induction false} Adjacent<T>(s1: seq<T>, s2: seq<T>, i: nat, j: nat)
    requires i <= |s1| && j <= |s2|
    ensures i > 0 ==> Cell(s1, s2, i - 1, j).cost <= Cell(s1, s2, i, j).cost + 1
    ensures j > 0 ==> Cell(s1, s2, i, j - 1).cost <= Cell(s1, s2, i, j).cost + 1
    decreases i + j
  {
    CostStep(s1, s2, i, j);
    if i > 0 { CostStep(s1, s2, i - 1, j); }
    if j > 0 { CostStep(s1, s2, i, j - 1); }
    if i > 0 && j > 0 {
      Adjacent(s1, s2, i, j - 1);
      Adjacent(s1, s2, i - 1, j);
    }
  }

  /** Removing these leaves the same of both prefixes, at that cost. */
  ghost predicate Costs<T>(s1: seq<T>, s2: seq<T>, i: nat, j: nat, d: set<nat>, a: set<nat>, cost: int)
    requires i <= |s1| && j <= |s2|
  {
    Kept(s1, d, i) == Kept(s2, a, j) && cost == i + j - 2 * |Kept(s1, d, i)|
  }

  lemma AddsIfAny<T>(s1: seq<T>, s2: seq<T>, i: nat, j: nat, d: set<nat>, a: set<nat>)
    requires 0 < i <= |s1| && 0 < j <= |s2| && j in a && Costs(s1, s2, i, j, d, a, Cell(s1, s2, i, j).cost)
    ensures Cell(s1, s2, i, j - 1).cost < Cell(s1, s2, i, j).cost
  {
    CellIsLeast(s1, s2, i, j - 1, d, a);
  }

  lemma LastEqual<T>(s1: seq<T>, s2: seq<T>, i: nat, j: nat)
    requires 0 < i <= |s1| && 0 < j <= |s2| && s1[i - 1] == s2[j - 1]
    ensures Cell(s1, s2, i, j) == Cell(s1, s2, i - 1, j - 1)
  {
    Adjacent(s1, s2, i, j - 1);
    Adjacent(s1, s2, i - 1, j);
  }

  lemma LastUnequal<T>(s1: seq<T>, s2: seq<T>, i: nat, j: nat)
    requires 0 < i <= |s1| && 0 < j <= |s2| && s1[i - 1] != s2[j - 1]
    ensures var r := Cell(s1, s2, i, j);
      && (Cell(s1, s2, i, j - 1).cost < r.cost ==> j in r.additions)
      && (j in r.additions || i in r.deletions)
  {
  }

  /** Which of the least scripts it is: one that keeps the last items if they are equal, and otherwise adds
      the last of the second if any of them does, and deletes the last of the first if none does. */
  lemma TiesBroken<T>(s1: seq<T>, s2: seq<T>, i: nat, j: nat)
    requires 0 < i <= |s1| && 0 < j <= |s2|
    ensures var r := Cell(s1, s2, i, j);
      if s1[i - 1] == s2[j - 1] then i !in r.deletions && j !in r.additions
      else
        && (j in r.additions <==> exists d, a :: j in a && Costs(s1, s2, i, j, d, a, r.cost))
        && (j !in r.additions ==> i in r.deletions)
  {
    var r := Cell(s1, s2, i, j);
    if s1[i - 1] == s2[j - 1] {
      LastEqual(s1, s2, i, j);
      CellFits(s1, s2, i - 1, j - 1);
    } else {
      CellFits(s1, s2, i, j);
      LastUnequal(s1, s2, i, j);
      assert j in r.additions ==> Costs(s1, s2, i, j, r.deletions, r.additions, r.cost);
      if d, a :| j in a && Costs(s1, s2, i, j, d, a, r.cost) { AddsIfAny(s1, s2, i, j, d, a); }
    }
  }

  lemma RowCost<T>(s1: seq<T>, s2: seq<T>, i: nat, j: nat, add: Script)
    requires i <= |s1| && 0 < j <= |s2| && add == Cell(s1, s2, i, j - 1)
    ensures add.cost < i + j
  {
    CellCost(s1, s2, i, j - 1);
  }

  lemma CellStep<T>(s1: seq<T>, s2: seq<T>, i: nat, j: nat, same: Script, add: Script, del: Script)
    requires 0 < i <= |s1| && 0 < j <= |s2|
    requires same == Cell(s1, s2, i - 1, j - 1) && add == Cell(s1, s2, i, j - 1) && del == Cell(s1, s2, i - 1, j)
    ensures Cell(s1, s2, i, j) == Best(s1[i - 1] == s2[j - 1], same, add, del, i, j)
  {
  }

  /** `row` starts with the first `n` cells of row `i`. */
  ghost predicate RowFilled<T>(s1: seq<T>, s2: seq<T>, i: nat, row: seq<Script>, n: nat)
    requires i <= |s1| && |row| == |s2| + 1
  {
    n <= |row| && forall k :: 0 <= k < n ==> row[k] == Cell(s1, s2, i, k)
  }

  lemma RowGrows<T>(s1: seq<T>, s2: seq<T>, i: nat, above: seq<Script>, row: seq<Script>, j: nat)
    requires 0 < i <= |s1| && 0 < j <= |s2| && |above| == |row| == |s2| + 1
    requires RowFilled(s1, s2, i - 1, above, |s2| + 1) && RowFilled(s1, s2, i, row, j)
    ensures row[j - 1].cost < i + j
    ensures var r := Best(s1[i - 1] == s2[j - 1], above[j - 1], row[j - 1], above[j], i, j);
      RowFilled(s1, s2, i, row[j := r], j + 1)
  {
    RowCost(s1, s2, i, j, row[j - 1]);
    CellStep(s1, s2, i, j, above[j - 1], row[j - 1], above[j]);
  }

  /** One row of the table from the row above it. */
  method FillRow<T(==)>(s1: seq<T>, s2: seq<T>, i: nat, p: array<Script>, q: array<Script>)
    requires 0 < i <= |s1| && p != q && p.Length == q.Length == |s2| + 1
    requires RowFilled(s1, s2, i - 1, p[..], |s2| + 1)
    modifies q
    ensures RowFilled(s1, s2, i, q[..], |s2| + 1)
  {
    q[0] := Script(p[0].cost + 1, p[0].deletions + {i}, p[0].additions);
    var j := 1;
    while j <= |s2|
      invariant 1 <= j <= |s2| + 1
      invariant RowFilled(s1, s2, i, q[..], j)
    {
      ghost var row := q[..];
      RowGrows(s1, s2, i, p[..], row, j);
      var r := Choose(s1[i - 1] == s2[j - 1], p[j - 1], q[j - 1], p[j], i, j);
      q[j] := r;
      assert q[..] == row[j := r];
      j := j + 1;
    }
  }

  /** The cheapest of the three ways to reach a cell; ties prefer an addition to a deletion. */
  method Choose(equal: bool, same: Script, add: Script, del: Script, i: nat, j: nat) returns (r: Script)
    requires add.cost < i + j
    ensures r == Best(equal, same, add, del, i, j)
  {
    var cost := i + j + 1; // more than any script needs
    r := same;
    if equal {
      cost := same.cost;
    }
    if add.cost + 1 < cost {
      cost := add.cost + 1;
      r := Script(cost, add.deletions, add.additions + {j});
    }
    if del.cost + 1 < cost {
      cost := del.cost + 1;
      r := Script(cost, del.deletions + {i}, del.additions);
    }
  }

  /** Two rows of the table are kept and swapped. */
  method Diff<T(==)>(s1: seq<T>, s2: seq<T>) returns (r: Script)
    ensures r == Cell(s1, s2, |s1|, |s2|)
    ensures Fits(s1, s2, r)
    ensures forall d, a :: Kept(s1, d, |s1|) == Kept(s2, a, |s2|) ==> r.cost <= |s1| + |s2| - 2 * |Kept(s1, d, |s1|)|
  {
    var p := new Script[|s2| + 1](_ => Script(0, {}, {}));
    var q := new Script[|s2| + 1](_ => Script(0, {}, {}));
    var j := 1;
    while j <= |s2|
      invariant 1 <= j <= |s2| + 1
      invariant forall k :: 0 <= k < j ==> p[k] == Cell(s1, s2, 0, k)
    {
      p[j] := Script(p[j - 1].cost + 1, {}, p[j - 1].additions + {j});
      j := j + 1;
    }
    var i := 1;
    while i <= |s1|
      invariant 1 <= i <= |s1| + 1
      invariant p != q && p.Length == q.Length == |s2| + 1 && fresh(p) && fresh(q)
      invariant RowFilled(s1, s2, i - 1, p[..], |s2| + 1)
    {
      FillRow(s1, s2, i, p, q);
      p, q := q, p;
      i := i + 1;
    }
    r := p[|s2|];
    DiffFits(s1, s2);
    DiffIsLeast(s1, s2);
  }
}
