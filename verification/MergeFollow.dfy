/** Where the ids that a client reads through the merged database lead. */
module MergeFollow {
  import opened Common
  import opened Children
  import opened MergeModel

  /* Integers of a wrapped record */

  /** An id read through a record of database `m`, be it the record's own, the one it is filed under or
      its parent's, is one that a query sends back there to the same local id, exactly if it is local
      and neither zero nor a root's.  Writing it back stores the local one. */
  lemma IdLeadsBack(slots: seq<Slot>, m: nat, which: nat, c: nat)
    requires |slots| <= MAX_DATABASES && IsPresent(slots, 0) && 0 < m && IsPresent(slots, m)
    requires which == ID || which == IDHIGH || which == IDPARENT
    ensures var seen := WrapInt(m, which, c);
      && (RouteOf(slots, ById(seen)) == To(m, [Restriction(ID, EQ, c)], Wrapped) <==> 0 < c < TAG && c != BROWSE_ROOT)
      && (0 < c < TAG && c != BROWSE_ROOT ==> seen == m * TAG + c && UnwrapInt(which, seen) == c)
      && (c == 0 || c == BROWSE_ROOT ==> seen == c)
  {
    TaggedParts(m, c);
  }

  /** So the parent of a wrapped record is found where the record is, if it is there at all, and says
      that its id is the one the record gave. */
  lemma IdIsFound(slots: seq<Slot>, m: nat, which: nat, c: nat)
    requires |slots| <= MAX_DATABASES && IsPresent(slots, 0) && 0 < m && IsPresent(slots, m)
    requires (which == ID || which == IDHIGH || which == IDPARENT) && 0 < c < TAG && c != BROWSE_ROOT
    ensures var seen := WrapInt(m, which, c);
      if HasId(slots[m], c) then Reported(slots, seen) == Some(seen) else Reported(slots, seen) == None
  {
    TaggedApart(m, c, m, c);
    QueryReports(slots, Tagged(m, c));
  }

  /** Every other integer, and every text but the children, is read and written as it is. */
  lemma OthersPass(m: nat, which: nat, value: nat, text: seq<Byte>)
    ensures which != ID && which != IDHIGH && which != IDPARENT ==>
      WrapInt(m, which, value) == value && UnwrapInt(which, value) == value
    ensures which != CHILDREN ==>
      WrapString(m, which, text) == text && UnwrapString(which, text) == text && RootStored(which, text) == text
  {
  }

  /* Queries */

  ghost predicate IsFirst(records: seq<Record>, i: nat, want: Record -> bool) {
    && i <= |records| && (i < |records| ==> want(records[i]))
    && forall k :: 0 <= k < i ==> !want(records[k])
  }

  /** What a database answers to one restriction is its first record whose value compares so. */
  lemma FirstCompares(records: seq<Record>, f: nat, n: nat)
    ensures IsFirst(records, First(records, [Restriction(f, EQ, n)], 0), (r: Record) => r.Int(f) == n)
    ensures IsFirst(records, First(records, [Restriction(f, NE, n)], 0), (r: Record) => r.Int(f) != n)
    ensures IsFirst(records, First(records, [Restriction(f, GT, n)], 0), (r: Record) => r.Int(f) > n)
    ensures IsFirst(records, First(records, [Restriction(f, LT, n)], 0), (r: Record) => r.Int(f) < n)
  {
    FirstOfOne(records, Restriction(f, EQ, n));
    FirstOfOne(records, Restriction(f, NE, n));
    FirstOfOne(records, Restriction(f, GT, n));
    FirstOfOne(records, Restriction(f, LT, n));
  }

  lemma FirstOfOne(records: seq<Record>, q: Restriction)
    ensures IsFirst(records, First(records, [q], 0), r => Meets(r, q))
  {
    assert forall r :: MeetsAll(r, [q]) <==> Meets(r, [q][0]);
  }

  /** Any query but for one id goes to the first database as it is, and with none there to no records. */
  lemma OtherQueries(slots: seq<Slot>, q: seq<Restriction>)
    ensures !IsPresent(slots, 0) ==> RouteOf(slots, q) == NoRecords
    ensures IsPresent(slots, 0) && (forall id :: q != [Restriction(ID, EQ, id)]) ==> RouteOf(slots, q) == To(0, q, Plain)
    ensures IsPresent(slots, 0) ==> RouteOf(slots, [Restriction(ID, EQ, BROWSE_ROOT)]) == To(0, ById(BROWSE_ROOT), Root)
    ensures forall id: nat :: id / TAG == 0 && id != BROWSE_ROOT && IsPresent(slots, 0) ==>
      RouteOf(slots, [Restriction(ID, EQ, id)]) == To(0, [Restriction(ID, EQ, id)], Plain)
    ensures forall id: nat :: IsPresent(slots, 0) && !IsPresent(slots, id / TAG) ==>
      RouteOf(slots, [Restriction(ID, EQ, id)]) == Refused
  {
    if IsPresent(slots, 0) && RouteOf(slots, q) != To(0, q, Plain) {
      assert q == [Restriction(ID, EQ, q[0].ival)];
    }
  }
}
