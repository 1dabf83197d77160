/** Programme start times: a Modified Julian Date and six decimal digits (annex C of ETSI EN 300 468). */
module Epg {
  import opened Common

  datatype Date = Date(year: int, month: nat, day: nat)

  /* The Gregorian calendar */

  predicate Leap(y: int) {
    y % 4 == 0 && (y % 100 != 0 || y % 400 == 0)
  }

  function DaysIn(y: int, m: nat): nat {
    if m == 2 then (if Leap(y) then 29 else 28)
    else if m == 4 || m == 6 || m == 9 || m == 11 then 30
    else 31
  }

  predicate Valid(d: Date) {
    1 <= d.month <= 12 && 1 <= d.day <= DaysIn(d.year, d.month)
  }

  function NextDay(d: Date): Date {
    if d.day < DaysIn(d.year, d.month) then d.(day := d.day + 1)
    else if d.month < 12 then Date(d.year, d.month + 1, 1)
    else Date(d.year + 1, 1, 1)
  }

  function DaysOn(d: Date, n: nat): Date {
    if n == 0 then d else NextDay(DaysOn(d, n - 1))
  }

  const EPOCH := Date(1970, 1, 1)

  /* The conversion */

  /** `mjd` counts days; the divisions are of numbers that are never negative. */
  function MjdToGreg(mjd: nat): Date {
    FromDays(mjd + 2400001 + 32044)
  }

  function FromDays(j: nat): Date {
    var (y, da) := YearAndDay(j);
    Civil(y, da)
  }

  function YearAndDay(j: nat): (int, int) {
    var g, dg := j / 146097, j % 146097;
    var c := (dg / 36524 + 1) * 3 / 4;
    var dc := dg - c * 36524;
    var b, db := dc / 1461, dc % 1461;
    var a := (db / 365 + 1) * 3 / 4;
    var da := db - a * 365;
    (g * 400 + c * 100 + b * 4 + a, da)
  }

  /** The date that is `da` days after the first of March of year `y`, counted from the year -4800. */
  function Civil(y: int, da: int): Date {
    var m := (da * 5 + 308) / 153 - 2;
    var d := da - (m + 4) * 153 / 5 + 122;
    Date(y - 4800 + (m + 2) / 12, ToNat((m + 2) % 12 + 1), ToNat(d + 1))
  }

  function ToNat(n: int): nat {
    if n < 0 then 0 else n
  }

  /* Years that start in March */

  /** The length of the year, which ends with the next February. */
  function MarchLength(y: int): nat {
    if Leap(y + 1) then 366 else 365
  }

  /** Where month `m` starts, March being month 0. */
  function MonthStart(m: nat): int {
    (m + 4) * 153 / 5 - 122
  }

  lemma InMonth(da: nat, m: nat)
    requires m < 12 && MonthStart(m) <= da < MonthStart(m + 1)
    ensures (da * 5 + 308) / 153 - 2 == m
  {
  }

  lemma MonthOf(da: nat) returns (m: nat)
    requires da <= 365
    ensures m < 12 && MonthStart(m) <= da < MonthStart(m + 1)
  {
    m := 0;
    while m < 11 && MonthStart(m + 1) <= da
      invariant m < 12 && MonthStart(m) <= da
    {
      m := m + 1;
    }
  }

  /** Months but February have the lengths the calendar gives them. */
  lemma MonthLength(y: int, m: nat)
    requires m < 11
    ensures MonthStart(m + 1) - MonthStart(m) == DaysIn(y, (m + 2) % 12 + 1)
  {
  }

  function DateIn(y: int, m: nat, day: nat): Date {
    Date(y - 4800 + (m + 2) / 12, (m + 2) % 12 + 1, day)
  }

  lemma CivilIn(y: int, da: nat, m: nat)
    requires m < 12 && MonthStart(m) <= da < MonthStart(m + 1)
    ensures Civil(y, da) == DateIn(y, m, da - MonthStart(m) + 1)
  {
    InMonth(da, m);
  }

  lemma Cycle4(g: int, y: int)
    ensures (400 * g + y) % 4 == y % 4
  {
    assert 400 * g + y == 4 * (100 * g + y / 4) + y % 4;
  }

  lemma Cycle100(g: int, y: int)
    ensures (400 * g + y) % 100 == y % 100
  {
    assert 400 * g + y == 100 * (4 * g + y / 100) + y % 100;
  }

  lemma Cycle400(g: int, y: int)
    ensures (400 * g + y) % 400 == y % 400
  {
    assert 400 * g + y == 400 * (g + y / 400) + y % 400;
  }

  lemma Cycles(g: int, y: int)
    ensures Leap(400 * g + y) <==> Leap(y)
  {
    Cycle4(g, y);
    Cycle100(g, y);
    Cycle400(g, y);
  }

  lemma LeapPeriod(y: int)
    ensures Leap(y) <==> Leap(y - 4800)
  {
    Cycles(-12, y);
  }

  /** March to January. */
  lemma NextInMonth(y: int, da: nat, m: nat)
    requires m < 11 && MonthStart(m) <= da < MonthStart(m + 1)
    ensures Valid(Civil(y, da)) && NextDay(Civil(y, da)) == Civil(y, da + 1)
  {
    CivilIn(y, da, m);
    NextInside(y, m, da - MonthStart(m) + 1);
    MonthEnds(m);
    if da + 1 < MonthStart(m + 1) {
      CivilIn(y, da + 1, m);
    } else {
      CivilIn(y, da + 1, m + 1);
    }
  }

  lemma NextInside(y: int, m: nat, day: nat)
    requires m < 11 && 1 <= day <= MonthStart(m + 1) - MonthStart(m)
    ensures Valid(DateIn(y, m, day))
    ensures NextDay(DateIn(y, m, day))
            == if day < MonthStart(m + 1) - MonthStart(m) then DateIn(y, m, day + 1) else DateIn(y, m + 1, 1)
  {
    MonthLength(y - 4800 + (m + 2) / 12, m);
    MonthEnds(m);
  }

  lemma MonthEnds(m: nat)
    requires m < 11
    ensures MonthStart(m + 1) < MonthStart(m + 2)
    ensures 1 <= (m + 2) % 12 + 1 <= 12
    ensures (m + 3) / 12 == (m + 2) / 12 + (if m == 9 then 1 else 0)
    ensures (m + 3) % 12 + 1 == if m == 9 then 1 else (m + 2) % 12 + 2
  {
  }

  /** February. */
  lemma NextInFebruary(y: int, da: nat)
    requires MonthStart(11) <= da < MarchLength(y)
    ensures Valid(Civil(y, da))
    ensures NextDay(Civil(y, da)) == if da + 1 < MarchLength(y) then Civil(y, da + 1) else Civil(y + 1, 0)
  {
    CivilIn(y, da, 11);
    LeapPeriod(y + 1);
    CivilIn(y + 1, 0, 0);
    if da + 1 < MarchLength(y) {
      CivilIn(y, da + 1, 11);
    }
  }

  /** Every day of such a year is a date, and the day after it is the next. */
  lemma CivilNext(y: int, da: nat)
    requires da < MarchLength(y)
    ensures Valid(Civil(y, da))
    ensures NextDay(Civil(y, da)) == if da + 1 < MarchLength(y) then Civil(y, da + 1) else Civil(y + 1, 0)
  {
    var m := MonthOf(da);
    if m < 11 { NextInMonth(y, da, m); } else { NextInFebruary(y, da); }
  }

  /* Days from centuries, leap years and years */

  /** A place in the 400-year cycle `g`: the century, the fours, the year, and the day from March. */
  datatype Place = Place(g: int, c: nat, b: nat, a: nat, da: nat)

  predicate IsPlace(p: Place) {
    p.c <= 3 && p.b <= 24 && p.a <= 3 && p.da < PlaceLength(p)
  }

  function PlaceLength(p: Place): nat {
    if p.a == 3 && (p.b < 24 || p.c == 3) then 366 else 365
  }

  function PlaceDays(p: Place): int {
    146097 * p.g + 36524 * p.c + 1461 * p.b + 365 * p.a + p.da
  }

  function PlaceYear(p: Place): int {
    p.g * 400 + p.c * 100 + p.b * 4 + p.a
  }

  function DateOf(p: Place): Date {
    Civil(PlaceYear(p), p.da)
  }

  /** The days to the place determine it, and the conversion takes them apart in that way. */
  lemma PlaceParts(p: Place, j: nat)
    requires IsPlace(p) && PlaceDays(p) == j
    ensures YearAndDay(j) == (PlaceYear(p), p.da)
  {
    var g, dg := j / 146097, j % 146097;
    InCycle(p);
    assert g == p.g && dg == 36524 * p.c + 1461 * p.b + 365 * p.a + p.da;
    var c := (dg / 36524 + 1) * 3 / 4;
    assert c == p.c;
    var dc := dg - c * 36524;
    var b, db := dc / 1461, dc % 1461;
    assert b == p.b && db == 365 * p.a + p.da;
    var a := (db / 365 + 1) * 3 / 4;
    assert a == p.a;
  }

  lemma PlaceDate(p: Place, j: nat)
    requires IsPlace(p) && PlaceDays(p) == j
    ensures FromDays(j) == DateOf(p)
  {
    PlaceParts(p, j);
  }

  lemma InCycle(p: Place)
    requires IsPlace(p)
    ensures 0 <= 365 * p.a + p.da <= 1460 && 0 <= 1461 * p.b + 365 * p.a + p.da <= 36524
    ensures 0 <= 36524 * p.c + 1461 * p.b + 365 * p.a + p.da < 146097
  {
  }

  /** The place of the next day. */
  function NextPlace(p: Place): Place {
    if p.da + 1 < PlaceLength(p) then p.(da := p.da + 1)
    else if p.a < 3 then p.(a := p.a + 1, da := 0)
    else if p.b < 24 then p.(b := p.b + 1, a := 0, da := 0)
    else if p.c < 3 then p.(c := p.c + 1, b := 0, a := 0, da := 0)
    else Place(p.g + 1, 0, 0, 0, 0)
  }

  lemma NextPlaceIs(p: Place)
    requires IsPlace(p)
    ensures IsPlace(NextPlace(p)) && PlaceDays(NextPlace(p)) == PlaceDays(p) + 1
    ensures var q := NextPlace(p);
      if p.da + 1 < PlaceLength(p) then PlaceYear(q) == PlaceYear(p) && q.da == p.da + 1
      else PlaceYear(q) == PlaceYear(p) + 1 && q.da == 0
  {
  }

  lemma PlaceLengthIs(p: Place)
    requires IsPlace(p)
    ensures PlaceLength(p) == MarchLength(PlaceYear(p))
  {
    var y := 100 * p.c + 4 * p.b + p.a + 1;
    Cycles(p.g, y);
    assert y % 4 == 0 <==> p.a == 3;
    assert y % 100 == 0 <==> p.a == 3 && p.b == 24;
    assert y % 400 == 0 <==> p.a == 3 && p.b == 24 && p.c == 3;
  }

  /** The date of a place is a date, and the next place has the next. */
  lemma NextDate(p: Place)
    requires IsPlace(p)
    ensures Valid(DateOf(p)) && NextDay(DateOf(p)) == DateOf(NextPlace(p))
  {
    NextPlaceIs(p);
    PlaceLengthIs(p);
    CivilNext(PlaceYear(p), p.da);
  }

  /* The conversion is the calendar */

  const FIRST := Place(16, 2, 14, 2, 261)

  ghost function PlaceOf(mjd: nat): (p: Place)
    ensures IsPlace(p) && PlaceDays(p) == mjd + 2432045
  {
    if mjd == 0 then FIRST
    else
      var p := PlaceOf(mjd - 1);
      NextPlaceIs(p);
      NextPlace(p)
  }

  /** Every day number is a date, and the next day number is the next date. */
  lemma ConsecutiveDays(mjd: nat)
    ensures Valid(MjdToGreg(mjd))
    ensures MjdToGreg(mjd + 1) == NextDay(MjdToGreg(mjd))
  {
    var p := PlaceOf(mjd);
    NextPlaceIs(p);
    PlaceDate(p, mjd + 2432045);
    PlaceDate(NextPlace(p), mjd + 2432046);
    NextDate(p);
  }

  lemma {:induction false} EachNext(f: nat -> Date, k: nat, n: nat, later: nat)
    requires forall i: nat {:trigger NextDay(f(i))} :: f(i + 1) == NextDay(f(i))
    requires later == k + n
    ensures f(later) == DaysOn(f(k), n)
  {
    if n > 0 {
      EachNext(f, k, n - 1, later - 1);
      assert f(later - 1 + 1) == NextDay(f(later - 1));
    }
  }

  /** As many days on the calendar as there are between the numbers. */
  lemma DaysFrom(mjd: nat, n: nat, later: nat)
    requires later == mjd + n
    ensures MjdToGreg(later) == DaysOn(MjdToGreg(mjd), n)
  {
    forall i: nat ensures MjdToGreg(i + 1) == NextDay(MjdToGreg(i)) { ConsecutiveDays(i); }
    EachNext(MjdToGreg, mjd, n, later);
  }

  lemma Epoch()
    ensures MjdToGreg(40587) == EPOCH
  {
    var p := Place(16, 3, 17, 1, 306);
    PlaceDate(p, 2472632);
    CivilIn(PlaceYear(p), 306, 10);
  }

  /** Day zero of the count is the seventeenth of November 1858. */
  lemma DayZero()
    ensures MjdToGreg(0) == Date(1858, 11, 17)
  {
    PlaceDate(FIRST, 2432045);
    CivilIn(PlaceYear(FIRST), 261, 8);
  }

  /** The date is the calendar's date that many days from the first of January 1970, either way. */
  lemma DaysFromEpoch(mjd: nat)
    ensures mjd >= 40587 ==> MjdToGreg(mjd) == DaysOn(EPOCH, mjd - 40587)
    ensures mjd < 40587 ==> DaysOn(MjdToGreg(mjd), 40587 - mjd) == EPOCH
  {
    Epoch();
    if mjd >= 40587 {
      DaysFrom(40587, mjd - 40587, mjd);
    } else {
      DaysFrom(mjd, 40587 - mjd, 40587);
    }
  }

  /* Start times */

  function BCD(c: Byte): nat {
    c / 16 * 10 + c % 16
  }

  /** The byte whose two halves are the decimal digits of `n`. */
  function Digits(n: nat): Byte
    requires n < 100
  {
    n / 10 * 16 + n % 10
  }

  /** Two decimal digits are read as the number they write. */
  lemma DigitsRead(n: nat)
    requires n < 100
    ensures BCD(Digits(n)) == n
  {
    assert (n / 10 * 16 + n % 10) / 16 == n / 10;
  }

  /** The start and end of an event in seconds, of 32 bits. */
  method Times(event: seq<Byte>) returns (start: nat, end: nat)
    requires |event| >= 10
    ensures start == StartTime(event[2] as nat * 256 + event[3], Seconds(event[4..7]))
    ensures end == (start + Seconds(event[7..10])) % UINT32
  {
    var mjd: nat := event[2] as nat * 256 + event[3];
    var h, min, s := BCD(event[4]), BCD(event[5]), BCD(event[6]);
    var dh, dm, ds := BCD(event[7]), BCD(event[8]), BCD(event[9]);
    start := ((mjd - 40587) * 86400 + h * 3600 + min * 60 + s) % UINT32;
    end := (start + (dh * 3600 + dm * 60 + ds)) % UINT32;
  }

  function Seconds(digits: seq<Byte>): nat
    requires |digits| == 3
  {
    BCD(digits[0]) * 3600 + BCD(digits[1]) * 60 + BCD(digits[2])
  }

  function StartTime(mjd: nat, seconds: nat): nat {
    ((mjd - 40587) * 86400 + seconds) % UINT32
  }

  /** From 1970 on, the start time counts whole days to the event's date and then the seconds of its
      clock: no sixteen-bit date reaches the end of 32 bits. */
  lemma StartTimeMeans(mjd: nat, seconds: nat)
    requires 40587 <= mjd < 0x1_0000 && seconds < 86400
    ensures DaysOn(EPOCH, StartTime(mjd, seconds) / 86400) == MjdToGreg(mjd)
    ensures StartTime(mjd, seconds) % 86400 == seconds
  {
    WholeDays(mjd - 40587, seconds);
    DaysFromEpoch(mjd);
  }

  /** Three bytes that write an hour, a minute and a second. */
  function Clock(h: nat, m: nat, s: nat): seq<Byte>
    requires h < 100 && m < 100 && s < 100
  {
    [Digits(h), Digits(m), Digits(s)]
  }

  /** Hours, minutes and seconds. */
  function Read(t: nat): (nat, nat, nat) {
    (t / 3600, t / 60 % 60, t % 60)
  }

  lemma ClockSeconds(h: nat, m: nat, s: nat)
    requires h < 100 && m < 100 && s < 100
    ensures Seconds(Clock(h, m, s)) == h * 3600 + m * 60 + s
  {
    DigitsRead(h);
    DigitsRead(m);
    DigitsRead(s);
  }

  /** The seconds of a clock or a duration are its hours, minutes and seconds. */
  lemma ClockMeans(h: nat, m: nat, s: nat)
    requires h < 100 && m < 60 && s < 60
    ensures Seconds(Clock(h, m, s)) == h * 3600 + m * 60 + s && Read(Seconds(Clock(h, m, s))) == (h, m, s)
  {
    ClockSeconds(h, m, s);
    Parted(h, m, s);
  }

  lemma Parted(h: nat, m: nat, s: nat)
    requires m < 60 && s < 60
    ensures Read(h * 3600 + m * 60 + s) == (h, m, s)
  {
    Sixties(h * 60 + m, s);
    Sixties(h, m);
    Hours(h, m * 60 + s);
  }

  lemma Sixties(high: nat, low: nat)
    requires low < 60
    ensures (high * 60 + low) / 60 == high && (high * 60 + low) % 60 == low
  {
  }

  lemma Hours(h: nat, rest: nat)
    requires rest < 3600
    ensures (h * 3600 + rest) / 3600 == h
  {
  }

  /** The times of an event of any day from 1970 on that begins at h:m:s and lasts dh:dm:ds: they are
      on its date by the calendar, at that time of day, and that far apart. */
  lemma EventMeans(mjd: nat, h: nat, m: nat, s: nat, dh: nat, dm: nat, ds: nat, start: nat, end: nat)
    requires 40587 <= mjd < 0x1_0000 && h < 24 && m < 60 && s < 60 && dh < 100 && dm < 60 && ds < 60
    requires start == StartTime(mjd, Seconds(Clock(h, m, s))) && end == (start + Seconds(Clock(dh, dm, ds))) % UINT32
    ensures DaysOn(EPOCH, start / 86400) == MjdToGreg(mjd) && Read(start % 86400) == (h, m, s)
    ensures end >= start && Read(end - start) == (dh, dm, ds)
  {
    var seconds, lasts := Seconds(Clock(h, m, s)), Seconds(Clock(dh, dm, ds));
    ClockBounds(h, m, s);
    ClockBounds(dh, dm, ds);
    StartAndEnd(mjd, seconds, lasts, start, end);
    ClockRead(start % 86400, h, m, s);
    ClockRead(end - start, dh, dm, ds);
  }

  lemma ClockBounds(h: nat, m: nat, s: nat)
    requires h < 100 && m < 60 && s < 60
    ensures Seconds(Clock(h, m, s)) < 360000 && (h < 24 ==> Seconds(Clock(h, m, s)) < 86400)
  {
    ClockSeconds(h, m, s);
  }

  lemma ClockRead(t: nat, h: nat, m: nat, s: nat)
    requires h < 100 && m < 60 && s < 60 && t == Seconds(Clock(h, m, s))
    ensures Read(t) == (h, m, s)
  {
    ClockMeans(h, m, s);
  }

  lemma StartAndEnd(mjd: nat, seconds: nat, lasts: nat, start: nat, end: nat)
    requires 40587 <= mjd < 0x1_0000 && seconds < 86400 && lasts < 360000
    requires start == StartTime(mjd, seconds) && end == (start + lasts) % UINT32
    ensures DaysOn(EPOCH, start / 86400) == MjdToGreg(mjd) && start % 86400 == seconds && end == start + lasts
  {
    StartTimeMeans(mjd, seconds);
    EndFits(mjd, seconds, lasts);
  }

  /** The last event ends well before the end of 32 bits. */
  lemma EndFits(mjd: nat, seconds: nat, lasts: nat)
    requires 40587 <= mjd < 0x1_0000 && seconds < 86400 && lasts < 360000
    ensures (StartTime(mjd, seconds) + lasts) % UINT32 == StartTime(mjd, seconds) + lasts
  {
    assert (mjd - 40587) * 86400 <= 24948 * 86400;
  }

  lemma WholeDays(n: nat, seconds: nat)
    requires n < 0x1_0000 - 40587 && seconds < 86400
    ensures var t := (n * 86400 + seconds) % UINT32; t / 86400 == n && t % 86400 == seconds
  {
    assert n * 86400 + seconds < UINT32;
  }

  /** Events start in the order of their dates and clocks. */
  lemma StartTimesInOrder(mjd: nat, seconds: nat, mjd': nat, seconds': nat)
    requires 40587 <= mjd < 0x1_0000 && 40587 <= mjd' < 0x1_0000 && seconds < 86400 && seconds' < 86400
    ensures StartTime(mjd, seconds) < StartTime(mjd', seconds')
      <==> mjd < mjd' || (mjd == mjd' && seconds < seconds')
  {
    assert (mjd - 40587) * 86400 + seconds < UINT32 && (mjd' - 40587) * 86400 + seconds' < UINT32;
  }
}
