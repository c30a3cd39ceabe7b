/**
 Report windows and ISO week numbers (resolveReportWindow and getIsoWeek in
 services/trade-api/src/routes/strategy.ts, getISOWeek in services/trade-api/src/db.ts) over the Date
 arithmetic of JavaScript: the proleptic Gregorian calendar in whole days, months counted from 0, and
 Date.UTC's reading of the years 0..99 as 1900..1999. Time values are unbounded.
 */
module Calendar {
  const DAY_MS := 86400000
  const OFFSET_MS := 8 * 60 * 60 * 1000

  // ---------- Days, months and years ----------

  predicate Leap(y: int) {
    y % 4 == 0 && (y % 100 != 0 || y % 400 == 0)
  }

  /** The day number of January 1, counted from 1970-01-01. */
  function FirstDay(y: int): int {
    365 * (y - 1970) + (y - 1969) / 4 - (y - 1901) / 100 + (y - 1601) / 400
  }

  function MonthLength(leap: bool, m: nat): nat {
    if m == 1 then if leap then 29 else 28
    else if m == 3 || m == 5 || m == 8 || m == 10 then 30
    else 31
  }

  /** Days of the year before month m. */
  function MonthStart(leap: bool, m: nat): nat {
    if m == 0 then 0 else MonthStart(leap, m - 1) + MonthLength(leap, m - 1)
  }

  lemma Quarters(y: int)
    ensures (y - 1968) / 4 - (y - 1969) / 4 == if y % 4 == 0 then 1 else 0
  {
  }

  lemma Centuries(y: int)
    ensures (y - 1900) / 100 - (y - 1901) / 100 == if y % 100 == 0 then 1 else 0
    ensures y % 100 == 0 ==> y % 4 == 0
  {
  }

  lemma Cycles(y: int)
    ensures (y - 1600) / 400 - (y - 1601) / 400 == if y % 400 == 0 then 1 else 0
    ensures y % 400 == 0 ==> y % 100 == 0
  {
  }

  lemma LeapDays(y: int, a: int, b: int, c: int, a': int, b': int, c': int)
    requires a' - a == (if y % 4 == 0 then 1 else 0) && b' - b == (if y % 100 == 0 then 1 else 0) && c' - c == (if y % 400 == 0 then 1 else 0)
    requires (y % 400 == 0 ==> y % 100 == 0) && (y % 100 == 0 ==> y % 4 == 0)
    ensures (a' - b' + c') - (a - b + c) == if Leap(y) then 1 else 0
  {
  }

  lemma YearLength(y: int)
    ensures FirstDay(y + 1) - FirstDay(y) == MonthStart(Leap(y), 12)
  {
    Quarters(y);
    Centuries(y);
    Cycles(y);
    LeapDays(y, (y - 1969) / 4, (y - 1901) / 100, (y - 1601) / 400, (y - 1968) / 4, (y - 1900) / 100, (y - 1600) / 400);
    YearMonths(Leap(y));
    hide Leap;
  }

  lemma YearMonths(leap: bool)
    ensures MonthStart(leap, 12) == if leap then 366 else 365
  {
    assert MonthStart(leap, 1) == 31;
    assert MonthStart(leap, 2) == if leap then 60 else 59;
    assert MonthStart(leap, 4) == MonthStart(leap, 2) + 61;
    assert MonthStart(leap, 6) == MonthStart(leap, 4) + 61;
    assert MonthStart(leap, 8) == MonthStart(leap, 6) + 62;
    assert MonthStart(leap, 10) == MonthStart(leap, 8) + 61;
  }

  lemma {:induction false} YearsAscend(y: int, z: int)
    requires y <= z
    ensures FirstDay(y) + 365 * (z - y) <= FirstDay(z)
    decreases z - y
  {
    if y < z {
      YearLength(y);
      YearMonths(Leap(y));
      YearsAscend(y + 1, z);
    }
  }

  /** The year of a day, searching upwards from y. */
  function YearFrom(day: int, y: int): (r: int)
    requires FirstDay(y) <= day
    ensures FirstDay(r) <= day < FirstDay(r + 1)
    decreases day - FirstDay(y)
  {
    YearsAscend(y, y + 1);
    if day < FirstDay(y + 1) then y else YearFrom(day, y + 1)
  }

  function YearOf(day: int): (r: int)
    ensures FirstDay(r) <= day < FirstDay(r + 1)
  {
    if day >= 0 then YearFrom(day, 1970)
    else
      YearsAscend(1970 + day / 365, 1970);
      YearFrom(day, 1970 + day / 365)
  }

  lemma YearUnique(day: int, y: int)
    requires FirstDay(y) <= day < FirstDay(y + 1)
    ensures YearOf(day) == y
  {
    hide FirstDay;
    if YearOf(day) < y {
      YearsAscend(YearOf(day) + 1, y);
    } else if YearOf(day) > y {
      YearsAscend(y + 1, YearOf(day));
    }
  }

  function MonthFrom(leap: bool, rest: int, m: nat): (r: nat)
    requires m < 12 && MonthStart(leap, m) <= rest < MonthStart(leap, 12)
    ensures r < 12 && MonthStart(leap, r) <= rest < MonthStart(leap, r + 1)
    decreases 12 - m
  {
    if rest < MonthStart(leap, m + 1) then m else MonthFrom(leap, rest, m + 1)
  }

  function MonthOf(day: int): (r: nat)
    ensures r < 12
    ensures MonthStart(Leap(YearOf(day)), r) <= day - FirstDay(YearOf(day)) < MonthStart(Leap(YearOf(day)), r + 1)
  {
    YearLength(YearOf(day));
    MonthFrom(Leap(YearOf(day)), day - FirstDay(YearOf(day)), 0)
  }

  /** Day of the month, from 1. */
  function DateOf(day: int): (r: int)
    ensures r >= 1
  {
    day - FirstDay(YearOf(day)) - MonthStart(Leap(YearOf(day)), MonthOf(day)) + 1
  }

  /** MakeDay: the day number of a date, where the month may be 12 and the day of the month may be anything. */
  function MakeDay(year: int, month: nat, date: int): int
    requires month <= 12
  {
    if month == 12 then FirstDay(year + 1) + date - 1 else FirstDay(year) + MonthStart(Leap(year), month) + date - 1
  }

  predicate TwoDigits(y: int) {
    0 <= y <= 99
  }

  /** The days of the years 0..99. */
  predicate Moved(day: int) {
    FirstDay(0) <= day < FirstDay(100)
  }

  lemma MovedIff(day: int)
    ensures Moved(day) <==> TwoDigits(YearOf(day))
    ensures YearOf(day) >= 100 <==> day >= FirstDay(100)
  {
    hide FirstDay, YearOf;
    var y := YearOf(day);
    if y < 0 {
      YearsAscend(y + 1, 0);
    } else {
      YearsAscend(0, y);
    }
    if y < 100 {
      YearsAscend(y + 1, 100);
    } else {
      YearsAscend(100, y);
    }
  }

  /** The day of Date.UTC, which moves the years 0..99 to the twentieth century. */
  function UtcDay(year: int, month: nat, date: int): int
    requires month <= 12
  {
    MakeDay(if TwoDigits(year) then 1900 + year else year, month, date)
  }

  /** getUTCDay: 0 is Sunday. */
  function Weekday(day: int): nat {
    (day + 4) % 7
  }

  /** getUTCDay() || 7 */
  function IsoWeekday(day: int): nat {
    if Weekday(day) == 0 then 7 else Weekday(day)
  }

  lemma MakeDayOf(day: int, k: int)
    ensures MakeDay(YearOf(day), MonthOf(day), DateOf(day) + k) == day + k
  {
  }

  /** Where the calendar is anchored: 1970-01-01 is day 0, a Thursday, and 2000-02-29 is day 11016, a Tuesday. */
  lemma Anchored()
    ensures YearOf(0) == 1970 && MonthOf(0) == 0 && DateOf(0) == 1 && Weekday(0) == 4
    ensures YearOf(11016) == 2000 && MonthOf(11016) == 1 && DateOf(11016) == 29 && Weekday(11016) == 2
  {
    hide FirstDay, Leap, MonthStart, YearOf, MonthOf;
    AnchorYears();
    AnchorMonths();
    MonthUnique(0, 1970, 0);
    MonthUnique(11016, 2000, 1);
  }

  lemma AnchorYears()
    ensures FirstDay(1970) == 0 && FirstDay(2000) == 10957 && !Leap(1970) && Leap(2000)
  {
  }

  lemma AnchorMonths()
    ensures MonthStart(false, 0) == 0 && MonthStart(false, 1) == 31 && MonthStart(true, 1) == 31 && MonthStart(true, 2) == 60
  {
    assert MonthStart(true, 1) == 31;
  }

  // ---------- ISO 8601 weeks ----------

  function MondayOf(day: int): int {
    day - (day + 3) % 7
  }

  function ThursdayOf(day: int): int {
    MondayOf(day) + 3
  }

  /** The first Thursday from a day on: it lies within seven days. */
  function NextThursday(day: int): (r: int)
    ensures day <= r < day + 7 && IsoWeekday(r) == 4
  {
    day + (-day) % 7
  }

  function FirstThursday(y: int): int {
    NextThursday(FirstDay(y))
  }

  /** Week 1 is the week of the first Thursday; a week belongs to the year of its Thursday. */
  function IsoWeek(day: int): int {
    (ThursdayOf(day) - FirstThursday(YearOf(ThursdayOf(day)))) / 7 + 1
  }

  /** Math.ceil(n / 7) */
  function CeilSevenths(n: int): int {
    -((-n) / 7)
  }

  lemma ThursdayWeekday(day: int)
    ensures Weekday(ThursdayOf(day)) == 4 && ThursdayOf(day) == day + 4 - IsoWeekday(day)
  {
  }

  /** The code's formula for a Thursday counts the Thursdays of the year up to it. */
  lemma ThursdayCount(thursday: int, y: int)
    requires Weekday(thursday) == 4
    ensures CeilSevenths(thursday - FirstDay(y) + 1) == (thursday - FirstThursday(y)) / 7 + 1
  {
    hide FirstDay;
    assert thursday == 7 * (thursday / 7);
    CountSevenths(thursday / 7, FirstDay(y));
  }

  lemma CountSevenths(a: int, first: int)
    ensures CeilSevenths(7 * a - first + 1) == (7 * a - (first + (-first) % 7)) / 7 + 1
  {
  }

  /** ISO week numbers lie between 1 and 53. */
  lemma IsoWeekRange(day: int)
    ensures 1 <= IsoWeek(day) <= 53
  {
    hide FirstDay, FirstThursday, MonthStart;
    var y := YearOf(ThursdayOf(day));
    ThursdayWeekday(day);
    ThursdayCount(ThursdayOf(day), y);
    YearLength(y);
    YearMonths(Leap(y));
  }

  /** What getIsoWeek computes for a date. */
  function CodeWeek(day: int): int {
    var moved := UtcDay(YearOf(day), MonthOf(day), DateOf(day));
    var thursday := moved + 4 - IsoWeekday(moved);
    CeilSevenths(thursday - UtcDay(YearOf(thursday), 0, 1) + 1)
  }

  /** getIsoWeek and getISOWeek, which move a local date with setUTCDate. */
  method GetIsoWeek(time: int) returns (week: int)
    ensures week == CodeWeek(time / DAY_MS)
  {
    hide FirstDay, CeilSevenths, YearOf, MonthOf, DateOf, MakeDay, UtcDay, IsoWeekday;
    var day := time / DAY_MS;
    var d := UtcDay(YearOf(day), MonthOf(day), DateOf(day));
    var dayNum: int := IsoWeekday(d);
    MakeDayOf(d, 4 - dayNum);
    d := MakeDay(YearOf(d), MonthOf(d), DateOf(d) + 4 - dayNum);
    var yearStart := UtcDay(YearOf(d), 0, 1);
    week := CeilSevenths(d - yearStart + 1);
  }

  /** The formula at a Thursday, in a year that Date.UTC takes as it is or moves. */
  lemma WeekOfThursday(thursday: int)
    requires Weekday(thursday) == 4
    ensures var y := YearOf(thursday);
            var n := CeilSevenths(thursday - UtcDay(y, 0, 1) + 1);
            if TwoDigits(y) then n < 0 else n == (thursday - FirstThursday(y)) / 7 + 1
  {
    var y := YearOf(thursday);
    if TwoDigits(y) {
      YearsAscend(y + 1, 1900 + y);
      hide FirstDay;
      assert thursday - FirstDay(1900 + y) + 1 < -1000;
    } else {
      ThursdayCount(thursday, y);
    }
  }

  lemma UtcDayOf(day: int)
    ensures var moved := UtcDay(YearOf(day), MonthOf(day), DateOf(day));
            if TwoDigits(YearOf(day)) then moved >= FirstDay(1900 + YearOf(day)) else moved == day
  {
    hide FirstDay, YearOf, MonthOf;
  }

  /**
   For a date whose year is not one of 0..99, the code gives the ISO week exactly when the Thursday of its
   week is not in such a year either. For a date in the years 0..99 it gives the week of 1900 years later.
   */
  lemma WeekCorrectIff(day: int)
    ensures !Moved(day) ==> (CodeWeek(day) == IsoWeek(day) <==> !Moved(ThursdayOf(day)))
    ensures Moved(day) ==> CodeWeek(day) == IsoWeek(UtcDay(YearOf(day), MonthOf(day), DateOf(day)))
  {
    MovedIff(day);
    MovedIff(ThursdayOf(day));
    hide Moved, FirstDay, FirstThursday, CeilSevenths, UtcDay, YearOf, MonthOf, DateOf, Weekday, IsoWeekday, ThursdayOf;
    var moved := UtcDay(YearOf(day), MonthOf(day), DateOf(day));
    UtcDayOf(day);
    if TwoDigits(YearOf(day)) {
      CenturiesLater(moved, YearOf(day));
    }
    ThursdayWeekday(moved);
    WeekOfThursday(ThursdayOf(moved));
    IsoWeekRange(moved);
  }

  lemma CenturiesLater(moved: int, y: int)
    requires TwoDigits(y) && moved >= FirstDay(1900 + y)
    ensures !TwoDigits(YearOf(ThursdayOf(moved)))
  {
  }

  lemma Year100()
    ensures FirstDay(0) + 7 < FirstDay(100) && (FirstDay(100) + 3) % 7 == 4
  {
  }

  /** From the year 100 on, the only dates with a wrong week number are its first three days. */
  lemma WeekCorrectFromYear100(day: int)
    requires day >= FirstDay(100)
    ensures CodeWeek(day) == IsoWeek(day) <==> day >= FirstDay(100) + 3
  {
    hide FirstDay, CodeWeek, IsoWeek;
    WeekCorrectIff(day);
    Year100();
  }

  // ---------- Report windows ----------

  datatype Period = Daily | Weekly | Monthly

  datatype Window = Window(startTs: int, endTs: int)

  function LocalDay(now: int): int {
    (now + OFFSET_MS) / DAY_MS
  }

  function ResolveReportWindow(period: Period, now: int): Window {
    var day := LocalDay(now);
    var year, month, date := YearOf(day), MonthOf(day), DateOf(day);
    var mondayDate := date - IsoWeekday(day) + 1;
    var startDay := match period
      case Daily => UtcDay(year, month, date)
      case Weekly => UtcDay(year, month, mondayDate)
      case Monthly => UtcDay(year, month, 1);
    var endDay := match period
      case Daily => UtcDay(year, month, date + 1)
      case Weekly => UtcDay(year, month, mondayDate + 7)
      case Monthly => UtcDay(year, month + 1, 1);
    Window(startDay * DAY_MS - OFFSET_MS, endDay * DAY_MS - OFFSET_MS)
  }

  predicate Within(w: Window, t: int) {
    w.startTs <= t < w.endTs
  }

  /** The first day of the period that a day lies in, and the first day after it. */
  function PeriodStart(period: Period, day: int): int {
    match period
    case Daily => day
    case Weekly => MondayOf(day)
    case Monthly => day - DateOf(day) + 1
  }

  function PeriodEnd(period: Period, day: int): int {
    match period
    case Daily => day + 1
    case Weekly => MondayOf(day) + 7
    case Monthly => day - DateOf(day) + 1 + MonthLength(Leap(YearOf(day)), MonthOf(day))
  }

  lemma InMonth(day: int, date: int)
    ensures MakeDay(YearOf(day), MonthOf(day), date) == day - DateOf(day) + date
    ensures MakeDay(YearOf(day), MonthOf(day) + 1, 1) == day - DateOf(day) + 1 + MonthLength(Leap(YearOf(day)), MonthOf(day))
  {
    hide FirstDay, YearOf, MonthOf, MonthLength;
    YearLength(YearOf(day));
    assert MonthStart(Leap(YearOf(day)), MonthOf(day) + 1)
        == MonthStart(Leap(YearOf(day)), MonthOf(day)) + MonthLength(Leap(YearOf(day)), MonthOf(day));
  }

  lemma WindowDays(period: Period, now: int)
    requires !Moved(LocalDay(now))
    ensures ResolveReportWindow(period, now)
            == Window(PeriodStart(period, LocalDay(now)) * DAY_MS - OFFSET_MS, PeriodEnd(period, LocalDay(now)) * DAY_MS - OFFSET_MS)
  {
    hide Moved, FirstDay, YearOf, MonthOf, DateOf, MakeDay, LocalDay, MonthLength, Leap, IsoWeekday, MondayOf;
    var day := LocalDay(now);
    MovedIff(day);
    InMonth(day, DateOf(day));
    InMonth(day, DateOf(day) + 1);
    InMonth(day, DateOf(day) - IsoWeekday(day) + 1);
    InMonth(day, DateOf(day) - IsoWeekday(day) + 8);
    InMonth(day, 1);
    MondayWeekday(day);
  }

  lemma MondayWeekday(day: int)
    ensures MondayOf(day) == day - IsoWeekday(day) + 1
  {
  }

  lemma PeriodAround(period: Period, day: int)
    ensures PeriodStart(period, day) <= day < PeriodEnd(period, day)
  {
  }

  /** Every day of a period has the same period. */
  lemma PeriodConstant(period: Period, day: int, other: int)
    requires PeriodStart(period, day) <= other < PeriodEnd(period, day)
    ensures PeriodStart(period, other) == PeriodStart(period, day) && PeriodEnd(period, other) == PeriodEnd(period, day)
  {
    hide FirstDay, YearOf, MonthLength, Leap, MonthOf;
    if period.Monthly? {
      assert MonthStart(Leap(YearOf(day)), MonthOf(day) + 1)
          == MonthStart(Leap(YearOf(day)), MonthOf(day)) + MonthLength(Leap(YearOf(day)), MonthOf(day));
      MonthUnique(other, YearOf(day), MonthOf(day));
    }
  }

  lemma MonthUnique(day: int, y: int, m: nat)
    requires m < 12 && MonthStart(Leap(y), m) <= day - FirstDay(y) < MonthStart(Leap(y), m + 1)
    ensures YearOf(day) == y && MonthOf(day) == m
  {
    hide FirstDay, YearOf, MonthOf, MonthStart, Leap;
    MonthsAscend(Leap(y), m + 1, 12);
    YearLength(y);
    YearUnique(day, y);
    if MonthOf(day) < m {
      MonthsAscend(Leap(y), MonthOf(day) + 1, m);
    } else if MonthOf(day) > m {
      MonthsAscend(Leap(y), m + 1, MonthOf(day));
    }
  }

  /** A period starts where the one before it ends. */
  lemma PeriodNext(period: Period, day: int)
    ensures PeriodStart(period, PeriodEnd(period, day)) == PeriodEnd(period, day)
  {
    hide FirstDay, YearOf, MonthOf, Leap;
    if period.Monthly? {
      var y, m := YearOf(day), MonthOf(day);
      var next := PeriodEnd(period, day);
      assert MonthStart(Leap(y), m + 1) == MonthStart(Leap(y), m) + MonthLength(Leap(y), m);
      if m == 11 {
        YearLength(y);
        MonthUnique(next, y + 1, 0);
      } else {
        assert MonthStart(Leap(y), m + 2) == MonthStart(Leap(y), m + 1) + MonthLength(Leap(y), m + 1);
        MonthUnique(next, y, m + 1);
      }
    }
  }

  lemma {:induction false} MonthsAscend(leap: bool, m: nat, n: nat)
    requires m <= n
    ensures MonthStart(leap, m) <= MonthStart(leap, n)
  {
    if m < n {
      MonthsAscend(leap, m, n - 1);
    }
  }

  /** A window contains the time it was computed for exactly when the local year is not one of 0..99. */
  lemma WindowContainsIff(period: Period, now: int)
    ensures Within(ResolveReportWindow(period, now), now) <==> !Moved(LocalDay(now))
  {
    var day := LocalDay(now);
    MovedIff(day);
    if TwoDigits(YearOf(day)) {
      WindowMoved(period, now);
    } else {
      WindowDays(period, now);
      PeriodAround(period, day);
      hide ResolveReportWindow, PeriodStart, PeriodEnd;
    }
  }

  lemma WindowMoved(period: Period, now: int)
    requires TwoDigits(YearOf(LocalDay(now)))
    ensures now < ResolveReportWindow(period, now).startTs
  {
    var day := LocalDay(now);
    BeforeNext(now);
    assert 1 <= IsoWeekday(day) <= 7;
    hide LocalDay, UtcDay, YearOf, MonthOf, DateOf, IsoWeekday;
    FarLater(day, DateOf(day));
    FarLater(day, DateOf(day) - IsoWeekday(day) + 1);
    FarLater(day, 1);
  }

  lemma BeforeNext(now: int)
    ensures now < (LocalDay(now) + 1) * DAY_MS - OFFSET_MS
  {
  }

  /** Date.UTC with a two-digit year lands long after the day it is meant for. */
  lemma FarLater(day: int, date: int)
    requires TwoDigits(YearOf(day)) && date >= -6
    ensures UtcDay(YearOf(day), MonthOf(day), date) > day
  {
    hide FirstDay, YearOf, MonthOf;
    var y := YearOf(day);
    YearsAscend(y + 1, 1900 + y);
  }

  /**
   The windows of a period tile time: two times have the same window exactly when each lies in the window of
   the other, and where a window ends the next one starts.
   */
  lemma WindowsTile(period: Period, t: int, u: int)
    requires !Moved(LocalDay(t)) && !Moved(LocalDay(u))
    ensures Within(ResolveReportWindow(period, t), u) <==> ResolveReportWindow(period, u) == ResolveReportWindow(period, t)
    ensures u == ResolveReportWindow(period, t).endTs ==> ResolveReportWindow(period, u).startTs == u
  {
    hide Moved, ResolveReportWindow, PeriodStart, PeriodEnd, YearOf;
    var a, b := LocalDay(t), LocalDay(u);
    WindowDays(period, t);
    WindowDays(period, u);
    PeriodAround(period, b);
    PeriodNext(period, a);
    if PeriodStart(period, a) <= b < PeriodEnd(period, a) {
      PeriodConstant(period, a, b);
    }
  }

  /** The days from first up to next are a day, a week from Monday on, or a calendar month. */
  predicate IsPeriod(period: Period, first: int, next: int) {
    match period
    case Daily => next == first + 1
    case Weekly => Weekday(first) == 1 && next == first + 7
    case Monthly =>
      && DateOf(first) == 1 && DateOf(next) == 1
      && forall day :: first <= day < next ==> YearOf(day) == YearOf(first) && MonthOf(day) == MonthOf(first)
  }

  /** A window runs from local midnight to local midnight over the day, the week or the month that its time lies in. */
  lemma WindowShape(period: Period, now: int)
    requires !Moved(LocalDay(now))
    ensures exists first, next ::
              && ResolveReportWindow(period, now) == Window(first * DAY_MS - OFFSET_MS, next * DAY_MS - OFFSET_MS)
              && first <= LocalDay(now) < next && IsPeriod(period, first, next)
  {
    hide Moved, ResolveReportWindow, PeriodStart, PeriodEnd, IsPeriod;
    var day := LocalDay(now);
    WindowDays(period, now);
    PeriodAround(period, day);
    PeriodShape(period, day);
  }

  lemma PeriodShape(period: Period, day: int)
    ensures IsPeriod(period, PeriodStart(period, day), PeriodEnd(period, day))
  {
    match period {
      case Daily =>
      case Weekly =>
      case Monthly => MonthShape(day);
    }
  }

  lemma MonthShape(day: int)
    ensures IsPeriod(Monthly, PeriodStart(Monthly, day), PeriodEnd(Monthly, day))
  {
    hide FirstDay, YearOf, MonthOf, Leap, MonthStart;
    var first, next := PeriodStart(Monthly, day), PeriodEnd(Monthly, day);
    PeriodAround(Monthly, day);
    PeriodConstant(Monthly, day, first);
    PeriodNext(Monthly, day);
    forall d | first <= d < next
      ensures YearOf(d) == YearOf(day) && MonthOf(d) == MonthOf(day)
    {
      SameMonth(day, d);
    }
  }

  lemma SameMonth(day: int, other: int)
    requires PeriodStart(Monthly, day) <= other < PeriodEnd(Monthly, day)
    ensures YearOf(other) == YearOf(day) && MonthOf(other) == MonthOf(day)
  {
    hide FirstDay, YearOf, MonthLength, Leap, MonthOf;
    assert MonthStart(Leap(YearOf(day)), MonthOf(day) + 1)
        == MonthStart(Leap(YearOf(day)), MonthOf(day)) + MonthLength(Leap(YearOf(day)), MonthOf(day));
    MonthUnique(other, YearOf(day), MonthOf(day));
  }

  /** The week number is the same throughout a weekly window. */
  lemma WeekConstant(t: int, u: int)
    requires LocalDay(t) >= FirstDay(100) + 3 && LocalDay(u) >= FirstDay(100) + 3
    requires Within(ResolveReportWindow(Weekly, t), u)
    ensures CodeWeek(LocalDay(u)) == CodeWeek(LocalDay(t)) == IsoWeek(LocalDay(t))
  {
    hide ResolveReportWindow, CodeWeek, IsoWeek, FirstDay, MondayOf;
    WindowDays(Weekly, t);
    WeekCorrectFromYear100(LocalDay(t));
    WeekCorrectFromYear100(LocalDay(u));
    SameWeek(LocalDay(t), LocalDay(u));
  }

  lemma SameWeek(day: int, other: int)
    requires PeriodStart(Weekly, day) <= other < PeriodEnd(Weekly, day)
    ensures IsoWeek(other) == IsoWeek(day)
  {
    hide FirstThursday, YearOf;
    PeriodConstant(Weekly, day, other);
  }
}
