/** Calendar arithmetic of the dashboard: local dates as the JavaScript `Date`
    constructor produces them, month shifting with year carry, and the
    first-instant / last-instant window of a calendar month. */
module Calendar {

  const MillisPerDay: int := 86_400_000

  /** A local instant. `month` is 0-based, as `Date.getMonth()` returns it;
      `millis` is the time of day in milliseconds since midnight. */
  datatype Timestamp = Timestamp(year: int, month: int, day: int, millis: int)

  /** A closed interval of instants, as the store queries bound it with
      `greaterThanEqual` and `lessThanEqual`. */
  datatype Window = Window(first: Timestamp, last: Timestamp)

  /** Gregorian leap year, the proleptic calendar `Date` uses. */
  predicate IsLeapYear(y: int)
  {
    y % 4 == 0 && (y % 100 != 0 || y % 400 == 0)
  }

  function DaysInMonth(y: int, m: int): (d: int)
    requires 0 <= m < 12
    ensures 28 <= d <= 31
  {
    if m == 1 then (if IsLeapYear(y) then 29 else 28)
    else if m == 3 || m == 5 || m == 8 || m == 10 then 30
    else 31
  }

  /** The month lengths: 29 days for February of a leap year, 28 for any
      other February, 30 for April, June, September and November, 31 for
      the rest. */
  lemma DaysInMonthCases(y: int, m: int)
    requires 0 <= m < 12
    ensures DaysInMonth(y, m) == 29 <==> m == 1 && IsLeapYear(y)
    ensures DaysInMonth(y, m) == 28 <==> m == 1 && !IsLeapYear(y)
    ensures DaysInMonth(y, m) == 30 <==> m == 3 || m == 5 || m == 8 || m == 10
    ensures DaysInMonth(y, m) == 31 <==> m != 1 && m != 3 && m != 5 && m != 8 && m != 10
  {
  }

  /** An instant that names a real day of a real month. */
  predicate Valid(t: Timestamp)
  {
    0 <= t.month < 12 && 1 <= t.day <= DaysInMonth(t.year, t.month) &&
    0 <= t.millis < MillisPerDay
  }

  /** Months since year 0, so that consecutive months differ by one. */
  function MonthOrdinal(y: int, m: int): int
  {
    12 * y + m
  }

  /** Chronological order of instants (strict). */
  predicate Before(a: Timestamp, b: Timestamp)
  {
    a.year < b.year ||
    (a.year == b.year && (a.month < b.month ||
    (a.month == b.month && (a.day < b.day ||
    (a.day == b.day && a.millis < b.millis)))))
  }

  predicate AtOrBefore(a: Timestamp, b: Timestamp)
  {
    !Before(b, a)
  }

  /** Membership in a window is inclusive at both ends. */
  predicate InWindow(t: Timestamp, w: Window)
  {
    AtOrBefore(w.first, t) && AtOrBefore(t, w.last)
  }

  function TimeOfDay(hours: int, minutes: int, seconds: int, ms: int): int
  {
    ((hours * 60 + minutes) * 60 + seconds) * 1000 + ms
  }

  /** `new Date(year, monthIndex, day, hours, minutes, seconds, ms)` for the
      days the dashboard passes (0 and 1; any day up to 28 exists in every
      month). An out-of-range `monthIndex` carries into the year; day 0 is
      the day before day 1, i.e. the last day of the previous month. */
  function MakeDate(year: int, monthIndex: int, day: int,
                    hours: int, minutes: int, seconds: int, ms: int): (t: Timestamp)
    requires 0 <= day <= 28
    requires 0 <= hours < 24 && 0 <= minutes < 60 && 0 <= seconds < 60 && 0 <= ms < 1000
    ensures Valid(t)
    ensures day != 0 ==> MonthOrdinal(t.year, t.month) == MonthOrdinal(year, monthIndex) && t.day == day
    ensures day == 0 ==> MonthOrdinal(t.year, t.month) == MonthOrdinal(year, monthIndex) - 1 &&
                         t.day == DaysInMonth(t.year, t.month)
    ensures t.millis == TimeOfDay(hours, minutes, seconds, ms)
  {
    var y := year + monthIndex / 12;
    var m := monthIndex % 12;
    var tod := TimeOfDay(hours, minutes, seconds, ms);
    if day == 0 then
      var py := if m == 0 then y - 1 else y;
      var pm := if m == 0 then 11 else m - 1;
      Timestamp(py, pm, DaysInMonth(py, pm), tod)
    else
      Timestamp(y, m, day, tod)
  }

  /** Midnight on the first of the month `i` months before (y, m). */
  function MonthsBack(y: int, m: int, i: int): (t: Timestamp)
    ensures Valid(t) && t.day == 1 && t.millis == 0
    ensures MonthOrdinal(t.year, t.month) == MonthOrdinal(y, m) - i
  {
    Timestamp(y + (m - i) / 12, (m - i) % 12, 1, 0)
  }

  /** `new Date(now.getFullYear(), now.getMonth() - i, 1)` is that instant. */
  lemma MonthsBackByConstructor(y: int, m: int, i: int)
    ensures MakeDate(y, m - i, 1, 0, 0, 0, 0) == MonthsBack(y, m, i)
  {
  }

  /** Shifting back stays in the same year while `i <= m` and otherwise
      borrows one year and wraps the month past December. */
  lemma MonthsBackRollover(y: int, m: int, i: int)
    requires 0 <= m < 12 && 0 <= i < 12
    ensures var t := MonthsBack(y, m, i);
            if i <= m then t.year == y && t.month == m - i
            else t.year == y - 1 && t.month == m - i + 12
  {
    var t := MonthsBack(y, m, i);
    if i <= m {
      OrdinalInjective(t.year, t.month, y, m - i);
    } else {
      OrdinalInjective(t.year, t.month, y - 1, m - i + 12);
    }
  }

  /** Two month ordinals determine the same calendar month only if equal. */
  lemma OrdinalInjective(y1: int, m1: int, y2: int, m2: int)
    requires 0 <= m1 < 12 && 0 <= m2 < 12
    requires MonthOrdinal(y1, m1) == MonthOrdinal(y2, m2)
    ensures y1 == y2 && m1 == m2
  {
  }

  /** Month windows of different months are different windows. */
  lemma SourceMonthWindowInjective(y1: int, m1: int, y2: int, m2: int)
    requires 0 <= m1 < 12 && 0 <= m2 < 12
    requires SourceMonthWindow(y1, m1) == SourceMonthWindow(y2, m2)
    ensures y1 == y2 && m1 == m2
  {
    assert SourceMonthWindow(y1, m1).first == SourceMonthWindow(y2, m2).first;
  }

  /** The window as written in the dashboard: from midnight on the first
      to 23:59:59.000 on the last day of month m. */
  function SourceMonthWindow(y: int, m: int): (w: Window)
    requires 0 <= m < 12
    ensures Valid(w.first) && Valid(w.last)
  {
    Window(Timestamp(y, m, 1, 0), Timestamp(y, m, DaysInMonth(y, m), TimeOfDay(23, 59, 59, 0)))
  }

  /** The month window with its end moved to the last millisecond, so that
      it covers the whole last second of the month. */
  function MonthWindow(y: int, m: int): (w: Window)
    requires 0 <= m < 12
    ensures Valid(w.first) && Valid(w.last)
  {
    Window(Timestamp(y, m, 1, 0), Timestamp(y, m, DaysInMonth(y, m), MillisPerDay - 1))
  }

  /** The dashboard's constructor calls `new Date(y, m, 1)` and
      `new Date(y, m + 1, 0, 23, 59, 59)` produce the source window: day 0 of
      the next month is the last day of this one, in the same year even for
      December. With 999 milliseconds added they produce `MonthWindow`. */
  lemma MonthWindowByConstructor(y: int, m: int)
    requires 0 <= m < 12
    ensures SourceMonthWindow(y, m) ==
            Window(MakeDate(y, m, 1, 0, 0, 0, 0), MakeDate(y, m + 1, 0, 23, 59, 59, 0))
    ensures MonthWindow(y, m) ==
            Window(MakeDate(y, m, 1, 0, 0, 0, 0), MakeDate(y, m + 1, 0, 23, 59, 59, 999))
  {
    var last := MakeDate(y, m + 1, 0, 23, 59, 59, 0);
    OrdinalInjective(last.year, last.month, y, m);
  }

  /** The window of a month holds exactly the instants of that month. */
  lemma MonthWindowExact(y: int, m: int, t: Timestamp)
    requires 0 <= m < 12 && Valid(t)
    ensures InWindow(t, MonthWindow(y, m)) <==> t.year == y && t.month == m
  {
  }

  /** The source's window never spills over: it ends before the first
      instant of the next month, and everything in it lies in month m. */
  lemma SourceMonthWindowWithinMonth(y: int, m: int, t: Timestamp)
    requires 0 <= m < 12
    ensures Before(SourceMonthWindow(y, m).last, MakeDate(y, m + 1, 1, 0, 0, 0, 0))
    ensures InWindow(t, SourceMonthWindow(y, m)) ==> t.year == y && t.month == m
  {
    var next := MakeDate(y, m + 1, 1, 0, 0, 0, 0);
    if m < 11 {
      OrdinalInjective(next.year, next.month, y, m + 1);
    } else {
      OrdinalInjective(next.year, next.month, y + 1, 0);
    }
  }

  /** Exactly what the source's window holds: the instants of month m
      except those after 23:59:59.000 on its last day. */
  lemma SourceMonthWindowExact(y: int, m: int, t: Timestamp)
    requires 0 <= m < 12 && Valid(t)
    ensures InWindow(t, SourceMonthWindow(y, m)) <==>
            t.year == y && t.month == m &&
            (t.day < DaysInMonth(y, m) || t.millis <= TimeOfDay(23, 59, 59, 0))
  {
  }

  /** The source's window misses the last second of the month: a valid
      instant at 23:59:59.500 on the last day is in month m but outside. */
  lemma SourceMonthWindowMissesLastSecond(y: int, m: int)
    requires 0 <= m < 12
    ensures var t := Timestamp(y, m, DaysInMonth(y, m), TimeOfDay(23, 59, 59, 500));
            Valid(t) && t.year == y && t.month == m && !InWindow(t, SourceMonthWindow(y, m))
  {
  }

  /** The twelve month lengths add up to the length of the year. */
  lemma YearLength(y: int)
    ensures DaysInMonth(y, 0) + DaysInMonth(y, 1) + DaysInMonth(y, 2) + DaysInMonth(y, 3) +
            DaysInMonth(y, 4) + DaysInMonth(y, 5) + DaysInMonth(y, 6) + DaysInMonth(y, 7) +
            DaysInMonth(y, 8) + DaysInMonth(y, 9) + DaysInMonth(y, 10) + DaysInMonth(y, 11) ==
            if IsLeapYear(y) then 366 else 365
  {
  }

  /** February has 29 days exactly in leap years, including the century
      exceptions. */
  lemma FebruaryLengths()
    ensures DaysInMonth(2024, 1) == 29 && DaysInMonth(2023, 1) == 28
    ensures DaysInMonth(1900, 1) == 28 && DaysInMonth(2000, 1) == 29
  {
    assert IsLeapYear(2024) && !IsLeapYear(2023);
    assert !IsLeapYear(1900) && IsLeapYear(2000);
  }
}
