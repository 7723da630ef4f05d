/**
 * Gregorian calendar arithmetic as `Date` performs it for the calendar page:
 * month lengths (`new Date(y, m + 1, 0).getDate()`), the weekday of a date
 * (`getDay()`, 0 = Sunday), month navigation with year roll-over
 * (`new Date(y, m ± 1)`), and the `YYYY-MM-DD` keys under which events are
 * stored.  Dates are counted in days since 1970-01-01, the epoch `Date` uses.
 */
module CalendarDates {
  import opened Wrappers
  import opened Text

  /** A month index as `getMonth()` returns it: 0 is January, 11 December. */
  type Month = m: int | 0 <= m < 12

  /** A year and month, the part of `currentDate` the calendar page reads. */
  datatype YearMonth = YearMonth(year: int, month: Month)

  predicate IsLeap(year: int) {
    year % 4 == 0 && (year % 100 != 0 || year % 400 == 0)
  }

  /** `getDaysInMonth`: the day before the first of the next month is this month's last day. */
  function DaysInMonth(year: int, month: Month): (r: int)
    ensures 28 <= r <= 31
  {
    if month == 1 then (if IsLeap(year) then 29 else 28)
    else if month == 3 || month == 5 || month == 8 || month == 10 then 30
    else 31
  }

  /** Days in the months of `year` before `month`. */
  function DaysBeforeMonth(year: int, month: int): (r: int)
    requires 0 <= month <= 12
    ensures 28 * month <= r <= 31 * month
  {
    if month == 0 then 0 else DaysBeforeMonth(year, month - 1) + DaysInMonth(year, month - 1)
  }

  /** Only February depends on the year, and a leap year has one day more. */
  lemma YearLength(year: int)
    ensures DaysBeforeMonth(year, 12) == if IsLeap(year) then 366 else 365
  {
    var feb := DaysInMonth(year, 1);
    assert DaysBeforeMonth(year, 2) == 31 + feb;
    assert DaysBeforeMonth(year, 4) == 31 + feb + 31 + 30;
    assert DaysBeforeMonth(year, 6) == 31 + feb + 31 + 30 + 31 + 30;
    assert DaysBeforeMonth(year, 8) == 31 + feb + 31 + 30 + 31 + 30 + 31 + 31;
    assert DaysBeforeMonth(year, 10) == 31 + feb + 31 + 30 + 31 + 30 + 31 + 31 + 30 + 31;
  }

  /** Leap years among 1..`year` (and the matching negative count before year 1). */
  function LeapsThrough(year: int): int {
    year / 4 - year / 100 + year / 400
  }

  lemma DivUnique(a: int, k: int, q: int, r: int)
    requires k > 0 && 0 <= r < k && a == q * k + r
    ensures a / k == q && a % k == r
  {
    var q' := a / k;
    var r' := a % k;
    assert (q - q') * k == r' - r;
    if q - q' >= 1 {
      MulAtLeast(q - q', k);
    } else if q' - q >= 1 {
      MulAtLeast(q' - q, k);
    }
  }

  lemma MulAtLeast(m: int, k: int)
    requires m >= 1 && k > 0
    ensures m * k >= k
  {
    assert m * k == k + (m - 1) * k;
  }

  /** Moving from `a - 1` to `a` raises `a / k` by one exactly when `k` divides `a`. */
  lemma FloorStep(a: int, k: int)
    requires k > 0
    ensures a / k - (a - 1) / k == if a % k == 0 then 1 else 0
  {
    var q := (a - 1) / k;
    var r := (a - 1) % k;
    if r == k - 1 {
      DivUnique(a, k, q + 1, 0);
    } else {
      DivUnique(a, k, q, r + 1);
    }
  }

  lemma LeapStep(year: int)
    ensures LeapsThrough(year) - LeapsThrough(year - 1) == if IsLeap(year) then 1 else 0
  {
    FloorStep(year, 4);
    FloorStep(year, 100);
    FloorStep(year, 400);
    if year % 100 == 0 {
      DivUnique(year, 4, year / 100 * 25, 0);
    }
    if year % 400 == 0 {
      DivUnique(year, 100, year / 400 * 4, 0);
    }
  }

  /** The day number of January 1st of `year`. */
  function YearStart(year: int): int {
    365 * year + LeapsThrough(year - 1) - 719527
  }

  /** A year is as long as its months together. */
  lemma NextYearStarts(year: int)
    ensures YearStart(year + 1) == YearStart(year) + DaysBeforeMonth(year, 12)
  {
    LeapStep(year);
    YearLength(year);
  }

  /**
   * Days since 1970-01-01 of day `day` of `month` (day 0 is the last day of the
   * previous month, as `new Date(y, m, 0)` reads it).
   */
  function EpochDay(year: int, month: Month, day: int): int {
    YearStart(year) + DaysBeforeMonth(year, month) + day - 1
  }

  /** `getDay()`: 0 is Sunday; 1970-01-01 was a Thursday. */
  function Weekday(year: int, month: Month, day: int): (r: int)
    ensures 0 <= r < 7
  {
    (EpochDay(year, month, day) + 4) % 7
  }

  /** The epoch is day 0, a Thursday, and the page's opening date, 2026-01-23, a Friday. */
  lemma KnownDates()
    ensures EpochDay(1970, 0, 1) == 0 && Weekday(1970, 0, 1) == 4
    ensures Weekday(2026, 0, 23) == 5
  {
    assert LeapsThrough(1969) == 477;
    assert LeapsThrough(2025) == 491;
  }

  /** `getFirstDayOfMonth`: the weekday of the first of the month. */
  function FirstDayOfMonth(ym: YearMonth): (r: int)
    ensures 0 <= r < 7
  {
    Weekday(ym.year, ym.month, 1)
  }

  /** Months counted from January of year 0, the order in which navigation walks them. */
  function MonthIndex(ym: YearMonth): int {
    ym.year * 12 + ym.month
  }

  /** `new Date(year, month)` for any month number: months past either end roll into the neighbouring years. */
  function MakeMonth(year: int, month: int): (r: YearMonth)
    ensures MonthIndex(r) == year * 12 + month
  {
    YearMonth(year + month / 12, month % 12)
  }

  /** The month index names a month uniquely. */
  lemma MonthIndexInjective(a: YearMonth, b: YearMonth)
    requires MonthIndex(a) == MonthIndex(b)
    ensures a == b
  {
    DivUnique(MonthIndex(a), 12, a.year, a.month);
    DivUnique(MonthIndex(b), 12, b.year, b.month);
  }

  /** `handleNextMonth`. */
  function NextMonth(ym: YearMonth): (r: YearMonth)
    ensures MonthIndex(r) == MonthIndex(ym) + 1
    ensures r.year == if ym.month == 11 then ym.year + 1 else ym.year
  {
    DivUnique(ym.month + 1, 12, if ym.month == 11 then 1 else 0, if ym.month == 11 then 0 else ym.month + 1);
    MakeMonth(ym.year, ym.month + 1)
  }

  /** `handlePrevMonth`. */
  function PrevMonth(ym: YearMonth): (r: YearMonth)
    ensures MonthIndex(r) == MonthIndex(ym) - 1
    ensures r.year == if ym.month == 0 then ym.year - 1 else ym.year
  {
    DivUnique(ym.month - 1, 12, if ym.month == 0 then -1 else 0, if ym.month == 0 then 11 else ym.month - 1);
    MakeMonth(ym.year, ym.month - 1)
  }

  /** Going forward a month and back again (or back and forward) returns to the same month. */
  lemma NavigationRoundTrip(ym: YearMonth)
    ensures PrevMonth(NextMonth(ym)) == ym
    ensures NextMonth(PrevMonth(ym)) == ym
  {
    MonthIndexInjective(PrevMonth(NextMonth(ym)), ym);
    MonthIndexInjective(NextMonth(PrevMonth(ym)), ym);
  }

  /** What `getDaysInMonth` relies on: day 0 of the next month is the last day of this one. */
  lemma LastDayOfMonth(ym: YearMonth)
    ensures EpochDay(NextMonth(ym).year, NextMonth(ym).month, 0)
         == EpochDay(ym.year, ym.month, DaysInMonth(ym.year, ym.month))
  {
    if ym.month == 11 {
      NextYearStarts(ym.year);
    }
  }

  lemma ModShift(a: int, b: int)
    ensures (a % 7 + b) % 7 == (a + b) % 7
  {
    DivUnique(a, 7, a / 7, a % 7);
    var q := (a % 7 + b) / 7;
    var r := (a % 7 + b) % 7;
    DivUnique(a + b, 7, a / 7 + q, r);
  }

  /** Day `day` of the month falls `day - 1` weekdays after the first. */
  lemma WeekdayOfDay(ym: YearMonth, day: int)
    ensures Weekday(ym.year, ym.month, day) == (FirstDayOfMonth(ym) + day - 1) % 7
  {
    ModShift(EpochDay(ym.year, ym.month, 1) + 4, day - 1);
  }

  // ---------------------------------------------------------------------------
  // `YYYY-MM-DD` keys

  /** A date as its parts: a year, a month index (0-based) and a day of the month. */
  datatype Ymd = Ymd(year: int, month: int, day: int)

  /** The key `handleDateClick` and `getEventForDate` build: year, then month and day padded to two digits. */
  function DateKey(ym: YearMonth, day: nat): (key: string) {
    Join([IntToString(ym.year), Pad2(ym.month + 1), Pad2(day)], '-')
  }

  /** Reads a `YYYY-MM-DD` key back into its parts; `None` for text of another shape. */
  function ParseDateKey(key: string): (r: Option<Ymd>)
    ensures r.Some? ==> r.value.year >= 0 && r.value.month >= -1 && r.value.day >= 0
  {
    var parts := Split(key, '-');
    if |parts| == 3 && parts[0] != "" && parts[1] != "" && parts[2] != ""
      && AllDigits(parts[0]) && AllDigits(parts[1]) && AllDigits(parts[2])
    then Some(Ymd(DigitsValue(parts[0]), DigitsValue(parts[1]) - 1, DigitsValue(parts[2])))
    else None
  }

  lemma DigitsHaveNoDash(s: string)
    requires AllDigits(s)
    ensures '-' !in s
  {
  }

  /** A key of a date in year 0 or later reads back as the date it was built from. */
  lemma DateKeyRoundTrip(ym: YearMonth, day: nat)
    requires ym.year >= 0
    ensures ParseDateKey(DateKey(ym, day)) == Some(Ymd(ym.year, ym.month, day))
  {
    IntToStringReadsBack(ym.year);
    KeyReadsBack(DateKey(ym, day), IntToString(ym.year), Pad2(ym.month + 1), Pad2(day), ym.year, ym.month, day);
  }

  lemma KeyReadsBack(key: string, y: string, m: string, d: string, year: int, month: int, day: int)
    requires key == Join([y, m, d], '-')
    requires y != "" && m != "" && d != "" && AllDigits(y) && AllDigits(m) && AllDigits(d)
    requires DigitsValue(y) == year && DigitsValue(m) == month + 1 && DigitsValue(d) == day
    ensures ParseDateKey(key) == Some(Ymd(year, month, day))
  {
    ParseThreeFields(y, m, d);
  }

  /** Three non-empty digit fields joined by dashes read back as those fields. */
  lemma ParseThreeFields(y: string, m: string, d: string)
    requires y != "" && m != "" && d != "" && AllDigits(y) && AllDigits(m) && AllDigits(d)
    ensures ParseDateKey(Join([y, m, d], '-')) == Some(Ymd(DigitsValue(y), DigitsValue(m) - 1, DigitsValue(d)))
  {
    var parts := [y, m, d];
    DigitsHaveNoDash(y);
    DigitsHaveNoDash(m);
    DigitsHaveNoDash(d);
    SplitJoin(parts, '-');
  }

  /** Different days of years 0 and later get different keys, so a key names one day. */
  lemma DateKeyInjective(a: YearMonth, da: nat, b: YearMonth, db: nat)
    requires a.year >= 0 && b.year >= 0
    requires DateKey(a, da) == DateKey(b, db)
    ensures a == b && da == db
  {
    DateKeyRoundTrip(a, da);
    DateKeyRoundTrip(b, db);
  }

  /** A real date of the calendar: a month index and a day that month has. */
  predicate IsCalendarDate(d: Ymd) {
    0 <= d.month < 12 && 1 <= d.day <= DaysInMonth(d.year, d.month)
  }

  /**
   * `new Date(key).getTime()` in days: the day a well-formed key names, and 0
   * for text that does not name a calendar date.
   */
  function KeyDay(key: string): int {
    match ParseDateKey(key)
    case Some(d) => if IsCalendarDate(d) then EpochDay(d.year, d.month, d.day) else 0
    case None => 0
  }

  /** On the keys the page builds, later dates have larger day numbers. */
  lemma KeyDayOrder(a: YearMonth, da: nat, b: YearMonth, db: nat)
    requires a.year >= 0 && b.year >= 0
    requires 1 <= da <= DaysInMonth(a.year, a.month) && 1 <= db <= DaysInMonth(b.year, b.month)
    ensures KeyDay(DateKey(a, da)) == EpochDay(a.year, a.month, da)
    ensures KeyDay(DateKey(b, db)) == EpochDay(b.year, b.month, db)
    ensures MonthIndex(a) < MonthIndex(b) ==> KeyDay(DateKey(a, da)) < KeyDay(DateKey(b, db))
  {
    KeyDayOfKey(a, da);
    KeyDayOfKey(b, db);
    if MonthIndex(a) < MonthIndex(b) {
      DaysOrdered(a, da, b, db);
    }
  }

  /** A key the page builds for a real date reads as that date's day number. */
  lemma KeyDayOfKey(ym: YearMonth, day: nat)
    requires ym.year >= 0 && 1 <= day <= DaysInMonth(ym.year, ym.month)
    ensures KeyDay(DateKey(ym, day)) == EpochDay(ym.year, ym.month, day)
  {
    DateKeyRoundTrip(ym, day);
    assert IsCalendarDate(Ymd(ym.year, ym.month, day));
  }

  lemma DaysOrdered(a: YearMonth, da: nat, b: YearMonth, db: nat)
    requires MonthIndex(a) < MonthIndex(b)
    requires da <= DaysInMonth(a.year, a.month) && 1 <= db
    ensures EpochDay(a.year, a.month, da) < EpochDay(b.year, b.month, db)
  {
    MonthsOrdered(a, b);
  }

  /** Every day of an earlier month comes before the first of a later one. */
  lemma {:induction false} MonthsOrdered(a: YearMonth, b: YearMonth)
    requires MonthIndex(a) < MonthIndex(b)
    ensures EpochDay(a.year, a.month, DaysInMonth(a.year, a.month)) < EpochDay(b.year, b.month, 1)
    decreases MonthIndex(b) - MonthIndex(a)
  {
    var n := NextMonth(a);
    LastDayOfMonth(a);
    if MonthIndex(n) < MonthIndex(b) {
      MonthsOrdered(n, b);
    } else {
      MonthIndexInjective(n, b);
    }
  }
}
