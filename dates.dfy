/**
 * The part of Python's `datetime` and `calendar` semantics the schedule code
 * relies on: proleptic Gregorian dates as ordinals (day 1 is 0001-01-01, as
 * `date.toordinal()`), ISO weekdays, year/month/day conversion, and aware
 * datetimes with a fixed UTC offset.
 */
module Dates {

  const SecondsPerDay := 86400

  /** A day count and a clock time make one second count, and split back into both. */
  lemma {:induction false} SplitSeconds(days: int, clock: int)
    requires 0 <= clock < SecondsPerDay
    ensures (days * SecondsPerDay + clock) / SecondsPerDay == days
    ensures (days * SecondsPerDay + clock) % SecondsPerDay == clock
  {
  }

  /** `date.isoweekday()`: 1 is Monday, 7 is Sunday; ordinal 1 is a Monday. */
  function IsoWeekday(day: int): (w: int)
    ensures 1 <= w <= 7
  {
    (day + 6) % 7 + 1
  }

  lemma {:induction false} SevenConsecutiveDays(day: int, w: int)
    requires 1 <= w <= 7
    ensures 0 <= (w - IsoWeekday(day)) % 7 < 7
    ensures IsoWeekday(day + (w - IsoWeekday(day)) % 7) == w
  {
  }

  predicate IsLeap(year: int)
  {
    year % 4 == 0 && (year % 100 != 0 || year % 400 == 0)
  }

  function DaysInYear(year: int): int
  {
    if IsLeap(year) then 366 else 365
  }

  function DaysInMonth(year: int, month: int): (n: int)
    requires 1 <= month <= 12
    ensures 28 <= n <= 31
  {
    if month == 2 then (if IsLeap(year) then 29 else 28)
    else if month == 4 || month == 6 || month == 9 || month == 11 then 30
    else 31
  }

  /** Days before January 1st of `year`, as Python's `_days_before_year`. */
  function DaysBeforeYear(year: int): int
    requires year >= 1
  {
    var y := year - 1;
    y * 365 + y / 4 - y / 100 + y / 400
  }

  /** Days in `year` before the first of `month`, as Python's `_days_before_month`. */
  function DaysBeforeMonth(year: int, month: int): int
    requires 1 <= month <= 12
  {
    var table := [0, 31, 59, 90, 120, 151, 181, 212, 243, 273, 304, 334];
    table[month - 1] + (if month > 2 && IsLeap(year) then 1 else 0)
  }

  predicate ValidDate(year: int, month: int, day: int)
  {
    year >= 1 && 1 <= month <= 12 && 1 <= day <= DaysInMonth(year, month)
  }

  /** `date(year, month, day).toordinal()`, defined for any day number of the month. */
  function Ordinal(year: int, month: int, day: int): int
    requires year >= 1 && 1 <= month <= 12
  {
    DaysBeforeYear(year) + DaysBeforeMonth(year, month) + day
  }

  lemma {:induction false} Div4Step(y: int)
    ensures y / 4 - (y - 1) / 4 == if y % 4 == 0 then 1 else 0
  {
    var q, r := (y - 1) / 4, (y - 1) % 4;
    assert y == 4 * q + r + 1;
  }

  lemma {:induction false} Div100Step(y: int)
    ensures y / 100 - (y - 1) / 100 == if y % 100 == 0 then 1 else 0
  {
    var q, r := (y - 1) / 100, (y - 1) % 100;
    assert y == 100 * q + r + 1;
  }

  lemma {:induction false} Div400Step(y: int)
    ensures y / 400 - (y - 1) / 400 == if y % 400 == 0 then 1 else 0
  {
    var q, r := (y - 1) / 400, (y - 1) % 400;
    assert y == 400 * q + r + 1;
  }

  /** Each year contributes its own length to the day count. */
  lemma {:induction false} YearStep(year: int)
    requires year >= 1
    ensures DaysBeforeYear(year + 1) == DaysBeforeYear(year) + DaysInYear(year)
  {
    Div4Step(year);
    Div100Step(year);
    Div400Step(year);
    MultipleOfLarger(year);
    assert DaysBeforeYear(year + 1) - DaysBeforeYear(year) ==
      365 + (year / 4 - (year - 1) / 4) - (year / 100 - (year - 1) / 100) + (year / 400 - (year - 1) / 400);
  }

  /** A multiple of 400 is one of 100, and a multiple of 100 one of 4. */
  lemma {:induction false} MultipleOfLarger(y: int)
    ensures y % 400 == 0 ==> y % 100 == 0
    ensures y % 100 == 0 ==> y % 4 == 0
  {
    if y % 400 == 0 {
      Hundreds(y, 4 * (y / 400));
    }
    if y % 100 == 0 {
      Fours(y, 25 * (y / 100));
    }
  }

  lemma {:induction false} Hundreds(x: int, q: int)
    requires x == 100 * q
    ensures x % 100 == 0
  {
  }

  lemma {:induction false} Fours(x: int, q: int)
    requires x == 4 * q
    ensures x % 4 == 0
  {
  }

  lemma {:induction false} YearsIncrease(a: int, b: int)
    requires 1 <= a < b
    ensures DaysBeforeYear(a) + DaysInYear(a) <= DaysBeforeYear(b)
    decreases b - a
  {
    YearStep(a);
    if a + 1 < b {
      YearsIncrease(a + 1, b);
      YearStep(a + 1);
    }
  }

  /** The last day of a month is followed by the first of the next month. */
  lemma {:induction false} MonthStep(year: int, month: int)
    requires year >= 1 && 1 <= month <= 12
    ensures var (y, m) := NextMonth(year, month);
      Ordinal(year, month, DaysInMonth(year, month)) + 1 == Ordinal(y, m, 1)
  {
    if month == 12 {
      YearStep(year);
    }
  }

  /**
   * Four days after the 28th is always in the next month, on day 1 to 4
   * (the step `dataframe_to_html_calendar` uses to move month by month).
   */
  lemma {:induction false} TwentyEighthPlusFour(year: int, month: int)
    requires year >= 1 && 1 <= month <= 12
    ensures var (y, m) := NextMonth(year, month);
      YmdOf(Ordinal(year, month, 28) + 4) == (y, m, 32 - DaysInMonth(year, month))
  {
    var (y, m) := NextMonth(year, month);
    MonthStep(year, month);
    assert Ordinal(year, month, 28) + 4 == Ordinal(y, m, 32 - DaysInMonth(year, month));
    YmdOfOrdinal(y, m, 32 - DaysInMonth(year, month));
  }

  /** Months in order: `(year, month)` as a single count. */
  function MonthIndex(year: int, month: int): int
  {
    year * 12 + month
  }

  /** The month after `(year, month)` is the next one in the count. */
  lemma {:induction false} NextMonthIndex(year: int, month: int)
    requires 1 <= month <= 12
    ensures MonthIndex(NextMonth(year, month).0, NextMonth(year, month).1) == MonthIndex(year, month) + 1
  {
  }

  /** Distinct months have distinct counts. */
  lemma MonthIndexInjective(y: int, m: int, y2: int, m2: int)
    requires 1 <= m <= 12 && 1 <= m2 <= 12 && MonthIndex(y, m) == MonthIndex(y2, m2)
    ensures y == y2 && m == m2
  {
  }

  /** A later month starts on a later day, at least 28 days on. */
  lemma {:induction false} LaterMonthLaterStart(y: int, m: int, y2: int, m2: int)
    requires y >= 1 && 1 <= m <= 12 && y2 >= 1 && 1 <= m2 <= 12
    requires MonthIndex(y, m) < MonthIndex(y2, m2)
    ensures Ordinal(y, m, 1) + 28 <= Ordinal(y2, m2, 1)
    decreases MonthIndex(y2, m2) - MonthIndex(y, m)
  {
    var (ny, nm) := NextMonth(y, m);
    MonthStep(y, m);
    NextMonthIndex(y, m);
    assert Ordinal(y, m, 1) + 28 <= Ordinal(ny, nm, 1);
    if MonthIndex(ny, nm) < MonthIndex(y2, m2) {
      LaterMonthLaterStart(ny, nm, y2, m2);
    } else {
      MonthIndexInjective(ny, nm, y2, m2);
    }
  }

  function NextMonth(year: int, month: int): (r: (int, int))
    requires 1 <= month <= 12
    ensures 1 <= r.1 <= 12
    ensures r.0 == year || r.0 == year + 1
  {
    if month == 12 then (year + 1, 1) else (year, month + 1)
  }

  /** The year whose days hold ordinal `n`, searching upwards from `year`. */
  function YearOf(n: int, year: int): (y: int)
    requires year >= 1 && DaysBeforeYear(year) < n
    ensures y >= year
    ensures DaysBeforeYear(y) < n <= DaysBeforeYear(y) + DaysInYear(y)
    decreases n - DaysBeforeYear(year)
  {
    YearStep(year);
    if n <= DaysBeforeYear(year) + DaysInYear(year) then year else YearOf(n, year + 1)
  }

  /** The month of `year` holding day `pos` of the year (1-based), searching from `month`. */
  function MonthOf(year: int, pos: int, month: int): (m: int)
    requires year >= 1 && 1 <= month <= 12
    requires DaysBeforeMonth(year, month) < pos <= DaysInYear(year)
    ensures month <= m <= 12
    ensures DaysBeforeMonth(year, m) < pos <= DaysBeforeMonth(year, m) + DaysInMonth(year, m)
    decreases 12 - month
  {
    if month == 12 || pos <= DaysBeforeMonth(year, month) + DaysInMonth(year, month) then month
    else MonthOf(year, pos, month + 1)
  }

  /** `date.fromordinal(n)` as a (year, month, day) triple. */
  function YmdOf(n: int): (r: (int, int, int))
    requires n >= 1
    ensures ValidDate(r.0, r.1, r.2) && Ordinal(r.0, r.1, r.2) == n
  {
    var y := YearOf(n, 1);
    var m := MonthOf(y, n - DaysBeforeYear(y), 1);
    (y, m, n - DaysBeforeYear(y) - DaysBeforeMonth(y, m))
  }

  /** Ordinals name dates one-to-one: converting a valid date back gives it again. */
  lemma {:induction false} YmdOfOrdinal(year: int, month: int, day: int)
    requires ValidDate(year, month, day)
    ensures YmdOf(Ordinal(year, month, day)) == (year, month, day)
  {
    var n := Ordinal(year, month, day);
    var r := YmdOf(n);
    assert DaysBeforeMonth(year, month) + day <= DaysInYear(year);
    OneYearHolds(n, r.0, year);
    OneMonthHolds(year, n - DaysBeforeYear(year), r.1, month);
  }

  /** Only one year's days hold a given ordinal. */
  lemma {:induction false} OneYearHolds(n: int, y: int, year: int)
    requires y >= 1 && DaysBeforeYear(y) < n <= DaysBeforeYear(y) + DaysInYear(y)
    requires year >= 1 && DaysBeforeYear(year) < n <= DaysBeforeYear(year) + DaysInYear(year)
    ensures y == year
  {
    if y < year {
      YearsIncrease(y, year);
    } else if year < y {
      YearsIncrease(year, y);
    }
  }

  /** Only one month of a year holds a given day of that year. */
  lemma {:induction false} OneMonthHolds(year: int, pos: int, m: int, month: int)
    requires 1 <= m <= 12 && DaysBeforeMonth(year, m) < pos <= DaysBeforeMonth(year, m) + DaysInMonth(year, m)
    requires 1 <= month <= 12 && DaysBeforeMonth(year, month) < pos <= DaysBeforeMonth(year, month) + DaysInMonth(year, month)
    ensures m == month
  {
    if m < month {
      MonthsIncrease(year, m, month);
    } else if month < m {
      MonthsIncrease(year, month, m);
    }
  }

  lemma {:induction false} MonthsIncrease(year: int, a: int, b: int)
    requires 1 <= a < b <= 12
    ensures DaysBeforeMonth(year, a) + DaysInMonth(year, a) <= DaysBeforeMonth(year, b)
  {
  }

  /**
   * An aware `datetime` with a fixed UTC offset: `local` is the wall-clock time
   * in seconds since the start of ordinal day 0, `offset` the seconds east of UTC.
   */
  datatype DateTime = DateTime(local: int, offset: int) {

    /** `dt.date().toordinal()`: the wall-clock date. */
    function Date(): int { local / SecondsPerDay }

    /** Seconds since wall-clock midnight. */
    function TimeOfDay(): int { local % SecondsPerDay }

    /** The instant, in seconds on the UTC time line. */
    function Utc(): int { local - offset }

    /** `dt.astimezone(tz)` for a zone with the given offset. */
    function AsTimezone(target: int): (r: DateTime)
      ensures r.offset == target && r.Utc() == Utc()
    {
      DateTime(Utc() + target, target)
    }

    /** `dt.replace(hour=.., minute=.., second=..)`: same date and offset, new clock time. */
    function ReplaceTime(timeOfDay: int): (r: DateTime)
      requires 0 <= timeOfDay < SecondsPerDay
      ensures r.offset == offset && r.Date() == Date() && r.TimeOfDay() == timeOfDay
    {
      DateTime(Date() * SecondsPerDay + timeOfDay, offset)
    }

    /** `dt + timedelta(seconds=s)`: wall-clock arithmetic keeping the offset. */
    function AddSeconds(s: int): (r: DateTime)
      ensures r.offset == offset && r.Utc() == Utc() + s
    {
      DateTime(local + s, offset)
    }

    /** `dt.replace(day=d)`: the same year, month and clock time on day `d`. */
    function ReplaceDay(day: int): (r: DateTime)
      requires Date() >= 1 && 1 <= day <= DaysInMonth(YmdOf(Date()).0, YmdOf(Date()).1)
      ensures r.offset == offset && r.TimeOfDay() == TimeOfDay()
      ensures r.Date() == Ordinal(YmdOf(Date()).0, YmdOf(Date()).1, day)
    {
      AddDays(day - YmdOf(Date()).2)
    }

    /** `self + timedelta(days=k)`: same wall-clock time, `k` dates later. */
    function AddDays(k: int): (r: DateTime)
      ensures r.offset == offset && r.Utc() == Utc() + k * SecondsPerDay
      ensures r.Date() == Date() + k && r.TimeOfDay() == TimeOfDay()
    {
      var q, m := local / SecondsPerDay, local % SecondsPerDay;
      assert local + k * SecondsPerDay == (q + k) * SecondsPerDay + m;
      SplitSeconds(q + k, m);
      DateTime(local + k * SecondsPerDay, offset)
    }
  }

  /** A wall-clock time is fixed by its date, its time of day and its offset. */
  lemma SameDateAndClock(a: DateTime, b: DateTime)
    requires a.Date() == b.Date() && a.TimeOfDay() == b.TimeOfDay() && a.offset == b.offset
    ensures a == b
  {
    assert a.local == a.Date() * SecondsPerDay + a.TimeOfDay();
    assert b.local == b.Date() * SecondsPerDay + b.TimeOfDay();
  }

  /** `datetime.combine(date, time).replace(tzinfo=..)`. */
  function Combine(date: int, timeOfDay: int, offset: int): (r: DateTime)
    requires 0 <= timeOfDay < SecondsPerDay
    ensures r.Date() == date && r.TimeOfDay() == timeOfDay && r.offset == offset
  {
    SplitSeconds(date, timeOfDay);
    DateTime(date * SecondsPerDay + timeOfDay, offset)
  }

  /** `a < b` on aware datetimes compares instants. */
  predicate Before(a: DateTime, b: DateTime)
  {
    a.Utc() < b.Utc()
  }
}
