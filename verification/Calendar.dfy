/**
 UTC calendar arithmetic, after sections 21.4.1 (time values) and 21.4.3.4 (Date.UTC) of ECMA-262. Instants are
 milliseconds since 1970-01-01T00:00Z.
 */
module Calendar {
  const MS_PER_DAY: int := 86_400_000

  // ─── Days, years and months ───────────────────────────────────────────────

  function Day(t: int): int {
    t / MS_PER_DAY
  }

  function DayFromYear(y: int): int {
    365 * (y - 1970) + (y - 1969) / 4 - (y - 1901) / 100 + (y - 1601) / 400
  }

  predicate Leap(y: int) {
    y % 4 == 0 && (y % 100 != 0 || y % 400 == 0)
  }

  /** Days before month m (0-based) of a common or leap year; m == 12 gives the whole year. */
  function DaysBefore(m: int, leap: bool): int
    requires 0 <= m <= 12
  {
    var bump := if leap && m >= 2 then 1 else 0;
    bump +
    if m == 0 then 0 else if m == 1 then 31 else if m == 2 then 59 else if m == 3 then 90
    else if m == 4 then 120 else if m == 5 then 151 else if m == 6 then 181 else if m == 7 then 212
    else if m == 8 then 243 else if m == 9 then 273 else if m == 10 then 304 else if m == 11 then 334
    else 365
  }

  /** The first day of month k, counting months from January of year 0. */
  function MonthStart(k: int): int {
    DayFromYear(k / 12) + DaysBefore(k % 12, Leap(k / 12))
  }

  /** The year whose days include d, searched from y. */
  function YearFrom(d: int, y: int): (r: int)
    ensures DayFromYear(r) <= d < DayFromYear(r + 1)
    decreases if d < DayFromYear(y) then DayFromYear(y) - d + 1000 else d - DayFromYear(y)
  {
    if d < DayFromYear(y) then
      YearFrom(d, y - 1)
    else if DayFromYear(y + 1) <= d then
      YearFrom(d, y + 1)
    else
      y
  }

  function YearOfDay(d: int): int {
    YearFrom(d, 1970)
  }

  /** The month (0-based) of day n of a year. */
  function MonthWithin(n: int, leap: bool): (m: int)
    requires 0 <= n < 365 + (if leap then 1 else 0)
    ensures 0 <= m < 12 && DaysBefore(m, leap) <= n < DaysBefore(m + 1, leap)
  {
    if n < DaysBefore(1, leap) then 0 else if n < DaysBefore(2, leap) then 1
    else if n < DaysBefore(3, leap) then 2 else if n < DaysBefore(4, leap) then 3
    else if n < DaysBefore(5, leap) then 4 else if n < DaysBefore(6, leap) then 5
    else if n < DaysBefore(7, leap) then 6 else if n < DaysBefore(8, leap) then 7
    else if n < DaysBefore(9, leap) then 8 else if n < DaysBefore(10, leap) then 9
    else if n < DaysBefore(11, leap) then 10 else 11
  }

  /** The month number, from January of year 0, that day d falls in. */
  function MonthIndex(d: int): int {
    hide DayFromYear, Leap;
    var y := YearOfDay(d);
    YearLength(y);
    12 * y + MonthWithin(d - DayFromYear(y), Leap(y))
  }

  function UTCFullYear(t: int): int { YearOfDay(Day(t)) }
  function UTCMonth(t: int): int { MonthIndex(Day(t)) % 12 }
  function UTCDate(t: int): int { Day(t) - MonthStart(MonthIndex(Day(t))) + 1 }
  function UTCDay(t: int): int { (Day(t) + 4) % 7 }

  /** MakeDay: months may be negative or past December, days may be past the month's end. */
  function MakeDay(y: int, m: int, date: int): int {
    DayFromYear(y + m / 12) + DaysBefore(m % 12, Leap(y + m / 12)) + date - 1
  }

  /** The years Date.UTC takes as they are. */
  predicate Ordinary(year: int) {
    !(0 <= year <= 99)
  }

  /** Date.UTC, including its reading of years 0 to 99 as 1900 to 1999. */
  function DateUTC(y: int, m: int, date: int): int {
    MakeDay(if Ordinary(y) then y else 1900 + y, m, date) * MS_PER_DAY
  }

  // ─── Laws of the month sequence ───────────────────────────────────────────

  /** Floor division steps by one exactly at the multiples of the divisor (4, 100 and 400 here). */
  lemma DivisionSteps(y: int)
    ensures (y - 1968) / 4 == (y - 1969) / 4 + (if y % 4 == 0 then 1 else 0)
    ensures (y - 1900) / 100 == (y - 1901) / 100 + (if y % 100 == 0 then 1 else 0)
    ensures (y - 1600) / 400 == (y - 1601) / 400 + (if y % 400 == 0 then 1 else 0)
  {
    StepBy4(y - 1968, 492);
    StepBy100(y - 1900, 19);
    StepBy400(y - 1600, 4);
  }

  lemma StepBy4(n: int, k: int)
    ensures n / 4 == (n - 1) / 4 + (if (n + 4 * k) % 4 == 0 then 1 else 0)
  {
  }

  lemma StepBy100(n: int, k: int)
    ensures n / 100 == (n - 1) / 100 + (if (n + 100 * k) % 100 == 0 then 1 else 0)
  {
  }

  lemma StepBy400(n: int, k: int)
    ensures n / 400 == (n - 1) / 400 + (if (n + 400 * k) % 400 == 0 then 1 else 0)
  {
  }

  lemma YearLength(y: int)
    ensures DayFromYear(y + 1) == DayFromYear(y) + 365 + (if Leap(y) then 1 else 0)
  {
    DivisionSteps(y);
    CenturyYears(y);
  }

  lemma CenturyYears(y: int)
    ensures y % 400 == 0 ==> y % 100 == 0
    ensures y % 100 == 0 ==> y % 4 == 0
  {
  }

  lemma MonthParts(y: int, m: int)
    requires 0 <= m < 12
    ensures (12 * y + m) / 12 == y && (12 * y + m) % 12 == m
    ensures MonthStart(12 * y + m) == DayFromYear(y) + DaysBefore(m, Leap(y))
    ensures MonthStart(12 * y + m + 1) == DayFromYear(y) + DaysBefore(m + 1, Leap(y))
  {
    YearLength(y);
    if m == 11 {
      assert (12 * y + 12) / 12 == y + 1 && (12 * y + 12) % 12 == 0;
    } else {
      assert (12 * y + m + 1) / 12 == y && (12 * y + m + 1) % 12 == m + 1;
    }
  }

  /** The Gregorian month lengths, with February's leap day. */
  function Length(leap: bool, m: int): int {
    if m == 1 then (if leap then 29 else 28) else if m == 3 || m == 5 || m == 8 || m == 10 then 30 else 31
  }

  lemma DaysOfMonth(leap: bool, m: int)
    requires 0 <= m < 12
    ensures DaysBefore(m + 1, leap) == DaysBefore(m, leap) + Length(leap, m)
  {
  }

  /** Day 0 starts January 1970, and every month is as long as it should be: that leaves one sequence of months. */
  lemma MonthsAreGregorian(y: int, m: int)
    requires 0 <= m < 12
    ensures MonthStart(12 * 1970) == 0
    ensures MonthStart(12 * y + m + 1) == MonthStart(12 * y + m) + Length((y % 4 == 0 && y % 100 != 0) || y % 400 == 0, m)
  {
    hide DayFromYear, MonthStart, DaysBefore, Length;
    MonthParts(y, m);
    CenturyYears(y);
    DaysOfMonth(Leap(y), m);
    EpochStarts();
  }

  lemma EpochStarts()
    ensures MonthStart(12 * 1970) == 0
  {
  }

  /** The first day was a Thursday, and the week goes round in seven days of 24 hours. */
  lemma WeekGoesRound(t: int)
    ensures UTCDay(0) == 4 && UTCDay(t + 24 * 60 * 60 * 1000) == if UTCDay(t) == 6 then 0 else UTCDay(t) + 1
  {
    NextDay(t);
    NextWeekday(Day(t));
  }

  lemma NextDay(t: int)
    ensures Day(t + 86_400_000) == Day(t) + 1
  {
    assert (t + 86_400_000) / 86_400_000 == t / 86_400_000 + 1;
  }

  lemma NextWeekday(d: int)
    ensures (d + 1 + 4) % 7 == if (d + 4) % 7 == 6 then 0 else (d + 4) % 7 + 1
  {
  }

  lemma MonthLength(k: int)
    ensures MonthStart(k) + 28 <= MonthStart(k + 1) <= MonthStart(k) + 31
  {
    hide DayFromYear, Leap;
    MonthParts(k / 12, k % 12);
  }

  lemma {:induction false} MonthsIncrease(i: int, j: int)
    requires i <= j
    ensures MonthStart(i) + 28 * (j - i) <= MonthStart(j)
    decreases j - i
  {
    hide MonthStart;
    if i < j {
      MonthLength(i);
      MonthsIncrease(i + 1, j);
    }
  }

  lemma MonthIndexBounds(d: int)
    ensures MonthIndex(d) / 12 == YearOfDay(d)
    ensures MonthStart(MonthIndex(d)) <= d < MonthStart(MonthIndex(d) + 1)
  {
    hide DayFromYear, Leap, MonthStart, DaysBefore;
    var y := YearOfDay(d);
    YearLength(y);
    MonthParts(y, MonthWithin(d - DayFromYear(y), Leap(y)));
  }

  /** A day lies in the window of exactly one month. */
  lemma MonthIndexUnique(d: int, k: int)
    ensures MonthIndex(d) == k <==> MonthStart(k) <= d < MonthStart(k + 1)
  {
    hide MonthStart, MonthIndex;
    var m := MonthIndex(d);
    MonthIndexBounds(d);
    if m < k {
      MonthsIncrease(m + 1, k);
    } else if k < m {
      MonthsIncrease(k + 1, m);
    }
  }

  lemma {:induction false} MonthsSpan(i: int, j: int)
    requires i <= j
    ensures MonthStart(j) <= MonthStart(i) + 31 * (j - i)
    decreases j - i
  {
    hide MonthStart;
    if i < j {
      MonthLength(i);
      MonthsSpan(i + 1, j);
    }
  }

  lemma MonthOfStart(k: int)
    ensures UTCFullYear(MonthStart(k) * MS_PER_DAY) == k / 12 && UTCMonth(MonthStart(k) * MS_PER_DAY) == k % 12
  {
    hide MonthStart, MonthIndex, YearOfDay;
    MonthLength(k);
    MonthIndexUnique(MonthStart(k), k);
    MonthIndexBounds(MonthStart(k));
    assert Day(MonthStart(k) * MS_PER_DAY) == MonthStart(k);
  }

  lemma MakeDayIsMonthStart(y: int, m: int, date: int)
    ensures MakeDay(y, m, date) == MonthStart(12 * y + m) + date - 1
  {
    assert (12 * y + m) / 12 == y + m / 12 && (12 * y + m) % 12 == m % 12;
  }

  /** Date.UTC gives the day its fields name exactly for ordinary years, and otherwise one some 1900 years later. */
  lemma DateUTCShift(y: int, m: int, date: int)
    ensures Ordinary(y) ==> DateUTC(y, m, date) == MakeDay(y, m, date) * MS_PER_DAY
    ensures !Ordinary(y) ==> DateUTC(y, m, date) >= (MakeDay(y, m, date) + 28 * 12 * 1900) * MS_PER_DAY
  {
    hide MonthStart, MakeDay;
    if !Ordinary(y) {
      MakeDayIsMonthStart(y, m, date);
      MakeDayIsMonthStart(1900 + y, m, date);
      MonthsIncrease(12 * y + m, 12 * (1900 + y) + m);
    }
  }

  /** Years 0 to 99 are read as 1900 to 1999, and no others. */
  lemma CenturyIsRead(y: int, m: int, date: int)
    ensures DateUTC(y, m, date) == MakeDay(if y < 0 || y > 99 then y else y + 1900, m, date) * (24 * 60 * 60 * 1000)
  {
    hide MakeDay;
  }

  lemma FieldsOf(t: int)
    ensures MonthIndex(Day(t)) == 12 * UTCFullYear(t) + UTCMonth(t)
    ensures 0 <= UTCMonth(t) < 12
  {
    hide MonthStart, MonthIndex;
    MonthIndexBounds(Day(t));
  }

  /**
   Stepping the date field of t by n, as every day loop of the code does, gives the midnight n days on,
   unless the year is one Date.UTC reinterprets.
   */
  lemma DateUTCSteps(t: int, n: int)
    requires Ordinary(UTCFullYear(t))
    ensures DateUTC(UTCFullYear(t), UTCMonth(t), UTCDate(t) + n) == (Day(t) + n) * MS_PER_DAY
  {
    hide MonthStart, MonthIndex, MakeDay;
    FieldsOf(t);
    MakeDayIsMonthStart(UTCFullYear(t), UTCMonth(t), UTCDate(t) + n);
  }

  lemma YearsFrom1970(t: int)
    requires 0 <= t
    ensures 1970 <= UTCFullYear(t)
  {
    var y := UTCFullYear(t);
    if y < 1970 {
      YearsIncrease(y + 1, 1970);
    }
  }

  lemma {:induction false} YearsIncrease(i: int, j: int)
    requires i <= j
    ensures DayFromYear(i) + 365 * (j - i) <= DayFromYear(j)
    decreases j - i
  {
    if i < j {
      YearLength(i);
      YearsIncrease(i + 1, j);
    }
  }
}
