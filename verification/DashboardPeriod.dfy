/** dashboard-period.util.ts and DashboardService.enumerateDayStrings: the resolved UTC windows tile time. */
module DashboardPeriod {
  import opened Common
  import opened Calendar

  datatype PeriodType = Today | Week | Month | Quarter | Year

  datatype Period = Period(kind: PeriodType, start: int, end: int)

  /** None stands for an omitted or unrecognised request, which falls back to the month. */
  function ResolvePeriod(requested: Option<PeriodType>, now: int): Period {
    var kind := if requested.Some? then requested.value else Month;
    var y, m, d := UTCFullYear(now), UTCMonth(now), UTCDate(now);
    match kind
    case Today =>
      Period(kind, DateUTC(y, m, d), DateUTC(y, m, d + 1))
    case Week =>
      var isoDayOfWeek := if UTCDay(now) == 0 then 7 else UTCDay(now);
      var mondayOffset := isoDayOfWeek - 1;
      Period(kind, DateUTC(y, m, d - mondayOffset), DateUTC(y, m, d - mondayOffset + 7))
    case Month =>
      Period(kind, DateUTC(y, m, 1), DateUTC(y, m + 1, 1))
    case Quarter =>
      var first := m / 3 * 3;
      Period(kind, DateUTC(y, first, 1), DateUTC(y, first + 3, 1))
    case Year =>
      Period(kind, DateUTC(y, 0, 1), DateUTC(y + 1, 0, 1))
  }

  /** The calendar month whose finance figures a period shows: that of its start. */
  function ToFinanceYearMonth(p: Period): (int, int) {
    (UTCFullYear(p.start), UTCMonth(p.start) + 1)
  }

  /** Nothing asked for is a month; the finance month of a period is the one its first day lies in. */
  lemma DefaultAndFinanceMonth(p: Period, now: int)
    ensures ResolvePeriod(None, now) == ResolvePeriod(Some(Month), now)
    ensures var (year, month) := ToFinanceYearMonth(p);
            1 <= month <= 12 && MonthStart(12 * year + month - 1) <= Day(p.start) < MonthStart(12 * year + month)
  {
    hide MonthStart, MonthIndex, DateUTC;
    FieldsOf(p.start);
    MonthIndexBounds(Day(p.start));
  }

  // ─── The windows as whole days ────────────────────────────────────────────

  /** Months per block of a month-based period, and the block's first month. */
  function BlockLength(kind: PeriodType): int {
    match kind case Quarter => 3 case Year => 12 case _ => 1
  }

  function BlockStart(kind: PeriodType, k: int): int {
    match kind case Quarter => k / 3 * 3 case Year => k / 12 * 12 case _ => k
  }

  /** An independent reading of each window: the days [first, past) around day d. */
  function WindowDays(kind: PeriodType, d: int): (int, int) {
    match kind
    case Today => (d, d + 1)
    case Week => (d - (d + 3) % 7, d - (d + 3) % 7 + 7)
    case _ =>
      var first := BlockStart(kind, MonthIndex(d));
      (MonthStart(first), MonthStart(first + BlockLength(kind)))
  }

  /** What a window may be: a day; the seven days from a Monday; or whole months. */
  predicate IsWindow(kind: PeriodType, first: int, past: int) {
    match kind
    case Today => past == first + 1
    case Week => past == first + 7 && UTCDay(first * MS_PER_DAY) == 1
    case Month => IsBlock(first, past, 1)
    case Quarter => IsBlock(first, past, 3)
    case Year => IsBlock(first, past, 12)
  }

  /** So many months from the first of a month whose number they divide: a January, April, July or October for three. */
  predicate IsBlock(first: int, past: int, months: int)
    requires months > 0
  {
    && first == MonthStart(MonthIndex(first)) && MonthIndex(first) % months == 0
    && past == MonthStart(MonthIndex(first) + months)
  }

  lemma WindowsAre(kind: PeriodType, d: int)
    ensures var (first, past) := WindowDays(kind, d); first <= d < past && IsWindow(kind, first, past)
  {
    hide MonthStart, MonthIndex, UTCDay;
    if kind in {Month, Quarter, Year} {
      BlockAround(kind, d);
    } else {
      WeekAround(d);
    }
  }

  lemma WeekAround(d: int)
    ensures var first := d - (d + 3) % 7; first <= d < first + 7 && UTCDay(first * MS_PER_DAY) == 1
  {
    var first := d - (d + 3) % 7;
    assert Day(first * MS_PER_DAY) == first;
    MondayFirst(d);
  }

  lemma MondayFirst(d: int)
    ensures (d - (d + 3) % 7 + 4) % 7 == 1
  {
    assert d - (d + 3) % 7 + 4 == 7 * ((d + 3) / 7) + 1;
  }

  lemma BlockAround(kind: PeriodType, d: int)
    requires kind in {Month, Quarter, Year}
    ensures var (first, past) := WindowDays(kind, d);
            first <= d < past && BlockLength(kind) > 0 && IsBlock(first, past, BlockLength(kind))
  {
    hide MonthStart, MonthIndex, IsBlock, BlockStart, BlockLength;
    var k, n := BlockStart(kind, MonthIndex(d)), BlockLength(kind);
    BlockHolds(kind, MonthIndex(d));
    DayInBlock(d, k, n);
    StartsBlock(k, n);
  }

  lemma DayInBlock(d: int, k: int, n: int)
    requires k <= MonthIndex(d) < k + n
    ensures MonthStart(k) <= d < MonthStart(k + n)
  {
    hide MonthStart, MonthIndex;
    MonthIndexBounds(d);
    MonthsIncrease(k, MonthIndex(d));
    MonthsIncrease(MonthIndex(d) + 1, k + n);
  }

  lemma BlockHolds(kind: PeriodType, k: int)
    requires kind in {Month, Quarter, Year}
    ensures var first, n := BlockStart(kind, k), BlockLength(kind); n > 0 && first <= k < first + n && first % n == 0
  {
    match kind
    case Quarter => Rounded(k, 3);
    case Year => Rounded(k, 12);
    case _ =>
  }

  lemma Rounded(k: int, n: int)
    requires n == 3 || n == 12
    ensures k / n * n <= k < k / n * n + n && k / n * n % n == 0
  {
  }

  lemma StartsBlock(k: int, months: int)
    requires months > 0 && k % months == 0
    ensures IsBlock(MonthStart(k), MonthStart(k + months), months)
  {
    hide MonthStart, MonthIndex;
    MonthLength(k);
    MonthIndexUnique(MonthStart(k), k);
  }

  lemma BlockParts(y: int, m: int)
    requires 0 <= m < 12
    ensures (12 * y + m) / 3 * 3 == 12 * y + m / 3 * 3
    ensures (12 * y + m) / 12 * 12 == 12 * y
  {
    assert (12 * y + m) / 3 == 4 * y + m / 3;
    assert (12 * y + m) / 12 == y;
  }

  /** The years a window is computed from: that of the instant, and for the end of a year the next one. */
  predicate Direct(kind: PeriodType, year: int) {
    Ordinary(year) && (kind == Year ==> Ordinary(year + 1))
  }

  /** Both ends of a resolved window, whatever the year: the window's own days, or some 1900 years on. */
  lemma ResolvedEnds(kind: PeriodType, now: int)
    ensures var (first, past) := WindowDays(kind, Day(now));
            var p, y := ResolvePeriod(Some(kind), now), UTCFullYear(now);
            && p.kind == kind
            && (Ordinary(y) ==> p.start == first * MS_PER_DAY)
            && (!Ordinary(y) ==> p.start >= (first + 638400) * MS_PER_DAY)
            && (Direct(kind, y) ==> p.end == past * MS_PER_DAY)
            && (Ordinary(y) && !Direct(kind, y) ==> p.end >= (past + 638400) * MS_PER_DAY)
  {
    hide MonthIndex, MonthStart, MakeDay, YearOfDay, DateUTC;
    var y, m, d := UTCFullYear(now), UTCMonth(now), UTCDate(now);
    FieldsOf(now);
    BlockParts(y, m);
    match kind
    case Today =>
      WindowEdge(y, m, d);
      WindowEdge(y, m, d + 1);
    case Week =>
      WindowEdge(y, m, d - (Day(now) + 3) % 7);
      WindowEdge(y, m, d - (Day(now) + 3) % 7 + 7);
    case Month =>
      WindowEdge(y, m, 1);
      WindowEdge(y, m + 1, 1);
    case Quarter =>
      WindowEdge(y, m / 3 * 3, 1);
      WindowEdge(y, m / 3 * 3 + 3, 1);
    case Year =>
      WindowEdge(y, 0, 1);
      WindowEdge(y + 1, 0, 1);
  }

  lemma WindowEdge(y: int, m: int, date: int)
    ensures Ordinary(y) ==> DateUTC(y, m, date) == (MonthStart(12 * y + m) + date - 1) * MS_PER_DAY
    ensures !Ordinary(y) ==> DateUTC(y, m, date) >= (MonthStart(12 * y + m) + date - 1 + 638400) * MS_PER_DAY
  {
    hide MonthStart, MakeDay;
    DateUTCShift(y, m, date);
    MakeDayIsMonthStart(y, m, date);
  }

  /** The resolved window is the day, week or block of months around the instant exactly when its years are ordinary. */
  lemma ResolvedWindow(kind: PeriodType, now: int)
    ensures var (first, past) := WindowDays(kind, Day(now));
            ResolvePeriod(Some(kind), now) == Period(kind, first * MS_PER_DAY, past * MS_PER_DAY) <==>
            Direct(kind, UTCFullYear(now))
  {
    hide WindowDays, ResolvePeriod, UTCFullYear;
    ResolvedEnds(kind, now);
  }

  lemma WindowSpan(kind: PeriodType, d: int)
    ensures var (first, past) := WindowDays(kind, d); d - 372 <= first <= d < past <= d + 372
  {
    hide MonthStart, MonthIndex, YearOfDay;
    WindowTiles(kind, d, d);
    if kind != Today && kind != Week {
      var k := BlockStart(kind, MonthIndex(d));
      MonthsSpan(k, k + BlockLength(kind));
    }
  }

  /** A period is resolved around its instant exactly when the instant's year is ordinary. */
  lemma AroundItsInstantIff(kind: PeriodType, now: int)
    ensures var p := ResolvePeriod(Some(kind), now);
            p.start <= now < p.end <==> Ordinary(UTCFullYear(now))
  {
    hide WindowDays, ResolvePeriod, UTCFullYear;
    ResolvedEnds(kind, now);
    WindowSpan(kind, Day(now));
  }

  lemma WeekTiles(d: int, other: int)
    requires d - (d + 3) % 7 <= other < d - (d + 3) % 7 + 7
    ensures other - (other + 3) % 7 == d - (d + 3) % 7
  {
    var w := (d + 3) / 7;
    assert 7 * w <= other + 3 < 7 * w + 7;
  }

  lemma QuotientOf3(n: int, q: int)
    requires 3 * q <= n < 3 * q + 3
    ensures n / 3 == q
  {
  }

  lemma QuotientOf12(n: int, q: int)
    requires 12 * q <= n < 12 * q + 12
    ensures n / 12 == q
  {
  }

  lemma BlockTiles(kind: PeriodType, k: int, other: int)
    requires BlockStart(kind, k) <= other < BlockStart(kind, k) + BlockLength(kind)
    ensures BlockStart(kind, other) == BlockStart(kind, k)
  {
    if kind == Quarter {
      QuotientOf3(other, k / 3);
    } else if kind == Year {
      QuotientOf12(other, k / 12);
    }
  }

  lemma BlockBounds(kind: PeriodType, k: int)
    ensures BlockStart(kind, k) <= k < BlockStart(kind, k) + BlockLength(kind)
    ensures BlockStart(kind, BlockStart(kind, k) + BlockLength(kind)) == BlockStart(kind, k) + BlockLength(kind)
  {
    if kind == Quarter {
      QuotientOf3(k / 3 * 3 + 3, k / 3 + 1);
    } else if kind == Year {
      QuotientOf12(k / 12 * 12 + 12, k / 12 + 1);
    }
  }

  /** Days of one block of months are exactly those whose month lies in it. */
  lemma DayInMonths(d: int, i: int, j: int)
    requires i <= j
    ensures MonthStart(i) <= d < MonthStart(j) <==> i <= MonthIndex(d) < j
  {
    hide MonthStart, MonthIndex;
    var k := MonthIndex(d);
    MonthIndexBounds(d);
    if k < i { MonthsIncrease(k + 1, i); } else { MonthsIncrease(i, k); }
    if k < j { MonthsIncrease(k + 1, j); } else { MonthsIncrease(j, k); }
  }

  lemma WindowTiles(kind: PeriodType, d: int, other: int)
    ensures var (first, past) := WindowDays(kind, d);
            && first <= d < past
            && (first <= other < past <==> WindowDays(kind, other) == (first, past))
            && WindowDays(kind, past).0 == past
  {
    if kind == Week {
      WeekWindowTiles(d, other);
    } else if kind != Today {
      BlockWindowTiles(kind, d, other);
    }
  }

  lemma WeekWindowTiles(d: int, other: int)
    ensures d - (d + 3) % 7 <= other < d - (d + 3) % 7 + 7 <==>
            other - (other + 3) % 7 == d - (d + 3) % 7
    ensures (d - (d + 3) % 7 + 7 + 3) % 7 == 0
  {
    if d - (d + 3) % 7 <= other < d - (d + 3) % 7 + 7 {
      WeekTiles(d, other);
    }
    assert d + 3 - (d + 3) % 7 == 7 * ((d + 3) / 7);
  }

  lemma BlockWindowTiles(kind: PeriodType, d: int, other: int)
    requires kind.Month? || kind.Quarter? || kind.Year?
    ensures var (first, past) := WindowDays(kind, d);
            && first <= d < past
            && (first <= other < past <==> WindowDays(kind, other) == (first, past))
            && WindowDays(kind, past).0 == past
  {
    hide MonthStart, MonthIndex, BlockStart;
    var k := MonthIndex(d);
    var b, n := BlockStart(kind, k), BlockLength(kind);
    BlockBounds(kind, k);
    DayInMonths(d, b, b + n);
    DayInMonths(other, b, b + n);
    var ko := MonthIndex(other);
    BlockBounds(kind, ko);
    if b <= ko < b + n {
      BlockTiles(kind, k, ko);
    } else {
      DayInMonths(other, BlockStart(kind, ko), BlockStart(kind, ko) + n);
    }
    MonthsIncrease(b + n, b + n + 1);
    MonthIndexUnique(MonthStart(b + n), b + n);
  }

  /**
   For every instant: the window contains it exactly when its year is ordinary. Where the window is computed from
   ordinary years, an instant of an ordinary year resolves to the same window exactly when it lies in it, and resolving
   the exclusive end gives the window that starts there exactly when the end's own year is ordinary.
   */
  lemma PeriodsTileTime(kind: PeriodType, now: int, t: int)
    ensures var p := ResolvePeriod(Some(kind), now);
            && (p.start <= now < p.end <==> Ordinary(UTCFullYear(now)))
            && (Direct(kind, UTCFullYear(now)) ==>
                  && (Ordinary(UTCFullYear(t)) ==> (p.start <= t < p.end <==> ResolvePeriod(Some(kind), t) == p))
                  && (ResolvePeriod(Some(kind), p.end).start == p.end <==> Ordinary(UTCFullYear(p.end))))
  {
    hide ResolvePeriod, UTCFullYear, Direct;
    AroundItsInstantIff(kind, now);
    if Direct(kind, UTCFullYear(now)) {
      DirectWindowsTile(kind, now, t);
    }
  }

  lemma DirectWindowsTile(kind: PeriodType, now: int, t: int)
    requires Direct(kind, UTCFullYear(now))
    ensures var p := ResolvePeriod(Some(kind), now);
            && (Ordinary(UTCFullYear(t)) ==> (p.start <= t < p.end <==> ResolvePeriod(Some(kind), t) == p))
            && (ResolvePeriod(Some(kind), p.end).start == p.end <==> Ordinary(UTCFullYear(p.end)))
  {
    hide WindowDays, ResolvePeriod, UTCFullYear, Direct;
    ResolvedWindow(kind, now);
    ResolvedEnds(kind, t);
    var (first, past) := WindowDays(kind, Day(now));
    WindowTiles(kind, Day(now), Day(t));
    WindowSpan(kind, Day(now));
    if Direct(kind, UTCFullYear(t)) {
      ResolvedWindow(kind, t);
    } else if Ordinary(UTCFullYear(t)) {
      YearBeforeZero(kind, now, t);
      WindowSpan(kind, Day(t));
    }
    assert Day(past * MS_PER_DAY) == past;
    ResolvedEnds(kind, past * MS_PER_DAY);
  }

  /** The one ordinary year whose window is not direct is the year -1 taken whole; it is nobody else's year. */
  lemma YearBeforeZero(kind: PeriodType, now: int, t: int)
    requires Direct(kind, UTCFullYear(now)) && Ordinary(UTCFullYear(t)) && !Direct(kind, UTCFullYear(t))
    ensures WindowDays(kind, Day(now)) != WindowDays(kind, Day(t))
  {
    hide MonthStart, MonthIndex, YearOfDay;
    MonthIndexBounds(Day(now));
    MonthIndexBounds(Day(t));
    var (k, j) := (MonthIndex(Day(now)) / 12 * 12, MonthIndex(Day(t)) / 12 * 12);
    if k < j { MonthsIncrease(k + 1, j); MonthLength(k); } else if j < k { MonthsIncrease(j + 1, k); MonthLength(j); }
  }

  /** From 1970 on, no year is reinterpreted: windows contain their instants and tile all of that time. */
  lemma PeriodsFrom1970(kind: PeriodType, now: int, t: int)
    requires 0 <= now && 0 <= t
    ensures var p := ResolvePeriod(Some(kind), now);
            && p.start <= now < p.end
            && (p.start <= t < p.end <==> ResolvePeriod(Some(kind), t) == p)
            && ResolvePeriod(Some(kind), p.end).start == p.end
  {
    hide ResolvePeriod, UTCFullYear;
    YearsFrom1970(now);
    YearsFrom1970(t);
    PeriodsTileTime(kind, now, t);
    YearsFrom1970(ResolvePeriod(Some(kind), now).end);
  }

  lemma LaterYears(t: int, later: int)
    requires t <= later
    ensures UTCFullYear(t) <= UTCFullYear(later)
  {
    hide DayFromYear;
    var y, z := UTCFullYear(t), UTCFullYear(later);
    if z < y {
      YearsIncrease(z + 1, y);
    }
  }

  // ─── Day labels ───────────────────────────────────────────────────────────

  function Digit(n: int): char
    requires 0 <= n < 10
  {
    '0' + n as char
  }

  function Digits2(n: int): (s: string)
    requires 0 <= n < 100
    ensures |s| == 2
  {
    [Digit(n / 10), Digit(n % 10)]
  }

  /** "YYYY-MM-DD" for a four-digit year. */
  function Stamp(y: int, m: int, d: int): string
    requires 0 <= y < 10000 && 0 <= m < 100 && 0 <= d < 100
  {
    Digits2(y / 100) + Digits2(y % 100) + "-" + Digits2(m) + "-" + Digits2(d)
  }

  /** The days of years 0 to 9999, which toISOString prints with a four-digit year. */
  predicate FourDigitYear(d: int) {
    0 <= YearOfDay(d) < 10000
  }

  lemma DateInMonth(d: int)
    ensures 1 <= d - MonthStart(MonthIndex(d)) + 1 <= 31
    ensures MonthIndex(d) / 12 == YearOfDay(d) && 0 <= MonthIndex(d) % 12 < 12
  {
    hide MonthStart, MonthIndex;
    MonthIndexBounds(d);
    MonthLength(MonthIndex(d));
  }

  /** The first ten characters of toISOString for an instant of day d: "YYYY-MM-DD". */
  function DayLabel(d: int): (s: string)
    requires FourDigitYear(d)
  {
    hide MonthStart, MonthIndex;
    DateInMonth(d);
    var k := MonthIndex(d);
    Stamp(YearOfDay(d), k % 12 + 1, d - MonthStart(k) + 1)
  }

  lemma Digits2Injective(a: int, b: int)
    requires 0 <= a < 100 && 0 <= b < 100 && Digits2(a) == Digits2(b)
    ensures a == b
  {
    assert Digits2(a)[0] == Digits2(b)[0] && Digits2(a)[1] == Digits2(b)[1];
    assert a == a / 10 * 10 + a % 10 && b == b / 10 * 10 + b % 10;
  }

  lemma StampInjective(y: int, m: int, d: int, y': int, m': int, d': int)
    requires 0 <= y < 10000 && 0 <= m < 100 && 0 <= d < 100
    requires 0 <= y' < 10000 && 0 <= m' < 100 && 0 <= d' < 100
    requires Stamp(y, m, d) == Stamp(y', m', d')
    ensures y == y' && m == m' && d == d'
  {
    hide Digits2;
    var a, b := Stamp(y, m, d), Stamp(y', m', d');
    assert Digits2(y / 100) == a[0..2] == b[0..2] == Digits2(y' / 100);
    assert Digits2(y % 100) == a[2..4] == b[2..4] == Digits2(y' % 100);
    assert Digits2(m) == a[5..7] == b[5..7] == Digits2(m');
    assert Digits2(d) == a[8..10] == b[8..10] == Digits2(d');
    Digits2Injective(y / 100, y' / 100);
    Digits2Injective(y % 100, y' % 100);
    Digits2Injective(m, m');
    Digits2Injective(d, d');
  }

  function DigitValue(c: char): int {
    c as int - '0' as int
  }

  function Number2(s: string): int
    requires |s| == 2
  {
    10 * DigitValue(s[0]) + DigitValue(s[1])
  }

  lemma NumberOfDigits(n: int)
    requires 0 <= n < 100
    ensures Number2(Digits2(n)) == n
  {
    assert n == n / 10 * 10 + n % 10;
  }

  /** Four, two and two digits between dashes, saying this year, month and day. */
  predicate Reads(s: string, y: int, m: int, d: int) {
    && |s| == 10 && s[4] == '-' && s[7] == '-'
    && (forall i :: 0 <= i < 10 && i != 4 && i != 7 ==> '0' <= s[i] <= '9')
    && 100 * Number2(s[0..2]) + Number2(s[2..4]) == y && Number2(s[5..7]) == m && Number2(s[8..10]) == d
  }

  lemma StampReads(y: int, m: int, d: int)
    requires 0 <= y < 10000 && 0 <= m < 100 && 0 <= d < 100
    ensures Reads(Stamp(y, m, d), y, m, d)
  {
    hide Number2;
    var s := Stamp(y, m, d);
    assert s[0..2] == Digits2(y / 100) && s[2..4] == Digits2(y % 100) && s[5..7] == Digits2(m) && s[8..10] == Digits2(d);
    NumberOfDigits(y / 100);
    NumberOfDigits(y % 100);
    NumberOfDigits(m);
    NumberOfDigits(d);
  }

  /** A label reads back to the year, month and day of its day. */
  lemma DayLabelReads(d: int)
    requires FourDigitYear(d)
    ensures Reads(DayLabel(d), UTCFullYear(d * MS_PER_DAY), UTCMonth(d * MS_PER_DAY) + 1, UTCDate(d * MS_PER_DAY))
  {
    hide MonthStart, MonthIndex, YearOfDay, Reads, Stamp;
    DateInMonth(d);
    assert Day(d * MS_PER_DAY) == d;
    StampReads(YearOfDay(d), MonthIndex(d) % 12 + 1, d - MonthStart(MonthIndex(d)) + 1);
  }

  /** Distinct days print distinct labels. */
  lemma DayLabelInjective(a: int, b: int)
    requires FourDigitYear(a) && FourDigitYear(b)
    requires DayLabel(a) == DayLabel(b)
    ensures a == b
  {
    hide MonthStart, MonthIndex, YearOfDay, Stamp;
    DateInMonth(a);
    DateInMonth(b);
    var k, j := MonthIndex(a), MonthIndex(b);
    StampInjective(YearOfDay(a), k % 12 + 1, a - MonthStart(k) + 1, YearOfDay(b), j % 12 + 1, b - MonthStart(j) + 1);
    assert k == j;
  }

  // ─── Enumerating the days of a period ─────────────────────────────────────

  /** The label of day first + i at position i, for every day of [first, past). */
  predicate LabelsDays(days: seq<string>, first: int, past: int) {
    && |days| == (if first < past then past - first else 0)
    && forall i :: 0 <= i < |days| ==> IsLabelOf(days[i], first + i)
  }

  predicate IsLabelOf(text: string, d: int) {
    FourDigitYear(d) && text == DayLabel(d)
  }

  lemma LabelsExtend(days: seq<string>, first: int, past: int)
    requires first <= past && LabelsDays(days, first, past) && FourDigitYear(past)
    ensures LabelsDays(days + [DayLabel(past)], first, past + 1)
  {
    hide YearOfDay, Stamp, MonthIndex, MonthStart;
    assert IsLabelOf(DayLabel(past), past);
  }

  /** The first day whose midnight is not before `end`. */
  function DayCeiling(end: int): int {
    (end + MS_PER_DAY - 1) / MS_PER_DAY
  }

  /** The days of the range lie in the years 100 to 9999. */
  predicate Labelled(start: int, end: int) {
    100 <= UTCFullYear(start) && (start < end ==> FourDigitYear(DayCeiling(end) - 1))
  }

  lemma LabelledDay(start: int, t: int, end: int)
    requires Labelled(start, end) && start <= t < end
    ensures FourDigitYear(Day(t)) && Ordinary(UTCFullYear(t))
  {
    hide YearOfDay;
    LaterYears(start, t);
    LaterYears(t, (DayCeiling(end) - 1) * MS_PER_DAY + MS_PER_DAY - 1);
  }

  /**
   The day loop: it terminates, and lists every day from the one containing `start` up to, and excluding,
   the first whose midnight is not before `end`, one label each and in order.
   */
  method EnumerateDayStrings(start: int, end: int) returns (days: seq<string>)
    requires Labelled(start, end)
    ensures start < end ==> LabelsDays(days, Day(start), DayCeiling(end))
    ensures start >= end ==> days == []
  {
    hide YearOfDay, MonthIndex, MonthStart, MakeDay;
    days := [];
    var d := start;
    while d < end
      invariant if |days| == 0 then d == start else d == (Day(start) + |days|) * MS_PER_DAY
      invariant start <= d && Day(d) == Day(start) + |days|
      invariant if start < end then Day(d) <= DayCeiling(end) else days == []
      invariant LabelsDays(days, Day(start), Day(d))
      decreases DayCeiling(end) - Day(d)
    {
      LabelledDay(start, d, end);
      DateUTCSteps(d, 1);
      LabelsExtend(days, Day(start), Day(d));
      days := days + [DayLabel(Day(d))];
      d := DateUTC(UTCFullYear(d), UTCMonth(d), UTCDate(d) + 1);
    }
  }

  /** Over a resolved period the labels are distinct and stand one for one for the days of the window. */
  lemma PeriodLabels(kind: PeriodType, now: int, days: seq<string>)
    requires Direct(kind, UTCFullYear(now))
    requires var p := ResolvePeriod(Some(kind), now); LabelsDays(days, Day(p.start), DayCeiling(p.end))
    ensures var p := ResolvePeriod(Some(kind), now); |days| * MS_PER_DAY == p.end - p.start
    ensures forall i, j :: 0 <= i < j < |days| ==> days[i] != days[j]
  {
    hide WindowDays, ResolvePeriod, YearOfDay, DayLabel;
    ResolvedWindow(kind, now);
    WindowTiles(kind, Day(now), Day(now));
    var first := Day(ResolvePeriod(Some(kind), now).start);
    forall i, j | 0 <= i < j < |days| ensures days[i] != days[j] {
      if days[i] == days[j] {
        DayLabelInjective(first + i, first + j);
      }
    }
  }
}
