/** The rolling six-month window of the finance trend, and the donation buckets aligned with either granularity. */
module MonthlyTrends {
  import opened Common
  import opened Calendar
  import opened DashboardPeriod
  import opened Trends
  import B = Budget
  import F = Finance

  // ─── Six months of finance ────────────────────────────────────────────────

  datatype MonthSums = MonthSums(year: int, month: int, depensesXof: nat, recettesXof: nat)

  /** The first instant of the j-th month of the window ending with month m (1-based) of year y. */
  function WindowEdge(y: int, m: int, j: int): int {
    MonthStart(12 * y + m - 6 + j) * MS_PER_DAY
  }

  ghost predicate IsMonth(s: MonthSums, rows: B.Table, y: int, m: int, j: int) {
    && 1 <= s.month <= 12 && 12 * s.year + s.month - 1 == 12 * y + m - 6 + j
    && s.depensesXof == RangeSum(rows, B.Depense, WindowEdge(y, m, j), WindowEdge(y, m, j + 1))
    && s.recettesXof == RangeSum(rows, B.Recette, WindowEdge(y, m, j), WindowEdge(y, m, j + 1))
  }

  /** Date.UTC of the first of a month, months counted from any ordinary year. */
  lemma FirstOfMonth(y: int, m: int)
    requires Ordinary(y)
    ensures DateUTC(y, m, 1) == MonthStart(12 * y + m) * MS_PER_DAY
  {
    hide MonthStart, MakeDay;
    MakeDayIsMonthStart(y, m, 1);
  }

  /** The months listed first, then their sums: six consecutive calendar months, the last being the one asked for. */
  method GetMonthlyTrend(rows: B.Table, year: int, month: B.Month) returns (sums: seq<MonthSums>)
    requires Ordinary(year) && Ordinary((12 * year + month - 6) / 12)
    ensures |sums| == 6
    ensures forall j :: 0 <= j < 6 ==> IsMonth(sums[j], rows, year, month, j)
  {
    hide MonthStart, MakeDay, YearOfDay, MonthIndex, RangeSum, DateUTC;
    var months: seq<(int, int)> := [];
    var i := 5;
    while i >= 0
      invariant -1 <= i <= 5 && |months| == 5 - i
      invariant forall j :: 0 <= j < |months| ==>
        1 <= months[j].1 <= 12 && 12 * months[j].0 + months[j].1 - 1 == 12 * year + month - 6 + j
    {
      var d := DateUTC(year, month - 1 - i, 1);
      FirstOfMonth(year, month - 1 - i);
      MonthOfStart(12 * year + month - 1 - i);
      months := months + [(UTCFullYear(d), UTCMonth(d) + 1)];
      i := i - 1;
    }
    sums := [];
    for j := 0 to 6
      invariant |sums| == j
      invariant forall k :: 0 <= k < j ==> IsMonth(sums[k], rows, year, month, k)
    {
      var (y, m) := months[j];
      FirstOfMonth(y, m - 1);
      FirstOfMonth(y, m);
      var start, end := DateUTC(y, m - 1, 1), DateUTC(y, m, 1);
      sums := sums + [MonthSums(y, m, RangeSum(rows, B.Depense, start, end), RangeSum(rows, B.Recette, start, end))];
    }
  }

  function MonthDepenses(sums: seq<MonthSums>): nat {
    if sums == [] then 0 else MonthDepenses(sums[..|sums| - 1]) + sums[|sums| - 1].depensesXof
  }

  function MonthRecettes(sums: seq<MonthSums>): nat {
    if sums == [] then 0 else MonthRecettes(sums[..|sums| - 1]) + sums[|sums| - 1].recettesXof
  }

  lemma {:induction false} MonthTotals(sums: seq<MonthSums>, rows: B.Table, y: int, m: int)
    requires forall j :: 0 <= j < |sums| ==> IsMonth(sums[j], rows, y, m, j)
    ensures MonthDepenses(sums) == InBuckets(Validated(rows, B.Depense), j => WindowEdge(y, m, j), |sums|).amountXof
    ensures MonthRecettes(sums) == InBuckets(Validated(rows, B.Recette), j => WindowEdge(y, m, j), |sums|).amountXof
  {
    hide WindowEdge, Validated, TallyIn;
    if sums != [] {
      var last := |sums| - 1;
      MonthTotals(sums[..last], rows, y, m);
      assert IsMonth(sums[last], rows, y, m, last);
    }
  }

  /** The windows tile their span: the six columns add up to one plain sum over it, for either type. */
  lemma MonthlyTrendConserves(sums: seq<MonthSums>, rows: B.Table, y: int, m: int)
    requires |sums| == 6 && forall j :: 0 <= j < 6 ==> IsMonth(sums[j], rows, y, m, j)
    ensures MonthDepenses(sums) == RangeSum(rows, B.Depense, WindowEdge(y, m, 0), WindowEdge(y, m, 6))
    ensures MonthRecettes(sums) == RangeSum(rows, B.Recette, WindowEdge(y, m, 0), WindowEdge(y, m, 6))
  {
    hide MonthStart, Validated, TallyIn, IsMonth;
    var edge := j => WindowEdge(y, m, j);
    MonthTotals(sums, rows, y, m);
    forall j | 0 <= j < 6 ensures edge(j) <= edge(j + 1) {
      MonthLength(12 * y + m - 6 + j);
    }
    BucketsConserve(Validated(rows, B.Depense), edge, 6);
    BucketsConserve(Validated(rows, B.Recette), edge, 6);
  }

  // ─── Month titles ─────────────────────────────────────────────────────────

  /** Years a template literal prints with exactly four digits. */
  predicate Printable(k: int) {
    1000 <= k / 12 < 10000
  }

  /** "YYYY-MM" of month k. */
  function MonthTitle(k: int): (s: string)
    requires Printable(k)
  {
    Digits2(k / 12 / 100) + Digits2(k / 12 % 100) + "-" + Digits2(k % 12 + 1)
  }

  /** Splitting a title at its one dash and reading both parts as numbers. */
  function ParseTitle(s: string): (int, int)
    requires |s| == 7
  {
    (100 * Number2(s[0..2]) + Number2(s[2..4]), Number2(s[5..7]))
  }

  lemma TitleParses(k: int)
    requires Printable(k)
    ensures |MonthTitle(k)| == 7 && ParseTitle(MonthTitle(k)) == (k / 12, k % 12 + 1)
    ensures forall i :: 0 <= i < 7 ==> if i == 4 then MonthTitle(k)[i] == '-' else '0' <= MonthTitle(k)[i] <= '9'
  {
    hide Number2;
    var s, y := MonthTitle(k), k / 12;
    assert s[0..2] == Digits2(y / 100) && s[2..4] == Digits2(y % 100) && s[5..7] == Digits2(k % 12 + 1);
    NumberOfDigits(y / 100);
    NumberOfDigits(y % 100);
    NumberOfDigits(k % 12 + 1);
  }

  lemma TitleInjective(a: int, b: int)
    requires Printable(a) && Printable(b) && MonthTitle(a) == MonthTitle(b)
    ensures a == b
  {
    hide MonthTitle, ParseTitle;
    TitleParses(a);
    TitleParses(b);
    assert a == 12 * (a / 12) + a % 12 && b == 12 * (b / 12) + b % 12;
  }

  // ─── The buckets getTrends hands over ─────────────────────────────────────

  predicate Daily(p: Period) {
    p.kind == Today || p.kind == Week
  }

  /** The month that ends the six-month window: the one the period starts in. */
  function LastMonth(p: Period): int {
    MonthIndex(Day(p.start))
  }

  function BucketCount(p: Period): int {
    if Daily(p) then Day(p.end) - Day(p.start) else 6
  }

  function Edge(p: Period, i: int): int {
    if Daily(p) then (Day(p.start) + i) * MS_PER_DAY else MonthStart(LastMonth(p) - 5 + i) * MS_PER_DAY
  }

  /** A period resolved in a year printed with four digits, the five months before it and its end included. */
  ghost predicate Charted(p: Period) {
    && 1001 <= UTCFullYear(p.start) && FourDigitYear(Day(p.end))
    && exists now :: ResolvePeriod(Some(p.kind), now) == p && 100 <= UTCFullYear(now)
  }

  predicate IsTitle(text: string, p: Period, i: int) {
    if Daily(p) then IsLabelOf(text, Day(p.start) + i)
    else Printable(LastMonth(p) - 5 + i) && text == MonthTitle(LastMonth(p) - 5 + i)
  }

  ghost predicate Titled(titles: seq<string>, p: Period) {
    |titles| == BucketCount(p) && forall i :: 0 <= i < |titles| ==> IsTitle(titles[i], p, i)
  }

  ghost predicate IsChartMonth(b: FinanceBucket, rows: B.Table, p: Period, j: int) {
    && IsTitle(b.title, p, j)
    && b.recettesXof == RangeSum(rows, B.Recette, Edge(p, j), Edge(p, j + 1))
    && b.depensesXof == RangeSum(rows, B.Depense, Edge(p, j), Edge(p, j + 1))
  }

  /** Every month a chart of this period may have to print. */
  lemma PrintableMonths(p: Period, k: int)
    requires Charted(p)
    requires LastMonth(p) - 5 <= k <= LastMonth(p) || LastMonth(p) - 5 <= k <= MonthIndex(Day(p.end))
    ensures Printable(k)
  {
    hide MonthIndex, YearOfDay, ResolvePeriod;
    ChartedWindow(p);
    MonthIndexBounds(Day(p.start));
    MonthIndexBounds(Day(p.end));
    LaterYears(p.start, p.end);
  }

  lemma ChartMonth(m: MonthSums, rows: B.Table, p: Period, j: int)
    requires Charted(p) && !Daily(p) && 0 <= j < 6
    requires IsMonth(m, rows, UTCFullYear(p.start), UTCMonth(p.start) + 1, j)
    ensures Printable(12 * m.year + m.month - 1)
    ensures IsChartMonth(FinanceBucket(MonthTitle(12 * m.year + m.month - 1), m.recettesXof, m.depensesXof), rows, p, j)
  {
    hide MonthStart, MonthIndex, RangeSum, YearOfDay, MonthTitle, Charted, Printable;
    FieldsOf(p.start);
    PrintableMonths(p, 12 * m.year + m.month - 1);
    assert 12 * m.year + m.month - 1 == LastMonth(p) - 5 + j;
  }

  /** getMonthlyFinanceBuckets: the finance trend of the month the period starts in, with chart titles. */
  method GetMonthlyFinanceBuckets(rows: B.Table, p: Period) returns (buckets: seq<FinanceBucket>)
    requires Charted(p) && !Daily(p)
    ensures |buckets| == 6
    ensures forall j :: 0 <= j < 6 ==> IsChartMonth(buckets[j], rows, p, j)
  {
    hide Charted, IsMonth, IsChartMonth, Daily, MonthTitle, UTCFullYear, UTCMonth;
    var (year, month) := ToFinanceYearMonth(p);
    PlainYear(p);
    var monthlyTrend := GetMonthlyTrend(rows, year, month);
    buckets := [];
    for j := 0 to 6
      invariant |buckets| == j
      invariant forall k :: 0 <= k < j ==> IsChartMonth(buckets[k], rows, p, k)
    {
      var m := monthlyTrend[j];
      ChartMonth(m, rows, p, j);
      buckets := buckets + [FinanceBucket(MonthTitle(12 * m.year + m.month - 1), m.recettesXof, m.depensesXof)];
    }
  }

  lemma PlainYear(p: Period)
    requires Charted(p)
    ensures 100 < UTCFullYear(p.start) && 0 <= UTCMonth(p.start) < 12
  {
    FieldsOf(p.start);
  }

  lemma ChartedWindow(p: Period)
    requires Charted(p)
    ensures p.start < p.end
    ensures p.start == Day(p.start) * MS_PER_DAY && p.end == Day(p.end) * MS_PER_DAY
    ensures !Daily(p) ==> Day(p.start) == MonthStart(LastMonth(p))
    ensures !Daily(p) ==> p.end == MonthStart(LastMonth(p) + BlockLength(p.kind)) * MS_PER_DAY
  {
    hide MonthStart, MonthIndex, YearOfDay, ResolvePeriod;
    var now :| ResolvePeriod(Some(p.kind), now) == p && 100 <= UTCFullYear(now);
    ResolvedWindow(p.kind, now);
    WindowTiles(p.kind, Day(now), Day(now));
    if !Daily(p) {
      var first := BlockStart(p.kind, MonthIndex(Day(now)));
      MonthLength(first);
      MonthIndexUnique(MonthStart(first), first);
    }
  }

  // ─── Donations ────────────────────────────────────────────────────────────

  datatype DonationBucket = DonationBucket(title: string, amountXof: nat, count: nat)

  function DonationItems(ds: seq<F.Donation>): seq<Item> {
    if ds == [] then []
    else DonationItems(ds[..|ds| - 1]) + [Item(ds[|ds| - 1].date, ds[|ds| - 1].amountXof)]
  }

  predicate InBucket(p: Period, date: int, i: int) {
    Edge(p, i) <= date < Edge(p, i + 1)
  }

  predicate CanTitle(p: Period, date: int) {
    if Daily(p) then FourDigitYear(Day(date)) else Printable(MonthIndex(Day(date)))
  }

  function TitleOf(p: Period, date: int): string
    requires CanTitle(p, date)
  {
    if Daily(p) then DayLabel(Day(date)) else MonthTitle(MonthIndex(Day(date)))
  }

  lemma DaysOf(p: Period, date: int)
    requires Charted(p) && Day(p.start) <= Day(date) && date < p.end
    ensures FourDigitYear(Day(date))
  {
    hide YearOfDay, ResolvePeriod;
    ChartedWindow(p);
    LaterYears(p.start, date);
    LaterYears(date, p.end);
  }

  lemma DayTitleIff(p: Period, text: string, date: int, i: nat)
    requires Charted(p) && Daily(p) && IsTitle(text, p, i) && Edge(p, 0) <= date < p.end
    ensures CanTitle(p, date) && (TitleOf(p, date) == text <==> InBucket(p, date, i))
  {
    hide FourDigitYear, DayLabel, Charted;
    DaysOf(p, date);
    assert InBucket(p, date, i) <==> Day(date) == Day(p.start) + i;
    if TitleOf(p, date) == text {
      DayLabelInjective(Day(date), Day(p.start) + i);
    }
  }

  /** A queried date lies in a printable month, at or after the first of the chart. */
  lemma MonthInChart(p: Period, date: int)
    requires Charted(p) && !Daily(p) && Edge(p, 0) <= date < p.end
    ensures Printable(MonthIndex(Day(date)))
  {
    hide MonthStart, MonthIndex, Charted, Printable;
    FromMonth(Day(date), LastMonth(p) - 5);
    MonthsOrdered(Day(date), Day(p.end));
    PrintableMonths(p, MonthIndex(Day(date)));
  }

  lemma MonthTitleIff(p: Period, text: string, date: int, i: nat)
    requires Charted(p) && !Daily(p) && IsTitle(text, p, i) && Edge(p, 0) <= date < p.end
    ensures CanTitle(p, date) && (TitleOf(p, date) == text <==> InBucket(p, date, i))
  {
    hide MonthStart, MonthIndex, MonthTitle, Charted, Printable;
    var k, first := MonthIndex(Day(date)), LastMonth(p) - 5;
    MonthInChart(p, date);
    MonthIndexUnique(Day(date), first + i);
    if MonthTitle(k) == text {
      TitleInjective(k, first + i);
    }
  }

  /** A date of the queried range carries the title of bucket i exactly when it lies between its edges. */
  lemma TitleIffBucket(p: Period, text: string, date: int, i: nat)
    requires Charted(p) && IsTitle(text, p, i) && Edge(p, 0) <= date < p.end
    ensures CanTitle(p, date) && (TitleOf(p, date) == text <==> InBucket(p, date, i))
  {
    hide Charted, IsTitle, Edge, CanTitle, TitleOf;
    if Daily(p) {
      DayTitleIff(p, text, date, i);
    } else {
      MonthTitleIff(p, text, date, i);
    }
  }

  lemma MonthsOrdered(d: int, later: int)
    requires d <= later
    ensures MonthIndex(d) <= MonthIndex(later)
  {
    hide MonthStart, MonthIndex;
    MonthIndexBounds(d);
    FromMonth(later, MonthIndex(d));
  }

  lemma FromMonth(d: int, k: int)
    requires MonthStart(k) <= d
    ensures k <= MonthIndex(d)
  {
    hide MonthStart, MonthIndex;
    MonthIndexBounds(d);
    if MonthIndex(d) < k {
      MonthsIncrease(MonthIndex(d) + 1, k);
    }
  }

  ghost predicate Filled(titles: seq<string>, buckets: map<string, Tally>, items: seq<Item>, p: Period) {
    && (forall s :: s in buckets <==> s in titles)
    && forall i :: 0 <= i < |titles| ==> Holds(buckets, titles[i], items, p, i)
  }

  ghost predicate Holds(buckets: map<string, Tally>, title: string, items: seq<Item>, p: Period, i: int) {
    title in buckets && buckets[title] == TallyIn(items, Edge(p, i), Edge(p, i + 1))
  }

  /** One turn of the loop over the donations: a title outside the chart drops the donation. */
  lemma OneDonation(titles: seq<string>, buckets: map<string, Tally>, items: seq<Item>, x: Item, p: Period)
    requires Charted(p) && Titled(titles, p) && Edge(p, 0) <= x.date < p.end
    requires Filled(titles, buckets, items, p)
    ensures CanTitle(p, x.date)
    ensures var key := TitleOf(p, x.date);
            var after := if key in buckets then buckets[key := Plus(buckets[key], Tally(x.amountXof, 1))] else buckets;
            Filled(titles, after, items + [x], p)
  {
    hide Charted, Edge, TitleOf, CanTitle, TallyIn, IsTitle;
    assert 0 < |titles| by { SomeBucket(p); }
    assert IsTitle(titles[0], p, 0);
    TitleIffBucket(p, titles[0], x.date, 0);
    var key := TitleOf(p, x.date);
    var after := if key in buckets then buckets[key := Plus(buckets[key], Tally(x.amountXof, 1))] else buckets;
    forall i | 0 <= i < |titles| ensures Holds(after, titles[i], items + [x], p, i) {
      assert IsTitle(titles[i], p, i);
      TitleIffBucket(p, titles[i], x.date, i);
      TallyAppend(items, x, Edge(p, i), Edge(p, i + 1));
      assert Holds(buckets, titles[i], items, p, i);
      assert titles[i] in titles;
    }
  }

  lemma SomeBucket(p: Period)
    requires Charted(p)
    ensures 0 < BucketCount(p)
  {
    ChartedWindow(p);
  }

  function Titles(bs: seq<FinanceBucket>): (titles: seq<string>)
    ensures |titles| == |bs| && forall i :: 0 <= i < |bs| ==> titles[i] == bs[i].title
  {
    seq(|bs|, i requires 0 <= i < |bs| => bs[i].title)
  }

  /** A bucket counts the donations of its own day or month, up to the end of the period. */
  ghost predicate IsDonationBucket(b: DonationBucket, title: string, table: seq<F.Donation>, p: Period, i: int) {
    && b.title == title
    && Tally(b.amountXof, b.count) == TallyIn(DonationItems(table), Edge(p, i), Edge(p, i + 1))
  }

  ghost predicate IsDonationsTrend(trend: seq<DonationBucket>, bs: seq<FinanceBucket>, table: seq<F.Donation>, p: Period) {
    && |trend| == |bs|
    && forall i :: 0 <= i < |bs| ==> IsDonationBucket(trend[i], bs[i].title, table, p, i)
  }

  /** The range the donations are fetched for starts where the first bucket does. */
  lemma QueryRange(p: Period, titles: seq<string>)
    requires Charted(p) && Titled(titles, p)
    ensures |titles| == BucketCount(p) > 0
    ensures Daily(p) ==> p.start == Edge(p, 0)
    ensures !Daily(p) ==> |titles[0]| == 7
    ensures !Daily(p) ==> var (y, m) := ParseTitle(titles[0]); DateUTC(y, m - 1, 1) == Edge(p, 0)
  {
    hide MonthStart, MonthIndex, MonthTitle, ParseTitle, YearOfDay, DateUTC;
    ChartedWindow(p);
    assert IsTitle(titles[0], p, 0);
    if !Daily(p) {
      var k := LastMonth(p) - 5;
      TitleParses(k);
      FirstOfMonth(k / 12, k % 12);
    }
  }

  function Seeded(bs: seq<FinanceBucket>): map<string, Tally> {
    map b | b in bs :: b.title := Tally(0, 0)
  }

  lemma NothingFilled(bs: seq<FinanceBucket>, p: Period)
    ensures Filled(Titles(bs), Seeded(bs), [], p)
  {
    hide Edge;
    var buckets := Seeded(bs);
    forall i | 0 <= i < |bs| ensures Holds(buckets, bs[i].title, [], p, i) {
      assert bs[i] in bs;
    }
  }

  /** Every bucket ends before the period does, so the query fetched all of its donations. */
  lemma BucketsInRange(p: Period, i: nat)
    requires Charted(p) && i < BucketCount(p)
    ensures Edge(p, 0) <= Edge(p, i) <= Edge(p, i + 1) <= p.end
  {
    hide MonthStart, MonthIndex, YearOfDay, ResolvePeriod, Charted;
    ChartedWindow(p);
    if !Daily(p) {
      var k := LastMonth(p);
      MonthsIncrease(k - 5, k - 5 + i);
      MonthLength(k - 5 + i);
      MonthsIncrease(k - 4 + i, k + BlockLength(p.kind));
    }
  }

  lemma ReadBucket(titles: seq<string>, buckets: map<string, Tally>, table: seq<F.Donation>, p: Period, i: nat)
    requires Charted(p) && Titled(titles, p) && i < |titles|
    requires Filled(titles, buckets, Within(DonationItems(table), Edge(p, 0), p.end), p)
    ensures titles[i] in buckets
    ensures buckets[titles[i]] == TallyIn(DonationItems(table), Edge(p, i), Edge(p, i + 1))
  {
    hide Charted, Edge, IsTitle, TallyIn, Within, DonationItems;
    assert Holds(buckets, titles[i], Within(DonationItems(table), Edge(p, 0), p.end), p, i);
    BucketsInRange(p, i);
    TallyWithin(DonationItems(table), Edge(p, 0), p.end, Edge(p, i), Edge(p, i + 1));
  }

  method GetDonationsTrend(p: Period, financeBuckets: seq<FinanceBucket>, table: seq<F.Donation>)
    returns (trend: seq<DonationBucket>)
    requires Charted(p) && Titled(Titles(financeBuckets), p)
    ensures IsDonationsTrend(trend, financeBuckets, table, p)
  {
    hide Charted, Edge, TitleOf, CanTitle, TallyIn, IsTitle, Filled, Titled, DonationItems, Within, ParseTitle,
         DateUTC, Seeded, Plus, Daily, BucketCount;
    var isDailyGranularity := Daily(p);
    var rangeStart, rangeEnd := p.start, p.end;
    ghost var titles := Titles(financeBuckets);
    QueryRange(p, titles);
    if !isDailyGranularity && |financeBuckets| > 0 {
      var (firstYear, firstMonth) := ParseTitle(financeBuckets[0].title);
      rangeStart := DateUTC(firstYear, firstMonth - 1, 1);
    }
    var donations := Within(DonationItems(table), rangeStart, rangeEnd);
    var buckets := Seeded(financeBuckets);
    NothingFilled(financeBuckets, p);
    for j := 0 to |donations|
      invariant Filled(titles, buckets, donations[..j], p)
    {
      var d := donations[j];
      OneDonation(titles, buckets, donations[..j], d, p);
      assert donations[..j + 1] == donations[..j] + [d];
      var key := TitleOf(p, d.date);
      if key in buckets {
        buckets := buckets[key := Plus(buckets[key], Tally(d.amountXof, 1))];
      }
    }
    assert donations[..|donations|] == donations;
    trend := [];
    for i := 0 to |financeBuckets|
      invariant |trend| == i
      invariant forall k :: 0 <= k < i ==> IsDonationBucket(trend[k], financeBuckets[k].title, table, p, k)
    {
      var title := financeBuckets[i].title;
      ReadBucket(titles, buckets, table, p, i);
      trend := trend + [DonationBucket(title, buckets[title].amountXof, buckets[title].count)];
    }
  }

  function Shown(trend: seq<DonationBucket>): Tally {
    if trend == [] then Tally(0, 0)
    else Plus(Shown(trend[..|trend| - 1]), Tally(trend[|trend| - 1].amountXof, trend[|trend| - 1].count))
  }

  lemma {:induction false} ShownTotals(trend: seq<DonationBucket>, table: seq<F.Donation>, p: Period)
    requires forall i :: 0 <= i < |trend| ==> IsDonationBucket(trend[i], trend[i].title, table, p, i)
    ensures Shown(trend) == InBuckets(DonationItems(table), i => Edge(p, i), |trend|)
  {
    hide Edge, DonationItems, TallyIn;
    if trend != [] {
      var last := |trend| - 1;
      ShownTotals(trend[..last], table, p);
      assert IsDonationBucket(trend[last], trend[last].title, table, p, last);
    }
  }

  /** What the chart shows plus what falls after its last bucket is what the query fetched. */
  lemma ShownPlusDropped(trend: seq<DonationBucket>, bs: seq<FinanceBucket>, table: seq<F.Donation>, p: Period)
    requires Charted(p) && |bs| == BucketCount(p) && IsDonationsTrend(trend, bs, table, p)
    ensures Edge(p, 0) <= Edge(p, |bs|) <= p.end
    ensures Shown(trend) == TallyIn(DonationItems(table), Edge(p, 0), Edge(p, |bs|))
    ensures Plus(Shown(trend), TallyIn(DonationItems(table), Edge(p, |bs|), p.end))
         == TallyIn(DonationItems(table), Edge(p, 0), p.end)
  {
    hide Edge, DonationItems, TallyIn, Charted, Plus;
    var items, edge := DonationItems(table), i => Edge(p, i);
    forall i | 0 <= i < |bs| ensures edge(i) <= edge(i + 1) {
      BucketsInRange(p, i);
    }
    forall i | 0 <= i < |trend| ensures IsDonationBucket(trend[i], trend[i].title, table, p, i) {
      assert IsDonationBucket(trend[i], bs[i].title, table, p, i);
    }
    ShownTotals(trend, table, p);
    BucketsConserve(items, edge, |bs|);
    SomeBucket(p);
    BucketsInRange(p, |bs| - 1);
    TallySplit(items, edge(0), edge(|bs|), p.end);
  }

  /** The days after the last bucket: none for a day, a week or a month, the rest of the quarter or year otherwise. */
  lemma LastEdge(p: Period)
    requires Charted(p)
    ensures Edge(p, BucketCount(p)) <= p.end
    ensures Edge(p, BucketCount(p)) == p.end <==> p.kind == Today || p.kind == Week || p.kind == PeriodType.Month
  {
    hide MonthStart, MonthIndex, Charted;
    ChartedWindow(p);
    if !Daily(p) {
      MonthsIncrease(LastMonth(p) + 1, LastMonth(p) + BlockLength(p.kind));
    }
  }

  /**
   The chart accounts for every fetched donation exactly when none is dated after its last bucket; for a day, a week
   or a month there is no such date.
   */
  lemma DonationsConserve(trend: seq<DonationBucket>, bs: seq<FinanceBucket>, table: seq<F.Donation>, p: Period)
    requires Charted(p) && |bs| == BucketCount(p) && IsDonationsTrend(trend, bs, table, p)
    ensures Shown(trend) == TallyIn(DonationItems(table), Edge(p, 0), p.end) <==>
            forall i :: 0 <= i < |table| ==> !DatedIn(table[i], Edge(p, |bs|), p.end)
    ensures p.kind == Today || p.kind == Week || p.kind == PeriodType.Month ==>
              Shown(trend) == TallyIn(DonationItems(table), Edge(p, 0), p.end)
  {
    hide Edge, DonationItems, TallyIn, Charted;
    ShownPlusDropped(trend, bs, table, p);
    LastEdge(p);
    CountIffAny(table, Edge(p, |bs|), p.end);
  }

  predicate DatedIn(d: F.Donation, lo: int, hi: int) {
    lo <= d.date < hi
  }

  lemma CountOne(rest: Tally, d: F.Donation, lo: int, hi: int)
    ensures Plus(rest, Share(Item(d.date, d.amountXof), lo, hi)).count == rest.count + (if DatedIn(d, lo, hi) then 1 else 0)
    ensures !DatedIn(d, lo, hi) ==> Plus(rest, Share(Item(d.date, d.amountXof), lo, hi)) == rest
  {
  }

  lemma {:induction false} CountIffAny(table: seq<F.Donation>, lo: int, hi: int)
    ensures TallyIn(DonationItems(table), lo, hi) == Tally(0, 0) <==>
            forall i :: 0 <= i < |table| ==> !DatedIn(table[i], lo, hi)
    ensures TallyIn(DonationItems(table), lo, hi).count == 0 ==> TallyIn(DonationItems(table), lo, hi) == Tally(0, 0)
    decreases |table|
  {
    hide TallyIn, DatedIn, Plus, Share;
    if table == [] {
      Nothing(lo, hi, lo, hi);
    } else {
      var rest, d := table[..|table| - 1], table[|table| - 1];
      CountIffAny(rest, lo, hi);
      TallyAppend(DonationItems(rest), Item(d.date, d.amountXof), lo, hi);
      CountOne(TallyIn(DonationItems(rest), lo, hi), d, lo, hi);
      assert table == rest + [d];
    }
  }
}
