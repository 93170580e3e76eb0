/** dashboard.service.ts getTrends: finance and donation series over one resolved period, end to end. */
module DashboardTrends {
  import opened Common
  import opened Calendar
  import opened DashboardPeriod
  import opened Trends
  import opened MonthlyTrends
  import B = Budget
  import F = Finance

  lemma YearsApart(t: int, later: int)
    requires t <= later <= t + 400 * MS_PER_DAY
    ensures UTCFullYear(t) <= UTCFullYear(later) <= UTCFullYear(t) + 2
  {
    hide DayFromYear;
    LaterYears(t, later);
    var y, z := UTCFullYear(t), UTCFullYear(later);
    YearsIncrease(y + 1, y + 3);
    if z > y + 2 {
      YearsIncrease(y + 3, z);
    }
  }

  /** Every period resolved in the years 1003 to 9997 is one the charts can be drawn for. */
  lemma ResolvedIsCharted(kind: PeriodType, now: int)
    requires 1003 <= UTCFullYear(now) <= 9997
    ensures var p := ResolvePeriod(Some(kind), now);
            Charted(p) && Labelled(p.start, p.end) && p.start < p.end
  {
    hide ResolvePeriod, WindowDays, UTCFullYear, YearOfDay;
    var p := ResolvePeriod(Some(kind), now);
    ResolvedWindow(kind, now);
    WindowSpan(kind, Day(now));
    YearsApart(p.start, now);
    YearsApart(now, p.end);
    assert ResolvePeriod(Some(p.kind), now) == p;
    YearOf(p.start);
    YearOf(p.end);
    YearOf((Day(p.end) - 1) * MS_PER_DAY);
    LaterYears(p.start, (Day(p.end) - 1) * MS_PER_DAY);
    LaterYears((Day(p.end) - 1) * MS_PER_DAY, p.end);
  }

  lemma YearOf(t: int)
    ensures UTCFullYear(t) == YearOfDay(Day(t))
  {
  }

  /** The finance half of the response, in either granularity. */
  ghost predicate IsFinanceSeries(bs: seq<FinanceBucket>, rows: B.Table, p: Period) {
    if Daily(p) then IsDailyTrend(bs, rows, p.start, p.end)
    else |bs| == 6 && forall j :: 0 <= j < 6 ==> IsChartMonth(bs[j], rows, p, j)
  }

  lemma DailyTitles(bs: seq<FinanceBucket>, rows: B.Table, p: Period)
    requires Charted(p) && Daily(p) && IsDailyTrend(bs, rows, p.start, p.end)
    ensures Titled(Titles(bs), p)
  {
    hide IsLabelOf, RangeSum, DayEdge, Charted;
    ChartedWindow(p);
    forall i | 0 <= i < |bs| ensures IsTitle(Titles(bs)[i], p, i) {
      assert IsDay(bs[i], rows, p.start, p.end, i);
    }
  }

  lemma MonthTitles(bs: seq<FinanceBucket>, rows: B.Table, p: Period)
    requires !Daily(p) && |bs| == 6 && forall j :: 0 <= j < 6 ==> IsChartMonth(bs[j], rows, p, j)
    ensures Titled(Titles(bs), p)
  {
    hide IsTitle, RangeSum, Edge;
  }

  datatype TrendsResponse = TrendsResponse(period: Period, finance: seq<FinanceBucket>, donations: seq<DonationBucket>)

  /** The donations the response shows are all of those fetched exactly when none is dated after the last bucket. */
  ghost predicate ShowsAllFetchedIff(r: TrendsResponse, table: seq<F.Donation>) {
    var p := r.period;
    Shown(r.donations) == TallyIn(DonationItems(table), Edge(p, 0), p.end) <==>
    forall i :: 0 <= i < |table| ==> !DatedIn(table[i], Edge(p, BucketCount(p)), p.end)
  }

  /** Both series cover the same titled windows of the resolved period. */
  method GetTrends(rows: B.Table, table: seq<F.Donation>, periodType: Option<PeriodType>, now: int)
    returns (r: TrendsResponse)
    requires 1003 <= UTCFullYear(now) <= 9997
    ensures r.period == ResolvePeriod(periodType, now)
    ensures IsFinanceSeries(r.finance, rows, r.period)
    ensures IsDonationsTrend(r.donations, r.finance, table, r.period)
    ensures ShowsAllFetchedIff(r, table)
  {
    hide ResolvePeriod, Charted, UTCFullYear, Labelled, IsDailyTrend, IsChartMonth, IsDonationsTrend, Titled, Daily,
         TallyIn, DonationItems, Edge, DatedIn, BucketCount;
    var p := ResolvePeriod(periodType, now);
    Requested(periodType, now);
    ResolvedIsCharted(p.kind, now);
    var financeBuckets: seq<FinanceBucket>;
    if Daily(p) {
      financeBuckets := GetDailyTrend(rows, p.start, p.end);
      DailyTitles(financeBuckets, rows, p);
    } else {
      financeBuckets := GetMonthlyFinanceBuckets(rows, p);
      MonthTitles(financeBuckets, rows, p);
    }
    var donations := GetDonationsTrend(p, financeBuckets, table);
    TitledCount(Titles(financeBuckets), p);
    DonationsConserve(donations, financeBuckets, table, p);
    r := TrendsResponse(p, financeBuckets, donations);
  }

  /** An omitted period type stands for the month. */
  lemma Requested(periodType: Option<PeriodType>, now: int)
    ensures var p := ResolvePeriod(periodType, now);
            (periodType.Some? ==> p.kind == periodType.value) && ResolvePeriod(Some(p.kind), now) == p
  {
  }

  lemma TitledCount(titles: seq<string>, p: Period)
    requires Titled(titles, p)
    ensures |titles| == BucketCount(p)
  {
  }

  /**
   The first quarter of 1970 with one donation, on the first of February: the query fetches it, and no bucket of any
   response shows it.
   */
  lemma QuarterDropsDonation(trend: seq<DonationBucket>, bs: seq<FinanceBucket>)
    requires |bs| == 6
    requires var p := ResolvePeriod(Some(Quarter), 0);
             IsDonationsTrend(trend, bs, [F.Donation(0, 500, 31 * MS_PER_DAY, None)], p)
    ensures var p := ResolvePeriod(Some(Quarter), 0);
            var items := DonationItems([F.Donation(0, 500, 31 * MS_PER_DAY, None)]);
            Shown(trend) == Tally(0, 0) && TallyIn(items, Edge(p, 0), p.end) == Tally(500, 1)
  {
    hide ResolvePeriod, Charted, IsDonationsTrend, TallyIn, Shown;
    var p, items := ResolvePeriod(Some(Quarter), 0), DonationItems([F.Donation(0, 500, 31 * MS_PER_DAY, None)]);
    FirstQuarter();
    ResolvedIsCharted(Quarter, 0);
    ShownPlusDropped(trend, bs, [F.Donation(0, 500, 31 * MS_PER_DAY, None)], p);
    assert items == [] + [Item(31 * MS_PER_DAY, 500)];
    TallyAppend([], Item(31 * MS_PER_DAY, 500), Edge(p, 0), Edge(p, 6));
    TallyAppend([], Item(31 * MS_PER_DAY, 500), Edge(p, 0), p.end);
    Nothing(0, 0, Edge(p, 0), Edge(p, 6));
    Nothing(0, 0, Edge(p, 0), p.end);
  }

  lemma FirstMonths()
    ensures MonthStart(23640) == 0 && MonthStart(23641) == 31 && MonthStart(23643) == 90
    ensures MonthIndex(0) == 23640 && UTCFullYear(0) == 1970
  {
    hide MonthIndex, YearOfDay;
    MonthIndexUnique(0, 23640);
    MonthIndexBounds(0);
  }

  lemma FirstQuarter()
    ensures UTCFullYear(0) == 1970
    ensures var p := ResolvePeriod(Some(Quarter), 0);
            Edge(p, 0) <= 0 && Edge(p, 6) == 31 * MS_PER_DAY && p.end == 90 * MS_PER_DAY && p.kind == Quarter
  {
    hide ResolvePeriod, MonthIndex, YearOfDay, MonthStart, UTCFullYear;
    FirstMonths();
    MonthsIncrease(23635, 23640);
    ResolvedWindow(Quarter, 0);
  }
}
