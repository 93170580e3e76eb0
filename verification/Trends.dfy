/**
 The bucketed series of the dashboard: finances.service.ts getDailyTrend and getMonthlyTrend, dashboard.service.ts
 getMonthlyFinanceBuckets and getDonationsTrend, against plain sums over a range of dates.
 */
module Trends {
  import opened Common
  import opened Calendar
  import opened DashboardPeriod
  import B = Budget

  // ─── Plain sums over a range ──────────────────────────────────────────────

  datatype Item = Item(date: int, amountXof: nat)

  datatype Tally = Tally(amountXof: nat, count: nat)

  function Plus(a: Tally, b: Tally): Tally {
    Tally(a.amountXof + b.amountXof, a.count + b.count)
  }

  /** What one item adds to the range [lo, hi). */
  function Share(x: Item, lo: int, hi: int): Tally {
    if lo <= x.date < hi then Tally(x.amountXof, 1) else Tally(0, 0)
  }

  /** Amount and number of the items dated in [lo, hi). */
  function TallyIn(items: seq<Item>, lo: int, hi: int): Tally {
    if items == [] then Tally(0, 0)
    else Plus(TallyIn(items[..|items| - 1], lo, hi), Share(items[|items| - 1], lo, hi))
  }

  /** The rows a query on a range of dates returns. */
  function Within(items: seq<Item>, lo: int, hi: int): (r: seq<Item>)
    ensures forall i :: 0 <= i < |r| ==> lo <= r[i].date < hi
  {
    if items == [] then []
    else
      var x := items[|items| - 1];
      Within(items[..|items| - 1], lo, hi) + (if lo <= x.date < hi then [x] else [])
  }

  lemma WithinAppend(items: seq<Item>, x: Item, lo: int, hi: int)
    ensures Within(items + [x], lo, hi) == Within(items, lo, hi) + (if lo <= x.date < hi then [x] else [])
  {
    assert (items + [x])[..|items|] == items;
  }

  lemma TallyAppend(items: seq<Item>, x: Item, lo: int, hi: int)
    ensures TallyIn(items + [x], lo, hi) == Plus(TallyIn(items, lo, hi), Share(x, lo, hi))
  {
    assert (items + [x])[..|items|] == items;
  }

  lemma {:induction false} TallyWithin(items: seq<Item>, start: int, end: int, lo: int, hi: int)
    requires start <= lo && hi <= end
    ensures TallyIn(Within(items, start, end), lo, hi) == TallyIn(items, lo, hi)
  {
    hide TallyIn, Within;
    if items == [] {
      Nothing(start, end, lo, hi);
    } else {
      var rest, x := items[..|items| - 1], items[|items| - 1];
      assert items == rest + [x];
      TallyWithin(rest, start, end, lo, hi);
      WithinAppend(rest, x, start, end);
      TallyAppend(rest, x, lo, hi);
      TallyAppend(Within(rest, start, end), x, lo, hi);
      assert Within(rest, start, end) + [] == Within(rest, start, end);
    }
  }

  lemma Nothing(start: int, end: int, lo: int, hi: int)
    ensures Within([], start, end) == [] && TallyIn([], lo, hi) == Tally(0, 0)
  {
  }

  lemma ShareSplit(x: Item, lo: int, mid: int, hi: int)
    requires lo <= mid <= hi
    ensures Plus(Share(x, lo, mid), Share(x, mid, hi)) == Share(x, lo, hi)
  {
  }

  lemma Interchange(a: Tally, b: Tally, c: Tally, d: Tally)
    ensures Plus(Plus(a, b), Plus(c, d)) == Plus(Plus(a, c), Plus(b, d))
  {
  }

  lemma {:induction false} TallySplit(items: seq<Item>, lo: int, mid: int, hi: int)
    requires lo <= mid <= hi
    ensures Plus(TallyIn(items, lo, mid), TallyIn(items, mid, hi)) == TallyIn(items, lo, hi)
    decreases |items|
  {
    hide Share, Plus;
    if items == [] {
      NothingAdded();
    } else {
      var rest, x := items[..|items| - 1], items[|items| - 1];
      TallySplit(rest, lo, mid, hi);
      ShareSplit(x, lo, mid, hi);
      Interchange(TallyIn(rest, lo, mid), Share(x, lo, mid), TallyIn(rest, mid, hi), Share(x, mid, hi));
    }
  }

  lemma NothingAdded()
    ensures Plus(Tally(0, 0), Tally(0, 0)) == Tally(0, 0)
  {
  }

  /** What n consecutive buckets hold together, bucket i covering [edge(i), edge(i + 1)). */
  function InBuckets(items: seq<Item>, edge: int -> int, n: nat): Tally {
    if n == 0 then Tally(0, 0) else Plus(InBuckets(items, edge, n - 1), TallyIn(items, edge(n - 1), edge(n)))
  }

  /** Consecutive windows conserve: together they hold exactly what lies between the first edge and the last. */
  lemma {:induction false} BucketsConserve(items: seq<Item>, edge: int -> int, n: nat)
    requires forall i :: 0 <= i < n ==> edge(i) <= edge(i + 1)
    ensures edge(0) <= edge(n) && InBuckets(items, edge, n) == TallyIn(items, edge(0), edge(n))
  {
    hide TallyIn;
    if n == 0 {
      EmptyRange(items, edge(0));
    } else {
      BucketsConserve(items, edge, n - 1);
      TallySplit(items, edge(0), edge(n - 1), edge(n));
    }
  }

  lemma {:induction false} EmptyRange(items: seq<Item>, at: int)
    ensures TallyIn(items, at, at) == Tally(0, 0)
    decreases |items|
  {
    hide TallyIn;
    if items == [] {
      Nothing(at, at, at, at);
    } else {
      var rest, x := items[..|items| - 1], items[|items| - 1];
      assert items == rest + [x];
      EmptyRange(rest, at);
      TallyAppend(rest, x, at, at);
    }
  }

  // ─── Transactions as items ────────────────────────────────────────────────

  /** The validated rows of one type. */
  function Validated(rows: B.Table, kind: B.TransactionType): seq<Item> {
    if rows == [] then []
    else
      var slot := rows[|rows| - 1];
      Validated(rows[..|rows| - 1], kind)
      + (if slot.Some? && slot.value.status == B.Valide && slot.value.kind == kind
         then [Item(slot.value.date, slot.value.amountXof)] else [])
  }

  /** The aggregate of getMonthlyTrend: the validated amounts of one type dated in [lo, hi). */
  function RangeSum(rows: B.Table, kind: B.TransactionType, lo: int, hi: int): nat {
    TallyIn(Validated(rows, kind), lo, hi).amountXof
  }

  /** getDailyTrend's one query, for both types. */
  function ValidatedBetween(rows: B.Table, start: int, end: int): (ts: seq<B.Transaction>)
    ensures forall i :: 0 <= i < |ts| ==> start <= ts[i].date < end
  {
    if rows == [] then []
    else
      var slot := rows[|rows| - 1];
      ValidatedBetween(rows[..|rows| - 1], start, end)
      + (if slot.Some? && slot.value.status == B.Valide && start <= slot.value.date < end then [slot.value] else [])
  }

  function OfKind(ts: seq<B.Transaction>, kind: B.TransactionType): seq<Item> {
    if ts == [] then []
    else
      var t := ts[|ts| - 1];
      OfKind(ts[..|ts| - 1], kind) + (if t.kind == kind then [Item(t.date, t.amountXof)] else [])
  }

  lemma OfKindAppend(ts: seq<B.Transaction>, t: B.Transaction, kind: B.TransactionType)
    ensures OfKind(ts + [t], kind) == OfKind(ts, kind) + (if t.kind == kind then [Item(t.date, t.amountXof)] else [])
  {
    assert (ts + [t])[..|ts|] == ts;
  }

  lemma {:induction false} QueryIsWithin(rows: B.Table, start: int, end: int, kind: B.TransactionType)
    ensures OfKind(ValidatedBetween(rows, start, end), kind) == Within(Validated(rows, kind), start, end)
  {
    hide Within, OfKind;
    if rows == [] {
      assert OfKind([], kind) == [] && Within([], start, end) == [] by {
        Nothing(start, end, start, end);
        NoneOfKind(kind);
      }
    } else {
      var rest, slot := rows[..|rows| - 1], rows[|rows| - 1];
      QueryIsWithin(rest, start, end, kind);
      var ts, items := ValidatedBetween(rest, start, end), Validated(rest, kind);
      assert ts + [] == ts && items + [] == items && OfKind(ts, kind) + [] == OfKind(ts, kind);
      if slot.Some? && slot.value.status == B.Valide {
        OfKindAppend(ts, slot.value, kind);
        WithinAppend(items, Item(slot.value.date, slot.value.amountXof), start, end);
      }
    }
  }

  lemma NoneOfKind(kind: B.TransactionType)
    ensures OfKind([], kind) == []
  {
  }

  lemma ValidatedAppend(rows: B.Table, slot: Option<B.Transaction>, kind: B.TransactionType)
    ensures Validated([], kind) == []
    ensures Validated(rows + [slot], kind) == Validated(rows, kind) +
            if slot.Some? && slot.value.status == B.Valide && slot.value.kind == kind
            then [Item(slot.value.date, slot.value.amountXof)] else []
  {
    assert (rows + [slot])[..|rows|] == rows;
  }

  /** What a range sum is: nothing of no rows, and of one more row its amount when validated, of the type and in range. */
  lemma RangeSumCounts(rows: B.Table, slot: Option<B.Transaction>, kind: B.TransactionType, lo: int, hi: int)
    ensures RangeSum([], kind, lo, hi) == 0
    ensures RangeSum(rows + [slot], kind, lo, hi) == RangeSum(rows, kind, lo, hi) +
            if slot.Some? && slot.value.status == B.Valide && slot.value.kind == kind && lo <= slot.value.date < hi
            then slot.value.amountXof else 0
  {
    hide TallyIn, Validated;
    ValidatedAppend(rows, slot, kind);
    Nothing(lo, hi, lo, hi);
    var items := Validated(rows, kind);
    if slot.Some? && slot.value.status == B.Valide && slot.value.kind == kind {
      TallyAppend(items, Item(slot.value.date, slot.value.amountXof), lo, hi);
    } else {
      assert items + [] == items;
    }
  }

  /** What a tally is, in the same way. */
  lemma TallyCounts(items: seq<Item>, x: Item, lo: int, hi: int)
    ensures TallyIn([], lo, hi) == Tally(0, 0)
    ensures var before, after := TallyIn(items, lo, hi), TallyIn(items + [x], lo, hi);
            if lo <= x.date < hi then after.amountXof == before.amountXof + x.amountXof && after.count == before.count + 1
            else after == before
  {
    TallyAppend(items, x, lo, hi);
  }

  // ─── The daily finance trend ──────────────────────────────────────────────

  datatype FinanceBucket = FinanceBucket(title: string, recettesXof: nat, depensesXof: nat)

  /** Where the i-th day of [start, end) begins, counting only what lies in the range. */
  function DayEdge(start: int, end: int, i: int): int {
    if i <= 0 then start
    else if (Day(start) + i) * MS_PER_DAY < end then (Day(start) + i) * MS_PER_DAY
    else end
  }

  predicate InDay(start: int, end: int, date: int, i: int) {
    DayEdge(start, end, i) <= date < DayEdge(start, end, i + 1)
  }

  /** Inside the range, a date belongs to the i-th bucket exactly when it falls on the i-th day. */
  lemma DayBucket(start: int, end: int, date: int, i: nat)
    requires start <= date < end && i < DayCeiling(end) - Day(start)
    ensures InDay(start, end, date, i) <==> Day(date) == Day(start) + i
    ensures Day(start) <= Day(date) < DayCeiling(end)
  {
  }

  /** One bucket per day of the range, labelled and summed over exactly that day's part of the range. */
  ghost predicate IsDailyTrend(days: seq<FinanceBucket>, rows: B.Table, start: int, end: int) {
    && |days| == DayCeiling(end) - Day(start)
    && forall i :: 0 <= i < |days| ==> IsDay(days[i], rows, start, end, i)
  }

  ghost predicate IsDay(b: FinanceBucket, rows: B.Table, start: int, end: int, i: int) {
    && IsLabelOf(b.title, Day(start) + i)
    && b.recettesXof == RangeSum(rows, B.Recette, DayEdge(start, end, i), DayEdge(start, end, i + 1))
    && b.depensesXof == RangeSum(rows, B.Depense, DayEdge(start, end, i), DayEdge(start, end, i + 1))
  }

  datatype Sums = Sums(recettesXof: nat, depensesXof: nat)

  /** The sums a bucket holds once the transactions ts have been added. */
  function SumsOf(ts: seq<B.Transaction>, lo: int, hi: int): Sums {
    Sums(TallyIn(OfKind(ts, B.Recette), lo, hi).amountXof, TallyIn(OfKind(ts, B.Depense), lo, hi).amountXof)
  }

  function Added(s: Sums, t: B.Transaction): Sums {
    if t.kind == B.Recette then s.(recettesXof := s.recettesXof + t.amountXof)
    else s.(depensesXof := s.depensesXof + t.amountXof)
  }

  lemma SumsAppend(ts: seq<B.Transaction>, t: B.Transaction, lo: int, hi: int)
    ensures SumsOf(ts + [t], lo, hi) == if lo <= t.date < hi then Added(SumsOf(ts, lo, hi), t) else SumsOf(ts, lo, hi)
  {
    hide OfKind, TallyIn;
    var r, d := OfKind(ts, B.Recette), OfKind(ts, B.Depense);
    OfKindAppend(ts, t, B.Recette);
    OfKindAppend(ts, t, B.Depense);
    TallyAppend(r, Item(t.date, t.amountXof), lo, hi);
    TallyAppend(d, Item(t.date, t.amountXof), lo, hi);
    assert r + [] == r && d + [] == d;
  }

  method SeedDays(start: int, end: int) returns (order: seq<string>, byDay: map<string, Sums>)
    requires Labelled(start, end)
    ensures start < end ==> LabelsDays(order, Day(start), DayCeiling(end))
    ensures start >= end ==> order == []
    ensures forall s :: s in byDay <==> s in order
    ensures forall s :: s in byDay ==> byDay[s] == Sums(0, 0)
  {
    hide YearOfDay, MonthIndex, MonthStart, MakeDay, DayLabel;
    order, byDay := [], map[];
    var d := start;
    while d < end
      invariant if |order| == 0 then d == start else d == (Day(start) + |order|) * MS_PER_DAY
      invariant start <= d && Day(d) == Day(start) + |order|
      invariant if start < end then Day(d) <= DayCeiling(end) else order == []
      invariant LabelsDays(order, Day(start), Day(d))
      invariant forall s :: s in byDay <==> s in order
      invariant forall s :: s in byDay ==> byDay[s] == Sums(0, 0)
      decreases DayCeiling(end) - Day(d)
    {
      LabelledDay(start, d, end);
      DateUTCSteps(d, 1);
      LabelsExtend(order, Day(start), Day(d));
      order, byDay := order + [DayLabel(Day(d))], byDay[DayLabel(Day(d)) := Sums(0, 0)];
      d := DateUTC(UTCFullYear(d), UTCMonth(d), UTCDate(d) + 1);
    }
  }

  /** Every bucket holds the transactions of its own day among the first ones. */
  ghost predicate Filled(order: seq<string>, byDay: map<string, Sums>, ts: seq<B.Transaction>, start: int, end: int) {
    && (forall s :: s in byDay <==> s in order)
    && forall i :: 0 <= i < |order| ==> Holds(byDay, order[i], ts, start, end, i)
  }

  ghost predicate Holds(byDay: map<string, Sums>, title: string, ts: seq<B.Transaction>, start: int, end: int, i: int) {
    title in byDay && byDay[title] == SumsOf(ts, DayEdge(start, end, i), DayEdge(start, end, i + 1))
  }

  lemma LabelsDistinct(order: seq<string>, first: int, past: int, i: nat, j: nat)
    requires LabelsDays(order, first, past) && i < |order| && j < |order| && order[i] == order[j]
    ensures i == j
  {
    hide DayLabel, FourDigitYear;
    assert IsLabelOf(order[i], first + i) && IsLabelOf(order[j], first + j);
    DayLabelInjective(first + i, first + j);
  }

  /** One turn of the counting loop: the transaction lands in the bucket of its day, and in no other. */
  lemma LandsInOne(order: seq<string>, byDay: map<string, Sums>, ts: seq<B.Transaction>, t: B.Transaction, start: int, end: int)
    requires LabelsDays(order, Day(start), DayCeiling(end)) && Filled(order, byDay, ts, start, end)
    requires start <= t.date < end
    ensures FourDigitYear(Day(t.date)) && DayLabel(Day(t.date)) in byDay
    ensures var key := DayLabel(Day(t.date));
            Filled(order, byDay[key := Added(byDay[key], t)], ts + [t], start, end)
  {
    hide DayLabel, FourDigitYear, SumsOf, DayEdge, Added;
    DayBucket(start, end, t.date, 0);
    var own := Day(t.date) - Day(start);
    assert IsLabelOf(order[own], Day(start) + own);
    var key := DayLabel(Day(t.date));
    assert key == order[own];
    var after := byDay[key := Added(byDay[key], t)];
    forall i | 0 <= i < |order| ensures Holds(after, order[i], ts + [t], start, end, i) {
      DayBucket(start, end, t.date, i);
      SumsAppend(ts, t, DayEdge(start, end, i), DayEdge(start, end, i + 1));
      assert Holds(byDay, order[i], ts, start, end, i);
      if order[i] == key {
        LabelsDistinct(order, Day(start), DayCeiling(end), i, own);
      }
    }
  }

  lemma {:induction false} NoSums(start: int, end: int, i: int)
    ensures SumsOf([], DayEdge(start, end, i), DayEdge(start, end, i + 1)) == Sums(0, 0)
  {
  }

  method GetDailyTrend(rows: B.Table, start: int, end: int) returns (days: seq<FinanceBucket>)
    requires Labelled(start, end)
    ensures start < end ==> IsDailyTrend(days, rows, start, end)
    ensures start >= end ==> days == []
  {
    hide YearOfDay, DayLabel, SumsOf, LabelsDays, FourDigitYear, UTCFullYear, Labelled, RangeSum, DayEdge;
    var transactions := ValidatedBetween(rows, start, end);
    var order, byDay := SeedDays(start, end);
    assert Filled(order, byDay, [], start, end) by {
      forall i | 0 <= i < |order| ensures Holds(byDay, order[i], [], start, end, i) {
        NoSums(start, end, i);
      }
    }
    for j := 0 to |transactions|
      invariant Filled(order, byDay, transactions[..j], start, end)
    {
      var t := transactions[j];
      LandsInOne(order, byDay, transactions[..j], t, start, end);
      assert transactions[..j + 1] == transactions[..j] + [t];
      var key := DayLabel(Day(t.date));
      byDay := byDay[key := Added(byDay[key], t)];
    }
    assert transactions[..|transactions|] == transactions;
    days := [];
    for i := 0 to |order|
      invariant |days| == i
      invariant forall k :: 0 <= k < i ==> IsDay(days[k], rows, start, end, k)
    {
      assert Holds(byDay, order[i], transactions, start, end, i);
      QuerySums(rows, start, end, i);
      LabelAt(order, Day(start), DayCeiling(end), i);
      days := days + [FinanceBucket(order[i], byDay[order[i]].recettesXof, byDay[order[i]].depensesXof)];
    }
    if start < end {
      assert Day(start) < DayCeiling(end);
      LabelCount(order, Day(start), DayCeiling(end));
    }
  }

  lemma LabelAt(order: seq<string>, first: int, past: int, i: nat)
    requires LabelsDays(order, first, past) && i < |order|
    ensures IsLabelOf(order[i], first + i)
  {
  }

  lemma LabelCount(order: seq<string>, first: int, past: int)
    requires LabelsDays(order, first, past) && first <= past
    ensures |order| == past - first
  {
  }

  /** Between the range's own edges, the query and the whole table sum to the same. */
  lemma QuerySums(rows: B.Table, start: int, end: int, i: nat)
    requires start < end
    ensures SumsOf(ValidatedBetween(rows, start, end), DayEdge(start, end, i), DayEdge(start, end, i + 1))
         == Sums(RangeSum(rows, B.Recette, DayEdge(start, end, i), DayEdge(start, end, i + 1)),
                 RangeSum(rows, B.Depense, DayEdge(start, end, i), DayEdge(start, end, i + 1)))
  {
    hide Within, Validated, ValidatedBetween, OfKind, TallyIn;
    var lo, hi := DayEdge(start, end, i), DayEdge(start, end, i + 1);
    EdgesInRange(start, end, i);
    QueryIsWithin(rows, start, end, B.Recette);
    QueryIsWithin(rows, start, end, B.Depense);
    TallyWithin(Validated(rows, B.Recette), start, end, lo, hi);
    TallyWithin(Validated(rows, B.Depense), start, end, lo, hi);
  }

  lemma EdgesInRange(start: int, end: int, i: nat)
    requires start < end
    ensures start <= DayEdge(start, end, i) <= DayEdge(start, end, i + 1) <= end
  {
  }

  function Recettes(days: seq<FinanceBucket>): nat {
    if days == [] then 0 else Recettes(days[..|days| - 1]) + days[|days| - 1].recettesXof
  }

  function Depenses(days: seq<FinanceBucket>): nat {
    if days == [] then 0 else Depenses(days[..|days| - 1]) + days[|days| - 1].depensesXof
  }

  lemma {:induction false} DayTotals(days: seq<FinanceBucket>, rows: B.Table, start: int, end: int)
    requires forall i :: 0 <= i < |days| ==> IsDay(days[i], rows, start, end, i)
    ensures Recettes(days) == InBuckets(Validated(rows, B.Recette), i => DayEdge(start, end, i), |days|).amountXof
    ensures Depenses(days) == InBuckets(Validated(rows, B.Depense), i => DayEdge(start, end, i), |days|).amountXof
  {
    hide DayEdge, Validated, TallyIn, IsLabelOf;
    if days != [] {
      var last := |days| - 1;
      DayTotals(days[..last], rows, start, end);
      assert IsDay(days[last], rows, start, end, last);
    }
  }

  /** Daily buckets lose and duplicate nothing: their totals are the plain sums of the range, aligned to midnight or not. */
  lemma DailyTrendConserves(days: seq<FinanceBucket>, rows: B.Table, start: int, end: int)
    requires start < end && IsDailyTrend(days, rows, start, end)
    ensures Recettes(days) == RangeSum(rows, B.Recette, start, end)
    ensures Depenses(days) == RangeSum(rows, B.Depense, start, end)
  {
    hide Validated, TallyIn, IsDay;
    var edge := i => DayEdge(start, end, i);
    DayTotals(days, rows, start, end);
    forall i | 0 <= i < |days| ensures edge(i) <= edge(i + 1) {
      EdgesInRange(start, end, i);
    }
    BucketsConserve(Validated(rows, B.Recette), edge, |days|);
    BucketsConserve(Validated(rows, B.Depense), edge, |days|);
    assert edge(0) == start && edge(|days|) == end;
  }
}
