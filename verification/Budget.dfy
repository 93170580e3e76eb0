/**
 budget.service.ts: reserved and consumed amounts are never stored, only summed from the transaction rows.
 */
module Budget {
  import opened Common
  import opened Calendar

  datatype TransactionType = Recette | Depense

  datatype TransactionCategory =
    | Alimentation | Salaires | Entretien | Sante | Pedagogie | Equipement | Don | Virement | Apport | Autre
    | Vetements | Transport | Etudes | Sport | Loisirs | BureauFactures

  datatype TransactionStatus = Valide | EnAttente

  datatype WorkflowStatus = PendingApproval | Approved | Rejected | Completed | Cancelled

  /** workflow == None is a row outside the approval workflow. */
  datatype Transaction = Transaction(
    kind: TransactionType,
    category: TransactionCategory,
    amountXof: nat,
    date: int,
    status: TransactionStatus,
    workflow: Option<WorkflowStatus>,
    donorName: Option<string>,
    anonymousDonor: Option<bool>,
    supplierContact: Option<nat>)

  /** The transaction table: a row's id is its index, and a deleted row leaves its slot empty. */
  type Table = seq<Option<Transaction>>

  type Month = m: int | 1 <= m <= 12 witness 1

  datatype Bucket = Bucket(category: TransactionCategory, year: int, month: Month)

  // ─── One category and month ───────────────────────────────────────────────

  function MonthRange(year: int, month: Month): (int, int) {
    (DateUTC(year, month - 1, 1), DateUTC(year, month, 1))
  }

  predicate InMonth(date: int, year: int, month: Month) {
    var (gte, lt) := MonthRange(year, month);
    gte <= date < lt
  }

  function BucketOf(t: Transaction): Bucket {
    hide MonthIndex, MonthStart;
    FieldsOf(t.date);
    Bucket(t.category, UTCFullYear(t.date), UTCMonth(t.date) + 1)
  }

  /** The three aggregates, in the order the service runs them. */
  datatype Part = Reserved | Consumed | Legacy

  predicate Counts(part: Part, b: Bucket, t: Transaction) {
    && t.kind == Depense
    && t.category == b.category
    && InMonth(t.date, b.year, b.month)
    && match part
       case Reserved => t.workflow == Some(Approved)
       case Consumed => t.workflow == Some(Completed)
       case Legacy => t.workflow == None && t.status == Valide
  }

  function Weight(part: Part, b: Bucket, slot: Option<Transaction>): nat {
    if slot.Some? && Counts(part, b, slot.value) then slot.value.amountXof else 0
  }

  function Sum(rows: Table, part: Part, b: Bucket): nat {
    if rows == [] then 0
    else Sum(rows[..|rows| - 1], part, b) + Weight(part, b, rows[|rows| - 1])
  }

  datatype Availability = Availability(reservedXof: nat, consumedXof: nat)

  function CategoryAvailability(rows: Table, b: Bucket): Availability {
    Availability(Sum(rows, Reserved, b), Sum(rows, Consumed, b) + Sum(rows, Legacy, b))
  }

  /** Everything a budget line has already promised or paid. */
  function Committed(rows: Table, b: Bucket): nat {
    Sum(rows, Reserved, b) + Sum(rows, Consumed, b) + Sum(rows, Legacy, b)
  }

  function Spend(b: Bucket, slot: Option<Transaction>): nat {
    Weight(Reserved, b, slot) + Weight(Consumed, b, slot) + Weight(Legacy, b, slot)
  }

  // ─── The month a transaction is summed in ─────────────────────────────────

  lemma MonthRangeIsMonth(year: int, month: Month)
    requires Ordinary(year)
    ensures MonthRange(year, month)
         == (MonthStart(12 * year + month - 1) * MS_PER_DAY, MonthStart(12 * year + month) * MS_PER_DAY)
  {
    hide MonthStart, MakeDay;
    MakeDayIsMonthStart(year, month - 1, 1);
    MakeDayIsMonthStart(year, month, 1);
  }

  /** For an ordinary year, the half-open range holds exactly the instants of that UTC month. */
  lemma InMonthIff(date: int, year: int, month: Month)
    requires Ordinary(year)
    ensures InMonth(date, year, month) <==> UTCFullYear(date) == year && UTCMonth(date) + 1 == month
  {
    hide MonthStart, MonthIndex, DateUTC;
    MonthRangeIsMonth(year, month);
    FieldsOf(date);
    MonthIndexUnique(Day(date), 12 * year + month - 1);
  }

  /** Every sum of an ordinary bucket ranges over transactions of that bucket only. */
  lemma CountedInOwnBucket(part: Part, b: Bucket, t: Transaction)
    requires Ordinary(b.year)
    ensures Counts(part, b, t) ==> BucketOf(t) == b
  {
    hide InMonth, UTCFullYear, UTCMonth;
    InMonthIff(t.date, b.year, b.month);
  }

  /**
   A transaction falls in the range computed from its own year and month exactly when its year is not one of
   those Date.UTC moves to the twentieth century.
   */
  lemma OwnMonthIff(t: Transaction)
    ensures var b := BucketOf(t); InMonth(t.date, b.year, b.month) <==> Ordinary(b.year)
  {
    hide MonthStart, MonthIndex, MakeDay;
    var b := BucketOf(t);
    if Ordinary(b.year) {
      InMonthIff(t.date, b.year, b.month);
    } else {
      FieldsOf(t.date);
      MakeDayIsMonthStart(1900 + b.year, b.month - 1, 1);
      MonthIndexUnique(Day(t.date), 12 * b.year + b.month - 1);
      MonthsIncrease(12 * b.year + b.month, 12 * (1900 + b.year) + b.month - 1);
    }
  }

  /** Midnight of the first of January of the year 50. */
  const YEAR_FIFTY: int := -701_265 * MS_PER_DAY

  lemma FirstOfYearFifty()
    ensures MonthStart(12 * 50) * MS_PER_DAY == YEAR_FIFTY
  {
  }

  /** An expense dated 0050-01-01 and paid in full is in no sum of its own category and month. */
  lemma YearFiftyIsUncounted(t: Transaction)
    requires t == Transaction(Depense, Sante, 5, YEAR_FIFTY, Valide, Some(Completed), None, None, None)
    ensures BucketOf(t) == Bucket(Sante, 50, 1) && !InMonth(t.date, 50, 1)
    ensures Committed([Some(t)], BucketOf(t)) == 0
  {
    hide MonthIndex, MonthStart, YearOfDay, UTCFullYear, UTCMonth, InMonth, Sum;
    FirstOfYearFifty();
    MonthOfStart(12 * 50);
    OwnMonthIff(t);
    NowhereInMonth(t, Bucket(Sante, 50, 1));
  }

  lemma NowhereInMonth(t: Transaction, b: Bucket)
    requires !InMonth(t.date, b.year, b.month)
    ensures Committed([Some(t)], b) == 0
  {
    hide InMonth, Sum;
    SumOfUnmatched([Some(t)], Reserved, b);
    SumOfUnmatched([Some(t)], Consumed, b);
    SumOfUnmatched([Some(t)], Legacy, b);
  }

  // ─── How sums change with the table ───────────────────────────────────────

  lemma {:induction false} SumUpdate(rows: Table, i: nat, slot: Option<Transaction>, part: Part, b: Bucket)
    requires i < |rows|
    ensures Sum(rows[i := slot], part, b) + Weight(part, b, rows[i]) == Sum(rows, part, b) + Weight(part, b, slot)
  {
    hide Weight;
    var last := |rows| - 1;
    if i == last {
      assert rows[i := slot][..last] == rows[..last];
    } else {
      assert rows[i := slot][..last] == rows[..last][i := slot];
      SumUpdate(rows[..last], i, slot, part, b);
    }
  }

  lemma SumAppend(rows: Table, slot: Option<Transaction>, part: Part, b: Bucket)
    ensures Sum(rows + [slot], part, b) == Sum(rows, part, b) + Weight(part, b, slot)
  {
    hide Weight;
    assert (rows + [slot])[..|rows|] == rows;
  }

  lemma CommittedUpdate(rows: Table, i: nat, slot: Option<Transaction>, b: Bucket)
    requires i < |rows|
    ensures Committed(rows[i := slot], b) + Spend(b, rows[i]) == Committed(rows, b) + Spend(b, slot)
  {
    hide Weight, Sum;
    SumUpdate(rows, i, slot, Reserved, b);
    SumUpdate(rows, i, slot, Consumed, b);
    SumUpdate(rows, i, slot, Legacy, b);
  }

  lemma CommittedAppend(rows: Table, slot: Option<Transaction>, b: Bucket)
    ensures Committed(rows + [slot], b) == Committed(rows, b) + Spend(b, slot)
  {
    hide Weight, Sum;
    SumAppend(rows, slot, Reserved, b);
    SumAppend(rows, slot, Consumed, b);
    SumAppend(rows, slot, Legacy, b);
  }

  // ─── All categories of a month at once ────────────────────────────────────

  datatype Group = Group(category: TransactionCategory, sumXof: nat)

  /** What a groupBy on the category may return: each category with a matching row once, in any order. */
  ghost predicate IsGroupBy(groups: seq<Group>, rows: Table, part: Part, year: int, month: Month) {
    && (forall i, j :: 0 <= i < j < |groups| ==> groups[i].category != groups[j].category)
    && (forall i :: 0 <= i < |groups| ==> groups[i].sumXof == Sum(rows, part, Bucket(groups[i].category, year, month)))
    && (forall k :: 0 <= k < |rows| && rows[k].Some? && Counts(part, Bucket(rows[k].value.category, year, month), rows[k].value)
          ==> exists i :: 0 <= i < |groups| && groups[i].category == rows[k].value.category)
  }

  function GroupSum(groups: seq<Group>, c: TransactionCategory): nat {
    if groups == [] then 0
    else
      var g := groups[|groups| - 1];
      GroupSum(groups[..|groups| - 1], c) + (if g.category == c then g.sumXof else 0)
  }

  lemma {:induction false} GroupSumAt(groups: seq<Group>, c: TransactionCategory, i: nat)
    requires i < |groups| && groups[i].category == c
    requires forall j, k :: 0 <= j < k < |groups| ==> groups[j].category != groups[k].category
    ensures GroupSum(groups, c) == groups[i].sumXof
  {
    var last := |groups| - 1;
    if i < last {
      GroupSumAt(groups[..last], c, i);
    } else {
      GroupSumAbsent(groups[..last], c);
    }
  }

  lemma {:induction false} GroupSumAbsent(groups: seq<Group>, c: TransactionCategory)
    requires forall i :: 0 <= i < |groups| ==> groups[i].category != c
    ensures GroupSum(groups, c) == 0
  {
    if groups != [] {
      GroupSumAbsent(groups[..|groups| - 1], c);
    }
  }

  lemma {:induction false} SumOfUnmatched(rows: Table, part: Part, b: Bucket)
    requires forall k :: 0 <= k < |rows| && rows[k].Some? ==> !Counts(part, b, rows[k].value)
    ensures Sum(rows, part, b) == 0
  {
    hide Counts;
    if rows != [] {
      assert Weight(part, b, rows[|rows| - 1]) == 0;
      SumOfUnmatched(rows[..|rows| - 1], part, b);
    }
  }

  lemma GroupsGiveSums(groups: seq<Group>, rows: Table, part: Part, year: int, month: Month, c: TransactionCategory)
    requires IsGroupBy(groups, rows, part, year, month)
    ensures GroupSum(groups, c) == Sum(rows, part, Bucket(c, year, month))
  {
    hide InMonth;
    if i :| 0 <= i < |groups| && groups[i].category == c {
      GroupSumAt(groups, c, i);
    } else {
      GroupSumAbsent(groups, c);
      forall k | 0 <= k < |rows| && rows[k].Some? ensures !Counts(part, Bucket(c, year, month), rows[k].value) {
      }
      SumOfUnmatched(rows, part, Bucket(c, year, month));
    }
  }

  /** Reading the map as the dashboard does: an absent category means zeros. */
  function Entry(result: map<TransactionCategory, Availability>, c: TransactionCategory): Availability {
    if c in result then result[c] else Availability(0, 0)
  }

  /** The grouped read path agrees, for every category, with the locked single-category read path. */
  method GetAllCategoriesAvailability(rows: Table, year: int, month: Month,
                                      reservedRows: seq<Group>, completedRows: seq<Group>, legacyRows: seq<Group>)
    returns (result: map<TransactionCategory, Availability>)
    requires IsGroupBy(reservedRows, rows, Reserved, year, month)
    requires IsGroupBy(completedRows, rows, Consumed, year, month)
    requires IsGroupBy(legacyRows, rows, Legacy, year, month)
    ensures forall c :: Entry(result, c) == CategoryAvailability(rows, Bucket(c, year, month))
  {
    hide IsGroupBy;
    result := map[];
    for i := 0 to |reservedRows|
      invariant forall c :: Entry(result, c) == Availability(GroupSum(reservedRows[..i], c), 0)
    {
      var row := reservedRows[i];
      assert reservedRows[..i + 1][..i] == reservedRows[..i];
      var entry := Entry(result, row.category);
      result := result[row.category := entry.(reservedXof := entry.reservedXof + row.sumXof)];
    }
    assert reservedRows[..|reservedRows|] == reservedRows;
    for i := 0 to |completedRows|
      invariant forall c :: Entry(result, c) == Availability(GroupSum(reservedRows, c), GroupSum(completedRows[..i], c))
    {
      var row := completedRows[i];
      assert completedRows[..i + 1][..i] == completedRows[..i];
      var entry := Entry(result, row.category);
      result := result[row.category := entry.(consumedXof := entry.consumedXof + row.sumXof)];
    }
    assert completedRows[..|completedRows|] == completedRows;
    for i := 0 to |legacyRows|
      invariant forall c ::
        Entry(result, c)
        == Availability(GroupSum(reservedRows, c), GroupSum(completedRows, c) + GroupSum(legacyRows[..i], c))
    {
      var row := legacyRows[i];
      assert legacyRows[..i + 1][..i] == legacyRows[..i];
      var entry := Entry(result, row.category);
      result := result[row.category := entry.(consumedXof := entry.consumedXof + row.sumXof)];
    }
    assert legacyRows[..|legacyRows|] == legacyRows;
    forall c ensures Entry(result, c) == CategoryAvailability(rows, Bucket(c, year, month)) {
      GroupsGiveSums(reservedRows, rows, Reserved, year, month, c);
      GroupsGiveSums(completedRows, rows, Consumed, year, month, c);
      GroupsGiveSums(legacyRows, rows, Legacy, year, month, c);
    }
  }
}
