/** staff.service.ts: daily presence, its batched multi-day trend, and the confirmations behind both. */
module Presence {
  import opened Common

  datatype Verdict = Present | Absent

  /** status is nullable in the stored row. */
  datatype Confirmation = Confirmation(staffId: nat, date: int, status: Option<Verdict>, confirmedBy: User)

  datatype LeaveKind = Absence | Conge | Retard

  datatype Leave = Leave(staffId: nat, kind: LeaveKind, dateDebut: int, dateFin: Option<int>)

  /** dayBounds: a day is given by its first instant; its last one depends on the server's time zone. */
  ghost predicate DayEnds(endOf: int -> int) {
    && (forall s :: s <= endOf(s))
    && (forall s, t :: s <= t ==> endOf(s) <= endOf(t))
  }

  // ─── One day ──────────────────────────────────────────────────────────────

  /** Confirmations of one day by staff member; the last row wins, as when filling a Map. */
  function ByStaff(rows: seq<Confirmation>, start: int): map<nat, Option<Verdict>> {
    if rows == [] then map[]
    else
      var c := rows[|rows| - 1];
      var earlier := ByStaff(rows[..|rows| - 1], start);
      if c.date == start then earlier[c.staffId := c.status] else earlier
  }

  predicate Covers(l: Leave, start: int, end: int) {
    && (l.kind == Absence || l.kind == Conge)
    && l.dateDebut <= end
    && (l.dateFin.None? || l.dateFin.value >= start)
  }

  function OnLeave(rows: seq<Leave>, start: int, end: int): set<nat> {
    set l | l in rows && Covers(l, start, end) :: l.staffId
  }

  datatype Status = PRESENT | ABSENT | NON_CONFIRMED

  datatype Entry = Entry(staffId: nat, onLeave: bool, status: Status)

  function StatusIn(confirmed: map<nat, Option<Verdict>>, staffId: nat): Status {
    if staffId in confirmed && confirmed[staffId] == Some(Present) then PRESENT
    else if staffId in confirmed && confirmed[staffId] == Some(Absent) then ABSENT
    else NON_CONFIRMED
  }

  /** listDailyPresence: one entry per staff member, in their order. */
  function ListDailyPresence(staff: seq<nat>, confirmations: seq<Confirmation>, leaves: seq<Leave>, start: int, end: int)
    : (entries: seq<Entry>)
    ensures |entries| == |staff|
  {
    var confirmed, away := ByStaff(confirmations, start), OnLeave(leaves, start, end);
    if staff == [] then []
    else
      ListDailyPresence(staff[..|staff| - 1], confirmations, leaves, start, end)
      + [Entry(staff[|staff| - 1], staff[|staff| - 1] in away, StatusIn(confirmed, staff[|staff| - 1]))]
  }

  function CountStatus(entries: seq<Entry>, status: Status, withLeave: bool): nat {
    if entries == [] then 0
    else
      var e := entries[|entries| - 1];
      CountStatus(entries[..|entries| - 1], status, withLeave)
      + (if e.status == status && (withLeave || !e.onLeave) then 1 else 0)
  }

  function NonConfirmedCount(entries: seq<Entry>): nat {
    CountStatus(entries, NON_CONFIRMED, false)
  }

  function AwayUnconfirmed(entries: seq<Entry>): nat {
    if entries == [] then 0
    else
      var e := entries[|entries| - 1];
      AwayUnconfirmed(entries[..|entries| - 1]) + (if e.status == NON_CONFIRMED && e.onLeave then 1 else 0)
  }

  /** Present, absent, non-confirmed and unconfirmed-on-leave add up to the staff. */
  lemma {:induction false} CountsAddUp(entries: seq<Entry>)
    ensures CountStatus(entries, PRESENT, true) + CountStatus(entries, ABSENT, true) + NonConfirmedCount(entries)
          + AwayUnconfirmed(entries) == |entries|
  {
    if entries != [] {
      CountsAddUp(entries[..|entries| - 1]);
    }
  }

  // ─── Many days at once ────────────────────────────────────────────────────

  /** The unique constraint on (staffId, date). */
  ghost predicate Unique(rows: seq<Confirmation>) {
    forall i, j :: 0 <= i < j < |rows| ==> rows[i].staffId != rows[j].staffId || rows[i].date != rows[j].date
  }

  /** The rows a ranged query returns, in whatever order. */
  ghost predicate FetchedConfirmations(rows: seq<Confirmation>, table: seq<Confirmation>, lo: int, hi: int) {
    forall c :: c in rows <==> c in table && lo <= c.date <= hi
  }

  ghost predicate FetchedLeaves(rows: seq<Leave>, table: seq<Leave>, lo: int, hi: int) {
    forall l :: l in rows <==> l in table && Covers(l, lo, hi)
  }

  lemma {:induction false} ByStaffOf(rows: seq<Confirmation>, start: int, staffId: nat)
    ensures staffId in ByStaff(rows, start) <==> exists c :: c in rows && c.staffId == staffId && c.date == start
    ensures staffId in ByStaff(rows, start) ==>
              exists c :: c in rows && c.staffId == staffId && c.date == start && c.status == ByStaff(rows, start)[staffId]
  {
    if rows != [] {
      var last := |rows| - 1;
      ByStaffOf(rows[..last], start, staffId);
      assert forall c :: c in rows <==> c in rows[..last] || c == rows[last];
    }
  }

  /** With the unique constraint, any rows holding the same confirmations of a day give the same answers for it. */
  lemma SameDaySameMap(rows: seq<Confirmation>, table: seq<Confirmation>, start: int)
    requires Unique(table) && forall c: Confirmation :: c.date == start ==> (c in rows <==> c in table)
    ensures ByStaff(rows, start) == ByStaff(table, start)
  {
    var a, b := ByStaff(rows, start), ByStaff(table, start);
    forall staffId: nat
      ensures (staffId in a <==> staffId in b) && (staffId in a && staffId in b ==> a[staffId] == b[staffId])
    {
      ByStaffOf(rows, start, staffId);
      ByStaffOf(table, start, staffId);
    }
  }

  lemma SameDaySameLeaves(rows: seq<Leave>, table: seq<Leave>, start: int, end: int, lo: int, hi: int)
    requires FetchedLeaves(rows, table, lo, hi) && lo <= start && end <= hi
    ensures OnLeave(rows, start, end) == OnLeave(table, start, end)
  {
    assert forall l :: Covers(l, start, end) ==> Covers(l, lo, hi);
    assert forall l :: Covers(l, start, end) ==> (l in rows <==> l in table);
  }

  lemma CountAppend(entries: seq<Entry>, e: Entry, status: Status, withLeave: bool)
    ensures CountStatus(entries + [e], status, withLeave)
         == CountStatus(entries, status, withLeave) + (if e.status == status && (withLeave || !e.onLeave) then 1 else 0)
  {
    assert (entries + [e])[..|entries|] == entries;
  }

  datatype TrendDay = TrendDay(start: int, present: nat, absent: nat, nonConfirmed: nat)

  /** What a trend day must say: the counts derived from that day's own presence list. */
  predicate RefinesDaily(d: TrendDay, entries: seq<Entry>) {
    && d.present == CountStatus(entries, PRESENT, true)
    && d.absent == CountStatus(entries, ABSENT, true)
    && d.nonConfirmed == NonConfirmedCount(entries)
  }

  /**
   listPresenceTrend over ascending days: three range queries, then one pass of counters per day. Each entry equals the
   counts derived from listDailyPresence for its day.
   */
  method ListPresenceTrend(days: seq<int>, endOf: int -> int, staff: seq<nat>,
                           confirmations: seq<Confirmation>, onLeave: seq<Leave>,
                           ghost allStaff: seq<nat>, ghost allConfirmations: seq<Confirmation>, ghost allLeaves: seq<Leave>)
    returns (trend: seq<TrendDay>)
    requires multiset(staff) == multiset(allStaff)
    requires DayEnds(endOf) && forall i, j :: 0 <= i < j < |days| ==> days[i] <= days[j]
    requires Unique(allConfirmations)
    requires days != [] ==> FetchedConfirmations(confirmations, allConfirmations, days[0], endOf(days[|days| - 1]))
    requires days != [] ==> FetchedLeaves(onLeave, allLeaves, days[0], endOf(days[|days| - 1]))
    ensures |trend| == |days|
    ensures forall i :: 0 <= i < |days| ==>
      && trend[i].start == days[i]
      && RefinesDaily(trend[i], ListDailyPresence(allStaff, allConfirmations, allLeaves, days[i], endOf(days[i])))
      && CountsTables(trend[i], allStaff, allConfirmations, allLeaves, endOf(days[i]))
  {
    hide Covers, Unique, CountsTables;
    trend := [];
    for i := 0 to |days|
      invariant |trend| == i
      invariant forall k :: 0 <= k < i ==>
        && trend[k].start == days[k]
        && RefinesDaily(trend[k], ListDailyPresence(allStaff, allConfirmations, allLeaves, days[k], endOf(days[k])))
        && CountsTables(trend[k], allStaff, allConfirmations, allLeaves, endOf(days[k]))
    {
      var d := TrendFor(days[i], endOf(days[i]), staff, confirmations, onLeave, allConfirmations, allLeaves,
                        days[0], endOf(days[|days| - 1]));
      OrderIsIrrelevant(staff, allStaff, allConfirmations, allLeaves, days[i], endOf(days[i]));
      DailyCountsTables(d, allStaff, allConfirmations, allLeaves, endOf(days[i]));
      trend := trend + [d];
    }
  }

  function Tick(m: nat, confirmed: map<nat, Option<Verdict>>, away: set<nat>, status: Status, withLeave: bool): nat {
    if StatusIn(confirmed, m) == status && (withLeave || m !in away) then 1 else 0
  }

  /** How many of the staff have a status on a day. */
  function StaffCount(staff: seq<nat>, confirmed: map<nat, Option<Verdict>>, away: set<nat>, status: Status, withLeave: bool): nat {
    if staff == [] then 0
    else
      StaffCount(staff[..|staff| - 1], confirmed, away, status, withLeave)
      + Tick(staff[|staff| - 1], confirmed, away, status, withLeave)
  }

  lemma {:induction false} CountsStaff(staff: seq<nat>, confirmations: seq<Confirmation>, leaves: seq<Leave>, start: int, end: int,
                                       status: Status, withLeave: bool)
    ensures CountStatus(ListDailyPresence(staff, confirmations, leaves, start, end), status, withLeave)
         == StaffCount(staff, ByStaff(confirmations, start), OnLeave(leaves, start, end), status, withLeave)
  {
    hide OnLeave;
    if staff != [] {
      var last := |staff| - 1;
      CountsStaff(staff[..last], confirmations, leaves, start, end, status, withLeave);
      var entries := ListDailyPresence(staff, confirmations, leaves, start, end);
      CountAppend(entries[..last], entries[last], status, withLeave);
      assert entries[..last] == ListDailyPresence(staff[..last], confirmations, leaves, start, end);
      assert entries[..last] + [entries[last]] == entries;
    }
  }

  lemma {:induction false} CountWithout(staff: seq<nat>, i: nat, confirmed: map<nat, Option<Verdict>>, away: set<nat>,
                                        status: Status, withLeave: bool)
    requires i < |staff|
    ensures StaffCount(staff, confirmed, away, status, withLeave)
         == StaffCount(staff[..i] + staff[i + 1..], confirmed, away, status, withLeave)
          + Tick(staff[i], confirmed, away, status, withLeave)
  {
    hide Tick;
    var last := |staff| - 1;
    if i == last {
      assert staff[..i] + staff[i + 1..] == staff[..last];
    } else {
      CountWithout(staff[..last], i, confirmed, away, status, withLeave);
      var rest := staff[..i] + staff[i + 1..];
      assert rest[..|rest| - 1] == staff[..last][..i] + staff[..last][i + 1..];
      assert rest[|rest| - 1] == staff[last];
    }
  }

  lemma WithoutOne(s: seq<nat>, i: nat)
    requires i < |s|
    ensures multiset(s[..i] + s[i + 1..]) == multiset(s) - multiset{s[i]}
  {
    assert s == s[..i] + [s[i]] + s[i + 1..];
  }

  lemma RemoveLast(a: seq<nat>, b: seq<nat>) returns (i: nat)
    requires multiset(a) == multiset(b) && a != []
    ensures i < |b| && b[i] == a[|a| - 1]
    ensures multiset(b[..i] + b[i + 1..]) == multiset(a[..|a| - 1])
  {
    var last := |a| - 1;
    assert a[last] in multiset(b);
    i :| 0 <= i < |b| && b[i] == a[last];
    WithoutOne(b, i);
    WithoutOne(a, last);
    assert a[..last] + a[last + 1..] == a[..last];
  }

  lemma {:induction false} CountPermutes(a: seq<nat>, b: seq<nat>, confirmed: map<nat, Option<Verdict>>, away: set<nat>,
                                         status: Status, withLeave: bool)
    requires multiset(a) == multiset(b)
    ensures StaffCount(a, confirmed, away, status, withLeave) == StaffCount(b, confirmed, away, status, withLeave)
  {
    hide Tick;
    if a == [] {
      assert |multiset(b)| == 0;
    } else {
      var i := RemoveLast(a, b);
      CountPermutes(a[..|a| - 1], b[..i] + b[i + 1..], confirmed, away, status, withLeave);
      CountWithout(b, i, confirmed, away, status, withLeave);
    }
  }

  /** The two queries for the staff may return them in different orders: the counts are the same. */
  lemma OrderIsIrrelevant(a: seq<nat>, b: seq<nat>, confirmations: seq<Confirmation>, leaves: seq<Leave>, start: int, end: int)
    requires multiset(a) == multiset(b)
    ensures forall status, withLeave ::
      CountStatus(ListDailyPresence(a, confirmations, leaves, start, end), status, withLeave)
      == CountStatus(ListDailyPresence(b, confirmations, leaves, start, end), status, withLeave)
  {
    hide ListDailyPresence, OnLeave, CountStatus, ByStaff, StaffCount;
    forall status, withLeave
      ensures CountStatus(ListDailyPresence(a, confirmations, leaves, start, end), status, withLeave)
           == CountStatus(ListDailyPresence(b, confirmations, leaves, start, end), status, withLeave)
    {
      CountsStaff(a, confirmations, leaves, start, end, status, withLeave);
      CountsStaff(b, confirmations, leaves, start, end, status, withLeave);
      CountPermutes(a, b, ByStaff(confirmations, start), OnLeave(leaves, start, end), status, withLeave);
    }
  }

  /** The body of the map over days. */
  method TrendFor(start: int, end: int, staff: seq<nat>, confirmations: seq<Confirmation>, onLeave: seq<Leave>,
                  ghost allConfirmations: seq<Confirmation>, ghost allLeaves: seq<Leave>, ghost lo: int, ghost hi: int)
    returns (d: TrendDay)
    requires Unique(allConfirmations) && lo <= start <= end <= hi
    requires FetchedConfirmations(confirmations, allConfirmations, lo, hi) && FetchedLeaves(onLeave, allLeaves, lo, hi)
    ensures d.start == start && RefinesDaily(d, ListDailyPresence(staff, allConfirmations, allLeaves, start, end))
    ensures CountsTables(d, staff, allConfirmations, allLeaves, end)
  {
    hide CountsTables, Unique, FetchedLeaves, Covers, CountStatus;
    var confirmationByStaff := ByStaff(confirmations, start);
    var onLeaveStaffIds := OnLeave(onLeave, start, end);
    SameDaySameMap(confirmations, allConfirmations, start);
    SameDaySameLeaves(onLeave, allLeaves, start, end, lo, hi);
    var present, absent, nonConfirmed := 0, 0, 0;
    ghost var entries := ListDailyPresence([], allConfirmations, allLeaves, start, end);
    assert RefinesDaily(TrendDay(start, 0, 0, 0), entries) by { NobodyCounts(); }
    for k := 0 to |staff|
      invariant entries == ListDailyPresence(staff[..k], allConfirmations, allLeaves, start, end)
      invariant RefinesDaily(TrendDay(start, present, absent, nonConfirmed), entries)
    {
      var m := staff[k];
      var status := StatusIn(confirmationByStaff, m);
      assert staff[..k + 1][..k] == staff[..k];
      ghost var e := Entry(m, m in onLeaveStaffIds, status);
      CountAppend(entries, e, PRESENT, true);
      CountAppend(entries, e, ABSENT, true);
      CountAppend(entries, e, NON_CONFIRMED, false);
      entries := entries + [e];
      if status == PRESENT {
        present := present + 1;
      } else if status == ABSENT {
        absent := absent + 1;
      } else if m !in onLeaveStaffIds {
        nonConfirmed := nonConfirmed + 1;
      }
    }
    assert staff[..|staff|] == staff;
    d := TrendDay(start, present, absent, nonConfirmed);
    DailyCountsTables(d, staff, allConfirmations, allLeaves, end);
  }

  lemma NobodyCounts()
    ensures forall status, withLeave :: CountStatus([], status, withLeave) == 0
  {
  }

  // ─── Read off the tables ──────────────────────────────────────────────────

  /** A row of that person and day says so. */
  ghost predicate Answered(rows: seq<Confirmation>, staffId: nat, date: int, verdict: Verdict) {
    exists k :: 0 <= k < |rows| && rows[k].staffId == staffId && rows[k].date == date && rows[k].status == Some(verdict)
  }

  /** An absence or a congé of that person, still open or ending no earlier, has begun by the end of the day. */
  ghost predicate Away(rows: seq<Leave>, staffId: nat, start: int, end: int) {
    exists k :: 0 <= k < |rows| && rows[k].staffId == staffId && rows[k].kind != Retard && rows[k].dateDebut <= end
      && (rows[k].dateFin.Some? ==> start <= rows[k].dateFin.value)
  }

  /** The entry of one person and day, told by the rows of the two tables. */
  ghost predicate Reads(e: Entry, confirmations: seq<Confirmation>, leaves: seq<Leave>, start: int, end: int) {
    && (e.status == PRESENT <==> Answered(confirmations, e.staffId, start, Present))
    && (e.status == ABSENT <==> Answered(confirmations, e.staffId, start, Absent))
    && (e.onLeave <==> Away(leaves, e.staffId, start, end))
  }

  lemma StatusReads(confirmations: seq<Confirmation>, staffId: nat, start: int)
    requires Unique(confirmations)
    ensures var status := StatusIn(ByStaff(confirmations, start), staffId);
            && (status == PRESENT <==> Answered(confirmations, staffId, start, Present))
            && (status == ABSENT <==> Answered(confirmations, staffId, start, Absent))
  {
    ByStaffOf(confirmations, start, staffId);
  }

  lemma LeaveReads(leaves: seq<Leave>, staffId: nat, start: int, end: int)
    ensures staffId in OnLeave(leaves, start, end) <==> Away(leaves, staffId, start, end)
  {
    if Away(leaves, staffId, start, end) {
      var k :| 0 <= k < |leaves| && leaves[k].staffId == staffId && leaves[k].kind != Retard && leaves[k].dateDebut <= end
        && (leaves[k].dateFin.Some? ==> start <= leaves[k].dateFin.value);
      assert leaves[k] in leaves && Covers(leaves[k], start, end);
    }
  }

  /** The daily list has an entry per staff member, in order, and each says what the tables hold. */
  lemma {:induction false} DailyReadsTables(staff: seq<nat>, confirmations: seq<Confirmation>, leaves: seq<Leave>, start: int,
                                            end: int)
    requires Unique(confirmations)
    ensures var entries := ListDailyPresence(staff, confirmations, leaves, start, end);
            forall i :: 0 <= i < |staff| ==>
              entries[i].staffId == staff[i] && Reads(entries[i], confirmations, leaves, start, end)
  {
    hide Unique, ByStaff, OnLeave, StatusIn, Answered, Away;
    if staff != [] {
      var last := |staff| - 1;
      DailyReadsTables(staff[..last], confirmations, leaves, start, end);
      StatusReads(confirmations, staff[last], start);
      LeaveReads(leaves, staff[last], start, end);
    }
  }

  predicate Bears(e: Entry, status: Status, withLeave: bool) {
    e.status == status && (withLeave || !e.onLeave)
  }

  /** Where the entries with a status are. */
  ghost function Bearing(entries: seq<Entry>, status: Status, withLeave: bool): set<int> {
    set i | 0 <= i < |entries| && Bears(entries[i], status, withLeave)
  }

  lemma BearingLast(entries: seq<Entry>, status: Status, withLeave: bool)
    requires entries != []
    ensures var last := |entries| - 1;
            var init := Bearing(entries[..last], status, withLeave);
            && last !in init
            && Bearing(entries, status, withLeave) == if Bears(entries[last], status, withLeave) then init + {last} else init
  {
    hide Bears;
  }

  /** CountStatus counts them. */
  lemma {:induction false} CountIsSize(entries: seq<Entry>, status: Status, withLeave: bool)
    ensures CountStatus(entries, status, withLeave) == |Bearing(entries, status, withLeave)|
  {
    if entries != [] {
      BearingLast(entries, status, withLeave);
      CountIsSize(entries[..|entries| - 1], status, withLeave);
    }
  }

  /** A trend day counts, among the staff, the answers of that day's rows, and those without one who are not away. */
  ghost predicate CountsTables(d: TrendDay, staff: seq<nat>, confirmations: seq<Confirmation>, leaves: seq<Leave>, end: int) {
    && d.present == |set i | 0 <= i < |staff| && Answered(confirmations, staff[i], d.start, Present)|
    && d.absent == |set i | 0 <= i < |staff| && Answered(confirmations, staff[i], d.start, Absent)|
    && d.nonConfirmed == |set i | 0 <= i < |staff| && !Answered(confirmations, staff[i], d.start, Present)
                                  && !Answered(confirmations, staff[i], d.start, Absent) && !Away(leaves, staff[i], d.start, end)|
  }

  lemma DailyCountsTables(d: TrendDay, staff: seq<nat>, confirmations: seq<Confirmation>, leaves: seq<Leave>, end: int)
    requires Unique(confirmations)
    requires RefinesDaily(d, ListDailyPresence(staff, confirmations, leaves, d.start, end))
    ensures CountsTables(d, staff, confirmations, leaves, end)
  {
    hide Unique, ListDailyPresence, CountStatus, Answered, Away;
    var entries := ListDailyPresence(staff, confirmations, leaves, d.start, end);
    DailyReadsTables(staff, confirmations, leaves, d.start, end);
    CountIsSize(entries, PRESENT, true);
    CountIsSize(entries, ABSENT, true);
    CountIsSize(entries, NON_CONFIRMED, false);
    assert (set i | 0 <= i < |staff| && Answered(confirmations, staff[i], d.start, Present))
        == Bearing(entries, PRESENT, true);
    assert (set i | 0 <= i < |staff| && Answered(confirmations, staff[i], d.start, Absent))
        == Bearing(entries, ABSENT, true);
    assert (set i | 0 <= i < |staff| && !Answered(confirmations, staff[i], d.start, Present)
                    && !Answered(confirmations, staff[i], d.start, Absent) && !Away(leaves, staff[i], d.start, end))
        == Bearing(entries, NON_CONFIRMED, false);
  }

  // ─── Confirming and resetting ─────────────────────────────────────────────

  function Position(rows: seq<Confirmation>, staffId: nat, date: int): (i: Option<nat>)
    ensures i.Some? ==> i.value < |rows| && rows[i.value].staffId == staffId && rows[i.value].date == date
    ensures i.None? ==> forall k :: 0 <= k < |rows| ==> rows[k].staffId != staffId || rows[k].date != date
  {
    if rows == [] then None
    else if rows[0].staffId == staffId && rows[0].date == date then Some(0)
    else
      var rest := Position(rows[1..], staffId, date);
      if rest.Some? then Some(rest.value + 1) else None
  }

  function Without(rows: seq<Confirmation>, staffId: nat, date: int): (kept: seq<Confirmation>)
    ensures forall c :: c in kept <==> c in rows && (c.staffId != staffId || c.date != date)
  {
    if rows == [] then []
    else
      var rest := Without(rows[1..], staffId, date);
      assert rows == [rows[0]] + rows[1..];
      if rows[0].staffId == staffId && rows[0].date == date then rest else [rows[0]] + rest
  }

  lemma HeadIsUnique(rows: seq<Confirmation>, c: Confirmation)
    requires Unique(rows) && rows != [] && c in rows[1..]
    ensures c.staffId != rows[0].staffId || c.date != rows[0].date
  {
    var j :| 0 <= j < |rows| - 1 && rows[1..][j] == c;
    assert rows[j + 1] == c;
  }

  lemma {:induction false} WithoutIsUnique(rows: seq<Confirmation>, staffId: nat, date: int)
    requires Unique(rows)
    ensures Unique(Without(rows, staffId, date))
    decreases |rows|
  {
    if rows != [] {
      var rest := Without(rows[1..], staffId, date);
      WithoutIsUnique(rows[1..], staffId, date);
      forall i | 0 <= i < |rest| ensures rest[i].staffId != rows[0].staffId || rest[i].date != rows[0].date {
        HeadIsUnique(rows, rest[i]);
      }
    }
  }

  /** One person's answer for one day is set; every other answer of every day stays. */
  ghost predicate Records(before: seq<Confirmation>, after: seq<Confirmation>, row: Confirmation) {
    forall d ::
      ByStaff(after, d) == if d == row.date then ByStaff(before, d)[row.staffId := row.status] else ByStaff(before, d)
  }

  /** One person's answer for one day is gone; every other answer of every day stays. */
  ghost predicate Erases(before: seq<Confirmation>, after: seq<Confirmation>, staffId: nat, date: int) {
    forall d :: ByStaff(after, d) == if d == date then ByStaff(before, d) - {staffId} else ByStaff(before, d)
  }

  lemma UpsertMembers(before: seq<Confirmation>, row: Confirmation)
    requires Unique(before)
    ensures var at := Position(before, row.staffId, row.date);
            var after := if at.Some? then before[at.value := row] else before + [row];
            forall c :: c in after <==> c == row || (c in before && (c.staffId != row.staffId || c.date != row.date))
  {
    var at := Position(before, row.staffId, row.date);
    if at.Some? {
      var after := before[at.value := row];
      forall c ensures c in after <==> c == row || (c in before && (c.staffId != row.staffId || c.date != row.date)) {
        if c in before && (c.staffId != row.staffId || c.date != row.date) {
          var k :| 0 <= k < |before| && before[k] == c;
          assert after[k] == c;
        }
        assert after[at.value] == row;
      }
    }
  }

  /** The person's entry of that day shows this status, whatever leaves there are; everyone else's is as it was. */
  ghost predicate Shows(staff: seq<nat>, before: seq<Confirmation>, after: seq<Confirmation>, staffId: nat, date: int,
                        status: Status) {
    forall leaves, end, i :: 0 <= i < |staff| ==>
      ListDailyPresence(staff, after, leaves, date, end)[i].status
      == if staff[i] == staffId then status else ListDailyPresence(staff, before, leaves, date, end)[i].status
  }

  lemma {:induction false} StatusAt(staff: seq<nat>, confirmations: seq<Confirmation>, leaves: seq<Leave>, start: int, end: int,
                                    i: nat)
    requires i < |staff|
    ensures ListDailyPresence(staff, confirmations, leaves, start, end)[i].status
         == StatusIn(ByStaff(confirmations, start), staff[i])
  {
    hide ByStaff, OnLeave, StatusIn;
    if i < |staff| - 1 {
      StatusAt(staff[..|staff| - 1], confirmations, leaves, start, end, i);
    }
  }

  lemma ConfirmedShows(staff: seq<nat>, before: seq<Confirmation>, after: seq<Confirmation>, row: Confirmation, verdict: Verdict)
    requires Records(before, after, row) && row.status == Some(verdict)
    ensures Shows(staff, before, after, row.staffId, row.date, if verdict == Present then PRESENT else ABSENT)
  {
    hide ListDailyPresence, ByStaff;
    forall leaves, end, i | 0 <= i < |staff|
      ensures ListDailyPresence(staff, after, leaves, row.date, end)[i].status
           == if staff[i] == row.staffId then (if verdict == Present then PRESENT else ABSENT)
              else ListDailyPresence(staff, before, leaves, row.date, end)[i].status
    {
      StatusAt(staff, after, leaves, row.date, end, i);
      StatusAt(staff, before, leaves, row.date, end, i);
    }
  }

  lemma ErasedShows(staff: seq<nat>, before: seq<Confirmation>, after: seq<Confirmation>, staffId: nat, date: int)
    requires Erases(before, after, staffId, date)
    ensures Shows(staff, before, after, staffId, date, NON_CONFIRMED)
  {
    hide ListDailyPresence, ByStaff;
    forall leaves, end, i | 0 <= i < |staff|
      ensures ListDailyPresence(staff, after, leaves, date, end)[i].status
           == if staff[i] == staffId then NON_CONFIRMED else ListDailyPresence(staff, before, leaves, date, end)[i].status
    {
      StatusAt(staff, after, leaves, date, end, i);
      StatusAt(staff, before, leaves, date, end, i);
    }
  }

  class PresenceBook {
    var staff: seq<nat>
    var confirmations: seq<Confirmation>

    /** The upsert on (staffId, date): that day's answer for that person changes, nothing else does. */
    method ConfirmPresence(staffId: nat, date: int, verdict: Verdict, user: User) returns (r: Outcome<Confirmation>)
      requires Unique(confirmations)
      modifies this`confirmations
      ensures Unique(confirmations)
      ensures r.Ok? <==> staffId in staff
      ensures r.Fail? ==> confirmations == old(confirmations) && r.error == NotFound
      ensures r.Ok? ==> r.value == Confirmation(staffId, date, Some(verdict), user)
      ensures r.Ok? ==> forall c :: c in confirmations <==>
                c == r.value || (c in old(confirmations) && (c.staffId != staffId || c.date != date))
      ensures r.Ok? ==> Records(old(confirmations), confirmations, r.value)
      ensures r.Ok? ==>
                Shows(staff, old(confirmations), confirmations, staffId, date, if verdict == Present then PRESENT else ABSENT)
    {
      if staffId !in staff {
        return Fail(NotFound);
      }
      var row := Confirmation(staffId, date, Some(verdict), user);
      var at := Position(confirmations, staffId, date);
      if at.Some? {
        confirmations := confirmations[at.value := row];
      } else {
        confirmations := confirmations + [row];
      }
      r := Ok(row);
      UpsertMembers(old(confirmations), row);
      Upserted(old(confirmations), confirmations, row);
      ConfirmedShows(staff, old(confirmations), confirmations, row, verdict);
    }

    /** The deletion on (staffId, date): the person is non-confirmed again that day. */
    method ResetPresence(staffId: nat, date: int)
      requires Unique(confirmations)
      modifies this`confirmations
      ensures Unique(confirmations)
      ensures forall c :: c in confirmations <==> c in old(confirmations) && (c.staffId != staffId || c.date != date)
      ensures Erases(old(confirmations), confirmations, staffId, date)
      ensures Shows(staff, old(confirmations), confirmations, staffId, date, NON_CONFIRMED)
    {
      WithoutIsUnique(confirmations, staffId, date);
      confirmations := Without(confirmations, staffId, date);
      Erased(old(confirmations), confirmations, staffId, date);
      ErasedShows(staff, old(confirmations), confirmations, staffId, date);
    }
  }

  lemma Upserted(before: seq<Confirmation>, after: seq<Confirmation>, row: Confirmation)
    requires Unique(before) && Unique(after)
    requires forall c :: c in after <==> c == row || (c in before && (c.staffId != row.staffId || c.date != row.date))
    ensures Records(before, after, row)
  {
    forall d: int
      ensures ByStaff(after, d) == if d == row.date then ByStaff(before, d)[row.staffId := row.status] else ByStaff(before, d)
    {
      var a := ByStaff(after, d);
      var b := if d == row.date then ByStaff(before, d)[row.staffId := row.status] else ByStaff(before, d);
      forall staffId: nat
        ensures (staffId in a <==> staffId in b) && (staffId in a && staffId in b ==> a[staffId] == b[staffId])
      {
        ByStaffOf(before, d, staffId);
        ByStaffOf(after, d, staffId);
      }
      assert a == b;
    }
  }

  lemma Erased(before: seq<Confirmation>, after: seq<Confirmation>, staffId: nat, date: int)
    requires Unique(before) && Unique(after)
    requires forall c :: c in after <==> c in before && (c.staffId != staffId || c.date != date)
    ensures Erases(before, after, staffId, date)
  {
    forall d: int
      ensures ByStaff(after, d) == if d == date then ByStaff(before, d) - {staffId} else ByStaff(before, d)
    {
      var a := ByStaff(after, d);
      var b := if d == date then ByStaff(before, d) - {staffId} else ByStaff(before, d);
      forall other: nat
        ensures (other in a <==> other in b) && (other in a && other in b ==> a[other] == b[other])
      {
        ByStaffOf(before, d, other);
        ByStaffOf(after, d, other);
      }
      assert a == b;
    }
  }
}
