/** Three interleavings in which the budget is passed, each by a step that a quiet run excludes. */
module ExpenseRaceLimits {
  import opened Common
  import opened Calendar
  import opened Budget
  import opened Finance
  import opened FinanceLaws
  import opened ExpenseRaces
  import opened ExpenseRaceLaws
  import V = Validations

  const EPOCH: Bucket := Bucket(Sante, 1970, 1)

  function Row(amountXof: nat, workflow: WorkflowStatus): Transaction {
    Transaction(Depense, Sante, amountXof, 0, EnAttente, Some(workflow), None, None, None)
  }

  lemma EpochBucket(t: Transaction)
    requires t.category == Sante && t.date == 0
    ensures BucketOf(t) == EPOCH && InMonth(0, 1970, 1)
  {
    assert YearOfDay(0) == 1970;
    assert MonthIndex(0) == 12 * 1970;
    OwnMonthIff(t);
  }

  lemma PairSums(first: Transaction, second: Transaction)
    requires first.category == Sante && first.date == 0 && first.kind == Depense && first.workflow.Some?
    requires second.category == Sante && second.date == 0 && second.kind == Depense && second.workflow.Some?
    ensures forall part :: Sum([Some(first), Some(second)], part, EPOCH)
                        == Weight(part, EPOCH, Some(first)) + Weight(part, EPOCH, Some(second))
    ensures Spend(EPOCH, Some(first))
         == if first.workflow == Some(Approved) || first.workflow == Some(Completed) then first.amountXof else 0
    ensures Spend(EPOCH, Some(second))
         == if second.workflow == Some(Approved) || second.workflow == Some(Completed) then second.amountXof else 0
    ensures Committed([Some(first), Some(second)], EPOCH) == Spend(EPOCH, Some(first)) + Spend(EPOCH, Some(second))
  {
    hide InMonth, Weight;
    EpochBucket(first);
    SpendOf(EPOCH, first);
    SpendOf(EPOCH, second);
    forall part
      ensures Sum([Some(first), Some(second)], part, EPOCH)
           == Weight(part, EPOCH, Some(first)) + Weight(part, EPOCH, Some(second))
    {
      SumAppend([Some(first)], Some(second), part, EPOCH);
      SumAppend([], Some(first), part, EPOCH);
      assert [Some(first), Some(second)] == [Some(first)] + [Some(second)];
      assert [Some(first)] == [] + [Some(first)];
    }
  }

  lemma TraceStep(w: World, m: Move, rest: seq<Move>)
    ensures Trace(w, [m] + rest) == Trace(Next(w, m), rest)
  {
    assert ([m] + rest)[1..] == rest;
  }

  /** Two expenses of 5 on a line of 5: one approved, one awaiting approval, submitted by user 7. */
  function Start(): World {
    World(
      State([Some(Row(5, Approved)), Some(Row(5, PendingApproval))], map[EPOCH := 5], [],
            [V.Request(Expense(1), V.PendingValidation, None, 7, None, None)]),
      map[])
  }

  lemma StartIsSafe()
    ensures Consistent(Start()) && Guarded(Start(), EPOCH)
  {
    PairSums(Row(5, Approved), Row(5, PendingApproval));
    var reqs := Start().db.requests;
    forall id: nat ensures V.PendingCount(reqs, Expense(id)) == if id == 1 then 1 else 0 {
      V.CountAppend([], reqs[0], Expense(id));
      assert reqs == [] + [reqs[0]];
    }
  }

  lemma NothingCommitted(first: Transaction, second: Transaction)
    requires first.kind == Depense && first.category == Sante && first.date == 0
    requires second.kind == Depense && second.category == Sante && second.date == 0
    requires first.workflow == Some(Cancelled) || first.workflow == Some(PendingApproval)
    requires second.workflow == Some(Cancelled) || second.workflow == Some(PendingApproval)
    ensures forall part :: Sum([Some(first), Some(second)], part, EPOCH) == 0
  {
    hide InMonth, Sum;
    PairSums(first, second);
  }

  /** An approval alone at work, advanced by one phase. */
  lemma AdvanceOnce(db: State, procs: map<nat, Proc>, a: Proc, next: Phase, rest: seq<Move>)
    requires a.Approving? && !a.phase.HasWritten? && 2 !in procs && forall p :: p in procs ==> procs[p].Acting?
    requires NextPhase(World(db, procs[2 := a]), a) == Some(next)
    ensures Trace(World(db, procs[2 := a]), [Advance(2)] + rest)
         == Trace(World(db, procs[2 := a.(phase := next)]), rest)
  {
    hide NextPhase, BucketOf;
    var w := World(db, procs[2 := a]);
    assert procs[2 := a][2 := a.(phase := next)] == procs[2 := a.(phase := next)];
    assert !Waits(w, a);
    assert Next(w, Advance(2)) == World(db, procs[2 := a.(phase := next)]);
    TraceStep(w, Advance(2), rest);
  }

  /** The row of expense 1 as request 2 read it, and the table before and after its approval by user 8. */
  function Reader(seen: Transaction, phase: Phase): Proc {
    Approving(1, 8, None, seen, phase)
  }

  function Approval(db: State): State {
    After(db, WriteAndReview(db, 1, Approved, 8, None, V.Approved))
  }

  /** The five answers an approval of 5 gets with nothing committed on a line of 5. */
  lemma PhasesOf(w: World, seen: Transaction)
    requires seen == Row(5, PendingApproval) && |w.db.rows| == 2 && w.db.rows[1].Some? && Pending(w.db.rows[1].value)
    requires w.db.lines == map[EPOCH := 5] && forall part :: Sum(w.db.rows, part, EPOCH) == 0
    ensures NextPhase(w, Reader(seen, HasRead)) == Some(HasLine(5))
    ensures NextPhase(w, Reader(seen, HasLine(5))) == Some(HasReserved(5, 0))
    ensures NextPhase(w, Reader(seen, HasReserved(5, 0))) == Some(HasConsumed(5, 0, 0))
    ensures NextPhase(w, Reader(seen, HasConsumed(5, 0, 0))) == Some(HasLegacy(5, 0, 0, 0))
    ensures NextPhase(w, Reader(seen, HasLegacy(5, 0, 0, 0))) == Some(HasWritten(5))
  {
    hide BucketOf, Sum;
    EpochBucket(seen);
  }

  function FiveSteps(rest: seq<Move>): seq<Move> {
    [Advance(2)] + ([Advance(2)] + ([Advance(2)] + ([Advance(2)] + ([Advance(2)] + rest))))
  }

  /**
   With nothing committed on a line of 5, request 2 carries an approval of 5 up to its commit, whatever amount the row
   has by the time it is written.
   */
  lemma ApprovalReachesWrite(db: State, procs: map<nat, Proc>, seen: Transaction, rest: seq<Move>)
    requires 2 !in procs && forall p :: p in procs ==> procs[p].Acting?
    requires seen == Row(5, PendingApproval) && |db.rows| == 2 && db.rows[1].Some? && Pending(db.rows[1].value)
    requires db.lines == map[EPOCH := 5] && forall part :: Sum(db.rows, part, EPOCH) == 0
    ensures Trace(World(db, procs[2 := Reader(seen, HasRead)]), FiveSteps(rest))
         == Trace(World(db, procs[2 := Reader(seen, HasWritten(5))]), rest)
  {
    hide Sum, NextPhase, Trace;
    var r1 := [Advance(2)] + rest;
    var r2 := [Advance(2)] + r1;
    var r3 := [Advance(2)] + r2;
    var r4 := [Advance(2)] + r3;
    PhasesOf(World(db, procs[2 := Reader(seen, HasRead)]), seen);
    AdvanceOnce(db, procs, Reader(seen, HasRead), HasLine(5), r4);
    PhasesOf(World(db, procs[2 := Reader(seen, HasLine(5))]), seen);
    AdvanceOnce(db, procs, Reader(seen, HasLine(5)), HasReserved(5, 0), r3);
    PhasesOf(World(db, procs[2 := Reader(seen, HasReserved(5, 0))]), seen);
    AdvanceOnce(db, procs, Reader(seen, HasReserved(5, 0)), HasConsumed(5, 0, 0), r2);
    PhasesOf(World(db, procs[2 := Reader(seen, HasConsumed(5, 0, 0))]), seen);
    AdvanceOnce(db, procs, Reader(seen, HasConsumed(5, 0, 0)), HasLegacy(5, 0, 0, 0), r1);
    PhasesOf(World(db, procs[2 := Reader(seen, HasLegacy(5, 0, 0, 0))]), seen);
    AdvanceOnce(db, procs, Reader(seen, HasLegacy(5, 0, 0, 0)), HasWritten(5), rest);
  }

  lemma CommitOnce(db: State, procs: map<nat, Proc>, seen: Transaction, rest: seq<Move>)
    requires 2 !in procs
    ensures Trace(World(db, procs[2 := Reader(seen, HasWritten(5))]), [Advance(2)] + rest) == Trace(World(Approval(db), procs), rest)
  {
    hide BucketOf, WriteAndReview, Trace, NextPhase, RowHeld, LineHeld;
    var w := World(db, procs[2 := Reader(seen, HasWritten(5))]);
    assert w.procs - {2} == procs;
    assert Next(w, Advance(2)) == World(Approval(db), procs);
    TraceStep(w, Advance(2), rest);
  }

  /** The same, commit included. */
  lemma ApprovalGoesThrough(db: State, procs: map<nat, Proc>, seen: Transaction, rest: seq<Move>)
    requires 2 !in procs && forall p :: p in procs ==> procs[p].Acting?
    requires seen == Row(5, PendingApproval) && |db.rows| == 2 && db.rows[1].Some? && Pending(db.rows[1].value)
    requires db.lines == map[EPOCH := 5] && forall part :: Sum(db.rows, part, EPOCH) == 0
    ensures Trace(World(db, procs[2 := Reader(seen, HasRead)]), FiveSteps([Advance(2)] + rest))
         == Trace(World(Approval(db), procs), rest)
  {
    hide *;
    ApprovalReachesWrite(db, procs, seen, [Advance(2)] + rest);
    CommitOnce(db, procs, seen, rest);
  }

  function Requests(): V.Requests {
    [V.Request(Expense(1), V.PendingValidation, None, 7, None, None)]
  }

  lemma RequestsReviewed()
    ensures V.ReviewedAs(Requests(), Expense(1), 8, None, V.Approved).Ok?
  {
    assert V.FindPending(Requests(), Expense(1)) == Some(0);
  }

  /** Completion of expense 0 read before its cancellation; the freed budget goes to expense 1; then the completion lands. */
  function Resurrection(): seq<Move> {
    [Begin(0, Completing, 0)] + ([Begin(1, Cancelling, 0)] + ([Finish(1)] +
    ([BeginApproval(2, 1, 8, None)] + FiveSteps([Advance(2)] + ([Finish(0)] + [])))))
  }

  /** The ledger once expense 0 is cancelled, and its completion still waiting to land. */
  function Freed(): State {
    State([Some(Row(5, Cancelled)), Some(Row(5, PendingApproval))], map[EPOCH := 5], [], Requests())
  }

  function Late(): map<nat, Proc> {
    map[0 := Acting(Completing, 0, Row(5, Approved), false)]
  }

  lemma ResurrectionBegins(tail: seq<Move>)
    ensures Trace(Start(), [Begin(0, Completing, 0)] + ([Begin(1, Cancelling, 0)] + ([Finish(1)] +
                           ([BeginApproval(2, 1, 8, None)] + tail))))
         == Trace(World(Freed(), Late()[2 := Reader(Row(5, PendingApproval), HasRead)]), tail)
  {
    hide BucketOf, Sum, Trace, Consistent, Guarded, NextPhase;
    var s, canceller := Start(), Acting(Cancelling, 0, Row(5, Approved), false);
    var w1 := World(s.db, Late());
    assert Next(s, Begin(0, Completing, 0)) == w1;
    TraceStep(s, Begin(0, Completing, 0), [Begin(1, Cancelling, 0)] + ([Finish(1)] + ([BeginApproval(2, 1, 8, None)] + tail)));
    var w2 := World(s.db, Late()[1 := canceller]);
    assert Next(w1, Begin(1, Cancelling, 0)) == w2;
    TraceStep(w1, Begin(1, Cancelling, 0), [Finish(1)] + ([BeginApproval(2, 1, 8, None)] + tail));
    var w3 := World(Freed(), Late());
    assert Next(w2, Finish(1)) == w3 by {
      assert w2.procs - {1} == w3.procs;
      assert s.db.rows[0 := Some(Row(5, Cancelled))] == Freed().rows;
    }
    TraceStep(w2, Finish(1), [BeginApproval(2, 1, 8, None)] + tail);
    assert Next(w3, BeginApproval(2, 1, 8, None)) == World(Freed(), Late()[2 := Reader(Row(5, PendingApproval), HasRead)]);
    TraceStep(w3, BeginApproval(2, 1, 8, None), tail);
  }

  lemma ResurrectionEnds()
    ensures var end := Trace(World(Approval(Freed()), Late()), [Finish(0)] + []);
            Committed(end.db.rows, EPOCH) == 10 && end.db.lines == map[EPOCH := 5]
  {
    hide BucketOf, Sum, InMonth, Weight, V.ReviewedAs, NextPhase;
    RequestsReviewed();
    var w := World(Approval(Freed()), Late());
    assert w.db.rows == [Some(Row(5, Cancelled)), Some(Row(5, Approved))];
    TraceStep(w, Finish(0), []);
    assert Next(w, Finish(0)).db.rows == [Some(Row(5, Completed)), Some(Row(5, Approved))];
    PairSums(Row(5, Completed), Row(5, Approved));
  }

  /** Completing a row cancelled since the check takes the line of 5 to 10: every other step is quiet. */
  lemma ResurrectionOverspends()
    ensures Consistent(Start()) && Guarded(Start(), EPOCH)
    ensures Committed(Trace(Start(), Resurrection()).db.rows, EPOCH) == 10
    ensures Trace(Start(), Resurrection()).db.lines == map[EPOCH := 5]
  {
    hide Sum, Committed, Trace, Consistent, Guarded;
    StartIsSafe();
    ResurrectionBegins(FiveSteps([Advance(2)] + ([Finish(0)] + [])));
    NothingCommitted(Row(5, Cancelled), Row(5, PendingApproval));
    ApprovalGoesThrough(Freed(), Late(), Row(5, PendingApproval), [Finish(0)] + []);
    ResurrectionEnds();
  }

  const RAISE: Patch := Patch(None, None, Some(50), None, None, None, None, Keep)

  /** One expense of 5 awaiting approval on a line of 5, beside a cancelled one. */
  function Waiting(): World {
    World(State([Some(Row(5, Cancelled)), Some(Row(5, PendingApproval))], map[EPOCH := 5], [], Requests()), map[])
  }

  lemma WaitingIsSafe()
    ensures Consistent(Waiting()) && Guarded(Waiting(), EPOCH)
  {
    PairSums(Row(5, Cancelled), Row(5, PendingApproval));
    forall id: nat ensures V.PendingCount(Requests(), Expense(id)) == if id == 1 then 1 else 0 {
      V.CountAppend([], Requests()[0], Expense(id));
      assert Requests() == [] + [Requests()[0]];
    }
  }

  /** Approval of expense 1 begins, its amount is raised to 50, and the approval goes on with the 5 it read. */
  function EditRace(): seq<Move> {
    [BeginApproval(2, 1, 8, None)] + ([Begin(0, Editing(RAISE), 1)] + ([Finish(0)] + FiveSteps([Advance(2)] + [])))
  }

  /** The ledger once the amount is raised. */
  function Raised(): State {
    State([Some(Row(5, Cancelled)), Some(Row(50, PendingApproval))], map[EPOCH := 5], [], Requests())
  }

  lemma EditRaceBegins(tail: seq<Move>)
    ensures Trace(Waiting(), [BeginApproval(2, 1, 8, None)] + ([Begin(0, Editing(RAISE), 1)] + ([Finish(0)] + tail)))
         == Trace(World(Raised(), map[2 := Reader(Row(5, PendingApproval), HasRead)]), tail)
  {
    hide BucketOf, Sum, Trace, Consistent, Guarded, NextPhase;
    var s, reader := Waiting(), Reader(Row(5, PendingApproval), HasRead);
    var editor := Acting(Editing(RAISE), 1, Row(5, PendingApproval), false);
    var w1 := World(s.db, map[2 := reader]);
    assert Next(s, BeginApproval(2, 1, 8, None)) == w1;
    TraceStep(s, BeginApproval(2, 1, 8, None), [Begin(0, Editing(RAISE), 1)] + ([Finish(0)] + tail));
    var w2 := World(s.db, w1.procs[0 := editor]);
    assert Next(w1, Begin(0, Editing(RAISE), 1)) == w2;
    TraceStep(w1, Begin(0, Editing(RAISE), 1), [Finish(0)] + tail);
    var w3 := World(Raised(), w1.procs);
    assert Next(w2, Finish(0)) == w3 by {
      assert w2.procs - {0} == w3.procs;
      assert s.db.rows[1 := Some(Row(50, PendingApproval))] == Raised().rows;
    }
    TraceStep(w2, Finish(0), tail);
  }

  /** Editing an expense between the approval's read and its write takes a line of 5 to 50: the other steps are quiet. */
  lemma EditRaceOverspends()
    ensures Consistent(Waiting()) && Guarded(Waiting(), EPOCH)
    ensures Committed(Trace(Waiting(), EditRace()).db.rows, EPOCH) == 50
    ensures Trace(Waiting(), EditRace()).db.lines == map[EPOCH := 5]
  {
    hide BucketOf, Sum, InMonth, Weight, V.ReviewedAs, Consistent, Guarded, NextPhase;
    WaitingIsSafe();
    RequestsReviewed();
    var none: map<nat, Proc> := map[];
    EditRaceBegins(FiveSteps([Advance(2)] + []));
    NothingCommitted(Row(5, Cancelled), Row(50, PendingApproval));
    ApprovalGoesThrough(Raised(), none, Row(5, PendingApproval), []);
    assert Approval(Raised()).rows == [Some(Row(5, Cancelled)), Some(Row(50, Approved))];
    PairSums(Row(5, Cancelled), Row(50, Approved));
  }

  /** A validated expense of 5 recorded outside the workflow. */
  const PAID: Draft := Draft(Depense, Sante, 5, 0, Valide, None, None, None)

  /** Five phases of the approval of expense 1, a row recorded outside the workflow, and the commit. */
  function LegacyRace(): seq<Move> {
    [BeginApproval(2, 1, 8, None)] + FiveSteps([Atomic(Create(PAID))] + ([Advance(2)] + []))
  }

  lemma LegacySpends(first: Transaction, second: Transaction)
    requires first.category == Sante && first.date == 0 && first.kind == Depense && first.workflow == Some(Cancelled)
    requires second.category == Sante && second.date == 0 && second.kind == Depense && second.workflow.Some?
    ensures Committed([Some(first), Some(second), Some(NewRow(PAID))], EPOCH) == Spend(EPOCH, Some(second)) + 5
  {
    hide InMonth, Weight, Sum;
    PairSums(first, second);
    EpochBucket(first);
    SpendOf(EPOCH, NewRow(PAID));
    assert [Some(first), Some(second), Some(NewRow(PAID))] == [Some(first), Some(second)] + [Some(NewRow(PAID))];
    CommittedAppend([Some(first), Some(second)], Some(NewRow(PAID)), EPOCH);
  }

  /**
   A row recorded outside the workflow within the 5 available, between an approval's sums and its commit, takes a line
   of 5 to 10: no step overspends but the commit.
   */
  lemma LegacyRaceOverspends()
    ensures Consistent(Waiting()) && Guarded(Waiting(), EPOCH)
    ensures Committed(Trace(Waiting(), LegacyRace()).db.rows, EPOCH) == 10
    ensures Trace(Waiting(), LegacyRace()).db.lines == map[EPOCH := 5]
    ensures !Overspends(Waiting().db, Create(PAID), EPOCH)
  {
    hide BucketOf, Sum, InMonth, Weight, V.ReviewedAs, Consistent, Guarded, NextPhase;
    WaitingIsSafe();
    RequestsReviewed();
    var s, seen := Waiting(), Row(5, PendingApproval);
    var cancelled := Row(5, Cancelled);
    var tail := [Atomic(Create(PAID))] + ([Advance(2)] + []);
    NothingCommitted(cancelled, seen);
    assert !Overspends(s.db, Create(PAID), EPOCH) by { PairSums(cancelled, seen); }

    var w1 := World(s.db, map[2 := Reader(seen, HasRead)]);
    assert Next(s, BeginApproval(2, 1, 8, None)) == w1;
    TraceStep(s, BeginApproval(2, 1, 8, None), FiveSteps(tail));
    var none: map<nat, Proc> := map[];
    ApprovalReachesWrite(s.db, none, seen, tail);

    var w2 := World(s.db, map[2 := Reader(seen, HasWritten(5))]);
    var db3 := s.db.(rows := [Some(cancelled), Some(seen), Some(NewRow(PAID))]);
    var w3 := World(db3, w2.procs);
    assert s.db.rows + [Some(NewRow(PAID))] == db3.rows;
    assert Next(w2, Atomic(Create(PAID))) == w3;
    TraceStep(w2, Atomic(Create(PAID)), [Advance(2)] + []);
    TraceStep(w3, Advance(2), []);
    assert Approval(db3).rows == [Some(cancelled), Some(Row(5, Approved)), Some(NewRow(PAID))];
    assert Next(w3, Advance(2)).db == Approval(db3);
    LegacySpends(cancelled, Row(5, Approved));
    PairSums(cancelled, Row(5, Approved));
  }

  /**
   What a blind completion does to committed spending: nothing, unless the row was cancelled since it was read as
   approved, in which case the amount comes back.
   */
  lemma BlindCompletionEffect(db: State, id: nat, seen: Transaction, b: Bucket)
    requires BlindMove(db, id, seen, Completed).Ok? && FinanciallyLocked(db.rows[id].value)
    ensures var row := db.rows[id].value;
            var back := Spend(b, Some(row.(workflow := Some(Completed))));
            Committed(BlindMove(db, id, seen, Completed).value.rows, b)
            == Committed(db.rows, b) + (if row.workflow == Some(Cancelled) then back else 0)
  {
    hide Sum, InMonth;
    CommittedUpdate(db.rows, id, Some(db.rows[id].value.(workflow := Some(Completed))), b);
  }
}
