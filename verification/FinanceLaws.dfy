/** What every serial run of finance operations keeps. */
module FinanceLaws {
  import opened Common
  import opened Calendar
  import opened Budget
  import opened Finance
  import V = Validations

  /** The row an operation may write; a creation writes the first free slot. */
  function Touched(s: State, op: Op): nat {
    match op
    case Create(_) => |s.rows|
    case Donate(_, _, _, _) => |s.rows|
    case SetLine(_, _) => |s.rows|
    case DeleteLine(_) => |s.rows|
    case Update(id, _) => id
    case Delete(id) => id
    case Submit(id, _, _) => id
    case Approve(id, _, _) => id
    case Reject(id, _, _) => id
    case Resubmit(id, _, _) => id
    case Complete(id) => id
    case Cancel(id) => id
  }

  /** An operation writes one row at most, and rows are never renumbered. */
  lemma OnlyTouched(s: State, op: Op)
    ensures var s' := Step(s, op);
            && (|s'.rows| == |s.rows| || (|s'.rows| == |s.rows| + 1 && Touched(s, op) == |s.rows|))
            && forall j :: 0 <= j < |s.rows| && j != Touched(s, op) ==> s'.rows[j] == s.rows[j]
  {
    hide BucketOf, CategoryAvailability, V.Created, V.ReviewedAs;
  }

  // ─── The workflow table and the field lock ────────────────────────────────

  predicate SameFinancials(t: Transaction, u: Transaction) {
    t.kind == u.kind && t.category == u.category && t.amountXof == u.amountXof && t.date == u.date
  }

  /** Every change of a row's workflow status, by any operation, is an arrow of the transition table. */
  lemma FollowsTable(s: State, op: Op, id: nat)
    ensures var before, after := Find(s.rows, id), Find(Step(s, op).rows, id);
            before.Some? && after.Some? ==>
              || after.value.workflow == before.value.workflow
              || (after.value.workflow.Some? && CanTransition(before.value.workflow, after.value.workflow.value))
    ensures id >= |s.rows| && Find(Step(s, op).rows, id).Some? ==> Find(Step(s, op).rows, id).value.workflow.None?
  {
    hide BucketOf, CategoryAvailability, V.Created, V.ReviewedAs;
    OnlyTouched(s, op);
  }

  /** From approval on, a row keeps its amount, category, date and type, and stays approved, completed or cancelled. */
  lemma LockHolds(s: State, op: Op, id: nat)
    ensures var before, after := Find(s.rows, id), Find(Step(s, op).rows, id);
            before.Some? && after.Some? && FinanciallyLocked(before.value) ==>
              FinanciallyLocked(after.value) && SameFinancials(before.value, after.value)
  {
    hide BucketOf, CategoryAvailability, V.Created, V.ReviewedAs;
    OnlyTouched(s, op);
  }

  /** A slot once used and emptied stays empty: ids are never reused. */
  lemma DeletedStays(s: State, op: Op, id: nat)
    requires id < |s.rows| && s.rows[id].None?
    ensures Find(Step(s, op).rows, id).None?
  {
    hide BucketOf, CategoryAvailability, V.Created, V.ReviewedAs;
    OnlyTouched(s, op);
  }

  lemma {:induction false} LockedForTheRun(s: State, ops: seq<Op>, id: nat)
    requires Find(s.rows, id).Some? && FinanciallyLocked(Find(s.rows, id).value)
    ensures var after := Find(Run(s, ops).rows, id);
            after.Some? ==> FinanciallyLocked(after.value) && SameFinancials(Find(s.rows, id).value, after.value)
    decreases |ops|
  {
    hide Step;
    if ops != [] {
      var s' := Step(s, ops[0]);
      LockHolds(s, ops[0], id);
      OnlyTouched(s, ops[0]);
      if Find(s'.rows, id).Some? {
        LockedForTheRun(s', ops[1..], id);
      } else {
        DeletedForTheRun(s', ops[1..], id);
      }
    }
  }

  lemma {:induction false} DeletedForTheRun(s: State, ops: seq<Op>, id: nat)
    requires id < |s.rows| && s.rows[id].None?
    ensures Find(Run(s, ops).rows, id).None?
    decreases |ops|
  {
    hide Step;
    if ops != [] {
      DeletedStays(s, ops[0], id);
      OnlyTouched(s, ops[0]);
      DeletedForTheRun(Step(s, ops[0]), ops[1..], id);
    }
  }

  // ─── Suppliers ────────────────────────────────────────────────────────────

  predicate SupplierFits(t: Transaction) {
    t.kind == Recette ==> t.supplierContact.None?
  }

  /** An update that turns an expense into income and says nothing of its supplier. */
  predicate StrandsSupplier(s: State, op: Op, id: nat) {
    && op.Update? && op.id == id && Updated(s, id, op.patch).Ok?
    && op.patch.supplier.Keep? && Or(op.patch.kind, s.rows[id].value.kind) == Recette && s.rows[id].value.supplierContact.Some?
  }

  /** Income carries no supplier after an operation exactly when the operation does not strand one. */
  lemma NoSupplierOnIncomeIff(s: State, op: Op, id: nat)
    requires Find(s.rows, id).Some? ==> SupplierFits(Find(s.rows, id).value)
    ensures var after := Find(Step(s, op).rows, id);
            (after.Some? ==> SupplierFits(after.value)) <==> !StrandsSupplier(s, op, id)
  {
    hide BucketOf, CategoryAvailability, V.Created, V.ReviewedAs;
    OnlyTouched(s, op);
  }

  /** An expense recorded with supplier 7, then made income: it keeps the supplier. */
  lemma SupplierStranded()
    ensures var draft := Draft(Depense, Sante, 5, 0, Valide, None, None, Some(Named(7, "Diop", Some(true))));
            var toIncome := Patch(Some(Recette), None, None, None, None, None, None, Keep);
            var ended := Find(Step(Step(State([], map[], [], []), Create(draft)), Update(0, toIncome)).rows, 0);
            ended.Some? && ended.value.kind == Recette && ended.value.supplierContact == Some(7)
  {
    var draft := Draft(Depense, Sante, 5, 0, Valide, None, None, Some(Named(7, "Diop", Some(true))));
    var s := Step(State([], map[], [], []), Create(draft));
    assert s.rows == [Some(NewRow(draft))] && s.donations == [];
  }

  // ─── Status and request agree ─────────────────────────────────────────────

  predicate Pending(t: Transaction) {
    t.workflow == Some(PendingApproval)
  }

  /** Each existing row has one pending request if it awaits approval and none otherwise; unused ids have none. */
  ghost predicate Agree(rows: Table, requests: V.Requests) {
    forall id: nat ::
      && (id >= |rows| ==> V.PendingCount(requests, Expense(id)) == 0)
      && (id < |rows| && rows[id].Some? ==>
            V.PendingCount(requests, Expense(id)) == if Pending(rows[id].value) then 1 else 0)
  }

  lemma RequestEffect(s: State, id: nat, from: Option<WorkflowStatus>, user: User, comment: Option<string>)
    requires Agree(s.rows, s.requests) && (from.None? || from == Some(Rejected))
    ensures var r := WriteAndRequest(s, id, from, user, comment);
            && (r.Ok? ==> Agree(r.value.rows, r.value.requests))
            && (r.Ok? <==> Find(s.rows, id).Some? && Find(s.rows, id).value.workflow == from)
  {
    hide V.Created;
    V.CreateEffect(s.requests, Expense(id), user, None, comment);
  }

  lemma VerdictEffect(s: State, id: nat, to: WorkflowStatus, user: User, comment: Option<string>, verdict: V.ValidationStatus)
    requires Agree(s.rows, s.requests) && to != PendingApproval && verdict != V.PendingValidation
    ensures var r := WriteAndReview(s, id, to, user, comment, verdict);
            && (r.Ok? ==> Agree(r.value.rows, r.value.requests))
            && (Find(s.rows, id).Some? && Pending(Find(s.rows, id).value) && r.Fail? ==> r.error == Forbidden)
  {
    hide V.ReviewedAs;
    V.ReviewEffect(s.requests, Expense(id), user, comment, verdict);
  }

  lemma AgreeKept(s: State, op: Op)
    requires Agree(s.rows, s.requests)
    ensures Agree(Step(s, op).rows, Step(s, op).requests)
  {
    hide BucketOf, CategoryAvailability, WriteAndRequest, WriteAndReview;
    match op
    case Submit(id, user, comment) => RequestEffect(s, id, None, user, comment);
    case Resubmit(id, user, comment) => RequestEffect(s, id, Some(Rejected), user, comment);
    case Approve(id, user, comment) => VerdictEffect(s, id, Approved, user, comment, V.Approved);
    case Reject(id, user, reason) => VerdictEffect(s, id, Rejected, user, Some(reason), V.Rejected);
    case _ =>
  }

  lemma {:induction false} AgreeInEveryRun(s: State, ops: seq<Op>)
    requires Agree(s.rows, s.requests)
    ensures Agree(Run(s, ops).rows, Run(s, ops).requests)
    decreases |ops|
  {
    hide Step, Agree;
    if ops != [] {
      AgreeKept(s, ops[0]);
      AgreeInEveryRun(Step(s, ops[0]), ops[1..]);
    }
  }

  /** What an approval needs: a row awaiting it, a line with room for the amount, and someone other than the submitter. */
  predicate Grantable(s: State, id: nat, user: User) {
    && Find(s.rows, id).Some?
    && Pending(Find(s.rows, id).value)
    && (var t := Find(s.rows, id).value;
        && BucketOf(t) in s.lines
        && Committed(s.rows, BucketOf(t)) + t.amountXof <= s.lines[BucketOf(t)])
    && V.FindPending(s.requests, Expense(id)).Some?
    && s.requests[V.FindPending(s.requests, Expense(id)).value].submittedBy != user
  }

  /** With status and request in agreement, that is exactly when an approval is granted. */
  lemma ApprovalGrantedIff(s: State, id: nat, user: User, comment: Option<string>)
    requires Agree(s.rows, s.requests)
    ensures ApprovedBy(s, id, user, comment).Ok? <==> Grantable(s, id, user)
  {
    hide BucketOf, Sum;
    V.FoundIffCounted(s.requests, Expense(id));
  }

  /** A submission is accepted exactly for an expense outside the workflow; no stray request can block it. */
  lemma SubmissionAcceptedIff(s: State, id: nat, user: User, comment: Option<string>)
    requires Agree(s.rows, s.requests)
    ensures Submitted(s, id, user, comment).Ok? <==>
            && Find(s.rows, id).Some?
            && Find(s.rows, id).value.kind == Depense
            && Find(s.rows, id).value.workflow.None?
  {
    hide WriteAndRequest;
    RequestEffect(s, id, None, user, comment);
  }

  // ─── Budget safety ────────────────────────────────────────────────────────

  /** The line of b, if there is one, covers everything reserved and consumed. */
  predicate Within(s: State, b: Bucket) {
    b in s.lines ==> Committed(s.rows, b) <= s.lines[b]
  }

  predicate SpentLegacy(b: Bucket, t: Transaction) {
    t.workflow.None? && Counts(Legacy, b, t)
  }

  /**
   The operations that can take a bucket over its line, and when: spending recorded or edited outside the workflow
   beyond what is available, and a line set below what is already committed.
   */
  predicate Overspends(s: State, op: Op, b: Bucket) {
    match op
    case Create(draft) =>
      && b in s.lines && DraftRefusal(draft).None? && SpentLegacy(b, NewRow(draft))
      && draft.amountXof > s.lines[b] - Committed(s.rows, b)
    case Update(id, patch) =>
      && b in s.lines && Updated(s, id, patch).Ok?
      && (var t := s.rows[id].value;
          && SpentLegacy(b, Patched(t, patch))
          && Patched(t, patch).amountXof > s.lines[b] - Committed(s.rows, b) + Weight(Legacy, b, Some(t)))
    case SetLine(bucket, budgetXof) => bucket == b && budgetXof < Committed(s.rows, b)
    case _ => false
  }

  lemma SpendOf(b: Bucket, t: Transaction)
    ensures Spend(b, Some(t)) ==
            if && t.kind == Depense && t.category == b.category && InMonth(t.date, b.year, b.month)
               && (t.workflow == Some(Approved) || t.workflow == Some(Completed) || (t.workflow.None? && t.status == Valide))
            then t.amountXof else 0
  {
    hide InMonth;
  }

  lemma SpendMoves(b: Bucket, t: Transaction, to: WorkflowStatus)
    ensures var u := t.(workflow := Some(to));
            && (to == PendingApproval || to == Rejected || to == Cancelled ==> Spend(b, Some(u)) == 0)
            && (to == Completed && t.workflow == Some(Approved) ==> Spend(b, Some(u)) == Spend(b, Some(t)))
            && Spend(b, Some(u)) <= t.amountXof
            && (Ordinary(b.year) && Spend(b, Some(u)) > 0 ==> BucketOf(t) == b)
  {
    hide InMonth, BucketOf, Spend;
    var u := t.(workflow := Some(to));
    SpendOf(b, t);
    SpendOf(b, u);
    SameBucket(t, u);
    if Ordinary(b.year) && Spend(b, Some(u)) > 0 {
      CountedInOwnBucket(if to == Approved then Reserved else Consumed, b, u);
    }
  }

  lemma SameBucket(t: Transaction, u: Transaction)
    requires t.category == u.category && t.date == u.date
    ensures BucketOf(t) == BucketOf(u)
  {
  }

  lemma SpendPatched(s: State, id: nat, p: Patch, b: Bucket)
    requires Updated(s, id, p).Ok?
    ensures var t := s.rows[id].value;
            && Patched(t, p).workflow == t.workflow
            && (t.workflow.None? ==> Spend(b, Some(t)) == Weight(Legacy, b, Some(t)))
            && Spend(b, Some(Patched(t, p))) ==
               if t.workflow.None? then Weight(Legacy, b, Some(Patched(t, p))) else Spend(b, Some(t))
  {
    hide InMonth;
  }

  /** One operation keeps a bucket within its line exactly when it is not one of those overspendings. */
  lemma BudgetStep(s: State, op: Op, b: Bucket)
    requires Ordinary(b.year) && Within(s, b)
    ensures Within(Step(s, op), b) <==> !Overspends(s, op, b)
  {
    hide Committed, Spend, BucketOf, WriteAndRequest, WriteAndReview, Updated, Counts, CategoryAvailability;
    match op
    case Create(draft) => BudgetCreate(s, draft, b);
    case Update(id, patch) => BudgetUpdate(s, id, patch, b);
    case Delete(id) => BudgetDelete(s, id, b);
    case SetLine(bucket, budgetXof) =>
    case DeleteLine(bucket) =>
    case Donate(amountXof, date, donorName, key) => BudgetDonate(s, amountXof, date, donorName, key, b);
    case Submit(id, user, comment) => BudgetRequest(s, id, None, user, comment, b);
    case Approve(id, user, comment) => BudgetApprove(s, id, user, comment, b);
    case Reject(id, user, reason) => BudgetReject(s, id, user, reason, b);
    case Resubmit(id, user, comment) => BudgetRequest(s, id, Some(Rejected), user, comment, b);
    case Complete(id) => BudgetMove(s, id, Completed, b);
    case Cancel(id) => BudgetMove(s, id, Cancelled, b);
  }

  lemma BudgetCreate(s: State, d: Draft, b: Bucket)
    requires Within(s, b)
    ensures Within(After(s, Recorded(s, d)), b) <==> !Overspends(s, Create(d), b)
  {
    hide Committed, InMonth;
    CommittedAppend(s.rows, Some(NewRow(d)), b);
  }

  lemma BudgetUpdate(s: State, id: nat, p: Patch, b: Bucket)
    requires Within(s, b)
    ensures Within(After(s, Updated(s, id, p)), b) <==> !Overspends(s, Update(id, p), b)
  {
    hide Committed, InMonth, Spend, Patched;
    var r := Updated(s, id, p);
    if r.Ok? {
      var t := s.rows[id].value;
      SpendPatched(s, id, p, b);
      CommittedUpdate(s.rows, id, Some(Patched(t, p)), b);
      SpendOf(b, t);
    }
  }

  lemma BudgetDelete(s: State, id: nat, b: Bucket)
    requires Within(s, b)
    ensures Within(After(s, Deleted(s, id)), b)
  {
    hide Committed, InMonth;
    if Deleted(s, id).Ok? {
      CommittedUpdate(s.rows, id, None, b);
    }
  }

  lemma BudgetDonate(s: State, amountXof: nat, date: int, donorName: string, key: Option<string>, b: Bucket)
    requires Within(s, b)
    ensures Within(After(s, Donated(s, amountXof, date, donorName, key)), b)
  {
    hide Committed, InMonth;
    CommittedAppend(s.rows, Some(NewRow(Draft(Recette, Don, amountXof, date, Valide, Some(donorName), Some(false), None))), b);
  }

  lemma BudgetRequest(s: State, id: nat, from: Option<WorkflowStatus>, user: User, comment: Option<string>, b: Bucket)
    requires Within(s, b)
    ensures Within(After(s, WriteAndRequest(s, id, from, user, comment)), b)
  {
    hide Committed, Spend, BucketOf, V.Created;
    if AtomicWrite(s.rows, id, from, PendingApproval).Ok? {
      SpendMoves(b, s.rows[id].value, PendingApproval);
      CommittedUpdate(s.rows, id, Some(s.rows[id].value.(workflow := Some(PendingApproval))), b);
    }
  }

  lemma BudgetReject(s: State, id: nat, user: User, reason: string, b: Bucket)
    requires Within(s, b)
    ensures Within(After(s, RejectedBy(s, id, user, reason)), b)
  {
    hide Committed, Spend, BucketOf, V.ReviewedAs;
    if Find(s.rows, id).Some? {
      SpendMoves(b, s.rows[id].value, Rejected);
      CommittedUpdate(s.rows, id, Some(s.rows[id].value.(workflow := Some(Rejected))), b);
    }
  }

  lemma BudgetApprove(s: State, id: nat, user: User, comment: Option<string>, b: Bucket)
    requires Ordinary(b.year) && Within(s, b)
    ensures Within(After(s, ApprovedBy(s, id, user, comment)), b)
  {
    hide Spend, BucketOf, V.ReviewedAs, Sum;
    if ApprovedBy(s, id, user, comment).Ok? {
      var t := s.rows[id].value;
      SpendMoves(b, t, Approved);
      CommittedUpdate(s.rows, id, Some(t.(workflow := Some(Approved))), b);
    }
  }

  lemma BudgetMove(s: State, id: nat, to: WorkflowStatus, b: Bucket)
    requires Within(s, b) && (to == Completed || to == Cancelled)
    ensures Within(After(s, Moved(s, id, to)), b)
  {
    hide Committed, Spend, BucketOf;
    if Moved(s, id, to).Ok? {
      SpendMoves(b, s.rows[id].value, to);
      CommittedUpdate(s.rows, id, Some(s.rows[id].value.(workflow := Some(to))), b);
    }
  }

  /** No operation of the run overspends b at the point it is made. */
  predicate Careful(s: State, ops: seq<Op>, b: Bucket)
    decreases |ops|
  {
    ops == [] || (!Overspends(s, ops[0], b) && Careful(Step(s, ops[0]), ops[1..], b))
  }

  /** Over a serial run of every finance operation, committed spending stays within the line. */
  lemma {:induction false} BudgetInEveryRun(s: State, ops: seq<Op>, b: Bucket)
    requires Ordinary(b.year) && Within(s, b) && Careful(s, ops, b)
    ensures Within(Run(s, ops), b)
    decreases |ops|
  {
    hide Step, Within, Overspends;
    if ops != [] {
      BudgetStep(s, ops[0], b);
      BudgetInEveryRun(Step(s, ops[0]), ops[1..], b);
    }
  }

  /** Completing moves the amount from reserved to consumed, in the row's own bucket only, and changes no total. */
  lemma CompletionConserves(s: State, id: nat, b: Bucket)
    requires Moved(s, id, Completed).Ok?
    ensures var s', t := Moved(s, id, Completed).value, s.rows[id].value;
            var moved := Weight(Reserved, b, Some(t));
            && Committed(s'.rows, b) == Committed(s.rows, b)
            && Sum(s'.rows, Reserved, b) == Sum(s.rows, Reserved, b) - moved
            && Sum(s'.rows, Consumed, b) == Sum(s.rows, Consumed, b) + moved
            && Sum(s'.rows, Legacy, b) == Sum(s.rows, Legacy, b)
  {
    hide Sum, InMonth;
    var u := s.rows[id].value.(workflow := Some(Completed));
    SumUpdate(s.rows, id, Some(u), Reserved, b);
    SumUpdate(s.rows, id, Some(u), Consumed, b);
    SumUpdate(s.rows, id, Some(u), Legacy, b);
  }

  // ─── Donations and their transactions ─────────────────────────────────────

  predicate Backs(rows: Table, d: Donation) {
    && Find(rows, d.transactionId).Some?
    && (var t := Find(rows, d.transactionId).value;
        t.kind == Recette && t.category == Don && t.amountXof == d.amountXof && t.date == d.date && t.workflow.None?)
  }

  /** Every donation has its own transaction, alike in amount and date, and its own key if it has one. */
  ghost predicate Paired(s: State) {
    && (forall i :: 0 <= i < |s.donations| ==> Backs(s.rows, s.donations[i]))
    && (forall i, j :: 0 <= i < j < |s.donations| ==>
          && s.donations[i].transactionId != s.donations[j].transactionId
          && (s.donations[i].idempotencyKey.Some? ==> s.donations[i].idempotencyKey != s.donations[j].idempotencyKey))
  }

  lemma BackedRowKept(s: State, op: Op, i: nat)
    requires i < |s.donations| && Backs(s.rows, s.donations[i])
    ensures Backs(Step(s, op).rows, s.donations[i])
  {
    hide BucketOf, CategoryAvailability, V.Created, V.ReviewedAs;
    OnlyTouched(s, op);
    assert Linked(s.donations, s.donations[i].transactionId);
  }

  lemma PairedKept(s: State, op: Op)
    requires Paired(s)
    ensures Paired(Step(s, op))
    ensures s.donations <= Step(s, op).donations
  {
    hide BucketOf, CategoryAvailability, WriteAndRequest, WriteAndReview, Backs;
    var s' := Step(s, op);
    forall i | 0 <= i < |s.donations| ensures Backs(s'.rows, s.donations[i]) {
      BackedRowKept(s, op, i);
    }
    DonationsAfter(s, op);
    if op.Donate? && s'.donations != s.donations {
      assert Backs(s'.rows, s'.donations[|s.donations|]) by { BackedWhenRecorded(s, op); }
      forall i | 0 <= i < |s.donations| ensures s.donations[i].transactionId < |s.rows| {
        BackedRowExists(s, i);
      }
    }
  }

  lemma BackedRowExists(s: State, i: nat)
    requires i < |s.donations| && Backs(s.rows, s.donations[i])
    ensures s.donations[i].transactionId < |s.rows|
  {
  }

  lemma BackedWhenRecorded(s: State, op: Op)
    requires op.Donate? && Attempt(s, op).Ok?
    ensures Backs(Step(s, op).rows, Step(s, op).donations[|s.donations|])
  {
  }

  lemma DonationsAfter(s: State, op: Op)
    ensures Step(s, op).donations == s.donations || (op.Donate? && Attempt(s, op).Ok?)
  {
    hide BucketOf, CategoryAvailability, V.Created, V.ReviewedAs;
  }

  lemma {:induction false} PairedInEveryRun(s: State, ops: seq<Op>)
    requires Paired(s)
    ensures Paired(Run(s, ops)) && s.donations <= Run(s, ops).donations
    decreases |ops|
  {
    hide Step, Paired;
    if ops != [] {
      PairedKept(s, ops[0]);
      PairedInEveryRun(Step(s, ops[0]), ops[1..]);
    }
  }

  // ─── All of it together ───────────────────────────────────────────────────

  /** Books in order: requests match rows, donations match transactions. */
  ghost predicate InOrder(s: State) {
    Agree(s.rows, s.requests) && Paired(s)
  }

  lemma EmptyBooks(requests: V.Requests)
    requires forall id: nat :: V.PendingCount(requests, Expense(id)) == 0
    ensures InOrder(State([], map[], [], requests))
    ensures forall b :: Within(State([], map[], [], requests), b)
  {
  }

  lemma InOrderStep(s: State, op: Op)
    requires InOrder(s)
    ensures InOrder(Step(s, op))
  {
    hide Agree, Paired, Step;
    AgreeKept(s, op);
    PairedKept(s, op);
  }
}
