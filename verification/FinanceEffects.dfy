/** What each finance operation accepts and leaves behind, told without the functions that compute it. */
module FinanceEffects {
  import opened Common
  import opened Calendar
  import opened Budget
  import opened Finance
  import opened FinanceLaws
  import V = Validations

  // ─── Moves of the workflow ────────────────────────────────────────────────

  /** The six arrows. */
  lemma TransitionTable(from: Option<WorkflowStatus>, to: WorkflowStatus)
    ensures CanTransition(from, to) <==>
            (from, to) in {(None, PendingApproval), (Some(PendingApproval), Approved), (Some(PendingApproval), Rejected),
                           (Some(Rejected), PendingApproval), (Some(Approved), Completed), (Some(Approved), Cancelled)}
  {
  }

  /** The row goes from one status to another and is otherwise as it was; so is everything but the requests. */
  ghost predicate RowMoved(s: State, s': State, id: nat, from: Option<WorkflowStatus>, to: WorkflowStatus) {
    && id < |s.rows| == |s'.rows| && s.rows[id].Some? && s'.rows[id].Some?
    && s.rows[id].value.workflow == from
    && s'.rows[id].value == s.rows[id].value.(workflow := Some(to))
    && (forall j :: 0 <= j < |s.rows| && j != id ==> s'.rows[j] == s.rows[j])
    && s'.lines == s.lines && s'.donations == s.donations
  }

  /** The verdict reached the pending request of the row, in this person's name. */
  ghost predicate Decided(s: State, s': State, id: nat, user: User, comment: Option<string>, verdict: V.ValidationStatus) {
    exists i: nat :: V.ReviewedBy(s.requests, s'.requests, i, V.Resource(V.ExpenseTransaction, id), user, comment, verdict)
  }

  lemma GuardedWriteIff(rows: Table, id: nat, from: Option<WorkflowStatus>, to: WorkflowStatus)
    ensures var r := AtomicWrite(rows, id, from, to);
            if id >= |rows| || rows[id].None? then r == Fail(NotFound)
            else if rows[id].value.workflow != from then r == Fail(Conflict)
            else r == Ok(rows[id := Some(rows[id].value.(workflow := Some(to)))])
  {
  }

  lemma SubmissionEffect(s: State, id: nat, user: User, comment: Option<string>)
    ensures var r := Submitted(s, id, user, comment);
            r.Ok? ==>
              && RowMoved(s, r.value, id, None, PendingApproval)
              && V.FiledBy(s.requests, r.value.requests, V.Resource(V.ExpenseTransaction, id), user, None, comment)
  {
    hide V.Created;
    V.CreateWrites(s.requests, Expense(id), user, None, comment);
  }

  lemma ResubmissionEffect(s: State, id: nat, user: User, comment: Option<string>)
    ensures var r := Resubmitted(s, id, user, comment);
            r.Ok? ==>
              && RowMoved(s, r.value, id, Some(Rejected), PendingApproval)
              && V.FiledBy(s.requests, r.value.requests, V.Resource(V.ExpenseTransaction, id), user, None, comment)
  {
    hide V.Created;
    V.CreateWrites(s.requests, Expense(id), user, None, comment);
  }

  lemma ApprovalEffect(s: State, id: nat, user: User, comment: Option<string>)
    ensures var r := ApprovedBy(s, id, user, comment);
            r.Ok? ==>
              && RowMoved(s, r.value, id, Some(PendingApproval), Approved)
              && Decided(s, r.value, id, user, comment, V.Approved)
  {
    hide V.ReviewedAs, V.ReviewedBy, BucketOf, CategoryAvailability;
    V.ReviewWrites(s.requests, Expense(id), user, comment, V.Approved);
  }

  lemma RejectionEffect(s: State, id: nat, user: User, reason: string)
    ensures var r := RejectedBy(s, id, user, reason);
            r.Ok? ==>
              && RowMoved(s, r.value, id, Some(PendingApproval), Rejected)
              && Decided(s, r.value, id, user, Some(reason), V.Rejected)
  {
    hide V.ReviewedAs, V.ReviewedBy;
    V.ReviewWrites(s.requests, Expense(id), user, Some(reason), V.Rejected);
  }

  /** complete and cancel: out of APPROVED only, to the status asked for, with no request touched. */
  lemma SettlementEffect(s: State, id: nat, to: WorkflowStatus)
    requires to == Completed || to == Cancelled
    ensures var r := Moved(s, id, to);
            && (r.Ok? <==> Find(s.rows, id).Some? && Find(s.rows, id).value.workflow == Some(Approved))
            && (r.Ok? ==> RowMoved(s, r.value, id, Some(Approved), to) && r.value.requests == s.requests)
            && (r.Fail? ==> r.error == if Find(s.rows, id).None? then NotFound else Conflict)
  {
  }

  // ─── Refusals ─────────────────────────────────────────────────────────────

  /** Why an approval is refused, with requests in step with rows. */
  lemma ApprovalRefusal(s: State, id: nat, user: User, comment: Option<string>)
    requires Agree(s.rows, s.requests) && ApprovedBy(s, id, user, comment).Fail?
    ensures var error, t := ApprovedBy(s, id, user, comment).error, Find(s.rows, id);
            if t.None? then error == NotFound
            else if t.value.workflow != Some(PendingApproval) then error == Conflict
            else if BucketOf(t.value) !in s.lines then error == NoBudgetLine
            else if Committed(s.rows, BucketOf(t.value)) + t.value.amountXof > s.lines[BucketOf(t.value)] then
              error == InsufficientBudget
            else error == Forbidden
  {
    hide BucketOf, Sum, V.ReviewedAs;
    V.ReviewEffect(s.requests, Expense(id), user, comment, V.Approved);
  }

  lemma SubmissionRefusal(s: State, id: nat, user: User, comment: Option<string>)
    requires Agree(s.rows, s.requests) && Submitted(s, id, user, comment).Fail?
    ensures Submitted(s, id, user, comment).error ==
            if Find(s.rows, id).None? then NotFound else if Find(s.rows, id).value.kind == Recette then BadRequest else Conflict
  {
    hide V.Created;
    V.CreateEffect(s.requests, Expense(id), user, None, comment);
  }

  /** A rejection needs a reason, a row awaiting approval, and someone other than the submitter. */
  lemma RejectionGrantedIff(s: State, id: nat, user: User, reason: string)
    requires Agree(s.rows, s.requests)
    ensures var r, t := RejectedBy(s, id, user, reason), Find(s.rows, id);
            && (r.Ok? <==>
                  && (exists i :: 0 <= i < |reason| && !IsSpace(reason[i]))
                  && t.Some? && t.value.workflow == Some(PendingApproval)
                  && V.FindPending(s.requests, Expense(id)).Some?
                  && s.requests[V.FindPending(s.requests, Expense(id)).value].submittedBy != user)
            && (r.Fail? ==>
                  if forall i :: 0 <= i < |reason| ==> IsSpace(reason[i]) then r.error == BadRequest
                  else if t.None? then r.error == NotFound
                  else if t.value.workflow != Some(PendingApproval) then r.error == Conflict
                  else r.error == Forbidden)
  {
    hide IsSpace;
    V.FoundIffCounted(s.requests, Expense(id));
  }

  lemma ResubmissionAcceptedIff(s: State, id: nat, user: User, comment: Option<string>)
    requires Agree(s.rows, s.requests)
    ensures var r, t := Resubmitted(s, id, user, comment), Find(s.rows, id);
            && (r.Ok? <==> t.Some? && t.value.workflow == Some(Rejected))
            && (r.Fail? ==> r.error == if t.None? then NotFound else Conflict)
  {
    hide V.Created;
    V.CreateEffect(s.requests, Expense(id), user, None, comment);
  }

  // ─── What the sums show ───────────────────────────────────────────────────

  /** The amount a row stands for in a bucket's sums, once its status lets it count. */
  function Stake(t: Transaction, b: Bucket): nat {
    if t.kind == Depense && BucketOf(t) == b then t.amountXof else 0
  }

  /** What one row adds to the sums, by its status alone: reserved when approved, consumed when completed or paid outright. */
  lemma WeightIs(part: Part, b: Bucket, t: Transaction)
    requires Ordinary(b.year)
    ensures Weight(part, b, Some(t)) ==
            if || (part == Reserved && t.workflow == Some(Approved))
               || (part == Consumed && t.workflow == Some(Completed))
               || (part == Legacy && t.workflow == None && t.status == Valide)
            then Stake(t, b) else 0
  {
    hide InMonth, UTCFullYear, UTCMonth;
    InMonthIff(t.date, b.year, b.month);
  }

  /** A move changes a sum by the row's stake where the old or the new status counts in it. */
  lemma MoveShifts(s: State, s': State, id: nat, from: Option<WorkflowStatus>, to: WorkflowStatus, part: Part, b: Bucket)
    requires Ordinary(b.year) && RowMoved(s, s', id, from, to) && from.Some?
    ensures var stake := Stake(s.rows[id].value, b);
            var counted := (part == Reserved && from == Some(Approved)) || (part == Consumed && from == Some(Completed));
            var counts := (part == Reserved && to == Approved) || (part == Consumed && to == Completed);
            Sum(s'.rows, part, b) + (if counted then stake else 0) == Sum(s.rows, part, b) + (if counts then stake else 0)
  {
    hide Sum, Weight, BucketOf;
    var t, u := s.rows[id].value, s'.rows[id].value;
    SumUpdate(s.rows, id, Some(u), part, b);
    assert s'.rows == s.rows[id := Some(u)];
    WeightIs(part, b, t);
    WeightIs(part, b, u);
    SameBucket(t, u);
  }

  /** Approving reserves exactly the amount, in the row's own bucket; nothing else moves. */
  lemma ApprovalReserves(s: State, id: nat, user: User, comment: Option<string>, b: Bucket)
    requires Ordinary(b.year) && ApprovedBy(s, id, user, comment).Ok?
    ensures var s' := ApprovedBy(s, id, user, comment).value;
            && Sum(s'.rows, Reserved, b) == Sum(s.rows, Reserved, b) + Stake(s.rows[id].value, b)
            && Sum(s'.rows, Consumed, b) == Sum(s.rows, Consumed, b)
            && Sum(s'.rows, Legacy, b) == Sum(s.rows, Legacy, b)
  {
    hide Sum, ApprovedBy, Stake, Decided;
    ApprovalEffect(s, id, user, comment);
    var s' := ApprovedBy(s, id, user, comment).value;
    MoveShifts(s, s', id, Some(PendingApproval), Approved, Reserved, b);
    MoveShifts(s, s', id, Some(PendingApproval), Approved, Consumed, b);
    MoveShifts(s, s', id, Some(PendingApproval), Approved, Legacy, b);
  }

  /** Cancelling frees exactly the amount; completing moves it to what is consumed. */
  lemma SettlementShifts(s: State, id: nat, to: WorkflowStatus, b: Bucket)
    requires Ordinary(b.year) && (to == Completed || to == Cancelled) && Moved(s, id, to).Ok?
    ensures var s', stake := Moved(s, id, to).value, Stake(s.rows[id].value, b);
            && Sum(s'.rows, Reserved, b) + stake == Sum(s.rows, Reserved, b)
            && Sum(s'.rows, Consumed, b) == Sum(s.rows, Consumed, b) + (if to == Completed then stake else 0)
            && Sum(s'.rows, Legacy, b) == Sum(s.rows, Legacy, b)
  {
    hide Sum, Moved, Stake;
    SettlementEffect(s, id, to);
    var s' := Moved(s, id, to).value;
    MoveShifts(s, s', id, Some(Approved), to, Reserved, b);
    MoveShifts(s, s', id, Some(Approved), to, Consumed, b);
    MoveShifts(s, s', id, Some(Approved), to, Legacy, b);
  }

  lemma RejectionShiftsNothing(s: State, id: nat, user: User, reason: string, part: Part, b: Bucket)
    requires Ordinary(b.year) && RejectedBy(s, id, user, reason).Ok?
    ensures Sum(RejectedBy(s, id, user, reason).value.rows, part, b) == Sum(s.rows, part, b)
  {
    hide Sum, RejectedBy, Decided;
    RejectionEffect(s, id, user, reason);
    MoveShifts(s, RejectedBy(s, id, user, reason).value, id, Some(PendingApproval), Rejected, part, b);
  }

  // ─── Records ──────────────────────────────────────────────────────────────

  lemma CreationEffect(s: State, d: Draft)
    ensures var r := Recorded(s, d);
            && (r.Ok? <==> (d.supplier.Some? ==> d.kind == Depense && d.supplier.value.active == Some(true)))
            && (r.Fail? ==> r.error == BadRequest)
            && (r.Ok? ==>
                  && r.value == s.(rows := r.value.rows) && |r.value.rows| == |s.rows| + 1 && r.value.rows[..|s.rows|] == s.rows
                  && var t := r.value.rows[|s.rows|];
                     && t.Some? && t.value.kind == d.kind && t.value.category == d.category && t.value.amountXof == d.amountXof
                     && t.value.date == d.date && t.value.status == d.status && t.value.workflow.None?
                     && t.value.donorName == d.donorName && t.value.anonymousDonor == d.anonymousDonor
                     && t.value.supplierContact == if d.supplier.Some? then Some(d.supplier.value.id) else None)
  {
  }

  /** A field asked to stay as it is, or not mentioned. */
  predicate Keeps<T(==)>(wanted: Option<T>, current: T) {
    wanted.None? || wanted.value == current
  }

  predicate KeepsFinancials(t: Transaction, p: Patch) {
    Keeps(p.amountXof, t.amountXof) && Keeps(p.category, t.category) && Keeps(p.date, t.date) && Keeps(p.kind, t.kind)
  }

  predicate KeepsDonor(t: Transaction, p: Patch) {
    && (p.donorName.Some? ==> p.donorName == t.donorName)
    && (p.anonymousDonor.Some? ==> p.anonymousDonor == t.anonymousDonor)
  }

  /** Which updates are accepted: the four financial fields are locked from approval on, and with the donor's by a donation. */
  lemma UpdateAcceptedIff(s: State, id: nat, p: Patch)
    ensures Updated(s, id, p).Ok? <==>
            && Find(s.rows, id).Some?
            && var t := Find(s.rows, id).value;
               && (t.workflow in {Some(Approved), Some(Completed), Some(Cancelled)} ==> KeepsFinancials(t, p))
               && ((exists i :: 0 <= i < |s.donations| && s.donations[i].transactionId == id) ==>
                     KeepsFinancials(t, p) && KeepsDonor(t, p))
               && (p.supplier.Connect? ==>
                     p.supplier.contact.active == Some(true) && (if p.kind.Some? then p.kind.value else t.kind) == Depense)
  {
  }

  /** Why an update is refused: the first thing wrong with it. */
  lemma UpdateError(s: State, id: nat, p: Patch)
    requires Updated(s, id, p).Fail?
    ensures var error, t := Updated(s, id, p).error, Find(s.rows, id);
            if t.None? then error == NotFound
            else if p.supplier.Connect? && (if p.kind.Some? then p.kind.value else t.value.kind) == Recette then error == BadRequest
            else if t.value.workflow in {Some(Approved), Some(Completed), Some(Cancelled)} && !KeepsFinancials(t.value, p) then
              error == Conflict
            else if (exists i :: 0 <= i < |s.donations| && s.donations[i].transactionId == id)
                    && !(KeepsFinancials(t.value, p) && KeepsDonor(t.value, p)) then
              error == Conflict
            else error == BadRequest
  {
  }

  predicate Takes<T(==)>(wanted: Option<T>, before: T, after: T) {
    after == if wanted.Some? then wanted.value else before
  }

  /** An accepted update changes the fields it mentions, to what it says, and never the status of the workflow. */
  lemma UpdateEffect(s: State, id: nat, p: Patch)
    requires Updated(s, id, p).Ok?
    ensures var s' := Updated(s, id, p).value;
            && s' == s.(rows := s'.rows) && |s'.rows| == |s.rows| && s'.rows[id].Some?
            && (forall j :: 0 <= j < |s.rows| && j != id ==> s'.rows[j] == s.rows[j])
            && var t, u := s.rows[id].value, s'.rows[id].value;
               && Takes(p.kind, t.kind, u.kind) && Takes(p.category, t.category, u.category)
               && Takes(p.amountXof, t.amountXof, u.amountXof) && Takes(p.date, t.date, u.date)
               && Takes(p.status, t.status, u.status) && u.workflow == t.workflow
               && u.donorName == (if p.donorName.Some? then p.donorName else t.donorName)
               && u.anonymousDonor == (if p.anonymousDonor.Some? then p.anonymousDonor else t.anonymousDonor)
               && (p.supplier.Keep? ==> u.supplierContact == t.supplierContact)
               && (p.supplier.Disconnect? ==> u.supplierContact.None?)
               && (p.supplier.Connect? ==> u.supplierContact == Some(p.supplier.contact.id))
  {
  }

  /** A row is deleted exactly when no donation stands on it, and only that row. */
  lemma DeletionEffect(s: State, id: nat)
    ensures var r := Deleted(s, id);
            && (r.Ok? <==>
                  id < |s.rows| && s.rows[id].Some? && forall i :: 0 <= i < |s.donations| ==> s.donations[i].transactionId != id)
            && (r.Ok? ==> r.value == s.(rows := s.rows[id := None]))
            && (r.Fail? ==> r.error == if Find(s.rows, id).None? then NotFound else Conflict)
  {
  }

  lemma LineEffect(s: State, b: Bucket, budgetXof: nat, other: Bucket)
    ensures var s' := LineSet(s, b, budgetXof);
            s' == s.(lines := s'.lines) && Line(s', other) == if other == b then Some(budgetXof) else Line(s, other)
    ensures var r := LineDeleted(s, b);
            && (r.Ok? <==> b in s.lines) && (r.Fail? ==> r.error == NotFound)
            && (r.Ok? ==> r.value == s.(lines := r.value.lines)
                          && Line(r.value, other) == if other == b then None else Line(s, other))
  {
  }

  /** A donation and its income row are written together, unless its key is taken: then neither is. */
  lemma DonationEffect(s: State, amountXof: nat, date: int, donorName: string, key: Option<string>)
    ensures var r := Donated(s, amountXof, date, donorName, key);
            && (r.Fail? <==> key.Some? && exists i :: 0 <= i < |s.donations| && s.donations[i].idempotencyKey == key)
            && (r.Fail? ==> r.error == Conflict)
            && (r.Ok? ==>
                  && r.value.lines == s.lines && r.value.requests == s.requests
                  && |r.value.donations| == |s.donations| + 1 && r.value.donations[..|s.donations|] == s.donations
                  && |r.value.rows| == |s.rows| + 1 && r.value.rows[..|s.rows|] == s.rows
                  && r.value.donations[|s.donations|] == Donation(|s.rows|, amountXof, date, key)
                  && var t := r.value.rows[|s.rows|];
                     t.Some? && t.value.kind == Recette && t.value.category == Don && t.value.amountXof == amountXof
                     && t.value.date == date && t.value.status == Valide && t.value.workflow.None?
                     && t.value.donorName == Some(donorName) && t.value.anonymousDonor == Some(false)
                     && t.value.supplierContact.None?)
  {
  }

  /** A donation's row keeps, besides what the donation records, its donor. */
  lemma DonorKept(s: State, op: Op, i: nat)
    requires Paired(s) && i < |s.donations|
    ensures var id := s.donations[i].transactionId;
            && Find(s.rows, id).Some? && Find(Step(s, op).rows, id).Some?
            && Find(Step(s, op).rows, id).value.donorName == Find(s.rows, id).value.donorName
            && Find(Step(s, op).rows, id).value.anonymousDonor == Find(s.rows, id).value.anonymousDonor
  {
    hide BucketOf, CategoryAvailability, V.Created, V.ReviewedAs;
    OnlyTouched(s, op);
    assert Backs(s.rows, s.donations[i]) && Linked(s.donations, s.donations[i].transactionId);
  }
}
