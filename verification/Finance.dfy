/**
 finances.service.ts and expense-workflow.service.ts, one operation at a time: what each operation does to the
 transaction rows, the budget lines, the donations and the requests.
 */
module Finance {
  import opened Common
  import opened Budget
  import V = Validations

  /** The donation fields that must agree with its transaction; transactionId is unique. */
  datatype Donation = Donation(transactionId: nat, amountXof: nat, date: int, idempotencyKey: Option<string>)

  datatype State = State(rows: Table, lines: map<Bucket, nat>, donations: seq<Donation>, requests: V.Requests)

  function Expense(id: nat): V.Resource {
    V.Resource(V.ExpenseTransaction, id)
  }

  function Find(rows: Table, id: nat): Option<Transaction> {
    if id < |rows| then rows[id] else None
  }

  // ─── The expense workflow ─────────────────────────────────────────────────

  /** ALLOWED_TRANSITIONS. */
  predicate CanTransition(from: Option<WorkflowStatus>, to: WorkflowStatus) {
    match from
    case None => to == PendingApproval
    case Some(PendingApproval) => to == Approved || to == Rejected
    case Some(Rejected) => to == PendingApproval
    case Some(Approved) => to == Completed || to == Cancelled
    case Some(_) => false
  }

  /** The guarded write: only a row still in state `from` moves. */
  function AtomicWrite(rows: Table, id: nat, from: Option<WorkflowStatus>, to: WorkflowStatus): Outcome<Table> {
    var t := Find(rows, id);
    if t.None? then Fail(NotFound)
    else if t.value.workflow != from then Fail(Conflict)
    else Ok(rows[id := Some(t.value.(workflow := Some(to)))])
  }

  /** The guarded write together with the new request, as one database transaction. */
  function WriteAndRequest(s: State, id: nat, from: Option<WorkflowStatus>, user: User, comment: Option<string>)
    : Outcome<State>
  {
    var rows := AtomicWrite(s.rows, id, from, PendingApproval);
    if rows.Fail? then Fail(rows.error)
    else
      var reqs := V.Created(s.requests, Expense(id), user, None, comment);
      if reqs.Fail? then Fail(reqs.error)
      else Ok(s.(rows := rows.value, requests := reqs.value))
  }

  /** The guarded write out of PENDING_APPROVAL together with the review, as one database transaction. */
  function WriteAndReview(s: State, id: nat, to: WorkflowStatus, user: User, comment: Option<string>,
                          verdict: V.ValidationStatus): Outcome<State>
  {
    var rows := AtomicWrite(s.rows, id, Some(PendingApproval), to);
    if rows.Fail? then Fail(rows.error)
    else
      var reviewed := V.ReviewedAs(s.requests, Expense(id), user, comment, verdict);
      if reviewed.Fail? then Fail(reviewed.error)
      else Ok(s.(rows := rows.value, requests := reviewed.value.requests))
  }

  function Submitted(s: State, id: nat, user: User, comment: Option<string>): Outcome<State> {
    var t := Find(s.rows, id);
    if t.None? then Fail(NotFound)
    else if t.value.kind != Depense then Fail(BadRequest)
    else if !CanTransition(t.value.workflow, PendingApproval) then Fail(Conflict)
    else WriteAndRequest(s, id, None, user, comment)
  }

  /** The budget test of an approval, against the three sums as read. */
  function BudgetCheck(t: Transaction, line: Option<nat>, seen: Availability): Option<Error> {
    if line.None? then Some(NoBudgetLine)
    else if t.amountXof > line.value - seen.reservedXof - seen.consumedXof then Some(InsufficientBudget)
    else None
  }

  function Line(s: State, b: Bucket): Option<nat> {
    if b in s.lines then Some(s.lines[b]) else None
  }

  function ApprovedBy(s: State, id: nat, user: User, comment: Option<string>): Outcome<State> {
    var t := Find(s.rows, id);
    if t.None? then Fail(NotFound)
    else if !CanTransition(t.value.workflow, Approved) then Fail(Conflict)
    else
      var b := BucketOf(t.value);
      var refusal := BudgetCheck(t.value, Line(s, b), CategoryAvailability(s.rows, b));
      if refusal.Some? then Fail(refusal.value)
      else WriteAndReview(s, id, Approved, user, comment, V.Approved)
  }

  /** Nothing left after trim. */
  predicate Blank(text: string) {
    forall i :: 0 <= i < |text| ==> IsSpace(text[i])
  }

  function RejectedBy(s: State, id: nat, user: User, comment: string): Outcome<State> {
    var t := Find(s.rows, id);
    if Blank(comment) then Fail(BadRequest)
    else if t.None? then Fail(NotFound)
    else if !CanTransition(t.value.workflow, Rejected) then Fail(Conflict)
    else WriteAndReview(s, id, Rejected, user, Some(comment), V.Rejected)
  }

  function Resubmitted(s: State, id: nat, user: User, comment: Option<string>): Outcome<State> {
    var t := Find(s.rows, id);
    if t.None? then Fail(NotFound)
    else if t.value.workflow != Some(Rejected) then Fail(Conflict)
    else WriteAndRequest(s, id, Some(Rejected), user, comment)
  }

  /** complete and cancel: a check followed by an unguarded write. */
  function Moved(s: State, id: nat, to: WorkflowStatus): Outcome<State> {
    var t := Find(s.rows, id);
    if t.None? then Fail(NotFound)
    else if !CanTransition(t.value.workflow, to) then Fail(Conflict)
    else Ok(s.(rows := s.rows[id := Some(t.value.(workflow := Some(to)))]))
  }

  // ─── Transactions, budget lines and donations ─────────────────────────────

  datatype Draft = Draft(
    kind: TransactionType, category: TransactionCategory, amountXof: nat, date: int, status: TransactionStatus,
    donorName: Option<string>, anonymousDonor: Option<bool>, supplier: Option<Named>)

  function NewRow(d: Draft): Transaction {
    Transaction(d.kind, d.category, d.amountXof, d.date, d.status, None, d.donorName, d.anonymousDonor,
                if d.kind == Depense && d.supplier.Some? then Some(d.supplier.value.id) else None)
  }

  /** A supplier only on an expense, and only one that can be assigned. */
  function DraftRefusal(d: Draft): Option<Error> {
    if d.kind == Recette && d.supplier.Some? then Some(BadRequest)
    else if d.kind == Depense && d.supplier.Some? && !d.supplier.value.Assignable() then Some(BadRequest)
    else None
  }

  function Added(s: State, d: Draft): State {
    s.(rows := s.rows + [Some(NewRow(d))])
  }

  function Recorded(s: State, d: Draft): Outcome<State> {
    var refusal := DraftRefusal(d);
    if refusal.Some? then Fail(refusal.value) else Ok(Added(s, d))
  }

  /** The fields of an update request; None leaves the stored field untouched. */
  datatype Patch = Patch(
    kind: Option<TransactionType>, category: Option<TransactionCategory>, amountXof: Option<nat>, date: Option<int>,
    status: Option<TransactionStatus>, donorName: Option<string>, anonymousDonor: Option<bool>, supplier: ContactChange)

  predicate Changes<T(==)>(wanted: Option<T>, current: T) {
    wanted.Some? && wanted.value != current
  }

  predicate TouchesFinancial(t: Transaction, p: Patch) {
    || Changes(p.amountXof, t.amountXof)
    || Changes(p.category, t.category)
    || Changes(p.date, t.date)
    || Changes(p.kind, t.kind)
  }

  predicate TouchesDonor(t: Transaction, p: Patch) {
    (p.donorName.Some? && p.donorName != t.donorName) || (p.anonymousDonor.Some? && p.anonymousDonor != t.anonymousDonor)
  }

  predicate FinanciallyLocked(t: Transaction) {
    t.workflow == Some(Approved) || t.workflow == Some(Completed) || t.workflow == Some(Cancelled)
  }

  predicate Linked(donations: seq<Donation>, id: nat) {
    exists i :: 0 <= i < |donations| && donations[i].transactionId == id
  }

  function Or<T>(wanted: Option<T>, current: T): T {
    if wanted.Some? then wanted.value else current
  }

  function Patched(t: Transaction, p: Patch): Transaction {
    t.(kind := Or(p.kind, t.kind), category := Or(p.category, t.category), amountXof := Or(p.amountXof, t.amountXof),
       date := Or(p.date, t.date), status := Or(p.status, t.status),
       donorName := if p.donorName.Some? then p.donorName else t.donorName,
       anonymousDonor := if p.anonymousDonor.Some? then p.anonymousDonor else t.anonymousDonor,
       supplierContact := match p.supplier case Keep => t.supplierContact case Disconnect => None case Connect(c) => Some(c.id))
  }

  /** The guards of an update on the row as read: no supplier on income, the two field locks, and the supplier itself. */
  function UpdateRefusal(t: Transaction, p: Patch, linked: bool): Option<Error> {
    if Or(p.kind, t.kind) == Recette && p.supplier.Connect? then Some(BadRequest)
    else if FinanciallyLocked(t) && TouchesFinancial(t, p) then Some(Conflict)
    else if linked && (TouchesFinancial(t, p) || TouchesDonor(t, p)) then Some(Conflict)
    else if p.supplier.Connect? && !p.supplier.contact.Assignable() then Some(BadRequest)
    else None
  }

  function Updated(s: State, id: nat, p: Patch): Outcome<State> {
    var t := Find(s.rows, id);
    if t.None? then Fail(NotFound)
    else
      var refusal := UpdateRefusal(t.value, p, Linked(s.donations, id));
      if refusal.Some? then Fail(refusal.value)
      else Ok(s.(rows := s.rows[id := Some(Patched(t.value, p))]))
  }

  function Deleted(s: State, id: nat): Outcome<State> {
    if Find(s.rows, id).None? then Fail(NotFound)
    else if Linked(s.donations, id) then Fail(Conflict)
    else Ok(s.(rows := s.rows[id := None]))
  }

  function LineSet(s: State, b: Bucket, budgetXof: nat): State {
    s.(lines := s.lines[b := budgetXof])
  }

  function LineDeleted(s: State, b: Bucket): Outcome<State> {
    if b !in s.lines then Fail(NotFound) else Ok(s.(lines := s.lines - {b}))
  }

  predicate KeyTaken(donations: seq<Donation>, key: Option<string>) {
    key.Some? && exists i :: 0 <= i < |donations| && donations[i].idempotencyKey == key
  }

  /**
   The paired write of a donation: its transaction, then the donation, in one database transaction. A key already
   stored makes the second insert fail, and the first with it.
   */
  function Donated(s: State, amountXof: nat, date: int, donorName: string, key: Option<string>): Outcome<State> {
    if KeyTaken(s.donations, key) then Fail(Conflict)
    else
      var added := Added(s, Draft(Recette, Don, amountXof, date, Valide, Some(donorName), Some(false), None));
      Ok(added.(donations := s.donations + [Donation(|s.rows|, amountXof, date, key)]))
  }

  // ─── Runs ─────────────────────────────────────────────────────────────────

  datatype Op =
    | Create(draft: Draft)
    | Update(id: nat, patch: Patch)
    | Delete(id: nat)
    | SetLine(bucket: Bucket, budgetXof: nat)
    | DeleteLine(bucket: Bucket)
    | Donate(amountXof: nat, date: int, donorName: string, key: Option<string>)
    | Submit(id: nat, user: User, comment: Option<string>)
    | Approve(id: nat, user: User, comment: Option<string>)
    | Reject(id: nat, user: User, reason: string)
    | Resubmit(id: nat, user: User, comment: Option<string>)
    | Complete(id: nat)
    | Cancel(id: nat)

  function Attempt(s: State, op: Op): Outcome<State> {
    match op
    case Create(draft) => Recorded(s, draft)
    case Update(id, patch) => Updated(s, id, patch)
    case Delete(id) => Deleted(s, id)
    case SetLine(bucket, budgetXof) => Ok(LineSet(s, bucket, budgetXof))
    case DeleteLine(bucket) => LineDeleted(s, bucket)
    case Donate(amountXof, date, donorName, key) => Donated(s, amountXof, date, donorName, key)
    case Submit(id, user, comment) => Submitted(s, id, user, comment)
    case Approve(id, user, comment) => ApprovedBy(s, id, user, comment)
    case Reject(id, user, reason) => RejectedBy(s, id, user, reason)
    case Resubmit(id, user, comment) => Resubmitted(s, id, user, comment)
    case Complete(id) => Moved(s, id, Completed)
    case Cancel(id) => Moved(s, id, Cancelled)
  }

  function After(s: State, attempt: Outcome<State>): State {
    if attempt.Ok? then attempt.value else s
  }

  /** A refused operation changes nothing. */
  function Step(s: State, op: Op): State {
    After(s, Attempt(s, op))
  }

  function Run(s: State, ops: seq<Op>): State
    decreases |ops|
  {
    if ops == [] then s else Run(Step(s, ops[0]), ops[1..])
  }
}
