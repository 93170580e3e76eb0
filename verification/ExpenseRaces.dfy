/**
 The expense workflow under interleaving. Every action reads its row first and writes later, on whatever the row has
 become; an approval is split into its read, the budget-line lock it holds to the end, its three sums in order, the
 guarded write (which holds the row to the end) and the commit.
 */
module ExpenseRaces {
  import opened Common
  import opened Budget
  import opened Finance
  import V = Validations

  datatype Action =
    | Submitting(user: User, comment: Option<string>)
    | Rejecting(user: User, reason: string)
    | Resubmitting(user: User, comment: Option<string>)
    | Completing
    | Cancelling
    | Editing(patch: Patch)

  /** How far an approval has got, with what it has read so far. */
  datatype Phase =
    | HasRead
    | HasLine(budgetXof: nat)
    | HasReserved(budgetXof: nat, reserved: nat)
    | HasConsumed(budgetXof: nat, reserved: nat, consumed: nat)
    | HasLegacy(budgetXof: nat, reserved: nat, consumed: nat, legacy: nat)
    | HasWritten(budgetXof: nat)

  /** A request in flight, with the row as it read it. */
  datatype Proc =
    | Acting(action: Action, id: nat, seen: Transaction, linked: bool)
    | Approving(id: nat, user: User, comment: Option<string>, seen: Transaction, phase: Phase)

  datatype World = World(db: State, procs: map<nat, Proc>)

  datatype Move =
    | Begin(p: nat, action: Action, id: nat)
    | BeginApproval(p: nat, id: nat, user: User, comment: Option<string>)
    | Finish(p: nat)
    | Advance(p: nat)
    | Abandon(p: nat)
    | Atomic(op: Op)

  // ─── Locks ────────────────────────────────────────────────────────────────

  predicate HoldsLine(proc: Proc, b: Bucket) {
    proc.Approving? && !proc.phase.HasRead? && BucketOf(proc.seen) == b
  }

  predicate HoldsRow(proc: Proc, id: nat) {
    proc.Approving? && proc.phase.HasWritten? && proc.id == id
  }

  predicate LineHeld(w: World, b: Bucket) {
    exists p :: p in w.procs && HoldsLine(w.procs[p], b)
  }

  predicate RowHeld(w: World, id: nat) {
    exists p :: p in w.procs && HoldsRow(w.procs[p], id)
  }

  // ─── What a step does ─────────────────────────────────────────────────────

  /** The writing half of an action: its checks on the row as read, its write on the row as it is. */
  function Write(db: State, action: Action, id: nat, seen: Transaction, linked: bool): Outcome<State> {
    match action
    case Submitting(user, comment) =>
      if seen.kind != Depense then Fail(BadRequest)
      else if !CanTransition(seen.workflow, PendingApproval) then Fail(Conflict)
      else WriteAndRequest(db, id, None, user, comment)
    case Rejecting(user, reason) =>
      if Blank(reason) then Fail(BadRequest)
      else if !CanTransition(seen.workflow, Rejected) then Fail(Conflict)
      else WriteAndReview(db, id, Rejected, user, Some(reason), V.Rejected)
    case Resubmitting(user, comment) =>
      if seen.workflow != Some(Rejected) then Fail(Conflict)
      else WriteAndRequest(db, id, Some(Rejected), user, comment)
    case Completing => BlindMove(db, id, seen, Completed)
    case Cancelling => BlindMove(db, id, seen, Cancelled)
    case Editing(patch) =>
      if UpdateRefusal(seen, patch, linked).Some? then Fail(UpdateRefusal(seen, patch, linked).value)
      else if Find(db.rows, id).None? then Fail(NotFound)
      else Ok(db.(rows := db.rows[id := Some(Patched(db.rows[id].value, patch))]))
  }

  /** complete and cancel check the status they read, then overwrite the status without looking again. */
  function BlindMove(db: State, id: nat, seen: Transaction, to: WorkflowStatus): Outcome<State> {
    if !CanTransition(seen.workflow, to) then Fail(Conflict)
    else if Find(db.rows, id).None? then Fail(NotFound)
    else Ok(db.(rows := db.rows[id := Some(db.rows[id].value.(workflow := Some(to)))]))
  }

  /** The next phase of an approval; None refuses and rolls back. */
  function NextPhase(w: World, a: Proc): Option<Phase>
    requires a.Approving? && !a.phase.HasWritten?
  {
    var b := BucketOf(a.seen);
    match a.phase
    case HasRead => if b in w.db.lines then Some(HasLine(w.db.lines[b])) else None
    case HasLine(budgetXof) => Some(HasReserved(budgetXof, Sum(w.db.rows, Reserved, b)))
    case HasReserved(budgetXof, reserved) => Some(HasConsumed(budgetXof, reserved, Sum(w.db.rows, Consumed, b)))
    case HasConsumed(budgetXof, reserved, consumed) =>
      Some(HasLegacy(budgetXof, reserved, consumed, Sum(w.db.rows, Legacy, b)))
    case HasLegacy(budgetXof, reserved, consumed, legacy) =>
      var seen := Availability(reserved, consumed + legacy);
      if BudgetCheck(a.seen, Some(budgetXof), seen).Some? then None
      else if AtomicWrite(w.db.rows, a.id, Some(PendingApproval), Approved).Fail? then None
      else Some(HasWritten(budgetXof))
  }

  /** An approval waits for another's budget line when it locks, and for another's row when it writes. */
  predicate Waits(w: World, a: Proc) {
    && a.Approving?
    && ((a.phase.HasRead? && LineHeld(w, BucketOf(a.seen))) || (a.phase.HasLegacy? && RowHeld(w, a.id)))
  }

  function Advanced(w: World, p: nat): World
    requires p in w.procs && w.procs[p].Approving?
  {
    var a := w.procs[p];
    if Waits(w, a) then w
    else if a.phase.HasWritten? then
      World(After(w.db, WriteAndReview(w.db, a.id, Approved, a.user, a.comment, V.Approved)), w.procs - {p})
    else
      var next := NextPhase(w, a);
      if next.None? then w.(procs := w.procs - {p})
      else w.(procs := w.procs[p := a.(phase := next.value)])
  }

  /** Operations taken as one step of their own; they wait for the locks they need. */
  predicate AtomicAllowed(w: World, op: Op) {
    match op
    case Create(_) => true
    case Donate(_, _, _, _) => true
    case SetLine(bucket, _) => !LineHeld(w, bucket)
    case DeleteLine(bucket) => !LineHeld(w, bucket)
    case Delete(id) => !RowHeld(w, id)
    case _ => false
  }

  function Next(w: World, m: Move): World {
    match m
    case Begin(p, action, id) =>
      if p in w.procs || Find(w.db.rows, id).None? then w
      else w.(procs := w.procs[p := Acting(action, id, w.db.rows[id].value, Linked(w.db.donations, id))])
    case BeginApproval(p, id, user, comment) =>
      if p in w.procs || Find(w.db.rows, id).None? then w
      else if !CanTransition(w.db.rows[id].value.workflow, Approved) then w
      else w.(procs := w.procs[p := Approving(id, user, comment, w.db.rows[id].value, HasRead)])
    case Finish(p) =>
      if p !in w.procs || !w.procs[p].Acting? || RowHeld(w, w.procs[p].id) then w
      else
        var a := w.procs[p];
        World(After(w.db, Write(w.db, a.action, a.id, a.seen, a.linked)), w.procs - {p})
    case Advance(p) => if p in w.procs && w.procs[p].Approving? then Advanced(w, p) else w
    case Abandon(p) => w.(procs := w.procs - {p})
    case Atomic(op) => if AtomicAllowed(w, op) then w.(db := Step(w.db, op)) else w
  }

  function Trace(w: World, moves: seq<Move>): World
    decreases |moves|
  {
    if moves == [] then w else Trace(Next(w, moves[0]), moves[1..])
  }
}
