/** With nothing else in flight the interleaved workflow is the serial one: every serial run is a trace. */
module ExpenseRaceAlone {
  import opened Common
  import opened Budget
  import opened Finance
  import opened ExpenseRaces
  import V = Validations

  predicate LockFree(procs: map<nat, Proc>) {
    forall p :: p in procs && procs[p].Approving? ==> procs[p].phase.HasRead?
  }

  function Advances(p: nat, n: nat): seq<Move> {
    if n == 0 then [] else [Advance(p)] + Advances(p, n - 1)
  }

  lemma {:induction false} NothingToAdvance(w: World, p: nat, n: nat)
    requires p !in w.procs
    ensures Trace(w, Advances(p, n)) == w
  {
    if n > 0 {
      assert Advances(p, n)[1..] == Advances(p, n - 1);
      NothingToAdvance(w, p, n - 1);
    }
  }

  /** One phase of an approval that waits for nobody. */
  lemma PhaseAlone(db: State, procs: map<nat, Proc>, p: nat, a: Proc, n: nat)
    requires LockFree(procs) && p !in procs && a.Approving? && !a.phase.HasWritten?
    ensures var next := NextPhase(World(db, procs), a);
            Trace(World(db, procs[p := a]), Advances(p, n + 1))
            == if next.None? then World(db, procs)
               else Trace(World(db, procs[p := a.(phase := next.value)]), Advances(p, n))
  {
    hide BucketOf, Sum, BudgetCheck, AtomicWrite;
    var w := World(db, procs[p := a]);
    assert !Waits(w, a);
    assert Advances(p, n + 1)[1..] == Advances(p, n);
    var next := NextPhase(w, a);
    assert next == NextPhase(World(db, procs), a);
    if next.None? {
      assert procs[p := a] - {p} == procs;
      NothingToAdvance(World(db, procs), p, n);
    } else {
      assert procs[p := a][p := a.(phase := next.value)] == procs[p := a.(phase := next.value)];
    }
  }

  lemma CommitAlone(db: State, procs: map<nat, Proc>, p: nat, a: Proc)
    requires p !in procs && a.Approving? && a.phase.HasWritten?
    ensures Trace(World(db, procs[p := a]), Advances(p, 1))
         == World(After(db, WriteAndReview(db, a.id, Approved, a.user, a.comment, V.Approved)), procs)
  {
    hide WriteAndReview, BucketOf;
    var w := World(db, procs[p := a]);
    assert !Waits(w, a);
    assert procs[p := a] - {p} == procs;
    assert Advances(p, 1) == [Advance(p)];
    assert Trace(Next(w, Advance(p)), []) == Next(w, Advance(p));
  }

  /** The six phases, from the row as it is: the line, the three sums, the guarded write, the commit. */
  lemma PhasesAlone(db: State, procs: map<nat, Proc>, p: nat, a: Proc)
    requires LockFree(procs) && p !in procs && a.Approving? && a.phase.HasRead?
    requires Find(db.rows, a.id) == Some(a.seen) && CanTransition(a.seen.workflow, Approved)
    ensures Trace(World(db, procs[p := a]), Advances(p, 6))
         == World(After(db, ApprovedBy(db, a.id, a.user, a.comment)), procs)
  {
    hide BucketOf, Sum, WriteAndReview, Trace, Advances;
    var b := BucketOf(a.seen);
    PhaseAlone(db, procs, p, a, 5);
    if b in db.lines {
      var line := db.lines[b];
      var reserved, consumed, legacy := Sum(db.rows, Reserved, b), Sum(db.rows, Consumed, b), Sum(db.rows, Legacy, b);
      PhaseAlone(db, procs, p, a.(phase := HasLine(line)), 4);
      PhaseAlone(db, procs, p, a.(phase := HasReserved(line, reserved)), 3);
      PhaseAlone(db, procs, p, a.(phase := HasConsumed(line, reserved, consumed)), 2);
      PhaseAlone(db, procs, p, a.(phase := HasLegacy(line, reserved, consumed, legacy)), 1);
      CommitAlone(db, procs, p, a.(phase := HasWritten(line)));
    }
  }

  lemma ApprovalAlone(w: World, p: nat, id: nat, user: User, comment: Option<string>)
    requires LockFree(w.procs) && p !in w.procs
    ensures Trace(w, [BeginApproval(p, id, user, comment)] + Advances(p, 6))
         == World(After(w.db, ApprovedBy(w.db, id, user, comment)), w.procs)
  {
    hide BucketOf, CategoryAvailability, Advances, WriteAndReview;
    assert ([BeginApproval(p, id, user, comment)] + Advances(p, 6))[1..] == Advances(p, 6);
    var t := Find(w.db.rows, id);
    if t.Some? && CanTransition(t.value.workflow, Approved) {
      PhasesAlone(w.db, w.procs, p, Approving(id, user, comment, t.value, HasRead));
    } else {
      NothingToAdvance(w, p, 6);
    }
  }

  // ─── The other actions ────────────────────────────────────────────────────

  /** The serial operation an action is, when its read and its write have nothing between them. */
  function SerialOf(action: Action, id: nat): Op {
    match action
    case Submitting(user, comment) => Submit(id, user, comment)
    case Rejecting(user, reason) => Reject(id, user, reason)
    case Resubmitting(user, comment) => Resubmit(id, user, comment)
    case Completing => Complete(id)
    case Cancelling => Cancel(id)
    case Editing(patch) => Update(id, patch)
  }

  /** On the row as it is, the writing half is the whole operation, refusals included; on a missing row both refuse. */
  lemma WriteAlone(db: State, action: Action, id: nat)
    ensures var t, attempt := Find(db.rows, id), Attempt(db, SerialOf(action, id));
            if t.None? then attempt.Fail? else attempt == Write(db, action, id, t.value, Linked(db.donations, id))
  {
    hide WriteAndRequest, WriteAndReview, UpdateRefusal, Patched, Linked, Blank;
  }

  /** When the row has gone since it was read, whatever passes the checks on what was read finds nothing to write. */
  lemma RowGone(db: State, action: Action, id: nat, seen: Transaction, linked: bool)
    requires Find(db.rows, id).None?
    ensures var r := Write(db, action, id, seen, linked);
            r.Fail? && (action.Editing? && UpdateRefusal(seen, action.patch, linked).None? ==> r.error == NotFound)
            && ((action.Completing? || action.Cancelling?) && seen.workflow == Some(Approved) ==> r.error == NotFound)
  {
    hide UpdateRefusal, Patched;
  }

  lemma ActionAlone(w: World, p: nat, action: Action, id: nat)
    requires LockFree(w.procs) && p !in w.procs
    ensures Trace(w, [Begin(p, action, id), Finish(p)]) == World(Step(w.db, SerialOf(action, id)), w.procs)
  {
    hide Attempt, Write, Linked;
    WriteAlone(w.db, action, id);
    var w1 := Next(w, Begin(p, action, id));
    var w2 := Next(w1, Finish(p));
    assert [Begin(p, action, id), Finish(p)][1..] == [Finish(p)];
    assert [Finish(p)][1..] == [];
    assert Trace(w2, []) == w2;
    assert Trace(w1, [Finish(p)]) == w2;
    if Find(w.db.rows, id).Some? {
      assert w1.procs - {p} == w.procs;
    }
  }

  // ─── Serial runs ──────────────────────────────────────────────────────────

  /** One serial operation as moves of the process p. */
  function MovesOf(p: nat, op: Op): seq<Move> {
    match op
    case Submit(id, user, comment) => [Begin(p, Submitting(user, comment), id), Finish(p)]
    case Reject(id, user, reason) => [Begin(p, Rejecting(user, reason), id), Finish(p)]
    case Resubmit(id, user, comment) => [Begin(p, Resubmitting(user, comment), id), Finish(p)]
    case Complete(id) => [Begin(p, Completing, id), Finish(p)]
    case Cancel(id) => [Begin(p, Cancelling, id), Finish(p)]
    case Update(id, patch) => [Begin(p, Editing(patch), id), Finish(p)]
    case Approve(id, user, comment) => [BeginApproval(p, id, user, comment)] + Advances(p, 6)
    case _ => [Atomic(op)]
  }

  lemma OperationAlone(w: World, p: nat, op: Op)
    requires LockFree(w.procs) && p !in w.procs
    ensures Trace(w, MovesOf(p, op)) == World(Step(w.db, op), w.procs)
  {
    hide ApprovedBy, Submitted, RejectedBy, Resubmitted, Moved, Updated, Advances, Trace;
    match op
    case Submit(id, user, comment) => ActionAlone(w, p, Submitting(user, comment), id);
    case Reject(id, user, reason) => ActionAlone(w, p, Rejecting(user, reason), id);
    case Resubmit(id, user, comment) => ActionAlone(w, p, Resubmitting(user, comment), id);
    case Complete(id) => ActionAlone(w, p, Completing, id);
    case Cancel(id) => ActionAlone(w, p, Cancelling, id);
    case Update(id, patch) => ActionAlone(w, p, Editing(patch), id);
    case Approve(id, user, comment) => ApprovalAlone(w, p, id, user, comment);
    case _ => AtomicAlone(w, op);
  }

  lemma AtomicAlone(w: World, op: Op)
    requires LockFree(w.procs)
    requires op.Create? || op.Donate? || op.SetLine? || op.DeleteLine? || op.Delete?
    ensures Trace(w, [Atomic(op)]) == World(Step(w.db, op), w.procs)
  {
    hide Step;
    assert [Atomic(op)][1..] == [];
    assert Trace(Next(w, Atomic(op)), []) == Next(w, Atomic(op));
  }

  function MovesOfRun(p: nat, ops: seq<Op>): seq<Move> {
    if ops == [] then [] else MovesOf(p, ops[0]) + MovesOfRun(p, ops[1..])
  }

  lemma {:induction false} TraceConcat(w: World, first: seq<Move>, rest: seq<Move>)
    ensures Trace(w, first + rest) == Trace(Trace(w, first), rest)
    decreases |first|
  {
    hide Next;
    if first == [] {
      assert first + rest == rest;
    } else {
      assert (first + rest)[1..] == first[1..] + rest;
      TraceConcat(Next(w, first[0]), first[1..], rest);
    }
  }

  /** Every serial run is a trace of one process, so whatever holds of all traces holds of all serial runs. */
  lemma {:induction false} SerialIsTrace(w: World, p: nat, ops: seq<Op>)
    requires LockFree(w.procs) && p !in w.procs
    ensures Trace(w, MovesOfRun(p, ops)) == World(Run(w.db, ops), w.procs)
    decreases |ops|
  {
    hide MovesOf, Step, LockFree;
    if ops != [] {
      OperationAlone(w, p, ops[0]);
      TraceConcat(w, MovesOf(p, ops[0]), MovesOfRun(p, ops[1..]));
      SerialIsTrace(World(Step(w.db, ops[0]), w.procs), p, ops[1..]);
    }
  }
}
