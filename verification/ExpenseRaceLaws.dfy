/** What every interleaving of the expense workflow keeps, and where it stops keeping it. */
module ExpenseRaceLaws {
  import opened Common
  import opened Calendar
  import opened Budget
  import opened Finance
  import opened FinanceLaws
  import opened ExpenseRaces
  import V = Validations

  // ─── Status and request agree, whatever was read when ─────────────────────

  /** What a request in flight may rely on about its row. */
  predicate Sound(rows: Table, proc: Proc) {
    && proc.id < |rows|
    && (proc.Approving? && proc.phase.HasWritten? ==> rows[proc.id].Some? && Pending(rows[proc.id].value))
    && (SawApproved(proc) && rows[proc.id].Some? ==> FinanciallyLocked(rows[proc.id].value))
  }

  /** A completion or cancellation whose check has passed. */
  predicate SawApproved(proc: Proc) {
    && proc.Acting?
    && (proc.action.Completing? || proc.action.Cancelling?)
    && proc.seen.workflow == Some(Approved)
  }

  ghost predicate Consistent(w: World) {
    && Agree(w.db.rows, w.db.requests)
    && (forall p :: p in w.procs ==> Sound(w.db.rows, w.procs[p]))
    && (forall p, q, id :: p in w.procs && q in w.procs && HoldsRow(w.procs[p], id) && HoldsRow(w.procs[q], id) ==> p == q)
  }

  /** A write that leaves other rows alone, keeps locked rows locked, and does not fill or empty a slot. */
  predicate Moves(rows: Table, rows': Table, id: nat) {
    && |rows'| == |rows|
    && id < |rows|
    && (forall j :: 0 <= j < |rows| && j != id ==> rows'[j] == rows[j])
    && rows[id].Some? && rows'[id].Some?
    && (FinanciallyLocked(rows[id].value) ==> FinanciallyLocked(rows'[id].value))
  }

  /** Completing, cancelling and editing touch no request, and no status that a request stands for. */
  lemma BlindWriteAgrees(db: State, a: Proc)
    requires Agree(db.rows, db.requests) && Sound(db.rows, a)
    requires a.Acting? && (a.action.Completing? || a.action.Cancelling? || a.action.Editing?)
    ensures var r := Write(db, a.action, a.id, a.seen, a.linked);
            r.Ok? ==> Agree(r.value.rows, r.value.requests) && Moves(db.rows, r.value.rows, a.id)
  {
    hide UpdateRefusal, V.PendingCount;
  }

  lemma WriteAgrees(db: State, a: Proc)
    requires Agree(db.rows, db.requests) && Sound(db.rows, a) && a.Acting?
    ensures var r := Write(db, a.action, a.id, a.seen, a.linked);
            r.Ok? ==> Agree(r.value.rows, r.value.requests) && Moves(db.rows, r.value.rows, a.id)
  {
    hide V.Created, V.ReviewedAs, Agree, UpdateRefusal, Patched, BlindMove;
    match a.action
    case Submitting(user, comment) => RequestEffect(db, a.id, None, user, comment);
    case Rejecting(user, reason) => VerdictEffect(db, a.id, Rejected, user, Some(reason), V.Rejected);
    case Resubmitting(user, comment) => RequestEffect(db, a.id, Some(Rejected), user, comment);
    case _ => BlindWriteAgrees(db, a);
  }

  lemma CommitAgrees(db: State, a: Proc)
    requires Agree(db.rows, db.requests) && a.Approving?
    ensures var r := WriteAndReview(db, a.id, Approved, a.user, a.comment, V.Approved);
            r.Ok? ==> Agree(r.value.rows, r.value.requests) && Moves(db.rows, r.value.rows, a.id)
  {
    hide V.ReviewedAs;
    VerdictEffect(db, a.id, Approved, a.user, a.comment, V.Approved);
  }

  lemma SoundAfterMove(rows: Table, rows': Table, id: nat, proc: Proc)
    requires Moves(rows, rows', id) && Sound(rows, proc)
    requires !HoldsRow(proc, id)
    ensures Sound(rows', proc)
  {
  }

  lemma ConsistentFinish(w: World, p: nat)
    requires Consistent(w) && p in w.procs && w.procs[p].Acting? && !RowHeld(w, w.procs[p].id)
    ensures Consistent(Next(w, Finish(p)))
  {
    hide Agree, Moves, Sound, Write;
    var a := w.procs[p];
    WriteAgrees(w.db, a);
    var r := Write(w.db, a.action, a.id, a.seen, a.linked);
    if r.Ok? {
      forall q | q in w.procs ensures Sound(r.value.rows, w.procs[q]) {
        SoundAfterMove(w.db.rows, r.value.rows, a.id, w.procs[q]);
      }
    }
  }

  lemma ConsistentCommit(w: World, p: nat)
    requires Consistent(w) && p in w.procs && w.procs[p].Approving? && w.procs[p].phase.HasWritten?
    ensures Consistent(Next(w, Advance(p)))
  {
    hide Agree, Moves, Sound, WriteAndReview, BucketOf;
    var a := w.procs[p];
    CommitAgrees(w.db, a);
    var r := WriteAndReview(w.db, a.id, Approved, a.user, a.comment, V.Approved);
    if r.Ok? {
      assert HoldsRow(a, a.id);
      forall q | q in w.procs && q != p ensures Sound(r.value.rows, w.procs[q]) {
        SoundAfterMove(w.db.rows, r.value.rows, a.id, w.procs[q]);
      }
    }
  }

  lemma ConsistentPhase(w: World, p: nat)
    requires Consistent(w) && p in w.procs && w.procs[p].Approving? && !w.procs[p].phase.HasWritten?
    ensures Consistent(Next(w, Advance(p)))
  {
    hide Agree, BucketOf, Sum;
  }

  lemma ConsistentAtomic(w: World, op: Op)
    requires Consistent(w) && AtomicAllowed(w, op)
    ensures Consistent(w.(db := Step(w.db, op)))
  {
    hide Agree, Step, BucketOf;
    AgreeKept(w.db, op);
    OnlyTouched(w.db, op);
    forall p | p in w.procs ensures Sound(Step(w.db, op).rows, w.procs[p]) {
      var proc := w.procs[p];
      if op.Delete? && op.id == proc.id {
        assert !HoldsRow(proc, op.id);
        DeleteEmpties(w.db, op);
      }
    }
  }

  lemma DeleteEmpties(s: State, op: Op)
    requires op.Delete? && op.id < |s.rows|
    ensures Step(s, op).rows[op.id].None? || Step(s, op).rows == s.rows
  {
  }

  lemma ConsistentNext(w: World, m: Move)
    requires Consistent(w)
    ensures Consistent(Next(w, m))
  {
    hide Agree, BucketOf, Sum, Step, Write, WriteAndReview;
    match m
    case Finish(p) =>
      if p in w.procs && w.procs[p].Acting? && !RowHeld(w, w.procs[p].id) { ConsistentFinish(w, p); }
    case Advance(p) =>
      if p in w.procs && w.procs[p].Approving? {
        if w.procs[p].phase.HasWritten? { ConsistentCommit(w, p); } else { ConsistentPhase(w, p); }
      }
    case Atomic(op) =>
      if AtomicAllowed(w, op) { ConsistentAtomic(w, op); }
    case _ =>
  }

  /** In every interleaving, an existing row has exactly one pending request if it awaits approval, and none otherwise. */
  lemma {:induction false} AgreeInEveryTrace(w: World, moves: seq<Move>)
    requires Consistent(w)
    ensures Consistent(Trace(w, moves))
    decreases |moves|
  {
    hide Consistent, Next;
    if moves != [] {
      ConsistentNext(w, moves[0]);
      AgreeInEveryTrace(Next(w, moves[0]), moves[1..]);
    }
  }

  /** Once approved, a row never leaves approved, completed or cancelled, although two of the writes do not look. */
  lemma LockedUnderRaces(w: World, m: Move, id: nat)
    requires Consistent(w) && Find(w.db.rows, id).Some? && FinanciallyLocked(w.db.rows[id].value)
    ensures var after := Find(Next(w, m).db.rows, id); after.Some? ==> FinanciallyLocked(after.value)
  {
    hide Agree, BucketOf, Sum, Step, Write, WriteAndReview;
    match m
    case Finish(p) =>
      if p in w.procs && w.procs[p].Acting? { WriteAgrees(w.db, w.procs[p]); }
    case Advance(p) =>
      if p in w.procs && w.procs[p].Approving? { CommitAgrees(w.db, w.procs[p]); }
    case Atomic(op) => LockHolds(w.db, op, id);
    case _ =>
  }

  lemma EmptyStays(w: World, m: Move, id: nat)
    requires Consistent(w) && id < |w.db.rows| && w.db.rows[id].None?
    ensures id < |Next(w, m).db.rows| && Next(w, m).db.rows[id].None?
  {
    hide Agree, BucketOf, Sum, Step, Write, WriteAndReview;
    match m
    case Finish(p) =>
      if p in w.procs && w.procs[p].Acting? { WriteAgrees(w.db, w.procs[p]); }
    case Advance(p) =>
      if p in w.procs && w.procs[p].Approving? { CommitAgrees(w.db, w.procs[p]); }
    case Atomic(op) =>
      DeletedStays(w.db, op, id);
      OnlyTouched(w.db, op);
    case _ =>
  }

  lemma {:induction false} LockedInEveryTrace(w: World, moves: seq<Move>, id: nat)
    requires Consistent(w) && id < |w.db.rows|
    requires w.db.rows[id].Some? ==> FinanciallyLocked(w.db.rows[id].value)
    ensures var after := Find(Trace(w, moves).db.rows, id);
            after.Some? ==> w.db.rows[id].Some? && FinanciallyLocked(after.value)
    decreases |moves|
  {
    hide Consistent, Next;
    if moves != [] {
      ConsistentNext(w, moves[0]);
      if w.db.rows[id].Some? {
        LockedUnderRaces(w, moves[0], id);
        RowsKept(w, moves[0]);
      } else {
        EmptyStays(w, moves[0], id);
      }
      LockedInEveryTrace(Next(w, moves[0]), moves[1..], id);
    }
  }

  lemma RowsKept(w: World, m: Move)
    requires Consistent(w)
    ensures |w.db.rows| <= |Next(w, m).db.rows|
  {
    hide Agree, BucketOf, Sum, Step, Write, WriteAndReview;
    match m
    case Finish(p) =>
      if p in w.procs && w.procs[p].Acting? { WriteAgrees(w.db, w.procs[p]); }
    case Advance(p) =>
      if p in w.procs && w.procs[p].Approving? { CommitAgrees(w.db, w.procs[p]); }
    case Atomic(op) => OnlyTouched(w.db, op);
    case _ =>
  }

  // ─── Budget safety under interleaving ─────────────────────────────────────

  predicate UnderApproval(w: World, id: nat) {
    exists p :: p in w.procs && w.procs[p].Approving? && w.procs[p].id == id
  }

  /**
   The steps the safety of bucket b rests on not being taken: completing a row meanwhile cancelled; an edit of the
   amount, category, date or type of a row meanwhile approved or under approval; new spending outside the workflow;
   and lowering the line under what is committed.
   */
  predicate Quiet(w: World, m: Move, b: Bucket) {
    match m
    case Finish(p) => p in w.procs && w.procs[p].Acting? ==> QuietWrite(w, w.procs[p], b)
    case Atomic(Create(draft)) => !SpentLegacy(b, NewRow(draft))
    case Atomic(SetLine(bucket, budgetXof)) => bucket == b ==> Committed(w.db.rows, b) <= budgetXof
    case _ => true
  }

  predicate QuietWrite(w: World, a: Proc, b: Bucket)
    requires a.Acting?
  {
    Find(w.db.rows, a.id).Some? ==>
      var row := w.db.rows[a.id].value;
      match a.action
      case Completing => row.workflow != Some(Cancelled)
      case Editing(patch) =>
        && (TouchesFinancial(row, patch) ==> !FinanciallyLocked(row) && !UnderApproval(w, a.id))
        && Weight(Legacy, b, Some(Patched(row, patch))) <= Weight(Legacy, b, Some(row))
      case _ => true
  }

  /** What an approval holding b's line knows: the line as it is, and sums not below the true ones. */
  predicate Covers(db: State, proc: Proc, b: Bucket)
    requires proc.Approving? && !proc.phase.HasRead?
  {
    && b in db.lines && proc.phase.budgetXof == db.lines[b]
    && match proc.phase
       case HasReserved(_, reserved) => Sum(db.rows, Reserved, b) <= reserved
       case HasConsumed(_, reserved, consumed) => Sum(db.rows, Reserved, b) + Sum(db.rows, Consumed, b) <= reserved + consumed
       case HasLegacy(_, reserved, consumed, legacy) => Committed(db.rows, b) <= reserved + consumed + legacy
       case HasWritten(budgetXof) => Committed(db.rows, b) + proc.seen.amountXof <= budgetXof
       case _ => true
  }

  predicate Faithful(rows: Table, proc: Proc) {
    proc.Approving? && Find(rows, proc.id).Some? ==> SameFinancials(Find(rows, proc.id).value, proc.seen)
  }

  ghost predicate Guarded(w: World, b: Bucket) {
    && Within(w.db, b)
    && (forall p :: p in w.procs ==> Faithful(w.db.rows, w.procs[p]))
    && (forall p :: p in w.procs && HoldsLine(w.procs[p], b) ==> Covers(w.db, w.procs[p], b))
    && (forall p, q :: p in w.procs && q in w.procs && HoldsLine(w.procs[p], b) && HoldsLine(w.procs[q], b) ==> p == q)
  }

  /** Each of the three running totals an approval accumulates can only have been larger before. */
  predicate Shrinks(rows: Table, rows': Table, b: Bucket) {
    && Sum(rows', Reserved, b) <= Sum(rows, Reserved, b)
    && Sum(rows', Reserved, b) + Sum(rows', Consumed, b) <= Sum(rows, Reserved, b) + Sum(rows, Consumed, b)
    && Committed(rows', b) <= Committed(rows, b)
  }

  lemma ShrinksByUpdate(rows: Table, id: nat, slot: Option<Transaction>, b: Bucket)
    requires id < |rows|
    requires Weight(Reserved, b, slot) <= Weight(Reserved, b, rows[id])
    requires Weight(Reserved, b, slot) + Weight(Consumed, b, slot)
          <= Weight(Reserved, b, rows[id]) + Weight(Consumed, b, rows[id])
    requires Spend(b, slot) <= Spend(b, rows[id])
    ensures Shrinks(rows, rows[id := slot], b)
  {
    hide Weight, Sum;
    SumUpdate(rows, id, slot, Reserved, b);
    SumUpdate(rows, id, slot, Consumed, b);
    SumUpdate(rows, id, slot, Legacy, b);
  }

  lemma ShrinksByMove(rows: Table, id: nat, to: WorkflowStatus, b: Bucket)
    requires id < |rows| && rows[id].Some? && to != Approved
    requires to == Completed ==> rows[id].value.workflow == Some(Approved) || rows[id].value.workflow == Some(Completed)
    ensures Shrinks(rows, rows[id := Some(rows[id].value.(workflow := Some(to)))], b)
  {
    hide Sum, InMonth, Shrinks;
    ShrinksByUpdate(rows, id, Some(rows[id].value.(workflow := Some(to))), b);
  }

  lemma ShrinksByEdit(rows: Table, id: nat, patch: Patch, b: Bucket)
    requires id < |rows| && rows[id].Some?
    requires TouchesFinancial(rows[id].value, patch) ==> !FinanciallyLocked(rows[id].value)
    requires Weight(Legacy, b, Some(Patched(rows[id].value, patch))) <= Weight(Legacy, b, rows[id])
    ensures Shrinks(rows, rows[id := Some(Patched(rows[id].value, patch))], b)
  {
    hide Sum, InMonth, Shrinks;
    ShrinksByUpdate(rows, id, Some(Patched(rows[id].value, patch)), b);
  }

  lemma QuietWriteShrinks(w: World, a: Proc, b: Bucket)
    requires Consistent(w) && Sound(w.db.rows, a) && a.Acting? && QuietWrite(w, a, b)
    ensures var r := Write(w.db, a.action, a.id, a.seen, a.linked);
            r.Ok? ==>
              && Shrinks(w.db.rows, r.value.rows, b)
              && r.value.lines == w.db.lines
              && Moves(w.db.rows, r.value.rows, a.id)
              && (UnderApproval(w, a.id) ==> SameFinancials(w.db.rows[a.id].value, r.value.rows[a.id].value))
  {
    hide Agree, Sum, BucketOf, V.Created, V.ReviewedAs, Shrinks, InMonth, Weight;
    WriteAgrees(w.db, a);
    var r := Write(w.db, a.action, a.id, a.seen, a.linked);
    if r.Ok? {
      match a.action
      case Submitting(user, comment) => ShrinksByMove(w.db.rows, a.id, PendingApproval, b);
      case Rejecting(user, reason) => ShrinksByMove(w.db.rows, a.id, Rejected, b);
      case Resubmitting(user, comment) => ShrinksByMove(w.db.rows, a.id, PendingApproval, b);
      case Completing => ShrinksByMove(w.db.rows, a.id, Completed, b);
      case Cancelling => ShrinksByMove(w.db.rows, a.id, Cancelled, b);
      case Editing(patch) => ShrinksByEdit(w.db.rows, a.id, patch, b);
    }
  }

  lemma CoversAfterShrink(db: State, db': State, proc: Proc, b: Bucket)
    requires proc.Approving? && !proc.phase.HasRead? && Covers(db, proc, b)
    requires Shrinks(db.rows, db'.rows, b) && b in db'.lines && db'.lines[b] == db.lines[b]
    ensures Covers(db', proc, b)
  {
    hide Sum;
  }

  lemma GuardedFinish(w: World, p: nat, b: Bucket)
    requires Consistent(w) && Guarded(w, b) && Quiet(w, Finish(p), b)
    ensures Guarded(Next(w, Finish(p)), b)
  {
    hide Agree, BucketOf, Write, Shrinks, Covers, Sum, QuietWrite;
    if p in w.procs && w.procs[p].Acting? && !RowHeld(w, w.procs[p].id) {
      var a := w.procs[p];
      QuietWriteShrinks(w, a, b);
      var r := Write(w.db, a.action, a.id, a.seen, a.linked);
      if r.Ok? {
        assert Within(r.value, b) by { WithinAfterShrink(w.db, r.value, b); }
        forall q | q in w.procs ensures Faithful(r.value.rows, w.procs[q]) {
        }
        forall q | q in w.procs && HoldsLine(w.procs[q], b) ensures Covers(r.value, w.procs[q], b) {
          CoversInLines(w.db, w.procs[q], b);
          CoversAfterShrink(w.db, r.value, w.procs[q], b);
        }
      }
    }
  }

  lemma CoversInLines(db: State, proc: Proc, b: Bucket)
    requires proc.Approving? && !proc.phase.HasRead? && Covers(db, proc, b)
    ensures b in db.lines
  {
  }

  lemma WithinAfterShrink(db: State, db': State, b: Bucket)
    requires Within(db, b) && Shrinks(db.rows, db'.rows, b) && db'.lines == db.lines
    ensures Within(db', b)
  {
  }

  lemma CommitSpends(w: World, p: nat, b: Bucket)
    requires Ordinary(b.year) && Consistent(w) && Guarded(w, b)
    requires p in w.procs && w.procs[p].Approving? && w.procs[p].phase.HasWritten?
    ensures var a := w.procs[p];
            var rows' := w.db.rows[a.id := Some(w.db.rows[a.id].value.(workflow := Some(Approved)))];
            && (BucketOf(a.seen) == b ==> Committed(rows', b) <= Committed(w.db.rows, b) + a.seen.amountXof)
            && (BucketOf(a.seen) != b ==> Shrinks(w.db.rows, rows', b))
  {
    hide Agree, BucketOf, Sum, InMonth, Covers;
    var a := w.procs[p];
    var row := w.db.rows[a.id].value;
    var u := row.(workflow := Some(Approved));
    assert SameFinancials(row, a.seen);
    SameBucket(row, a.seen);
    SpendMoves(b, row, Approved);
    CommittedUpdate(w.db.rows, a.id, Some(u), b);
    if BucketOf(a.seen) != b {
      ShrinksByUpdate(w.db.rows, a.id, Some(u), b);
    }
  }

  lemma GuardedCommit(w: World, p: nat, b: Bucket)
    requires Ordinary(b.year) && Consistent(w) && Guarded(w, b)
    requires p in w.procs && w.procs[p].Approving? && w.procs[p].phase.HasWritten?
    ensures Guarded(Next(w, Advance(p)), b)
  {
    hide Agree, BucketOf, Sum, Shrinks, Committed, V.ReviewedAs;
    var a := w.procs[p];
    CommitSpends(w, p, b);
    var r := WriteAndReview(w.db, a.id, Approved, a.user, a.comment, V.Approved);
    if r.Ok? {
      assert HoldsLine(a, BucketOf(a.seen));
      if BucketOf(a.seen) == b {
        assert Covers(w.db, a, b);
      } else {
        WithinAfterShrink(w.db, r.value, b);
        forall q | q in w.procs && HoldsLine(w.procs[q], b) ensures Covers(r.value, w.procs[q], b) {
          CoversAfterShrink(w.db, r.value, w.procs[q], b);
        }
      }
    }
  }

  lemma GuardedPhase(w: World, p: nat, b: Bucket)
    requires Consistent(w) && Guarded(w, b)
    requires p in w.procs && w.procs[p].Approving? && !w.procs[p].phase.HasWritten?
    ensures Guarded(Next(w, Advance(p)), b)
  {
    hide Agree, BucketOf, Sum;
    var a := w.procs[p];
    if !Waits(w, a) && NextPhase(w, a).Some? {
      var a' := a.(phase := NextPhase(w, a).value);
      if BucketOf(a.seen) == b {
        if a.phase.HasRead? {
          assert !LineHeld(w, b);
        } else {
          assert HoldsLine(a, b) && Covers(w.db, a, b);
        }
        assert Covers(w.db, a', b);
      }
    }
  }

  lemma AtomicShrinks(db: State, op: Op, b: Bucket)
    requires op.Create? || op.Donate? || op.Delete?
    requires op.Create? ==> !SpentLegacy(b, NewRow(op.draft))
    ensures Shrinks(db.rows, Step(db, op).rows, b)
  {
    hide Sum, InMonth, Shrinks;
    match op
    case Create(draft) =>
      ShrinksBySame(db.rows, b);
      ShrinksByAppend(db.rows, NewRow(draft), b);
    case Donate(amountXof, date, donorName, key) =>
      ShrinksByAppend(db.rows, NewRow(Draft(Recette, Don, amountXof, date, Valide, Some(donorName), Some(false), None)), b);
      ShrinksBySame(db.rows, b);
    case Delete(id) =>
      ShrinksBySame(db.rows, b);
      if Deleted(db, id).Ok? { ShrinksByUpdate(db.rows, id, None, b); }
  }

  lemma ShrinksBySame(rows: Table, b: Bucket)
    ensures Shrinks(rows, rows, b)
  {
  }

  lemma ShrinksByAppend(rows: Table, t: Transaction, b: Bucket)
    requires Spend(b, Some(t)) == 0
    ensures Shrinks(rows, rows + [Some(t)], b)
  {
    hide Sum, InMonth;
    SumAppend(rows, Some(t), Reserved, b);
    SumAppend(rows, Some(t), Consumed, b);
    SumAppend(rows, Some(t), Legacy, b);
  }

  lemma GuardedAtomic(w: World, op: Op, b: Bucket)
    requires Consistent(w) && Guarded(w, b) && AtomicAllowed(w, op) && Quiet(w, Atomic(op), b)
    ensures Guarded(w.(db := Step(w.db, op)), b)
  {
    hide Agree, BucketOf, Shrinks, Sum, InMonth, SpentLegacy;
    var db' := Step(w.db, op);
    OnlyTouched(w.db, op);
    forall p | p in w.procs ensures Faithful(db'.rows, w.procs[p]) {
      assert Sound(w.db.rows, w.procs[p]);
    }
    if op.Create? || op.Donate? || op.Delete? {
      AtomicShrinks(w.db, op, b);
      WithinAfterShrink(w.db, db', b);
      forall q | q in w.procs && HoldsLine(w.procs[q], b) ensures Covers(db', w.procs[q], b) {
        CoversAfterShrink(w.db, db', w.procs[q], b);
      }
    }
  }

  lemma GuardedNext(w: World, m: Move, b: Bucket)
    requires Ordinary(b.year) && Consistent(w) && Guarded(w, b) && Quiet(w, m, b)
    ensures Guarded(Next(w, m), b)
  {
    hide Consistent, BucketOf, Sum, Step, Write, WriteAndReview;
    match m
    case Finish(p) => GuardedFinish(w, p, b);
    case Advance(p) =>
      if p in w.procs && w.procs[p].Approving? {
        if w.procs[p].phase.HasWritten? { GuardedCommit(w, p, b); } else { GuardedPhase(w, p, b); }
      }
    case Atomic(op) =>
      if AtomicAllowed(w, op) { GuardedAtomic(w, op, b); }
    case _ =>
  }

  predicate QuietTrace(w: World, moves: seq<Move>, b: Bucket)
    decreases |moves|
  {
    moves == [] || (Quiet(w, moves[0], b) && QuietTrace(Next(w, moves[0]), moves[1..], b))
  }

  /**
   Any number of approvals, each split into its six steps, interleaved with every other action: reserved plus consumed
   never passes the budget of the line, as long as every step is quiet for that bucket.
   */
  lemma {:induction false} BudgetInEveryTrace(w: World, moves: seq<Move>, b: Bucket)
    requires Ordinary(b.year) && Consistent(w) && Guarded(w, b) && QuietTrace(w, moves, b)
    ensures Guarded(Trace(w, moves), b)
    decreases |moves|
  {
    hide Consistent, Guarded, Next, Quiet;
    if moves != [] {
      ConsistentNext(w, moves[0]);
      GuardedNext(w, moves[0], b);
      BudgetInEveryTrace(Next(w, moves[0]), moves[1..], b);
    }
  }

  // ─── Exactly which steps overspend ────────────────────────────────────────

  /** The steps that take a bucket past its line, told from the rows and the line before the step. */
  predicate StepOverspends(w: World, m: Move, b: Bucket) {
    match m
    case Finish(p) =>
      && p in w.procs && w.procs[p].Acting? && !RowHeld(w, w.procs[p].id)
      && WriteOverspends(w.db, w.procs[p], b)
    case Advance(p) => p in w.procs && CommitOverspends(w.db, w.procs[p], b)
    case Atomic(op) => AtomicAllowed(w, op) && Overspends(w.db, op, b)
    case _ => false
  }

  /** A completion that brings a cancelled amount back, or an edit that raises the row's share, beyond what is left. */
  predicate WriteOverspends(db: State, a: Proc, b: Bucket)
    requires a.Acting?
  {
    && b in db.lines && Find(db.rows, a.id).Some?
    && var row := db.rows[a.id].value;
       match a.action
       case Completing =>
         && a.seen.workflow == Some(Approved) && row.workflow == Some(Cancelled)
         && Committed(db.rows, b) + Spend(b, Some(row.(workflow := Some(Completed)))) > db.lines[b]
       case Editing(patch) =>
         && UpdateRefusal(a.seen, patch, a.linked).None?
         && Committed(db.rows, b) - Spend(b, Some(row)) + Spend(b, Some(Patched(row, patch))) > db.lines[b]
       case _ => false
  }

  /** An approval committed for more, on the row as it is by then, than is left by then. */
  predicate CommitOverspends(db: State, a: Proc, b: Bucket) {
    && a.Approving? && a.phase.HasWritten?
    && WriteAndReview(db, a.id, Approved, a.user, a.comment, V.Approved).Ok?
    && b in db.lines
    && Committed(db.rows, b) + Spend(b, Some(db.rows[a.id].value.(workflow := Some(Approved)))) > db.lines[b]
  }

  lemma FinishOverspendsIff(w: World, p: nat, b: Bucket)
    requires Consistent(w) && Within(w.db, b)
    ensures Within(Next(w, Finish(p)).db, b) <==> !StepOverspends(w, Finish(p), b)
  {
    hide Agree, BucketOf, Sum, InMonth, Weight, V.Created, V.ReviewedAs, Shrinks, Committed, Spend;
    if p in w.procs && w.procs[p].Acting? && !RowHeld(w, w.procs[p].id) {
      var a := w.procs[p];
      if Find(w.db.rows, a.id).Some? {
        var row := w.db.rows[a.id].value;
        match a.action
        case Completing =>
          SpendMoves(b, row, Completed);
          CommittedUpdate(w.db.rows, a.id, Some(row.(workflow := Some(Completed))), b);
          SpendSettled(b, row);
        case Editing(patch) =>
          CommittedUpdate(w.db.rows, a.id, Some(Patched(row, patch)), b);
        case _ =>
          QuietWriteShrinks(w, a, b);
          var r := Write(w.db, a.action, a.id, a.seen, a.linked);
          if r.Ok? { WithinAfterShrink(w.db, r.value, b); }
      }
    }
  }

  lemma SpendSettled(b: Bucket, t: Transaction)
    ensures t.workflow == Some(Completed) ==> Spend(b, Some(t.(workflow := Some(Completed)))) == Spend(b, Some(t))
    ensures t.workflow == Some(Cancelled) || t.workflow == Some(PendingApproval) ==> Spend(b, Some(t)) == 0
  {
    hide InMonth;
  }

  lemma CommitOverspendsIff(w: World, p: nat, b: Bucket)
    requires Consistent(w) && Within(w.db, b) && p in w.procs && w.procs[p].Approving?
    ensures Within(Next(w, Advance(p)).db, b) <==> !CommitOverspends(w.db, w.procs[p], b)
  {
    hide Agree, BucketOf, Sum, V.ReviewedAs, Committed, Spend;
    var a := w.procs[p];
    if a.phase.HasWritten? {
      var row := w.db.rows[a.id].value;
      SpendSettled(b, row);
      CommittedUpdate(w.db.rows, a.id, Some(row.(workflow := Some(Approved))), b);
    }
  }

  lemma AtomicOverspendsIff(w: World, op: Op, b: Bucket)
    requires Within(w.db, b) && AtomicAllowed(w, op)
    ensures Within(Step(w.db, op), b) <==> !Overspends(w.db, op, b)
  {
    hide Committed, Spend, Counts;
    match op
    case Create(draft) => BudgetCreate(w.db, draft, b);
    case Donate(amountXof, date, donorName, key) => BudgetDonate(w.db, amountXof, date, donorName, key, b);
    case Delete(id) => BudgetDelete(w.db, id, b);
    case _ =>
  }

  /**
   A step, whatever it read and whatever happened since, takes a bucket past its line exactly when it is a completion
   bringing back a cancelled amount, an edit, a new legacy row or an approval committed for more than is left at that
   moment, or a line set too low.
   */
  lemma RaceStepIff(w: World, m: Move, b: Bucket)
    requires Consistent(w) && Within(w.db, b)
    ensures Within(Next(w, m).db, b) <==> !StepOverspends(w, m, b)
  {
    hide Consistent, BucketOf, Within, Step, Write, WriteAndReview, Overspends, WriteOverspends, AtomicAllowed, Advanced;
    match m
    case Finish(p) => FinishOverspendsIff(w, p, b);
    case Advance(p) =>
      if p in w.procs && w.procs[p].Approving? { CommitOverspendsIff(w, p, b); }
    case Atomic(op) =>
      if AtomicAllowed(w, op) { AtomicOverspendsIff(w, op, b); }
    case _ =>
  }

  // ─── Whole traces ─────────────────────────────────────────────────────────

  /** The world after the first k moves. */
  function At(w: World, moves: seq<Move>, k: nat): World
    requires k <= |moves|
  {
    Trace(w, moves[..k])
  }

  lemma StartAt(w: World)
    ensures Trace(w, []) == w
  {
  }

  lemma {:induction false} AtNext(w: World, moves: seq<Move>, k: nat)
    requires k < |moves|
    ensures At(w, moves, k + 1) == Next(At(w, moves, k), moves[k])
    decreases k
  {
    hide Next;
    if k == 0 {
      assert moves[..0] == [] && moves[..1] == [moves[0]] && [moves[0]][1..] == [];
      StartAt(w);
      StartAt(Next(w, moves[0]));
    } else {
      assert moves[..k][1..] == moves[1..][..k - 1] && moves[..k + 1][1..] == moves[1..][..k];
      AtNext(Next(w, moves[0]), moves[1..], k - 1);
    }
  }

  /** The step made at position k takes b past its line. */
  predicate OverspendsAt(w: World, moves: seq<Move>, k: nat, b: Bucket)
    requires k < |moves|
  {
    StepOverspends(At(w, moves, k), moves[k], b)
  }

  predicate WithinAt(w: World, moves: seq<Move>, k: nat, b: Bucket)
    requires k <= |moves|
  {
    Within(At(w, moves, k).db, b)
  }

  lemma {:induction false} WithinUpTo(w: World, moves: seq<Move>, k: nat, b: Bucket)
    requires Consistent(w) && Within(w.db, b) && k <= |moves|
    requires forall i :: 0 <= i < k ==> !OverspendsAt(w, moves, i, b)
    ensures WithinAt(w, moves, k, b)
  {
    hide Consistent, Within, Trace, Next, StepOverspends;
    if k == 0 {
      assert At(w, moves, 0) == w by { assert moves[..0] == []; StartAt(w); }
    } else {
      WithinUpTo(w, moves, k - 1, b);
      AgreeInEveryTrace(w, moves[..k - 1]);
      AtNext(w, moves, k - 1);
      assert !OverspendsAt(w, moves, k - 1, b);
      RaceStepIff(At(w, moves, k - 1), moves[k - 1], b);
    }
  }

  /**
   Over any interleaving of any number of requests, from any consistent world within the line: the bucket stays within
   its line throughout exactly when no step overspends where it is made.
   */
  lemma RaceTraceIff(w: World, moves: seq<Move>, b: Bucket)
    requires Consistent(w) && Within(w.db, b)
    ensures (forall k :: 0 <= k <= |moves| ==> WithinAt(w, moves, k, b)) <==>
            (forall k :: 0 <= k < |moves| ==> !OverspendsAt(w, moves, k, b))
  {
    hide Consistent, Within, Trace, Next, StepOverspends;
    if forall k :: 0 <= k <= |moves| ==> WithinAt(w, moves, k, b) {
      forall k | 0 <= k < |moves| ensures !OverspendsAt(w, moves, k, b) {
        assert WithinAt(w, moves, k, b) && WithinAt(w, moves, k + 1, b);
        AgreeInEveryTrace(w, moves[..k]);
        AtNext(w, moves, k);
        RaceStepIff(At(w, moves, k), moves[k], b);
      }
    }
    if forall k :: 0 <= k < |moves| ==> !OverspendsAt(w, moves, k, b) {
      forall k | 0 <= k <= |moves| ensures WithinAt(w, moves, k, b) {
        WithinUpTo(w, moves, k, b);
      }
    }
  }

  /** With no request in flight, agreement of status and requests is all a world needs. */
  lemma IdleWorld(db: State, b: Bucket)
    requires Agree(db.rows, db.requests)
    ensures Consistent(World(db, map[]))
    ensures Within(db, b) ==> Guarded(World(db, map[]), b)
  {
    hide Agree, Within;
  }
}
