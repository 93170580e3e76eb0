/** The visitor register over whole serial runs, requests of other services included. */
module EntryLogLaws {
  import opened Common
  import opened EntryLogs
  import V = Validations

  // ─── What every reachable register satisfies ──────────────────────────────

  /** The statuses a parked action can be waiting on. */
  predicate Fits(action: Action, status: EntryStatus) {
    match action
    case ACCESS_OVERRIDE => status == REFUSEE
    case AFTER_HOURS_ACCESS => status == PREVUE
    case EXCEPTIONAL_EXIT => status == PRESENT
    case MANUAL_CHECKOUT_OVERRIDE => status == SORTI
    case RECORD_ARCHIVE => status == PREVUE || status == PRESENT
  }

  predicate Sane(e: Entry) {
    && (e.status == PRESENT ==> e.arrival.Some? && e.departure.None?)
    && (e.status == SORTI ==> e.departure.Some?)
    && (e.departure.Some? ==> e.status == SORTI || e.status == ARCHIVEE)
    && e.status != EN_ATTENTE_VALIDATION
    && (Pending(e) ==> e.pendingAction.Some? && Fits(e.pendingAction.value, e.status))
  }

  /** A request is pending for an entry exactly when the entry says so. */
  predicate InSync(s: State, id: nat) {
    V.PendingCount(s.requests, Logged(id)) == if id < |s.entries| && Pending(s.entries[id]) then 1 else 0
  }

  ghost predicate Valid(s: State) {
    && V.Valid(s.requests)
    && (forall id :: 0 <= id < |s.entries| ==> Sane(s.entries[id]))
    && (forall id: nat :: InSync(s, id))
  }

  /** Operations of the other services touch requests of their own kinds only. */
  predicate Legal(op: Op) {
    op.Elsewhere? ==> op.request.res.kind != V.EntryLog && V.LegalOp(op.request)
  }

  predicate Moves(from: EntryStatus, to: EntryStatus) {
    match from
    case PREVUE => to == PRESENT || to == ANNULEE || to == REFUSEE || to == ARCHIVEE
    case PRESENT => to == SORTI || to == ARCHIVEE
    case SORTI => to == ARCHIVEE
    case ANNULEE => to == REFUSEE || to == ARCHIVEE
    case REFUSEE => to == PRESENT || to == ARCHIVEE
    case _ => false
  }

  /** A successful approval of the entry by someone other than whoever asked. */
  predicate ApprovedByAnother(s: State, op: Op, id: nat) {
    && op.Approve? && op.id == id
    && var found := V.FindPending(s.requests, Logged(id));
       found.Some? && s.requests[found.value].submittedBy != op.user
  }

  /** What one operation may do to an entry: nobody comes in out of hours, or leaves exceptionally, without an approval. */
  ghost predicate Follows(s: State, s': State, op: Op, closed: int -> bool, id: nat)
    requires id < |s.entries|
  {
    && id < |s'.entries|
    && var e, e' := s.entries[id], s'.entries[id];
       && (e.status == ARCHIVEE ==> e' == e)
       && (e'.status != e.status ==> Moves(e.status, e'.status))
       && (Pending(e) && e'.status != e.status ==> ApprovedByAnother(s, op, id))
       && (e.status == REFUSEE && e'.status == PRESENT ==> ApprovedByAnother(s, op, id))
       && (e.departure.Some? && e'.departure != e.departure ==> ApprovedByAnother(s, op, id))
       && (e.status == PREVUE && e'.status == PRESENT ==>
             e'.arrival.Some? && (!closed(e'.arrival.value) || ApprovedByAnother(s, op, id)))
       && (e.status == PRESENT && e'.status == SORTI ==>
             && e'.departure.Some?
             && (!Precedes(e'.departure, e.arrival) || ApprovedByAnother(s, op, id))
             && (e.entryType == SORTIE_EXCEPTIONNELLE ==> ApprovedByAnother(s, op, id)))
  }

  // ─── One step ─────────────────────────────────────────────────────────────

  lemma RequestsStep(s: State, op: Op, closed: int -> bool)
    requires V.Valid(s.requests) && Legal(op)
    ensures V.Valid(Step(s, op, closed).requests) && V.Extends(s.requests, Step(s, op, closed).requests)
  {
    hide V.Created, V.ReviewedAs, V.Valid, Applied;
    var s' := Step(s, op, closed);
    if s'.requests == s.requests {
    } else if op.Elsewhere? {
      V.StepExtends(s.requests, op.request);
    } else if op.Approve? || op.Reject? || op.RequestChanges? {
      var verdict := if op.Approve? then V.Approved else if op.Reject? then V.Rejected else V.ChangesRequested;
      V.StepExtends(s.requests, V.Review(Logged(op.id), op.user, op.comment, verdict));
    } else {
      V.StepExtends(s.requests, V.Submit(Logged(op.id), op.user, s.entries[op.id].validationStatus, None));
    }
  }

  lemma SyncStep(s: State, op: Op, closed: int -> bool, id: nat)
    requires Valid(s) && Legal(op)
    ensures InSync(Step(s, op, closed), id)
  {
    hide V.Created, V.ReviewedAs, V.Valid, V.PendingCount, V.Step, Sane;
    assert InSync(s, id);
    if op.Elsewhere? {
      OtherKinds(s.requests, op.request, id);
    } else if op.Create? {
    } else if op.id < |s.entries| {
      assert InSync(s, op.id);
      V.CreateEffect(s.requests, Logged(op.id), if op.Update? || op.CheckIn? || op.CheckOut? || op.Archive? then op.user else 0,
                     s.entries[op.id].validationStatus, None);
      if op.Approve? || op.Reject? || op.RequestChanges? {
        var verdict := if op.Approve? then V.Approved else if op.Reject? then V.Rejected else V.ChangesRequested;
        V.ReviewEffect(s.requests, Logged(op.id), op.user, op.comment, verdict);
      }
    }
  }

  lemma OtherKinds(reqs: V.Requests, op: V.Op, id: nat)
    requires op.res.kind != V.EntryLog && V.LegalOp(op)
    ensures V.PendingCount(V.Step(reqs, op), Logged(id)) == V.PendingCount(reqs, Logged(id))
  {
    hide V.Created, V.ReviewedAs, V.PendingCount;
    match op
    case Submit(res, user, previous, comment) => V.CreateEffect(reqs, res, user, previous, comment);
    case Review(res, user, comment, verdict) => V.ReviewEffect(reqs, res, user, comment, verdict);
  }

  lemma ApprovalStep(s: State, op: Op, closed: int -> bool, id: nat)
    requires Valid(s) && id < |s.entries| && op.Approve?
    ensures Follows(s, Step(s, op, closed), op, closed, id) && Sane(Step(s, op, closed).entries[id])
  {
    hide V.Valid, V.PendingCount, V.FindPending;
    assert Sane(s.entries[id]) && InSync(s, id);
    V.FoundIffCounted(s.requests, Logged(id));
  }

  lemma TurnDownStep(s: State, op: Op, closed: int -> bool, id: nat)
    requires Valid(s) && id < |s.entries| && (op.Reject? || op.RequestChanges?)
    ensures Follows(s, Step(s, op, closed), op, closed, id) && Sane(Step(s, op, closed).entries[id])
  {
    hide V.Valid, V.PendingCount, V.FindPending;
    assert Sane(s.entries[id]) && InSync(s, id);
    V.FoundIffCounted(s.requests, Logged(id));
  }

  lemma WriteStep(s: State, op: Op, closed: int -> bool, id: nat)
    requires Valid(s) && id < |s.entries| && !op.Approve? && !op.Reject? && !op.RequestChanges?
    ensures Follows(s, Step(s, op, closed), op, closed, id) && Sane(Step(s, op, closed).entries[id])
  {
    hide V.Created, V.Valid, V.PendingCount, V.Step, V.FindPending, Applied, InSync, ApprovedByAnother, BadDates;
    assert Sane(s.entries[id]);
  }

  lemma EntryStep(s: State, op: Op, closed: int -> bool, id: nat)
    requires Valid(s) && Legal(op) && id < |s.entries|
    ensures Follows(s, Step(s, op, closed), op, closed, id) && Sane(Step(s, op, closed).entries[id])
  {
    hide Step, Follows, Sane, Valid;
    if op.Approve? {
      ApprovalStep(s, op, closed, id);
    } else if op.Reject? || op.RequestChanges? {
      TurnDownStep(s, op, closed, id);
    } else {
      WriteStep(s, op, closed, id);
    }
  }

  lemma NewEntrySane(s: State, op: Op, closed: int -> bool)
    ensures |s.entries| <= |Step(s, op, closed).entries| <= |s.entries| + 1
    ensures |Step(s, op, closed).entries| > |s.entries| ==> Sane(Step(s, op, closed).entries[|s.entries|])
  {
    hide V.Created, V.ReviewedAs, V.Step;
  }

  lemma StepKeeps(s: State, op: Op, closed: int -> bool)
    requires Valid(s) && Legal(op)
    ensures Valid(Step(s, op, closed))
    ensures forall id :: 0 <= id < |s.entries| ==> Follows(s, Step(s, op, closed), op, closed, id)
  {
    hide Step, Sane, InSync, V.Valid, Follows;
    var s' := Step(s, op, closed);
    RequestsStep(s, op, closed);
    NewEntrySane(s, op, closed);
    forall id: nat ensures InSync(s', id) {
      SyncStep(s, op, closed, id);
    }
    forall id | 0 <= id < |s'.entries| ensures Sane(s'.entries[id]) && (id < |s.entries| ==> Follows(s, s', op, closed, id)) {
      if id < |s.entries| {
        EntryStep(s, op, closed, id);
      }
    }
  }

  // ─── Whole runs ───────────────────────────────────────────────────────────

  /**
   Every register reachable in a serial run is sane and in step with its requests; review history only grows; and an
   archived entry never changes again.
   */
  lemma {:induction false} RegisterInEveryRun(s: State, ops: seq<Op>, closed: int -> bool)
    requires Valid(s) && forall i :: 0 <= i < |ops| ==> Legal(ops[i])
    ensures var s' := Run(s, ops, closed);
            && Valid(s') && V.Extends(s.requests, s'.requests)
            && |s.entries| <= |s'.entries|
            && (forall id :: 0 <= id < |s.entries| && s.entries[id].status == ARCHIVEE ==> s'.entries[id] == s.entries[id])
            && (forall id :: 0 <= id < |s'.entries| ==>
                  (IsCurrentlyPresent(s'.entries[id]) <==> s'.entries[id].status == PRESENT))
    decreases |ops|
  {
    hide Step, InSync, V.Valid, Follows, Legal;
    if ops != [] {
      var next := Step(s, ops[0], closed);
      StepKeeps(s, ops[0], closed);
      RequestsStep(s, ops[0], closed);
      NewEntrySane(s, ops[0], closed);
      RegisterInEveryRun(next, ops[1..], closed);
      forall id | 0 <= id < |s.entries| && s.entries[id].status == ARCHIVEE ensures next.entries[id] == s.entries[id] {
        FrozenOnceArchived(s, next, ops[0], closed, id);
      }
    }
  }

  lemma FrozenOnceArchived(s: State, s': State, op: Op, closed: int -> bool, id: nat)
    requires id < |s.entries| && Follows(s, s', op, closed, id) && s.entries[id].status == ARCHIVEE
    ensures id < |s'.entries| && s'.entries[id] == s.entries[id]
  {
  }

  lemma EmptyRegister(requests: V.Requests)
    requires V.Valid(requests) && forall id: nat :: V.PendingCount(requests, Logged(id)) == 0
    ensures Valid(State([], requests))
  {
  }

  /** The same at every position of a run: whatever happens to an entry there, those rules allow it. */
  lemma RulesAtEveryStep(s: State, ops: seq<Op>, closed: int -> bool, k: nat, id: nat)
    requires Valid(s) && (forall i :: 0 <= i < |ops| ==> Legal(ops[i])) && k < |ops|
    ensures var before := Run(s, ops[..k], closed);
            id < |before.entries| ==> Follows(before, Run(s, ops[..k + 1], closed), ops[k], closed, id)
  {
    hide Follows, Step, Valid, Legal;
    var before := Run(s, ops[..k], closed);
    RegisterInEveryRun(s, ops[..k], closed);
    RunOneMore(s, ops, closed, k);
    if id < |before.entries| {
      EntryStep(before, ops[k], closed, id);
    }
  }

  lemma {:induction false} RunOneMore(s: State, ops: seq<Op>, closed: int -> bool, k: nat)
    requires k < |ops|
    ensures Run(s, ops[..k + 1], closed) == Step(Run(s, ops[..k], closed), ops[k], closed)
    decreases |ops|
  {
    hide Step;
    if k == 0 {
      assert ops[..1] == [ops[0]] && [ops[0]][1..] == [];
      assert Run(Step(s, ops[0], closed), [], closed) == Step(s, ops[0], closed);
    } else {
      assert ops[..k + 1][1..] == ops[1..][..k] && ops[..k][1..] == ops[1..][..k - 1];
      RunOneMore(Step(s, ops[0], closed), ops[1..], closed, k - 1);
    }
  }
}
