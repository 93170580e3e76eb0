/** What each operation on procedures accepts and leaves behind, and when an approval makes the dates incoherent. */
module ProcedurePolicy {
  import opened Common
  import opened Procedures
  import opened ProcedureLaws
  import V = Validations

  // ─── What is asked of a procedure ─────────────────────────────────────────

  /** The procedure becomes p; nothing else changes. */
  ghost predicate Becomes(s: State, s': State, id: nat, p: Procedure) {
    id < |s.procedures| && s'.requests == s.requests && s'.procedures == s.procedures[id := p]
  }

  /** The procedure shows what is asked of it, a request is filed, and nothing happens yet. */
  ghost predicate PutOff(s: State, s': State, id: nat, user: User, comment: Option<string>, action: Action) {
    && id < |s.procedures|
    && var p := s.procedures[id];
       && s'.procedures == s.procedures[id := p.(validationStatus := Some(V.PendingValidation), pendingAction := Some(action))]
       && V.FiledBy(s.requests, s'.requests, V.Resource(V.AdministrativeProcedure, id), user, p.validationStatus, comment)
  }

  lemma ParkedPutsOff(s: State, id: nat, user: User, comment: Option<string>, action: Action)
    requires id < |s.procedures| && InSync(s, id)
    ensures var r := Parked(s, id, user, comment, action);
            if s.procedures[id].validationStatus == Some(V.PendingValidation) then r == Fail(Conflict)
            else r.Ok? && PutOff(s, r.value, id, user, comment, action)
  {
    hide V.Created;
    V.CreateEffect(s.requests, Filed(id), user, s.procedures[id].validationStatus, comment);
    V.CreateWrites(s.requests, Filed(id), user, s.procedures[id].validationStatus, comment);
  }

  lemma SyncedAt(s: State, id: nat)
    requires Valid(s)
    ensures InSync(s, id)
  {
  }

  predicate NoEarlier(later: Option<int>, earlier: Option<int>) {
    later.Some? && earlier.Some? ==> earlier.value <= later.value
  }

  /** No response expected and no expiry before the submission, and no expiry before the renewal. */
  predicate InOrder(d: Dates) {
    NoEarlier(d.expectedResponse, d.submission) && NoEarlier(d.expiration, d.submission) && NoEarlier(d.expiration, d.renewal)
  }

  predicate ByHand(status: ProcedureStatus) {
    status in {A_PREPARER, EN_COURS, EN_ATTENTE_REPONSE}
  }

  lemma CreationDecides(s: State, status: Option<ProcedureStatus>, dates: Dates, text: Option<string>, contact: Option<Named>)
    ensures var r := Created(s, status, dates, text, contact);
            if !InOrder(dates) then r == Fail(BadRequest)
            else if status.Some? && !ByHand(status.value) then r == Fail(Conflict)
            else if contact.Some? && contact.value.active != Some(true) then r == Fail(BadRequest)
            else
              && r.Ok? && r.value.requests == s.requests && |r.value.procedures| == |s.procedures| + 1
              && r.value.procedures[..|s.procedures|] == s.procedures
              && var p := r.value.procedures[|s.procedures|];
                 && (if status.Some? then p.status == status.value else p.status == A_PREPARER) && p.dates == dates
                 && p.assignment.assignedTo == (if contact.Some? then Some(contact.value.fullName) else text)
                 && p.assignment.contact == (if contact.Some? then Some(contact.value.id) else None)
                 && p.validationStatus.None? && p.pendingAction.None?
  {
  }

  predicate Takes<T(==)>(wanted: Option<T>, before: Option<T>, after: Option<T>) {
    after == if wanted.Some? then wanted else before
  }

  /** Each date is the one given, or else the one recorded. */
  predicate DatesTaken(wanted: Dates, before: Dates, after: Dates) {
    && Takes(wanted.submission, before.submission, after.submission)
    && Takes(wanted.expectedResponse, before.expectedResponse, after.expectedResponse)
    && Takes(wanted.expiration, before.expiration, after.expiration)
    && Takes(wanted.renewal, before.renewal, after.renewal)
  }

  /** The dates as they would be must be in order, the status go from one set by hand to another, the contact be active. */
  lemma UpdateDecides(s: State, id: nat, status: Option<ProcedureStatus>, dates: Dates, text: Option<string>, change: ContactChange,
                      after: Dates)
    requires id < |s.procedures| && DatesTaken(dates, s.procedures[id].dates, after)
    ensures var r, p := Updated(s, id, status, dates, text, change), s.procedures[id];
            if !InOrder(after) then r == Fail(BadRequest)
            else if status.Some? && !(ByHand(p.status) && ByHand(status.value)) then r == Fail(Conflict)
            else if change.Connect? && change.contact.active != Some(true) then r == Fail(BadRequest)
            else
              && r.Ok? && id < |r.value.procedures|
              && var p' := r.value.procedures[id];
                 && Becomes(s, r.value, id, p')
                 && (if status.Some? then p'.status == status.value else p'.status == p.status) && p'.dates == after
                 && p'.validationStatus == p.validationStatus && p'.pendingAction == p.pendingAction
                 && (change.Connect? ==> p'.assignment == Assignment(Some(change.contact.fullName), Some(change.contact.id)))
                 && (change.Disconnect? ==> p'.assignment == Assignment(None, None))
                 && (change.Keep? ==> Takes(text, p.assignment.assignedTo, p'.assignment.assignedTo)
                                      && p'.assignment.contact == p.assignment.contact)
  {
  }

  /** Archiving, and the three requests: a submission from before it is sent, a finalisation from after, the others from anywhere. */
  lemma RequestsDecide(s: State, id: nat, user: User, comment: Option<string>)
    requires Valid(s) && id < |s.procedures|
    ensures var r, p := Archived(s, id), s.procedures[id];
            if p.status == ARCHIVE || p.validationStatus == Some(V.PendingValidation) then r == Fail(Conflict)
            else r.Ok? && Becomes(s, r.value, id, p.(status := ARCHIVE))
    ensures var r, p := Submitted(s, id, user, comment), s.procedures[id];
            if p.validationStatus == Some(V.PendingValidation) || p.status in {APPROUVE, EXPIRE, ARCHIVE} then r == Fail(Conflict)
            else if p.status in {SOUMIS, EN_ATTENTE_REPONSE} then
              r.Ok? && PutOff(s, r.value, id, user, comment, FINALIZATION)
            else r.Ok? && PutOff(s, r.value, id, user, comment, SUBMISSION)
    ensures forall action :: action == RENEWAL || action == ARCHIVING ==>
              var r, p := Requested(s, id, user, comment, action), s.procedures[id];
              if p.status == ARCHIVE || p.validationStatus == Some(V.PendingValidation) then r == Fail(Conflict)
              else r.Ok? && PutOff(s, r.value, id, user, comment, action)
    ensures Attempt(s, RequestRenewal(id, user, comment)) == Requested(s, id, user, comment, RENEWAL)
    ensures Attempt(s, RequestArchive(id, user, comment)) == Requested(s, id, user, comment, ARCHIVING)
  {
    hide Parked, PutOff, Valid, InSync;
    SyncedAt(s, id);
    forall action {
      ParkedPutsOff(s, id, user, comment, action);
    }
  }

  lemma UnknownProcedure(s: State, id: nat, user: User, comment: Option<string>, verdict: V.ValidationStatus, now: int, action: Action)
    requires id >= |s.procedures|
    ensures forall status, dates, text, change :: Updated(s, id, status, dates, text, change) == Fail(NotFound)
    ensures Archived(s, id) == Fail(NotFound) && Submitted(s, id, user, comment) == Fail(NotFound)
    ensures Requested(s, id, user, comment, action) == Fail(NotFound)
    ensures ApprovedBy(s, id, user, comment, now) == Fail(NotFound) && TurnedDown(s, id, user, comment, verdict) == Fail(NotFound)
  {
  }

  // ─── Reviews ──────────────────────────────────────────────────────────────

  /** What an approval makes of a procedure: what was asked, and nothing left waiting. */
  predicate Granted(p: Procedure, p': Procedure, now: int) {
    && p'.validationStatus == Some(V.Approved) && p'.pendingAction.None? && p'.assignment == p.assignment
    && (p.pendingAction == Some(SUBMISSION) ==>
          && p'.status == SOUMIS
          && p'.dates == p.dates.(submission := if p.dates.submission.Some? then p.dates.submission else Some(now)))
    && (p.pendingAction == Some(FINALIZATION) ==> p'.status == APPROUVE && p'.dates == p.dates)
    && (p.pendingAction == Some(ARCHIVING) ==> p'.status == ARCHIVE && p'.dates == p.dates)
    && (p.pendingAction == Some(RENEWAL) ==>
          && p'.status == EN_COURS && p'.dates.renewal.None? && p'.dates.expiration.Some?
          && p'.dates == p.dates.(expiration := p'.dates.expiration, renewal := None)
          && p'.dates.expiration == Some(NewExpiry(p.dates, now)))
    && (p.pendingAction.None? ==> p'.status == p.status && p'.dates == p.dates)
  }

  /** A renewal runs to its recorded date, or else 365 days of 24 hours beyond the expiry, or from now without one. */
  function NewExpiry(d: Dates, now: int): int {
    match (d.renewal, d.expiration)
    case (Some(renewal), _) => renewal
    case (None, Some(until)) => until + 31_536_000_000
    case (None, None) => now + 31_536_000_000
  }

  /** Someone other than the author reviewed the procedure's request, and the procedure is now p. */
  ghost predicate Reviewed(s: State, s': State, id: nat, user: User, comment: Option<string>, verdict: V.ValidationStatus,
                           p: Procedure) {
    && id < |s.procedures| && s'.procedures == s.procedures[id := p]
    && exists i: nat :: V.ReviewedBy(s.requests, s'.requests, i, V.Resource(V.AdministrativeProcedure, id), user, comment, verdict)
  }

  lemma ApprovalDecides(s: State, id: nat, user: User, comment: Option<string>, now: int)
    requires id < |s.procedures|
    ensures match ApprovedBy(s, id, user, comment, now)
            case Ok(s') =>
              id < |s'.procedures| && Reviewed(s, s', id, user, comment, V.Approved, s'.procedures[id])
              && Granted(s.procedures[id], s'.procedures[id], now)
            case Fail(error) => V.RefusedFor(s.requests, Filed(id), user, error)
  {
    hide V.ReviewedAs, V.ReviewedBy, V.RefusedFor;
    V.ReviewWrites(s.requests, Filed(id), user, comment, V.Approved);
  }

  lemma TurnDownDecides(s: State, id: nat, user: User, comment: Option<string>, verdict: V.ValidationStatus)
    requires id < |s.procedures|
    ensures match TurnedDown(s, id, user, comment, verdict)
            case Ok(s') => Reviewed(s, s', id, user, comment, verdict, s.procedures[id].(validationStatus := Some(verdict)))
            case Fail(error) => V.RefusedFor(s.requests, Filed(id), user, error)
  {
    hide V.ReviewedAs, V.ReviewedBy, V.RefusedFor;
    V.ReviewWrites(s.requests, Filed(id), user, comment, verdict);
  }

  // ─── Dates over a run ─────────────────────────────────────────────────────

  /**
   An approval that leaves the dates out of order: a submission recorded later than the response or the expiry planned
   for it, or a renewal to before the submission.
   */
  predicate Disorders(s: State, op: Op, id: nat) {
    && ApprovedByAnother(s, op, id) && id < |s.procedures|
    && var p, d := s.procedures[id], s.procedures[id].dates;
       || (p.pendingAction == Some(SUBMISSION) && d.submission.None?
           && !(NoEarlier(d.expectedResponse, Some(op.now)) && NoEarlier(d.expiration, Some(op.now))))
       || (p.pendingAction == Some(RENEWAL) && d.submission.Some?
           && NewExpiry(d, op.now) < d.submission.value)
  }

  lemma OrderedApproval(s: State, op: Op, id: nat)
    requires Valid(s) && op.Approve? && id < |s.procedures| && InOrder(s.procedures[id].dates)
    ensures id < |Step(s, op).procedures| && (InOrder(Step(s, op).procedures[id].dates) <==> !Disorders(s, op, id))
  {
    hide V.Valid, V.PendingCount, V.FindPending, Sane, Official;
    SyncedAt(s, id);
    V.FoundIffCounted(s.requests, Filed(id));
  }

  /** One operation takes a procedure's dates out of order exactly when it is such an approval. */
  lemma OrderedStepIff(s: State, op: Op, id: nat)
    requires Valid(s) && Legal(op) && id < |s.procedures| && InOrder(s.procedures[id].dates)
    ensures id < |Step(s, op).procedures| && (InOrder(Step(s, op).procedures[id].dates) <==> !Disorders(s, op, id))
  {
    hide Valid, V.Created, V.ReviewedAs, V.Step, Applied, Disorders;
    if op.Approve? {
      OrderedApproval(s, op, id);
    } else {
      assert !Disorders(s, op, id) by { OnlyApprovals(s, op, id); }
    }
  }

  lemma OnlyApprovals(s: State, op: Op, id: nat)
    ensures Disorders(s, op, id) ==> op.Approve?
  {
  }

  lemma NewOneOrdered(s: State, op: Op)
    ensures |s.procedures| <= |Step(s, op).procedures| <= |s.procedures| + 1
    ensures |Step(s, op).procedures| > |s.procedures| ==> InOrder(Step(s, op).procedures[|s.procedures|].dates)
  {
    hide V.Created, V.ReviewedAs, V.Step;
  }

  predicate AllOrdered(s: State) {
    forall id :: 0 <= id < |s.procedures| ==> InOrder(s.procedures[id].dates)
  }

  predicate DisordersOne(s: State, op: Op) {
    exists id: nat :: id < |s.procedures| && Disorders(s, op, id)
  }

  lemma OrderedStep(s: State, op: Op)
    requires Valid(s) && Legal(op) && AllOrdered(s)
    ensures AllOrdered(Step(s, op)) <==> !DisordersOne(s, op)
  {
    hide Valid, Legal, Step, InOrder, Disorders;
    NewOneOrdered(s, op);
    forall id | 0 <= id < |s.procedures| ensures InOrder(Step(s, op).procedures[id].dates) <==> !Disorders(s, op, id) {
      OrderedStepIff(s, op, id);
    }
  }

  /** After k operations every procedure's dates are in order. */
  predicate OrderedAt(s: State, ops: seq<Op>, k: nat)
    requires k <= |ops|
  {
    AllOrdered(Run(s, ops[..k]))
  }

  predicate DisordersAt(s: State, ops: seq<Op>, k: nat)
    requires k < |ops|
  {
    DisordersOne(Run(s, ops[..k]), ops[k])
  }

  lemma {:induction false} RunOneMore(s: State, ops: seq<Op>, k: nat)
    requires k < |ops|
    ensures Run(s, ops[..k + 1]) == Step(Run(s, ops[..k]), ops[k])
    decreases |ops|
  {
    hide Step;
    if k == 0 {
      assert ops[..1] == [ops[0]] && [ops[0]][1..] == [];
      assert Run(Step(s, ops[0]), []) == Step(s, ops[0]);
    } else {
      assert ops[..k + 1][1..] == ops[1..][..k] && ops[..k][1..] == ops[1..][..k - 1];
      RunOneMore(Step(s, ops[0]), ops[1..], k - 1);
    }
  }

  lemma OrderedNext(s: State, ops: seq<Op>, k: nat)
    requires Valid(s) && (forall i :: 0 <= i < |ops| ==> Legal(ops[i])) && k < |ops| && OrderedAt(s, ops, k)
    ensures OrderedAt(s, ops, k + 1) <==> !DisordersAt(s, ops, k)
  {
    hide Valid, Step, AllOrdered, DisordersOne, Legal;
    RunOneMore(s, ops, k);
    ProceduresInEveryRun(s, ops[..k]);
    OrderedStep(Run(s, ops[..k]), ops[k]);
  }

  lemma {:induction false} OrderedUpTo(s: State, ops: seq<Op>, k: nat)
    requires Valid(s) && AllOrdered(s) && (forall i :: 0 <= i < |ops| ==> Legal(ops[i])) && k <= |ops|
    requires forall i :: 0 <= i < k ==> !DisordersAt(s, ops, i)
    ensures OrderedAt(s, ops, k)
  {
    hide Valid, Step, AllOrdered, DisordersOne, Legal, DisordersAt;
    if k > 0 {
      OrderedUpTo(s, ops, k - 1);
      OrderedNext(s, ops, k - 1);
    }
  }

  /** Dates are in order at every point of a run exactly when no approval disorders them where it is made. */
  lemma OrderedThroughoutIff(s: State, ops: seq<Op>)
    requires Valid(s) && AllOrdered(s) && forall i :: 0 <= i < |ops| ==> Legal(ops[i])
    ensures (forall k :: 0 <= k <= |ops| ==> OrderedAt(s, ops, k)) <==> (forall k :: 0 <= k < |ops| ==> !DisordersAt(s, ops, k))
  {
    hide Valid, OrderedAt, DisordersAt, Legal;
    if forall k :: 0 <= k <= |ops| ==> OrderedAt(s, ops, k) {
      forall k | 0 <= k < |ops| ensures !DisordersAt(s, ops, k) {
        assert OrderedAt(s, ops, k) && OrderedAt(s, ops, k + 1);
        OrderedNext(s, ops, k);
      }
    }
    if forall k :: 0 <= k < |ops| ==> !DisordersAt(s, ops, k) {
      forall k | 0 <= k <= |ops| ensures OrderedAt(s, ops, k) {
        OrderedUpTo(s, ops, k);
      }
    }
  }

  /** A response expected at 5 to a submission approved at 10: the submission is recorded after its own response. */
  lemma SubmittedAfterItsResponse()
    ensures var asked := Step(Step(State([], []), Create(None, Dates(None, Some(5), None, None), None, None)), Submit(0, 1, None));
            var s := Step(asked, Approve(0, 2, None, 10));
            && AllOrdered(asked) && |s.procedures| == 1 && s.procedures[0].status == SOUMIS
            && s.procedures[0].dates == Dates(Some(10), Some(5), None, None)
  {
    var s1 := Step(State([], []), Create(None, Dates(None, Some(5), None, None), None, None));
    assert s1 == State([Procedure(A_PREPARER, Dates(None, Some(5), None, None), Assignment(None, None), None, None)], []);
    var s2 := Step(s1, Submit(0, 1, None));
    assert s2.requests == [V.Request(Filed(0), V.PendingValidation, None, 1, None, None)];
    assert V.FindPending(s2.requests, Filed(0)) == Some(0);
  }
}
