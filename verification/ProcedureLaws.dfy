/** Administrative procedures over whole serial runs, requests of other services included. */
module ProcedureLaws {
  import opened Common
  import opened Procedures
  import V = Validations

  // ─── What every reachable state satisfies ─────────────────────────────────

  /** An approved request for the procedure, reviewed by someone other than its author. */
  predicate Endorses(r: V.Request, id: nat) {
    r.resource == Filed(id) && r.status == V.Approved && r.reviewedBy.Some? && r.reviewedBy.value != r.submittedBy
  }

  ghost predicate Endorsed(reqs: V.Requests, id: nat) {
    exists i :: 0 <= i < |reqs| && Endorses(reqs[i], id)
  }

  predicate Sane(p: Procedure) {
    && p.status != REFUSE && p.status != EXPIRE
    && (Pending(p) ==> p.pendingAction.Some? && p.status != ARCHIVE)
    && !Precedes(p.dates.expiration, p.dates.renewal)
  }

  predicate InSync(s: State, id: nat) {
    V.PendingCount(s.requests, Filed(id)) == if id < |s.procedures| && Pending(s.procedures[id]) then 1 else 0
  }

  ghost predicate Official(s: State, id: nat)
    requires id < |s.procedures|
  {
    s.procedures[id].status == SOUMIS || s.procedures[id].status == APPROUVE ==> Endorsed(s.requests, id)
  }

  ghost predicate Valid(s: State) {
    && V.Valid(s.requests)
    && (forall id :: 0 <= id < |s.procedures| ==> Sane(s.procedures[id]) && Official(s, id))
    && (forall id: nat :: InSync(s, id))
  }

  /** Operations of the other services touch requests of their own kinds only. */
  predicate Legal(op: Op) {
    op.Elsewhere? ==> op.request.res.kind != V.AdministrativeProcedure && V.LegalOp(op.request)
  }

  predicate ApprovedByAnother(s: State, op: Op, id: nat) {
    && op.Approve? && op.id == id
    && var found := V.FindPending(s.requests, Filed(id));
       found.Some? && s.requests[found.value].submittedBy != op.user
  }

  /** How one operation may move a procedure's status. */
  ghost predicate Follows(s: State, s': State, op: Op, id: nat)
    requires id < |s.procedures|
  {
    && id < |s'.procedures|
    && var p, p' := s.procedures[id], s'.procedures[id];
       && (p.status == ARCHIVE ==> p'.status == ARCHIVE)
       && (p'.status != p.status ==>
             || ApprovedByAnother(s, op, id)
             || (op.Update? && op.id == id && Manual(p.status) && Manual(p'.status))
             || (op.Archive? && op.id == id && p'.status == ARCHIVE && !Pending(p)))
  }

  // ─── One step ─────────────────────────────────────────────────────────────

  predicate Submits(op: Op) {
    op.Submit? || op.RequestRenewal? || op.RequestArchive?
  }

  predicate Reviews(op: Op) {
    op.Approve? || op.Reject? || op.RequestChanges?
  }

  function Verdict(op: Op): V.ValidationStatus {
    if op.Approve? then V.Approved else if op.Reject? then V.Rejected else V.ChangesRequested
  }

  lemma RequestsStep(s: State, op: Op)
    requires V.Valid(s.requests) && Legal(op)
    ensures V.Valid(Step(s, op).requests) && V.Extends(s.requests, Step(s, op).requests)
  {
    hide V.Created, V.ReviewedAs, V.Valid, Applied, Coherent;
    var s' := Step(s, op);
    if s'.requests == s.requests {
    } else if op.Elsewhere? {
      V.StepExtends(s.requests, op.request);
    } else if Reviews(op) {
      V.StepExtends(s.requests, V.Review(Filed(op.id), op.user, op.comment, Verdict(op)));
    } else {
      V.StepExtends(s.requests, V.Submit(Filed(op.id), op.user, s.procedures[op.id].validationStatus, op.comment));
    }
  }

  lemma SyncStep(s: State, op: Op, id: nat)
    requires Valid(s) && Legal(op)
    ensures InSync(Step(s, op), id)
  {
    hide V.Created, V.ReviewedAs, V.Valid, V.PendingCount, V.Step, Sane, Coherent, Official, RenewedUntil;
    assert InSync(s, id);
    if op.Elsewhere? {
      OtherKinds(s.requests, op.request, id);
    } else if Submits(op) && op.id < |s.procedures| {
      assert InSync(s, op.id);
      V.CreateEffect(s.requests, Filed(op.id), op.user, s.procedures[op.id].validationStatus, op.comment);
    } else if Reviews(op) && op.id < |s.procedures| {
      assert InSync(s, op.id);
      V.ReviewEffect(s.requests, Filed(op.id), op.user, op.comment, Verdict(op));
    }
  }

  lemma OtherKinds(reqs: V.Requests, op: V.Op, id: nat)
    requires op.res.kind != V.AdministrativeProcedure && V.LegalOp(op)
    ensures V.PendingCount(V.Step(reqs, op), Filed(id)) == V.PendingCount(reqs, Filed(id))
  {
    hide V.Created, V.ReviewedAs, V.PendingCount;
    match op
    case Submit(res, user, previous, comment) => V.CreateEffect(reqs, res, user, previous, comment);
    case Review(res, user, comment, verdict) => V.ReviewEffect(reqs, res, user, comment, verdict);
  }

  lemma ReviewStep(s: State, op: Op, id: nat)
    requires Valid(s) && id < |s.procedures| && Reviews(op)
    ensures Follows(s, Step(s, op), op, id) && Sane(Step(s, op).procedures[id])
  {
    hide V.Valid, V.PendingCount, V.FindPending, Official;
    assert Sane(s.procedures[id]) && InSync(s, id);
    V.FoundIffCounted(s.requests, Filed(id));
  }

  lemma WriteStep(s: State, op: Op, id: nat)
    requires Valid(s) && id < |s.procedures| && !Reviews(op)
    ensures Follows(s, Step(s, op), op, id) && Sane(Step(s, op).procedures[id])
  {
    hide V.Created, V.Valid, V.PendingCount, V.Step, V.FindPending, Applied, InSync, ApprovedByAnother, Official;
    assert Sane(s.procedures[id]);
  }

  lemma ProcedureStep(s: State, op: Op, id: nat)
    requires Valid(s) && Legal(op) && id < |s.procedures|
    ensures Follows(s, Step(s, op), op, id) && Sane(Step(s, op).procedures[id])
  {
    hide Step, Follows, Sane, Valid;
    if Reviews(op) {
      ReviewStep(s, op, id);
    } else {
      WriteStep(s, op, id);
    }
  }

  lemma EndorsementStays(before: V.Requests, after: V.Requests, id: nat)
    requires V.Extends(before, after) && Endorsed(before, id)
    ensures Endorsed(after, id)
  {
    var i :| 0 <= i < |before| && Endorses(before[i], id);
    assert Endorses(after[i], id);
  }

  lemma ApprovalEndorses(s: State, op: Op)
    requires op.Approve? && Attempt(s, op).Ok?
    ensures Endorsed(Step(s, op).requests, op.id)
  {
    hide Applied;
    var v := V.ReviewedAs(s.requests, Filed(op.id), op.user, op.comment, V.Approved).value;
    assert Endorses(v.requests[v.index], op.id);
  }

  lemma OfficialStep(s: State, op: Op, id: nat)
    requires Valid(s) && Legal(op) && id < |s.procedures| <= |Step(s, op).procedures|
    ensures Official(Step(s, op), id)
  {
    hide Step, Sane, InSync, V.Valid, Endorsed, V.Extends, V.FindPending;
    var s' := Step(s, op);
    RequestsStep(s, op);
    ProcedureStep(s, op, id);
    assert Official(s, id);
    if s'.procedures[id].status != s.procedures[id].status && ApprovedByAnother(s, op, id) {
      StepTaken(s, op);
      ApprovalEndorses(s, op);
    } else if Endorsed(s.requests, id) {
      EndorsementStays(s.requests, s'.requests, id);
    }
  }

  lemma StepTaken(s: State, op: Op)
    requires Step(s, op) != s
    ensures Attempt(s, op).Ok?
  {
  }

  lemma NewProcedure(s: State, op: Op)
    ensures |s.procedures| <= |Step(s, op).procedures| <= |s.procedures| + 1
    ensures var s' := Step(s, op);
            |s'.procedures| > |s.procedures| ==> Sane(s'.procedures[|s.procedures|]) && Manual(s'.procedures[|s.procedures|].status)
  {
    hide V.Created, V.ReviewedAs, V.Step;
  }

  lemma StepKeeps(s: State, op: Op)
    requires Valid(s) && Legal(op)
    ensures Valid(Step(s, op))
    ensures forall id :: 0 <= id < |s.procedures| ==> Follows(s, Step(s, op), op, id)
  {
    hide Step, Sane, InSync, V.Valid, Follows, Endorsed;
    var s' := Step(s, op);
    RequestsStep(s, op);
    NewProcedure(s, op);
    forall id: nat ensures InSync(s', id) {
      SyncStep(s, op, id);
    }
    forall id | 0 <= id < |s'.procedures|
      ensures Sane(s'.procedures[id]) && Official(s', id) && (id < |s.procedures| ==> Follows(s, s', op, id))
    {
      if id < |s.procedures| {
        ProcedureStep(s, op, id);
        OfficialStep(s, op, id);
      }
    }
  }

  lemma ArchivedStays(s: State, s': State, op: Op, id: nat)
    requires id < |s.procedures| && Follows(s, s', op, id) && s.procedures[id].status == ARCHIVE
    ensures id < |s'.procedures| && s'.procedures[id].status == ARCHIVE
  {
  }

  // ─── Whole runs ───────────────────────────────────────────────────────────

  /**
   In every serial run a submitted or approved procedure has an approved request behind it, reviewed by someone other
   than its author; pending requests match pending procedures; history only grows; and an archived procedure stays so.
   */
  lemma {:induction false} ProceduresInEveryRun(s: State, ops: seq<Op>)
    requires Valid(s) && forall i :: 0 <= i < |ops| ==> Legal(ops[i])
    ensures var s' := Run(s, ops);
            && Valid(s') && V.Extends(s.requests, s'.requests)
            && |s.procedures| <= |s'.procedures|
            && (forall id :: 0 <= id < |s.procedures| && s.procedures[id].status == ARCHIVE ==>
                  s'.procedures[id].status == ARCHIVE)
    decreases |ops|
  {
    hide Step, InSync, V.Valid, Follows, Legal, Sane, Official;
    if ops != [] {
      var next := Step(s, ops[0]);
      StepKeeps(s, ops[0]);
      RequestsStep(s, ops[0]);
      NewProcedure(s, ops[0]);
      ProceduresInEveryRun(next, ops[1..]);
      forall id | 0 <= id < |s.procedures| && s.procedures[id].status == ARCHIVE ensures next.procedures[id].status == ARCHIVE {
        ArchivedStays(s, next, ops[0], id);
      }
    }
  }

  /**
   Approving a renewal gives a later expiry than the recorded one exactly when no renewal date was recorded: the date
   checks keep a recorded renewal date at or before the expiry it then replaces.
   */
  lemma RenewalExtendsIff(s: State, op: Op)
    requires Valid(s) && op.Approve? && op.id < |s.procedures| && Attempt(s, op).Ok?
    requires s.procedures[op.id].pendingAction == Some(RENEWAL) && s.procedures[op.id].dates.expiration.Some?
    ensures var p, p' := s.procedures[op.id], Step(s, op).procedures[op.id];
            && p'.status == EN_COURS && p'.dates.renewal.None? && p'.dates.expiration.Some?
            && (p'.dates.expiration.value > p.dates.expiration.value <==> p.dates.renewal.None?)
  {
    hide V.Valid, InSync, Official, V.ReviewedAs;
    assert Sane(s.procedures[op.id]);
  }

  lemma NoProcedures(requests: V.Requests)
    requires V.Valid(requests) && forall id: nat :: V.PendingCount(requests, Filed(id)) == 0
    ensures Valid(State([], requests))
  {
  }

  /** A procedure expiring at 10 with a renewal date of 5: its approved renewal makes it expire at 5. */
  lemma RenewalShortens()
    ensures var renewed := Run(State([], []), [Create(None, Dates(None, None, Some(10), Some(5)), None, None), RequestRenewal(0, 1, None),
                                               Approve(0, 2, None, 0)]);
            |renewed.procedures| == 1 && renewed.procedures[0].dates.expiration == Some(5)
  {
    var created := Create(None, Dates(None, None, Some(10), Some(5)), None, None);
    var asked, approved := RequestRenewal(0, 1, None), Approve(0, 2, None, 0);
    var s0 := State([], []);
    var s1 := Step(s0, created);
    var s2 := Step(s1, asked);
    assert s2.requests == [V.Request(Filed(0), V.PendingValidation, None, 1, None, None)];
    assert V.FindPending(s2.requests, Filed(0)) == Some(0);
    var s3 := Step(s2, approved);
    assert [created, asked, approved][1..] == [asked, approved] && [asked, approved][1..] == [approved] && [approved][1..] == [];
    assert Run(s2, [approved]) == Run(s3, []) == s3;
    assert Run(s1, [asked, approved]) == Run(s2, [approved]);
  }
}
