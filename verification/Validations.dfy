/** validations.service.ts: the shared engine of pending requests and their reviews. */
module Validations {
  import opened Common

  datatype ResourceType =
    | MaintenanceTicket | SupplierContract | AdministrativeProcedure | StockItem | InventoryAsset | EntryLog
    | GoodsMovementLog | Activity | LeaveRequest | FundRequest | ExpenseTransaction

  datatype ValidationStatus = Draft | PendingValidation | Approved | Rejected | ChangesRequested

  datatype Resource = Resource(kind: ResourceType, id: nat)

  datatype Request = Request(
    resource: Resource,
    status: ValidationStatus,
    previousStatus: Option<ValidationStatus>,
    submittedBy: User,
    reviewedBy: Option<User>,
    comment: Option<string>)

  /** The request table in submission order; a request's id is its index. */
  type Requests = seq<Request>

  datatype Reviewed = Reviewed(requests: Requests, index: nat)

  // ─── The table operations ─────────────────────────────────────────────────

  predicate IsPending(r: Request, res: Resource) {
    r.resource == res && r.status == PendingValidation
  }

  /** The most recently submitted pending request for a resource. */
  function FindPending(reqs: Requests, res: Resource): (found: Option<nat>)
    ensures found.Some? ==> found.value < |reqs| && IsPending(reqs[found.value], res)
  {
    var last := |reqs| - 1;
    if reqs == [] then None
    else if IsPending(reqs[last], res) then Some(last)
    else FindPending(reqs[..last], res)
  }

  function Created(reqs: Requests, res: Resource, submittedBy: User, previousStatus: Option<ValidationStatus>,
                   comment: Option<string>): Outcome<Requests> {
    if FindPending(reqs, res).Some? then
      Fail(Conflict)
    else
      Ok(reqs + [Request(res, PendingValidation, previousStatus, submittedBy, None, comment)])
  }

  function ReviewedAs(reqs: Requests, res: Resource, reviewer: User, comment: Option<string>,
                      verdict: ValidationStatus): Outcome<Reviewed> {
    var found := FindPending(reqs, res);
    if found.None? then
      Fail(Conflict)
    else if reqs[found.value].submittedBy == reviewer then
      Fail(Forbidden)
    else
      var r := reqs[found.value];
      var r' := r.(status := verdict, previousStatus := Some(r.status), reviewedBy := Some(reviewer),
                   comment := if comment.Some? then comment else r.comment);
      Ok(Reviewed(reqs[found.value := r'], found.value))
  }

  class ValidationsService {
    var requests: Requests

    /** What HistoryIsFinal keeps: at most one pending request per resource, and every review by another person. */
    ghost predicate InOrder()
      reads this
    {
      Valid(requests)
    }

    constructor ()
      ensures requests == [] && InOrder()
    {
      requests := [];
    }

    lemma KeepsOrder(op: Op)
      ensures InOrder() && LegalOp(op) ==> Valid(Step(requests, op)) && Extends(requests, Step(requests, op))
    {
      if InOrder() && LegalOp(op) {
        StepExtends(requests, op);
      }
    }

    method Create(res: Resource, submittedBy: User, previousStatus: Option<ValidationStatus>, comment: Option<string>)
      returns (r: Outcome<nat>)
      modifies this
      ensures match Created(old(requests), res, submittedBy, previousStatus, comment)
              case Ok(q) => requests == q && r == Ok(|old(requests)|)
              case Fail(e) => requests == old(requests) && r == Fail(e)
      ensures old(InOrder()) ==> InOrder() && Extends(old(requests), requests)
    {
      hide Valid, Extends;
      KeepsOrder(Submit(res, submittedBy, previousStatus, comment));
      var existingPending := FindPending(requests, res);
      if existingPending.Some? {
        return Fail(Conflict);
      }
      r := Ok(|requests|);
      requests := requests + [Request(res, PendingValidation, previousStatus, submittedBy, None, comment)];
    }

    method ReviewPending(res: Resource, reviewer: User, comment: Option<string>, verdict: ValidationStatus)
      returns (r: Outcome<Request>)
      modifies this
      ensures match ReviewedAs(old(requests), res, reviewer, comment, verdict)
              case Ok(v) => requests == v.requests && r == Ok(v.requests[v.index])
              case Fail(e) => requests == old(requests) && r == Fail(e)
      ensures old(InOrder()) && LegalOp(Review(res, reviewer, comment, verdict)) ==>
                InOrder() && Extends(old(requests), requests)
    {
      hide Valid, Extends, LegalOp;
      KeepsOrder(Review(res, reviewer, comment, verdict));
      var pending := FindPending(requests, res);
      if pending.None? {
        return Fail(Conflict);
      }
      var request := requests[pending.value];
      if request.submittedBy == reviewer {
        return Fail(Forbidden);
      }
      var updated := request.(status := verdict, previousStatus := Some(request.status), reviewedBy := Some(reviewer));
      if comment.Some? {
        updated := updated.(comment := comment);
      }
      requests := requests[pending.value := updated];
      r := Ok(updated);
    }
  }

  // ─── Counting pending requests ────────────────────────────────────────────

  function PendingCount(reqs: Requests, res: Resource): nat {
    if reqs == [] then 0
    else PendingCount(reqs[..|reqs| - 1], res) + (if IsPending(reqs[|reqs| - 1], res) then 1 else 0)
  }

  lemma CountAppend(reqs: Requests, r: Request, res: Resource)
    ensures PendingCount(reqs + [r], res) == PendingCount(reqs, res) + (if IsPending(r, res) then 1 else 0)
  {
    assert (reqs + [r])[..|reqs|] == reqs;
  }

  lemma {:induction false} CountUpdate(reqs: Requests, i: nat, r: Request, res: Resource)
    requires i < |reqs|
    ensures PendingCount(reqs[i := r], res) + (if IsPending(reqs[i], res) then 1 else 0)
         == PendingCount(reqs, res) + (if IsPending(r, res) then 1 else 0)
  {
    var last := |reqs| - 1;
    if i == last {
      assert reqs[i := r][..last] == reqs[..last];
    } else {
      assert reqs[i := r][..last] == reqs[..last][i := r];
      CountUpdate(reqs[..last], i, r, res);
    }
  }

  lemma {:induction false} FoundIffCounted(reqs: Requests, res: Resource)
    ensures FindPending(reqs, res).Some? <==> PendingCount(reqs, res) > 0
  {
    if reqs != [] {
      FoundIffCounted(reqs[..|reqs| - 1], res);
    }
  }

  /** Creating succeeds exactly when nothing is pending, and adds one pending request for that resource alone. */
  lemma CreateEffect(reqs: Requests, res: Resource, user: User, previous: Option<ValidationStatus>, comment: Option<string>)
    ensures Created(reqs, res, user, previous, comment).Ok? <==> PendingCount(reqs, res) == 0
    ensures var c := Created(reqs, res, user, previous, comment);
            c.Ok? ==> forall other ::
              PendingCount(c.value, other) == PendingCount(reqs, other) + (if other == res then 1 else 0)
  {
    FoundIffCounted(reqs, res);
    var c := Created(reqs, res, user, previous, comment);
    if c.Ok? {
      forall other ensures PendingCount(c.value, other) == PendingCount(reqs, other) + (if other == res then 1 else 0) {
        CountAppend(reqs, c.value[|reqs|], other);
      }
    }
  }

  /** A review consumes one pending request of that resource alone; it needs one, and a reviewer other than its author. */
  lemma ReviewEffect(reqs: Requests, res: Resource, reviewer: User, comment: Option<string>, verdict: ValidationStatus)
    requires verdict != PendingValidation
    ensures var v := ReviewedAs(reqs, res, reviewer, comment, verdict);
            && (PendingCount(reqs, res) == 0 ==> v == Fail(Conflict))
            && (v.Fail? ==> v.error == if PendingCount(reqs, res) == 0 then Conflict else Forbidden)
            && (v.Ok? ==>
                  && PendingCount(reqs, res) > 0
                  && forall other ::
                       PendingCount(v.value.requests, other) + (if other == res then 1 else 0) == PendingCount(reqs, other))
  {
    FoundIffCounted(reqs, res);
    var v := ReviewedAs(reqs, res, reviewer, comment, verdict);
    if v.Ok? {
      var i := v.value.index;
      forall other
        ensures PendingCount(v.value.requests, other) + (if other == res then 1 else 0) == PendingCount(reqs, other)
      {
        CountUpdate(reqs, i, v.value.requests[i], other);
      }
    }
  }

  // ─── What is written ──────────────────────────────────────────────────────

  /** One more request, pending, with its author and nothing reviewed. */
  ghost predicate FiledBy(before: Requests, after: Requests, res: Resource, user: User, previous: Option<ValidationStatus>,
                          comment: Option<string>) {
    && |after| == |before| + 1 && after[..|before|] == before
    && var r := after[|before|];
       && r.resource == res && r.status == PendingValidation && r.submittedBy == user && r.reviewedBy.None?
       && r.previousStatus == previous && r.comment == comment
  }

  /** The latest pending request of the resource gets this verdict from someone other than its author; no other changes. */
  ghost predicate ReviewedBy(before: Requests, after: Requests, i: nat, res: Resource, user: User, comment: Option<string>,
                             verdict: ValidationStatus) {
    && i < |before| == |after|
    && before[i].resource == res && before[i].status == PendingValidation && before[i].submittedBy != user
    && (forall j :: i < j < |before| ==> before[j].resource != res || before[j].status != PendingValidation)
    && (forall j :: 0 <= j < |before| && j != i ==> after[j] == before[j])
    && after[i].resource == res && after[i].submittedBy == before[i].submittedBy
    && after[i].status == verdict && after[i].previousStatus == Some(PendingValidation) && after[i].reviewedBy == Some(user)
    && (comment.Some? ==> after[i].comment == comment) && (comment.None? ==> after[i].comment == before[i].comment)
  }

  /** Conflict with nothing pending, Forbidden to an author of something pending. */
  ghost predicate RefusedFor(reqs: Requests, res: Resource, user: User, error: Error) {
    if error == Conflict then forall i :: 0 <= i < |reqs| ==> !IsPending(reqs[i], res)
    else error == Forbidden && exists i :: 0 <= i < |reqs| && IsPending(reqs[i], res) && reqs[i].submittedBy == user
  }

  lemma CreateWrites(reqs: Requests, res: Resource, user: User, previous: Option<ValidationStatus>, comment: Option<string>)
    ensures var c := Created(reqs, res, user, previous, comment);
            if c.Ok? then FiledBy(reqs, c.value, res, user, previous, comment) else c.error == Conflict
  {
  }

  lemma {:induction false} FoundIsLatest(reqs: Requests, res: Resource)
    ensures var found := FindPending(reqs, res);
            && (found.Some? ==> forall j :: found.value < j < |reqs| ==> !IsPending(reqs[j], res))
            && (found.None? ==> forall j :: 0 <= j < |reqs| ==> !IsPending(reqs[j], res))
  {
    if reqs != [] && !IsPending(reqs[|reqs| - 1], res) {
      FoundIsLatest(reqs[..|reqs| - 1], res);
    }
  }

  /** What a review writes; without a pending request it is a conflict, and to the author of the latest one forbidden. */
  lemma ReviewWrites(reqs: Requests, res: Resource, user: User, comment: Option<string>, verdict: ValidationStatus)
    ensures var v := ReviewedAs(reqs, res, user, comment, verdict);
            match v
            case Ok(r) => ReviewedBy(reqs, r.requests, r.index, res, user, comment, verdict)
            case Fail(error) => RefusedFor(reqs, res, user, error)
  {
    FoundIsLatest(reqs, res);
  }

  // ─── Review history over whole runs ───────────────────────────────────────

  datatype Op =
    | Submit(res: Resource, user: User, previous: Option<ValidationStatus>, comment: Option<string>)
    | Review(res: Resource, user: User, comment: Option<string>, verdict: ValidationStatus)

  function Step(reqs: Requests, op: Op): Requests {
    match op
    case Submit(res, user, previous, comment) =>
      var c := Created(reqs, res, user, previous, comment);
      if c.Ok? then c.value else reqs
    case Review(res, user, comment, verdict) =>
      var v := ReviewedAs(reqs, res, user, comment, verdict);
      if v.Ok? then v.value.requests else reqs
  }

  function Run(reqs: Requests, ops: seq<Op>): Requests
    decreases |ops|
  {
    if ops == [] then reqs else Run(Step(reqs, ops[0]), ops[1..])
  }

  /** The three verdicts the service's approve, reject and requestChanges pass on. */
  predicate LegalOp(op: Op) {
    op.Review? ==> op.verdict in {Approved, Rejected, ChangesRequested}
  }

  /** A request is reviewed exactly when it is no longer pending, and never by its own submitter. */
  predicate Sound(r: Request) {
    && (r.reviewedBy.None? <==> r.status == PendingValidation)
    && (r.reviewedBy.Some? ==> r.reviewedBy.value != r.submittedBy)
  }

  ghost predicate Valid(reqs: Requests) {
    && (forall res :: PendingCount(reqs, res) <= 1)
    && (forall i :: 0 <= i < |reqs| ==> Sound(reqs[i]))
  }

  /** History only grows: authorship is fixed from the start, and everything is fixed once reviewed. */
  ghost predicate Extends(before: Requests, after: Requests) {
    && |before| <= |after|
    && forall i :: 0 <= i < |before| ==>
         && after[i].resource == before[i].resource
         && after[i].submittedBy == before[i].submittedBy
         && (before[i].status != PendingValidation ==> after[i] == before[i])
  }

  lemma StepExtends(reqs: Requests, op: Op)
    requires Valid(reqs) && LegalOp(op)
    ensures Valid(Step(reqs, op)) && Extends(reqs, Step(reqs, op))
  {
    hide Created, ReviewedAs, Valid;
    match op
    case Submit(res, user, previous, comment) => FilingExtends(reqs, res, user, previous, comment);
    case Review(res, user, comment, verdict) => ReviewExtends(reqs, res, user, comment, verdict);
  }

  lemma FilingExtends(reqs: Requests, res: Resource, user: User, previous: Option<ValidationStatus>, comment: Option<string>)
    requires Valid(reqs)
    ensures var c := Created(reqs, res, user, previous, comment); c.Ok? ==> Valid(c.value) && Extends(reqs, c.value)
  {
    hide PendingCount, Created;
    CreateWrites(reqs, res, user, previous, comment);
    CreateEffect(reqs, res, user, previous, comment);
  }

  lemma ReviewExtends(reqs: Requests, res: Resource, user: User, comment: Option<string>, verdict: ValidationStatus)
    requires Valid(reqs) && verdict in {Approved, Rejected, ChangesRequested}
    ensures var v := ReviewedAs(reqs, res, user, comment, verdict);
            v.Ok? ==> Valid(v.value.requests) && Extends(reqs, v.value.requests)
  {
    hide PendingCount, ReviewedAs;
    ReviewWrites(reqs, res, user, comment, verdict);
    ReviewEffect(reqs, res, user, comment, verdict);
  }

  /** In every serial run: at most one pending request per resource, and reviewed requests never change again. */
  lemma {:induction false} HistoryIsFinal(reqs: Requests, ops: seq<Op>)
    requires Valid(reqs) && forall i :: 0 <= i < |ops| ==> LegalOp(ops[i])
    ensures Valid(Run(reqs, ops)) && Extends(reqs, Run(reqs, ops))
    decreases |ops|
  {
    if ops != [] {
      StepExtends(reqs, ops[0]);
      HistoryIsFinal(Step(reqs, ops[0]), ops[1..]);
    }
  }
}
