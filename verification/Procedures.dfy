/** administrative-procedures.service.ts: what each operation does to the procedures and their requests. */
module Procedures {
  import opened Common
  import V = Validations

  const DAY_MS: int := 86_400_000

  datatype ProcedureStatus =
    | A_PREPARER | EN_COURS | SOUMIS | EN_ATTENTE_REPONSE | APPROUVE | REFUSE | EXPIRE | ARCHIVE

  datatype Action = SUBMISSION | FINALIZATION | RENEWAL | ARCHIVING

  datatype Dates = Dates(submission: Option<int>, expectedResponse: Option<int>, expiration: Option<int>, renewal: Option<int>)

  /** assignedTo is free text, or the name of the contact as it was when connected. */
  datatype Assignment = Assignment(assignedTo: Option<string>, contact: Option<nat>)

  datatype Procedure = Procedure(
    status: ProcedureStatus,
    dates: Dates,
    assignment: Assignment,
    validationStatus: Option<V.ValidationStatus>,
    pendingAction: Option<Action>)

  /** Procedures are never deleted: a procedure's id is its index. */
  datatype State = State(procedures: seq<Procedure>, requests: V.Requests)

  function Filed(id: nat): V.Resource {
    V.Resource(V.AdministrativeProcedure, id)
  }

  predicate Manual(status: ProcedureStatus) {
    status == A_PREPARER || status == EN_COURS || status == EN_ATTENTE_REPONSE
  }

  predicate Pending(p: Procedure) {
    p.validationStatus == Some(V.PendingValidation)
  }

  predicate Precedes(a: Option<int>, b: Option<int>) {
    a.Some? && b.Some? && a.value < b.value
  }

  /** validateDateCoherence. */
  predicate Coherent(d: Dates) {
    && !Precedes(d.expectedResponse, d.submission)
    && !Precedes(d.expiration, d.submission)
    && !Precedes(d.expiration, d.renewal)
  }

  function OrElse<T>(wanted: Option<T>, current: Option<T>): Option<T> {
    if wanted.Some? then wanted else current
  }

  function Merged(wanted: Dates, current: Dates): Dates {
    Dates(OrElse(wanted.submission, current.submission), OrElse(wanted.expectedResponse, current.expectedResponse),
          OrElse(wanted.expiration, current.expiration), OrElse(wanted.renewal, current.renewal))
  }

  // ─── The operations ───────────────────────────────────────────────────────

  /** What a creation assigns: the contact it names, or else its free text. */
  function Assigned(text: Option<string>, contact: Option<Named>): Assignment {
    if contact.Some? then Assignment(Some(contact.value.fullName), Some(contact.value.id)) else Assignment(text, None)
  }

  /** What an update makes of the assignment: free text counts only when the contact is left alone. */
  function Reassigned(a: Assignment, text: Option<string>, change: ContactChange): Assignment {
    match change
    case Keep => if text.Some? then a.(assignedTo := text) else a
    case Disconnect => Assignment(None, None)
    case Connect(c) => Assignment(Some(c.fullName), Some(c.id))
  }

  function Created(s: State, status: Option<ProcedureStatus>, dates: Dates, text: Option<string>, contact: Option<Named>)
    : Outcome<State>
  {
    if !Coherent(dates) then Fail(BadRequest)
    else if status.Some? && !Manual(status.value) then Fail(Conflict)
    else if contact.Some? && !contact.value.Assignable() then Fail(BadRequest)
    else
      Ok(s.(procedures := s.procedures + [Procedure(if status.Some? then status.value else A_PREPARER, dates,
                                                    Assigned(text, contact), None, None)]))
  }

  function Updated(s: State, id: nat, status: Option<ProcedureStatus>, dates: Dates, text: Option<string>, change: ContactChange)
    : Outcome<State>
  {
    if id >= |s.procedures| then Fail(NotFound)
    else
      var p := s.procedures[id];
      var merged := Merged(dates, p.dates);
      if !Coherent(merged) then Fail(BadRequest)
      else if status.Some? && (!Manual(p.status) || !Manual(status.value)) then Fail(Conflict)
      else if change.Connect? && !change.contact.Assignable() then Fail(BadRequest)
      else
        Ok(s.(procedures := s.procedures[id := p.(status := if status.Some? then status.value else p.status, dates := merged,
                                                  assignment := Reassigned(p.assignment, text, change))]))
  }

  function Archived(s: State, id: nat): Outcome<State> {
    if id >= |s.procedures| then Fail(NotFound)
    else if s.procedures[id].status == ARCHIVE || Pending(s.procedures[id]) then Fail(Conflict)
    else Ok(s.(procedures := s.procedures[id := s.procedures[id].(status := ARCHIVE)]))
  }

  /** The shared tail of the three submissions: the request first, then the procedure. */
  function Parked(s: State, id: nat, user: User, comment: Option<string>, action: Action): Outcome<State>
    requires id < |s.procedures|
  {
    var p := s.procedures[id];
    if Pending(p) then Fail(Conflict)
    else
      var reqs := V.Created(s.requests, Filed(id), user, p.validationStatus, comment);
      if reqs.Fail? then Fail(reqs.error)
      else
        Ok(State(s.procedures[id := p.(validationStatus := Some(V.PendingValidation), pendingAction := Some(action))], reqs.value))
  }

  function SubmissionFor(status: ProcedureStatus): Option<Action> {
    match status
    case SOUMIS | EN_ATTENTE_REPONSE => Some(FINALIZATION)
    case A_PREPARER | EN_COURS | REFUSE => Some(SUBMISSION)
    case _ => None
  }

  function Submitted(s: State, id: nat, user: User, comment: Option<string>): Outcome<State> {
    if id >= |s.procedures| then Fail(NotFound)
    else
      var action := SubmissionFor(s.procedures[id].status);
      if action.None? then Fail(Conflict) else Parked(s, id, user, comment, action.value)
  }

  /** requestRenewal and requestArchive. */
  function Requested(s: State, id: nat, user: User, comment: Option<string>, action: Action): Outcome<State> {
    if id >= |s.procedures| then Fail(NotFound)
    else if s.procedures[id].status == ARCHIVE then Fail(Conflict)
    else Parked(s, id, user, comment, action)
  }

  function RenewedUntil(d: Dates, now: int): int {
    if d.renewal.Some? then d.renewal.value
    else (if d.expiration.Some? then d.expiration.value else now) + 365 * DAY_MS
  }

  function Applied(p: Procedure, now: int): Procedure {
    var cleared := p.(validationStatus := Some(V.Approved), pendingAction := None);
    match p.pendingAction
    case Some(SUBMISSION) => cleared.(status := SOUMIS, dates := p.dates.(submission := OrElse(p.dates.submission, Some(now))))
    case Some(FINALIZATION) => cleared.(status := APPROUVE)
    case Some(RENEWAL) =>
      cleared.(status := EN_COURS, dates := p.dates.(expiration := Some(RenewedUntil(p.dates, now)), renewal := None))
    case Some(ARCHIVING) => cleared.(status := ARCHIVE)
    case None => cleared
  }

  function ApprovedBy(s: State, id: nat, user: User, comment: Option<string>, now: int): Outcome<State> {
    if id >= |s.procedures| then Fail(NotFound)
    else
      var reviewed := V.ReviewedAs(s.requests, Filed(id), user, comment, V.Approved);
      if reviewed.Fail? then Fail(reviewed.error)
      else Ok(State(s.procedures[id := Applied(s.procedures[id], now)], reviewed.value.requests))
  }

  /** reject and requestChanges: only the validation status moves; the parked action stays behind. */
  function TurnedDown(s: State, id: nat, user: User, comment: Option<string>, verdict: V.ValidationStatus): Outcome<State> {
    if id >= |s.procedures| then Fail(NotFound)
    else
      var reviewed := V.ReviewedAs(s.requests, Filed(id), user, comment, verdict);
      if reviewed.Fail? then Fail(reviewed.error)
      else Ok(State(s.procedures[id := s.procedures[id].(validationStatus := Some(verdict))], reviewed.value.requests))
  }

  // ─── Runs ─────────────────────────────────────────────────────────────────

  datatype Op =
    | Create(initial: Option<ProcedureStatus>, given: Dates, text: Option<string>, contact: Option<Named>)
    | Update(id: nat, wanted: Option<ProcedureStatus>, given: Dates, text: Option<string>, change: ContactChange)
    | Archive(id: nat)
    | Submit(id: nat, user: User, comment: Option<string>)
    | RequestRenewal(id: nat, user: User, comment: Option<string>)
    | RequestArchive(id: nat, user: User, comment: Option<string>)
    | Approve(id: nat, user: User, comment: Option<string>, now: int)
    | Reject(id: nat, user: User, comment: Option<string>)
    | RequestChanges(id: nat, user: User, comment: Option<string>)
    | Elsewhere(request: V.Op)

  function Attempt(s: State, op: Op): Outcome<State> {
    match op
    case Create(initial, given, text, contact) => Created(s, initial, given, text, contact)
    case Update(id, wanted, given, text, change) => Updated(s, id, wanted, given, text, change)
    case Archive(id) => Archived(s, id)
    case Submit(id, user, comment) => Submitted(s, id, user, comment)
    case RequestRenewal(id, user, comment) => Requested(s, id, user, comment, RENEWAL)
    case RequestArchive(id, user, comment) => Requested(s, id, user, comment, ARCHIVING)
    case Approve(id, user, comment, now) => ApprovedBy(s, id, user, comment, now)
    case Reject(id, user, comment) => TurnedDown(s, id, user, comment, V.Rejected)
    case RequestChanges(id, user, comment) => TurnedDown(s, id, user, comment, V.ChangesRequested)
    case Elsewhere(request) => Ok(s.(requests := V.Step(s.requests, request)))
  }

  function Step(s: State, op: Op): State {
    var attempt := Attempt(s, op);
    if attempt.Ok? then attempt.value else s
  }

  function Run(s: State, ops: seq<Op>): State
    decreases |ops|
  {
    if ops == [] then s else Run(Step(s, ops[0]), ops[1..])
  }
}
