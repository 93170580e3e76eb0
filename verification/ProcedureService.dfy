/** AdministrativeProceduresService as an object: each method does what Procedures says of the whole operation. */
module ProcedureService {
  import opened Common
  import opened Procedures
  import L = ProcedureLaws
  import V = Validations

  class AdministrativeProceduresService {
    const validations: V.ValidationsService
    var procedures: seq<Procedure>

    ghost function State(): State
      reads this, validations
    {
      Procedures.State(procedures, validations.requests)
    }

    ghost predicate Does(before: State, op: Op, id: nat, r: Outcome<Procedure>)
      reads this, validations
    {
      match Attempt(before, op)
      case Ok(s) => State() == s && id < |s.procedures| && r == Ok(s.procedures[id])
      case Fail(e) => State() == before && r == Fail(e)
    }

    ghost predicate Valid()
      reads this, validations
    {
      L.Valid(State())
    }

    /** Every operation keeps the procedures valid; called before it, on the state it starts from. */
    lemma KeepsValid(op: Op)
      requires !op.Elsewhere?
      ensures Valid() ==> L.Valid(Step(State(), op))
    {
      if Valid() {
        L.StepKeeps(State(), op);
      }
    }

    constructor (validations: V.ValidationsService)
      ensures this.validations == validations
      ensures State() == Procedures.State([], validations.requests)
      ensures V.Valid(validations.requests) && (forall i: nat :: V.PendingCount(validations.requests, Filed(i)) == 0) ==> Valid()
    {
      this.validations := validations;
      procedures := [];
      new;
      if V.Valid(validations.requests) && forall i: nat :: V.PendingCount(validations.requests, Filed(i)) == 0 {
        L.NoProcedures(validations.requests);
      }
    }

    method CreateProcedure(status: Option<ProcedureStatus>, dates: Dates, assignedTo: Option<string>, contact: Option<Named>)
      returns (r: Outcome<Procedure>)
      modifies this`procedures
      ensures Does(old(State()), Create(status, dates, assignedTo, contact), |old(procedures)|, r)
      ensures old(Valid()) ==> Valid()
    {
      hide L.Valid;
      KeepsValid(Create(status, dates, assignedTo, contact));
      if !Coherent(dates) {
        return Fail(BadRequest);
      }
      if status.Some? && !Manual(status.value) {
        return Fail(Conflict);
      }
      var assignment := Assignment(assignedTo, None);
      if contact.Some? {
        if !contact.value.Assignable() {
          return Fail(BadRequest);
        }
        assignment := Assignment(Some(contact.value.fullName), Some(contact.value.id));
      }
      var created := Procedure(A_PREPARER, dates, assignment, None, None);
      if status.Some? {
        created := created.(status := status.value);
      }
      procedures := procedures + [created];
      r := Ok(created);
    }

    method UpdateProcedure(id: nat, status: Option<ProcedureStatus>, dto: Dates, assignedTo: Option<string>, change: ContactChange)
      returns (r: Outcome<Procedure>)
      modifies this`procedures
      ensures Does(old(State()), Update(id, status, dto, assignedTo, change), id, r)
      ensures old(Valid()) ==> Valid()
    {
      hide L.Valid;
      KeepsValid(Update(id, status, dto, assignedTo, change));
      if id >= |procedures| {
        return Fail(NotFound);
      }
      var existing := procedures[id];
      var dates := Merged(dto, existing.dates);
      if !Coherent(dates) {
        return Fail(BadRequest);
      }
      if status.Some? {
        if !Manual(existing.status) || !Manual(status.value) {
          return Fail(Conflict);
        }
        existing := existing.(status := status.value);
      }
      match change {
        case Keep =>
          if assignedTo.Some? {
            existing := existing.(assignment := existing.assignment.(assignedTo := assignedTo));
          }
        case Disconnect =>
          existing := existing.(assignment := Assignment(None, None));
        case Connect(contact) =>
          if !contact.Assignable() {
            return Fail(BadRequest);
          }
          existing := existing.(assignment := Assignment(Some(contact.fullName), Some(contact.id)));
      }
      existing := existing.(dates := dates);
      procedures := procedures[id := existing];
      r := Ok(existing);
    }

    method ArchiveProcedure(id: nat) returns (r: Outcome<Procedure>)
      modifies this`procedures
      ensures Does(old(State()), Archive(id), id, r)
      ensures old(Valid()) ==> Valid()
    {
      hide L.Valid;
      KeepsValid(Archive(id));
      if id >= |procedures| {
        return Fail(NotFound);
      }
      if procedures[id].status == ARCHIVE || Pending(procedures[id]) {
        return Fail(Conflict);
      }
      procedures := procedures[id := procedures[id].(status := ARCHIVE)];
      r := Ok(procedures[id]);
    }

    method Park(id: nat, user: User, comment: Option<string>, action: Action) returns (r: Outcome<Procedure>)
      requires id < |procedures|
      modifies this`procedures, validations
      ensures match Parked(old(State()), id, user, comment, action)
              case Ok(s) => State() == s && r == Ok(procedures[id]) && |procedures| == |old(procedures)|
              case Fail(e) => State() == old(State()) && r == Fail(e)
    {
      var procedure := procedures[id];
      if Pending(procedure) {
        return Fail(Conflict);
      }
      var created := validations.Create(Filed(id), user, procedure.validationStatus, comment);
      if created.Fail? {
        return Fail(created.error);
      }
      procedure := procedure.(validationStatus := Some(V.PendingValidation), pendingAction := Some(action));
      procedures := procedures[id := procedure];
      r := Ok(procedure);
    }

    method SubmitValidation(id: nat, user: User, comment: Option<string>) returns (r: Outcome<Procedure>)
      modifies this`procedures, validations
      ensures Does(old(State()), Submit(id, user, comment), id, r)
      ensures old(Valid()) ==> Valid()
    {
      hide L.Valid;
      KeepsValid(Submit(id, user, comment));
      if id >= |procedures| {
        return Fail(NotFound);
      }
      var status := procedures[id].status;
      var action: Option<Action> := None;
      if status == SOUMIS || status == EN_ATTENTE_REPONSE {
        action := Some(FINALIZATION);
      } else if status == A_PREPARER || status == EN_COURS || status == REFUSE {
        action := Some(SUBMISSION);
      }
      if action.None? {
        return Fail(Conflict);
      }
      r := Park(id, user, comment, action.value);
    }

    method AskRenewal(id: nat, user: User, comment: Option<string>) returns (r: Outcome<Procedure>)
      modifies this`procedures, validations
      ensures Does(old(State()), RequestRenewal(id, user, comment), id, r)
      ensures old(Valid()) ==> Valid()
    {
      hide L.Valid;
      KeepsValid(RequestRenewal(id, user, comment));
      if id >= |procedures| {
        return Fail(NotFound);
      }
      if procedures[id].status == ARCHIVE {
        return Fail(Conflict);
      }
      r := Park(id, user, comment, RENEWAL);
    }

    method AskArchive(id: nat, user: User, comment: Option<string>) returns (r: Outcome<Procedure>)
      modifies this`procedures, validations
      ensures Does(old(State()), RequestArchive(id, user, comment), id, r)
      ensures old(Valid()) ==> Valid()
    {
      hide L.Valid;
      KeepsValid(RequestArchive(id, user, comment));
      if id >= |procedures| {
        return Fail(NotFound);
      }
      if procedures[id].status == ARCHIVE {
        return Fail(Conflict);
      }
      r := Park(id, user, comment, ARCHIVING);
    }

    method ApproveProcedure(id: nat, user: User, comment: Option<string>, now: int) returns (r: Outcome<Procedure>)
      modifies this`procedures, validations
      ensures Does(old(State()), Approve(id, user, comment, now), id, r)
      ensures old(Valid()) ==> Valid()
    {
      hide L.Valid;
      KeepsValid(Approve(id, user, comment, now));
      if id >= |procedures| {
        return Fail(NotFound);
      }
      var procedure := procedures[id];
      var validation := validations.ReviewPending(Filed(id), user, comment, V.Approved);
      if validation.Fail? {
        return Fail(validation.error);
      }
      var data := procedure.(validationStatus := Some(V.Approved), pendingAction := None);
      match procedure.pendingAction {
        case Some(SUBMISSION) =>
          data := data.(status := SOUMIS);
          if data.dates.submission.None? {
            data := data.(dates := data.dates.(submission := Some(now)));
          }
        case Some(FINALIZATION) =>
          data := data.(status := APPROUVE);
        case Some(RENEWAL) =>
          var newExpiration := RenewedUntil(procedure.dates, now);
          data := data.(status := EN_COURS, dates := data.dates.(expiration := Some(newExpiration), renewal := None));
        case Some(ARCHIVING) =>
          data := data.(status := ARCHIVE);
        case None =>
      }
      procedures := procedures[id := data];
      r := Ok(data);
    }

    /** reject and requestChanges. */
    method TurnDown(id: nat, user: User, comment: Option<string>, verdict: V.ValidationStatus) returns (r: Outcome<Procedure>)
      modifies this`procedures, validations
      ensures match TurnedDown(old(State()), id, user, comment, verdict)
              case Ok(s) => State() == s && id < |s.procedures| && r == Ok(s.procedures[id])
              case Fail(e) => State() == old(State()) && r == Fail(e)
      ensures old(Valid()) && (verdict == V.Rejected || verdict == V.ChangesRequested) ==> Valid()
    {
      hide L.Valid;
      KeepsValid(if verdict == V.Rejected then Reject(id, user, comment) else RequestChanges(id, user, comment));
      if id >= |procedures| {
        return Fail(NotFound);
      }
      var validation := validations.ReviewPending(Filed(id), user, comment, verdict);
      if validation.Fail? {
        return Fail(validation.error);
      }
      procedures := procedures[id := procedures[id].(validationStatus := Some(verdict))];
      r := Ok(procedures[id]);
    }

    method RejectProcedure(id: nat, user: User, comment: Option<string>) returns (r: Outcome<Procedure>)
      modifies this`procedures, validations
      ensures Does(old(State()), Reject(id, user, comment), id, r)
      ensures old(Valid()) ==> Valid()
    {
      r := TurnDown(id, user, comment, V.Rejected);
    }

    method RequestProcedureChanges(id: nat, user: User, comment: Option<string>) returns (r: Outcome<Procedure>)
      modifies this`procedures, validations
      ensures Does(old(State()), RequestChanges(id, user, comment), id, r)
      ensures old(Valid()) ==> Valid()
    {
      r := TurnDown(id, user, comment, V.ChangesRequested);
    }
  }
}
