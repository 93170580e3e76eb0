/** EntryLogsService as an object: each method does what EntryLogs says of the whole operation. */
module EntryLogService {
  import opened Common
  import opened EntryLogs
  import L = EntryLogLaws
  import V = Validations

  class EntryLogsService {
    const closed: int -> bool
    const validations: V.ValidationsService
    var entries: seq<Entry>

    ghost function State(): State
      reads this, validations
    {
      EntryLogs.State(entries, validations.requests)
    }

    ghost predicate Does(before: State, spec: Outcome<State>, id: nat, r: Outcome<Entry>)
      reads this, validations
    {
      match spec
      case Ok(s) => State() == s && id < |s.entries| && r == Ok(s.entries[id])
      case Fail(e) => State() == before && r == Fail(e)
    }

    ghost predicate Valid()
      reads this, validations
    {
      L.Valid(State())
    }

    /** Every operation keeps the register valid; called before it, on the state it starts from. */
    lemma KeepsValid(op: Op)
      requires !op.Elsewhere?
      ensures Valid() ==> L.Valid(Step(State(), op, closed))
    {
      if Valid() {
        L.StepKeeps(State(), op, closed);
      }
    }

    constructor (closed: int -> bool, validations: V.ValidationsService)
      ensures this.closed == closed && this.validations == validations
      ensures State() == EntryLogs.State([], validations.requests)
      ensures V.Valid(validations.requests) && (forall i: nat :: V.PendingCount(validations.requests, Logged(i)) == 0) ==> Valid()
    {
      this.closed, this.validations := closed, validations;
      entries := [];
      new;
      if V.Valid(validations.requests) && forall i: nat :: V.PendingCount(validations.requests, Logged(i)) == 0 {
        L.EmptyRegister(validations.requests);
      }
    }

    method CreateEntry(t: EntryType, arrival: Option<int>, expected: Option<int>, now: int) returns (r: Outcome<Entry>)
      modifies this`entries
      ensures Does(old(State()), Attempt(old(State()), Create(t, arrival, expected, now), closed), |old(entries)|, r)
      ensures old(Valid()) ==> Valid()
    {
      hide L.Valid;
      KeepsValid(Create(t, arrival, expected, now));
      if BadDates(arrival, expected, None) {
        return Fail(BadRequest);
      }
      var isImmediate := Immediate(t);
      var arrivalDateTime := arrival;
      if arrival.None? && isImmediate {
        arrivalDateTime := Some(now);
      }
      var created := Entry(t, if isImmediate then PRESENT else PREVUE, arrivalDateTime, expected, None, None, None, Payload(None, None));
      entries := entries + [created];
      r := Ok(created);
    }

    method SubmitPendingOperation(id: nat, user: User, action: Action, payload: Payload) returns (r: Outcome<Entry>)
      requires id < |entries|
      modifies this`entries, validations
      ensures Does(old(State()), Parked(old(State()), id, user, action, payload), id, r)
    {
      var entry := entries[id];
      if Pending(entry) {
        return Fail(Conflict);
      }
      var created := validations.Create(Logged(id), user, entry.validationStatus, None);
      if created.Fail? {
        return Fail(created.error);
      }
      entry := entry.(validationStatus := Some(V.PendingValidation), pendingAction := Some(action), payload := payload);
      entries := entries[id := entry];
      r := Ok(entry);
    }

    method UpdateEntry(id: nat, user: User, dto: Patch) returns (r: Outcome<Entry>)
      modifies this`entries, validations
      ensures Does(old(State()), Attempt(old(State()), Update(id, user, dto), closed), id, r)
      ensures old(Valid()) ==> Valid()
    {
      hide L.Valid;
      KeepsValid(Update(id, user, dto));
      if id >= |entries| {
        return Fail(NotFound);
      }
      var existing := entries[id];
      if existing.status == ARCHIVEE {
        return Fail(Conflict);
      }
      if BadDates(OrElse(dto.arrival, existing.arrival), OrElse(dto.expectedDeparture, existing.expectedDeparture),
                  OrElse(dto.departure, existing.departure)) {
        return Fail(BadRequest);
      }
      if dto.departure.Some? && existing.departure.Some? {
        r := SubmitPendingOperation(id, user, MANUAL_CHECKOUT_OVERRIDE, Payload(None, dto.departure));
        return;
      }
      if dto.entryType.Some? {
        existing := existing.(entryType := dto.entryType.value);
      }
      if dto.arrival.Some? {
        existing := existing.(arrival := dto.arrival);
      }
      if dto.expectedDeparture.Some? {
        existing := existing.(expectedDeparture := dto.expectedDeparture);
      }
      entries := entries[id := existing];
      r := Ok(existing);
    }

    method CheckInEntry(id: nat, user: User, arrival: Option<int>, now: int) returns (r: Outcome<Entry>)
      modifies this`entries, validations
      ensures Does(old(State()), Attempt(old(State()), CheckIn(id, user, arrival, now), closed), id, r)
      ensures old(Valid()) ==> Valid()
    {
      hide L.Valid;
      KeepsValid(CheckIn(id, user, arrival, now));
      if id >= |entries| {
        return Fail(NotFound);
      }
      var entry := entries[id];
      if entry.status == ARCHIVEE || entry.status == PRESENT || entry.status == SORTI || entry.status == ANNULEE || Pending(entry) {
        return Fail(Conflict);
      }
      var arrivalDateTime := if arrival.Some? then arrival.value else now;
      if entry.status == REFUSEE {
        r := SubmitPendingOperation(id, user, ACCESS_OVERRIDE, Payload(Some(arrivalDateTime), None));
        return;
      }
      if closed(arrivalDateTime) {
        r := SubmitPendingOperation(id, user, AFTER_HOURS_ACCESS, Payload(Some(arrivalDateTime), None));
        return;
      }
      entry := entry.(status := PRESENT, arrival := Some(arrivalDateTime));
      entries := entries[id := entry];
      r := Ok(entry);
    }

    method CheckOutEntry(id: nat, user: User, departure: Option<int>, now: int) returns (r: Outcome<Entry>)
      modifies this`entries, validations
      ensures Does(old(State()), Attempt(old(State()), CheckOut(id, user, departure, now), closed), id, r)
      ensures old(Valid()) ==> Valid()
    {
      hide L.Valid;
      KeepsValid(CheckOut(id, user, departure, now));
      if id >= |entries| {
        return Fail(NotFound);
      }
      var entry := entries[id];
      if entry.status != PRESENT || Pending(entry) {
        return Fail(Conflict);
      }
      var actualDeparture := if departure.Some? then departure.value else now;
      if entry.arrival.Some? && actualDeparture < entry.arrival.value {
        return Fail(BadRequest);
      }
      if entry.entryType == SORTIE_EXCEPTIONNELLE {
        r := SubmitPendingOperation(id, user, EXCEPTIONAL_EXIT, Payload(None, Some(actualDeparture)));
        return;
      }
      entry := entry.(status := SORTI, departure := Some(actualDeparture));
      entries := entries[id := entry];
      r := Ok(entry);
    }

    method CancelEntry(id: nat) returns (r: Outcome<Entry>)
      modifies this`entries
      ensures Does(old(State()), Attempt(old(State()), Cancel(id), closed), id, r)
      ensures old(Valid()) ==> Valid()
    {
      hide L.Valid;
      KeepsValid(Cancel(id));
      if id >= |entries| {
        return Fail(NotFound);
      }
      if entries[id].status != PREVUE || Pending(entries[id]) {
        return Fail(Conflict);
      }
      entries := entries[id := entries[id].(status := ANNULEE)];
      r := Ok(entries[id]);
    }

    method RefuseEntry(id: nat) returns (r: Outcome<Entry>)
      modifies this`entries
      ensures Does(old(State()), Attempt(old(State()), Refuse(id), closed), id, r)
      ensures old(Valid()) ==> Valid()
    {
      hide L.Valid;
      KeepsValid(Refuse(id));
      if id >= |entries| {
        return Fail(NotFound);
      }
      var entry := entries[id];
      if entry.status == ARCHIVEE || entry.status == PRESENT || entry.status == SORTI || Pending(entry) {
        return Fail(Conflict);
      }
      entries := entries[id := entry.(status := REFUSEE)];
      r := Ok(entries[id]);
    }

    method ArchiveEntry(id: nat, user: User) returns (r: Outcome<Entry>)
      modifies this`entries, validations
      ensures Does(old(State()), Attempt(old(State()), Archive(id, user), closed), id, r)
      ensures old(Valid()) ==> Valid()
    {
      hide L.Valid;
      KeepsValid(Archive(id, user));
      if id >= |entries| {
        return Fail(NotFound);
      }
      var entry := entries[id];
      if entry.status == ARCHIVEE || Pending(entry) {
        return Fail(Conflict);
      }
      if entry.status == SORTI || entry.status == ANNULEE || entry.status == REFUSEE {
        entries := entries[id := entry.(status := ARCHIVEE)];
        return Ok(entries[id]);
      }
      r := SubmitPendingOperation(id, user, RECORD_ARCHIVE, Payload(None, None));
    }

    method ApproveEntry(id: nat, user: User, comment: Option<string>, now: int) returns (r: Outcome<Entry>)
      modifies this`entries, validations
      ensures Does(old(State()), Attempt(old(State()), Approve(id, user, comment, now), closed), id, r)
      ensures old(Valid()) ==> Valid()
    {
      hide L.Valid;
      KeepsValid(Approve(id, user, comment, now));
      if id >= |entries| {
        return Fail(NotFound);
      }
      var entry := entries[id];
      if entry.pendingAction.None? {
        return Fail(Conflict);
      }
      var validation := validations.ReviewPending(Logged(id), user, comment, V.Approved);
      if validation.Fail? {
        return Fail(validation.error);
      }
      var payload := entry.payload;
      var data := entry.(validationStatus := Some(V.Approved), pendingAction := None, payload := Payload(None, None));
      match entry.pendingAction.value {
        case ACCESS_OVERRIDE | AFTER_HOURS_ACCESS =>
          data := data.(status := PRESENT, arrival := Some(if payload.arrival.Some? then payload.arrival.value else now));
        case EXCEPTIONAL_EXIT =>
          data := data.(status := SORTI, departure := Some(if payload.departure.Some? then payload.departure.value else now));
        case MANUAL_CHECKOUT_OVERRIDE =>
          data := data.(departure := Some(if payload.departure.Some? then payload.departure.value else now));
        case RECORD_ARCHIVE =>
          data := data.(status := ARCHIVEE);
      }
      entries := entries[id := data];
      r := Ok(data);
    }

    /** reject and requestChanges. */
    method TurnDown(id: nat, user: User, comment: Option<string>, verdict: V.ValidationStatus) returns (r: Outcome<Entry>)
      modifies this`entries, validations
      ensures Does(old(State()), TurnedDown(old(State()), id, user, comment, verdict), id, r)
      ensures old(Valid()) && (verdict == V.Rejected || verdict == V.ChangesRequested) ==> Valid()
    {
      hide L.Valid;
      KeepsValid(if verdict == V.Rejected then Reject(id, user, comment) else RequestChanges(id, user, comment));
      if id >= |entries| {
        return Fail(NotFound);
      }
      var validation := validations.ReviewPending(Logged(id), user, comment, verdict);
      if validation.Fail? {
        return Fail(validation.error);
      }
      entries := entries[id := entries[id].(validationStatus := Some(verdict))];
      r := Ok(entries[id]);
    }

    method RejectEntry(id: nat, user: User, comment: Option<string>) returns (r: Outcome<Entry>)
      modifies this`entries, validations
      ensures Does(old(State()), Attempt(old(State()), Reject(id, user, comment), closed), id, r)
      ensures old(Valid()) ==> Valid()
    {
      r := TurnDown(id, user, comment, V.Rejected);
    }

    method RequestEntryChanges(id: nat, user: User, comment: Option<string>) returns (r: Outcome<Entry>)
      modifies this`entries, validations
      ensures Does(old(State()), Attempt(old(State()), RequestChanges(id, user, comment), closed), id, r)
      ensures old(Valid()) ==> Valid()
    {
      r := TurnDown(id, user, comment, V.ChangesRequested);
    }
  }
}
