/**
 entry-logs.service.ts: what each operation of the visitor register does to the entries and their requests. Instants
 are numbers; now and the closing hours are parameters.
 */
module EntryLogs {
  import opened Common
  import V = Validations

  datatype EntryType =
    | ENTREE | SORTIE | VISITE_PREVUE | VISITE_IMPREVUE | SORTIE_TEMPORAIRE | SORTIE_EXCEPTIONNELLE
    | RETOUR | PRESTATION | LIVRAISON | AUTRE

  datatype EntryStatus = PREVUE | PRESENT | SORTI | ANNULEE | REFUSEE | EN_ATTENTE_VALIDATION | ARCHIVEE

  datatype Action = EXCEPTIONAL_EXIT | ACCESS_OVERRIDE | AFTER_HOURS_ACCESS | MANUAL_CHECKOUT_OVERRIDE | RECORD_ARCHIVE

  datatype Payload = Payload(arrival: Option<int>, departure: Option<int>)

  datatype Entry = Entry(
    entryType: EntryType,
    status: EntryStatus,
    arrival: Option<int>,
    expectedDeparture: Option<int>,
    departure: Option<int>,
    validationStatus: Option<V.ValidationStatus>,
    pendingAction: Option<Action>,
    payload: Payload)

  /** Entries are never deleted: an entry's id is its index. */
  datatype State = State(entries: seq<Entry>, requests: V.Requests)

  function Logged(id: nat): V.Resource {
    V.Resource(V.EntryLog, id)
  }

  predicate Immediate(t: EntryType) {
    t == ENTREE || t == VISITE_IMPREVUE || t == LIVRAISON || t == PRESTATION || t == RETOUR
  }

  predicate Pending(e: Entry) {
    e.validationStatus == Some(V.PendingValidation)
  }

  predicate Precedes(a: Option<int>, b: Option<int>) {
    a.Some? && b.Some? && a.value < b.value
  }

  predicate BadDates(arrival: Option<int>, expected: Option<int>, departure: Option<int>) {
    Precedes(expected, arrival) || Precedes(departure, arrival)
  }

  function Or<T>(wanted: Option<T>, current: T): T {
    if wanted.Some? then wanted.value else current
  }

  function OrElse<T>(wanted: Option<T>, current: Option<T>): Option<T> {
    if wanted.Some? then wanted else current
  }

  // ─── The operations ───────────────────────────────────────────────────────

  datatype Patch = Patch(entryType: Option<EntryType>, arrival: Option<int>, expectedDeparture: Option<int>, departure: Option<int>)

  function Created(s: State, t: EntryType, arrival: Option<int>, expected: Option<int>, now: int): Outcome<State> {
    if BadDates(arrival, expected, None) then Fail(BadRequest)
    else
      var at := if arrival.Some? then arrival else if Immediate(t) then Some(now) else None;
      Ok(s.(entries := s.entries + [Entry(t, if Immediate(t) then PRESENT else PREVUE, at, expected, None, None, None,
                                          Payload(None, None))]))
  }

  function Put(s: State, id: nat, e: Entry): State
    requires id < |s.entries|
  {
    s.(entries := s.entries[id := e])
  }

  /** submitPendingOperation: the request first, then the entry. */
  function Parked(s: State, id: nat, user: User, action: Action, payload: Payload): Outcome<State>
    requires id < |s.entries|
  {
    var e := s.entries[id];
    if Pending(e) then Fail(Conflict)
    else
      var reqs := V.Created(s.requests, Logged(id), user, e.validationStatus, None);
      if reqs.Fail? then Fail(reqs.error)
      else
        Ok(State(s.entries[id := e.(validationStatus := Some(V.PendingValidation), pendingAction := Some(action), payload := payload)],
                 reqs.value))
  }

  function Updated(s: State, id: nat, user: User, p: Patch): Outcome<State> {
    if id >= |s.entries| then Fail(NotFound)
    else
      var e := s.entries[id];
      if e.status == ARCHIVEE then Fail(Conflict)
      else if BadDates(OrElse(p.arrival, e.arrival), OrElse(p.expectedDeparture, e.expectedDeparture), OrElse(p.departure, e.departure))
      then Fail(BadRequest)
      else if p.departure.Some? && e.departure.Some? then
        Parked(s, id, user, MANUAL_CHECKOUT_OVERRIDE, Payload(None, p.departure))
      else
        Ok(Put(s, id, e.(entryType := Or(p.entryType, e.entryType), arrival := OrElse(p.arrival, e.arrival),
                         expectedDeparture := OrElse(p.expectedDeparture, e.expectedDeparture))))
  }

  function CheckedIn(s: State, id: nat, user: User, arrival: Option<int>, now: int, closed: int -> bool): Outcome<State> {
    if id >= |s.entries| then Fail(NotFound)
    else
      var e, at := s.entries[id], Or(arrival, now);
      if e.status == ARCHIVEE || e.status == PRESENT || e.status == SORTI || e.status == ANNULEE || Pending(e) then Fail(Conflict)
      else if e.status == REFUSEE then Parked(s, id, user, ACCESS_OVERRIDE, Payload(Some(at), None))
      else if closed(at) then Parked(s, id, user, AFTER_HOURS_ACCESS, Payload(Some(at), None))
      else Ok(Put(s, id, e.(status := PRESENT, arrival := Some(at))))
  }

  function CheckedOut(s: State, id: nat, user: User, departure: Option<int>, now: int): Outcome<State> {
    if id >= |s.entries| then Fail(NotFound)
    else
      var e, at := s.entries[id], Or(departure, now);
      if e.status != PRESENT || Pending(e) then Fail(Conflict)
      else if Precedes(Some(at), e.arrival) then Fail(BadRequest)
      else if e.entryType == SORTIE_EXCEPTIONNELLE then Parked(s, id, user, EXCEPTIONAL_EXIT, Payload(None, Some(at)))
      else Ok(Put(s, id, e.(status := SORTI, departure := Some(at))))
  }

  function CancelledVisit(s: State, id: nat): Outcome<State> {
    if id >= |s.entries| then Fail(NotFound)
    else
      var e := s.entries[id];
      if e.status != PREVUE || Pending(e) then Fail(Conflict)
      else Ok(Put(s, id, e.(status := ANNULEE)))
  }

  function Refused(s: State, id: nat): Outcome<State> {
    if id >= |s.entries| then Fail(NotFound)
    else
      var e := s.entries[id];
      if e.status == ARCHIVEE || e.status == PRESENT || e.status == SORTI || Pending(e) then Fail(Conflict)
      else Ok(Put(s, id, e.(status := REFUSEE)))
  }

  function Archived(s: State, id: nat, user: User): Outcome<State> {
    if id >= |s.entries| then Fail(NotFound)
    else
      var e := s.entries[id];
      if e.status == ARCHIVEE || Pending(e) then Fail(Conflict)
      else if e.status == SORTI || e.status == ANNULEE || e.status == REFUSEE then Ok(Put(s, id, e.(status := ARCHIVEE)))
      else Parked(s, id, user, RECORD_ARCHIVE, Payload(None, None))
  }

  function Applied(e: Entry, action: Action, now: int): Entry {
    var cleared := e.(validationStatus := Some(V.Approved), pendingAction := None, payload := Payload(None, None));
    match action
    case ACCESS_OVERRIDE => cleared.(status := PRESENT, arrival := Some(Or(e.payload.arrival, now)))
    case AFTER_HOURS_ACCESS => cleared.(status := PRESENT, arrival := Some(Or(e.payload.arrival, now)))
    case EXCEPTIONAL_EXIT => cleared.(status := SORTI, departure := Some(Or(e.payload.departure, now)))
    case MANUAL_CHECKOUT_OVERRIDE => cleared.(departure := Some(Or(e.payload.departure, now)))
    case RECORD_ARCHIVE => cleared.(status := ARCHIVEE)
  }

  function ApprovedBy(s: State, id: nat, user: User, comment: Option<string>, now: int): Outcome<State> {
    if id >= |s.entries| then Fail(NotFound)
    else
      var e := s.entries[id];
      if e.pendingAction.None? then Fail(Conflict)
      else
        var reviewed := V.ReviewedAs(s.requests, Logged(id), user, comment, V.Approved);
        if reviewed.Fail? then Fail(reviewed.error)
        else Ok(State(s.entries[id := Applied(e, e.pendingAction.value, now)], reviewed.value.requests))
  }

  /** reject and requestChanges: only the validation status moves; the parked action stays behind. */
  function TurnedDown(s: State, id: nat, user: User, comment: Option<string>, verdict: V.ValidationStatus): Outcome<State> {
    if id >= |s.entries| then Fail(NotFound)
    else
      var reviewed := V.ReviewedAs(s.requests, Logged(id), user, comment, verdict);
      if reviewed.Fail? then Fail(reviewed.error)
      else Ok(State(s.entries[id := s.entries[id].(validationStatus := Some(verdict))], reviewed.value.requests))
  }

  predicate IsCurrentlyPresent(e: Entry) {
    e.status == PRESENT && e.departure.None?
  }

  // ─── Runs ─────────────────────────────────────────────────────────────────

  datatype Op =
    | Create(entryType: EntryType, arrival: Option<int>, expected: Option<int>, now: int)
    | Update(id: nat, user: User, patch: Patch)
    | CheckIn(id: nat, user: User, arrival: Option<int>, now: int)
    | CheckOut(id: nat, user: User, departure: Option<int>, now: int)
    | Cancel(id: nat)
    | Refuse(id: nat)
    | Archive(id: nat, user: User)
    | Approve(id: nat, user: User, comment: Option<string>, now: int)
    | Reject(id: nat, user: User, comment: Option<string>)
    | RequestChanges(id: nat, user: User, comment: Option<string>)
    | Elsewhere(request: V.Op)

  function Attempt(s: State, op: Op, closed: int -> bool): Outcome<State> {
    match op
    case Create(t, arrival, expected, now) => Created(s, t, arrival, expected, now)
    case Elsewhere(request) => Ok(s.(requests := V.Step(s.requests, request)))
    case Update(id, user, patch) => Updated(s, id, user, patch)
    case CheckIn(id, user, arrival, now) => CheckedIn(s, id, user, arrival, now, closed)
    case CheckOut(id, user, departure, now) => CheckedOut(s, id, user, departure, now)
    case Cancel(id) => CancelledVisit(s, id)
    case Refuse(id) => Refused(s, id)
    case Archive(id, user) => Archived(s, id, user)
    case Approve(id, user, comment, now) => ApprovedBy(s, id, user, comment, now)
    case Reject(id, user, comment) => TurnedDown(s, id, user, comment, V.Rejected)
    case RequestChanges(id, user, comment) => TurnedDown(s, id, user, comment, V.ChangesRequested)
  }

  function Step(s: State, op: Op, closed: int -> bool): State {
    var attempt := Attempt(s, op, closed);
    if attempt.Ok? then attempt.value else s
  }

  function Run(s: State, ops: seq<Op>, closed: int -> bool): State
    decreases |ops|
  {
    if ops == [] then s else Run(Step(s, ops[0], closed), ops[1..], closed)
  }
}
