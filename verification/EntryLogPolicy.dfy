/** What each register operation accepts and leaves behind, and when a departure can end up before its arrival. */
module EntryLogPolicy {
  import opened Common
  import opened EntryLogs
  import opened EntryLogLaws
  import V = Validations

  // ─── What each operation does ─────────────────────────────────────────────

  /** The entry becomes e, at once; nothing else changes. */
  ghost predicate Becomes(s: State, s': State, id: nat, e: Entry) {
    id < |s.entries| && s'.requests == s.requests && s'.entries == s.entries[id := e]
  }

  /** The entry shows what is asked of it, a request is filed, and nothing happens yet. */
  ghost predicate PutOff(s: State, s': State, id: nat, user: User, action: Action, payload: Payload) {
    && id < |s.entries|
    && var e := s.entries[id];
       && s'.entries == s.entries[id := e.(validationStatus := Some(V.PendingValidation), pendingAction := Some(action),
                                           payload := payload)]
       && V.FiledBy(s.requests, s'.requests, V.Resource(V.EntryLog, id), user, e.validationStatus, None)
  }

  lemma ParkedPutsOff(s: State, id: nat, user: User, action: Action, payload: Payload)
    requires id < |s.entries| && InSync(s, id)
    ensures var r := Parked(s, id, user, action, payload);
            if s.entries[id].validationStatus == Some(V.PendingValidation) then r == Fail(Conflict)
            else r.Ok? && PutOff(s, r.value, id, user, action, payload)
  {
    hide V.Created;
    V.CreateEffect(s.requests, Logged(id), user, s.entries[id].validationStatus, None);
    V.CreateWrites(s.requests, Logged(id), user, s.entries[id].validationStatus, None);
  }

  /** Free: not archived and not waiting for a review. */
  predicate Free(e: Entry) {
    e.status != ARCHIVEE && e.validationStatus != Some(V.PendingValidation)
  }

  lemma CreationDecides(s: State, t: EntryType, arrival: Option<int>, expected: Option<int>, now: int)
    ensures var r, atOnce := Created(s, t, arrival, expected, now), t in {ENTREE, VISITE_IMPREVUE, LIVRAISON, PRESTATION, RETOUR};
            if arrival.Some? && expected.Some? && expected.value < arrival.value then r == Fail(BadRequest)
            else
              r.Ok? && r.value.requests == s.requests && |r.value.entries| == |s.entries| + 1
              && r.value.entries[..|s.entries|] == s.entries
              && var e := r.value.entries[|s.entries|];
                 && e.entryType == t && (e.status == if atOnce then PRESENT else PREVUE) && e.expectedDeparture == expected
                 && (if arrival.Some? then e.arrival == arrival else if atOnce then e.arrival == Some(now) else e.arrival.None?)
                 && e.departure.None? && e.validationStatus.None? && e.pendingAction.None?
  {
  }

  /** Arrivals: refused after the fact, put off for a refused visitor or a closed hour, and taken otherwise. */
  lemma CheckInDecides(s: State, id: nat, user: User, arrival: Option<int>, now: int, closed: int -> bool)
    requires Valid(s)
    ensures var r, at := CheckedIn(s, id, user, arrival, now, closed), if arrival.Some? then arrival.value else now;
            if id >= |s.entries| then r == Fail(NotFound)
            else if !Free(s.entries[id]) || s.entries[id].status in {PRESENT, SORTI, ANNULEE} then r == Fail(Conflict)
            else if s.entries[id].status == REFUSEE then
              r.Ok? && PutOff(s, r.value, id, user, ACCESS_OVERRIDE, Payload(Some(at), None))
            else if closed(at) then r.Ok? && PutOff(s, r.value, id, user, AFTER_HOURS_ACCESS, Payload(Some(at), None))
            else r.Ok? && Becomes(s, r.value, id, s.entries[id].(status := PRESENT, arrival := Some(at)))
  {
    hide Parked, PutOff, Valid;
    if id < |s.entries| {
      var at := if arrival.Some? then arrival.value else now;
      SyncedAt(s, id);
      ParkedPutsOff(s, id, user, ACCESS_OVERRIDE, Payload(Some(at), None));
      ParkedPutsOff(s, id, user, AFTER_HOURS_ACCESS, Payload(Some(at), None));
    }
  }

  lemma SyncedAt(s: State, id: nat)
    requires Valid(s)
    ensures InSync(s, id)
  {
  }

  /** Departures: only of someone present, not before the arrival, and put off when exceptional. */
  lemma CheckOutDecides(s: State, id: nat, user: User, departure: Option<int>, now: int)
    requires Valid(s)
    ensures var r, at := CheckedOut(s, id, user, departure, now), if departure.Some? then departure.value else now;
            if id >= |s.entries| then r == Fail(NotFound)
            else if !Free(s.entries[id]) || s.entries[id].status != PRESENT then r == Fail(Conflict)
            else if s.entries[id].arrival.Some? && at < s.entries[id].arrival.value then r == Fail(BadRequest)
            else if s.entries[id].entryType == SORTIE_EXCEPTIONNELLE then
              r.Ok? && PutOff(s, r.value, id, user, EXCEPTIONAL_EXIT, Payload(None, Some(at)))
            else r.Ok? && Becomes(s, r.value, id, s.entries[id].(status := SORTI, departure := Some(at)))
  {
    hide Parked, PutOff, Valid;
    if id < |s.entries| {
      SyncedAt(s, id);
      ParkedPutsOff(s, id, user, EXCEPTIONAL_EXIT, Payload(None, Some(if departure.Some? then departure.value else now)));
    }
  }

  predicate Takes<T(==)>(wanted: Option<T>, before: T, after: T) {
    after == if wanted.Some? then wanted.value else before
  }

  predicate TakesTime(wanted: Option<int>, before: Option<int>, after: Option<int>) {
    after == if wanted.Some? then wanted else before
  }

  /** The dates an update leads to: both departures no earlier than the arrival. */
  predicate DatesHold(e: Entry, p: Patch) {
    var arrival := if p.arrival.Some? then p.arrival else e.arrival;
    var expected := if p.expectedDeparture.Some? then p.expectedDeparture else e.expectedDeparture;
    var departure := if p.departure.Some? then p.departure else e.departure;
    arrival.Some? ==>
      && (expected.Some? ==> arrival.value <= expected.value)
      && (departure.Some? ==> arrival.value <= departure.value)
  }

  /** A correction of a recorded departure is put off; anything else is set at once, and a first departure never is. */
  lemma UpdateDecides(s: State, id: nat, user: User, p: Patch)
    requires Valid(s)
    ensures var r := Updated(s, id, user, p);
            if id >= |s.entries| then r == Fail(NotFound)
            else
              var e := s.entries[id];
              if e.status == ARCHIVEE then r == Fail(Conflict)
              else if !DatesHold(e, p) then r == Fail(BadRequest)
              else if p.departure.Some? && e.departure.Some? then
                if Free(e) then r.Ok? && PutOff(s, r.value, id, user, MANUAL_CHECKOUT_OVERRIDE, Payload(None, p.departure))
                else r == Fail(Conflict)
              else
                && r.Ok? && id < |r.value.entries|
                && var e' := r.value.entries[id];
                   && Becomes(s, r.value, id, e')
                   && e' == e.(entryType := e'.entryType, arrival := e'.arrival, expectedDeparture := e'.expectedDeparture)
                   && Takes(p.entryType, e.entryType, e'.entryType) && TakesTime(p.arrival, e.arrival, e'.arrival)
                   && TakesTime(p.expectedDeparture, e.expectedDeparture, e'.expectedDeparture)
  {
    hide Parked, PutOff, Valid;
    if id < |s.entries| {
      SyncedAt(s, id);
      ParkedPutsOff(s, id, user, MANUAL_CHECKOUT_OVERRIDE, Payload(None, p.departure));
    }
  }

  /** Only an expected visit is cancelled; nobody admitted is refused; what is over is archived at once and the rest put off. */
  lemma EndingDecides(s: State, id: nat, user: User)
    requires Valid(s) && id < |s.entries|
    ensures var r, e := CancelledVisit(s, id), s.entries[id];
            if Free(e) && e.status == PREVUE then r.Ok? && Becomes(s, r.value, id, e.(status := ANNULEE)) else r == Fail(Conflict)
    ensures var r, e := Refused(s, id), s.entries[id];
            if Free(e) && e.status in {PREVUE, ANNULEE, REFUSEE} then r.Ok? && Becomes(s, r.value, id, e.(status := REFUSEE))
            else r == Fail(Conflict)
    ensures var r, e := Archived(s, id, user), s.entries[id];
            if !Free(e) then r == Fail(Conflict)
            else if e.status in {SORTI, ANNULEE, REFUSEE} then r.Ok? && Becomes(s, r.value, id, e.(status := ARCHIVEE))
            else r.Ok? && PutOff(s, r.value, id, user, RECORD_ARCHIVE, Payload(None, None))
  {
    hide Parked, PutOff, Valid, InSync;
    SyncedAt(s, id);
    assert Sane(s.entries[id]) by { SaneAt(s, id); }
    ParkedPutsOff(s, id, user, RECORD_ARCHIVE, Payload(None, None));
  }

  lemma SaneAt(s: State, id: nat)
    requires Valid(s) && id < |s.entries|
    ensures Sane(s.entries[id])
  {
  }

  lemma UnknownEntry(s: State, id: nat, user: User, comment: Option<string>, now: int, verdict: V.ValidationStatus)
    requires id >= |s.entries|
    ensures CancelledVisit(s, id) == Fail(NotFound) && Refused(s, id) == Fail(NotFound) && Archived(s, id, user) == Fail(NotFound)
    ensures ApprovedBy(s, id, user, comment, now) == Fail(NotFound) && TurnedDown(s, id, user, comment, verdict) == Fail(NotFound)
  {
  }

  // ─── Reviews ──────────────────────────────────────────────────────────────

  /** What an approval makes of an entry: what was asked, at the time asked for, and nothing left waiting. */
  predicate Granted(e: Entry, e': Entry, now: int) {
    && e.pendingAction.Some?
    && e'.validationStatus == Some(V.Approved) && e'.pendingAction.None? && e'.payload == Payload(None, None)
    && e'.entryType == e.entryType && e'.expectedDeparture == e.expectedDeparture
    && var action := e.pendingAction.value;
       && (action in {ACCESS_OVERRIDE, AFTER_HOURS_ACCESS} ==>
             e'.status == PRESENT && e'.arrival.Some? && Takes(e.payload.arrival, now, e'.arrival.value)
             && e'.departure == e.departure)
       && (action in {EXCEPTIONAL_EXIT, MANUAL_CHECKOUT_OVERRIDE} ==>
             e'.departure.Some? && Takes(e.payload.departure, now, e'.departure.value) && e'.arrival == e.arrival)
       && (action == EXCEPTIONAL_EXIT ==> e'.status == SORTI)
       && (action == MANUAL_CHECKOUT_OVERRIDE ==> e'.status == e.status)
       && (action == RECORD_ARCHIVE ==> e'.status == ARCHIVEE && e'.arrival == e.arrival && e'.departure == e.departure)
  }

  /** Someone other than the author reviewed the entry's request, and the entry is now e. */
  ghost predicate Reviewed(s: State, s': State, id: nat, user: User, comment: Option<string>, verdict: V.ValidationStatus,
                           e: Entry) {
    && id < |s.entries| && s'.entries == s.entries[id := e]
    && exists i: nat :: V.ReviewedBy(s.requests, s'.requests, i, V.Resource(V.EntryLog, id), user, comment, verdict)
  }

  lemma ApprovalDecides(s: State, id: nat, user: User, comment: Option<string>, now: int)
    requires id < |s.entries|
    ensures match ApprovedBy(s, id, user, comment, now)
            case Ok(s') =>
              id < |s'.entries| && Reviewed(s, s', id, user, comment, V.Approved, s'.entries[id])
              && Granted(s.entries[id], s'.entries[id], now)
            case Fail(error) =>
              if s.entries[id].pendingAction.None? then error == Conflict else V.RefusedFor(s.requests, Logged(id), user, error)
  {
    hide V.ReviewedAs, V.ReviewedBy, V.RefusedFor;
    V.ReviewWrites(s.requests, Logged(id), user, comment, V.Approved);
  }

  lemma TurnDownDecides(s: State, id: nat, user: User, comment: Option<string>, verdict: V.ValidationStatus)
    requires id < |s.entries|
    ensures match TurnedDown(s, id, user, comment, verdict)
            case Ok(s') => Reviewed(s, s', id, user, comment, verdict, s.entries[id].(validationStatus := Some(verdict)))
            case Fail(error) => V.RefusedFor(s.requests, Logged(id), user, error)
  {
    hide V.ReviewedAs, V.ReviewedBy, V.RefusedFor;
    V.ReviewWrites(s.requests, Logged(id), user, comment, verdict);
  }

  // ─── Departures and arrivals ──────────────────────────────────────────────

  /** No recorded departure is earlier than the arrival. */
  predicate InTime(e: Entry) {
    e.departure.Some? && e.arrival.Some? ==> e.arrival.value <= e.departure.value
  }

  /** An approval of a departure, asked for earlier, that precedes the arrival as it has become. */
  predicate Backdates(s: State, op: Op, id: nat) {
    && ApprovedByAnother(s, op, id) && id < |s.entries|
    && var e := s.entries[id];
       && e.pendingAction in {Some(EXCEPTIONAL_EXIT), Some(MANUAL_CHECKOUT_OVERRIDE)} && e.arrival.Some?
       && (if e.payload.departure.Some? then e.payload.departure.value else op.now) < e.arrival.value
  }

  lemma InTimeApproval(s: State, op: Op, closed: int -> bool, id: nat)
    requires Valid(s) && op.Approve? && id < |s.entries| && InTime(s.entries[id])
    ensures var s' := Step(s, op, closed);
            id < |s'.entries| && (InTime(s'.entries[id]) <==> !Backdates(s, op, id))
  {
    hide V.Valid, V.PendingCount, V.FindPending;
    SaneAt(s, id);
    SyncedAt(s, id);
    V.FoundIffCounted(s.requests, Logged(id));
  }

  /** One operation puts a departure before its arrival exactly when it is such an approval. */
  lemma InTimeStepIff(s: State, op: Op, closed: int -> bool, id: nat)
    requires Valid(s) && Legal(op) && id < |s.entries| && InTime(s.entries[id])
    ensures var s' := Step(s, op, closed);
            id < |s'.entries| && (InTime(s'.entries[id]) <==> !Backdates(s, op, id))
  {
    hide Valid, V.Created, V.ReviewedAs, V.Step, Applied;
    if op.Approve? {
      InTimeApproval(s, op, closed, id);
    } else {
      SaneAt(s, id);
    }
  }

  lemma NewEntryInTime(s: State, op: Op, closed: int -> bool)
    ensures |s.entries| <= |Step(s, op, closed).entries| <= |s.entries| + 1
    ensures |Step(s, op, closed).entries| > |s.entries| ==> InTime(Step(s, op, closed).entries[|s.entries|])
  {
    hide V.Created, V.ReviewedAs, V.Step;
  }

  predicate AllInTime(s: State) {
    forall id :: 0 <= id < |s.entries| ==> InTime(s.entries[id])
  }

  predicate BackdatesOne(s: State, op: Op) {
    exists id: nat :: id < |s.entries| && Backdates(s, op, id)
  }

  /** After k operations no departure precedes its arrival. */
  predicate InTimeAt(s: State, ops: seq<Op>, closed: int -> bool, k: nat)
    requires k <= |ops|
  {
    AllInTime(Run(s, ops[..k], closed))
  }

  predicate BackdatesAt(s: State, ops: seq<Op>, closed: int -> bool, k: nat)
    requires k < |ops|
  {
    BackdatesOne(Run(s, ops[..k], closed), ops[k])
  }

  lemma InTimeNext(s: State, ops: seq<Op>, closed: int -> bool, k: nat)
    requires Valid(s) && (forall i :: 0 <= i < |ops| ==> Legal(ops[i])) && k < |ops| && InTimeAt(s, ops, closed, k)
    ensures InTimeAt(s, ops, closed, k + 1) <==> !BackdatesAt(s, ops, closed, k)
  {
    hide Valid, Step, AllInTime, BackdatesOne, Legal;
    RunOneMore(s, ops, closed, k);
    RegisterInEveryRun(s, ops[..k], closed);
    InTimeStep(Run(s, ops[..k], closed), ops[k], closed);
  }

  lemma {:induction false} InTimeUpTo(s: State, ops: seq<Op>, closed: int -> bool, k: nat)
    requires Valid(s) && AllInTime(s) && (forall i :: 0 <= i < |ops| ==> Legal(ops[i])) && k <= |ops|
    requires forall i :: 0 <= i < k ==> !BackdatesAt(s, ops, closed, i)
    ensures InTimeAt(s, ops, closed, k)
  {
    hide Valid, Step, AllInTime, BackdatesOne, Legal, BackdatesAt;
    if k > 0 {
      InTimeUpTo(s, ops, closed, k - 1);
      InTimeNext(s, ops, closed, k - 1);
    }
  }

  /** No departure before its arrival at any point of a run, exactly when no approval backdates one where it is made. */
  lemma InTimeThroughoutIff(s: State, ops: seq<Op>, closed: int -> bool)
    requires Valid(s) && AllInTime(s) && forall i :: 0 <= i < |ops| ==> Legal(ops[i])
    ensures (forall k :: 0 <= k <= |ops| ==> InTimeAt(s, ops, closed, k))
            <==> (forall k :: 0 <= k < |ops| ==> !BackdatesAt(s, ops, closed, k))
  {
    hide Valid, InTimeAt, BackdatesAt, Legal;
    if forall k :: 0 <= k <= |ops| ==> InTimeAt(s, ops, closed, k) {
      forall k | 0 <= k < |ops| ensures !BackdatesAt(s, ops, closed, k) {
        assert InTimeAt(s, ops, closed, k) && InTimeAt(s, ops, closed, k + 1);
        InTimeNext(s, ops, closed, k);
      }
    }
    if forall k :: 0 <= k < |ops| ==> !BackdatesAt(s, ops, closed, k) {
      forall k | 0 <= k <= |ops| ensures InTimeAt(s, ops, closed, k) {
        InTimeUpTo(s, ops, closed, k);
      }
    }
  }

  lemma InTimeStep(s: State, op: Op, closed: int -> bool)
    requires Valid(s) && Legal(op) && AllInTime(s)
    ensures AllInTime(Step(s, op, closed)) <==> !BackdatesOne(s, op)
  {
    hide Valid, Legal, Step, InTime, Backdates;
    NewEntryInTime(s, op, closed);
    forall id | 0 <= id < |s.entries| ensures InTime(Step(s, op, closed).entries[id]) <==> !Backdates(s, op, id) {
      InTimeStepIff(s, op, closed, id);
    }
  }

  // ─── An exit before the arrival ───────────────────────────────────────────

  /** An exceptional exit at 5 is asked for; meanwhile the arrival is corrected to 10, which nothing forbids. */
  const AskedAt5: Entry := Entry(SORTIE_EXCEPTIONNELLE, PRESENT, Some(0), None, None, Some(V.PendingValidation),
                                 Some(EXCEPTIONAL_EXIT), Payload(None, Some(5)))

  const Asking: V.Request := V.Request(Logged(0), V.PendingValidation, None, 7, None, None)

  lemma RunFirst(s: State, op: Op, rest: seq<Op>, closed: int -> bool)
    ensures Run(s, [op] + rest, closed) == Run(Step(s, op, closed), rest, closed)
  {
    assert ([op] + rest)[1..] == rest;
  }

  lemma VisitBegins(closed: int -> bool)
    requires !closed(0)
    ensures var s := Step(State([], []), Create(SORTIE_EXCEPTIONNELLE, None, None, 0), closed);
            Step(s, CheckIn(0, 7, Some(0), 0), closed)
            == State([Entry(SORTIE_EXCEPTIONNELLE, PRESENT, Some(0), None, None, None, None, Payload(None, None))], [])
  {
  }

  lemma ExitIsAskedFor(closed: int -> bool)
    ensures var e := Entry(SORTIE_EXCEPTIONNELLE, PRESENT, Some(0), None, None, None, None, Payload(None, None));
            Step(State([e], []), CheckOut(0, 7, Some(5), 5), closed) == State([AskedAt5], [Asking])
  {
  }

  lemma ArrivalIsCorrected(closed: int -> bool)
    ensures Step(State([AskedAt5], [Asking]), Update(0, 7, Patch(None, Some(10), None, None)), closed)
         == State([AskedAt5.(arrival := Some(10))], [Asking])
  {
  }

  lemma ExitIsGranted(closed: int -> bool)
    ensures var s := Step(State([AskedAt5.(arrival := Some(10))], [Asking]), Approve(0, 8, None, 6), closed);
            && |s.entries| == 1 && s.entries[0].status == SORTI
            && s.entries[0].arrival == Some(10) && s.entries[0].departure == Some(5)
  {
    assert V.FindPending([Asking], Logged(0)) == Some(0);
  }

  lemma ExitBeforeArrival(closed: int -> bool)
    requires !closed(0)
    ensures var ops := [Create(SORTIE_EXCEPTIONNELLE, None, None, 0)] + ([CheckIn(0, 7, Some(0), 0)]
                       + ([CheckOut(0, 7, Some(5), 5)] + ([Update(0, 7, Patch(None, Some(10), None, None))]
                       + ([Approve(0, 8, None, 6)] + []))));
            var s := Run(State([], []), ops, closed);
            && |s.entries| == 1 && s.entries[0].status == SORTI
            && s.entries[0].arrival == Some(10) && s.entries[0].departure == Some(5)
  {
    hide Step;
    VisitBegins(closed);
    ExitIsAskedFor(closed);
    ArrivalIsCorrected(closed);
    ExitIsGranted(closed);
    var s1 := Step(State([], []), Create(SORTIE_EXCEPTIONNELLE, None, None, 0), closed);
    var s2 := Step(s1, CheckIn(0, 7, Some(0), 0), closed);
    var s3, s4 := State([AskedAt5], [Asking]), State([AskedAt5.(arrival := Some(10))], [Asking]);
    var last := [Approve(0, 8, None, 6)] + [];
    var update := [Update(0, 7, Patch(None, Some(10), None, None))] + last;
    var out := [CheckOut(0, 7, Some(5), 5)] + update;
    RunFirst(State([], []), Create(SORTIE_EXCEPTIONNELLE, None, None, 0), [CheckIn(0, 7, Some(0), 0)] + out, closed);
    RunFirst(s1, CheckIn(0, 7, Some(0), 0), out, closed);
    RunFirst(s2, CheckOut(0, 7, Some(5), 5), update, closed);
    RunFirst(s3, Update(0, 7, Patch(None, Some(10), None, None)), last, closed);
    RunFirst(s4, Approve(0, 8, None, 6), [], closed);
  }
}
