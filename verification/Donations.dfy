/**
 donations.service.ts create: the check for an earlier donation with the same key, the paired write, and the recovery
 when another request wrote that key first, as the steps of calls that interleave with each other and with finance.
 */
module Donations {
  import opened Common
  import F = Finance
  import L = FinanceLaws
  import S = FinanceService

  datatype Donor = Donor(active: bool, contactActive: bool)

  /** The campaign of a request: not named, or named and missing, open or closed. */
  datatype Campaign = NoCampaign | Missing | Open | Closed

  /** A request, with the donor profile and the campaign as read before the write. */
  datatype Call = Call(amountXof: nat, date: int, donorName: string, key: Option<string>, donor: Option<Donor>, campaign: Campaign) {
    function Refusal(): Option<Error> {
      if donor.None? then Some(NotFound)
      else if !donor.value.active || !donor.value.contactActive then Some(BadRequest)
      else if campaign.Missing? then Some(NotFound)
      else if campaign.Closed? then Some(BadRequest)
      else None
    }
  }

  datatype Phase = Checking | Writing | Recovering | Returned(donation: nat) | Failed(error: Error)

  datatype InFlight = InFlight(call: Call, phase: Phase)

  datatype World = World(db: F.State, calls: map<nat, InFlight>)

  datatype Move = Arrive(p: nat, call: Call) | Advance(p: nat) | Other(op: F.Op)

  /** An absent or empty key is no key at all to the checks. */
  predicate Keyed(key: Option<string>) {
    key.Some? && key.value != ""
  }

  function FindByKey(donations: seq<F.Donation>, key: Option<string>): (found: Option<nat>)
    ensures found.Some? ==> found.value < |donations| && donations[found.value].idempotencyKey == key
    ensures found.None? ==> forall i :: 0 <= i < |donations| ==> donations[i].idempotencyKey != key
  {
    if donations == [] then None
    else if donations[|donations| - 1].idempotencyKey == key then Some(|donations| - 1)
    else FindByKey(donations[..|donations| - 1], key)
  }

  // ─── One step of a call ───────────────────────────────────────────────────

  function Write(db: F.State, c: Call): Outcome<F.State> {
    F.Donated(db, c.amountXof, c.date, c.donorName, c.key)
  }

  function PhaseAfter(db: F.State, f: InFlight): Phase {
    var found := if Keyed(f.call.key) then FindByKey(db.donations, f.call.key) else None;
    match f.phase
    case Checking =>
      if found.Some? then Returned(found.value)
      else if f.call.Refusal().Some? then Failed(f.call.Refusal().value)
      else Writing
    case Writing =>
      if Write(db, f.call).Ok? then Returned(|db.donations|)
      else if Keyed(f.call.key) then Recovering
      else Failed(Conflict)
    case Recovering => if found.Some? then Returned(found.value) else Failed(Conflict)
    case _ => f.phase
  }

  function Next(w: World, m: Move): World {
    match m
    case Arrive(p, call) => if p in w.calls then w else w.(calls := w.calls[p := InFlight(call, Checking)])
    case Advance(p) =>
      if p !in w.calls then w
      else
        var f := w.calls[p];
        World(if f.phase.Writing? then F.After(w.db, Write(w.db, f.call)) else w.db,
              w.calls[p := f.(phase := PhaseAfter(w.db, f))])
    case Other(op) => w.(db := F.Step(w.db, op))
  }

  function Trace(w: World, moves: seq<Move>): World
    decreases |moves|
  {
    if moves == [] then w else Trace(Next(w, moves[0]), moves[1..])
  }

  // ─── One donation per key ─────────────────────────────────────────────────

  /** A call that ended well holds a donation with its own key; one that lost the race can still find the winner's. */
  ghost predicate Honest(db: F.State, f: InFlight) {
    && (f.phase.Returned? ==> f.phase.donation < |db.donations| && db.donations[f.phase.donation].idempotencyKey == f.call.key)
    && (f.phase.Recovering? ==> Keyed(f.call.key) && F.KeyTaken(db.donations, f.call.key))
    && (f.phase.Failed? && Keyed(f.call.key) ==> Some(f.phase.error) == f.call.Refusal())
  }

  ghost predicate Sound(w: World) {
    L.Paired(w.db) && forall p :: p in w.calls ==> Honest(w.db, w.calls[p])
  }

  lemma KeysStay(before: seq<F.Donation>, after: seq<F.Donation>, key: Option<string>)
    requires before <= after && F.KeyTaken(before, key)
    ensures F.KeyTaken(after, key)
  {
    var i :| 0 <= i < |before| && before[i].idempotencyKey == key;
    assert after[i].idempotencyKey == key;
  }

  lemma HonestStays(db: F.State, db': F.State, f: InFlight)
    requires Honest(db, f) && db.donations <= db'.donations
    ensures Honest(db', f)
  {
    hide F.KeyTaken;
    if f.phase.Recovering? {
      KeysStay(db.donations, db'.donations, f.call.key);
    }
  }

  /** The paired write is the finance operation of the same name, so every finance law about it applies. */
  lemma WriteIsDonate(db: F.State, c: Call)
    ensures F.After(db, Write(db, c)) == F.Step(db, F.Donate(c.amountXof, c.date, c.donorName, c.key))
  {
  }

  lemma AdvanceHonest(db: F.State, f: InFlight)
    requires Honest(db, f)
    ensures var db' := if f.phase.Writing? then F.After(db, Write(db, f.call)) else db;
            Honest(db', f.(phase := PhaseAfter(db, f)))
  {
    hide F.Added;
    if f.phase.Recovering? {
      var i :| 0 <= i < |db.donations| && db.donations[i].idempotencyKey == f.call.key;
    }
  }

  lemma SoundNext(w: World, m: Move)
    requires Sound(w)
    ensures Sound(Next(w, m)) && w.db.donations <= Next(w, m).db.donations
  {
    hide Honest, L.Paired, PhaseAfter, Write, F.Step;
    var w' := Next(w, m);
    if m.Other? {
      L.PairedKept(w.db, m.op);
    } else if m.Advance? && m.p in w.calls {
      var f := w.calls[m.p];
      AdvanceHonest(w.db, f);
      if f.phase.Writing? {
        WriteIsDonate(w.db, f.call);
        L.PairedKept(w.db, F.Donate(f.call.amountXof, f.call.date, f.call.donorName, f.call.key));
      }
    } else if m.Arrive? {
      ArrivalHonest(w.db, m.call);
    }
    forall p | p in w'.calls ensures Honest(w'.db, w'.calls[p]) {
      if p in w.calls && w'.calls[p] == w.calls[p] {
        HonestStays(w.db, w'.db, w.calls[p]);
      }
    }
  }

  lemma ArrivalHonest(db: F.State, call: Call)
    ensures Honest(db, InFlight(call, Checking))
  {
  }

  lemma {:induction false} SoundTrace(w: World, moves: seq<Move>)
    requires Sound(w)
    ensures Sound(Trace(w, moves)) && w.db.donations <= Trace(w, moves).db.donations
    decreases |moves|
  {
    hide Sound, Next;
    if moves != [] {
      SoundNext(w, moves[0]);
      SoundTrace(Next(w, moves[0]), moves[1..]);
    }
  }

  ghost predicate HasKey(d: F.Donation, key: Option<string>) {
    d.idempotencyKey == key
  }

  /**
   In every interleaving, once a call with a non-empty key has returned, its donation is the only one with that key, is
   backed by its own matching transaction, and is the one every other successful call with the key returns; and such a
   call never fails but for the donor and campaign checks.
   */
  lemma OneDonationPerKey(db: F.State, moves: seq<Move>, p: nat)
    requires L.Paired(db)
    ensures var w := Trace(World(db, map[]), moves);
            p in w.calls && Keyed(w.calls[p].call.key) ==>
              var f := w.calls[p];
              && (f.phase.Returned? ==>
                    var i := f.phase.donation;
                    && i < |w.db.donations| && L.Backs(w.db.rows, w.db.donations[i])
                    && (forall j :: 0 <= j < |w.db.donations| ==>
                          && (HasKey(w.db.donations[j], f.call.key) <==> j == i)
                          && (w.db.donations[j].transactionId == w.db.donations[i].transactionId ==> j == i))
                    && (forall q :: q in w.calls && w.calls[q].call.key == f.call.key && w.calls[q].phase.Returned? ==>
                          w.calls[q].phase.donation == i))
              && (f.phase.Failed? ==> Some(f.phase.error) == f.call.Refusal())
  {
    hide Trace, L.Backs, F.KeyTaken;
    SoundTrace(World(db, map[]), moves);
    var w := Trace(World(db, map[]), moves);
    if p in w.calls && Keyed(w.calls[p].call.key) {
      assert Honest(w.db, w.calls[p]);
      forall q | q in w.calls && w.calls[q].call.key == w.calls[p].call.key && w.calls[q].phase.Returned? && w.calls[p].phase.Returned?
        ensures w.calls[q].phase.donation == w.calls[p].phase.donation
      {
        assert Honest(w.db, w.calls[q]);
      }
    }
  }

  /** What the calls alone add to a ledger: one row for each new donation, in the same order, and nothing else. */
  ghost predicate RowForRow(before: F.State, after: F.State) {
    && before.rows <= after.rows && before.donations <= after.donations
    && |after.rows| - |before.rows| == |after.donations| - |before.donations|
    && forall i :: |before.donations| <= i < |after.donations| ==>
         after.donations[i].transactionId == |before.rows| + i - |before.donations|
  }

  lemma StepRowForRow(w: World, m: Move)
    requires !m.Other?
    ensures RowForRow(w.db, Next(w, m).db)
  {
    hide PhaseAfter;
  }

  lemma RowForRowTransitive(a: F.State, b: F.State, c: F.State)
    requires RowForRow(a, b) && RowForRow(b, c)
    ensures RowForRow(a, c)
  {
    forall i | |a.donations| <= i < |c.donations| ensures c.donations[i].transactionId == |a.rows| + i - |a.donations| {
      if i < |b.donations| {
        assert c.donations[i] == b.donations[i];
      }
    }
  }

  /** Calls that are refused or lose the race leave nothing: every row the calls append backs a donation they made. */
  lemma {:induction false} NoStrayTransaction(w: World, moves: seq<Move>)
    requires forall i :: 0 <= i < |moves| ==> !moves[i].Other?
    ensures RowForRow(w.db, Trace(w, moves).db)
    decreases |moves|
  {
    hide Next, RowForRow;
    if moves == [] {
      assert RowForRow(w.db, w.db) by { NothingAdded(w.db); }
    } else {
      StepRowForRow(w, moves[0]);
      NoStrayTransaction(Next(w, moves[0]), moves[1..]);
      RowForRowTransitive(w.db, Next(w, moves[0]).db, Trace(w, moves).db);
    }
  }

  lemma NothingAdded(db: F.State)
    ensures RowForRow(db, db)
  {
  }

  // ─── Retrying ─────────────────────────────────────────────────────────────

  datatype Alone = Alone(db: F.State, result: Phase)

  /** A call with nothing in between: at most the check, the write and the recovery. */
  function RunAlone(db: F.State, c: Call): Alone {
    var checked := PhaseAfter(db, InFlight(c, Checking));
    if !checked.Writing? then Alone(db, checked)
    else
      var db', written := F.After(db, Write(db, c)), PhaseAfter(db, InFlight(c, Writing));
      if !written.Recovering? then Alone(db', written)
      else Alone(db', PhaseAfter(db', InFlight(c, Recovering)))
  }

  /**
   Sending a recorded donation again returns it, and changes nothing, exactly when it carries a non-empty key: without
   a key a second donation is recorded, and with an empty one the second insert fails.
   */
  lemma RetryReturnsIff(db: F.State, c: Call)
    requires L.Paired(db) && c.Refusal().None? && RunAlone(db, c).result.Returned?
    ensures var first := RunAlone(db, c);
            var again := RunAlone(first.db, c);
            && (again == first <==> Keyed(c.key))
            && (c.key.None? ==> again.result == Returned(|first.db.donations|) && |again.db.donations| == |first.db.donations| + 1)
            && (c.key == Some("") ==> again == Alone(first.db, Failed(Conflict)))
  {
    hide F.Added, L.Backs;
    var first := RunAlone(db, c);
    var i := first.result.donation;
    assert i < |first.db.donations| && first.db.donations[i].idempotencyKey == c.key;
    if Keyed(c.key) {
      PairedAlone(db, c);
      var found := FindByKey(first.db.donations, c.key);
      assert found.Some? && found.value == i;
    }
  }

  function GiftOfFive(key: Option<string>): Call {
    Call(5, 0, "Awa", key, Some(Donor(true, true)), NoCampaign)
  }

  /** Two donations of 5 sent alike to an empty ledger: with an empty key the second is an error, with none a second gift. */
  lemma RetryFails()
    ensures var empty := F.State([], map[], [], []);
            var keyed, plain := GiftOfFive(Some("")), GiftOfFive(None);
            && RunAlone(empty, keyed).result == Returned(0)
            && RunAlone(RunAlone(empty, keyed).db, keyed).result == Failed(Conflict)
            && RunAlone(empty, plain).result == Returned(0)
            && RunAlone(RunAlone(empty, plain).db, plain).result == Returned(1)
  {
    var empty := F.State([], map[], [], []);
    var keyed := GiftOfFive(Some(""));
    var recorded := RunAlone(empty, keyed).db.donations;
    assert recorded[0].idempotencyKey == keyed.key;
    assert F.KeyTaken(recorded, keyed.key);
  }

  lemma PairedAlone(db: F.State, c: Call)
    requires L.Paired(db)
    ensures L.Paired(RunAlone(db, c).db)
  {
    hide L.Paired, F.Step;
    WriteIsDonate(db, c);
    L.PairedKept(db, F.Donate(c.amountXof, c.date, c.donorName, c.key));
  }

  /** create, cut where other requests can come in between; each part is one step of the interleaved calls above. */
  class DonationsService {
    const finances: S.FinancesService

    constructor (finances: S.FinancesService)
      ensures this.finances == finances
    {
      this.finances := finances;
    }

    method Check(c: Call) returns (phase: Phase)
      ensures phase == PhaseAfter(finances.State(), InFlight(c, Checking))
    {
      if Keyed(c.key) {
        var existing := FindByKey(finances.donations, c.key);
        if existing.Some? {
          return Returned(existing.value);
        }
      }
      if c.donor.None? {
        return Failed(NotFound);
      }
      if !c.donor.value.active {
        return Failed(BadRequest);
      }
      if !c.donor.value.contactActive {
        return Failed(BadRequest);
      }
      match c.campaign
      case Missing => phase := Failed(NotFound);
      case Closed => phase := Failed(BadRequest);
      case _ => phase := Writing;
    }

    method WritePair(c: Call) returns (phase: Phase)
      modifies finances`rows, finances`donations
      ensures finances.State() == F.After(old(finances.State()), Write(old(finances.State()), c))
      ensures phase == PhaseAfter(old(finances.State()), InFlight(c, Writing))
      ensures old(finances.Valid()) ==> finances.Valid()
    {
      hide F.Added;
      var r := finances.RecordDonation(c.amountXof, c.date, c.donorName, c.key);
      match r
      case Ok(i) => phase := Returned(i);
      case Fail(error) =>
        if Keyed(c.key) {
          phase := Recovering;
        } else {
          phase := Failed(error);
        }
    }

    method Recover(c: Call) returns (phase: Phase)
      ensures phase == PhaseAfter(finances.State(), InFlight(c, Recovering))
    {
      phase := Failed(Conflict);
      if Keyed(c.key) {
        var existing := FindByKey(finances.donations, c.key);
        if existing.Some? {
          phase := Returned(existing.value);
        }
      }
    }
  }
}
