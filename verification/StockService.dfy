/** StockItemsService and StockMovementsService as objects: each method does what Stock says of the whole operation. */
module StockService {
  import opened Common
  import opened Stock
  import L = StockSerial
  import V = Validations

  class StockItemsService {
    const cfg: Config
    const validations: V.ValidationsService
    var items: seq<Item>
    var log: seq<Movement>
    ghost var effects: seq<real>

    ghost function State(): State
      reads this, validations
    {
      Stock.State(items, log, effects, validations.requests)
    }

    /** What an operation on a known item may do: the specified state and the written item, or a refusal. */
    ghost predicate Does(before: State, spec: Outcome<State>, id: nat, r: Outcome<Item>)
      reads this, validations
    {
      match spec
      case Ok(s) => State() == s && id < |s.items| && r == Ok(s.items[id])
      case Fail(e) => State() == before && r == Fail(e)
    }

    ghost predicate Valid()
      reads this, validations
    {
      L.Sound(State())
    }

    /** Every operation keeps the store valid; called before it, on the state it starts from. */
    lemma KeepsValid(op: Op)
      ensures Valid() ==> L.Sound(Step(cfg, State(), op))
    {
      if Valid() {
        L.SoundStep(cfg, State(), op);
      }
    }

    constructor (cfg: Config, validations: V.ValidationsService)
      ensures this.cfg == cfg && this.validations == validations
      ensures State() == Stock.State([], [], [], validations.requests)
      ensures (forall i: nat :: V.PendingCount(validations.requests, Stocked(i)) == 0) ==> Valid()
    {
      this.cfg, this.validations := cfg, validations;
      items, log, effects := [], [], [];
      new;
      if forall i: nat :: V.PendingCount(validations.requests, Stocked(i)) == 0 {
        L.EmptyStore(validations.requests);
      }
    }

    /** Appends an immutable movement row inside the caller's transaction. */
    method Record(m: Movement, ghost effect: real)
      modifies this`log, this`effects
      ensures log == old(log) + [m] && effects == old(effects) + [effect]
    {
      log := log + [m];
      effects := effects + [effect];
    }

    method Create(initial: Option<Positive>, unitCost: Option<nat>, user: User) returns (id: nat)
      modifies this`items, this`log, this`effects
      ensures State() == Opened(old(State()), initial, unitCost, user) && id == |old(items)|
      ensures old(Valid()) ==> Valid()
    {
      hide L.Sound;
      KeepsValid(Open(initial, unitCost, user));
      id := |items|;
      items := items + [Item(0.0, unitCost, None, None, true, None, None)];
      if initial.Some? {
        items := items[id := items[id].(currentQuantity := 0.0 + initial.value)];
        Record(Movement(id, Entree, initial.value, 0.0, items[id].currentQuantity, user, None), initial.value);
        assert items[..|old(items)|] == old(items);
      }
    }

    /** submitPendingOperation: the request first, then the item. */
    method SubmitPending(id: nat, parked: Parked, user: User) returns (r: Outcome<Item>)
      requires id < |items|
      modifies this`items, validations
      ensures Does(old(State()), Held(old(State()), id, old(items[id]), parked, user), id, r)
    {
      var created := validations.Create(Stocked(id), user, items[id].validationStatus, None);
      if created.Fail? {
        return Fail(created.error);
      }
      var item := items[id].(validationStatus := Some(V.PendingValidation), pending := Some(parked));
      items := items[id := item];
      r := Ok(item);
    }

    method CreateEntry(id: nat, quantity: Positive, user: User) returns (r: Outcome<Item>)
      modifies this`items, this`log, this`effects
      ensures if id < |old(items)| then Does(old(State()), Entered(old(State()), id, old(items[id]), quantity, user), id, r)
              else State() == old(State()) && r == Fail(NotFound)
      ensures old(Valid()) ==> Valid()
    {
      hide L.Sound;
      KeepsValid(Enter(id, quantity, user));
      if id >= |items| {
        return Fail(NotFound);
      }
      var item := items[id];
      if !item.isActive {
        return Fail(Conflict);
      }
      var next := item.(currentQuantity := item.currentQuantity + quantity);
      items := items[id := next];
      Record(Movement(id, Entree, quantity, item.currentQuantity, next.currentQuantity, user, None), quantity);
      r := Ok(next);
    }

    method CreateExit(id: nat, quantity: Positive, user: User) returns (r: Outcome<Item>)
      modifies this`items, this`log, this`effects, validations
      ensures if id < |old(items)| then Does(old(State()), Exited(cfg, old(State()), id, old(items[id]), quantity, user), id, r)
              else State() == old(State()) && r == Fail(NotFound)
      ensures old(Valid()) ==> Valid()
    {
      hide L.Sound;
      KeepsValid(Exit(id, quantity, user));
      if id >= |items| {
        return Fail(NotFound);
      }
      var item := items[id];
      if !item.isActive || AwaitsReview(item) || quantity > item.currentQuantity {
        return Fail(Conflict);
      }
      var sensitive := quantity > cfg.largeQuantity;
      if item.unitCost.Some? && item.unitCost.value as real * quantity > cfg.largeValueXof {
        sensitive := true;
      }
      if sensitive {
        r := SubmitPending(id, Parked(LargeStockExit, Payload(quantity, Sortie, item.unitCost, false)), user);
        return;
      }
      if items[id].currentQuantity < quantity || !items[id].isActive {
        return Fail(Conflict);
      }
      var next := items[id].(currentQuantity := items[id].currentQuantity - quantity);
      items := items[id := next];
      Record(Movement(id, Sortie, quantity, next.currentQuantity + quantity, next.currentQuantity, user, None), 0.0 - quantity);
      r := Ok(next);
    }

    method CreateAdjustment(id: nat, delta: real, loss: Option<LossType>, correction: bool, user: User)
      returns (r: Outcome<Item>)
      modifies this`items, this`log, this`effects, validations
      ensures if id < |old(items)| then
                Does(old(State()), Adjusted(cfg, old(State()), id, old(items[id]), delta, loss, correction, user), id, r)
              else State() == old(State()) && r == Fail(NotFound)
      ensures old(Valid()) ==> Valid()
    {
      hide L.Sound;
      KeepsValid(Adjust(id, delta, loss, correction, user));
      if id >= |items| {
        return Fail(NotFound);
      }
      var item := items[id];
      if !item.isActive || AwaitsReview(item) {
        return Fail(Conflict);
      }
      if delta == 0.0 || (loss.Some? && delta > 0.0) {
        return Fail(BadRequest);
      }
      if item.currentQuantity + delta < 0.0 {
        return Fail(Conflict);
      }
      var kind: MovementType;
      var action: Option<Action> := None;
      if loss.Some? {
        kind := loss.value;
        action := Some(StockLoss);
      } else if correction {
        kind := InventaireCorrection;
        if Material(cfg, item, delta) { action := Some(InventoryCorrection); }
      } else {
        kind := if delta > 0.0 then AjustementPositif else AjustementNegatif;
        if delta < 0.0 && Material(cfg, item, delta) { action := Some(NegativeAdjustment); }
      }
      if action.Some? {
        r := SubmitPending(id, Parked(action.value, Payload(Abs(delta), kind, item.unitCost, correction && delta > 0.0)), user);
        return;
      }
      if delta < 0.0 && (items[id].currentQuantity < -delta || !items[id].isActive) {
        return Fail(Conflict);
      }
      var next := items[id].(currentQuantity := items[id].currentQuantity + delta);
      items := items[id := next];
      Record(Movement(id, kind, Abs(delta), item.currentQuantity, next.currentQuantity, user, None), delta);
      r := Ok(next);
    }

    method CreateTransfer(id: nat, destination: Place, user: User) returns (r: Outcome<Item>)
      modifies this`items, this`log, this`effects
      ensures if id < |old(items)| then
                Does(old(State()), Transferred(old(State()), id, old(items[id]), destination, user), id, r)
              else State() == old(State()) && r == Fail(NotFound)
      ensures old(Valid()) ==> Valid()
    {
      hide L.Sound;
      KeepsValid(Transfer(id, destination, user));
      if id >= |items| {
        return Fail(NotFound);
      }
      var item := items[id];
      if !item.isActive {
        return Fail(Conflict);
      }
      var next := item;
      if destination.location.Some? {
        next := next.(storageLocation := destination.location);
      }
      if destination.space.Some? {
        next := next.(spaceId := destination.space);
      }
      items := items[id := next];
      var q := item.currentQuantity;
      Record(Movement(id, Transfert, q, q, q, user, None), 0.0);
      r := Ok(next);
    }

    method CreateInventoryCount(id: nat, actual: Quantity, user: User) returns (r: Outcome<Item>)
      modifies this`items, this`log, this`effects, validations
      ensures if id < |old(items)| then
                Does(old(State()), Counted(cfg, old(State()), id, old(items[id]), old(items[id]), actual, user), id, r)
              else State() == old(State()) && r == Fail(NotFound)
      ensures old(Valid()) ==> Valid()
    {
      hide L.Sound;
      KeepsValid(Count(id, actual, user));
      if id >= |items| {
        return Fail(NotFound);
      }
      var item := items[id];
      if !item.isActive || AwaitsReview(item) {
        return Fail(Conflict);
      }
      var difference := actual - item.currentQuantity;
      if difference == 0.0 {
        return Ok(item);
      }
      r := CreateAdjustment(id, difference, None, true, user);
    }

    method ArchiveItem(id: nat, user: User) returns (r: Outcome<Item>)
      modifies this`items, validations
      ensures if id < |old(items)| then Does(old(State()), Archived(old(State()), id, old(items[id]), user), id, r)
              else State() == old(State()) && r == Fail(NotFound)
      ensures old(Valid()) ==> Valid()
    {
      hide L.Sound;
      KeepsValid(Archive(id, user));
      if id >= |items| {
        return Fail(NotFound);
      }
      var item := items[id];
      if !item.isActive || AwaitsReview(item) {
        return Fail(Conflict);
      }
      if item.currentQuantity <= 0.0 {
        var next := item.(isActive := false);
        items := items[id := next];
        return Ok(next);
      }
      r := SubmitPending(id, Parked(StockItemArchive, Payload(0.0, AjustementPositif, None, false)), user);
    }

    /** On a valid store the review is never left without its operation. */
    lemma NeverShort(id: nat, reviewer: User, comment: Option<string>)
      ensures Valid() && id < |items| ==> !ApprovedBy(State(), id, items[id], reviewer, comment).ReviewedButShort?
    {
      if Valid() && id < |items| {
        L.ApprovalNeverShort(State(), id, reviewer, comment);
      }
    }

    /** Note the review is not undone when the stock turns out to be short. */
    method ApproveOperation(id: nat, reviewer: User, comment: Option<string>) returns (r: Outcome<Item>)
      modifies this`items, this`log, this`effects, validations
      ensures if id < |old(items)| then
                match ApprovedBy(old(State()), id, old(items[id]), reviewer, comment)
                case Done(s) => State() == s && |s.items| == |old(items)| && r == Ok(s.items[id])
                case NotReviewed(e) => State() == old(State()) && r == Fail(e)
                case ReviewedButShort(s) => State() == s && r == Fail(Conflict)
              else State() == old(State()) && r == Fail(NotFound)
      ensures old(Valid()) ==> Valid()
      ensures old(Valid()) && r.Fail? ==> State() == old(State())
    {
      hide L.Sound, V.ReviewedAs, V.FindPending;
      KeepsValid(Approve(id, reviewer, comment));
      NeverShort(id, reviewer, comment);
      if id >= |items| {
        return Fail(NotFound);
      }
      if items[id].pending.None? {
        return Fail(Conflict);
      }
      var parked := items[id].pending.value;
      var review := validations.ReviewPending(Stocked(id), reviewer, comment, V.Approved);
      if review.Fail? {
        return Fail(review.error);
      }
      var item := items[id].(validationStatus := Some(V.Approved), pending := None);
      if parked.action == StockItemArchive {
        item := item.(isActive := false);
        items := items[id := item];
        return Ok(item);
      }
      var p := parked.payload;
      if !p.positive && item.currentQuantity < p.quantity {
        return Fail(Conflict);
      }
      var delta := Effect(p.quantity, !p.positive);
      item := item.(currentQuantity := item.currentQuantity + delta);
      items := items[id := item];
      Record(Movement(id, p.movementType, p.quantity, item.currentQuantity - delta, item.currentQuantity,
                      review.value.submittedBy, Some(reviewer)), delta);
      r := Ok(item);
    }

    /** reject and requestChanges. */
    method DeclineOperation(id: nat, reviewer: User, comment: Option<string>, verdict: V.ValidationStatus)
      returns (r: Outcome<Item>)
      modifies this`items, validations
      ensures if id < |old(items)| then Does(old(State()), Declined(old(State()), id, reviewer, comment, verdict), id, r)
              else State() == old(State()) && r == Fail(NotFound)
      ensures old(Valid()) && (verdict == V.Rejected || verdict == V.ChangesRequested) ==> Valid()
    {
      hide L.Sound, V.ReviewedAs, V.FindPending;
      KeepsValid(if verdict == V.Rejected then Reject(id, reviewer, comment) else RequestChanges(id, reviewer, comment));
      if id >= |items| {
        return Fail(NotFound);
      }
      var review := validations.ReviewPending(Stocked(id), reviewer, comment, verdict);
      if review.Fail? {
        return Fail(review.error);
      }
      var item := items[id].(validationStatus := Some(verdict));
      items := items[id := item];
      r := Ok(item);
    }
  }
}
