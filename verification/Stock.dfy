/**
 stock-items.service.ts and stock-movements.service.ts: a quantity per item, an append-only movement log, and
 sensitive operations parked until reviewed. Every operation takes the item as it read it, `seen`, apart from the
 item as it is when written, so that one definition serves serial and stale reads.
 */
module Stock {
  import opened Common
  import V = Validations

  datatype MovementType =
    | Entree | Sortie | AjustementPositif | AjustementNegatif | Transfert | Perte | Casse | Peremption
    | DonRecu | DonDistribue | Retour | InventaireCorrection

  type LossType = m: MovementType | m == Perte || m == Casse || m == Peremption witness Perte

  datatype Action = LargeStockExit | NegativeAdjustment | StockLoss | InventoryCorrection | StockItemArchive

  type Quantity = q: real | q >= 0.0 witness 0.0
  type Positive = q: real | q > 0.0 witness 1.0

  /** quantity is a magnitude; positive tells a found surplus from a removal. */
  datatype Payload = Payload(quantity: Quantity, movementType: MovementType, unitCost: Option<nat>, positive: bool)

  /** The pending action and its payload are always written and cleared together. */
  datatype Parked = Parked(action: Action, payload: Payload)

  /** The destination of a transfer; None leaves that part of the place as it is. */
  datatype Place = Place(location: Option<string>, space: Option<string>)

  datatype Item = Item(
    currentQuantity: real,
    unitCost: Option<nat>,
    storageLocation: Option<string>,
    spaceId: Option<string>,
    isActive: bool,
    validationStatus: Option<V.ValidationStatus>,
    pending: Option<Parked>)

  datatype Movement = Movement(
    item: nat, kind: MovementType, quantity: real, quantityBefore: real, quantityAfter: real,
    performedBy: User, approvedBy: Option<User>)

  /** effects[k] is what movement k really did to its item's quantity; it is not part of the stored row. */
  datatype State = State(items: seq<Item>, log: seq<Movement>, effects: seq<real>, requests: V.Requests)

  /** The three thresholds read from the environment. */
  datatype Config = Config(largeQuantity: real, largeValueXof: real, sensitivePercent: real)

  function Stocked(id: nat): V.Resource {
    V.Resource(V.StockItem, id)
  }

  predicate AwaitsReview(item: Item) {
    item.validationStatus == Some(V.PendingValidation)
  }

  function Abs(x: real): (r: Quantity) {
    if x < 0.0 then -x else x
  }

  function Effect(quantity: Quantity, removal: bool): real {
    if removal then 0.0 - quantity else 0.0 + quantity
  }

  // ─── Deciding on the item as read ─────────────────────────────────────────

  datatype Plan =
    | Refuse(error: Error)
    | Park(parked: Parked)
    | Apply(quantity: Quantity, removal: bool, kind: MovementType)

  function PlanExit(cfg: Config, seen: Item, quantity: Positive): Plan {
    if !seen.isActive || AwaitsReview(seen) || quantity > seen.currentQuantity then Refuse(Conflict)
    else
      var sensitive :=
        || quantity > cfg.largeQuantity
        || (seen.unitCost.Some? && seen.unitCost.value as real * quantity > cfg.largeValueXof);
      if sensitive then Park(Parked(LargeStockExit, Payload(quantity, Sortie, seen.unitCost, false)))
      else Apply(quantity, true, Sortie)
  }

  predicate Material(cfg: Config, seen: Item, delta: real) {
    (if seen.currentQuantity > 0.0 then Abs(delta) / seen.currentQuantity * 100.0 else 100.0) > cfg.sensitivePercent
  }

  function PlanAdjustment(cfg: Config, seen: Item, delta: real, loss: Option<LossType>, correction: bool): Plan {
    if !seen.isActive || AwaitsReview(seen) then Refuse(Conflict)
    else if delta == 0.0 then Refuse(BadRequest)
    else if loss.Some? && delta > 0.0 then Refuse(BadRequest)
    else if seen.currentQuantity + delta < 0.0 then Refuse(Conflict)
    else
      var kind: MovementType :=
        if loss.Some? then loss.value
        else if correction then InventaireCorrection
        else if delta > 0.0 then AjustementPositif else AjustementNegatif;
      var action :=
        if loss.Some? then Some(StockLoss)
        else if correction then (if Material(cfg, seen, delta) then Some(InventoryCorrection) else None)
        else if delta < 0.0 && Material(cfg, seen, delta) then Some(NegativeAdjustment)
        else None;
      if action.Some? then
        Park(Parked(action.value, Payload(Abs(delta), kind, seen.unitCost, correction && delta > 0.0)))
      else
        Apply(Abs(delta), delta < 0.0, kind)
  }

  // ─── Writing on the item as it is ─────────────────────────────────────────

  /** An increment or a guarded decrement, with its movement; `before` is None where it is derived from the new quantity. */
  function Applied(s: State, id: nat, quantity: Quantity, removal: bool, kind: MovementType, activeOnly: bool,
                   before: Option<real>, user: User, approver: Option<User>): Outcome<State>
    requires id < |s.items|
  {
    var now := s.items[id];
    if removal && (now.currentQuantity < quantity || (activeOnly && !now.isActive)) then Fail(Conflict)
    else
      var delta := Effect(quantity, removal);
      var next := now.currentQuantity + delta;
      var written := now.(currentQuantity := next);
      var reviewed := if approver.Some? then written.(validationStatus := Some(V.Approved), pending := None) else written;
      var row := Movement(id, kind, quantity, if before.Some? then before.value else next - delta, next, user, approver);
      Ok(s.(items := s.items[id := reviewed], log := s.log + [row], effects := s.effects + [delta]))
  }

  /** The new request, then the parked operation on the item. */
  function Held(s: State, id: nat, seen: Item, parked: Parked, user: User): Outcome<State>
    requires id < |s.items|
  {
    var created := V.Created(s.requests, Stocked(id), user, seen.validationStatus, None);
    if created.Fail? then Fail(created.error)
    else
      var item := s.items[id].(validationStatus := Some(V.PendingValidation), pending := Some(parked));
      Ok(s.(items := s.items[id := item], requests := created.value))
  }

  function Entered(s: State, id: nat, seen: Item, quantity: Positive, user: User): Outcome<State>
    requires id < |s.items|
  {
    if !seen.isActive then Fail(Conflict)
    else Applied(s, id, quantity, false, Entree, false, Some(seen.currentQuantity), user, None)
  }

  function Exited(cfg: Config, s: State, id: nat, seen: Item, quantity: Positive, user: User): Outcome<State>
    requires id < |s.items|
  {
    match PlanExit(cfg, seen, quantity)
    case Refuse(e) => Fail(e)
    case Park(parked) => Held(s, id, seen, parked, user)
    case Apply(q, removal, kind) => Applied(s, id, q, removal, kind, true, None, user, None)
  }

  function Adjusted(cfg: Config, s: State, id: nat, seen: Item, delta: real, loss: Option<LossType>, correction: bool,
                    user: User): Outcome<State>
    requires id < |s.items|
  {
    match PlanAdjustment(cfg, seen, delta, loss, correction)
    case Refuse(e) => Fail(e)
    case Park(parked) => Held(s, id, seen, parked, user)
    case Apply(q, removal, kind) => Applied(s, id, q, removal, kind, true, Some(seen.currentQuantity), user, None)
  }

  function Transferred(s: State, id: nat, seen: Item, destination: Place, user: User): Outcome<State>
    requires id < |s.items|
  {
    if !seen.isActive then Fail(Conflict)
    else
      var q := seen.currentQuantity;
      var now := s.items[id];
      var item := now.(storageLocation := if destination.location.Some? then destination.location else now.storageLocation,
                       spaceId := if destination.space.Some? then destination.space else now.spaceId);
      Ok(s.(items := s.items[id := item], log := s.log + [Movement(id, Transfert, q, q, q, user, None)],
            effects := s.effects + [0.0]))
  }

  /** The count reads the item, and the adjustment it delegates to reads it again. */
  function Counted(cfg: Config, s: State, id: nat, seen: Item, seenAgain: Item, actual: Quantity, user: User): Outcome<State>
    requires id < |s.items|
  {
    if !seen.isActive || AwaitsReview(seen) then Fail(Conflict)
    else
      var difference := actual - seen.currentQuantity;
      if difference == 0.0 then Ok(s)
      else Adjusted(cfg, s, id, seenAgain, difference, None, true, user)
  }

  function Archived(s: State, id: nat, seen: Item, user: User): Outcome<State>
    requires id < |s.items|
  {
    if !seen.isActive || AwaitsReview(seen) then Fail(Conflict)
    else if seen.currentQuantity <= 0.0 then Ok(s.(items := s.items[id := s.items[id].(isActive := false)]))
    else Held(s, id, seen, Parked(StockItemArchive, Payload(0.0, AjustementPositif, None, false)), user)
  }

  /** What an approved operation does to the item, for the parked operation as read. */
  function Released(s: State, id: nat, parked: Parked, submitter: User, reviewer: User): Outcome<State>
    requires id < |s.items|
  {
    if parked.action == StockItemArchive then
      Ok(s.(items := s.items[id := s.items[id].(isActive := false, validationStatus := Some(V.Approved), pending := None)]))
    else
      var p := parked.payload;
      Applied(s, id, p.quantity, !p.positive, p.movementType, false, None, submitter, Some(reviewer))
  }

  /** The request is reviewed first, on its own; the operation may then no longer fit the stock. */
  datatype Approval = Done(state: State) | NotReviewed(error: Error) | ReviewedButShort(state: State)

  function ApprovedBy(s: State, id: nat, seen: Item, reviewer: User, comment: Option<string>): Approval
    requires id < |s.items|
  {
    if seen.pending.None? then NotReviewed(Conflict)
    else
      var v := V.ReviewedAs(s.requests, Stocked(id), reviewer, comment, V.Approved);
      if v.Fail? then NotReviewed(v.error)
      else
        var reviewed := s.(requests := v.value.requests);
        var submitter := v.value.requests[v.value.index].submittedBy;
        var written := Released(reviewed, id, seen.pending.value, submitter, reviewer);
        if written.Ok? then Done(written.value) else ReviewedButShort(reviewed)
  }

  /** reject and requestChanges. */
  function Declined(s: State, id: nat, reviewer: User, comment: Option<string>, verdict: V.ValidationStatus): Outcome<State>
    requires id < |s.items|
  {
    var v := V.ReviewedAs(s.requests, Stocked(id), reviewer, comment, verdict);
    if v.Fail? then Fail(v.error)
    else Ok(s.(items := s.items[id := s.items[id].(validationStatus := Some(verdict))], requests := v.value.requests))
  }

  function Opened(s: State, initial: Option<Positive>, unitCost: Option<nat>, user: User): State {
    var id := |s.items|;
    var empty := Item(0.0, unitCost, None, None, true, None, None);
    if initial.None? then s.(items := s.items + [empty])
    else
      var q := initial.value;
      s.(items := s.items + [empty.(currentQuantity := q)],
         log := s.log + [Movement(id, Entree, q, 0.0, q, user, None)],
         effects := s.effects + [q as real])
  }

  // ─── Serial runs ──────────────────────────────────────────────────────────

  datatype Op =
    | Open(initial: Option<Positive>, unitCost: Option<nat>, user: User)
    | Reprice(id: nat, unitCost: Option<nat>)
    | Enter(id: nat, quantity: Positive, user: User)
    | Exit(id: nat, quantity: Positive, user: User)
    | Adjust(id: nat, delta: real, loss: Option<LossType>, correction: bool, user: User)
    | Transfer(id: nat, destination: Place, user: User)
    | Count(id: nat, actual: Quantity, user: User)
    | Archive(id: nat, user: User)
    | Approve(id: nat, reviewer: User, comment: Option<string>)
    | Reject(id: nat, reviewer: User, comment: Option<string>)
    | RequestChanges(id: nat, reviewer: User, comment: Option<string>)

  function After(s: State, r: Outcome<State>): State {
    if r.Ok? then r.value else s
  }

  function AfterApproval(s: State, a: Approval): State {
    match a case Done(s') => s' case NotReviewed(_) => s case ReviewedButShort(s') => s'
  }

  /** One operation alone: everything it reads is the item as it is. An unknown id is refused. */
  function Step(cfg: Config, s: State, op: Op): State {
    if op.Open? then Opened(s, op.initial, op.unitCost, op.user)
    else if op.id >= |s.items| then s
    else
      var id, item := op.id, s.items[op.id];
      match op
      case Open(_, _, _) => s
      case Reprice(_, unitCost) => s.(items := s.items[id := item.(unitCost := unitCost)])
      case Enter(_, quantity, user) => After(s, Entered(s, id, item, quantity, user))
      case Exit(_, quantity, user) => After(s, Exited(cfg, s, id, item, quantity, user))
      case Adjust(_, delta, loss, correction, user) => After(s, Adjusted(cfg, s, id, item, delta, loss, correction, user))
      case Transfer(_, destination, user) => After(s, Transferred(s, id, item, destination, user))
      case Count(_, actual, user) => After(s, Counted(cfg, s, id, item, item, actual, user))
      case Archive(_, user) => After(s, Archived(s, id, item, user))
      case Approve(_, reviewer, comment) => AfterApproval(s, ApprovedBy(s, id, item, reviewer, comment))
      case Reject(_, reviewer, comment) => After(s, Declined(s, id, reviewer, comment, V.Rejected))
      case RequestChanges(_, reviewer, comment) => After(s, Declined(s, id, reviewer, comment, V.ChangesRequested))
  }

  function Run(cfg: Config, s: State, ops: seq<Op>): State
    decreases |ops|
  {
    if ops == [] then s else Run(cfg, Step(cfg, s, ops[0]), ops[1..])
  }
}
