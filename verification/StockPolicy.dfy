/** Which stock operations are taken at once, which wait for a review, and what each leaves: told by the thresholds alone. */
module StockPolicy {
  import opened Common
  import opened Stock
  import opened StockSerial
  import V = Validations

  function Size(x: real): real {
    if x < 0.0 then 0.0 - x else x
  }

  // ─── The thresholds ───────────────────────────────────────────────────────

  /** An exit nobody needs to approve. */
  predicate Modest(cfg: Config, price: Option<nat>, quantity: real) {
    quantity <= cfg.largeQuantity && (price.Some? ==> quantity * price.value as real <= cfg.largeValueXof)
  }

  /** A change to an empty item is always of a hundred percent. */
  predicate Sizeable(cfg: Config, current: real, delta: real) {
    if current > 0.0 then Size(delta) * 100.0 > cfg.sensitivePercent * current else 100.0 > cfg.sensitivePercent
  }

  lemma MaterialIff(cfg: Config, item: Item, delta: real)
    ensures Material(cfg, item, delta) <==> Sizeable(cfg, item.currentQuantity, delta)
  {
    var c, p := item.currentQuantity, cfg.sensitivePercent;
    if c > 0.0 {
      ScaleKeepsOrder(Size(delta) / c * 100.0, p, c);
      assert Size(delta) / c * 100.0 * c == Size(delta) * 100.0;
    }
  }

  lemma ScaleKeepsOrder(x: real, y: real, c: real)
    requires c > 0.0
    ensures x * c > y * c <==> x > y
  {
    assert x * c - y * c == (x - y) * c;
  }

  // ─── The three outcomes of an operation ───────────────────────────────────

  /** Nobody is waiting for a review of the item, and it is not archived. */
  predicate Free(item: Item) {
    item.isActive && item.validationStatus != Some(V.PendingValidation)
  }

  /** Done on the spot: the quantity moves by delta and one row without an approver says so. */
  ghost predicate TakenAtOnce(s: State, s': State, id: nat, kind: MovementType, quantity: real, delta: real, user: User) {
    && id < |s.items|
    && var before := s.items[id].currentQuantity;
       && s'.items == s.items[id := s.items[id].(currentQuantity := before + delta)]
       && s'.log == s.log + [Movement(id, kind, quantity, before, before + delta, user, None)]
       && s'.effects == s.effects + [delta] && s'.requests == s.requests
  }

  /** Put off: the item shows what is asked of it, a request is filed, and no stock moves. */
  ghost predicate PutOff(s: State, s': State, id: nat, action: Action, payload: Payload, user: User) {
    && id < |s.items| && s'.log == s.log && s'.effects == s.effects
    && s'.items == s.items[id := s.items[id].(validationStatus := Some(V.PendingValidation), pending := Some(Parked(action, payload)))]
    && V.FiledBy(s.requests, s'.requests, V.Resource(V.StockItem, id), user, s.items[id].validationStatus, None)
  }

  /** Every write, on the item as it is: only a removal can fail, for want of stock or, where asked, on an archived item. */
  lemma WriteFailsIff(s: State, id: nat, quantity: Quantity, removal: bool, kind: MovementType, activeOnly: bool,
                      before: Option<real>, user: User, approver: Option<User>)
    requires id < |s.items|
    ensures var r, now := Applied(s, id, quantity, removal, kind, activeOnly, before, user, approver), s.items[id];
            if removal && (quantity > now.currentQuantity || (activeOnly && !now.isActive)) then r == Fail(Conflict)
            else
              && r.Ok? && |r.value.log| == |s.log| + 1
              && r.value.items[id].currentQuantity == now.currentQuantity + (if removal then 0.0 - quantity else quantity)
              && r.value.log[|s.log|].quantityAfter == r.value.items[id].currentQuantity
              && r.value.log[|s.log|].quantityBefore == if before.Some? then before.value else now.currentQuantity
  {
  }

  lemma HeldPutsOff(s: State, id: nat, parked: Parked, user: User)
    requires Reserved(s) && id < |s.items| && Free(s.items[id])
    ensures var r := Held(s, id, s.items[id], parked, user);
            r.Ok? && PutOff(s, r.value, id, parked.action, parked.payload, user)
  {
    hide V.Created;
    V.CreateEffect(s.requests, Stocked(id), user, s.items[id].validationStatus, None);
    V.CreateWrites(s.requests, Stocked(id), user, s.items[id].validationStatus, None);
  }

  // ─── What is asked of one item ────────────────────────────────────────────

  lemma EntryDecides(s: State, id: nat, quantity: Positive, user: User)
    requires id < |s.items|
    ensures var r := Entered(s, id, s.items[id], quantity, user);
            if s.items[id].isActive then r.Ok? && TakenAtOnce(s, r.value, id, Entree, quantity, quantity, user)
            else r == Fail(Conflict)
  {
  }

  /** A modest exit of a free item is taken at once, a larger one put off, and any other refused. */
  lemma ExitDecides(cfg: Config, s: State, id: nat, quantity: Positive, user: User)
    requires Reserved(s) && id < |s.items|
    ensures var r, item := Exited(cfg, s, id, s.items[id], quantity, user), s.items[id];
            if !Free(item) || quantity > item.currentQuantity then r == Fail(Conflict)
            else if Modest(cfg, item.unitCost, quantity) then
              r.Ok? && TakenAtOnce(s, r.value, id, Sortie, quantity, 0.0 - quantity, user)
            else r.Ok? && PutOff(s, r.value, id, LargeStockExit, Payload(quantity, Sortie, item.unitCost, false), user)
  {
    hide Held, Reserved, PutOff;
    if Free(s.items[id]) {
      HeldPutsOff(s, id, Parked(LargeStockExit, Payload(quantity, Sortie, s.items[id].unitCost, false)), user);
    }
  }

  /** What an adjustment must meet before anything is decided, with the first refusal of several. */
  predicate AdjustmentRefused(item: Item, delta: real, loss: Option<LossType>, error: Error) {
    if !Free(item) then error == Conflict
    else if delta == 0.0 || (loss.Some? && delta > 0.0) then error == BadRequest
    else item.currentQuantity + delta < 0.0 && error == Conflict
  }

  /** Every loss waits, as does a sizeable correction or removal; the rest is done at once. */
  lemma AdjustmentDecides(cfg: Config, s: State, id: nat, delta: real, loss: Option<LossType>, correction: bool, user: User)
    requires Reserved(s) && id < |s.items|
    ensures var r, item := Adjusted(cfg, s, id, s.items[id], delta, loss, correction, user), s.items[id];
            var sizeable := Sizeable(cfg, item.currentQuantity, delta);
            && (r.Fail? <==> AdjustmentRefused(item, delta, loss, Conflict) || AdjustmentRefused(item, delta, loss, BadRequest))
            && (r.Fail? ==> AdjustmentRefused(item, delta, loss, r.error))
            && (r.Ok? ==>
                  if loss.Some? then
                    PutOff(s, r.value, id, StockLoss, Payload(Size(delta), loss.value, item.unitCost, false), user)
                  else if correction && sizeable then
                    PutOff(s, r.value, id, InventoryCorrection,
                           Payload(Size(delta), InventaireCorrection, item.unitCost, delta > 0.0), user)
                  else if correction then
                    TakenAtOnce(s, r.value, id, InventaireCorrection, Size(delta), delta, user)
                  else if delta > 0.0 then
                    TakenAtOnce(s, r.value, id, AjustementPositif, delta, delta, user)
                  else if sizeable then
                    PutOff(s, r.value, id, NegativeAdjustment, Payload(0.0 - delta, AjustementNegatif, item.unitCost, false), user)
                  else TakenAtOnce(s, r.value, id, AjustementNegatif, 0.0 - delta, delta, user))
  {
    hide Held, Reserved, PutOff, Material, Sizeable;
    var item := s.items[id];
    MaterialIff(cfg, item, delta);
    if Free(item) {
      match PlanAdjustment(cfg, item, delta, loss, correction)
      case Park(parked) => HeldPutsOff(s, id, parked, user);
      case _ =>
    }
  }

  /** A transfer changes the place, as far as it is given, and never the quantity. */
  lemma TransferDecides(s: State, id: nat, destination: Place, user: User)
    requires id < |s.items|
    ensures var r, item := Transferred(s, id, s.items[id], destination, user), s.items[id];
            && (r.Fail? <==> !item.isActive) && (r.Fail? ==> r.error == Conflict)
            && (r.Ok? ==>
                  && |r.value.items| == |s.items| && (forall j :: 0 <= j < |s.items| && j != id ==> r.value.items[j] == s.items[j])
                  && (var item' := r.value.items[id];
                      && item' == item.(storageLocation := item'.storageLocation, spaceId := item'.spaceId)
                      && (if destination.location.Some? then item'.storageLocation == destination.location
                          else item'.storageLocation == item.storageLocation)
                      && (if destination.space.Some? then item'.spaceId == destination.space else item'.spaceId == item.spaceId))
                  && r.value.log == s.log + [Movement(id, Transfert, item.currentQuantity, item.currentQuantity,
                                                      item.currentQuantity, user, None)]
                  && r.value.effects == s.effects + [0.0] && r.value.requests == s.requests)
  {
  }

  /** A count of a free item that matches changes nothing; one that does not is an adjustment by the difference. */
  lemma CountDecides(cfg: Config, s: State, id: nat, actual: Quantity, user: User)
    requires Reserved(s) && id < |s.items|
    ensures var r, item := Counted(cfg, s, id, s.items[id], s.items[id], actual, user), s.items[id];
            var delta := actual - item.currentQuantity;
            if !Free(item) then r == Fail(Conflict)
            else if actual == item.currentQuantity then r == Ok(s)
            else if Sizeable(cfg, item.currentQuantity, delta) then
              r.Ok? && PutOff(s, r.value, id, InventoryCorrection,
                              Payload(Size(delta), InventaireCorrection, item.unitCost, delta > 0.0), user)
            else r.Ok? && TakenAtOnce(s, r.value, id, InventaireCorrection, Size(delta), delta, user)
  {
    hide Adjusted, Reserved, PutOff, TakenAtOnce, Sizeable;
    AdjustmentDecides(cfg, s, id, actual - s.items[id].currentQuantity, None, true, user);
  }

  /** The count reads twice: its difference is to the first read, and what becomes of it is judged on the second. */
  lemma StaleCountIsAdjustment(cfg: Config, s: State, id: nat, seen: Item, seenAgain: Item, actual: Quantity, user: User)
    requires id < |s.items| && Free(seen) && actual != seen.currentQuantity
    ensures Counted(cfg, s, id, seen, seenAgain, actual, user)
         == Adjusted(cfg, s, id, seenAgain, actual - seen.currentQuantity, None, true, user)
  {
    hide Adjusted;
  }

  /** An empty item is archived at once; one with stock left waits. */
  lemma ArchiveDecides(s: State, id: nat, user: User)
    requires Reserved(s) && id < |s.items|
    ensures var r, item := Archived(s, id, s.items[id], user), s.items[id];
            if !Free(item) then r == Fail(Conflict)
            else if item.currentQuantity > 0.0 then
              r.Ok? && PutOff(s, r.value, id, StockItemArchive, Payload(0.0, AjustementPositif, None, false), user)
            else r == Ok(s.(items := s.items[id := item.(isActive := false)]))
  {
    hide Held, Reserved, PutOff;
    if Free(s.items[id]) {
      HeldPutsOff(s, id, Parked(StockItemArchive, Payload(0.0, AjustementPositif, None, false)), user);
    }
  }

  /** A new item is empty, or has its initial quantity with an entry to show for it. */
  lemma OpeningDecides(s: State, initial: Option<Positive>, unitCost: Option<nat>, user: User)
    ensures var s', q := Opened(s, initial, unitCost, user), if initial.Some? then initial.value as real else 0.0;
            && s'.items == s.items + [Item(q, unitCost, None, None, true, None, None)] && s'.requests == s.requests
            && (initial.None? ==> s'.log == s.log && s'.effects == s.effects)
            && (initial.Some? ==> s'.log == s.log + [Movement(|s.items|, Entree, q, 0.0, q, user, None)]
                                  && s'.effects == s.effects + [q])
  {
  }

  // ─── Reviews ──────────────────────────────────────────────────────────────

  /** The approved operation is done, for the submitter and in the reviewer's name. */
  ghost predicate CarriedOut(s: State, s': State, id: nat, submitter: User, reviewer: User) {
    && id < |s.items| && s.items[id].pending.Some?
    && var item, parked := s.items[id], s.items[id].pending.value;
       var settled := item.(validationStatus := Some(V.Approved), pending := None);
       if parked.action == StockItemArchive then
         s'.items == s.items[id := settled.(isActive := false)] && s'.log == s.log && s'.effects == s.effects
       else
         var p, before := parked.payload, item.currentQuantity;
         var after := if p.positive then before + p.quantity else before - p.quantity;
         && s'.items == s.items[id := settled.(currentQuantity := after)] && after >= 0.0
         && s'.log == s.log + [Movement(id, p.movementType, p.quantity, before, after, submitter, Some(reviewer))]
         && s'.effects == s.effects + [after - before]
  }

  ghost predicate ApprovedAndDone(s: State, s': State, id: nat, reviewer: User, comment: Option<string>) {
    exists i: nat ::
      && V.ReviewedBy(s.requests, s'.requests, i, V.Resource(V.StockItem, id), reviewer, comment, V.Approved)
      && CarriedOut(s, s', id, s.requests[i].submittedBy, reviewer)
  }

  /** Someone other than the author approves what waits, and it is done; nothing else can happen to a stock in order. */
  lemma ApprovalDecides(s: State, id: nat, reviewer: User, comment: Option<string>)
    requires Reserved(s) && id < |s.items| && s.items[id].currentQuantity >= 0.0
    ensures match ApprovedBy(s, id, s.items[id], reviewer, comment)
            case Done(s') => ApprovedAndDone(s, s', id, reviewer, comment)
            case NotReviewed(error) =>
              if s.items[id].pending.None? then error == Conflict else V.RefusedFor(s.requests, Stocked(id), reviewer, error)
            case ReviewedButShort(_) => false
  {
    hide V.ReviewedAs, Reserved;
    V.ReviewWrites(s.requests, Stocked(id), reviewer, comment, V.Approved);
    ApprovalNeverShort(s, id, reviewer, comment);
    ItemReserves(s, id);
    var a := ApprovedBy(s, id, s.items[id], reviewer, comment);
    if a.Done? {
      var v := V.ReviewedAs(s.requests, Stocked(id), reviewer, comment, V.Approved).value;
      assert CarriedOut(s, a.state, id, s.requests[v.index].submittedBy, reviewer);
    }
  }

  ghost predicate TurnedDown(s: State, s': State, id: nat, reviewer: User, comment: Option<string>, verdict: V.ValidationStatus) {
    && id < |s.items| && s'.log == s.log && s'.effects == s.effects
    && s'.items == s.items[id := s.items[id].(validationStatus := Some(verdict))]
    && exists i: nat :: V.ReviewedBy(s.requests, s'.requests, i, V.Resource(V.StockItem, id), reviewer, comment, verdict)
  }

  /** A refusal by someone other than the author frees the item and moves no stock. */
  lemma DeclineDecides(s: State, id: nat, reviewer: User, comment: Option<string>, verdict: V.ValidationStatus)
    requires id < |s.items|
    ensures match Declined(s, id, reviewer, comment, verdict)
            case Ok(s') => TurnedDown(s, s', id, reviewer, comment, verdict)
            case Fail(error) => V.RefusedFor(s.requests, Stocked(id), reviewer, error)
  {
    hide V.ReviewedAs, V.ReviewedBy, V.RefusedFor;
    V.ReviewWrites(s.requests, Stocked(id), reviewer, comment, verdict);
  }

  // ─── Every movement of a run is licensed ──────────────────────────────────

  /** An approved request on the item, by who performed the movement, reviewed by its approver, two persons. */
  ghost predicate Approved(requests: V.Requests, row: Movement) {
    exists i :: 0 <= i < |requests|
      && requests[i].resource == V.Resource(V.StockItem, row.item) && requests[i].status == V.Approved
      && requests[i].submittedBy == row.performedBy && requests[i].reviewedBy == row.approvedBy
      && row.approvedBy != Some(row.performedBy)
  }

  /** What a row without an approver may be, on the item as it was: no loss, no large exit, no sizeable removal or correction. */
  predicate NeedsNobody(cfg: Config, item: Item, row: Movement) {
    match row.kind
    case Entree => true
    case Transfert => true
    case AjustementPositif => true
    case Sortie => Modest(cfg, item.unitCost, row.quantity)
    case AjustementNegatif => !Sizeable(cfg, item.currentQuantity, row.quantity)
    case InventaireCorrection => !Sizeable(cfg, item.currentQuantity, row.quantity)
    case _ => false
  }

  ghost predicate Licensed(cfg: Config, s: State, row: Movement, requests: V.Requests) {
    if row.approvedBy.Some? then Approved(requests, row)
    else row.kind == Entree || (row.item < |s.items| && NeedsNobody(cfg, s.items[row.item], row))
  }

  /** One more row, if any, and it is licensed. */
  ghost predicate Grows(cfg: Config, s: State, s': State) {
    s'.log == s.log || (s.log < s'.log && |s'.log| == |s.log| + 1 && Licensed(cfg, s, s'.log[|s.log|], s'.requests))
  }

  lemma StepLicensed(cfg: Config, s: State, op: Op)
    requires Reserved(s) && forall j :: 0 <= j < |s.items| ==> s.items[j].currentQuantity >= 0.0
    ensures Grows(cfg, s, Step(cfg, s, op))
  {
    hide Reserved, Exited, Entered, Adjusted, ApprovedBy, Counted, Archived, Opened, Transferred, Declined, V.FiledBy, V.ReviewedBy,
      V.RefusedFor, Sizeable, Modest;
    if op.Open? {
      OpeningDecides(s, op.initial, op.unitCost, op.user);
    } else if op.id < |s.items| {
      match op
      case Open(_, _, _) =>
      case Reprice(_, _) =>
      case Enter(id, quantity, user) => EntryDecides(s, id, quantity, user);
      case Exit(id, quantity, user) => ExitDecides(cfg, s, id, quantity, user);
      case Adjust(id, delta, loss, correction, user) =>
        AdjustmentDecides(cfg, s, id, delta, loss, correction, user);
        SizeableBySize(cfg, s.items[id].currentQuantity, delta);
      case Transfer(id, destination, user) => TransferDecides(s, id, destination, user);
      case Count(id, actual, user) =>
        CountDecides(cfg, s, id, actual, user);
        SizeableBySize(cfg, s.items[id].currentQuantity, actual - s.items[id].currentQuantity);
      case Archive(id, user) => ArchiveDecides(s, id, user);
      case Approve(id, reviewer, comment) => ApprovalLicensed(cfg, s, id, reviewer, comment);
      case Reject(id, reviewer, comment) => DeclineDecides(s, id, reviewer, comment, V.Rejected);
      case RequestChanges(id, reviewer, comment) => DeclineDecides(s, id, reviewer, comment, V.ChangesRequested);
    }
  }

  lemma SizeableBySize(cfg: Config, current: real, delta: real)
    ensures Sizeable(cfg, current, Size(delta)) <==> Sizeable(cfg, current, delta)
  {
  }

  lemma ApprovalLicensed(cfg: Config, s: State, id: nat, reviewer: User, comment: Option<string>)
    requires Reserved(s) && id < |s.items| && s.items[id].currentQuantity >= 0.0
    ensures Grows(cfg, s, AfterApproval(s, ApprovedBy(s, id, s.items[id], reviewer, comment)))
  {
    hide Reserved, ApprovedBy, V.RefusedFor;
    ApprovalDecides(s, id, reviewer, comment);
    var a := ApprovedBy(s, id, s.items[id], reviewer, comment);
    if a.Done? {
      var i: nat :|
        && V.ReviewedBy(s.requests, a.state.requests, i, V.Resource(V.StockItem, id), reviewer, comment, V.Approved)
        && CarriedOut(s, a.state, id, s.requests[i].submittedBy, reviewer);
      assert a.state.requests[i].reviewedBy == Some(reviewer);
    }
  }

  /** Row k was written by the operation j, on the store the operations before it left. */
  ghost predicate LicensedAt(cfg: Config, s: State, ops: seq<Op>, j: nat, k: nat, row: Movement, requests: V.Requests) {
    && j < |ops|
    && var before := Run(cfg, s, ops[..j]);
       |before.log| == k && Licensed(cfg, before, row, requests)
  }

  ghost predicate RowLicensed(cfg: Config, s: State, ops: seq<Op>, k: nat, row: Movement, requests: V.Requests) {
    exists j: nat :: LicensedAt(cfg, s, ops, j, k, row, requests)
  }

  /** Every row a run adds to the log, of which s' is the end, is licensed. */
  ghost predicate AllLicensed(cfg: Config, s: State, ops: seq<Op>, s': State) {
    forall k: nat :: |s.log| <= k < |s'.log| ==> RowLicensed(cfg, s, ops, k, s'.log[k], s'.requests)
  }

  lemma RequestsFollow(cfg: Config, s: State, op: Op)
    requires V.Valid(s.requests)
    ensures V.Valid(Step(cfg, s, op).requests) && V.Extends(s.requests, Step(cfg, s, op).requests)
  {
    hide V.Valid, V.Created, V.ReviewedAs, PlanExit, PlanAdjustment;
    if !op.Open? && op.id < |s.items| {
      var status := s.items[op.id].validationStatus;
      match op
      case Approve(id, reviewer, comment) => V.ReviewExtends(s.requests, Stocked(id), reviewer, comment, V.Approved);
      case Reject(id, reviewer, comment) => V.ReviewExtends(s.requests, Stocked(id), reviewer, comment, V.Rejected);
      case RequestChanges(id, reviewer, comment) =>
        V.ReviewExtends(s.requests, Stocked(id), reviewer, comment, V.ChangesRequested);
      case Exit(id, _, user) => V.FilingExtends(s.requests, Stocked(id), user, status, None);
      case Adjust(id, _, _, _, user) => V.FilingExtends(s.requests, Stocked(id), user, status, None);
      case Count(id, _, user) => V.FilingExtends(s.requests, Stocked(id), user, status, None);
      case Archive(id, user) => V.FilingExtends(s.requests, Stocked(id), user, status, None);
      case _ =>
    }
  }

  lemma LicenceLasts(cfg: Config, s: State, row: Movement, before: V.Requests, after: V.Requests)
    requires Licensed(cfg, s, row, before) && V.Extends(before, after)
    ensures Licensed(cfg, s, row, after)
  {
  }

  lemma NonNegative(s: State)
    requires Sound(s)
    ensures forall j :: 0 <= j < |s.items| ==> s.items[j].currentQuantity >= 0.0
  {
  }

  /**
   In every serial run: whatever left the stock without an approver was modest, on the thresholds and the price of that
   moment, and no loss; everything else has an approved request behind it, by two different persons.
   */
  lemma {:induction false} EveryMovementLicensed(cfg: Config, s: State, ops: seq<Op>)
    requires Sound(s) && V.Valid(s.requests)
    ensures var s' := Run(cfg, s, ops); s.log <= s'.log && V.Extends(s.requests, s'.requests)
    ensures AllLicensed(cfg, s, ops, Run(cfg, s, ops))
    decreases |ops|
  {
    hide Sound, V.Valid, Step, V.Extends, Licensed;
    if ops == [] {
      ExtendsSelf(s.requests);
    } else {
      var s1, s' := Step(cfg, s, ops[0]), Run(cfg, s, ops);
      NonNegative(s);
      assert Reserved(s) by { assert Sound(s); SoundIsReserved(s); }
      StepLicensed(cfg, s, ops[0]);
      RequestsFollow(cfg, s, ops[0]);
      SoundStep(cfg, s, ops[0]);
      EveryMovementLicensed(cfg, s1, ops[1..]);
      ExtendsOn(s.requests, s1.requests, s'.requests);
      forall k: nat | |s.log| <= k < |s'.log| ensures RowLicensed(cfg, s, ops, k, s'.log[k], s'.requests) {
        if k < |s1.log| {
          LicenceLasts(cfg, s, s1.log[k], s1.requests, s'.requests);
          assert Run(cfg, s, ops[..0]) == s;
          assert LicensedAt(cfg, s, ops, 0, k, s'.log[k], s'.requests);
        } else {
          assert RowLicensed(cfg, s1, ops[1..], k, s'.log[k], s'.requests);
          var j: nat :| LicensedAt(cfg, s1, ops[1..], j, k, s'.log[k], s'.requests);
          assert ops[..j + 1][1..] == ops[1..][..j];
          assert LicensedAt(cfg, s, ops, j + 1, k, s'.log[k], s'.requests);
        }
      }
    }
  }

  lemma SoundIsReserved(s: State)
    requires Sound(s)
    ensures Reserved(s)
  {
  }

  lemma ExtendsSelf(requests: V.Requests)
    ensures V.Extends(requests, requests)
  {
  }

  lemma ExtendsOn(first: V.Requests, second: V.Requests, third: V.Requests)
    requires V.Extends(first, second) && V.Extends(second, third)
    ensures V.Extends(first, third)
  {
  }
}
