/** What serial runs of the stock service keep: the log chains, parked stock is held, counts are honoured. */
module StockSerial {
  import opened Common
  import opened Stock
  import C = StockLaws
  import V = Validations

  // ─── The log chains ───────────────────────────────────────────────────────

  /** The quantity the last movement of an item left, zero if it has none. */
  function LastAfter(log: seq<Movement>, id: nat): real {
    if log == [] then 0.0
    else
      var m := log[|log| - 1];
      if m.item == id then m.quantityAfter else LastAfter(log[..|log| - 1], id)
  }

  /** Each movement starts from the quantity the item's previous movement left. */
  predicate Chains(log: seq<Movement>) {
    log == [] ||
    (var init, m := log[..|log| - 1], log[|log| - 1];
     Chains(init) && m.quantityBefore == LastAfter(init, m.item))
  }

  /** The log chains, ends at the current quantities, and each row shows in full what its movement did. */
  ghost predicate Chained(s: State) {
    && Chains(s.log)
    && |s.log| == |s.effects|
    && (forall k :: 0 <= k < |s.log| ==> s.log[k].quantityAfter - s.log[k].quantityBefore == s.effects[k])
    && (forall id: nat :: id < |s.items| ==> s.items[id].currentQuantity == LastAfter(s.log, id))
    && (forall id: nat :: id >= |s.items| ==> LastAfter(s.log, id) == 0.0)
  }

  lemma ChainedByMovement(s: State, s': State, id: nat, m: Movement)
    requires Chained(s) && id < |s.items| && |s'.items| == |s.items|
    requires s'.log == s.log + [m] && m.item == id
    requires s'.effects == s.effects + [m.quantityAfter - m.quantityBefore]
    requires m.quantityBefore == s.items[id].currentQuantity && m.quantityAfter == s'.items[id].currentQuantity
    requires forall j :: 0 <= j < |s.items| && j != id ==> s'.items[j] == s.items[j]
    ensures Chained(s')
  {
    assert s'.log[..|s.log|] == s.log;
  }

  lemma ChainedByFlags(s: State, s': State)
    requires Chained(s) && s'.log == s.log && s'.effects == s.effects && |s'.items| == |s.items|
    requires forall j :: 0 <= j < |s.items| ==> s'.items[j].currentQuantity == s.items[j].currentQuantity
    ensures Chained(s')
  {
  }

  lemma AppliedChains(s: State, id: nat, q: Quantity, removal: bool, kind: MovementType, activeOnly: bool,
                      before: Option<real>, user: User, approver: Option<User>)
    requires Chained(s) && id < |s.items| && (before.Some? ==> before.value == s.items[id].currentQuantity)
    ensures Chained(After(s, Applied(s, id, q, removal, kind, activeOnly, before, user, approver)))
  {
    hide Chained;
    var r := Applied(s, id, q, removal, kind, activeOnly, before, user, approver);
    if r.Ok? { ChainedByMovement(s, r.value, id, r.value.log[|s.log|]); }
  }

  lemma HeldChains(s: State, id: nat, parked: Parked, user: User)
    requires Chained(s) && id < |s.items|
    ensures Chained(After(s, Held(s, id, s.items[id], parked, user)))
  {
    hide Chained, V.Created;
    var r := Held(s, id, s.items[id], parked, user);
    if r.Ok? { ChainedByFlags(s, r.value); }
  }

  lemma AdjustedChains(cfg: Config, s: State, id: nat, delta: real, loss: Option<LossType>, correction: bool, user: User)
    requires Chained(s) && id < |s.items|
    ensures Chained(After(s, Adjusted(cfg, s, id, s.items[id], delta, loss, correction, user)))
  {
    hide Chained, Applied, Held, PlanAdjustment;
    match PlanAdjustment(cfg, s.items[id], delta, loss, correction)
    case Refuse(_) =>
    case Park(parked) => HeldChains(s, id, parked, user);
    case Apply(q, removal, kind) =>
      AppliedChains(s, id, q, removal, kind, true, Some(s.items[id].currentQuantity), user, None);
  }

  lemma ExitedChains(cfg: Config, s: State, id: nat, quantity: Positive, user: User)
    requires Chained(s) && id < |s.items|
    ensures Chained(After(s, Exited(cfg, s, id, s.items[id], quantity, user)))
  {
    hide Chained, Applied, Held, PlanExit;
    match PlanExit(cfg, s.items[id], quantity)
    case Refuse(_) =>
    case Park(parked) => HeldChains(s, id, parked, user);
    case Apply(q, removal, kind) => AppliedChains(s, id, q, removal, kind, true, None, user, None);
  }

  lemma ApprovalChains(s: State, id: nat, reviewer: User, comment: Option<string>)
    requires Chained(s) && id < |s.items|
    ensures Chained(AfterApproval(s, ApprovedBy(s, id, s.items[id], reviewer, comment)))
  {
    hide Chained, Applied, V.FindPending;
    var seen := s.items[id];
    var v := V.ReviewedAs(s.requests, Stocked(id), reviewer, comment, V.Approved);
    if seen.pending.Some? && v.Ok? {
      var reviewed := s.(requests := v.value.requests);
      ChainedByFlags(s, reviewed);
      var p := seen.pending.value.payload;
      var submitter := v.value.requests[v.value.index].submittedBy;
      if seen.pending.value.action == StockItemArchive {
        ChainedByFlags(reviewed, Released(reviewed, id, seen.pending.value, submitter, reviewer).value);
      } else {
        AppliedChains(reviewed, id, p.quantity, !p.positive, p.movementType, false, None, submitter, Some(reviewer));
      }
    }
  }

  lemma OpenedChains(s: State, initial: Option<Positive>, unitCost: Option<nat>, user: User)
    requires Chained(s)
    ensures Chained(Opened(s, initial, unitCost, user))
  {
    var s' := Opened(s, initial, unitCost, user);
    if initial.Some? { assert s'.log[..|s.log|] == s.log; }
  }

  /** In serial use, each quantityBefore is the previous quantityAfter and the last one is the current quantity. */
  lemma LogChains(cfg: Config, s: State, op: Op)
    requires Chained(s)
    ensures Chained(Step(cfg, s, op))
  {
    hide Chained, Opened, Exited, Adjusted, ApprovedBy, Held, Applied, V.ReviewedAs;
    if op.Open? {
      OpenedChains(s, op.initial, op.unitCost, op.user);
    } else if op.id < |s.items| {
      var id := op.id;
      match op
      case Open(_, _, _) =>
      case Reprice(_, _) => ChainedByFlags(s, Step(cfg, s, op));
      case Enter(_, quantity, user) =>
        AppliedChains(s, id, quantity, false, Entree, false, Some(s.items[id].currentQuantity), user, None);
      case Exit(_, quantity, user) => ExitedChains(cfg, s, id, quantity, user);
      case Adjust(_, delta, loss, correction, user) => AdjustedChains(cfg, s, id, delta, loss, correction, user);
      case Transfer(_, destination, user) =>
        var r := Transferred(s, id, s.items[id], destination, user);
        if r.Ok? { ChainedByMovement(s, r.value, id, r.value.log[|s.log|]); }
      case Count(_, actual, user) =>
        AdjustedChains(cfg, s, id, actual - s.items[id].currentQuantity, None, true, user);
      case Archive(_, user) =>
        HeldChains(s, id, Parked(StockItemArchive, Payload(0.0, AjustementPositif, None, false)), user);
        var r := Archived(s, id, s.items[id], user);
        if r.Ok? && s.items[id].currentQuantity <= 0.0 { ChainedByFlags(s, r.value); }
      case Approve(_, reviewer, comment) => ApprovalChains(s, id, reviewer, comment);
      case Reject(_, _, _) => ChainedByFlags(s, Step(cfg, s, op));
      case RequestChanges(_, _, _) => ChainedByFlags(s, Step(cfg, s, op));
    }
  }

  // ─── Parked stock is held ─────────────────────────────────────────────────

  predicate IsRemoval(parked: Parked) {
    parked.action != StockItemArchive && !parked.payload.positive
  }

  /** What an item awaiting review guarantees: it is active, something is parked, and a parked removal fits. */
  predicate Reserves(item: Item) {
    AwaitsReview(item) ==>
      && item.isActive
      && item.pending.Some?
      && (IsRemoval(item.pending.value) ==> item.pending.value.payload.quantity <= item.currentQuantity)
  }

  /** The item waits exactly while one request for it is pending. */
  ghost predicate Reserved(s: State) {
    forall id: nat ::
      && (id >= |s.items| ==> V.PendingCount(s.requests, Stocked(id)) == 0)
      && (id < |s.items| ==>
            && Reserves(s.items[id])
            && V.PendingCount(s.requests, Stocked(id)) == if AwaitsReview(s.items[id]) then 1 else 0)
  }

  lemma ReservedByItem(s: State, s': State, id: nat)
    requires Reserved(s) && id < |s.items| && |s'.items| == |s.items| && s'.requests == s.requests
    requires forall j :: 0 <= j < |s.items| && j != id ==> s'.items[j] == s.items[j]
    requires Reserves(s'.items[id]) && (AwaitsReview(s'.items[id]) <==> AwaitsReview(s.items[id]))
    ensures Reserved(s')
  {
    hide Reserves, AwaitsReview;
  }

  lemma HeldReserves(s: State, id: nat, parked: Parked, user: User)
    requires Reserved(s) && id < |s.items| && s.items[id].isActive && !AwaitsReview(s.items[id])
    requires IsRemoval(parked) ==> parked.payload.quantity <= s.items[id].currentQuantity
    ensures var r := Held(s, id, s.items[id], parked, user);
            r.Ok? && Reserved(r.value)
  {
    hide V.Created;
    V.CreateEffect(s.requests, Stocked(id), user, s.items[id].validationStatus, None);
  }

  lemma AppliedReserves(s: State, id: nat, q: Quantity, removal: bool, kind: MovementType, activeOnly: bool,
                        before: Option<real>, user: User)
    requires Reserved(s) && id < |s.items| && (removal ==> !AwaitsReview(s.items[id]))
    ensures Reserved(After(s, Applied(s, id, q, removal, kind, activeOnly, before, user, None)))
  {
    hide Reserved;
    assert Reserves(s.items[id]) by { ItemReserves(s, id); }
    var r := Applied(s, id, q, removal, kind, activeOnly, before, user, None);
    if r.Ok? { ReservedByItem(s, r.value, id); }
  }

  lemma ItemReserves(s: State, id: nat)
    requires Reserved(s) && id < |s.items|
    ensures Reserves(s.items[id])
    ensures V.PendingCount(s.requests, Stocked(id)) == if AwaitsReview(s.items[id]) then 1 else 0
  {
  }

  lemma PlansFit(cfg: Config, seen: Item, delta: real, loss: Option<LossType>, correction: bool, quantity: Positive)
    ensures var p := PlanExit(cfg, seen, quantity);
            && (!p.Refuse? ==> seen.isActive && !AwaitsReview(seen))
            && (p.Park? && IsRemoval(p.parked) ==> p.parked.payload.quantity <= seen.currentQuantity)
    ensures var p := PlanAdjustment(cfg, seen, delta, loss, correction);
            && (!p.Refuse? ==> seen.isActive && !AwaitsReview(seen))
            && (p.Park? && IsRemoval(p.parked) ==> p.parked.payload.quantity <= seen.currentQuantity)
  {
    hide Material;
  }

  lemma AdjustedReserves(cfg: Config, s: State, id: nat, delta: real, loss: Option<LossType>, correction: bool, user: User)
    requires Reserved(s) && id < |s.items|
    ensures Reserved(After(s, Adjusted(cfg, s, id, s.items[id], delta, loss, correction, user)))
  {
    hide Reserved, Applied, Held, PlanAdjustment, PlanExit;
    PlansFit(cfg, s.items[id], delta, loss, correction, 1.0);
    match PlanAdjustment(cfg, s.items[id], delta, loss, correction)
    case Refuse(_) =>
    case Park(parked) => HeldReserves(s, id, parked, user);
    case Apply(q, removal, kind) => AppliedReserves(s, id, q, removal, kind, true, Some(s.items[id].currentQuantity), user);
  }

  lemma ExitedReserves(cfg: Config, s: State, id: nat, quantity: Positive, user: User)
    requires Reserved(s) && id < |s.items|
    ensures Reserved(After(s, Exited(cfg, s, id, s.items[id], quantity, user)))
  {
    hide Reserved, Applied, Held, PlanAdjustment, PlanExit;
    PlansFit(cfg, s.items[id], 0.0, None, false, quantity);
    match PlanExit(cfg, s.items[id], quantity)
    case Refuse(_) =>
    case Park(parked) => HeldReserves(s, id, parked, user);
    case Apply(q, removal, kind) => AppliedReserves(s, id, q, removal, kind, true, None, user);
  }

  /** In serial use a parked removal always still fits when it is approved: the late conflict is unreachable. */
  lemma ApprovalNeverShort(s: State, id: nat, reviewer: User, comment: Option<string>)
    requires Reserved(s) && id < |s.items|
    ensures var a := ApprovedBy(s, id, s.items[id], reviewer, comment);
            !a.ReviewedButShort? && (a.Done? ==> AwaitsReview(s.items[id]) && Reserved(a.state))
  {
    hide V.ReviewedAs;
    V.ReviewEffect(s.requests, Stocked(id), reviewer, comment, V.Approved);
    ItemReserves(s, id);
  }

  lemma DeclinedReserves(s: State, id: nat, reviewer: User, comment: Option<string>, verdict: V.ValidationStatus)
    requires Reserved(s) && id < |s.items| && verdict != V.PendingValidation
    ensures Reserved(After(s, Declined(s, id, reviewer, comment, verdict)))
  {
    hide V.ReviewedAs;
    V.ReviewEffect(s.requests, Stocked(id), reviewer, comment, verdict);
  }

  lemma StockReserved(cfg: Config, s: State, op: Op)
    requires Reserved(s)
    ensures Reserved(Step(cfg, s, op))
  {
    hide Reserved, Exited, Adjusted, ApprovedBy, Held, Applied, Declined, Opened;
    if op.Open? {
      OpenedReserves(s, op.initial, op.unitCost, op.user);
    } else if op.id < |s.items| {
      var id := op.id;
      ItemReserves(s, id);
      match op
      case Open(_, _, _) =>
      case Reprice(_, _) => ReservedByItem(s, Step(cfg, s, op), id);
      case Enter(_, quantity, user) =>
        AppliedReserves(s, id, quantity, false, Entree, false, Some(s.items[id].currentQuantity), user);
      case Exit(_, quantity, user) => ExitedReserves(cfg, s, id, quantity, user);
      case Adjust(_, delta, loss, correction, user) => AdjustedReserves(cfg, s, id, delta, loss, correction, user);
      case Transfer(_, destination, user) =>
        var r := Transferred(s, id, s.items[id], destination, user);
        if r.Ok? { ReservedByItem(s, r.value, id); }
      case Count(_, actual, user) =>
        AdjustedReserves(cfg, s, id, actual - s.items[id].currentQuantity, None, true, user);
      case Archive(_, user) =>
        if s.items[id].isActive && !AwaitsReview(s.items[id]) {
          HeldReserves(s, id, Parked(StockItemArchive, Payload(0.0, AjustementPositif, None, false)), user);
          var r := Archived(s, id, s.items[id], user);
          if s.items[id].currentQuantity <= 0.0 { ReservedByItem(s, r.value, id); }
        }
      case Approve(_, reviewer, comment) => ApprovalNeverShort(s, id, reviewer, comment);
      case Reject(_, reviewer, comment) => DeclinedReserves(s, id, reviewer, comment, V.Rejected);
      case RequestChanges(_, reviewer, comment) => DeclinedReserves(s, id, reviewer, comment, V.ChangesRequested);
    }
  }

  lemma OpenedReserves(s: State, initial: Option<Positive>, unitCost: Option<nat>, user: User)
    requires Reserved(s)
    ensures Reserved(Opened(s, initial, unitCost, user))
  {
  }

  // ─── A physical count is honoured ─────────────────────────────────────────

  predicate Reviews(op: Op, id: nat) {
    (op.Approve? || op.Reject? || op.RequestChanges?) && op.id == id
  }

  function Gain(op: Op, id: nat): real {
    if op.Enter? && op.id == id then op.quantity else 0.0
  }

  function Gains(ops: seq<Op>, id: nat): real {
    if ops == [] then 0.0 else Gain(ops[0], id) + Gains(ops[1..], id)
  }

  lemma PlansRefuse(cfg: Config, seen: Item, delta: real, loss: Option<LossType>, correction: bool, quantity: Positive)
    requires AwaitsReview(seen)
    ensures PlanExit(cfg, seen, quantity) == Refuse(Conflict)
    ensures PlanAdjustment(cfg, seen, delta, loss, correction) == Refuse(Conflict)
  {
    hide Material;
  }

  /** While an item awaits review, entries are all that changes its quantity, and what is parked stays. */
  lemma OnlyEntriesWhileParked(cfg: Config, s: State, op: Op, id: nat)
    requires Reserved(s) && id < |s.items| && AwaitsReview(s.items[id]) && !Reviews(op, id)
    ensures var s' := Step(cfg, s, op);
            && id < |s'.items| && AwaitsReview(s'.items[id])
            && s'.items[id].pending == s.items[id].pending
            && s'.items[id].currentQuantity == s.items[id].currentQuantity + Gain(op, id)
  {
    hide Reserved, V.Created, V.ReviewedAs, PlanExit, PlanAdjustment;
    ItemReserves(s, id);
    if op.Exit? {
      PlansRefuse(cfg, s.items[id], 0.0, None, false, op.quantity);
    } else if op.Adjust? {
      PlansRefuse(cfg, s.items[id], op.delta, op.loss, op.correction, 1.0);
    }
  }

  lemma {:induction false} OnlyEntriesInRun(cfg: Config, s: State, ops: seq<Op>, id: nat)
    requires Reserved(s) && id < |s.items| && AwaitsReview(s.items[id])
    requires forall i :: 0 <= i < |ops| ==> !Reviews(ops[i], id)
    ensures var s' := Run(cfg, s, ops);
            && Reserved(s')
            && id < |s'.items| && AwaitsReview(s'.items[id])
            && s'.items[id].pending == s.items[id].pending
            && s'.items[id].currentQuantity == s.items[id].currentQuantity + Gains(ops, id)
    decreases |ops|
  {
    hide Reserved, Step, AwaitsReview, Reviews;
    if ops != [] {
      StockReserved(cfg, s, ops[0]);
      OnlyEntriesWhileParked(cfg, s, ops[0], id);
      OnlyEntriesInRun(cfg, Step(cfg, s, ops[0]), ops[1..], id);
    }
  }

  /** An accepted count either corrects the stock to the counted amount at once, or parks exactly the difference. */
  lemma CountOutcome(cfg: Config, s: State, id: nat, actual: Quantity, user: User)
    requires Reserved(s) && id < |s.items|
    ensures var r := Counted(cfg, s, id, s.items[id], s.items[id], actual, user);
            r.Ok? ==>
              var item := r.value.items[id];
              if AwaitsReview(item) then
                && item.currentQuantity == s.items[id].currentQuantity
                && item.pending.Some? && item.pending.value.action == InventoryCorrection
                && (var p := item.pending.value.payload;
                    item.currentQuantity + Effect(p.quantity, !p.positive) == actual)
              else
                item.currentQuantity == actual
  {
    hide Reserved, Material;
    ItemReserves(s, id);
  }

  /**
   After a count: the quantity is the counted amount; or, if the correction was parked and is approved after any run
   that does not review it, the counted amount plus everything entered in between, for surplus and shortfall alike.
   */
  lemma PhysicalCountHonoured(cfg: Config, s: State, id: nat, actual: Quantity, user: User, mid: seq<Op>,
                              reviewer: User, comment: Option<string>)
    requires Reserved(s) && id < |s.items|
    requires forall i :: 0 <= i < |mid| ==> !Reviews(mid[i], id)
    ensures var r := Counted(cfg, s, id, s.items[id], s.items[id], actual, user);
            r.Ok? ==>
              if AwaitsReview(r.value.items[id]) then
                var s' := Run(cfg, r.value, mid);
                && id < |s'.items|
                && (var a := ApprovedBy(s', id, s'.items[id], reviewer, comment);
                    a.Done? ==> a.state.items[id].currentQuantity == actual + Gains(mid, id))
              else
                r.value.items[id].currentQuantity == actual
  {
    hide Reserved, Step, AwaitsReview, Counted, V.ReviewedAs, Reviews;
    var r := Counted(cfg, s, id, s.items[id], s.items[id], actual, user);
    if r.Ok? {
      CountOutcome(cfg, s, id, actual, user);
      CountKeepsReserved(cfg, s, id, actual, user);
      if AwaitsReview(r.value.items[id]) {
        OnlyEntriesInRun(cfg, r.value, mid, id);
      }
    }
  }

  lemma CountKeepsReserved(cfg: Config, s: State, id: nat, actual: Quantity, user: User)
    requires Reserved(s) && id < |s.items|
    ensures Reserved(After(s, Counted(cfg, s, id, s.items[id], s.items[id], actual, user)))
    ensures |After(s, Counted(cfg, s, id, s.items[id], s.items[id], actual, user)).items| == |s.items|
  {
    hide Reserved, Counted;
    StockReserved(cfg, s, Count(id, actual, user));
    CountKeepsItems(cfg, s, id, actual, user);
  }

  lemma CountKeepsItems(cfg: Config, s: State, id: nat, actual: Quantity, user: User)
    requires id < |s.items|
    ensures |After(s, Counted(cfg, s, id, s.items[id], s.items[id], actual, user)).items| == |s.items|
  {
  }

  // ─── All of it together ───────────────────────────────────────────────────

  /** What serial use keeps of a store: quantities conserved, the log chained, parked stock held. */
  ghost predicate Sound(s: State) {
    C.Conserved(s) && Chained(s) && Reserved(s)
  }

  lemma EmptyStore(requests: V.Requests)
    requires forall id: nat :: V.PendingCount(requests, Stocked(id)) == 0
    ensures Sound(State([], [], [], requests))
  {
  }

  lemma SoundStep(cfg: Config, s: State, op: Op)
    requires Sound(s)
    ensures Sound(Step(cfg, s, op))
  {
    hide C.Conserved, Chained, Reserved, Step;
    C.SerialConserves(cfg, s, op);
    LogChains(cfg, s, op);
    StockReserved(cfg, s, op);
  }

  /** From an empty store, whatever is done one operation at a time, the store is sound. */
  lemma {:induction false} StockInEveryRun(cfg: Config, s: State, ops: seq<Op>)
    requires Sound(s)
    ensures Sound(Run(cfg, s, ops))
    decreases |ops|
  {
    hide Sound, Step;
    if ops != [] {
      SoundStep(cfg, s, ops[0]);
      StockInEveryRun(cfg, Step(cfg, s, ops[0]), ops[1..]);
    }
  }
}
