/** Conservation under stale reads, and what serial runs keep besides. */
module StockLaws {
  import opened Common
  import opened Stock
  import V = Validations

  // ─── Conservation, whatever was read when ─────────────────────────────────

  /** The signed sum of what the movements of one item did. */
  function Net(log: seq<Movement>, effects: seq<real>, id: nat): real
    requires |log| == |effects|
  {
    if log == [] then 0.0
    else
      var n := |log| - 1;
      Net(log[..n], effects[..n], id) + (if log[n].item == id then effects[n] else 0.0)
  }

  /** A movement's type and quantity determine its effect; only a correction may go either way. */
  predicate Signed(kind: MovementType, quantity: real, effect: real) {
    match kind
    case Transfert => effect == 0.0
    case InventaireCorrection => effect == quantity || effect == -quantity
    case Sortie => effect == -quantity
    case AjustementNegatif => effect == -quantity
    case Perte => effect == -quantity
    case Casse => effect == -quantity
    case Peremption => effect == -quantity
    case DonDistribue => effect == -quantity
    case _ => effect == quantity
  }

  /** A parked operation whose direction is the one its movement type means. */
  predicate Directed(parked: Parked) {
    var p := parked.payload;
    parked.action == StockItemArchive || Signed(p.movementType, p.quantity, Effect(p.quantity, !p.positive))
  }

  predicate Wellformed(s: State) {
    && |s.log| == |s.effects|
    && (forall k :: 0 <= k < |s.log| ==> s.log[k].item < |s.items| && Signed(s.log[k].kind, s.log[k].quantity, s.effects[k]))
    && (forall id :: 0 <= id < |s.items| && s.items[id].pending.Some? ==> Directed(s.items[id].pending.value))
  }

  ghost predicate Conserved(s: State) {
    && Wellformed(s)
    && forall id: nat :: id < |s.items| ==>
         0.0 <= s.items[id].currentQuantity == Net(s.log, s.effects, id)
  }

  /** Every write of the service, each decided on items read at any earlier time. */
  datatype StaleOp =
    | Opening(initial: Option<Positive>, unitCost: Option<nat>, user: User)
    | Repricing(id: nat, unitCost: Option<nat>)
    | Entering(id: nat, seen: Item, quantity: Positive, user: User)
    | Exiting(id: nat, seen: Item, quantity: Positive, user: User)
    | Adjusting(id: nat, seen: Item, delta: real, loss: Option<LossType>, correction: bool, user: User)
    | Transferring(id: nat, seen: Item, destination: Place, user: User)
    | Counting(id: nat, seen: Item, seenAgain: Item, actual: Quantity, user: User)
    | Archiving(id: nat, seen: Item, user: User)
    | Releasing(id: nat, parked: Parked, submitter: User, reviewer: User)
    | Approving(id: nat, seen: Item, reviewer: User, comment: Option<string>)
    | Declining(id: nat, reviewer: User, comment: Option<string>, verdict: V.ValidationStatus)

  function StaleStep(cfg: Config, s: State, op: StaleOp): State {
    if op.Opening? then Opened(s, op.initial, op.unitCost, op.user)
    else if op.id >= |s.items| then s
    else
      match op
      case Opening(_, _, _) => s
      case Repricing(id, unitCost) => s.(items := s.items[id := s.items[id].(unitCost := unitCost)])
      case Entering(id, seen, quantity, user) => After(s, Entered(s, id, seen, quantity, user))
      case Exiting(id, seen, quantity, user) => After(s, Exited(cfg, s, id, seen, quantity, user))
      case Adjusting(id, seen, delta, loss, correction, user) =>
        After(s, Adjusted(cfg, s, id, seen, delta, loss, correction, user))
      case Transferring(id, seen, destination, user) => After(s, Transferred(s, id, seen, destination, user))
      case Counting(id, seen, seenAgain, actual, user) => After(s, Counted(cfg, s, id, seen, seenAgain, actual, user))
      case Archiving(id, seen, user) => After(s, Archived(s, id, seen, user))
      case Releasing(id, parked, submitter, reviewer) => After(s, Released(s, id, parked, submitter, reviewer))
      case Approving(id, seen, reviewer, comment) => AfterApproval(s, ApprovedBy(s, id, seen, reviewer, comment))
      case Declining(id, reviewer, comment, verdict) => After(s, Declined(s, id, reviewer, comment, verdict))
  }

  /** A parked operation as read is one the service could have parked. */
  predicate Plausible(op: StaleOp) {
    match op
    case Releasing(_, parked, _, _) => Directed(parked)
    case Approving(_, seen, _, _) => seen.pending.Some? ==> Directed(seen.pending.value)
    case _ => true
  }

  lemma NetAppend(log: seq<Movement>, effects: seq<real>, m: Movement, e: real, id: nat)
    requires |log| == |effects|
    ensures Net(log + [m], effects + [e], id) == Net(log, effects, id) + (if m.item == id then e else 0.0)
  {
    assert (log + [m])[..|log|] == log && (effects + [e])[..|log|] == effects;
  }

  lemma {:induction false} NetOfUnused(log: seq<Movement>, effects: seq<real>, id: nat)
    requires |log| == |effects| && forall k :: 0 <= k < |log| ==> log[k].item != id
    ensures Net(log, effects, id) == 0.0
  {
    if log != [] {
      NetOfUnused(log[..|log| - 1], effects[..|log| - 1], id);
    }
  }

  lemma ConservedByMovement(s: State, s': State, id: nat, m: Movement, e: real)
    requires Conserved(s) && id < |s.items| && |s'.items| == |s.items| && m.item == id && Signed(m.kind, m.quantity, e)
    requires s'.log == s.log + [m] && s'.effects == s.effects + [e]
    requires forall j :: 0 <= j < |s.items| && j != id ==> s'.items[j] == s.items[j]
    requires s'.items[id].currentQuantity == s.items[id].currentQuantity + e >= 0.0
    requires s'.items[id].pending.None? || s'.items[id].pending == s.items[id].pending
    ensures Conserved(s')
  {
    hide Net, Signed, Directed;
    forall j: nat | j < |s'.items| ensures 0.0 <= s'.items[j].currentQuantity == Net(s'.log, s'.effects, j) {
      NetAppend(s.log, s.effects, m, e, j);
    }
  }

  lemma AppliedConserves(s: State, id: nat, q: Quantity, removal: bool, kind: MovementType, activeOnly: bool,
                         before: Option<real>, user: User, approver: Option<User>)
    requires Conserved(s) && id < |s.items|
    requires Signed(kind, q, Effect(q, removal))
    ensures Conserved(After(s, Applied(s, id, q, removal, kind, activeOnly, before, user, approver)))
  {
    hide Net, Directed, Conserved, Signed;
    var r := Applied(s, id, q, removal, kind, activeOnly, before, user, approver);
    if r.Ok? {
      QuantityOf(s, id);
      ConservedByMovement(s, r.value, id, r.value.log[|s.log|], Effect(q, removal));
    }
  }

  lemma QuantityOf(s: State, id: nat)
    requires Conserved(s) && id < |s.items|
    ensures s.items[id].currentQuantity >= 0.0
  {
  }

  /** A write of flags and parked operations alone. */
  lemma ConservedByFlags(s: State, s': State)
    requires Conserved(s) && s'.log == s.log && s'.effects == s.effects && |s'.items| == |s.items|
    requires forall j :: 0 <= j < |s.items| ==>
               && s'.items[j].currentQuantity == s.items[j].currentQuantity
               && (s'.items[j].pending.Some? && s'.items[j].pending != s.items[j].pending ==> Directed(s'.items[j].pending.value))
    ensures Conserved(s')
  {
    hide Net, Signed, Directed;
  }

  lemma PlansAreDirected(cfg: Config, seen: Item, delta: real, loss: Option<LossType>, correction: bool, quantity: Positive)
    ensures var p := PlanExit(cfg, seen, quantity);
            && (p.Park? ==> Directed(p.parked))
            && (p.Apply? ==> Signed(p.kind, p.quantity, Effect(p.quantity, p.removal)))
    ensures var p := PlanAdjustment(cfg, seen, delta, loss, correction);
            && (p.Park? ==> Directed(p.parked))
            && (p.Apply? ==> Signed(p.kind, p.quantity, Effect(p.quantity, p.removal)))
  {
    hide Material;
  }

  lemma HeldConserves(s: State, id: nat, seen: Item, parked: Parked, user: User)
    requires Conserved(s) && id < |s.items| && Directed(parked)
    ensures Conserved(After(s, Held(s, id, seen, parked, user)))
  {
    hide Conserved, Directed, V.Created;
    var r := Held(s, id, seen, parked, user);
    if r.Ok? { ConservedByFlags(s, r.value); } 
  }

  lemma AdjustedConserves(cfg: Config, s: State, id: nat, seen: Item, delta: real, loss: Option<LossType>, correction: bool, user: User)
    requires Conserved(s) && id < |s.items|
    ensures Conserved(After(s, Adjusted(cfg, s, id, seen, delta, loss, correction, user)))
  {
    hide Conserved, Directed, Signed, Held, Applied, PlanAdjustment, PlanExit;
    PlansAreDirected(cfg, seen, delta, loss, correction, 1.0);
    match PlanAdjustment(cfg, seen, delta, loss, correction)
    case Refuse(_) =>
    case Park(parked) => HeldConserves(s, id, seen, parked, user);
    case Apply(q, removal, kind) => AppliedConserves(s, id, q, removal, kind, true, Some(seen.currentQuantity), user, None);
  }

  lemma ReleasedConserves(s: State, id: nat, parked: Parked, submitter: User, reviewer: User)
    requires Conserved(s) && id < |s.items| && Directed(parked)
    ensures Conserved(After(s, Released(s, id, parked, submitter, reviewer)))
  {
    hide Conserved, Applied;
    if parked.action == StockItemArchive {
      ConservedByFlags(s, Released(s, id, parked, submitter, reviewer).value);
    } else {
      var p := parked.payload;
      AppliedConserves(s, id, p.quantity, !p.positive, p.movementType, false, None, submitter, Some(reviewer));
    }
  }

  lemma OpenedConserves(s: State, initial: Option<Positive>, unitCost: Option<nat>, user: User)
    requires Conserved(s)
    ensures Conserved(Opened(s, initial, unitCost, user))
  {
    hide Net, Signed, Directed;
    var s' := Opened(s, initial, unitCost, user);
    var id := |s.items|;
    NetOfUnused(s.log, s.effects, id);
    if initial.Some? {
      var m := s'.log[|s.log|];
      EntriesAdd(initial.value);
      forall j: nat | j < |s'.items| ensures 0.0 <= s'.items[j].currentQuantity == Net(s'.log, s'.effects, j) {
        NetAppend(s.log, s.effects, m, initial.value, j);
      }
    }
  }

  lemma EntriesAdd(q: Quantity)
    ensures Signed(Entree, q, q) && Signed(Entree, q, Effect(q, false))
  {
  }

  /**
   Every operation, deciding on any item it may have read, keeps each quantity non-negative and equal to the sum of
   the signed effects of the recorded movements.
   */
  lemma StaleStepConserves(cfg: Config, s: State, op: StaleOp)
    requires Conserved(s) && Plausible(op)
    ensures Conserved(StaleStep(cfg, s, op))
  {
    hide Conserved, Directed, Signed, Held, Applied, PlanAdjustment, PlanExit, Adjusted, Released, V.ReviewedAs, Opened;
    if op.Opening? {
      OpenedConserves(s, op.initial, op.unitCost, op.user);
    } else if op.id < |s.items| {
      match op
      case Opening(_, _, _) =>
      case Repricing(id, unitCost) => ConservedByFlags(s, StaleStep(cfg, s, op));
      case Entering(id, seen, quantity, user) =>
        EntriesAdd(quantity);
        AppliedConserves(s, id, quantity, false, Entree, false, Some(seen.currentQuantity), user, None);
      case Exiting(id, seen, quantity, user) =>
        PlansAreDirected(cfg, seen, 0.0, None, false, quantity);
        match PlanExit(cfg, seen, quantity) {
          case Refuse(_) =>
          case Park(parked) => HeldConserves(s, id, seen, parked, user);
          case Apply(q, removal, kind) => AppliedConserves(s, id, q, removal, kind, true, None, user, None);
        }
      case Adjusting(id, seen, delta, loss, correction, user) =>
        AdjustedConserves(cfg, s, id, seen, delta, loss, correction, user);
      case Transferring(id, seen, destination, user) => TransferConserves(s, id, seen, destination, user);
      case Counting(id, seen, seenAgain, actual, user) =>
        AdjustedConserves(cfg, s, id, seenAgain, actual - seen.currentQuantity, None, true, user);
      case Archiving(id, seen, user) => ArchiveConserves(s, id, seen, user);
      case Releasing(id, parked, submitter, reviewer) => ReleasedConserves(s, id, parked, submitter, reviewer);
      case Approving(id, seen, reviewer, comment) => ApprovalConserves(s, id, seen, reviewer, comment);
      case Declining(id, reviewer, comment, verdict) => ConservedByFlags(s, StaleStep(cfg, s, op));
    }
  }

  lemma TransferConserves(s: State, id: nat, seen: Item, destination: Place, user: User)
    requires Conserved(s) && id < |s.items|
    ensures Conserved(After(s, Transferred(s, id, seen, destination, user)))
  {
    hide Conserved;
    QuantityOf(s, id);
    var r := Transferred(s, id, seen, destination, user);
    if r.Ok? { ConservedByMovement(s, r.value, id, r.value.log[|s.log|], 0.0); }
  }

  lemma ArchiveConserves(s: State, id: nat, seen: Item, user: User)
    requires Conserved(s) && id < |s.items|
    ensures Conserved(After(s, Archived(s, id, seen, user)))
  {
    hide Conserved, Held;
    HeldConserves(s, id, seen, Parked(StockItemArchive, Payload(0.0, AjustementPositif, None, false)), user);
    var r := Archived(s, id, seen, user);
    if r.Ok? && seen.currentQuantity <= 0.0 { ConservedByFlags(s, r.value); }
  }

  lemma ApprovalConserves(s: State, id: nat, seen: Item, reviewer: User, comment: Option<string>)
    requires Conserved(s) && id < |s.items| && (seen.pending.Some? ==> Directed(seen.pending.value))
    ensures Conserved(AfterApproval(s, ApprovedBy(s, id, seen, reviewer, comment)))
  {
    hide Conserved, Released, V.FindPending, Directed;
    if seen.pending.Some? {
      var v := V.ReviewedAs(s.requests, Stocked(id), reviewer, comment, V.Approved);
      if v.Ok? {
        var reviewed := s.(requests := v.value.requests);
        ConservedByFlags(s, reviewed);
        ReleasedConserves(reviewed, id, seen.pending.value, v.value.requests[v.value.index].submittedBy, reviewer);
      }
    }
  }

  function StaleRun(cfg: Config, s: State, ops: seq<StaleOp>): State
    decreases |ops|
  {
    if ops == [] then s else StaleRun(cfg, StaleStep(cfg, s, ops[0]), ops[1..])
  }

  lemma {:induction false} StockConserved(cfg: Config, s: State, ops: seq<StaleOp>)
    requires Conserved(s) && forall i :: 0 <= i < |ops| ==> Plausible(ops[i])
    ensures Conserved(StaleRun(cfg, s, ops))
    decreases |ops|
  {
    hide Conserved, StaleStep, Plausible;
    if ops != [] {
      StaleStepConserves(cfg, s, ops[0]);
      StockConserved(cfg, StaleStep(cfg, s, ops[0]), ops[1..]);
    }
  }

  // ─── Serial runs are among them ───────────────────────────────────────────

  /** A serial operation is the stale one that read the item as it is. */
  function Fresh(s: State, op: Op): StaleOp
    requires !op.Open? ==> op.id < |s.items|
  {
    match op
    case Open(initial, unitCost, user) => Opening(initial, unitCost, user)
    case Reprice(id, unitCost) => Repricing(id, unitCost)
    case Enter(id, quantity, user) => Entering(id, s.items[id], quantity, user)
    case Exit(id, quantity, user) => Exiting(id, s.items[id], quantity, user)
    case Adjust(id, delta, loss, correction, user) => Adjusting(id, s.items[id], delta, loss, correction, user)
    case Transfer(id, destination, user) => Transferring(id, s.items[id], destination, user)
    case Count(id, actual, user) => Counting(id, s.items[id], s.items[id], actual, user)
    case Archive(id, user) => Archiving(id, s.items[id], user)
    case Approve(id, reviewer, comment) => Approving(id, s.items[id], reviewer, comment)
    case Reject(id, reviewer, comment) => Declining(id, reviewer, comment, V.Rejected)
    case RequestChanges(id, reviewer, comment) => Declining(id, reviewer, comment, V.ChangesRequested)
  }

  lemma SerialConserves(cfg: Config, s: State, op: Op)
    requires Conserved(s)
    ensures Conserved(Step(cfg, s, op))
  {
    hide Conserved, Opened, Entered, Exited, Adjusted, Transferred, Counted, Archived, ApprovedBy, Declined, Directed;
    if !op.Open? ==> op.id < |s.items| {
      assert Plausible(Fresh(s, op)) by {
        if op.Approve? && s.items[op.id].pending.Some? { PendingIsDirected(s, op.id); }
      }
      StaleStepConserves(cfg, s, Fresh(s, op));
      assert StaleStep(cfg, s, Fresh(s, op)) == Step(cfg, s, op);
    }
  }

  lemma PendingIsDirected(s: State, id: nat)
    requires Conserved(s) && id < |s.items| && s.items[id].pending.Some?
    ensures Directed(s.items[id].pending.value)
  {
  }
}
