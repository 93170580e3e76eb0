/**
 Parked stock when operations are decided on earlier reads: exactly which steps leave less than is parked, the run in
 which an approval then comes too late, and what becomes of the item.
 */
module StockRaces {
  import opened Common
  import opened Stock
  import opened StockLaws
  import S = StockSerial
  import V = Validations

  // ─── Which steps undercut what is parked ──────────────────────────────────

  /** A removal awaiting review still fits the stock. */
  predicate Fits(item: Item) {
    AwaitsReview(item) && item.pending.Some? && S.IsRemoval(item.pending.value) ==>
      item.pending.value.payload.quantity <= item.currentQuantity
  }

  /** A plan made on an earlier read that parks more than there is, or takes from what is parked. */
  predicate PlanUndercuts(s: State, id: nat, plan: Plan)
    requires id < |s.items|
  {
    var now := s.items[id];
    match plan
    case Refuse(_) => false
    case Park(parked) =>
      && S.IsRemoval(parked) && V.PendingCount(s.requests, Stocked(id)) == 0
      && now.currentQuantity < parked.payload.quantity
    case Apply(q, removal, _) =>
      && removal && now.isActive && q <= now.currentQuantity
      && AwaitsReview(now) && now.pending.Some? && S.IsRemoval(now.pending.value)
      && now.currentQuantity - q < now.pending.value.payload.quantity
  }

  predicate Undercuts(cfg: Config, s: State, op: StaleOp, id: nat)
    requires id < |s.items|
  {
    match op
    case Exiting(i, seen, quantity, _) => i == id && PlanUndercuts(s, id, PlanExit(cfg, seen, quantity))
    case Adjusting(i, seen, delta, loss, correction, _) =>
      i == id && PlanUndercuts(s, id, PlanAdjustment(cfg, seen, delta, loss, correction))
    case Counting(i, seen, seenAgain, actual, _) =>
      && i == id && seen.isActive && !AwaitsReview(seen) && actual != seen.currentQuantity
      && PlanUndercuts(s, id, PlanAdjustment(cfg, seenAgain, actual - seen.currentQuantity, None, true))
    case _ => false
  }

  /** reject and requestChanges pass no other verdict. */
  predicate Passable(op: StaleOp) {
    op.Declining? ==> op.verdict == V.Rejected || op.verdict == V.ChangesRequested
  }

  lemma PlanStepIff(s: State, id: nat, seen: Item, plan: Plan, before: Option<real>, user: User)
    requires id < |s.items| && Fits(s.items[id])
    ensures match plan
            case Refuse(_) => !PlanUndercuts(s, id, plan)
            case Park(parked) =>
              Fits(After(s, Held(s, id, seen, parked, user)).items[id]) <==> !PlanUndercuts(s, id, plan)
            case Apply(q, removal, kind) =>
              Fits(After(s, Applied(s, id, q, removal, kind, true, before, user, None)).items[id]) <==> !PlanUndercuts(s, id, plan)
  {
    hide V.Created, V.PendingCount;
    if plan.Park? {
      V.CreateEffect(s.requests, Stocked(id), user, seen.validationStatus, None);
    }
  }

  lemma OtherItemsKept(cfg: Config, s: State, op: StaleOp, id: nat)
    requires id < |s.items|
    ensures id < |StaleStep(cfg, s, op).items|
    ensures op.Opening? || op.id != id ==> StaleStep(cfg, s, op).items[id] == s.items[id]
  {
    hide V.Created, V.ReviewedAs, PlanExit, PlanAdjustment;
  }

  /** Whatever was read when, a step leaves less than is parked exactly when it parks too much or takes from it. */
  lemma FitsStepIff(cfg: Config, s: State, op: StaleOp, id: nat)
    requires id < |s.items| && Fits(s.items[id]) && Passable(op)
    ensures id < |StaleStep(cfg, s, op).items|
    ensures Fits(StaleStep(cfg, s, op).items[id]) <==> !Undercuts(cfg, s, op, id)
  {
    hide V.Created, V.ReviewedAs, V.PendingCount, PlanExit, PlanAdjustment, PlanUndercuts, Held;
    OtherItemsKept(cfg, s, op, id);
    if !op.Opening? && op.id == id {
      match op
      case Exiting(_, seen, quantity, user) => PlanStepIff(s, id, seen, PlanExit(cfg, seen, quantity), None, user);
      case Adjusting(_, seen, delta, loss, correction, user) =>
        PlanStepIff(s, id, seen, PlanAdjustment(cfg, seen, delta, loss, correction), Some(seen.currentQuantity), user);
      case Counting(_, seen, seenAgain, actual, user) =>
        var difference := actual - seen.currentQuantity;
        PlanStepIff(s, id, seenAgain, PlanAdjustment(cfg, seenAgain, difference, None, true), Some(seenAgain.currentQuantity), user);
      case Archiving(_, seen, user) =>
        ArchiveFits(s, id, seen, user);
      case _ =>
    }
  }

  lemma ArchiveFits(s: State, id: nat, seen: Item, user: User)
    requires id < |s.items| && Fits(s.items[id])
    ensures id < |After(s, Archived(s, id, seen, user)).items| && Fits(After(s, Archived(s, id, seen, user)).items[id])
  {
    hide V.Created;
  }

  // ─── Whole runs ───────────────────────────────────────────────────────────

  predicate FitsThroughout(cfg: Config, s: State, ops: seq<StaleOp>, id: nat)
    requires id < |s.items|
    decreases |ops|
  {
    && Fits(s.items[id])
    && (ops == [] || (id < |StaleStep(cfg, s, ops[0]).items| && FitsThroughout(cfg, StaleStep(cfg, s, ops[0]), ops[1..], id)))
  }

  predicate NeverUndercut(cfg: Config, s: State, ops: seq<StaleOp>, id: nat)
    requires id < |s.items|
    decreases |ops|
  {
    ops == [] || (&& !Undercuts(cfg, s, ops[0], id) && id < |StaleStep(cfg, s, ops[0]).items|
                  && NeverUndercut(cfg, StaleStep(cfg, s, ops[0]), ops[1..], id))
  }

  /** Over any steps on any reads, a parked removal fits throughout exactly when no step undercuts it. */
  lemma {:induction false} FitsThroughoutIff(cfg: Config, s: State, ops: seq<StaleOp>, id: nat)
    requires id < |s.items| && Fits(s.items[id]) && forall i :: 0 <= i < |ops| ==> Passable(ops[i])
    ensures FitsThroughout(cfg, s, ops, id) <==> NeverUndercut(cfg, s, ops, id)
    decreases |ops|
  {
    hide StaleStep, Undercuts, Fits, Passable;
    if ops != [] {
      FitsStepIff(cfg, s, ops[0], id);
      if Fits(StaleStep(cfg, s, ops[0]).items[id]) {
        FitsThroughoutIff(cfg, StaleStep(cfg, s, ops[0]), ops[1..], id);
      }
    }
  }

  /** An approval that passes its review comes too late exactly when what it should remove no longer fits. */
  lemma ApprovalShortIff(s: State, id: nat, reviewer: User, comment: Option<string>)
    requires id < |s.items| && AwaitsReview(s.items[id])
    requires V.ReviewedAs(s.requests, Stocked(id), reviewer, comment, V.Approved).Ok?
    ensures ApprovedBy(s, id, s.items[id], reviewer, comment).ReviewedButShort? <==> !Fits(s.items[id])
  {
    hide V.ReviewedAs;
  }

  // ─── An item left without its request ─────────────────────────────────────

  ghost predicate Waits(s: State, id: nat) {
    id < |s.items| && AwaitsReview(s.items[id])
  }

  ghost predicate Unreviewable(s: State, id: nat) {
    Waits(s, id) && V.PendingCount(s.requests, Stocked(id)) == 0
  }

  lemma StuckPlans(cfg: Config, s: State, op: Op, id: nat)
    requires Unreviewable(s, id) && !op.Open? && op.id == id
    ensures var s' := Step(cfg, s, op);
            && |s'.items| == |s.items| && s'.requests == s.requests && AwaitsReview(s'.items[id])
            && s'.items[id].isActive == s.items[id].isActive && s'.items[id].pending == s.items[id].pending
            && s'.items[id].currentQuantity == s.items[id].currentQuantity
                                             + (if s.items[id].isActive then S.Gain(op, id) else 0.0)
  {
    hide PlanExit, PlanAdjustment, V.FindPending, V.PendingCount;
    V.FoundIffCounted(s.requests, Stocked(id));
    if op.Exit? {
      S.PlansRefuse(cfg, s.items[id], 0.0, None, false, op.quantity);
    } else if op.Adjust? {
      S.PlansRefuse(cfg, s.items[id], op.delta, op.loss, op.correction, 1.0);
    }
  }

  /** What an operation may do to the requests: file one for its own item, or review one of it. */
  lemma OtherRequestsKept(cfg: Config, s: State, op: Op, id: nat)
    requires id < |s.items| && (op.Open? || op.id != id)
    ensures var s' := Step(cfg, s, op);
            && id < |s'.items| && s'.items[id] == s.items[id]
            && V.PendingCount(s'.requests, Stocked(id)) == V.PendingCount(s.requests, Stocked(id))
  {
    hide V.Created, V.ReviewedAs, V.PendingCount, PlanExit, PlanAdjustment;
    if !op.Open? && op.id < |s.items| {
      var res, seen := Stocked(op.id), s.items[op.id];
      if op.Approve? {
        V.ReviewEffect(s.requests, res, op.reviewer, op.comment, V.Approved);
      } else if op.Reject? {
        V.ReviewEffect(s.requests, res, op.reviewer, op.comment, V.Rejected);
      } else if op.RequestChanges? {
        V.ReviewEffect(s.requests, res, op.reviewer, op.comment, V.ChangesRequested);
      } else if op.Exit? || op.Adjust? || op.Count? || op.Archive? {
        V.CreateEffect(s.requests, res, op.user, seen.validationStatus, None);
      }
    }
  }

  lemma {:induction false} UnreviewableStays(cfg: Config, s: State, ops: seq<Op>, id: nat)
    requires Unreviewable(s, id)
    ensures Unreviewable(Run(cfg, s, ops), id)
    decreases |ops|
  {
    hide Step, AwaitsReview;
    if ops != [] {
      if ops[0].Open? || ops[0].id != id {
        OtherRequestsKept(cfg, s, ops[0], id);
      } else {
        StuckPlans(cfg, s, ops[0], id);
      }
      UnreviewableStays(cfg, Step(cfg, s, ops[0]), ops[1..], id);
    }
  }

  /**
   An item awaiting review waits for ever, under every serial run, exactly when no request for it is pending; until then
   it is refused every exit, adjustment, count and archiving.
   */
  lemma WaitsForEverIff(cfg: Config, s: State, id: nat)
    requires Waits(s, id)
    ensures (forall ops :: Waits(Run(cfg, s, ops), id)) <==> V.PendingCount(s.requests, Stocked(id)) == 0
  {
    if V.PendingCount(s.requests, Stocked(id)) == 0 {
      forall ops ensures Waits(Run(cfg, s, ops), id) {
        UnreviewableStays(cfg, s, ops, id);
      }
    } else {
      V.FoundIffCounted(s.requests, Stocked(id));
      var pending := V.FindPending(s.requests, Stocked(id)).value;
      var reject := Reject(id, s.requests[pending].submittedBy + 1, None);
      assert [reject][1..] == [];
      assert Run(cfg, s, [reject]) == Run(cfg, Step(cfg, s, reject), []) == Step(cfg, s, reject);
      assert !Waits(Run(cfg, s, [reject]), id);
    }
  }

  // ─── A run ────────────────────────────────────────────────────────────────

  const LOOSE: Config := Config(100.0, 1000.0, 10.0)

  function Shelf(quantity: real, status: Option<V.ValidationStatus>, pending: Option<Parked>): Item {
    Item(quantity, None, None, None, true, status, pending)
  }

  function Spoiled(): Parked {
    Parked(StockLoss, Payload(10.0, Perte, None, false))
  }

  /** A stock of 10 with a loss of all of it parked by user 1. */
  function LossParked(): State {
    State([Shelf(10.0, Some(V.PendingValidation), Some(Spoiled()))], [Movement(0, Entree, 10.0, 0.0, 10.0, 1, None)], [10.0],
          [V.Request(Stocked(0), V.PendingValidation, None, 1, None, None)])
  }

  lemma LossIsParked()
    ensures var filled := Step(LOOSE, State([], [], [], []), Open(Some(10.0), None, 1));
            Step(LOOSE, filled, Adjust(0, -10.0, Some(Perte), false, 1)) == LossParked()
  {
    hide Material;
  }

  lemma StoreIsSound()
    ensures S.Sound(LossParked())
  {
    hide S.Sound, Step;
    var empty := State([], [], [], []);
    S.EmptyStore([]);
    S.SoundStep(LOOSE, empty, Open(Some(10.0), None, 1));
    S.SoundStep(LOOSE, Step(LOOSE, empty, Open(Some(10.0), None, 1)), Adjust(0, -10.0, Some(Perte), false, 1));
    LossIsParked();
  }

  /**
   An exit of 5 decided before the loss was parked lands after it; the loss is then approved, reviewed but not applied,
   and the item waits for ever.
   */
  lemma ApprovalComesTooLate()
    ensures S.Sound(LossParked())
    ensures var s := StaleStep(LOOSE, LossParked(), Exiting(0, Shelf(10.0, None, None), 5.0, 3));
            && |s.items| == 1 && s.items[0].currentQuantity == 5.0
            && var late := ApprovedBy(s, 0, s.items[0], 2, None);
               late.ReviewedButShort? && forall ops :: Waits(Run(LOOSE, late.state, ops), 0)
  {
    StoreIsSound();
    var s := StaleStep(LOOSE, LossParked(), Exiting(0, Shelf(10.0, None, None), 5.0, 3));
    assert PlanExit(LOOSE, Shelf(10.0, None, None), 5.0) == Apply(5.0, true, Sortie);
    assert s.items == [Shelf(5.0, Some(V.PendingValidation), Some(Spoiled()))];
    assert V.FindPending(s.requests, Stocked(0)) == Some(0);
    var late := ApprovedBy(s, 0, s.items[0], 2, None);
    V.CountAppend([], late.state.requests[0], Stocked(0));
    assert late.state.requests == [] + [late.state.requests[0]];
    WaitsForEverIff(LOOSE, late.state, 0);
  }
}
