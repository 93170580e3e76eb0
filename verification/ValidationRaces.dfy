/**
 validations.service.ts as its unlocked callers use it: a submission looks for a pending request and inserts later, a
 review finds its request and writes later. What concurrent calls keep, and exactly which steps break the rest.
 */
module ValidationRaces {
  import opened Common
  import opened Validations

  /** A call between its read and its write. */
  datatype InFlight =
    | Submitting(res: Resource, user: User, previous: Option<ValidationStatus>, comment: Option<string>)
    | Reviewing(index: nat, seen: Request, user: User, comment: Option<string>, verdict: ValidationStatus)

  datatype World = World(requests: Requests, calls: map<nat, InFlight>)

  datatype Move =
    | BeginSubmit(p: nat, res: Resource, user: User, previous: Option<ValidationStatus>, comment: Option<string>)
    | BeginReview(p: nat, res: Resource, user: User, comment: Option<string>, verdict: ValidationStatus)
    | Finish(p: nat)

  function Inserted(c: InFlight): Request
    requires c.Submitting?
  {
    Request(c.res, PendingValidation, c.previous, c.user, None, c.comment)
  }

  /** The update of the row found earlier, on the row as it is. */
  function Written(row: Request, c: InFlight): Request
    requires c.Reviewing?
  {
    row.(status := c.verdict, previousStatus := Some(c.seen.status), reviewedBy := Some(c.user),
         comment := if c.comment.Some? then c.comment else c.seen.comment)
  }

  function Next(w: World, m: Move): World {
    match m
    case BeginSubmit(p, res, user, previous, comment) =>
      if p in w.calls || FindPending(w.requests, res).Some? then w
      else w.(calls := w.calls[p := Submitting(res, user, previous, comment)])
    case BeginReview(p, res, user, comment, verdict) =>
      var found := FindPending(w.requests, res);
      if p in w.calls || found.None? || w.requests[found.value].submittedBy == user then w
      else w.(calls := w.calls[p := Reviewing(found.value, w.requests[found.value], user, comment, verdict)])
    case Finish(p) =>
      if p !in w.calls then w
      else
        match w.calls[p]
        case Submitting(_, _, _, _) => World(w.requests + [Inserted(w.calls[p])], w.calls - {p})
        case Reviewing(i, _, _, _, _) =>
          if i >= |w.requests| then w
          else World(w.requests[i := Written(w.requests[i], w.calls[p])], w.calls - {p})
  }

  function Trace(w: World, moves: seq<Move>): World
    decreases |moves|
  {
    if moves == [] then w else Next(Trace(w, moves[..|moves| - 1]), moves[|moves| - 1])
  }

  predicate LegalMove(m: Move) {
    m.BeginReview? ==> m.verdict in {Approved, Rejected, ChangesRequested}
  }

  predicate LegalMoves(moves: seq<Move>) {
    forall i :: 0 <= i < |moves| ==> LegalMove(moves[i])
  }

  /** Every review in flight was begun by the service: its row exists, and it passes a verdict. */
  ghost predicate Sound(w: World) {
    forall p :: p in w.calls && w.calls[p].Reviewing? ==>
      w.calls[p].index < |w.requests| && w.calls[p].verdict != PendingValidation
      && w.calls[p].user != w.calls[p].seen.submittedBy && w.calls[p].seen.submittedBy == w.requests[w.calls[p].index].submittedBy
  }

  lemma SoundNext(w: World, m: Move)
    requires Sound(w) && LegalMove(m)
    ensures Sound(Next(w, m))
  {
  }

  // ─── Alone, a call is the serial operation ────────────────────────────────

  lemma AloneIsSerial(w: World, p: nat, op: Op)
    requires p !in w.calls
    ensures var begin := if op.Submit? then BeginSubmit(p, op.res, op.user, op.previous, op.comment)
                         else BeginReview(p, op.res, op.user, op.comment, op.verdict);
            Next(Next(w, begin), Finish(p)).requests == Step(w.requests, op)
  {
  }

  // ─── At most one pending request ──────────────────────────────────────────

  /** An insertion for a resource that has had a request inserted since the check, still pending. */
  predicate Duplicates(w: World, m: Move, res: Resource) {
    && m.Finish? && m.p in w.calls && w.calls[m.p].Submitting? && w.calls[m.p].res == res
    && PendingCount(w.requests, res) > 0
  }

  lemma OnePendingStepIff(w: World, m: Move, res: Resource)
    requires Sound(w) && PendingCount(w.requests, res) <= 1
    ensures PendingCount(Next(w, m).requests, res) <= 1 <==> !Duplicates(w, m, res)
  {
    hide PendingCount, FindPending;
    if m.Finish? && m.p in w.calls {
      var c := w.calls[m.p];
      match c
      case Submitting(_, _, _, _) => CountAppend(w.requests, Inserted(c), res);
      case Reviewing(i, _, _, _, _) => CountUpdate(w.requests, i, Written(w.requests[i], c), res);
    }
  }

  predicate OneAt(w: World, moves: seq<Move>, k: nat, res: Resource)
    requires k <= |moves|
  {
    PendingCount(Trace(w, moves[..k]).requests, res) <= 1
  }

  predicate DuplicatesAt(w: World, moves: seq<Move>, k: nat, res: Resource)
    requires k < |moves|
  {
    Duplicates(Trace(w, moves[..k]), moves[k], res)
  }

  lemma {:induction false} SoundTrace(w: World, moves: seq<Move>)
    requires Sound(w) && LegalMoves(moves)
    ensures Sound(Trace(w, moves))
    decreases |moves|
  {
    hide Sound, Next, LegalMove;
    if moves != [] {
      SoundTrace(w, moves[..|moves| - 1]);
      SoundNext(Trace(w, moves[..|moves| - 1]), moves[|moves| - 1]);
    }
  }

  lemma OneAtNext(w: World, moves: seq<Move>, k: nat, res: Resource)
    requires Sound(w) && LegalMoves(moves) && k < |moves| && OneAt(w, moves, k, res)
    ensures OneAt(w, moves, k + 1, res) <==> !DuplicatesAt(w, moves, k, res)
  {
    hide Sound, Next, LegalMove, Duplicates, PendingCount;
    assert moves[..k + 1][..k] == moves[..k];
    SoundTrace(w, moves[..k]);
    OnePendingStepIff(Trace(w, moves[..k]), moves[k], res);
  }

  lemma {:induction false} OneUpTo(w: World, moves: seq<Move>, k: nat, res: Resource)
    requires Sound(w) && LegalMoves(moves) && PendingCount(w.requests, res) <= 1 && k <= |moves|
    requires forall i :: 0 <= i < k ==> !DuplicatesAt(w, moves, i, res)
    ensures OneAt(w, moves, k, res)
    decreases k
  {
    hide Sound, LegalMoves, DuplicatesAt;
    if k > 0 {
      OneUpTo(w, moves, k - 1, res);
      assert !DuplicatesAt(w, moves, k - 1, res);
      OneAtNext(w, moves, k - 1, res);
    }
  }

  /**
   However concurrent calls interleave, a resource has at most one pending request throughout exactly when no submission
   inserts while one is pending.
   */
  lemma OnePendingIff(w: World, moves: seq<Move>, res: Resource)
    requires Sound(w) && LegalMoves(moves) && PendingCount(w.requests, res) <= 1
    ensures (forall k :: 0 <= k <= |moves| ==> OneAt(w, moves, k, res)) <==>
            (forall k :: 0 <= k < |moves| ==> !DuplicatesAt(w, moves, k, res))
  {
    hide Sound, LegalMoves, DuplicatesAt, OneAt;
    if forall k :: 0 <= k <= |moves| ==> OneAt(w, moves, k, res) {
      forall k | 0 <= k < |moves| ensures !DuplicatesAt(w, moves, k, res) {
        assert OneAt(w, moves, k, res) && OneAt(w, moves, k + 1, res);
        OneAtNext(w, moves, k, res);
      }
    }
    if forall k :: 0 <= k < |moves| ==> !DuplicatesAt(w, moves, k, res) {
      forall k | 0 <= k <= |moves| ensures OneAt(w, moves, k, res) {
        OneUpTo(w, moves, k, res);
      }
    }
  }

  // ─── Reviewed requests ────────────────────────────────────────────────────

  /** A review written over one that came first, by another person or to another verdict. */
  predicate Overrules(w: World, m: Move, i: nat)
    requires i < |w.requests|
  {
    && m.Finish? && m.p in w.calls && w.calls[m.p].Reviewing? && w.calls[m.p].index == i
    && (w.calls[m.p].verdict != w.requests[i].status || Some(w.calls[m.p].user) != w.requests[i].reviewedBy)
  }

  /** A reviewed request keeps its verdict and its reviewer exactly when no late review overrules it; authorship is fixed. */
  lemma ReviewStandsIff(w: World, m: Move, i: nat)
    requires i < |w.requests| && w.requests[i].status != PendingValidation
    ensures i < |Next(w, m).requests|
    ensures var r, r' := w.requests[i], Next(w, m).requests[i];
            && r'.resource == r.resource && r'.submittedBy == r.submittedBy
            && (r'.status == r.status && r'.reviewedBy == r.reviewedBy <==> !Overrules(w, m, i))
  {
  }

  predicate ReviewedAt(w: World, i: nat) {
    i < |w.requests| && w.requests[i].status != PendingValidation
  }

  /** A call that will write request i. */
  predicate Targets(c: InFlight, i: nat) {
    c.Reviewing? && c.index == i
  }

  /** Every review of request i still in flight carries the verdict and the reviewer it already has. */
  ghost predicate Unopposed(w: World, i: nat)
    requires i < |w.requests|
  {
    forall p :: p in w.calls && Targets(w.calls[p], i) ==>
      w.calls[p].verdict == w.requests[i].status && Some(w.calls[p].user) == w.requests[i].reviewedBy
  }

  ghost predicate Untargeted(w: World, i: nat) {
    forall p :: p in w.calls ==> !Targets(w.calls[p], i)
  }

  /** After these moves request i still has its verdict and its reviewer. */
  ghost predicate Stands(w: World, moves: seq<Move>, i: nat)
    requires i < |w.requests|
  {
    var after := Trace(w, moves).requests;
    i < |after| && after[i].status == w.requests[i].status && after[i].reviewedBy == w.requests[i].reviewedBy
  }

  /** A reviewed request is never picked up again, so opposition can only come from what is already in flight. */
  lemma UnopposedNext(w: World, m: Move, i: nat)
    requires ReviewedAt(w, i) && Unopposed(w, i)
    ensures ReviewedAt(Next(w, m), i) && Unopposed(Next(w, m), i)
    ensures var r, r' := w.requests[i], Next(w, m).requests[i]; r'.status == r.status && r'.reviewedBy == r.reviewedBy
    ensures Untargeted(w, i) ==> Untargeted(Next(w, m), i) && Next(w, m).requests[i] == w.requests[i]
  {
  }

  lemma {:induction false} UnopposedTrace(w: World, moves: seq<Move>, i: nat)
    requires ReviewedAt(w, i) && Unopposed(w, i)
    ensures ReviewedAt(Trace(w, moves), i) && Unopposed(Trace(w, moves), i) && Stands(w, moves, i)
    ensures Untargeted(w, i) ==> Untargeted(Trace(w, moves), i) && Trace(w, moves).requests[i] == w.requests[i]
    decreases |moves|
  {
    hide Next, Targets;
    if moves != [] {
      UnopposedTrace(w, moves[..|moves| - 1], i);
      UnopposedNext(Trace(w, moves[..|moves| - 1]), moves[|moves| - 1], i);
    }
  }

  /**
   The verdict and the reviewer of a reviewed request are final, whatever calls come and however they interleave, exactly
   when every review of it still in flight carries that verdict and that reviewer.
   */
  lemma ReviewIsFinalIff(w: World, i: nat)
    requires ReviewedAt(w, i)
    ensures (forall moves :: Stands(w, moves, i)) <==> Unopposed(w, i)
  {
    if Unopposed(w, i) {
      forall moves ensures Stands(w, moves, i) {
        UnopposedTrace(w, moves, i);
      }
    } else {
      var p :| p in w.calls && Targets(w.calls[p], i)
            && !(w.calls[p].verdict == w.requests[i].status && Some(w.calls[p].user) == w.requests[i].reviewedBy);
      var moves := [Finish(p)];
      assert moves[..0] == [];
      assert Trace(w, moves) == Next(w, Finish(p));
      assert !Stands(w, moves, i);
    }
  }

  /** With no review of it in flight, a reviewed request is final in every column. */
  lemma RowIsFinal(w: World, i: nat, moves: seq<Move>)
    requires ReviewedAt(w, i) && Untargeted(w, i)
    ensures i < |Trace(w, moves).requests| && Trace(w, moves).requests[i] == w.requests[i]
  {
    UnopposedTrace(w, moves, i);
  }

  /** Whatever interleaves, nobody's review of a submission of their own is ever written. */
  lemma {:induction false} NoSelfReview(w: World, moves: seq<Move>)
    requires Sound(w) && LegalMoves(moves) && forall i :: 0 <= i < |w.requests| ==> Independent(w.requests[i])
    ensures forall i :: 0 <= i < |Trace(w, moves).requests| ==> Independent(Trace(w, moves).requests[i])
    decreases |moves|
  {
    if moves != [] {
      NoSelfReview(w, moves[..|moves| - 1]);
      SoundTrace(w, moves[..|moves| - 1]);
    }
  }

  predicate Independent(r: Request) {
    r.reviewedBy.Some? ==> r.reviewedBy.value != r.submittedBy
  }

  // ─── Two runs ─────────────────────────────────────────────────────────────

  const ITEM: Resource := Resource(StockItem, 0)

  /** Two submissions check before either inserts: both are pending. */
  lemma TwoPending()
    ensures var w := Trace(World([], map[]), [BeginSubmit(0, ITEM, 1, None, None), BeginSubmit(1, ITEM, 2, None, None),
                                              Finish(0), Finish(1)]);
            PendingCount(w.requests, ITEM) == 2
  {
    var moves := [BeginSubmit(0, ITEM, 1, None, None), BeginSubmit(1, ITEM, 2, None, None), Finish(0), Finish(1)];
    var first, second := Submitting(ITEM, 1, None, None), Submitting(ITEM, 2, None, None);
    assert moves[..3][..2] == moves[..2] && moves[..2][..1] == moves[..1] && moves[..1][..0] == [];
    assert Trace(World([], map[]), moves[..1]) == World([], map[0 := first]);
    assert Trace(World([], map[]), moves[..2]) == World([], map[0 := first, 1 := second]);
    var w3 := Trace(World([], map[]), moves[..3]);
    assert w3.requests == [Inserted(first)] && w3.calls == map[1 := second];
    var w4 := Trace(World([], map[]), moves);
    assert w4.requests == [Inserted(first)] + [Inserted(second)];
    CountAppend([], Inserted(first), ITEM);
    CountAppend([Inserted(first)], Inserted(second), ITEM);
    assert [] + [Inserted(first)] == [Inserted(first)];
  }

  predicate FirstIs(reqs: Requests, status: ValidationStatus) {
    reqs != [] && reqs[0].status == status
  }

  /** Two people review before either writes: the approval is overruled by the rejection that lands second. */
  lemma ReviewOverruled()
    ensures var submitted := World([Request(ITEM, PendingValidation, None, 1, None, None)], map[]);
            var moves := [BeginReview(0, ITEM, 2, None, Approved), BeginReview(1, ITEM, 3, None, Rejected), Finish(0), Finish(1)];
            && FirstIs(Trace(submitted, moves[..3]).requests, Approved)
            && FirstIs(Trace(submitted, moves).requests, Rejected)
  {
    var seen := Request(ITEM, PendingValidation, None, 1, None, None);
    var w := World([seen], map[]);
    var moves := [BeginReview(0, ITEM, 2, None, Approved), BeginReview(1, ITEM, 3, None, Rejected), Finish(0), Finish(1)];
    var first, second := Reviewing(0, seen, 2, None, Approved), Reviewing(0, seen, 3, None, Rejected);
    assert moves[..3][..2] == moves[..2] && moves[..2][..1] == moves[..1] && moves[..1][..0] == [];
    assert Trace(w, moves[..1]) == World([seen], map[0 := first]);
    assert Trace(w, moves[..2]) == World([seen], map[0 := first, 1 := second]);
    var w3 := Trace(w, moves[..3]);
    assert w3.requests == [Written(seen, first)] && w3.calls == map[1 := second];
  }
}
