/**
 Donations and their transactions under every interleaving of the finance actions: an edit that checked the donation
 link on an earlier read still cannot pull the two apart.
 */
module DonationRaceLaws {
  import opened Budget
  import opened Finance
  import opened FinanceLaws
  import opened ExpenseRaces
  import V = Validations

  /** An action in flight on a donation's row saw the link, and saw the row's financial fields as they still are. */
  predicate SawDonation(rows: Table, proc: Proc) {
    && proc.Acting? && proc.linked && Find(rows, proc.id).Some?
    && proc.seen.kind == Recette && proc.seen.workflow.None?
    && SameFinancials(rows[proc.id].value, proc.seen)
  }

  ghost predicate Knows(db: State, proc: Proc) {
    proc.id < |db.rows| && (Linked(db.donations, proc.id) ==> SawDonation(db.rows, proc))
  }

  ghost predicate Anchored(w: World) {
    Paired(w.db) && forall p :: p in w.procs ==> Knows(w.db, w.procs[p])
  }

  lemma LinkedRow(db: State, id: nat) returns (i: nat)
    requires Paired(db) && Linked(db.donations, id)
    ensures i < |db.donations| && db.donations[i].transactionId == id && Backs(db.rows, db.donations[i])
  {
    i :| 0 <= i < |db.donations| && db.donations[i].transactionId == id;
  }

  /** A write of one row that leaves donations alone, and a donation's row alike in what the donation records. */
  ghost predicate Gentle(before: State, after: State, id: nat) {
    && after.donations == before.donations
    && id < |before.rows| == |after.rows|
    && (forall j :: 0 <= j < |before.rows| && j != id ==> after.rows[j] == before.rows[j])
    && (Linked(before.donations, id) ==>
          && Find(before.rows, id).Some? && Find(after.rows, id).Some?
          && SameFinancials(before.rows[id].value, after.rows[id].value)
          && after.rows[id].value.workflow == before.rows[id].value.workflow)
  }

  lemma WriteIsGentle(db: State, a: Proc)
    requires Paired(db) && Knows(db, a) && a.Acting?
    ensures var r := Write(db, a.action, a.id, a.seen, a.linked);
            r.Ok? ==> Gentle(db, r.value, a.id)
  {
    hide Paired, V.Created, V.ReviewedAs, BucketOf, Linked;
  }

  lemma CommitIsGentle(db: State, a: Proc)
    requires Paired(db) && Knows(db, a) && a.Approving?
    ensures var r := WriteAndReview(db, a.id, Approved, a.user, a.comment, V.Approved);
            r.Ok? ==> Gentle(db, r.value, a.id)
  {
    hide Paired, V.ReviewedAs, BucketOf, Linked;
  }

  lemma GentleKeepsPairs(before: State, after: State, id: nat)
    requires Paired(before) && Gentle(before, after, id)
    ensures Paired(after)
  {
    forall i | 0 <= i < |before.donations| ensures Backs(after.rows, after.donations[i]) {
      assert Backs(before.rows, before.donations[i]);
      if before.donations[i].transactionId == id {
        assert Linked(before.donations, id);
      }
    }
  }

  lemma GentleKeepsKnowledge(before: State, after: State, id: nat, proc: Proc)
    requires Gentle(before, after, id) && Knows(before, proc)
    ensures Knows(after, proc)
  {
    hide Linked;
  }

  lemma AnchoredWrite(w: World, w': World, id: nat)
    requires Anchored(w) && Gentle(w.db, w'.db, id)
    requires forall p :: p in w'.procs ==> p in w.procs && w'.procs[p] == w.procs[p]
    ensures Anchored(w')
  {
    hide Gentle, Knows, Paired;
    GentleKeepsPairs(w.db, w'.db, id);
    forall p | p in w'.procs ensures Knows(w'.db, w'.procs[p]) {
      GentleKeepsKnowledge(w.db, w'.db, id, w.procs[p]);
    }
  }

  lemma AnchoredAtomic(w: World, op: Op)
    requires Anchored(w) && AtomicAllowed(w, op)
    ensures Anchored(w.(db := Step(w.db, op)))
  {
    hide Paired, Step, AtomicAllowed, BucketOf;
    var db' := Step(w.db, op);
    PairedKept(w.db, op);
    OnlyTouched(w.db, op);
    forall p | p in w.procs ensures Knows(db', w.procs[p]) {
      KnowsAtomic(w, op, w.procs[p]);
    }
  }

  lemma KnowsAtomic(w: World, op: Op, proc: Proc)
    requires Paired(w.db) && Knows(w.db, proc) && AtomicAllowed(w, op)
    ensures Knows(Step(w.db, op), proc)
  {
    hide Paired, BucketOf, V.Created, V.ReviewedAs, CategoryAvailability;
    var db' := Step(w.db, op);
    OnlyTouched(w.db, op);
    DonationsAfter(w.db, op);
    if Linked(db'.donations, proc.id) {
      var i :| 0 <= i < |db'.donations| && db'.donations[i].transactionId == proc.id;
      assert i < |w.db.donations|;
      assert w.db.donations[i].transactionId == proc.id;
    }
  }

  lemma AnchoredBegin(w: World, m: Move)
    requires Anchored(w) && (m.Begin? || m.BeginApproval?)
    ensures Anchored(Next(w, m))
  {
    hide Paired, BucketOf;
    if Find(w.db.rows, m.id).Some? && Linked(w.db.donations, m.id) {
      var i := LinkedRow(w.db, m.id);
    }
  }

  lemma AnchoredNext(w: World, m: Move)
    requires Anchored(w)
    ensures Anchored(Next(w, m)) && w.db.donations <= Next(w, m).db.donations
  {
    hide Paired, BucketOf, Sum, Step, Write, WriteAndReview, Gentle, Knows, AtomicAllowed;
    match m
    case Begin(_, _, _) => AnchoredBegin(w, m);
    case BeginApproval(_, _, _, _) => AnchoredBegin(w, m);
    case Finish(p) =>
      if p in w.procs && w.procs[p].Acting? {
        var a := w.procs[p];
        WriteIsGentle(w.db, a);
        var r := Write(w.db, a.action, a.id, a.seen, a.linked);
        if r.Ok? {
          DonationsUntouched(w.db, r.value, a.id);
          AnchoredWrite(w, World(r.value, w.procs - {p}), a.id);
        }
      }
    case Advance(p) =>
      if p in w.procs && w.procs[p].Approving? {
        AnchoredAdvance(w, p);
      }
    case Atomic(op) =>
      if AtomicAllowed(w, op) {
        PairedKept(w.db, op);
        AnchoredAtomic(w, op);
      }
    case Abandon(_) =>
  }

  lemma DonationsUntouched(before: State, after: State, id: nat)
    requires Gentle(before, after, id)
    ensures after.donations == before.donations
  {
  }

  lemma AnchoredAdvance(w: World, p: nat)
    requires Anchored(w) && p in w.procs && w.procs[p].Approving?
    ensures Anchored(Next(w, Advance(p))) && Next(w, Advance(p)).db.donations == w.db.donations
  {
    hide Paired, BucketOf, Sum, WriteAndReview, Gentle, Linked;
    var a := w.procs[p];
    if a.phase.HasWritten? {
      CommitIsGentle(w.db, a);
      var r := WriteAndReview(w.db, a.id, Approved, a.user, a.comment, V.Approved);
      if r.Ok? {
        DonationsUntouched(w.db, r.value, a.id);
        AnchoredWrite(w, World(r.value, w.procs - {p}), a.id);
      }
    }
  }

  /** With no action in flight, paired donations are all a world needs. */
  lemma IdleWorld(db: State)
    requires Paired(db)
    ensures Anchored(World(db, map[]))
  {
  }

  /**
   In every interleaving, every donation keeps its own transaction, alike in type, category, amount and date: the field
   lock of a donation's row holds even for an edit that made its checks on an earlier read.
   */
  lemma {:induction false} PairedInEveryTrace(w: World, moves: seq<Move>)
    requires Anchored(w)
    ensures Anchored(Trace(w, moves)) && w.db.donations <= Trace(w, moves).db.donations
    decreases |moves|
  {
    hide Anchored, Next;
    if moves != [] {
      AnchoredNext(w, moves[0]);
      PairedInEveryTrace(Next(w, moves[0]), moves[1..]);
    }
  }
}
