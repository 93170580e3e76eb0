/** Whose donations the ledger holds, and which calls are turned away. */
module DonationLaws {
  import opened Common
  import opened Donations
  import B = Budget
  import F = Finance
  import L = FinanceLaws
  import E = FinanceEffects

  /** An active donor with an active contact, giving to no campaign or to an open one. */
  predicate Eligible(c: Call) {
    c.donor == Some(Donor(true, true)) && (c.campaign == NoCampaign || c.campaign == Open)
  }

  /** Donation i is what the call p asked for, and its income row names the call's donor. */
  ghost predicate Made(w: World, p: nat, i: nat) {
    && p in w.calls && w.calls[p].phase == Returned(i) && Eligible(w.calls[p].call) && i < |w.db.donations|
    && var c, d := w.calls[p].call, w.db.donations[i];
       && d.amountXof == c.amountXof && d.date == c.date && d.idempotencyKey == c.key
       && F.Find(w.db.rows, d.transactionId).Some?
       && F.Find(w.db.rows, d.transactionId).value.donorName == Some(c.donorName)
       && F.Find(w.db.rows, d.transactionId).value.anonymousDonor == Some(false)
  }

  ghost predicate MadeByOne(w: World, i: nat) {
    exists p :: Made(w, p, i)
  }

  /** From the n-th on, every donation was made by a call; no call writes unless it may; only keyed calls share one. */
  ghost predicate Accounted(w: World, n: nat) {
    && Sound(w)
    && (forall i: nat :: n <= i < |w.db.donations| ==> MadeByOne(w, i))
    && (forall p :: p in w.calls && w.calls[p].phase.Writing? ==> Eligible(w.calls[p].call))
    && (forall p, q :: p in w.calls && q in w.calls && p != q && w.calls[p].phase.Returned? && w.calls[p].phase == w.calls[q].phase ==>
          Keyed(w.calls[p].call.key))
  }

  /** Donations from n on are untouched by the step, and so are the calls that made them. */
  lemma MadeStays(w: World, m: Move, i: nat)
    requires Sound(w) && i < |w.db.donations| && MadeByOne(w, i) && (m.Other? ==> !m.op.Donate?)
    ensures MadeByOne(Next(w, m), i)
  {
    hide L.Paired, Honest, Write, F.Step, L.Backs;
    var w' := Next(w, m);
    var p :| Made(w, p, i);
    SoundNext(w, m);
    if m.Other? {
      E.DonorKept(w.db, m.op, i);
    } else if m.Advance? && m.p in w.calls && w.calls[m.p].phase.Writing? {
      var c := w.calls[m.p].call;
      WriteIsDonate(w.db, c);
      E.DonorKept(w.db, F.Donate(c.amountXof, c.date, c.donorName, c.key), i);
    }
    assert w'.calls[p].phase == w.calls[p].phase && w'.calls[p].call == w.calls[p].call;
    assert w'.db.donations[i] == w.db.donations[i];
    assert Made(w', p, i);
  }

  lemma WriteMakes(w: World, p: nat)
    requires Sound(w) && p in w.calls && w.calls[p].phase.Writing? && Eligible(w.calls[p].call)
    ensures var w' := Next(w, Advance(p));
            && |w.db.donations| <= |w'.db.donations| <= |w.db.donations| + 1
            && (|w'.db.donations| > |w.db.donations| ==> MadeByOne(w', |w.db.donations|))
  {
    hide Sound;
    var w' := Next(w, Advance(p));
    if Write(w.db, w.calls[p].call).Ok? {
      assert Made(w', p, |w.db.donations|);
    }
  }

  lemma OwnDonation(w: World, m: Move, p: nat, q: nat)
    requires Sound(w) && p in w.calls && q in w.calls && p != q
    requires w.calls[p].phase.Returned? && w.calls[p].phase == w.calls[q].phase ==> Keyed(w.calls[p].call.key)
    ensures var w' := Next(w, m);
            p in w'.calls && q in w'.calls && w'.calls[p].phase.Returned? && w'.calls[p].phase == w'.calls[q].phase ==>
              Keyed(w'.calls[p].call.key)
  {
    hide L.Paired, Write, F.Step;
    assert Honest(w.db, w.calls[p]) && Honest(w.db, w.calls[q]);
  }

  lemma AccountedNext(w: World, m: Move, n: nat)
    requires Accounted(w, n) && (m.Other? ==> !m.op.Donate?)
    ensures Accounted(Next(w, m), n)
  {
    hide Sound, MadeByOne, Eligible, F.Step, Write;
    var w' := Next(w, m);
    SoundNext(w, m);
    DonationsOnlyWritten(w, m);
    if m.Advance? && m.p in w.calls {
      CheckedIsEligible(w.db, w.calls[m.p]);
      if w.calls[m.p].phase.Writing? { WriteMakes(w, m.p); }
    }
    forall i: nat | n <= i < |w'.db.donations| ensures MadeByOne(w', i) {
      if i < |w.db.donations| { MadeStays(w, m, i); }
    }
    forall p, q | p in w'.calls && q in w'.calls && p != q && w'.calls[p].phase.Returned? && w'.calls[p].phase == w'.calls[q].phase
      ensures Keyed(w'.calls[p].call.key)
    {
      OwnDonation(w, m, p, q);
    }
  }

  lemma CheckedIsEligible(db: F.State, f: InFlight)
    ensures f.phase.Checking? && PhaseAfter(db, f).Writing? ==> Eligible(f.call)
    ensures !f.phase.Checking? ==> !PhaseAfter(db, f).Writing?
    ensures f.phase.Writing? ==> PhaseAfter(db, f) in {Returned(|db.donations|), Recovering, Failed(Conflict)}
  {
  }

  lemma DonationsOnlyWritten(w: World, m: Move)
    requires m.Other? ==> !m.op.Donate?
    ensures m.Other? || m.Arrive? || (m.Advance? && (m.p in w.calls ==> !w.calls[m.p].phase.Writing?)) ==>
              Next(w, m).db.donations == w.db.donations
  {
    hide F.Step;
    if m.Other? {
      L.DonationsAfter(w.db, m.op);
    }
  }

  /**
   Over every interleaving of calls with other finance operations, every new donation is what some call asked for, made
   for an active donor and an open campaign or none, with its donor on its row; and without a key no two calls share one.
   */
  lemma {:induction false} EveryGiftIsAccounted(w: World, moves: seq<Move>, n: nat)
    requires Accounted(w, n) && forall i :: 0 <= i < |moves| ==> moves[i].Other? ==> !moves[i].op.Donate?
    ensures Accounted(Trace(w, moves), n)
    decreases |moves|
  {
    hide Next, Accounted;
    if moves != [] {
      AccountedNext(w, moves[0], n);
      EveryGiftIsAccounted(Next(w, moves[0]), moves[1..], n);
    }
  }

  lemma NoCallYet(db: F.State)
    requires L.Paired(db)
    ensures Accounted(World(db, map[]), |db.donations|)
  {
  }

  // ─── One call alone ───────────────────────────────────────────────────────

  /** The first thing wrong with a call: its donor, then its campaign. */
  predicate Ineligible(c: Call, error: Error) {
    if c.donor.None? then error == NotFound
    else if c.donor != Some(Donor(true, true)) then error == BadRequest
    else (c.campaign == Missing && error == NotFound) || (c.campaign == Closed && error == BadRequest)
  }

  /** Everything a call alone can come to: an earlier donation, a refusal, or its own donation with its row. */
  lemma AloneDecides(db: F.State, c: Call)
    requires L.Paired(db)
    ensures var known := exists i :: 0 <= i < |db.donations| && db.donations[i].idempotencyKey == c.key && c.key.Some?;
            var a := RunAlone(db, c);
            if known && c.key != Some("") then
              && a.db == db && a.result.Returned? && a.result.donation < |db.donations|
              && db.donations[a.result.donation].idempotencyKey == c.key
            else if !Eligible(c) then a.db == db && a.result.Failed? && Ineligible(c, a.result.error)
            else if known then a == Alone(db, Failed(Conflict))
            else
              && a.result == Returned(|db.donations|) && |a.db.rows| == |db.rows| + 1
              && a.db.donations == db.donations + [F.Donation(|db.rows|, c.amountXof, c.date, c.key)]
              && a.db.lines == db.lines && a.db.requests == db.requests && a.db.rows[..|db.rows|] == db.rows
              && var t := a.db.rows[|db.rows|];
                 t.Some? && t.value.kind == B.Recette && t.value.category == B.Don && t.value.amountXof == c.amountXof
                 && t.value.date == c.date && t.value.status == B.Valide && t.value.donorName == Some(c.donorName)
  {
    hide F.Donated, L.Paired;
    E.DonationEffect(db, c.amountXof, c.date, c.donorName, c.key);
  }
}
