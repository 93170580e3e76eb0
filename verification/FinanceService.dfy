/**
 FinancesService and ExpenseWorkflowService as the objects they are: each method reads and overwrites rows step by
 step, and is proved to do what Finance says of the whole operation, refusals and rollbacks included.
 */
module FinanceService {
  import opened Common
  import opened Budget
  import opened Finance
  import L = FinanceLaws
  import V = Validations

  /** What a method may do: the specified new state and the written row, or a refusal that changes nothing. */
  ghost predicate Does(before: State, spec: Outcome<State>, after: State, id: nat, r: Outcome<Transaction>) {
    match spec
    case Ok(s) => after == s && r.Ok? && Find(s.rows, id) == Some(r.value)
    case Fail(e) => after == before && r == Fail(e)
  }

  class FinancesService {
    var rows: Table
    var lines: map<Bucket, nat>
    var donations: seq<Donation>
    const validations: V.ValidationsService

    ghost function State(): State
      reads this, validations
    {
      Finance.State(rows, lines, donations, validations.requests)
    }

    ghost predicate Valid()
      reads this, validations
    {
      L.InOrder(State())
    }

    /** Every operation keeps the books in order; called before it, on the state it starts from. */
    lemma KeepsValid(op: Op)
      ensures Valid() ==> L.InOrder(Step(State(), op))
    {
      if Valid() {
        L.InOrderStep(State(), op);
      }
    }

    constructor (validations: V.ValidationsService)
      ensures this.validations == validations
      ensures State() == Finance.State([], map[], [], validations.requests)
      ensures (forall i: nat :: V.PendingCount(validations.requests, Expense(i)) == 0) ==> Valid()
    {
      rows, lines, donations := [], map[], [];
      this.validations := validations;
      new;
      if forall i: nat :: V.PendingCount(validations.requests, Expense(i)) == 0 {
        L.EmptyBooks(validations.requests);
      }
    }

    /** The guarded write: a refusal means the row is gone or had moved on. */
    method UpdateMany(id: nat, from: Option<WorkflowStatus>, to: WorkflowStatus) returns (r: Outcome<Transaction>)
      modifies this`rows
      ensures match AtomicWrite(old(rows), id, from, to)
              case Ok(written) => rows == written && r.Ok? && Find(rows, id) == Some(r.value)
              case Fail(e) => rows == old(rows) && r == Fail(e)
    {
      if id >= |rows| || rows[id].None? {
        return Fail(NotFound);
      }
      var t := rows[id].value;
      if t.workflow != from {
        return Fail(Conflict);
      }
      t := t.(workflow := Some(to));
      rows := rows[id := Some(t)];
      r := Ok(t);
    }

    /** Runs the guarded write and the new request in one database transaction: a refused request undoes the write. */
    method WriteThenRequest(id: nat, from: Option<WorkflowStatus>, user: User, comment: Option<string>)
      returns (r: Outcome<Transaction>)
      modifies this`rows, validations
      ensures Does(old(State()), WriteAndRequest(old(State()), id, from, user, comment), State(), id, r)
    {
      var snapshot := rows;
      r := UpdateMany(id, from, PendingApproval);
      if r.Ok? {
        var created := validations.Create(Expense(id), user, None, comment);
        if created.Fail? {
          rows := snapshot;
          r := Fail(created.error);
        }
      }
    }

    method WriteThenReview(id: nat, to: WorkflowStatus, user: User, comment: Option<string>, verdict: V.ValidationStatus)
      returns (r: Outcome<Transaction>)
      modifies this`rows, validations
      ensures Does(old(State()), WriteAndReview(old(State()), id, to, user, comment, verdict), State(), id, r)
    {
      hide V.ReviewedAs;
      var snapshot := rows;
      r := UpdateMany(id, Some(PendingApproval), to);
      if r.Ok? {
        var reviewed := validations.ReviewPending(Expense(id), user, comment, verdict);
        if reviewed.Fail? {
          rows := snapshot;
          r := Fail(reviewed.error);
        }
      }
    }

    method Submit(id: nat, user: User, comment: Option<string>) returns (r: Outcome<Transaction>)
      modifies this`rows, validations
      ensures Does(old(State()), Submitted(old(State()), id, user, comment), State(), id, r)
      ensures old(Valid()) ==> Valid()
    {
      hide L.InOrder;
      KeepsValid(Finance.Submit(id, user, comment));
      var t := Find(rows, id);
      if t.None? {
        return Fail(NotFound);
      }
      if t.value.kind != Depense {
        return Fail(BadRequest);
      }
      if !CanTransition(t.value.workflow, PendingApproval) {
        return Fail(Conflict);
      }
      r := WriteThenRequest(id, None, user, comment);
    }

    lemma ValidGrants(id: nat, user: User, comment: Option<string>)
      ensures Valid() ==> (ApprovedBy(State(), id, user, comment).Ok? <==> L.Grantable(State(), id, user))
    {
      if Valid() {
        L.ApprovalGrantedIff(State(), id, user, comment);
      }
    }

    method Approve(id: nat, user: User, comment: Option<string>) returns (r: Outcome<Transaction>)
      modifies this`rows, validations
      ensures Does(old(State()), ApprovedBy(old(State()), id, user, comment), State(), id, r)
      ensures old(Valid()) ==> Valid()
      ensures old(Valid()) ==> (r.Ok? <==> L.Grantable(old(State()), id, user))
    {
      hide L.InOrder, L.Grantable;
      KeepsValid(Finance.Approve(id, user, comment));
      ValidGrants(id, user, comment);
      hide BucketOf, Sum;
      var t := Find(rows, id);
      if t.None? {
        return Fail(NotFound);
      }
      if !CanTransition(t.value.workflow, Approved) {
        return Fail(Conflict);
      }
      var b := BucketOf(t.value);
      if b !in lines {
        return Fail(NoBudgetLine);
      }
      var seen := CategoryAvailability(rows, b);
      var availableXof := lines[b] - seen.reservedXof - seen.consumedXof;
      if t.value.amountXof > availableXof {
        return Fail(InsufficientBudget);
      }
      r := WriteThenReview(id, Approved, user, comment, V.Approved);
    }

    method Reject(id: nat, user: User, reason: string) returns (r: Outcome<Transaction>)
      modifies this`rows, validations
      ensures Does(old(State()), RejectedBy(old(State()), id, user, reason), State(), id, r)
      ensures old(Valid()) ==> Valid()
    {
      hide L.InOrder;
      KeepsValid(Finance.Reject(id, user, reason));
      if Blank(reason) {
        return Fail(BadRequest);
      }
      var t := Find(rows, id);
      if t.None? {
        return Fail(NotFound);
      }
      if !CanTransition(t.value.workflow, Rejected) {
        return Fail(Conflict);
      }
      r := WriteThenReview(id, Rejected, user, Some(reason), V.Rejected);
    }

    method Resubmit(id: nat, user: User, comment: Option<string>) returns (r: Outcome<Transaction>)
      modifies this`rows, validations
      ensures Does(old(State()), Resubmitted(old(State()), id, user, comment), State(), id, r)
      ensures old(Valid()) ==> Valid()
    {
      hide L.InOrder;
      KeepsValid(Finance.Resubmit(id, user, comment));
      var t := Find(rows, id);
      if t.None? {
        return Fail(NotFound);
      }
      if t.value.workflow != Some(Rejected) {
        return Fail(Conflict);
      }
      r := WriteThenRequest(id, Some(Rejected), user, comment);
    }

    /** complete and cancel. */
    method PerformTransition(id: nat, to: WorkflowStatus) returns (r: Outcome<Transaction>)
      modifies this`rows
      ensures Does(old(State()), Moved(old(State()), id, to), State(), id, r)
      ensures old(Valid()) && (to == Completed || to == Cancelled) ==> Valid()
    {
      hide L.InOrder;
      KeepsValid(if to == Completed then Complete(id) else Cancel(id));
      var t := Find(rows, id);
      if t.None? {
        return Fail(NotFound);
      }
      if !CanTransition(t.value.workflow, to) {
        return Fail(Conflict);
      }
      var moved := t.value.(workflow := Some(to));
      rows := rows[id := Some(moved)];
      r := Ok(moved);
    }

    method CreateTransaction(draft: Draft) returns (r: Outcome<nat>)
      modifies this`rows
      ensures match Recorded(old(State()), draft)
              case Ok(s) => State() == s && r == Ok(|old(rows)|)
              case Fail(e) => State() == old(State()) && r == Fail(e)
      ensures old(Valid()) ==> Valid()
    {
      hide L.InOrder;
      KeepsValid(Create(draft));
      if draft.kind == Recette && draft.supplier.Some? {
        return Fail(BadRequest);
      }
      var supplierContact: Option<nat> := None;
      if draft.kind == Depense && draft.supplier.Some? {
        if !draft.supplier.value.Assignable() {
          return Fail(BadRequest);
        }
        supplierContact := Some(draft.supplier.value.id);
      }
      r := Ok(|rows|);
      rows := rows + [Some(Transaction(draft.kind, draft.category, draft.amountXof, draft.date, draft.status, None,
                                       draft.donorName, draft.anonymousDonor, supplierContact))];
    }

    method UpdateTransaction(id: nat, patch: Patch) returns (r: Outcome<Transaction>)
      modifies this`rows
      ensures Does(old(State()), Updated(old(State()), id, patch), State(), id, r)
      ensures old(Valid()) ==> Valid()
    {
      hide L.InOrder;
      KeepsValid(Update(id, patch));
      var existing := Find(rows, id);
      if existing.None? {
        return Fail(NotFound);
      }
      if Or(patch.kind, existing.value.kind) == Recette && patch.supplier.Connect? {
        return Fail(BadRequest);
      }
      if FinanciallyLocked(existing.value) && TouchesFinancial(existing.value, patch) {
        return Fail(Conflict);
      }
      if Linked(donations, id) {
        if TouchesFinancial(existing.value, patch) || TouchesDonor(existing.value, patch) {
          return Fail(Conflict);
        }
      }
      if patch.supplier.Connect? && !patch.supplier.contact.Assignable() {
        return Fail(BadRequest);
      }
      var updated := Patched(existing.value, patch);
      rows := rows[id := Some(updated)];
      r := Ok(updated);
    }

    method DeleteTransaction(id: nat) returns (r: Outcome<()>)
      modifies this`rows
      ensures match Deleted(old(State()), id)
              case Ok(s) => State() == s && r == Ok(())
              case Fail(e) => State() == old(State()) && r == Fail(e)
      ensures old(Valid()) ==> Valid()
    {
      hide L.InOrder;
      KeepsValid(Delete(id));
      if Find(rows, id).None? {
        return Fail(NotFound);
      }
      if Linked(donations, id) {
        return Fail(Conflict);
      }
      rows := rows[id := None];
      r := Ok(());
    }

    method UpsertBudgetLine(b: Bucket, budgetXof: nat)
      modifies this`lines
      ensures State() == LineSet(old(State()), b, budgetXof)
      ensures old(Valid()) ==> Valid()
    {
      hide L.InOrder;
      KeepsValid(SetLine(b, budgetXof));
      lines := lines[b := budgetXof];
    }

    method DeleteBudgetLine(b: Bucket) returns (r: Outcome<()>)
      modifies this`lines
      ensures match LineDeleted(old(State()), b)
              case Ok(s) => State() == s && r == Ok(())
              case Fail(e) => State() == old(State()) && r == Fail(e)
      ensures old(Valid()) ==> Valid()
    {
      hide L.InOrder;
      KeepsValid(DeleteLine(b));
      if b !in lines {
        return Fail(NotFound);
      }
      lines := lines - {b};
      r := Ok(());
    }

    /** The paired inserts of DonationsService.create: the unique key is enforced on the second, which undoes the first. */
    method RecordDonation(amountXof: nat, date: int, donorName: string, key: Option<string>) returns (r: Outcome<nat>)
      modifies this`rows, this`donations
      ensures match Donated(old(State()), amountXof, date, donorName, key)
              case Ok(s) => State() == s && r == Ok(|old(donations)|)
              case Fail(e) => State() == old(State()) && r == Fail(e)
      ensures old(Valid()) ==> Valid()
    {
      hide L.InOrder;
      KeepsValid(Donate(amountXof, date, donorName, key));
      var snapshot := rows;
      var created := CreateTransaction(Draft(Recette, Don, amountXof, date, Valide, Some(donorName), Some(false), None));
      if KeyTaken(donations, key) {
        rows := snapshot;
        return Fail(Conflict);
      }
      r := Ok(|donations|);
      donations := donations + [Donation(created.value, amountXof, date, key)];
    }
  }
}
