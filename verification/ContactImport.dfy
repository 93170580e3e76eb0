/** import-besoin-contacts.ts: planning against placeholder references, then executing the plan in one transaction. */
module ContactImport {
  import opened Common
  import opened ContactMatching

  const PARENT_TUTEUR_CATEGORY_KEY := "PARENT_TUTEUR"

  datatype Row = Row(key: Key, card: Card, category: string, excluded: bool)

  datatype Contact = Contact(card: Card, category: string)

  /** The contact table: a contact's id is its index, and a deleted one leaves its slot empty. */
  type Table = seq<Option<Contact>>

  predicate Live(contacts: Table, id: nat) {
    id < |contacts| && contacts[id].Some?
  }

  // ─── Planning ─────────────────────────────────────────────────────────────

  datatype PlanItem = PlanItem(row: Row, action: Action, matched: Option<Ref>, matchedOn: Option<MatchedOn>, enriched: seq<Field>)

  datatype Plan = Plan(items: seq<PlanItem>, candidates: seq<Candidate>)

  /** The contacts that stay, as the first candidates. */
  function Pool(contacts: Table, deletable: seq<nat>, n: nat): seq<Candidate>
    requires n <= |contacts|
  {
    if n == 0 then []
    else
      Pool(contacts, deletable, n - 1)
      + (if contacts[n - 1].Some? && n - 1 !in deletable then [Candidate(Existing(n - 1), contacts[n - 1].value.card)] else [])
  }

  function PlanRow(normal: string -> string, plan: Plan, row: Row): Plan {
    if row.excluded then
      plan.(items := plan.items + [PlanItem(row, Skip, None, None, [])])
    else
      var m := MatchContact(normal, row.card, plan.candidates);
      Plan(plan.items + [PlanItem(row, m.action, m.matched, m.matchedOn, m.enriched)],
           plan.candidates + (if m.action == Create then [Candidate(Pending(row.key), row.card)] else []))
  }

  function Planned(normal: string -> string, pool: seq<Candidate>, rows: seq<Row>): (plan: Plan)
    ensures |plan.items| == |rows|
    decreases |rows|
  {
    if rows == [] then Plan([], pool)
    else PlanRow(normal, Planned(normal, pool, rows[..|rows| - 1]), rows[|rows| - 1])
  }

  method BuildPlan(normal: string -> string, contacts: Table, deletable: seq<nat>, rows: seq<Row>)
    returns (importPlan: seq<PlanItem>)
    ensures importPlan == Planned(normal, Pool(contacts, deletable, |contacts|), rows).items
  {
    hide MatchContact;
    var candidates := Pool(contacts, deletable, |contacts|);
    ghost var pool := candidates;
    importPlan := [];
    for i := 0 to |rows|
      invariant Plan(importPlan, candidates) == Planned(normal, pool, rows[..i])
    {
      var row := rows[i];
      assert rows[..i + 1][..i] == rows[..i];
      if row.excluded {
        importPlan := importPlan + [PlanItem(row, Skip, None, None, [])];
      } else {
        var result := MatchContact(normal, row.card, candidates);
        importPlan := importPlan + [PlanItem(row, result.action, result.matched, result.matchedOn, result.enriched)];
        if result.action == Create {
          candidates := candidates + [Candidate(Pending(row.key), row.card)];
        } else {
          assert candidates + [] == candidates;
        }
      }
    }
    assert rows[..|rows|] == rows;
  }

  // ─── Executing ────────────────────────────────────────────────────────────

  datatype Abort = MissingContact | MissingCategory | Unresolved

  datatype Attempt<+T> = Done(value: T) | Aborted(reason: Abort)

  datatype Progress = Progress(contacts: Table, ids: map<Key, nat>, created: nat, reused: nat, enriched: nat)

  function Deleted(contacts: Table, ids: seq<nat>): Attempt<Table>
    decreases |ids|
  {
    if ids == [] then Done(contacts)
    else
      var before := Deleted(contacts, ids[..|ids| - 1]);
      var id := ids[|ids| - 1];
      if before.Aborted? then before
      else if !Live(before.value, id) then Aborted(MissingContact)
      else Done(before.value[id := None])
  }

  predicate Uses(item: PlanItem) {
    item.action == Create || item.action == Reuse
  }

  predicate Known(categories: set<string>, item: PlanItem) {
    Uses(item) ==> item.row.category == PARENT_TUTEUR_CATEGORY_KEY || item.row.category in categories
  }

  predicate CategoriesKnown(categories: set<string>, items: seq<PlanItem>) {
    forall i :: 0 <= i < |items| ==> Known(categories, items[i])
  }

  /** The categories once the missing parent category, if any row needs it, is added. */
  function WithParents(categories: set<string>, items: seq<PlanItem>): set<string> {
    if exists i :: 0 <= i < |items| && Uses(items[i]) && items[i].row.category == PARENT_TUTEUR_CATEGORY_KEY
    then categories + {PARENT_TUTEUR_CATEGORY_KEY} else categories
  }

  function Resolve(ids: map<Key, nat>, ref: Ref): Option<nat> {
    match ref
    case Existing(id) => Some(id)
    case Pending(key) => if key in ids then Some(ids[key]) else None
  }

  /** Only blank fields are written, and only with what the row has to say. */
  function Enriched(existing: Card, row: Card): (c: Card)
    ensures c.fullName == existing.fullName
    ensures forall f :: Get(c, f) == if CanEnrich(row, existing, f) then Get(row, f) else Get(existing, f)
  {
    existing.(functionTitle := if CanEnrich(row, existing, FunctionTitle) then row.functionTitle else existing.functionTitle,
              phone := if CanEnrich(row, existing, Phone) then row.phone else existing.phone,
              notes := if CanEnrich(row, existing, Notes) then row.notes else existing.notes)
  }

  function ImportItem(s: Progress, p: PlanItem): Attempt<Progress> {
    if p.action == Skip || p.action == Ambiguous then Done(s)
    else if p.action == Create then
      Done(Progress(s.contacts + [Some(Contact(p.row.card, p.row.category))], s.ids[p.row.key := |s.contacts|],
                    s.created + 1, s.reused, s.enriched))
    else
      var target := if p.matched.Some? then Resolve(s.ids, p.matched.value) else None;
      if target.None? then Aborted(Unresolved)
      else if !Live(s.contacts, target.value) then Aborted(MissingContact)
      else
        var existing := s.contacts[target.value].value;
        if EnrichableFields(p.row.card, existing.card) == [] then Done(s.(reused := s.reused + 1))
        else
          var updated := existing.(card := Enriched(existing.card, p.row.card));
          Done(s.(contacts := s.contacts[target.value := Some(updated)], reused := s.reused + 1, enriched := s.enriched + 1))
  }

  function Imported(s: Progress, items: seq<PlanItem>): Attempt<Progress>
    decreases |items|
  {
    if items == [] then Done(s)
    else
      var before := Imported(s, items[..|items| - 1]);
      if before.Aborted? then before else ImportItem(before.value, items[|items| - 1])
  }

  datatype Result = Result(progress: Progress, categories: set<string>, deleted: nat)

  /** The whole transaction; an aborted one leaves no trace. */
  function Executed(contacts: Table, categories: set<string>, deletable: seq<nat>, items: seq<PlanItem>): Attempt<Result> {
    var kept := Deleted(contacts, deletable);
    if kept.Aborted? then Aborted(kept.reason)
    else if !CategoriesKnown(categories, items) then Aborted(MissingCategory)
    else
      var done := Imported(Progress(kept.value, map[], 0, 0, 0), items);
      if done.Aborted? then Aborted(done.reason)
      else Done(Result(done.value, WithParents(categories, items), |deletable|))
  }

  datatype Summary = Summary(deletedCount: nat, created: nat, reused: nat, enriched: nat)

  class ContactImporter {
    var contacts: Table
    var categories: set<string>

    /** The transaction's own writes live in local variables until it commits. */
    method Execute(deletable: seq<nat>, importPlan: seq<PlanItem>) returns (r: Attempt<Summary>)
      modifies this
      ensures match Executed(old(contacts), old(categories), deletable, importPlan)
              case Done(done) =>
                && contacts == done.progress.contacts && categories == done.categories
                && r == Done(Summary(done.deleted, done.progress.created, done.progress.reused, done.progress.enriched))
              case Aborted(reason) => contacts == old(contacts) && categories == old(categories) && r == Aborted(reason)
    {
      hide ImportItem, Known, Uses;
      var tx := contacts;
      var deletedCount := 0;
      while deletedCount < |deletable|
        invariant deletedCount <= |deletable|
        invariant Deleted(contacts, deletable[..deletedCount]) == Done(tx)
      {
        var id := deletable[deletedCount];
        assert deletable[..deletedCount + 1][..deletedCount] == deletable[..deletedCount];
        if !Live(tx, id) {
          DeletionStops(contacts, deletable, deletedCount + 1);
          return Aborted(MissingContact);
        }
        tx := tx[id := None];
        deletedCount := deletedCount + 1;
      }
      assert deletable[..deletedCount] == deletable;
      var missing := CheckCategories(categories, importPlan);
      if missing {
        return Aborted(MissingCategory);
      }
      var s := Progress(tx, map[], 0, 0, 0);
      ghost var start := s;
      for i := 0 to |importPlan|
        invariant Imported(start, importPlan[..i]) == Done(s)
      {
        var step := ImportItem(s, importPlan[i]);
        assert importPlan[..i + 1][..i] == importPlan[..i];
        if step.Aborted? {
          ImportStops(start, importPlan, i + 1);
          return Aborted(step.reason);
        }
        s := step.value;
      }
      assert importPlan[..|importPlan|] == importPlan;
      contacts, categories := s.contacts, WithParents(categories, importPlan);
      r := Done(Summary(deletedCount, s.created, s.reused, s.enriched));
    }
  }

  method CheckCategories(categories: set<string>, items: seq<PlanItem>) returns (missing: bool)
    ensures missing <==> !CategoriesKnown(categories, items)
  {
    missing := false;
    for i := 0 to |items|
      invariant !missing && forall k :: 0 <= k < i ==> Known(categories, items[k])
    {
      if !Known(categories, items[i]) {
        return true;
      }
    }
  }

  lemma {:induction false} DeletionStops(contacts: Table, ids: seq<nat>, k: nat)
    requires k <= |ids| && Deleted(contacts, ids[..k]).Aborted?
    ensures Deleted(contacts, ids) == Deleted(contacts, ids[..k])
    decreases |ids|
  {
    if k < |ids| {
      assert ids[..|ids| - 1][..k] == ids[..k];
      DeletionStops(contacts, ids[..|ids| - 1], k);
    } else {
      assert ids[..k] == ids;
    }
  }

  lemma {:induction false} ImportStops(s: Progress, items: seq<PlanItem>, k: nat)
    requires k <= |items| && Imported(s, items[..k]).Aborted?
    ensures Imported(s, items) == Imported(s, items[..k])
    decreases |items|
  {
    hide ImportItem;
    if k < |items| {
      assert items[..|items| - 1][..k] == items[..k];
      ImportStops(s, items[..|items| - 1], k);
    } else {
      assert items[..k] == items;
    }
  }
}
