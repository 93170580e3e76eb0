/** The plan and its execution agree: every placeholder resolves, no two names merge, nothing filled is overwritten. */
module ContactImportLaws {
  import opened Common
  import opened ContactMatching
  import opened ContactImport

  // ─── Cards and tables only gain ───────────────────────────────────────────

  /** A later version of a card: same name, and whatever was filled in unchanged. */
  ghost predicate Extends(before: Card, after: Card) {
    && after.fullName == before.fullName
    && forall f :: !Blank(Get(before, f)) ==> Get(after, f) == Get(before, f)
  }

  ghost predicate Kept(before: Table, after: Table, id: nat) {
    id < |before| && before[id].Some? ==>
      Live(after, id) && Extends(before[id].value.card, after[id].value.card) && after[id].value.category == before[id].value.category
  }

  ghost predicate Grows(before: Progress, after: Progress) {
    && |before.contacts| <= |after.contacts|
    && (forall id :: Kept(before.contacts, after.contacts, id))
    && (forall key :: key in before.ids ==> key in after.ids && after.ids[key] == before.ids[key])
  }

  lemma GrowsTransitive(a: Progress, b: Progress, c: Progress)
    requires Grows(a, b) && Grows(b, c)
    ensures Grows(a, c)
  {
    hide Blank;
    forall id: nat ensures Kept(a.contacts, c.contacts, id) {
      assert Kept(a.contacts, b.contacts, id) && Kept(b.contacts, c.contacts, id);
    }
  }

  function LiveCount(contacts: Table): nat {
    if contacts == [] then 0
    else LiveCount(contacts[..|contacts| - 1]) + (if contacts[|contacts| - 1].Some? then 1 else 0)
  }

  lemma {:induction false} LiveUpdate(contacts: Table, id: nat, slot: Option<Contact>)
    requires id < |contacts|
    ensures LiveCount(contacts[id := slot]) + (if contacts[id].Some? then 1 else 0)
         == LiveCount(contacts) + (if slot.Some? then 1 else 0)
    decreases |contacts|
  {
    var last := |contacts| - 1;
    if id == last {
      assert contacts[id := slot][..last] == contacts[..last];
    } else {
      assert contacts[id := slot][..last] == contacts[..last][id := slot];
      LiveUpdate(contacts[..last], id, slot);
    }
  }

  lemma LiveAppend(contacts: Table, slot: Option<Contact>)
    ensures LiveCount(contacts + [slot]) == LiveCount(contacts) + (if slot.Some? then 1 else 0)
  {
    assert (contacts + [slot])[..|contacts|] == contacts;
  }

  // ─── The agreement between a plan and its execution ───────────────────────

  /** A candidate of the plan stands for a live contact that carries all the plan knows about it. */
  ghost predicate Backed(s: Progress, c: Candidate) {
    var id := Resolve(s.ids, c.ref);
    id.Some? && Live(s.contacts, id.value) && Extends(c.card, s.contacts[id.value].value.card)
  }

  /** The contact a create or reuse row ended up in. */
  function Home(s: Progress, item: PlanItem): Option<nat> {
    if item.action == Create then Resolve(s.ids, Pending(item.row.key))
    else if item.action == Reuse && item.matched.Some? then Resolve(s.ids, item.matched.value)
    else None
  }

  /** A used row lives on in a live contact with the same normalised name. */
  ghost predicate Landed(normal: string -> string, s: Progress, item: PlanItem) {
    Uses(item) ==>
      var id := Home(s, item);
      id.Some? && Live(s.contacts, id.value) && normal(s.contacts[id.value].value.card.fullName) == normal(item.row.card.fullName)
  }

  function CountOf(items: seq<PlanItem>, action: Action): nat {
    if items == [] then 0
    else CountOf(items[..|items| - 1], action) + (if items[|items| - 1].action == action then 1 else 0)
  }

  ghost predicate HasKey(items: seq<PlanItem>, key: Key) {
    exists i :: 0 <= i < |items| && items[i].row.key == key
  }

  ghost predicate InStep(normal: string -> string, start: Progress, plan: Plan, s: Progress) {
    && (forall i :: 0 <= i < |plan.candidates| ==> Backed(s, plan.candidates[i]))
    && (forall i :: 0 <= i < |plan.items| ==> Landed(normal, s, plan.items[i]))
    && (forall key :: key in s.ids ==> HasKey(plan.items, key))
    && Grows(start, s)
    && s.created == CountOf(plan.items, Create) && s.reused == CountOf(plan.items, Reuse) && s.enriched <= s.reused
    && LiveCount(s.contacts) == LiveCount(start.contacts) + s.created
  }

  lemma BackedGrows(s: Progress, s': Progress, c: Candidate)
    requires Backed(s, c) && Grows(s, s')
    ensures Backed(s', c)
  {
    hide Blank;
    assert Kept(s.contacts, s'.contacts, Resolve(s.ids, c.ref).value);
  }

  lemma LandedGrows(normal: string -> string, s: Progress, s': Progress, item: PlanItem)
    requires Landed(normal, s, item) && Grows(s, s')
    ensures Landed(normal, s', item)
  {
    hide Blank;
    if Uses(item) {
      assert Kept(s.contacts, s'.contacts, Home(s, item).value);
    }
  }

  /** Executing an item of a fresh key grows the table; this is one step, whatever the item. */
  lemma ImportGrows(s: Progress, p: PlanItem)
    requires p.action == Create ==> p.row.key !in s.ids
    requires ImportItem(s, p).Done?
    ensures Grows(s, ImportItem(s, p).value)
    ensures var s' := ImportItem(s, p).value;
            LiveCount(s'.contacts) + s.created == LiveCount(s.contacts) + s'.created
  {
    hide Enriched, CanEnrich, EnrichableFields;
    var s' := ImportItem(s, p).value;
    if p.action == Create {
      LiveAppend(s.contacts, Some(Contact(p.row.card, p.row.category)));
    } else if p.action == Reuse {
      var id := Resolve(s.ids, p.matched.value).value;
      var existing := s.contacts[id].value;
      assert Extends(existing.card, Enriched(existing.card, p.row.card)) by { EnrichedExtends(existing.card, p.row.card); }
      LiveUpdate(s.contacts, id, Some(existing.(card := Enriched(existing.card, p.row.card))));
    }
  }

  lemma EnrichedExtends(existing: Card, row: Card)
    ensures Extends(existing, Enriched(existing, row))
  {
  }

  /** Nothing blank in the contact was filled in on the card the plan saw, so whatever is filled now was planned. */
  lemma PlannedCovers(row: Card, seen: Card, actual: Card)
    requires Extends(seen, actual)
    ensures forall f :: f in EnrichableFields(row, actual) ==> f in EnrichableFields(row, seen)
  {
  }

  /** What execution fills at one item. */
  function FilledAt(s: Progress, p: PlanItem): seq<Field>
  {
    if p.action == Reuse && p.matched.Some? && Resolve(s.ids, p.matched.value).Some?
      && Live(s.contacts, Resolve(s.ids, p.matched.value).value)
    then EnrichableFields(p.row.card, s.contacts[Resolve(s.ids, p.matched.value).value].value.card) else []
  }

  ghost predicate FillsOnlyPlanned(s: Progress, p: PlanItem) {
    forall f :: f in FilledAt(s, p) ==> f in p.enriched
  }

  /** Planning a row and then executing its item keeps plan and execution in step. */
  lemma StepAgrees(normal: string -> string, start: Progress, plan: Plan, s: Progress, row: Row)
    requires InStep(normal, start, plan, s) && !HasKey(plan.items, row.key)
    ensures var plan' := PlanRow(normal, plan, row);
            var item := plan'.items[|plan.items|];
            && plan'.items[..|plan.items|] == plan.items
            && FillsOnlyPlanned(s, item)
            && ImportItem(s, item).Done?
            && InStep(normal, start, plan', ImportItem(s, item).value)
  {
    hide MatchContact, Extends, Blank, EnrichableFields, Grows, Backed, Enriched, Landed, CountOf, LiveCount;
    var plan' := PlanRow(normal, plan, row);
    var item := plan'.items[|plan.items|];
    if item.action == Reuse {
      ReuseResolves(normal, plan, s, row);
    }
    CountAppends(plan.items, item);
    var s' := ImportItem(s, item).value;
    ImportGrows(s, item);
    GrowsTransitive(start, s, s');
    ItemLands(normal, plan, s, row);
    forall i | 0 <= i < |plan'.items| ensures Landed(normal, s', plan'.items[i]) {
      if i < |plan.items| {
        LandedGrows(normal, s, s', plan.items[i]);
      }
    }
    forall i | 0 <= i < |plan'.candidates| ensures Backed(s', plan'.candidates[i]) {
      if i < |plan.candidates| {
        BackedGrows(s, s', plan.candidates[i]);
      } else {
        CreatedBacked(s, item);
      }
    }
    KeysKept(plan.items, item, s, s');
  }

  lemma CountAppends(items: seq<PlanItem>, item: PlanItem)
    ensures forall a :: CountOf(items + [item], a) == CountOf(items, a) + (if item.action == a then 1 else 0)
  {
    assert (items + [item])[..|items|] == items;
  }

  lemma KeysKept(items: seq<PlanItem>, item: PlanItem, s: Progress, s': Progress)
    requires forall key :: key in s.ids ==> HasKey(items, key)
    requires s'.ids == s.ids || s'.ids == s.ids[item.row.key := |s.contacts|]
    ensures forall key :: key in s'.ids ==> HasKey(items + [item], key)
  {
    forall key | key in s'.ids ensures HasKey(items + [item], key) {
      if key == item.row.key {
        assert (items + [item])[|items|].row.key == key;
      } else {
        var i :| 0 <= i < |items| && items[i].row.key == key;
        assert (items + [item])[i].row.key == key;
      }
    }
  }

  lemma CreatedBacked(s: Progress, item: PlanItem)
    requires item.action == Create
    ensures Backed(ImportItem(s, item).value, Candidate(Pending(item.row.key), item.row.card))
  {
  }

  /** A planned reuse names a candidate, so it resolves to a live contact of the same name and fills only what was planned. */
  lemma ReuseResolves(normal: string -> string, plan: Plan, s: Progress, row: Row)
    requires !row.excluded && MatchContact(normal, row.card, plan.candidates).action == Reuse
    requires forall i :: 0 <= i < |plan.candidates| ==> Backed(s, plan.candidates[i])
    ensures var item := PlanRow(normal, plan, row).items[|plan.items|];
            && item.matched.Some? && Resolve(s.ids, item.matched.value).Some?
            && Live(s.contacts, Resolve(s.ids, item.matched.value).value)
            && normal(s.contacts[Resolve(s.ids, item.matched.value).value].value.card.fullName) == normal(row.card.fullName)
            && FillsOnlyPlanned(s, item)
  {
    hide MatchContact, EnrichableFields, Blank;
    var c := ReuseSameName(normal, row.card, plan.candidates);
    var i :| 0 <= i < |plan.candidates| && plan.candidates[i] == c;
    assert Backed(s, plan.candidates[i]);
    PlannedCovers(row.card, c.card, s.contacts[Resolve(s.ids, c.ref).value].value.card);
  }

  lemma ItemLands(normal: string -> string, plan: Plan, s: Progress, row: Row)
    requires forall i :: 0 <= i < |plan.candidates| ==> Backed(s, plan.candidates[i])
    ensures var item := PlanRow(normal, plan, row).items[|plan.items|];
            ImportItem(s, item).Done? && Landed(normal, ImportItem(s, item).value, item)
  {
    hide MatchContact, EnrichableFields, Blank, Enriched, Backed;
    var item := PlanRow(normal, plan, row).items[|plan.items|];
    if item.action == Reuse {
      ReuseResolves(normal, plan, s, row);
    } else if item.action == Create {
      CreatedNamed(s, item);
    }
  }

  lemma CreatedNamed(s: Progress, item: PlanItem)
    requires item.action == Create
    ensures var s' := ImportItem(s, item).value;
            var id := Home(s', item);
            id.Some? && Live(s'.contacts, id.value) && s'.contacts[id.value].value.card == item.row.card
  {
  }

  // ─── Whole imports ────────────────────────────────────────────────────────

  ghost predicate DistinctKeys(rows: seq<Row>) {
    forall i, j :: 0 <= i < j < |rows| ==> rows[i].key != rows[j].key
  }

  lemma {:induction false} PlannedKeys(normal: string -> string, pool: seq<Candidate>, rows: seq<Row>)
    ensures forall i :: 0 <= i < |rows| ==> Planned(normal, pool, rows).items[i].row == rows[i]
    decreases |rows|
  {
    hide MatchContact;
    if rows != [] {
      PlannedKeys(normal, pool, rows[..|rows| - 1]);
    }
  }

  /** Planning is causal: the plan of the first rows is the beginning of the whole plan. */
  lemma {:induction false} PlannedPrefix(normal: string -> string, pool: seq<Candidate>, rows: seq<Row>, k: nat)
    requires k <= |rows|
    ensures Planned(normal, pool, rows[..k]).items == Planned(normal, pool, rows).items[..k]
    decreases |rows|
  {
    hide MatchContact;
    if k == |rows| {
      assert rows[..k] == rows;
    } else {
      assert rows[..|rows| - 1][..k] == rows[..k];
      PlannedPrefix(normal, pool, rows[..|rows| - 1], k);
    }
  }

  lemma {:induction false} RowsAgree(normal: string -> string, start: Progress, pool: seq<Candidate>, rows: seq<Row>)
    requires DistinctKeys(rows) && start.ids == map[] && start.created == start.reused == start.enriched == 0
    requires forall i :: 0 <= i < |pool| ==> Backed(start, pool[i])
    ensures var plan := Planned(normal, pool, rows);
            && Imported(start, plan.items).Done?
            && InStep(normal, start, plan, Imported(start, plan.items).value)
    decreases |rows|
  {
    hide PlanRow, ImportItem, Backed, Landed, Extends, LiveCount;
    if rows == [] {
      assert Grows(start, start) by { GrowsReflexive(start); }
    } else {
      var rest, row := rows[..|rows| - 1], rows[|rows| - 1];
      RowsAgree(normal, start, pool, rest);
      var plan := Planned(normal, pool, rest);
      PlannedKeys(normal, pool, rest);
      StepAgrees(normal, start, plan, Imported(start, plan.items).value, row);
    }
  }

  lemma GrowsReflexive(s: Progress)
    ensures Grows(s, s)
  {
  }

  // ─── The deletion phase ───────────────────────────────────────────────────

  ghost predicate Deletable(contacts: Table, ids: seq<nat>) {
    && (forall i :: 0 <= i < |ids| ==> Live(contacts, ids[i]))
    && forall i, j :: 0 <= i < j < |ids| ==> ids[i] != ids[j]
  }

  lemma {:induction false} DeletedExactly(contacts: Table, ids: seq<nat>)
    requires Deletable(contacts, ids)
    ensures var d := Deleted(contacts, ids);
            && d.Done? && |d.value| == |contacts|
            && (forall id :: 0 <= id < |contacts| ==> d.value[id] == if id in ids then None else contacts[id])
            && LiveCount(d.value) + |ids| == LiveCount(contacts)
    decreases |ids|
  {
    hide LiveCount;
    if ids != [] {
      var rest, id := ids[..|ids| - 1], ids[|ids| - 1];
      assert ids == rest + [id];
      DeletedExactly(contacts, rest);
      LiveUpdate(Deleted(contacts, rest).value, id, None);
    }
  }

  lemma {:induction false} PoolBacked(contacts: Table, kept: Table, deletable: seq<nat>, n: nat, s: Progress)
    requires n <= |contacts| == |kept| && s.contacts == kept
    requires forall id :: 0 <= id < |contacts| ==> kept[id] == if id in deletable then None else contacts[id]
    ensures forall i :: 0 <= i < |Pool(contacts, deletable, n)| ==> Backed(s, Pool(contacts, deletable, n)[i])
  {
    if n > 0 {
      PoolBacked(contacts, kept, deletable, n - 1, s);
    }
  }

  // ─── Main results ─────────────────────────────────────────────────────────

  /**
   For any contacts, any deletable ones among them, any rows with distinct sheet and row number and any name normaliser:
   executing the plan aborts exactly when a used row's category is missing, never on resolving a placeholder; when it
   commits, every used row lives in a live contact of its own normalised name, surviving contacts keep their names,
   categories and filled fields, and the number of contacts is what was there, less the deleted, plus the created.
   */
  lemma PlanAndExecutionAgree(normal: string -> string, contacts: Table, categories: set<string>, deletable: seq<nat>, rows: seq<Row>)
    requires DistinctKeys(rows) && Deletable(contacts, deletable)
    ensures var items := Planned(normal, Pool(contacts, deletable, |contacts|), rows).items;
            var r := Executed(contacts, categories, deletable, items);
            && (r.Done? <==> CategoriesKnown(categories, items))
            && (r.Aborted? ==> r.reason == MissingCategory)
            && (r.Done? ==>
                  var s := r.value.progress;
                  && (forall i :: 0 <= i < |items| ==> items[i].row == rows[i] && Landed(normal, s, items[i]))
                  && (forall id :: 0 <= id < |contacts| && id !in deletable ==> Kept(contacts, s.contacts, id))
                  && LiveCount(s.contacts) + |deletable| == LiveCount(contacts) + s.created
                  && s.created == CountOf(items, Create) && s.reused == CountOf(items, Reuse) && s.enriched <= s.reused)
  {
    hide Backed, Landed, Extends, LiveCount, Planned, Imported, CountOf, CategoriesKnown;
    var pool := Pool(contacts, deletable, |contacts|);
    DeletedExactly(contacts, deletable);
    var kept := Deleted(contacts, deletable).value;
    var start := Progress(kept, map[], 0, 0, 0);
    PoolBacked(contacts, kept, deletable, |contacts|, start);
    RowsAgree(normal, start, pool, rows);
    PlannedKeys(normal, pool, rows);
    var plan := Planned(normal, pool, rows);
    var s := Imported(start, plan.items).value;
    forall id | 0 <= id < |contacts| && id !in deletable ensures Kept(contacts, s.contacts, id) {
      assert Kept(start.contacts, s.contacts, id);
    }
  }

  /** At every row of the import, the fields execution actually fills are among those the plan announced. */
  lemma FilledWasPlanned(normal: string -> string, contacts: Table, deletable: seq<nat>, rows: seq<Row>, k: nat)
    requires DistinctKeys(rows) && Deletable(contacts, deletable) && k < |rows|
    ensures var items := Planned(normal, Pool(contacts, deletable, |contacts|), rows).items;
            var kept := Deleted(contacts, deletable);
            && kept.Done?
            && var before := Imported(Progress(kept.value, map[], 0, 0, 0), items[..k]);
               before.Done? && FillsOnlyPlanned(before.value, items[k])
  {
    hide Backed, Landed, LiveCount, Imported, CountOf, FillsOnlyPlanned, PlanRow, ImportItem;
    var pool := Pool(contacts, deletable, |contacts|);
    DeletedExactly(contacts, deletable);
    var kept := Deleted(contacts, deletable).value;
    var start := Progress(kept, map[], 0, 0, 0);
    PoolBacked(contacts, kept, deletable, |contacts|, start);
    RowsAgree(normal, start, pool, rows[..k]);
    PlannedPrefix(normal, pool, rows, k);
    PlannedPrefix(normal, pool, rows, k + 1);
    PlannedKeys(normal, pool, rows[..k]);
    var plan := Planned(normal, pool, rows[..k]);
    StepAgrees(normal, start, plan, Imported(start, plan.items).value, rows[k]);
    assert rows[..k + 1][..k] == rows[..k];
    var items := Planned(normal, pool, rows).items;
    assert items[k] == items[..k + 1][k];
  }
}
