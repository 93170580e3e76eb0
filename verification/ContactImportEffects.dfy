/** What an import leaves in the contact table, field by field, and when it leaves nothing. */
module ContactImportEffects {
  import opened Common
  import opened ContactMatching
  import opened ContactImport
  import opened ContactImportLaws

  // ─── What the plan is made on ─────────────────────────────────────────────

  /** A contact that stays, as a candidate. */
  ghost predicate Stays(contacts: Table, deletable: seq<nat>, c: Candidate, id: nat) {
    id < |contacts| && contacts[id].Some? && id !in deletable && c == Candidate(Existing(id), contacts[id].value.card)
  }

  ghost predicate Stayer(contacts: Table, deletable: seq<nat>, n: nat, c: Candidate) {
    exists id: nat :: id < n && Stays(contacts, deletable, c, id)
  }

  ghost predicate DistinctRefs(cs: seq<Candidate>) {
    forall i, j :: 0 <= i < j < |cs| ==> cs[i].ref != cs[j].ref
  }

  lemma OneMoreRef(cs: seq<Candidate>, c: Candidate)
    requires DistinctRefs(cs) && forall i :: 0 <= i < |cs| ==> cs[i].ref != c.ref
    ensures DistinctRefs(cs + [c])
  {
  }

  /** The first candidates are the contacts that stay, all of them, each once. */
  lemma {:induction false} PoolIsWhatStays(contacts: Table, deletable: seq<nat>, n: nat)
    requires n <= |contacts|
    ensures forall c :: c in Pool(contacts, deletable, n) <==> Stayer(contacts, deletable, n, c)
    ensures DistinctRefs(Pool(contacts, deletable, n))
  {
    hide DistinctRefs;
    if n == 0 {
      assert DistinctRefs([]) by { NoRefs(); }
    } else {
      PoolIsWhatStays(contacts, deletable, n - 1);
      var before, pool := Pool(contacts, deletable, n - 1), Pool(contacts, deletable, n);
      forall i | 0 <= i < |before| ensures before[i].ref != Existing(n - 1) {
        assert before[i] in before;
        assert Stayer(contacts, deletable, n - 1, before[i]);
      }
      if contacts[n - 1].Some? && n - 1 !in deletable {
        OneMoreRef(before, Candidate(Existing(n - 1), contacts[n - 1].value.card));
      } else {
        assert pool == before;
      }
      forall c ensures c in pool <==> Stayer(contacts, deletable, n, c) {
        StayerLast(contacts, deletable, n, c);
      }
    }
  }

  lemma NoRefs()
    ensures DistinctRefs([])
  {
  }

  lemma StayerLast(contacts: Table, deletable: seq<nat>, n: nat, c: Candidate)
    requires 0 < n <= |contacts|
    ensures Stayer(contacts, deletable, n, c) <==> Stayer(contacts, deletable, n - 1, c) || Stays(contacts, deletable, c, n - 1)
  {
    hide Stays;
  }

  ghost predicate CreatedAt(items: seq<PlanItem>, c: Candidate, i: nat) {
    i < |items| && items[i].action == Create && c == Candidate(Pending(items[i].row.key), items[i].row.card)
  }

  ghost predicate IsCreated(items: seq<PlanItem>, c: Candidate) {
    exists i: nat :: CreatedAt(items, c, i)
  }

  lemma CreatedLast(items: seq<PlanItem>, p: PlanItem, c: Candidate)
    ensures IsCreated(items + [p], c) <==> IsCreated(items, c) || CreatedAt(items + [p], c, |items|)
  {
    if i: nat :| CreatedAt(items, c, i) {
      assert CreatedAt(items + [p], c, i);
    }
    if i: nat :| CreatedAt(items + [p], c, i) && i < |items| {
      assert CreatedAt(items, c, i);
    }
  }

  /** A row is matched against the pool and everything the rows before it are planned to create, and nothing else. */
  lemma {:induction false} CandidatesArePlanned(normal: string -> string, pool: seq<Candidate>, rows: seq<Row>)
    ensures var plan := Planned(normal, pool, rows);
            forall c :: c in plan.candidates <==> c in pool || IsCreated(plan.items, c)
    decreases |rows|
  {
    hide MatchContact;
    if rows != [] {
      var last := |rows| - 1;
      CandidatesArePlanned(normal, pool, rows[..last]);
      var before, plan := Planned(normal, pool, rows[..last]), Planned(normal, pool, rows);
      var item := plan.items[last];
      var own := Candidate(Pending(item.row.key), item.row.card);
      assert plan.items == before.items + [item];
      assert plan.candidates == before.candidates + if item.action == Create then [own] else [];
      forall c ensures c in plan.candidates <==> c in pool || IsCreated(plan.items, c) {
        CreatedLast(before.items, item, c);
        assert IsCreated(plan.items, c) <==> IsCreated(before.items, c) || CreatedAt(plan.items, c, last);
        assert c in before.candidates <==> c in pool || IsCreated(before.items, c);
        assert CreatedAt(plan.items, c, last) <==> item.action == Create && c == own;
        assert c in plan.candidates <==> c in before.candidates || (item.action == Create && c == own);
      }
    }
  }

  /** An excluded row is skipped; any other gets the decision of the match on the candidates so far. */
  lemma PlanDecides(normal: string -> string, pool: seq<Candidate>, rows: seq<Row>, k: nat)
    requires k < |rows|
    ensures var items := Planned(normal, pool, rows).items;
            var m := MatchContact(normal, rows[k].card, Planned(normal, pool, rows[..k]).candidates);
            && |items| == |rows| && items[k].row == rows[k]
            && (if rows[k].excluded then items[k].action == Skip && items[k].matched.None? && items[k].enriched == []
                else items[k].action == m.action && items[k].matched == m.matched && items[k].matchedOn == m.matchedOn
                     && items[k].enriched == m.enriched)
  {
    hide MatchContact;
    PlannedPrefix(normal, pool, rows, k + 1);
    PlannedKeys(normal, pool, rows);
    assert rows[..k + 1][..k] == rows[..k];
    assert Planned(normal, pool, rows).items[k] == Planned(normal, pool, rows[..k + 1]).items[k];
  }

  /** Two rows of one name and a common number never both create a contact. */
  lemma SamePersonOnce(normal: string -> string, pool: seq<Candidate>, rows: seq<Row>, i: nat, j: nat, number: string)
    requires i < j < |rows| && normal(rows[i].card.fullName) == normal(rows[j].card.fullName)
    requires number in Phones(rows[i].card.phone) && number in Phones(rows[j].card.phone)
    ensures var items := Planned(normal, pool, rows).items;
            items[i].action == Create ==> items[j].action != Create
  {
    hide MatchContact, Phones, Planned, NoneOf, OnlyOneOf;
    var items := Planned(normal, pool, rows).items;
    if items[i].action == Create {
      var candidates := Planned(normal, pool, rows[..j]).candidates;
      var c := Candidate(Pending(rows[i].key), rows[i].card);
      PlannedPrefix(normal, pool, rows, j);
      PlannedKeys(normal, pool, rows);
      CandidatesArePlanned(normal, pool, rows[..j]);
      assert CreatedAt(Planned(normal, pool, rows[..j]).items, c, i);
      PlanDecides(normal, pool, rows, j);
      MatchDecides(normal, rows[j].card, candidates);
      assert SharesPhone(rows[j].card, c);
      SomeOf(candidates, c, d => SharesPhone(rows[j].card, d));
      SomeOf(candidates, c, d => Twin(normal, rows[j].card, true, d));
    }
  }

  lemma SomeOf(cs: seq<Candidate>, c: Candidate, keep: Candidate -> bool)
    requires c in cs && keep(c)
    ensures !NoneOf(cs, keep)
  {
  }

  // ─── What execution leaves ────────────────────────────────────────────────

  /**
   Where a used row ended up: a contact that has something wherever the row has, and, when it was created for the row,
   everything the row says and the row's category.
   */
  ghost predicate Settled(s: Progress, item: PlanItem) {
    item.action == Create || item.action == Reuse ==>
      && var id := Home(s, item);
         && id.Some? && Live(s.contacts, id.value)
         && var contact := s.contacts[id.value].value;
            && (forall f :: !Blank(Get(item.row.card, f)) ==> !Blank(Get(contact.card, f)))
            && (item.action == Create ==> Extends(item.row.card, contact.card) && contact.category == item.row.category)
  }

  lemma SettledGrows(s: Progress, s': Progress, item: PlanItem)
    requires Settled(s, item) && Grows(s, s')
    ensures Settled(s', item)
  {
    hide Blank, Get;
    if item.action == Create || item.action == Reuse {
      assert Kept(s.contacts, s'.contacts, Home(s, item).value);
    }
  }

  lemma ItemSettles(s: Progress, p: PlanItem)
    requires ImportItem(s, p).Done?
    ensures Settled(ImportItem(s, p).value, p)
  {
    hide EnrichableFields;
    if p.action == Reuse {
      var id := Resolve(s.ids, p.matched.value).value;
      var existing := s.contacts[id].value.card;
      if EnrichableFields(p.row.card, existing) == [] {
        forall f ensures !Blank(Get(p.row.card, f)) ==> !Blank(Get(existing, f)) {
          assert f !in EnrichableFields(p.row.card, existing) && !CanEnrich(p.row.card, existing, f);
        }
      }
    }
  }

  /** Created contacts are new, and each is its row's own. */
  ghost predicate OwnContacts(start: Progress, s: Progress) {
    && (forall key :: key in s.ids ==> |start.contacts| <= s.ids[key] < |s.contacts|)
    && (forall a, b :: a in s.ids && b in s.ids && a != b ==> s.ids[a] != s.ids[b])
  }

  /** Everything a contact says was there before, or is what some row that ended up in it says. */
  ghost predicate Told(start: Progress, s: Progress, items: seq<PlanItem>, id: nat, f: Field) {
    Live(s.contacts, id) ==>
      || (Live(start.contacts, id) && Get(s.contacts[id].value.card, f) == Get(start.contacts[id].value.card, f))
      || (exists i :: 0 <= i < |items| && TellsOf(s, items[i], id, f))
  }

  ghost predicate TellsOf(s: Progress, item: PlanItem, id: nat, f: Field)
    requires Live(s.contacts, id)
  {
    Home(s, item) == Some(id) && Get(s.contacts[id].value.card, f) == Get(item.row.card, f)
  }

  lemma ToldStep(start: Progress, s: Progress, items: seq<PlanItem>, p: PlanItem, id: nat, f: Field)
    requires Told(start, s, items, id, f) && Grows(s, ImportItemDone(s, p)) && ImportItem(s, p).Done?
    requires p.action == Create ==> p.row.key !in s.ids
    ensures Told(start, ImportItemDone(s, p), items + [p], id, f)
  {
    hide EnrichableFields, CanEnrich, Extends;
    var s' := ImportItemDone(s, p);
    assert (items + [p])[|items|] == p;
    if Live(s'.contacts, id) {
      if Live(s.contacts, id) && Get(s'.contacts[id].value.card, f) == Get(s.contacts[id].value.card, f) {
        if i :| 0 <= i < |items| && TellsOf(s, items[i], id, f) {
          assert (items + [p])[i] == items[i] && TellsOf(s', items[i], id, f);
        }
      } else {
        assert TellsOf(s', p, id, f);
      }
    }
  }

  function ImportItemDone(s: Progress, p: PlanItem): Progress {
    if ImportItem(s, p).Done? then ImportItem(s, p).value else s
  }

  /** How many of the items filled something, each on the contacts as they were when it was its turn. */
  ghost function FillingCount(start: Progress, items: seq<PlanItem>): nat {
    if items == [] then 0
    else
      var before, item := Imported(start, items[..|items| - 1]), items[|items| - 1];
      FillingCount(start, items[..|items| - 1]) + (if before.Done? && FilledAt(before.value, item) != [] then 1 else 0)
  }

  ghost predicate Effects(start: Progress, s: Progress, items: seq<PlanItem>) {
    && (forall i :: 0 <= i < |items| ==> Settled(s, items[i]))
    && OwnContacts(start, s)
    && (forall id: nat, f: Field :: Told(start, s, items, id, f))
    && s.enriched == FillingCount(start, items)
  }

  lemma OwnStep(start: Progress, s: Progress, p: PlanItem)
    requires OwnContacts(start, s) && |start.contacts| <= |s.contacts|
    requires ImportItem(s, p).Done? && (p.action == Create ==> p.row.key !in s.ids)
    ensures OwnContacts(start, ImportItem(s, p).value)
  {
    hide EnrichableFields, Enriched;
  }

  lemma CountStep(start: Progress, s: Progress, items: seq<PlanItem>, p: PlanItem)
    requires Imported(start, items) == Done(s) && s.enriched == FillingCount(start, items) && ImportItem(s, p).Done?
    ensures ImportItem(s, p).value.enriched == FillingCount(start, items + [p])
  {
    hide EnrichableFields, Enriched;
    assert (items + [p])[..|items|] == items;
  }

  lemma EffectsStep(start: Progress, s: Progress, items: seq<PlanItem>, p: PlanItem)
    requires Imported(start, items) == Done(s) && Effects(start, s, items) && Grows(start, s)
    requires ImportItem(s, p).Done? && Grows(s, ImportItem(s, p).value) && (p.action == Create ==> p.row.key !in s.ids)
    ensures Effects(start, ImportItem(s, p).value, items + [p])
  {
    hide Settled, Told, Grows, ImportItem, OwnContacts, FillingCount, Imported;
    var s' := ImportItem(s, p).value;
    GrowsLonger(start, s);
    OwnStep(start, s, p);
    CountStep(start, s, items, p);
    forall i | 0 <= i < |items + [p]| ensures Settled(s', (items + [p])[i]) {
      if i < |items| { SettledGrows(s, s', items[i]); } else { ItemSettles(s, p); }
    }
    forall id: nat, f: Field ensures Told(start, s', items + [p], id, f) {
      ToldStep(start, s, items, p, id, f);
    }
  }

  lemma GrowsLonger(before: Progress, after: Progress)
    requires Grows(before, after)
    ensures |before.contacts| <= |after.contacts|
  {
  }

  lemma {:induction false} RowsTakeEffect(normal: string -> string, start: Progress, pool: seq<Candidate>, rows: seq<Row>)
    requires DistinctKeys(rows) && start.ids == map[] && start.created == start.reused == start.enriched == 0
    requires forall i :: 0 <= i < |pool| ==> Backed(start, pool[i])
    ensures var items := Planned(normal, pool, rows).items;
            && Imported(start, items).Done?
            && Effects(start, Imported(start, items).value, items)
    decreases |rows|
  {
    hide PlanRow, ImportItem, Backed, Landed, Extends, LiveCount, Effects, FillingCount;
    if rows == [] {
      NothingYet(start);
    } else {
      var rest, row := rows[..|rows| - 1], rows[|rows| - 1];
      RowsTakeEffect(normal, start, pool, rest);
      RowsAgree(normal, start, pool, rest);
      var plan := Planned(normal, pool, rest);
      var s := Imported(start, plan.items).value;
      PlannedKeys(normal, pool, rest);
      PlannedKeys(normal, pool, rows);
      StepAgrees(normal, start, plan, s, row);
      var item := PlanRow(normal, plan, row).items[|plan.items|];
      FreshKey(normal, plan, s, row);
      ImportGrows(s, item);
      EffectsStep(start, s, plan.items, item);
      assert Planned(normal, pool, rows).items == plan.items + [item];
      assert (plan.items + [item])[..|plan.items|] == plan.items;
    }
  }

  lemma FreshKey(normal: string -> string, plan: Plan, s: Progress, row: Row)
    requires !HasKey(plan.items, row.key) && forall key :: key in s.ids ==> HasKey(plan.items, key)
    ensures var item := PlanRow(normal, plan, row).items[|plan.items|]; item.row.key !in s.ids && item.row == row
  {
    hide MatchContact;
  }

  lemma NothingYet(start: Progress)
    requires start.ids == map[] && start.enriched == 0
    ensures Effects(start, start, [])
  {
  }

  /**
   What a committed import leaves: every used row in a contact that says at least as much, created ones in contacts of
   their own with all of the row; every field of every contact kept from before or told by a row that ended up there;
   and as many enrichments counted as rows that filled something.
   */
  lemma ImportLeaves(normal: string -> string, contacts: Table, categories: set<string>, deletable: seq<nat>, rows: seq<Row>)
    requires DistinctKeys(rows) && Deletable(contacts, deletable)
    ensures var items := Planned(normal, Pool(contacts, deletable, |contacts|), rows).items;
            var r, start := Executed(contacts, categories, deletable, items), Deleted(contacts, deletable);
            r.Done? ==> start.Done? && Effects(Progress(start.value, map[], 0, 0, 0), r.value.progress, items)
  {
    hide Backed, Planned, Imported, CategoriesKnown, Effects, Deleted;
    DeletedExactly(contacts, deletable);
    var start := Progress(Deleted(contacts, deletable).value, map[], 0, 0, 0);
    PoolBacked(contacts, start.contacts, deletable, |contacts|, start);
    RowsTakeEffect(normal, start, Pool(contacts, deletable, |contacts|), rows);
  }

  // ─── When an import leaves nothing ────────────────────────────────────────

  /** A contact to delete that is missing, or listed twice, stops the deletion. */
  lemma {:induction false} DeletionNeedsAll(contacts: Table, ids: seq<nat>)
    ensures Deleted(contacts, ids).Done? <==> Deletable(contacts, ids)
    ensures Deleted(contacts, ids).Aborted? ==> Deleted(contacts, ids).reason == MissingContact
    decreases |ids|
  {
    if ids != [] {
      var rest, id := ids[..|ids| - 1], ids[|ids| - 1];
      DeletionNeedsAll(contacts, rest);
      if Deletable(contacts, rest) {
        DeletedExactly(contacts, rest);
      }
    }
  }

  /** A row whose category is neither there nor the parents', which the import adds. */
  ghost predicate Homeless(categories: set<string>, items: seq<PlanItem>) {
    exists i :: 0 <= i < |items| && (items[i].action == Create || items[i].action == Reuse)
      && items[i].row.category != "PARENT_TUTEUR" && items[i].row.category !in categories
  }

  ghost predicate HasParents(items: seq<PlanItem>) {
    exists i :: 0 <= i < |items| && (items[i].action == Create || items[i].action == Reuse)
      && items[i].row.category == "PARENT_TUTEUR"
  }

  /** An import that stops on a contact to delete, then on a category; and otherwise the categories it leaves. */
  lemma ImportStopsIff(normal: string -> string, contacts: Table, categories: set<string>, deletable: seq<nat>, rows: seq<Row>)
    requires DistinctKeys(rows)
    ensures var items := Planned(normal, Pool(contacts, deletable, |contacts|), rows).items;
            match Executed(contacts, categories, deletable, items)
            case Aborted(reason) =>
              if Deletable(contacts, deletable) then reason == MissingCategory && Homeless(categories, items)
              else reason == MissingContact
            case Done(result) =>
              && Deletable(contacts, deletable) && !Homeless(categories, items) && result.deleted == |deletable|
              && result.categories == if HasParents(items) then categories + {"PARENT_TUTEUR"} else categories
  {
    hide Planned, Imported, Deleted, Pool, CountOf, Landed, LiveCount, Kept;
    DeletionNeedsAll(contacts, deletable);
    if Deletable(contacts, deletable) {
      PlanAndExecutionAgree(normal, contacts, categories, deletable, rows);
    }
  }

  /** Any item, planned here or not: only a reuse can stop, for want of a reference or of a contact behind it. */
  lemma ItemStopsIff(s: Progress, p: PlanItem)
    ensures var r := ImportItem(s, p);
            && (p.action in {Create, Skip, Ambiguous} ==> r.Done?)
            && (p.action == Reuse ==>
                  match p.matched
                  case Some(Existing(id)) => if Live(s.contacts, id) then r.Done? else r == Aborted(MissingContact)
                  case Some(Pending(key)) =>
                    if key !in s.ids then r == Aborted(Unresolved)
                    else if Live(s.contacts, s.ids[key]) then r.Done?
                    else r == Aborted(MissingContact)
                  case None => r == Aborted(Unresolved))
  {
    hide EnrichableFields, Enriched;
  }
}
