/** besoin-import.util.ts: the two sheet parsers, and what they guarantee the import that follows. */
module ContactSheets {
  import opened Common
  import opened ContactMatching
  import opened ContactImport
  import opened ContactImportLaws

  /** A spreadsheet row, its cells already turned into text. */
  datatype SheetRow = SheetRow(nom: Option<string>, service: Option<string>, fonction: Option<string>, telephone: Option<string>,
                               notes: Option<string>, enfants: Option<string>, role: Option<string>)

  /** String.trim and toUpperCase, and the name normaliser. */
  datatype Text = Text(trim: string -> string, upper: string -> string, normal: string -> string)

  function Trimmed(text: Text, cell: Option<string>): Option<string> {
    if Blank(cell) then None else Some(text.trim(cell.value))
  }

  function CellText(cell: Option<string>): string {
    if cell.None? then "" else cell.value
  }

  /** SERVICE_TO_CATEGORY. */
  function ServiceToCategory(service: string): Option<string> {
    match service
    case "MEDICAL" => Some("SANTE")
    case "OUVRIER" => Some("ARTISAN")
    case "SOCIAL" => Some("SOCIAL")
    case "FOURNISSEUR" => Some("FOURNISSEUR")
    case "MEMBRES" => Some("SOCIAL")
    case "STAFF" => Some("PRESTATAIRE")
    case _ => None
  }

  const SERVICE_CATEGORIES: set<string> := {"SANTE", "ARTISAN", "SOCIAL", "FOURNISSEUR", "PRESTATAIRE"}

  function ContactsUtilesRow(text: Text, r: SheetRow, i: nat): Row {
    var nom := text.trim(CellText(r.nom));
    var service := if r.service.None? then None else Some(text.trim(r.service.value));
    var isEtat := text.normal(CellText(service)) == "etat";
    var category := if Blank(service) then None else ServiceToCategory(text.upper(service.value));
    Row(Key(ContactsUtiles, i + 2),
        Card(nom, Trimmed(text, r.fonction), Trimmed(text, r.telephone), Trimmed(text, r.notes)),
        if category.Some? then category.value else "",
        nom == "" || isEtat || category.None?)
  }

  function ParentNotes(text: Text, r: SheetRow): Option<string> {
    var enfants, notes := Trimmed(text, r.enfants), Trimmed(text, r.notes);
    var first := if Blank(enfants) then None else Some("Enfant(s) : " + enfants.value);
    if first.Some? && !Blank(notes) then Some(first.value + " — " + notes.value)
    else if first.Some? then first
    else if !Blank(notes) then notes
    else None
  }

  function ParentsOrphelinsRow(text: Text, r: SheetRow, i: nat): Row {
    var nom := text.trim(CellText(r.nom));
    Row(Key(ParentsOrphelins, i + 2),
        Card(nom, Trimmed(text, r.role), Trimmed(text, r.telephone), ParentNotes(text, r)),
        PARENT_TUTEUR_CATEGORY_KEY, nom == "")
  }

  function ParseContactsUtiles(text: Text, rows: seq<SheetRow>): seq<Row> {
    seq(|rows|, i requires 0 <= i < |rows| => ContactsUtilesRow(text, rows[i], i))
  }

  function ParseParentsOrphelins(text: Text, rows: seq<SheetRow>): seq<Row> {
    seq(|rows|, i requires 0 <= i < |rows| => ParentsOrphelinsRow(text, rows[i], i))
  }

  function AllRows(text: Text, utiles: seq<SheetRow>, parents: seq<SheetRow>): seq<Row> {
    ParseContactsUtiles(text, utiles) + ParseParentsOrphelins(text, parents)
  }

  // ─── What a row is taken to say ───────────────────────────────────────────

  /** The categories of the services that have one. */
  const CATEGORY_OF: map<string, string> :=
    map["MEDICAL" := "SANTE", "OUVRIER" := "ARTISAN", "SOCIAL" := "SOCIAL", "FOURNISSEUR" := "FOURNISSEUR",
        "MEMBRES" := "SOCIAL", "STAFF" := "PRESTATAIRE"]

  /** An absent or empty cell says nothing, any other its trimmed text. */
  ghost predicate Says(text: Text, field: Option<string>, cell: Option<string>) {
    if cell.Some? && cell.value != "" then field == Some(text.trim(cell.value)) else field.None?
  }

  /** Rows count from 2; a row is left out without a name, for the state's own services, and for a service of no category. */
  lemma UtilesRowSays(text: Text, r: SheetRow, i: nat)
    ensures var row := ContactsUtilesRow(text, r, i);
            && row.key == Key(ContactsUtiles, i + 2)
            && row.card.fullName == text.trim(if r.nom.Some? then r.nom.value else "")
            && Says(text, row.card.functionTitle, r.fonction) && Says(text, row.card.phone, r.telephone)
            && Says(text, row.card.notes, r.notes)
            && (!row.excluded <==>
                  && row.card.fullName != "" && r.service.Some? && text.trim(r.service.value) != ""
                  && text.normal(text.trim(r.service.value)) != "etat" && text.upper(text.trim(r.service.value)) in CATEGORY_OF)
            && (!row.excluded ==> row.category == CATEGORY_OF[text.upper(text.trim(r.service.value))])
  {
  }

  /** A parent's row is left out only without a name; the children come first in its notes. */
  lemma ParentsRowSays(text: Text, r: SheetRow, i: nat)
    ensures var row := ParentsOrphelinsRow(text, r, i);
            && row.key == Key(ParentsOrphelins, i + 2) && row.category == "PARENT_TUTEUR"
            && row.card.fullName == text.trim(if r.nom.Some? then r.nom.value else "")
            && Says(text, row.card.functionTitle, r.role) && Says(text, row.card.phone, r.telephone)
            && (row.excluded <==> row.card.fullName == "")
            && forall enfants, notes :: Says(text, enfants, r.enfants) && Says(text, notes, r.notes) ==>
                 row.card.notes == NotesOf(enfants, notes)
  {
  }

  function NotesOf(enfants: Option<string>, notes: Option<string>): Option<string> {
    match (enfants, notes)
    case (Some(c), Some(n)) =>
      if c == "" && n == "" then None
      else if c == "" then notes
      else if n == "" then Some("Enfant(s) : " + c)
      else Some("Enfant(s) : " + c + " — " + n)
    case (Some(c), None) => if c == "" then None else Some("Enfant(s) : " + c)
    case (None, Some(n)) => if n == "" then None else notes
    case (None, None) => None
  }

  /** Sheet and row number identify a row, and only named rows of a known category get through. */
  lemma RowsAreSound(text: Text, utiles: seq<SheetRow>, parents: seq<SheetRow>)
    ensures var rows := AllRows(text, utiles, parents);
            && DistinctKeys(rows)
            && forall i :: 0 <= i < |rows| && !rows[i].excluded ==>
                 && rows[i].card.fullName != ""
                 && (rows[i].category == PARENT_TUTEUR_CATEGORY_KEY || rows[i].category in SERVICE_CATEGORIES)
  {
    hide ParentNotes, Trimmed;
    forall r: SheetRow, i: nat
      ensures var row := ContactsUtilesRow(text, r, i);
              !row.excluded ==> row.card.fullName != "" && row.category in SERVICE_CATEGORIES
    {
    }
  }

  lemma {:induction false} UsedRowsAreIncluded(normal: string -> string, pool: seq<Candidate>, rows: seq<Row>)
    ensures forall i :: 0 <= i < |rows| ==>
              Planned(normal, pool, rows).items[i].row == rows[i]
              && (Planned(normal, pool, rows).items[i].action == Skip <==> rows[i].excluded)
    decreases |rows|
  {
    hide MatchContact;
    if rows != [] {
      var rest, row := rows[..|rows| - 1], rows[|rows| - 1];
      UsedRowsAreIncluded(normal, pool, rest);
      NeverSkipped(normal, row.card, Planned(normal, pool, rest).candidates);
    }
  }

  lemma NeverSkipped(normal: string -> string, row: Card, candidates: seq<Candidate>)
    ensures MatchContact(normal, row, candidates).action != Skip
  {
  }

  /**
   Whatever the two sheets hold, an import into a database that has the five service categories commits, creating the
   parent category itself when needed.
   */
  lemma ImportCommits(text: Text, contacts: Table, categories: set<string>, deletable: seq<nat>,
                      utiles: seq<SheetRow>, parents: seq<SheetRow>)
    requires Deletable(contacts, deletable) && SERVICE_CATEGORIES <= categories
    ensures var items := Planned(text.normal, Pool(contacts, deletable, |contacts|), AllRows(text, utiles, parents)).items;
            Executed(contacts, categories, deletable, items).Done?
  {
    hide AllRows, Executed, Planned, Landed, Kept;
    var rows, pool := AllRows(text, utiles, parents), Pool(contacts, deletable, |contacts|);
    var items := Planned(text.normal, pool, rows).items;
    RowsAreSound(text, utiles, parents);
    UsedRowsAreIncluded(text.normal, pool, rows);
    PlanAndExecutionAgree(text.normal, contacts, categories, deletable, rows);
    forall i | 0 <= i < |items| ensures Known(categories, items[i]) {
    }
  }
}
