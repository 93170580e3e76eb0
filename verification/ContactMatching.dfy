/** besoin-import.util.ts: parsing the two sheets, normalising phones, and matching a row against known contacts. */
module ContactMatching {
  import opened Common

  // ─── Cards ────────────────────────────────────────────────────────────────

  /** The part of a contact the import reads and writes. */
  datatype Card = Card(fullName: string, functionTitle: Option<string>, phone: Option<string>, notes: Option<string>)

  datatype Field = FunctionTitle | Phone | Notes

  function Get(c: Card, f: Field): Option<string> {
    match f
    case FunctionTitle => c.functionTitle
    case Phone => c.phone
    case Notes => c.notes
  }

  /** null and the empty string are both falsy. */
  predicate Blank(o: Option<string>) {
    o.None? || o.value == ""
  }

  predicate CanEnrich(row: Card, existing: Card, f: Field) {
    Blank(Get(existing, f)) && !Blank(Get(row, f))
  }

  function EnrichableFields(row: Card, existing: Card): (fields: seq<Field>)
    ensures forall f :: f in fields <==> CanEnrich(row, existing, f)
    ensures forall i, j :: 0 <= i < j < |fields| ==> fields[i] != fields[j]
  {
    (if CanEnrich(row, existing, FunctionTitle) then [FunctionTitle] else [])
    + (if CanEnrich(row, existing, Phone) then [Phone] else [])
    + (if CanEnrich(row, existing, Notes) then [Notes] else [])
  }

  // ─── Phones ───────────────────────────────────────────────────────────────

  function Split(s: string): (parts: seq<string>)
    ensures |parts| >= 1
  {
    if s == "" then [""]
    else
      var rest := Split(s[1..]);
      if s[0] == '/' then [""] + rest else [[s[0]] + rest[0]] + rest[1..]
  }

  function Digits(s: string): string {
    if s == "" then ""
    else (if '0' <= s[0] <= '9' then [s[0]] else "") + Digits(s[1..])
  }

  /** The comparable number in one entry, without the country code; blanks around an entry hold no digit. */
  function NormalizePhone(entry: string): Option<string> {
    var digits := Digits(entry);
    if digits == "" then None
    else if |digits| > 9 && digits[..3] == "221" then Some(digits[3..])
    else Some(digits)
  }

  function PhonesIn(entries: seq<string>): set<string> {
    set e | e in entries && NormalizePhone(e).Some? :: NormalizePhone(e).value
  }

  function Phones(raw: Option<string>): set<string> {
    if Blank(raw) then {} else PhonesIn(Split(raw.value))
  }

  /** normalizePhones: every number of the cell, each once. */
  method NormalizePhones(raw: Option<string>) returns (seen: seq<string>)
    ensures forall p :: p in seen <==> p in Phones(raw)
    ensures forall i, j :: 0 <= i < j < |seen| ==> seen[i] != seen[j]
  {
    seen := [];
    if Blank(raw) {
      return;
    }
    var entries := Split(raw.value);
    for i := 0 to |entries|
      invariant forall p :: p in seen <==> p in PhonesIn(entries[..i])
      invariant forall i, j :: 0 <= i < j < |seen| ==> seen[i] != seen[j]
    {
      var n := NormalizePhone(entries[i]);
      assert entries[..i + 1] == entries[..i] + [entries[i]];
      assert forall e :: e in entries[..i + 1] <==> e in entries[..i] || e == entries[i];
      if n.Some? && n.value !in seen {
        seen := seen + [n.value];
      }
    }
    assert entries[..|entries|] == entries;
  }

  // ─── Matching ─────────────────────────────────────────────────────────────

  datatype Sheet = ContactsUtiles | ParentsOrphelins

  datatype Key = Key(sheet: Sheet, rowIndex: nat)

  /** A contact of the database, or one an earlier row is planned to create. */
  datatype Ref = Existing(id: nat) | Pending(key: Key)

  datatype Candidate = Candidate(ref: Ref, card: Card)

  datatype Action = Create | Reuse | Ambiguous | Skip

  datatype MatchedOn = PhoneAndName | NameOnly

  datatype Match = Match(action: Action, matched: Option<Ref>, matchedOn: Option<MatchedOn>, enriched: seq<Field>)

  predicate SharesPhone(row: Card, c: Candidate) {
    exists p :: p in Phones(row.phone) && p in Phones(c.card.phone)
  }

  predicate SameName(normal: string -> string, row: Card, c: Candidate) {
    normal(c.card.fullName) == normal(row.fullName)
  }

  function Filter(cs: seq<Candidate>, keep: Candidate -> bool): (r: seq<Candidate>)
    ensures forall c :: c in r <==> c in cs && keep(c)
  {
    if cs == [] then []
    else
      var kept := Filter(cs[..|cs| - 1], keep);
      assert cs == cs[..|cs| - 1] + [cs[|cs| - 1]];
      if keep(cs[|cs| - 1]) then kept + [cs[|cs| - 1]] else kept
  }

  function MatchContact(normal: string -> string, row: Card, candidates: seq<Candidate>): Match {
    var phoneMatches := Filter(candidates, c => SharesPhone(row, c));
    if |phoneMatches| > 0 then
      var sameName := Filter(phoneMatches, c => SameName(normal, row, c));
      if |sameName| == 1 then
        Match(Reuse, Some(sameName[0].ref), Some(PhoneAndName), EnrichableFields(row, sameName[0].card))
      else if |sameName| > 1 then
        Match(Ambiguous, None, Some(PhoneAndName), [])
      else
        Match(Create, None, None, [])
    else
      var nameMatches := if normal(row.fullName) == "" then [] else Filter(candidates, c => SameName(normal, row, c));
      if |nameMatches| == 1 then
        Match(Reuse, Some(nameMatches[0].ref), Some(NameOnly), EnrichableFields(row, nameMatches[0].card))
      else if |nameMatches| > 1 then
        Match(Ambiguous, None, Some(NameOnly), [])
      else
        Match(Create, None, None, [])
  }

  /** Reuse never crosses names: the chosen contact bears the row's own normalised name. */
  lemma ReuseSameName(normal: string -> string, row: Card, candidates: seq<Candidate>) returns (c: Candidate)
    requires MatchContact(normal, row, candidates).action == Reuse
    ensures c in candidates && SameName(normal, row, c)
    ensures var m := MatchContact(normal, row, candidates);
            && m.matched == Some(c.ref) && m.enriched == EnrichableFields(row, c.card)
            && (m.matchedOn == Some(PhoneAndName) <==> SharesPhone(row, c))
  {
    hide SharesPhone, EnrichableFields;
    var phoneMatches := Filter(candidates, c => SharesPhone(row, c));
    if |phoneMatches| > 0 {
      c := Filter(phoneMatches, c => SameName(normal, row, c))[0];
    } else {
      c := Filter(candidates, c => SameName(normal, row, c))[0];
      assert c in Filter(candidates, c => SameName(normal, row, c));
    }
  }

  // ─── What the decision means ──────────────────────────────────────────────

  ghost predicate NoneOf(cs: seq<Candidate>, keep: Candidate -> bool) {
    forall i :: 0 <= i < |cs| ==> !keep(cs[i])
  }

  ghost predicate OnlyOneOf(cs: seq<Candidate>, keep: Candidate -> bool) {
    exists i :: 0 <= i < |cs| && IsOnly(cs, keep, i)
  }

  ghost predicate IsOnly(cs: seq<Candidate>, keep: Candidate -> bool, i: int)
    requires 0 <= i < |cs|
  {
    keep(cs[i]) && forall j :: 0 <= j < |cs| && j != i ==> !keep(cs[j])
  }

  lemma {:induction false} FilterCounts(cs: seq<Candidate>, keep: Candidate -> bool)
    ensures |Filter(cs, keep)| == 0 <==> NoneOf(cs, keep)
    ensures |Filter(cs, keep)| == 1 <==> OnlyOneOf(cs, keep)
  {
    if cs != [] {
      var last := |cs| - 1;
      FilterCounts(cs[..last], keep);
      if keep(cs[last]) {
        assert NoneOf(cs[..last], keep) ==> IsOnly(cs, keep, last);
      } else if OnlyOneOf(cs[..last], keep) {
        var i :| 0 <= i < last && IsOnly(cs[..last], keep, i);
        assert IsOnly(cs, keep, i);
      } else if OnlyOneOf(cs, keep) {
        var i :| 0 <= i < |cs| && IsOnly(cs, keep, i);
        assert IsOnly(cs[..last], keep, i);
      }
    }
  }

  lemma {:induction false} FilterTwice(cs: seq<Candidate>, p: Candidate -> bool, q: Candidate -> bool)
    ensures Filter(Filter(cs, p), q) == Filter(cs, c => p(c) && q(c))
    decreases |cs|
  {
    if cs != [] {
      var last := |cs| - 1;
      FilterTwice(cs[..last], p, q);
      var kept := Filter(cs[..last], p);
      assert (kept + [cs[last]])[..|kept|] == kept;
    }
  }

  /** The candidates a row is compared with on name: those sharing a phone if there is any, otherwise all of them. */
  predicate Twin(normal: string -> string, row: Card, byPhone: bool, c: Candidate) {
    (byPhone ==> SharesPhone(row, c)) && SameName(normal, row, c)
  }

  /** Exactly one twin is reused, no twin means a new contact, and anything else is left to a person. */
  lemma MatchDecides(normal: string -> string, row: Card, candidates: seq<Candidate>)
    ensures var byPhone := !NoneOf(candidates, c => SharesPhone(row, c));
            var twin := c => Twin(normal, row, byPhone, c);
            var comparable := byPhone || normal(row.fullName) != "";
            var m := MatchContact(normal, row, candidates);
            && (m.action == Reuse <==> comparable && OnlyOneOf(candidates, twin))
            && (m.action == Create <==> !comparable || NoneOf(candidates, twin))
            && m.action != Skip
            && (m.action != Reuse ==> m.matched.None? && m.enriched == [])
            && (m.action == Create ==> m.matchedOn.None?)
            && (m.action == Ambiguous ==> m.matchedOn == Some(if byPhone then PhoneAndName else NameOnly))
  {
    hide SharesPhone, SameName, NoneOf, OnlyOneOf, EnrichableFields, Filter;
    var sharing, named := c => SharesPhone(row, c), c => SameName(normal, row, c);
    var both := c => sharing(c) && named(c);
    FilterCounts(candidates, sharing);
    if |Filter(candidates, sharing)| > 0 {
      var twin := c => Twin(normal, row, true, c);
      FilterTwice(candidates, sharing, named);
      SameFilter(candidates, both, twin);
      FilterCounts(candidates, twin);
    } else {
      var twin := c => Twin(normal, row, false, c);
      SameFilter(candidates, named, twin);
      FilterCounts(candidates, twin);
    }
  }

  lemma {:induction false} SameFilter(cs: seq<Candidate>, p: Candidate -> bool, q: Candidate -> bool)
    requires forall c :: p(c) == q(c)
    ensures Filter(cs, p) == Filter(cs, q)
  {
    if cs != [] {
      SameFilter(cs[..|cs| - 1], p, q);
    }
  }
}
