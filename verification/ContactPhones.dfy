/** Which numbers a phone cell writes, told from its characters, and what that means for matching. */
module ContactPhones {
  import opened Common
  import opened ContactMatching

  predicate IsDigit(c: char) {
    '0' <= c <= '9'
  }

  /** These digits, in this order, and no slash and no other digit between or around them. */
  predicate Spells(entry: string, digits: string) {
    if entry == "" then digits == ""
    else if IsDigit(entry[0]) then digits != "" && digits[0] == entry[0] && Spells(entry[1..], digits[1..])
    else entry[0] != '/' && Spells(entry[1..], digits)
  }

  /** The number an entry calls: the digits it spells, but after 221 when that leaves seven or more. */
  predicate Calls(entry: string, number: string) {
    && number != ""
    && (|| (Spells(entry, "221" + number) && |number| > 6)
        || (Spells(entry, number) && !(|number| > 9 && number[..3] == "221")))
  }

  function Joined(parts: seq<string>): string {
    if parts == [] then "" else if |parts| == 1 then parts[0] else parts[0] + "/" + Joined(parts[1..])
  }

  /** The parts of a cell are what stands between its slashes. */
  lemma {:induction false} SplitJoins(s: string)
    ensures Joined(Split(s)) == s
    ensures forall i :: 0 <= i < |Split(s)| ==> '/' !in Split(s)[i]
  {
    if s != "" {
      var rest := Split(s[1..]);
      SplitJoins(s[1..]);
      assert s == [s[0]] + s[1..];
      if s[0] == '/' {
        assert Split(s)[1..] == rest;
      } else {
        assert Split(s)[1..] == rest[1..];
      }
    }
  }

  lemma {:induction false} DigitsAreSpelled(entry: string, digits: string)
    requires '/' !in entry
    ensures Spells(entry, digits) <==> digits == Digits(entry)
  {
    if entry != "" {
      if IsDigit(entry[0]) {
        if digits != "" {
          DigitsAreSpelled(entry[1..], digits[1..]);
          assert digits == [digits[0]] + digits[1..];
        }
      } else {
        DigitsAreSpelled(entry[1..], digits);
      }
    }
  }

  /** Normalising finds the number an entry calls, and fails exactly when it calls none. */
  lemma NormalizedIsCalled(entry: string, number: string)
    requires '/' !in entry
    ensures NormalizePhone(entry) == Some(number) <==> Calls(entry, number)
  {
    hide Spells, Digits;
    var digits := Digits(entry);
    DigitsAreSpelled(entry, number);
    DigitsAreSpelled(entry, "221" + number);
    assert ("221" + number)[..3] == "221" && ("221" + number)[3..] == number;
    if |digits| > 9 && digits[..3] == "221" {
      assert digits == "221" + digits[3..];
    }
  }

  ghost predicate Writes(cell: string, number: string) {
    exists i :: 0 <= i < |Split(cell)| && Calls(Split(cell)[i], number)
  }

  /** The phones of a cell are exactly the numbers called by its entries. */
  lemma PhonesAreWritten(raw: Option<string>, number: string)
    ensures number in Phones(raw) <==> raw.Some? && Writes(raw.value, number)
  {
    hide Calls, Digits, NormalizePhone, Split;
    if raw.Some? {
      var parts := Split(raw.value);
      SplitJoins(raw.value);
      forall i | 0 <= i < |parts| ensures NormalizePhone(parts[i]) == Some(number) <==> Calls(parts[i], number) {
        NormalizedIsCalled(parts[i], number);
      }
      if raw.value == "" {
        assert !Writes("", number) by { NothingWritten(number); }
      }
    }
  }

  lemma NothingWritten(number: string)
    ensures !Writes("", number)
  {
    assert Split("") == [""];
  }

  /** A local number of nine digits. */
  predicate IsLocal(number: string) {
    |number| == 9 && forall i :: 0 <= i < 9 ==> IsDigit(number[i])
  }

  lemma {:induction false} SpellsOne(entry: string, a: string, b: string)
    requires Spells(entry, a) && Spells(entry, b)
    ensures a == b
  {
    if entry != "" {
      if IsDigit(entry[0]) {
        SpellsOne(entry[1..], a[1..], b[1..]);
        assert a == [a[0]] + a[1..] && b == [b[0]] + b[1..];
      } else {
        SpellsOne(entry[1..], a, b);
      }
    }
  }

  lemma {:induction false} SpelledHasNoSlash(entry: string, digits: string)
    requires Spells(entry, digits)
    ensures '/' !in entry && Split(entry) == [entry]
  {
    if entry != "" {
      SpelledHasNoSlash(entry[1..], if IsDigit(entry[0]) then digits[1..] else digits);
      assert entry == [entry[0]] + entry[1..];
    }
  }

  /** With or without the country code, and however it is set out, a local number is the one phone of its cell. */
  lemma CountryCodeIsIgnored(cell: string, number: string)
    requires IsLocal(number) && (Spells(cell, number) || Spells(cell, "221" + number))
    ensures Phones(Some(cell)) == {number}
  {
    hide Phones, Spells, Split;
    var digits := if Spells(cell, number) then number else "221" + number;
    SpelledHasNoSlash(cell, digits);
    forall p ensures p in Phones(Some(cell)) <==> p == number {
      PhonesAreWritten(Some(cell), p);
      assert Writes(cell, p) <==> Calls(Split(cell)[0], p);
      if Spells(cell, p) { SpellsOne(cell, p, digits); }
      if Spells(cell, "221" + p) {
        SpellsOne(cell, "221" + p, digits);
        assert ("221" + p)[3..] == p && ("221" + number)[3..] == number;
      }
    }
  }

  /** A cell with a slash has the phones of both sides. */
  lemma SlashUnites(a: string, b: string)
    ensures Phones(Some(a + "/" + b)) == Phones(Some(a)) + Phones(Some(b))
  {
    hide NormalizePhone, Digits;
    SplitConcat(a, b);
    assert Split("") == [""];
    assert NormalizePhone("").None? by { NoDigitsNoPhone(); }
    assert forall e :: e in Split(a + "/" + b) <==> e in Split(a) || e in Split(b);
  }

  lemma NoDigitsNoPhone()
    ensures NormalizePhone("").None?
  {
  }

  function Prefixed(c: char, parts: seq<string>): seq<string>
    requires parts != []
  {
    if c == '/' then [""] + parts else [[c] + parts[0]] + parts[1..]
  }

  lemma SplitCons(c: char, s: string)
    ensures Split([c] + s) == Prefixed(c, Split(s))
  {
    assert ([c] + s)[1..] == s;
  }

  lemma PrefixedConcat(c: char, first: seq<string>, rest: seq<string>)
    requires first != []
    ensures Prefixed(c, first + rest) == Prefixed(c, first) + rest
  {
    assert (first + rest)[1..] == first[1..] + rest;
  }

  lemma {:induction false} SplitConcat(a: string, b: string)
    ensures Split(a + "/" + b) == Split(a) + Split(b)
  {
    if a == "" {
      assert Split("") == [""];
      assert a + "/" + b == ['/'] + b;
      SplitCons('/', b);
    } else {
      hide Split, Prefixed;
      var c, t := a[0], a[1..];
      assert a == [c] + t && a + "/" + b == [c] + (t + "/" + b);
      SplitCons(c, t);
      SplitCons(c, t + "/" + b);
      SplitConcat(t, b);
      PrefixedConcat(c, Split(t), Split(b));
    }
  }

  // ─── Matching on what is written ──────────────────────────────────────────

  /** Two cards share a phone exactly when both write the same number. */
  lemma SharesWhatIsWritten(row: Card, c: Candidate)
    ensures SharesPhone(row, c) <==>
            && row.phone.Some? && c.card.phone.Some?
            && exists number :: Writes(row.phone.value, number) && Writes(c.card.phone.value, number)
  {
    hide Phones, Writes;
    forall number
      ensures number in Phones(row.phone) <==> row.phone.Some? && Writes(row.phone.value, number)
      ensures number in Phones(c.card.phone) <==> c.card.phone.Some? && Writes(c.card.phone.value, number)
    {
      PhonesAreWritten(row.phone, number);
      PhonesAreWritten(c.card.phone, number);
    }
  }

  /** The same subscriber, once with the country code and once without: the cards share a phone. */
  lemma SameSubscriber(row: Card, c: Candidate, number: string)
    requires IsLocal(number) && row.phone.Some? && c.card.phone.Some?
    requires Spells(row.phone.value, number) || Spells(row.phone.value, "221" + number)
    requires Spells(c.card.phone.value, number) || Spells(c.card.phone.value, "221" + number)
    ensures SharesPhone(row, c)
  {
    hide Phones, Spells;
    CountryCodeIsIgnored(row.phone.value, number);
    CountryCodeIsIgnored(c.card.phone.value, number);
  }

  /** Setting a row's numbers out differently changes nothing of what it is matched with. */
  lemma SpellingIsIrrelevant(normal: string -> string, row: Card, phone: string, candidates: seq<Candidate>)
    requires Phones(row.phone) == Phones(Some(phone)) && !Blank(row.phone) && phone != ""
    ensures MatchContact(normal, row.(phone := Some(phone)), candidates) == MatchContact(normal, row, candidates)
  {
    hide Phones, Filter;
    var respelled := row.(phone := Some(phone));
    SameFilter(candidates, c => SharesPhone(row, c), c => SharesPhone(respelled, c));
    var sharing := Filter(candidates, c => SharesPhone(row, c));
    SameFilter(candidates, c => SameName(normal, row, c), c => SameName(normal, respelled, c));
    SameFilter(sharing, c => SameName(normal, row, c), c => SameName(normal, respelled, c));
    assert forall c: Card :: EnrichableFields(row, c) == EnrichableFields(respelled, c);
  }
}
