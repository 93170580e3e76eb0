/** wrapText of pdf-report.service.ts: greedy line breaking uses as few lines as any breaking can. */
module WrapText {
  import opened Common

  // ─── Words ────────────────────────────────────────────────────────────────

  predicate Solid(word: string) {
    forall i :: 0 <= i < |word| ==> !IsSpace(word[i])
  }

  /** The text up to its first white space. */
  function FirstWord(text: string): (word: string)
    ensures word <= text && Solid(word)
    ensures |word| < |text| ==> IsSpace(text[|word|])
  {
    if text == "" || IsSpace(text[0]) then "" else [text[0]] + FirstWord(text[1..])
  }

  /** split(/\s+/) without its empty pieces. */
  function Words(text: string): (words: seq<string>)
    ensures forall i :: 0 <= i < |words| ==> words[i] != "" && Solid(words[i])
    decreases |text|
  {
    if text == "" then []
    else if IsSpace(text[0]) then Words(text[1..])
    else
      var word := FirstWord(text);
      [word] + Words(text[|word|..])
  }

  function WithoutSpaces(text: string): string {
    if text == "" then ""
    else (if IsSpace(text[0]) then "" else [text[0]]) + WithoutSpaces(text[1..])
  }

  function Concat(words: seq<string>): string {
    if words == [] then "" else words[0] + Concat(words[1..])
  }

  lemma {:induction false} WithoutSpacesSplit(word: string, rest: string)
    requires Solid(word)
    ensures WithoutSpaces(word + rest) == word + WithoutSpaces(rest)
  {
    if word == "" {
      assert word + rest == rest;
    } else {
      assert (word + rest)[1..] == word[1..] + rest;
      WithoutSpacesSplit(word[1..], rest);
      assert word == [word[0]] + word[1..];
    }
  }

  /** The words are all of the text but its white space, in order. */
  lemma {:induction false} WordsKeepText(text: string)
    ensures Concat(Words(text)) == WithoutSpaces(text)
    decreases |text|
  {
    hide IsSpace;
    if text != "" {
      if IsSpace(text[0]) {
        WordsKeepText(text[1..]);
      } else {
        var word := FirstWord(text);
        assert word != "" && text == word + text[|word|..];
        WordsKeepText(text[|word|..]);
        WithoutSpacesSplit(word, text[|word|..]);
        assert Words(text)[1..] == Words(text[|word|..]);
      }
    }
  }

  // ─── Lines ────────────────────────────────────────────────────────────────

  /** Words joined by single spaces. */
  function Join(words: seq<string>): string {
    if words == [] then ""
    else if |words| == 1 then words[0]
    else Join(words[..|words| - 1]) + " " + words[|words| - 1]
  }

  /** The line made of words i to j. */
  function Run(words: seq<string>, i: nat, j: nat): string
    requires i <= j <= |words|
  {
    Join(words[i..j])
  }

  // ─── Where a text breaks ──────────────────────────────────────────────────

  lemma {:induction false} FirstWordStops(text: string, rest: string)
    requires rest == "" || IsSpace(rest[0])
    ensures FirstWord(text + rest) == FirstWord(text)
  {
    hide IsSpace;
    if text == "" {
      assert text + rest == rest;
    } else {
      assert (text + rest)[1..] == text[1..] + rest;
      FirstWordStops(text[1..], rest);
    }
  }

  lemma {:induction false} FirstOfSolid(word: string)
    requires Solid(word)
    ensures FirstWord(word) == word
  {
    hide IsSpace;
    if word != "" {
      FirstOfSolid(word[1..]);
      assert word == [word[0]] + word[1..];
    }
  }

  /** A text without white space is one word. */
  lemma WordOfSolid(word: string)
    requires Solid(word) && word != ""
    ensures Words(word) == [word]
  {
    hide IsSpace;
    FirstOfSolid(word);
    assert word[|word|..] == "";
  }

  /** White space separates: the words before it, then the words after it. */
  lemma {:induction false} WordsSplit(before: string, space: char, after: string)
    requires IsSpace(space)
    ensures Words(before + [space] + after) == Words(before) + Words(after)
    decreases |before|
  {
    hide IsSpace;
    var text := before + [space] + after;
    if before == "" {
      assert text[1..] == after;
    } else if IsSpace(before[0]) {
      assert text[1..] == before[1..] + [space] + after;
      WordsSplit(before[1..], space, after);
    } else {
      var word := FirstWord(before);
      assert text == before + ([space] + after);
      FirstWordStops(before, [space] + after);
      assert word != "" && text[|word|..] == before[|word|..] + [space] + after;
      WordsSplit(before[|word|..], space, after);
    }
  }

  /** Joining words and splitting again gives them back, so a wrapped line has just the words it was made of. */
  lemma {:induction false} WordsOfJoin(words: seq<string>)
    requires forall i :: 0 <= i < |words| ==> words[i] != "" && Solid(words[i])
    ensures Words(Join(words)) == words
  {
    hide IsSpace;
    if |words| == 1 {
      WordOfSolid(words[0]);
    } else if words != [] {
      var last := |words| - 1;
      WordsOfJoin(words[..last]);
      WordOfSolid(words[last]);
      assert IsSpace(' ') by { BlankIsSpace(); }
      WordsSplit(Join(words[..last]), ' ', words[last]);
      assert Join(words) == Join(words[..last]) + [' '] + words[last];
    }
  }

  lemma BlankIsSpace()
    ensures IsSpace(' ')
  {
  }

  // ─── Breakings ────────────────────────────────────────────────────────────

  /** One line: the words from `from` up to, and excluding, `to`. */
  datatype Span = Span(from: nat, to: nat)

  predicate InText(s: Span, n: nat) {
    s.from < s.to <= n
  }

  function End(spans: seq<Span>): nat {
    if spans == [] then 0 else spans[|spans| - 1].to
  }

  /** Consecutive non-empty lines covering the first words of a text of n words, in order. */
  ghost predicate Consecutive(spans: seq<Span>, n: nat) {
    && (forall k :: 0 <= k < |spans| ==> InText(spans[k], n))
    && (spans != [] ==> spans[0].from == 0)
    && (forall j, k :: 0 <= j < k < |spans| && k == j + 1 ==> spans[j].to == spans[k].from)
  }

  ghost predicate IsBreaking(spans: seq<Span>, n: nat) {
    Consecutive(spans, n) && End(spans) == n
  }

  predicate LineFits(words: seq<string>, s: Span, width: string -> real, maxWidth: real)
    requires InText(s, |words|)
  {
    s.to - s.from >= 2 ==> width(Run(words, s.from, s.to)) <= maxWidth
  }

  /** Every line of two or more words fits; a single word may be too wide by itself. */
  ghost predicate Fits(words: seq<string>, spans: seq<Span>, width: string -> real, maxWidth: real)
    requires Consecutive(spans, |words|)
  {
    forall k :: 0 <= k < |spans| ==> LineFits(words, spans[k], width, maxWidth)
  }

  predicate LineFull(words: seq<string>, s: Span, width: string -> real, maxWidth: real)
    requires InText(s, |words|)
  {
    s.to < |words| ==> width(Run(words, s.from, s.to + 1)) > maxWidth
  }

  /** No line but the last could have taken the next word. */
  ghost predicate Greedy(words: seq<string>, spans: seq<Span>, width: string -> real, maxWidth: real)
    requires Consecutive(spans, |words|)
  {
    forall k :: 0 <= k < |spans| ==> LineFull(words, spans[k], width, maxWidth)
  }

  /** A run of words is no wider than any run of consecutive words containing it. */
  ghost predicate Monotone(words: seq<string>, width: string -> real) {
    forall a: nat, i: nat, j: nat, b: nat :: a <= i < j <= b <= |words| ==> width(Run(words, i, j)) <= width(Run(words, a, b))
  }

  // ─── Optimality ───────────────────────────────────────────────────────────

  lemma NarrowerInside(words: seq<string>, width: string -> real, a: nat, i: nat, j: nat, b: nat)
    requires Monotone(words, width) && a <= i < j <= b <= |words|
    ensures width(Run(words, i, j)) <= width(Run(words, a, b))
  {
    hide Run;
  }

  /** Greedy line k ends no earlier than line k of any breaking whose multi-word lines fit. */
  lemma {:induction false} GreedyStaysAhead(words: seq<string>, greedy: seq<Span>, other: seq<Span>,
                                            width: string -> real, maxWidth: real, k: nat)
    requires IsBreaking(greedy, |words|) && Greedy(words, greedy, width, maxWidth) && Monotone(words, width)
    requires IsBreaking(other, |words|) && Fits(words, other, width, maxWidth)
    requires k < |greedy| && k < |other|
    ensures other[k].to <= greedy[k].to
  {
    hide Run, Monotone;
    var g, o := greedy[k], other[k];
    if k > 0 {
      GreedyStaysAhead(words, greedy, other, width, maxWidth, k - 1);
      assert greedy[k - 1].to == g.from && other[k - 1].to == o.from;
    }
    assert LineFits(words, o, width, maxWidth) && LineFull(words, g, width, maxWidth);
    if g.to < o.to {
      NarrowerInside(words, width, o.from, g.from, g.to + 1, o.to);
    }
  }

  lemma GreedyIsShortest(words: seq<string>, greedy: seq<Span>, other: seq<Span>, width: string -> real, maxWidth: real)
    requires IsBreaking(greedy, |words|) && Greedy(words, greedy, width, maxWidth) && Monotone(words, width)
    requires IsBreaking(other, |words|) && Fits(words, other, width, maxWidth)
    ensures |greedy| <= |other|
  {
    hide Greedy, Fits, Monotone;
    assert greedy != [] ==> InText(greedy[0], |words|);
    if 0 < |other| < |greedy| {
      var last := |other| - 1;
      assert greedy[last].to == greedy[last + 1].from && InText(greedy[last + 1], |words|);
      GreedyStaysAhead(words, greedy, other, width, maxWidth, last);
    }
  }

  // ─── The loop ─────────────────────────────────────────────────────────────

  /** The lines pushed so far: the first words in order, broken greedily. */
  ghost predicate Wrapped(words: seq<string>, spans: seq<Span>, lines: seq<string>, width: string -> real, maxWidth: real) {
    && Consecutive(spans, |words|)
    && |lines| == |spans|
    && (forall k :: 0 <= k < |spans| ==> lines[k] == Run(words, spans[k].from, spans[k].to))
    && Fits(words, spans, width, maxWidth)
    && Greedy(words, spans, width, maxWidth)
  }

  lemma PushLine(words: seq<string>, spans: seq<Span>, lines: seq<string>, i: nat, width: string -> real, maxWidth: real)
    requires Wrapped(words, spans, lines, width, maxWidth) && End(spans) < i <= |words|
    requires var s := Span(End(spans), i); LineFits(words, s, width, maxWidth) && LineFull(words, s, width, maxWidth)
    ensures Wrapped(words, spans + [Span(End(spans), i)], lines + [Run(words, End(spans), i)], width, maxWidth)
  {
    hide Run, LineFits, LineFull;
  }

  lemma RunExtends(words: seq<string>, i: nat, j: nat)
    requires i <= j < |words| && forall k :: 0 <= k < |words| ==> words[k] != ""
    ensures Run(words, i, j) == "" <==> i == j
    ensures Run(words, i, j + 1) == if i == j then words[j] else Run(words, i, j) + " " + words[j]
  {
    assert words[i..j + 1][..j - i] == words[i..j];
    if j - i > 1 {
      assert words[i..j][|words[i..j]| - 1] == words[j - 1];
    }
  }

  lemma WrappedIsShortest(words: seq<string>, spans: seq<Span>, lines: seq<string>, width: string -> real, maxWidth: real)
    requires Wrapped(words, spans, lines, width, maxWidth) && End(spans) == |words|
    ensures Monotone(words, width) ==>
      forall other :: IsBreaking(other, |words|) && Fits(words, other, width, maxWidth) ==> |lines| <= |other|
  {
    hide Run, Monotone, Fits, Greedy;
    if Monotone(words, width) {
      forall other | IsBreaking(other, |words|) && Fits(words, other, width, maxWidth)
        ensures |lines| <= |other|
      {
        GreedyIsShortest(words, spans, other, width, maxWidth);
      }
    }
  }

  /**
   The loop over the words of a text. All words are kept in order, every line of two or more words fits, and, when runs of words
   are no wider than the runs around them, no order-preserving breaking whose multi-word lines fit has fewer lines.
   */
  method Wrap(text: string, width: string -> real, maxWidth: real) returns (lines: seq<string>)
    ensures Words(text) == [] ==> lines == [""]
    ensures Words(text) != [] ==>
      exists spans :: End(spans) == |Words(text)| && Wrapped(Words(text), spans, lines, width, maxWidth)
    ensures Words(text) != [] && Monotone(Words(text), width) ==>
      forall other :: IsBreaking(other, |Words(text)|) && Fits(Words(text), other, width, maxWidth) ==> |lines| <= |other|
  {
    hide Run, Monotone, Words, IsSpace;
    var words := Words(text);
    lines := [];
    var current := "";
    ghost var spans: seq<Span> := [];
    for i := 0 to |words|
      invariant Wrapped(words, spans, lines, width, maxWidth)
      invariant if i == 0 then current == "" && spans == [] && End(spans) == 0
                else End(spans) < i && current == Run(words, End(spans), i) && current != ""
      invariant i - End(spans) >= 2 ==> width(current) <= maxWidth
    {
      var word := words[i];
      RunExtends(words, End(spans), i);
      RunExtends(words, i, i);
      var candidate := if current != "" then current + " " + word else word;
      if width(candidate) > maxWidth && current != "" {
        PushLine(words, spans, lines, i, width, maxWidth);
        lines := lines + [current];
        spans := spans + [Span(End(spans), i)];
        current := word;
      } else {
        current := candidate;
      }
    }
    if current != "" {
      PushLine(words, spans, lines, |words|, width, maxWidth);
      lines := lines + [current];
      spans := spans + [Span(End(spans), |words|)];
      WrappedIsShortest(words, spans, lines, width, maxWidth);
    }
    if lines == [] {
      lines := [""];
    }
  }
}
