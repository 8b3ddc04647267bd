/**
 The exhaustive metric scan: full-text narrowing by compact and dotted phrase variants, then the
 same complete-word check a full scan would apply.
 */
module ExactScan {
  import opened Models
  import opened TextRuns
  import opened MetricTokens

  type Span = (nat, nat)

  datatype Row = Row(id: string, text: string)

  // ----- complete-word phrase matching -----

  predicate Formatting(c: char) {
    c in " \t\n\r/&+'\"()[]{}-" || c in "\U{2010}\U{2011}\U{2012}\U{2013}\U{2014}"
  }

  predicate FormattingGap(text: string, start: nat, end: nat) {
    start < end <= |text| && forall k | start <= k < end :: Formatting(text[k])
  }

  predicate SameLexeme(a: Token, b: Token, preserveKind: bool) {
    if preserveKind then a.Identity() == b.Identity() else a.value == b.value
  }

  /** Only formatting stands between token `j` and the next one. */
  predicate GapAt(observed: seq<Token>, text: string, j: nat) {
    j + 1 < |observed| && FormattingGap(text, observed[j].end, observed[j + 1].start)
  }

  predicate WindowMatches(expected: seq<Token>, observed: seq<Token>, text: string, i: nat, preserveKind: bool) {
    && i + |expected| <= |observed|
    && (forall k | 0 <= k < |expected| :: SameLexeme(expected[k], observed[i + k], preserveKind))
    && (forall j | i <= j < i + |expected| - 1 :: GapAt(observed, text, j))
  }

  function SpansBefore(expected: seq<Token>, observed: seq<Token>, text: string, n: nat, preserveKind: bool): seq<Span>
    requires expected != []
  {
    if n == 0 then []
    else
      SpansBefore(expected, observed, text, n - 1, preserveKind)
      + (if WindowMatches(expected, observed, text, n - 1, preserveKind)
         then [(observed[n - 1].start, observed[n + |expected| - 2].end)] else [])
  }

  /** Windows that may start in a text of so many tokens. */
  function Windows(expected: seq<Token>, observed: seq<Token>): nat {
    if |expected| <= |observed| then |observed| - |expected| + 1 else 0
  }

  /** All spans of a phrase in a text, one per matching window of tokens. */
  function PhraseSpans(needle: string, text: string, preserveKind: bool): seq<Span> {
    var expected, observed := Tokens(needle), Tokens(text);
    if expected == [] then [] else SpansBefore(expected, observed, text, Windows(expected, observed), preserveKind)
  }

  method CheckWindow(expected: seq<Token>, observed: seq<Token>, text: string, i: nat, preserveKind: bool)
    returns (matches: bool)
    requires expected != [] && i + |expected| <= |observed|
    ensures matches == WindowMatches(expected, observed, text, i, preserveKind)
  {
    for k := 0 to |expected|
      invariant forall j | 0 <= j < k :: SameLexeme(expected[j], observed[i + j], preserveKind)
    {
      if !SameLexeme(expected[k], observed[i + k], preserveKind) {
        return false;
      }
    }
    for k := i to i + |expected| - 1
      invariant forall j | i <= j < k :: GapAt(observed, text, j)
    {
      if !GapAt(observed, text, k) {
        return false;
      }
    }
    return true;
  }

  method WordPhraseSpans(needle: string, text: string, preserveKind: bool) returns (spans: seq<Span>)
    ensures spans == PhraseSpans(needle, text, preserveKind)
  {
    hide WindowMatches;
    var expected, observed := Tokens(needle), Tokens(text);
    spans := [];
    if expected == [] {
      return;
    }
    var width := |expected|;
    for i := 0 to Windows(expected, observed)
      invariant spans == SpansBefore(expected, observed, text, i, preserveKind)
    {
      var matches := CheckWindow(expected, observed, text, i, preserveKind);
      if matches {
        spans := spans + [(observed[i].start, observed[i + width - 1].end)];
      }
    }
  }

  lemma {:induction false} SpanNeedsWindow(expected: seq<Token>, observed: seq<Token>, text: string, n: nat,
      preserveKind: bool)
    requires expected != [] && SpansBefore(expected, observed, text, n, preserveKind) != []
    ensures exists i | 0 <= i < n :: WindowMatches(expected, observed, text, i, preserveKind)
  {
    if !WindowMatches(expected, observed, text, n - 1, preserveKind) {
      SpanNeedsWindow(expected, observed, text, n - 1, preserveKind);
    }
  }

  lemma {:induction false} WindowForward(expected: seq<Token>, observed: seq<Token>, text: string, i: nat,
      k: nat, preserveKind: bool)
    requires WindowMatches(expected, observed, text, i, preserveKind) && k < |expected|
    requires forall t | t in observed :: t.start < t.end
    ensures observed[i].start < observed[i + k].end
  {
    assert observed[i + k] in observed;
    if k > 0 {
      WindowForward(expected, observed, text, i, k - 1, preserveKind);
      assert GapAt(observed, text, i + k - 1);
    }
  }

  lemma {:induction false} SpansInside(expected: seq<Token>, observed: seq<Token>, text: string, n: nat,
      preserveKind: bool)
    requires expected != [] && n <= Windows(expected, observed)
    requires forall t | t in observed :: t.start < t.end <= |text|
    ensures forall span | span in SpansBefore(expected, observed, text, n, preserveKind) :: span.0 < span.1 <= |text|
  {
    hide WindowMatches;
    if n > 0 {
      SpansInside(expected, observed, text, n - 1, preserveKind);
      if WindowMatches(expected, observed, text, n - 1, preserveKind) {
        WindowForward(expected, observed, text, n - 1, |expected| - 1, preserveKind);
        assert observed[n + |expected| - 2] in observed;
      }
    }
  }

  /** The spans of a phrase are nonempty and lie inside the text. */
  lemma PhraseSpansInside(needle: string, text: string, preserveKind: bool)
    ensures forall span | span in PhraseSpans(needle, text, preserveKind) :: span.0 < span.1 <= |text|
  {
    hide SpansBefore, TokensFrom;
    TokensCanonical(text, 0, false);
    assert Tokens(text) == TokensFrom(text, 0, false);
    if Tokens(needle) != [] {
      SpansInside(Tokens(needle), Tokens(text), text, Windows(Tokens(needle), Tokens(text)), preserveKind);
    }
  }

  // ----- phrase variants -----

  /** One token as the full-text index may hold it: compact, or spelled out letter by letter. */
  function Alternatives(t: Token): seq<string> {
    if t.kind == Initialism then [t.value, Join(Singles(t.value), " ")] else [t.value]
  }

  function Prepend(heads: seq<string>, tails: seq<seq<string>>): seq<seq<string>> {
    if heads == [] then []
    else seq(|tails|, i requires 0 <= i < |tails| => [heads[0]] + tails[i]) + Prepend(heads[1..], tails)
  }

  /** The Cartesian product of the alternatives, the first token varying slowest. */
  function Product(tokens: seq<Token>): seq<seq<string>> {
    if tokens == [] then [[]] else Prepend(Alternatives(tokens[0]), Product(tokens[1..]))
  }

  function VariantCount(tokens: seq<Token>): nat {
    if tokens == [] then 1
    else VariantCount(tokens[1..]) * (if tokens[0].kind == Initialism then 2 else 1)
  }

  datatype Phrases = NoTokens | TooMany | Phrases(variants: seq<string>)

  const MAX_VARIANTS: nat := 64

  function PhraseVariants(metric: string, maxVariants: nat): Phrases {
    var tokens := Tokens(metric);
    if tokens == [] then NoTokens
    else if VariantCount(tokens) > maxVariants then TooMany
    else Phrases(seq(|Product(tokens)|, i requires 0 <= i < |Product(tokens)| => Join(Product(tokens)[i], " ")))
  }

  predicate OccursAt(part: seq<string>, whole: seq<string>, i: nat) {
    i + |part| <= |whole| && whole[i..i + |part|] == part
  }

  predicate Occurs(part: seq<string>, whole: seq<string>) {
    exists i | 0 <= i <= |whole| :: OccursAt(part, whole, i)
  }

  /** A full-text phrase query: the phrase's terms occur consecutively in the text's terms. */
  predicate PhraseOccurs(phrase: string, text: string) {
    var p, t := SearchTerms(phrase), SearchTerms(text);
    p != [] && Occurs(p, t)
  }

  predicate IndexMatches(variants: seq<string>, text: string) {
    exists i | 0 <= i < |variants| :: PhraseOccurs(variants[i], text)
  }

  // ----- the index misses no match -----

  /** How one observed token was written. */
  function Written(t: Token): string {
    if t.dotted then Join(Singles(t.value), " ") else t.value
  }

  function WrittenAll(tokens: seq<Token>): seq<string> {
    seq(|tokens|, i requires 0 <= i < |tokens| => Written(tokens[i]))
  }

  lemma {:induction false} InPrepend(heads: seq<string>, tails: seq<seq<string>>, h: string, t: seq<string>)
    requires h in heads && t in tails
    ensures [h] + t in Prepend(heads, tails)
  {
    if h == heads[0] {
      var i :| 0 <= i < |tails| && tails[i] == t;
      assert Prepend(heads, tails)[i] == [h] + t;
    } else {
      InPrepend(heads[1..], tails, h, t);
    }
  }

  /** The same value, and written with dots only if the metric's token is an initialism. */
  predicate Spellable(expected: Token, observed: Token) {
    expected.value == observed.value && Canonical(observed) && (observed.dotted ==> expected.kind == Initialism)
  }

  /** However such a window was written, the product contains that spelling. */
  lemma {:induction false} SpellingInProduct(expected: seq<Token>, window: seq<Token>)
    requires |expected| == |window|
    requires forall k | 0 <= k < |expected| :: Spellable(expected[k], window[k])
    ensures WrittenAll(window) in Product(expected)
  {
    if expected == [] {
      assert WrittenAll(window) == [] && Product(expected)[0] == [];
    } else {
      SpellingInProduct(expected[1..], window[1..]);
      assert Written(window[0]) in Alternatives(expected[0]);
      InPrepend(Alternatives(expected[0]), Product(expected[1..]), Written(window[0]), WrittenAll(window[1..]));
      assert WrittenAll(window) == [Written(window[0])] + WrittenAll(window[1..]);
    }
  }

  lemma {:induction false} SinglesTerms(s: string)
    requires AllIn(s, AlNum)
    ensures Runs(Join(Singles(s), " "), AlNum) == Singles(s)
  {
    RunsOfJoin(Singles(s), " ", AlNum);
    FlattenSingles(s);
  }

  lemma {:induction false} FlattenSingles(s: string)
    requires AllIn(s, AlNum)
    ensures Flatten(RunsOfEach(Singles(s), AlNum)) == Singles(s)
  {
    if s != "" {
      FlattenSingles(s[1..]);
      SingleRun([s[0]], AlNum);
      assert Singles(s)[1..] == Singles(s[1..]);
      assert RunsOfEach(Singles(s), AlNum)[1..] == RunsOfEach(Singles(s[1..]), AlNum);
      assert Singles(s) == [[s[0]]] + Singles(s[1..]);
    }
  }

  lemma LowerSingle(s: string, i: nat)
    requires i < |s| && Lower(s) == s
    ensures Lower([s[i]]) == [s[i]]
  {
    assert Lower(s)[i] == LowerChar(s[i]);
  }

  /** A token spelled as it was observed has the terms it was observed with. */
  lemma WrittenTerms(t: Token)
    requires Canonical(t)
    ensures Runs(Written(t), AlNum) == Terms(t) && LowerAll(Terms(t)) == Terms(t)
  {
    if t.dotted {
      SinglesTerms(t.value);
      forall i | 0 <= i < |t.value| ensures Lower(Singles(t.value)[i]) == Singles(t.value)[i] {
        LowerSingle(t.value, i);
      }
    } else {
      SingleRun(t.value, AlNum);
    }
  }

  lemma {:induction false} WrittenAllTerms(window: seq<Token>)
    requires forall t | t in window :: Canonical(t)
    ensures Flatten(RunsOfEach(WrittenAll(window), AlNum)) == TermsOf(window)
    ensures LowerAll(TermsOf(window)) == TermsOf(window)
  {
    hide Canonical, Written, Terms;
    if window != [] {
      WrittenAllTerms(window[1..]);
      WrittenTerms(window[0]);
      assert WrittenAll(window)[1..] == WrittenAll(window[1..]);
      assert RunsOfEach(WrittenAll(window), AlNum)[1..] == RunsOfEach(WrittenAll(window[1..]), AlNum);
      LowerAllConcatenation(Terms(window[0]), TermsOf(window[1..]));
    }
  }

  /** The spelling of a window, searched for as a phrase, has exactly the window's terms. */
  lemma SpellingTerms(window: seq<Token>)
    requires forall t | t in window :: Canonical(t)
    ensures SearchTerms(Join(WrittenAll(window), " ")) == TermsOf(window)
  {
    RunsOfJoin(WrittenAll(window), " ", AlNum);
    WrittenAllTerms(window);
  }

  lemma MiddleOccurs(before: seq<string>, part: seq<string>, after: seq<string>)
    ensures Occurs(part, before + (part + after))
  {
    var whole := before + (part + after);
    assert whole[|before|..|before| + |part|] == part;
    assert OccursAt(part, whole, |before|);
  }

  lemma TermsOfWindow(tokens: seq<Token>, i: nat, n: nat)
    requires i + n <= |tokens|
    ensures Occurs(TermsOf(tokens[i..i + n]), TermsOf(tokens))
  {
    hide TermsOf, Occurs;
    var before, part, after := tokens[..i], tokens[i..i + n], tokens[i + n..];
    assert tokens == before + (part + after);
    TermsConcatenation(part, after);
    TermsConcatenation(before, part + after);
    MiddleOccurs(TermsOf(before), TermsOf(part), TermsOf(after));
  }

  lemma TermsNonempty(window: seq<Token>)
    requires window != [] && Canonical(window[0])
    ensures TermsOf(window) != []
  {
  }

  /** Every text with a kind-preserving span is matched by one of the phrase variants. */
  lemma IndexCoversSpans(metric: string, text: string, maxVariants: nat)
    requires PhraseVariants(metric, maxVariants).Phrases?
    requires PhraseSpans(metric, text, true) != []
    ensures IndexMatches(PhraseVariants(metric, maxVariants).variants, text)
  {
    var expected, observed := Tokens(metric), Tokens(text);
    SpanNeedsWindow(expected, observed, text, Windows(expected, observed), true);
    var i :| 0 <= i < Windows(expected, observed) && WindowMatches(expected, observed, text, i, true);
    TokensCanonical(text, 0, false);
    forall k | 0 <= k < |expected| ensures Spellable(expected[k], observed[i + k]) {
      assert SameLexeme(expected[k], observed[i + k], true);
    }
    WindowIsFound(metric, text, maxVariants, i);
  }

  /** A window of spellable tokens brings its text among the candidates. */
  lemma WindowIsFound(metric: string, text: string, maxVariants: nat, i: nat)
    requires PhraseVariants(metric, maxVariants).Phrases?
    requires i + |Tokens(metric)| <= |Tokens(text)|
    requires forall k | 0 <= k < |Tokens(metric)| :: Spellable(Tokens(metric)[k], Tokens(text)[i + k])
    ensures IndexMatches(PhraseVariants(metric, maxVariants).variants, text)
  {
    hide Spellable, Alternatives, VariantCount;
    var expected, observed := Tokens(metric), Tokens(text);
    WindowIsIndexed(expected, observed, i);
    var p :| 0 <= p < |Product(expected)| && Product(expected)[p] == WrittenAll(observed[i..i + |expected|]);
    TermsAreTokens(text, 0, false);
    assert PhraseOccurs(PhraseVariants(metric, maxVariants).variants[p], text);
  }

  /** Such a window is spelled by one of the products, and that spelling occurs in the terms. */
  lemma WindowIsIndexed(expected: seq<Token>, observed: seq<Token>, i: nat)
    requires expected != [] && i + |expected| <= |observed|
    requires forall k | 0 <= k < |expected| :: Spellable(expected[k], observed[i + k])
    ensures var window := observed[i..i + |expected|];
      && WrittenAll(window) in Product(expected)
      && SearchTerms(Join(WrittenAll(window), " ")) == TermsOf(window) != []
      && Occurs(TermsOf(window), TermsOf(observed))
  {
    hide Canonical, TermsOf, Product, SearchTerms, Occurs;
    var window := observed[i..i + |expected|];
    forall k | 0 <= k < |window| ensures Canonical(window[k]) && Spellable(expected[k], window[k]) {
      assert window[k] == observed[i + k] && Spellable(expected[k], observed[i + k]);
    }
    SpellingInProduct(expected, window);
    SpellingTerms(window);
    TermsOfWindow(observed, i, |expected|);
    TermsNonempty(window);
  }

  // ----- the scan -----

  datatype Outcome =
    | Complete(rows: seq<Row>, candidateCount: nat, characterCount: nat)
    | Ambiguous(candidateCount: nat, characterCount: nat, ambiguousCount: nat)
    | TooBroad(candidateCount: nat, characterCount: nat)
    | ScanFailed

  const MAX_CANDIDATES: nat := 1000
  const MAX_CHARACTERS: nat := 5000000

  function Characters(rows: seq<Row>): nat {
    if rows == [] then 0 else Characters(rows[..|rows| - 1]) + |rows[|rows| - 1].text|
  }

  /** The full scan: every row whose text holds the complete metric phrase, in table order. */
  function Holding(rows: seq<Row>, metric: string): seq<Row> {
    if rows == [] then []
    else
      var last := rows[|rows| - 1];
      Holding(rows[..|rows| - 1], metric) + (if PhraseSpans(metric, last.text, true) != [] then [last] else [])
  }

  predicate OnlyLoosely(metric: string, text: string) {
    PhraseSpans(metric, text, true) == [] && PhraseSpans(metric, text, false) != []
  }

  function Matched(rows: seq<Row>, variants: seq<string>): seq<Row> {
    if rows == [] then []
    else
      var last := rows[|rows| - 1];
      Matched(rows[..|rows| - 1], variants) + (if IndexMatches(variants, last.text) then [last] else [])
  }

  /** The rows a narrowed or, on overflow, a full query fetches. */
  function Candidates(rows: seq<Row>, phrases: Phrases): seq<Row> {
    if phrases.Phrases? then Matched(rows, phrases.variants) else rows
  }

  lemma {:induction false} HoldingShorter(rows: seq<Row>, metric: string)
    ensures |Holding(rows, metric)| <= |rows|
  {
    if rows != [] { HoldingShorter(rows[..|rows| - 1], metric); }
  }

  /** Narrowing first loses nothing: filtering the candidates equals filtering every row. */
  lemma {:induction false} NarrowingLosesNothing(rows: seq<Row>, metric: string, maxVariants: nat)
    ensures Holding(Candidates(rows, PhraseVariants(metric, maxVariants)), metric) == Holding(rows, metric)
  {
    hide PhraseSpans, IndexMatches, PhraseVariants;
    var phrases := PhraseVariants(metric, maxVariants);
    if phrases.Phrases? && rows != [] {
      var front, last := rows[..|rows| - 1], rows[|rows| - 1];
      NarrowingLosesNothing(front, metric, maxVariants);
      assert Holding(Matched(front, phrases.variants), metric) == Holding(front, metric);
      if PhraseSpans(metric, last.text, true) != [] {
        IndexCoversSpans(metric, last.text, maxVariants);
      }
      if IndexMatches(phrases.variants, last.text) {
        var narrowed := Matched(rows, phrases.variants);
        assert narrowed[..|narrowed| - 1] == Matched(front, phrases.variants) && narrowed[|narrowed| - 1] == last;
        assert Holding(narrowed, metric) == Holding(rows, metric);
      } else {
        assert Matched(rows, phrases.variants) == Matched(front, phrases.variants);
        assert Holding(rows, metric) == Holding(front, metric);
      }
    }
  }

  /** Candidates that match only when token kinds are ignored. */
  function LooseCount(rows: seq<Row>, metric: string): nat {
    if rows == [] then 0
    else LooseCount(rows[..|rows| - 1], metric) + (if OnlyLoosely(metric, rows[|rows| - 1].text) then 1 else 0)
  }

  function ScanOutcome(rows: seq<Row>, metric: string, maxVariants: nat): Outcome {
    var phrases := PhraseVariants(metric, maxVariants);
    if phrases.NoTokens? then Complete([], 0, 0)
    else
      var candidates := Candidates(rows, phrases);
      var loose := LooseCount(candidates, metric);
      if |candidates| > MAX_CANDIDATES || Characters(candidates) > MAX_CHARACTERS then
        TooBroad(|candidates|, Characters(candidates))
      else if loose > 0 then Ambiguous(|candidates|, Characters(candidates), loose)
      else Complete(Holding(candidates, metric), |candidates|, Characters(candidates))
  }

  /** A complete outcome is the full scan in table order, whichever path produced it. */
  lemma CompleteIsFullScan(rows: seq<Row>, metric: string, maxVariants: nat)
    requires ScanOutcome(rows, metric, maxVariants).Complete?
    ensures ScanOutcome(rows, metric, maxVariants).rows == Holding(rows, metric)
    ensures |Holding(rows, metric)| <= ScanOutcome(rows, metric, maxVariants).candidateCount
  {
    hide PhraseSpans, Characters, Matched, IndexMatches;
    if PhraseVariants(metric, maxVariants).NoTokens? {
      NothingHolds(rows, metric);
    } else {
      NarrowingLosesNothing(rows, metric, maxVariants);
      HoldingShorter(Candidates(rows, PhraseVariants(metric, maxVariants)), metric);
    }
  }

  lemma {:induction false} LooseCounts(rows: seq<Row>, metric: string)
    ensures LooseCount(rows, metric) > 0 <==> exists r | r in rows :: OnlyLoosely(metric, r.text)
  {
    hide OnlyLoosely;
    if rows != [] {
      var front, last := rows[..|rows| - 1], rows[|rows| - 1];
      LooseCounts(front, metric);
      assert rows == front + [last];
    }
  }

  lemma CharactersMore(rows: seq<Row>, r: Row)
    ensures Characters(rows + [r]) == Characters(rows) + |r.text|
  {
    assert (rows + [r])[..|rows|] == rows;
  }

  lemma {:induction false} MatchedElements(rows: seq<Row>, variants: seq<string>)
    ensures forall r :: r in Matched(rows, variants) <==> r in rows && IndexMatches(variants, r.text)
  {
    hide IndexMatches;
    if rows != [] {
      var front, last := rows[..|rows| - 1], rows[|rows| - 1];
      MatchedElements(front, variants);
      assert rows == front + [last];
    }
  }

  lemma {:induction false} MatchedSmaller(rows: seq<Row>, variants: seq<string>)
    ensures |Matched(rows, variants)| <= |rows| && Characters(Matched(rows, variants)) <= Characters(rows)
  {
    hide IndexMatches;
    if rows != [] {
      var front, last := rows[..|rows| - 1], rows[|rows| - 1];
      MatchedSmaller(front, variants);
      CharactersMore(Matched(front, variants), last);
      assert Matched(rows, variants)
          == if IndexMatches(variants, last.text) then Matched(front, variants) + [last] else Matched(front, variants);
    }
  }

  /**
   The scan answers too broad exactly if more than a thousand rows or five million characters are
   candidates, ambiguous exactly if it is not and some candidate matches only loosely, and completes
   exactly otherwise; without a token it completes with nothing.
   */
  lemma ScanAnswers(rows: seq<Row>, metric: string, maxVariants: nat)
    ensures var outcome, candidates := ScanOutcome(rows, metric, maxVariants),
                Candidates(rows, PhraseVariants(metric, maxVariants));
      var broad := |candidates| > 1000 || Characters(candidates) > 5000000;
      var loose := exists r | r in candidates :: OnlyLoosely(metric, r.text);
      && (outcome.TooBroad? <==> Tokens(metric) != [] && broad)
      && (outcome.Ambiguous? <==> Tokens(metric) != [] && !broad && loose)
      && (outcome.Complete? <==> Tokens(metric) == [] || (!broad && !loose))
      && (outcome.Complete? ==> outcome.rows == Holding(rows, metric))
  {
    hide PhraseSpans, Characters, Matched, IndexMatches, OnlyLoosely, TokensFrom, LooseCount, Holding;
    LooseCounts(Candidates(rows, PhraseVariants(metric, maxVariants)), metric);
    if ScanOutcome(rows, metric, maxVariants).Complete? {
      CompleteIsFullScan(rows, metric, maxVariants);
    }
  }

  /** A table within both limits that holds no loose match is always scanned to the end. */
  lemma SmallTablesComplete(rows: seq<Row>, metric: string, maxVariants: nat)
    requires |rows| <= 1000 && Characters(rows) <= 5000000
    requires forall r | r in rows :: !OnlyLoosely(metric, r.text)
    ensures ScanOutcome(rows, metric, maxVariants).Complete?
    ensures ScanOutcome(rows, metric, maxVariants).rows == Holding(rows, metric)
  {
    hide PhraseSpans, Characters, Matched, IndexMatches, OnlyLoosely, TokensFrom, ScanOutcome, Holding;
    ScanAnswers(rows, metric, maxVariants);
    var phrases := PhraseVariants(metric, maxVariants);
    if phrases.Phrases? {
      MatchedElements(rows, phrases.variants);
      MatchedSmaller(rows, phrases.variants);
    }
  }

  /** Any two variant caps, one of them forcing the overflow path, agree whenever both complete. */
  lemma OverflowAgrees(rows: seq<Row>, metric: string, m: nat, n: nat)
    requires ScanOutcome(rows, metric, m).Complete? && ScanOutcome(rows, metric, n).Complete?
    ensures ScanOutcome(rows, metric, m).rows == ScanOutcome(rows, metric, n).rows
  {
    CompleteIsFullScan(rows, metric, m);
    CompleteIsFullScan(rows, metric, n);
  }

  /** Count, refuse what is too broad, fetch, and check every candidate; a database error is an outcome. */
  method FindExactMetricChunks(rows: seq<Row>, metric: string, maxVariants: nat, databaseFails: bool)
    returns (outcome: Outcome)
    ensures outcome ==
      if databaseFails && Tokens(metric) != [] then ScanFailed else ScanOutcome(rows, metric, maxVariants)
  {
    hide PhraseSpans, IndexMatches, Characters, Matched, TokensFrom;
    var phrases := PhraseVariants(metric, maxVariants);
    if phrases.NoTokens? {
      return Complete([], 0, 0);
    }
    if databaseFails {
      return ScanFailed;
    }
    var candidates := Candidates(rows, phrases);
    var characters := Characters(candidates);
    if |candidates| > MAX_CANDIDATES || characters > MAX_CHARACTERS {
      return TooBroad(|candidates|, characters);
    }
    var found: seq<Row> := [];
    var ambiguous: nat := 0;
    for i := 0 to |candidates|
      invariant found == Holding(candidates[..i], metric)
      invariant ambiguous == LooseCount(candidates[..i], metric)
    {
      assert candidates[..i + 1][..i] == candidates[..i];
      var strict := WordPhraseSpans(metric, candidates[i].text, true);
      if strict != [] {
        found := found + [candidates[i]];
      } else {
        var loose := WordPhraseSpans(metric, candidates[i].text, false);
        if loose != [] {
          ambiguous := ambiguous + 1;
        }
      }
    }
    assert candidates[..|candidates|] == candidates;
    if ambiguous > 0 {
      return Ambiguous(|candidates|, characters, ambiguous);
    }
    return Complete(found, |candidates|, characters);
  }

  lemma {:induction false} NothingHolds(rows: seq<Row>, metric: string)
    requires Tokens(metric) == []
    ensures Holding(rows, metric) == []
  {
    if rows != [] { NothingHolds(rows[..|rows| - 1], metric); }
  }

  lemma {:induction false} HoldingElements(rows: seq<Row>, metric: string)
    ensures forall r :: r in Holding(rows, metric) <==> r in rows && PhraseSpans(metric, r.text, true) != []
    ensures (forall i, j | 0 <= i < j < |rows| :: rows[i].id != rows[j].id) ==>
      forall i, j | 0 <= i < j < |Holding(rows, metric)| :: Holding(rows, metric)[i].id != Holding(rows, metric)[j].id
  {
    hide PhraseSpans;
    if rows != [] {
      var front, last := rows[..|rows| - 1], rows[|rows| - 1];
      assert rows == front + [last];
      HoldingElements(front, metric);
    }
  }
}
