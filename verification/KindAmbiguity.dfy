/**
 Texts that match a metric only when token kinds are ignored, such as `IT` for the word `it`: when
 the exact scan refuses to complete over them, and when the index keeps them out of its sight.
 */
module KindAmbiguity {
  import opened TextRuns
  import opened MetricTokens
  import opened ExactScan

  /** A word of two or more letters, which a text may also write with dots. */
  predicate DottableWord(t: Token) {
    t.kind == Word && Dottable(t.value)
  }

  predicate Dottable(v: string) {
    |v| >= 2 && AllIn(v, Letter)
  }

  predicate HasDottableWord(metric: string) {
    exists t | t in Tokens(metric) :: DottableWord(t)
  }

  predicate NoDots(text: string) {
    forall t | t in Tokens(text) :: !t.dotted
  }

  // ----- what the index sees -----

  /** Without dots in the text, or without dottable words in the metric, every loose match is a candidate. */
  lemma LooseMatchIsFound(metric: string, text: string, maxVariants: nat)
    requires PhraseVariants(metric, maxVariants).Phrases?
    requires PhraseSpans(metric, text, false) != []
    requires NoDots(text) || !HasDottableWord(metric)
    ensures IndexMatches(PhraseVariants(metric, maxVariants).variants, text)
  {
    hide Dottable, IndexMatches, PhraseVariants;
    var expected, observed := Tokens(metric), Tokens(text);
    SpanNeedsWindow(expected, observed, text, Windows(expected, observed), false);
    var i :| 0 <= i < Windows(expected, observed) && WindowMatches(expected, observed, text, i, false);
    TokensCanonical(text, 0, false);
    forall k | 0 <= k < |expected| ensures Spellable(expected[k], observed[i + k]) {
      assert SameLexeme(expected[k], observed[i + k], false);
      assert observed[i + k] in observed && expected[k] in expected;
      if observed[i + k].dotted {
        assert Dottable(observed[i + k].value) by { DottedIsDottable(observed[i + k]); }
      }
    }
    WindowIsFound(metric, text, maxVariants, i);
  }

  lemma DottedIsDottable(t: Token)
    requires Canonical(t) && t.dotted
    ensures Dottable(t.value)
  {
  }

  lemma {:induction false} MatchedKeeps(rows: seq<Row>, variants: seq<string>, r: Row)
    requires r in rows && IndexMatches(variants, r.text)
    ensures r in Matched(rows, variants)
  {
    hide IndexMatches;
    if rows[|rows| - 1] != r {
      MatchedKeeps(rows[..|rows| - 1], variants, r);
    }
  }

  lemma {:induction false} LooseCounted(rows: seq<Row>, metric: string, r: Row)
    requires r in rows && OnlyLoosely(metric, r.text)
    ensures LooseCount(rows, metric) > 0
  {
    hide OnlyLoosely;
    if rows[|rows| - 1] != r {
      LooseCounted(rows[..|rows| - 1], metric, r);
    }
  }

  /**
   All-capitals typography fails closed: over any rows, one that matches only loosely and is written
   without dots keeps the scan from completing.
   */
  lemma LooseRowRefuses(rows: seq<Row>, metric: string, maxVariants: nat, r: Row)
    requires r in rows && OnlyLoosely(metric, r.text)
    requires NoDots(r.text) || !HasDottableWord(metric) || PhraseVariants(metric, maxVariants).TooMany?
    ensures !ScanOutcome(rows, metric, maxVariants).Complete?
  {
    hide IndexMatches, Characters, Matched, LooseCount, NoDots, HasDottableWord;
    var phrases := PhraseVariants(metric, maxVariants);
    assert Tokens(metric) != [];
    if phrases.Phrases? {
      LooseMatchIsFound(metric, r.text, maxVariants);
      MatchedKeeps(rows, phrases.variants, r);
    }
    LooseCounted(Candidates(rows, phrases), metric, r);
  }

  // ----- a text that slips through -----

  function DottedLetters(v: string): (s: string)
    ensures |s| == 2 * |v|
  {
    if v == "" then "" else [v[0], '.'] + DottedLetters(v[1..])
  }

  /** The metric's phrase with one of its words written with dots wherever it occurs. */
  function Respelled(t: Token, v: string): string {
    if t.value == v then DottedLetters(v) else t.value
  }

  function RespelledAll(tokens: seq<Token>, v: string): seq<string> {
    seq(|tokens|, i requires 0 <= i < |tokens| => Respelled(tokens[i], v))
  }

  /** Nothing follows, or a blank does. */
  predicate Ends(rest: string) {
    rest == "" || rest[0] == ' '
  }

  lemma PlainPart(p: string, rest: string, at: nat)
    requires p != "" && AllIn(p, AlNum) && Ends(rest)
    ensures TokensFrom(p + rest, at, false)
         == [Token(Lower(p), at, at + |p|, if Compact(p) then Initialism else Word, false)]
            + TokensFrom(rest, at + |p|, true)
  {
    var s := p + rest;
    assert Pairs(s) == 0;
    RunAcross(p, rest, AlNum);
    FullRun(p, AlNum);
    assert s[..|p|] == p && s[|p|..] == rest;
    assert WordChar(s[|p| - 1]) by { assert AlNum(p[|p| - 1]); }
    var kind := if Compact(p) then Initialism else Word;
    assert FirstToken(s, at, false) == ([Token(Lower(p), at, at + |p|, kind, false)], |p|);
  }

  lemma {:induction false} DottedPairs(v: string, rest: string)
    requires AllIn(v, Letter) && Ends(rest)
    ensures Pairs(DottedLetters(v) + rest) == |v| && Undotted(DottedLetters(v)) == v
    decreases |v|
  {
    var s := DottedLetters(v) + rest;
    if v == "" {
      assert s == rest;
    } else {
      DottedPairs(v[1..], rest);
      assert s[0] == v[0] && s[1] == '.';
      assert s[2..] == DottedLetters(v[1..]) + rest;
      assert DottedLetters(v)[1..] == ['.'] + DottedLetters(v[1..]);
      assert DottedLetters(v)[1..][1..] == DottedLetters(v[1..]);
      assert v[0] != '.' by { assert Letter(v[0]); }
    }
  }

  lemma DottedPart(v: string, rest: string, at: nat)
    requires Dottable(v) && Lower(v) == v && Ends(rest)
    ensures TokensFrom(DottedLetters(v) + rest, at, false)
         == [Token(v, at, at + 2 * |v|, Initialism, true)] + TokensFrom(rest, at + 2 * |v|, false)
  {
    var s, d := DottedLetters(v) + rest, 2 * |v|;
    DottedPairs(v, rest);
    PairsEndInDot(s);
    assert !WordChar(s[d - 1]);
    hide Lower, WordChar, AlNum, Letter, DottedLetters, Pairs;
    assert s[..d] == DottedLetters(v) && s[d..] == rest;
    assert FirstToken(s, at, false) == ([Token(v, at, at + d, Initialism, true)], d);
  }

  lemma BlankPart(rest: string, at: nat, afterWord: bool)
    ensures TokensFrom(" " + rest, at, afterWord) == TokensFrom(rest, at + 1, false)
  {
    var s := " " + rest;
    assert s[1..] == rest;
    assert Pairs(s) == 0;
    assert FirstToken(s, at, afterWord) == ([], 1);
  }

  /** Token `j` of a text is followed by one blank and then the next token. */
  predicate BlankAfter(o: seq<Token>, text: string, at: nat, j: nat)
    requires j + 1 < |o|
  {
    at <= o[j].end < at + |text| && o[j].end + 1 == o[j + 1].start && text[o[j].end - at] == ' '
  }

  /** The tokens of the respelled phrase: the metric's values, dotted exactly where respelled. */
  predicate Respells(o: seq<Token>, tokens: seq<Token>, v: string, text: string, at: nat) {
    && |o| == |tokens|
    && (forall k | 0 <= k < |o| :: o[k].value == tokens[k].value && (o[k].dotted <==> tokens[k].value == v))
    && (o != [] ==> o[0].start == at)
    && (forall k | 0 <= k < |o| :: o[k].end == o[k].start + |Respelled(tokens[k], v)|)
    && (forall j | 0 <= j < |o| - 1 :: BlankAfter(o, text, at, j))
  }

  lemma PartToken(t: Token, v: string, rest: string, at: nat) returns (first: Token, after: bool)
    requires Canonical(t) && Dottable(v) && Ends(rest)
    ensures first.value == t.value && (first.dotted <==> t.value == v)
    ensures first.start == at && first.end == at + |Respelled(t, v)|
    ensures TokensFrom(Respelled(t, v) + rest, at, false)
         == [first] + TokensFrom(rest, at + |Respelled(t, v)|, after)
  {
    hide TokensFrom, Compact, Dottable;
    if t.value == v {
      DottedPart(v, rest, at);
      first, after := Token(v, at, at + 2 * |v|, Initialism, true), false;
    } else {
      PlainPart(t.value, rest, at);
      var kind := if Compact(t.value) then Initialism else Word;
      first, after := Token(t.value, at, at + |t.value|, kind, false), true;
    }
  }

  lemma NoTokensInNothing(at: nat, afterWord: bool)
    ensures TokensFrom("", at, afterWord) == []
  {
  }

  lemma OneMorePart(first: Token, o: seq<Token>, tokens: seq<Token>, v: string, part: string, tail: string, at: nat)
    requires tokens != [] && |tokens| > 1
    requires first.value == tokens[0].value && (first.dotted <==> tokens[0].value == v)
    requires first.start == at && first.end == at + |part| && part == Respelled(tokens[0], v)
    requires Respells(o, tokens[1..], v, tail, at + |part| + 1)
    ensures Respells([first] + o, tokens, v, part + (" " + tail), at)
  {
    var all, text := [first] + o, part + (" " + tail);
    forall j | 0 <= j < |all| - 1 ensures BlankAfter(all, text, at, j) {
      if j > 0 {
        assert BlankAfter(o, tail, at + |part| + 1, j - 1);
      }
    }
  }

  /** A respelled phrase at the front of a text is tokenized part by part. */
  lemma {:induction false} LeadingTokens(tokens: seq<Token>, v: string, rest: string, at: nat)
    returns (o: seq<Token>, after: bool)
    requires tokens != [] && Dottable(v) && (forall t | t in tokens :: Canonical(t)) && Ends(rest)
    ensures var text := Join(RespelledAll(tokens, v), " ");
      && TokensFrom(text + rest, at, false) == o + TokensFrom(rest, at + |text|, after)
      && Respells(o, tokens, v, text, at)
    decreases |tokens|
  {
    hide Canonical, Dottable, Respelled, TokensFrom;
    var parts := RespelledAll(tokens, v);
    var text, part := Join(parts, " "), Respelled(tokens[0], v);
    assert parts[0] == part && parts[1..] == RespelledAll(tokens[1..], v);
    if |tokens| == 1 {
      var first;
      first, after := PartToken(tokens[0], v, rest, at);
      o := [first];
    } else {
      var tail := Join(parts[1..], " ");
      assert text == part + (" " + tail);
      assert text + rest == part + (" " + (tail + rest));
      var first, between := PartToken(tokens[0], v, " " + (tail + rest), at);
      BlankPart(tail + rest, at + |part|, between);
      var more;
      more, after := LeadingTokens(tokens[1..], v, rest, at + |part| + 1);
      OneMorePart(first, more, tokens, v, part, tail, at);
      o := [first] + more;
    }
  }

  lemma RespelledTokens(tokens: seq<Token>, v: string, at: nat)
    requires Dottable(v) && forall t | t in tokens :: Canonical(t)
    ensures var text := Join(RespelledAll(tokens, v), " ");
      Respells(TokensFrom(text, at, false), tokens, v, text, at)
  {
    var text := Join(RespelledAll(tokens, v), " ");
    hide Canonical, Dottable, TokensFrom;
    if tokens == [] {
      NoTokensInNothing(at, false);
    } else {
      var o, after := LeadingTokens(tokens, v, "", at);
      NoTokensInNothing(at + |text|, after);
      assert text + "" == text && o + [] == o;
    }
  }

  /** A loose match that no phrase variant finds. */
  predicate Slips(metric: string, text: string, maxVariants: nat)
    requires PhraseVariants(metric, maxVariants).Phrases?
  {
    PhraseSpans(metric, text, false) != [] && !IndexMatches(PhraseVariants(metric, maxVariants).variants, text)
  }

  /** Written with dots, a metric that has a dottable word slips past every phrase variant. */
  lemma RespelledSlips(metric: string, maxVariants: nat, t: Token)
    requires PhraseVariants(metric, maxVariants).Phrases?
    requires t in Tokens(metric) && DottableWord(t)
    ensures Slips(metric, Join(RespelledAll(Tokens(metric), t.value), " "), maxVariants)
  {
    hide IndexMatches, PhraseVariants, PhraseSpans, Canonical;
    var expected, text := Tokens(metric), Join(RespelledAll(Tokens(metric), t.value), " ");
    TokensCanonical(metric, 0, false);
    RespelledTokens(expected, t.value, 0);
    RespelledMatches(metric, text, t.value);
    var k :| 0 <= k < |expected| && expected[k] == t;
    assert Canonical(t);
    NoVariantFinds(metric, text, maxVariants, k);
  }

  lemma RespelledMatches(metric: string, text: string, v: string)
    requires Tokens(metric) != [] && Respells(Tokens(text), Tokens(metric), v, text, 0)
    ensures PhraseSpans(metric, text, false) != []
  {
    hide Tokens;
    var expected, observed := Tokens(metric), Tokens(text);
    forall j | 0 <= j < |expected| - 1 ensures GapAt(observed, text, j) {
      assert BlankAfter(observed, text, 0, j);
    }
    assert WindowMatches(expected, observed, text, 0, false);
    assert Windows(expected, observed) == 1;
    assert SpansBefore(expected, observed, text, 1, false) != [];
  }

  lemma {:induction false} TermAbsent(o: seq<Token>, v: string)
    requires |v| >= 2 && forall k | 0 <= k < |o| :: o[k].value == v ==> o[k].dotted
    ensures v !in TermsOf(o)
  {
    if o != [] {
      assert forall k | 0 <= k < |o[1..]| :: o[1..][k] == o[k + 1];
      TermAbsent(o[1..], v);
      assert v !in Terms(o[0]);
    }
  }

  lemma {:induction false} ProductShape(tokens: seq<Token>, p: seq<string>, k: nat)
    requires p in Product(tokens) && k < |tokens|
    ensures |p| == |tokens| && p[k] in Alternatives(tokens[k])
    decreases |tokens|
  {
    var h, tail := Unprepended(Alternatives(tokens[0]), Product(tokens[1..]), p);
    if |tokens| > 1 {
      ProductShape(tokens[1..], tail, if k > 0 then k - 1 else 0);
    } else {
      assert tail == [];
    }
  }

  lemma {:induction false} Unprepended(heads: seq<string>, tails: seq<seq<string>>, p: seq<string>)
    returns (h: string, t: seq<string>)
    requires p in Prepend(heads, tails)
    ensures h in heads && t in tails && p == [h] + t
  {
    var here := seq(|tails|, i requires 0 <= i < |tails| => [heads[0]] + tails[i]);
    if p in here {
      var i :| 0 <= i < |tails| && p == [heads[0]] + tails[i];
      h, t := heads[0], tails[i];
    } else {
      h, t := Unprepended(heads[1..], tails, p);
    }
  }

  lemma {:induction false} InFlatten(parts: seq<seq<string>>, k: nat, x: string)
    requires k < |parts| && x in parts[k]
    ensures x in Flatten(parts)
  {
    if k > 0 {
      InFlatten(parts[1..], k - 1, x);
    }
  }

  /** A phrase that has a word among its parts has the word among its terms. */
  lemma WordIsTerm(parts: seq<string>, k: nat, v: string)
    requires k < |parts| && parts[k] == v && v != "" && AllIn(v, AlNum) && Lower(v) == v
    ensures v in SearchTerms(Join(parts, " "))
  {
    RunsOfJoin(parts, " ", AlNum);
    SingleRun(v, AlNum);
    var runs := Flatten(RunsOfEach(parts, AlNum));
    assert v in RunsOfEach(parts, AlNum)[k];
    InFlatten(RunsOfEach(parts, AlNum), k, v);
    var i :| 0 <= i < |runs| && runs[i] == v;
    assert LowerAll(runs)[i] == v;
  }

  lemma NoVariantFinds(metric: string, text: string, maxVariants: nat, k: nat)
    requires PhraseVariants(metric, maxVariants).Phrases?
    requires k < |Tokens(metric)| && DottableWord(Tokens(metric)[k]) && Canonical(Tokens(metric)[k])
    requires Respells(Tokens(text), Tokens(metric), Tokens(metric)[k].value, text, 0)
    ensures !IndexMatches(PhraseVariants(metric, maxVariants).variants, text)
  {
    TermsAreTokens(text, 0, false);
    hide Product, SearchTerms, TermsOf, AllIn, Lower, TokensFrom;
    var expected, variants := Tokens(metric), PhraseVariants(metric, maxVariants).variants;
    var v := expected[k].value;
    TermAbsent(Tokens(text), v);
    forall i | 0 <= i < |variants| ensures !PhraseOccurs(variants[i], text) {
      var p := Product(expected)[i];
      ProductShape(expected, p, k);
      assert p[k] == v;
      WordIsTerm(p, k, v);
      if PhraseOccurs(variants[i], text) {
        TermCarriesOver(SearchTerms(variants[i]), SearchTerms(text), v);
      }
    }
  }

  lemma TermCarriesOver(part: seq<string>, whole: seq<string>, x: string)
    requires Occurs(part, whole) && x in part
    ensures x in whole
  {
    var i :| 0 <= i <= |whole| && OccursAt(part, whole, i);
    var j :| 0 <= j < |part| && part[j] == x;
    assert whole[i..i + |part|][j] == x;
  }

  // ----- when the scan fails closed -----

  /** Whatever the table holds, a row that matches only loosely keeps the scan from completing. */
  ghost predicate FailsClosed(metric: string) {
    forall rows: seq<Row>, r | r in rows && OnlyLoosely(metric, r.text) ::
      !ScanOutcome(rows, metric, MAX_VARIANTS).Complete?
  }

  /**
   The exact scan fails closed on every kind ambiguity exactly when the metric has no word of two
   or more letters, or so many initialisms that the whole table is scanned. Otherwise some table
   completes with nothing found although it holds the phrase written with dots.
   */
  lemma FailsClosedExactly(metric: string)
    ensures FailsClosed(metric) <==> PhraseVariants(metric, MAX_VARIANTS).TooMany? || !HasDottableWord(metric)
  {
    hide PhraseVariants, OnlyLoosely, ScanOutcome, HasDottableWord, NoDots;
    if PhraseVariants(metric, MAX_VARIANTS).TooMany? || !HasDottableWord(metric) {
      forall rows: seq<Row>, r | r in rows && OnlyLoosely(metric, r.text)
        ensures !ScanOutcome(rows, metric, MAX_VARIANTS).Complete?
      {
        LooseRowRefuses(rows, metric, MAX_VARIANTS, r);
      }
    } else {
      var text := SlippingText(metric);
      SlippedCompletes(metric, text);
      assert Row("", text) in [Row("", text)];
    }
  }

  lemma SlippingText(metric: string) returns (text: string)
    requires HasDottableWord(metric) && !PhraseVariants(metric, MAX_VARIANTS).TooMany?
    ensures PhraseVariants(metric, MAX_VARIANTS).Phrases? && Slips(metric, text, MAX_VARIANTS)
  {
    hide Slips, DottableWord, Tokens;
    var t :| t in Tokens(metric) && DottableWord(t);
    text := Join(RespelledAll(Tokens(metric), t.value), " ");
    RespelledSlips(metric, MAX_VARIANTS, t);
  }

  lemma SlippedCompletes(metric: string, text: string)
    requires PhraseVariants(metric, MAX_VARIANTS).Phrases? && Slips(metric, text, MAX_VARIANTS)
    ensures OnlyLoosely(metric, text)
    ensures ScanOutcome([Row("", text)], metric, MAX_VARIANTS) == Complete([], 0, 0)
  {
    hide PhraseSpans, IndexMatches, PhraseVariants;
    var variants := PhraseVariants(metric, MAX_VARIANTS).variants;
    if PhraseSpans(metric, text, true) != [] {
      IndexCoversSpans(metric, text, MAX_VARIANTS);
    }
    var rows := [Row("", text)];
    assert rows[..0] == [];
    assert Matched(rows, variants) == [];
    assert PhraseVariants(metric, MAX_VARIANTS) != NoTokens;
  }

  /** The metric `it` over a table that holds `i.t.`: the scan completes and finds nothing. */
  lemma DottedShortFormSlips()
    ensures OnlyLoosely("it", "i.t.")
    ensures ScanOutcome([Row("", "i.t.")], "it", MAX_VARIANTS) == Complete([], 0, 0)
  {
    var token := Token("it", 0, 2, Word, false);
    TokensOfIt();
    hide PhraseSpans, IndexMatches, ScanOutcome, OnlyLoosely, Tokens, Slips, Product;
    assert VariantCount([token]) == 1 by { assert [token][1..] == []; }
    assert PhraseVariants("it", MAX_VARIANTS).Phrases?;
    RespelledSlips("it", MAX_VARIANTS, token);
    RespelledIt(token);
    SlippedCompletes("it", "i.t.");
  }

  lemma TokensOfIt()
    ensures Tokens("it") == [Token("it", 0, 2, Word, false)]
  {
    assert Lower("it") == "it";
    assert !Compact("it") by { assert !Upper("it"[0]); }
    PlainPart("it", "", 0);
    NoTokensInNothing(2, true);
    assert "it" + "" == "it";
  }

  lemma RespelledIt(token: Token)
    requires token.value == "it"
    ensures Join(RespelledAll([token], "it"), " ") == "i.t."
  {
    assert "it"[1..] == "t" && "t"[1..] == "";
    assert DottedLetters("t") == "t.";
    assert DottedLetters("it") == "i." + DottedLetters("t");
    assert RespelledAll([token], "it") == [DottedLetters("it")];
  }
}
