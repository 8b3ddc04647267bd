/** Two ratings worded alike: one claim, one draft, and a status that hangs on the order of a set. */
module TieExample {
  import opened Models
  import opened Listings
  import opened CandidateOrder
  import opened ClaimClassification
  import opened MetricTokens
  import opened ExactScan
  import opened WordingOrder
  import opened TextRuns
  import KindAmbiguity
  import OrderExample

  const WORDS := ["rating", "was", "AA", "cannot", "be", "right", "alongside", "AA"]

  /** rating was AA cannot be right alongside AA */
  const TIED := Join(WORDS, " ")

  const FIRST: Span := (11, 13)
  const SECOND: Span := (40, 42)

  /** Where the relation between the two ratings starts and ends. */
  const RELATION: Span := (14, 39)

  // ----- the bridge relation -----

  function LastBefore(candidates: seq<Candidate>, at: nat): Option<Candidate> {
    if candidates == [] then None
    else
      var last: Candidate := candidates[|candidates| - 1];
      if last.1.1 <= at then Some(last) else LastBefore(candidates[..|candidates| - 1], at)
  }

  function FirstAfter(candidates: seq<Candidate>, at: nat): Option<Candidate> {
    if candidates == [] then None
    else
      var first: Candidate := candidates[0];
      if at <= first.1.0 then Some(first) else FirstAfter(candidates[1..], at)
  }

  /**
   What the bridge relation decides when both values are classified: the last candidate before it and
   the first one after it, each one blank away, have different values.
   */
  predicate Bridges(candidates: seq<Candidate>, relation: Span) {
    match (LastBefore(candidates, relation.0), FirstAfter(candidates, relation.1))
    case (Some(left), Some(right)) =>
      left.1.1 + 1 == relation.0 && relation.1 + 1 == right.1.0 && left.0 != right.0
    case _ => false
  }

  predicate TiedRule(sentence: string, reading: Reading) {
    sentence == TIED && Bridges(reading.candidates, RELATION)
  }

  // ----- the words of the quote -----

  predicate Spaced(o: seq<Token>, words: seq<string>, at: nat) {
    && |o| == |words|
    && (forall k | 0 <= k < |o| :: o[k].value == Lower(words[k]) && o[k].end == o[k].start + |words[k]|)
    && (o != [] ==> o[0].start == at)
    && (forall k | 0 <= k < |o| - 1 :: o[k + 1].start == o[k].end + 1)
  }

  /** Words with single blanks between them are tokenized one by one. */
  lemma {:induction false} SpacedTokens(words: seq<string>, at: nat)
    requires forall w | w in words :: w != "" && AllIn(w, AlNum)
    ensures Spaced(TokensFrom(Join(words, " "), at, false), words, at)
    decreases |words|
  {
    hide TokensFrom, Compact, Lower;
    if words == [] {
      KindAmbiguity.NoTokensInNothing(at, false);
    } else if |words| == 1 {
      assert words[0] in words && words[0] + "" == words[0];
      KindAmbiguity.PlainPart(words[0], "", at);
      KindAmbiguity.NoTokensInNothing(at + |words[0]|, true);
    } else {
      var tail := Join(words[1..], " ");
      assert words[0] in words && forall w | w in words[1..] :: w in words;
      assert Join(words, " ") == words[0] + (" " + tail);
      KindAmbiguity.PlainPart(words[0], " " + tail, at);
      KindAmbiguity.BlankPart(tail, at + |words[0]|, true);
      SpacedTokens(words[1..], at + |words[0]| + 1);
    }
  }

  lemma LowerPair()
    ensures Lower("AA") == "aa" && Lower("be") == "be"
  {
  }

  lemma WordsSpelled()
    ensures forall w | w in WORDS :: w != "" && AllIn(w, AlNum)
  {
  }

  lemma TiedPlaces(o: seq<Token>)
    requires Spaced(o, WORDS, 0)
    ensures (o[2].start, o[2].end) == FIRST && (o[7].start, o[7].end) == SECOND
  {
    hide Lower;
    assert o[0].end == 6 && o[1].end == 10 && o[2].end == 13 && o[3].end == 20;
    assert o[4].end == 23 && o[5].end == 29 && o[6].end == 39 && o[7].end == 42;
  }

  lemma TiedValues(o: seq<Token>)
    requires Spaced(o, WORDS, 0)
    ensures forall k | 0 <= k < 8 :: o[k].value == "aa" <==> k == 2 || k == 7
  {
    LowerPair();
    hide Lower;
    assert forall k | 0 <= k < 8 :: |o[k].value| == |WORDS[k]|;
  }

  /** The rating is the third and the eighth word. */
  lemma TiedTokens()
    ensures var o := Tokens(TIED);
      && |o| == 8
      && (o[2].start, o[2].end) == FIRST && (o[7].start, o[7].end) == SECOND
      && forall k | 0 <= k < 8 :: o[k].value == "aa" <==> k == 2 || k == 7
  {
    WordsSpelled();
    SpacedTokens(WORDS, 0);
    FromTheStart(TIED);
    hide Tokens, TokensFrom, Lower, Join;
    TiedPlaces(Tokens(TIED));
    TiedValues(Tokens(TIED));
  }

  lemma CapitalPair()
    ensures TokenValues("AA") == ["aa"] && SearchTerms("AA") == ["aa"]
  {
    LowerPair();
    KindAmbiguity.PlainPart("AA", "", 0);
    KindAmbiguity.NoTokensInNothing(2, true);
    assert "AA" + "" == "AA";
    FromTheStart("AA");
    TermsAreTokens("AA", 0, false);
    hide TokensFrom, SearchTerms, Tokens;
    assert Tokens("AA")[1..] == [];
  }

  lemma DottedPair()
    ensures TokenValues("A.A.") == ["aa"] && SearchTerms("A.A.") == ["a", "a"]
  {
    OrderExample.DottedInitialism();
  }

  /** Over the quote both ratings are found at both places. */
  lemma FoundTwice(text: string)
    requires TokenValues(text) == ["aa"]
    ensures forall span :: span in PhraseSpans(text, TIED, false) <==> span == FIRST || span == SECOND
  {
    TiedTokens();
    hide Tokens, PhraseSpans;
    var o := Tokens(TIED);
    forall span | span in PhraseSpans(text, TIED, false) ensures span == FIRST || span == SECOND {
      var i, n := SpanHasWords(text, TIED, span);
      assert TokenValues(text)[0] == o[i + 0].value;
    }
    WordIsFound(text, TIED, 2);
    WordIsFound(text, TIED, 7);
  }

  lemma WordIsFound(text: string, sentence: string, i: nat)
    requires i < |Tokens(sentence)| && TokenValues(text) == [Tokens(sentence)[i].value]
    ensures (Tokens(sentence)[i].start, Tokens(sentence)[i].end) in PhraseSpans(text, sentence, false)
  {
    hide Tokens, SpansBefore;
    var expected, observed := Tokens(text), Tokens(sentence);
    assert |expected| == |TokenValues(text)| == 1;
    assert expected[0].value == TokenValues(text)[0];
    assert SameLexeme(expected[0], observed[i + 0], false);
    assert WindowMatches(expected, observed, sentence, i, false);
    WindowHasSpan(expected, observed, sentence, Windows(expected, observed), i);
  }

  // ----- the two orders -----

  const CAPITALS: seq<string> := ["aa"]
  const LETTERS: seq<string> := ["a", "a"]

  function Found(): set<Candidate> {
    {(CAPITALS, FIRST), (LETTERS, FIRST), (CAPITALS, SECOND), (LETTERS, SECOND)}
  }

  function LettersLast(): seq<Candidate> {
    [(CAPITALS, FIRST), (LETTERS, FIRST), (CAPITALS, SECOND), (LETTERS, SECOND)]
  }

  function CapitalsLast(): seq<Candidate> {
    [(LETTERS, FIRST), (CAPITALS, FIRST), (CAPITALS, SECOND), (LETTERS, SECOND)]
  }

  lemma RatingFound(rules: Rules, o: Observation, words: seq<string>)
    requires rules.signatures(o.text) == [] && TokenValues(o.text) == ["aa"] && SearchTerms(o.text) == words
    ensures CandidatesOf(rules, o, TIED) == {(words, FIRST), (words, SECOND)}
    ensures rules.Value(o) == Phrase(words)
  {
    FoundTwice(o.text);
    hide PhraseSpans, SearchTerms, TokenValues;
  }

  lemma PairSpellings(rules: Rules, o: Observation, p: Observation)
    ensures Spellings(rules, {o, p}, TIED) == CandidatesOf(rules, o, TIED) + CandidatesOf(rules, p, TIED)
  {
    hide CandidatesOf;
  }

  lemma FoundTogether()
    ensures {(CAPITALS, FIRST), (CAPITALS, SECOND)} + {(LETTERS, FIRST), (LETTERS, SECOND)} == Found()
  {
  }

  lemma BothRatings(rules: Rules, plain: Observation, dotted: Observation)
    requires plain.text == "AA" && dotted.text == "A.A."
    requires rules.signatures("AA") == [] && rules.signatures("A.A.") == []
    ensures Spellings(rules, {plain, dotted}, TIED) == Found()
    ensures rules.Value(plain) == Phrase(CAPITALS) && rules.Value(dotted) == Phrase(LETTERS)
  {
    CapitalPair();
    DottedPair();
    RatingFound(rules, plain, CAPITALS);
    RatingFound(rules, dotted, LETTERS);
    hide *;
    FoundTogether();
    PairSpellings(rules, plain, dotted);
  }

  lemma FoundOnceEach()
    ensures multiset(Found())
         == multiset{(CAPITALS, FIRST), (LETTERS, FIRST), (CAPITALS, SECOND), (LETTERS, SECOND)}
  {
    assert CAPITALS != LETTERS;
  }

  lemma TwoLists()
    ensures Lists(LettersLast(), Found()) && Sorted(LettersLast())
    ensures Lists(CapitalsLast(), Found()) && Sorted(CapitalsLast())
  {
    FoundOnceEach();
    hide Found;
  }

  lemma OneBridges()
    ensures Bridges(LettersLast(), RELATION) && !Bridges(CapitalsLast(), RELATION)
  {
    var a, b := LettersLast(), CapitalsLast();
    assert LastBefore(a[..3][..2], 14) == Some((LETTERS, FIRST));
    assert LastBefore(b[..3][..2], 14) == Some((CAPITALS, FIRST));
    assert FirstAfter(a[1..][1..], 39) == Some((CAPITALS, SECOND));
    assert FirstAfter(b[1..][1..], 39) == Some((CAPITALS, SECOND));
  }

  lemma TwoValueVerdict(i: Identity, j: Identity, explicit: bool)
    requires i.value != j.value && i.period == None
    ensures Verdict({i, j}, explicit) == if explicit then Conflict else PossibleConflict
  {
    assert Values({i, j}) == {i.value, j.value};
    assert None in PeriodsOf({i, j}, i.value);
  }

  lemma KeepsBoth(rules: Rules, o: Observation, p: Observation)
    requires rules.Value(o) != rules.Value(p)
    ensures Deduplicate(rules, [o, p]) == [o, p]
    ensures Identities(rules, [o, p]) == {rules.Identity(o), rules.Identity(p)}
  {
    hide Rules.Value;
    assert [o, p][..1] == [o] && [o][..0] == [];
    assert Deduplicate(rules, [o]) == [o];
  }

  lemma OnlyQuote(o: Observation, p: Observation)
    requires o.sentences == [] && p.sentences == []
    ensures Sentences([TIED], {o, p}) == {TIED}
  {
  }

  lemma PairStatus(rules: Rules, order: Iteration, o: Observation, p: Observation)
    requires o.authorized && p.authorized && o.referencesValid && p.referencesValid
    requires o.anchor == None && rules.Value(o) != rules.Value(p) && rules.binds(TIED)
    requires o.sentences == [] && p.sentences == []
    ensures Status(rules, TiedRule, order, Claim([o, p], [TIED], true, true, false, false))
         == if TiedRule(TIED, ReadingOf(rules, order, {o, p}, TIED)) then Conflict else PossibleConflict
  {
    hide Deduplicate, Authorized, Verdict, ReadingOf, Identities, Sentences, TiedRule, Rules.Value, Status;
    var c := Claim([o, p], [TIED], true, true, false, false);
    KeepsBoth(rules, o, p);
    OnlyQuote(o, p);
    assert Elements([o, p]) == {o, p};
    StatusComparing(rules, TiedRule, order, c);
    TwoValueVerdict(rules.Identity(o), rules.Identity(p),
      ExplicitConflict(rules, TiedRule, order, {TIED}, {o, p}));
  }

  /**
   The ratings `AA` and `A.A.` are two values found at the same spans. Over a quote that sets one
   against the other, the same draft is a conflict under one order of the set of candidates and a
   possible conflict under another, although every identity has one observation.
   */
  lemma TiesCanMatter(rules: Rules) returns (a: Iteration, b: Iteration)
    requires rules.signatures("AA") == [] && rules.signatures("A.A.") == [] && rules.binds(TIED)
    ensures Iterates(a) && Iterates(b)
    ensures var plain := Observation("reported_level", "AA", None, [], true, true);
      var dotted := Observation("reported_level", "A.A.", None, [], true, true);
      var claim := Claim([plain, dotted], [TIED], true, true, false, false);
      && Status(rules, TiedRule, a, claim) == Conflict
      && Status(rules, TiedRule, b, claim) == PossibleConflict
  {
    var plain := Observation("reported_level", "AA", None, [], true, true);
    var dotted := Observation("reported_level", "A.A.", None, [], true, true);
    BothRatings(rules, plain, dotted);
    TwoLists();
    OneBridges();
    hide *;
    a, b := Giving(TIED, Found(), LettersLast()), Giving(TIED, Found(), CapitalsLast());
    GivingIterates(TIED, Found(), LettersLast());
    GivingIterates(TIED, Found(), CapitalsLast());
    SortedStays(LettersLast());
    SortedStays(CapitalsLast());
    PairStatus(rules, a, plain, dotted);
    PairStatus(rules, b, plain, dotted);
    RuleReads(rules, a, plain, dotted);
    RuleReads(rules, b, plain, dotted);
  }

  lemma RuleReads(rules: Rules, order: Iteration, o: Observation, p: Observation)
    ensures TiedRule(TIED, ReadingOf(rules, order, {o, p}, TIED))
      <==> Bridges(Listing(order, TIED, Spellings(rules, {o, p}, TIED)), RELATION)
  {
    hide Bridges, Listing, Spellings, Kinds, NumberKinds, PhraseKinds;
  }
}
