/** One rating in two spellings, drafted in two orders, with two statuses. */
module OrderExample {
  import opened Models
  import opened Listings
  import opened CandidateOrder
  import opened ClaimClassification
  import opened MetricTokens
  import opened ExactScan
  import KindAmbiguity
  import TextRuns
  import WordingOrder

  const AFTER := "cannot" + " " + ("be" + " " + ("right" + " " + ("alongside" + " " + "baa")))

  /** rating was a.a. cannot be right alongside baa */
  const QUOTE := "rating" + " " + ("was" + " " + ("a.a." + " " + AFTER))

  const OTHER_QUOTE := "rating was a a"

  /**
   What the bridge relation decides when one value is authorized: a classified value stands directly
   before it, and the word after it is a different one.
   */
  predicate BridgeRule(sentence: string, reading: Reading) {
    exists x | x in reading.candidates :: x.1.1 <= |sentence| && sentence[x.1.1..] == " " + AFTER
  }

  function LowerWord(v: string): Token {
    Token(v, 0, 1, Word, false)
  }

  function QuoteTokens(): seq<Token> {
    [LowerWord("rating"), LowerWord("was"), LowerWord("aa"), LowerWord("cannot"), LowerWord("be"),
     LowerWord("right"), LowerWord("alongside"), LowerWord("baa")]
  }

  lemma LowerWordIsCanonical(v: string)
    requires v != "" && forall i | 0 <= i < |v| :: 'a' <= v[i] <= 'z'
    ensures Canonical(LowerWord(v))
  {
  }

  lemma QuoteTokensCanonical()
    ensures forall t | t in QuoteTokens() :: Canonical(t)
  {
    LowerWordIsCanonical("rating");
    LowerWordIsCanonical("was");
    LowerWordIsCanonical("aa");
    LowerWordIsCanonical("cannot");
    LowerWordIsCanonical("be");
    LowerWordIsCanonical("right");
    LowerWordIsCanonical("alongside");
    LowerWordIsCanonical("baa");
    hide Canonical;
  }

  lemma DottedInitialism()
    ensures Tokens("A.A.") == [Token("aa", 0, 4, Initialism, true)]
    ensures SearchTerms("A.A.") == ["a", "a"]
  {
    var s := "A.A.";
    assert s[2..] == "A." && s[2..][2..] == "";
    assert Pairs(s[2..][2..]) == 0;
    assert Pairs(s[2..]) == 1;
    assert Pairs(s) == 2;
    assert s[..4] == s && s[4..] == "";
    UndottedPair();
    assert Lower("AA") == "aa";
    assert FirstToken(s, 0, false) == ([Token("aa", 0, 4, Initialism, true)], 4);
    TermsAreTokens(s, 0, false);
    var tokens := Tokens(s);
    assert tokens[1..] == [];
    assert Singles("aa") == ["a", "a"];
  }

  lemma UndottedPair()
    ensures Undotted("A.A.") == "AA"
  {
    var s := "A.A.";
    assert s[1..] == ".A." && s[1..][1..] == "A." && s[1..][1..][1..] == "." && s[1..][1..][1..][1..] == "";
    assert Undotted(".") == "";
    assert Undotted("A.") == "A";
    assert Undotted(".A.") == "A";
  }

  lemma LetterA(at: nat)
    ensures TokensFrom("A", at, false) == [Token("a", at, at + 1, Word, false)]
  {
    assert "A"[1..] == "" && "A"[..1] == "A" && Lower("A") == "a";
    assert TextRuns.RunLength("A", AlNum) == 1;
    assert FirstToken("A", at, false) == ([Token("a", at, at + 1, Word, false)], 1);
  }

  lemma FirstLetter()
    ensures FirstToken("A A", 0, false) == ([Token("a", 0, 1, Word, false)], 1)
  {
    var s := "A A";
    assert s[1..] == " A" && s[..1] == "A" && Lower("A") == "a";
    assert TextRuns.RunLength(s, AlNum) == 1;
  }

  lemma TwoLetters()
    ensures Tokens("A A") == [Token("a", 0, 1, Word, false), Token("a", 2, 3, Word, false)]
    ensures SearchTerms("A A") == ["a", "a"]
  {
    var s := "A A";
    assert s[1..] == " A" && " A" == " " + "A" && WordChar(s[0]);
    FirstLetter();
    LetterA(2);
    KindAmbiguity.BlankPart("A", 1, true);
    hide FirstToken, SearchTerms, WordChar;
    assert TokensFrom(s, 0, false) == [Token("a", 0, 1, Word, false)] + TokensFrom(" A", 1, true);
    TermsAreTokens(s, 0, false);
    TwoTerms();
  }

  lemma TwoTerms()
    ensures TermsOf([Token("a", 0, 1, Word, false), Token("a", 2, 3, Word, false)]) == ["a", "a"]
  {
    var tokens := [Token("a", 0, 1, Word, false), Token("a", 2, 3, Word, false)];
    assert tokens[1..] == [tokens[1]] && tokens[1..][1..] == [];
    assert TermsOf(tokens[1..]) == ["a"];
  }

  lemma JoinMore(part: string, rest: seq<string>)
    requires rest != []
    ensures TextRuns.Join([part] + rest, " ") == part + " " + TextRuns.Join(rest, " ")
  {
    assert ([part] + rest)[1..] == rest;
  }

  lemma AfterText()
    ensures TextRuns.Join(["cannot", "be", "right", "alongside", "baa"], " ") == AFTER
  {
    var p2, p3, p4 := ["alongside", "baa"], ["right", "alongside", "baa"], ["be", "right", "alongside", "baa"];
    JoinMore("alongside", ["baa"]);
    JoinMore("right", p2);
    JoinMore("be", p3);
    JoinMore("cannot", p4);
    assert p2 == ["alongside"] + ["baa"] && p3 == ["right"] + p2 && p4 == ["be"] + p3;
    assert ["cannot", "be", "right", "alongside", "baa"] == ["cannot"] + p4;
  }

  lemma QuoteParts()
    ensures KindAmbiguity.RespelledAll(QuoteTokens(), "aa")
         == ["rating"] + (["was"] + (["a.a."] + ["cannot", "be", "right", "alongside", "baa"]))
  {
    DottedPair();
    var parts := KindAmbiguity.RespelledAll(QuoteTokens(), "aa");
    assert parts == ["rating", "was", "a.a.", "cannot", "be", "right", "alongside", "baa"];
  }

  lemma QuoteText()
    ensures TextRuns.Join(KindAmbiguity.RespelledAll(QuoteTokens(), "aa"), " ") == QUOTE
  {
    QuoteParts();
    AfterText();
    hide TextRuns.Join, QuoteTokens;
    var rest := ["cannot", "be", "right", "alongside", "baa"];
    JoinMore("a.a.", rest);
    JoinMore("was", ["a.a."] + rest);
    JoinMore("rating", ["was"] + (["a.a."] + rest));
  }

  lemma AfterFifteen(after: string)
    ensures ("rating" + " " + ("was" + " " + ("a.a." + " " + after)))[15..] == " " + after
    ensures |"rating" + " " + ("was" + " " + ("a.a." + " " + after))| == 16 + |after|
  {
    var s := "rating" + " " + ("was" + " " + ("a.a." + " " + after));
    assert |s| == 16 + |after|;
    assert s[15] == ' ';
    assert forall k | 0 <= k < |after| :: s[16 + k] == after[k];
    assert s[15..] == " " + after;
  }

  lemma DottedPair()
    ensures KindAmbiguity.DottedLetters("aa") == "a.a."
  {
    assert "aa"[1..] == "a" && "a"[1..] == "";
    assert KindAmbiguity.DottedLetters("a") == "a.";
  }

  lemma AaIsDottable()
    ensures KindAmbiguity.Dottable("aa")
  {
  }

  lemma QuoteTokensRespelled()
    ensures KindAmbiguity.Respells(TokensFrom(QUOTE, 0, false), QuoteTokens(), "aa", QUOTE, 0)
  {
    hide *;
    QuoteText();
    QuoteTokensCanonical();
    AaIsDottable();
    KindAmbiguity.RespelledTokens(QuoteTokens(), "aa", 0);
  }

  lemma QuotePositions(o: seq<Token>, text: string)
    requires KindAmbiguity.Respells(o, QuoteTokens(), "aa", text, 0)
    ensures |o| == 8 && o[2].value == "aa" && o[2].start == 11 && o[2].end == 15
  {
    DottedPair();
    hide KindAmbiguity.DottedLetters;
    assert KindAmbiguity.BlankAfter(o, text, 0, 0) && KindAmbiguity.BlankAfter(o, text, 0, 1);
  }

  lemma QuoteValues(o: seq<Token>, text: string)
    requires KindAmbiguity.Respells(o, QuoteTokens(), "aa", text, 0)
    ensures forall k | 0 <= k < |o| :: o[k].value != "a"
  {
    hide KindAmbiguity.BlankAfter, KindAmbiguity.Respelled;
    assert forall t | t in QuoteTokens() :: t.value != "a";
    assert forall k | 0 <= k < |o| :: o[k].value == QuoteTokens()[k].value && QuoteTokens()[k] in QuoteTokens();
  }

  /** The words of the quote, and where its rating ends. */
  lemma QuoteWords()
    ensures var o := Tokens(QUOTE);
      && |o| == 8 && o[2].value == "aa" && o[2].start == 11 && o[2].end == 15
      && forall k | 0 <= k < |o| :: o[k].value != "a"
  {
    QuoteTokensRespelled();
    var o := Tokens(QUOTE);
    assert o == TokensFrom(QUOTE, 0, false);
    hide *;
    QuotePositions(o, QUOTE);
    QuoteValues(o, QUOTE);
  }

  /** The dotted rating stands directly before the relation. */
  lemma DottedBeforeBridge()
    ensures (11, 15) in PhraseSpans("A.A.", QUOTE, false)
    ensures |QUOTE| >= 15 && QUOTE[15..] == " " + AFTER
  {
    DottedInitialism();
    QuoteWords();
    AfterFifteen(AFTER);
    hide Tokens, SpansBefore, SearchTerms;
    var expected, observed := Tokens("A.A."), Tokens(QUOTE);
    assert SameLexeme(expected[0], observed[2 + 0], false);
    assert WindowMatches(expected, observed, QUOTE, 2, false);
    WordingOrder.WindowHasSpan(expected, observed, QUOTE, Windows(expected, observed), 2);
  }

  /** The letters apart are nowhere in the sentence. */
  lemma LettersNotQuoted()
    ensures PhraseSpans("A A", QUOTE, false) == []
  {
    TwoLetters();
    QuoteWords();
    hide Tokens, SpansBefore, WindowMatches, SearchTerms;
    var expected, observed := Tokens("A A"), Tokens(QUOTE);
    var spans := PhraseSpans("A A", QUOTE, false);
    if spans != [] {
      var i := WordingOrder.SpanHasWindow(expected, observed, QUOTE, Windows(expected, observed), spans[0]);
      MatchesFirst(expected, observed, QUOTE, i);
      assert false;
    }
  }

  lemma MatchesFirst(expected: seq<Token>, observed: seq<Token>, text: string, i: nat)
    requires expected != [] && WindowMatches(expected, observed, text, i, false)
    ensures i < |observed| && observed[i].value == expected[0].value
  {
    assert SameLexeme(expected[0], observed[i + 0], false);
  }

  lemma PairKeepsFirst(rules: Rules, o: Observation, p: Observation)
    requires rules.Identity(o) == rules.Identity(p)
    ensures Deduplicate(rules, [o, p]) == [o]
  {
    hide Rules.Identity;
    assert [o, p][..1] == [o] && [o][..0] == [];
    assert Deduplicate(rules, [o]) == [o];
  }

  lemma PairStatus(rules: Rules, recognize: Recognizer, order: Iteration, o: Observation, p: Observation)
    requires o.authorized && p.authorized && o.referencesValid && p.referencesValid
    requires rules.Identity(o) == rules.Identity(p)
    ensures Status(rules, recognize, order, Claim([o, p], [], false, true, false, false))
         == if ExplicitConflict(rules, recognize, order, Sentences([], {o, p}), {o}) then PossibleConflict else Verified
  {
    var c := Claim([o, p], [], false, true, false, false);
    assert Comparing(c);
    PairKeepsFirst(rules, o, p);
    assert Elements([o]) == {o} && Elements([o, p]) == {o, p};
    hide Rules.Identity;
    assert Identities(rules, [o, p]) == {rules.Identity(o)};
    hide *;
    StatusComparing(rules, recognize, order, c);
    OneValueVerdict(rules.Identity(o), ExplicitConflict(rules, recognize, order, Sentences([], {o, p}), {o}));
  }

  lemma OneValueVerdict(i: Identity, explicit: bool)
    ensures Verdict({i}, explicit) == if explicit then PossibleConflict else Verified
  {
    hide TemporalComplete, DistinctTemporal;
    assert Values({i}) == {i.value};
  }

  lemma OneSpelling(rules: Rules, o: Observation, s: string)
    requires rules.signatures(o.text) == []
    ensures Spellings(rules, {o}, s) == set span | span in PhraseSpans(o.text, s, false) :: (SearchTerms(o.text), span)
  {
    hide PhraseSpans, SearchTerms;
    assert Spellings(rules, {o}, s) == CandidatesOf(rules, o, s);
  }

  /**
   One rating spelled `A.A.` and `A A`, each quoted, under the bridge rule and whatever the order of
   sets: drafted first, the dotted spelling is found before the relation and the claim is a possible
   conflict; drafted second, it is dropped and the claim is verified.
   */
  lemma OrderCanMatter(rules: Rules, a: Iteration, b: Iteration)
    requires rules.signatures("A.A.") == [] && rules.signatures("A A") == [] && rules.binds(QUOTE)
    requires Iterates(a) && Iterates(b)
    ensures var dotted := Observation("reported_level", "A.A.", None, [QUOTE], true, true);
      var spaced := Observation("reported_level", "A A", None, [OTHER_QUOTE], true, true);
      && Status(rules, BridgeRule, a, Claim([dotted, spaced], [], false, true, false, false)) == PossibleConflict
      && Status(rules, BridgeRule, b, Claim([spaced, dotted], [], false, true, false, false)) == Verified
  {
    var dotted := Observation("reported_level", "A.A.", None, [QUOTE], true, true);
    var spaced := Observation("reported_level", "A A", None, [OTHER_QUOTE], true, true);
    OneRating(rules, dotted, spaced);
    hide *;
    PairStatus(rules, BridgeRule, a, dotted, spaced);
    PairStatus(rules, BridgeRule, b, spaced, dotted);
    QuotedSentences(dotted, spaced, QUOTE, OTHER_QUOTE);
    QuotedSentences(spaced, dotted, OTHER_QUOTE, QUOTE);
    DottedConflicts(rules, a, dotted);
    SpacedDoesNot(rules, b, spaced);
  }

  /** Both spellings are one value. */
  lemma OneRating(rules: Rules, dotted: Observation, spaced: Observation)
    requires rules.signatures("A.A.") == [] && rules.signatures("A A") == []
    requires dotted.text == "A.A." && spaced.text == "A A"
    requires dotted.kind == spaced.kind && dotted.anchor == spaced.anchor == None
    ensures rules.Identity(dotted) == rules.Identity(spaced)
  {
    DottedInitialism();
    TwoLetters();
  }

  lemma QuotedSentences(o: Observation, p: Observation, a: string, b: string)
    requires o.sentences == [a] && p.sentences == [b]
    ensures Sentences([], {o, p}) == {a, b}
  {
    assert a in o.sentences && b in p.sentences;
  }

  lemma DottedConflicts(rules: Rules, order: Iteration, dotted: Observation)
    requires dotted.text == "A.A." && rules.signatures("A.A.") == [] && rules.binds(QUOTE) && Iterates(order)
    ensures ExplicitConflict(rules, BridgeRule, order, {QUOTE, OTHER_QUOTE}, {dotted})
  {
    DottedBeforeBridge();
    hide PhraseSpans, SearchTerms, Spellings, NumberKinds, PhraseKinds, Kinds, Listing, Iterates;
    OneSpelling(rules, dotted, QUOTE);
    var x, spellings := (SearchTerms("A.A."), (11, 15)), Spellings(rules, {dotted}, QUOTE);
    ListingLists(order, QUOTE, spellings);
    assert x in spellings && x in multiset(spellings);
    assert x in ReadingOf(rules, order, {dotted}, QUOTE).candidates;
    assert BridgeRule(QUOTE, ReadingOf(rules, order, {dotted}, QUOTE));
  }

  lemma SpacedDoesNot(rules: Rules, order: Iteration, spaced: Observation)
    requires spaced.text == "A A" && rules.signatures("A A") == [] && Iterates(order)
    ensures !ExplicitConflict(rules, BridgeRule, order, {QUOTE, OTHER_QUOTE}, {spaced})
  {
    LettersNotQuoted();
    hide PhraseSpans, SearchTerms, Spellings, ReadingOf, BridgeRule, Iterates, CandidatesOf;
    OneSpelling(rules, spaced, QUOTE);
    assert Spellings(rules, {spaced}, QUOTE) == {};
    NothingBridges(rules, order, {spaced});
    TooShortToBridge(ReadingOf(rules, order, {spaced}, OTHER_QUOTE));
  }

  lemma NothingBridges(rules: Rules, order: Iteration, classified: set<Observation>)
    requires Iterates(order) && Spellings(rules, classified, QUOTE) == {}
    ensures !BridgeRule(QUOTE, ReadingOf(rules, order, classified, QUOTE))
  {
    hide Spellings, NumberKinds, PhraseKinds, Kinds, Listing, Iterates;
    ListingLists(order, QUOTE, {});
    var listing := Listing(order, QUOTE, {});
    assert ReadingOf(rules, order, classified, QUOTE).candidates == listing;
    assert forall x | x in listing :: x in multiset(listing);
  }

  lemma TooShortToBridge(reading: Reading)
    ensures !BridgeRule(OTHER_QUOTE, reading)
  {
    assert |OTHER_QUOTE| < |AFTER|;
  }
}
