/**
 Order independence read off the wordings of qualitative values: which texts the phrase matcher tells
 apart, and what that means for claims whatever their context quotes.
 */
module WordingOrder {
  import opened Models
  import opened Listings
  import opened CandidateOrder
  import opened ClaimClassification
  import opened OrderIndependence
  import opened MetricTokens
  import opened ExactScan
  import KindAmbiguity
  import TextRuns

  /** The words of a text as the phrase matcher reads them when token kinds are ignored. */
  function TokenValues(text: string): seq<string> {
    var tokens := Tokens(text);
    seq(|tokens|, i requires 0 <= i < |tokens| => tokens[i].value)
  }

  lemma SameWindow(a: seq<Token>, b: seq<Token>, observed: seq<Token>, text: string, i: nat)
    requires |a| == |b| && forall k | 0 <= k < |a| :: a[k].value == b[k].value
    ensures WindowMatches(a, observed, text, i, false) <==> WindowMatches(b, observed, text, i, false)
  {
    forall k | 0 <= k < |a| && i + k < |observed|
      ensures SameLexeme(a[k], observed[i + k], false) <==> SameLexeme(b[k], observed[i + k], false)
    {
    }
  }

  lemma {:induction false} SameSpansBefore(a: seq<Token>, b: seq<Token>, observed: seq<Token>, text: string, n: nat)
    requires a != [] && |a| == |b| && forall k | 0 <= k < |a| :: a[k].value == b[k].value
    requires n <= Windows(a, observed)
    ensures SpansBefore(a, observed, text, n, false) == SpansBefore(b, observed, text, n, false)
  {
    hide WindowMatches;
    if n > 0 {
      SameSpansBefore(a, b, observed, text, n - 1);
      SameWindow(a, b, observed, text, n - 1);
    }
  }

  /** Texts with the same token values spell the same candidates in every sentence. */
  lemma SameWordsSameSpans(a: string, b: string, sentence: string)
    requires TokenValues(a) == TokenValues(b)
    ensures PhraseSpans(a, sentence, false) == PhraseSpans(b, sentence, false)
  {
    hide SpansBefore, Tokens;
    var x, y := Tokens(a), Tokens(b);
    assert |x| == |TokenValues(a)| && |y| == |TokenValues(b)|;
    forall k | 0 <= k < |x| ensures x[k].value == y[k].value {
      assert TokenValues(a)[k] == TokenValues(b)[k];
    }
    if x != [] {
      SameSpansBefore(x, y, Tokens(sentence), sentence, Windows(x, Tokens(sentence)));
    }
  }

  // ----- one span, one wording -----

  lemma {:induction false} SpanHasWindow(expected: seq<Token>, observed: seq<Token>, text: string, n: nat, span: Span)
    returns (i: nat)
    requires expected != [] && n <= Windows(expected, observed)
        && span in SpansBefore(expected, observed, text, n, false)
    ensures i < n && WindowMatches(expected, observed, text, i, false)
    ensures span == (observed[i].start, observed[i + |expected| - 1].end)
  {
    hide WindowMatches;
    if span in SpansBefore(expected, observed, text, n - 1, false) {
      i := SpanHasWindow(expected, observed, text, n - 1, span);
    } else {
      i := n - 1;
      assert WindowMatches(expected, observed, text, n - 1, false);
    }
  }

  lemma {:induction false} WindowHasSpan(expected: seq<Token>, observed: seq<Token>, text: string, n: nat, i: nat)
    requires expected != [] && n <= Windows(expected, observed) && i < n
        && WindowMatches(expected, observed, text, i, false)
    ensures (observed[i].start, observed[i + |expected| - 1].end) in SpansBefore(expected, observed, text, n, false)
  {
    hide WindowMatches;
    if i < n - 1 {
      WindowHasSpan(expected, observed, text, n - 1, i);
    }
  }

  /** The words of a sentence that stand at a span. */
  lemma SpanHasWords(text: string, sentence: string, span: Span) returns (i: nat, n: nat)
    requires span in PhraseSpans(text, sentence, false)
    ensures n == |TokenValues(text)| && 0 < n && i + n <= |Tokens(sentence)|
    ensures span == (Tokens(sentence)[i].start, Tokens(sentence)[i + n - 1].end)
    ensures forall k | 0 <= k < n :: TokenValues(text)[k] == Tokens(sentence)[i + k].value
  {
    hide Tokens, SpansBefore, GapAt;
    var expected, observed := Tokens(text), Tokens(sentence);
    i := SpanHasWindow(expected, observed, sentence, Windows(expected, observed), span);
    n := |expected|;
    forall k | 0 <= k < n ensures TokenValues(text)[k] == observed[i + k].value {
      assert SameLexeme(expected[k], observed[i + k], false);
    }
  }

  lemma TokensIncrease(sentence: string)
    ensures var o := Tokens(sentence);
      forall i, j | 0 <= i < j < |o| :: o[i].start < o[j].start && o[i].end < o[j].end
  {
    TokensFollow(sentence, 0, false);
    TokensCanonical(sentence, 0, false);
    var o := Tokens(sentence);
    assert o == TokensFrom(sentence, 0, false);
    hide TokensFrom, Tokens;
    assert forall j | 0 <= j < |o| :: o[j] in o;
  }

  /** One span of a sentence is spelled by the texts of one sequence of token values. */
  lemma SpanTellsWords(a: string, b: string, sentence: string, span: Span)
    requires span in PhraseSpans(a, sentence, false)
    ensures span in PhraseSpans(b, sentence, false) <==> TokenValues(b) == TokenValues(a)
  {
    hide Tokens, PhraseSpans, TokenValues;
    if TokenValues(b) == TokenValues(a) {
      SameWordsSameSpans(b, a, sentence);
    }
    if span in PhraseSpans(b, sentence, false) {
      var i, n := SpanHasWords(a, sentence, span);
      var j, m := SpanHasWords(b, sentence, span);
      TokensIncrease(sentence);
      assert i == j && i + n - 1 == j + m - 1;
    }
  }

  // ----- wordings -----

  /** All observations of one identity are worded alike. */
  predicate AllWorded(rules: Rules, observations: seq<Observation>, p: Observation, text: string) {
    forall q | q in observations && rules.Identity(q) == rules.Identity(p) :: TokenValues(q.text) == TokenValues(text)
  }

  /** The wording of an observation is the only wording of some identity of its value. */
  predicate WordingPinned(rules: Rules, observations: seq<Observation>, o: Observation) {
    exists p | p in observations && rules.Value(p) == rules.Value(o) :: AllWorded(rules, observations, p, o.text)
  }

  /** No other qualitative value is worded like this observation. */
  predicate Unrivalled(rules: Rules, observations: seq<Observation>, o: Observation) {
    forall p | p in observations && rules.Value(p).Phrase? && TokenValues(p.text) == TokenValues(o.text) ::
      rules.Value(p) == rules.Value(o)
  }

  /** Some sentence that binds spells the text. */
  ghost predicate Quotable(rules: Rules, text: string) {
    exists s: string :: rules.binds(s) && PhraseSpans(text, s, false) != []
  }

  /** Every wording of a qualitative value that can be quoted belongs to one value and pins it. */
  ghost predicate WordingsDecide(rules: Rules, observations: seq<Observation>) {
    forall o | o in observations && rules.Value(o).Phrase? && Quotable(rules, o.text) ::
      WordingPinned(rules, observations, o) && Unrivalled(rules, observations, o)
  }

  lemma CandidateSpells(rules: Rules, o: Observation, s: string, x: Candidate)
    ensures x in CandidatesOf(rules, o, s)
      <==> rules.Value(o).Phrase? && x.0 == rules.Value(o).words && x.1 in PhraseSpans(o.text, s, false)
  {
    hide PhraseSpans, Rules.Value;
  }

  /** At the span of one wording stand exactly the observations worded like it, each with its own value. */
  lemma ToldApart(rules: Rules, o: Observation, q: Observation, s: string, x: Candidate)
    requires x in CandidatesOf(rules, o, s)
    ensures rules.Value(o).Phrase?
    ensures x in CandidatesOf(rules, q, s)
      <==> rules.Value(q) == rules.Value(o) && TokenValues(q.text) == TokenValues(o.text)
  {
    hide PhraseSpans, TokenValues, Rules.Value, CandidatesOf;
    CandidateSpells(rules, o, s, x);
    CandidateSpells(rules, q, s, x);
    SpanTellsWords(o.text, q.text, s, x.1);
  }

  lemma SameIdentity(rules: Rules, p: Observation, q: Observation)
    requires rules.Identity(q) == rules.Identity(p)
    ensures rules.Value(q) == rules.Value(p)
  {
  }

  /** A candidate is pinned exactly when the wording that spells it is. */
  lemma PinnedByWording(rules: Rules, observations: seq<Observation>, o: Observation, s: string, x: Candidate)
    requires x in CandidatesOf(rules, o, s) && o in observations
    ensures Pinned(rules, observations, s, x) <==> WordingPinned(rules, observations, o)
  {
    hide CandidatesOf, Rules.Value, Rules.Identity, TokenValues;
    forall q ensures x in CandidatesOf(rules, q, s)
      <==> rules.Value(q) == rules.Value(o) && TokenValues(q.text) == TokenValues(o.text)
    {
      ToldApart(rules, o, q, s, x);
    }
    forall p | p in observations
      ensures AllSpell(rules, observations, p, s, x)
        <==> rules.Value(p) == rules.Value(o) && AllWorded(rules, observations, p, o.text)
    {
      forall q | rules.Identity(q) == rules.Identity(p) ensures rules.Value(q) == rules.Value(p) {
        SameIdentity(rules, p, q);
      }
    }
  }

  lemma CandidateQuotes(rules: Rules, o: Observation, s: string, x: Candidate)
    requires x in CandidatesOf(rules, o, s) && rules.binds(s)
    ensures rules.Value(o).Phrase? && Quotable(rules, o.text)
  {
    hide PhraseSpans, Rules.Value;
  }

  lemma WordingsPin(rules: Rules, c: Claim)
    requires WordingsDecide(rules, c.observations)
    ensures AllPinned(rules, c)
  {
    hide Sentences, WordingPinned, Unrivalled, Quotable, CandidatesOf, Rules.Value, Pinned, Spellings;
    forall s, x | s in Sentences(c.context, Elements(c.observations)) && rules.binds(s)
        && x in Spellings(rules, Elements(c.observations), s)
      ensures Pinned(rules, c.observations, s, x)
    {
      var o := CandidateElement(rules, c.observations, s, x);
      CandidateQuotes(rules, o, s, x);
      PinnedByWording(rules, c.observations, o, s, x);
    }
  }

  lemma TieWords(rules: Rules, o: Observation, p: Observation, s: string, x: Candidate, y: Candidate)
    requires x in CandidatesOf(rules, o, s) && y in CandidatesOf(rules, p, s) && x.1 == y.1
    ensures TokenValues(p.text) == TokenValues(o.text) && rules.Value(p).Phrase?
    ensures rules.Value(p) == rules.Value(o) ==> x == y
  {
    hide PhraseSpans, TokenValues, Rules.Value, CandidatesOf;
    CandidateSpells(rules, o, s, x);
    CandidateSpells(rules, p, s, y);
    SpanTellsWords(o.text, p.text, s, x.1);
  }

  lemma WordingsUntie(rules: Rules, c: Claim)
    requires WordingsDecide(rules, c.observations)
    ensures AllUntied(rules, c)
  {
    hide Sentences, WordingPinned, TokenValues, Quotable, CandidatesOf, Rules.Value, Spellings;
    forall s, x, y | s in Sentences(c.context, Elements(c.observations)) && rules.binds(s)
        && x in Spellings(rules, Elements(c.observations), s) && y in Spellings(rules, Elements(c.observations), s)
        && x.1 == y.1
      ensures x == y
    {
      var o := CandidateElement(rules, c.observations, s, x);
      var p := CandidateElement(rules, c.observations, s, y);
      CandidateQuotes(rules, o, s, x);
      TieWords(rules, o, p, s, x, y);
      assert Unrivalled(rules, c.observations, o);
    }
  }

  /** Equal identities worded alike, and equal wordings of one value: order never matters, whatever is quoted. */
  lemma SameWordsAreOrderFree(rules: Rules, c: Claim)
    requires forall o, p | o in c.observations && p in c.observations && rules.Identity(o) == rules.Identity(p)
        && rules.Value(o).Phrase? :: TokenValues(o.text) == TokenValues(p.text)
    requires forall o | o in c.observations && rules.Value(o).Phrase? :: Unrivalled(rules, c.observations, o)
    ensures OrderInsensitive(rules, c)
  {
    hide OrderInsensitive, Comparing, CommonPeriod, TokenValues, Unrivalled, AllPinned, AllUntied, Quotable;
    forall o | o in c.observations && rules.Value(o).Phrase? ensures WordingPinned(rules, c.observations, o) {
      assert AllWorded(rules, c.observations, o, o.text);
    }
    WordingsPin(rules, c);
    WordingsUntie(rules, c);
    OrderInsensitiveExactly(rules, c);
  }

  /** Order never matters, whatever further context is quoted. */
  ghost predicate OrderInsensitiveAnyway(rules: Rules, c: Claim) {
    forall context: seq<string> :: OrderInsensitive(rules, c.(context := context))
  }

  lemma QuotedIsSentence(s: string, observations: set<Observation>)
    ensures s in Sentences([s], observations)
  {
    assert s in [s];
  }

  /** Quoting a wording that does not pin its value, or that another value shares, makes order matter. */
  lemma QuotedDecides(rules: Rules, c: Claim, o: Observation)
    requires Comparing(c) && !CommonPeriod(Identities(rules, c.observations))
    requires o in c.observations && rules.Value(o).Phrase? && Quotable(rules, o.text)
    requires !(WordingPinned(rules, c.observations, o) && Unrivalled(rules, c.observations, o))
    ensures !OrderInsensitiveAnyway(rules, c)
  {
    hide OrderInsensitive, CommonPeriod, Identities, Pinned, Sentences, WordingPinned, CandidatesOf, PhraseSpans;
    hide Rules.Value, TokenValues;
    var s :| rules.binds(s) && PhraseSpans(o.text, s, false) != [];
    var x := (rules.Value(o).words, PhraseSpans(o.text, s, false)[0]);
    CandidateSpells(rules, o, s, x);
    assert o in Elements(c.observations);
    var d := c.(context := [s]);
    QuotedIsSentence(s, Elements(c.observations));
    OrderInsensitiveExactly(rules, d);
    PinnedByWording(rules, c.observations, o, s, x);
    if !Unrivalled(rules, c.observations, o) {
      var p :| p in c.observations && rules.Value(p).Phrase? && TokenValues(p.text) == TokenValues(o.text)
        && rules.Value(p) != rules.Value(o);
      var y := (rules.Value(p).words, x.1);
      SpanTellsWords(o.text, p.text, s, x.1);
      CandidateSpells(rules, p, s, y);
      assert p in Elements(c.observations);
      assert x != y && !NoTies(Spellings(rules, Elements(c.observations), s));
    }
    assert !OrderInsensitive(rules, c.(context := [s]));
  }

  /**
   Whatever the context quotes, status is independent of every order exactly when values are never
   compared, or share one period, or each wording that can be quoted is the only wording of some
   identity and the wording of one value only.
   */
  lemma OrderInsensitiveAnywayExactly(rules: Rules, c: Claim)
    ensures OrderInsensitiveAnyway(rules, c) <==>
      !Comparing(c) || CommonPeriod(Identities(rules, c.observations)) || WordingsDecide(rules, c.observations)
  {
    hide OrderInsensitive, CommonPeriod, Identities, AllPinned, AllUntied, WordingPinned, Unrivalled, Quotable;
    if !Comparing(c) || CommonPeriod(Identities(rules, c.observations)) || WordingsDecide(rules, c.observations) {
      forall context: seq<string> ensures OrderInsensitive(rules, c.(context := context)) {
        var d := c.(context := context);
        assert Comparing(d) == Comparing(c);
        if WordingsDecide(rules, c.observations) {
          WordingsPin(rules, d);
          WordingsUntie(rules, d);
        }
        OrderInsensitiveExactly(rules, d);
      }
    } else {
      var o :| o in c.observations && rules.Value(o).Phrase? && Quotable(rules, o.text)
        && !(WordingPinned(rules, c.observations, o) && Unrivalled(rules, c.observations, o));
      QuotedDecides(rules, c, o);
    }
  }

  // ----- which wordings can be quoted -----

  /** The words of a text with blanks between them. */
  function Plain(text: string): string {
    TextRuns.Join(KindAmbiguity.RespelledAll(Tokens(text), "zz"), " ")
  }

  /** Some sentence binds, and putting words before a sentence that binds leaves it one. */
  ghost predicate LetsWordsLead(rules: Rules) {
    && (exists s: string :: rules.binds(s))
    && forall s, text | rules.binds(s) :: rules.binds(Plain(text) + (" " + s))
  }

  lemma LeadingMatches(expected: seq<Token>, o: seq<Token>, more: seq<Token>, text: string, rest: string)
    requires expected != [] && KindAmbiguity.Respells(o, expected, "zz", text, 0)
    ensures WindowMatches(expected, o + more, text + rest, 0, false)
  {
    forall j | 0 <= j < |o| - 1 ensures GapAt(o + more, text + rest, j) {
      assert KindAmbiguity.BlankAfter(o, text, 0, j);
    }
    forall k | 0 <= k < |expected| ensures SameLexeme(expected[k], (o + more)[0 + k], false) {
    }
  }

  lemma CanonicalTokens(text: string)
    ensures forall t | t in Tokens(text) :: Canonical(t)
  {
    TokensCanonical(text, 0, false);
  }

  lemma FromTheStart(text: string)
    ensures Tokens(text) == TokensFrom(text, 0, false)
  {
  }

  lemma SpelledOut()
    ensures KindAmbiguity.Dottable("zz")
  {
  }

  lemma PlainTokens(text: string, rest: string) returns (o: seq<Token>, more: seq<Token>)
    requires Tokens(text) != []
    ensures Tokens(Plain(text) + (" " + rest)) == o + more
    ensures KindAmbiguity.Respells(o, Tokens(text), "zz", Plain(text), 0)
  {
    CanonicalTokens(text);
    SpelledOut();
    hide Tokens, TokensFrom, Canonical, KindAmbiguity.Respells, KindAmbiguity.Dottable, TextRuns.Join;
    FromTheStart(Plain(text) + (" " + rest));
    var after;
    o, after := KindAmbiguity.LeadingTokens(Tokens(text), "zz", " " + rest, 0);
    more := TokensFrom(" " + rest, |Plain(text)|, after);
  }

  /** The words of a text in front of anything spell it. */
  lemma PlainLeads(text: string, rest: string)
    requires Tokens(text) != []
    ensures PhraseSpans(text, Plain(text) + (" " + rest), false) != []
  {
    hide Tokens, Plain, SpansBefore, WindowMatches, KindAmbiguity.Respells;
    var o, more := PlainTokens(text, rest);
    var expected, sentence := Tokens(text), Plain(text) + (" " + rest);
    LeadingMatches(expected, o, more, Plain(text), " " + rest);
    assert |expected| <= |o + more| by { MatchFits(expected, o + more, sentence); }
    WindowHasSpan(expected, o + more, sentence, Windows(expected, o + more), 0);
  }

  lemma MatchFits(expected: seq<Token>, observed: seq<Token>, text: string)
    requires WindowMatches(expected, observed, text, 0, false)
    ensures |expected| <= |observed|
  {
  }

  /** Under such a rule every text with a token can be quoted. */
  lemma QuotableExactly(rules: Rules, text: string)
    requires LetsWordsLead(rules)
    ensures Quotable(rules, text) <==> Tokens(text) != []
  {
    hide Tokens, Plain, SpansBefore;
    if Tokens(text) != [] {
      var s :| rules.binds(s);
      PlainLeads(text, s);
      assert rules.binds(Plain(text) + (" " + s));
    }
  }

  lemma NoTokensNoTerms(text: string)
    ensures Tokens(text) == [] <==> SearchTerms(text) == []
    ensures Tokens(text) == [] <==> TokenValues(text) == []
  {
    TermsAreTokens(text, 0, false);
    TokensCanonical(text, 0, false);
    assert |TokenValues(text)| == |Tokens(text)|;
    if Tokens(text) != [] {
      TermsNonempty(Tokens(text));
    }
  }

  /** Without tokens there is one wording, of one value. */
  lemma WordlessDecides(rules: Rules, observations: seq<Observation>, o: Observation)
    requires o in observations && rules.Value(o).Phrase? && Tokens(o.text) == []
    ensures WordingPinned(rules, observations, o) && Unrivalled(rules, observations, o)
  {
    hide Tokens, TokenValues, SearchTerms;
    NoTokensNoTerms(o.text);
    forall p | p in observations ensures Tokens(p.text) == [] <==> SearchTerms(p.text) == []
      ensures Tokens(p.text) == [] <==> TokenValues(p.text) == []
    {
      NoTokensNoTerms(p.text);
    }
    assert AllWorded(rules, observations, o, o.text);
  }

  /**
   Where any words may precede a conflict relation, whatever the context quotes, status is independent
   of every order exactly when values are never compared, or share one period, or each wording is the
   only wording of some identity and the wording of one value only.
   */
  lemma OrderInsensitiveInWords(rules: Rules, c: Claim)
    requires LetsWordsLead(rules)
    ensures OrderInsensitiveAnyway(rules, c) <==>
      || !Comparing(c)
      || CommonPeriod(Identities(rules, c.observations))
      || forall o | o in c.observations && rules.Value(o).Phrase? ::
           WordingPinned(rules, c.observations, o) && Unrivalled(rules, c.observations, o)
  {
    hide OrderInsensitiveAnyway, CommonPeriod, Comparing, Identities, WordingPinned, Unrivalled, Quotable;
    hide LetsWordsLead, Tokens;
    OrderInsensitiveAnywayExactly(rules, c);
    forall o | o in c.observations && rules.Value(o).Phrase?
      ensures Quotable(rules, o.text)
        || (WordingPinned(rules, c.observations, o) && Unrivalled(rules, c.observations, o))
    {
      QuotableExactly(rules, o.text);
      if Tokens(o.text) == [] {
        WordlessDecides(rules, c.observations, o);
      }
    }
  }
}
