/** Server-owned classification of a claim from its verified observations. */
module ClaimClassification {
  import opened Models
  import opened Listings
  import opened Periods
  import opened DecimalForm
  import opened CandidateOrder
  import MetricTokens
  import ExactScan

  datatype ClaimStatus = Verified | Conflict | DateVariant | NotFoundInCorpus | Unverified | PossibleConflict

  /** A draft observation after its references were checked against the corpus, with the sentences they quote. */
  datatype Observation = Observation(
    kind: string,
    text: string,
    anchor: Option<string>,
    sentences: seq<string>,
    referencesValid: bool,
    authorized: bool)

  /** Numbers by their canonical signatures, anything else by its lower-case words. */
  datatype Value = Numbers(signatures: seq<Signature>) | Phrase(words: seq<string>)

  function CanonicalAll(signatures: seq<Signature>): seq<Signature> {
    seq(|signatures|, i requires 0 <= i < |signatures| => CanonicalSignature(signatures[i]))
  }

  /**
   Deterministic text rules: the numeric pattern, the temporal signature, and which sentences hold
   both a conflict relation and the metric of the claim.
   */
  datatype Rules = Rules(
    signatures: string -> seq<Signature>,
    signature: string -> Option<Period>,
    binds: string -> bool)
  {
    function Period(o: Observation): Option<Period> {
      match o.anchor
      case None => None
      case Some(text) => signature(text)
    }

    function Value(o: Observation): Value {
      if signatures(o.text) != [] then Numbers(CanonicalAll(signatures(o.text)))
      else Phrase(MetricTokens.SearchTerms(o.text))
    }

    function Identity(o: Observation): Identity {
      Id(o.kind, Value(o), Period(o))
    }
  }

  /** What makes two observations count as one. */
  datatype Identity = Id(kind: string, value: Value, period: Option<Period>)

  datatype Claim = Claim(
    observations: seq<Observation>,
    context: seq<string>,
    contextPresent: bool,
    contextValid: bool,
    absenceRequested: bool,
    absenceProven: bool)

  // ----- deduplication -----

  function Deduplicate(rules: Rules, observations: seq<Observation>): seq<Observation> {
    if observations == [] then []
    else
      var front, last := Deduplicate(rules, observations[..|observations| - 1]), observations[|observations| - 1];
      if exists o | o in front :: rules.Identity(o) == rules.Identity(last) then front else front + [last]
  }

  method DeduplicateObservations(rules: Rules, observations: seq<Observation>) returns (unique: seq<Observation>)
    ensures unique == Deduplicate(rules, observations)
  {
    unique := [];
    var seen: set<Identity> := {};
    for i := 0 to |observations|
      invariant unique == Deduplicate(rules, observations[..i])
      invariant seen == set o | o in unique :: rules.Identity(o)
    {
      assert observations[..i + 1][..i] == observations[..i];
      var identity := rules.Identity(observations[i]);
      if identity !in seen {
        seen := seen + {identity};
        unique := unique + [observations[i]];
      }
    }
    assert observations[..|observations|] == observations;
  }

  function Authorized(observations: seq<Observation>): seq<Observation> {
    if observations == [] then []
    else
      var last := observations[|observations| - 1];
      Authorized(observations[..|observations| - 1]) + (if last.authorized then [last] else [])
  }

  function Identities(rules: Rules, observations: seq<Observation>): set<Identity> {
    set o | o in observations :: rules.Identity(o)
  }

  // ----- the classification, on sets of identities -----

  function Values(ids: set<Identity>): set<Value> {
    set i | i in ids :: i.value
  }

  function PeriodsOf(ids: set<Identity>, value: Value): set<Option<Period>> {
    set i | i in ids && i.value == value :: i.period
  }

  /** Every value is tied to exactly one known period. */
  predicate TemporalComplete(ids: set<Identity>) {
    && ids != {}
    && forall v | v in Values(ids) :: None !in PeriodsOf(ids, v) && |PeriodsOf(ids, v)| == 1
  }

  function DistinctTemporal(ids: set<Identity>): set<Period> {
    set i | i in ids && |PeriodsOf(ids, i.value)| == 1 && i.period.Some? :: i.period.value
  }

  predicate AllDistinct(periods: set<Period>) {
    forall p, q | p in periods && q in periods && p != q :: ProvablyDistinct(p, q)
  }

  function Verdict(ids: set<Identity>, explicitConflict: bool): ClaimStatus {
    var values, temporal, complete := Values(ids), DistinctTemporal(ids), TemporalComplete(ids);
    if explicitConflict && |values| < 2 then PossibleConflict
    else if |values| >= 2 then
      if explicitConflict then Conflict
      else if complete && AllDistinct(temporal) && |temporal| == |values| then DateVariant
      else if complete && |temporal| == 1 then Conflict
      else PossibleConflict
    else if |values| == 1 then Verified
    else Unverified
  }

  /** The claim gets as far as comparing its values. */
  predicate Comparing(c: Claim) {
    && !c.absenceRequested
    && c.observations != []
    && c.contextValid
    && forall o | o in c.observations :: o.referencesValid && o.authorized
  }

  // ----- explicit conflict -----

  function Get<K>(kinds: map<K, set<string>>, key: K): set<string> {
    if key in kinds then kinds[key] else {}
  }

  function NumbersIn(ids: set<Identity>): set<Signature> {
    set i, g | i in ids && i.value.Numbers? && g in i.value.signatures :: g
  }

  function WordsIn(ids: set<Identity>): set<seq<string>> {
    set i | i in ids && i.value.Phrase? :: i.value.words
  }

  function NumberHolders(ids: set<Identity>, g: Signature): set<string> {
    set i | i in ids && i.value.Numbers? && g in i.value.signatures :: i.kind
  }

  function PhraseHolders(ids: set<Identity>, words: seq<string>): set<string> {
    set i | i in ids && i.value == Phrase(words) :: i.kind
  }

  /** The observation kinds under which each canonical number was classified. */
  function NumberKinds(ids: set<Identity>): map<Signature, set<string>> {
    map g | g in NumbersIn(ids) :: NumberHolders(ids, g)
  }

  function PhraseKinds(ids: set<Identity>): map<seq<string>, set<string>> {
    map w | w in WordsIn(ids) :: PhraseHolders(ids, w)
  }

  function CandidatesOf(rules: Rules, o: Observation, sentence: string): set<Candidate> {
    if rules.Value(o).Numbers? then {}
    else set span | span in ExactScan.PhraseSpans(o.text, sentence, false) :: (rules.Value(o).words, span)
  }

  function Spellings(rules: Rules, classified: set<Observation>, sentence: string): set<Candidate> {
    set o, x | o in classified && x in CandidatesOf(rules, o, sentence) :: x
  }

  /**
   All that the conflict rule reads of the classified observations over one sentence. The kinds are
   only looked up, so they are maps; the candidates are read by position, so they are a list.
   */
  datatype Reading = Reading(
    numberKinds: map<Signature, set<string>>,
    phraseKinds: map<seq<string>, set<string>>,
    candidates: seq<Candidate>)

  function ReadingOf(rules: Rules, order: Iteration, classified: set<Observation>, sentence: string): Reading {
    var ids := Kinds(rules, classified);
    Reading(NumberKinds(ids), PhraseKinds(ids), Listing(order, sentence, Spellings(rules, classified, sentence)))
  }

  function Kinds(rules: Rules, classified: set<Observation>): set<Identity> {
    set o | o in classified :: rules.Identity(o)
  }

  /** Whether one sentence binds distinct values in conflict, given what was classified. */
  type Recognizer = (string, Reading) -> bool

  function Sentences(context: seq<string>, observations: set<Observation>): set<string> {
    (set s | s in context) + (set o, s | o in observations && s in o.sentences :: s)
  }

  predicate ExplicitConflict(rules: Rules, recognize: Recognizer, order: Iteration, sentences: set<string>,
      classified: set<Observation>)
  {
    && classified != {}
    && exists s | s in sentences && rules.binds(s) :: recognize(s, ReadingOf(rules, order, classified, s))
  }

  /** The status of a claim in a process whose sets are iterated in the given order. */
  function Status(rules: Rules, recognize: Recognizer, order: Iteration, c: Claim): ClaimStatus {
    if c.absenceRequested then
      if c.observations != [] || c.contextPresent || !c.absenceProven then Unverified else NotFoundInCorpus
    else if !Comparing(c) then Unverified
    else
      var classified := Deduplicate(rules, Authorized(c.observations));
      Verdict(Identities(rules, classified),
        ExplicitConflict(rules, recognize, order, Sentences(c.context, Elements(c.observations)),
                         Elements(classified)))
  }

  // ----- the loops of the conflict rule -----

  method AddKind<K(==)>(kinds: map<K, set<string>>, key: K, kind: string) returns (more: map<K, set<string>>)
    ensures more.Keys == kinds.Keys + {key}
    ensures forall k | k in more :: more[k] == if k == key then Get(kinds, k) + {kind} else Get(kinds, k)
  {
    more := kinds[key := Get(kinds, key) + {kind}];
  }

  method AddKinds(kinds: map<Signature, set<string>>, keys: seq<Signature>, kind: string)
    returns (more: map<Signature, set<string>>)
    ensures more.Keys == kinds.Keys + set k | k in keys
    ensures forall k | k in more :: more[k] == if k in keys then Get(kinds, k) + {kind} else Get(kinds, k)
  {
    more := kinds;
    for i := 0 to |keys|
      invariant more.Keys == kinds.Keys + set k | k in keys[..i]
      invariant forall k | k in more :: more[k] == if k in keys[..i] then Get(kinds, k) + {kind} else Get(kinds, k)
    {
      assert keys[..i + 1] == keys[..i] + [keys[i]];
      more := AddKind(more, keys[i], kind);
    }
    assert keys[..|keys|] == keys;
  }

  lemma HoldersOutside(ids: set<Identity>)
    ensures forall g | g !in NumbersIn(ids) :: NumberHolders(ids, g) == {}
    ensures forall w | w !in WordsIn(ids) :: PhraseHolders(ids, w) == {}
  {
  }

  lemma NumbersMore(ids: set<Identity>, i: Identity)
    ensures NumbersIn(ids + {i})
         == if i.value.Numbers? then NumbersIn(ids) + set g | g in i.value.signatures else NumbersIn(ids)
    ensures forall g :: (NumberHolders(ids + {i}, g)
                         == if i.value.Numbers? && g in i.value.signatures then NumberHolders(ids, g) + {i.kind}
                            else NumberHolders(ids, g))
  {
  }

  lemma WordsMore(ids: set<Identity>, i: Identity)
    ensures WordsIn(ids + {i}) == if i.value.Phrase? then WordsIn(ids) + {i.value.words} else WordsIn(ids)
    ensures forall w :: (PhraseHolders(ids + {i}, w)
                         == if i.value == Phrase(w) then PhraseHolders(ids, w) + {i.kind} else PhraseHolders(ids, w))
  {
  }

  lemma NumberKindsMore(ids: set<Identity>, i: Identity, more: map<Signature, set<string>>)
    requires i.value.Numbers?
    requires more.Keys == NumbersIn(ids) + set g | g in i.value.signatures
    requires forall g | g in more ::
      more[g] == if g in i.value.signatures then Get(NumberKinds(ids), g) + {i.kind} else Get(NumberKinds(ids), g)
    ensures more == NumberKinds(ids + {i}) && PhraseKinds(ids + {i}) == PhraseKinds(ids)
  {
    HoldersOutside(ids);
    NumbersMore(ids, i);
    WordsMore(ids, i);
    hide NumbersIn, NumberHolders, WordsIn, PhraseHolders;
    assert more.Keys == NumberKinds(ids + {i}).Keys;
    assert PhraseKinds(ids + {i}).Keys == PhraseKinds(ids).Keys;
  }

  lemma PhraseKindsMore(ids: set<Identity>, i: Identity, more: map<seq<string>, set<string>>)
    requires i.value.Phrase?
    requires more.Keys == WordsIn(ids) + {i.value.words}
    requires forall w | w in more ::
      more[w] == if w == i.value.words then Get(PhraseKinds(ids), w) + {i.kind} else Get(PhraseKinds(ids), w)
    ensures more == PhraseKinds(ids + {i}) && NumberKinds(ids + {i}) == NumberKinds(ids)
  {
    HoldersOutside(ids);
    NumbersMore(ids, i);
    WordsMore(ids, i);
    hide NumbersIn, NumberHolders, WordsIn, PhraseHolders;
    assert more.Keys == PhraseKinds(ids + {i}).Keys;
    assert NumberKinds(ids + {i}).Keys == NumberKinds(ids).Keys;
  }

  lemma CandidatesMore(rules: Rules, classified: set<Observation>, o: Observation, sentence: string)
    ensures Spellings(rules, classified + {o}, sentence)
         == Spellings(rules, classified, sentence) + CandidatesOf(rules, o, sentence)
  {
    hide CandidatesOf;
  }

  lemma SentencesMore(context: seq<string>, observations: set<Observation>, o: Observation)
    ensures Sentences(context, observations + {o}) == Sentences(context, observations) + Elements(o.sentences)
  {
  }

  method GatherKinds(rules: Rules, classified: seq<Observation>)
    returns (numberKinds: map<Signature, set<string>>, phraseKinds: map<seq<string>, set<string>>)
    ensures numberKinds == NumberKinds(Identities(rules, classified))
    ensures phraseKinds == PhraseKinds(Identities(rules, classified))
  {
    numberKinds, phraseKinds := map[], map[];
    for i := 0 to |classified|
      invariant numberKinds == NumberKinds(Identities(rules, classified[..i]))
      invariant phraseKinds == PhraseKinds(Identities(rules, classified[..i]))
    {
      hide NumberKinds, PhraseKinds, Rules.Value;
      ghost var before := Identities(rules, classified[..i]);
      var id := rules.Identity(classified[i]);
      assert classified[..i + 1] == classified[..i] + [classified[i]];
      assert Identities(rules, classified[..i + 1]) == before + {id};
      if id.value.Numbers? {
        numberKinds := AddKinds(numberKinds, id.value.signatures, id.kind);
        NumberKindsMore(before, id, numberKinds);
      } else {
        phraseKinds := AddKind(phraseKinds, id.value.words, id.kind);
        PhraseKindsMore(before, id, phraseKinds);
      }
    }
    assert classified[..|classified|] == classified;
  }

  lemma NoCandidates(rules: Rules, sentence: string)
    ensures Spellings(rules, {}, sentence) == {}
  {
  }

  /** Collected in a set, then sorted by span. */
  method GatherCandidates(rules: Rules, order: Iteration, classified: seq<Observation>, sentence: string)
    returns (candidates: seq<Candidate>)
    ensures candidates == Listing(order, sentence, Spellings(rules, Elements(classified), sentence))
    ensures Iterates(order) ==>
      Sorted(candidates) && Lists(candidates, Spellings(rules, Elements(classified), sentence))
  {
    hide Rules.Value, Spellings, Listing, Iterates, Sorted, Lists;
    NoCandidates(rules, sentence);
    assert Elements(classified[..0]) == {};
    var found: set<Candidate> := {};
    for i := 0 to |classified|
      invariant found == Spellings(rules, Elements(classified[..i]), sentence)
    {
      assert Elements(classified[..i + 1]) == Elements(classified[..i]) + {classified[i]} by {
        assert classified[..i + 1] == classified[..i] + [classified[i]];
      }
      CandidatesMore(rules, Elements(classified[..i]), classified[i], sentence);
      var value := rules.Value(classified[i]);
      if value.Phrase? {
        var spans := ExactScan.WordPhraseSpans(classified[i].text, sentence, false);
        found := found + set span | span in spans :: (value.words, span);
      }
    }
    assert classified[..|classified|] == classified;
    candidates := Listing(order, sentence, found);
    if Iterates(order) {
      ListingLists(order, sentence, found);
    }
  }

  method HasExplicitConflict(rules: Rules, recognize: Recognizer, order: Iteration, sentences: seq<string>,
      classified: seq<Observation>)
    returns (found: bool)
    ensures found == ExplicitConflict(rules, recognize, order, Elements(sentences), Elements(classified))
  {
    hide NumberKinds, PhraseKinds, Spellings, Rules.Identity;
    if classified == [] {
      return false;
    }
    assert classified[0] in Elements(classified);
    var numberKinds, phraseKinds := GatherKinds(rules, classified);
    assert Identities(rules, classified) == Kinds(rules, Elements(classified));
    for i := 0 to |sentences|
      invariant forall k | 0 <= k < i && rules.binds(sentences[k]) ::
        !recognize(sentences[k], ReadingOf(rules, order, Elements(classified), sentences[k]))
    {
      if rules.binds(sentences[i]) {
        var candidates := GatherCandidates(rules, order, classified, sentences[i]);
        if recognize(sentences[i], Reading(numberKinds, phraseKinds, candidates)) {
          assert sentences[i] in sentences;
          return true;
        }
      }
    }
    return false;
  }

  /** The quoted sentences of the context and of every observation. */
  method GatherSentences(c: Claim) returns (sentences: seq<string>)
    ensures Elements(sentences) == Sentences(c.context, Elements(c.observations))
  {
    sentences := c.context;
    for i := 0 to |c.observations|
      invariant Elements(sentences) == Sentences(c.context, Elements(c.observations[..i]))
    {
      assert Elements(c.observations[..i + 1]) == Elements(c.observations[..i]) + {c.observations[i]} by {
        assert c.observations[..i + 1] == c.observations[..i] + [c.observations[i]];
      }
      SentencesMore(c.context, Elements(c.observations[..i]), c.observations[i]);
      sentences := sentences + c.observations[i].sentences;
    }
    assert c.observations[..|c.observations|] == c.observations;
  }

  // ----- the loops of the verifier compute that classification -----

  ghost predicate Groups(ids: set<Identity>, periods: map<Value, set<Option<Period>>>) {
    && periods.Keys == Values(ids)
    && forall v | v in periods :: periods[v] == PeriodsOf(ids, v)
  }

  lemma GroupsMore(ids: set<Identity>, periods: map<Value, set<Option<Period>>>, i: Identity)
    requires Groups(ids, periods)
    ensures Groups(ids + {i}, periods[i.value := (if i.value in periods then periods[i.value] else {}) + {i.period}])
  {
    forall v | v in Values(ids) && v != i.value ensures PeriodsOf(ids + {i}, v) == PeriodsOf(ids, v) {
    }
    assert PeriodsOf(ids, i.value) + {i.period} == PeriodsOf(ids + {i}, i.value);
    assert i.value !in Values(ids) ==> PeriodsOf(ids, i.value) == {};
    assert Values(ids + {i}) == Values(ids) + {i.value};
  }

  method GroupPeriods(rules: Rules, classified: seq<Observation>) returns (periods: map<Value, set<Option<Period>>>)
    ensures Groups(Identities(rules, classified), periods)
  {
    periods := map[];
    for i := 0 to |classified|
      invariant Groups(Identities(rules, classified[..i]), periods)
    {
      var id := rules.Identity(classified[i]);
      GroupsMore(Identities(rules, classified[..i]), periods, id);
      assert classified[..i + 1] == classified[..i] + [classified[i]];
      assert Identities(rules, classified[..i + 1]) == Identities(rules, classified[..i]) + {id};
      periods := periods[id.value := (if id.value in periods then periods[id.value] else {}) + {id.period}];
    }
    assert classified[..|classified|] == classified;
  }

  method FilterAuthorized(observations: seq<Observation>) returns (authorized: seq<Observation>)
    ensures authorized == Authorized(observations)
    ensures |authorized| == |observations| <==> forall o | o in observations :: o.authorized
    ensures |authorized| <= |observations|
  {
    authorized := [];
    for i := 0 to |observations|
      invariant authorized == Authorized(observations[..i])
      invariant |authorized| <= i
      invariant |authorized| == i <==> forall o | o in observations[..i] :: o.authorized
    {
      assert observations[..i + 1][..i] == observations[..i];
      assert observations[..i + 1] == observations[..i] + [observations[i]];
      if observations[i].authorized {
        authorized := authorized + [observations[i]];
      }
    }
    assert observations[..|observations|] == observations;
  }

  lemma TemporalOfGroups(ids: set<Identity>, periods: map<Value, set<Option<Period>>>)
    requires Groups(ids, periods)
    ensures (periods != map[] && forall v | v in periods :: None !in periods[v] && |periods[v]| == 1)
        <==> TemporalComplete(ids)
    ensures (set v, p: Option<Period> | v in periods && p in periods[v] && |periods[v]| == 1 && p.Some? :: p.value)
         == DistinctTemporal(ids)
  {
    if ids != {} {
      var i :| i in ids;
      assert i.value in periods;
    } else {
      assert periods == map[];
    }
    var temporal := set v, p: Option<Period> | v in periods && p in periods[v] && |periods[v]| == 1 && p.Some? ::
      p.value;
    forall p | p in temporal ensures p in DistinctTemporal(ids) {
      var v :| v in periods && Some(p) in periods[v] && |periods[v]| == 1;
      var i :| i in ids && i.value == v && i.period == Some(p);
    }
    forall p | p in DistinctTemporal(ids) ensures p in temporal {
      var i :| i in ids && |PeriodsOf(ids, i.value)| == 1 && i.period == Some(p);
      assert i.value in periods && Some(p) in periods[i.value];
    }
  }

  method VerifyClaim(rules: Rules, recognize: Recognizer, order: Iteration, c: Claim) returns (status: ClaimStatus)
    ensures status == Status(rules, recognize, order, c)
  {
    hide ExplicitConflict, Sentences, Rules.Identity, Groups, TemporalComplete, DistinctTemporal, Deduplicate;
    hide Authorized, Identities;
    var authorized := FilterAuthorized(c.observations);
    var classified := DeduplicateObservations(rules, authorized);
    var allAuthorized := c.observations != [] && |authorized| == |c.observations|;
    var values := Values(Identities(rules, classified));
    var periods := GroupPeriods(rules, classified);
    TemporalOfGroups(Identities(rules, classified), periods);
    var complete := periods != map[] && forall v | v in periods :: None !in periods[v] && |periods[v]| == 1;
    var temporal := set v, p: Option<Period> | v in periods && p in periods[v] && |periods[v]| == 1 && p.Some? ::
      p.value;
    var disjoint := complete && AllDistinct(temporal);
    var sentences := GatherSentences(c);
    var explicit := HasExplicitConflict(rules, recognize, order, sentences, classified);
    var referencesValid := c.contextValid && forall o | o in c.observations :: o.referencesValid;
    if c.absenceRequested {
      if c.observations != [] || c.contextPresent {
        return Unverified;
      }
      return if c.absenceProven then NotFoundInCorpus else Unverified;
    }
    if c.observations == [] || !referencesValid || !allAuthorized {
      return Unverified;
    }
    assert Comparing(c);
    if explicit && |values| < 2 {
      return PossibleConflict;
    }
    if |values| >= 2 {
      if explicit {
        return Conflict;
      } else if disjoint && |temporal| == |values| {
        return DateVariant;
      } else if complete && |temporal| == 1 {
        return Conflict;
      }
      return PossibleConflict;
    }
    return if |values| == 1 then Verified else Unverified;
  }

  // ----- what deduplication keeps -----

  lemma {:induction false} DeduplicateKeeps(rules: Rules, s: seq<Observation>)
    ensures Identities(rules, Deduplicate(rules, s)) == Identities(rules, s)
    ensures forall o | o in Deduplicate(rules, s) :: o in s
    ensures forall o, p | o in Deduplicate(rules, s) && p in Deduplicate(rules, s) ::
      rules.Identity(o) == rules.Identity(p) ==> o == p
    ensures s != [] ==> s[0] in Deduplicate(rules, s)
  {
    hide Rules.Identity;
    if s != [] {
      var front, last := s[..|s| - 1], s[|s| - 1];
      DeduplicateKeeps(rules, front);
      assert s == front + [last];
      var kept := Deduplicate(rules, front);
      assert Identities(rules, s) == Identities(rules, front) + {rules.Identity(last)};
      if exists o | o in kept :: rules.Identity(o) == rules.Identity(last) {
        assert rules.Identity(last) in Identities(rules, kept);
      } else {
        assert Identities(rules, kept + [last]) == Identities(rules, kept) + {rules.Identity(last)};
      }
    }
  }

  lemma {:induction false} AllAuthorized(s: seq<Observation>)
    requires forall o | o in s :: o.authorized
    ensures Authorized(s) == s
  {
    if s != [] {
      assert s == s[..|s| - 1] + [s[|s| - 1]];
      AllAuthorized(s[..|s| - 1]);
    }
  }

  lemma StatusComparing(rules: Rules, recognize: Recognizer, order: Iteration, c: Claim)
    requires Comparing(c)
    ensures Status(rules, recognize, order, c) ==
      Verdict(Identities(rules, c.observations),
              ExplicitConflict(rules, recognize, order, Sentences(c.context, Elements(c.observations)),
                               Elements(Deduplicate(rules, c.observations))))
  {
    hide ExplicitConflict, Sentences, Verdict;
    AllAuthorized(c.observations);
    DeduplicateKeeps(rules, c.observations);
  }

  // ----- date variants -----

  /** As many images as elements: the map is one to one. */
  lemma OneToOne(values: set<Value>, image: map<Value, Period>)
    requires image.Keys == values
    requires |values| == |set v | v in values :: image[v]|
    ensures forall v, w | v in values && w in values && image[v] == image[w] :: v == w
  {
    forall v, w | v in values && w in values && image[v] == image[w] ensures v == w {
      if v != w {
        var rest := values - {w};
        assert (set x | x in values :: image[x]) == (set x | x in rest :: image[x]);
        ImageSmaller(rest, image);
      }
    }
  }

  lemma {:induction false} ImageSmaller(values: set<Value>, image: map<Value, Period>)
    requires values <= image.Keys
    ensures |set v | v in values :: image[v]| <= |values|
    decreases |values|
  {
    if values != {} {
      var v :| v in values;
      var rest := values - {v};
      ImageSmaller(rest, image);
      assert (set x | x in values :: image[x]) == (set x | x in rest :: image[x]) + {image[v]};
    }
  }

  /** A complete relationship gives every value one period. */
  lemma OnlyPeriod(ids: set<Identity>, i: Identity, j: Identity)
    requires TemporalComplete(ids) && i in ids && j in ids && i.value == j.value
    ensures i.period == j.period && i.period.Some?
  {
    var periods := PeriodsOf(ids, i.value);
    assert i.value in Values(ids);
    assert i.period in periods && j.period in periods;
    var others := periods - {i.period};
    assert |others| == 0;
    assert others == {} && j.period !in others;
  }

  lemma {:induction false} PeriodByValue(ids: set<Identity>, values: set<Value>) returns (image: map<Value, Period>)
    requires TemporalComplete(ids) && values <= Values(ids)
    ensures image.Keys == values
    ensures forall i | i in ids && i.value in values :: i.period == Some(image[i.value])
    decreases |values|
  {
    if values == {} {
      image := map[];
    } else {
      var v :| v in values;
      var i :| i in ids && i.value == v;
      OnlyPeriod(ids, i, i);
      var rest := PeriodByValue(ids, values - {v});
      image := rest[v := i.period.value];
      forall j | j in ids && j.value in values ensures j.period == Some(image[j.value]) {
        if j.value == v { OnlyPeriod(ids, i, j); }
      }
    }
  }

  lemma DistinctValuesDistinctPeriods(ids: set<Identity>, i: Identity, j: Identity)
    requires TemporalComplete(ids) && AllDistinct(DistinctTemporal(ids))
    requires |DistinctTemporal(ids)| == |Values(ids)|
    requires i in ids && j in ids && i.value != j.value && i.period.Some? && j.period.Some?
    ensures ProvablyDistinct(i.period.value, j.period.value)
  {
    var values := Values(ids);
    var image := PeriodByValue(ids, values);
    var images := set v | v in values :: image[v];
    forall x | x in ids
      ensures x.value in values && |PeriodsOf(ids, x.value)| == 1 && x.period == Some(image[x.value])
    {
      assert x.value in values;
    }
    forall t | t in images ensures t in DistinctTemporal(ids) {
      var v :| v in values && image[v] == t;
      var x :| x in ids && x.value == v;
    }
    forall t | t in DistinctTemporal(ids) ensures t in images {
      var x :| x in ids && x.period == Some(t);
      assert image[x.value] == t;
    }
    assert images == DistinctTemporal(ids);
    OneToOne(values, image);
    assert i.period.value in DistinctTemporal(ids) && j.period.value in DistinctTemporal(ids);
  }

  /**
   A date variant means every value has one known period, different values have different
   periods, and those periods share no moment however their missing years are read.
   */
  lemma DateVariantMeansDisjoint(rules: Rules, recognize: Recognizer, order: Iteration, c: Claim,
      o: Observation, p: Observation)
    requires Status(rules, recognize, order, c) == DateVariant
    requires o in c.observations && p in c.observations
    ensures rules.Period(o).Some? && rules.Period(p).Some?
    ensures rules.Value(o) == rules.Value(p) <==> rules.Period(o) == rules.Period(p)
    ensures rules.Value(o) != rules.Value(p) ==> DisjointForever(rules.Period(o).value, rules.Period(p).value)
  {
    hide Deduplicate, Authorized, TemporalComplete, DistinctTemporal, AllDistinct, DisjointForever;
    hide ProvablyDistinct, Elements;
    hide ExplicitConflict, Sentences;
    StatusComparing(rules, recognize, order, c);
    var ids := Identities(rules, c.observations);
    var i, j := rules.Identity(o), rules.Identity(p);
    assert i in ids && j in ids;
    OnlyPeriod(ids, i, i);
    OnlyPeriod(ids, j, j);
    if i.value == j.value {
      OnlyPeriod(ids, i, j);
    } else {
      DistinctValuesDistinctPeriods(ids, i, j);
      DistinctIffDisjointForever(i.period.value, j.period.value);
      DistinctIsSymmetric(i.period.value, j.period.value);
    }
  }

  /** Checking every pair of any listing of the periods is checking the set. */
  lemma PairwiseIsSetwise(periods: seq<Period>)
    requires forall i, j | 0 <= i < j < |periods| :: periods[i] != periods[j]
    ensures PairwiseDistinct(periods) <==> AllDistinct(set p | p in periods)
  {
    if PairwiseDistinct(periods) {
      forall p, q | p in periods && q in periods && p != q ensures ProvablyDistinct(p, q) {
        var i, j :| 0 <= i < |periods| && 0 <= j < |periods| && periods[i] == p && periods[j] == q;
        DistinctIsSymmetric(p, q);
      }
    }
  }
}
