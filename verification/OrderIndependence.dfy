/**
 Whether the order or the repetition of a claim's observations, or the order in which sets are
 iterated, can change its status. Deduplication may decide which spelling of a qualitative value the
 conflict rule looks for, and the order of a set which of two values at one span it meets first.
 */
module OrderIndependence {
  import opened Models
  import opened Listings
  import opened Periods
  import opened CandidateOrder
  import opened ClaimClassification

  /**
   Neither reordering nor repeating observations nor the order of sets ever changes the status,
   whatever the conflict rule.
   */
  ghost predicate OrderInsensitive(rules: Rules, c: Claim) {
    forall recognize: Recognizer, a: Iteration, b: Iteration, other: seq<Observation>
      | Iterates(a) && Iterates(b) && Elements(other) == Elements(c.observations) ::
      Status(rules, recognize, a, c.(observations := other)) == Status(rules, recognize, b, c)
  }

  /** Several values, all tied to one and the same period: a conflict whatever the evidence says. */
  predicate CommonPeriod(ids: set<Identity>) {
    |Values(ids)| >= 2 && TemporalComplete(ids) && |DistinctTemporal(ids)| == 1
  }

  /** Every observation of one identity spells this candidate in this sentence. */
  predicate AllSpell(rules: Rules, observations: seq<Observation>, p: Observation, sentence: string, x: Candidate) {
    forall q | q in observations && rules.Identity(q) == rules.Identity(p) :: x in CandidatesOf(rules, q, sentence)
  }

  predicate Pinned(rules: Rules, observations: seq<Observation>, sentence: string, x: Candidate) {
    exists p | p in observations :: AllSpell(rules, observations, p, sentence, x)
  }

  /** Each qualitative candidate of each sentence that binds is one that some identity spells in any case. */
  predicate AllPinned(rules: Rules, c: Claim) {
    forall s, x | s in Sentences(c.context, Elements(c.observations)) && rules.binds(s)
        && x in Spellings(rules, Elements(c.observations), s) ::
      Pinned(rules, c.observations, s, x)
  }

  /** No sentence that binds spells two different values at one span. */
  predicate AllUntied(rules: Rules, c: Claim) {
    forall s | s in Sentences(c.context, Elements(c.observations)) && rules.binds(s) ::
      NoTies(Spellings(rules, Elements(c.observations), s))
  }

  lemma SameObservations(rules: Rules, a: seq<Observation>, b: seq<Observation>)
    requires Elements(a) == Elements(b)
    ensures forall o :: o in a <==> o in b
    ensures a == [] <==> b == []
    ensures Identities(rules, a) == Identities(rules, b)
  {
    forall o ensures o in a <==> o in b {
      assert o in a <==> o in Elements(a);
      assert o in b <==> o in Elements(b);
    }
    if a != [] { assert a[0] in b; }
    if b != [] { assert b[0] in a; }
  }

  lemma CandidateElement(rules: Rules, observations: seq<Observation>, s: string, x: Candidate) returns (o: Observation)
    requires x in Spellings(rules, Elements(observations), s)
    ensures o in observations && x in CandidatesOf(rules, o, s)
  {
    o :| o in Elements(observations) && x in CandidatesOf(rules, o, s);
  }

  // ----- sufficient -----

  /** Deduplication keeps every pinned candidate. */
  lemma PinnedIsKept(rules: Rules, all: seq<Observation>, other: seq<Observation>, s: string, x: Candidate)
    requires Elements(other) == Elements(all) && Pinned(rules, all, s, x)
    ensures x in Spellings(rules, Elements(Deduplicate(rules, other)), s)
  {
    hide Deduplicate, Rules.Identity, CandidatesOf;
    SameObservations(rules, other, all);
    var p :| p in all && AllSpell(rules, all, p, s, x);
    DeduplicateKeeps(rules, other);
    assert p in other && rules.Identity(p) in Identities(rules, Deduplicate(rules, other));
    var q :| q in Deduplicate(rules, other) && rules.Identity(q) == rules.Identity(p);
    assert q in Elements(Deduplicate(rules, other));
  }

  lemma PinnedKeepsAll(rules: Rules, c: Claim, other: seq<Observation>, s: string)
    requires AllPinned(rules, c) && Elements(other) == Elements(c.observations)
    requires s in Sentences(c.context, Elements(c.observations)) && rules.binds(s)
    ensures Spellings(rules, Elements(Deduplicate(rules, other)), s) == Spellings(rules, Elements(c.observations), s)
  {
    hide Deduplicate, Rules.Identity, CandidatesOf, Pinned, Sentences;
    var kept := Elements(Deduplicate(rules, other));
    SameObservations(rules, other, c.observations);
    DeduplicateKeeps(rules, other);
    assert kept <= Elements(c.observations);
    forall x | x in Spellings(rules, Elements(c.observations), s) ensures x in Spellings(rules, kept, s) {
      PinnedIsKept(rules, c.observations, other, s, x);
    }
  }

  lemma KeptKinds(rules: Rules, other: seq<Observation>)
    ensures Kinds(rules, Elements(Deduplicate(rules, other))) == Identities(rules, other)
    ensures Elements(Deduplicate(rules, other)) == {} <==> other == []
  {
    hide Rules.Identity;
    DeduplicateKeeps(rules, other);
    if other != [] {
      hide Deduplicate;
      assert other[0] in Elements(Deduplicate(rules, other));
    }
    assert Kinds(rules, Elements(Deduplicate(rules, other))) == Identities(rules, Deduplicate(rules, other));
  }

  lemma SameReading(rules: Rules, a: Iteration, b: Iteration, c: Claim, other: seq<Observation>, s: string)
    requires AllPinned(rules, c) && AllUntied(rules, c) && Elements(other) == Elements(c.observations)
    requires Iterates(a) && Iterates(b)
    requires s in Sentences(c.context, Elements(c.observations)) && rules.binds(s)
    ensures ReadingOf(rules, a, Elements(Deduplicate(rules, other)), s)
         == ReadingOf(rules, b, Elements(Deduplicate(rules, c.observations)), s)
  {
    hide Deduplicate, AllPinned, Sentences, Spellings, Rules.Identity, Iterates, Listing, NoTies;
    SameObservations(rules, other, c.observations);
    KeptKinds(rules, other);
    KeptKinds(rules, c.observations);
    PinnedKeepsAll(rules, c, other, s);
    PinnedKeepsAll(rules, c, c.observations, s);
    NoTiesOneListing(a, b, s, Spellings(rules, Elements(c.observations), s));
  }

  lemma SameConflict(rules: Rules, recognize: Recognizer, a: Iteration, b: Iteration, c: Claim,
      other: seq<Observation>)
    requires AllPinned(rules, c) && AllUntied(rules, c) && Elements(other) == Elements(c.observations)
    requires Iterates(a) && Iterates(b)
    ensures var sentences := Sentences(c.context, Elements(c.observations));
      ExplicitConflict(rules, recognize, a, sentences, Elements(Deduplicate(rules, other)))
        == ExplicitConflict(rules, recognize, b, sentences, Elements(Deduplicate(rules, c.observations)))
  {
    hide Deduplicate, AllPinned, AllUntied, Sentences, ReadingOf, Rules.Identity, Iterates;
    SameObservations(rules, other, c.observations);
    KeptKinds(rules, other);
    KeptKinds(rules, c.observations);
    var sentences := Sentences(c.context, Elements(c.observations));
    forall s | s in sentences && rules.binds(s)
      ensures ReadingOf(rules, a, Elements(Deduplicate(rules, other)), s)
           == ReadingOf(rules, b, Elements(Deduplicate(rules, c.observations)), s)
    {
      SameReading(rules, a, b, c, other, s);
    }
  }

  lemma InsensitiveIf(rules: Rules, recognize: Recognizer, a: Iteration, b: Iteration, c: Claim,
      other: seq<Observation>)
    requires Iterates(a) && Iterates(b) && Elements(other) == Elements(c.observations)
    requires !Comparing(c) || CommonPeriod(Identities(rules, c.observations))
        || (AllPinned(rules, c) && AllUntied(rules, c))
    ensures Status(rules, recognize, a, c.(observations := other)) == Status(rules, recognize, b, c)
  {
    hide Deduplicate, Authorized, Identities, Elements, Rules.Identity, TemporalComplete, DistinctTemporal;
    hide ExplicitConflict, Sentences, AllPinned, AllUntied, Iterates;
    var d := c.(observations := other);
    SameObservations(rules, other, c.observations);
    if Comparing(c) {
      StatusComparing(rules, recognize, b, c);
      StatusComparing(rules, recognize, a, d);
      if AllPinned(rules, c) && AllUntied(rules, c) {
        SameConflict(rules, recognize, a, b, c, other);
      }
    }
  }

  // ----- necessary -----

  function Lacking(rules: Rules, observations: seq<Observation>, s: string, x: Candidate): seq<Observation> {
    if observations == [] then []
    else
      var last := observations[|observations| - 1];
      var before := Lacking(rules, observations[..|observations| - 1], s, x);
      if x in CandidatesOf(rules, last, s) then before else before + [last]
  }

  lemma {:induction false} LackingExactly(rules: Rules, observations: seq<Observation>, s: string, x: Candidate)
    ensures forall o ::
      o in Lacking(rules, observations, s, x) <==> o in observations && x !in CandidatesOf(rules, o, s)
  {
    hide CandidatesOf;
    if observations != [] {
      LackingExactly(rules, observations[..|observations| - 1], s, x);
      assert observations == observations[..|observations| - 1] + [observations[|observations| - 1]];
    }
  }

  /** Later observations of identities already seen are all dropped. */
  lemma {:induction false} Absorbed(rules: Rules, a: seq<Observation>, b: seq<Observation>)
    requires forall o | o in b :: rules.Identity(o) in Identities(rules, a)
    ensures Deduplicate(rules, a + b) == Deduplicate(rules, a)
    decreases |b|
  {
    hide Rules.Identity;
    if b == [] {
      assert a + b == a;
    } else {
      var front, last := b[..|b| - 1], b[|b| - 1];
      assert (a + b)[..|a + b| - 1] == a + front;
      Absorbed(rules, a, front);
      DeduplicateKeeps(rules, a);
      assert rules.Identity(last) in Identities(rules, Deduplicate(rules, a));
    }
  }

  lemma LackingHasIdentities(rules: Rules, all: seq<Observation>, s: string, x: Candidate)
    requires !Pinned(rules, all, s, x)
    ensures forall o | o in all :: rules.Identity(o) in Identities(rules, Lacking(rules, all, s, x))
  {
    hide Rules.Identity, CandidatesOf, Lacking;
    LackingExactly(rules, all, s, x);
    forall o | o in all ensures rules.Identity(o) in Identities(rules, Lacking(rules, all, s, x)) {
      assert !AllSpell(rules, all, o, s, x);
      var q :| q in all && rules.Identity(q) == rules.Identity(o) && x !in CandidatesOf(rules, q, s);
      assert q in Lacking(rules, all, s, x);
    }
  }

  lemma LackingElements(rules: Rules, all: seq<Observation>, s: string, x: Candidate)
    ensures Elements(Lacking(rules, all, s, x) + all) == Elements(all)
  {
    hide CandidatesOf, Lacking;
    LackingExactly(rules, all, s, x);
  }

  lemma LackingFirst(rules: Rules, all: seq<Observation>, s: string, x: Candidate)
    requires !Pinned(rules, all, s, x)
    ensures var first := Lacking(rules, all, s, x) + all;
      Elements(first) == Elements(all) && x !in Spellings(rules, Elements(Deduplicate(rules, first)), s)
  {
    hide Rules.Identity, CandidatesOf, Deduplicate;
    var lacking := Lacking(rules, all, s, x);
    LackingExactly(rules, all, s, x);
    LackingElements(rules, all, s, x);
    LackingHasIdentities(rules, all, s, x);
    Absorbed(rules, lacking, all);
    DeduplicateKeeps(rules, lacking);
    hide Identities, Pinned, Lacking;
    if x in Spellings(rules, Elements(Deduplicate(rules, lacking)), s) {
      var o := CandidateElement(rules, Deduplicate(rules, lacking), s, x);
      assert false;
    }
  }

  lemma SpellingFirst(rules: Rules, all: seq<Observation>, o: Observation, s: string, x: Candidate)
    requires o in all && x in CandidatesOf(rules, o, s)
    ensures Elements([o] + all) == Elements(all)
    ensures x in Spellings(rules, Elements(Deduplicate(rules, [o] + all)), s)
  {
    hide Rules.Identity, CandidatesOf, Deduplicate;
    DeduplicateKeeps(rules, [o] + all);
    assert ([o] + all)[0] == o && o in Elements(Deduplicate(rules, [o] + all));
  }

  lemma VerdictsDiffer(ids: set<Identity>)
    requires ids != {} && !CommonPeriod(ids)
    ensures Verdict(ids, true) != Verdict(ids, false)
  {
    hide TemporalComplete, DistinctTemporal;
    var i :| i in ids;
    assert i.value in Values(ids);
  }

  /** A rule that asks for one candidate in one sentence. */
  function Looking(sentence: string, x: Candidate): Recognizer {
    (s: string, r: Reading) => s == sentence && x in r.candidates
  }

  lemma LookingSees(rules: Rules, order: Iteration, sentences: set<string>, classified: set<Observation>,
      s: string, x: Candidate)
    requires Iterates(order) && s in sentences && rules.binds(s) && classified != {}
    ensures ExplicitConflict(rules, Looking(s, x), order, sentences, classified)
      <==> x in Spellings(rules, classified, s)
  {
    hide Spellings, NumberKinds, PhraseKinds, Kinds, Iterates, Listing;
    var spellings := Spellings(rules, classified, s);
    ListingLists(order, s, spellings);
    assert x in Listing(order, s, spellings) <==> x in multiset(spellings);
  }

  /** A rule that asks which value it meets first at one span of one sentence, as the bridge relation does. */
  function MeetingFirst(sentence: string, x: Candidate): Recognizer {
    (s: string, r: Reading) => s == sentence && At(r.candidates, x.1) != [] && At(r.candidates, x.1)[0] == x
  }

  lemma MeetingFirstSees(rules: Rules, order: Iteration, sentences: set<string>, classified: set<Observation>,
      s: string, x: Candidate, first: Candidate)
    requires s in sentences && rules.binds(s) && classified != {} && first.1 == x.1
    requires var there := At(Listing(order, s, Spellings(rules, classified, s)), x.1);
      there != [] && there[0] == first
    ensures ExplicitConflict(rules, MeetingFirst(s, x), order, sentences, classified) <==> x == first
  {
    hide Spellings, NumberKinds, PhraseKinds, Kinds, Listing, At;
  }

  lemma UnpinnedIsSensitive(rules: Rules, c: Claim, s: string, x: Candidate)
    requires Comparing(c) && !CommonPeriod(Identities(rules, c.observations))
    requires s in Sentences(c.context, Elements(c.observations)) && rules.binds(s)
    requires x in Spellings(rules, Elements(c.observations), s) && !Pinned(rules, c.observations, s, x)
    ensures !OrderInsensitive(rules, c)
  {
    hide Deduplicate, Authorized, Verdict, CommonPeriod, Status, Rules.Identity, Spellings, Sentences, Pinned;
    hide ExplicitConflict, CandidatesOf, Iterates;
    var o := CandidateElement(rules, c.observations, s, x);
    var order := AnyFirst(s, {x}, x);
    SpellingFirst(rules, c.observations, o, s, x);
    LackingFirst(rules, c.observations, s, x);
    var first, second := [o] + c.observations, Lacking(rules, c.observations, s, x) + c.observations;
    SameObservations(rules, first, c.observations);
    SameObservations(rules, second, c.observations);
    var c1, c2 := c.(observations := first), c.(observations := second);
    var recognize := Looking(s, x);
    StatusComparing(rules, recognize, order, c1);
    StatusComparing(rules, recognize, order, c2);
    KeptKinds(rules, first);
    KeptKinds(rules, second);
    var sentences := Sentences(c.context, Elements(c.observations));
    LookingSees(rules, order, sentences, Elements(Deduplicate(rules, first)), s, x);
    LookingSees(rules, order, sentences, Elements(Deduplicate(rules, second)), s, x);
    assert rules.Identity(o) in Identities(rules, c.observations);
    VerdictsDiffer(Identities(rules, c.observations));
    assert Status(rules, recognize, order, c1) != Status(rules, recognize, order, c2);
  }

  lemma TiedIsSensitive(rules: Rules, c: Claim, s: string, x: Candidate, y: Candidate)
    requires Comparing(c) && !CommonPeriod(Identities(rules, c.observations))
    requires s in Sentences(c.context, Elements(c.observations)) && rules.binds(s)
    requires Pinned(rules, c.observations, s, x) && Pinned(rules, c.observations, s, y)
    requires x != y && x.1 == y.1
    ensures !OrderInsensitive(rules, c)
  {
    hide Deduplicate, Authorized, Verdict, CommonPeriod, Status, Rules.Identity, Spellings, Sentences, Pinned;
    hide ExplicitConflict, CandidatesOf, Iterates, At, Listing;
    PinnedIsKept(rules, c.observations, c.observations, s, x);
    PinnedIsKept(rules, c.observations, c.observations, s, y);
    var kept := Elements(Deduplicate(rules, c.observations));
    var a := AnyFirst(s, Spellings(rules, kept, s), x);
    var b := AnyFirst(s, Spellings(rules, kept, s), y);
    var recognize := MeetingFirst(s, x);
    StatusComparing(rules, recognize, a, c);
    StatusComparing(rules, recognize, b, c);
    KeptKinds(rules, c.observations);
    var sentences := Sentences(c.context, Elements(c.observations));
    MeetingFirstSees(rules, a, sentences, kept, s, x, x);
    MeetingFirstSees(rules, b, sentences, kept, s, x, y);
    assert rules.Identity(c.observations[0]) in Identities(rules, c.observations);
    VerdictsDiffer(Identities(rules, c.observations));
    assert c.(observations := c.observations) == c;
    assert Status(rules, recognize, a, c) != Status(rules, recognize, b, c);
  }

  /**
   Status is independent of the order and repetition of observations and of the order of sets exactly
   when the claim never gets to compare its values, or every value belongs to one common period, or
   over the quoted sentences that bind, each candidate is spelled by all observations of some
   identity and no two values are spelled at one span.
   */
  lemma OrderInsensitiveExactly(rules: Rules, c: Claim)
    ensures OrderInsensitive(rules, c) <==>
      !Comparing(c) || CommonPeriod(Identities(rules, c.observations)) || (AllPinned(rules, c) && AllUntied(rules, c))
  {
    hide Status, CommonPeriod, Comparing, Identities, Pinned, Spellings, Sentences, Iterates;
    if !Comparing(c) || CommonPeriod(Identities(rules, c.observations))
      || (AllPinned(rules, c) && AllUntied(rules, c))
    {
      forall recognize: Recognizer, a: Iteration, b: Iteration, other: seq<Observation>
        | Iterates(a) && Iterates(b) && Elements(other) == Elements(c.observations)
        ensures Status(rules, recognize, a, c.(observations := other)) == Status(rules, recognize, b, c)
      {
        InsensitiveIf(rules, recognize, a, b, c, other);
      }
    } else if !AllPinned(rules, c) {
      var s, x :| s in Sentences(c.context, Elements(c.observations)) && rules.binds(s)
        && x in Spellings(rules, Elements(c.observations), s) && !Pinned(rules, c.observations, s, x);
      UnpinnedIsSensitive(rules, c, s, x);
    } else {
      var s :| s in Sentences(c.context, Elements(c.observations)) && rules.binds(s)
        && !NoTies(Spellings(rules, Elements(c.observations), s));
      var x, y :| x in Spellings(rules, Elements(c.observations), s)
        && y in Spellings(rules, Elements(c.observations), s) && x.1 == y.1 && x != y;
      TiedIsSensitive(rules, c, s, x, y);
    }
  }

  // ----- what that means for the values -----

  lemma NumbersSpellNothing(rules: Rules, observations: seq<Observation>, s: string)
    requires forall o | o in observations :: rules.Value(o).Numbers?
    ensures Spellings(rules, Elements(observations), s) == {}
  {
    hide Rules.Value;
    assert forall o | o in Elements(observations) :: CandidatesOf(rules, o, s) == {};
  }

  /** Claims about numbers never depend on any order, however the numbers and their periods are spelled. */
  lemma NumbersAreOrderFree(rules: Rules, c: Claim)
    requires forall o | o in c.observations :: rules.Value(o).Numbers?
    ensures OrderInsensitive(rules, c)
  {
    hide Rules.Value, OrderInsensitive, Comparing, CommonPeriod;
    forall s ensures Spellings(rules, Elements(c.observations), s) == {} {
      NumbersSpellNothing(rules, c.observations, s);
    }
    OrderInsensitiveExactly(rules, c);
  }
}
