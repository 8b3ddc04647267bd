/** Each claim status, exactly, from the claim: its observations, their periods, and what is quoted. */
module StatusMeaning {
  import opened Models
  import opened Listings
  import opened Periods
  import opened CandidateOrder
  import opened ClaimClassification

  /** The claim proposes observations, and all that it rests on was checked. */
  predicate Supported(c: Claim) {
    && !c.absenceRequested
    && |c.observations| > 0
    && c.contextValid
    && forall i | 0 <= i < |c.observations| :: c.observations[i].referencesValid && c.observations[i].authorized
  }

  predicate Quoted(c: Claim, sentence: string) {
    sentence in c.context || exists o | o in c.observations :: sentence in o.sentences
  }

  /** Some quoted sentence binds the values of the first observations of each identity in conflict. */
  predicate QuotesConflict(rules: Rules, recognize: Recognizer, order: Iteration, c: Claim) {
    var kept := Elements(Deduplicate(rules, c.observations));
    exists s | s in Sentences(c.context, Elements(c.observations)) ::
      Quoted(c, s) && rules.binds(s) && recognize(s, ReadingOf(rules, order, kept, s))
  }

  predicate OneValue(rules: Rules, c: Claim) {
    forall o, p | o in c.observations && p in c.observations :: rules.Value(o) == rules.Value(p)
  }

  /** All observations stand under one and the same known period. */
  predicate OnePeriod(rules: Rules, c: Claim) {
    forall o, p | o in c.observations && p in c.observations ::
      rules.Period(o).Some? && rules.Period(o) == rules.Period(p)
  }

  /** Every observation has a known period, equal for equal values and provably another for other values. */
  predicate PeriodsTellValuesApart(rules: Rules, c: Claim) {
    forall o, p | o in c.observations && p in c.observations ::
      && rules.Period(o).Some? && rules.Period(p).Some?
      && if rules.Value(o) == rules.Value(p) then rules.Period(o) == rules.Period(p)
         else rules.Period(o) != rules.Period(p) && ProvablyDistinct(rules.Period(o).value, rules.Period(p).value)
  }

  // ----- sets of identities and observations -----

  lemma IdentityOf(rules: Rules, observations: seq<Observation>, i: Identity) returns (o: Observation)
    requires i in Identities(rules, observations)
    ensures o in observations && i == Id(o.kind, rules.Value(o), rules.Period(o))
  {
    o :| o in observations && rules.Identity(o) == i;
  }

  lemma ObservationIdentity(rules: Rules, observations: seq<Observation>, o: Observation)
    requires o in observations
    ensures Id(o.kind, rules.Value(o), rules.Period(o)) in Identities(rules, observations)
  {
    assert rules.Identity(o) in Identities(rules, observations);
  }

  lemma AtMostOne<T>(s: set<T>)
    ensures |s| < 2 <==> forall x, y | x in s && y in s :: x == y
  {
    if |s| >= 2 {
      var x :| x in s;
      assert |s - {x}| >= 1;
      var y :| y in s - {x};
    } else {
      forall x, y | x in s && y in s ensures x == y {
        assert |s - {x}| == 0;
        assert y !in s - {x};
      }
    }
  }

  lemma ValuesCount(rules: Rules, c: Claim)
    requires c.observations != []
    ensures var values := Values(Identities(rules, c.observations));
      |values| >= 1 && (|values| < 2 <==> OneValue(rules, c))
  {
    hide Rules.Value, Rules.Period, Identities;
    var ids := Identities(rules, c.observations);
    var values := Values(ids);
    forall o | o in c.observations ensures rules.Value(o) in values {
      ObservationIdentity(rules, c.observations, o);
      assert Id(o.kind, rules.Value(o), rules.Period(o)).value in values;
    }
    assert c.observations[0] in c.observations;
    assert rules.Value(c.observations[0]) in values;
    AtMostOne(values);
    if OneValue(rules, c) {
      forall v, w | v in values && w in values ensures v == w {
        var i :| i in ids && i.value == v;
        var j :| j in ids && j.value == w;
        var o := IdentityOf(rules, c.observations, i);
        var p := IdentityOf(rules, c.observations, j);
      }
    }
  }

  /** Every value is tied to one known period, said of the observations. */
  lemma CompleteExactly(rules: Rules, c: Claim)
    requires c.observations != []
    ensures TemporalComplete(Identities(rules, c.observations)) <==>
      forall o, p | o in c.observations && p in c.observations ::
        rules.Period(o).Some? && (rules.Value(o) == rules.Value(p) ==> rules.Period(o) == rules.Period(p))
  {
    hide Rules.Value, Rules.Period, Identities;
    var ids := Identities(rules, c.observations);
    if TemporalComplete(ids) {
      forall o, p | o in c.observations && p in c.observations
        ensures rules.Period(o).Some? && (rules.Value(o) == rules.Value(p) ==> rules.Period(o) == rules.Period(p))
      {
        ObservationIdentity(rules, c.observations, o);
        ObservationIdentity(rules, c.observations, p);
        var i, j := Id(o.kind, rules.Value(o), rules.Period(o)), Id(p.kind, rules.Value(p), rules.Period(p));
        OnlyPeriod(ids, i, i);
        if i.value == j.value { OnlyPeriod(ids, i, j); }
      }
    }
    if forall o, p | o in c.observations && p in c.observations ::
      rules.Period(o).Some? && (rules.Value(o) == rules.Value(p) ==> rules.Period(o) == rules.Period(p))
    {
      assert c.observations[0] in c.observations;
      ObservationIdentity(rules, c.observations, c.observations[0]);
      forall v | v in Values(ids) ensures None !in PeriodsOf(ids, v) && |PeriodsOf(ids, v)| == 1 {
        OnePeriodOf(rules, c, v);
      }
    }
  }

  lemma OnePeriodOf(rules: Rules, c: Claim, v: Value)
    requires v in Values(Identities(rules, c.observations))
    requires forall o, p | o in c.observations && p in c.observations ::
      rules.Period(o).Some? && (rules.Value(o) == rules.Value(p) ==> rules.Period(o) == rules.Period(p))
    ensures var periods := PeriodsOf(Identities(rules, c.observations), v); None !in periods && |periods| == 1
  {
    hide Rules.Value, Rules.Period, Identities;
    var ids := Identities(rules, c.observations);
    var i :| i in ids && i.value == v;
    var o := IdentityOf(rules, c.observations, i);
    forall q | q in PeriodsOf(ids, v) ensures q == i.period && q.Some? {
      var j :| j in ids && j.value == v && j.period == q;
      var p := IdentityOf(rules, c.observations, j);
    }
    assert i.period in PeriodsOf(ids, v);
    assert PeriodsOf(ids, v) == {i.period};
  }

  /** Under complete periods, the periods of the claim are those of its observations. */
  lemma PeriodsOfClaim(rules: Rules, c: Claim)
    requires TemporalComplete(Identities(rules, c.observations))
    ensures forall q :: (q in DistinctTemporal(Identities(rules, c.observations))
                         <==> exists o | o in c.observations :: rules.Period(o) == Some(q))
  {
    hide Rules.Value, Rules.Period, Identities;
    var ids := Identities(rules, c.observations);
    forall q | q in DistinctTemporal(ids) ensures exists o | o in c.observations :: rules.Period(o) == Some(q) {
      var i :| i in ids && i.period == Some(q);
      var o := IdentityOf(rules, c.observations, i);
    }
    forall o, q | o in c.observations && rules.Period(o) == Some(q) ensures q in DistinctTemporal(ids) {
      ObservationIdentity(rules, c.observations, o);
      var i := Id(o.kind, rules.Value(o), rules.Period(o));
      assert i in ids && i.value in Values(ids);
    }
  }

  lemma CommonExactly(rules: Rules, c: Claim)
    requires c.observations != []
    ensures var ids := Identities(rules, c.observations);
      TemporalComplete(ids) && |DistinctTemporal(ids)| == 1 <==> OnePeriod(rules, c)
  {
    hide Rules.Value, Rules.Period, Identities, TemporalComplete, DistinctTemporal;
    var ids := Identities(rules, c.observations);
    CompleteExactly(rules, c);
    assert c.observations[0] in c.observations;
    if TemporalComplete(ids) {
      PeriodsOfClaim(rules, c);
      AtMostOne(DistinctTemporal(ids));
      assert rules.Period(c.observations[0]).value in DistinctTemporal(ids);
      if OnePeriod(rules, c) {
        forall q, r | q in DistinctTemporal(ids) && r in DistinctTemporal(ids) ensures q == r {
          var o :| o in c.observations && rules.Period(o) == Some(q);
          var p :| p in c.observations && rules.Period(p) == Some(r);
        }
      }
      if |DistinctTemporal(ids)| == 1 {
        forall o, p | o in c.observations && p in c.observations ensures rules.Period(o) == rules.Period(p) {
          assert rules.Period(o).value in DistinctTemporal(ids) && rules.Period(p).value in DistinctTemporal(ids);
        }
      }
    }
  }

  /** As many periods as values, each pair of periods provably distinct. */
  predicate Disjoint(ids: set<Identity>) {
    TemporalComplete(ids) && AllDistinct(DistinctTemporal(ids)) && |DistinctTemporal(ids)| == |Values(ids)|
  }

  lemma DisjointTellsApart(rules: Rules, c: Claim)
    requires c.observations != [] && Disjoint(Identities(rules, c.observations))
    ensures PeriodsTellValuesApart(rules, c)
  {
    hide Rules.Value, Rules.Period, Identities, TemporalComplete, DistinctTemporal, AllDistinct, ProvablyDistinct;
    var ids := Identities(rules, c.observations);
    CompleteExactly(rules, c);
    forall o, p | o in c.observations && p in c.observations && rules.Value(o) != rules.Value(p)
      ensures rules.Period(o) != rules.Period(p) && ProvablyDistinct(rules.Period(o).value, rules.Period(p).value)
    {
      ObservationIdentity(rules, c.observations, o);
      ObservationIdentity(rules, c.observations, p);
      var i, j := Id(o.kind, rules.Value(o), rules.Period(o)), Id(p.kind, rules.Value(p), rules.Period(p));
      DistinctValuesDistinctPeriods(ids, i, j);
      DistinctIsSymmetric(i.period.value, j.period.value);
    }
  }

  /** As many elements as images where different elements have different images. */
  lemma {:induction false} ImagesCount(values: set<Value>, image: map<Value, Period>)
    requires values <= image.Keys
    requires forall v, w | v in values && w in values && image[v] == image[w] :: v == w
    ensures |set v | v in values :: image[v]| == |values|
    decreases |values|
  {
    if values != {} {
      var v :| v in values;
      var rest := values - {v};
      ImagesCount(rest, image);
      assert (set x | x in values :: image[x]) == (set x | x in rest :: image[x]) + {image[v]};
      assert image[v] !in set x | x in rest :: image[x];
    }
  }

  lemma ApartIsDisjoint(rules: Rules, c: Claim)
    requires c.observations != [] && PeriodsTellValuesApart(rules, c)
    ensures Disjoint(Identities(rules, c.observations))
  {
    hide Rules.Value, Rules.Period, Identities, TemporalComplete, DistinctTemporal, ProvablyDistinct;
    var ids := Identities(rules, c.observations);
    CompleteExactly(rules, c);
    PeriodsOfClaim(rules, c);
    var temporal, values := DistinctTemporal(ids), Values(ids);
    forall q, r | q in temporal && r in temporal && q != r ensures ProvablyDistinct(q, r) {
      var o :| o in c.observations && rules.Period(o) == Some(q);
      var p :| p in c.observations && rules.Period(p) == Some(r);
      assert rules.Value(o) != rules.Value(p);
    }
    var image := PeriodByValue(ids, values);
    ImageIsPeriods(rules, c, image);
    ImagesCount(values, image);
  }

  lemma ImageIsPeriods(rules: Rules, c: Claim, image: map<Value, Period>)
    requires c.observations != [] && PeriodsTellValuesApart(rules, c)
    requires var ids := Identities(rules, c.observations);
      && TemporalComplete(ids) && image.Keys == Values(ids)
      && forall i | i in ids && i.value in Values(ids) :: i.period == Some(image[i.value])
    ensures var ids := Identities(rules, c.observations);
      && (set v | v in Values(ids) :: image[v]) == DistinctTemporal(ids)
      && forall v, w | v in Values(ids) && w in Values(ids) && image[v] == image[w] :: v == w
  {
    hide Rules.Value, Rules.Period, Identities, TemporalComplete, DistinctTemporal, ProvablyDistinct;
    var ids := Identities(rules, c.observations);
    PeriodsOfClaim(rules, c);
    forall v | v in Values(ids) ensures image[v] in DistinctTemporal(ids)
      ensures exists o | o in c.observations :: rules.Value(o) == v && rules.Period(o) == Some(image[v])
    {
      var i :| i in ids && i.value == v;
      var o := IdentityOf(rules, c.observations, i);
    }
    forall q | q in DistinctTemporal(ids) ensures q in set v | v in Values(ids) :: image[v] {
      var o :| o in c.observations && rules.Period(o) == Some(q);
      ObservationIdentity(rules, c.observations, o);
      var i := Id(o.kind, rules.Value(o), rules.Period(o));
      assert i.value in Values(ids) && image[i.value] == q;
    }
    forall v, w | v in Values(ids) && w in Values(ids) && image[v] == image[w] ensures v == w {
      var o :| o in c.observations && rules.Value(o) == v && rules.Period(o) == Some(image[v]);
      var p :| p in c.observations && rules.Value(p) == w && rules.Period(p) == Some(image[w]);
    }
  }

  lemma QuotedExactly(c: Claim)
    ensures forall s :: s in Sentences(c.context, Elements(c.observations)) <==> Quoted(c, s)
  {
    forall s ensures s in Sentences(c.context, Elements(c.observations)) <==> Quoted(c, s) {
      if o :| o in c.observations && s in o.sentences { assert o in Elements(c.observations); }
    }
  }

  lemma ConflictIsQuoted(rules: Rules, recognize: Recognizer, order: Iteration, c: Claim)
    requires c.observations != []
    ensures ExplicitConflict(rules, recognize, order, Sentences(c.context, Elements(c.observations)),
                             Elements(Deduplicate(rules, c.observations)))
      <==> QuotesConflict(rules, recognize, order, c)
  {
    hide Deduplicate, Rules.Identity, ReadingOf, Sentences;
    DeduplicateKeeps(rules, c.observations);
    assert c.observations[0] in Elements(Deduplicate(rules, c.observations));
    QuotedExactly(c);
  }

  // ----- each status -----

  /**
   Verified: everything the claim rests on was checked, all observations have one value, and no
   quoted sentence binds values in conflict.
   */
  predicate IsVerified(rules: Rules, recognize: Recognizer, order: Iteration, c: Claim) {
    Supported(c) && OneValue(rules, c) && !QuotesConflict(rules, recognize, order, c)
  }

  /** Conflict: several values, which a quoted sentence binds in conflict or which share one known period. */
  predicate IsConflict(rules: Rules, recognize: Recognizer, order: Iteration, c: Claim) {
    && Supported(c) && !OneValue(rules, c)
    && (QuotesConflict(rules, recognize, order, c) || OnePeriod(rules, c))
  }

  /** Date variant: several values no sentence binds in conflict, told apart by provably distinct periods. */
  predicate IsDateVariant(rules: Rules, recognize: Recognizer, order: Iteration, c: Claim) {
    && Supported(c) && !OneValue(rules, c)
    && !QuotesConflict(rules, recognize, order, c) && PeriodsTellValuesApart(rules, c)
  }

  /** Possible conflict: one value that a sentence disputes, or several whose periods settle nothing. */
  predicate IsPossibleConflict(rules: Rules, recognize: Recognizer, order: Iteration, c: Claim) {
    && Supported(c)
    && if OneValue(rules, c) then QuotesConflict(rules, recognize, order, c)
       else !QuotesConflict(rules, recognize, order, c) && !OnePeriod(rules, c) && !PeriodsTellValuesApart(rules, c)
  }

  /** Not found: nothing but absence is claimed, and the probe was confirmed. */
  predicate IsNotFound(c: Claim) {
    c.absenceRequested && |c.observations| == 0 && !c.contextPresent && c.absenceProven
  }

  lemma SupportedIsComparing(c: Claim)
    ensures Supported(c) <==> Comparing(c)
  {
    if Comparing(c) {
      forall i | 0 <= i < |c.observations|
        ensures c.observations[i].referencesValid && c.observations[i].authorized
      {
        assert c.observations[i] in c.observations;
      }
    }
  }

  /** Every status holds exactly when the claim says so; a claim is unverified exactly otherwise. */
  lemma StatusExactly(rules: Rules, recognize: Recognizer, order: Iteration, c: Claim)
    ensures var status := Status(rules, recognize, order, c);
      && (status == Verified <==> IsVerified(rules, recognize, order, c))
      && (status == Conflict <==> IsConflict(rules, recognize, order, c))
      && (status == DateVariant <==> IsDateVariant(rules, recognize, order, c))
      && (status == PossibleConflict <==> IsPossibleConflict(rules, recognize, order, c))
      && (status == NotFoundInCorpus <==> IsNotFound(c))
      && (status == Unverified <==> !Supported(c) && !IsNotFound(c))
  {
    SupportedIsComparing(c);
    hide Deduplicate, Authorized, Identities, Sentences, ExplicitConflict, QuotesConflict, Supported, Comparing;
    hide TemporalComplete, DistinctTemporal, AllDistinct, OneValue, OnePeriod, PeriodsTellValuesApart;
    if Comparing(c) {
      ComparingClaims(c);
      StatusComparing(rules, recognize, order, c);
      ConflictIsQuoted(rules, recognize, order, c);
      ValuesCount(rules, c);
      CommonExactly(rules, c);
      if PeriodsTellValuesApart(rules, c) {
        ApartIsDisjoint(rules, c);
      }
      if Disjoint(Identities(rules, c.observations)) {
        DisjointTellsApart(rules, c);
      }
    }
  }

  lemma ComparingClaims(c: Claim)
    requires Comparing(c)
    ensures c.observations != [] && !c.absenceRequested
  {
  }
}
