/**
 The candidates of the conflict rule as a list: collected in a set, which is iterated in an arbitrary
 order, and then sorted by span, so that only candidates at one span keep that order.
 */
module CandidateOrder {
  import ExactScan

  type Span = ExactScan.Span

  /** A qualitative value and a span of a sentence that spells it, token kinds ignored. */
  type Candidate = (seq<string>, Span)

  /** Spans compare by start, then by end. */
  predicate NotAfter(a: Span, b: Span) {
    a.0 < b.0 || (a.0 == b.0 && a.1 <= b.1)
  }

  function Placed(x: Candidate, candidates: seq<Candidate>): seq<Candidate> {
    if candidates == [] || NotAfter(x.1, candidates[0].1) then [x] + candidates
    else [candidates[0]] + Placed(x, candidates[1..])
  }

  /** Sorted by span; candidates at one span stay in the order they came. */
  function SortedBySpan(candidates: seq<Candidate>): seq<Candidate> {
    if candidates == [] then [] else Placed(candidates[0], SortedBySpan(candidates[1..]))
  }

  predicate Sorted(candidates: seq<Candidate>) {
    forall i, j | 0 <= i < j < |candidates| :: NotAfter(candidates[i].1, candidates[j].1)
  }

  /** The candidates at one span, in order. */
  function At(candidates: seq<Candidate>, span: Span): seq<Candidate> {
    if candidates == [] then []
    else if candidates[0].1 == span then [candidates[0]] + At(candidates[1..], span)
    else At(candidates[1..], span)
  }

  lemma {:induction false} PlacedElements(x: Candidate, candidates: seq<Candidate>)
    ensures multiset(Placed(x, candidates)) == multiset{x} + multiset(candidates)
  {
    if candidates != [] && !NotAfter(x.1, candidates[0].1) {
      PlacedElements(x, candidates[1..]);
      assert candidates == [candidates[0]] + candidates[1..];
    }
  }

  lemma {:induction false} PlacedSorted(x: Candidate, candidates: seq<Candidate>)
    requires Sorted(candidates)
    ensures Sorted(Placed(x, candidates))
  {
    if candidates != [] && !NotAfter(x.1, candidates[0].1) {
      var rest := Placed(x, candidates[1..]);
      PlacedSorted(x, candidates[1..]);
      PlacedElements(x, candidates[1..]);
      hide Placed;
      forall y | y in rest ensures NotAfter(candidates[0].1, y.1) {
        assert y in multiset{x} + multiset(candidates[1..]);
      }
    }
  }

  /** Sorting keeps every candidate and puts them in the order of their spans. */
  lemma {:induction false} SortingSorts(candidates: seq<Candidate>)
    ensures Sorted(SortedBySpan(candidates))
    ensures multiset(SortedBySpan(candidates)) == multiset(candidates)
  {
    if candidates != [] {
      SortingSorts(candidates[1..]);
      PlacedSorted(candidates[0], SortedBySpan(candidates[1..]));
      PlacedElements(candidates[0], SortedBySpan(candidates[1..]));
      assert candidates == [candidates[0]] + candidates[1..];
    }
  }

  lemma {:induction false} PlacedFirst(x: Candidate, candidates: seq<Candidate>, span: Span)
    ensures At(Placed(x, candidates), span) == At([x] + candidates, span)
  {
    assert ([x] + candidates)[1..] == candidates;
    if candidates != [] && !NotAfter(x.1, candidates[0].1) {
      PlacedFirst(x, candidates[1..], span);
      assert ([x] + candidates[1..])[1..] == candidates[1..];
    }
  }

  /** Sorting is stable: candidates at one span stay in the order they came. */
  lemma {:induction false} TiesKeepTheirOrder(candidates: seq<Candidate>, span: Span)
    ensures At(SortedBySpan(candidates), span) == At(candidates, span)
  {
    if candidates != [] {
      TiesKeepTheirOrder(candidates[1..], span);
      PlacedFirst(candidates[0], SortedBySpan(candidates[1..]), span);
    }
  }

  lemma {:induction false} SortedStays(candidates: seq<Candidate>)
    requires Sorted(candidates)
    ensures SortedBySpan(candidates) == candidates
  {
    if candidates != [] {
      SortedStays(candidates[1..]);
      assert candidates == [candidates[0]] + candidates[1..];
    }
  }

  // ----- the order of a set -----

  /** How the set of candidates over a sentence comes out when it is iterated. */
  type Iteration = (string, set<Candidate>) -> seq<Candidate>

  /** The list holds each element of the set once. */
  predicate Lists(list: seq<Candidate>, candidates: set<Candidate>) {
    multiset(list) == multiset(candidates)
  }

  /** Every set comes out whole and without repeats, in whatever order. */
  ghost predicate Iterates(order: Iteration) {
    forall sentence, candidates :: Lists(order(sentence, candidates), candidates)
  }

  function Listing(order: Iteration, sentence: string, candidates: set<Candidate>): seq<Candidate> {
    SortedBySpan(order(sentence, candidates))
  }

  lemma ListingLists(order: Iteration, sentence: string, candidates: set<Candidate>)
    requires Iterates(order)
    ensures Sorted(Listing(order, sentence, candidates))
    ensures Lists(Listing(order, sentence, candidates), candidates)
  {
    SortingSorts(order(sentence, candidates));
    assert Lists(order(sentence, candidates), candidates);
  }

  /** No two candidates stand at one span. */
  predicate NoTies(candidates: set<Candidate>) {
    forall x, y | x in candidates && y in candidates && x.1 == y.1 :: x == y
  }

  lemma {:induction false} OneSortedList(a: seq<Candidate>, b: seq<Candidate>)
    requires Sorted(a) && Sorted(b) && multiset(a) == multiset(b)
    requires forall x, y | x in a && y in a && x.1 == y.1 :: x == y
    ensures a == b
    decreases |a|
  {
    assert |a| == |multiset(a)| == |multiset(b)| == |b|;
    if a != [] {
      SameHead(a, b);
      SameTails(a, b);
      assert a == [a[0]] + a[1..] && b == [b[0]] + b[1..];
      OneSortedList(a[1..], b[1..]);
    }
  }

  lemma SameTails(a: seq<Candidate>, b: seq<Candidate>)
    requires a != [] && b != [] && a[0] == b[0] && multiset(a) == multiset(b)
    ensures multiset(a[1..]) == multiset(b[1..])
  {
    assert a == [a[0]] + a[1..] && b == [b[0]] + b[1..];
    assert multiset(a[1..]) == multiset(a) - multiset{a[0]};
  }

  lemma SameHead(a: seq<Candidate>, b: seq<Candidate>)
    requires a != [] && b != [] && Sorted(a) && Sorted(b) && multiset(a) == multiset(b)
    requires forall x, y | x in a && y in a && x.1 == y.1 :: x == y
    ensures a[0] == b[0]
  {
    assert b[0] in multiset(a) && a[0] in multiset(b);
    assert b[0] in a && a[0] in b;
  }

  /** Without ties the list does not depend on how the set is iterated. */
  lemma NoTiesOneListing(a: Iteration, b: Iteration, sentence: string, candidates: set<Candidate>)
    requires Iterates(a) && Iterates(b) && NoTies(candidates)
    ensures Listing(a, sentence, candidates) == Listing(b, sentence, candidates)
  {
    hide Iterates, Listing, Sorted;
    ListingLists(a, sentence, candidates);
    ListingLists(b, sentence, candidates);
    assert forall x | x in Listing(a, sentence, candidates) :: x in multiset(candidates);
    OneSortedList(Listing(a, sentence, candidates), Listing(b, sentence, candidates));
  }

  // ----- an iteration of one's own choice -----

  ghost function AnyList(candidates: set<Candidate>): (list: seq<Candidate>)
    ensures Lists(list, candidates)
  {
    if candidates == {} then []
    else
      var x :| x in candidates;
      assert multiset(candidates) == multiset{x} + multiset(candidates - {x});
      [x] + AnyList(candidates - {x})
  }

  /** The iteration that gives this list over this sentence. */
  ghost function Giving(sentence: string, candidates: set<Candidate>, list: seq<Candidate>): Iteration {
    (s: string, c: set<Candidate>) => if s == sentence && c == candidates then list else AnyList(c)
  }

  lemma GivingIterates(sentence: string, candidates: set<Candidate>, list: seq<Candidate>)
    requires Lists(list, candidates)
    ensures Iterates(Giving(sentence, candidates, list))
    ensures Listing(Giving(sentence, candidates, list), sentence, candidates) == SortedBySpan(list)
  {
  }

  /** The first candidate at a span can be any candidate there. */
  lemma AnyFirst(sentence: string, candidates: set<Candidate>, x: Candidate) returns (order: Iteration)
    requires x in candidates
    ensures Iterates(order)
    ensures var there := At(Listing(order, sentence, candidates), x.1); there != [] && there[0] == x
  {
    var list := [x] + AnyList(candidates - {x});
    assert multiset(candidates) == multiset{x} + multiset(candidates - {x});
    order := Giving(sentence, candidates, list);
    GivingIterates(sentence, candidates, list);
    TiesKeepTheirOrder(list, x.1);
    assert At(list, x.1)[0] == x;
  }
}
