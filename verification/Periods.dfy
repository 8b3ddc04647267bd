/** Closed temporal signatures and when two of them provably denote different periods. */
module Periods {
  import opened Models

  /** A missing year is missing precision, not a different period. */
  datatype Period =
    | Date(year: nat, month: nat, day: nat)
    | Year(yearIfKnown: Option<nat>)
    | FiscalYear(fiscalIfKnown: Option<nat>)
    | Quarter(quarterYear: Option<nat>, quarter: nat)
    | Month(monthYear: Option<nat>, month: nat)
    | Event(name: string, eventYear: Option<nat>, month: nat)
    | Named(core: string)

  predicate BothKnownAndDifferent(a: Option<nat>, b: Option<nat>) {
    a.Some? && b.Some? && a != b
  }

  predicate ProvablyDistinct(l: Period, r: Period) {
    if l == r then false
    else
      match (l, r)
      case (Date(_, _, _), Date(_, _, _)) => true
      case (Year(a), Year(b)) => BothKnownAndDifferent(a, b)
      case (FiscalYear(a), FiscalYear(b)) => BothKnownAndDifferent(a, b)
      case (Quarter(a, q), Quarter(b, s)) => q != s || BothKnownAndDifferent(a, b)
      case (Month(a, m), Month(b, n)) => m != n || BothKnownAndDifferent(a, b)
      case (Event(e, a, m), Event(f, b, n)) => e == f && (m != n || BothKnownAndDifferent(a, b))
      case _ => false
  }

  /** A later reader supplies the year the source left out. */
  function Filled(p: Period, year: nat): Period {
    match p
    case Year(None) => Year(Some(year))
    case FiscalYear(None) => FiscalYear(Some(year))
    case Quarter(None, q) => Quarter(Some(year), q)
    case Month(None, m) => Month(Some(year), m)
    case Event(e, None, m) => Event(e, Some(year), m)
    case _ => p
  }

  lemma DistinctIsSymmetric(l: Period, r: Period)
    ensures ProvablyDistinct(l, r) == ProvablyDistinct(r, l)
    ensures !ProvablyDistinct(l, l)
  {
  }

  // ----- an independent meaning -----

  datatype Day = Day(year: nat, month: nat, day: nat)

  /** A moment a reported value may refer to: a day and the named events taking place on it. */
  datatype Moment = Moment(on: Day, events: set<string>)

  /** Companies choose their own fiscal years and quarters. */
  datatype Calendar = Calendar(fiscalYear: Day -> nat, quarter: Day -> (nat, nat))

  predicate Covers(calendar: Calendar, p: Period, m: Moment) {
    match p
    case Date(year, month, day) => m.on == Day(year, month, day)
    case Year(Some(year)) => m.on.year == year
    case FiscalYear(Some(year)) => calendar.fiscalYear(m.on) == year
    case Quarter(Some(year), quarter) => calendar.quarter(m.on) == (year, quarter)
    case Month(Some(year), month) => m.on.year == year && m.on.month == month
    case Event(name, Some(year), month) => name in m.events && m.on.year == year && m.on.month == month
    case _ => false
  }

  /** However missing years are filled in, no moment belongs to both periods. */
  ghost predicate DisjointForever(l: Period, r: Period) {
    forall calendar: Calendar, y: nat, z: nat, m: Moment ::
      !(Covers(calendar, Filled(l, y), m) && Covers(calendar, Filled(r, z), m))
  }

  /** Periods of one calendar kind, or occasions of one named event. */
  predicate Comparable(l: Period, r: Period) {
    || (l.Date? && r.Date?)
    || (l.Year? && r.Year?)
    || (l.FiscalYear? && r.FiscalYear?)
    || (l.Quarter? && r.Quarter?)
    || (l.Month? && r.Month?)
    || (l.Event? && r.Event? && l.name == r.name)
  }

  /** Filling in a year never revokes a proof of difference. */
  lemma FillingKeepsDistinct(l: Period, r: Period, y: nat, z: nat)
    requires ProvablyDistinct(l, r)
    ensures ProvablyDistinct(Filled(l, y), Filled(r, z))
  {
  }

  lemma KnownYear(a: Option<nat>, b: Option<nat>) returns (year: nat)
    requires !BothKnownAndDifferent(a, b)
    ensures (a.None? || a == Some(year)) && (b.None? || b == Some(year))
  {
    year := if a.Some? then a.value else if b.Some? then b.value else 0;
  }

  /** A moment that two periods share once their missing years are filled in suitably. */
  lemma Overlap(l: Period, r: Period) returns (calendar: Calendar, year: nat, m: Moment)
    requires Comparable(l, r) && !ProvablyDistinct(l, r)
    ensures Covers(calendar, Filled(l, year), m) && Covers(calendar, Filled(r, year), m)
  {
    calendar, year, m := Calendar(d => 0, d => (0, 0)), 0, Moment(Day(0, 0, 0), {});
    match (l, r) {
      case (Date(y, mo, d), _) => m := Moment(Day(y, mo, d), {});
      case (Year(a), Year(b)) =>
        year := KnownYear(a, b);
        m := Moment(Day(year, 1, 1), {});
      case (FiscalYear(a), FiscalYear(b)) =>
        year := KnownYear(a, b);
        var y := year;
        calendar := Calendar(d => y, d => (0, 0));
      case (Quarter(a, q), Quarter(b, _)) =>
        year := KnownYear(a, b);
        var y := year;
        calendar := Calendar(d => 0, d => (y, q));
      case (Month(a, mo), Month(b, _)) =>
        year := KnownYear(a, b);
        m := Moment(Day(year, mo, 1), {});
      case (Event(e, a, mo), Event(_, b, _)) =>
        year := KnownYear(a, b);
        m := Moment(Day(year, mo, 1), {e});
    }
  }

  /**
   The rule is exact: two signatures are provably distinct if and only if they are comparable
   and share no moment under any calendar and any choice of their missing years.
   */
  lemma DistinctIffDisjointForever(l: Period, r: Period)
    ensures ProvablyDistinct(l, r) <==> Comparable(l, r) && DisjointForever(l, r)
  {
    if Comparable(l, r) && !ProvablyDistinct(l, r) {
      var calendar, year, m := Overlap(l, r);
    }
  }

  predicate PairwiseDistinct(periods: seq<Period>) {
    forall i, j | 0 <= i < j < |periods| :: ProvablyDistinct(periods[i], periods[j])
  }
}
