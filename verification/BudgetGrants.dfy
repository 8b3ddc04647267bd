/**
 When a reservation is granted: the answer of each transaction read off the tables that the write
 would leave, not off the sums the transaction compares.
 */
module BudgetGrants {
  import opened Models
  import opened Sums
  import opened TokenTables
  import opened BudgetSafety

  ghost function Reserved(t: Tables, run: RunId, amount: int): Tables {
    t.(reservations := t.reservations[run := amount])
  }

  ghost function Held(t: Tables, run: RunId): int {
    if run in t.reservations then t.reservations[run] else 0
  }

  /**
   How much of a raise pays for usage of the run that is recorded already. Committed capacity
   contains that usage, so the transaction counts it a second time.
   */
  ghost function CountedTwice(t: Tables, run: RunId, amount: int): int {
    Min(amount, Total(t, run)) - Min(Held(t, run), Total(t, run))
  }

  ghost predicate Overruns(t: Tables, run: RunId, amount: int, cutoff: int, limit: int)
    requires Consistent(t) && 0 < amount
  {
    Committed(Reserved(t, run, amount), cutoff) + CountedTwice(t, run, amount) > limit
  }

  /**
   The answer to a write of one reservation: refused for the hour if the hour would be overrun, else
   for the day if the day would be, else granted; written if granted, and nothing else changed.
   */
  ghost predicate Answers(t: Tables, run: RunId, amount: int, asOf: int, limits: Limits, t': Tables, verdict: Verdict)
    requires Consistent(t) && 0 < amount
  {
    var hour := Overruns(t, run, amount, asOf - 3600, limits.hourly);
    var day := Overruns(t, run, amount, asOf - 86400, limits.daily);
    && (verdict == HourlyExceeded <==> hour)
    && (verdict == DailyExceeded <==> !hour && day)
    && (verdict == Granted <==> !hour && !day)
    && t' == (if hour || day then t else Reserved(t, run, amount))
  }

  lemma RaiseCounts(t: Tables, run: RunId, amount: int, cutoff: int)
    requires Consistent(t) && 0 < amount
    ensures Consistent(Reserved(t, run, amount))
    ensures Committed(Reserved(t, run, amount), cutoff) + CountedTwice(t, run, amount)
         == Committed(t, cutoff) + amount - Held(t, run)
  {
    hide Sum, Total, Committed, Consistent;
    SetReservation(t, run, amount, cutoff);
    TotalNonNegative(t, run);
  }

  /** A reservation of a run that has none. */
  lemma ReserveAnswers(t: Tables, run: RunId, tokens: int, asOf: int, limits: Limits)
    requires Consistent(t) && run !in t.reservations && 0 < tokens
    ensures var (t', verdict) := Reserve(t, run, tokens, asOf, limits);
      Answers(t, run, tokens, asOf, limits, t', verdict)
  {
    hide Sum, Total, Committed, Consistent;
    RaiseCounts(t, run, tokens, asOf - HOUR);
    RaiseCounts(t, run, tokens, asOf - DAY);
  }

  /**
   The next call of a run: granted at once if its reservation covers usage and ceiling, answered as
   a write of exactly that sum otherwise; a granted call is covered.
   */
  lemma ExpandAnswers(t: Tables, run: RunId, ceiling: int, asOf: int, limits: Limits)
    requires Consistent(t) && run in t.reservations
    ensures var (t', verdict) := Expand(t, run, ceiling, asOf, limits);
      var required := Total(t, run) + ceiling;
      && (required <= t.reservations[run] ==> t' == t && verdict == Granted)
      && (required > t.reservations[run] ==> Answers(t, run, required, asOf, limits, t', verdict))
      && (verdict == Granted ==> run in t'.reservations && required <= t'.reservations[run])
  {
    hide Sum, Total, Committed;
    var required := Total(t, run) + ceiling;
    if required > t.reservations[run] {
      RaiseCounts(t, run, required, asOf - HOUR);
      RaiseCounts(t, run, required, asOf - DAY);
    }
  }

  /** Nothing else is ever answered: without a reservation to raise, or with one to insert, the write raises. */
  lemma RefusedWrites(t: Tables, run: RunId, tokens: int, asOf: int, limits: Limits)
    requires Consistent(t)
    ensures run !in t.reservations ==> Expand(t, run, tokens, asOf, limits) == (t, Raised)
    ensures run in t.reservations || tokens <= 0 ==>
      var (t', verdict) := Reserve(t, run, tokens, asOf, limits); t' == t && verdict != Granted
  {
  }

  /** Where the reservation held covers what the run has used, nothing is counted twice. */
  lemma GrantedIffWithinBudget(t: Tables, run: RunId, amount: int, asOf: int, limits: Limits, t': Tables,
      verdict: Verdict)
    requires Consistent(t) && 0 < amount && Held(t, run) < amount
    requires Answers(t, run, amount, asOf, limits, t', verdict)
    requires Total(t, run) <= Held(t, run)
    ensures Consistent(Reserved(t, run, amount))
    ensures verdict == Granted <==> WithinBudget(Reserved(t, run, amount), asOf, limits)
  {
    hide Sum, Total, Committed, Recorded;
    RaiseCounts(t, run, amount, asOf - HOUR);
    var after := Reserved(t, run, amount);
    if verdict == Granted {
      Confirm(after, asOf, limits);
    }
  }

  /** A run that has neither a reservation nor recorded usage: granted exactly if the budget holds afterwards. */
  lemma FirstReservation(t: Tables, run: RunId, tokens: int, asOf: int, limits: Limits)
    requires Consistent(t) && run !in t.reservations && 0 < tokens
    requires forall k | k in t.calls :: k.0 != run
    ensures Consistent(Reserved(t, run, tokens))
    ensures Reserve(t, run, tokens, asOf, limits).1 == Granted
      <==> WithinBudget(Reserved(t, run, tokens), asOf, limits)
  {
    assert Of(Rows(t), {run}) == map[];
    assert Total(t, run) == 0;
    hide Sum, Total, Committed, Recorded, Rows, Reserve, WithinBudget, Answers;
    ReserveAnswers(t, run, tokens, asOf, limits);
    var (t', verdict) := Reserve(t, run, tokens, asOf, limits);
    GrantedIffWithinBudget(t, run, tokens, asOf, limits, t', verdict);
  }

  /** Recording a call keeps the usage of its run within the reservation, raising it if it must. */
  lemma AppendCovers(t: Tables, k: CallKey, call: CallRow)
    requires k !in t.calls && k.0 in t.runs && k.0 in t.reservations
    requires Total(t, k.0) <= t.reservations[k.0]
    ensures var t' := Append(t, k, call).0;
      && k.0 in t'.reservations
      && t.reservations[k.0] <= t'.reservations[k.0]
      && Total(t', k.0) <= t'.reservations[k.0]
  {
    hide Total;
    var t' := Append(t, k, call).0;
    InsertTotal(t, k, call, k.0);
    SameTotal(Insert(t, k, call), t', k.0);
  }

  /** A call with a new number of a known run is always recorded, and no other call changes. */
  lemma AppendRecords(t: Tables, k: CallKey, call: CallRow)
    requires k !in t.calls && k.0 in t.runs
    ensures var (t', verdict) := Append(t, k, call);
      && verdict == Granted && t'.runs == t.runs && t'.calls == t.calls[k := call]
      && t'.reservations.Keys == t.reservations.Keys
      && forall r | r in t.reservations && r != k.0 :: t'.reservations[r] == t.reservations[r]
  {
  }

  // ----- what release gives back -----

  /** Releasing a run gives back what was left of its reservation, no more and no less. */
  lemma ReleaseFrees(t: Tables, run: RunId, cutoff: int)
    requires Consistent(t)
    ensures var t' := Release(t, run);
      && Consistent(t')
      && Committed(t', cutoff) == Committed(t, cutoff) - Remaining(t, run)
      && Recorded(t', cutoff) == Recorded(t, cutoff)
  {
    hide Sum, Total, Window, Recorded, Committed;
    var t' := Release(t, run);
    SameUsage(t, t', cutoff);
    CommittedIsRecordedPlusUnspent(t, cutoff);
    CommittedIsRecordedPlusUnspent(t', cutoff);
    if run in t.reservations {
      Without(Unspent(t), run);
      assert Unspent(t') == Unspent(t) - {run};
    } else {
      assert Unspent(t') == Unspent(t);
    }
  }

  /** After the cleanup exactly the unspent reservations of queued and running runs are still committed. */
  lemma CleanupFrees(t: Tables, cutoff: int)
    requires Consistent(t)
    ensures var t' := ReleaseInactive(t);
      && Consistent(t')
      && Committed(t', cutoff) == Recorded(t, cutoff)
           + Sum(map r | r in Unspent(t) && r in t.runs && t.runs[r].status in {Queued, Running} :: Unspent(t)[r])
  {
    hide Sum, Total, Window, Recorded, Committed;
    var t' := ReleaseInactive(t);
    SameUsage(t, t', cutoff);
    CommittedIsRecordedPlusUnspent(t', cutoff);
    assert Unspent(t')
        == map r | r in Unspent(t) && r in t.runs && t.runs[r].status in {Queued, Running} :: Unspent(t)[r];
  }

  ghost function ExpiredRuns(t: Tables, before: int): set<RunId> {
    set r | r in t.runs && t.runs[r].createdAt < before
  }

  /** Retention takes exactly the recorded usage of the expired runs out of the window. */
  lemma RetentionForgets(t: Tables, before: int, cutoff: int)
    requires Consistent(t)
    ensures Consistent(DeleteBefore(t, before))
    ensures Recorded(DeleteBefore(t, before), cutoff) == Sum(NotOf(Window(t, cutoff), ExpiredRuns(t, before)))
  {
    hide Sum;
    assert Window(DeleteBefore(t, before), cutoff) == NotOf(Window(t, cutoff), ExpiredRuns(t, before));
  }

  /** And exactly their reservations. */
  lemma RetentionReleases(t: Tables, before: int)
    ensures Unspent(DeleteBefore(t, before))
         == map r | r in Unspent(t) && r !in ExpiredRuns(t, before) :: Unspent(t)[r]
  {
    hide Sum, Total;
    forall r | !Expired(t, r, before) ensures Total(DeleteBefore(t, before), r) == Total(t, r) {
      DeleteTotal(t, before, r);
    }
  }

  // ----- a run that reserves after it was billed -----

  /** One run, one recorded call of a hundred tokens, no reservation. */
  function Billed(): Tables {
    Tables(map["a" := RunRow(Running, 0)], map[], map[("a", 1) := CallRow(true, 100, Some(1000))])
  }

  lemma BilledSums(cutoff: int)
    requires cutoff <= 1000
    ensures Consistent(Billed()) && Total(Billed(), "a") == 100 && Committed(Billed(), cutoff) == 100
  {
    var t := Billed();
    var call: map<CallKey, int> := map[("a", 1) := 100];
    assert Sum(call) == 100 by {
      With<CallKey>(map[], ("a", 1), 100);
      assert map[][("a", 1) := 100] == call;
    }
    assert Of(Rows(t), {"a"}) == call;
    assert Window(t, cutoff) == call;
    assert Unspent(t) == map[];
    CommittedIsRecordedPlusUnspent(t, cutoff);
  }

  /**
   Such a run is refused fifty tokens under an hourly limit of 120, although the reservation would
   add nothing to committed capacity: its hundred tokens are counted twice.
   */
  lemma BilledRunIsRefused()
    ensures Consistent(Billed()) && Consistent(Reserved(Billed(), "a", 50))
    ensures Reserve(Billed(), "a", 50, 2000, Limits(120, 120)) == (Billed(), HourlyExceeded)
    ensures WithinBudget(Reserved(Billed(), "a", 50), 2000, Limits(120, 120))
  {
    BilledSums(2000 - HOUR);
    BilledSums(2000 - DAY);
    hide Sum, Total, Committed, Recorded;
    SetReservation(Billed(), "a", 50, 2000 - HOUR);
    SetReservation(Billed(), "a", 50, 2000 - DAY);
    Confirm(Reserved(Billed(), "a", 50), 2000, Limits(120, 120));
  }
}
