/**
 The database object: transactions over its three tables, each a check followed by
 at most one write. Row sums are accumulated in loops over the fetched rows.
 */
module TokenDatabase {
  import opened Models
  import opened Sums
  import opened TokenTables
  import opened BudgetGrants

  ghost function Restrict(rows: map<CallKey, int>, keys: set<CallKey>): map<CallKey, int> {
    map k | k in rows && k in keys :: rows[k]
  }

  /** What the rows fetched so far say about one run, and about the runs outside a set. */
  ghost function Seen(rows: map<CallKey, int>, done: set<CallKey>, run: RunId): int {
    Sum(Of(Restrict(rows, done), {run}))
  }

  ghost function SeenOutside(rows: map<CallKey, int>, done: set<CallKey>, runs: set<RunId>): int {
    Sum(NotOf(Restrict(rows, done), runs))
  }

  /** Fetching one more row adds its tokens to the sum of its own run only. */
  lemma FetchRow(rows: map<CallKey, int>, done: set<CallKey>, k: CallKey, run: RunId)
    requires k !in done
    ensures Seen(rows, done + {k}, run) == Seen(rows, done, run) + (if k in rows && k.0 == run then rows[k] else 0)
  {
    hide Sum;
    var before, after := Of(Restrict(rows, done), {run}), Of(Restrict(rows, done + {k}), {run});
    if k in rows && k.0 == run {
      assert after == before[k := rows[k]];
      With(before, k, rows[k]);
    } else {
      assert after == before;
    }
  }

  lemma FetchOutside(rows: map<CallKey, int>, done: set<CallKey>, k: CallKey, runs: set<RunId>)
    requires k !in done
    ensures SeenOutside(rows, done + {k}, runs)
         == SeenOutside(rows, done, runs) + (if k in rows && k.0 !in runs then rows[k] else 0)
  {
    hide Sum;
    var before, after := NotOf(Restrict(rows, done), runs), NotOf(Restrict(rows, done + {k}), runs);
    if k in rows && k.0 !in runs {
      assert after == before[k := rows[k]];
      With(before, k, rows[k]);
    } else {
      assert after == before;
    }
  }

  /** A dictionary of running sums agrees with the rows fetched so far. */
  ghost predicate Tallies(actual: map<RunId, int>, rows: map<CallKey, int>, done: set<CallKey>) {
    forall r | r in actual :: actual[r] == Seen(rows, done, r)
  }

  lemma Tally(actual: map<RunId, int>, rows: map<CallKey, int>, done: set<CallKey>, k: CallKey)
    requires Tallies(actual, rows, done) && k !in done
    ensures k in rows && k.0 in actual ==> Tallies(actual[k.0 := actual[k.0] + rows[k]], rows, done + {k})
    ensures (k in rows && k.0 in actual) || Tallies(actual, rows, done + {k})
  {
    hide Seen;
    forall r ensures Seen(rows, done + {k}, r) == Seen(rows, done, r) + (if k in rows && k.0 == r then rows[k] else 0) {
      FetchRow(rows, done, k, r);
    }
  }

  lemma TallyNothing(actual: map<RunId, int>, rows: map<CallKey, int>)
    requires forall r | r in actual :: actual[r] == 0
    ensures Tallies(actual, rows, {})
  {
    forall r | r in actual ensures Seen(rows, {}, r) == 0 {
      NothingFetched(rows, r, {});
    }
  }

  lemma TallyAll(actual: map<RunId, int>, rows: map<CallKey, int>, keys: set<CallKey>)
    requires Tallies(actual, rows, keys) && rows.Keys <= keys
    ensures forall r | r in actual :: actual[r] == Sum(Of(rows, {r}))
  {
    forall r | r in actual ensures actual[r] == Sum(Of(rows, {r})) {
      AllFetched(rows, keys, r, {});
    }
  }

  lemma NothingFetched(rows: map<CallKey, int>, run: RunId, runs: set<RunId>)
    ensures Seen(rows, {}, run) == 0 && SeenOutside(rows, {}, runs) == 0
  {
    assert Of(Restrict(rows, {}), {run}) == map[] && NotOf(Restrict(rows, {}), runs) == map[];
  }

  lemma AllFetched(rows: map<CallKey, int>, keys: set<CallKey>, run: RunId, runs: set<RunId>)
    requires rows.Keys <= keys
    ensures Seen(rows, keys, run) == Sum(Of(rows, {run}))
    ensures SeenOutside(rows, keys, runs) == Sum(NotOf(rows, runs))
  {
    hide Sum;
    assert Restrict(rows, keys) == rows;
  }

  class AppDatabase {
    var runs: map<RunId, RunRow>
    var reservations: map<RunId, int>
    var calls: map<CallKey, CallRow>

    constructor ()
      ensures Tables() == TokenTables.Tables(map[], map[], map[])
    {
      runs, reservations, calls := map[], map[], map[];
    }

    ghost function Tables(): Tables
      reads this
    {
      TokenTables.Tables(runs, reservations, calls)
    }

    ghost predicate Valid()
      reads this
    {
      Consistent(Tables())
    }

    method SumModelTokensForRun(run: RunId) returns (total: int)
      ensures total == Total(Tables(), run)
    {
      hide Sum, Rows, Seen;
      total := 0;
      var pending := calls.Keys;
      ghost var done: set<CallKey> := {};
      ghost var rows := Rows(Tables());
      NothingFetched(rows, run, {});
      RowsOf();
      while pending != {}
        invariant done !! pending && done + pending == calls.Keys
        invariant total == Seen(rows, done, run)
        decreases pending
      {
        var k :| k in pending;
        FetchRow(rows, done, k, run);
        if k.0 == run && calls[k].model {
          total := total + calls[k].tokens;
        }
        pending := pending - {k};
        done := done + {k};
      }
      AllFetched(rows, done, run, {});
    }

    lemma RowsOf()
      ensures forall k | k in calls :: calls[k].model <==> k in Rows(Tables())
      ensures forall k | k in Rows(Tables()) :: k in calls && Rows(Tables())[k] == calls[k].tokens
    {
    }

    lemma WindowOf(cutoff: int)
      requires Valid()
      ensures forall k | k in calls ::
        k in Window(Tables(), cutoff) <==> calls[k].model && cutoff <= StartedAt(Tables(), k)
      ensures forall k | k in Window(Tables(), cutoff) :: k in calls && Window(Tables(), cutoff)[k] == calls[k].tokens
    {
    }

    /** The start a fetched row is counted under. */
    method CallStartedAt(k: CallKey) returns (at: int)
      requires Valid() && k in calls
      ensures at == StartedAt(Tables(), k)
    {
      at := if calls[k].startedAt.Some? then calls[k].startedAt.value else runs[k.0].createdAt;
    }

    /** One pass over the call rows, then one over the reservations. */
    method SumCommittedModelTokens(startedAt: int) returns (total: int)
      requires Valid()
      ensures total == Committed(Tables(), startedAt)
    {
      hide Sum, Rows, Window, Tallies, SeenOutside, Of, NotOf;
      var totalActual: map<RunId, int> := map r | r in reservations :: 0;
      var windowActual: map<RunId, int> := map r | r in reservations :: 0;
      var unreservedWindowActual := 0;
      var pending := calls.Keys;
      ghost var done: set<CallKey> := {};
      ghost var rows, window := Rows(Tables()), Window(Tables(), startedAt);
      RowsOf();
      WindowOf(startedAt);
      TallyNothing(totalActual, rows);
      TallyNothing(windowActual, window);
      NothingFetched(window, "", reservations.Keys);
      while pending != {}
        invariant done !! pending && done + pending == calls.Keys
        invariant totalActual.Keys == windowActual.Keys == reservations.Keys
        invariant Tallies(totalActual, rows, done)
        invariant Tallies(windowActual, window, done)
        invariant unreservedWindowActual == SeenOutside(window, done, reservations.Keys)
        decreases pending
      {
        var k :| k in pending;
        var at := CallStartedAt(k);
        Tally(totalActual, rows, done, k);
        Tally(windowActual, window, done, k);
        FetchOutside(window, done, k, reservations.Keys);
        if calls[k].model {
          if k.0 !in reservations {
            if startedAt <= at {
              unreservedWindowActual := unreservedWindowActual + calls[k].tokens;
            }
          } else {
            totalActual := totalActual[k.0 := totalActual[k.0] + calls[k].tokens];
            if startedAt <= at {
              windowActual := windowActual[k.0 := windowActual[k.0] + calls[k].tokens];
            }
          }
        }
        pending := pending - {k};
        done := done + {k};
      }
      TallyAll(totalActual, rows, done);
      TallyAll(windowActual, window, done);
      AllFetched(window, done, "", reservations.Keys);
      var active := SumCommitments(windowActual, totalActual, startedAt);
      total := unreservedWindowActual + active;
    }

    method SumCommitments(windowActual: map<RunId, int>, totalActual: map<RunId, int>, ghost startedAt: int)
      returns (total: int)
      requires Valid()
      requires windowActual.Keys == totalActual.Keys == reservations.Keys
      requires forall r | r in reservations ::
        && windowActual[r] == Sum(Of(Window(Tables(), startedAt), {r}))
        && totalActual[r] == Total(Tables(), r)
      ensures total == Sum(Commitments(Tables(), startedAt))
    {
      hide Sum, Total, Window, Of;
      total := 0;
      var pending := reservations.Keys;
      ghost var commitments := Commitments(Tables(), startedAt);
      ghost var counted: map<RunId, int> := map[];
      assert Sum(counted) == 0 by { EmptySum(); }
      while pending != {}
        invariant pending <= reservations.Keys
        invariant counted == commitments - pending
        invariant total == Sum(counted)
        decreases pending
      {
        var r :| r in pending;
        With(counted, r, commitments[r]);
        total := total + windowActual[r] + Max(reservations[r] - totalActual[r], 0);
        pending := pending - {r};
        counted := counted[r := commitments[r]];
      }
      assert counted == commitments;
    }

    lemma EmptySum()
      ensures Sum<RunId>(map[]) == 0
    {
    }

    method ReserveModelTokens(run: RunId, tokens: int, asOf: int, limits: Limits) returns (verdict: Verdict)
      requires Valid()
      modifies this`reservations
      ensures Valid()
      ensures (Tables(), verdict) == Reserve(old(Tables()), run, tokens, asOf, limits)
      ensures run !in old(reservations) && 0 < tokens ==>
        Answers(old(Tables()), run, tokens, asOf, limits, Tables(), verdict)
      ensures run in old(reservations) || tokens <= 0 ==> Tables() == old(Tables()) && verdict != Granted
    {
      hide Committed, Answers;
      if run !in reservations && 0 < tokens {
        ReserveAnswers(Tables(), run, tokens, asOf, limits);
      }
      var hourly := SumCommittedModelTokens(asOf - HOUR);
      var daily := SumCommittedModelTokens(asOf - DAY);
      if hourly + tokens > limits.hourly {
        return HourlyExceeded;
      }
      if daily + tokens > limits.daily {
        return DailyExceeded;
      }
      if run in reservations || tokens <= 0 {
        return Raised;
      }
      reservations := reservations[run := tokens];
      return Granted;
    }

    method ExpandModelTokenReservation(run: RunId, ceiling: int, asOf: int, limits: Limits)
      returns (verdict: Verdict)
      requires Valid()
      modifies this`reservations
      ensures Valid()
      ensures (Tables(), verdict) == Expand(old(Tables()), run, ceiling, asOf, limits)
      ensures run !in old(reservations) ==> Tables() == old(Tables()) && verdict == Raised
      ensures run in old(reservations) ==>
        var required := Total(old(Tables()), run) + ceiling;
        if required <= old(reservations[run]) then Tables() == old(Tables()) && verdict == Granted
        else Answers(old(Tables()), run, required, asOf, limits, Tables(), verdict)
    {
      hide Committed, Total, Answers;
      if run in reservations {
        ExpandAnswers(Tables(), run, ceiling, asOf, limits);
      }
      if run !in reservations {
        return Raised;
      }
      var actual := SumModelTokensForRun(run);
      var required := actual + ceiling;
      if required <= reservations[run] {
        return Granted;
      }
      var increase := required - reservations[run];
      var hourly := SumCommittedModelTokens(asOf - HOUR);
      var daily := SumCommittedModelTokens(asOf - DAY);
      if hourly + increase > limits.hourly {
        return HourlyExceeded;
      }
      if daily + increase > limits.daily {
        return DailyExceeded;
      }
      reservations := reservations[run := required];
      return Granted;
    }

    method AppendOpenAICall(run: RunId, sequence: nat, record: CallRow) returns (verdict: Verdict)
      requires Valid()
      modifies this`calls, this`reservations
      ensures Valid()
      ensures (Tables(), verdict) == Append(old(Tables()), (run, sequence), record)
    {
      hide Total;
      if (run, sequence) in calls || run !in runs {
        return Raised;
      }
      calls := calls[(run, sequence) := record];
      if record.model {
        var actual := SumModelTokensForRun(run);
        assert Tables() == Insert(old(Tables()), (run, sequence), record);
        if run in reservations {
          reservations := reservations[run := Max(reservations[run], actual)];
        }
      }
      return Granted;
    }

    method ReleaseModelTokenReservation(run: RunId)
      modifies this`reservations
      ensures Tables() == Release(old(Tables()), run)
    {
      reservations := reservations - {run};
    }

    method ReleaseTerminalOrOrphanTokenReservations() returns (released: nat)
      modifies this`reservations
      ensures Tables() == ReleaseInactive(old(Tables()))
      ensures released == |old(reservations)| - |reservations|
    {
      var kept := map r | r in reservations && r in runs && runs[r].status in {Queued, Running} :: reservations[r];
      assert kept.Keys <= reservations.Keys;
      Subset(kept.Keys, reservations.Keys);
      released := |reservations| - |kept|;
      reservations := kept;
    }

    lemma {:induction false} Subset(a: set<RunId>, b: set<RunId>)
      requires a <= b
      ensures |a| <= |b|
    {
      assert b == a + (b - a);
    }

    method DeleteRunsCreatedBefore(cutoff: int)
      modifies this
      ensures Tables() == DeleteBefore(old(Tables()), cutoff)
    {
      reservations := map r | r in reservations && !(r in runs && runs[r].createdAt < cutoff) :: reservations[r];
      var kept := map r | r in runs && runs[r].createdAt >= cutoff :: runs[r];
      calls := map k | k in calls && !(k.0 in runs && runs[k.0].createdAt < cutoff) :: calls[k];
      runs := kept;
    }

    method CreateRun(run: RunId, createdAt: int) returns (verdict: Verdict)
      modifies this`runs
      ensures (Tables(), verdict) == TokenTables.CreateRun(old(Tables()), run, createdAt)
    {
      if run in runs {
        return Raised;
      }
      runs := runs[run := RunRow(Queued, createdAt)];
      return Granted;
    }

    method UpdateRun(run: RunId, status: RunStatus)
      modifies this`runs
      ensures Tables() == SetStatus(old(Tables()), run, status)
    {
      if run in runs {
        runs := runs[run := runs[run].(status := status)];
      }
    }
  }
}
