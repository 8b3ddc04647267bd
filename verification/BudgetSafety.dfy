/**
 Budget safety of the token tables under every interleaving of the transactions
 that any number of runs and processes may issue.
 */
module BudgetSafety {
  import opened Models
  import opened Sums
  import opened TokenTables

  // ----- conservation -----

  lemma SplitByRuns(rows: map<CallKey, int>, runs: set<RunId>)
    ensures Sum(rows) == Sum(Of(rows, runs)) + Sum(NotOf(rows, runs))
  {
    assert rows == Of(rows, runs) + NotOf(rows, runs);
    Union(Of(rows, runs), NotOf(rows, runs));
  }

  ghost function PerRun(rows: map<CallKey, int>, runs: set<RunId>): map<RunId, int> {
    map r | r in runs :: Sum(Of(rows, {r}))
  }

  /** Adding up run by run counts every row exactly once. */
  lemma {:induction false} GroupByRun(rows: map<CallKey, int>, runs: set<RunId>)
    ensures Sum(PerRun(rows, runs)) == Sum(Of(rows, runs))
    decreases runs
  {
    if runs == {} {
      assert Of(rows, runs) == map[] && PerRun(rows, runs) == map[];
    } else {
      var r :| r in runs;
      var rest := runs - {r};
      GroupByRun(rows, rest);
      SplitByRuns(Of(rows, runs), {r});
      assert Of(Of(rows, runs), {r}) == Of(rows, {r});
      assert NotOf(Of(rows, runs), {r}) == Of(rows, rest);
      Without(PerRun(rows, runs), r);
      assert PerRun(rows, runs) - {r} == PerRun(rows, rest);
    }
  }

  lemma {:induction false} SumPointwise(a: map<RunId, int>, b: map<RunId, int>, c: map<RunId, int>)
    requires a.Keys == b.Keys == c.Keys
    requires forall r | r in c :: c[r] == a[r] + b[r]
    ensures Sum(c) == Sum(a) + Sum(b)
    decreases |a|
  {
    if a == map[] {
      assert b == map[] && c == map[];
    } else {
      var r :| r in a;
      Without(a, r);
      Without(b, r);
      Without(c, r);
      SumPointwise(a - {r}, b - {r}, c - {r});
    }
  }

  /** Nothing is counted twice: committed capacity is recorded usage plus unspent reservations. */
  lemma CommittedIsRecordedPlusUnspent(t: Tables, cutoff: int)
    requires Consistent(t)
    ensures Committed(t, cutoff) == Recorded(t, cutoff) + Sum(Unspent(t))
  {
    var rows, runs := Window(t, cutoff), t.reservations.Keys;
    SplitByRuns(rows, runs);
    GroupByRun(rows, runs);
    SumPointwise(PerRun(rows, runs), Unspent(t), Commitments(t, cutoff));
  }

  lemma RecordedWithinCommitted(t: Tables, cutoff: int)
    requires Consistent(t)
    ensures Recorded(t, cutoff) <= Committed(t, cutoff)
  {
    hide Committed, Recorded, Total, Sum, Consistent;
    CommittedIsRecordedPlusUnspent(t, cutoff);
    NonNegative(Unspent(t));
  }

  /** A later cutoff never counts more. */
  lemma LaterCutoff(t: Tables, c: int, d: int)
    requires Consistent(t) && c <= d
    ensures Committed(t, d) <= Committed(t, c)
  {
    CommittedIsRecordedPlusUnspent(t, c);
    CommittedIsRecordedPlusUnspent(t, d);
    Monotone(Window(t, d), Window(t, c));
  }

  // ----- effect of each transaction on committed capacity -----

  /** Only call rows and run creation times decide which usage is counted. */
  lemma SameUsage(t: Tables, t': Tables, cutoff: int)
    requires Consistent(t)
    requires t'.calls == t.calls && t.runs.Keys <= t'.runs.Keys
    requires forall r | r in t.runs :: t'.runs[r].createdAt == t.runs[r].createdAt
    requires forall r | r in t'.reservations :: 0 < t'.reservations[r]
    ensures Consistent(t') && Window(t', cutoff) == Window(t, cutoff)
    ensures Recorded(t', cutoff) == Recorded(t, cutoff)
    ensures forall r :: Total(t', r) == Total(t, r)
  {
    hide Sum;
    assert Rows(t') == Rows(t);
  }

  lemma SetReservation(t: Tables, run: RunId, amount: int, cutoff: int)
    requires Consistent(t) && 0 < amount
    ensures var t' := t.(reservations := t.reservations[run := amount]);
      && Consistent(t')
      && Committed(t', cutoff) == Committed(t, cutoff) + Max(amount - Total(t, run), 0)
           - (if run in t.reservations then Max(t.reservations[run] - Total(t, run), 0) else 0)
  {
    hide Sum, Total, Window, Recorded, Committed;
    var t' := t.(reservations := t.reservations[run := amount]);
    SameUsage(t, t', cutoff);
    CommittedIsRecordedPlusUnspent(t, cutoff);
    CommittedIsRecordedPlusUnspent(t', cutoff);
    Without(Unspent(t'), run);
    if run in t.reservations {
      Without(Unspent(t), run);
      assert Unspent(t') - {run} == Unspent(t) - {run};
    } else {
      assert Unspent(t') - {run} == Unspent(t);
    }
  }

  /** Dropping reservations of any set of runs only frees capacity. */
  lemma DropReservations(t: Tables, t': Tables, cutoff: int)
    requires Consistent(t)
    requires t'.runs == t.runs && t'.calls == t.calls
    requires t'.reservations.Keys <= t.reservations.Keys
    requires forall r | r in t'.reservations :: t'.reservations[r] == t.reservations[r]
    ensures Consistent(t') && Committed(t', cutoff) <= Committed(t, cutoff)
  {
    hide Sum, Total, Window, Recorded, Committed;
    SameUsage(t, t', cutoff);
    CommittedIsRecordedPlusUnspent(t, cutoff);
    CommittedIsRecordedPlusUnspent(t', cutoff);
    Monotone(Unspent(t'), Unspent(t));
  }

  lemma InsertRecorded(t: Tables, k: CallKey, call: CallRow, cutoff: int)
    requires Consistent(t) && k !in t.calls && k.0 in t.runs
    ensures var t' := Insert(t, k, call);
      && Consistent(t')
      && Recorded(t', cutoff) == Recorded(t, cutoff)
           + (if call.model && cutoff <= StartedAt(t', k) then call.tokens else 0)
  {
    hide Sum;
    var t' := Insert(t, k, call);
    if call.model && cutoff <= StartedAt(t', k) {
      assert Window(t', cutoff) == Window(t, cutoff)[k := call.tokens];
      With(Window(t, cutoff), k, call.tokens);
    } else {
      assert Window(t', cutoff) == Window(t, cutoff);
    }
  }

  lemma InsertTotal(t: Tables, k: CallKey, call: CallRow, run: RunId)
    requires k !in t.calls
    ensures Total(Insert(t, k, call), run) == Total(t, run) + (if call.model && run == k.0 then call.tokens else 0)
  {
    hide Sum;
    var rows, rows' := Of(Rows(t), {run}), Of(Rows(Insert(t, k, call)), {run});
    if call.model && run == k.0 {
      assert rows' == rows[k := call.tokens];
      With(rows, k, call.tokens);
    } else {
      assert rows' == rows;
    }
  }

  /** What is left of a run's reservation. */
  ghost function Remaining(t: Tables, run: RunId): int {
    if run in t.reservations then Max(t.reservations[run] - Total(t, run), 0) else 0
  }

  /**
   The exact effect of recording a model call: its tokens enter the window and at most the
   run's remaining reservation pays for them. The rest is an overshoot of the budget.
   */
  lemma AppendExactly(t: Tables, k: CallKey, call: CallRow, cutoff: int)
    requires Consistent(t) && k !in t.calls && k.0 in t.runs && call.model
    ensures var t' := Append(t, k, call).0;
      && Consistent(t')
      && Committed(t', cutoff) == Committed(t, cutoff)
           + (if cutoff <= StartedAt(t', k) then call.tokens else 0)
           - (if call.tokens <= Remaining(t, k.0) then call.tokens else Remaining(t, k.0))
  {
    hide Sum, Total, Window, Recorded, Committed;
    var t', middle := Append(t, k, call).0, Insert(t, k, call);
    InsertRecorded(t, k, call, cutoff);
    TotalNonNegative(middle, k.0);
    SameUsage(middle, t', cutoff);
    CommittedIsRecordedPlusUnspent(t, cutoff);
    CommittedIsRecordedPlusUnspent(t', cutoff);
    UnspentAfterAppend(t, k, call);
  }

  lemma UnspentAfterAppend(t: Tables, k: CallKey, call: CallRow)
    requires k !in t.calls && k.0 in t.runs && call.model
    ensures Sum(Unspent(Append(t, k, call).0)) == Sum(Unspent(t))
              - (if call.tokens <= Remaining(t, k.0) then call.tokens else Remaining(t, k.0))
  {
    hide Sum, Total;
    var t' := Append(t, k, call).0;
    forall r ensures Total(t', r) == Total(t, r) + (if r == k.0 then call.tokens else 0) {
      InsertTotal(t, k, call, r);
      SameTotal(Insert(t, k, call), t', r);
    }
    if k.0 in t.reservations {
      Without(Unspent(t), k.0);
      Without(Unspent(t'), k.0);
      SameTotal(Insert(t, k, call), t', k.0);
      assert Unspent(t') - {k.0} == Unspent(t) - {k.0};
    } else {
      assert Unspent(t') == Unspent(t);
    }
  }

  lemma SameTotal(t: Tables, t': Tables, run: RunId)
    requires t'.calls == t.calls
    ensures Total(t', run) == Total(t, run)
  {
    assert Rows(t') == Rows(t);
  }

  lemma TotalNonNegative(t: Tables, run: RunId)
    ensures 0 <= Total(t, run)
  {
    NonNegative(Of(Rows(t), {run}));
  }

  /** A call that fits what is left of its reservation moves capacity, it adds none. */
  lemma AppendEffect(t: Tables, k: CallKey, call: CallRow, cutoff: int)
    requires Consistent(t)
    requires call.model ==> k.0 in t.reservations && Total(t, k.0) + call.tokens <= t.reservations[k.0]
    ensures var t' := Append(t, k, call).0;
      && Consistent(t')
      && t'.reservations == t.reservations
      && Committed(t', cutoff) <= Committed(t, cutoff)
  {
    hide Sum, Total, Window, Recorded, Committed;
    if k !in t.calls && k.0 in t.runs {
      var t' := Append(t, k, call).0;
      InsertTotal(t, k, call, k.0);
      if call.model {
        AppendExactly(t, k, call, cutoff);
      } else {
        InsertRecorded(t, k, call, cutoff);
        CommittedIsRecordedPlusUnspent(t, cutoff);
        CommittedIsRecordedPlusUnspent(t', cutoff);
        forall r ensures Total(t', r) == Total(t, r) { InsertTotal(t, k, call, r); }
        assert Unspent(t') == Unspent(t);
      }
    }
  }

  lemma DeleteTotal(t: Tables, before: int, run: RunId)
    requires !Expired(t, run, before)
    ensures Total(DeleteBefore(t, before), run) == Total(t, run)
  {
    hide Sum;
    assert Of(Rows(DeleteBefore(t, before)), {run}) == Of(Rows(t), {run});
  }

  lemma DeleteRecorded(t: Tables, before: int, cutoff: int)
    requires Consistent(t)
    ensures Consistent(DeleteBefore(t, before))
    ensures Recorded(DeleteBefore(t, before), cutoff) <= Recorded(t, cutoff)
  {
    hide Sum;
    Monotone(Window(DeleteBefore(t, before), cutoff), Window(t, cutoff));
  }

  /** Retention removes whole runs, with their reservations and their calls. */
  lemma DeleteEffect(t: Tables, before: int, cutoff: int)
    requires Consistent(t)
    ensures var t' := DeleteBefore(t, before);
      && Consistent(t')
      && Committed(t', cutoff) <= Committed(t, cutoff)
      && (forall r | !Expired(t, r, before) :: Total(t', r) == Total(t, r))
  {
    hide Sum, Total, Window, Recorded, Committed;
    var t' := DeleteBefore(t, before);
    forall r | !Expired(t, r, before) ensures Total(t', r) == Total(t, r) {
      DeleteTotal(t, before, r);
    }
    DeleteRecorded(t, before, cutoff);
    CommittedIsRecordedPlusUnspent(t, cutoff);
    CommittedIsRecordedPlusUnspent(t', cutoff);
    Monotone(Unspent(t'), Unspent(t));
  }

  lemma RunRowsEffect(t: Tables, t': Tables, cutoff: int)
    requires Consistent(t)
    requires t'.reservations == t.reservations && t'.calls == t.calls && t.runs.Keys <= t'.runs.Keys
    requires forall r | r in t.runs :: t'.runs[r].createdAt == t.runs[r].createdAt
    ensures Consistent(t') && Committed(t', cutoff) == Committed(t, cutoff)
    ensures forall r :: Total(t', r) == Total(t, r)
  {
    hide Sum, Total, Window, Recorded, Committed;
    SameUsage(t, t', cutoff);
    CommittedIsRecordedPlusUnspent(t, cutoff);
    CommittedIsRecordedPlusUnspent(t', cutoff);
    assert Unspent(t') == Unspent(t);
  }

  // ----- interleavings -----

  /** The tables, the clock, and the ceiling of the call each run is waiting for. */
  datatype World = World(t: Tables, now: int, outstanding: map<RunId, int>)

  datatype Step =
    | DoCreateRun(run: RunId)
    | DoSetStatus(run: RunId, status: RunStatus)
    | DoReserve(run: RunId, tokens: int, asOf: int)
    | DoExpand(run: RunId, ceiling: int, asOf: int)
    | DoAppend(key: CallKey, call: CallRow)
    | DoAbandonCall(run: RunId)
    | DoRelease(run: RunId)
    | DoReleaseInactive
    | DoDeleteBefore(cutoff: int)
    | DoAdvance(to: int)

  /**
   What the callers do: they read the clock before the transaction, send one call per
   granted ceiling, and release a run only when no call of it is outstanding.
   */
  ghost predicate Disciplined(w: World, s: Step) {
    match s
    case DoReserve(_, _, asOf) => asOf <= w.now
    case DoExpand(_, _, asOf) => asOf <= w.now
    case DoAppend(k, call) => call.model ==> k.0 in w.outstanding && call.tokens <= w.outstanding[k.0]
    case DoRelease(run) => run !in w.outstanding
    case DoReleaseInactive => forall r | r in w.outstanding :: Active(w.t, r)
    case DoDeleteBefore(cutoff) => forall r | r in w.outstanding :: !Expired(w.t, r, cutoff)
    case DoAdvance(to) => w.now <= to
    case _ => true
  }

  ghost function Apply(w: World, s: Step, limits: Limits): World
    requires Consistent(w.t)
  {
    match s
    case DoCreateRun(run) => w.(t := CreateRun(w.t, run, w.now).0)
    case DoSetStatus(run, status) => w.(t := SetStatus(w.t, run, status))
    case DoReserve(run, tokens, asOf) => w.(t := Reserve(w.t, run, tokens, asOf, limits).0)
    case DoExpand(run, ceiling, asOf) =>
      var (t', verdict) := Expand(w.t, run, ceiling, asOf, limits);
      w.(t := t', outstanding := if verdict == Granted then w.outstanding[run := ceiling] else w.outstanding)
    case DoAppend(k, call) =>
      var (t', verdict) := Append(w.t, k, call);
      w.(t := t', outstanding := if verdict == Granted && call.model then w.outstanding - {k.0} else w.outstanding)
    case DoAbandonCall(run) => w.(outstanding := w.outstanding - {run})
    case DoRelease(run) => w.(t := Release(w.t, run))
    case DoReleaseInactive => w.(t := ReleaseInactive(w.t))
    case DoDeleteBefore(cutoff) => w.(t := DeleteBefore(w.t, cutoff))
    case DoAdvance(to) => w.(now := to)
  }

  /** Both rolling limits hold for committed capacity, and so for recorded usage. */
  ghost predicate WithinBudget(t: Tables, now: int, limits: Limits) {
    && Consistent(t)
    && Recorded(t, now - HOUR) <= Committed(t, now - HOUR) <= limits.hourly
    && Recorded(t, now - DAY) <= Committed(t, now - DAY) <= limits.daily
  }

  /** Every outstanding call is covered by what is left of its run's reservation. */
  ghost predicate CallsCovered(w: World) {
    forall r | r in w.outstanding ::
      r in w.t.reservations && Total(w.t, r) + w.outstanding[r] <= w.t.reservations[r]
  }

  ghost predicate Safe(w: World, limits: Limits) {
    WithinBudget(w.t, w.now, limits) && CallsCovered(w)
  }

  lemma Confirm(t: Tables, now: int, limits: Limits)
    requires Consistent(t)
    requires Committed(t, now - HOUR) <= limits.hourly && Committed(t, now - DAY) <= limits.daily
    ensures WithinBudget(t, now, limits)
  {
    hide Sum, Total, Window, Recorded, Committed;
    RecordedWithinCommitted(t, now - HOUR);
    RecordedWithinCommitted(t, now - DAY);
  }

  lemma SetWithinLimits(w: World, run: RunId, amount: int, increase: int, asOf: int, limits: Limits)
    requires Safe(w, limits) && asOf <= w.now && 0 < amount
    requires Fits(w.t, increase, asOf, limits) == Granted
    requires Max(amount - Total(w.t, run), 0)
          - (if run in w.t.reservations then Max(w.t.reservations[run] - Total(w.t, run), 0) else 0) <= increase
    ensures WithinBudget(w.t.(reservations := w.t.reservations[run := amount]), w.now, limits)
  {
    hide Sum, Total, Window, Recorded, Committed;
    LaterCutoff(w.t, asOf - HOUR, w.now - HOUR);
    LaterCutoff(w.t, asOf - DAY, w.now - DAY);
    SetReservation(w.t, run, amount, w.now - HOUR);
    SetReservation(w.t, run, amount, w.now - DAY);
    Confirm(w.t.(reservations := w.t.reservations[run := amount]), w.now, limits);
  }

  lemma ReserveKeepsSafe(w: World, run: RunId, tokens: int, asOf: int, limits: Limits)
    requires Safe(w, limits) && asOf <= w.now
    ensures Safe(Apply(w, DoReserve(run, tokens, asOf), limits), limits)
  {
    hide Sum, Total, Window, Recorded, Committed;
    var (t', verdict) := Reserve(w.t, run, tokens, asOf, limits);
    if verdict == Granted {
      TotalNonNegative(w.t, run);
      SetWithinLimits(w, run, tokens, tokens, asOf, limits);
      SameUsage(w.t, t', 0);
    }
  }

  lemma ExpandKeepsSafe(w: World, run: RunId, ceiling: int, asOf: int, limits: Limits)
    requires Safe(w, limits) && asOf <= w.now
    ensures Safe(Apply(w, DoExpand(run, ceiling, asOf), limits), limits)
  {
    hide Sum, Total, Window, Recorded, Committed;
    var (t', verdict) := Expand(w.t, run, ceiling, asOf, limits);
    if verdict == Granted && t' != w.t {
      SameUsage(w.t, t', 0);
      var required := Total(w.t, run) + ceiling;
      SetWithinLimits(w, run, required, required - w.t.reservations[run], asOf, limits);
    }
  }

  lemma AppendKeepsSafe(w: World, k: CallKey, call: CallRow, limits: Limits)
    requires Safe(w, limits) && Disciplined(w, DoAppend(k, call))
    ensures Safe(Apply(w, DoAppend(k, call), limits), limits)
  {
    hide Sum, Total, Window, Recorded, Committed;
    AppendEffect(w.t, k, call, w.now - HOUR);
    AppendEffect(w.t, k, call, w.now - DAY);
    forall r ensures k !in w.t.calls ==>
      Total(Insert(w.t, k, call), r) == Total(w.t, r) + (if call.model && r == k.0 then call.tokens else 0)
    {
      if k !in w.t.calls { InsertTotal(w.t, k, call, r); }
    }
    Confirm(Append(w.t, k, call).0, w.now, limits);
  }

  /** One step of any run, in any order, keeps the budget. */
  lemma StepKeepsSafe(w: World, s: Step, limits: Limits)
    requires Safe(w, limits) && Disciplined(w, s)
    ensures Safe(Apply(w, s, limits), limits)
  {
    hide Sum, Total, Window, Recorded, Committed;
    var w' := Apply(w, s, limits);
    match s
    case DoReserve(run, tokens, asOf) => ReserveKeepsSafe(w, run, tokens, asOf, limits);
    case DoExpand(run, ceiling, asOf) => ExpandKeepsSafe(w, run, ceiling, asOf, limits);
    case DoAppend(k, call) => AppendKeepsSafe(w, k, call, limits);
    case DoRelease(_) => DropKeepsSafe(w, w'.t, limits);
    case DoReleaseInactive => DropKeepsSafe(w, w'.t, limits);
    case DoDeleteBefore(cutoff) =>
      DeleteEffect(w.t, cutoff, w.now - HOUR);
      DeleteEffect(w.t, cutoff, w.now - DAY);
      Confirm(w'.t, w.now, limits);
    case DoAdvance(to) =>
      LaterCutoff(w.t, w.now - HOUR, to - HOUR);
      LaterCutoff(w.t, w.now - DAY, to - DAY);
      Confirm(w.t, to, limits);
    case DoCreateRun(_) => RunRowsKeepSafe(w, w'.t, limits);
    case DoSetStatus(_, _) => RunRowsKeepSafe(w, w'.t, limits);
    case DoAbandonCall(_) =>
  }

  lemma DropKeepsSafe(w: World, t': Tables, limits: Limits)
    requires Safe(w, limits)
    requires t'.runs == w.t.runs && t'.calls == w.t.calls
    requires t'.reservations.Keys <= w.t.reservations.Keys
    requires forall r | r in t'.reservations :: t'.reservations[r] == w.t.reservations[r]
    requires w.outstanding.Keys <= t'.reservations.Keys
    ensures Safe(w.(t := t'), limits)
  {
    hide Sum, Total, Window, Recorded, Committed;
    DropReservations(w.t, t', w.now - HOUR);
    DropReservations(w.t, t', w.now - DAY);
    Confirm(t', w.now, limits);
    SameUsage(w.t, t', 0);
  }

  lemma RunRowsKeepSafe(w: World, t': Tables, limits: Limits)
    requires Safe(w, limits)
    requires t'.reservations == w.t.reservations && t'.calls == w.t.calls && w.t.runs.Keys <= t'.runs.Keys
    requires forall r | r in w.t.runs :: t'.runs[r].createdAt == w.t.runs[r].createdAt
    ensures Safe(w.(t := t'), limits)
  {
    hide Sum, Total, Window, Recorded, Committed;
    RunRowsEffect(w.t, t', w.now - HOUR);
    RunRowsEffect(w.t, t', w.now - DAY);
    Confirm(t', w.now, limits);
  }

  /** The worlds an interleaving passes through, the first one included. */
  ghost predicate Execution(worlds: seq<World>, steps: seq<Step>, limits: Limits) {
    && |worlds| == |steps| + 1
    && forall i | 0 <= i < |steps| ::
         Consistent(worlds[i].t) ==>
           Disciplined(worlds[i], steps[i]) && worlds[i + 1] == Apply(worlds[i], steps[i], limits)
  }

  /** Every interleaving, from any safe start, stays inside both rolling limits at every point. */
  lemma {:induction false} BudgetSafety(worlds: seq<World>, steps: seq<Step>, limits: Limits, i: nat)
    requires Execution(worlds, steps, limits) && i < |worlds|
    requires Safe(worlds[0], limits)
    ensures Safe(worlds[i], limits)
  {
    if i != 0 {
      BudgetSafety(worlds, steps, limits, i - 1);
      StepKeepsSafe(worlds[i - 1], steps[i - 1], limits);
    }
  }

  lemma EmptyIsSafe(now: int, limits: Limits)
    requires 0 <= limits.hourly && 0 <= limits.daily
    ensures Safe(World(Tables(map[], map[], map[]), now, map[]), limits)
  {
    var t := Tables(map[], map[], map[]);
    assert Window(t, now - HOUR) == map[] && Window(t, now - DAY) == map[];
    assert Commitments(t, now - HOUR) == map[] && Commitments(t, now - DAY) == map[];
    assert NotOf(map[], {}) == map[];
    Confirm(t, now, limits);
  }
}
