/**
 The persisted rows that carry the model-token budget, and what each database
 transaction does to them. A transaction is one atomic step.
 */
module TokenTables {
  import opened Models
  import opened Sums

  type RunId = string
  type CallKey = (RunId, nat)

  datatype RunRow = RunRow(status: RunStatus, createdAt: int)

  datatype CallRow = CallRow(model: bool, tokens: nat, startedAt: Option<int>)

  datatype Tables = Tables(
    runs: map<RunId, RunRow>,
    reservations: map<RunId, int>,
    calls: map<CallKey, CallRow>)

  /** What the schema enforces: foreign keys and the positivity check. */
  ghost predicate Consistent(t: Tables) {
    && (forall k | k in t.calls :: k.0 in t.runs)
    && (forall r | r in t.reservations :: 0 < t.reservations[r])
  }

  function StartedAt(t: Tables, k: CallKey): int
    requires k in t.calls && k.0 in t.runs
  {
    match t.calls[k].startedAt
    case Some(at) => at
    case None => t.runs[k.0].createdAt
  }

  /** Tokens of every recorded model call. */
  ghost function Rows(t: Tables): map<CallKey, int> {
    map k | k in t.calls && t.calls[k].model :: t.calls[k].tokens
  }

  /** Tokens of the model calls that started at or after the cutoff. */
  ghost function Window(t: Tables, cutoff: int): map<CallKey, int>
    requires Consistent(t)
  {
    map k | k in t.calls && t.calls[k].model && cutoff <= StartedAt(t, k) :: t.calls[k].tokens
  }

  ghost function Of(rows: map<CallKey, int>, runs: set<RunId>): map<CallKey, int> {
    map k | k in rows && k.0 in runs :: rows[k]
  }

  ghost function NotOf(rows: map<CallKey, int>, runs: set<RunId>): map<CallKey, int> {
    map k | k in rows && k.0 !in runs :: rows[k]
  }

  ghost function Total(t: Tables, run: RunId): int {
    Sum(Of(Rows(t), {run}))
  }

  /** Usage recorded inside the rolling window. */
  ghost function Recorded(t: Tables, cutoff: int): int
    requires Consistent(t)
  {
    Sum(Window(t, cutoff))
  }

  ghost function Unspent(t: Tables): map<RunId, int> {
    map r | r in t.reservations :: Max(t.reservations[r] - Total(t, r), 0)
  }

  ghost function Commitments(t: Tables, cutoff: int): map<RunId, int>
    requires Consistent(t)
  {
    map r | r in t.reservations ::
      Sum(Of(Window(t, cutoff), {r})) + Max(t.reservations[r] - Total(t, r), 0)
  }

  /** Window usage of unreserved runs plus every reserved run's commitment. */
  ghost function Committed(t: Tables, cutoff: int): int
    requires Consistent(t)
  {
    Sum(NotOf(Window(t, cutoff), t.reservations.Keys)) + Sum(Commitments(t, cutoff))
  }

  // ----- transactions -----

  datatype Limits = Limits(hourly: int, daily: int)

  const HOUR := 3600
  const DAY := 86400

  datatype Verdict = Granted | HourlyExceeded | DailyExceeded | Raised

  ghost function Fits(t: Tables, increase: int, asOf: int, limits: Limits): Verdict
    requires Consistent(t)
  {
    if Committed(t, asOf - HOUR) + increase > limits.hourly then HourlyExceeded
    else if Committed(t, asOf - DAY) + increase > limits.daily then DailyExceeded
    else Granted
  }

  ghost function Reserve(t: Tables, run: RunId, tokens: int, asOf: int, limits: Limits): (Tables, Verdict)
    requires Consistent(t)
  {
    var fits := Fits(t, tokens, asOf, limits);
    if fits != Granted then (t, fits)
    else if run in t.reservations || tokens <= 0 then (t, Raised)
    else (t.(reservations := t.reservations[run := tokens]), Granted)
  }

  ghost function Expand(t: Tables, run: RunId, ceiling: int, asOf: int, limits: Limits): (Tables, Verdict)
    requires Consistent(t)
  {
    if run !in t.reservations then (t, Raised)
    else
      var required := Total(t, run) + ceiling;
      if required <= t.reservations[run] then (t, Granted)
      else
        var fits := Fits(t, required - t.reservations[run], asOf, limits);
        if fits != Granted then (t, fits)
        else (t.(reservations := t.reservations[run := required]), Granted)
  }

  ghost function Insert(t: Tables, k: CallKey, call: CallRow): Tables {
    t.(calls := t.calls[k := call])
  }

  ghost function Append(t: Tables, k: CallKey, call: CallRow): (Tables, Verdict) {
    if k in t.calls || k.0 !in t.runs then (t, Raised)
    else
      var t' := Insert(t, k, call);
      if call.model && k.0 in t.reservations then
        (t'.(reservations := t.reservations[k.0 := Max(t.reservations[k.0], Total(t', k.0))]), Granted)
      else (t', Granted)
  }

  function Release(t: Tables, run: RunId): Tables {
    t.(reservations := t.reservations - {run})
  }

  predicate Active(t: Tables, run: RunId) {
    run in t.runs && t.runs[run].status in {Queued, Running}
  }

  function ReleaseInactive(t: Tables): Tables {
    t.(reservations := map r | r in t.reservations && Active(t, r) :: t.reservations[r])
  }

  predicate Expired(t: Tables, run: RunId, cutoff: int) {
    run in t.runs && t.runs[run].createdAt < cutoff
  }

  function DeleteBefore(t: Tables, cutoff: int): Tables {
    Tables(
      map r | r in t.runs && !Expired(t, r, cutoff) :: t.runs[r],
      map r | r in t.reservations && !Expired(t, r, cutoff) :: t.reservations[r],
      map k | k in t.calls && !Expired(t, k.0, cutoff) :: t.calls[k])
  }

  function CreateRun(t: Tables, run: RunId, createdAt: int): (Tables, Verdict) {
    if run in t.runs then (t, Raised)
    else (t.(runs := t.runs[run := RunRow(Queued, createdAt)]), Granted)
  }

  function SetStatus(t: Tables, run: RunId, status: RunStatus): Tables {
    if run in t.runs then t.(runs := t.runs[run := t.runs[run].(status := status)]) else t
  }
}
