/**
 One run from creation to delivery: the body, the finalizer, process crashes, startup
 reconciliation, on-demand reconciliation and the event stream, interleaved in any order.
 */
module RunLifecycle {
  import opened Models
  import opened RunStore

  /** What the server process is doing for this run. */
  datatype Process =
    | Down
    | Serving
    | Working(counter: nat, callCounter: nat)
    | Finalizing(f: Finalizer, boot: bool)
    | BootRecover
    | BootRelease

  /** One open event stream: its cursor, the events it fetched and the row it last read. */
  datatype Stream = Stream(cursor: nat, fetched: seq<Event>, seen: Option<Row>)

  datatype World = World(
    store: Store,
    process: Process,
    stream: Option<Stream>,
    delivered: set<EventType>)

  datatype Step =
    | StartRunning
    | Record(kind: EventType, ok: bool)
    | RecordCall(ok: bool)
    | BeginFinalizer(intent: Intent)
    | FinalizerOperation(ok: bool, readable: bool, digest: nat)
    | Crash
    | Boot
    | BootReconcile(readable: bool, committed: bool)
    | BootCleanup
    | ReconcileOnDemand(readable: bool, committed: bool)
    | DamageReceipt(erased: bool)
    | OpenStream(cursor: nat)
    | FetchEvents
    | ReadRow
    | HandleEvent(readable: bool)
    | CloseStream

  datatype Delivery = Uncommitted | ReceiptBacked | ReceiptlessInterruption

  /** How far the row has committed the outcome that a terminal event announces. */
  function DeliveryState(row: Row): Delivery {
    if !TerminalStatus(row.status) then Uncommitted
    else if row.receiptPath then ReceiptBacked
    else if row.status == Interrupted then ReceiptlessInterruption
    else Uncommitted
  }

  datatype ReceiptState = Ready | Pending | RetryLater | Invalid

  function ReceiptStateOf(row: Row, file: ReceiptFile, readable: bool): ReceiptState {
    match file
    case Missing => Invalid
    case _ =>
      if !readable then RetryLater
      else
        match Loaded(file)
        case None => Invalid
        case Some(r) =>
          if row.receiptDigest != Some(r.digest) then Invalid
          else if r.status == row.status then Ready
          else Pending
  }

  function Skip(s: Stream): Stream
    requires s.fetched != []
  {
    Stream(s.fetched[0].sequence, s.fetched[1..], None)
  }

  /** Whether the stream sends the event at the head of what it fetched. */
  predicate Sends(w: World, readable: bool) {
    && w.stream.Some?
    && w.stream.value.fetched != []
    && var kind := w.stream.value.fetched[0].kind;
       !Terminal(kind)
       || (&& w.stream.value.seen.Some?
           && var row := w.stream.value.seen.value;
              && DeliveryState(row) != Uncommitted
              && (DeliveryState(row) == ReceiptBacked ==> ReceiptStateOf(row, w.store.file, readable) == Ready)
              && kind in TerminalEvents(row.status))
  }

  function Handle(w: World, readable: bool): World {
    if w.stream.None? || w.stream.value.fetched == [] then w
    else
      var s := w.stream.value;
      var kind := s.fetched[0].kind;
      if Sends(w, readable) then
        w.(stream := Some(Skip(s)), delivered := w.delivered + {kind})
      else if s.seen.None? then w
      else
        var row := s.seen.value;
        match DeliveryState(row)
        case Uncommitted => w.(stream := Some(s.(fetched := [], seen := None)))
        case ReceiptlessInterruption => w.(stream := Some(Skip(s)))
        case ReceiptBacked =>
          match ReceiptStateOf(row, w.store.file, readable)
          case Ready => w.(stream := Some(Skip(s)))
          case Invalid => w.(stream := None)
          case _ => w.(stream := Some(s.(fetched := [], seen := None)))
  }

  predicate ServesRequests(p: Process) {
    p.Serving? || p.Working? || (p.Finalizing? && !p.boot)
  }

  /** A step that is not enabled changes nothing. */
  function Next(w: World, step: Step): World {
    match step
    case StartRunning =>
      if w.process.Working? then w.(store := w.store.(row := w.store.row.(status := Running))) else w
    case Record(kind, ok) =>
      if w.process.Working? then
        w.(store := w.store.(ledger := AppendRow(w.store.ledger, w.process.counter, kind, ok)),
           process := w.process.(counter := w.process.counter + 1))
      else w
    case RecordCall(ok) =>
      if w.process.Working? then
        w.(store := w.store.(calls := AppendCall(w.store.calls, w.process.callCounter, ok)),
           process := w.process.(callCounter := w.process.callCounter + 1))
      else w
    case BeginFinalizer(intent) =>
      if w.process.Working? && ValidIntent(intent) && intent.status != Interrupted then
        w.(process := Finalizing(Finalizer(AppendTerminal, intent, w.process.counter, None), false))
      else w
    case FinalizerOperation(ok, readable, digest) =>
      if !w.process.Finalizing? then w
      else if w.process.f.stage == Done then
        w.(store := if ok then w.store.(reserved := false) else w.store,
           process := if w.process.boot then BootRelease else Serving)
      else
        var (store, f) := FinalizerStep(w.store, w.process.f, ok, readable, digest);
        w.(store := store, process := Finalizing(f, w.process.boot))
    case Crash => w.(process := Down, stream := None)
    case Boot => if w.process.Down? then w.(process := BootRecover) else w
    case BootReconcile(readable, committed) =>
      if !w.process.BootRecover? then w
      else if !Recoverable(w.store.row) then w.(process := BootRelease)
      else
        var (store, outcome) := Recover(w.store, readable, committed);
        if outcome == Recovered || outcome == Retryable then w.(store := store, process := BootRelease)
        else
          w.(store := store,
             process := Finalizing(Finalizer(AppendTerminal, RECOVERY, LastSequence(store.ledger), None), true))
    case BootCleanup =>
      if !w.process.BootRelease? then w
      else
        w.(store := if w.store.row.status in {Queued, Running} then w.store else w.store.(reserved := false),
           process := Serving)
    case ReconcileOnDemand(readable, committed) =>
      if ServesRequests(w.process) then w.(store := ReconcilePending(w.store, readable, committed).0) else w
    case DamageReceipt(erased) =>
      if w.store.file.Sealed? then w.(store := w.store.(file := if erased then Missing else Corrupt)) else w
    case OpenStream(cursor) =>
      if ServesRequests(w.process) then w.(stream := Some(Stream(cursor, [], None))) else w
    case FetchEvents =>
      if w.stream.Some? then
        w.(stream := Some(w.stream.value.(fetched := After(w.store.ledger, w.stream.value.cursor), seen := None)))
      else w
    case ReadRow =>
      if w.stream.Some? then w.(stream := Some(w.stream.value.(seen := Some(w.store.row)))) else w
    case HandleEvent(readable) => Handle(w, readable)
    case CloseStream => w.(stream := None)
  }

  function After(events: seq<Event>, cursor: nat): seq<Event> {
    if events == [] then []
    else if events[0].sequence > cursor then [events[0]] + After(events[1..], cursor)
    else After(events[1..], cursor)
  }

  /** A freshly created run: queued, nothing recorded, its task about to start. */
  predicate Initial(w: World) {
    && w.store.row == Row(Queued, false, None)
    && w.store.ledger == [] && w.store.calls == []
    && w.store.file == Missing
    && w.process == Working(0, 0)
    && w.stream.None?
    && w.delivered == {}
  }

  ghost predicate Execution(worlds: seq<World>, steps: seq<Step>) {
    && |worlds| == |steps| + 1
    && Initial(worlds[0])
    && forall i | 0 <= i < |steps| :: worlds[i + 1] == Next(worlds[i], steps[i])
  }

  // ----- delivered outcomes are final -----

  /** No receipt on disk can turn an interruption into anything else. */
  predicate OnlyInterrupted(file: ReceiptFile) {
    file.Sealed? ==> file.receipt.status == Interrupted
  }

  /** A finalizer in flight writes over a run that has no settled outcome. */
  predicate FinalizerSound(store: Store, f: Finalizer, boot: bool) {
    && (if boot then f.intent == RECOVERY && Recoverable(store.row)
        else f.intent.status != Interrupted && store.row.status in {Queued, Running})
    && (f.stage in {AppendTerminal, SealReceipt} ==> f.snapshot.None?)
    && (f.stage == CommitReceipt ==> f.snapshot.Some?)
    && match f.snapshot
       case None => store.file.Missing?
       case Some(r) => r.status == f.intent.status && (store.file.Sealed? ==> store.file.receipt == r)
  }

  predicate ProcessSound(store: Store, process: Process) {
    match process
    case Working(_, _) => store.row.status in {Queued, Running} && store.file.Missing?
    case Finalizing(f, boot) => f.stage != Done ==> FinalizerSound(store, f, boot)
    case _ => true
  }

  predicate RowSound(store: Store) {
    && (store.row.status == Interrupted && !store.row.receiptPath ==> OnlyInterrupted(store.file))
    && (TerminalStatus(store.row.status) && store.row.status != Interrupted ==> store.row.receiptPath)
  }

  /** The run has this status for good. */
  predicate Settled(store: Store, process: Process, status: RunStatus) {
    && store.row.status == status
    && TerminalStatus(status)
    && (status == Interrupted ==> OnlyInterrupted(store.file))
    && !process.Working?
    && (process.Finalizing? && process.f.stage != Done
        ==> status == Interrupted && process.f.intent.status == Interrupted)
  }

  /** A row the stream has read still tells how the run ended. */
  predicate SnapshotSound(store: Store, process: Process, seen: Row) {
    && ServesRequests(process)
    && match DeliveryState(seen)
       case Uncommitted => true
       case ReceiptlessInterruption => Settled(store, process, Interrupted)
       case ReceiptBacked =>
         if seen.status != Interrupted then store.row == seen
         else
           && TerminalStatus(store.row.status)
           && (store.file.Sealed? && seen.receiptDigest == Some(store.file.receipt.digest) ==>
                 store.row == seen || store.row == CommittedRow(store.file.receipt))
  }

  predicate StreamSound(w: World) {
    w.stream.Some? ==>
      && ServesRequests(w.process)
      && (w.stream.value.seen.Some? ==> SnapshotSound(w.store, w.process, w.stream.value.seen.value))
  }

  predicate DeliveriesSettled(w: World) {
    forall e | e in w.delivered && Terminal(e) ::
      e in TerminalEvents(w.store.row.status) && Settled(w.store, w.process, w.store.row.status)
  }

  predicate Sound(w: World) {
    ProcessSound(w.store, w.process) && RowSound(w.store) && StreamSound(w) && DeliveriesSettled(w)
  }

  /** The durable evidence behind a row that announces an outcome. */
  predicate Backed(row: Row, file: ReceiptFile) {
    || (&& row.receiptPath
        && Loaded(file).Some?
        && Loaded(file).value.status == row.status
        && row.receiptDigest == Some(Loaded(file).value.digest))
    || (row.status == Interrupted && !row.receiptPath)
  }

  // ----- each durable operation preserves soundness -----

  /** What every operation keeps about the durable state and the process alone. */
  predicate Kept(store: Store, process: Process, store': Store, process': Process) {
    && ProcessSound(store', process')
    && RowSound(store')
    && (forall s | Settled(store, process, s) :: Settled(store', process', s))
  }

  lemma FinalizerKeeps(store: Store, f: Finalizer, boot: bool, ok: bool, readable: bool, digest: nat)
    requires ProcessSound(store, Finalizing(f, boot)) && RowSound(store) && f.stage != Done
    ensures var (store', f') := FinalizerStep(store, f, ok, readable, digest);
      Kept(store, Finalizing(f, boot), store', Finalizing(f', boot))
  {
  }

  lemma RecoverKeeps(store: Store, process: Process, readable: bool, committed: bool)
    requires ProcessSound(store, process) && RowSound(store)
    requires Recoverable(store.row)
    requires process.BootRecover? || (ServesRequests(process) && store.row.status == Interrupted)
    ensures var (store', outcome) := Recover(store, readable, committed);
      && Kept(store, process, store', process)
      && (outcome == Unrecoverable ==> store'.file.Missing? && store'.row == store.row)
      && (forall seen | SnapshotSound(store, process, seen) :: SnapshotSound(store', process, seen))
  {
  }

  lemma FinalizerStepSound(w: World, ok: bool, readable: bool, digest: nat)
    requires Sound(w)
    ensures Sound(Next(w, FinalizerOperation(ok, readable, digest)))
  {
    if w.process.Finalizing? && w.process.f.stage != Done {
      FinalizerKeeps(w.store, w.process.f, w.process.boot, ok, readable, digest);
    }
  }

  lemma RecoveryStepSound(w: World, step: Step)
    requires Sound(w) && (step.BootReconcile? || step.ReconcileOnDemand?)
    ensures Sound(Next(w, step))
  {
    if Recoverable(w.store.row) {
      if step.BootReconcile? && w.process.BootRecover? {
        RecoverKeeps(w.store, w.process, step.readable, step.committed);
      } else if step.ReconcileOnDemand? && ServesRequests(w.process) && w.store.row.status == Interrupted {
        RecoverKeeps(w.store, w.process, step.readable, step.committed);
      }
    }
  }

  /** Whatever the stream sends, the row it read was backed and the outcome is settled. */
  lemma DeliveryIsSettled(w: World, readable: bool)
    requires Sound(w) && Sends(w, readable)
    requires Terminal(w.stream.value.fetched[0].kind)
    ensures var kind, seen := w.stream.value.fetched[0].kind, w.stream.value.seen.value;
      && kind in TerminalEvents(seen.status)
      && Backed(seen, w.store.file)
      && Settled(w.store, w.process, seen.status)
  {
    var seen := w.stream.value.seen.value;
    assert SnapshotSound(w.store, w.process, seen);
    assert DeliveryState(seen) == ReceiptBacked ==> ReceiptStateOf(seen, w.store.file, readable) == Ready;
  }

  lemma StepSound(w: World, step: Step)
    requires Sound(w)
    ensures Sound(Next(w, step))
    ensures forall s | Settled(w.store, w.process, s) :: Settled(Next(w, step).store, Next(w, step).process, s)
  {
    match step
    case FinalizerOperation(ok, readable, digest) =>
      FinalizerStepSound(w, ok, readable, digest);
      if w.process.Finalizing? && w.process.f.stage != Done {
        FinalizerKeeps(w.store, w.process.f, w.process.boot, ok, readable, digest);
      }
    case BootReconcile(_, _) => RecoveryStepSound(w, step);
    case ReconcileOnDemand(_, _) => RecoveryStepSound(w, step);
    case HandleEvent(readable) =>
      if Sends(w, readable) && Terminal(w.stream.value.fetched[0].kind) {
        DeliveryIsSettled(w, readable);
      }
    case _ =>
  }

  lemma {:induction false} ExecutionSound(worlds: seq<World>, steps: seq<Step>, i: nat)
    requires Execution(worlds, steps) && i < |worlds|
    ensures Sound(worlds[i])
  {
    if i != 0 {
      ExecutionSound(worlds, steps, i - 1);
      StepSound(worlds[i - 1], steps[i - 1]);
    }
  }

  lemma {:induction false} StaysSettled(worlds: seq<World>, steps: seq<Step>, i: nat, j: nat)
    requires Execution(worlds, steps) && i <= j < |worlds|
    requires Settled(worlds[i].store, worlds[i].process, worlds[i].store.row.status)
    ensures Settled(worlds[j].store, worlds[j].process, worlds[i].store.row.status)
  {
    if i != j {
      StaysSettled(worlds, steps, i, j - 1);
      ExecutionSound(worlds, steps, j - 1);
      StepSound(worlds[j - 1], steps[j - 1]);
    }
  }

  /**
   Once a stream has sent a terminal event, every later world gives the run one and the same
   status, and that status agrees with the event. Crashes, restarts, failed operations, lost
   or damaged receipt files and reconciliations in between change nothing about it.
   */
  lemma DeliveredOutcomesAreFinal(worlds: seq<World>, steps: seq<Step>, i: nat, j: nat, e: EventType)
    requires Execution(worlds, steps) && i <= j < |worlds|
    requires e in worlds[i].delivered && Terminal(e)
    ensures worlds[j].store.row.status == worlds[i].store.row.status
    ensures e in TerminalEvents(worlds[j].store.row.status)
  {
    ExecutionSound(worlds, steps, i);
    StaysSettled(worlds, steps, i, j);
  }

  /** The stream sends an outcome only over a backed row whose status the outcome fits. */
  lemma DeliveriesAreBacked(worlds: seq<World>, steps: seq<Step>, i: nat, readable: bool)
    requires Execution(worlds, steps) && i < |steps|
    requires steps[i] == HandleEvent(readable) && Sends(worlds[i], readable)
    requires Terminal(worlds[i].stream.value.fetched[0].kind)
    ensures var kind, seen := worlds[i].stream.value.fetched[0].kind, worlds[i].stream.value.seen.value;
      && Backed(seen, worlds[i].store.file)
      && kind in TerminalEvents(seen.status)
      && worlds[i].store.row.status == seen.status
      && kind in worlds[i + 1].delivered
  {
    ExecutionSound(worlds, steps, i);
    DeliveryIsSettled(worlds[i], readable);
  }
}
