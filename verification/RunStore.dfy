/**
 The durable state of one run (its row, its ledger, its receipt file and its token
 reservation) and the finalizer, recovery and startup code that updates it.
 */
module RunStore {
  import opened Models

  datatype EventType =
    | Work(name: string)
    | RunCompleted
    | RunIncomplete
    | RunTimeout
    | RunCancelled
    | RunFailed
    | RunInterrupted

  predicate Terminal(e: EventType) {
    !e.Work?
  }

  /** The ledger events that agree with a terminal status. */
  function TerminalEvents(status: RunStatus): set<EventType> {
    match status
    case Completed => {RunCompleted}
    case Incomplete => {RunIncomplete, RunTimeout}
    case Cancelled => {RunCancelled}
    case Failed => {RunFailed}
    case Interrupted => {RunInterrupted}
    case _ => {}
  }

  predicate TerminalStatus(status: RunStatus) {
    status !in {Queued, Running}
  }

  datatype Event = Event(sequence: nat, kind: EventType)

  /** `calls` are the sequence numbers of the recorded model and embedding calls. */
  datatype Receipt = Receipt(status: RunStatus, events: seq<Event>, calls: seq<nat>, digest: nat)

  predicate Contiguous(events: seq<Event>) {
    forall i | 0 <= i < |events| :: events[i].sequence == i + 1
  }

  predicate CallsContiguous(calls: seq<nat>) {
    forall i | 0 <= i < |calls| :: calls[i] == i + 1
  }

  /** The chain, call-sequence and terminal-event checks of the receipt validator. */
  predicate ValidReceipt(r: Receipt) {
    && TerminalStatus(r.status)
    && Contiguous(r.events)
    && CallsContiguous(r.calls)
    && r.events != []
    && r.events[|r.events| - 1].kind in TerminalEvents(r.status)
  }

  datatype ReceiptFile = Missing | Corrupt | Sealed(receipt: Receipt)

  /** What a validating read of an existing file yields. */
  function Loaded(file: ReceiptFile): Option<Receipt> {
    if file.Sealed? && ValidReceipt(file.receipt) then Some(file.receipt) else None
  }

  datatype Row = Row(status: RunStatus, receiptPath: bool, receiptDigest: Option<nat>)

  datatype Store = Store(row: Row, ledger: seq<Event>, calls: seq<nat>, file: ReceiptFile, reserved: bool)

  function CommittedRow(r: Receipt): Row {
    Row(r.status, true, Some(r.digest))
  }

  predicate Recoverable(row: Row) {
    row.status in {Queued, Running, Interrupted}
  }

  datatype Intent = Intent(status: RunStatus, event: EventType)

  /** The terminal states a run body or a startup can hand to the finalizer. */
  predicate ValidIntent(intent: Intent) {
    TerminalStatus(intent.status) && intent.event in TerminalEvents(intent.status)
  }

  const RECOVERY := Intent(Interrupted, RunInterrupted)

  predicate Contains(events: seq<Event>, kind: EventType) {
    exists i | 0 <= i < |events| :: events[i].kind == kind
  }

  function LastSequence(events: seq<Event>): nat {
    if events == [] then 0 else events[|events| - 1].sequence
  }

  // ----- the finalizer, one durable operation at a time -----

  datatype Stage = AppendTerminal | SealReceipt | CommitReceipt | AppendInterruption | WriteInterruption | Done

  datatype Finalizer = Finalizer(stage: Stage, intent: Intent, counter: nat, snapshot: Option<Receipt>)

  /** The in-memory counter advances before the row is written. */
  function AppendRow(ledger: seq<Event>, counter: nat, kind: EventType, written: bool): seq<Event> {
    if written then ledger + [Event(counter + 1, kind)] else ledger
  }

  /** So does the call counter. */
  function AppendCall(calls: seq<nat>, counter: nat, written: bool): seq<nat> {
    if written then calls + [counter + 1] else calls
  }

  function Interruption(store: Store, snapshot: Option<Receipt>, readable: bool): Row {
    match snapshot
    case Some(r) => Row(Interrupted, true, Some(r.digest))
    case None =>
      match Loaded(store.file)
      case Some(r) => if readable then Row(Interrupted, true, Some(r.digest)) else Row(Interrupted, false, None)
      case None => Row(Interrupted, false, None)
  }

  /**
   The next operation of the finalizer; `ok` says whether it takes effect or raises, and
   `readable` whether a receipt file found while recording an interruption can be read.
   */
  function FinalizerStep(store: Store, f: Finalizer, ok: bool, readable: bool, digest: nat): (Store, Finalizer) {
    match f.stage
    case AppendTerminal =>
      if Contains(store.ledger, f.intent.event) then (store, f.(stage := SealReceipt))
      else (store.(ledger := AppendRow(store.ledger, f.counter, f.intent.event, ok)),
            f.(stage := if ok then SealReceipt else AppendInterruption, counter := f.counter + 1))
    case SealReceipt =>
      if store.file.Missing? then
        var r := Receipt(f.intent.status, store.ledger, store.calls, digest);
        if ok && ValidReceipt(r) then
          (store.(file := Sealed(r)), f.(stage := CommitReceipt, snapshot := Some(r)))
        else (store, f.(stage := AppendInterruption))
      else
        if ok && Loaded(store.file).Some? then
          (store, f.(stage := CommitReceipt, snapshot := Loaded(store.file)))
        else (store, f.(stage := AppendInterruption))
    case CommitReceipt =>
      if ok && f.snapshot.Some? then
        (store.(row := CommittedRow(f.snapshot.value)), f.(stage := Done))
      else (store, f.(stage := AppendInterruption))
    case AppendInterruption =>
      (store.(ledger := AppendRow(store.ledger, f.counter, RunInterrupted, ok)),
       f.(stage := WriteInterruption, counter := f.counter + 1))
    case WriteInterruption =>
      (if ok then store.(row := Interruption(store, f.snapshot, readable)) else store, f.(stage := Done))
    case Done => (store, f)
  }

  // ----- recovery of an already sealed receipt -----

  datatype Outcome = Recovered | Retryable | Unrecoverable | NotPending

  predicate DigestAgrees(row: Row, r: Receipt) {
    row.receiptDigest.Some? ==> row.receiptDigest.value == r.digest
  }

  function Recover(store: Store, readable: bool, committed: bool): (Store, Outcome) {
    match store.file
    case Missing => (store, Unrecoverable)
    case _ =>
      if !readable then (store, Retryable)
      else
        match Loaded(store.file)
        case None => (store.(file := Missing), Unrecoverable)
        case Some(r) =>
          if !DigestAgrees(store.row, r) then (store.(file := Missing), Unrecoverable)
          else if committed then (store.(row := CommittedRow(r)), Recovered)
          else (store, Retryable)
  }

  function ReconcilePending(store: Store, readable: bool, committed: bool): (Store, Outcome) {
    if store.row.status != Interrupted then (store, NotPending) else Recover(store, readable, committed)
  }

  // ----- the same code, whole -----

  /** Which operations of one finalization take effect. */
  datatype Luck = Luck(append: bool, seal: bool, commit: bool, interruptionAppend: bool,
                       readable: bool, interruptionWrite: bool, release: bool)

  function At(luck: Luck, stage: Stage): bool {
    match stage
    case AppendTerminal => luck.append
    case SealReceipt => luck.seal
    case CommitReceipt => luck.commit
    case AppendInterruption => luck.interruptionAppend
    case WriteInterruption => luck.interruptionWrite
    case Done => true
  }

  function Rank(stage: Stage): nat {
    match stage
    case AppendTerminal => 5
    case SealReceipt => 4
    case CommitReceipt => 3
    case AppendInterruption => 2
    case WriteInterruption => 1
    case Done => 0
  }

  function RunFinalizer(store: Store, f: Finalizer, luck: Luck, digest: nat): Store
    decreases Rank(f.stage)
  {
    if f.stage == Done then store
    else
      var (store', f') := FinalizerStep(store, f, At(luck, f.stage), luck.readable, digest);
      RunFinalizer(store', f', luck, digest)
  }

  function Finalize(store: Store, intent: Intent, counter: nat, luck: Luck, digest: nat): Store {
    var store' := RunFinalizer(store, Finalizer(AppendTerminal, intent, counter, None), luck, digest);
    if luck.release then store'.(reserved := false) else store'
  }

  lemma OneOperation(store: Store, f: Finalizer, luck: Luck, digest: nat)
    ensures RunFinalizer(store, f, luck, digest) ==
      if f.stage == Done then store
      else
        var (store', f') := FinalizerStep(store, f, At(luck, f.stage), luck.readable, digest);
        RunFinalizer(store', f', luck, digest)
  {
  }

  const ALL_WELL := Luck(true, true, true, true, true, true, true)

  /** Startup with no fault: recover or interrupt the run, then drop a dead reservation. */
  function Reconcile(store: Store, digest: nat): Store {
    var store' :=
      if !Recoverable(store.row) then store
      else
        var (recovered, outcome) := Recover(store, true, true);
        if outcome == Recovered then recovered
        else Finalize(recovered, RECOVERY, LastSequence(recovered.ledger), ALL_WELL, digest);
    if store'.row.status in {Queued, Running} then store' else store'.(reserved := false)
  }

  class InvestigationService {
    var row: Row
    var ledger: seq<Event>
    var calls: seq<nat>
    var file: ReceiptFile
    var reserved: bool

    constructor (store: Store)
      ensures Contents() == store
    {
      row, ledger, calls := store.row, store.ledger, store.calls;
      file, reserved := store.file, store.reserved;
    }

    ghost function Contents(): Store
      reads this
    {
      Store(row, ledger, calls, file, reserved)
    }

    method CommitTerminal(snapshot: Receipt)
      modifies this`row
      ensures Contents() == old(Contents()).(row := CommittedRow(snapshot))
    {
      row := Row(snapshot.status, true, Some(snapshot.digest));
    }

    method HasEvent(kind: EventType) returns (found: bool)
      ensures found == Contains(ledger, kind)
    {
      found := false;
      for i := 0 to |ledger|
        invariant found == exists j | 0 <= j < i :: ledger[j].kind == kind
      {
        found := found || ledger[i].kind == kind;
      }
    }

    /** Append the outcome, seal, commit. */
    method TryFinalize(intent: Intent, counter: nat, luck: Luck, digest: nat)
      returns (raised: bool, sequence: nat, snapshot: Option<Receipt>)
      modifies this`row, this`ledger, this`file
      ensures reserved == old(reserved)
      ensures RunFinalizer(old(Contents()), Finalizer(AppendTerminal, intent, counter, None), luck, digest)
           == RunFinalizer(Contents(),
                Finalizer(if raised then AppendInterruption else Done, intent, sequence, snapshot), luck, digest)
    {
      hide RunFinalizer, Contains, ValidReceipt;
      raised, sequence, snapshot := false, counter, None;
      OneOperation(Contents(), Finalizer(AppendTerminal, intent, sequence, snapshot), luck, digest);
      var found := HasEvent(intent.event);
      if !found {
        sequence := sequence + 1;
        if luck.append {
          ledger := ledger + [Event(sequence, intent.event)];
        } else {
          return true, sequence, snapshot;
        }
      }
      OneOperation(Contents(), Finalizer(SealReceipt, intent, sequence, snapshot), luck, digest);
      if file.Missing? {
        var receipt := Receipt(intent.status, ledger, calls, digest);
        if !luck.seal || !ValidReceipt(receipt) {
          return true, sequence, snapshot;
        }
        file := Sealed(receipt);
        snapshot := Some(receipt);
      } else {
        if !luck.seal || Loaded(file).None? {
          return true, sequence, snapshot;
        }
        snapshot := Loaded(file);
      }
      OneOperation(Contents(), Finalizer(CommitReceipt, intent, sequence, snapshot), luck, digest);
      if !luck.commit {
        return true, sequence, snapshot;
      }
      CommitTerminal(snapshot.value);
    }

    /** On any failure leave an interruption that a later reconciliation can complete. */
    method RecordInterruption(intent: Intent, counter: nat, snapshot: Option<Receipt>, luck: Luck, digest: nat)
      modifies this`row, this`ledger
      ensures Contents()
           == RunFinalizer(old(Contents()), Finalizer(AppendInterruption, intent, counter, snapshot), luck, digest)
    {
      hide RunFinalizer;
      OneOperation(Contents(), Finalizer(AppendInterruption, intent, counter, snapshot), luck, digest);
      if luck.interruptionAppend {
        ledger := ledger + [Event(counter + 1, RunInterrupted)];
      }
      OneOperation(Contents(), Finalizer(WriteInterruption, intent, counter + 1, snapshot), luck, digest);
      if luck.interruptionWrite {
        var persisted := snapshot;
        if persisted.None? && !file.Missing? && luck.readable {
          persisted := Loaded(file);
        }
        row := if persisted.Some? then Row(Interrupted, true, Some(persisted.value.digest))
               else Row(Interrupted, false, None);
      }
      OneOperation(Contents(), Finalizer(Done, intent, counter + 1, snapshot), luck, digest);
    }

    method FinalizeRun(intent: Intent, counter: nat, luck: Luck, digest: nat)
      modifies this
      ensures Contents() == Finalize(old(Contents()), intent, counter, luck, digest)
    {
      var raised, sequence, snapshot := TryFinalize(intent, counter, luck, digest);
      if raised {
        RecordInterruption(intent, sequence, snapshot, luck, digest);
      }
      if luck.release {
        reserved := false;
      }
    }

    method RecoverSealedReceipt(readable: bool, committed: bool) returns (outcome: Outcome)
      modifies this`row, this`file
      ensures (Contents(), outcome) == Recover(old(Contents()), readable, committed)
    {
      if file.Missing? {
        return Unrecoverable;
      }
      if !readable {
        return Retryable;
      }
      if Loaded(file).None? {
        file := Missing;
        return Unrecoverable;
      }
      var receipt := Loaded(file).value;
      if row.receiptDigest.Some? && receipt.digest != row.receiptDigest.value {
        file := Missing;
        return Unrecoverable;
      }
      if !committed {
        return Retryable;
      }
      CommitTerminal(receipt);
      return Recovered;
    }

    method ReconcilePendingReceipt(readable: bool, committed: bool) returns (outcome: Outcome)
      modifies this`row, this`file
      ensures (Contents(), outcome) == ReconcilePending(old(Contents()), readable, committed)
    {
      if row.status != Interrupted {
        return NotPending;
      }
      outcome := RecoverSealedReceipt(readable, committed);
    }

    /** The startup pass over this run when no operation fails. */
    method ReconcileAbandonedRun(digest: nat)
      modifies this
      ensures Contents() == Reconcile(old(Contents()), digest)
    {
      if row.status in {Queued, Running, Interrupted} {
        var outcome := RecoverSealedReceipt(true, true);
        if outcome != Recovered {
          var hydrated := if ledger == [] then 0 else ledger[|ledger| - 1].sequence;
          FinalizeRun(RECOVERY, hydrated, ALL_WELL, digest);
        }
      }
      if row.status !in {Queued, Running} {
        reserved := false;
      }
    }
  }
}
