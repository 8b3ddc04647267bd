/** Which outcome a run ends with: what the finalizer reaches when its operations take effect. */
module RunOutcomes {
  import opened Models
  import opened RunStore
  import opened RunLifecycle
  import opened CrashConvergence

  /** The ledger, one event longer. */
  function Announced(store: Store, event: EventType): seq<Event> {
    store.ledger + [Event(|store.ledger| + 1, event)]
  }

  /** The outcome is in the ledger, in a receipt over that ledger, and in the row. */
  function SealedAs(store: Store, intent: Intent, digest: nat): Store {
    var ledger := Announced(store, intent.event);
    Store(Row(intent.status, true, Some(digest)), ledger, store.calls,
      Sealed(Receipt(intent.status, ledger, store.calls, digest)), store.reserved)
  }

  /** A run whose body came to its end: nothing missing, no outcome recorded, no receipt. */
  predicate Unfinished(store: Store) {
    NoGap(store) && NoTerminal(store.ledger) && store.file.Missing?
  }

  lemma AnnouncedIsValid(store: Store, intent: Intent, digest: nat)
    requires Unfinished(store) && ValidIntent(intent)
    ensures LastSequence(store.ledger) == |store.ledger|
    ensures ValidReceipt(Receipt(intent.status, Announced(store, intent.event), store.calls, digest))
    ensures !Contains(store.ledger, intent.event)
  {
    AppendNext(store.ledger, intent.event);
  }

  /** The last two operations, after a failure. */
  lemma InterruptionRecorded(store: Store, f: Finalizer, luck: Luck, digest: nat)
    requires f.stage == AppendInterruption && store.file.Missing? == f.snapshot.None?
    ensures RunFinalizer(store, f, luck, digest)
         == store.(ledger := if luck.interruptionAppend then store.ledger + [Event(f.counter + 1, RunInterrupted)]
                             else store.ledger,
                   row := if !luck.interruptionWrite then store.row
                          else if f.snapshot.Some? then Row(Interrupted, true, Some(f.snapshot.value.digest))
                          else Row(Interrupted, false, None))
  {
    hide RunFinalizer;
    OneOperation(store, f, luck, digest);
    var (s1, f1) := FinalizerStep(store, f, luck.interruptionAppend, luck.readable, digest);
    OneOperation(s1, f1, luck, digest);
    var (s2, f2) := FinalizerStep(s1, f1, luck.interruptionWrite, luck.readable, digest);
    OneOperation(s2, f2, luck, digest);
  }

  /**
   Whichever operations fail: the row gets the outcome if all three took effect, else an interruption
   that names the receipt if one was sealed; a write that fails changes nothing, a number that was
   drawn for a failed append is never drawn again.
   */
  lemma FinalizeUnderLuck(store: Store, intent: Intent, luck: Luck, digest: nat)
    requires Unfinished(store) && ValidIntent(intent)
    ensures var end := Finalize(store, intent, LastSequence(store.ledger), luck, digest);
      var announced := if luck.append then Announced(store, intent.event) else store.ledger;
      var sealed := luck.append && luck.seal;
      && end.row == (if sealed && luck.commit then Row(intent.status, true, Some(digest))
                     else if !luck.interruptionWrite then store.row
                     else if sealed then Row(Interrupted, true, Some(digest))
                     else Row(Interrupted, false, None))
      && end.file == (if sealed then Sealed(Receipt(intent.status, announced, store.calls, digest)) else Missing)
      && end.ledger == (if (sealed && luck.commit) || !luck.interruptionAppend then announced
                        else announced + [Event(|store.ledger| + 2, RunInterrupted)])
      && end.calls == store.calls && end.reserved == (store.reserved && !luck.release)
  {
    AnnouncedIsValid(store, intent, digest);
    hide RunFinalizer, ValidReceipt, Contains, NoTerminal, NoGap;
    var f := Finalizer(AppendTerminal, intent, |store.ledger|, None);
    OneOperation(store, f, luck, digest);
    var (s1, f1) := FinalizerStep(store, f, luck.append, luck.readable, digest);
    OneOperation(s1, f1, luck, digest);
    var (s2, f2) := FinalizerStep(s1, f1, At(luck, f1.stage), luck.readable, digest);
    OneOperation(s2, f2, luck, digest);
    var (s3, f3) := FinalizerStep(s2, f2, At(luck, f2.stage), luck.readable, digest);
    if !luck.append {
      InterruptionRecorded(s1, f1, luck, digest);
    } else if !luck.seal {
      InterruptionRecorded(s2, f2, luck, digest);
    } else if !luck.commit {
      InterruptionRecorded(s3, f3, luck, digest);
    } else {
      OneOperation(s3, f3, luck, digest);
    }
  }

  /** A finalization in which nothing fails reaches the outcome it was given. */
  lemma FinalizeSucceeds(store: Store, intent: Intent, digest: nat)
    requires Unfinished(store) && ValidIntent(intent)
    ensures Finalize(store, intent, LastSequence(store.ledger), ALL_WELL, digest)
         == SealedAs(store, intent, digest).(reserved := false)
    ensures ValidReceipt(Receipt(intent.status, Announced(store, intent.event), store.calls, digest))
  {
    FinalizeUnderLuck(store, intent, ALL_WELL, digest);
    AnnouncedIsValid(store, intent, digest);
  }

  /** An outcome that was sealed is not lost with its commit: the next restart commits it. */
  lemma LostCommitIsRecovered(store: Store, intent: Intent, luck: Luck, digest: nat, again: nat)
    requires Unfinished(store) && ValidIntent(intent) && Recoverable(store.row) && store.row.receiptDigest.None?
    requires luck.append && luck.seal && !luck.commit
    ensures var end := Finalize(store, intent, LastSequence(store.ledger), luck, digest);
      Reconcile(end, again) == end.(row := Row(intent.status, true, Some(digest)), reserved := false)
  {
    FinalizeUnderLuck(store, intent, luck, digest);
    AnnouncedIsValid(store, intent, digest);
    hide Finalize, ValidReceipt, Reconcile;
    RestartOutcome(Finalize(store, intent, LastSequence(store.ledger), luck, digest), again);
  }

  /** The ledger a receipt would seal: the outcome is appended unless it is there. */
  function Concluded(store: Store, intent: Intent, counter: nat): seq<Event> {
    if exists i | 0 <= i < |store.ledger| :: store.ledger[i].kind == intent.event then store.ledger
    else store.ledger + [Event(counter + 1, intent.event)]
  }

  /** Whatever the run left behind, a finalization without faults succeeds exactly if its receipt is valid. */
  lemma FinalizeExactly(store: Store, intent: Intent, counter: nat, digest: nat)
    requires store.file.Missing?
    ensures var r := Receipt(intent.status, Concluded(store, intent, counter), store.calls, digest);
      Finalize(store, intent, counter, ALL_WELL, digest)
        == if ValidReceipt(r) then
             Store(Row(intent.status, true, Some(digest)), r.events, store.calls, Sealed(r), false)
           else
             var interruption := Event(Counted(store, intent, counter) + 1, RunInterrupted);
             Store(Row(Interrupted, false, None), r.events + [interruption], store.calls, Missing, false)
  {
    hide RunFinalizer, ValidReceipt;
    var f := Finalizer(AppendTerminal, intent, counter, None);
    OneOperation(store, f, ALL_WELL, digest);
    var (s1, f1) := FinalizerStep(store, f, true, true, digest);
    assert s1.ledger == Concluded(store, intent, counter);
    OneOperation(s1, f1, ALL_WELL, digest);
    var (s2, f2) := FinalizerStep(s1, f1, true, true, digest);
    OneOperation(s2, f2, ALL_WELL, digest);
    var (s3, f3) := FinalizerStep(s2, f2, true, true, digest);
    OneOperation(s3, f3, ALL_WELL, digest);
    var (s4, f4) := FinalizerStep(s3, f3, true, true, digest);
    OneOperation(s4, f4, ALL_WELL, digest);
  }

  function Counted(store: Store, intent: Intent, counter: nat): nat {
    if Concluded(store, intent, counter) == store.ledger then counter else counter + 1
  }

  /** A restart commits a usable receipt as it stands; only a run without one becomes an interruption. */
  lemma RestartOutcome(store: Store, digest: nat)
    requires Recoverable(store.row)
    ensures var end := Reconcile(store, digest);
      && (ReceiptUsable(store) ==>
            var r := Loaded(store.file).value;
            end == store.(row := Row(r.status, true, Some(r.digest)), reserved := false))
      && (!ReceiptUsable(store) ==> end.row.status == Interrupted && !end.reserved)
  {
    var (recovered, outcome) := Recover(store, true, true);
    hide RunFinalizer, Finalize, CanInterrupt;
    if outcome == Recovered {
      assert TerminalStatus(Loaded(store.file).value.status);
    } else {
      RecoveryPass(recovered, digest);
    }
  }

  /** So does a recovery on demand that can read the receipt and write the row. */
  lemma OnDemandOutcome(store: Store, readable: bool, committed: bool)
    ensures var (end, outcome) := ReconcilePending(store, readable, committed);
      && (store.row.status != Interrupted ==> end == store && outcome == NotPending)
      && (store.row.status == Interrupted && !store.file.Missing? && !readable ==> end == store && outcome == Retryable)
      && (store.row.status == Interrupted && readable && ReceiptUsable(store) ==>
            if committed then
              var r := Loaded(store.file).value;
              end == store.(row := Row(r.status, true, Some(r.digest))) && outcome == Recovered
            else
              end == store && outcome == Retryable)
      && (store.row.status == Interrupted && (store.file.Missing? || (readable && !ReceiptUsable(store))) ==>
            end == store.(file := Missing) && outcome == Unrecoverable)
  {
  }

  /** In a server that answers requests, a recovery on demand without faults commits a usable receipt. */
  lemma OnDemandRecovers(w: World)
    requires ServesRequests(w.process) && w.store.row.status == Interrupted && ReceiptUsable(w.store)
    ensures var r := Loaded(w.store.file).value;
      Next(w, ReconcileOnDemand(true, true)) == w.(store := w.store.(row := Row(r.status, true, Some(r.digest))))
  {
  }

  // ----- executions -----

  /** What the body of a run recorded. */
  function Recorded(steps: seq<Step>): seq<EventType> {
    if steps == [] then []
    else
      var before, last := Recorded(steps[..|steps| - 1]), steps[|steps| - 1];
      if last.Record? then before + [last.kind] else before
  }

  function RecordedCalls(steps: seq<Step>): nat {
    if steps == [] then 0
    else RecordedCalls(steps[..|steps| - 1]) + (if steps[|steps| - 1].RecordCall? then 1 else 0)
  }

  predicate Holds(store: Store, kinds: seq<EventType>, calls: nat) {
    && |store.ledger| == |kinds| && |store.calls| == calls
    && (forall i | 0 <= i < |kinds| :: store.ledger[i] == Event(i + 1, kinds[i]))
    && (forall i | 0 <= i < calls :: store.calls[i] == i + 1)
  }

  lemma WorkStep(w: World, step: Step, kinds: seq<EventType>, calls: nat)
    requires Tidy(w) && Faithful(w, step) && Next(w, step).process.Working?
    requires w.process.Working? ==> Holds(w.store, kinds, calls)
    ensures w.process.Working?
    ensures Holds(Next(w, step).store, if step.Record? then kinds + [step.kind] else kinds,
                  if step.RecordCall? then calls + 1 else calls)
  {
    hide Sound, FileTidy, OnlyInterruptionFollows, NoTerminal;
  }

  /** As long as a run works, its ledger and its calls are all that its body recorded, in order. */
  lemma {:induction false} WorkIsRecorded(worlds: seq<World>, steps: seq<Step>, i: nat)
    requires Execution(worlds, steps) && i < |worlds| && worlds[i].process.Working?
    requires forall k | 0 <= k < i :: Faithful(worlds[k], steps[k])
    ensures Holds(worlds[i].store, Recorded(steps[..i]), RecordedCalls(steps[..i]))
  {
    if i != 0 {
      hide Tidy, Next, Holds, Faithful;
      ExecutionTidy(worlds[..i], steps[..i - 1], i - 1);
      var w, step := worlds[i - 1], steps[i - 1];
      assert worlds[i - 1 + 1] == Next(w, step);
      if w.process.Working? {
        WorkIsRecorded(worlds, steps, i - 1);
      }
      WorkStep(w, step, Recorded(steps[..i - 1]), RecordedCalls(steps[..i - 1]));
      assert steps[..i][..i - 1] == steps[..i - 1];
    }
  }

  /** The finalizer of the run's own process succeeds from here to there, and the process lives. */
  predicate Fortunate(w: World, step: Step) {
    && Faithful(w, step)
    && !step.Crash?
    && (step.FinalizerOperation? ==> step.ok)
  }

  /** How far a finalization has come after so many of its operations. */
  predicate OnCourse(w: World, start: Store, intent: Intent, done: nat) {
    match done
    case 0 =>
      && Unfinished(w.store) && w.store == start
      && w.process == Finalizing(Finalizer(AppendTerminal, intent, |start.ledger|, None), false)
    case 1 =>
      && w.store == start.(ledger := Announced(start, intent.event))
      && w.process == Finalizing(Finalizer(SealReceipt, intent, |start.ledger| + 1, None), false)
    case 2 =>
      && w.store.file.Sealed?
      && w.store == SealedAs(start, intent, w.store.file.receipt.digest).(row := start.row)
      && w.process
           == Finalizing(Finalizer(CommitReceipt, intent, |start.ledger| + 1, Some(w.store.file.receipt)), false)
    case _ =>
      && w.store.file.Sealed?
      && w.store == SealedAs(start, intent, w.store.file.receipt.digest)
                    .(reserved := if done == 3 then start.reserved else false)
      && (if done == 3 then w.process.Finalizing? && w.process.f.stage == Done && !w.process.boot
          else w.process.Serving?)
  }

  lemma StaysOnCourse(w: World, step: Step, start: Store, intent: Intent, done: nat)
    requires Unfinished(start) && start.row.status in {Queued, Running}
    requires ValidIntent(intent) && intent.status != Interrupted
    requires OnCourse(w, start, intent, done) && Fortunate(w, step)
    ensures OnCourse(Next(w, step), start, intent, if step.FinalizerOperation? then done + 1 else done)
  {
    if step.FinalizerOperation? {
      AnnouncedIsValid(start, intent, step.digest);
    }
    hide ValidReceipt, NoGap, NoTerminal, Contains;
  }

  /** Operations of the finalizer among the first steps. */
  function Operated(steps: seq<Step>): nat {
    if steps == [] then 0
    else Operated(steps[..|steps| - 1]) + (if steps[|steps| - 1].FinalizerOperation? then 1 else 0)
  }

  /**
   A run that hands its outcome to the finalizer ends with that outcome: once the finalizer has made
   three operations the row has the intended status and the digest of a valid receipt over the ledger
   and the calls of the run, after four nothing is reserved any more. Streams, recoveries on demand
   and everything else may come in between.
   */
  lemma {:induction false} RunEndsAsIntended(worlds: seq<World>, steps: seq<Step>, i: nat, k: nat, intent: Intent)
    requires Execution(worlds, steps) && i < k <= |steps|
    requires forall j | 0 <= j < i :: Faithful(worlds[j], steps[j])
    requires forall j | i <= j < k :: Fortunate(worlds[j], steps[j])
    requires worlds[i].process.Working? && steps[i] == BeginFinalizer(intent)
    requires ValidIntent(intent) && intent.status != Interrupted
    ensures OnCourse(worlds[k], worlds[i].store, intent, Operated(steps[i + 1..k]))
    decreases k
  {
    hide Fortunate, OnCourse, Next;
    assert Begun(worlds[i]) by {
      ExecutionTidy(worlds[..i + 1], steps[..i], i);
      TidyIsUnfinished(worlds[i]);
    }
    if k == i + 1 {
      Begins(worlds[i], intent);
      assert steps[i + 1..k] == [];
    } else {
      RunEndsAsIntended(worlds, steps, i, k - 1, intent);
      var done := Operated(steps[i + 1..k - 1]);
      StaysOnCourse(worlds[k - 1], steps[k - 1], worlds[i].store, intent, done);
      assert steps[i + 1..k][..|steps[i + 1..k]| - 1] == steps[i + 1..k - 1];
      assert Operated(steps[i + 1..k]) == done + (if steps[k - 1].FinalizerOperation? then 1 else 0);
    }
  }

  predicate Begun(w: World) {
    && w.process.Working? && Unfinished(w.store) && w.process.counter == |w.store.ledger|
    && w.store.row.status in {Queued, Running}
  }

  lemma TidyIsUnfinished(w: World)
    requires Tidy(w) && w.process.Working?
    ensures Begun(w)
  {
  }

  lemma Begins(w: World, intent: Intent)
    requires Begun(w) && ValidIntent(intent) && intent.status != Interrupted
    ensures OnCourse(Next(w, BeginFinalizer(intent)), w.store, intent, 0)
  {
  }

  /** What the end of that course is, for the row, the receipt and the ledger. */
  lemma IntendedOutcome(w: World, start: Store, intent: Intent, done: nat)
    requires Unfinished(start) && ValidIntent(intent) && OnCourse(w, start, intent, done) && 3 <= done
    ensures w.store.row.status == intent.status && w.store.row.receiptPath
    ensures Loaded(w.store.file).Some? && w.store.row.receiptDigest == Some(Loaded(w.store.file).value.digest)
    ensures var r := Loaded(w.store.file).value;
      r.status == intent.status && r.events == w.store.ledger && r.calls == start.calls
    ensures w.store.ledger == start.ledger + [Event(|start.ledger| + 1, intent.event)]
    ensures 4 <= done ==> Converged(w.store)
  {
    AnnouncedIsValid(start, intent, w.store.file.receipt.digest);
    hide ValidReceipt;
  }
}
