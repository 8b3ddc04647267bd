/**
 What one startup reconciliation makes of a run that a crash, a seal failure or a commit
 failure left behind at any point.
 */
module CrashConvergence {
  import opened Models
  import opened RunStore
  import opened RunLifecycle

  /** A finished run: terminal row, its own valid receipt on disk, nothing reserved. */
  predicate Converged(store: Store) {
    && TerminalStatus(store.row.status)
    && store.row.receiptPath
    && Loaded(store.file).Some?
    && Loaded(store.file).value.status == store.row.status
    && store.row.receiptDigest == Some(Loaded(store.file).value.digest)
    && !store.reserved
  }

  // ----- exactly when one pass suffices -----

  predicate ReceiptUsable(store: Store) {
    Loaded(store.file).Some? && DigestAgrees(store.row, Loaded(store.file).value)
  }

  /** No sequence number is missing, and the ledger can still carry an interruption as its last event. */
  predicate CanInterrupt(store: Store) {
    && NoGap(store)
    && (Contains(store.ledger, RunInterrupted) ==> store.ledger[|store.ledger| - 1].kind == RunInterrupted)
  }

  predicate NoGap(store: Store) {
    Contiguous(store.ledger) && CallsContiguous(store.calls)
  }

  /** Appending the next sequence number keeps a ledger exactly as contiguous as it was. */
  lemma AppendNext(ledger: seq<Event>, kind: EventType)
    ensures var longer := ledger + [Event(LastSequence(ledger) + 1, kind)];
      && LastSequence(longer) == LastSequence(ledger) + 1
      && longer[|longer| - 1].kind == kind
      && (Contiguous(longer) <==> Contiguous(ledger))
  {
    var longer := ledger + [Event(LastSequence(ledger) + 1, kind)];
    assert longer[|ledger|].sequence == LastSequence(ledger) + 1;
    assert forall i | 0 <= i < |ledger| :: longer[i] == ledger[i];
    if Contiguous(longer) && ledger != [] {
      assert longer[|ledger| - 1].sequence == |ledger|;
    }
  }

  /** Two operations: append the interruption unless it is there, then seal. */
  lemma AppendThenSeal(store: Store, digest: nat)
    requires store.file.Missing?
    ensures var f := Finalizer(AppendTerminal, RECOVERY, LastSequence(store.ledger), None);
      var (s1, f1) := FinalizerStep(store, f, true, true, digest);
      var (s2, f2) := FinalizerStep(s1, f1, true, true, digest);
      && f1.stage == SealReceipt
      && s1 == store.(ledger := s1.ledger) && f1.counter == LastSequence(s1.ledger)
      && (Contiguous(s1.ledger) <==> Contiguous(store.ledger))
      && (if CanInterrupt(store) then
            var r := Receipt(Interrupted, s1.ledger, s1.calls, digest);
            ValidReceipt(r) && s2 == s1.(file := Sealed(r))
              && f2 == Finalizer(CommitReceipt, RECOVERY, f1.counter, Some(r))
          else s2 == s1 && f2 == Finalizer(AppendInterruption, RECOVERY, f1.counter, None))
  {
    AppendNext(store.ledger, RunInterrupted);
    var f := Finalizer(AppendTerminal, RECOVERY, LastSequence(store.ledger), None);
    var (s1, f1) := FinalizerStep(store, f, true, true, digest);
    assert s1.ledger != [];
  }

  /** The recovery finalizer over a run without a receipt file, when nothing fails. */
  lemma RecoveryPass(store: Store, digest: nat)
    requires store.file.Missing?
    ensures var end := Finalize(store, RECOVERY, LastSequence(store.ledger), ALL_WELL, digest);
      && end.row.status == Interrupted && !end.reserved
      && (NoGap(end) <==> NoGap(store))
      && end.ledger != [] && end.ledger[|end.ledger| - 1].kind == RunInterrupted
      && (CanInterrupt(store) ==> Converged(end))
      && (!CanInterrupt(store) ==> end.file.Missing? && !end.row.receiptPath && end.row.receiptDigest.None?)
  {
    hide RunFinalizer, Contiguous, CanInterrupt, Contains;
    var f := Finalizer(AppendTerminal, RECOVERY, LastSequence(store.ledger), None);
    AppendThenSeal(store, digest);
    OneOperation(store, f, ALL_WELL, digest);
    var (s1, f1) := FinalizerStep(store, f, true, true, digest);
    OneOperation(s1, f1, ALL_WELL, digest);
    var (s2, f2) := FinalizerStep(s1, f1, true, true, digest);
    OneOperation(s2, f2, ALL_WELL, digest);
    var (s3, f3) := FinalizerStep(s2, f2, true, true, digest);
    OneOperation(s3, f3, ALL_WELL, digest);
    var (s4, f4) := FinalizerStep(s3, f3, true, true, digest);
    OneOperation(s4, f4, ALL_WELL, digest);
    if !CanInterrupt(store) {
      AppendNext(s1.ledger, RunInterrupted);
    }
  }

  /**
   One fault-free pass finishes a run whose row can be recovered exactly when its receipt file is
   usable, or no event or call number is missing and an interruption can still be the last event.
   */
  lemma ConvergesExactly(store: Store, digest: nat)
    requires Recoverable(store.row)
    ensures Converged(Reconcile(store, digest)) <==> ReceiptUsable(store) || CanInterrupt(store)
  {
    var (recovered, outcome) := Recover(store, true, true);
    assert CanInterrupt(recovered) == CanInterrupt(store);
    hide CanInterrupt, RunFinalizer, Finalize;
    if outcome != Recovered {
      RecoveryPass(recovered, digest);
    }
  }

  /** A run without gaps is never beyond repair: the second pass finishes what the first could not. */
  lemma TwoPassesFinish(store: Store, first: nat, second: nat)
    requires Recoverable(store.row) && NoGap(store)
    ensures Converged(Reconcile(Reconcile(store, first), second))
  {
    hide RunFinalizer, Finalize, Contains;
    var once := Reconcile(store, first);
    var (recovered, outcome) := Recover(store, true, true);
    if outcome != Recovered {
      RecoveryPass(recovered, first);
    }
    if Recoverable(once.row) {
      ConvergesExactly(once, second);
    }
  }

  ghost function Passes(store: Store, digests: seq<nat>): Store
    decreases |digests|
  {
    if digests == [] then store else Passes(Reconcile(store, digests[0]), digests[1..])
  }

  /** A gap among the events or the calls, with no usable receipt, is never sealed by any number of passes. */
  lemma {:induction false} GapNeverSeals(store: Store, digests: seq<nat>)
    requires Recoverable(store.row) && !ReceiptUsable(store) && !NoGap(store)
    ensures !Converged(Passes(store, digests))
    decreases |digests|
  {
    hide RunFinalizer, Finalize, Contains, Contiguous;
    if digests != [] {
      var (recovered, outcome) := Recover(store, true, true);
      RecoveryPass(recovered, digests[0]);
      GapNeverSeals(Reconcile(store, digests[0]), digests[1..]);
    }
  }

  // ----- what executions leave behind -----

  /** Only an interruption ever follows the first terminal event. */
  predicate OnlyInterruptionFollows(ledger: seq<Event>) {
    forall i, j | 0 <= i < j < |ledger| :: Terminal(ledger[i].kind) ==> ledger[j].kind == RunInterrupted
  }

  predicate NoTerminal(ledger: seq<Event>) {
    forall i | 0 <= i < |ledger| :: !Terminal(ledger[i].kind)
  }

  /** Ledger appends take effect, the body records no outcome itself, nobody touches the receipt file. */
  predicate Faithful(w: World, step: Step) {
    match step
    case Record(kind, ok) => ok && !Terminal(kind)
    case RecordCall(ok) => ok
    case FinalizerOperation(ok, _, _) =>
      w.process.Finalizing? && w.process.f.stage in {AppendTerminal, AppendInterruption} ==> ok
    case DamageReceipt(_) => false
    case _ => true
  }

  predicate LedgerTidy(w: World) {
    && NoGap(w.store)
    && OnlyInterruptionFollows(w.store.ledger)
    && match w.process
       case Working(counter, callCounter) =>
         counter == |w.store.ledger| && callCounter == |w.store.calls| && NoTerminal(w.store.ledger)
       case Finalizing(f, boot) =>
         f.stage != Done ==>
           && f.counter == |w.store.ledger|
           && (f.stage == AppendTerminal && !boot ==> NoTerminal(w.store.ledger))
       case _ => true
  }

  predicate FileTidy(w: World) {
    && (w.store.file.Missing? || (w.store.file.Sealed? && ValidReceipt(w.store.file.receipt)))
    && (w.store.row.receiptPath <==> w.store.row.receiptDigest.Some?)
    && (w.store.row.receiptPath ==>
          w.store.file.Sealed? && w.store.row.receiptDigest == Some(w.store.file.receipt.digest))
    && (TerminalStatus(w.store.row.status) && w.store.row.status != Interrupted ==>
          w.store.file.Sealed? && w.store.file.receipt.status == w.store.row.status)
    && (w.process.Finalizing? && w.process.f.stage != Done && w.process.f.snapshot.Some? ==>
          w.store.file == Sealed(w.process.f.snapshot.value))
  }

  predicate Tidy(w: World) {
    Sound(w) && LedgerTidy(w) && FileTidy(w)
  }

  lemma StepTidy(w: World, step: Step)
    requires Tidy(w) && Faithful(w, step)
    ensures Tidy(Next(w, step))
  {
    StepSound(w, step);
    StepFileTidy(w, step);
    StepLedgerTidy(w, step);
  }

  lemma StepFileTidy(w: World, step: Step)
    requires Tidy(w) && Faithful(w, step)
    ensures FileTidy(Next(w, step))
  {
    hide Contiguous, Contains, OnlyInterruptionFollows;
  }

  lemma FinalizerLedgerTidy(w: World, step: Step)
    requires Tidy(w) && Faithful(w, step) && step.FinalizerOperation?
    ensures LedgerTidy(Next(w, step))
  {
    hide FileTidy, ValidReceipt;
  }

  lemma OtherLedgerTidy(w: World, step: Step)
    requires Tidy(w) && Faithful(w, step) && !step.FinalizerOperation?
    ensures LedgerTidy(Next(w, step))
  {
    hide FileTidy, ValidReceipt, FinalizerStep;
  }

  lemma StepLedgerTidy(w: World, step: Step)
    requires Tidy(w) && Faithful(w, step)
    ensures LedgerTidy(Next(w, step))
  {
    hide *;
    if step.FinalizerOperation? {
      FinalizerLedgerTidy(w, step);
    } else {
      OtherLedgerTidy(w, step);
    }
  }

  lemma {:induction false} ExecutionTidy(worlds: seq<World>, steps: seq<Step>, i: nat)
    requires Execution(worlds, steps) && i < |worlds|
    requires forall k | 0 <= k < |steps| :: Faithful(worlds[k], steps[k])
    ensures Tidy(worlds[i])
  {
    if i != 0 {
      ExecutionTidy(worlds, steps, i - 1);
      StepTidy(worlds[i - 1], steps[i - 1]);
    }
  }

  /**
   Stop the server at any point of any run whose ledger appends and call records all succeeded,
   whatever seal, commit, row-write or read failures happened before: one fault-free startup pass
   finishes it.
   */
  lemma CrashConverges(worlds: seq<World>, steps: seq<Step>, i: nat, digest: nat)
    requires Execution(worlds, steps) && i < |worlds|
    requires forall k | 0 <= k < |steps| :: Faithful(worlds[k], steps[k])
    ensures Converged(Reconcile(worlds[i].store, digest))
    ensures OnlyInterruptionFollows(worlds[i].store.ledger)
  {
    hide RunFinalizer, Finalize;
    ExecutionTidy(worlds, steps, i);
    var store := worlds[i].store;
    if Recoverable(store.row) {
      TidyCanInterrupt(store);
      ConvergesExactly(store, digest);
    }
  }

  lemma TidyCanInterrupt(store: Store)
    requires NoGap(store) && OnlyInterruptionFollows(store.ledger)
    ensures CanInterrupt(store)
  {
    var ledger := store.ledger;
    if Contains(ledger, RunInterrupted) {
      var i :| 0 <= i < |ledger| && ledger[i].kind == RunInterrupted;
      assert i < |ledger| - 1 ==> Terminal(ledger[i].kind);
    }
  }

  // ----- executions that leave a gap behind -----

  /**
   One append of the body fails, the body fails over it and the finalizer appends the outcome: no
   number of fault-free restarts ever finishes that run.
   */
  lemma FailedAppendNeverSeals(w: World, name: string, readable: bool, first: nat, digests: seq<nat>)
    requires Initial(w)
    ensures var steps := [Record(Work(name), false), BeginFinalizer(Intent(Failed, RunFailed)),
                          FinalizerOperation(true, readable, first)];
      var end := RunSteps(w, steps);
      && end.store.ledger == [Event(2, RunFailed)]
      && !Converged(Passes(end.store, digests))
  {
    var w1 := Next(w, Record(Work(name), false));
    var w2 := Next(w1, BeginFinalizer(Intent(Failed, RunFailed)));
    ThreeSteps(w, Record(Work(name), false), BeginFinalizer(Intent(Failed, RunFailed)),
      FinalizerOperation(true, readable, first));
    var end := Next(w2, FinalizerOperation(true, readable, first));
    assert end.store.ledger == [Event(2, RunFailed)];
    assert end.store.ledger[0].sequence == 2;
    GapNeverSeals(end.store, digests);
  }

  /** The same for a model call that is recorded after one that was not, whatever the outcome. */
  lemma FailedCallRecordNeverSeals(w: World, digests: seq<nat>)
    requires Initial(w)
    ensures var end := RunSteps(w, [RecordCall(false), RecordCall(true), Crash]);
      && end.store.calls == [2]
      && !Converged(Passes(end.store, digests))
  {
    ThreeSteps(w, RecordCall(false), RecordCall(true), Crash);
    var end := Next(Next(Next(w, RecordCall(false)), RecordCall(true)), Crash);
    assert end.store.calls[0] == 2;
    GapNeverSeals(end.store, digests);
  }

  lemma ThreeSteps(w: World, a: Step, b: Step, c: Step)
    ensures RunSteps(w, [a, b, c]) == Next(Next(Next(w, a), b), c)
  {
    hide Next;
    assert [a, b, c][1..] == [b, c] && [b, c][1..] == [c];
    assert RunSteps(Next(Next(w, a), b), [c]) == Next(Next(Next(w, a), b), c);
    assert RunSteps(Next(w, a), [b, c]) == RunSteps(Next(Next(w, a), b), [c]);
  }

  // ----- the startup pass is what the step machine does -----

  ghost function RunSteps(w: World, steps: seq<Step>): World
    decreases |steps|
  {
    if steps == [] then w else RunSteps(Next(w, steps[0]), steps[1..])
  }

  function Operation(digest: nat): Step {
    FinalizerOperation(true, true, digest)
  }

  /** Restart, look at the receipt, finalize if need be, drop the reservation; nothing fails. */
  function Restart(digest: nat): seq<Step> {
    [Crash, Boot, BootReconcile(true, true)] + Operations(digest) + [BootCleanup]
  }

  function Operations(digest: nat): seq<Step> {
    [Operation(digest), Operation(digest), Operation(digest), Operation(digest), Operation(digest)]
  }

  lemma {:induction false} RunConcatenation(w: World, a: seq<Step>, b: seq<Step>)
    ensures RunSteps(w, a + b) == RunSteps(RunSteps(w, a), b)
    decreases |a|
  {
    if a == [] {
      assert a + b == b;
    } else {
      assert (a + b)[1..] == a[1..] + b;
      RunConcatenation(Next(w, a[0]), a[1..], b);
    }
  }

  lemma FinalizingOperations(w: World, digest: nat)
    requires w.process == Finalizing(Finalizer(AppendTerminal, RECOVERY, LastSequence(w.store.ledger), None), true)
    requires w.store.file.Missing?
    ensures var end := RunSteps(w, Operations(digest));
      end == w.(
        store := Finalize(w.store, RECOVERY, LastSequence(w.store.ledger), ALL_WELL, digest),
        process := BootRelease)
  {
    hide Contiguous, CanInterrupt, Contains, RunFinalizer;
    AppendThenSeal(w.store, digest);
    var step := Operation(digest);
    var w1 := Next(w, step);
    var w2 := Next(w1, step);
    var w3 := Next(w2, step);
    var w4 := Next(w3, step);
    var w5 := Next(w4, step);
    OneOperation(w.store, w.process.f, ALL_WELL, digest);
    OneOperation(w1.store, w1.process.f, ALL_WELL, digest);
    OneOperation(w2.store, w2.process.f, ALL_WELL, digest);
    OneOperation(w3.store, w3.process.f, ALL_WELL, digest);
    if !CanInterrupt(w.store) {
      OneOperation(w4.store, w4.process.f, ALL_WELL, digest);
    }
    FiveSteps(w, step);
  }

  lemma FiveSteps(w: World, step: Step)
    ensures RunSteps(w, [step, step, step, step, step])
         == Next(Next(Next(Next(Next(w, step), step), step), step), step)
  {
    hide Next;
    var w1 := Next(w, step);
    var w2 := Next(w1, step);
    var w3 := Next(w2, step);
    var w4 := Next(w3, step);
    assert RunSteps(w4, [step]) == Next(w4, step);
    assert [step, step][1..] == [step];
    assert RunSteps(w3, [step, step]) == Next(w4, step);
    assert [step, step, step][1..] == [step, step];
    assert RunSteps(w2, [step, step, step]) == Next(w4, step);
    assert [step, step, step, step][1..] == [step, step, step];
    assert RunSteps(w1, [step, step, step, step]) == Next(w4, step);
    assert [step, step, step, step, step][1..] == [step, step, step, step];
  }

  lemma {:induction false} IdleOperations(w: World, digest: nat, n: nat)
    requires !w.process.Finalizing?
    ensures RunSteps(w, seq(n, _ => Operation(digest))) == w
    decreases n
  {
    if n != 0 {
      var steps := seq(n, _ => Operation(digest));
      assert steps[1..] == seq(n - 1, _ => Operation(digest));
      IdleOperations(w, digest, n - 1);
    }
  }

  /** The startup pass proved above is the one the interleaved machine performs. */
  lemma RestartIsReconcile(w: World, digest: nat)
    ensures RunSteps(w, Restart(digest)).store == Reconcile(w.store, digest)
    ensures RunSteps(w, Restart(digest)).process == Serving
  {
    hide Finalize, RunFinalizer;
    var start := [Crash, Boot, BootReconcile(true, true)];
    var w1 := Next(w, Crash);
    var w2 := Next(w1, Boot);
    var w3 := Next(w2, BootReconcile(true, true));
    assert start[1..] == [Boot, BootReconcile(true, true)];
    assert start[1..][1..] == [BootReconcile(true, true)];
    assert RunSteps(w2, [BootReconcile(true, true)]) == w3;
    assert RunSteps(w1, start[1..]) == w3;
    RunConcatenation(w, start + Operations(digest), [BootCleanup]);
    RunConcatenation(w, start, Operations(digest));
    if w3.process.Finalizing? {
      FinalizingOperations(w3, digest);
    } else {
      assert Operations(digest) == seq(5, _ => Operation(digest));
      IdleOperations(w3, digest, 5);
    }
    assert RunSteps(w3, Operations(digest)).process == BootRelease;
    var w4 := RunSteps(w3, Operations(digest));
    assert RunSteps(w4, [BootCleanup]) == Next(w4, BootCleanup);
  }
}
