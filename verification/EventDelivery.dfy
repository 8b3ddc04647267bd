/** What a connected client gets: which events a poll sends, in which order, and that the outcome is one of them. */
module EventDelivery {
  import opened Models
  import opened RunStore
  import opened RunLifecycle
  import opened CrashConvergence

  // ----- what is fetched -----

  /** Over a ledger without gaps a fetch lists exactly the events after the cursor, in order. */
  lemma {:induction false} FetchLists(events: seq<Event>, cursor: nat, first: nat)
    requires forall i | 0 <= i < |events| :: events[i].sequence == first + i + 1
    ensures After(events, cursor)
         == if cursor <= first then events else if cursor <= first + |events| then events[cursor - first..] else []
  {
    if events != [] {
      FetchLists(events[1..], cursor, first + 1);
    }
  }

  /** Over any ledger a fetch keeps exactly the later events. */
  lemma {:induction false} FetchKeeps(events: seq<Event>, cursor: nat)
    ensures forall e :: e in After(events, cursor) <==> e in events && cursor < e.sequence
  {
    if events != [] {
      FetchKeeps(events[1..], cursor);
      assert events == [events[0]] + events[1..];
    }
  }

  // ----- what is sent -----

  function SentBy(w: World, step: Step): seq<Event> {
    if step.HandleEvent? && Sends(w, step.readable) then [w.stream.value.fetched[0]] else []
  }

  /** The events that the stream sends along these steps. */
  ghost function Sent(w: World, steps: seq<Step>): seq<Event>
    decreases |steps|
  {
    if steps == [] then [] else SentBy(w, steps[0]) + Sent(Next(w, steps[0]), steps[1..])
  }

  /** The row is read and the next event handled, so many times. */
  function Looks(n: nat): seq<Step> {
    if n == 0 then [] else [ReadRow, HandleEvent(true)] + Looks(n - 1)
  }

  /** One poll, undisturbed: fetch, then go through all that was fetched. */
  function Poll(w: World): seq<Step>
    requires w.stream.Some?
  {
    [FetchEvents] + Looks(|After(w.store.ledger, w.stream.value.cursor)|)
  }

  /** All but the outcomes that the status contradicts. */
  function Fitting(events: seq<Event>, status: RunStatus): seq<Event> {
    if events == [] then []
    else if !Terminal(events[0].kind) || events[0].kind in TerminalEvents(status) then
      [events[0]] + Fitting(events[1..], status)
    else Fitting(events[1..], status)
  }

  /** The events before the first outcome. */
  function BeforeOutcome(events: seq<Event>): seq<Event> {
    if events == [] || Terminal(events[0].kind) then [] else [events[0]] + BeforeOutcome(events[1..])
  }

  function Kinds(events: seq<Event>): set<EventType> {
    set e | e in events :: e.kind
  }

  function CursorAfter(cursor: nat, events: seq<Event>): nat {
    if events == [] then cursor else events[|events| - 1].sequence
  }

  lemma TwoMore(w: World, a: Step, b: Step, rest: seq<Step>)
    ensures Sent(w, [a, b] + rest) == SentBy(w, a) + (SentBy(Next(w, a), b) + Sent(Next(Next(w, a), b), rest))
    ensures RunSteps(w, [a, b] + rest) == RunSteps(Next(Next(w, a), b), rest)
  {
    hide Next, SentBy;
    var steps := [a, b] + rest;
    assert steps[1..] == [b] + rest && steps[1..][1..] == rest;
    assert Sent(Next(w, a), steps[1..]) == SentBy(Next(w, a), b) + Sent(Next(Next(w, a), b), rest);
    assert RunSteps(Next(w, a), steps[1..]) == RunSteps(Next(Next(w, a), b), rest);
  }

  /** One look at an event over a committed row: sent if it fits, skipped if not, behind the cursor in any case. */
  lemma OneLook(w: World, s: Stream)
    requires w.stream == Some(s) && s.fetched != [] && Backed(w.store.row, w.store.file)
    ensures var fits := !Terminal(s.fetched[0].kind) || s.fetched[0].kind in TerminalEvents(w.store.row.status);
      var w1 := Next(w, ReadRow);
      && SentBy(w, ReadRow) == []
      && SentBy(w1, HandleEvent(true)) == (if fits then [s.fetched[0]] else [])
      && Next(w1, HandleEvent(true)) == w.(
           stream := Some(Stream(s.fetched[0].sequence, s.fetched[1..], None)),
           delivered := if fits then w.delivered + {s.fetched[0].kind} else w.delivered)
  {
    var w1 := Next(w, ReadRow);
    var row := w.store.row;
    assert DeliveryState(row) != Uncommitted;
    assert DeliveryState(row) == ReceiptBacked ==> ReceiptStateOf(row, w.store.file, true) == Ready;
  }

  lemma {:induction false} LooksSend(w: World, s: Stream)
    requires w.stream == Some(s) && Backed(w.store.row, w.store.file)
    ensures Sent(w, Looks(|s.fetched|)) == Fitting(s.fetched, w.store.row.status)
    ensures s.fetched != [] ==> RunSteps(w, Looks(|s.fetched|)) == w.(
      stream := Some(Stream(CursorAfter(s.cursor, s.fetched), [], None)),
      delivered := w.delivered + Kinds(Fitting(s.fetched, w.store.row.status)))
    decreases |s.fetched|
  {
    hide Next, SentBy, Backed;
    if s.fetched != [] {
      var n, status := |s.fetched|, w.store.row.status;
      var first, rest := s.fetched[0], s.fetched[1..];
      OneLook(w, s);
      TwoMore(w, ReadRow, HandleEvent(true), Looks(n - 1));
      var w2 := Next(Next(w, ReadRow), HandleEvent(true));
      LooksSend(w2, w2.stream.value);
      var more, all := Fitting(rest, status), Fitting(s.fetched, status);
      assert Kinds(all) == if all == more then Kinds(more) else {first.kind} + Kinds(more);
      if rest == [] {
        assert RunSteps(w, Looks(n)) == w2;
      }
    }
  }

  /**
   Over a committed row a poll sends every event after the cursor in order, leaves out only the
   outcomes that the status contradicts, and ends behind the last event.
   */
  lemma PollSends(w: World)
    requires w.stream.Some? && Backed(w.store.row, w.store.file)
    ensures var cursor := w.stream.value.cursor;
      var events := After(w.store.ledger, cursor);
      && Sent(w, Poll(w)) == Fitting(events, w.store.row.status)
      && RunSteps(w, Poll(w)).delivered == w.delivered + Kinds(Fitting(events, w.store.row.status))
      && RunSteps(w, Poll(w)).store == w.store
      && RunSteps(w, Poll(w)).stream.Some?
      && RunSteps(w, Poll(w)).stream.value.cursor == CursorAfter(cursor, events)
  {
    hide Backed, After;
    var w1 := Next(w, FetchEvents);
    var looks := Looks(|After(w.store.ledger, w.stream.value.cursor)|);
    assert Poll(w)[1..] == looks;
    LooksSend(w1, w1.stream.value);
  }

  /** The row cannot announce an outcome: it has none, or its receipt is readable and says another one. */
  predicate Unannounced(store: Store) {
    || DeliveryState(store.row) == Uncommitted
    || (&& DeliveryState(store.row) == ReceiptBacked
        && Loaded(store.file).Some?
        && store.row.receiptDigest == Some(Loaded(store.file).value.digest)
        && Loaded(store.file).value.status != store.row.status)
  }

  /** The row claims a receipt that is gone, damaged or not the one it names. */
  predicate Unfounded(store: Store) {
    && DeliveryState(store.row) == ReceiptBacked
    && (Loaded(store.file).None? || store.row.receiptDigest != Some(Loaded(store.file).value.digest))
  }

  /** Over such rows an outcome is not sent: the stream stays before it, or closes. */
  lemma OneWait(w: World, s: Stream)
    requires w.stream == Some(s) && s.fetched != []
    requires Unannounced(w.store) || Unfounded(w.store)
    ensures var outcome := Terminal(s.fetched[0].kind);
      var w1 := Next(w, ReadRow);
      && SentBy(w, ReadRow) == []
      && SentBy(w1, HandleEvent(true)) == (if outcome then [] else [s.fetched[0]])
      && Next(w1, HandleEvent(true)).store == w.store
      && Next(w1, HandleEvent(true)).stream
           == (if !outcome then Some(Stream(s.fetched[0].sequence, s.fetched[1..], None))
               else if Unannounced(w.store) then Some(Stream(s.cursor, [], None))
               else None)
  {
  }

  /** Where the stream stands after it went through what it fetched. */
  function StreamAfter(store: Store, cursor: nat, fetched: seq<Event>): Option<nat> {
    if BeforeOutcome(fetched) != fetched && Unfounded(store) then None
    else Some(CursorAfter(cursor, BeforeOutcome(fetched)))
  }

  function CursorOf(w: World): Option<nat> {
    if w.stream.Some? then Some(w.stream.value.cursor) else None
  }

  /**
   Over a row that announces nothing a poll sends what comes before the first outcome and stays before
   it, so that a client who reconnects still gets it; over an unfounded one it closes there.
   */
  lemma PollWaits(w: World)
    requires w.stream.Some? && (Unannounced(w.store) || Unfounded(w.store))
    ensures var events := After(w.store.ledger, w.stream.value.cursor);
      && Sent(w, Poll(w)) == BeforeOutcome(events)
      && CursorOf(RunSteps(w, Poll(w))) == StreamAfter(w.store, w.stream.value.cursor, events)
  {
    hide After, Unannounced, Unfounded;
    var w1 := Next(w, FetchEvents);
    var looks := Looks(|After(w.store.ledger, w.stream.value.cursor)|);
    assert Poll(w)[1..] == looks;
    LooksWait(w1, w1.stream.value);
  }

  lemma {:induction false} LooksWait(w: World, s: Stream)
    requires w.stream == Some(s) && (Unannounced(w.store) || Unfounded(w.store))
    ensures Sent(w, Looks(|s.fetched|)) == BeforeOutcome(s.fetched)
    ensures CursorOf(RunSteps(w, Looks(|s.fetched|))) == StreamAfter(w.store, s.cursor, s.fetched)
    decreases |s.fetched|
  {
    hide Next, SentBy, Unannounced, Unfounded, Terminal;
    if s.fetched != [] {
      var n := |s.fetched|;
      OneWait(w, s);
      NotBoth(w.store);
      TwoMore(w, ReadRow, HandleEvent(true), Looks(n - 1));
      var w2 := Next(Next(w, ReadRow), HandleEvent(true));
      if Terminal(s.fetched[0].kind) {
        IdleLooks(w2, n - 1);
      } else {
        LooksWait(w2, w2.stream.value);
        StandsBehind(w.store, s.cursor, s.fetched);
      }
    }
  }

  lemma NotBoth(store: Store)
    ensures !(Unannounced(store) && Unfounded(store))
  {
  }

  /** Behind one more event the stream stands where the rest leads it. */
  lemma StandsBehind(store: Store, cursor: nat, fetched: seq<Event>)
    requires fetched != [] && !Terminal(fetched[0].kind)
    ensures StreamAfter(store, cursor, fetched) == StreamAfter(store, fetched[0].sequence, fetched[1..])
    ensures BeforeOutcome(fetched) == [fetched[0]] + BeforeOutcome(fetched[1..])
  {
    hide Unfounded;
    assert fetched == [fetched[0]] + fetched[1..];
  }

  /** Nothing fetched, nothing sent. */
  lemma {:induction false} IdleLooks(w: World, n: nat)
    requires w.stream.Some? ==> w.stream.value.fetched == []
    ensures Sent(w, Looks(n)) == []
    ensures CursorOf(RunSteps(w, Looks(n))) == CursorOf(w)
    decreases n
  {
    if n != 0 {
      TwoMore(w, ReadRow, HandleEvent(true), Looks(n - 1));
      IdleLooks(Next(Next(w, ReadRow), HandleEvent(true)), n - 1);
    }
  }

  // ----- the outcome is among them -----

  /** A sealed receipt holds the first events of the ledger. */
  predicate ReceiptInLedger(store: Store) {
    store.file.Sealed? ==> store.file.receipt.events <= store.ledger
  }

  lemma StepKeepsReceipt(w: World, step: Step)
    requires ReceiptInLedger(w.store)
    ensures ReceiptInLedger(Next(w, step).store)
  {
    hide ValidReceipt, Contains;
  }

  lemma {:induction false} StepsKeepReceipt(w: World, steps: seq<Step>)
    requires ReceiptInLedger(w.store)
    ensures ReceiptInLedger(RunSteps(w, steps).store)
    decreases |steps|
  {
    hide Next;
    if steps != [] {
      StepKeepsReceipt(w, steps[0]);
      StepsKeepReceipt(Next(w, steps[0]), steps[1..]);
    }
  }

  lemma {:induction false} ExecutionKeepsReceipt(worlds: seq<World>, steps: seq<Step>, i: nat)
    requires Execution(worlds, steps) && i < |worlds|
    ensures ReceiptInLedger(worlds[i].store)
  {
    hide Next;
    if i != 0 {
      ExecutionKeepsReceipt(worlds, steps, i - 1);
      StepKeepsReceipt(worlds[i - 1], steps[i - 1]);
    }
  }

  lemma {:induction false} FittingKeeps(events: seq<Event>, status: RunStatus)
    ensures forall e :: (e in Fitting(events, status)
                         <==> e in events && (!Terminal(e.kind) || e.kind in TerminalEvents(status)))
  {
    if events != [] {
      FittingKeeps(events[1..], status);
      assert events == [events[0]] + events[1..];
    }
  }

  /** The event that announces the outcome of a finished run. */
  function OutcomeOf(store: Store): Event
    requires Converged(store)
  {
    var events := Loaded(store.file).value.events;
    events[|events| - 1]
  }

  /** A poll on a finished run delivers its outcome to every client that has not seen it. */
  lemma OutcomeIsSent(w: World)
    requires w.stream.Some? && Converged(w.store) && ReceiptInLedger(w.store)
    requires w.stream.value.cursor < OutcomeOf(w.store).sequence
    ensures var e := OutcomeOf(w.store);
      && Terminal(e.kind) && e.kind in TerminalEvents(w.store.row.status)
      && e in Sent(w, Poll(w))
      && e.kind in RunSteps(w, Poll(w)).delivered
  {
    hide *;
    OutcomeIsRecorded(w.store);
    var e, events := OutcomeOf(w.store), After(w.store.ledger, w.stream.value.cursor);
    FetchKeeps(w.store.ledger, w.stream.value.cursor);
    FittingKeeps(events, w.store.row.status);
    PollSends(w);
    KindOf(Fitting(events, w.store.row.status), e);
  }

  lemma OutcomeIsRecorded(store: Store)
    requires Converged(store) && ReceiptInLedger(store)
    ensures var e := OutcomeOf(store);
      e in store.ledger && Terminal(e.kind) && e.kind in TerminalEvents(store.row.status)
    ensures Backed(store.row, store.file)
  {
  }

  lemma KindOf(events: seq<Event>, e: Event)
    requires e in events
    ensures e.kind in Kinds(events)
  {
  }

  /**
   Stop the server at any point of any run whose ledger appends and call records succeeded. After a
   restart without faults, a client that connects anew gets every event of the ledger in order but
   the outcomes given up on the way, and among them the outcome that the row now has.
   */
  lemma EveryRunIsAnswered(worlds: seq<World>, steps: seq<Step>, i: nat, digest: nat)
    requires Execution(worlds, steps) && i < |worlds|
    requires forall k | 0 <= k < |steps| :: Faithful(worlds[k], steps[k])
    ensures var restarted := RunSteps(worlds[i], Restart(digest));
      var w := Next(restarted, OpenStream(0));
      && Converged(w.store) && w.stream == Some(Stream(0, [], None))
      && Sent(w, Poll(w)) == Fitting(w.store.ledger, w.store.row.status)
      && OutcomeOf(w.store) in Sent(w, Poll(w))
      && OutcomeOf(w.store).kind in TerminalEvents(w.store.row.status)
  {
    hide Poll, Sent, RunSteps, Fitting, Reconcile, Restart, OnlyInterruptionFollows;
    CrashConverges(worlds, steps, i, digest);
    RestartIsReconcile(worlds[i], digest);
    ExecutionKeepsReceipt(worlds, steps, i);
    StepsKeepReceipt(worlds[i], Restart(digest));
    ExecutionTidy(worlds, steps, i);
    ReconcileKeepsNumbers(worlds[i].store, digest);
    var w := Next(RunSteps(worlds[i], Restart(digest)), OpenStream(0));
    FetchLists(w.store.ledger, 0, 0);
    PollSends(w);
    OutcomeIsSent(w);
  }

  lemma ReconcileKeepsNumbers(store: Store, digest: nat)
    requires NoGap(store)
    ensures NoGap(Reconcile(store, digest))
  {
    hide Finalize;
    if Recoverable(store.row) {
      var (recovered, outcome) := Recover(store, true, true);
      if outcome != Recovered {
        RecoveryPass(recovered, digest);
      }
    }
  }
}
