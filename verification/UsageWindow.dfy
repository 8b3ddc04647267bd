/**
 Hourly request windows per browser session and per network address. Every window is tied to a
 ghost log of the admissions still standing: those made and not rolled back.
 */
module UsageWindow {

  type Key = string
  type RunId = string
  type Windows = map<Key, seq<real>>

  const HOUR: real := 3600.0

  datatype Side = Session | Address

  datatype Attempt = Attempt(session: Key, address: Key, time: real)

  /** A standing admission; it is open until its run is released. */
  datatype Entry = Entry(run: RunId, at: Attempt, isOpen: bool)

  function KeyOf(e: Entry, side: Side): Key {
    if side.Session? then e.at.session else e.at.address
  }

  /** Runs are admitted once, and the clock never goes back. */
  predicate Ordered(log: seq<Entry>) {
    && (forall i, j | 0 <= i < j < |log| :: log[i].at.time <= log[j].at.time)
    && (forall i, j | 0 <= i < j < |log| :: log[i].run != log[j].run)
  }

  /** Times of the standing admissions of one key since a moment. */
  function Kept(log: seq<Entry>, side: Side, key: Key, since: real): seq<real> {
    if log == [] then []
    else
      var last := log[|log| - 1];
      var before := Kept(log[..|log| - 1], side, key, since);
      if KeyOf(last, side) == key && last.at.time >= since then before + [last.at.time] else before
  }

  /** Attempts that can still be rolled back. */
  function OpenAttempts(log: seq<Entry>, since: real): map<RunId, Attempt> {
    if log == [] then map[]
    else
      var last := log[|log| - 1];
      var before := OpenAttempts(log[..|log| - 1], since);
      if last.isOpen && last.at.time >= since then before[last.run := last.at] else before
  }

  /** The log once a run is released: its admission stands but can no longer be rolled back. */
  function Close(log: seq<Entry>, run: RunId): seq<Entry> {
    if log == [] then []
    else
      var last := log[|log| - 1];
      Close(log[..|log| - 1], run) + [if last.run == run then last.(isOpen := false) else last]
  }

  /** The log once a run is rolled back: its admission is gone unless it was released first. */
  function Cancel(log: seq<Entry>, run: RunId): seq<Entry> {
    if log == [] then []
    else
      var last := log[|log| - 1];
      var before := Cancel(log[..|log| - 1], run);
      if last.run == run && last.isOpen then before else before + [last]
  }

  // ----- pruning -----

  function DropBelow(window: seq<real>, threshold: real): seq<real> {
    if window != [] && window[0] < threshold then DropBelow(window[1..], threshold) else window
  }

  predicate AtMost(window: seq<real>, x: real) {
    forall i | 0 <= i < |window| :: window[i] <= x
  }

  predicate Sorted(window: seq<real>) {
    forall i, j | 0 <= i < j < |window| :: window[i] <= window[j]
  }

  lemma {:induction false} DropBelowLast(window: seq<real>, x: real, threshold: real)
    requires AtMost(window, x)
    ensures DropBelow(window + [x], threshold)
         == if x >= threshold then DropBelow(window, threshold) + [x] else []
    ensures x < threshold ==> DropBelow(window, threshold) == []
  {
    if window != [] && window[0] < threshold {
      assert (window + [x])[1..] == window[1..] + [x];
      DropBelowLast(window[1..], x, threshold);
    } else if window == [] {
      assert window + [x] == [x] && [x][1..] == [];
    }
  }

  lemma {:induction false} KeptAtMost(log: seq<Entry>, side: Side, key: Key, since: real, x: real)
    requires forall e | e in log :: e.at.time <= x
    ensures AtMost(Kept(log, side, key, since), x)
  {
    if log != [] {
      assert forall e | e in log[..|log| - 1] :: e in log;
      assert log[|log| - 1] in log;
      KeptAtMost(log[..|log| - 1], side, key, since, x);
    }
  }

  lemma KeptBelow(log: seq<Entry>, side: Side, key: Key, since: real)
    requires Ordered(log) && log != []
    ensures AtMost(Kept(log[..|log| - 1], side, key, since), log[|log| - 1].at.time)
  {
    KeptAtMost(log[..|log| - 1], side, key, since, log[|log| - 1].at.time);
  }

  /** Popping expired times from the front leaves exactly the unexpired admissions. */
  lemma {:induction false} PruneKeepsUnexpired(log: seq<Entry>, side: Side, key: Key, since: real, threshold: real)
    requires Ordered(log) && since <= threshold
    ensures DropBelow(Kept(log, side, key, since), threshold) == Kept(log, side, key, threshold)
  {
    if log != [] {
      var front, last := log[..|log| - 1], log[|log| - 1];
      PruneKeepsUnexpired(front, side, key, since, threshold);
      KeptBelow(log, side, key, since);
      if KeyOf(last, side) == key && last.at.time >= since {
        DropBelowLast(Kept(front, side, key, since), last.at.time, threshold);
      }
    }
  }

  lemma {:induction false} OpenAttemptsLogged(log: seq<Entry>, since: real, run: RunId)
    requires run in OpenAttempts(log, since)
    ensures exists e :: (e in log && e.run == run && e.isOpen && e.at == OpenAttempts(log, since)[run]
                         && e.at.time >= since)
  {
    var front, last := log[..|log| - 1], log[|log| - 1];
    if last.run == run && last.isOpen && last.at.time >= since {
      assert last in log;
    } else {
      OpenAttemptsLogged(front, since, run);
      var e :| e in front && e.run == run && e.isOpen && e.at == OpenAttempts(front, since)[run] && e.at.time >= since;
      assert e in log;
    }
  }

  lemma NotLoggedBefore(log: seq<Entry>, since: real)
    requires Ordered(log) && log != []
    ensures log[|log| - 1].run !in OpenAttempts(log[..|log| - 1], since)
  {
    if log[|log| - 1].run in OpenAttempts(log[..|log| - 1], since) {
      OpenAttemptsLogged(log[..|log| - 1], since, log[|log| - 1].run);
    }
  }

  function Unexpired(attempts: map<RunId, Attempt>, threshold: real): map<RunId, Attempt> {
    map r | r in attempts && attempts[r].time >= threshold :: attempts[r]
  }

  lemma {:induction false} PruneAttempts(log: seq<Entry>, since: real, threshold: real)
    requires Ordered(log) && since <= threshold
    ensures Unexpired(OpenAttempts(log, since), threshold) == OpenAttempts(log, threshold)
  {
    if log != [] {
      PruneAttempts(log[..|log| - 1], since, threshold);
      NotLoggedBefore(log, since);
      NotLoggedBefore(log, threshold);
    }
  }

  // ----- release and rollback -----

  function RemoveFirst(window: seq<real>, x: real): seq<real> {
    if window == [] then []
    else if window[0] == x then window[1..]
    else [window[0]] + RemoveFirst(window[1..], x)
  }

  lemma {:induction false} RemoveNewest(window: seq<real>, x: real)
    requires AtMost(window, x) && Sorted(window)
    ensures RemoveFirst(window + [x], x) == window
  {
    if window != [] {
      assert (window + [x])[1..] == window[1..] + [x];
      if window[0] == x {
        assert forall i | 0 <= i < |window| :: window[i] == x;
        assert window[1..] + [x] == window;
      } else {
        RemoveNewest(window[1..], x);
      }
    } else {
      assert [x][1..] == [];
    }
  }

  lemma {:induction false} RemoveOlder(window: seq<real>, x: real, y: real)
    requires x in window
    ensures RemoveFirst(window + [y], x) == RemoveFirst(window, x) + [y]
  {
    assert (window + [y])[1..] == window[1..] + [y];
    if window[0] != x {
      RemoveOlder(window[1..], x, y);
    }
  }

  lemma {:induction false} KeptSorted(log: seq<Entry>, side: Side, key: Key, since: real)
    requires Ordered(log)
    ensures Sorted(Kept(log, side, key, since))
  {
    if log != [] {
      KeptSorted(log[..|log| - 1], side, key, since);
      KeptBelow(log, side, key, since);
    }
  }

  lemma {:induction false} KeptOf(log: seq<Entry>, e: Entry, side: Side, since: real)
    requires e in log && e.at.time >= since
    ensures e.at.time in Kept(log, side, KeyOf(e, side), since)
  {
    if log[|log| - 1] != e {
      KeptOf(log[..|log| - 1], e, side, since);
    }
  }

  lemma {:induction false} CancelAbsent(log: seq<Entry>, run: RunId)
    requires forall e | e in log :: e.run != run
    ensures Cancel(log, run) == log
  {
    if log != [] {
      assert log[|log| - 1] in log;
      CancelAbsent(log[..|log| - 1], run);
    }
  }

  lemma CancelNewest(log: seq<Entry>, side: Side, key: Key, since: real)
    requires Ordered(log) && log != []
    requires var e := log[|log| - 1]; e.isOpen && e.at.time >= since
    ensures var e := log[|log| - 1];
      Kept(Cancel(log, e.run), side, key, since)
        == if KeyOf(e, side) == key then RemoveFirst(Kept(log, side, key, since), e.at.time)
           else Kept(log, side, key, since)
  {
    hide RemoveFirst;
    var front, e := log[..|log| - 1], log[|log| - 1];
    CancelAbsent(front, e.run);
    KeptBelow(log, side, key, since);
    KeptSorted(front, side, key, since);
    RemoveNewest(Kept(front, side, key, since), e.at.time);
  }

  /** Removing one equal time from a window is removing that admission, whichever equal one is taken. */
  lemma {:induction false} CancelRemoves(log: seq<Entry>, e: Entry, side: Side, key: Key, since: real)
    requires Ordered(log) && e in log && e.isOpen && e.at.time >= since
    ensures Kept(Cancel(log, e.run), side, key, since)
         == if KeyOf(e, side) == key then RemoveFirst(Kept(log, side, key, since), e.at.time)
            else Kept(log, side, key, since)
  {
    var front, last := log[..|log| - 1], log[|log| - 1];
    if last == e {
      CancelNewest(log, side, key, since);
    } else {
      assert e in front && last.run != e.run;
      hide Ordered, KeyOf, RemoveFirst;
      CancelRemoves(front, e, side, key, since);
      KeptAppend(Cancel(front, e.run), last, side, key, since);
      if KeyOf(e, side) == key {
        KeptOf(front, e, side, since);
        RemoveOlder(Kept(front, side, key, since), e.at.time, last.at.time);
      }
    }
  }

  lemma KeptAppend(log: seq<Entry>, e: Entry, side: Side, key: Key, since: real)
    ensures Kept(log + [e], side, key, since)
         == if KeyOf(e, side) == key && e.at.time >= since then Kept(log, side, key, since) + [e.at.time]
            else Kept(log, side, key, since)
  {
    assert (log + [e])[..|log|] == log;
  }

  lemma OpenAppend(log: seq<Entry>, e: Entry, since: real)
    ensures OpenAttempts(log + [e], since)
         == if e.isOpen && e.at.time >= since then OpenAttempts(log, since)[e.run := e.at] else OpenAttempts(log, since)
  {
    assert (log + [e])[..|log|] == log;
  }

  /** Cancelling an attempt that cannot be rolled back any more changes no window. */
  lemma {:induction false} CancelExpired(log: seq<Entry>, run: RunId, side: Side, key: Key, since: real)
    requires Ordered(log) && run !in OpenAttempts(log, since)
    ensures Kept(Cancel(log, run), side, key, since) == Kept(log, side, key, since)
  {
    if log != [] {
      var front, last := log[..|log| - 1], log[|log| - 1];
      assert run !in OpenAttempts(front, since);
      CancelExpired(front, run, side, key, since);
      if !(last.run == run && last.isOpen) {
        KeptAppend(Cancel(front, run), last, side, key, since);
      }
    }
  }

  lemma {:induction false} CancelAttempts(log: seq<Entry>, run: RunId, since: real)
    ensures OpenAttempts(Cancel(log, run), since) == OpenAttempts(log, since) - {run}
  {
    if log != [] {
      var front, last := log[..|log| - 1], log[|log| - 1];
      CancelAttempts(front, run, since);
      if last.run == run && last.isOpen {
        UpdateThenRemove(OpenAttempts(front, since), run, last.at);
      } else {
        OpenAppend(Cancel(front, run), last, since);
        if last.run != run {
          UpdateOther(OpenAttempts(front, since), run, last.run, last.at);
        }
      }
    }
  }

  lemma UpdateThenRemove(m: map<RunId, Attempt>, run: RunId, a: Attempt)
    ensures m[run := a] - {run} == m - {run}
  {
  }

  lemma UpdateOther(m: map<RunId, Attempt>, run: RunId, other: RunId, a: Attempt)
    requires run != other
    ensures (m - {run})[other := a] == m[other := a] - {run}
  {
  }

  lemma {:induction false} CancelOrdered(log: seq<Entry>, run: RunId)
    requires Ordered(log)
    ensures Ordered(Cancel(log, run)) && forall e | e in Cancel(log, run) :: e in log
  {
    if log != [] {
      var front, last := log[..|log| - 1], log[|log| - 1];
      CancelOrdered(front, run);
      assert forall e | e in front :: e in log && e.at.time <= last.at.time && e.run != last.run;
    }
  }

  lemma {:induction false} CloseKeeps(log: seq<Entry>, run: RunId, since: real)
    requires Ordered(log)
    ensures |Close(log, run)| == |log|
    ensures forall i | 0 <= i < |log| :: Close(log, run)[i].run == log[i].run && Close(log, run)[i].at == log[i].at
    ensures OpenAttempts(Close(log, run), since) == OpenAttempts(log, since) - {run}
    ensures forall side, key :: Kept(Close(log, run), side, key, since) == Kept(log, side, key, since)
  {
    CloseShape(log, run);
    CloseAttempts(log, run, since);
    forall side, key ensures Kept(Close(log, run), side, key, since) == Kept(log, side, key, since) {
      CloseWindow(log, run, side, key, since);
    }
  }

  lemma {:induction false} CloseShape(log: seq<Entry>, run: RunId)
    ensures |Close(log, run)| == |log|
    ensures forall i | 0 <= i < |log| :: Close(log, run)[i].run == log[i].run && Close(log, run)[i].at == log[i].at
  {
    if log != [] { CloseShape(log[..|log| - 1], run); }
  }

  lemma {:induction false} CloseAttempts(log: seq<Entry>, run: RunId, since: real)
    requires Ordered(log)
    ensures OpenAttempts(Close(log, run), since) == OpenAttempts(log, since) - {run}
  {
    if log != [] {
      var front, last := log[..|log| - 1], log[|log| - 1];
      CloseAttempts(front, run, since);
      NotLoggedBefore(log, since);
      hide Ordered;
      OpenAppend(Close(front, run), if last.run == run then last.(isOpen := false) else last, since);
    }
  }

  lemma {:induction false} CloseWindow(log: seq<Entry>, run: RunId, side: Side, key: Key, since: real)
    ensures Kept(Close(log, run), side, key, since) == Kept(log, side, key, since)
  {
    if log != [] {
      var front, last := log[..|log| - 1], log[|log| - 1];
      CloseWindow(front, run, side, key, since);
      KeptAppend(Close(front, run), if last.run == run then last.(isOpen := false) else last, side, key, since);
    }
  }

  // ----- the windows -----

  datatype Decision =
    | Admitted(sessionAttempts: nat, addressAttempts: nat)
    | SessionLimited
    | AddressLimited

  function Window(windows: Windows, key: Key): seq<real> {
    if key in windows then windows[key] else []
  }

  method Prune(window: seq<real>, now: real) returns (pruned: seq<real>)
    ensures pruned == DropBelow(window, now - HOUR)
  {
    pruned := window;
    while pruned != [] && pruned[0] < now - HOUR
      invariant DropBelow(pruned, now - HOUR) == DropBelow(window, now - HOUR)
      decreases |pruned|
    {
      pruned := pruned[1..];
    }
  }

  /** Every window with its expired times gone. */
  ghost predicate IsPruned(pruned: Windows, windows: Windows, threshold: real) {
    forall key :: Window(pruned, key) == DropBelow(Window(windows, key), threshold)
  }

  method PruneAll(windows: Windows, now: real) returns (pruned: Windows)
    ensures IsPruned(pruned, windows, now - HOUR)
    ensures forall key | key in pruned :: pruned[key] != []
  {
    pruned := windows;
    var keys := windows.Keys;
    while keys != {}
      invariant keys <= windows.Keys && pruned.Keys <= windows.Keys
      invariant forall key | key in keys :: key in pruned && pruned[key] == windows[key]
      invariant forall key | key !in keys :: Window(pruned, key) == DropBelow(Window(windows, key), now - HOUR)
      invariant forall key | key in pruned && key !in keys :: pruned[key] != []
      decreases |keys|
    {
      var key :| key in keys;
      var window := Prune(pruned[key], now);
      pruned := pruned[key := window];
      if window == [] {
        pruned := pruned - {key};
      }
      keys := keys - {key};
    }
  }

  /** One occurrence of a time taken from a window. */
  method Remove(window: seq<real>, time: real) returns (rest: seq<real>)
    ensures rest == RemoveFirst(window, time)
  {
    var i := 0;
    while i < |window| && window[i] != time
      invariant 0 <= i <= |window|
      invariant window[..i] + RemoveFirst(window[i..], time) == RemoveFirst(window, time)
    {
      assert window[i..][1..] == window[i + 1..];
      i := i + 1;
    }
    if i == |window| {
      return window;
    }
    assert window[i..][1..] == window[i + 1..];
    rest := window[..i] + window[i + 1..];
  }

  /** One occurrence of a time taken from a key's window, and the key dropped when nothing is left. */
  method WithoutTime(windows: Windows, key: Key, time: real) returns (w: Windows)
    ensures forall k :: Window(w, k) == if k == key then RemoveFirst(Window(windows, k), time) else Window(windows, k)
    ensures key in w ==> w[key] != []
  {
    w := windows;
    if key in windows {
      var rest := Remove(windows[key], time);
      w := windows[key := rest];
    }
    if Window(w, key) == [] {
      w := w - {key};
    }
  }

  // ----- windows and the log -----

  function Positive(limit: int): nat {
    if limit < 0 then 0 else limit
  }

  /** Every window holds exactly the times of the standing admissions since a moment. */
  ghost predicate Matches(windows: Windows, log: seq<Entry>, side: Side, since: real) {
    forall key :: Window(windows, key) == Kept(log, side, key, since)
  }

  ghost predicate Limited(log: seq<Entry>, side: Side, since: real, limit: int) {
    forall key {:trigger Kept(log, side, key, since)} :: |Kept(log, side, key, since)| <= Positive(limit)
  }

  lemma {:induction false} DropShorter(window: seq<real>, threshold: real)
    ensures |DropBelow(window, threshold)| <= |window|
  {
    if window != [] && window[0] < threshold { DropShorter(window[1..], threshold); }
  }

  lemma {:induction false} RemoveShorter(window: seq<real>, x: real)
    ensures |RemoveFirst(window, x)| <= |window|
  {
    if window != [] && window[0] != x { RemoveShorter(window[1..], x); }
  }

  lemma PrunedMatches(windows: Windows, pruned: Windows, log: seq<Entry>, side: Side, since: real, threshold: real)
    requires Ordered(log) && since <= threshold && Matches(windows, log, side, since)
    requires IsPruned(pruned, windows, threshold)
    ensures Matches(pruned, log, side, threshold)
  {
    hide Ordered, Kept, DropBelow, Window;
    forall key ensures Window(pruned, key) == Kept(log, side, key, threshold) {
      PruneKeepsUnexpired(log, side, key, since, threshold);
      assert Window(pruned, key) == DropBelow(Window(windows, key), threshold);
    }
  }

  lemma AppendMatches(windows: Windows, log: seq<Entry>, e: Entry, side: Side, since: real)
    requires Matches(windows, log, side, since) && e.at.time >= since
    ensures Matches(windows[KeyOf(e, side) := Window(windows, KeyOf(e, side)) + [e.at.time]], log + [e], side, since)
  {
    hide Kept, KeyOf;
    var k := KeyOf(e, side);
    var grown := windows[k := Window(windows, k) + [e.at.time]];
    forall key ensures Window(grown, key) == Kept(log + [e], side, key, since) {
      KeptAppend(log, e, side, key, since);
      assert Window(windows, key) == Kept(log, side, key, since);
    }
  }

  lemma CloseMatches(windows: Windows, log: seq<Entry>, run: RunId, side: Side, since: real)
    requires Ordered(log) && Matches(windows, log, side, since)
    ensures Matches(windows, Close(log, run), side, since)
  {
    hide Ordered, Kept, Close, Window, OpenAttempts;
    CloseKeeps(log, run, since);
  }

  /** The windows once a run is rolled back. */
  lemma CancelMatches(windows: Windows, w: Windows, log: seq<Entry>, run: RunId, side: Side, since: real)
    requires Ordered(log) && Matches(windows, log, side, since)
    requires if run !in OpenAttempts(log, since) then w == windows
      else
        var e := Entry(run, OpenAttempts(log, since)[run], true);
        forall k :: Window(w, k)
          == if k == KeyOf(e, side) then RemoveFirst(Window(windows, k), e.at.time) else Window(windows, k)
    ensures Matches(w, Cancel(log, run), side, since)
  {
    hide Ordered, Kept, Cancel, Window, OpenAttempts, RemoveFirst, KeyOf;
    forall key ensures Window(w, key) == Kept(Cancel(log, run), side, key, since) {
      assert Window(windows, key) == Kept(log, side, key, since);
      CancelWindow(log, run, side, key, since);
    }
  }

  /** What a rollback does to one window. */
  lemma CancelWindow(log: seq<Entry>, run: RunId, side: Side, key: Key, since: real)
    requires Ordered(log)
    ensures Kept(Cancel(log, run), side, key, since)
      == if run !in OpenAttempts(log, since) then Kept(log, side, key, since)
         else
           var e := Entry(run, OpenAttempts(log, since)[run], true);
           if key == KeyOf(e, side) then RemoveFirst(Kept(log, side, key, since), e.at.time)
           else Kept(log, side, key, since)
  {
    hide Ordered, Kept, Cancel, OpenAttempts, RemoveFirst, KeyOf;
    if run in OpenAttempts(log, since) {
      OpenAttemptsLogged(log, since, run);
      CancelRemoves(log, Entry(run, OpenAttempts(log, since)[run], true), side, key, since);
    } else {
      CancelExpired(log, run, side, key, since);
    }
  }

  lemma CancelAdmission(log: seq<Entry>, e: Entry)
    requires e.isOpen && forall x | x in log :: x.run != e.run
    ensures Cancel(log + [e], e.run) == log
  {
    assert (log + [e])[..|log|] == log;
    CancelAbsent(log, e.run);
  }

  lemma AppendOrdered(log: seq<Entry>, e: Entry)
    requires Ordered(log) && (forall x | x in log :: x.at.time <= e.at.time && x.run != e.run)
    ensures Ordered(log + [e])
  {
  }

  lemma CloseOrdered(log: seq<Entry>, run: RunId, clock: real)
    requires Ordered(log) && forall e | e in log :: e.at.time <= clock
    ensures Ordered(Close(log, run)) && forall e | e in Close(log, run) :: e.at.time <= clock
  {
    hide OpenAttempts, Kept, Close;
    CloseKeeps(log, run, clock);
    forall e | e in Close(log, run) ensures e.at.time <= clock {
      var i :| 0 <= i < |log| && Close(log, run)[i] == e;
      assert log[i] in log;
    }
  }

  // ----- calls -----

  datatype World = World(log: seq<Entry>, clock: real)

  datatype Limits = Limits(session: int, address: int)

  datatype Call =
    | Ask(now: real, run: RunId, session: Key, address: Key)
    | Finish(run: RunId)
    | Undo(run: RunId)

  /** Both keys have room in the hour ending now. */
  predicate HasRoom(log: seq<Entry>, ask: Call, limits: Limits)
    requires ask.Ask?
  {
    && |Kept(log, Session, ask.session, ask.now - HOUR)| < limits.session
    && |Kept(log, Address, ask.address, ask.now - HOUR)| < limits.address
  }

  function Next(w: World, call: Call, limits: Limits): World {
    match call
    case Ask(now, run, session, address) =>
      var e := Entry(run, Attempt(session, address, now), true);
      World(if HasRoom(w.log, call, limits) then w.log + [e] else w.log, now)
    case Finish(run) => w.(log := Close(w.log, run))
    case Undo(run) => w.(log := Cancel(w.log, run))
  }

  /** The clock does not go back and every run asks once. */
  predicate Allowed(w: World, call: Call) {
    call.Ask? ==> w.clock <= call.now && forall e | e in w.log :: e.run != call.run
  }

  ghost predicate Timely(w: World) {
    Ordered(w.log) && forall e | e in w.log :: e.at.time <= w.clock
  }

  /** No key has more standing admissions in the last hour than its limit. */
  ghost predicate WithinLimits(w: World, limits: Limits) {
    && Limited(w.log, Session, w.clock - HOUR, limits.session)
    && Limited(w.log, Address, w.clock - HOUR, limits.address)
  }

  lemma LaterLimited(log: seq<Entry>, side: Side, since: real, threshold: real, limit: int)
    requires Ordered(log) && since <= threshold && Limited(log, side, since, limit)
    ensures Limited(log, side, threshold, limit)
  {
    hide Ordered, Kept, DropBelow, Positive;
    forall key ensures |Kept(log, side, key, threshold)| <= Positive(limit) {
      PruneKeepsUnexpired(log, side, key, since, threshold);
      DropShorter(Kept(log, side, key, since), threshold);
    }
  }

  lemma AppendLimited(log: seq<Entry>, e: Entry, side: Side, since: real, limit: int)
    requires Limited(log, side, since, limit) && |Kept(log, side, KeyOf(e, side), since)| < limit
    ensures Limited(log + [e], side, since, limit)
  {
    hide Kept, KeyOf;
    forall key ensures |Kept(log + [e], side, key, since)| <= Positive(limit) {
      KeptAppend(log, e, side, key, since);
    }
  }

  lemma CancelLimited(log: seq<Entry>, run: RunId, side: Side, since: real, limit: int)
    requires Ordered(log) && Limited(log, side, since, limit)
    ensures Limited(Cancel(log, run), side, since, limit)
  {
    hide Ordered, Kept, Cancel, OpenAttempts, RemoveFirst, KeyOf, Positive;
    forall key ensures |Kept(Cancel(log, run), side, key, since)| <= Positive(limit) {
      CancelWindow(log, run, side, key, since);
      if run in OpenAttempts(log, since) {
        RemoveShorter(Kept(log, side, key, since), OpenAttempts(log, since)[run].time);
      }
    }
  }

  lemma NextTimely(w: World, call: Call, limits: Limits)
    requires Timely(w) && Allowed(w, call)
    ensures Timely(Next(w, call, limits))
  {
    hide HasRoom, Close, Cancel;
    match call
    case Ask(now, run, session, address) => AppendOrdered(w.log, Entry(run, Attempt(session, address, now), true));
    case Finish(run) => CloseOrdered(w.log, run, w.clock);
    case Undo(run) => CancelOrdered(w.log, run);
  }

  lemma NextWithinLimits(w: World, call: Call, limits: Limits)
    requires Timely(w) && Allowed(w, call) && WithinLimits(w, limits)
    ensures WithinLimits(Next(w, call, limits), limits)
  {
    hide Ordered, Limited, Kept, Close, Cancel, OpenAttempts;
    match call
    case Ask(now, run, session, address) =>
      LaterLimited(w.log, Session, w.clock - HOUR, now - HOUR, limits.session);
      LaterLimited(w.log, Address, w.clock - HOUR, now - HOUR, limits.address);
      if HasRoom(w.log, call, limits) {
        var e := Entry(run, Attempt(session, address, now), true);
        AppendLimited(w.log, e, Session, now - HOUR, limits.session);
        AppendLimited(w.log, e, Address, now - HOUR, limits.address);
      }
    case Finish(run) =>
      CloseLimited(w.log, run, Session, w.clock - HOUR, limits.session);
      CloseLimited(w.log, run, Address, w.clock - HOUR, limits.address);
    case Undo(run) =>
      CancelLimited(w.log, run, Session, w.clock - HOUR, limits.session);
      CancelLimited(w.log, run, Address, w.clock - HOUR, limits.address);
  }

  lemma CloseLimited(log: seq<Entry>, run: RunId, side: Side, since: real, limit: int)
    requires Ordered(log) && Limited(log, side, since, limit)
    ensures Limited(Close(log, run), side, since, limit)
  {
    hide Ordered, Kept, Close, OpenAttempts;
    CloseKeeps(log, run, since);
  }

  ghost predicate Execution(worlds: seq<World>, calls: seq<Call>, limits: Limits) {
    && |worlds| == |calls| + 1
    && worlds[0].log == []
    && forall i | 0 <= i < |calls| :: Allowed(worlds[i], calls[i]) && worlds[i + 1] == Next(worlds[i], calls[i], limits)
  }

  /** Over every run of asking, finishing and rolling back, no window of the last hour ever passes its limit. */
  lemma {:induction false} WindowsStayWithinLimits(worlds: seq<World>, calls: seq<Call>, limits: Limits, i: nat)
    requires Execution(worlds, calls, limits) && i < |worlds|
    ensures Timely(worlds[i]) && WithinLimits(worlds[i], limits)
  {
    hide Timely, WithinLimits, Next;
    if i == 0 {
      EmptyWithinLimits(worlds[0], limits);
    } else {
      WindowsStayWithinLimits(worlds, calls, limits, i - 1);
      NextTimely(worlds[i - 1], calls[i - 1], limits);
      NextWithinLimits(worlds[i - 1], calls[i - 1], limits);
    }
  }

  lemma EmptyWithinLimits(w: World, limits: Limits)
    requires w.log == []
    ensures Timely(w) && WithinLimits(w, limits)
  {
  }

  // ----- the limiter -----

  class PublicUsageLimiter {
    const limits: Limits
    var sessionAttempts: Windows
    var addressAttempts: Windows
    var attemptByRun: map<RunId, Attempt>
    ghost var world: World

    /** Windows and open attempts are what the standing admissions of the last hour say. */
    ghost predicate Valid()
      reads this
    {
      && Timely(world)
      && Matches(sessionAttempts, world.log, Session, world.clock - HOUR)
      && Matches(addressAttempts, world.log, Address, world.clock - HOUR)
      && attemptByRun == OpenAttempts(world.log, world.clock - HOUR)
    }

    constructor (limits: Limits, ghost start: real)
      ensures Valid() && world == World([], start) && this.limits == limits
    {
      this.limits := limits;
      sessionAttempts := map[];
      addressAttempts := map[];
      attemptByRun := map[];
      world := World([], start);
    }

    /** Expired times leave every window; an emptied window leaves its map. */
    method PruneAttemptMaps(now: real)
      requires Valid() && world.clock <= now
      modifies this
      ensures Valid() && world == old(world).(clock := now)
      ensures forall key | key in sessionAttempts :: sessionAttempts[key] != []
      ensures forall key | key in addressAttempts :: addressAttempts[key] != []
    {
      hide Ordered, Matches, OpenAttempts, Unexpired, IsPruned;
      ghost var since := world.clock - HOUR;
      var sessions := PruneAll(sessionAttempts, now);
      var addresses := PruneAll(addressAttempts, now);
      PrunedMatches(sessionAttempts, sessions, world.log, Session, since, now - HOUR);
      PrunedMatches(addressAttempts, addresses, world.log, Address, since, now - HOUR);
      PruneAttempts(world.log, since, now - HOUR);
      sessionAttempts := sessions;
      addressAttempts := addresses;
      attemptByRun := Unexpired(attemptByRun, now - HOUR);
      world := world.(clock := now);
    }

    /** Admits exactly when both keys have room in the hour ending now, and then takes a place in both windows. */
    method AdmitLocally(now: real, run: RunId, session: Key, address: Key) returns (decision: Decision)
      requires Valid() && Allowed(world, Ask(now, run, session, address))
      modifies this
      ensures Valid() && world == Next(old(world), Ask(now, run, session, address), limits)
      ensures var s := |Kept(old(world).log, Session, session, now - HOUR)|;
        var a := |Kept(old(world).log, Address, address, now - HOUR)|;
        decision == if s >= limits.session then SessionLimited
                    else if a >= limits.address then AddressLimited
                    else Admitted(s + 1, a + 1)
    {
      hide Ordered, OpenAttempts, Kept;
      PruneAttemptMaps(now);
      sessionAttempts := sessionAttempts[session := Window(sessionAttempts, session)];
      addressAttempts := addressAttempts[address := Window(addressAttempts, address)];
      assert sessionAttempts[session] == Window(sessionAttempts, session);
      assert addressAttempts[address] == Window(addressAttempts, address);
      if |sessionAttempts[session]| >= limits.session {
        return SessionLimited;
      }
      if |addressAttempts[address]| >= limits.address {
        return AddressLimited;
      }
      Record(now, run, session, address);
      decision := Admitted(|sessionAttempts[session]|, |addressAttempts[address]|);
    }

    /** A place taken in both windows. */
    method Record(now: real, run: RunId, session: Key, address: Key)
      requires Valid() && world.clock == now
      requires forall e | e in world.log :: e.run != run
      modifies this
      ensures Valid() && world == World(old(world).log + [Entry(run, Attempt(session, address, now), true)], now)
      ensures sessionAttempts == old(sessionAttempts)[session := Window(old(sessionAttempts), session) + [now]]
      ensures addressAttempts == old(addressAttempts)[address := Window(old(addressAttempts), address) + [now]]
    {
      hide Ordered, OpenAttempts, Kept, Matches, Window;
      ghost var e := Entry(run, Attempt(session, address, now), true);
      AppendMatches(sessionAttempts, world.log, e, Session, now - HOUR);
      AppendMatches(addressAttempts, world.log, e, Address, now - HOUR);
      OpenAppend(world.log, e, now - HOUR);
      AppendOrdered(world.log, e);
      sessionAttempts := sessionAttempts[session := Window(sessionAttempts, session) + [now]];
      addressAttempts := addressAttempts[address := Window(addressAttempts, address) + [now]];
      attemptByRun := attemptByRun[run := Attempt(session, address, now)];
      world := world.(log := world.log + [e]);
    }

    /** A finished run keeps its place in both windows. */
    method Release(run: RunId)
      requires Valid()
      modifies this
      ensures Valid() && world == Next(old(world), Finish(run), limits)
    {
      hide Ordered, Matches, OpenAttempts, Close;
      ghost var since := world.clock - HOUR;
      CloseMatches(sessionAttempts, world.log, run, Session, since);
      CloseMatches(addressAttempts, world.log, run, Address, since);
      CloseKeeps(world.log, run, since);
      CloseOrdered(world.log, run, world.clock);
      attemptByRun := attemptByRun - {run};
      world := world.(log := Close(world.log, run));
    }

    /** A run that never started gives up its place in both windows, and only its place. */
    method RollbackLocalAttempt(run: RunId)
      requires Valid()
      modifies this
      ensures Valid() && world == Next(old(world), Undo(run), limits)
    {
      hide Ordered, Matches, OpenAttempts, Cancel, Window;
      ghost var since := world.clock - HOUR;
      CancelOrdered(world.log, run);
      CancelAttempts(world.log, run, since);
      var sessions, addresses := sessionAttempts, addressAttempts;
      if run in attemptByRun {
        var attempt := attemptByRun[run];
        sessions := WithoutTime(sessionAttempts, attempt.session, attempt.time);
        addresses := WithoutTime(addressAttempts, attempt.address, attempt.time);
      }
      CancelMatches(sessionAttempts, sessions, world.log, run, Session, since);
      CancelMatches(addressAttempts, addresses, world.log, run, Address, since);
      sessionAttempts := sessions;
      addressAttempts := addresses;
      attemptByRun := attemptByRun - {run};
      world := world.(log := Cancel(world.log, run));
    }

    /**
     Admission of one run when nothing else runs in between: the model-token budget is asked last,
     and its refusal takes the local admission back.
     */
    method Admit(now: real, run: RunId, session: Key, address: Key, rehearsal: bool, budgetRefuses: bool)
      returns (decision: Decision, admitted: bool)
      requires Valid() && Allowed(world, Ask(now, run, session, address))
      modifies this
      ensures Valid() && world.clock == now
      ensures decision.Admitted? <==> HasRoom(old(world).log, Ask(now, run, session, address), limits)
      ensures admitted <==> decision.Admitted? && (rehearsal || !budgetRefuses)
      ensures world.log
        == if admitted then old(world).log + [Entry(run, Attempt(session, address, now), true)] else old(world).log
    {
      hide Ordered, Matches, OpenAttempts, Cancel, Kept;
      decision := AdmitLocally(now, run, session, address);
      admitted := decision.Admitted?;
      if admitted && !rehearsal && budgetRefuses {
        CancelAdmission(old(world).log, Entry(run, Attempt(session, address, now), true));
        RollbackLocalAttempt(run);
        admitted := false;
      }
    }
  }

  // ----- interleavings -----

  /** What one call did to the standing admissions; denied admissions and pruning do nothing to it. */
  datatype Event = Admission(entry: Entry) | Denial | Released(run: RunId) | RolledBack(run: RunId)

  function Standing(events: seq<Event>): seq<Entry> {
    if events == [] then []
    else
      Effect(Standing(events[..|events| - 1]), events[|events| - 1])
  }

  function Effect(log: seq<Entry>, event: Event): seq<Entry> {
    match event
    case Admission(e) => log + [e]
    case Denial => log
    case Released(run) => Close(log, run)
    case RolledBack(run) => Cancel(log, run)
  }

  predicate Mentions(event: Event, run: RunId) {
    match event
    case Admission(e) => e.run == run
    case Denial => false
    case Released(r) => r == run
    case RolledBack(r) => r == run
  }

  lemma {:induction false} CloseCommutes(log: seq<Entry>, run: RunId, other: RunId)
    requires run != other
    ensures Cancel(Close(log, other), run) == Close(Cancel(log, run), other)
  {
    if log != [] {
      var front, last := log[..|log| - 1], log[|log| - 1];
      CloseCommutes(front, run, other);
      CancelAppend(Close(front, other), if last.run == other then last.(isOpen := false) else last, run);
      CloseAppend(Cancel(front, run), last, other);
    }
  }

  lemma {:induction false} CancelsCommute(log: seq<Entry>, run: RunId, other: RunId)
    requires run != other
    ensures Cancel(Cancel(log, other), run) == Cancel(Cancel(log, run), other)
  {
    if log != [] {
      var front, last := log[..|log| - 1], log[|log| - 1];
      CancelsCommute(front, run, other);
      CancelAppend(Cancel(front, other), last, run);
      CancelAppend(Cancel(front, run), last, other);
    }
  }

  lemma CancelAppend(log: seq<Entry>, e: Entry, run: RunId)
    ensures Cancel(log + [e], run) == if e.run == run && e.isOpen then Cancel(log, run) else Cancel(log, run) + [e]
  {
    assert (log + [e])[..|log|] == log;
  }

  lemma CloseAppend(log: seq<Entry>, e: Entry, run: RunId)
    ensures Close(log + [e], run) == Close(log, run) + [if e.run == run then e.(isOpen := false) else e]
  {
    assert (log + [e])[..|log|] == log;
  }

  lemma EffectCommutes(log: seq<Entry>, event: Event, run: RunId)
    requires !Mentions(event, run)
    ensures Cancel(Effect(log, event), run) == Effect(Cancel(log, run), event)
  {
    match event
    case Admission(x) => CancelAppend(log, x, run);
    case Denial =>
    case Released(r) => CloseCommutes(log, run, r);
    case RolledBack(r) => CancelsCommute(log, run, r);
  }

  lemma {:induction false} CancelThrough(before: seq<Event>, e: Entry, after: seq<Event>)
    requires e.isOpen
    requires forall v | v in before + after :: !Mentions(v, e.run)
    ensures Cancel(Standing(before + [Admission(e)] + after), e.run) == Standing(before + after)
    decreases |after|
  {
    hide Cancel, Mentions;
    if after == [] {
      assert before + [Admission(e)] + after == before + [Admission(e)] && before + after == before;
      assert (before + [Admission(e)])[..|before|] == before;
      StandingOthers(before, e.run);
      CancelAdmission(Standing(before), e);
    } else {
      hide Effect;
      var front, last := after[..|after| - 1], after[|after| - 1];
      var with, without := before + [Admission(e)] + after, before + after;
      assert with[..|with| - 1] == before + [Admission(e)] + front;
      assert without[..|without| - 1] == before + front;
      assert last in before + after;
      assert forall v | v in before + front :: v in before + after;
      CancelThrough(before, e, front);
      EffectCommutes(Standing(before + [Admission(e)] + front), last, e.run);
    }
  }

  lemma {:induction false} StandingOthers(events: seq<Event>, run: RunId)
    requires forall v | v in events :: !Mentions(v, run)
    ensures forall x | x in Standing(events) :: x.run != run
  {
    if events != [] {
      var front, last := events[..|events| - 1], events[|events| - 1];
      assert last in events;
      StandingOthers(front, run);
      match last
      case Admission(e) =>
      case Denial =>
      case Released(r) => CloseRuns(Standing(front), r);
      case RolledBack(r) => CancelRuns(Standing(front), r);
    }
  }

  lemma {:induction false} CloseRuns(log: seq<Entry>, run: RunId)
    ensures forall x | x in Close(log, run) :: exists y :: y in log && y.run == x.run
  {
    if log != [] {
      CloseRuns(log[..|log| - 1], run);
      forall x | x in Close(log, run) ensures exists y :: y in log && y.run == x.run {
        if x in Close(log[..|log| - 1], run) {
          var y :| y in log[..|log| - 1] && y.run == x.run;
          assert y in log;
        } else {
          assert log[|log| - 1] in log;
        }
      }
    }
  }

  lemma {:induction false} CancelRuns(log: seq<Entry>, run: RunId)
    ensures forall x | x in Cancel(log, run) :: x in log
  {
    if log != [] { CancelRuns(log[..|log| - 1], run); }
  }

  /**
   Whatever other calls came between a run's admission and its rollback, both windows of every key
   are then exactly what they would be had the run never asked.
   */
  lemma RollbackErases(before: seq<Event>, e: Entry, after: seq<Event>, side: Side, key: Key, since: real)
    requires e.isOpen
    requires forall v | v in before + after :: !Mentions(v, e.run)
    ensures var rolledBack := before + [Admission(e)] + after + [RolledBack(e.run)];
      Kept(Standing(rolledBack), side, key, since) == Kept(Standing(before + after), side, key, since)
  {
    CancelThrough(before, e, after);
    var all := before + [Admission(e)] + after + [RolledBack(e.run)];
    assert all[..|all| - 1] == before + [Admission(e)] + after;
  }

  // ----- the events of an execution -----

  function EventOf(w: World, call: Call, limits: Limits): Event {
    match call
    case Ask(now, run, session, address) =>
      if HasRoom(w.log, call, limits) then Admission(Entry(run, Attempt(session, address, now), true)) else Denial
    case Finish(run) => Released(run)
    case Undo(run) => RolledBack(run)
  }

  /** What the first n calls of an execution did. */
  function Events(worlds: seq<World>, calls: seq<Call>, limits: Limits, n: nat): seq<Event>
    requires n <= |calls| <= |worlds|
  {
    seq(n, k requires 0 <= k < n => EventOf(worlds[k], calls[k], limits))
  }

  /** At every point of an execution the log is what its events left standing. */
  lemma {:induction false} ExecutionStands(worlds: seq<World>, calls: seq<Call>, limits: Limits, n: nat)
    requires Execution(worlds, calls, limits) && n <= |calls|
    ensures worlds[n].log == Standing(Events(worlds, calls, limits, n))
  {
    hide HasRoom, Close, Cancel;
    if n > 0 {
      ExecutionStands(worlds, calls, limits, n - 1);
      var events := Events(worlds, calls, limits, n);
      assert events[..n - 1] == Events(worlds, calls, limits, n - 1);
      assert worlds[n - 1 + 1] == Next(worlds[n - 1], calls[n - 1], limits);
      assert worlds[n].log == Effect(worlds[n - 1].log, events[n - 1]);
    }
  }

  lemma EventsSplit(worlds: seq<World>, calls: seq<Call>, limits: Limits, i: nat, j: nat, e: Entry)
    requires i < j < |calls| <= |worlds|
    requires EventOf(worlds[i], calls[i], limits) == Admission(e) && calls[j] == Undo(e.run)
    ensures var events := Events(worlds, calls, limits, j);
      Events(worlds, calls, limits, j + 1) == events[..i] + [Admission(e)] + events[i + 1..] + [RolledBack(e.run)]
  {
  }

  lemma OthersUnmentioned(worlds: seq<World>, calls: seq<Call>, limits: Limits, i: nat, j: nat)
    requires i < j <= |calls| <= |worlds|
    requires forall k | 0 <= k < j && k != i :: calls[k].run != calls[i].run
    ensures var events := Events(worlds, calls, limits, j);
      forall v | v in events[..i] + events[i + 1..] :: !Mentions(v, calls[i].run)
  {
    hide HasRoom;
    var events := Events(worlds, calls, limits, j);
    forall v | v in events[..i] + events[i + 1..] ensures !Mentions(v, calls[i].run) {
      var k :| 0 <= k < j && k != i && events[k] == v;
    }
  }

  /**
   In an execution in which a run asks and is admitted, is mentioned by no other call, and is then
   rolled back, every window is what the other calls' events alone leave.
   */
  lemma UndoErases(worlds: seq<World>, calls: seq<Call>, limits: Limits, i: nat, j: nat, side: Side, key: Key,
      since: real)
    requires Execution(worlds, calls, limits) && i < j < |calls|
    requires calls[i].Ask? && HasRoom(worlds[i].log, calls[i], limits) && calls[j] == Undo(calls[i].run)
    requires forall k | 0 <= k < j && k != i :: calls[k].run != calls[i].run
    ensures var events := Events(worlds, calls, limits, j);
      Kept(worlds[j + 1].log, side, key, since) == Kept(Standing(events[..i] + events[i + 1..]), side, key, since)
  {
    hide HasRoom, Kept, Standing, Next, Cancel;
    var events := Events(worlds, calls, limits, j);
    var e := events[i].entry;
    ExecutionStands(worlds, calls, limits, j + 1);
    assert e.run == calls[i].run && e.isOpen;
    EventsSplit(worlds, calls, limits, i, j, e);
    OthersUnmentioned(worlds, calls, limits, i, j);
    hide *;
    RollbackErases(events[..i], e, events[i + 1..], side, key, since);
  }
}
