/** Whoever asks seldom enough is admitted, whatever everybody else does. */
module UsageService {
  import opened UsageWindow

  function AskedBy(call: Call, side: Side): Key
    requires call.Ask?
  {
    if side.Session? then call.session else call.address
  }

  /** How often a key has asked since a moment, admitted or not. */
  function Asked(calls: seq<Call>, side: Side, key: Key, since: real): nat {
    if calls == [] then 0
    else
      var last := calls[|calls| - 1];
      Asked(calls[..|calls| - 1], side, key, since)
        + (if last.Ask? && AskedBy(last, side) == key && last.now >= since then 1 else 0)
  }

  lemma NextKept(w: World, call: Call, limits: Limits, side: Side, key: Key, since: real)
    requires Timely(w)
    ensures |Kept(Next(w, call, limits).log, side, key, since)|
         <= |Kept(w.log, side, key, since)|
            + (if call.Ask? && AskedBy(call, side) == key && call.now >= since then 1 else 0)
  {
    hide Ordered, Kept, Close, Cancel, OpenAttempts, HasRoom, RemoveFirst;
    match call
    case Ask(now, run, session, address) =>
      KeptAppend(w.log, Entry(run, Attempt(session, address, now), true), side, key, since);
    case Finish(run) => CloseKeeps(w.log, run, since);
    case Undo(run) =>
      CancelWindow(w.log, run, side, key, since);
      if run in OpenAttempts(w.log, since) {
        RemoveShorter(Kept(w.log, side, key, since), OpenAttempts(w.log, since)[run].time);
      }
  }

  /** No window holds more than its key has asked for. */
  lemma {:induction false} KeptIsAsked(worlds: seq<World>, calls: seq<Call>, limits: Limits, n: nat, side: Side,
      key: Key, since: real)
    requires Execution(worlds, calls, limits) && n <= |calls|
    ensures |Kept(worlds[n].log, side, key, since)| <= Asked(calls[..n], side, key, since)
  {
    hide Kept, Next, Timely, WithinLimits, AskedBy;
    if n == 0 {
      NothingKept(side, key, since);
    } else {
      KeptIsAsked(worlds, calls, limits, n - 1, side, key, since);
      WindowsStayWithinLimits(worlds, calls, limits, n - 1);
      NextKept(worlds[n - 1], calls[n - 1], limits, side, key, since);
      assert worlds[n - 1 + 1] == Next(worlds[n - 1], calls[n - 1], limits);
      assert calls[..n][..n - 1] == calls[..n - 1];
    }
  }

  lemma NothingKept(side: Side, key: Key, since: real)
    ensures Kept([], side, key, since) == []
  {
  }

  /** In no hour of 3600 seconds that ends with a call does a session or an address hold more than its limit. */
  lemma HourlyLimitsHold(worlds: seq<World>, calls: seq<Call>, limits: Limits, i: nat, key: Key)
    requires Execution(worlds, calls, limits) && i < |worlds|
    ensures |Kept(worlds[i].log, Session, key, worlds[i].clock - 3600.0)| <= Positive(limits.session)
    ensures |Kept(worlds[i].log, Address, key, worlds[i].clock - 3600.0)| <= Positive(limits.address)
  {
    hide Kept, Execution;
    WindowsStayWithinLimits(worlds, calls, limits, i);
  }

  /**
   In every execution, a request whose session and address have both asked less often than their limits
   in the hour before it is admitted.
   */
  lemma SeldomAskersAreAdmitted(worlds: seq<World>, calls: seq<Call>, limits: Limits, i: nat)
    requires Execution(worlds, calls, limits) && i < |calls| && calls[i].Ask?
    requires Asked(calls[..i], Session, calls[i].session, calls[i].now - 3600.0) < limits.session
    requires Asked(calls[..i], Address, calls[i].address, calls[i].now - 3600.0) < limits.address
    ensures var ask := calls[i];
      worlds[i + 1].log == worlds[i].log + [Entry(ask.run, Attempt(ask.session, ask.address, ask.now), true)]
  {
    hide Kept, Asked;
    KeptIsAsked(worlds, calls, limits, i, Session, calls[i].session, calls[i].now - 3600.0);
    KeptIsAsked(worlds, calls, limits, i, Address, calls[i].address, calls[i].now - 3600.0);
  }
}
