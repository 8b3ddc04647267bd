/**
 The hash-chained run ledger: appending, hydrating in a new process, and validating. The hash
 and the canonical encoding are arbitrary functions; only their shapes are fixed.
 */
module HashLedger {
  import opened Models

  datatype Body = Body(
    runId: string,
    sequence: nat,
    kind: string,
    occurredAt: string,
    payload: string,
    previousHash: string)

  datatype Event = Event(
    sequence: nat,
    kind: string,
    occurredAt: string,
    payload: string,
    previousHash: string,
    eventHash: string)

  const DIGITS: nat := 64

  const ZERO: string := "0000000000000000000000000000000000000000000000000000000000000000"

  datatype Codec = Codec(hash: string -> string, encode: Body -> string)
  {
    /** Digests are 64 characters long; a canonical encoding can be read back. */
    ghost predicate Valid() {
      && (forall text :: |hash(text)| == DIGITS)
      && (forall a, b :: encode(a) == encode(b) ==> a == b)
    }
  }

  function BodyOf(runId: string, e: Event, previousHash: string): Body {
    Body(runId, e.sequence, e.kind, e.occurredAt, e.payload, previousHash)
  }

  /** The text whose digest an event carries. */
  function HashedText(codec: Codec, runId: string, e: Event, previousHash: string): string {
    previousHash + codec.encode(BodyOf(runId, e, previousHash))
  }

  function Head(events: seq<Event>): string {
    if events == [] then ZERO else events[|events| - 1].eventHash
  }

  predicate LinkHolds(codec: Codec, runId: string, events: seq<Event>, i: nat)
    requires i < |events|
  {
    && events[i].sequence == i + 1
    && events[i].previousHash == Head(events[..i])
    && events[i].eventHash == codec.hash(HashedText(codec, runId, events[i], Head(events[..i])))
  }

  ghost predicate Chain(codec: Codec, runId: string, events: seq<Event>) {
    forall i | 0 <= i < |events| :: LinkHolds(codec, runId, events, i)
  }

  datatype ChainError = SequenceBroken(at: nat) | LinkBroken(at: nat) | DigestWrong(at: nat)

  /** The validator's loop: it stops at the first event that is out of order, unlinked or altered. */
  method ValidateChain(codec: Codec, runId: string, events: seq<Event>)
    returns (error: Option<ChainError>, head: string)
    ensures error.None? <==> Chain(codec, runId, events)
    ensures error.None? ==> head == Head(events)
    ensures error.Some? ==>
      && error.value.at < |events|
      && Chain(codec, runId, events[..error.value.at])
      && !LinkHolds(codec, runId, events, error.value.at)
      && var e, before := events[error.value.at], Head(events[..error.value.at]);
         error.value == if e.sequence != error.value.at + 1 then SequenceBroken(error.value.at)
                        else if e.previousHash != before then LinkBroken(error.value.at)
                        else DigestWrong(error.value.at)
  {
    head := ZERO;
    for i := 0 to |events|
      invariant head == Head(events[..i])
      invariant forall k | 0 <= k < i :: LinkHolds(codec, runId, events, k)
    {
      var e := events[i];
      PrefixChain(codec, runId, events, i);
      ghost var holds := LinkHolds(codec, runId, events, i);
      if e.sequence != i + 1 {
        return Some(SequenceBroken(i)), head;
      }
      if e.previousHash != head {
        return Some(LinkBroken(i)), head;
      }
      var digest := codec.hash(HashedText(codec, runId, e, head));
      if e.eventHash != digest {
        return Some(DigestWrong(i)), head;
      }
      head := digest;
    }
    assert events[..|events|] == events;
    return None, head;
  }

  lemma PrefixChain(codec: Codec, runId: string, events: seq<Event>, n: nat)
    requires n <= |events|
    ensures Chain(codec, runId, events[..n]) <==> forall k | 0 <= k < n :: LinkHolds(codec, runId, events, k)
  {
    forall k | 0 <= k < n ensures LinkHolds(codec, runId, events[..n], k) <==> LinkHolds(codec, runId, events, k) {
      assert events[..n][..k] == events[..k];
    }
  }

  // ----- appending and hydrating -----

  datatype Ledger = Ledger(rows: seq<Event>, sequence: nat, previousHash: string)

  function NextEvent(codec: Codec, runId: string, l: Ledger, kind: string, payload: string, at: string): Event {
    var body := Body(runId, l.sequence + 1, kind, at, payload, l.previousHash);
    Event(l.sequence + 1, kind, at, payload, l.previousHash, codec.hash(l.previousHash + codec.encode(body)))
  }

  /** The counter advances before the row is written, the head only afterwards. */
  function Append(codec: Codec, runId: string, l: Ledger, kind: string, payload: string, at: string,
      written: bool): Ledger
  {
    var e := NextEvent(codec, runId, l, kind, payload, at);
    if written then Ledger(l.rows + [e], l.sequence + 1, e.eventHash)
    else l.(sequence := l.sequence + 1)
  }

  function Hydrate(rows: seq<Event>): Ledger {
    if rows == [] then Ledger(rows, 0, ZERO)
    else Ledger(rows, rows[|rows| - 1].sequence, rows[|rows| - 1].eventHash)
  }

  class EventTable {
    var rows: seq<Event>

    constructor ()
      ensures rows == []
    {
      rows := [];
    }
  }

  class RunLedger {
    const codec: Codec
    const runId: string
    const table: EventTable
    var sequence: nat
    var previousHash: string

    constructor (codec: Codec, runId: string, table: EventTable)
      ensures this.codec == codec && this.runId == runId && this.table == table
      ensures Contents() == Ledger(table.rows, 0, ZERO)
    {
      this.codec, this.runId, this.table := codec, runId, table;
      sequence, previousHash := 0, ZERO;
    }

    ghost function Contents(): Ledger
      reads this, table
    {
      Ledger(table.rows, sequence, previousHash)
    }

    /** Called once, on a new object. */
    method HydrateFromTable()
      requires sequence == 0 && previousHash == ZERO
      modifies this
      ensures Contents() == Hydrate(table.rows)
    {
      if table.rows != [] {
        sequence := table.rows[|table.rows| - 1].sequence;
        previousHash := table.rows[|table.rows| - 1].eventHash;
      }
    }

    method AppendEvent(kind: string, payload: string, at: string, written: bool)
      modifies this, table
      ensures Contents() == Append(codec, runId, old(Contents()), kind, payload, at, written)
    {
      sequence := sequence + 1;
      var body := Body(runId, sequence, kind, at, payload, previousHash);
      var event := Event(sequence, kind, at, payload, previousHash, codec.hash(previousHash + codec.encode(body)));
      if written {
        table.rows := table.rows + [event];
        previousHash := event.eventHash;
      }
    }
  }

  // ----- exactly which histories are accepted -----

  datatype Operation =
    | DoAppend(kind: string, payload: string, at: string, written: bool)
    | DoReopen

  function Apply(codec: Codec, runId: string, l: Ledger, op: Operation): Ledger {
    match op
    case DoAppend(kind, payload, at, written) => Append(codec, runId, l, kind, payload, at, written)
    case DoReopen => Hydrate(l.rows)
  }

  ghost function History(codec: Codec, runId: string, ops: seq<Operation>): Ledger {
    if ops == [] then Ledger([], 0, ZERO)
    else Apply(codec, runId, History(codec, runId, ops[..|ops| - 1]), ops[|ops| - 1])
  }

  /** An append failed and the process that saw it fail is still the one writing. */
  predicate Skewed(ops: seq<Operation>) {
    if ops == [] then false
    else
      match ops[|ops| - 1]
      case DoReopen => false
      case DoAppend(_, _, _, written) => !written || Skewed(ops[..|ops| - 1])
  }

  /** No event was ever written after a failed append by the same process. */
  predicate NeverWroteSkewed(ops: seq<Operation>) {
    forall i | 0 <= i < |ops| && ops[i].DoAppend? && ops[i].written :: !Skewed(ops[..i])
  }

  lemma ChainExtends(codec: Codec, runId: string, rows: seq<Event>, e: Event)
    ensures Chain(codec, runId, rows + [e]) <==>
      (&& Chain(codec, runId, rows)
       && e.sequence == |rows| + 1 && e.previousHash == Head(rows)
       && e.eventHash == codec.hash(HashedText(codec, runId, e, Head(rows))))
  {
    var longer := rows + [e];
    assert longer[..|rows|] == rows;
    PrefixChain(codec, runId, longer, |rows|);
    assert Chain(codec, runId, longer) <==> Chain(codec, runId, rows) && LinkHolds(codec, runId, longer, |rows|);
  }

  /**
   Hydration may happen anywhere, appends may fail anywhere: the rows form an accepted chain
   exactly when no process went on writing after one of its own appends had failed.
   */
  lemma {:induction false} AcceptedExactly(codec: Codec, runId: string, ops: seq<Operation>)
    ensures var l := History(codec, runId, ops);
      && (Chain(codec, runId, l.rows) <==> NeverWroteSkewed(ops))
      && (Chain(codec, runId, l.rows) ==>
            && l.previousHash == Head(l.rows)
            && (if Skewed(ops) then |l.rows| < l.sequence else l.sequence == |l.rows|))
  {
    if ops != [] {
      var front, op := ops[..|ops| - 1], ops[|ops| - 1];
      AcceptedExactly(codec, runId, front);
      var l := History(codec, runId, front);
      assert NeverWroteSkewed(ops) <==> NeverWroteSkewed(front) && (op.DoAppend? && op.written ==> !Skewed(front)) by {
        assert forall i | 0 <= i < |front| :: ops[..i] == front[..i] && ops[i] == front[i];
        assert ops[..|front|] == front;
      }
      if op.DoAppend? {
        ChainExtends(codec, runId, l.rows, NextEvent(codec, runId, l, op.kind, op.payload, op.at));
      }
      if l.rows != [] && Chain(codec, runId, l.rows) {
        assert LinkHolds(codec, runId, l.rows, |l.rows| - 1);
      }
    }
  }

  /** Any run of successful appends, with hydration anywhere, is accepted with the right head. */
  lemma {:induction false} SuccessfulAppendsAccepted(codec: Codec, runId: string, ops: seq<Operation>)
    requires forall i | 0 <= i < |ops| && ops[i].DoAppend? :: ops[i].written
    ensures var l := History(codec, runId, ops); Chain(codec, runId, l.rows) && l.previousHash == Head(l.rows)
  {
    forall i | 0 <= i < |ops| ensures !Skewed(ops[..i]) {
      NotSkewed(ops[..i]);
    }
    AcceptedExactly(codec, runId, ops);
  }

  lemma {:induction false} NotSkewed(ops: seq<Operation>)
    requires forall i | 0 <= i < |ops| && ops[i].DoAppend? :: ops[i].written
    ensures !Skewed(ops)
  {
    if ops != [] {
      NotSkewed(ops[..|ops| - 1]);
    }
  }

  /** The appends that were written. */
  function Written(ops: seq<Operation>): seq<Operation> {
    if ops == [] then []
    else
      var before, last := Written(ops[..|ops| - 1]), ops[|ops| - 1];
      if last.DoAppend? && last.written then before + [last] else before
  }

  /** The rows are exactly the written appends, in order, each with what it was given. */
  lemma {:induction false} AppendsAreRecorded(codec: Codec, runId: string, ops: seq<Operation>)
    ensures var rows, written := History(codec, runId, ops).rows, Written(ops);
      && |rows| == |written|
      && forall i | 0 <= i < |rows| :: written[i] == DoAppend(rows[i].kind, rows[i].payload, rows[i].occurredAt, true)
  {
    if ops != [] {
      AppendsAreRecorded(codec, runId, ops[..|ops| - 1]);
    }
  }

  // ----- one head, one history -----

  /** Two different texts hashed by the two chains share a digest. */
  ghost predicate Collision(codec: Codec, r: string, a: seq<Event>, s: string, b: seq<Event>) {
    exists i, j | 0 <= i < |a| && 0 <= j < |b| ::
      && HashedText(codec, r, a[i], a[i].previousHash) != HashedText(codec, s, b[j], b[j].previousHash)
      && a[i].eventHash == b[j].eventHash
  }

  /** A text hashed by the chain has the all-zero digest. */
  ghost predicate ZeroPreimage(a: seq<Event>) {
    exists i | 0 <= i < |a| :: a[i].eventHash == ZERO
  }

  /** Equal heads mean equal chains, unless the chains themselves exhibit a broken hash. */
  lemma {:induction false} EqualHeads(codec: Codec, r: string, a: seq<Event>, s: string, b: seq<Event>)
    requires codec.Valid() && Chain(codec, r, a) && Chain(codec, s, b) && Head(a) == Head(b)
    ensures (a == b && (a != [] ==> r == s)) || Collision(codec, r, a, s, b) || ZeroPreimage(a) || ZeroPreimage(b)
    decreases |a|
  {
    if a == [] || b == [] {
      if b != [] { assert b[|b| - 1].eventHash == ZERO; }
      if a != [] { assert a[|a| - 1].eventHash == ZERO; }
    } else {
      var m, n := |a| - 1, |b| - 1;
      assert LinkHolds(codec, r, a, m) && LinkHolds(codec, s, b, n);
      var x, y := HashedText(codec, r, a[m], a[m].previousHash), HashedText(codec, s, b[n], b[n].previousHash);
      if x == y {
        SameText(codec, r, a, m, s, b, n);
        PrefixChain(codec, r, a, m);
        PrefixChain(codec, s, b, n);
        EqualHeads(codec, r, a[..m], s, b[..n]);
        assert a == a[..m] + [a[m]] && b == b[..n] + [b[n]];
        BrokenPrefix(codec, r, a, m, s, b, n);
      }
    }
  }

  /** A broken hash inside two prefixes is a broken hash of the chains. */
  lemma BrokenPrefix(codec: Codec, r: string, a: seq<Event>, m: nat, s: string, b: seq<Event>, n: nat)
    requires m <= |a| && n <= |b|
    ensures Collision(codec, r, a[..m], s, b[..n]) ==> Collision(codec, r, a, s, b)
    ensures ZeroPreimage(a[..m]) ==> ZeroPreimage(a)
    ensures ZeroPreimage(b[..n]) ==> ZeroPreimage(b)
  {
    hide HashedText;
    if Collision(codec, r, a[..m], s, b[..n]) {
      var i, j :| 0 <= i < m && 0 <= j < n
        && HashedText(codec, r, a[..m][i], a[..m][i].previousHash)
             != HashedText(codec, s, b[..n][j], b[..n][j].previousHash)
        && a[..m][i].eventHash == b[..n][j].eventHash;
      assert a[..m][i] == a[i] && b[..n][j] == b[j];
    }
    if ZeroPreimage(a[..m]) {
      var i :| 0 <= i < m && a[..m][i].eventHash == ZERO;
      assert a[i].eventHash == ZERO;
    }
    if ZeroPreimage(b[..n]) {
      var j :| 0 <= j < n && b[..n][j].eventHash == ZERO;
      assert b[j].eventHash == ZERO;
    }
  }

  lemma SameText(codec: Codec, r: string, a: seq<Event>, m: nat, s: string, b: seq<Event>, n: nat)
    requires codec.Valid() && m < |a| && n < |b|
    requires LinkHolds(codec, r, a, m) && LinkHolds(codec, s, b, n)
    requires m == 0 || LinkHolds(codec, r, a, m - 1)
    requires n == 0 || LinkHolds(codec, s, b, n - 1)
    requires HashedText(codec, r, a[m], a[m].previousHash) == HashedText(codec, s, b[n], b[n].previousHash)
    ensures r == s && a[m] == b[n] && m == n
  {
    var p, q := a[m].previousHash, b[n].previousHash;
    assert |p| == DIGITS && |q| == DIGITS;
    var x, y := HashedText(codec, r, a[m], p), HashedText(codec, s, b[n], q);
    assert x[..DIGITS] == p && y[..DIGITS] == q;
    assert x[DIGITS..] == codec.encode(BodyOf(r, a[m], p)) && y[DIGITS..] == codec.encode(BodyOf(s, b[n], q));
  }
}
