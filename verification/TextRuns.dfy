/** Maximal runs of characters of one class, the shape of every tokenizer used here. */
module TextRuns {

  type Class = char -> bool

  predicate AllIn(s: string, class_: Class) {
    forall i | 0 <= i < |s| :: class_(s[i])
  }

  /** Length of the run at the front of a text. */
  function RunLength(s: string, class_: Class): (n: nat)
    ensures n <= |s|
  {
    if s == "" || !class_(s[0]) then 0 else 1 + RunLength(s[1..], class_)
  }

  function Runs(s: string, class_: Class): seq<string>
    decreases |s|
  {
    if s == "" then []
    else if class_(s[0]) then
      var n := RunLength(s, class_);
      [s[..n]] + Runs(s[n..], class_)
    else Runs(s[1..], class_)
  }

  lemma {:induction false} RunIsMaximal(s: string, class_: Class)
    ensures var n := RunLength(s, class_);
      AllIn(s[..n], class_) && (n < |s| ==> !class_(s[n]))
  {
    if s != "" && class_(s[0]) {
      RunIsMaximal(s[1..], class_);
      var n := RunLength(s, class_);
      assert s[..n] == [s[0]] + s[1..][..n - 1];
    }
  }

  /** No run crosses from one text into the next. */
  predicate Apart(a: string, b: string, class_: Class) {
    a == "" || b == "" || !class_(a[|a| - 1]) || !class_(b[0])
  }

  lemma {:induction false} RunAcross(a: string, b: string, class_: Class)
    requires Apart(a, b, class_) && a != ""
    ensures RunLength(a + b, class_) == RunLength(a, class_)
    decreases |a|
  {
    if class_(a[0]) {
      assert (a + b)[1..] == a[1..] + b;
      if |a| > 1 {
        RunAcross(a[1..], b, class_);
      }
    }
  }

  /** Runs of two texts that are apart are the runs of each. */
  lemma {:induction false} RunsOfConcatenation(a: string, b: string, class_: Class)
    requires Apart(a, b, class_)
    ensures Runs(a + b, class_) == Runs(a, class_) + Runs(b, class_)
    decreases |a|
  {
    if a == "" {
      assert a + b == b;
    } else if class_(a[0]) {
      var n := RunLength(a, class_);
      RunAcross(a, b, class_);
      assert (a + b)[..n] == a[..n] && (a + b)[n..] == a[n..] + b;
      RunsOfConcatenation(a[n..], b, class_);
    } else {
      assert (a + b)[1..] == a[1..] + b;
      RunsOfConcatenation(a[1..], b, class_);
    }
  }

  lemma {:induction false} SingleRun(s: string, class_: Class)
    requires s != "" && AllIn(s, class_)
    ensures Runs(s, class_) == [s]
  {
    FullRun(s, class_);
    assert s[..|s|] == s && s[|s|..] == "";
  }

  lemma {:induction false} FullRun(s: string, class_: Class)
    requires AllIn(s, class_)
    ensures RunLength(s, class_) == |s|
  {
    if s != "" { FullRun(s[1..], class_); }
  }

  lemma {:induction false} NoRun(s: string, class_: Class)
    requires forall i | 0 <= i < |s| :: !class_(s[i])
    ensures Runs(s, class_) == []
  {
    if s != "" { NoRun(s[1..], class_); }
  }

  /** Every run is nonempty and inside the class. */
  lemma {:induction false} RunsInClass(s: string, class_: Class)
    ensures forall r | r in Runs(s, class_) :: r != "" && AllIn(r, class_)
    decreases |s|
  {
    if s != "" {
      if class_(s[0]) {
        RunIsMaximal(s, class_);
        RunsInClass(s[RunLength(s, class_)..], class_);
      } else {
        RunsInClass(s[1..], class_);
      }
    }
  }

  function Join(parts: seq<string>, separator: string): string {
    if parts == [] then ""
    else if |parts| == 1 then parts[0]
    else parts[0] + separator + Join(parts[1..], separator)
  }

  function Flatten<T>(parts: seq<seq<T>>): seq<T> {
    if parts == [] then [] else parts[0] + Flatten(parts[1..])
  }

  lemma {:induction false} FlattenConcatenation<T>(a: seq<seq<T>>, b: seq<seq<T>>)
    ensures Flatten(a + b) == Flatten(a) + Flatten(b)
    decreases |a|
  {
    if a == [] {
      assert a + b == b;
    } else {
      assert (a + b)[1..] == a[1..] + b;
      FlattenConcatenation(a[1..], b);
    }
  }

  function RunsOfEach(parts: seq<string>, class_: Class): seq<seq<string>> {
    seq(|parts|, i requires 0 <= i < |parts| => Runs(parts[i], class_))
  }

  /** Joining with separators outside the class keeps the runs of every part. */
  lemma {:induction false} RunsOfJoin(parts: seq<string>, separator: string, class_: Class)
    requires separator != "" && forall i | 0 <= i < |separator| :: !class_(separator[i])
    ensures Runs(Join(parts, separator), class_) == Flatten(RunsOfEach(parts, class_))
    decreases |parts|
  {
    if |parts| == 1 {
      assert RunsOfEach(parts, class_) == [Runs(parts[0], class_)];
      assert Flatten([Runs(parts[0], class_)][1..]) == [];
    } else if |parts| > 1 {
      var rest := Join(parts[1..], separator);
      RunsOfJoin(parts[1..], separator, class_);
      assert RunsOfEach(parts, class_)[1..] == RunsOfEach(parts[1..], class_);
      NoRun(separator, class_);
      RunsOfConcatenation(separator, rest, class_);
      RunsOfConcatenation(parts[0], separator + rest, class_);
      assert parts[0] + separator + rest == parts[0] + (separator + rest);
    }
  }
}
