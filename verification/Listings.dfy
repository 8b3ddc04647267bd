/** Lists as the code uses them for ids: without repeats, as sets, and as requests to a table. */
module Listings {

  function Elements<T(==)>(s: seq<T>): set<T> {
    set x | x in s
  }

  predicate NoRepeats<T(==)>(s: seq<T>) {
    forall i, j | 0 <= i < j < |s| :: s[i] != s[j]
  }

  /** First occurrences, in order. */
  function Unique<T(==)>(s: seq<T>): seq<T> {
    if s == [] then []
    else
      var u := Unique(s[..|s| - 1]);
      if s[|s| - 1] in u then u else u + [s[|s| - 1]]
  }

  lemma {:induction false} UniqueElements<T>(s: seq<T>)
    ensures Elements(Unique(s)) == Elements(s) && NoRepeats(Unique(s))
    ensures forall x :: x in Unique(s) <==> x in s
    ensures NoRepeats(s) ==> Unique(s) == s
  {
    if s != [] {
      var front, last := s[..|s| - 1], s[|s| - 1];
      UniqueElements(front);
      assert s == front + [last];
    }
    SameElements(Unique(s), s);
  }

  lemma {:induction false} UniquePrefix<T>(a: seq<T>, b: seq<T>)
    requires NoRepeats(a)
    ensures a <= Unique(a + b)
    decreases |b|
  {
    if b == [] {
      UniqueElements(a);
      assert a + b == a;
    } else {
      UniquePrefix(a, b[..|b| - 1]);
      assert (a + b)[..|a + b| - 1] == a + b[..|b| - 1];
    }
  }

  lemma {:induction false} ElementsCount<T>(s: seq<T>)
    requires NoRepeats(s)
    ensures |Elements(s)| == |s|
  {
    if s != [] {
      var front, last := s[..|s| - 1], s[|s| - 1];
      ElementsCount(front);
      assert s == front + [last];
      assert Elements(s) == Elements(front) + {last};
      assert last !in Elements(front);
    }
  }

  lemma SameElements<T>(s: seq<T>, t: seq<T>)
    requires forall x :: x in s <==> x in t
    ensures Elements(s) == Elements(t)
  {
    assert forall x | x in Elements(s) :: x in s;
    assert forall x | x in Elements(t) :: x in t;
  }

  lemma UniqueAppend<T>(s: seq<T>, x: T)
    ensures Unique(s + [x]) == if x in s then Unique(s) else Unique(s) + [x]
  {
    assert (s + [x])[..|s|] == s;
    UniqueElements(s);
  }

  /** The rows that exist among some keys, in the order asked. */
  function Fetch<K(==), V>(table: map<K, V>, keys: seq<K>): seq<V> {
    if keys == [] then []
    else
      var before, last := Fetch(table, keys[..|keys| - 1]), keys[|keys| - 1];
      if last in table then before + [table[last]] else before
  }
}
