/**
 Evidence quotations resolved back to source slices under case folding. Folding is an arbitrary
 map from a character to a nonempty string, so it may lengthen the text.
 */
module EvidenceMatch {

  type Folding = char -> string

  ghost predicate NeverEmpty(fold: Folding) {
    forall c :: fold(c) != ""
  }

  function Fold(fold: Folding, s: string): string {
    if s == "" then "" else Fold(fold, s[..|s| - 1]) + fold(s[|s| - 1])
  }

  type Span = (nat, nat)

  /** A source slice whose folding is the folded needle. */
  ghost predicate FoldsTo(fold: Folding, needle: string, haystack: string, span: Span) {
    span.0 <= span.1 <= |haystack| && Fold(fold, haystack[span.0..span.1]) == Fold(fold, needle)
  }

  lemma {:induction false} FoldConcatenation(fold: Folding, a: string, b: string)
    ensures Fold(fold, a + b) == Fold(fold, a) + Fold(fold, b)
    decreases |b|
  {
    if b == "" {
      assert a + b == a;
    } else {
      var front, last := b[..|b| - 1], b[|b| - 1];
      assert (a + b)[..|a + b| - 1] == a + front;
      FoldConcatenation(fold, a, front);
      assert (Fold(fold, a) + Fold(fold, front)) + fold(last) == Fold(fold, a) + (Fold(fold, front) + fold(last));
    }
  }

  /** Where source offset `i` lands in the folded text. */
  function Offset(fold: Folding, s: string, i: nat): nat
    requires i <= |s|
  {
    |Fold(fold, s[..i])|
  }

  lemma OffsetsGrow(fold: Folding, s: string, i: nat, j: nat)
    requires NeverEmpty(fold) && i <= j <= |s|
    ensures Offset(fold, s, i) <= Offset(fold, s, j) <= |Fold(fold, s)|
    ensures i < j ==> Offset(fold, s, i) < Offset(fold, s, j)
    ensures Fold(fold, s)[Offset(fold, s, i)..Offset(fold, s, j)] == Fold(fold, s[i..j])
  {
    assert s[..j] == s[..i] + s[i..j] && s == s[..j] + s[j..];
    FoldConcatenation(fold, s[..i], s[i..j]);
    FoldConcatenation(fold, s[..j], s[j..]);
    if i < j {
      assert |s[i..j]| > 0 && Fold(fold, s[i..j]) != "";
    }
  }

  predicate OccursAt(text: string, pattern: string, p: nat) {
    p + |pattern| <= |text| && text[p..p + |pattern|] == pattern
  }

  /** Position of the first occurrence at or after `from`. */
  method Find(text: string, pattern: string, from: nat) returns (found: bool, at: nat)
    requires from <= |text|
    ensures found ==> from <= at && OccursAt(text, pattern, at)
    ensures forall p | from <= p && (found ==> p < at) :: !OccursAt(text, pattern, p)
  {
    at := from;
    while at + |pattern| <= |text|
      invariant from <= at
      invariant forall p | from <= p < at :: !OccursAt(text, pattern, p)
    {
      if text[at..at + |pattern|] == pattern {
        return true, at;
      }
      at := at + 1;
    }
    return false, at;
  }

  /** The folded haystack and the source offset of every folded character boundary. */
  method FoldHaystack(fold: Folding, haystack: string) returns (folded: string, sourceByFolded: map<nat, nat>)
    requires NeverEmpty(fold)
    ensures folded == Fold(fold, haystack)
    ensures forall i | 0 <= i <= |haystack| ::
      Offset(fold, haystack, i) in sourceByFolded && sourceByFolded[Offset(fold, haystack, i)] == i
    ensures forall p | p in sourceByFolded ::
      sourceByFolded[p] <= |haystack| && p == Offset(fold, haystack, sourceByFolded[p])
  {
    folded, sourceByFolded := "", map[0 := 0];
    assert Offset(fold, haystack, 0) == 0;
    for i := 0 to |haystack|
      invariant folded == Fold(fold, haystack[..i])
      invariant forall k | 0 <= k <= i ::
        Offset(fold, haystack, k) in sourceByFolded && sourceByFolded[Offset(fold, haystack, k)] == k
      invariant forall p | p in sourceByFolded ::
        sourceByFolded[p] <= i && p == Offset(fold, haystack, sourceByFolded[p])
    {
      assert haystack[..i + 1][..i] == haystack[..i];
      forall k | 0 <= k <= i ensures Offset(fold, haystack, k) < Offset(fold, haystack, i + 1) {
        OffsetsGrow(fold, haystack, k, i + 1);
      }
      folded := folded + fold(haystack[i]);
      sourceByFolded := sourceByFolded[|folded| := i + 1];
    }
    assert haystack[..|haystack|] == haystack;
  }

  /**
   Every source slice whose folding equals the folded needle, overlapping ones included, and
   nothing else, in increasing order without repeats.
   */
  method ResolveEvidenceTextMatches(fold: Folding, needle: string, haystack: string) returns (matches: seq<Span>)
    requires NeverEmpty(fold)
    ensures needle == "" ==> matches == []
    ensures needle != "" ==> forall span :: span in matches <==> FoldsTo(fold, needle, haystack, span)
    ensures forall i, j | 0 <= i < j < |matches| :: matches[i].0 < matches[j].0
  {
    hide Offset, OccursAt;
    matches := [];
    var pattern := Fold(fold, needle);
    if pattern == "" {
      assert needle == "";
      return;
    }
    assert needle != "";
    var folded, sourceByFolded := FoldHaystack(fold, haystack);
    var searchStart := 0;
    while searchStart <= |folded|
      invariant searchStart <= |folded| + 1
      invariant forall span | span in matches ::
        FoldsTo(fold, needle, haystack, span) && Offset(fold, haystack, span.0) < searchStart
      invariant forall span | FoldsTo(fold, needle, haystack, span) && Offset(fold, haystack, span.0) < searchStart ::
        span in matches
      invariant forall i, j | 0 <= i < j < |matches| :: matches[i].0 < matches[j].0
      decreases |folded| + 1 - searchStart
    {
      var found, at := Find(folded, pattern, searchStart);
      forall span | FoldsTo(fold, needle, haystack, span) && searchStart <= Offset(fold, haystack, span.0)
        ensures found && at <= Offset(fold, haystack, span.0)
      {
        MatchIsFound(fold, needle, haystack, span);
      }
      if !found {
        forall span | FoldsTo(fold, needle, haystack, span) ensures span in matches {
        }
        NothingBeyond(fold, haystack);
        return;
      }
      ghost var before := matches;
      if at in sourceByFolded && at + |pattern| in sourceByFolded {
        var span := (sourceByFolded[at], sourceByFolded[at + |pattern|]);
        SpanOfFolded(fold, needle, haystack, at, span);
        forall other | other in matches ensures other.0 < span.0 {
          if span.0 <= other.0 { OffsetsGrow(fold, haystack, span.0, other.0); }
        }
        matches := matches + [span];
      }
      forall span | FoldsTo(fold, needle, haystack, span) && Offset(fold, haystack, span.0) < at + 1
        ensures span in matches
      {
        if Offset(fold, haystack, span.0) == at {
          MatchIsFound(fold, needle, haystack, span);
          assert sourceByFolded[at] == span.0;
          assert Offset(fold, haystack, span.1) == at + |pattern|;
          assert sourceByFolded[at + |pattern|] == span.1;
        }
      }
      searchStart := at + 1;
    }
    NothingBeyond(fold, haystack);
    forall span | FoldsTo(fold, needle, haystack, span) ensures span in matches {
      OffsetsGrow(fold, haystack, span.0, span.1);
    }
  }

  lemma MatchIsFound(fold: Folding, needle: string, haystack: string, span: Span)
    requires NeverEmpty(fold) && FoldsTo(fold, needle, haystack, span)
    ensures var p, n := Offset(fold, haystack, span.0), |Fold(fold, needle)|;
      && p + n == Offset(fold, haystack, span.1)
      && OccursAt(Fold(fold, haystack), Fold(fold, needle), p)
  {
    OffsetsGrow(fold, haystack, span.0, span.1);
  }

  /** A folded occurrence between two source boundaries is a source match. */
  lemma SpanOfFolded(fold: Folding, needle: string, haystack: string, at: nat, span: Span)
    requires NeverEmpty(fold) && span.0 <= |haystack| && span.1 <= |haystack|
    requires at == Offset(fold, haystack, span.0) && at + |Fold(fold, needle)| == Offset(fold, haystack, span.1)
    requires OccursAt(Fold(fold, haystack), Fold(fold, needle), at)
    ensures FoldsTo(fold, needle, haystack, span)
  {
    if span.1 < span.0 {
      OffsetsGrow(fold, haystack, span.1, span.0);
    } else {
      OffsetsGrow(fold, haystack, span.0, span.1);
    }
  }

  lemma NothingBeyond(fold: Folding, haystack: string)
    requires NeverEmpty(fold)
    ensures forall i | 0 <= i <= |haystack| :: Offset(fold, haystack, i) <= |Fold(fold, haystack)|
  {
    forall i | 0 <= i <= |haystack| ensures Offset(fold, haystack, i) <= |Fold(fold, haystack)| {
      OffsetsGrow(fold, haystack, i, |haystack|);
    }
  }
}
