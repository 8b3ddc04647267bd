/**
 The chunker is greedy: a chunk ends only where it is full or where the next segment would pass the
 bound, and what is carried over is as much as fits.
 */
module ChunkGreed {
  import opened Models
  import opened TextRuns
  import opened Chunker

  // ----- windows of an oversized paragraph -----

  /** The window is as wide as the bound allows at 33/25 tokens a word, and never empty. */
  lemma WidestWindow(targetMax: int)
    ensures var n := MaximumWords(targetMax);
      (n == 1 || 33 * n <= 25 * targetMax) && 33 * (n + 1) > 25 * targetMax
  {
  }

  /** The overlap is as wide as asked for, at least a word, and leaves every window a new word. */
  lemma WidestOverlap(targetMax: int, overlap: int)
    ensures var n, width := OverlapWords(targetMax, overlap), MaximumWords(targetMax);
      && (n == width - 1 || (n >= 1 && 33 * (n + 1) > 25 * overlap))
      && (n <= 1 || 33 * n <= 25 * overlap)
  {
  }

  /** A paragraph is cut only if it does not fit, and then every window but the last is full. */
  lemma {:induction false} WindowsAreFull(words: seq<string>, width: nat, repeated: nat, k: nat)
    requires repeated < width && AllWords(words) && k + 1 < |Windows(words, width, repeated)|
    ensures |Words(Windows(words, width, repeated)[k])| == width
    decreases k
  {
    hide Words, Sentence, AllWords;
    AllWordsSlice(words, 0, width);
    assert words[0..width] == words[..width];
    WordsOfSentence(words[..width]);
    if k > 0 {
      AllWordsSlice(words, width - repeated, |words|);
      assert words[width - repeated..|words|] == words[width - repeated..];
      WindowsAreFull(words[width - repeated..], width, repeated, k - 1);
    }
  }

  lemma SegmentsAreFull(paragraph: string, targetMax: int, overlap: int, k: nat)
    ensures Estimate(paragraph) <= targetMax ==> SegmentsOf(paragraph, targetMax, overlap) == [paragraph]
    ensures k + 1 < |SegmentsOf(paragraph, targetMax, overlap)| ==>
      |Words(SegmentsOf(paragraph, targetMax, overlap)[k])| == MaximumWords(targetMax)
  {
    hide Words, AllWords, Windows, MaximumWords, OverlapWords, Estimate;
    WordsAreWords(paragraph);
    if Estimate(paragraph) > targetMax && k + 1 < |SegmentsOf(paragraph, targetMax, overlap)| {
      WindowsAreFull(Words(paragraph), MaximumWords(targetMax), OverlapWords(targetMax, overlap), k);
    }
  }

  // ----- the carry is the longest that fits -----

  /** So many of the last words may be carried: they fit the budget, and together with the segment the bound. */
  predicate Suits(text: string, n: nat, segment: string, targetMax: int, overlap: int)
    requires n <= |Words(text)|
  {
    n == 0
    || (&& EstimateWords(n) <= overlap && EstimateWords(n) + Estimate(segment) <= targetMax
        && Estimate(Sentence(Words(text)[|Words(text)| - n..]) + "\n\n" + segment) <= targetMax)
  }

  /** Exactly the longest run of last words that suits is carried. */
  predicate LongestCarry(carry: string, text: string, segment: string, targetMax: int, overlap: int) {
    && WordSuffix(carry, text)
    && Suits(text, |Words(carry)|, segment, targetMax, overlap)
    && forall m | |Words(carry)| < m <= |Words(text)| :: !Suits(text, m, segment, targetMax, overlap)
  }

  lemma SuffixOfSuffix(words: seq<string>, m: nat, n: nat)
    requires n <= m <= |words|
    ensures words[|words| - m..][m - n..] == words[|words| - n..]
  {
  }

  lemma CarryIsLongest(parts: seq<Part>, segment: string, targetMax: int, overlap: int)
    ensures LongestCarry(Carry(parts, segment, targetMax, overlap), ChunkText(parts), segment, targetMax, overlap)
  {
    hide Words, Sentence, ChunkText, Estimate, EstimateWords, Trimmed, Fitting;
    var text := ChunkText(parts);
    var all := Words(text);
    var budget := CarryBudget(segment, targetMax, overlap);
    var f := Fitting(|all|, budget);
    FittingIsLongest(|all|, budget);
    SentenceSuffix(text, all[|all| - f..]);
    var tail := all[|all| - f..];
    assert Words(TailOverlap(text, budget)) == tail;
    var kept := Trimmed(tail, segment, targetMax);
    assert EndsWith(all, kept);
    SentenceSuffix(text, kept);
    assert Carry(parts, segment, targetMax, overlap) == Sentence(kept);
    TrimmedIsLongest(tail, segment, targetMax, 0);
    KeptSuits(text, f, kept, segment, targetMax, overlap);
    forall m | |kept| < m <= |all| ensures !Suits(text, m, segment, targetMax, overlap) {
      LongerDoesNot(text, f, kept, segment, targetMax, overlap, m);
    }
  }

  lemma KeptSuits(text: string, f: nat, kept: seq<string>, segment: string, targetMax: int, overlap: int)
    requires f <= |Words(text)| && EndsWith(Words(text)[|Words(text)| - f..], kept)
    requires f > 0 ==> EstimateWords(f) <= CarryBudget(segment, targetMax, overlap)
    requires kept != [] ==> Estimate(Sentence(kept) + "\n\n" + segment) <= targetMax
    ensures |kept| <= |Words(text)| && Suits(text, |kept|, segment, targetMax, overlap)
  {
    hide Words, Sentence, Estimate;
    var all := Words(text);
    SuffixOfSuffix(all, f, |kept|);
    if kept != [] {
      EstimateMonotone(|kept|, f);
      EstimateBounds(|kept|);
      assert kept == all[|all| - |kept|..];
    }
  }

  lemma LongerDoesNot(text: string, f: nat, kept: seq<string>, segment: string, targetMax: int, overlap: int, m: nat)
    requires f <= |Words(text)|
    requires forall n | f < n <= |Words(text)| :: EstimateWords(n) > CarryBudget(segment, targetMax, overlap)
    requires kept == Trimmed(Words(text)[|Words(text)| - f..], segment, targetMax)
    requires |kept| < m <= |Words(text)|
    ensures !Suits(text, m, segment, targetMax, overlap)
  {
    hide Words, Sentence, Estimate, EstimateWords, Trimmed;
    var all := Words(text);
    if m <= f {
      var tail := all[|all| - f..];
      TrimmedIsLongest(tail, segment, targetMax, m);
      SuffixOfSuffix(all, f, m);
    } else {
      EstimateBounds(m);
    }
  }

  // ----- where chunks end -----

  /** Within a chunk every further segment still fits, and nothing before the last one made it full. */
  predicate Tight(parts: seq<Part>, targetMin: int, targetMax: int) {
    forall m | 0 < m < |parts| ::
      && !parts[m].carried
      && Tokens(parts[..m]) + Estimate(parts[m].text) <= targetMax
      && (!parts[m - 1].carried ==> !Full(Tokens(parts[..m]), targetMin, targetMax))
  }

  /** The first segment of a chunk. */
  function Opening(parts: seq<Part>): string {
    if parts == [] then ""
    else if parts[0].carried && |parts| > 1 then parts[1].text
    else parts[0].text
  }

  /**
   One chunk gives way to the next because it is full, and then nothing is carried; or because the
   next segment would pass the bound, and then the longest suffix that suits is.
   */
  predicate GivesWay(chunk: seq<Part>, next: seq<Part>, targetMin: int, targetMax: int, overlap: int) {
    && next != []
    && if Full(Tokens(chunk), targetMin, targetMax) then !next[0].carried
       else
         && Tokens(chunk) + Estimate(Opening(next)) > targetMax
         && LongestCarry(if next[0].carried then next[0].text else "", ChunkText(chunk), Opening(next),
                         targetMax, overlap)
  }

  function Pieces(g: Gathering): seq<seq<Part>> {
    if g.current == [] then g.chunks else g.chunks + [g.current]
  }

  /** A chunk holds a segment, not a carried suffix alone. */
  predicate Filled(parts: seq<Part>) {
    parts != [] && !parts[|parts| - 1].carried
  }

  predicate Greedy(g: Gathering, targetMin: int, targetMax: int, overlap: int) {
    && (forall k | 0 <= k < |Pieces(g)| :: Filled(Pieces(g)[k]) && Tight(Pieces(g)[k], targetMin, targetMax))
    && (forall k | 0 <= k < |Pieces(g)| - 1 ::
          GivesWay(Pieces(g)[k], Pieces(g)[k + 1], targetMin, targetMax, overlap))
    && (g.current != [] ==> !Full(Tokens(g.current), targetMin, targetMax))
    && (g.current == [] && g.chunks != [] ==> Full(Tokens(g.chunks[|g.chunks| - 1]), targetMin, targetMax))
  }

  /** The parts a segment is placed behind. */
  lemma TightMore(parts: seq<Part>, segment: string, targetMin: int, targetMax: int)
    requires Tight(parts, targetMin, targetMax)
    requires parts != [] ==> Tokens(parts) + Estimate(segment) <= targetMax
    requires Filled(parts) ==> !Full(Tokens(parts), targetMin, targetMax)
    ensures Tight(parts + [Part(segment, false)], targetMin, targetMax)
    ensures Filled(parts + [Part(segment, false)])
  {
    hide Tokens, Estimate, Full;
    var more := parts + [Part(segment, false)];
    forall m | 0 < m < |more|
      ensures !more[m].carried && Tokens(more[..m]) + Estimate(more[m].text) <= targetMax
      ensures !more[m - 1].carried ==> !Full(Tokens(more[..m]), targetMin, targetMax)
    {
      assert more[..m] == parts[..m];
      if m == |parts| { assert parts[..m] == parts; }
    }
  }

  lemma CarriedIsTight(carry: string, targetMin: int, targetMax: int)
    ensures Tight(Carried(carry), targetMin, targetMax) && !Filled(Carried(carry))
  {
  }

  /** One more segment in the open chunk. */
  lemma StaysGreedy(g: Gathering, segment: string, targetMin: int, targetMax: int, overlap: int)
    requires Greedy(g, targetMin, targetMax, overlap)
    requires g.current != [] && Tokens(g.current) + Estimate(segment) <= targetMax
    ensures Greedy(Place(g, segment, targetMin, targetMax), targetMin, targetMax, overlap)
  {
    hide Tokens, Estimate, Full, Tight, GivesWay, ChunkText;
    var current := g.current + [Part(segment, false)];
    var before, after := Pieces(g), g.chunks + [current];
    assert before[|g.chunks|] == g.current;
    TightMore(g.current, segment, targetMin, targetMax);
    forall k | 0 <= k < |after| - 1 ensures GivesWay(after[k], after[k + 1], targetMin, targetMax, overlap) {
      assert GivesWay(before[k], before[k + 1], targetMin, targetMax, overlap);
      if k + 1 == |g.chunks| {
        SameOpening(g.chunks[k], g.current, Part(segment, false), targetMin, targetMax, overlap);
      }
    }
    assert forall k | 0 <= k < |g.chunks| :: after[k] == before[k];
  }

  lemma SameOpening(chunk: seq<Part>, next: seq<Part>, p: Part, targetMin: int, targetMax: int, overlap: int)
    requires Filled(next) && GivesWay(chunk, next, targetMin, targetMax, overlap)
    ensures GivesWay(chunk, next + [p], targetMin, targetMax, overlap)
  {
    assert Opening(next + [p]) == Opening(next);
  }

  /** A segment that opens a chunk of its own. */
  lemma OpensGreedy(g: Gathering, carry: string, segment: string, targetMin: int, targetMax: int, overlap: int)
    requires forall k | 0 <= k < |g.chunks| :: Filled(g.chunks[k]) && Tight(g.chunks[k], targetMin, targetMax)
    requires forall k | 0 <= k < |g.chunks| - 1 :: GivesWay(g.chunks[k], g.chunks[k + 1], targetMin, targetMax, overlap)
    requires g.current == Carried(carry)
    requires carry != "" ==> Estimate(carry) + Estimate(segment) <= targetMax
    requires g.chunks != [] ==>
      GivesWay(g.chunks[|g.chunks| - 1], g.current + [Part(segment, false)], targetMin, targetMax, overlap)
    ensures Greedy(Place(g, segment, targetMin, targetMax), targetMin, targetMax, overlap)
  {
    hide Tokens, Estimate, Full, Tight, GivesWay, ChunkText;
    var current := g.current + [Part(segment, false)];
    CarriedIsTight(carry, targetMin, targetMax);
    OneCarry(carry);
    TightMore(g.current, segment, targetMin, targetMax);
    var after := g.chunks + [current];
    assert forall k | 0 <= k < |g.chunks| :: after[k] == g.chunks[k];
    forall k | 0 <= k < |after| - 1 ensures GivesWay(after[k], after[k + 1], targetMin, targetMax, overlap) {
      if k + 1 < |g.chunks| {
        assert GivesWay(g.chunks[k], g.chunks[k + 1], targetMin, targetMax, overlap);
      }
    }
  }

  lemma NextSegment(g: Gathering, segment: string, targetMin: int, targetMax: int, overlap: int)
    requires Greedy(g, targetMin, targetMax, overlap)
    ensures Greedy(Place(MakeRoom(g, segment, targetMax, overlap), segment, targetMin, targetMax),
                   targetMin, targetMax, overlap)
  {
    hide Tokens, Estimate, Full, Tight, ChunkText, Place, Carry, LongestCarry;
    var all := Pieces(g);
    if g.current == [] {
      assert all == g.chunks;
      assert forall k | 0 <= k < |g.chunks| :: Filled(all[k]) && Tight(all[k], targetMin, targetMax);
      assert forall k | 0 <= k < |g.chunks| - 1 :: GivesWay(all[k], all[k + 1], targetMin, targetMax, overlap);
      EmptyCarry();
      OpensGreedy(g, "", segment, targetMin, targetMax, overlap);
    } else if Tokens(g.current) + Estimate(segment) > targetMax {
      var pieces := Pieces(g);
      var carry := Carry(g.current, segment, targetMax, overlap);
      CarrySound(g.current, segment, targetMax, overlap);
      CarryIsLongest(g.current, segment, targetMax, overlap);
      var room := Gathering(g.chunks + [g.current], Carried(carry));
      assert pieces == room.chunks;
      OpensGreedy(room, carry, segment, targetMin, targetMax, overlap);
    } else {
      StaysGreedy(g, segment, targetMin, targetMax, overlap);
    }
  }

  lemma EmptyCarry()
    ensures Carried("") == []
  {
  }

  lemma NothingGreedy(targetMin: int, targetMax: int, overlap: int)
    ensures Greedy(Gathering([], []), targetMin, targetMax, overlap)
  {
  }

  /** Whatever the segments: chunks end where they are full or must end, and start with the longest carry. */
  lemma {:induction false} GatheredGreedily(segments: seq<string>, targetMin: int, targetMax: int, overlap: int)
    ensures Greedy(Gathered(segments, targetMin, targetMax, overlap), targetMin, targetMax, overlap)
  {
    hide Greedy, MakeRoom, Place;
    if segments == [] {
      NothingGreedy(targetMin, targetMax, overlap);
    } else {
      var front, last := segments[..|segments| - 1], segments[|segments| - 1];
      GatheredGreedily(front, targetMin, targetMax, overlap);
      NextSegment(Gathered(front, targetMin, targetMax, overlap), last, targetMin, targetMax, overlap);
    }
  }

  /**
   The chunks of a page are the pieces gathered, except that a remainder shorter than the overlap joins
   the chunk before it when both together fit the bound.
   */
  lemma RemainderJoins(segments: seq<string>, targetMin: int, targetMax: int, overlap: int)
    ensures var g := Gathered(segments, targetMin, targetMax, overlap);
      var pieces, n := Pieces(g), |g.chunks|;
      ChunksOf(segments, targetMin, targetMax, overlap)
        == if g.current != [] && n > 0 && Estimate(ChunkText(pieces[n])) < overlap
              && Estimate(ChunkText(pieces[n - 1] + pieces[n])) <= targetMax
           then pieces[..n - 1] + [pieces[n - 1] + pieces[n]]
           else pieces
  {
    hide Estimate, ChunkText, Gathered;
    var g := Gathered(segments, targetMin, targetMax, overlap);
    if g.current != [] && g.chunks != [] {
      assert Pieces(g)[..|g.chunks| - 1] == g.chunks[..|g.chunks| - 1];
    }
  }
}
