/**
 The page chunker: oversized paragraphs are cut into overlapping windows of words, segments are
 gathered under a token bound, and a word suffix of a flushed chunk is carried into the next.
 */
module Chunker {
  import opened Models
  import opened TextRuns

  predicate Ink(c: char) {
    c !in " \t\n\r\U{0B}\U{0C}"
  }

  function Words(text: string): seq<string> {
    Runs(text, Ink)
  }

  /** Words times 1.32, rounded, never less than one. */
  function EstimateWords(n: nat): nat {
    if n == 0 then 1 else (66 * n + 25) / 50
  }

  function Estimate(text: string): nat {
    EstimateWords(|Words(text)|)
  }

  /** The product with 33/25 is never halfway between two integers, so rounding has no ties. */
  lemma NoTies(n: nat)
    ensures 2 * (33 * n) % 50 != 25
  {
    assert 66 * n == 2 * (33 * n);
  }

  lemma EstimateBounds(n: nat)
    ensures EstimateWords(n) >= 1
    ensures 66 * n <= 50 * EstimateWords(n) + 25
    ensures n > 0 ==> 50 * EstimateWords(n) <= 66 * n + 25
  {
  }

  lemma EstimateMonotone(m: nat, n: nat)
    requires m <= n
    ensures EstimateWords(m) <= EstimateWords(n)
  {
  }

  predicate AllWords(words: seq<string>) {
    forall w | w in words :: w != "" && AllIn(w, Ink)
  }

  function Sentence(words: seq<string>): string {
    Join(words, " ")
  }

  lemma {:induction false} WordsOfSentence(words: seq<string>)
    requires AllWords(words)
    ensures Words(Sentence(words)) == words
  {
    RunsOfJoin(words, " ", Ink);
    FlattenWords(words);
  }

  lemma {:induction false} FlattenWords(words: seq<string>)
    requires AllWords(words)
    ensures Flatten(RunsOfEach(words, Ink)) == words
  {
    if words != [] {
      assert words[0] in words;
      assert forall w | w in words[1..] :: w in words;
      SingleRun(words[0], Ink);
      assert RunsOfEach(words, Ink)[1..] == RunsOfEach(words[1..], Ink);
      FlattenWords(words[1..]);
    }
  }

  lemma WordsAreWords(text: string)
    ensures AllWords(Words(text))
  {
    RunsInClass(text, Ink);
  }

  // ----- oversized paragraphs -----

  /** How many words fit under a token bound at 1.32 tokens a word, at least one. */
  function MaximumWords(targetMax: int): (n: nat)
    ensures n >= 1
  {
    if targetMax <= 0 then 1 else Max(1, 25 * targetMax / 33)
  }

  function OverlapWords(targetMax: int, overlap: int): (n: nat)
    ensures n < MaximumWords(targetMax)
  {
    Min(MaximumWords(targetMax) - 1, if overlap <= 0 then 1 else Max(1, 25 * overlap / 33))
  }

  lemma WindowFits(targetMax: int, n: nat)
    requires targetMax >= 1 && n <= MaximumWords(targetMax)
    ensures EstimateWords(n) <= targetMax
  {
    EstimateMonotone(n, MaximumWords(targetMax));
  }

  /** Windows of at most `width` words, each starting `width - repeated` words after the one before. */
  function Windows(words: seq<string>, width: nat, repeated: nat): (w: seq<string>)
    requires repeated < width
    decreases |words|
  {
    if words == [] then []
    else if |words| <= width then [Sentence(words)]
    else [Sentence(words[..width])] + Windows(words[width - repeated..], width, repeated)
  }

  /** A paragraph that fits stays whole; an oversized one becomes overlapping windows. */
  function SegmentsOf(paragraph: string, targetMax: int, overlap: int): seq<string> {
    if Estimate(paragraph) <= targetMax then [paragraph]
    else Windows(Words(paragraph), MaximumWords(targetMax), OverlapWords(targetMax, overlap))
  }

  /** The words of the segments, leaving out of each its first `repeated` words. */
  function Unrepeated(segments: seq<string>, repeated: nat): seq<string> {
    if segments == [] then []
    else
      var words := Words(segments[0]);
      (if repeated <= |words| then words[repeated..] else []) + Unrepeated(segments[1..], repeated)
  }

  /** What the windows say together: all of the first, then what each later one adds. */
  function Stitched(segments: seq<string>, repeated: nat): seq<string> {
    if segments == [] then [] else Words(segments[0]) + Unrepeated(segments[1..], repeated)
  }

  lemma {:induction false} WindowsAdd(words: seq<string>, width: nat, repeated: nat)
    requires repeated < width && repeated < |words| && AllWords(words)
    ensures Unrepeated(Windows(words, width, repeated), repeated) == words[repeated..]
    decreases |words|
  {
    hide Words, Sentence, AllWords;
    var windows := Windows(words, width, repeated);
    if |words| <= width {
      WordsOfSentence(words);
      assert windows[1..] == [];
    } else {
      AllWordsSlice(words, 0, width);
      AllWordsSlice(words, width - repeated, |words|);
      assert words[0..width] == words[..width];
      assert words[width - repeated..|words|] == words[width - repeated..];
      WordsOfSentence(words[..width]);
      WindowsAdd(words[width - repeated..], width, repeated);
      assert windows[1..] == Windows(words[width - repeated..], width, repeated);
      assert words[..width][repeated..] + words[width - repeated..][repeated..] == words[repeated..];
    }
  }

  lemma AllWordsSlice(words: seq<string>, lo: nat, hi: nat)
    requires AllWords(words) && lo <= hi <= |words|
    ensures AllWords(words[lo..hi])
  {
    assert forall w | w in words[lo..hi] :: w in words;
  }

  lemma WindowsStitch(words: seq<string>, width: nat, repeated: nat)
    requires repeated < width && AllWords(words)
    ensures Stitched(Windows(words, width, repeated), repeated) == words
  {
    hide Words, Sentence, AllWords;
    var windows := Windows(words, width, repeated);
    if words == [] {
    } else if |words| <= width {
      WordsOfSentence(words);
      assert windows[1..] == [];
    } else {
      AllWordsSlice(words, 0, width);
      AllWordsSlice(words, width - repeated, |words|);
      assert words[0..width] == words[..width];
      assert words[width - repeated..|words|] == words[width - repeated..];
      WordsOfSentence(words[..width]);
      WindowsAdd(words[width - repeated..], width, repeated);
      assert windows[1..] == Windows(words[width - repeated..], width, repeated);
      assert words[..width] + words[width - repeated..][repeated..] == words;
    }
  }

  lemma {:induction false} WindowsFit(words: seq<string>, targetMax: int, repeated: nat)
    requires repeated < MaximumWords(targetMax) && AllWords(words) && targetMax >= 1
    ensures forall s | s in Windows(words, MaximumWords(targetMax), repeated) :: Estimate(s) <= targetMax
    decreases |words|
  {
    hide Words, Sentence, AllWords, MaximumWords, EstimateWords;
    var width := MaximumWords(targetMax);
    if words == [] {
    } else if |words| <= width {
      WordsOfSentence(words);
      WindowFits(targetMax, |words|);
    } else {
      AllWordsSlice(words, 0, width);
      AllWordsSlice(words, width - repeated, |words|);
      assert words[0..width] == words[..width];
      assert words[width - repeated..|words|] == words[width - repeated..];
      WordsOfSentence(words[..width]);
      WindowFits(targetMax, width);
      WindowsFit(words[width - repeated..], targetMax, repeated);
    }
  }

  /** Segments keep every word of the paragraph in order, and each fits a positive bound. */
  lemma SegmentsLaw(paragraph: string, targetMax: int, overlap: int)
    ensures Stitched(SegmentsOf(paragraph, targetMax, overlap), OverlapWords(targetMax, overlap)) == Words(paragraph)
    ensures targetMax >= 1 ==> forall s | s in SegmentsOf(paragraph, targetMax, overlap) :: Estimate(s) <= targetMax
  {
    hide Words, AllWords, Windows, MaximumWords, OverlapWords, EstimateWords;
    WordsAreWords(paragraph);
    if Estimate(paragraph) <= targetMax {
      assert [paragraph][1..] == [];
    } else {
      WindowsStitch(Words(paragraph), MaximumWords(targetMax), OverlapWords(targetMax, overlap));
      if targetMax >= 1 {
        WindowsFit(Words(paragraph), targetMax, OverlapWords(targetMax, overlap));
      }
    }
  }

  method SplitOversizedParagraph(paragraph: string, targetMax: int, overlap: int) returns (segments: seq<string>)
    ensures segments == SegmentsOf(paragraph, targetMax, overlap)
  {
    hide Words, Sentence, Estimate, MaximumWords, OverlapWords;
    if Estimate(paragraph) <= targetMax {
      return [paragraph];
    }
    var words := Words(paragraph);
    var maximum := MaximumWords(targetMax);
    var repeated := OverlapWords(targetMax, overlap);
    var step := maximum - repeated;
    segments := [];
    var start := 0;
    while start < |words|
      invariant 0 <= start <= |words|
      invariant segments + Windows(words[start..], maximum, repeated) == Windows(words, maximum, repeated)
      decreases |words| - start
    {
      var end := Min(start + maximum, |words|);
      assert words[start..][..end - start] == words[start..end];
      segments := segments + [Sentence(words[start..end])];
      if start + maximum >= |words| {
        assert words[start..end] == words[start..];
        break;
      }
      assert words[start..][step..] == words[start + step..];
      start := start + step;
    }
  }

  // ----- the carried suffix -----

  /** A text whose words end another text. */
  predicate WordSuffix(part: string, whole: string) {
    EndsWith(Words(whole), Words(part))
  }

  predicate EndsWith(whole: seq<string>, part: seq<string>) {
    |part| <= |whole| && whole[|whole| - |part|..] == part
  }

  /** How many of the last n words fit the budget. */
  function Fitting(n: nat, budget: int): nat {
    if n == 0 || EstimateWords(n) <= budget then n else Fitting(n - 1, budget)
  }

  lemma {:induction false} FittingIsLongest(n: nat, budget: int)
    ensures Fitting(n, budget) <= n
    ensures Fitting(n, budget) > 0 ==> EstimateWords(Fitting(n, budget)) <= budget
    ensures forall m | Fitting(n, budget) < m <= n :: EstimateWords(m) > budget
  {
    hide EstimateWords;
    if n > 0 && EstimateWords(n) > budget {
      FittingIsLongest(n - 1, budget);
    }
  }

  lemma FittingUnique(n: nat, budget: int, k: nat)
    requires k <= n && (k > 0 ==> EstimateWords(k) <= budget)
    requires k < n ==> EstimateWords(k + 1) > budget
    ensures Fitting(n, budget) == k
  {
    FittingIsLongest(n, budget);
    var f := Fitting(n, budget);
    if f > k {
      EstimateMonotone(k + 1, f);
    }
  }

  function TailOverlap(text: string, budget: int): string {
    var words := Words(text);
    FittingIsLongest(|words|, budget);
    Sentence(words[|words| - Fitting(|words|, budget)..])
  }

  /** The binary search finds the longest whole-word suffix that fits. */
  method BoundedTailOverlap(text: string, budget: int) returns (tail: string)
    ensures tail == TailOverlap(text, budget)
  {
    hide Words, Sentence, Fitting, AllWords;
    var words := Words(text);
    if budget <= 0 {
      FittingUnique(|words|, budget, 0);
      assert words[|words|..] == [];
      EmptySentence();
      return "";
    }
    WordsAreWords(text);
    var low, high := 0, |words|;
    while low < high
      invariant 0 <= low <= high <= |words|
      invariant low > 0 ==> EstimateWords(low) <= budget
      invariant high < |words| ==> EstimateWords(high + 1) > budget
      decreases high - low
    {
      var midpoint := (low + high + 1) / 2;
      AllWordsSlice(words, |words| - midpoint, |words|);
      assert words[|words| - midpoint..|words|] == words[|words| - midpoint..];
      var candidate := Sentence(words[|words| - midpoint..]);
      WordsOfSentence(words[|words| - midpoint..]);
      if Estimate(candidate) <= budget {
        low := midpoint;
      } else {
        high := midpoint - 1;
      }
    }
    FittingUnique(|words|, budget, low);
    if low == 0 {
      assert words[|words|..] == [];
      EmptySentence();
      return "";
    }
    tail := Sentence(words[|words| - low..]);
  }

  lemma EmptySentence()
    ensures Sentence([]) == ""
  {
  }

  /** Words dropped from the front until the carried text and the next segment fit together. */
  function Trimmed(words: seq<string>, segment: string, targetMax: int): (t: seq<string>)
    ensures EndsWith(words, t)
  {
    if words == [] || Estimate(Sentence(words) + "\n\n" + segment) <= targetMax then words
    else Trimmed(words[1..], segment, targetMax)
  }

  /** Trimming keeps as many words as fit: what it keeps fits, and one more word would not. */
  lemma {:induction false} TrimmedIsLongest(words: seq<string>, segment: string, targetMax: int, n: nat)
    requires n <= |words|
    ensures var kept := Trimmed(words, segment, targetMax);
      && (kept != [] ==> Estimate(Sentence(kept) + "\n\n" + segment) <= targetMax)
      && (|kept| < n ==> Estimate(Sentence(words[|words| - n..]) + "\n\n" + segment) > targetMax)
  {
    hide Words, Sentence, Estimate;
    if words != [] && Estimate(Sentence(words) + "\n\n" + segment) > targetMax {
      if n < |words| {
        TrimmedIsLongest(words[1..], segment, targetMax, n);
        assert words[1..][|words| - 1 - n..] == words[|words| - n..];
      } else {
        TrimmedIsLongest(words[1..], segment, targetMax, 0);
        assert words[|words| - n..] == words;
      }
    }
  }

  method TrimCarry(carry: string, segment: string, targetMax: int) returns (trimmed: string)
    requires carry == Sentence(Words(carry))
    ensures trimmed == Sentence(Trimmed(Words(carry), segment, targetMax))
  {
    hide Words, Sentence, Estimate, AllWords;
    trimmed := carry;
    WordsAreWords(carry);
    ghost var words := Words(carry);
    SentenceEmptiness(words);
    while trimmed != "" && Estimate(trimmed + "\n\n" + segment) > targetMax
      invariant AllWords(words) && trimmed == Sentence(words) && (trimmed == "" <==> words == [])
      invariant Trimmed(words, segment, targetMax) == Trimmed(Words(carry), segment, targetMax)
      decreases |words|
    {
      WordsOfSentence(words);
      AllWordsSlice(words, 1, |words|);
      assert words[1..|words|] == words[1..];
      trimmed := Sentence(Words(trimmed)[1..]);
      words := words[1..];
      SentenceEmptiness(words);
    }
  }

  lemma SentenceEmptiness(words: seq<string>)
    requires AllWords(words)
    ensures Sentence(words) == "" <==> words == []
  {
    if words != [] {
      assert words[0] in words;
    }
  }

  // ----- gathering segments -----

  /** A part of a chunk: an input segment, or words carried over from the chunk before. */
  datatype Part = Part(text: string, carried: bool)

  function Texts(parts: seq<Part>): seq<string> {
    seq(|parts|, i requires 0 <= i < |parts| => parts[i].text)
  }

  function ChunkText(parts: seq<Part>): string {
    Join(Texts(parts), "\n\n")
  }

  function WordsOfParts(parts: seq<Part>): seq<string> {
    if parts == [] then [] else WordsOfParts(parts[..|parts| - 1]) + Words(parts[|parts| - 1].text)
  }

  function Tokens(parts: seq<Part>): nat {
    if parts == [] then 0 else Tokens(parts[..|parts| - 1]) + Estimate(parts[|parts| - 1].text)
  }

  /** Input segments among the parts, in order. */
  function Fresh(parts: seq<Part>): seq<string> {
    if parts == [] then []
    else
      var last := parts[|parts| - 1];
      Fresh(parts[..|parts| - 1]) + (if last.carried then [] else [last.text])
  }

  function FreshOf(chunks: seq<seq<Part>>): seq<string> {
    if chunks == [] then [] else FreshOf(chunks[..|chunks| - 1]) + Fresh(chunks[|chunks| - 1])
  }

  lemma {:induction false} FlattenLast(parts: seq<seq<string>>, last: seq<string>)
    ensures Flatten(parts + [last]) == Flatten(parts) + last
  {
    FlattenConcatenation(parts, [last]);
    assert [last][1..] == [];
    assert Flatten([last]) == last;
  }

  /** A chunk's words are the words of its parts. */
  lemma {:induction false} ChunkWords(parts: seq<Part>)
    ensures Words(ChunkText(parts)) == WordsOfParts(parts)
  {
    RunsOfJoin(Texts(parts), "\n\n", Ink);
    FlattenParts(parts);
  }

  lemma {:induction false} FlattenParts(parts: seq<Part>)
    ensures Flatten(RunsOfEach(Texts(parts), Ink)) == WordsOfParts(parts)
  {
    if parts != [] {
      var front, last := parts[..|parts| - 1], parts[|parts| - 1];
      FlattenParts(front);
      assert RunsOfEach(Texts(parts), Ink) == RunsOfEach(Texts(front), Ink) + [Words(last.text)];
      FlattenLast(RunsOfEach(Texts(front), Ink), Words(last.text));
    }
  }

  lemma {:induction false} PartsBound(parts: seq<Part>)
    ensures 66 * |WordsOfParts(parts)| <= 25 * (2 * Tokens(parts) + |parts|)
  {
    if parts != [] {
      PartsBound(parts[..|parts| - 1]);
      EstimateBounds(|Words(parts[|parts| - 1].text)|);
    }
  }

  /** The word bound of one emitted chunk: per-part rounding costs half a token a part. */
  predicate Bounded(parts: seq<Part>, targetMax: int) {
    parts != [] && 66 * |Words(ChunkText(parts))| <= 25 * (2 * targetMax + |parts|)
  }

  /** Carried words end the text that precedes them: the flushed chunk before, or the same chunk's start. */
  predicate CarryAt(chunks: seq<seq<Part>>, k: nat, m: nat)
    requires k < |chunks| && m < |chunks[k]|
  {
    chunks[k][m].carried ==>
      if m > 0 then WordSuffix(chunks[k][m].text, ChunkText(chunks[k][..m]))
      else k > 0 && WordSuffix(chunks[k][m].text, ChunkText(chunks[k - 1]))
  }

  predicate CarriesSound(chunks: seq<seq<Part>>) {
    forall k, m | 0 <= k < |chunks| && 0 <= m < |chunks[k]| :: CarryAt(chunks, k, m)
  }

  /** Only the first part of a chunk being gathered may be carried, and only from the last flush. */
  predicate OpenSound(chunks: seq<seq<Part>>, current: seq<Part>) {
    && (forall m | 0 < m < |current| :: !current[m].carried)
    && (current != [] && current[0].carried ==>
          chunks != [] && WordSuffix(current[0].text, ChunkText(chunks[|chunks| - 1])))
  }

  lemma FlushSound(chunks: seq<seq<Part>>, current: seq<Part>)
    requires CarriesSound(chunks) && OpenSound(chunks, current)
    ensures CarriesSound(chunks + [current])
  {
    hide WordSuffix, ChunkText;
    var longer := chunks + [current];
    forall k, m | 0 <= k < |longer| && 0 <= m < |longer[k]| ensures CarryAt(longer, k, m) {
      if k < |chunks| {
        assert CarryAt(chunks, k, m);
      }
    }
  }

  lemma MergeSound(chunks: seq<seq<Part>>, current: seq<Part>)
    requires CarriesSound(chunks) && chunks != [] && OpenSound(chunks, current) && chunks[|chunks| - 1] != []
    ensures CarriesSound(chunks[..|chunks| - 1] + [chunks[|chunks| - 1] + current])
  {
    hide WordSuffix, ChunkText;
    var front, last := chunks[..|chunks| - 1], chunks[|chunks| - 1];
    var merged := front + [last + current];
    forall k, m | 0 <= k < |merged| && 0 <= m < |merged[k]| ensures CarryAt(merged, k, m) {
      if k < |front| {
        assert CarryAt(chunks, k, m);
      } else if m < |last| {
        assert CarryAt(chunks, k, m);
        assert (last + current)[..m] == last[..m];
      } else {
        assert (last + current)[m] == current[m - |last|];
        if m == |last| {
          assert (last + current)[..m] == last;
        }
      }
    }
  }

  lemma OneCarry(text: string)
    ensures Fresh([Part(text, true)]) == [] && Tokens([Part(text, true)]) == Estimate(text)
    ensures Fresh([]) == [] && Tokens([]) == 0
  {
    hide Estimate;
    assert [Part(text, true)][..0] == [];
  }

  lemma FlushBounded(parts: seq<Part>, targetMax: int)
    requires parts != [] && Tokens(parts) <= targetMax
    ensures Bounded(parts, targetMax)
  {
    hide ChunkText, Tokens;
    PartsBound(parts);
    ChunkWords(parts);
  }

  lemma MergedBounded(parts: seq<Part>, targetMax: int)
    requires parts != [] && Estimate(ChunkText(parts)) <= targetMax
    ensures Bounded(parts, targetMax)
  {
    EstimateBounds(|Words(ChunkText(parts))|);
  }

  lemma {:induction false} FreshConcatenation(a: seq<Part>, b: seq<Part>)
    ensures Fresh(a + b) == Fresh(a) + Fresh(b)
    decreases |b|
  {
    if b == [] {
      assert a + b == a;
    } else {
      assert (a + b)[..|a + b| - 1] == a + b[..|b| - 1];
      FreshConcatenation(a, b[..|b| - 1]);
    }
  }

  /** Chunks already flushed, and the parts of the one being gathered. */
  datatype Gathering = Gathering(chunks: seq<seq<Part>>, current: seq<Part>)

  function CarryBudget(segment: string, targetMax: int, overlap: int): int {
    Min(overlap, Max(0, targetMax - Estimate(segment)))
  }

  function Carry(parts: seq<Part>, segment: string, targetMax: int, overlap: int): string {
    var tail := TailOverlap(ChunkText(parts), CarryBudget(segment, targetMax, overlap));
    Sentence(Trimmed(Words(tail), segment, targetMax))
  }

  function Carried(text: string): seq<Part> {
    if text == "" then [] else [Part(text, true)]
  }

  /** A segment that would overflow the open chunk flushes it and starts the next from its end. */
  function MakeRoom(g: Gathering, segment: string, targetMax: int, overlap: int): Gathering {
    if g.current != [] && Tokens(g.current) + Estimate(segment) > targetMax then
      Gathering(g.chunks + [g.current], Carried(Carry(g.current, segment, targetMax, overlap)))
    else g
  }

  /** Nine tenths of the bound, and at least the minimum. */
  predicate Full(tokens: nat, targetMin: int, targetMax: int) {
    tokens >= targetMin && 10 * tokens >= 9 * targetMax
  }

  function Place(g: Gathering, segment: string, targetMin: int, targetMax: int): Gathering {
    var current := g.current + [Part(segment, false)];
    if Full(Tokens(current), targetMin, targetMax) then Gathering(g.chunks + [current], [])
    else Gathering(g.chunks, current)
  }

  function Gathered(segments: seq<string>, targetMin: int, targetMax: int, overlap: int): Gathering {
    if segments == [] then Gathering([], [])
    else
      var last := segments[|segments| - 1];
      var before := Gathered(segments[..|segments| - 1], targetMin, targetMax, overlap);
      Place(MakeRoom(before, last, targetMax, overlap), last, targetMin, targetMax)
  }

  /** A short remainder joins the last chunk when both still fit the bound. */
  predicate Merges(g: Gathering, targetMax: int, overlap: int) {
    && g.chunks != []
    && Estimate(ChunkText(g.current)) < overlap
    && Estimate(ChunkText(g.chunks[|g.chunks| - 1] + g.current)) <= targetMax
  }

  function Finished(g: Gathering, targetMax: int, overlap: int): seq<seq<Part>> {
    if g.current == [] then g.chunks
    else if Merges(g, targetMax, overlap) then
      g.chunks[..|g.chunks| - 1] + [g.chunks[|g.chunks| - 1] + g.current]
    else g.chunks + [g.current]
  }

  function ChunksOf(segments: seq<string>, targetMin: int, targetMax: int, overlap: int): seq<seq<Part>> {
    Finished(Gathered(segments, targetMin, targetMax, overlap), targetMax, overlap)
  }

  /** What gathering keeps: every segment once and in order, sound carries, bounded chunks. */
  predicate Sound(g: Gathering, segments: seq<string>) {
    && FreshOf(g.chunks) + Fresh(g.current) == segments
    && CarriesSound(g.chunks) && OpenSound(g.chunks, g.current)
    && (forall c | c in g.chunks :: c != [])
  }

  /** Flushed chunks are bounded and the running total never exceeds the bound. */
  predicate Within(g: Gathering, targetMax: int) {
    && (forall c | c in g.chunks :: Bounded(c, targetMax))
    && (g.current != [] ==> Tokens(g.current) <= targetMax)
  }

  lemma SentenceSuffix(text: string, words: seq<string>)
    requires EndsWith(Words(text), words)
    ensures Words(Sentence(words)) == words
    ensures WordSuffix(Sentence(words), text)
  {
    hide Words, Sentence, AllWords;
    var all := Words(text);
    WordsAreWords(text);
    AllWordsSlice(all, |all| - |words|, |all|);
    assert all[|all| - |words|..|all|] == words;
    WordsOfSentence(words);
  }

  lemma TailOverlapSound(text: string, budget: int)
    ensures var tail := TailOverlap(text, budget);
      WordSuffix(tail, text) && (Words(tail) != [] ==> Estimate(tail) <= budget) && tail == Sentence(Words(tail))
  {
    hide Words, Sentence, Fitting;
    var all := Words(text);
    var n := Fitting(|all|, budget);
    FittingIsLongest(|all|, budget);
    SentenceSuffix(text, all[|all| - n..]);
  }

  /** Carried words end the flushed chunk, and leave room for the segment that follows. */
  lemma CarrySound(parts: seq<Part>, segment: string, targetMax: int, overlap: int)
    ensures var carry := Carry(parts, segment, targetMax, overlap);
      && WordSuffix(carry, ChunkText(parts))
      && (carry != "" ==> Estimate(carry) + Estimate(segment) <= targetMax)
  {
    hide Words, Sentence, Fitting, ChunkText, TailOverlap, EstimateWords, Trimmed, Tokens, Runs;
    var text := ChunkText(parts);
    var budget := CarryBudget(segment, targetMax, overlap);
    var tail := TailOverlap(text, budget);
    TailOverlapSound(text, budget);
    var kept := Trimmed(Words(tail), segment, targetMax);
    assert EndsWith(Words(text), kept);
    SentenceSuffix(text, kept);
    if kept == [] {
      EmptySentence();
    } else {
      EstimateMonotone(|kept|, |Words(tail)|);
      EstimateBounds(|kept|);
    }
  }

  lemma FlushKeeps(chunks: seq<seq<Part>>, current: seq<Part>, segments: seq<string>)
    requires current != [] && Sound(Gathering(chunks, current), segments)
    ensures Sound(Gathering(chunks + [current], []), segments)
  {
    hide WordSuffix, ChunkText, CarriesSound;
    FlushSound(chunks, current);
    assert (chunks + [current])[..|chunks|] == chunks;
  }

  lemma FlushWithin(chunks: seq<seq<Part>>, current: seq<Part>, targetMax: int)
    requires current != [] && Within(Gathering(chunks, current), targetMax)
    ensures Within(Gathering(chunks + [current], []), targetMax)
  {
    hide Bounded, Tokens;
    FlushBounded(current, targetMax);
  }

  lemma MakeRoomKeeps(g: Gathering, segment: string, segments: seq<string>, targetMax: int, overlap: int)
    requires Sound(g, segments)
    ensures Sound(MakeRoom(g, segment, targetMax, overlap), segments)
  {
    hide WordSuffix, ChunkText, CarriesSound, Carry, Estimate, FreshOf, Tokens;
    if g.current != [] && Tokens(g.current) + Estimate(segment) > targetMax {
      FlushKeeps(g.chunks, g.current, segments);
      CarrySound(g.current, segment, targetMax, overlap);
      OneCarry(Carry(g.current, segment, targetMax, overlap));
    }
  }

  lemma MakeRoomWithin(g: Gathering, segment: string, targetMax: int, overlap: int)
    requires Within(g, targetMax) && Estimate(segment) <= targetMax
    ensures var h := MakeRoom(g, segment, targetMax, overlap);
      Within(h, targetMax) && Tokens(h.current) + Estimate(segment) <= targetMax
  {
    hide WordSuffix, ChunkText, Carry, Estimate, Bounded;
    if g.current != [] && Tokens(g.current) + Estimate(segment) > targetMax {
      FlushWithin(g.chunks, g.current, targetMax);
      CarrySound(g.current, segment, targetMax, overlap);
      OneCarry(Carry(g.current, segment, targetMax, overlap));
    }
  }

  lemma PlaceKeeps(g: Gathering, segment: string, segments: seq<string>, targetMin: int, targetMax: int)
    requires Sound(g, segments)
    ensures Sound(Place(g, segment, targetMin, targetMax), segments + [segment])
  {
    hide WordSuffix, ChunkText, CarriesSound, Tokens, FreshOf, Estimate, Fresh, Full, Sound;
    var current := g.current + [Part(segment, false)];
    AppendKeeps(g, segment, segments);
    FlushKeeps(g.chunks, current, segments + [segment]);
  }

  lemma AppendKeeps(g: Gathering, segment: string, segments: seq<string>)
    requires Sound(g, segments)
    ensures Sound(Gathering(g.chunks, g.current + [Part(segment, false)]), segments + [segment])
  {
    hide WordSuffix, ChunkText, CarriesSound, FreshOf, Estimate;
    var current := g.current + [Part(segment, false)];
    assert current[..|current| - 1] == g.current;
    assert Fresh(current) == Fresh(g.current) + [segment];
  }

  lemma PlaceWithin(g: Gathering, segment: string, targetMin: int, targetMax: int)
    requires Within(g, targetMax) && Tokens(g.current) + Estimate(segment) <= targetMax
    ensures Within(Place(g, segment, targetMin, targetMax), targetMax)
  {
    hide Bounded, Estimate;
    var current := g.current + [Part(segment, false)];
    assert current[..|current| - 1] == g.current;
    FlushWithin(g.chunks, current, targetMax);
  }

  lemma {:induction false} GatheredSound(segments: seq<string>, targetMin: int, targetMax: int, overlap: int)
    ensures Sound(Gathered(segments, targetMin, targetMax, overlap), segments)
    ensures (forall s | s in segments :: Estimate(s) <= targetMax) ==>
              Within(Gathered(segments, targetMin, targetMax, overlap), targetMax)
  {
    hide Sound, Within, Estimate, MakeRoom, Place, Tokens;
    if segments == [] {
      NothingGathered(targetMax);
    } else {
      var front, last := segments[..|segments| - 1], segments[|segments| - 1];
      GatheredSound(front, targetMin, targetMax, overlap);
      var before := Gathered(front, targetMin, targetMax, overlap);
      MakeRoomKeeps(before, last, front, targetMax, overlap);
      PlaceKeeps(MakeRoom(before, last, targetMax, overlap), last, front, targetMin, targetMax);
      assert front + [last] == segments;
      if forall s | s in segments :: Estimate(s) <= targetMax {
        assert last in segments;
        MakeRoomWithin(before, last, targetMax, overlap);
        PlaceWithin(MakeRoom(before, last, targetMax, overlap), last, targetMin, targetMax);
      }
    }
  }

  lemma NothingGathered(targetMax: int)
    ensures Sound(Gathering([], []), []) && Within(Gathering([], []), targetMax)
  {
  }

  /**
   Input segments are exactly the uncarried parts, in order; carried words end what precedes them;
   when every segment fits, a chunk of k parts and w words satisfies 66 w <= 25 (2 targetMax + k).
   */
  lemma ChunksLaw(segments: seq<string>, targetMin: int, targetMax: int, overlap: int)
    ensures var chunks := ChunksOf(segments, targetMin, targetMax, overlap);
      && FreshOf(chunks) == segments
      && CarriesSound(chunks)
      && ((forall s | s in segments :: Estimate(s) <= targetMax) ==> forall c | c in chunks :: Bounded(c, targetMax))
  {
    hide WordSuffix, ChunkText, CarriesSound, Bounded, Estimate, Tokens, Fresh, Gathered;
    GatheredSound(segments, targetMin, targetMax, overlap);
    var g := Gathered(segments, targetMin, targetMax, overlap);
    NothingFresh();
    if g.current != [] {
      if Merges(g, targetMax, overlap) {
        MergeKeeps(g, segments, targetMax);
      } else {
        FlushKeeps(g.chunks, g.current, segments);
        if Within(g, targetMax) {
          FlushWithin(g.chunks, g.current, targetMax);
        }
      }
    }
  }

  lemma NothingFresh()
    ensures Fresh([]) == []
  {
  }

  lemma MergeKeeps(g: Gathering, segments: seq<string>, targetMax: int)
    requires Sound(g, segments) && g.chunks != [] && g.current != []
    requires Estimate(ChunkText(g.chunks[|g.chunks| - 1] + g.current)) <= targetMax
    ensures var merged := g.chunks[..|g.chunks| - 1] + [g.chunks[|g.chunks| - 1] + g.current];
      && FreshOf(merged) == segments
      && CarriesSound(merged)
      && (Within(g, targetMax) ==> forall c | c in merged :: Bounded(c, targetMax))
  {
    hide WordSuffix, ChunkText, CarriesSound, Estimate, Tokens, Fresh;
    var front, last := g.chunks[..|g.chunks| - 1], g.chunks[|g.chunks| - 1];
    assert last in g.chunks;
    MergeSound(g.chunks, g.current);
    MergedBounded(last + g.current, targetMax);
    FreshConcatenation(last, g.current);
    assert (front + [last + g.current])[..|front|] == front;
  }

  lemma GatheredNothing(targetMin: int, targetMax: int, overlap: int)
    ensures Gathered([], targetMin, targetMax, overlap) == Gathering([], []) && Tokens([]) == 0
  {
  }

  lemma GatheredNext(segments: seq<string>, i: nat, targetMin: int, targetMax: int, overlap: int)
    requires i < |segments|
    ensures Gathered(segments[..i + 1], targetMin, targetMax, overlap)
         == Place(MakeRoom(Gathered(segments[..i], targetMin, targetMax, overlap), segments[i], targetMax, overlap),
                  segments[i], targetMin, targetMax)
  {
    hide Place, MakeRoom;
    assert segments[..i + 1][..i] == segments[..i];
  }

  lemma TokensAppend(parts: seq<Part>, p: Part)
    ensures Tokens(parts + [p]) == Tokens(parts) + Estimate(p.text)
  {
    hide Estimate;
    assert (parts + [p])[..|parts|] == parts;
  }

  method ChunkSegments(segments: seq<string>, targetMin: int, targetMax: int, overlap: int)
    returns (chunks: seq<seq<Part>>)
    ensures chunks == ChunksOf(segments, targetMin, targetMax, overlap)
  {
    hide Estimate, Carry, Carried, Finished, Gathered, Tokens;
    GatheredNothing(targetMin, targetMax, overlap);
    chunks := [];
    var current: seq<Part> := [];
    var currentTokens := 0;
    for i := 0 to |segments|
      invariant Gathering(chunks, current) == Gathered(segments[..i], targetMin, targetMax, overlap)
      invariant currentTokens == Tokens(current)
    {
      var segment := segments[i];
      var segmentTokens := Estimate(segment);
      GatheredNext(segments, i, targetMin, targetMax, overlap);
      ghost var before := Gathering(chunks, current);
      if current != [] && currentTokens + segmentTokens > targetMax {
        chunks := chunks + [current];
        current, currentTokens := StartNext(current, segment, targetMax, overlap);
      }
      assert Gathering(chunks, current) == MakeRoom(before, segment, targetMax, overlap);
      TokensAppend(current, Part(segment, false));
      current := current + [Part(segment, false)];
      currentTokens := currentTokens + segmentTokens;
      if currentTokens >= targetMin && 10 * currentTokens >= 9 * targetMax {
        chunks := chunks + [current];
        current := [];
        currentTokens := 0;
      }
    }
    assert segments[..|segments|] == segments;
    chunks := Finish(chunks, current, targetMax, overlap);
  }

  method Finish(flushed: seq<seq<Part>>, current: seq<Part>, targetMax: int, overlap: int)
    returns (chunks: seq<seq<Part>>)
    ensures chunks == Finished(Gathering(flushed, current), targetMax, overlap)
  {
    hide Words, Sentence, ChunkText, Estimate;
    chunks := flushed;
    if current != [] {
      var combined := if chunks != [] then ChunkText(chunks[|chunks| - 1] + current) else "";
      if chunks != [] && Estimate(ChunkText(current)) < overlap && Estimate(combined) <= targetMax {
        chunks := chunks[..|chunks| - 1] + [chunks[|chunks| - 1] + current];
      } else {
        chunks := chunks + [current];
      }
    }
  }

  method StartNext(flushed: seq<Part>, segment: string, targetMax: int, overlap: int)
    returns (current: seq<Part>, currentTokens: nat)
    ensures current == Carried(Carry(flushed, segment, targetMax, overlap))
    ensures currentTokens == Tokens(current)
  {
    hide Words, Sentence, ChunkText, Estimate, Trimmed, Fitting, TailOverlap;
    var budget := Min(overlap, Max(0, targetMax - Estimate(segment)));
    TailOverlapSound(ChunkText(flushed), budget);
    var carry := BoundedTailOverlap(ChunkText(flushed), budget);
    carry := TrimCarry(carry, segment, targetMax);
    OneCarry(carry);
    current := if carry != "" then [Part(carry, true)] else [];
    currentTokens := if carry != "" then Estimate(carry) else 0;
  }

  // ----- a whole page -----

  function AllSegments(paragraphs: seq<string>, targetMax: int, overlap: int): seq<string> {
    if paragraphs == [] then []
    else AllSegments(paragraphs[..|paragraphs| - 1], targetMax, overlap)
         + SegmentsOf(paragraphs[|paragraphs| - 1], targetMax, overlap)
  }

  function ChunkTexts(chunks: seq<seq<Part>>): seq<string> {
    seq(|chunks|, k requires 0 <= k < |chunks| => ChunkText(chunks[k]))
  }

  function PageChunks(paragraphs: seq<string>, targetMin: int, targetMax: int, overlap: int): seq<seq<Part>> {
    ChunksOf(AllSegments(paragraphs, targetMax, overlap), targetMin, targetMax, overlap)
  }

  lemma {:induction false} AllSegmentsFit(paragraphs: seq<string>, targetMax: int, overlap: int)
    requires targetMax >= 1
    ensures forall s | s in AllSegments(paragraphs, targetMax, overlap) :: Estimate(s) <= targetMax
  {
    hide Estimate, SegmentsOf;
    if paragraphs != [] {
      AllSegmentsFit(paragraphs[..|paragraphs| - 1], targetMax, overlap);
      SegmentsLaw(paragraphs[|paragraphs| - 1], targetMax, overlap);
    }
  }

  /** A page loses no segment, repeats only carried words, and under a positive bound every chunk is bounded. */
  lemma PageLaw(paragraphs: seq<string>, targetMin: int, targetMax: int, overlap: int)
    ensures var chunks := PageChunks(paragraphs, targetMin, targetMax, overlap);
      && FreshOf(chunks) == AllSegments(paragraphs, targetMax, overlap)
      && CarriesSound(chunks)
      && (targetMax >= 1 ==> forall k | 0 <= k < |chunks| ::
            66 * |Words(ChunkTexts(chunks)[k])| <= 25 * (2 * targetMax + |chunks[k]|))
  {
    hide Estimate, ChunkText, CarriesSound, AllSegments, FreshOf, ChunksOf, Words;
    var segments := AllSegments(paragraphs, targetMax, overlap);
    if targetMax >= 1 {
      AllSegmentsFit(paragraphs, targetMax, overlap);
    }
    ChunksLaw(segments, targetMin, targetMax, overlap);
    var chunks := PageChunks(paragraphs, targetMin, targetMax, overlap);
    assert forall k | 0 <= k < |chunks| :: chunks[k] in chunks;
  }

  // ----- when a chunk may exceed the bound -----

  /** No page has a chunk estimated above the bound. */
  ghost predicate PagesFit(targetMin: int, targetMax: int, overlap: int) {
    forall paragraphs: seq<string>, k | 0 <= k < |PageChunks(paragraphs, targetMin, targetMax, overlap)| ::
      Estimate(ChunkText(PageChunks(paragraphs, targetMin, targetMax, overlap)[k])) <= targetMax
  }

  predicate TooLong(parts: seq<Part>, targetMax: int) {
    Estimate(ChunkText(parts)) > targetMax
  }

  /** A page of one-word paragraphs. */
  function OneWordPage(n: nat): seq<string> {
    seq(n, _ => "a")
  }

  function OneWordParts(n: nat): seq<Part> {
    seq(n, _ => Part("a", false))
  }

  lemma OneWord()
    ensures Words("a") == ["a"] && Estimate("a") == 1
  {
    SingleRun("a", Ink);
  }

  lemma {:induction false} OneWordTokens(n: nat)
    ensures Tokens(OneWordParts(n)) == n && |WordsOfParts(OneWordParts(n))| == n
  {
    if n > 0 {
      OneWord();
      assert OneWordParts(n)[..n - 1] == OneWordParts(n - 1);
      OneWordTokens(n - 1);
    }
  }

  /** Nine tenths of the bound in one-word parts is already too long for it. */
  lemma OneWordsTooLong(n: nat, targetMax: int)
    requires targetMax >= 2 && 10 * n >= 9 * targetMax
    ensures TooLong(OneWordParts(n), targetMax)
  {
    ChunkWords(OneWordParts(n));
    OneWordTokens(n);
  }

  lemma {:induction false} OneWordSegments(n: nat, targetMax: int, overlap: int)
    requires targetMax >= 1
    ensures AllSegments(OneWordPage(n), targetMax, overlap) == OneWordPage(n)
  {
    hide SegmentsOf, Estimate;
    if n > 0 {
      OneWordSegment(targetMax, overlap);
      assert OneWordPage(n)[..n - 1] == OneWordPage(n - 1);
      OneWordSegments(n - 1, targetMax, overlap);
      assert OneWordPage(n) == OneWordPage(n - 1) + ["a"];
    }
  }

  lemma OneWordSegment(targetMax: int, overlap: int)
    requires targetMax >= 1
    ensures SegmentsOf("a", targetMax, overlap) == ["a"]
  {
    OneWord();
    hide Estimate, Windows;
  }

  /** The words are still gathered in one open chunk, or the first flushed chunk is too long. */
  predicate OneWordsGathered(g: Gathering, n: nat, targetMax: int) {
    g == Gathering([], OneWordParts(n)) || (g.chunks != [] && TooLong(g.chunks[0], targetMax))
  }

  lemma OneWordPlaced(g: Gathering, n: nat, targetMin: int, targetMax: int, overlap: int)
    requires n < targetMax && targetMax >= 2 && OneWordsGathered(g, n, targetMax)
    ensures OneWordsGathered(Place(MakeRoom(g, "a", targetMax, overlap), "a", targetMin, targetMax), n + 1, targetMax)
  {
    hide TooLong, Estimate, Tokens, Carry;
    OneWord();
    OneWordTokens(n);
    OneWordTokens(n + 1);
    assert OneWordParts(n) + [Part("a", false)] == OneWordParts(n + 1);
    if g == Gathering([], OneWordParts(n)) && 10 * (n + 1) >= 9 * targetMax {
      OneWordsTooLong(n + 1, targetMax);
    }
  }

  lemma {:induction false} OneWordsGather(n: nat, targetMin: int, targetMax: int, overlap: int)
    requires n <= targetMax && targetMax >= 2
    ensures OneWordsGathered(Gathered(OneWordPage(n), targetMin, targetMax, overlap), n, targetMax)
  {
    hide OneWordsGathered, Place, MakeRoom;
    if n == 0 {
      NoWordsGathered(targetMax);
    } else {
      assert OneWordPage(n)[..n - 1] == OneWordPage(n - 1);
      OneWordsGather(n - 1, targetMin, targetMax, overlap);
      OneWordPlaced(Gathered(OneWordPage(n - 1), targetMin, targetMax, overlap), n - 1, targetMin, targetMax, overlap);
    }
  }

  lemma NoWordsGathered(targetMax: int)
    ensures OneWordsGathered(Gathering([], []), 0, targetMax)
  {
  }

  lemma {:induction false} WordsConcatenation(a: seq<Part>, b: seq<Part>)
    ensures WordsOfParts(a + b) == WordsOfParts(a) + WordsOfParts(b)
    decreases |b|
  {
    hide Words;
    if b == [] {
      assert a + b == a;
    } else {
      assert (a + b)[..|a + b| - 1] == a + b[..|b| - 1];
      WordsConcatenation(a, b[..|b| - 1]);
    }
  }

  /** A chunk that is too long stays too long whatever joins it. */
  lemma LongerStaysTooLong(a: seq<Part>, b: seq<Part>, targetMax: int)
    requires TooLong(a, targetMax)
    ensures TooLong(a + b, targetMax)
  {
    hide Words, ChunkText;
    ChunkWords(a);
    ChunkWords(a + b);
    WordsConcatenation(a, b);
    EstimateMonotone(|WordsOfParts(a)|, |WordsOfParts(a + b)|);
  }

  /** A page of as many one-word paragraphs as the bound has tokens begins with a chunk over the bound. */
  lemma OneWordPageExceeds(targetMin: int, targetMax: int, overlap: int)
    requires targetMax >= 2
    ensures var chunks := PageChunks(OneWordPage(targetMax), targetMin, targetMax, overlap);
      chunks != [] && TooLong(chunks[0], targetMax)
  {
    hide TooLong, Estimate, Tokens, ChunkText, Gathered;
    OneWordSegments(targetMax, targetMax, overlap);
    OneWordsGather(targetMax, targetMin, targetMax, overlap);
    var g := Gathered(OneWordPage(targetMax), targetMin, targetMax, overlap);
    if g == Gathering([], OneWordParts(targetMax)) {
      OneWordsTooLong(targetMax, targetMax);
    } else if |g.chunks| == 1 {
      LongerStaysTooLong(g.chunks[0], g.current, targetMax);
      TooLongIsOver(g.chunks[0] + g.current, targetMax);
    }
  }

  lemma TooLongIsOver(parts: seq<Part>, targetMax: int)
    requires TooLong(parts, targetMax)
    ensures Estimate(ChunkText(parts)) > targetMax
  {
  }

  lemma {:induction false} TokensCountParts(parts: seq<Part>)
    ensures Tokens(parts) >= |parts|
    ensures forall p | p in parts :: Estimate(p.text) <= Tokens(parts)
  {
    if parts != [] {
      var front, last := parts[..|parts| - 1], parts[|parts| - 1];
      assert parts == front + [last];
      TokensCountParts(front);
      EstimateBounds(|Words(last.text)|);
    }
  }

  lemma SinglePartFits(parts: seq<Part>)
    requires parts != [] && Tokens(parts) <= 1
    ensures Estimate(ChunkText(parts)) <= 1
  {
    hide Estimate, Tokens;
    TokensCountParts(parts);
    assert Texts(parts) == [parts[0].text];
    assert parts[0] in parts;
  }

  ghost predicate AllFit(chunks: seq<seq<Part>>, targetMax: int) {
    forall c | c in chunks :: Estimate(ChunkText(c)) <= targetMax
  }

  lemma UnitStep(g: Gathering, segment: string, targetMin: int, overlap: int)
    requires Within(g, 1) && Estimate(segment) <= 1 && AllFit(g.chunks, 1)
    ensures AllFit(Place(MakeRoom(g, segment, 1, overlap), segment, targetMin, 1).chunks, 1)
  {
    hide Estimate, ChunkText, Carry, Bounded;
    MakeRoomWithin(g, segment, 1, overlap);
    if g.current != [] {
      SinglePartFits(g.current);
    }
    var h := MakeRoom(g, segment, 1, overlap);
    var current := h.current + [Part(segment, false)];
    assert current[..|current| - 1] == h.current;
    SinglePartFits(current);
  }

  lemma {:induction false} UnitGathered(segments: seq<string>, targetMin: int, overlap: int)
    requires forall s | s in segments :: Estimate(s) <= 1
    ensures AllFit(Gathered(segments, targetMin, 1, overlap).chunks, 1)
  {
    hide Estimate, Within, MakeRoom, Place;
    if segments != [] {
      var front, last := segments[..|segments| - 1], segments[|segments| - 1];
      assert last in segments && forall s | s in front :: s in segments;
      UnitGathered(front, targetMin, overlap);
      GatheredSound(front, targetMin, 1, overlap);
      UnitStep(Gathered(front, targetMin, 1, overlap), last, targetMin, overlap);
    }
  }

  lemma UnitPagesFit(paragraphs: seq<string>, targetMin: int, overlap: int)
    ensures AllFit(PageChunks(paragraphs, targetMin, 1, overlap), 1)
  {
    hide Estimate, ChunkText, Gathered, AllSegments, Bounded, Tokens;
    var segments := AllSegments(paragraphs, 1, overlap);
    AllSegmentsFit(paragraphs, 1, overlap);
    UnitGathered(segments, targetMin, overlap);
    GatheredSound(segments, targetMin, 1, overlap);
    var g := Gathered(segments, targetMin, 1, overlap);
    if g.current != [] {
      SinglePartFits(g.current);
    }
  }

  /** A bound below one is below every estimate. */
  lemma NonpositiveExceeds(targetMin: int, targetMax: int, overlap: int)
    requires targetMax <= 0
    ensures var chunks := PageChunks(["a"], targetMin, targetMax, overlap);
      chunks != [] && TooLong(chunks[0], targetMax)
  {
    hide CarriesSound, Bounded, ChunksOf;
    OneWord();
    var page: seq<string> := ["a"];
    var segments := AllSegments(page, targetMax, overlap);
    assert AllSegments(page[..|page| - 1], targetMax, overlap) == [];
    assert segments == SegmentsOf("a", targetMax, overlap);
    assert segments != [];
    ChunksLaw(segments, targetMin, targetMax, overlap);
    var chunks := PageChunks(["a"], targetMin, targetMax, overlap);
    EstimateBounds(|Words(ChunkText(chunks[0]))|);
  }

  /** Every chunk of every page stays within the bound exactly when the bound is one. */
  lemma PagesFitExactly(targetMin: int, targetMax: int, overlap: int)
    ensures PagesFit(targetMin, targetMax, overlap) <==> targetMax == 1
  {
    hide PageChunks, Estimate, ChunkText, TooLong;
    if targetMax == 1 {
      forall paragraphs: seq<string>, k | 0 <= k < |PageChunks(paragraphs, targetMin, 1, overlap)|
        ensures Estimate(ChunkText(PageChunks(paragraphs, targetMin, 1, overlap)[k])) <= 1
      {
        UnitPagesFit(paragraphs, targetMin, overlap);
        var chunks := PageChunks(paragraphs, targetMin, 1, overlap);
        assert chunks[k] in chunks;
      }
    } else if targetMax > 1 {
      OneWordPageExceeds(targetMin, targetMax, overlap);
      TooLongIsOver(PageChunks(OneWordPage(targetMax), targetMin, targetMax, overlap)[0], targetMax);
    } else {
      NonpositiveExceeds(targetMin, targetMax, overlap);
      TooLongIsOver(PageChunks(["a"], targetMin, targetMax, overlap)[0], targetMax);
    }
  }

  /** Two one-word paragraphs under a bound of two tokens: one chunk, estimated at three. */
  lemma TwoWordsExceed(targetMin: int, overlap: int)
    ensures var chunks := PageChunks(OneWordPage(2), targetMin, 2, overlap);
      chunks == [OneWordParts(2)] && Estimate(ChunkText(chunks[0])) == 3
  {
    OneWordSegments(2, 2, overlap);
    TwoWordsGather(targetMin, overlap);
    ChunkWords(OneWordParts(2));
    OneWordTokens(2);
  }

  lemma TwoWordsGather(targetMin: int, overlap: int)
    ensures ChunksOf(OneWordPage(2), targetMin, 2, overlap) == [OneWordParts(2)]
  {
    hide Words, Carry, ChunkText, Tokens, Estimate;
    OneWord();
    OneWordTokens(0);
    OneWordTokens(1);
    OneWordTokens(2);
    assert OneWordPage(2)[..1] == OneWordPage(1) && OneWordPage(1)[..0] == [];
    assert OneWordParts(0) + [Part("a", false)] == OneWordParts(1);
    assert OneWordParts(1) + [Part("a", false)] == OneWordParts(2);
    assert Gathered([], targetMin, 2, overlap) == Gathering([], OneWordParts(0));
    assert Gathered(OneWordPage(1), targetMin, 2, overlap) == Gathering([], OneWordParts(1));
    var g := Gathered(OneWordPage(2), targetMin, 2, overlap);
    assert g == Gathering([OneWordParts(2)], []) || g == Gathering([], OneWordParts(2));
  }

  method ChunkPage(paragraphs: seq<string>, targetMin: int, targetMax: int, overlap: int)
    returns (texts: seq<string>)
    ensures texts == ChunkTexts(PageChunks(paragraphs, targetMin, targetMax, overlap))
  {
    hide Estimate, ChunkText, SegmentsOf;
    var segments: seq<string> := [];
    for i := 0 to |paragraphs|
      invariant segments == AllSegments(paragraphs[..i], targetMax, overlap)
    {
      assert paragraphs[..i + 1][..i] == paragraphs[..i];
      var pieces := SplitOversizedParagraph(paragraphs[i], targetMax, overlap);
      segments := segments + pieces;
    }
    assert paragraphs[..|paragraphs|] == paragraphs;
    if segments == [] {
      return [];
    }
    var chunks := ChunkSegments(segments, targetMin, targetMax, overlap);
    texts := [];
    for k := 0 to |chunks|
      invariant texts == ChunkTexts(chunks)[..k]
    {
      texts := texts + [ChunkText(chunks[k])];
    }
  }
}
