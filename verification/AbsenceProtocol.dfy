/**
 Bounded absence: a producer searches, scans and opens a linked neighbourhood and records a
 proof; an independent checker treats that record as untrusted and rebuilds it.
 */
module AbsenceProtocol {
  import opened Models
  import opened Listings
  import opened MetricContext

  // ----- the corpus as the protocol sees it -----

  datatype ScanOutcome =
    | ScanComplete(chunks: seq<Chunk>, candidateCount: nat)
    | ScanAmbiguous
    | ScanTooBroad
    | ScanFailed(error: string)

  datatype Corpus = Corpus(chunks: map<ChunkId, Chunk>, scan: string -> ScanOutcome)

  ghost predicate WellFormed(corpus: Corpus) {
    Keyed(corpus.chunks)
  }

  function Ids(chunks: seq<Chunk>): set<ChunkId> {
    set c | c in chunks :: c.id
  }

  /** The requested chunks that exist, each once, in request order. */
  function GetChunks(corpus: Corpus, ids: seq<ChunkId>): seq<Chunk> {
    Fetch(corpus.chunks, Unique(ids))
  }

  function PoolOf(corpus: Corpus, ids: set<ChunkId>): Opened {
    map id | id in ids && id in corpus.chunks :: corpus.chunks[id]
  }

  /** A complete scan returns every chunk that holds the metric, and nothing else, once each. */
  ghost predicate Exhaustive(lang: Language, corpus: Corpus) {
    forall metric | corpus.scan(metric).ScanComplete? ::
      var found := corpus.scan(metric);
      && (forall c :: c in found.chunks <==>
            c.id in corpus.chunks && corpus.chunks[c.id] == c && lang.spans(metric, c.text) != [])
      && (forall i, j | 0 <= i < j < |found.chunks| :: found.chunks[i].id != found.chunks[j].id)
      && |found.chunks| <= found.candidateCount
  }

  // ----- the proof record -----

  datatype Mode = Dense | Lexical | Hybrid

  datatype SearchRecord = SearchRecord(
    completed: bool,
    mode: Mode,
    normalizedQuery: string,
    metric: Option<string>,
    topK: nat,
    documentIds: seq<string>,
    dateFrom: Option<string>,
    dateTo: Option<string>,
    resultIds: seq<ChunkId>,
    resultCount: nat,
    signature: string)

  datatype Probe = Probe(
    protocolVersion: string,
    metric: string,
    searches: seq<SearchRecord>,
    scanCompleted: bool,
    scanIds: seq<ChunkId>,
    scanError: Option<string>,
    candidateIds: seq<ChunkId>,
    openedIds: seq<ChunkId>,
    occurrences: seq<Occurrence>,
    unresolved: seq<Occurrence>,
    values: seq<(ChunkId, string)>)

  datatype Conclusion = NotFoundInProbe | RequiresReview | IncompleteProbe

  const VERSION := "bounded-absence-v26-categorical-scan-ambiguity"
  const MIN_TOP_K: nat := 8
  const MAX_OPENED: nat := 50

  function Queries(metric: string): seq<string> {
    [metric,
     "\"" + metric + "\" reported value",
     metric + " fiscal year period",
     metric + " total company metric"]
  }

  predicate SearchAccepted(lang: Language, metric: string, query: string, s: SearchRecord) {
    && s.completed
    && s.mode == Lexical
    && s.normalizedQuery == lang.key(query)
    && lang.key(if s.metric.Some? then s.metric.value else "") == lang.key(metric)
    && MIN_TOP_K <= s.topK
    && s.documentIds == [] && s.dateFrom.None? && s.dateTo.None?
    && s.resultCount == |s.resultIds|
    && NoRepeats(s.resultIds)
    && s.signature == lang.signature(query, metric, s.topK)
  }

  predicate Reviewable(lang: Language, metric: string, o: Occurrence) {
    lang.unresolved(metric, o.sentence) || lang.qualitative(o) || lang.numbers(o) != []
  }

  predicate SearchesAccepted(lang: Language, p: Probe) {
    && p.protocolVersion == VERSION
    && |p.searches| == |Queries(p.metric)|
    && forall i | 0 <= i < |p.searches| :: SearchAccepted(lang, p.metric, Queries(p.metric)[i], p.searches[i])
  }

  predicate CoverageAccepted(p: Probe) {
    && p.scanCompleted && p.scanError.None?
    && NoRepeats(p.candidateIds) && NoRepeats(p.openedIds)
    && Elements(p.candidateIds) == Elements(p.openedIds)
    && (forall i, id | 0 <= i < |p.searches| && id in p.searches[i].resultIds :: id in p.candidateIds)
    && (forall id | id in p.scanIds :: id in p.candidateIds && exists o | o in p.occurrences :: o.chunkId == id)
    && (forall o | o in p.occurrences :: o.chunkId in p.openedIds)
  }

  /** The conclusion a record supports by itself, without looking at the corpus. */
  function DeriveConclusion(lang: Language, p: Probe): Conclusion {
    if !SearchesAccepted(lang, p) then IncompleteProbe
    else if p.unresolved != [] || p.values != [] then RequiresReview
    else if exists o | o in p.occurrences :: Reviewable(lang, p.metric, o) then RequiresReview
    else if !CoverageAccepted(p) then IncompleteProbe
    else NotFoundInProbe
  }

  // ----- every occurrence in a pool of opened chunks -----

  datatype Hit = Hit(chunk: Chunk, span: Span)

  ghost function ChunkHits(lang: Language, metric: string, chunk: Chunk): set<Hit> {
    set s | s in lang.spans(metric, chunk.text) :: Hit(chunk, s)
  }

  ghost function HitsIn(lang: Language, metric: string, chunks: set<Chunk>): set<Hit> {
    set c, s | c in chunks && s in lang.spans(metric, c.text) :: Hit(c, s)
  }

  ghost function Hits(lang: Language, metric: string, pool: Opened): set<Hit> {
    HitsIn(lang, metric, pool.Values)
  }

  lemma HitInside(lang: Language, metric: string, text: string, s: Span)
    requires lang.Valid() && s in lang.spans(metric, text)
    ensures s.0 <= s.1 <= |text|
  {
    var k :| 0 <= k < |lang.spans(metric, text)| && lang.spans(metric, text)[k] == s;
  }

  function At(lang: Language, pool: Opened, h: Hit): Context
    requires lang.Valid()
  {
    if h.span.0 <= h.span.1 <= |h.chunk.text| then ContextOf(lang, pool, h.chunk, h.span)
    else Context(Occurrence(h.chunk.id, "", h.span), Occurrence(h.chunk.id, "", h.span), false)
  }

  ghost function Displays(lang: Language, pool: Opened, hits: set<Hit>): set<Occurrence>
    requires lang.Valid()
  {
    set h | h in hits :: At(lang, pool, h).display
  }

  ghost predicate AllComplete(lang: Language, pool: Opened, hits: set<Hit>)
    requires lang.Valid()
  {
    forall h | h in hits :: At(lang, pool, h).complete
  }

  ghost predicate AllBenign(lang: Language, metric: string, pool: Opened, hits: set<Hit>)
    requires lang.Valid()
  {
    forall h | h in hits :: lang.Analyze(metric, At(lang, pool, h).proof) == Benign
  }

  // ----- the checker -----

  ghost predicate ScanAgrees(p: Probe, scan: ScanOutcome) {
    && scan.ScanComplete?
    && (forall i, j | 0 <= i < j < |scan.chunks| :: scan.chunks[i].id != scan.chunks[j].id)
    && Ids(scan.chunks) == Elements(p.scanIds)
    && |scan.chunks| <= scan.candidateCount
  }

  ghost function ConclusionAgainstCorpus(lang: Language, p: Probe, corpus: Corpus): Conclusion
    requires lang.Valid()
  {
    if DeriveConclusion(lang, p) != NotFoundInProbe then DeriveConclusion(lang, p)
    else if !ScanAgrees(p, corpus.scan(p.metric)) then IncompleteProbe
    else
      var pool := PoolOf(corpus, Elements(p.openedIds));
      var hits := Hits(lang, p.metric, pool);
      if pool.Keys != Elements(p.openedIds) then IncompleteProbe
      else if !AllComplete(lang, pool, hits) then IncompleteProbe
      else if Displays(lang, pool, hits) != (set o | o in p.occurrences) then IncompleteProbe
      else if !AllBenign(lang, p.metric, pool, hits) then RequiresReview
      else NotFoundInProbe
  }

  lemma {:induction false} FetchElements(chunks: map<ChunkId, Chunk>, ids: seq<ChunkId>)
    requires Keyed(chunks) && NoRepeats(ids)
    ensures forall c :: c in Fetch(chunks, ids) <==> c.id in ids && c.id in chunks && chunks[c.id] == c
    ensures forall i, j | 0 <= i < j < |Fetch(chunks, ids)| :: Fetch(chunks, ids)[i].id != Fetch(chunks, ids)[j].id
  {
    if ids != [] {
      var front, last := ids[..|ids| - 1], ids[|ids| - 1];
      FetchElements(chunks, front);
      assert ids == front + [last];
      assert last !in front;
    }
  }

  lemma GetChunksElements(corpus: Corpus, ids: seq<ChunkId>)
    requires WellFormed(corpus)
    ensures forall c ::
      c in GetChunks(corpus, ids) <==> c.id in ids && c.id in corpus.chunks && corpus.chunks[c.id] == c
    ensures forall i, j | 0 <= i < j < |GetChunks(corpus, ids)| ::
      GetChunks(corpus, ids)[i].id != GetChunks(corpus, ids)[j].id
    ensures (set c | c in GetChunks(corpus, ids)) == PoolOf(corpus, Elements(ids)).Values
  {
    UniqueElements(ids);
    assert forall id :: id in Unique(ids) <==> id in Elements(Unique(ids));
    FetchElements(corpus.chunks, Unique(ids));
    var pool := PoolOf(corpus, Elements(ids));
    forall c | c in pool.Values ensures c in GetChunks(corpus, ids) {
      var id :| id in pool && pool[id] == c;
    }
    forall c | c in GetChunks(corpus, ids) ensures c in pool.Values {
      assert pool[c.id] == c;
    }
  }

  function HasRepeatedId(chunks: seq<Chunk>): bool {
    exists i, j | 0 <= i < j < |chunks| :: chunks[i].id == chunks[j].id
  }

  function Prefix(chunks: seq<Chunk>, n: nat): set<Chunk>
    requires n <= |chunks|
  {
    set c | c in chunks[..n]
  }

  lemma NextChunk(lang: Language, metric: string, chunks: seq<Chunk>, i: nat)
    requires i < |chunks|
    ensures HitsIn(lang, metric, Prefix(chunks, i + 1))
         == HitsIn(lang, metric, Prefix(chunks, i)) + ChunkHits(lang, metric, chunks[i])
  {
    assert Prefix(chunks, i + 1) == Prefix(chunks, i) + {chunks[i]};
  }

  lemma NoChunk(lang: Language, metric: string, chunks: seq<Chunk>)
    ensures HitsIn(lang, metric, Prefix(chunks, 0)) == {}
  {
  }

  lemma MissingStaysMissing(lang: Language, metric: string, chunk: Chunk, pool: Opened)
    requires lang.Valid() && chunk in pool.Values && !AllComplete(lang, pool, ChunkHits(lang, metric, chunk))
    ensures !AllComplete(lang, pool, Hits(lang, metric, pool))
  {
    hide At;
    assert ChunkHits(lang, metric, chunk) <= Hits(lang, metric, pool);
  }

  /** Every context of one chunk, in the order its spans are found. */
  method RebuildChunk(lang: Language, metric: string, chunk: Chunk, pool: Opened)
    returns (complete: bool, displays: set<Occurrence>, review: bool)
    requires lang.Valid()
    ensures complete == AllComplete(lang, pool, ChunkHits(lang, metric, chunk))
    ensures complete ==> displays == Displays(lang, pool, ChunkHits(lang, metric, chunk))
    ensures complete ==> review == !AllBenign(lang, metric, pool, ChunkHits(lang, metric, chunk))
  {
    hide Language.Valid, ContextOf, Language.Analyze;
    complete, displays, review := true, {}, false;
    var spans := lang.spans(metric, chunk.text);
    ghost var done: set<Hit> := {};
    for k := 0 to |spans|
      invariant complete
      invariant done == set s | s in spans[..k] :: Hit(chunk, s)
      invariant AllComplete(lang, pool, done)
      invariant displays == Displays(lang, pool, done)
      invariant review <==> !AllBenign(lang, metric, pool, done)
    {
      ghost var hit := Hit(chunk, spans[k]);
      HitInside(lang, metric, chunk.text, spans[k]);
      var context := MetricOccurrenceWithOpenNeighbors(lang, chunk, pool, spans[k]);
      assert hit in ChunkHits(lang, metric, chunk) && context == At(lang, pool, hit);
      if !context.complete {
        complete := false;
        return;
      }
      displays := displays + {context.display};
      review := review || lang.Analyze(metric, context.proof) != Benign;
      done := done + {hit};
      assert spans[..k + 1] == spans[..k] + [spans[k]];
    }
    assert spans[..|spans|] == spans;
    assert done == ChunkHits(lang, metric, chunk);
  }

  /** Rebuild every context from the corpus and authorize the conclusion or refuse it. */
  method DeriveAgainstCorpus(lang: Language, p: Probe, corpus: Corpus) returns (conclusion: Conclusion)
    requires lang.Valid() && WellFormed(corpus)
    ensures conclusion == ConclusionAgainstCorpus(lang, p, corpus)
  {
    hide Language.Valid, At, Language.Analyze, DeriveConclusion, HitsIn, ChunkHits;
    var structural := DeriveConclusion(lang, p);
    if structural != NotFoundInProbe {
      return structural;
    }
    var scan := corpus.scan(p.metric);
    if !scan.ScanComplete? {
      return IncompleteProbe;
    }
    if HasRepeatedId(scan.chunks) || Ids(scan.chunks) != Elements(p.scanIds) || scan.candidateCount < |scan.chunks| {
      return IncompleteProbe;
    }
    var chunks := GetChunks(corpus, p.openedIds);
    var pool := PoolOf(corpus, Elements(p.openedIds));
    if pool.Keys != Elements(p.openedIds) {
      return IncompleteProbe;
    }
    GetChunksElements(corpus, p.openedIds);
    var expected: set<Occurrence> := {};
    var reviewRequired := false;
    NoChunk(lang, p.metric, chunks);
    for i := 0 to |chunks|
      invariant AllComplete(lang, pool, HitsIn(lang, p.metric, Prefix(chunks, i)))
      invariant expected == Displays(lang, pool, HitsIn(lang, p.metric, Prefix(chunks, i)))
      invariant reviewRequired <==> !AllBenign(lang, p.metric, pool, HitsIn(lang, p.metric, Prefix(chunks, i)))
    {
      var complete, displays, review := RebuildChunk(lang, p.metric, chunks[i], pool);
      NextChunk(lang, p.metric, chunks, i);
      if !complete {
        MissingStaysMissing(lang, p.metric, chunks[i], pool);
        return IncompleteProbe;
      }
      expected := expected + displays;
      reviewRequired := reviewRequired || review;
    }
    assert Prefix(chunks, |chunks|) == pool.Values;
    if (set o | o in p.occurrences) != expected {
      return IncompleteProbe;
    }
    return if reviewRequired then RequiresReview else NotFoundInProbe;
  }

  // ----- soundness against an arbitrary record -----

  /** The links of one occurrence lead only to opened chunks, and its context is harmless. */
  ghost predicate HarmlessOccurrence(lang: Language, metric: string, pool: Opened, c: Chunk, s: Span)
    requires lang.Valid()
  {
    && s.0 <= s.1 <= |c.text|
    && (exists path :: ForwardPath(pool, c.next, path))
    && (lang.boundaries(c.text[..s.0]) != [] || exists path :: BackPath(lang, pool, c.previous, path))
    && lang.Analyze(metric, ContextOf(lang, pool, c, s).proof) == Benign
  }

  lemma CompleteIsOpen(lang: Language, metric: string, pool: Opened, c: Chunk, s: Span)
    requires lang.Valid() && Keyed(pool) && s.0 <= s.1 <= |c.text|
    requires ContextOf(lang, pool, c, s).complete
    ensures exists path :: ForwardPath(pool, c.next, path)
    ensures lang.boundaries(c.text[..s.0]) != [] || exists path :: BackPath(lang, pool, c.previous, path)
  {
    ProofSentence(lang, pool, c, s);
    var forward := ForwardComplete(lang, pool, c.next, {c.id}, c.text[s.1..]);
    if lang.boundaries(c.text[..s.0]) == [] {
      var back := BackComplete(lang, pool, c.previous, {c.id}, c.text[..s.0]);
    }
  }

  /**
   Whatever record it is given, the checker answers not-found only if every chunk of the corpus
   that holds the metric was opened, every link chain of every occurrence stays inside the opened
   chunks, and every occurrence is benign.
   */
  lemma NotFoundIsSound(lang: Language, p: Probe, corpus: Corpus, id: ChunkId, s: Span)
    requires lang.Valid() && WellFormed(corpus) && Exhaustive(lang, corpus)
    requires ConclusionAgainstCorpus(lang, p, corpus) == NotFoundInProbe
    requires id in corpus.chunks && s in lang.spans(p.metric, corpus.chunks[id].text)
    ensures id in p.openedIds
    ensures HarmlessOccurrence(lang, p.metric, PoolOf(corpus, Elements(p.openedIds)), corpus.chunks[id], s)
  {
    var c, scan, pool := corpus.chunks[id], corpus.scan(p.metric), PoolOf(corpus, Elements(p.openedIds));
    assert c in scan.chunks && c.id in Ids(scan.chunks);
    assert id in p.scanIds && id in p.candidateIds;
    assert id in Elements(p.candidateIds);
    assert pool[id] == c;
    var hit := Hit(c, s);
    assert hit in Hits(lang, p.metric, pool);
    HitInside(lang, p.metric, c.text, s);
    assert At(lang, pool, hit) == ContextOf(lang, pool, c, s);
    CompleteIsOpen(lang, p.metric, pool, c, s);
  }
}
