/**
 The server-owned probe: four searches, one exhaustive scan, a budgeted closure of the opened
 chunks under their links, and one analysis per occurrence.
 */
module AbsenceProducer {
  import opened Models
  import opened Listings
  import opened MetricContext
  import opened AbsenceProtocol

  type SearchIndex = (string, nat) -> Option<seq<ChunkId>>

  /** Opened chunks come from the corpus, each once. */
  ghost predicate Fetched(corpus: Corpus, chunks: seq<Chunk>) {
    && (forall c | c in chunks :: c.id in corpus.chunks && corpus.chunks[c.id] == c)
    && (forall i, j | 0 <= i < j < |chunks| :: chunks[i].id != chunks[j].id)
  }

  function Links(c: Chunk): set<ChunkId> {
    (if c.previous.Some? then {c.previous.value} else {})
    + (if c.next.Some? then {c.next.value} else {})
  }

  /** Links of opened chunks that are not opened themselves. */
  function OpenLinks(chunks: seq<Chunk>): set<ChunkId> {
    set c, id | c in chunks && id in Links(c) && id !in Ids(chunks) :: id
  }

  /** Every link of every opened chunk is opened or absent from the corpus. */
  ghost predicate Closed(corpus: Corpus, chunks: seq<Chunk>) {
    forall c, id | c in chunks && id in Links(c) :: id in Ids(chunks) || id !in corpus.chunks
  }

  /** Ids that hold everything to be opened: what exists of a start, and the links of what exists. */
  ghost predicate Encloses(corpus: Corpus, ids: set<ChunkId>, start: set<ChunkId>) {
    && start * corpus.chunks.Keys <= ids
    && forall id | id in ids && id in corpus.chunks :: Links(corpus.chunks[id]) <= ids
  }

  /** The linked neighbourhood of a start, links to nowhere included, fits the budget. */
  ghost predicate Roomy(corpus: Corpus, start: set<ChunkId>) {
    exists ids :: Encloses(corpus, ids, start) && |ids| <= MAX_OPENED
  }

  lemma {:induction false} IdsCount(corpus: Corpus, chunks: seq<Chunk>)
    requires Fetched(corpus, chunks)
    ensures |Ids(chunks)| == |chunks|
    decreases |chunks|
  {
    if chunks != [] {
      var front, last := chunks[..|chunks| - 1], chunks[|chunks| - 1];
      assert chunks == front + [last] && last in chunks;
      assert forall c | c in front :: c in chunks;
      IdsCount(corpus, front);
      assert Ids(chunks) == Ids(front) + {last.id};
      assert last.id !in Ids(front);
    }
  }

  lemma SmallerSet(a: set<ChunkId>, b: set<ChunkId>)
    requires a <= b
    ensures |a| <= |b|
  {
    assert b == a + (b - a);
  }

  /** Links of opened chunks stay inside whatever encloses them, and count against its size. */
  lemma LinksInside(corpus: Corpus, chunks: seq<Chunk>, ids: set<ChunkId>, start: set<ChunkId>)
    requires Fetched(corpus, chunks) && Encloses(corpus, ids, start) && Ids(chunks) <= ids
    ensures OpenLinks(chunks) <= ids && |chunks| + |OpenLinks(chunks)| <= |ids|
  {
    forall id | id in OpenLinks(chunks) ensures id in ids {
      var c :| c in chunks && id in Links(c) && id !in Ids(chunks);
      assert c.id in Ids(chunks);
    }
    IdsCount(corpus, chunks);
    assert Ids(chunks) !! OpenLinks(chunks);
    SmallerSet(Ids(chunks) + OpenLinks(chunks), ids);
  }

  /** Closed opened chunks, with their links to nowhere, enclose themselves. */
  lemma ClosedEncloses(corpus: Corpus, chunks: seq<Chunk>, start: set<ChunkId>)
    requires Fetched(corpus, chunks) && Closed(corpus, chunks) && start * corpus.chunks.Keys <= Ids(chunks)
    ensures Encloses(corpus, Ids(chunks) + OpenLinks(chunks), start)
    ensures |Ids(chunks) + OpenLinks(chunks)| == |chunks| + |OpenLinks(chunks)|
  {
    IdsCount(corpus, chunks);
    assert Ids(chunks) !! OpenLinks(chunks);
    var ids := Ids(chunks) + OpenLinks(chunks);
    forall id | id in ids && id in corpus.chunks ensures Links(corpus.chunks[id]) <= ids {
      assert id in Ids(chunks);
      var c :| c in chunks && c.id == id;
      assert corpus.chunks[id] == c;
    }
  }

  /** The elements of a set, in some order. */
  method Enumerate(ids: set<ChunkId>) returns (order: seq<ChunkId>)
    ensures Elements(order) == ids && NoRepeats(order) && |order| == |ids|
  {
    order := [];
    var rest := ids;
    while rest != {}
      invariant Elements(order) + rest == ids && Elements(order) !! rest
      invariant NoRepeats(order) && |order| + |rest| == |ids|
      decreases rest
    {
      var id :| id in rest;
      assert id !in Elements(order);
      assert Elements(order + [id]) == Elements(order) + {id};
      order := order + [id];
      rest := rest - {id};
    }
  }

  lemma FetchFits(corpus: Corpus, ids: seq<ChunkId>)
    requires WellFormed(corpus)
    ensures Fetched(corpus, GetChunks(corpus, ids))
    ensures |GetChunks(corpus, ids)| <= |ids|
    ensures Ids(GetChunks(corpus, ids)) == Elements(ids) * corpus.chunks.Keys
  {
    GetChunksElements(corpus, ids);
    forall id | id in ids && id in corpus.chunks ensures id in Ids(GetChunks(corpus, ids)) {
      assert corpus.chunks[id] in GetChunks(corpus, ids);
    }
    UniqueShorter(ids);
    FetchShorter(corpus.chunks, Unique(ids));
  }

  lemma {:induction false} UniqueShorter(ids: seq<ChunkId>)
    ensures |Unique(ids)| <= |ids|
  {
    if ids != [] { UniqueShorter(ids[..|ids| - 1]); }
  }

  lemma {:induction false} FetchShorter(chunks: map<ChunkId, Chunk>, ids: seq<ChunkId>)
    ensures |Fetch(chunks, ids)| <= |ids|
  {
    if ids != [] { FetchShorter(chunks, ids[..|ids| - 1]); }
  }

  lemma NothingLeft(corpus: Corpus, chunks: seq<Chunk>, order: seq<ChunkId>)
    requires WellFormed(corpus) && Elements(order) == OpenLinks(chunks) && GetChunks(corpus, order) == []
    ensures Closed(corpus, chunks)
  {
    FetchFits(corpus, order);
    assert Elements(order) * corpus.chunks.Keys == {};
    forall c, id | c in chunks && id in Links(c) && id !in Ids(chunks) ensures id !in corpus.chunks {
      assert id in OpenLinks(chunks);
    }
  }

  /**
   Follow links to a fixed point, or say that the budget stopped it: exactly when the neighbourhood
   does not fit. What is opened is no more than the neighbourhood.
   */
  method ExpandContext(corpus: Corpus, initial: seq<Chunk>, startLimited: bool)
    returns (chunks: seq<Chunk>, limited: bool)
    requires WellFormed(corpus) && Fetched(corpus, initial) && |initial| <= MAX_OPENED
    ensures Fetched(corpus, chunks) && initial <= chunks && |chunks| <= MAX_OPENED
    ensures limited <==> startLimited || !Roomy(corpus, Ids(initial))
    ensures !limited ==> Closed(corpus, chunks)
    ensures forall ids | Encloses(corpus, ids, Ids(initial)) :: Ids(chunks) <= ids
  {
    hide Closed, Encloses, GetChunks;
    chunks, limited := initial, startLimited;
    InitialEnclosed(corpus, initial);
    ghost var start := Ids(initial);
    while !limited
      invariant Fetched(corpus, chunks) && initial <= chunks && |chunks| <= MAX_OPENED
      invariant limited ==> startLimited || !Roomy(corpus, start)
      invariant startLimited ==> limited
      invariant forall ids | Encloses(corpus, ids, start) :: Ids(chunks) <= ids
      decreases MAX_OPENED - |chunks|, !limited
    {
      var linked := OpenLinks(chunks);
      forall ids | Encloses(corpus, ids, start) ensures linked <= ids && |chunks| + |linked| <= |ids| {
        LinksInside(corpus, chunks, ids, start);
      }
      if linked == {} {
        NoLinksClosed(corpus, chunks);
        Fits(corpus, chunks, initial);
        break;
      }
      if |chunks| + |linked| > MAX_OPENED {
        limited := true;
        break;
      }
      var order := Enumerate(linked);
      var expanded := GetChunks(corpus, order);
      FetchFits(corpus, order);
      var longer, full := AddFetched(corpus, chunks, expanded);
      limited := full;
      if |longer| == |chunks| {
        if !limited {
          assert expanded == [];
          NothingLeft(corpus, chunks, order);
          Fits(corpus, chunks, initial);
        }
        break;
      }
      assert Ids(longer) == Ids(chunks) + Ids(expanded);
      chunks := longer;
    }
  }

  lemma InitialEnclosed(corpus: Corpus, initial: seq<Chunk>)
    requires Fetched(corpus, initial)
    ensures forall ids | Encloses(corpus, ids, Ids(initial)) :: Ids(initial) <= ids
  {
    assert Ids(initial) <= corpus.chunks.Keys;
  }

  lemma NoLinksClosed(corpus: Corpus, chunks: seq<Chunk>)
    requires OpenLinks(chunks) == {}
    ensures Closed(corpus, chunks)
  {
    forall c, id | c in chunks && id in Links(c) ensures id in Ids(chunks) {
      assert id in Ids(chunks) || id in OpenLinks(chunks);
    }
  }

  lemma Fits(corpus: Corpus, chunks: seq<Chunk>, initial: seq<Chunk>)
    requires Fetched(corpus, chunks) && Closed(corpus, chunks) && initial <= chunks
    requires |chunks| + |OpenLinks(chunks)| <= MAX_OPENED
    ensures Roomy(corpus, Ids(initial))
  {
    hide Encloses, Closed, OpenLinks, Ids, Fetched;
    IdsPrefix(initial, chunks);
    ClosedEncloses(corpus, chunks, Ids(initial));
    assert Encloses(corpus, Ids(chunks) + OpenLinks(chunks), Ids(initial));
  }

  lemma IdsPrefix(initial: seq<Chunk>, chunks: seq<Chunk>)
    requires initial <= chunks
    ensures Ids(initial) <= Ids(chunks)
  {
    assert forall c | c in initial :: c in chunks;
  }

  /** Chunks that are not opened yet join the opened ones until the budget is full. */
  method AddFetched(corpus: Corpus, before: seq<Chunk>, expanded: seq<Chunk>) returns (chunks: seq<Chunk>, full: bool)
    requires Fetched(corpus, before) && Fetched(corpus, expanded) && Ids(before) !! Ids(expanded)
    ensures Fetched(corpus, chunks) && before <= chunks
    ensures full <==> |before| + |expanded| > MAX_OPENED && expanded != []
    ensures !full ==> chunks == before + expanded
    ensures |before| <= MAX_OPENED ==> |chunks| <= MAX_OPENED
  {
    chunks, full := before, false;
    for i := 0 to |expanded|
      invariant Fetched(corpus, chunks) && chunks == before + expanded[..i] && !full
      invariant i > 0 ==> |chunks| <= MAX_OPENED
    {
      var next := expanded[i];
      assert next in expanded && next.id in Ids(expanded);
      assert next.id !in Ids(chunks) by {
        NotYetAdded(before, expanded, i);
      }
      if next.id !in Ids(chunks) {
        if |chunks| >= MAX_OPENED {
          full := true;
          return;
        }
        chunks := chunks + [next];
      }
    }
  }

  lemma NotYetAdded(before: seq<Chunk>, expanded: seq<Chunk>, i: nat)
    requires i < |expanded| && Ids(before) !! Ids(expanded)
    requires forall j | 0 <= j < i :: expanded[j].id != expanded[i].id
    ensures expanded[i].id !in Ids(before + expanded[..i])
  {
    assert expanded[i] in expanded;
    assert expanded[i].id in Ids(expanded);
  }

  // ----- analysis of every occurrence in the opened chunks -----

  datatype Findings = Findings(
    occurrences: seq<Occurrence>,
    unresolved: seq<Occurrence>,
    values: seq<(ChunkId, string)>,
    missing: bool)

  /** What the findings say about the occurrences analyzed so far. */
  ghost predicate Describes(lang: Language, metric: string, pool: Opened, f: Findings, hits: set<Hit>)
    requires lang.Valid()
  {
    && (set o | o in f.occurrences) == Displays(lang, pool, hits)
    && (f.missing <==> !AllComplete(lang, pool, hits))
    && (f.unresolved == [] && f.values == [] <==> AllBenign(lang, metric, pool, hits))
  }

  /** A value is recorded once per chunk and text. */
  method AddValues(values: seq<(ChunkId, string)>, chunkId: ChunkId, found: seq<string>)
    returns (longer: seq<(ChunkId, string)>)
    ensures longer == [] <==> values == [] && found == []
    ensures forall v | v in longer :: v in values || (v.0 == chunkId && v.1 in found)
    ensures forall v | v in values :: v in longer
    ensures forall text | text in found :: (chunkId, text) in longer
    ensures (forall i, j | 0 <= i < j < |values| :: values[i] != values[j]) ==>
      forall i, j | 0 <= i < j < |longer| :: longer[i] != longer[j]
  {
    longer := values;
    for i := 0 to |found|
      invariant values <= longer
      invariant longer == [] <==> values == [] && i == 0
      invariant forall v | v in longer :: v in values || (v.0 == chunkId && v.1 in found)
      invariant forall k | 0 <= k < i :: (chunkId, found[k]) in longer
      invariant (forall j, k | 0 <= j < k < |values| :: values[j] != values[k]) ==>
        forall j, k | 0 <= j < k < |longer| :: longer[j] != longer[k]
    {
      if (chunkId, found[i]) !in longer {
        longer := longer + [(chunkId, found[i])];
      }
    }
  }

  /** The occurrence is kept for review as a whole, whatever numbers stand near it. */
  predicate Reviewed(lang: Language, metric: string, proof: Occurrence) {
    || lang.Analyze(metric, proof) == Unknown
    || lang.unresolved(metric, proof.sentence)
    || lang.qualitative(proof)
  }

  method AnalyzeOccurrence(lang: Language, metric: string, pool: Opened, hit: Hit, f: Findings, ghost hits: set<Hit>)
    returns (g: Findings)
    requires lang.Valid() && hit.span.0 <= hit.span.1 <= |hit.chunk.text|
    requires Describes(lang, metric, pool, f, hits)
    ensures Describes(lang, metric, pool, g, hits + {hit})
  {
    hide Language.Valid, ContextOf, Describes, Language.Analyze;
    var context := MetricOccurrenceWithOpenNeighbors(lang, hit.chunk, pool, hit.span);
    var proof := context.proof;
    var reviewed := Reviewed(lang, metric, proof);
    var values := AddValues(f.values, hit.chunk.id, lang.numbers(proof));
    g := Findings(
      f.occurrences + [context.display],
      if reviewed then f.unresolved + [context.display] else f.unresolved,
      values,
      f.missing || !context.complete);
    assert context == At(lang, pool, hit);
    BenignIffNotReviewed(lang, metric, proof);
    DescribesMore(lang, metric, pool, f, g, hit, hits);
  }

  lemma BenignIffNotReviewed(lang: Language, metric: string, proof: Occurrence)
    ensures lang.Analyze(metric, proof) == Benign
      <==> !Reviewed(lang, metric, proof) && lang.numbers(proof) == []
  {
  }

  lemma DescribesMore(lang: Language, metric: string, pool: Opened, f: Findings, g: Findings, hit: Hit, hits: set<Hit>)
    requires lang.Valid() && Describes(lang, metric, pool, f, hits)
    requires g.occurrences == f.occurrences + [At(lang, pool, hit).display]
    requires g.missing == (f.missing || !At(lang, pool, hit).complete)
    requires g.unresolved == [] && g.values == []
      <==> f.unresolved == [] && f.values == [] && lang.Analyze(metric, At(lang, pool, hit).proof) == Benign
    ensures Describes(lang, metric, pool, g, hits + {hit})
  {
    hide At, Language.Analyze, Language.Valid;
    assert (set o | o in g.occurrences) == (set o | o in f.occurrences) + {At(lang, pool, hit).display};
    assert Displays(lang, pool, hits + {hit}) == Displays(lang, pool, hits) + {At(lang, pool, hit).display};
  }

  method AnalyzeChunks(lang: Language, metric: string, pool: Opened, chunks: seq<Chunk>) returns (f: Findings)
    requires lang.Valid()
    ensures Describes(lang, metric, pool, f, HitsIn(lang, metric, Prefix(chunks, |chunks|)))
  {
    hide Language.Valid, Describes, HitsIn, ChunkHits;
    f := Findings([], [], [], false);
    NothingAnalyzed(lang, metric, pool, f);
    NoChunk(lang, metric, chunks);
    for i := 0 to |chunks|
      invariant Describes(lang, metric, pool, f, HitsIn(lang, metric, Prefix(chunks, i)))
    {
      var spans := lang.spans(metric, chunks[i].text);
      ghost var before, done: set<Hit> := HitsIn(lang, metric, Prefix(chunks, i)), {};
      assert before + done == before;
      for k := 0 to |spans|
        invariant done == set s | s in spans[..k] :: Hit(chunks[i], s)
        invariant Describes(lang, metric, pool, f, before + done)
      {
        HitInside(lang, metric, chunks[i].text, spans[k]);
        var hit := Hit(chunks[i], spans[k]);
        f := AnalyzeOccurrence(lang, metric, pool, hit, f, before + done);
        assert before + done + {hit} == before + (done + {hit});
        done := done + {hit};
        assert spans[..k + 1] == spans[..k] + [spans[k]];
      }
      SpansAreHits(lang, metric, chunks[i], done);
      NextChunk(lang, metric, chunks, i);
    }
  }

  lemma NothingAnalyzed(lang: Language, metric: string, pool: Opened, f: Findings)
    requires lang.Valid() && f == Findings([], [], [], false)
    ensures Describes(lang, metric, pool, f, {})
  {
  }

  lemma SpansAreHits(lang: Language, metric: string, chunk: Chunk, done: set<Hit>)
    requires var spans := lang.spans(metric, chunk.text); done == set s | s in spans[..|spans|] :: Hit(chunk, s)
    ensures done == ChunkHits(lang, metric, chunk)
  {
    var spans := lang.spans(metric, chunk.text);
    assert spans[..|spans|] == spans;
  }

  // ----- the whole probe -----

  /** What the searches that answered found. */
  ghost function FoundBy(queries: seq<string>, topK: nat, search: SearchIndex): set<ChunkId> {
    set i, id | 0 <= i < |queries| && search(queries[i], topK).Some? && id in search(queries[i], topK).value :: id
  }

  lemma NoSearch(topK: nat, search: SearchIndex)
    ensures FoundBy([], topK, search) == {}
  {
  }

  lemma OneMoreSearch(queries: seq<string>, topK: nat, search: SearchIndex, i: nat)
    requires i < |queries|
    ensures FoundBy(queries[..i + 1], topK, search)
         == if search(queries[i], topK).Some?
            then FoundBy(queries[..i], topK, search) + Elements(search(queries[i], topK).value)
            else FoundBy(queries[..i], topK, search)
  {
    var more := queries[..i + 1];
    assert more[i] == queries[i] && forall k | 0 <= k < i :: more[k] == queries[..i][k];
  }

  ghost function SearchHits(metric: string, topK: nat, search: SearchIndex): set<ChunkId> {
    FoundBy(Queries(metric), topK, search)
  }

  ghost predicate AllAnswered(metric: string, topK: nat, search: SearchIndex) {
    forall i | 0 <= i < |Queries(metric)| ::
      search(Queries(metric)[i], topK).Some? && NoRepeats(search(Queries(metric)[i], topK).value)
  }

  /** The chunks of the corpus that hold the metric. */
  ghost function Holding(lang: Language, corpus: Corpus, metric: string): set<ChunkId> {
    set id | id in corpus.chunks && lang.spans(metric, corpus.chunks[id].text) != [] :: id
  }

  ghost predicate Scanned(lang: Language, corpus: Corpus, metric: string) {
    lang.key(metric) != "" && corpus.scan(metric).ScanComplete?
  }

  ghost function ScanHits(lang: Language, corpus: Corpus, metric: string): set<ChunkId> {
    if Scanned(lang, corpus, metric) then Holding(lang, corpus, metric) else {}
  }

  /** All that search and scan want opened. */
  ghost function Wanted(lang: Language, corpus: Corpus, metric: string, topK: nat, search: SearchIndex): set<ChunkId> {
    SearchHits(metric, topK, search) + ScanHits(lang, corpus, metric)
  }

  /** Search and scan ask for no more than the budget, nor does what is linked to it. */
  ghost predicate Affordable(corpus: Corpus, wanted: set<ChunkId>) {
    |wanted| <= MAX_OPENED && Roomy(corpus, wanted)
  }

  /** Every chain of every occurrence in the pool is finite and opened. */
  ghost predicate ChainsOpen(lang: Language, metric: string, pool: Opened) {
    forall c, s | c in pool.Values && s in lang.spans(metric, c.text) && s.0 <= |c.text| ::
      ChainOpen(lang, pool, c, s.0)
  }

  /** Every occurrence in the pool is benign in its whole context, and so is what is shown of it. */
  ghost predicate Harmless(lang: Language, metric: string, pool: Opened)
    requires lang.Valid()
  {
    && AllBenign(lang, metric, pool, Hits(lang, metric, pool))
    && forall o | o in Displays(lang, pool, Hits(lang, metric, pool)) :: !Reviewable(lang, metric, o)
  }

  lemma ChainsAreComplete(lang: Language, metric: string, pool: Opened)
    requires lang.Valid() && Keyed(pool)
    ensures AllComplete(lang, pool, Hits(lang, metric, pool)) <==> ChainsOpen(lang, metric, pool)
  {
    hide Language.Valid, ContextOf, ChainOpen;
    forall c, s | c in pool.Values && s in lang.spans(metric, c.text)
      ensures s.0 <= s.1 <= |c.text|
      ensures Hit(c, s) in Hits(lang, metric, pool)
      ensures At(lang, pool, Hit(c, s)).complete <==> ChainOpen(lang, pool, c, s.0)
    {
      HitInside(lang, metric, c.text, s);
      var id :| id in pool && pool[id] == c;
      ContextCompleteIff(lang, pool, c, s);
    }
    if ChainsOpen(lang, metric, pool) {
      forall h | h in Hits(lang, metric, pool) ensures At(lang, pool, h).complete {
        assert h == Hit(h.chunk, h.span);
      }
    }
  }

  /** The answer of a probe, from what its searches and its scan found and what it opened. */
  ghost function Answer(lang: Language, corpus: Corpus, metric: string, topK: nat, search: SearchIndex,
      pool: Opened): Conclusion
    requires lang.Valid()
  {
    if !AllAnswered(metric, topK, search) then IncompleteProbe
    else if !Harmless(lang, metric, pool) then RequiresReview
    else if
      && Scanned(lang, corpus, metric)
      && Affordable(corpus, Wanted(lang, corpus, metric, topK, search))
      && SearchHits(metric, topK, search) <= corpus.chunks.Keys
      && ChainsOpen(lang, metric, pool)
    then NotFoundInProbe
    else IncompleteProbe
  }

  function IdsOf(chunks: seq<Chunk>): seq<ChunkId> {
    seq(|chunks|, i requires 0 <= i < |chunks| => chunks[i].id)
  }

  /**
   The four fixed searches; a failed one is recorded as failed and contributes nothing. Whatever a
   search answers without repeats is recorded as the checker demands.
   */
  method RunSearches(lang: Language, metric: string, topK: nat, search: SearchIndex)
    returns (records: seq<SearchRecord>, candidateIds: seq<ChunkId>)
    ensures |records| == |Queries(metric)|
    ensures forall i | 0 <= i < |records| && search(Queries(metric)[i], topK).Some? ::
      records[i].completed && records[i].resultIds == search(Queries(metric)[i], topK).value
    ensures forall i | 0 <= i < |records| && search(Queries(metric)[i], topK).None? ::
      !records[i].completed && records[i].resultIds == []
    ensures forall i | 0 <= i < |records| && records[i].completed && NoRepeats(records[i].resultIds) ::
      MIN_TOP_K <= topK ==> SearchAccepted(lang, metric, Queries(metric)[i], records[i])
    ensures forall i | 0 <= i < |records| :: records[i].topK == topK
    ensures forall i, id | 0 <= i < |records| && id in records[i].resultIds :: id in candidateIds
    ensures Elements(candidateIds) == SearchHits(metric, topK, search)
  {
    hide FoundBy, Queries;
    var queries := Queries(metric);
    records, candidateIds := [], [];
    assert Elements(candidateIds) == FoundBy(queries[..0], topK, search) by { NoSearch(topK, search); }
    for i := 0 to |queries|
      invariant |records| == i
      invariant forall k | 0 <= k < i :: records[k].topK == topK
      invariant Elements(candidateIds) == FoundBy(queries[..i], topK, search)
      invariant forall k | 0 <= k < i && search(queries[k], topK).Some? ::
        records[k].completed && records[k].resultIds == search(queries[k], topK).value
      invariant forall k | 0 <= k < i && search(queries[k], topK).None? ::
        !records[k].completed && records[k].resultIds == []
      invariant forall k | 0 <= k < i && records[k].completed && NoRepeats(records[k].resultIds) ::
        MIN_TOP_K <= topK ==> SearchAccepted(lang, metric, queries[k], records[k])
      invariant forall k, id | 0 <= k < i && id in records[k].resultIds :: id in candidateIds
    {
      OneMoreSearch(queries, topK, search, i);
      var key, signature := lang.key(queries[i]), lang.signature(queries[i], metric, topK);
      match search(queries[i], topK)
      case None =>
        records := records
          + [SearchRecord(false, Lexical, key, Some(metric), topK, [], None, None, [], 0, signature)];
      case Some(ids) =>
        records := records
          + [SearchRecord(true, Lexical, key, Some(metric), topK, [], None, None, ids, |ids|, signature)];
        assert Elements(candidateIds + ids) == Elements(candidateIds) + Elements(ids);
        candidateIds := candidateIds + ids;
    }
    assert queries[..|queries|] == queries;
  }

  /** Ids of the scanned chunks that hold the metric. */
  method HoldingIds(lang: Language, metric: string, chunks: seq<Chunk>) returns (ids: seq<ChunkId>)
    ensures (forall c | c in chunks :: lang.spans(metric, c.text) != []) ==> Elements(ids) == Ids(chunks)
  {
    ids := [];
    for i := 0 to |chunks|
      invariant (forall c | c in chunks :: lang.spans(metric, c.text) != []) ==> Elements(ids) == Ids(chunks[..i])
    {
      assert Ids(chunks[..i + 1]) == Ids(chunks[..i]) + {chunks[i].id} by {
        assert chunks[..i + 1] == chunks[..i] + [chunks[i]];
      }
      if lang.spans(metric, chunks[i].text) != [] {
        assert Elements(ids + [chunks[i].id]) == Elements(ids) + {chunks[i].id};
        ids := ids + [chunks[i].id];
      }
    }
    assert chunks[..|chunks|] == chunks;
  }

  /** On an unchanged corpus the checker reaches the producer's own not-found, and only then. */
  lemma Agreement(lang: Language, corpus: Corpus, p: Probe, chunks: seq<Chunk>, f: Findings)
    requires lang.Valid() && WellFormed(corpus) && Exhaustive(lang, corpus) && Fetched(corpus, chunks)
    requires p.openedIds == IdsOf(chunks)
    requires p.occurrences == f.occurrences && p.unresolved == f.unresolved && p.values == f.values
    requires Describes(lang, p.metric, PoolOf(corpus, Ids(chunks)), f, HitsIn(lang, p.metric, Prefix(chunks, |chunks|)))
    requires p.scanCompleted ==>
      !f.missing && corpus.scan(p.metric).ScanComplete? && Elements(p.scanIds) == Ids(corpus.scan(p.metric).chunks)
    ensures DeriveConclusion(lang, p) == NotFoundInProbe <==>
      ConclusionAgainstCorpus(lang, p, corpus) == NotFoundInProbe
  {
    hide Language.Valid, At, Language.Analyze, HitsIn;
    if DeriveConclusion(lang, p) == NotFoundInProbe {
      PoolOfFetched(corpus, chunks);
      assert Elements(p.openedIds) == Ids(chunks);
      assert Prefix(chunks, |chunks|) == PoolOf(corpus, Ids(chunks)).Values;
      assert ScanAgrees(p, corpus.scan(p.metric));
    }
  }

  lemma PoolOfFetched(corpus: Corpus, chunks: seq<Chunk>)
    requires Fetched(corpus, chunks)
    ensures PoolOf(corpus, Ids(chunks)).Keys == Ids(chunks) == Elements(IdsOf(chunks))
    ensures PoolOf(corpus, Ids(chunks)).Values == Prefix(chunks, |chunks|)
    ensures NoRepeats(IdsOf(chunks))
  {
    var pool := PoolOf(corpus, Ids(chunks));
    assert chunks[..|chunks|] == chunks;
    forall c | c in chunks ensures c in pool.Values && c.id in Elements(IdsOf(chunks)) {
      assert pool[c.id] == c;
      var i :| 0 <= i < |chunks| && chunks[i] == c;
      assert IdsOf(chunks)[i] == c.id;
    }
    forall c | c in pool.Values ensures c in chunks {
      var id :| id in pool && pool[id] == c;
    }
    forall id | id in Elements(IdsOf(chunks)) ensures id in Ids(chunks) {
      var i :| 0 <= i < |chunks| && IdsOf(chunks)[i] == id;
      assert chunks[i] in chunks;
    }
  }

  lemma AcceptedIffAnswered(lang: Language, metric: string, topK: nat, search: SearchIndex, p: Probe)
    requires p.metric == metric && p.protocolVersion == VERSION && |p.searches| == |Queries(metric)|
    requires MIN_TOP_K <= topK
    requires forall i | 0 <= i < |p.searches| && search(Queries(metric)[i], topK).Some? ::
      p.searches[i].completed && p.searches[i].resultIds == search(Queries(metric)[i], topK).value
    requires forall i | 0 <= i < |p.searches| && search(Queries(metric)[i], topK).None? :: !p.searches[i].completed
    requires forall i | 0 <= i < |p.searches| && p.searches[i].completed && NoRepeats(p.searches[i].resultIds) ::
      SearchAccepted(lang, metric, Queries(metric)[i], p.searches[i])
    ensures SearchesAccepted(lang, p) <==> AllAnswered(metric, topK, search)
  {
    hide Queries, NoRepeats;
  }

  /** What a record of complete findings supports by itself. */
  lemma RecordConcludes(lang: Language, corpus: Corpus, p: Probe, chunks: seq<Chunk>, f: Findings,
      wanted: set<ChunkId>)
    requires lang.Valid() && WellFormed(corpus) && Fetched(corpus, chunks) && SearchesAccepted(lang, p)
    requires p.openedIds == IdsOf(chunks)
    requires p.occurrences == f.occurrences && p.unresolved == f.unresolved && p.values == f.values
    requires Describes(lang, p.metric, PoolOf(corpus, Ids(chunks)), f, HitsIn(lang, p.metric, Prefix(chunks, |chunks|)))
    requires NoRepeats(p.candidateIds) && Elements(p.candidateIds) == wanted + Ids(chunks)
    requires p.scanCompleted ==> p.scanError.None?
    requires p.scanCompleted ==> wanted * corpus.chunks.Keys <= Ids(chunks)
    requires forall i, id | 0 <= i < |p.searches| && id in p.searches[i].resultIds :: id in wanted
    requires forall id | id in p.scanIds ::
      id in wanted && id in corpus.chunks && lang.spans(p.metric, corpus.chunks[id].text) != []
    ensures var pool := PoolOf(corpus, Ids(chunks));
      DeriveConclusion(lang, p) == if !Harmless(lang, p.metric, pool) then RequiresReview
                                   else if p.scanCompleted && wanted <= corpus.chunks.Keys then NotFoundInProbe
                                   else IncompleteProbe
  {
    hide Language.Valid, At, Language.Analyze, SearchesAccepted, Reviewable, HitsIn, CoverageAccepted;
    PoolOfFetched(corpus, chunks);
    var pool := PoolOf(corpus, Ids(chunks));
    assert Hits(lang, p.metric, pool) == HitsIn(lang, p.metric, Prefix(chunks, |chunks|));
    assert forall o :: o in p.occurrences <==> o in Displays(lang, pool, Hits(lang, p.metric, pool));
    if Harmless(lang, p.metric, pool) {
      CoverageIff(lang, corpus, p, chunks, wanted);
    }
  }

  lemma CoverageIff(lang: Language, corpus: Corpus, p: Probe, chunks: seq<Chunk>, wanted: set<ChunkId>)
    requires lang.Valid() && WellFormed(corpus) && Fetched(corpus, chunks)
    requires p.openedIds == IdsOf(chunks)
    requires var pool := PoolOf(corpus, Ids(chunks));
      forall o :: (o in p.occurrences <==> o in Displays(lang, pool, Hits(lang, p.metric, pool)))
    requires NoRepeats(p.candidateIds) && Elements(p.candidateIds) == wanted + Ids(chunks)
    requires p.scanCompleted ==> p.scanError.None?
    requires p.scanCompleted ==> wanted * corpus.chunks.Keys <= Ids(chunks)
    requires forall i, id | 0 <= i < |p.searches| && id in p.searches[i].resultIds :: id in wanted
    requires forall id | id in p.scanIds ::
      id in wanted && id in corpus.chunks && lang.spans(p.metric, corpus.chunks[id].text) != []
    ensures CoverageAccepted(p) <==> p.scanCompleted && wanted <= corpus.chunks.Keys
  {
    hide Language.Valid, At;
    PoolOfFetched(corpus, chunks);
    OpenedExists(corpus, chunks);
    assert forall id :: id in p.candidateIds <==> id in wanted + Ids(chunks) by {
      assert forall id :: id in p.candidateIds <==> id in Elements(p.candidateIds);
    }
    if p.scanCompleted && wanted <= corpus.chunks.Keys {
      hide NoRepeats;
      assert wanted <= Ids(chunks);
      assert wanted + Ids(chunks) == Ids(chunks);
      forall o | o in p.occurrences ensures o.chunkId in p.openedIds {
        DisplayedIsOpened(lang, corpus, p.metric, chunks, o);
        assert o.chunkId in Elements(IdsOf(chunks));
      }
      forall id | id in p.scanIds ensures exists o | o in p.occurrences :: o.chunkId == id {
        var o := OpenedIsDisplayed(lang, corpus, p.metric, chunks, id);
      }
    }
  }

  lemma OpenedExists(corpus: Corpus, chunks: seq<Chunk>)
    requires Fetched(corpus, chunks)
    ensures Ids(chunks) <= corpus.chunks.Keys
  {
  }

  lemma DisplayedIsOpened(lang: Language, corpus: Corpus, metric: string, chunks: seq<Chunk>, o: Occurrence)
    requires lang.Valid() && WellFormed(corpus) && Fetched(corpus, chunks)
    requires var pool := PoolOf(corpus, Ids(chunks)); o in Displays(lang, pool, Hits(lang, metric, pool))
    ensures o.chunkId in Ids(chunks)
  {
    hide Language.Valid;
    var pool := PoolOf(corpus, Ids(chunks));
    var h :| h in Hits(lang, metric, pool) && o == At(lang, pool, h).display;
    DisplayOfChunk(lang, pool, h);
    var id :| id in pool && pool[id] == h.chunk;
  }

  lemma DisplayOfChunk(lang: Language, pool: Opened, h: Hit)
    requires lang.Valid()
    ensures At(lang, pool, h).display.chunkId == h.chunk.id
  {
    hide Language.Valid, Before, AfterText, Language.Join;
  }

  lemma OpenedIsDisplayed(lang: Language, corpus: Corpus, metric: string, chunks: seq<Chunk>, id: ChunkId)
    returns (o: Occurrence)
    requires lang.Valid() && WellFormed(corpus) && id in Ids(chunks) && id in corpus.chunks
    requires lang.spans(metric, corpus.chunks[id].text) != []
    ensures var pool := PoolOf(corpus, Ids(chunks)); o in Displays(lang, pool, Hits(lang, metric, pool))
    ensures o.chunkId == id
  {
    hide Language.Valid, At;
    var pool, c := PoolOf(corpus, Ids(chunks)), corpus.chunks[id];
    assert pool[id] == c;
    var h := Hit(c, lang.spans(metric, c.text)[0]);
    assert h in Hits(lang, metric, pool);
    o := At(lang, pool, h).display;
    DisplayOfChunk(lang, pool, h);
  }

  /** Only what exists of a start matters for what encloses it. */
  lemma RoomyExisting(corpus: Corpus, a: set<ChunkId>, b: set<ChunkId>)
    requires a * corpus.chunks.Keys == b * corpus.chunks.Keys
    ensures Roomy(corpus, a) <==> Roomy(corpus, b)
    ensures forall ids :: Encloses(corpus, ids, a) <==> Encloses(corpus, ids, b)
  {
    assert forall ids :: Encloses(corpus, ids, a) <==> Encloses(corpus, ids, b);
  }

  lemma ScanFindsHolding(lang: Language, corpus: Corpus, metric: string)
    requires WellFormed(corpus) && Exhaustive(lang, corpus) && corpus.scan(metric).ScanComplete?
    ensures Ids(corpus.scan(metric).chunks) == Holding(lang, corpus, metric)
  {
    var found := corpus.scan(metric).chunks;
    forall id | id in Holding(lang, corpus, metric) ensures id in Ids(found) {
      var c := corpus.chunks[id];
      assert c.id == id && c in found;
    }
    forall id | id in Ids(found) ensures id in Holding(lang, corpus, metric) {
      var c :| c in found && c.id == id;
    }
  }

  /** The exhaustive scan, with its outcome as the record keeps it. */
  method ScanCorpus(lang: Language, corpus: Corpus, metric: string)
    returns (completed: bool, ids: seq<ChunkId>, error: Option<string>)
    requires WellFormed(corpus) && Exhaustive(lang, corpus)
    ensures completed <==> Scanned(lang, corpus, metric)
    ensures completed ==> error.None?
    ensures Elements(ids) == ScanHits(lang, corpus, metric)
  {
    hide Exhaustive, Holding;
    completed, ids, error := false, [], None;
    if lang.key(metric) != "" {
      match corpus.scan(metric)
      case ScanComplete(found, _) =>
        completed := true;
        ScanHolds(lang, corpus, metric);
        ScanFindsHolding(lang, corpus, metric);
        ids := HoldingIds(lang, metric, found);
      case ScanAmbiguous => error := Some("MetricTokenKindAmbiguous");
      case ScanTooBroad => error := Some("ExactScanTooBroad");
      case ScanFailed(reason) => error := Some(reason);
    }
  }

  /**
   What is wanted comes first among the candidates. As far as the budget goes, all of it that exists
   is opened, and nothing is opened but what is wanted and what links lead to from there.
   */
  ghost predicate OpensWanted(corpus: Corpus, wanted: set<ChunkId>, candidates: seq<ChunkId>, openedIds: seq<ChunkId>) {
    && |wanted| <= |candidates| && Elements(candidates[..|wanted|]) == wanted
    && Elements(candidates[..Min(|wanted|, MAX_OPENED)]) * corpus.chunks.Keys <= Elements(openedIds)
    && forall ids | Encloses(corpus, ids, wanted) :: Elements(openedIds) <= ids
  }

  lemma WantedIsOpened(corpus: Corpus, wanted: set<ChunkId>, unique: seq<ChunkId>, chunks: seq<Chunk>)
    requires Fetched(corpus, chunks) && NoRepeats(unique) && Elements(unique) == wanted && |wanted| == |unique|
    requires Elements(unique[..Min(|wanted|, MAX_OPENED)]) * corpus.chunks.Keys <= Ids(chunks)
    requires forall ids | Encloses(corpus, ids, wanted) :: Ids(chunks) <= ids
    ensures OpensWanted(corpus, wanted, Unique(unique + IdsOf(chunks)), IdsOf(chunks))
  {
    AllCandidates(corpus, unique, chunks);
    var candidates := Unique(unique + IdsOf(chunks));
    hide Encloses, NoRepeats, Elements, Ids, Unique, IdsOf, Fetched;
    SamePrefix(unique, candidates, |unique|);
    SamePrefix(unique, candidates, Min(|wanted|, MAX_OPENED));
    assert unique[..|unique|] == unique;
  }

  lemma SamePrefix(short: seq<ChunkId>, long: seq<ChunkId>, n: nat)
    requires short <= long && n <= |short|
    ensures long[..n] == short[..n]
  {
  }

  /** What was opened for what was wanted. */
  lemma OpenedForWanted(corpus: Corpus, wanted: set<ChunkId>, unique: seq<ChunkId>, initial: seq<Chunk>,
      chunks: seq<Chunk>, limited: bool)
    requires NoRepeats(unique) && Elements(unique) == wanted
    requires var first := if |unique| > MAX_OPENED then unique[..MAX_OPENED] else unique;
      Ids(initial) == Elements(first) * corpus.chunks.Keys
    requires initial <= chunks
    requires limited <==> |unique| > MAX_OPENED || !Roomy(corpus, Ids(initial))
    requires forall ids | Encloses(corpus, ids, Ids(initial)) :: Ids(chunks) <= ids
    ensures limited <==> !Affordable(corpus, wanted)
    ensures |wanted| == |unique|
    ensures Elements(unique[..Min(|wanted|, MAX_OPENED)]) * corpus.chunks.Keys <= Ids(chunks)
    ensures |wanted| <= MAX_OPENED ==> wanted * corpus.chunks.Keys <= Ids(chunks)
    ensures forall ids | Encloses(corpus, ids, wanted) :: Ids(chunks) <= ids
  {
    ElementsCount(unique);
    assert unique[..|unique|] == unique;
    IdsPrefix(initial, chunks);
    hide Roomy, Ids, NoRepeats;
    assert Ids(initial) <= wanted;
    if |unique| <= MAX_OPENED {
      RoomyExisting(corpus, Ids(initial), wanted);
    }
  }

  /** The answer is what the record concludes. */
  lemma ProbeAnswers(lang: Language, corpus: Corpus, metric: string, topK: nat, search: SearchIndex, p: Probe,
      chunks: seq<Chunk>, f: Findings, limited: bool)
    requires lang.Valid() && WellFormed(corpus) && Fetched(corpus, chunks)
    requires p.metric == metric && p.openedIds == IdsOf(chunks)
    requires SearchesAccepted(lang, p) <==> AllAnswered(metric, topK, search)
    requires p.occurrences == f.occurrences && p.unresolved == f.unresolved && p.values == f.values
    requires Describes(lang, metric, PoolOf(corpus, Ids(chunks)), f, HitsIn(lang, metric, Prefix(chunks, |chunks|)))
    requires var wanted := Wanted(lang, corpus, metric, topK, search);
      && NoRepeats(p.candidateIds) && Elements(p.candidateIds) == wanted + Ids(chunks)
      && (limited <==> !Affordable(corpus, wanted))
      && (|wanted| <= MAX_OPENED ==> wanted * corpus.chunks.Keys <= Ids(chunks))
      && (forall i, id | 0 <= i < |p.searches| && id in p.searches[i].resultIds :: id in wanted)
    requires Elements(p.scanIds) == ScanHits(lang, corpus, metric)
    requires p.scanCompleted <==> Scanned(lang, corpus, metric) && !limited && !f.missing
    requires p.scanCompleted ==> p.scanError.None?
    ensures DeriveConclusion(lang, p)
         == Answer(lang, corpus, metric, topK, search, PoolOf(corpus, Elements(p.openedIds)))
  {
    hide Language.Valid, SearchesAccepted, AllAnswered, HitsIn, Harmless, Encloses, Roomy, NoRepeats, FoundBy;
    hide CoverageAccepted, Reviewable, ChainsOpen, Wanted;
    var wanted := Wanted(lang, corpus, metric, topK, search);
    WantedParts(lang, corpus, metric, topK, search);
    PoolOfFetched(corpus, chunks);
    var pool := PoolOf(corpus, Ids(chunks));
    assert Elements(p.openedIds) == Ids(chunks);
    if SearchesAccepted(lang, p) {
      forall id | id in p.scanIds
        ensures id in wanted && id in corpus.chunks && lang.spans(metric, corpus.chunks[id].text) != []
      {
        assert id in Elements(p.scanIds);
      }
      RecordConcludes(lang, corpus, p, chunks, f, wanted);
      assert Hits(lang, metric, pool) == HitsIn(lang, metric, Prefix(chunks, |chunks|));
      ChainsAreComplete(lang, metric, pool);
    }
  }

  lemma WantedParts(lang: Language, corpus: Corpus, metric: string, topK: nat, search: SearchIndex)
    ensures ScanHits(lang, corpus, metric) <= Wanted(lang, corpus, metric, topK, search)
    ensures Wanted(lang, corpus, metric, topK, search) <= corpus.chunks.Keys
      <==> SearchHits(metric, topK, search) <= corpus.chunks.Keys
  {
    hide FoundBy;
    assert ScanHits(lang, corpus, metric) <= corpus.chunks.Keys;
  }

  /** Search, scan, expand, analyze, record. */
  method ProbeMetricAbsence(lang: Language, corpus: Corpus, metric: string, requestedTopK: int, search: SearchIndex)
    returns (p: Probe, conclusion: Conclusion)
    requires lang.Valid() && WellFormed(corpus) && Exhaustive(lang, corpus)
    ensures p.metric == metric && conclusion == DeriveConclusion(lang, p)
    ensures |p.openedIds| <= MAX_OPENED && Elements(p.openedIds) <= corpus.chunks.Keys
    ensures p.scanCompleted ==> Closed(corpus, GetChunks(corpus, p.openedIds))
    ensures conclusion == NotFoundInProbe <==> ConclusionAgainstCorpus(lang, p, corpus) == NotFoundInProbe
    ensures forall i | 0 <= i < |p.searches| :: p.searches[i].topK == Max(8, Min(requestedTopK, 20))
    ensures Elements(p.scanIds) == ScanHits(lang, corpus, metric)
    ensures var wanted := Wanted(lang, corpus, metric, Max(8, Min(requestedTopK, 20)), search);
      && OpensWanted(corpus, wanted, p.candidateIds, p.openedIds)
      && (Affordable(corpus, wanted) ==> Closed(corpus, GetChunks(corpus, p.openedIds)))
    ensures conclusion == Answer(lang, corpus, metric, Max(8, Min(requestedTopK, 20)), search,
                                 PoolOf(corpus, Elements(p.openedIds)))
  {
    hide Language.Valid, Exhaustive, DeriveConclusion, Closed, Describes, ConclusionAgainstCorpus, PoolOf;
    hide HitsIn, Fetched, Queries, GetChunks, Encloses, Affordable, Roomy, Wanted, Answer, AllAnswered;
    hide SearchesAccepted, NoRepeats, SearchAccepted, ScanHits, Scanned, OpensWanted;
    var limit := if requestedTopK < 20 then requestedTopK else 20;
    var topK: nat := if MIN_TOP_K < limit then limit else MIN_TOP_K;
    var searches, candidateIds := RunSearches(lang, metric, topK, search);
    var scanCompleted, scanIds, scanError := ScanCorpus(lang, corpus, metric);
    ghost var wanted := Wanted(lang, corpus, metric, topK, search);
    CandidatesAreWanted(lang, corpus, metric, topK, search, candidateIds, scanIds);
    candidateIds := candidateIds + scanIds;
    var uniqueIds := Unique(candidateIds);
    UniqueElements(candidateIds);
    var tooMany := |uniqueIds| > MAX_OPENED;
    var initialIds := if tooMany then uniqueIds[..MAX_OPENED] else uniqueIds;
    var initial := GetChunks(corpus, initialIds);
    FetchFits(corpus, initialIds);
    var chunks, limited := ExpandContext(corpus, initial, tooMany);
    OpenedForWanted(corpus, wanted, uniqueIds, initial, chunks, limited);
    var candidates := Unique(uniqueIds + IdsOf(chunks));
    AllCandidates(corpus, uniqueIds, chunks);
    WantedIsOpened(corpus, wanted, uniqueIds, chunks);
    var findings := AnalyzeChunks(lang, metric, PoolOf(corpus, Ids(chunks)), chunks);
    if limited || findings.missing {
      scanCompleted := false;
      scanError := Some(if limited then "ContextExpansionLimitExceeded" else "NeighborChunkMissing");
    }
    p := Probe(VERSION, metric, searches, scanCompleted, scanIds, scanError, candidates, IdsOf(chunks),
      findings.occurrences, findings.unresolved, findings.values);
    conclusion := DeriveConclusion(lang, p);
    AcceptedIffAnswered(lang, metric, topK, search, p);
    ProbeAnswers(lang, corpus, metric, topK, search, p, chunks, findings, limited);
    AgreementHolds(lang, corpus, p, chunks, findings);
    OpenedAgain(corpus, chunks);
  }

  lemma CandidatesAreWanted(lang: Language, corpus: Corpus, metric: string, topK: nat, search: SearchIndex,
      found: seq<ChunkId>, scanned: seq<ChunkId>)
    requires Elements(found) == SearchHits(metric, topK, search)
    requires Elements(scanned) == ScanHits(lang, corpus, metric)
    ensures Elements(found + scanned) == Wanted(lang, corpus, metric, topK, search)
    ensures forall id | id in found :: id in Wanted(lang, corpus, metric, topK, search)
  {
    hide FoundBy, Holding;
    assert Elements(found + scanned) == Elements(found) + Elements(scanned);
    assert forall id | id in found :: id in Elements(found);
  }

  lemma AllCandidates(corpus: Corpus, unique: seq<ChunkId>, chunks: seq<Chunk>)
    requires Fetched(corpus, chunks) && NoRepeats(unique)
    ensures var candidates := Unique(unique + IdsOf(chunks));
      && NoRepeats(candidates) && Elements(candidates) == Elements(unique) + Ids(chunks)
      && unique <= candidates
    ensures Elements(IdsOf(chunks)) == Ids(chunks)
  {
    UniqueElements(unique + IdsOf(chunks));
    UniquePrefix(unique, IdsOf(chunks));
    PoolOfFetched(corpus, chunks);
    assert Elements(unique + IdsOf(chunks)) == Elements(unique) + Elements(IdsOf(chunks));
  }

  lemma AgreementHolds(lang: Language, corpus: Corpus, p: Probe, chunks: seq<Chunk>, f: Findings)
    requires lang.Valid() && WellFormed(corpus) && Exhaustive(lang, corpus) && Fetched(corpus, chunks)
    requires p.openedIds == IdsOf(chunks)
    requires p.occurrences == f.occurrences && p.unresolved == f.unresolved && p.values == f.values
    requires Describes(lang, p.metric, PoolOf(corpus, Ids(chunks)), f, HitsIn(lang, p.metric, Prefix(chunks, |chunks|)))
    requires Elements(p.scanIds) == ScanHits(lang, corpus, p.metric)
    requires p.scanCompleted ==> Scanned(lang, corpus, p.metric) && !f.missing
    ensures DeriveConclusion(lang, p) == NotFoundInProbe <==>
      ConclusionAgainstCorpus(lang, p, corpus) == NotFoundInProbe
  {
    hide Language.Valid, DeriveConclusion, ConclusionAgainstCorpus, HitsIn, Describes, Holding, Exhaustive;
    if p.scanCompleted {
      ScanFindsHolding(lang, corpus, p.metric);
    }
    Agreement(lang, corpus, p, chunks, f);
  }

  lemma ScanHolds(lang: Language, corpus: Corpus, metric: string)
    requires Exhaustive(lang, corpus) && corpus.scan(metric).ScanComplete?
    ensures forall c | c in corpus.scan(metric).chunks :: lang.spans(metric, c.text) != []
  {
  }

  /** Fetching the recorded ids again yields the very chunks that were opened. */
  lemma OpenedAgain(corpus: Corpus, chunks: seq<Chunk>)
    requires WellFormed(corpus) && Fetched(corpus, chunks)
    ensures GetChunks(corpus, IdsOf(chunks)) == chunks
    ensures Elements(IdsOf(chunks)) <= corpus.chunks.Keys
  {
    PoolOfFetched(corpus, chunks);
    UniqueElements(IdsOf(chunks));
    FetchAgain(corpus, chunks);
  }

  lemma {:induction false} FetchAgain(corpus: Corpus, chunks: seq<Chunk>)
    requires Fetched(corpus, chunks)
    ensures Fetch(corpus.chunks, IdsOf(chunks)) == chunks
    decreases |chunks|
  {
    if chunks != [] {
      var front, last := chunks[..|chunks| - 1], chunks[|chunks| - 1];
      assert IdsOf(chunks)[..|chunks| - 1] == IdsOf(front);
      assert last in chunks && forall c | c in front :: c in chunks;
      FetchAgain(corpus, front);
    }
  }
}
