/** Exactly which records the checker authorizes, against the corpus they are checked with. */
module AbsenceAuthority {
  import opened Models
  import opened Listings
  import opened MetricContext
  import opened AbsenceProtocol
  import opened AbsenceProducer

  /** The record agrees with the corpus: what was scanned, what was opened, and what stands in it. */
  ghost predicate Agrees(lang: Language, p: Probe, corpus: Corpus)
    requires lang.Valid()
  {
    var pool := PoolOf(corpus, Elements(p.openedIds));
    && corpus.scan(p.metric).ScanComplete?
    && Elements(p.scanIds) == Holding(lang, corpus, p.metric)
    && Elements(p.openedIds) <= corpus.chunks.Keys
    && ChainsOpen(lang, p.metric, pool)
    && Elements(p.occurrences) == Displays(lang, pool, Hits(lang, p.metric, pool))
  }

  /**
   A record that supports not-found by itself is authorized if and only if it agrees with the corpus
   and every occurrence is benign in its whole context; it needs review if and only if it agrees and
   one is not; it is incomplete otherwise. Any other record keeps its own conclusion.
   */
  lemma AuthorizedExactly(lang: Language, p: Probe, corpus: Corpus)
    requires lang.Valid() && WellFormed(corpus) && Exhaustive(lang, corpus)
    ensures var own, answer := DeriveConclusion(lang, p), ConclusionAgainstCorpus(lang, p, corpus);
      var pool := PoolOf(corpus, Elements(p.openedIds));
      var benign := AllBenign(lang, p.metric, pool, Hits(lang, p.metric, pool));
      && (own != NotFoundInProbe ==> answer == own)
      && (own == NotFoundInProbe ==>
            && (answer == NotFoundInProbe <==> Agrees(lang, p, corpus) && benign)
            && (answer == RequiresReview <==> Agrees(lang, p, corpus) && !benign)
            && (answer == IncompleteProbe <==> !Agrees(lang, p, corpus)))
  {
    hide Language.Valid, At, Language.Analyze, DeriveConclusion, Exhaustive, HitsIn, ChainsOpen, Holding;
    var pool := PoolOf(corpus, Elements(p.openedIds));
    ScanAgreesExactly(lang, p, corpus);
    PoolIsOpened(corpus, Elements(p.openedIds));
    ChainsAreComplete(lang, p.metric, pool);
  }

  /**
   A probe whose searches all answer, without repeats and with chunks that exist, whose scan completes,
   whose wishes and their links fit the budget, and whose chains are all finite and opened, settles the
   matter: not found if every occurrence is benign, in its whole context and as shown, and for review if
   one is not.
   */
  lemma CompleteProbesAnswer(lang: Language, corpus: Corpus, metric: string, topK: nat, search: SearchIndex,
      pool: Opened, ids: set<ChunkId>)
    requires lang.Valid() && Keyed(pool)
    requires forall query | query in Queries(metric) ::
      && search(query, topK).Some? && NoRepeats(search(query, topK).value)
      && Elements(search(query, topK).value) <= corpus.chunks.Keys
    requires lang.key(metric) != "" && corpus.scan(metric).ScanComplete?
    requires |Wanted(lang, corpus, metric, topK, search)| <= 50 && |ids| <= 50
    requires Encloses(corpus, ids, Wanted(lang, corpus, metric, topK, search))
    requires forall c, s | c in pool.Values && s in lang.spans(metric, c.text) ::
      s.0 <= |c.text| && ForwardChain(pool, c) && BackChain(lang, pool, c, s.0)
    ensures Answer(lang, corpus, metric, topK, search, pool)
         == if forall h | h in Hits(lang, metric, pool) ::
              && lang.Analyze(metric, At(lang, pool, h).proof) == Benign
              && !Reviewable(lang, metric, At(lang, pool, h).display)
            then NotFoundInProbe else RequiresReview
  {
    hide Language.Valid, At, Language.Analyze, Encloses, ForwardChain, BackChain, Wanted, Reviewable, Queries;
    assert forall i | 0 <= i < |Queries(metric)| :: Queries(metric)[i] in Queries(metric);
    assert forall id | id in SearchHits(metric, topK, search) :: id in corpus.chunks.Keys;
    assert Roomy(corpus, Wanted(lang, corpus, metric, topK, search));
  }

  /** Opened chunks are closed when the chunk before and the chunk after each is opened or does not exist. */
  lemma ClosedExactly(corpus: Corpus, chunks: seq<Chunk>)
    ensures Closed(corpus, chunks) <==>
      forall c | c in chunks ::
        && (c.previous.Some? ==> c.previous.value in Ids(chunks) || c.previous.value !in corpus.chunks)
        && (c.next.Some? ==> c.next.value in Ids(chunks) || c.next.value !in corpus.chunks)
  {
    forall c | c in chunks
      ensures c.previous.Some? ==> c.previous.value in Links(c)
      ensures c.next.Some? ==> c.next.value in Links(c)
      ensures forall id | id in Links(c) :: c.previous == Some(id) || c.next == Some(id)
    {
    }
  }

  lemma ScanAgreesExactly(lang: Language, p: Probe, corpus: Corpus)
    requires WellFormed(corpus) && Exhaustive(lang, corpus)
    ensures ScanAgrees(p, corpus.scan(p.metric))
      <==> corpus.scan(p.metric).ScanComplete? && Elements(p.scanIds) == Holding(lang, corpus, p.metric)
  {
    hide Holding;
    if corpus.scan(p.metric).ScanComplete? {
      ScanFindsHolding(lang, corpus, p.metric);
    }
  }

  lemma PoolIsOpened(corpus: Corpus, ids: set<ChunkId>)
    requires WellFormed(corpus)
    ensures PoolOf(corpus, ids).Keys == ids <==> ids <= corpus.chunks.Keys
    ensures Keyed(PoolOf(corpus, ids))
  {
  }
}
