/** The absence protocol run over a corpus whose exact scan is the narrowed full-text scan. */
module AbsenceOverIndex {
  import opened Models
  import opened Listings
  import opened MetricContext
  import P = AbsenceProtocol
  import E = ExactScan

  function RowsOf(table: seq<Chunk>): seq<E.Row> {
    seq(|table|, i requires 0 <= i < |table| => E.Row(table[i].id, table[i].text))
  }

  function ChunksOf(chunks: map<ChunkId, Chunk>, rows: seq<E.Row>): seq<Chunk>
    requires forall r | r in rows :: r.id in chunks
  {
    seq(|rows|, i requires 0 <= i < |rows| => assert rows[i] in rows; chunks[rows[i].id])
  }

  /** A chunk table without repeated ids, and the corpus that scans it through the index or fails to. */
  ghost predicate Indexed(table: seq<Chunk>, corpus: P.Corpus) {
    && (forall i, j | 0 <= i < j < |table| :: table[i].id != table[j].id)
    && (forall c :: c in table <==> c.id in corpus.chunks && corpus.chunks[c.id] == c)
    && P.WellFormed(corpus)
    && forall metric | !corpus.scan(metric).ScanFailed? ::
         match E.ScanOutcome(RowsOf(table), metric, E.MAX_VARIANTS)
         case Complete(rows, count, _) =>
           && (forall r | r in rows :: r.id in corpus.chunks)
           && corpus.scan(metric) == P.ScanComplete(ChunksOf(corpus.chunks, rows), count)
         case Ambiguous(_, _, _) => corpus.scan(metric) == P.ScanAmbiguous
         case TooBroad(_, _) => corpus.scan(metric) == P.ScanTooBroad
         case ScanFailed => false
  }

  ghost predicate ExactSpans(lang: Language) {
    forall metric, text :: lang.spans(metric, text) == E.PhraseSpans(metric, text, true)
  }

  /** Any rules that read the metric by its phrase spans and find no boundaries. */
  function PhraseLanguage(): Language {
    Language(
      (metric: string, text: string) => E.PhraseSpans(metric, text, true),
      (text: string) => [],
      (c: char) => c == ' ',
      (o: Occurrence) => [],
      (o: Occurrence) => false,
      (metric: string, sentence: string) => false,
      (o: Occurrence) => false,
      (text: string) => text,
      (query: string, metric: string, topK: nat) => query)
  }

  /** Such rules meet every assumption made of a language. */
  lemma PhraseLanguageIsValid()
    ensures PhraseLanguage().Valid() && ExactSpans(PhraseLanguage())
  {
    hide E.PhraseSpans;
    forall metric: string, text: string, k | 0 <= k < |E.PhraseSpans(metric, text, true)|
      ensures E.PhraseSpans(metric, text, true)[k].0 <= E.PhraseSpans(metric, text, true)[k].1 <= |text|
    {
      E.PhraseSpansInside(metric, text, true);
      assert E.PhraseSpans(metric, text, true)[k] in E.PhraseSpans(metric, text, true);
    }
  }

  /** The narrowed scan is exhaustive, so the protocol's guarantees hold over it. */
  lemma IndexedIsExhaustive(lang: Language, table: seq<Chunk>, corpus: P.Corpus)
    requires Indexed(table, corpus) && ExactSpans(lang)
    ensures P.Exhaustive(lang, corpus)
  {
    forall metric | corpus.scan(metric).ScanComplete?
      ensures var found := corpus.scan(metric);
        && (forall c :: c in found.chunks <==>
              c.id in corpus.chunks && corpus.chunks[c.id] == c && lang.spans(metric, c.text) != [])
        && (forall i, j | 0 <= i < j < |found.chunks| :: found.chunks[i].id != found.chunks[j].id)
        && |found.chunks| <= found.candidateCount
    {
      ScanOfIndexed(lang, table, corpus, metric);
    }
  }

  lemma ScanOfIndexed(lang: Language, table: seq<Chunk>, corpus: P.Corpus, metric: string)
    requires Indexed(table, corpus) && ExactSpans(lang) && corpus.scan(metric).ScanComplete?
    ensures var found := corpus.scan(metric);
      && (forall c :: c in found.chunks <==>
            c.id in corpus.chunks && corpus.chunks[c.id] == c && lang.spans(metric, c.text) != [])
      && (forall i, j | 0 <= i < j < |found.chunks| :: found.chunks[i].id != found.chunks[j].id)
      && |found.chunks| <= found.candidateCount
  {
    hide E.ScanOutcome, E.PhraseSpans, E.Holding;
    var rows := RowsOf(table);
    var outcome := E.ScanOutcome(rows, metric, E.MAX_VARIANTS);
    E.CompleteIsFullScan(rows, metric, E.MAX_VARIANTS);
    E.HoldingElements(rows, metric);
    var found := corpus.scan(metric).chunks;
    forall c | c in found
      ensures c.id in corpus.chunks && corpus.chunks[c.id] == c && lang.spans(metric, c.text) != []
    {
      var i :| 0 <= i < |found| && found[i] == c;
      var r := outcome.rows[i];
      assert r in outcome.rows && r in rows;
      var k :| 0 <= k < |rows| && rows[k] == r;
      assert table[k] in table && c == table[k];
    }
    forall c: Chunk | c.id in corpus.chunks && corpus.chunks[c.id] == c && lang.spans(metric, c.text) != []
      ensures c in found
    {
      assert c in table;
      var k :| 0 <= k < |table| && table[k] == c;
      assert rows[k] in rows && rows[k] in outcome.rows;
      var i :| 0 <= i < |outcome.rows| && outcome.rows[i] == rows[k];
      assert found[i] == c;
    }
    forall i, j | 0 <= i < j < |found| ensures found[i].id != found[j].id {
      assert outcome.rows[i] in rows && outcome.rows[j] in rows;
      assert found[i].id == outcome.rows[i].id && found[j].id == outcome.rows[j].id;
    }
  }

  /**
   End to end: over the indexed corpus, a not-found answer to any record means that every chunk
   holding the complete metric phrase was opened with all its links, and is harmless.
   */
  lemma NotFoundOverIndex(lang: Language, table: seq<Chunk>, corpus: P.Corpus, p: P.Probe, c: Chunk, s: Span)
    requires lang.Valid() && Indexed(table, corpus) && ExactSpans(lang)
    requires P.ConclusionAgainstCorpus(lang, p, corpus) == P.NotFoundInProbe
    requires c in table && s in E.PhraseSpans(p.metric, c.text, true)
    ensures c.id in p.openedIds
    ensures P.HarmlessOccurrence(lang, p.metric, P.PoolOf(corpus, Elements(p.openedIds)), c, s)
  {
    hide P.ConclusionAgainstCorpus, P.HarmlessOccurrence, E.PhraseSpans, P.Exhaustive, E.ScanOutcome;
    IndexedIsExhaustive(lang, table, corpus);
    P.NotFoundIsSound(lang, p, corpus, c.id, s);
  }
}
