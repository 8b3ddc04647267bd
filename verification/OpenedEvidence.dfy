/**
 What an investigation has opened: chunks resolved through neighbour links or through the pages of a
 document, counted against a chunk limit and a token limit.
 */
module OpenedEvidence {
  import opened Models
  import opened Listings
  import opened Sums

  type ChunkId = string
  type DocumentId = string

  datatype Row = Row(previous: Option<ChunkId>, next: Option<ChunkId>, document: DocumentId, page: int, tokens: int)

  datatype Page = Page(document: DocumentId, index: int, characters: nat)

  /** The chunks table with its rows in page and position order, the pages table, and the documents. */
  datatype Corpus = Corpus(
    rows: map<ChunkId, Row>,
    order: seq<ChunkId>,
    pages: seq<Page>,
    documents: set<DocumentId>)
  {
    ghost predicate Valid() {
      && NoRepeats(order)
      && (forall id :: id in order <==> id in rows)
    }
  }

  // ----- resolving neighbours -----

  function Link(value: Option<ChunkId>): seq<ChunkId> {
    if value.Some? then [value.value] else []
  }

  function Links(c: Corpus, id: ChunkId): seq<ChunkId> {
    if id in c.rows then Link(c.rows[id].previous) + Link(c.rows[id].next) else []
  }

  /** A chunk leads to the one before it and the one after it, and to nothing else. */
  lemma LinksExactly(c: Corpus, id: ChunkId, to: ChunkId)
    ensures to in Links(c, id)
      <==> id in c.rows && (c.rows[id].previous == Some(to) || c.rows[id].next == Some(to))
  {
  }

  function LinksOfAll(c: Corpus, ids: seq<ChunkId>): seq<ChunkId> {
    if ids == [] then [] else LinksOfAll(c, ids[..|ids| - 1]) + Links(c, ids[|ids| - 1])
  }

  /** The frontier of one requested chunk after some rounds of following every link. */
  function Frontier(c: Corpus, id: ChunkId, rounds: nat): seq<ChunkId> {
    if rounds == 0 then [id]
    else
      var before := Frontier(c, id, rounds - 1);
      before + LinksOfAll(c, before)
  }

  function Frontiers(c: Corpus, ids: seq<ChunkId>, rounds: nat): seq<ChunkId> {
    if ids == [] then [] else Frontiers(c, ids[..|ids| - 1], rounds) + Frontier(c, ids[|ids| - 1], rounds)
  }

  /** Reachable over at most so many links. */
  predicate Within(c: Corpus, from: ChunkId, to: ChunkId, steps: nat)
    decreases steps
  {
    || from == to
    || (steps > 0 && exists mid | mid in Links(c, from) :: Within(c, mid, to, steps - 1))
  }

  lemma {:induction false} WithinLonger(c: Corpus, from: ChunkId, to: ChunkId, steps: nat)
    requires Within(c, from, to, steps)
    ensures Within(c, from, to, steps + 1)
    decreases steps
  {
    if from != to {
      var mid :| mid in Links(c, from) && Within(c, mid, to, steps - 1);
      WithinLonger(c, mid, to, steps - 1);
    }
  }

  lemma {:induction false} WithinThen(c: Corpus, from: ChunkId, mid: ChunkId, to: ChunkId, steps: nat)
    requires Within(c, from, mid, steps) && to in Links(c, mid)
    ensures Within(c, from, to, steps + 1)
    decreases steps
  {
    if from == mid {
      assert Within(c, to, to, steps);
    } else {
      var first :| first in Links(c, from) && Within(c, first, mid, steps - 1);
      WithinThen(c, first, mid, to, steps - 1);
    }
  }

  /** A path of one more step is a shorter path or one that ends with a link. */
  lemma {:induction false} LastStep(c: Corpus, from: ChunkId, to: ChunkId, steps: nat) returns (mid: ChunkId)
    requires Within(c, from, to, steps + 1) && !Within(c, from, to, steps)
    ensures Within(c, from, mid, steps) && to in Links(c, mid)
    decreases steps
  {
    var first :| first in Links(c, from) && Within(c, first, to, steps);
    if steps == 0 {
      mid := from;
    } else {
      assert !Within(c, first, to, steps - 1);
      mid := LastStep(c, first, to, steps - 1);
    }
  }

  lemma {:induction false} LinkedFrom(c: Corpus, ids: seq<ChunkId>, id: ChunkId) returns (from: ChunkId)
    requires id in LinksOfAll(c, ids)
    ensures from in ids && id in Links(c, from)
  {
    var front, last := ids[..|ids| - 1], ids[|ids| - 1];
    if id in Links(c, last) {
      from := last;
    } else {
      from := LinkedFrom(c, front, id);
    }
  }

  lemma {:induction false} LinkIncluded(c: Corpus, ids: seq<ChunkId>, from: ChunkId, id: ChunkId)
    requires from in ids && id in Links(c, from)
    ensures id in LinksOfAll(c, ids)
  {
    hide Links;
    if ids[|ids| - 1] != from {
      LinkIncluded(c, ids[..|ids| - 1], from, id);
    }
  }

  /** What enters the frontier was there a round before, or is linked from something that was. */
  lemma FrontierStep(c: Corpus, id: ChunkId, rounds: nat, to: ChunkId) returns (from: ChunkId)
    requires rounds > 0 && to in Frontier(c, id, rounds)
    ensures from in Frontier(c, id, rounds - 1) && (from == to || to in Links(c, from))
  {
    hide LinksOfAll, Links;
    var before := Frontier(c, id, rounds - 1);
    from := to;
    if to !in before {
      from := LinkedFrom(c, before, to);
    }
  }

  lemma WithinStep(c: Corpus, id: ChunkId, from: ChunkId, to: ChunkId, steps: nat)
    requires Within(c, id, from, steps) && (from == to || to in Links(c, from))
    ensures Within(c, id, to, steps + 1)
  {
    hide *;
    if from == to {
      WithinLonger(c, id, to, steps);
    } else {
      WithinThen(c, id, from, to, steps);
    }
  }

  lemma FrontierStart(c: Corpus, id: ChunkId, to: ChunkId)
    requires to in Frontier(c, id, 0)
    ensures Within(c, id, to, 0)
  {
    hide Within;
    assert to == id;
    WithinItself(c, id);
  }

  lemma WithinItself(c: Corpus, id: ChunkId)
    ensures Within(c, id, id, 0)
  {
  }

  lemma {:induction false} FrontierWithin(c: Corpus, id: ChunkId, rounds: nat, to: ChunkId)
    requires to in Frontier(c, id, rounds)
    ensures Within(c, id, to, rounds)
    decreases rounds
  {
    hide *;
    if rounds == 0 {
      FrontierStart(c, id, to);
    } else {
      var from := FrontierStep(c, id, rounds, to);
      FrontierWithin(c, id, rounds - 1, from);
      WithinStep(c, id, from, to, rounds - 1);
    }
  }

  lemma {:induction false} FrontierCovers(c: Corpus, id: ChunkId, rounds: nat, to: ChunkId)
    requires Within(c, id, to, rounds)
    ensures to in Frontier(c, id, rounds)
    decreases rounds
  {
    if rounds > 0 {
      hide Within, Links, LinksOfAll;
      if Within(c, id, to, rounds - 1) {
        FrontierCovers(c, id, rounds - 1, to);
      } else {
        var mid := LastStep(c, id, to, rounds - 1);
        FrontierCovers(c, id, rounds - 1, mid);
        LinkIncluded(c, Frontier(c, id, rounds - 1), mid, to);
      }
    }
  }

  /** The frontier is the neighbourhood of that radius, on any link graph. */
  lemma FrontierIsNeighbourhood(c: Corpus, id: ChunkId, rounds: nat, to: ChunkId)
    ensures to in Frontier(c, id, rounds) <==> Within(c, id, to, rounds)
  {
    hide Within, Frontier;
    if to in Frontier(c, id, rounds) {
      FrontierWithin(c, id, rounds, to);
    }
    if Within(c, id, to, rounds) {
      FrontierCovers(c, id, rounds, to);
    }
  }

  function Resolved(c: Corpus, ids: seq<ChunkId>, radius: nat): seq<ChunkId> {
    Unique(Frontiers(c, ids, radius))
  }

  /** Resolving lists, once each, exactly the chunks within the radius of a requested one. */
  lemma ResolvedExactly(c: Corpus, ids: seq<ChunkId>, radius: nat)
    ensures NoRepeats(Resolved(c, ids, radius))
    ensures forall to :: to in Resolved(c, ids, radius) <==> exists id :: id in ids && Within(c, id, to, radius)
  {
    hide Within, Unique, Frontiers;
    UniqueElements(Frontiers(c, ids, radius));
    forall to ensures to in Frontiers(c, ids, radius) <==> exists id :: id in ids && Within(c, id, to, radius) {
      FrontiersExactly(c, ids, radius, to);
    }
  }

  lemma {:induction false} FrontiersExactly(c: Corpus, ids: seq<ChunkId>, radius: nat, to: ChunkId)
    ensures to in Frontiers(c, ids, radius) <==> exists id :: id in ids && Within(c, id, to, radius)
  {
    hide Within, Frontier;
    if ids != [] {
      var front, last := ids[..|ids| - 1], ids[|ids| - 1];
      FrontiersExactly(c, front, radius, to);
      FrontierIsNeighbourhood(c, last, radius, to);
      assert ids == front + [last];
    }
  }

  method NextFrontier(c: Corpus, frontier: seq<ChunkId>) returns (next: seq<ChunkId>)
    ensures next == LinksOfAll(c, frontier)
  {
    next := [];
    for i := 0 to |frontier|
      invariant next == LinksOfAll(c, frontier[..i])
    {
      assert frontier[..i + 1][..i] == frontier[..i];
      var current := frontier[i];
      if current in c.rows {
        var row := c.rows[current];
        if row.previous.Some? {
          next := next + [row.previous.value];
        }
        if row.next.Some? {
          next := next + [row.next.value];
        }
      }
    }
    assert frontier[..|frontier|] == frontier;
  }

  method ResolveChunkIds(c: Corpus, ids: seq<ChunkId>, radius: nat) returns (wanted: seq<ChunkId>)
    ensures wanted == Resolved(c, ids, radius)
  {
    hide Links, LinksOfAll, Unique;
    wanted := [];
    EmptyUnique();
    var seen: set<ChunkId> := {};
    for i := 0 to |ids|
      invariant wanted == Unique(Frontiers(c, ids[..i], radius))
      invariant forall id :: id in seen <==> id in Frontiers(c, ids[..i], radius)
    {
      assert ids[..i + 1][..i] == ids[..i];
      ghost var before := Frontiers(c, ids[..i], radius);
      var frontier := [ids[i]];
      for round := 0 to radius
        invariant frontier == Frontier(c, ids[i], round)
      {
        var next := NextFrontier(c, frontier);
        frontier := frontier + next;
      }
      wanted, seen := AddUnseen(wanted, seen, frontier, before);
    }
    assert ids[..|ids|] == ids;
  }

  lemma EmptyUnique()
    ensures Unique<ChunkId>([]) == []
  {
  }

  method AddUnseen(wanted: seq<ChunkId>, seen: set<ChunkId>, frontier: seq<ChunkId>, ghost before: seq<ChunkId>)
    returns (wanted': seq<ChunkId>, seen': set<ChunkId>)
    requires wanted == Unique(before) && forall id :: id in seen <==> id in before
    ensures wanted' == Unique(before + frontier) && forall id :: id in seen' <==> id in before + frontier
  {
    wanted', seen' := wanted, seen;
    assert before + frontier[..0] == before;
    for k := 0 to |frontier|
      invariant wanted' == Unique(before + frontier[..k])
      invariant forall id :: id in seen' <==> id in before + frontier[..k]
    {
      UniqueAppend(before + frontier[..k], frontier[k]);
      assert before + frontier[..k + 1] == (before + frontier[..k]) + [frontier[k]];
      if frontier[k] !in seen' {
        seen' := seen' + {frontier[k]};
        wanted' := wanted' + [frontier[k]];
      }
    }
    assert before + frontier[..|frontier|] == before + frontier;
  }

  // ----- counting tokens -----

  function Tokens(c: Corpus, ids: set<ChunkId>): map<ChunkId, int> {
    map id | id in ids && id in c.rows :: c.rows[id].tokens
  }

  /** The token estimates of the distinct existing chunks among some ids. */
  ghost function OpenedTokens(c: Corpus, ids: set<ChunkId>): int {
    Sum(Tokens(c, ids))
  }

  lemma OneMore(c: Corpus, ids: set<ChunkId>, id: ChunkId)
    requires id !in ids
    ensures OpenedTokens(c, ids + {id}) == OpenedTokens(c, ids) + if id in c.rows then c.rows[id].tokens else 0
  {
    if id in c.rows {
      With(Tokens(c, ids), id, c.rows[id].tokens);
      assert Tokens(c, ids + {id}) == Tokens(c, ids)[id := c.rows[id].tokens];
    } else {
      assert Tokens(c, ids + {id}) == Tokens(c, ids);
    }
  }

  /** Adds the estimates of the chunks that are new; ids without a chunk add nothing. */
  method CountNew(c: Corpus, openedIds: set<ChunkId>, openedTokens: int, ids: seq<ChunkId>) returns (tokens: int)
    requires NoRepeats(ids) && openedTokens == OpenedTokens(c, openedIds)
    ensures tokens == OpenedTokens(c, openedIds + Elements(ids))
  {
    hide OpenedTokens;
    tokens := openedTokens;
    assert openedIds + Elements(ids[..0]) == openedIds;
    for i := 0 to |ids|
      invariant tokens == OpenedTokens(c, openedIds + Elements(ids[..i]))
    {
      var id := ids[i];
      assert Elements(ids[..i + 1]) == Elements(ids[..i]) + {id};
      if id in openedIds {
        assert openedIds + Elements(ids[..i + 1]) == openedIds + Elements(ids[..i]);
      } else {
        assert id !in ids[..i];
        OneMore(c, openedIds + Elements(ids[..i]), id);
        assert openedIds + Elements(ids[..i + 1]) == openedIds + Elements(ids[..i]) + {id};
        if id in c.rows {
          tokens := tokens + c.rows[id].tokens;
        }
      }
    }
    assert ids[..|ids|] == ids;
  }

  method GetChunks(c: Corpus, ids: seq<ChunkId>) returns (chunks: seq<Row>)
    ensures chunks == Fetch(c.rows, ids)
  {
    chunks := [];
    for i := 0 to |ids|
      invariant chunks == Fetch(c.rows, ids[..i])
    {
      assert ids[..i + 1][..i] == ids[..i];
      if ids[i] in c.rows {
        chunks := chunks + [c.rows[ids[i]]];
      }
    }
    assert ids[..|ids|] == ids;
  }

  // ----- documents -----

  predicate OnPages(c: Corpus, id: ChunkId, document: DocumentId, first: int, last: int) {
    id in c.rows && c.rows[id].document == document && first <= c.rows[id].page <= last
  }

  /** The chunks of a page range, in page and position order. */
  function DocumentChunkIds(c: Corpus, order: seq<ChunkId>, document: DocumentId, first: int, last: int): seq<ChunkId> {
    if order == [] then []
    else
      var before := DocumentChunkIds(c, order[..|order| - 1], document, first, last);
      if OnPages(c, order[|order| - 1], document, first, last) then before + [order[|order| - 1]] else before
  }

  lemma {:induction false} DocumentChunksExactly(c: Corpus, order: seq<ChunkId>, document: DocumentId,
      first: int, last: int)
    requires NoRepeats(order)
    ensures var ids := DocumentChunkIds(c, order, document, first, last);
      NoRepeats(ids) && forall id :: id in ids <==> id in order && OnPages(c, id, document, first, last)
  {
    if order != [] {
      DocumentChunksExactly(c, order[..|order| - 1], document, first, last);
      assert order == order[..|order| - 1] + [order[|order| - 1]];
    }
  }

  function PagesIn(pages: seq<Page>, document: DocumentId, first: int, last: int): seq<Page> {
    if pages == [] then []
    else
      var p := pages[|pages| - 1];
      var before := PagesIn(pages[..|pages| - 1], document, first, last);
      if p.document == document && first <= p.index <= last then before + [p] else before
  }

  function Characters(pages: seq<Page>): nat {
    if pages == [] then 0 else Characters(pages[..|pages| - 1]) + pages[|pages| - 1].characters
  }

  // ----- the context of one investigation -----

  datatype Outcome =
    | Read(chunks: seq<Row>)
    | ToolLimit
    | InspectionLimit
    | BadRange
    | TooManyPages
    | UnknownDocument
    | TooManyChunks
    | TooManyCharacters
    | TooManyTokens

  datatype Limits = Limits(toolCalls: nat, openedChunks: nat, openedTokens: nat, inspections: nat,
                           inspectionPages: int, inspectionCharacters: nat)

  class InvestigationContext {
    const corpus: Corpus
    const limits: Limits
    var toolCalls: nat
    var openedChunkIds: set<ChunkId>
    var openedTokens: int
    var openedPages: set<(DocumentId, int)>
    var documentInspections: nat

    /** Every opened chunk is counted once, and no limit is passed. */
    ghost predicate Valid()
      reads this
    {
      && corpus.Valid()
      && openedTokens == OpenedTokens(corpus, openedChunkIds)
      && |openedChunkIds| <= limits.openedChunks
      && openedTokens <= limits.openedTokens
      && toolCalls <= limits.toolCalls
      && documentInspections <= limits.inspections
    }

    ghost predicate Fits(ids: set<ChunkId>)
      reads this
    {
      |openedChunkIds + ids| <= limits.openedChunks
      && OpenedTokens(corpus, openedChunkIds + ids) <= limits.openedTokens
    }

    constructor (corpus: Corpus, limits: Limits)
      requires corpus.Valid()
      ensures Valid() && openedChunkIds == {} && openedPages == {} && toolCalls == 0 && documentInspections == 0
      ensures this.corpus == corpus && this.limits == limits
    {
      this.corpus := corpus;
      this.limits := limits;
      toolCalls := 0;
      openedChunkIds := {};
      openedTokens := 0;
      openedPages := {};
      documentInspections := 0;
      assert Tokens(corpus, {}) == map[];
    }

    method UseTool() returns (ok: bool)
      requires Valid()
      modifies this`toolCalls
      ensures Valid()
      ensures ok == (old(toolCalls) < limits.toolCalls)
      ensures toolCalls == if ok then old(toolCalls) + 1 else old(toolCalls)
    {
      ok := toolCalls < limits.toolCalls;
      if ok {
        toolCalls := toolCalls + 1;
      }
    }

    /** Opens all of some chunks, or none when a limit would be passed. */
    method Open(ids: seq<ChunkId>) returns (outcome: Outcome)
      requires Valid() && NoRepeats(ids)
      modifies this`openedChunkIds, this`openedTokens
      ensures Valid()
      ensures outcome.Read? <==> old(Fits(Elements(ids)))
      ensures outcome.Read? ==>
        outcome.chunks == Fetch(corpus.rows, ids) && openedChunkIds == old(openedChunkIds) + Elements(ids)
      ensures !outcome.Read? ==>
        && openedChunkIds == old(openedChunkIds)
        && openedTokens == old(openedTokens)
        && outcome == if |openedChunkIds + Elements(ids)| > limits.openedChunks then TooManyChunks else TooManyTokens
    {
      var prospective := openedChunkIds + Elements(ids);
      if |prospective| > limits.openedChunks {
        return TooManyChunks;
      }
      var prospectiveTokens := CountNew(corpus, openedChunkIds, openedTokens, ids);
      if prospectiveTokens > limits.openedTokens {
        return TooManyTokens;
      }
      openedChunkIds := prospective;
      openedTokens := prospectiveTokens;
      var chunks := GetChunks(corpus, ids);
      return Read(chunks);
    }

    /** Reading succeeds exactly when a tool call is left and everything within the radius fits both limits. */
    method ReadChunks(ids: seq<ChunkId>, radius: nat) returns (outcome: Outcome)
      requires Valid()
      modifies this`toolCalls, this`openedChunkIds, this`openedTokens
      ensures Valid()
      ensures outcome.Read? <==>
        old(toolCalls) < limits.toolCalls && old(Fits(Elements(Resolved(corpus, ids, radius))))
      ensures outcome.Read? ==>
        && outcome.chunks == Fetch(corpus.rows, Resolved(corpus, ids, radius))
        && openedChunkIds == old(openedChunkIds) + Elements(Resolved(corpus, ids, radius))
      ensures !outcome.Read? ==> openedChunkIds == old(openedChunkIds) && openedTokens == old(openedTokens)
      ensures !outcome.Read? ==>
        outcome == if old(toolCalls) >= limits.toolCalls then ToolLimit
                   else if |old(openedChunkIds) + Elements(Resolved(corpus, ids, radius))| > limits.openedChunks
                   then TooManyChunks else TooManyTokens
      ensures toolCalls == if old(toolCalls) < limits.toolCalls then old(toolCalls) + 1 else old(toolCalls)
    {
      hide Resolved, OpenedTokens, NoRepeats;
      var ok := UseTool();
      if !ok {
        return ToolLimit;
      }
      var resolved := ResolveChunkIds(corpus, ids, radius);
      ResolvedExactly(corpus, ids, radius);
      outcome := Open(resolved);
    }

    /** A missing or zero page number takes its default. */
    function FirstPage(pageFrom: Option<int>): int {
      if pageFrom.None? || pageFrom.value == 0 then 1 else pageFrom.value
    }

    function LastPage(pageFrom: Option<int>, pageTo: Option<int>): int {
      if pageTo.None? || pageTo.value == 0 then FirstPage(pageFrom) + limits.inspectionPages - 1 else pageTo.value
    }

    function Inspected(document: DocumentId, first: int, last: int): seq<ChunkId> {
      DocumentChunkIds(corpus, corpus.order, document, first, last)
    }

    /** The page range asked for is valid, short enough, of a known document, and not too long to show. */
    predicate Showable(document: DocumentId, first: int, last: int) {
      && 1 <= first <= last
      && last - first + 1 <= limits.inspectionPages
      && document in corpus.documents
      && Characters(PagesIn(corpus.pages, document, first, last)) <= limits.inspectionCharacters
    }

    /**
     An inspection spends a tool call and an inspection even when it is refused later; it opens its
     chunks and pages exactly when the range is showable and its chunks fit both limits.
     */
    method InspectDocument(document: DocumentId, pageFrom: Option<int>, pageTo: Option<int>) returns (outcome: Outcome)
      requires Valid()
      modifies this
      ensures Valid()
      ensures
        var first, last := FirstPage(pageFrom), LastPage(pageFrom, pageTo);
        var allowed := old(toolCalls) < limits.toolCalls;
        var begun := allowed && old(documentInspections) < limits.inspections;
        var ids := Inspected(document, first, last);
        && toolCalls == (if allowed then old(toolCalls) + 1 else old(toolCalls))
        && documentInspections == (if begun then old(documentInspections) + 1 else old(documentInspections))
        && (outcome.Read? <==> begun && Showable(document, first, last) && old(Fits(Elements(ids))))
        && (outcome.Read? ==>
              && outcome.chunks == Fetch(corpus.rows, ids)
              && openedChunkIds == old(openedChunkIds) + Elements(ids)
              && openedPages == old(openedPages) + PageKeys(PagesIn(corpus.pages, document, first, last)))
      ensures !outcome.Read? ==>
        openedChunkIds == old(openedChunkIds) && openedTokens == old(openedTokens) && openedPages == old(openedPages)
      ensures !outcome.Read? ==>
        var first, last := FirstPage(pageFrom), LastPage(pageFrom, pageTo);
        outcome == if old(toolCalls) >= limits.toolCalls then ToolLimit
                   else if old(documentInspections) >= limits.inspections then InspectionLimit
                   else if first < 1 || last < first then BadRange
                   else if last - first + 1 > limits.inspectionPages then TooManyPages
                   else if |openedChunkIds + Elements(Inspected(document, first, last))| > limits.openedChunks
                   then TooManyChunks
                   else if document !in corpus.documents then UnknownDocument
                   else if Characters(PagesIn(corpus.pages, document, first, last)) > limits.inspectionCharacters
                   then TooManyCharacters
                   else TooManyTokens
    {
      hide OpenedTokens, DocumentChunkIds, PagesIn, Characters, NoRepeats, PageKeys, Elements;
      var ok := UseTool();
      if !ok {
        return ToolLimit;
      }
      if documentInspections >= limits.inspections {
        return InspectionLimit;
      }
      documentInspections := documentInspections + 1;
      var first, last := FirstPage(pageFrom), LastPage(pageFrom, pageTo);
      if first < 1 || last < first {
        return BadRange;
      }
      if last - first + 1 > limits.inspectionPages {
        return TooManyPages;
      }
      var ids := Inspected(document, first, last);
      DocumentChunksExactly(corpus, corpus.order, document, first, last);
      if |openedChunkIds + Elements(ids)| > limits.openedChunks {
        return TooManyChunks;
      }
      if document !in corpus.documents {
        return UnknownDocument;
      }
      var pages := PagesIn(corpus.pages, document, first, last);
      if Characters(pages) > limits.inspectionCharacters {
        return TooManyCharacters;
      }
      outcome := Open(ids);
      if outcome.Read? {
        openedPages := openedPages + PageKeys(pages);
      }
    }
  }

  function PageKeys(pages: seq<Page>): set<(DocumentId, int)> {
    set p | p in pages :: (p.document, p.index)
  }
}
