/**
 The source context of one metric occurrence: a walk over the links of the opened chunks,
 back to the last sentence boundary and forward to the end of the document.
 */
module MetricContext {
  import opened Models

  type ChunkId = string
  type Span = (nat, nat)

  datatype Chunk = Chunk(id: ChunkId, text: string, previous: Option<ChunkId>, next: Option<ChunkId>)

  datatype Occurrence = Occurrence(chunkId: ChunkId, sentence: string, span: Span)

  datatype Reason = NumericCandidate | QualitativePredicate | UnresolvedPredicate

  datatype Analysis = Benign | EvidenceCandidate(reasons: seq<Reason>) | Unknown

  /** The text rules of the service, taken as arbitrary deterministic functions. */
  datatype Language = Language(
    spans: (string, string) -> seq<Span>,
    boundaries: string -> seq<Span>,
    space: char -> bool,
    numbers: Occurrence -> seq<string>,
    qualitative: Occurrence -> bool,
    unresolved: (string, string) -> bool,
    benign: Occurrence -> bool,
    key: string -> string,
    signature: (string, string, nat) -> string)
  {
    /** Spans and boundaries lie inside the text they were found in; a blank is white space. */
    ghost predicate Valid() {
      && (forall metric, text, k | 0 <= k < |spans(metric, text)| ::
            spans(metric, text)[k].0 <= spans(metric, text)[k].1 <= |text|)
      && (forall text, k | 0 <= k < |boundaries(text)| :: boundaries(text)[k].1 <= |text|)
      && space(' ')
    }

    /** What follows the last boundary of a text, the whole text if it has none. */
    function Tail(text: string): string
      requires Valid()
    {
      var b := boundaries(text);
      if b == [] then text else text[b[|b| - 1].1..]
    }

    function Join(left: string, right: string): string {
      if left == "" then right
      else if right == "" then left
      else if space(left[|left| - 1]) || space(right[0]) then left + right
      else left + " " + right
    }

    function Analyze(metric: string, proof: Occurrence): Analysis {
      var reasons := (if numbers(proof) != [] then [NumericCandidate] else [])
                   + (if qualitative(proof) then [QualitativePredicate] else [])
                   + (if unresolved(metric, proof.sentence) then [UnresolvedPredicate] else []);
      if reasons != [] then EvidenceCandidate(reasons)
      else if benign(proof) then Benign
      else Unknown
    }
  }

  type Opened = map<ChunkId, Chunk>

  ghost predicate Keyed(pool: Opened) {
    forall id | id in pool :: pool[id].id == id
  }

  // ----- the two walks -----

  function WalkBack(lang: Language, pool: Opened, from: Option<ChunkId>, visited: set<ChunkId>,
      before: string): (string, bool)
    requires lang.Valid()
    decreases pool.Keys - visited
  {
    match from
    case None => (before, true)
    case Some(id) =>
      if id in visited || id !in pool then (before, false)
      else
        var longer := lang.Join(lang.Tail(pool[id].text), before);
        if lang.boundaries(pool[id].text) != [] then (longer, true)
        else WalkBack(lang, pool, pool[id].previous, visited + {id}, longer)
  }

  function WalkForward(lang: Language, pool: Opened, from: Option<ChunkId>, visited: set<ChunkId>,
      after: string): (string, bool)
    decreases pool.Keys - visited
  {
    match from
    case None => (after, true)
    case Some(id) =>
      if id in visited || id !in pool then (after, false)
      else WalkForward(lang, pool, pool[id].next, visited + {id}, lang.Join(after, pool[id].text))
  }

  function Before(lang: Language, pool: Opened, chunk: Chunk, start: nat): (string, bool)
    requires lang.Valid() && start <= |chunk.text|
  {
    var before := chunk.text[..start];
    if lang.boundaries(before) != [] then (lang.Tail(before), true)
    else WalkBack(lang, pool, chunk.previous, {chunk.id}, before)
  }

  function AfterText(lang: Language, pool: Opened, chunk: Chunk, end: nat): (string, bool)
    requires end <= |chunk.text|
  {
    WalkForward(lang, pool, chunk.next, {chunk.id}, chunk.text[end..])
  }

  datatype Context = Context(display: Occurrence, proof: Occurrence, complete: bool)

  const DISPLAY_CHARACTERS: nat := 384

  function ContextOf(lang: Language, pool: Opened, chunk: Chunk, span: Span): Context
    requires lang.Valid() && span.0 <= span.1 <= |chunk.text|
  {
    var (before, backComplete) := Before(lang, pool, chunk, span.0);
    var (after, forwardComplete) := AfterText(lang, pool, chunk, span.1);
    var metric := chunk.text[span.0..span.1];
    var head := lang.Join(before, metric);
    var sentence := lang.Join(head, after);
    var end := |head|;
    var start := if |metric| <= end then end - |metric| else 0;
    var from := if start <= DISPLAY_CHARACTERS then 0 else start - DISPLAY_CHARACTERS;
    var to := if |sentence| <= end + DISPLAY_CHARACTERS then |sentence| else end + DISPLAY_CHARACTERS;
    Context(
      Occurrence(chunk.id, if from <= to then sentence[from..to] else "", (start - from, end - from)),
      Occurrence(chunk.id, sentence, (start, end)),
      backComplete && forwardComplete)
  }

  method WalkPrevious(lang: Language, chunk: Chunk, pool: Opened, start: nat)
    returns (before: string, complete: bool)
    requires lang.Valid() && start <= |chunk.text|
    ensures (before, complete) == Before(lang, pool, chunk, start)
  {
    hide Language.Valid, Language.Join, Language.Tail;
    before, complete := chunk.text[..start], true;
    if lang.boundaries(before) != [] {
      before := lang.Tail(before);
      return;
    }
    var previous := chunk.previous;
    var visited := {chunk.id};
    while previous.Some?
      invariant complete ==> WalkBack(lang, pool, previous, visited, before) == Before(lang, pool, chunk, start)
      invariant !complete ==> previous.None? && (before, false) == Before(lang, pool, chunk, start)
      decreases previous.Some?, pool.Keys - visited
    {
      var id := previous.value;
      if id in visited || id !in pool {
        complete := false;
        previous := None;
      } else {
        visited := visited + {id};
        before := lang.Join(lang.Tail(pool[id].text), before);
        previous := if lang.boundaries(pool[id].text) != [] then None else pool[id].previous;
      }
    }
  }

  method WalkFollowing(lang: Language, chunk: Chunk, pool: Opened, end: nat)
    returns (after: string, complete: bool)
    requires end <= |chunk.text|
    ensures (after, complete) == AfterText(lang, pool, chunk, end)
  {
    hide Language.Join;
    after, complete := chunk.text[end..], true;
    var following := chunk.next;
    var visited := {chunk.id};
    while following.Some?
      invariant complete ==> WalkForward(lang, pool, following, visited, after) == AfterText(lang, pool, chunk, end)
      invariant !complete ==> following.None? && (after, false) == AfterText(lang, pool, chunk, end)
      decreases following.Some?, pool.Keys - visited
    {
      var id := following.value;
      if id in visited || id !in pool {
        complete := false;
        following := None;
      } else {
        visited := visited + {id};
        after := lang.Join(after, pool[id].text);
        following := pool[id].next;
      }
    }
  }

  /** The imperative walk over the opened chunks computes exactly that context. */
  method MetricOccurrenceWithOpenNeighbors(lang: Language, chunk: Chunk, pool: Opened, span: Span)
    returns (context: Context)
    requires lang.Valid() && span.0 <= span.1 <= |chunk.text|
    ensures context == ContextOf(lang, pool, chunk, span)
  {
    hide Language.Valid, Before, AfterText, Language.Join, Language.Tail;
    var before, backComplete := WalkPrevious(lang, chunk, pool, span.0);
    var after, forwardComplete := WalkFollowing(lang, chunk, pool, span.1);
    var metric := chunk.text[span.0..span.1];
    JoinKeepsEnds(lang, before, metric);
    var sentence := lang.Join(before, metric);
    var end := |sentence|;
    var start := end - |metric|;
    JoinKeepsEnds(lang, sentence, after);
    sentence := lang.Join(sentence, after);
    var from := if start - DISPLAY_CHARACTERS > 0 then start - DISPLAY_CHARACTERS else 0;
    var to := if |sentence| < end + DISPLAY_CHARACTERS then |sentence| else end + DISPLAY_CHARACTERS;
    context := Context(
      Occurrence(chunk.id, sentence[from..to], (start - from, end - from)),
      Occurrence(chunk.id, sentence, (start, end)),
      backComplete && forwardComplete);
  }

  // ----- spans select the metric -----

  lemma JoinKeepsEnds(lang: Language, left: string, right: string)
    ensures left <= lang.Join(left, right)
    ensures |right| <= |lang.Join(left, right)|
    ensures lang.Join(left, right)[|lang.Join(left, right)| - |right|..] == right
  {
  }

  lemma ProofSelects(lang: Language, pool: Opened, chunk: Chunk, span: Span)
    requires lang.Valid() && span.0 <= span.1 <= |chunk.text|
    ensures var proof := ContextOf(lang, pool, chunk, span).proof;
      && proof.span.0 <= proof.span.1 <= |proof.sentence|
      && proof.sentence[proof.span.0..proof.span.1] == chunk.text[span.0..span.1]
  {
    hide Language.Valid, Before, AfterText, Language.Join, Language.Tail;
    var metric := chunk.text[span.0..span.1];
    var head := lang.Join(Before(lang, pool, chunk, span.0).0, metric);
    var after := AfterText(lang, pool, chunk, span.1).0;
    JoinKeepsEnds(lang, Before(lang, pool, chunk, span.0).0, metric);
    JoinKeepsEnds(lang, head, after);
    PrefixSlice(head, lang.Join(head, after), |head| - |metric|);
  }

  /** The display is a window of the proof sentence around the same span. */
  lemma DisplayIsWindow(lang: Language, pool: Opened, chunk: Chunk, span: Span)
    requires lang.Valid() && span.0 <= span.1 <= |chunk.text|
    ensures var c := ContextOf(lang, pool, chunk, span);
      && c.proof.span.0 <= c.proof.span.1 <= |c.proof.sentence|
      && var from := Max(c.proof.span.0 - DISPLAY_CHARACTERS, 0);
      && var to := from + |c.display.sentence|;
      && c.proof.span.1 <= to && to == Min(|c.proof.sentence|, c.proof.span.1 + DISPLAY_CHARACTERS)
      && c.display.sentence == c.proof.sentence[from..to]
      && c.display.span == (c.proof.span.0 - from, c.proof.span.1 - from)
  {
    hide Language.Valid, Before, AfterText, Language.Join, Language.Tail;
    ProofSelects(lang, pool, chunk, span);
  }

  /** Both the proof span and the bounded display span select the metric text, whatever the links. */
  lemma SpansSelectMetric(lang: Language, pool: Opened, chunk: Chunk, span: Span)
    requires lang.Valid() && span.0 <= span.1 <= |chunk.text|
    ensures var c, metric := ContextOf(lang, pool, chunk, span), chunk.text[span.0..span.1];
      && c.proof.span.0 <= c.proof.span.1 <= |c.proof.sentence|
      && c.proof.sentence[c.proof.span.0..c.proof.span.1] == metric
      && c.display.span.0 <= c.display.span.1 <= |c.display.sentence|
      && c.display.sentence[c.display.span.0..c.display.span.1] == metric
      && |c.display.sentence| <= |metric| + 2 * DISPLAY_CHARACTERS
  {
    hide Language.Valid, ContextOf;
    ProofSelects(lang, pool, chunk, span);
    DisplayIsWindow(lang, pool, chunk, span);
    var c := ContextOf(lang, pool, chunk, span);
    var from := Max(c.proof.span.0 - DISPLAY_CHARACTERS, 0);
    WindowSelects(c.proof.sentence, c.proof.span.0, c.proof.span.1, from, from + |c.display.sentence|);
  }

  lemma PrefixSlice(head: string, text: string, start: nat)
    requires head <= text && start <= |head|
    ensures text[start..|head|] == head[start..]
  {
    assert head == text[..|head|];
  }

  lemma WindowSelects(text: string, start: nat, end: nat, from: nat, to: nat)
    requires from <= start <= end <= to <= |text|
    ensures text[from..to][start - from..end - from] == text[start..end]
  {
    var inner := text[from..to][start - from..end - from];
    assert forall k | 0 <= k < |inner| :: inner[k] == text[start + k] == text[start..end][k];
  }

  // ----- completeness is an open chain -----

  /** A chain of opened chunks from a link to the end of the document. */
  ghost predicate ForwardPath(pool: Opened, from: Option<ChunkId>, path: seq<Chunk>)
    decreases |path|
  {
    if path == [] then from.None?
    else
      && from == Some(path[0].id)
      && path[0].id in pool && pool[path[0].id] == path[0]
      && ForwardPath(pool, path[0].next, path[1..])
  }

  /** A chain of opened chunks from a link back to the first one that holds a boundary, or to the start. */
  ghost predicate BackPath(lang: Language, pool: Opened, from: Option<ChunkId>, path: seq<Chunk>)
    decreases |path|
  {
    if path == [] then from.None?
    else
      && from == Some(path[0].id)
      && path[0].id in pool && pool[path[0].id] == path[0]
      && if lang.boundaries(path[0].text) != [] then |path| == 1
         else BackPath(lang, pool, path[0].previous, path[1..])
  }

  ghost function Ink(lang: Language, text: string): string {
    if text == "" then ""
    else (if lang.space(text[0]) then "" else [text[0]]) + Ink(lang, text[1..])
  }

  lemma {:induction false} InkConcatenation(lang: Language, a: string, b: string)
    ensures Ink(lang, a + b) == Ink(lang, a) + Ink(lang, b)
    decreases |a|
  {
    if a == "" {
      assert a + b == b;
    } else {
      assert (a + b)[1..] == a[1..] + b;
      InkConcatenation(lang, a[1..], b);
    }
  }

  lemma InkEmpty(lang: Language)
    ensures Ink(lang, "") == ""
  {
  }

  lemma InkJoin(lang: Language, left: string, right: string)
    requires lang.space(' ')
    ensures Ink(lang, lang.Join(left, right)) == Ink(lang, left) + Ink(lang, right)
  {
    InkConcatenation(lang, left, right);
    InkConcatenation(lang, left + " ", right);
    InkConcatenation(lang, left, " ");
    assert Ink(lang, " ") == "" by { assert " "[1..] == ""; }
  }

  ghost function Texts(path: seq<Chunk>): string {
    if path == [] then "" else path[0].text + Texts(path[1..])
  }

  /** Source order of a walk back: the farthest chunk comes first, cut at its last boundary. */
  ghost function Tails(lang: Language, path: seq<Chunk>): string
    requires lang.Valid()
  {
    if path == [] then "" else Tails(lang, path[1..]) + lang.Tail(path[0].text)
  }

  ghost predicate Avoids(path: seq<Chunk>, ids: set<ChunkId>) {
    forall k | 0 <= k < |path| :: path[k].id !in ids
  }

  ghost predicate Distinct(path: seq<Chunk>) {
    forall i, j | 0 <= i < j < |path| :: path[i].id != path[j].id
  }

  /** The walk forward ends complete exactly on a finite chain that avoids what it has seen. */
  lemma {:induction false} ForwardComplete(lang: Language, pool: Opened, from: Option<ChunkId>,
      visited: set<ChunkId>, after: string)
    returns (path: seq<Chunk>)
    requires Keyed(pool) && WalkForward(lang, pool, from, visited, after).1 && lang.space(' ')
    ensures ForwardPath(pool, from, path)
    ensures Ink(lang, WalkForward(lang, pool, from, visited, after).0) == Ink(lang, after) + Ink(lang, Texts(path))
    decreases pool.Keys - visited
  {
    hide Language.Join, Ink;
    if from.None? {
      path := [];
      InkEmpty(lang);
      NothingAppended(Ink(lang, after));
    } else {
      var c := pool[from.value];
      var rest := ForwardComplete(lang, pool, c.next, visited + {c.id}, lang.Join(after, c.text));
      path := [c] + rest;
      assert path[1..] == rest;
      InkJoin(lang, after, c.text);
      InkConcatenation(lang, c.text, Texts(rest));
      Reassociate(Ink(lang, after), Ink(lang, c.text), Ink(lang, Texts(rest)));
    }
  }

  lemma NothingAppended(a: string)
    ensures a + "" == a
  {
  }

  lemma Reassociate(a: string, b: string, c: string)
    ensures (a + b) + c == a + (b + c)
  {
  }

  lemma {:induction false} ForwardOpen(lang: Language, pool: Opened, from: Option<ChunkId>,
      visited: set<ChunkId>, after: string, path: seq<Chunk>)
    requires ForwardPath(pool, from, path) && Distinct(path) && Avoids(path, visited)
    ensures WalkForward(lang, pool, from, visited, after).1
    decreases |path|
  {
    if path != [] {
      var c := path[0];
      assert Distinct(path[1..]) && Avoids(path[1..], visited + {c.id}) by {
        assert forall k | 0 <= k < |path[1..]| :: path[1..][k] == path[k + 1];
      }
      ForwardOpen(lang, pool, c.next, visited + {c.id}, lang.Join(after, c.text), path[1..]);
    }
  }

  lemma {:induction false} ForwardUnique(pool: Opened, from: Option<ChunkId>, p: seq<Chunk>, q: seq<Chunk>)
    requires ForwardPath(pool, from, p) && ForwardPath(pool, from, q)
    ensures p == q
    decreases |p|
  {
    if p != [] {
      assert p[0] == q[0];
      ForwardUnique(pool, p[0].next, p[1..], q[1..]);
      assert p == [p[0]] + p[1..] && q == [q[0]] + q[1..];
    }
  }

  lemma {:induction false} ForwardSuffix(pool: Opened, from: Option<ChunkId>, path: seq<Chunk>, k: nat)
    requires ForwardPath(pool, from, path) && k < |path|
    ensures ForwardPath(pool, path[k].next, path[k + 1..])
    ensures path[k].id in pool && pool[path[k].id] == path[k]
    decreases k
  {
    if k != 0 {
      ForwardSuffix(pool, path[0].next, path[1..], k - 1);
      assert path[1..][k..] == path[k + 1..];
    }
  }

  /** A finite chain never meets a chunk twice: links are deterministic. */
  lemma ForwardDistinct(pool: Opened, from: Option<ChunkId>, path: seq<Chunk>)
    requires ForwardPath(pool, from, path)
    ensures Distinct(path)
  {
    forall i, j | 0 <= i < j < |path| ensures path[i].id != path[j].id {
      ForwardSuffix(pool, from, path, i);
      ForwardSuffix(pool, from, path, j);
      if path[i].id == path[j].id {
        ForwardUnique(pool, path[i].next, path[i + 1..], path[j + 1..]);
      }
    }
  }

  /** The chain from a chunk to the end of its document is finite and opened. */
  ghost predicate ForwardChain(pool: Opened, chunk: Chunk) {
    exists path :: ForwardPath(pool, chunk.next, path)
  }

  /** A chunk's forward context is complete if and only if its whole next-chain is opened and finite. */
  lemma ForwardCompleteIff(lang: Language, pool: Opened, chunk: Chunk, end: nat)
    requires lang.Valid() && Keyed(pool) && end <= |chunk.text|
    requires chunk.id in pool && pool[chunk.id] == chunk
    ensures AfterText(lang, pool, chunk, end).1 <==> ForwardChain(pool, chunk)
  {
    if AfterText(lang, pool, chunk, end).1 {
      var path := ForwardComplete(lang, pool, chunk.next, {chunk.id}, chunk.text[end..]);
    }
    if path :| ForwardPath(pool, chunk.next, path) {
      var longer := [chunk] + path;
      assert longer[1..] == path;
      ForwardDistinct(pool, Some(chunk.id), longer);
      assert forall k | 0 <= k < |path| :: path[k] == longer[k + 1];
      ForwardOpen(lang, pool, chunk.next, {chunk.id}, chunk.text[end..], path);
    }
  }

  lemma {:induction false} BackComplete(lang: Language, pool: Opened, from: Option<ChunkId>,
      visited: set<ChunkId>, before: string)
    returns (path: seq<Chunk>)
    requires lang.Valid() && Keyed(pool) && WalkBack(lang, pool, from, visited, before).1
    ensures BackPath(lang, pool, from, path)
    ensures Ink(lang, WalkBack(lang, pool, from, visited, before).0) == Ink(lang, Tails(lang, path)) + Ink(lang, before)
    decreases pool.Keys - visited
  {
    hide Language.Join, Language.Tail, Ink;
    assert lang.space(' ');
    hide Language.Valid;
    if from.None? {
      path := [];
      assert Ink(lang, Tails(lang, path)) == "" by { InkEmpty(lang); }
    } else {
      var c := pool[from.value];
      InkJoin(lang, lang.Tail(c.text), before);
      if lang.boundaries(c.text) != [] {
        path := [c];
        assert Tails(lang, path) == lang.Tail(c.text) by { assert path[1..] == []; }
      } else {
        var rest := BackComplete(lang, pool, c.previous, visited + {c.id}, lang.Join(lang.Tail(c.text), before));
        path := [c] + rest;
        assert path[1..] == rest;
        InkConcatenation(lang, Tails(lang, rest), lang.Tail(c.text));
      }
    }
  }

  lemma {:induction false} BackAvoids(lang: Language, pool: Opened, from: Option<ChunkId>,
      visited: set<ChunkId>, before: string)
    returns (path: seq<Chunk>)
    requires lang.Valid() && Keyed(pool) && WalkBack(lang, pool, from, visited, before).1
    ensures BackPath(lang, pool, from, path) && Avoids(path, visited)
    decreases pool.Keys - visited
  {
    hide Language.Join, Language.Tail, Language.Valid;
    if from.None? {
      path := [];
    } else {
      var c := pool[from.value];
      path := [c];
      if lang.boundaries(c.text) == [] {
        var rest := BackAvoids(lang, pool, c.previous, visited + {c.id}, lang.Join(lang.Tail(c.text), before));
        path := [c] + rest;
        assert path[1..] == rest;
      }
    }
  }

  lemma {:induction false} BackUnique(lang: Language, pool: Opened, from: Option<ChunkId>, p: seq<Chunk>, q: seq<Chunk>)
    requires BackPath(lang, pool, from, p) && BackPath(lang, pool, from, q)
    ensures p == q
    decreases |p|
  {
    if p != [] {
      assert p[0] == q[0];
      if lang.boundaries(p[0].text) == [] {
        BackUnique(lang, pool, p[0].previous, p[1..], q[1..]);
      }
      assert p == [p[0]] + p[1..] && q == [q[0]] + q[1..];
    }
  }

  lemma {:induction false} BackSuffix(lang: Language, pool: Opened, from: Option<ChunkId>, path: seq<Chunk>, k: nat)
    requires BackPath(lang, pool, from, path) && k < |path|
    ensures BackPath(lang, pool, Some(path[k].id), path[k..])
    decreases k
  {
    if k != 0 {
      BackSuffix(lang, pool, path[0].previous, path[1..], k - 1);
      assert path[1..][k - 1..] == path[k..];
    } else {
      assert path[0..] == path;
    }
  }

  lemma BackDistinct(lang: Language, pool: Opened, from: Option<ChunkId>, path: seq<Chunk>)
    requires BackPath(lang, pool, from, path)
    ensures Distinct(path)
  {
    forall i, j | 0 <= i < j < |path| ensures path[i].id != path[j].id {
      BackSuffix(lang, pool, from, path, i);
      BackSuffix(lang, pool, from, path, j);
      if path[i].id == path[j].id {
        BackUnique(lang, pool, Some(path[i].id), path[i..], path[j..]);
      }
    }
  }

  lemma {:induction false} BackOpen(lang: Language, pool: Opened, from: Option<ChunkId>,
      visited: set<ChunkId>, before: string, path: seq<Chunk>)
    requires lang.Valid() && BackPath(lang, pool, from, path) && Distinct(path) && Avoids(path, visited)
    ensures WalkBack(lang, pool, from, visited, before).1
    decreases |path|
  {
    hide Language.Join, Language.Tail, Language.Valid;
    if path != [] && lang.boundaries(path[0].text) == [] {
      var c := path[0];
      assert Distinct(path[1..]) && Avoids(path[1..], visited + {c.id}) by {
        assert forall k | 0 <= k < |path[1..]| :: path[1..][k] == path[k + 1];
      }
      BackOpen(lang, pool, c.previous, visited + {c.id}, lang.Join(lang.Tail(c.text), before), path[1..]);
    }
  }

  /** Back from an occurrence there is a boundary in its own chunk, or a chain that does not come back to it. */
  ghost predicate BackChain(lang: Language, pool: Opened, chunk: Chunk, start: nat)
    requires start <= |chunk.text|
  {
    || lang.boundaries(chunk.text[..start]) != []
    || exists path :: BackPath(lang, pool, chunk.previous, path) && Avoids(path, {chunk.id})
  }

  /** All that a context of one occurrence needs is opened: the whole rest, and back to a boundary. */
  ghost predicate ChainOpen(lang: Language, pool: Opened, chunk: Chunk, start: nat)
    requires start <= |chunk.text|
  {
    ForwardChain(pool, chunk) && BackChain(lang, pool, chunk, start)
  }

  lemma BackCompleteIff(lang: Language, pool: Opened, chunk: Chunk, start: nat)
    requires lang.Valid() && Keyed(pool) && start <= |chunk.text|
    ensures Before(lang, pool, chunk, start).1 <==> BackChain(lang, pool, chunk, start)
  {
    hide Language.Valid, Language.Tail, Avoids, WalkBack;
    var before := chunk.text[..start];
    if lang.boundaries(before) == [] {
      if WalkBack(lang, pool, chunk.previous, {chunk.id}, before).1 {
        var path := BackAvoids(lang, pool, chunk.previous, {chunk.id}, before);
      }
      if path :| BackPath(lang, pool, chunk.previous, path) && Avoids(path, {chunk.id}) {
        BackDistinct(lang, pool, chunk.previous, path);
        BackOpen(lang, pool, chunk.previous, {chunk.id}, before, path);
      }
    }
  }

  /** A context is complete exactly when the chains of its occurrence are finite and opened. */
  lemma ContextCompleteIff(lang: Language, pool: Opened, chunk: Chunk, span: Span)
    requires lang.Valid() && Keyed(pool) && span.0 <= span.1 <= |chunk.text|
    requires chunk.id in pool && pool[chunk.id] == chunk
    ensures ContextOf(lang, pool, chunk, span).complete <==> ChainOpen(lang, pool, chunk, span.0)
  {
    hide Language.Valid, ContextOf, AfterText, Before, BackChain, ForwardChain;
    ProofSentence(lang, pool, chunk, span);
    ForwardCompleteIff(lang, pool, chunk, span.1);
    BackCompleteIff(lang, pool, chunk, span.0);
  }

  // ----- builder-linked documents -----

  function IdAt(doc: seq<Chunk>, i: int): Option<ChunkId> {
    if 0 <= i < |doc| then Some(doc[i].id) else None
  }

  /** The corpus builder links the chunks of one document in order. */
  ghost predicate Linked(doc: seq<Chunk>) {
    && Distinct(doc)
    && (forall i {:trigger doc[i].previous} | 0 <= i < |doc| :: doc[i].previous == IdAt(doc, i - 1))
    && (forall i {:trigger doc[i].next} | 0 <= i < |doc| :: doc[i].next == IdAt(doc, i + 1))
  }

  /** The builder's pass over the chunks of one document, in order. */
  method LinkChunks(chunks: seq<Chunk>) returns (doc: seq<Chunk>)
    requires Distinct(chunks)
    ensures Linked(doc) && |doc| == |chunks|
    ensures forall i | 0 <= i < |doc| :: doc[i].id == chunks[i].id && doc[i].text == chunks[i].text
  {
    doc := chunks;
    for i := 0 to |chunks|
      invariant |doc| == |chunks|
      invariant forall k | 0 <= k < |doc| :: doc[k].id == chunks[k].id && doc[k].text == chunks[k].text
      invariant forall k {:trigger doc[k].previous} | 0 <= k < i :: doc[k].previous == IdAt(chunks, k - 1)
      invariant forall k {:trigger doc[k].next} | 0 <= k < i :: doc[k].next == IdAt(chunks, k + 1)
    {
      var previous := if i > 0 then Some(chunks[i - 1].id) else None;
      var next := if i + 1 < |chunks| then Some(chunks[i + 1].id) else None;
      doc := doc[i := doc[i].(previous := previous, next := next)];
    }
    forall i | -1 <= i <= |doc| ensures IdAt(doc, i) == IdAt(chunks, i) {
    }
  }

  ghost predicate OpenedFrom(pool: Opened, doc: seq<Chunk>) {
    Keyed(pool) && forall i | 0 <= i < |doc| && doc[i].id in pool :: pool[doc[i].id] == doc[i]
  }

  lemma NextInDocument(pool: Opened, doc: seq<Chunk>, i: nat, c: Chunk)
    requires Linked(doc) && OpenedFrom(pool, doc) && i < |doc|
    requires doc[i].next == Some(c.id) && c.id in pool && pool[c.id] == c
    ensures i + 1 < |doc| && c == doc[i + 1]
  {
  }

  lemma LastOfDocument(doc: seq<Chunk>, i: nat)
    requires Linked(doc) && i < |doc| && doc[i].next.None?
    ensures doc[i + 1..] == []
  {
  }

  lemma {:induction false} ForwardInDocument(pool: Opened, doc: seq<Chunk>, i: nat, path: seq<Chunk>)
    requires Linked(doc) && OpenedFrom(pool, doc) && i < |doc|
    requires ForwardPath(pool, doc[i].next, path)
    ensures path == doc[i + 1..]
    decreases |path|
  {
    if path != [] {
      NextInDocument(pool, doc, i, path[0]);
      hide Linked, OpenedFrom;
      ForwardInDocument(pool, doc, i + 1, path[1..]);
      assert path == [path[0]] + path[1..];
    } else {
      LastOfDocument(doc, i);
    }
  }

  lemma {:induction false} RestIsPath(pool: Opened, doc: seq<Chunk>, i: nat)
    requires Linked(doc) && OpenedFrom(pool, doc) && i < |doc|
    requires forall j | i < j < |doc| :: doc[j].id in pool
    ensures ForwardPath(pool, doc[i].next, doc[i + 1..])
    decreases |doc| - i
  {
    if i + 1 < |doc| {
      RestIsPath(pool, doc, i + 1);
      assert doc[i + 1..][0] == doc[i + 1] && doc[i + 1..][1..] == doc[i + 2..];
    }
  }

  /** On a builder-linked document the forward context is complete iff the whole rest is opened. */
  lemma ForwardCompleteInDocument(lang: Language, pool: Opened, doc: seq<Chunk>, i: nat, end: nat)
    requires lang.Valid() && Linked(doc) && OpenedFrom(pool, doc) && i < |doc| && end <= |doc[i].text|
    requires doc[i].id in pool
    ensures AfterText(lang, pool, doc[i], end).1 <==> forall j | i < j < |doc| :: doc[j].id in pool
  {
    hide Linked, AfterText, Language.Valid;
    ForwardCompleteIff(lang, pool, doc[i], end);
    if path :| ForwardPath(pool, doc[i].next, path) {
      ForwardInDocument(pool, doc, i, path);
      forall j | i < j < |doc| ensures doc[j].id in pool {
        ForwardSuffix(pool, doc[i].next, path, j - i - 1);
        assert path[j - i - 1] == doc[j];
      }
    }
    if forall j | i < j < |doc| :: doc[j].id in pool {
      RestIsPath(pool, doc, i);
      assert exists path :: ForwardPath(pool, doc[i].next, path);
    }
  }

  /** Everything before position `i` of a document that follows its last earlier boundary. */
  ghost function OpenText(lang: Language, doc: seq<Chunk>, i: nat): string
    requires lang.Valid() && i <= |doc|
  {
    if i == 0 then ""
    else if lang.boundaries(doc[i - 1].text) != [] then lang.Tail(doc[i - 1].text)
    else OpenText(lang, doc, i - 1) + doc[i - 1].text
  }

  /** The open sentence prefix of a metric that starts at `start` in chunk `i`. */
  ghost function OpenPrefix(lang: Language, doc: seq<Chunk>, i: nat, start: nat): string
    requires lang.Valid() && i < |doc| && start <= |doc[i].text|
  {
    var before := doc[i].text[..start];
    if lang.boundaries(before) != [] then lang.Tail(before) else OpenText(lang, doc, i) + before
  }

  lemma PreviousInDocument(pool: Opened, doc: seq<Chunk>, i: nat, c: Chunk)
    requires Linked(doc) && OpenedFrom(pool, doc) && i < |doc|
    requires doc[i].previous == Some(c.id) && c.id in pool && pool[c.id] == c
    ensures i > 0 && c == doc[i - 1]
  {
  }

  lemma FirstOfDocument(doc: seq<Chunk>, i: nat)
    requires Linked(doc) && i < |doc| && doc[i].previous.None?
    ensures i == 0
  {
  }

  lemma NothingBefore(a: string)
    ensures "" + a == a
  {
  }

  lemma NoBoundaryTail(lang: Language, text: string)
    requires lang.Valid() && lang.boundaries(text) == []
    ensures lang.Tail(text) == text
  {
  }

  lemma {:induction false} BackInDocument(lang: Language, pool: Opened, doc: seq<Chunk>, i: nat, path: seq<Chunk>)
    requires lang.Valid() && Linked(doc) && OpenedFrom(pool, doc) && i < |doc|
    requires BackPath(lang, pool, doc[i].previous, path)
    ensures Tails(lang, path) == OpenText(lang, doc, i)
    decreases i
  {
    hide Linked, OpenedFrom, Language.Valid, Language.Tail;
    if path == [] {
      FirstOfDocument(doc, i);
    } else {
      PreviousInDocument(pool, doc, i, path[0]);
      if lang.boundaries(path[0].text) != [] {
        assert path[1..] == [];
        NothingBefore(lang.Tail(path[0].text));
      } else {
        BackInDocument(lang, pool, doc, i - 1, path[1..]);
        NoBoundaryTail(lang, path[0].text);
      }
    }
  }

  lemma BeforeIsOpenPrefix(lang: Language, pool: Opened, doc: seq<Chunk>, i: nat, start: nat)
    requires lang.Valid() && Linked(doc) && OpenedFrom(pool, doc) && i < |doc| && start <= |doc[i].text|
    requires Before(lang, pool, doc[i], start).1
    ensures Ink(lang, Before(lang, pool, doc[i], start).0) == Ink(lang, OpenPrefix(lang, doc, i, start))
  {
    hide Language.Valid, Language.Join, Ink, Language.Tail, WalkBack;
    var text := doc[i].text[..start];
    if lang.boundaries(text) == [] {
      var path := BackComplete(lang, pool, doc[i].previous, {doc[i].id}, text);
      BackInDocument(lang, pool, doc, i, path);
      InkConcatenation(lang, OpenText(lang, doc, i), text);
    }
  }

  /**
   On a document linked by the builder, a complete context is, white space aside, the open
   sentence prefix, the metric, and the whole rest of the document in order.
   */
  lemma CompleteContextIsFaithful(lang: Language, pool: Opened, doc: seq<Chunk>, i: nat, span: Span)
    requires lang.Valid() && Linked(doc) && OpenedFrom(pool, doc) && i < |doc|
    requires span.0 <= span.1 <= |doc[i].text|
    requires ContextOf(lang, pool, doc[i], span).complete
    ensures Ink(lang, ContextOf(lang, pool, doc[i], span).proof.sentence)
         == Ink(lang, OpenPrefix(lang, doc, i, span.0) + doc[i].text[span.0..] + Texts(doc[i + 1..]))
  {
    assert lang.space(' ');
    hide Language.Valid, Language.Join, Ink, Before, AfterText, OpenPrefix, ContextOf, Texts, Linked, OpenedFrom;
    ProofSentence(lang, pool, doc[i], span);
    BeforeIsOpenPrefix(lang, pool, doc, i, span.0);
    AfterIsRest(lang, pool, doc, i, span.1);
    InkSentence(lang, OpenPrefix(lang, doc, i, span.0), Before(lang, pool, doc[i], span.0).0,
      doc[i].text[span.0..span.1], doc[i].text[span.1..], AfterText(lang, pool, doc[i], span.1).0, Texts(doc[i + 1..]));
    Rejoin(doc[i].text, span);
  }

  lemma Rejoin(text: string, span: Span)
    requires span.0 <= span.1 <= |text|
    ensures text[span.0..span.1] + text[span.1..] == text[span.0..]
  {
  }

  lemma InkSentence(lang: Language, prefix: string, before: string, metric: string, tail: string,
      after: string, rest: string)
    requires lang.space(' ')
    requires Ink(lang, before) == Ink(lang, prefix)
    requires Ink(lang, after) == Ink(lang, tail) + Ink(lang, rest)
    ensures Ink(lang, lang.Join(lang.Join(before, metric), after)) == Ink(lang, prefix + (metric + tail) + rest)
  {
    hide Ink, Language.Join;
    InkJoin(lang, before, metric);
    InkJoin(lang, lang.Join(before, metric), after);
    InkConcatenation(lang, metric, tail);
    InkConcatenation(lang, prefix, metric + tail);
    InkConcatenation(lang, prefix + (metric + tail), rest);
    Regroup(Ink(lang, prefix), Ink(lang, metric), Ink(lang, tail), Ink(lang, rest));
  }

  lemma Regroup(a: string, b: string, c: string, d: string)
    ensures (a + b) + (c + d) == (a + (b + c)) + d
  {
  }

  lemma ProofSentence(lang: Language, pool: Opened, chunk: Chunk, span: Span)
    requires lang.Valid() && span.0 <= span.1 <= |chunk.text|
    ensures ContextOf(lang, pool, chunk, span).proof.sentence
         == lang.Join(lang.Join(Before(lang, pool, chunk, span.0).0, chunk.text[span.0..span.1]),
                      AfterText(lang, pool, chunk, span.1).0)
    ensures ContextOf(lang, pool, chunk, span).complete
        <==> Before(lang, pool, chunk, span.0).1 && AfterText(lang, pool, chunk, span.1).1
  {
    hide Language.Valid, Before, AfterText, Language.Join;
  }

  lemma AfterIsRest(lang: Language, pool: Opened, doc: seq<Chunk>, i: nat, end: nat)
    requires lang.Valid() && Linked(doc) && OpenedFrom(pool, doc) && i < |doc| && end <= |doc[i].text|
    requires AfterText(lang, pool, doc[i], end).1
    ensures Ink(lang, AfterText(lang, pool, doc[i], end).0)
        == Ink(lang, doc[i].text[end..]) + Ink(lang, Texts(doc[i + 1..]))
  {
    hide Ink, Texts, Linked, WalkForward;
    var rest := ForwardComplete(lang, pool, doc[i].next, {doc[i].id}, doc[i].text[end..]);
    ForwardInDocument(pool, doc, i, rest);
  }
}
