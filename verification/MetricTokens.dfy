/**
 Metric tokens over ASCII letters: words, compact initialisms such as `US` and dotted ones such
 as `U.S.`, and how each of them looks to the full-text tokenizer.
 */
module MetricTokens {
  import opened TextRuns

  predicate Upper(c: char) { 'A' <= c <= 'Z' }

  predicate Letter(c: char) { Upper(c) || 'a' <= c <= 'z' }

  predicate AlNum(c: char) { Letter(c) || '0' <= c <= '9' }

  predicate WordChar(c: char) { AlNum(c) || c == '_' }

  function LowerChar(c: char): char {
    if Upper(c) then ((c as int) + 32) as char else c
  }

  function Lower(s: string): (r: string)
    ensures |r| == |s|
  {
    seq(|s|, i requires 0 <= i < |s| => LowerChar(s[i]))
  }

  datatype Kind = Word | Initialism

  datatype Token = Token(value: string, start: nat, end: nat, kind: Kind, dotted: bool)
  {
    /** What two tokens must share to denote the same lexeme; spans never take part. */
    function Identity(): (Kind, string) { (kind, value) }
  }

  // ----- the tokenizer -----

  /** How many letter-and-dot pairs start the text. */
  function Pairs(s: string): (n: nat)
    ensures 2 * n <= |s|
  {
    if |s| >= 2 && Letter(s[0]) && s[1] == '.' then 1 + Pairs(s[2..]) else 0
  }

  /** Length of a dotted initialism at the front of the text, zero if there is none. */
  function DottedLength(s: string): (n: nat)
    ensures n <= |s|
  {
    var p := Pairs(s);
    if p >= 2 then 2 * p
    else if p == 1 && |s| >= 3 && Letter(s[2]) && !(|s| > 3 && WordChar(s[3])) then 3
    else 0
  }

  /** The letters of a dotted initialism. */
  function Undotted(s: string): string {
    if s == "" then ""
    else if s[0] == '.' then Undotted(s[1..])
    else [s[0]] + Undotted(s[1..])
  }

  predicate Compact(raw: string) {
    2 <= |raw| <= 3 && forall i | 0 <= i < |raw| :: Upper(raw[i])
  }

  /** What is taken off the front of a text: a token or a skipped character, and its length. */
  function FirstToken(s: string, at: nat, afterWord: bool): (r: (seq<Token>, nat))
    requires s != ""
    ensures 0 < r.1 <= |s|
  {
    var d := if afterWord then 0 else DottedLength(s);
    if d > 0 then ([Token(Lower(Undotted(s[..d])), at, at + d, Initialism, true)], d)
    else if AlNum(s[0]) then
      var n := RunLength(s, AlNum);
      ([Token(Lower(s[..n]), at, at + n, if Compact(s[..n]) then Initialism else Word, false)], n)
    else ([], 1)
  }

  /** Tokens of a suffix that starts at `at`, whose preceding character is a word character or not. */
  function TokensFrom(s: string, at: nat, afterWord: bool): seq<Token>
    decreases |s|
  {
    if s == "" then []
    else
      var (first, n) := FirstToken(s, at, afterWord);
      first + TokensFrom(s[n..], at + n, WordChar(s[n - 1]))
  }

  function Tokens(s: string): seq<Token> {
    TokensFrom(s, 0, false)
  }

  // ----- the full-text tokenizer -----

  function LowerAll(parts: seq<string>): seq<string> {
    seq(|parts|, i requires 0 <= i < |parts| => Lower(parts[i]))
  }

  /** Lower-cased alphanumeric runs. */
  function SearchTerms(s: string): seq<string> {
    LowerAll(Runs(s, AlNum))
  }

  function Singles(s: string): seq<string> {
    seq(|s|, i requires 0 <= i < |s| => [s[i]])
  }

  /** A dotted initialism is one token here and one term per letter there. */
  function Terms(t: Token): seq<string> {
    if t.dotted then Singles(t.value) else [t.value]
  }

  function TermsOf(tokens: seq<Token>): seq<string> {
    if tokens == [] then [] else Terms(tokens[0]) + TermsOf(tokens[1..])
  }

  lemma LowerAllConcatenation(a: seq<string>, b: seq<string>)
    ensures LowerAll(a + b) == LowerAll(a) + LowerAll(b)
  {
  }

  lemma SearchTermsApart(a: string, b: string)
    requires Apart(a, b, AlNum)
    ensures SearchTerms(a + b) == SearchTerms(a) + SearchTerms(b)
  {
    RunsOfConcatenation(a, b, AlNum);
    LowerAllConcatenation(Runs(a, AlNum), Runs(b, AlNum));
  }

  lemma {:induction false} UndottedPairs(s: string)
    requires Pairs(s) * 2 == |s|
    ensures Runs(s, AlNum) == Singles(Undotted(s))
    decreases |s|
  {
    if s != "" {
      PairStart(s);
      hide Letter, AlNum, Singles;
      UndottedPairs(s[2..]);
      assert s[1..][1..] == s[2..];
      assert RunLength(s, AlNum) == 1;
      assert s[..1] == [s[0]];
      assert Runs(s, AlNum) == [[s[0]]] + Runs(s[2..], AlNum);
      assert Undotted(s) == [s[0]] + Undotted(s[2..]);
      SinglesFirst(s[0], Undotted(s[2..]));
    }
  }

  lemma PairStart(s: string)
    requires Pairs(s) > 0
    ensures AlNum(s[0]) && s[0] != '.' && s[1] == '.' && !AlNum(s[1])
  {
  }

  lemma SinglesFirst(c: char, s: string)
    ensures Singles([c] + s) == [[c]] + Singles(s)
  {
  }

  lemma {:induction false} PairsOfPrefix(s: string)
    ensures Pairs(s[..2 * Pairs(s)]) == Pairs(s)
    decreases |s|
  {
    var n := Pairs(s);
    if n > 0 {
      PairsOfPrefix(s[2..]);
      assert s[..2 * n][2..] == s[2..][..2 * (n - 1)];
    }
  }

  lemma UndottedTriple(a: char, b: char)
    requires a != '.' && b != '.'
    ensures Undotted([a, '.', b]) == [a, b] && Undotted([a, '.']) == [a]
  {
    assert [a, '.', b][1..] == ['.', b] && ['.', b][1..] == [b] && [b][1..] == "";
    assert Undotted([b]) == [b];
    assert Undotted(['.', b]) == [b];
    assert [a, '.'][1..] == ['.'] && ['.'][1..] == "";
    assert Undotted(['.']) == "";
  }

  /** The text of a dotted initialism breaks into one run per letter, apart from what follows. */
  lemma DottedRuns(s: string)
    requires DottedLength(s) > 0
    ensures var d := DottedLength(s);
      && Runs(s[..d], AlNum) == Singles(Undotted(s[..d]))
      && Apart(s[..d], s[d..], AlNum)
  {
    var p, d := Pairs(s), DottedLength(s);
    PairsOfPrefix(s);
    if p >= 2 {
      UndottedPairs(s[..d]);
      PairsEndInDot(s);
    } else {
      var head := s[..2];
      UndottedPairs(head) by { assert head[2..] == ""; }
      assert s[..3] == head + [s[2]];
      RunsOfConcatenation(head, [s[2]], AlNum);
      SingleRun([s[2]], AlNum);
      UndottedTriple(s[0], s[2]);
      assert s[..3] == [s[0], '.', s[2]] && head == [s[0], '.'];
    }
  }

  lemma {:induction false} PairsEndInDot(s: string)
    requires Pairs(s) > 0
    ensures s[2 * Pairs(s) - 1] == '.'
    decreases |s|
  {
    if Pairs(s) > 1 {
      PairsEndInDot(s[2..]);
    }
  }

  lemma LowerSingles(s: string)
    ensures LowerAll(Singles(s)) == Singles(Lower(s))
  {
    forall i | 0 <= i < |s| ensures LowerAll(Singles(s))[i] == Singles(Lower(s))[i] {
      assert Lower([s[i]]) == [LowerChar(s[i])];
    }
  }

  lemma DottedTerms(s: string)
    requires DottedLength(s) > 0
    ensures var d := DottedLength(s); SearchTerms(s) == Singles(Lower(Undotted(s[..d]))) + SearchTerms(s[d..])
  {
    var d := DottedLength(s);
    DottedRuns(s);
    hide DottedLength, Undotted, Lower, Singles, LowerAll, Runs;
    LowerSingles(Undotted(s[..d]));
    assert s == s[..d] + s[d..];
    SearchTermsApart(s[..d], s[d..]);
  }

  lemma WordTerms(s: string)
    requires s != "" && AlNum(s[0])
    ensures var n := RunLength(s, AlNum); n > 0 && SearchTerms(s) == [Lower(s[..n])] + SearchTerms(s[n..])
  {
    assert SearchTerms(s)[0] == Lower(s[..RunLength(s, AlNum)]);
  }

  lemma FirstTerms(s: string, at: nat, afterWord: bool)
    requires s != ""
    ensures var (first, n) := FirstToken(s, at, afterWord);
      0 < n <= |s| && SearchTerms(s) == TermsOf(first) + SearchTerms(s[n..])
  {
    hide Runs, LowerAll, Lower, Singles, Undotted, Compact, Upper, Letter;
    var (first, n) := FirstToken(s, at, afterWord);
    if first == [] {
      SkipTerms(s);
    } else {
      assert TermsOf(first) == Terms(first[0]) by { assert first[1..] == []; }
      if first[0].dotted { DottedTerms(s); } else { WordTerms(s); }
    }
  }

  lemma {:induction false} TermsConcatenation(a: seq<Token>, b: seq<Token>)
    ensures TermsOf(a + b) == TermsOf(a) + TermsOf(b)
    decreases |a|
  {
    if a == [] {
      assert a + b == b;
    } else {
      assert (a + b)[1..] == a[1..] + b;
      TermsConcatenation(a[1..], b);
    }
  }

  /** The full-text terms of any text are the terms of its metric tokens, in order. */
  lemma {:induction false} TermsAreTokens(s: string, at: nat, afterWord: bool)
    ensures SearchTerms(s) == TermsOf(TokensFrom(s, at, afterWord))
    decreases |s|
  {
    hide SearchTerms, FirstToken, Terms, WordChar;
    if s == "" {
      SkipTerms(s);
    } else {
      var (first, n) := FirstToken(s, at, afterWord);
      FirstTerms(s, at, afterWord);
      TermsAreTokens(s[n..], at + n, WordChar(s[n - 1]));
      TermsConcatenation(first, TokensFrom(s[n..], at + n, WordChar(s[n - 1])));
    }
  }

  lemma SkipTerms(s: string)
    requires s != "" ==> !AlNum(s[0])
    ensures s == "" ==> SearchTerms(s) == []
    ensures s != "" ==> SearchTerms(s) == SearchTerms(s[1..])
  {
  }

  /** Values are lower-case and alphanumeric; a dotted token is an initialism of two letters or more. */
  predicate Canonical(t: Token) {
    && t.value != ""
    && AllIn(t.value, AlNum)
    && Lower(t.value) == t.value
    && (t.dotted ==> t.kind == Initialism && |t.value| >= 2 && AllIn(t.value, Letter))
    && t.start < t.end
  }

  lemma {:induction false} UndottedLetters(s: string)
    requires forall i | 0 <= i < |s| :: Letter(s[i]) || s[i] == '.'
    ensures AllIn(Undotted(s), Letter)
  {
    if s != "" { UndottedLetters(s[1..]); }
  }

  lemma {:induction false} UndottedLength(s: string)
    requires Pairs(s) * 2 == |s|
    ensures |Undotted(s)| == Pairs(s)
    decreases |s|
  {
    if s != "" {
      UndottedLength(s[2..]);
      assert s[1..][1..] == s[2..];
      assert Undotted(s) == [s[0]] + Undotted(s[2..]);
    }
  }

  lemma DottedValue(s: string)
    requires DottedLength(s) > 0
    ensures var value := Lower(Undotted(s[..DottedLength(s)])); |value| >= 2 && AllIn(value, Letter)
  {
    var p, d := Pairs(s), DottedLength(s);
    PairsAreLetters(s);
    UndottedLetters(s[..d]);
    if p >= 2 {
      PairsOfPrefix(s);
      UndottedLength(s[..d]);
    } else {
      UndottedTriple(s[0], s[2]);
      assert s[..3] == [s[0], '.', s[2]];
    }
  }

  lemma {:induction false} PairsAreLetters(s: string)
    ensures forall i | 0 <= i < 2 * Pairs(s) :: Letter(s[i]) || s[i] == '.'
    decreases |s|
  {
    if Pairs(s) > 0 {
      PairsAreLetters(s[2..]);
      assert forall i | 2 <= i < 2 * Pairs(s) :: s[i] == s[2..][i - 2];
    }
  }

  lemma {:induction false} TokensCanonical(s: string, at: nat, afterWord: bool)
    ensures forall t | t in TokensFrom(s, at, afterWord) :: Canonical(t) && at <= t.start && t.end <= at + |s|
    decreases |s|
  {
    hide FirstToken;
    if s != "" {
      var (first, n) := FirstToken(s, at, afterWord);
      FirstCanonical(s, at, afterWord);
      TokensCanonical(s[n..], at + n, WordChar(s[n - 1]));
    }
  }

  /** No token starts before the one before it ends. */
  predicate Follow(o: seq<Token>) {
    forall i, j | 0 <= i < j < |o| :: o[i].end <= o[j].start
  }

  lemma FollowMore(first: seq<Token>, rest: seq<Token>, end: nat)
    requires |first| <= 1 && Follow(rest)
    requires (forall t | t in first :: t.end <= end) && forall t | t in rest :: end <= t.start
    ensures Follow(first + rest)
  {
    if first == [] {
      assert first + rest == rest;
    } else {
      assert first == [first[0]] && first[0] in first;
      assert forall j | 0 <= j < |rest| :: rest[j] in rest;
      forall i, j | 0 <= i < j < |first + rest| ensures (first + rest)[i].end <= (first + rest)[j].start {
        assert (first + rest)[j] == rest[j - 1];
        if i > 0 { assert (first + rest)[i] == rest[i - 1]; }
      }
    }
  }

  lemma NoneFollow()
    ensures Follow([])
  {
  }

  lemma {:induction false} TokensFollow(s: string, at: nat, afterWord: bool)
    ensures Follow(TokensFrom(s, at, afterWord))
    decreases |s|
  {
    hide FirstToken, Canonical, Follow, WordChar;
    if s == "" {
      NoneFollow();
    } else {
      var (first, n) := FirstToken(s, at, afterWord);
      FirstCanonical(s, at, afterWord);
      TokensFollow(s[n..], at + n, WordChar(s[n - 1]));
      TokensCanonical(s[n..], at + n, WordChar(s[n - 1]));
      FollowMore(first, TokensFrom(s[n..], at + n, WordChar(s[n - 1])), at + n);
    }
  }

  lemma FirstCanonical(s: string, at: nat, afterWord: bool)
    requires s != ""
    ensures var (first, n) := FirstToken(s, at, afterWord);
      |first| <= 1 && forall t | t in first :: Canonical(t) && t.start == at && t.end == at + n
  {
    if !afterWord && DottedLength(s) > 0 {
      DottedValue(s);
    } else if AlNum(s[0]) {
      RunIsMaximal(s, AlNum);
    }
  }
}
