/** What the service chunker and the command-line chunker share: their
    configuration, the sentence overlap carried from one chunk into the
    next, the greedy word split of an oversized sentence, and the facts
    every emitted chunk satisfies. */
module Packing {
  import opened Wrappers
  import opened Text
  import opened Tokens
  import opened Sentences

  /** The tiers the chunker object resolved at start-up and the arguments
      of one chunking call. Neither file validates the two budgets, so
      they are arbitrary integers. */
  datatype Config = Config(tok: Tokenizer, splitter: Splitter,
                           chunkTokens: int, overlapTokens: int, page: Option<int>)

  /** The keyword defaults shared by `_token_based_chunker`,
      `preprocess_submission` and the command-line chunker: 900 tokens per
      chunk, 200 tokens of overlap, no page. */
  function DefaultConfig(tok: Tokenizer, splitter: Splitter): Config {
    Config(tok, splitter, 900, 200, None)
  }

  /** The tokens an overlap can hold: `overlap_tokens`, or none at all
      when it is negative. */
  function OverlapBound(cfg: Config): nat {
    if cfg.overlapTokens < 0 then 0 else cfg.overlapTokens
  }

  /** How a chunk was formed: packed from whole sentences (recording
      `sentence_count`), or cut from an oversized sentence
      (`oversized_split`). */
  datatype Kind = Packed(sentenceCount: nat) | OversizedSplit

  const TokenBased := "token_based"

  // ---------------------------------------------------------------------
  // Overlap

  /** The sentences carried into the next chunk: walking back from the last
      sentence, each is taken while the running total stays within
      `budget`; the walk stops at the first sentence that does not fit.
      The result is a suffix within the budget that no longer suffix
      would fit in. */
  function Overlap(tok: Tokenizer, xs: seq<string>, budget: int): seq<string>
    decreases |xs|
  {
    if |xs| == 0 then []
    else
      var last := xs[|xs| - 1];
      var t := CountTokens(tok, last);
      if t <= budget then Overlap(tok, xs[..|xs| - 1], budget - t) + [last] else []
  }

  /** The overlap has no more sentences than the list, and stays within
      the budget (no tokens at all when the budget is negative). */
  lemma {:induction false} OverlapBudget(tok: Tokenizer, xs: seq<string>, budget: int)
    ensures var r := Overlap(tok, xs, budget);
      |r| <= |xs| && TokenSum(tok, r) <= (if budget < 0 then 0 else budget)
    decreases |xs|
  {
    if |xs| > 0 {
      var init, last := xs[..|xs| - 1], xs[|xs| - 1];
      var t := CountTokens(tok, last);
      if t <= budget {
        OverlapBudget(tok, init, budget - t);
        TokenSumSnoc(tok, Overlap(tok, init, budget - t), last);
      }
    }
  }

  /** When the overlap stops short of the whole list, the next sentence
      back would overflow the budget. */
  lemma {:induction false} OverlapMaximal(tok: Tokenizer, xs: seq<string>, budget: int)
    requires |Overlap(tok, xs, budget)| < |xs|
    ensures var r := Overlap(tok, xs, budget);
      TokenSum(tok, r) + CountTokens(tok, xs[|xs| - |r| - 1]) > budget
    decreases |xs|
  {
    var n := |xs|;
    var init, last := xs[..n - 1], xs[n - 1];
    var t := CountTokens(tok, last);
    if t <= budget {
      var r' := Overlap(tok, init, budget - t);
      var r := Overlap(tok, xs, budget);
      assert r == r' + [last];
      var i := n - 2 - |r'|;
      assert |init| - |r'| - 1 == i && 0 <= i && xs[i] == init[i];
      OverlapMaximal(tok, init, budget - t);
      var a, c := TokenSum(tok, r'), CountTokens(tok, init[i]);
      assert a + c > budget - t;
      TokenSumSnoc(tok, r', last);
      assert TokenSum(tok, r) == a + t;
      assert n - |r| - 1 == i;
    } else {
      assert Overlap(tok, xs, budget) == [];
    }
  }

  /** The overlap stays within the budget, and it is maximal. */
  lemma OverlapBounds(tok: Tokenizer, xs: seq<string>, budget: int)
    ensures var r := Overlap(tok, xs, budget);
      && |r| <= |xs|
      && TokenSum(tok, r) <= (if budget < 0 then 0 else budget)
      && (|r| < |xs| ==> TokenSum(tok, r) + CountTokens(tok, xs[|xs| - |r| - 1]) > budget)
  {
    OverlapBudget(tok, xs, budget);
    if |Overlap(tok, xs, budget)| < |xs| {
      OverlapMaximal(tok, xs, budget);
    }
  }

  /** The overlap is a suffix of the list. */
  lemma {:induction false} OverlapIsSuffix(tok: Tokenizer, xs: seq<string>, budget: int)
    ensures |Overlap(tok, xs, budget)| <= |xs|
    ensures Overlap(tok, xs, budget) == xs[|xs| - |Overlap(tok, xs, budget)|..]
    decreases |xs|
  {
    if |xs| > 0 {
      var init := xs[..|xs| - 1];
      var last := xs[|xs| - 1];
      var t := CountTokens(tok, last);
      if t <= budget {
        OverlapIsSuffix(tok, init, budget - t);
        var r' := Overlap(tok, init, budget - t);
        assert Overlap(tok, xs, budget) == r' + [last];
        var m := |init| - |r'|;
        assert xs == init + [last];
        assert xs[m..] == init[m..] + [last];
      }
    }
  }

  lemma SingletonSum(tok: Tokenizer, w: string)
    ensures TokenSum(tok, [w]) == CountTokens(tok, w)
  {
    assert [w][..0] == [];
  }

  /** Taking one more sentence from the back, or stopping at it. */
  lemma OverlapPrefix(tok: Tokenizer, xs: seq<string>, k: nat, budget: int)
    requires 0 < k <= |xs|
    ensures var t := CountTokens(tok, xs[k - 1]);
      Overlap(tok, xs[..k], budget)
      == if t <= budget then Overlap(tok, xs[..k - 1], budget - t) + [xs[k - 1]] else []
  {
    assert xs[..k][..k - 1] == xs[..k - 1];
  }

  lemma TokenSumCons(tok: Tokenizer, x: string, xs: seq<string>)
    ensures TokenSum(tok, [x] + xs) == CountTokens(tok, x) + TokenSum(tok, xs)
  {
    TokenSumSplit(tok, [x] + xs, 1);
    assert ([x] + xs)[..1] == [x];
    assert ([x] + xs)[1..] == xs;
    SingletonSum(tok, x);
  }

  /** The overlap loop takes one more sentence from the back ... */
  lemma OverlapTake(tok: Tokenizer, current: seq<string>, budget: int, k: nat, overlap: seq<string>, count: nat)
    requires 0 < k <= |current| && count == TokenSum(tok, overlap)
    requires Overlap(tok, current, budget) == Overlap(tok, current[..k], budget - count) + overlap
    requires count + CountTokens(tok, current[k - 1]) <= budget
    ensures var t := CountTokens(tok, current[k - 1]);
      && Overlap(tok, current, budget) == Overlap(tok, current[..k - 1], budget - (count + t)) + ([current[k - 1]] + overlap)
      && count + t == TokenSum(tok, [current[k - 1]] + overlap)
  {
    var t := CountTokens(tok, current[k - 1]);
    OverlapPrefix(tok, current, k, budget - count);
    TokenSumCons(tok, current[k - 1], overlap);
    assert Overlap(tok, current[..k - 1], budget - count - t) + [current[k - 1]] + overlap
        == Overlap(tok, current[..k - 1], budget - count - t) + ([current[k - 1]] + overlap);
  }

  /** ... or stops at the first one that does not fit. */
  lemma OverlapStop(tok: Tokenizer, current: seq<string>, budget: int, k: nat, overlap: seq<string>, count: nat)
    requires 0 < k <= |current|
    requires Overlap(tok, current, budget) == Overlap(tok, current[..k], budget - count) + overlap
    requires count + CountTokens(tok, current[k - 1]) > budget
    ensures Overlap(tok, current, budget) == overlap
  {
    OverlapPrefix(tok, current, k, budget - count);
    assert Overlap(tok, current, budget) == [] + overlap;
  }

  /** The overlap loop written inline in both chunkers: `reversed`
      iteration, `insert(0, sent)`, and `break` (the `stop` flag). */
  method CarryOverlap(tok: Tokenizer, current: seq<string>, overlapTokens: int)
    returns (overlap: seq<string>, overlapCount: nat)
    ensures overlap == Overlap(tok, current, overlapTokens)
    ensures overlapCount == TokenSum(tok, overlap)
  {
    overlap := [];
    overlapCount := 0;
    var k := |current|;
    var stop := false;
    assert current[..k] == current;
    while k > 0 && !stop
      invariant 0 <= k <= |current|
      invariant overlapCount == TokenSum(tok, overlap)
      invariant stop ==> Overlap(tok, current, overlapTokens) == overlap
      invariant !stop ==>
                  Overlap(tok, current, overlapTokens) == Overlap(tok, current[..k], overlapTokens - overlapCount) + overlap
      decreases k, if stop then 0 else 1
    {
      var sent := current[k - 1];
      var sentTokens := CountTokens(tok, sent);
      if overlapCount + sentTokens <= overlapTokens {
        OverlapTake(tok, current, overlapTokens, k, overlap, overlapCount);
        overlap := [sent] + overlap;
        overlapCount := overlapCount + sentTokens;
        k := k - 1;
      } else {
        OverlapStop(tok, current, overlapTokens, k, overlap, overlapCount);
        stop := true;
      }
    }
    if !stop {
      assert current[..0] == [];
    }
  }

  /** The overlap of a list weighs no more than the list. */
  lemma OverlapWithin(tok: Tokenizer, xs: seq<string>, budget: int)
    ensures TokenSum(tok, Overlap(tok, xs, budget)) <= TokenSum(tok, xs)
    ensures |Join(Overlap(tok, xs, budget), " ")| <= |Join(xs, " ")|
  {
    var r := Overlap(tok, xs, budget);
    OverlapBounds(tok, xs, budget);
    OverlapIsSuffix(tok, xs, budget);
    TokenSumSplit(tok, xs, |xs| - |r|);
    JoinSuffixShorter(xs, |xs| - |r|, " ");
  }

  // ---------------------------------------------------------------------
  // Splitting an oversized sentence into word groups

  /** One group of words cut from an oversized sentence, with its token
      count, its first token position and its character position. */
  datatype Piece = Piece(words: seq<string>, tokens: nat, start: int, charPos: int)

  function PieceText(p: Piece): string {
    Join(p.words, " ")
  }

  /** Where the token and character counters stand after a piece. */
  function NextStart(p: Piece): int {
    p.start + p.tokens
  }

  function NextChar(p: Piece): int {
    p.charPos + |PieceText(p)| + 1
  }

  /** The state of the word loop: the finished pieces, the words gathered
      for the next one with their token total, and the two counters. */
  datatype Split = Split(done: seq<Piece>, group: seq<string>, tokens: nat, start: int, charPos: int)

  /** One word: when it would push a non-empty group over the budget the
      group is finished first and the counters move past it. */
  function SplitStep(tok: Tokenizer, chunkTokens: int, s: Split, w: string): Split {
    var wt := CountTokens(tok, w);
    if s.tokens + wt > chunkTokens && |s.group| > 0 then
      var p := Piece(s.group, s.tokens, s.start, s.charPos);
      Split(s.done + [p], [w], wt, NextStart(p), NextChar(p))
    else
      Split(s.done, s.group + [w], s.tokens + wt, s.start, s.charPos)
  }

  /** The word loop over `ws`, started at the given counters. */
  function SplitRun(tok: Tokenizer, chunkTokens: int, ws: seq<string>, start: int, charPos: int): Split
    decreases |ws|
  {
    if |ws| == 0 then Split([], [], 0, start, charPos)
    else SplitStep(tok, chunkTokens, SplitRun(tok, chunkTokens, ws[..|ws| - 1], start, charPos), ws[|ws| - 1])
  }

  /** After the loop, the remaining group (if any) becomes the last piece. */
  function SplitFinish(s: Split): seq<Piece> {
    if |s.group| > 0 then s.done + [Piece(s.group, s.tokens, s.start, s.charPos)] else s.done
  }

  /** The word groups of an oversized sentence. */
  function WordSplit(tok: Tokenizer, chunkTokens: int, sentence: string, start: int, charPos: int): seq<Piece> {
    SplitFinish(SplitRun(tok, chunkTokens, Words(sentence), start, charPos))
  }

  /** All words of the pieces, in order. */
  function AllWords(ps: seq<Piece>): seq<string>
    decreases |ps|
  {
    if |ps| == 0 then [] else AllWords(ps[..|ps| - 1]) + ps[|ps| - 1].words
  }

  /** The summed token counts of the pieces. */
  function PieceTokens(ps: seq<Piece>): nat
    decreases |ps|
  {
    if |ps| == 0 then 0 else PieceTokens(ps[..|ps| - 1]) + ps[|ps| - 1].tokens
  }

  function Texts(ps: seq<Piece>): (r: seq<string>)
    ensures |r| == |ps| && forall k :: 0 <= k < |ps| ==> r[k] == PieceText(ps[k])
  {
    seq(|ps|, k requires 0 <= k < |ps| => PieceText(ps[k]))
  }

  /** A piece holds at least one word, counts its words' tokens, and stays
      within the budget unless it is a single word. */
  predicate PieceOk(tok: Tokenizer, chunkTokens: int, p: Piece) {
    |p.words| > 0
    && (forall j :: 0 <= j < |p.words| ==> IsWord(p.words[j]))
    && p.tokens == TokenSum(tok, p.words)
    && (|p.words| == 1 || p.tokens <= chunkTokens)
  }

  /** The pieces follow each other from `(start, charPos)` with no gap in
      either counter. */
  predicate Chained(ps: seq<Piece>, start: int, charPos: int) {
    (|ps| > 0 ==> ps[0].start == start && ps[0].charPos == charPos)
    && (forall i :: 0 < i < |ps| ==> ps[i].start == NextStart(ps[i - 1]) && ps[i].charPos == NextChar(ps[i - 1]))
  }

  /** Well-formed pieces, chained from `(start, charPos)`, none of them
      before that point. */
  predicate PiecesFrom(tok: Tokenizer, chunkTokens: int, ps: seq<Piece>, start: int, charPos: int) {
    Chained(ps, start, charPos)
    && forall k :: 0 <= k < |ps| ==> PieceOk(tok, chunkTokens, ps[k]) && ps[k].charPos >= charPos && ps[k].start >= start
  }

  /** The counters after the pieces: where the last one ends, or the
      starting point when there are none. */
  predicate Ends(ps: seq<Piece>, start: int, charPos: int, endStart: int, endChar: int) {
    (|ps| == 0 ==> endStart == start && endChar == charPos)
    && (|ps| > 0 ==> endStart == NextStart(ps[|ps| - 1]) && endChar == NextChar(ps[|ps| - 1]))
  }

  /** A word group counts the tokens of the words its text splits into. */
  lemma PieceCounts(tok: Tokenizer, chunkTokens: int, p: Piece)
    requires PieceOk(tok, chunkTokens, p)
    ensures p.tokens == TokenSum(tok, Words(PieceText(p)))
  {
    WordsJoinWords(p.words);
  }

  lemma PiecesSnoc(tok: Tokenizer, chunkTokens: int, ps: seq<Piece>, p: Piece, start: int, charPos: int)
    requires PiecesFrom(tok, chunkTokens, ps, start, charPos)
    requires Ends(ps, start, charPos, p.start, p.charPos)
    requires PieceOk(tok, chunkTokens, p) && p.charPos >= charPos && p.start >= start
    ensures PiecesFrom(tok, chunkTokens, ps + [p], start, charPos)
    ensures Ends(ps + [p], start, charPos, NextStart(p), NextChar(p))
  {
    var ps' := ps + [p];
    forall k | 0 <= k < |ps'|
      ensures PieceOk(tok, chunkTokens, ps'[k]) && ps'[k].charPos >= charPos && ps'[k].start >= start
    {
      if k < |ps| { assert ps'[k] == ps[k]; }
    }
    forall i | 0 < i < |ps'|
      ensures ps'[i].start == NextStart(ps'[i - 1]) && ps'[i].charPos == NextChar(ps'[i - 1])
    {
      assert ps'[i - 1] == ps[i - 1];
      if i < |ps| { assert ps'[i] == ps[i]; }
    }
  }

  /** The open group: its token total, its words, and the budget it keeps
      unless it is a single word. */
  predicate GroupOk(tok: Tokenizer, chunkTokens: int, group: seq<string>, tokens: int) {
    tokens == TokenSum(tok, group)
    && (forall j :: 0 <= j < |group| ==> IsWord(group[j]))
    && (|group| <= 1 || tokens <= chunkTokens)
  }

  /** The finished pieces and the counters they leave behind. */
  predicate DoneOk(tok: Tokenizer, chunkTokens: int, done: seq<Piece>, start: int, charPos: int, endStart: int, endChar: int) {
    endStart == start + PieceTokens(done)
    && endChar >= charPos
    && PiecesFrom(tok, chunkTokens, done, start, charPos)
    && Ends(done, start, charPos, endStart, endChar)
  }

  /** What the word loop keeps true after consuming `ws`. */
  predicate SplitOk(tok: Tokenizer, chunkTokens: int, ws: seq<string>, start: int, charPos: int, s: Split) {
    GroupOk(tok, chunkTokens, s.group, s.tokens)
    && AllWords(s.done) + s.group == ws
    && PieceTokens(s.done) + s.tokens == TokenSum(tok, ws)
    && DoneOk(tok, chunkTokens, s.done, start, charPos, s.start, s.charPos)
  }

  lemma PieceTokensSnoc(ps: seq<Piece>, p: Piece)
    ensures PieceTokens(ps + [p]) == PieceTokens(ps) + p.tokens
    ensures AllWords(ps + [p]) == AllWords(ps) + p.words
  {
    assert (ps + [p])[..|ps|] == ps;
  }

  lemma SplitFlushOk(tok: Tokenizer, chunkTokens: int, ws: seq<string>, start: int, charPos: int, s: Split, w: string)
    requires SplitOk(tok, chunkTokens, ws, start, charPos, s)
    requires IsWord(w)
    requires s.tokens + CountTokens(tok, w) > chunkTokens && |s.group| > 0
    ensures SplitOk(tok, chunkTokens, ws + [w], start, charPos, SplitStep(tok, chunkTokens, s, w))
  {
    var p := Piece(s.group, s.tokens, s.start, s.charPos);
    TokenSumSnoc(tok, ws, w);
    PieceTokensSnoc(s.done, p);
    SingletonSum(tok, w);
    PiecesSnoc(tok, chunkTokens, s.done, p, start, charPos);
  }

  lemma GroupAppend(tok: Tokenizer, chunkTokens: int, group: seq<string>, tokens: int, w: string)
    requires GroupOk(tok, chunkTokens, group, tokens) && IsWord(w)
    requires !(tokens + CountTokens(tok, w) > chunkTokens && |group| > 0)
    ensures GroupOk(tok, chunkTokens, group + [w], tokens + CountTokens(tok, w))
  {
    var g := group + [w];
    TokenSumSnoc(tok, group, w);
    forall j | 0 <= j < |g| ensures IsWord(g[j]) {
      if j < |group| { assert g[j] == group[j]; }
    }
  }

  lemma SplitAppendOk(tok: Tokenizer, chunkTokens: int, ws: seq<string>, start: int, charPos: int, s: Split, w: string)
    requires SplitOk(tok, chunkTokens, ws, start, charPos, s)
    requires IsWord(w)
    requires !(s.tokens + CountTokens(tok, w) > chunkTokens && |s.group| > 0)
    ensures SplitOk(tok, chunkTokens, ws + [w], start, charPos, SplitStep(tok, chunkTokens, s, w))
  {
    var g := s.group + [w];
    var wt := CountTokens(tok, w);
    assert SplitStep(tok, chunkTokens, s, w) == Split(s.done, g, s.tokens + wt, s.start, s.charPos);
    GroupAppend(tok, chunkTokens, s.group, s.tokens, w);
    TokenSumSnoc(tok, ws, w);
    assert AllWords(s.done) + g == ws + [w];
  }

  /** One turn of the word loop keeps `SplitOk`. */
  lemma SplitStepOk(tok: Tokenizer, chunkTokens: int, ws: seq<string>, start: int, charPos: int, s: Split, w: string)
    requires SplitOk(tok, chunkTokens, ws, start, charPos, s)
    requires IsWord(w)
    ensures SplitOk(tok, chunkTokens, ws + [w], start, charPos, SplitStep(tok, chunkTokens, s, w))
  {
    if s.tokens + CountTokens(tok, w) > chunkTokens && |s.group| > 0 {
      SplitFlushOk(tok, chunkTokens, ws, start, charPos, s, w);
    } else {
      SplitAppendOk(tok, chunkTokens, ws, start, charPos, s, w);
    }
  }

  lemma {:induction false} SplitRunOk(tok: Tokenizer, chunkTokens: int, ws: seq<string>, start: int, charPos: int)
    requires forall j :: 0 <= j < |ws| ==> IsWord(ws[j])
    ensures SplitOk(tok, chunkTokens, ws, start, charPos, SplitRun(tok, chunkTokens, ws, start, charPos))
    decreases |ws|
  {
    if |ws| > 0 {
      var init := ws[..|ws| - 1];
      var w := ws[|ws| - 1];
      forall j | 0 <= j < |init| ensures IsWord(init[j]) {
        assert init[j] == ws[j];
      }
      assert init + [w] == ws;
      SplitRunOk(tok, chunkTokens, init, start, charPos);
      SplitStepOk(tok, chunkTokens, init, start, charPos, SplitRun(tok, chunkTokens, init, start, charPos), w);
    }
  }

  /** The word split of `_split_oversized_sentence` (and of the command-line
      chunker's inline loop): the pieces hold every word of the sentence
      once and in order, each piece is within the budget or a single word,
      the pieces are contiguous in tokens and characters from the given
      counters, they carry all of the sentence's tokens, a piece is closed
      only when the next word would overflow it, and a non-blank sentence
      gives at least one piece. */
  lemma WordSplitSpec(tok: Tokenizer, chunkTokens: int, sentence: string, start: int, charPos: int)
    ensures var ps := WordSplit(tok, chunkTokens, sentence, start, charPos);
      && AllWords(ps) == Words(sentence)
      && PieceTokens(ps) == TokenSum(tok, Words(sentence))
      && PiecesFrom(tok, chunkTokens, ps, start, charPos)
      && Greedy(tok, chunkTokens, ps)
      && (|ps| > 0 ==> NextStart(ps[|ps| - 1]) == start + PieceTokens(ps))
      && (!IsBlank(sentence) <==> |ps| > 0)
  {
    SplitRunOk(tok, chunkTokens, Words(sentence), start, charPos);
    SplitFinishOk(tok, chunkTokens, Words(sentence), start, charPos);
    SplitRunGreedy(tok, chunkTokens, Words(sentence), start, charPos);
    SplitFinishGreedy(tok, chunkTokens, SplitRun(tok, chunkTokens, Words(sentence), start, charPos));
  }

  /** The groups are as large as the loop can make them: a piece after the
      first was only begun because its first word would have pushed the
      previous piece over the budget. */
  predicate Greedy(tok: Tokenizer, chunkTokens: int, ps: seq<Piece>) {
    forall i :: 0 < i < |ps| ==>
      |ps[i].words| > 0 && ps[i - 1].tokens + CountTokens(tok, ps[i].words[0]) > chunkTokens
  }

  /** The loop state keeps the greedy seams, including the one between
      the last finished piece and the open group. */
  predicate SplitGreedy(tok: Tokenizer, chunkTokens: int, s: Split) {
    && Greedy(tok, chunkTokens, s.done)
    && (|s.group| == 0 ==> |s.done| == 0)
    && (|s.done| > 0 ==> s.done[|s.done| - 1].tokens + CountTokens(tok, s.group[0]) > chunkTokens)
  }

  lemma SplitStepGreedy(tok: Tokenizer, chunkTokens: int, s: Split, w: string)
    requires SplitGreedy(tok, chunkTokens, s)
    ensures SplitGreedy(tok, chunkTokens, SplitStep(tok, chunkTokens, s, w))
  {
    var wt := CountTokens(tok, w);
    if s.tokens + wt > chunkTokens && |s.group| > 0 {
      var p := Piece(s.group, s.tokens, s.start, s.charPos);
      var d := s.done + [p];
      forall i | 0 < i < |d|
        ensures |d[i].words| > 0 && d[i - 1].tokens + CountTokens(tok, d[i].words[0]) > chunkTokens
      {
        assert d[i - 1] == s.done[i - 1];
        if i < |s.done| { assert d[i] == s.done[i]; } else { assert d[i] == p; }
      }
      assert [w][0] == w;
    } else if |s.group| > 0 {
      assert (s.group + [w])[0] == s.group[0];
    }
  }

  lemma {:induction false} SplitRunGreedy(tok: Tokenizer, chunkTokens: int, ws: seq<string>, start: int, charPos: int)
    ensures SplitGreedy(tok, chunkTokens, SplitRun(tok, chunkTokens, ws, start, charPos))
    decreases |ws|
  {
    if |ws| > 0 {
      SplitRunGreedy(tok, chunkTokens, ws[..|ws| - 1], start, charPos);
      SplitStepGreedy(tok, chunkTokens, SplitRun(tok, chunkTokens, ws[..|ws| - 1], start, charPos), ws[|ws| - 1]);
    }
  }

  lemma SplitFinishGreedy(tok: Tokenizer, chunkTokens: int, s: Split)
    requires SplitGreedy(tok, chunkTokens, s)
    ensures Greedy(tok, chunkTokens, SplitFinish(s))
  {
    if |s.group| > 0 {
      var p := Piece(s.group, s.tokens, s.start, s.charPos);
      var d := s.done + [p];
      forall i | 0 < i < |d|
        ensures |d[i].words| > 0 && d[i - 1].tokens + CountTokens(tok, d[i].words[0]) > chunkTokens
      {
        assert d[i - 1] == s.done[i - 1];
        if i < |s.done| { assert d[i] == s.done[i]; } else { assert d[i] == p; }
      }
    }
  }

  lemma SplitFinishOk(tok: Tokenizer, chunkTokens: int, ws: seq<string>, start: int, charPos: int)
    requires SplitOk(tok, chunkTokens, ws, start, charPos, SplitRun(tok, chunkTokens, ws, start, charPos))
    ensures var ps := SplitFinish(SplitRun(tok, chunkTokens, ws, start, charPos));
      && AllWords(ps) == ws
      && PieceTokens(ps) == TokenSum(tok, ws)
      && PiecesFrom(tok, chunkTokens, ps, start, charPos)
      && (|ps| > 0 ==> NextStart(ps[|ps| - 1]) == start + PieceTokens(ps))
      && (|ws| > 0 <==> |ps| > 0)
  {
    var s := SplitRun(tok, chunkTokens, ws, start, charPos);
    var ps := SplitFinish(s);
    if |s.group| > 0 {
      var p := Piece(s.group, s.tokens, s.start, s.charPos);
      PieceTokensSnoc(s.done, p);
      PiecesSnoc(tok, chunkTokens, s.done, p, start, charPos);
      assert ps == s.done + [p];
    } else {
      assert AllWords(s.done) == ws;
      if |ps| > 0 {
        AllWordsNonEmpty(tok, chunkTokens, ps);
      }
    }
  }

  lemma AllWordsNonEmpty(tok: Tokenizer, chunkTokens: int, ps: seq<Piece>)
    requires |ps| > 0
    requires forall k :: 0 <= k < |ps| ==> PieceOk(tok, chunkTokens, ps[k])
    ensures |AllWords(ps)| > 0
  {
    assert |ps[|ps| - 1].words| > 0;
  }

  /** Joining the pieces' texts with single spaces gives the sentence's
      words joined with single spaces: `" ".join(sentence.split())`. */
  lemma {:induction false} JoinTexts(tok: Tokenizer, chunkTokens: int, ps: seq<Piece>)
    requires forall k :: 0 <= k < |ps| ==> PieceOk(tok, chunkTokens, ps[k])
    ensures Join(Texts(ps), " ") == Join(AllWords(ps), " ")
    decreases |ps|
  {
    if |ps| > 0 {
      var n := |ps|;
      var init := ps[..n - 1];
      var p := ps[n - 1];
      JoinTexts(tok, chunkTokens, init);
      assert Texts(ps) == Texts(init) + [PieceText(p)];
      assert AllWords(ps) == AllWords(init) + p.words;
      if n == 1 {
        assert Texts(ps) == [PieceText(p)];
        assert AllWords(init) == [];
        assert AllWords(ps) == p.words;
      } else {
        JoinSnoc(Texts(init), PieceText(p), " ");
        AllWordsNonEmpty(tok, chunkTokens, init);
        JoinAppend(AllWords(init), p.words, " ");
      }
    }
  }

  lemma WordSplitJoin(tok: Tokenizer, chunkTokens: int, sentence: string, start: int, charPos: int)
    ensures Join(Texts(WordSplit(tok, chunkTokens, sentence, start, charPos)), " ") == Join(Words(sentence), " ")
  {
    WordSplitSpec(tok, chunkTokens, sentence, start, charPos);
    JoinTexts(tok, chunkTokens, WordSplit(tok, chunkTokens, sentence, start, charPos));
  }

  /** A single-word piece's text is that word. */
  lemma SingleWordText(p: Piece)
    requires |p.words| == 1 && IsWord(p.words[0])
    ensures PieceText(p) == p.words[0] && IsWord(PieceText(p))
  {
  }

  // ---------------------------------------------------------------------
  // What every emitted chunk satisfies

  /** The fields of a chunk both chunkers agree on: everything except the
      character offsets, which they compute differently. */
  datatype Span = Span(chunkIndex: int, text: string, tokenCount: nat,
                       startToken: int, endToken: int, pageNumber: Option<int>,
                       tokenizerType: string, chunkMethod: string, kind: Kind)

  /** One chunk: its token span is as long as its token count and starts at
      a valid position; it is tagged with the page, tier and method; a
      packed chunk has at least one sentence and at most the chunk budget
      plus the overlap budget; a split chunk is within the chunk budget
      unless it is a single word; and under the whitespace tier its count
      is the number of words in its text. */
  predicate SpanOk(cfg: Config, s: Span) {
    s.endToken - s.startToken == s.tokenCount && s.startToken >= 0
    && s.pageNumber == cfg.page && s.tokenizerType == TypeName(cfg.tok) && s.chunkMethod == TokenBased
    && (s.kind.Packed? ==> s.kind.sentenceCount > 0 && s.tokenCount <= cfg.chunkTokens + OverlapBound(cfg))
    && (s.kind.OversizedSplit? ==> s.tokenCount <= cfg.chunkTokens || IsWord(s.text))
    && (cfg.tok.Whitespace? ==> s.tokenCount == CountTokens(Whitespace, s.text))
  }

  /** A chunk list in which the i-th chunk has index i and every chunk is well formed. */
  predicate SpansOk(cfg: Config, ss: seq<Span>) {
    forall i :: 0 <= i < |ss| ==> ss[i].chunkIndex == i && SpanOk(cfg, ss[i])
  }

  /** Consecutive chunks overlap by at most the overlap budget and never
      leave a gap: `0 <= end_i - start_{i+1} <= overlap`. */
  predicate Linked(cfg: Config, ss: seq<Span>) {
    forall i :: 0 < i < |ss| ==> 0 <= ss[i - 1].endToken - ss[i].startToken <= OverlapBound(cfg)
  }

  /** What a chunk holds: a packed one `sentence_count` consecutive
      sentences joined by single spaces, its count the sum of theirs; a
      split one words, its count the sum of its words' counts. */
  ghost predicate Holds(tok: Tokenizer, xs: seq<string>, c: Span) {
    && (c.kind.Packed? ==>
          exists a, b :: 0 <= a <= b <= |xs| && b - a == c.kind.sentenceCount
                         && c.text == Join(xs[a..b], " ") && c.tokenCount == TokenSum(tok, xs[a..b]))
    && (c.kind.OversizedSplit? ==> c.tokenCount == TokenSum(tok, Words(c.text)))
  }

  ghost predicate AllHold(tok: Tokenizer, xs: seq<string>, ss: seq<Span>) {
    forall i :: 0 <= i < |ss| ==> Holds(tok, xs, ss[i])
  }

  lemma HoldsSnoc(tok: Tokenizer, xs: seq<string>, s: string, c: Span)
    requires Holds(tok, xs, c)
    ensures Holds(tok, xs + [s], c)
  {
    if c.kind.Packed? {
      var a, b :| 0 <= a <= b <= |xs| && b - a == c.kind.sentenceCount
                  && c.text == Join(xs[a..b], " ") && c.tokenCount == TokenSum(tok, xs[a..b]);
      assert (xs + [s])[a..b] == xs[a..b];
    }
  }

  /** The tokens that the overlap of a closed run of sentences carries
      into the next chunk. */
  function Carried(cfg: Config, run: seq<string>): nat {
    TokenSum(cfg.tok, Overlap(cfg.tok, run, cfg.overlapTokens))
  }

  /** A packed chunk holding the sentences `xs[a..b]`, closed because the
      next sentence `xs[b]` would have pushed it over `chunk_tokens`. */
  predicate ClosedRun(cfg: Config, xs: seq<string>, c: Span, a: int, b: int) {
    && 0 <= a <= b < |xs|
    && c.kind.Packed? && b - a == c.kind.sentenceCount
    && c.text == Join(xs[a..b], " ")
    && c.tokenCount == TokenSum(cfg.tok, xs[a..b])
    && c.tokenCount + CountTokens(cfg.tok, xs[b]) > cfg.chunkTokens
  }

  /** How chunk `d` follows chunk `c`: a packed `c` was closed by an
      overflowing sentence, and a packed `d` after it starts where `c`
      ends less the overlap carried over (an oversized split after it
      starts where `c` ends); after a split chunk the next one starts
      where it ends. */
  ghost predicate Closes(cfg: Config, xs: seq<string>, c: Span, d: Span) {
    && (c.kind.Packed? ==>
          exists a, b :: ClosedRun(cfg, xs, c, a, b)
                         && d.startToken == c.endToken - (if d.kind.Packed? then Carried(cfg, xs[a..b]) else 0))
    && (c.kind.OversizedSplit? ==> d.startToken == c.endToken)
  }

  /** Every chunk but the last is followed as `Closes` describes. */
  ghost predicate ClosedChain(cfg: Config, xs: seq<string>, ss: seq<Span>) {
    forall i :: 0 < i < |ss| ==> Closes(cfg, xs, ss[i - 1], ss[i])
  }

  lemma ClosesSnoc(cfg: Config, xs: seq<string>, s: string, c: Span, d: Span)
    requires Closes(cfg, xs, c, d)
    ensures Closes(cfg, xs + [s], c, d)
  {
    if c.kind.Packed? {
      var a, b :| ClosedRun(cfg, xs, c, a, b)
        && d.startToken == c.endToken - (if d.kind.Packed? then Carried(cfg, xs[a..b]) else 0);
      assert (xs + [s])[a..b] == xs[a..b] && (xs + [s])[b] == xs[b];
      assert ClosedRun(cfg, xs + [s], c, a, b);
    }
  }

  lemma ClosedChainSnoc(cfg: Config, xs: seq<string>, s: string, ss: seq<Span>)
    requires ClosedChain(cfg, xs, ss)
    ensures ClosedChain(cfg, xs + [s], ss)
  {
    forall i | 0 < i < |ss| ensures Closes(cfg, xs + [s], ss[i - 1], ss[i]) {
      ClosesSnoc(cfg, xs, s, ss[i - 1], ss[i]);
    }
  }

  lemma ClosedChainAppend(cfg: Config, xs: seq<string>, ss: seq<Span>, ts: seq<Span>)
    requires ClosedChain(cfg, xs, ss) && ClosedChain(cfg, xs, ts)
    requires |ss| > 0 && |ts| > 0 ==> Closes(cfg, xs, ss[|ss| - 1], ts[0])
    ensures ClosedChain(cfg, xs, ss + ts)
  {
    forall i | 0 < i < |ss + ts| ensures Closes(cfg, xs, (ss + ts)[i - 1], (ss + ts)[i]) {
      if i < |ss| {
        assert (ss + ts)[i - 1] == ss[i - 1] && (ss + ts)[i] == ss[i];
      } else if i == |ss| {
        assert (ss + ts)[i - 1] == ss[i - 1] && (ss + ts)[i] == ts[0];
      } else {
        assert (ss + ts)[i - 1] == ts[i - 1 - |ss|] && (ss + ts)[i] == ts[i - |ss|];
      }
    }
  }

  /** The tokens a sentence adds to the stream: its own count when it is
      packed, the sum of its words' counts when it is split. */
  function Contribution(cfg: Config, s: string): nat {
    var t := CountTokens(cfg.tok, s);
    if t > cfg.chunkTokens then TokenSum(cfg.tok, Words(s)) else t
  }

  function Contributions(cfg: Config, xs: seq<string>): nat
    decreases |xs|
  {
    if |xs| == 0 then 0 else Contributions(cfg, xs[..|xs| - 1]) + Contribution(cfg, xs[|xs| - 1])
  }

  /** Some sentence has more tokens than `chunk_tokens`. */
  predicate HasOversized(cfg: Config, xs: seq<string>) {
    exists k :: 0 <= k < |xs| && CountTokens(cfg.tok, xs[k]) > cfg.chunkTokens
  }

  /** None of the sentences is blank (what segmentation guarantees). */
  predicate NonBlank(xs: seq<string>) {
    forall k :: 0 <= k < |xs| ==> !IsBlank(xs[k])
  }

  lemma SegmentNonBlank(sp: Splitter, text: string)
    ensures NonBlank(SegmentSentences(sp, text))
  {
    var r := SegmentSentences(sp, text);
    forall k | 0 <= k < |r| ensures !IsBlank(r[k]) {
      assert !IsSpace(r[k][0]);
    }
  }

  /** Appending well-formed chunks numbered on from the end keeps a list well formed. */
  lemma SpansOkAppend(cfg: Config, a: seq<Span>, b: seq<Span>)
    requires SpansOk(cfg, a)
    requires forall j :: 0 <= j < |b| ==> b[j].chunkIndex == |a| + j && SpanOk(cfg, b[j])
    ensures SpansOk(cfg, a + b)
  {
    forall i | 0 <= i < |a + b| ensures (a + b)[i].chunkIndex == i && SpanOk(cfg, (a + b)[i]) {
      if i < |a| { assert (a + b)[i] == a[i]; } else { assert (a + b)[i] == b[i - |a|]; }
    }
  }

  /** Two linked lists joined where the second may overlap the first by at
      most the overlap budget form one linked list. */
  lemma LinkedAppend(cfg: Config, a: seq<Span>, b: seq<Span>)
    requires Linked(cfg, a) && Linked(cfg, b)
    requires |a| > 0 && |b| > 0 ==> 0 <= a[|a| - 1].endToken - b[0].startToken <= OverlapBound(cfg)
    ensures Linked(cfg, a + b)
  {
    forall i | 0 < i < |a + b|
      ensures 0 <= (a + b)[i - 1].endToken - (a + b)[i].startToken <= OverlapBound(cfg)
    {
      if i < |a| {
        assert (a + b)[i - 1] == a[i - 1] && (a + b)[i] == a[i];
      } else if i == |a| {
        assert (a + b)[i - 1] == a[i - 1] && (a + b)[i] == b[0];
      } else {
        assert (a + b)[i - 1] == b[i - 1 - |a|] && (a + b)[i] == b[i - |a|];
      }
    }
  }

  /** The word split does not depend on where the characters start, except
      in the pieces' own character positions. */
  lemma {:induction false} SplitRunCharFree(tok: Tokenizer, chunkTokens: int, ws: seq<string>, start: int, c1: int, c2: int)
    ensures var a := SplitRun(tok, chunkTokens, ws, start, c1);
      var b := SplitRun(tok, chunkTokens, ws, start, c2);
      && a.group == b.group && a.tokens == b.tokens && a.start == b.start && |a.done| == |b.done|
      && forall i :: 0 <= i < |a.done| ==> a.done[i].(charPos := 0) == b.done[i].(charPos := 0)
    decreases |ws|
  {
    if |ws| > 0 {
      var init := ws[..|ws| - 1];
      SplitRunCharFree(tok, chunkTokens, init, start, c1, c2);
    }
  }

  lemma WordSplitCharFree(tok: Tokenizer, chunkTokens: int, sentence: string, start: int, c1: int, c2: int)
    ensures var a := WordSplit(tok, chunkTokens, sentence, start, c1);
      var b := WordSplit(tok, chunkTokens, sentence, start, c2);
      && |a| == |b|
      && (forall i :: 0 <= i < |a| ==> a[i].(charPos := 0) == b[i].(charPos := 0))
      && PieceTokens(a) == PieceTokens(b)
  {
    SplitRunCharFree(tok, chunkTokens, Words(sentence), start, c1, c2);
    WordSplitSpec(tok, chunkTokens, sentence, start, c1);
    WordSplitSpec(tok, chunkTokens, sentence, start, c2);
  }

  /** No piece, and not the counter after the loop, lies before the
      starting character position. */
  lemma WordSplitChars(tok: Tokenizer, chunkTokens: int, sentence: string, start: int, charPos: int)
    ensures var ps := WordSplit(tok, chunkTokens, sentence, start, charPos);
      && (forall i :: 0 <= i < |ps| ==> ps[i].charPos >= charPos)
      && SplitRun(tok, chunkTokens, Words(sentence), start, charPos).charPos >= charPos
  {
    WordSplitSpec(tok, chunkTokens, sentence, start, charPos);
    SplitRunOk(tok, chunkTokens, Words(sentence), start, charPos);
  }
}
