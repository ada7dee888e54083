/** The chunking half of `PreprocessingService`: `_split_oversized_sentence`,
    `_token_based_chunker`, the page loop of `_chunk_pdf`, and the
    `_chunk_text` forwarder. The service object's resolved tiers are the
    `tok` and `splitter` of a `Config`. */
module PreprocessingService {
  import opened Wrappers
  import opened Text
  import opened Tokens
  import opened Sentences
  import opened Packing
  import opened ContentChunkSchema

  /** The `metadata` dictionary of a chunk. Packed chunks carry
      `sentence_count`, split chunks `oversized_split`; `kind` says which. */
  datatype Metadata = Metadata(chunkIndex: int, startToken: int, endToken: int,
                               charOffsetStart: int, charOffsetEnd: int, chunkMethod: string,
                               pageNumber: Option<int>, tokenizerType: string, kind: Kind)

  /** One chunk dictionary: `text`, `token_count`, `metadata`. */
  datatype Chunk = Chunk(text: string, tokenCount: nat, metadata: Metadata)

  function ToSpan(c: Chunk): Span {
    Span(c.metadata.chunkIndex, c.text, c.tokenCount, c.metadata.startToken, c.metadata.endToken,
         c.metadata.pageNumber, c.metadata.tokenizerType, c.metadata.chunkMethod, c.metadata.kind)
  }

  function Spans(cs: seq<Chunk>): seq<Span> {
    seq(|cs|, i requires 0 <= i < |cs| => ToSpan(cs[i]))
  }

  /** Every chunk's character range is as long as its text and does not
      start before 0. */
  predicate CharsOk(cs: seq<Chunk>) {
    forall i :: 0 <= i < |cs| ==>
      cs[i].metadata.charOffsetEnd - cs[i].metadata.charOffsetStart == |cs[i].text|
      && cs[i].metadata.charOffsetStart >= 0
  }

  /** The chunk with its `chunk_index` overwritten. */
  function WithIndex(c: Chunk, index: int): Chunk {
    c.(metadata := c.metadata.(chunkIndex := index))
  }

  /** The chunks renumbered from `base`. */
  function Renumbered(cs: seq<Chunk>, base: int): seq<Chunk> {
    seq(|cs|, i requires 0 <= i < |cs| => WithIndex(cs[i], base + i))
  }

  /** `sum(c["token_count"] for c in cs)`. */
  function ChunkTokenSum(cs: seq<Chunk>): nat
    decreases |cs|
  {
    if |cs| == 0 then 0 else ChunkTokenSum(cs[..|cs| - 1]) + cs[|cs| - 1].tokenCount
  }

  // ---------------------------------------------------------------------
  // _split_oversized_sentence

  /** The dictionary built for one word group; the index is left at -1 for
      the caller to set. */
  function SplitChunk(cfg: Config, p: Piece): Chunk {
    var text := PieceText(p);
    Chunk(text, p.tokens,
          Metadata(-1, p.start, p.start + p.tokens, p.charPos, p.charPos + |text|,
                   TokenBased, cfg.page, TypeName(cfg.tok), OversizedSplit))
  }

  function SplitChunks(cfg: Config, ps: seq<Piece>): seq<Chunk> {
    seq(|ps|, i requires 0 <= i < |ps| => SplitChunk(cfg, ps[i]))
  }

  /** What `_split_oversized_sentence` returns. */
  function OversizedChunks(cfg: Config, sentence: string, startToken: int, startChar: int): seq<Chunk> {
    SplitChunks(cfg, WordSplit(cfg.tok, cfg.chunkTokens, sentence, startToken, startChar))
  }

  lemma SplitChunksSnoc(cfg: Config, ps: seq<Piece>, p: Piece)
    ensures SplitChunks(cfg, ps + [p]) == SplitChunks(cfg, ps) + [SplitChunk(cfg, p)]
  {
  }

  /** `_split_oversized_sentence`: words are gathered greedily; a group is
      closed when the next word would overflow `chunk_tokens` (never while
      empty), and the local character offset moves past each closed group
      and one separating space. The overlap budget is not used. */
  method SplitOversizedSentence(cfg: Config, sentence: string, startTokenOffset: int, startCharOffset: int)
    returns (chunks: seq<Chunk>)
    ensures chunks == OversizedChunks(cfg, sentence, startTokenOffset, startCharOffset)
  {
    var words := Words(sentence);
    chunks := [];
    var currentWords: seq<string> := [];
    var currentTokens: nat := 0;
    var startToken := startTokenOffset;
    var localCharOffset := startCharOffset;
    for i := 0 to |words|
      invariant var s := SplitRun(cfg.tok, cfg.chunkTokens, words[..i], startTokenOffset, startCharOffset);
        chunks == SplitChunks(cfg, s.done) && currentWords == s.group && currentTokens == s.tokens
        && startToken == s.start && localCharOffset == s.charPos
    {
      assert words[..i + 1][..i] == words[..i];
      var word := words[i];
      var wordTokens := CountTokens(cfg.tok, word);
      if currentTokens + wordTokens > cfg.chunkTokens && |currentWords| > 0 {
        var chunkText := Join(currentWords, " ");
        var p := Piece(currentWords, currentTokens, startToken, localCharOffset);
        SplitChunksSnoc(cfg, SplitRun(cfg.tok, cfg.chunkTokens, words[..i], startTokenOffset, startCharOffset).done, p);
        chunks := chunks + [SplitChunk(cfg, p)];
        startToken := startToken + currentTokens;
        localCharOffset := localCharOffset + |chunkText| + 1;
        currentWords := [];
        currentTokens := 0;
      }
      currentWords := currentWords + [word];
      currentTokens := currentTokens + wordTokens;
    }
    assert words[..|words|] == words;
    if |currentWords| > 0 {
      var p := Piece(currentWords, currentTokens, startToken, localCharOffset);
      SplitChunksSnoc(cfg, SplitRun(cfg.tok, cfg.chunkTokens, words, startTokenOffset, startCharOffset).done, p);
      chunks := chunks + [SplitChunk(cfg, p)];
    }
  }

  // ---------------------------------------------------------------------
  // _token_based_chunker

  /** The loop state: emitted chunks, the pending sentences with their
      token total, `global_token_offset` and `char_offset`. */
  datatype State = State(chunks: seq<Chunk>, current: seq<string>, tokens: nat, offset: int, charPos: int)

  /** The dictionary built from the pending sentences. Its character start
      is `char_offset - len(chunk_text)`, which is not where the text occurs
      in the input (the first chunk starts at 1, not 0). */
  function PackedChunk(cfg: Config, st: State): Chunk {
    var text := Join(st.current, " ");
    Chunk(text, st.tokens,
          Metadata(|st.chunks|, st.offset, st.offset + st.tokens, st.charPos - |text|, st.charPos,
                   TokenBased, cfg.page, TypeName(cfg.tok), Packed(|st.current|)))
  }

  /** Emit the pending chunk and keep its overlap as the new pending chunk;
      the token offset moves to where the overlap begins. */
  function Finalize(cfg: Config, st: State): State {
    var overlap := Overlap(cfg.tok, st.current, cfg.overlapTokens);
    var overlapCount := TokenSum(cfg.tok, overlap);
    State(st.chunks + [PackedChunk(cfg, st)], overlap, overlapCount,
          st.offset + (st.tokens - overlapCount), st.charPos)
  }

  /** Before an oversized sentence: emit whatever is pending, with no overlap. */
  function Flush(cfg: Config, st: State): State {
    if |st.current| > 0 then
      State(st.chunks + [PackedChunk(cfg, st)], [], 0, st.offset + st.tokens, st.charPos)
    else st
  }

  /** An oversized sentence: its word groups are numbered on and appended. */
  function Oversize(cfg: Config, st: State, sentence: string): State {
    var split := OversizedChunks(cfg, sentence, st.offset, st.charPos);
    State(st.chunks + Renumbered(split, |st.chunks|), st.current, st.tokens,
          st.offset + ChunkTokenSum(split), st.charPos + |sentence| + 1)
  }

  function Append(st: State, sentence: string, sentenceTokens: nat): State {
    State(st.chunks, st.current + [sentence], st.tokens + sentenceTokens, st.offset, st.charPos + |sentence| + 1)
  }

  /** One iteration of the sentence loop. */
  function Step(cfg: Config, st: State, sentence: string): State {
    var t := CountTokens(cfg.tok, sentence);
    var st1 := if st.tokens + t > cfg.chunkTokens && |st.current| > 0 then Finalize(cfg, st) else st;
    if t > cfg.chunkTokens then Oversize(cfg, Flush(cfg, st1), sentence)
    else Append(st1, sentence, t)
  }

  function Run(cfg: Config, xs: seq<string>): State
    decreases |xs|
  {
    if |xs| == 0 then State([], [], 0, 0, 0)
    else Step(cfg, Run(cfg, xs[..|xs| - 1]), xs[|xs| - 1])
  }

  /** After the loop the pending sentences, if any, make the last chunk. */
  function Finish(cfg: Config, st: State): seq<Chunk> {
    if |st.current| > 0 then st.chunks + [PackedChunk(cfg, st)] else st.chunks
  }

  function ChunkSentences(cfg: Config, xs: seq<string>): seq<Chunk> {
    Finish(cfg, Run(cfg, xs))
  }

  /** What `_token_based_chunker` returns. */
  function Chunked(cfg: Config, text: string): seq<Chunk> {
    if IsBlank(text) then []
    else
      var sentences := SegmentSentences(cfg.splitter, text);
      if |sentences| == 0 then [] else ChunkSentences(cfg, sentences)
  }

  lemma RenumberedPointwise(xs: seq<Chunk>, ys: seq<Chunk>, base: int)
    requires |xs| == |ys|
    requires forall k :: 0 <= k < |ys| ==> xs[k] == WithIndex(ys[k], base + k)
    ensures xs == Renumbered(ys, base)
  {
  }

  lemma RenumberedSnoc(cs: seq<Chunk>, j: nat, base: int)
    requires j < |cs|
    ensures Renumbered(cs[..j + 1], base) == Renumbered(cs[..j], base) + [WithIndex(cs[j], base + j)]
  {
  }

  /** The block that closes a full chunk (lines shared by the loop's first
      branch): emit the pending sentences, then carry their overlap. */
  method FinalizePending(cfg: Config, chunks: seq<Chunk>, current: seq<string>, currentTokens: nat,
                         globalOffset: int, charOffset: int)
    returns (chunks': seq<Chunk>, current': seq<string>, currentTokens': nat, globalOffset': int)
    ensures State(chunks', current', currentTokens', globalOffset', charOffset)
            == Finalize(cfg, State(chunks, current, currentTokens, globalOffset, charOffset))
  {
    chunks' := chunks + [PackedChunk(cfg, State(chunks, current, currentTokens, globalOffset, charOffset))];
    var overlap, overlapCount := CarryOverlap(cfg.tok, current, cfg.overlapTokens);
    globalOffset' := globalOffset + (currentTokens - overlapCount);
    current' := overlap;
    currentTokens' := overlapCount;
  }

  /** The oversized-sentence branch: emit whatever is pending (no overlap),
      split the sentence into word groups, number them on, and move both
      counters past the sentence. */
  method ChunkOversized(cfg: Config, chunks: seq<Chunk>, current: seq<string>, currentTokens: nat,
                        globalOffset: int, charOffset: int, sentence: string)
    returns (chunks': seq<Chunk>, current': seq<string>, currentTokens': nat, globalOffset': int, charOffset': int)
    ensures State(chunks', current', currentTokens', globalOffset', charOffset')
            == Oversize(cfg, Flush(cfg, State(chunks, current, currentTokens, globalOffset, charOffset)), sentence)
  {
    chunks', current', currentTokens', globalOffset' := chunks, current, currentTokens, globalOffset;
    if |current| > 0 {
      chunks' := chunks + [PackedChunk(cfg, State(chunks, current, currentTokens, globalOffset, charOffset))];
      globalOffset' := globalOffset + currentTokens;
      current' := [];
      currentTokens' := 0;
    }
    var splitChunks := SplitOversizedSentence(cfg, sentence, globalOffset', charOffset);
    ghost var before := chunks';
    for j := 0 to |splitChunks|
      invariant chunks' == before + Renumbered(splitChunks[..j], |before|)
    {
      RenumberedSnoc(splitChunks, j, |before|);
      chunks' := chunks' + [WithIndex(splitChunks[j], |chunks'|)];
    }
    assert splitChunks[..|splitChunks|] == splitChunks;
    globalOffset' := globalOffset' + ChunkTokenSum(splitChunks);
    charOffset' := charOffset + |sentence| + 1;
  }

  /** The body of the sentence loop for one sentence. */
  method PackSentence(cfg: Config, chunks: seq<Chunk>, current: seq<string>, currentTokens: nat,
                      globalOffset: int, charOffset: int, sentence: string)
    returns (chunks': seq<Chunk>, current': seq<string>, currentTokens': nat, globalOffset': int, charOffset': int)
    ensures State(chunks', current', currentTokens', globalOffset', charOffset')
            == Step(cfg, State(chunks, current, currentTokens, globalOffset, charOffset), sentence)
  {
    chunks', current', currentTokens', globalOffset', charOffset' := chunks, current, currentTokens, globalOffset, charOffset;
    var sentenceTokens := CountTokens(cfg.tok, sentence);
    if currentTokens + sentenceTokens > cfg.chunkTokens && |current| > 0 {
      chunks', current', currentTokens', globalOffset' :=
        FinalizePending(cfg, chunks, current, currentTokens, globalOffset, charOffset);
    }
    if sentenceTokens > cfg.chunkTokens {
      chunks', current', currentTokens', globalOffset', charOffset' :=
        ChunkOversized(cfg, chunks', current', currentTokens', globalOffset', charOffset', sentence);
    } else {
      current' := current' + [sentence];
      currentTokens' := currentTokens' + sentenceTokens;
      charOffset' := charOffset' + |sentence| + 1;
    }
  }

  /** `_token_based_chunker`: blank text and text without sentences give no
      chunks; otherwise the sentences are packed. */
  method TokenBasedChunker(cfg: Config, text: string) returns (chunks: seq<Chunk>)
    ensures chunks == Chunked(cfg, text)
  {
    if IsBlank(text) {
      return [];
    }
    var sentences := SegmentSentences(cfg.splitter, text);
    if |sentences| == 0 {
      return [];
    }
    chunks := PackSentences(cfg, sentences);
  }

  /** `_token_based_chunker` called with its keyword defaults. */
  method TokenBasedChunkerDefaults(tok: Tokenizer, splitter: Splitter, text: string) returns (chunks: seq<Chunk>)
    ensures chunks == Chunked(DefaultConfig(tok, splitter), text)
  {
    chunks := TokenBasedChunker(DefaultConfig(tok, splitter), text);
  }

  /** The sentence loop of `_token_based_chunker` and its final flush. */
  method PackSentences(cfg: Config, sentences: seq<string>) returns (chunks: seq<Chunk>)
    ensures chunks == ChunkSentences(cfg, sentences)
  {
    chunks := [];
    var current: seq<string> := [];
    var currentTokens: nat := 0;
    var globalOffset: int := 0;
    var charOffset: int := 0;
    for i := 0 to |sentences|
      invariant State(chunks, current, currentTokens, globalOffset, charOffset) == Run(cfg, sentences[..i])
    {
      assert sentences[..i + 1][..i] == sentences[..i];
      chunks, current, currentTokens, globalOffset, charOffset :=
        PackSentence(cfg, chunks, current, currentTokens, globalOffset, charOffset, sentences[i]);
    }
    assert sentences[..|sentences|] == sentences;
    if |current| > 0 {
      chunks := chunks + [PackedChunk(cfg, State(chunks, current, currentTokens, globalOffset, charOffset))];
    }
  }

  // ---------------------------------------------------------------------
  // What the chunker guarantees

  /** The emitted chunks so far: numbered by position, each well formed,
      consecutive ones linked, character ranges as long as their texts,
      and the first one starting at token 0. */
  predicate ChunksOk(cfg: Config, cs: seq<Chunk>) {
    SpansOk(cfg, Spans(cs)) && Linked(cfg, Spans(cs)) && CharsOk(cs)
    && (|cs| > 0 ==> cs[0].metadata.startToken == 0)
  }

  /** `char_offset` after the sentences: each counts its length plus one. */
  function Consumed(xs: seq<string>): nat
    decreases |xs|
  {
    if |xs| == 0 then 0 else Consumed(xs[..|xs| - 1]) + |xs[|xs| - 1]| + 1
  }

  /** Every chunk holds what `Holds` says: a packed one a run of
      consecutive sentences and their tokens, a split one words and theirs. */
  ghost predicate SentencesOf(tok: Tokenizer, xs: seq<string>, cs: seq<Chunk>) {
    forall i :: 0 <= i < |cs| ==> Holds(tok, xs, ToSpan(cs[i]))
  }

  lemma SentencesOfSnoc(tok: Tokenizer, xs: seq<string>, s: string, cs: seq<Chunk>)
    requires SentencesOf(tok, xs, cs)
    ensures SentencesOf(tok, xs + [s], cs)
  {
    forall i | 0 <= i < |cs| ensures Holds(tok, xs + [s], ToSpan(cs[i])) {
      HoldsSnoc(tok, xs, s, ToSpan(cs[i]));
    }
  }

  lemma SentencesOfAppend(tok: Tokenizer, xs: seq<string>, cs: seq<Chunk>, ds: seq<Chunk>)
    requires SentencesOf(tok, xs, cs) && SentencesOf(tok, xs, ds)
    ensures SentencesOf(tok, xs, cs + ds)
  {
    forall i | 0 <= i < |cs + ds| ensures Holds(tok, xs, ToSpan((cs + ds)[i])) {
      if i < |cs| { assert (cs + ds)[i] == cs[i]; } else { assert (cs + ds)[i] == ds[i - |cs|]; }
    }
  }

  /** The same, read through the chunks' spans. */
  lemma SentencesOfSpans(tok: Tokenizer, xs: seq<string>, cs: seq<Chunk>)
    requires SentencesOf(tok, xs, cs)
    ensures AllHold(tok, xs, Spans(cs))
  {
    forall i | 0 <= i < |cs| ensures Holds(tok, xs, Spans(cs)[i]) {
      assert Spans(cs)[i] == ToSpan(cs[i]);
    }
  }

  /** What the sentence loop keeps true after consuming `xs`: the pending
      total is the pending sentences' count, the pending chunk is within
      the budgets, all tokens consumed are accounted for by the offset and
      the pending total, and the last emitted chunk ends no earlier than
      the offset and no later than the pending total past it. */
  ghost predicate Inv(cfg: Config, xs: seq<string>, st: State) {
    && st.tokens == TokenSum(cfg.tok, st.current)
    && st.offset >= 0
    && st.charPos >= |Join(st.current, " ")|
    && (|st.current| > 0 ==> cfg.chunkTokens >= 0 && st.tokens <= cfg.chunkTokens + OverlapBound(cfg))
    && st.offset + st.tokens == Contributions(cfg, xs)
    && (|xs| > 0 ==> |st.current| > 0 || |st.chunks| > 0)
    && ChunksOk(cfg, st.chunks)
    && (|st.chunks| == 0 ==> st.offset == 0)
    && (|st.chunks| > 0 ==>
          var gap := st.chunks[|st.chunks| - 1].metadata.endToken - st.offset;
          0 <= gap <= OverlapBound(cfg) && gap <= st.tokens)
  }

  lemma SpansAppend(a: seq<Chunk>, b: seq<Chunk>)
    ensures Spans(a + b) == Spans(a) + Spans(b)
  {
  }

  /** Chunks `ds`, numbered on from `|cs|`, well formed and linked among
      themselves, appended to well-formed `cs` where the seam is linked too. */
  lemma ChunksAppend(cfg: Config, cs: seq<Chunk>, ds: seq<Chunk>)
    requires ChunksOk(cfg, cs)
    requires forall j :: 0 <= j < |ds| ==> ds[j].metadata.chunkIndex == |cs| + j && SpanOk(cfg, ToSpan(ds[j]))
    requires Linked(cfg, Spans(ds)) && CharsOk(ds)
    requires |cs| > 0 && |ds| > 0 ==>
      0 <= cs[|cs| - 1].metadata.endToken - ds[0].metadata.startToken <= OverlapBound(cfg)
    requires |cs| == 0 && |ds| > 0 ==> ds[0].metadata.startToken == 0
    ensures ChunksOk(cfg, cs + ds)
  {
    SpansAppend(cs, ds);
    var a, b := Spans(cs), Spans(ds);
    SpansOkAppend(cfg, a, b);
    LinkedAppend(cfg, a, b);
    forall i | 0 <= i < |cs + ds|
      ensures (cs + ds)[i].metadata.charOffsetEnd - (cs + ds)[i].metadata.charOffsetStart == |(cs + ds)[i].text|
        && (cs + ds)[i].metadata.charOffsetStart >= 0
    {
      if i < |cs| { assert (cs + ds)[i] == cs[i]; } else { assert (cs + ds)[i] == ds[i - |cs|]; }
    }
    if |cs| == 0 && |ds| > 0 {
      assert (cs + ds)[0] == ds[0];
    }
  }

  /** The pending chunk is well formed and ends where the pending total
      takes the offset. */
  lemma PackedChunkOk(cfg: Config, xs: seq<string>, st: State)
    requires Inv(cfg, xs, st) && |st.current| > 0
    ensures ChunksOk(cfg, st.chunks + [PackedChunk(cfg, st)])
    ensures PackedChunk(cfg, st).metadata.endToken == st.offset + st.tokens
  {
    var c := PackedChunk(cfg, st);
    if cfg.tok.Whitespace? {
      WhitespaceSumOfJoin(st.current);
    }
    assert SpanOk(cfg, ToSpan(c));
    assert Spans([c]) == [ToSpan(c)];
    ChunksAppend(cfg, st.chunks, [c]);
  }

  lemma FinalizeInv(cfg: Config, xs: seq<string>, st: State)
    requires Inv(cfg, xs, st) && |st.current| > 0
    ensures Inv(cfg, xs, Finalize(cfg, st))
  {
    PackedChunkOk(cfg, xs, st);
    OverlapBounds(cfg.tok, st.current, cfg.overlapTokens);
    OverlapWithin(cfg.tok, st.current, cfg.overlapTokens);
  }

  lemma FlushInv(cfg: Config, xs: seq<string>, st: State)
    requires Inv(cfg, xs, st)
    ensures Inv(cfg, xs, Flush(cfg, st)) && Flush(cfg, st).current == []
  {
    if |st.current| > 0 {
      PackedChunkOk(cfg, xs, st);
    }
  }

  lemma SplitChunkTokens(cfg: Config, ps: seq<Piece>)
    ensures ChunkTokenSum(SplitChunks(cfg, ps)) == PieceTokens(ps)
    decreases |ps|
  {
    if |ps| > 0 {
      var n := |ps|;
      SplitChunkTokens(cfg, ps[..n - 1]);
      assert SplitChunks(cfg, ps)[..n - 1] == SplitChunks(cfg, ps[..n - 1]);
    }
  }

  /** A split chunk is well formed. */
  lemma SplitChunkOk(cfg: Config, p: Piece)
    requires PieceOk(cfg.tok, cfg.chunkTokens, p) && p.start >= 0
    ensures SpanOk(cfg, ToSpan(SplitChunk(cfg, p)))
  {
    if |p.words| == 1 {
      SingleWordText(p);
    }
    if cfg.tok.Whitespace? {
      WhitespaceSumOfJoin(p.words);
    }
  }

  /** The chunks of chained pieces are well formed and contiguous in
      tokens, from the first piece's start to the last piece's end. */
  lemma SplitChunksOk(cfg: Config, ps: seq<Piece>, start: int, charPos: int)
    requires PiecesFrom(cfg.tok, cfg.chunkTokens, ps, start, charPos) && start >= 0 && charPos >= 0
    ensures var cs := SplitChunks(cfg, ps);
      && (forall j :: 0 <= j < |cs| ==> SpanOk(cfg, ToSpan(cs[j])))
      && Linked(cfg, Spans(cs)) && CharsOk(cs)
      && (|cs| > 0 ==> cs[0].metadata.startToken == start
                       && cs[|cs| - 1].metadata.endToken == NextStart(ps[|ps| - 1]))
  {
    var cs := SplitChunks(cfg, ps);
    forall j | 0 <= j < |cs| ensures SpanOk(cfg, ToSpan(cs[j])) {
      SplitChunkOk(cfg, ps[j]);
    }
    SplitChunksLinked(cfg, ps, start, charPos);
    assert CharsOk(cs) by {
      forall j | 0 <= j < |cs|
        ensures cs[j].metadata.charOffsetEnd - cs[j].metadata.charOffsetStart == |cs[j].text|
                && cs[j].metadata.charOffsetStart >= 0
      {
        assert cs[j] == SplitChunk(cfg, ps[j]);
        assert ps[j].charPos >= charPos;
      }
    }
  }

  lemma SplitChunksLinked(cfg: Config, ps: seq<Piece>, start: int, charPos: int)
    requires Chained(ps, start, charPos)
    ensures Linked(cfg, Spans(SplitChunks(cfg, ps)))
  {
    var ss := Spans(SplitChunks(cfg, ps));
    forall i | 0 < i < |ss|
      ensures 0 <= ss[i - 1].endToken - ss[i].startToken <= OverlapBound(cfg)
    {
      assert ss[i - 1].endToken == ps[i - 1].start + ps[i - 1].tokens;
      assert ss[i].startToken == ps[i].start;
      assert ps[i].start == NextStart(ps[i - 1]);
    }
  }

  /** Renumbering touches nothing but the indices. */
  lemma RenumberedOk(cfg: Config, cs: seq<Chunk>, base: int)
    requires forall j :: 0 <= j < |cs| ==> SpanOk(cfg, ToSpan(cs[j]))
    requires Linked(cfg, Spans(cs)) && CharsOk(cs)
    ensures var ds := Renumbered(cs, base);
      && (forall j :: 0 <= j < |ds| ==> ds[j].metadata.chunkIndex == base + j && SpanOk(cfg, ToSpan(ds[j])))
      && Linked(cfg, Spans(ds)) && CharsOk(ds)
      && |ds| == |cs|
      && (forall j :: 0 <= j < |ds| ==>
            ds[j].metadata.startToken == cs[j].metadata.startToken && ds[j].metadata.endToken == cs[j].metadata.endToken)
  {
    var ds := Renumbered(cs, base);
    forall i | 0 < i < |ds|
      ensures 0 <= Spans(ds)[i - 1].endToken - Spans(ds)[i].startToken <= OverlapBound(cfg)
    {
      assert Spans(ds)[i - 1].endToken == Spans(cs)[i - 1].endToken;
      assert Spans(ds)[i].startToken == Spans(cs)[i].startToken;
    }
  }

  /** The word groups of an oversized sentence started at non-negative
      counters, numbered from `base`: well formed, contiguous in tokens,
      starting at `start` and ending after all of the sentence's word
      tokens; a non-blank sentence gives at least one. */
  lemma OversizedOk(cfg: Config, sentence: string, start: int, charPos: int, base: int)
    requires start >= 0 && charPos >= 0
    ensures var split := OversizedChunks(cfg, sentence, start, charPos);
      var ds := Renumbered(split, base);
      && (forall j :: 0 <= j < |ds| ==> ds[j].metadata.chunkIndex == base + j && SpanOk(cfg, ToSpan(ds[j])))
      && Linked(cfg, Spans(ds)) && CharsOk(ds)
      && ChunkTokenSum(split) == TokenSum(cfg.tok, Words(sentence))
      && (|ds| > 0 ==> ds[0].metadata.startToken == start
                       && ds[|ds| - 1].metadata.endToken == start + ChunkTokenSum(split))
      && (!IsBlank(sentence) ==> |ds| > 0)
  {
    var ps := WordSplit(cfg.tok, cfg.chunkTokens, sentence, start, charPos);
    var split := SplitChunks(cfg, ps);
    WordSplitSpec(cfg.tok, cfg.chunkTokens, sentence, start, charPos);
    SplitChunkTokens(cfg, ps);
    SplitChunksOk(cfg, ps, start, charPos);
    RenumberedOk(cfg, split, base);
  }

  lemma ContributionsSnoc(cfg: Config, xs: seq<string>, s: string)
    ensures Contributions(cfg, xs + [s]) == Contributions(cfg, xs) + Contribution(cfg, s)
    ensures Consumed(xs + [s]) == Consumed(xs) + |s| + 1
  {
    assert (xs + [s])[..|xs|] == xs;
  }

  /** An oversized sentence after the pending chunk was flushed. */
  lemma OversizeInv(cfg: Config, xs: seq<string>, st: State, sentence: string)
    requires Inv(cfg, xs, st) && st.current == []
    requires CountTokens(cfg.tok, sentence) > cfg.chunkTokens && !IsBlank(sentence)
    ensures Inv(cfg, xs + [sentence], Oversize(cfg, st, sentence))
  {
    var split := OversizedChunks(cfg, sentence, st.offset, st.charPos);
    var ds := Renumbered(split, |st.chunks|);
    OversizedOk(cfg, sentence, st.offset, st.charPos, |st.chunks|);
    ChunksAppend(cfg, st.chunks, ds);
    ContributionsSnoc(cfg, xs, sentence);
    assert (st.chunks + ds)[|st.chunks + ds| - 1] == ds[|ds| - 1];
  }

  /** A sentence that fits is added to the pending chunk. */
  lemma AppendInv(cfg: Config, xs: seq<string>, st: State, sentence: string)
    requires Inv(cfg, xs, st)
    requires CountTokens(cfg.tok, sentence) <= cfg.chunkTokens
    requires st.tokens + CountTokens(cfg.tok, sentence) <= cfg.chunkTokens + OverlapBound(cfg)
    ensures Inv(cfg, xs + [sentence], Append(st, sentence, CountTokens(cfg.tok, sentence)))
  {
    TokenSumSnoc(cfg.tok, st.current, sentence);
    ContributionsSnoc(cfg, xs, sentence);
    if |st.current| > 0 {
      JoinSnoc(st.current, sentence, " ");
    } else {
      assert st.current + [sentence] == [sentence];
    }
  }

  lemma StepInv(cfg: Config, xs: seq<string>, st: State, sentence: string)
    requires Inv(cfg, xs, st) && !IsBlank(sentence)
    ensures Inv(cfg, xs + [sentence], Step(cfg, st, sentence))
  {
    var t := CountTokens(cfg.tok, sentence);
    var st1 := if st.tokens + t > cfg.chunkTokens && |st.current| > 0 then Finalize(cfg, st) else st;
    if st.tokens + t > cfg.chunkTokens && |st.current| > 0 {
      FinalizeInv(cfg, xs, st);
      OverlapBounds(cfg.tok, st.current, cfg.overlapTokens);
    }
    if t > cfg.chunkTokens {
      FlushInv(cfg, xs, st1);
      OversizeInv(cfg, xs, Flush(cfg, st1), sentence);
    } else {
      AppendInv(cfg, xs, st1, sentence);
    }
  }

  lemma {:induction false} RunInv(cfg: Config, xs: seq<string>)
    requires NonBlank(xs)
    ensures Inv(cfg, xs, Run(cfg, xs))
    decreases |xs|
  {
    if |xs| > 0 {
      var init := xs[..|xs| - 1];
      assert NonBlank(init) by {
        forall k | 0 <= k < |init| ensures !IsBlank(init[k]) { assert init[k] == xs[k]; }
      }
      RunInv(cfg, init);
      assert init + [xs[|xs| - 1]] == xs;
      StepInv(cfg, init, Run(cfg, init), xs[|xs| - 1]);
    }
  }

  /** The final flush keeps the chunks well formed, and the last chunk
      then ends at the end of the token stream. */
  lemma FinishOk(cfg: Config, xs: seq<string>, st: State)
    requires Inv(cfg, xs, st)
    ensures var r := Finish(cfg, st);
      && ChunksOk(cfg, r)
      && (|xs| > 0 ==> |r| > 0)
      && (|r| > 0 ==> r[|r| - 1].metadata.endToken == Contributions(cfg, xs))
  {
    if |st.current| > 0 {
      PackedChunkOk(cfg, xs, st);
      var r := st.chunks + [PackedChunk(cfg, st)];
      assert Finish(cfg, st) == r && r[|r| - 1] == PackedChunk(cfg, st);
    } else {
      assert Finish(cfg, st) == st.chunks;
      assert st.tokens == 0 by { assert st.current == []; }
    }
  }

  /** The packed sentences: well-formed, linked chunks numbered from 0,
      starting at token 0 and ending after every token the sentences
      contribute; some sentence gives some chunk. */
  lemma ChunkSentencesSpec(cfg: Config, xs: seq<string>)
    requires NonBlank(xs)
    ensures var r := ChunkSentences(cfg, xs);
      && ChunksOk(cfg, r)
      && (|xs| > 0 <==> |r| > 0)
      && (|r| > 0 ==> r[|r| - 1].metadata.endToken == Contributions(cfg, xs))
  {
    var st := Run(cfg, xs);
    assert ChunkSentences(cfg, xs) == Finish(cfg, st);
    if |xs| == 0 {
      assert st == State([], [], 0, 0, 0);
    } else {
      RunInv(cfg, xs);
      FinishOk(cfg, xs, st);
    }
  }

  /** What the sentence loop keeps true of the text: the pending sentences
      are the latest ones consumed, `char_offset` has moved past every
      consumed sentence and one space, and every packed chunk holds a run
      of consecutive sentences. */
  ghost predicate Tracks(cfg: Config, xs: seq<string>, st: State) {
    && Latest(cfg, xs, st)
    && st.charPos == Consumed(xs)
    && SentencesOf(cfg.tok, xs, st.chunks)
  }

  /** The pending sentences are the latest ones consumed, and the pending
      total is their token sum. */
  predicate Latest(cfg: Config, xs: seq<string>, st: State) {
    && |st.current| <= |xs| && st.current == xs[|xs| - |st.current|..]
    && st.tokens == TokenSum(cfg.tok, st.current)
  }

  lemma FinalizeLatest(cfg: Config, xs: seq<string>, st: State)
    requires Latest(cfg, xs, st)
    ensures Latest(cfg, xs, Finalize(cfg, st))
  {
    var ov := Overlap(cfg.tok, st.current, cfg.overlapTokens);
    OverlapIsSuffix(cfg.tok, st.current, cfg.overlapTokens);
    SuffixOfSuffix(xs, st.current, ov);
    var st1 := Finalize(cfg, st);
    assert st1.current == ov && st1.tokens == TokenSum(cfg.tok, ov);
  }

  lemma SuffixOfSuffix(xs: seq<string>, cur: seq<string>, ov: seq<string>)
    requires |cur| <= |xs| && cur == xs[|xs| - |cur|..]
    requires |ov| <= |cur| && ov == cur[|cur| - |ov|..]
    ensures ov == xs[|xs| - |ov|..]
  {
    forall k | 0 <= k < |ov| ensures ov[k] == xs[|xs| - |ov| + k] {
      assert ov[k] == cur[|cur| - |ov| + k];
    }
  }

  lemma PackedTracks(cfg: Config, xs: seq<string>, st: State)
    requires Tracks(cfg, xs, st)
    ensures SentencesOf(cfg.tok, xs, st.chunks + [PackedChunk(cfg, st)])
  {
    var c := PackedChunk(cfg, st);
    assert SentencesOf(cfg.tok, xs, [c]) by {
      var a := |xs| - |st.current|;
      assert xs[a..|xs|] == st.current;
      assert [c][0] == c && c.metadata.kind.sentenceCount == |xs| - a;
      assert c.text == Join(xs[a..|xs|], " ") && c.tokenCount == TokenSum(cfg.tok, xs[a..|xs|]);
      assert Holds(cfg.tok, xs, ToSpan(c));
    }
    SentencesOfAppend(cfg.tok, xs, st.chunks, [c]);
  }

  lemma FinalizeTracks(cfg: Config, xs: seq<string>, st: State)
    requires Tracks(cfg, xs, st)
    ensures Tracks(cfg, xs, Finalize(cfg, st))
  {
    PackedTracks(cfg, xs, st);
    FinalizeLatest(cfg, xs, st);
  }

  lemma FlushTracks(cfg: Config, xs: seq<string>, st: State)
    requires Tracks(cfg, xs, st)
    ensures Tracks(cfg, xs, Flush(cfg, st)) && Flush(cfg, st).current == []
  {
    if |st.current| > 0 {
      PackedTracks(cfg, xs, st);
    }
  }

  /** Each word group counts the tokens of its words. */
  lemma OversizedCounts(cfg: Config, sentence: string, start: int, charPos: int, base: int)
    ensures var ds := Renumbered(OversizedChunks(cfg, sentence, start, charPos), base);
      forall j :: 0 <= j < |ds| ==>
        ds[j].metadata.kind == OversizedSplit && ds[j].tokenCount == TokenSum(cfg.tok, Words(ds[j].text))
  {
    var ps := WordSplit(cfg.tok, cfg.chunkTokens, sentence, start, charPos);
    assert forall k :: 0 <= k < |ps| ==> PieceOk(cfg.tok, cfg.chunkTokens, ps[k]) by {
      WordSplitSpec(cfg.tok, cfg.chunkTokens, sentence, start, charPos);
    }
    var ds := Renumbered(OversizedChunks(cfg, sentence, start, charPos), base);
    forall j | 0 <= j < |ds|
      ensures ds[j].metadata.kind == OversizedSplit && ds[j].tokenCount == TokenSum(cfg.tok, Words(ds[j].text))
    {
      PieceCounts(cfg.tok, cfg.chunkTokens, ps[j]);
      assert ds[j].text == PieceText(ps[j]) && ds[j].tokenCount == ps[j].tokens;
    }
  }

  lemma OversizeTracks(cfg: Config, xs: seq<string>, st: State, sentence: string)
    requires Tracks(cfg, xs, st) && st.current == []
    ensures Tracks(cfg, xs + [sentence], Oversize(cfg, st, sentence))
  {
    var ds := Renumbered(OversizedChunks(cfg, sentence, st.offset, st.charPos), |st.chunks|);
    ContributionsSnoc(cfg, xs, sentence);
    SentencesOfSnoc(cfg.tok, xs, sentence, st.chunks);
    assert SentencesOf(cfg.tok, xs + [sentence], ds) by {
      OversizedCounts(cfg, sentence, st.offset, st.charPos, |st.chunks|);
    }
    SentencesOfAppend(cfg.tok, xs + [sentence], st.chunks, ds);
  }

  lemma AppendTracks(cfg: Config, xs: seq<string>, st: State, sentence: string, t: nat)
    requires Tracks(cfg, xs, st) && t == CountTokens(cfg.tok, sentence)
    ensures Tracks(cfg, xs + [sentence], Append(st, sentence, t))
  {
    ContributionsSnoc(cfg, xs, sentence);
    SentencesOfSnoc(cfg.tok, xs, sentence, st.chunks);
    TokenSumSnoc(cfg.tok, st.current, sentence);
    var xs' := xs + [sentence];
    assert st.current + [sentence] == xs'[|xs'| - |st.current| - 1..] by {
      assert xs'[..|xs|] == xs;
    }
  }

  lemma StepTracks(cfg: Config, xs: seq<string>, st: State, sentence: string)
    requires Tracks(cfg, xs, st)
    ensures Tracks(cfg, xs + [sentence], Step(cfg, st, sentence))
  {
    var t := CountTokens(cfg.tok, sentence);
    var st1 := if st.tokens + t > cfg.chunkTokens && |st.current| > 0 then Finalize(cfg, st) else st;
    if st.tokens + t > cfg.chunkTokens && |st.current| > 0 {
      FinalizeTracks(cfg, xs, st);
    }
    if t > cfg.chunkTokens {
      FlushTracks(cfg, xs, st1);
      OversizeTracks(cfg, xs, Flush(cfg, st1), sentence);
    } else {
      AppendTracks(cfg, xs, st1, sentence, t);
    }
  }

  lemma {:induction false} RunTracks(cfg: Config, xs: seq<string>)
    ensures Tracks(cfg, xs, Run(cfg, xs))
    decreases |xs|
  {
    if |xs| > 0 {
      var init := xs[..|xs| - 1];
      RunTracks(cfg, init);
      assert init + [xs[|xs| - 1]] == xs;
      StepTracks(cfg, init, Run(cfg, init), xs[|xs| - 1]);
    }
  }

  /** Every packed chunk `_token_based_chunker` returns is `sentence_count`
      consecutive sentences of the text joined by single spaces (the
      overlap re-emission included), counting their tokens, and every
      split chunk counts the tokens of its words. */
  lemma ChunkedSentences(cfg: Config, text: string)
    ensures SentencesOf(cfg.tok, SegmentSentences(cfg.splitter, text), Chunked(cfg, text))
  {
    var xs := SegmentSentences(cfg.splitter, text);
    if !IsBlank(text) && |xs| > 0 {
      RunTracks(cfg, xs);
      var st := Run(cfg, xs);
      if |st.current| > 0 {
        PackedTracks(cfg, xs, st);
      }
    }
  }

  /** `_token_based_chunker`'s promise: blank text gives no chunks; the
      chunks are numbered 0, 1, 2, ..., each within its budget and tagged
      with the page, tier and method; a packed chunk is `sentence_count`
      consecutive sentences joined by spaces and counts their tokens, a
      split one counts its words' tokens; each starts at or before where the
      previous one ended, overlapping it by at most `overlap_tokens`; the
      first starts at token 0 and the last ends after every token of the
      sentences; every chunk but the last was closed as `Closes` says (a
      packed one because the next sentence would have overflowed it, the
      next chunk starting where it ends less the overlap carried over);
      the first chunk's character range starts at 0 or 1 as the first
      sentence is split or packed; no chunk's text is empty or blank, and
      under the whitespace tier every count is positive; a sentence above
      `chunk_tokens` gives at least one `oversized_split` chunk; and with
      the regex splitter non-blank text always gives at least one chunk. */
  lemma ChunkedSpec(cfg: Config, text: string)
    ensures var r := Chunked(cfg, text);
      var xs := SegmentSentences(cfg.splitter, text);
      && (IsBlank(text) ==> r == [])
      && ChunksOk(cfg, r)
      && (|r| > 0 ==> r[|r| - 1].metadata.endToken == Contributions(cfg, xs))
      && AllHold(cfg.tok, xs, Spans(r))
      && ClosedChain(cfg, xs, Spans(r))
      && (|r| > 0 ==> |xs| > 0 && r[0].metadata.charOffsetStart == FirstCharStart(cfg, xs[0]))
      && (forall i :: 0 <= i < |r| ==> |r[i].text| > 0 && !IsBlank(r[i].text))
      && (cfg.tok.Whitespace? ==> forall i :: 0 <= i < |r| ==> r[i].tokenCount > 0)
      && (HasOversized(cfg, xs) ==> HasSplit(r))
      && (cfg.splitter.Regex? && !IsBlank(text) ==> |r| > 0)
  {
    var xs := SegmentSentences(cfg.splitter, text);
    var r := Chunked(cfg, text);
    SegmentNonBlank(cfg.splitter, text);
    if IsBlank(text) || |xs| == 0 {
      assert r == [];
    } else {
      assert r == ChunkSentences(cfg, xs);
      ChunkSentencesAll(cfg, xs);
    }
    if cfg.splitter.Regex? {
      RegexSegmentKeepsText(text);
    }
  }

  /** The promises of `ChunkedSpec` for the chunks of a non-empty list of
      non-blank sentences. */
  lemma ChunkSentencesAll(cfg: Config, xs: seq<string>)
    requires NonBlank(xs) && |xs| > 0
    ensures var r := ChunkSentences(cfg, xs);
      && ChunksOk(cfg, r)
      && (|r| > 0 ==> r[|r| - 1].metadata.endToken == Contributions(cfg, xs))
      && AllHold(cfg.tok, xs, Spans(r))
      && ClosedChain(cfg, xs, Spans(r))
      && (|r| > 0 ==> r[0].metadata.charOffsetStart == FirstCharStart(cfg, xs[0]))
      && (forall i :: 0 <= i < |r| ==> |r[i].text| > 0 && !IsBlank(r[i].text))
      && (cfg.tok.Whitespace? ==> forall i :: 0 <= i < |r| ==> r[i].tokenCount > 0)
      && (HasOversized(cfg, xs) ==> HasSplit(r))
  {
    var r := ChunkSentences(cfg, xs);
    ChunkSentencesSpec(cfg, xs);
    assert AllHold(cfg.tok, xs, Spans(r)) by {
      FinishWords(cfg, xs);
      SentencesOfSpans(cfg.tok, xs, r);
    }
    ChunkSentencesCloses(cfg, xs);
    ChunkSentencesFirst(cfg, xs);
    ChunkSentencesNonBlank(cfg, xs);
    NonBlankChunks(cfg, r);
  }

  /** Under the whitespace tier every sentence contributes its number of
      words, split or not, so the stream holds exactly the words of the
      sentences. */
  lemma {:induction false} WhitespaceContributions(cfg: Config, xs: seq<string>)
    requires cfg.tok.Whitespace?
    ensures Contributions(cfg, xs) == CountTokens(Whitespace, Join(xs, " "))
    decreases |xs|
  {
    WhitespaceSumOfJoin(xs);
    if |xs| > 0 {
      var init := xs[..|xs| - 1];
      var s := xs[|xs| - 1];
      WhitespaceContributions(cfg, init);
      WhitespaceSumOfJoin(init);
      WhitespaceSumOfJoin(Words(s));
      WordsJoinWords(Words(s));
      assert Contribution(cfg, s) == CountTokens(Whitespace, s);
    }
  }

  /** As written, a sentence too large for any chunk that arrives when the
      pending chunk is full makes the pending chunk be emitted, its overlap
      become pending, and the flush before the split emit that overlap on
      its own: the closing sentences of one chunk are repeated, alone, as
      the next chunk. */
  lemma OverlapReemitted(cfg: Config, st: State, sentence: string)
    requires |st.current| > 0 && CountTokens(cfg.tok, sentence) > cfg.chunkTokens
    requires |Overlap(cfg.tok, st.current, cfg.overlapTokens)| > 0
    ensures var st' := Step(cfg, st, sentence);
      var ov := Overlap(cfg.tok, st.current, cfg.overlapTokens);
      && |st'.chunks| >= |st.chunks| + 2
      && st'.chunks[|st.chunks|].text == Join(st.current, " ")
      && st'.chunks[|st.chunks| + 1].text == Join(ov, " ")
      && st'.chunks[|st.chunks| + 1].metadata.kind == Packed(|ov|)
      && |ov| <= |st.current| && ov == st.current[|st.current| - |ov|..]
  {
    OverlapIsSuffix(cfg.tok, st.current, cfg.overlapTokens);
    var n := |st.chunks|;
    var st1 := Finalize(cfg, st);
    assert st1.chunks == st.chunks + [PackedChunk(cfg, st)];
    assert |st1.current| > 0;
    var st2 := Flush(cfg, st1);
    assert st2.chunks == st1.chunks + [PackedChunk(cfg, st1)];
    var st' := Oversize(cfg, st2, sentence);
    assert Step(cfg, st, sentence) == st';
    assert st'.chunks[n] == st2.chunks[n] == st1.chunks[n] == PackedChunk(cfg, st);
    assert st'.chunks[n + 1] == st2.chunks[n + 1] == PackedChunk(cfg, st1);
  }

  // ---------------------------------------------------------------------
  // Why each chunk was closed

  /** Where the offset stands after the last emitted chunk: a packed one
      was closed by an overflowing sentence and the offset is where its
      overlap begins (its end, when nothing is pending); after a split
      chunk the offset is at its end. */
  ghost predicate Pending(cfg: Config, xs: seq<string>, st: State) {
    |st.chunks| > 0 ==>
      var c := ToSpan(st.chunks[|st.chunks| - 1]);
      && (c.kind.Packed? ==>
            exists a, b :: ClosedRun(cfg, xs, c, a, b)
                           && st.offset == c.endToken - Carried(cfg, xs[a..b])
                           && (st.current == [] ==> st.offset == c.endToken))
      && (c.kind.OversizedSplit? ==> st.offset == c.endToken)
  }

  /** The emitted chunks follow each other as `Closes` says, and the
      offset stands after the last as `Pending` says. */
  ghost predicate Closing(cfg: Config, xs: seq<string>, st: State) {
    ClosedChain(cfg, xs, Spans(st.chunks)) && Pending(cfg, xs, st)
  }

  /** What an oversized sentence needs: the offset is at the end of the
      last chunk, a packed one of which was closed by an overflow. */
  ghost predicate Ready(cfg: Config, xs: seq<string>, st: State) {
    |st.chunks| > 0 ==>
      var c := ToSpan(st.chunks[|st.chunks| - 1]);
      && (c.kind.Packed? ==> exists a, b :: ClosedRun(cfg, xs, c, a, b))
      && st.offset == c.endToken
  }

  lemma ClosingSnoc(cfg: Config, xs: seq<string>, s: string, st: State)
    requires Closing(cfg, xs, st)
    ensures Closing(cfg, xs + [s], st)
  {
    ClosedChainSnoc(cfg, xs, s, Spans(st.chunks));
    if |st.chunks| > 0 {
      var c := ToSpan(st.chunks[|st.chunks| - 1]);
      if c.kind.Packed? {
        var a, b :| ClosedRun(cfg, xs, c, a, b)
                    && st.offset == c.endToken - Carried(cfg, xs[a..b])
                    && (st.current == [] ==> st.offset == c.endToken);
        assert (xs + [s])[a..b] == xs[a..b] && (xs + [s])[b] == xs[b];
        assert ClosedRun(cfg, xs + [s], c, a, b);
      }
    }
  }

  /** A chunk starting at the offset may follow the last emitted one; a
      split chunk only when nothing is pending. */
  lemma PendingCloses(cfg: Config, xs: seq<string>, st: State, d: Span)
    requires Pending(cfg, xs, st) && |st.chunks| > 0
    requires d.startToken == st.offset
    requires d.kind.OversizedSplit? ==> st.current == []
    ensures Closes(cfg, xs, ToSpan(st.chunks[|st.chunks| - 1]), d)
  {
    var c := ToSpan(st.chunks[|st.chunks| - 1]);
    if c.kind.Packed? {
      var a, b :| ClosedRun(cfg, xs, c, a, b)
                  && st.offset == c.endToken - Carried(cfg, xs[a..b])
                  && (st.current == [] ==> st.offset == c.endToken);
      assert d.startToken == c.endToken - (if d.kind.Packed? then Carried(cfg, xs[a..b]) else 0);
    }
  }

  /** Emitting the pending sentences because the latest sentence of `ys`
      would overflow them: the new chunk follows the last one, and it is
      closed by that sentence. */
  lemma EmitCloses(cfg: Config, ys: seq<string>, st: State)
    requires Closing(cfg, ys, st) && 0 < |st.current| < |ys|
    requires st.current == ys[|ys| - 1 - |st.current|..|ys| - 1]
    requires st.tokens + CountTokens(cfg.tok, ys[|ys| - 1]) > cfg.chunkTokens
    requires st.tokens == TokenSum(cfg.tok, st.current)
    ensures var p := ToSpan(PackedChunk(cfg, st));
      && ClosedChain(cfg, ys, Spans(st.chunks + [PackedChunk(cfg, st)]))
      && ClosedRun(cfg, ys, p, |ys| - 1 - |st.current|, |ys| - 1)
  {
    var p := ToSpan(PackedChunk(cfg, st));
    if |st.chunks| > 0 {
      PendingCloses(cfg, ys, st, p);
    }
    SpansAppend(st.chunks, [PackedChunk(cfg, st)]);
    assert Spans([PackedChunk(cfg, st)]) == [p];
    ClosedChainAppend(cfg, ys, Spans(st.chunks), [p]);
  }

  lemma FinalizeCloses(cfg: Config, ys: seq<string>, st: State)
    requires Closing(cfg, ys, st) && 0 < |st.current| < |ys|
    requires st.current == ys[|ys| - 1 - |st.current|..|ys| - 1]
    requires st.tokens + CountTokens(cfg.tok, ys[|ys| - 1]) > cfg.chunkTokens
    requires st.tokens == TokenSum(cfg.tok, st.current)
    ensures Closing(cfg, ys, Finalize(cfg, st))
  {
    EmitCloses(cfg, ys, st);
    var st1 := Finalize(cfg, st);
    assert st1.chunks[|st1.chunks| - 1] == PackedChunk(cfg, st);
    var a, b := |ys| - 1 - |st.current|, |ys| - 1;
    assert ys[a..b] == st.current;
    assert st1.offset == ToSpan(PackedChunk(cfg, st)).endToken - Carried(cfg, ys[a..b]);
  }

  /** The flush before an oversized sentence leaves the offset at the
      end of the last chunk. */
  lemma FlushCloses(cfg: Config, ys: seq<string>, st: State)
    requires Closing(cfg, ys, st) && |ys| > 0
    requires CountTokens(cfg.tok, ys[|ys| - 1]) > cfg.chunkTokens
    requires |st.current| > 0 ==>
      |st.current| < |ys| && st.current == ys[|ys| - 1 - |st.current|..|ys| - 1]
    requires st.tokens == TokenSum(cfg.tok, st.current)
    ensures ClosedChain(cfg, ys, Spans(Flush(cfg, st).chunks)) && Ready(cfg, ys, Flush(cfg, st))
  {
    if |st.current| > 0 {
      EmitCloses(cfg, ys, st);
      assert Flush(cfg, st).chunks[|Flush(cfg, st).chunks| - 1] == PackedChunk(cfg, st);
    } else if |st.chunks| > 0 {
      var c := ToSpan(st.chunks[|st.chunks| - 1]);
      if c.kind.Packed? {
        var a, b :| ClosedRun(cfg, ys, c, a, b)
                    && st.offset == c.endToken - Carried(cfg, ys[a..b])
                    && (st.current == [] ==> st.offset == c.endToken);
      }
    }
  }

  /** The word groups of an oversized sentence follow each other with no
      gap and start at the given character counter. */
  lemma OversizedChained(cfg: Config, sentence: string, start: int, charPos: int, base: int)
    ensures var ds := Renumbered(OversizedChunks(cfg, sentence, start, charPos), base);
      && (forall j :: 0 <= j < |ds| ==> ds[j].metadata.kind == OversizedSplit)
      && (forall j :: 0 < j < |ds| ==> ds[j].metadata.startToken == ds[j - 1].metadata.endToken)
      && (|ds| > 0 ==> ds[0].metadata.charOffsetStart == charPos)
  {
    WordSplitSpec(cfg.tok, cfg.chunkTokens, sentence, start, charPos);
    SplitChunksChained(cfg, WordSplit(cfg.tok, cfg.chunkTokens, sentence, start, charPos), start, charPos, base);
  }

  lemma SplitChunksChained(cfg: Config, ps: seq<Piece>, start: int, charPos: int, base: int)
    requires Chained(ps, start, charPos)
    ensures var ds := Renumbered(SplitChunks(cfg, ps), base);
      && (forall j :: 0 <= j < |ds| ==> ds[j].metadata.kind == OversizedSplit)
      && (forall j :: 0 < j < |ds| ==> ds[j].metadata.startToken == ds[j - 1].metadata.endToken)
      && (|ds| > 0 ==> ds[0].metadata.charOffsetStart == charPos)
  {
    var ds := Renumbered(SplitChunks(cfg, ps), base);
    forall j | 0 < j < |ds| ensures ds[j].metadata.startToken == ds[j - 1].metadata.endToken {
      assert ds[j].metadata.startToken == ps[j].start == NextStart(ps[j - 1]);
    }
  }

  lemma OversizeCloses(cfg: Config, ys: seq<string>, st: State, sentence: string)
    requires ClosedChain(cfg, ys, Spans(st.chunks)) && Ready(cfg, ys, st)
    requires st.offset >= 0 && st.charPos >= 0 && !IsBlank(sentence)
    ensures Closing(cfg, ys, Oversize(cfg, st, sentence))
  {
    var split := OversizedChunks(cfg, sentence, st.offset, st.charPos);
    var ds := Renumbered(split, |st.chunks|);
    var ts := Spans(ds);
    var st' := Oversize(cfg, st, sentence);
    assert |ds| > 0 && ts[0].startToken == st.offset && ts[0].kind == OversizedSplit
           && ts[|ts| - 1].endToken == st'.offset && ts[|ts| - 1].kind == OversizedSplit
           && ClosedChain(cfg, ys, ts) by {
      OversizedOk(cfg, sentence, st.offset, st.charPos, |st.chunks|);
      OversizedChained(cfg, sentence, st.offset, st.charPos, |st.chunks|);
      SplitSpansChain(cfg, ys, ds);
    }
    if |st.chunks| > 0 {
      ReadyCloses(cfg, ys, st, ts[0]);
    }
    SpansAppend(st.chunks, ds);
    ClosedChainAppend(cfg, ys, Spans(st.chunks), ts);
    assert st'.chunks[|st'.chunks| - 1] == ds[|ds| - 1];
  }

  /** A split chunk starting at the offset may follow the last chunk when
      the state is ready for it. */
  lemma ReadyCloses(cfg: Config, xs: seq<string>, st: State, d: Span)
    requires Ready(cfg, xs, st) && |st.chunks| > 0
    requires d.kind == OversizedSplit && d.startToken == st.offset
    ensures Closes(cfg, xs, ToSpan(st.chunks[|st.chunks| - 1]), d)
  {
    var c := ToSpan(st.chunks[|st.chunks| - 1]);
    if c.kind.Packed? {
      var a, b :| ClosedRun(cfg, xs, c, a, b);
      assert ClosedRun(cfg, xs, c, a, b) && d.startToken == c.endToken - 0;
    }
  }

  /** Split chunks that follow each other with no gap form a chain. */
  lemma SplitSpansChain(cfg: Config, xs: seq<string>, ds: seq<Chunk>)
    requires forall j :: 0 <= j < |ds| ==> ds[j].metadata.kind == OversizedSplit
    requires forall j :: 0 < j < |ds| ==> ds[j].metadata.startToken == ds[j - 1].metadata.endToken
    ensures ClosedChain(cfg, xs, Spans(ds))
  {
    var ts := Spans(ds);
    forall i | 0 < i < |ts| ensures Closes(cfg, xs, ts[i - 1], ts[i]) {
      assert ts[i - 1] == ToSpan(ds[i - 1]) && ts[i] == ToSpan(ds[i]);
    }
  }

  lemma AppendCloses(cfg: Config, ys: seq<string>, st: State, sentence: string, t: nat)
    requires Closing(cfg, ys, st)
    ensures Closing(cfg, ys, Append(st, sentence, t))
  {
    if |st.chunks| > 0 {
      var c := ToSpan(st.chunks[|st.chunks| - 1]);
      if c.kind.Packed? {
        var a, b :| ClosedRun(cfg, ys, c, a, b)
                    && st.offset == c.endToken - Carried(cfg, ys[a..b])
                    && (st.current == [] ==> st.offset == c.endToken);
      }
    }
  }

  lemma StepCloses(cfg: Config, xs: seq<string>, st: State, sentence: string)
    requires Closing(cfg, xs, st) && Latest(cfg, xs, st) && Inv(cfg, xs, st) && !IsBlank(sentence)
    ensures Closing(cfg, xs + [sentence], Step(cfg, st, sentence))
  {
    var ys := xs + [sentence];
    var t := CountTokens(cfg.tok, sentence);
    var full := st.tokens + t > cfg.chunkTokens && |st.current| > 0;
    var st1 := if full then Finalize(cfg, st) else st;
    assert Closing(cfg, ys, st1) by {
      ClosingSnoc(cfg, xs, sentence, st);
      if full {
        assert ys[|ys| - 1] == sentence && ys[..|xs|] == xs;
        assert st.current == ys[|ys| - 1 - |st.current|..|ys| - 1];
        FinalizeCloses(cfg, ys, st);
      }
    }
    if t > cfg.chunkTokens {
      assert Latest(cfg, xs, st1) && Inv(cfg, xs, st1) by {
        if full {
          FinalizeLatest(cfg, xs, st);
          FinalizeInv(cfg, xs, st);
        }
      }
      OversizeStepCloses(cfg, xs, st1, sentence);
    } else {
      AppendCloses(cfg, ys, st1, sentence, t);
    }
  }

  /** The oversized branch of a step, after the optional finalize. */
  lemma OversizeStepCloses(cfg: Config, xs: seq<string>, st: State, sentence: string)
    requires Closing(cfg, xs + [sentence], st) && Latest(cfg, xs, st) && Inv(cfg, xs, st) && !IsBlank(sentence)
    requires CountTokens(cfg.tok, sentence) > cfg.chunkTokens
    ensures Closing(cfg, xs + [sentence], Oversize(cfg, Flush(cfg, st), sentence))
  {
    var ys := xs + [sentence];
    assert ys[|ys| - 1] == sentence && ys[..|xs|] == xs;
    assert |st.current| > 0 ==> st.current == ys[|ys| - 1 - |st.current|..|ys| - 1];
    FlushCloses(cfg, ys, st);
    OversizeCloses(cfg, ys, Flush(cfg, st), sentence);
  }

  lemma {:induction false} RunCloses(cfg: Config, xs: seq<string>)
    requires NonBlank(xs)
    ensures Closing(cfg, xs, Run(cfg, xs))
    decreases |xs|
  {
    if |xs| > 0 {
      var init := xs[..|xs| - 1];
      assert NonBlank(init) by {
        forall k | 0 <= k < |init| ensures !IsBlank(init[k]) { assert init[k] == xs[k]; }
      }
      assert init + [xs[|xs| - 1]] == xs;
      RunCloses(cfg, init);
      RunInv(cfg, init);
      RunTracks(cfg, init);
      StepCloses(cfg, init, Run(cfg, init), xs[|xs| - 1]);
    }
  }

  /** Every packed chunk but the last was closed because the next sentence
      would have overflowed it, and the chunk after it starts where it
      ends less the overlap of its sentences; every split chunk but the
      last is followed with no gap. */
  lemma ChunkSentencesCloses(cfg: Config, xs: seq<string>)
    requires NonBlank(xs)
    ensures ClosedChain(cfg, xs, Spans(ChunkSentences(cfg, xs)))
  {
    RunCloses(cfg, xs);
    FinishCloses(cfg, xs, Run(cfg, xs));
  }

  /** The final flush adds a chunk that may follow the last one. */
  lemma FinishCloses(cfg: Config, xs: seq<string>, st: State)
    requires Closing(cfg, xs, st)
    ensures ClosedChain(cfg, xs, Spans(Finish(cfg, st)))
  {
    if |st.current| > 0 {
      var p := ToSpan(PackedChunk(cfg, st));
      if |st.chunks| > 0 {
        PendingCloses(cfg, xs, st, p);
      }
      SpansAppend(st.chunks, [PackedChunk(cfg, st)]);
      assert Spans([PackedChunk(cfg, st)]) == [p];
      ClosedChainAppend(cfg, xs, Spans(st.chunks), [p]);
    }
  }

  // ---------------------------------------------------------------------
  // The first chunk's character start

  /** Where the first chunk's character range starts: 0 when the first
      sentence is split (the word groups start at the counter itself),
      and 1 when it is packed (`char_offset - len(chunk_text)` after the
      counter has moved one past the packed text). */
  function FirstCharStart(cfg: Config, first: string): int {
    if CountTokens(cfg.tok, first) > cfg.chunkTokens then 0 else 1
  }

  /** Until a chunk is emitted every sentence is pending and the first fits
      the budget; afterwards the first chunk starts as `FirstCharStart`
      says. */
  ghost predicate FirstChar(cfg: Config, xs: seq<string>, st: State) {
    && (|st.chunks| == 0 ==> st.current == xs && (|xs| > 0 ==> CountTokens(cfg.tok, xs[0]) <= cfg.chunkTokens))
    && (|st.chunks| > 0 ==> |xs| > 0 && st.chunks[0].metadata.charOffsetStart == FirstCharStart(cfg, xs[0]))
  }

  /** The character counter after sentences is one past their joined text. */
  lemma {:induction false} ConsumedJoin(xs: seq<string>)
    requires |xs| > 0
    ensures Consumed(xs) == |Join(xs, " ")| + 1
    decreases |xs|
  {
    var init := xs[..|xs| - 1];
    if |init| > 0 {
      ConsumedJoin(init);
      assert init + [xs[|xs| - 1]] == xs;
      JoinSnoc(init, xs[|xs| - 1], " ");
    }
  }

  /** What follows the optional finalize in a step only appends chunks. */
  lemma TailKeepsChunks(cfg: Config, st: State, sentence: string)
    ensures var t := CountTokens(cfg.tok, sentence);
      var st' := if t > cfg.chunkTokens then Oversize(cfg, Flush(cfg, st), sentence) else Append(st, sentence, t);
      |st'.chunks| >= |st.chunks| && st'.chunks[..|st.chunks|] == st.chunks
  {
    var st2 := Flush(cfg, st);
    assert st2.chunks[..|st.chunks|] == st.chunks;
    var st3 := Oversize(cfg, st2, sentence);
    assert st3.chunks[..|st2.chunks|] == st2.chunks;
    assert st3.chunks[..|st.chunks|] == st3.chunks[..|st2.chunks|][..|st.chunks|];
  }

  /** A step never changes the chunks already emitted. */
  lemma StepKeepsChunks(cfg: Config, st: State, sentence: string)
    ensures var st' := Step(cfg, st, sentence);
      |st'.chunks| >= |st.chunks| && st'.chunks[..|st.chunks|] == st.chunks
  {
    var t := CountTokens(cfg.tok, sentence);
    var st1 := if st.tokens + t > cfg.chunkTokens && |st.current| > 0 then Finalize(cfg, st) else st;
    TailKeepsChunks(cfg, st1, sentence);
    var st' := Step(cfg, st, sentence);
    assert st1.chunks[..|st.chunks|] == st.chunks;
    assert st'.chunks[..|st.chunks|] == st'.chunks[..|st1.chunks|][..|st.chunks|];
  }

  lemma StepFirst(cfg: Config, xs: seq<string>, st: State, sentence: string)
    requires FirstChar(cfg, xs, st) && Tracks(cfg, xs, st) && Inv(cfg, xs, st) && !IsBlank(sentence)
    ensures FirstChar(cfg, xs + [sentence], Step(cfg, st, sentence))
  {
    var ys := xs + [sentence];
    var st' := Step(cfg, st, sentence);
    var t := CountTokens(cfg.tok, sentence);
    if |st.chunks| > 0 {
      StepKeepsChunks(cfg, st, sentence);
      assert st'.chunks[0] == st'.chunks[..|st.chunks|][0];
      assert ys[0] == xs[0];
    } else if |xs| == 0 {
      assert ys[0] == sentence;
      if t > cfg.chunkTokens {
        assert st.current == [] && Flush(cfg, st) == st;
        OversizedOk(cfg, sentence, st.offset, st.charPos, 0);
        OversizedChained(cfg, sentence, st.offset, st.charPos, 0);
        assert st'.chunks == Renumbered(OversizedChunks(cfg, sentence, st.offset, st.charPos), 0);
      } else {
        assert st.current + [sentence] == ys;
      }
    } else {
      assert ys[0] == xs[0];
      if st.tokens + t > cfg.chunkTokens {
        ConsumedJoin(xs);
        var st1 := Finalize(cfg, st);
        assert st1.chunks == [PackedChunk(cfg, st)];
        TailKeepsChunks(cfg, st1, sentence);
        assert st'.chunks[0] == st'.chunks[..|st1.chunks|][0];
      } else {
        assert st.current + [sentence] == ys;
      }
    }
  }

  lemma {:induction false} RunFirst(cfg: Config, xs: seq<string>)
    requires NonBlank(xs)
    ensures FirstChar(cfg, xs, Run(cfg, xs))
    decreases |xs|
  {
    if |xs| > 0 {
      var init := xs[..|xs| - 1];
      assert NonBlank(init) by {
        forall k | 0 <= k < |init| ensures !IsBlank(init[k]) { assert init[k] == xs[k]; }
      }
      assert init + [xs[|xs| - 1]] == xs;
      RunFirst(cfg, init);
      RunInv(cfg, init);
      RunTracks(cfg, init);
      StepFirst(cfg, init, Run(cfg, init), xs[|xs| - 1]);
    }
  }

  /** The first chunk's character range starts at 0 when the first
      sentence is split and at 1 when it is packed. */
  lemma ChunkSentencesFirst(cfg: Config, xs: seq<string>)
    requires NonBlank(xs) && |xs| > 0
    ensures var r := ChunkSentences(cfg, xs);
      |r| > 0 && r[0].metadata.charOffsetStart == FirstCharStart(cfg, xs[0])
  {
    var st := Run(cfg, xs);
    RunFirst(cfg, xs);
    RunTracks(cfg, xs);
    if |st.chunks| == 0 {
      ConsumedJoin(xs);
      assert ChunkSentences(cfg, xs) == [PackedChunk(cfg, st)];
    } else {
      assert ChunkSentences(cfg, xs)[0] == st.chunks[0];
    }
  }

  // ---------------------------------------------------------------------
  // No chunk is empty

  /** Every split chunk holds a word. */
  predicate SplitsWords(cs: seq<Chunk>) {
    forall i :: 0 <= i < |cs| && cs[i].metadata.kind.OversizedSplit? ==> !IsBlank(cs[i].text)
  }

  /** Some chunk is an `oversized_split` one. */
  predicate HasSplit(cs: seq<Chunk>) {
    exists i :: 0 <= i < |cs| && cs[i].metadata.kind.OversizedSplit?
  }

  lemma SplitsWordsAppend(cs: seq<Chunk>, ds: seq<Chunk>)
    requires SplitsWords(cs) && SplitsWords(ds)
    ensures SplitsWords(cs + ds)
  {
    forall i | 0 <= i < |cs + ds| && (cs + ds)[i].metadata.kind.OversizedSplit?
      ensures !IsBlank((cs + ds)[i].text)
    {
      if i < |cs| { assert (cs + ds)[i] == cs[i]; } else { assert (cs + ds)[i] == ds[i - |cs|]; }
    }
  }

  /** A word group's text is not blank. */
  lemma PieceNonBlank(tok: Tokenizer, chunkTokens: int, p: Piece)
    requires PieceOk(tok, chunkTokens, p)
    ensures !IsBlank(PieceText(p))
  {
    var ws := p.words;
    assert IsWord(ws[|ws| - 1]) && !IsSpace(ws[|ws| - 1][0]);
    JoinLastNonBlank(ws, " ");
  }

  /** Each word group `_split_oversized_sentence` returns holds a word. */
  lemma OversizedWords(cfg: Config, sentence: string, start: int, charPos: int, base: int)
    ensures var ds := Renumbered(OversizedChunks(cfg, sentence, start, charPos), base);
      forall j :: 0 <= j < |ds| ==> !IsBlank(ds[j].text)
  {
    var ps := WordSplit(cfg.tok, cfg.chunkTokens, sentence, start, charPos);
    assert forall k :: 0 <= k < |ps| ==> PieceOk(cfg.tok, cfg.chunkTokens, ps[k]) by {
      WordSplitSpec(cfg.tok, cfg.chunkTokens, sentence, start, charPos);
    }
    var ds := Renumbered(OversizedChunks(cfg, sentence, start, charPos), base);
    forall j | 0 <= j < |ds| ensures !IsBlank(ds[j].text) {
      PieceNonBlank(cfg.tok, cfg.chunkTokens, ps[j]);
      assert ds[j].text == PieceText(ps[j]);
    }
  }

  /** A step emits only packed chunks and word groups. */
  lemma StepWords(cfg: Config, st: State, sentence: string)
    requires SplitsWords(st.chunks)
    ensures SplitsWords(Step(cfg, st, sentence).chunks)
  {
    var t := CountTokens(cfg.tok, sentence);
    var st1 := if st.tokens + t > cfg.chunkTokens && |st.current| > 0 then Finalize(cfg, st) else st;
    assert SplitsWords(st1.chunks) by {
      SplitsWordsAppend(st.chunks, [PackedChunk(cfg, st)]);
    }
    if t > cfg.chunkTokens {
      var st2 := Flush(cfg, st1);
      SplitsWordsAppend(st1.chunks, [PackedChunk(cfg, st1)]);
      var ds := Renumbered(OversizedChunks(cfg, sentence, st2.offset, st2.charPos), |st2.chunks|);
      OversizedWords(cfg, sentence, st2.offset, st2.charPos, |st2.chunks|);
      SplitsWordsAppend(st2.chunks, ds);
    }
  }

  /** A sentence above the budget appends at least one word group. */
  lemma StepSplit(cfg: Config, st: State, sentence: string)
    requires !IsBlank(sentence) && CountTokens(cfg.tok, sentence) > cfg.chunkTokens
    ensures HasSplit(Step(cfg, st, sentence).chunks)
  {
    var t := CountTokens(cfg.tok, sentence);
    var st1 := if st.tokens + t > cfg.chunkTokens && |st.current| > 0 then Finalize(cfg, st) else st;
    var st2 := Flush(cfg, st1);
    WordSplitSpec(cfg.tok, cfg.chunkTokens, sentence, st2.offset, st2.charPos);
    OversizedChained(cfg, sentence, st2.offset, st2.charPos, |st2.chunks|);
    var ds := Renumbered(OversizedChunks(cfg, sentence, st2.offset, st2.charPos), |st2.chunks|);
    var cs := Step(cfg, st, sentence).chunks;
    assert cs == st2.chunks + ds;
    assert cs[|st2.chunks|] == ds[0];
  }

  lemma {:induction false} RunWords(cfg: Config, xs: seq<string>)
    requires NonBlank(xs)
    ensures SplitsWords(Run(cfg, xs).chunks)
    ensures HasOversized(cfg, xs) ==> HasSplit(Run(cfg, xs).chunks)
    decreases |xs|
  {
    if |xs| > 0 {
      var init := xs[..|xs| - 1];
      var s := xs[|xs| - 1];
      assert NonBlank(init) by {
        forall k | 0 <= k < |init| ensures !IsBlank(init[k]) { assert init[k] == xs[k]; }
      }
      RunWords(cfg, init);
      var st := Run(cfg, init);
      StepWords(cfg, st, s);
      if CountTokens(cfg.tok, s) > cfg.chunkTokens {
        StepSplit(cfg, st, s);
      } else if HasOversized(cfg, xs) {
        var k :| 0 <= k < |xs| && CountTokens(cfg.tok, xs[k]) > cfg.chunkTokens;
        assert init[k] == xs[k];
        var i :| 0 <= i < |st.chunks| && st.chunks[i].metadata.kind.OversizedSplit?;
        StepKeepsChunks(cfg, st, s);
        assert Run(cfg, xs).chunks[i] == Run(cfg, xs).chunks[..|st.chunks|][i];
      }
    }
  }

  /** A join of a non-empty run of non-blank sentences is not blank. */
  lemma RunNonBlank(xs: seq<string>, a: int, b: int)
    requires NonBlank(xs) && 0 <= a < b <= |xs|
    ensures !IsBlank(Join(xs[a..b], " "))
  {
    assert xs[a..b][b - a - 1] == xs[b - 1];
    JoinLastNonBlank(xs[a..b], " ");
  }

  /** Every packed chunk counts at least one sentence. */
  lemma PackedCounts(cfg: Config, xs: seq<string>)
    requires NonBlank(xs)
    ensures var r := ChunkSentences(cfg, xs);
      forall i :: 0 <= i < |r| && r[i].metadata.kind.Packed? ==> r[i].metadata.kind.sentenceCount > 0
  {
    var r := ChunkSentences(cfg, xs);
    assert SpansOk(cfg, Spans(r)) by { ChunkSentencesSpec(cfg, xs); }
    forall i | 0 <= i < |r| && r[i].metadata.kind.Packed? ensures r[i].metadata.kind.sentenceCount > 0 {
      assert SpanOk(cfg, Spans(r)[i]) && Spans(r)[i] == ToSpan(r[i]);
    }
  }

  /** The chunks after the loop's last flush: its chunks and split chunks
      kept, and the packed ones still runs of sentences. */
  lemma FinishWords(cfg: Config, xs: seq<string>)
    requires NonBlank(xs)
    ensures var r := ChunkSentences(cfg, xs);
      && SplitsWords(r) && SentencesOf(cfg.tok, xs, r)
      && (HasOversized(cfg, xs) ==> HasSplit(r))
  {
    var st := Run(cfg, xs);
    var r := ChunkSentences(cfg, xs);
    RunWords(cfg, xs);
    RunTracks(cfg, xs);
    if |st.current| > 0 {
      SplitsWordsAppend(st.chunks, [PackedChunk(cfg, st)]);
      PackedTracks(cfg, xs, st);
    }
    if HasOversized(cfg, xs) {
      var i :| 0 <= i < |st.chunks| && st.chunks[i].metadata.kind.OversizedSplit?;
      assert r[i] == st.chunks[i];
    }
  }

  /** No chunk of `_token_based_chunker` is blank, since a packed chunk
      joins at least one sentence and a split one at least one word; and
      a sentence above `chunk_tokens` always yields an `oversized_split`
      chunk. */
  lemma ChunkSentencesNonBlank(cfg: Config, xs: seq<string>)
    requires NonBlank(xs)
    ensures var r := ChunkSentences(cfg, xs);
      && (forall i :: 0 <= i < |r| ==> !IsBlank(r[i].text))
      && (HasOversized(cfg, xs) ==> HasSplit(r))
  {
    var r := ChunkSentences(cfg, xs);
    FinishWords(cfg, xs);
    PackedCounts(cfg, xs);
    forall i | 0 <= i < |r| ensures !IsBlank(r[i].text) {
      if r[i].metadata.kind.Packed? {
        var a, b :| 0 <= a <= b <= |xs| && b - a == r[i].metadata.kind.sentenceCount
                    && r[i].text == Join(xs[a..b], " ");
        RunNonBlank(xs, a, b);
      }
    }
  }

  /** The same facts for the chunks as field values: non-empty text, and
      under the whitespace tier a positive count, as every chunk counts
      the words of its text. */
  lemma NonBlankChunks(cfg: Config, r: seq<Chunk>)
    requires ChunksOk(cfg, r)
    requires forall i :: 0 <= i < |r| ==> !IsBlank(r[i].text)
    ensures forall i :: 0 <= i < |r| ==> |r[i].text| > 0
    ensures cfg.tok.Whitespace? ==> forall i :: 0 <= i < |r| ==> r[i].tokenCount > 0
  {
    forall i | 0 <= i < |r| ensures |r[i].text| > 0 && (cfg.tok.Whitespace? ==> r[i].tokenCount > 0) {
      assert SpanOk(cfg, Spans(r)[i]) && Spans(r)[i] == ToSpan(r[i]);
      WhitespaceCounts(r[i].text);
    }
  }

  // ---------------------------------------------------------------------
  // _chunk_pdf and _chunk_text

  /** The page loop of `_chunk_pdf` over the extracted page texts: blank
      pages are skipped, each other page is chunked on its own with its
      1-based page number, and indices run on across pages. */
  function PdfChunks(cfg: Config, pages: seq<string>): seq<Chunk>
    decreases |pages|
  {
    if |pages| == 0 then []
    else
      var prev := PdfChunks(cfg, pages[..|pages| - 1]);
      var page := pages[|pages| - 1];
      if IsBlank(page) then prev
      else prev + Renumbered(Chunked(cfg.(page := Some(|pages|)), page), |prev|)
  }

  lemma PdfChunksSnoc(cfg: Config, pages: seq<string>, p: nat)
    requires p < |pages|
    ensures PdfChunks(cfg, pages[..p + 1])
            == if IsBlank(pages[p]) then PdfChunks(cfg, pages[..p])
               else PdfChunks(cfg, pages[..p])
                    + Renumbered(Chunked(cfg.(page := Some(p + 1)), pages[p]), |PdfChunks(cfg, pages[..p])|)
  {
    assert pages[..p + 1][..p] == pages[..p];
  }

  /** The in-place pass that overwrites each page chunk's index with the
      running global index. */
  method Reindex(pageChunks: seq<Chunk>, globalChunkIndex: int) returns (chunks: seq<Chunk>, next: int)
    ensures chunks == Renumbered(pageChunks, globalChunkIndex)
    ensures next == globalChunkIndex + |pageChunks|
  {
    chunks := pageChunks;
    next := globalChunkIndex;
    for j := 0 to |chunks|
      invariant |chunks| == |pageChunks|
      invariant forall k :: 0 <= k < j ==> chunks[k] == WithIndex(pageChunks[k], globalChunkIndex + k)
      invariant forall k :: j <= k < |chunks| ==> chunks[k] == pageChunks[k]
      invariant next == globalChunkIndex + j
    {
      chunks := chunks[j := WithIndex(chunks[j], next)];
      next := next + 1;
    }
    RenumberedPointwise(chunks, pageChunks, globalChunkIndex);
  }

  method ChunkPdf(cfg: Config, pages: seq<string>) returns (allChunks: seq<Chunk>)
    ensures allChunks == PdfChunks(cfg, pages)
  {
    allChunks := [];
    var globalChunkIndex := 0;
    for p := 0 to |pages|
      invariant allChunks == PdfChunks(cfg, pages[..p])
      invariant globalChunkIndex == |allChunks|
    {
      PdfChunksSnoc(cfg, pages, p);
      var pageText := pages[p];
      if IsBlank(pageText) {
        continue;
      }
      var pageChunks := TokenBasedChunker(cfg.(page := Some(p + 1)), pageText);
      pageChunks, globalChunkIndex := Reindex(pageChunks, globalChunkIndex);
      allChunks := allChunks + pageChunks;
    }
    assert pages[..|pages|] == pages;
  }

  /** The page a chunk was tagged with (0 when none). */
  function PageOf(c: Chunk): int {
    match c.metadata.pageNumber
    case Some(n) => n
    case None => 0
  }

  /** Every chunk comes from a non-blank page and is well formed for it. */
  predicate FromPages(cfg: Config, pages: seq<string>, r: seq<Chunk>) {
    forall i :: 0 <= i < |r| ==>
      r[i].metadata.pageNumber.Some? && 1 <= PageOf(r[i]) <= |pages| && !IsBlank(pages[PageOf(r[i]) - 1])
      && SpanOk(cfg.(page := r[i].metadata.pageNumber), ToSpan(r[i]))
  }

  /** Pages appear in order; within a page consecutive chunks are linked,
      and each page's first chunk starts again at token 0. */
  predicate PagesLinked(cfg: Config, r: seq<Chunk>) {
    && (forall i, j :: 0 <= i < j < |r| ==> PageOf(r[i]) <= PageOf(r[j]))
    && (|r| > 0 ==> r[0].metadata.startToken == 0)
    && (forall i :: 0 < i < |r| ==>
          if PageOf(r[i - 1]) == PageOf(r[i])
          then 0 <= r[i - 1].metadata.endToken - r[i].metadata.startToken <= OverlapBound(cfg)
          else r[i].metadata.startToken == 0)
  }

  predicate PdfOk(cfg: Config, pages: seq<string>, r: seq<Chunk>) {
    (forall i :: 0 <= i < |r| ==> r[i].metadata.chunkIndex == i)
    && FromPages(cfg, pages, r) && PagesLinked(cfg, r) && CharsOk(r)
  }

  /** One page's chunks numbered from `base`, in the terms the page loop needs. */
  predicate PageChunks(cfg: Config, n: int, base: int, ds: seq<Chunk>) {
    && (forall j :: 0 <= j < |ds| ==>
          ds[j].metadata.chunkIndex == base + j && ds[j].metadata.pageNumber == Some(n) && PageOf(ds[j]) == n
          && SpanOk(cfg.(page := Some(n)), ToSpan(ds[j])))
    && (forall j :: 0 < j < |ds| ==>
          0 <= ds[j - 1].metadata.endToken - ds[j].metadata.startToken <= OverlapBound(cfg))
    && CharsOk(ds)
    && (|ds| > 0 ==> ds[0].metadata.startToken == 0)
  }

  lemma PageChunksOk(cfg: Config, page: string, n: int, base: int)
    ensures var ds := Renumbered(Chunked(cfg.(page := Some(n)), page), base);
      && PageChunks(cfg, n, base, ds)
      && (cfg.splitter.Regex? && !IsBlank(page) ==> |ds| > 0)
  {
    var cfgp := cfg.(page := Some(n));
    var chunked := Chunked(cfgp, page);
    var ds := Renumbered(chunked, base);
    assert ChunksOk(cfgp, chunked) && (cfg.splitter.Regex? && !IsBlank(page) ==> |chunked| > 0) by {
      ChunkedSpec(cfgp, page);
    }
    forall j | 0 <= j < |chunked| ensures SpanOk(cfgp, ToSpan(chunked[j])) {
      assert Spans(chunked)[j] == ToSpan(chunked[j]);
    }
    RenumberedOk(cfgp, chunked, base);
    forall j | 0 <= j < |ds| ensures ds[j].metadata.pageNumber == Some(n) && PageOf(ds[j]) == n {
      assert SpanOk(cfgp, ToSpan(ds[j]));
    }
    forall j | 0 < j < |ds|
      ensures 0 <= ds[j - 1].metadata.endToken - ds[j].metadata.startToken <= OverlapBound(cfg)
    {
      assert Spans(ds)[j - 1] == ToSpan(ds[j - 1]) && Spans(ds)[j] == ToSpan(ds[j]);
    }
    if |ds| > 0 {
      assert chunked[0].metadata.startToken == 0;
    }
  }

  /** One more non-blank page's chunks, numbered on. */
  lemma PdfAppendPage(cfg: Config, pages: seq<string>, r: seq<Chunk>, ds: seq<Chunk>)
    requires |pages| > 0 && !IsBlank(pages[|pages| - 1])
    requires PdfOk(cfg, pages, r)
    requires forall i :: 0 <= i < |r| ==> PageOf(r[i]) < |pages|
    requires PageChunks(cfg, |pages|, |r|, ds)
    ensures PdfOk(cfg, pages, r + ds)
  {
    var n := |pages|;
    var r' := r + ds;
    forall i | 0 <= i < |r'|
      ensures r'[i].metadata.chunkIndex == i
      ensures r'[i].metadata.pageNumber.Some? && 1 <= PageOf(r'[i]) <= n && !IsBlank(pages[PageOf(r'[i]) - 1])
      ensures SpanOk(cfg.(page := r'[i].metadata.pageNumber), ToSpan(r'[i]))
      ensures r'[i].metadata.charOffsetEnd - r'[i].metadata.charOffsetStart == |r'[i].text|
      ensures r'[i].metadata.charOffsetStart >= 0
    {
      if i < |r| { assert r'[i] == r[i]; } else { assert r'[i] == ds[i - |r|]; }
    }
    PdfAppendLinked(cfg, n, r, ds);
  }

  lemma PdfAppendLinked(cfg: Config, n: int, r: seq<Chunk>, ds: seq<Chunk>)
    requires PagesLinked(cfg, r)
    requires forall i :: 0 <= i < |r| ==> PageOf(r[i]) < n
    requires PageChunks(cfg, n, |r|, ds)
    ensures PagesLinked(cfg, r + ds)
  {
    var r' := r + ds;
    forall i, j | 0 <= i < j < |r'| ensures PageOf(r'[i]) <= PageOf(r'[j]) {
      if j < |r| { assert r'[i] == r[i] && r'[j] == r[j]; }
      else if i < |r| { assert r'[i] == r[i] && r'[j] == ds[j - |r|]; }
      else { assert r'[i] == ds[i - |r|] && r'[j] == ds[j - |r|]; }
    }
    forall i | 0 < i < |r'|
      ensures if PageOf(r'[i - 1]) == PageOf(r'[i])
              then 0 <= r'[i - 1].metadata.endToken - r'[i].metadata.startToken <= OverlapBound(cfg)
              else r'[i].metadata.startToken == 0
    {
      if i < |r| {
        assert r'[i - 1] == r[i - 1] && r'[i] == r[i];
      } else if i == |r| {
        assert r'[i - 1] == r[i - 1] && r'[i] == ds[0];
      } else {
        assert r'[i - 1] == ds[i - 1 - |r|] && r'[i] == ds[i - |r|];
      }
    }
    if |r| == 0 && |ds| > 0 {
      assert r'[0] == ds[0];
    }
  }

  /** A chunk list that is well formed for the first pages stays so when
      more pages follow. */
  lemma PdfOkPrefix(cfg: Config, pages: seq<string>, k: nat, r: seq<Chunk>)
    requires k <= |pages| && PdfOk(cfg, pages[..k], r)
    ensures PdfOk(cfg, pages, r)
    ensures forall i :: 0 <= i < |r| ==> PageOf(r[i]) <= k
  {
    forall i | 0 <= i < |r| ensures !IsBlank(pages[PageOf(r[i]) - 1]) {
      assert pages[..k][PageOf(r[i]) - 1] == pages[PageOf(r[i]) - 1];
    }
  }

  /** `_chunk_pdf`'s promise: indices run 0, 1, 2, ... across all pages;
      every chunk carries the 1-based number of a non-blank page and is
      well formed for it; pages appear in order; token positions restart
      at 0 on every page and chunks of one page are linked. */
  lemma {:induction false} PdfSpec(cfg: Config, pages: seq<string>)
    ensures PdfOk(cfg, pages, PdfChunks(cfg, pages))
    decreases |pages|
  {
    if |pages| > 0 {
      var n := |pages|;
      var prev := PdfChunks(cfg, pages[..n - 1]);
      PdfSpec(cfg, pages[..n - 1]);
      PdfOkPrefix(cfg, pages, n - 1, prev);
      if !IsBlank(pages[n - 1]) {
        PageChunksOk(cfg, pages[n - 1], n, |prev|);
        PdfAppendPage(cfg, pages, prev, Renumbered(Chunked(cfg.(page := Some(n)), pages[n - 1]), |prev|));
      }
    }
  }

  /** Every non-blank page has a chunk tagged with its number. */
  predicate Covers(pages: seq<string>, r: seq<Chunk>) {
    forall k :: 0 <= k < |pages| && !IsBlank(pages[k]) ==> exists i :: 0 <= i < |r| && PageOf(r[i]) == k + 1
  }

  lemma CoversExtend(pages: seq<string>, prev: seq<Chunk>, ds: seq<Chunk>)
    requires |pages| > 0 && Covers(pages[..|pages| - 1], prev)
    requires !IsBlank(pages[|pages| - 1]) ==> |ds| > 0 && PageOf(ds[0]) == |pages|
    ensures Covers(pages, prev + ds)
  {
    var n := |pages|;
    var r := prev + ds;
    forall k | 0 <= k < n && !IsBlank(pages[k]) ensures exists i :: 0 <= i < |r| && PageOf(r[i]) == k + 1 {
      if k < n - 1 {
        assert pages[..n - 1][k] == pages[k];
        var i :| 0 <= i < |prev| && PageOf(prev[i]) == k + 1;
        assert r[i] == prev[i];
      } else {
        assert r[|prev|] == ds[0];
      }
    }
  }

  /** With the regex splitter no non-blank page is lost. */
  lemma {:induction false} PdfCoversPages(cfg: Config, pages: seq<string>)
    requires cfg.splitter.Regex?
    ensures Covers(pages, PdfChunks(cfg, pages))
    decreases |pages|
  {
    if |pages| > 0 {
      var n := |pages|;
      var prev := PdfChunks(cfg, pages[..n - 1]);
      PdfCoversPages(cfg, pages[..n - 1]);
      if IsBlank(pages[n - 1]) {
        assert PdfChunks(cfg, pages) == prev + [];
        CoversExtend(pages, prev, []);
      } else {
        var ds := Renumbered(Chunked(cfg.(page := Some(n)), pages[n - 1]), |prev|);
        PageChunksOk(cfg, pages[n - 1], n, |prev|);
        CoversExtend(pages, prev, ds);
      }
    }
  }

  /** `_chunk_text` (and `_chunk_docx` once the document text is parsed):
      the whole text chunked without a page number. */
  method ChunkText(cfg: Config, text: string) returns (chunks: seq<Chunk>)
    ensures chunks == Chunked(cfg.(page := None), text)
  {
    chunks := TokenBasedChunker(cfg.(page := None), text);
  }

  // ---------------------------------------------------------------------
  // The defaults

  /** With the defaults every chunk is untagged by page, a packed chunk
      holds at most 1100 tokens, a split one at most 900 unless it is a
      single word, and consecutive chunks overlap by at most 200 tokens. */
  lemma DefaultsSpec(tok: Tokenizer, splitter: Splitter, text: string)
    ensures var r := Chunked(DefaultConfig(tok, splitter), text);
      && (forall i :: 0 <= i < |r| ==>
            && r[i].metadata.pageNumber == None
            && (r[i].metadata.kind.Packed? ==> r[i].tokenCount <= 1100)
            && (r[i].metadata.kind.OversizedSplit? ==> r[i].tokenCount <= 900 || IsWord(r[i].text)))
      && (forall i :: 0 < i < |r| ==> 0 <= r[i - 1].metadata.endToken - r[i].metadata.startToken <= 200)
  {
    var cfg := DefaultConfig(tok, splitter);
    var r := Chunked(cfg, text);
    assert ChunksOk(cfg, r) by { ChunkedSpec(cfg, text); }
    forall i | 0 <= i < |r|
      ensures r[i].metadata.pageNumber == None
      ensures r[i].metadata.kind.Packed? ==> r[i].tokenCount <= 1100
      ensures r[i].metadata.kind.OversizedSplit? ==> r[i].tokenCount <= 900 || IsWord(r[i].text)
      ensures i > 0 ==> 0 <= r[i - 1].metadata.endToken - r[i].metadata.startToken <= 200
    {
      ChunksOkAt(cfg, r, i);
    }
  }

  /** One chunk of a well-formed list, and its seam with the one before. */
  lemma ChunksOkAt(cfg: Config, r: seq<Chunk>, i: int)
    requires ChunksOk(cfg, r) && 0 <= i < |r|
    ensures SpanOk(cfg, ToSpan(r[i]))
    ensures i > 0 ==> 0 <= r[i - 1].metadata.endToken - r[i].metadata.startToken <= OverlapBound(cfg)
  {
    assert Spans(r)[i] == ToSpan(r[i]);
    if i > 0 {
      assert Spans(r)[i - 1] == ToSpan(r[i - 1]);
    }
  }

  /** A request that leaves both token fields out validates to exactly the
      chunker's defaults, and stating the defaults explicitly gives the same
      request. */
  lemma DefaultsMatchRequest(tok: Tokenizer, splitter: Splitter)
    ensures var d := DefaultConfig(tok, splitter);
      var r := ValidateRequest(Absent, Absent, Absent, Absent);
      && r.Valid?
      && r.value.chunkTokens == Some(d.chunkTokens)
      && r.value.overlapTokens == Some(d.overlapTokens)
      && ValidateRequest(Present(d.chunkTokens), Present(d.overlapTokens), Absent, Absent) == r
  {
  }

  // ---------------------------------------------------------------------
  // Storing the chunks
  // ---------------------------------------------------------------------

  /** A stored chunk seen as a `ChunkDTO`: the keys `location_display`
      reads from its metadata are the page (`None` outside PDFs), no
      section title, and both character offsets. */
  function StoredDto(c: Chunk, index: int): ChunkDto {
    var page := match c.metadata.pageNumber
      case Some(p) => Present(p)
      case None => Null;
    ChunkDto(c.text, index, c.tokenCount,
             DtoMetadata(page, Absent, Present(c.metadata.charOffsetStart), Present(c.metadata.charOffsetEnd)))
  }

  /** A chunk stored as row `idx` (`chunk_index=idx` with its text and
      `token_count`) is not validated when it is stored; read back through
      `ContentChunkBase` it is accepted unchanged, since its index and
      count are naturals. The row is located by its page, when that is
      non-zero, and its character range. */
  lemma StoredChunk(c: Chunk, idx: nat)
    ensures ValidateChunkBase(Present(c.text), Present(idx), Present(c.tokenCount))
            == Valid(ChunkBase(c.text, idx, c.tokenCount))
    ensures var chars := "Chars " + IntToString(c.metadata.charOffsetStart) + "-"
                         + IntToString(c.metadata.charOffsetEnd);
      Join(LocationParts(StoredDto(c, idx)), ", ")
        == if c.metadata.pageNumber.Some? && c.metadata.pageNumber.value != 0
           then "Page " + IntToString(c.metadata.pageNumber.value) + ", " + chars
           else chars
  {
    var d := StoredDto(c, idx);
    assert !SectionShown(d) && CharsShown(d);
    if PageShown(d) {
      assert LocationParts(d) == [PageText(d), CharsText(d)];
      assert LocationParts(d)[..1] == [PageText(d)];
    } else {
      assert LocationParts(d) == [CharsText(d)];
    }
  }
}
