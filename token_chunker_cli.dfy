/** The standalone `TokenChunker` of the command-line script: the same
    packing as the service, written out again with the word split inline
    and a different record layout, and its `chunk_pdf` page loop, which
    renumbers all chunks once at the end. */
module TokenChunkerCli {
  import opened Wrappers
  import opened Text
  import opened Tokens
  import opened Sentences
  import opened Packing
  import Svc = PreprocessingService

  /** The nested `metadata` dictionary of a record: the character range,
      the method and tier tags, and `sentence_count` or `oversized_split`. */
  datatype CliMetadata = CliMetadata(charOffsetStart: int, charOffsetEnd: int, chunkMethod: string,
                                     tokenizerType: string, kind: Kind)

  /** One chunk record: index, text, counts and page at the top level. */
  datatype Record = Record(chunkIndex: int, text: string, tokenCount: nat, startToken: int, endToken: int,
                           pageNumber: Option<int>, metadata: CliMetadata)

  function ToSpan(r: Record): Span {
    Span(r.chunkIndex, r.text, r.tokenCount, r.startToken, r.endToken, r.pageNumber,
         r.metadata.tokenizerType, r.metadata.chunkMethod, r.metadata.kind)
  }

  function Spans(rs: seq<Record>): seq<Span> {
    seq(|rs|, i requires 0 <= i < |rs| => ToSpan(rs[i]))
  }

  /** Every record's character range is as long as its text and does not
      start before 0. */
  predicate CharsOk(rs: seq<Record>) {
    forall i :: 0 <= i < |rs| ==>
      rs[i].metadata.charOffsetEnd - rs[i].metadata.charOffsetStart == |rs[i].text|
      && rs[i].metadata.charOffsetStart >= 0
  }

  // ---------------------------------------------------------------------
  // chunk_text

  /** The loop state, as in the service. */
  datatype State = State(chunks: seq<Record>, current: seq<string>, tokens: nat, offset: int, charPos: int)

  /** The record built from the pending sentences, character start
      `char_offset - len(chunk_text)`. */
  function PackedRecord(cfg: Config, st: State): Record {
    var text := Join(st.current, " ");
    Record(|st.chunks|, text, st.tokens, st.offset, st.offset + st.tokens, cfg.page,
           CliMetadata(st.charPos - |text|, st.charPos, TokenBased, TypeName(cfg.tok), Packed(|st.current|)))
  }

  /** The record built inline for one word group, numbered where it lands. */
  function PieceRecord(cfg: Config, index: int, p: Piece): Record {
    var text := PieceText(p);
    Record(index, text, p.tokens, p.start, p.start + p.tokens, cfg.page,
           CliMetadata(p.charPos, p.charPos + |text|, TokenBased, TypeName(cfg.tok), OversizedSplit))
  }

  function PieceRecords(cfg: Config, base: int, ps: seq<Piece>): seq<Record> {
    seq(|ps|, i requires 0 <= i < |ps| => PieceRecord(cfg, base + i, ps[i]))
  }

  function Finalize(cfg: Config, st: State): State {
    var overlap := Overlap(cfg.tok, st.current, cfg.overlapTokens);
    var overlapCount := TokenSum(cfg.tok, overlap);
    State(st.chunks + [PackedRecord(cfg, st)], overlap, overlapCount,
          st.offset + (st.tokens - overlapCount), st.charPos)
  }

  function Flush(cfg: Config, st: State): State {
    if |st.current| > 0 then
      State(st.chunks + [PackedRecord(cfg, st)], [], 0, st.offset + st.tokens, st.charPos)
    else st
  }

  /** An oversized sentence, split inline. Unlike the service, the shared
      `char_offset` moves past every closed word group, and then past the
      whole sentence as well. */
  function Oversize(cfg: Config, st: State, sentence: string): State {
    var ps := WordSplit(cfg.tok, cfg.chunkTokens, sentence, st.offset, st.charPos);
    var run := SplitRun(cfg.tok, cfg.chunkTokens, Words(sentence), st.offset, st.charPos);
    State(st.chunks + PieceRecords(cfg, |st.chunks|, ps), st.current, st.tokens,
          st.offset + PieceTokens(ps), run.charPos + |sentence| + 1)
  }

  function Append(st: State, sentence: string, sentenceTokens: nat): State {
    State(st.chunks, st.current + [sentence], st.tokens + sentenceTokens, st.offset, st.charPos + |sentence| + 1)
  }

  function Step(cfg: Config, st: State, sentence: string): State {
    var t := CountTokens(cfg.tok, sentence);
    var st1 := if st.tokens + t > cfg.chunkTokens && |st.current| > 0 then Finalize(cfg, st) else st;
    if t > cfg.chunkTokens then Oversize(cfg, Flush(cfg, st1), sentence)
    else Append(st1, sentence, t)
  }

  function Run(cfg: Config, xs: seq<string>): State
    decreases |xs|
  {
    if |xs| == 0 then State([], [], 0, 0, 0)
    else Step(cfg, Run(cfg, xs[..|xs| - 1]), xs[|xs| - 1])
  }

  function Finish(cfg: Config, st: State): seq<Record> {
    if |st.current| > 0 then st.chunks + [PackedRecord(cfg, st)] else st.chunks
  }

  function ChunkSentences(cfg: Config, xs: seq<string>): seq<Record> {
    Finish(cfg, Run(cfg, xs))
  }

  /** What `chunk_text` returns. */
  function Chunked(cfg: Config, text: string): seq<Record> {
    if IsBlank(text) then []
    else
      var sentences := SegmentSentences(cfg.splitter, text);
      if |sentences| == 0 then [] else ChunkSentences(cfg, sentences)
  }

  lemma PieceRecordsSnoc(cfg: Config, base: int, ps: seq<Piece>, p: Piece)
    ensures PieceRecords(cfg, base, ps + [p]) == PieceRecords(cfg, base, ps) + [PieceRecord(cfg, base + |ps|, p)]
  {
  }

  /** The inline word loop of `chunk_text`: every closed group becomes a
      record at once, and both counters move past it. */
  method WordLoop(cfg: Config, chunks: seq<Record>, globalOffset: int, charOffset: int, words: seq<string>)
    returns (chunks': seq<Record>, globalOffset': int, charOffset': int, wordChunk: seq<string>, wordTokens: nat)
    ensures var s := SplitRun(cfg.tok, cfg.chunkTokens, words, globalOffset, charOffset);
      && chunks' == chunks + PieceRecords(cfg, |chunks|, s.done) && wordChunk == s.group && wordTokens == s.tokens
      && globalOffset' == s.start && charOffset' == s.charPos
  {
    chunks', globalOffset', charOffset' := chunks, globalOffset, charOffset;
    wordChunk := [];
    wordTokens := 0;
    for i := 0 to |words|
      invariant var s := SplitRun(cfg.tok, cfg.chunkTokens, words[..i], globalOffset, charOffset);
        chunks' == chunks + PieceRecords(cfg, |chunks|, s.done) && wordChunk == s.group && wordTokens == s.tokens
        && globalOffset' == s.start && charOffset' == s.charPos
    {
      assert words[..i + 1][..i] == words[..i];
      var word := words[i];
      var wt := CountTokens(cfg.tok, word);
      if wordTokens + wt > cfg.chunkTokens && |wordChunk| > 0 {
        var p := Piece(wordChunk, wordTokens, globalOffset', charOffset');
        ghost var done := SplitRun(cfg.tok, cfg.chunkTokens, words[..i], globalOffset, charOffset).done;
        PieceRecordsSnoc(cfg, |chunks|, done, p);
        chunks' := chunks' + [PieceRecord(cfg, |chunks'|, p)];
        globalOffset' := globalOffset' + wordTokens;
        charOffset' := charOffset' + |Join(wordChunk, " ")| + 1;
        wordChunk := [];
        wordTokens := 0;
      }
      wordChunk := wordChunk + [word];
      wordTokens := wordTokens + wt;
    }
    assert words[..|words|] == words;
  }

  /** Where the token counter stands after the last group of the split. */
  lemma SplitFinishStart(tok: Tokenizer, chunkTokens: int, ws: seq<string>, start: int, charPos: int)
    requires forall j :: 0 <= j < |ws| ==> IsWord(ws[j])
    ensures var s := SplitRun(tok, chunkTokens, ws, start, charPos);
      start + PieceTokens(SplitFinish(s)) == s.start + (if |s.group| > 0 then s.tokens else 0)
  {
    var s := SplitRun(tok, chunkTokens, ws, start, charPos);
    SplitRunOk(tok, chunkTokens, ws, start, charPos);
    if |s.group| > 0 {
      PieceTokensSnoc(s.done, Piece(s.group, s.tokens, s.start, s.charPos));
    }
  }

  /** The inline word split of `chunk_text` and the record for its last group. */
  method SplitInline(cfg: Config, chunks: seq<Record>, globalOffset: int, charOffset: int, sentence: string)
    returns (chunks': seq<Record>, globalOffset': int, charOffset': int)
    ensures var ps := WordSplit(cfg.tok, cfg.chunkTokens, sentence, globalOffset, charOffset);
      && chunks' == chunks + PieceRecords(cfg, |chunks|, ps)
      && globalOffset' == globalOffset + PieceTokens(ps)
      && charOffset' == SplitRun(cfg.tok, cfg.chunkTokens, Words(sentence), globalOffset, charOffset).charPos
  {
    var words := Words(sentence);
    var wordChunk, wordTokens;
    chunks', globalOffset', charOffset', wordChunk, wordTokens := WordLoop(cfg, chunks, globalOffset, charOffset, words);
    ghost var s := SplitRun(cfg.tok, cfg.chunkTokens, words, globalOffset, charOffset);
    SplitFinishStart(cfg.tok, cfg.chunkTokens, words, globalOffset, charOffset);
    if |wordChunk| > 0 {
      var p := Piece(wordChunk, wordTokens, globalOffset', charOffset');
      PieceRecordsSnoc(cfg, |chunks|, s.done, p);
      chunks' := chunks' + [PieceRecord(cfg, |chunks'|, p)];
      globalOffset' := globalOffset' + wordTokens;
    }
  }

  /** The oversized-sentence branch: emit whatever is pending, split the
      sentence inline, then move `char_offset` past the sentence. */
  method ChunkOversized(cfg: Config, chunks: seq<Record>, current: seq<string>, currentTokens: nat,
                        globalOffset: int, charOffset: int, sentence: string)
    returns (chunks': seq<Record>, current': seq<string>, currentTokens': nat, globalOffset': int, charOffset': int)
    ensures State(chunks', current', currentTokens', globalOffset', charOffset')
            == Oversize(cfg, Flush(cfg, State(chunks, current, currentTokens, globalOffset, charOffset)), sentence)
  {
    chunks', current', currentTokens', globalOffset' := chunks, current, currentTokens, globalOffset;
    if |current| > 0 {
      chunks' := chunks + [PackedRecord(cfg, State(chunks, current, currentTokens, globalOffset, charOffset))];
      globalOffset' := globalOffset + currentTokens;
      current' := [];
      currentTokens' := 0;
    }
    chunks', globalOffset', charOffset' := SplitInline(cfg, chunks', globalOffset', charOffset, sentence);
    charOffset' := charOffset' + |sentence| + 1;
  }

  method FinalizePending(cfg: Config, chunks: seq<Record>, current: seq<string>, currentTokens: nat,
                         globalOffset: int, charOffset: int)
    returns (chunks': seq<Record>, current': seq<string>, currentTokens': nat, globalOffset': int)
    ensures State(chunks', current', currentTokens', globalOffset', charOffset)
            == Finalize(cfg, State(chunks, current, currentTokens, globalOffset, charOffset))
  {
    chunks' := chunks + [PackedRecord(cfg, State(chunks, current, currentTokens, globalOffset, charOffset))];
    var overlap, overlapCount := CarryOverlap(cfg.tok, current, cfg.overlapTokens);
    globalOffset' := globalOffset + (currentTokens - overlapCount);
    current' := overlap;
    currentTokens' := overlapCount;
  }

  /** The body of the sentence loop for one sentence. */
  method PackSentence(cfg: Config, chunks: seq<Record>, current: seq<string>, currentTokens: nat,
                      globalOffset: int, charOffset: int, sentence: string)
    returns (chunks': seq<Record>, current': seq<string>, currentTokens': nat, globalOffset': int, charOffset': int)
    ensures State(chunks', current', currentTokens', globalOffset', charOffset')
            == Step(cfg, State(chunks, current, currentTokens, globalOffset, charOffset), sentence)
  {
    chunks', current', currentTokens', globalOffset', charOffset' := chunks, current, currentTokens, globalOffset, charOffset;
    var sentenceTokens := CountTokens(cfg.tok, sentence);
    if currentTokens + sentenceTokens > cfg.chunkTokens && |current| > 0 {
      chunks', current', currentTokens', globalOffset' :=
        FinalizePending(cfg, chunks, current, currentTokens, globalOffset, charOffset);
    }
    if sentenceTokens > cfg.chunkTokens {
      chunks', current', currentTokens', globalOffset', charOffset' :=
        ChunkOversized(cfg, chunks', current', currentTokens', globalOffset', charOffset', sentence);
    } else {
      current' := current' + [sentence];
      currentTokens' := currentTokens' + sentenceTokens;
      charOffset' := charOffset' + |sentence| + 1;
    }
  }

  /** The sentence loop of `chunk_text` and its final flush. */
  method PackSentences(cfg: Config, sentences: seq<string>) returns (chunks: seq<Record>)
    ensures chunks == ChunkSentences(cfg, sentences)
  {
    chunks := [];
    var current: seq<string> := [];
    var currentTokens: nat := 0;
    var globalOffset: int := 0;
    var charOffset: int := 0;
    for i := 0 to |sentences|
      invariant State(chunks, current, currentTokens, globalOffset, charOffset) == Run(cfg, sentences[..i])
    {
      assert sentences[..i + 1][..i] == sentences[..i];
      chunks, current, currentTokens, globalOffset, charOffset :=
        PackSentence(cfg, chunks, current, currentTokens, globalOffset, charOffset, sentences[i]);
    }
    assert sentences[..|sentences|] == sentences;
    if |current| > 0 {
      chunks := chunks + [PackedRecord(cfg, State(chunks, current, currentTokens, globalOffset, charOffset))];
    }
  }

  /** `chunk_text`. */
  method ChunkText(cfg: Config, text: string) returns (chunks: seq<Record>)
    ensures chunks == Chunked(cfg, text)
  {
    if IsBlank(text) {
      return [];
    }
    var sentences := SegmentSentences(cfg.splitter, text);
    if |sentences| == 0 {
      return [];
    }
    chunks := PackSentences(cfg, sentences);
  }

  /** `chunk_text` called with its keyword defaults. */
  method ChunkTextDefaults(tok: Tokenizer, splitter: Splitter, text: string) returns (chunks: seq<Record>)
    ensures chunks == Chunked(DefaultConfig(tok, splitter), text)
  {
    chunks := ChunkText(DefaultConfig(tok, splitter), text);
  }

  // ---------------------------------------------------------------------
  // Agreement with the service

  /** A command-line state and a service state that agree on everything
      but character positions. */
  predicate Agree(c: State, s: Svc.State) {
    Spans(c.chunks) == Svc.Spans(s.chunks) && c.current == s.current && c.tokens == s.tokens && c.offset == s.offset
  }

  lemma SpansAppend(a: seq<Record>, b: seq<Record>)
    ensures Spans(a + b) == Spans(a) + Spans(b)
  {
  }

  lemma PackedAgree(cfg: Config, c: State, s: Svc.State)
    requires Agree(c, s)
    ensures Spans(c.chunks + [PackedRecord(cfg, c)]) == Svc.Spans(s.chunks + [Svc.PackedChunk(cfg, s)])
  {
    assert |c.chunks| == |Spans(c.chunks)| == |Svc.Spans(s.chunks)| == |s.chunks|;
    SpansAppend(c.chunks, [PackedRecord(cfg, c)]);
    Svc.SpansAppend(s.chunks, [Svc.PackedChunk(cfg, s)]);
  }

  lemma FinalizeAgree(cfg: Config, c: State, s: Svc.State)
    requires Agree(c, s)
    ensures Agree(Finalize(cfg, c), Svc.Finalize(cfg, s))
  {
    PackedAgree(cfg, c, s);
  }

  lemma FlushAgree(cfg: Config, c: State, s: Svc.State)
    requires Agree(c, s)
    ensures Agree(Flush(cfg, c), Svc.Flush(cfg, s))
  {
    if |c.current| > 0 {
      PackedAgree(cfg, c, s);
    }
  }

  /** Pieces equal but for their character positions give records and
      split chunks with the same spans. */
  lemma PieceSpansAgree(cfg: Config, ps: seq<Piece>, qs: seq<Piece>, base: int)
    requires |ps| == |qs|
    requires forall i :: 0 <= i < |ps| ==> ps[i].(charPos := 0) == qs[i].(charPos := 0)
    ensures Spans(PieceRecords(cfg, base, ps)) == Svc.Spans(Svc.Renumbered(Svc.SplitChunks(cfg, qs), base))
  {
    var a := Spans(PieceRecords(cfg, base, ps));
    var b := Svc.Spans(Svc.Renumbered(Svc.SplitChunks(cfg, qs), base));
    assert |a| == |b|;
    forall i | 0 <= i < |a| ensures a[i] == b[i] {
      assert ps[i].(charPos := 0) == qs[i].(charPos := 0);
      assert ps[i].words == qs[i].words && ps[i].tokens == qs[i].tokens && ps[i].start == qs[i].start;
    }
  }

  /** Inline-split records and the service's renumbered split chunks agree,
      though their character positions differ. */
  lemma SplitAgree(cfg: Config, sentence: string, start: int, c1: int, c2: int, base: int)
    ensures var ps := WordSplit(cfg.tok, cfg.chunkTokens, sentence, start, c1);
      var qs := WordSplit(cfg.tok, cfg.chunkTokens, sentence, start, c2);
      && Spans(PieceRecords(cfg, base, ps)) == Svc.Spans(Svc.Renumbered(Svc.SplitChunks(cfg, qs), base))
      && PieceTokens(ps) == Svc.ChunkTokenSum(Svc.SplitChunks(cfg, qs))
  {
    var ps := WordSplit(cfg.tok, cfg.chunkTokens, sentence, start, c1);
    var qs := WordSplit(cfg.tok, cfg.chunkTokens, sentence, start, c2);
    WordSplitCharFree(cfg.tok, cfg.chunkTokens, sentence, start, c1, c2);
    Svc.SplitChunkTokens(cfg, qs);
    PieceSpansAgree(cfg, ps, qs, base);
  }

  lemma OversizeAgree(cfg: Config, c: State, s: Svc.State, sentence: string)
    requires Agree(c, s)
    ensures Agree(Oversize(cfg, c, sentence), Svc.Oversize(cfg, s, sentence))
  {
    assert |c.chunks| == |Spans(c.chunks)| == |Svc.Spans(s.chunks)| == |s.chunks|;
    var n := |c.chunks|;
    SplitAgree(cfg, sentence, c.offset, c.charPos, s.charPos, n);
    var ps := WordSplit(cfg.tok, cfg.chunkTokens, sentence, c.offset, c.charPos);
    var split := Svc.OversizedChunks(cfg, sentence, s.offset, s.charPos);
    SpansAppend(c.chunks, PieceRecords(cfg, n, ps));
    Svc.SpansAppend(s.chunks, Svc.Renumbered(split, n));
  }

  lemma StepAgree(cfg: Config, c: State, s: Svc.State, sentence: string)
    requires Agree(c, s)
    ensures Agree(Step(cfg, c, sentence), Svc.Step(cfg, s, sentence))
  {
    var t := CountTokens(cfg.tok, sentence);
    var c1 := if c.tokens + t > cfg.chunkTokens && |c.current| > 0 then Finalize(cfg, c) else c;
    var s1 := if s.tokens + t > cfg.chunkTokens && |s.current| > 0 then Svc.Finalize(cfg, s) else s;
    if c.tokens + t > cfg.chunkTokens && |c.current| > 0 {
      FinalizeAgree(cfg, c, s);
    }
    if t > cfg.chunkTokens {
      FlushAgree(cfg, c1, s1);
      OversizeAgree(cfg, Flush(cfg, c1), Svc.Flush(cfg, s1), sentence);
    }
  }

  lemma {:induction false} RunAgree(cfg: Config, xs: seq<string>)
    ensures Agree(Run(cfg, xs), Svc.Run(cfg, xs))
    decreases |xs|
  {
    if |xs| > 0 {
      var init := xs[..|xs| - 1];
      RunAgree(cfg, init);
      StepAgree(cfg, Run(cfg, init), Svc.Run(cfg, init), xs[|xs| - 1]);
    }
  }

  /** Given the same tiers, budgets, page and text, `TokenChunker.chunk_text`
      and the service's `_token_based_chunker` produce the same chunks:
      same indices, texts, counts, token spans, page, tags and kinds. Only
      the character offsets differ. */
  lemma ChunkedAgree(cfg: Config, text: string)
    ensures Spans(Chunked(cfg, text)) == Svc.Spans(Svc.Chunked(cfg, text))
  {
    if !IsBlank(text) {
      var xs := SegmentSentences(cfg.splitter, text);
      if |xs| > 0 {
        var c := Run(cfg, xs);
        var s := Svc.Run(cfg, xs);
        RunAgree(cfg, xs);
        if |c.current| > 0 {
          PackedAgree(cfg, c, s);
        }
      }
    }
  }

  // ---------------------------------------------------------------------
  // What the command-line chunker guarantees

  /** Records keep non-negative character ranges as long as their texts,
      and the character counter covers the pending text. */
  predicate CharsInv(st: State) {
    CharsOk(st.chunks) && st.charPos >= |Join(st.current, " ")|
  }

  lemma CharsAppend(a: seq<Record>, b: seq<Record>)
    requires CharsOk(a) && CharsOk(b)
    ensures CharsOk(a + b)
  {
    forall i | 0 <= i < |a + b|
      ensures (a + b)[i].metadata.charOffsetEnd - (a + b)[i].metadata.charOffsetStart == |(a + b)[i].text|
        && (a + b)[i].metadata.charOffsetStart >= 0
    {
      if i < |a| { assert (a + b)[i] == a[i]; } else { assert (a + b)[i] == b[i - |a|]; }
    }
  }

  lemma PackedChars(cfg: Config, st: State)
    requires CharsInv(st)
    ensures CharsOk(st.chunks + [PackedRecord(cfg, st)])
  {
    CharsAppend(st.chunks, [PackedRecord(cfg, st)]);
  }

  lemma OversizeChars(cfg: Config, st: State, sentence: string)
    requires CharsInv(st) && st.current == []
    ensures CharsInv(Oversize(cfg, st, sentence))
  {
    var ps := WordSplit(cfg.tok, cfg.chunkTokens, sentence, st.offset, st.charPos);
    WordSplitChars(cfg.tok, cfg.chunkTokens, sentence, st.offset, st.charPos);
    var rs := PieceRecords(cfg, |st.chunks|, ps);
    assert CharsOk(rs) by {
      forall i | 0 <= i < |rs| ensures rs[i].metadata.charOffsetStart >= 0 {
        assert ps[i].charPos >= st.charPos;
      }
    }
    CharsAppend(st.chunks, rs);
  }

  /** The inline split moves `char_offset` past each closed word group on
      top of the sentence itself. The service moves its counter by
      `len(sentence) + 1` only, so the two counters stay together exactly
      when the sentence gives at most one word group, and the CLI's runs
      ahead otherwise. */
  lemma OversizeDrift(cfg: Config, st: State, sentence: string)
    ensures var ps := WordSplit(cfg.tok, cfg.chunkTokens, sentence, st.offset, st.charPos);
      var moved := Oversize(cfg, st, sentence).charPos;
      var service := st.charPos + |sentence| + 1;
      && moved >= service
      && (moved == service <==> |ps| <= 1)
  {
    var ws := Words(sentence);
    var run := SplitRun(cfg.tok, cfg.chunkTokens, ws, st.offset, st.charPos);
    SplitRunOk(cfg.tok, cfg.chunkTokens, ws, st.offset, st.charPos);
    SplitRunGreedy(cfg.tok, cfg.chunkTokens, ws, st.offset, st.charPos);
    if |run.done| > 0 {
      assert run.charPos == NextChar(run.done[|run.done| - 1]);
      assert run.done[|run.done| - 1].charPos >= st.charPos;
    }
  }

  lemma FinalizeChars(cfg: Config, st: State)
    requires CharsInv(st)
    ensures CharsInv(Finalize(cfg, st))
  {
    PackedChars(cfg, st);
    OverlapWithin(cfg.tok, st.current, cfg.overlapTokens);
  }

  lemma FlushChars(cfg: Config, st: State)
    requires CharsInv(st)
    ensures CharsInv(Flush(cfg, st)) && Flush(cfg, st).current == []
  {
    if |st.current| > 0 {
      PackedChars(cfg, st);
    }
  }

  lemma AppendChars(st: State, sentence: string, t: nat)
    requires CharsInv(st)
    ensures CharsInv(Append(st, sentence, t))
  {
    if |st.current| > 0 {
      JoinSnoc(st.current, sentence, " ");
    } else {
      assert st.current + [sentence] == [sentence];
    }
  }

  lemma StepChars(cfg: Config, st: State, sentence: string)
    requires CharsInv(st)
    ensures CharsInv(Step(cfg, st, sentence))
  {
    var t := CountTokens(cfg.tok, sentence);
    var st1 := if st.tokens + t > cfg.chunkTokens && |st.current| > 0 then Finalize(cfg, st) else st;
    if st.tokens + t > cfg.chunkTokens && |st.current| > 0 {
      FinalizeChars(cfg, st);
    }
    if t > cfg.chunkTokens {
      FlushChars(cfg, st1);
      OversizeChars(cfg, Flush(cfg, st1), sentence);
    } else {
      AppendChars(st1, sentence, t);
    }
  }

  lemma {:induction false} RunChars(cfg: Config, xs: seq<string>)
    ensures CharsInv(Run(cfg, xs))
    decreases |xs|
  {
    if |xs| > 0 {
      var init := xs[..|xs| - 1];
      RunChars(cfg, init);
      StepChars(cfg, Run(cfg, init), xs[|xs| - 1]);
    }
  }

  /** Records with the same spans as service chunks share their texts,
      counts and kinds: never blank, counting words under the whitespace
      tier, and holding a split record when the chunks hold a split chunk. */
  lemma NonBlankAgree(cfg: Config, r: seq<Record>, q: seq<Svc.Chunk>)
    requires Spans(r) == Svc.Spans(q)
    requires forall i :: 0 <= i < |q| ==> |q[i].text| > 0 && !IsBlank(q[i].text)
    requires cfg.tok.Whitespace? ==> forall i :: 0 <= i < |q| ==> q[i].tokenCount > 0
    ensures forall i :: 0 <= i < |r| ==> |r[i].text| > 0 && !IsBlank(r[i].text)
    ensures cfg.tok.Whitespace? ==> forall i :: 0 <= i < |r| ==> r[i].tokenCount > 0
    ensures Svc.HasSplit(q) ==> exists i :: 0 <= i < |r| && r[i].metadata.kind.OversizedSplit?
  {
    forall i | 0 <= i < |r| ensures r[i].text == q[i].text && r[i].tokenCount == q[i].tokenCount
      && r[i].metadata.kind == q[i].metadata.kind
    {
      assert Spans(r)[i] == Svc.Spans(q)[i];
    }
    if Svc.HasSplit(q) {
      var i :| 0 <= i < |q| && q[i].metadata.kind.OversizedSplit?;
      assert r[i].metadata.kind.OversizedSplit?;
    }
  }

  /** `chunk_text`'s promise: everything the service promises of its chunks
      (numbered by position, within budget, tagged, linked, from token 0
      to the end of the stream, never empty for non-blank text under the
      regex splitter, each holding and counting what `Holds` says, each
      chunk but the last closed as `Closes` says, no
      text empty or blank, positive whitespace counts, an `oversized_split`
      record for a sentence above the budget), and character ranges as
      long as their texts, never before 0. */
  lemma ChunkTextSpec(cfg: Config, text: string)
    ensures var r := Chunked(cfg, text);
      && (IsBlank(text) ==> r == [])
      && SpansOk(cfg, Spans(r)) && Linked(cfg, Spans(r)) && CharsOk(r)
      && AllHold(cfg.tok, SegmentSentences(cfg.splitter, text), Spans(r))
      && ClosedChain(cfg, SegmentSentences(cfg.splitter, text), Spans(r))
      && (|r| > 0 ==> r[0].startToken == 0
                      && r[|r| - 1].endToken == Contributions(cfg, SegmentSentences(cfg.splitter, text)))
      && (forall i :: 0 <= i < |r| ==> |r[i].text| > 0 && !IsBlank(r[i].text))
      && (cfg.tok.Whitespace? ==> forall i :: 0 <= i < |r| ==> r[i].tokenCount > 0)
      && (HasOversized(cfg, SegmentSentences(cfg.splitter, text)) ==>
            exists i :: 0 <= i < |r| && r[i].metadata.kind.OversizedSplit?)
      && (cfg.splitter.Regex? && !IsBlank(text) ==> |r| > 0)
  {
    var r := Chunked(cfg, text);
    var q := Svc.Chunked(cfg, text);
    ChunkedAgree(cfg, text);
    Svc.ChunkedSpec(cfg, text);
    NonBlankAgree(cfg, r, q);
    if |r| > 0 {
      assert Spans(r)[0] == Svc.Spans(q)[0];
      assert Spans(r)[|r| - 1] == Svc.Spans(q)[|q| - 1];
    }
    if !IsBlank(text) {
      var xs := SegmentSentences(cfg.splitter, text);
      if |xs| > 0 {
        RunChars(cfg, xs);
        if |Run(cfg, xs).current| > 0 {
          PackedChars(cfg, Run(cfg, xs));
        }
      }
    }
  }

  // ---------------------------------------------------------------------
  // chunk_pdf

  /** The non-blank pages chunked with their 1-based page numbers and
      concatenated; each page's records still carry their per-page indices. */
  function PageRecords(cfg: Config, pages: seq<string>): seq<Record>
    decreases |pages|
  {
    if |pages| == 0 then []
    else
      var prev := PageRecords(cfg, pages[..|pages| - 1]);
      var page := pages[|pages| - 1];
      if IsBlank(page) then prev else prev + Chunked(cfg.(page := Some(|pages|)), page)
  }

  /** The records with `chunk_index` overwritten by position. */
  function Reindexed(rs: seq<Record>): seq<Record> {
    seq(|rs|, i requires 0 <= i < |rs| => rs[i].(chunkIndex := i))
  }

  /** What `chunk_pdf` returns once the pages are extracted. */
  function PdfRecords(cfg: Config, pages: seq<string>): seq<Record> {
    Reindexed(PageRecords(cfg, pages))
  }

  lemma PageRecordsSnoc(cfg: Config, pages: seq<string>, p: nat)
    requires p < |pages|
    ensures PageRecords(cfg, pages[..p + 1])
            == if IsBlank(pages[p]) then PageRecords(cfg, pages[..p])
               else PageRecords(cfg, pages[..p]) + Chunked(cfg.(page := Some(p + 1)), pages[p])
  {
    assert pages[..p + 1][..p] == pages[..p];
  }

  /** The page loop of `chunk_pdf` and its final renumbering pass. */
  method ChunkPdf(cfg: Config, pages: seq<string>) returns (allChunks: seq<Record>)
    ensures allChunks == PdfRecords(cfg, pages)
  {
    allChunks := [];
    for p := 0 to |pages|
      invariant allChunks == PageRecords(cfg, pages[..p])
    {
      PageRecordsSnoc(cfg, pages, p);
      var pageText := pages[p];
      if IsBlank(pageText) {
        continue;
      }
      var pageChunks := ChunkText(cfg.(page := Some(p + 1)), pageText);
      allChunks := allChunks + pageChunks;
    }
    assert pages[..|pages|] == pages;
    ghost var gathered := allChunks;
    for i := 0 to |allChunks|
      invariant |allChunks| == |gathered|
      invariant forall k :: 0 <= k < i ==> allChunks[k] == gathered[k].(chunkIndex := k)
      invariant forall k :: i <= k < |allChunks| ==> allChunks[k] == gathered[k]
    {
      allChunks := allChunks[i := allChunks[i].(chunkIndex := i)];
    }
  }

  /** `chunk_pdf` called with its keyword defaults. */
  method ChunkPdfDefaults(tok: Tokenizer, splitter: Splitter, pages: seq<string>) returns (allChunks: seq<Record>)
    ensures allChunks == PdfRecords(DefaultConfig(tok, splitter), pages)
  {
    allChunks := ChunkPdf(DefaultConfig(tok, splitter), pages);
  }

  /** Position by position, records and service chunks agree on everything
      but the index and character offsets. */
  predicate Matches(a: seq<Record>, b: seq<Svc.Chunk>) {
    |a| == |b| && forall i :: 0 <= i < |a| ==> ToSpan(a[i]).(chunkIndex := 0) == Svc.ToSpan(b[i]).(chunkIndex := 0)
  }

  lemma MatchesAppend(a: seq<Record>, b: seq<Svc.Chunk>, cs: seq<Record>, ds: seq<Svc.Chunk>, base: int)
    requires Matches(a, b) && Spans(cs) == Svc.Spans(ds)
    ensures Matches(a + cs, b + Svc.Renumbered(ds, base))
  {
    var a', b' := a + cs, b + Svc.Renumbered(ds, base);
    forall i | 0 <= i < |a'| ensures ToSpan(a'[i]).(chunkIndex := 0) == Svc.ToSpan(b'[i]).(chunkIndex := 0) {
      if i >= |a| {
        var j := i - |a|;
        assert a'[i] == cs[j] && b'[i] == Svc.WithIndex(ds[j], base + j);
        assert Spans(cs)[j] == Svc.Spans(ds)[j];
      } else {
        assert a'[i] == a[i] && b'[i] == b[i];
      }
    }
  }

  /** The concatenated page records match the service's page chunks. */
  lemma {:induction false} PageRecordsAgree(cfg: Config, pages: seq<string>)
    ensures Matches(PageRecords(cfg, pages), Svc.PdfChunks(cfg, pages))
    decreases |pages|
  {
    if |pages| > 0 {
      var n := |pages|;
      var init := pages[..n - 1];
      PageRecordsAgree(cfg, init);
      if !IsBlank(pages[n - 1]) {
        var cfgp := cfg.(page := Some(n));
        ChunkedAgree(cfgp, pages[n - 1]);
        MatchesAppend(PageRecords(cfg, init), Svc.PdfChunks(cfg, init), Chunked(cfgp, pages[n - 1]),
                      Svc.Chunked(cfgp, pages[n - 1]), |Svc.PdfChunks(cfg, init)|);
      }
    }
  }

  /** `TokenChunker.chunk_pdf` and the service's `_chunk_pdf` agree on every
      field but the character offsets; so the command-line chunks also run
      0, 1, 2, ... across pages, carry the numbers of non-blank pages in
      order, and restart token positions at each page. */
  lemma PdfAgree(cfg: Config, pages: seq<string>)
    ensures Spans(PdfRecords(cfg, pages)) == Svc.Spans(Svc.PdfChunks(cfg, pages))
  {
    var a := PageRecords(cfg, pages);
    var b := Svc.PdfChunks(cfg, pages);
    PageRecordsAgree(cfg, pages);
    Svc.PdfSpec(cfg, pages);
    forall i | 0 <= i < |a| ensures Spans(PdfRecords(cfg, pages))[i] == Svc.Spans(b)[i] {
      assert ToSpan(a[i]).(chunkIndex := 0) == Svc.ToSpan(b[i]).(chunkIndex := 0);
      assert b[i].metadata.chunkIndex == i;
    }
  }
}
