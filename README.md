# Token-based chunking, modelled in Dafny

This project models the chunking engine of a document preprocessing
service. The engine cuts extracted document text into retrieval-sized
chunks. The text is split into sentences: by a statistical model, or by the
regular expression `(?<=[.!?])\s+(?=[A-Z])`. Sentences are packed greedily
into chunks of at most `chunk_tokens` tokens. When a chunk is closed, its
closing sentences, up to `overlap_tokens` tokens, are carried into the next
chunk. A sentence too large for any chunk is cut into word groups. Every
chunk records its position in a global token stream (`start_token`,
`end_token`) and in the characters (`char_offset_start`, `char_offset_end`).

Three parts of the system are modelled:

- **`PreprocessingService`.** This covers `_count_tokens`,
  `_segment_sentences`, `_split_oversized_sentence`,
  `_token_based_chunker`, the page loop of `_chunk_pdf`, and the
  `_chunk_text` / `_chunk_docx` forwarders. It is in
  `preprocessing_service.dfy`, and shares `text.dfy`, `tokens.dfy`,
  `sentences.dfy` and `packing.dfy` with the next part.
- **The stand-alone command-line chunker `TokenChunker`.** This covers
  `chunk_text` with its inline word split and the page/reindex part of
  `chunk_pdf`. It is in `token_chunker_cli.dfy`.
- **The chunk schemas.** This covers `ChunkDTO.location_display` and the
  field bounds of `PreprocessingRequest` and `ContentChunkBase`. It is in
  `content_chunk.dfy`.

Every loop of the source is a Dafny method with a loop. Each method is
proved equal to a specification function. That function is a left fold of
one loop step over the input, for example `Run(cfg, xs) = Step(cfg,
Run(cfg, xs[..n-1]), xs[n-1])`. The chunker's promises are then proved
about the fold, as invariants kept by each step. The service and the CLI
write their chunks differently: the CLI puts `chunk_index`, `start_token`,
`end_token` and `page_number` at the top level of each chunk. A `Span`
projection holds everything except the character offsets, and a lemma
proves the two programs emit the same spans.

Foreign tokenizers (tiktoken, transformers) are `encode` functions passed
in as parameters. A statistical sentence model is a function from text to
raw sentences, also passed in. The whitespace tier (`len(text.split())`)
and the regex tier are modelled concretely.

Behaviour reproduced as the code has it:

- chunks may hold up to `chunk_tokens + overlap_tokens` tokens, because the
  sentence appended after an overlap reset is not re-checked;
- the first chunk's `char_offset_start` is 1 when the first sentence is
  packed, because `char_offset` moves by `len(sentence) + 1` per sentence
  and the packed chunk starts at `char_offset - len(chunk_text)`; it is 0
  when the first sentence is oversized and split (`ChunkSentencesFirst`);
- when an oversized sentence arrives while a chunk is full, the chunk is
  closed, its overlap becomes pending, and the flush before the split emits
  that overlap again as a chunk of its own (`OverlapReemitted`);
- in the CLI, each word group that the inline split closes before the
  last moves `char_offset` by the group's length plus one, and the whole
  sentence then moves it by `len(sentence) + 1` as well. The service
  instead uses a local offset inside `_split_oversized_sentence`. So the
  two programs' character offsets drift apart after an oversized sentence
  that gives two or more word groups, and stay together after one that
  gives a single group (`OversizeDrift`). Their spans stay equal.

## Model

| member | source | states |
|---|---|---|
| Text.Words | backend/app/services/preprocessing_service.py:101 | `str.split()`: every element is a non-empty run of non-whitespace, and the result is empty exactly when the text is blank |
| Text.WordsCover | backend/app/services/preprocessing_service.py:101 | the words of `str.split()`, put back together, are exactly the text's non-whitespace characters in order |
| Text.StripSpec | backend/app/services/preprocessing_service.py:110-115 | `str.strip()` gives a stripped string that is a slice of the input with only whitespace cut from either end, and that is empty exactly when the input is blank |
| Tokens.SelectTokenizer | backend/app/services/preprocessing_service.py:51-76 | the tier is tiktoken when available, else transformers when available, else whitespace; each type name is reported exactly in its case, and a library tier keeps the encoder that loaded |
| Tokens.BlankNoTokens | backend/app/services/preprocessing_service.py:90-101 | blank text counts 0 tokens on every tier |
| Tokens.WhitespaceCounts | backend/app/services/preprocessing_service.py:90-101 | under the whitespace tier the count is 0 exactly when the text is blank, and a single word counts 1 |
| Tokens.WhitespaceSumOfJoin | backend/app/services/preprocessing_service.py:101 | under the whitespace tier the counts of some strings add up to the count of their space-joined text |
| Sentences.RegexSplitSpec | backend/app/services/preprocessing_service.py:112-114 | the regex split yields pieces in order: interleaved with the matched whitespace they rebuild the text, each separator is a whitespace run after `.`, `!` or `?` and before a capital, and no piece holds a match |
| Sentences.SegmentSentences | backend/app/services/preprocessing_service.py:103-115 | blank text gives no sentences, and every sentence is non-empty and stripped |
| Sentences.RegexSegmentKeepsText | backend/app/services/preprocessing_service.py:112-115 | regex segmentation keeps every non-whitespace character of the text in order, and non-blank text gives at least one sentence |
| Packing.CarryOverlap | backend/app/services/preprocessing_service.py:253-262 | the backward overlap loop returns the overlap sentences and their token total |
| Packing.OverlapBounds | backend/app/services/preprocessing_service.py:253-262 | the overlap holds at most `overlap_tokens` tokens (0 for a negative budget), and it is maximal: the next older sentence would exceed the budget |
| Packing.OverlapBudget | backend/app/services/preprocessing_service.py:253-262 | the overlap has no more sentences than the closed chunk and at most `overlap_tokens` tokens, 0 when the budget is negative |
| Packing.OverlapMaximal | backend/app/services/preprocessing_service.py:253-262 | when the overlap stops short of the chunk's first sentence, taking the next older sentence as well would exceed `overlap_tokens` |
| Packing.OverlapIsSuffix | backend/app/services/preprocessing_service.py:253-262 | the overlap is a suffix of the closed chunk's sentences, in their original order |
| Packing.OverlapWithin | backend/app/services/preprocessing_service.py:253-268 | the overlap has no more tokens and no longer a joined text than the closed chunk |
| Packing.WordSplitSpec | backend/app/services/preprocessing_service.py:117-185 | the word groups hold exactly the sentence's words, in order; their tokens add up to the words' tokens; each group is within `chunk_tokens` unless it is a single word; a group after the first was begun only because its first word would have pushed the previous group over `chunk_tokens`; token and character counters follow on from group to group; blank sentences give no group |
| Packing.SplitRunGreedy | backend/app/services/preprocessing_service.py:136-163 | throughout the word loop every closed group was closed because the next word would overflow it, including the seam between the last closed group and the open one, and a closed group implies an open one |
| Packing.WordSplitJoin | backend/app/services/preprocessing_service.py:117-185 | the group texts joined by single spaces equal `" ".join(sentence.split())`, so no word is lost or repeated |
| PreprocessingService.SplitOversizedSentence | backend/app/services/preprocessing_service.py:117-185 | the word loop returns the chunks of the word-group specification |
| PreprocessingService.OversizedOk | backend/app/services/preprocessing_service.py:117-185 | the split chunks, renumbered, are well formed and linked, start at the given token offset, and end after the sentence's word tokens |
| PreprocessingService.FinalizePending | backend/app/services/preprocessing_service.py:231-268 | closing a full chunk emits the pending sentences and carries their overlap, with the token offset moved to where the overlap begins |
| PreprocessingService.ChunkOversized | backend/app/services/preprocessing_service.py:271-313 | the oversized branch emits the pending chunk without overlap, appends the renumbered word groups, and moves both counters past the sentence |
| PreprocessingService.PackSentence | backend/app/services/preprocessing_service.py:227-318 | one pass of the sentence loop's body performs one step of the packing specification |
| PreprocessingService.PackSentences | backend/app/services/preprocessing_service.py:221-339 | the sentence loop and the final flush compute the sentence-packing specification |
| PreprocessingService.TokenBasedChunker | backend/app/services/preprocessing_service.py:187-341 | `_token_based_chunker` computes the chunking specification, blank and sentence-less text included |
| PreprocessingService.RunInv | backend/app/services/preprocessing_service.py:227-318 | after any prefix of the sentences: the pending total is the pending sentences' count; the emitted chunks are well formed and linked; offset plus pending total equals every token consumed; the last chunk ends at most `overlap_tokens` past the offset |
| PreprocessingService.RunTracks | backend/app/services/preprocessing_service.py:227-318 | after any prefix of the sentences: the pending sentences are the most recent ones, `char_offset` is the sum of `len(sentence) + 1`, and every packed chunk is a run of consecutive sentences |
| PreprocessingService.FinishOk | backend/app/services/preprocessing_service.py:321-339 | the last flush keeps the chunks well formed, gives at least one chunk for some sentences, and makes the last chunk end at the end of the token stream |
| PreprocessingService.ChunkSentencesSpec | backend/tests/test_token_chunking.py:141-143 | the packed chunks are numbered 0, 1, 2, ..., each within its budget, linked, starting at token 0 and ending after every token; some sentence gives some chunk |
| PreprocessingService.ChunkedSpec | backend/app/services/preprocessing_service.py:187-341 | blank text gives no chunks; chunk i has index i, `end - start == token_count` and `char_end - char_start == len(text)` with `char_start >= 0`; each packed chunk is `sentence_count` consecutive sentences joined by spaces and its `token_count` is the sum of their counts, and each split chunk's `token_count` is the sum of its words' counts; packed chunks have at most `chunk_tokens + overlap_tokens` tokens; consecutive chunks satisfy `0 <= end_i - start_{i+1} <= overlap_tokens`; every packed chunk but the last holds sentences `i..j` and was closed because sentence `j` would have pushed it over `chunk_tokens`, and the next chunk starts at its end less the tokens of its overlap (at its end when the next chunk is split); after a split chunk the next starts at its end; the first starts at token 0, and at character 0 or 1 as the first sentence is split or packed; the last ends at the stream's end; no chunk's text is empty or blank, and under the whitespace tier every `token_count` is positive; a sentence with more than `chunk_tokens` tokens gives at least one `oversized_split` chunk; with the regex splitter non-blank text gives a chunk |
| PreprocessingService.RunCloses | backend/app/services/preprocessing_service.py:227-318 | after any prefix of the sentences every emitted chunk but the last is followed as described above, and the offset stands after the last one: where its overlap begins when it is packed, at its end when it is split or nothing is pending |
| PreprocessingService.ChunkSentencesCloses | backend/app/services/preprocessing_service.py:227-339 | in the finished chunk list every packed chunk but the last was closed by an overflowing next sentence and is followed at its end less its overlap's tokens; every split chunk but the last is followed at its end |
| PreprocessingService.OversizedChained | backend/app/services/preprocessing_service.py:136-185 | the chunks of an oversized sentence are all marked as split, each starts at the token where the previous ends, and the first starts at the given character offset |
| PreprocessingService.ConsumedJoin | backend/app/services/preprocessing_service.py:243-318 | after some sentences `char_offset` is one past the length of their space-joined text |
| PreprocessingService.RunWords | backend/app/services/preprocessing_service.py:227-318 | every `oversized_split` chunk emitted so far holds a word, and once a sentence above `chunk_tokens` has been consumed some chunk is an `oversized_split` one |
| PreprocessingService.ChunkSentencesNonBlank | backend/app/services/preprocessing_service.py:227-341 | no chunk's text is blank, a packed one joining at least one sentence and a split one at least one word; a sentence above `chunk_tokens` yields an `oversized_split` chunk |
| PreprocessingService.RunFirst | backend/app/services/preprocessing_service.py:227-318 | until a chunk is emitted every sentence consumed is pending and the first one fits `chunk_tokens`; afterwards the first chunk starts at character 0 or 1 as the first sentence was split or packed |
| PreprocessingService.ChunkSentencesFirst | backend/app/services/preprocessing_service.py:227-339 | for some non-blank sentences the first chunk's `char_offset_start` is 0 when the first sentence exceeds `chunk_tokens` and 1 otherwise |
| PreprocessingService.ChunkedSentences | backend/app/services/preprocessing_service.py:231-250 | every packed chunk's text is `sentence_count` consecutive sentences joined by single spaces and its `token_count` their summed counts; every split chunk's `token_count` is its words' summed counts |
| PreprocessingService.WhitespaceContributions | backend/app/services/preprocessing_service.py:101-318 | under the whitespace tier the token stream has exactly as many tokens as the sentences have words, split or not |
| PreprocessingService.OverlapReemitted | backend/app/services/preprocessing_service.py:253-290 | an oversized sentence arriving when the pending chunk is full makes the next two chunks the whole pending chunk and then its overlap alone, as a packed chunk |
| PreprocessingService.Reindex | backend/app/services/preprocessing_service.py:464-466 | the index loop renumbers one page's chunks from the global counter and advances the counter by their number |
| PreprocessingService.ChunkPdf | backend/app/services/preprocessing_service.py:448-471 | the page loop skips blank pages, chunks each page with its 1-based number, and renumbers globally |
| PreprocessingService.PdfSpec | backend/app/services/preprocessing_service.py:448-471 | the PDF chunks are numbered 0, 1, 2, ...; each comes from a non-blank page and is well formed for it; pages appear in order; within a page chunks are linked, and each page starts again at token 0 |
| PreprocessingService.PdfCoversPages | backend/app/services/preprocessing_service.py:451-469 | with the regex splitter every non-blank page gives at least one chunk |
| PreprocessingService.TokenBasedChunkerDefaults | backend/app/services/preprocessing_service.py:189-192 | `_token_based_chunker` without keyword arguments chunks with 900 tokens per chunk, 200 of overlap and no page |
| PreprocessingService.DefaultsSpec | backend/app/services/preprocessing_service.py:189-192 | with the defaults no chunk has a page, a packed chunk holds at most 1100 tokens, a split one at most 900 unless it is a single word, and consecutive chunks overlap by at most 200 tokens |
| PreprocessingService.DefaultsMatchRequest | backend/app/schemas/content_chunk.py:96-107 | a request that leaves both token fields out validates to exactly the chunker's defaults, 900 and 200, and a request stating them explicitly validates to the same request |
| PreprocessingService.ChunkText | backend/app/services/preprocessing_service.py:502-526 | `_chunk_text` chunks the whole text with no page number |
| PreprocessingService.StoredChunk | backend/app/services/preprocessing_service.py:402-411 | a stored row is not validated when it is written; read back through `ContentChunkBase` it is accepted unchanged (its index and count are naturals by construction). The row shows as "Page N, Chars s-e" when its page is non-zero and as "Chars s-e" otherwise |
| TokenChunkerCli.WordLoop | scripts/token_chunker_cli.py:196-225 | the inline word loop computes the closed groups, the open group, and both counters of the word-group specification |
| TokenChunkerCli.SplitInline | scripts/token_chunker_cli.py:195-244 | the inline split appends one chunk per word group and moves the token offset past the sentence's word tokens |
| TokenChunkerCli.ChunkOversized | scripts/token_chunker_cli.py:173-246 | the oversized branch flushes the pending chunk, splits inline, and then moves `char_offset` by `len(sentence) + 1` as well |
| TokenChunkerCli.PackSentence | scripts/token_chunker_cli.py:133-250 | one pass of the sentence loop's body performs one step of the CLI's packing specification |
| TokenChunkerCli.FinalizePending | scripts/token_chunker_cli.py:136-170 | closing a full chunk emits it, carries the overlap, and moves the token offset to the overlap's start |
| TokenChunkerCli.PackSentences | scripts/token_chunker_cli.py:127-269 | the sentence loop and final flush compute the CLI's packing specification |
| TokenChunkerCli.OversizeDrift | scripts/token_chunker_cli.py:196-244 | after an oversized sentence the CLI's `char_offset` is at least `len(sentence) + 1` further on, and exactly that far, as the service's is, iff the sentence gives at most one word group |
| TokenChunkerCli.ChunkTextDefaults | scripts/token_chunker_cli.py:101-106 | `chunk_text` without keyword arguments chunks with 900 tokens per chunk, 200 of overlap and no page |
| TokenChunkerCli.ChunkPdfDefaults | scripts/token_chunker_cli.py:274-277 | `chunk_pdf` without keyword arguments chunks every page with 900 tokens per chunk and 200 of overlap |
| TokenChunkerCli.ChunkText | scripts/token_chunker_cli.py:101-271 | `chunk_text` computes the CLI's chunking specification |
| TokenChunkerCli.ChunkedAgree | scripts/token_chunker_cli.py:101-271 | for the same tiers and budgets the CLI and the service emit the same (index, text, token count, start, end, page, tier, method, kind) sequence |
| TokenChunkerCli.RunChars | scripts/token_chunker_cli.py:133-250 | throughout the CLI loop every chunk has `char_end - char_start == len(text)` and `char_start >= 0` |
| TokenChunkerCli.ChunkTextSpec | scripts/token_chunker_cli.py:101-271 | blank text gives no chunks; chunks are numbered, well formed and linked, with consistent character ranges; each packed record holds `sentence_count` consecutive sentences and counts their tokens, each split record counts its words' tokens; every chunk but the last was closed as in the service's `ChunkedSpec`; the first starts at 0 and the last ends at the stream's end; no record's text is empty or blank, every whitespace-tier count is positive, and a sentence above `chunk_tokens` gives an `oversized_split` record; with the regex splitter non-blank text gives a chunk |
| TokenChunkerCli.ChunkPdf | scripts/token_chunker_cli.py:307-326 | the CLI skips blank pages, uses 1-based page numbers, extends the list, and then sets `chunk_index = i` over the concatenation |
| TokenChunkerCli.PdfAgree | scripts/token_chunker_cli.py:307-326 | the CLI's PDF chunks project to the same spans as the service's, so they meet all of `PdfSpec` except the character ranges |
| TokenChunkerCli.PieceSpansAgree | scripts/token_chunker_cli.py:195-244 | word groups that differ only in their character offsets give inline records and service chunks with the same spans |
| ContentChunkSchema.IntToStringSpec | backend/app/schemas/content_chunk.py:73 | a number's decimal form is non-empty, begins with `-` exactly for negatives, and reads back as the number |
| ContentChunkSchema.NatToStringSpec | backend/app/schemas/content_chunk.py:81 | a natural's decimal form is a non-empty run of digits with no leading zero that reads back as the number |
| ContentChunkSchema.IntToStringInjective | backend/app/schemas/content_chunk.py:84 | different numbers are shown differently |
| ContentChunkSchema.LocationDisplay | backend/app/schemas/content_chunk.py:67-86 | the appends build the parts list of the location specification, joined by ", " |
| ContentChunkSchema.LocationPartsSpec | backend/app/schemas/content_chunk.py:70-84 | a "Page N" part is present iff `page_number` is truthy (not missing, `None` or 0), and it comes first; a "Section: T" part is present iff the title is non-empty, and it comes right after; a "Chars s-e" part is present iff `char_offset_start` is not `None` (0 included), and it comes last; with none of them the only part is "Chunk i+1" |
| ContentChunkSchema.LocationDisplaySpec | backend/app/schemas/content_chunk.py:67-86 | the location is never empty; it begins with "Page " iff the page is truthy; it is exactly "Chunk i+1" iff no other part applies |
| ContentChunkSchema.ValidateRequest | backend/app/schemas/content_chunk.py:92-121 | a request is accepted iff each given number is in bounds: `chunk_tokens` in [500, 2000], `overlap_tokens` in [0, 500], `chunk_size` in [500, 5000], `overlap` in [0, 500]; missing fields default to 900, 200, `None` and `None`; an explicit `None` is kept; a rejection names exactly the out-of-bounds fields |
| ContentChunkSchema.ValidateChunkBase | backend/app/schemas/content_chunk.py:24-29 | a chunk is accepted iff `text` is given, `chunk_index` is given and `>= 0`, and `token_count` is missing or given and `>= 0`; a missing `token_count` becomes 0; a rejection names exactly the failing fields |

## Left out

- The tiktoken, transformers and spaCy back-ends and their import fallback are foreign libraries. Each is a function passed in as a parameter, and tier selection is "first available". Logging is left out.
- Text extraction (`content_parser.extract_pdf_pages`, `parse_docx`, PyPDF2 page reading) is file I/O. The page list or the document text is an input.
- `preprocess_submission` and `delete_chunks` are left out: the database session, ORM models, status updates and async plumbing are not part of this model. Only the shape of the stored row (lines 402-411) is modelled, in `StoredChunk`. Its keyword defaults (900 and 200) are those of `DefaultConfig`.
- The CLI's `main` (argument parsing, file reads and writes, JSON output, float statistics) is left out.
- `backend/test_chunking_script.py` is a database and file-dump script and is not part of this model.
- Pydantic's `Config` classes, UUID and datetime fields, ORM modes and `extra = "allow"` are left out. Metadata values read by `location_display` are typed: `page_number`, `char_offset_start` and `char_offset_end` are ints or `None`, and `section_title` is a string or `None`. Values of other Python types are not modelled.
- ContentChunkSchema.ValidateRequest: reports the failing field names only, not pydantic's error messages. It does not model pydantic's coercion of non-int input (strings, floats, bools).
- Python dicts are mutable and shared between lists, and `chunk["metadata"]["chunk_index"] = ...` rewrites a chunk in place. The model rebuilds the chunk as a new value instead. Nothing else holds a reference to these dicts, so no behaviour is lost.
- The branches of the source's single loops are methods of their own (FinalizePending, ChunkOversized, WordLoop, SplitInline, Reindex). They are called exactly where the inline code stands.
- The chunker does not check that `overlap_tokens < chunk_tokens`, and neither does the model. Negative budgets are accepted; a negative overlap budget carries no sentence, and with budget 0 only zero-token sentences are carried, so the overlap carries no tokens in either case (`OverlapBound` is 0).
- PreprocessingService.ChunkedSpec: bounds packed chunks by `chunk_tokens + overlap_tokens`, not by `chunk_tokens`, because the code does not give the stricter bound.
- PreprocessingService.ChunkedSpec: character offsets are proved consistent with text lengths and non-negative, not to be substring positions in the source text: the first chunk starts at 1 when its first sentence is packed, and the CLI's offsets drift after an oversized sentence of two or more word groups.
- PreprocessingService.ChunkedSpec: the run of sentences `xs[a..b]` a packed chunk was closed on is identified by its joined text and length, not pinned to the chunk's position in the stream; when sentences repeat, an equal run elsewhere can stand for it.
- TokenChunkerCli.ChunkTextSpec: does not state where the first record's character range starts; that is proved for the service only (`ChunkSentencesFirst`).
- No result is proved for the concrete four-sentence example of backend/tests/test_token_chunking.py:307-313. `Sentences.RegexSplitSpec` states the split for every text instead.
