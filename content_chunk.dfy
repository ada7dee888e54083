/** The chunk schemas: the human-readable location of a chunk, and the
    field bounds of a preprocessing request and of a stored chunk. */
module ContentChunkSchema {
  import opened Wrappers
  import opened Text

  // ---------------------------------------------------------------------
  // Decimal rendering, as Python's `str(int)` inside an f-string
  // ---------------------------------------------------------------------

  predicate IsDigit(c: char) {
    '0' <= c <= '9'
  }

  function NatToString(n: nat): string
    decreases n
  {
    if n < 10 then [('0' as int + n) as char]
    else NatToString(n / 10) + [('0' as int + n % 10) as char]
  }

  function IntToString(n: int): string {
    if n < 0 then "-" + NatToString(-n) else NatToString(n)
  }

  /** Reading digits back, the partner of `NatToString`. */
  function ParseNat(s: string): nat
    decreases |s|
  {
    if |s| == 0 then 0
    else
      var d := s[|s| - 1] as int - '0' as int;
      10 * ParseNat(s[..|s| - 1]) + (if 0 <= d then d else 0)
  }

  function ParseInt(s: string): int {
    if |s| > 0 && s[0] == '-' then 0 - ParseNat(s[1..]) as int else ParseNat(s)
  }

  /** The decimal form of a number is a non-empty run of digits with no
      leading zero, and reading it back gives the number. */
  lemma {:induction false} NatToStringSpec(n: nat)
    ensures var r := NatToString(n);
      && |r| > 0
      && (forall i :: 0 <= i < |r| ==> IsDigit(r[i]))
      && (r[0] == '0' ==> r == "0")
      && ParseNat(r) == n
    decreases n
  {
    var r := NatToString(n);
    if n >= 10 {
      NatToStringSpec(n / 10);
      var h := NatToString(n / 10);
      assert r[..|r| - 1] == h;
      assert r[0] == h[0];
    }
  }

  lemma IntToStringSpec(n: int)
    ensures var r := IntToString(n);
      && |r| > 0
      && (r[0] == '-' <==> n < 0)
      && ParseInt(r) == n
  {
    if n < 0 {
      NatToStringSpec(-n);
      assert IntToString(n)[1..] == NatToString(-n);
    } else {
      NatToStringSpec(n);
    }
  }

  /** Different numbers are shown differently. */
  lemma IntToStringInjective(m: int, n: int)
    requires IntToString(m) == IntToString(n)
    ensures m == n
  {
    IntToStringSpec(m);
    IntToStringSpec(n);
  }

  // ---------------------------------------------------------------------
  // ChunkDTO.location_display
  // ---------------------------------------------------------------------

  /** The metadata keys `location_display` reads; each may be missing,
      `None`, or hold a value. */
  datatype DtoMetadata = DtoMetadata(pageNumber: Field<int>, sectionTitle: Field<string>,
                                     charOffsetStart: Field<int>, charOffsetEnd: Field<int>)

  datatype ChunkDto = ChunkDto(text: string, chunkIndex: int, tokenCount: int, metadata: DtoMetadata)

  predicate StartsWith(s: string, p: string) {
    |p| <= |s| && s[..|p|] == p
  }

  /** `metadata.get("page_number")` is truthy: present, not `None`, not 0. */
  predicate PageShown(d: ChunkDto) {
    d.metadata.pageNumber.Present? && d.metadata.pageNumber.value != 0
  }

  /** `metadata.get("section_title")` is truthy: a non-empty string. */
  predicate SectionShown(d: ChunkDto) {
    d.metadata.sectionTitle.Present? && |d.metadata.sectionTitle.value| > 0
  }

  /** `metadata.get("char_offset_start") is not None` (0 included). */
  predicate CharsShown(d: ChunkDto) {
    d.metadata.charOffsetStart.Present?
  }

  function PageText(d: ChunkDto): string
    requires PageShown(d)
  {
    "Page " + IntToString(d.metadata.pageNumber.value)
  }

  function SectionText(d: ChunkDto): string
    requires SectionShown(d)
  {
    "Section: " + d.metadata.sectionTitle.value
  }

  /** `metadata.get('char_offset_end', start + len(text))`: the default
      applies only to a missing key; a stored `None` is shown as "None". */
  function EndText(d: ChunkDto): string
    requires CharsShown(d)
  {
    match d.metadata.charOffsetEnd
    case Absent => IntToString(d.metadata.charOffsetStart.value + |d.text|)
    case Null => "None"
    case Present(e) => IntToString(e)
  }

  function CharsText(d: ChunkDto): string
    requires CharsShown(d)
  {
    "Chars " + IntToString(d.metadata.charOffsetStart.value) + "-" + EndText(d)
  }

  function FallbackText(d: ChunkDto): string {
    "Chunk " + IntToString(d.chunkIndex + 1)
  }

  /** The parts, in order: page, section, characters; the chunk number
      when none of them applies. */
  function LocationParts(d: ChunkDto): seq<string> {
    var ps := (if PageShown(d) then [PageText(d)] else [])
              + (if SectionShown(d) then [SectionText(d)] else [])
              + (if CharsShown(d) then [CharsText(d)] else []);
    if |ps| == 0 then [FallbackText(d)] else ps
  }

  /** `location_display`: the parts list is built by successive appends
      and joined by ", ". */
  method LocationDisplay(d: ChunkDto) returns (r: string)
    ensures r == Join(LocationParts(d), ", ")
  {
    var parts: seq<string> := [];
    if PageShown(d) {
      parts := parts + ["Page " + IntToString(d.metadata.pageNumber.value)];
    }
    if SectionShown(d) {
      parts := parts + ["Section: " + d.metadata.sectionTitle.value];
    }
    if CharsShown(d) {
      var start := d.metadata.charOffsetStart.value;
      var end := match d.metadata.charOffsetEnd
        case Absent => IntToString(start + |d.text|)
        case Null => "None"
        case Present(e) => IntToString(e);
      assert end == EndText(d);
      parts := parts + ["Chars " + IntToString(start) + "-" + end];
    }
    if |parts| == 0 {
      parts := parts + ["Chunk " + IntToString(d.chunkIndex + 1)];
    }
    assert parts == LocationParts(d);
    r := Join(parts, ", ");
  }

  /** A string opening with `p` does not open with `q` when the two
      differ at some position both have. */
  lemma PrefixClash(r: string, p: string, q: string, i: nat)
    requires StartsWith(r, p) && i < |p| && i < |q| && p[i] != q[i]
    ensures !StartsWith(r, q)
  {
    assert r[i] == p[i];
  }

  /** The opening words of the part that comes first. */
  function Opening(d: ChunkDto): string {
    if PageShown(d) then "Page "
    else if SectionShown(d) then "Section: "
    else if CharsShown(d) then "Chars "
    else "Chunk "
  }

  lemma StartsWithConcat(p: string, t: string)
    ensures StartsWith(p + t, p)
  {
    assert (p + t)[..|p|] == p;
  }

  lemma PageOpening(d: ChunkDto)
    requires PageShown(d)
    ensures StartsWith(PageText(d), "Page ")
    ensures !StartsWith(PageText(d), "Section: ") && !StartsWith(PageText(d), "Chars ")
  {
    StartsWithConcat("Page ", IntToString(d.metadata.pageNumber.value));
    PrefixClash(PageText(d), "Page ", "Section: ", 0);
    PrefixClash(PageText(d), "Page ", "Chars ", 0);
  }

  lemma SectionOpening(d: ChunkDto)
    requires SectionShown(d)
    ensures StartsWith(SectionText(d), "Section: ")
    ensures !StartsWith(SectionText(d), "Page ") && !StartsWith(SectionText(d), "Chars ")
  {
    StartsWithConcat("Section: ", d.metadata.sectionTitle.value);
    PrefixClash(SectionText(d), "Section: ", "Page ", 0);
    PrefixClash(SectionText(d), "Section: ", "Chars ", 0);
  }

  lemma CharsOpening(d: ChunkDto)
    requires CharsShown(d)
    ensures StartsWith(CharsText(d), "Chars ")
    ensures !StartsWith(CharsText(d), "Page ") && !StartsWith(CharsText(d), "Section: ")
  {
    var rest := IntToString(d.metadata.charOffsetStart.value) + "-" + EndText(d);
    assert CharsText(d) == "Chars " + rest;
    StartsWithConcat("Chars ", rest);
    PrefixClash(CharsText(d), "Chars ", "Page ", 0);
    PrefixClash(CharsText(d), "Chars ", "Section: ", 0);
  }

  lemma FallbackOpening(d: ChunkDto)
    ensures StartsWith(FallbackText(d), "Chunk ")
    ensures !StartsWith(FallbackText(d), "Page ") && !StartsWith(FallbackText(d), "Section: ")
    ensures !StartsWith(FallbackText(d), "Chars ")
  {
    StartsWithConcat("Chunk ", IntToString(d.chunkIndex + 1));
    PrefixClash(FallbackText(d), "Chunk ", "Page ", 0);
    PrefixClash(FallbackText(d), "Chunk ", "Section: ", 0);
    PrefixClash(FallbackText(d), "Chunk ", "Chars ", 2);
  }

  /** The four kinds of part are told apart by their opening words. */
  lemma PrefixesDistinct(d: ChunkDto)
    ensures PageShown(d) ==> StartsWith(PageText(d), "Page ")
    ensures SectionShown(d) ==> StartsWith(SectionText(d), "Section: ")
    ensures CharsShown(d) ==> StartsWith(CharsText(d), "Chars ")
    ensures StartsWith(FallbackText(d), "Chunk ")
    ensures PageShown(d) ==> !StartsWith(PageText(d), "Section: ") && !StartsWith(PageText(d), "Chars ")
    ensures SectionShown(d) ==> !StartsWith(SectionText(d), "Page ") && !StartsWith(SectionText(d), "Chars ")
    ensures CharsShown(d) ==> !StartsWith(CharsText(d), "Page ") && !StartsWith(CharsText(d), "Section: ")
    ensures !StartsWith(FallbackText(d), "Page ") && !StartsWith(FallbackText(d), "Section: ")
    ensures !StartsWith(FallbackText(d), "Chars ")
  {
    if PageShown(d) { PageOpening(d); }
    if SectionShown(d) { SectionOpening(d); }
    if CharsShown(d) { CharsOpening(d); }
    FallbackOpening(d);
  }

  /** Each part is present exactly when its key calls for it, and in its
      place: the page part first, the section part after it, the
      characters part last; with none of them the only part is the chunk
      number plus one. */
  lemma LocationPartsSpec(d: ChunkDto)
    ensures var ps := LocationParts(d);
      && 1 <= |ps| <= 3
      && (PageShown(d) <==> exists i :: 0 <= i < |ps| && StartsWith(ps[i], "Page "))
      && (PageShown(d) ==> ps[0] == PageText(d))
      && (SectionShown(d) <==> exists i :: 0 <= i < |ps| && StartsWith(ps[i], "Section: "))
      && (SectionShown(d) ==> ps[if PageShown(d) then 1 else 0] == SectionText(d))
      && (CharsShown(d) <==> exists i :: 0 <= i < |ps| && StartsWith(ps[i], "Chars "))
      && (CharsShown(d) ==> ps[|ps| - 1] == CharsText(d))
      && (ps == [FallbackText(d)] <==> !PageShown(d) && !SectionShown(d) && !CharsShown(d))
  {
    PrefixesDistinct(d);
    var ps := LocationParts(d);
    if PageShown(d) {
      assert StartsWith(PageText(d), "Page ");
      assert ps[0] == PageText(d);
    }
    if SectionShown(d) {
      assert StartsWith(SectionText(d), "Section: ");
      assert ps[if PageShown(d) then 1 else 0] == SectionText(d);
    }
    if CharsShown(d) {
      assert StartsWith(CharsText(d), "Chars ");
      assert ps[|ps| - 1] == CharsText(d);
    }
    if PageShown(d) || SectionShown(d) || CharsShown(d) {
      assert FallbackText(d) !in ps;
    } else {
      assert ps == [FallbackText(d)];
    }
  }

  lemma JoinStartsWithFirst(ps: seq<string>, sep: string, p: string)
    requires |ps| > 0 && StartsWith(ps[0], p)
    ensures StartsWith(Join(ps, sep), p)
  {
    if |ps| > 1 {
      assert ps == [ps[0]] + ps[1..];
      JoinCons(ps[0], ps[1..], sep);
      assert Join(ps, sep)[..|p|] == ps[0][..|p|];
    }
  }

  /** The shown location is never empty; it opens with "Page " exactly
      when the page number is truthy, and it is "Chunk n+1" exactly when
      no page, section or character part applies. */
  lemma LocationDisplaySpec(d: ChunkDto)
    ensures var r := Join(LocationParts(d), ", ");
      && |r| > 0
      && (PageShown(d) <==> StartsWith(r, "Page "))
      && (r == FallbackText(d) <==> !PageShown(d) && !SectionShown(d) && !CharsShown(d))
  {
    var ps := LocationParts(d);
    var r := Join(ps, ", ");
    var o := Opening(d);
    PrefixesDistinct(d);
    assert StartsWith(ps[0], o);
    JoinStartsWithFirst(ps, ", ", o);
    if !PageShown(d) {
      PrefixClash(r, o, "Page ", 0);
    }
    if PageShown(d) || SectionShown(d) || CharsShown(d) {
      PrefixClash(r, o, "Chunk ", if CharsShown(d) && !PageShown(d) && !SectionShown(d) then 2 else 0);
    } else {
      assert ps == [FallbackText(d)];
    }
  }

  // ---------------------------------------------------------------------
  // Field bounds
  // ---------------------------------------------------------------------

  /** A validated value, or the names of the fields that failed. */
  datatype Validated<T> = Valid(value: T) | Invalid(fields: seq<string>)

  /** A `PreprocessingRequest` after validation: each field is a number or
      `None`. */
  datatype Request = Request(chunkTokens: Option<int>, overlapTokens: Option<int>,
                             chunkSize: Option<int>, overlap: Option<int>)

  /** An `Optional[int]` field with `ge`/`le` bounds: `None` needs no
      check, a number must lie within the bounds. */
  predicate InBounds(f: Field<int>, lo: int, hi: int) {
    f.Present? ==> lo <= f.value <= hi
  }

  /** A missing field takes its default; an explicit `None` stays `None`. */
  function Resolve(f: Field<int>, default: Option<int>): Option<int> {
    match f
    case Absent => default
    case Null => None
    case Present(v) => Some(v)
  }

  function Failing(name: string, ok: bool): seq<string> {
    if ok then [] else [name]
  }

  /** `PreprocessingRequest`: `chunk_tokens` in [500, 2000] defaulting to
      900, `overlap_tokens` in [0, 500] defaulting to 200, the deprecated
      `chunk_size` in [500, 5000] and `overlap` in [0, 500] defaulting to
      `None`; every failing field is reported. */
  function ValidateRequest(chunkTokens: Field<int>, overlapTokens: Field<int>,
                           chunkSize: Field<int>, overlap: Field<int>): (r: Validated<Request>)
    ensures r.Valid? <==>
      && (chunkTokens.Present? ==> 500 <= chunkTokens.value <= 2000)
      && (overlapTokens.Present? ==> 0 <= overlapTokens.value <= 500)
      && (chunkSize.Present? ==> 500 <= chunkSize.value <= 5000)
      && (overlap.Present? ==> 0 <= overlap.value <= 500)
    ensures r.Valid? ==>
      && (r.value.chunkTokens.Some? ==> 500 <= r.value.chunkTokens.value <= 2000)
      && (r.value.overlapTokens.Some? ==> 0 <= r.value.overlapTokens.value <= 500)
      && (r.value.chunkSize.Some? ==> 500 <= r.value.chunkSize.value <= 5000)
      && (r.value.overlap.Some? ==> 0 <= r.value.overlap.value <= 500)
    ensures r.Valid? && chunkTokens.Absent? ==> r.value.chunkTokens == Some(900)
    ensures r.Valid? && overlapTokens.Absent? ==> r.value.overlapTokens == Some(200)
    ensures r.Valid? ==> r.value.chunkSize == chunkSize.Get() && r.value.overlap == overlap.Get()
    ensures r.Valid? && chunkTokens.Present? ==> r.value.chunkTokens == Some(chunkTokens.value)
    ensures r.Valid? && overlapTokens.Present? ==> r.value.overlapTokens == Some(overlapTokens.value)
    ensures r.Valid? && chunkTokens.Null? ==> r.value.chunkTokens == None
    ensures r.Valid? && overlapTokens.Null? ==> r.value.overlapTokens == None
    ensures r.Invalid? ==> |r.fields| > 0
    ensures r.Invalid? ==>
      && ("chunk_tokens" in r.fields <==> !InBounds(chunkTokens, 500, 2000))
      && ("overlap_tokens" in r.fields <==> !InBounds(overlapTokens, 0, 500))
      && ("chunk_size" in r.fields <==> !InBounds(chunkSize, 500, 5000))
      && ("overlap" in r.fields <==> !InBounds(overlap, 0, 500))
  {
    var fields := Failing("chunk_tokens", InBounds(chunkTokens, 500, 2000))
                  + Failing("overlap_tokens", InBounds(overlapTokens, 0, 500))
                  + Failing("chunk_size", InBounds(chunkSize, 500, 5000))
                  + Failing("overlap", InBounds(overlap, 0, 500));
    if |fields| > 0 then Invalid(fields)
    else Valid(Request(Resolve(chunkTokens, Some(900)), Resolve(overlapTokens, Some(200)),
                       Resolve(chunkSize, None), Resolve(overlap, None)))
  }

  /** A `ContentChunkBase` after validation. */
  datatype ChunkBase = ChunkBase(text: string, chunkIndex: nat, tokenCount: nat)

  /** `ContentChunkBase`: `text` and `chunk_index` are required (and not
      `None`), `chunk_index >= 0`; `token_count` defaults to 0, must not be
      `None` when given, and is `>= 0`. */
  function ValidateChunkBase(text: Field<string>, chunkIndex: Field<int>, tokenCount: Field<int>)
    : (r: Validated<ChunkBase>)
    ensures r.Valid? <==>
      && text.Present?
      && chunkIndex.Present? && chunkIndex.value >= 0
      && (tokenCount.Absent? || (tokenCount.Present? && tokenCount.value >= 0))
    ensures r.Valid? ==>
      && r.value.text == text.value
      && r.value.chunkIndex == chunkIndex.value
      && r.value.tokenCount == (if tokenCount.Present? then tokenCount.value else 0)
    ensures r.Invalid? ==>
      && |r.fields| > 0
      && ("text" in r.fields <==> !text.Present?)
      && ("chunk_index" in r.fields <==> !(chunkIndex.Present? && chunkIndex.value >= 0))
      && ("token_count" in r.fields <==> tokenCount.Null? || (tokenCount.Present? && tokenCount.value < 0))
  {
    var fields := Failing("text", text.Present?)
                  + Failing("chunk_index", chunkIndex.Present? && chunkIndex.value >= 0)
                  + Failing("token_count", tokenCount.Absent? || (tokenCount.Present? && tokenCount.value >= 0));
    if |fields| > 0 then Invalid(fields)
    else Valid(ChunkBase(text.value, chunkIndex.value,
                         if tokenCount.Present? then tokenCount.value else 0))
  }
}
