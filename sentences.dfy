/** Sentence segmentation: a statistical model (foreign) or the regex
    fallback `re.split(r'(?<=[.!?])\s+(?=[A-Z])', text)`, followed by
    stripping every piece and dropping the empty ones. */
module Sentences {
  import opened Text

  predicate IsTerminator(c: char) {
    c == '.' || c == '!' || c == '?'
  }

  /** The regex class `[A-Z]`: ASCII capitals only. */
  predicate IsUpper(c: char) {
    'A' <= c <= 'Z'
  }

  /** End of the run of whitespace that starts at `i` (what a greedy `\s+`
      consumes). */
  function SpaceRunEnd(t: string, i: nat): (r: nat)
    requires i <= |t|
    ensures i <= r <= |t|
    ensures forall j :: i <= j < r ==> IsSpace(t[j])
    ensures r == |t| || !IsSpace(t[r])
    decreases |t| - i
  {
    if i < |t| && IsSpace(t[i]) then SpaceRunEnd(t, i + 1) else i
  }

  /** The pattern `(?<=[.!?])\s+(?=[A-Z])` matches at position `i`: a
      terminator before, whitespace from `i` on, and a capital right after
      the whole whitespace run (a shorter run would be followed by
      whitespace, so backtracking never helps). */
  predicate MatchAt(t: string, i: nat) {
    0 < i < |t| && IsTerminator(t[i - 1]) && IsSpace(t[i])
    && SpaceRunEnd(t, i) < |t| && IsUpper(t[SpaceRunEnd(t, i)])
  }

  /** `re.split` scanning from `pos`: the current piece began at `start`;
      after a match the scan resumes where the match ended. */
  function Pieces(t: string, start: nat, pos: nat): (ps: seq<string>)
    requires start <= pos <= |t|
    ensures |ps| > 0
    decreases |t| - pos
  {
    if pos == |t| then [t[start..]]
    else if MatchAt(t, pos) then [t[start..pos]] + Pieces(t, SpaceRunEnd(t, pos), SpaceRunEnd(t, pos))
    else Pieces(t, start, pos + 1)
  }

  /** The text each match consumed, in the same scan. */
  function Separators(t: string, start: nat, pos: nat): seq<string>
    requires start <= pos <= |t|
    decreases |t| - pos
  {
    if pos == |t| then []
    else if MatchAt(t, pos) then [t[pos..SpaceRunEnd(t, pos)]] + Separators(t, SpaceRunEnd(t, pos), SpaceRunEnd(t, pos))
    else Separators(t, start, pos + 1)
  }

  function RegexSplit(t: string): seq<string> {
    Pieces(t, 0, 0)
  }

  function RegexSeparators(t: string): seq<string> {
    Separators(t, 0, 0)
  }

  /** `ps[0] + ss[0] + ps[1] + ... + ps[n]`. */
  function Weave(ps: seq<string>, ss: seq<string>): string
    requires |ps| == |ss| + 1
    decreases |ss|
  {
    if |ss| == 0 then ps[0] else ps[0] + ss[0] + Weave(ps[1..], ss[1..])
  }

  /** Concatenation of a list of strings. */
  function Concat(xs: seq<string>): string
    decreases |xs|
  {
    if |xs| == 0 then "" else xs[0] + Concat(xs[1..])
  }

  lemma {:induction false} SpaceRunEndSlice(t: string, a: nat, b: nat, i: nat)
    requires a + i <= b <= |t|
    requires b == |t| || SpaceRunEnd(t, a + i) < b
    ensures SpaceRunEnd(t[a..b], i) + a == SpaceRunEnd(t, a + i)
    decreases b - a - i
  {
    if a + i < b && IsSpace(t[a + i]) {
      assert t[a..b][i] == t[a + i];
      SpaceRunEndSlice(t, a, b, i + 1);
    } else if a + i < b {
      assert t[a..b][i] == t[a + i];
    }
  }

  /** Inside a piece that ends the text or ends with a non-whitespace
      character, the pattern matches at the same places as in the text. */
  lemma MatchAtSlice(t: string, a: nat, b: nat, i: nat)
    requires a <= b <= |t| && 0 < i < b - a
    requires b == |t| || !IsSpace(t[b - 1])
    ensures MatchAt(t[a..b], i) <==> MatchAt(t, a + i)
  {
    var p := t[a..b];
    assert p[i - 1] == t[a + i - 1] && p[i] == t[a + i];
    if IsSpace(t[a + i]) {
      var e := SpaceRunEnd(t, a + i);
      SpaceRunEndSlice(t, a, b, i);
      if e < b {
        assert p[e - a] == t[e];
      }
    }
  }

  /** The piece that ends where a match begins. */
  lemma PieceBeforeMatch(t: string, start: nat, pos: nat)
    requires start <= pos < |t| && MatchAt(t, pos)
    requires start == 0 || IsSpace(t[start - 1])
    requires forall q :: start <= q < pos ==> !MatchAt(t, q)
    ensures pos > start
    ensures IsTerminator(t[start..pos][pos - start - 1])
    ensures forall i :: 0 < i < pos - start ==> !MatchAt(t[start..pos], i)
    ensures |t[pos..SpaceRunEnd(t, pos)]| > 0 && IsBlank(t[pos..SpaceRunEnd(t, pos)])
  {
    var j := SpaceRunEnd(t, pos);
    assert IsBlank(t[pos..j]) by {
      forall q | 0 <= q < |t[pos..j]| ensures IsSpace(t[pos..j][q]) { assert t[pos..j][q] == t[pos + q]; }
    }
    forall i | 0 < i < pos - start ensures !MatchAt(t[start..pos], i) {
      MatchAtSlice(t, start, pos, i);
    }
  }

  /** The piece that runs to the end of the text. */
  lemma LastPiece(t: string, start: nat)
    requires start <= |t|
    requires forall q :: start <= q < |t| ==> !MatchAt(t, q)
    ensures forall i :: 0 < i < |t| - start ==> !MatchAt(t[start..], i)
  {
    forall i | 0 < i < |t| - start ensures !MatchAt(t[start..], i) {
      MatchAtSlice(t, start, |t|, i);
    }
  }

  lemma SeparatorsOkCons(p: string, sep: string, ps: seq<string>, ss: seq<string>)
    requires SeparatorsOk(ps, ss)
    requires |sep| > 0 && IsBlank(sep)
    requires |p| > 0 && IsTerminator(p[|p| - 1])
    requires |ps[0]| > 0 && IsUpper(ps[0][0])
    ensures SeparatorsOk([p] + ps, [sep] + ss)
  {
    var ps', ss' := [p] + ps, [sep] + ss;
    forall k | 0 < k < |ps'| ensures |ps'[k]| > 0 && IsUpper(ps'[k][0]) {
      assert ps'[k] == ps[k - 1];
    }
    forall k | 0 <= k < |ss'| ensures |ps'[k]| > 0 && IsTerminator(ps'[k][|ps'[k]| - 1]) {
      if k > 0 { assert ps'[k] == ps[k - 1]; }
    }
    forall k | 0 <= k < |ss'| ensures |ss'[k]| > 0 && IsBlank(ss'[k]) {
      if k > 0 { assert ss'[k] == ss[k - 1]; }
    }
  }

  lemma NoInnerMatchCons(p: string, ps: seq<string>)
    requires forall i :: 0 < i < |p| ==> !MatchAt(p, i)
    requires NoInnerMatch(ps)
    ensures NoInnerMatch([p] + ps)
  {
    var ps' := [p] + ps;
    forall k, i | 0 <= k < |ps'| && 0 < i < |ps'[k]| ensures !MatchAt(ps'[k], i) {
      if k > 0 { assert ps'[k] == ps[k - 1]; }
    }
  }

  /** What `re.split` promises, for the scan from `pos` of a piece that began
      at `start`: woven back with the separators the pieces give the text;
      every separator is a whitespace run after a terminator and before a
      capital; and no piece contains a match. */
  lemma {:induction false} PiecesSpec(t: string, start: nat, pos: nat)
    requires start <= pos <= |t|
    requires start == 0 || IsSpace(t[start - 1])
    requires forall q :: start <= q < pos ==> !MatchAt(t, q)
    ensures |Pieces(t, start, pos)| == |Separators(t, start, pos)| + 1
    ensures Weave(Pieces(t, start, pos), Separators(t, start, pos)) == t[start..]
    ensures start < |t| ==> |Pieces(t, start, pos)[0]| > 0 && Pieces(t, start, pos)[0][0] == t[start]
    ensures SeparatorsOk(Pieces(t, start, pos), Separators(t, start, pos))
    ensures NoInnerMatch(Pieces(t, start, pos))
    decreases |t| - pos
  {
    if pos == |t| {
      LastPiece(t, start);
      assert Pieces(t, start, pos) == [t[start..]];
      assert Separators(t, start, pos) == [];
    } else if MatchAt(t, pos) {
      var j := SpaceRunEnd(t, pos);
      PiecesSpec(t, j, j);
      PiecesAtMatch(t, start, pos);
    } else {
      PiecesSpec(t, start, pos + 1);
    }
  }

  /** The facts `PiecesSpec` states, for the pieces cut from `start` with
      the scan at `pos`. */
  predicate PiecesFacts(t: string, start: nat, pos: nat)
    requires start <= pos <= |t|
  {
    var ps := Pieces(t, start, pos);
    var ss := Separators(t, start, pos);
    && |ps| == |ss| + 1
    && Weave(ps, ss) == t[start..]
    && (start < |t| ==> |ps[0]| > 0 && ps[0][0] == t[start])
    && SeparatorsOk(ps, ss)
    && NoInnerMatch(ps)
  }

  /** A match at `pos` closes the current piece; the rest is cut from the
      end of the whitespace run. */
  lemma PiecesAtMatch(t: string, start: nat, pos: nat)
    requires start <= pos < |t| && MatchAt(t, pos)
    requires start == 0 || IsSpace(t[start - 1])
    requires forall q :: start <= q < pos ==> !MatchAt(t, q)
    requires PiecesFacts(t, SpaceRunEnd(t, pos), SpaceRunEnd(t, pos))
    ensures PiecesFacts(t, start, pos)
  {
    var j := SpaceRunEnd(t, pos);
    var p := t[start..pos];
    var sep := t[pos..j];
    PieceBeforeMatch(t, start, pos);
    var ps' := Pieces(t, j, j);
    var ss' := Separators(t, j, j);
    assert Pieces(t, start, pos) == [p] + ps';
    assert Separators(t, start, pos) == [sep] + ss';
    assert ([p] + ps')[1..] == ps' && ([sep] + ss')[1..] == ss';
    assert t[start..] == p + sep + t[j..];
    SeparatorsOkCons(p, sep, ps', ss');
    NoInnerMatchCons(p, ps');
  }

  /** Every separator is a non-empty whitespace run; the piece before it
      ends with `.`, `!` or `?` and the piece after it starts with a capital. */
  predicate SeparatorsOk(ps: seq<string>, ss: seq<string>) {
    |ps| == |ss| + 1
    && (forall k :: 0 <= k < |ss| ==> |ss[k]| > 0 && IsBlank(ss[k]))
    && (forall k :: 0 <= k < |ss| ==> |ps[k]| > 0 && IsTerminator(ps[k][|ps[k]| - 1]))
    && (forall k :: 0 < k < |ps| ==> |ps[k]| > 0 && IsUpper(ps[k][0]))
  }

  /** No piece contains a position where the pattern would match. */
  predicate NoInnerMatch(ps: seq<string>) {
    forall k, i :: 0 <= k < |ps| && 0 < i < |ps[k]| ==> !MatchAt(ps[k], i)
  }

  /** The regex split of a whole text. */
  lemma RegexSplitSpec(t: string)
    ensures SeparatorsOk(RegexSplit(t), RegexSeparators(t))
    ensures Weave(RegexSplit(t), RegexSeparators(t)) == t
    ensures NoInnerMatch(RegexSplit(t))
  {
    PiecesSpec(t, 0, 0);
  }

  /** The strip-and-filter comprehension `[s.strip() for s in xs if s.strip()]`. */
  function Clean(xs: seq<string>): (r: seq<string>)
    ensures |r| <= |xs|
    ensures forall k :: 0 <= k < |r| ==> |r[k]| > 0 && IsStripped(r[k])
    decreases |xs|
  {
    if |xs| == 0 then []
    else
      StripSpec(xs[0]);
      (if IsBlank(xs[0]) then [] else [Strip(xs[0])]) + Clean(xs[1..])
  }

  /** The sentence splitter tier: spaCy (a foreign model that yields the
      raw text of each sentence) or the regex fallback. */
  datatype Splitter = Spacy(sentences: string -> seq<string>) | Regex

  function SplitterName(sp: Splitter): string {
    match sp
    case Spacy(_) => "spacy"
    case Regex => "regex"
  }

  /** `_segment_sentences`. */
  function SegmentSentences(sp: Splitter, text: string): (r: seq<string>)
    ensures IsBlank(text) ==> r == []
    ensures forall k :: 0 <= k < |r| ==> |r[k]| > 0 && IsStripped(r[k])
  {
    if IsBlank(text) then []
    else match sp
      case Spacy(sentences) => Clean(sentences(text))
      case Regex => Clean(RegexSplit(text))
  }

  lemma NonSpaceFlanked(p: string, m: string, q: string)
    requires IsBlank(p) && IsBlank(q)
    ensures NonSpace(p + m + q) == NonSpace(m)
  {
    assert p + m + q == p + (m + q);
    NonSpaceConcat(p, m + q);
    NonSpaceConcat(m, q);
    NonSpaceBlank(p);
    NonSpaceBlank(q);
  }

  /** Stripping removes whitespace only. */
  lemma NonSpaceStrip(s: string)
    ensures NonSpace(Strip(s)) == NonSpace(s)
  {
    var a := SkipSpace(s, 0);
    var b := TrimEnd(s, a, |s|);
    StripSlice(s);
    assert s == s[..a] + s[a..b] + s[b..];
    NonSpaceFlanked(s[..a], s[a..b], s[b..]);
  }

  lemma {:induction false} NonSpaceClean(xs: seq<string>)
    ensures NonSpace(Concat(Clean(xs))) == NonSpace(Concat(xs))
    decreases |xs|
  {
    if |xs| > 0 {
      NonSpaceClean(xs[1..]);
      var rest := Clean(xs[1..]);
      NonSpaceConcat(xs[0], Concat(xs[1..]));
      if IsBlank(xs[0]) {
        NonSpaceBlank(xs[0]);
        assert Clean(xs) == rest;
      } else {
        assert Clean(xs) == [Strip(xs[0])] + rest;
        assert Clean(xs)[1..] == rest;
        NonSpaceConcat(Strip(xs[0]), Concat(rest));
        NonSpaceStrip(xs[0]);
      }
    }
  }

  lemma {:induction false} NonSpaceWeave(ps: seq<string>, ss: seq<string>)
    requires |ps| == |ss| + 1
    requires forall k :: 0 <= k < |ss| ==> IsBlank(ss[k])
    ensures NonSpace(Weave(ps, ss)) == NonSpace(Concat(ps))
    decreases |ss|
  {
    if |ss| == 0 {
      assert Concat(ps) == ps[0] + Concat(ps[1..]);
      assert ps[1..] == [];
      assert Concat(ps) == ps[0];
    } else {
      NonSpaceWeave(ps[1..], ss[1..]);
      NonSpaceConcat(ps[0] + ss[0], Weave(ps[1..], ss[1..]));
      NonSpaceConcat(ps[0], ss[0]);
      NonSpaceBlank(ss[0]);
      NonSpaceConcat(ps[0], Concat(ps[1..]));
    }
  }

  /** The regex segmenter loses, adds and reorders nothing but whitespace:
      the non-whitespace characters of the sentences, read in order, are
      those of the text. Hence non-blank text has at least one sentence. */
  lemma RegexSegmentKeepsText(text: string)
    ensures NonSpace(Concat(SegmentSentences(Regex, text))) == NonSpace(text)
    ensures !IsBlank(text) ==> |SegmentSentences(Regex, text)| > 0
  {
    if IsBlank(text) {
      NonSpaceBlank(text);
    } else {
      RegexSplitSpec(text);
      NonSpaceClean(RegexSplit(text));
      NonSpaceWeave(RegexSplit(text), RegexSeparators(text));
      NonSpaceBlank(text);
    }
  }
}
