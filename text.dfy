/** Python string primitives used by the chunker: `str.isspace`, `strip`,
    `split()` (no argument) and `sep.join`. */
module Text {

  /** Python's `str.isspace` (and the regex class `\s` on `str` patterns). */
  predicate IsSpace(c: char) {
    var n := c as int;
    (9 <= n <= 13) || (28 <= n <= 32) || n == 0x85 || n == 0xA0 || n == 0x1680
    || (0x2000 <= n <= 0x200A) || n == 0x2028 || n == 0x2029 || n == 0x202F
    || n == 0x205F || n == 0x3000
  }

  /** `not s.strip()`: the string is empty or holds only whitespace. */
  predicate IsBlank(s: string) {
    forall i :: 0 <= i < |s| ==> IsSpace(s[i])
  }

  /** A non-empty string without whitespace: what `split()` yields. */
  predicate IsWord(w: string) {
    |w| > 0 && forall i :: 0 <= i < |w| ==> !IsSpace(w[i])
  }

  /** Neither end of the string is whitespace. */
  predicate IsStripped(s: string) {
    |s| == 0 || (!IsSpace(s[0]) && !IsSpace(s[|s| - 1]))
  }

  /** The first position at or after `i` that is not whitespace
      (`|s|` when there is none). */
  function SkipSpace(s: string, i: nat): (k: nat)
    requires i <= |s|
    ensures i <= k <= |s|
    ensures forall j :: i <= j < k ==> IsSpace(s[j])
    ensures k == |s| || !IsSpace(s[k])
    decreases |s| - i
  {
    if i == |s| || !IsSpace(s[i]) then i else SkipSpace(s, i + 1)
  }

  /** The end of `s[a..b]` once its trailing whitespace is cut. */
  function TrimEnd(s: string, a: nat, b: nat): (k: nat)
    requires a <= b <= |s|
    ensures a <= k <= b
    ensures forall j :: k <= j < b ==> IsSpace(s[j])
    ensures k == a || !IsSpace(s[k - 1])
    decreases b
  {
    if b == a || !IsSpace(s[b - 1]) then b else TrimEnd(s, a, b - 1)
  }

  /** `s.strip()`: what lies between the leading and the trailing run of
      whitespace. */
  function Strip(s: string): string {
    var a := SkipSpace(s, 0);
    s[a..TrimEnd(s, a, |s|)]
  }

  lemma BlankBetween(s: string, i: nat, k: nat)
    requires i <= k <= |s|
    requires forall j :: i <= j < k ==> IsSpace(s[j])
    ensures IsBlank(s[i..k])
  {
    forall j | 0 <= j < k - i ensures IsSpace(s[i..k][j]) {
      assert s[i..k][j] == s[i + j];
    }
  }

  /** Where the stripped string sits inside `s`: only whitespace lies
      before and after it. */
  lemma StripSlice(s: string)
    ensures var a := SkipSpace(s, 0);
            var b := TrimEnd(s, a, |s|);
            Strip(s) == s[a..b] && IsBlank(s[..a]) && IsBlank(s[b..])
  {
    var a := SkipSpace(s, 0);
    var b := TrimEnd(s, a, |s|);
    BlankBetween(s, 0, a);
    BlankBetween(s, b, |s|);
    assert s[0..a] == s[..a] && s[b..|s|] == s[b..];
  }

  /** The stripped string is what remains of `s` once whitespace is cut
      from both ends: it is empty exactly when `s` is blank, and it is
      itself stripped. */
  lemma StripSpec(s: string)
    ensures IsStripped(Strip(s))
    ensures Strip(s) == [] <==> IsBlank(s)
    ensures exists a, b :: 0 <= a <= b <= |s| && Strip(s) == s[a..b]
                           && IsBlank(s[..a]) && IsBlank(s[b..])
  {
    var a := SkipSpace(s, 0);
    var b := TrimEnd(s, a, |s|);
    StripSlice(s);
    var r := s[a..b];
    if a < b {
      assert r[0] == s[a] && r[|r| - 1] == s[b - 1];
      assert !IsBlank(s);
    }
  }

  /** The characters of `s` that are not whitespace, in order. */
  function NonSpace(s: string): string
    decreases |s|
  {
    if |s| == 0 then ""
    else (if IsSpace(s[0]) then "" else [s[0]]) + NonSpace(s[1..])
  }

  lemma {:induction false} NonSpaceConcat(a: string, b: string)
    ensures NonSpace(a + b) == NonSpace(a) + NonSpace(b)
    decreases |a|
  {
    if |a| == 0 {
      assert a + b == b;
    } else {
      assert (a + b)[1..] == a[1..] + b;
      NonSpaceConcat(a[1..], b);
    }
  }

  lemma {:induction false} NonSpaceBlank(s: string)
    ensures NonSpace(s) == "" <==> IsBlank(s)
    decreases |s|
  {
    if |s| > 0 {
      NonSpaceBlank(s[1..]);
      if IsBlank(s) {
        assert IsBlank(s[1..]) by {
          forall i | 0 <= i < |s[1..]| ensures IsSpace(s[1..][i]) { assert s[1..][i] == s[i + 1]; }
        }
      } else if IsSpace(s[0]) {
        var i :| 0 <= i < |s| && !IsSpace(s[i]);
        assert !IsSpace(s[1..][i - 1]);
      }
    }
  }

  /** End of the run of non-whitespace characters that starts at `i`. */
  function WordEnd(s: string, i: nat): (r: nat)
    requires i <= |s|
    ensures i <= r <= |s|
    ensures forall j :: i <= j < r ==> !IsSpace(s[j])
    ensures r == |s| || IsSpace(s[r])
    decreases |s| - i
  {
    if i == |s| || IsSpace(s[i]) then i else WordEnd(s, i + 1)
  }

  /** `s.split()`: the maximal runs of non-whitespace characters, in order. */
  function Words(s: string): (ws: seq<string>)
    ensures forall k :: 0 <= k < |ws| ==> IsWord(ws[k])
    ensures ws == [] <==> IsBlank(s)
    decreases |s|
  {
    if |s| == 0 then []
    else if IsSpace(s[0]) then
      var r := Words(s[1..]);
      assert IsBlank(s[1..]) ==> IsBlank(s) by {
        if IsBlank(s[1..]) {
          forall i | 0 <= i < |s| ensures IsSpace(s[i]) { if i > 0 { assert s[1..][i - 1] == s[i]; } }
        }
      }
      assert IsBlank(s) ==> IsBlank(s[1..]) by {
        if IsBlank(s) {
          forall i | 0 <= i < |s[1..]| ensures IsSpace(s[1..][i]) { assert s[1..][i] == s[i + 1]; }
        }
      }
      r
    else
      var k := WordEnd(s, 0);
      assert IsWord(s[..k]) by {
        forall j | 0 <= j < k ensures !IsSpace(s[..k][j]) { assert s[..k][j] == s[j]; }
      }
      [s[..k]] + Words(s[k..])
  }

  /** Removing leading whitespace does not change the words. */
  lemma {:induction false} WordsSkipSpaces(sp: string, s: string)
    requires IsBlank(sp)
    ensures Words(sp + s) == Words(s)
    decreases |sp|
  {
    if |sp| > 0 {
      assert (sp + s)[1..] == sp[1..] + s;
      assert IsBlank(sp[1..]) by {
        forall i | 0 <= i < |sp[1..]| ensures IsSpace(sp[1..][i]) { assert sp[1..][i] == sp[i + 1]; }
      }
      WordsSkipSpaces(sp[1..], s);
    } else {
      assert sp + s == s;
    }
  }

  lemma {:induction false} WordEndConcat(a: string, b: string, i: nat)
    requires i <= |a|
    requires b == [] || IsSpace(b[0])
    ensures WordEnd(a + b, i) == WordEnd(a, i)
    decreases |a| - i
  {
    if i < |a| && !IsSpace(a[i]) {
      WordEndConcat(a, b, i + 1);
    }
  }

  /** A run of whitespace splits the words of the two sides apart:
      `(a + sep + b).split() == a.split() + b.split()`. */
  lemma {:induction false} WordsConcatSpace(a: string, sep: string, b: string)
    requires |sep| > 0 && IsBlank(sep)
    ensures Words(a + sep + b) == Words(a) + Words(b)
    decreases |a|
  {
    var s := a + sep + b;
    if |a| == 0 {
      assert s == sep + b;
      WordsSkipSpaces(sep, b);
    } else if IsSpace(a[0]) {
      assert s[1..] == a[1..] + sep + b;
      WordsConcatSpace(a[1..], sep, b);
    } else {
      assert IsSpace((sep + b)[0]);
      assert s == a + (sep + b);
      WordEndConcat(a, sep + b, 0);
      var k := WordEnd(a, 0);
      assert s[..k] == a[..k];
      assert s[k..] == a[k..] + sep + b;
      WordsConcatSpace(a[k..], sep, b);
    }
  }

  /** A word splits into itself. */
  lemma WordsOfWord(w: string)
    requires IsWord(w)
    ensures Words(w) == [w]
  {
    assert WordEnd(w, 0) == |w|;
    assert w[..|w|] == w;
    assert w[|w|..] == [];
  }

  /** `"".join(ws)`. */
  function Concat(ws: seq<string>): string
    decreases |ws|
  {
    if |ws| == 0 then "" else ws[0] + Concat(ws[1..])
  }

  /** Text without whitespace keeps every character. */
  lemma {:induction false} NonSpaceOfWord(w: string)
    requires forall i :: 0 <= i < |w| ==> !IsSpace(w[i])
    ensures NonSpace(w) == w
    decreases |w|
  {
    if |w| > 0 {
      NonSpaceOfWord(w[1..]);
      assert w == [w[0]] + w[1..];
    }
  }

  /** The words of `s` are its non-whitespace characters, in order and
      none left out: put back together they give `NonSpace(s)`. */
  lemma {:induction false} WordsCover(s: string)
    ensures Concat(Words(s)) == NonSpace(s)
    decreases |s|
  {
    if |s| > 0 {
      if IsSpace(s[0]) {
        WordsCover(s[1..]);
      } else {
        var k := WordEnd(s, 0);
        var w := s[..k];
        assert s == w + s[k..];
        WordsCover(s[k..]);
        assert ([w] + Words(s[k..]))[1..] == Words(s[k..]);
        NonSpaceConcat(w, s[k..]);
        NonSpaceOfWord(w);
      }
    }
  }

  /** `sep.join(xs)`. */
  function Join(xs: seq<string>, sep: string): string
    decreases |xs|
  {
    if |xs| == 0 then ""
    else if |xs| == 1 then xs[0]
    else Join(xs[..|xs| - 1], sep) + sep + xs[|xs| - 1]
  }

  lemma JoinSnoc(xs: seq<string>, y: string, sep: string)
    requires |xs| > 0
    ensures Join(xs + [y], sep) == Join(xs, sep) + sep + y
  {
    assert (xs + [y])[..|xs|] == xs;
  }

  /** A join whose last part is not blank is not blank. */
  lemma JoinLastNonBlank(xs: seq<string>, sep: string)
    requires |xs| > 0 && !IsBlank(xs[|xs| - 1])
    ensures !IsBlank(Join(xs, sep))
  {
    var y := xs[|xs| - 1];
    var j :| 0 <= j < |y| && !IsSpace(y[j]);
    var s := Join(xs, sep);
    if |xs| > 1 {
      var init := xs[..|xs| - 1];
      assert init + [y] == xs;
      JoinSnoc(init, y, sep);
    }
    assert s[|s| - |y| + j] == y[j];
  }

  lemma {:induction false} JoinCons(x: string, ys: seq<string>, sep: string)
    requires |ys| > 0
    ensures Join([x] + ys, sep) == x + sep + Join(ys, sep)
    decreases |ys|
  {
    if |ys| == 1 {
      assert [x] + ys == [x] + [ys[0]];
      JoinSnoc([x], ys[0], sep);
    } else {
      var init := ys[..|ys| - 1];
      assert [x] + ys == ([x] + init) + [ys[|ys| - 1]];
      JoinSnoc([x] + init, ys[|ys| - 1], sep);
      JoinCons(x, init, sep);
      JoinSnoc(init, ys[|ys| - 1], sep);
      assert ys == init + [ys[|ys| - 1]];
    }
  }

  /** Replacing the last element `a` by `a + sep + b` extends the join by `sep + b`. */
  lemma JoinExtendLast(xs: seq<string>, a: string, b: string, sep: string)
    ensures Join(xs + [a + sep + b], sep) == Join(xs + [a], sep) + sep + b
  {
    if |xs| == 0 {
      assert xs + [a + sep + b] == [a + sep + b];
      assert xs + [a] == [a];
    } else {
      JoinSnoc(xs, a + sep + b, sep);
      JoinSnoc(xs, a, sep);
    }
  }

  /** A suffix of a list joins to a string no longer than the whole list's. */
  lemma {:induction false} JoinSuffixShorter(xs: seq<string>, k: nat, sep: string)
    requires k <= |xs|
    ensures |Join(xs[k..], sep)| <= |Join(xs, sep)|
    decreases |xs|
  {
    if k < |xs| && |xs| >= 2 {
      var n := |xs|;
      if k == n - 1 {
        assert xs[k..] == [xs[n - 1]];
      } else {
        assert xs[k..][..n - k - 1] == xs[..n - 1][k..];
        JoinSuffixShorter(xs[..n - 1], k, sep);
      }
    } else if k < |xs| {
      assert xs[k..] == xs;
    }
  }

  /** The words of a space-joined list are the words of its members. */
  lemma WordsOfJoin(xs: seq<string>, y: string)
    requires |xs| > 0
    ensures Words(Join(xs + [y], " ")) == Words(Join(xs, " ")) + Words(y)
  {
    JoinSnoc(xs, y, " ");
    WordsConcatSpace(Join(xs, " "), " ", y);
  }

  /** Joining words with single spaces and splitting again gives the words back. */
  lemma {:induction false} WordsJoinWords(ws: seq<string>)
    requires forall k :: 0 <= k < |ws| ==> IsWord(ws[k])
    ensures Words(Join(ws, " ")) == ws
    decreases |ws|
  {
    if |ws| == 1 {
      WordsOfWord(ws[0]);
    } else if |ws| > 1 {
      var init := ws[..|ws| - 1];
      WordsJoinWords(init);
      JoinSnoc(init, ws[|ws| - 1], " ");
      assert init + [ws[|ws| - 1]] == ws;
      WordsConcatSpace(Join(init, " "), " ", ws[|ws| - 1]);
      WordsOfWord(ws[|ws| - 1]);
    }
  }

  /** Joining two non-empty lists is joining each and putting `sep` between. */
  lemma {:induction false} JoinAppend(xs: seq<string>, ys: seq<string>, sep: string)
    requires |xs| > 0 && |ys| > 0
    ensures Join(xs + ys, sep) == Join(xs, sep) + sep + Join(ys, sep)
    decreases |ys|
  {
    var n := |ys|;
    if n == 1 {
      assert xs + ys == xs + [ys[0]];
      JoinSnoc(xs, ys[0], sep);
    } else {
      var init := ys[..n - 1];
      assert xs + ys == (xs + init) + [ys[n - 1]];
      JoinSnoc(xs + init, ys[n - 1], sep);
      JoinAppend(xs, init, sep);
      assert ys == init + [ys[n - 1]];
      JoinSnoc(init, ys[n - 1], sep);
    }
  }
}
