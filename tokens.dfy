/** Token counting with the tokenizer fallback hierarchy
    (tiktoken, then transformers, then whitespace words). */
module Tokens {
  import opened Text
  import opened Wrappers

  /** The resolved tokenizer tier. The two library tiers are foreign
      encoders, given as functions from text to token ids. */
  datatype Tokenizer =
    | Tiktoken(encode: string -> seq<nat>)
    | Transformers(encode: string -> seq<nat>)
    | Whitespace

  /** The `tokenizer_type` tag recorded in every chunk. */
  function TypeName(tok: Tokenizer): string {
    match tok
    case Tiktoken(_) => "tiktoken"
    case Transformers(_) => "transformers"
    case Whitespace => "whitespace"
  }

  /** Tokenizer initialisation: the first tier whose library loads; the
      whitespace tier needs no library, so a tier is always found. */
  function SelectTokenizer(tiktoken: Option<string -> seq<nat>>,
                           transformers: Option<string -> seq<nat>>): (tok: Tokenizer)
    ensures TypeName(tok) == "tiktoken" <==> tiktoken.Some?
    ensures TypeName(tok) == "transformers" <==> tiktoken.None? && transformers.Some?
    ensures TypeName(tok) == "whitespace" <==> tiktoken.None? && transformers.None?
    ensures tiktoken.Some? ==> tok == Tiktoken(tiktoken.value)
    ensures tiktoken.None? && transformers.Some? ==> tok == Transformers(transformers.value)
  {
    match tiktoken
    case Some(e) => Tiktoken(e)
    case None =>
      match transformers
      case Some(e) => Transformers(e)
      case None => Whitespace
  }

  /** `_count_tokens`: zero for blank text, else the number of tokens the
      tier produces; the whitespace tier counts `text.split()`. */
  function CountTokens(tok: Tokenizer, text: string): (n: nat)
  {
    if IsBlank(text) then 0
    else match tok
      case Tiktoken(encode) => |encode(text)|
      case Transformers(encode) => |encode(text)|
      case Whitespace => |Words(text)|
  }

  /** Blank text has no tokens on any tier. */
  lemma BlankNoTokens(tok: Tokenizer, text: string)
    ensures IsBlank(text) ==> CountTokens(tok, text) == 0
  {
  }

  /** Under the whitespace tier, non-blank text has at least one token and a
      single word is exactly one token. */
  lemma WhitespaceCounts(text: string)
    ensures IsBlank(text) <==> CountTokens(Whitespace, text) == 0
    ensures IsWord(text) ==> CountTokens(Whitespace, text) == 1
  {
    if IsWord(text) {
      WordsOfWord(text);
    }
  }

  /** The summed token counts of a list of texts. */
  function TokenSum(tok: Tokenizer, xs: seq<string>): nat
    decreases |xs|
  {
    if |xs| == 0 then 0 else TokenSum(tok, xs[..|xs| - 1]) + CountTokens(tok, xs[|xs| - 1])
  }

  lemma TokenSumSnoc(tok: Tokenizer, xs: seq<string>, x: string)
    ensures TokenSum(tok, xs + [x]) == TokenSum(tok, xs) + CountTokens(tok, x)
  {
    assert (xs + [x])[..|xs|] == xs;
  }

  /** The sum over a list is the sum over any prefix plus the sum over
      the remaining suffix. */
  lemma {:induction false} TokenSumSplit(tok: Tokenizer, xs: seq<string>, k: nat)
    requires k <= |xs|
    ensures TokenSum(tok, xs) == TokenSum(tok, xs[..k]) + TokenSum(tok, xs[k..])
    decreases |xs|
  {
    if k == |xs| {
      assert xs[..k] == xs;
      assert xs[k..] == [];
    } else {
      var n := |xs|;
      var init, tail := xs[..n - 1], xs[k..];
      TokenSumSplit(tok, init, k);
      assert init[..k] == xs[..k];
      assert init[k..] == tail[..|tail| - 1];
      assert tail[|tail| - 1] == xs[n - 1];
      assert TokenSum(tok, tail) == TokenSum(tok, init[k..]) + CountTokens(tok, xs[n - 1]);
    }
  }

  /** Under the whitespace tier the summed count of a list of texts is the
      count of the texts joined by single spaces. */
  lemma {:induction false} WhitespaceSumOfJoin(xs: seq<string>)
    ensures TokenSum(Whitespace, xs) == CountTokens(Whitespace, Join(xs, " "))
    decreases |xs|
  {
    if |xs| > 1 {
      var init := xs[..|xs| - 1];
      WhitespaceSumOfJoin(init);
      assert init + [xs[|xs| - 1]] == xs;
      WordsOfJoin(init, xs[|xs| - 1]);
    }
  }
}
