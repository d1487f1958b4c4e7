/** The token rewriter, `apply_strategy_to_token`: one token's contribution
    to the cleaned text. */
module Rewriter {
  import opened Errors

  /** Strategy names the script recognises. */
  const Del: string := "del"
  const Mask: string := "mask"

  /** What an artifact token becomes under each strategy. A space keeps
      the neighbouring pieces from fusing into a new word. */
  const DelReplacement: string := " "
  const MaskToken: string := "[unused0]"

  predicate KnownStrategy(strategy: string) {
    strategy == Del || strategy == Mask
  }

  /** The artifact test is on the tokenizer's token (a lower-cased,
      possibly `##`-prefixed word piece), not on the substring of the text
      it covers; `original` is what is kept when the token is not an
      artifact. */
  function ApplyStrategy(token: string, original: string, artifacts: seq<string>, strategy: string): (r: Result<string>)
    ensures token !in artifacts ==> r == Ok(original)
    ensures token in artifacts && strategy == Del ==> r == Ok(DelReplacement)
    ensures token in artifacts && strategy == Mask ==> r == Ok(MaskToken)
    ensures r.Err? <==> token in artifacts && !KnownStrategy(strategy)
    ensures r.Err? ==> r.error == StrategyDoesNotExist(strategy)
  {
    if token in artifacts then
      if strategy == Del then Ok(DelReplacement)
      else if strategy == Mask then Ok(MaskToken)
      else Err(StrategyDoesNotExist(strategy))
    else Ok(original)
  }

  /** A non-artifact token is kept whatever the strategy, even one that
      does not exist. */
  lemma KeptUnderAnyStrategy(token: string, original: string, artifacts: seq<string>, s1: string, s2: string)
    requires token !in artifacts
    ensures ApplyStrategy(token, original, artifacts, s1) == ApplyStrategy(token, original, artifacts, s2)
  {
  }

  /** An artifact token's replacement does not depend on the text it covers. */
  lemma ReplacementIgnoresText(token: string, o1: string, o2: string, artifacts: seq<string>, strategy: string)
    requires token in artifacts
    ensures ApplyStrategy(token, o1, artifacts, strategy) == ApplyStrategy(token, o2, artifacts, strategy)
  {
  }

  /** A successful rewrite yields the original substring or one of the two
      replacements, and changes the text only for an artifact token. */
  lemma RewriteOutputs(token: string, original: string, artifacts: seq<string>, strategy: string)
    requires ApplyStrategy(token, original, artifacts, strategy).Ok?
    ensures var v := ApplyStrategy(token, original, artifacts, strategy).value;
      v == original || v == DelReplacement || v == MaskToken
    ensures ApplyStrategy(token, original, artifacts, strategy).value != original ==> token in artifacts
  {
  }
}
