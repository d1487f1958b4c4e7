/** The offset-aligned reconstruction in `create_data_variant`: the cleaned
    text of one record is the rewrite of token 0 followed, for every later
    token, by as many spaces as the tokenizer's offsets leave between it and
    the previous token, and then its rewrite. */
module Aligner {
  import opened Errors
  import opened Python
  import opened Rewriter

  /** A tokenizer offset pair `(start, end)`: the token covers
      `text[start:end]`. */
  type Span = (int, int)

  /** The rewrite of token `i` over the text its span covers. */
  function Piece(text: string, tokens: seq<string>, offsets: seq<Span>, artifacts: seq<string>, strategy: string, i: nat): (r: Result<string>)
    requires i < |tokens| && i < |offsets|
  {
    ApplyStrategy(tokens[i], PySlice(text, offsets[i].0, offsets[i].1), artifacts, strategy)
  }

  /** `num_prev_spaces` before token `i`; negative when spans overlap. */
  function Gap(offsets: seq<Span>, i: nat): (r: int)
    requires 1 <= i < |offsets|
  {
    offsets[i].0 - offsets[i - 1].1
  }

  /** The accumulator `text_cleaned` once the first `k` tokens are done, or
      the error met on the way there. Reading `offsets[i]` for `i` past the
      end is Python's `IndexError`. */
  function CleanPrefix(text: string, tokens: seq<string>, offsets: seq<Span>, artifacts: seq<string>, strategy: string, k: nat): (r: Result<string>)
    requires 1 <= k <= |tokens|
  {
    if k == 1 then
      if |offsets| == 0 then Err(IndexError)
      else Piece(text, tokens, offsets, artifacts, strategy, 0)
    else
      match CleanPrefix(text, tokens, offsets, artifacts, strategy, k - 1)
      case Err(e) => Err(e)
      case Ok(acc) =>
        if |offsets| < k then Err(IndexError)
        else
          match Piece(text, tokens, offsets, artifacts, strategy, k - 1)
          case Err(e) => Err(e)
          case Ok(p) => Ok(acc + Spaces(Gap(offsets, k - 1)) + p)
  }

  /** The cleaned text of a record; an empty token list fails on
      `curr_tokens[0]`. `CleanTextOutcome` says which records are cleaned
      and how the others fail. */
  function CleanText(text: string, tokens: seq<string>, offsets: seq<Span>, artifacts: seq<string>, strategy: string): (r: Result<string>)
  {
    if |tokens| == 0 then Err(IndexError)
    else
      CleanPrefix(text, tokens, offsets, artifacts, strategy, |tokens|)
  }

  /** The loop of `create_data_variant` that builds `text_cleaned`. */
  method CleanLine(text: string, tokens: seq<string>, offsets: seq<Span>, artifacts: seq<string>, strategy: string)
    returns (r: Result<string>)
    ensures r == CleanText(text, tokens, offsets, artifacts, strategy)
  {
    if |tokens| == 0 {
      return Err(IndexError);
    }
    if |offsets| == 0 {
      ErrorPersists(text, tokens, offsets, artifacts, strategy, 1, |tokens|);
      return Err(IndexError);
    }
    var first := ApplyStrategy(tokens[0], PySlice(text, offsets[0].0, offsets[0].1), artifacts, strategy);
    if first.Err? {
      ErrorPersists(text, tokens, offsets, artifacts, strategy, 1, |tokens|);
      return first;
    }
    var textCleaned := first.value;
    for i := 1 to |tokens|
      invariant CleanPrefix(text, tokens, offsets, artifacts, strategy, i) == Ok(textCleaned)
    {
      if i >= |offsets| {
        ErrorPersists(text, tokens, offsets, artifacts, strategy, i + 1, |tokens|);
        return Err(IndexError);
      }
      var numPrevSpaces := offsets[i].0 - offsets[i - 1].1;
      var piece := ApplyStrategy(tokens[i], PySlice(text, offsets[i].0, offsets[i].1), artifacts, strategy);
      if piece.Err? {
        ErrorPersists(text, tokens, offsets, artifacts, strategy, i + 1, |tokens|);
        return Err(piece.error);
      }
      textCleaned := textCleaned + Spaces(numPrevSpaces) + piece.value;
    }
    return Ok(textCleaned);
  }

  /** Once the accumulator has failed, every later one fails the same way. */
  lemma {:induction false} ErrorPersists(text: string, tokens: seq<string>, offsets: seq<Span>, artifacts: seq<string>, strategy: string, k: nat, m: nat)
    requires 1 <= k <= m <= |tokens|
    requires CleanPrefix(text, tokens, offsets, artifacts, strategy, k).Err?
    ensures CleanPrefix(text, tokens, offsets, artifacts, strategy, m) == CleanPrefix(text, tokens, offsets, artifacts, strategy, k)
    decreases m - k
  {
    if k < m {
      ErrorPersists(text, tokens, offsets, artifacts, strategy, k, m - 1);
    }
  }

  // ----- Which records fail, and how -----

  /** Token `j` is an artifact and the strategy is neither "del" nor "mask". */
  predicate StrategyFailsAt(tokens: seq<string>, artifacts: seq<string>, strategy: string, j: nat)
    requires j < |tokens|
  {
    tokens[j] in artifacts && !KnownStrategy(strategy)
  }

  /** Some token among the first `k` that have an offset pair makes the
      strategy fail. */
  predicate FailsBefore(tokens: seq<string>, offsets: seq<Span>, artifacts: seq<string>, strategy: string, k: nat)
    requires k <= |tokens|
  {
    exists j :: 0 <= j < k && j < |offsets| && StrategyFailsAt(tokens, artifacts, strategy, j)
  }

  predicate NoArtifacts(tokens: seq<string>, artifacts: seq<string>)
  {
    forall i :: 0 <= i < |tokens| ==> tokens[i] !in artifacts
  }

  /** The outcome of the first `k` steps: a strategy failure as soon as an
      artifact token with an offset pair is met, otherwise an `IndexError`
      when the offsets run out, otherwise a cleaned prefix. A strategy
      failure always comes first, since it needs the offset pair the
      `IndexError` lacks. */
  lemma {:induction false} CleanPrefixOutcome(text: string, tokens: seq<string>, offsets: seq<Span>, artifacts: seq<string>, strategy: string, k: nat)
    requires 1 <= k <= |tokens|
    ensures FailsBefore(tokens, offsets, artifacts, strategy, k) ==>
      CleanPrefix(text, tokens, offsets, artifacts, strategy, k) == Err(StrategyDoesNotExist(strategy))
    ensures !FailsBefore(tokens, offsets, artifacts, strategy, k) && |offsets| < k ==>
      CleanPrefix(text, tokens, offsets, artifacts, strategy, k) == Err(IndexError)
    ensures !FailsBefore(tokens, offsets, artifacts, strategy, k) && k <= |offsets| ==>
      CleanPrefix(text, tokens, offsets, artifacts, strategy, k).Ok?
  {
    if k == 1 {
      if |offsets| > 0 {
        if StrategyFailsAt(tokens, artifacts, strategy, 0) {
          assert FailsBefore(tokens, offsets, artifacts, strategy, 1);
        }
      }
    } else {
      CleanPrefixOutcome(text, tokens, offsets, artifacts, strategy, k - 1);
      if FailsBefore(tokens, offsets, artifacts, strategy, k - 1) {
        var j :| 0 <= j < k - 1 && j < |offsets| && StrategyFailsAt(tokens, artifacts, strategy, j);
        assert FailsBefore(tokens, offsets, artifacts, strategy, k);
      } else if |offsets| >= k && StrategyFailsAt(tokens, artifacts, strategy, k - 1) {
        assert FailsBefore(tokens, offsets, artifacts, strategy, k);
      } else {
        assert !FailsBefore(tokens, offsets, artifacts, strategy, k);
      }
    }
  }

  /** A record is cleaned exactly when there is a token, every token has an
      offset pair, and the strategy exists or no token is an artifact; it
      stops on the strategy exactly when the strategy does not exist and an
      artifact token with an offset pair is met; every other failure is an
      `IndexError`. */
  lemma CleanTextOutcome(text: string, tokens: seq<string>, offsets: seq<Span>, artifacts: seq<string>, strategy: string)
    ensures CleanText(text, tokens, offsets, artifacts, strategy).Ok? <==>
      1 <= |tokens| <= |offsets| && (KnownStrategy(strategy) || NoArtifacts(tokens, artifacts))
    ensures CleanText(text, tokens, offsets, artifacts, strategy) == Err(StrategyDoesNotExist(strategy)) <==>
      !KnownStrategy(strategy) && exists j :: 0 <= j < |tokens| && j < |offsets| && tokens[j] in artifacts
    ensures CleanText(text, tokens, offsets, artifacts, strategy).Err? ==>
      CleanText(text, tokens, offsets, artifacts, strategy).error in {IndexError, StrategyDoesNotExist(strategy)}
  {
    if |tokens| > 0 {
      CleanPrefixOutcome(text, tokens, offsets, artifacts, strategy, |tokens|);
      if !KnownStrategy(strategy) && !NoArtifacts(tokens, artifacts) && |tokens| <= |offsets| {
        var j :| 0 <= j < |tokens| && tokens[j] in artifacts;
        assert StrategyFailsAt(tokens, artifacts, strategy, j);
      }
      if !KnownStrategy(strategy) && (exists j :: 0 <= j < |tokens| && j < |offsets| && tokens[j] in artifacts) {
        var j :| 0 <= j < |tokens| && j < |offsets| && tokens[j] in artifacts;
        assert StrategyFailsAt(tokens, artifacts, strategy, j);
      }
    }
  }

  /** With no artifact token the strategy string is never looked at: every
      strategy, existing or not, gives the same outcome. */
  lemma {:induction false} StrategyIrrelevantWithoutArtifacts(text: string, tokens: seq<string>, offsets: seq<Span>, artifacts: seq<string>, s1: string, s2: string)
    requires NoArtifacts(tokens, artifacts)
    ensures CleanText(text, tokens, offsets, artifacts, s1) == CleanText(text, tokens, offsets, artifacts, s2)
  {
    if |tokens| > 0 {
      PrefixStrategyIrrelevant(text, tokens, offsets, artifacts, s1, s2, |tokens|);
    }
  }

  lemma {:induction false} PrefixStrategyIrrelevant(text: string, tokens: seq<string>, offsets: seq<Span>, artifacts: seq<string>, s1: string, s2: string, k: nat)
    requires NoArtifacts(tokens, artifacts)
    requires 1 <= k <= |tokens|
    ensures CleanPrefix(text, tokens, offsets, artifacts, s1, k) == CleanPrefix(text, tokens, offsets, artifacts, s2, k)
  {
    if k > 1 {
      PrefixStrategyIrrelevant(text, tokens, offsets, artifacts, s1, s2, k - 1);
    }
  }

  /** Offset pairs beyond the last token are never read: nothing checks
      that there are exactly as many pairs as tokens. */
  lemma ExtraOffsetsIgnored(text: string, tokens: seq<string>, offsets: seq<Span>, extra: seq<Span>, artifacts: seq<string>, strategy: string)
    requires |tokens| <= |offsets|
    ensures CleanText(text, tokens, offsets + extra, artifacts, strategy) == CleanText(text, tokens, offsets, artifacts, strategy)
  {
    if |tokens| > 0 {
      PrefixExtraOffsets(text, tokens, offsets, extra, artifacts, strategy, |tokens|);
    }
  }

  lemma {:induction false} PrefixExtraOffsets(text: string, tokens: seq<string>, offsets: seq<Span>, extra: seq<Span>, artifacts: seq<string>, strategy: string, k: nat)
    requires 1 <= k <= |tokens| <= |offsets|
    ensures CleanPrefix(text, tokens, offsets + extra, artifacts, strategy, k) == CleanPrefix(text, tokens, offsets, artifacts, strategy, k)
  {
    var all := offsets + extra;
    assert all[k - 1] == offsets[k - 1];
    if k > 1 {
      PrefixExtraOffsets(text, tokens, offsets, extra, artifacts, strategy, k - 1);
      assert all[k - 2] == offsets[k - 2];
    }
  }

  /** Cleaning introduces no character that is neither in the text nor a
      space nor part of the mask token. */
  lemma {:induction false} CleanTextChars(text: string, tokens: seq<string>, offsets: seq<Span>, artifacts: seq<string>, strategy: string)
    requires CleanText(text, tokens, offsets, artifacts, strategy).Ok?
    ensures forall c :: c in CleanText(text, tokens, offsets, artifacts, strategy).value ==>
      c in text || c == ' ' || c in MaskToken
  {
    PrefixChars(text, tokens, offsets, artifacts, strategy, |tokens|);
  }

  lemma {:induction false} PrefixChars(text: string, tokens: seq<string>, offsets: seq<Span>, artifacts: seq<string>, strategy: string, k: nat)
    requires 1 <= k <= |tokens|
    requires CleanPrefix(text, tokens, offsets, artifacts, strategy, k).Ok?
    ensures forall c :: c in CleanPrefix(text, tokens, offsets, artifacts, strategy, k).value ==>
      c in text || c == ' ' || c in MaskToken
  {
    if k > 1 {
      PrefixChars(text, tokens, offsets, artifacts, strategy, k - 1);
      var acc := CleanPrefix(text, tokens, offsets, artifacts, strategy, k - 1).value;
      var p := Piece(text, tokens, offsets, artifacts, strategy, k - 1).value;
      var g := Spaces(Gap(offsets, k - 1));
      forall c | c in acc + g + p
        ensures c in text || c == ' ' || c in MaskToken
      {
        if c in g {
          var x :| 0 <= x < |g| && g[x] == c;
        }
      }
    }
  }

  // ----- Layout when spans are ordered and nothing is rewritten -----

  /** The first `n` spans lie inside the text, each is well formed, and
      each starts no earlier than the previous one ends. */
  predicate OrderedSpans(text: string, offsets: seq<Span>, n: nat)
  {
    1 <= n <= |offsets| &&
    0 <= offsets[0].0 &&
    (forall i :: 0 <= i < n ==> offsets[i].0 <= offsets[i].1) &&
    (forall i :: 1 <= i < n ==> offsets[i - 1].1 <= offsets[i].0) &&
    offsets[n - 1].1 <= |text|
  }

  /** An earlier span ends no later than a later span starts. */
  lemma {:induction false} SpanBefore(text: string, offsets: seq<Span>, n: nat, i: nat, j: nat)
    requires OrderedSpans(text, offsets, n)
    requires i < j < n
    ensures offsets[i].1 <= offsets[j].0
    decreases j - i
  {
    if i + 1 < j {
      SpanBefore(text, offsets, n, i, j - 1);
    }
  }

  /** Every one of the first `n` spans lies inside the text. */
  lemma SpanInText(text: string, offsets: seq<Span>, n: nat, i: nat)
    requires OrderedSpans(text, offsets, n)
    requires i < n
    ensures 0 <= offsets[i].0 <= offsets[i].1 <= |text|
    ensures offsets[0].0 <= offsets[i].0
  {
    if 0 < i {
      SpanBefore(text, offsets, n, 0, i);
    }
    if i < n - 1 {
      SpanBefore(text, offsets, n, i, n - 1);
    }
  }

  /** Position `p` lies in one of the first `n` spans. */
  ghost predicate Covered(offsets: seq<Span>, n: nat, p: int)
    requires n <= |offsets|
  {
    exists i :: 0 <= i < n && offsets[i].0 <= p < offsets[i].1
  }

  /** The reference layout: `text[lo:hi]` with every position outside the
      first `n` spans turned into a space. */
  ghost function Blanked(text: string, offsets: seq<Span>, n: nat, lo: int, hi: int): (r: string)
    requires n <= |offsets| && 0 <= lo <= hi <= |text|
    ensures |r| == hi - lo
  {
    seq(hi - lo, j requires 0 <= j < hi - lo => if Covered(offsets, n, lo + j) then text[lo + j] else ' ')
  }

  /** Adding span `k` leaves the layout up to the end of span `k - 1` as it
      was, fills the gap with spaces and copies span `k`. */
  lemma BlankedStep(text: string, offsets: seq<Span>, n: nat, k: nat)
    requires OrderedSpans(text, offsets, n)
    requires 1 <= k < n
    ensures 0 <= offsets[0].0 <= offsets[k - 1].1 <= offsets[k].0 <= offsets[k].1 <= |text|
    ensures Blanked(text, offsets, k + 1, offsets[0].0, offsets[k].1) ==
      Blanked(text, offsets, k, offsets[0].0, offsets[k - 1].1) + Spaces(offsets[k].0 - offsets[k - 1].1) + text[offsets[k].0..offsets[k].1]
  {
    SpanInText(text, offsets, n, k - 1);
    SpanInText(text, offsets, n, k);
    var lo, e, s, e' := offsets[0].0, offsets[k - 1].1, offsets[k].0, offsets[k].1;
    var before := Blanked(text, offsets, k, lo, e);
    var gap := Spaces(s - e);
    var after := Blanked(text, offsets, k + 1, lo, e');
    var rhs := before + gap + text[s..e'];
    assert |after| == |rhs|;
    forall i | 0 <= i < k
      ensures offsets[i].1 <= e
    {
      if i < k - 1 {
        SpanBefore(text, offsets, n, i, k - 1);
      }
    }
    forall j | 0 <= j < |after|
      ensures after[j] == rhs[j]
    {
      var p := lo + j;
      if p < e {
        if Covered(offsets, k + 1, p) {
          var i :| 0 <= i < k + 1 && offsets[i].0 <= p < offsets[i].1;
          assert i < k;
          assert Covered(offsets, k, p);
        }
        if Covered(offsets, k, p) {
          var i :| 0 <= i < k && offsets[i].0 <= p < offsets[i].1;
          assert Covered(offsets, k + 1, p);
        }
        assert rhs[j] == before[j];
      } else if p < s {
        assert !Covered(offsets, k + 1, p);
        assert rhs[j] == gap[p - e];
      } else {
        assert Covered(offsets, k + 1, p);
        assert rhs[j] == text[s..e'][p - s];
      }
    }
  }

  /** With ordered spans and no artifact token, the first `k` steps give the
      reference layout from the start of span 0 to the end of span `k - 1`. */
  lemma {:induction false} PrefixIsBlanked(text: string, tokens: seq<string>, offsets: seq<Span>, artifacts: seq<string>, strategy: string, k: nat)
    requires NoArtifacts(tokens, artifacts)
    requires OrderedSpans(text, offsets, |tokens|)
    requires 1 <= k <= |tokens|
    ensures 0 <= offsets[0].0 <= offsets[k - 1].1 <= |text|
    ensures CleanPrefix(text, tokens, offsets, artifacts, strategy, k) ==
      Ok(Blanked(text, offsets, k, offsets[0].0, offsets[k - 1].1))
  {
    var n := |tokens|;
    SpanInText(text, offsets, n, k - 1);
    PieceKept(text, tokens, offsets, artifacts, strategy, k - 1);
    if k == 1 {
      BlankedFirst(text, offsets, n);
    } else {
      PrefixIsBlanked(text, tokens, offsets, artifacts, strategy, k - 1);
      BlankedStep(text, offsets, n, k - 1);
    }
  }

  /** Without artifacts, token `i` contributes the text its span covers. */
  lemma PieceKept(text: string, tokens: seq<string>, offsets: seq<Span>, artifacts: seq<string>, strategy: string, i: nat)
    requires NoArtifacts(tokens, artifacts)
    requires OrderedSpans(text, offsets, |tokens|)
    requires i < |tokens|
    ensures 0 <= offsets[i].0 <= offsets[i].1 <= |text|
    ensures Piece(text, tokens, offsets, artifacts, strategy, i) == Ok(text[offsets[i].0..offsets[i].1])
  {
    SpanInText(text, offsets, |tokens|, i);
  }

  /** The layout of span 0 alone is the text it covers. */
  lemma BlankedFirst(text: string, offsets: seq<Span>, n: nat)
    requires OrderedSpans(text, offsets, n)
    ensures 0 <= offsets[0].0 <= offsets[0].1 <= |text|
    ensures Blanked(text, offsets, 1, offsets[0].0, offsets[0].1) == text[offsets[0].0..offsets[0].1]
  {
    SpanInText(text, offsets, n, 0);
    var lo, hi := offsets[0].0, offsets[0].1;
    var b := Blanked(text, offsets, 1, lo, hi);
    forall j | 0 <= j < hi - lo
      ensures b[j] == text[lo..hi][j]
    {
      assert Covered(offsets, 1, lo + j);
    }
  }

  /** The reference layout holds the text's own characters on every span
      and a space at every position between two spans. */
  lemma BlankedLayout(text: string, offsets: seq<Span>, n: nat, out: string)
    requires OrderedSpans(text, offsets, n)
    requires 0 <= offsets[0].0 <= offsets[n - 1].1 <= |text|
    requires out == Blanked(text, offsets, n, offsets[0].0, offsets[n - 1].1)
    ensures forall i :: 0 <= i < n ==>
      0 <= offsets[0].0 <= offsets[i].0 <= offsets[i].1 <= offsets[n - 1].1 <= |text|
    ensures forall i :: 0 <= i < n ==>
      out[offsets[i].0 - offsets[0].0..offsets[i].1 - offsets[0].0] == text[offsets[i].0..offsets[i].1]
    ensures forall i :: 1 <= i < n ==>
      forall j :: offsets[i - 1].1 - offsets[0].0 <= j < offsets[i].0 - offsets[0].0 ==> out[j] == ' '
  {
    forall i | 0 <= i < n
      ensures 0 <= offsets[0].0 <= offsets[i].0 <= offsets[i].1 <= offsets[n - 1].1 <= |text|
      ensures out[offsets[i].0 - offsets[0].0..offsets[i].1 - offsets[0].0] == text[offsets[i].0..offsets[i].1]
    {
      BlankedOnSpan(text, offsets, n, out, i);
    }
    forall i, j | 1 <= i < n && offsets[i - 1].1 - offsets[0].0 <= j < offsets[i].0 - offsets[0].0
      ensures out[j] == ' '
    {
      BlankedInGap(text, offsets, n, out, i, j);
    }
  }

  lemma BlankedOnSpan(text: string, offsets: seq<Span>, n: nat, out: string, i: nat)
    requires OrderedSpans(text, offsets, n)
    requires 0 <= offsets[0].0 <= offsets[n - 1].1 <= |text|
    requires out == Blanked(text, offsets, n, offsets[0].0, offsets[n - 1].1)
    requires i < n
    ensures 0 <= offsets[0].0 <= offsets[i].0 <= offsets[i].1 <= offsets[n - 1].1 <= |text|
    ensures out[offsets[i].0 - offsets[0].0..offsets[i].1 - offsets[0].0] == text[offsets[i].0..offsets[i].1]
  {
    var lo := offsets[0].0;
    SpanInText(text, offsets, n, i);
    if i < n - 1 {
      SpanBefore(text, offsets, n, i, n - 1);
    }
    forall j | offsets[i].0 - lo <= j < offsets[i].1 - lo
      ensures out[j] == text[lo + j]
    {
      assert Covered(offsets, n, lo + j);
    }
  }

  lemma BlankedInGap(text: string, offsets: seq<Span>, n: nat, out: string, i: nat, j: int)
    requires OrderedSpans(text, offsets, n)
    requires 0 <= offsets[0].0 <= offsets[n - 1].1 <= |text|
    requires out == Blanked(text, offsets, n, offsets[0].0, offsets[n - 1].1)
    requires 1 <= i < n && offsets[i - 1].1 - offsets[0].0 <= j < offsets[i].0 - offsets[0].0
    ensures 0 <= j < |out| && out[j] == ' '
  {
    var lo := offsets[0].0;
    SpanInText(text, offsets, n, i - 1);
    SpanInText(text, offsets, n, i);
    if i < n - 1 {
      SpanBefore(text, offsets, n, i, n - 1);
    }
    var p := lo + j;
    if Covered(offsets, n, p) {
      var m :| 0 <= m < n && offsets[m].0 <= p < offsets[m].1;
      if m < i - 1 {
        SpanBefore(text, offsets, n, m, i - 1);
      } else if m > i {
        SpanBefore(text, offsets, n, i, m);
      }
      assert false;
    }
  }

  /** With in-bounds, ordered, non-overlapping spans and no artifact token,
      the cleaned text runs from the start of the first span to the end of
      the last: it has that length, holds the text's own characters on
      every span and a space at every position between two spans. */
  lemma NoArtifactLayout(text: string, tokens: seq<string>, offsets: seq<Span>, artifacts: seq<string>, strategy: string)
    requires NoArtifacts(tokens, artifacts)
    requires OrderedSpans(text, offsets, |tokens|)
    ensures CleanText(text, tokens, offsets, artifacts, strategy).Ok?
    ensures |CleanText(text, tokens, offsets, artifacts, strategy).value| == offsets[|tokens| - 1].1 - offsets[0].0
    ensures forall i :: 0 <= i < |tokens| ==>
      0 <= offsets[0].0 <= offsets[i].0 <= offsets[i].1 <= offsets[|tokens| - 1].1 <= |text|
    ensures forall i :: 0 <= i < |tokens| ==>
      CleanText(text, tokens, offsets, artifacts, strategy).value[offsets[i].0 - offsets[0].0..offsets[i].1 - offsets[0].0]
        == text[offsets[i].0..offsets[i].1]
    ensures forall i :: 1 <= i < |tokens| ==>
      forall j :: offsets[i - 1].1 - offsets[0].0 <= j < offsets[i].0 - offsets[0].0 ==>
        CleanText(text, tokens, offsets, artifacts, strategy).value[j] == ' '
  {
    var n := |tokens|;
    PrefixIsBlanked(text, tokens, offsets, artifacts, strategy, n);
    SpanInText(text, offsets, n, n - 1);
    BlankedLayout(text, offsets, n, CleanText(text, tokens, offsets, artifacts, strategy).value);
  }

  /** The reference layout is the text itself when the text holds a space
      at every position between two spans. */
  lemma BlankedIsText(text: string, offsets: seq<Span>, n: nat)
    requires OrderedSpans(text, offsets, n)
    requires forall i, p :: 1 <= i < n && offsets[i - 1].1 <= p < offsets[i].0 && 0 <= p < |text| ==> text[p] == ' '
    ensures 0 <= offsets[0].0 <= offsets[n - 1].1 <= |text|
    ensures Blanked(text, offsets, n, offsets[0].0, offsets[n - 1].1) == text[offsets[0].0..offsets[n - 1].1]
  {
    var lo, hi := offsets[0].0, offsets[n - 1].1;
    SpanInText(text, offsets, n, n - 1);
    var out := Blanked(text, offsets, n, lo, hi);
    forall j | 0 <= j < |out|
      ensures out[j] == text[lo..hi][j]
    {
      var p := lo + j;
      if !Covered(offsets, n, p) {
        var i := GapContaining(text, offsets, n, p);
        assert text[p] == ' ';
      }
    }
  }

  /** The gap property: when the text holds a space at every position
      between two spans (the whitespace a word-piece tokenizer skips) and no
      token is an artifact, cleaning gives back the text from the start of
      the first span to the end of the last. */
  lemma ReconstructsWhenGapsAreSpaces(text: string, tokens: seq<string>, offsets: seq<Span>, artifacts: seq<string>, strategy: string)
    requires NoArtifacts(tokens, artifacts)
    requires OrderedSpans(text, offsets, |tokens|)
    requires forall i, p :: 1 <= i < |tokens| && offsets[i - 1].1 <= p < offsets[i].0 && 0 <= p < |text| ==> text[p] == ' '
    ensures 0 <= offsets[0].0 <= offsets[|tokens| - 1].1 <= |text|
    ensures CleanText(text, tokens, offsets, artifacts, strategy) == Ok(text[offsets[0].0..offsets[|tokens| - 1].1])
  {
    PrefixIsBlanked(text, tokens, offsets, artifacts, strategy, |tokens|);
    BlankedIsText(text, offsets, |tokens|);
  }
  /** A position between the start of the first span and the end of the
      last that no span covers lies in the gap before some span `i`. */
  lemma {:induction false} GapContaining(text: string, offsets: seq<Span>, n: nat, p: int) returns (i: nat)
    requires OrderedSpans(text, offsets, n)
    requires offsets[0].0 <= p < offsets[n - 1].1
    requires !Covered(offsets, n, p)
    ensures 1 <= i < n && offsets[i - 1].1 <= p < offsets[i].0
    decreases n
  {
    if n == 1 {
      assert false;
    } else if p < offsets[n - 2].1 {
      assert OrderedSpans(text, offsets, n - 1) by {
        SpanInText(text, offsets, n, n - 2);
      }
      i := GapContaining(text, offsets, n - 1, p);
    } else {
      i := n - 1;
    }
  }

  /** Spans that tile the whole text with no gap reproduce it exactly when
      no token is an artifact. */
  lemma TilingReproducesText(text: string, tokens: seq<string>, offsets: seq<Span>, artifacts: seq<string>, strategy: string)
    requires NoArtifacts(tokens, artifacts)
    requires 1 <= |tokens| <= |offsets|
    requires offsets[0].0 == 0 && offsets[|tokens| - 1].1 == |text|
    requires forall i :: 0 <= i < |tokens| ==> offsets[i].0 <= offsets[i].1
    requires forall i :: 1 <= i < |tokens| ==> offsets[i - 1].1 == offsets[i].0
    ensures CleanText(text, tokens, offsets, artifacts, strategy) == Ok(text)
  {
    ReconstructsWhenGapsAreSpaces(text, tokens, offsets, artifacts, strategy);
    assert text[0..|text|] == text;
  }
}
