/** `create_data_variant`: every input line `label<TAB>text` becomes one
    output line, either copied or with its text cleaned token by token. */
module Variants {
  import opened Errors
  import opened Python
  import opened Rewriter
  import opened Aligner

  /** The word-piece tokenizer as the script sees it: the tokens of a text,
      and the offset mapping of the encoded text, whose first and last pairs
      belong to the boundary tokens the encoder adds. */
  datatype Tokenizer = Tokenizer(tokenize: string -> seq<string>, offsetMapping: string -> seq<Span>)

  /** The class filter under which negative records are copied unchanged. */
  const Hateful: string := "hateful"
  const NonHatefulLabel: string := "0"

  predicate CopiedVerbatim(classes: string, recordLabel: string) {
    classes == Hateful && recordLabel == NonHatefulLabel
  }

  /** The offset pairs of the text's tokens: `offset_mapping[1:-1]`. */
  function TokenOffsets(tokenizer: Tokenizer, text: string): (r: seq<Span>)
  {
    PySlice(tokenizer.offsetMapping(text), 1, -1)
  }

  /** One pass of the per-line loop, on a line whose trailing whitespace is
      already stripped: the line written to the output, or the error that
      ends the run. A line without a tab has no `line[1]`. */
  function TransformLine(line: string, classes: string, tokenizer: Tokenizer, artifacts: seq<string>, strategy: string): (r: Result<string>)
  {
    var fields := Split(line, '\t');
    if |fields| < 2 then Err(IndexError)
    else
      var recordLabel, text := fields[0], fields[1];
      if CopiedVerbatim(classes, recordLabel) then Ok(recordLabel + "\t" + text + "\n")
      else
        match CleanText(text, tokenizer.tokenize(text), TokenOffsets(tokenizer, text), artifacts, strategy)
        case Err(e) => Err(e)
        case Ok(cleaned) => Ok(recordLabel + "\t" + cleaned + "\n")
  }

  /** A line is either written, ending in a newline, or ends the run with
      an `IndexError` or the strategy's own error: nothing else can stop it. */
  lemma TransformLineOutcome(line: string, classes: string, tokenizer: Tokenizer, artifacts: seq<string>, strategy: string)
    ensures var r := TransformLine(line, classes, tokenizer, artifacts, strategy);
      (r.Ok? ==> |r.value| >= 1 && r.value[|r.value| - 1] == '\n') &&
      (r.Err? ==> r.error == IndexError || r.error == StrategyDoesNotExist(strategy))
  {
    var fields := Split(line, '\t');
    if |fields| >= 2 && !CopiedVerbatim(classes, fields[0]) {
      var text := fields[1];
      CleanTextOutcome(text, tokenizer.tokenize(text), TokenOffsets(tokenizer, text), artifacts, strategy);
    }
  }

  /** A line without a tab has no second field: `line[1]` is an
      `IndexError`, whatever the filter, tokenizer or strategy. */
  lemma NoTabIsIndexError(line: string, classes: string, tokenizer: Tokenizer, artifacts: seq<string>, strategy: string)
    requires '\t' !in line
    ensures TransformLine(line, classes, tokenizer, artifacts, strategy) == Err(IndexError)
  {
    SplitNoSeparator(line, '\t');
  }

  /** A negative record under the "hateful" filter is written as its label,
      a tab and its text, whatever the tokenizer, artifacts or strategy
      (a strategy that does not exist included); for a line of exactly two
      fields that is the line itself. */
  lemma PassthroughLine(line: string, classes: string, tokenizer: Tokenizer, artifacts: seq<string>, strategy: string)
    requires |Split(line, '\t')| >= 2
    requires CopiedVerbatim(classes, Split(line, '\t')[0])
    ensures TransformLine(line, classes, tokenizer, artifacts, strategy) ==
      Ok(Split(line, '\t')[0] + "\t" + Split(line, '\t')[1] + "\n")
    ensures |Split(line, '\t')| == 2 ==> TransformLine(line, classes, tokenizer, artifacts, strategy) == Ok(line + "\n")
  {
    var fields := Split(line, '\t');
    if |fields| == 2 {
      JoinSplit(line, '\t');
      assert Join(fields[1..], '\t') == fields[1];
    }
  }

  /** Every other record with a label and a text is written as the label, a
      tab, the cleaned text and a newline, or fails as cleaning it fails. */
  lemma CleanedLine(line: string, classes: string, tokenizer: Tokenizer, artifacts: seq<string>, strategy: string)
    requires |Split(line, '\t')| >= 2
    requires !CopiedVerbatim(classes, Split(line, '\t')[0])
    ensures var text := Split(line, '\t')[1];
      var cleaned := CleanText(text, tokenizer.tokenize(text), TokenOffsets(tokenizer, text), artifacts, strategy);
      TransformLine(line, classes, tokenizer, artifacts, strategy) ==
        if cleaned.Ok? then Ok(Split(line, '\t')[0] + "\t" + cleaned.value + "\n") else Err(cleaned.error)
  {
  }

  /** A written line is again a record: a newline ends it, and splitting
      the rest on tabs gives back the label and one text field. */
  lemma WrittenLineIsRecord(line: string, classes: string, tokenizer: Tokenizer, artifacts: seq<string>, strategy: string)
    requires TransformLine(line, classes, tokenizer, artifacts, strategy).Ok?
    ensures var out := TransformLine(line, classes, tokenizer, artifacts, strategy).value;
      |out| >= 1 && out[|out| - 1] == '\n' &&
      |Split(out[..|out| - 1], '\t')| == 2 && Split(out[..|out| - 1], '\t')[0] == Split(line, '\t')[0]
  {
    var fields := Split(line, '\t');
    var recordLabel, text := fields[0], fields[1];
    var out := TransformLine(line, classes, tokenizer, artifacts, strategy).value;
    var body: string;
    if CopiedVerbatim(classes, recordLabel) {
      body := text;
    } else {
      var tokens, offsets := tokenizer.tokenize(text), TokenOffsets(tokenizer, text);
      CleanTextChars(text, tokens, offsets, artifacts, strategy);
      body := CleanText(text, tokens, offsets, artifacts, strategy).value;
      assert '\t' !in MaskToken;
    }
    assert out == recordLabel + "\t" + body + "\n";
    assert out[..|out| - 1] == Join([recordLabel, body], '\t');
    SplitJoin([recordLabel, body], '\t');
  }

  // ----- The run over the whole input -----

  /** What a run leaves behind: the lines written, and whether it finished
      or was stopped by an error (the lines already written stay written). */
  datatype RunOutcome = Completed(written: seq<string>) | Aborted(written: seq<string>, error: Error)

  /** The run over the first `k` input lines. Every written line is the
      transform of the input line at the same position; a completed run has
      written one line per input line; an aborted run stopped at the first
      line whose transform fails. */
  function RunPrefix(lines: seq<string>, classes: string, tokenizer: Tokenizer, artifacts: seq<string>, strategy: string, k: nat): (r: RunOutcome)
    requires k <= |lines|
    ensures |r.written| <= k
    ensures forall i :: 0 <= i < |r.written| ==> TransformLine(lines[i], classes, tokenizer, artifacts, strategy) == Ok(r.written[i])
    ensures r.Completed? ==> |r.written| == k
    ensures r.Aborted? ==> |r.written| < k && TransformLine(lines[|r.written|], classes, tokenizer, artifacts, strategy) == Err(r.error)
  {
    if k == 0 then Completed([])
    else
      match RunPrefix(lines, classes, tokenizer, artifacts, strategy, k - 1)
      case Aborted(w, e) => Aborted(w, e)
      case Completed(w) =>
        match TransformLine(lines[k - 1], classes, tokenizer, artifacts, strategy)
        case Err(e) => Aborted(w, e)
        case Ok(out) => Completed(w + [out])
  }

  function Run(lines: seq<string>, classes: string, tokenizer: Tokenizer, artifacts: seq<string>, strategy: string): (r: RunOutcome)
  {
    RunPrefix(lines, classes, tokenizer, artifacts, strategy, |lines|)
  }

  /** The loop over the input file, writing each transformed line in turn. */
  method CreateDataVariant(lines: seq<string>, classes: string, tokenizer: Tokenizer, artifacts: seq<string>, strategy: string)
    returns (outcome: RunOutcome)
    ensures outcome == Run(lines, classes, tokenizer, artifacts, strategy)
  {
    var written: seq<string> := [];
    for k := 0 to |lines|
      invariant RunPrefix(lines, classes, tokenizer, artifacts, strategy, k) == Completed(written)
    {
      var fields := Split(lines[k], '\t');
      if |fields| < 2 {
        AbortPersists(lines, classes, tokenizer, artifacts, strategy, k + 1, |lines|);
        return Aborted(written, IndexError);
      }
      var recordLabel, text := fields[0], fields[1];
      if CopiedVerbatim(classes, recordLabel) {
        written := written + [recordLabel + "\t" + text + "\n"];
      } else {
        var cleaned := CleanLine(text, tokenizer.tokenize(text), TokenOffsets(tokenizer, text), artifacts, strategy);
        if cleaned.Err? {
          AbortPersists(lines, classes, tokenizer, artifacts, strategy, k + 1, |lines|);
          return Aborted(written, cleaned.error);
        }
        written := written + [recordLabel + "\t" + cleaned.value + "\n"];
      }
    }
    return Completed(written);
  }

  /** An aborted run stays aborted with the same output. */
  lemma {:induction false} AbortPersists(lines: seq<string>, classes: string, tokenizer: Tokenizer, artifacts: seq<string>, strategy: string, k: nat, m: nat)
    requires k <= m <= |lines|
    requires RunPrefix(lines, classes, tokenizer, artifacts, strategy, k).Aborted?
    ensures RunPrefix(lines, classes, tokenizer, artifacts, strategy, m) == RunPrefix(lines, classes, tokenizer, artifacts, strategy, k)
    decreases m - k
  {
    if k < m {
      AbortPersists(lines, classes, tokenizer, artifacts, strategy, k, m - 1);
    }
  }

  /** A run completes exactly when every line transforms, and then writes
      exactly one line per input line, in input order. */
  lemma {:induction false} RunCompletes(lines: seq<string>, classes: string, tokenizer: Tokenizer, artifacts: seq<string>, strategy: string)
    ensures Run(lines, classes, tokenizer, artifacts, strategy).Completed? <==>
      forall i :: 0 <= i < |lines| ==> TransformLine(lines[i], classes, tokenizer, artifacts, strategy).Ok?
    ensures Run(lines, classes, tokenizer, artifacts, strategy).Completed? ==>
      |Run(lines, classes, tokenizer, artifacts, strategy).written| == |lines| &&
      forall i :: 0 <= i < |lines| ==>
        Run(lines, classes, tokenizer, artifacts, strategy).written[i] == TransformLine(lines[i], classes, tokenizer, artifacts, strategy).value
  {
    var r := Run(lines, classes, tokenizer, artifacts, strategy);
    if r.Aborted? {
      assert !TransformLine(lines[|r.written|], classes, tokenizer, artifacts, strategy).Ok?;
    }
  }
}
