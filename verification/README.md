# Sanitised dataset variants, modelled in Dafny

The script `DA/scripts/5.create-variants.py` reads a tab-separated dataset
(`label<TAB>text` per line). It writes a variant of it in which every
word-piece token found in an artifact list is deleted (replaced by one
space, strategy `del`) or masked (replaced by `[unused0]`, strategy `mask`).
It rebuilds the text around the tokens from the tokenizer's character
offsets. Between two tokens it puts as many spaces as the offsets leave
between them. Under the class filter `hateful`, records labelled `"0"` are
copied without being touched.

The model has six modules:

- `Python` (`python.dfy`): the Python built-ins the script leans on, with
  Python's semantics. `PySlice` is `s[a:b]`: negative bounds count from the
  end, bounds are clamped, and a start that is not below the end, once both
  are resolved and clamped, gives an empty result (`"abcde"[3:-1]` is still
  `"d"`). `Spaces` is
  `" " * n`, which is `""` for `n <= 0`. `Split` is `str.split` on one
  character, and `Join` is its inverse.
- `Errors` (`errors.dfy`): the two ways a run stops early. `IndexError` is a
  missing `line[1]`, `curr_tokens[0]` or `offsets[i]`. `StrategyDoesNotExist`
  is the `sys.exit` of line 39.
- `Rewriter` (`rewriter.dfy`): `apply_strategy_to_token`.
- `Aligner` (`aligner.dfy`): the rebuilding of `text_cleaned`. `CleanPrefix`
  and `CleanText` are the reference fold: the rewrite of token 0, then for
  each later token the gap in spaces and its rewrite, or the first error met.
  `CleanLine` is the source's `for` loop, proved equal to that fold. The
  lemmas describe which records fail and how, and what the output looks
  like when the spans are ordered and nothing is rewritten.
- `Variants` (`variants.dfy`): one input line to one output line
  (`TransformLine`), and the loop over the file (`CreateDataVariant`, proved
  equal to the function `Run`).
- `Scenarios` (`scenarios.dfy`): worked records. The text `foobar baz`,
  split into `foo`, `##bar`, `baz`, is masked, deleted, kept, copied and
  aborted.

The tokenizer is a parameter. It is a datatype holding two total functions:
`tokenize(text)` and the offset mapping of the encoded text. The script
drops the mapping's first and last pairs (`[1:-1]`, the boundary tokens).
Lines are taken as already stripped of trailing whitespace. The output file
is the sequence of lines written. Offsets are unbounded integers; Python
integers do not wrap.

Behaviour of the script worth knowing:

- The artifact test is on the tokenizer's token, e.g. the lower-cased,
  `##`-prefixed piece. It is not on the substring of the text the token
  covers (line 33).
- A strategy other than `del`/`mask` is caught only when an artifact token
  is met (lines 33-39). It is not caught before any record is processed. A
  record without artifact tokens is cleaned normally under any strategy
  string. On the command line, `argparse` only admits `mask` and `del`
  (line 82).
- Nothing compares the number of tokens with the number of offset pairs.
  Too few pairs is an `IndexError` at line 63 or 66. Extra pairs are
  ignored (`ExtraOffsetsIgnored`).
- Overlapping spans give a negative gap, and so no spaces.
- The copied record is `label + "\t" + text + "\n"`, not the raw line. A
  line with more than two tab-separated fields loses all fields after the
  second. A line with no tab is an `IndexError` that ends the run.
- An error ends the run. The lines written before it stay written
  (`Aborted(written, error)`).

## Model

| member | source | states |
|---|---|---|
| `Python.PySlice` | DA/scripts/5.create-variants.py:63 | Python's `text[a:b]`: inside the bounds it is the subsequence; a slice whose start is not below its end is empty when both bounds are non-negative or both negative; every element comes from the sliced sequence |
| `Python.DropFirstAndLast` | DA/scripts/5.create-variants.py:61 | `offset_mapping[1:-1]` removes exactly the first and last pair, and is empty for a mapping of fewer than two pairs |
| `Python.Spaces` | DA/scripts/5.create-variants.py:67 | `" " * n` has `max(0, n)` characters, all spaces |
| `Python.Split` | DA/scripts/5.create-variants.py:52 | `line.split("\t")` gives at least one field, and no field holds a tab |
| `Python.JoinSplit` | DA/scripts/5.create-variants.py:52 | joining the fields of a split with tabs gives back the line |
| `Python.SplitJoin` | DA/scripts/5.create-variants.py:52 | splitting tab-free fields joined by tabs gives back the fields |
| `Rewriter.ApplyStrategy` | DA/scripts/5.create-variants.py:32-41 | a non-artifact token yields its substring; an artifact token yields `" "` under `del` and `"[unused0]"` under `mask`; it fails, naming the strategy, exactly when the token is an artifact and the strategy is neither |
| `Rewriter.KeptUnderAnyStrategy` | DA/scripts/5.create-variants.py:40-41 | a non-artifact token's result is the same under every strategy string |
| `Rewriter.ReplacementIgnoresText` | DA/scripts/5.create-variants.py:33-37 | an artifact token's result does not depend on the text it covers |
| `Rewriter.RewriteOutputs` | DA/scripts/5.create-variants.py:32-41 | a successful rewrite is the substring, `" "` or `"[unused0]"`, and differs from the substring only for an artifact token |
| `Aligner.CleanLine` | DA/scripts/5.create-variants.py:63-68 | the loop that grows `text_cleaned` returns exactly the reference fold `CleanText`: token 0's rewrite with no leading gap, then for each later token `offsets[i][0] - offsets[i-1][1]` spaces and the rewrite of `text[offsets[i][0]:offsets[i][1]]`, or the first error met |
| `Aligner.CleanPrefixOutcome` | DA/scripts/5.create-variants.py:63-68 | after `k` steps: a strategy failure if an artifact token with an offset pair came first, otherwise an `IndexError` if the offsets ran out, otherwise a cleaned prefix |
| `Aligner.CleanTextOutcome` | DA/scripts/5.create-variants.py:63-68 | a record is cleaned iff it has a token, as many offset pairs as tokens, and a known strategy or no artifact token; it stops on the strategy iff the strategy is unknown and some artifact token has an offset pair; every other failure is an `IndexError` |
| `Aligner.StrategyIrrelevantWithoutArtifacts` | DA/scripts/5.create-variants.py:33-41 | with no artifact token, every strategy string (an unknown one included) gives the same outcome |
| `Aligner.ExtraOffsetsIgnored` | DA/scripts/5.create-variants.py:65-68 | offset pairs past the last token do not change the outcome |
| `Aligner.CleanTextChars` | DA/scripts/5.create-variants.py:63-68 | every character of a cleaned text is from the text, a space, or from `"[unused0]"` |
| `Aligner.PrefixIsBlanked` | DA/scripts/5.create-variants.py:63-68 | with ordered in-bounds spans and no artifact token, the first `k` steps give the text from the start of span 0 to the end of span `k-1`, with every position outside the spans turned into a space |
| `Aligner.NoArtifactLayout` | DA/scripts/5.create-variants.py:63-68 | with ordered, non-overlapping, in-bounds spans and no artifact token, the output has length `end[N-1] - start[0]`, equals the text on every span, and holds a space at every position between two spans |
| `Aligner.ReconstructsWhenGapsAreSpaces` | DA/scripts/5.create-variants.py:63-68 | if, in addition, the text holds spaces between the spans, the output is exactly `text[start[0]:end[N-1]]` |
| `Aligner.TilingReproducesText` | DA/scripts/5.create-variants.py:63-68 | spans that tile the whole text with no gap reproduce the text exactly when no token is an artifact |
| `Variants.TransformLineOutcome` | DA/scripts/5.create-variants.py:52-69 | a line is either written, ending in a newline, or stops the run with an `IndexError` or the strategy's own error, and with no other error |
| `Variants.NoTabIsIndexError` | DA/scripts/5.create-variants.py:52-54 | a line without a tab has no `line[1]`: it is an `IndexError` under every filter, tokenizer, artifact list and strategy |
| `Variants.PassthroughLine` | DA/scripts/5.create-variants.py:57-58 | under `hateful` a record labelled `"0"` is written as label, tab, text, newline, whatever the tokenizer, artifacts or strategy; for a two-field line that is the line itself |
| `Variants.CleanedLine` | DA/scripts/5.create-variants.py:59-69 | any other record is written as label, tab, cleaned text of its second field (tokens, and offsets without their boundary pairs), newline, or fails as the cleaning fails |
| `Variants.WrittenLineIsRecord` | DA/scripts/5.create-variants.py:69 | every written line ends in a newline, and before it splits on tabs into exactly two fields whose first is the input's label |
| `Variants.RunPrefix` | DA/scripts/5.create-variants.py:50-69 | after `k` input lines, each written line is the transform of the input line at its position; a completed run wrote `k` lines; an aborted run stopped at the first line whose transform fails, with that error |
| `Variants.CreateDataVariant` | DA/scripts/5.create-variants.py:50-69 | the loop over the input lines produces exactly `Run`: the written lines and how the run ended |
| `Variants.RunCompletes` | DA/scripts/5.create-variants.py:50-69 | a run completes iff every line transforms; it then writes one line per input line, in input order |
| `Scenarios.MaskScenario` | DA/scripts/5.create-variants.py:36-37 | `1<TAB>foobar baz` with artifact `##bar` under `mask` becomes `1<TAB>foo[unused0] baz` |
| `Scenarios.DelScenario` | DA/scripts/5.create-variants.py:34-35 | the same record under `del` becomes `1<TAB>foo  baz` (two spaces) |
| `Scenarios.MembershipOnTokenScenario` | DA/scripts/5.create-variants.py:33 | the artifact `bar` does not match the token `##bar`, so the record is unchanged |
| `Scenarios.UnknownStrategyScenario` | DA/scripts/5.create-variants.py:38-39 | strategy `frobnicate` stops on the record with an artifact token and leaves one without it unchanged |
| `Scenarios.MismatchScenario` | DA/scripts/5.create-variants.py:66 | five tokens with four offset pairs is an `IndexError` |
| `Scenarios.PassthroughScenario` | DA/scripts/5.create-variants.py:57-58 | `0<TAB>foobar baz` under `hateful` is copied, even with an unknown strategy |
| `Scenarios.AbortScenario` | DA/scripts/5.create-variants.py:50-69 | a run over a copied line and two failing lines has written the copied line and stops at the first failing one |

## Left out

- Command-line parsing and the `__main__` block (lines 73-92): plumbing. The restriction of `--strategy` to `mask`/`del` at line 82 is not part of the model, so the model also covers direct calls with any strategy string.
- `get_artifacts` (lines 25-30) and the opening, reading, writing and closing of files (lines 49-51, 58, 69-70): file I/O. The artifact list is a `seq<string>` parameter, the input is a `seq<string>` of lines, and the output is the sequence of lines written.
- `line.rstrip()` (line 52): Python's whitespace classes are not modelled. Lines are given already stripped. Only the split on tab is modelled.
- `initialize_tokenizer`, `BertTokenizerFast` and the emoji vocabulary (lines 6, 9-23): a foreign library whose tokenisation and offsets cannot be seen. The tokenizer is a parameter holding two uninterpreted functions.
- The unused `tokenizer_name` parameter of `apply_strategy_to_token` (line 32).
- `sys.exit` (line 39): the process exit and its printed message become the error value `StrategyDoesNotExist(strategy)`.
- `int(...)` on the offsets (lines 63, 68): the offsets are integers already.
- Idempotence of the delete strategy over a second run: it needs re-tokenising the cleaned text, and the tokenizer is uninterpreted.
