/** Worked records: the text "foobar baz" split by a tokenizer into the
    pieces "foo", "##bar" and "baz" at offsets (0,3), (3,6) and (7,10),
    with the boundary pairs the encoder adds around them. */
module Scenarios {
  import opened Errors
  import opened Python
  import opened Rewriter
  import opened Aligner
  import opened Variants

  const FooBar: Tokenizer :=
    Tokenizer(t => ["foo", "##bar", "baz"], t => [(0, 0), (0, 3), (3, 6), (7, 10), (0, 0)])

  const FooBarOffsets: seq<Span> := [(0, 3), (3, 6), (7, 10)]

  /** A record of two tab-free fields splits back into them. */
  lemma SplitRecord(lbl: string, text: string)
    requires '\t' !in lbl && '\t' !in text
    ensures Split(lbl + "\t" + text, '\t') == [lbl, text]
  {
    SplitJoin([lbl, text], '\t');
  }

  /** Three tokens whose rewrites all succeed give the first rewrite, the
      gap, the second rewrite, the gap and the third rewrite. */
  lemma {:induction false} ThreeTokens(text: string, tokens: seq<string>, offsets: seq<Span>, artifacts: seq<string>, strategy: string, p0: string, p1: string, p2: string)
    requires |tokens| == 3 && |offsets| >= 3
    requires Piece(text, tokens, offsets, artifacts, strategy, 0) == Ok(p0)
    requires Piece(text, tokens, offsets, artifacts, strategy, 1) == Ok(p1)
    requires Piece(text, tokens, offsets, artifacts, strategy, 2) == Ok(p2)
    ensures CleanText(text, tokens, offsets, artifacts, strategy) ==
      Ok(p0 + Spaces(Gap(offsets, 1)) + p1 + Spaces(Gap(offsets, 2)) + p2)
  {
    assert CleanPrefix(text, tokens, offsets, artifacts, strategy, 1) == Ok(p0);
    assert CleanPrefix(text, tokens, offsets, artifacts, strategy, 2) == Ok(p0 + Spaces(Gap(offsets, 1)) + p1);
  }

  /** The record "1<TAB>foobar baz" as the script sees it. */
  lemma FooBarRecord(line: string, classes: string, artifacts: seq<string>, strategy: string)
    requires line == "1\tfoobar baz"
    requires !CopiedVerbatim(classes, "1")
    ensures TransformLine(line, classes, FooBar, artifacts, strategy) ==
      var cleaned := CleanText("foobar baz", ["foo", "##bar", "baz"], FooBarOffsets, artifacts, strategy);
      if cleaned.Ok? then Ok("1\t" + cleaned.value + "\n") else Err(cleaned.error)
  {
    SplitRecord("1", "foobar baz");
    assert line == "1" + "\t" + "foobar baz";
    DropFirstAndLast(FooBar.offsetMapping("foobar baz"));
    assert TokenOffsets(FooBar, "foobar baz") == FooBarOffsets;
    assert FooBar.tokenize("foobar baz") == ["foo", "##bar", "baz"];
    assert Split(line, '\t') == ["1", "foobar baz"];
    CleanedLine(line, classes, FooBar, artifacts, strategy);
    var cleaned := CleanText("foobar baz", ["foo", "##bar", "baz"], FooBarOffsets, artifacts, strategy);
    if cleaned.Ok? {
      assert "1" + "\t" + cleaned.value + "\n" == "1\t" + cleaned.value + "\n";
    }
  }

  /** The three pieces of "foobar baz" when none is an artifact. */
  lemma FooBarKept(artifacts: seq<string>, strategy: string)
    requires "foo" !in artifacts && "##bar" !in artifacts && "baz" !in artifacts
    ensures CleanText("foobar baz", ["foo", "##bar", "baz"], FooBarOffsets, artifacts, strategy) == Ok("foobar baz")
  {
    var text, tokens := "foobar baz", ["foo", "##bar", "baz"];
    assert PySlice(text, 0, 3) == "foo";
    assert PySlice(text, 3, 6) == "bar";
    assert PySlice(text, 7, 10) == "baz";
    ThreeTokens(text, tokens, FooBarOffsets, artifacts, strategy, "foo", "bar", "baz");
    assert "foo" + Spaces(0) + "bar" + Spaces(1) + "baz" == "foobar baz";
  }

  /** "##bar" is the only artifact: its piece becomes `replacement`. */
  lemma FooBarReplaced(strategy: string, replacement: string)
    requires ApplyStrategy("##bar", "bar", ["##bar"], strategy) == Ok(replacement)
    ensures CleanText("foobar baz", ["foo", "##bar", "baz"], FooBarOffsets, ["##bar"], strategy) ==
      Ok("foo" + replacement + " baz")
  {
    var text, tokens := "foobar baz", ["foo", "##bar", "baz"];
    assert PySlice(text, 0, 3) == "foo";
    assert PySlice(text, 3, 6) == "bar";
    assert PySlice(text, 7, 10) == "baz";
    ThreeTokens(text, tokens, FooBarOffsets, ["##bar"], strategy, "foo", replacement, "baz");
    assert "foo" + Spaces(0) + replacement + Spaces(1) + "baz" == "foo" + replacement + " baz";
  }

  /** Masking replaces only the artifact piece; the one-character gap
      before "baz" survives. */
  lemma MaskScenario(line: string)
    requires line == "1\tfoobar baz"
    ensures TransformLine(line, "all", FooBar, ["##bar"], "mask") == Ok("1\tfoo[unused0] baz\n")
  {
    FooBarRecord(line, "all", ["##bar"], "mask");
    FooBarReplaced("mask", "[unused0]");
    assert "1\t" + ("foo" + "[unused0]" + " baz") + "\n" == "1\tfoo[unused0] baz\n";
  }

  /** Deleting leaves a space for the piece, next to the original gap. */
  lemma DelScenario(line: string)
    requires line == "1\tfoobar baz"
    ensures TransformLine(line, "all", FooBar, ["##bar"], "del") == Ok("1\tfoo  baz\n")
  {
    FooBarRecord(line, "all", ["##bar"], "del");
    FooBarReplaced("del", " ");
    assert "1\t" + ("foo" + " " + " baz") + "\n" == "1\tfoo  baz\n";
  }

  /** The artifact test looks at the token "##bar", not at the text "bar"
      it covers. */
  lemma MembershipOnTokenScenario(line: string)
    requires line == "1\tfoobar baz"
    ensures TransformLine(line, "all", FooBar, ["bar"], "mask") == Ok("1\tfoobar baz\n")
  {
    FooBarRecord(line, "all", ["bar"], "mask");
    FooBarKept(["bar"], "mask");
    assert "1\t" + "foobar baz" + "\n" == "1\tfoobar baz\n";
  }

  /** A strategy that does not exist stops the run on the first artifact
      token, and goes unnoticed on a record without one. */
  lemma UnknownStrategyScenario(line: string)
    requires line == "1\tfoobar baz"
    ensures TransformLine(line, "all", FooBar, ["##bar"], "frobnicate") == Err(StrategyDoesNotExist("frobnicate"))
    ensures TransformLine(line, "all", FooBar, ["qux"], "frobnicate") == Ok("1\tfoobar baz\n")
  {
    FooBarRecord(line, "all", ["##bar"], "frobnicate");
    CleanTextOutcome("foobar baz", ["foo", "##bar", "baz"], FooBarOffsets, ["##bar"], "frobnicate");
    assert ["foo", "##bar", "baz"][1] in ["##bar"];
    FooBarRecord(line, "all", ["qux"], "frobnicate");
    FooBarKept(["qux"], "frobnicate");
    assert "1\t" + "foobar baz" + "\n" == "1\tfoobar baz\n";
  }

  /** Five tokens with four offset pairs: `offsets[4]` is an `IndexError`. */
  lemma MismatchScenario()
    ensures CleanText("foobar baz qux quux", ["foo", "##bar", "baz", "qux", "quux"], FooBarOffsets + [(11, 14)], ["zzz"], "mask")
      == Err(IndexError)
  {
    CleanTextOutcome("foobar baz qux quux", ["foo", "##bar", "baz", "qux", "quux"], FooBarOffsets + [(11, 14)], ["zzz"], "mask");
  }

  /** Under the "hateful" filter a record labelled "0" is copied, even with
      a strategy that does not exist. */
  lemma PassthroughScenario(line: string)
    requires line == "0\tfoobar baz"
    ensures TransformLine(line, "hateful", FooBar, ["##bar"], "frobnicate") == Ok("0\tfoobar baz\n")
  {
    SplitRecord("0", "foobar baz");
    assert line == "0" + "\t" + "foobar baz";
    assert Split(line, '\t') == ["0", "foobar baz"];
    PassthroughLine(line, "hateful", FooBar, ["##bar"], "frobnicate");
    assert "0" + "\t" + "foobar baz" + "\n" == "0\tfoobar baz\n";
  }

  /** The lines before the failing one are written; nothing after it. */
  lemma AbortScenario(first: string, second: string, third: string)
    requires first == "0\tfoobar baz"
    requires second == "1\tfoobar baz" && third == second
    ensures Run([first, second, third], "hateful", FooBar, ["##bar"], "frobnicate") ==
      Aborted(["0\tfoobar baz\n"], StrategyDoesNotExist("frobnicate"))
  {
    var lines := [first, second, third];
    PassthroughScenario(first);
    FooBarRecord(second, "hateful", ["##bar"], "frobnicate");
    CleanTextOutcome("foobar baz", ["foo", "##bar", "baz"], FooBarOffsets, ["##bar"], "frobnicate");
    assert ["foo", "##bar", "baz"][1] in ["##bar"];
    assert RunPrefix(lines, "hateful", FooBar, ["##bar"], "frobnicate", 1) == Completed(["0\tfoobar baz\n"]);
    assert RunPrefix(lines, "hateful", FooBar, ["##bar"], "frobnicate", 2) ==
      Aborted(["0\tfoobar baz\n"], StrategyDoesNotExist("frobnicate"));
    AbortPersists(lines, "hateful", FooBar, ["##bar"], "frobnicate", 2, 3);
  }
}
