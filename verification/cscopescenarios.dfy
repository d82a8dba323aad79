/**
 * Concrete runs of the cscope grammar: what one read of cscope's output
 * does to the parser state and which reactions it fires.
 */
module CscopeScenarios {
  import opened Globals
  import opened Parser
  import opened StateMachine
  import opened Cscope

  /** The build start line moves the parser to the progress state and fires no reaction. */
  lemma BuildStartLine()
    ensures WellFormed(Grammar())
    ensures ParseInput(Grammar(), BuildInit, "Building cross-reference...\n")
      == ParseRun(true, BuildProgress, "", [Fired(NoAction, [])])
  {
    GrammarShape();
    var input := "Building cross-reference...\n";
    assert Attempt(Grammar()[BuildInit].rules[0], input, 0) == Outcome(FullMatch, |input|, []);
    assert ScanRules(Grammar()[BuildInit].rules, input, 0, 0, false) == Taken(0, |input|, []);
  }

  /** A progress line whose leading text does not fully match answers as that text does. */
  lemma ProgressLineStopsAtPrefix(prefix: string, input: string, pos: nat)
    requires pos <= |input| && Run(Literal(prefix), input, pos).result != FullMatch
    ensures Run(ProgressLine(prefix), input, pos) == Run(Literal(prefix), input, pos)
  {
    var a := Concat(Literal(prefix), Number);
    var b := Concat(a, Literal(" of "));
    var c := Concat(b, Number);
    assert Run(a, input, pos) == Run(Literal(prefix), input, pos);
    assert Run(b, input, pos) == Run(a, input, pos);
    assert Run(c, input, pos) == Run(b, input, pos);
  }

  /** A text that differs from another at some index is not a prefix of it. */
  lemma NotPrefixAt(a: string, b: string, k: nat)
    requires k < |a| && k < |b| && a[k] != b[k]
    ensures !(a <= b)
  {
  }

  /** How each query-progress rule answers the first five characters of "> Search ". */
  lemma SplitProgressLineAttempts()
    ensures GoodRules(QueryProgressRules)
    ensures Attempt(QueryProgressRules[0], "> Sea", 0).result == NoMatch
    ensures Attempt(QueryProgressRules[1], "> Sea", 0).result == NoMatch
    ensures Attempt(QueryProgressRules[2], "> Sea", 0).result == PartialMatch
    ensures Attempt(QueryProgressRules[3], "> Sea", 0).result == NoMatch
  {
    QueryProgressRulesGood();
    var input := "> Sea";
    NotPrefixAt(input, "> Symbols matched ", 3);
    NotPrefixAt(input, "> Possible references retrieved ", 2);
    assert "> Search "[..5] == input;
    NotPrefixAt(input, "cscope: ", 0);
    ProgressLineStopsAtPrefix("> Symbols matched ", input, 0);
    ProgressLineStopsAtPrefix("> Possible references retrieved ", input, 0);
    ProgressLineStopsAtPrefix("> Search ", input, 0);
    var e := Concat(Literal("cscope: "), Number);
    assert Run(e, input, 0) == Run(Literal("cscope: "), input, 0);
  }

  /** A progress line cut short by the read boundary is kept for the next read. */
  lemma SplitProgressLineWaits()
    ensures WellFormed(Grammar())
    ensures ParseInput(Grammar(), QueryProgress, "> Sea") == ParseRun(true, QueryProgress, "> Sea", [])
  {
    GrammarShape();
    SplitProgressLineAttempts();
    var input := "> Sea";
    var rules := Grammar()[QueryProgress].rules;
    assert rules == QueryProgressRules;
    assert ScanRules(rules, input, 0, 4, true) == NeedMore;
    assert ScanRules(rules, input, 0, 3, true) == NeedMore;
    assert ScanRules(rules, input, 0, 2, false) == NeedMore;
    assert ScanRules(rules, input, 0, 1, false) == NeedMore;
    assert ScanRules(rules, input, 0, 0, false) == NeedMore;
    assert input[0..] == input;
  }

  /**
   * Literal matching is anchored at the start of the whole buffer: once
   * the start line has been consumed, a progress line cut short by the
   * read boundary is no longer recognised as a partial match, and the
   * parse fails with the whole buffer left in place.
   */
  lemma SplitLineAfterStartLineFails()
    ensures WellFormed(Grammar())
    ensures ParseInput(Grammar(), BuildInit, "Building cross-reference...\n> Buil")
      == ParseRun(false, ErrorState, "Building cross-reference...\n> Buil", [Fired(NoAction, [])])
  {
    GrammarShape();
    var input := "Building cross-reference...\n> Buil";
    var prefix := "> Building symbol database ";
    assert Attempt(Grammar()[BuildInit].rules[0], input, 0) == Outcome(FullMatch, 28, []);
    assert ScanRules(Grammar()[BuildInit].rules, input, 0, 0, false) == Taken(0, 28, []);
    assert Mid(input, 28, |prefix|) == "> Buil";
    assert Run(Literal(prefix), input, 28) == Outcome(NoMatch, 28, []);
    ProgressLineStopsAtPrefix(prefix, input, 28);
    var rules := Grammar()[BuildProgress].rules;
    assert ScanRules(rules, input, 28, 1, false) == NoRule;
    assert ScanRules(rules, input, 28, 0, false) == NoRule;
  }

  /** The captures of the result line "a.c f 7 x". */
  function DefinitionCaps(): seq<Cap>
  {
    [TextCap("a.c"), TextCap("f"), NumCap(7), TextCap("x")]
  }

  /** A sequence whose first part matches fully answers as its second part does from there. */
  lemma ConcatAfterFull(a: Matcher, b: Matcher, input: string, pos: nat, mid: nat, ca: seq<Cap>)
    requires pos <= |input| && Run(a, input, pos) == Outcome(FullMatch, mid, ca)
    requires Run(b, input, mid).Outcome?
    ensures var ob := Run(b, input, mid);
      Run(Concat(a, b), input, pos) == Outcome(ob.result, ob.pos, ca + ob.caps)
  {
  }

  /** The parts of the result line "a.c f 7 x", each where the previous one stops. */
  lemma ResultLineParts()
    ensures Run(Delimited(' ', false), "a.c f 7 x\n", 0) == Outcome(FullMatch, 3, [TextCap("a.c")])
    ensures Run(Whitespace, "a.c f 7 x\n", 3) == Outcome(FullMatch, 4, [])
    ensures Run(Delimited(' ', false), "a.c f 7 x\n", 4) == Outcome(FullMatch, 5, [TextCap("f")])
    ensures Run(Whitespace, "a.c f 7 x\n", 5) == Outcome(FullMatch, 6, [])
    ensures Run(Number, "a.c f 7 x\n", 6) == Outcome(FullMatch, 7, [NumCap(7)])
    ensures Run(Whitespace, "a.c f 7 x\n", 7) == Outcome(FullMatch, 8, [])
    ensures Run(Delimited('\n', false), "a.c f 7 x\n", 8) == Outcome(FullMatch, 9, [TextCap("x")])
    ensures Run(Literal("\n"), "a.c f 7 x\n", 9) == Outcome(FullMatch, 10, [])
  {
    var input := "a.c f 7 x\n";
    assert IndexOf(input, ' ', 0) == 3 && input[0..3] == "a.c";
    assert IndexOf(input, ' ', 4) == 5 && input[4..5] == "f";
    assert MatchNumber(input, 7, 7, true) == Outcome(FullMatch, 7, [NumCap(7)]);
    assert IndexOf(input, '\n', 8) == 9 && input[8..9] == "x";
    assert Mid(input, 9, 1) == "\n";
  }

  /** The whole result line "a.c f 7 x" matches fully with its four captures. */
  lemma ResultLineRun()
    ensures Run(ResultLine, "a.c f 7 x\n", 0) == Outcome(FullMatch, 10, DefinitionCaps())
  {
    ResultLineParts();
    var input := "a.c f 7 x\n";
    var r1 := Concat(Delimited(' ', false), Whitespace);
    ConcatAfterFull(Delimited(' ', false), Whitespace, input, 0, 3, [TextCap("a.c")]);
    var r2 := Concat(r1, Delimited(' ', false));
    ConcatAfterFull(r1, Delimited(' ', false), input, 0, 4, [TextCap("a.c")]);
    var r3 := Concat(r2, Whitespace);
    ConcatAfterFull(r2, Whitespace, input, 0, 5, [TextCap("a.c"), TextCap("f")]);
    var r4 := Concat(r3, Number);
    ConcatAfterFull(r3, Number, input, 0, 6, [TextCap("a.c"), TextCap("f")]);
    var r5 := Concat(r4, Whitespace);
    ConcatAfterFull(r4, Whitespace, input, 0, 7, [TextCap("a.c"), TextCap("f"), NumCap(7)]);
    var r6 := Concat(r5, Delimited('\n', false));
    ConcatAfterFull(r5, Delimited('\n', false), input, 0, 8, [TextCap("a.c"), TextCap("f"), NumCap(7)]);
    ConcatAfterFull(r6, Literal("\n"), input, 0, 9, DefinitionCaps());
  }

  /**
   * A result line of a definition query fires one result reaction with
   * file, symbol, line and text; the location it adds names the symbol
   * and leaves the scope empty.
   */
  lemma DefinitionResultLine()
    ensures WellFormed(Grammar())
    ensures var run := ParseInput(Grammar(), QueryResults, "a.c f 7 x\n");
      && run == ParseRun(true, QueryResults, "", [Fired(QueryResultAction, DefinitionCaps())])
      && ResultsOf(Definition, run.events) == [Location("a.c", 7, 0, Tag("f", UnknownTag, []), "x")]
  {
    GrammarShape();
    QueryResultsRulesGood();
    ResultLineRun();
    var input := "a.c f 7 x\n";
    var caps := DefinitionCaps();
    assert Grammar()[QueryResults].rules == QueryResultsRules;
    assert ScanRules(QueryResultsRules, input, 0, 0, false) == Taken(0, 10, caps);
    assert Loop(Grammar(), QueryResults, input, 10) == ParseRun(true, QueryResults, "", []);
    var e := Fired(QueryResultAction, caps);
    assert ResultsOf(Definition, [e]) == ResultsOf(Definition, []) + [ResultLocation(Definition, caps)];
  }
}
