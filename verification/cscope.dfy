/**
 * The cscope back end (cscope/cscope.cpp, cscope/cscope.h): the grammar
 * of cscope's line-oriented output, the reactions that turn its captures
 * into progress reports and locations, and the argument lists of the
 * query and build processes.
 */
module Cscope {
  import opened Globals
  import opened Parser
  import opened StateMachine

  /** Cscope::QueryType: the number given to cscope's -L option. */
  datatype QueryType =
    | References | Definition | CalledFunctions | CallingFunctions
    | Text | EGrepPattern | FindFile | IncludingFiles

  function Code(t: QueryType): (c: nat)
    ensures c <= 8 && c != 5
  {
    match t
    case References => 0
    case Definition => 1
    case CalledFunctions => 2
    case CallingFunctions => 3
    case Text => 4
    case EGrepPattern => 6
    case FindFile => 7
    case IncludingFiles => 8
  }

  /** Distinct query types are distinct cscope options. */
  lemma CodeInjective(a: QueryType, b: QueryType)
    requires Code(a) == Code(b)
    ensures a == b
  {
  }

  // ---- process arguments

  /** flags2Str: a placeholder "-", then "-C" when case is to be ignored. */
  function FlagArgs(flags: bv32): (args: seq<string>)
    ensures |args| >= 1 && args[0] == "-"
    ensures "-C" in args <==> flags & IgnoreCase != 0
    ensures |args| == (if flags & IgnoreCase != 0 then 2 else 1)
  {
    if flags & IgnoreCase != 0 then ["-", "-C"] else ["-"]
  }

  /** The arguments of a query process: -d -v, the flags, -L<code>, the pattern. */
  function QueryArgs(t: QueryType, flags: bv32, pattern: string): (args: seq<string>)
    ensures |args| == 4 + |FlagArgs(flags)|
    ensures args[..2] == ["-d", "-v"] && args[|args| - 1] == pattern
    ensures args[|args| - 2] == "-L" + DecimalText(Code(t))
    ensures args[2..|args| - 2] == FlagArgs(flags)
  {
    ["-d", "-v"] + FlagArgs(flags) + ["-L" + DecimalText(Code(t)), pattern]
  }

  /** The arguments of a build process: the caller's, then -b -v. */
  function BuildArgs(buildArgs: seq<string>): (args: seq<string>)
    ensures |args| == |buildArgs| + 2
    ensures args[..|buildArgs|] == buildArgs && args[|buildArgs|..] == ["-b", "-v"]
  {
    buildArgs + ["-b", "-v"]
  }

  // ---- the grammar

  const BuildInit: nat := 2
  const BuildProgress: nat := 3
  const QueryProgress: nat := 4
  const QueryResults: nat := 5

  /** The reactions, by identity. */
  const BuildProgressAction: Action := Act(0)
  const QueryProgressAction: Action := Act(1)
  const QueryEndAction: Action := Act(2)
  const QueryResultAction: Action := Act(3)

  const BuildInitLine: Matcher := Literal("Building cross-reference...\n")

  /** `Literal(prefix) << Number() << Literal(" of ") << Number() << Literal("\n")` */
  function ProgressLine(prefix: string): Matcher
  {
    Concat(Concat(Concat(Concat(Literal(prefix), Number), Literal(" of ")), Number), Literal("\n"))
  }

  const QueryEndLine: Matcher := Concat(Concat(Literal("cscope: "), Number), Literal(" lines\n"))

  /** File, scope, line number and text, separated by spaces, ending with a newline. */
  const ResultLine: Matcher :=
    Concat(Concat(Concat(Concat(Concat(Concat(Concat(
      Delimited(' ', false), Whitespace), Delimited(' ', false)), Whitespace),
      Number), Whitespace), Delimited('\n', false)), Literal("\n"))

  /** The rules of each state, in the order the Cscope constructor adds them. */
  const BuildInitRules: seq<Transition> := [Transition(BuildInitLine, NoAction, BuildProgress)]

  const BuildProgressRules: seq<Transition> :=
    [Transition(ProgressLine("> Building symbol database "), BuildProgressAction, BuildProgress)]

  const QueryProgressRules: seq<Transition> := [
    Transition(ProgressLine("> Symbols matched "), QueryProgressAction, QueryProgress),
    Transition(ProgressLine("> Possible references retrieved "), QueryProgressAction, QueryProgress),
    Transition(ProgressLine("> Search "), QueryProgressAction, QueryProgress),
    Transition(QueryEndLine, QueryEndAction, QueryResults)]

  const QueryResultsRules: seq<Transition> := [Transition(ResultLine, QueryResultAction, QueryResults)]

  /** The rule graph the Cscope constructor builds, in declaration order. */
  function Grammar(): seq<State>
  {
    [ State("init", []),
      State("error", []),
      State("BuildInit", BuildInitRules),
      State("BuildProgress", BuildProgressRules),
      State("QueryProgress", QueryProgressRules),
      State("QueryResults", QueryResultsRules) ]
  }

  /** A Kleene-free matcher that halts and makes a fixed number of captures. */
  predicate Plain(m: Matcher, count: nat)
  {
    Compiles(m) && !HasKleene(m) && Halts(m) && CapCount(m) == count
  }

  /** A rule matcher the machine accepts, with a fixed number of captures. */
  predicate GoodMatcher(m: Matcher, count: nat)
  {
    Plain(m, count) && Advances(m)
  }

  lemma LeafPlain(text: string, delim: char)
    ensures Plain(Literal(text), 0) && (Advances(Literal(text)) <==> text != [])
    ensures Plain(Number, 1) && Advances(Number)
    ensures Plain(Delimited(delim, false), 1) && Advances(Delimited(delim, false))
    ensures Plain(Whitespace, 0)
  {
  }

  lemma ConcatPlain(a: Matcher, b: Matcher, na: nat, nb: nat)
    requires Plain(a, na) && Plain(b, nb)
    ensures Plain(Concat(a, b), na + nb)
    ensures Advances(Concat(a, b)) <==> Advances(a) || Advances(b)
  {
    assert CapCount(Concat(a, b)) == AddCapCount(na, nb);
  }

  lemma ProgressLineFacts(prefix: string)
    requires prefix != []
    ensures GoodMatcher(ProgressLine(prefix), 2)
  {
    LeafPlain(prefix, ' ');
    LeafPlain(" of ", ' ');
    LeafPlain("\n", ' ');
    var a := Concat(Literal(prefix), Number);
    ConcatPlain(Literal(prefix), Number, 0, 1);
    var b := Concat(a, Literal(" of "));
    ConcatPlain(a, Literal(" of "), 1, 0);
    var c := Concat(b, Number);
    ConcatPlain(b, Number, 1, 1);
    ConcatPlain(c, Literal("\n"), 2, 0);
  }

  lemma LineFacts()
    ensures GoodMatcher(BuildInitLine, 0)
    ensures GoodMatcher(QueryEndLine, 1)
    ensures GoodMatcher(ResultLine, 4)
  {
    LeafPlain("Building cross-reference...\n", ' ');
    LeafPlain("cscope: ", ' ');
    LeafPlain(" lines\n", ' ');
    LeafPlain("\n", '\n');
    var a := Concat(Literal("cscope: "), Number);
    ConcatPlain(Literal("cscope: "), Number, 0, 1);
    ConcatPlain(a, Literal(" lines\n"), 1, 0);
    var r1 := Concat(Delimited(' ', false), Whitespace);
    ConcatPlain(Delimited(' ', false), Whitespace, 1, 0);
    var r2 := Concat(r1, Delimited(' ', false));
    ConcatPlain(r1, Delimited(' ', false), 1, 1);
    var r3 := Concat(r2, Whitespace);
    ConcatPlain(r2, Whitespace, 2, 0);
    var r4 := Concat(r3, Number);
    ConcatPlain(r3, Number, 2, 1);
    var r5 := Concat(r4, Whitespace);
    ConcatPlain(r4, Whitespace, 3, 0);
    var r6 := Concat(r5, Delimited('\n', false));
    ConcatPlain(r5, Delimited('\n', false), 3, 1);
    ConcatPlain(r6, Literal("\n"), 4, 0);
  }

  /** Every rule of a list targets a declared state, halts, advances and makes the captures its reaction reads. */
  predicate GoodRules(rules: seq<Transition>)
  {
    forall j :: 0 <= j < |rules| ==> ValidRule(rules[j], 6) && RuleFits(rules[j])
  }

  lemma BuildRulesGood()
    ensures GoodRules(BuildInitRules) && GoodRules(BuildProgressRules)
  {
    ProgressRuleGood("> Building symbol database ", BuildProgressAction, BuildProgress);
    LineFacts();
  }

  /** A progress-line rule is good for either progress reaction. */
  lemma ProgressRuleGood(prefix: string, action: Action, target: nat)
    requires prefix != [] && target < 6
    requires action == BuildProgressAction || action == QueryProgressAction
    ensures ValidRule(Transition(ProgressLine(prefix), action, target), 6)
    ensures RuleFits(Transition(ProgressLine(prefix), action, target))
  {
    ProgressLineFacts(prefix);
  }

  lemma QueryProgressRulesGood()
    ensures GoodRules(QueryProgressRules)
  {
    ProgressRuleGood("> Symbols matched ", QueryProgressAction, QueryProgress);
    ProgressRuleGood("> Possible references retrieved ", QueryProgressAction, QueryProgress);
    ProgressRuleGood("> Search ", QueryProgressAction, QueryProgress);
    LineFacts();
  }

  lemma QueryResultsRulesGood()
    ensures GoodRules(QueryResultsRules)
  {
    LineFacts();
  }

  /**
   * The grammar is one the machine can run: every rule targets a declared
   * state, counts its captures statically and consumes input. Progress
   * lines capture two numbers, the end line one, a result line four
   * values; progress rules loop on their own state.
   */
  lemma GrammarShape()
    ensures WellFormed(Grammar())
    ensures forall i, j :: 0 <= i < |Grammar()| && 0 <= j < |Grammar()[i].rules| ==> RuleFits(Grammar()[i].rules[j])
    ensures forall j :: 0 <= j < |Grammar()[QueryProgress].rules| - 1 ==>
      Grammar()[QueryProgress].rules[j].target == QueryProgress &&
      Grammar()[QueryProgress].rules[j].action == QueryProgressAction
  {
    BuildRulesGood();
    QueryProgressRulesGood();
    QueryResultsRulesGood();
    var g := Grammar();
    forall i, j | 0 <= i < |g| && 0 <= j < |g[i].rules|
      ensures ValidRule(g[i].rules[j], |g|) && RuleFits(g[i].rules[j])
    {
      assert 2 <= i;
      if i == 2 {
        assert g[i].rules == BuildInitRules;
      } else if i == 3 {
        assert g[i].rules == BuildProgressRules;
      } else if i == 4 {
        assert g[i].rules == QueryProgressRules;
      } else {
        assert g[i].rules == QueryResultsRules;
      }
    }
  }

  // ---- reactions

  /** A call of the connection's onProgress: a message, the current and the total count. */
  datatype Progress = Progress(text: string, current: nat, total: nat)

  /**
   * The location a result line describes. The second field is the scope
   * for reference and call queries, the symbol name for definitions, and
   * is dropped for every other query type.
   */
  function ResultLocation(t: QueryType, caps: seq<Cap>): (loc: Location)
    requires |caps| >= 4
    ensures loc.file == CapText(caps[0]) && loc.line == CapUInt(caps[2])
    ensures loc.column == 0 && loc.text == CapText(caps[3]) && loc.tag.kind == UnknownTag
    ensures loc.tag.scope == (if t in {References, CalledFunctions, CallingFunctions} then CapText(caps[1]) else [])
    ensures loc.tag.name == (if t == Definition then CapText(caps[1]) else [])
  {
    var base := Location(CapText(caps[0]), CapUInt(caps[2]), 0, EmptyTag(), CapText(caps[3]));
    match t
    case References => base.(tag := base.tag.(scope := CapText(caps[1])))
    case CalledFunctions => base.(tag := base.tag.(scope := CapText(caps[1])))
    case CallingFunctions => base.(tag := base.tag.(scope := CapText(caps[1])))
    case Definition => base.(tag := base.tag.(name := CapText(caps[1])))
    case _ => base
  }

  /** Result parsing reports progress once every 256 results (`(resParsed_ & 0xff) == 0`). */
  predicate ReportsAt(parsed: nat)
  {
    parsed % 256 == 0
  }

  /** `s.remove('\r')`: every carriage return dropped, the rest kept in order. */
  function RemoveReturns(s: string): (r: string)
    ensures '\r' !in r && |r| <= |s|
    ensures forall c :: c != '\r' ==> (c in r <==> c in s)
  {
    if s == [] then []
    else if s[0] == '\r' then RemoveReturns(s[1..])
    else [s[0]] + RemoveReturns(s[1..])
  }

  // ---- building the rule graph, as the Cscope constructor does

  /** The four states the constructor declares, before any rule is added. */
  method DeclareStates() returns (m: StateMachine.Machine)
    ensures fresh(m) && m.Valid() && m.cur == InitState && m.trace == []
    ensures m.states == [Grammar()[0], Grammar()[1], State("BuildInit", []), State("BuildProgress", []),
                         State("QueryProgress", []), State("QueryResults", [])]
  {
    m := new StateMachine.Machine();
    var buildInit := m.AddState("BuildInit");
    var buildProg := m.AddState("BuildProgress");
    var queryProg := m.AddState("QueryProgress");
    var queryResult := m.AddState("QueryResults");
  }

  /** The build rules: the start line, then database progress lines looping on their state. */
  method AddBuildRules(m: StateMachine.Machine)
    requires m.Valid()
    requires m.states == [Grammar()[0], Grammar()[1], State("BuildInit", []), State("BuildProgress", []),
                          State("QueryProgress", []), State("QueryResults", [])]
    modifies m
    ensures m.Valid() && m.cur == old(m.cur) && m.trace == old(m.trace)
    ensures m.states == Grammar()[..4] + [State("QueryProgress", []), State("QueryResults", [])]
  {
    BuildRulesGood();
    assert ValidRule(BuildInitRules[0], 6) && ValidRule(BuildProgressRules[0], 6);
    m.AddRule(BuildInit, BuildInitLine, BuildProgress, NoAction);
    m.AddRule(BuildProgress, ProgressLine("> Building symbol database "), BuildProgress, BuildProgressAction);
    ghost var g := Grammar();
    assert m.states[2].rules == BuildInitRules && m.states[3].rules == BuildProgressRules;
    assert m.states == [g[0], g[1], g[2], g[3], State("QueryProgress", []), State("QueryResults", [])];
  }

  /** The query rules: three progress lines and the end line, tried in that order. */
  method AddQueryRules(m: StateMachine.Machine)
    requires m.Valid()
    requires m.states == Grammar()[..4] + [State("QueryProgress", []), State("QueryResults", [])]
    modifies m
    ensures m.Valid() && m.cur == old(m.cur) && m.trace == old(m.trace)
    ensures m.states == Grammar()[..5] + [State("QueryResults", [])]
  {
    QueryProgressRulesGood();
    ghost var rules := QueryProgressRules;
    assert ValidRule(rules[0], 6) && ValidRule(rules[1], 6) && ValidRule(rules[2], 6) && ValidRule(rules[3], 6);
    m.AddRule(QueryProgress, ProgressLine("> Symbols matched "), QueryProgress, QueryProgressAction);
    m.AddRule(QueryProgress, ProgressLine("> Possible references retrieved "), QueryProgress, QueryProgressAction);
    m.AddRule(QueryProgress, ProgressLine("> Search "), QueryProgress, QueryProgressAction);
    m.AddRule(QueryProgress, QueryEndLine, QueryResults, QueryEndAction);
    ghost var g := Grammar();
    assert m.states[4].rules == rules;
    assert m.states == [g[0], g[1], g[2], g[3], g[4], State("QueryResults", [])];
  }

  /** The result rule, looping on the results state. */
  method AddResultRule(m: StateMachine.Machine)
    requires m.Valid()
    requires m.states == Grammar()[..5] + [State("QueryResults", [])]
    modifies m
    ensures m.Valid() && m.cur == old(m.cur) && m.trace == old(m.trace)
    ensures m.states == Grammar()
  {
    QueryResultsRulesGood();
    assert ValidRule(QueryResultsRules[0], 6);
    m.AddRule(QueryResults, ResultLine, QueryResults, QueryResultAction);
    ghost var g := Grammar();
    assert m.states[5].rules == QueryResultsRules;
    assert m.states == [g[0], g[1], g[2], g[3], g[4], g[5]];
  }

  /** The Cscope process object: its parser, its connection and the results collected. */
  class CscopeProcess {
    var machine: StateMachine.Machine
    var running: bool
    var connected: bool
    var queryType: QueryType
    var resNum: nat
    var resParsed: nat
    var locList: seq<Location>
    var reports: seq<Progress>
    var started: seq<string>
    var buffer: string
    var parseErrors: nat

    predicate Valid()
      reads this, machine
    {
      machine.Valid() && machine.states == Grammar()
    }

    /** Cscope::Cscope: builds the rule graph by successive addRule calls. */
    constructor ()
      ensures Valid() && fresh(machine)
      ensures machine.cur == InitState && machine.trace == []
      ensures !running && !connected && locList == [] && reports == [] && buffer == []
    {
      var m := DeclareStates();
      AddBuildRules(m);
      AddQueryRules(m);
      AddResultRule(m);
      machine := m;
      running := false;
      connected := false;
      queryType := References;
      resNum := 0;
      resParsed := 0;
      locList := [];
      reports := [];
      started := [];
      buffer := [];
      parseErrors := 0;
    }

    /**
     * query: refused while a process runs or a connection is attached;
     * otherwise starts parsing in the query-progress state with an empty
     * result list and starts cscope with the query's arguments.
     */
    method Query(t: QueryType, flags: bv32, pattern: string) returns (ok: bool)
      requires Valid()
      modifies this, machine
      ensures Valid() && machine.trace == old(machine.trace)
      ensures ok == (!old(running) && !old(connected))
      ensures !ok ==> (machine.cur == old(machine.cur) && locList == old(locList) && started == old(started)
                       && running == old(running) && connected == old(connected) && queryType == old(queryType))
      ensures ok ==> (machine.cur == QueryProgress && locList == [] && queryType == t
                      && connected && running && started == QueryArgs(t, flags, pattern))
      ensures buffer == old(buffer) && reports == old(reports) && resNum == old(resNum) && resParsed == old(resParsed)
    {
      if running || connected {
        return false;
      }
      var args := QueryArgs(t, flags, pattern);
      connected := true;
      machine.SetState(QueryProgress);
      locList := [];
      queryType := t;
      started := args;
      running := true;
      ok := true;
    }

    /** build: the same guard; parsing starts in the build-init state. */
    method Build(buildArgs: seq<string>) returns (ok: bool)
      requires Valid()
      modifies this, machine
      ensures Valid() && machine.trace == old(machine.trace)
      ensures ok == (!old(running) && !old(connected))
      ensures !ok ==> (machine.cur == old(machine.cur) && started == old(started)
                       && running == old(running) && connected == old(connected))
      ensures ok ==> machine.cur == BuildInit && connected && running && started == BuildArgs(buildArgs)
      ensures locList == old(locList) && queryType == old(queryType) && buffer == old(buffer)
      ensures reports == old(reports) && resNum == old(resNum) && resParsed == old(resParsed)
    {
      if running || connected {
        return false;
      }
      var args := BuildArgs(buildArgs);
      connected := true;
      machine.SetState(BuildInit);
      started := args;
      running := true;
      ok := true;
    }

    /** ProgAction: reports its message with the two captured numbers. */
    method ProgAction(text: string, caps: seq<Cap>)
      requires |caps| >= 2
      modifies this
      ensures reports == old(reports) + [Progress(text, CapUInt(caps[0]), CapUInt(caps[1]))]
      ensures locList == old(locList) && resNum == old(resNum) && resParsed == old(resParsed)
      ensures machine == old(machine) && queryType == old(queryType) && buffer == old(buffer)
      ensures parseErrors == old(parseErrors)
    {
      reports := reports + [Progress(text, CapUInt(caps[0]), CapUInt(caps[1]))];
    }

    /** QueryEndAction: records the number of results to come and restarts the count. */
    method QueryEnd(caps: seq<Cap>)
      requires |caps| >= 1
      modifies this
      ensures resNum == CapUInt(caps[0]) && resParsed == 0
      ensures reports == old(reports) + [Progress("Parsing...", 0, resNum)]
      ensures locList == old(locList) && machine == old(machine) && queryType == old(queryType) && buffer == old(buffer)
      ensures parseErrors == old(parseErrors)
    {
      resNum := CapUInt(caps[0]);
      resParsed := 0;
      reports := reports + [Progress("Parsing...", 0, resNum)];
    }

    /** QueryResultAction: appends one location, counts it, and reports every 256th. */
    method QueryResult(caps: seq<Cap>)
      requires |caps| >= 4
      modifies this
      ensures locList == old(locList) + [ResultLocation(queryType, caps)]
      ensures resParsed == old(resParsed) + 1 && resNum == old(resNum)
      ensures reports == old(reports) + (if ReportsAt(resParsed) then [Progress("Parsing...", resParsed, resNum)] else [])
      ensures machine == old(machine) && queryType == old(queryType) && buffer == old(buffer)
      ensures parseErrors == old(parseErrors)
    {
      locList := locList + [ResultLocation(queryType, caps)];
      resParsed := resParsed + 1;
      if resParsed % 256 == 0 {
        reports := reports + [Progress("Parsing...", resParsed, resNum)];
      }
    }

    /** Runs the reaction an event names, with the captures it was handed. */
    method React(e: Event)
      requires EventFits(e)
      modifies this
      ensures machine == old(machine) && queryType == old(queryType) && buffer == old(buffer)
      ensures parseErrors == old(parseErrors)
      ensures locList == old(locList) + ResultsOf(queryType, [e])
    {
      if e.action == BuildProgressAction {
        ProgAction("Building database...", e.caps);
      } else if e.action == QueryProgressAction {
        ProgAction("Querying...", e.caps);
      } else if e.action == QueryEndAction {
        QueryEnd(e.caps);
      } else if e.action == QueryResultAction {
        QueryResult(e.caps);
      }
    }

    /** Runs the reactions of a parse in the order they fired. */
    method ReactAll(events: seq<Event>)
      requires forall e :: e in events ==> EventFits(e)
      modifies this
      ensures machine == old(machine) && queryType == old(queryType) && buffer == old(buffer)
      ensures parseErrors == old(parseErrors)
      ensures locList == old(locList) + ResultsOf(queryType, events)
    {
      var i := 0;
      while i < |events|
        invariant 0 <= i <= |events|
        invariant machine == old(machine) && queryType == old(queryType) && buffer == old(buffer)
        invariant parseErrors == old(parseErrors)
        invariant locList == old(locList) + ResultsOf(queryType, events[..i])
      {
        React(events[i]);
        ResultsOfSnoc(queryType, events[..i], events[i]);
        assert events[..i + 1] == events[..i] + [events[i]];
        i := i + 1;
      }
      assert events[..i] == events;
    }

    /**
     * Process::readStandardOutput: appends the new output, drops carriage
     * returns, parses, and signals a parse error when parse fails. The
     * reactions that ran during the parse are applied in the order they
     * fired; the result list grows by one location per result line.
     */
    method OnOutput(chunk: string) returns (ok: bool)
      requires Valid()
      modifies this, machine
      ensures Valid()
      ensures var run := ParseInput(Grammar(), old(machine.cur), RemoveReturns(old(buffer) + chunk));
        && (forall e :: e in run.events ==> EventFits(e))
        && ok == run.ok && buffer == run.rest && machine.cur == run.state
        && machine.trace == old(machine.trace) + run.events
        && locList == old(locList) + ResultsOf(old(queryType), run.events)
        && parseErrors == old(parseErrors) + (if ok then 0 else 1)
    {
      GrammarShape();
      buffer := RemoveReturns(buffer + chunk);
      var before := machine.trace;
      ParseEventsFit(machine.cur, buffer);
      var rest;
      ok, rest := machine.Parse(buffer);
      buffer := rest;
      var events := machine.trace[|before|..];
      assert machine.trace == before + events;
      ReactAll(events);
      if !ok {
        parseErrors := parseErrors + 1;
      }
    }

    /**
     * handleFinished: hands the collected locations to the connection
     * when there are any, then detaches from it; the list itself stays.
     * Once detached the object accepts a new query or build.
     */
    method HandleFinished() returns (dataReady: Option<seq<Location>>)
      requires Valid()
      modifies this
      ensures Valid()
      ensures dataReady.None? <==> locList == []
      ensures dataReady.Some? ==> dataReady.value == locList
      ensures !running && !connected
      ensures locList == old(locList) && machine == old(machine) && buffer == old(buffer)
      ensures reports == old(reports) && resNum == old(resNum) && resParsed == old(resParsed)
    {
      running := false;
      dataReady := if locList == [] then None else Some(locList);
      connected := false;
    }
  }

  /** The number of captures each reaction reads. */
  predicate EventFits(e: Event)
  {
    && (e.action == BuildProgressAction || e.action == QueryProgressAction ==> |e.caps| == 2)
    && (e.action == QueryEndAction ==> |e.caps| == 1)
    && (e.action == QueryResultAction ==> |e.caps| == 4)
  }

  /** The locations the result-line reactions among evs append, in order. */
  function ResultsOf(t: QueryType, evs: seq<Event>): (locs: seq<Location>)
    requires forall e :: e in evs ==> EventFits(e)
    ensures |locs| <= |evs|
  {
    if evs == [] then []
    else
      var e := evs[|evs| - 1];
      assert e in evs;
      assert EventFits(e);
      assert forall x :: x in evs[..|evs| - 1] ==> x in evs;
      ResultsOf(t, evs[..|evs| - 1]) + (if e.action == QueryResultAction then [ResultLocation(t, e.caps)] else [])
  }

  lemma ResultsOfSnoc(t: QueryType, evs: seq<Event>, e: Event)
    requires forall x :: x in evs ==> EventFits(x)
    requires EventFits(e)
    ensures ResultsOf(t, evs + [e]) == ResultsOf(t, evs) + ResultsOf(t, [e])
  {
    assert (evs + [e])[..|evs|] == evs;
    assert [e][..0] == [];
  }

  /** Each rule's reaction is one that reads exactly as many captures as its matcher makes. */
  predicate RuleFits(t: Transition)
  {
    && Compiles(t.matcher) && !HasKleene(t.matcher)
    && (t.action == BuildProgressAction || t.action == QueryProgressAction ==> CapCount(t.matcher) == 2)
    && (t.action == QueryEndAction ==> CapCount(t.matcher) == 1)
    && (t.action == QueryResultAction ==> CapCount(t.matcher) == 4)
  }

  /** Every reaction the cscope grammar runs is handed the captures it reads. */
  lemma {:induction false} LoopEventsFit(cur: nat, input: string, pos: nat)
    requires WellFormed(Grammar()) && cur < |Grammar()| && pos <= |input|
    ensures forall e :: e in Loop(Grammar(), cur, input, pos).events ==> EventFits(e)
    decreases |input| - pos
  {
    if pos < |input| {
      var rules := Grammar()[cur].rules;
      var s := ScanRules(rules, input, pos, 0, false);
      if s.Taken? {
        var t := rules[s.rule];
        GrammarShape();
        assert RuleFits(t);
        CapturesBoundedByCount(t.matcher, input, pos);
        LoopEventsFit(t.target, input, s.pos);
      }
    }
  }

  lemma ParseEventsFit(cur: nat, input: string)
    requires WellFormed(Grammar()) && cur < |Grammar()|
    ensures forall e :: e in ParseInput(Grammar(), cur, input).events ==> EventFits(e)
  {
    if !IsError(Grammar()[cur]) {
      LoopEventsFit(cur, input, 0);
    }
  }
}
