# kscope core in Dafny

This project models the core of kscope, a Qt front end for the cscope and
ctags source-code indexers, and proves properties of the model. It covers:

- the incremental output parser (`core/parser.h`): the matcher algebra,
  with its capture lists and its tri-state answer (no match, partial match,
  full match);
- the state machine that drives the parser over the output of a tool
  process (`core/statemachine.h`);
- the cscope and ctags grammars and the reactions that turn their output
  into locations (`cscope/cscope.h`, `cscope/cscope.cpp`, `cscope/ctags.h`);
- the cscope engine object: opening a database, its status and the
  dispatch of queries (`cscope/crossref.cpp`);
- the project object, with its two-step opening (`core/project.h`);
- the shared values: locations, tags and queries (`core/globals.h`);
- the navigation history (`app/locationhistory.h`) and the list of recent
  projects (`app/settings.cpp`);
- the file-filter rule list (`core/filefilter.h`);
- the generic tree (`core/treeitem.h`), the code-base file tree
  (`core/codebasemodel.cpp`), and the list and tree location models with
  their shared display logic (`core/locationlistmodel.cpp`,
  `core/locationtreemodel.cpp`, `core/locationmodel.cpp`);
- the Vi emulation of the editor (`editor/viscintilla.h`,
  `editor/viscintilla.cpp`): its command sequence buffer, its commands
  and its key handling.

Each source file becomes one module. Objects whose methods update fields
in place are classes with `modifies` clauses, except the generic tree of
`core/treeitem.h`, which is a value (see "Left out"). Their methods are proved
against specification functions, for example `ensures Vec() ==
PushAll(old(Vec()), caps)`, and the functions carry the lemmas. Code
made of expressions and recursion is modelled as functions.

## Model

| member | source | states |
|---|---|---|
| Globals.EmptyTag | core/globals.h:85 | a default tag has an empty name and scope and the unknown type |
| Globals.EmptyLocation | core/globals.h:150 | a default location is invalid, at line 0 and column 0, with a default tag |
| Globals.SameLocationIsEquivalence | core/globals.h:173-177 | location equality (file, line, column) is reflexive, symmetric and transitive |
| Globals.SameLocationIgnoresTagAndText | core/globals.h:165-177 | changing the tag or the text changes neither equality nor validity |
| Globals.DefaultQuery | core/globals.h:248 | a default query has the invalid type and an empty pattern |
| Globals.TagName | core/strings.h:45-88 | a tag type's display name is empty exactly for the unknown type |
| Globals.TagNameInjective | core/strings.h:45-88 | different tag types have different display names |
| Globals.DigitValue | core/parser.h:250 | a digit's value is below 10 |
| Globals.DigitChar | core/parser.h:250 | the digit character of a value below 10 reads back as that value |
| Globals.DecimalText | core/parser.h:259 | a number's decimal text is a non-empty run of digits |
| Globals.DecimalOfText | core/parser.h:259-266 | reading back a number's decimal text gives the number |
| Globals.ParseUInt | cscope/ctags.h:104 | `toUInt` on a captured text succeeds exactly on a non-empty all-digit string whose value fits in 32 bits, with that value, and yields 0 otherwise |
| Globals.ParseUIntOfDecimalText | cscope/cscope.h:145-146 | converting a number's decimal text succeeds with the number exactly when it fits in 32 bits |
| Globals.StartsWith | core/codebasemodel.cpp:155 | the prefix test holds exactly when the prefix is the string's first characters |
| Globals.EndsWith | core/locationmodel.cpp:56 | a string that ends with a character is not empty |
| Globals.FirstIndex | core/codebasemodel.cpp:160 | the result is the position of the first separator, or the length when there is none |
| Globals.Split | core/codebasemodel.cpp:160 | the parts of a split with empty parts skipped are non-empty and free of the separator |
| Globals.SplitAround | core/codebasemodel.cpp:160 | a separator splits the text into the parts before it followed by the parts after it |
| Globals.SplitFirst | core/codebasemodel.cpp:160 | a text with a separator splits into the piece before its first separator, skipped when empty, followed by the split of the rest |
| Globals.SplitAroundPiece | core/codebasemodel.cpp:160 | a separator after a text without separators splits into that text's parts followed by the parts after it |
| Globals.SplitAroundHead | core/codebasemodel.cpp:160 | text before a separator that has a separator of its own contributes its first piece and then splits on |
| Globals.SplitAroundStep | core/codebasemodel.cpp:160 | splitting around a separator holds for a text once it holds for what follows the text's first separator |
| Globals.FirstIndexOfPrefix | core/codebasemodel.cpp:160 | text appended after a prefix does not move the first separator found in the prefix |
| Globals.SplitPiece | core/codebasemodel.cpp:160 | a piece without separators splits into itself, or into nothing when it is empty |
| Globals.SplitCollapses | core/codebasemodel.cpp:160 | repeated separators split like a single one |
| Globals.IsValid | core/globals.h:165 | a location is valid exactly when its file name is not empty |
| Globals.SameLocation | core/globals.h:173-177 | location equality compares file, line and column and nothing else |
| Globals.IsDigit | core/parser.h:250 | a digit is one of '0' to '9' (ASCII only, see "Left out") |
| Globals.Decimal | core/parser.h:259-266 | the value of a digit string, most significant digit first, as the Number loop accumulates it |
| Parser.CapTextUInt | core/parser.h:259 | a captured number turned into text converts back to the same number when it fits in 32 bits, and fails otherwise |
| Parser.Mid | core/parser.h:208 | `mid(pos, n)` gives at most n characters of the text from pos, and exactly n when there are enough |
| Parser.MatchNumber | core/parser.h:239-273 | Number's loop stays within the input and never moves backwards |
| Parser.DigitRun | core/parser.h:248-269 | the digit run at a position is all digits and ends on a non-digit or at the end |
| Parser.IndexOf | core/parser.h:303 | `indexOf` gives the first occurrence at or after the start, or -1 when there is none |
| Parser.SkipSpaces | core/parser.h:345-346 | Whitespace skips exactly the spaces from the position on |
| Parser.Run | core/parser.h:194-397 | a matcher that returns leaves the position within the input and never moves it backwards |
| Parser.RunKleene | core/parser.h:388-397 | a Kleene star that returns never answers NoMatch |
| Parser.AddCapCount | core/parser.h:133-155 | the sum of two known counts, -1 when one of them is unknown |
| Parser.CapCount | core/parser.h:133-155 | the capture count is -1 exactly for an expression with a Kleene star (the count the comments at `core/parser.h:46-51` and `core/parser.h:126-132` give a star; see "Left out") |
| Parser.CapturesBoundedByCount | core/parser.h:126-155 | without a star, a full match captures exactly capCount_ values and any other answer captures no more |
| Parser.NumberCaptures | core/parser.h:259 | Number captures one value on a full match and nothing otherwise |
| Parser.NumberAdvances | core/parser.h:248-272 | a full Number match consumes at least one digit |
| Parser.HaltsSound | core/parser.h:363-397 | a matcher whose stars all have advancing bodies always returns, and advances when it should |
| Parser.KleeneHalts | core/parser.h:388-397 | a star over an advancing body always returns |
| Parser.KleeneOfEmptyMatchDiverges | core/parser.h:338-349 | a star over Whitespace or over the empty literal never returns |
| Parser.LiteralSpec | core/parser.h:194-217 | Literal matches fully exactly when the literal is at pos, and partially exactly when the whole input is a shorter prefix of it |
| Parser.LiteralPrefixAfterConsumedText | core/parser.h:203-204 | a prefix of the literal after consumed text is rejected instead of waiting for more input |
| Parser.NumberSpec | core/parser.h:239-273 | Number takes the maximal digit run: none is NoMatch, a run reaching the end is PartialMatch, otherwise FullMatch with its value |
| Parser.NumberLoop | core/parser.h:248-272 | each iteration of Number's loop keeps the number equal to the value of the digits read |
| Parser.DecimalSnoc | core/parser.h:263-268 | reading one more digit multiplies the value so far by ten and adds the digit |
| Parser.NumberAt | core/parser.h:249-272 | once the digit run has ended, Number matches fully exactly when it read a digit and the run stops before the end of the input |
| Parser.DelimitedSpec | core/parser.h:294-318 | String captures the text up to the first delimiter and stops on it; no delimiter is PartialMatch, an empty string where refused is NoMatch |
| Parser.WhitespaceSpec | core/parser.h:338-349 | Whitespace always matches fully, captures nothing and stops on the first non-space |
| Parser.ConcatSpec | core/parser.h:363-369 | Concat runs its second part only after a full match of the first, and joins the captures |
| Parser.KleeneSpec | core/parser.h:388-397 | a star never answers NoMatch, and a body that does not match gives zero repetitions |
| Parser.CapUInt | cscope/ctags.h:104 | `toUInt` of a capture: a number as is, a digit string by its value if it fits 32 bits, anything else 0 |
| Parser.CapText | cscope/ctags.h:102-103 | `toString` of a capture: a number in decimal, a string as is, the null value as the empty string |
| Parser.MatchLiteral | core/parser.h:194-217 | a literal matches fully at pos when the text there equals it, partially when the whole input is shorter and a prefix of it, otherwise not at all |
| Parser.MatchDelimited | core/parser.h:294-318 | an empty input or one without the delimiter after pos waits for more; an empty capture is refused unless allowed; otherwise the text up to the delimiter is captured and pos moves to the delimiter |
| Parser.IsSpace | core/parser.h:345 | the whitespace characters: space, tab, line feed, vertical tab, form feed and carriage return |
| Parser.HasKleene | core/parser.h:143-155 | whether a matcher's capture count is unknown (-1) because it holds a Kleene star |
| Parser.Compiles | core/parser.h:133-155 | a concatenation of two matchers whose capture counts are both unknown has no count |
| ParserImpl.Nulls | core/parser.h:75 | a pre-sized vector holds n empty values |
| ParserImpl.FreshList | core/parser.h:68-75 | a new capture list has no used slots |
| ParserImpl.Odds | core/parser.h:84-91 | the odd-numbered values are half of the values |
| ParserImpl.UnsizedAppendOverwrites | core/parser.h:84-91 | appending two values to an unsized list keeps only the second |
| ParserImpl.UnsizedAsWrittenKeepsOdds | core/parser.h:84-91 | an unsized list appended an even number of values keeps only the odd-numbered ones |
| ParserImpl.AsWrittenPairs | core/parser.h:84-91 | each pair of appends to a full list keeps only the second value |
| ParserImpl.SizedAsWrittenAgrees | core/parser.h:84-91 | a pre-sized list within its size behaves like the corrected append |
| ParserImpl.Pushed | core/parser.h:84-91 | the corrected append puts the value in the next slot and counts it |
| ParserImpl.PushAll | core/parser.h:84-91 | the corrected appends count every value |
| ParserImpl.PushedTidy | core/parser.h:84-91 | the corrected append keeps the unused slots empty and grows the vector only when full |
| ParserImpl.PushAllSpec | core/parser.h:84-91 | the corrected appends keep every value, in order, after the values already held |
| ParserImpl.PushAllAppend | core/parser.h:84-91 | appending two runs of values is appending their concatenation |
| ParserImpl.FullMatchVector | core/parser.h:111-124 | after a full match the list given to the reaction is exactly the captured values |
| ParserImpl.CapList.Unsized | core/parser.h:120-124 | the default capture list is empty |
| ParserImpl.CapList.Sized | core/parser.h:111-115 | a sized capture list has that many empty slots |
| ParserImpl.CapList.Append | core/parser.h:84-91 | operator<< as written |
| ParserImpl.CapList.Push | core/parser.h:84-91 | operator<< as corrected |
| ParserImpl.MatchAt | core/parser.h:194-397 | every match() gives Run's answer, position and captures, appended to the list |
| ParserImpl.MatchLiteralAt | core/parser.h:194-217 | Literal::match computes MatchLiteral |
| ParserImpl.MatchNumberAt | core/parser.h:239-273 | Number::match's loop computes MatchNumber |
| ParserImpl.MatchDelimitedAt | core/parser.h:294-318 | String::match computes MatchDelimited |
| ParserImpl.SkipWhitespace | core/parser.h:338-349 | Whitespace::match's loop stops where SkipSpaces says |
| ParserImpl.KleeneStep | core/parser.h:388-397 | one full repetition of the body, seen from the star's outcome |
| ParserImpl.JoinJoin | core/parser.h:388-397 | joining captures is associative |
| ParserImpl.MatchKleeneAt | core/parser.h:388-397 | Kleene::match's loop computes RunKleene |
| ParserImpl.AppendAsWritten | core/parser.h:84-91 | `operator<<` as written: a free slot is filled and counted; a full vector grows without counting the new slot |
| ParserImpl.AppendAllAsWritten | core/parser.h:84-91 | a series of `operator<<` calls, in order |
| StateMachine.Attempt | core/statemachine.h:114-129 | trying a rule stays within the input, and a full match of an advancing matcher consumes input |
| StateMachine.ScanRules | core/statemachine.h:176-196 | a rule the scan takes fully matches at the position, with the captures the scan reports |
| StateMachine.Loop | core/statemachine.h:170-213 | the outer loop always ends in a state of the machine |
| StateMachine.ParseInput | core/statemachine.h:163-214 | parse always leaves the machine in one of its states |
| StateMachine.ScanSpec | core/statemachine.h:176-208 | the first full match wins, and an earlier partial match does not block it; the scan waits for more input exactly when no rule matches fully and one matches partially, and fails exactly when every rule refuses |
| StateMachine.ScanTakenFirst | core/statemachine.h:176-191 | no rule before the one taken matches fully |
| StateMachine.ScanTakenIff | core/statemachine.h:176-191 | a rule is taken exactly when some rule matches fully |
| StateMachine.ScanNeedMoreIff | core/statemachine.h:192-208 | the scan waits for more input exactly when no rule matches fully and one matched partially |
| StateMachine.ScanNoRuleIff | core/statemachine.h:198-204 | the scan fails exactly when every rule answers no match |
| StateMachine.ScanTakesFirst | core/statemachine.h:176-191 | a fully matching rule with no full match before it is the one taken, with its position and captures |
| StateMachine.TakenStep | core/statemachine.h:180-191 | a taken rule adds its reaction to those run and parsing goes on in its target state after the match |
| StateMachine.StopStep | core/statemachine.h:198-213 | a scan that took no rule ends the parse: with the unconsumed suffix after a partial match, in the error state with the input untouched otherwise |
| StateMachine.ErrorStateRejects | core/statemachine.h:165-168 | in an error state parse fails at once and changes nothing |
| StateMachine.FreshMachineFails | core/statemachine.h:245-249 | a machine whose initial state has no rules fails at once |
| StateMachine.LoopShape | core/statemachine.h:170-213 | a failed loop ends in the error state with the buffer untouched; a successful one leaves a suffix and runs at most one reaction per consumed character |
| StateMachine.FailureIsSticky | core/statemachine.h:165-204 | after a failed parse the buffer is untouched and every later parse fails too |
| StateMachine.SuccessTrimsPrefix | core/statemachine.h:211-213 | a successful parse leaves an unconsumed suffix of the input in the buffer |
| StateMachine.StepTakesFirstFullMatch | core/statemachine.h:176-191 | the first fully matching rule runs its reaction once with its captures, and parsing goes on in its target state right after the match |
| StateMachine.Machine.constructor | core/statemachine.h:145 | a new machine is in its initial state with no rules and no reactions run |
| StateMachine.Machine.AddState | core/statemachine.h:53-63 | an owner's new state is appended without rules; nothing else changes |
| StateMachine.Machine.AddRule | core/statemachine.h:227-242 | the rule is appended at the end of its source state's list; nothing else changes; a rule must be free of Kleene stars, since only those compile |
| StateMachine.Machine.SetState | core/statemachine.h:220 | only the current state changes |
| StateMachine.Machine.Reset | core/statemachine.h:225 | the machine is back in its initial state; nothing else changes |
| StateMachine.Machine.Matches | core/statemachine.h:114-129 | the capture list is sized by the matcher's capture count; -2 for no match, -1 for a partial one, the new position for a full one; only a full match runs the reaction, once |
| StateMachine.Machine.Parse | core/statemachine.h:163-214 | parse computes ParseInput: its answer, the buffer left, the new state and the reactions run, in order |
| StateMachine.IsError | core/statemachine.h:59 | a state is an error state exactly when it has no transitions |
| StateMachine.ValidRule | core/statemachine.h:114-116 | a rule the machine runs targets a declared state and holds no Kleene star (its capture list is sized by the matcher's count); its matcher halts and advances on a full match |
| Cscope.Code | cscope/cscope.h:52-61 | the -L code of a query type is at most 8 and never 5 |
| Cscope.CodeInjective | cscope/cscope.h:52-61 | different query types are different cscope options |
| Cscope.FlagArgs | cscope/cscope.cpp:97-105 | the placeholder "-" comes first, and "-C" is there exactly when case is ignored |
| Cscope.QueryArgs | cscope/cscope.cpp:125-130 | a query runs with -d -v, the flag arguments, -L and the type's code, then the pattern last |
| Cscope.BuildArgs | cscope/cscope.cpp:163-165 | a build runs with the caller's arguments followed by -b -v |
| Cscope.ProgressLineFacts | cscope/cscope.cpp:48-71 | a progress line captures exactly two numbers and consumes input on every full match |
| Cscope.LineFacts | cscope/cscope.cpp:46-84 | the start line captures nothing, the end line one number and a result line four values, each consuming input |
| Cscope.GrammarShape | cscope/cscope.cpp:38-85 | the rule graph is one the machine can run, every reaction gets the captures it reads, and progress rules loop on their state |
| Cscope.ProgressRuleGood | cscope/cscope.cpp:48-71 | a progress rule with a non-empty prefix targets a declared state, halts, advances and hands its reaction the two numbers it reads |
| Cscope.BuildRulesGood | cscope/cscope.cpp:46-53 | every build rule targets a declared state, halts, advances and fits its reaction |
| Cscope.QueryProgressRulesGood | cscope/cscope.cpp:54-75 | the same for every query-progress rule |
| Cscope.QueryResultsRulesGood | cscope/cscope.cpp:76-84 | the same for the result rule |
| Cscope.LeafPlain | core/parser.h:194-349 | the grammar's leaf matchers capture a fixed number of values, and all but the empty literal and Whitespace advance |
| Cscope.ConcatPlain | core/parser.h:363-369 | a sequence captures the sum of its parts' counts and advances when one part does |
| Cscope.ResultLocation | cscope/cscope.h:204-228 | a result line gives file, line and text; the second field is the scope of reference and call queries, the name of a definition, and dropped otherwise |
| Cscope.RemoveReturns | core/process.cpp:55-56 | every carriage return is dropped and every other character kept |
| Cscope.DeclareStates | cscope/cscope.cpp:38-45 | the constructor's four states are declared after the initial and error states, without rules |
| Cscope.AddBuildRules | cscope/cscope.cpp:46-53 | the build rules are exactly the grammar's build states |
| Cscope.AddQueryRules | cscope/cscope.cpp:54-75 | the three progress rules and the end rule are the query-progress state, in that order |
| Cscope.AddResultRule | cscope/cscope.cpp:76-84 | the result rule completes the grammar |
| Cscope.CscopeProcess.constructor | cscope/cscope.cpp:38-85 | a new object holds the full grammar, starts in the initial state, and has no connection and no results |
| Cscope.CscopeProcess.Query | cscope/cscope.cpp:117-143 | refused while running or connected; otherwise the results are cleared, parsing starts in the query-progress state and cscope starts with the query's arguments |
| Cscope.CscopeProcess.Build | cscope/cscope.cpp:152-176 | the same guard; parsing starts in the build-init state with the build arguments |
| Cscope.CscopeProcess.ProgAction | cscope/cscope.h:144-147 | one progress report with the message and the two captured numbers |
| Cscope.CscopeProcess.QueryEnd | cscope/cscope.h:176-180 | the number of results is recorded, the count restarts, and a report says so |
| Cscope.CscopeProcess.QueryResult | cscope/cscope.h:204-239 | one location is appended and counted, with a progress report every 256 results |
| Cscope.CscopeProcess.OnOutput | core/process.cpp:50-63 | the new output is appended, carriage returns dropped and the buffer parsed; the results grow by one location per result line fired, in order, and a failed parse is signalled |
| Cscope.CscopeProcess.HandleFinished | cscope/cscope.cpp:183-197 | the results are handed over exactly when there are any, and the object detaches from its connection |
| Cscope.ResultsOf | cscope/cscope.h:204-231 | each reaction appends at most one location |
| Cscope.ResultsOfSnoc | cscope/cscope.h:204-231 | the locations of a run of reactions followed by one more are those of the run followed by those of the last one |
| Cscope.CscopeProcess.React | cscope/cscope.h:204-239 | running one reaction appends exactly that reaction's locations and changes no parsing state |
| Cscope.CscopeProcess.ReactAll | core/process.cpp:50-63 | running the reactions of a parse in order appends their locations in order |
| Cscope.LoopEventsFit | cscope/cscope.cpp:46-84 | every reaction the grammar fires is handed the captures it reads |
| Cscope.ParseEventsFit | cscope/cscope.cpp:46-84 | the same for a whole parse |
| Cscope.ProgressLine | cscope/cscope.cpp:48-52 | a progress line: the prefix, a number, " of ", a number and a newline |
| Cscope.Grammar | cscope/cscope.cpp:38-85 | the states the constructor declares and the rules it adds to each, in order |
| Cscope.ReportsAt | cscope/cscope.h:235 | result parsing reports progress after every 256th result line |
| CscopeScenarios.BuildStartLine | cscope/cscope.cpp:46-47 | the build start line moves to the progress state and fires only the empty reaction |
| CscopeScenarios.ProgressLineStopsAtPrefix | core/parser.h:363-369 | a progress line whose leading text does not fully match answers as that text does |
| CscopeScenarios.SplitProgressLineWaits | core/statemachine.h:206-213 | a progress line cut short by the end of a read is kept for the next read |
| CscopeScenarios.SplitProgressLineAttempts | cscope/cscope.cpp:54-75 | of the query-progress rules, only the "> Search" line answers the first five characters of that line with a partial match |
| CscopeScenarios.SplitLineAfterStartLineFails | core/parser.h:203-204 | after the start line is consumed, a progress line cut short by the end of the read fails the parse, because Literal compares the whole buffer's length |
| CscopeScenarios.DefinitionResultLine | cscope/cscope.h:204-231 | a definition result line fires one result reaction whose location names the symbol and has no scope |
| CscopeScenarios.ConcatAfterFull | core/parser.h:363-369 | after a full match of its first part, a sequence answers as its second part does, with both parts' captures |
| CscopeScenarios.ResultLineParts | cscope/cscope.cpp:76-84 | each part of the result-line grammar matches its piece of a concrete line and stops where the next part starts |
| CscopeScenarios.ResultLineRun | cscope/cscope.cpp:76-84 | the whole result-line grammar matches a concrete line fully with its file, symbol, line and text |
| Ctags.TypeOfLetter | cscope/ctags.h:108-147 | exactly the letters v f s u m g e d t give a known tag type, and never a label or an include |
| Ctags.TypeOfLetterInjective | cscope/ctags.h:108-147 | different known letters give different tag types |
| Ctags.ParsedLocation | cscope/ctags.h:99-147 | a result line gives name, file, line and type from its four captures, column 0, no scope and no text |
| Ctags.AttrScopeAppend | cscope/ctags.h:177-190 | the attribute pairs are read left to right, so reading two runs of pairs is reading one after the other |
| Ctags.AttrScopeShift | cscope/ctags.h:177-190 | pairs read after a prefix are read as if the prefix were absent |
| Ctags.TrailingNameIgnored | cscope/ctags.h:179-181 | an attribute name without a value changes nothing |
| Ctags.LaterPairOverrides | cscope/ctags.h:185-189 | the last struct, union or enum attribute decides the scope |
| Ctags.OtherPairKeeps | cscope/ctags.h:185-189 | any other attribute leaves the scope as it was |
| Ctags.CtagsProcess.constructor | cscope/ctags.h:45-71 | a new object has no locations |
| Ctags.CtagsProcess.ParseAction | cscope/ctags.h:99-151 | exactly one location, built from the four captures, is appended |
| Ctags.CtagsProcess.ParseAttributeAction | cscope/ctags.h:174-191 | only the last location changes, and its scope becomes what the attribute pairs leave |
| Ctags.IsScopeAttr | cscope/ctags.h:185-187 | the attribute names "struct", "union" and "enum" name a scope |
| Ctags.AttrScope | cscope/ctags.h:177-190 | the (name, value) pairs are read in order; a scope attribute sets the scope to its value; a last name without a value is ignored |
| LocationHistory.Empty | app/locationhistory.h:44 | a new history has no entries and no current position |
| LocationHistory.Added | app/locationhistory.h:67-87 | a location in the same file fewer than 5 lines from the current one replaces it; any other is appended after the current position, the entries after it discarded, and becomes current; the entries before stay |
| LocationHistory.Forward | app/locationhistory.h:94-105 | next moves forward exactly when the cursor is before the last entry, and otherwise changes nothing |
| LocationHistory.Back | app/locationhistory.h:113-124 | prev moves back exactly when the cursor is past the first entry, and otherwise changes nothing |
| LocationHistory.ForwardBackRoundTrip | app/locationhistory.h:94-124 | a step forward then back, or back then forward, returns to the same history |
| LocationHistory.AddDiscardsForward | app/locationhistory.h:80-86 | after adding a distant location there is nothing ahead, and going back reaches the entry that was current |
| LocationHistory.NearAddKeepsForward | app/locationhistory.h:70-77 | replacing a close location keeps the entries ahead of it |
| LocationHistory.AddIdempotent | app/locationhistory.h:67-87 | adding the same location twice in a row is adding it once |
| LocationHistory.LocationHistory.constructor | app/locationhistory.h:44 | a new object is the empty history |
| LocationHistory.LocationHistory.Add | app/locationhistory.h:67-87 | add, with its loop dropping the entries after the cursor one by one, computes Added |
| LocationHistory.LocationHistory.Next | app/locationhistory.h:94-105 | next computes Forward and yields the new current entry, or leaves the caller's location alone |
| LocationHistory.LocationHistory.Prev | app/locationhistory.h:113-124 | prev computes Back and yields the new current entry, or leaves the caller's location alone |
| LocationHistory.LocationHistory.Clear | app/locationhistory.h:129-132 | clear gives the empty history |
| LocationHistory.Distance | app/locationhistory.h:74 | the absolute difference of two line numbers |
| LocationHistory.Near | app/locationhistory.h:70-77 | a location is close to the current one when both are in the same file and fewer than 5 lines apart |
| Settings.RemoveAsWrittenSkipsNeighbour | app/settings.cpp:98-102 | as written, of two adjacent entries with the path the second survives the removal |
| Settings.RemoveAsWrittenPastEnd | app/settings.cpp:98-102 | as written, removing the last entry's path steps the iterator past the end of the list |
| Settings.Removed | app/settings.cpp:96-103 | the corrected removal never lengthens the list |
| Settings.RemovedSpec | app/settings.cpp:96-103 | the corrected removal keeps exactly the entries with another path, and keeps paths unique |
| Settings.RemovedMembers | app/settings.cpp:96-103 | removal keeps exactly the entries whose path is another one |
| Settings.RemovedUnique | app/settings.cpp:96-103 | removal keeps the paths unique |
| Settings.RemovedSnoc | app/settings.cpp:96-103 | removal from a list followed by one more entry is removal from the list followed by that entry when its path is another one |
| Settings.RemovedNone | app/settings.cpp:96-103 | removing a path that no entry has changes nothing |
| Settings.RemoveAsWrittenClean | app/settings.cpp:98-102 | the loop as written changes nothing from a position on which no entry has the path |
| Settings.RemoveAsWrittenAgrees | app/settings.cpp:98-102 | when the path occurs at most once and not last, the code as written removes it as intended |
| Settings.RemovedSplice | app/settings.cpp:96-103 | removing the only entry with the path splices it out |
| Settings.AddedSpec | app/settings.cpp:73-94 | the added project comes first under its new name; the list stays within ten entries and keeps unique paths; the other entries keep their order; when the path was not first, the list holds the new entry and all the remaining entries, up to ten in total |
| Settings.AddedFirst | app/settings.cpp:75-89 | the added project comes first, with the new name |
| Settings.AddedBounded | app/settings.cpp:91-93 | a list of at most ten entries stays within ten |
| Settings.AddedUnique | app/settings.cpp:73-94 | paths that were unique stay unique |
| Settings.AddedOrder | app/settings.cpp:77-93 | behind the added project come the other entries in their old order: the rest of the list when the path was first; otherwise the list without the path, cut only at its end and only as far as needed to keep ten entries |
| Settings.AddFirstAgainKeeps | app/settings.cpp:77-80 | adding the first project again under the same name changes nothing |
| Settings.Recent.constructor | app/settings.cpp:30-32 | a new settings object has no recent projects |
| Settings.Recent.AddRecentProject | app/settings.cpp:73-94 | addRecentProject, with its truncation loop, computes Added (built on the corrected removal, see "Left out") |
| Settings.Recent.RemoveRecentProject | app/settings.cpp:96-103 | the corrected removeRecentProject computes Removed |
| Settings.RemoveAsWritten | app/settings.cpp:98-102 | the erase loop as written: after an erase the iterator skips the following entry, and erasing the last entry steps past the end (None) |
| Settings.Added | app/settings.cpp:73-94 | a path already first only gets its new name; otherwise every entry with the path is removed (the corrected removal, see "Left out"), the project goes first and the list is cut to 10 entries |
| Settings.AddedAsWritten | app/settings.cpp:73-102 | addRecentProject as written: the same steps around the erase loop as written, undefined (None) where that loop steps past the end |
| Settings.AddedAsWrittenAgrees | app/settings.cpp:73-102 | with unique paths, and the path not on the last entry unless it is first, addRecentProject as written gives the same list as Added |
| Settings.AddedAsWrittenKeepsDuplicate | app/settings.cpp:83-102 | for `[a, x, y]` where x and y share a path that a does not have, the code as written gives `[new, a, y]`; Added gives `[new, a]` |
| Settings.AddedAsWrittenPastEnd | app/settings.cpp:83-102 | for `[a, b]`, adding b's path steps past the end as written; Added gives `[new, a]` |
| FileFilter.MakeRule | core/filefilter.h:115-125 | a leading minus makes an exclusion rule of the rest of the text; any other text is an inclusion rule as it stands |
| FileFilter.MatchIsFirstMatchingRule | core/filefilter.h:73-82 | the first rule whose pattern matches decides: inclusion accepts, exclusion rejects |
| FileFilter.MatchWithoutMatchingRule | core/filefilter.h:73-82 | when no rule matches, the caller's default decides |
| FileFilter.Texts | core/filefilter.h:92-96 | one text per rule, in rule order |
| FileFilter.Split | core/filefilter.h:149 | the pieces of a filter string are non-empty and free of semicolons |
| FileFilter.ParsedRulesStorable | core/filefilter.h:115-155 | every rule parse makes can be saved and read back |
| FileFilter.SplitJoin | core/filefilter.h:149 | splitting joined pieces gives them back when none is empty or holds a semicolon |
| FileFilter.RuleTextRoundTrip | core/filefilter.h:93-125 | a storable rule's text reads back as the same rule |
| FileFilter.ToStringRoundTrip | core/filefilter.h:88-155 | saving storable rules and parsing the text gives the same rules back |
| FileFilter.ParseToStringParse | core/filefilter.h:88-155 | for any filter string, parse, save and parse again gives the rules of the first parse |
| FileFilter.ToStringSnoc | core/filefilter.h:92-96 | saving one more rule appends its text and a semicolon |
| FileFilter.Filter.constructor | core/filefilter.h:59-61 | a filter built from a string holds the rules that string describes |
| FileFilter.Filter.Parse | core/filefilter.h:147-155 | parse appends one rule per non-empty piece, in order |
| FileFilter.Filter.MatchPath | core/filefilter.h:73-82 | match's loop computes Match |
| FileFilter.Filter.ToText | core/filefilter.h:88-99 | toString's loop computes the saved text |
| FileFilter.Match | core/filefilter.h:73-82 | the first rule whose pattern matches the whole path decides (inclusion accepts, exclusion rejects); with no matching rule the given default is returned |
| FileFilter.RuleText | core/filefilter.h:93-95 | a rule's text is its pattern, preceded by "-" for an exclusion rule |
| FileFilter.Join | core/filefilter.h:92-96 | the texts each followed by one semicolon, in order |
| FileFilter.ToString | core/filefilter.h:88-99 | the filter's text is the rules' texts, each followed by a semicolon, in rule order |
| FileFilter.ParsedRules | core/filefilter.h:147-155 | one rule per non-empty piece between semicolons, in order |
| CharSequences.Window | editor/viscintilla.h:107-116 | a window has last - first + 1 characters, and none when first exceeds last |
| CharSequences.DropLast | editor/viscintilla.h:59-70 | a sub-sequence with indices 0 and -1 is its source without the last character |
| CharSequences.DropFirst | editor/viscintilla.h:59-70 | a sub-sequence with indices 1 and 0 is its source without the first character |
| CharSequences.UIntValue | editor/viscintilla.h:124-141 | conversion succeeds exactly on all-digit text, yields a uint, and yields 0 on failure |
| CharSequences.UIntValueOfDecimalText | editor/viscintilla.h:124-141 | the decimal text of a uint converts back to it |
| CharSequences.UIntValueRejects | editor/viscintilla.h:128-132 | one non-digit anywhere makes the conversion fail with 0 |
| CharSequences.UIntStep | editor/viscintilla.h:134 | each loop step in uint arithmetic keeps the value equal to the decimal value modulo 2^32 |
| CharSequences.ShiftMod | editor/viscintilla.h:134 | shifting a digit into a value wrapped to 32 bits gives the wrapped result of shifting it into the unwrapped value |
| CharSequences.Buffer.constructor | editor/viscintilla.h:48 | a new buffer is empty |
| CharSequences.CharSequence.Length | editor/viscintilla.h:114-116 | the length is the number of characters viewed whenever the window is not reversed |
| CharSequences.CharSequence.IsEmpty | editor/viscintilla.h:107-109 | an empty sequence views no characters |
| CharSequences.CharSequence.constructor | editor/viscintilla.h:47-49 | a new master sequence is empty and owns a fresh buffer |
| CharSequences.CharSequence.Sub | editor/viscintilla.h:59-70 | a sub-sequence shares its source's buffer, with indices counted from the source's first or last index |
| CharSequences.CharSequence.Append | editor/viscintilla.h:86-91 | the master sequence grows by the character; a copy does not change |
| CharSequences.CharSequence.Clear | editor/viscintilla.h:97-102 | the sequence becomes empty, and only the master sequence empties the shared buffer |
| CharSequences.CharSequence.ToUInt | editor/viscintilla.h:124-141 | toUInt's loop computes UIntValue on the viewed characters |
| CharSequences.SubBounds | editor/viscintilla.h:59-70 | a sub-sequence's bounds: a non-negative first counts from the source's first index and a negative one from its last; a positive last counts from the first index and any other from the last |
| ViCommands.Low8 | editor/viscintilla.cpp:601-602 | the key code cut to a char keeps its low byte |
| ViCommands.TransformSpec | editor/viscintilla.cpp:69-101 | ToChar keeps digit and capital-letter codes and gives 0 otherwise; ToControlChar maps A..Z to 1..26, 0x40 below ToChar, and gives 0 otherwise; only the low byte counts |
| ViCommands.ControlCharFacts | editor/viscintilla.cpp:90-101 | different letters give different control characters, R gives the redo key, and Escape gives nothing |
| ViCommands.CommandOf | editor/viscintilla.cpp:709-786 | the command map gives the count command for 1..9, the move command for 0 l h k j w $ g G, yank, cut, change, undo for u and Ctrl-R, paste for p P, insert for i a I A, open-line for o O, and nothing for any other character or any of 0x80 and above |
| ViCommands.MotionKeys | editor/viscintilla.cpp:180-246 | a move command knows exactly the keys l h k j w 0 $ g G, all mapped to it, and the first five are relative |
| ViCommands.Multiplier | editor/viscintilla.cpp:249-255 | a count is defined exactly for digits and equals their decimal value below 2^31 |
| ViCommands.MultiplierWraps | editor/viscintilla.cpp:252 | a count of 2^31 turns negative when stored into an int |
| ViCommands.Repeat | editor/viscintilla.cpp:258-259 | the loop repeats the message n times, and never for n at most 0 |
| ViCommands.Finish | editor/viscintilla.cpp:112-166 | a move, yank or cut finishes with Done and a change with Exit |
| ViCommands.MoveUnknownKey | editor/viscintilla.cpp:244-245 | a key that is no motion is not handled |
| ViCommands.RelativeMoveCount | editor/viscintilla.cpp:249-261 | after a count a relative move is sent that many times before the action; a count with a non-digit is not handled |
| ViCommands.RelativeMoveOnce | editor/viscintilla.cpp:249-261 | a relative move as the only key moves once |
| ViCommands.AbsoluteMoveIgnoresPrefix | editor/viscintilla.cpp:216-250 | an absolute move ignores what precedes it and moves once |
| ViCommands.XyXWaits | editor/viscintilla.cpp:281-301 | the first y, d or c waits, and so does each count digit except a 0 right after the first key |
| ViCommands.XyXWholeLines | editor/viscintilla.cpp:281-326 | C, a count and C select that many lines from the start of the line and act on them; CC acts on one line |
| ViCommands.XyXSelectsMove | editor/viscintilla.cpp:298-307 | C, a count and a motion are a selecting move over the count and the motion, then the action |
| ViCommands.UndoRedoCount | editor/viscintilla.cpp:421-448 | a count followed by u or Ctrl-R undoes or redoes that many times |
| ViCommands.NumPrefixDelegates | editor/viscintilla.cpp:492-512 | the count command waits on digits, hands relative moves and undo/redo the whole sequence, and handles nothing else |
| ViCommands.ExitOnlyFromInsertingCommands | editor/viscintilla.cpp:379-482 | only insert, change and open-line leave normal mode |
| ViCommands.FirstAscii | editor/viscintilla.cpp:635-640 | the character of an event's text is below 256 |
| ViCommands.WithMode | editor/viscintilla.cpp:537-560 | a new mode is set, with the caret style and an announcement only when it changes |
| ViCommands.StepKeepsConsistent | editor/viscintilla.cpp:569-703 | every key press keeps a command in progress exactly while the sequence is non-empty, and it is the command of the sequence's first key |
| ViCommands.DispatchKeepsConsistent | editor/viscintilla.cpp:569-703 | a dispatched key keeps the command bookkeeping consistent, and a sequence kept afterwards belongs to the ongoing command or to the one its first key starts |
| ViCommands.InsertModeOnlyEscape | editor/viscintilla.cpp:577-588 | in insert mode only an unmodified Escape is taken, switching to normal mode; every other key goes to Scintilla |
| ViCommands.EscapeAborts | editor/viscintilla.cpp:623-632 | Escape in normal mode aborts the command in progress and does nothing else |
| ViCommands.EndOfCommand | editor/viscintilla.cpp:673-700 | Done, Exit and NotHandled end the command and empty the sequence, and only Exit changes the mode, to insert mode |
| ViCommands.TypedAll | editor/viscintilla.cpp:605-640 | one key press per typed character, in order |
| ViCommands.TypedDispatch | editor/viscintilla.cpp:634-654 | a typed character in normal mode goes straight to the command dispatch |
| ViCommands.CountDigit | editor/viscintilla.cpp:651-677 | each digit of a count keeps the count command waiting and joins the sequence and its display |
| ViCommands.TypingCount | editor/viscintilla.cpp:651-677 | while a count is typed the sequence and display are the digits so far |
| ViCommands.CountedLineDown | editor/viscintilla.cpp:569-703 | typing a count and j moves the cursor down that many lines and ends the command |
| ViCommands.CountThenLineDown | editor/viscintilla.cpp:651-677 | j typed after a count moves down as many lines as the count says and ends the command |
| ViCommands.ViScintilla.constructor | editor/viscintilla.cpp:521-524 | a new editor has Vi mode disabled and no command in progress |
| ViCommands.ViScintilla.SetEditMode | editor/viscintilla.cpp:537-560 | setEditMode computes WithMode |
| ViCommands.ViScintilla.KeyPress | editor/viscintilla.cpp:569-703 | keyPressEvent computes Step: the new mode, command, sequence, display and effects, and what became of the event |
| ViCommands.ViScintilla.Feed | editor/viscintilla.cpp:651-702 | the translated key joins the sequence and is processed as Dispatch says |
| ViCommands.ToChar | editor/viscintilla.cpp:76-82 | the codes of digits and capital letters give the same ASCII character, any other code 0 |
| ViCommands.ToControlChar | editor/viscintilla.cpp:96-100 | the codes of 'A' to 'Z' give the control characters 1 to 26, any other code 0 |
| ViCommands.MotionOf | editor/viscintilla.cpp:180-246 | the motion of each move key, and whether it takes a count |
| ViCommands.MoveKey | editor/viscintilla.cpp:175-262 | an unknown key is not handled; a relative move repeats as often as the preceding digits say; an absolute move happens once; then the command's action finishes |
| ViCommands.XyXKey | editor/viscintilla.cpp:278-327 | the command key waits; digits wait (0 only after another digit); the command key again acts on as many whole lines as the digits say; any other key is a selecting move |
| ViCommands.UndoRedoKey | editor/viscintilla.cpp:421-448 | undo or redo, repeated as often as the preceding digits say; any other key is not handled |
| ViCommands.NumPrefixKey | editor/viscintilla.cpp:492-512 | digits wait; relative moves, undo and redo take the typed count; anything else is not handled |
| ViCommands.PasteKey | editor/viscintilla.cpp:336-367 | P pastes at the cursor; p pastes after it, or at the start of the next line when the cursor is in column 0 |
| ViCommands.InsertKey | editor/viscintilla.cpp:381-412 | i, a, I and A place the cursor at, after, at the start of, or at the end of the line, and leave normal mode |
| ViCommands.OpenLineKey | editor/viscintilla.cpp:457-481 | o opens a line below and O a line above the current one, and normal mode ends |
| ViCommands.Process | editor/viscintilla.cpp:659-671 | the command in progress (or the command of the key) processes the key |
| ViCommands.KeyChar | editor/viscintilla.cpp:597-645 | Ctrl gives a control character; the arrow keys give l, h, k and j; any other key gives its text's first character |
| ViCommands.BlockCaret | editor/viscintilla.cpp:545-555 | the caret is a block in normal and visual mode and a line otherwise |
| ViCommands.Idle | editor/viscintilla.cpp:684-698 | when a command ends, the command in progress, the key sequence and the display string are all cleared |
| ViCommands.Consistent | editor/viscintilla.h:261-277 | a command is in progress exactly when the key sequence is not empty, and it is the command of the sequence's first key |
| ViCommands.Dispatch | editor/viscintilla.cpp:650-700 | the key joins the sequence and the display string; the command processes it; Continue keeps the command, Done and Exit end it (Exit also returns to insert mode), and NotHandled drops it |
| ViCommands.NormalStep | editor/viscintilla.cpp:590-703 | in normal and visual mode: Escape aborts the command in progress; other modifiers and untranslatable keys are ignored; other keys are dispatched |
| ViCommands.Step | editor/viscintilla.cpp:569-703 | disabled mode passes every key to the editor; insert mode passes every key except Escape, which returns to normal mode; normal and visual mode handle the key themselves |
| ViCommands.Run | editor/viscintilla.cpp:569-703 | the state after a series of key presses, one `keyPressEvent` after the other |
| TreeItems.Item | core/treeitem.h:47 | a new node holds the data, with index 0 and no children |
| TreeItems.AddChild | core/treeitem.h:76-84 | exactly one childless node with the data is appended, with its position as its index; the node's own data and index stay |
| TreeItems.ChildSpec | core/treeitem.h:92-127 | child(i) fails exactly for a negative or too large i, and otherwise gives the child there, whose index is i |
| TreeItems.AddChildSpec | core/treeitem.h:76-97 | after addChild, child(previous count) is the new node, the earlier children are unchanged, and every cached index is still right |
| TreeItems.FirstWith | core/treeitem.h:134-141 | the position found holds the data and no earlier one does; none means no child holds it |
| TreeItems.FindChild | core/treeitem.h:134-141 | findChild's loop finds the first child holding the data |
| TreeItems.FirstWithIsFirst | core/treeitem.h:134-141 | the first position holding the data is the only answer |
| TreeItems.Clear | core/treeitem.h:146-151 | clear leaves the node with its data and index and no children; clearing each child first is not observable on a value tree |
| TreeItems.ChildCount | core/treeitem.h:116 | the number of children |
| TreeItems.Child | core/treeitem.h:92-110 | the child at a position; none when the position is negative or too large |
| TreeItems.IndexesCached | core/treeitem.h:122-127 | every node's cached index is its position in its parent's list |
| CodebaseModel.RelativePath | core/codebasemodel.cpp:152-157 | a path starting with the root string is the root followed by the result; any other path is kept whole |
| CodebaseModel.InsertedFindsSameChild | core/codebasemodel.cpp:163-173 | after the descent the first child holding the first component is the one the descent went through, and it holds the rest of the descent |
| CodebaseModel.InsertedIdempotent | core/codebasemodel.cpp:163-173 | descending a second time along the same components changes nothing |
| CodebaseModel.AddFileTwice | core/codebasemodel.cpp:150-174 | adding a file twice leaves the tree as adding it once |
| CodebaseModel.NoFilesGivesRoot | core/codebasemodel.cpp:182-199 | with no files added, getFiles reports the root path itself as the single file |
| CodebaseModel.RootPrefixIsTextual | core/codebasemodel.cpp:154-155 | the root prefix is cut as text, not by components: root /a turns /ab/c into the components b and c |
| CodebaseModel.SeparatorsCollapse | core/codebasemodel.cpp:160 | empty components are skipped, so a doubled separator gives the same components as a single one |
| CodebaseModel.Codebase.constructor | core/codebasemodel.cpp:31-42 | a root node named by the root path, to which every file of the code base is then added in order, as the getFiles callback does through AddFilesTo |
| CodebaseModel.Codebase.AddFilesTo | core/codebasemodel.cpp:48-60 | the loop adds each file of the list in order, as AddFiles |
| CodebaseModel.Codebase.GetFiles | core/codebasemodel.cpp:66-69 | the list is the recursive walk from the root with an empty path |
| CodebaseModel.GetFilesFrom | core/codebasemodel.cpp:182-200 | the list gets the node's path if it is childless, otherwise the files of its children in order below the node's path with one trailing separator |
| CodebaseModel.PathParts | core/codebasemodel.cpp:152-160 | the path components: the root prefix removed, then split on the separator with empty parts skipped |
| CodebaseModel.Inserted | core/codebasemodel.cpp:163-173 | descending the components, an existing child with the name is followed and a missing one is added; the root keeps its name |
| CodebaseModel.AddFile | core/codebasemodel.cpp:150-174 | a file is inserted under the root by its path components |
| CodebaseModel.AddFiles | core/codebasemodel.cpp:48-60 | the files are added one after the other, in list order |
| CodebaseModel.Files | core/codebasemodel.cpp:182-200 | a childless node is a file with its full path; a directory gets a trailing separator and gives its children's files in order |
| CodebaseModel.FilesOf | core/codebasemodel.cpp:193-194 | the files of the children, one child after the other |
| CodebaseRoundTrip.Dir | core/codebasemodel.cpp:188-190 | a directory's path ends with a separator |
| CodebaseRoundTrip.NormalSplitJoin | core/codebasemodel.cpp:160 | a relative path with single separators and none at the ends splits into non-empty components free of separators that join back into it |
| CodebaseRoundTrip.RenderJoin | core/codebasemodel.cpp:185-198 | the path built for a node below a directory is the directory with its separator followed by the components joined by separators |
| CodebaseRoundTrip.RenderJoinStep | core/codebasemodel.cpp:185-198 | the rendered path of several components follows from that of all but the first, below the first |
| CodebaseRoundTrip.PlainTail | core/codebasemodel.cpp:160 | the components after the first of a split path are themselves free of separators and non-empty |
| CodebaseRoundTrip.JoinSepPrefix | core/codebasemodel.cpp:160 | joined components that extend others start with the text of the others and a separator |
| CodebaseRoundTrip.InsertedPaths | core/codebasemodel.cpp:163-173 | after the descent the tree holds a path of names exactly when it held it before or it is a prefix of the components |
| CodebaseRoundTrip.InsertedPathsBelow | core/codebasemodel.cpp:165-170 | descending through an existing child keeps the old paths and adds the prefixes of the components |
| CodebaseRoundTrip.InsertedPathsNew | core/codebasemodel.cpp:165-173 | descending through a newly added child keeps the old paths and adds the prefixes of the components |
| CodebaseRoundTrip.InsertedDistinct | core/codebasemodel.cpp:163-173 | the descent never gives a node two children with the same name, since findChild is consulted before addChild |
| CodebaseRoundTrip.LeafIsMaximal | core/codebasemodel.cpp:187-198 | in a tree with distinct names a node is childless exactly when it is reached and no longer path is |
| CodebaseRoundTrip.FilesOfComplete | core/codebasemodel.cpp:193-194 | a file found below one child is reported for the children |
| CodebaseRoundTrip.FilesOfSound | core/codebasemodel.cpp:193-194 | a file reported for the children was found below one of them |
| CodebaseRoundTrip.FilesComplete | core/codebasemodel.cpp:182-200 | every childless node is reported, under the path built from the names leading to it |
| CodebaseRoundTrip.FilesSound | core/codebasemodel.cpp:182-200 | every reported path is the one built for some childless node |
| CodebaseRoundTrip.AddFilesRoot | core/codebasemodel.cpp:48-60 | adding files keeps the root's name |
| CodebaseRoundTrip.AddFilesLast | core/codebasemodel.cpp:53-54 | the last file of the list is inserted last, into the tree built from the others |
| CodebaseRoundTrip.AddFilesDistinct | core/codebasemodel.cpp:163-173 | the tree built from a fresh root never holds two siblings with the same name |
| CodebaseRoundTrip.AddFilesPaths | core/codebasemodel.cpp:150-174 | the built tree holds exactly the prefixes of the files' components |
| CodebaseRoundTrip.RenderPath | core/codebasemodel.cpp:152-198 | a file below the root written with single separators is rebuilt from its components as the same text |
| CodebaseRoundTrip.RelativePrefix | core/codebasemodel.cpp:160 | a relative path whose components extend another's continues it after a separator |
| CodebaseRoundTrip.PartsPrefixIsDirectory | core/codebasemodel.cpp:152-160 | a file whose components extend another file's lies inside that file's path taken as a directory |
| CodebaseRoundTrip.StartsWithBelow | core/codebasemodel.cpp:155 | putting the same text in front of two texts keeps one starting with the other |
| CodebaseRoundTrip.PrefixExtends | core/codebasemodel.cpp:163-173 | every proper prefix of a file's components leads to a node with a child on the way to the file |
| CodebaseRoundTrip.CoveredSnoc | core/codebasemodel.cpp:48-60 | a prefix is covered by a list of files exactly when all but the last cover it or it is a prefix of the last one's components |
| CodebaseRoundTrip.CoveredBySnoc | core/codebasemodel.cpp:48-60 | a prefix of one of a list of component lists followed by one more is a prefix of one of the list or of the last |
| CodebaseRoundTrip.LeafIsFile | core/codebasemodel.cpp:150-174 | when no file lies inside another, every childless node of the built tree is reached by some file's components |
| CodebaseRoundTrip.FileIsLeaf | core/codebasemodel.cpp:150-174 | when no file lies inside another, every file's components reach a childless node |
| CodebaseRoundTrip.FileNotExtended | core/codebasemodel.cpp:150-174 | when no file lies inside another, no node of the built tree lies below a file |
| CodebaseRoundTrip.GetFilesAfterAddFiles | core/codebasemodel.cpp:48-200 | round trip: when the root ends with a separator, the list is non-empty, its files are written below the root with single separators and none lies inside another, getFiles after addFiles reports exactly the files of the list |
| CodebaseRoundTrip.Render | core/codebasemodel.cpp:185-190 | the path `getFiles` builds for the node a list of components leads to |
| LocationModels.NormalRoot | core/locationmodel.cpp:51-57 | "/" becomes empty; any other path is kept and gets one separator at the end when it has none |
| LocationModels.NormalRootStable | core/locationmodel.cpp:51-57 | normalising a stored root again keeps it, apart from the two roots that trade places |
| LocationModels.NormalRootSwaps | core/locationmodel.cpp:54-57 | the empty root becomes "/", and "/" becomes empty |
| LocationModels.FileTextExpands | core/locationmodel.cpp:135-141 | the file column loses nothing: below a non-empty root it is "$/" and the rest, and the root followed by the rest is the path; otherwise the path in full |
| LocationModels.ColumnText | core/locationmodel.cpp:176-202 | every field has a non-empty title |
| LocationModels.ColumnTextInjective | core/locationmodel.cpp:176-202 | no two fields share a title |
| LocationModels.LocationDataSpec | core/locationmodel.cpp:116-169 | an icon only for the tag column of a known tag type, nothing for other roles; for display, each column's own field of the location: line, column, tag name, tag type name, scope and text; the file is shown as "$", a separator and the rest of the path below a non-empty root, and in full otherwise |
| LocationModels.LocationModel.constructor | core/locationmodel.cpp:36-38 | a new model has no columns, an empty root path and no reset |
| LocationModels.LocationModel.SetRootPath | core/locationmodel.cpp:51-63 | the normalised path is stored, and the model is reset only when it changed |
| LocationModels.LocationModel.SetColumns | core/locationmodel.h:53-56 | the columns are replaced and the model is reset |
| LocationModels.LocationModel.ColumnCount | core/locationmodel.cpp:88-92 | one column per configured field |
| LocationModels.LocationModel.HeaderData | core/locationmodel.cpp:74-81 | the title of the section's field for a horizontal display header, nothing otherwise; only the display request reads the column list |
| LocationModels.SetRootPathTwice | core/locationmodel.cpp:59-62 | setting the same root twice resets the model at most once |
| LocationModels.FileText | core/locationmodel.cpp:138-141 | a file under a non-empty root is shown as "$", a separator and the rest of the path; any other file in full |
| LocationModels.LocationData | core/locationmodel.cpp:116-169 | the display value of each column, the tag icon for the decoration role, and nothing for other roles |
| LocationListModels.LocationListModel.constructor | core/locationlistmodel.cpp:34-37 | a new model is empty and was never filled |
| LocationListModels.LocationListModel.Add | core/locationlistmodel.cpp:51-81 | the locations are appended in order and the model counts as filled, even when none were given |
| LocationListModels.LocationListModel.IsEmpty | core/locationlistmodel.cpp:89-95 | Unknown exactly for a row or before any add; otherwise Empty or Full by the list, both directions |
| LocationListModels.LocationListModel.Clear | core/locationlistmodel.cpp:102-112 | the list is empty afterwards; the filled flag survives only when the list was already empty |
| LocationListModels.LocationListModel.RowCount | core/locationlistmodel.cpp:233-239 | the list's size under the root, no rows under a row |
| LocationListModels.LocationListModel.Index | core/locationlistmodel.cpp:201-211 | a row index exactly for an in-range row under the root |
| LocationListModels.LocationListModel.Parent | core/locationlistmodel.cpp:220-224 | no index has a parent |
| LocationListModels.LocationListModel.LocationFromIndex | core/locationlistmodel.cpp:121-136 | the entry at an in-range row, and nothing exactly otherwise |
| LocationListModels.LocationListModel.FirstLocation | core/locationlistmodel.cpp:143-150 | the first entry, failing exactly on the empty list |
| LocationListModels.NextIndexSpec | core/locationlistmodel.cpp:158-171 | the invalid index gives the first row, the last row gives the invalid index, any other row the next; what it gives is always a row of the list or invalid |
| LocationListModels.PrevIndexSpec | core/locationlistmodel.cpp:179-192 | the invalid index gives the last row, row 0 gives the invalid index, any other row the previous; what it gives is always a row of the list or invalid |
| LocationListModels.NextPrevRoundTrip | core/locationlistmodel.cpp:158-192 | next then previous, and previous then next, come back to an inner row |
| LocationListModels.ForwardVisitsAll | core/locationlistmodel.cpp:158-171 | stepping forward from the invalid index visits every row in order, then returns to the invalid index |
| LocationListModels.AddThenClear | core/locationlistmodel.cpp:51-112 | an empty add followed by clear leaves the model Empty; a non-empty one followed by clear leaves it Unknown |
| LocationListModels.LocationListModel.NextIndex | core/locationlistmodel.cpp:158-171 | the invalid index gives the first row; the last row gives the invalid index; any other row the next one |
| LocationListModels.LocationListModel.PrevIndex | core/locationlistmodel.cpp:179-192 | the invalid index gives the last row; row 0 gives the invalid index; any other row the previous one |
| LocationTreeModels.AddedAllSpec | core/locationtreemodel.cpp:79-81 | the node keeps its data, index and children and gets one fresh childless child per location after them, in order, with right indexes |
| LocationTreeModels.AddedShape | core/locationtreemodel.cpp:79-81 | adding the locations keeps the node's data and adds one child per location |
| LocationTreeModels.AddedChildAt | core/locationtreemodel.cpp:79-81 | the child added for each location sits after the node's earlier children and holds that location |
| LocationTreeModels.NextPathSpec | core/locationtreemodel.cpp:185-209 | what nextIndex finds is the next sibling of the start or of its nearest ancestor that has one, never a child; none exactly when the start and all its ancestors are last among their siblings |
| LocationTreeModels.NextPathShape | core/locationtreemodel.cpp:185-209 | what nextIndex finds is an item of the tree: the next sibling of the start or of one of its ancestors |
| LocationTreeModels.NextPathLast | core/locationtreemodel.cpp:199-206 | every level nextIndex climbs past holds the last of its siblings on the start's path |
| LocationTreeModels.PrefixIsLastOfPrefix | core/locationtreemodel.cpp:199-206 | whether a node on the path is the last of its siblings does not depend on the steps below it |
| LocationTreeModels.NextStep | core/locationtreemodel.cpp:199-206 | one pass of nextIndex's loop finds the next sibling when there is one and otherwise goes on from the parent |
| LocationTreeModels.PrevStep | core/locationtreemodel.cpp:231-238 | one pass of prevIndex's loop finds the previous sibling when there is one and otherwise goes on from the parent |
| LocationTreeModels.PrevPathSpec | core/locationtreemodel.cpp:216-241 | what prevIndex finds is the previous sibling of the start or of its nearest ancestor that has one; none exactly when the start and all its ancestors are first among their siblings |
| LocationTreeModels.NextThenPrev | core/locationtreemodel.cpp:185-241 | going back from what nextIndex found lands on the start or on its ancestor at the same depth |
| LocationTreeModels.LocationTreeModel.constructor | core/locationtreemodel.cpp:33-36 | a new model has a root without children that was never filled |
| LocationTreeModels.LocationTreeModel.Add | core/locationtreemodel.cpp:50-86 | the target node is marked as filled, even for no locations, and gets one fresh child per location in order; nothing else changes |
| LocationTreeModels.LocationTreeModel.Clear | core/locationtreemodel.cpp:120-142 | a node with children loses them and its filled flag; a childless node is left alone |
| LocationTreeModels.LocationTreeModel.LocationFromIndex | core/locationtreemodel.cpp:151-164 | an item's location; exactly the invalid index has none |
| LocationTreeModels.LocationTreeModel.FirstLocation | core/locationtreemodel.cpp:171-178 | the first top-level item's location, failing exactly when there is none |
| LocationTreeModels.LocationTreeModel.Index | core/locationtreemodel.cpp:250-271 | the child at an in-range row of the parent's node, invalid exactly otherwise |
| LocationTreeModels.LocationTreeModel.Parent | core/locationtreemodel.cpp:278-294 | the item above a nested item; invalid exactly for a top-level item or the invalid index |
| LocationTreeModels.LocationTreeModel.NextIndex | core/locationtreemodel.cpp:185-209 | the loop up through the parents finds what NextPath describes |
| LocationTreeModels.LocationTreeModel.PrevIndex | core/locationtreemodel.cpp:216-241 | the loop up through the parents finds what PrevPath describes |
| LocationTreeModels.AddThenIsEmpty | core/locationtreemodel.cpp:50-114 | after add the node is never Unknown: it is Empty exactly when it had no children and nothing was given; the row count grows by the number of locations and the new rows hold them in order |
| LocationTreeModels.ParentOfIndex | core/locationtreemodel.cpp:250-294 | the parent of a child's index is the index it was made under |
| LocationTreeModels.InvalidStartsAtFirst | core/locationtreemodel.cpp:171-241 | from the invalid index both walks start at the first top-level item, the one firstLocation gives |
| LocationTreeModels.Replace | core/locationtreemodel.cpp:60-67 | the node an index points to is updated in place; the rest of the tree keeps its shape |
| LocationTreeModels.ReplaceSpec | core/locationtreemodel.cpp:60-67 | after an update in place the path still leads to the updated node, and the cached indexes stay correct |
| LocationTreeModels.NewItem | core/locationtreemodel.cpp:80-81 | a new item for a location has no locations added under it yet |
| LocationTreeModels.AddedAll | core/locationtreemodel.cpp:80-81 | `addChild` is called once per location, in order |
| LocationTreeModels.Target | core/locationtreemodel.cpp:99-106 | the invalid index stands for the root; any other index for the node it points to |
| LocationTreeModels.NextPath | core/locationtreemodel.cpp:185-209 | the next sibling of the node, or else of its nearest ancestor that has one; none when there is no such sibling |
| LocationTreeModels.PrevPath | core/locationtreemodel.cpp:216-241 | the previous sibling of the node, or else of its nearest ancestor that has one; none when there is no such sibling |
| LocationTreeModels.LocationTreeModel.IsEmpty | core/locationtreemodel.cpp:94-114 | Unknown when no locations were ever added under the node; otherwise Empty or Full depending on its children |
| LocationTreeModels.LocationTreeModel.RowCount | core/locationtreemodel.cpp:301-316 | the number of children of the node; the invalid index stands for the root |
| LocationTreeModels.LocationTreeModel.NextOf | core/locationtreemodel.cpp:185-209 | the invalid index gives the first item; any other the item after it, or the invalid index when there is none |
| LocationTreeModels.LocationTreeModel.PrevOf | core/locationtreemodel.cpp:216-241 | the invalid index gives the first item; any other the item before it, or the invalid index when there is none |
| Crossrefs.SplitStarred | cscope/crossref.cpp:62-63 | splitting a plain directory followed by '*'-prefixed plain arguments gives back the directory and the arguments |
| Crossrefs.OpenInitString | cscope/crossref.cpp:59-99 | opening with the string built from a directory and arguments stores exactly those |
| Crossrefs.OpenStatusSpec | cscope/crossref.cpp:59-99 | failure exactly for an empty string, a missing directory or an unreadable database; otherwise Build or Ready by the database on a first open or the same parameters, and Rebuild for other parameters |
| Crossrefs.StatusAfterBuild | cscope/crossref.cpp:239-243 | the database is ready after a clean exit or if it already was; otherwise the status stays |
| Crossrefs.QueryFieldsSpec | cscope/crossref.cpp:108-153 | only the invalid query has no fields, none is listed twice, cross-reference queries show the file and not the tag type, local tags the other way round |
| Crossrefs.TranslateIgnoresCase | cscope/crossref.cpp:216-218 | the case flag of a query never changes what is handed to cscope, since only the translated type is passed on |
| Crossrefs.TranslateSpec | cscope/crossref.cpp:162-219 | only the invalid query is refused, only local tags go to ctags, different query types reach different cscope searches, and a text query becomes egrep exactly under the flag |
| Crossrefs.Crossref.constructor | cscope/crossref.cpp:37-39 | a new engine has Unknown status |
| Crossrefs.Crossref.Open | cscope/crossref.cpp:59-99 | an error changes nothing; otherwise the directory, arguments and status OpenOutcome decides are stored and the callback is called once if given |
| Crossrefs.Crossref.BuildProcessFinished | cscope/crossref.cpp:239-243 | the status becomes StatusAfterBuild and nothing else changes |
| Crossrefs.ReopenSame | cscope/crossref.cpp:85-95 | opening twice with the same string and directory state leaves Build or Ready, never Rebuild |
| Crossrefs.OpenOutcome | cscope/crossref.cpp:59-99 | no path, a missing directory or an unreadable database fail; a missing database needs a build; a readable one is ready; a reopen with another path or other arguments needs a rebuild |
| Crossrefs.InitString | cscope/crossref.cpp:62-63 | the initialisation string: the directory, then each argument after a '*' |
| Crossrefs.Starred | cscope/crossref.cpp:62-63 | each argument preceded by a '*' |
| Crossrefs.QueryFields | cscope/crossref.cpp:108-153 | the fields each query type fills in, in display order; none for an invalid type |
| Crossrefs.Translate | cscope/crossref.cpp:162-219 | each query type goes to its cscope query (text becomes egrep under the regular-expression flag); local tags go to ctags; anything else is not supported |
| Projects.WithSep | core/project.h:224-225 | the path ends with a separator and extends the given one, adding it only when missing |
| Projects.WithSepIdempotent | core/project.h:224-225 | adding the separator twice adds it once |
| Projects.Loaded | core/project.h:368-393 | the project path ends with a separator; a missing name is empty and a missing root path is "/" |
| Projects.Project.constructor | core/project.h:368-393 | the project is loaded exactly when the configuration file is readable, with the parameters read from it, and is not open |
| Projects.Project.ConfigPath | core/project.h:416-418 | the configuration file lies right under the project path |
| Projects.Project.Open | core/project.h:172-195 | nothing when already open; an error and no change when not loaded; otherwise both components start unopened and the callback is remembered |
| Projects.Project.FinishOpen | core/project.h:410-414 | the project is open and the callback is called once if one was given |
| Projects.Project.EngineOpened | core/project.h:345-349 | the engine is open, and the project opens when the code base already was |
| Projects.Project.CodebaseOpened | core/project.h:358-362 | the code base is open, and the project opens when the engine already was |
| Projects.Project.Create | core/project.h:203-229 | refused, changing nothing, for an open or loaded project, a directory that cannot be made or an existing configuration file, each error exactly in its case; otherwise the parameters with a separator after the path, still neither open nor loaded, with the component flags and the callback request untouched |
| Projects.Project.UpdateConfig | core/project.h:242-248 | accepted exactly when the project path is unchanged, and then all parameters are replaced; the open, loaded, component and callback state never changes |
| Projects.Project.Close | core/project.h:254-256 | only the open flag is cleared: parameters, loaded flag, component flags, callback request and callback count all stay |
| Projects.OpenWhenBothReport | core/project.h:339-363 | a loaded project opens, and tells its caller once, after both components report, in either order, and not after the first |
| Projects.CreateThenOpen | core/project.h:178-229 | the object that created a project cannot open it, since create does not mark it loaded |
| Projects.LoadedConfigPath | core/project.h:376-418 | a loaded project's configuration file lies right under its directory |
| Projects.ValueOr | core/project.h:385-388 | a configuration value, or the default when the key is missing |

## Left out

- Processes, pipes and the network: starting cscope and ctags, writing to them and reading from them. Their output reaches the model as strings given to `OnOutput`, and their exit as the arguments of `HandleFinished` and `BuildProcessFinished`.
- The file system: whether a directory or a configuration file exists or can be read or created is an input (`DirState`, `ProjectDir`, the `configReadable` flag and the `StoredConfig` values). Writing the configuration file (`core/project.h:398-408`) and loading and storing the settings through QSettings (`app/settings.cpp:38-71`) are left out.
- Projects.Project.Open: the calls that open the engine and the code base are left out, together with any exception they throw. Their callbacks are the separate events `EngineOpened` and `CodebaseOpened`, in either order.
- Projects.Project.Create: the same object cannot open the project it has just created, because create does not set the loaded flag even though the comment at `core/project.h:168-169` says it does. The code is followed here (`CreateThenOpen`). The application opens a created project through a new object (`app/mainwindow.cpp:279-283`, `app/projectmanager.h:78-88`).
- Qt view plumbing is left out: signals, model resets beyond a reset counter, row-insertion notifications, icons (a tag icon is an `IconValue` naming the tag type), translations of titles, and status or progress messages beyond the records the reactions keep. The same goes for the code-base model's `index`, `parent`, `rowCount`, `data` and `headerData` (`core/codebasemodel.cpp:71-148`). The list and tree models' `data` only call `LocationData`.
- The debugging `verify` methods of the models are left out, since they are compiled only without `QT_NO_DEBUG`.
- Stale or foreign model indexes are left out. Each index is a row or a path of the current tree, and the tree model's members require `IsIndex`. An index whose item is missing, which the source checks for, is never produced by the model.
- Crossrefs.OpenOutcome: an initialisation string with no part makes `takeFirst` act on an empty list, which Qt leaves undefined. The model reports it as the error `NoPath`.
- Crossref::build only starts a cscope process with the stored directory and arguments. It is modelled by `Cscope.CscopeProcess.Build` and `BuildProcessFinished`.
- Ctags.CtagsProcess.ParseAttributeAction requires a non-empty location list: the source calls `last()` on the list, which is undefined when it is empty.
- Ctags.ParsedLocation requires a non-empty fourth capture, since the source reads its first character.
- Globals.DefaultQuery: the default query leaves its flags uninitialised (`core/globals.h:248`). The model takes whatever they hold as a parameter and states nothing about them.
- Key events: a Qt key code is reduced to its low byte, as the cast to a character in `editor/viscintilla.cpp` does. The modifiers are reduced to none, Control, Shift or other. What the Scintilla editor itself does with a key, a move or an edit is a logged effect, not a change of text.
- CharSequences.CharSequence: a view whose indices fall outside its buffer is not modelled beyond its bounds. `Contents` and `ToUInt` require `InRange()`, and `Append` and `Clear` require `Valid()`, so reading such a view (`editor/viscintilla.h:124-141`) or appending through it is not described. Sharing of one buffer between a sequence and its copies is modelled.
- `ViScintilla::nextWord` is declared but has no definition in the source, so it is not part of this model.
- StateMachine: the parser may loop forever on a Kleene star whose body matches without consuming input. `Parser.Run` reports this as `Diverges`. The machine requires every rule to halt and to advance on a full match (`RulesHalt`, `WellFormed`).
- Parser: a partial literal match compares the text with the length of the whole input, not the remaining input (`core/parser.h:203-204`). The model keeps this, and `CscopeScenarios.SplitLineAfterStartLineFails` shows a line split after its first character that is then not recognised.
- CodebaseRoundTrip.GetFilesAfterAddFiles: the round trip is stated as equality of the two collections' members, not of the lists, so order and duplicates in the input list are not compared.
- TreeItems: the tree of `core/treeitem.h` is a value (`TreeItems.Tree`), and `AddChild` and `Clear` are functions that return the new tree instead of updating a node in place (`core/treeitem.h:76-84`, `core/treeitem.h:146-151`). The parent pointer and node addresses are not modelled: a node is reached by its path of child positions, the parent by dropping the last one, and the returned `SelfT*` of `addChild` and `child` is the child's position. Sharing of a node between two pointers cannot arise.
- Parser.NumberSpec: the captured value is the unbounded decimal value of the digit run. The source adds up the digits in a signed `int` (`core/parser.h:240`, `core/parser.h:266`), which overflows for a value above 2147483647. That is undefined in C++ and wraps in practice. The wrapped value then reaches `toUInt()` in the reactions (`cscope/cscope.h:145-146`, `cscope/cscope.h:177`, `cscope/cscope.h:208`).
- Parser.MatchNumber: the same unbounded accumulator, with no 32-bit overflow.
- Parser.CapCount: -1 for a Kleene star comes from the comments at `core/parser.h:46-51` and `core/parser.h:126-132`. The `Kleene` template (`core/parser.h:383-401`) declares no `capCount_`, so a rule holding a star does not compile in `Transition::matches` (`core/statemachine.h:115`). `StateMachine.ValidRule` therefore excludes stars from rules, and `StateMachine.Machine.Matches` always builds a sized list. The unsized list and its append defect (see "Findings") are latent: no state machine reaches them.
- Globals.ParseUInt: `QString::toUInt` also skips leading and trailing whitespace and accepts a leading '+'. The model fails on such texts. The failure above 4294967295 is modelled.
- Globals.IsDigit: only the ASCII digits count. `QChar::digitValue` (`core/parser.h:250`) also reads other Unicode decimal digits.
- Parser.IsSpace: only ASCII white space counts. `QChar::isSpace` (`core/parser.h:345`) also accepts other Unicode spaces.
- Cscope.QueryArgs: the header declares `query` with a `QueryType` (`cscope/cscope.h:63-64`), while the definition takes a `QueryArg` holding a type and flags (`cscope/cscope.cpp:117-129`). `QueryArg` is not part of this model. The model follows the definition, so `Cscope.CscopeProcess.Query` takes the type and the flags separately. `Crossref::query` passes only the translated type (`cscope/crossref.cpp:218`), so the query's flags, and with them `-C` for a case-insensitive search, never reach cscope by that route (`Crossrefs.TranslateIgnoresCase`).
- Settings.Added: it composes the corrected removal (`Settings.Removed`), not the erase loop as written that addRecentProject calls (`app/settings.cpp:83`, `app/settings.cpp:98-102`). The as-written composition is `Settings.AddedAsWritten`. `Settings.AddedAsWrittenAgrees` proves the two agree when paths are unique and the path is not on the last entry (unless it is first). `Settings.AddedAsWrittenKeepsDuplicate` and `Settings.AddedAsWrittenPastEnd` show where they differ.
- Settings.Recent.AddRecentProject: like `Settings.Added`, it calls the corrected `RemoveRecentProject`. On a list holding the path twice, or holding it on its last entry (when that is not the first), it does not reproduce the source.
- CodebaseModel.Inserted: the descent of `addFile` from node to node is modelled on a value tree. The node reached is designated by the components followed, not by its address.
- Memory management (`setDeleteOnExit`, destructors) and the Qt object tree are left out.

## Findings

| source | as written | input that shows it | evidently intended | confidence | as-written member | corrected member |
|---|---|---|---|---|---|---|
| core/parser.h:84-91 | when the vector is full, the value is appended but `used_` is not incremented, so the next value overwrites it | two values appended to a default (unsized) capture list: only the second is kept, in slot 0; latent, since the state machine only builds sized lists (`core/statemachine.h:115`) | every appended value is kept in the next slot and counted | not executed | ParserImpl.CapList.Append, ParserImpl.UnsizedAppendOverwrites | ParserImpl.CapList.Push, ParserImpl.PushAllSpec |
| app/settings.cpp:98-102 | after `erase` returns the next element, the loop's `++itr` skips it, and after erasing the last element it steps past `end()` | a list of recent projects holding the same path twice in a row keeps the second; a list whose last entry has the path steps past its end | every entry with the path is removed, and the loop stops at the end | not executed | Settings.RemoveAsWritten, Settings.RemoveAsWrittenSkipsNeighbour, Settings.AddedAsWritten, Settings.AddedAsWrittenKeepsDuplicate | Settings.Removed, Settings.RemovedSpec, Settings.Added |
