# Verified models of the HolyPHP compiler and its companions

HolyPHP is a PHP-like language compiled through C. This project models the parts of its repository that
carry the most state and branching, and proves properties of them for every input and every run:

- **Control-flow lowering** (`SourceLanguage`, `TargetLanguage`, `Lowering`, `LoweringProof`, `LoweringLimits`,
  `LoweringNames`, `Emission`, `EmissionLimits`, `EmissionReader`): statements with completions Normal, Break, Continue, Return and Throw become C with
  labels, gotos and try helpers that share an env record. The translation is proved to keep store, output and
  completion; where it cannot, the exact condition is proved. The emitter that appends to one buffer per nesting
  level is proved to write the lines of that translation, and a reader that knows nothing but the lines gets it
  back from them. Expressions are an arbitrary `World`: what each does to
  the store, what it yields and whether it throws.
- **Parsing** (`Tokens`, `TypeSyntax`, `ExprSyntax`, `ExprRoundTrip`, `ExprImage`, `ExprSpellings`, `Parser`, `NewlineFilter`,
  `NewlineGrammar`): type
  annotations and expressions as grammar functions, the recursive methods over the token cursor that compute them,
  printers they invert, and the filter that decides which newlines survive.
- **String templates and C literals** (`Texts`, `Template`, `TemplateEscapes`, `CLiteral`, `Trigraphs`): two scanners that have
  to agree on one string and undo the escaping of any text, and two emitters inverted by the C reading rules.
- **Concatenation chains** (`DotChain`): balancing keeps meaning and order, with logarithmic depth.
- **Closure capture and borrow checking** (`Capture`, `CaptureChecker`, `Loans`).
- **Import loader** (`Loader`), **package archives** (`Bytes`, `Archive`) and **the index of installed packages**
  (`Registry`, `RegistryOps`).
- **1BRC aggregation** (`BrcRows`, `BrcTable`, `BrcReport`, `BrcOrder`): the open-addressing table refines the
  reference dictionary.
- **Server slot engine** (`SlotEngine`, `SlotRuns`, `SlotHistory`, `SlotAnswers`, `SlotLosses`, `SlotLoop`, `Delivery`,
  `Response`, `ResponseHead`): a completion-driven state machine over whole runs, its loop on arrays, which requests
  are answered with what and which connections end, what goes on the wire, and what a client reads there.

Code that changes state is modelled by methods proved against specification functions; the properties are lemmas
about those functions. A cursor into a buffer is kept as what is left of the buffer from it on, and calls of the C
library (`memchr`, `strstr`, `qsort`) are functions with the library's contract. Clocks, sockets, the database and
process control are parameters or left out. `dafny verify dfyconfig.toml` checks everything.

## Where the code departs from what it promises

Each entry names a lemma with an input that shows it and one that says exactly when it happens.

- `hp_try_run` signals a pending exception by a value that is not null, so throwing null inside `try` is swallowed
  (`LoweringLimits.NullThrowIsSwallowed`), and `break` out of a try that is inside a loop inside another try leaves
  the outer try (`LoweringLimits.BreakLeavesTheOuterTry`); these are the two outcomes a try statement cannot deliver
  (`LoweringProof.TryCorrectIffDelivers`).
- A clause with a type catches everything (`LoweringLimits.TypedClauseCatchesEverything`), and of several clauses all
  bodies run (`LoweringLimits.EveryClauseRuns`). A try statement always behaves as if each clause were run in turn
  until one does not end normally (`LoweringProof.TryRunsAsEmitted`), so it is right exactly when that comes to
  running the first clause that catches (`LoweringProof.HandlerCorrectIff`, `LoweringProof.TryCorrectIffClausesAgree`).
- Try statements nested more than eight deep write a helper definition inside another function
  (`EmissionLimits.NineTriesAreTooMany`, `EmissionLimits.HelpersAtFileScopeIff`).
- `$c ? $x : f` does not parse, because `$x : f` is taken for a typed declaration
  (`ExprImage.UnparenthesisedThenBranchIsLost`); a then-branch needs parentheses exactly when it ends in a variable
  and the else-branch starts like a type (`ExprImage.ParenthesesNeededIff`).
- `&mut T`, `Rc<T>`, `callable`, classes named like a built-in type and references to a class named `mut` do not
  survive printing and parsing (`TypeSyntax.LostTypes`; `TypeSyntax.TypeRoundTrip`, in both directions).
- 256 open brackets fill the newline filter's stack, and a block inside them loses its statement ends
  (`NewlineFilter.StatementEndLost`); with fewer it does not (`NewlineFilter.BraceTooDeepIff`), for up to there the
  stack is the true nesting (`NewlineFilter.StackIsTrueNesting`).
- The comment on the newline filter says a newline right behind an operator is dropped; behind `<<=`, `>>=` and `??=`
  it stays and the assignment is an error (`NewlineGrammar.BreakIsLost`), unless it stands in parentheses or the next
  line goes on with what belongs to the left (`NewlineGrammar.BreakBehindIff`).
- The comment on captures says nested closures pass their captures outward; a variable in the `use` list of an
  inner closure that is not read there is not passed on (`Capture.UseIsNotPassedOn`), and nothing else is missing
  (`Capture.PassedOnIff`).
- A full loan table forgets borrows, and a conflict goes unnoticed (`Loans.FullTableForgets`); the report is right for
  all runs of up to 65 borrows and for no greater length (`Loans.RightUpToRoom`).
- A hex escape of the code generator's literals runs on into a hex digit behind it (`CLiteral.HexEscapeRunsOn`,
  `CLiteral.LiteralReadsBack`); the generator of bundled files closes the literal there and is always right
  (`CLiteral.PiecesReadBack`).
- A compiler that replaces trigraphs reads other text (`Trigraphs.BackslashTrigraphIsLost`), among texts without the
  trigraph for a backslash exactly those with a trigraph (`Trigraphs.IsoLiteralReadsBack`).
- The index of installed packages loses entries behind a package or version called `name` and the version of a
  package called `version` (`Registry.EntryBehindNameIsLost`, `Registry.ReadUndoesWrite`).
- The 1BRC table's sentinels cut off extremes beyond 1000 degrees (`BrcOrder.SentinelCutsOff`,
  `BrcOrder.ReportIsReferenceIff`).
- A connection whose handler finds no submission entry, or a write that finds the batch full, is lost for good
  (`SlotLosses.ConnectionIsLost`; `SlotRuns.EveryRunKeepsAllOwned`, `SlotRuns.LostInEveryRun`), and so is the listener
  when there is no entry to arm it again (`SlotLosses.ListenerIsLost`, `SlotRuns.RunKeepsListener`).

## Model

| member | source | states |
|---|---|---|
| `LoweringProof.FunctionCorrect` | src/hphpc/codegen.c:2401-2841 | a compiled function body ends as its statements do, with the same store and output, for every world, store and program whose tries deliver their outcome |
| `LoweringProof.StmtCorrect` | src/hphpc/codegen.c:2401-2841 | the code of one statement, wherever it stands, ends as the statement does: as the C statement of the same name, or reported in the env record when it leaves a try helper |
| `LoweringProof.SeqCorrect` | src/hphpc/codegen.c:2222-2225 | the same for a list of statements, jumps to its labels included |
| `LoweringProof.IfCorrect` | src/hphpc/codegen.c:2498-2519 | either branch of a conditional keeps the completion |
| `LoweringProof.ForCorrect` | src/hphpc/codegen.c:2627-2658 | a loop whose body ends in the label of `continue` and the steps behind it goes round as the source loop does, for any number of rounds |
| `LoweringProof.LoopStmtCorrect` | src/hphpc/codegen.c:2521-2537 | while, do and foreach loops keep completion and store |
| `LoweringProof.DoCorrect` | src/hphpc/codegen.c:2539-2556 | `continue` in a do loop still tests the condition |
| `LoweringProof.EachCorrect` | src/hphpc/codegen.c:2227-2308 | a foreach loop binds key and item of each step of the iteration, which the body may change under way, and stops where the source stops |
| `LoweringProof.TryCorrect` | src/hphpc/codegen.c:2694-2829 | body and clauses as helpers, `finally`, and the dispatch on `act` together behave as try/catch/finally |
| `LoweringProof.TryRunsAsEmitted` | src/hphpc/codegen.c:2694-2829 | whatever the clauses of a try statement: the code runs the body, on a throw every clause in turn until one does not end normally, then `finally`, and delivers what is pending |
| `LoweringProof.TryCorrectIffClausesAgree` | src/hphpc/codegen.c:2771-2783 | a try statement that can deliver its outcome is compiled correctly if and only if running every clause in turn ends like running the first one that catches |
| `LoweringProof.HandlerRunsAll` | src/hphpc/codegen.c:2771-2785 | the catch helper leaves what running all clauses in turn leaves, a variable of string type taking the message of the value thrown last, and without clauses hands the exception back |
| `LoweringProof.HandlerCorrectIff` | src/hphpc/codegen.c:2771-2783 | the catch helper does what the clauses mean if and only if running all of them comes to the same, a thrown null counted as a normal end |
| `LoweringProof.ClausesAgreeIff` | src/hphpc/codegen.c:2771-2783 | an exception no clause catches gets out only if the clauses throw it again from an unchanged store; behind a catching clause that ends normally the later ones must leave everything as it is |
| `LoweringProof.LaterClauseAgreesIff` | src/hphpc/codegen.c:2771-2783 | when a later clause is the first that catches, the ones in front run as well: where they end normally and leave what it starts from only the ones behind it matter, otherwise how they end is how the handler ends |
| `LoweringProof.FirstClauseDecides` | src/hphpc/codegen.c:2771-2783 | a first clause that catches, and is the only one or does not end normally, makes the two agree |
| `LoweringProof.HandlerCorrect` | src/hphpc/codegen.c:2771-2783 | when the first clause catches the exception, the catch helper leaves what running that clause leaves; with no clause it hands the exception back |
| `LoweringProof.ProtectedCorrect` | src/hphpc/runtime/hphp_rt.c:1215-1241 | running the helpers under hp_try_run gives what the protected part of the statement gives, a throw inside the handler included |
| `LoweringProof.DispatchCorrect` | src/hphpc/codegen.c:2800-2824 | after `finally`, the pending exception, return, break or continue comes out as the statement's completion |
| `LoweringProof.TryCorrectIffDelivers` | src/hphpc/codegen.c:2694-2829 | a try statement with correct parts is compiled correctly if and only if its outcome is one the dispatch can deliver at that place |
| `LoweringProof.UndeliveredIsLost` | src/hphpc/codegen.c:2800-2824 | what the dispatch cannot deliver is lost: the code falls through or forwards the wrong thing |
| `LoweringProof.SeqHasNoLabel` | src/hphpc/codegen.c:2521-2556 | a statement defines no label that an enclosing list could jump to by mistake |
| `LoweringLimits.PlainFunctionCorrect` | src/hphpc/codegen.c:2401-2841 | the syntactic class of programs that are always compiled correctly: at most one untyped clause per try, no null thrown, no break or continue out of a try in a loop in a try |
| `LoweringLimits.PlainIsFaithful` | src/hphpc/codegen.c:2694-2829 | every execution of a program of that class delivers all its outcomes |
| `LoweringLimits.NullThrowIsSwallowed` | src/hphpc/runtime/hphp_rt.c:1215-1241 | a thrown null ends the try normally |
| `LoweringLimits.UncaughtIsSwallowed` | src/hphpc/codegen.c:2771-2783 | an exception that no clause catches is swallowed by any try statement whose clauses and `finally` end normally |
| `LoweringLimits.TypedClauseCatchesEverything` | src/hphpc/codegen.c:2771-2783 | a clause for another type is run all the same |
| `LoweringLimits.EveryClauseRuns` | src/hphpc/codegen.c:2771-2783 | both clauses of a try print |
| `LoweringLimits.BreakLeavesTheOuterTry` | src/hphpc/codegen.c:2663-2679 | a break meant for a loop between two tries leaves the outer helper |
| `LoweringNames.EachNameOnce` | src/hphpc/codegen.c:2521-2537 | every label and every helper number issued while compiling a statement is defined in its code exactly once, and no other |
| `LoweringNames.EachNameOnceSeq` | src/hphpc/codegen.c:2694-2829 | the same for lists, try helpers included |
| `SourceLanguage.ExceptionIsLast` | src/hphpc/runtime/hphp_rt.c:1180-1199 | whatever a statement throws is the value thrown last, so the first clause that runs gets the message of the exception it catches |
| `SourceLanguage.NoStrayBreak` | src/hphpc/codegen.c:2663-2679 | a statement accepted outside loops never completes with break or continue |
| `TargetLanguage.RunAppend` | src/hphpc/codegen.c:2530-2533 | emitted code in two parts runs like its first part and then, from where a fall-through or a jump leads, its second |
| `TargetLanguage.FindAppend` | src/hphpc/codegen.c:2673-2676 | a jump finds its label in the first part of the code that has it |
| `Emission.Codegen.EmitStmt` | src/hphpc/codegen.c:2401-2841 | emitting a statement appends exactly the lines of its translation to the current buffer, those of its try helpers to the next ones, all levels below the eighth to the last, and puts every saved field back |
| `Emission.Codegen.EmitSeq` | src/hphpc/codegen.c:2222-2225 | the same for a list, numbers running on from one statement to the next |
| `Emission.Codegen.EmitIf` | src/hphpc/codegen.c:2498-2519 | head, branches and closing lines of a conditional, in the current buffer |
| `Emission.Codegen.EmitLoop` | src/hphpc/codegen.c:2521-2556 | the loop label is pushed for the body and popped behind it |
| `Emission.Codegen.EmitFor` | src/hphpc/codegen.c:2627-2658 | initialisation in front, steps behind the label |
| `Emission.Codegen.EmitReturn` | src/hphpc/codegen.c:2445-2479 | a return inside a helper saves its value in the env and reports 1 |
| `Emission.Codegen.EmitTry` | src/hphpc/codegen.c:2694-2829 | the whole try statement: opening lines, two helpers in the next buffer, call, `finally` and dispatch |
| `Emission.Codegen.EmitHelpers` | src/hphpc/codegen.c:2727-2799 | the nesting level, the helper flag and the loop depth are changed for the helpers and restored |
| `Emission.Codegen.EmitClauses` | src/hphpc/codegen.c:2771-2783 | the bodies of all clauses, one behind the other |
| `Emission.Codegen.EmitDispatches` | src/hphpc/codegen.c:2800-2824 | the dispatch lines of the place the try stands in |
| `Emission.LinesAppend` | src/hphpc/codegen.c:2727-2734 | the lines of two pieces of code are the lines of the first and then of the second, buffer by buffer |
| `EmissionLimits.HelpersAtFileScopeIff` | src/hphpc/codegen.c:2723-2732 | every helper of a function body is defined outside other functions if and only if its try statements nest at most eight deep |
| `EmissionLimits.NineTriesAreTooMany` | src/hphpc/codegen.c:2723-2732 | eight nested tries have all their helpers at file scope, nine have not |
| `EmissionLimits.DepthKept` | src/hphpc/codegen.c:2694-2829 | the emitted code nests its tries as the statements do |
| `EmissionReader.EmittedIsRead` | src/hphpc/codegen.c:2401-2841 | for statements whose tries nest at most eight deep a reader of the lines, their braces, `} else {` and helper numbers gets from the buffers exactly the translation the code was emitted for, and no line is left over |
| `EmissionReader.EmittedFunctionCorrect` | src/hphpc/codegen.c:2498-2841 | so the code read back from the emitted lines ends as the statements do, with the same store and output |
| `EmissionReader.EmitFunction` | src/hphpc/codegen.c:2498-2841 | what the emitter appends for a whole function body reads back as its translation |
| `EmissionReader.LoweredElseOk` | src/hphpc/codegen.c:2507-2516 | a conditional has a second branch only behind an else line |
| `Tokens.SpellingUndoesIntern` | src/hphpc/parser.c:484-570 | interning keeps every identifier apart from every other, type names and their aliases included |
| `TypeSyntax.TypeRoundTrip` | src/hphpc/ast.c:98-179 | parsing a printed type gives that type back and uses up exactly its tokens if and only if the type is printable |
| `TypeSyntax.LostTypes` | src/hphpc/ast.c:98-179 | one type of each kind that does not read back |
| `TypeSyntax.ParamsRoundTrip` | src/hphpc/ast.c:157-170 | the same for the parameter list of a function type |
| `Parser.ExprParser.Type` | src/hphpc/parser.c:452-605 | the method on the cursor computes the type grammar, result and remaining tokens alike |
| `Parser.ExprParser.NamedType` | src/hphpc/parser.c:482-605 | each type name does what the grammar says of it |
| `Parser.ExprParser.FnType` | src/hphpc/parser.c:516-531 | the parameter loop collects the types up to the closing parenthesis |
| `ExprImage.ParsingUndoesPrinting` | src/hphpc/parser.c:936-1250 | for every expression tree, printing it with the parentheses the grammar needs and parsing it gives the same tree and consumes exactly its tokens |
| `ExprImage.PrintingUndoesParsing` | src/hphpc/parser.c:936-1250 | whatever parses can be printed and parses to the same tree again |
| `ExprImage.ParserBuildsExactlyTheWellFormed` | src/hphpc/parser.c:936-1250 | the trees of the round trip are exactly the trees the parser builds |
| `ExprImage.PrintingIsInjective` | src/hphpc/parser.c:936-1096 | different trees print different tokens |
| `ExprImage.ReadsBackIff` | src/hphpc/parser.c:936-947 | printed without parentheses an expression reads back if and only if it does not end in a variable in front of a colon and a type |
| `ExprImage.ParenthesesNeededIff` | src/hphpc/parser.c:927-1037 | a conditional reads back without parentheses around its then-branch if and only if the branch does not end in a variable or the else-branch does not start like a type |
| `ExprImage.UnparenthesisedThenBranchIsLost` | src/hphpc/parser.c:927-940 | without parentheses a bare variable in the then-branch is fatal |
| `ExprImage.IncrementsAreSteps` | src/hphpc/parser.c:976-990 | for every target `t++` is read as the tree of `t = t + 1` and `t--` as that of `t = t - 1`, up to the same token |
| `ExprImage.LadderIsRead` | src/hphpc/parser.c:1040-1096 | a line with one operator of each level, loosest first, and no parentheses is read as operations nested to the right |
| `ExprSpellings.NameIsVariable` | src/hphpc/parser.c:1361-1512 | a bare name is read as the variable of that name |
| `ExprSpellings.ParenthesesAreIgnored` | src/hphpc/parser.c:1463-1486 | parentheses around any expression leave its tree as it is |
| `ExprSpellings.CommaBehindArguments` | src/hphpc/parser.c:1131-1140 | a comma behind the last argument changes nothing |
| `ExprSpellings.TupleMayEndInComma` | src/hphpc/parser.c:1463-1486 | nor does one behind the last element of a tuple |
| `ExprSpellings.NameStandsForFullType` | src/hphpc/parser.c:484-570 | a container type without its element types is read as the written-out type, in every spelling of its name |
| `ExprSpellings.ErrorTypeMayBeLeftOut` | src/hphpc/parser.c:482-605 | a result type with one type has a string error |
| `ExprSpellings.FunctionTypeSpellings` | src/hphpc/parser.c:516-531 | every word for a function type reads the same |
| `ExprRoundTrip.AssignTrip` | src/hphpc/parser.c:936-1011 | assignments, compound assignments, typed declarations and everything tighter read back |
| `ExprRoundTrip.TernaryTrip` | src/hphpc/parser.c:1015-1037 | `??` and `?:` read back, grouped to the right |
| `ExprRoundTrip.LevelTrip` | src/hphpc/parser.c:1040-1075 | an operator of a level reads back grouped to the left, its operands at their levels |
| `ExprRoundTrip.PowTrip` | src/hphpc/parser.c:1084-1096 | `**` reads back grouped to the right |
| `ExprRoundTrip.UnaryTrip` | src/hphpc/parser.c:1098-1129 | prefix operators, borrows and dereferences read back |
| `ExprRoundTrip.PostfixTrip` | src/hphpc/parser.c:1142-1250 | a postfix operand reads back whatever suffixes follow it |
| `ExprRoundTrip.ArgListTrip` | src/hphpc/parser.c:1131-1140 | argument lists read back |
| `ExprRoundTrip.TupleTrip` | src/hphpc/parser.c:1463-1486 | tuples of every length read back, the one-element tuple with its comma |
| `ExprSyntax.LevelsByStrength` | src/hphpc/parser.c:1040-1055 | the table of eleven levels lists exactly the operators of each strength |
| `Parser.ExprParser.Assign` | src/hphpc/parser.c:936-1011 | the method computes the grammar of assignments, its three tokens of lookahead included |
| `Parser.ExprParser.Ternary` | src/hphpc/parser.c:1015-1037 | the method computes the grammar of `??` and `?:` |
| `Parser.ExprParser.BinopLevel` | src/hphpc/parser.c:1058-1075 | the loop that rebuilds its left operand computes the left-grouped tree of a level |
| `Parser.ExprParser.FindOperator` | src/hphpc/parser.c:1063-1065 | the scan of a level's table finds exactly its operators |
| `Parser.ExprParser.Pow` | src/hphpc/parser.c:1084-1096 | the method computes the right-grouped tree of powers |
| `Parser.ExprParser.Unary` | src/hphpc/parser.c:1098-1129 | the method computes the grammar of prefix operators and borrows |
| `Parser.ExprParser.Postfix` | src/hphpc/parser.c:1142-1250 | the suffix loop computes the grammar of indexing, members and calls |
| `Parser.ExprParser.CallArgs` | src/hphpc/parser.c:1131-1140 | the argument loop stops at a closing parenthesis, at the end, or where no comma follows |
| `Parser.ExprParser.Primary` | src/hphpc/parser.c:1361-1512 | the method computes the grammar of primary expressions |
| `NewlineFilter.FilterNewlines` | src/hphpc/parser.c:107-157 | the loop with its bracket array, depth and previous kind computes the filter |
| `NewlineFilter.TokensKept` | src/hphpc/parser.c:132-156 | every token that is no newline is kept, in order |
| `NewlineFilter.Idempotent` | src/hphpc/parser.c:132-156 | a second pass changes nothing, for any tokens at any depth |
| `NewlineFilter.InsertedNewline` | src/hphpc/parser.c:58-66 | an inserted newline leaves the output as it was if and only if it stands in `(` or `[`, behind a token that needs an operand or in front of one that continues; otherwise exactly that newline is added |
| `NewlineFilter.NewlineInsideBrackets` | src/hphpc/parser.c:58-62 | between an open `(` or `[` and anything behind whole groups a newline never matters, up to the depth limit |
| `NewlineFilter.StackIsTrueNesting` | src/hphpc/parser.c:129-144 | the bracket array holds the true nesting all along if and only if the nesting fits its 256 places |
| `NewlineFilter.GroupsAreNeutral` | src/hphpc/parser.c:135-144 | well-nested tokens leave the bracket stack as it was |
| `NewlineFilter.TooDeep` | src/hphpc/parser.c:136-139 | past the limit a newline that ends a statement is swallowed |
| `NewlineFilter.BraceTooDeepIff` | src/hphpc/parser.c:118-150 | from the start of a file, behind k open parentheses and a brace the end of a statement is swallowed if and only if k is at least 256 |
| `NewlineFilter.StatementEndLost` | src/hphpc/parser.c:118-150 | with 256 parentheses it is lost, with 255 it is not |
| `NewlineGrammar.LineMayBreak` | src/hphpc/parser.c:58-105 | any expression broken in front of a token that belongs to the left, or behind one that wants an operand other than `<<=`, `>>=` and `??=`, is read as the same tree after the filter |
| `NewlineGrammar.BreakBehindIff` | src/hphpc/parser.c:67-105 | behind a token that wants an operand a newline is dropped if and only if it is not one of those three, or parentheses are open, or the next token continues |
| `NewlineGrammar.BreakIsLost` | src/hphpc/parser.c:67-89 | a newline behind `??=` stays and the assignment is fatal |
| `NewlineGrammar.FilterKnowsGrammar` | src/hphpc/parser.c:67-105 | which operators, starts and ends of operands of the grammar the two lists of the filter hold |
| `Template.ScannerAndSplitterAgree` | src/hphpc/lexer.c:146-204 | for every terminated template the scanner stops at the quote behind the body; split again, every group closes inside it, there is one more chunk than expressions, and an escape-free body is rebuilt from them |
| `Template.SplitAgrees` | src/hphpc/lexer.c:146-204 | the splitter finds the groups and escapes the scanner skipped, with variable names taken together |
| `Template.InterpAgrees` | src/hphpc/lexer.c:303-338 | the scanner sees something to interpolate exactly where a name or a group begins |
| `Template.BracedIsLocal` | src/hphpc/lexer.c:178-196 | what a braced expression spans does not depend on what stands behind it |
| `Template.LexString` | src/hphpc/lexer.c:303-338 | the scanning loop, with its nested brace and quote loops, stops where the specification says and fails exactly on unterminated strings |
| `Template.LexTemplateParts` | src/hphpc/lexer.c:146-204 | the splitting loop yields the chunks and expressions of the specification |
| `Template.EmitTpl` | src/hphpc/codegen.c:340-378 | the declared number of parts and the parts themselves |
| `Template.CountIsRight` | src/hphpc/codegen.c:346-349 | the declared count is the number of parts whenever there is at most one more chunk than expressions |
| `Template.TemplateCountIsRight` | src/hphpc/codegen.c:346-375 | which every template satisfies |
| `Template.InterleaveRebuilds` | src/hphpc/lexer.c:168-201 | chunks and expressions put together again are the body |
| `TemplateEscapes.TextReadsBack` | src/hphpc/lexer.c:154-166 | any text whatever, its newlines, tabs, returns, NULs, quotes, backslashes and dollar signs escaped, is read back as one chunk |
| `TemplateEscapes.PartsReadBackIff` | src/hphpc/lexer.c:146-204 | any chunks, escaped, with names and groups between them are read back if and only if no name stands directly behind an opening brace or in front of a character of a name |
| `TemplateEscapes.GroupsAlwaysFit` | src/hphpc/lexer.c:178-196 | with groups between them any chunks are read back |
| `TemplateEscapes.ScanEndsAtQuote` | src/hphpc/lexer.c:303-338 | the scanner takes such a body up to its closing quote, whatever stands behind it |
| `TemplateEscapes.BackslashIsKept` | src/hphpc/lexer.c:154-166 | a backslash in front of any other character keeps both |
| `TemplateEscapes.SameAsInC` | src/hphpc/lexer.c:154-166 | the escapes that C has too stand for the same characters |
| `TemplateEscapes.ClosesIffBalanced` | src/hphpc/lexer.c:178-196 | the expressions a group can hold are exactly those made of characters, whole strings and braces in pairs |
| `CLiteral.LiteralReadsBack` | src/hphpc/codegen.c:314-330 | a C compiler reads the emitted literal as the text it was made from if and only if no hex escape stands in front of a hex digit |
| `Trigraphs.IsoLiteralReadsBack` | src/hphpc/codegen.c:314-330 | in ISO mode a text without the trigraph for a backslash reads back from its literal if and only if it has no trigraph and no hex escape in front of a hex digit |
| `Trigraphs.BackslashTrigraphIsLost` | src/hphpc/codegen.c:314-330 | in ISO mode the text of that trigraph does not read back |
| `Trigraphs.IsoPiecesReadBack` | scripts/genembed.c:26-49 | in ISO mode a bundled file without trigraphs reads back |
| `CLiteral.HexEscapeRunsOn` | src/hphpc/codegen.c:314-330 | the character with code 1 in front of an a is read as the one with code 26 |
| `CLiteral.EmitCString` | src/hphpc/codegen.c:314-330 | the loop emits the escaped characters of the whole text between quotes |
| `CLiteral.PiecesReadBack` | scripts/genembed.c:26-49 | joining the emitted pieces gives back exactly the text, whatever its characters and wherever lines are broken |
| `CLiteral.EmbeddedFileReadsBack` | scripts/genembed.c:19-50 | the array of a bundled file holds the file up to its first NUL, and all of it exactly when it has none |
| `CLiteral.EmitEmbed` | scripts/genembed.c:26-49 | the nested loops with their line counter emit the pieces |
| `DotChain.EmitKeepsMeaning` | src/hphpc/codegen.c:73-82 | the balanced calls evaluate to the string of the left-nested chain, at every level of nesting |
| `DotChain.EmitKeepsOrder` | src/hphpc/codegen.c:62-71 | every operand is emitted once, in source order |
| `DotChain.BalancedDepth` | src/hphpc/codegen.c:49-51 | n operands nest at most ceil(log2 n) deep |
| `DotChain.BalancedIsFlattest` | src/hphpc/codegen.c:49-51 | no arrangement of n operands is flatter |
| `DotChain.CeilLog2IsLeast` | src/hphpc/codegen.c:49-51 | the bound is the least k with n <= 2^k |
| `DotChain.DotChainLen` | src/hphpc/codegen.c:53-60 | the length equals the number of operands that are gathered |
| `DotChain.DotCollect` | src/hphpc/codegen.c:63-71 | the array receives the first operands in source order, as many as fit |
| `DotChain.EmitDotChain` | src/hphpc/codegen.c:73-82 | the recursion over a range emits the balanced tree of that range |
| `CaptureChecker.CheckProgram` | src/hphpc/sema.c:1456-1537 | for every program each closure's list holds no variable twice and exactly its use list and the variables read in it or deeper and declared outside it |
| `CaptureChecker.Checker.Check` | src/hphpc/sema.c:1049-1060 | one node: scopes, numbers, finished lists and the lists of all open closures grow as the nesting demands |
| `CaptureChecker.Checker.NoteRead` | src/hphpc/sema.c:1049-1060 | comparing sequence numbers adds a read variable to exactly the closures it is declared outside of |
| `CaptureChecker.Checker.NoteCapture` | src/hphpc/sema.c:100-106 | a list gets a variable once |
| `CaptureChecker.Checker.DeclareVar` | src/hphpc/sema.c:264-278 | a declaration takes the number of its scope, and none when the scope is full |
| `CaptureChecker.Checker.CheckClosure` | src/hphpc/sema.c:1456-1537 | a closure with parameters and use list, closures nested up to 32 deep |
| `CaptureChecker.OpenedOutside` | src/hphpc/sema.c:248-252 | everything declared before a closure is opened has a smaller number than its scope |
| `Capture.PassedOnIff` | src/hphpc/sema.c:1049-1060 | what the closures inside a closure capture from outside it, and it does not, is exactly what only their use lists name; so all of it reaches the outer closure if and only if those use lists name nothing from outside that it neither uses nor reads |
| `Capture.CapturedIsUsedOrSeen` | src/hphpc/sema.c:1502-1524 | closures capture what their use lists name and at most what is read besides |
| `Capture.UseIsNotPassedOn` | src/hphpc/sema.c:1502-1524 | a use list is noted for its own closure only |
| `Capture.FindIsInnermost` | src/hphpc/sema.c:254-262 | a name means the last declaration of it in the innermost scope that has one, and nothing if and only if no scope has one |
| `Capture.CapturesReadsFromOutside` | src/hphpc/sema.c:1049-1060 | a closure captures exactly its use list and the variables of the scopes around it that are read in it at any depth |
| `Capture.HomesAreOutside` | src/hphpc/sema.c:1456-1537 | wherever a closure stands, the variables of the scopes around it are declared outside it |
| `Capture.ParameterIsNotCaptured` | src/hphpc/sema.c:1456-1537 | a variable that a closure declares again as a parameter is never captured by it, however often the name is declared outside |
| `Loans.CheckTrace` | src/hphpc/sema.c:1554-1565 | over any trace of borrows and block ends an error is reported exactly when some run between releases borrows a variable twice with a writer among the two, the first within the 64 places |
| `Loans.Table.Borrow` | src/hphpc/sema.c:1554-1565 | a borrow is refused exactly when it conflicts with one in the table |
| `Loans.Table.LoansOf` | src/hphpc/sema.c:511-517 | the two bits tell whether the variable is shared or written |
| `Loans.Table.ReleaseAll` | src/hphpc/sema.c:1894-1898 | a block end empties the table |
| `Loans.CleanTable` | src/hphpc/sema.c:1555-1563 | while no error is reported the table holds many readers or one writer for every variable |
| `Loans.RightUpToRoom` | src/hphpc/sema.c:497-517 | the report is right for all runs of a length if and only if at most one of the borrows finds no room |
| `Loans.FullTableForgets` | src/hphpc/sema.c:497-500 | with the table full a conflict is not noticed |
| `Loader.LoadCtx.LoadFile` | src/hphpc/main.c:1098-1118 | loading terminates on every import graph; it holds exactly what the root reaches, each file once, the root last, dependencies first unless the imports run in a circle; it fails exactly when an import below the root is not found |
| `Loader.LoadCtx.LoadSource` | src/hphpc/main.c:1098-1118 | loading one file loads what it reaches and leaves what is being loaded as it was |
| `Loader.LoadCtx.LoadOnce` | src/hphpc/main.c:993-999 | a file that was visited is not loaded again |
| `Loader.LoadCtx.LoadImport` | src/hphpc/main.c:1033-1096 | the first candidate that exists is loaded; none is an error |
| `Loader.FileSystem.FirstFileIsFirst` | src/hphpc/main.c:1033-1096 | the candidate found can be read and no earlier one can; none is found if and only if none can be read |
| `Loader.FileSystem.Finish` | src/hphpc/main.c:1108-1117 | adding a program whose imports are loaded or being loaded keeps the order |
| `Loader.FileSystem.LoadedIsReached` | src/hphpc/main.c:1098-1118 | when nothing is being loaded any more, the programs are exactly what the root reaches |
| `Loader.LoadCtx.MergePrograms` | src/hphpc/main.c:1126-1133 | merging keeps every declaration, file by file in the order of the programs |
| `Loader.FileSystem.DeclarationsInOrder` | src/hphpc/main.c:1126-1133 | in the merged program an import's declarations come before the importer's unless the imports run in a circle |
| `Archive.ExtractUndoesPack` | src/hphpc/pkgcore.c:401-469 | extracting a packed archive gives back exactly the packed files, any bytes, if and only if every name can stand in a header, is not refused and fits the header buffer |
| `Archive.ExtractTruncated` | src/hphpc/pkgcore.c:442-466 | of an archive cut off anywhere exactly the files that are wholly there are extracted |
| `Archive.ExtractedNamesAreClean` | src/hphpc/pkgcore.c:458-459 | nothing is ever extracted under an absolute name or one with `..` |
| `Archive.ExtractLeavesOutRefused` | src/hphpc/pkgcore.c:442-466 | an archive with refused names among others extracts to exactly the files with other names and lists all, up to the first whose header is too long |
| `Archive.RefusedIff` | src/hphpc/pkgcore.c:459 | a name is refused if and only if it begins with a slash or has two dots in a row |
| `Archive.HeaderReadsBack` | src/hphpc/pkgcore.c:407-412 | a packed header is read back as name and size |
| `Archive.ExtractArchive` | src/hphpc/pkgcore.c:435-469 | the extraction loop |
| `Archive.ListEntries` | src/hphpc/pkgcore.c:471-500 | the listing loop, which does not check that bodies are complete |
| `Archive.ExtractClean` | src/hphpc/pkgcore.c:471-500 | listing a packed archive gives the names that extracting gives |
| `Registry.ReadUndoesWrite` | src/hphpc/pkgcore.c:264-285 | for plain names and versions reading a written index gives the list back if and only if no entry with a version is called `version` and only the last one contains `name`; commas do not matter |
| `Registry.EntryBehindNameIsLost` | src/hphpc/pkgcore.c:264-297 | a package called name hides the one behind it, one called version loses its version |
| `Registry.ReadLine` | src/hphpc/pkgcore.c:270-281 | what reading makes of one line in front of any text |
| `Registry.SeekQuote` | src/hphpc/pkgcore.c:156-161 | the search comes to a quoted string: it is the key, or the search goes on at its closing quote |
| `RegistryOps.EveryRunIsAMap` | src/hphpc/pkgcore.c:264-326 | after any adds and removes the file reads as the list they leave, every name once |
| `RegistryOps.RunAll` | src/hphpc/pkgcore.c:287-326 | the operations run one after the other on one file |
| `RegistryOps.RegistryRead` | src/hphpc/pkgcore.c:264-285 | the reading loop |
| `RegistryOps.RegistryAdd` | src/hphpc/pkgcore.c:287-308 | the new file holds the list with the entry replaced or appended, its commas inconsistent |
| `RegistryOps.RegistryRemove` | src/hphpc/pkgcore.c:310-326 | the new file holds the list without the entry |
| `RegistryOps.AddIsUpdate` | src/hphpc/pkgcore.c:287-308 | adding changes the version of one name, keeps the order and puts a new name last |
| `RegistryOps.RemoveIsDelete` | src/hphpc/pkgcore.c:310-326 | removing takes out one name and no other |
| `RegistryOps.IsInstalled` | src/hphpc/pkgcore.c:328-335 | a name is installed exactly when the list has it |
| `BrcOrder.Report` | benchmarks/1brc.c:47-111 | for every file with at most 65536 stations the program prints the report of its rows |
| `BrcOrder.ReportIsReferenceIff` | benchmarks/1brc.c:82-84 | the program reports what the reference script does if and only if the extremes of every station are within the sentinels |
| `BrcOrder.SentinelCutsOff` | benchmarks/1brc.c:82-84 | for one row of 1000.1 degrees the program and the script differ |
| `BrcOrder.ReportIgnoresRowOrder` | benchmarks/1brc.c:89-111 | files with the same rows in any order are reported the same |
| `BrcOrder.OrderIsUnique` | benchmarks/1brc.c:91-93 | a set of names can be sorted in one way only, so the report does not depend on the sort |
| `BrcOrder.NameCmpIsTransitive` | benchmarks/1brc.c:23-30 | the comparison is transitive |
| `BrcOrder.NameCmpIsAntisymmetric` | benchmarks/1brc.c:23-30 | the comparison is antisymmetric and zero only for equal names |
| `BrcOrder.NameCmpIsDictionaryOrder` | benchmarks/1brc.c:23-30 | a name comes first if and only if, behind a common front, it ends or has the smaller byte |
| `BrcOrder.LineMeaning` | benchmarks/1brc.c:94-109 | each line of the report holds the rounded mean of the temperatures its station has in the rows, and their least and greatest as far as the sentinels |
| `BrcOrder.LinesCoverStations` | benchmarks/1brc.c:89-93 | every station of the rows has its line and no other, in dictionary order |
| `BrcOrder.Collect` | benchmarks/1brc.c:89-92 | the stations in use are collected once each |
| `BrcReport.Aggregate` | benchmarks/1brc.c:47-87 | after the loop the table stands for the fold of all rows of the file |
| `BrcReport.FoldIgnoresOrder` | benchmarks/1brc.c:80-84 | the table depends only on the multiset of rows |
| `BrcReport.TableRefinesDictionary` | benchmarks/1brc_ref.py:18-37 | table and dictionary agree station by station, extremes cut off at the sentinels |
| `BrcReport.SameReportWithinSentinels` | benchmarks/1brc_ref.py:28-37 | a station is reported the same by both if and only if its extremes are within the sentinels |
| `BrcReport.DictionaryMeaning` | benchmarks/1brc_ref.py:28-37 | the dictionary holds the number, the sum, the least and the greatest of a station's temperatures |
| `BrcReport.MeanIsRounded` | benchmarks/1brc.c:99-103 | the printed mean is the one integer nearest to the exact mean, ties away from zero |
| `BrcReport.MeanIsBetween` | benchmarks/1brc_ref.py:41-44 | least <= mean <= greatest for every station |
| `BrcTable.Table.Probe` | benchmarks/1brc.c:64-72 | probing ends at the station's slot or at the first empty one |
| `BrcTable.Table.Record` | benchmarks/1brc.c:73-84 | one row updates one station and keeps the invariant: one slot a name, reachable from its hash without a gap |
| `BrcTable.ProbeStops` | benchmarks/1brc.c:68-72 | probing ends if and only if the name has a slot or some slot is empty |
| `BrcTable.ProbeFinds` | benchmarks/1brc.c:68-72 | an empty slot at the end of a probe means the name is not in the table |
| `BrcTable.StoreNew` | benchmarks/1brc.c:73-79 | a new station leaves no gap and no duplicate |
| `BrcTable.RoomForAll` | benchmarks/1brc.c:11 | a table for at most 65536 names always has a slot for one of them |
| `BrcRows.RowsReadBack` | benchmarks/1brc.c:48-62 | reading written rows gives the rows back if and only if no name contains a semicolon |
| `BrcReport.ReadTemperature` | benchmarks/1brc.c:55-62 | sign, digits and one digit behind the point |
| `SlotEngine.EveryRunIsSafe` | scratch/update_std.py:213-480 | in every reachable state the free stack holds each free slot once and nothing else, every connection owns at most one receive, send or waiting write, and between turns no slot is queued |
| `SlotEngine.CompleteOk` | scratch/update_std.py:222-418 | handling any completion of an operation in flight keeps the invariant |
| `SlotEngine.AcceptOk` | scratch/update_std.py:227-252 | accepting takes a slot from the stack, or closes when there is none |
| `SlotEngine.RecvOk` | scratch/update_std.py:259-383 | a received request keeps the invariant, whatever it asks for |
| `SlotEngine.SendOk` | scratch/update_std.py:384-415 | a completed send keeps the invariant: the rest is sent, the connection is read again or freed |
| `SlotEngine.CommitOk` | scratch/update_std.py:430-477 | after a group commit no write waits and no slot is queued |
| `SlotEngine.RoomToFree` | scratch/update_std.py:259-263 | the unguarded push onto the free stack never overflows it and never pushes a slot twice |
| `SlotEngine.NoneLostExactly` | scratch/update_std.py:244-248 | every live connection owns exactly one operation after a completion if and only if it did before and the handler found the entry or the place it needs |
| `SlotEngine.LostForGood` | scratch/update_std.py:320-382 | a connection without an operation never gets one again |
| `SlotEngine.CommitLosesNone` | scratch/update_std.py:467-471 | a commit loses no connection if and only if there are entries for all its answers |
| `SlotRuns.EveryRunKeepsAllOwned` | scratch/update_std.py:213-480 | after every run from the start each live connection owns exactly one receive, send or waiting write if and only if no turn of the run lacked a submission entry or a place in the batch |
| `SlotRuns.RunLosesNone` | scratch/update_std.py:213-480 | the same from any state of the invariant |
| `SlotRuns.TurnLosesNone` | scratch/update_std.py:213-480 | a turn loses no connection if and only if no handler and no commit in it lacks what it needs |
| `SlotRuns.CompletionsLoseNone` | scratch/update_std.py:218-418 | the same for the completions of a turn |
| `SlotRuns.LostInEveryRun` | scratch/update_std.py:213-480 | a connection that owns nothing owns nothing after any run: its slot is never used again |
| `SlotRuns.RunKeepsListener` | scratch/update_std.py:420-428 | the server still accepts after a run if and only if each time the listener fired there was an entry to arm it again |
| `SlotHistory.ClosedIffAsked` | scratch/update_std.py:268-413 | in every run, when the last send of an answer has gone out, the connection is closed and its slot freed if and only if some request received since the slot was last accepted said close; otherwise it stays open and the next request is read |
| `SlotHistory.OpenedWaits` | scratch/update_std.py:227-252 | an accepted connection gets a free slot and waits there for its first request |
| `SlotAnswers.EveryRequestIsAnswered` | scratch/update_std.py:266-477 | in every turn of every run each request that comes in has its answer in its slot at the end of the turn, to be sent from the first byte to the connection it came from: its own at once, or the j-th of the commit for the j-th write that found room |
| `SlotAnswers.WritesWaitInOrder` | scratch/update_std.py:320-382 | the writes of a turn wait in the order in which they came in, as many as the batch holds |
| `SlotAnswers.CommitAnswersInOrder` | scratch/update_std.py:430-477 | a commit puts the j-th answer into the slot of the j-th waiting write and leaves the other slots alone |
| `SlotLosses.ConnectionIsLost` | scratch/update_std.py:320-345 | a run from the start, with all entries free in each turn, in which the 129th write of a turn is lost |
| `SlotLosses.ListenerIsLost` | scratch/update_std.py:420-428 | a run from the start in which 1024 answers leave no entry to accept again |
| `SlotEngine.StartOk` | scratch/update_std.py:195-209 | the initial stack holds every slot once |
| `SlotEngine.DecodeUndoesEncode` | scratch/update_std.py:247-255 | slot and operation are recovered from the user data |
| `SlotLoop.Engine.OneTurn` | scratch/update_std.py:213-480 | one turn of the loop on the arrays does what the state machine does |
| `SlotLoop.Engine.Handle` | scratch/update_std.py:222-418 | one completion on the arrays |
| `SlotLoop.Engine.CloseSlot` | scratch/update_std.py:259-263 | closing a connection pushes its slot within the bounds of the stack |
| `SlotLoop.Engine.CommitAll` | scratch/update_std.py:430-477 | the loop over the batch answers every waiting write in order |
| `Delivery.DeliveredIsResponse` | scratch/update_std.py:389-402 | whatever the other connections do and however the sends of a connection are cut, what goes out of its write buffer is the front of the response put there, and all of it if and only if every send took something and together they took it all; until then the slot keeps count |
| `Delivery.SendsAreChained` | scratch/update_std.py:384-415 | over any run each send of a slot asks for what the ones before it left, and nobody touches its write buffer meanwhile |
| `Delivery.WireIsFront` | scratch/update_std.py:390-396 | chained sends bring out what was left of a response once and in order |
| `Delivery.AnswerSends` | scratch/update_std.py:118-121 | answering a request starts to send from the first byte |
| `Response.ClientReadsWhole` | scratch/update_std.py:104-122 | a client that reads by Content-Length reads nothing until every byte of the response is out, and then the body |
| `Response.ResponseIsNotEarly` | scratch/update_std.py:104-122 | no proper front of a response is a message |
| `Response.ResponseReadsBack` | scratch/update_std.py:104-122 | any body is read back whole from its response by Content-Length |
| `Response.ResponseFits` | scratch/update_std.py:104-122 | the length of a response in terms of its body; every body that fits the buffer it is composed in gives a response that fits the slot |
| `ResponseHead.ClientReadsHead` | scratch/update_std.py:104-122 | a client reads status 200, the type the body was said to have, and that the connection stays if and only if it is kept alive |
| `Response.MakeResponseFast` | scratch/update_std.py:104-122 | the pieces copied into the slot's buffer are the response |
| `Response.FastU64toa` | scratch/update_std.py:64-76 | the scratch array holds every 64-bit number and the digits come out in order behind what the buffer holds |

## Left out

- Control flow: switch statements, which compile to C switch or to a chain of string comparisons.
- Emission.Codegen.EmitStmt: does not model the fatal error beyond 64 captured locals.
- Boxing of values, C types of locals, indentation and the declarations of env fields: grouped into one emitted line each.
- Expressions outside the operator grammar: floats, templates, closures, `new`, `match`, array literals, `::`, slices, casts and type tests; the parser methods say where they begin (`LeftOut`).
- The lexer proper: tokens come with their kind, and identifiers are interned words.
- TypeSyntax.TypeRoundTrip: does not model how symbols written without a space between them lex, because it prints one token per symbol.
- Parser.ExprParser.Postfix: does not model casts and type tests, whose types follow an expression.
- CLiteral.LiteralReadsBack: does not model trigraphs, which compilers replace in ISO mode only; `Trigraphs` does.
- CLiteral.PiecesReadBack: does not model trigraphs either; in ISO mode a line end may still break one up, so `Trigraphs.IsoPiecesReadBack` is one-way.
- Trigraphs.IsoLiteralReadsBack: does not model texts with the trigraph for a backslash in general, whose literals swallow what follows them.
- Parser.ExprParser.Primary: does not model floats, templates, closures, `new`, `match` and array literals.
- Template.EmitTpl: does not model chunks that contain a NUL, which C string functions cut short.
- CaptureChecker.CheckProgram: does not model program globals, by-reference captures, `compact` and borrows of captured variables, nor types and the rest of the checks.
- Loader.LoadCtx.LoadImport: does not model how candidate paths are built from the import spec; the list of candidates and the readable files are arbitrary.
- Archive.ExtractUndoesPack: does not model files that change while they are packed, and position arithmetic is unbounded where the code's pointers could wrap.
- Directories, downloads, manifests and version comparison of the package manager.
- BrcReport.Aggregate: does not model overflow of the 32-bit digits and 64-bit sums, and what lies behind the last byte of the file is one arbitrary byte.
- BrcOrder.Report: does not model the decimal rendering of tenths through doubles.
- BrcReport.TableRefinesDictionary: does not model the dictionary script's decoding of UTF-8 and its stripping of blanks; rows are given.
- SlotEngine.EveryRunIsSafe: does not model request texts, SQL and the composition of JSON bodies; a completion comes with what its request asks for.
- The object cache, the runtime library beyond hp_try_run, the user interface, the editor extension and the build scripts.
