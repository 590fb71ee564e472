# Intend C, the hard parts

Intend C is an embeddable scripting language with a tree-walking interpreter written in C. This
project models the parts of it whose behaviour does not follow from reading one function, and
proves what those parts promise. Nothing of it is executed; the Dafny verifier is the only judge.
`dafny verify dfyconfig.toml` checks the whole project.

| files | what they model |
|---|---|
| `control_*.dfy` | the statement evaluator: break, continue, return, throw and exit as flags and counters in one shared state, calls with frames and reference arguments, element assignment in place, and the structured semantics the flags stand for |
| `syntax.dfy`, `printer*.dfy` | the expression printer that decides parentheses from precedences, and a reader with the grammar's precedences |
| `builder_*.dfy` | the parser actions: several stacks from which trees are built in the order of the grammar's reductions |
| `symtab_*.dfy` | the bucketed symbol table with its hash, its free slots, its enumeration and its copies, and the stack of local tables over the global one |
| `data.dfy`, `array_*.dfy` | script values, and the array whose vector and key table share their cells |
| `heap_*.dfy` | values as nests of numbered cells: deep copy, release, and the reference counts of resources |
| `index_paths.dfy` | assignment and reading through paths of positions, keys and fields |
| `path_*.dfy` | the path normaliser, which works in place in a growing buffer |
| `splitting.dfy` | splitting a string at a separator and joining the pieces |
| `casts.dfy`, `ordering.dfy`, `typed_calls.dfy` | casts, the order on values and the sortedness test, and calls checked against prototypes |

Code that changes state in place is modelled twice: as a class or an array method that does what
the source does, and as a function that the method is proved against and that the theorems are
about. Evaluation takes fuel, one unit per loop round and per call, and `None` is a run that has not
ended within it; `control_fuel.dfy` shows that more fuel never changes a run that has ended.

What such a function computes is in turn fixed by laws that do not repeat it: `control_laws.dfy` and
`control_programs.dfy` for the language (a for loop is a while loop, a switch is the block that it
selects, a function that returns its parameter returns the argument), `heap_steps.dfy` for what each
operation leaves and takes away, and the laws at the end of the other files. The reader of printed
expressions has a table of its own, taken from the grammar's declarations.

## Where the code departs from what it promises

Each of these is modelled as the code has it. The lemma named shows it, and the theorems either
hold with it or say for which inputs they hold.

- A `return` under two nested loops never ends (`Deviations.ReturnUnderTwoLoopsDiverges`): the
  inner loop clears the break flag and the outer one tests its condition with nothing evaluated.
- The test of a `do` loop runs with the continue flag up, which cuts short any function it calls
  (`Deviations.ContinueCutsTestShort`); a `break` outside the loops of a function ends it when the
  caller is in a loop (`Deviations.BreakEndsCallee`); a `break` in a group that falls through lets
  the next group's first statement run (`Deviations.BreakRunsNextGroup`).
- A throw in the expression of a `return` skips the handler, in the expression of a `throw` it loses
  its value, and in an operand of a division it ends the program (`Deviations.ThrowInReturnSkipsHandler`,
  `Deviations.ThrowOfThrowLosesValue`, `Deviations.ThrowInDivisionQuits`). `Safe.SafeStmt`, which
  `ControlTheorems.ProgramRefines` asks of a script, keeps out the places where any of this can
  happen: a throw matters only where a try may be open, a continue only in a loop body that has one,
  a break in a falling group only where a loop or function is around, a return only in a function.
- An element assignment evaluates its indices while elements are copied out. A throw in a later index
  erases the element (`Deviations.ThrowInIndexErases`), what a call there does to it is lost
  (`Deviations.IndexCallIsLost`), and an index that assigns to the array's own name ends the program
  (`Deviations.AssignInIndexQuits`). Inside a function it changes the global array of its name, and
  makes a local copy of it (`Deviations.SetterReaches`); `ControlTheorems.CallIsolation` says that
  nothing else passes the frame that is not passed with `&`.
- The grammar declares `++` left associative for both positions, so that the printed form of a prefix
  increment of a postfix operator is read as the postfix operator of a prefix increment. The printer
  takes the other view. `PrinterReading.GrammarReadsBack` gives the trees for which they agree.
- The comment on `symtab_delete` says that freed memory is reused by later symbols of the bucket. It
  never is (`SymtabTable.FreeForever`).
- Adding a class whose definition is already there leaves it with its old parent
  (`SymtabTable.ApplyRefines`).
- The search for a variable looks past a local function or class of the name, and finds a global
  variable that a lookup does not (`SymtabStack.VariableBehindFunction`).
- A position before the start of an array writes its first element but reads as void
  (`ArrayItems.GetAfterSetAt`, `IndexPaths.GetAfterSetPath`).
- Splitting with an empty separator never ends on a string that is not empty (`Splitting.LoopEnds`),
  and a string whose split from the left ends with a separator loses it in the round trip
  (`Splitting.RoundTrip`).
- Testing neighbours decides sortedness on arrays of one type (`Ordering.SortedMeansAllPairs`). That is
  sufficient and not necessary: on mixed types the test can be true with a pair out of order
  (`Ordering.MixedTypesMislead`), and it can be right, as with anything sorted behind void elements.

## Model

| member | source | states |
|---|---|---|
| ControlTheorems.ProgramRefines | libintend/libeval/eval_stmt.c:50-340 | a safe script, with typed calls, returns, switch and exceptions, ends exactly when its structured semantics does, with the same store when it ends normally, or both quit; whether a script is safe is decided by its text |
| Refinement.RefineStmt | libintend/libeval/eval_stmt.c:201-340 | from any calm state in any context (in a loop, a function, a try), the flag machine on a safe statement and the structured semantics end together, with flags that encode the outcome and the same store |
| Refinement.RefineSeq | libintend/libeval/eval_stmt.c:50-65 | a statement list stops at the first break, continue, return or throw, with the structured outcome of the whole list |
| Refinement.RefineExpr | libintend/libeval/eval_expr.c:70-168 | a safe expression gives the structured value and store, and a throw inside it leaves the exception pending with the thrown value |
| Refinement.RefineCall | libintend/libeval/eval_call.c:251-286 | a call resolves its callee, evaluates its arguments in order, holds them and the result against the declared types, enters and leaves one frame, and gives the structured result, through returns, throws and exits in the body |
| Refinement.RefineRun | libintend/libeval/eval_stmt.c:116-154 | a function body run by the flag machine returns what a structured function returns, and a throw in it stays pending for the caller |
| Refinement.RefineTry | libintend/libeval/eval_stmt.c:319-328 | a throw inside a try section, in it or in any function it calls, runs its handler with the thrown value; with no throw the handler does not run |
| Refinement.RefineLoop | libintend/libeval/eval_stmt.c:237-250 | while and for loops, by rounds, agree with structured loops: break leaves, continue goes to the next test, return and throw pass through |
| Refinement.RefineRepeat | libintend/libeval/eval_stmt.c:251-266 | the same for a do loop, whose test runs with the continue flag still up |
| Refinement.RefineSwitch | libintend/libeval/eval_switch.c:43-85 | a switch takes the first matching case or the last default, and falls through groups, as the structured one does |
| Balance.ExecBalance | libintend/libeval/eval_stmt.c:201-340 | over all programs, safe or not: a statement leaves the loop, function and try counters as they were, break implies continue if it did, a pending exception implies an open try if it did, and unless it exits it writes to the topmost local table only, but for elements of arrays in the global one |
| Balance.RunBalance | libintend/libeval/eval_stmt.c:116-154 | over all functions: no break, continue or return flag survives a call, and the counters come back |
| Balance.CallBalance | libintend/libeval/eval_call.c:251-286 | over all calls: the frame stack is as deep after a call as before it, with every local table below the top unchanged and the global one too but for elements of its arrays, unless the call exits |
| ControlTheorems.NothingPendingOutsideTry | libintend/libruntime/except.c:48-102 | over all scripts: at the end every counter is zero and no exception is pending |
| ControlTheorems.CallIsolation | libintend/libeval/eval_call.c:251-286 | a call changes a local caller's table at no name that is not passed with &, no local table below it, and in the global table nothing but elements of arrays; a caller outside every function keeps the names it did not pass, but for elements of its arrays |
| ControlTheorems.CallCopiesOut | libintend/libeval/eval_call.c:159-203 | a plain & argument receives the final entry of its parameter, which is still bound whatever modelled statements the body is made of, the last one when a name is passed twice; when an argument threw, nothing is written back |
| ControlTheorems.WriteBackOnly | libintend/libeval/eval_call.c:159-203 | the write-back changes only the names passed with & |
| ControlTheorems.WriteBackAt | libintend/libeval/eval_call.c:159-203 | the write-back gives a name the parameter's entry, whatever is written back after it to other names |
| Fuel.MoreExec | libintend/libeval/eval_stmt.c:201-340 | a run that ends is unchanged by more fuel, so that the fuel only bounds how long a run is looked at |
| LanguageLaws.BindingsOfCall | libintend/libeval/eval_stmt.c:116-154 | for any parameters and arguments: each argument is bound to its parameter unless a later one has the name, argc and argv are bound to their number and to all of them unless a parameter has the name, and nothing outside the call's own scope changes |
| LanguageLaws.ArgumentArrives | libintend/libeval/eval_stmt.c:133-135 | the table of a call holds the i-th argument under the i-th parameter |
| LanguageLaws.ArithmeticLaws | libintend/libeval/eval_math.c:44-90 | sums commute and differences undo them, and a product is a repeated sum |
| LanguageLaws.DivisionLaws | libintend/libeval/eval_math.c:95-145 | division and remainder fail exactly for a zero divisor, put the dividend together again, and leave a remainder smaller than the divisor with the dividend's sign |
| LanguageLaws.OperandLaws | libintend/libeval/eval_infix.c:146-241 | operands count as numbers, two values are equal when they are the same and no arrays, and unequal otherwise |
| LanguageLaws.CastLaws | libintend/libruntime/value_cast.c:365-404 | a cast has the kind asked for, keeps what has it, and fails exactly from another kind to functions |
| LanguageLaws.FitAllAt | libintend/libruntime/call_check.c:144-181 | arguments are accepted when each fits its own declaration, and then each is what its declaration makes of it |
| LanguageLaws.AcceptLaws | libintend/libruntime/call_check.c:144-181 | a function accepts its arguments if and only if there are enough and each fits its own declaration |
| LanguageLaws.ScopeLaws | libintend/libruntime/symtab_stack.c:82-120 | a new entry is found and hides what it shadows, no other name is touched, and a function sees the global scope but not its caller's |
| LanguageLaws.ElementLaws | libintend/libruntime/value_array.c:144-219 | an element is read back where it was written exactly when the position is in reach, all others are as before, and gaps are void |
| LanguageLaws.AssignedLaws | libintend/libeval/eval_assign.c:149-201 | an element assignment leaves the changed array under its name in the innermost table, and in the global one if it was found there, and no other name changed |
| LanguageLaws.DefaultIsLast | libintend/libeval/eval_switch.c:43-85 | the default group of a switch that counts is the last one |
| ProgramLaws.ChoiceLaws | libintend/libeval/eval_stmt.c:218-236 | a negated condition swaps the branches, an if is one with an empty else, and a conditional expression is an if between expressions |
| ProgramLaws.BooleanLaws | libintend/libeval/eval_bool.c:43-89 | the Boolean operators are conditionals that give truth values |
| ProgramLaws.ConstantChoice | libintend/libeval/eval_stmt.c:221-236 | a condition holds when its value is not zero as a number |
| ProgramLaws.FunctionLaws | libintend/libeval/eval_stmt.c:162-193 | a declaration is the assignment of a lambda to its name, and marking an expression with & does not change its value |
| ProgramLaws.BlockLaws | libintend/libeval/eval_stmt.c:50-65 | blocks only group |
| ProgramLaws.AssignmentReads | libintend/libeval/eval_assign.c:40-59 | an assignment has the value assigned, the name reads it from then on, and no other name changes |
| ProgramLaws.OperandOrder | libintend/libeval/eval_infix.c:146-241 | operands are evaluated from left to right, each once |
| ProgramLaws.JumpSkips | libintend/libeval/eval_stmt.c:50-65 | what stands behind a jump in a block is not run |
| ProgramLaws.ForIsWhile | libintend/libeval/eval_stmt.c:237-284 | a for loop whose body has no continue of its own is its initializer and a while loop that ends with the guard, for all parts, in every context and under any fuel |
| ProgramLaws.DoIsWhile | libintend/libeval/eval_stmt.c:251-266 | a do loop is its body once and then the while loop |
| ProgramLaws.ContinueEndsRound | libintend/libeval/eval_stmt.c:285-290 | a loop whose body begins with a continue is the loop with an empty body |
| ProgramLaws.JumpsOutOfLoops | libintend/libeval/eval_stmt.c:237-310 | a break ends its loop, and a return all loops of its function, as the manual has it |
| ProgramLaws.CountingLoop | libintend/libeval/eval_stmt.c:237-250 | a loop that counts down goes round exactly as often as it started from and adds up what it adds each time |
| ProgramLaws.ThrowLaws | libintend/libeval/eval_stmt.c:319-331 | a throw runs the handler of the innermost try with the value under its name, may be thrown on to the next, and ends the program outside every try |
| ProgramLaws.SwitchSelects | libintend/libeval/eval_switch.c:43-85 | a switch with constant labels is the block of the bodies from the first label that has the value up to the first that does not fall through, or else the last default |
| ProgramLaws.ProjectionReturns | libintend/libeval/eval_stmt.c:116-154 | a function that returns its i-th parameter returns the i-th argument |
| ProgramLaws.ArgumentsReturn | libintend/libeval/eval_stmt.c:120-135 | a function that returns argc or argv returns the number of arguments, or all of them |
| ProgramLaws.ThrowCrossesCalls | libintend/libeval/eval_stmt.c:116-154 | what a called function throws is caught around the call |
| ProgramLaws.TypedIdentity | libintend/libruntime/call_func.c:44-91 | a function that returns its parameter returns the argument cast first as the parameter and then as the result is declared, or ends the program where one does not fit |
| Deviations.ReturnUnderTwoLoopsDiverges | libintend/libeval/eval_stmt.c:237-250 | a return under two nested loops runs for ever, where the structured function returns: the inner loop clears the break flag |
| Deviations.PendingReturnSpins | libintend/libeval/eval_stmt.c:243-247 | a loop whose test stays true and that is entered with a return pending never ends |
| Deviations.ContinueCutsTestShort | libintend/libeval/eval_stmt.c:257-263 | a do loop left by continue and tested with a call that is assigned: the call stops after the first statement of its body, and the variable ends as void where the structured loop ends with the returned value |
| Deviations.BreakEndsCallee | libintend/libeval/eval_stmt.c:291-296 | a break outside every loop of a function ends it when the function is called from inside a loop |
| Deviations.BreakRunsNextGroup | libintend/libeval/eval_switch.c:63-80 | in a loop, a break in a group that falls through still runs the first statement of the next group |
| Deviations.ThrowInReturnSkipsHandler | libintend/libeval/eval_stmt.c:297-310 | a throw in the expression of a return inside a try skips the handler |
| Deviations.ThrowOfThrowLosesValue | libintend/libeval/eval_stmt.c:329-331 | a throw of an expression that throws loses the first value |
| Deviations.ThrowInDivisionQuits | libintend/libeval/eval_infix.c:146-241 | a throw in an operand of a division makes the division fatal |
| Refinement.RefineDirect | libintend/libeval/eval_assign.c:64-201 | evaluating indices one by one while elements are copied out and put back is one write along the evaluated path, to the array in the table where it was found, and under the name in the innermost table |
| Refinement.RefineElem | libintend/libeval/eval_ref.c:64-125 | reading elements along a path agrees with the structured reading, which evaluates no index of what is no array |
| Elements.QuietKeeps | libintend/libeval/eval_assign.c:64-201 | evaluating an index without assignments and & leaves every array in the table it was found in, whatever functions it calls |
| Deviations.ThrowInIndexErases | libintend/libeval/eval_assign.c:64-141 | a throw in a later index of an element assignment puts void in place of the element that had been copied out |
| Deviations.IndexCallIsLost | libintend/libeval/eval_assign.c:64-141 | what a function called in a later index does to the element that has been copied out is undone |
| Deviations.AssignInIndexQuits | libintend/libeval/eval_assign.c:64-201 | an index that assigns to the array's own name makes the assignment an internal error |
| Deviations.SetterReaches | libintend/libeval/eval_assign.c:149-201 | an element assignment in a function changes the global array of that name, though nothing was passed |
| Interpreter.Interp.EvalStmt | libintend/libeval/eval_stmt.c:201-340 | the imperative interpreter with the source's flags does, statement by statement, what the flag machine function says |
| Interpreter.Interp.EvalStmtList | libintend/libeval/eval_stmt.c:50-65 | the list loop, which stops on any flag, is the flag machine on the list |
| Interpreter.Interp.WhileRounds | libintend/libeval/eval_stmt.c:237-284 | the while and for loops, which clear continue and test break each round, are the machine's rounds |
| Interpreter.Interp.DoRounds | libintend/libeval/eval_stmt.c:257-263 | the do loop is the machine's |
| Interpreter.Interp.AssignArrayDirect | libintend/libeval/eval_assign.c:149-201 | changing the array where it is found, or a new one, and adding it to the innermost table is the machine's assignment |
| Interpreter.Interp.SetInArray | libintend/libeval/eval_assign.c:64-141 | the recursion over indices, each evaluated when it is reached, is the machine's |
| Interpreter.Interp.EvalRefArray | libintend/libeval/eval_ref.c:112-125 | reading an element is the machine's reading |
| Interpreter.Interp.Dispatch | libintend/libruntime/call_func.c:44-91 | checking the arguments, running the function and checking its result, unless something is pending, is the machine's call of a function |
| Interpreter.Interp.CheckArgs | libintend/libruntime/call_check.c:144-181 | casting the arguments one by one accepts exactly those that fit the declared types, and leaves them as the function is run on them |
| Interpreter.Interp.RunUserFunc | libintend/libeval/eval_stmt.c:116-154 | binding, running and stamping a call's return value by its cookie is the machine's function run |
| Interpreter.Interp.EvalCallExpr | libintend/libeval/eval_call.c:251-286 | arguments, frame, dispatch and write-back in the source's order are the machine's call |
| Interpreter.Interp.UpdateCallArgs | libintend/libeval/eval_call.c:159-203 | the write-back loop over arguments and parameters is the write-back function that CallCopiesOut is about |
| Interpreter.Interp.ExceptThrow | libintend/libruntime/except.c:48-63 | a throw with an open try makes the exception pending, and without one sets the exit flag |
| Interpreter.Interp.ExceptCatch | libintend/libruntime/except.c:89-102 | catching closes the innermost try and takes the pending value, if there is one |
| PrinterReading.PrintedIsRead | libintend/libparser/expr_dump.c:252-266 | what is printed for a well-formed expression by the printer's precedences is read by those that the grammar declares, whole, as one determined tree |
| PrinterReading.PrintedReadsBack | libintend/libparser/expr_dump.c:252-266 | when postfix operators bind tighter than prefix increments, that tree is the printed one |
| PrinterReading.UniqueReadability | libintend/libparser/expr_dump.c:252-266 | two well-formed trees that print to the same tokens are equal |
| PrinterReading.GrammarReadsBack | libintend/libparser/icl_grammar.y:114-125 | under the grammar's declared associativity the printed tree comes back if and only if no prefix increment stands directly on a postfix operator |
| PrinterReading.MergedIndexPrintsAlike | libintend/libparser/expr_dump.c:234-246 | an index node with two indices prints like two nodes with one each |
| PrinterReading.TablesAgree | libintend/libparser/expr_dump.c:44-139 | the printer's table of precedences is the grammar's declarations, line by line and side by side |
| PrinterReading.BareIsFlat | libintend/libparser/expr_dump.c:252-266 | an expression whose operands the grammar reads without parentheses is printed without any, as its names, literals and operators in order |
| PrinterReading.ReadExpr | libintend/libparser/expr_dump.c:283-397 | in any context whose operators bind no tighter than the expression's right side, reading what is printed gives the tree and goes on with the rest |
| PrinterOutput.Stdout.ExprDump | libintend/libparser/expr_dump.c:283-397 | the tokens written to the stream, in order, are those of the tree, in front of whatever is written next |
| PrinterOutput.Stdout.ExprDumpArgs | libintend/libparser/expr_dump.c:221-229 | the argument loop writes a comma after every argument but the last |
| PrinterOutput.Stdout.ExprDumpIndex | libintend/libparser/expr_dump.c:234-246 | the index loop writes brackets around every index that is not a field |
| PrinterOutput.PrependInjective | libintend/libparser/expr_dump.c:283-397 | the stream determines the tokens, so that readability of trees carries over to what was written |
| BuilderInverse.BuildExpr | libintend/libparser/expr_parse.c:44-695 | running the actions of an expression in the grammar's order pushes that expression and leaves every other stack, and what is below, as it was |
| BuilderInverse.BuildStmt | libintend/libparser/stmt_parse.c:57-470 | running the actions of a statement appends it to the innermost list and leaves all else as it was |
| BuilderInverse.BuildStmts | libintend/libparser/stmt_parse.c:57-470 | the same for a list of statements, with nested calls, lambdas and functions |
| BuilderInverse.BuildArgs | libintend/libparser/expr_parse.c:617-628 | arguments stay on the expression stack in order with their number on the count stack, under any nesting of calls |
| BuilderInverse.BuildSwitch | libintend/libparser/stmt_parse.c:369-420 | switches and cases come back, a case that holds only a break as an empty one that does not fall through |
| BuilderInverse.BuildIfElse | libintend/libparser/stmt_parse.c:87-107 | the two branches of an if come back in order |
| BuilderInverse.BuildIf | libintend/libparser/stmt_parse.c:87-107 | an if without else comes back without one |
| BuilderInverse.BuildFunc | libintend/libparser/stmt_parse.c:299-364 | a function comes back with its return type, parameter types and names, and the definitions around it are kept |
| BuilderInverse.BuildLambda | libintend/libparser/stmt_parse.c:515-561 | a lambda comes back as a nameless function around a block, whatever statements it holds |
| BuilderInverse.OpAssignIsSugar | libintend/libparser/expr_parse.c:105-127 | an operator assignment builds what the assignment of the operator expression builds |
| BuilderInverse.OpAssignArrayIsSugar | libintend/libparser/expr_parse.c:157-185 | the same for elements, with the index in both places |
| BuilderInverse.ArrayInitIsCall | libintend/libparser/expr_parse.c:309-351 | an array initializer is a call on alternating keys and values, with void for a missing key |
| BuilderInverse.StructInitIsCall | libintend/libparser/expr_parse.c:309-351 | a struct initializer is a call on alternating names and values |
| BuilderInverse.EmptyInitIsCall | libintend/libparser/expr_parse.c:283-307 | without elements they are calls without arguments |
| BuilderInverse.UseIsCall | libintend/libparser/expr_parse.c:353-375 | a use is a call of the module loader on the names |
| BuilderInverse.StmtComesBack | libintend/libparser/stmt_parse.c:57-470 | a statement comes back from the parser as it went in if and only if no case anywhere in it holds a break alone, and such a case comes back empty and does not fall through |
| BuilderParser.ParserData.SafeArgs | libintend/libparser/expr_parse.c:44-58 | the vector filled backwards from the stack holds the counted arguments in order |
| BuilderParser.ParserData.StmtEndIf | libintend/libparser/stmt_parse.c:87-107 | popping one branch and then perhaps another gives the if action |
| BuilderParser.ParserData.StmtEndCase | libintend/libparser/stmt_parse.c:400-418 | rewriting a lone break in place gives the case action |
| BuilderParser.ParserData.ExprEndLambda | libintend/libparser/stmt_parse.c:523-561 | leaving the list and the argument frame gives the lambda action |
| BuilderParser.ParserData.ExprEndOpAssignArray | libintend/libparser/expr_parse.c:157-185 | pushing the reference under the value, combining and popping gives the action |
| BuilderParser.ParserData.ParseStatements | libintend/libparser/stmt_parse.c:57-470 | after the actions of a statement list have run on the stacks in place, the innermost list has the statements appended and the other stacks are unchanged |
| SymtabHash.HashBelow | libintend/libruntime/symtab_entry.c:97-104 | the folded hash is below 2 to the order, for every order from 1 to 31 and every symbol |
| SymtabHash.HashOneMore | libintend/libruntime/symtab_entry.c:78-87 | one more byte is mixed in after all before it |
| SymtabHash.KnownHashes | libintend/libruntime/symtab_entry.c:78-87 | the hash of a letter and of a byte with its high bit set |
| SymtabHash.KnownHashOfTwo | libintend/libruntime/symtab_entry.c:78-87 | the hash of two letters |
| SymtabHash.KnownFolds | libintend/libruntime/symtab_entry.c:96-103 | the fold at small and large orders |
| SymtabHash.ComputeFnv1a | libintend/libruntime/symtab_entry.c:79-88 | the byte loop, with sign extension of bytes from 128 on, is the hash |
| SymtabTable.RunRefines | libintend/libruntime/symtab_entry.c:114-430 | after any sequence of additions of variables, functions and classes and deletions, every lookup gives what the same operations give on a finite map, and every live symbol is unique and in its hash bucket |
| SymtabTable.ApplyRefines | libintend/libruntime/symtab_entry.c:206-430 | each single operation does to the map it stands for what it says |
| SymtabTable.FreeForever | libintend/libruntime/symtab_entry.c:196-232 | a freed slot stays free whatever is added later |
| SymtabTable.EnumeratesOnce | libintend/libruntime/symtab_entry.c:167-194 | a symbol is found by lookup exactly when it is met at an index, and no symbol is met at two |
| SymtabTable.CopyRefines | libintend/libruntime/symtab_memory.c:192-248 | a copy is the map without its classes, slot for slot |
| SymtabTable.LookupIsLive | libintend/libruntime/symtab_entry.c:135-158 | lookup gives an entry exactly when some bucket has it in a used slot |
| SymtabClass.Symtab.SymtabLookup | libintend/libruntime/symtab_entry.c:135-158 | the scan of the bucket finds the first slot with the symbol, or none |
| SymtabClass.Symtab.SymtabAddVariable | libintend/libruntime/symtab_entry.c:241-272 | in place, the variable operation |
| SymtabClass.Symtab.SymtabAddFunction | libintend/libruntime/symtab_entry.c:282-325 | in place, the function operation: a different entry is freed and the function appended |
| SymtabClass.Symtab.SymtabAddClass | libintend/libruntime/symtab_entry.c:389-431 | in place, the class operation: the same definition leaves the entry, and its parent, alone |
| SymtabClass.Symtab.SymtabDelete | libintend/libruntime/symtab_entry.c:206-230 | in place, the deletion, which leaves a free slot |
| SymtabClass.Symtab.SymtabGet | libintend/libruntime/symtab_entry.c:167-194 | the walk over buckets and slots gives the live entry with that index, or none |
| SymtabClass.Symtab.SymtabNumEntries | libintend/libruntime/symtab_entry.c:488-507 | the nested count is the number of live entries |
| SymtabClass.Symtab.SymtabCopy | libintend/libruntime/symtab_memory.c:226-248 | the nested copy, in a new object, is the copied table |
| SymtabStack.StackRunRefines | libintend/libruntime/symtab_stack.c:82-345 | over any sequence of entering and leaving frames and of additions and deletions in the topmost or the global table, a lookup gives what a stack of finite maps gives: the topmost frame, then the global map, nothing in between |
| SymtabStack.FramesKept | libintend/libruntime/symtab_stack.c:82-128 | whatever is done in frames entered later, the frames below are as they were |
| SymtabStack.VariableBehindFunction | libintend/libruntime/symtab_stack.c:269-302 | the search for a variable gives what a lookup finds, except that a local function or class does not hide a global variable from it |
| SymtabStack.SearchesMean | libintend/libruntime/symtab_stack.c:290-347 | what is local, what a lookup finds and what the search for a variable finds, in terms of the maps the tables stand for |
| SymtabStack.TableStack.StackPop | libintend/libruntime/symtab_stack.c:120-128 | the topmost table is taken off and handed over |
| SymtabStack.TableStack.StackApply | libintend/libruntime/symtab_stack.c:192-246 | additions and deletions go to the topmost local table, or to the global one when there is none |
| SymtabStack.TableStack.LookupEntry | libintend/libruntime/symtab_stack.c:269-281 | the two-step search is the lookup |
| SymtabStack.TableStack.GetVariable | libintend/libruntime/symtab_stack.c:290-302 | the two-step search for a variable is the one that VariableBehindFunction is about |
| ArrayItems.GetAfterSetAt | libintend/libruntime/value_array.c:144-221 | reading a position gives what was set there if and only if it is no earlier than the start, or it is the last of an empty array, or what was set is void |
| ArrayItems.SetAtElsewhere | libintend/libruntime/value_array.c:144-173 | a set at a position changes that element only, keeps its key, and fills the gap before it with voids without keys |
| ArrayItems.GetAfterSetKey | libintend/libruntime/value_array.c:47-135 | after a set by key that key gives the value, every other key what it gave, and keys stay unique |
| ArrayItems.KeyAgreesWithPosition | libintend/libruntime/value_array.c:182-221 | a key and the position of its element give the same value |
| ArrayItems.RunKeeps | libintend/libruntime/value_array.c:47-267 | over all runs of the array operations an element never moves or changes its key, and no key stands twice |
| ArrayItems.DeleteKeyDoes | libintend/libruntime/value_array.c:228-241 | the element with the key reads as void from then on, under its key and in its place, and every other one is as before |
| ArrayItems.DeleteAtDoes | libintend/libruntime/value_array.c:249-267 | the element at the position reads as void from then on, and every other one is as before |
| ArrayItems.AddDoes | libintend/libruntime/value_array.c:83-107 | an appended element is the last one, and all before it are as they were |
| ArrayClass.ValueArray.AddToKeyArray | libintend/libruntime/value_array.c:47-75 | vector and key table in place: the shared cell is overwritten or one is added to both, with the null after the last and room for it |
| ArrayClass.ValueArray.AddToArray | libintend/libruntime/value_array.c:83-110 | a new cell at the end of the vector only |
| ArrayClass.ValueArray.SetKeyArray | libintend/libruntime/value_array.c:119-135 | the element under the key is overwritten or appended, the invariant between vector and table kept |
| ArrayClass.ValueArray.SetArray | libintend/libruntime/value_array.c:144-173 | the fill loop and the write are the positional set |
| ArrayClass.ValueArray.GetKeyArray | libintend/libruntime/value_array.c:182-195 | the value of the element with the key |
| ArrayClass.ValueArray.GetArray | libintend/libruntime/value_array.c:204-219 | the value at the position, counted from the end if negative |
| ArrayClass.ValueArray.DeleteKeyArray | libintend/libruntime/value_array.c:228-241 | the element stays in place under its key and becomes void |
| ArrayClass.ValueArray.DeleteArray | libintend/libruntime/value_array.c:249-267 | the element stays in place and becomes void |
| HeapMachine.Conservation | libintend/libruntime/value_memory.c:63-113 | after any run of making, copying, appending, overwriting, cleaning and freeing, and of removing and replacing fields of structs, each count is the number of cells that hold the resource, and a resource was released once if it was made and no cell holds it, and otherwise never |
| HeapMachine.StepGood | libintend/libruntime/value_copy.c:104-161 | each step keeps every cell in one place and every count exact |
| HeapMachine.CopyIsSame | libintend/libruntime/value_copy.c:104-161 | after a copy the target has the source's shape, but for classes, and the source is unchanged |
| HeapMachine.CopyIsApart | libintend/libruntime/value_copy.c:104-177 | over every run after a copy: as long as each step writes within the copy, to cells that are apart from the source, or adds to or takes other things from a cell that holds the source, the source holds what it held and the two stay apart, though the copy be changed at any depth, copied or freed; and the same the other way |
| HeapMachine.StepApart | libintend/libruntime/value_copy.c:104-177 | each kind of step beside a cell, be it within one that is apart from it, elsewhere, or around it, keeps the two apart and leaves the cell as it was |
| HeapMachine.CopyGood | libintend/libruntime/value_copy.c:104-161 | a copy step keeps cells unique and counts exact even when the target stands in the source |
| HeapValues.CopyShape | libintend/libruntime/value_copy.c:47-97 | a copy has the same elements in the same order under the same keys, and free slots where classes were |
| HeapValues.CopyCells | libintend/libruntime/value_copy.c:47-97 | the cells of a copy are all new and each stands in it once |
| HeapValues.CopyHolds | libintend/libruntime/value_copy.c:90-96 | a copy holds each resource as often as its original |
| HeapValues.WriteElsewhere | libintend/libruntime/value_copy.c:104-161 | a write to a cell is not seen in any cell that neither holds it nor stands in it |
| HeapMachine.DropCounts | libintend/libruntime/value_memory.c:63-113 | cleaning a value lowers each count by the number of its holders in it, and releases exactly the resources whose count gets to zero |
| HeapSteps.FreeDoes | libintend/libruntime/value_memory.c:102-129 | freeing a value takes away its cell and all cells in it, lowers each count by its holders, releases what comes to nothing once, and leaves every other cell as it was |
| HeapSteps.CleanupDoes | libintend/libruntime/value_memory.c:63-113 | cleaning a cell leaves void in it and does the same to what it held |
| HeapSteps.MakeDoes | libintend/libruntime/value_cons.c:46-230 | a new value stands in a cell of its own, a new resource is held once, and nothing else changes |
| HeapSteps.CopyDoes | libintend/libruntime/value_copy.c:104-161 | the target of a copy lets go of what it held and takes what the source holds |
| HeapSteps.AppendDoes | libintend/libruntime/value_array.c:47-107 | an append adds one cell at the end with a copy of the source under the key, and keeps the entries before it |
| HeapSteps.RemoveDoes | libintend/libruntime/value_struct.c:84-93 | a removed field leaves a free slot and lets go of its value, and all other slots are as they were |
| HeapSteps.MethodDoes | libintend/libruntime/value_struct.c:98-112 | a method takes a new slot and no count changes |
| HeapSteps.CopyIntoItself | libintend/libruntime/value_copy.c:104-161 | an array copied into one of its own entries has there what was copied before it, and is the array elsewhere |
| HeapClass.Runtime.ValueCopy | libintend/libruntime/value_copy.c:47-97 | the recursive copy with its entry loop allocates and counts as the specification says |
| HeapClass.Runtime.ValueCleanup | libintend/libruntime/value_memory.c:63-113 | the recursive release with its entry loop lowers and releases as the specification says |
| HeapClass.Runtime.ValueCopyTo | libintend/libruntime/value_copy.c:104-161 | cleaning the target and then filling it is the copy step |
| HeapClass.Runtime.FillFrom | libintend/libruntime/value_copy.c:47-67 | copying an array entry by entry into the target in place, each entry read as it is by then, is the copy into the target |
| HeapClass.Runtime.ValueDeleteStruct | libintend/libruntime/value_struct.c:84-93 | the value of a removed field is released and its slot is free from then on |
| IndexPaths.GetAfterSetPath | libintend/libeval/eval_assign.c:64-141 | a read along a path gives what was written along it, whatever the levels held before, if and only if every position on it is in reach or what was written is void |
| IndexPaths.SetPathElsewhere | libintend/libeval/eval_assign.c:64-141 | a write along a path leaves what is read along any path that parts from it |
| IndexPaths.GetAfterSetOne | libintend/libeval/eval_ref.c:64-107 | at one level, a read after a write gives the value when the index is in reach and void when not |
| IndexPaths.Scopes.ArraySet | libintend/libeval/eval_assign.c:64-141 | copying out, changing and putting back level by level is the write along the path |
| IndexPaths.Scopes.AssignArrayDirect | libintend/libeval/eval_assign.c:149-201 | the name then holds the changed value in the innermost scope; a global array changed from inside a function is changed globally too |
| PathBuffer.Resolver.PathAbsolute | libintend/libruntime/path.c:276-357 | the result of the in-place walk over the growing buffer is the fold of the path's components over those of the current directory, or an error without one; every write is inside the buffer |
| PathBuffer.Resolver.Grow | libintend/libruntime/path.c:320-338 | the buffer has room for the component and its end mark, with its text kept |
| PathBuffer.Resolver.BackUp | libintend/libruntime/path.c:310-313 | going back to the last slash takes the last component off, and nothing at the root |
| PathBuffer.Resolver.Push | libintend/libruntime/path.c:314-342 | a component is added behind one slash |
| PathBuffer.Resolver.Resolve | libintend/libruntime/path.c:297-344 | the loop over components is the walk over the path |
| PathNames.AbsoluteIsNormal | libintend/libruntime/path.c:264-357 | the result starts with a slash, ends with one only if it is the root, and is its own normal form |
| PathNames.AbsoluteIdempotent | libintend/libruntime/path.c:276-357 | resolving a result again changes nothing, from any directory |
| PathNames.RelativeIsJoined | libintend/libruntime/path.c:289-295 | a relative path is the absolute path behind the current directory |
| PathNames.WalkPathIsWalk | libintend/libruntime/path.c:297-308 | skipping runs of slashes is splitting at every slash and ignoring empty names |
| PathNames.StepLaws | libintend/libruntime/path.c:301-321 | a name goes down, two dots take it back and stay at the root, and one dot and an empty name do nothing |
| PathNames.UpLaw | libintend/libruntime/path.c:301-321 | n times two dots take the last n names off, or all of them |
| PathNames.AbsoluteUpAndDown | libintend/libruntime/path.c:276-358 | a path with a clean name and two dots behind it, or with a dot or a slash, resolves as the path does |
| PathNames.AbsoluteDown | libintend/libruntime/path.c:276-358 | a clean name behind a resolved path is its last component, two dots behind it take that off, and above the root is the root |
| Splitting.ImplodeExplode | libintend/libstdlib/string.c:776-896 | joining the pieces of a split gives the string, short of exactly one separator when the split from the left comes out even |
| Splitting.RoundTrip | libintend/libstdlib/string.c:776-896 | the string comes back if and only if the split from the left does not end with a separator |
| Splitting.PiecesAreFree | libintend/libstdlib/string.c:808-830 | no piece holds the separator |
| Splitting.ExplodeImplode | libintend/libstdlib/string.c:776-896 | splitting a join gives the pieces back if and only if each separator is first met right behind its piece and the last piece is neither empty nor holds one |
| Splitting.SingleCharacter | libintend/libstdlib/string.c:776-896 | with a separator of one character: the pieces come back if and only if none holds it and the last is not empty |
| Splitting.LoopEnds | libintend/libstdlib/string.c:808-820 | the split loop ends if and only if the separator is not empty or the string is |
| Splitting.StrExplode | libintend/libstdlib/string.c:776-832 | overwriting each separator with an end mark and taking what stands before it gives the pieces as elements; without a separator the string is cast |
| Splitting.StrImplode | libintend/libstdlib/string.c:837-896 | the append loop, casting each element to a string, gives the join of the texts; without a separator the array is cast |
| Splitting.CastIsImplode | libintend/libruntime/value_cast.c:190-219 | casting an array to a string is joining it at nothing |
| Ordering.OrderIsTotal | libintend/libeval/eval_order.c:70-223 | on void, booleans, integers, floats and strings the order is total, equal means the same, and the six operators agree with it and with each other |
| Ordering.OrderTransitive | libintend/libeval/eval_order.c:70-143 | the order is transitive on every type |
| Ordering.StringOrder | libintend/libeval/eval_order.c:103-130 | comparing by length and then by the common part is the dictionary order, a prefix before what it begins |
| Ordering.OrderOfScalars | libintend/libeval/eval_order.c:70-143 | false is below true, and numbers are ordered as numbers are |
| Ordering.OrderOfStrings | libintend/libeval/eval_order.c:103-130 | the smaller character at the first difference comes first, and what only goes on comes later |
| Ordering.ComparCasts | libintend/libstdlib/array.c:71-93 | values of two types are compared in the type of the first, if the second can be cast to it |
| Ordering.SortedMeansAllPairs | libintend/libstdlib/array.c:71-174 | on an array of one type, whichever it is, the test of neighbours is true if and only if all pairs are in order |
| Ordering.UnorderedNeverSorted | libintend/libstdlib/array.c:160-174 | an array of arrays, structs or resources is sorted if and only if it has at most one element, and one of functions if and only if all are the same |
| Ordering.MixedTypesMislead | libintend/libstdlib/array.c:71-93 | one type is what makes the neighbour test decide all pairs: on a mixed array it can be true with a pair out of order |
| Ordering.ArrayIsSorted | libintend/libstdlib/array.c:160-174 | the loop stops at the first neighbours out of order |
| TypedCalls.CheckAccepts | libintend/libruntime/call_check.c:144-181 | the check passes if and only if there are enough arguments and each answers its letter or may be cast to it; then every argument has its letter's type, was cast only if it had to be, and the rest are untouched |
| TypedCalls.ResultIsTyped | libintend/libruntime/call_func.c:44-91 | a call gives a result of the declared type or leaves an exception or the exit pending |
| TypedCalls.CallGivesResult | libintend/libruntime/call_func.c:44-91 | an accepted call is its target's own outcome on the checked arguments, but a result of another type ends the program when the type is required and is cast when it is forced; a call that is not accepted does not run |
| TypedCalls.TypedCallIsTarget | libintend/libruntime/call_func.c:44-91 | with arguments and a result of the declared types a call is its target |
| TypedCalls.LetterLaws | libintend/libruntime/call_check.c:41-96 | the letters of the types, small and capital |
| TypedCalls.Caller.CallCheck | libintend/libruntime/call_check.c:144-181 | casting arguments in place, letter by letter up to a star, is the check |
| TypedCalls.Caller.CallFunction | libintend/libruntime/call_func.c:44-91 | with nothing pending the target runs once, on arguments of their letters' types, or does not run and the exit is pending; with something pending it does not run |
| Casts.Cast | libintend/libruntime/value_cast.c:365-404 | a cast has the type asked for or is fatal, which it is exactly for functions and resources of another type; a value of the type is left as it is |
| Casts.TruthOfValues | libintend/libruntime/value_cast.c:49-141 | what is true is what is not zero as a number, and a string that is not empty; each type's empty value is false and zero |
| Casts.SizeOfValues | libintend/libruntime/value_cast.c:97-141 | arrays and structs count as their number of elements |
| Casts.TextOfValues | libintend/libruntime/value_cast.c:97-270 | text is read and numbers are written by the formats, and the empty text is zero |
| Casts.CastsBack | libintend/libruntime/value_cast.c:49-270 | truth values come back from numbers and strings, and integers from floats |
| Casts.TruncLaws | libintend/libruntime/value_cast.c:97-141 | a float loses its fraction toward zero |
| Casts.StringsBack | libintend/libruntime/value_cast.c:190-315 | a string cast to an array and back is the string |
| Casts.CharacterAt | libintend/libruntime/value_cast.c:272-290 | its elements are its characters in order |
| Casts.TextOfArrays | libintend/libruntime/value_cast.c:190-219 | the text of an array is that of its elements one after the other |
| Casts.WrappedValues | libintend/libruntime/value_cast.c:297-332 | any other value becomes the one element or the one field of what it is cast to |

## Left out

- ControlTheorems.ProgramRefines: holds for safe scripts. That a script is safe is sufficient; an unsafe one may still happen to agree, since whether it reaches the unsafe place is not a property of its text.
- Balance.ExecBalance: counters are unbounded, so that their wrap-around is not modelled; the branches that guard against it are kept.
- ControlTheorems.CallIsolation: bodies are made of the modelled statements. Built-in functions that write to the tables, such as unset and those for global variables, are not among them.
- ControlTheorems.CallCopiesOut: plain references only, and bodies without unset, which unbinds a parameter so that nothing is written back. Elements passed by reference, reference arguments beyond the parameters, and a function redefined while its own arguments are evaluated are not modelled.
- Refinement.RefineDirect: arrays have positions and no keys here, and there are no structs; module IndexPaths has both. That a table moves its entries when an index adds a name to it is not modelled.
- Refinement.RefineExpr: integers are unbounded, and two functions are equal when their texts are, where the source compares the defining statements.
- Refinement.RefineCall: values are void, booleans, integers, arrays and functions, and the declared types are those. Prototypes over all types, with letters and stars, are the subject of module TypedCalls.
- PrinterReading.UniqueReadability: over tokens. At the level of characters a minus followed by a minus merges into one token.
- PrinterReading.ReadExpr: method calls, whose receiver is printed without parentheses, lambdas and empty expressions are outside the token model.
- SymtabTable.RunRefines: a bucket that is not allocated is an empty one. Built-in classes, the shortcuts that compare addresses with memory of another kind of entry, and the sizes of buckets are not modelled.
- SymtabTable.CopyRefines: entries are mathematical values, so that a copied entry is the entry. That copying a value makes new cells throughout is HeapValues.CopyCells.
- SymtabClass.Symtab.SymtabCopy: the same.
- ArrayClass.ValueArray.SetKeyArray: cells stay where they are. In the source a bucket of the key table that grows moves its entries while the vector still points to their old place.
- HeapMachine.CopyIsSame: neither of the two cells stands in the other. An array copied into a part of itself is read while it is filled and comes out different; that case is modelled, and the counts are exact in it too. A struct copied into a part of itself is excluded: the source reads a table that is not there yet.
- HeapMachine.CopyIsApart: the same, since cells one of which stands in the other are not apart.
- HeapMachine.Conservation: a keyed append over a key that is there is the copy to its cell.
- IndexPaths.GetAfterSetPath: indices are values. That evaluating an index may throw or change a variable is not modelled.
- PathBuffer.Resolver.PathAbsolute: the current directory is a parameter, and memory does not run out.
- Splitting.StrExplode: strings have no NUL characters, and the separator is not empty (Splitting.LoopEnds says what happens when it is).
- Ordering.OrderIsTotal: floats are reals, so that there is no NaN.
- TypedCalls.Caller.CallFunction: the target is a function from arguments to an outcome; a prototype longer than the arguments, for which the source reads past them, is excluded.
- Casts.Cast: reading numbers from text and printing them is a parameter.
- Class declarations, method calls, constructors, static members and built-in functions in the evaluator.
- Class declarations in the parser actions, which keep the parent of the class before.
- The lexer, and the grammar beyond its precedences and the order of its actions.
- Sorting itself, merging, searching and reversing of arrays.
- Bitwise and string operators, casts as expressions, and prefix and postfix operators in the evaluator.
- Modules, files, the shell, streams, the command line and the public interface.
