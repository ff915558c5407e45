# Chimp, modelled and proved

Chimp is a small dynamic language. A compiler turns its syntax tree into 32-bit words, a stack
machine runs them, every task has a mark-sweep heap of its own, and tasks talk through one-slot
inboxes. An incremental HTTP parser comes with it. This project models these five parts in Dafny
and proves what they promise. `dafny verify dfyconfig.toml` checks all of it.

| files | part |
|---|---|
| `Syntax`, `Semantics` | syntax tree, values, decoded instructions; the value operations, which are abstract and shared by both sides of every theorem |
| `Evaluator` | what a program means: a direct evaluator of the syntax tree, with no code and no operand stack |
| `Codegen`, `Machine` | the code of every syntax node at absolute addresses; the stack machine as a function |
| `Acceptance`, `Tree` | what the compiler accepts, and the same said of the nodes of the tree one by one |
| `Layout`, `Simulation`, `Coverage`, `Preservation`, `Ranges` | the proof that code and evaluator agree |
| `Operators` | what the operators answer: comparisons, arithmetic, branches, items of array and hash literals |
| `Slots` | the stack as the interpreter has it, an array of slots and a size, with no guard at a frame's base |
| `Code`, `Compiler`, `Vm`, `Process` | the imperative code object with labels and patch lists, the one-pass generator, the interpreter loop, and a function compiled and run from end to end |
| `Builtins`, `Residue`, `Patterns` | value operations of the built-in classes, what a failing pattern leaves behind, what a match means |
| `Closures`, `History` | which variables a closure shares, what is read and written through whole runs |
| `Symtable`, `Names` | how names are flagged, and what that means on the text of a function: what it declares, what its code stores into, when a module is accepted |
| `Gc`, `Mutator` | slots threaded through live and free lists, recursive marking, sweeping in place, slab growth; any program on that heap against the same program on a heap that is never collected |
| `HttpState`, `Http`, `HttpBody` | the push parser byte by byte and buffer by buffer, bodies and lengths |
| `HttpHeaders`, `HttpChunks`, `HttpStart`, `HttpMethods`, `HttpMessage` | what texts are read as: header lines, chunked bodies of any encoder, start lines, and whole messages |
| `HttpUrl`, `HttpGrammar` | the URL splitter, and the grammar of the URLs it accepts |
| `Task`, `Msg` | inbox and reference count under all interleavings; flat encoding of messages |

How to read the compiler theorems. `Evaluator` and `Machine` carry fuel; it is spent only where
execution may repeat (a backward jump, a call, a callback from native code), and on both sides at
the same places, so "equal for every fuel" gives equal results, equal aborts and equal
divergence (`Preservation.RunStable` shows that fuel bounds a run and nothing else). Two things
leak from the machine into the language, and the evaluator states them openly: what a `match`
leaves on the stack when no arm fits or a hash pattern fails half-way, and the operand of the
caller that a body running off its end returns. `Machine` is guarded: it stops with `Underflow` where
an instruction would reach below the operands of its frame, and the call reports that as `Missing`,
with the function and the number of its arguments. `Slots` is the same machine without the guard,
and `Interpreter.Vm` is proved against it exactly; the two agree unless a call has too few
arguments (`Slots.SlotsCorrect`).

Where the code falls short of what one would expect, the condition under which it does not is
proved, with a concrete input that shows the failure: `Residue.ResidueExact` and `ResidueExample`,
`Patterns.TestExact` and `AbortExamples`, `Messages.RoundTripExact` and `NilFirstExample`, `HttpUrl.PortExact` and `PortBeyond`,
`Operators.IntegerArithmetic` and `CutExample`, `Names.StoresFlagged` and `ModuleStoreExample`,
`HttpBody.WrapUnnoticed` and `WrapExample`, `HttpHeaders.FoldFeeds` and `FoldExample`, `HttpMethods.MethodExact` and `SlipExample`, `Closures.SharedExact` and `CallersDecide`,
`Preservation.MissingExact` and `Slots.OperandLost`.

An explicit collection overwrites the free list (`libchimp/gc.c:377`) and so loses the slots on it;
the model does the same and counts them (`Collector.Gc.Collect`).

## Model

| member | source | states |
|---|---|---|
| Preservation.CompilerCorrect | libchimp/compile.c:396-1213 | a call of compiled code has exactly the outcome the evaluator gives it (value, final variables and heap, abort, or no end within the fuel), for every fuel, operand stack and set of value operations |
| Preservation.DivergenceAgrees | libchimp/vm.c:420-921 | compiled code diverges exactly when the evaluator does |
| Preservation.CallerOperandsHidden | libchimp/vm.c:917-919 | of a caller's operands only the last can influence a call |
| Preservation.RunStable | libchimp/vm.c:420-921 | once a run ends otherwise than by exhausting its fuel, more fuel changes nothing |
| Preservation.CallStable | libchimp/vm.c:247-283 | the same for calls, at any depth of re-entry |
| Preservation.PrologueUnderflow | libchimp/compile.c:1185-1192 | a prologue takes a caller's operand exactly if arguments are missing and there is one, and leaves surplus arguments on the stack |
| Preservation.OnlyMissingArguments | libchimp/vm.c:63-67 | in no run of compiled code, for any fuel, does an instruction reach below the operands of its frame, except that a function called with fewer arguments than parameters above an operand of its caller takes that operand |
| Preservation.MissingExact | libchimp/compile.c:1185-1192 | conversely, a call is the one reported for that exactly if arguments are missing, its caller has an operand, and the given arguments can be stored |
| Coverage.CallCovered | libchimp/compile.c:1447-1490 | the evaluator gives a meaning to every function the compiler accepts, and reports a caller's operand taken only for a call with missing arguments |
| Slots.SlotsCorrect | libchimp/vm.c:951-989 | on the unguarded slots, a compiled call ends as the evaluator says and leaves its caller's operands as they were, unless some call in the run has too few arguments |
| Slots.RunAgrees | libchimp/vm.c:420-921 | run from any address, the unguarded machine does what the guarded one does as long as that one does not stop at its base |
| Slots.CallTakes | libchimp/compile.c:1185-1192 | with any number of arguments, a function's parameters get the last of its caller's operands and its arguments taken together, nil where there is none, and its body runs on the rest |
| Slots.OperandLost | libchimp/vm.c:951-989 | `[7, f()]` with a one-parameter `f` that returns 1 makes the array `[1, 1]`, and `f`'s parameter is 7 |
| Simulation.ExprRuns | libchimp/compile.c:1446-1517 | an expression's code runs from its first to its last address and leaves the old stack and exactly the evaluator's value |
| Simulation.LogicRuns | libchimp/compile.c:1746-1809 | `and` and `or` run the right operand only when the left one does not decide |
| Simulation.CallExprRuns | libchimp/vm.c:247-283 | a call's code evaluates target and arguments in order and leaves the result |
| Simulation.HashRuns | libchimp/vm.c:312-343 | a hash literal's code puts its pairs as the evaluator does, the last one first |
| Simulation.StmtsRun | libchimp/compile.c:396-414 | a statement list's code has the evaluator's outcome: falls through, breaks to the loop's end, returns, or stops |
| Simulation.WhileRuns | libchimp/compile.c:466-498 | a loop's code iterates, leaves on `break` and ends as the evaluator does, with the same fuel |
| Simulation.MatchRuns | libchimp/compile.c:945-1037 | a match's code takes the arm the evaluator takes and leaves what the evaluator says it leaves |
| Simulation.PatRuns | libchimp/compile.c:501-942 | a pattern's code reaches its end or `next` as the evaluator says, with the operands it says |
| Simulation.BindsRun | libchimp/compile.c:977-1015 | the binding code stores the value at each variable's path |
| Simulation.CallRuns | libchimp/vm.c:951-989 | calling any value through the machine agrees with the evaluator, through native callbacks too |
| Ranges.FnWithin | libchimp/compile.c:1151-1213 | every jump of a function's code has a target inside the code or at its end, and every operand that counts fits a byte |
| CodeObjects.OrFields | libchimp/code.c:152-173 | OR-ing an 8-bit or 24-bit field into a word whose field is empty adds it and changes no other bit |
| CodeObjects.Code.Grow | libchimp/code.c:175-189 | after growing there is room for a word and the words written are unchanged |
| CodeObjects.Code.AddConst | libchimp/code.c:191-202 | a constant is interned: the index finds it, an equal one is shared unless it is a method, and earlier constants keep their places |
| CodeObjects.Code.AddName | libchimp/code.c:204-215 | a name is interned, likewise |
| CodeObjects.Code.JumpTo | libchimp/code.c:54-72 | emits a jump to the label: complete if the label is placed, otherwise with a hole recorded in the label's patch list |
| CodeObjects.Code.UseLabel | libchimp/code.c:27-43 | places the label here and fills exactly the holes on its patch list; all other words stay |
| CodeObjects.EncodedDecodes | libchimp/include/chimp/code.h:210-213 | without holes, every word decodes to the instruction it was emitted for, with its label's address |
| CodeObjects.Code.Finish | libchimp/code.c:152-173 | a finished code object is the emitted code assembled: constants and names in the order in which they are first met, words with all addresses filled in; if it fits it decodes to what was emitted |
| CodeObjects.FitsExact | libchimp/include/chimp/code.h:210-213 | assembled code fits the fields of its words exactly if it has at most 256 distinct names, at most 256 constants, where every method counts, and fewer than 2^24 instructions |
| CodeObjects.AssembledExact | libchimp/include/chimp/code.h:210-213 | code that fits is what its words decode to |
| Tree.ExprExact | libchimp/compile.c:1447-1490 | an expression is accepted exactly if no node of it, at any depth and in nested functions, is a wildcard outside of a pattern, a `break` outside of the loops of its own function, or a pattern the compiler cannot test |
| Tree.PatternExact | libchimp/compile.c:836-942 | a pattern is accepted exactly if its nodes are constants, names, wildcards, arrays and hashes, with at most 16 arrays and hashes inside each other, at most 16 variables, and constant keys |
| Tree.AcceptedExact | libchimp/compile.c:1152-1213 | the same of a function; with the limits of the words, also that every operand count fits a byte and every hash literal has a value for each key |
| Tree.ScopedExact | libchimp/compile.c:1101-1114 | what the compiler asks of its callers, node by node: a `break` belongs to a loop of its own function or to none, and pattern hashes have a value for each key |
| Tree.FnsExact | libchimp/compile.c:1152-1213 | the functions in a function are itself and the function nodes of its tree |
| Compilation.Compiler.CompileExpr | libchimp/compile.c:1447-1490 | appends the expression's code and leaves no hole, or refuses the expression, which `Tree.ExprExact` says of which ones |
| Compilation.Compiler.CompileLogic | libchimp/compile.c:1746-1809 | short-circuit code, with both labels placed once |
| Compilation.Compiler.CompileSpawn | libchimp/compile.c:1900-1942 | the code of a spawn |
| Compilation.Compiler.CompileStmts | libchimp/compile.c:396-414 | appends the statements' code; the only new holes are breaks waiting for the innermost loop's end |
| Compilation.Compiler.CompileWhile | libchimp/compile.c:466-498 | a loop's code; the end label is opened, patched and placed, and the loop stack is as before |
| Compilation.Compiler.CompileBreak | libchimp/compile.c:1101-1114 | a break jumps to the innermost loop's end and is refused outside loops |
| Compilation.Compiler.CompileIfElse | libchimp/compile.c:1040-1077 | both branches' code with their labels |
| Compilation.Compiler.CompileMatch | libchimp/compile.c:945-1037 | all arms' code, each label placed once |
| Compilation.Compiler.CompilePattern | libchimp/compile.c:836-942 | a pattern's test, the bind path restored, and its variables recorded with their paths; at most 16 levels and 16 variables |
| Compilation.Compiler.CompileMethod | libchimp/compile.c:1152-1213 | each function gets a code object that is its code assembled, as do all functions nested in it; earlier ones stay; units and loop stack are restored; it is refused as `Tree.AcceptedExact` says |
| Interpreter.Vm.EvalFrame | libchimp/vm.c:420-921 | the loop over words ends exactly as the slot machine does, in value, slots, variables and heap, and pops its frame |
| Interpreter.Vm.Invoke | libchimp/vm.c:951-989 | a call runs the function on its arguments above the caller's slots and sets the stack's size and the frame stack back |
| Interpreter.Vm.CallObject | libchimp/method.c:31-40 | the same for any callable, through native code that calls back |
| Interpreter.Vm.CallFromTop | libchimp/vm.c:247-283 | the call instruction takes arguments and target off the stack, down to an empty one, and puts the result on it |
| Interpreter.Vm.PopHash | libchimp/vm.c:312-343 | pairs are put from the last to the first; a null value, or a null or nil key, fails |
| Interpreter.Vm.CaptureNames | libchimp/vm.c:345-374 | a closure's bindings are those of the nearest frame that has the name |
| Interpreter.Vm.ResolveName | libchimp/vm.c:126-193 | a name is looked up in the top frame, then the module and the builtins |
| Interpreter.Vm.StoreLocal | libchimp/vm.c:99-123 | a store writes the variable's cell and nothing else |
| Interpreter.Vm.MakeFrame | libchimp/frame.c:27-76 | a frame has a new cell for each declared variable, and the closure's bindings on top |
| Process.WordsPreserve | libchimp/vm.c:420-921 | the words of compiled functions, decoded and run on the slots, have the evaluator's outcome and leave the caller's operands alone, unless a call has too few arguments or reaches a function that does not fit its words |
| Process.CompileAll | libchimp/compile.c:1960-2029 | a function is refused exactly if a node of its tree is one the compiler cannot do; otherwise it and every function node in it, and no other, has a code object |
| Process.RunFunction | libchimp/compile.c:1960-2029 | from end to end: unless refused for such a node, a function is compiled to words, with a code object for each function in it, and the words are run on a fresh interpreter; result, variables and heap are the evaluator's, unless a call has too few arguments or reaches a function that does not fit its words |
| Operators.ComparesByOrder | libchimp/vm.c:679-791 | on two integers, two floats or two strings, each of the six operators answers what it means of the numbers, or of dictionary order, in the evaluator and in the machine |
| Operators.ComparesUnlike | libchimp/object.c:24-45 | of any other two values that are no arrays, a value equals only itself, and only one without an order comes before one with an order: `nil < 1`, but neither `1 < "a"` nor `1 > "a"` |
| Operators.BeforePrecedes | libchimp/core.c:102-140 | the byte-by-byte order of strings is dictionary order, and total |
| Operators.ArraysEqual | libchimp/array.c:386-411 | two arrays whose items are pairwise alike are equal exactly if their items are; arrays of different length are not equal |
| Operators.ComparisonRuns | libchimp/compile.c:1746-1809 | the compiled comparison of any two operands that come out as numbers or strings leaves that answer, with the left operand on the left |
| Operators.RunOperator | libchimp/vm.c:679-907 | `fn { ret l op r }`, compiled to words and run, gives the operation on `l` and `r`, or aborts with it |
| Operators.Ask | libchimp/vm.c:679-791 | from end to end: a comparison of two numbers or strings gives its answer |
| Operators.OperatorLaws | libchimp/vm.c:679-791 | whatever the value operations: at most one of `<`, `>`, `==` holds; `<` is `>` of the reversed order; `<=` and `>=` are these or equality; `!=` denies `==` |
| Operators.RefusedTogether | libchimp/vm.c:396-418 | a comparison that one operator refuses every operator refuses |
| Operators.IntegerArithmetic | libchimp/core.c:599-675 | sums, differences and products of integers are right when operands and result fit 32 bits; any result is the low 32 bits of the right one, and exactly when it is the right one is stated |
| Operators.IntegerDivision | libchimp/core.c:677-701 | division drops the fraction: the remainder is smaller than the divisor and has the dividend's sign |
| Operators.CutExample | libchimp/core.c:619-624 | 4294967296 + 1 is 1 |
| Operators.Joins | libchimp/array.c:413-439 | `+` joins two strings, and the items of two arrays into a new array |
| Operators.Compute | libchimp/vm.c:805-907 | from end to end: an arithmetic operation on two constants gives its result, the null pointer or the abort |
| Operators.BranchTaken | libchimp/vm.c:637-677 | in code, exactly nil and false do not take a branch |
| Operators.ConditionDecides | libchimp/vm.c:389-393 | in the tree, exactly nil and false are the conditions on which `if`, `else`, `while`, `not`, `and` and `or` decide against |
| Operators.ArrayHolds | libchimp/vm.c:285-310 | an array literal holds its items in the order in which they are written |
| Operators.LiteralHolds | libchimp/vm.c:312-343 | a hash literal gives a key the value of the first pair that has it, and nil if none has |
| Operators.ItemTaken | libchimp/array.c:28-46 | `[...][i]` is the item at the place that the low 32 bits of `i` say, from the end if negative, and nil outside |
| Operators.KeyTaken | libchimp/hash.c:252-275 | `{...}[k]` is the value of the first pair with that key, or nil |
| Patterns.TestSuits | libchimp/compile.c:501-942 | with the built-in classes and no operation in the statement: unless the test aborts, it matches exactly if the value is the constant, nil, an array of as many items that match, or a hash of as many pairs whose value under each key matches |
| Patterns.TestDecides | libchimp/compile.c:836-942 | the test stops exactly if an operation fails that it needs before it is decided; otherwise it agrees with a recursive matcher that knows no stack: it matches exactly if the value fits, and leaves nothing behind |
| Patterns.TestExact | libchimp/compile.c:501-942 | with the built-in classes, for every pattern the compiler takes and every value: the test aborts exactly if the parts it looks at, up to the first that does not fit, lead to an array in the place of a constant or to a key looked up past an array; otherwise it matches exactly if the value fits |
| Patterns.AbortExamples | libchimp/array.c:386-411 | matching `[1]` against the pattern `1` aborts, and so does matching `{[1]: 2}` against `{"k": x}` |
| Residue.ResidueExact | libchimp/compile.c:753-760 | a failing pattern leaves the stack unchanged exactly if every hash value in it is irrefutable: then for all values and operations, and otherwise not even with the built-in classes |
| Residue.ResidueExample | libchimp/hash.c:246-275 | the pattern {"k": 1} matched against a hash with 2 under "k" leaves the 2 on the stack |
| Patterns.PathsLead | libchimp/compile.c:835-942 | each variable's recorded path leads to the part of the value at the variable's place |
| Patterns.BindsSeen | libchimp/compile.c:977-1015 | the variables are stored with those parts, in the pattern's order |
| Patterns.CompiledTest | libchimp/compile.c:501-942 | the compiled test reaches its end if the value fits and `next` if not, with stack and variables unchanged |
| Patterns.CompiledBinds | libchimp/compile.c:977-1015 | after it, the compiled bindings store every variable's part and keep the value |
| Closures.FrameExact | libchimp/frame.c:27-76 | a frame has exactly the declared names and the bindings; declared names get new cells, without a value, which nobody else holds and no two share |
| Closures.CaptureExact | libchimp/vm.c:345-374 | a closure has a binding for exactly its free names |
| Closures.SharedThroughout | libchimp/compile.c:1867-1897 | a name of the outermost function that is free in every function down to a literal is one variable in all their frames |
| Closures.SharedVariable | libchimp/vm.c:98-193 | reads and writes through any of these frames are seen through all of them and touch no other variable |
| Closures.SharedExact | libchimp/vm.c:125-193 | a literal shares exactly the names the frame around it has; any other is taken from whoever called that function |
| Closures.CallersDecide | libchimp/vm.c:125-193 | two callers give the same literal two different variables |
| History.CellsStay | libchimp/vm.c:420-921 | no run removes a variable: cells outlive the frame that declared them |
| History.RunExplained | libchimp/vm.c:420-921 | in the history of every run, ended or not, each frame entered, closure made, and variable read or written is what the events before it determine, and the variables at the end are what the whole history makes of them |
| History.NestedChain | libchimp/vm.c:345-374 | the frames pushed in a run to call closures that were made in it are what the frames that made them determine, nest by nest |
| History.RunReads | libchimp/vm.c:98-193 | in every run, whichever calls have ended, a function that reads a variable it shares with the literals around it gets the value last stored through any of their frames |
| History.CallAfterReturn | libchimp/vm.c:345-374 | after a call has made and returned a closure, and whatever happened since, a call of the closure reads a variable of the ended call as it was last stored through either frame |
| Symbols.RunAppend | libchimp/symtable.c:236-259 | walking two stretches of the tree in turn is walking them together |
| Symbols.ModuleFlagged | libchimp/symtable.c:794-817 | in an accepted module every function, at any depth, has an entry of its own: flagged declared are exactly its declarations, free only names known to a function around it, and every name it uses is flagged or the module's |
| Names.DeclaresExact | libchimp/symtable.c:503-526 | what the walk declares for a function are its parameters and, outside of nested functions, the names of `var` and function declarations and those in patterns |
| Names.VarsExact | libchimp/symtable.c:653-700 | the names in a pattern are the variables that its code binds |
| Names.FlaggedExact | libchimp/symtable.c:503-526 | the flags said of a function's text: declared are exactly its parameters and the names its body declares; every other name the body mentions is flagged or the module's; a free one is mentioned, not declared, and known to a function around it |
| Names.StoresFlagged | libchimp/vm.c:98-123 | every name that a function's code stores into is flagged for it or the module's; the frame holds it exactly if it is declared by the function or free, and otherwise the store aborts |
| Names.ModuleStoreExample | libchimp/symtable.c:454-487 | a module with `var x` and a function that assigns to `x` is accepted, but `x` is not flagged for the function |
| Names.ModuleHonest | libchimp/symtable.c:472-482 | builtin is flagged only what is one, special only `__file__` and `__line__` |
| Names.AcceptedExact | libchimp/symtable.c:454-487 | a module is accepted exactly if every name is known where it is used: imported, declared before in the same function or one around it, a builtin or a special name |
| Symbols.FreeIfKnown | libchimp/symtable.c:454-487 | a name the function around has when a literal is met, used and not declared there, ends up free in it |
| Symbols.FrameNames | libchimp/compile.c:1166-1183 | a closure's frame has exactly the function's declarations and free names; other names it uses are builtin, special or the module's |
| Symbols.KeyNotCaptured | libchimp/symtable.c:414-424 | a name that occurs in a function only in item keys is not captured, whatever the functions around it declare |
| Symbols.SymbolTable.VisitIdent | libchimp/symtable.c:454-487 | an identifier is looked up from its own scope outwards and flagged |
| Symbols.SymbolTable.VisitFn | libchimp/symtable.c:503-526 | a function's scope is entered, walked and left |
| Symbols.SymbolTable.VisitStmt | libchimp/symtable.c:756-778 | the walk over a statement meets its declarations, uses and scopes in order |
| Symbols.SymbolTable.VisitModule | libchimp/symtable.c:794-817 | builds the table of a module, or refuses it |
| Collector.Gc.MarkRef | libchimp/gc.c:301-329 | marks exactly what is reachable without passing a marked slot; ends because unmarked slots decrease |
| Collector.MarkingExact | libchimp/gc.c:301-329 | from an unmarked heap, marked is reachable through class pointers and edges, both ways |
| Collector.Gc.MarkPhase | libchimp/gc.c:454-481 | after it the marked live slots are exactly those reachable from roots, task and scanned stack |
| Collector.Gc.Sweep | libchimp/gc.c:346-391 | relinks in place: the live list keeps the marked slots in order, the free list gets the others, acyclic and disjoint |
| Collector.Gc.Collect | libchimp/gc.c:393-484 | afterwards live are exactly the reachable live slots, free the others; what was on the free list is lost |
| Collector.Gc.Grow | libchimp/gc.c:129-149 | a slab is added as the free list; existing slots are untouched |
| Collector.Gc.Refill | libchimp/gc.c:223-252 | collects, then grows if that frees nothing; the free list is not empty, nothing is lost, and nothing reachable is on it |
| Collector.Gc.TakeFree | libchimp/gc.c:223-252 | moves the first free slot to the front of the live list, blank and unmarked |
| Collector.Gc.NewObject | libchimp/gc.c:223-252 | hands out a slot that was not reachable; every reachable object stays live and unchanged; lists stay acyclic, disjoint and counted |
| Mutator.Execute | libchimp/gc.c:223-484 | whatever a program allocates, loads, overwrites, drops, roots or collects, what it holds and can reach on the collected heap is, under a naming of slots, what it holds and reaches on a heap that is never collected |
| Mutator.AfterNew | libchimp/gc.c:223-252 | that correspondence survives an allocation, with the collection or growth it may cause |
| Mutator.SameAnswers | libchimp/gc.c:223-484 | comparing two held references gives the same answer on both heaps |
| Collector.Gc.NumFree | libchimp/gc.c:507-516 | the number reported free counts the lost slots too |
| Http.FeedAppend | libchimp/modules/http/http-parser-2.0/http_parser.c:640-1822 | feeding two stretches of input in turn is feeding them together |
| Http.CutIndependent | libchimp/modules/http/http-parser-2.0/http_parser.c:580-1852 | any cut of an input gives the same final state and the same events as the whole |
| Http.OneMark | libchimp/modules/http/http-parser-2.0/http_parser.c:1834-1837 | the assertion at the end of a buffer: at most one mark is set |
| Http.StepMarks | libchimp/modules/http/http-parser-2.0/http_parser.c:91-125 | a step's callbacks keep the mark discipline, and emitted plus pending data is what the bytes mean |
| Http.HttpParser.Execute | libchimp/modules/http/http-parser-2.0/http_parser.c:580-1852 | one call on a non-empty buffer: state, bytes taken and, with adjacent data joined, events are those of its bytes |
| Http.HttpParser.BodyBytes | libchimp/modules/http/http-parser-2.0/http_parser.c:1651-1692 | a run of body bytes is taken at once, as if byte by byte |
| Http.HttpParser.ExecuteAll | libchimp/modules/http/http-parser-2.0/http_parser.c:580-1852 | successive calls on any non-empty buffers end in the state and emit the events of their concatenation |
| Http.HttpParser.AtEof | libchimp/modules/http/http-parser-2.0/http_parser.c:598-617 | the end of input ends a message whose length is unknown, and is an error inside any other |
| HttpBody.EofExact | libchimp/modules/http/http-parser-2.0/http_parser.c:598-617 | the end of input is no error exactly where a message may begin, on a dead connection, and in a body that lasts until then |
| HttpState.Accumulate | libchimp/modules/http/http-parser-2.0/http_parser.c:1454-1477 | a length in progress is never the value that means "no length" |
| HttpState.Unhex | libchimp/modules/http/http-parser-2.0/http_parser.c:188-197 | a byte is a digit below 16 or none; a byte from 0x80 up reads as 0 |
| HttpBody.NoAssertionFails | libchimp/modules/http/http-parser-2.0/http_parser.c:1699-1815 | in no run from a sane state does one of the parser's assertions fail |
| HttpBody.AccumulateExact | libchimp/modules/http/http-parser-2.0/http_parser.c:1465-1473 | one digit: exact below 2^64-1, refused at 2^64-1 |
| HttpBody.LengthExact | libchimp/modules/http/http-parser-2.0/http_parser.c:1699-1750 | any digit string: exact below 2^64-1, refused at it, and the sentinel is never stored |
| HttpBody.WrapUnnoticed | libchimp/modules/http/http-parser-2.0/http_parser.c:1465-1473 | the length stored for a string of digits is their number exactly below 2^64-1; a larger one is refused exactly if the 64-bit value falls, or is 2^64-1, at some digit, and otherwise its low 64 bits are stored |
| HttpBody.WrapExample | libchimp/modules/http/http-parser-2.0/http_parser.c:1465-1473 | a Content-Length of 30000000000000000000 is accepted as 11553255926290448384 |
| HttpBody.ContentLengthDigits | libchimp/modules/http/http-parser-2.0/http_parser.c:1454-1477 | a run of digits in a Content-Length value stores their number or fails |
| HttpBody.HeaderLength | libchimp/modules/http/http-parser-2.0/http_parser.c:1374-1477 | the same for the whole value from its first digit on |
| HttpBody.IdentityBody | libchimp/modules/http/http-parser-2.0/http_parser.c:1651-1686 | a body of declared length delivers exactly that many bytes and one message end, and leaves the rest to the next message |
| HttpBody.HeadersEnd | libchimp/modules/http/http-parser-2.0/http_parser.c:1560-1649 | the last byte of the headers decides how the body is delimited, as section 4.4 of RFC 2616 says |
| HttpBody.HeaderLimit | libchimp/modules/http/http-parser-2.0/http_parser.c:640-650 | outside of bodies 81920 bytes are read and no more |
| HttpHeaders.RecognisedNext | libchimp/modules/http/http-parser-2.0/http_parser.c:1231-1325 | after every character of a header's name the parser is exactly as far with each name it knows as the text, in any case, has come |
| HttpHeaders.NameFeeds | libchimp/modules/http/http-parser-2.0/http_parser.c:1181-1359 | a name and its colon: taken for content-length, connection, proxy-connection, transfer-encoding or upgrade exactly if it is that name in any case |
| HttpHeaders.ValueGrants | libchimp/modules/http/http-parser-2.0/http_parser.c:1361-1546 | a value: exactly "chunked", "keep-alive" and "close", in any case and with spaces behind, set their flags |
| HttpHeaders.LineFeeds | libchimp/modules/http/http-parser-2.0/http_parser.c:1181-1558 | a header line delivers its name and value and changes what it asks for, flags or length, and nothing else |
| HttpHeaders.FoldFeeds | libchimp/modules/http/http-parser-2.0/http_parser.c:1361-1558 | a line that begins with white space continues the value above: its text is delivered, and a length is read anew from it; it asks for nothing else |
| HttpHeaders.FoldExample | libchimp/modules/http/http-parser-2.0/http_parser.c:1374-1477 | a Content-Length of 1 that the next line continues with 2 is delivered as 12 and taken as 2 |
| HttpHeaders.NoColonFeeds | libchimp/modules/http/http-parser-2.0/http_parser.c:1331-1352 | a header without a colon is let through: its name is delivered, and it asks for nothing |
| HttpHeaders.EmptyLine | libchimp/modules/http/http-parser-2.0/http_parser.c:1181-1204 | the empty line after the headers ends them with CR LF and with LF alone |
| HttpHeaders.LinesFeed | libchimp/modules/http/http-parser-2.0/http_parser.c:1181-1558 | so do any number of lines, continued or not, with either line end, in headers and in trailers |
| HttpChunks.ChunkFeeds | libchimp/modules/http/http-parser-2.0/http_parser.c:1699-1815 | a chunk whose size is any digits that stand for its length, of either case and with any leading zeros, and with any extensions, delivers its data and nothing else, and the next chunk starts |
| HttpChunks.UnhexExact | libchimp/modules/http/http-parser-2.0/http_parser.c:188-206 | the digits of a size are those of base 16 in either case; besides them only bytes from 0x80 on are let through, as zeros |
| HttpChunks.ChunkedRoundTrip | libchimp/modules/http/http-parser-2.0/http_parser.c:1560-1815 | decoding a chunked body, whatever encoder wrote it, gives back the concatenation of its chunks, the lines of its trailer and one message end, and leaves the connection open or closed as version, headers and trailer say |
| HttpChunks.HexIsSize | libchimp/modules/http/http-parser-2.0/http_parser.c:1699-1750 | every length below 2^64-1 can be written as such a size, for one by its shortest digits |
| HttpStart.MethodFeeds | libchimp/modules/http/http-parser-2.0/http_parser.c:879-984 | each of the 26 method names is read as its method, and begins a message without flags and length |
| HttpMethods.MethodExact | libchimp/modules/http/http-parser-2.0/http_parser.c:879-984 | a word is read as a method exactly if it is that method's name, except that the third character of most names is not looked at |
| HttpMethods.SlipExample | libchimp/modules/http/http-parser-2.0/http_parser.c:971-979 | GEX is read as GET |
| HttpStart.UrlFeeds | libchimp/modules/http/http-parser-2.0/http_parser.c:986-1057 | a URL of the grammar is delivered as it is |
| HttpStart.RequestLineFeeds | libchimp/modules/http/http-parser-2.0/http_parser.c:879-1179 | a request line is read as it is written: method, URL, major and minor version |
| HttpStart.ShortLineFeeds | libchimp/modules/http/http-parser-2.0/http_parser.c:1032-1048 | a request line without a version is one of HTTP/0.9 |
| HttpStart.SpacesPass | libchimp/modules/http/http-parser-2.0/http_parser.c:986-989 | further spaces before the URL, the version of a request or the status make no difference |
| HttpStart.NumberLimit | libchimp/modules/http/http-parser-2.0/http_parser.c:766-853 | major version, minor version and status may grow to 999, and are refused with the digit that exceeds it |
| HttpStart.LeadingFeeds | libchimp/modules/http/http-parser-2.0/http_parser.c:655-668 | line ends before a request, and on a connection that is to be closed, are passed over |
| HttpStart.ClosedRefuses | libchimp/modules/http/http-parser-2.0/http_parser.c:655-663 | on a connection that is to be closed, anything else is refused |
| HttpStart.BegunAgain | libchimp/modules/http/http-parser-2.0/http_parser.c:702-726 | before a response, each byte of a line end announces a message |
| HttpStart.StatusLineFeeds | libchimp/modules/http/http-parser-2.0/http_parser.c:702-877 | a status line is read as it is written: version and status |
| HttpStart.EitherKind | libchimp/modules/http/http-parser-2.0/http_parser.c:665-700 | a parser for both kinds takes the first letters of a method as one for requests and those of a version as one for responses |
| HttpStart.PortRead | libchimp/modules/http/http-parser-2.0/http_parser.c:2150-2160 | the port of a URL is the number that is written there, unless it ends the buffer and a digit lies behind |
| HttpMessage.MessageWithLength | libchimp/modules/http/http-parser-2.0/http_parser.c:1181-1686 | from the first byte of the headers: header lines that declare a length, and a body of that length, deliver the lines, exactly these bytes and one message end |
| HttpMessage.ContentLengthMessage | libchimp/modules/http/http-parser-2.0/http_parser.c:1181-1686 | a Content-Length header, its name in any case, with the number of the body's bytes in decimal, frames exactly the body |
| HttpMessage.MessageInChunks | libchimp/modules/http/http-parser-2.0/http_parser.c:1181-1815 | from the first byte of the headers: header lines that ask for chunks and any chunked body deliver lines, data, trailer and one message end |
| HttpMessage.MessageLeaves | libchimp/modules/http/http-parser-2.0/http_parser.c:1560-1649 | a message with an Upgrade header, or whose method is CONNECT, ends with its headers, and not a byte behind them is looked at |
| HttpMessage.RequestRoundTrip | libchimp/modules/http/http-parser-2.0/http_parser.c:580-1852 | from the first byte of a request: whatever method, URL, version, headers and payload it is composed of, they are delivered, and afterwards the connection is open or closed as version and headers say |
| HttpMessage.ResponseRoundTrip | libchimp/modules/http/http-parser-2.0/http_parser.c:580-1852 | the same of a response, whose status may rule out a body and whose body may last until the connection is closed |
| HttpGrammar.AllSteps | libchimp/modules/http/http-parser-2.0/http_parser.c:432-578 | after every text of the URL grammar the automaton is in the state of the part that the text is in, and lets through exactly the characters that may follow |
| HttpGrammar.SplitText | libchimp/modules/http/http-parser-2.0/http_parser.c:1993-2163 | a URL composed of scheme, user, host, port, path, query and fragment is split into exactly these: a part is present if and only if it has a text, and is found where that stands |
| HttpGrammar.SplitExact | libchimp/modules/http/http-parser-2.0/http_parser.c:2066-2163 | a URL is accepted exactly if it can be so composed: the query stands behind the first `?` that ends path or server, the fragment behind the number signs that end what is before it |
| HttpUrl.LinkedStep | libchimp/modules/http/http-parser-2.0/http_parser.c:432-578 | the URL automaton visits the parts in order, each once and without a break; only delimiters belong to none |
| HttpUrl.AcceptedUrl | libchimp/modules/http/http-parser-2.0/http_parser.c:2066-2163 | an accepted URL's parts are in bounds, not empty, ordered and disjoint, and every other byte is a separator; a scheme needs a host; CONNECT is host and port |
| HttpUrl.HostFromOk | libchimp/modules/http/http-parser-2.0/http_parser.c:1993-2064 | the second pass divides the server part into user, name and port in order and touches nothing else |
| HttpUrl.PortExact | libchimp/modules/http/http-parser-2.0/http_parser.c:2150-2160 | the port number is what its digits spell exactly if the port does not end the buffer, or no digit lies behind it, or the digits on both sides are all zeros |
| HttpUrl.PortBeyond | libchimp/modules/http/http-parser-2.0/http_parser.c:2150-2160 | a port of 8 is read as 80 when a 0 lies behind the buffer |
| HttpUrl.UrlRecord.ParseHost | libchimp/modules/http/http-parser-2.0/http_parser.c:1993-2064 | the loop over the server part computes that division |
| HttpUrl.UrlRecord.ParseUrl | libchimp/modules/http/http-parser-2.0/http_parser.c:2066-2163 | the loop over the buffer computes the parts, refuses ports above 65535, and stores the port number |
| Tasks.TaskRecord.Send | libchimp/task.c:405-443 | a send is refused by a finished task, which keeps the lock; waits while the inbox is full; otherwise fills it |
| Tasks.TaskRecord.Receive | libchimp/task.c:446-496 | a receive empties the inbox and lowers the flag |
| Tasks.TaskRecord.DropRef | libchimp/task.c:389-403 | the last reference frees the record |
| Tasks.TaskRecord.EndThread | libchimp/task.c:173-194 | the thread's end drops the inbox but not the flag, and its own reference |
| Tasks.Delivery | libchimp/task.c:405-496 | in every interleaving, values received are in order a prefix of those sent, at most the one in the inbox is missing while the thread runs, none is lost, overwritten or duplicated, and the flag tells whether the inbox is full |
| Tasks.SenderOrder | libchimp/task.c:405-443 | each sender's messages are committed in the order in which it packed them |
| Tasks.NeverFreedInUse | libchimp/task.c:381-403 | in every interleaving the count of a record in memory is at least its handles, encoded handles and the thread; a freed record has none of them, and no sender at work |
| Tasks.CountExact | libchimp/task.c:381-403 | exactly: the count is the number of handles, of encoded handles, of those thrown away undecoded and of the thread, and the record is freed exactly when there is none |
| Tasks.NobodyStuck | libchimp/task.c:405-496 | while the thread runs and the lock is free, three actions suffice to have everything sent before and the message of any sender at work received |
| Tasks.Replay | libchimp/task.c:381-496 | the record, driven through any interleaving, goes through the states of the system for which this is proved |
| Tasks.LostAtTheEnd | libchimp/task.c:174-179 | a message in the inbox when the thread ends is lost although the flag says full |
| Messages.SendableExact | libchimp/msg.c:188-239 | a value can be sent exactly if neither it nor anything inside of it is a closure or of an unsupported class |
| Messages.SizeExact | libchimp/msg.c:43-91 | the size computed ahead is what the encoder passes over, a cell for each nil and a pointer for each task |
| Messages.RoundTripExact | libchimp/msg.c:241-272 | a value comes back unchanged, whatever the memory held, exactly if nil is at most the last cell written |
| Messages.NilFirstExample | libchimp/msg.c:342-408 | the array [nil, 1] does not come back: decoding fails, or yields [1, 2] if a cell with 2 was left in the memory |
| Messages.InStep | libchimp/msg.c:342-408 | then the decoder finds every cell where the encoder wrote it and stops where the encoder stopped |
| Messages.Message.EncodeValue | libchimp/msg.c:188-239 | writes a value's cells inside the space computed for it, takes a reference to every task, and aborts exactly for closures and unsupported classes |
| Messages.Message.DecodeValue | libchimp/msg.c:342-408 | rebuilds the value at the cursor; every task gets a handle and its count is unchanged |
| Messages.Pack | libchimp/msg.c:241-272 | packing fills a buffer of exactly the size computed ahead |
| Messages.Unpack | libchimp/msg.c:410-421 | unpacking what was packed gives the value back; each task in it gets a handle, and the reference taken when it was packed stays for that handle |

## Left out

- Scanner and grammar: the model starts from the syntax tree.
- Module, class and `use` declarations, user classes and inheritance lookup: a module's names are one abstract lookup function.
- Value operations (`cmp`, arithmetic, `getitem`, `getattr`, class of, spawn, native methods): abstract functions shared by evaluator and machine; `Builtins` has those of the built-in classes that patterns, comparisons, arithmetic and literals need.
- Operators.Compute: only numbers, strings and arrays compute; a joined string does not end at an embedded NUL; floats are reals, without the results of a division by zero; where C defines no result for integers, on overflow and division by zero, the model aborts.
- The special names `__file__` and `__line__` are constants in compiled code; here they are literals of the tree.
- Array, hash and string internals: sequences and association lists; in particular interning compares whole strings, where the program's comparison stops at an embedded NUL.
- A failing malloc, realloc or hash operation, everywhere.
- A `break` in a function literal inside a loop of the function around it: the loop stack belongs to the compiler, so it jumps into another function's labels; excluded by the `Scoped` preconditions of `Compiler`.
- Process.RunFunction: relates a run to the evaluator up to the first call that has too few arguments above an operand or reaches a function whose code does not fit its words; beyond that it says only what the slot machine does with the decoded words. Functions that the program is handed from elsewhere are taken to be compiled too.
- CodeObjects.Code.Finish: claims no decoding for code that does not fit its words, whose operands are cut.
- Patterns.TestDecides: assumes that looking into an array or a hash changes nothing and that its size comes from native code, which is proved of the built-in classes; patterns with a hash value that can fail, which leave it on the stack, are covered by TestExact and ResidueExact.
- Builtins: comparing arrays that contain themselves, for which the program does not end, is taken to abort; an index into an array of 2^31 or more items is not cut to 32 bits.
- Symbols.ModuleFlagged: assumes that no two nodes of the tree have the same identity.
- Heap addresses: references are slot numbers; `heap_contains`, alignment, register saving and the stack scan are a given set of references, which point to live slots only.
- Destructors, and values a heap keeps outside its slots.
- HTTP callbacks that fail or pause, and upgrades in `ExecuteAll`; strict mode is fixed.
- HttpHeaders.LinesFeed: a Content-Length is one that the parser takes, as `HttpBody.WrapUnnoticed` says; headers without a colon, of which `HttpHeaders.NoColonFeeds` speaks, are not among them.
- HttpChunks.ChunkedRoundTrip: each size line and the trailer fit the limit on header bytes.
- HttpMessage.RequestRoundTrip: no CONNECT and no Upgrade header (`HttpMessage.MessageLeaves`), and a callback that skips no body; `HttpBody.HeadersEnd` says what skipping does.
- HttpUrl.UrlRecord.ParseUrl: buffers of more than 65535 bytes, where the 16-bit offsets wrap, are not modelled.
- Tasks.NeverFreedInUse: covers spawned tasks; the main task's record has no reference of its own and lives as long as the process.
- Task start-up is one step, and condition variables, wake-ups and progress are not modelled: a sender refused by a finished task keeps the lock, after which nothing else happens in the model.
- Sending to or receiving through a handle of the wrong kind, which aborts the process.
- Messages.Message.EncodeValue: padding inside cells and the byte after a string, which the program does not write, are not told apart from what was there.
