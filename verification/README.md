# BlazeScript: a verified model

BlazeScript is a small language system: a scanner and recursive-descent parser, a tree-walking
interpreter over chained hash tables, an x86-64 compiler for a fragment of the language, a bytecode
virtual machine with a disassembler, and an allocator for values. This project models these five
parts in Dafny and proves how they behave, one by one and where they meet. `dafny verify
dfyconfig.toml` checks everything.

Code that changes state in the source is a class or a method here, with loops, arrays and fields
that are updated in place, and is proved equal to a function of the old state. What the language
system promises is then proved about those functions.

| files | part |
|---|---|
| `Lexer`, `LexerObject`, `Layout` | the scanner: what each prefix of a text is read as, the object that moves an index, a line and a column over it, and the language of accepted texts written down without either |
| `Parser`, `ParserObject`, `ParserErrors` | the grammar as functions on the remaining tokens, the object that advances an index, and where errors are reported |
| `Forms`, `RoundTrip`, `FormImage` | every way to write a program, as forms with a meaning: the parser reads each form as its meaning, and nothing else |
| `Printer`, `PrintedForms`, `ParserImage`, `Parentheses` | the printer as one of these ways: parsing undoes printing, the trees that can be parsed, the fewest parentheses |
| `FrontEnd`, `SourceImage`, `SourceTexts` | scanner and parser together, on source texts |
| `Hash`, `Valmap`, `Scope` | the hash table and the chain of scopes, against finite maps and lists of them |
| `Eval`, `Interpreter` | the meaning of programs on lists of maps, and the interpreter on chained tables |
| `EvalProperties`, `Scoping`, `Runs`, `Operators` | what runs keep, and laws of bindings, of whole runs and of the operators, each stated through what a program can observe |
| `Calls`, `Tables` | which function a call calls, and when the tables cannot be noticed |
| `Asm`, `Compile` | the code tree, quoted data strings, and the compiler |
| `Machine`, `CompileCorrect`, `Drift`, `Agreement`, `Pipeline` | the run-time library, an x86-64 subset, what compiled code does on it, what becomes of calls with too many arguments, and compiler correctness |
| `Bytecode`, `Disassembler`, `VirtualMachine`, `Processor`, `MachineRuns` | instruction encoding, the two walkers over it, the machine, and what its runs show |
| `SlotAllocator` | the table of value slots |
| `Ast`, `Decimal` | syntax trees, values, and decimal numbers |

## Main results

1. *The source language is exactly what it is written down as.* A text is read as a program if and
   only if it is a layout of the tokens of one of the program's forms (`SourceTexts.TextsOfPrograms`):
   blanks, comments and tokens that nothing behind them extends (`Layout.AcceptedTexts`), and every
   spelling of a statement or expression (`FormImage.ProgramsAreForms`). So parsing undoes printing
   (`PrintedForms.ProgramReadBack`); the trees that can be parsed are exactly those the printer's
   well-formedness admits (`ParserImage.ProgramsThatParse`), those with a source text exactly the
   legal ones (`SourceImage.ProgramsWithText`), and no token list that is read as a program has fewer
   opening parentheses than its printed form (`Parentheses.FewestInPrograms`). The texts the scanner
   rejects, with their errors, are characterised exactly (`Layout.RejectedTexts`), and the parser
   complains at a token only if some program begins with the tokens before it
   (`ParserErrors.ErrorsAreFirst`).
2. *The interpreter computes the meaning of every program* of the modelled fragment, in which
   strings are immutable values: result, output and final bindings of every run on hash tables are
   those of the meaning on finite maps (`Interpreter.Interpret`, from `ValueMap.Valmap.Set` and
   `Scope.Scope.Assign`). Of the tables the meaning carries their sizes only, and it looks at them
   in one place: a call reads its function through a pointer found before the arguments, which
   dangles when an assignment among the arguments makes the table grow. Which calls call what their
   name was bound to is characterised exactly (`Calls.SafeToCall`, `Calls.CalleeAfterArguments`,
   `Calls.CallOfConstant`), and programs without assignments among arguments cannot notice the size
   of a table (`Tables.TablesUnnoticed`). The meaning itself is tied to what programs can
   observe: what a declaration or an assignment binds (`Scoping.DeclaredThenAssigned`,
   `Scoping.AssignmentBinds`), that inner bindings hide outer ones (`Scoping.BlocksHide`), which
   branch is taken (`Runs.BranchTaken`), that output only grows (`Runs.ExecAppends`), and the
   arithmetic of the operators (`Operators.ProductsAreRepeatedSums`, `Operators.SumsOfTexts`).
3. *The compiler is correct*: for every accepted program, the compiled file assembles, halts, prints
   and exits as the interpreter does if and only if every call has one to five arguments, all but
   the last of them strings, and no string has a backslash. One half needs nothing of the process
   (`Agreement.CompilerSound`); the other allows the entry address of the file among the words the
   process finds on its stack, where the kernel puts it, and no other (`Agreement.CompilerCorrect`).
4. *The executor stays on the disassembler's boundaries* for any bytes and any register contents
   (`VirtualMachine.BoundariesAgree`), and executing any encoded program is going through its
   instructions (`VirtualMachine.RunningAnyProgram`), whose moves load what they show while `%is`
   marks the start of the code (`VirtualMachine.RunningAProgram`). Whatever the code, the exit code
   is the low byte of `%r1` at the last call of the exit service, and what a run shows is one event
   per dump or printing call, in order (`MachineRuns.RunsShow`).
5. *The allocator is sound over a run* if and only if the run releases only held slots
   (`SlotAllocator.EveryRun`).

## Where the code does less than one may expect

For each of these the exact condition is proved.

- A probing table keeps a vacant slot forever exactly from capacity 5 on
  (`ValueMap.FreeSlotForever`); smaller ones fill up (`ValueMap.FillsUp`), and then a probe for an
  absent key never ends (`ValueMap.ProbeNeverEnds`).
- `f(f = println)` with `f` bound to `print` calls `println`, and `f(f = 5)` has no meaning
  (`Calls.ReassignedCallee`). With seven new global variables `println(a = 1)` reads a table that was
  freed (`Calls.MovedTable`). A name is safe to call with any arguments exactly if it is constant
  and its table is not both due to grow and within reach of an assignment (`Calls.SafeToCall`); for
  one call of a constant the names assigned in its arguments decide (`Calls.CallOfConstant`).
- Of the 20 default slots only eight can start a probe (`Hash.DefaultStartSlots`); correctness does
  not depend on it.
- A loop variable counts correctly exactly when the loop does not run or the variable has no
  built-in's name: the new scope already binds the name as a constant, so the first value is lost
  (`EvalProperties.CountedLoop`).
- A declaration that meets its own name succeeds exactly in later iterations of a loop, where it
  also overwrites constants (`EvalProperties.RedeclarationSucceedsOnlyInLoops`).
- The compiled `println` and the interpreter agree exactly when there is an argument and all but
  the last are strings: the run-time library ends every printed number with a line break, and the
  interpreter fails after printing the empty line of a call without arguments
  (`Agreement.PrintersDiffer`, `Agreement.CompilerCorrect`).
- A program with a call of more than five arguments never halts (`Drift.FileDrifts`): the next call
  faults, or main returns to a word of the process's own stack, which may be the entry of the file
  and then runs it again. With assertions compiled in, calls of three arguments are refused already.
- `!==` is the negation of `===` exactly between operands of one type, and false otherwise
  (`Operators.StrictEquality`). `==` is not transitive (`Operators.EqualityNotTransitive`): two
  equalities compose exactly if the value between them is a string, or both ends or neither are
  strings, or the two values that are no strings have one type (`Operators.EqualityTransitive`).
- The quoted data string is read back exactly when it has no backslash
  (`Asm.QuotingIsFaithful`, `CompileCorrect.DataAssembles`), and a misread one shows in the output
  (`Asm.MisreadingShows`).
- A call leaves the stack pointer where it was exactly when it has at most five arguments
  (`CompileCorrect.StackBalance`).
- The immediate of a move is fetched relative to `%is`, so it is the one that is shown exactly
  while `%is` marks the start of the code (`VirtualMachine.ImmediateShown`, `VirtualMachine.MovAfterIs`).
- The push functions make room for a single byte; a program is emitted inside the buffer exactly
  when no move starts at an offset of 1 to 7 modulo 20 (`Bytecode.EmitsExactlyWhenPlaced`).
- A shebang line is stripped up to its first line-break character; after CR LF the LF stays and is
  not an opcode (`Bytecode.ShebangInvisible`).
- A loop without a variable needs a body that does not start with an identifier; with a count the
  printer can shield such a body with parentheses, without one nothing can
  (`ParserImage.ProgramsThatParse`).

## Model

| member | source | states |
|---|---|---|
| Hash.HashKey | src/valmap.c:35-46 | The byte loop over the key computes the start slot of the specification, and the slot is inside the table. |
| Hash.DefaultStartSlots | src/valmap.c:45-45 | At the default capacity 20 every key starts its probe in one of eight slots, because 20 is not a power of two. |
| Hash.PublishedHashes | src/valmap.c:35-46 | The hashes of the empty key and of `a` are those published for 64-bit FNV-1a. |
| ValueMap.Probe | src/valmap.c:50-65 | Given a vacant slot, the wrapping probe loop ends (the cyclic distance to that slot shrinks), on the key or on a vacancy, having passed only used slots of other keys. |
| ValueMap.ProbeDecides | src/valmap.c:48-66 | Where the probe stops tells the map: the slot is used exactly when the key is bound, and then holds its value and const flag. |
| ValueMap.SomeVacancy | src/valmap.c:48-66 | A table that represents a map with fewer bindings than slots has a vacant slot (by counting keys). |
| ValueMap.StoredBinding | src/valmap.c:115-133 | Writing the slot at which a probe stopped yields a table that represents the updated map, with every other key still reachable through occupied slots. |
| ValueMap.SetEntry | src/valmap.c:85-139 | Map, status and element count after a write are those a finite map predicts for each mode, checked or not; an existing entry keeps its const flag. |
| ValueMap.Rehash | src/valmap.c:141-160 | Re-inserting all entries into a larger array represents the same map, const flags included, whatever the two capacities. |
| ValueMap.OneMeaning | src/valmap.c:48-66 | A slot array represents at most one map. |
| ValueMap.GrownKeepsRoom | src/valmap.c:162-168 | From any capacity of at least 5 the grow-before-insert rule leaves fewer elements than slots after any number of inserts. |
| ValueMap.TableSize | src/valmap.c:162-168 | After any number of inserts the table has the smallest size that doubling reaches of which the elements found by the last of them fill less than four fifths. |
| ValueMap.FillsUp | src/valmap.c:162-168 | Below capacity 5 the rule does not act in time: the table becomes completely full. |
| ValueMap.FreeSlotForever | src/valmap.c:119-123 | A vacant slot remains after every number of inserts if and only if the initial capacity is at least 5. |
| ValueMap.ProbeNeverEnds | src/valmap.c:48-66 | In a full table the probe for an absent key looks at a used slot of another key after any number of steps. |
| ValueMap.Valmap.constructor | src/valmap.c:21-28 | A new table of any size represents the empty map; it is one that keeps a vacant slot exactly from size 5 on. |
| ValueMap.Valmap.GetValue | src/valmap.c:48-66 | Looking a key up gives what the map binds it to, or nothing. |
| ValueMap.Valmap.Locate | src/valmap.c:48-66 | The slot of a key, which holds its value and const flag, or none. |
| ValueMap.Valmap.CheckRealloc | src/valmap.c:162-168 | The check never changes the map, leaves room for one insert and a vacant slot besides, and moves the array exactly when it changes the capacity. |
| ValueMap.Valmap.Set | src/valmap.c:170-175 | A write through a resize: new map and status are those of one finite-map write, and unless the array moves every binding stays in its slot. |
| ValueMap.Valmap.SetNoOverwrite | src/valmap.c:177-184 | An existing key is reported and the map unchanged; otherwise the binding is added with its const flag. |
| ValueMap.Valmap.SetNoCreate | src/valmap.c:186-193 | An unknown key or a constant is reported and the map unchanged; otherwise only the value changes. The array moves exactly when its size changes, and otherwise every key stays in its slot. |
| ValueMap.Valmap.SetDefault | src/valmap.c:195-201 | Without a status pointer modes and const flags of existing entries are ignored: the value always changes, the flag never. |
| Scope.Scope.Root | src/scope.c:18-37 | A scope without parent stands for one empty frame. |
| Scope.Scope.Child | src/scope.c:18-37 | A child scope stands for a frame that binds the built-in functions, in front of its parent chain. |
| Scope.Scope.DeclareBuiltins | src/scope.c:28-32 | Declaring the built-ins in the table is declaring them in the frame, one after the other. |
| Scope.Scope.Declare | src/scope.c:92-97 | Declaring writes the innermost frame as the scope mode says, with the status of the map; no other scope changes. |
| Scope.Scope.AssignOwn | src/scope.c:80-84 | The attempt in one table changes at most that frame, and nothing when the name is not there. |
| Scope.Scope.Assign | src/scope.c:80-90 | Assigning along the parent chain of tables is assigning in the list of maps, status included; arrays move only when they grow, and otherwise every binding stays in its slot. |
| Scope.Scope.Find | src/scope.c:99-106 | Resolving along the chain of tables gives the nearest binding in the list of maps. |
| Scope.Scope.FindSlot | src/scope.c:99-106 | Resolving a name gives a pointer to the slot of the nearest binding, in an array of the size that the meaning carries. |
| Scope.PointersKept | src/scope.c:99-106 | Over any number of assignments, an earlier pointer to a binding still points to it exactly if the array is as large as it was. |
| Scope.CreateGlobal | src/scope.c:44-63 | The global scope binds true, false, null and the built-ins, as constants. |
| EvalProperties.AssignChangesNearest | src/scope.c:80-90 | An assignment changes exactly the nearest binding or none: it fails exactly when there is none or it is constant, and then at most the sizes of tables change; no other name changes, nor anything outside the nearest binding. |
| EvalProperties.BuiltinsAdded | src/scope.c:28-32 | Declaring the first n built-ins adds exactly these names as constants and keeps every binding that was there. |
| EvalProperties.ScopesBindBuiltins | src/scope.c:18-63 | Every scope created below the global one, and the global one, bind all built-in names to their built-ins. |
| Interpreter.EvaluateExpr | src/eval.c:45-92 | Evaluating any expression on chained tables gives the value or error, the bindings and the output of the meaning on lists of maps, and moves no binding except with an array that grows. |
| Interpreter.EvaluateBinary | src/eval.c:637-659 | The same for binary operators: the operands are evaluated left to right, and the first error ends it. |
| Interpreter.EvaluateAssignment | src/eval.c:349-375 | The same for assignments, including constants and undeclared names. |
| Interpreter.EvaluateCall | src/eval.c:254-306 | The same for calls of built-in functions: a pointer to the function is found before the arguments and read after them. |
| Interpreter.InvokeFound | src/eval.c:287-304 | The function is read through the slot pointer found before the arguments; a pointer into an array that was given up, or to what is no function, makes the call undefined. |
| Interpreter.EvaluateArgs | src/eval.c:278-285 | Arguments are evaluated left to right up to the first error. |
| Interpreter.Execute | src/eval.c:45-92 | Executing any statement on chained tables gives result, bindings and output of its meaning on lists of maps. |
| Interpreter.ExecuteVarDecl | src/eval.c:613-635 | Declarations, with the overwriting that later loop iterations allow. |
| Interpreter.Declare | src/eval.c:613-635 | Declaring an evaluated value, as a declaration or as the overwrite of a later iteration. |
| Interpreter.ExecuteBlock | src/eval.c:176-187 | A block runs in a scope of its own, and the enclosing chain is what the meaning leaves. |
| Interpreter.ExecuteIf | src/eval.c:164-174 | The branch taken is the one the truthiness of the condition selects. |
| Interpreter.ExecuteSeq | src/eval.c:180-183 | Statements run one after the other up to the first error. |
| Interpreter.ExecuteLoop | src/eval.c:104-162 | A loop with or without count and variable, its errors, and its scope. |
| Interpreter.OpenLoopScope | src/eval.c:126-138 | The loop scope starts in reuse mode with ids 1 and 0 and the variable declared as 0. |
| Interpreter.ExecuteBody | src/eval.c:145-148 | A block body shares the loop scope; any other body is executed in it. |
| Interpreter.ExecuteIterations | src/eval.c:140-158 | The while loop runs the body as often, on the same bindings, as the recursive meaning. |
| Interpreter.EnterIteration | src/eval.c:143-143 | Entering an iteration records its number as the previous id. |
| Interpreter.LeaveIteration | src/eval.c:150-157 | Leaving an iteration records the next number and overwrites the variable with it. |
| Interpreter.Interpret | src/eval.c:661-671 | Over whole programs: result, output and bindings on hash tables are those of the meaning on finite maps with their table sizes. |
| EvalProperties.ExecKeeps | src/eval.c:45-92 | Whatever a statement does, every enclosing frame keeps its names, const flags and modes, and in default-mode frames every constant keeps its value. |
| EvalProperties.SeqKeeps | src/eval.c:180-183 | The same over any sequence of statements. |
| EvalProperties.IterateKeeps | src/eval.c:140-158 | The same over all iterations of a loop. |
| EvalProperties.BuiltinsSurvive | src/scope.c:18-106 | After any run in any default-mode scope every built-in name still resolves to its built-in. |
| EvalProperties.RedeclarationSucceedsOnlyInLoops | src/eval.c:613-635 | Declaring a name the frame already binds succeeds exactly in an iteration after the first, where the value is replaced; otherwise it is the error that names it, and the old value stays. |
| EvalProperties.CountedLoop | src/eval.c:126-158 | The statement `loop (n as i) body`: without an error it starts its body exactly n times; the variable is k at the start of iteration k, in all of them, if and only if n is 0 or it has no built-in's name; exactly the later iterations redeclare, and the name is a constant in all. |
| EvalProperties.IterationsFrom | src/eval.c:140-158 | From any iteration on: how many remain, which bindings the first sees, and what the variable is in each. |
| EvalProperties.EndlessLoop | src/eval.c:140-141 | A loop over true never ends normally. |
| EvalProperties.FuelSuffices | src/eval.c:140-158 | The bound on iterations of loops over true is not part of the meaning: a run that ends within one bound is the same under any larger one. |
| Scoping.DeclarationBinds | src/eval.c:613-635 | Declaring a name that the frame does not bind binds it to the value of its initialiser, or to null, as a constant exactly if it says so; every other name keeps what the initialiser left. |
| Scoping.DeclaredThenRead | src/eval.c:613-635 | `var x = e; x` has the value of e. |
| Scoping.DeclaredThenAssigned | src/eval.c:349-375 | `var x = e; x = f` has the value of f and leaves x with it; with `const` it is the error for constants, and x keeps the value of e. |
| Scoping.AssignmentBinds | src/eval.c:349-375 | An assignment has the value of its right-hand side and leaves its name with it, if the name is bound to no constant; otherwise it is the error for unknown names or for constants, and no binding changes beyond what the right-hand side did. |
| Scoping.SeqSplits | src/eval.c:661-671 | Running two lists of statements in a row is running one and then, if it ended normally, the other. |
| Scoping.DeclaresLocally | src/scope.c:92-97 | A statement, run to any point, adds names to the innermost scope only, and a block, a loop or an expression to none; no const flag changes outside. |
| Scoping.InnerBindingsHide | src/scope.c:80-106 | Whatever a statement does, a name that an inner scope binds means the same outside that scope as before. |
| Scoping.BlocksHide | src/eval.c:176-187 | `{ var x = e; ... }` leaves the x outside as evaluating e left it, whatever the rest of the block does. |
| Runs.ArgsSplit | src/eval.c:278-285 | Evaluating two lists of arguments in a row is evaluating one and then, if all of it has values, the other in the scopes that the first left. |
| Runs.OperandsInOrder | src/eval.c:637-659 | Operands are evaluated as two arguments are, left to right, and combined only if both have values. |
| Runs.ExecAppends | src/eval.c:45-92 | A run appends to the output and depends on nothing printed before. |
| Runs.IterationsAppend | src/eval.c:140-158 | The same over all iterations of a loop. |
| Runs.BranchTaken | src/eval.c:164-174 | Null, false and 0 take the else branch and every other value the first: the run ends as the branch taken does, from what the condition left. |
| Runs.FalsyIsZero | src/eval.c:164-174 | Of the values that are no strings exactly those equal to 0 are taken for false; every string is taken for true. |
| Runs.CountsAccepted | src/eval.c:104-141 | A loop over a value that is neither number nor boolean, or over a negative number, is the error for it; over 0 or false it does nothing; over true it is the loop without a count, which never ends normally. |
| Runs.LoopSums | src/eval.c:104-162 | `loop (n as i) s = s + i` adds 0 to n - 1 to s and changes no other name. |
| Runs.BodyScopeShared | src/eval.c:145-148 | What the block of a loop declares first is still bound when the next iteration starts. |
| Runs.ShownSplits | lib/lib.c:43-52 | The arguments are shown in order with one space between two of them. |
| Runs.ShownInColour | lib/print.c:9-60 | A string is shown as it is, any other value as its text between its colour and the code that ends it. |
| Runs.PrintAndPrintln | lib/lib.c:28-55 | `print` shows its arguments, of which there must be one; `println` does the same and then ends the line, also where `print` fails. |
| Runs.ExitEnds | lib/lib.c:17-26 | `exit` ends the run, whatever follows, with the low byte of an integer or with 0; any other argument is an error. |
| Runs.LiteralsSurvive | src/scope.c:44-63 | After any run of any program the three literals and the six built-in names mean what they meant. |
| Calls.ExprEvolves | src/eval.c:45-92 | No expression adds a name, changes a const flag or a constant, or grows a table that was not due. |
| Calls.OnlyFunctionsCalled | src/eval.c:258-276 | Calling a name that is not bound, or not to a function, is the error for it, before any argument is evaluated. |
| Calls.CalleeAfterArguments | src/eval.c:258-289 | A call calls what its name was bound to before the arguments if and only if they left that binding and the size of its table alone. |
| Calls.ArgsMove | src/valmap.c:162-168 | Arguments that evaluate to values move the table of the callee if and only if it is due and some name assigned in them reaches it. |
| Calls.CallOfConstant | src/eval.c:254-306 | One call of a constant, with such arguments, calls what the name is bound to if and only if its table is not due or no name assigned in them reaches it. |
| Calls.PlainArguments | src/eval.c:254-306 | Without an assignment among the arguments it always does. |
| Calls.SafeToCall | src/eval.c:254-306 | Whatever the arguments, calls of a name call what it is bound to, if and only if the name is constant and its table is not both due to grow and reached by some possible assignment. |
| Calls.ReassignedCallee | src/eval.c:287-289 | f(f = println) with f bound to print prints with a line break, and f(f = 5) is undefined, in every scope where f can be assigned and its table is not due. |
| Calls.MovedTable | src/valmap.c:162-168 | After up to seven new global variables, println(a = 1) is undefined exactly after seven, and prints 1 and a line break otherwise. |
| Tables.ExecAlike | src/eval.c:45-92 | A statement without assignments among arguments has the same outcome and output in scopes that differ in table sizes only, and leaves such scopes. |
| Tables.TablesUnnoticed | src/eval.c:661-671 | So does every program without them, whatever the size of the table it starts with. |
| Operators.RemainderTruncates | src/eval.c:597-605 | The remainder is the one number below the divisor with the sign of the dividend that leaves a multiple: C's truncation, for all signs. |
| Operators.IntegersAreExact | src/eval.c:568-605 | Sums commute and are undone by differences wherever they have 64 bits, and a remainder is the division-by-zero error exactly for the divisor 0 and has 64 bits whenever it is defined. |
| Operators.SumsStep | src/eval.c:570-572 | a + 0 is a, and a step in one operand is a step in the sum, up to the bound of 64 bits. |
| Operators.DifferencesUndoSums | src/eval.c:574-576 | a - b is d exactly if d + b is a; without such a d it is undefined. |
| Operators.ProductsAreRepeatedSums | src/eval.c:578-580 | a * b is a added to 0 b times, or subtracted -b times, is b * a, and is defined exactly if the product has 64 bits. |
| Operators.QuotientsAreRatios | src/eval.c:582-591 | a / b is a ratio equal to that of the operands, and the error exactly for the divisor 0. |
| Operators.RemaindersAre | src/eval.c:593-601 | a % b is r exactly if r is smaller than b, has the sign of a and differs from a by a multiple of b; undefined only for the smallest integer and -1. |
| Operators.SumsOfTexts | src/eval.c:437-472 | A sum with a string is a text of the left operand followed by one of the right operand; it fails exactly if an operand has none. |
| Operators.TextIs | src/eval.c:474-481 | The text of a number is decimal without needless zeros, and that of a literal its name; floating-point numbers and functions have none. |
| Operators.OperandsAccepted | src/eval.c:474-659 | Which operands each operator takes, and the error for the others. |
| Operators.ComparedAsIntegers | src/eval.c:509-561 | Integers compare as integers, null and false as 0 and every other value that is no string as 1. |
| Operators.ComparisonsOrder | src/eval.c:509-561 | Between values that are no strings exactly one of <, == and > holds, and <= and >= are the negations of > and <. |
| Operators.OrderTransitive | src/eval.c:509-561 | <= and < are transitive on all values. |
| Operators.EqualityTransitive | src/eval.c:474-561 | Given a == b and b == c: a == c if and only if b is a string, or both or neither of a and c are, or the two that are no strings have one type. |
| Operators.EqualityNotTransitive | src/eval.c:474-561 | The input: "1" == 1 and 1 == true, but not "1" == true. |
| Operators.StrictEquality | src/eval.c:509-561 | === is == between operands of one type; !== is its negation if and only if the operands have one type. |
| Runtime.Println | lib/value.c:43-69 | The argument loop with its newline flag prints each item, a space between items, and a final line break exactly when all were strings. |
| Asm.Quote | src/compile-x86_64.c:52-74 | The loop that quotes a literal escapes each double quote and copies every other character. |
| Asm.ReadsBack | src/compile-x86_64.c:55-69 | The assembler reads the escaped text of a string without backslashes back as that string. |
| Asm.BackslashShortens | src/compile-x86_64.c:55-69 | What is read from a literal is never longer than it, and shorter when it has a backslash. |
| Asm.QuotingIsFaithful | src/compile-x86_64.c:52-74 | The quoted data string is read as the literal if and only if the literal has no backslash. |
| Asm.MisreadingShows | src/compile-x86_64.c:52-74 | What is printed for a misread literal, with the separator behind it, is never how the literal starts. |
| Compile.LoadArgs | src/compile-x86_64.c:91-115 | The load loop emits one move per argument for the first six, into the parameter registers in order. |
| Compile.FreeValues | src/compile-x86_64.c:142-152 | The cleanup loop emits a pop and a release per argument and drops the argument count. |
| Compile.PushInst | src/asm.c:114-124 | An instruction pushed onto a node prints after all the lines the node printed before. |
| Compile.Compiler.CompileExpr | src/compile-x86_64.c:33-89 | Literals compile to the creation of their value, with a new label and data line per string; nothing else is accepted. |
| Compile.Compiler.CompileArgs | src/compile-x86_64.c:117-140 | All arguments compile to creations and pushes in order; one that is no literal refuses the call. |
| Compile.Compiler.CompileCall | src/compile-x86_64.c:154-185 | Exactly println calls on literals are accepted (on fewer than three when the assertion is compiled in). |
| Compile.Compiler.CompileRoot | src/compile-x86_64.c:215-240 | The printed lines and data of a program are those of the specification, and exactly the accepted programs compile. |
| Compile.FilePrints | src/compile-x86_64.c:187-228 | The tree built for a file prints as the entry code, the label of main and the instructions of its body. |
| CompileCorrect.ExprRun | src/compile-x86_64.c:37-84 | The code of a literal leaves a new heap value with the literal's meaning in rax, for integers of any width and every string. |
| CompileCorrect.ArgsRun | src/compile-x86_64.c:126-137 | The code of the arguments creates their values in order and pushes them below one another, touching nothing above. |
| CompileCorrect.LoadRun | src/compile-x86_64.c:91-115 | The loads put the cells of the frame into the parameter registers, each into its own. |
| CompileCorrect.VaRegisters | src/compile-x86_64.c:91-115 | The callee looks for variable argument i in the register into which the call loads its argument i + 1. |
| CompileCorrect.VaRun | lib/value.c:46-51 | Walking the variadic arguments, five from registers and the rest from the stack, reads the values in the order the frame gives them. |
| CompileCorrect.UpToSixInOrder | src/compile-x86_64.c:91-115 | Up to six values are read by the callee in source order. |
| CompileCorrect.FreeRun | src/compile-x86_64.c:144-148 | The cleanup pops and frees the values of the call, last first, each once. |
| CompileCorrect.PrintRun | src/compile-x86_64.c:170-172 | Loading and calling print the frame's values through the run-time library, for any number of arguments. |
| CompileCorrect.CallRun | src/compile-x86_64.c:154-185 | A whole call prints its values, leaves the heap as before with exactly its values freed, keeps the stack above rbp, and ends with a known rsp. |
| CompileCorrect.StackBalance | src/compile-x86_64.c:181-182 | After a call rsp equals rbp again if and only if the call has at most five arguments. |
| Drift.DriftedCall | src/compile-x86_64.c:154-185 | A call that finds rsp above rbp faults, whatever its arguments: it takes a value for the argument count, or an old count without values. |
| Drift.OnePass | src/compile-x86_64.c:187-239 | From the entry to the return of main such a file crashes, or comes back to its entry with rsp further up. |
| Drift.FileDrifts | src/compile-x86_64.c:181-239 | A file with a call of more than five arguments never halts, after any number of steps, if the process finds no address of the file on its stack but that of its entry. |
| CompileCorrect.ProgramRun | src/compile-x86_64.c:229-235 | Over all calls of a program: rsp equals rbp between calls, the heap is as before, and the output is the calls' outputs in order. |
| CompileCorrect.FileLayout | src/compile-x86_64.c:187-239 | Where the labels and instructions of a file are, with no other label to jump to. |
| CompileCorrect.MainRun | src/compile-x86_64.c:204-213 | Around main rbp, rsp and the return address are restored. |
| CompileCorrect.FileRun | src/compile-x86_64.c:187-240 | From the entry label the machine halts with status 0, its initial rsp and rbp, an empty heap in which every value created was freed exactly once, and the program's trace as output. |
| CompileCorrect.LabelsDiffer | src/compile-x86_64.c:51-51 | Two string literals never share a label. |
| CompileCorrect.DataAssembles | src/compile-x86_64.c:48-81 | The data section gives every literal its text if and only if none has a backslash (or a NUL, which no literal can hold); if it assembles, each label stands for what is seen of its literal. |
| Agreement.PrintersAgree | lib/lib.c:28-55 | On values all strings but the last, the run-time library prints what the interpreter prints. |
| Agreement.RuntimeLines | lib/value.c:43-69 | The run-time library shows its arguments in order with a space between two of them, and ends the line once more exactly if all are strings. |
| Agreement.PrintersDiffer | lib/value.c:53-66 | On any other values the two outputs differ at some position. |
| Agreement.CallsCompare | lib/value.c:43-69 | For one call: the output for the strings that are seen equals the interpreter's for those that were written if the call is good and its strings are plain, and differs from it at some position otherwise. |
| Agreement.InterpretedProgram | src/eval.c:278-306 | The interpreter's output on a program is the trace of the program as the assembler reads it, if all calls are good and plain; otherwise it fails or differs at some position. |
| Agreement.InterpreterBehaviour | src/eval.c:661-671 | The interpreter ends well with that trace if and only if every call is good and every string plain. |
| Agreement.CompilerSound | src/compile-x86_64.c:33-257 | Whatever the stack and the registers hold: an accepted program behaves compiled as interpreted if every call has one to five arguments, all but its last are strings, and no string has a backslash. |
| Agreement.CompilerCorrect | src/compile-x86_64.c:33-257 | For every accepted program: the file assembles and at some step halts with the interpreter's output and status if and only if every call has one to five arguments, all but its last are strings, and no string has a backslash; the process may find the entry address of the file on its stack. |
| Machine.LedgerKept | lib/value.c:71-79 | Whatever code runs, live and freed heap values together are the values created, each once: no value is freed twice. |
| Machine.StraightRun | src/compile-x86_64.c:215-240 | Code without jumps found at the program counter runs as the fold of its instructions. |
| Pipeline.TextToTrace | src/compile-x86_64.c:215-257 | From any source text of a program: it lexes and parses as the program, and the tree read behaves compiled as CompilerSound and CompilerCorrect say. |
| ParserObject.Parser.Expression | src/parser.c:591-630 | Expressions and right-associative assignments: the routine returns what the grammar prescribes for the tokens at the index and leaves the index at the rest, or stops with the same error. |
| ParserObject.Parser.Array | src/parser.c:371-401 | Array literals: the routine returns what the grammar prescribes for the tokens at the index and leaves the index at the rest, or stops with the same error. |
| ParserObject.Parser.Elements | src/parser.c:384-397 | The element list of an array: the routine returns what the grammar prescribes for the tokens at the index and leaves the index at the rest, or stops with the same error. |
| ParserObject.Parser.Comparison | src/parser.c:707-723 | Left-associative comparison chains: the routine returns what the grammar prescribes for the tokens at the index and leaves the index at the rest, or stops with the same error. |
| ParserObject.Parser.Additive | src/parser.c:692-705 | Left-associative sums: the routine returns what the grammar prescribes for the tokens at the index and leaves the index at the rest, or stops with the same error. |
| ParserObject.Parser.Multiplicative | src/parser.c:676-690 | Left-associative products: the routine returns what the grammar prescribes for the tokens at the index and leaves the index at the rest, or stops with the same error. |
| ParserObject.Parser.CallExpression | src/parser.c:500-543 | Calls, and any primary expression without an argument list: the routine returns what the grammar prescribes for the tokens at the index and leaves the index at the rest, or stops with the same error. |
| ParserObject.Parser.Arguments | src/parser.c:522-532 | Argument lists: the routine returns what the grammar prescribes for the tokens at the index and leaves the index at the rest, or stops with the same error. |
| ParserObject.Parser.Primary | src/parser.c:725-798 | Names, literals and parentheses, with the errors of everything else: the routine returns what the grammar prescribes for the tokens at the index and leaves the index at the rest, or stops with the same error. |
| ParserObject.Parser.Statement | src/parser.c:403-444 | A statement and the semicolons after it: the routine returns what the grammar prescribes for the tokens at the index and leaves the index at the rest, or stops with the same error. |
| ParserObject.Parser.BareStatement | src/parser.c:405-438 | The choice of the statement by its first token: the routine returns what the grammar prescribes for the tokens at the index and leaves the index at the rest, or stops with the same error. |
| ParserObject.Parser.VariableDeclaration | src/parser.c:545-589 | Variable and constant declarations: the routine returns what the grammar prescribes for the tokens at the index and leaves the index at the rest, or stops with the same error. |
| ParserObject.Parser.Parameters | src/parser.c:466-478 | Parameter lists: the routine returns what the grammar prescribes for the tokens at the index and leaves the index at the rest, or stops with the same error. |
| ParserObject.Parser.FunctionHead | src/parser.c:446-480 | The head of a function declaration: the routine returns what the grammar prescribes for the tokens at the index and leaves the index at the rest, or stops with the same error. |
| ParserObject.Parser.FunctionDeclaration | src/parser.c:446-498 | Function declarations: the routine returns what the grammar prescribes for the tokens at the index and leaves the index at the rest, or stops with the same error. |
| ParserObject.Parser.BlockStatement | src/parser.c:347-369 | Blocks: the routine returns what the grammar prescribes for the tokens at the index and leaves the index at the rest, or stops with the same error. |
| ParserObject.Parser.Statements | src/parser.c:359-364 | Statement lists up to a closing brace or the end: the routine returns what the grammar prescribes for the tokens at the index and leaves the index at the rest, or stops with the same error. |
| ParserObject.Parser.Condition | src/parser.c:320-322 | The condition of an if: the routine returns what the grammar prescribes for the tokens at the index and leaves the index at the rest, or stops with the same error. |
| ParserObject.Parser.IfStatement | src/parser.c:313-345 | If statements; an else goes to the nearest if: the routine returns what the grammar prescribes for the tokens at the index and leaves the index at the rest, or stops with the same error. |
| ParserObject.Parser.AsName | src/parser.c:283-288 | The optional variable inside the parentheses of a loop: the routine returns what the grammar prescribes for the tokens at the index and leaves the index at the rest, or stops with the same error. |
| ParserObject.Parser.LoopCount | src/parser.c:280-293 | The optional count of a loop: the routine returns what the grammar prescribes for the tokens at the index and leaves the index at the rest, or stops with the same error. |
| ParserObject.Parser.LoopStatement | src/parser.c:270-311 | Loops: the routine returns what the grammar prescribes for the tokens at the index and leaves the index at the rest, or stops with the same error. |
| ParserObject.Parser.Expected | src/parser.c:90-105 | The expected token, or the error for the token found: the routine returns what the grammar prescribes for the tokens at the index and leaves the index at the rest, or stops with the same error. |
| ParserObject.CreateAst | src/parser.c:107-127 | The whole parser computes the program the grammar prescribes, or its error. |
| Grammar.ParseExpr | src/parser.c:591-630 | A parsed expression consumes at least one token, and on a list that ends in the end-of-file token parsing never runs past the end. |
| Grammar.ParseStmt | src/parser.c:403-444 | The same for statements. |
| Grammar.ParseProgram | src/parser.c:107-127 | The same for programs. |
| RoundTrip.ExprReadBack | src/parser.c:591-630 | Every way to write an expression (with any parentheses, argument lists with or without commas, trailing commas), followed by anything that cannot extend it, is read as the expression it means, up to its end. |
| RoundTrip.BinaryReadBack | src/parser.c:676-723 | The same for chains at the three binary levels: left operands associate, right ones are in parentheses when they must be. |
| RoundTrip.OperandReadBack | src/parser.c:676-723 | The same for the operands of each level. |
| RoundTrip.CallReadBack | src/parser.c:500-543 | The same for calls and primary expressions. |
| RoundTrip.ArgsReadBack | src/parser.c:522-532 | The same for argument lists. |
| RoundTrip.ElemsReadBack | src/parser.c:384-397 | The same for array elements. |
| RoundTrip.OperatorsRead | src/parser.c:632-674 | The thirteen operators, as they are written, are recognised at their own level only and read as themselves. |
| RoundTrip.StmtReadBack | src/parser.c:403-444 | Every way to write a statement (with any number of semicolons behind it, and both places for the variable of a loop), followed by what it does not take, is read as what it means; an else goes to the nearest if. |
| RoundTrip.IfReadBack | src/parser.c:313-345 | The same for if statements with and without else. |
| RoundTrip.LoopHeadReadBack | src/parser.c:270-299 | The same for loop heads, with `as name`, a name behind the head, both or neither; the name behind wins. |
| RoundTrip.AsNameReadBack | src/parser.c:283-288 | `as name` is read as that name, and a closing parenthesis as none. |
| RoundTrip.FnStep | src/parser.c:446-498 | The same for function declarations, with or without a trailing comma, given their bodies. |
| RoundTrip.StmtsReadBack | src/parser.c:347-369 | The same for statement lists. |
| RoundTrip.FormsReadBack | src/parser.c:107-127 | Every form of a program, up to the end of the file, is read as what it means. |
| FormImage.ExprIsForm | src/parser.c:591-630 | Whatever is read as an expression is one of the forms that mean it, in front of the rest. |
| FormImage.StmtIsForm | src/parser.c:403-444 | The same for statements, none of which is followed by an else that it could take. |
| FormImage.ProgramsAreForms | src/parser.c:107-127 | Tokens are read as a program up to the end of the file if and only if they are the tokens of one of its forms. |
| PrintedForms.PrintedExprReadBack | src/parser.c:591-630 | For every expression, parsing its printing followed by anything that cannot extend it gives it back and stops exactly behind it. |
| PrintedForms.ProgramReadBack | src/parser.c:107-127 | Parsing undoes printing: every well-formed program is read back from its tokens. |
| PrintedForms.LoopsWithAs | src/parser.c:270-311 | `loop (count as name) body` is the loop over name, and with a second name behind the parenthesis the loop over that one. |
| PrintedForms.CommasOptional | src/parser.c:522-532 | Any of the commas between the arguments of a call can be left out, except in front of a parenthesis. |
| ParserImage.ExprImage | src/parser.c:591-630 | Every parsed expression is well-formed, and unless its tokens start with a parenthesis its printed form starts with the same kind of token. |
| ParserImage.StmtImage | src/parser.c:403-444 | Every parsed statement is well-formed; one that an else could extend is not followed by one. |
| ParserImage.ProgramsThatParse | src/parser.c:107-127 | A program is the result of parsing some token list if and only if it is well-formed. |
| ParserImage.PrintedFormMeansTheSame | src/parser.c:107-127 | Printing whatever was parsed and parsing it again gives the same program. |
| Parentheses.FewestInExpressions | src/parser.c:591-798 | Whatever tokens an expression was read from, its printed form before the same rest has no more opening parentheses. |
| Parentheses.FewestInPrograms | src/parser.c:107-127 | The same for programs, loop bodies that need shielding included. |
| ParserErrors.ErrorsAreFirst | src/parser.c:73-105 | Every error of the parser names a token such that some program begins with the tokens in front of it. |
| ParserErrors.RefusedForTheNext | src/parser.c:598-630 | Not the other way round: `5 = 3;` is refused for its first token, though `5;` is a program. |
| ParserErrors.WhichError | src/parser.c:92-105 | Behind any statements: a constant without a value is reported as such, a file that ends behind an expression as ending too early, one that ends before an operand as an unexpected token. |
| LexerObject.Scanner.Forward | src/lexer.c:151-165 | One step moves line and column so that they stay the function of the consumed prefix. |
| LexerObject.Scanner.SkipLine | src/lexer.c:341-345 | A line comment is skipped up to its line break. |
| LexerObject.Scanner.SkipComment | src/lexer.c:354-373 | A block comment is skipped behind its first closing sign; without one the characters run out. |
| LexerObject.Scanner.LexString | src/lexer.c:174-208 | A string token holds the text up to the next quote of the same kind, placed at its start column and end; without one the scan fails. |
| LexerObject.Scanner.LexNumber | src/lexer.c:210-233 | A number token holds the longest run of digits. |
| LexerObject.Scanner.LexWord | src/lexer.c:246-271 | A word token holds the longest run of name characters, as keyword or identifier. |
| LexerObject.Scanner.LexLongOperator | src/lexer.c:287-329 | An operator of two or three characters is taken, longest first, or nothing happens. |
| LexerObject.Scanner.Round | src/lexer.c:333-409 | One round takes exactly the blank, comment or token that the rest starts with. |
| LexerObject.Scanner.Analyze | src/lexer.c:331-414 | The whole scan gives the specified tokens with their positions and a final end-of-file token, or the error. |
| Lexer.PositionsCount | src/lexer.c:151-165 | Line and column after any prefix count its CR and LF characters and the characters since the last one. |
| Lexer.LongestOperator | src/lexer.c:287-329 | Where a sign is read, no longer sign starts there: maximal munch. |
| Lexer.PiecesTile | src/lexer.c:331-414 | Blanks, comments and tokens of an accepted text tile it: their texts joined are the text, none is empty, and the tokens among them are the result. |
| Layout.WordRead | src/lexer.c:246-271 | A word in front of anything that does not go on with a name character is read as that word. |
| Layout.SignRead | src/lexer.c:273-329 | A sign in front of anything that does not make it a longer sign or a comment is read as that sign. |
| Layout.ItemRead | src/lexer.c:333-409 | A blank, a comment, a quoted string or a legal token, where it fits what follows, is read as just that. |
| Layout.TokenEnds | src/lexer.c:210-329 | A legal token is read off the front of a text if and only if what follows does not extend it. |
| Layout.LayoutRead | src/lexer.c:331-414 | Every layout of items is read as its tokens, each with the line on which it ends and the columns at which it starts and ends, and one end-of-file token. |
| Layout.AcceptedTexts | src/lexer.c:331-414 | The scanner accepts a text if and only if it is such a layout. |
| Layout.RejectedTexts | src/lexer.c:331-414 | It fails with an error if and only if a layout leads up to what that error is about: a character that starts nothing, a string or a comment that does not end. |
| Layout.RenderedReadBack | src/lexer.c:331-414 | Any legal tokens, with one space behind each, are such a layout and are read back. |
| FrontEnd.SourceReadBack | src/parser.c:107-127 | Lexing and parsing the text of any legal program gives the program. |
| SourceImage.LexedFromText | src/lexer.c:174-271 | Every name the lexer yields is an identifier and no keyword, and no string contains both kinds of quotes. |
| SourceImage.StmtsLegal | src/parser.c:403-444 | What is parsed from such tokens has such names and strings only. |
| SourceImage.ProgramsWithText | src/parser.c:107-127 | There is a source text that is read as a program if and only if the program is legal. |
| SourceTexts.TextsOfPrograms | src/parser.c:107-127 | A source text is read as a program if and only if it is a layout of the tokens of one of the program's forms. |
| SourceTexts.RefusedTexts | src/parser.c:73-105 | A text that the scanner accepts and the parser does not is refused for a token such that the tokens in front of it begin some program; no assertion of the parser fails. |
| FrontEnd.ReadSource | src/parser.c:52-60 | The two objects one after the other compute that. |
| FrontEnd.NeverOutOfTokens | src/parser.c:73-77 | After any successful scan the parser never asks for a token behind the end. |
| Bytecode.NumberReadBack | src/bytecode.c:89-94 | A number that fits its width is read back from its little-endian bytes. |
| Bytecode.BytesReadBack | src/bytecode.c:118-124 | Bytes are written back from the number read, which fits their width. |
| Bytecode.Code.FromFile | src/bytecode.c:36-58 | The loop over the first line strips a shebang line and nothing else. |
| Bytecode.ShebangInvisible | src/bytecode.c:42-54 | A shebang line ending in one line break leaves the program; after CR LF the LF stays, which is no opcode; a program without one is untouched. |
| Bytecode.Code.CheckRealloc | src/bytecode.c:60-67 | Growing keeps the contents and makes room for one byte. |
| Bytecode.Code.PushByte | src/bytecode.c:69-73 | A byte is appended to unchanged contents. |
| Bytecode.Code.PushQword | src/bytecode.c:89-94 | Eight little-endian bytes are appended, if they fit the room that was made for one; earlier bytes never change. |
| Bytecode.Code.GetByte | src/bytecode.c:96-100 | The byte at an address inside the contents, and the assertion otherwise. |
| Bytecode.Code.GetQword | src/bytecode.c:118-124 | The eight bytes at an address as a number, and the assertion when they do not lie inside. |
| Bytecode.Code.EmitMov | src/bytecode.c:69-94 | The pushes of a move write its encoding, if the immediate fits. |
| Bytecode.Code.Emit | src/bytecode.c:69-94 | Pushing a program's instructions writes its encoding after the earlier contents, if every push fits. |
| Bytecode.EmitsExactlyWhenPlaced | src/bytecode.c:60-94 | Every push of a program fits if and only if no move starts at an offset of 1 to 7 modulo 20. |
| Disassembler.DisassembleOperand | src/disassemble.c:13-45 | An operand is shown as the register or the number at its address. |
| Disassembler.DisassembleOperands | src/disassemble.c:83-107 | The operands are those the tables announce, and counting their sizes down ends on the last byte of the instruction. |
| Disassembler.Disassemble | src/disassemble.c:47-111 | The linear sweep gives the specified lines, and stops where an assertion fails. |
| Disassembler.LookReads | src/opcode.c:88-106 | Each encoded instruction is shown with its own opcode and operands. |
| Disassembler.SweepReadsBack | src/disassemble.c:47-111 | Disassembling an encoded program shows its instructions, each at its offset. |
| Disassembler.WellFormedCodes | src/disassemble.c:47-111 | The sweep reaches the end if and only if the bytes encode a program, and then it lists that program. |
| Disassembler.OperandsInOrder | src/disassemble.c:83-107 | A line shows the operands of its opcode in the order of their bytes, an immediate with its lowest byte first. |
| Disassembler.BrokenListing | src/disassemble.c:47-111 | A listing that breaks off lists the program that the bytes before encode and stops where no instruction can start, for the reason given. |
| Disassembler.EncodingInjective | src/opcode.c:28-38 | Different programs have different codes. |
| VirtualMachine.StackIsAList | src/stack.c:21-43 | The byte stack is a list: pop undoes push through any growth, and fails exactly when it is empty; a full stack grows by 50 cells, and no other cell changes. |
| VirtualMachine.WindowShows | src/opcode.c:210-223 | A stack dump shows nothing but cells on the stack and the ten lowest, so never a cell that growth added and nothing wrote. |
| VirtualMachine.StepIsEffect | src/opcode.c:114-195 | A step on encoded code is the meaning of the instruction, as long as %is marks the start (for moves). |
| VirtualMachine.MovReads | src/opcode.c:172-182 | A move loads the immediate of whichever move %is leads to. |
| VirtualMachine.ImmediateShown | src/opcode.c:179-179 | A move reads its own immediate if and only if %is marks the start of the code. |
| VirtualMachine.MovAfterIs | src/opcode.c:172-182 | A program that moves %is up by ten loads the first immediate where the second is shown. |
| VirtualMachine.ExecIsFoldIn | src/bytecode.c:132-179 | From any point of any encoded program on, the loop is the fold of the remaining instructions, where a move loads what %is leads to in the code. |
| VirtualMachine.ExecIsFold | src/bytecode.c:132-179 | From any point of an encoded program on, the loop is the fold of the remaining instructions, with 999 rounds less those done, while moves find %is at the start. |
| VirtualMachine.RunningAnyProgram | src/bytecode.c:132-179 | Executing any encoded program is going through its instructions inside its code up to the first that stops, at most 999. |
| VirtualMachine.AnchoredFold | src/opcode.c:172-182 | Where every move that is executed finds %is at the start of the code, the code adds nothing to the instructions. |
| VirtualMachine.RunningAProgram | src/bytecode.c:132-179 | Executing an encoded program is going through its instructions up to the first that stops, at most 999, if every move executed finds %is at the start of the code; a program without a move after a write to %is always does. |
| VirtualMachine.AnchoredByOrder | src/opcode.c:172-182 | A program that loads no immediate after writing %is keeps every executed move anchored. |
| VirtualMachine.ListingExplainsRun | src/blazevm.c:18-35 | Any code that disassembles to its end runs as the listed instructions do inside it, and as the listing alone says if every move that is executed finds %is at the start. |
| VirtualMachine.StepAdvances | src/opcode.c:77-86 | Each step that goes on advances by the table's size whatever the registers hold and whatever is written to %ip. |
| VirtualMachine.BoundariesAgree | src/bytecode.c:139-177 | For any bytes and registers the executor fetches opcodes at the first of the disassembler's offsets, in order and without a gap. |
| VirtualMachine.HaltsExactlyWhen | src/bytecode.c:139-177 | A program halts normally if and only if a halt comes within the rounds left, no pop before it finds the stack empty, and every system call before it has a number up to 3 and, when it prints, a kind up to 3. |
| VirtualMachine.MachineHaltsExactlyWhen | src/bytecode.c:132-179 | The same of the machine on an encoded program in which every move that is executed finds %is at the start, wherever it is loaded. |
| VirtualMachine.HaltingIsStatic | src/bytecode.c:139-177 | Without system calls halting can be read off the program: a halt in time and every pop covered by a push. |
| VirtualMachine.ExhaustedOnlyByLength | src/bytecode.c:143-149 | The loop counter ends only runs of programs with that many instructions and no earlier halt, and every run ends. |
| MachineRuns.RunsShow | src/opcode.c:197-280 | Over a run of any code from any state: the exit code is the low byte of %r1 at the last system call with %r0 = 0, or the initial one, and the events are one per dump or system call with %r0 in 1 to 3, in order, with registers, stack or value as they were. |
| MachineRuns.FileShows | src/blazevm.c:12-36 | The same of a file that is loaded and run, from code 0 and no events. |
| MachineRuns.RunsEnd | src/bytecode.c:139-179 | A run halts exactly in a round that executes opcode 1 or when %ip is 0, and is cut off exactly after 999 rounds of which the last would have gone on. |
| MachineRuns.InstructionsDo | src/opcode.c:150-195 | What each instruction does to registers and stack, stated on the list of live cells; nothing else changes besides %ip. |
| MachineRuns.InstructionBytes | src/opcode.c:28-86 | The bytes of each instruction: its number, its registers, and an immediate of eight bytes, the lowest first. |
| MachineRuns.FaultsSay | src/opcode.c:114-148 | A round that fails changes nothing and names what it failed at. |
| Processors.StackBuffer.CheckRealloc | src/stack.c:21-28 | Growing by 50 keeps every cell and the index. |
| Processors.StackBuffer.PushByte | src/stack.c:30-35 | Pushing writes the cell above the top of the stack. |
| Processors.StackBuffer.PopByte | src/stack.c:37-43 | Popping returns the top, or fails on an empty stack. |
| Processors.Processor.PushRB | src/opcode.c:150-159 | The handler pushes the low byte of a valid register and returns the next address. |
| Processors.Processor.PopRB | src/opcode.c:161-170 | The handler pops into a valid register. |
| Processors.Processor.MovIR | src/opcode.c:172-182 | The handler loads the immediate found relative to %is. |
| Processors.Processor.AddRR | src/opcode.c:184-195 | The handler adds modulo 2 to the 64, checking both registers first. |
| Processors.Processor.StackDump | src/opcode.c:210-223 | The loop shows the ten cells at the bottom or below the top. |
| Processors.Processor.SystemCalled | src/opcode.c:225-280 | The four system calls, and the errors for other numbers and value kinds. |
| Processors.Processor.InstructionExec | src/opcode.c:114-127 | The handler the table selects, no handler, or the error for an unknown opcode. |
| Processors.Processor.Round | src/bytecode.c:161-176 | A returned pointer replaces %ip, a null one increments it, an error ends the run. |
| Processors.Processor.Run | src/bytecode.c:132-179 | The loop returns what the step-by-step meaning returns and leaves its state. |
| Processors.ProcessFile | src/blazevm.c:12-36 | A file is stripped, listed, and run only if the listing did not break off. |
| Processors.ScriptRuns | src/blazevm.c:12-36 | A program behind a shebang line is listed as that program and run as its instructions do inside its code, at any address; and as they say alone if every move that is executed finds %is at the start. |
| SlotAllocator.ValueTable.constructor | src/valalloc.c:13-23 | An empty table of capacity 4096. |
| SlotAllocator.ValueTable.Resize | src/valalloc.c:25-35 | The capacity doubles exactly when one slot is left; no slot changes. |
| SlotAllocator.ValueTable.Allocate | src/valalloc.c:37-54 | The last released slot is handed out, or a new one, which is marked as freeable; other slots keep their mark. |
| SlotAllocator.ValueTable.Free | src/valalloc.c:64-78 | The slot becomes the first of the free list and is marked not to be freed again. |
| SlotAllocator.AllocKeeps | src/valalloc.c:37-54 | Allocating hands out a slot no client holds and keeps the table sound. |
| SlotAllocator.FreeKeepsExactlyWhenHeld | src/valalloc.c:64-78 | Releasing keeps the table sound if and only if the slot is held. |
| SlotAllocator.EveryRun | src/valalloc.c:37-78 | Over any run, free slots stay distinct, in range and apart from held ones, held plus free is size, size is below capacity and is the most ever held at once, throughout, if and only if only held slots are released. |
| SlotAllocator.AllocUndoesRelease | src/valalloc.c:39-47 | Allocating right after a release returns that slot and restores the table. |
| SlotAllocator.LastReleasedFirst | src/valalloc.c:39-47 | Slots released in a row come back in opposite order, and the table is as before. |
| Decimal.ValueOfUnsigned | src/parser.c:749-766 | The digits printed for a number read as that number. |

## Left out

- Agreement.CompilerCorrect: says nothing of a process that finds other addresses of the file on its stack than its entry; `Crashed` stands for whatever a run does that the model does not define.
- VirtualMachine.RunningAProgram: is about moves that find `%is` at the start; RunningAnyProgram covers the others.
- Interpreter.EvaluateExpr: array literals end in the outcome Unsupported.
- Interpreter.Execute: function declarations end in the outcome Unsupported; they only parse.
- Interpreter.Interpret: says of programs with these constructs only that they run alike up to there.
- Interpreter.EvaluateCall: calls of user functions and closures are left out, and the built-ins read, vector and array_filter end in the outcome Unmodelled; a pointer that dangles or points to no function is the error Undefined.
- Interpreter.ExecuteIterations: loops over `true` carry an iteration bound, which FuelSuffices shows is no part of the meaning.
- Bytecode.Code.PushQword: writing past the buffer is an explicit refusal, not a memory effect; pushing and getting of words and double words, which nothing calls, is left out.
- VirtualMachine.BoundariesAgree: the code is loaded where neither its start nor ten bytes past its end wrap around; reads outside the code are the explicit fault OutsideProgram.
- Lexer.PiecesTile: is about accepted texts; Layout.RejectedTexts covers the others, where an unterminated block comment is the assertion failure NoCharacter.
- ParserErrors.ErrorsAreFirst: is one way; a token can be refused although it could stand there, because of the one behind it (RefusedForTheNext).
- Floating-point results of division keep their two operands instead of a rounded number.
- Signed overflow, and comparing a string with a float or a function, whose text is the null pointer, are explicit errors; C leaves them undefined.
- Ownership of strings, freeing of values by scopes, and `valmap_free` are not modelled; values are immutable.
- Positions are proved for tokens; syntax trees carry none.
- x86-64 registers and addresses are unbounded integers and symbols, flags, stack alignment and the `%al` of variadic calls are not modelled, and library calls keep callee-saved registers and may change all others.
- The assembler is modelled from the GNU as rules for string escapes; printing the tree as assembly text is modelled up to the list of its lines.
- The cells a stack growth adds are zero here; the source leaves them uninitialised, and no dump shows them before they are written.
- The text printed for dumps, errors and listings, file handling and the command lines are left out; output is a trace of characters or events.
- `src/map.c`, `src/vector.c`, `lib/http.c` and the deep copy of trees are left out; they would add easy members or have no law to state.
