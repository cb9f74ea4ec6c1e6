# A verified model of Clever's compiler, virtual machine and value heap

Clever compiles a resolved syntax tree to register code with backpatched jumps and runs it on a virtual
machine with environments, a call stack, a try stack and reference-counted, copy-on-write values. This
project models that pipeline and several self-contained modules, and proves the properties they exist for.

**The compiler.** `Ast` is the resolved tree, `Semantics` its meaning: a fuelled evaluator that knows no
code addresses, temporaries or call stack. An operand that is a bare variable is read when the operator
executes, not when it is visited (`a + (a = 5)` sees 5 twice), an augmented assignment yields the variable
itself, and null and `false` are the only falsy values. `Operators` gives the laws that fix what operators
compute, and `Decisions` what branches, loops, calls and assignments to constants depend on, for the evaluator
and the machine. `Machine` is one step of the run loop on a value state, with the operand structure of the
source (patching writes one field of it). `Layout` says what the generated code is once all jumps have their
targets. `Codegen` is the generator itself: a builder object and visitors that push instructions, patch earlier
ones and keep the three stacks of pending jumps; every visitor is proved to produce exactly the `Layout` code
and to leave the stacks at their old depth (`Backpatch`, `Emission` and `Progress` hold the reasoning). `Vm` is
the run loop as an object whose opcode methods update its fields, each proved equal to the machine's step.

The main theorem has two parts. `Compiler.CompilerCorrect` says that the compiled program, run from its first
instruction, does what the evaluator says, for every program, every initial store and every amount of fuel:
it halts, ends with the same uncaught exception, or stops with a fatal error, each time with the evaluator's
variables. When the evaluator runs out of fuel the machine is still running after that many steps, so termination
agrees too (`Compiler.CompilerTermination`). `Vm.CompileAndRun` chains the imperative generator and the
imperative machine.
The simulation (`Simulation`, `ExpressionProof`, `StatementProof`, `Correctness`) is by induction on fuel and
syntax, through nested and recursive calls, loops with `break` and `continue`, switches with fall-through
and try statements with any number of catch clauses. `Context` shows that a run neither reads nor writes frames
below its own or temporaries it did not have, which gives every fragment an upper bound on the temporaries it
touches. `Jumps` bounds every jump, `Isolation` says which environments code can change and `Footprint` which
cells, `Folding` composes constant folding with the compiler. `Exceptions` says which handler gets a throw, in
which frame it runs and when the finally block does, and `Findings` states exactly when a few other behaviours
hold that a reader would expect always; `Samples` and `CleanCode` serve them. What is shown of single programs is
shown of the compiled program on the machine.

**Names and values.** `Scopes` and `Environments` are the objects of name resolution and activation, and
`Addressing` carries resolved addresses over to run time: every environment of a running store is an instance
of a static one, calls and writes keep that so, and an address leads to the cell of its own declaration.
`Sharing` is the reference-counted heap, and
`SharedStore` proves that lookup, writes and calls on environments of shared cells are the operations of the
store of independent values that the compiler theorems are about. **Modules.** `Md5`, `Base64`, `Strings`
(split, escapes), `Events`.

Where the code and what one expects of it differ, the model follows the code:

- an exception thrown by a catch block skips the finally block, and one thrown by a finally block after a
  normal body is caught by the statement's own catch block, after which the finally block runs again;
- when a try statement has several catch clauses, an exception runs all of them one after the other, with only
  the variable of the first one bound;
- a throw does not always reach the nearest try statement whose body is active: one that leaves a catch block
  does so if and only if it was not itself thrown by another catch block inside, a called function's included;
  otherwise it goes back to the catch block that it is leaving, which runs again;
- the handler of an exception runs in the frame of the thrower: an exception that leaves a call made in the try
  body is bound to a variable of the callee, and the call stack is not unwound. What a handler does in a frame
  that is not its statement's is outside the fragment; which entry it is, and where it starts, is proved whenever
  the guarded part has a meaning;
- a break, continue or return out of a try body leaves the statement's entry on the try stack, armed;
- the conditional assignment for parameter defaults tests truthiness, and jumps a fixed two instructions even
  where the default emits code, so that the second assignment then runs with a temporary never written;
- `or` with two falsy operands, mixes such as `1 == true`, and a call of a function that returns nothing
  leave their temporary unwritten; using it is outside the fragment;
- the exception of the remainder operator on a wrong type says "Cannot use operator", because the formatter
  takes its sign for a directive;
- patching a loop's `break` list also patches the loop's own first instruction, whose first operand is never
  a jump target;
- MD5's `update` takes the length modulo 2^32 and reads past its input when the loop's 32-bit index wraps;
  `split` searches for the delimiter up to its first NUL but skips all of it.

"Outside the fragment" is the evaluator's outcome `Stuck` and the machine's status `Wild`.

## Model

| member | source | states |
|---|---|---|
| Compiler.CompilerCorrect | core/compiler.cc:82-110 | For every compilable program, store and fuel: running the generated code halts, ends with an uncaught exception or stops with a fatal error exactly as the evaluator does, each time with the evaluator's variables; it still runs when the evaluator needs more fuel |
| Compiler.CompilerTermination | core/vm.cc:379-386 | A compiled program inside the fragment stops if and only if its source terminates |
| Compiler.Compile | core/compiler.cc:103-112 | Generating code and a final OP_HALT yields exactly the program the theorems are about, functions linked to their addresses |
| Compiler.FunsPlaced | core/codegen.cc:180-230 | Every declared function, nested ones included, has its body's code at the address recorded for it and the number of temporaries its body uses |
| Vm.CompileAndRun | core/vm.cc:379-386 | Whenever the evaluator ends a program, normally, by an exception or by a fatal error, the imperative generator and run loop end it the same way with the same variables |
| Correctness.ProgramCorrect | core/vm.cc:379-629 | The same for any loaded program, not only the compiler's own output |
| Correctness.TerminationAgrees | core/vm.cc:379-386 | The machine stops on a loaded program if and only if the evaluator finishes with some fuel |
| Correctness.ExpressionCorrect | core/codegen.cc:409-584 | A compiled expression arrives right after its code with the evaluator's value in its operand; call stack, try stack, argument vector and all temporaries but those allocated for it are intact, for a call after its RET or LEAVE; exceptions and fatal errors leave the evaluator's variables |
| Correctness.StatementCorrect | core/codegen.cc:245-295 | A compiled statement arrives at its end or at the target of break or continue, stops at a return, leaves its exception pending in its own frame or in a deeper one, also out of a handler and then with the handler's entry still on the try stack, or fails, each time with the evaluator's variables and no temporary touched but its own |
| Correctness.InContext | core/vm.cc:379-386 | A fragment's run with only its own temporaries and no callers is its run in every frame that has more of them, on every call stack, and changes nothing of those |
| Context.EmbedSteps | core/vm.cc:379-386 | Any number of machine steps does the same below any frames and with any further temporaries, which it neither reads nor writes |
| ExpressionProof.SimShort | core/vm.cc:599-636 | Short-circuit operators evaluate the second operand exactly when the first does not decide, and write the result both ways |
| ExpressionProof.SimSends | core/codegen.cc:31-44 | After all arguments are evaluated, the argument vector holds exactly this call's arguments in order |
| ExpressionProof.SimInvoke | core/vm.cc:472-511 | A call runs the body in a fresh activation and comes back to the instruction after it, with the result in the result temporary and the call stack restored |
| ExpressionProof.SimCall | core/codegen.cc:156-178 | Calls with nested calls as callee or arguments bind their own evaluated arguments; the argument vector is empty before and after |
| StatementProof.SimLoop | core/codegen.cc:379-407 | While and for loops with break and continue simulate the evaluator from any iteration |
| StatementProof.LoopInert | core/codegen.cc:264-294 | Code whose loop start was patched by the break list still is the loop's code for every step of the machine |
| StatementProof.SimSwitch | core/codegen.cc:747-825 | First equal label, else the default in any position, fall-through in source order, break to the end |
| StatementProof.SimTry | core/codegen.cc:658-687 | A throw in the body reaches the catch block with the value bound, one in the finally block after a completed body too; an exception out of the handler, thrown there or in a function called from it, is pending above the statement's own entry, or comes back to the handler when it is dirty; the try stack at the end is the one at the start |
| StatementProof.SimClauses | core/codegen.cc:670-677 | All catch clauses run one after the other in phase 2, the later OP_CATCHs without effect |
| StatementProof.CatchSteps | core/vm.cc:911-932 | Two steps after a pending exception the handler of the innermost try with an active body runs, in phase 2, whatever an inner handler left on the try stack; a handler that is running gets an inner handler's exception back in the same way |
| Machine.InertPatch | core/codegen.cc:396-401 | Patching the address of an operand that is not a jump target never changes what the instruction does |
| Operators.IntOrder | modules/std/core/int.cc:74-126 | On integers `<` is a strict total order in which `++` leads to the next number, and each of the other five comparisons is what `<` and equality make it |
| Operators.Trichotomy | modules/std/core/int.cc:74-126 | Exactly one of `<`, `==` and `>` holds of two integers |
| Operators.ReachedByInc | modules/std/core/int.cc:92-96 | A number is below exactly those that repeated `++` makes of it |
| Operators.NullComparisons | core/vm.cc:320-329 | A comparison with null never fails: null equals itself alone, and nothing is below or above it |
| Operators.EqualityOnly | modules/std/core/bool.cc:13-25 | A boolean equals itself alone, is unequal to the other one, and beside another type leaves the result unwritten; a function is equal to itself alone and unequal to everything else |
| Operators.IntArithmetic | modules/std/core/int.cc:17-72 | On two numbers an operator writes a number, except for a zero divisor or a shift by less than 0 or more than 63 |
| Operators.Addition | modules/std/core/int.cc:17-40 | Adding one is `++`; addition is associative and commutative with 0, and subtraction is its inverse |
| Operators.Multiplication | modules/std/core/int.cc:42-50 | Commutative, with 0 and 1, and distributes over addition |
| Operators.Division | modules/std/core/int.cc:52-72 | Quotient times divisor plus remainder is the dividend; the remainder is smaller than the divisor and has the sign of the dividend |
| Operators.DivisionUnique | modules/std/core/int.cc:52-72 | No other pair of numbers does that |
| Operators.Connectives | modules/std/core/int.cc:134-162 | The bitwise and, or and exclusive or combine each bit of a two's complement number of any size with the same bit of the other |
| Operators.ComplementBits | modules/std/core/int.cc:164-168 | `~` turns every bit around |
| Operators.ShiftLeft | modules/std/core/int.cc:170-178 | The bits move up by the shift and zeros follow |
| Operators.ShiftRight | modules/std/core/int.cc:180-188 | The bits move down by the shift and the sign is kept |
| Operators.BitsDetermine | modules/std/core/int.cc:134-188 | A number is determined by its bits, so the four laws before say all there is to say |
| Operators.Operands | core/vm.cc:284-342 | An arithmetic operator or comparison is applied to its operands in their order, the left one evaluated first |
| Operators.AugmentedValue | core/vm.cc:284-312 | `x op= e` combines the value that x has after e was evaluated with the value of e, and stores it in x |
| Operators.StepsInverse | core/vm.cc:531-597 | `--` undoes `++` and the other way round, in the pre and the post forms |
| Operators.PreAndPost | core/vm.cc:531-597 | `++` adds one to its variable and `--` takes one away; the pre forms yield the variable's new value, the post forms its old one |
| Operators.WrongOperands | core/vm.cc:284-312 | An operator on null is a fatal error whatever the other operand is, one on a boolean or a function an exception, and a number beside those leaves the result unwritten |
| Operators.FormattedText | core/clever.cc:76-135 | The exception's text is what the formatter makes of the message, the sign of the remainder dropped |
| Operators.ArithmeticTexts | core/type.cc:176-291 | Which operator each message of an arithmetic or bitwise operator names |
| Operators.OtherTexts | core/type.cc:206-303 | Which operator each message of a comparison and of `++` and `--` names |
| Decisions.OnlyFalsy | core/value.h:141 | The falsy values are null and false, and no others |
| Decisions.BranchSkipped | core/codegen.cc:586-623 | A branch is skipped if and only if its condition is null or false |
| Decisions.LoopEnds | core/codegen.cc:379-407 | A loop ends before its body if and only if its condition is null or false |
| Decisions.FirstDecides | core/codegen.cc:525-584 | The two conjunctions end with a first operand that is null or false, the two disjunctions with any other, and what each then yields |
| Decisions.SecondDecides | core/codegen.cc:525-584 | Otherwise the second operand decides, and what each form then yields or leaves unwritten |
| Decisions.BranchJumps | core/vm.cc:515-529 | OP_JMPZ jumps if and only if its operand is null or false, OP_JMPNZ if and only if it is neither, and the result is the truth value |
| Decisions.ShortJumps | core/vm.cc:615-636 | OP_AND jumps with null if and only if its operand is null or false, OP_OR with the operand if and only if it is neither |
| Decisions.CallFails | core/vm.cc:223-228 | A call fails if and only if it has fewer arguments than required, or more than the parameters of a function that is not variadic; with a right number it is the body that decides |
| Decisions.CallStops | core/vm.cc:223-228 | The same of OP_FCALL |
| Decisions.NoFunction | core/vm.cc:478-481 | Calling anything but a function is a fatal error |
| Decisions.ConstantKept | core/value.h:149 | An assignment is a fatal error if and only if the variable is constant and not null; otherwise it changes that variable alone |
| Decisions.AssignStops | core/vm.cc:430-449 | The same of OP_ASSIGN |
| Decisions.OnceAssigned | core/value.h:143-149 | A constant takes one value that is not null, and every later assignment fails |
| Codegen.Generator.VisitStmt | core/codegen.cc:76-83 | Every statement visitor emits exactly the final code up to pending breaks and continues, records those, and leaves all three stacks at their depth |
| Codegen.Generator.VisitExpr | core/codegen.cc:46-64 | Every expression visitor emits the final code, allocates its temporaries in order and returns the operand of the result |
| Codegen.Generator.VisitShort | core/codegen.cc:525-584 | Both tests are patched to jump to the end |
| Codegen.Generator.SendArgs | core/codegen.cc:31-44 | All arguments are evaluated before the first is sent |
| Codegen.Generator.VisitIf | core/codegen.cc:586-623 | Exits of all branches are recorded and patched to the end |
| Codegen.Generator.VisitWhile | core/codegen.cc:379-407 | Breaks go behind the back jump, continues to the condition |
| Codegen.Generator.VisitFor | core/codegen.cc:245-295 | Continues go to the update, breaks to the end |
| Codegen.Generator.VisitSwitch | core/codegen.cc:747-825 | Incremental filling of jumps, the default patched into the last test, a lone default inlined |
| Codegen.Generator.VisitTry | core/codegen.cc:658-687 | Handler and finally addresses are patched into the entry and the jump around the handlers |
| Codegen.Generator.VisitCatches | core/codegen.cc:670-677 | Each further catch clause is an OP_CATCH, its block, and the clause's variable filled in afterwards |
| Codegen.Generator.VisitFunDecl | core/codegen.cc:180-230 | The body is stepped over, has temporaries of its own, and its address is recorded; the outer temporaries come back |
| Codegen.IRBuilder.PatchAll | core/codegen.cc:288-293 | Exactly the recorded instructions get the address |
| Backpatch.BreakSites | core/codegen.cc:704-708 | Code with one break target, patched at the recorded sites, is the code with another |
| Backpatch.ContinueSites | core/codegen.cc:698-702 | The same for continue |
| Backpatch.LoopPatched | core/codegen.cc:288-294 | Patching a loop's recorded list gives the loop's final code, its start changed only in the address field |
| Backpatch.ExitsAimed | core/codegen.cc:617-622 | Branch exits left open and patched at the end are branch exits generated with their target |
| Backpatch.DefaultPatched | core/codegen.cc:808-813 | Redirecting only the last test turns code that ignores the default into code that knows it |
| Backpatch.BreakSitesK | core/codegen.cc:815-822 | Breaks in all case bodies are patched to the end of the switch |
| Jumps.JumpsClosed | core/codegen.cc:264-294 | Every jump a fragment emits targets the fragment or its end, or is one of its recorded breaks and continues |
| Jumps.ProgramJumpsClosed | core/codegen.cc:180-230 | No jump of a program leaves it |
| Vm.VirtualMachine.Run | core/vm.cc:379-386 | The run loop reaches the state of iterated machine steps, for any number after which the machine has stopped |
| Vm.VirtualMachine.Find | core/environment.cc:46-69 | The outward walk finds the cell an offset denotes |
| Vm.VirtualMachine.OpCall | core/vm.cc:472-500 | A user call stops with a fatal error if and only if it has too few arguments, or too many for a function that is not variadic; otherwise it activates the blueprint, binds parameters and empties the argument vector, as the machine's call step |
| Vm.VirtualMachine.BindParameters | core/vm.cc:177-211 | Arguments go to the first cells in order, the surplus to the variadic array, other cells keep the blueprint's contents |
| Vm.VirtualMachine.OpReturn | core/vm.cc:388-428 | Return pops one frame and stores into the caller's result temporary; at top level it stops the machine |
| Vm.VirtualMachine.ThrowException | core/vm.cc:915-930 | The exception goes to the innermost entry in phase 1 below at most one in phase 2, or stops the machine |
| Isolation.CallKeeps | core/environment.cc:29-44 | A call, however it ends, changes no environment outside what functions reach through outer links, at any recursion depth |
| Isolation.ExecIsolated | core/vm.cc:111-133 | Running a statement, however it ends, keeps every cell outside its own chain and the functions' chains; slots, constness and outer links of all environments never change, and every new environment is an instance of a function's |
| Isolation.CallerUntouched | core/vm.cc:472-511 | The caller's own activation is the same cell for cell after any call, one left by an exception included |
| Isolation.ActivationFresh | core/environment.cc:13-44 | A fresh activation has the blueprint's shape and outer link, nobody links to it, and it differs from the blueprint exactly in the bound parameters |
| Footprint.FootE | core/vm.cc:430-449 | A call-free expression changes exactly no cell but those of the variables it assigns, and adds no environment |
| Footprint.FootS | core/vm.cc:430-449 | The same for call-free statements, which moreover never end by an exception out of a call |
| Scopes.Resolver.Resolve | core/resolver.cc:209-226 | An identifier resolves to an in-bounds address of the slot made for the innermost visible declaration, or to an error if and only if there is none |
| Scopes.Resolver.Lookup | core/scope.h:70-72 | Fetching a resolved name yields the value its innermost declaration was made with |
| Scopes.Resolver.EnterFunction | core/resolver.cc:158-164 | A function scope gets an empty environment inside the enclosing one; the environment stack matches the scope chain |
| Scopes.Resolver.EnterBlock | core/resolver.cc:33-51 | A block scope shares the environment of the enclosing one |
| Scopes.Resolver.Leave | core/resolver.cc:204-207 | Leaving restores scope and environment stack |
| Scopes.Resolver.Declare | core/resolver.cc:53-63 | A name can be declared if and only if the scope does not have it |
| Scopes.Scope.GetAny | core/scope.cc:46-67 | The search from the inside out finds the innermost declaration |
| Scopes.Scope.GetOffset | core/scope.cc:69-98 | Counting environment changes gives the number of outer links to the symbol's environment |
| Scopes.Scope.PushValue | core/scope.h:59-68 | A declaration appends symbol, table entry and slot; the scope tree stays right if and only if the name is new in the scope |
| Scopes.PushKeepsTable | core/scope.h:59-68 | The symbol table stays right after a declaration if and only if the name is new in the scope |
| Scopes.RedeclarationMisleads | core/scope.h:59-68 | After a redeclaration the next name is looked up as the redeclared symbol |
| Scopes.DifferentSlots | core/scope.cc:69-98 | Different declarations never share a slot |
| Addressing.LoadedMirrors | core/environment.h:32-36 | When a program is loaded its store consists of the resolver's own environments |
| Addressing.WriteMirrors | core/vm.cc:430-449 | A write keeps every environment the instance of a static one that it was |
| Addressing.ActivateMirrors | core/environment.cc:13-44 | An activation is an instance of the called function's own environment |
| Addressing.AddressMirrors | core/environment.cc:46-69 | An address that leads to a symbol's slot statically leads, from every instance, to that slot in an instance of the symbol's environment |
| Addressing.CallAddress | core/vm.cc:213-234 | Identifiers of a function's body find their declarations in every activation |
| Addressing.ExecMirrors | core/vm.cc:379-629 | Executing any statement keeps the store a mirror of the static environments |
| Addressing.AddressAfterExec | core/environment.cc:46-69 | After any execution every resolved address still denotes the cell of its own declaration |
| Addressing.ResolveAt | core/resolver.cc:209-226 | The resolver's answer denotes at run time the cell of the innermost visible declaration, or is an error if and only if there is none |
| Environments.Environment.GetValue | core/environment.cc:46-69 | The walk with a decreasing depth returns the slot that many outer links away, or fails where the assertions do |
| Environments.Environment.Activate | core/environment.cc:13-44 | The clone has new, distinct cells with the contents of all slots and temporaries, and the given or the blueprint's outer environment; nothing else changes |
| Environments.WriteAfterActivation | core/environment.cc:29-44 | A write of any kind to a slot or temporary of one activation shows in that cell alone, neither in the blueprint nor in another activation, although all share objects |
| Sharing.Value.Copy | core/value.h:124-132 | Only the target's observed value changes, all counts stay exact, and no cell dangles; copying onto itself is safe when the object is shared or absent |
| Sharing.Value.StartCopyOntoSelf | core/value.h:124-132 | Otherwise copying onto itself leaves the cell at a deleted object |
| Sharing.Value.DeepCopy | core/value.cc:15-39 | In-place update, clone or sharing: in each case only the target's observed value changes, and afterwards the two share an object if and only if it has no clone or they shared one before |
| Sharing.Value.SetSimple | core/value.cc:41-48 | The object is updated in place if and only if it is not shared and has the type of the new value; either way only this cell's observed value changes |
| Sharing.Value.Clone | core/value.h:134-140 | A clone is a new cell with the same contents and constness |
| Sharing.Value.Destroy | core/value.h:69-71 | Destroying a cell changes no other cell's value |
| Sharing.PerformAll | core/value.h:82-140 | Any sequence of operations shows what it would on independent values; every count equals the number of cells at the object, and an object is deleted exactly when it has none |
| Sharing.Object.DelRef | core/refcounted.h:46-67 | The object is deleted exactly when the count reaches zero |
| SharedStore.SharedHeap.Find | core/environment.cc:46-69 | On shared cells, a variable's cell is the one the machine's store locates, and shows its contents |
| SharedStore.SharedHeap.SetVariable | core/vm.cc:430-449 | Assigning, storing a result or binding an exception on shared cells is the write of the machine's store of independent values |
| SharedStore.SharedHeap.ActivateAndBind | core/vm.cc:177-234 | Activation, parameter binding by sharing and the array of surplus arguments together are the machine's own activation |
| Folding.FoldKeepsMeaning | core/evaluator.cc:16-74 | The folded program has the meaning of the original, from every store and with every amount of fuel |
| Folding.FoldedCompilerCorrect | core/compiler.cc:88-91 | Folding before code generation: the folded program's code agrees with the meaning of the original program |
| Folding.FoldLiterals | core/evaluator.cc:51-74 | Two integer literals under an arithmetic operator become the literal that the operator would write at run time; under a bitwise operator they stay |
| Folding.FoldLeavesNone | core/evaluator.cc:16-74 | Nothing is left to fold where the transformation looks, and a program stays as it is if and only if there was nothing |
| Folding.FoldSmaller | core/evaluator.cc:51-74 | Folding adds no instructions and no temporaries, and keeps jumps and declarations |
| Folding.NodeArray.Transform | core/evaluator.cc:16-33 | Clearing and refilling the node list folds the program |
| Findings.ArgumentKept | core/codegen.cc:103-107 | A parameter with a default keeps the passed argument if and only if it is truthy or equals the default |
| Findings.DefaultCall | core/resolver.cc:166-181 | For every literal default and every literal argument, compiled and run: the function sees the argument if and only if that is truthy or equals the default |
| Findings.FalseArgumentLost | core/codegen.cc:103-107 | A function whose parameter defaults to true, compiled and called with false, sees true |
| Findings.DefaultLands | core/codegen.cc:103-120 | With a truthy argument the jump of a default goes to the end of the assignment if and only if the default emits no code |
| Findings.DefaultOverwrites | core/codegen.cc:103-120 | A function whose default emits code, compiled and called with an argument: the function sees null |
| Findings.OrKeepsOldValue | core/vm.cc:627-636 | On the machine a completed short-circuit expression leaves its temporary as it was before if and only if it is an `or` with two falsy operands; otherwise the temporary has its value |
| Exceptions.HandlerEntry | core/vm.cc:915-930 | Whenever the guarded part of a compiled try statement throws: the exception goes to the statement's own entry, and its handler runs in the statement's own frame if and only if the exception did not leave a call; otherwise in the thrower's |
| Exceptions.CallFreeCaught | core/vm.cc:915-930 | Without a call in the body and the finally block it never does leave one |
| Exceptions.WrongFrame | core/vm.cc:915-930 | A program whose handler, compiled and run, starts in the frame of the function that threw, the exception in that function's variable and the catch variable still null |
| Exceptions.EntryAfterJump | core/codegen.cc:658-687 | When the guarded part completes or jumps, the try stack is as before if and only if it completes; after a break, continue or return the entry stays armed |
| Exceptions.HandlerLeft | core/vm.cc:915-930 | An exception leaving a catch block or the finally block after it, thrown there or in a call made there, goes to the nearest enclosing entry, or ends the program if there is none, if and only if it was not thrown by another catch block inside; otherwise it goes back to the same catch block |
| Exceptions.TryFreeLeft | core/vm.cc:915-930 | Without a try statement in the catch block, the finally block or any function it always goes to the nearest enclosing entry |
| CleanCode.CleanS | core/vm.cc:911-930 | Code without try statements, in its functions too, never leaves an entry behind with an exception |
| Exceptions.HandlerReentered | core/vm.cc:915-930 | A program that, compiled and run, re-enters the catch block it is leaving, because the function called there rethrows |
| Exceptions.AfterHandler | core/codegen.cc:658-687 | After a handler the finally block is run if and only if the handler completes; otherwise the handler's exception is pending with the variables it left, also when the finally block itself threw before |
| Exceptions.CompiledEntries | core/vm.cc:911-932 | In every run of a compiled program every entry of the try stack is a handler inside the program, in phase 1 or 2 |
| Exceptions.FinallySkipped | core/vm.cc:915-932 | A program that, compiled and run, ends without its finally block having run |
| Exceptions.FinallyReenters | core/vm.cc:915-932 | A program that, compiled and run, catches its own finally block's exception |
| Exceptions.AllClausesRun | core/codegen.cc:670-677 | A program that, compiled and run, runs both of its catch clauses, the second one's variable unbound |
| Md5.DigestOf | modules/std/crypto/md5.cc:254-333 | However a message is split into updates, the digest is the 16 bytes whose words are the state after the padded message (sections 3.1 to 3.5 of RFC 1321), exactly when no update reads past its input |
| Md5.MD5.Update | modules/std/crypto/md5.cc:254-291 | Takes the input's length modulo 2^32; count is the number of bits modulo 2^64, the state that after all complete blocks, the buffer prefix the unprocessed bytes, also after `finalize`; it fails exactly when the loop's 32-bit index wraps |
| Md5.FitsFrom | modules/std/crypto/md5.cc:276-278 | The index stays within 32 bits throughout the loop if and only if the input is shorter than a bound given by the bytes buffered before it |
| Md5.ShortChunks | modules/std/crypto/md5.cc:254-291 | Inputs of less than 2^32 - 64 bytes are taken whole and never wrap |
| Md5.MD5.Finalize | modules/std/crypto/md5.cc:303-333 | The digest shows the four words of the state after the padded message of RFC 1321, low bytes first; a second call changes nothing |
| Md5.OutputShows | modules/std/crypto/md5.cc:151-159 | The 16 bytes of a digest read back as the four state words, a to d |
| Md5.InitialBytes | modules/std/crypto/md5.cc:130-134 | The initial state has the bytes 01 23 45 67 and so on of section 3.3 of RFC 1321 |
| Md5.PaddingIs | modules/std/crypto/md5.cc:303-323 | The padding is 0x80 and then zeros, and no shorter one reaches 56 modulo 64; the length follows as two words, the low one first |
| Md5.MD5.Count | modules/std/crypto/md5.cc:259-263 | The two 32-bit words with a compared carry add modulo 2^64 |
| Md5.WordRoundTrip | modules/std/crypto/md5.cc:140-159 | Decoding undoes encoding of a word |
| Base64.Encode | modules/std/crypto/base64.h:20-55 | The encoding loop produces the encoding by groups of three |
| Base64.Decode | modules/std/crypto/base64.h:57-111 | The decoding loop, with an accumulator that is never reset, for every text: which bytes come out, where a pad ends it, and that it fails exactly for one to three characters and for left-over digits without a pad |
| Base64.Alphabet | modules/std/crypto/base64.h:17-18 | The digits are the capital letters, the small ones, the ten figures, `+` and `/`, each with its position as value; the pad character is none of them |
| Base64.PadsAtEnd | modules/std/crypto/base64.h:37-53 | The encoding has a `=` for each character that the last group lacks, at its end and nowhere else |
| Base64.TestVectors | modules/std/crypto/base64.h:20-55 | "f", "fo" and "foo" are encoded and decoded as in section 10 of RFC 4648 |
| Base64.ShiftIn | modules/std/crypto/base64.h:80-103 | The 64-bit accumulator is the number of all digits so far modulo 2^64 |
| Base64.LowBits | modules/std/crypto/base64.h:83-110 | What the accumulator loses above 64 bits changes no byte taken from it |
| Base64.AccIsQuantum | modules/std/crypto/base64.h:83-110 | Its low 24 bits are exactly the last four digits |
| Base64.DecodedQuanta | modules/std/crypto/base64.h:57-111 | A text of whole quanta is decoded quantum by quantum |
| Base64.RoundTrip | modules/std/crypto/base64.h:20-111 | Decoding undoes encoding if and only if no character with its high bit set is second or third in its group |
| Base64.SevenBitRoundTrip | modules/std/crypto/base64.h:20-111 | In particular for all 7-bit strings |
| Base64.EncodedLength | modules/std/crypto/base64.h:20-55 | Four characters per three begun |
| Strings.Split | modules/std/core/str.cc:446-487 | The splitting loop produces the pieces between leftmost matches of the delimiter up to its first NUL, at most as many splits as the maximum |
| Strings.JoinSplit | modules/std/core/str.cc:446-487 | Joining the pieces with a delimiter without NUL gives the text back |
| Strings.JoinSplitExactly | modules/std/core/str.cc:446-487 | It does so for every text if and only if the delimiter has no NUL |
| Strings.SplitCount | modules/std/core/str.cc:471-476 | At most `maximum` splits |
| Strings.SplitLeftmost | modules/std/core/str.cc:470-482 | Every piece ends at the first match after its start; the last one is free of matches unless the maximum was reached |
| Strings.NoDelimiterLeft | modules/std/core/str.cc:470-482 | With no maximum no piece contains the delimiter |
| Strings.Unescape | core/scanner.re:251-282 | The in-place rewriting loop ends and equals one pass from left to right, for both kinds of quotes |
| Strings.OnlyEscapes | core/scanner.re:261-276 | A backslash and a character are rewritten if and only if some character is escaped that way, and to that character |
| Strings.EscapeTable | core/scanner.re:261-276 | Which characters are escaped, and how |
| Strings.UnescapeUnchanged | core/scanner.re:256-277 | A text is left as it is if and only if no escape sequence starts in it; otherwise it gets shorter |
| Strings.UnescapeInverse | core/scanner.re:251-282 | It inverts escaping on every string |
| Events.Run | modules/std/events/events.cc:29-106 | In every interleaving: signals are dispatched in order, all up to the first exit exactly once by the time the handler ends; well-behaved clients never break it and queued set signals match the side queues; misuse has broken it once the queue is empty; actions are registered in the order of connection and requisitions hold the last value set |
| Events.TriggeredIs | modules/std/events/events.cc:63-93 | The actions called for a set signal are exactly those whose requisitions all have the value needed, 0 where none was set, in the order they were connected |
| Events.NarrowIs | modules/std/events/events.cc:261 | The truncation gives the only 32-bit number that agrees modulo 2^32 |
| Events.EventData.DispatchNext | modules/std/events/events.cc:36-96 | One signal: its callbacks in order; a set signal takes the oldest set call and calls the actions whose requisitions all hold |
| Events.EventData.SetRequisitions | modules/std/events/events.cc:245-281 | Updates the requisitions, truncated to 32 bits, and enqueues the signal and both side entries together |
| Events.EventData.ConnectWhen | modules/std/events/events.cc:165-186 | An action is registered once under exactly each of the requisitions it needs, truncated to 32 bits |

## Left out

- Correctness.ProgramCorrect: claims nothing where the evaluator is `Stuck`: division by zero, unwritten results, what follows a jump or return out of a try block, what a handler does in the frame of a function called from its statement (after an exception that left a call made in the body, or a dirty one that left a call made in the handler), `continue` under a switch.
- Compiler.CompilerCorrect: integers are unbounded, so the wrap-around of 64-bit arithmetic is not modelled.
- Operators.IntArithmetic: on unbounded integers, as are the other laws of operators; a zero divisor, and a shift by less than 0 or more than 63, are undefined in the source and have no meaning here.
- Vm.VirtualMachine.OpReturn: the branch that returns an anonymous function as a closure is absent, as anonymous functions are.
- Md5.MD5.Update: says nothing about the state after reading past the input; the 64-round compression is a parameter.
- Base64.Decode: the ways to fail, an exception and reads outside the text, are not told apart.
- Strings.SplitLeftmost: for delimiters without NUL, as are Strings.JoinSplit and Strings.NoDelimiterLeft.
- Environment objects are not freed in the store of the machine, so the reuse of a freed activation's memory is not modelled; argument pointers and result cells of popped frames are never used again.
- SharedStore.SharedHeap.ActivateAndBind: variables only; temporaries, which the machine keeps in frames, are cloned in `Environments.Environment.Activate`, and the elements of the surplus array are values, not cells.
- Name resolution is proved on its own objects; the compiler takes trees whose identifiers already have offsets.
- Anonymous functions and OP_BIND, classes, methods, properties, subscripts, `new`, arrays and maps beyond an opaque array of surplus arguments, doubles and string operators.
- `for (x in e)`, `do … while`, critical blocks.
- Calls into the native library, module loading, imports, namespaces, threads, texts of fatal errors, locations and stack traces.
- Mutual exclusion itself in `Events`: each critical section is one step, callbacks are recorded instead of run, and `connect`, which the source does without the mutex, is also one step.
- Reference counts of environments, functions and syntax nodes.
