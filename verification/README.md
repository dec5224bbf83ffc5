# A verification model of the L2 compiler

L2 is a small compiler written twice, in C (`bootstrap/`) and in L2 itself (`src/`). This project
models its hardest parts in Dafny and proves what they promise. Nothing here runs the compiler.

| module | models |
|---|---|
| `Fragments`, `Unification` | logic variables as cells, evaluation, copying, occurs check, destructive unification |
| `Dependencies`, `Components`, `Inference` | dependencies between expressions, grouping by them, equations and type inference group by group |
| `HashTable`, `Linking` | the chained hash table of the L2 compiler; scoping with persistent lists and with tables |
| `Escapes`, `Occurrences`, `Frames`, `Jumps` | escape and containment analysis, short-circuited jumps, frame layout, passing arguments to continuations |
| `Syntax`, `Machine`, `Generator`, `Semantics`, `Execution`, `Codegen`, `Program` | linked expressions, the 16-opcode machine, code generation and its correctness for whole programs |
| `Bytes`, `Assembler`, `Symbols`, `Object` | instruction encoding and a decoder, symbol table, relocations, loading and mutation of bindings |
| `ElfWriter` | early and redirected relocations and symbol compaction in the L2 compiler's ELF writer |
| `Reader` | the recursive-descent reader and the canonical printer |
| `Rewrites` | constraint removal, branch swapping and jump domination over an abstract machine |
| `Registers` | the register assigner of the L2 compiler with its 64-bit usage vectors |

Code that changes state in the original is modelled by classes and methods with loops (`Store`,
`Search`, `Finder`, `Checker`, `Emitter`, `Layouter`, `Analyser`, `Classifier`, `HashTable`, `ListLinker`, `TableLinker`,
`Reader`, `Writer`, `SymbolWriter`, `LoadedObject`, `LinkWriter`, `Binding`), each proved against a function whose
properties the lemmas state. `Mem` in the code generation theorem is word-granular; relocations and
encodings are at byte level.

Four places where the code differs from what one may expect, and what is proved instead:

* Early relocation in the ELF writer is right for every placement of a section exactly for
  position-independent types (`ElfWriter.EarlyIsRight`), and redirection to the .bss symbol exactly
  under the conditions of `ElfWriter.RedirectIsRight`; the preservation theorem assumes such types.
* A continuation does not depend on its body, so although `README.md:879` partitions
  all expressions, an if, an invoke or a literal that is such a body, and no root, is never grouped or typed
  (`Dependencies.BodyNotGrouped`; `Dependencies.SkippedIsNotGrouped` is an instance).
  `Dependencies.GroupedThroughParents` says exactly when it is grouped, and what stands outside
  continuation bodies always is (`Dependencies.InferExpressions`). The target of a jump depends on
  the jump, where `README.md:883` names its arguments.
* The search for a free register ends if and only if one of the low 16 bits of the usage vector is
  clear (`Registers.SearchSucceeds`; `Registers.NothingToFind` is a vector for which it does not).
  Masks with the upper 48 bits set avoid this; the call in `src/compile.l2:27` passes an empty mask
  and is safe because it places one expression (`Registers.GoodMask` covers both).
* The reader maps control characters to the same table entry, so printing does not restore them;
  `Reader.PrintThenRead` says exactly which fragments survive.

## Model

| member | source | states |
|---|---|---|
| `Unification.Store.NewVar` | bootstrap/lexer.c:220-225 | a fresh variable: the next unused number, unbound, mentioned by nothing that exists |
| `Unification.Store.Evaluate` | bootstrap/lexer.c:227-233 | following bindings keeps the resolved value and ends at something that is not a bound variable; terminates because chains are acyclic |
| `Unification.Store.RecursiveEvaluate` | bootstrap/lexer.c:235-246 | the result is the full resolution of the fragment and contains unbound variables only |
| `Unification.Store.CopyFragment` | bootstrap/lexer.c:248-273 | the copy is the fragment under an injective renaming of exactly its variables to fresh ones, shared with copies made from the same lists |
| `Unification.Store.OccursIn` | bootstrap/analysis.c:283-299 | true if and only if the variable occurs in the resolved fragment |
| `Unification.Store.UnifyVar` | bootstrap/analysis.c:301-308 | binds unless the variable occurs in the value; the solutions afterwards are exactly those of the old bindings and the equation, none on failure |
| `Unification.Store.Unify` | bootstrap/analysis.c:310-335 | on true both sides resolve alike and the solutions of the new bindings are exactly the solutions of the old ones that equate the two sides (most general unifier); on false there are none; only variables that the two sides mention get bound; terminates on (unbound variables, resolved size) |
| `Unification.Store.UnifyItems` | bootstrap/analysis.c:324-331 | the same for lists unified item by item, stopping at the first failure |
| `Unification.ResolutionIsUnique` | bootstrap/lexer.c:227-246 | acyclic bindings determine one resolved form |
| `Unification.SolutionAbsorbs` | bootstrap/analysis.c:310-335 | every solution of the bindings factors through their resolved form: it is most general |
| `Unification.LaterAbsorbsEarlier` | bootstrap/analysis.c:310-335 | resolving with later bindings factors through resolving with earlier ones |
| `Unification.OccursHasNoSolution` | bootstrap/analysis.c:283-308 | when the occurs check fails the equation has no solution at all |
| `Unification.BindKeepsRanked` | bootstrap/analysis.c:301-308 | binding a variable that does not occur in the value keeps chains of bindings acyclic |
| `Unification.NamesInjective` | bootstrap/lexer.c:248-258 | two variables of a copied signature never get the same fresh variable |
| `Components.Search.PopGroup` | bootstrap/analysis.c:269-277 | pops exactly what was pushed since the marker, marks it finished and leaves the marker's stack |
| `Components.Search.ConstructSccs` | bootstrap/analysis.c:256-281 | keeps the search invariant over any graph; expressions that depend directly on each other are closed in one group; a call does not close while anything it pushed depends on an open expression; after a call that closes its node's group the stack is what it was before |
| `Components.Search.GroupAll` | bootstrap/analysis.c:352-355 | after all roots the stack is empty, an expression newly visited is reachable from a root, every expression reachable from a root is in a group, groups are disjoint and mutually reachable (the invariant), and expressions that depend directly on each other are in one group |
| `Components.ReachableIsGrouped` | bootstrap/analysis.c:256-281 | when no expression is open, everything reachable from a visited one is in some group |
| `Components.CloseMutual` | bootstrap/analysis.c:269-278 | the members of a closed group reach one another through dependencies |
| `Components.PairedClose` | bootstrap/analysis.c:261-278 | closing a group separates no two expressions that depend directly on each other |
| `Components.PartnerJoins` | bootstrap/analysis.c:261-278 | a direct partner of a member of the closing group was pushed by the same call, so it is a member too |
| `Components.Finish` | bootstrap/analysis.c:267-281 | ending a node's visit without closing a group keeps the invariant: each open node still reaches an older open one |
| `Components.Lower` | bootstrap/analysis.c:261-266 | lowering a lowlink to a dependency's keeps the invariant |
| `Inference.Checker.ScopedSignature` | bootstrap/analysis.c:337-344 | a member of the group keeps its own signature; anything else gets a copy in which exactly its variables are replaced, different ones by different newly allocated ones |
| `Inference.Checker.GenerateEquations` | bootstrap/analysis.c:359-431 | produces exactly the equations prescribed for the expression from its scoped signatures, every copy with fresh variables of its own; PrescribedJustified and PrescribedSolvable say what these amount to |
| `Inference.PrescribedJustified` | bootstrap/analysis.c:359-431 | whatever solves the prescribed equations types the expression: function, continuation, constrain, invoke, jump, with, if and symbol |
| `Inference.PrescribedSolvable` | bootstrap/analysis.c:359-431 | the converse: whenever an assignment types the expression, some assignment that differs only at the new variables solves its equations, so they ask for nothing more |
| `Inference.PlainMeans` | bootstrap/analysis.c:359-431 | for function, continuation, with, constrain, storage, symbol and literal, solving the equations is the typing rule, in both directions |
| `Inference.Checker.SolveEquations` | bootstrap/analysis.c:432-437 | on success the bindings' solutions are exactly those of all equations so far; on failure all equations so far, the failing one included, have none; only variables that the equations are over get bound |
| `Inference.Checker.InferTypes` | bootstrap/analysis.c:357-442 | the run is a trail of stages, one a group; it succeeds only with bindings that are principal for all equations and type every member of every group, and fails only when no assignment at all types all members of the groups up to the failing one against the signatures of their stages |
| `Inference.NothingTypes` | bootstrap/analysis.c:432-437 | when the equations of a run have no solution, no assignment gives every member of the groups posed so far a type by its typing rule |
| `Inference.EverythingFits` | bootstrap/analysis.c:346-443 | when a run ends, the types that the bindings give obey the typing rule of every member of every group |
| `Inference.Checker.InferGroup` | bootstrap/analysis.c:357-438 | poses the members' equations in order and binds only new variables and variables of signatures that those equations contain uncopied |
| `Inference.Checker.FinishGroup` | bootstrap/analysis.c:439-441 | exactly the group's signatures are replaced, by their resolved forms |
| `Inference.FinallyTyped` | bootstrap/analysis.c:346-443 | at the end of a run each expression is typed, under the final resolved bindings, against the signatures that were current when its group was solved |
| `Inference.TrailSignatures` | bootstrap/analysis.c:439-441 | a signature stays initial until its group is finished and is from then on its resolved form at that point |
| `Inference.EarlierUseIsFinal` | bootstrap/analysis.c:337-344 | an expression of an earlier group is used at an instance of its final signature |
| `Inference.TrailMeaning` | bootstrap/analysis.c:357-442 | the signatures of every stage are equal to the initial ones under all solutions of the bindings |
| `Inference.CopyIsolates` | bootstrap/analysis.c:337-344 | solving an equation against a copy of a signature binds no variable of that signature unless the other side mentions it, and otherwise leaves its resolved form unchanged |
| `Inference.GroupIsolates` | bootstrap/analysis.c:357-442 | solving a whole group changes no resolved fragment that shares no variable with the signatures its equations contain uncopied |
| `Inference.InferProgram` | bootstrap/analysis.c:346-443 | component search and inference together: exactly the expressions reachable from the roots are grouped, each in one group of mutually dependent expressions and together with its direct partners; on success each of them obeys its typing rule, on failure no assignment makes all of them do so up to the failing group |
| `Dependencies.Finder.FindDependencies` | bootstrap/analysis.c:220-254 | one visit adds exactly the documented dependencies: a non-continuation on its parts, symbol and definition on each other, a constrained expression on its constraint, a jump's target on the jump |
| `Dependencies.Finder.Visit` | bootstrap/analysis.c:1-23 | visiting an expression bottom-up adds the dependencies of it and of everything inside it, continuation bodies included, and no others |
| `Dependencies.Finder.VisitEach` | bootstrap/analysis.c:354 | visiting several expressions adds the dependencies of everything inside any of them and no others |
| `Dependencies.ExposedReached` | bootstrap/analysis.c:220-254 | an expression depends on everything inside it that is not in a continuation's body |
| `Dependencies.JumpReached` | bootstrap/analysis.c:229-238 | the definition of a jump's target depends on every visited jump to it and on its arguments, wherever the jump stands |
| `Dependencies.PairedIsCoupled` | bootstrap/analysis.c:229-254 | a visited symbol shares its group with the definition it stands for, a constrained expression with its constraint, a jump's target with the jump |
| `Dependencies.GroupedThroughParents` | bootstrap/analysis.c:220-281 | an if, an invoke or a literal is grouped exactly when it is a root or a part of a grouped expression that is not a continuation |
| `Dependencies.BodyNotGrouped` | bootstrap/analysis.c:228-229 | a continuation's body that is an if, an invoke or a literal, no root and part of nothing else, never gets grouped, hence never typed |
| `Dependencies.SkippedIsNotGrouped` | bootstrap/analysis.c:346-357 | a function whose body is a continuation with an if as its body: the if is visited and is not grouped |
| `Dependencies.InferExpressions` | bootstrap/analysis.c:346-443 | from expressions to types: grouped is exactly what the roots depend on, this includes all that lies outside continuation bodies; a symbol is grouped with its definition, a constraint with what it constrains, a jump with its target; on success every grouped expression obeys its typing rule, on failure no assignment makes them do so |
| `Generator.Emitter.MakeLoad` | bootstrap/x86_64_generator.c:120-135 | appends exactly the load for the binding's storage class |
| `Generator.Emitter.MakeStore` | bootstrap/x86_64_generator.c:137-152 | appends exactly the store for the binding's storage class |
| `Generator.Emitter.MakeLoadAddress` | bootstrap/x86_64_generator.c:170-183 | appends exactly the address computation for the binding's storage class |
| `Generator.Emitter.SgenerateIfs` | bootstrap/x86_64_generator.c:156-168 | appends the code of the if with two fresh labels |
| `Generator.Emitter.ArgsInto` | bootstrap/x86_64_generator.c:185-193 | each argument in order, each stored in the next word of the buffer |
| `Generator.Emitter.StoreContinuation` | bootstrap/x86_64_generator.c:206-215 | saves the callee-saved registers, the entry address and the frame pointer in the buffer's words |
| `Generator.Emitter.GenerateBufferToDest` | bootstrap/x86_64_generator.c:239-248 | the loop copies word after word of the buffer to the destination |
| `Generator.Emitter.SgenerateContinuations` | bootstrap/x86_64_generator.c:250-262 | the continuation's code is skipped when it is evaluated and saved first when it escapes |
| `Generator.Emitter.SgenerateWiths` | bootstrap/x86_64_generator.c:264-274 | the with's body, then the entry that loads the parameter |
| `Generator.Emitter.SgenerateJumps` | bootstrap/x86_64_generator.c:276-308 | short-circuited jumps pass arguments straight to the parameters, other jumps go through the continuation's buffer |
| `Generator.Emitter.SgenerateFunctions` | bootstrap/x86_64_generator.c:322-356 | prologue, body and epilogue of a function around a fresh label |
| `Generator.Emitter.PushBuffer` | bootstrap/x86_64_generator.c:363-373 | the loop pushes the buffered arguments, the last first |
| `Generator.Emitter.PopRegisters` | bootstrap/x86_64_generator.c:376-393 | as many pops as there are register arguments, in ABI order |
| `Generator.Emitter.SgenerateInvokes` | bootstrap/x86_64_generator.c:358-403 | buffer, arguments, target, register pops, call and stack clean-up, for any number of arguments |
| `Generator.Emitter.GenerateExpressions` | bootstrap/x86_64_generator.c:409-443 | dispatches so that exactly the expression's code is appended and its fresh labels used |
| `Generator.Emitter.GenerateProgram` | bootstrap/x86_64_generator.c:445-452 | the reversed list is the code of all expressions in order, which Program.ProgramRuns says what running does |
| `Generator.ReverseAt` | bootstrap/x86_64_generator.c:445-452 | reversing the shared list puts the first prepended instruction first |
| `Codegen.CodePreservesMeaning` | bootstrap/x86_64_generator.c:120-443 | main theorem: running the code of any jump-free expression, in any frame and memory in which it has a value, ends just after the code with RAX equal to the value, RSP, RBP and callee-saved registers unchanged and memory as the expression leaves it |
| `Codegen.EvalOk` | bootstrap/x86_64_generator.c:120-443 | the same, giving the final state: the induction over all expressions and calls |
| `Codegen.InvokeOk` | bootstrap/x86_64_generator.c:358-403 | an invoke of any arity leaves the stack as it was and RAX as the called function's result |
| `Codegen.CallOk` | bootstrap/x86_64_generator.c:322-403 | a call instruction returns to the next instruction with the function's value, for functions of the program (including recursive ones) and for outside functions that follow the ABI |
| `Codegen.EnteredParameter` | bootstrap/x86_64_generator.c:326-345 | argument k of the caller is what the callee reads as parameter k, for any k (section 3.2.3 of the System V AMD64 ABI for the first six) |
| `Codegen.LeftReturned` | bootstrap/x86_64_generator.c:350-355 | the epilogue restores the caller's stack pointer, frame pointer and callee-saved registers and keeps the caller's memory |
| `Codegen.PopsOk` | bootstrap/x86_64_generator.c:376-393 | the pops move the buffered arguments into the argument registers and leave the rest as stack arguments |
| `Codegen.IfOk` | bootstrap/x86_64_generator.c:156-168 | exactly one branch runs, the one the condition's value selects |
| `Codegen.StorageOk` | bootstrap/x86_64_generator.c:185-194 | storage writes each argument's value to its word and yields its address |
| `Codegen.FunctionOk` | bootstrap/x86_64_generator.c:322-329 | evaluating a function yields its address without running its body |
| `Frames.Layouter.LayoutFrames` | bootstrap/x86_64_generator.c:48-118 | places every function's parameters and slots, and the buffers that need none, and touches no other binding |
| `Frames.Layouter.LayoutFunction` | bootstrap/x86_64_generator.c:50-64 | parameters from 16 above the frame pointer, slots downwards from it, recorded frame size equal to the sum of padded slots |
| `Frames.Layouter.PlaceSlots` | bootstrap/x86_64_generator.c:59-63 | the loop gives slot i the offset that lies below all later slots |
| `Frames.Layouter.PlaceBuffer` | bootstrap/x86_64_generator.c:92-105 | argument buffers: a slot, the top of the stack, or nowhere, by the containment flag |
| `Frames.SlotsAreDisjoint` | bootstrap/x86_64_generator.c:59-63 | slots are word-aligned, inside the reserved frame and do not overlap |
| `Frames.ContinuationGeometry` | bootstrap/x86_64_generator.c:48-77 | in every laid out function each continuation and with has its parameters in consecutive words of the frame and its buffer, if it escapes, directly below them |
| `Frames.OwnRunInFrame` | bootstrap/x86_64_generator.c:66-105 | what an expression adds to the list of slots stays together in the list of the function around it |
| `Frames.BufferGeometry` | bootstrap/x86_64_generator.c:48-105 | the argument buffer of a jump or invoke lies in the frame apart from the block of every continuation and with of the function |
| `Jumps.CopyOk` | bootstrap/x86_64_generator.c:239-248 | running the copy loop puts every buffered value in its word at the destination and changes nothing else |
| `Jumps.DirectJumpDelivers` | bootstrap/x86_64_generator.c:276-288 | a direct jump from anywhere in a function to any of its continuations or withs, buffer or no buffer, starts the body with every argument in the word of its parameter |
| `Jumps.DirectJumpOk` | bootstrap/x86_64_generator.c:229-288 | a whole direct jump with jump-free arguments: their values are the parameters when the body starts, and registers are kept |
| `Jumps.DirectJumpHasBlock` | bootstrap/analysis.c:192-207 | every direct jump in a function goes to a continuation or with laid out in the same frame, or to one outside every function |
| `Jumps.BodyReads` | bootstrap/x86_64_generator.c:196-204 | loading a parameter in the body, or at the entry of a with, gives the value that was passed |
| `Jumps.SaveContinuationOk` | bootstrap/x86_64_generator.c:206-215 | the buffer of an escaping continuation holds the callee-saved registers, the frame pointer and the address of its first instruction |
| `Jumps.EscapingContinuationOk` | bootstrap/x86_64_generator.c:250-254 | a continuation expression that escapes fills its buffer and evaluates to its address |
| `Jumps.IndirectTailOk` | bootstrap/x86_64_generator.c:289-307 | an indirect jump puts the arguments directly above the buffer, restores the saved registers and starts the continuation |
| `Jumps.IndirectJumpDelivers` | bootstrap/x86_64_generator.c:206-307 | an indirect jump through the buffer of an escaping continuation resumes the activation that made it, with every argument in the word of its parameter |
| `Frames.SlotsDistinct` | bootstrap/x86_64_generator.c:48-118 | no binding gets two slots in one frame |
| `Frames.LaidOutAgree` | bootstrap/x86_64_generator.c:48-118 | laying out other bindings later does not disturb a finished layout |
| `Escapes.Analyser.EscapeAnalysis` | bootstrap/analysis.c:173-218 | marks exactly the escaping continuations, which Occurrences.EscapesExactly describes, and short-circuits exactly the jumps whose destination is known |
| `Escapes.Analyser.AnalyseJump` | bootstrap/analysis.c:192-212 | a jump is short-circuited to the continuation or with its target names, or to the continuation it contains |
| `Escapes.AnalysesAgree` | bootstrap/analysis.c:173-218 | escape analysis and layout establish all that code generation relies on, for every expression |
| `Escapes.OperandsOk` | bootstrap/x86_64_generator.c:120-308 | every frame-relative operand in the code of an expression names a slot of the function around it or a parameter, so a buffer that was given no slot is never addressed |
| `Escapes.JumpsStay` | bootstrap/analysis.c:195-203 | a short-circuited jump goes to a continuation or with of the same function, or to one outside all functions |
| `Escapes.FunctionKeepsToItsFrame` | bootstrap/x86_64_generator.c:322-356 | both of these for the own code of every function of an analysed program |
| `Escapes.FlagValues` | bootstrap/analysis.c:445-488 | containment flags take the three documented values only |
| `Occurrences.EscapesExactly` | bootstrap/analysis.c:173-218 | a continuation or with escapes if and only if a symbol or the continuation naming it stands somewhere other than as the target of a jump |
| `Occurrences.ContainsExactly` | bootstrap/analysis.c:445-488 | the flag demands a slot exactly when a with, or an if of which only one branch may jump, is evaluated; otherwise it says whether a jump may be |
| `Program.CodeLabels` | bootstrap/x86_64_generator.c:156-356 | each label in the code of any expression is emitted once, and its binding is the expression's own or fresh |
| `Program.ProgramLabels` | bootstrap/x86_64_generator.c:445-452 | no two labels of a whole program carry the same binding |
| `Program.ProgramHosts` | bootstrap/x86_64_generator.c:445-452 | a program's code contains the code of every function nested anywhere in it |
| `Program.LaidOutIsCompilable` | bootstrap/x86_64_generator.c:48-118 | layout gives jump-free expressions the storage classes that their code needs |
| `Program.NestedAreReady` | bootstrap/analysis.c:115-218 | what linking, escape analysis and layout establish for a program holds for each function nested in it |
| `Program.CompileProgram` | bootstrap/compile.c:18-33 | classification, escape analysis, layout and generation together: an environment with everything that correctness needs, and a program that, loaded anywhere and entered at its first instruction, evaluates its jump-free expressions in order; function and entry addresses keep their places |
| `Program.ProgramMatches` | bootstrap/compile.c:18-33 | a compiled and loaded program satisfies every assumption of the code generation theorem |
| `Program.ProgramCallOk` | bootstrap/compile.c:18-33 | calling any jump-free function of any compiled program returns its meaning |
| `Program.ProgramRuns` | bootstrap/x86_64_generator.c:445-452 | the emitted instructions, entered at the first one, run to behind the last one with the stack and callee-saved registers, the memory and outside calls that evaluating the expressions from left to right gives |
| `Program.ProgramRunOk` | bootstrap/compile.c:18-33 | the same for every compiled and loaded program of jump-free expressions, its functions being arbitrary as long as evaluation calls jump-free ones only |
| `Program.Classifier.Classify` | bootstrap/analysis.c:490-524 | makes exactly the bindings that stand outside functions absolute |
| `Program.TopIsCompilable` | bootstrap/x86_64_generator.c:66-118 | expressions outside functions get from classification and layout the storage classes that their code needs |
| `Program.StorageIsWritable` | bootstrap/x86_64_generator.c:78-86 | the words of a laid-out storage expression lie in the frame, so writing them is always allowed |
| `HashTable.HashTable.constructor` | src/hash-table.l2:25-34 | two empty buckets: every key has the empty stack |
| `HashTable.HashTable.Put` | src/hash-table.l2:64-71 | pushes the value on the key's stack, changes no other stack, and keeps the load factor |
| `HashTable.HashTable.Remove` | src/hash-table.l2:121-130 | pops the key's stack if it is not empty and changes no other stack |
| `HashTable.HashTable.Contains` | src/hash-table.l2:82-91 | finds the top of the key's stack, or reports that it is empty |
| `HashTable.HashTable.Resize` | src/hash-table.l2:42-60 | doubles the buckets when count times 4 exceeds buckets times 3; no stack changes |
| `HashTable.HashTable.MoveAll` | src/hash-table.l2:48-58 | every node moves to the new buckets, in order, without changing any stack or the count |
| `HashTable.HashTable.Append` | src/list.l2:255-259 | walking to the end of a chain and linking one more node there |
| `HashTable.PutView` | src/hash-table.l2:64-70 | a node in front of its bucket pushes on its key's stack only |
| `HashTable.RemovedView` | src/hash-table.l2:121-130 | taking out the first node under a key pops its stack only |
| `HashTable.AllMoved` | src/hash-table.l2:42-60 | once all nodes are moved every key's stack is what it was |
| `Linking.ListLinker.AssignBinding` | bootstrap/analysis.c:104-113 | finds the first binding of the name in the list |
| `Linking.ListLinker.LinkSymbols` | bootstrap/analysis.c:115-171 | links every symbol as Link prescribes, which Linking.LinkFinds says is to its innermost visible binder: the frame, then what is static, then undefined names; enclosing functions' frames are hidden |
| `Linking.TableLinker.AssignAny` | src/analysis.l2:264-266 | the same three lookups with hash tables |
| `Linking.TableLinker.LinkSymbols` | src/analysis.l2:238-285 | gives the same links, and leaves the static and dynamic tables observably unchanged |
| `Linking.TableLinker.LinkFunction` | src/analysis.l2:243-248 | a function pushes its own name, gets a new table as its frame, and pops the name again |
| `Linking.TableLinker.LinkBody` | src/analysis.l2:250-255 | continuations and withs push their names and pop them again |
| `Linking.LinkBothWays` | src/analysis.l2:238-285 | lists and tables give every symbol of every program the same binding, and it is the innermost visible one of its name |
| `Linking.LinkFinds` | bootstrap/analysis.c:104-171 | an occurrence is linked to the last binder of its name between the nearest function around it and itself, failing that to the last static one, failing that to the binding made for the undefined name |
| `Linking.ProgramIsInnermost` | bootstrap/analysis.c:104-171 | the same for every occurrence in a whole program with its global bindings |
| `Linking.PushedThenPopped` | src/analysis.l2:250-255 | popping each name as often as it was pushed restores every stack, whatever names coincide |
| `Linking.LinkGrows` | bootstrap/analysis.c:115-171 | linking gives bindings to exactly the unlinked symbols, changes none it found, and makes new bindings of the names that were undefined |
| `Linking.LinkedIsScoped` | bootstrap/analysis.c:115-171 | every linked symbol names something visible where it stands, as escape analysis and layout require |
| `Reader.Reader.ReadToken` | bootstrap/lexer.c:84-105 | reads the longest run of token characters through the character table, or throws at the offending position |
| `Reader.Reader.ReadList` | bootstrap/lexer.c:107-136 | reads a bracketed list, with the jump or invoke token in front for braces and square brackets, as Reader.BracketsRead says of printed items |
| `Reader.Reader.ReadFragment2` | bootstrap/lexer.c:151-169 | operands separated by semicolons; one operand stands for itself |
| `Reader.Reader.ReadFragment` | bootstrap/lexer.c:171-189 | operands separated by colons; equals the grammar's meaning on every text, and terminates on every text |
| `Reader.Fragment` | bootstrap/lexer.c:171-189 | success consumes at least one character and yields a fragment without variables whose tokens are not empty and spelled with the table |
| `Reader.Printer.PrintFragment` | bootstrap/lexer.c:275-293 | writes exactly the canonical form |
| `Reader.FragmentRoundTrip` | bootstrap/lexer.c:171-189 | reading a printed fragment gives it back wherever the following text does not continue it |
| `Reader.BracketsRead` | bootstrap/lexer.c:107-136 | in braces printed items read as the jump token and the items, in square brackets as the invoke token and the items, in parentheses as the items, whatever follows |
| `Reader.SemicolonsRead` | bootstrap/lexer.c:151-169 | printed operands joined by semicolons, with any white space around them, read as the list of the operands in order, a single one as itself |
| `Reader.ColonsRead` | bootstrap/lexer.c:151-189 | groups of operands joined by colons read as the list of the groups in order, so semicolons bind tighter |
| `Reader.PrintThenRead` | bootstrap/lexer.c:171-293 | a fragment survives printing and reading if and only if it has no variables and its tokens are not empty and spelled with the character table |
| `Reader.PrintIsInjective` | bootstrap/lexer.c:275-293 | different readable fragments print differently |
| `Reader.ReadPrintRead` | bootstrap/lexer.c:171-293 | reading, printing and reading again gives what the first reading gave |
| `Assembler.Writer.WriteMrInstr` | bootstrap/x86_64_assembler.c:22-47 | REX, opcode, ModRM and, for RSP and R12 as a base, SIB |
| `Assembler.Writer.WriteOInstr` | bootstrap/x86_64_assembler.c:75-87 | the opcode with the register's low bits, after REX for high registers only |
| `Assembler.Writer.WriteImmediate` | bootstrap/x86_64_assembler.c:49-66 | eight bytes and, for references, a 64-bit relocation at their position |
| `Assembler.Writer.WriteTarget` | bootstrap/x86_64_assembler.c:67-73 | four zero bytes and a PC-relative relocation with addend -4 at their position |
| `Assembler.Writer.WriteInstr` | bootstrap/x86_64_assembler.c:92-208 | one instruction's bytes, relocations and label position |
| `Assembler.Writer.Assemble` | bootstrap/x86_64_assembler.c:89-209 | the whole list; the buffer sized by 15 bytes an instruction always suffices |
| `Assembler.OutputFits` | bootstrap/x86_64_assembler.c:413-420 | never more than 15 bytes and 2 relocations an instruction |
| `Assembler.DecodeAssembled` | bootstrap/x86_64_assembler.c:89-209 | decoding the bytes and relocations of any instruction list recovers the list without its labels, operands truncated to their fields |
| `Assembler.InstrRecovered` | bootstrap/x86_64_assembler.c:22-208 | each encoding decodes to its instruction whatever bytes follow |
| `Assembler.ExactWhenFitting` | bootstrap/x86_64_assembler.c:89-209 | an instruction survives exactly, if and only if its operand fits its field |
| `Bytes.SignedOfLittle` | bootstrap/x86_64_assembler.c:15-20 | a number that fits in n bytes is what its n little-endian bytes say |
| `Object.LoadedObject.OffsetsToAddresses` | bootstrap/x86_64_object.c:123-151 | symbol values and relocation offsets become addresses, by section; undefined and common symbols become 0 |
| `Object.LoadedObject.StoreAddends` | bootstrap/x86_64_object.c:80-116 | keeps stated addends and reads implicit ones; fails exactly on implicit addends without a field |
| `Object.LoadedObject.DoRelocations` | bootstrap/x86_64_object.c:21-74 | every entry in order writes the number for its type, truncated to its field |
| `Object.LoadedObject.MutateBindings` | bootstrap/x86_64_object.c:240-260 | updates exactly the undefined or common, global or weak symbols of the given names, then relocates |
| `Object.LoadedObject.Load` | bootstrap/x86_64_object.c:212-218 | fails exactly on an implicit addend without a field; otherwise memory is relocated with the addends stated in the entries or read from the fields before, and addresses are those of the segments |
| `Object.LoadedObject.LoadAndMutate` | bootstrap/x86_64_object.c:212-260 | after any number of mutations memory is as after one relocation of the original memory with the stored addends and the latest addresses |
| `Object.Rerelocated` | bootstrap/x86_64_object.c:21-74 | relocating again is the same as relocating once with the later symbols, even when fields overlap |
| `Object.HistoryIndependent` | bootstrap/x86_64_object.c:240-260 | any sequence of mutations leaves memory as a single relocation with the final addresses would |
| `Object.FieldsHoldLatest` | bootstrap/x86_64_object.c:240-260 | each field, of every relocation type, holds what its type computes from its stored addend and the latest address of its symbol |
| `Object.FieldHolds` | bootstrap/x86_64_object.c:21-74 | with disjoint fields, each holds what its own entry computes |
| `Object.JumpReachesTarget` | bootstrap/x86_64_assembler.c:67-73 | after loading, a relative jump's field plus the next instruction's address is its target, if and only if the distance fits in 32 signed bits |
| `Object.JumpLandsOnLabel` | bootstrap/x86_64_assembler.c:89-209 | code assembled, written and loaded at any address: a jump's field plus the next address is its label's address if and only if the distance fits in 32 signed bits |
| `Object.ImmediateNamesLabel` | bootstrap/x86_64_assembler.c:49-66 | after writing and loading, a 64-bit immediate that names a label is the label's address plus the offset |
| `Object.LoadedAsWritten` | bootstrap/x86_64_object.c:123-218 | loading the written relocations is relocating the assembled code where its segment lies, and symbols of labels get segment address plus position |
| `Symbols.SymbolWriter.Write` | bootstrap/x86_64_assembler.c:296-411 | the symbol table: local symbols first, every binding the code refers to has a symbol, that of a label lies in the text section at the label's position |
| `Symbols.SymbolWriter.AddStatics` | bootstrap/x86_64_assembler.c:314-376 | static bindings of one scope get symbols of that scope; other bindings keep theirs |
| `Object.ImmediateHoldsAddress` | bootstrap/x86_64_assembler.c:49-66 | after loading, a 64-bit immediate is its binding's address plus its offset |
| `Object.FieldsAscend` | bootstrap/x86_64_assembler.c:89-209 | relocated fields of assembled code are disjoint and inside the code |
| `Object.LabelValue` | bootstrap/x86_64_assembler.c:93-98 | with distinct labels, a label's symbol has the position at which the label stands |
| `ElfWriter.LinkWriter.DoRelocation` | src/x86-64-assembler.l2:1207-1223 | applies a relocation early, or fails when truncation would lose the number |
| `ElfWriter.LinkWriter.SimplifySection` | src/x86-64-assembler.l2:1415-1438 | the in-place filter: same-section relocations are applied and dropped, .bss ones redirected, the rest kept and their symbols marked |
| `ElfWriter.LinkWriter.FilterSymbols` | src/x86-64-assembler.l2:1439-1450 | keeps exactly the marked and the non-local symbols, in order |
| `ElfWriter.LinkWriter.AssignIndices` | src/x86-64-assembler.l2:1480-1492 | consecutive indices, local symbols first |
| `ElfWriter.EarlyIsRight` | src/x86-64-assembler.l2:1423-1429 | storing a relocation early is right for every placement of the section if and only if its type is position independent |
| `ElfWriter.RedirectIsRight` | src/x86-64-assembler.l2:1430-1434 | redirecting to the .bss symbol is right for every additive type; for the others, exactly when the stated congruence holds |
| `ElfWriter.SimplifyPreserves` | src/x86-64-assembler.l2:1415-1438 | for every placement, the simplified section and its remaining relocations load to the same bytes and fail in the same cases |
| `ElfWriter.SimplifyLinks` | src/x86-64-assembler.l2:1408-1492 | all sections: same bytes after loading, every surviving relocation's symbol survives, and its index is the position at which it is written, local symbols first |
| `Rewrites.PassesRefine` | src/compile.l2:15-17 | the program after constraint removal, branch swapping and jump domination has only behaviours of the original: final values, memory, outside calls and run lengths, for any order of operands |
| `Rewrites.PassRefines` | src/analysis.l2:522-542 | the same for each bottom-up pass over all functions and the main expression |
| `Rewrites.RewriteRefines` | src/analysis.l2:67-104 | the same for rewrites at any set of places that do not overlap |
| `Rewrites.RunsAreMatched` | src/analysis.l2:67-104 | every run of the rewritten program is matched by a run of the original that is at least as long and ends in a corresponding state |
| `Rewrites.StepMatched` | src/analysis.l2:67-104 | each step of the rewritten program is matched by one or more steps of the original |
| `Rewrites.SwapMatched` | src/analysis.l2:67-84 | the swapped if chooses the branch that the original chooses |
| `Rewrites.CatchUp` | src/analysis.l2:93-104 | an expression dominated by a jump can evaluate that jump first |
| `Rewrites.VisitIsRounds` | src/analysis.l2:522-542 | a bottom-up visit is a finite number of rounds of such rewrites |
| `Rewrites.VisitSettles` | src/analysis.l2:67-104 | after a pass nothing it removes is left anywhere: no constraint, no if whose condition is a decided if, no operand or condition that is a jump |
| `Rewrites.VisitTwice` | src/analysis.l2:522-542 | a pass leaves nothing to do: visiting again changes nothing |
| `Registers.Binding.TryPreferred` | src/x86-64-generator.l2:106-128 | the preferred register if it is free, the preferred memory location in any case |
| `Registers.Binding.ToRegisterOrMemory` | src/x86-64-generator.l2:137-158 | the most preferred free register, within the 16 preferences, or the slot when none is free |
| `Registers.InitializeExpressions` | src/x86-64-generator.l2:188-224 | registers given to distinct bindings are distinct, outside the mask and every sub-expression's report; every binding that a sub-expression holds in this frame is in a reported register or in memory below this call's words; slots given out are distinct words of this call; every binding that is read and deep enough is placed and no other; a preferred memory location is always given, and a preferred register that was free at first unless another binding that prefers it got it |
| `Registers.PlacedApart` | src/x86-64-generator.l2:188-224 | no binding placed by a call shares a register with a binding that its sub-expressions hold in the same frame, and none of its slots overlaps one of theirs |
| `Registers.InitializeExpression` | src/x86-64-generator.l2:808-823 | a report includes the mask, what the initializer adds and every register that bindings of the expression hold in the frame |
| `Registers.NewRegistersAreFree` | src/x86-64-generator.l2:188-224 | registers given by a call are outside its mask and outside every sub-expression's report |
| `Registers.SearchSucceeds` | src/x86-64-generator.l2:151-154 | the search succeeds within the 16 preferences if and only if one of the low 16 bits is clear |
| `Registers.UpperIsSearchable` | src/x86-64-generator.l2:142-158 | with the upper 48 bits set it succeeds, or all bits are set and nothing is searched |
| `Registers.NothingToFind` | src/x86-64-generator.l2:151-154 | without the upper bits there is a vector for which the search runs off the table |
| `Registers.BaseHasRoom` | src/x86-64-generator.l2:188-224 | the masks that the compiler passes always leave a register to find |
| `Registers.UseAdded` | src/x86-64-generator.l2:98-101 | adding a register to a vector adds that register and no other |

## Left out

- Jumps, continuations and withs are outside the code generation theorem: a jump leaves arguments pushed
  and buffers do not save RSP (`bootstrap/x86_64_generator.c:206-215`, `362-374`). Their code is still proved
  to be emitted as described, to keep to the frame, to have distinct labels and to pass arguments (`Jumps`).
- Jumps.DirectJumpDelivers: continuations outside every function have static parameters, whose order in the
  .bss section is not modelled; a jump whose arguments all jump away themselves never reaches the copy.
- Jumps.IndirectJumpDelivers: that the continuation's buffer is still intact, and apart from the argument
  buffer of the activation that jumps, is assumed of what ran in between.
- Components: beyond direct partners (`Components.Paired`) groups are not claimed to be maximal or to come in
  dependency order, because `preorder` is a path depth and not a unique index. Graphs are assumed to have fewer than 2^32 - 1 expressions.
- Codegen.EvalOk: in `Machine` each instruction has one address, so return addresses and labels are
  instruction positions; that byte positions agree with labels is proved separately in `Object`. Stack
  alignment to 16 bytes at calls is not part of the original and not modelled. Memory cells are words.
- Program.CompileProgram: all expressions are classified and analysed before they are laid out, where the original
  takes them one after the other; the absolute places of functions and entries (`bootstrap/expressions.c:283-328`)
  are inputs. Running is stated for jump-free expressions.
- Linking.TableLinker.LinkSymbols: symbols still to be linked have non-empty names, as all symbols read from
  text do; two unlinked nameless symbols would share one undefined binding with tables and not with lists.
- The string hash function is arbitrary in `HashTable`; key equality is equality of strings.
- Reader.Reader.ReadToken: texts are ASCII, since the character table has 128 entries.
- Inference: expressions are numbered, parts before what they are part of, and are trees without shared
  nodes; the order of an expression's dependencies is not stated; error reports are not modelled. A use of an
  expression in a later group, or in none, is an instance of its initial signature only, because copying
  does not follow bindings (`bootstrap/lexer.c:248-273`).
- Macro expansion, lazy compilation thunks and `evaluate-expr` call machine code that is not part of this model.
- The L2 versions of unification and type inference, the L2 generator apart from register assignment, and
  `vpropagate-expressions`.
- Registers.InitializeExpressions: initializers are represented by what they report and the call they make;
  the preferences they set are inputs.
- Rewrites: trees are values, so updating nodes in place and sharing of nodes are not represented; memory,
  addresses and outside code are arbitrary functions shared by both programs; functions are known by their
  bindings, and functions inside discarded operands stay in the function table.
- ElfWriter.SimplifyLinks: headers, string tables, section offsets and the byte format of the file are left out,
  as are the layouts of static storage in both writers.
- Object: one table of symbols and one flat memory; reading of the file's headers is left out.
- System calls, files, command lines, timers, regions and error printing.
- The macro libraries and examples, which would add easy members only.
