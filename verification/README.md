# A JavaScript-to-bytecode virtual machine, verified

The repository compiles JavaScript to a compact bytecode and runs it. This project models
its hard core in Dafny and proves what that core is for.

* **Two compiler passes.** `LoweringContext` turns statements and short-circuiting
  expressions into flat labelled code; `lower_blocks` cuts that code into basic blocks, which
  are then written out as bytecode. Both passes stand here as they run, as methods on a class
  and on growing sequences, held to the functions that the theorems are about. The bytecode of
  every body without early errors and without `try` ends with the outcome and the world its source ends with,
  and runs for ever exactly when its source does (`Compile`, `BytecodeMeaning`).
* **Two readings of a program.** `Semantics` defines what statements mean: frames on a heap,
  completion records, an arbitrary host for operators, calls and global names. Its flag
  `standard` chooses between what ECMA-262 says and what the compiler takes a program to mean.
  Both leave out the dead zone before a `let` or `const` and the error on writing a `const`.
  Apart from these, `Departures` lists the six places where they differ, each with an input and
  with the exact condition under which they agree; `Readings` gives a class of programs, checked
  on their text alone, on which they always agree once their `var`s are bound.
* **The linear machine** (`Machine`) executes flat code: one program counter, registers, and a
  stack of frames that a jump cuts to the scope depth of its target.
* **Label and scope discipline** (`LabelUniqueness`, `LabelNames`, `ScopedJumps`): every label
  text occurs once in a function, jumps lead out of scopes and never into one, and statically
  counted scope depths are the dynamic ones.
* **Lexical environments** (`Env`, `EnvRuns`, `Sharing`, `SharedEnvs`): frames with a slot cache
  and a name cache against plain inside-out scans, over any run of operations, by one environment
  or by any number of them that share records as closures do, on the heap and as values.
* **Where names are kept** (`Placement`): the machine binds by name, the runtime in slots and
  under names; step by step they see the same bindings.
* **Regions and scope depths recovered from flat code** (`Regions`, `TryMeaning`): and what the
  parts of a `try` mean by themselves.
* **Names** (`Capture`, `Externs`): which outer names a function gets slots for, and how the
  names taken from the host get slots and are renumbered.
* **Packaging** (`ModuleOrder`, `Paths`, `SourceMap`, `JsonText`, `PcMap`): the order of modules, relative
  import paths, the source text inside a source map, the run-length table from instructions to
  source positions.
* **The parallel fuzz coordinator** (`FuzzCoordinator`, `FuzzRuns`, `FuzzOutcomes`): its event handlers on a
  class, and every interleaving of workers, messages, watchdog ticks, signals and exits.

Model assumptions: the host is an arbitrary total function of its arguments and of the world,
so whatever an operator, a call or a global name does is covered as long as it depends on
nothing else; a `try` region's markers keep their order in the bytecode; workers' messages
arrive in the order they were sent and a worker's exit comes after them.

## Model

| member | source | states |
|---|---|---|
| Compile.CompileBody | crates/compiler/src/parse.rs:3056-3202 | both passes in a row, on any body without early errors and without `try`: the bytecode of the blocks has the outcomes, worlds and divergence of the body as the compiler reads it; and, for a body in the class on which the readings agree, started where its `var`s are bound, of the body as ECMA-262 reads it but for the dead zone and `const`; no property of the cut is assumed |
| Compile.InTheClass | crates/compiler/src/parse.rs:542-633 | labelled loops with both jumps, a `switch` with a default and lexical declarations satisfy what both statements of `CompileBody` ask of a body |
| BytecodeMeaning.BytecodePreservesMeaning | crates/core/src/lib.rs:4014-4035 | labelled blocks written one after the other, each with its terminator, halt with an outcome and a world if and only if the statements do |
| BytecodeMeaning.BytecodePreservesDivergence | crates/core/src/lib.rs:4014-4035 | the written bytecode runs for ever if and only if the statements do |
| BytecodeMeaning.FunctionWellCut | crates/compiler/src/parse.rs:3584-3636 | lowered bodies, with `try` or without, have what the second pass needs: unique labels, scopes nested or absent at the top level, and no top-level jump to a label inside a nested instruction |
| FunctionMeaning.LoweringPreservesMeaning | crates/compiler/src/parse.rs:542-633 | the flat code of a body without `try` halts with an outcome and a world if and only if the body does with enough fuel; it never gets stuck |
| FunctionMeaning.LoweringPreservesDivergence | crates/compiler/src/parse.rs:542-633 | the flat code of such a body runs for ever if and only if no fuel suffices for the body |
| FunctionMeaning.FunctionDepths | crates/runtime/src/ops.rs:107-123 | in every run of a function's code without `try`, the counted scope depth at the program counter is the number of frames on top of the function's own |
| StmtSimulation.StmtSim | crates/compiler/src/parse.rs:542-633 | lowered code of any statement other than `try`, from any state that arrives at it, does what the statement does: falls through to its end, lands at the right break or continue target with the environment cut to that depth, returns or throws, or is still running after as many steps as there was fuel |
| StmtSimulation.SwitchSim | crates/compiler/src/parse.rs:1260-1313 | the tests run in source order and stop at the first match, default anywhere, clauses fall through, `break` leaves |
| StmtSimulation.LexicalStmtSim | crates/compiler/src/parse.rs:961-1001 | `for (let ...)`: each iteration runs in a new frame that starts with copies of the loop bindings, update and test in the new frame |
| StmtSimulation.ForSim | crates/compiler/src/parse.rs:1003-1039 | the other `for` loops, `continue` going to the update |
| StmtSimulation.DoWhileSim | crates/compiler/src/parse.rs:1069-1085 | `do`-`while`, `continue` going to the test |
| StmtSimulation.ResolvePush | crates/compiler/src/parse.rs:300-340 | pushing targets for a statement with pending labels: an unlabelled or matching break or continue resolves to it, every other one as before |
| ExprSimulation.ExprSim | crates/compiler/src/parse.rs:1352-1405 | lowered code of any expression leaves its value in the returned operand, with effects in source order, skipped operands skipped, and no register written that was given out before; or ends with what it throws |
| ExprSimulation.AndSim | crates/compiler/src/parse.rs:1646-1665 | `&&`: the right operand runs exactly when the left one is truthy |
| ExprSimulation.OrSim | crates/compiler/src/parse.rs:1667-1689 | the same for logical or, whose right operand runs when the left one is falsy |
| ExprSimulation.NullishSim | crates/compiler/src/parse.rs:1691-1733 | the same for `??`, null and undefined |
| ExprSimulation.UpdateSim | crates/compiler/src/parse.rs:2499-2525 | `++` and `--` on names |
| StmtShape.StmtKeeps | crates/compiler/src/parse.rs:346-355 | the code of every statement ends at the scope depth where it began, `try` and nested scopes included |
| Readings.ReadingsAgree | crates/compiler/src/parse.rs:542-633 | on a body without logical assignment, used postfix values, `var` without initialiser, `switch` with a `let` or `const` of its own and reads of `undefined`, `NaN` and `Infinity` by name, and from a world in which its `var`s are bound, code that means what the compiler reads means what the standard says, dead zone and `const` errors apart: outcome, world and divergence |
| Readings.StmtAgrees | crates/compiler/src/parse.rs:542-633 | the same for one statement with any fuel, in any environment |
| Departures.PostfixValue | crates/compiler/src/parse.rs:2499-2525 | for a name that reads alike, effects and exceptions of a postfix operator are the standard's; when nothing throws, its value is if and only if the old value is its own numeric conversion |
| Departures.PostfixOfString | crates/compiler/src/parse.rs:2499-2525 | with `x` the string "5", `x++` yields "5" and not 5 |
| Departures.ConstantNames | crates/compiler/src/parse.rs:1356-1363 | the names `undefined`, `NaN` and `Infinity` read as the standard says if and only if no frame binds the name or the innermost one that does holds that very constant |
| Departures.ConstantShadowed | crates/compiler/src/parse.rs:1356-1363 | `let undefined = 1; return undefined;` returns undefined, where the standard says 1 |
| Departures.VarWithoutInitialiser | crates/compiler/src/parse.rs:710-725 | `var x;` does what the standard says if and only if `x` already reads as undefined |
| Departures.VarForgets | crates/compiler/src/parse.rs:710-725 | `x = 1; var x;` leaves `x` undefined |
| Departures.VarsOnEntry | crates/compiler/src/parse.rs:416-423 | a body starts from the world that the standard says if and only if its function's frame binds the names of its `var`s already, nested ones included |
| Departures.VarsAreDeclared | crates/compiler/src/parse.rs:416-423 | those names are exactly the ones that some `var` in the body, or in the head of a loop in it, declares, however deep |
| Departures.OuterVarRead | crates/runtime/src/executor.rs:8275-8305 | with an `x` of 1 around it, `return x; var x = null;` returns 1, where the standard says undefined |
| Departures.LogicalAssignment | crates/compiler/src/parse.rs:1385-1404 | the logical assignments to a name do what the standard says if and only if reading `x` throws, its value does not decide, or evaluating `e` and writing the value back leaves the world as it was |
| Departures.LogicalAssignmentCalls | crates/compiler/src/parse.rs:1385-1404 | with `x` true, a logical-or assignment of `f()` to `x` calls `f`, which the standard does not |
| Departures.SwitchScope | crates/compiler/src/parse.rs:1260-1313 | a clause that declares `x` leaves the frames around the `switch` as the standard says if and only if the innermost one already held that value under `x` |
| Departures.SwitchLeaks | crates/compiler/src/parse.rs:1260-1313 | an `x` of 1 around `switch (null) { default: let x = true; break; }` becomes true, where the standard leaves 1 |
| Departures.EmptyScope | crates/compiler/src/parse.rs:1260-1313 | an environment without bindings, as the standard opens for every case block, changes neither what a bound name reads as nor what writing it does |
| LoweringContext.Context.LowerStatements | crates/compiler/src/parse.rs:635-640 | the running context appends exactly the code, and hands out exactly the numbers, of the functions the theorems are about, and restores its target stack |
| LoweringContext.Context.LowerExpression | crates/compiler/src/parse.rs:1352-1405 | the same for expressions and the operand they return |
| LoweringContext.Context.LowerSwitchStmt | crates/compiler/src/parse.rs:1260-1313 | the same for `switch`, whose loops over clauses build tests and bodies in step |
| LoweringContext.Context.LowerLexicalFor | crates/compiler/src/parse.rs:961-1001 | the same for `for (let ...)` |
| LoweringContext.Context.LowerTryStmt | crates/compiler/src/parse.rs:1315-1350 | the running context emits for a `try` the code that TryMeaning speaks of, each part lowered in a child context |
| TryMeaning.TryLowered | crates/compiler/src/parse.rs:1315-1350 | a `try` becomes exactly one instruction: its parameter is the handler's, the catch part is empty if and only if there is no handler and the finally part if and only if there is no finalizer; and each part, flattened and run by itself, ends with the outcomes and worlds of the block, the handler or the finalizer, and runs for ever when that does |
| LoweringContext.Context.PushControlTargets | crates/compiler/src/parse.rs:300-320 | one unnamed target and one for each pending label, in order; none is left pending |
| Blocks.LowerBlocks | crates/compiler/src/parse.rs:3112-3202 | for code with distinct labels: every instruction stands in its block, control instructions as terminators that nothing overwrites, fall-through into labels and into the empty exit block, all targets in range, each label's block led by it, no label lost or repeated |
| Blocks.CutInstruction | crates/compiler/src/parse.rs:3132-3190 | one turn of the loop keeps the cut of the code so far |
| BlocksMeaning.BlocksPreserveMeaning | crates/compiler/src/parse.rs:3112-3202 | running the blocks from the first one halts with an outcome and a world if and only if running the flat code does |
| BlocksMeaning.BlocksPreserveDivergence | crates/compiler/src/parse.rs:3112-3202 | the blocks run for ever if and only if the flat code does |
| LabelUniqueness.FunctionLabelsUnique | crates/compiler/src/parse.rs:294-298 | in the code of one function, `try` parts lowered in child contexts included, every label is emitted at most once |
| LabelNames.TextInjective | crates/compiler/src/parse.rs:240-258 | labels with different prefix, purpose or number have different texts |
| LabelNames.SuffixedInjective | crates/compiler/src/parse.rs:2840-2878 | so have labels with the derived `_push` and `_check_return` names, among themselves and against all others |
| LabelNames.BlockTextInjective | crates/core/src/lib.rs:4634-4636 | block labels have different texts, none of which is the text of a label of the code |
| LabelNames.FunctionTextsUnique | crates/compiler/src/parse.rs:294-298 | no label text occurs twice in a function's code |
| ScopedJumps.FunctionScoped | crates/compiler/src/parse.rs:326-340 | every jump of a lowered function leads to a label emitted at its own or an enclosing level, never into a scope or `try` it is not in |
| ScopedJumps.StaticDepthIsDynamic | crates/runtime/src/ops.rs:107-123 | in code with that discipline the counted depth is the dynamic one after any number of steps |
| Regions.FindTryParts | crates/runtime/src/ops.rs:54-101 | the marker scan returns what the recovery function says, its depth counter never below zero, and the error exactly when no end is found |
| Regions.TryRoundTrip | crates/runtime/src/ops.rs:54-101 | at the start of a printed `try`, recovery gives exactly the intervals of its body, catch and finally, which hold exactly the printed parts; an absent catch gives an inverted interval |
| Regions.EveryMarkerRecovered | crates/compiler/src/parse.rs:3491-3527 | at every start marker of printed code, however deep, recovery succeeds and gives the intervals of a `try` of the tree |
| TryMeaning.TryRecovered | crates/runtime/src/ops.rs:54-101 | lowered, printed and recovered, the body interval of a `try` means its block, the catch interval its handler, with the handler's parameter, and the finally interval its finalizer; the interval of a missing part begins at the end |
| Regions.CollectScopeMetadata | crates/runtime/src/ops.rs:107-123 | the table holds the counted depth before each operation |
| Env.EnvironmentRecord.GetSlot | crates/runtime/src/env.rs:351-357 | two-tier storage reads as one finite map |
| Env.EnvironmentRecord.InsertSlot | crates/runtime/src/env.rs:367-377 | and is written as one, the fast part never longer than 65536 |
| Env.LexicalEnv.Get | crates/runtime/src/env.rs:88-106 | a cached lookup answers what the inside-out scan finds, and the caches stay right |
| Env.LexicalEnv.GetSlot | crates/runtime/src/env.rs:168-184 | the same for slots, whose scan stops at the nearest function or global frame |
| Env.LexicalEnv.SetSlot | crates/runtime/src/env.rs:187-213 | writes where the scan finds the slot, or in the current frame |
| Env.LexicalEnv.DefineVarSlotIfAbsent | crates/runtime/src/env.rs:152-163 | hoisting to the nearest function or global frame leaves the caches right if and only if no frame further in binds the slot |
| Env.LexicalEnv.SetExisting | crates/runtime/src/env.rs:256-270 | writes the innermost binding if there is one and says whether |
| Env.LexicalEnv.TruncateToDepth | crates/runtime/src/env.rs:80-85 | leaves exactly the first max(1, depth) frames, or all if there are fewer |
| Env.LexicalEnv.Clone | crates/runtime/src/env.rs:23-31 | a clone shares every record and starts with empty caches |
| EnvRuns.Do | crates/runtime/src/env.rs:58-270 | each of fifteen operations does to the frames and to both caches, and answers, what its transition on values says, whether the caches are right or not; of the records that were there it writes the one the transition names |
| EnvRuns.TurnAgrees | crates/runtime/src/env.rs:58-270 | where the caches are right, that transition does to the frames, and answers, what scans do; and they stay right if and only if the operation does not hoist a cached slot past a frame that binds it |
| EnvRuns.Perform | crates/runtime/src/env.rs:58-270 | any sequence of operations that pass that guard ends with the frames, and answers, that scans give |
| EnvRuns.OverwriteIsSeen | crates/runtime/src/env.rs:256-270 | overwriting a name through one environment is what the next lookup through another that resolves to the same record answers; both caches stay right |
| EnvRuns.SlotOverwriteIsSeen | crates/runtime/src/env.rs:187-213 | the same for slots |
| EnvRuns.NewBindingAgrees | crates/runtime/src/env.rs:109-118 | a new binding in a shared frame leaves another's name cache right if and only if that cache does not point further out |
| EnvRuns.StaleName | crates/runtime/src/env.rs:109-118 | otherwise the other goes on answering with the outer value |
| EnvRuns.HoistedPastCatch | crates/runtime/src/env.rs:152-163 | a slot hoisted past a catch frame that binds it makes reads miss the parameter |
| Sharing.NewSlotAgrees | crates/runtime/src/env.rs:134-139 | the slot version: a new slot binding leaves a slot cache right if and only if that cache does not point further out |
| Sharing.OtherAgrees | crates/runtime/src/env.rs:109-139 | a write by one environment leaves the caches of another right if and only if none of them points further out than the frame written |
| Sharing.ActAgrees | crates/runtime/src/env.rs:23-31 | with any number of environments over shared records, each keeping its caches as the code does, an operation of any of them leaves all caches right if and only if it passes both guards, its own and the others'; and from right caches it does to its frames, and answers, what scans do |
| Sharing.RunsAgree | crates/runtime/src/env.rs:326-338 | in any interleaving of operations, new frames and clones, all caches are right all along if and only if every operation passes the guards; then records, environments and every answer are those of the run without caches |
| Sharing.StaleSlot | crates/runtime/src/env.rs:152-163 | a run that fails the guard: an environment hoists a slot, its clone binds it in a block they share, and the first one goes on reading what it hoisted |
| SharedEnvs.Serve | crates/runtime/src/env.rs:326-338 | on the heap, one environment's operation changes all records, environments and caches as the step of the system says, clones that share the record included |
| SharedEnvs.Interleave | crates/runtime/src/env.rs:23-31 | any interleaving on the heap, clones made on the way included, is the run of the system, and its answers are those without caches if the run is guarded |
| Capture.CapturedInFunctionBody | crates/compiler/src/parse.rs:3845-3867 | the recursive collectors find exactly the names that are visible around the function, mentioned by some instruction in it however deep, and bound neither by it nor by a function expression in it |
| Capture.SlotsAreBound | crates/compiler/src/parse.rs:3986-3999 | a function's code gets slots for exactly the names that an instruction of its own binds, through scopes and the parts of a `try`: by declaration, as the name of a function or a class, or as a catch parameter |
| Capture.BindingsAreBound | crates/compiler/src/parse.rs:3824-3838 | what counts as local when captures are collected is exactly what such an instruction binds, in function expressions too, or the name of one |
| Capture.ReachesIs | crates/compiler/src/parse.rs:3845-4017 | a name occurs free in code if and only if an instruction of its own mentions it or makes a function in which it occurs free |
| Capture.FreeIsCaptured | crates/compiler/src/parse.rs:3845-4017 | a name free in a function and visible around it, not an implicit global, is captured and gets a local place if and only if no function expression in the body binds it, nor anything inside one |
| Capture.UseResolves | crates/compiler/src/parse.rs:3674-3680 | through any nesting: a used name gets a local place if and only if some function around it, or it itself, binds the name with no such expression further in; else it is taken from the host |
| Capture.LostCapture | crates/compiler/src/parse.rs:4000-4005 | a function that uses an outer `x` and holds a function expression with an `x` of its own takes the first one from the host |
| Placement.StepMirrors | crates/runtime/src/executor.rs:8275-8305 | a load, store, declaration or change of scope of the machine, which binds by name, is the runtime's operation on slots and names: the same value is read, and the frames of both hold the same bindings again |
| Placement.LocalLoads | crates/core/src/lib.rs:4552-4570 | for a name with a local place that is bound, the machine's load by name is the slot lookup if the name has a slot, and the lookup by name if it has none |
| Externs.Context.WithExternals | crates/compiler/src/parse.rs:213-229 | the initial slots are a bijection onto 0 to n-1 if and only if the given names are distinct; otherwise some slot is nobody's |
| Externs.Context.MarkExtern | crates/compiler/src/parse.rs:281-286 | exactly names that are neither local nor implicit globals get a slot; no entry moves; a bijection stays one and a gap is never filled |
| Externs.Context.MergeChildExterns | crates/compiler/src/parse.rs:260-266 | the same for all of an inner function's names, in whatever order they come |
| Externs.Context.IntoModule | crates/compiler/src/parse.rs:232-238 | the list is the inverse of a bijection; in general a place holds a name of that slot or is empty, and nothing comes out exactly when a slot lies outside |
| Externs.EnsureExtern | crates/compiler/src/parse.rs:3706-3718 | finds the name or appends it, distinct names stay distinct |
| Externs.RemapExternalOperands | crates/compiler/src/compiler.rs:145-174 | succeeds if and only if the new names are distinct, none of the old ones is missing and every operand is in range; then every operand denotes the same name |
| Externs.WithExternSlots | crates/compiler/src/compiler.rs:120-139 | an empty list changes nothing, another length is an error, and success is exactly the same |
| Externs.ServesIsPermutation | crates/compiler/src/compiler.rs:145-174 | for equal lengths, the new list is accepted if and only if it is a permutation of the old one, and then the old one serves it in turn |
| Externs.ThereAndBack | crates/compiler/src/compiler.rs:145-174 | code renumbered to other slots and back is the code it was |
| Externs.RoundTrip | crates/compiler/src/compiler.rs:120-139 | after an accepted renumbering, the one back cannot fail and restores code and slots |
| ModuleOrder.Visitor.VisitFile | crates/cli/src/main.rs:1906-1928 | a depth-first visit ends on any graph, lists each reached file once and nothing that the file does not lead to, and puts an import before its importer unless the import leads back to it; the file's imports take their turns: what is added before one of them is led to by it or an earlier one |
| ModuleOrder.OrderedFiles | crates/cli/src/main.rs:1803-1812 | every source exactly once, imports first except along cycles, and the entry and then the names taken in turn: what comes before a name is led to by it, an earlier one or the entry |
| ModuleOrder.BeforeEntry | crates/cli/src/main.rs:1803-1812 | every file listed before the entry is led to by it |
| ModuleOrder.ImportsInTurn | crates/cli/src/main.rs:1906-1928 | of two imports of a file, the later one is added first only if some import up to the earlier one leads to it |
| ModuleOrder.RuntimeExecutionOrder | crates/cli/src/main.rs:1814-1821 | the same list with only the entry moved to the end |
| ModuleOrder.AcyclicImportFirst | crates/cli/src/main.rs:1906-1928 | without cycles every import comes before its importer |
| Paths.NormalizeVirtualPath | crates/cli/src/main.rs:2517-2530 | the loop computes the normal form |
| Paths.NormalTwice | crates/cli/src/main.rs:2517-2530 | normalising twice is normalising once |
| Paths.NormalLaws | crates/cli/src/main.rs:2517-2530 | empty pieces and dots make no difference, nor does a name with two dots behind it or two dots at the root, and what is left then stays as it is |
| Paths.RelativeImportSpecifier | crates/cli/src/main.rs:2485-2515 | the loops compute the relative specifier |
| Paths.RelativeRoundTrip | crates/cli/src/main.rs:1852-1872 | the specifier of any path, resolved against the directory of any normal one, is the normal form of that path |
| Paths.FewestUps | crates/cli/src/main.rs:2485-2515 | no list of pieces that leads from the directory to the file goes up less often than the specifier does |
| Paths.SpecifierRelative | crates/cli/src/main.rs:2510-2514 | every specifier begins with a dot, and it is a relative one, dots and a slash first, unless it goes straight down to a name that begins with a dot |
| Paths.HiddenFile | crates/cli/src/main.rs:2510-2514 | from `a.js` the file `.b.js` beside it is printed as it is, not as `./.b.js` |
| SourceMap.JsonString | crates/compiler/src/compiler.rs:1153-1168 | the printer's loop computes the quoted form that JsonText.PrintedIsJson is about |
| JsonText.PrintedIsJson | crates/compiler/src/compiler.rs:1153-1168 | every string is printed between quotes as one element for each character: an unescaped character that is no quote, backslash or control below 0x20, or an escape that the table of section 7 of RFC 8259 maps to it |
| SourceMap.ParseJsonString | crates/cli/src/main.rs:1984-2019 | the parser's loop computes the parsed form that JsonText.ParsedJson is about |
| JsonText.ParsedJson | crates/cli/src/main.rs:1984-2019 | every JSON string, whatever escapes of that table it uses, is read as the code points of its elements, a half of a surrogate pair as the replacement character |
| JsonText.OtherLetters | crates/cli/src/main.rs:1984-2019 | a backslash before any letter that is not in the table is an error |
| JsonText.OtherDigits | crates/cli/src/main.rs:1984-2019 | so is a `u` without four hexadecimal digits, a plus sign in the first place apart |
| JsonText.PairIsLost | crates/cli/src/main.rs:1984-2019 | the two halves of a pair are read as two replacement characters, where RFC 8259 has one character |
| SourceMap.ParsedQuoted | crates/cli/src/main.rs:1984-2019 | parsing inverts printing for every string, wherever it stands |
| SourceMap.SourceRoundTrip | crates/cli/src/main.rs:1967-1982 | recovery gives back every source text for every file name, also one that holds the very key that is searched for |
| SourceMap.RecoverSource | crates/cli/src/main.rs:1967-1982 | the search loops compute the recovery function |
| PcMap.PushPcRange | crates/compiler/src/compiler.rs:625-652 | keeps the runs consecutive, true, gapless in bytes and unmergeable |
| PcMap.PushOpRange | crates/compiler/src/compiler.rs:654-666 | the same for mnemonics |
| PcMap.BuildTable | crates/compiler/src/compiler.rs:547-585 | the written table packs one true entry for each instruction, with tables of distinct spans and mnemonics |
| PcMap.FrameOfInstruction | crates/cli/src/main.rs:2181-2207 | looking up any instruction gives its own function, span and mnemonic and the bytes of its run without a gap; beyond the last one nothing |
| PcMap.FrameBytes | crates/cli/src/main.rs:2181-2207 | in terms of the instructions' byte ranges themselves |
| PcMap.SpansInOrder | crates/compiler/src/compiler.rs:723-737 | the first instruction gets the first span and later ones never an earlier span |
| PcMap.EverySpanUsed | crates/compiler/src/compiler.rs:723-737 | with as many instructions as spans or more, every span is some instruction's |
| PcMap.SpansDiffer | crates/compiler/src/compiler.rs:723-737 | with as many spans as instructions or more, no two instructions share one |
| PcMap.PackingIsUnique | crates/compiler/src/compiler.rs:625-652 | two such packings of the same entries are equal |
| FuzzCoordinator.Coordinator.HandleMessage | tests/Fuzz.js:504-553 | the handler does to the coordinator's state and records what the transition function says |
| FuzzCoordinator.Coordinator.HandleExit | tests/Fuzz.js:559-566 | the same for exits |
| FuzzCoordinator.Coordinator.CheckWorkerLiveness | tests/Fuzz.js:398-422 | the same for a watchdog tick over all live workers |
| FuzzRuns.BooksBalance | tests/Fuzz.js:1093-1108 | in every run the remaining count is the number of live workers, it resolves only when none is left, counts by status, by worker and by hash each add up to the checked cases, and the hashes are those of the records |
| FuzzRuns.SettlesOnce | tests/Fuzz.js:345-352 | a run settles at most once, and nothing is counted or recorded afterwards |
| FuzzRuns.AllGoneSettles | tests/Fuzz.js:377-382 | once every worker's exit has been handled, the run is settled |
| FuzzOutcomes.OutcomeExplained | tests/Fuzz.js:504-567 | a run is resolved if and only if every worker is excused: it said that it was done, its thread ended with code 0 or after the watchdog had given up on it, or the watchdog saw the thread gone; any other outcome is there if and only if its own event came first: a failed message, another exit code of a worker not given up on, a broken thread, a signal |
| FuzzOutcomes.FailsSettles | tests/Fuzz.js:548-566 | a session that has not ended ends with a bad outcome exactly at such an event, a non-zero exit as that worker's exit with that code |
| FuzzOutcomes.StartedWhenReady | tests/Fuzz.js:507-522 | in every run the workers are started if and only if all of them have reported ready |
| FuzzOutcomes.StopFlagSet | tests/Fuzz.js:545-547 | the stop flag is set by a request or a signal, and by a case message if and only if the records with errors have reached the limit |
| FuzzOutcomes.WatchdogRuns | tests/Fuzz.js:384-396 | the watchdog runs exactly from a request to stop until the end |
| FuzzOutcomes.GivesUp | tests/Fuzz.js:398-450 | it gives up on a worker exactly at a tick that finds the thread running, nothing heard for an idle check and a case running for longer than the limit; the case is then on record as an internal failure |
| FuzzOutcomes.MessageSeen | tests/Fuzz.js:352-376 | what is known of a worker comes from its last message: when it was handed over, which case it started and when |
| FuzzRuns.NoCaseTwice | tests/Fuzz.js:424-450 | no case is recorded twice, even if its worker is written off as stuck and reports later; each worker's records are its cases in order without a gap; provided a tick sees a thread gone only after its messages were handed over |
| FuzzRuns.EarlyTick | tests/Fuzz.js:398-405 | without that proviso there is a run that records a case twice |

## Left out

- FuzzRuns.NoCaseTwice: relies on the platform handing over a thread's messages before its thread id reads -1; EarlyTick shows that the claim needs it.
- Departures.SwitchScope: the converse is stated for a chosen clause that declares one name with a literal and leaves; a `switch` whose declarations are never reached agrees with the standard although it declares.
- Semantics.ExecSwitch: in the standard's reading a case block without declarations gets no frame; no read or write can tell one without bindings from none (Departures.EmptyScope), but the model's host, which sees the whole heap, could count frames.
- Placement.StepMirrors: names of locals are placed in slots or under names by a given assignment; which locals the compiler marks as captured by inner functions is not derived. Names that no frame binds go to the host, where the runtime reads `undefined`, writes the current frame, or, for names taken from the host, also keeps a copy there.
- Externs.Context.MarkExtern: the extern slots and local names of a lowering context are modelled on a class of their own, apart from the instruction list of LoweringContext.Context.
- SourceMap.SourceRoundTrip: texts are sequences of characters; the byte offsets by which the original moves along UTF-8 text are not modelled.
- PcMap.BuildTable: instruction byte ranges are an input; the encoder that computes them is not part of this model.
- PcMap.EverySpanUsed: for products of instructions and spans that fit in a machine word; beyond that the original saturates, and SpansInOrder still holds.
- Meaning of `try`: what its parts mean is stated for each part by itself (TryMeaning.TryRecovered), for parts without a `try` or a jump out of them; how the executor runs one part after another is not modelled, the machine stops at the markers, and the theorems on whole bodies exclude `try`, because its parts are lowered with registers that start again at 0 and an empty target stack, so that a `break` out of one becomes a marker.
- FunctionMeaning.FunctionDepths: excludes `try`, for the executor pushes a catch frame that the static count does not see.
- `for`-`in` and `for`-`of`: their lowering opens scopes that it does not close, so depth balance does not hold there.
- Member assignment, compound assignment to members, destructuring, classes, generators, async functions, templates, spread, optional chaining: not lowered in the model; names are the only assignment targets.
- `delete` and `typeof`: `delete` is lowered to a constant and `typeof` of a name suppresses the error of the load before it; both are outside the unary operators modelled.
- Temporal dead zone and assignment to `const`: in both readings a binding is made when its declaration runs, and reading or writing it does not depend on how it was declared; so `Compile.CompileBody` and `Readings.ReadingsAgree` say nothing of the ReferenceError and TypeError that ECMA-262 prescribes there, which the code does not raise either.
- Function calls: a call is one step of the host, direct `eval` included; entering a function's body and its parameters are not modelled, only where the `var`s of a body are bound (Departures.VarsOnEntry).
- Block-scoped function declarations, `with`, `debugger`: not among the statements.
- Debug operations stay in the written bytecode as steps that do nothing.
- Bytecode encoding, seeds, checksums and most of the executor: only the linear machine's steps.
- Import analysis and name resolution of modules: the import graph is an input.
- Process handling, archiving and program generation of the fuzz runner: workers may begin, end and fail at any time, which covers every schedule of the time budget and the stop flag.
- Source spans collected from the syntax tree: the list of spans is an input to the table.
