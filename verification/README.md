# Verification of the Lox compiler, interpreter and collectors

A Dafny model of a one-pass Lox compiler, the stack interpreter that runs its byte code, the
byte code list used to rewrite that code, the mark-sweep collector, the young generation's
allocator, the monitors threads use, and the tables and graph walks underneath, with proofs of
what these parts promise. `dafny verify dfyconfig.toml` checks all of it.

## How the project is built up

**Compiler and interpreter.** `Syntax` holds tokens and syntax trees, `Semantics` what a program
means: variables are looked up by name, scopes end with their block, a monitor is left in
whatever way its statement is left, and a panic or a wait for a monitor the thread itself holds
is an outcome. `fuel` only bounds nested rounds and calls, so that programs that never end have a
meaning too; no result depends on a bound. `Parser` and `CodeGen` say, separately, which tree a
text is and which code a tree gets. The class `Compiler.Compiler` works as the source does: one
pass over the tokens, bytes appended to a growing chunk, forward jumps patched afterwards, the
`for` increment parked in a second buffer, locals and monitors kept in tables. It is proved to
append the code that `CodeGen` gives to the tree that `Parser` reads, and to fail exactly when
one of them does. `Machine` is the interpreter as a step function over frames, stack memory and
`esp`; the class `Vm.VmThread` is the same interpreter over a stack array of 256 cells and an
array of frames, proved to do what `Machine` does round by round. `Simulation` relates meaning
and machine for every kind of expression and statement, `Correctness` states the result for whole
packages, `Balance` that monitors nest in every run. `MonitorFlow` says it of the code alone: it
labels every instruction with the monitors held there and shows that every edge of the control flow
respects the labels; `MonitorRuns` ties the labels to the frames of every run. `StackDepth` counts
what expression code leaves on the operand stack, `Scopes` says what slots and calls leave alone,
and `EndToEnd` puts text, compiler and interpreter together. What parser and compiler, or meaning and
machine, have in common is pinned by laws that do without it: `Precedence` says which tree a text of
operands and operators is, from the groups of operators alone, and `MeaningLaws` what every kind of
condition, operator, variable, statement and instruction byte comes to.

**Byte code list.** `Instructions` treats a list as a value (instructions whose jumps name an
index); `BytecodeLists` and `BytecodeDecoder` are the linked nodes, the iterator over a chunk and
the records of pending jumps, proved against it. `CompiledLists` says when code that the compiler
emits survives them.

**The rest.** `MarkSweep`, `HashTables`, `MonitorProtocol`, `EdenAllocator`, `BlockWalk`,
`CallGraph` and `Trie` stand on their own. The two concurrent ones are state machines in which any
thread may take the next step.

Preconditions that recur: `PlacedDecls` (assignments are statements or `for` increments, which is
what the language says; calls have at most 255 arguments, the operand being one byte), `Near`
(the distances of the jumps emitted for `if`, `while` and `for` fit their 16 bits, which the compiler
does not check; functions may be longer), `ClearAll` (a tree has no `else` where an inner `if` would
take it: exactly these trees have a text, `Printer.TextIff`).

Five things the source is meant to do it does only under a condition, which is stated exactly: an
expression keeps the stack discipline if and only if it has no assignment inside
(`StackDepth.StackKept`); a probe of the hash table ends if and only if the key is there or a slot is
empty (`HashTables.ProbeEnds`, `HashTables.RunFull`); the walk over blocks visits all of them if and
only if the graph has no circle (`BlockWalk.ForEachBlock`); the iteration over a call graph ends if
and only if the root does not call into a circle (`CallGraph.EndsIff`); and the byte code list keeps
compiled code if and only if no more than 32 forward jumps share a target
(`CompiledLists.FunDecodes`).

Where the code and its comments differ the model follows the code: the opcode numbers in the
comments of `bytecode.h` are off by one from 39 on, and `is_subset_u64_set(a, b)` tests whether b
is a subset of a.

## Model

| member | source | states |
|---|---|---|
| Correctness.CompilerCorrect | src/compiler/bytecode/bytecode_compiler.c:512-704 | For every package the compiler accepts whose assignments are statements and whose jumps fit: the machine ends, panics or blocks with given globals, output and held monitors exactly when the program does; it runs for ever exactly when the program does; it never reaches undefined behaviour; whatever the stack memory held before |
| Correctness.ProgramSim | src/runtime/vm.c:116-182 | The forward half with a progress bound: for every fuel there is a number of rounds after which the machine has done what the program did with that fuel, at least as many rounds as fuel if the program is still going |
| Correctness.RunDetermined | src/runtime/vm.c:116-182 | A run that has ended stays as it ended, however many rounds are added |
| Machine.RunAdd | src/runtime/vm.c:116-182 | Running n rounds and then m more is running n + m |
| Simulation.SimExpr | src/compiler/bytecode/bytecode_compiler.c:945-1026 | The code of an expression pushes exactly its value, leaves frames, locals and lower operands as they were and stops behind its last byte; panics and endless evaluation agree too |
| Simulation.SimStmt | src/compiler/bytecode/bytecode_compiler.c:512-532 | For every fuel, what a statement does is what its code does from its first byte on: if it ends normally the byte behind the last is reached with the same variables, output, residue on the operand stack and monitors; if it returns the frame is left with the value and all monitors exited; if it panics or blocks so does the machine; if the fuel is used up the machine has gone on for as many rounds. The converse is stated for whole packages, by Correctness.CompilerCorrect |
| Simulation.SimIf | src/compiler/bytecode/bytecode_compiler.c:558-589 | Both branches with their patched jumps do what the chosen branch means |
| Simulation.SimRounds | src/compiler/bytecode/bytecode_compiler.c:629-704 | A loop of code, with its exit jump, its increment behind the body and its jump back, does what the rounds of the loop mean, for any number of rounds |
| Simulation.SimFor | src/compiler/bytecode/bytecode_compiler.c:645-697 | A `for` with its own scope, initializer, condition and parked increment means what the statement means |
| Simulation.SimReturn | src/compiler/bytecode/bytecode_compiler.c:542-556 | A return exits every monitor the function holds, last entered first, and then hands its value to the caller |
| Simulation.SimSync | src/compiler/bytecode/bytecode_compiler.c:534-540 | A monitor is entered before its statement and exited after it, also when the statement returns; entering one that is held blocks both source and machine |
| Simulation.SimFun | src/compiler/bytecode/bytecode_compiler.c:430-457 | A compiled function started with its arguments in its slots does what the call means, at any depth of calls |
| MeaningLaws.IfTakes | src/runtime/vm.c:544-557 | An `if` takes its first branch when the condition is `true` and the second for every other value, nil and numbers included |
| MeaningLaws.IfLiteral | src/runtime/vm.c:544-557 | `if (true)` is its first branch and `if (false)` its second, or nothing |
| MeaningLaws.WhileFalse | src/compiler/bytecode/bytecode_compiler.c:629-643 | `while (false)` does nothing |
| MeaningLaws.LoopOver | src/compiler/bytecode/bytecode_compiler.c:629-643 | A loop is over when its condition is anything but `true` |
| MeaningLaws.LoopAgain | src/compiler/bytecode/bytecode_compiler.c:629-643 | While the condition is `true` the body is carried out and then the loop again |
| MeaningLaws.JumpsUnlessTrue | src/runtime/vm.c:544-557 | The machine's conditional jump, byte 22, pops its condition and goes on behind its operand for `true`, and by the distance in the operand, low byte first, further for every other value |
| MeaningLaws.OperatorGives | src/runtime/vm.c:85-97 | What every binary operator gives on every two values: equality of values, the given addition, arithmetic and comparisons on numbers with `>=` and `<=` as negations, a panic on anything else |
| MeaningLaws.OnNumbers | src/runtime/vm.c:85-97 | The same for two number literals |
| MeaningLaws.PrefixGives | src/runtime/vm.c:584-602 | Only numbers are negated and only `true` and `false` have an opposite; all else panics |
| MeaningLaws.NameMeans | src/compiler/bytecode/bytecode_compiler.c:1248-1257 | A name means the last local that has it, or else the global, or nil |
| MeaningLaws.AssignChanges | src/runtime/vm.c:301-316 | An assignment changes the variable its name means and nothing else, and panics if there is none |
| MeaningLaws.PrintWrites | src/runtime/vm.c:116-182 | `print` adds its value behind the output and changes nothing else |
| MeaningLaws.SyncHolds | src/compiler/bytecode/bytecode_compiler.c:534-540 | A monitor is entered before its statement and exited after it, also by a return; a held one blocks |
| MeaningLaws.PlainByNumber | src/shared/bytecode/bytecode.h:5-56 | What the bytes 1 to 4, 8, 10, 11 and 38 to 40 do to a running thread: literals, dropping, returning, printing, the end |
| MeaningLaws.BinaryByNumber | src/shared/bytecode/bytecode.h:5-56 | What each byte of a binary operator leaves of its two operands, or that it panics |
| MeaningLaws.PrefixByNumber | src/shared/bytecode/bytecode.h:5-56 | What 9 and 21 leave of their operand, or that they panic |
| MeaningLaws.OperandByNumber | src/shared/bytecode/bytecode.h:5-56 | What the bytes with an operand byte do to constants, locals and globals |
| MeaningLaws.JumpByNumber | src/shared/bytecode/bytecode.h:5-56 | Where the jumps lead, what the 16-bit constant is, low byte first, and which monitor is entered or exited |
| MeaningLaws.Limits | src/compiler/bytecode/bytecode_compiler.c:1122-1133 | Eight monitors, 255 constants and 255 locals of a function, and no more |
| MeaningLaws.TooDeep | src/runtime/vm.c:362-378 | No call succeeds with 65536 frames in use |
| Scopes.CallReplaced | src/runtime/vm.c:335-378 | A call that returns leaves the caller's frame, its locals and all lower memory as they were and replaces callee and arguments by exactly one result, whatever the callee left on the stack; a call that panics or never ends does so in the source |
| Scopes.FunPoints | src/compiler/bytecode/bytecode_compiler.c:1248-1330 | At every point of every compiled function, in nested blocks, loops and branches too, each visible local resolves to its own slot, the callee's is 0, all lie below the local count of the compiled function, and the locals of the blocks around are still visible where they were |
| Scopes.MainPoints | src/compiler/bytecode/bytecode_compiler.c:1248-1330 | The same at every point of a package's own code |
| Scopes.SlotsApart | src/compiler/bytecode/bytecode_compiler.c:1248-1330 | Within one list of declarations, from any context whose locals have distinct names: variables visible before the list keep their slots between any two of its declarations |
| Scopes.DeclsApart | src/compiler/bytecode/bytecode_compiler.c:1289-1298 | No two locals visible at once have one name, since a name that is visible cannot be declared again |
| Shape.DeclsShape | src/compiler/bytecode/bytecode_compiler.c:1157-1202 | Compiling declarations only adds constants and functions, never lowers the maximum of locals, gives back scope depth and held monitors, and counts every monitor and function of the text |
| Shape.ScopeShape | src/compiler/bytecode/bytecode_compiler.c:1320-1330 | Ending a scope gives back exactly the locals declared in it |
| Balance.MonitorsBalanced | src/compiler/bytecode/bytecode_compiler.c:1109-1133 | In every run of a compiled package monitors are exited last in, first out and none is entered while it is open; when the run halts none is held |
| MonitorFlow.PathHeld | src/compiler/bytecode/bytecode_compiler.c:1109-1133 | In labelled code, on every path along the control flow from the entry, the monitors held at an instruction are the instruction's label, whatever the path; the instruction enters none of them, exits the last of them, or returns with none held |
| MonitorFlow.FunLabelled | src/compiler/bytecode/bytecode_compiler.c:534-556 | The code of every function is labelled: each instruction has one list of held monitors, which every edge from another instruction agrees with |
| MonitorFlow.FunPaths | src/compiler/bytecode/bytecode_compiler.c:534-556 | On every path of a compiled function, taken by a run or not, no monitor is entered that the frame holds, the one exited is the last one entered, and at every return none is held |
| MonitorRuns.HeldInRuns | src/runtime/vm.c:116-182 | In every run the monitors held, in the order they were entered, are what the labels say of the frames; a thread waits for itself only at a monitor that a frame further out holds |
| Balance.BalExec | src/compiler/bytecode/bytecode_compiler.c:534-556 | However a statement is left, normally, by return, by panic or not at all, the monitors open are those open before it, or those and inner ones if it was cut off |
| Printer.ParsePrinted | src/compiler/bytecode/bytecode_compiler.c:961-1004 | Parsing a printed expression gives the expression back and stops at the token behind it, for every expression, every precedence it is asked for and every continuation that does not bind tighter |
| Printer.ParseStmt | src/compiler/bytecode/bytecode_compiler.c:512-532 | Parsing a printed statement gives it back and stops behind it, for every statement without an ambiguous `else` |
| Printer.ParseProgram | src/compiler/bytecode/bytecode_compiler.c:169-193 | Parsing a printed package gives the package back |
| Printer.TextIff | src/compiler/bytecode/bytecode_compiler.c:558-576 | A package is what some text is parsed to if and only if none of its `if` statements without `else` ends where an `else` follows |
| Precedence.PrecedenceTree | src/compiler/bytecode/bytecode_compiler.c:119-160 | Operands of any kind, each a literal, variable, call, prefix expression or something in parentheses, with any number of binary operators between them are read as the groups of operators say: the last operator of the loosest group is applied last, everything before it is its left operand and everything behind it its right one |
| Precedence.TwoOperators | src/compiler/bytecode/bytecode_compiler.c:119-160 | Three literals or variables and two operators, token by token: the second operator goes first if and only if it is of a tighter group, `*` and `/` before `+ - % << >> & |`, these before comparisons, and comparisons before `==` and `!=` |
| Precedence.PrefixFirst | src/compiler/bytecode/bytecode_compiler.c:945-959 | A minus or `!` belongs to the operand behind it, before every binary operator |
| Precedence.CallFirst | src/compiler/bytecode/bytecode_compiler.c:471-510 | Arguments in parentheses belong to the operand before them, before every binary operator |
| Precedence.CallBeforePrefix | src/compiler/bytecode/bytecode_compiler.c:945-959 | A prefix operator takes the call, not the callee |
| Precedence.AssignLast | src/compiler/bytecode/bytecode_compiler.c:961-979 | An assignment takes the whole expression behind it, and an operand behind an operator cannot be assigned to |
| Compiler.CompileBytecode | src/compiler/bytecode/bytecode_compiler.c:169-212 | The one-pass compiler returns the program that code generation gives to the parsed text, and an error exactly when the text has no tree or the tree no code |
| Compiler.Compiler.ParsePrecedence | src/compiler/bytecode/bytecode_compiler.c:961-979 | The Pratt loop appends exactly the code of the expression the parser reads at this precedence, moves past its tokens, and fails exactly when there is none |
| Compiler.Compiler.BinarySuffix | src/compiler/bytecode/bytecode_compiler.c:981-1004 | The right operand binds tighter than the operator, and the operator's code comes behind both |
| Compiler.Compiler.FunctionCall | src/compiler/bytecode/bytecode_compiler.c:471-510 | Arguments are compiled in order and counted in the operand of the call |
| Compiler.Compiler.Variable | src/compiler/bytecode/bytecode_compiler.c:719-759 | A name becomes a local slot or a global's constant, read or, where an assignment is allowed, written; a variable in its own initializer and a nested assignment are errors |
| Compiler.Compiler.ResolveLocal | src/compiler/bytecode/bytecode_compiler.c:1248-1257 | The innermost local of a name, or -1 |
| Compiler.Compiler.AddLocalVariable | src/compiler/bytecode/bytecode_compiler.c:1259-1287 | A new slot and the maximum of slots, or an error if the name is visible or the slots are used up |
| Compiler.Compiler.CloseScope | src/compiler/bytecode/bytecode_compiler.c:1324-1330 | The loop that drops locals leaves exactly those of the outer scopes |
| Compiler.Compiler.EmitJump | src/compiler/bytecode/bytecode_compiler.c:578-584 | Three bytes and the place to patch |
| Compiler.Compiler.PatchJumpHere | src/compiler/bytecode/bytecode_compiler.c:586-589 | The jump's operand becomes the length of all code emitted since, no other byte changes |
| Compiler.Compiler.EmitLoop | src/compiler/bytecode/bytecode_compiler.c:699-704 | A jump back over everything since the start of the loop and itself |
| Compiler.Compiler.IfStatement | src/compiler/bytecode/bytecode_compiler.c:558-576 | Appends the code of the `if` tree, its two jumps patched after the fact |
| Compiler.Compiler.WhileStatement | src/compiler/bytecode/bytecode_compiler.c:629-643 | Appends the code of the `while` tree |
| Compiler.Compiler.ForLoop | src/compiler/bytecode/bytecode_compiler.c:645-670 | Appends the code of the `for` tree |
| Compiler.Compiler.ParkIncrement | src/compiler/bytecode/bytecode_compiler.c:692-697 | The increment is compiled into a buffer of its own; the bytes so far do not change, the constants it adds stay |
| Compiler.Compiler.VarDeclaration | src/compiler/bytecode/bytecode_compiler.c:352-404 | Appends the code of the declaration, as a local inside blocks and as a global outside |
| Compiler.Compiler.ReturnStatement | src/compiler/bytecode/bytecode_compiler.c:542-556 | Appends the value, the exits of all held monitors and the return, in the order the two forms use |
| Compiler.Compiler.EmitExitAllMonitors | src/compiler/bytecode/bytecode_compiler.c:1114-1120 | Exits for all held monitors, the last entered first |
| Compiler.Compiler.SyncStatement | src/compiler/bytecode/bytecode_compiler.c:534-540 | Appends enter, statement and exit of a fresh monitor, and an error for the ninth of a function |
| Compiler.Compiler.FunctionDeclaration | src/compiler/bytecode/bytecode_compiler.c:414-457 | Compiles the function with tables of its own and appends what makes its value, and its name outside blocks |
| Chunks.Chunk.Write | src/compiler/bytecode/chunk/chunk.c:26-30 | Appends a byte to the contents, growing the array when it is full |
| Chunks.Chunk.PatchU16 | src/compiler/bytecode/bytecode_compiler.c:586-589 | Two bytes of the contents become the operand, all others stay |
| Chunks.Chunk.StartNewContext | src/compiler/bytecode/chunk/chunk.c:40-53 | Sets the code aside and begins an empty buffer |
| Chunks.Chunk.RestoreContext | src/compiler/bytecode/chunk/chunk.c:55-67 | Brings the code set aside back and hands out what was written meanwhile |
| Chunks.Chunk.WriteContext | src/compiler/bytecode/chunk/chunk.c:86-92 | Appends the bytes of a buffer |
| Vm.VmThread.Round | src/runtime/vm.c:116-182 | One round over the arrays is one step of the abstract machine, unless the step is undefined in C |
| Vm.VmThread.RunRounds | src/runtime/vm.c:116-182 | Any number of rounds is that many steps, unless one of them leaves the stack of 256 cells |
| Vm.VmThread.CallFunction | src/runtime/vm.c:362-378 | The new frame's slot 0 is the callee, its unused locals are reserved unwritten, and a full frame array panics |
| Vm.VmThread.ReturnFunction | src/runtime/vm.c:433-448 | The caller's frame comes back and the result replaces everything from the callee's slot up |
| Vm.VmThread.JumpIfFalse | src/runtime/vm.c:544-557 | Pops the condition, stays behind the operand if it is `true`, and otherwise skips as many bytes as the operand says |
| EndToEnd.TextRuns | src/runtime/vm.c:99-114 | Printing a package, compiling its text in one pass and running it does what the package means, endings and endless runs alike |
| EndToEnd.Interpret | src/runtime/vm.c:99-114 | Compiling a text and running it on arrays for a number of rounds: every verdict is what the text means, or names the stack overflow or the rounds as the reason there is none |
| EndToEnd.MisplacedAssignment | src/compiler/bytecode/bytecode_compiler.c:719-759 | An accepted text, an assignment inside `print`, whose run pops below the stack: why assignments have to be statements |
| StackDepth.StackKept | src/compiler/bytecode/bytecode_compiler.c:719-759 | For every expression the compiler accepts: its code leaves one operand and takes none that lies below if and only if it has no assignment; it takes none that lies below, whatever it leaves, if and only if it has no assignment or is one |
| StackDepth.NetEffect | src/compiler/bytecode/bytecode_compiler.c:945-1026 | From every depth: if the code of an accepted expression finds its operands, it leaves the stack deeper by one less the number of assignments in it |
| StackDepth.StepDepth | src/runtime/vm.c:116-182 | The depths counted are those of the interpreter: a step that goes on had as many operands as counted and leaves as many |
| Instructions.ListRoundTrip | src/compiler/bytecode/bytecode_list.c:34-83 | Encoding a list and decoding it gives the list back if and only if its jumps lead the way their opcode says, over distances of 16 bits, with at most 32 forward jumps to one instruction |
| Instructions.CodeRoundTrip | src/compiler/bytecode/bytecode_list.c:168-262 | Decoding well-formed code and encoding it again gives its bytes up to and including the first end-of-file instruction |
| Instructions.SplicedRoundTrip | src/compiler/bytecode/bytecode_list.c:105-116 | A list spliced into another is decoded from its new code with every instruction, operand and jump target kept, if and only if the distances that have grown still fit 16 bits |
| Instructions.OneInstruction | src/shared/bytecode/bytecode.c:10-65 | Every opcode that is no jump decodes with the operand bytes the size table gives it, and the next instruction begins behind them |
| Instructions.DecodedListed | src/compiler/bytecode/bytecode_list.c:168-252 | Well-formed code decodes, to a list whose jumps lead into the list |
| Instructions.OffsetIs | src/compiler/bytecode/bytecode_list.c:74-83 | The offset summed up over the decoded list is the index where the instruction was |
| BytecodeLists.CalculateToChunkIndex | src/compiler/bytecode/bytecode_list.c:74-83 | Gives every node the offset its code will have and changes nothing else |
| BytecodeLists.ToChunk | src/compiler/bytecode/bytecode_list.c:34-72 | The chunk written from linked nodes holds the encoding of their value |
| BytecodeLists.AddInstructions | src/compiler/bytecode/bytecode_list.c:105-116 | Relinking nodes in place splices the values, all jumps still leading to the nodes they led to |
| BytecodeLists.SplicedValue | src/compiler/bytecode/bytecode_list.c:105-116 | The value of spliced nodes is the spliced value, indices of jumps moved |
| BytecodeLists.GetByIndex | src/compiler/bytecode/bytecode_list.c:131-141 | Finds the node whose original offset is asked for |
| BytecodeLists.MarkAsLoopCondition | src/compiler/bytecode/bytecode_list.c:282-292 | Marks the nodes from a place to the next conditional jump, and no others |
| BytecodeDecoder.CreateBytecodeList | src/compiler/bytecode/bytecode_list.c:168-252 | The linked nodes stand for exactly what the code decodes to, forward jumps resolved from the pending records, loops by their offset; and a node is marked as part of a loop condition if and only if a later loop leads back to it or before it with no exit jump between |
| BytecodeDecoder.DecodeAndEncode | src/compiler/bytecode/bytecode_list.c:34-252 | Decoding a well-formed chunk into nodes and writing the nodes gives its bytes up to the first end-of-file instruction |
| CompiledLists.FunDecodes | src/compiler/bytecode/bytecode_list.c:168-262 | The code compiled for a function decodes, all jumps resolved, if and only if no more than 32 of its forward jumps share a target, and then encoding gives all its bytes back |
| CompiledLists.MainDecodes | src/compiler/bytecode/bytecode_list.c:168-262 | The same of the code of a package, up to its end of file |
| CompiledLists.LabelledDecodes | src/shared/bytecode/pending_jump_to_resolve.c:20-35 | The same of any labelled code: decoding finds exactly the labelled instructions, and a jump is lost only to the limit of 32 |
| BytecodeDecoder.ChunkIterator.HasNext | src/compiler/bytecode/chunk/chunk_iterator.c:50-59 | True up to and including the end-of-file instruction |
| BytecodeDecoder.ChunkIterator.Next | src/compiler/bytecode/chunk/chunk_iterator.c:14-21 | Gives the opcode at the current place and moves behind the instruction |
| BytecodeDecoder.PendingJumps.Add | src/shared/bytecode/pending_jump_to_resolve.c:20-35 | Records one more waiting node for an index, and none beyond the 32nd |
| BytecodeDecoder.ResolvePending | src/compiler/bytecode/bytecode_list.c:254-262 | Every recorded node jumps to the node given, no other node changes |
| BytecodeDecoder.WaitingIff | src/shared/bytecode/pending_jump_to_resolve.c:20-45 | The nodes recorded for an index are exactly the first 32 forward jumps that lead there |
| MarkSweep.Collector.Collect | src/runtime/memory/mark_sweep/gc_mark_sweep.c:92-115 | After a collection everything a stack that is looked at holds, every value and name of a global, and everything an object that is left refers to is still there; every object left on a list ends a chain of references that begins at such a value; objects left are unchanged; each list keeps its order, and the freed objects are gone from memory and string pool with their sizes subtracted; the conditions of the next collection are met |
| MarkSweep.Collector.MarkAll | src/runtime/memory/mark_sweep/gc_mark_sweep.c:191-261 | Marking ends, and an object on a list is then marked if and only if a chain of references leads to it from a value on a stack or from a value or name of a global |
| MarkSweep.MarkedIsReachable | src/runtime/memory/mark_sweep/gc_mark_sweep.c:236-261 | When the gray stack is empty, the heap objects that ever entered it are exactly the reachable ones, given that objects off the lists refer only to objects off the lists |
| MarkSweep.PathMarked | src/runtime/memory/mark_sweep/gc_mark_sweep.c:236-261 | Every path of references from a root to a heap object ends in an object that was entered |
| MarkSweep.CountDistinct | src/runtime/memory/mark_sweep/gc_mark_sweep.c:340-349 | No more objects enter the gray stack than there are objects, which bounds the marking loop |
| MarkSweep.Collector.MarkObject | src/runtime/memory/mark_sweep/gc_mark_sweep.c:333-349 | An object enters the gray stack when it is first marked and never again |
| MarkSweep.Collector.MarkRootDependences | src/runtime/memory/mark_sweep/gc_mark_sweep.c:236-261 | The loop over the gray stack ends with every marked object's children marked |
| MarkSweep.Collector.ScanObject | src/runtime/memory/mark_sweep/gc_mark_sweep.c:241-259 | Marks every child of an object, its fields, elements, or a function's name and constants, and nothing that is not reachable |
| MarkSweep.Collector.SweepHeapThread | src/runtime/memory/mark_sweep/gc_mark_sweep.c:270-305 | Relinks one list in place to its marked objects in order, unmarks them, frees the rest and counts their bytes; other lists and words do not change |
| MarkSweep.Collector.AddObjectToHeap | src/runtime/memory/mark_sweep/gc_mark_sweep.c:50-70 | A new object becomes the head of its thread's list, and the conditions of a collection still hold |
| MarkSweep.Collector.SetElement | src/runtime/vm.c:483-534 | Writing an element or field between collections replaces that one value, an index out of range panics and changes nothing, and the conditions of a collection still hold |
| MarkSweep.Written | src/runtime/memory/mark_sweep/gc_mark_sweep.c:263-305 | Any change of an object on a list that keeps its size and refers to existing objects keeps what a collection asks for |
| MarkSweep.BytesFreed | src/runtime/memory/mark_sweep/gc_mark_sweep.c:263-305 | The bytes before minus the bytes after are the sizes of the freed objects, over all threads |
| MarkSweep.MarkBit | src/runtime/memory/mark_sweep/gc_mark_sweep.c:37-42 | Marking and unmarking a word keep the next pointer in it and set the bit as told |
| MarkSweep.LinkNext | src/runtime/memory/mark_sweep/gc_mark_sweep.c:41-42 | Storing a next pointer in a word keeps its mark, and the pointer is read back |
| MarkSweep.Unlink | src/runtime/memory/mark_sweep/gc_mark_sweep.c:270-305 | Redirecting one next pointer takes one object out of a linked list and leaves the order of the others |
| HashTables.ProbeEnds | src/shared/utils/collections/u64_hash_table.c:78-104 | The probe for a key ends if and only if the key is there or some slot is empty |
| HashTables.RoomLeft | src/shared/utils/collections/u64_hash_table.c:35-68 | With fewer than three quarters of the slots in use and tombstones in at most a quarter, a slot is empty |
| HashTables.U64HashTable.Roomy | src/shared/utils/collections/u64_hash_table.c:35-68 | As long as at most a quarter of the capacity was removed since the last growth, any number of keys can be put and every probe ends |
| HashTables.RunFull | src/shared/utils/collections/u64_hash_table.c:35-68 | From an empty table, putting and removing keys 0 to 4 and then putting 5, 6 and 7 fills every slot with a tombstone or an entry: without a limit on removals the table runs full |
| HashTables.OutOfRoom | src/shared/utils/collections/u64_hash_table.c:78-104 | In the table so reached, below the load limit, every probe for an absent key goes on for ever |
| HashTables.PutKeeps | src/shared/utils/collections/u64_hash_table.c:35-51 | Writing an entry where the probe stops keeps the table's order: keys once, no empty slot between a key's home and its slot, and the map with the key added or changed |
| HashTables.RemoveKeeps | src/shared/utils/collections/u64_hash_table.c:62-68 | Leaving a tombstone keeps that order for the map without the key |
| HashTables.Find | src/shared/utils/collections/u64_hash_table.c:78-104 | The probing loop ends at the slot of the key, or at one where it may be put, an earlier tombstone first |
| HashTables.U64HashTable.Get | src/shared/utils/collections/u64_hash_table.c:26-33 | The value that the map has for the key, or nothing; the only demand is that the probe ends: the table has no entry, the key is there, or a slot is empty |
| HashTables.U64HashTable.Put | src/shared/utils/collections/u64_hash_table.c:35-51 | The map with the key added or changed, and whether it was there; the capacity doubles, from 8 on, exactly when one entry more would reach three quarters of it; afterwards a slot is empty if and only if the table grew, or one was empty before and the key was there, a tombstone was reused or two slots were empty |
| HashTables.U64HashTable.Contains | src/shared/utils/collections/u64_hash_table.c:53-60 | Whether the map has the key, under the same demand |
| HashTables.U64HashTable.Remove | src/shared/utils/collections/u64_hash_table.c:62-68 | The map without the key, its slot a tombstone and no other slot changed; it takes no empty slot |
| HashTables.U64HashTable.Grow | src/shared/utils/collections/u64_hash_table.c:106-126 | Rehashing keeps the map, drops all tombstones and leaves room for one more entry |
| HashTables.U64HashTable.Clear | src/shared/utils/collections/u64_hash_table.c:70-76 | The empty map |
| HashTables.TableIterator.Next | src/shared/utils/collections/u64_hash_table.c:138-149 | The next entry, one not returned before |
| HashTables.TableIterator.AllReturned | src/shared/utils/collections/u64_hash_table.c:128-149 | When no entry is left, the keys returned are the keys of the table |
| HashTables.U64Set.Union | src/shared/utils/collections/u64_set.c:86-92 | The union of both sets, if the elements that are new find room; the other set does not change |
| HashTables.U64Set.Difference | src/shared/utils/collections/u64_set.c:46-50 | The difference, for any number of removals, as long as a slot is empty or nothing absent is looked for; no empty slot is taken |
| HashTables.U64Set.IsSubset | src/shared/utils/collections/u64_set.c:52-60 | True if and only if the second set is a subset of the first, wherever the probes end |
| HashTables.U64Set.Clone | src/shared/utils/collections/u64_set.c:39-44 | A new set with the same elements, of any set |
| MonitorProtocol.MutualExclusion | src/runtime/threads/monitor.c:9-28 | In every state of every run, with spurious wake-ups, at most one thread is inside |
| MonitorProtocol.NoLostWakeUp | src/runtime/threads/monitor.c:9-28 | Whenever the monitor is free and a thread sleeps, some thread is on its way to look at the flag or to signal |
| MonitorProtocol.Arrives | src/runtime/threads/monitor.c:9-28 | A thread outside can always begin to enter, one inside can always begin to leave, and these are their only steps |
| MonitorProtocol.FreeIsEntered | src/runtime/threads/monitor.c:9-19 | A thread that finds the monitor free and nobody at its mutex is inside after five steps of its own |
| MonitorProtocol.TakenIsAwaited | src/runtime/threads/monitor.c:9-19 | One that finds it taken sleeps after three, with the mutex given back |
| MonitorProtocol.InsideIsLeft | src/runtime/threads/monitor.c:21-28 | One inside leaves by five steps, after which the monitor is free and any one of the sleepers has been woken |
| MonitorProtocol.WakesOne | src/runtime/threads/monitor.c:21-28 | A signal wakes exactly one of the sleepers, if there is one, and moves no other thread |
| MonitorProtocol.EveryRun | src/runtime/threads/monitor.c:9-28 | Every reachable state keeps the invariant: who owns the mutex, what the flag says, what a thread that saw it may rely on |
| MonitorProtocol.NoDeadlock | src/runtime/threads/monitor.c:9-28 | While nobody is inside and somebody wants in or is leaving, some busy thread can take a step |
| MonitorProtocol.RankFalls | src/runtime/threads/monitor.c:9-28 | Every step of a busy thread lowers a rank |
| MonitorProtocol.SomebodyGetsIn | src/runtime/threads/monitor.c:9-28 | A run of busy threads' steps longer than the rank reaches a state where somebody is inside or nobody is busy |
| EdenAllocator.AllocationSafe | src/runtime/memory/generational/eden.c:29-57 | In every state of every run claims tile the space from its start to the shared pointer and do not overlap, all objects are disjoint, and each lies in its thread's claim |
| EdenAllocator.AllocationDecided | src/runtime/memory/generational/eden.c:29-47 | In every reachable state a thread left alone has its object, in the least number of blocks that hold it, three steps later if these blocks fit what is left, and is refused two steps later, nothing else changed, if they do not |
| EdenAllocator.RefusedOnlyWhenFull | src/runtime/memory/generational/eden.c:33-40 | Under every interleaving a refusal means that the blocks needed do not fit what is left |
| EdenAllocator.RetriesForAClaim | src/runtime/memory/generational/eden.c:33-41 | A swap fails only because another thread claimed blocks since the load |
| EdenAllocator.AllocatesInBlock | src/runtime/memory/generational/eden.c:49-57 | A thread whose own block has room takes the object from there at once; any other begins to claim |
| EdenAllocator.EveryRun | src/runtime/memory/generational/generational_gc.c:168-199 | Every reachable state keeps the invariant behind this |
| EdenAllocator.StepKeeps | src/runtime/memory/generational/generational_gc.c:168-199 | So does every step: load, compare and swap with success or failure, use of the new block, bump, giving up |
| EdenAllocator.ClaimsOrdered | src/runtime/memory/generational/eden.c:29-47 | An earlier claim ends before a later one begins |
| BlockWalk.ForEachBlock | src/runtime/jit/advanced/lox_ir_block.c:10-61 | The walk ends on every graph, visits no block twice, each only after all its predecessors and, but for the start, behind a visited block that leads to it and that the consumer went on from; if predecessors are exact and the consumer always goes on, it visits exactly the blocks all of whose predecessors are visited, and, when every block is reachable from the start, all blocks if and only if the graph has no circle |
| BlockWalk.AllVisited | src/runtime/jit/advanced/lox_ir_block.c:10-61 | If a block were left, the lowest one left would still be pending |
| BlockWalk.VisitedAcyclic | src/runtime/jit/advanced/lox_ir_block.c:34-61 | A walk over all blocks ranks them: by their places in it, every edge leads upwards |
| BlockWalk.NeverVisited | src/runtime/jit/advanced/lox_ir_block.c:34-36 | Blocks each of which has a predecessor among them are never visited |
| CallGraph.EndsIff | src/compiler/inline/call_graph.c:156-187 | The iterator, taken pending entry by pending entry, comes to an end if and only if no circle of calls can be reached from the root |
| CallGraph.AllInOrder | src/compiler/inline/call_graph.c:152-187 | Whenever it comes to an end, it has returned exactly the functions the root calls, each after its callees |
| CallGraph.IterateAll | src/compiler/inline/call_graph.c:136-187 | Unless the root calls into a circle of calls, the iteration ends and returns exactly the root and the functions it calls, directly or not: every call of a returned function leads to one returned before it, and every function but the root is called by a returned one |
| CallGraph.CallGraphIterator.Next | src/compiler/inline/call_graph.c:156-187 | As long as there is a next function one is returned, the illegal-state exit is not reached, and a measure falls |
| CallGraph.CallGraphIterator.PushChildren | src/compiler/inline/call_graph.c:164-171 | Pushes the callees not yet checked, weighs less than the caller, and says whether there was none |
| CallGraph.AllReturned | src/compiler/inline/call_graph.c:152-187 | A list of functions that are each after their callees and holds the root holds all functions called from it |
| CallGraph.RanksOrCircle | src/compiler/inline/call_graph.c:136-187 | A call graph has ranks, as the iteration asks, or functions that all call one of themselves |
| CallGraph.NeverReturned | src/compiler/inline/call_graph.c:156-187 | Functions that all call one of themselves can never be returned after their callees |
| Trie.TrieList.Put | src/shared/utils/collections/trie.c:23-51 | Succeeds exactly on absent keys, which it adds, and leaves the table as it is otherwise; size counts the keys |
| Trie.TrieList.Find | src/shared/utils/collections/trie.c:7-17 | The data put with a key, whatever the case of its letters, or nothing |
| Trie.TrieList.Contains | src/shared/utils/collections/trie.c:19-21 | Whether a key was put with data |
| Trie.TrieList.FindNode | src/shared/utils/collections/trie.c:109-123 | The node as deep on the key's way as there is one |
| Trie.TrieList.ForEachNode | src/shared/utils/collections/trie.c:53-77 | Unless the consumer stops it, visits every non-empty key with data exactly once; a stop ends the walk at once |
| Trie.KeyIs | src/shared/utils/collections/trie.h:9 | Keys are the strings of letters in either case and the characters from '[' to '_' |
| Trie.SameButCase | src/shared/utils/collections/trie.h:9 | Keys share a node exactly when they have, place by place, the same character or the same letter in the other case |
| Trie.SamePath | src/shared/utils/collections/trie.h:9 | Keys share a node exactly when they differ in case only |

## Left out

- Structs, arrays, packages, constants, public names, parallel and inline calls, native functions: not part of the modelled language.
- `and` and `or`: their rules have no precedence and are never taken as infix operators.
- Number representation: values are integers under operations left open; adding any two values may panic, other arithmetic panics on what is not a number.
- Error messages: the source reports the first compile error and ends the process; the model says that there is no program.
- Evaluation order that C leaves open in `addition_vm` and `pc += READ_U16`: operands are taken in push order and the operand is read first.
- Locals beyond 255 of one function: the source overruns its table, the model reports an error.
- Stack overflow: the source does not check it; the abstract machine's memory grows, and the array machine reports where it would leave 256 cells.
- Values a `for` increment leaves: an increment that is not an assignment leaves its value on the operand stack each round, and so does a function declared in a block; the model keeps this residue, which a return discards.
- Profiling, JIT states and safe points inside the interpreter's loop.
- Monitors between threads: the interpreter is modelled with one thread, for which entering a held monitor is an outcome; several threads are the subject of MonitorProtocol.
- Balance.MonitorsBalanced: speaks of runs; MonitorFlow.FunPaths speaks of all paths through the code.
- The operands of the explicit monitor opcodes, adding a single instruction, unlinking one and finding the first of a byte code list.
- The union of operand fields in a list node is modelled as separate fields; a pair of bytes shares the 16-bit operand, as in the source.
- The stop-the-world handshake, the list of terminated threads and the trigger of a collection: the collector runs alone, on root values passed in.
- The names under which a struct instance keeps its fields: the source marks the values only, and so does the model, which holds fields in a row.
- The 64-bit word of an object is a number below 2 to the 64, its mark the highest bit, written with division and remainder.
- Allocation failure, everywhere.
- A table's capacity mask is a remainder by the capacity, which is a power of two in the source.
- HashTables.U64Set.Union: asks that no element is new, that the next put grows the table, or that there are more empty slots than new elements or tombstones in at most a quarter of the slots; less can do when probes reuse tombstones or growth comes in time.
- A set minus itself or united with itself: the source iterates the table that it changes.
- Intersection of sets, whose loop bound shrinks while it removes, and the 8-bit size of a set.
- Values for missing keys are an option where the source returns NULL.
- Weak memory: the steps of MonitorProtocol and EdenAllocator are taken one after another.
- EdenAllocator: after a claim fails the thread waits at Full; the collection that would follow is not part of this model.
- Copying and compacting collectors, card tables and bitmaps.
- The consumer of a block walk is the set of blocks behind which it goes on; options other than the walk without repetition are left out.
- CallGraph.IterateAll: is asked only where it ends; CallGraph.EndsIff says that it does not where the root calls into a circle.
- Building the call graph, inlining, dominators, SSA and code generation for x64.
- Trie.TrieList.Put: keys are made of characters from 'A' to '_' after folding, since others would leave the node's table; freeing a trie is left out.
