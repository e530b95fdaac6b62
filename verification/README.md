# A verified model of the IR backend

This project models the compiler backend that turns the textual intermediate
representation (IR) into x86-64 assembly: lexer, parser and printer, the lifetime
analysis, the elimination of dead blocks, and the code generator with its register and
frame allocation. It proves that they do what they are for.

Where it starts and what it builds up to:

- `Ir`, `IrSemantics`: the IR and what IR functions over 64-bit integers compute,
  calls, jumps and memory included.
- `Machine`, `Conditions`: the assembly nodes as they are printed, and a machine that
  runs them: fifteen registers, rsp, rbp, the flags, and memory in eight-byte cells.
- `Storage`, `Lowering`: register cells, locations of names and lowering of every
  instruction as functions of the storage state; `Generator` is the code generator in
  its own form, a context object changed in place by methods and loops, proved to do
  exactly what these functions say.
- `Lifetime`, `DeadBlocks`, `Phi`, `Peepholes`: the passes around it, with their loops.
- `Reaching`, `Liveness`: where control can go, which names a run may still read, and
  exactly when the drops of the lifetime analysis are right.
- `Lexer`, `Parser`, `Emitter`, `RoundTrip`, `ReadBack`: text to IR and back; `Printed`, what
  printing loses; `Accepted`, what any accepted text looks like.
- `Ownership` to `Correctness`: the simulation proof. At every instruction boundary each
  name still needed has its IR value in the location the generator maps it to; calls,
  recursion and loops included, a compiled function returns what the IR returns.
- `Admissible`: a condition on the IR alone under which generation is safe.
- `Footprint`: the stack that admissible functions take.
- `Pointers`, `Accesses`, `Sizes`: the addresses that calls pass, the bytes that loads and
  stores access, and the sizes of values and operands, for all sizes.
- `Pipeline`: elimination, analysis and generation together, and the whole way from text to
  machine runs.
- `Fibonacci`, `CompiledExample`: the repository's example with i64 for i32, from its text to
  compiled code that returns Fibonacci numbers. `Factorial`: a loop that is compiled
  correctly. `Strings`, `HelloWorld`: global strings from the text to the call that passes them.
- `Departures`, `Rounds`, `Crowded`: where the generator does not do what an instruction or
  a function means, with the programs that show it.

What the code gets right only on a condition is proved with that condition, and these are
proved exact, for all inputs and both ways: where the operands of arithmetic are, the name
that a result replaces, comparisons, stores, loads, selects, the order in which arguments
are set up, drops of names that control comes back to, fall-through into removed blocks,
fall-through into and out of a phi block, zero movs printed as xor, and what the register
search takes. The static condition of `Admissible` puts these together for whole functions;
it is sufficient and not exact. Its bound of two held names is sharp.

The condition codes are those of the Intel 64 and IA-32 Software Developer's Manual,
Volume 1, Appendix B; the argument registers are the first three of section 3.2.3 of the
System V AMD64 ABI.

`dafny verify dfyconfig.toml` checks the whole project. `Evaluation` holds steps of
generation and of runs that the worked programs share.

## Model

| member | source | states |
|---|---|---|
| `Pipeline.BackendIsCorrect` | src/backend/codegen/codegen.cpp:31-111 | for admissible programs: if a function returns v over calls that nest at most so deep, the function compiled after elimination and analysis comes back to its caller with v in rax, rsp, rbp and the caller's memory as they were, and only rax and argument registers changed, from every machine state with the largest activation of stack for each nested call; loops take no more |
| `Pipeline.AdmissibleStack` | src/backend/codegen/codegen.cpp:31-111 | that stack is at most, for each nested call, 32 bytes and the most that a function allocates |
| `Pipeline.CompiledSourceIsCorrect` | src/backend/interface.cpp:24-41 | from text to machine: if a text parses to functions with distinct names that are admissible once analyzed, and one of them, as parsed, returns v, then calls of what the driver makes of the text come back with v in rax and the caller's state kept, from every machine state with that stack |
| `Pipeline.AdmissibleSourceCompiles` | src/backend/interface.cpp:24-41 | such a text compiles |
| `Pipeline.SameRun` | src/backend/ir_analyzer/scope_analyzer.cpp:27-42 | the flags the lifetime analysis attaches change nothing in what IR functions compute |
| `Pipeline.AdmissibleProgramsLink` | src/backend/codegen/codegen.cpp:26-28 | a program whose functions meet the static condition compiles function by function, safely |
| `Pipeline.CompileOne` | src/backend/ir_analyzer/ir_analyzer.cpp:8-14 | analysis then generation of a function: it succeeds if and only if the function with exactly its last mentions flagged compiles, and gives that compilation |
| `Pipeline.CompileSource` | src/backend/interface.cpp:24-41 | the driver from text to assembly: it succeeds if and only if the text parses and every function of it compiles once analyzed, and gives the parsed root and those compilations in order |
| `Strings.DeclaredNames` | src/backend/codegen/codegen.cpp:14-28 | for every text of global strings, extern functions and functions: a name is in the set that the driver passes if and only if a global string of the text declares it |
| `Strings.DeclaredStringsArePassed` | src/backend/codegen/codegen.cpp:14-28 | a text whose function passes strings that the text declares to a call compiles, and its code reaches the call with the address of the symbol of each string in its argument register, from every machine state in which the symbols have addresses |
| `Strings.PassingCompilesTo` | src/backend/codegen/instructions.cpp:190-230 | what such a function is compiled to, node by node, with no frame and nothing saved |
| `HelloWorld.HelloIsWritten` | examples/hello_world.ir:1-7 | the text of the example, line by line, is a global string, an extern function and a function as they are written by hand |
| `HelloWorld.HelloPassesItsString` | examples/hello_world.ir:1-7 | that text compiles, and rdi holds the address of the symbol msg when puts is called |
| `CompiledExample.ExampleParses` | examples/fibonacci.ir:1-17 | the text of the example, line by line with i64 for its i32, parses to main and fib |
| `CompiledExample.SourceIsWritten` | examples/fibonacci.ir:1-17 | that text is main and fib as functions are written by hand, with an empty line between them and no label before the entry blocks |
| `CompiledExample.ExampleCompiles` | examples/fibonacci.ir:1-17 | that text compiles |
| `Fibonacci.FibComputes` | examples/fibonacci.ir:6-17 | fib, with i64 for i32, computes Fibonacci numbers modulo 2^64 for every argument, over calls that nest n deep |
| `Fibonacci.ExampleAdmissible` | examples/fibonacci.ir:1-17 | both functions, with i64 for i32, meet the static condition, calls under register pressure included |
| `CompiledExample.CompiledFibonacci` | examples/fibonacci.ir:6-17 | whatever the driver makes of that text returns the n-th Fibonacci number modulo 2^64 from fib, from every machine state with 32 n + 8 bytes of stack below rsp, which there can be for n below 2^59 |
| `CompiledExample.CompiledMain` | examples/fibonacci.ir:1-4 | and 55 from main, with 360 bytes of stack |
| `Factorial.FactorialAdmissible` | src/backend/ir_analyzer/scope_analyzer.cpp:16-25 | this loop meets the static condition: what its rounds read again is mentioned below it |
| `Factorial.CompiledFactorial` | src/backend/codegen/codegen.cpp:31-111 | the compiled loop returns the factorial of n modulo 2^64 for every n above 0, from every machine state with 56 bytes of stack |
| `Correctness.CompiledCallsReturnResults` | src/backend/codegen/codegen.cpp:31-111 | a call of a safely lowered function over any finite tree of calls, recursion and loops included, returns the IR result and keeps the caller's registers and memory |
| `Correctness.FunctionSimulated` | src/backend/codegen/codegen.cpp:58-98 | entered with its arguments in the argument registers, a compiled function returns what the IR returns to the address on the stack |
| `Correctness.BodySimulated` | src/backend/codegen/codegen.cpp:58-98 | the same from any point of a body at which the machine represents the names still needed |
| `Correctness.TransferExecutes` | src/backend/codegen/instructions.cpp:98-132 | a lowered jump or branch takes the jump that the IR takes, forward or back, and the names that may still be read are where the label expects them |
| `Correctness.LabelRepresents` | src/backend/codegen/instructions.cpp:98-132 | at the label of a safe jump, back edges included, the machine represents an environment that has all values a run may still read |
| `Liveness.RunKeeps` | src/backend/ir_analyzer/scope_analyzer.cpp:7-43 | a run reads live names only: with all others changed or missing, the function returns the same |
| `Correctness.RetReturns` | src/backend/codegen/asmgen/asm_nodes.cpp:293-307 | a ret in a body restores saved registers, rbp and rsp and returns to the caller's address |
| `Correctness.CallReturns` | src/backend/codegen/asmgen/asm_nodes.cpp:288-291 | when the callee returns, control is behind the call and all but rax and argument registers is as before |
| `Correctness.TargetFound` | src/backend/codegen/codegen.cpp:44-60 | a label is found one block further than in the IR, behind the stack-save block |
| `Calling.CallSetsUp` | src/backend/codegen/instructions.cpp:196-224 | set-up, vacating rax and clearing it run, and leave arguments loaded, any mix of integers, pointers and global strings, and every name needed afterwards outside rax, the argument registers and the flags |
| `Calling.CallKeepsValues` | src/backend/codegen/instructions.cpp:196-228 | a callee that changes only rax and its argument registers leaves every name needed afterwards with its value |
| `Calling.CallReaches` | src/backend/codegen/instructions.cpp:226-229 | after the call the result is in rax and is mapped there |
| `ArgumentSetup.ArgumentsAreAParallelMove` | src/backend/codegen/instructions.cpp:196-218 | argument register i ends up with what operand i passed before: an integer its value, a pointer to an allocation the address at which it starts, a global string the address of its symbol, for all i, any mix and any overlap; and every name needed after the call keeps its value at its possibly new location outside the argument registers |
| `ArgumentSetup.ArgumentLoads` | src/backend/codegen/instructions.cpp:196-218 | the same for one argument, over those already loaded |
| `Pointers.AddressesArePassed` | src/backend/codegen/instructions.cpp:200-208 | whatever a call passes besides, and from whatever state its set-up runs: if no vacated value goes to a loaded argument register, then at the call the register of every pointer to an allocation holds the address at which the allocation starts, that of every global string the address of its symbol, and the frame and all memory above it are as before |
| `Pointers.StoredIsPassed` | src/backend/codegen/instructions.cpp:200-208 | a store through a pointer, and then a call that passes the pointer: the value is in memory at the address in the argument register |
| `Pointers.AddressesDiffer` | src/backend/codegen/valuegen.cpp:23-33 | in the frame of a single-assignment function the addresses of two names are apart by the bytes of the lower one, so pointers to two allocations are different |
| `Pointers.StringsAreNotStored` | src/backend/codegen/asmgen/asm_nodes.cpp:120-122 | a store of one global string through another does nothing, whichever they are: operands that are symbols count as equal |
| `Pointers.GlobalReads` | src/backend/codegen/context/value_reference.cpp:45-60 | the operand of a declared name that is not in use reads as the address of the symbol of that very name, and has the size of a pointer |
| `Simulation.VacateKeepsValues` | src/backend/codegen/dataflow.cpp:18-39 | vacating a register keeps every needed name's value, writes no register but the new home and memory only in a new slot |
| `Simulation.OperandReads` | src/backend/codegen/context/value_reference.cpp:16-33 | an integer operand is generated as an operand that reads as its value |
| `Stepping.InstructionSimulated` | src/backend/codegen/codegen.cpp:62-97 | drop, generate, drop, erase, clean up, map: from a state that represents the names read or needed, the emitted nodes end in one that represents the names needed later, the result included |
| `Stepping.OpDone` | src/backend/codegen/codegen.cpp:113-117 | the same for the generation step alone, over all kinds of instruction |
| `Stepping.AllocateDone` | src/backend/codegen/instructions.cpp:26-37 | allocate gives the result a fresh part of the frame, clear of all others |
| `Stepping.StoreDone` | src/backend/codegen/instructions.cpp:39-53 | store writes the value to the allocation and to nothing else |
| `Stepping.LoadDone` | src/backend/codegen/instructions.cpp:55-75 | load leaves the stored value in a register that no needed name is in |
| `Stepping.IcmpDone` | src/backend/codegen/instructions.cpp:77-96 | after icmp the flags hold the IR outcome under the condition of the result |
| `Stepping.ArithDone` | src/backend/codegen/instructions.cpp:159-188 | arithmetic leaves the IR result in the dominating operand's register, also when operands changed places |
| `Stepping.SelectDone` | src/backend/codegen/instructions.cpp:330-371 | mov and cmov leave the operand that the comparison selects |
| `Settling.SettleKeeps` | src/backend/codegen/codegen.cpp:76-97 | dropping, erasing, cleaning up and mapping the result keep needed names in place and apart, and add the result |
| `Generation.InstKeepsGood` | src/backend/codegen/codegen.cpp:62-98 | every instruction keeps the storage invariant: needed names owned or parameters in place, registers and slots apart |
| `Generation.BlocksStartGood` | src/backend/codegen/codegen.cpp:58-98 | the storage invariant holds at the start of every block of a safely lowered function |
| `Admissible.AdmissibleFunctionsAreSafe` | src/backend/codegen/codegen.cpp:31-99 | kinds of names, at most two names held where a register is searched, dominating operands used for the last time, no call between a jump and its label, and back edges only where the names live at the label are in use there and mentioned further down: such a function compiles and every step of its generation is safe |
| `Admissible.AdmissibleIsAnalyzed` | src/backend/ir_analyzer/scope_analyzer.cpp:27-42 | an admissible function has the flags that the analysis attaches to its code |
| `Footprint.AdmissibleFootprint` | src/backend/codegen/asmgen/asm_nodes.cpp:220-241 | the frame of an admissible function is exactly what it allocates, nothing is spilled, and it saves no register but rbx and rcx |
| `Admissible.InstLowersShaped` | src/backend/codegen/codegen.cpp:62-97 | an admissible instruction is lowered, and the storage has exactly the statically computed names, kinds and owners afterwards |
| `Admissible.LowFree` | src/backend/codegen/valuegen.cpp:46-53 | while at most two names are held, the search finds rax, rbx or rcx |
| `Admissible.EmptyShaped` | src/backend/codegen/dataflow.cpp:18-39 | while at most two names are held, a vacated name moves to rax, rbx or rcx |
| `Admissible.BlocksAgree` | src/backend/codegen/codegen.cpp:58-98 | over blocks without calls no needed name changes its location |
| `Crowded.SearchFindsExactly` | src/backend/codegen/valuegen.cpp:49-53 | the search finds a register if and only if it has no owner and all registers before it have |
| `Crowded.SearchStaysBelow` | src/backend/codegen/valuegen.cpp:49-53 | while k names are held, the search finds one of the first k + 1 registers |
| `Crowded.ParameterLostExactly` | src/backend/codegen/valuegen.cpp:49-53 | a parameter without owner loses its register to the next search if and only if all registers before it have owners: rax, rbx and rcx for rdx |
| `Crowded.ThreeNamesCrowd` | src/backend/codegen/valuegen.cpp:35-56 | the bound of two is sharp: a function, flagged by the analysis, that holds three names loads a fourth into rdx; compiled it returns 1, from all machine states, where the IR returns its third parameter |
| `Departures.ArithmeticComputesExactly` | src/backend/codegen/instructions.cpp:170-187 | lowered arithmetic computes the operation on all operand values if and only if the left operand is in a register, or the right one is and the operation is no subtraction, or memory is multiplied by the literal 0 |
| `Departures.ArithmeticKeepsNamesExactly` | src/backend/codegen/instructions.cpp:170-187 | arithmetic on two registers keeps a set of names in all states if and only if the left operand, which the result replaces, is not among them |
| `Departures.ComparesExactly` | src/backend/codegen/instructions.cpp:77-96 | a lowered comparison sets the flags of the relation, on all operand values, if and only if the left operand is no literal and the operands are not both in memory |
| `Departures.LoadsExactly` | src/backend/codegen/instructions.cpp:55-75 | a lowered load leaves the content of an allocation in its result, in all states, if and only if a register is free, or the allocation is where the result goes, outside the frame |
| `Departures.StoresExactly` | src/backend/codegen/instructions.cpp:39-53 | a lowered store writes the value, in all states in which it reads, if and only if the value is a literal other than 0, in a register, or in the allocation already |
| `Departures.SelectsExactly` | src/backend/codegen/instructions.cpp:330-371 | a lowered select gives the operand that the condition selects, in all states in which both read, if and only if the true operand is a name that loading the false one does not overwrite and the false operand is not the literal 0 |
| `Departures.SetUpIsRightExactly` | src/backend/codegen/instructions.cpp:196-218 | where nobody owns the argument registers, set-up loads all arguments and keeps a set of registers in all states if and only if no operand or kept register is in one that an earlier, different operand goes into |
| `Departures.ArgumentsLoadExactly` | src/backend/codegen/dataflow.cpp:7-16 | the same for the sequence of copies alone; two exchanged parameters are not loaded correctly |
| `WholeFunctions.OwnershipCoherence` | src/backend/codegen/context/function_storage.cpp:8-92 | in every storage state that generation of a single-assignment function reaches, owners are mapped to their registers, no two registers share an owner, and no temporary owns one between instructions |
| `WholeFunctions.NeverLooksUpErasedNames` | src/backend/codegen/codegen.cpp:65-97 | a single-assignment function with operands from parameters, global strings and earlier results never looks up a name that is not there |
| `Ownership.LowerInstSound` | src/backend/codegen/codegen.cpp:62-97 | one instruction keeps coherence and adds no name but its result |
| `Ownership.LowerInstFinds` | src/backend/codegen/context/value_reference.cpp:45-60 | when its operands resolve, generating an instruction fails on no lookup |
| `Tampering.SavedCoversWrites` | src/backend/codegen/asmgen/asm_nodes.cpp:232-233 | every register that a node of a compiled function writes is saved by the prologue, or is rax, or an argument register of the function or of a call it makes |
| `Tampering.LowerInstTampers` | src/backend/codegen/context/function_storage.cpp:30-42 | tampered flags never clear, and cover the registers that the emitted nodes write |
| `Tampering.SavedAre` | src/backend/codegen/asmgen/asm_nodes.cpp:232-233 | the saved registers are exactly the tampered ones that are not parameters, from rbx on |
| `Frames.PrologueEnters` | src/backend/codegen/asmgen/asm_nodes.cpp:220-240 | the prologue saves rbp and the saved registers and leaves the caller's memory alone |
| `Frames.EpilogueUndoesPrologue` | src/backend/codegen/asmgen/asm_nodes.cpp:220-241 | after any body that keeps rsp, rbp and the saved cells, ret restores every saved register, rbp and rsp and returns to the caller's address |
| `FrameLayout.SlotsDoNotOverlap` | src/backend/codegen/valuegen.cpp:23-33 | in memory the bytes of a name in the frame lie between the saved registers and rbp, and those of two names have none in common |
| `FrameLayout.FrameHoldsEverySlot` | src/backend/codegen/valuegen.cpp:23-33 | in every state that generation of a single-assignment function reaches, every name in the frame has all its bytes inside the final frame, and no two names have a byte in common |
| `FrameLayout.AllocationsKeepTheirBytes` | src/backend/codegen/instructions.cpp:26-37 | an allocated name has the bytes that were allocated, in the frame, in every later state in which it is in use |
| `FrameLayout.SpilledNamesFit` | src/backend/codegen/dataflow.cpp:28-36 | a name moved to the frame is accessed as eight bytes: clear of what was there before if and only if its size has eight |
| `Accesses.BytesHoldBits` | src/ir/nodes.hpp:34-65 | a size named after n bits has the fewest bytes that hold n bits, and a pointer has those of i64 |
| `Accesses.StoreTouches` | src/backend/codegen/instructions.cpp:47-50 | for every size: the memory operand of the node of a store accesses as many bytes as the size has, from the start of the allocation on, and no others |
| `Accesses.LoadTouches` | src/backend/codegen/instructions.cpp:65-74 | the same for a load, and for its result where that is in the frame |
| `Accesses.AccessesStayInside` | src/backend/codegen/instructions.cpp:39-75 | in a compiled function a store or load of a size that has no more bytes than its name in the frame touches no byte of another name, of a saved register, of the saved rbp or of the caller |
| `Accesses.AllocationsAreAccessedInside` | src/backend/codegen/instructions.cpp:26-75 | the same through an allocated pointer, anywhere later in the function, for every size that has no more bytes than were allocated |
| `Sizes.LoweredTakesOperands` | src/backend/codegen/instructions.cpp:13-376 | an instruction that does not have the number of operands that its kind takes is rejected |
| `Sizes.TooManyAreRejected` | src/backend/codegen/registers.cpp:26-34 | a function with more parameters than the table of argument registers has entries fails to generate, and so does a call with more operands |
| `Sizes.LowersExactly` | src/backend/codegen/instructions.cpp:13-157 | instructions that move nothing are lowered if and only if their operands have locations of the right kind, a result has a place, and a returned value has the size of the function |
| `Sizes.AliasesAreNotRead` | src/backend/codegen/instructions.cpp:13-24 | a literal alias emits nothing and keeps its size and value, but no operand can be made of it |
| `Sizes.ResultsHaveTheirSizes` | src/backend/codegen/instructions.cpp:13-376 | what an instruction computes has the size that the instruction names, that of a pointer, of a comparison, or of the operand whose place it takes |
| `Sizes.ResultsSettle` | src/backend/codegen/codegen.cpp:76-97 | the result has that size when the instruction is done |
| `Sizes.ParametersHaveTheirSizes` | src/backend/codegen/codegen.cpp:48-56 | every parameter is in its own argument register with its own size |
| `Sizes.NodesAreSameSized` | src/backend/codegen/instructions.cpp:13-376 | for every size: if nothing is moved to the frame and the operands of an instruction have sizes that fit together, then so have the operands of every node it is lowered to |
| `Generator.FunctionContext.constructor` | src/backend/codegen/codegen.cpp:38-46 | a fresh context: no owners, no names, an empty frame and the stack-save label |
| `Generator.FunctionContext.MapValue` | src/backend/codegen/context/function_storage.cpp:17-24 | the whole new storage after mapping a name, ownership of a register included |
| `Generator.FunctionContext.DropOwnership` | src/backend/codegen/context/function_storage.cpp:56-67 | the whole new storage after a name gives up its register |
| `Generator.FunctionContext.EraseValue` | src/backend/codegen/context/function_storage.cpp:69-78 | the whole new storage after a name is forgotten |
| `Generator.FunctionContext.RemapValue` | src/backend/codegen/context/function_storage.cpp:8-15 | the whole new storage after a name moved |
| `Generator.FunctionContext.DropReassignable` | src/backend/codegen/context/function_storage.cpp:80-84 | all pending names are dropped in order |
| `Generator.FunctionContext.EraseReassignable` | src/backend/codegen/context/function_storage.cpp:86-92 | all pending names are erased in order, and none is pending any more |
| `Generator.FunctionContext.ClaimTempRegister` | src/backend/codegen/context/function_storage.cpp:44-54 | the register goes to the next temporary name |
| `Generator.FunctionContext.CleanRegisters` | src/backend/codegen/codegen.cpp:86-90 | temporaries give their registers back and nothing is frozen |
| `Generator.FunctionContext.FindRegister` | src/backend/codegen/valuegen.cpp:35-56 | the lowest register not in use is found and taken, or none is in use and nothing changes |
| `Generator.FunctionContext.FindValStorage` | src/backend/codegen/dataflow.cpp:41-49 | a free register, else a slot; failure where the size has no bytes |
| `Generator.FunctionContext.EmptyRegister` | src/backend/codegen/dataflow.cpp:18-39 | storage and node of moving the owner elsewhere |
| `Generator.FunctionContext.CopyToRegister` | src/backend/codegen/dataflow.cpp:7-16 | vacates the register, then copies |
| `Generator.FunctionContext.ForceFindRegister` | src/backend/codegen/valuegen.cpp:7-21 | a free register, else the first one not frozen, vacated; failure if all are frozen |
| `Generator.FunctionContext.EnsureInRegister` | src/backend/codegen/context/function_storage.cpp:114-133 | nothing for a value in a register, else a claimed temporary and its node, operands in the order the source passes them |
| `Generator.FunctionContext.GenAllocate` | src/backend/codegen/instructions.cpp:26-37 | a slot of the frame, and no node |
| `Generator.FunctionContext.GenStore` | src/backend/codegen/instructions.cpp:39-53 | the node and the failures of a store |
| `Generator.FunctionContext.GenLoad` | src/backend/codegen/instructions.cpp:55-75 | the node, storage and failures of a load |
| `Generator.FunctionContext.GenIcmp` | src/backend/codegen/instructions.cpp:77-96 | the node and failures of a comparison |
| `Generator.FunctionContext.GenBranch` | src/backend/codegen/instructions.cpp:98-120 | the two jumps and failures of a branch |
| `Generator.FunctionContext.GenRet` | src/backend/codegen/instructions.cpp:134-157 | the move to rax, ret, and the failures on a wrong return type |
| `Generator.FunctionContext.GenArithmetic` | src/backend/codegen/instructions.cpp:159-188 | dominating operand, node and storage of arithmetic |
| `Generator.FunctionContext.GenArgument` | src/backend/codegen/instructions.cpp:196-218 | set-up of one argument |
| `Generator.FunctionContext.GenCall` | src/backend/codegen/instructions.cpp:190-230 | set-up of all arguments by the loop, then the call |
| `Generator.FunctionContext.CallNow` | src/backend/codegen/instructions.cpp:220-229 | vacating and clearing rax, the call, and rax taken for the result |
| `Generator.FunctionContext.GenSelect` | src/backend/codegen/instructions.cpp:330-371 | register, nodes and failures of a select |
| `Generator.FunctionContext.GenInstruction` | src/backend/codegen/codegen.cpp:113-117 | dispatch on the kind of instruction |
| `Generator.FunctionContext.GenerateInstruction` | src/backend/codegen/codegen.cpp:62-98 | the whole protocol of one instruction: storage and nodes afterwards |
| `Generator.FunctionContext.PlaceParameters` | src/backend/codegen/codegen.cpp:48-56 | parameters in the argument registers, marked as parameters, without owners |
| `Generator.FunctionContext.GenerateBlock` | src/backend/codegen/codegen.cpp:58-98 | the label and nodes of a block, by the loop over its instructions |
| `Generator.FunctionContext.GenerateBlocks` | src/backend/codegen/codegen.cpp:58-99 | the labels of all blocks, by the loop over them |
| `Generator.FunctionContext.SavedRegisters` | src/backend/codegen/asmgen/asm_nodes.cpp:232-240 | the registers the prologue pushes |
| `Generator.GenFunction` | src/backend/codegen/codegen.cpp:31-111 | the imperative generator prints exactly the compiled function about which the theorems speak, and fails exactly when that fails |
| `Conditions.CompareLoweringCorrect` | src/backend/codegen/asmgen/asm_nodes.cpp:153-185 | at every bit width and for all operands the printed condition holds on the flags of cmp if and only if the IR relation holds |
| `Conditions.SignedIsTwosComplement` | src/ir/nodes.hpp:364-379 | the integer that signed comparisons read off a pattern of w bits is in range and differs from the pattern by a multiple of 2^w, and it is the only one |
| `Conditions.FlagsOfDifference` | src/backend/codegen/asmgen/asm_nodes.cpp:273-275 | the flags after cmp: equality, the order of the patterns, overflow if and only if the exact difference of those integers is out of range, and the sign of the difference unless it overflows |
| `Conditions.RelationsMean` | src/ir/nodes.hpp:364-379 | the ten comparisons are equality, the order of those integers and the order of the patterns, and their negations and closures |
| `Machine.WordsHave64Bits` | src/ir/nodes.hpp:51-65 | words have 64 bits, and comparisons of them are of that width |
| `Machine.ArithmeticIsModular` | src/backend/codegen/asmgen/asm_nodes.cpp:187-202 | add, sub and mul are exact up to a multiple of 2^64, whatever integers the operands stand for, signed or not |
| `Conditions.CompareByHalf` | src/ir/nodes.hpp:364-379 | the same for any weight of the sign bit, read off the encoding bits of icmp_type |
| `Conditions.InvertEncoding` | src/backend/codegen/instructions.cpp:298-328 | inversion keeps the signedness bit and flips the three outcome bits |
| `Conditions.InvertComplementsFlags` | src/backend/codegen/instructions.cpp:298-328 | inversion complements a condition on every flag setting |
| `Conditions.InvertComplements` | src/backend/codegen/instructions.cpp:298-328 | inversion complements the relation and the condition after cmp at every width, and is its own inverse |
| `Lifetime.DocumentInstruction` | src/backend/ir_analyzer/scope_analyzer.cpp:10-24 | result and operands are documented at the instruction, and no other name moves |
| `Lifetime.FirstPass` | src/backend/ir_analyzer/scope_analyzer.cpp:16-25 | every mentioned name is mapped to its last mention |
| `Lifetime.DetectDropped` | src/backend/ir_analyzer/scope_analyzer.cpp:32-40 | one flag an operand: a variable documented at this instruction |
| `Lifetime.MarkInstruction` | src/backend/ir_analyzer/scope_analyzer.cpp:29-41 | the flags of an instruction say which operands nothing later mentions |
| `Lifetime.MarkBlock` | src/backend/ir_analyzer/scope_analyzer.cpp:28-42 | a block keeps its code and gets those flags |
| `Lifetime.AnalyzeVariableLifetimes` | src/backend/ir_analyzer/scope_analyzer.cpp:7-43 | exactly the operands that nothing later in layout mentions are flagged, and the code is unchanged |
| `Lifetime.AnalysisFlagsBlocks` | src/backend/ir_analyzer/scope_analyzer.cpp:27-42 | the analyzed function is flagged in the form generation relies on |
| `Lifetime.AnalysisIsUnique` | src/backend/ir_analyzer/scope_analyzer.cpp:7-43 | there is one function with that code and such flags |
| `Lifetime.RunsGoForward` | src/backend/ir_analyzer/scope_analyzer.cpp:16-25 | runs of a function whose jumps go forward never go back in layout |
| `Lifetime.DropsAreSound` | src/backend/ir_analyzer/scope_analyzer.cpp:7-43 | no run of a function with forward jumps mentions a name after it was dropped |
| `Reaching.ReachIsArrival` | src/backend/ir_analyzer/scope_analyzer.cpp:16-25 | the computed set of places that control can get to from a place is what runs get to |
| `Reaching.DropsAreSoundExactly` | src/backend/ir_analyzer/scope_analyzer.cpp:7-43 | no run from a set of points mentions a name after its drop if and only if, wherever those runs get to, no place that control can get to from a last use mentions the name |
| `Reaching.DropsAreSoundEverywhereExactly` | src/backend/ir_analyzer/scope_analyzer.cpp:7-43 | the same for all runs, wherever they start |
| `Reaching.ReadsAreFreshExactly` | src/backend/ir_analyzer/scope_analyzer.cpp:7-43 | every run that reads a dropped name has given it a new value since if and only if no place that control can get to from a last use, without passing one that gives the name a value, reads it |
| `Rounds.BackEdgesBreakDrops` | src/backend/ir_analyzer/scope_analyzer.cpp:16-25 | a function whose loop reads its parameter again after the drop in the first round: compiled it returns n + 2, from all machine states that pass n, where the IR returns n + 1 |
| `DeadBlocks.FunctionBody.FnDeadCodeElim` | src/backend/ir_optimizer/dead_code_elim.cpp:12-37 | the blocks left in place are the entry and the referenced ones, by the three loops over a set |
| `DeadBlocks.EliminationPreservesRuns` | src/backend/ir_optimizer/dead_code_elim.cpp:12-37 | from every surviving instruction, for any number of steps and any meaning of instructions, the reduced function does the same |
| `DeadBlocks.PreservesRunsExactly` | src/backend/ir_optimizer/dead_code_elim.cpp:17-36 | the runs from all surviving blocks are preserved if and only if no survivor falls through into a removed block |
| `DeadBlocks.SurvivesExactly` | src/backend/ir_optimizer/dead_code_elim.cpp:12-37 | a block survives if and only if it has the name of the entry block or a label that some instruction lists |
| `DeadBlocks.FallThroughIsLost` | src/backend/ir_optimizer/dead_code_elim.cpp:21-36 | an entry block that falls through into an unreferenced block loses it |
| `DeadBlocks.EliminationKeepsRun` | src/backend/ir_optimizer/dead_code_elim.cpp:5-10 | eliminating in all functions of a program keeps what they compute, calls included |
| `DeadBlocks.NoReferenceDangles` | src/backend/ir_optimizer/dead_code_elim.cpp:24-30 | a label that a survivor lists names the same block as before, or none in both |
| `DeadBlocks.SurvivorsKeepOrder` | src/backend/ir_optimizer/dead_code_elim.cpp:36 | survivors keep contents and order |
| `Phi.PhiLoweringIsSound` | src/backend/codegen/instructions.cpp:232-296 | where control enters the phi block by jumps of the predecessors that have nodes and by falling out of those that have none, every way out of a block arrives as before, with move k made on entering from predecessor k, for any meaning of nodes |
| `Phi.PhiLoweringIsExact` | src/backend/codegen/instructions.cpp:232-296 | this holds of all runs if and only if no predecessor that has nodes falls into the phi block, those without nodes do, and the phi block does not fall into temporaries |
| `Phi.RunsAlike` | src/backend/codegen/instructions.cpp:232-296 | then runs of any length pass the same blocks with the same states, temporaries left out |
| `Phi.PhiHoldsOperand` | src/backend/codegen/instructions.cpp:242-291 | control that enters from predecessor k finds in the phi's register what operand k read as at the jump; nothing else changed but flags |
| `Phi.AsmBlocks.SplitBlock` | src/backend/codegen/instructions.cpp:258-288 | the node loop: moves inserted before jumps, conditional jumps redirected to appended blocks |
| `Phi.AsmBlocks.LowerPhi` | src/backend/codegen/instructions.cpp:242-290 | the operand loop, and failure at a predecessor that no block is named after |
| `Phi.OnlyJumpsAreEdges` | src/backend/codegen/instructions.cpp:258-266 | a predecessor without an explicit jump to the phi block is left as it is, even if it falls through into it |
| `Phi.MoveLeavesOperand` | src/backend/codegen/instructions.cpp:251-254 | the move generated for an operand leaves its value in the phi's register, wherever the operand is |
| `Phi.TempsCounted` | src/backend/codegen/instructions.cpp:276 | with one conditional edge each, predecessors gain at most one temporary block each |
| `Phi.LabelKept` | src/backend/codegen/instructions.cpp:276 | a label keeps its block when temporaries come in between |
| `Phi.TempKept` | src/backend/codegen/instructions.cpp:272-287 | the label of a conditional edge leads to its own move and then to the phi block |
| `Phi.TempLabelsDiffer` | src/backend/codegen/instructions.cpp:272 | temporary names are the same if and only if predecessor and operand are |
| `Peepholes.PrintingPreservesRunsExactly` | src/backend/codegen/asmgen/asm_nodes.hpp:60-63 | a call of printed code reads the same conditions as the code that is meant, callees included, if and only if no zero mov goes to memory on the way and every condition read with the flags of a zero mov is meant to come out as for equal operands; then it ends with the same registers and memory |
| `Peepholes.PrintingPreservesRuns` | src/backend/codegen/asmgen/asm_nodes.hpp:60-63 | printing preserves all calls of a program in which no zero mov is between a cmp and a reader of its flags on any path |
| `Peepholes.PrintedIsRun` | src/backend/codegen/asmgen/asm_nodes.hpp:60-63 | the printed runs are the runs of the machine |
| `Peepholes.ZeroMovMisleads` | src/backend/codegen/asmgen/asm_nodes.cpp:243-250 | a zero mov in between keeps a condition if and only if it holds before exactly when its encoding includes equality |
| `Lexer.Lex` | src/ir/input/lexer.cpp:55-111 | the loop computes the specified tokens, comments treated as the source treats them |
| `Lexer.LexingKeepsText` | src/ir/input/lexer.cpp:71-106 | on comment-free input nothing is lost or added, and a break stands for exactly the newlines and carriage returns that start the input or follow a character that is not white space |
| `Lexer.GetString` | src/ir/input/lexer.cpp:34-48 | the quoted string that starts at the position, or none |
| `Lexer.DumpUnconsumed` | src/ir/input/lexer.cpp:62-69 | the token of the unconsumed range, numbers told by their first digit, and the step |
| `Lexer.DumpSpaces` | src/ir/input/lexer.cpp:78-79 | all white space from the position on is passed |
| `Emitter.OutputStream.PrintInstruction` | src/ir/node_print.cpp:3-19 | the line of an instruction by the operand loop; failure where a size has no name |
| `Emitter.OutputStream.EmitParameters` | src/ir/output/ir_emitter.cpp:68-79 | parameters in parentheses with commas between |
| `Emitter.OutputStream.EmitBlock` | src/ir/output/ir_emitter.cpp:42-63 | label and instructions of a block, nothing for an empty one |
| `Emitter.OutputStream.EmitFunction` | src/ir/output/ir_emitter.cpp:33-66 | header, blocks and end |
| `Emitter.OutputStream.Emit` | src/ir/output/ir_emitter.cpp:6-15 | all strings, then all prototypes, then all functions |
| `Parser.TokenCursor.Uint8` | src/ir/input/instruction_parsing.cpp:102-106 | a number modulo 256 |
| `Parser.TokenCursor.MaybeValueSize` | src/ir/input/instruction_parsing.cpp:124-138 | a size is consumed, anything else is not |
| `Parser.TokenCursor.ValueSize` | src/ir/input/instruction_parsing.cpp:140-156 | a size, or i32 where none is named |
| `Parser.TokenCursor.OneValue` | src/ir/input/instruction_parsing.cpp:164-182 | a variable or a literal with its size |
| `Parser.TokenCursor.OneIcmpType` | src/ir/input/instruction_parsing.cpp:184-201 | a comparison by its name |
| `Parser.TokenCursor.Operands` | src/ir/input/instruction_parsing.cpp:108-122 | values with commas between, none before a line break, by the loop |
| `Parser.TokenCursor.InstructionHead` | src/ir/input/instruction_parsing.cpp:62-99 | arguments of an instruction by its name, later constructor arguments first, and the labels recorded |
| `Parser.TokenCursor.UnassignedInstruction` | src/ir/input/instruction_parsing.cpp:43-100 | a literal alias, or a named instruction with operands |
| `Parser.TokenCursor.Instruction` | src/ir/input/instruction_parsing.cpp:29-41 | an instruction with its assignee, if any |
| `Parser.TokenCursor.Parameters` | src/ir/input/parser.cpp:103-129 | parameters by the loop; literals are refused |
| `Parser.TokenCursor.ExternFunction` | src/ir/input/parser.cpp:45-62 | a prototype |
| `Parser.TokenCursor.Body` | src/ir/input/parser.cpp:72-90 | labels and instructions up to end, by the loop |
| `Parser.TokenCursor.OneFunction` | src/ir/input/parser.cpp:64-101 | a function, with an entry block where none is named |
| `Parser.TokenCursor.OneGlobalString` | src/ir/input/parser.cpp:33-43 | a global string |
| `Parser.TokenCursor.WholeRoot` | src/ir/input/parser.cpp:10-31 | strings, prototypes and functions in any order, by the loop |
| `Parser.ParseText` | src/ir/input/parser.cpp:6-8 | lexing and parsing of a text |
| `Parser.ParsedFunctionsCanBeReduced` | src/ir/input/element_parsers.hpp:25-29 | every branch target, jump target and phi label of a parsed function is listed; so elimination preserves its runs if and only if no survivor falls through into a dead block |
| `ReadBack.ComparisonNamesDiffer` | src/ir/input/instruction_parsing.cpp:184-200 | two names that are read as the same comparison are the same, and every comparison has a name |
| `ReadBack.NamesMean` | src/ir/input/instruction_parsing.cpp:187-196 | what each of the ten names means for the integers that the operands stand for, signed and unsigned |
| `ReadBack.SizeNamesDiffer` | src/ir/input/instruction_parsing.cpp:124-138 | two names that are read as the same size are the same, and every size but parameter dependence has a name |
| `ReadBack.OmittedSize` | src/ir/input/instruction_parsing.cpp:140-182 | a value without a size reads as the one with i32 |
| `ReadBack.NumbersRead` | src/ir/input/instruction_parsing.cpp:102-106 | a number is read up to its last digit if it is below 2^31, and refused otherwise; as a byte it is taken modulo 256 |
| `Accepted.RootStarts` | src/ir/input/parser.cpp:13-28 | every item of an accepted text starts with one of three words |
| `Accepted.PrototypeReads` | src/ir/input/parser.cpp:45-62 | an accepted prototype is fn, a size or none, which means i32, a name and a parenthesis |
| `Accepted.BodyEnds` | src/ir/input/parser.cpp:72-93 | the lines of an accepted function end with end, and start with a label where it has no block yet |
| `ReadBack.WrittenSourceParses` | src/ir/input/parser.cpp:10-129 | any text of global strings, extern functions and functions, in any order and with any number of empty lines between them, over all forms the parser knows, icmp ne, phi, getarrayptr and literal aliases included, with or without a label before the first block, parses to what is written |
| `ReadBack.ParsingUndoesEmitting` | src/ir/input/parser.cpp:10-129 | the printed text of global strings and one function over the agreeing forms lexes and parses to the same root |
| `ReadBack.ParseHeadBack` | src/ir/input/instruction_parsing.cpp:62-99 | every operation is read back with its arguments and labels in order; a phi lists its last label first |
| `ReadBack.ParseLiteralBack` | src/ir/input/instruction_parsing.cpp:43-58 | a literal alias is read back with its size and value |
| `ReadBack.ParseInstructionBack` | src/ir/input/instruction_parsing.cpp:29-41 | every instruction is read back with its result, and can be told from a label and an end |
| `ReadBack.ParseFunctionBack` | src/ir/input/parser.cpp:64-101 | a written function is read back whole, with the label of its first block or without |
| `ReadBack.ParsePrototypeBack` | src/ir/input/parser.cpp:45-62 | so is a prototype |
| `RoundTrip.WrittenTextLexes` | src/ir/input/lexer.cpp:55-111 | a written text lexes to its tokens |
| `RoundTrip.PiecesLex` | src/ir/input/lexer.cpp:55-111 | any well-spaced text of words, symbols, strings, spaces and lines lexes to those pieces |
| `RoundTrip.LineEnds` | src/ir/input/lexer.cpp:72-79 | a carriage return ends a line as a newline does, alone or before one |
| `RoundTrip.ReturnsLexAlike` | src/ir/input/lexer.cpp:72-79 | without strings and comments, a text lexes to the same tokens with carriage returns before its newlines |
| `RoundTrip.CommentsJoinWords` | src/ir/input/lexer.cpp:83-89 | a comment is not left out: its text, with the end of its line, starts the word that follows |
| `Printed.PrintedReadsBackExactly` | src/ir/nodes.hpp:155-160 | an operation that is printed reads back as it was if and only if it is no neq, getarrayptr or literal alias, and no phi of two different labels, which comes back with its labels exchanged |
| `Printed.PrintedNamesDiffer` | src/ir/nodes.hpp:381-398 | printing tells comparisons, operations and sizes apart |
| `Printed.PrintsExactly` | src/ir/nodes.hpp:34-49 | an instruction is printed if and only if the size it is written with, and those of its literals, have names |
| `Printed.LiteralsReadModulo` | src/ir/nodes.hpp:78-80 | a printed literal reads back modulo 2^32, and not at all if that is 2^31 or more |
| `Printed.SizelessVariablesReadAsI32` | src/ir/nodes.hpp:96-101 | a printed variable that has no size reads back as i32 |
| `Printed.PrintedFunctionsLoseEmptyBlocks` | src/ir/output/ir_emitter.cpp:42-63 | a printed function reads back without its empty blocks |
| `Printed.ExternsLoseReturnTypes` | src/ir/output/ir_emitter.cpp:25-31 | a printed extern function does not read back; with the end of its line, which is not printed, it reads back as one that returns nothing |
| `Text.NumeralOfDecimal` | src/ir/nodes.hpp:78-80 | a printed number reads back as itself |

## Left out

- FunctionSimulated: 64-bit integer values only; literals are below 2^31, as immediates that need no sign extension; pointers are those of allocations of at least eight bytes. IR runs have no meaning where a pointer or a global string is passed to a call; that the call passes the right address is `ArgumentsAreAParallelMove` and `AddressesArePassed`, not part of whole runs.
- FunctionSimulated: a name read again behind a back edge has to be mentioned below the loop in the text as well, and stay where it is; `Reaching.ReadsAreFreshExactly` says exactly when drops are right, which is more than generation with fixed locations at labels needs.
- BackendIsCorrect: holds for admissible programs; memory is modelled in eight-byte cells and runs that read or write other sizes have no meaning: `Accesses` says which bytes their nodes access and `Sizes` at which sizes, not what they compute; stack alignment at calls is not modelled.
- CompiledSourceIsCorrect: names of functions are taken to be distinct and to be the labels that calls go to; the driver does not eliminate dead blocks, and neither does the method that models it.
- AdmissibleFunctionsAreSafe: sufficient and not necessary: at most two names held where a register is searched, and no call between a jump and its label; `Generation.FunctionSafe` is the weaker condition on the states generation goes through, spills included.
- FibComputes: the example with i64 for i32, since IR runs over 32-bit integers have no meaning in the model; the same holds for ExampleAdmissible, ExampleParses, CompiledFibonacci and CompiledMain.
- GenSelect: a select between two literals fails as unmodelled.
- GenInstruction: phi, zext, sext and get_array_ptr fail as unmodelled; phi is modelled as a pass over assembly blocks, and is not part of the simulation of whole functions.
- PhiLoweringIsSound: block positions stay valid while blocks are appended; the references that appending may invalidate in the source are not modelled, and the phi's register has the size of its operands.
- LexingKeepsText: covers input without comments; the specification that `Lexer.Lex` meets keeps the source's treatment of comment text.
- TooManyAreRejected: where the source would read beyond the table of argument registers, generation fails.
- NodesAreSameSized: for a call it takes every operand to have, when its turn comes, the size with which it is passed; an operand whose register went to a vacated value has lost it.
- GlobalReads: where a symbol is linked to is a parameter of the machine state; only a mov to a register carries such an address, other instructions with it have no meaning.
- Lex: a read at the end of the input is taken to see neither white space nor a semicolon.
- ParsingUndoesEmitting: leaves out neq, getarrayptr, literal aliases, phi of two labels, div and mod, extern functions, empty blocks and more than one function, on which printer and parser differ; `Printed` says what becomes of the single forms. Texts of all of them as they are written by hand are `WrittenSourceParses`.
- WrittenSourceParses: texts with one space between words, four before an instruction and every size written; `OmittedSize` and `CommentsJoinWords` are about single values and words.
- WholeRoot: where the source would read beyond the last token parsing fails.
- The list of dropped registers that the register search asks first: nothing fills it.
- Register index 14 stands for r16, which no processor of this architecture has; it is reached only when fourteen registers are owned, and is modelled as a register like the others.
- The counter of temporary names starts at 0 in every function instead of running on.
- The state a context is left in when generation throws.
- The text of assembly beyond what printing decides: register names, prefixes and sections.
- `src/exec`, `main.cpp`, reading of files, test drivers, and the emitter's attachment hook.
