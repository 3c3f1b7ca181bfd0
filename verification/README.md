# The back half of the Mini compiler, verified

Mini is compiled to AVM code for a small stack machine: a data stack, an aux stack, one register and
tuples of at most eight slots. This project models the back half of that compiler in Dafny and proves
that each stage keeps the meaning of a program, that the stages fit together, and that the final code
has the shape the uploader relies on. Everything here is proved; nothing was executed.

How the pieces fit:

| module | what it holds |
|---|---|
| `Avm`, `Machine` | values, opcodes and instructions; a step function after the emulator, and runs observed at labels and at halts |
| `Virtual` | the flat machine code generation aims at: locals, globals and tuples of any size by slot number |
| `TupleTrees`, `TupleCode` | the nested 8-ary layout of wide tuples and the code that reads and writes one slot |
| `Lowering`, `LoweringCorrect`, `Expansion` | `fix_tuple_size` and its simulation |
| `Peephole` | the optimiser and its correctness on whole programs |
| `Occurrences` | programs that differ in debug locations only: all passes treat them alike and they run alike, so hypotheses can name single instructions |
| `Nonforward`, `NonforwardCorrect` | routing of jumps that do not go forward through a table in the last global |
| `StripLabels`, `StripCorrect` | labels become code points |
| `Postlink`, `PostlinkCorrect`, `Forward`, `LabelOrder` | `postlink_compile`: meaning, forward references, no duplicate labels |
| `Opcodes`, `Upload` | the uploader and its byte encoding |
| `Linker`, `LinkerCorrect` | relocation and linking of modules |
| `Renaming`, `LinkSound`, `LinkRuns` | renaming the references inside values; whatever a module does on its own, the linked program does at its place |
| `Mini`, `Codegen`, `CodegenEmit`, `CodegenShape`, `CodegenLinks`, `Runs`, `CodegenCorrect`, `CodegenSound`, `CodegenModule`, `MainRuns`, `Completeness` | source fragment with direct evaluation, code generation, and its correctness up to function calls: compiled code returns what evaluation says, and exactly when |
| `EndToEnd` | code generation, linking and the post-link passes composed |
| `FixedArrays`, `Defaults` | fixed arrays as digit-indexed trees; default values of types |
| `Words`, `Folding` | 256-bit arithmetic, constant folding and operand swapping |
| `CallGraph` | pruning of unreachable functions |
| `Buffers` | the persistent Merkle buffer |

Conventions. A fault of the machine is a stuck state, so a result about runs speaks of runs that do
not fault. Integer opcodes are a parameter of the machine (`Isa`); `Words.Emulator` is the instance
with the emulator's 256-bit arithmetic. Each method that loops or appends to a code vector is proved
equal to a function, and the results are proved about that function. Debug info is one location
number per instruction. `Isa.strict` is the set of locations at which `IsZero` insists on a 0/1
operand: numbering a program by position (`Occurrences.Numbered`) lets the one hypothesis of the
optimiser speak of the first test of each cancelled pair and of no other instruction, and the
conclusions are about machines that insist on nothing.

Findings, each proved:

- Cancelling two `IsZero` in a row is right exactly for operands 0 and 1 (`Peephole.CancellingExact`).
- A label inside a tuple immediate is not routed through the jump table, so final code can name its
  own position (`Forward.NestedPointsBack`). Final code points forward exactly if, before labels are
  stripped, no immediate names a label that stands before it (`Forward.CompiledForwardExactly`).
  Code generation emits labels as whole immediates only, so a nested label can only come from a
  compiled module that is read from a file.
- A right half added by growing a buffer has height-1 nodes of capacity 32 with two 32-byte leaves,
  each half used; the shape still depends on the height alone (`Buffers.HistoryIndependent`).
- Serialising a buffer cuts its size to 64 bits: what is read back is the same buffer exactly below
  size 2^64 (`Buffers.SerializeRoundTrip`), and one byte written at offset 2^64 - 1, which the
  emulator allows, gives back the empty buffer (`Buffers.LastByteIsLost`).
- Folding constants that are well typed fails, while the code that would be emitted goes on, exactly
  for a subtraction whose left operand is smaller as an unsigned number, also for `int` operands, and
  for a shift by 2^64 or more or by anything but a `uint` (`Folding.FoldFailsExactly`): `int(1) <<
  int(2)` is refused (`Folding.IntShiftIsNotFolded`).
- Folding changes the type of bitwise operators and of `hash`, to `bool`, and accepts shifts of other
  types by a `uint` that are type errors otherwise; it keeps the type of all other operators
  (`Folding.FoldedType`).
- The arithmetic-shift opcode loses the sign of a negative value exactly for shifts of 2^64 or more
  (`Words.ShiftArithOpcode`).
- Relocation moves function labels but not the name ids of imports, so a reference to a function that
  nothing defines is reported unless some import of any module has the relocated number for a name
  id; then it silently becomes that import (`LinkerCorrect.UndefinedFunction`, with two modules for
  which it does in `LinkerCorrect.UndefinedFunctionExample`).
- Routing is invisible to programs that leave the register and the last global alone; one that reads
  them sees the table, and one that writes them loses it, unless the value is the table itself
  (`NonforwardCorrect.ReadingShowsTable`, `NonforwardCorrect.WritingLosesTable`). A label that is
  fetched for a MakeFrame with a return address is taken for that address, unless they are equal
  (`NonforwardCorrect.FetchedForReturn`).

## Model

| member | source | states |
|---|---|---|
| `TupleTrees.New` | src/link/xformcode.rs:276-302 | the slot-filling loops terminate for every size with no underflow of slots and build `TreeOf`, whose contract bounds children and sums sizes |
| `TupleTrees.TreeOf` | src/link/xformcode.rs:276-302 | every node has at most 8 children and the sizes below add up to the size asked for |
| `TupleTrees.FirstSlotIsDirect` | src/compile/mod.rs:190-194 | for at least 2 slots the first child is a leaf exactly up to 57, the bound behind the 58-globals check |
| `TupleTrees.FlattenMake` | src/link/xformcode.rs:320-344 | reading the slots of a made value gives back the list, for every tree shape |
| `TupleTrees.MakeValue2` | src/link/xformcode.rs:329-344 | uses exactly the first tsize values and hands back the rest |
| `TupleTrees.MakeEmpty` | src/link/xformcode.rs:305-318 | the empty table is the table of all-none slots |
| `TupleTrees.ValueFromFieldList` | src/link/xformcode.rs:503-505 | the layout of a field list can be read back slot by slot |
| `TupleTrees.ReplaceLastNoneFillsLastSlot` | src/mavm.rs:733-746 | on an empty table it never panics and fills exactly the last slot |
| `TupleCode.EmitRead` | src/link/xformcode.rs:358-413 | appends the path code of the specification or returns its error |
| `TupleCode.EmitWrite` | src/link/xformcode.rs:415-498 | appends the path code of the specification or returns its error |
| `TupleCode.ReadCorrect` | src/link/xformcode.rs:358-413 | the emitted read replaces the nested tuple by the value of the flat slot, for every in-range index |
| `TupleCode.ReadLocalCorrect` | src/link/xformcode.rs:358-413 | the emitted local read pushes the slot of the frame and keeps the frame |
| `TupleCode.WriteCorrect` | src/link/xformcode.rs:415-498 | the emitted write leaves the nested tuple of the updated flat list |
| `TupleCode.WriteLocalCorrect` | src/link/xformcode.rs:415-498 | the emitted local write updates exactly that slot of the frame |
| `Lowering.FixTupleSize` | src/link/xformcode.rs:17-244 | the pass over the code vector equals the lowering function, errors included |
| `LoweringCorrect.OneSimulates` | src/link/xformcode.rs:26-240 | what the flat machine does at one instruction, the emitted segment does on the nested state, for every opcode |
| `LoweringCorrect.FrameSimulates` | src/link/xformcode.rs:28-51 | MakeFrame code builds the nested frame with the arguments in the first slots |
| `LoweringCorrect.ReturnSimulates` | src/link/xformcode.rs:160-181 | Return code drops the frame and jumps to the saved address |
| `LoweringCorrect.FixedGetRuns` | src/link/xformcode.rs:182-236 | the digit loop's code reads the element the flat machine reads |
| `LoweringCorrect.LoweringSimulates` | src/link/xformcode.rs:17-244 | every observation of the flat machine, from any position and state and after any number of steps, is one of the lowered program with aux frames and register equal to the made values |
| `LoweringCorrect.LowerOneCovered` | src/link/xformcode.rs:26-240 | lowering introduces no label and no reference the instruction did not have |
| `Peephole.PeepholePass` | src/link/optimize.rs:40-225 | both loops, with the inner one terminating because each rewrite shortens the buffer, equal the optimiser function |
| `Peephole.RewriteRefines` | src/link/optimize.rs:60-220 | each rewritten pair and its replacement have the same outcome unless the pair faults |
| `Peephole.CancellingExact` | src/link/optimize.rs:168-194 | two tests restore an integer if and only if it is 0 or 1 |
| `Occurrences.PeepholePreserves` | src/link/optimize.rs:11-225 | for every labelled program, any non-faulting run in which the first test of each cancelled pair, named by its position, sees 0/1 makes the same observations after the pass, on a machine that checks nothing |
| `Occurrences.CompiledAlike` | src/link/mod.rs:232-341 | the passes do not look at debug locations: alike programs give alike code or the same error |
| `LabelOrder.OptimizeKeepsOrder` | src/link/optimize.rs:40-225 | labels are neither lost, added nor reordered |
| `StripLabels.StripLabelsPass` | src/link/striplabels.rs:19-86 | the loops equal the stripping function, with duplicate and undefined labels reported |
| `StripLabels.ReplaceLabelsIn` | src/mavm.rs:710-731 | replaces labels at every depth or reports the first undefined one |
| `StripLabels.CollectPlaces` | src/link/striplabels.rs:24-56 | each label maps to the number of non-label instructions before it, and no other label becomes internal |
| `StripCorrect.StripSimulates` | src/link/striplabels.rs:19-86 | any run jumping by label is matched by the run jumping by code point |
| `Nonforward.FixNonforwardLabels` | src/link/striplabels.rs:93-186 | both loops, with the index map always naming table positions, equal the routing function |
| `Nonforward.FetchedInTable` | src/link/striplabels.rs:113-160 | every rerouted label is in the finished table |
| `Nonforward.TableLabels` | src/link/striplabels.rs:113-160 | the table holds only labels of the code or imported ones |
| `NonforwardCorrect.ExecBesideTable` | src/link/striplabels.rs:93-186 | no instruction that leaves the last global alone disturbs the table, writes to other globals included |
| `NonforwardCorrect.FetchYields` | src/link/striplabels.rs:128-178 | the emitted reads always yield the replaced label |
| `NonforwardCorrect.RoutingPreserves` | src/link/striplabels.rs:93-186 | every observation of the program is one of the routed program, with the table still in the last global |
| `NonforwardCorrect.ReadingShowsTable` | src/link/striplabels.rs:93-186 | a read of the register or the last global is the same beside the table if and only if the table was there already |
| `NonforwardCorrect.WritingLosesTable` | src/link/striplabels.rs:93-186 | a write to them keeps the table if and only if it writes the table |
| `NonforwardCorrect.FetchedForReturn` | src/link/striplabels.rs:119-155 | fetching a label for a MakeFrame with a return address is right if and only if the label is that address |
| `Postlink.HardcodeJumpTable` | src/link/mod.rs:329-341 | overwrites the one instruction in place, or panics, as specified |
| `Postlink.PostlinkCompile` | src/link/mod.rs:232-325 | the pass order, with every error path |
| `PostlinkCorrect.OptimizeInit` | src/link/mod.rs:399-425 | the initialising instructions pack to two or three and nothing is rewritten across them |
| `PostlinkCorrect.HardcodeTranslates` | src/link/mod.rs:270-341 | hard-coding the table after stripping is stripping with a table of labels in the register value, at offset 1 or 2 |
| `PostlinkCorrect.PostlinkPreserves` | src/link/mod.rs:232-341 | end to end: every observation of the linked program on the flat machine is one of the final code from the same start state; only tests the optimiser cancels must see 0/1 |
| `Forward.RouteAhead` | src/link/striplabels.rs:93-186 | after routing, immediates only name labels that are still ahead |
| `Forward.OptimizeAhead` | src/link/optimize.rs:40-225 | the optimiser keeps that |
| `Forward.StripForward` | src/link/striplabels.rs:24-86 | stripped code points forward if and only if no immediate names a label before it and its own code points, if any, are ahead |
| `Forward.CompiledForwardExactly` | src/link/mod.rs:270-341 | for any program whatever, every internal code point in an immediate of the final code, jump table included, targets a later pc if and only if the optimised code looks ahead in that sense |
| `Forward.CompiledPointsForward` | src/link/mod.rs:270-341 | so it holds of every program without code points in immediates whose labels are whole immediates, or inside tuples only ahead of where they stand |
| `Forward.NestedPointsBack` | src/link/striplabels.rs:119-155 | a concrete program with a nested backward label whose final code names its own position |
| `LabelOrder.CollectSucceeds` | src/link/striplabels.rs:36-56 | collecting labels fails if and only if a label is defined twice |
| `LabelOrder.LinkedHasNoDuplicates` | src/link/mod.rs:348-457 | linking well-made modules never leads to a duplicate label |
| `LabelOrder.LinkedPointsForward` | src/link/mod.rs:270-457 | the same for any list of linked modules: exactly then, and so whenever the modules have no labels inside tuples |
| `Opcodes.NumbersRoundTrip` | src/mavm.rs:1191-1366 | the two opcode tables are inverse, so numbers are unique |
| `Upload.RlpRoundTrip` | src/uint256.rs:175-182 | the RLP of any 256-bit integer (Appendix B of the Ethereum Yellow Paper) is read back whatever follows it |
| `Upload.WordsAre256Bits` | src/uint256.rs:145-182 | an integer has at most 32 bytes if and only if it is below 256^32 |
| `Upload.ValueRoundTrip` | src/mavm.rs:665-692 | the same for nested tuples of at most 8, words, internal code points and empty buffers: no encoding is a prefix of another |
| `Upload.InsnRoundTrip` | src/mavm.rs:153-163 | the same for instructions with and without immediates |
| `Upload.ProgramRoundTrip` | src/upload.rs:47-95 | the flat stream determines the program |
| `Upload.UniquelyDecodable` | src/upload.rs:47-95 | two programs, each uploaded with its own length, that give the same stream are the same program up to debug info |
| `Upload.CodeUploader.SerializeOne` | src/upload.rs:68-83 | appends exactly one batch, the encoding of the instruction, and counts it |
| `Upload.UploadProgram` | src/upload.rs:47-57 | the last-to-first loop produces the specified batches, or fails where an encoder panics |
| `Upload.UploadStream` | src/upload.rs:47-95 | the flat vector of an uploaded program, from which the program is read back |
| `Upload.CompiledNamesUploaded` | src/upload.rs:68-76 | at every step of the upload of compiled code, translated code points name instructions already uploaded, if and only if the optimised code looks ahead; so whenever nested labels are ahead |
| `Linker.RelocateProgram` | src/compile/mod.rs:459-510 | relocation with its running maximum equals the specification, or panics on a foreign code point |
| `Linker.RelocateValue` | src/mavm.rs:748-777 | the same for values at every depth |
| `Linker.Link` | src/link/mod.rs:348-457 | the offset and accumulation loops equal the specification |
| `LinkerCorrect.LabelsStayApart` | src/mavm.rs:24-36 | after relocation two labels are equal if and only if they are the same label of the same module, for Anon, Func and External alike |
| `LinkerCorrect.GlobalsStayApart` | src/mavm.rs:194-195 | global indices of different modules never meet |
| `LinkerCorrect.GlobalsKept` | src/link/mod.rs:376-396 | a global keeps its declaration, and the last slot is the jump table's |
| `LinkerCorrect.NoDuplicates` | src/link/mod.rs:365-425 | if no module defines a label twice, neither does the linked program |
| `LinkerCorrect.LinkedIsLinkable` | src/link/mod.rs:348-457 | the linked program meets every hypothesis of the post-link results |
| `LinkerCorrect.ImportsResolve` | src/link/mod.rs:437-457 | an import becomes the label of the last export of its name |
| `LinkerCorrect.ImportsUnresolved` | src/link/mod.rs:437-457 | an import that nothing exports stays an external reference |
| `LinkerCorrect.UndefinedFunction` | src/link/striplabels.rs:24-56 | a reference to an undefined function is reported if and only if no import of any module carries the relocated number as its name id |
| `LinkerCorrect.UndefinedFunctionExample` | src/link/striplabels.rs:24-56 | two modules in which it is taken for an unrelated import |
| `LinkSound.ExecMoved` | src/mavm.rs:176-212 | what an instruction of a module does, the relocated and resolved instruction does on the renamed state with the module's globals in their window |
| `LinkSound.RunMoved` | src/link/mod.rs:348-457 | the same for runs of any length, jumps included |
| `LinkRuns.LinkSimulates` | src/link/mod.rs:348-457 | every observation of a module on its own, from any position and state, is one of the linked program at the module's offset, with labels relocated, imports resolved and the other globals untouched |
| `CodegenEmit.EmitExpr` | src/compile/codegen.rs:813-2205 | the emitter appends exactly the specified code and hands on labels and slots |
| `CodegenEmit.EmitStmts` | src/compile/codegen.rs:251-292 | the statement loop with its bindings and running maximum |
| `CodegenEmit.EmitWhile` | src/compile/codegen.rs:540-607 | the loop with its hidden slot |
| `CodegenEmit.EmitFunc` | src/compile/codegen.rs:95-168 | the placeholder is patched with the final frame size |
| `CodegenShape.ExprGood` | src/compile/codegen.rs:872-1204 | every generated label of an expression is marked exactly once, label numbers are at most the code's length, and all slots are inside the frame |
| `CodegenShape.SlotsFitFrame` | src/compile/codegen.rs:95-168 | every local slot of a function is below the size given to MakeFrame, which has room for the arguments |
| `CodegenShape.ModuleUnique` | src/compile/codegen.rs:62-84 | no label of a module is marked twice |
| `CodegenLinks.ModuleFitsLinker` | src/link/mod.rs:365-372 | generated labels stay below the module's code length, so compiled modules meet the linker's conditions |
| `CodegenSound.ExprSound` | src/compile/codegen.rs:872-1204 | compiled expressions push exactly the evaluated value, right operand first, across all jumps, and leave the rest of both stacks alone |
| `CodegenSound.BlockSound` | src/compile/codegen.rs:170-239 | blocks with declarations, and slots of hidden or outer locals untouched |
| `CodegenSound.IfSound` | src/compile/codegen.rs:1978-2052 | valued and valueless if/else |
| `CodegenSound.LoopSound` | src/compile/codegen.rs:540-607 | loops of any number of iterations; neither body nor condition writes the slot with the loop-top label |
| `CodegenSound.CalleeSound` | src/compile/codegen.rs:1289-1343 | calling convention for any argument count and frame size: back at the return label with only the result added and the aux stack restored |
| `CodegenModule.CallsAreCorrect` | src/compile/codegen.rs:62-168 | in the code of any module, a call of any function, recursion included, returns exactly the evaluated result |
| `EndToEnd.CallsCompile` | src/link/mod.rs:232-457 | the whole compiler: if the linked program reaches a function of a compiled module and evaluating the call gives a result, the final code reaches the code point of the return label with that result, the new globals in the module's window and all else unchanged, on the emulator's arithmetic |
| `EndToEnd.MainCompiles` | src/link/mod.rs:232-457 | the whole compiler from the start: if the first function of the program ends in a call and evaluates to a result, the final code, started in any state that holds no code, reaches the return of that call with the result on the stack and the new globals in place |
| `EndToEnd.LinkedPreserves` | src/link/mod.rs:232-457 | whatever a list of linked modules reaches on the flat machine, the final code reaches |
| `MainRuns.MainCall` | src/compile/codegen.rs:95-168 | a function entered with anything for a return address evaluates its statements and its last call |
| `Completeness.ReturnsExactly` | src/compile/codegen.rs:95-168 | a well-typed call comes to its return label with the aux stack as it was if and only if its evaluation is defined: code and evaluation fail, or go on forever, on the same arguments and globals |
| `Completeness.ModuleReturnsExactly` | src/compile/codegen.rs:62-168 | so for every function of a module, recursion and loops included |
| `Completeness.ExprDone` | src/compile/codegen.rs:872-1204 | if a run through the code of a well-typed expression ends at a return, the expression has a value, and as many steps as the run takes are fuel enough |
| `Completeness.LeavesByReturn` | src/link/xformcode.rs:160-181 | a run that leaves what lies below a function's frame does so by a return from that frame and no other way |
| `Mini.CallMore` | src/compile/codegen.rs:62-168 | the evaluation that code is compared with has at most one result: more fuel changes nothing |
| `Runs.DoMakeFrame` | src/compile/codegen.rs:1289-1343 | MakeFrame makes local i equal argument i |
| `CodegenCorrect.StructRuns` | src/compile/codegen.rs:1360-1398 | for every n the struct initialiser builds exactly value_from_field_list of the fields |
| `CodegenSound.DotSound` | src/compile/codegen.rs:1256-1280 | field access reads the slot of that layout |
| `CodegenSound.ModSound` | src/compile/codegen.rs:1829-1877 | struct update replaces that slot, the new value evaluated before the struct |
| `Defaults.DefaultValue` | src/compile/ast.rs:530-579 | the recursion and its loops compute the default and whether it is safe, for every type |
| `Defaults.DefaultIsShaped` | src/compile/ast.rs:530-579 | every default value has, at every depth, the layout that field access, update, options and accesses to arrays of fixed and of unknown size assume |
| `Defaults.DefaultIsInitialised` | src/compile/ast.rs:563-572 | the default of a struct is what the initialiser's code builds of the field defaults |
| `Defaults.UpdateKeepsShape` | src/compile/codegen.rs:1829-1877 | an update keeps that layout and changes the one field |
| `Defaults.DefaultHasNoRefs` | src/compile/ast.rs:530-579 | defaults refer to no code, so they can stand in any immediate |
| `FixedArrays.EmitFixedSet` | src/compile/codegen.rs:2318-2434 | the recursion appends the specified code |
| `FixedArrays.EmulatorIsOctal` | src/run/emulator.rs:1625-1880 | the emulator's arithmetic divides words by 8 as these results ask |
| `FixedArrays.FixedSetRuns` | src/compile/codegen.rs:2318-2434 | the emitted write leaves the updated array and both stacks as they were |
| `FixedArrays.GetAfterSet` | src/link/xformcode.rs:182-236 | for every size and in-range words i and j, get after set gives the new value at i and the old one at every other j |
| `FixedArrays.DepthIsLeast` | src/compile/codegen.rs:1675-1695 | the depth both loops go down is the least with room for the size |
| `FixedArrays.EmitNewArray` | src/compile/codegen.rs:1623-1698 | with and without an initial value, the loop that multiplies by 8 emits as many layers as that depth |
| `FixedArrays.NewArrayRuns` | src/compile/codegen.rs:1623-1698 | newfixedarray builds an array of that depth with the value, or none, at every index |
| `FixedArrays.DefaultArray` | src/compile/ast.rs:553-562 | so does default_value |
| `Words.SignedRoundTrip` | src/uint256.rs:380-398 | the signed value of a word is in range and gives back the word |
| `Words.SignedFromRange` | src/uint256.rs:380-398 | and the word of a signed value in range gives back the value |
| `Words.SdivIsSigned` | src/uint256.rs:284-293 | signed division truncates in two's complement, as SDIV in Appendix H of the Ethereum Yellow Paper apart from division by zero |
| `Words.SmoduloIsSigned` | src/uint256.rs:295-305 | signed remainder has the dividend's sign and completes the quotient, as SMOD |
| `Words.AddIsSigned` | src/uint256.rs:239-243 | addition serves signed and unsigned operands |
| `Words.MulIsSigned` | src/uint256.rs:260-264 | multiplication serves signed and unsigned operands |
| `Words.UncheckedSubIsSigned` | src/uint256.rs:251-258 | subtraction wraps modulo 2^256 |
| `Words.ShiftArithIsSigned` | src/uint256.rs:355-365 | the arithmetic shift, by any amount, divides the signed value rounding down |
| `Words.ShiftArithOpcode` | src/run/emulator.rs:1871-1882 | the opcode does so if and only if the value is not negative or the shift is below 2^64 |
| `Folding.FoldIsRunTime` | src/compile/typecheck.rs:3510-3794 | a folded constant is the value of the opcodes emitted for the expression, whatever the operand types, hashes included |
| `Folding.FoldFailsExactly` | src/compile/typecheck.rs:3510-3794 | for every operator and every pair of operand types that is well typed without folding: exactly when folding fails, against when the code would |
| `Folding.IntShiftIsNotFolded` | src/compile/typecheck.rs:3751-3794 | a shift of an int by an int is never folded, though it is well typed and its code runs |
| `Folding.FoldedType` | src/compile/typecheck.rs:3167-3460 | folding keeps the type the operation has without folding if and only if it is no bitwise operator, no hash and no shift of something else than a uint |
| `Folding.SwapOperands` | src/compile/typecheck.rs:3117-3164 | evaluation is the same before and after, whatever operands, types and state, and a constant ends up on the left wherever an operator allows it |
| `Folding.SwapIsSame` | src/compile/typecheck.rs:3129-3162 | swapped operators have the same value on swapped operands, signed or not |
| `Folding.SwapPreserves` | src/compile/typecheck.rs:3129-3162 | evaluation of the whole expression is unchanged, effects included |
| `CallGraph.BuildCallgraph` | src/compile/mod.rs:302-333 | the graph of a module, calls into the library left out |
| `CallGraph.Walk.Descend` | src/compile/mod.rs:1041-1080 | removes only reachable functions and leaves nothing that a removed one calls; ends because the graph shrinks |
| `CallGraph.ConsumeCallgraph` | src/compile/mod.rs:1083-1143 | outside the library exactly the functions reachable from main are kept, and in the modules returned every call of a kept function leads to one that is still there |
| `CallGraph.GoneIsReachable` | src/compile/mod.rs:1041-1080 | a function is removed from the graph if and only if a chain of calls reaches it |
| `CallGraph.PrunedIsClosed` | src/compile/mod.rs:1041-1143 | the modules returned are closed under calls, across modules |
| `Buffers.SetByteCanonical` | src/mavm.rs:378-388 | a write to the canonical tree of some bytes gives the canonical tree of the updated bytes |
| `Buffers.ReadByteCanonical` | src/mavm.rs:370-376 | reads return the byte written or 0 |
| `Buffers.HistoryIndependent` | src/mavm.rs:531-625 | write sequences with the same size and bytes give equal trees with equal hashes |
| `Buffers.OnlyRootGrows` | src/mavm.rs:606-625 | no node below the root ever grows |
| `Buffers.CapacityFits` | src/mavm.rs:606-625 | no capacity computed by growing overflows 128 bits, for offsets below 2^127 |
| `Buffers.SizeMatters` | src/mavm.rs:378-388 | a zero written past the end changes the tree though every byte still reads the same |
| `Buffers.SerializeRoundTrip` | src/mavm.rs:407-426 | serialising and deserialising gives back the same buffer if and only if its size is below 2^64, and otherwise the buffer of the bytes below the size modulo 2^64 |
| `Buffers.LastByteIsLost` | src/mavm.rs:407-426 | one byte at the last offset a program can write comes back as the empty buffer |

## Left out

- File, JSON, TOML and command-line handling, error formatting, display and debug printing.
- Parsing and type checking other than folding and swapping of binary operators; inlining, liveness and other warnings.
- Code generation outside the fragment: break, scopes, early return, loop expressions, if-let, tuples, unions, maps, arrays of unknown size, buffers, asm, closures, calls through values and imported functions, tuple patterns in let.
- CodegenEmit.EmitExpr: covers the expression kinds of the fragment only, with one debug location for a whole module.
- CodegenEmit.EmitFunc: functions that return, so MakeFrame saves a return address; functions of type every, which never do, and returns other than the last are outside the fragment.
- CodegenSound.ExprSound: fields of one struct and slots of one frame number at most 2^64, as vector lengths do in the source.
- CodegenModule.CallsAreCorrect: speaks of a module before relocation, on the flat machine; `EndToEnd.CallsCompile` takes it to the final code.
- EndToEnd.CallsCompile: that the function is reached is a hypothesis (`EndToEnd.MainCompiles` has none); the return label is one of the same module, because calls of imported functions are outside the fragment, and evaluation insists that every negated value is 0 or 1.
- EndToEnd.MainCompiles: of a first function that ends in a call, because runs are observed at labels.
- Completeness.ReturnsExactly: of functions whose operands have values, whose calls have as many arguments as parameters and whose branches agree on having a value, as the type checker makes sure (`Completeness.Typed`; type checking itself is not part of this model), and on the flat machine before linking.
- Opcodes for hashing values, precompiles, gas, error handlers, input and output, buffers, PCpush and code inspection: the machine gives them no meaning, so runs through them are not covered.
- Comparing values that hold labels or code points: `Equal` on them is a fault in the machine, because stripping may merge adjacent labels.
- NonforwardCorrect.RoutingPreserves: programs leave the register and the last global alone and give a MakeFrame with a return address no label for an immediate, as compiled code does; what happens otherwise is stated instruction by instruction.
- PostlinkCorrect.PostlinkPreserves: the same.
- LinkRuns.LinkSimulates: modules make a frame before they use locals and do not use the register, as compiled code does; PushExternal, which code generation never emits, has no meaning before the post-link passes.
- Virtual opcodes that have no lowering (UnaryMinus, LogicalAnd, LogicalOr, ArrayGet, Len).
- Keccak is a parameter of the buffer model; hashes of values are not modelled.
- Buffers.HistoryIndependent: offsets are natural numbers, without the 128-bit bound of the source.
- The unused builders that make a buffer tree directly from bytes, which have another tree shape.
- FixedArrays.GetAfterSet: the bounds check emitted before the write is not part of it; indices are in range.
- Exp, SignExtend and Byte in the arithmetic; Keccak of two words is a parameter of it.
- Source file maps, file info charts, type trees and warnings about import types in linking.
