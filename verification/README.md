# Do language: bytecode, layout and compiler passes, verified

This project models the parts of the Do language toolchain whose correctness is hardest to
see from one function, and proves what they promise for every input.

**The bytecode verifier.** A function's bytecode comes with a certificate: the operand
depth, local initialisation and upvar records at the start of each basic block. The verifier
either infers a certificate by a worklist fixed point, or checks a claimed one in a single
visit per block. Both modes are modelled in place (`WorkState.dfy`, `FuncVerifier.dfy`,
`Programs.dfy`) and proved against a definition of the data flow equations and their
solutions (`Transfer.dfy`, `Blocks.dfy`, `Solutions.dfy`, `Passes.dfy`; the invariants are
in `Inference.dfy` and `Checking.dfy`). Inference yields the one most precise solution and
fails only if there is none; checking accepts exactly the certificates that hold; inference
reaches every block if and only if some full certificate is accepted (`Certificates.dfy`).

**What acceptance means.** `Machine.dfy` is a small-step machine with call frames, an
operand stack, optional locals, a stack of upvar records, closures, non-local guards and an
oracle for everything values decide. `Soundness.dfy` and `ProgramSafety.dfy` prove that no
run of an accepted program faults, whatever the oracle does, under two conditions that
acceptance does not imply: the runtime enters function 0 without records or arguments, so it
must declare none, and a module must not be made of a pack that spreads. The step is exact
besides (`Exactness.dfy`): on a frame that is just as a state describes it, an instruction
is refused if and only if the machine would fault on it, and the state after it says all
there is to say of the frame. The syntax pass refuses exactly the instructions that name
something which does not exist, so no table is indexed out of range (`SyntaxChecks.dfy`),
and a function runs only if the recorded uses lead to it (`RunUses.dfy`). `MachineLaws.dfy`
gives what instructions undo of each other and what a call or a guard leaves of its frame,
whatever runs in between. `EntryFrames.dfy` shows that both conditions are needed, by
accepted programs that fault, and that together they are exact. `ShortLists.dfy` shows that
the hypothesis on certificates' local lists is exact too: merging zips the lists, so a
certificate that lists too few locals can be accepted for a program that reads a local it
never wrote. `ListPanics.dfy` gives the other thing such a list can do, make the check
itself index out of range, and exactly when it can.

**The encodings.** Variable-length integers and instructions (`Varint.dfy`, `InstCodec.dfy`,
`InstStreams.dfy`), packed spans and the delta-coded source map (`Spans.dfy`,
`SourceMaps.dfy`), and locations in UTF-8 text (`Utf8.dfy`, `Locations.dfy`) are proved to
round-trip, with the exact limits at which they do. The interpreter reads instructions
without checks and by a table of its own; `Readers.dfy` proves that it reads what the
verifier decoded.

**Code layout.** The emitter orders blocks depth first, adding trampolines as it goes
(`BlockOrder.dfy`), writes the blocks and refits their displacements until no block moves
(`Layout.dfy`, `FuncEmitter.dfy`), and in the bytecode every block keeps its instructions
and its way of ending, and control follows the block graph (`LayoutFlow.dfy`). The loop
watches only where blocks start. `LastBlock.dfy` proves the consequence: a last block that
grows in the final pass keeps a displacement that is too short. It gives the exact condition
for functions whose other blocks fall through. `SpinLoops.dfy` takes loops that negate a
number to the end: with 63 negations the branch leaves out one, and the verifier, which the
emitter runs on what it writes, accepts the code. `DebugSpans.dfy` follows the source spans
the emitter writes beside the code, and `SpanLookup.dfy` the lookups a backtrace makes. Not
every instruction is found at its own span: a block that falls through gives up its last
entry in every pass, not only in the first, where one was added. The exact condition is
given for one lookup, for all lookups after the passes taken, and from the graph and its
spans alone for any number of passes.

**Compiler passes.** The generic forward data flow engine (`Analyses.dfy`, `Forward.dfy`,
`FlowEngine.dfy`) terminates in a fixed point that is the least solution of a monotone
analysis, above what every path makes of an initial state (`FlowPaths.dfy`). Pattern
elaboration (`Patterns.dfy`, `Elaborations.dfy`, `Alternations.dfy`, `Elaborator.dfy`) fails
exactly on patterns that bind a name twice, test for a class they have bound, or whose
alternatives bind different names, and otherwise gives each name one variable in all
alternatives. The indentation machine (`Indentation.dfy`) emits, while indentation is
consistent, exactly the stream that its levels call for, and closes every level it opens.
After it has reported bad indentation twice it can pop an empty stack, at the end of five
lines already; the model says exactly which lines do, and that one report is never enough.
The streaming digest (`Digests.dfy`) feeds the hash exactly the source's bytes while it
swaps two buffers.

`Graphs.dfy`, `Bytecode.dfy`, `FlowGraphs.dfy` and `Results.dfy` hold what the others share.
`dafny verify dfyconfig.toml` checks the whole project.

## Model

| member | source | states |
|---|---|---|
| `Transfer.FirstDifference` | dolang-bytecode/src/verify.rs:248-256 | the conflict reported between two record stacks of one height is at the first index where they differ |
| `Transfer.MergeIsJoin` | dolang-bytecode/src/verify.rs:198-261 | merging two live states succeeds exactly when operands and record stacks agree, and then gives the least state above both |
| `Transfer.MergeConflicts` | dolang-bytecode/src/verify.rs:230-261 | a failed merge reports the two depths that differ, or the two counts of the outermost record that differs and how many records lie inside it |
| `Transfer.AbsorbedIsLeq` | dolang-bytecode/src/verify.rs:230-261 | on full local lists, a merge that changes nothing is exactly the precision order |
| `Transfer.StepMonotone` | dolang-bytecode/src/verify.rs:684-869 | an instruction accepted on a state is accepted on every more precise one, with a more precise result |
| `WorkStates.WorkState.Pop` | dolang-bytecode/src/verify.rs:263-269 | popping takes one operand, or reports underflow and changes nothing |
| `WorkStates.WorkState.Step` | dolang-bytecode/src/verify.rs:684-869 | stepping in place leaves the state, or reports the error, of `Transfer.Step`, which `Exactness.StepIsExact` proves exact against the machine |
| `Exactness.StepIsExact` | dolang-bytecode/src/verify.rs:684-869 | on a frame that is just as a state says, in depth, records and exactly the locals set, the step refuses an instruction if and only if the machine faults completing it or a record pushed exceeds the limit; otherwise the frame goes on along the edge it takes just as the new state says |
| `Exactness.RefusalExplained` | dolang-bytecode/src/verify.rs:684-869 | a refusal names what is wrong with the frame: too few operands, an operand, record, variable or local that is not there, or a count that differs, and which of several comes first |
| `Exactness.EntryIsExact` | dolang-bytecode/src/verify.rs:909-913 | the entry state is just what a frame is entered with: its arguments, its declared records and no local set |
| `Exactness.DepthIsReached` | dolang-bytecode/src/verify.rs:1093-1104 | the certified depth is no more than needed: the arguments, an instruction or an edge of some block claim just so many operands |
| `WorkStates.SaturatingSum` | dolang-bytecode/src/verify.rs:364-376 | the running saturating sum is the sum, cut off at the largest machine word |
| `FuncVerifiers.FuncVerifier.Syntax` | dolang-bytecode/src/verify.rs:364-586 | accepts exactly the code within static limits, with no faulty instruction and a terminal last one; otherwise reports the first fault, with the meaning `SyntaxChecks.SyntaxBlames` gives it; records block starts and uses |
| `FuncVerifiers.FuncVerifier.SyntaxInst` | dolang-bytecode/src/verify.rs:411-576 | the checks of one instruction: the fault defined for it, whether the next one starts a block, and the function it uses |
| `SyntaxChecks.SyntaxPassesWhen` | dolang-bytecode/src/verify.rs:411-576 | an instruction passes if and only if every table entry the interpreter would index unchecked exists, its slot and function exist, its target is inside the code, it swaps two operands and its else kind is known |
| `SyntaxChecks.SyntaxBlames` | dolang-bytecode/src/verify.rs:411-576 | each error is reported exactly for the fault it names, and of two faults the one that is checked first |
| `SyntaxChecks.SyntaxGivesTables` | dolang-runtime/src/interp.rs:740-905 | so verified code never makes the interpreter index the constants, symbols, builtins, packs or unpacks out of range |
| `FuncVerifiers.FuncVerifier.MarkTargets` | dolang-bytecode/src/verify.rs:588-640 | succeeds exactly if every branch goes to an instruction boundary, and then every target is marked |
| `Exactness.TargetsAreFetched` | dolang-bytecode/src/verify.rs:578-640 | targets pass, and the last instruction does, if and only if the machine finds an instruction wherever a branch, or falling through, takes it |
| `FuncVerifiers.FuncVerifier.BasicBlocks` | dolang-bytecode/src/verify.rs:588-682 | cuts the code into the blocks that branches and terminators define; a claimed certificate must name exactly their offsets |
| `FuncVerifiers.FuncVerifier.VisitBlock` | dolang-bytecode/src/verify.rs:922-1010 | a visit yields the state of every outgoing edge, the first error if there is one, and the greatest depth seen |
| `FuncVerifiers.FuncVerifier.MergeInferred` | dolang-bytecode/src/verify.rs:1035-1053 | merging a flow updates one state, marks it and queues it if it changed while unmarked |
| `FuncVerifiers.FuncVerifier.CheckClaim` | dolang-bytecode/src/verify.rs:1012-1034 | a flow is accepted exactly if the claim absorbs it; the block is queued the first time |
| `FuncVerifiers.FuncVerifier.InferBlock` | dolang-bytecode/src/verify.rs:897-1055 | one turn of the worklist keeps the inference invariant, and an error there means that no solution exists |
| `FuncVerifiers.FuncVerifier.Compute` | dolang-bytecode/src/verify.rs:1076-1091 | inference terminates; success yields the most precise solution with its peak depth, failure means that there is none |
| `FuncVerifiers.FuncVerifier.Check` | dolang-bytecode/src/verify.rs:1093-1104 | checking succeeds exactly on the accepted certificates: right blocks, every block reached and settled, exact peak depth; an error is the fault of a pass, of a reachable block's instruction or of a flow its claim does not absorb |
| `Inference.MergeLowersWeight` | dolang-bytecode/src/verify.rs:1035-1053 | a merge that changes a state makes a neutral block live or a value local invalid, so the weight of the states drops |
| `Inference.EndInferring` | dolang-bytecode/src/verify.rs:897-1074 | with an empty queue the states are a solution, below every solution, live exactly on reachable blocks |
| `Checking.EndVetting` | dolang-bytecode/src/verify.rs:922-1073 | with an empty queue and every block marked, every claim is settled, every block reachable, and the recorded depth is the peak |
| `Solutions.VisitMonotone` | dolang-bytecode/src/verify.rs:922-1010 | a visit that succeeds on a state succeeds on a more precise one, with the same depths and more precise flows |
| `Solutions.PeakUnique` | dolang-bytecode/src/verify.rs:1076-1104 | a certificate below an accepted one, live on every block, has the same peak depth |
| `Certificates.InferCertificate` | dolang-bytecode/src/verify.rs:1076-1104 | inference reaches every block if and only if some certificate that lists every local is accepted, and then its own is accepted |
| `Certificates.CheckCertificate` | dolang-bytecode/src/verify.rs:1093-1104 | checking a function accepts exactly the accepted certificates, and an error says which pass refused it and where |
| `Certificates.InferredIsMostPrecise` | dolang-bytecode/src/verify.rs:897-1104 | an accepted certificate agrees with the inferred one on offsets, operands, records and depth, and claims a value only where it does |
| `Certificates.InferredIsUnique` | dolang-bytecode/src/verify.rs:897-1091 | inference has one result, whatever order its queue is emptied in |
| `Certificates.InferredIsAccepted` | dolang-bytecode/src/verify.rs:1076-1104 | the inferred certificate is accepted if it reaches every block |
| `Programs.VerifyUsed` | dolang-bytecode/src/verify.rs:1120-1147 | terminates for any use graph, succeeds exactly if every function is reachable from function 0, and otherwise names the first that is not |
| `Programs.Check` | dolang-bytecode/src/verify.rs:1168-1190 | a program is accepted exactly if each certificate is and every function is reachable over the uses that `RunUses.RecordedUses` ties to the closures made; a refusal names the first function whose certificate is not accepted, or else the first that is not used |
| `Programs.Compute` | dolang-bytecode/src/verify.rs:1149-1166 | infers a certificate per function; a failure names the first function that has none, after ones that do, or else the first that is not reachable over those uses |
| `RunUses.RecordedUses` | dolang-bytecode/src/verify.rs:491-540 | the uses recorded of a function are exactly the functions its instructions make closures of, guards included |
| `RunUses.ExecMakes` | dolang-runtime/src/interp.rs:1187-1200 | completing an instruction makes closures of those functions, over the records they declare, and no others come into being |
| `RunUses.OnlyUsedRun` | dolang-bytecode/src/verify.rs:1120-1147 | in every run, the function of every frame and of every closure made is reachable over the recorded uses, whether or not all functions are |
| `RunUses.UnusedNeverRuns` | dolang-bytecode/src/verify.rs:1140-1146 | a function that the check reports as unused never runs, and no closure of it is ever made |
| `Soundness.EffectsAgree` | dolang-runtime/src/interp.rs:708-1241 | what the machine does to depths, slots and records is what the verifier's effect of the instruction says |
| `Soundness.BlockEndsAgree` | dolang-bytecode/src/verify.rs:492-576 | blocks end at exactly the instructions after which the machine may be elsewhere without having returned |
| `Soundness.RaisesAgree` | dolang-bytecode/src/lib.rs:486-511 | the instructions said to raise are exactly those that note where they are in the interpreter before running code that can |
| `Soundness.StepAccepted` | dolang-bytecode/src/verify.rs:684-869 | where a certificate is accepted, the verifier's step succeeds at every instruction of every block, within the certified depth |
| `Soundness.FallThroughCovered` | dolang-bytecode/src/verify.rs:922-1055 | control that falls through reaches an instruction whose claim covers the state it brings |
| `Soundness.BranchCovered` | dolang-bytecode/src/verify.rs:880-1055 | control that branches reaches an instruction boundary whose claim covers the state it brings |
| `Soundness.InvokeFits` | dolang-runtime/src/interp.rs:708-1241 | a call leaves its frame waiting for one value, as the verifier counts it |
| `Soundness.LeaveFits` | dolang-bytecode/src/verify.rs:806-814 | a return happens with one operand and exactly the declared records |
| `ProgramSafety.StepOk` | dolang-runtime/src/interp.rs:708-1241 | every step of a verified program that makes modules of packs without spreads only, whatever the oracle chooses, keeps every frame where its certificate says, and does not fault |
| `ProgramSafety.VerifiedRunsAreSafe` | dolang-runtime/src/vm.rs:1484-1494 | entered as the runtime does, no run of a verified and runnable program faults; depth, locals and records stay within what is certified and declared; every closure made has its callee's shape |
| `ProgramSafety.FramesFitSlots` | dolang-bytecode/src/file.rs:575-577 | with the file's limit, operands and locals of every frame of such a run fit its slots |
| `MachineLaws.SwapUndoes` | dolang-runtime/src/interp.rs:68-76 | exchanging two operands twice, in either order, changes nothing |
| `MachineLaws.SwapMoves` | dolang-runtime/src/interp.rs:68-76 | an exchange puts each of the two operands in place of the other and moves no other |
| `MachineLaws.CopiesDrop` | dolang-runtime/src/interp.rs:56-66 | `Dup` is `Pick` of operand 0, a copy can be dropped again, and operands are counted from the top |
| `MachineLaws.StoreThenLoad` | dolang-runtime/src/interp.rs:744-761 | what is stored in a local is loaded from it, and no other local changes |
| `MachineLaws.PopUndoesPush` | dolang-runtime/src/interp.rs:826-846 | removing the record just pushed leaves the frame as it was |
| `MachineLaws.ReifyTakesPushed` | dolang-runtime/src/interp.rs:1064-1083 | making a module of the record just pushed leaves records and locals as they were and one operand more |
| `MachineLaws.RunKeepsBelow` | dolang-runtime/src/interp.rs:708-1241 | while a run stays above some frames, those frames do not change |
| `MachineLaws.CallIsBalanced` | dolang-runtime/src/interp.rs:847-867 | whatever runs in between, once the callee returns, the caller goes on with locals and records as they were and the value in place of callee and arguments |
| `MachineLaws.DispatchIsBalanced` | dolang-runtime/src/interp.rs:766-825 | user code an instruction dispatches to returns to a frame that is just as it was, about to complete the instruction |
| `MachineLaws.GuardIsBalanced` | dolang-runtime/src/interp.rs:1182-1239 | once the guarded function returns, the guard goes on with locals and records as they were, the value and no indicator on top |
| `MachineLaws.GuardCatches` | dolang-runtime/src/interp.rs:1182-1239 | once it is left by a branch, the guard that catches it goes on with locals and records as they were, no value and an indicator on top |
| `EntryFrames.LeapAccepted` | dolang-bytecode/src/verify.rs:853-865 | whatever records function 0 declares, leaving to the frame of the innermost is accepted |
| `EntryFrames.LeapFaults` | dolang-runtime/src/frame.rs:282-306 | entered without records, that program faults |
| `EntryFrames.TakeAccepted` | dolang-bytecode/src/verify.rs:684-869 | whatever number of arguments function 0 takes, dropping one is accepted |
| `EntryFrames.TakeFaults` | dolang-runtime/src/frame.rs:282-306 | entered without arguments, that program faults |
| `EntryFrames.ReifierAccepted` | dolang-bytecode/src/verify.rs:815-825 | making a module of a pack that spreads is accepted, as only lengths are compared |
| `EntryFrames.ReifierFaults` | dolang-runtime/src/interp.rs:1064-1080 | that program faults |
| `EntryFrames.RunnableIsNeeded` | dolang-runtime/src/vm.rs:1484-1494 | for all records and arguments function 0 may declare: no run of any verified program that declares them faults if and only if there are none of either and no module is made of a pack that spreads |
| `ShortLists.ListingEveryLocalIsNeeded` | dolang-bytecode/src/verify.rs:257-261 | certificates that list m locals suffice for decodable, runnable programs with up to n locals if and only if n <= m |
| `ShortLists.ReaderAccepted` | dolang-bytecode/src/verify.rs:257-261 | a program whose certificate lists too few locals in one block is accepted although it reads an unwritten local |
| `ShortLists.ReaderFaults` | dolang-runtime/src/interp.rs:708-1241 | a run of that program faults |
| `ShortLists.ReaderDecodes` | dolang-bytecode/src/lib.rs:864-985 | its code is what its encoding decodes to, whatever slot it reads |
| `ListPanics.PanicMeans` | dolang-bytecode/src/verify.rs:729-742 | a check panics only where a certificate lists fewer locals for a block than an instruction names |
| `ListPanics.FullListsNeverPanic` | dolang-bytecode/src/verify.rs:729-742 | so it never does against a certificate that lists every local |
| `ListPanics.ReaderPanics` | dolang-bytecode/src/verify.rs:729-742 | a program and a short certificate that can be refused with the panic and with nothing else |
| `ListPanics.CheckReader` | dolang-bytecode/src/verify.rs:1093-1104 | checking it ends in the panic |
| `ListPanics.CanPanicWhen` | dolang-bytecode/src/verify.rs:729-742 | certificates that list m locals can make a check of decodable code with up to n locals panic if and only if m < n |
| `Varint.ZigZag` | dolang-bytecode/src/varint.rs:17-23 | zigzag and its inverse are bijections between signed and unsigned machine words |
| `Varint.ZigZagOrder` | dolang-bytecode/src/varint.rs:17-23 | zigzag lists the integers by magnitude, each negative one before its opposite |
| `Varint.UvarRoundTrip` | dolang-bytecode/src/varint.rs:25-77 | decoding an encoding, wherever it stands, gives the value and consumes exactly its encoded length |
| `Varint.UvarMeans` | dolang-bytecode/src/varint.rs:25-77 | the header bits above its lowest set one are the lowest of the value, and the bytes that follow, the lowest first, the rest |
| `Varint.IvarRoundTrip` | dolang-bytecode/src/varint.rs:100-112 | the same for signed values |
| `Varint.UvarShortest` | dolang-bytecode/src/varint.rs:25-77 | no byte string that decodes to a value is shorter than its encoding |
| `Varint.DecodersAgree` | dolang-bytecode/src/varint.rs:57-98 | the checked decoder detects exactly the inputs that are too short, and otherwise agrees with the unchecked one |
| `InstCodec.BuildInverts` | dolang-bytecode/src/lib.rs:864-985 | every instruction is rebuilt from its opcode and operands |
| `InstCodec.InstRoundTrip` | dolang-bytecode/src/lib.rs:864-1175 | decoding an encoded instruction, wherever it stands, gives it back with exact offsets |
| `InstCodec.StreamRoundTrip` | dolang-bytecode/src/lib.rs:1099-1201 | decoding the encodings of any instructions one after another gives them back, end to end |
| `InstCodec.DecodedIsContiguous` | dolang-bytecode/src/lib.rs:1179-1201 | what decodes is instructions that lie end to end over the whole input |
| `InstCodec.BlockDecodes` | dolang-bytecode/src/verify.rs:349-361 | decoding from a block's start to the next block's gives exactly its instructions of the whole function |
| `Readers.ReaderAgrees` | dolang-bytecode/src/lib.rs:1203-1266 | wherever the verifier decodes an instruction, the interpreter, by its own table of opcodes and its own order of operands, reads the same one and the same end without reading out of bounds |
| `Readers.FetchedIsRead` | dolang-runtime/src/interp.rs:708-1241 | so at every place the machine is in decoded code, the interpreter reads from the bytes the instruction the machine performs |
| `InstStreams.InstEncoder.Write` | dolang-bytecode/src/lib.rs:864-985 | writing an instruction appends its opcode and operands |
| `InstStreams.InstEncoder.WriteAll` | dolang-compile/src/emit.rs:136-203 | writing a list of instructions appends their encodings in order |
| `InstStreams.InstDecoder.Next` | dolang-bytecode/src/lib.rs:1099-1201 | the cursor yields the instruction at its position and moves to where it ends |
| `InstStreams.InstDecoder.Collect` | dolang-bytecode/src/lib.rs:1179-1201 | iterating yields all instructions, or the first decoding error |
| `BlockOrders.BlockOrder.AddTrampoline` | dolang-compile/src/emit.rs:75-95 | where both successors are placed, an empty block that goes on to the second is placed next, and nothing else changes its terminator |
| `BlockOrders.TrampolineInbound` | dolang-compile/src/emit.rs:78-95 | a trampoline keeps the lists of inbound blocks exact if and only if the two successors differ |
| `BlockOrders.BlockOrder.Visit` | dolang-compile/src/emit.rs:58-107 | the traversal terminates and lays every block it places: successors placed, one successor of an `If` next |
| `BlockOrders.BlockOrder.Sort` | dolang-compile/src/emit.rs:110-120 | the entry comes first, every reachable block is placed exactly once, and skipping trampolines gives the original graph |
| `BlockOrders.PlacedIsReachable` | dolang-compile/src/emit.rs:58-120 | nothing unreachable is placed |
| `BlockOrders.ReachableIsPlaced` | dolang-compile/src/emit.rs:58-120 | everything reachable is placed |
| `FuncEmitters.FuncEmitter.VisitInsts` | dolang-compile/src/emit.rs:136-205 | a block's bytecode is its instructions but the dropped ones, encoded in order; each has a span entry at its offset, with a span only if it can raise |
| `FuncEmitters.FuncEmitter.VisitTerm` | dolang-compile/src/emit.rs:207-286 | the old terminator is cut off and the one the block order calls for, which `LayoutFlow.ReadyCloses` ties to how the block ends, is written, counted from where the old one ended; its span entry is added the first time only, but taken away every time none is written |
| `FuncEmitters.FuncEmitter.Relax` | dolang-compile/src/emit.rs:335-351 | one pass moves and refits every block in order, and reports exactly whether a block moved; every block that falls through loses its last span entry |
| `FuncEmitters.FuncEmitter.Emit` | dolang-compile/src/emit.rs:325-359 | passes go on until one moves no block; the bytecode is that of the blocks then, and the span entries are those that as many passes have left |
| `FuncEmitters.FuncEmitter.DebugTable` | dolang-compile/src/emit.rs:288-323 | the source map is that of the entries with a span, block by block, or of the definition if there are none |
| `DebugSpans.EntriesAlign` | dolang-compile/src/emit.rs:136-205 | entry by entry, a block's spans stand where its instructions do |
| `DebugSpans.EntriesKeepSpans` | dolang-compile/src/emit.rs:136-205 | a written instruction keeps the span it was lowered from exactly if the machine can raise there |
| `DebugSpans.TermKeepsSpan` | dolang-compile/src/emit.rs:221-288 | the terminator, where one is written, has the last entry, with the span of the block's end unless it is a return |
| `DebugSpans.MarksIncrease` | dolang-compile/src/emit.rs:300-313 | over all blocks the offsets of the entries increase, so the map's encoder never subtracts a larger offset |
| `DebugSpans.EmittedMapPasses` | dolang-bytecode/src/file.rs:695-719 | the map of a function of permitted size passes the file's check |
| `SpanLookups.MapFinds` | dolang-runtime/src/lib.rs:66-72 | a lookup in the map of some marks finds the latest one's span; before the first mark the first one's, and without marks the definition's |
| `SpanLookups.FoundInEffect` | dolang-runtime/src/lib.rs:66-72 | at any byte of an instruction that can raise, a backtrace finds the last span left before or at it |
| `SpanLookups.OwnSpanFoundWhen` | dolang-runtime/src/lib.rs:66-72 | that is its own if and only if its entry was not taken away, or the last span left before it is the same |
| `SpanLookups.AllFoundWhen` | dolang-compile/src/emit.rs:241-244 | every instruction is found at its own span if and only if each span taken away is the one in effect where it was without it |
| `SpanLookups.AlwaysFoundWhen` | dolang-compile/src/emit.rs:241-244 | so it is whatever the number of passes if and only if every span in a block that falls through is the one that the other blocks put in effect there |
| `SpanLookups.MorePassesLose` | dolang-compile/src/emit.rs:334-351 | what is found after some passes is found after fewer |
| `SpanLookups.OwnLastSpanIsLost` | dolang-compile/src/emit.rs:241-244 | after one pass or more, not all are found if a block that falls through ends in a span that is not in effect before it |
| `SpanLookups.EmittedFoundWhen` | dolang-compile/src/emit.rs:288-359 | the same of the map the emitter writes, after the passes it took |
| `SpanLookups.TailMisplaced` | dolang-compile/src/emit.rs:241-244 | two instructions in a block that falls through into a loop: the second is found at the span of the first, so all are found if and only if the two are the same |
| `Layouts.PassIsSequential` | dolang-compile/src/emit.rs:335-351 | after a pass each block starts at the sum of the lengths before it |
| `Layouts.SettledIsExact` | dolang-compile/src/emit.rs:334-351 | when the loop stops, every block but the last counts its displacement from its real end |
| `Layouts.LastIsExactWhen` | dolang-compile/src/emit.rs:334-351 | the last block does if and only if it has no displacement or its length held in the last pass |
| `LayoutFlow.TerminatorDecodes` | dolang-compile/src/emit.rs:207-286 | in the bytecode, the terminator chosen for a block decodes right behind its instructions |
| `LayoutFlow.ReadyCloses` | dolang-compile/src/emit.rs:228-281 | behind a ready block the bytecode holds a return, a non-local branch or an else fall-through exactly if the block ends in it, operands included, a conditional unpack with the block's signature exactly if the block ends in one, a conditional branch for an `If`, and at most a branch for a `Branch` |
| `LayoutFlow.ClosesExactly` | dolang-compile/src/emit.rs:228-281 | what stands behind a block tells how it ends, both ways |
| `LayoutFlow.NextPcIsReached` | dolang-runtime/src/interp.rs:1042-1062 | the machine takes control where the bytecode is said to, with the flag of a branch read as its condition |
| `LayoutFlow.LaidOutFlow` | dolang-compile/src/emit.rs:207-286 | a laid-out terminator takes control to the offset of the successor the laid-out graph gives, and polarity is right |
| `LayoutFlow.EmittedBlock` | dolang-compile/src/emit.rs:136-286 | an original block stands in the bytecode with its own instructions, and ends there as in the original graph |
| `LayoutFlow.OrderedIsLayable` | dolang-compile/src/emit.rs:245-277 | the block order leaves no terminator without the successor it needs next, so neither panic is reached |
| `LayoutFlow.RelaxedIsFinished` | dolang-compile/src/emit.rs:334-351 | when the loop stops all blocks are laid out right if and only if the last block held |
| `LayoutFlow.EmissionPreservesFlow` | dolang-compile/src/emit.rs:58-359 | every original block placed stands in the bytecode with its instructions and its own way of ending, and control follows the original block graph from it, directly or through an empty trampoline |
| `LayoutFlow.LastHoldsUnlessBranch` | dolang-compile/src/emit.rs:207-286 | whatever relaxation does, the last block holds if it does not branch back |
| `LayoutFlow.EmissionPreservesFlowUnlessBranch` | dolang-compile/src/emit.rs:58-359 | then instructions, endings and control are those of the original graph, as the graph alone tells |
| `LastBlocks.ChainSettles` | dolang-compile/src/emit.rs:334-351 | a loop whose blocks fall through settles in one pass |
| `LastBlocks.ChainLands` | dolang-compile/src/emit.rs:334-351 | its last block branches past its target by as many bytes as its displacement grew in that pass |
| `LastBlocks.ChainIsRightWhen` | dolang-compile/src/emit.rs:334-351 | it comes out right if and only if the displacement counted from behind the first guess takes no more bytes than that guess |
| `SpinLoops.SpinLands` | dolang-compile/src/emit.rs:334-351 | a loop that negates a number n times a turn branches past as many of its instructions as its displacement grew by in the pass; for n = 63 past one |
| `SpinLoops.SpinCode` | dolang-compile/src/emit.rs:325-359 | the code written for it is that of the load, the negations and that branch |
| `SpinLoops.SpinVerified` | dolang-compile/src/emit.rs:469-477 | for every n the code written decodes to a program that the verifier accepts and infers a certificate for, wrong branch or not |
| `Analyses.MergeUnchanged` | dolang-compile/src/flow.rs:87-101 | in a semilattice, merging changes nothing exactly if the state is already above |
| `FlowEngines.FlowEngine.StepBlock` | dolang-compile/src/flow.rs:75-85 | a block's instructions and terminator are applied in order, stopping at the first error |
| `FlowEngines.FlowEngine.Merge` | dolang-compile/src/flow.rs:87-101 | a state is replaced by the merge, and the block must be queued exactly if it changed and was not dirty |
| `FlowEngines.FlowEngine.Forward` | dolang-compile/src/flow.rs:103-160 | terminates in a fixed point for every visited block although initial blocks are queued without their bit; for a monotone analysis it is below every solution, and an error means that there is none |
| `FlowEngines.FixedPointIsLeast` | dolang-compile/src/flow.rs:103-160 | if the neutral state sends only neutral states, the result is the least solution |
| `FlowPaths.PathsBelow` | dolang-compile/src/flow.rs:103-160 | a solution of a monotone analysis is above what any path makes of a state under it, instruction by instruction and edge by edge |
| `FlowPaths.FinalAbovePaths` | dolang-compile/src/flow.rs:103-160 | under the same condition, what the engine ends in is above what any path from an initial block makes of its state |
| `Patterns.FollowingShares` | dolang-compile/src/elab.rs:2428-2546 | where every occurrence of a name has one variable, all alternatives of every alternation bind the same names to the same variables |
| `Patterns.ComputedOccurs` | dolang-compile/src/elab.rs:3835-3853 | a pattern has a default to compute exactly if a name or parameter somewhere in it has |
| `Elaborations.NameOutcome` | dolang-compile/src/elab.rs:2428-2492 | binding a name fails exactly if it is taken or the first alternative lacks it, and otherwise binds it to the shared or a new variable |
| `Elaborations.TestOutcome` | dolang-compile/src/elab.rs:2641-2652 | testing for a class fails exactly if the same pattern has bound its name |
| `Elaborations.OutcomesChain` | dolang-compile/src/elab.rs:2669-2690 | patterns in a row act as one that binds both lots of names; the later one may neither bind nor test for a name of the earlier one |
| `Alternations.LaterAlternating` | dolang-compile/src/elab.rs:2505-2534 | a later alternative must bind exactly the names of the first |
| `Alternations.LeftOutcome` | dolang-compile/src/elab.rs:2535-2540 | seen from outside, an alternation binds its names once |
| `Elaborators.Elaborator.BindIdent` | dolang-compile/src/elab.rs:2428-2492 | a name gets its own variable, or in a later alternative the first one's, and every enclosing first alternative notes it |
| `Elaborators.Elaborator.VisitAlternation` | dolang-compile/src/elab.rs:2496-2546 | an alternation fails exactly if its alternatives differ in names or the names do not fit; the names are in scope afterwards, and it has an indicator, a variable made after all of its alternatives', exactly if one of them has a default to compute |
| `Elaborators.Elaborator.VisitPatternInner` | dolang-compile/src/elab.rs:2633-2691 | a pattern fails exactly if it is not well bound or does not fit where it stands |
| `Elaborators.Elaborator.VisitPattern` | dolang-compile/src/elab.rs:2623-2632 | elaboration adds a failure if and only if a name is bound twice or names a class tested for later, or alternatives bind different names; otherwise each name has one new variable, shared by all alternatives; wildcards and indicators each have a variable of their own |
| `Spans.PackRoundTrip` | dolang-bytecode/src/span.rs:54-91 | every word packs exactly one triple in range, and packing clamps |
| `Spans.PackedOrder` | dolang-bytecode/src/span.rs:46-54 | packed spans order by line, column and length |
| `SourceMaps.EncodeSourcemap` | dolang-bytecode/src/file.rs:287-318 | the loop writes one delta entry wherever the span changes |
| `SourceMaps.DecodeSpans` | dolang-bytecode/src/file.rs:324-371 | the loop yields the marks up to the first entry out of range |
| `SourceMaps.VerifyMap` | dolang-bytecode/src/file.rs:695-719 | accepts exactly the maps that are non-empty, within limits and code, start at 0 and change span every time |
| `SourceMaps.MapRoundTrip` | dolang-bytecode/src/file.rs:287-371 | decoding an encoding gives the marks where the span changes, and no delta overflows |
| `SourceMaps.MovedEntries` | dolang-bytecode/src/file.rs:287-322 | once a first mark is set, code moved down by some lines has the same entries |
| `SourceMaps.MapSample` | dolang-bytecode/src/file.rs:287-322 | a map in full: offsets count from just past the last entry, columns from the last one on the same line only, and repeated spans have no entry |
| `SourceMaps.LookupFinds` | dolang-runtime/src/lib.rs:66-72 | in the map of some instructions, looking up the offset of one finds its span |
| `SourceMaps.BinarySearch` | dolang-runtime/src/lib.rs:66-72 | finds a mark at the offset, or else where it would be inserted |
| `SourceMaps.Locate` | dolang-runtime/src/lib.rs:66-72 | finds the latest mark at or before the offset; there is none exactly under the first mark |
| `SourceMaps.PassedLocates` | dolang-bytecode/src/file.rs:695-719 | in a map that passes the file's check, every offset is found |
| `SourceMaps.EncodedPasses` | dolang-bytecode/src/file.rs:695-719 | the map of any instructions of a function of permitted size passes the check |
| `SourceMaps.PassingIsEncoded` | dolang-bytecode/src/file.rs:695-719 | every map that passes is the encoding of what it decodes to |
| `SourceMaps.PassesExactly` | dolang-bytecode/src/file.rs:695-719 | for a function of permitted size, the file check passes exactly the maps of instructions that lie inside it |
| `Locations.CoordAt` | dolang-compile/src/source.rs:244-257 | the coordinate of a character is its line, and the bytes since that line's first character |
| `Locations.LocateRoundTrip` | dolang-compile/src/source.rs:188-221 | looking a located range up gives it back if and only if its line, column and length fit a packed span |
| `Locations.EndRoundTrip` | dolang-compile/src/source.rs:223-230 | the end of a location that fits is the line and character column of the range's end |
| `Locations.File.constructor` | dolang-compile/src/source.rs:150-163 | the file records the offset of every newline |
| `Utf8.CharShape` | dolang-compile/src/source.rs:237-241 | continuation bytes tell characters apart, and only a newline contains the newline byte |
| `Indentation.Lexer.CheckIndent` | dolang-compile/src/lex.rs:1775-1814 | one check in any state: which token it emits, whether it pops an empty stack, and the state after it |
| `Indentation.Lexer.Settle` | dolang-compile/src/lex.rs:1752-1814 | the checks a line takes emit exactly these tokens, in order, and end where the line calls for, with one report exactly if its level gives way to none; they panic exactly if every level on the stack is deeper |
| `Indentation.Lexer.Newline` | dolang-compile/src/lex.rs:1685-1705 | a line yields a statement separator if and only if its indentation is the current level or the first there is, and then what moves the level |
| `Indentation.Lexer.End` | dolang-compile/src/lex.rs:1738-1749 | the end of the input panics exactly if no open level lies at the baseline or under it, and otherwise closes down to it |
| `Indentation.LexAll` | dolang-compile/src/lex.rs:1669-1814 | for every input: its tokens in order, whether it panics, and otherwise a dedent for each indent and each level the parser opened, but those left on the stack; consistent input gives the stream of its levels, and none is left |
| `Indentation.TokensAreStream` | dolang-compile/src/lex.rs:1669-1814 | consistent input gives, from its levels alone, a separator for a line at the innermost level, an indent for a deeper one, otherwise a dedent per level closed, nothing for a level the parser opens, and at the end a dedent for each level but the first |
| `Indentation.LinePanics` | dolang-compile/src/lex.rs:1793-1795 | a line panics if and only if it is shallower than the current level, not under the baseline, and every level on the stack is deeper |
| `Indentation.GroundedMeans` | dolang-compile/src/lex.rs:1752-1814 | no next line panics if and only if some open level lies at the baseline or under it |
| `Indentation.LineGrounded` | dolang-compile/src/lex.rs:1784-1807 | from a state where the baseline can be reached, no line panics, and every line keeps it in reach but exactly those that close the only level at the baseline or under it, without matching it, while levels of an earlier baseline are left |
| `Indentation.OneReportIsSafe` | dolang-compile/src/lex.rs:1784-1807 | no input with at most one line of bad indentation panics |
| `Indentation.TwoReportsCanPanic` | dolang-compile/src/lex.rs:1793-1795 | an input of five lines, two of them reported, at whose end an empty stack is popped |
| `Indentation.ReportsInconsistent` | dolang-compile/src/lex.rs:1752-1814 | bad indentation is reported exactly if some line's level is neither deeper nor open; otherwise every level is closed at the end |
| `Digests.Fill` | dolang-ext-digest/src/digest.rs:121-154 | a chunk is filled with the next bytes, however short the reads, until it is full or the input ends |
| `Digests.Absorb` | dolang-ext-digest/src/digest.rs:187-232 | the hash absorbs exactly the source's bytes in order, and after a failed read exactly the whole chunks before it |

## Left out

- FuncVerifiers.FuncVerifier.Syntax: takes decoded instructions with their offsets; invalid opcodes and truncated operands are errors of `InstStreams.InstDecoder.Collect` instead of syntax errors.
- FuncVerifiers.FuncVerifier.Compute: requires what the file checks establish, non-empty code and a signature in the table (dolang-bytecode/src/file.rs:537-564).
- Certificates.InferCertificate: certificates are those that list every local for every block; `ShortLists.ListingEveryLocalIsNeeded` shows that the hypothesis cannot be dropped.
- ProgramSafety.VerifiedRunsAreSafe: values, native code, errors raised and the contents of records are an oracle's choice; runs are of programs that are runnable in the sense that `EntryFrames.RunnableIsNeeded` shows to be exact.
- Exactness.StepIsExact: instructions that make a module of a pack that spreads are set aside; the verifier accepts them by length and the machine faults on every one, as `EntryFrames.RunnableIsNeeded` accounts for.
- MachineLaws.GuardCatches: which guard a non-local branch is meant for and the indicator it carries are not modelled; any guard it reaches may catch it.
- Transfer.StepMonotone: operand counts are unbounded, with the neutral state a constructor instead of the depth `usize::MAX`; the panic on a checked certificate whose local list is too short to index is an error of its own, `LocalListTooShort`.
- LastBlocks.ChainIsRightWhen: the condition on the code alone is for functions whose other blocks all fall through; for all functions, `Layouts.LastIsExactWhen` gives it in terms of the last pass.
- FuncEmitters.FuncEmitter.Emit: relaxation is not claimed to end, so it takes a limit on passes; without one, everything proved of its result holds whenever the loop stops.
- SpanLookups.OwnSpanFoundWhen: a span is taken to be the location it is turned into when the map is written.
- LayoutFlow.EmissionPreservesFlow: displacements and operands must fit machine words; where they do not, the program panics or wraps.
- BlockOrders.BlockOrder.Sort: that the success block of an `UnpackIf` has no other predecessor is a hypothesis, as it depends on lowering, which is not modelled.
- FuncEmitters.FuncEmitter.VisitInsts: instructions are those of the bytecode, with the indices of their tables filled in.
- FlowEngines.FlowEngine.Forward: an analysis is a set of functions without state of its own, and `fork` yields one state per successor; finite height is a rank that drops whenever a state grows.
- Elaborators.Elaborator.VisitPattern: expressions in defaults are not visited, so neither are the names a lambda in a default would add to an enclosing alternation; classes are taken to be bound somewhere and not to be `_`; errors that abort elaboration and the wording of diagnostics are not modelled.
- Varint.ZigZag: the shifts and the exclusive or of the two's complement representation are written as arithmetic; little-endian bytes likewise.
- Spans.PackRoundTrip: shifting and joining bit fields is written as arithmetic.
- SourceMaps.MapRoundTrip: instruction offsets are taken to increase strictly, as the encoder's subtraction demands; `DebugSpans.MarksIncrease` shows that the emitter's do.
- Locations.LocateRoundTrip: offsets are unbounded, where the program refuses files of 4 GiB or more.
- Indentation.LexAll: here strings are not modelled, and a line without a baseline is told by an option instead of the largest offset.
- Digests.Absorb: a hash is the bytes it has absorbed, the blocking pool's work is done when it is awaited, and interrupts count as failed reads.
- Hash maps and hash sets are maps and sets, and the order in which their elements are visited does not matter to any result.
- The file format, tables other than functions, the runtime's value operations, lowering, the parser, type checking, message rendering and the raw lexer are not modelled; a claim that every index in an accepted file is in range would be false, as default indices of optional arguments are not checked (dolang-bytecode/src/file.rs:625-654).
