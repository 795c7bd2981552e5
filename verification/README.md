# MyJIT: a verified model of the compiler's middle

MyJIT takes a list of operations over any number of virtual registers and turns
it into machine code.  This project models what happens between the two: long
immediates are lowered, dead code is removed, liveness is computed, operations
are rewritten and fused, and a linear scan puts virtual registers into hardware
registers and stack slots, inserting moves and repairing every control edge.
The main theorem is compiler correctness (`Compiler.CodeDoesWhatSourceDoes` and
its converse): for every function of a list and every combination of options, what
comes out, run on hardware registers and slots, returns what the function did in the
list the program built.  What the theorem asks for can be met: for every list there is
an output (`Generation.EveryListIsCompiled`), and one list is followed all the way
through the default AMD64 build (`Example.CodeReturns21`).

The parts, from the bottom up:

| files | what they model |
|---|---|
| `Bits`, `Ops`, `OpList` | arithmetic on bits; operations; the doubly linked operation list |
| `Llrb`, `LlrbHeap` | the left-leaning red-black tree, as values and in place on the heap |
| `Flow`, `DeadCode`, `Removal` | liveness to a fixed point; reachability marking; what removal does to runs |
| `Moving`, `Insertion`, `Reaching` | operations at other positions of the list; putting operations in front of others; all that a run can come to |
| `Statistics`, `RegMap`, `RegAlloc`, `Allocator` | next-use hints; register maps and the spill choice; the allocator, as functions and as methods that change operations in place |
| `Machine`, `AllocMoves`, `AllocSteps`, `EdgeRepair`, `Allocation`, `AllocSim`, `AllocTheorem` | the virtual and the hardware machine; moves; edges; the simulation |
| `NeededMoves` | the allocator moves nothing that is not needed |
| `Rewrites`, `Merging`, `UnusedAssign`, `StoreFold`, `Fusion` | the rewriting passes and what each does to runs |
| `Complete`, `Carry` | nothing is left for a pass to do; the carry of additions of two words |
| `Data` | data among the code |
| `LongImm`, `LongImmList` | long immediates, operation by operation and as a change of the list |
| `Spills`, `SpillList` | the spills in front of the targets of indirect jumps; what they do to runs |
| `Shapes`, `Layout`, `Liveness` | the shape of a list, which every pass keeps; what exact liveness is good for |
| `Front`, `Passes`, `Pipeline`, `Compiler` | the passes before the flow analysis; those after it; the allocator behind them; the whole way |
| `WordMachine`, `Feasible`, `Generation`, `Example` | liveness, hints and walks exist for every list, and so does an output; a machine and a list with two functions |
| `Amd64Args`, `Amd64Call`, `Amd64Prepare`, `Amd64Save`, `Amd64Bridge` | argument passing on AMD64; registers saved around a call; the call as the allocation theorem sees it |
| `Arm32Imm` | ARM immediates, encoder against decoder |
| `SparcMul` | multiplication by constants on SPARC |
| `Findings` | concrete programs that rewriting changes |

The machine is generic: `Machine.Env` says what an operation computes, what it
does to memory, when a branch is taken and what a called function returns, so
the allocation theorem holds for every word size and every memory.  Where the
arithmetic is the point (`StoreFold`, `Fusion`, `SparcMul`, `Arm32Imm`) words and
memory are concrete, and so they are in `Passes`, `Pipeline` and `Compiler`, which
use them.

## Model

| member | source | states |
|---|---|---|
| Llrb.InsertIsUpdate | myjit/llrb.c:99-124 | insertion keeps every valid tree valid (ordered, balanced, left-leaning, black root), is map update, and reports a key that was there |
| Llrb.DeleteIsRemoval | myjit/llrb.c:178-216 | deletion, also of an absent key, keeps every valid tree valid and is map removal |
| Llrb.HeightIsLogarithmic | myjit/llrb.c:72-84 | two to the height is at most the square of one more than the number of keys |
| Llrb.AddAllIsUnion | myjit/llrb.c:221-228 | adding a whole tree is map union, the added entries winning |
| Llrb.CloneIsCopy | myjit/llrb.c:230-233 | a clone has the same entries |
| Llrb.EqualDecides | myjit/llrb.c:264-273 | the mutual subset test decides equality of key sets |
| Llrb.SizeIsCardinality | myjit/llrb.c:275-279 | the recursive size is the number of keys |
| Llrb.ReachableTreeAnswersAsMap | myjit/llrb.c:99-216 | after any inserts and deletes from the empty tree, search answers as the map does and the height is logarithmic |
| LlrbHeap.TreeNode.constructor | myjit/llrb.c:88-97 | a new node is a red leaf |
| LlrbHeap.RotateLeft | myjit/llrb.c:45-53 | the links and colours changed in place are the rotation, on the same nodes |
| LlrbHeap.Fixup | myjit/llrb.c:72-84 | the in-place repair is the repair of the tree's value, on the same nodes |
| LlrbHeap.Insert | myjit/llrb.c:118-124 | in place: the new tree is valid, its entries are the old ones updated, only fresh nodes are added |
| LlrbHeap.DeleteMin | myjit/llrb.c:163-176 | in place: the least entry leaves, and exactly its node is freed |
| LlrbHeap.DeleteNode | myjit/llrb.c:178-209 | in place: the value is that of the specification, and what leaves the tree is exactly the one node that is freed |
| LlrbHeap.Delete | myjit/llrb.c:211-216 | deletion in place is map removal; a node is freed just when the key was there, and no other node is lost |
| LlrbHeap.Search | myjit/llrb.c:127-132 | finds the node of the key, or none when the map has none |
| OpList.Append | myjit/jitlib-core.h:234-240 | splicing in behind an operation keeps one doubly linked list with the new one in that place |
| OpList.Prepend | myjit/jitlib-core.h:242-248 | the same in front of an operation |
| OpList.Delete | myjit/jitlib-core.h:279-283 | the list goes on without the operation, which still knows its successor |
| Flow.FlowOut | myjit/flow-analysis.h:181-207 | what flows out is what did before and what any successor needs, nothing after a return |
| Flow.StepKeepsSound | myjit/flow-analysis.h:181-226 | analysing one operation keeps every member of a set justified by a control path, and sets only grow, also at PROLOG and RET |
| Flow.SizesTell | myjit/flow-analysis.h:186-225 | unchanged sizes mean unchanged sets |
| Flow.LessMissing | myjit/flow-analysis.h:228-246 | every round that changes something leaves less to be found: the loop ends |
| Flow.StableIsExact | myjit/flow-analysis.h:228-246 | at the fixed point a register is in a set exactly when some control path reaches a use of it before an assignment |
| Flow.AnalyzeFunction | myjit/flow-analysis.h:228-246 | the loop ends with exact liveness for the function |
| Flow.FlowAnalysis | myjit/flow-analysis.h:248-267 | liveness is exact for every function of the list |
| Flow.ClosedLiveness | myjit/flow-analysis.h:228-246 | a function that keeps control has the same liveness whatever other functions need |
| Flow.TakenIsLive | myjit/flow-analysis.h:37-48 | the argument a GETARG takes is live before it, and so is the second register of a floating-point argument that needs one |
| Flow.NothingAfterReturn | myjit/flow-analysis.h:201-204 | nothing is live after RET and FRET |
| Flow.ArgumentsAreFilled | myjit/flow-analysis.h:54-64 | no argument is live before the PROLOG, which fills them all |
| DeadCode.MarkLivecode | myjit/flow-analysis.h:269-281 | the recursion ends, also on cycles, and what it adds is reachable and closed under fall-through and jumps |
| DeadCode.ReachableIsLeast | myjit/flow-analysis.h:269-300 | the reachable operations are the least closed set with the roots |
| DeadCode.NothingBehind | myjit/flow-analysis.h:269-281 | marking does not go on behind RET, FRET and JMP |
| DeadCode.DeadCodeAnalysis | myjit/flow-analysis.h:283-324 | an operation is in use exactly when it is reachable or has one of the nine codes of directives, written out; what is removed has no mark, and the rest stays in order |
| Removal.KeptNodesAreKeptOps | myjit/flow-analysis.h:316-324 | the list that is left holds exactly the kept operations, in order |
| Removal.RemovalPreservesRuns | myjit/flow-analysis.h:283-324 | whatever is kept beside what a run can come to, a run of the shorter list is a run of the list, step by step |
| Removal.StayingSurvive | myjit/flow-analysis.h:283-324 | what the marks make stay is what can be reached, the listed directives and the spills |
| Data.ImageStays | myjit/flow-analysis.h:283-324 | what is laid out among the code (data, alignment, labels, the head of the list) is unchanged by removal, references following, exactly when no DATA_BYTES is out of reach |
| Data.ReferencesLead | myjit/flow-analysis.h:283-324 | what a reference that is kept leads to is kept |
| Data.DataBehindStays | myjit/flow-analysis.h:269-281 | all that stands behind what living code refers to is reachable, and stays |
| Data.ImageOfFlat | myjit/jitlib-core.c:191-227 | putting moves and spills in front of operations does not change it either |
| Data.RowOfBytesGoes | myjit/flow-analysis.h:295-306 | behind a return a DATA_BYTE stays and a DATA_BYTES does not |
| Spills.PrepareSpills | myjit/jitlib-core.c:391-398 | in place: the list becomes the old nodes in order with, in front of every operation, one new spill for each code reference to it |
| Spills.ArrangedIsLonger | myjit/jitlib-core.c:391-398 | the operations on that list, jumps following, are those of the longer list |
| SpillList.SpillsPreserveRuns | myjit/jitlib-core.c:391-398 | wherever jumps go past the spills, the longer list runs as the list does |
| Statistics.NextUsesAreExact | myjit/reg-allocator.h:483-538 | the next use of a register is here exactly when the operation mentions it |
| Statistics.PosIsDistance | myjit/reg-allocator.h:483-538 | the position of an operation is its distance from the end of its function |
| Statistics.NextUseIsNearest | myjit/reg-allocator.h:483-538 | the next use is at the nearest operation of the function, from here on, that mentions the register |
| Statistics.CollectStatistics | myjit/reg-allocator.h:477-539 | the backward pass over cells that operations share leaves at every operation exact next-use hints, and tallies that count the returns that mention the register and the calls it lives across since its last mention |
| RegMap.RmapSpillCandidate | myjit/rmap.h:210-244 | the loop finds the first register with the best score and what it holds |
| RegMap.BestOfIsBest | myjit/rmap.h:154-244 | no register scores higher than the one chosen, and what is said about spilling is true |
| RegMap.ScoreAboveSentinel | myjit/rmap.h:154-207 | a register scores above the sentinel exactly when it holds no operand of the operation |
| RegMap.SpillCandidateExists | myjit/rmap.h:210-244 | with three or more registers there is always a choice, and it never evicts another operand |
| RegMap.FreeAgainstHeld | myjit/rmap.h:154-207 | a free register beats a held one, and is beaten by it, exactly when the next use of what that holds is nearer, or farther, than the weights say |
| RegMap.LaterIsGivenUp | myjit/rmap.h:154-207 | of two held registers the one needed later is given up, a dead one being worth two thousand operations |
| RegMap.FreeByWeight | myjit/rmap.h:154-207 | of two free registers calls, returns and priorities decide, by their weights |
| RegAlloc.AssociateRegister | myjit/reg-allocator.h:379-398 | the operand gets a register, no other operand loses its own, the map stays injective and in the pool |
| RegAlloc.VacateArgRegs | myjit/reg-allocator.h:170-222 | no argument register about to be written holds a virtual register |
| RegAlloc.AssignRegs | myjit/reg-allocator.h:400-460 | at a CALL the return register is free; the map stays injective and in the pool |
| AllocMoves.PrepareTracks | myjit/reg-allocator.h:170-222 | the moves at a PREPARE lose no live value: each is where the new map says, or in its slot |
| AllocMoves.MakeFreeRegTracks | myjit/reg-allocator.h:60-72 | spilling a register for another one loses no live value |
| NeededMoves.AssignNeeds | myjit/reg-allocator.h:400-460 | in front of an operation only what is live is stored, and only what the operation reads is loaded |
| NeededMoves.GetargIsFree | myjit/reg-allocator.h:236-266 | an argument costs nothing exactly when it fills a register, is still in it and is not read again: its register is handed over |
| NeededMoves.RepairNeeds | myjit/rmap.h:123-152 | an edge stores only what the target wants elsewhere and loads only what it wants in another place |
| EdgeRepair.EdgeRepaired | myjit/rmap.h:123-152 | unloading all that differs and then loading all that differs establishes the target's map for every needed register, whatever the two injective maps |
| EdgeRepair.EqualMapsNeedNoRepair | myjit/rmap.h:91-121 | when the maps agree on what is live at the target nothing needs to move |
| EdgeRepair.EqualMapsAgree | myjit/rmap.h:91-121 | the test says whether both maps have the same places for what is live at the target |
| EdgeRepair.TreeWalksRepair | myjit/rmap.h:123-152 | the two walks over the trees insert exactly those moves |
| EdgeRepair.AssociatedTreeIsAssociated | myjit/rmap.h:49-72 | the recursive search finds the virtual register a hardware register holds, if any |
| Allocator.JitOp.AssociateRegister | myjit/reg-allocator.h:379-398 | the operation's map, moves and register change as the specification says |
| Allocator.JitOp.SpillRegisters | myjit/reg-allocator.h:320-340 | every live mapped register is stored when the spill is in use, and all such mappings go |
| Allocator.JitOp.AssignRegs | myjit/reg-allocator.h:400-460 | one operation's map, moves, registers and code, from those of the operation before |
| Allocator.JitOp.BranchAdjustment | myjit/reg-allocator.h:592-649 | a branch whose maps differ is inverted around a jump and a patch; any other stays |
| Allocator.JitAssignRegs | myjit/reg-allocator.h:651-664 | the loops over the list produce the allocated list of the theorem, with the orders in which the trees are walked |
| Allocator.WalksDoNotMatter | myjit/rmap.h:123-152 | the order of a walk changes no map |
| AllocSim.SimCompute | myjit/reg-allocator.h:400-460 | an operation left as it is computes the same from hardware registers, branches alike, and finds every needed register in place after it |
| AllocSim.SimInverted | myjit/reg-allocator.h:592-649 | an inverted branch around the inserted jump goes where the branch goes, with the target's map established on the taken path and nothing moved on the other |
| AllocSim.SimJump | myjit/reg-allocator.h:567-590 | a jump arrives with the target's map established |
| AllocTheorem.SimCall | myjit/reg-allocator.h:296-318 | the called function gets the values of the arguments put, and every value live after the call survives it |
| AllocTheorem.SimIndirect | myjit/reg-allocator.h:280-294 | a jump through a register reaches a target with everything live in its slot |
| AllocTheorem.SimStep | myjit/reg-allocator.h:400-460 | one step of the function is some steps of its allocated form |
| AllocTheorem.AllocationPreservesMeaning | myjit/reg-allocator.h:651-664 | every run of the function is matched by its allocated form: while it runs every needed register is where the map says, and it returns the same value and memory |
| AllocTheorem.AllocatedResultIsMeant | myjit/reg-allocator.h:651-664 | what the allocated form returns is what the function returns, if it never gets stuck |
| Rewrites.AgreeingStep | myjit/flow-analysis.h:181-226 | states that agree on what sound liveness says is needed step to states that agree |
| UnusedAssign.OptimizeUnusedAssignments | myjit/x86-common-stuff.c:96-110 | an operation becomes NOP exactly when it assigns a register that is not live after it and is none of ADDC, ADDX, SUBC and SUBX |
| UnusedAssign.UnusedAssignmentsPreserveRuns | myjit/x86-common-stuff.c:96-110 | no run changes, and the liveness, not computed again, stays sound |
| Carry.DroppingKeepsCarry64 | myjit/x86-common-stuff.c:96-110 | on a machine of 64-bit words whose state holds the carry no run of an analysed function changes, and nothing is asked of the program |
| Carry.TwoWordSum | doc/README:68-71 | on that machine ADDC and ADDX add numbers of two words |
| Carry.TwoWordDifference | doc/README:75-78 | and SUBC and SUBX subtract them |
| Complete.NothingUnused | myjit/x86-common-stuff.c:96-110 | after the pass no operation but those four assigns a register that is not live after it |
| Merging.MergePreservesRuns | myjit/x86-common-stuff.c:124-148 | merging two adjacent operations whose joint effect is kept changes no run |
| StoreFold.OptimizeStOps | myjit/x86-common-stuff.c:30-72 | the pass over the list is the fold of the specification |
| StoreFold.FoldExact | myjit/x86-common-stuff.c:30-72 | folding a constant into a store of any size keeps its effect exactly when the stored register is no address operand |
| StoreFold.FoldingPreservesRuns | myjit/x86-common-stuff.c:30-72 | under that condition the whole pass changes no run, and what is needed only shrinks |
| Complete.NoStoreIsLeft | myjit/x86-common-stuff.c:30-72 | after the pass no constant of 32 bits is moved into a register, stored by the next operation and dead |
| Fusion.MuliAddiExact | myjit/x86-common-stuff.c:190-200 | multiply or shift, then add a constant: exact just when the addition reads the product |
| Fusion.MuliAddrExact | myjit/x86-common-stuff.c:216-231 | the same for an added register |
| Fusion.MuliOriExact | myjit/x86-common-stuff.c:202-214 | the same for a small OR, which is then an addition |
| Fusion.AddrAddiExact | myjit/x86-common-stuff.c:252-267 | add, then add or subtract a constant: exact just when the second reads the first and a subtracted constant is its own negative |
| Fusion.AddiAddrExact | myjit/x86-common-stuff.c:274-291 | add or subtract a constant, then add: exact just when the negated or doubled displacement fits 32 bits, or the sum is not read and the displacement is nothing |
| Fusion.JoinIsExact | myjit/x86-common-stuff.c:140-148 | all pairs of both passes: the fused operation is right exactly under the condition of its pair |
| Fusion.OptimizeJoin | myjit/x86-common-stuff.c:233-303 | either pass over the list is the fusion of the specification and reports whether it changed anything |
| Fusion.FusionPreservesRuns | myjit/x86-common-stuff.c:233-303 | under those conditions a pass changes no run, on 32-bit and 64-bit machines |
| Complete.JoinsThese | myjit/x86-common-stuff.c:190-303 | exactly the pairs of operations written out are joined |
| Complete.NoPairIsLeft | myjit/x86-common-stuff.c:233-303 | after each fusing pass none of its pairs is left |
| LongImm.OverflowIsOutOfRange | myjit/jitlib-core.c:136-147 | the bit-mask test is exactly the range test |
| LongImm.CorrectLongImms | myjit/jitlib-core.c:191-227 | the pass over the list lowers each operation as the specification says: exactly those with an immediate out of range and a code outside the list of exceptions, written out |
| LongImm.OthersTaken | myjit/jitlib-core.c:193-209 | operations that are not in immediate form, and those on the list of exceptions, are taken whatever their operands |
| LongImm.RemainingImmsFit | myjit/jitlib-core.c:191-227 | every immediate left in an operation outside that list is in range |
| LongImm.LoweringPreservesRuns | myjit/jitlib-core.c:191-227 | lowering changes no run of a program that does not use the register set aside |
| LongImmList.LoweredListPreservesRuns | myjit/jitlib-core.c:215-225 | the same for the one list that the prepended moves and the operations make, jumps following |
| LongImmList.LoweredRunsInFields | myjit/jitlib-core.c:191-227 | and so it does on a machine that keeps only the bits of an immediate its field has |
| Moving.MovedStep | myjit/jitlib-core.h:234-283 | an operation at another position of the list does the same, jump targets and addresses following |
| Liveness.ExactIsSound | myjit/flow-analysis.h:228-246 | exact liveness of a function in a list of functions is what the rewriting passes rely on |
| Front.LoweredRuns | myjit/jitlib-core.c:402-405 | a function whose immediates were lowered does what it did |
| Front.SpilledRuns | myjit/jitlib-core.c:410 | a function with spills put in does what it did, data references included |
| Front.KeptRuns | myjit/jitlib-core.c:412-414 | a function rid of dead code does what it did |
| Front.KeptIsReady | myjit/jitlib-core.c:412-415 | the list that is left has the shape the flow analysis asks for, and the function still keeps control |
| Passes.SecondReads | myjit/x86-common-stuff.c:124-138 | where the first operation of a pair that would be fused is not unused, the second reads it |
| Passes.PassesPreserveRuns | myjit/jitlib-core.c:418-432 | whichever rewriting passes run, no run changes, and the liveness found still serves if nothing was fused |
| Pipeline.SoundFeedsAllocator | myjit/jitlib-core.c:423-440 | sound liveness within the sets it is given is what the allocator relies on |
| Pipeline.FunctionCompiled | myjit/jitlib-core.c:415-440 | from the flow analysis on, with every choice of passes and with or without a second analysis, the code does what the function does |
| Compiler.CodeDoesWhatSourceDoes | myjit/jitlib-core.c:400-440 | from the list the program built, with any number of functions and every choice of options, the code does what the function does |
| Compiler.CodeReturnsWhatSourceReturns | myjit/jitlib-core.c:400-440 | what the code returns is what the function returns, if the function never gets stuck |
| Generation.EveryListIsCompiled | myjit/jitlib-core.c:400-440 | for every list the program may build there are marks, liveness, hints, walks and an allocated list that the theorem is about, given what the passes and the allocator rely on |
| Generation.EveryRunBegins | myjit/jitlib-core.c:400-440 | from every state of the source at its PROLOG a run of the code begins |
| Generation.PreparedAll | myjit/jitlib-core.c:402-415 | what holds of every operation of the program and of those put in, and survives lowering and moving, holds of every operation that is analysed |
| Generation.NothingLongIsLeft | myjit/jitlib-core.c:402-415 | no operation that is analysed has an immediate its field would cut |
| Generation.OnlyReachedIsLeft | myjit/jitlib-core.c:412-415 | with dead code removed every operation that is analysed can be reached, or is a directive or a spill |
| Example.TwoFunctionsOk | myjit/jitlib-core.c:91-129 | a list headed by CODESTART, with two functions, is a source for every build |
| Example.DefaultBuildIsMet | myjit/jitlib-core.c:90-104 | as AMD64 is set up by default, with lowering and fusion, everything the theorem asks for holds together for that list, on a concrete machine |
| Example.CodeReturns21 | myjit/jitlib-core.c:400-440 | the code of five times four plus one, lowered, fused and allocated, returns 21 from every state |
| Amd64Args.ExcessIsOnStack | myjit/amd64-specific.h:61-79 | the arguments beyond the registers of both kinds are exactly the earlier ones on the stack |
| Amd64Args.InitArgParams | myjit/amd64-specific.h:51-86 | an argument record gets its register, or its stack position, and no other record changes |
| Amd64Args.PrepareArguments | myjit/jitlib-core.c:355-389 | every declared argument is looked for in its place: the next register of its kind, or 16 plus 8 for each earlier one on the stack |
| Amd64Args.PreparedArgs.PutArg | myjit/jitlib-core.h:312-325 | an integer argument is recorded with its number, and the stack size counts the arguments on the stack |
| Amd64Args.PreparedArgs.FputArg | myjit/jitlib-core.h:327-346 | the same for a floating-point argument |
| Amd64Call.EmitPasses | myjit/amd64-specific.h:91-198 | the code of one argument passes its value, in its register or on the stack |
| Amd64Call.FoundInPlace | myjit/amd64-specific.h:200-235 | the called function finds, in each argument's place, the value read for it |
| Amd64Call.CallPasses | myjit/amd64-specific.h:200-235 | all arguments arrive from every state exactly when no argument in %rax comes before one moved through %rax |
| Amd64Call.RaxTells | myjit/amd64-specific.h:228-233 | at the call %al holds how many arguments are in floating-point registers |
| Amd64Call.EmitArguments | myjit/amd64-specific.h:200-235 | the downward loop emits that code, with the padding |
| Amd64Call.EmitFuncall | myjit/amd64-specific.h:237-263 | the bytes popped are the bytes pushed, the stack below is untouched and aligned at the call; the call goes to the label, the address or the value of the register meant, and finds its arguments |
| Amd64Prepare.PreparedIsSafe | myjit/reg-allocator.h:170-222 | after a PREPARE no integer argument comes from a register another one is passed in, whatever else is passed |
| Amd64Prepare.CalleeIsSafe | myjit/reg-allocator.h:296-318 | a called address that is still in a register at the CALL is in one that passing the arguments does not write |
| Amd64Save.EmitPushCallerSaved | myjit/common86-specific.h:132-160 | the two loops emit the stores of exactly the registers a call does not keep that hold what is live at the CALL |
| Amd64Save.EmitPopCallerSaved | myjit/common86-specific.h:162-188 | the two downward loops emit the loads of the same registers in the reverse order |
| Amd64Save.SavedComeBack | myjit/common86-specific.h:132-188 | whatever happens in between, pushed registers come back, no other register and nothing above changes, and the stack pointer is as before |
| Amd64Save.SurvivorsAreSaved | myjit/common86-specific.h:132-160 | what survives a call for the allocator is what the called function keeps and what is pushed |
| Amd64Save.CallKeepsSurvivors | myjit/common86-specific.h:132-188 | after a call that keeps callee-saved registers and the stack, every register the allocator counts on holds what it did |
| Amd64Bridge.CalleeFindsArguments | myjit/amd64-specific.h:200-235 | the called function finds the very arguments the machine of the allocation theorem hands it, from every state exactly when no argument in %rax comes before one moved through %rax |
| Amd64Bridge.CallGoesWhereRead | myjit/amd64-specific.h:237-245 | a call through a register goes where the machine of the allocation theorem reads |
| Amd64Bridge.PrologFinds | myjit/reg-allocator.h:76-97 | at a PROLOG an integer argument is looked for in a register exactly when it is passed in one, and in that one |
| Amd64Bridge.CallerMeetsCallee | myjit/reg-allocator.h:76-97 | what the machine of the allocation theorem hands over as argument k is what the start of the called function holds for it |
| Amd64Prepare.ReturnRegStays | myjit/reg-allocator.h:170-190 | when no callee-saved register is free, a live value in the return register is stored but stays there |
| Amd64Prepare.ReturnRegMoves | myjit/reg-allocator.h:170-190 | a live value in the return register moves to a free callee-saved register, if one wins, and the return register is free |
| Amd64Prepare.SoonIsEnough | myjit/rmap.h:154-207 | any free one wins if nothing held is needed only 19980 operations ahead |
| Amd64Prepare.NothingClobbered | myjit/reg-allocator.h:170-190 | then no argument is lost |
| Amd64Prepare.ReturnRegOutbid | myjit/reg-allocator.h:170-190 | the value stays in the return register if a held callee-saved register wins |
| Amd64Prepare.FreeRegisterPassedOver | myjit/rmap.h:154-207 | a PREPARE with %rbx free at which the value stays in %rax, and the first of seven arguments is lost |
| Amd64Prepare.ReturnRegisterLost | myjit/amd64-specific.h:143-155 | a map the allocator returns and a call with seven arguments whose first does not arrive |
| Arm32Imm.RotationIsExact | myjit/arm32-codegen.h:207-215 | no rotation is found exactly when no eight-bit value under an even rotation is the constant |
| Arm32Imm.ImmRotate | myjit/arm32-codegen.h:207-215 | the loop that rotates by two finds the least such rotation |
| Arm32Imm.ImmRoundTrip | disasm/arm32/arm32-dis.c:68 | encoding succeeds exactly on the values the decoder can produce, and decoding gives them back |
| Arm32Imm.DataOpRoundTrip | disasm/arm32/arm32-dis.c:167-192 | a data operation with an immediate decodes to itself exactly when it is not a TST or CMP without flags |
| Arm32Imm.Mov16RoundTrip | disasm/arm32/arm32-dis.c:344-350 | the words of movw and movt decode to their sixteen bits |
| Arm32Imm.EmitMovImm32 | myjit/arm32-codegen.h:300-311 | the words emitted load every 32-bit constant, touch no other register, run under the condition asked for, and are one where one is enough |
| SparcMul.BitPop | myjit/util.h:25-32 | the five masked additions count the set bits |
| SparcMul.EmitOptimized | myjit/sparc-specific.h:395-423 | the shift-and-add sequence leaves the product modulo the word size, also when both registers are one |
| SparcMul.EmitMulImm | myjit/sparc-specific.h:426-451 | the code for an immediate multiplies exactly by the factors with at most five bits, up to the sign, and those that fit the field |
| SparcMul.EmitLoweredMul | myjit/sparc-specific.h:426-451 | after lowering it multiplies by every factor |
| SparcMul.RegisterProduct | myjit/sparc-specific.h:452-455 | of the two register forms only the signed one multiplies |
| Findings.StoreToItself | myjit/x86-common-stuff.c:30-72 | a constant stored at the address it is itself goes elsewhere once folded |
| Findings.SubtractionAdds | myjit/x86-common-stuff.c:298 | a sum less one becomes the sum plus one |
| Findings.UnrelatedAdditionJoined | myjit/x86-common-stuff.c:132 | an addition that does not read the product is fused with it all the same |
| Findings.DoubledDisplacementCut | myjit/x86-common-stuff.c:284 | a doubled displacement loses its upper bits on a 64-bit machine |

## Findings

What the code does not do, with the input and the exact condition.

| property | fails for | holds exactly when |
|---|---|---|
| folding a constant store keeps its effect | `MOVI r, 7; STR r, r` (`Findings.StoreToItself`) | the stored register is no address operand (`StoreFold.FoldExact`) |
| fusing an addition and a subtraction keeps the result | `ADDR r1, r2, r3; SUBI r4, r1, 1` (`Findings.SubtractionAdds`) | the constant is its own negative (`Fusion.AddrAddiExact`) |
| fusing happens only when the second operation reads the first | `MULI r1, r2, 2; ADDI r3, r4, 5` with r1 dead (`Findings.UnrelatedAdditionJoined`); the test only asks for some register operand whose number is not zero | the second reads the first (`Fusion.MuliAddiExact` and its relatives) |
| a fused displacement keeps its value | `ADDI r1, r2, 0x7fffffff; ADDR r3, r1, r1` on 64 bits (`Findings.DoubledDisplacementCut`) | it fits 32 bits after negation and doubling (`Fusion.AddiAddrExact`) |
| every argument of a call arrives | a register that stays in %rax at the PREPARE, passed before a constant that goes on the stack (`Amd64Prepare.ReturnRegisterLost`) | no argument in %rax comes before one moved through %rax (`Amd64Call.CallPasses`) |
| a free callee-saved register takes the value of the return register at a PREPARE | a callee-saved register held for a use 25000 operations ahead (`Amd64Prepare.FreeRegisterPassedOver`): its score is the better one | a free one wins (`Amd64Prepare.ReturnRegMoves`, `ReturnRegOutbid`), as it does if nothing is needed only 19980 operations ahead (`Amd64Prepare.SoonIsEnough`) |
| removing dead code leaves data as it was | DATA_BYTES behind a return (`Data.RowOfBytesGoes`): alone of the operations that emit data it is not among the directives | no DATA_BYTES is out of reach (`Data.ImageStays`); what living code refers to is not (`Data.DataBehindStays`) |
| unsigned multiplication of two registers | every triple of registers: the number of the third register is used as a constant | the operation is signed (`SparcMul.RegisterProduct`) |
| a data operation with an immediate reads back as itself | TST and CMP without flags have the codes of movw and movt; no emitter of the repository produces them, as myjit/arm32-codegen.h:340-350 always sets the flag bit | it is not one of the two (`Arm32Imm.DataOpRoundTrip`) |

## Left out

- BMS and BMC branches: `is_cond_branch_op` (myjit/jitlib-core.c:544-553) does not list them, so their edges are never repaired; the allocation theorem asks that the maps at their two ends agree (`AllocSim.MachineOk`).
- Floating point in the allocator: the float register file, the saving of float registers and `FRETVAL`, `FPUTARG`, `FRET` are not modelled; float branches are, under the hypothesis that inverting one inverts it, which is false of a comparison with NaN.
- RegAlloc.VacateArgRegs: the second loop, which vacates float argument registers, is not modelled.
- RegAlloc.AssignRegs: float results, the alias R_OUT, `force_spill`, `force_assoc` and the transfer operations are not modelled.
- AllocMoves.PrepareTracks: says nothing of float registers, which are not modelled.
- Allocator.JitOp.SpillRegisters: the second loop, over the float registers, is not modelled.
- Allocator.JitOp.AssignRegs: the same operations as RegAlloc.AssignRegs are not modelled.
- The alias R_OUT (myjit/reg-allocator.h:361-367), documented as undefined except right behind a call and right before a return: operations with it are not in the model of the allocator.
- Allocator.JitAssignRegs: asks for lists without the operands and operations RegAlloc.AssignRegs does not model.
- AllocTheorem.AllocationPreservesMeaning: assumes that no argument or called address is the frame pointer alias, for which `is_spilled` would look in the wrong slot, and that no operand is R_OUT.
- AllocTheorem.AllocatedResultIsMeant: under the same assumptions.
- Compiler.CodeDoesWhatSourceDoes: for functions on integers, under what the passes rely on without testing (`Passes.Relied`: see "## Findings"), what the allocator relies on (`AllocSim.MachineOk`), and what a program must see to: operands as the interface creates them, arguments right before their call, a function control does not leave but by returning, indirect jumps only to operations whose address the function takes, and no use of the register set aside for long immediates. Addresses of operations in the source are those of what they have become.
- Compiler.CodeReturnsWhatSourceReturns: under the same assumptions.
- Frame offsets: slots are a map from registers to values, and that byte offsets are disjoint is not claimed.
- Score overflow: scores and hint tallies are unbounded integers; `short` priorities and `int` sums are not modelled as wrapping.
- Inserted operations: `LREG`, `UREG`, `SYNCREG` and `RENAMEREG` stand in a block with the operation they were put in front of, not as list nodes of their own; jump targets are positions instead of pointers, and `jit_expand_patches_and_labels`, which sets them, is not part of the model.
- Flow.CodeRefs: the code references of a function are collected at once, where the source does so at the first indirect jump.
- UnusedAssign.UnusedAssignmentsPreserveRuns: assumes that an operation assigning a register has no other effect, ADDC, ADDX, SUBC and SUBX excepted; `Carry` discharges it for a machine of words, bytes and a carry.
- Carry.DroppingKeepsCarry64: on that machine only the four operations touch the carry, as ADDX and SUBX must directly follow the operation whose carry they take (doc/README:116).
- LongImmList.LoweredListPreservesRuns: asks that jumps lead to operations nothing was put in front of, which labels and patches are.
- `jit_imm_overflow` as built for ARM: its special cases are not modelled; lowering is for AMD64 and SPARC.
- Float immediates (`jit_correct_float_imms`), register counts (`jit_prepare_reg_counts`) and frame-pointer omission: not modelled.
- SPARC and ARM argument schedules, and the i386 convention of passing everything on the stack: not modelled.
- Amd64Prepare.PreparedIsSafe: for what integer registers hold; that float argument registers are vacated is not modelled.
- Amd64Call.EmitFuncall: ends before the caller-saved registers are restored, which is `Amd64Save.EmitPopCallerSaved`.
- The allocator is that of AMD64: on i386 and SPARC a CALL through a register goes on to the operand loop (myjit/reg-allocator.h:311-317), and SPARC has no step that vacates the return register and no RETVAL rule (174-195, 430-432). The builds `Compiler.Build` and `Passes.Options` name choose the passes in front of that allocator, not another one.
- Calls: the compiler theorem takes for granted that arguments arrive at a CALL; on AMD64 that is so exactly under the condition of `Amd64Bridge.CalleeFindsArguments`.
- Generation.EveryListIsCompiled: asks that no branch tests bits (BMS, BMC), and, where unused assignments are dropped, that none of them took an address that is jumped to.
- Byte emission, buffers, patching, execution: the model ends at instructions; the ARM words and the SPARC and AMD64 instruction sequences are as far as it goes.
- Rotation by zero is undefined in the C macros; rotations are taken modulo 32.
- Block transfers, memory copies, tracing, messages and the printing code: not modelled.
- Signed division and remainder by powers of two through shifts: not modelled.
