# Verified model of the PTX to AEC compiler

The project models the middle and back of a compiler that turns a restricted PTX subset
(NVIDIA PTX ISA 9.3) into instructions of the AEC target, and proves that each stage keeps
what a kernel does, against the compiler's own executable semantics of the target.

Two machines carry the meaning.  `Machine` is the AEC machine: a warp of lanes with 256
registers and 8 predicates runs in lockstep over shared global memory, with guards, uniform
BRX, loads, stores and HALT; binary32 arithmetic is an uninterpreted parameter on 32-bit
words.  `Ptx` is the source machine: one thread stepping over labels and instructions, its
reads and writes as the passes define them.  `Simulator` is the simulator's mutable form,
proved equal to `Machine`.

| files | content |
|---|---|
| `Words`, `Wrappers`, `Lists`, `Isa` | words, bytes, results, the instruction record |
| `Machine`, `Simulator`, `Lockstep`, `Launches`, `Bits` | the AEC machine, its simulator, lockstep against lane by lane, whole launches, word arithmetic bit by bit |
| `Independence`, `Reorder`, `Dependence`, `IssueOrder`, `Scheduler`, `ScheduleCorrect`, `ScheduleHazards`, `ScheduleKinds` | the list scheduler and its refinement |
| `Ptx`, `Observed`, `FlowGraph`, `CfgBuilder` | the PTX machine, what can be observed of an instruction, dominators and loops, the control-flow graph |
| `DeadCode`, `DeadCodeCorrect` | global dead-code elimination |
| `ConstProp`, `ConstPropCorrect`, `ConstPropRewrite`, `ConstPropHazard`, `LocalFolding`, `ConstPropComplete` | global constant propagation, local folding |
| `Cse`, `CseScope`, `CseExact`, `CsePass`, `CseCorrect`, `CseLoop`, `CseSelfRead`, `CseComplete` | common subexpressions, scope by scope |
| `Liveness`, `RegisterAllocation`, `LoopRange`, `LinearScan`, `ScanCorrect`, `ScanComplete`, `ScanHazard`, `Allocator`, `PhysicalRun` | live ranges, linear scan, the lowerer's allocator, running over physical registers |
| `Expansion`, `ControlPlan`, `IfConversion`, `LoweringEngine` | lowering: expansions, the control plan, the engine that emits and patches |
| `PtxMeaning`, `Masking`, `LoweringStep`, `LoweringKinds`, `LoweringAccess`, `LoweringCorrect`, `LoweringTable`, `EndToEnd`, `CompiledKernel`, `OptimizedKernel` | what lowering refuses and preserves, from one expansion to a compiled warp, and with the source passes in front |
| `HalfWords`, `Encoding`, `Decoding`, `Binary`, `BinaryRun`, `CompiledBinary` | the binary format, its round trips, and binaries that run as what they encode |
| `KernelLaunch` | the whole chain, from source threads to the launch of a binary |

Passes that update state step by step are methods proved against a specification function or
relation; the theorems are about that specification, in both directions: that a pass keeps what
a kernel does, and that it finds what it is there to find.  `KernelLaunch.BinaryLaunch` ties the
chain together: a launch of the binary of an optimized, compiled and scheduled kernel leaves the
memory that all threads of the source program leave when run one after the other.

Where the code departs from what its names promise a theorem says when, and mostly a program or
an input shows it:

- reads without scheduling edges, refusable instructions in front of stores (`IssueOrder`, `ScheduleHazards`);
- writes that constant propagation passes over, `mul.hi` folded as `mul.lo` (`ConstPropHazard`);
- expressions reused although their own instruction changed a source (`CseScope`, `CseSelfRead`), values a loop carries into its own scope (`CseExact`, `CseLoop`);
- a label `entry` further down, which becomes the entry of the graph (`CfgBuilder`);
- guarded returns and guarded parameter loads, whose guard is dropped (`CfgBuilder`, `EndToEnd`);
- the odd register of the allocation fallback (`LinearScan`, `ScanHazard`);
- shift amounts of 32 and more, signed right shifts and signed comparisons of words with sign, binary32 `mad` rounded twice (`LoweringKinds`, `LoweringAccess`);
- guards and returns inside converted regions (`Masking`).

The repository's table of control fields gives bits 10 to 8 to the memory space; the code shifts
by 11 (src/aec_compiler/isa.py:190) and so does the model.

## Model

| member | source | states |
|---|---|---|
| `Simulator.TrackBSimulator.ExecuteLoad` | src/aec_compiler/sim.py:279-289 | a load sets the register or pair from memory bytes, or is refused leaving lane and memory alone, as the value semantics says |
| `Simulator.TrackBSimulator.ExecuteStore` | src/aec_compiler/sim.py:291-299 | a store replaces exactly the bytes at its address, or is refused with memory untouched |
| `Simulator.TrackBSimulator.ExecuteCopy` | src/aec_compiler/sim.py:234-239 | copies, special registers and pairs in place, with the low half written before the high half of the source is read |
| `Simulator.TrackBSimulator.ExecuteLane` | src/aec_compiler/sim.py:225-277 | updating one lane object in place is the effect of the instruction on the lane's value; errors change nothing |
| `Simulator.TrackBSimulator.ExecuteGuarded` | src/aec_compiler/sim.py:219-223 | a lane whose guard is off is left as it was |
| `Simulator.TrackBSimulator.ExecuteWarp` | src/aec_compiler/sim.py:188-191 | lane after lane on shared memory; a refused lane stops the warp with memory as it was at that moment |
| `Simulator.TrackBSimulator.BranchNextPc` | src/aec_compiler/sim.py:193-217 | the target when every lane takes the branch, the next pc when none does, an error for a divergent warp |
| `Simulator.TrackBSimulator.RunWarp` | src/aec_compiler/sim.py:162-191 | the mutable pc loop is the step semantics of the machine, up to the step limit, and leaves its memory however it ends |
| `Simulator.TrackBSimulator.RunLaunch` | src/aec_compiler/sim.py:138-160 | block after block, warp after warp on one memory: the launch semantics, with the memory an aborted launch leaves behind |
| `Simulator.TrackBSimulator.ExecuteAlu` | src/aec_compiler/sim.py:244-273 | one register is set to the operation's word, or the lane is left alone |
| `Simulator.TrackBSimulator.LaunchWarp` | src/aec_compiler/sim.py:142-151 | distinct fresh lane objects holding the launched lanes |
| `Lockstep.LockstepIsSerial` | src/aec_compiler/sim.py:162-217 | if no lane stores to bytes another lane reads or writes, a halting lockstep run ends exactly as running each lane alone to completion, in any order |
| `Lockstep.AloneRun` | src/aec_compiler/sim.py:162-217 | one lane alone takes the steps it takes within the warp, whatever the bytes only other lanes touch |
| `Independence.Overtake` | src/aec_compiler/sim.py:225-277 | two neighbouring instructions that touch nothing of each other may change places: same warp, and the same errors |
| `Reorder.ReorderAgrees` | src/aec_compiler/passes/scheduler.py:105-119 | a reordering whose inversions commute computes what program order computes |
| `Dependence.SmallestUnissuedReady` | src/aec_compiler/passes/scheduler.py:59-114 | the smallest unissued index is always ready, so the loop never gets stuck |
| `Dependence.GreedyIssuesAll` | src/aec_compiler/passes/scheduler.py:105-117 | the issue order is a permutation: every instruction once |
| `Dependence.GreedyUnique` | src/aec_compiler/passes/scheduler.py:29-37 | priority and index leave no choice: the order is unique |
| `IssueOrder.IssueOrderIsSorted` | src/aec_compiler/passes/scheduler.py:29-117 | the issue order in closed form: i is issued before j iff its key (level, kind, rank, index) is smaller, where the level is the last store that reaches it along dependences |
| `IssueOrder.InterferenceKeptExactly` | src/aec_compiler/passes/scheduler.py:29-117 | every pair of interfering instructions keeps its order iff the block is schedulable, which is read off the levels |
| `IssueOrder.ComputeOvertakenExactly` | src/aec_compiler/passes/scheduler.py:29-117 | when exactly a later instruction overtakes a comparison or another compute instruction |
| `IssueOrder.StorePassedExactly` | src/aec_compiler/passes/scheduler.py:29-117 | a compute instruction passes an earlier store iff it waits for no store from that one on |
| `IssueOrder.StoreIssuedLast` | src/aec_compiler/passes/scheduler.py:29-37 | without any edge into stores, a store and the final branch are issued after every smaller index |
| `IssueOrder.LoadKeepsOrder` | src/aec_compiler/passes/scheduler.py:29-96 | a load stays behind each earlier store and behind everything in front of that store |
| `IssueOrder.ComputeKeepsOrder` | src/aec_compiler/passes/scheduler.py:29-103 | a compute instruction with no store before it is issued after every smaller index |
| `Scheduler.AddInstruction` | src/aec_compiler/passes/scheduler.py:59-103 | the table updates of one instruction produce exactly the RAW, WAR, WAW and store-to-load dependences on earlier instructions |
| `Scheduler.BuildGraph` | src/aec_compiler/passes/scheduler.py:46-103 | after the loop `dep_count` and `dependents` are the dependence relation |
| `Scheduler.PopBest` | src/aec_compiler/passes/scheduler.py:105-109 | the instruction taken is ready and no ready one has a smaller (priority, index) |
| `Scheduler.Release` | src/aec_compiler/passes/scheduler.py:110-114 | exactly the instructions whose last dependence was just issued become ready |
| `Scheduler.ScheduleBlock` | src/aec_compiler/passes/scheduler.py:18-119 | the result is the block in the one greedy order of its dependences, and nothing is left over |
| `Scheduler.FindLeaders` | src/aec_compiler/passes/scheduler.py:152-163 | leaders are the entry, branch targets and what follows a branch |
| `Scheduler.ScheduleLowered` | src/aec_compiler/passes/scheduler.py:145-179 | overwriting the list slice by slice schedules every block between consecutive leaders and changes nothing else |
| `Scheduler.TrackReads` | src/aec_compiler/passes/scheduler.py:72-89 | pending reads of a register are those behind its last write |
| `Scheduler.Link` | src/aec_compiler/passes/scheduler.py:63-84 | the count of unresolved dependences grows by the edges added, for this instruction only |
| `Scheduler.RescheduleSlice` | src/aec_compiler/passes/scheduler.py:166-174 | the slice holds the scheduled block, everything outside it is untouched |
| `Scheduler.SortedLeadersDelimit` | src/aec_compiler/passes/scheduler.py:165-168 | a block ends where the next leader in sorted order stands |
| `ScheduleHazards.RealConflictIsTracked` | src/aec_compiler/passes/scheduler.py:122-142 | predicate numbers sharing the table of general registers only add edges: every real conflict outside guards and pair halves has one |
| `ScheduleHazards.CleanBlockSchedulable` | src/aec_compiler/passes/scheduler.py:59-103 | a block without pair writers and without guards on predicates it compares into is safe to schedule |
| `ScheduleHazards.GuardedBlockSchedulable` | src/aec_compiler/passes/scheduler.py:59-103 | guards need no edges when all comparisons precede all stores and guarded loads get their address after their guard |
| `ScheduleHazards.GuardCanBeOvertaken` | src/aec_compiler/passes/scheduler.py:137-142 | an instance: a program that is not schedulable because a guarded instruction passes its comparison, and whose scheduled form halts in another state |
| `ScheduleHazards.ComputeFaultLosesStore` | src/aec_compiler/passes/scheduler.py:29-37 | an instance: a refusable compute instruction passes a store, and memory at the failure differs |
| `ScheduleHazards.OnlyComputesPass` | src/aec_compiler/passes/scheduler.py:29-37 | a block whose compute instructions cannot be refused loses no store: nothing else moves in front of one |
| `ScheduleCorrect.ScheduleInversionsCommute` | src/aec_compiler/passes/scheduler.py:29-117 | whatever the greedy order turns around may be turned around |
| `ScheduleCorrect.BlockAgrees` | src/aec_compiler/passes/scheduler.py:18-119 | a scheduled block and the original leave every warp in the same state at the block's end |
| `ScheduleCorrect.ScheduleRefines` | src/aec_compiler/passes/scheduler.py:145-179 | the scheduled program halts on a warp exactly if the original does, with the same registers, predicates and memory; errors correspond both ways |
| `ScheduleCorrect.ScheduleKeepsMemoryAtFault` | src/aec_compiler/passes/scheduler.py:29-117 | if nothing that can be refused is issued in front of an earlier store, memory is the same at the point where a run fails |
| `ScheduleCorrect.ScheduleRefinesLaunch` | src/aec_compiler/passes/scheduler.py:145-179 | whole launches over the two programs finish with the same global memory, or both are aborted |
| `ScheduleKinds.KindsExactly` | src/aec_compiler/passes/scheduler.py:122-136 | an instruction is taken for a store iff its opcode can store, for a load iff it can see memory; control is told by name |
| `ScheduleKinds.FirstExactly` | src/aec_compiler/passes/scheduler.py:29-37 | which of two ready instructions goes first: loads, computations, stores, control, then by index, a store before control up to 998 places |
| `ScheduleKinds.BranchesExactly` | src/aec_compiler/passes/scheduler.py:152-163 | a block ends behind exactly those instructions whose opcode can end the run or lead elsewhere than to the next |
| `Launches.EveryThreadOnce` | src/aec_compiler/sim.py:138-160 | the lanes of the warps a launch starts for a block are the threads 0 to volume - 1 of the block, each once and in order |
| `Launches.ThreadCoordinates` | src/aec_compiler/sim.py:302-330 | the special registers of a thread give the coordinates its number and its block number stand for, each within the shape of the launch |
| `Launches.ThreadShape` | src/aec_compiler/sim.py:306-330 | and the shape itself; lane and warp number split the x coordinate by the warp size |
| `Launches.LaunchIsThreads` | src/aec_compiler/sim.py:138-160 | a launch that finishes without interference within its warps leaves what all its threads, in the order of their numbers, leave when run one after the other |
| `Bits.BitwiseOperations` | src/aec_compiler/sim.py:264-269 | bit k of AND, OR and XOR is the conjunction, disjunction or difference of the bits k of the operands, below 32, and 0 from there on |
| `Bits.ShiftOperations` | src/aec_compiler/sim.py:270-273 | SHL and SHR move every bit by the amount modulo 32; what leaves the word is lost and zeros come in |
| `Bits.WordOperations` | src/aec_compiler/sim.py:240-261 | integer sums, differences, products and multiply-adds are those of the integers, modulo the word size |
| `Bits.ByteRead` | src/aec_compiler/sim.py:284-288 | byte k of a word that is read is the k-th byte at its address: low byte first |
| `Bits.ByteOfWord` | src/aec_compiler/sim.py:297-298 | and so are words written |
| `Bits.LoadsExactly` | src/aec_compiler/sim.py:279-289 | a load is refused exactly if its space is not gmem or pmem, its type does not move, or it leaves the memory |
| `Bits.StoresExactly` | src/aec_compiler/sim.py:291-299 | and a store, which changes as many bytes as its type has |
| `Bits.CopiesExactly` | src/aec_compiler/sim.py:234-239 | a copy moves two registers for the 64-bit types and one for the others |
| `Bits.Comparisons` | src/aec_compiler/sim.py:366-385 | words are compared as numbers |
| `Ptx.EffectFromReads` | src/aec_compiler/passes/_helpers.py:47-56 | an instruction sees registers only through those it is said to read |
| `Observed.SideEffectsExactly` | src/aec_compiler/passes/_helpers.py:71-90 | an instruction is kept for its own sake iff it can do more than write a register, or is guarded, a load, a comparison or fma, or names flags or predicates |
| `Observed.KeptIsLeast` | src/aec_compiler/passes/global_dce.py:41-72 | what elimination keeps is the least set that holds these and with an instruction every one that writes what it reads |
| `Observed.ReadsExactly` | src/aec_compiler/passes/_helpers.py:47-56 | a register is listed as read iff some host tells apart two states that differ in it alone |
| `FlowGraph.ReversePostorder` | src/aec_compiler/analysis/cfg.py:50-63 | exactly the reachable blocks, each once, successors later unless they lead back |
| `FlowGraph.Dominators` | src/aec_compiler/analysis/cfg.py:65-84 | the fixpoint loop ends and d is in doms[n] iff every path from the entry to the reachable n goes through d |
| `FlowGraph.PairsShrink` | src/aec_compiler/analysis/cfg.py:70-83 | each changing round strictly shrinks the total of the sets: the measure that ends the loop |
| `FlowGraph.SolutionIsDominance` | src/aec_compiler/analysis/cfg.py:65-84 | any fixpoint above the dominance relation is the dominance relation |
| `FlowGraph.BackEdges` | src/aec_compiler/analysis/cfg.py:86-93 | the edges whose head dominates their tail, no others |
| `FlowGraph.LoopBlocks` | src/aec_compiler/analysis/cfg.py:95-115 | the worklist collects the header and the blocks that reach the tail without passing the header |
| `FlowGraph.NaturalLoops` | src/aec_compiler/analysis/cfg.py:95-115 | one loop for every back edge, with exactly the blocks the definition gives it |
| `FlowGraph.HeaderDominatesLoop` | src/aec_compiler/analysis/cfg.py:95-115 | the header dominates every reachable block of its loop |
| `FlowGraph.Visit` | src/aec_compiler/analysis/cfg.py:54-60 | the nested visit marks what is reachable from a block and lists each block behind its unfinished descendants |
| `FlowGraph.Sweep` | src/aec_compiler/analysis/cfg.py:72-83 | a sweep stays above the dominance relation and strictly shrinks it or changes nothing |
| `CfgBuilder.CollectLabels` | src/aec_compiler/analysis/cfg.py:183-190 | succeeds iff no label is defined twice; then every label has its item index |
| `CfgBuilder.FindLeaders` | src/aec_compiler/analysis/cfg.py:193-211 | fails iff a branch has no or an undefined target; otherwise the leaders are exactly the block starts |
| `CfgBuilder.TerminatorAtEnd` | src/aec_compiler/analysis/cfg.py:117-169 | within a block only the last item transfers control and only the first is a label |
| `CfgBuilder.ConnectEdges` | src/aec_compiler/analysis/cfg.py:214-242 | successors are exactly the blocks control can leave to, predecessors their converse |
| `CfgBuilder.BuildCfg` | src/aec_compiler/analysis/cfg.py:117-169 | succeeds iff labels are distinct, branch targets exist and no two blocks get one name; blocks partition the items in order, c is a successor of b iff a transfer leaves b for the start of c, and the entry is the block named `entry`, or else the first |
| `CfgBuilder.NameBlocks` | src/aec_compiler/analysis/cfg.py:142-161 | the block loop fails iff two blocks get one name; otherwise each has its label, `entry` or the next synthetic name |
| `CfgBuilder.NamesDistinctExactly` | src/aec_compiler/analysis/cfg.py:142-150 | names are distinct iff no label is `entry` above an unlabelled first block or the synthetic name of some unlabelled block |
| `CfgBuilder.EntryIsFirst` | src/aec_compiler/analysis/cfg.py:160-161 | the entry picked by name is the first block iff no label further down is `entry` |
| `CfgBuilder.StepTransfers` | src/aec_compiler/analysis/cfg.py:172-180 | one step follows a transfer, if no `ret` is guarded |
| `CfgBuilder.ThreadsMoveAlongTransfers` | src/aec_compiler/analysis/cfg.py:172-180 | all threads from all states move along these transfers only iff no `ret` is guarded |
| `CfgBuilder.MakeBlocks` | src/aec_compiler/analysis/cfg.py:125-157 | every item lies in exactly one block, in order, and both index maps say which |
| `CfgBuilder.BlockEdges` | src/aec_compiler/analysis/cfg.py:222-238 | the targets of the last instruction of a block and its fallthrough |
| `CfgBuilder.LinkPredecessors` | src/aec_compiler/analysis/cfg.py:240-242 | b is a predecessor of c iff c is a successor of b |
| `CfgBuilder.WithinBlock` | src/aec_compiler/analysis/cfg.py:125-157 | within a block every thread goes from an item to the next |
| `CfgBuilder.NamesSpelled` | src/aec_compiler/analysis/cfg.py:142-150 | instances: the names of the entry and of unlabelled blocks as they are spelled |
| `CfgBuilder.TransferHappens` | src/aec_compiler/analysis/cfg.py:172-180 | a transfer is a move some thread makes, on some host in some state, if the item can be stepped from at all |
| `CfgBuilder.TransfersExactly` | src/aec_compiler/analysis/cfg.py:172-180 | with distinct labels and no guarded return the transfers out of an item are exactly the moves threads make |
| `CfgBuilder.SuccessorsAreMoves` | src/aec_compiler/analysis/cfg.py:214-242 | c is a successor of b iff some thread can go from the end of b to the start of c |
| `CfgBuilder.LeadersExactly` | src/aec_compiler/analysis/cfg.py:193-211 | a block starts at the entry, at every label, and behind every branch and return |
| `DeadCode.BuildDefMap` | src/aec_compiler/passes/global_dce.py:41-46 | every register is mapped to all instructions that define it |
| `DeadCode.MarkAll` | src/aec_compiler/passes/global_dce.py:57-60 | new indices enter the live set and the worklist together, once |
| `DeadCode.PropagateLive` | src/aec_compiler/passes/global_dce.py:48-72 | the worklist ends with exactly the least set that contains the side effects and the definitions of what members read |
| `DeadCode.EliminateDeadCode` | src/aec_compiler/passes/global_dce.py:35-88 | the rebuilt list keeps labels and live instructions in order, and only those |
| `DeadCode.SeedLive` | src/aec_compiler/passes/global_dce.py:62-65 | exactly the side-effecting instructions are live first, all waiting |
| `DeadCode.DefinitionsFor` | src/aec_compiler/passes/global_dce.py:68-72 | the definitions of everything an instruction reads |
| `DeadCodeCorrect.ReducedFollows` | src/aec_compiler/passes/global_dce.py:41-88 | every run is matched by the reduced program in no more steps: same memory, predicates and end, same value in every register a kept instruction reads |
| `DeadCodeCorrect.OriginalFollows` | src/aec_compiler/passes/global_dce.py:41-88 | conversely every run of the reduced program is one of the original with removed steps put back |
| `DeadCodeCorrect.EliminationPreservesRuns` | src/aec_compiler/passes/global_dce.py:41-88 | both directions from any state, for any control flow |
| `DeadCodeCorrect.EliminationIdempotent` | src/aec_compiler/passes/global_dce.py:41-88 | a second application removes nothing |
| `ConstProp.FoldMonotone` | src/aec_compiler/passes/global_cp.py:189-246 | more facts fold to the same constants, or to more |
| `ConstProp.Round` | src/aec_compiler/passes/global_cp.py:71-105 | one turn recomputes block after block in place; it reports a change iff some exit changed |
| `ConstProp.Propagate` | src/aec_compiler/passes/global_cp.py:64-105 | stops at a fixpoint or at the cap, after that many rounds |
| `ConstProp.UpdateInflationary` | src/aec_compiler/passes/global_cp.py:71-105 | recomputing an exit never loses a fact or changes its value |
| `ConstProp.DataflowConverges` | src/aec_compiler/passes/global_cp.py:71-105 | uncapped, a round without change comes within blocks times registers rounds |
| `ConstProp.FlowBlock` | src/aec_compiler/passes/global_cp.py:84-101 | the dictionary after a block is the flow of its incoming facts through it |
| `ConstPropCorrect.FactsAlwaysTrue` | src/aec_compiler/passes/global_cp.py:64-105 | at every visited point of every run the facts of any round, converged or not, are true, if each write the dataflow passes over leaves the fact about its register true |
| `ConstPropCorrect.ExitFactsTrue` | src/aec_compiler/passes/global_cp.py:64-105 | then on every visit to a block exit each recorded fact is the register's actual value |
| `ConstPropRewrite.Rewrite` | src/aec_compiler/passes/global_cp.py:107-142 | facts are reset when the walk enters another block, by label or by index, and each item is folded under the facts in front of it |
| `ConstPropRewrite.GlobalConstantPropagation` | src/aec_compiler/passes/global_cp.py:46-142 | at most twenty rounds, then the rewriting under the facts of the last round |
| `ConstPropRewrite.FoldedActs` | src/aec_compiler/passes/global_cp.py:189-246 | under true facts a folded instruction does what the original does |
| `ConstPropRewrite.PropagationPreservesRuns` | src/aec_compiler/passes/global_cp.py:46-142 | every run of the rewritten program is the run of the original, state by state, whatever round the dataflow stopped at, if no write a phase passes over or misreads can change a fact |
| `ConstPropRewrite.TrackedIsHarmless` | src/aec_compiler/passes/global_cp.py:90-142 | in particular for every program without guarded, `.cc` or `fma` writes of general registers and without modifiers such as `.hi`, whatever its facts |
| `ConstPropRewrite.ApplyKeepsFacts` | src/aec_compiler/passes/global_cp.py:107-142 | the rewriting phase forgets or refolds what guarded and `.cc` instructions write, so that what it knows stays true over all of them but `fma` |
| `ConstPropRewrite.LabelToBlock` | src/aec_compiler/passes/_helpers.py:197-202 | a block that lists the label, if any does |
| `ConstPropHazard.FactsKeptExactly` | src/aec_compiler/passes/global_cp.py:90-94 | the facts stay true on all hosts and states over a write the dataflow passes over iff the instruction without its guard folds to the recorded constant, its guard is known to be off, or nothing is recorded; both ways also for sums and differences with an unknown source |
| `ConstPropHazard.TrackedKeptExactly` | src/aec_compiler/passes/global_cp.py:189-246 | over a write it follows the facts stay true iff the fold, if there is one, is of the operation that base and type name: modifiers are not looked at |
| `ConstPropHazard.HighProductMisread` | src/aec_compiler/passes/global_cp.py:233-235 | an instance: `mul.hi.u32` of known sources is recorded as the low half of the product |
| `ConstPropHazard.EntryExit` | src/aec_compiler/passes/global_cp.py:71-105 | from the first round on the exit of a block without predecessors is what its items make of no facts |
| `ConstPropHazard.GuardedWriteOverlooked` | src/aec_compiler/passes/global_cp.py:46-142 | an instance of two blocks: a guarded move is overlooked, and whatever round the dataflow stops at the rewritten program stores five for seven |
| `LocalFolding.FoldInstruction` | src/aec_compiler/passes/local_scalar.py:348-383 | returns the instruction as a move of the constant it is known to compute, or unchanged |
| `LocalFolding.FoldLocally` | src/aec_compiler/passes/local_scalar.py:126-172 | one walk with one dictionary, cleared at labels and boundaries, folds every item under what is known in front of it |
| `LocalFolding.FoldingPreservesRuns` | src/aec_compiler/passes/local_scalar.py:126-172 | every run of the folded program is the run of the original, for all programs, loops and guarded writes included |
| `LocalFolding.FoldingIsIdempotent` | src/aec_compiler/passes/local_scalar.py:126-172 | folding again changes nothing |
| `ConstPropComplete.FactStays` | src/aec_compiler/passes/global_cp.py:84-142 | what an item does not write stays known, in both phases |
| `ConstPropComplete.MeetExactly` | src/aec_compiler/passes/global_cp.py:165-186 | a block knows on entry exactly what every block in front of it knows |
| `ConstPropComplete.FoldedExactly` | src/aec_compiler/passes/global_cp.py:189-246 | a result is known exactly of moves, of sums, differences and products of .u32, and of bitwise operations, all sources known, unguarded and into a general register |
| `ConstPropComplete.StraightKnown` | src/aec_compiler/passes/global_cp.py:84-101 | behind straight code that computes with constants only, whatever its length, every result is known |
| `ConstPropComplete.StraightRewritten` | src/aec_compiler/passes/global_cp.py:107-142 | so it is in the rewriting phase |
| `ConstPropComplete.KnownIsWrittenDown` | src/aec_compiler/passes/global_cp.py:205-231 | every known source is written into the instruction that is left |
| `ConstPropComplete.StraightFolded` | src/aec_compiler/passes/local_scalar.py:126-172 | the local pass makes every instruction of such code a move of an immediate |
| `Cse.AliasReadAfterTargetRedefinition` | src/aec_compiler/passes/local_scalar.py:419-428 | true iff the alias is read behind a later redefinition of its target |
| `Cse.ExpressionTable.IndexKey` | src/aec_compiler/passes/local_scalar.py:241-246 | forward and reverse index gain the key together |
| `Cse.ExpressionTable.UnindexKey` | src/aec_compiler/passes/local_scalar.py:248-263 | and lose it together |
| `Cse.ExpressionTable.ReplaceKey` | src/aec_compiler/passes/local_scalar.py:286-287 | a key moves to a new destination with the indexes still inverse to each other |
| `Cse.ExpressionTable.Invalidate` | src/aec_compiler/passes/local_scalar.py:265-271 | exactly the expressions the register holds or takes part in are forgotten, the indexes staying consistent |
| `CseScope.Visit` | src/aec_compiler/passes/local_scalar.py:273-295 | one turn of the loop is one turn of the scope's specification: what goes, what stays, both tables and the replacements |
| `CseScope.OptimizeScope` | src/aec_compiler/passes/local_scalar.py:227-297 | the loop computes the outcome, the replacements and the count of the scope's specification |
| `CseScope.WalkRight` | src/aec_compiler/passes/local_scalar.py:227-297 | after every instruction aliases are direct, unread once stale, and kept and original registers correspond |
| `CseScope.OutcomeRight` | src/aec_compiler/passes/local_scalar.py:227-297 | a dropped register was written in the scope and is not read outside; if nothing is removed nothing is rewritten |
| `CseScope.IndexedRightly` | src/aec_compiler/passes/local_scalar.py:276-294 | an instruction's destination holds the value of its key behind it, on all hosts and starts, iff it does not read itself |
| `CseScope.LookUp` | src/aec_compiler/passes/local_scalar.py:278-294 | an instruction is replaced iff its key is held, its destination is not read outside and its alias is not needed behind a redefinition; otherwise the key is indexed unless read outside |
| `CseExact.EvalAfter` | src/aec_compiler/passes/local_scalar.py:227-297 | symbolic execution of straight code gives every register its value, on every host |
| `CseExact.TermsTellApart` | src/aec_compiler/passes/local_scalar.py:227-297 | and it is complete: two terms are equal iff no host and no start tells them apart |
| `CseExact.RepeatedExactly` | src/aec_compiler/passes/local_scalar.py:227-297 | on all hosts, from all starts and in all repetitions the kept instructions compute what they computed iff one turn computes the same terms and leaves, in each register the scope reads first, the original's term |
| `CseExact.UnwrittenIsLost` | src/aec_compiler/passes/local_scalar.py:278-294 | a dropped register that the scope reads first and the outcome writes nowhere is lost |
| `CseExact.SoundExactly` | src/aec_compiler/passes/local_scalar.py:227-297 | a scope that writes no register twice and looks up no self-reading expression is sound iff it reads no dropped register first |
| `CseExact.SoundPreserves` | src/aec_compiler/passes/local_scalar.py:227-297 | such a scope preserves every register but dropped ones it does not read first |
| `CsePass.SplitScopes` | src/aec_compiler/passes/local_scalar.py:201-224 | the scopes are the program cut up, straight runs between boundaries, as the specification cuts it |
| `CsePass.EliminateCommonSubexpressions` | src/aec_compiler/passes/local_scalar.py:77-121 | the result is every scope's outcome, with what the rest of the program reads as its outside; the lengths add up |
| `CsePass.ReadElsewhere` | src/aec_compiler/passes/local_scalar.py:89-98 | a register counts as read outside a scope iff another scope reads it |
| `CsePass.Flush` | src/aec_compiler/passes/local_scalar.py:207-211 | the run collected so far becomes one scope and nothing is lost |
| `CsePass.OptimizeOne` | src/aec_compiler/passes/local_scalar.py:86-106 | the outcome of one scope; without gain it is the scope itself |
| `CseCorrect.CsePreservesRuns` | src/aec_compiler/passes/local_scalar.py:72-121 | for any control flow neither memory nor the end of a run changes, nor any register but dropped ones that nothing reads, in both directions, if every scope is sound |
| `CseCorrect.CleanIsRepeatable` | src/aec_compiler/passes/local_scalar.py:72-121 | every scope is sound iff every scope computes alike on all hosts, starts and repetitions |
| `CseCorrect.CarriesNothingIsClean` | src/aec_compiler/passes/local_scalar.py:278-294 | a check made before optimizing: no reuse of self-reading expressions, and nothing read first and written that is unread elsewhere |
| `CseLoop.LoopAfterPass` | src/aec_compiler/passes/local_scalar.py:72-121 | the pass drops the second sum of a loop body whose result the next turn reads |
| `CseLoop.CarriedReadLost` | src/aec_compiler/passes/local_scalar.py:72-121 | an instance: that loop stores seven in its second turn, its optimized form zero |
| `CseSelfRead.ProgramAfterPass` | src/aec_compiler/passes/local_scalar.py:72-121 | the pass drops `add r3, r1, r2` behind `add r1, r1, r2` as the same expression, although the first has changed `r1` |
| `CseSelfRead.OwnSourceLost` | src/aec_compiler/passes/local_scalar.py:276-294 | an instance without any loop: that straight code stores two, its optimized form one |
| `CseComplete.BoundaryExactly` | src/aec_compiler/passes/local_scalar.py:300-325 | which instructions take part: unguarded operations without carry, with all their operands, into a general register, looked up by operation and sources |
| `CseComplete.RepeatIsDropped` | src/aec_compiler/passes/local_scalar.py:227-297 | a computation repeated on inputs no instruction in between writes is dropped, its readers given the first result, if neither is needed by name outside or behind a redefinition |
| `Liveness.CollectDefsUses` | src/aec_compiler/analysis/liveness.py:60-84 | definitions and uses of every register, in item order |
| `Liveness.SourcesAreReads` | src/aec_compiler/analysis/liveness.py:136-160 | liveness sees the reads the other passes see, except for `fma` |
| `RegisterAllocation.RangeOfDefinition` | src/aec_compiler/analysis/liveness.py:86-118 | the range of a definition ends at the last use before the next one, a read at the next definition belonging to the former |
| `RegisterAllocation.IntervalOf` | src/aec_compiler/passes/register_allocation.py:68-95 | the merged interval spans all definitions and all later uses, and reaches the end of the loop hull if a recorded use lies inside |
| `RegisterAllocation.MergeAll` | src/aec_compiler/passes/register_allocation.py:68-95 | one such interval for every defined register |
| `RegisterAllocation.SortByFirst` | src/aec_compiler/passes/register_allocation.py:97-98 | by first definition; no two registers share one |
| `RegisterAllocation.AllocateRegister` | src/aec_compiler/passes/register_allocation.py:105-154 | expiry, the pair search and the fallback in place are one turn of the scan |
| `RegisterAllocation.AllocateRegisters` | src/aec_compiler/passes/register_allocation.py:47-154 | the whole pass: intervals that span their registers, scanned in order |
| `RegisterAllocation.HullUsersDisjoint` | src/aec_compiler/passes/register_allocation.py:88-95 | two registers with recorded uses inside the loop hull never share |
| `RegisterAllocation.RangesOfRegister` | src/aec_compiler/analysis/liveness.py:86-118 | one range for every definition, in order |
| `RegisterAllocation.MergeRanges` | src/aec_compiler/passes/register_allocation.py:73-86 | least start, greatest end, all recorded uses |
| `RegisterAllocation.HasUseInRange` | src/aec_compiler/passes/register_allocation.py:233-243 | true iff a recorded use lies in the range |
| `RegisterAllocation.ExpireOld` | src/aec_compiler/passes/register_allocation.py:106-113 | registers of ended intervals go back to the free list, in order |
| `RegisterAllocation.FindPair` | src/aec_compiler/passes/register_allocation.py:117-132 | the last even register whose neighbour is free too |
| `LoopRange.ComputeLoopRange` | src/aec_compiler/passes/register_allocation.py:199-230 | the least range around the instructions of all loop blocks, or none if there are none |
| `LinearScan.AllocateKeepsExactly` | src/aec_compiler/passes/register_allocation.py:105-154 | free list and active registers remain a partition of 1..239 iff the turn does not spoil it in the fallback |
| `LinearScan.FallbackPutsBack` | src/aec_compiler/passes/register_allocation.py:138-149 | without a free pair the fallback assigns nothing and puts a register back, the wrong one if it was odd |
| `ScanCorrect.PartitionExactly` | src/aec_compiler/passes/register_allocation.py:99-154 | the partition holds throughout a scan iff no turn was spoiled |
| `ScanCorrect.OverlapDisjoint` | src/aec_compiler/passes/register_allocation.py:99-154 | overlapping intervals get disjoint physical registers |
| `ScanCorrect.MappedInRange` | src/aec_compiler/passes/register_allocation.py:99-154 | assigned registers lie in 1..239, pairs on even bases |
| `ScanCorrect.FewRegistersUnspoiled` | src/aec_compiler/passes/register_allocation.py:99-154 | fewer than sixty allocated registers never reach the fallback |
| `ScanComplete.SinglePlacedExactly` | src/aec_compiler/passes/register_allocation.py:106-150 | a single register goes without a home iff all 239 are held by registers still alive |
| `ScanComplete.PairPlacedExactly` | src/aec_compiler/passes/register_allocation.py:119-146 | a pair does iff of each aligned pair one half is held by a register still alive |
| `ScanHazard.SinglesScanned` | src/aec_compiler/passes/register_allocation.py:105-154 | n single intervals take R1 to Rn in turn |
| `ScanHazard.ScanCanBeSpoiled` | src/aec_compiler/passes/register_allocation.py:138-149 | a scan can be spoiled: for some list the fallback puts back a busy register, and two overlapping intervals are given the same one |
| `Allocator.RegisterAllocator.Allocate` | src/aec_compiler/legacy_lowering.py:115-130 | the first aligned place at or behind `next` clear of everything reserved; an error iff there is none |
| `Allocator.RegisterAllocator.Register` | src/aec_compiler/legacy_lowering.py:132-139 | a token keeps its place; new places overlap nothing handed out before |
| `Allocator.RegisterAllocator.Temp` | src/aec_compiler/legacy_lowering.py:141-146 | R240 to R255 in turn, then an error |
| `Allocator.NoRoomMeansMany` | src/aec_compiler/legacy_lowering.py:112-130 | started empty the lowerer's allocator runs out only after handing out registers worth 238, a pair counting three |
| `PhysicalRun.AllocatorHandsOut` | src/aec_compiler/legacy_lowering.py:98-139 | started from the scan's mapping the allocator adds only disjoint homes |
| `PhysicalRun.HandedOutSafe` | src/aec_compiler/passes/register_allocation.py:99-154 | scan and allocator together never put a register over one that waits for a use |
| `PhysicalRun.AllocationPreservesExecution` | src/aec_compiler/passes/register_allocation.py:47-154 | running over the physical registers ends as running over the virtual ones, with the same memory, also round loops that lie in the hull and use what they define |
| `PhysicalRun.SameValuesRead` | src/aec_compiler/passes/register_allocation.py:47-154 | both runs reach the same items, and at each the physical registers hold the values the virtual run reads |
| `PhysicalRun.IntervalsMeet` | src/aec_compiler/passes/register_allocation.py:86-97 | a register written while another waits, in front of or round a loop: some item lies in both intervals |
| `PhysicalRun.UnsharedFollows` | src/aec_compiler/legacy_lowering.py:98-139 | over the lowerer's own homes every program, loops included, runs as on virtual registers |
| `IfConversion.TryLegalise` | src/aec_compiler/legacy_lowering.py:547-596 | a forward branch is converted iff its region is nonempty, has no branch outside the uniform slice and no item with another guard; an invalid predicate is an error |
| `IfConversion.BuildControlPlan` | src/aec_compiler/legacy_lowering.py:525-544 | branch after branch in item order; branches proven varying but not converted stay branches |
| `IfConversion.PlansAreLegal` | src/aec_compiler/legacy_lowering.py:525-596 | without loops inside regions every plan guards exactly the items behind its converted branches |
| `IfConversion.RegionsDisjoint` | src/aec_compiler/legacy_lowering.py:586-591 | regions of converted branches never overlap, so guards never conflict |
| `IfConversion.LabelIndices` | src/aec_compiler/legacy_lowering.py:625-630 | every label's item index |
| `IfConversion.CollectRegion` | src/aec_compiler/legacy_lowering.py:567-573 | exactly the instructions between branch and target |
| `IfConversion.HasBranch` | src/aec_compiler/legacy_lowering.py:577-581 | finds a branch outside the uniform slice iff there is one |
| `IfConversion.HasConflict` | src/aec_compiler/legacy_lowering.py:588-591 | finds an item with another guard iff there is one |
| `IfConversion.AddGuards` | src/aec_compiler/legacy_lowering.py:593-595 | the region outside the slice gets the guard, other items keep theirs |
| `LoweringEngine.Lowerer.OperandReg` | src/aec_compiler/legacy_lowering.py:452-466 | a register's home, or the next temporary with the immediate loaded into it |
| `LoweringEngine.Lowerer.LowerInstruction` | src/aec_compiler/legacy_lowering.py:184-206 | appends exactly the expansion over the homes as they are afterwards, or explains the refusal |
| `LoweringEngine.ExpandStable` | src/aec_compiler/legacy_lowering.py:132-139 | code already emitted stays right when later registers get homes |
| `LoweringEngine.Lowerer.PatchBranches` | src/aec_compiler/legacy_lowering.py:478-482 | every waiting branch gets its label's value, or the error names a label that does not exist |
| `LoweringEngine.PatchedIsPlanned` | src/aec_compiler/legacy_lowering.py:478-482 | patching in place fills in exactly the positions of the targets |
| `LoweringEngine.Lowerer.Lower` | src/aec_compiler/legacy_lowering.py:170-182 | the instruction list is the planned program over the final homes; an error says which item or label is at fault, or that registers ran out |
| `LoweringEngine.Lowerer.PtxReg` | src/aec_compiler/legacy_lowering.py:457-461 | a new home has the width asked for; old homes stay |
| `LoweringEngine.Lowerer.OperandRegs` | src/aec_compiler/legacy_lowering.py:452-466 | operands in order, each immediate in a temporary of its own |
| `LoweringEngine.Lowerer.LowerLdParam` | src/aec_compiler/legacy_lowering.py:208-244 | one word or two, each through the next temporary |
| `LoweringEngine.Lowerer.LowerLdGlobal` | src/aec_compiler/legacy_lowering.py:246-259 | the address is given its home before the destination; the code is the expansion |
| `LoweringEngine.Lowerer.LowerStGlobal` | src/aec_compiler/legacy_lowering.py:261-273 | address, then value; the code is the expansion |
| `LoweringEngine.Lowerer.LowerMov` | src/aec_compiler/legacy_lowering.py:275-305 | special registers, registers and immediates of both widths; the code is the expansion |
| `LoweringEngine.Lowerer.LowerFromSources` | src/aec_compiler/legacy_lowering.py:307-450 | destination, operands, then one instruction or two; the code is the expansion over the final homes |
| `LoweringEngine.Lowerer.LowerControl` | src/aec_compiler/legacy_lowering.py:325-345 | a branch waits for its target at its own index; an unproven guarded branch is refused |
| `LoweringEngine.Lowerer.LowerItem` | src/aec_compiler/legacy_lowering.py:171-180 | labels take the current position, skipped branches leave no code, every other item its expansion |
| `Masking.GuardedCodeMasks` | src/aec_compiler/legacy_lowering.py:468-476 | guarded code over a warp is the bare code over the lanes whose guard is on; the other lanes keep everything |
| `Masking.OneLaneMasks` | src/aec_compiler/legacy_lowering.py:468-476 | a lane with its guard off passes over the code, one with it on runs it bare and keeps the guard on |
| `Masking.OwnGuardEscapes` | src/aec_compiler/legacy_lowering.py:468-476 | an emitted instruction, whatever its opcode, is passed over by all lanes whose region guard is off iff it has no guard of its own or the same one |
| `Masking.RegionReturnFaults` | src/aec_compiler/legacy_lowering.py:468-476 | a `ret` in a region becomes a guarded HALT, which the machine refuses |
| `LoweringKinds.BinaryMatches` | src/aec_compiler/legacy_lowering.py:440-450 | from every state, temporaries and one instruction have the effect of a two-operand PTX instruction iff its operation fits: a shift by less than 32, signed right shifts of words without sign only, or a shift that comes to the same |
| `LoweringKinds.ShiftRightlyLowered` | src/aec_compiler/legacy_lowering.py:397-450 | the amounts that fit every word: below 32 for left and unsigned right shifts, zero for signed right shifts, because the machine takes the amount modulo 32 and fills with zeros |
| `LoweringKinds.FusedMatches` | src/aec_compiler/legacy_lowering.py:406-417 | the same for `mad` and `fma`: right iff the operation fits, which integer ones and `fma` do |
| `LoweringKinds.RoundsAlike` | src/aec_compiler/legacy_lowering.py:406-417 | a binary32 `mad`, which PTX rounds once and the machine twice, fits iff product and sum rounded one after the other are the fused result |
| `LoweringKinds.WideMultiplyMatches` | src/aec_compiler/legacy_lowering.py:373-395 | product in the low half, zero in the high half: the 32-bit abstract address rule |
| `LoweringKinds.WideAddMatches` | src/aec_compiler/legacy_lowering.py:418-439 | the 64-bit sum by that rule, from the low halves of both operands |
| `LoweringAccess.MoveMatches` | src/aec_compiler/legacy_lowering.py:275-305 | moves of registers, pairs, immediates of both widths and special registers |
| `LoweringAccess.SetPredicateMatches` | src/aec_compiler/legacy_lowering.py:307-323 | from every state the comparison sets the predicate register to the PTX outcome iff it fits |
| `LoweringAccess.CompareExactly` | src/aec_compiler/sim.py:366-387 | the machine compares words without sign: a signed comparison fits iff it is of equality or both words have one sign |
| `LoweringAccess.LdGlobalMatches` | src/aec_compiler/legacy_lowering.py:246-259 | a global load, or its fault |
| `LoweringAccess.StGlobalMatches` | src/aec_compiler/legacy_lowering.py:261-273 | a global store, or its fault with memory untouched |
| `LoweringAccess.WideParamMatches` | src/aec_compiler/legacy_lowering.py:217-235 | two word loads through two temporaries are the 64-bit parameter |
| `LoweringCorrect.CodeAtItem` | src/aec_compiler/legacy_lowering.py:170-182 | the code of an item lies between the value of a label there and that of the next item |
| `LoweringCorrect.ExpansionMatches` | src/aec_compiler/legacy_lowering.py:184-206 | whatever the instruction, its expansion has its effect iff its operation fits |
| `LoweringCorrect.LoweringSimulates` | src/aec_compiler/legacy_lowering.py:170-182 | every PTX run whose operations fit is matched by the lane's run of the lowered program, across expansions, temporaries, pair halves, patched branches and converted regions: same end, same memory, registers at home |
| `LoweringCorrect.HaltingReturns` | src/aec_compiler/legacy_lowering.py:170-182 | if the lane halts the thread does: every item costs the lane a step or leads the thread on |
| `LoweringCorrect.RegionMaskedOff` | src/aec_compiler/legacy_lowering.py:547-596 | a lane that took the branch comes out of the whole region unchanged |
| `LoweringCorrect.ConvertedItem` | src/aec_compiler/legacy_lowering.py:547-596 | at a converted branch each lane ends where its own taken or not-taken branch would lead it |
| `LoweringTable.TypesExactly` | src/aec_compiler/legacy_lowering.py:37-46 | which types have a name in the target, and which |
| `LoweringTable.RowsAtOtherTypes` | src/aec_compiler/legacy_lowering.py:37-46 | a row over single registers is lowered at every other 32-bit type the type table names, and at .f16 |
| `LoweringTable.RowsAreLowered` | src/aec_compiler/legacy_lowering.py:184-206 | every row of the lowering table, by base, modifiers, type and operand classes, is lowered, and lies in the subset the theorems cover |
| `LoweringTable.LinesBecome` | src/aec_compiler/legacy_lowering.py:397-450 | rows of one instruction become it, with the documented opcode and type, under the guard of the source and behind the loads of their immediates |
| `LoweringTable.TableCompiles` | src/aec_compiler/legacy_lowering.py:158-206 | a kernel of such rows with distinct labels, existing targets and distinct block names is compiled, unless its registers take more than there are or the direction of a guarded branch is not known |
| `LoweringTable.KnownBranches` | src/aec_compiler/legacy_lowering.py:533-600 | a guarded branch known to be uniform or to vary is converted or may be emitted |
| `EndToEnd.ReturnGuardDropped` | src/aec_compiler/legacy_lowering.py:199-200 | `ret` is lowered rightly for every thread iff it is unguarded: the guard is dropped |
| `EndToEnd.ParamGuardDropped` | src/aec_compiler/legacy_lowering.py:208-244 | a guarded `ld.param` is lowered as the bare one: right for every thread iff it is unguarded |
| `EndToEnd.LoweredThread` | src/aec_compiler/legacy_lowering.py:515-517 | a thread's PTX run and the lane's run of the lowered code end alike, over unshared homes |
| `EndToEnd.LaneHalts` | src/aec_compiler/legacy_lowering.py:153-182 | conversely a lane that halts over the lowered code comes from a thread that halts, with the same memory |
| `EndToEnd.AllocatedThread` | src/aec_compiler/legacy_lowering.py:153-168 | the same over linear-scan homes, loops in the hull included |
| `EndToEnd.ScheduledThread` | src/aec_compiler/passes/scheduler.py:145-179 | and through the scheduler: a thread that halts halts in the scheduled code with the same memory |
| `CompiledKernel.Compile` | src/aec_compiler/legacy_lowering.py:153-182 | graph, plan, lowering in order: what comes out is the planned program, what fails is explained |
| `CompiledKernel.SubsetIsWellWidthed` | src/aec_compiler/legacy_lowering.py:457-461 | in the subset every register is first looked up with the width of its class |
| `CompiledKernel.CompiledThread` | src/aec_compiler/legacy_lowering.py:153-182 | a thread of a compiled kernel whose operations fit ends as in PTX: same memory on halting, same memory on a fault |
| `CompiledKernel.CompiledWarp` | src/aec_compiler/sim.py:162-217 | a warp that halts in lockstep over a compiled kernel leaves the memory its PTX threads leave, all of which halt when run one after the other |
| `CompiledKernel.ScheduledWarp` | src/aec_compiler/passes/scheduler.py:145-179 | the same of the scheduled code of a compiled kernel |
| `CompiledKernel.FullMeansMany` | src/aec_compiler/legacy_lowering.py:112-147 | the lowerer reports exhausted registers only for a kernel whose registers, a pair counting three, take 238 or more, and never temporaries |
| `OptimizedKernel.ThreadFolds` | src/aec_compiler/passes/global_cp.py:230-246 | the machine's arithmetic on words is that of the folding passes |
| `OptimizedKernel.PassesFollow` | src/aec_compiler/passes/pipelines.py:52-60 | elimination of common subexpressions, both folding passes and dead-code elimination in the order of the pipeline: a source run that ends is matched in end and memory |
| `OptimizedKernel.PassesPrecede` | src/aec_compiler/passes/pipelines.py:52-60 | and a run of the optimized program that halts is one of the source |
| `OptimizedKernel.OptimizedThread` | src/aec_compiler/legacy_lowering.py:153-182 | a thread of the source program ends as its lane does over the code compiled from the optimized program |
| `OptimizedKernel.OptimizedWarp` | src/aec_compiler/passes/scheduler.py:145-179 | a warp that halts in lockstep over the optimized, compiled and scheduled kernel leaves the memory that the source program's threads leave, all of which halt when run one after the other |
| `Encoding.EncodeControl` | src/aec_compiler/isa.py:221-251 | the bits accumulated with `|=` are those of the fields side by side |
| `Encoding.EncodeInstruction` | src/aec_compiler/isa.py:210-265 | succeeds iff the instruction is encodable; errors name what is wrong with it |
| `Encoding.EncodeGuard` | src/aec_compiler/isa.py:229-240 | refuses a negation without predicate and a BRX without one, and sets the guard bits otherwise |
| `Decoding.DecodeUndoesEncode` | src/aec_compiler/isa.py:318-385 | decode(encode(i)) is i iff i is canonical: operands in range and exactly the fields its opcode uses |
| `Decoding.ReencodeExactly` | src/aec_compiler/isa.py:210-385 | what was decoded encodes to the same words iff the shared bits held only the field the opcode reads |
| `Decoding.WordsRecovered` | src/aec_compiler/isa.py:210-385 | any four words that decode: encoding the result gives them back iff nothing in the control half-word went unread and the type is the encoder's own |
| `Binary.ProfilesWellFormed` | src/aec_compiler/isa.py:21-193 | both profiles give opcodes, types, spaces and comparisons codes of their own that fit their fields |
| `Binary.InstructionsToBytes` | src/aec_compiler/isa.py:283-287 | the bytes of all encodings, or the error of the first instruction that cannot be encoded |
| `Binary.BytesToWords` | src/aec_compiler/isa.py:295-300 | the words whose bytes the blob is, or an error iff its length is no multiple of sixteen |
| `Binary.AllBytesInjective` | src/aec_compiler/isa.py:283-300 | bytes determine words |
| `Binary.ListRecovered` | src/aec_compiler/isa.py:283-385 | decoding the words of a binary gives the instruction list back iff all of it is canonical |
| `Binary.QuadAt` | src/aec_compiler/isa.py:295-298 | sixteen bytes are the bytes of the four words read |
| `BinaryRun.FieldsKept` | src/aec_compiler/isa.py:210-385 | decoding an encoding gives back every field the opcode has, the immediate as far as it is written, for any instruction whose fields fit |
| `BinaryRun.EncodingKeepsEffect` | src/aec_compiler/isa.py:210-385 | what is decoded does to every lane and memory what was encoded, under the same guard, and branches to the same place |
| `BinaryRun.BinaryRuns` | src/aec_compiler/isa.py:283-298 | the words of a binary all decode, and what is decoded runs as the list that was encoded, from every warp |
| `BinaryRun.OpcodesDocumented` | src/aec_compiler/isa.py:36-57 | the default profile has nineteen opcodes with the documented codes |
| `BinaryRun.FieldCodesDocumented` | src/aec_compiler/isa.py:58-69 | the documented codes of types, spaces and comparisons, and the bits of the guard |
| `CompiledBinary.CompiledWritable` | src/aec_compiler/legacy_lowering.py:158-206 | the code of a compiled kernel has every field in range and every opcode, type and space in the default profile, if its targets are words |
| `CompiledBinary.CompiledBinaryRuns` | src/aec_compiler/isa.py:283-298 | the scheduled code of a compiled kernel can be written as a binary, whose words all decode to code that runs the same |
| `KernelLaunch.OptimizedLaunch` | src/aec_compiler/passes/pipelines.py:29-60 | a launch of the scheduled code of an optimized kernel that finishes leaves the memory that all threads of the source program leave, run one after the other |
| `KernelLaunch.BinaryLaunch` | src/aec_compiler/isa.py:283-385 | so does a launch of what is decoded from the kernel's binary |

## Left out

- Binary32 arithmetic: the operations are parameters on words; `LoweringCorrect` and `CompiledKernel` take them to be total, since an overflow is an error of the simulator only.
- PTX text parsing, register tokens as strings (`%p` for `%p0`), disassembly, reports, the command line, pass and analysis managers, file I/O: no hard property.
- Dominators and loops are computed over an abstract graph with an entry; that the entry is the one `CfgBuilder` picks by name is not composed with them.
- `heapq`: taking the least (priority, index) of the ready set stands for it.
- Access and branch traces of the simulator.
- Calls, atomics and unknown opcodes fail in `Ptx`. `cvt`, 16-bit types and `mul.hi` are computed by the host, so that the source passes are proved for any meaning they have; they have no row in the subset that lowering is proved for. The carry flag that `.cc` adds is no state of `Ptx`. Encoding covers all opcodes of both profiles.
- The pair a `mul.wide.u32` writes is its low half with zero above, by the repository's abstract address rule, in the passes as in lowering.
- 64-bit global loads and stores, `mov.u64` of special registers, stores of immediates and guarded parameter loads have no row in the subset of `PtxMeaning.InSubset`; `Expansion` still expands what the lowerer expands.
- `licm.py`, `memory.py`, `gemm.py`, `block_simplify.py`, `experimental.py`: preservation does not follow from the checks they make.
- Dead-result elimination in `local_scalar.py`: global dead-code elimination removes all it removes.
- Uniformity analysis: the branch states and the uniform slices of regions are inputs of the control plan.
- Predicate allocation: the lowerer does not use its result.
- Live ranges of registers that are never defined: nothing is allocated for them.
- Register fields of instructions are natural numbers; the encoder truncates them as the code does.
- ScheduleCorrect.ScheduleRefines: asks for schedulable blocks; a block that is not schedulable reorders an interfering pair (`InterferenceKeptExactly`), which need not show in every run. A run that fails may fail with other lane states.
- ScheduleCorrect.ScheduleKeepsMemoryAtFault: asks that no refusable compute instruction passes a store; whether one does is exact (`StorePassedExactly`), whether it is refused on a given run is not asked.
- ConstPropRewrite.PropagationPreservesRuns: asks that no write passed over or misread can change a fact; a program may break this and still run alike, when the wrong fact is never used.
- ConstPropHazard.FactsKeptExactly: the converse leaves out products and bitwise operations with an unknown source, which may be constant all the same, such as a conjunction with zero, and the difference of an unknown and itself.
- CseCorrect.CsePreservesRuns: asks that every scope is sound; a scope that only loses values it reads first may do no harm where it is not repeated, one that reuses a self-reading expression does harm at once (`CseSelfRead.OwnSourceLost`).
- Lockstep.LockstepIsSerial: non-interference is asked of the bytes the run touches, not of all runs.
- PhysicalRun.AllocationPreservesExecution: asks that backward branches stay in the hull of the loops and that registers defined there have a recorded use there; other loops are not covered, except by `UnsharedFollows` over the lowerer's own allocation. That reads are of written registers is asked of the run, because a branch may lead round a definition.
- LoweringCorrect.LoweringSimulates: asks that the operations executed on the run fit, which is exact for each of them (`ExpansionMatches`); two misfits could cancel out later in a run. Regions hold plain instructions and are entered at their head, the uniform slices are empty.
- CompiledKernel.CompiledWarp: asks for non-interference of the lanes and that the operations on the threads' runs fit.
- CompiledKernel.ScheduledWarp: over the lowerer's own homes; linear-scan homes are composed for one thread (`AllocatedThread`).
- LoweringEngine.Lowerer.Lower: refuses `cvt` and types without an entry in the type table; the code lowers `cvt` to a CVT instruction, which the simulator does not execute and the default profile cannot write, and passes such type names on to the encoder, which does not know them.
- LoweringTable.TableCompiles: that the registers fit is asked with the cost of a pair at its worst, three; a kernel may cost more and still compile.
- CseComplete.RepeatIsDropped: asks that the repeated computation occurs once before and that its inputs are not written in the scope up to there; `CseScope.LookUp` says for every instruction whether it is replaced.
- ConstPropComplete.StraightKnown: speaks of straight code; across blocks what is known is what all predecessors know (`MeetExactly`).
- ScanComplete.SinglePlacedExactly: asks that no turn was spoiled so far, as every theorem about the scan does.
- CompiledBinary.CompiledBinaryRuns: asks that the program has fewer than 2^32 instructions, so that branch targets are words.
- BinaryRun.FieldsKept: asks that fields that share bits are present where the opcode has them, and that a conversion names its source type and no family, because both lie in the same bits.
- KernelLaunch.BinaryLaunch: asks what `CompiledWarp` asks, of every warp of the launch on the memory it finds; lanes of different warps may interfere, because warps run one after the other.
- OptimizedKernel.OptimizedWarp: the four source passes stand next to each other; the load, loop and block passes between and behind them, and the dead-result pass in front are not modelled.
- IfConversion.PlansAreLegal: regions with a loop inside are outside it, because the registers of the uniform slice differ in skipped lanes by design.
