/** The whole way: from the source threads of a launch to the launch of the binary made of them. */
module KernelLaunch {
  import opened Wrappers
  import opened Words
  import opened IfConversion
  import opened LoweringCorrect
  import opened LoweringEngine
  import opened LoweringStep
  import opened Machine
  import opened Launches
  import opened CompiledKernel
  import opened OptimizedKernel
  import opened CompiledBinary
  import B = Binary
  import BR = BinaryRun
  import C = CfgBuilder
  import E = Encoding
  import F = LocalFolding
  import A = Isa
  import P = Ptx
  import S = Scheduler
  import T = ScheduleCorrect

  /** Thread `n` of all threads of a launch. */
  function ThreadId(launch: Launch, n: nat): LaneId {
    LaneId(n / BlockThreads(launch), n % BlockThreads(launch), launch.blockDim, launch.gridDim, launch.warpSize)
  }

  function ThreadIds(launch: Launch, n: nat): (ids: seq<LaneId>)
    decreases AllThreads(launch) - n
  {
    if n >= AllThreads(launch) then [] else [ThreadId(launch, n)] + ThreadIds(launch, n + 1)
  }

  /** The launch provides every thread with what the kernel asks for. */
  ghost predicate LaunchProvides(cfg: Config, l: Lowerer, launch: Launch)
    reads l
  {
    forall n: nat | n < AllThreads(launch) :: Launchable(cfg, l.offsets, l.plan, l.items, ThreadId(launch, n))
  }

  lemma LaneOfThread(launch: Launch, n: nat)
    ensures ThreadLane(launch, n / BlockThreads(launch), n % BlockThreads(launch)) == FreshLane(ThreadId(launch, n))
  {
    hide BlockThreads;
  }

  /** Lanes that halt one after the other over compiled code come from threads that do, with the same memory. */
  lemma {:induction false} LaunchedThreads(cfg: Config, l: Lowerer, states: map<nat, BranchState>, slice: Slices,
                                           launch: Launch, n: nat, gmem: seq<Byte>)
    returns (fuel: nat)
    requires Compiled(cfg, l, states, slice) && LaunchProvides(cfg, l, launch)
    requires ThreadsFit(cfg, l.offsets, l.items, l.Homes(), ThreadIds(launch, n), gmem)
    requires RunThreads(cfg, l.instructions, launch, n, gmem).Some?
    ensures ThreadsSerially(cfg, l.offsets, l.items, ThreadIds(launch, n), gmem, fuel)
         == RunThreads(cfg, l.instructions, launch, n, gmem)
    decreases AllThreads(launch) - n
  {
    hide Compiled, Launchable, OperationsAlwaysFit, Run, P.Run, FreshLane, IsLowered, AllThreads, BlockThreads,
         ThreadLane, ThreadId;
    fuel := 0;
    if n < AllThreads(launch) {
      var id, ids := ThreadId(launch, n), ThreadIds(launch, n);
      LaneOfThread(launch, n);
      assert ids[0] == id && ids[1..] == ThreadIds(launch, n + 1);
      var first := CompiledLaneHalts(cfg, l, states, slice, id, gmem, launch.maxSteps);
      var w := Run(cfg, l.instructions, 0, One(FreshLane(id), gmem), launch.maxSteps).warp;
      var rest := LaunchedThreads(cfg, l, states, slice, launch, n + 1, w.gmem);
      fuel := ThenSerially(cfg, l.offsets, l.items, ids, gmem, first, rest);
    }
  }

  /**
   * A launch of the scheduled code that finishes, its lanes not interfering, leaves the memory that the threads of the
   * source program leave, all of them, run one after the other.
   */
  lemma OptimizedLaunch(cfg: Config, source: seq<P.Item>, fold: F.FloatFold, graph: C.Cfg, rounds: nat, l: Lowerer,
                        scheduled: seq<A.Inst>, states: map<nat, BranchState>, slice: Slices, launch: Launch,
                        gmem: seq<Byte>)
    returns (fuel: nat)
    requires Optimized(source, fold, graph, rounds, l.items) && FloatsFold(fold, cfg.ops)
    requires Compiled(cfg, l, states, slice) && LaunchProvides(cfg, l, launch)
    requires S.Rescheduled(l.instructions, scheduled) && T.SchedulableProgram(l.instructions)
    requires ThreadsFit(cfg, l.offsets, l.items, l.Homes(), ThreadIds(launch, 0), gmem)
    requires Apart(cfg, l.instructions, launch, 0, 0, gmem)
    requires RunGrid(cfg, scheduled, launch, 0, 0, gmem).Finished?
    ensures ThreadsSerially(cfg, l.offsets, source, ThreadIds(launch, 0), gmem, fuel)
            == Some(RunGrid(cfg, scheduled, launch, 0, 0, gmem).gmem)
  {
    hide *;
    T.ScheduleRefinesLaunch(cfg, l.instructions, scheduled, launch, 0, 0, gmem);
    LaunchIsThreads(cfg, l.instructions, launch, gmem);
    var f := LaunchedThreads(cfg, l, states, slice, launch, 0, gmem);
    fuel := SerialSource(cfg, l.offsets, source, fold, graph, rounds, l.items, ThreadIds(launch, 0), gmem, f);
  }

  // ----- the binary -----

  /** Programs that run alike from every warp finish a launch alike. */
  lemma {:induction false} SameLaunch(cfg: Config, p: seq<A.Inst>, q: seq<A.Inst>, launch: Launch, block: nat,
                                      warpStart: nat, gmem: seq<Byte>)
    requires forall w: Warp, fuel: nat :: Run(cfg, q, 0, w, fuel) == Run(cfg, p, 0, w, fuel)
    ensures RunGrid(cfg, q, launch, block, warpStart, gmem).Finished? ==>
              RunGrid(cfg, p, launch, block, warpStart, gmem) == RunGrid(cfg, q, launch, block, warpStart, gmem)
    decreases Volume(launch.gridDim) - block, Volume(launch.blockDim) - warpStart
  {
    hide Run, MemoryAfter, LaunchedLanes, Volume;
    if block < Volume(launch.gridDim) {
      if warpStart >= Volume(launch.blockDim) {
        SameLaunch(cfg, p, q, launch, block + 1, 0, gmem);
      } else {
        var w := Warp(LaunchedLanes(launch, block, warpStart), gmem);
        assert Run(cfg, q, 0, w, launch.maxSteps) == Run(cfg, p, 0, w, launch.maxSteps);
        var r := Run(cfg, p, 0, w, launch.maxSteps);
        if r.Halted? {
          SameLaunch(cfg, p, q, launch, block, warpStart + launch.warpSize, r.warp.gmem);
        }
      }
    }
  }

  lemma FirstThread(cfg: Config, l: Lowerer, launch: Launch)
    requires LaunchProvides(cfg, l, launch)
    ensures Launchable(cfg, l.offsets, l.plan, l.items, ThreadId(launch, 0))
  {
    ProductPositive(GridBlocks(launch), BlockThreads(launch));
    ProductPositive(launch.gridDim.x * launch.gridDim.y, launch.gridDim.z);
    ProductPositive(launch.gridDim.x, launch.gridDim.y);
    assert GridBlocks(launch) > 0;
    hide BlockThreads, GridBlocks, Launchable;
  }

  lemma DecodedOnce(p: E.Profile, words: seq<E.Quad>, back: seq<A.Inst>, back': seq<A.Inst>)
    requires BR.DecodesTo(p, words, back) && BR.DecodesTo(p, words, back')
    ensures back == back'
  {
    forall k | 0 <= k < |words| ensures back[k] == back'[k] {
      assert Result<A.Inst, E.EncodeError>.Ok(back[k]) == Result<A.Inst, E.EncodeError>.Ok(back'[k]);
    }
  }

  /**
   * The same of the binary: a launch of what is decoded from the bytes of the scheduled code leaves the memory that the
   * threads of the source program leave.
   */
  lemma BinaryLaunch(cfg: Config, source: seq<P.Item>, fold: F.FloatFold, graph: C.Cfg, rounds: nat, l: Lowerer,
                     scheduled: seq<A.Inst>, words: seq<E.Quad>, back: seq<A.Inst>, states: map<nat, BranchState>,
                     slice: Slices, launch: Launch, gmem: seq<Byte>)
    returns (fuel: nat)
    requires Optimized(source, fold, graph, rounds, l.items) && FloatsFold(fold, cfg.ops)
    requires Compiled(cfg, l, states, slice) && LaunchProvides(cfg, l, launch)
    requires S.Rescheduled(l.instructions, scheduled) && T.SchedulableProgram(l.instructions)
    requires ThreadsFit(cfg, l.offsets, l.items, l.Homes(), ThreadIds(launch, 0), gmem)
    requires Apart(cfg, l.instructions, launch, 0, 0, gmem)
    requires |l.instructions| < WORD
    requires BR.BinaryOf(B.C1Default(), scheduled, words) && BR.DecodesTo(B.C1Default(), words, back)
    requires RunGrid(cfg, back, launch, 0, 0, gmem).Finished?
    ensures ThreadsSerially(cfg, l.offsets, source, ThreadIds(launch, 0), gmem, fuel)
            == Some(RunGrid(cfg, back, launch, 0, 0, gmem).gmem)
  {
    hide *;
    FirstThread(cfg, l, launch);
    var back' := CompiledBinaryRuns(cfg, l, scheduled, states, slice, ThreadId(launch, 0), words);
    DecodedOnce(B.C1Default(), words, back, back');
    SameLaunch(cfg, scheduled, back, launch, 0, 0, gmem);
    fuel := OptimizedLaunch(cfg, source, fold, graph, rounds, l, scheduled, states, slice, launch, gmem);
  }
}
