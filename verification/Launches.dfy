/** Whole launches: every thread of every block runs, once, and knows its coordinates. */
module Launches {
  import opened Wrappers
  import opened Words
  import opened Isa
  import opened Machine
  import opened Lockstep

  function BlockThreads(launch: Launch): (n: nat)
    ensures n > 0
  {
    ProductPositive(launch.blockDim.x * launch.blockDim.y, launch.blockDim.z);
    ProductPositive(launch.blockDim.x, launch.blockDim.y);
    launch.blockDim.x * launch.blockDim.y * launch.blockDim.z
  }

  function GridBlocks(launch: Launch): nat {
    launch.gridDim.x * launch.gridDim.y * launch.gridDim.z
  }

  lemma ProductPositive(m: int, n: int)
    ensures m > 0 && n > 0 ==> m * n > 0
  {
  }

  /** Thread `thread` of a block, before it runs. */
  function ThreadLane(launch: Launch, block: nat, thread: nat): Lane {
    FreshLane(LaneId(block, thread, launch.blockDim, launch.gridDim, launch.warpSize))
  }

  /** The threads `from` to `to` of a block. */
  function ThreadLanes(launch: Launch, block: nat, from: nat, to: nat): (lanes: seq<Lane>)
    requires from <= to
    ensures |lanes| == to - from
  {
    seq(to - from, k requires 0 <= k => ThreadLane(launch, block, from + k))
  }

  // ----- what a launch starts -----

  /** Where the warp that starts at `warpStart` ends. */
  function WarpEnd(launch: Launch, warpStart: nat): (e: nat)
    requires warpStart <= BlockThreads(launch)
    ensures warpStart <= e <= BlockThreads(launch)
  {
    if warpStart + launch.warpSize < BlockThreads(launch) then warpStart + launch.warpSize else BlockThreads(launch)
  }

  /** The lanes of one warp are consecutive threads. */
  lemma WarpIsThreads(launch: Launch, block: nat, warpStart: nat)
    requires warpStart <= BlockThreads(launch)
    ensures LaunchedLanes(launch, block, warpStart)
         == ThreadLanes(launch, block, warpStart, WarpEnd(launch, warpStart))
  {
    var e := WarpEnd(launch, warpStart);
    assert Volume(launch.blockDim) == BlockThreads(launch) && WarpLanes(launch, warpStart) == e - warpStart;
    hide BlockThreads, Volume, WarpLanes, WarpEnd;
    forall k | 0 <= k < e - warpStart
      ensures LaunchedLanes(launch, block, warpStart)[k] == ThreadLanes(launch, block, warpStart, e)[k]
    {
      assert LaunchedLanes(launch, block, warpStart)[k] == FreshLane(WarpLaneId(launch, block, warpStart + k));
      assert ThreadLanes(launch, block, warpStart, e)[k] == ThreadLane(launch, block, warpStart + k);
    }
  }

  /** The lanes of the warps that a launch starts for one block, warp after warp. */
  function StartedLanes(launch: Launch, block: nat, warpStart: nat): seq<Lane>
    decreases Volume(launch.blockDim) - warpStart
  {
    if warpStart >= Volume(launch.blockDim) then []
    else LaunchedLanes(launch, block, warpStart) + StartedLanes(launch, block, warpStart + launch.warpSize)
  }

  /** They are the threads of the block, each once and in order. */
  lemma {:induction false} EveryThreadOnce(launch: Launch, block: nat, warpStart: nat)
    requires warpStart <= BlockThreads(launch)
    ensures StartedLanes(launch, block, warpStart) == ThreadLanes(launch, block, warpStart, BlockThreads(launch))
    decreases BlockThreads(launch) - warpStart
  {
    if warpStart < BlockThreads(launch) {
      WarpIsThreads(launch, block, warpStart);
      var next := warpStart + launch.warpSize;
      if next <= BlockThreads(launch) {
        EveryThreadOnce(launch, block, next);
      }
      hide LaunchedLanes, ThreadLane;
    }
  }

  // ----- coordinates -----

  /** The number of a thread of a block among all threads of the launch. */
  function ThreadIndex(launch: Launch, block: nat, thread: nat): (n: nat) {
    ProductMonotone(BlockThreads(launch), 0, block);
    BlockThreads(launch) * block + thread
  }

  function AllThreads(launch: Launch): int {
    GridBlocks(launch) * BlockThreads(launch)
  }

  lemma IndexNext(launch: Launch, block: nat)
    ensures ThreadIndex(launch, block, BlockThreads(launch)) == ThreadIndex(launch, block + 1, 0)
    ensures ThreadIndex(launch, 0, 0) == 0
  {
    hide BlockThreads;
  }

  lemma IndexBehind(launch: Launch, block: nat, thread: nat)
    requires block >= GridBlocks(launch)
    ensures ThreadIndex(launch, block, thread) >= AllThreads(launch)
  {
    ProductMonotone(BlockThreads(launch), GridBlocks(launch), block);
    hide BlockThreads, GridBlocks;
  }

  /** A number below a product, as digits of mixed base. */
  lemma Digits(n: nat, x: nat, y: nat, z: nat)
    requires x > 0 && y > 0 && n < x * y * z
    ensures x * y > 0
    ensures var i, j, k := n % x, n / x % y, n / (x * y); i < x && j < y && k < z && i + x * (j + y * k) == n
  {
    ProductPositive(x, y);
    Division(n, x);
    Division(n / x, y);
    var q := n / x / y;
    Split(n, x, y, q, n / x % y, n % x);
    ProductMonotone(x, n / x % y + 1, y);
    RemainderIs(n, x * y, q, x * (n / x % y) + n % x);
    if q >= z {
      ProductMonotone(x * y, z, q);
    }
  }

  lemma Split(n: nat, x: nat, y: nat, q: nat, j: nat, i: nat)
    requires n == x * (y * q + j) + i
    ensures n == (x * y) * q + (x * j + i) && x * (j + 1) == x * j + x && n == i + x * (j + y * q)
  {
  }

  /** Every thread reads the coordinates its number stands for, and the shape of the launch. */
  lemma ThreadCoordinates(launch: Launch, block: nat, thread: nat)
    requires block < GridBlocks(launch) && thread < BlockThreads(launch)
    ensures var id, dim := ThreadLane(launch, block, thread).id, launch.blockDim;
            match (SpecialValue(0x0100, id), SpecialValue(0x0110, id), SpecialValue(0x0120, id))
            case (Some(x), Some(y), Some(z)) =>
              x < dim.x && y < dim.y && z < dim.z && x + dim.x * (y + dim.y * z) == thread
            case _ => false
    ensures var id, dim := ThreadLane(launch, block, thread).id, launch.gridDim;
            match (SpecialValue(0x0102, id), SpecialValue(0x0112, id), SpecialValue(0x0122, id))
            case (Some(x), Some(y), Some(z)) =>
              x < dim.x && y < dim.y && z < dim.z && x + dim.x * (y + dim.y * z) == block
            case _ => false
  {
    Digits(thread, launch.blockDim.x, launch.blockDim.y, launch.blockDim.z);
    Digits(block, launch.gridDim.x, launch.gridDim.y, launch.gridDim.z);
  }

  /** The shape itself, and the place in the warp by the x coordinate. */
  lemma ThreadShape(launch: Launch, block: nat, thread: nat)
    ensures var id, b, g := ThreadLane(launch, block, thread).id, launch.blockDim, launch.gridDim;
            && SpecialValue(0x0101, id) == Some(b.x) && SpecialValue(0x0111, id) == Some(b.y)
            && SpecialValue(0x0121, id) == Some(b.z) && SpecialValue(0x0103, id) == Some(g.x)
            && SpecialValue(0x0113, id) == Some(g.y) && SpecialValue(0x0123, id) == Some(g.z)
            && match (SpecialValue(0x0100, id), SpecialValue(0x0104, id), SpecialValue(0x0105, id))
               case (Some(x), Some(lane), Some(warp)) =>
                 lane < launch.warpSize && x == warp * launch.warpSize + lane
               case _ => false
  {
    Division(thread % launch.blockDim.x, launch.warpSize);
  }

  // ----- a launch is its threads -----

  /** The threads of a launch from number `n` on run alone, one after the other; `None` if one does not halt. */
  function RunThreads(cfg: Config, p: seq<Inst>, launch: Launch, n: nat, gmem: seq<Byte>): Option<seq<Byte>>
    decreases AllThreads(launch) - n
  {
    if n >= AllThreads(launch) then Some(gmem)
    else
      match Run(cfg, p, 0, Warp([ThreadLane(launch, n / BlockThreads(launch), n % BlockThreads(launch))], gmem),
                launch.maxSteps)
      case Halted(w) => RunThreads(cfg, p, launch, n + 1, w.gmem)
      case _ => None
  }

  /** In no warp of the rest of the launch does a lane store to bytes that another lane touches. */
  ghost predicate Apart(cfg: Config, p: seq<Inst>, launch: Launch, block: nat, warpStart: nat, gmem: seq<Byte>)
    requires warpStart <= BlockThreads(launch)
    decreases GridBlocks(launch) - block, BlockThreads(launch) - warpStart
  {
    if block >= GridBlocks(launch) then true
    else if warpStart >= BlockThreads(launch) then Apart(cfg, p, launch, block + 1, 0, gmem)
    else
      var w := Warp(ThreadLanes(launch, block, warpStart, WarpEnd(launch, warpStart)), gmem);
      && NonInterfering(cfg, p, w, launch.maxSteps)
      && match Run(cfg, p, 0, w, launch.maxSteps)
         case Halted(w') => Apart(cfg, p, launch, block, WarpEnd(launch, warpStart), w'.gmem)
         case _ => true
  }

  /** The number of a thread tells its block and its place there. */
  lemma ThreadNumber(launch: Launch, block: nat, thread: nat)
    requires block < GridBlocks(launch) && thread < BlockThreads(launch)
    ensures var n := ThreadIndex(launch, block, thread);
            && n / BlockThreads(launch) == block && n % BlockThreads(launch) == thread
            && n < AllThreads(launch) && ThreadIndex(launch, block, thread + 1) == n + 1
  {
    hide BlockThreads, GridBlocks;
    var size := BlockThreads(launch);
    RemainderIs(size * block + thread, size, block, thread);
    ProductMonotone(size, block + 1, GridBlocks(launch));
  }

  predicate Counting(order: seq<nat>, from: nat, to: nat) {
    from <= to && |order| == to - from && forall k | 0 <= k < |order| :: order[k] == from + k
  }

  /** One warp, lane after lane, is that many threads of the launch. */
  lemma {:induction false} SerialLanes(cfg: Config, p: seq<Inst>, launch: Launch, block: nat, warpStart: nat,
                                       lanes: seq<Lane>, from: nat, order: seq<nat>, gmem: seq<Byte>, at: nat, end: nat)
    requires block < GridBlocks(launch) && end <= BlockThreads(launch)
    requires Counting(order, from, |lanes|) && at == warpStart + from && end == warpStart + |lanes|
    requires forall k: nat | from <= k < |lanes| :: lanes[k] == ThreadLane(launch, block, warpStart + k)
    requires RunSerially(cfg, p, lanes, gmem, order, launch.maxSteps).Serial?
    ensures RunThreads(cfg, p, launch, ThreadIndex(launch, block, at), gmem)
         == RunThreads(cfg, p, launch, ThreadIndex(launch, block, end),
                       RunSerially(cfg, p, lanes, gmem, order, launch.maxSteps).gmem)
    decreases |order|
  {
    hide Run, ThreadLane, BlockThreads, GridBlocks, ThreadIndex, AllThreads;
    if order != [] {
      assert order[0] == from;
      ThreadNumber(launch, block, at);
      assert [lanes[from]] == [ThreadLane(launch, block, at)];
      var w := Run(cfg, p, 0, Warp([lanes[from]], gmem), launch.maxSteps).warp;
      SerialLanes(cfg, p, launch, block, warpStart, lanes[from := w.lanes[0]], from + 1, order[1..], w.gmem,
                  at + 1, end);
    }
  }

  lemma WarpSerially(cfg: Config, p: seq<Inst>, launch: Launch, block: nat, warpStart: nat, w: Warp)
    requires block < GridBlocks(launch) && warpStart <= BlockThreads(launch)
    requires w.lanes == ThreadLanes(launch, block, warpStart, WarpEnd(launch, warpStart))
    requires Run(cfg, p, 0, w, launch.maxSteps).Halted? && NonInterfering(cfg, p, w, launch.maxSteps)
    ensures RunThreads(cfg, p, launch, ThreadIndex(launch, block, warpStart), w.gmem)
         == RunThreads(cfg, p, launch, ThreadIndex(launch, block, WarpEnd(launch, warpStart)),
                       Run(cfg, p, 0, w, launch.maxSteps).warp.gmem)
  {
    LanesOfWarp(launch, block, warpStart);
    hide *;
    var order := LockstepInOrder(cfg, p, w, launch.maxSteps);
    SerialLanes(cfg, p, launch, block, warpStart, w.lanes, 0, order, w.gmem, warpStart, WarpEnd(launch, warpStart));
  }

  lemma LockstepInOrder(cfg: Config, p: seq<Inst>, w: Warp, fuel: nat) returns (order: seq<nat>)
    requires Run(cfg, p, 0, w, fuel).Halted? && NonInterfering(cfg, p, w, fuel)
    ensures Counting(order, 0, |w.lanes|) && forall i | 0 <= i < |order| :: order[i] < |w.lanes|
    ensures RunSerially(cfg, p, w.lanes, w.gmem, order, fuel)
         == Serial(Run(cfg, p, 0, w, fuel).warp.lanes, Run(cfg, p, 0, w, fuel).warp.gmem)
  {
    hide *;
    order := CountTo(|w.lanes|);
    LockstepIsSerial(cfg, p, w, fuel, order);
  }

  lemma LanesOfWarp(launch: Launch, block: nat, warpStart: nat)
    requires warpStart <= BlockThreads(launch)
    ensures var lanes := ThreadLanes(launch, block, warpStart, WarpEnd(launch, warpStart));
            && warpStart + |lanes| == WarpEnd(launch, warpStart) <= BlockThreads(launch)
            && forall k: nat | k < |lanes| :: lanes[k] == ThreadLane(launch, block, warpStart + k)
  {
  }

  lemma CountTo(n: nat) returns (order: seq<nat>)
    ensures Counting(order, 0, n) && forall k: nat | k < n :: k in order
    ensures forall i | 0 <= i < |order| :: order[i] < n
    ensures forall i, j | 0 <= i < j < |order| :: order[i] != order[j]
  {
    order := seq(n, k requires 0 <= k < n => k);
    forall k: nat | k < n ensures k in order {
      assert order[k] == k;
    }
  }

  /** What is left of a launch that finishes leaves what the threads left leave, run one after the other. */
  lemma {:induction false} LaunchIsThreadsFrom(cfg: Config, p: seq<Inst>, launch: Launch, block: nat, warpStart: nat,
                                               gmem: seq<Byte>)
    requires warpStart <= BlockThreads(launch) && Apart(cfg, p, launch, block, warpStart, gmem)
    requires RunGrid(cfg, p, launch, block, warpStart, gmem).Finished?
    ensures RunThreads(cfg, p, launch, ThreadIndex(launch, block, warpStart), gmem)
         == Some(RunGrid(cfg, p, launch, block, warpStart, gmem).gmem)
    decreases GridBlocks(launch) - block, BlockThreads(launch) - warpStart
  {
    SizesAgree(launch);
    hide Run, ThreadLanes, BlockThreads, GridBlocks, RunSerially, LaunchedLanes, NonInterfering, Volume, MemoryAfter,
         ThreadIndex, AllThreads, WarpEnd;
    if block >= GridBlocks(launch) {
      IndexBehind(launch, block, warpStart);
    } else if warpStart >= BlockThreads(launch) {
      IndexNext(launch, block);
      LaunchIsThreadsFrom(cfg, p, launch, block + 1, 0, gmem);
    } else {
      WarpIsThreads(launch, block, warpStart);
      var e := WarpEnd(launch, warpStart);
      WarpGrows(launch, warpStart);
      var w := Warp(ThreadLanes(launch, block, warpStart, e), gmem);
      WarpSerially(cfg, p, launch, block, warpStart, w);
      NextWarp(cfg, p, launch, block, warpStart, Run(cfg, p, 0, w, launch.maxSteps).warp.gmem);
      LaunchIsThreadsFrom(cfg, p, launch, block, e, Run(cfg, p, 0, w, launch.maxSteps).warp.gmem);
    }
  }

  lemma SizesAgree(launch: Launch)
    ensures Volume(launch.gridDim) == GridBlocks(launch) && Volume(launch.blockDim) == BlockThreads(launch)
  {
  }

  lemma WarpGrows(launch: Launch, warpStart: nat)
    requires warpStart < BlockThreads(launch)
    ensures warpStart < WarpEnd(launch, warpStart)
  {
  }

  /** Behind the end of a block it does not matter how far. */
  lemma NextWarp(cfg: Config, p: seq<Inst>, launch: Launch, block: nat, warpStart: nat, gmem: seq<Byte>)
    requires warpStart <= BlockThreads(launch)
    ensures RunGrid(cfg, p, launch, block, warpStart + launch.warpSize, gmem)
         == RunGrid(cfg, p, launch, block, WarpEnd(launch, warpStart), gmem)
  {
    SizesAgree(launch);
    hide Run, Volume, BlockThreads, LaunchedLanes, MemoryAfter;
  }

  /**
   * A launch that finishes without interference in its warps leaves what all its threads leave, one after the other.
   */
  lemma LaunchIsThreads(cfg: Config, p: seq<Inst>, launch: Launch, gmem: seq<Byte>)
    requires Apart(cfg, p, launch, 0, 0, gmem) && RunGrid(cfg, p, launch, 0, 0, gmem).Finished?
    ensures RunThreads(cfg, p, launch, 0, gmem) == Some(RunGrid(cfg, p, launch, 0, 0, gmem).gmem)
  {
    hide *;
    IndexNext(launch, 0);
    LaunchIsThreadsFrom(cfg, p, launch, 0, 0, gmem);
  }
}
