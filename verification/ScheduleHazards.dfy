/** Which blocks meet the scheduler's condition, and what goes wrong in one that does not. */
module ScheduleHazards {
  import opened Wrappers
  import opened Words
  import opened Isa
  import opened Machine
  import opened Independence
  import opened Reorder
  import opened Dependence
  import opened IssueOrder
  import opened Scheduler
  import opened ScheduleCorrect

  // ----- two kinds of block that are safe -----

  predicate NoPairWriters(insts: seq<Inst>) {
    forall i | 0 <= i < |insts| :: !WritesPair(insts[i])
  }

  /** No guard (a BRX at the end aside) reads a predicate that a CMPP of the block writes. */
  predicate NoGuardOnLocalPredicate(insts: seq<Inst>) {
    forall i, c | 0 <= i < |insts| && 0 <= c < |insts| && KindOf(insts[i]) != Controls && insts[c].opcode == CMPP ::
      insts[i].guard != Some(insts[c].dest)
  }

  lemma TouchesAreNamed(a: Inst, r: nat)
    requires !WritesPair(a)
    ensures r in RegWrites(a) ==> HasDest(a) && r == a.dest
    ensures KindOf(a) != Controls && r in RegReads(a) ==> Reads(a, r)
    ensures r in PredWrites(a) ==> HasDest(a) && r == a.dest
  {
  }

  /** Without pair writers, everything an instruction really touches is tracked, guards aside. */
  lemma RealConflictIsTracked(a: Inst, x: Inst)
    requires !WritesPair(a) && !WritesPair(x)
    requires KindOf(x) != Controls && KindOf(a) != Controls
    requires !Disjoint(a, x)
    requires a.opcode == CMPP ==> x.guard != Some(a.dest)
    requires x.opcode == CMPP ==> a.guard != Some(x.dest)
    ensures Tracked(a, x)
  {
    assert PredReads(a) !! PredWrites(x) && PredWrites(a) !! PredReads(x);
    hide RegWrites, RegReads, PredWrites, PredReads, KindOf, HasDest, WritesPair, Reads;
    if r :| r in RegWrites(a) && r in RegReads(x) {
      TouchesAreNamed(a, r);
      TouchesAreNamed(x, r);
    } else if r :| r in RegReads(a) && r in RegWrites(x) {
      TouchesAreNamed(a, r);
      TouchesAreNamed(x, r);
    } else if r :| r in RegWrites(a) && r in RegWrites(x) {
      TouchesAreNamed(a, r);
      TouchesAreNamed(x, r);
    } else {
      var p :| p in PredWrites(a) && p in PredWrites(x);
      TouchesAreNamed(a, p);
      TouchesAreNamed(x, p);
    }
  }

  lemma CleanBlockSchedulable(insts: seq<Inst>)
    requires ControlLast(insts) && NoPairWriters(insts) && NoGuardOnLocalPredicate(insts)
    ensures Schedulable(insts)
  {
    hide Before, Disjoint, Tracked;
    forall a, x | 0 <= a < x < |insts| && !Disjoint(insts[a], insts[x]) ensures Before(insts, a, x) {
      if KindOf(insts[x]) == Controls {
        FenceBefore(insts, a, x);
      } else {
        RealConflictIsTracked(insts[a], insts[x]);
        TrackedBefore(insts, a, x);
      }
    }
  }

  predicate ComparesBeforeStores(insts: seq<Inst>) {
    forall c, s | 0 <= c < |insts| && 0 <= s < |insts| && insts[c].opcode == CMPP && insts[s].opcode == ST :: c < s
  }

  /** After each CMPP of its guard, a compute instruction of the block produces the load's address. */
  predicate GuardedLoadsAddressedLate(insts: seq<Inst>) {
    forall c, x | 0 <= c < x < |insts| && insts[c].opcode == CMPP && insts[x].opcode == LD
                  && insts[x].guard == Some(insts[c].dest) ::
      exists y | c < y < x :: KindOf(insts[y]) == Computes && insts[y].dest == insts[x].src1 <= 255
  }

  lemma AddressIsTracked(y: Inst, x: Inst)
    requires KindOf(y) == Computes && y.dest == x.src1 <= 255
    ensures Tracked(y, x)
  {
  }

  /** Between a compare and what it guards, or the other way round, the key is enough. */
  lemma GuardBefore(insts: seq<Inst>, a: nat, x: nat)
    requires ControlLast(insts) && ComparesBeforeStores(insts) && GuardedLoadsAddressedLate(insts)
    requires a < x < |insts|
    requires || (insts[a].opcode == CMPP && insts[x].guard == Some(insts[a].dest))
             || (insts[x].opcode == CMPP && insts[a].guard == Some(insts[x].dest))
    ensures Before(insts, a, x)
  {
    hide Before, Tracked, ControlLast;
    if insts[x].opcode == LD {
      var y :| a < y < x && KindOf(insts[y]) == Computes && insts[y].dest == insts[x].src1 <= 255;
      ComputeBefore(insts, a, y);
      AddressIsTracked(insts[y], insts[x]);
      TrackedBefore(insts, y, x);
      BeforeTransitive(insts, a, y, x);
    } else if Fence(insts, x) {
      FenceBefore(insts, a, x);
    } else {
      ComputeBefore(insts, a, x);
    }
  }

  /** Guarded code stays correct although no edge leads from a compare to what it guards. */
  lemma GuardedBlockSchedulable(insts: seq<Inst>)
    requires ControlLast(insts) && NoPairWriters(insts)
    requires ComparesBeforeStores(insts) && GuardedLoadsAddressedLate(insts)
    ensures Schedulable(insts)
  {
    hide Before, Disjoint, Tracked, ComparesBeforeStores, GuardedLoadsAddressedLate;
    forall a, x | 0 <= a < x < |insts| && !Disjoint(insts[a], insts[x]) ensures Before(insts, a, x) {
      if KindOf(insts[x]) == Controls {
        FenceBefore(insts, a, x);
      } else if || (insts[a].opcode == CMPP && insts[x].guard == Some(insts[a].dest))
                || (insts[x].opcode == CMPP && insts[a].guard == Some(insts[x].dest)) {
        GuardBefore(insts, a, x);
      } else {
        RealConflictIsTracked(insts[a], insts[x]);
        TrackedBefore(insts, a, x);
      }
    }
  }

  /** Only compute instructions are ever moved in front of a store. */
  lemma OnlyComputesPass(cfg: Config, block: seq<Inst>)
    requires ControlLast(block)
    requires forall x | 0 <= x < |block| && KindOf(block[x]) == Computes :: NeverTraps(cfg, block[x])
    ensures LosesNoStore(cfg, block)
  {
    hide Before, NeverTraps, ControlLast;
    forall a, x | 0 <= a < x < |block| && block[a].opcode == ST && Before(block, x, a)
      ensures NeverTraps(cfg, block[x]) {
      BeforeTotal(block, a, x);
      if Fence(block, x) {
        FenceBefore(block, a, x);
      } else if KindOf(block[x]) == Loads {
        LoadBefore(block, a, a, x);
      }
    }
  }

  // ----- blocks outside the condition, and what goes wrong -----

  function BlankLane(): Lane {
    FreshLane(LaneId(0, 0, Dim(1, 1, 1), Dim(1, 1, 1), 32))
  }

  function BlankWarp(): Warp {
    Warp([BlankLane()], [7, 7, 7, 7])
  }

  /** A store, a load behind it, a compare of the loaded value, and an instruction under that compare. */
  function HazardProgram(): seq<Inst> {
    [Inst(ST, dtype := U32, src1 := 2, src2 := 4, space := Some(Gmem)),
     Inst(LD, dtype := U32, dest := 6, src1 := 2, space := Some(Gmem)),
     Inst(CMPP, dtype := U32, dest := 1, src1 := 6, src2 := 6, compare := Some(Eq)),
     Inst(LOADI, dest := 5, imm := 1, guard := Some(1)),
     Inst(HALT)]
  }

  lemma HazardEdges(i: nat, j: nat)
    ensures Edge(HazardProgram(), i, j) <==> (i == 0 && j == 1) || (i == 1 && j == 2)
  {
  }

  predicate HazardFree(issued: seq<nat>, j: nat) {
    j < 5 && j !in issued && (j == 1 ==> 0 in issued) && (j == 2 ==> 1 in issued)
  }

  lemma HazardReady(issued: seq<nat>, j: nat)
    ensures Ready(HazardProgram(), issued, j) <==> HazardFree(issued, j)
  {
    forall i: nat ensures Edge(HazardProgram(), i, j) <==> (i == 0 && j == 1) || (i == 1 && j == 2) {
      HazardEdges(i, j);
    }
    hide Edge;
  }

  function HazardRank(j: nat): nat {
    if j == 0 then 2 else if j == 1 then 0 else if j <= 3 then 1 else 1004
  }

  lemma HazardPriority(j: nat)
    requires j < 5
    ensures |HazardProgram()| == 5 && Priority(HazardProgram(), j) == HazardRank(j)
  {
  }

  lemma HazardBest(issued: seq<nat>, best: nat)
    requires HazardFree(issued, best)
    requires forall j: nat | HazardFree(issued, j) ::
               HazardRank(best) < HazardRank(j) || (HazardRank(best) == HazardRank(j) && best <= j)
    ensures IsBest(HazardProgram(), issued, best)
  {
    hide Ready, HazardProgram, Priority, HazardRank;
    HazardReady(issued, best);
    HazardPriority(best);
    forall j: nat | Ready(HazardProgram(), issued, j)
      ensures j < |HazardProgram()| && NoWorse(HazardProgram(), best, j)
    {
      HazardReady(issued, j);
      HazardPriority(j);
    }
  }

  lemma HazardTurns(order: seq<nat>)
    requires order == [3, 0, 1, 2, 4]
    ensures forall k | 0 <= k < 5 :: IsBest(HazardProgram(), order[..k], order[k])
  {
    assert order[..0] == [] && order[..1] == [3] && order[..2] == [3, 0];
    assert order[..3] == [3, 0, 1] && order[..4] == [3, 0, 1, 2];
    hide IsBest, HazardProgram;
    forall k | 0 <= k < 5 ensures IsBest(HazardProgram(), order[..k], order[k]) {
      HazardBest(order[..k], order[k]);
    }
  }

  lemma HazardDone(order: seq<nat>, j: nat)
    requires order == [3, 0, 1, 2, 4]
    ensures !Ready(HazardProgram(), order, j)
  {
    hide Ready, HazardProgram;
    HazardReady(order, j);
    assert order[0] == 3 && order[1] == 0 && order[2] == 1 && order[3] == 2 && order[4] == 4;
  }

  lemma HazardOrder()
    ensures Greedy(HazardProgram(), [3, 0, 1, 2, 4])
  {
    var order := [3, 0, 1, 2, 4];
    hide IsBest, Ready, HazardProgram;
    HazardTurns(order);
    forall j: nat ensures !Ready(HazardProgram(), order, j) {
      HazardDone(order, j);
    }
  }

  /** A program whose only branch is the HALT at its end is a single block. */
  lemma OneBlock(p: seq<Inst>, q: seq<Inst>)
    requires |p| > 0 && |q| == |p| && BlockScheduled(p, q)
    requires forall i | 0 <= i < |p| - 1 :: !IsBranch(p[i])
    requires forall i, k | 0 <= i < |p| :: !JumpsTo(p[i], k)
    ensures Rescheduled(p, q)
  {
    hide BlockScheduled;
    assert forall s: nat | IsLeader(p, s) :: s == 0;
    var e := BlockEnd(p, 1);
    assert p[0..e] == p && q[0..e] == q;
  }

  /** One ordinary instruction of a one-lane run. */
  lemma RunOne(cfg: Config, p: seq<Inst>, pc: nat, lane: Lane, gmem: seq<Byte>, fuel: nat)
    requires pc < |p| && !IsBranch(p[pc]) && LaneEffect(cfg, p[pc], lane, gmem) != Trap
    ensures Run(cfg, p, pc, Warp([lane], gmem), fuel + 1)
         == Run(cfg, p, pc + 1, Warp([StepLane(cfg, p[pc], lane, gmem)],
                                     ApplyMemory(LaneEffect(cfg, p[pc], lane, gmem), gmem)), fuel)
  {
    hide LaneEffect, StepLane, ApplyMemory, Exec, Run;
    ExecAlone(cfg, p[pc], lane, gmem);
    RunOneStep(cfg, p, pc, Warp([lane], gmem), fuel + 1);
  }

  lemma RunHalt(cfg: Config, p: seq<Inst>, pc: nat, w: Warp, fuel: nat)
    requires pc < |p| && p[pc] == Inst(HALT)
    ensures Run(cfg, p, pc, w, fuel + 1) == Halted(w)
  {
  }

  lemma HazardCode()
    ensures var p := HazardProgram(); |p| == 5 && p[4] == Inst(HALT) && forall k | 0 <= k < 4 :: !IsBranch(p[k])
    ensures forall i, k | 0 <= i < 5 :: !JumpsTo(HazardProgram()[i], k)
  {
  }

  /** The store writes four zero bytes at address 0. */
  lemma HazardStore(cfg: Config, gmem: seq<Byte>)
    requires |gmem| == 4
    ensures LaneEffect(cfg, HazardProgram()[0], BlankLane(), gmem) == Store(0, [0, 0, 0, 0])
    ensures StepLane(cfg, HazardProgram()[0], BlankLane(), gmem) == BlankLane()
  {
    FourZeros();
    hide ToBytes;
  }

  lemma HazardLoad(cfg: Config, gmem: seq<Byte>)
    requires |gmem| == 4
    ensures LaneEffect(cfg, HazardProgram()[1], BlankLane(), gmem) == SetReg(6, FromBytes(gmem[..4]))
  {
    hide FromBytes;
    assert gmem[0..4] == gmem[..4];
  }

  /** Comparing a register with itself sets the predicate. */
  lemma HazardCompare(cfg: Config, lane: Lane, gmem: seq<Byte>)
    ensures LaneEffect(cfg, HazardProgram()[2], lane, gmem) == SetPred(1, true)
  {
  }

  lemma HazardGuarded(cfg: Config, lane: Lane, gmem: seq<Byte>)
    ensures LaneEffect(cfg, HazardProgram()[3], lane, gmem) == if lane.preds[1] then SetReg(5, 1) else Skip
  {
  }

  lemma EffectApplied(cfg: Config, inst: Inst, lane: Lane, gmem: seq<Byte>)
    ensures FitsLane(LaneEffect(cfg, inst, lane, gmem))
    ensures StepLane(cfg, inst, lane, gmem) == Apply(LaneEffect(cfg, inst, lane, gmem), lane)
  {
    EffectFits(cfg, inst, lane, gmem);
  }

  /** In program order the guarded instruction runs. */
  lemma HazardInOrder(cfg: Config)
    ensures var r := Run(cfg, HazardProgram(), 0, BlankWarp(), 5);
            r.Halted? && |r.warp.lanes| == 1 && r.warp.lanes[0].regs[5] == 1
  {
    hide Run, LaneEffect, HazardProgram, StepLane, FromBytes, ToBytes;
    HazardCode();
    var p, l0, g0 := HazardProgram(), BlankLane(), BlankWarp().gmem;
    HazardStore(cfg, g0);
    RunOne(cfg, p, 0, l0, g0, 4);
    var g1 := ApplyMemory(Store(0, [0, 0, 0, 0]), g0);
    HazardLoad(cfg, g1);
    RunOne(cfg, p, 1, l0, g1, 3);
    EffectApplied(cfg, p[1], l0, g1);
    var l2 := StepLane(cfg, p[1], l0, g1);
    HazardCompare(cfg, l2, g1);
    RunOne(cfg, p, 2, l2, g1, 2);
    EffectApplied(cfg, p[2], l2, g1);
    var l3 := StepLane(cfg, p[2], l2, g1);
    HazardGuarded(cfg, l3, g1);
    RunOne(cfg, p, 3, l3, g1, 1);
    EffectApplied(cfg, p[3], l3, g1);
    RunHalt(cfg, p, 4, Warp([StepLane(cfg, p[3], l3, g1)], g1), 0);
  }

  /** Issued first, it is skipped: its predicate is still unset. */
  lemma HazardReordered(cfg: Config, q: seq<Inst>)
    requires var p := HazardProgram(); q == [p[3], p[0], p[1], p[2], p[4]]
    ensures var r := Run(cfg, q, 0, BlankWarp(), 5);
            r.Halted? && |r.warp.lanes| == 1 && r.warp.lanes[0].regs[5] == 0
  {
    hide Run, LaneEffect, HazardProgram, StepLane, FromBytes, ToBytes, IsBranch, FitsLane, JumpsTo;
    HazardCode();
    var l0, g0 := BlankLane(), BlankWarp().gmem;
    HazardGuarded(cfg, l0, g0);
    RunOne(cfg, q, 0, l0, g0, 4);
    EffectApplied(cfg, q[0], l0, g0);
    HazardStore(cfg, g0);
    RunOne(cfg, q, 1, l0, g0, 3);
    var g1 := ApplyMemory(Store(0, [0, 0, 0, 0]), g0);
    HazardLoad(cfg, g1);
    RunOne(cfg, q, 2, l0, g1, 2);
    EffectApplied(cfg, q[2], l0, g1);
    var l2 := StepLane(cfg, q[2], l0, g1);
    HazardCompare(cfg, l2, g1);
    RunOne(cfg, q, 3, l2, g1, 1);
    EffectApplied(cfg, q[3], l2, g1);
    RunHalt(cfg, q, 4, Warp([StepLane(cfg, q[3], l2, g1)], g1), 0);
  }

  /** By the key the guarded instruction overtakes its comparison. */
  lemma HazardNotSchedulable()
    ensures !Schedulable(HazardProgram())
  {
    var p, order := HazardProgram(), [3, 0, 1, 2, 4];
    HazardOrder();
    hide Greedy, Before;
    assert ControlLast(p) && !Disjoint(p[2], p[3]);
    hide Disjoint, HazardProgram, ControlLast;
    assert order[3] == 2 && order[0] == 3;
    PrecedesAt(order, 3, 0);
    HazardCode();
    IssueOrderIsSorted(p, order, 2, 3);
  }

  /** "Respecting all data dependencies" fails for guards: the scheduled program halts in a different state. */
  lemma GuardCanBeOvertaken(cfg: Config)
    ensures !Schedulable(HazardProgram())
    ensures exists q ::
              && Rescheduled(HazardProgram(), q)
              && Run(cfg, HazardProgram(), 0, BlankWarp(), 5).Halted?
              && Run(cfg, q, 0, BlankWarp(), 5).Halted?
              && Run(cfg, HazardProgram(), 0, BlankWarp(), 5) != Run(cfg, q, 0, BlankWarp(), 5)
  {
    var p := HazardProgram();
    var q := [p[3], p[0], p[1], p[2], p[4]];
    HazardNotSchedulable();
    HazardInOrder(cfg);
    HazardReordered(cfg, q);
    HazardIsRescheduled(q);
    hide *;
  }

  lemma FivePicked(p: seq<Inst>, q: seq<Inst>)
    requires |p| == 5 && q == [p[3], p[0], p[1], p[2], p[4]] && Greedy(p, [3, 0, 1, 2, 4])
    ensures BlockScheduled(p, q)
  {
    hide Greedy;
    assert q == Pick(p, [3, 0, 1, 2, 4]);
  }

  lemma HazardIsRescheduled(q: seq<Inst>)
    requires var p := HazardProgram(); q == [p[3], p[0], p[1], p[2], p[4]]
    ensures Rescheduled(HazardProgram(), q)
  {
    hide *;
    HazardCode();
    HazardOrder();
    FivePicked(HazardProgram(), q);
    OneBlock(HazardProgram(), q);
  }

  // ----- why memory at a fault needs compute instructions that cannot fail -----

  /** A store in front of a copy from a selector that does not exist. */
  function FaultyProgram(): seq<Inst> {
    [Inst(ST, dtype := U32, src1 := 2, src2 := 4, space := Some(Gmem)),
     Inst(CPY, dtype := U32, dest := 5, src1 := 0x0999),
     Inst(HALT)]
  }

  lemma FaultyEdges(i: nat, j: nat)
    ensures !Edge(FaultyProgram(), i, j)
  {
  }

  lemma FaultyReady(issued: seq<nat>, j: nat)
    ensures Ready(FaultyProgram(), issued, j) <==> j < 3 && j !in issued
  {
    forall i: nat ensures !Edge(FaultyProgram(), i, j) {
      FaultyEdges(i, j);
    }
    hide Edge;
  }

  function FaultyRank(j: nat): nat {
    if j == 0 then 2 else if j == 1 then 1 else 1002
  }

  lemma FaultyPriority(j: nat)
    requires j < 3
    ensures |FaultyProgram()| == 3 && Priority(FaultyProgram(), j) == FaultyRank(j)
  {
  }

  lemma FaultyBest(issued: seq<nat>, best: nat)
    requires best < 3 && best !in issued
    requires forall j: nat | j < 3 && j !in issued && j != best :: FaultyRank(best) < FaultyRank(j)
    ensures IsBest(FaultyProgram(), issued, best)
  {
    hide Ready, FaultyProgram, Priority, FaultyRank;
    FaultyReady(issued, best);
    FaultyPriority(best);
    forall j: nat | Ready(FaultyProgram(), issued, j)
      ensures j < |FaultyProgram()| && NoWorse(FaultyProgram(), best, j)
    {
      FaultyReady(issued, j);
      FaultyPriority(j);
    }
  }

  lemma FaultyOrder()
    ensures Greedy(FaultyProgram(), [1, 0, 2])
  {
    var order := [1, 0, 2];
    FaultyBest([], 1);
    FaultyBest([1], 0);
    FaultyBest([1, 0], 2);
    forall j: nat ensures !Ready(FaultyProgram(), order, j) {
      FaultyReady(order, j);
      assert order[0] == 1 && order[1] == 0 && order[2] == 2;
    }
    hide IsBest, Ready;
    assert order[..0] == [] && order[..1] == [1] && order[..2] == [1, 0];
  }

  lemma FaultyIsRescheduled(q: seq<Inst>)
    requires var p := FaultyProgram(); q == [p[1], p[0], p[2]]
    ensures Rescheduled(FaultyProgram(), q)
  {
    var p := FaultyProgram();
    FaultyOrder();
    assert q == Pick(p, [1, 0, 2]);
    hide Greedy;
    OneBlock(p, q);
  }

  /** What the three instructions touch. */
  lemma FaultyTouches()
    ensures var p := FaultyProgram();
            && RegWrites(p[0]) == {} && RegWrites(p[1]) == {5} && RegWrites(p[2]) == {} && 5 !in RegReads(p[0])
                && 5 !in RegReads(p[2])
            && PredWrites(p[0]) == {} && PredWrites(p[1]) == {} && PredWrites(p[2]) == {}
  {
    var p := FaultyProgram();
    StoreTouches(p[0]);
    CopyTouches(p[1]);
    HaltTouches(p[2]);
    hide RegWrites, RegReads, PredWrites;
  }

  lemma StoreTouches(a: Inst)
    requires a.opcode == ST
    ensures RegWrites(a) == {} && PredWrites(a) == {} && RegReads(a) <= {a.src1, a.src2}
  {
  }

  lemma CopyTouches(a: Inst)
    requires a.opcode == CPY && !IsWide(a.dtype)
    ensures RegWrites(a) == {a.dest} && PredWrites(a) == {}
  {
  }

  lemma HaltTouches(a: Inst)
    requires a.opcode == HALT
    ensures RegWrites(a) == {} && PredWrites(a) == {} && RegReads(a) == {}
  {
  }

  /**
   * An instruction that writes nothing is disjoint from one that writes a register it does not read, if no predicate is
   * written.
   */
  lemma QuietDisjoint(a: Inst, x: Inst, r: nat)
    requires PredWrites(a) == {} && PredWrites(x) == {}
    requires (RegWrites(a) == {} && RegWrites(x) <= {r} && r !in RegReads(a))
             || (RegWrites(x) == {} && RegWrites(a) <= {r} && r !in RegReads(x))
    ensures Disjoint(a, x)
  {
    hide RegWrites, RegReads, PredWrites, PredReads;
  }

  lemma FaultyApart(a: nat, x: nat)
    requires a < x < 3
    ensures |FaultyProgram()| == 3 && Disjoint(FaultyProgram()[a], FaultyProgram()[x])
  {
    hide RegWrites, RegReads, PredWrites, PredReads, Disjoint, FaultyProgram, IsBranch;
    FaultyLength();
    FaultyTouches();
    if a == 0 && x == 1 {
      QuietDisjoint(FaultyProgram()[0], FaultyProgram()[1], 5);
    } else if a == 0 {
      QuietDisjoint(FaultyProgram()[0], FaultyProgram()[2], 5);
    } else {
      QuietDisjoint(FaultyProgram()[1], FaultyProgram()[2], 5);
    }
  }

  lemma FaultyControlLast()
    ensures |FaultyProgram()| == 3 && ControlLast(FaultyProgram())
  {
  }

  lemma FaultySchedulable()
    ensures Schedulable(FaultyProgram())
  {
    hide Before, ControlLast, Disjoint, FaultyProgram;
    FaultyControlLast();
    forall a: nat, x: nat | a < x < 3 ensures Disjoint(FaultyProgram()[a], FaultyProgram()[x]) {
      FaultyApart(a, x);
    }
  }

  lemma FaultyLength()
    ensures var p := FaultyProgram(); |p| == 3 && !IsBranch(p[0]) && !IsBranch(p[1])
  {
  }

  lemma FourZeros()
    ensures ToBytes(0, 4) == [0, 0, 0, 0]
  {
    assert ToBytes(0, 0) == [] && ToBytes(0, 1) == [0] && ToBytes(0, 2) == [0, 0] && ToBytes(0, 3) == [0, 0, 0];
  }

  lemma FaultyStore(cfg: Config, gmem: seq<Byte>)
    requires |gmem| == 4
    ensures LaneEffect(cfg, FaultyProgram()[0], BlankLane(), gmem) == Store(0, [0, 0, 0, 0])
    ensures StepLane(cfg, FaultyProgram()[0], BlankLane(), gmem) == BlankLane()
  {
    FourZeros();
    hide ToBytes;
  }

  lemma FaultyCopy(cfg: Config, gmem: seq<Byte>)
    ensures LaneEffect(cfg, FaultyProgram()[1], BlankLane(), gmem) == Trap
  {
  }

  lemma ZerosOver(gmem: seq<Byte>, zeros: seq<Byte>)
    requires |gmem| == |zeros| == 4
    ensures ApplyMemory(Store(0, zeros), gmem) == zeros
  {
    assert gmem[..0] + zeros + gmem[4..] == zeros;
  }

  /** A refused instruction ends the run with memory as it is. */
  lemma RunTrap(cfg: Config, p: seq<Inst>, pc: nat, lane: Lane, gmem: seq<Byte>, fuel: nat)
    requires pc < |p| && !IsBranch(p[pc]) && LaneEffect(cfg, p[pc], lane, gmem) == Trap
    ensures Run(cfg, p, pc, Warp([lane], gmem), fuel + 1) == Failed(gmem)
  {
    hide LaneEffect, StepLane, ApplyMemory, Run;
    RunOneStep(cfg, p, pc, Warp([lane], gmem), fuel + 1);
  }

  lemma FaultyRuns(cfg: Config, q: seq<Inst>)
    requires var p := FaultyProgram(); q == [p[1], p[0], p[2]]
    ensures Run(cfg, FaultyProgram(), 0, BlankWarp(), 3) == Failed([0, 0, 0, 0])
    ensures Run(cfg, q, 0, BlankWarp(), 3) == Failed([7, 7, 7, 7])
  {
    FaultyLength();
    hide Run, LaneEffect, StepLane, ApplyMemory, FaultyProgram, FreshLane;
    var p, l0, g0: seq<Byte>, zeros: seq<Byte> := FaultyProgram(), BlankLane(), [7, 7, 7, 7], [0, 0, 0, 0];
    FaultyStore(cfg, g0);
    FaultyCopy(cfg, zeros);
    FaultyCopy(cfg, g0);
    ZerosOver(g0, zeros);
    RunOne(cfg, p, 0, l0, g0, 2);
    RunTrap(cfg, p, 1, l0, zeros, 1);
    RunTrap(cfg, q, 0, l0, g0, 2);
  }

  lemma FaultyLosesStore(cfg: Config)
    ensures !LosesNoStore(cfg, FaultyProgram())
  {
    var p, order := FaultyProgram(), [1, 0, 2];
    FaultyOrder();
    FaultyControlLast();
    FaultyCopy(cfg, []);
    assert p[0].opcode == ST;
    hide Greedy, Before, ControlLast, FaultyProgram, LaneEffect;
    assert order[0] == 1 && order[1] == 0;
    PrecedesAt(order, 0, 1);
    IssueOrderIsSorted(p, order, 1, 0);
    assert !NeverTraps(cfg, p[1]);
  }

  /** The copy is issued before the store, so the error is raised before memory is written. */
  lemma ComputeFaultLosesStore(cfg: Config)
    ensures Schedulable(FaultyProgram()) && !LosesNoStore(cfg, FaultyProgram())
    ensures exists q ::
              && Rescheduled(FaultyProgram(), q)
              && Run(cfg, FaultyProgram(), 0, BlankWarp(), 3) == Failed([0, 0, 0, 0])
              && Run(cfg, q, 0, BlankWarp(), 3) == Failed([7, 7, 7, 7])
  {
    var p := FaultyProgram();
    var q := [p[1], p[0], p[2]];
    FaultyIsRescheduled(q);
    FaultyRuns(cfg, q);
    FaultySchedulable();
    FaultyLosesStore(cfg);
    hide *;
  }
}
