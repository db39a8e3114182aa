/** A thread's PTX run, followed down to scheduled AEC code, and where lowering departs from PTX. */
module EndToEnd {
  import opened Wrappers
  import opened Words
  import opened Expansion
  import opened PtxMeaning
  import opened LoweringStep
  import opened LoweringKinds
  import opened LoweringCorrect
  import opened ControlPlan
  import opened IfConversion
  import opened Machine
  import P = Ptx
  import A = Isa
  import R = PhysicalRun
  import L = LinearScan
  import C = ScanCorrect
  import G = RegisterAllocation
  import S = Scheduler
  import T = ScheduleCorrect

  /** The physical registers of a lane that has just been launched. */
  function Blank(gmem: seq<Byte>): R.Physical {
    R.Physical(map[], map[], gmem)
  }

  lemma FreshLaneBlank(id: LaneId, gmem: seq<Byte>)
    ensures SlotRel(Blank(gmem), FreshLane(id)) && FreshLane(id).id == id
  {
  }

  lemma EnteredAtStart(plan: Plan, items: seq<P.Item>, lane: Lane)
    ensures Entered(plan, items, 0, lane)
  {
  }

  lemma BlankSame(homes: R.Homes, gmem: seq<Byte>)
    ensures R.Same(homes, P.State(map[], gmem), Blank(gmem))
  {
  }

  /** The thread and the lane end alike: same memory when they halt, same memory when they fault. */
  predicate SameEnd(r: P.RunResult, r': RunResult) {
    match r
    case Halted(s) => r'.Halted? && r'.warp.gmem == s.gmem
    case Failed(m) => r' == Failed(m)
    case OutOfSteps => true
  }

  lemma AlikeIsSameEnd(r: P.RunResult, middle: R.PhysicalResult, r': RunResult)
    requires match r
             case Halted(s) => (match middle case PHalted(p) => p.gmem == s.gmem case _ => false)
             case Failed(m) => middle == R.PFailed(m)
             case OutOfSteps => middle == R.POutOfSteps
    requires EndsAlike(middle, r')
    ensures SameEnd(r, r')
  {
  }

  /** Lowering with the lowerer's own allocator: any kernel of the subset, loops included. */
  lemma LoweredThread(cfg: Config, offsets: map<nat, nat>, homes: R.Homes, plan: Plan, items: seq<P.Item>, id: LaneId,
                      gmem: seq<Byte>, fuel: nat)
    returns (fuel': nat)
    requires LoweringReady(cfg, offsets, homes, plan, items, id) && R.Unshared(homes) && R.Covers(items, homes)
    requires OperationsFit(ThreadHost(cfg, offsets, id), items, homes, 0, Blank(gmem), fuel)
    ensures SameEnd(P.Run(ThreadHost(cfg, offsets, id), items, 0, P.State(map[], gmem), fuel),
                    Run(cfg, Program(homes, offsets, plan, items), 0, One(FreshLane(id), gmem), fuel'))
  {
    hide OperationsFit, R.Unshared, R.Covers, R.Same, SlotRel, Program, Run, P.Run, R.Run, EndsAlike, Plannable, Ready,
         Legal, CleanRegions, Entered;
    var host := ThreadHost(cfg, offsets, id);
    FreshLaneBlank(id, gmem);
    EnteredAtStart(plan, items, FreshLane(id));
    BlankSame(homes, gmem);
    R.UnsharedFollows(host, items, homes, 0, P.State(map[], gmem), Blank(gmem), fuel);
    SameMeansMemory(homes, P.Run(host, items, 0, P.State(map[], gmem), fuel),
                    R.Run(host, items, homes, 0, Blank(gmem), fuel));
    fuel' := LoweringSimulates(cfg, offsets, homes, plan, items, 0, Blank(gmem), FreshLane(id), fuel);
    AlikeIsSameEnd(P.Run(host, items, 0, P.State(map[], gmem), fuel), R.Run(host, items, homes, 0, Blank(gmem), fuel),
                   Run(cfg, Program(homes, offsets, plan, items), Position(homes, offsets, plan, items, 0),
                       One(FreshLane(id), gmem), fuel'));
  }

  /** Conversely, if the lane halts over the lowered code the thread halts, with the same memory. */
  lemma LaneHalts(cfg: Config, offsets: map<nat, nat>, homes: R.Homes, plan: Plan, items: seq<P.Item>, id: LaneId,
                  gmem: seq<Byte>, n: nat)
    returns (fuel: nat)
    requires LoweringReady(cfg, offsets, homes, plan, items, id) && R.Unshared(homes) && R.Covers(items, homes)
    requires OperationsAlwaysFit(ThreadHost(cfg, offsets, id), items, homes, 0, Blank(gmem))
    requires Run(cfg, Program(homes, offsets, plan, items), 0, One(FreshLane(id), gmem), n).Halted?
    ensures var r := P.Run(ThreadHost(cfg, offsets, id), items, 0, P.State(map[], gmem), fuel);
            r.Halted? && r.state.gmem == Run(cfg, Program(homes, offsets, plan, items), 0, One(FreshLane(id), gmem),
                                             n).warp.gmem
  {
    hide OperationsFit, R.Unshared, R.Covers, R.Same, SlotRel, Program, Run, P.Run, R.Run, Plannable, Ready, Legal,
         CleanRegions, Entered;
    var host := ThreadHost(cfg, offsets, id);
    FreshLaneBlank(id, gmem);
    EnteredAtStart(plan, items, FreshLane(id));
    BlankSame(homes, gmem);
    fuel := HaltingReturns(cfg, offsets, homes, plan, items, 0, Blank(gmem), FreshLane(id), n);
    R.UnsharedFollows(host, items, homes, 0, P.State(map[], gmem), Blank(gmem), fuel);
    assert OperationsFit(host, items, homes, 0, Blank(gmem), fuel);
    var fuel' := LoweredThread(cfg, offsets, homes, plan, items, id, gmem, fuel);
    EndsOnce(cfg, Program(homes, offsets, plan, items), 0, One(FreshLane(id), gmem), fuel', n);
  }

  lemma SameMeansMemory(homes: R.Homes, r: P.RunResult, middle: R.PhysicalResult)
    requires match r
             case Halted(s) => (match middle case PHalted(p) => R.Same(homes, s, p) case _ => false)
             case Failed(m) => middle == R.PFailed(m)
             case OutOfSteps => middle == R.POutOfSteps
    ensures match r
            case Halted(s) => (match middle case PHalted(p) => p.gmem == s.gmem case _ => false)
            case _ => true
  {
  }

  /**
   * Lowering over linear-scan homes: kernels whose loops use what they define and whose reads are of written registers.
   */
  lemma AllocatedThread(cfg: Config, offsets: map<nat, nat>, homes: R.Homes, plan: Plan, items: seq<P.Item>,
                        hull: Option<(nat, nat)>, intervals: seq<L.Interval>, id: LaneId, gmem: seq<Byte>, fuel: nat)
                          returns (fuel': nat)
    requires LoweringReady(cfg, offsets, homes, plan, items, id)
    requires R.WellTyped(items) && R.BranchesStay(items, hull) && R.LoopsUse(items, hull)
    requires R.ReadsWritten(ThreadHost(cfg, offsets, id), items, 0, P.State(map[], gmem), fuel)
    requires C.Scannable(intervals) && C.Unspoiled(intervals, |intervals|)
    requires forall k | 0 <= k < |intervals| :: G.Spans(items, hull, intervals[k].reg, intervals[k].first,
                                                        intervals[k].last)
    requires R.HandedOut(items, L.Scan(intervals, |intervals|).mapping, homes)
    requires OperationsFit(ThreadHost(cfg, offsets, id), items, homes, 0, Blank(gmem), fuel)
    ensures SameEnd(P.Run(ThreadHost(cfg, offsets, id), items, 0, P.State(map[], gmem), fuel),
                    Run(cfg, Program(homes, offsets, plan, items), 0, One(FreshLane(id), gmem), fuel'))
  {
    hide OperationsFit, R.WellTyped, R.BranchesStay, R.LoopsUse, R.ReadsWritten, R.HandedOut, C.Scannable, C.Unspoiled,
         G.Spans, SlotRel, Program, Run, P.Run, R.Run, EndsAlike, Plannable, Ready, Legal, CleanRegions, Entered,
             L.Scan;
    var host := ThreadHost(cfg, offsets, id);
    FreshLaneBlank(id, gmem);
    EnteredAtStart(plan, items, FreshLane(id));
    R.AllocationPreservesExecution(host, items, hull, intervals, homes, gmem, map[], fuel);
    fuel' := LoweringSimulates(cfg, offsets, homes, plan, items, 0, Blank(gmem), FreshLane(id), fuel);
    AlikeIsSameEnd(P.Run(host, items, 0, P.State(map[], gmem), fuel), R.Run(host, items, homes, 0, Blank(gmem), fuel),
                   Run(cfg, Program(homes, offsets, plan, items), Position(homes, offsets, plan, items, 0),
                       One(FreshLane(id), gmem), fuel'));
  }

  /** A thread that halts in PTX halts in the lowered and scheduled code, with the same memory. */
  lemma ScheduledThread(cfg: Config, offsets: map<nat, nat>, homes: R.Homes, plan: Plan, items: seq<P.Item>,
                        scheduled: seq<A.Inst>, id: LaneId, gmem: seq<Byte>, fuel: nat) returns (fuel': nat)
    requires LoweringReady(cfg, offsets, homes, plan, items, id) && R.Unshared(homes) && R.Covers(items, homes)
    requires OperationsFit(ThreadHost(cfg, offsets, id), items, homes, 0, Blank(gmem), fuel)
    requires S.Rescheduled(Program(homes, offsets, plan, items), scheduled)
    requires T.SchedulableProgram(Program(homes, offsets, plan, items))
    ensures match P.Run(ThreadHost(cfg, offsets, id), items, 0, P.State(map[], gmem), fuel)
            case Halted(s) => (match Run(cfg, scheduled, 0, One(FreshLane(id), gmem), fuel')
                               case Halted(w) => w.gmem == s.gmem
                               case _ => false)
            case _ => true
  {
    hide OperationsFit, R.Unshared, R.Covers, Program, Run, P.Run, Plannable, Ready, Legal, CleanRegions, Entered,
         S.Rescheduled, T.SchedulableProgram;
    fuel' := LoweredThread(cfg, offsets, homes, plan, items, id, gmem, fuel);
    T.ScheduleRefines(cfg, Program(homes, offsets, plan, items), scheduled, One(FreshLane(id), gmem), fuel');
  }

  // ----- where lowering departs from PTX -----

  /** `ret` becomes an unguarded HALT: right on every thread exactly if the `ret` was unguarded. */
  lemma ReturnGuardDropped(homes: R.Homes, offsets: map<nat, nat>, inst: P.Inst, host: P.Host)
    requires Lowerable(offsets, inst) && KindOf(inst) == Return && Needs(inst) <= homes.Keys
    ensures Expand(homes, offsets, inst) == [A.Inst(A.HALT)]
    ensures (forall s: P.State :: P.GuardedEffect(host, inst, s) == P.Exit) <==> inst.guard.None?
  {
    if inst.guard.Some? {
      var s := P.State(map[inst.guard.value := if inst.negated then 1 else 0], []);
      assert P.GuardedEffect(host, inst, s) == P.Nothing;
    }
  }

  lemma BareParam(homes: R.Homes, offsets: map<nat, nat>, inst: P.Inst)
    requires Lowerable(offsets, inst) && KindOf(inst) == LdParam && Needs(inst) <= homes.Keys
    ensures var bare := inst.(guard := None);
            && KindOf(bare) == LdParam && Lowerable(offsets, bare) && Needs(bare) == Needs(inst)
            && Expand(homes, offsets, inst) == Expand(homes, offsets, bare)
  {
    assert Needs(inst.(guard := None)) == Needs(inst);
    hide Needs;
  }

  lemma ParamEffects(offsets: map<nat, nat>, inst: P.Inst, host: P.Host, s: P.State)
    requires Lowerable(offsets, inst) && KindOf(inst) == LdParam
    ensures P.GuardHolds(inst, s.regs) ==> P.GuardedEffect(host, inst, s).Write?
    ensures !P.GuardHolds(inst, s.regs) ==> P.GuardedEffect(host, inst, s) == P.Nothing
    ensures P.GuardedEffect(host, inst.(guard := None), s).Write?
  {
    hide P.GuardHolds;
    assert P.GuardHolds(inst.(guard := None), s.regs) by {
      GuardFree(inst, s.regs);
    }
  }

  lemma GuardFree(inst: P.Inst, regs: P.Regs)
    ensures P.GuardHolds(inst.(guard := None), regs)
  {
  }

  /** A guarded `ld.param` becomes the code of the bare one: right on every thread exactly if it was unguarded. */
  lemma ParamGuardDropped(homes: R.Homes, offsets: map<nat, nat>, inst: P.Inst, host: P.Host)
    requires Lowerable(offsets, inst) && KindOf(inst) == LdParam && Needs(inst) <= homes.Keys
    ensures var bare := inst.(guard := None);
            && Lowerable(offsets, bare) && Needs(bare) == Needs(inst)
            && Expand(homes, offsets, inst) == Expand(homes, offsets, bare)
            && ((forall s: P.State :: P.GuardedEffect(host, inst, s) == P.GuardedEffect(host, bare, s))
                <==> inst.guard.None?)
  {
    hide Lowerable, KindOf, Needs, Expand, P.GuardedEffect;
    BareParam(homes, offsets, inst);
    if inst.guard.Some? {
      var s := P.State(map[inst.guard.value := if inst.negated then 1 else 0], []);
      ParamEffects(offsets, inst, host, s);
    } else {
      assert inst.(guard := None) == inst;
    }
  }
}
