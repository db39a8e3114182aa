/** A compiled kernel does what its PTX threads do: one thread, then a warp in lockstep. */
module CompiledKernel {
  import opened Wrappers
  import opened Words
  import opened Allocator
  import opened Expansion
  import opened PtxMeaning
  import opened ControlPlan
  import opened IfConversion
  import opened LoweringStep
  import opened LoweringKinds
  import opened LoweringCorrect
  import opened LoweringEngine
  import opened EndToEnd
  import opened Machine
  import Lockstep
  import C = CfgBuilder
  import P = Ptx
  import A = Isa
  import R = PhysicalRun
  import S = Scheduler
  import T = ScheduleCorrect

  /** What the launch has to provide for an instruction: its parameter, its special register. */
  predicate Provided(cfg: Config, offsets: map<nat, nat>, inst: P.Inst, id: LaneId)
    requires Lowerable(offsets, inst)
  {
    && (KindOf(inst) == LdParam ==> offsets[inst.operands[1].param] + P.SizeOf(inst.op.ty) <= |cfg.pmem| < WORD)
    && (KindOf(inst) == Move && inst.operands[1].Special? ==>
          SpecialValue(inst.operands[1].selector, id).Some? && SpecialValue(inst.operands[1].selector, id).value < WORD)
  }

  /** The emitted instructions are of the subset, and the launch provides for them. */
  predicate Launchable(cfg: Config, offsets: map<nat, nat>, plan: Plan, items: seq<P.Item>, id: LaneId) {
    forall i: nat | i < |items| && Emits(plan, items, i) ::
      Lowerable(offsets, items[i].inst) && InSubset(items[i].inst) && Provided(cfg, offsets, items[i].inst, id)
  }

  datatype CompileError = BadGraph(graph: C.CfgError) | BadPredicate(item: nat) | NotLowered(reason: LowerError)

  /** What the plan builder and the lowerer together promise of a finished lowering. */
  ghost predicate Finished(l: Lowerer, states: map<nat, BranchState>, slice: Slices)
    reads l, l.regs
  {
    && l.regs.Valid() && l.regs.preMapping == map[]
    && PlanUpTo(l.items, states, slice, |l.items|) == Ok(l.plan)
    && IsLowered(l.Homes(), l.offsets, l.plan, l.items, l.instructions)
    && (AllWellWidthed(l.plan, l.items) ==> WidthsRight(l.Homes()))
  }

  /** A pair costs three registers at most: its two and one left out for its alignment. */
  function RegisterCost(rs: set<P.Reg>): nat {
    |rs| + 2 * |set r | r in rs && P.IsPair(r)|
  }

  /** Why a kernel is not compiled. */
  ghost predicate Unfit(e: CompileError, items: seq<P.Item>, offsets: map<nat, nat>, states: map<nat, BranchState>,
                        slice: Slices) {
    match e
    case BadGraph(_) => !(C.DistinctLabels(items) && C.GoodBranches(items) && C.DistinctNames(items))
    case BadPredicate(b) => PlanUpTo(items, states, slice, |items|) == Err(b)
    case NotLowered(reason) =>
      && PlanUpTo(items, states, slice, |items|).Ok?
      && var plan := PlanUpTo(items, states, slice, |items|).value;
         && Refused(reason, offsets, plan, items)
         && (reason.Exhausted? && AllWellWidthed(plan, items) ==> RegisterCost(NeededRegs(plan, items)) >= 238)
  }

  /** Construction and `lower` in one: graph, control plan, then the pass over the items. */
  method Compile(items: seq<P.Item>, offsets: map<nat, nat>, states: map<nat, BranchState>, slice: Slices)
    returns (r: Result<Lowerer, CompileError>)
    ensures r.Ok? ==> fresh(r.value) && fresh(r.value.regs) && r.value.items == items && r.value.offsets == offsets
    ensures r.Ok? ==> Finished(r.value, states, slice) && C.DistinctLabels(items) && C.GoodBranches(items)
    ensures r.Err? ==> Unfit(r.error, items, offsets, states, slice)
  {
    hide *;
    var cfg := C.BuildCfg(items);
    if cfg.Err? {
      BadGraphIs(cfg.error, items, offsets, states, slice);
      return Err(BadGraph(cfg.error));
    }
    var plan := BuildControlPlan(items, states, slice);
    if plan.Err? {
      BadPredicateIs(plan.error, items, offsets, states, slice);
      return Err(BadPredicate(plan.error));
    }
    var l := new Lowerer(items, offsets, plan.value, map[]);
    NoWidthsYet(l);
    var error := l.Lower();
    if error.Some? {
      FullMeansMany(l, error.value, NeededRegs(plan.value, items));
      NotLoweredIs(error.value, items, offsets, states, slice, plan.value);
      return Err(NotLowered(error.value));
    }
    IsFinished(l, states, slice);
    return Ok(l);
  }

  lemma BadGraphIs(e: C.CfgError, items: seq<P.Item>, offsets: map<nat, nat>, states: map<nat, BranchState>,
                   slice: Slices)
    requires !(C.DistinctLabels(items) && C.GoodBranches(items) && C.DistinctNames(items))
    ensures Unfit(BadGraph(e), items, offsets, states, slice)
  {
    hide C.DistinctLabels, C.GoodBranches, C.DistinctNames;
  }

  lemma BadPredicateIs(b: nat, items: seq<P.Item>, offsets: map<nat, nat>, states: map<nat, BranchState>, slice: Slices)
    requires PlanUpTo(items, states, slice, |items|) == Err(b)
    ensures Unfit(BadPredicate(b), items, offsets, states, slice)
  {
    hide PlanUpTo;
  }

  lemma NotLoweredIs(e: LowerError, items: seq<P.Item>, offsets: map<nat, nat>, states: map<nat, BranchState>,
                     slice: Slices, plan: Plan)
    requires PlanUpTo(items, states, slice, |items|) == Ok(plan) && Refused(e, offsets, plan, items)
    requires e.Exhausted? && AllWellWidthed(plan, items) ==> RegisterCost(NeededRegs(plan, items)) >= 238
    ensures Unfit(NotLowered(e), items, offsets, states, slice)
  {
    hide PlanUpTo, Refused, AllWellWidthed, NeededRegs, RegisterCost;
  }

  lemma SubsetSize<T>(a: set<T>, b: set<T>)
    requires a <= b
    ensures |a| <= |b|
  {
    assert b == a + (b - a);
  }

  lemma CostGrows(rs: set<P.Reg>, rs': set<P.Reg>)
    requires rs <= rs'
    ensures RegisterCost(rs) <= RegisterCost(rs')
  {
    SubsetSize(rs, rs');
    SubsetSize(set r | r in rs && P.IsPair(r), set r | r in rs' && P.IsPair(r));
  }

  lemma CostOfWidths(mapping: map<P.Reg, nat>, width: map<P.Reg, nat>)
    requires width.Keys == mapping.Keys && WidthsRight(R.HomesOf(mapping, width))
    ensures Cost(width) == RegisterCost(mapping.Keys)
  {
    forall r | r in mapping ensures width[r] == 2 <==> P.IsPair(r) {
      assert R.HomesOf(mapping, width)[r].width == width[r];
    }
    assert Doubled(width) == set r | r in mapping.Keys && P.IsPair(r);
  }

  /** Started empty, the allocator fails only on a kernel that needs nearly all registers. */
  lemma FullMeansMany(l: Lowerer, e: LowerError, needed: set<P.Reg>)
    requires l.regs.Valid() && l.regs.preMapping == map[] && Grown(map[], l.Homes(), needed)
    ensures e.Exhausted? && l.Full(e) && WidthsRight(l.Homes()) ==> RegisterCost(needed) >= 238
  {
    l.regs.Parts();
    var homes := l.Homes();
    assert homes.Keys == l.regs.mapping.Keys;
    assert homes.Keys <= needed;
    hide Separate, Economical, NoRoom, Cost, RegisterCost, R.HomesOf, WidthsRight, Grown;
    if e.Exhausted? && l.Full(e) && WidthsRight(homes) {
      if NoRoom(l.regs.next, l.regs.reserved, 1) {
        NoRoomMeansMany(l.regs.next, l.regs.width, l.regs.reserved, 1);
      } else {
        NoRoomMeansMany(l.regs.next, l.regs.width, l.regs.reserved, 2);
      }
      CostOfWidths(l.regs.mapping, l.regs.width);
      CostGrows(l.regs.mapping.Keys, needed);
    }
  }

  lemma NoWidthsYet(l: Lowerer)
    requires l.regs.Valid() && l.regs.mapping == map[]
    ensures WidthsRight(l.Homes()) && l.Homes() == map[]
  {
  }

  lemma IsFinished(l: Lowerer, states: map<nat, BranchState>, slice: Slices)
    requires l.regs.Valid() && l.regs.preMapping == map[]
    requires PlanUpTo(l.items, states, slice, |l.items|) == Ok(l.plan)
    requires IsLowered(l.Homes(), l.offsets, l.plan, l.items, l.instructions)
    requires AllWellWidthed(l.plan, l.items) ==> WidthsRight(l.Homes())
    ensures Finished(l, states, slice)
  {
  }

  /** Instructions of the subset use registers of the right class everywhere. */
  lemma SubsetIsWellWidthed(offsets: map<nat, nat>, inst: P.Inst)
    requires Lowerable(offsets, inst) && InSubset(inst)
    ensures WellWidthed(inst)
  {
    forall k: nat, r | k < |inst.operands| && r in P.OperandRegs(inst.operands[k]) && NeedsHome(inst.op.base, k)
      ensures FlagRight(r, LookedUpAsPair(inst, k))
    {
      assert k in {0, 1, 2, 3};
    }
  }

  /** A finished lowering of a program whose regions are clean and hold no loops. */
  ghost predicate Compiled(cfg: Config, l: Lowerer, states: map<nat, BranchState>, slice: Slices)
    reads l, l.regs
  {
    Finished(l, states, slice) && OpsTotal(cfg.ops) && NoInnerLoops(l.items, slice) && CleanRegions(l.plan, l.items)
  }

  /** Started empty, the lowerer's allocator shares nothing between registers, and pairs are even. */
  lemma HomesAreGood(l: Lowerer)
    requires l.regs.Valid() && l.regs.preMapping == map[] && WidthsRight(l.Homes())
    ensures GoodHomes(l.Homes()) && R.Unshared(l.Homes())
  {
    hide Span;
  }

  /** Everything read or written has a home. */
  lemma HomesCover(cfg: Config, offsets: map<nat, nat>, homes: R.Homes, plan: Plan, items: seq<P.Item>, id: LaneId)
    requires Plannable(homes, offsets, plan, items) && Legal(plan, items) && Launchable(cfg, offsets, plan, items, id)
    ensures R.Covers(items, homes)
  {
    hide Legal, Plannable, Lowerable, InSubset, Provided, Needs, P.ReadRegisters, P.Written;
    forall i | 0 <= i < |items| && items[i].Code?
      ensures forall r | r in P.ReadRegisters(items[i].inst) && !P.IsPredicate(r) :: r in homes
      ensures P.Written(items[i].inst).Some? && !P.IsPredicate(P.Written(items[i].inst).value)
              ==> P.Written(items[i].inst).value in homes
    {
      if Emits(plan, items, i) {
        EmittedFits(homes, offsets, plan, items, i);
        InstCovered(homes, offsets, items[i].inst);
      } else {
        SkippedCovered(plan, items, i);
      }
    }
  }

  lemma EmittedFits(homes: R.Homes, offsets: map<nat, nat>, plan: Plan, items: seq<P.Item>, i: nat)
    requires Plannable(homes, offsets, plan, items) && i < |items| && Emits(plan, items, i)
    ensures Lowerable(offsets, items[i].inst) && Needs(items[i].inst) <= homes.Keys
  {
    assert FitsAt(homes, offsets, items[i].inst);
  }

  lemma InstCovered(homes: R.Homes, offsets: map<nat, nat>, inst: P.Inst)
    requires Lowerable(offsets, inst) && InSubset(inst) && Needs(inst) <= homes.Keys
    ensures forall r | r in P.ReadRegisters(inst) && !P.IsPredicate(r) :: r in homes
    ensures P.Written(inst).Some? && !P.IsPredicate(P.Written(inst).value) ==> P.Written(inst).value in homes
  {
    forall r | r in P.ReadRegisters(inst) && !P.IsPredicate(r) ensures r in homes {
      if inst.guard != Some(r) {
        var k: nat :| k < |inst.operands| && P.FirstSource(inst) <= k && r in P.OperandRegs(inst.operands[k]);
        assert KindOf(inst) == Return ==> inst.operands == [];
        assert KindOf(inst) == SetPredicate && k == 0 ==> P.IsPredicate(r);
        assert r in Needs(inst);
      }
    }
    if P.Written(inst).Some? && !P.IsPredicate(P.Written(inst).value) {
      assert P.Written(inst).value in P.OperandRegs(inst.operands[0]);
      assert P.Written(inst).value in Needs(inst);
    }
  }

  /** A converted branch mentions its predicate only. */
  lemma SkippedCovered(plan: Plan, items: seq<P.Item>, i: nat)
    requires Legal(plan, items) && i < |items| && items[i].Code? && i in plan.skip
    ensures forall r | r in P.ReadRegisters(items[i].inst) :: P.IsPredicate(r)
    ensures P.Written(items[i].inst).None?
  {
    assert Converted(plan, items, i);
  }

  lemma CompiledReady(cfg: Config, l: Lowerer, states: map<nat, BranchState>, slice: Slices, id: LaneId)
    requires Compiled(cfg, l, states, slice) && Launchable(cfg, l.offsets, l.plan, l.items, id)
    ensures l.regs.Valid() && LoweringReady(cfg, l.offsets, l.Homes(), l.plan, l.items, id)
    ensures R.Unshared(l.Homes()) && R.Covers(l.items, l.Homes())
    ensures l.instructions == Program(l.Homes(), l.offsets, l.plan, l.items)
  {
    hide R.Unshared, R.Covers, CleanRegions, Legal, R.HomesOf, Planned, PlanUpTo, GoodHomes, Lowerable, InSubset, Needs,
         OpsTotal, WellWidthed, WidthsRight;
    forall i: nat | i < |l.items| && Emits(l.plan, l.items, i) ensures WellWidthed(l.items[i].inst) {
      SubsetIsWellWidthed(l.offsets, l.items[i].inst);
    }
    PlansAreLegal(l.items, states, slice, |l.items|);
    HomesAreGood(l);
    HomesCover(cfg, l.offsets, l.Homes(), l.plan, l.items, id);
    forall i: nat | i < |l.items| && Emits(l.plan, l.items, i)
      ensures Ready(cfg, l.offsets, l.Homes(), l.items[i].inst, id) {
      EmittedFits(l.Homes(), l.offsets, l.plan, l.items, i);
    }
  }

  /** One thread: its PTX run and the run of its lane over the compiled code end alike. */
  lemma CompiledThread(cfg: Config, l: Lowerer, states: map<nat, BranchState>, slice: Slices, id: LaneId,
                       gmem: seq<Byte>, fuel: nat)
    returns (fuel': nat)
    requires Compiled(cfg, l, states, slice) && Launchable(cfg, l.offsets, l.plan, l.items, id)
    requires OperationsFit(ThreadHost(cfg, l.offsets, id), l.items, l.Homes(), 0, Blank(gmem), fuel)
    ensures SameEnd(P.Run(ThreadHost(cfg, l.offsets, id), l.items, 0, P.State(map[], gmem), fuel),
                    Run(cfg, l.instructions, 0, One(FreshLane(id), gmem), fuel'))
  {
    hide *;
    CompiledReady(cfg, l, states, slice, id);
    fuel' := LoweredThread(cfg, l.offsets, l.Homes(), l.plan, l.items, id, gmem, fuel);
  }

  // ----- a warp -----

  /**
   * The threads run in PTX one after the other, each on the memory its predecessors left; `None` if one does not halt.
   */
  function ThreadsSerially(cfg: Config, offsets: map<nat, nat>, items: seq<P.Item>, ids: seq<LaneId>, gmem: seq<Byte>,
                           fuel: nat)
    : Option<seq<Byte>>
    decreases |ids|
  {
    if ids == [] then Some(gmem)
    else match P.Run(ThreadHost(cfg, offsets, ids[0]), items, 0, P.State(map[], gmem), fuel)
         case Halted(s) => ThreadsSerially(cfg, offsets, items, ids[1..], s.gmem, fuel)
         case _ => None
  }

  /** On no thread does the machine compute another value than PTX, however far it runs. */
  ghost predicate ThreadsFit(cfg: Config, offsets: map<nat, nat>, items: seq<P.Item>, homes: R.Homes,
                             ids: seq<LaneId>, gmem: seq<Byte>)
    decreases |ids|
  {
    ids == [] ||
    (&& OperationsAlwaysFit(ThreadHost(cfg, offsets, ids[0]), items, homes, 0, Blank(gmem))
     && forall fuel: nat ::
          match P.Run(ThreadHost(cfg, offsets, ids[0]), items, 0, P.State(map[], gmem), fuel)
          case Halted(s) => ThreadsFit(cfg, offsets, items, homes, ids[1..], s.gmem)
          case _ => true)
  }

  lemma {:induction false} ThreadMoreFuel(host: P.Host, items: seq<P.Item>, pc: nat, s: P.State, fuel: nat, more: nat)
    requires P.Run(host, items, pc, s, fuel).Halted? && fuel <= more
    ensures P.Run(host, items, pc, s, more) == P.Run(host, items, pc, s, fuel)
    decreases fuel
  {
    hide P.Step;
    if P.Step(host, items, pc, s).Next? {
      ThreadMoreFuel(host, items, P.Step(host, items, pc, s).pc, P.Step(host, items, pc, s).state, fuel - 1, more - 1);
    }
  }

  lemma {:induction false} SeriallyMoreFuel(cfg: Config, offsets: map<nat, nat>, items: seq<P.Item>, ids: seq<LaneId>,
                                            gmem: seq<Byte>, fuel: nat, more: nat)
    requires ThreadsSerially(cfg, offsets, items, ids, gmem, fuel).Some? && fuel <= more
    ensures ThreadsSerially(cfg, offsets, items, ids, gmem, more)
            == ThreadsSerially(cfg, offsets, items, ids, gmem, fuel)
    decreases |ids|
  {
    hide P.Run;
    if ids != [] {
      var host := ThreadHost(cfg, offsets, ids[0]);
      ThreadMoreFuel(host, items, 0, P.State(map[], gmem), fuel, more);
      SeriallyMoreFuel(cfg, offsets, items, ids[1..], P.Run(host, items, 0, P.State(map[], gmem), fuel).state.gmem,
                       fuel, more);
    }
  }

  /** A thread that halts, then threads that halt one after the other. */
  lemma ThenSerially(cfg: Config, offsets: map<nat, nat>, items: seq<P.Item>, ids: seq<LaneId>, gmem: seq<Byte>,
                     first: nat, rest: nat)
    returns (fuel: nat)
    requires ids != [] && P.Run(ThreadHost(cfg, offsets, ids[0]), items, 0, P.State(map[], gmem), first).Halted?
    requires ThreadsSerially(cfg, offsets, items, ids[1..],
                             P.Run(ThreadHost(cfg, offsets, ids[0]), items, 0, P.State(map[], gmem), first).state.gmem,
                                 rest).Some?
    ensures ThreadsSerially(cfg, offsets, items, ids, gmem, fuel) ==
            ThreadsSerially(cfg, offsets, items, ids[1..],
                            P.Run(ThreadHost(cfg, offsets, ids[0]), items, 0, P.State(map[], gmem), first).state.gmem,
                                rest)
  {
    hide P.Run;
    fuel := if first <= rest then rest else first;
    var host := ThreadHost(cfg, offsets, ids[0]);
    ThreadMoreFuel(host, items, 0, P.State(map[], gmem), first, fuel);
    SeriallyMoreFuel(cfg, offsets, items, ids[1..], P.Run(host, items, 0, P.State(map[], gmem), first).state.gmem, rest,
                     fuel);
  }

  predicate Increasing(order: seq<nat>, from: nat, n: nat) {
    from <= n && |order| == n - from && forall k | 0 <= k < |order| :: order[k] == from + k
  }

  /** One lane that halts on compiled code. */
  lemma CompiledLaneHalts(cfg: Config, l: Lowerer, states: map<nat, BranchState>, slice: Slices, id: LaneId,
                          gmem: seq<Byte>, n: nat)
    returns (fuel: nat)
    requires Compiled(cfg, l, states, slice) && Launchable(cfg, l.offsets, l.plan, l.items, id)
    requires OperationsAlwaysFit(ThreadHost(cfg, l.offsets, id), l.items, l.Homes(), 0, Blank(gmem))
    requires Run(cfg, l.instructions, 0, One(FreshLane(id), gmem), n).Halted?
    ensures var r := P.Run(ThreadHost(cfg, l.offsets, id), l.items, 0, P.State(map[], gmem), fuel);
            r.Halted? && r.state.gmem == Run(cfg, l.instructions, 0, One(FreshLane(id), gmem), n).warp.gmem
  {
    hide *;
    CompiledReady(cfg, l, states, slice, id);
    fuel := LaneHalts(cfg, l.offsets, l.Homes(), l.plan, l.items, id, gmem, n);
  }

  /** Lanes run one after the other on compiled code leave the memory of the threads run one after the other. */
  lemma {:induction false} SerialLanesAreThreads(cfg: Config, l: Lowerer, states: map<nat, BranchState>, slice: Slices,
                                                 ids: seq<LaneId>, from: nat, order: seq<nat>, lanes: seq<Lane>,
                                                     gmem: seq<Byte>, steps: nat)
    returns (fuel: nat)
    requires Compiled(cfg, l, states, slice) && |lanes| == |ids| && Increasing(order, from, |ids|)
    requires forall k | from <= k < |ids| ::
               lanes[k] == FreshLane(ids[k]) && Launchable(cfg, l.offsets, l.plan, l.items, ids[k])
    requires ThreadsFit(cfg, l.offsets, l.items, l.Homes(), ids[from..], gmem)
    requires Lockstep.RunSerially(cfg, l.instructions, lanes, gmem, order, steps).Serial?
    ensures ThreadsSerially(cfg, l.offsets, l.items, ids[from..], gmem, fuel)
         == Some(Lockstep.RunSerially(cfg, l.instructions, lanes, gmem, order, steps).gmem)
    decreases |order|
  {
    hide Compiled, Launchable, OperationsAlwaysFit, Run, P.Run, FreshLane, IsLowered;
    fuel := 0;
    if order != [] {
      var id := ids[from];
      assert ids[from..][0] == id && ids[from..][1..] == ids[from + 1..] && order[0] == from;
      assert [lanes[from]] == [FreshLane(id)];
      var first := CompiledLaneHalts(cfg, l, states, slice, id, gmem, steps);
      var w := Run(cfg, l.instructions, 0, One(FreshLane(id), gmem), steps).warp;
      var rest := SerialLanesAreThreads(cfg, l, states, slice, ids, from + 1, order[1..], lanes[from := w.lanes[0]],
                                        w.gmem, steps);
      fuel := ThenSerially(cfg, l.offsets, l.items, ids[from..], gmem, first, rest);
    }
  }

  /**
   * A warp that halts in lockstep over compiled code leaves the memory its PTX threads leave, which all halt one after
   * the other.
   */
  lemma CompiledWarp(cfg: Config, l: Lowerer, states: map<nat, BranchState>, slice: Slices, ids: seq<LaneId>, w: Warp,
                     steps: nat)
    returns (fuel: nat)
    requires Compiled(cfg, l, states, slice)
    requires |w.lanes| == |ids| && forall k | 0 <= k < |ids| :: w.lanes[k] == FreshLane(ids[k])
    requires forall k | 0 <= k < |ids| :: Launchable(cfg, l.offsets, l.plan, l.items, ids[k])
    requires Run(cfg, l.instructions, 0, w, steps).Halted? && Lockstep.NonInterfering(cfg, l.instructions, w, steps)
    requires ThreadsFit(cfg, l.offsets, l.items, l.Homes(), ids, w.gmem)
    ensures ThreadsSerially(cfg, l.offsets, l.items, ids, w.gmem, fuel)
         == Some(Run(cfg, l.instructions, 0, w, steps).warp.gmem)
  {
    hide *;
    var order := InOrder(|ids|);
    Lockstep.LockstepIsSerial(cfg, l.instructions, w, steps, order);
    assert ids[0..] == ids;
    fuel := SerialLanesAreThreads(cfg, l, states, slice, ids, 0, order, w.lanes, w.gmem, steps);
  }

  /** The same of the scheduled code: scheduling does not show in a warp that halts. */
  lemma ScheduledWarp(cfg: Config, l: Lowerer, scheduled: seq<A.Inst>, states: map<nat, BranchState>, slice: Slices,
                      ids: seq<LaneId>, w: Warp, steps: nat) returns (fuel: nat)
    requires Compiled(cfg, l, states, slice)
    requires S.Rescheduled(l.instructions, scheduled) && T.SchedulableProgram(l.instructions)
    requires |w.lanes| == |ids| && forall k | 0 <= k < |ids| :: w.lanes[k] == FreshLane(ids[k])
    requires forall k | 0 <= k < |ids| :: Launchable(cfg, l.offsets, l.plan, l.items, ids[k])
    requires Run(cfg, scheduled, 0, w, steps).Halted? && Lockstep.NonInterfering(cfg, l.instructions, w, steps)
    requires ThreadsFit(cfg, l.offsets, l.items, l.Homes(), ids, w.gmem)
    ensures ThreadsSerially(cfg, l.offsets, l.items, ids, w.gmem, fuel)
            == Some(Run(cfg, scheduled, 0, w, steps).warp.gmem)
  {
    hide *;
    T.ScheduleRefines(cfg, l.instructions, scheduled, w, steps);
    fuel := CompiledWarp(cfg, l, states, slice, ids, w, steps);
  }

  lemma InOrder(n: nat) returns (order: seq<nat>)
    ensures Increasing(order, 0, n) && |order| == n && forall k | 0 <= k < n :: order[k] == k
    ensures forall k: nat | k < n :: k in order
  {
    order := seq(n, k requires 0 <= k < n => k);
    forall k: nat | k < n ensures k in order {
      assert order[k] == k;
    }
  }
}
