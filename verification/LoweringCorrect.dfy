/** The lowered program simulates the PTX thread, from label to label, expansion by expansion. */
module LoweringCorrect {
  import opened Wrappers
  import opened Words
  import opened Allocator
  import opened Expansion
  import opened PtxMeaning
  import opened LoweringStep
  import opened LoweringKinds
  import opened LoweringAccess
  import opened ControlPlan
  import opened IfConversion
  import opened Masking
  import opened Reorder
  import opened Machine
  import S = ScheduleCorrect
  import P = Ptx
  import A = Isa
  import R = PhysicalRun

  // ----- the lowered program -----

  /** Every emitted instruction can be lowered over these homes, and branches to labels that exist. */
  predicate Plannable(homes: R.Homes, offsets: map<nat, nat>, plan: Plan, items: seq<P.Item>) {
    Fitting(homes, offsets, plan, items, |items|) && TargetsExist(plan, items, |items|)
  }

  function Program(homes: R.Homes, offsets: map<nat, nat>, plan: Plan, items: seq<P.Item>): seq<A.Inst>
    requires Plannable(homes, offsets, plan, items)
  {
    Planned(homes, offsets, plan, items, |items|)
  }

  /** How many instructions precede item `n`: the value of a label there. */
  function Position(homes: R.Homes, offsets: map<nat, nat>, plan: Plan, items: seq<P.Item>, n: nat): nat
    requires Plannable(homes, offsets, plan, items) && n <= |items|
  {
    FittingLess(homes, offsets, plan, items, n, |items|);
    At(homes, offsets, plan, items, n)
  }

  /** The instructions of one item. */
  function ItemCode(homes: R.Homes, offsets: map<nat, nat>, plan: Plan, items: seq<P.Item>, i: nat): seq<A.Inst>
    requires Plannable(homes, offsets, plan, items) && i < |items|
  {
    ItemPlanned(homes, offsets, plan, items, i)
  }

  lemma PositionNext(homes: R.Homes, offsets: map<nat, nat>, plan: Plan, items: seq<P.Item>, i: nat)
    requires Plannable(homes, offsets, plan, items) && i < |items|
    ensures Position(homes, offsets, plan, items, i + 1)
         == Position(homes, offsets, plan, items, i) + |ItemCode(homes, offsets, plan, items, i)|
  {
    hide Fitting, FitsAt, Emits, EmitsBranch, ItemUnpatched, TargetsExist, Unpatched;
    FittingLess(homes, offsets, plan, items, i + 1, |items|);
    UnpatchedNext(homes, offsets, plan, items, i);
    if EmitsBranch(plan, items, i) {
      BranchFits(homes, offsets, plan, items, i);
      BranchIsOne(homes, offsets, plan, items, i);
    }
  }

  lemma BranchFits(homes: R.Homes, offsets: map<nat, nat>, plan: Plan, items: seq<P.Item>, i: nat)
    requires Plannable(homes, offsets, plan, items) && i < |items| && EmitsBranch(plan, items, i)
    ensures FitsAt(homes, offsets, items[i].inst) && TargetExists(items, items[i].inst)
  {
  }

  lemma {:induction false} PlannedLength(homes: R.Homes, offsets: map<nat, nat>, plan: Plan, items: seq<P.Item>, n: nat)
    requires Plannable(homes, offsets, plan, items) && n <= |items|
    ensures TargetsExist(plan, items, n)
    ensures |Planned(homes, offsets, plan, items, n)| == Position(homes, offsets, plan, items, n)
    decreases n
  {
    hide Fitting, ItemPlanned;
    if n > 0 {
      PlannedLength(homes, offsets, plan, items, n - 1);
      PositionNext(homes, offsets, plan, items, n - 1);
    }
  }

  lemma {:induction false} PlannedPrefix(homes: R.Homes, offsets: map<nat, nat>, plan: Plan, items: seq<P.Item>, i: nat,
                                         n: nat)
    requires Plannable(homes, offsets, plan, items) && i <= n <= |items|
    ensures TargetsExist(plan, items, i) && TargetsExist(plan, items, n)
    ensures Planned(homes, offsets, plan, items, i) <= Planned(homes, offsets, plan, items, n)
    decreases n
  {
    hide Fitting, ItemPlanned;
    if i < n {
      PlannedPrefix(homes, offsets, plan, items, i, n - 1);
    }
  }

  lemma PlannedLast(homes: R.Homes, offsets: map<nat, nat>, plan: Plan, items: seq<P.Item>, i: nat)
    requires Plannable(homes, offsets, plan, items) && i < |items|
    ensures TargetsExist(plan, items, i) && TargetsExist(plan, items, i + 1)
    ensures Planned(homes, offsets, plan, items, i + 1)
         == Planned(homes, offsets, plan, items, i) + ItemCode(homes, offsets, plan, items, i)
  {
    hide ItemPlanned;
  }

  /** The code of item `i` lies between its position and the next. */
  lemma CodeAtItem(homes: R.Homes, offsets: map<nat, nat>, plan: Plan, items: seq<P.Item>, i: nat)
    requires Plannable(homes, offsets, plan, items) && i < |items|
    ensures var code := Program(homes, offsets, plan, items);
            var s, t := Position(homes, offsets, plan, items, i), Position(homes, offsets, plan, items, i + 1);
            s <= t <= |code| && code[s..t] == ItemCode(homes, offsets, plan, items, i)
  {
    hide ItemCode, Fitting, TargetsExist, Planned, Plannable, Position;
    PlannableTargets(homes, offsets, plan, items);
    PlannedLast(homes, offsets, plan, items, i);
    PlannedLength(homes, offsets, plan, items, i);
    PlannedLength(homes, offsets, plan, items, i + 1);
    PlannedPrefix(homes, offsets, plan, items, i + 1, |items|);
    var code, upTo, s := Program(homes, offsets, plan, items), Planned(homes, offsets, plan, items, i + 1),
                         Position(homes, offsets, plan, items, i);
    assert code[..|upTo|] == upTo;
    assert code[s..|upTo|] == upTo[s..];
  }

  lemma PlannableTargets(homes: R.Homes, offsets: map<nat, nat>, plan: Plan, items: seq<P.Item>)
    requires Plannable(homes, offsets, plan, items)
    ensures Fitting(homes, offsets, plan, items, |items|) && TargetsExist(plan, items, |items|)
  {
  }

  /** The code of a longer stretch of items is that of a shorter one and of the item behind it. */
  lemma CodeExtends(homes: R.Homes, offsets: map<nat, nat>, plan: Plan, items: seq<P.Item>, i: nat, m: nat)
    requires Plannable(homes, offsets, plan, items) && i <= m < |items|
    ensures var code := Program(homes, offsets, plan, items);
            var s, t := Position(homes, offsets, plan, items, i), Position(homes, offsets, plan, items, m);
            var u := Position(homes, offsets, plan, items, m + 1);
            s <= t <= u <= |code| && code[s..u] == code[s..t] + ItemCode(homes, offsets, plan, items, m)
  {
    hide ItemCode, Plannable, Position, Program;
    CodeAtItem(homes, offsets, plan, items, m);
    PositionGrows(homes, offsets, plan, items, i, m);
    var code := Program(homes, offsets, plan, items);
    var s, t := Position(homes, offsets, plan, items, i), Position(homes, offsets, plan, items, m);
    var u := Position(homes, offsets, plan, items, m + 1);
    assert code[s..u] == code[s..t] + code[t..u];
  }

  lemma {:induction false} PositionGrows(homes: R.Homes, offsets: map<nat, nat>, plan: Plan, items: seq<P.Item>, i: nat,
                                         m: nat)
    requires Plannable(homes, offsets, plan, items) && i <= m <= |items|
    ensures Position(homes, offsets, plan, items, i) <= Position(homes, offsets, plan, items, m)
    decreases m
  {
    hide Position, Plannable;
    if i < m {
      PositionGrows(homes, offsets, plan, items, i, m - 1);
      PositionNext(homes, offsets, plan, items, m - 1);
    }
  }

  // ----- regions behind converted branches -----

  /** An instruction that its region's guard masks exactly. */
  predicate Unconditional(inst: P.Inst, id: nat) {
    && inst.guard.None? && KindOf(inst) != Branch && KindOf(inst) != Return
    && (KindOf(inst) == SetPredicate ==>
        inst.operands != [] && inst.operands[0].RegOp? && inst.operands[0].reg.id != id)
  }

  predicate UnconditionalAt(plan: Plan, items: seq<P.Item>, i: nat)
    requires i in plan.guards
  {
    i < |items| && items[i].Code? ==> Unconditional(items[i].inst, plan.guards[i].id)
  }

  /** Item `k` branches to a label inside the region of `b`. */
  predicate EntersRegion(items: seq<P.Item>, k: nat, b: nat) {
    && k < |items| && b < |items| && ExitOf(items, b).Some?
    && items[k].Code? && items[k].inst.op.base == P.Bra && |items[k].inst.operands| == 1
        && items[k].inst.operands[0].Target?
    && var j := P.FindLabel(items, items[k].inst.operands[0].name, 0);
       j.Some? && b < j.value < ExitOf(items, b).value
  }

  /** Regions hold plain instructions only, none comparing into the guard, and are entered at their head only. */
  ghost predicate CleanRegions(plan: Plan, items: seq<P.Item>) {
    && (forall i | i in plan.guards :: UnconditionalAt(plan, items, i))
    && (forall k: nat, b | b in plan.skip :: !EntersRegion(items, k, b))
  }

  /** Position `pc` is between branch `b` and its target. */
  predicate Inside(items: seq<P.Item>, b: nat, pc: nat) {
    b < pc && b < |items| && ExitOf(items, b).Some? && pc < ExitOf(items, b).value
  }

  /** The lane did not take the branch in front of the region it is in. */
  ghost predicate Entered(plan: Plan, items: seq<P.Item>, pc: nat, lane: Lane) {
    forall b | b in plan.skip && Inside(items, b, pc) ::
      items[b].Code? && !GuardOn(items[b].inst, lane)
  }

  /** Everything the simulation asks of the program and its plan, apart from operations that do not fit. */
  ghost predicate LoweringReady(cfg: Config, offsets: map<nat, nat>, homes: R.Homes, plan: Plan, items: seq<P.Item>,
                                id: LaneId) {
    && Plannable(homes, offsets, plan, items) && Legal(plan, items) && CleanRegions(plan, items)
    && forall i: nat | i < |items| && Emits(plan, items, i) :: Ready(cfg, offsets, homes, items[i].inst, id)
  }

  /** The guard of a region is on exactly in the lanes that do not take its branch. */
  lemma GuardMeansNotTaken(plan: Plan, items: seq<P.Item>, b: nat, i: nat, lane: Lane)
    requires Legal(plan, items) && GuardedBy(plan, items, i, b)
    ensures i in plan.guards && plan.guards[i].id < 8 && i !in plan.skip
    ensures items[b].Code? && (On(plan.guards[i], lane) <==> !GuardOn(items[b].inst, lane))
  {
    assert Converted(plan, items, b);
    if i in plan.skip {
      SkippedOutside(plan, items, b, i);
    }
  }

  /** An item with a guard lies in a region; so the guard is on in a lane that has entered. */
  lemma EnteredOn(plan: Plan, items: seq<P.Item>, pc: nat, lane: Lane) returns (b: nat)
    requires Legal(plan, items) && Entered(plan, items, pc, lane) && pc in plan.guards
    ensures GuardedBy(plan, items, pc, b) && plan.guards[pc].id < 8 && On(plan.guards[pc], lane) && pc !in plan.skip
  {
    b :| GuardedBy(plan, items, pc, b);
    GuardMeansNotTaken(plan, items, b, pc, lane);
  }

  /** Behind an instruction the lane is in the same region, or in none. */
  lemma EnteredNext(plan: Plan, items: seq<P.Item>, pc: nat, lane: Lane)
    requires Legal(plan, items) && pc < |items| && items[pc].Code? && pc !in plan.skip
    requires pc in plan.guards && plan.guards[pc].id < 8 ==> On(plan.guards[pc], lane)
    ensures Entered(plan, items, pc + 1, lane)
  {
    hide Legal, GuardOn, On;
    forall b | b in plan.skip && Inside(items, b, pc + 1) ensures items[b].Code? && !GuardOn(items[b].inst, lane) {
      assert InRegion(items, b, pc) && GuardedBy(plan, items, pc, b);
      GuardMeansNotTaken(plan, items, b, pc, lane);
    }
  }

  lemma EnteredLabel(plan: Plan, items: seq<P.Item>, pc: nat, lane: Lane)
    requires Legal(plan, items) && Entered(plan, items, pc, lane) && pc < |items| && items[pc].Label?
    ensures Entered(plan, items, pc + 1, lane)
  {
    forall b | b in plan.skip && Inside(items, b, pc + 1)
      ensures items[b].Code? && !GuardOn(items[b].inst, lane)
    {
      assert Converted(plan, items, b);
    }
  }

  /** A branch leads into no region, converted or not. */
  lemma EnteredByBranch(plan: Plan, items: seq<P.Item>, k: nat, lane: Lane)
    requires CleanRegions(plan, items) && k < |items| && items[k].Code? && items[k].inst.op.base == P.Bra
    requires |items[k].inst.operands| == 1 && items[k].inst.operands[0].Target?
    requires P.FindLabel(items, items[k].inst.operands[0].name, 0).Some?
    ensures Entered(plan, items, P.FindLabel(items, items[k].inst.operands[0].name, 0).value, lane)
  {
    var j := P.FindLabel(items, items[k].inst.operands[0].name, 0).value;
    forall b | b in plan.skip ensures !Inside(items, b, j) {
      assert !EntersRegion(items, k, b);
    }
  }

  /** Past a converted branch that is not taken the lane has entered its region. */
  lemma EnteredFallThrough(plan: Plan, items: seq<P.Item>, pc: nat, lane: Lane)
    requires Legal(plan, items) && pc in plan.skip && pc < |items| && items[pc].Code? && !GuardOn(items[pc].inst, lane)
    ensures Entered(plan, items, pc + 1, lane)
  {
    forall b | b in plan.skip && Inside(items, b, pc + 1)
      ensures items[b].Code? && !GuardOn(items[b].inst, lane)
    {
      SkippedOutside(plan, items, b, pc);
    }
  }

  // ----- expansions under a guard -----

  lemma {:induction false} PreloadMaskable(sources: seq<P.Operand>, temp: nat, id: nat)
    requires forall k | 0 <= k < |sources| :: IsSource(sources[k])
    ensures Maskable(Preload(sources, temp), id)
    decreases |sources|
  {
    if sources != [] {
      assert IsSource(sources[0]);
      if sources[0].RegOp? {
        PreloadMaskable(sources[1..], temp, id);
      } else {
        PreloadMaskable(sources[1..], temp + 1, id);
        assert MaskableAt(LoadImmediate(temp, ParseImmediate(sources[0]).value), id);
      }
    }
  }

  lemma MaskableBoth(a: seq<A.Inst>, b: seq<A.Inst>, id: nat)
    requires Maskable(a, id) && Maskable(b, id)
    ensures Maskable(a + b, id)
  {
    forall k | 0 <= k < |a + b| ensures MaskableAt((a + b)[k], id) {
      assert k < |a| ==> (a + b)[k] == a[k];
      assert k >= |a| ==> (a + b)[k] == b[k - |a|];
    }
  }

  lemma MainMaskable(offsets: map<nat, nat>, inst: P.Inst, dest: nat, rs: seq<nat>, id: nat)
    requires Lowerable(offsets, inst) && FromSources(KindOf(inst)) && |rs| == (if KindOf(inst) == Fused then 3 else 2)
    requires Unconditional(inst, id) && (KindOf(inst) == SetPredicate ==> dest != id)
    ensures Maskable(MainCode(inst, dest, rs), id)
  {
  }

  lemma ExpansionMaskable(homes: R.Homes, offsets: map<nat, nat>, inst: P.Inst, id: nat)
    requires Lowerable(offsets, inst) && Needs(inst) <= homes.Keys && Unconditional(inst, id)
    ensures Maskable(Expand(homes, offsets, inst), id)
  {
    hide SourceRegs, Preload, Mentioned, Needs;
    if FromSources(KindOf(inst)) {
      hide Expand, MainCode, Maskable;
      ExpandSources(homes, offsets, inst);
      var os, rs := inst.operands, SourceRegs(homes, inst.operands[1..], FIRST_TEMP);
      PreloadMaskable(os[1..], FIRST_TEMP, id);
      var dest := if KindOf(inst) == SetPredicate then os[0].reg.id else homes[os[0].reg].base;
      MainMaskable(offsets, inst, dest, rs, id);
      MaskableBoth(Preload(os[1..], FIRST_TEMP), MainCode(inst, dest, rs), id);
    } else {
      SourcesHomed(homes, inst);
    }
  }

  /** A lane that took the converted branch passes over the whole region. */
  lemma {:induction false} RegionMaskedOff(cfg: Config, offsets: map<nat, nat>, homes: R.Homes, plan: Plan,
                                           items: seq<P.Item>, b: nat, m: nat, lane: Lane, gmem: seq<Byte>)
    requires Plannable(homes, offsets, plan, items) && Legal(plan, items) && CleanRegions(plan, items)
    requires b in plan.skip && b < |items| && ExitOf(items, b).Some? && b < m <= ExitOf(items, b).value
    requires items[b].Code? && GuardOn(items[b].inst, lane)
    ensures var code := Program(homes, offsets, plan, items);
            var s, t := Position(homes, offsets, plan, items, b), Position(homes, offsets, plan, items, m);
            && s <= t <= |code| && S.NoBranch(code[s..t])
            && ExecSeq(cfg, code[s..t], One(lane, gmem)) == Running(One(lane, gmem))
    decreases m
  {
    hide Program, Position, ItemCode, ExecSeq, Plannable, Legal, CleanRegions, GuardOn;
    var code, s := Program(homes, offsets, plan, items), Position(homes, offsets, plan, items, b);
    var t := Position(homes, offsets, plan, items, m);
    if m == b + 1 {
      SkippedCode(homes, offsets, plan, items, b);
      PositionNext(homes, offsets, plan, items, b);
      CodeAtItem(homes, offsets, plan, items, b);
      assert code[s..t] == [];
      ExecNothing(cfg, One(lane, gmem));
    } else {
      RegionMaskedOff(cfg, offsets, homes, plan, items, b, m - 1, lane, gmem);
      CodeExtends(homes, offsets, plan, items, b, m - 1);
      ItemMaskedOff(cfg, offsets, homes, plan, items, b, m - 1, lane, gmem);
      var u := Position(homes, offsets, plan, items, m - 1);
      ExecAppend(cfg, code[s..u], ItemCode(homes, offsets, plan, items, m - 1), One(lane, gmem));
    }
  }

  lemma SkippedCode(homes: R.Homes, offsets: map<nat, nat>, plan: Plan, items: seq<P.Item>, i: nat)
    requires Plannable(homes, offsets, plan, items) && i < |items| && (i in plan.skip || items[i].Label?)
    ensures ItemCode(homes, offsets, plan, items, i) == []
  {
  }

  lemma ItemMaskedOff(cfg: Config, offsets: map<nat, nat>, homes: R.Homes, plan: Plan, items: seq<P.Item>, b: nat,
                      i: nat, lane: Lane, gmem: seq<Byte>)
    requires Plannable(homes, offsets, plan, items) && Legal(plan, items) && CleanRegions(plan, items)
    requires b in plan.skip && b < |items| && ExitOf(items, b).Some? && b < i < ExitOf(items, b).value
    requires items[b].Code? && GuardOn(items[b].inst, lane)
    ensures S.NoBranch(ItemCode(homes, offsets, plan, items, i))
    ensures ExecSeq(cfg, ItemCode(homes, offsets, plan, items, i), One(lane, gmem)) == Running(One(lane, gmem))
  {
    hide ExecSeq, Plannable, Legal, GuardOn, ItemCode, S.NoBranch;
    if items[i].Label? {
      SkippedCode(homes, offsets, plan, items, i);
      ExecNothing(cfg, One(lane, gmem));
      NothingBranches();
    } else {
      assert GuardedBy(plan, items, i, b);
      GuardMeansNotTaken(plan, items, b, i, lane);
      assert UnconditionalAt(plan, items, i);
      GuardedItemCode(homes, offsets, plan, items, i);
      OneLaneMasks(cfg, plan, i, Expand(homes, offsets, items[i].inst), lane, gmem);
    }
  }

  lemma NothingBranches()
    ensures S.NoBranch([])
  {
  }

  /** The code of an item in a region: its expansion, under the guard. */
  lemma GuardedItemCode(homes: R.Homes, offsets: map<nat, nat>, plan: Plan, items: seq<P.Item>, i: nat)
    requires Plannable(homes, offsets, plan, items) && i < |items| && items[i].Code? && i !in plan.skip
    requires i in plan.guards && Unconditional(items[i].inst, plan.guards[i].id)
    ensures FitsAt(homes, offsets, items[i].inst)
    ensures ItemCode(homes, offsets, plan, items, i) == EmitAll(plan, i, Expand(homes, offsets, items[i].inst))
    ensures Maskable(Expand(homes, offsets, items[i].inst), plan.guards[i].id)
    ensures S.NoBranch(ItemCode(homes, offsets, plan, items, i))
  {
    hide Expand, Maskable;
    StraightItemCode(homes, offsets, plan, items, i);
    ExpansionMaskable(homes, offsets, items[i].inst, plan.guards[i].id);
    MaskedStraight(plan, i, Expand(homes, offsets, items[i].inst));
  }

  lemma StraightItemCode(homes: R.Homes, offsets: map<nat, nat>, plan: Plan, items: seq<P.Item>, i: nat)
    requires Plannable(homes, offsets, plan, items) && i < |items| && items[i].Code? && i !in plan.skip
    requires KindOf(items[i].inst) != Branch
    ensures FitsAt(homes, offsets, items[i].inst)
    ensures ItemCode(homes, offsets, plan, items, i) == EmitAll(plan, i, Expand(homes, offsets, items[i].inst))
  {
    hide Expand, EmitAll, KindOf, FitsAt;
    assert Emits(plan, items, i);
  }

  lemma MaskedStraight(plan: Plan, i: nat, code: seq<A.Inst>)
    requires i in plan.guards && Maskable(code, plan.guards[i].id)
    ensures S.NoBranch(EmitAll(plan, i, code))
  {
    forall k | 0 <= k < |code| ensures !IsBranch(EmitAll(plan, i, code)[k]) {
      assert MaskableAt(code[k], plan.guards[i].id);
    }
  }

  lemma PlainCode(plan: Plan, i: nat, code: seq<A.Inst>)
    requires i !in plan.guards
    ensures EmitAll(plan, i, code) == code
  {
  }

  // ----- one item -----

  /** Along the run the machine's operations compute PTX's values. */
  ghost predicate OperationsFit(host: P.Host, items: seq<P.Item>, homes: R.Homes, pc: nat, p: R.Physical, fuel: nat)
    decreases fuel
  {
    fuel > 0 ==>
      && (pc < |items| && items[pc].Code? ==> OperationFits(host, items[pc].inst, ViewOf(homes, p, items[pc].inst)))
      && (match R.Step(host, items, homes, pc, p)
          case PNext(pc', p') => var rest: nat := fuel - 1; OperationsFit(host, items, homes, pc', p', rest)
          case _ => true)
  }

  lemma OthersFit(host: P.Host, inst: P.Inst, s: P.State)
    requires KindOf(inst) != Binary && KindOf(inst) != Fused && KindOf(inst) != SetPredicate && InSubset(inst)
    ensures OperationFits(host, inst, s)
  {
    hide P.Sources, P.GuardHolds;
  }

  /** Any instruction but a branch or return: its expansion has its effect exactly if its operation fits. */
  lemma ExpansionMatches(cfg: Config, offsets: map<nat, nat>, homes: R.Homes, p: R.Physical, inst: P.Inst, lane: Lane)
    requires Ready(cfg, offsets, homes, inst, lane.id) && KindOf(inst) != Branch && KindOf(inst) != Return
             && SlotRel(p, lane)
    ensures Matches(homes, p, EffectOf(cfg, offsets, homes, p, inst, lane.id),
                    ExecSeq(cfg, Expand(homes, offsets, inst), One(lane, p.gmem)), lane.id)
       <==> OperationFits(ThreadHost(cfg, offsets, lane.id), inst, ViewOf(homes, p, inst))
  {
    hide Matches, SlotRel, Expand, ExecSeq, EffectOf, OperationFits, ViewOf;
    if KindOf(inst) != Binary && KindOf(inst) != Fused && KindOf(inst) != SetPredicate {
      OthersFit(ThreadHost(cfg, offsets, lane.id), inst, ViewOf(homes, p, inst));
    }
    match KindOf(inst)
    case LdParam =>
      if Wide(inst.op.ty) {
        WideParamMatches(cfg, offsets, homes, p, inst, lane);
      } else {
        SingleParamMatches(cfg, offsets, homes, p, inst, lane);
      }
    case LdGlobal => LdGlobalMatches(cfg, offsets, homes, p, inst, lane);
    case StGlobal => StGlobalMatches(cfg, offsets, homes, p, inst, lane);
    case Move => MoveMatches(cfg, offsets, homes, p, inst, lane);
    case SetPredicate => SetPredicateMatches(cfg, offsets, homes, p, inst, lane);
    case WideMultiply => WideMultiplyMatches(cfg, offsets, homes, p, inst, lane);
    case WideAdd => WideAddMatches(cfg, offsets, homes, p, inst, lane);
    case Fused => FusedMatches(cfg, offsets, homes, p, inst, lane);
    case Binary => BinaryMatches(cfg, offsets, homes, p, inst, lane);
    case _ =>
  }

  lemma {:induction false} PreloadStraight(sources: seq<P.Operand>, temp: nat)
    requires forall k | 0 <= k < |sources| :: IsSource(sources[k])
    ensures S.NoBranch(Preload(sources, temp))
    decreases |sources|
  {
    if sources != [] {
      assert IsSource(sources[0]);
      if sources[0].RegOp? {
        PreloadStraight(sources[1..], temp);
      } else {
        PreloadStraight(sources[1..], temp + 1);
      }
    }
  }

  lemma MainStraight(offsets: map<nat, nat>, inst: P.Inst, dest: nat, rs: seq<nat>)
    requires Lowerable(offsets, inst) && FromSources(KindOf(inst)) && |rs| == (if KindOf(inst) == Fused then 3 else 2)
    ensures S.NoBranch(MainCode(inst, dest, rs))
  {
  }

  lemma ExpansionStraight(homes: R.Homes, offsets: map<nat, nat>, inst: P.Inst)
    requires Lowerable(offsets, inst) && Needs(inst) <= homes.Keys && KindOf(inst) != Branch && KindOf(inst) != Return
    ensures S.NoBranch(Expand(homes, offsets, inst))
  {
    hide SourceRegs, Preload, Mentioned, Needs;
    if FromSources(KindOf(inst)) {
      hide Expand, MainCode;
      ExpandSources(homes, offsets, inst);
      var os, rs := inst.operands, SourceRegs(homes, inst.operands[1..], FIRST_TEMP);
      PreloadStraight(os[1..], FIRST_TEMP);
      MainStraight(offsets, inst, if KindOf(inst) == SetPredicate then os[0].reg.id else homes[os[0].reg].base, rs);
    } else {
      SourcesHomed(homes, inst);
    }
  }

  function GoTo(target: Option<nat>, p: R.Physical): R.PhysicalStep {
    if target.Some? then R.PNext(target.value, p) else R.PFault(p.gmem)
  }

  /** The step an effect amounts to. */
  function StepOf(e: P.Effect, items: seq<P.Item>, homes: R.Homes, pc: nat, p: R.Physical): R.PhysicalStep {
    match e
    case Nothing => R.PNext(pc + 1, p)
    case Write(r, v) => R.PNext(pc + 1, R.WriteReg(homes, p, r, v))
    case StoreTo(address, blob) =>
      if address + |blob| <= |p.gmem|
      then R.PNext(pc + 1, p.(gmem := p.gmem[..address] + blob + p.gmem[address + |blob|..]))
      else R.PFault(p.gmem)
    case Failure => R.PFault(p.gmem)
    case Exit => R.PDone(p)
    case Jump(l) => GoTo(P.FindLabel(items, l, 0), p)
  }

  /** What a physical step at an instruction is, given its effect. */
  lemma StepFromEffect(host: P.Host, items: seq<P.Item>, homes: R.Homes, pc: nat, p: R.Physical)
    requires pc < |items| && items[pc].Code?
    ensures R.Step(host, items, homes, pc, p)
         == StepOf(P.GuardedEffect(host, items[pc].inst, ViewOf(homes, p, items[pc].inst)), items, homes, pc, p)
  {
    hide P.GuardedEffect, R.WriteReg, P.FindLabel;
  }

  /** A straight item: the lane runs through its code as the thread takes its step. */
  lemma StraightItem(cfg: Config, offsets: map<nat, nat>, homes: R.Homes, plan: Plan, items: seq<P.Item>, pc: nat,
                     p: R.Physical, lane: Lane)
    returns (lane': Lane)
    requires LoweringReady(cfg, offsets, homes, plan, items, lane.id) && Entered(plan, items, pc, lane)
    requires pc < |items| && items[pc].Code? && pc !in plan.skip && SlotRel(p, lane)
    requires KindOf(items[pc].inst) != Branch && KindOf(items[pc].inst) != Return
    requires OperationFits(ThreadHost(cfg, offsets, lane.id), items[pc].inst, ViewOf(homes, p, items[pc].inst))
    ensures var code := ItemCode(homes, offsets, plan, items, pc);
            S.NoBranch(code)
            && match R.Step(ThreadHost(cfg, offsets, lane.id), items, homes, pc, p)
               case PNext(pc', p') =>
                 && pc' == pc + 1 && SlotRel(p', lane') && lane'.id == lane.id && Entered(plan, items, pc', lane')
                 && ExecSeq(cfg, code, One(lane, p.gmem)) == Running(One(lane', p'.gmem))
               case PFault(m) => ExecSeq(cfg, code, One(lane, p.gmem)) == Fault(m)
               case PDone(_) => false
  {
    hide ExecSeq, SlotRel, Expand, P.GuardedEffect, ViewOf, R.WriteReg, R.Step, OperationFits, Ready, Plannable, Legal,
         CleanRegions, Entered, ItemCode, FitsAt, S.NoBranch, On, Matches, StepOf, RunningRel, EffectOf;
    var inst, host := items[pc].inst, ThreadHost(cfg, offsets, lane.id);
    assert Emits(plan, items, pc) && Ready(cfg, offsets, homes, inst, lane.id);
    ReadyParts(cfg, offsets, homes, inst, lane.id);
    ExpansionMatches(cfg, offsets, homes, p, inst, lane);
    StepFromEffect(host, items, homes, pc, p);
    ItemRuns(cfg, offsets, homes, plan, items, pc, lane, p.gmem);
    var e, o := EffectOf(cfg, offsets, homes, p, inst, lane.id),
        ExecSeq(cfg, Expand(homes, offsets, inst), One(lane, p.gmem));
    EffectIs(cfg, offsets, homes, p, inst, lane.id);
    StepMatches(e, items, homes, pc, p, o, lane.id);
    lane' := lane;
    var step := StepOf(e, items, homes, pc, p);
    if step.PNext? {
      lane' := LaneOf(step.p, o, lane.id);
      EnteredNext(plan, items, pc, lane');
    }
  }

  /** What matching an effect means for the step it amounts to. */
  lemma StepMatches(e: P.Effect, items: seq<P.Item>, homes: R.Homes, pc: nat, p: R.Physical, o: Outcome, id: LaneId)
    requires Matches(homes, p, e, o, id)
    ensures match StepOf(e, items, homes, pc, p)
            case PNext(pc', p') => pc' == pc + 1 && RunningRel(p', o, id)
            case PFault(m) => o == Fault(m)
            case PDone(_) => false
  {
    hide RunningRel, R.WriteReg;
    WrittenGmem(homes, p, e);
  }

  lemma WrittenGmem(homes: R.Homes, p: R.Physical, e: P.Effect)
    ensures e.Write? ==> R.WriteReg(homes, p, e.reg, e.value).gmem == p.gmem
  {
  }

  lemma LaneOf(p: R.Physical, o: Outcome, id: LaneId) returns (lane: Lane)
    requires RunningRel(p, o, id)
    ensures o == Running(One(lane, p.gmem)) && o.warp.lanes == [lane] && SlotRel(p, lane) && lane.id == id
  {
    hide SlotRel;
    lane := o.warp.lanes[0];
    assert o.warp.lanes == [lane];
  }

  /** In a lane that has entered, the code of a straight item runs as its bare expansion, and keeps the guard on. */
  lemma ItemRuns(cfg: Config, offsets: map<nat, nat>, homes: R.Homes, plan: Plan, items: seq<P.Item>, pc: nat,
                 lane: Lane, gmem: seq<Byte>)
    requires Plannable(homes, offsets, plan, items) && Legal(plan, items) && CleanRegions(plan, items)
             && Entered(plan, items, pc, lane)
    requires pc < |items| && items[pc].Code? && pc !in plan.skip
    requires KindOf(items[pc].inst) != Branch && KindOf(items[pc].inst) != Return
    ensures FitsAt(homes, offsets, items[pc].inst) && S.NoBranch(ItemCode(homes, offsets, plan, items, pc))
    ensures var o := ExecSeq(cfg, Expand(homes, offsets, items[pc].inst), One(lane, gmem));
            && ExecSeq(cfg, ItemCode(homes, offsets, plan, items, pc), One(lane, gmem)) == o
            && (pc in plan.guards && plan.guards[pc].id < 8 && o.Running? ==>
                  |o.warp.lanes| == 1 && On(plan.guards[pc], o.warp.lanes[0]))
  {
    hide ExecSeq, Plannable, Legal, Entered, On, Expand, ItemCode, S.NoBranch, Maskable, KindOf;
    StraightItemCode(homes, offsets, plan, items, pc);
    FitsParts(homes, offsets, items[pc].inst);
    if pc in plan.guards {
      var b := EnteredOn(plan, items, pc, lane);
      assert UnconditionalAt(plan, items, pc);
      GuardedItemCode(homes, offsets, plan, items, pc);
      OneLaneMasks(cfg, plan, pc, Expand(homes, offsets, items[pc].inst), lane, gmem);
    } else {
      ExpansionStraight(homes, offsets, items[pc].inst);
      PlainCode(plan, pc, Expand(homes, offsets, items[pc].inst));
    }
  }

  lemma FitsParts(homes: R.Homes, offsets: map<nat, nat>, inst: P.Inst)
    requires FitsAt(homes, offsets, inst)
    ensures Lowerable(offsets, inst) && Needs(inst) <= homes.Keys
  {
  }

  lemma ReadyParts(cfg: Config, offsets: map<nat, nat>, homes: R.Homes, inst: P.Inst, id: LaneId)
    requires Ready(cfg, offsets, homes, inst, id)
    ensures Lowerable(offsets, inst) && InSubset(inst) && Needs(inst) <= homes.Keys
    ensures KindOf(inst) == Branch ==> inst.op.base == P.Bra && |inst.operands| == 1 && inst.operands[0].Target?
    ensures inst.guard.Some? ==> P.IsPredicate(inst.guard.value) && inst.guard.value.id < 8
    ensures KindOf(inst) == Return ==> inst.guard == None
  {
  }

  /** The code between two items leaves lane and memory as they are. */
  ghost predicate PassesOver(cfg: Config, offsets: map<nat, nat>, homes: R.Homes, plan: Plan, items: seq<P.Item>,
                             pc: nat, pc': nat, lane: Lane, gmem: seq<Byte>)
    requires Plannable(homes, offsets, plan, items)
  {
    && pc < pc' <= |items|
    && var code := Program(homes, offsets, plan, items);
       var s, t := Position(homes, offsets, plan, items, pc), Position(homes, offsets, plan, items, pc');
       s <= t <= |code| && S.NoBranch(code[s..t]) && ExecSeq(cfg, code[s..t], One(lane, gmem))
           == Running(One(lane, gmem))
  }

  /** A converted branch: taken, the lane passes over the region; not taken, it is in the region without a step. */
  lemma ConvertedItem(cfg: Config, offsets: map<nat, nat>, homes: R.Homes, plan: Plan, items: seq<P.Item>, pc: nat,
                      p: R.Physical, lane: Lane)
    requires LoweringReady(cfg, offsets, homes, plan, items, lane.id) && pc < |items| && items[pc].Code?
             && pc in plan.skip && SlotRel(p, lane)
    ensures match R.Step(ThreadHost(cfg, offsets, lane.id), items, homes, pc, p)
            case PNext(pc', p') =>
              p' == p && Entered(plan, items, pc', lane) && PassesOver(cfg, offsets, homes, plan, items, pc, pc', lane,
                                                                       p.gmem)
            case _ => false
  {
    hide Program, Position, ItemCode, ExecSeq, SlotRel, ViewOf, P.FindLabel, P.GuardHolds, Entered, GuardOn, Plannable,
         S.NoBranch;
    assert Converted(plan, items, pc);
    var inst, host := items[pc].inst, ThreadHost(cfg, offsets, lane.id);
    GuardAgrees(homes, p, lane, inst);
    StepFromEffect(host, items, homes, pc, p);
    BranchEffect(host, inst, ViewOf(homes, p, inst));
    hide Legal, CleanRegions;
    if GuardOn(inst, lane) {
      EnteredByBranch(plan, items, pc, lane);
      RegionMaskedOff(cfg, offsets, homes, plan, items, pc, ExitOf(items, pc).value, lane, p.gmem);
    } else {
      EnteredFallThrough(plan, items, pc, lane);
      SkippedCode(homes, offsets, plan, items, pc);
      PositionNext(homes, offsets, plan, items, pc);
      CodeAtItem(homes, offsets, plan, items, pc);
      ExecNothing(cfg, One(lane, p.gmem));
      NothingBranches();
    }
  }

  /** An emitted branch: the lane goes to the position of the label exactly when the thread goes to the label. */
  lemma BranchItem(cfg: Config, offsets: map<nat, nat>, homes: R.Homes, plan: Plan, items: seq<P.Item>, pc: nat,
                   p: R.Physical, lane: Lane)
    requires LoweringReady(cfg, offsets, homes, plan, items, lane.id) && Entered(plan, items, pc, lane)
    requires pc < |items| && items[pc].Code? && pc !in plan.skip && SlotRel(p, lane)
    requires KindOf(items[pc].inst) == Branch
    ensures Position(homes, offsets, plan, items, pc) < |Program(homes, offsets, plan, items)|
    ensures match R.Step(ThreadHost(cfg, offsets, lane.id), items, homes, pc, p)
            case PNext(pc', p') =>
              && pc' <= |items| && p' == p && Entered(plan, items, pc', lane)
              && Step(cfg, Program(homes, offsets, plan, items), Position(homes, offsets, plan, items, pc),
                      One(lane, p.gmem))
                 == Next(Position(homes, offsets, plan, items, pc'), One(lane, p.gmem))
            case _ => false
  {
    hide Program, Position, ItemCode, SlotRel, ViewOf, Ready, P.FindLabel, P.GuardHolds, Entered, Plannable, Legal,
         CleanRegions, GuardOn, KindOf, On, Step, R.Step, BranchInst, P.GuardedEffect;
    var inst, host := items[pc].inst, ThreadHost(cfg, offsets, lane.id);
    assert Emits(plan, items, pc) && Ready(cfg, offsets, homes, inst, lane.id);
    ReadyParts(cfg, offsets, homes, inst, lane.id);
    BranchUnguarded(plan, items, pc);
    BranchCode(homes, offsets, plan, items, pc);
    var target := P.FindLabel(items, inst.operands[0].name, 0).value;
    OneHere(homes, offsets, plan, items, pc, BranchInst(inst, Position(homes, offsets, plan, items, target)));
    GuardAgrees(homes, p, lane, inst);
    StepFromEffect(host, items, homes, pc, p);
    BranchEffect(host, inst, ViewOf(homes, p, inst));
    var program, s := Program(homes, offsets, plan, items), Position(homes, offsets, plan, items, pc);
    BranchStep(cfg, program, s, inst, Position(homes, offsets, plan, items, target), lane, p.gmem);
    EnteredByBranch(plan, items, pc, lane);
    EnteredNext(plan, items, pc, lane);
  }

  /** Items in a region are neither branches nor returns. */
  lemma BranchUnguarded(plan: Plan, items: seq<P.Item>, pc: nat)
    requires CleanRegions(plan, items) && pc < |items| && items[pc].Code?
    requires KindOf(items[pc].inst) == Branch || KindOf(items[pc].inst) == Return
    ensures pc !in plan.guards
  {
    hide KindOf;
    assert pc in plan.guards ==> UnconditionalAt(plan, items, pc);
  }

  function BranchInst(inst: P.Inst, target: int): A.Inst {
    (if inst.guard.None? then A.Inst(A.BR) else Guarded(inst, A.Inst(A.BRX))).(imm := target)
  }

  lemma BranchCode(homes: R.Homes, offsets: map<nat, nat>, plan: Plan, items: seq<P.Item>, pc: nat)
    requires Plannable(homes, offsets, plan, items) && pc < |items| && Emits(plan, items, pc)
             && KindOf(items[pc].inst) == Branch
    requires pc !in plan.guards
    ensures |items[pc].inst.operands| == 1 && items[pc].inst.operands[0].Target?
    ensures P.FindLabel(items, items[pc].inst.operands[0].name, 0).Some?
    ensures var target := P.FindLabel(items, items[pc].inst.operands[0].name, 0).value;
            ItemCode(homes, offsets, plan, items, pc) == [BranchInst(items[pc].inst,
                                                                     Position(homes, offsets, plan, items, target))]
  {
    hide At, Fitting;
    BranchFits(homes, offsets, plan, items, pc);
    PlainCode(plan, pc, Expand(homes, offsets, items[pc].inst));
  }

  lemma BranchEffect(host: P.Host, inst: P.Inst, s: P.State)
    requires KindOf(inst) == Branch && |inst.operands| == 1 && inst.operands[0].Target?
    ensures P.GuardedEffect(host, inst, s) == if P.GuardHolds(inst, s.regs) then P.Jump(inst.operands[0].name)
            else P.Nothing
  {
    hide P.GuardHolds;
  }

  lemma BranchStep(cfg: Config, program: seq<A.Inst>, s: nat, inst: P.Inst, target: int, lane: Lane, gmem: seq<Byte>)
    requires s < |program| && program[s] == BranchInst(inst, target)
    requires inst.guard.Some? ==> P.IsPredicate(inst.guard.value) && inst.guard.value.id < 8
    ensures Step(cfg, program, s, One(lane, gmem)) == Next(if GuardOn(inst, lane) then target
                                                           else s + 1, One(lane, gmem))
  {
    if inst.guard.Some? {
      var a := BranchInst(inst, target);
      assert a.guard == Some(inst.guard.value.id) && a.negated == inst.negated;
      assert One(lane, gmem).lanes[0] == lane;
      assert LaneTakes(a, lane) <==> GuardOn(inst, lane);
      assert BranchTarget(a, One(lane, gmem).lanes, s) == Some(if GuardOn(inst, lane) then target else s + 1);
    }
  }

  lemma ReturnItem(cfg: Config, offsets: map<nat, nat>, homes: R.Homes, plan: Plan, items: seq<P.Item>, pc: nat,
                   p: R.Physical, lane: Lane)
    requires LoweringReady(cfg, offsets, homes, plan, items, lane.id) && pc < |items| && items[pc].Code?
             && pc !in plan.skip
    requires KindOf(items[pc].inst) == Return
    ensures Position(homes, offsets, plan, items, pc) < |Program(homes, offsets, plan, items)|
    ensures R.Step(ThreadHost(cfg, offsets, lane.id), items, homes, pc, p) == R.PDone(p)
    ensures Step(cfg, Program(homes, offsets, plan, items), Position(homes, offsets, plan, items, pc),
                 One(lane, p.gmem))
         == Stop(One(lane, p.gmem))
  {
    hide Program, Position, ItemCode, ViewOf, Ready, Plannable, Legal, CleanRegions, Step, R.Step, P.GuardedEffect,
         KindOf;
    var inst, host := items[pc].inst, ThreadHost(cfg, offsets, lane.id);
    assert Emits(plan, items, pc) && Ready(cfg, offsets, homes, inst, lane.id);
    ReadyParts(cfg, offsets, homes, inst, lane.id);
    BranchUnguarded(plan, items, pc);
    ReturnEffect(host, inst, ViewOf(homes, p, inst));
    StepFromEffect(host, items, homes, pc, p);
    ReturnCode(homes, offsets, plan, items, pc);
    OneHere(homes, offsets, plan, items, pc, A.Inst(A.HALT));
    HaltStep(cfg, Program(homes, offsets, plan, items), Position(homes, offsets, plan, items, pc), One(lane, p.gmem));
  }

  /** The one instruction of an item stands at its position. */
  lemma OneHere(homes: R.Homes, offsets: map<nat, nat>, plan: Plan, items: seq<P.Item>, pc: nat, one: A.Inst)
    requires Plannable(homes, offsets, plan, items) && pc < |items|
             && ItemCode(homes, offsets, plan, items, pc) == [one]
    ensures var program, s := Program(homes, offsets, plan, items), Position(homes, offsets, plan, items, pc);
            s < |program| && program[s] == one && Position(homes, offsets, plan, items, pc + 1) == s + 1
  {
    hide Program, Position, ItemCode, Plannable;
    PositionNext(homes, offsets, plan, items, pc);
    CodeAtItem(homes, offsets, plan, items, pc);
    var program, s := Program(homes, offsets, plan, items), Position(homes, offsets, plan, items, pc);
    assert program[s] == program[s..s + 1][0];
  }

  lemma HaltStep(cfg: Config, program: seq<A.Inst>, s: nat, w: Warp)
    requires s < |program| && program[s] == A.Inst(A.HALT)
    ensures Step(cfg, program, s, w) == Stop(w)
  {
  }

  lemma ReturnEffect(host: P.Host, inst: P.Inst, s: P.State)
    requires KindOf(inst) == Return && inst.guard == None
    ensures P.GuardedEffect(host, inst, s) == P.Exit
  {
  }

  lemma ReturnCode(homes: R.Homes, offsets: map<nat, nat>, plan: Plan, items: seq<P.Item>, pc: nat)
    requires Plannable(homes, offsets, plan, items) && pc < |items| && Emits(plan, items, pc)
             && KindOf(items[pc].inst) == Return
    requires pc !in plan.guards
    ensures ItemCode(homes, offsets, plan, items, pc) == [A.Inst(A.HALT)]
  {
    StraightItemCode(homes, offsets, plan, items, pc);
    PlainCode(plan, pc, Expand(homes, offsets, items[pc].inst));
    hide ItemCode;
  }

  // ----- whole runs -----

  /** The lane runs as the thread steps: to the position of the next item in `steps` steps, or to the same end. */
  ghost predicate Follows(cfg: Config, offsets: map<nat, nat>, homes: R.Homes, plan: Plan, items: seq<P.Item>, pc: nat,
                          gmem: seq<Byte>, lane: Lane, step: R.PhysicalStep, lane': Lane, steps: nat)
    requires Plannable(homes, offsets, plan, items) && pc <= |items|
  {
    var code := Program(homes, offsets, plan, items);
    var s := Position(homes, offsets, plan, items, pc);
    match step
    case PNext(pc', p') =>
      pc' <= |items| && (steps > 0 || pc' > pc) && SlotRel(p', lane') && lane'.id == lane.id
          && Entered(plan, items, pc', lane')
      && forall k: nat :: Run(cfg, code, s, One(lane, gmem), k + steps)
                          == Run(cfg, code, Position(homes, offsets, plan, items, pc'), One(lane', p'.gmem), k)
    case PFault(m) => Run(cfg, code, s, One(lane, gmem), steps) == Failed(m)
    case PDone(final) =>
      Run(cfg, code, s, One(lane, gmem), steps) == Halted(One(lane, final.gmem)) && SlotRel(final, lane)
  }

  /** Code without branches, run through. */
  lemma Stretch(cfg: Config, code: seq<A.Inst>, s: nat, t: nat, lane: Lane, gmem: seq<Byte>)
    requires s <= t <= |code| && S.NoBranch(code[s..t])
    ensures match ExecSeq(cfg, code[s..t], One(lane, gmem))
            case Running(w) => forall k: nat ::
                Run(cfg, code, s, One(lane, gmem), k + (t - s)) == Run(cfg, code, t, w, k)
            case Fault(m) => Run(cfg, code, s, One(lane, gmem), t - s) == Failed(m)
  {
    hide ExecSeq, Run;
    S.RunStraight(cfg, code, s, t, One(lane, gmem), t - s);
    forall k: nat ensures ExecSeq(cfg, code[s..t], One(lane, gmem)).Running? ==>
      Run(cfg, code, s, One(lane, gmem), k + (t - s)) == Run(cfg, code, t,
                                                             ExecSeq(cfg, code[s..t], One(lane, gmem)).warp, k)
    {
      S.RunStraight(cfg, code, s, t, One(lane, gmem), k + (t - s));
    }
  }

  lemma StraightTurn(cfg: Config, offsets: map<nat, nat>, homes: R.Homes, plan: Plan, items: seq<P.Item>, pc: nat,
                     p: R.Physical, lane: Lane)
    returns (lane': Lane, steps: nat)
    requires LoweringReady(cfg, offsets, homes, plan, items, lane.id) && Entered(plan, items, pc, lane)
    requires pc < |items| && items[pc].Code? && pc !in plan.skip && SlotRel(p, lane)
    requires KindOf(items[pc].inst) != Branch && KindOf(items[pc].inst) != Return
    requires OperationFits(ThreadHost(cfg, offsets, lane.id), items[pc].inst, ViewOf(homes, p, items[pc].inst))
    ensures Plannable(homes, offsets, plan, items)
    ensures Follows(cfg, offsets, homes, plan, items, pc, p.gmem, lane,
                    R.Step(ThreadHost(cfg, offsets, lane.id), items, homes, pc, p), lane', steps)
  {
    hide Program, Position, SlotRel, R.Step, Run, ExecSeq, Plannable, Entered, OperationFits, ViewOf, ItemCode,
         LoweringReady, KindOf;
    ReadyPlannable(cfg, offsets, homes, plan, items, lane.id);
    lane' := StraightItem(cfg, offsets, homes, plan, items, pc, p, lane);
    CodeAtItem(homes, offsets, plan, items, pc);
    var s, t := Position(homes, offsets, plan, items, pc), Position(homes, offsets, plan, items, pc + 1);
    steps := t - s;
    Stretch(cfg, Program(homes, offsets, plan, items), s, t, lane, p.gmem);
  }

  /** Passing over code, as a run. */
  lemma PassedOver(cfg: Config, offsets: map<nat, nat>, homes: R.Homes, plan: Plan, items: seq<P.Item>, pc: nat,
                   pc': nat, lane: Lane, gmem: seq<Byte>) returns (steps: nat)
    requires Plannable(homes, offsets, plan, items) && PassesOver(cfg, offsets, homes, plan, items, pc, pc', lane, gmem)
    ensures pc < pc' <= |items| && forall k: nat ::
              Run(cfg, Program(homes, offsets, plan, items), Position(homes, offsets, plan, items, pc), One(lane, gmem),
                  k + steps)
              == Run(cfg, Program(homes, offsets, plan, items), Position(homes, offsets, plan, items, pc'),
                     One(lane, gmem), k)
  {
    hide Program, Position, Run, ExecSeq, Plannable, S.NoBranch;
    var s, t := Position(homes, offsets, plan, items, pc), Position(homes, offsets, plan, items, pc');
    steps := t - s;
    assert ExecSeq(cfg, Program(homes, offsets, plan, items)[s..t], One(lane, gmem)) == Running(One(lane, gmem));
    Stretch(cfg, Program(homes, offsets, plan, items), s, t, lane, gmem);
  }

  lemma ConvertedTurn(cfg: Config, offsets: map<nat, nat>, homes: R.Homes, plan: Plan, items: seq<P.Item>, pc: nat,
                      p: R.Physical, lane: Lane)
    returns (steps: nat)
    requires LoweringReady(cfg, offsets, homes, plan, items, lane.id) && pc < |items| && items[pc].Code?
             && pc in plan.skip && SlotRel(p, lane)
    ensures Plannable(homes, offsets, plan, items)
    ensures Follows(cfg, offsets, homes, plan, items, pc, p.gmem, lane,
                    R.Step(ThreadHost(cfg, offsets, lane.id), items, homes, pc, p), lane, steps)
  {
    hide Program, Position, SlotRel, R.Step, Run, Plannable, Entered, LoweringReady, PassesOver;
    ReadyPlannable(cfg, offsets, homes, plan, items, lane.id);
    ConvertedItem(cfg, offsets, homes, plan, items, pc, p, lane);
    var step := R.Step(ThreadHost(cfg, offsets, lane.id), items, homes, pc, p);
    steps := PassedOver(cfg, offsets, homes, plan, items, pc, step.pc, lane, p.gmem);
  }

  lemma ControlTurn(cfg: Config, offsets: map<nat, nat>, homes: R.Homes, plan: Plan, items: seq<P.Item>, pc: nat,
                    p: R.Physical, lane: Lane)
    requires LoweringReady(cfg, offsets, homes, plan, items, lane.id) && Entered(plan, items, pc, lane)
    requires pc < |items| && items[pc].Code? && pc !in plan.skip && SlotRel(p, lane)
    requires KindOf(items[pc].inst) == Branch || KindOf(items[pc].inst) == Return
    ensures Plannable(homes, offsets, plan, items)
    ensures Follows(cfg, offsets, homes, plan, items, pc, p.gmem, lane,
                    R.Step(ThreadHost(cfg, offsets, lane.id), items, homes, pc, p), lane, 1)
  {
    hide Program, Position, SlotRel, R.Step, Step, Run, Plannable, Entered, LoweringReady, KindOf;
    ReadyPlannable(cfg, offsets, homes, plan, items, lane.id);
    var code, s := Program(homes, offsets, plan, items), Position(homes, offsets, plan, items, pc);
    if KindOf(items[pc].inst) == Return {
      ReturnItem(cfg, offsets, homes, plan, items, pc, p, lane);
      RunOneStep(cfg, code, s, One(lane, p.gmem), 1);
    } else {
      BranchItem(cfg, offsets, homes, plan, items, pc, p, lane);
      var step := R.Step(ThreadHost(cfg, offsets, lane.id), items, homes, pc, p);
      forall k: nat ensures Run(cfg, code, s, One(lane, p.gmem), k + 1)
                            == Run(cfg, code, Position(homes, offsets, plan, items, step.pc), One(lane, p.gmem), k)
      {
        RunOneStep(cfg, code, s, One(lane, p.gmem), k + 1);
      }
    }
  }

  /** At a label, or past the last item, the lane takes no step. */
  lemma QuietTurn(cfg: Config, offsets: map<nat, nat>, homes: R.Homes, plan: Plan, items: seq<P.Item>, pc: nat,
                  p: R.Physical, lane: Lane)
    requires Plannable(homes, offsets, plan, items) && Legal(plan, items) && Entered(plan, items, pc, lane)
             && SlotRel(p, lane)
    requires pc == |items| || (pc < |items| && items[pc].Label?)
    ensures Follows(cfg, offsets, homes, plan, items, pc, p.gmem, lane,
                    R.Step(ThreadHost(cfg, offsets, lane.id), items, homes, pc, p), lane, 0)
  {
    hide Program, Position, SlotRel, R.Step, Run, Plannable, Legal, Entered;
    if pc == |items| {
      PastTheEnd(ThreadHost(cfg, offsets, lane.id), cfg, homes, offsets, plan, items, pc, p, lane);
    } else {
      AtLabel(ThreadHost(cfg, offsets, lane.id), homes, offsets, plan, items, pc, p);
      EnteredLabel(plan, items, pc, lane);
      var code := Program(homes, offsets, plan, items);
      var s, t := Position(homes, offsets, plan, items, pc), Position(homes, offsets, plan, items, pc + 1);
      forall k: nat ensures Run(cfg, code, s, One(lane, p.gmem), k + 0) == Run(cfg, code, t, One(lane, p.gmem), k) {
        assert k + 0 == k;
      }
    }
  }

  /** One turn of the thread, at any item or past the last. */
  lemma ItemTurn(cfg: Config, offsets: map<nat, nat>, homes: R.Homes, plan: Plan, items: seq<P.Item>, pc: nat,
                 p: R.Physical, lane: Lane)
    returns (lane': Lane, steps: nat)
    requires LoweringReady(cfg, offsets, homes, plan, items, lane.id) && Entered(plan, items, pc, lane)
    requires pc <= |items| && SlotRel(p, lane)
    requires pc < |items| && items[pc].Code? ==>
               OperationFits(ThreadHost(cfg, offsets, lane.id), items[pc].inst, ViewOf(homes, p, items[pc].inst))
    ensures Plannable(homes, offsets, plan, items)
    ensures Follows(cfg, offsets, homes, plan, items, pc, p.gmem, lane,
                    R.Step(ThreadHost(cfg, offsets, lane.id), items, homes, pc, p), lane', steps)
  {
    hide Program, Position, SlotRel, R.Step, Run, Plannable, Legal, Entered, OperationFits, ViewOf, LoweringReady,
         KindOf, Follows;
    ReadyPlannable(cfg, offsets, homes, plan, items, lane.id);
    lane', steps := lane, 0;
    if pc == |items| || items[pc].Label? {
      QuietTurn(cfg, offsets, homes, plan, items, pc, p, lane);
    } else {
      if pc in plan.skip {
        steps := ConvertedTurn(cfg, offsets, homes, plan, items, pc, p, lane);
      } else if KindOf(items[pc].inst) == Branch || KindOf(items[pc].inst) == Return {
        steps := 1;
        ControlTurn(cfg, offsets, homes, plan, items, pc, p, lane);
      } else {
        lane', steps := StraightTurn(cfg, offsets, homes, plan, items, pc, p, lane);
      }
    }
  }

  /** Each run of the thread over its registers is matched by a run of the lane over the lowered code. */
  lemma {:induction false} LoweringSimulates(cfg: Config, offsets: map<nat, nat>, homes: R.Homes, plan: Plan,
                                             items: seq<P.Item>, pc: nat, p: R.Physical, lane: Lane, fuel: nat)
                                               returns (fuel': nat)
    requires LoweringReady(cfg, offsets, homes, plan, items, lane.id) && Entered(plan, items, pc, lane)
    requires pc <= |items| && SlotRel(p, lane)
    requires OperationsFit(ThreadHost(cfg, offsets, lane.id), items, homes, pc, p, fuel)
    ensures EndsAlike(R.Run(ThreadHost(cfg, offsets, lane.id), items, homes, pc, p, fuel),
                      Run(cfg, Program(homes, offsets, plan, items), Position(homes, offsets, plan, items, pc),
                          One(lane, p.gmem), fuel'))
    decreases fuel
  {
    hide Program, Position, SlotRel, R.Step, Run, Plannable, Entered, OperationFits, ViewOf, LoweringReady, R.Run,
         EndsAlike;
    ThreadTurn(ThreadHost(cfg, offsets, lane.id), items, homes, pc, p, fuel);
    ReadyPlannable(cfg, offsets, homes, plan, items, lane.id);
    fuel' := 0;
    if fuel > 0 {
      var lane', steps := ItemTurn(cfg, offsets, homes, plan, items, pc, p, lane);
      fuel' := steps;
      match R.Step(ThreadHost(cfg, offsets, lane.id), items, homes, pc, p) {
        case PNext(pc', p') =>
          var rest := LoweringSimulates(cfg, offsets, homes, plan, items, pc', p', lane', fuel - 1);
          fuel' := rest + steps;
        case PFault(m) =>
          FailAlike(m);
        case PDone(final) =>
          HaltAlike(final, lane);
      }
    }
  }

  // ----- from the lane back to the thread -----

  /** The operations fit however far the thread runs. */
  ghost predicate OperationsAlwaysFit(host: P.Host, items: seq<P.Item>, homes: R.Homes, pc: nat, p: R.Physical) {
    forall fuel: nat :: OperationsFit(host, items, homes, pc, p, fuel)
  }

  lemma OperationsFitOn(host: P.Host, items: seq<P.Item>, homes: R.Homes, pc: nat, p: R.Physical)
    requires OperationsAlwaysFit(host, items, homes, pc, p)
    ensures pc < |items| && items[pc].Code? ==> OperationFits(host, items[pc].inst, ViewOf(homes, p, items[pc].inst))
    ensures match R.Step(host, items, homes, pc, p)
            case PNext(pc', p') => OperationsAlwaysFit(host, items, homes, pc', p')
            case _ => true
  {
    hide R.Step, OperationFits, ViewOf;
    assert OperationsFit(host, items, homes, pc, p, 1);
    var step := R.Step(host, items, homes, pc, p);
    if step.PNext? {
      forall fuel: nat ensures OperationsFit(host, items, homes, step.pc, step.p, fuel) {
        assert OperationsFit(host, items, homes, pc, p, fuel + 1);
      }
    }
  }

  /** A run that has halted has made at least the steps after which it agrees with another. */
  lemma StepsSuffice(cfg: Config, code: seq<A.Inst>, s: nat, w: Warp, t: nat, w': Warp, steps: nat, n: nat)
    requires Run(cfg, code, s, w, n).Halted?
    requires forall k: nat :: Run(cfg, code, s, w, k + steps) == Run(cfg, code, t, w', k)
    ensures steps <= n && Run(cfg, code, t, w', n - steps) == Run(cfg, code, s, w, n)
  {
    NotHaltedAtOnce(cfg, code, t, w');
    assert Run(cfg, code, s, w, 0 + steps) == Run(cfg, code, t, w', 0);
    hide Run;
    var rest: nat := if n < steps then 0 else n - steps;
    assert Run(cfg, code, s, w, rest + steps) == Run(cfg, code, t, w', rest);
    if n < steps {
      MoreFuel(cfg, code, s, w, n, steps);
    }
  }

  lemma NotHaltedAtOnce(cfg: Config, code: seq<A.Inst>, s: nat, w: Warp)
    ensures !Run(cfg, code, s, w, 0).Halted?
  {
  }

  /** If the lane halts the thread does. */
  lemma {:induction false} HaltingReturns(cfg: Config, offsets: map<nat, nat>, homes: R.Homes, plan: Plan,
                                          items: seq<P.Item>, pc: nat, p: R.Physical, lane: Lane, n: nat)
                                            returns (fuel: nat)
    requires LoweringReady(cfg, offsets, homes, plan, items, lane.id) && Entered(plan, items, pc, lane)
    requires pc <= |items| && SlotRel(p, lane)
    requires OperationsAlwaysFit(ThreadHost(cfg, offsets, lane.id), items, homes, pc, p)
    requires Run(cfg, Program(homes, offsets, plan, items), Position(homes, offsets, plan, items, pc),
                 One(lane, p.gmem), n).Halted?
    ensures R.Run(ThreadHost(cfg, offsets, lane.id), items, homes, pc, p, fuel).PHalted?
    decreases n, |items| - pc
  {
    hide Program, Position, SlotRel, R.Step, Run, Plannable, Entered, OperationFits, ViewOf, LoweringReady, R.Run,
         OperationsAlwaysFit;
    ReadyPlannable(cfg, offsets, homes, plan, items, lane.id);
    OperationsFitOn(ThreadHost(cfg, offsets, lane.id), items, homes, pc, p);
    var lane', steps := ItemTurn(cfg, offsets, homes, plan, items, pc, p, lane);
    var code, s := Program(homes, offsets, plan, items), Position(homes, offsets, plan, items, pc);
    fuel := 1;
    match R.Step(ThreadHost(cfg, offsets, lane.id), items, homes, pc, p) {
      case PNext(pc', p') =>
        StepsSuffice(cfg, code, s, One(lane, p.gmem), Position(homes, offsets, plan, items, pc'), One(lane', p'.gmem),
                     steps, n);
        var rest := HaltingReturns(cfg, offsets, homes, plan, items, pc', p', lane', n - steps);
        fuel := rest + 1;
      case PFault(m) =>
        EndsOnce(cfg, code, s, One(lane, p.gmem), n, steps);
      case PDone(final) =>
    }
    ThreadTurn(ThreadHost(cfg, offsets, lane.id), items, homes, pc, p, fuel);
  }

  /** One turn of the thread's run, and what remains to be shown when its steps run out. */
  lemma ThreadTurn(host: P.Host, items: seq<P.Item>, homes: R.Homes, pc: nat, p: R.Physical, fuel: nat)
    ensures fuel == 0 ==> forall r' :: EndsAlike(R.Run(host, items, homes, pc, p, fuel), r')
    ensures fuel > 0 ==> R.Run(host, items, homes, pc, p, fuel) ==
                         match R.Step(host, items, homes, pc, p)
                         case PFault(m) => R.PFailed(m)
                         case PDone(final) => R.PHalted(final)
                         case PNext(pc', p') => R.Run(host, items, homes, pc', p', fuel - 1)
  {
    hide R.Step, SlotRel;
  }

  lemma FailAlike(memory: seq<Byte>)
    ensures EndsAlike(R.PFailed(memory), Failed(memory))
  {
  }

  lemma HaltAlike(p: R.Physical, lane: Lane)
    requires SlotRel(p, lane)
    ensures EndsAlike(R.PHalted(p), Halted(One(lane, p.gmem)))
  {
  }

  lemma ReadyPlannable(cfg: Config, offsets: map<nat, nat>, homes: R.Homes, plan: Plan, items: seq<P.Item>, id: LaneId)
    requires LoweringReady(cfg, offsets, homes, plan, items, id)
    ensures Plannable(homes, offsets, plan, items) && Legal(plan, items)
  {
  }

  /** The lane halts with the thread's slots and memory, or faults with the thread's memory. */
  ghost predicate EndsAlike(r: R.PhysicalResult, r': RunResult) {
    match r
    case PHalted(p) => r'.Halted? && |r'.warp.lanes| == 1 && SlotRel(p, r'.warp.lanes[0]) && r'.warp.gmem == p.gmem
    case PFailed(m) => r' == Failed(m)
    case POutOfSteps => true
  }

  lemma PastTheEnd(host: P.Host, cfg: Config, homes: R.Homes, offsets: map<nat, nat>, plan: Plan, items: seq<P.Item>,
                   pc: nat, p: R.Physical, lane: Lane)
    requires Plannable(homes, offsets, plan, items) && pc == |items|
    ensures R.Step(host, items, homes, pc, p) == R.PFault(p.gmem)
    ensures Run(cfg, Program(homes, offsets, plan, items), Position(homes, offsets, plan, items, pc), One(lane, p.gmem),
                0) == Failed(p.gmem)
  {
    PlannedLength(homes, offsets, plan, items, pc);
    hide Position, Planned;
  }

  lemma AtLabel(host: P.Host, homes: R.Homes, offsets: map<nat, nat>, plan: Plan, items: seq<P.Item>, pc: nat,
                p: R.Physical)
    requires Plannable(homes, offsets, plan, items) && pc < |items| && items[pc].Label?
    ensures R.Step(host, items, homes, pc, p) == R.PNext(pc + 1, p)
    ensures Position(homes, offsets, plan, items, pc + 1) == Position(homes, offsets, plan, items, pc)
  {
    SkippedCode(homes, offsets, plan, items, pc);
    PositionNext(homes, offsets, plan, items, pc);
    hide Position, ItemCode;
  }
}
