/** Every row of the documented lowering table is lowered, and to the documented instruction. */
module LoweringTable {
  import opened Wrappers
  import opened Allocator
  import opened Expansion
  import opened PtxMeaning
  import opened ControlPlan
  import opened IfConversion
  import opened LoweringEngine
  import opened CompiledKernel
  import C = CfgBuilder
  import P = Ptx
  import A = Isa
  import R = PhysicalRun

  // ----- the rows, by base, modifiers, type and operands -----

  predicate Named(inst: P.Inst, base: P.Base, mods: seq<P.Mod>, ty: P.Type) {
    inst.op == P.Opcode(base, mods, ty)
  }

  predicate IsSingle(r: P.Reg) {
    r.cls in {P.ClassR, P.ClassS, P.ClassB, P.ClassF, P.ClassH}
  }

  predicate Word(o: P.Operand) {
    (o.RegOp? && IsSingle(o.reg)) || o.IntImm? || o.FloatImm?
  }

  predicate Wide64(o: P.Operand) {
    (o.RegOp? && o.reg.cls in {P.ClassRd, P.ClassBd}) || o.IntImm?
  }

  predicate ToWord(os: seq<P.Operand>, n: nat) {
    |os| == n && n > 0 && os[0].RegOp? && IsSingle(os[0].reg)
  }

  predicate ToPair(os: seq<P.Operand>, n: nat) {
    |os| == n && n > 0 && os[0].RegOp? && os[0].reg.cls in {P.ClassRd, P.ClassBd}
  }

  predicate MoveRow(inst: P.Inst) {
    var os := inst.operands;
    || ((Named(inst, P.Mov, [], P.U32) || Named(inst, P.Mov, [], P.B32)) && ToWord(os, 2)
        && (os[1].Special? || Word(os[1])))
    || (Named(inst, P.Mov, [], P.U64) && ToPair(os, 2) && os[1].IntImm?)
  }

  predicate IntegerRow(inst: P.Inst) {
    && (Named(inst, P.Add, [], P.U32) || Named(inst, P.Sub, [], P.U32) || Named(inst, P.Mul, [P.Lo], P.U32))
    && ToWord(inst.operands, 3) && Word(inst.operands[1]) && Word(inst.operands[2])
  }

  predicate BitRow(inst: P.Inst) {
    && (|| Named(inst, P.And, [], P.B32) || Named(inst, P.Or, [], P.B32) || Named(inst, P.Xor, [], P.B32)
        || Named(inst, P.Shl, [], P.B32) || Named(inst, P.Shr, [], P.U32))
    && ToWord(inst.operands, 3) && Word(inst.operands[1]) && Word(inst.operands[2])
  }

  predicate FloatRow(inst: P.Inst) {
    && inst.op.base in {P.Add, P.Sub, P.Mul} && inst.op.mods in {[], [P.Rn]} && inst.op.ty == P.F32
    && ToWord(inst.operands, 3) && Word(inst.operands[1]) && Word(inst.operands[2])
  }

  predicate FusedRow(inst: P.Inst) {
    && (|| Named(inst, P.Mad, [P.Lo], P.U32) || Named(inst, P.Mad, [], P.F32) || Named(inst, P.Mad, [P.Rn], P.F32)
        || Named(inst, P.Fma, [P.Rn], P.F32))
    && ToWord(inst.operands, 4) && Word(inst.operands[1]) && Word(inst.operands[2]) && Word(inst.operands[3])
  }

  predicate PairRow(inst: P.Inst) {
    var os := inst.operands;
    || (Named(inst, P.Mul, [P.Wide], P.U32) && ToPair(os, 3) && Word(os[1]) && Word(os[2]))
    || (Named(inst, P.Add, [], P.U64) && ToPair(os, 3) && Wide64(os[1]) && Wide64(os[2]))
  }

  predicate CompareRow(inst: P.Inst) {
    && inst.op.base == P.Setp && |inst.op.mods| == 1 && inst.op.mods[0].Cmp? && inst.op.ty == P.U32
    && |inst.operands| == 3 && inst.operands[0].RegOp? && inst.operands[0].reg.cls == P.ClassP
    && inst.operands[0].reg.id < 8 && Word(inst.operands[1]) && Word(inst.operands[2])
  }

  predicate ControlRow(inst: P.Inst) {
    || (inst.op.base == P.Bra && |inst.operands| == 1 && inst.operands[0].Target?)
    || (inst.op.base == P.Ret && inst.operands == [] && inst.guard.None?)
  }

  predicate MemoryRow(offsets: map<nat, nat>, inst: P.Inst) {
    var op, os := inst.op, inst.operands;
    || (&& op.base == P.Ld && op.mods == [P.ParamSpace] && inst.guard.None?
        && ((op.ty in {P.U32, P.B32} && ToWord(os, 2)) || (op.ty in {P.U64, P.B64} && ToPair(os, 2)))
        && os[1].ParamAddr? && os[1].param in offsets)
    || (&& op.base == P.Ld && op.mods == [P.GlobalSpace] && op.ty in {P.F32, P.U32, P.B32} && ToWord(os, 2)
        && os[1].Addr? && os[1].reg.cls in {P.ClassRd, P.ClassBd})
    || (&& op.base == P.St && op.mods == [P.GlobalSpace] && op.ty in {P.F32, P.U32, P.B32} && |os| == 2
        && os[0].Addr? && os[0].reg.cls in {P.ClassRd, P.ClassBd} && os[1].RegOp? && IsSingle(os[1].reg))
  }

  predicate GuardFits(inst: P.Inst) {
    inst.guard.Some? ==> inst.guard.value.cls == P.ClassP && inst.guard.value.id < 8
  }

  /** A row of the table, under no guard or that of one of the eight predicates. */
  predicate Row(offsets: map<nat, nat>, inst: P.Inst) {
    && GuardFits(inst)
    && (|| MoveRow(inst) || IntegerRow(inst) || BitRow(inst) || FloatRow(inst) || FusedRow(inst) || PairRow(inst)
        || CompareRow(inst) || ControlRow(inst) || MemoryRow(offsets, inst))
  }

  lemma MoveLowered(offsets: map<nat, nat>, inst: P.Inst)
    requires GuardFits(inst) && MoveRow(inst)
    ensures Lowerable(offsets, inst) && InSubset(inst)
  {
  }

  lemma IntegerLowered(offsets: map<nat, nat>, inst: P.Inst)
    requires GuardFits(inst) && IntegerRow(inst)
    ensures Lowerable(offsets, inst) && InSubset(inst)
  {
  }

  lemma BitLowered(offsets: map<nat, nat>, inst: P.Inst)
    requires GuardFits(inst) && BitRow(inst)
    ensures Lowerable(offsets, inst) && InSubset(inst)
  {
  }

  lemma FloatLowered(offsets: map<nat, nat>, inst: P.Inst)
    requires GuardFits(inst) && FloatRow(inst)
    ensures Lowerable(offsets, inst) && InSubset(inst)
  {
  }

  lemma FusedLowered(offsets: map<nat, nat>, inst: P.Inst)
    requires GuardFits(inst) && FusedRow(inst)
    ensures Lowerable(offsets, inst) && InSubset(inst)
  {
  }

  lemma PairLowered(offsets: map<nat, nat>, inst: P.Inst)
    requires GuardFits(inst) && PairRow(inst)
    ensures Lowerable(offsets, inst) && InSubset(inst)
  {
  }

  lemma CompareLowered(offsets: map<nat, nat>, inst: P.Inst)
    requires GuardFits(inst) && CompareRow(inst)
    ensures Lowerable(offsets, inst) && InSubset(inst)
  {
  }

  lemma ControlLowered(offsets: map<nat, nat>, inst: P.Inst)
    requires GuardFits(inst) && ControlRow(inst)
    ensures Lowerable(offsets, inst) && InSubset(inst)
  {
  }

  lemma MemoryLowered(offsets: map<nat, nat>, inst: P.Inst)
    requires GuardFits(inst) && MemoryRow(offsets, inst)
    ensures Lowerable(offsets, inst) && InSubset(inst)
  {
  }

  /** Lowering refuses no row, and the theorems about compiled kernels cover all of them. */
  lemma RowsAreLowered(offsets: map<nat, nat>, inst: P.Inst)
    requires Row(offsets, inst)
    ensures Lowerable(offsets, inst) && InSubset(inst)
  {
    hide GuardFits, Lowerable, InSubset, MoveRow, IntegerRow, BitRow, FloatRow, FusedRow, PairRow, CompareRow,
         ControlRow, MemoryRow;
    if MoveRow(inst) {
      MoveLowered(offsets, inst);
    } else if IntegerRow(inst) {
      IntegerLowered(offsets, inst);
    } else if BitRow(inst) {
      BitLowered(offsets, inst);
    } else if FloatRow(inst) {
      FloatLowered(offsets, inst);
    } else if FusedRow(inst) {
      FusedLowered(offsets, inst);
    } else if PairRow(inst) {
      PairLowered(offsets, inst);
    } else if CompareRow(inst) {
      CompareLowered(offsets, inst);
    } else if ControlRow(inst) {
      ControlLowered(offsets, inst);
    } else {
      MemoryLowered(offsets, inst);
    }
  }

  // ----- types -----

  /** Which types have a name in the target. */
  lemma TypesExactly(ty: P.Type)
    ensures AecType(ty).None? <==> ty in {P.F64, P.U16, P.Untyped}
    ensures ty in {P.U64, P.B64} <==> AecType(ty) == Some(A.B64)
    ensures AecType(P.U32) == Some(A.U32) && AecType(P.B32) == Some(A.B32) && AecType(P.S32) == Some(A.S32)
    ensures AecType(P.F32) == Some(A.F32) && AecType(P.F16) == Some(A.F16) && AecType(P.PredType) == Some(A.NoType)
  {
  }

  /** A row is lowered at every other type of one register, too. */
  lemma RowsAtOtherTypes(offsets: map<nat, nat>, inst: P.Inst, ty: P.Type)
    requires Row(offsets, inst) && inst.op.ty !in {P.U64, P.B64} && ty in {P.U32, P.B32, P.S32, P.F32, P.F16}
    ensures Lowerable(offsets, inst.(op := inst.op.(ty := ty)))
  {
    hide Row;
    RowsAreLowered(offsets, inst);
  }

  // ----- what the rows become -----

  /** The code ends with this instruction, under the guard of the source. */
  predicate EndsWith(code: seq<A.Inst>, inst: P.Inst, op: A.Opcode, ty: A.DType) {
    && code != []
    && var last := code[|code| - 1];
       last.opcode == op && last.dtype == ty && (last.guard.Some? <==> inst.guard.Some?)
       && (inst.guard.Some? ==> last.guard.value == inst.guard.value.id && last.negated == inst.negated)
  }

  lemma LastOfMain(homes: R.Homes, offsets: map<nat, nat>, inst: P.Inst, op: A.Opcode, ty: A.DType)
    requires Lowerable(offsets, inst) && Needs(inst) <= homes.Keys && KindOf(inst) in {Fused, Binary}
    requires AluOpcode(inst.op.base) == Some(op) && AluType(inst) == ty
    ensures EndsWith(Expand(homes, offsets, inst), inst, op, ty)
  {
    ExpandSources(homes, offsets, inst);
    SourcesOf(offsets, inst);
    var os, rs := inst.operands, SourceRegs(homes, inst.operands[1..], FIRST_TEMP);
    MainIsOne(offsets, inst, homes[os[0].reg].base, rs, op, ty);
    hide Expand, MainCode, Preload, SourceRegs, Lowerable, KindOf, AluOpcode, AluType, Needs;
  }

  lemma MainIsOne(offsets: map<nat, nat>, inst: P.Inst, dest: nat, rs: seq<nat>, op: A.Opcode, ty: A.DType)
    requires Lowerable(offsets, inst) && KindOf(inst) in {Fused, Binary}
    requires |rs| == (if KindOf(inst) == Fused then 3 else 2)
    requires AluOpcode(inst.op.base) == Some(op) && AluType(inst) == ty
    ensures |MainCode(inst, dest, rs)| == 1 && EndsWith(MainCode(inst, dest, rs), inst, op, ty)
  {
  }

  /** What the lowerer looks up for these rows. */
  predicate LooksUp(inst: P.Inst, op: A.Opcode, ty: A.DType) {
    && KindOf(inst) in {Fused, Binary} && AluOpcode(inst.op.base) == Some(op) && AecType(inst.op.ty).Some?
    && AluType(inst) == ty
  }

  predicate IntegerLine(inst: P.Inst, op: A.Opcode) {
    var b := inst.op.base;
    IntegerRow(inst) && ((b == P.Add && op == A.ADD) || (b == P.Sub && op == A.SUB) || (b == P.Mul && op == A.MUL))
  }

  predicate BitLine(inst: P.Inst, op: A.Opcode) {
    var b := inst.op.base;
    BitRow(inst) && ((b == P.And && op == A.AND) || (b == P.Or && op == A.OR) || (b == P.Xor && op == A.XOR))
  }

  predicate ShiftLine(inst: P.Inst, op: A.Opcode) {
    BitRow(inst) && ((inst.op.base == P.Shl && op == A.SHL) || (inst.op.base == P.Shr && op == A.SHR))
  }

  predicate FloatLine(inst: P.Inst, op: A.Opcode) {
    var b := inst.op.base;
    || (FloatRow(inst) && ((b == P.Add && op == A.ADD) || (b == P.Sub && op == A.SUB) || (b == P.Mul && op == A.MUL)))
    || (FusedRow(inst) && inst.op.ty == P.F32 && ((b == P.Mad && op == A.MAD) || (b == P.Fma && op == A.FMA)))
  }

  predicate ProductLine(inst: P.Inst, op: A.Opcode) {
    FusedRow(inst) && inst.op.ty == P.U32 && op == A.MAD
  }

  /** Rows that become one AEC instruction behind the loads of their immediates, with that instruction and its type. */
  predicate Line(inst: P.Inst, op: A.Opcode, ty: A.DType) {
    || (ty == A.U32 && (IntegerLine(inst, op) || ShiftLine(inst, op) || ProductLine(inst, op)))
    || (ty == A.B32 && BitLine(inst, op)) || (ty == A.F32 && FloatLine(inst, op))
  }

  lemma IntegerLooksUp(inst: P.Inst, op: A.Opcode)
    requires IntegerLine(inst, op)
    ensures LooksUp(inst, op, A.U32)
    ensures IntegerRow(inst)
  {
  }

  lemma BitLooksUp(inst: P.Inst, op: A.Opcode)
    requires BitLine(inst, op)
    ensures LooksUp(inst, op, A.B32)
    ensures BitRow(inst)
  {
  }

  lemma ShiftLooksUp(inst: P.Inst, op: A.Opcode)
    requires ShiftLine(inst, op)
    ensures LooksUp(inst, op, A.U32)
    ensures BitRow(inst)
  {
  }

  lemma FloatLooksUp(inst: P.Inst, op: A.Opcode)
    requires FloatLine(inst, op)
    ensures LooksUp(inst, op, A.F32)
    ensures FloatRow(inst) || FusedRow(inst)
  {
  }

  lemma ProductLooksUp(inst: P.Inst, op: A.Opcode)
    requires ProductLine(inst, op)
    ensures LooksUp(inst, op, A.U32)
    ensures FusedRow(inst)
  {
  }

  lemma LineLooksUp(inst: P.Inst, op: A.Opcode, ty: A.DType)
    requires Line(inst, op, ty)
    ensures LooksUp(inst, op, ty)
    ensures IntegerRow(inst) || BitRow(inst) || FloatRow(inst) || FusedRow(inst)
  {
    hide IntegerLine, BitLine, ShiftLine, FloatLine, ProductLine, LooksUp, IntegerRow, BitRow, FloatRow, FusedRow;
    if BitLine(inst, op) && ty == A.B32 {
      BitLooksUp(inst, op);
    } else if FloatLine(inst, op) && ty == A.F32 {
      FloatLooksUp(inst, op);
    } else if IntegerLine(inst, op) {
      IntegerLooksUp(inst, op);
    } else if ShiftLine(inst, op) {
      ShiftLooksUp(inst, op);
    } else {
      ProductLooksUp(inst, op);
    }
  }

  lemma LookedUp(homes: R.Homes, offsets: map<nat, nat>, inst: P.Inst, op: A.Opcode, ty: A.DType)
    requires Lowerable(offsets, inst) && Needs(inst) <= homes.Keys && LooksUp(inst, op, ty)
    ensures EndsWith(Expand(homes, offsets, inst), inst, op, ty)
  {
    hide Lowerable, Needs, KindOf, AluOpcode, AluType, AecType, EndsWith, Expand;
    LastOfMain(homes, offsets, inst, op, ty);
  }

  /** They become that instruction. */
  lemma LinesBecome(homes: R.Homes, offsets: map<nat, nat>, inst: P.Inst, op: A.Opcode, ty: A.DType)
    requires GuardFits(inst) && Line(inst, op, ty) && Needs(inst) <= homes.Keys
    ensures Lowerable(offsets, inst) && EndsWith(Expand(homes, offsets, inst), inst, op, ty)
  {
    hide *;
    LineLooksUp(inst, op, ty);
    if IntegerRow(inst) {
      IntegerLowered(offsets, inst);
    } else if BitRow(inst) {
      BitLowered(offsets, inst);
    } else if FloatRow(inst) {
      FloatLowered(offsets, inst);
    } else {
      FusedLowered(offsets, inst);
    }
    LookedUp(homes, offsets, inst, op, ty);
  }

  // ----- whole kernels of the table -----

  predicate Tabled(offsets: map<nat, nat>, items: seq<P.Item>) {
    forall i | 0 <= i < |items| && items[i].Code? :: Row(offsets, items[i].inst)
  }

  predicate BranchesAway(item: P.Item) {
    item.Code? && item.inst.op.base == P.Bra && |item.inst.operands| == 1 && item.inst.operands[0].Target?
  }

  predicate TargetsLabelled(items: seq<P.Item>) {
    forall i | 0 <= i < |items| && BranchesAway(items[i]) :: P.Label(items[i].inst.operands[0].name) in items
  }

  /** A plan cannot fail where all guards are predicate registers. */
  lemma {:induction false} TablePlans(offsets: map<nat, nat>, items: seq<P.Item>, states: map<nat, BranchState>,
                                      slice: Slices, n: nat)
    requires Tabled(offsets, items) && n <= |items|
    ensures PlanUpTo(items, states, slice, n).Ok?
    decreases n
  {
    hide Row, Straight, NoConflict, Legalised;
    if n > 0 {
      TablePlans(offsets, items, states, slice, n - 1);
      if Straight(items, slice, n - 1) {
        StraightIsBranch(items, slice, n - 1);
        assert Row(offsets, items[n - 1].inst);
        GuardOfRow(offsets, items[n - 1].inst);
      }
    }
  }

  lemma GuardOfRow(offsets: map<nat, nat>, inst: P.Inst)
    requires Row(offsets, inst) && inst.guard.Some?
    ensures GoodPredicate(inst)
  {
  }

  /** A branch whose direction is known to be that of the warp, or to vary, is converted or may be emitted. */
  lemma {:induction false} KnownBranches(items: seq<P.Item>, states: map<nat, BranchState>, slice: Slices, n: nat,
                                         b: nat)
    requires n <= |items| && PlanUpTo(items, states, slice, n).Ok?
    requires b in states && (states[b] == Uniform || (states[b] == Varying && b < n))
    ensures var plan := PlanUpTo(items, states, slice, n).value; b in plan.skip || b in plan.emitted
    decreases n
  {
    hide Straight, NoConflict, GoodPredicate;
    if n > 0 && (states[b] == Uniform || b < n - 1) {
      KnownBranches(items, states, slice, n - 1, b);
    }
  }

  /**
   * A kernel of the table with distinct labels, existing targets and distinct block names is compiled, unless its
   * registers take more than there are or the direction of a guarded branch is not known.
   */
  lemma TableCompiles(e: CompileError, items: seq<P.Item>, offsets: map<nat, nat>, states: map<nat, BranchState>,
                      slice: Slices)
    requires Tabled(offsets, items) && Unfit(e, items, offsets, states, slice)
    requires C.DistinctLabels(items) && C.DistinctNames(items)
    requires TargetsLabelled(items)
    ensures e.NotLowered? && PlanUpTo(items, states, slice, |items|).Ok?
    ensures e.reason.Exhausted? || e.reason.UnprovenBranch?
    ensures e.reason.Exhausted? ==>
              && e.reason.error == OutOfRegisters
              && RegisterCost(NeededRegs(PlanUpTo(items, states, slice, |items|).value, items)) >= 238
    ensures e.reason.UnprovenBranch? ==>
              && e.reason.item < |items| && items[e.reason.item].Code?
              && items[e.reason.item].inst.op.base == P.Bra && items[e.reason.item].inst.guard.Some?
              && (e.reason.item in states ==> states[e.reason.item] == Unproven)
  {
    hide *;
    TablePlans(offsets, items, states, slice, |items|);
    TableTargets(offsets, items);
    UnfitParts(e, items, offsets, states, slice);
    var plan := PlanUpTo(items, states, slice, |items|).value;
    TableWidths(offsets, items, plan);
    TableRefusals(e.reason, offsets, items, plan);
    if e.reason.UnprovenBranch? && e.reason.item in states && states[e.reason.item] in {Uniform, Varying} {
      KnownBranches(items, states, slice, |items|, e.reason.item);
    }
  }

  lemma UnfitParts(e: CompileError, items: seq<P.Item>, offsets: map<nat, nat>, states: map<nat, BranchState>,
                   slice: Slices)
    requires Unfit(e, items, offsets, states, slice)
    requires C.DistinctLabels(items) && C.GoodBranches(items) && C.DistinctNames(items)
    requires PlanUpTo(items, states, slice, |items|).Ok?
    ensures e.NotLowered?
    ensures var plan := PlanUpTo(items, states, slice, |items|).value;
            && Refused(e.reason, offsets, plan, items)
            && (e.reason.Exhausted? && AllWellWidthed(plan, items) ==> RegisterCost(NeededRegs(plan, items)) >= 238)
  {
    hide C.DistinctLabels, C.GoodBranches, C.DistinctNames, PlanUpTo, Refused, AllWellWidthed, RegisterCost, NeededRegs;
  }

  lemma {:induction false} FindsLabel(items: seq<P.Item>, name: string, from: nat, j: nat)
    requires from <= j < |items| && items[j] == P.Label(name)
    ensures P.FindLabel(items, name, from).Some?
    decreases j - from
  {
    if from < j {
      FindsLabel(items, name, from + 1, j);
    }
  }

  lemma TableTargets(offsets: map<nat, nat>, items: seq<P.Item>)
    requires Tabled(offsets, items)
    requires TargetsLabelled(items)
    ensures C.GoodBranches(items)
    ensures forall i | 0 <= i < |items| && BranchesAway(items[i]) ::
              P.FindLabel(items, items[i].inst.operands[0].name, 0).Some?
  {
    hide Row;
    forall i | 0 <= i < |items| && C.IsBra(items[i])
      ensures C.HasTarget(items[i]) && exists j | 0 <= j < |items| :: items[j] == P.Label(C.TargetOf(items[i]))
    {
      assert Row(offsets, items[i].inst);
      BranchOfRow(offsets, items[i].inst);
    }
    forall i | 0 <= i < |items| && BranchesAway(items[i])
      ensures P.FindLabel(items, items[i].inst.operands[0].name, 0).Some?
    {
      var name := items[i].inst.operands[0].name;
      var j :| 0 <= j < |items| && items[j] == P.Label(name);
      FindsLabel(items, name, 0, j);
    }
  }

  lemma BranchOfRow(offsets: map<nat, nat>, inst: P.Inst)
    requires Row(offsets, inst) && inst.op.base == P.Bra
    ensures BranchesAway(P.Code(inst))
  {
  }

  lemma TableWidths(offsets: map<nat, nat>, items: seq<P.Item>, plan: Plan)
    requires Tabled(offsets, items)
    ensures AllWellWidthed(plan, items)
  {
    hide Row, WellWidthed, Lowerable, InSubset;
    forall i: nat | i < |items| && Emits(plan, items, i) ensures WellWidthed(items[i].inst) {
      RowsAreLowered(offsets, items[i].inst);
      SubsetIsWellWidthed(offsets, items[i].inst);
    }
  }

  lemma EmittedBranch(plan: Plan, items: seq<P.Item>, i: nat)
    requires i < |items| && EmitsBranch(plan, items, i)
    ensures items[i].Code? && items[i].inst.op.base == P.Bra
  {
  }

  lemma KnownTargets(name: string, offsets: map<nat, nat>, items: seq<P.Item>, plan: Plan)
    requires forall i | 0 <= i < |items| && BranchesAway(items[i]) ::
               P.FindLabel(items, items[i].inst.operands[0].name, 0).Some?
    ensures !Refused(UnknownTarget(name), offsets, plan, items)
  {
    hide Lowerable, P.FindLabel, EmitsBranch, Emits;
    forall i: nat | i < |items| && EmitsBranch(plan, items, i)
      ensures items[i].Code? && (items[i].inst.operands == [P.Target(name)] ==> P.FindLabel(items, name, 0).Some?)
    {
      EmittedBranch(plan, items, i);
      if items[i].inst.operands == [P.Target(name)] {
        assert BranchesAway(items[i]);
      }
    }
  }

  lemma TableRefusals(e: LowerError, offsets: map<nat, nat>, items: seq<P.Item>, plan: Plan)
    requires Tabled(offsets, items) && Refused(e, offsets, plan, items)
    requires forall i | 0 <= i < |items| && BranchesAway(items[i]) ::
               P.FindLabel(items, items[i].inst.operands[0].name, 0).Some?
    ensures !e.NotLowerable? && !e.UnknownTarget? && (e.Exhausted? ==> e.error == OutOfRegisters)
    ensures e.UnprovenBranch? ==>
              && e.item < |items| && items[e.item].Code? && items[e.item].inst.op.base == P.Bra
              && items[e.item].inst.guard.Some? && e.item !in plan.skip && e.item !in plan.emitted
  {
    hide Row, Lowerable;
    if e.NotLowerable? {
      RowsAreLowered(offsets, items[e.item].inst);
    } else if e.UnknownTarget? {
      KnownTargets(e.name, offsets, items, plan);
    }
  }
}
