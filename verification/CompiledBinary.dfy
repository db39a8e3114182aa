/** Compiled kernels can be written as binaries, and their binaries run as they do. */
module CompiledBinary {
  import opened Words
  import opened HalfWords
  import opened Allocator
  import opened Expansion
  import opened PtxMeaning
  import opened ControlPlan
  import opened IfConversion
  import opened LoweringStep
  import opened LoweringCorrect
  import opened LoweringEngine
  import opened CompiledKernel
  import opened Machine
  import opened Encoding
  import opened Binary
  import opened BinaryRun
  import P = Ptx
  import A = Isa
  import R = PhysicalRun
  import Dependence
  import S = Scheduler

  // ----- instructions the default profile can write -----

  /** Of the default profile, every field in its range and every shared field where it belongs. */
  predicate Writable(i: A.Inst) {
    && i.opcode in {A.ADD, A.SUB, A.MUL, A.MAD, A.FMA, A.AND, A.OR, A.XOR, A.SHL, A.SHR, A.CMPP, A.LD, A.ST, A.BR,
                    A.BRX, A.HALT, A.CPY, A.LOADI, A.LOADI64}
    && i.dtype in {A.B32, A.B64, A.U32, A.S32, A.F32, A.NoType}
    && i.dest < 256 && i.src1 < HALF && i.src2 < 256 && i.src3 < 256
    && (i.guard.Some? ==> i.guard.value < 8) && (i.negated || i.opcode == A.BRX ==> i.guard.Some?)
    && (i.compare.Some? <==> i.opcode == A.CMPP) && (i.space.Some? <==> i.opcode == A.LD || i.opcode == A.ST)
    && (i.opcode == A.BR || i.opcode == A.BRX ==> 0 <= i.imm < WORD)
  }

  lemma DefaultOffers()
    ensures forall op | op in C1Opcodes() :: op in C1Default().opcodes
    ensures forall ty | ty in C1Types() :: ty in C1Default().types
    ensures (forall s: A.Space :: s in C1Default().spaces) && forall c: A.Compare :: c in C1Default().compares
  {
    hide OpcodeNumber, TypeNumber, SpaceNumber, CompareNumber;
  }

  lemma WritableFields(i: A.Inst)
    requires Writable(i)
    ensures FieldsFit(i) && GuardAllowed(i) && i.opcode in C1Opcodes()
  {
    hide C1Opcodes;
    assert i.opcode in C1Opcodes() by {
      OfferedOpcodes(i.opcode);
    }
  }

  lemma OfferedOpcodes(op: A.Opcode)
    ensures op in C1Opcodes() <==> op in {A.ADD, A.SUB, A.MUL, A.MAD, A.FMA, A.AND, A.OR, A.XOR, A.SHL, A.SHR, A.CMPP,
                                          A.LD, A.ST, A.BR, A.BRX, A.HALT, A.CPY, A.LOADI, A.LOADI64}
  {
  }

  lemma WritableType(i: A.Inst)
    requires Writable(i)
    ensures EncodingType(i.opcode, i.dtype) in C1Types() && !IsCvt(i.opcode)
  {
  }

  lemma WritableFits(i: A.Inst)
    requires Writable(i)
    ensures FieldsFit(i) && Encodable(C1Default(), i)
  {
    DefaultOffers();
    WritableFields(i);
    WritableType(i);
    hide C1Default, C1Opcodes, C1Types, Writable, FieldsFit, GuardAllowed, EncodingType, IsCvt;
  }

  predicate AllWritable(code: seq<A.Inst>) {
    forall i | i in code :: Writable(i)
  }

  lemma GuardedWritable(inst: P.Inst, a: A.Inst)
    requires inst.guard.Some? ==> inst.guard.value.id < 8
    requires Writable(a) || (a == A.Inst(A.BRX) && inst.guard.Some?)
    ensures Writable(Guarded(inst, a))
  {
  }

  lemma {:induction false} PreloadWritable(sources: seq<P.Operand>, temp: nat)
    requires temp + |sources| <= 256 && forall k | 0 <= k < |sources| :: IsSource(sources[k])
    ensures AllWritable(Preload(sources, temp))
    decreases |sources|
  {
    if sources != [] {
      assert IsSource(sources[0]);
      PreloadWritable(sources[1..], if sources[0].RegOp? then temp else temp + 1);
    }
  }

  lemma {:induction false} SourcesInRange(homes: R.Homes, sources: seq<P.Operand>, temp: nat)
    requires temp + |sources| <= 256 && GoodHomes(homes) && FIRST_TEMP <= temp
    requires forall k | 0 <= k < |sources| :: IsSource(sources[k]) && Mentioned(sources[k]) <= homes.Keys
    ensures forall r | r in SourceRegs(homes, sources, temp) :: r < 256
    decreases |sources|
  {
    if sources != [] {
      if sources[0].RegOp? {
        assert sources[0].reg in Mentioned(sources[0]);
        SourcesInRange(homes, sources[1..], temp);
      } else {
        SourcesInRange(homes, sources[1..], temp + 1);
      }
    }
  }

  /** Registers of operands lie below the temporaries, the second half of a pair too. */
  lemma OperandInRange(homes: R.Homes, inst: P.Inst, k: nat)
    requires Needs(inst) <= homes.Keys && GoodHomes(homes)
    requires k < |inst.operands| && NeedsHome(inst.op.base, k) && (inst.operands[k].RegOp? || inst.operands[k].Addr?)
    ensures inst.operands[k].reg in homes
    ensures BaseOf(homes, inst.operands[k]) + Width(P.IsPair(inst.operands[k].reg)) <= FIRST_TEMP
  {
    SourcesHomed(homes, inst);
    assert inst.operands[k].reg in Mentioned(inst.operands[k]);
  }

  lemma AccessOperandsInRange(homes: R.Homes, inst: P.Inst)
    requires Needs(inst) <= homes.Keys && GoodHomes(homes) && |inst.operands| == 2
             && inst.op.base in {P.Ld, P.St, P.Mov}
    ensures forall k | 0 <= k < 2 && (inst.operands[k].RegOp? || inst.operands[k].Addr?) ::
              && inst.operands[k].reg in homes
              && homes[inst.operands[k].reg].base + Width(P.IsPair(inst.operands[k].reg)) <= 240
  {
    hide Needs, GoodHomes;
    forall k | 0 <= k < 2 && (inst.operands[k].RegOp? || inst.operands[k].Addr?)
      ensures && inst.operands[k].reg in homes
              && homes[inst.operands[k].reg].base + Width(P.IsPair(inst.operands[k].reg)) <= 240
    {
      OperandInRange(homes, inst, k);
    }
  }

  lemma ParamWritable(homes: R.Homes, offsets: map<nat, nat>, inst: P.Inst)
    requires Lowerable(offsets, inst) && InSubset(inst) && KindOf(inst) == LdParam
    requires Needs(inst) <= homes.Keys && GoodHomes(homes)
    ensures AllWritable(Expand(homes, offsets, inst))
  {
    AccessOperandsInRange(homes, inst);
    ParamCode(homes, offsets, inst);
    hide Expand, Needs, GoodHomes;
  }

  lemma GlobalWritable(homes: R.Homes, offsets: map<nat, nat>, inst: P.Inst)
    requires Lowerable(offsets, inst) && InSubset(inst) && KindOf(inst) in {LdGlobal, StGlobal}
    requires Needs(inst) <= homes.Keys && GoodHomes(homes)
    ensures AllWritable(Expand(homes, offsets, inst))
  {
    AccessOperandsInRange(homes, inst);
    if KindOf(inst) == LdGlobal {
      LoadCode(homes, offsets, inst);
    } else {
      StoreCode(homes, offsets, inst);
    }
    hide Expand, Needs, GoodHomes;
  }

  lemma MoveWritable(cfg: Config, homes: R.Homes, offsets: map<nat, nat>, inst: P.Inst, id: LaneId)
    requires Lowerable(offsets, inst) && InSubset(inst) && Provided(cfg, offsets, inst, id) && KindOf(inst) == Move
    requires Needs(inst) <= homes.Keys && GoodHomes(homes)
    ensures AllWritable(Expand(homes, offsets, inst))
  {
    AccessOperandsInRange(homes, inst);
    MoveCode(homes, offsets, inst);
    if inst.operands[1].Special? {
      SelectorInRange(inst.operands[1].selector, id);
    }
    hide Expand, Needs, GoodHomes, SpecialValue;
  }

  lemma SelectorInRange(selector: nat, id: LaneId)
    ensures SpecialValue(selector, id).Some? ==> selector < HALF
  {
  }

  lemma ControlWritable(homes: R.Homes, offsets: map<nat, nat>, inst: P.Inst)
    requires Lowerable(offsets, inst) && KindOf(inst) in {Branch, Return} && Needs(inst) <= homes.Keys
    ensures AllWritable(Expand(homes, offsets, inst))
  {
    ControlCode(homes, offsets, inst);
    hide Expand, Needs;
  }

  lemma AccessWritable(cfg: Config, homes: R.Homes, offsets: map<nat, nat>, inst: P.Inst, id: LaneId)
    requires Lowerable(offsets, inst) && InSubset(inst) && Provided(cfg, offsets, inst, id)
    requires Needs(inst) <= homes.Keys && GoodHomes(homes) && !FromSources(KindOf(inst))
    ensures AllWritable(Expand(homes, offsets, inst))
  {
    KindsCovered(offsets, inst);
    hide *;
    if KindOf(inst) == LdParam {
      ParamWritable(homes, offsets, inst);
    } else if KindOf(inst) == Move {
      MoveWritable(cfg, homes, offsets, inst, id);
    } else if KindOf(inst) in {Branch, Return} {
      ControlWritable(homes, offsets, inst);
    } else {
      GlobalWritable(homes, offsets, inst);
    }
  }

  lemma PairWritable(offsets: map<nat, nat>, inst: P.Inst, dest: nat, rs: seq<nat>)
    requires Lowerable(offsets, inst) && InSubset(inst) && KindOf(inst) in {WideMultiply, WideAdd} && |rs| == 2
    requires rs[0] < 256 && rs[1] < 256 && dest < 255
    ensures AllWritable(MainCode(inst, dest, rs))
  {
    GuardInRange(offsets, inst);
    AluWritable(inst, A.MUL, A.U32, dest, rs[0], rs[1], 0);
    AluWritable(inst, A.ADD, A.U32, dest, rs[0], rs[1], 0);
    GuardedWritable(inst, A.Inst(A.LOADI, A.U32, dest + 1));
    hide Lowerable, InSubset, KindOf, Writable, Guarded;
  }

  lemma GuardInRange(offsets: map<nat, nat>, inst: P.Inst)
    requires Lowerable(offsets, inst)
    ensures inst.guard.Some? ==> inst.guard.value.id < 8
  {
  }

  lemma AluFacts(offsets: map<nat, nat>, inst: P.Inst)
    requires Lowerable(offsets, inst) && InSubset(inst) && KindOf(inst) in {Fused, Binary}
    ensures AluOpcode(inst.op.base).Some? && AecType(inst.op.ty).Some?
    ensures AluOpcode(inst.op.base).value in {A.ADD, A.SUB, A.MUL, A.MAD, A.AND, A.OR, A.XOR, A.SHL, A.SHR, A.FMA}
    ensures AluType(inst) in {A.U32, A.B32, A.S32, A.F32} && (inst.guard.Some? ==> inst.guard.value.id < 8)
  {
  }

  lemma AluWritable(inst: P.Inst, op: A.Opcode, ty: A.DType, dest: nat, a: nat, b: nat, c: nat)
    requires op in {A.ADD, A.SUB, A.MUL, A.MAD, A.AND, A.OR, A.XOR, A.SHL, A.SHR, A.FMA}
    requires ty in {A.U32, A.B32, A.S32, A.F32} && (inst.guard.Some? ==> inst.guard.value.id < 8)
    requires a < 256 && b < 256 && c < 256 && dest < 256
    ensures Writable(Guarded(inst, A.Inst(op, ty, dest, a, b, c)))
  {
    GuardedWritable(inst, A.Inst(op, ty, dest, a, b, c));
    hide Guarded;
  }

  lemma BinaryWritable(offsets: map<nat, nat>, inst: P.Inst, dest: nat, rs: seq<nat>)
    requires Lowerable(offsets, inst) && InSubset(inst) && KindOf(inst) == Binary && |rs| == 2
    requires rs[0] < 256 && rs[1] < 256 && dest < 255
    ensures AllWritable(MainCode(inst, dest, rs))
  {
    AluFacts(offsets, inst);
    hide Lowerable, InSubset, KindOf, AluOpcode, AecType, AluType, Writable, Guarded;
    AluWritable(inst, AluOpcode(inst.op.base).value, AluType(inst), dest, rs[0], rs[1], 0);
  }

  lemma FusedWritable(offsets: map<nat, nat>, inst: P.Inst, dest: nat, rs: seq<nat>)
    requires Lowerable(offsets, inst) && InSubset(inst) && KindOf(inst) == Fused && |rs| == 3
    requires rs[0] < 256 && rs[1] < 256 && rs[2] < 256 && dest < 255
    ensures AllWritable(MainCode(inst, dest, rs))
  {
    AluFacts(offsets, inst);
    hide Lowerable, InSubset, KindOf, AluOpcode, AecType, AluType, Writable, Guarded;
    AluWritable(inst, AluOpcode(inst.op.base).value, AluType(inst), dest, rs[0], rs[1], rs[2]);
  }

  lemma ComparisonWritable(offsets: map<nat, nat>, inst: P.Inst, dest: nat, rs: seq<nat>)
    requires Lowerable(offsets, inst) && InSubset(inst) && KindOf(inst) == SetPredicate && |rs| == 2
    requires rs[0] < 256 && rs[1] < 256 && dest < 255
    ensures AllWritable(MainCode(inst, dest, rs))
  {
    hide AluOpcode;
  }

  lemma MainWritable(offsets: map<nat, nat>, inst: P.Inst, dest: nat, rs: seq<nat>)
    requires Lowerable(offsets, inst) && InSubset(inst) && FromSources(KindOf(inst))
    requires |rs| == (if KindOf(inst) == Fused then 3 else 2) && forall r | r in rs :: r < 256
    requires dest < 255
    ensures AllWritable(MainCode(inst, dest, rs))
  {
    assert forall k | 0 <= k < |rs| :: rs[k] in rs;
    hide Lowerable, InSubset, KindOf, MainCode, AllWritable;
    if KindOf(inst) == Fused {
      FusedWritable(offsets, inst, dest, rs);
    } else if KindOf(inst) in {WideMultiply, WideAdd} {
      PairWritable(offsets, inst, dest, rs);
    } else if KindOf(inst) == Binary {
      BinaryWritable(offsets, inst, dest, rs);
    } else {
      ComparisonWritable(offsets, inst, dest, rs);
    }
  }

  lemma BothWritable(a: seq<A.Inst>, b: seq<A.Inst>)
    requires AllWritable(a) && AllWritable(b)
    ensures AllWritable(a + b)
  {
    hide Writable;
  }

  /** The expansion of one instruction, its branch target still 0. */
  lemma ExpansionWritable(cfg: Config, homes: R.Homes, offsets: map<nat, nat>, inst: P.Inst, id: LaneId)
    requires Lowerable(offsets, inst) && InSubset(inst) && Provided(cfg, offsets, inst, id)
    requires Needs(inst) <= homes.Keys && GoodHomes(homes)
    ensures AllWritable(Expand(homes, offsets, inst))
  {
    if FromSources(KindOf(inst)) {
      ExpandSources(homes, offsets, inst);
      SourcesOf(offsets, inst);
      var os, rs := inst.operands, SourceRegs(homes, inst.operands[1..], FIRST_TEMP);
      var dest := if KindOf(inst) == SetPredicate then os[0].reg.id else homes[os[0].reg].base;
      DestinationInRange(homes, offsets, inst, dest);
      hide *;
      FirstTempIs();
      PreloadWritable(os[1..], FIRST_TEMP);
      SourcesInRange(homes, os[1..], FIRST_TEMP);
      MainWritable(offsets, inst, dest, rs);
      BothWritable(Preload(os[1..], FIRST_TEMP), MainCode(inst, dest, rs));
    } else {
      AccessWritable(cfg, homes, offsets, inst, id);
    }
  }

  lemma FirstTempIs()
    ensures FIRST_TEMP == 240
  {
  }

  lemma DestinationInRange(homes: R.Homes, offsets: map<nat, nat>, inst: P.Inst, dest: nat)
    requires Lowerable(offsets, inst) && FromSources(KindOf(inst)) && GoodHomes(homes)
    requires DestinationAt(homes, inst, dest)
    ensures dest < 255
  {
  }

  // ----- programs -----

  /** An instruction under the guard of its region. */
  lemma UnderGuardWritable(plan: Plan, i: nat, a: A.Inst)
    requires Writable(a) && (i in plan.guards ==> plan.guards[i].id < 8)
    ensures Writable(WithItemGuard(plan, i, a))
  {
  }

  /** The code of one item, its branch target still 0. */
  lemma UnpatchedWritable(cfg: Config, offsets: map<nat, nat>, homes: R.Homes, plan: Plan, items: seq<P.Item>, i: nat,
                          id: LaneId)
    requires Plannable(homes, offsets, plan, items) && i < |items| && Emits(plan, items, i) && GoodHomes(homes)
    requires Launchable(cfg, offsets, plan, items, id) && (i in plan.guards ==> plan.guards[i].id < 8)
    ensures FitsAt(homes, offsets, items[i].inst)
    ensures AllWritable(ItemUnpatched(homes, offsets, plan, items, i))
  {
    hide Expand, Lowerable, InSubset, Provided, Needs, Writable, WithItemGuard, GoodHomes;
    assert FitsAt(homes, offsets, items[i].inst);
    ExpansionWritable(cfg, homes, offsets, items[i].inst, id);
    var bare := Expand(homes, offsets, items[i].inst);
    forall a | a in ItemUnpatched(homes, offsets, plan, items, i) ensures Writable(a) {
      var k :| 0 <= k < |bare| && a == WithItemGuard(plan, i, bare[k]);
      assert bare[k] in bare;
      UnderGuardWritable(plan, i, bare[k]);
    }
  }

  lemma ItemWritable(cfg: Config, offsets: map<nat, nat>, homes: R.Homes, plan: Plan, items: seq<P.Item>, i: nat,
                     id: LaneId)
    requires Plannable(homes, offsets, plan, items) && i < |items| && GoodHomes(homes)
    requires Launchable(cfg, offsets, plan, items, id) && (i in plan.guards ==> plan.guards[i].id < 8)
    requires Position(homes, offsets, plan, items, |items|) < WORD
    ensures AllWritable(ItemCode(homes, offsets, plan, items, i))
  {
    hide Launchable, Writable, GoodHomes, FitsAt, TargetsExist, Expand;
    if Emits(plan, items, i) {
      UnpatchedWritable(cfg, offsets, homes, plan, items, i, id);
      if EmitsBranch(plan, items, i) {
        BranchFits(homes, offsets, plan, items, i);
        BranchIsOne(homes, offsets, plan, items, i);
        var target := P.FindLabel(items, items[i].inst.operands[0].name, 0).value;
        PositionGrows(homes, offsets, plan, items, target, |items|);
        PatchedWritable(ItemUnpatched(homes, offsets, plan, items, i)[0],
                        Position(homes, offsets, plan, items, target));
      } else {
        assert ItemCode(homes, offsets, plan, items, i) == ItemUnpatched(homes, offsets, plan, items, i);
      }
    }
  }

  lemma PatchedWritable(a: A.Inst, at: nat)
    requires Writable(a) && at < WORD
    ensures Writable(a.(imm := at))
  {
  }

  lemma PlannedNothing(homes: R.Homes, offsets: map<nat, nat>, plan: Plan, items: seq<P.Item>)
    requires Plannable(homes, offsets, plan, items)
    ensures TargetsExist(plan, items, 0) && AllWritable(Planned(homes, offsets, plan, items, 0))
  {
  }

  lemma {:induction false} PlannedWritable(cfg: Config, offsets: map<nat, nat>, homes: R.Homes, plan: Plan,
                                           items: seq<P.Item>, n: nat, id: LaneId)
    requires Plannable(homes, offsets, plan, items) && n <= |items| && GoodHomes(homes)
    requires Launchable(cfg, offsets, plan, items, id) && forall i | i in plan.guards :: plan.guards[i].id < 8
    requires Position(homes, offsets, plan, items, |items|) < WORD
    ensures TargetsExist(plan, items, n) && AllWritable(Planned(homes, offsets, plan, items, n))
    decreases n
  {
    hide *;
    PlannableTargets(homes, offsets, plan, items);
    PlannedLength(homes, offsets, plan, items, n);
    if n == 0 {
      PlannedNothing(homes, offsets, plan, items);
    } else {
      PlannedWritable(cfg, offsets, homes, plan, items, n - 1, id);
      ItemWritable(cfg, offsets, homes, plan, items, n - 1, id);
      PlannedLast(homes, offsets, plan, items, n - 1);
      BothWritable(Planned(homes, offsets, plan, items, n - 1), ItemCode(homes, offsets, plan, items, n - 1));
    }
  }

  lemma GuardsInRange(plan: Plan, items: seq<P.Item>)
    requires Legal(plan, items)
    ensures forall i | i in plan.guards :: plan.guards[i].id < 8
  {
    forall i | i in plan.guards ensures plan.guards[i].id < 8 {
      var b :| GuardedBy(plan, items, i, b);
      assert Converted(plan, items, b);
    }
  }

  /** A compiled kernel can be written as a binary of the default profile, if its targets are words. */
  lemma CompiledWritable(cfg: Config, l: Lowerer, states: map<nat, BranchState>, slice: Slices, id: LaneId)
    requires Compiled(cfg, l, states, slice) && Launchable(cfg, l.offsets, l.plan, l.items, id)
    requires |l.instructions| < WORD
    ensures AllWritable(l.instructions)
  {
    hide *;
    CompiledReady(cfg, l, states, slice, id);
    ReadyParts(cfg, l.offsets, l.Homes(), l.plan, l.items, id);
    GuardsInRange(l.plan, l.items);
    HomesInRange(cfg, l, states, slice, id);
    ProgramLength(l.Homes(), l.offsets, l.plan, l.items);
    PlannedWritable(cfg, l.offsets, l.Homes(), l.plan, l.items, |l.items|, id);
    ProgramIs(l.Homes(), l.offsets, l.plan, l.items);
  }

  lemma ReadyParts(cfg: Config, offsets: map<nat, nat>, homes: R.Homes, plan: Plan, items: seq<P.Item>, id: LaneId)
    requires LoweringReady(cfg, offsets, homes, plan, items, id)
    ensures Plannable(homes, offsets, plan, items) && Legal(plan, items)
  {
  }

  lemma ProgramIs(homes: R.Homes, offsets: map<nat, nat>, plan: Plan, items: seq<P.Item>)
    requires Plannable(homes, offsets, plan, items)
    ensures TargetsExist(plan, items, |items|)
    ensures Program(homes, offsets, plan, items) == Planned(homes, offsets, plan, items, |items|)
  {
  }

  lemma ProgramLength(homes: R.Homes, offsets: map<nat, nat>, plan: Plan, items: seq<P.Item>)
    requires Plannable(homes, offsets, plan, items)
    ensures |Program(homes, offsets, plan, items)| == Position(homes, offsets, plan, items, |items|)
  {
    hide *;
    ProgramIs(homes, offsets, plan, items);
    PlannedLength(homes, offsets, plan, items, |items|);
  }

  lemma HomesInRange(cfg: Config, l: Lowerer, states: map<nat, BranchState>, slice: Slices, id: LaneId)
    requires Compiled(cfg, l, states, slice) && Launchable(cfg, l.offsets, l.plan, l.items, id)
    ensures GoodHomes(l.Homes())
  {
    hide R.Unshared, CleanRegions, Legal, R.HomesOf, Planned, PlanUpTo, GoodHomes, Lowerable, InSubset, Needs, OpsTotal,
         WellWidthed, WidthsRight, IsLowered, Provided, NoInnerLoops;
    forall i: nat | i < |l.items| && Emits(l.plan, l.items, i) ensures WellWidthed(l.items[i].inst) {
      SubsetIsWellWidthed(l.offsets, l.items[i].inst);
    }
    HomesAreGood(l);
  }

  // ----- scheduling keeps what can be written -----

  /** The block an index lies in. */
  lemma {:induction false} BlockAround(program: seq<A.Inst>, j: nat, k: nat) returns (s: nat)
    requires k <= j < |program| && S.BlockEnd(program, k + 1) > j
    ensures S.IsLeader(program, s) && s <= j < S.BlockEnd(program, s + 1)
    decreases k
  {
    hide S.JumpsTo;
    if S.IsLeader(program, k) {
      s := k;
    } else {
      assert k > 0;
      s := BlockAround(program, j, k - 1);
    }
  }

  lemma BlockMembers(block: seq<A.Inst>, result: seq<A.Inst>, k: nat)
    requires S.BlockScheduled(block, result) && k < |result|
    ensures result[k] in block
  {
    hide Dependence.Greedy;
  }

  /** Every instruction of the scheduled program is one of the original. */
  lemma ScheduledMember(program: seq<A.Inst>, result: seq<A.Inst>, j: nat)
    requires S.Rescheduled(program, result) && j < |result|
    ensures result[j] in program
  {
    hide S.IsLeader, S.BlockScheduled, S.BlockEnd;
    var s := BlockAround(program, j, j);
    var e := S.BlockEnd(program, s + 1);
    assert S.BlockScheduled(program[s..e], result[s..e]);
    BlockMembers(program[s..e], result[s..e], j - s);
    assert result[s..e][j - s] == result[j];
    var k :| 0 <= k < |program[s..e]| && program[s..e][k] == result[j];
    assert program[s + k] == result[j];
  }

  // ----- the binary of a compiled kernel -----

  /**
   * The scheduled code of a compiled kernel can be written as a binary. Words with these bytes decode, all of them, and
   * what is decoded runs as the scheduled code does.
   */
  lemma CompiledBinaryRuns(cfg: Config, l: Lowerer, scheduled: seq<A.Inst>, states: map<nat, BranchState>,
                           slice: Slices, id: LaneId, words: seq<Quad>) returns (back: seq<A.Inst>)
    requires Compiled(cfg, l, states, slice) && Launchable(cfg, l.offsets, l.plan, l.items, id)
    requires S.Rescheduled(l.instructions, scheduled) && |l.instructions| < WORD
    ensures forall i | i in scheduled :: Encodable(C1Default(), i)
    ensures BinaryOf(C1Default(), scheduled, words) ==>
              && |words| == |scheduled| && DecodesTo(C1Default(), words, back)
              && forall w: Warp, fuel: nat :: Run(cfg, back, 0, w, fuel) == Run(cfg, scheduled, 0, w, fuel)
  {
    hide *;
    CompiledWritable(cfg, l, states, slice, id);
    forall j: nat | j < |scheduled| ensures scheduled[j] in l.instructions {
      ScheduledMember(l.instructions, scheduled, j);
    }
    ProfilesWellFormed();
    ScheduledWritable(l.instructions, scheduled);
    back := [];
    if BinaryOf(C1Default(), scheduled, words) {
      back := BinaryRuns(C1Default(), scheduled, words, cfg);
    }
  }

  lemma ScheduledWritable(program: seq<A.Inst>, scheduled: seq<A.Inst>)
    requires AllWritable(program) && forall i | i in scheduled :: i in program
    ensures forall i | i in scheduled :: FieldsFit(i) && Encodable(C1Default(), i)
  {
    hide Writable, FieldsFit, Encodable, C1Default;
    forall i | i in scheduled ensures FieldsFit(i) && Encodable(C1Default(), i) {
      assert Writable(i);
      WritableFits(i);
    }
  }
}
