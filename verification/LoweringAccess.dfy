/** Moves, comparisons and memory accesses: the expansion and the instruction have the same effect. */
module LoweringAccess {
  import opened Wrappers
  import opened Words
  import opened Allocator
  import opened Expansion
  import opened PtxMeaning
  import opened LoweringStep
  import opened LoweringKinds
  import opened Machine
  import opened Reorder
  import P = Ptx
  import A = Isa
  import R = PhysicalRun
  import Independence

  /** A single guarded instruction. */
  lemma ExecOnly(cfg: Config, a: A.Inst, w: Warp)
    ensures ExecSeq(cfg, [a], w) == Exec(cfg, a, w)
    ensures ExecSeq(cfg, [], w) == Running(w)
  {
    ExecCons(cfg, a, [], w);
    assert [a] + [] == [a];
    hide Exec;
  }

  lemma NoPreload(cfg: Config, lane: Lane, gmem: seq<Byte>)
    ensures ExecSeq(cfg, [], One(lane, gmem)) == Running(One(lane, gmem)) && TempsOnly(lane, lane)
  {
  }

  // ----- moves -----

  lemma OneSource(host: P.Host, inst: P.Inst, regs: P.Regs)
    requires P.FirstSource(inst) == 1 && |inst.operands| == 2
    ensures P.Sources(host, inst, regs) == [P.ValueOf(host, inst.op.ty, inst.operands[1], regs)]
  {
  }

  function MoveCode(homes: R.Homes, inst: P.Inst): A.Inst
    requires |inst.operands| == 2 && inst.operands[0].RegOp?
             && (inst.operands[1].Special? || IsSource(inst.operands[1]))
    requires Mentioned(inst.operands[0]) <= homes.Keys && Mentioned(inst.operands[1]) <= homes.Keys
             && AecType(inst.op.ty).Some?
  {
    var os := inst.operands;
    var dest := BaseOf(homes, os[0]);
    if os[1].Special? then A.Inst(A.CPY, A.U32, dest, os[1].selector)
    else if os[1].RegOp? then A.Inst(A.CPY, AecType(inst.op.ty).value, dest, BaseOf(homes, os[1]))
    else if Wide(inst.op.ty) then A.Inst(A.LOADI64, dest := dest, imm := ParseImmediate(os[1]).value)
    else LoadImmediate(dest, ParseImmediate(os[1]).value)
  }

  lemma MoveExpansion(homes: R.Homes, offsets: map<nat, nat>, inst: P.Inst)
    requires Lowerable(offsets, inst) && KindOf(inst) == Move && Needs(inst) <= homes.Keys
    ensures Mentioned(inst.operands[0]) <= homes.Keys && Mentioned(inst.operands[1]) <= homes.Keys
    ensures Expand(homes, offsets, inst) == [Guarded(inst, MoveCode(homes, inst))]
  {
    SourcesHomed(homes, inst);
  }

  lemma CopySingle(cfg: Config, a: A.Inst, lane: Lane, gmem: seq<Byte>)
    requires a.opcode == A.CPY && !IsWide(a.dtype) && a.dest < 256 && a.src1 < 256 && lane.regs[a.src1] < WORD
    ensures Execute(cfg, a, lane, gmem) == SetReg(a.dest, lane.regs[a.src1])
  {
  }

  lemma CopySpecial(cfg: Config, a: A.Inst, lane: Lane, gmem: seq<Byte>)
    requires a.opcode == A.CPY && !IsWide(a.dtype) && a.dest < 256 && SpecialValue(a.src1, lane.id).Some?
    ensures Execute(cfg, a, lane, gmem) == SetReg(a.dest, SpecialValue(a.src1, lane.id).value)
  {
  }

  lemma LoadsImmediate(cfg: Config, dest: nat, value: int, lane: Lane, gmem: seq<Byte>)
    requires dest < 256
    ensures Execute(cfg, LoadImmediate(dest, value), lane, gmem) == SetReg(dest, Mask32(value))
  {
  }

  lemma CopyPair(cfg: Config, a: A.Inst, lane: Lane, gmem: seq<Byte>)
    requires a.opcode == A.CPY && a.dtype == A.B64 && a.dest < 255 && a.src1 < 255 && a.src1 + 1 != a.dest
    requires lane.regs[a.src1] < WORD
    ensures Execute(cfg, a, lane, gmem) == SetPair(a.dest, lane.regs[a.src1], lane.regs[a.src1 + 1])
  {
  }

  lemma LoadsWide(cfg: Config, dest: nat, value: int, lane: Lane, gmem: seq<Byte>)
    requires dest < 255
    ensures Execute(cfg, A.Inst(A.LOADI64, dest := dest, imm := value), lane, gmem)
         == SetPair(dest, Mask32(value), Mask32(value / WORD))
  {
  }

  /** A single move computes the value of its source. */
  lemma SingleMove(cfg: Config, offsets: map<nat, nat>, homes: R.Homes, p: R.Physical, inst: P.Inst, lane: Lane)
    requires Ready(cfg, offsets, homes, inst, lane.id) && KindOf(inst) == Move && Single(inst.op.ty) && SlotRel(p, lane)
    requires Mentioned(inst.operands[0]) <= homes.Keys && Mentioned(inst.operands[1]) <= homes.Keys
    requires BaseOf(homes, inst.operands[0]) < FIRST_TEMP
    ensures var v := P.ValueOf(ThreadHost(cfg, offsets, lane.id), inst.op.ty, inst.operands[1],
                               ViewOf(homes, p, inst).regs);
            v < WORD && Execute(cfg, MoveCode(homes, inst), lane, p.gmem) == SetReg(BaseOf(homes, inst.operands[0]), v)
  {
    hide Execute, P.ReadRegisters, ViewOf, SlotRel, OpsTotal, SpecialValue, Mentioned;
    var os, host := inst.operands, ThreadHost(cfg, offsets, lane.id);
    if os[1].Special? {
      CopySpecial(cfg, MoveCode(homes, inst), lane, p.gmem);
    } else {
      SingleWorth(host, homes, p, lane, inst, 1);
      HeadWorth(homes, os[1], lane);
      if os[1].RegOp? {
        CopySingle(cfg, MoveCode(homes, inst), lane, p.gmem);
      } else {
        LoadsImmediate(cfg, BaseOf(homes, os[0]), ParseImmediate(os[1]).value, lane, p.gmem);
      }
    }
  }

  /** A pair as read off its two slots. */
  lemma PairRead(homes: R.Homes, p: R.Physical, inst: P.Inst, lane: Lane, r: P.Reg)
    requires SlotRel(p, lane) && GoodHomes(homes) && r in homes && P.IsPair(r)
    requires P.FirstSource(inst) == 1 && |inst.operands| == 2 && inst.operands[1] == P.RegOp(r)
    ensures var src, v := homes[r].base, P.Get(ViewOf(homes, p, inst).regs, r);
            && src + 1 < FIRST_TEMP && lane.regs[src] < WORD && v < WORD * WORD
            && v % WORD == lane.regs[src] && v / WORD == lane.regs[src + 1]
  {
    OperandRead(homes, p, inst, 1, r);
    var src := homes[r].base;
    assert lane.regs[src] == R.SlotAt(p.slots, src) < WORD && lane.regs[src + 1] == R.SlotAt(p.slots, src + 1) < WORD;
    LowHalf(lane.regs[src], lane.regs[src + 1]);
    hide P.ReadRegisters, ViewOf, SlotRel;
  }

  lemma ReadyWideMove(cfg: Config, offsets: map<nat, nat>, homes: R.Homes, inst: P.Inst, id: LaneId)
    requires Ready(cfg, offsets, homes, inst, id) && KindOf(inst) == Move && Wide(inst.op.ty)
    requires |inst.operands| == 2 && inst.operands[1].RegOp?
    ensures GoodHomes(homes) && P.FirstSource(inst) == 1 && inst.operands[0].RegOp?
    ensures AecType(inst.op.ty) == Some(A.B64)
    ensures P.IsPair(inst.operands[0].reg) && P.IsPair(inst.operands[1].reg)
  {
    hide P.ReadRegisters, Needs, GoodHomes, OpsTotal;
  }

  lemma EvenBases(homes: R.Homes, r: P.Reg, q: P.Reg)
    requires GoodHomes(homes) && r in homes && q in homes && P.IsPair(r) && P.IsPair(q)
    ensures homes[r].base + 1 != homes[q].base
  {
    assert homes[r].base % 2 == 0 && homes[q].base % 2 == 0;
  }

  lemma WideRegisterCode(homes: R.Homes, inst: P.Inst, r: P.Reg)
    requires |inst.operands| == 2 && inst.operands[0].RegOp? && inst.operands[1] == P.RegOp(r)
    requires Mentioned(inst.operands[0]) <= homes.Keys && Mentioned(inst.operands[1]) <= homes.Keys
    requires AecType(inst.op.ty) == Some(A.B64)
    ensures IsSource(inst.operands[1]) && r in homes && inst.operands[0].reg in homes && FIRST_TEMP < 255
    ensures BaseOf(homes, inst.operands[0]) == homes[inst.operands[0].reg].base
    ensures MoveCode(homes, inst) == A.Inst(A.CPY, A.B64, BaseOf(homes, inst.operands[0]), homes[r].base)
  {
    assert r in Mentioned(inst.operands[1]) && inst.operands[0].reg in Mentioned(inst.operands[0]);
  }

  predicate Halves(v: nat, low: nat, high: nat) {
    v < WORD * WORD && v % WORD == low && v / WORD == high
  }

  lemma PairHalves(homes: R.Homes, p: R.Physical, inst: P.Inst, lane: Lane, r: P.Reg)
    requires SlotRel(p, lane) && GoodHomes(homes) && r in homes && P.IsPair(r)
    requires P.FirstSource(inst) == 1 && |inst.operands| == 2 && inst.operands[1] == P.RegOp(r)
    ensures var src := homes[r].base;
            && src + 1 < FIRST_TEMP && lane.regs[src] < WORD
            && Halves(P.Get(ViewOf(homes, p, inst).regs, r), lane.regs[src], lane.regs[src + 1])
  {
    hide ViewOf, SlotRel, P.Get;
    PairRead(homes, p, inst, lane, r);
  }

  lemma SetsHalves(e: Effect, dest: nat, v: nat, low: nat, high: nat)
    requires Halves(v, low, high) && e == SetPair(dest, low, high)
    ensures v < WORD * WORD && e == SetPair(dest, v % WORD, v / WORD)
  {
  }

  lemma RegisterValue(host: P.Host, ty: P.Type, r: P.Reg, regs: P.Regs)
    ensures P.ValueOf(host, ty, P.RegOp(r), regs) == P.Get(regs, r)
  {
  }

  /** A wide copy writes both halves. */
  lemma WideRegisterMove(cfg: Config, offsets: map<nat, nat>, homes: R.Homes, p: R.Physical, inst: P.Inst, lane: Lane)
    requires |inst.operands| == 2 && inst.operands[0].RegOp? && inst.operands[1].RegOp? && AecType(inst.op.ty).Some?
    requires Ready(cfg, offsets, homes, inst, lane.id) && KindOf(inst) == Move && Wide(inst.op.ty) && SlotRel(p, lane)
    requires Mentioned(inst.operands[0]) <= homes.Keys && Mentioned(inst.operands[1]) <= homes.Keys
    requires inst.operands[0].reg in homes && BaseOf(homes, inst.operands[0]) + 1 < FIRST_TEMP
    ensures var v := P.ValueOf(ThreadHost(cfg, offsets, lane.id), inst.op.ty, inst.operands[1],
                               ViewOf(homes, p, inst).regs);
            v < WORD * WORD
            && Execute(cfg, MoveCode(homes, inst), lane, p.gmem)
                == SetPair(BaseOf(homes, inst.operands[0]), v % WORD, v / WORD)
  {
    var r, q := inst.operands[1].reg, inst.operands[0].reg;
    hide *;
    ReadyWideMove(cfg, offsets, homes, inst, lane.id);
    WideRegisterCode(homes, inst, r);
    EvenBases(homes, r, q);
    PairHalves(homes, p, inst, lane, r);
    RegisterValue(ThreadHost(cfg, offsets, lane.id), inst.op.ty, r, ViewOf(homes, p, inst).regs);
    CopyPair(cfg, MoveCode(homes, inst), lane, p.gmem);
    SetsHalves(Execute(cfg, MoveCode(homes, inst), lane, p.gmem), BaseOf(homes, inst.operands[0]),
               P.Get(ViewOf(homes, p, inst).regs, r), lane.regs[homes[r].base], lane.regs[homes[r].base + 1]);
  }

  lemma WideImmediateMove(cfg: Config, offsets: map<nat, nat>, homes: R.Homes, p: R.Physical, inst: P.Inst, lane: Lane)
    requires Ready(cfg, offsets, homes, inst, lane.id) && KindOf(inst) == Move && Wide(inst.op.ty) && SlotRel(p, lane)
    requires Mentioned(inst.operands[0]) <= homes.Keys && Mentioned(inst.operands[1]) <= homes.Keys
    requires inst.operands[0].reg in homes && BaseOf(homes, inst.operands[0]) + 1 < FIRST_TEMP
    requires inst.operands[1].IntImm?
    ensures var v := P.ValueOf(ThreadHost(cfg, offsets, lane.id), inst.op.ty, inst.operands[1],
                               ViewOf(homes, p, inst).regs);
            v < WORD * WORD
            && Execute(cfg, MoveCode(homes, inst), lane, p.gmem)
                == SetPair(BaseOf(homes, inst.operands[0]), v % WORD, v / WORD)
  {
    hide Execute, P.ReadRegisters, ViewOf, SlotRel, OpsTotal, Mask32;
    WideImmediateHalves(inst.operands[1].value);
    LoadsWide(cfg, BaseOf(homes, inst.operands[0]), inst.operands[1].value, lane, p.gmem);
  }

  lemma WideMove(cfg: Config, offsets: map<nat, nat>, homes: R.Homes, p: R.Physical, inst: P.Inst, lane: Lane)
    requires Ready(cfg, offsets, homes, inst, lane.id) && KindOf(inst) == Move && Wide(inst.op.ty) && SlotRel(p, lane)
    requires Mentioned(inst.operands[0]) <= homes.Keys && Mentioned(inst.operands[1]) <= homes.Keys
    requires inst.operands[0].reg in homes && BaseOf(homes, inst.operands[0]) + 1 < FIRST_TEMP
    ensures var v := P.ValueOf(ThreadHost(cfg, offsets, lane.id), inst.op.ty, inst.operands[1],
                               ViewOf(homes, p, inst).regs);
            v < WORD * WORD
            && Execute(cfg, MoveCode(homes, inst), lane, p.gmem)
                == SetPair(BaseOf(homes, inst.operands[0]), v % WORD, v / WORD)
  {
    assert inst.operands[1].RegOp? || inst.operands[1].IntImm?;
    hide Execute, ViewOf, SlotRel, Ready, P.ValueOf, MoveCode, BaseOf, KindOf, Wide, Mentioned;
    if inst.operands[1].RegOp? {
      WideRegisterMove(cfg, offsets, homes, p, inst, lane);
    } else {
      WideImmediateMove(cfg, offsets, homes, p, inst, lane);
    }
  }

  lemma WideImmediateHalves(v: int)
    ensures var w := v % (WORD * WORD); 0 <= w < WORD * WORD && w % WORD == Mask32(v) && w / WORD == Mask32(v / WORD)
  {
    var w, q := v % (WORD * WORD), v / (WORD * WORD);
    NarrowImmediate(v);
    assert v == q * WORD * WORD + w;
    DivideShifted(v, w, q * WORD);
    SameRemainder(v / WORD, w / WORD, q);
    assert w / WORD < WORD;
  }

  lemma DivideShifted(x: int, y: int, k: int)
    requires x == k * WORD + y
    ensures x / WORD == k + y / WORD
  {
  }

  /** The common end of expansions that set a pair at once. */
  lemma PairSet(cfg: Config, homes: R.Homes, p: R.Physical, inst: P.Inst, a: A.Inst, lane: Lane, r: P.Reg, v: nat)
    requires SlotRel(p, lane) && GoodHomes(homes) && r in homes && P.IsPair(r) && v < WORD * WORD
    requires (inst.guard.Some? ==> inst.guard.value.id < 8) && a.guard == None
    requires GuardOn(inst, lane) ==> Execute(cfg, a, lane, p.gmem) == SetPair(homes[r].base, v % WORD, v / WORD)
    ensures var o := ExecSeq(cfg, [Guarded(inst, a)], One(lane, p.gmem));
            if GuardOn(inst, lane) then RunningRel(R.WriteReg(homes, p, r, v), o, lane.id)
                else RunningRel(p, o, lane.id)
  {
    hide ExecSeq, Exec, Execute, R.WriteReg, SlotRel, Guarded;
    RelPair(homes, p, lane, r, v);
    ExecOnly(cfg, Guarded(inst, a), One(lane, p.gmem));
    GuardedExec(cfg, inst, a, lane, p.gmem);
    WrittenMemory(homes, p, r, v);
  }

  lemma MoveMatches(cfg: Config, offsets: map<nat, nat>, homes: R.Homes, p: R.Physical, inst: P.Inst, lane: Lane)
    requires Ready(cfg, offsets, homes, inst, lane.id) && KindOf(inst) == Move && SlotRel(p, lane)
    ensures Matches(homes, p, EffectOf(cfg, offsets, homes, p, inst, lane.id),
                    ExecSeq(cfg, Expand(homes, offsets, inst), One(lane, p.gmem)), lane.id)
  {
    hide ExecSeq, Execute, SlotRel, R.WriteReg, P.GuardedEffect, ViewOf, P.ReadRegisters, P.GuardHolds, GuardOn,
         Guarded, Expand, P.Sources, P.ValueOf, RunningRel, TempsOnly, OpsTotal, Mentioned, MoveCode;
    var os, host, view := inst.operands, ThreadHost(cfg, offsets, lane.id), ViewOf(homes, p, inst);
    ArithmeticEffect(host, inst, view);
    GuardAgrees(homes, p, lane, inst);
    MoveExpansion(homes, offsets, inst);
    DestHome(homes, inst);
    OneSource(host, inst, view.regs);
    NoPreload(cfg, lane, p.gmem);
    var v := P.ValueOf(host, inst.op.ty, os[1], view.regs);
    MoveCodeUnguarded(homes, inst);
    assert [] + [Guarded(inst, MoveCode(homes, inst))] == [Guarded(inst, MoveCode(homes, inst))];
    if Single(inst.op.ty) {
      SingleMove(cfg, offsets, homes, p, inst, lane);
      assert Eval(cfg.ops, inst.op, [v]) == v;
      SingleWritten(cfg, homes, p, inst, [], MoveCode(homes, inst), lane, lane, os[0].reg, v);
    } else {
      WideMove(cfg, offsets, homes, p, inst, lane);
      assert Eval(cfg.ops, inst.op, [v]) == v;
      PairSet(cfg, homes, p, inst, MoveCode(homes, inst), lane, os[0].reg, v);
    }
  }

  lemma MoveCodeUnguarded(homes: R.Homes, inst: P.Inst)
    requires |inst.operands| == 2 && inst.operands[0].RegOp?
             && (inst.operands[1].Special? || IsSource(inst.operands[1]))
    requires Mentioned(inst.operands[0]) <= homes.Keys && Mentioned(inst.operands[1]) <= homes.Keys
             && AecType(inst.op.ty).Some?
    ensures MoveCode(homes, inst).guard == None
  {
  }

  // ----- comparisons -----

  lemma SetpEffect(host: P.Host, inst: P.Inst, s: P.State)
    requires KindOf(inst) == SetPredicate && |inst.operands| == 3 && inst.operands[0].RegOp?
    ensures P.FirstSource(inst) == 1
    ensures var os, ty := inst.operands, inst.op.ty;
            P.GuardedEffect(host, inst, s) ==
            if !P.GuardHolds(inst, s.regs) then P.Nothing
            else P.Write(os[0].reg, if host.compare(inst.op, P.ValueOf(host, ty, os[1], s.regs),
                                                    P.ValueOf(host, ty, os[2], s.regs))
                                    then 1 else 0)
  {
    TwoSources(host, inst, s.regs);
  }

  lemma SetpExpansion(homes: R.Homes, offsets: map<nat, nat>, inst: P.Inst) returns (pre: seq<A.Inst>, main: A.Inst)
    requires Lowerable(offsets, inst) && KindOf(inst) == SetPredicate && Needs(inst) <= homes.Keys && GoodHomes(homes)
    ensures forall k | 0 <= k < |inst.operands[1..]| ::
              IsSource(inst.operands[1..][k]) && Mentioned(inst.operands[1..][k]) <= homes.Keys
    ensures Expand(homes, offsets, inst) == pre + [Guarded(inst, main)]
            && pre == Preload(inst.operands[1..], FIRST_TEMP)
    ensures var rs := SourceRegs(homes, inst.operands[1..], FIRST_TEMP);
            main == A.Inst(A.CMPP, AecType(inst.op.ty).value, inst.operands[0].reg.id, rs[0], rs[1],
                           compare := Some(inst.op.mods[0].op))
  {
    hide Guarded, Preload, SourceRegs;
    SourcesHomed(homes, inst);
    var os := inst.operands;
    assert os[1..][0] == os[1] && os[1..][1] == os[2];
    pre := Preload(os[1..], FIRST_TEMP);
    var rs := SourceRegs(homes, os[1..], FIRST_TEMP);
    main := A.Inst(A.CMPP, AecType(inst.op.ty).value, os[0].reg.id, rs[0], rs[1], compare := Some(inst.op.mods[0].op));
  }

  /** The machine's comparison is PTX's exactly if it fits. */
  lemma CompareExactly(ops: F32Ops, op: P.Opcode, dtype: A.DType, a: nat, b: nat)
    requires |op.mods| == 1 && op.mods[0].Cmp? && op.base == P.Setp && a < WORD && b < WORD
    requires AecType(op.ty) == Some(dtype) && (op.ty == P.U32 || op.ty == P.S32 || op.ty == P.F32)
    ensures (CompareWords(ops, op.mods[0].op, dtype, a, b) <==> CompareValues(ops, op, a, b)) <==> CompareFits(op, a, b)
  {
  }

  lemma SetpExecutes(cfg: Config, inst: P.Inst, main: A.Inst, lane: Lane, gmem: seq<Byte>, a: nat, b: nat)
    requires main.opcode == A.CMPP && main.dest < 8 && main.src1 < 256 && main.src2 < 256
    requires lane.regs[main.src1] == a && lane.regs[main.src2] == b && main.compare.Some?
    ensures Execute(cfg, main, lane, gmem)
         == SetPred(main.dest, CompareWords(cfg.ops, main.compare.value, main.dtype, a, b))
  {
    hide CompareWords;
  }

  lemma PredicateWritten(cfg: Config, homes: R.Homes, p: R.Physical, inst: P.Inst, pre: seq<A.Inst>, a: A.Inst,
                         lane: Lane, lane': Lane, r: P.Reg, flag: bool)
    requires SlotRel(p, lane) && P.IsPredicate(r) && r.id < 8
    requires (inst.guard.Some? ==> inst.guard.value.id < 8) && a.guard == None
    requires ExecSeq(cfg, pre, One(lane, p.gmem)) == Running(One(lane', p.gmem)) && TempsOnly(lane, lane')
    requires GuardOn(inst, lane) ==> Execute(cfg, a, lane', p.gmem) == SetPred(r.id, flag)
    ensures var o := ExecSeq(cfg, pre + [Guarded(inst, a)], One(lane, p.gmem));
            if GuardOn(inst, lane) then RunningRel(R.WriteReg(homes, p, r, if flag then 1 else 0), o, lane.id)
            else RunningRel(p, o, lane.id)
  {
    hide ExecSeq, Exec, Execute, R.WriteReg, SlotRel, Guarded;
    RelTemps(p, lane, lane');
    ExecLast(cfg, pre, Guarded(inst, a), One(lane, p.gmem), One(lane', p.gmem));
    GuardedExec(cfg, inst, a, lane', p.gmem);
    if GuardOn(inst, lane) {
      RelPredicate(homes, p, lane', r.id, flag);
      WrittenMemory(homes, p, r, if flag then 1 else 0);
    }
  }

  lemma ReadySetp(cfg: Config, offsets: map<nat, nat>, homes: R.Homes, inst: P.Inst, id: LaneId)
    requires Ready(cfg, offsets, homes, inst, id) && KindOf(inst) == SetPredicate
    ensures Lowerable(offsets, inst) && Needs(inst) <= homes.Keys && GoodHomes(homes) && FIRST_TEMP < 256
    ensures inst.op.base == P.Setp && |inst.operands| == 3 && inst.operands[0].RegOp?
    ensures P.IsPredicate(inst.operands[0].reg) && inst.operands[0].reg.id < 8 && P.FirstSource(inst) == 1
    ensures SingleSource(inst.operands[1]) && SingleSource(inst.operands[2])
    ensures IsSource(inst.operands[1]) && IsSource(inst.operands[2])
    ensures |inst.op.mods| == 1 && inst.op.mods[0].Cmp? && AecType(inst.op.ty).Some? && Single(inst.op.ty)
    ensures inst.op.ty == P.U32 || inst.op.ty == P.S32 || inst.op.ty == P.F32
    ensures inst.guard.Some? ==> P.IsPredicate(inst.guard.value) && inst.guard.value.id < 8
  {
    hide P.ReadRegisters, Needs, GoodHomes, OpsTotal;
  }

  /** What a predicate register holds tells which flag was written to it. */
  lemma WrittenFlagKnown(homes: R.Homes, p: R.Physical, r: P.Reg, flag: bool, meant: bool, o: Outcome, id: LaneId)
    requires P.IsPredicate(r) && r.id < 8 && RunningRel(R.WriteReg(homes, p, r, if flag then 1 else 0), o, id)
    ensures RunningRel(R.WriteReg(homes, p, r, if meant then 1 else 0), o, id) <==> (flag <==> meant)
  {
    assert r == P.Reg(P.ClassP, r.id);
    if RunningRel(R.WriteReg(homes, p, r, if meant then 1 else 0), o, id) {
      assert o.warp.lanes[0].preds[r.id] <==> flag;
      assert o.warp.lanes[0].preds[r.id] <==> meant;
    }
  }

  lemma FlagMatches(homes: R.Homes, p: R.Physical, on: bool, r: P.Reg, flag: bool, meant: bool, o: Outcome, id: LaneId)
    requires P.IsPredicate(r) && r.id < 8
    requires if on then RunningRel(R.WriteReg(homes, p, r, if flag then 1 else 0), o, id) else RunningRel(p, o, id)
    ensures Matches(homes, p, if on then P.Write(r, if meant then 1 else 0) else P.Nothing, o, id)
       <==> (on ==> (flag <==> meant))
  {
    hide RunningRel, R.WriteReg;
    if on {
      WrittenFlagKnown(homes, p, r, flag, meant, o, id);
    }
  }

  lemma HostCompares(cfg: Config, offsets: map<nat, nat>, id: LaneId, op: P.Opcode, a: nat, b: nat)
    ensures ThreadHost(cfg, offsets, id).compare(op, a, b) <==> CompareValues(cfg.ops, op, a, b)
  {
  }

  /** The expansion sets the predicate to the PTX outcome exactly if the comparison fits, whatever the state. */
  lemma SetPredicateMatches(cfg: Config, offsets: map<nat, nat>, homes: R.Homes, p: R.Physical, inst: P.Inst,
                            lane: Lane)
    requires Ready(cfg, offsets, homes, inst, lane.id) && KindOf(inst) == SetPredicate && SlotRel(p, lane)
    ensures Matches(homes, p, EffectOf(cfg, offsets, homes, p, inst, lane.id),
                    ExecSeq(cfg, Expand(homes, offsets, inst), One(lane, p.gmem)), lane.id)
       <==> OperationFits(ThreadHost(cfg, offsets, lane.id), inst, ViewOf(homes, p, inst))
  {
    hide *;
    ReadySetp(cfg, offsets, homes, inst, lane.id);
    var os, host, view := inst.operands, ThreadHost(cfg, offsets, lane.id), ViewOf(homes, p, inst);
    SetpEffect(host, inst, view);
    GuardAgrees(homes, p, lane, inst);
    var lane' := PrepareTwo(cfg, homes, inst, lane, p.gmem);
    TwoWorths(host, homes, p, lane, inst);
    TwoSources(host, inst, view.regs);
    var a, b := Worth(homes, os[1], lane), Worth(homes, os[2], lane);
    var pre, main := SetpExpansion(homes, offsets, inst);
    SetpExecutes(cfg, inst, main, lane', p.gmem, a, b);
    var flag := CompareWords(cfg.ops, inst.op.mods[0].op, main.dtype, a, b);
    PredicateWritten(cfg, homes, p, inst, pre, main, lane, lane', os[0].reg, flag);
    CompareExactly(cfg.ops, inst.op, main.dtype, a, b);
    HostCompares(cfg, offsets, lane.id, inst.op, a, b);
    TwoFit(host, inst, view, a, b);
    EffectIs(cfg, offsets, homes, p, inst, lane.id);
    FlagMatches(homes, p, GuardOn(inst, lane), os[0].reg, flag, CompareValues(cfg.ops, inst.op, a, b),
                ExecSeq(cfg, Expand(homes, offsets, inst), One(lane, p.gmem)), lane.id);
  }

  // ----- global memory -----

  lemma FourBytesAreWord(blob: seq<Byte>)
    requires |blob| == 4
    ensures FromBytes(blob) < WORD
  {
    assert FromBytes(blob) == blob[0] + 256 * FromBytes(blob[1..]);
    assert FromBytes(blob[1..]) == blob[1] + 256 * FromBytes(blob[2..]);
    assert blob[1..][1..] == blob[2..] && blob[2..][1..] == blob[3..] && blob[3..][1..] == blob[4..];
    assert FromBytes(blob[2..]) == blob[2] + 256 * FromBytes(blob[3..]);
    assert FromBytes(blob[3..]) == blob[3] + 256 * FromBytes(blob[4..]);
  }

  /** The address register holds the low half of the pair, which is the address. */
  lemma AddressHeld(homes: R.Homes, p: R.Physical, inst: P.Inst, lane: Lane, k: nat)
    requires SlotRel(p, lane) && GoodHomes(homes) && P.FirstSource(inst) <= k < |inst.operands|
    requires inst.operands[k].Addr? && P.IsPair(inst.operands[k].reg) && Mentioned(inst.operands[k]) <= homes.Keys
    ensures var base := BaseOf(homes, inst.operands[k]);
            base < FIRST_TEMP && Mask32(lane.regs[base]) == P.Get(ViewOf(homes, p, inst).regs,
                                                                  inst.operands[k].reg) % WORD
  {
    var r := inst.operands[k].reg;
    assert r in Mentioned(inst.operands[k]);
    OperandRead(homes, p, inst, k, r);
    var base := homes[r].base;
    assert lane.regs[base] == R.SlotAt(p.slots, base) < WORD;
    LowHalf(R.SlotAt(p.slots, base), R.SlotAt(p.slots, base + 1));
    hide P.ReadRegisters, ViewOf, SlotRel;
  }

  lemma SingleSize(ty: P.Type)
    requires Single(ty)
    ensures AecType(ty).Some? && TypeSize(AecType(ty).value) == Some(4) && P.SizeOf(ty) == 4
            && AecType(ty).value != A.B64
  {
  }

  lemma LoadExecutes(cfg: Config, a: A.Inst, lane: Lane, gmem: seq<Byte>)
    requires a.opcode == A.LD && a.space == Some(A.Gmem) && a.dest < 256 && a.src1 < 256
    requires TypeSize(a.dtype) == Some(4) && a.dtype != A.B64
    ensures var address := Mask32(lane.regs[a.src1]);
            Execute(cfg, a, lane, gmem) ==
            if address + 4 > |gmem| then Trap else SetReg(a.dest, FromBytes(gmem[address..address + 4]))
  {
    hide FromBytes, Mask32;
  }

  lemma LoadEffectIs(host: P.Host, inst: P.Inst, s: P.State)
    requires KindOf(inst) == LdGlobal && |inst.operands| == 2 && inst.operands[0].RegOp? && inst.operands[1].Addr?
             && Single(inst.op.ty)
    ensures P.FirstSource(inst) == 1
    ensures var address := P.Get(s.regs, inst.operands[1].reg) % WORD;
            P.GuardedEffect(host, inst, s) ==
            if !P.GuardHolds(inst, s.regs) then P.Nothing
            else if address + 4 > |s.gmem| then P.Failure
            else P.Write(inst.operands[0].reg, FromBytes(s.gmem[address..address + 4]))
  {
    hide FromBytes, P.GuardHolds;
  }

  lemma LoadExpansion(homes: R.Homes, offsets: map<nat, nat>, inst: P.Inst) returns (a: A.Inst)
    requires Lowerable(offsets, inst) && KindOf(inst) == LdGlobal && Needs(inst) <= homes.Keys
    ensures Mentioned(inst.operands[0]) <= homes.Keys && Mentioned(inst.operands[1]) <= homes.Keys
    ensures Expand(homes, offsets, inst) == [Guarded(inst, a)]
    ensures a == A.Inst(A.LD, AecType(inst.op.ty).value, BaseOf(homes, inst.operands[0]),
                        BaseOf(homes, inst.operands[1]), space := Some(A.Gmem))
  {
    SourcesHomed(homes, inst);
    a := A.Inst(A.LD, AecType(inst.op.ty).value, BaseOf(homes, inst.operands[0]), BaseOf(homes, inst.operands[1]),
                space := Some(A.Gmem));
  }

  lemma TrapsAlone(cfg: Config, inst: P.Inst, a: A.Inst, lane: Lane, gmem: seq<Byte>)
    requires (inst.guard.Some? ==> inst.guard.value.id < 8) && a.guard == None
    requires GuardOn(inst, lane) && Execute(cfg, a, lane, gmem) == Trap
    ensures ExecSeq(cfg, [Guarded(inst, a)], One(lane, gmem)) == Fault(gmem)
  {
    hide ExecSeq, Exec, Execute, Guarded;
    ExecOnly(cfg, Guarded(inst, a), One(lane, gmem));
    GuardedExec(cfg, inst, a, lane, gmem);
  }

  lemma LdGlobalMatches(cfg: Config, offsets: map<nat, nat>, homes: R.Homes, p: R.Physical, inst: P.Inst, lane: Lane)
    requires Ready(cfg, offsets, homes, inst, lane.id) && KindOf(inst) == LdGlobal && SlotRel(p, lane)
    ensures Matches(homes, p, EffectOf(cfg, offsets, homes, p, inst, lane.id),
                    ExecSeq(cfg, Expand(homes, offsets, inst), One(lane, p.gmem)), lane.id)
  {
    hide ExecSeq, Execute, SlotRel, R.WriteReg, P.GuardedEffect, P.ReadRegisters, P.GuardHolds, GuardOn, Guarded,
         Expand, RunningRel, TempsOnly, OpsTotal, Mentioned, FromBytes, Mask32, R.Read;
    var os, host, view := inst.operands, ThreadHost(cfg, offsets, lane.id), ViewOf(homes, p, inst);
    LoadEffectIs(host, inst, view);
    GuardAgrees(homes, p, lane, inst);
    var a := LoadExpansion(homes, offsets, inst);
    DestHome(homes, inst);
    AddressHeld(homes, p, inst, lane, 1);
    SingleSize(inst.op.ty);
    LoadExecutes(cfg, a, lane, p.gmem);
    NoPreload(cfg, lane, p.gmem);
    assert [] + [Guarded(inst, a)] == [Guarded(inst, a)];
    var address := Mask32(lane.regs[a.src1]);
    if address + 4 <= |p.gmem| {
      FourBytesAreWord(p.gmem[address..address + 4]);
      SingleWritten(cfg, homes, p, inst, [], a, lane, lane, os[0].reg, FromBytes(p.gmem[address..address + 4]));
    } else if GuardOn(inst, lane) {
      TrapsAlone(cfg, inst, a, lane, p.gmem);
    } else {
      SingleWritten(cfg, homes, p, inst, [], a, lane, lane, os[0].reg, 0);
    }
  }

  lemma StoreExecutes(cfg: Config, a: A.Inst, lane: Lane, gmem: seq<Byte>)
    requires a.opcode == A.ST && a.space == Some(A.Gmem) && a.src1 < 256 && a.src2 < 256 && TypeSize(a.dtype) == Some(4)
    requires lane.regs[a.src2] < WORD
    ensures var address := Mask32(lane.regs[a.src1]);
            Execute(cfg, a, lane, gmem) ==
            if address + 4 > |gmem| then Trap else Store(address, ToBytes(lane.regs[a.src2], 4))
  {
    hide ToBytes;
  }

  lemma StoreEffectIs(host: P.Host, inst: P.Inst, s: P.State)
    requires KindOf(inst) == StGlobal && |inst.operands| == 2 && inst.operands[0].Addr? && inst.operands[1].RegOp?
             && Single(inst.op.ty)
    ensures P.FirstSource(inst) == 0
    ensures var address := P.Get(s.regs, inst.operands[0].reg) % WORD;
            P.GuardedEffect(host, inst, s) ==
            if !P.GuardHolds(inst, s.regs) then P.Nothing
            else if address + 4 > |s.gmem| then P.Failure
            else P.StoreTo(address, ToBytes(P.ValueOf(host, inst.op.ty, inst.operands[1], s.regs), 4))
  {
    hide ToBytes, P.GuardHolds, P.ValueOf;
  }

  lemma StoreExpansion(homes: R.Homes, offsets: map<nat, nat>, inst: P.Inst) returns (a: A.Inst)
    requires Lowerable(offsets, inst) && KindOf(inst) == StGlobal && Needs(inst) <= homes.Keys
    ensures Mentioned(inst.operands[0]) <= homes.Keys && Mentioned(inst.operands[1]) <= homes.Keys
    ensures Expand(homes, offsets, inst) == [Guarded(inst, a)]
    ensures a == A.Inst(A.ST, AecType(inst.op.ty).value, 0, BaseOf(homes, inst.operands[0]),
                        BaseOf(homes, inst.operands[1]), space := Some(A.Gmem))
  {
    SourcesHomed(homes, inst);
    a := A.Inst(A.ST, AecType(inst.op.ty).value, 0, BaseOf(homes, inst.operands[0]), BaseOf(homes, inst.operands[1]),
                space := Some(A.Gmem));
  }

  lemma MemoryReplaced(p: R.Physical, memory: seq<Byte>, lane: Lane)
    requires SlotRel(p, lane)
    ensures SlotRel(p.(gmem := memory), lane)
  {
  }

  lemma StoredMemory(gmem: seq<Byte>, address: nat, blob: seq<Byte>)
    requires address + |blob| <= |gmem|
    ensures ApplyMemory(Store(address, blob), gmem) == gmem[..address] + blob + gmem[address + |blob|..]
  {
  }

  /** The common end of a guarded store. */
  lemma StoreWritten(cfg: Config, homes: R.Homes, p: R.Physical, inst: P.Inst, a: A.Inst, lane: Lane, address: nat,
                     blob: seq<Byte>)
    requires SlotRel(p, lane) && (inst.guard.Some? ==> inst.guard.value.id < 8) && a.guard == None
    requires Execute(cfg, a, lane, p.gmem) == if address + |blob| > |p.gmem| then Trap else Store(address, blob)
    ensures var e := if !GuardOn(inst, lane) then P.Nothing
                     else if address + |blob| > |p.gmem| then P.Failure else P.StoreTo(address, blob);
            Matches(homes, p, e, ExecSeq(cfg, [Guarded(inst, a)], One(lane, p.gmem)), lane.id)
  {
    hide ExecSeq, Exec, Execute, SlotRel, GuardOn, Guarded, ApplyMemory;
    ExecOnly(cfg, Guarded(inst, a), One(lane, p.gmem));
    GuardedExec(cfg, inst, a, lane, p.gmem);
    if GuardOn(inst, lane) && address + |blob| <= |p.gmem| {
      StoredMemory(p.gmem, address, blob);
      MemoryReplaced(p, p.gmem[..address] + blob + p.gmem[address + |blob|..], lane);
    }
  }

  lemma StGlobalMatches(cfg: Config, offsets: map<nat, nat>, homes: R.Homes, p: R.Physical, inst: P.Inst, lane: Lane)
    requires Ready(cfg, offsets, homes, inst, lane.id) && KindOf(inst) == StGlobal && SlotRel(p, lane)
    ensures Matches(homes, p, EffectOf(cfg, offsets, homes, p, inst, lane.id),
                    ExecSeq(cfg, Expand(homes, offsets, inst), One(lane, p.gmem)), lane.id)
  {
    hide ExecSeq, Exec, Execute, SlotRel, R.WriteReg, P.GuardedEffect, P.ReadRegisters, P.GuardHolds, GuardOn, Guarded,
         Expand, TempsOnly, OpsTotal, Mentioned, ToBytes, Mask32, R.Read, ApplyMemory, P.ValueOf, Matches;
    var os, host, view := inst.operands, ThreadHost(cfg, offsets, lane.id), ViewOf(homes, p, inst);
    StoreEffectIs(host, inst, view);
    GuardAgrees(homes, p, lane, inst);
    var a := StoreExpansion(homes, offsets, inst);
    AddressHeld(homes, p, inst, lane, 0);
    SingleWorth(host, homes, p, lane, inst, 1);
    HeadWorth(homes, os[1], lane);
    SingleSize(inst.op.ty);
    StoreExecutes(cfg, a, lane, p.gmem);
    StoreWritten(cfg, homes, p, inst, a, lane, Mask32(lane.regs[a.src1]), ToBytes(lane.regs[a.src2], 4));
  }

  // ----- parameters -----

  lemma ParamLoads(cfg: Config, at: nat, dtype: A.DType, dest: nat, temp: nat, lane: Lane, gmem: seq<Byte>)
    requires FIRST_TEMP <= temp < 256 && dest < FIRST_TEMP && TypeSize(dtype) == Some(4) && dtype != A.B64
    requires at + 4 <= |cfg.pmem| < WORD
    ensures var load := A.Inst(A.LD, dtype, dest, temp, space := Some(A.Pmem));
            var v := FromBytes(cfg.pmem[at..at + 4]);
            ExecSeq(cfg, [LoadImmediate(temp, at), load], One(lane, gmem))
            == Running(One(lane.(regs := lane.regs[temp := at][dest := v]), gmem))
  {
    hide ExecSeq, Exec, Execute, FromBytes;
    var load := A.Inst(A.LD, dtype, dest, temp, space := Some(A.Pmem));
    LoadImmediateExec(cfg, temp, at, lane, gmem);
    var next := lane.(regs := lane.regs[temp := at]);
    ExecOnly(cfg, LoadImmediate(temp, at), One(lane, gmem));
    assert [LoadImmediate(temp, at), load] == [LoadImmediate(temp, at)] + [load];
    ExecLast(cfg, [LoadImmediate(temp, at)], load, One(lane, gmem), One(next, gmem));
    ParamLoadEffect(cfg, load, next, gmem, at);
    Independence.ExecAlone(cfg, load, next, gmem);
  }

  lemma ParamLoadEffect(cfg: Config, load: A.Inst, lane: Lane, gmem: seq<Byte>, at: nat)
    requires load.opcode == A.LD && load.space == Some(A.Pmem) && load.guard == None && load.dest < 256
             && load.src1 < 256
    requires TypeSize(load.dtype) == Some(4) && load.dtype != A.B64
    requires lane.regs[load.src1] == at && at + 4 <= |cfg.pmem| < WORD
    ensures LaneEffect(cfg, load, lane, gmem) == SetReg(load.dest, FromBytes(cfg.pmem[at..at + 4]))
  {
    hide FromBytes;
  }

  lemma EightBytes(blob: seq<Byte>)
    requires |blob| == 8
    ensures FromBytes(blob) == FromBytes(blob[..4]) + WORD * FromBytes(blob[4..])
  {
    SplitBytes(blob, 4);
    FourBytes();
  }

  lemma {:induction false} SplitBytes(blob: seq<Byte>, n: nat)
    requires n <= |blob|
    ensures FromBytes(blob) == FromBytes(blob[..n]) + Power256(n) * FromBytes(blob[n..])
    decreases n
  {
    if n == 0 {
      assert blob[0..] == blob;
    } else {
      SplitBytes(blob[1..], n - 1);
      assert blob[1..][..n - 1] == blob[..n][1..] && blob[1..][n - 1..] == blob[n..];
      Scaled(Power256(n - 1), FromBytes(blob[n..]));
    }
  }

  lemma Scaled(power: nat, high: nat)
    ensures 256 * (power * high) == 256 * power * high
  {
  }

  lemma ParamEffectIs(cfg: Config, offsets: map<nat, nat>, inst: P.Inst, s: P.State, id: LaneId)
    requires KindOf(inst) == LdParam && |inst.operands| == 2 && inst.operands[0].RegOp? && inst.operands[1].ParamAddr?
    requires inst.guard == None && inst.operands[1].param in offsets
    requires offsets[inst.operands[1].param] + P.SizeOf(inst.op.ty) <= |cfg.pmem|
    ensures var at := offsets[inst.operands[1].param];
            P.GuardedEffect(ThreadHost(cfg, offsets, id), inst, s) ==
            P.Write(inst.operands[0].reg, FromBytes(cfg.pmem[at..at + P.SizeOf(inst.op.ty)]))
  {
    hide FromBytes, P.SizeOf;
  }

  lemma ParamExpansion(homes: R.Homes, offsets: map<nat, nat>, inst: P.Inst)
    requires Lowerable(offsets, inst) && KindOf(inst) == LdParam && Needs(inst) <= homes.Keys
    ensures Mentioned(inst.operands[0]) <= homes.Keys
    ensures var at, dest := offsets[inst.operands[1].param], BaseOf(homes, inst.operands[0]);
            Expand(homes, offsets, inst) ==
            if Wide(inst.op.ty) then
              [LoadImmediate(FIRST_TEMP, at), A.Inst(A.LD, A.U32, dest, FIRST_TEMP, space := Some(A.Pmem))]
              + [LoadImmediate(FIRST_TEMP + 1, at + 4), A.Inst(A.LD, A.U32, dest + 1, FIRST_TEMP + 1,
                                                               space := Some(A.Pmem))]
            else [LoadImmediate(FIRST_TEMP, at), A.Inst(A.LD, AecType(inst.op.ty).value, dest, FIRST_TEMP,
                                                        space := Some(A.Pmem))]
  {
    SourcesHomed(homes, inst);
  }

  lemma SingleParamMatches(cfg: Config, offsets: map<nat, nat>, homes: R.Homes, p: R.Physical, inst: P.Inst, lane: Lane)
    requires Ready(cfg, offsets, homes, inst, lane.id) && KindOf(inst) == LdParam && Single(inst.op.ty)
             && SlotRel(p, lane)
    ensures Matches(homes, p, EffectOf(cfg, offsets, homes, p, inst, lane.id),
                    ExecSeq(cfg, Expand(homes, offsets, inst), One(lane, p.gmem)), lane.id)
  {
    hide ExecSeq, SlotRel, R.WriteReg, P.GuardedEffect, Expand, TempsOnly, OpsTotal, Mentioned, FromBytes, ViewOf;
    var r, at := inst.operands[0].reg, offsets[inst.operands[1].param];
    ParamExpansion(homes, offsets, inst);
    DestHome(homes, inst);
    SingleSize(inst.op.ty);
    ParamEffectIs(cfg, offsets, inst, ViewOf(homes, p, inst), lane.id);
    var v := FromBytes(cfg.pmem[at..at + 4]);
    FourBytesAreWord(cfg.pmem[at..at + 4]);
    ParamLoads(cfg, at, AecType(inst.op.ty).value, homes[r].base, FIRST_TEMP, lane, p.gmem);
    var next := lane.(regs := lane.regs[FIRST_TEMP := at]);
    TempSet(p, lane, FIRST_TEMP, at);
    RelSingle(homes, p, next, r, v);
    WrittenMemory(homes, p, r, v);
  }

  lemma TempSet(p: R.Physical, lane: Lane, temp: nat, v: nat)
    requires SlotRel(p, lane) && FIRST_TEMP <= temp < 256
    ensures SlotRel(p, lane.(regs := lane.regs[temp := v]))
  {
  }

  function PmemLoad(dest: nat, at: nat, temp: nat): seq<A.Inst> {
    [LoadImmediate(temp, at), A.Inst(A.LD, A.U32, dest, temp, space := Some(A.Pmem))]
  }

  /** Two parameter words one after the other, each through a temporary of its own. */
  lemma TwoParamLoads(cfg: Config, at: nat, base: nat, lane: Lane, gmem: seq<Byte>)
    requires base + 1 < FIRST_TEMP && at + 8 <= |cfg.pmem| < WORD
    ensures var low, high := FromBytes(cfg.pmem[at..at + 4]), FromBytes(cfg.pmem[at + 4..at + 8]);
            ExecSeq(cfg, PmemLoad(base, at, FIRST_TEMP) + PmemLoad(base + 1, at + 4, FIRST_TEMP + 1), One(lane, gmem))
            == Running(One(lane.(regs := lane.regs[FIRST_TEMP := at][FIRST_TEMP + 1 := at + 4][base := low][base + 1 :=
                high]), gmem))
  {
    hide ExecSeq, FromBytes;
    ParamLoads(cfg, at, A.U32, base, FIRST_TEMP, lane, gmem);
    var low, high := FromBytes(cfg.pmem[at..at + 4]), FromBytes(cfg.pmem[at + 4..at + 8]);
    var half := lane.(regs := lane.regs[FIRST_TEMP := at][base := low]);
    ParamLoads(cfg, at + 4, A.U32, base + 1, FIRST_TEMP + 1, half, gmem);
    ExecAppend(cfg, PmemLoad(base, at, FIRST_TEMP), PmemLoad(base + 1, at + 4, FIRST_TEMP + 1), One(lane, gmem));
    assert half.regs[FIRST_TEMP + 1 := at + 4][base + 1 := high]
        == lane.regs[FIRST_TEMP := at][FIRST_TEMP + 1 := at + 4][base := low][base + 1 := high];
  }

  lemma EightAsTwo(pmem: seq<Byte>, at: nat)
    requires at + 8 <= |pmem|
    ensures var low, high := FromBytes(pmem[at..at + 4]), FromBytes(pmem[at + 4..at + 8]);
            && low < WORD && high < WORD && FromBytes(pmem[at..at + 8]) == low + WORD * high
            && (low + WORD * high) % WORD == low && (low + WORD * high) / WORD == high
                && low + WORD * high < WORD * WORD
  {
    hide FromBytes;
    var blob := pmem[at..at + 8];
    EightBytes(blob);
    assert blob[..4] == pmem[at..at + 4] && blob[4..] == pmem[at + 4..at + 8];
    FourBytesAreWord(blob[..4]);
    FourBytesAreWord(blob[4..]);
    LowHalf(FromBytes(blob[..4]), FromBytes(blob[4..]));
  }

  lemma WideParamMatches(cfg: Config, offsets: map<nat, nat>, homes: R.Homes, p: R.Physical, inst: P.Inst, lane: Lane)
    requires Ready(cfg, offsets, homes, inst, lane.id) && KindOf(inst) == LdParam && Wide(inst.op.ty)
             && SlotRel(p, lane)
    ensures Matches(homes, p, EffectOf(cfg, offsets, homes, p, inst, lane.id),
                    ExecSeq(cfg, Expand(homes, offsets, inst), One(lane, p.gmem)), lane.id)
  {
    hide ExecSeq, SlotRel, R.WriteReg, P.GuardedEffect, Expand, TempsOnly, OpsTotal, Mentioned, FromBytes, ViewOf;
    var r, at := inst.operands[0].reg, offsets[inst.operands[1].param];
    ParamExpansion(homes, offsets, inst);
    DestHome(homes, inst);
    ParamEffectIs(cfg, offsets, inst, ViewOf(homes, p, inst), lane.id);
    EightAsTwo(cfg.pmem, at);
    var base, v := homes[r].base, FromBytes(cfg.pmem[at..at + 8]);
    TwoParamLoads(cfg, at, base, lane, p.gmem);
    TempSet(p, lane, FIRST_TEMP, at);
    var temps := lane.(regs := lane.regs[FIRST_TEMP := at]);
    TempSet(p, temps, FIRST_TEMP + 1, at + 4);
    RelPair(homes, p, temps.(regs := temps.regs[FIRST_TEMP + 1 := at + 4]), r, v);
    WrittenMemory(homes, p, r, v);
  }
}
