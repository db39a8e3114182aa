/** Instruction kind by kind: the expansion and the instruction have the same effect. */
module LoweringKinds {
  import opened Wrappers
  import opened Words
  import opened Allocator
  import opened Expansion
  import opened PtxMeaning
  import opened LoweringStep
  import opened Machine
  import P = Ptx
  import A = Isa
  import R = PhysicalRun

  ghost predicate RunningRel(p: R.Physical, o: Outcome, id: LaneId) {
    o.Running? && |o.warp.lanes| == 1 && o.warp.gmem == p.gmem && SlotRel(p, o.warp.lanes[0])
        && o.warp.lanes[0].id == id
  }

  /** The outcome of the expansion is that of the instruction's effect. */
  ghost predicate Matches(homes: R.Homes, p: R.Physical, e: P.Effect, o: Outcome, id: LaneId) {
    match e
    case Nothing => RunningRel(p, o, id)
    case Write(r, v) => RunningRel(R.WriteReg(homes, p, r, v), o, id)
    case StoreTo(address, blob) =>
      address + |blob| <= |p.gmem|
      && RunningRel(p.(gmem := p.gmem[..address] + blob + p.gmem[address + |blob|..]), o, id)
    case Failure => o == Fault(p.gmem)
    case _ => false
  }

  ghost predicate Ready(cfg: Config, offsets: map<nat, nat>, homes: R.Homes, inst: P.Inst, id: LaneId) {
    && OpsTotal(cfg.ops) && Lowerable(offsets, inst) && InSubset(inst) && Needs(inst) <= homes.Keys && GoodHomes(homes)
    && (KindOf(inst) == LdParam ==> offsets[inst.operands[1].param] + P.SizeOf(inst.op.ty) <= |cfg.pmem| < WORD)
    && (KindOf(inst) == Move && inst.operands[1].Special? ==>
          SpecialValue(inst.operands[1].selector, id).Some? && SpecialValue(inst.operands[1].selector, id).value < WORD)
  }

  function EffectOf(cfg: Config, offsets: map<nat, nat>, homes: R.Homes, p: R.Physical, inst: P.Inst,
                    id: LaneId): P.Effect {
    P.GuardedEffect(ThreadHost(cfg, offsets, id), inst, ViewOf(homes, p, inst))
  }

  /**
   * When the machine's shift by the amount modulo 32, filled with zeros, is PTX's: the amount is below 32 and a signed
   * right shift is of a word without sign, or what the two keep is the same.
   */
  predicate ShiftFits(op: P.Opcode, a: nat, b: nat) {
    if op.base == P.Shl then b < 32 || a % Pow2(32 - b % 32) == 0
    else if op.base == P.Shr then
      if op.ty == P.S32 && a >= SIGN then b == 0 || (b % 32 == 0 && a == WORD - 1) else b < 32 || a < Pow2(b % 32)
    else true
  }

  /** The machine compares words without sign: it is right for signed ones of one sign, and about equality. */
  predicate CompareFits(op: P.Opcode, a: nat, b: nat) {
    op.base == P.Setp && op.ty == P.S32 && |op.mods| == 1 && op.mods[0].Cmp? ==>
      op.mods[0].op == A.Eq || op.mods[0].op == A.Ne || (a >= SIGN <==> b >= SIGN)
  }

  /** A binary32 `mad` rounds once in PTX and twice in the machine: both agree on these values. */
  predicate RoundingFits(host: P.Host, op: P.Opcode, vs: seq<nat>) {
    op.base == P.Mad && op.ty == P.F32 && |vs| == 3 ==>
      host.eval(op, vs)
      == host.eval(P.Opcode(P.Add, [], P.F32), [host.eval(P.Opcode(P.Mul, [], P.F32), [vs[0], vs[1]]), vs[2]])
  }

  /** If the instruction is executed, the machine's operation for it computes PTX's value. */
  predicate OperationFits(host: P.Host, inst: P.Inst, s: P.State) {
    var vs := P.Sources(host, inst, s.regs);
    P.GuardHolds(inst, s.regs) ==>
      (|vs| == 2 ==> ShiftFits(inst.op, vs[0], vs[1]) && CompareFits(inst.op, vs[0], vs[1]))
      && RoundingFits(host, inst.op, vs)
  }

  // ----- arithmetic -----

  function ShiftedWord(op: P.Base, a: nat, b: nat): nat {
    if op == P.Shl then Mask32(a * Pow2(b % 32)) else Mask32(a / Pow2(b % 32))
  }

  function ShiftMeaning(op: P.Opcode, a: nat, b: nat): nat {
    if op.base == P.Shl then ShiftLeft(a, b)
    else if op.ty == P.S32 then ShiftRightSigned(a, b) else ShiftRight(a, b)
  }

  /** A right shift by at least one place clears the sign bit. */
  lemma HalvedBelowSign(a: nat, k: nat)
    requires a < WORD && k > 0
    ensures a / Pow2(k) < SIGN
  {
    var p, q := Pow2(k), a / Pow2(k);
    assert p == 2 * Pow2(k - 1) >= 2;
    hide Pow2;
    Division(a, p);
    ProductMonotone(q, 2, p);
  }

  lemma PowerOne()
    ensures Pow2(0) == 1
  {
  }

  /** A negative word shifted by PTX keeps its sign. */
  lemma NegativeKeepsSign(a: nat, b: nat)
    requires SIGN <= a < WORD
    ensures ShiftRightSigned(a, b) >= SIGN
    ensures b == 0 ==> ShiftRightSigned(a, b) == a
    ensures b >= 32 ==> ShiftRightSigned(a, b) == WORD - 1
  {
    var p, n: int := Pow2(if b >= 32 then 32 else b), WORD - a;
    assert b == 0 ==> p == 1;
    assert b >= 32 ==> p == WORD by {
      PowerOfWord();
    }
    hide Pow2;
    NegativeQuotient(n, p);
    assert Signed(a) == -n;
  }

  /** The quotient of a negative number is rounded down. */
  lemma NegativeQuotient(n: int, p: int)
    requires n > 0 && p > 0
    ensures -n <= (-n) / p < 0
    ensures n <= p ==> (-n) / p == -1
  {
    var x := -n;
    var q, r := x / p, x % p;
    IntegerDivision(x, p);
    if q >= 0 {
      ProductMonotone(p, 0, q);
    } else {
      var m: nat := -q;
      assert n + r == p * m;
      if m > n {
        ProductMonotone(p, n + 1, m);
        ProductMonotone(n, 1, p);
      }
      if m > 1 {
        ProductMonotone(p, 2, m);
      }
    }
  }

  lemma IntegerDivision(x: int, p: int)
    requires p > 0
    ensures x == p * (x / p) + x % p && 0 <= x % p < p
  {
  }

  /** The machine's shift is PTX's exactly if it fits. */
  lemma ShiftExactly(op: P.Opcode, a: nat, b: nat)
    requires (op.base == P.Shl || op.base == P.Shr) && a < WORD
    ensures ShiftedWord(op.base, a, b) == ShiftMeaning(op, a, b) <==> ShiftFits(op, a, b)
  {
    hide Pow2, Mask32;
    var k := b % 32;
    QuotientIsZero(a, Pow2(k));
    if op.base == P.Shl {
      ShiftedOut(a, k);
    } else if op.ty == P.S32 && a >= SIGN {
      NegativeKeepsSign(a, b);
      PowerOne();
      if k > 0 {
        HalvedBelowSign(a, k);
      }
    } else if b >= 32 {
      PowerOfWord();
      QuotientIsZero(a, WORD);
    }
  }

  /** Which amounts every word may be shifted by: below 32, and for a signed right shift none but zero. */
  lemma ShiftRightlyLowered(op: P.Opcode, b: nat)
    requires op.base == P.Shl || op.base == P.Shr
    ensures (forall a: nat | a < WORD :: ShiftFits(op, a, b))
       <==> if op.base == P.Shr && op.ty == P.S32 then b == 0 else b < 32
  {
    if op.base == P.Shr && op.ty == P.S32 {
      if b > 0 {
        assert SIGN < WORD && !ShiftFits(op, SIGN, b);
      }
    } else if b >= 32 {
      var k := b % 32;
      var low, high := Pow2(k), Pow2(32 - k);
      assert high == 2 * Pow2(31 - k) >= 2;
      PowerAdds(k, 32 - k);
      PowerOfWord();
      ProductMonotone(low, 2, high);
      RemainderIs(1, high, 0, 1);
      assert low < WORD && !ShiftFits(op, if op.base == P.Shl then 1 else low, b);
    }
  }

  lemma MachineShift(ops: F32Ops, op: P.Opcode, dtype: A.DType, a: nat, b: nat)
    requires op.base == P.Shl || op.base == P.Shr
    ensures Alu2(ops, AluOpcode(op.base).value, dtype, a, b) == Some(ShiftedWord(op.base, a, b))
    ensures Eval(ops, op, [a, b]) == ShiftMeaning(op, a, b)
  {
    hide Pow2, Mask32;
  }

  /** Machine and host agree about a two-operand operation of matching type exactly if it fits. */
  lemma AluAgrees(ops: F32Ops, op: P.Opcode, dtype: A.DType, a: nat, b: nat)
    requires OpsTotal(ops) && (dtype == A.F32 <==> op.ty == P.F32) && a < WORD && b < WORD
    requires op.base in {P.Add, P.Sub, P.Mul} || (op.base in {P.And, P.Or, P.Xor, P.Shl, P.Shr} && dtype != A.F32)
    ensures var word := Alu2(ops, AluOpcode(op.base).value, dtype, a, b);
            word.Some? && word.value < WORD && (word.value == Eval(ops, op, [a, b]) <==> ShiftFits(op, a, b))
    ensures Eval(ops, op, [a, b]) < WORD
  {
    hide BitAnd, BitOr, BitXor, Pow2, Mask32;
    if op.base == P.Shl || op.base == P.Shr {
      MachineShift(ops, op, dtype, a, b);
      ShiftExactly(op, a, b);
    }
  }

  lemma BinaryKind(inst: P.Inst)
    requires KindOf(inst) == Binary && InSubset(inst)
    ensures AluOpcode(inst.op.base).Some? && AecType(inst.op.ty).Some?
    ensures AluType(inst) == A.F32 <==> inst.op.ty == P.F32
    ensures inst.op.base in {P.Add, P.Sub, P.Mul} || (inst.op.base in {P.And, P.Or, P.Xor, P.Shl, P.Shr}
                                                      && AluType(inst) != A.F32)
  {
  }

  lemma BinaryValue(ops: F32Ops, inst: P.Inst, a: nat, b: nat)
    requires OpsTotal(ops) && KindOf(inst) == Binary && InSubset(inst) && a < WORD && b < WORD
    ensures var word := Alu2(ops, AluOpcode(inst.op.base).value, AluType(inst), a, b);
            word.Some? && word.value < WORD && (word.value == Eval(ops, inst.op, [a, b]) <==> ShiftFits(inst.op, a, b))
    ensures Eval(ops, inst.op, [a, b]) < WORD
  {
    BinaryKind(inst);
    hide *;
    AluAgrees(ops, inst.op, AluType(inst), a, b);
  }

  /** Rounding the product and the sum is rounding once. */
  lemma RoundsAlike(cfg: Config, offsets: map<nat, nat>, id: LaneId, op: P.Opcode, a: nat, b: nat, c: nat)
    requires OpsTotal(cfg.ops) && op.base == P.Mad && op.ty == P.F32
    ensures RoundingFits(ThreadHost(cfg, offsets, id), op, [a, b, c])
       <==> cfg.ops.fma(a, b, c) == cfg.ops.add(cfg.ops.mul(a, b).value, c)
  {
    hide Mask32;
  }

  lemma FusedMachine(ops: F32Ops, op: P.Opcode, dtype: A.DType, a: nat, b: nat, c: nat)
    requires OpsTotal(ops) && (op.base == P.Mad || (op.base == P.Fma && dtype == A.F32))
    ensures AluOpcode(op.base).Some?
    ensures Alu3(ops, AluOpcode(op.base).value, dtype, a, b, c)
         == Some(if dtype != A.F32 then Mask32(a * b + c)
                 else if op.base == P.Fma then ops.fma(a, b, c).value else ops.add(ops.mul(a, b).value, c).value)
  {
    hide Mask32;
  }

  lemma FusedMeaning(ops: F32Ops, op: P.Opcode, a: nat, b: nat, c: nat, d: nat)
    requires op.base == P.Mad || (op.base == P.Fma && op.ty == P.F32)
    ensures Eval(ops, op, if op.base == P.Fma then [d, a, b, c] else [a, b, c])
         == if op.ty == P.F32 then ValueOr0(ops.fma(a, b, c)) else Mask32(a * b + c)
  {
    hide Mask32;
  }

  /** The binary32 `mad` of the machine is that of PTX exactly if both roundings give what one gives. */
  lemma FusedAgrees(cfg: Config, offsets: map<nat, nat>, id: LaneId, op: P.Opcode, dtype: A.DType, a: nat, b: nat,
                    c: nat, d: nat)
    requires OpsTotal(cfg.ops) && (dtype == A.F32 <==> op.ty == P.F32)
    requires op.base == P.Mad || (op.base == P.Fma && dtype == A.F32)
    ensures var vs := if op.base == P.Fma then [d, a, b, c] else [a, b, c];
            var word := Alu3(cfg.ops, AluOpcode(op.base).value, dtype, a, b, c);
            && word.Some? && word.value < WORD && Eval(cfg.ops, op, vs) < WORD
            && (word.value == Eval(cfg.ops, op, vs) <==> RoundingFits(ThreadHost(cfg, offsets, id), op, vs))
  {
    FusedMachine(cfg.ops, op, dtype, a, b, c);
    FusedMeaning(cfg.ops, op, a, b, c, d);
    if op.base == P.Mad && op.ty == P.F32 {
      RoundsAlike(cfg, offsets, id, op, a, b, c);
      hide RoundingFits;
    }
    hide Mask32, Alu3, Eval, ThreadHost;
  }

  lemma FusedKind(inst: P.Inst)
    requires KindOf(inst) == Fused && InSubset(inst)
    ensures AluOpcode(inst.op.base).Some? && AecType(inst.op.ty).Some?
    ensures AluType(inst) == A.F32 <==> inst.op.ty == P.F32
    ensures inst.op.base == P.Mad || (inst.op.base == P.Fma && AluType(inst) == A.F32)
  {
  }

  lemma FusedValue(cfg: Config, offsets: map<nat, nat>, id: LaneId, inst: P.Inst, a: nat, b: nat, c: nat, d: nat)
    requires OpsTotal(cfg.ops) && KindOf(inst) == Fused && InSubset(inst)
    ensures var vs := if inst.op.base == P.Fma then [d, a, b, c] else [a, b, c];
            var word := Alu3(cfg.ops, AluOpcode(inst.op.base).value, AluType(inst), a, b, c);
            && word.Some? && word.value < WORD && Eval(cfg.ops, inst.op, vs) < WORD
            && (word.value == Eval(cfg.ops, inst.op, vs) <==> RoundingFits(ThreadHost(cfg, offsets, id), inst.op, vs))
  {
    FusedKind(inst);
    hide *;
    FusedAgrees(cfg, offsets, id, inst.op, AluType(inst), a, b, c, d);
  }

  /** Arithmetic instructions write what the host evaluates, if their guard holds. */
  lemma ArithmeticEffect(host: P.Host, inst: P.Inst, s: P.State)
    requires KindOf(inst) in {Move, WideMultiply, WideAdd, Binary, Fused} && inst.operands != []
             && inst.operands[0].RegOp?
    ensures P.GuardedEffect(host, inst, s) ==
            if P.GuardHolds(inst, s.regs)
            then P.Write(inst.operands[0].reg, host.eval(inst.op, P.Sources(host, inst, s.regs))) else P.Nothing
    ensures P.FirstSource(inst) == if inst.op.base == P.Fma then 0 else 1
  {
  }

  /** The common end of all expansions with one guarded main instruction that sets a single register. */
  lemma SingleWritten(cfg: Config, homes: R.Homes, p: R.Physical, inst: P.Inst, pre: seq<A.Inst>, a: A.Inst, lane: Lane,
                      lane': Lane, r: P.Reg, v: nat)
    requires SlotRel(p, lane) && GoodHomes(homes) && r in homes && SingleReg(r) && v < WORD
    requires (inst.guard.Some? ==> inst.guard.value.id < 8) && a.guard == None
    requires ExecSeq(cfg, pre, One(lane, p.gmem)) == Running(One(lane', p.gmem)) && TempsOnly(lane, lane')
    requires GuardOn(inst, lane) ==> Execute(cfg, a, lane', p.gmem) == SetReg(homes[r].base, v)
    ensures GuardOn(inst, lane) ==>
              RunningRel(R.WriteReg(homes, p, r, v), ExecSeq(cfg, pre + [Guarded(inst, a)], One(lane, p.gmem)), lane.id)
    ensures !GuardOn(inst, lane) ==> RunningRel(p, ExecSeq(cfg, pre + [Guarded(inst, a)], One(lane, p.gmem)), lane.id)
  {
    hide ExecSeq, Exec, Execute, R.WriteReg, SlotRel, Guarded, GoodHomes;
    RelTemps(p, lane, lane');
    ExecLast(cfg, pre, Guarded(inst, a), One(lane, p.gmem), One(lane', p.gmem));
    GuardedExec(cfg, inst, a, lane', p.gmem);
    if GuardOn(inst, lane) {
      RelSingle(homes, p, lane', r, v);
      WrittenMemory(homes, p, r, v);
    }
  }

  lemma WrittenMemory(homes: R.Homes, p: R.Physical, r: P.Reg, v: nat)
    ensures R.WriteReg(homes, p, r, v).gmem == p.gmem
  {
  }

  lemma TwoSources(host: P.Host, inst: P.Inst, regs: P.Regs)
    requires P.FirstSource(inst) == 1 && |inst.operands| == 3
    ensures P.Sources(host, inst, regs)
         == [P.ValueOf(host, inst.op.ty, inst.operands[1], regs), P.ValueOf(host, inst.op.ty, inst.operands[2], regs)]
  {
  }

  /** Two operands, preloaded. */
  lemma PrepareTwo(cfg: Config, homes: R.Homes, inst: P.Inst, lane: Lane, gmem: seq<Byte>) returns (lane': Lane)
    requires GoodHomes(homes) && |inst.operands| == 3 && IsSource(inst.operands[1]) && IsSource(inst.operands[2])
    requires Needs(inst) <= homes.Keys && inst.op.base != P.Ret
    ensures forall k | 0 <= k < |inst.operands[1..]| ::
              IsSource(inst.operands[1..][k]) && Mentioned(inst.operands[1..][k]) <= homes.Keys
    ensures Mentioned(inst.operands[1]) <= homes.Keys && Mentioned(inst.operands[2]) <= homes.Keys
    ensures inst.op.base != P.Setp ==> Mentioned(inst.operands[0]) <= homes.Keys
    ensures ExecSeq(cfg, Preload(inst.operands[1..], FIRST_TEMP), One(lane, gmem)) == Running(One(lane', gmem))
            && TempsOnly(lane, lane')
    ensures var rs := SourceRegs(homes, inst.operands[1..], FIRST_TEMP);
            && rs[0] < 256 && rs[1] < 256
            && lane'.regs[rs[0]] == Worth(homes, inst.operands[1], lane)
            && lane'.regs[rs[1]] == Worth(homes, inst.operands[2], lane)
  {
    hide ExecSeq, Worth;
    SourcesHomed(homes, inst);
    assert inst.operands[1..][0] == inst.operands[1] && inst.operands[1..][1] == inst.operands[2];
    lane' := PreloadExec(cfg, homes, inst.operands[1..], FIRST_TEMP, lane, gmem);
  }

  /** What the two single operands of an arithmetic instruction are worth to it. */
  lemma TwoWorths(host: P.Host, homes: R.Homes, p: R.Physical, lane: Lane, inst: P.Inst)
    requires SlotRel(p, lane) && GoodHomes(homes) && |inst.operands| == 3 && P.FirstSource(inst) == 1
    requires SingleSource(inst.operands[1]) && SingleSource(inst.operands[2]) && Single(inst.op.ty)
    requires Mentioned(inst.operands[1]) <= homes.Keys && Mentioned(inst.operands[2]) <= homes.Keys
    ensures var a, b := Worth(homes, inst.operands[1], lane), Worth(homes, inst.operands[2], lane);
            && P.Sources(host, inst, ViewOf(homes, p, inst).regs) == [a, b] && a < WORD && b < WORD
            && P.ValueOf(host, inst.op.ty, inst.operands[2], ViewOf(homes, p, inst).regs) == b
  {
    hide Worth, ViewOf, SlotRel;
    SingleWorth(host, homes, p, lane, inst, 1);
    SingleWorth(host, homes, p, lane, inst, 2);
    TwoSources(host, inst, ViewOf(homes, p, inst).regs);
  }

  lemma DestHome(homes: R.Homes, inst: P.Inst)
    requires Needs(inst) <= homes.Keys && NeedsHome(inst.op.base, 0) && GoodHomes(homes) && inst.operands != []
             && inst.operands[0].RegOp?
    ensures inst.operands[0].reg in homes && Mentioned(inst.operands[0]) <= homes.Keys
    ensures BaseOf(homes, inst.operands[0]) == homes[inst.operands[0].reg].base < FIRST_TEMP
    ensures P.IsPair(inst.operands[0].reg) ==> homes[inst.operands[0].reg].base + 1 < FIRST_TEMP
  {
    SourcesHomed(homes, inst);
    assert inst.operands[0].reg in Mentioned(inst.operands[0]);
  }

  lemma BinaryExpansion(homes: R.Homes, offsets: map<nat, nat>, inst: P.Inst) returns (pre: seq<A.Inst>, main: A.Inst)
    requires Lowerable(offsets, inst) && KindOf(inst) == Binary && Needs(inst) <= homes.Keys && GoodHomes(homes)
    ensures Mentioned(inst.operands[0]) <= homes.Keys
    ensures forall k | 0 <= k < |inst.operands[1..]| ::
              IsSource(inst.operands[1..][k]) && Mentioned(inst.operands[1..][k]) <= homes.Keys
    ensures Expand(homes, offsets, inst) == pre + [Guarded(inst, main)]
            && pre == Preload(inst.operands[1..], FIRST_TEMP)
    ensures var rs := SourceRegs(homes, inst.operands[1..], FIRST_TEMP);
            main == A.Inst(AluOpcode(inst.op.base).value, AluType(inst), BaseOf(homes, inst.operands[0]), rs[0], rs[1])
  {
    hide Guarded, Preload, SourceRegs, Needs, GoodHomes, IsSource, BaseOf, Mentioned;
    SourcesHomed(homes, inst);
    var os := inst.operands;
    assert os[1..][0] == os[1] && os[1..][1] == os[2];
    pre := Preload(os[1..], FIRST_TEMP);
    var rs := SourceRegs(homes, os[1..], FIRST_TEMP);
    main := A.Inst(AluOpcode(inst.op.base).value, AluType(inst), BaseOf(homes, os[0]), rs[0], rs[1]);
  }

  lemma ReadySingle(cfg: Config, offsets: map<nat, nat>, homes: R.Homes, inst: P.Inst, id: LaneId)
    requires Ready(cfg, offsets, homes, inst, id) && KindOf(inst) in {Binary, Fused}
    ensures OpsTotal(cfg.ops) && Lowerable(offsets, inst) && InSubset(inst) && Needs(inst) <= homes.Keys
    ensures GoodHomes(homes) && NeedsHome(inst.op.base, 0) && inst.op.base != P.Ret && inst.op.base != P.Setp
    ensures |inst.operands| == (if KindOf(inst) == Binary then 3 else 4) && inst.operands[0].RegOp?
            && SingleReg(inst.operands[0].reg)
    ensures forall k | 1 <= k < |inst.operands| :: SingleSource(inst.operands[k]) && IsSource(inst.operands[k])
    ensures Single(inst.op.ty) && AecType(inst.op.ty).Some? && AluOpcode(inst.op.base).Some? && FIRST_TEMP < 256
    ensures inst.guard.Some? ==> P.IsPredicate(inst.guard.value) && inst.guard.value.id < 8
    ensures P.FirstSource(inst) == if inst.op.base == P.Fma then 0 else 1
    ensures KindOf(inst) == Binary ==> inst.op.base != P.Fma && inst.op.base != P.Mad
    ensures KindOf(inst) == Fused ==> inst.op.base in {P.Fma, P.Mad}
    ensures inst.op.base == P.Shl ==> AluType(inst) == A.U32
  {
    hide P.ReadRegisters, Needs, GoodHomes, OpsTotal;
  }

  lemma TwoFit(host: P.Host, inst: P.Inst, s: P.State, a: nat, b: nat)
    requires P.Sources(host, inst, s.regs) == [a, b]
    ensures OperationFits(host, inst, s)
       <==> (P.GuardHolds(inst, s.regs) ==> ShiftFits(inst.op, a, b) && CompareFits(inst.op, a, b))
    ensures inst.op.base != P.Setp ==> CompareFits(inst.op, a, b)
    ensures inst.op.base == P.Setp ==> ShiftFits(inst.op, a, b)
  {
    hide P.Sources, P.GuardHolds;
  }

  lemma FusedFits(host: P.Host, inst: P.Inst, s: P.State)
    requires |P.Sources(host, inst, s.regs)| != 2
    ensures OperationFits(host, inst, s)
       <==> (P.GuardHolds(inst, s.regs) ==> RoundingFits(host, inst.op, P.Sources(host, inst, s.regs)))
  {
    hide P.Sources, P.GuardHolds, ShiftFits, CompareFits, RoundingFits;
  }

  /** What a single register holds tells which word was written to it. */
  lemma WrittenWordKnown(homes: R.Homes, p: R.Physical, r: P.Reg, word: nat, value: nat, o: Outcome, id: LaneId)
    requires GoodHomes(homes) && r in homes && SingleReg(r) && RunningRel(R.WriteReg(homes, p, r, word), o, id)
    ensures RunningRel(R.WriteReg(homes, p, r, value), o, id) <==> word == value
  {
    var q := homes[r].base;
    assert R.SlotAt(R.WriteReg(homes, p, r, word).slots, q) == word;
    assert R.SlotAt(R.WriteReg(homes, p, r, value).slots, q) == value;
    if RunningRel(R.WriteReg(homes, p, r, value), o, id) {
      assert o.warp.lanes[0].regs[q] == word;
      assert o.warp.lanes[0].regs[q] == value;
    }
  }

  /** An expansion that writes `word` matches an instruction that writes `value` exactly if they are equal. */
  lemma SingleMatches(homes: R.Homes, p: R.Physical, on: bool, r: P.Reg, word: nat, value: nat, o: Outcome, id: LaneId)
    requires GoodHomes(homes) && r in homes && SingleReg(r)
    requires on ==> RunningRel(R.WriteReg(homes, p, r, word), o, id)
    requires !on ==> RunningRel(p, o, id)
    ensures Matches(homes, p, if on then P.Write(r, value) else P.Nothing, o, id) <==> (on ==> word == value)
  {
    hide RunningRel, R.WriteReg, GoodHomes;
    if on {
      WrittenWordKnown(homes, p, r, word, value, o, id);
    }
  }

  /** The expansion does what the instruction does exactly if the operation fits, whatever the state. */
  lemma BinaryMatches(cfg: Config, offsets: map<nat, nat>, homes: R.Homes, p: R.Physical, inst: P.Inst, lane: Lane)
    requires Ready(cfg, offsets, homes, inst, lane.id) && KindOf(inst) == Binary && SlotRel(p, lane)
    ensures Matches(homes, p, EffectOf(cfg, offsets, homes, p, inst, lane.id),
                    ExecSeq(cfg, Expand(homes, offsets, inst), One(lane, p.gmem)), lane.id)
            <==> OperationFits(ThreadHost(cfg, offsets, lane.id), inst, ViewOf(homes, p, inst))
  {
    hide *;
    ReadySingle(cfg, offsets, homes, inst, lane.id);
    var os, host, view := inst.operands, ThreadHost(cfg, offsets, lane.id), ViewOf(homes, p, inst);
    ArithmeticEffect(host, inst, view);
    GuardAgrees(homes, p, lane, inst);
    DestHome(homes, inst);
    var lane' := PrepareTwo(cfg, homes, inst, lane, p.gmem);
    TwoWorths(host, homes, p, lane, inst);
    var a, b := Worth(homes, os[1], lane), Worth(homes, os[2], lane);
    BinaryValue(cfg.ops, inst, a, b);
    var pre, main := BinaryExpansion(homes, offsets, inst);
    BinaryExecutes(cfg, homes, inst, main, lane', p.gmem, a, b);
    var word := Alu2(cfg.ops, AluOpcode(inst.op.base).value, AluType(inst), a, b).value;
    SingleWritten(cfg, homes, p, inst, pre, main, lane, lane', os[0].reg, word);
    HostEval(cfg, offsets, lane.id, inst.op, [a, b]);
    TwoFit(host, inst, view, a, b);
    EffectIs(cfg, offsets, homes, p, inst, lane.id);
    SingleMatches(homes, p, GuardOn(inst, lane), os[0].reg, word, Eval(cfg.ops, inst.op, [a, b]),
                  ExecSeq(cfg, Expand(homes, offsets, inst), One(lane, p.gmem)), lane.id);
  }

  lemma BinaryExecutes(cfg: Config, homes: R.Homes, inst: P.Inst, main: A.Inst, lane: Lane, gmem: seq<Byte>, a: nat,
                       b: nat)
    requires KindOf(inst) == Binary && AluOpcode(inst.op.base) == Some(main.opcode) && main.dest < 256
    requires main.src1 < 256 && main.src2 < 256 && lane.regs[main.src1] == a && lane.regs[main.src2] == b
    requires Alu2(cfg.ops, main.opcode, main.dtype, a, b).Some?
    ensures Execute(cfg, main, lane, gmem) == SetReg(main.dest, Alu2(cfg.ops, main.opcode, main.dtype, a, b).value)
  {
    hide Alu2;
  }

  // ----- three operands -----

  lemma PrepareThree(cfg: Config, homes: R.Homes, inst: P.Inst, lane: Lane, gmem: seq<Byte>) returns (lane': Lane)
    requires GoodHomes(homes) && |inst.operands| == 4 && NeedsHome(inst.op.base, 0) && Needs(inst) <= homes.Keys
    requires IsSource(inst.operands[1]) && IsSource(inst.operands[2]) && IsSource(inst.operands[3])
    ensures forall k | 0 <= k < |inst.operands[1..]| ::
              IsSource(inst.operands[1..][k]) && Mentioned(inst.operands[1..][k]) <= homes.Keys
    ensures forall k | 0 <= k < 4 :: Mentioned(inst.operands[k]) <= homes.Keys
    ensures ExecSeq(cfg, Preload(inst.operands[1..], FIRST_TEMP), One(lane, gmem)) == Running(One(lane', gmem))
            && TempsOnly(lane, lane')
    ensures var rs := SourceRegs(homes, inst.operands[1..], FIRST_TEMP);
            && rs[0] < 256 && rs[1] < 256 && rs[2] < 256
            && lane'.regs[rs[0]] == Worth(homes, inst.operands[1], lane)
            && lane'.regs[rs[1]] == Worth(homes, inst.operands[2], lane)
            && lane'.regs[rs[2]] == Worth(homes, inst.operands[3], lane)
  {
    hide ExecSeq, Worth;
    SourcesHomed(homes, inst);
    assert inst.operands[1..][0] == inst.operands[1] && inst.operands[1..][1] == inst.operands[2]
           && inst.operands[1..][2] == inst.operands[3];
    lane' := PreloadExec(cfg, homes, inst.operands[1..], FIRST_TEMP, lane, gmem);
  }

  lemma ThreeSources(host: P.Host, inst: P.Inst, regs: P.Regs)
    requires |inst.operands| == 4
    ensures var ty, os := inst.op.ty, inst.operands;
            var abc := [P.ValueOf(host, ty, os[1], regs), P.ValueOf(host, ty, os[2], regs),
                        P.ValueOf(host, ty, os[3], regs)];
            P.Sources(host, inst, regs) == if P.FirstSource(inst) == 1 then abc
                else [P.ValueOf(host, ty, os[0], regs)] + abc
  {
  }

  lemma ThreeWorths(host: P.Host, homes: R.Homes, p: R.Physical, lane: Lane, inst: P.Inst)
    requires SlotRel(p, lane) && GoodHomes(homes) && |inst.operands| == 4 && Single(inst.op.ty)
    requires SingleSource(inst.operands[1]) && SingleSource(inst.operands[2]) && SingleSource(inst.operands[3])
    requires forall k | 0 <= k < 4 :: Mentioned(inst.operands[k]) <= homes.Keys
    ensures var a, b, c := Worth(homes, inst.operands[1], lane), Worth(homes, inst.operands[2], lane),
            Worth(homes, inst.operands[3], lane);
            exists d: nat :: P.Sources(host, inst, ViewOf(homes, p, inst).regs) ==
              if P.FirstSource(inst) == 1 then [a, b, c] else [d, a, b, c]
  {
    hide Worth, ViewOf, SlotRel, P.Sources, P.ValueOf;
    var regs := ViewOf(homes, p, inst).regs;
    SingleWorth(host, homes, p, lane, inst, 1);
    SingleWorth(host, homes, p, lane, inst, 2);
    SingleWorth(host, homes, p, lane, inst, 3);
    ThreeSources(host, inst, regs);
    var a, b, c := Worth(homes, inst.operands[1], lane), Worth(homes, inst.operands[2], lane),
        Worth(homes, inst.operands[3], lane);
    var d := P.ValueOf(host, inst.op.ty, inst.operands[0], regs);
    assert [d] + [a, b, c] == [d, a, b, c];
  }

  lemma FusedExpansion(homes: R.Homes, offsets: map<nat, nat>, inst: P.Inst) returns (pre: seq<A.Inst>, main: A.Inst)
    requires Lowerable(offsets, inst) && KindOf(inst) == Fused && Needs(inst) <= homes.Keys && GoodHomes(homes)
    requires |inst.operands| == 4 && inst.operands[0].RegOp? && AecType(inst.op.ty).Some?
             && AluOpcode(inst.op.base).Some?
    ensures Mentioned(inst.operands[0]) <= homes.Keys
    ensures forall k | 0 <= k < |inst.operands[1..]| ::
              IsSource(inst.operands[1..][k]) && Mentioned(inst.operands[1..][k]) <= homes.Keys
    ensures Expand(homes, offsets, inst) == pre + [Guarded(inst, main)]
            && pre == Preload(inst.operands[1..], FIRST_TEMP)
    ensures var rs := SourceRegs(homes, inst.operands[1..], FIRST_TEMP);
            main == A.Inst(AluOpcode(inst.op.base).value, AluType(inst), BaseOf(homes, inst.operands[0]), rs[0], rs[1],
                           rs[2])
  {
    hide Guarded, Preload, SourceRegs, Needs, GoodHomes, IsSource, BaseOf, Mentioned;
    SourcesHomed(homes, inst);
    var os := inst.operands;
    assert os[1..][0] == os[1] && os[1..][1] == os[2] && os[1..][2] == os[3];
    pre := Preload(os[1..], FIRST_TEMP);
    var rs := SourceRegs(homes, os[1..], FIRST_TEMP);
    main := A.Inst(AluOpcode(inst.op.base).value, AluType(inst), BaseOf(homes, os[0]), rs[0], rs[1], rs[2]);
  }

  lemma FusedExecutes(cfg: Config, main: A.Inst, lane: Lane, gmem: seq<Byte>, a: nat, b: nat, c: nat)
    requires main.opcode == A.MAD || main.opcode == A.FMA
    requires main.dest < 256 && main.src1 < 256 && main.src2 < 256 && main.src3 < 256
    requires lane.regs[main.src1] == a && lane.regs[main.src2] == b && lane.regs[main.src3] == c
    requires Alu3(cfg.ops, main.opcode, main.dtype, a, b, c).Some?
    ensures Execute(cfg, main, lane, gmem) == SetReg(main.dest, Alu3(cfg.ops, main.opcode, main.dtype, a, b, c).value)
  {
    hide Alu3;
  }

  lemma FusedMain(inst: P.Inst, main: A.Inst)
    requires inst.op.base in {P.Fma, P.Mad} && AluOpcode(inst.op.base) == Some(main.opcode)
    ensures main.opcode == A.MAD || main.opcode == A.FMA
  {
  }

  /** A fused expansion does what the instruction does exactly if the operation fits, whatever the state. */
  lemma FusedMatches(cfg: Config, offsets: map<nat, nat>, homes: R.Homes, p: R.Physical, inst: P.Inst, lane: Lane)
    requires Ready(cfg, offsets, homes, inst, lane.id) && KindOf(inst) == Fused && SlotRel(p, lane)
    ensures Matches(homes, p, EffectOf(cfg, offsets, homes, p, inst, lane.id),
                    ExecSeq(cfg, Expand(homes, offsets, inst), One(lane, p.gmem)), lane.id)
            <==> OperationFits(ThreadHost(cfg, offsets, lane.id), inst, ViewOf(homes, p, inst))
  {
    hide *;
    ReadySingle(cfg, offsets, homes, inst, lane.id);
    var os, host, view := inst.operands, ThreadHost(cfg, offsets, lane.id), ViewOf(homes, p, inst);
    ArithmeticEffect(host, inst, view);
    GuardAgrees(homes, p, lane, inst);
    DestHome(homes, inst);
    var lane' := PrepareThree(cfg, homes, inst, lane, p.gmem);
    ThreeWorths(host, homes, p, lane, inst);
    var a, b, c := Worth(homes, os[1], lane), Worth(homes, os[2], lane), Worth(homes, os[3], lane);
    var vs := P.Sources(host, inst, view.regs);
    var d: nat :| vs == if P.FirstSource(inst) == 1 then [a, b, c] else [d, a, b, c];
    FusedValue(cfg, offsets, lane.id, inst, a, b, c, d);
    var pre, main := FusedExpansion(homes, offsets, inst);
    FusedMain(inst, main);
    FusedExecutes(cfg, main, lane', p.gmem, a, b, c);
    var word := Alu3(cfg.ops, AluOpcode(inst.op.base).value, AluType(inst), a, b, c).value;
    SingleWritten(cfg, homes, p, inst, pre, main, lane, lane', os[0].reg, word);
    HostEval(cfg, offsets, lane.id, inst.op, vs);
    FusedFits(host, inst, view);
    EffectIs(cfg, offsets, homes, p, inst, lane.id);
    SingleMatches(homes, p, GuardOn(inst, lane), os[0].reg, word, Eval(cfg.ops, inst.op, vs),
                  ExecSeq(cfg, Expand(homes, offsets, inst), One(lane, p.gmem)), lane.id);
  }

  // ----- pairs -----

  /** The common end of expansions that set a pair from one word: the low register, then zero in the high one. */
  lemma PairWritten(cfg: Config, homes: R.Homes, p: R.Physical, inst: P.Inst, pre: seq<A.Inst>, a: A.Inst, lane: Lane,
                    lane': Lane, r: P.Reg, v: nat)
    requires SlotRel(p, lane) && GoodHomes(homes) && r in homes && P.IsPair(r) && v < WORD
    requires (inst.guard.Some? ==> inst.guard.value.id < 8) && a.guard == None
    requires ExecSeq(cfg, pre, One(lane, p.gmem)) == Running(One(lane', p.gmem)) && TempsOnly(lane, lane')
    requires GuardOn(inst, lane) ==> Execute(cfg, a, lane', p.gmem) == SetReg(homes[r].base, v)
    ensures var high := A.Inst(A.LOADI, A.U32, homes[r].base + 1);
            var o := ExecSeq(cfg, pre + [Guarded(inst, a), Guarded(inst, high)], One(lane, p.gmem));
            if GuardOn(inst, lane) then RunningRel(R.WriteReg(homes, p, r, v), o, lane.id)
                else RunningRel(p, o, lane.id)
  {
    hide ExecSeq, Exec, Execute, R.WriteReg, SlotRel, Guarded;
    var high := A.Inst(A.LOADI, A.U32, homes[r].base + 1);
    RelTemps(p, lane, lane');
    RelPair(homes, p, lane', r, v);
    GuardedExec(cfg, inst, a, lane', p.gmem);
    ExecLast(cfg, pre, Guarded(inst, a), One(lane, p.gmem), One(lane', p.gmem));
    assert pre + [Guarded(inst, a), Guarded(inst, high)] == pre + [Guarded(inst, a)] + [Guarded(inst, high)];
    if GuardOn(inst, lane) {
      var low := lane'.(regs := lane'.regs[homes[r].base := v]);
      assert Exec(cfg, Guarded(inst, a), One(lane', p.gmem)) == Running(One(low, p.gmem));
      ExecLast(cfg, pre + [Guarded(inst, a)], Guarded(inst, high), One(lane, p.gmem), One(low, p.gmem));
      GuardedExec(cfg, inst, high, low, p.gmem);
      HighZero(cfg, high, low, p.gmem);
      assert v % WORD == v && v / WORD == 0;
      WrittenMemory(homes, p, r, v);
    } else {
      ExecLast(cfg, pre + [Guarded(inst, a)], Guarded(inst, high), One(lane, p.gmem), One(lane', p.gmem));
      GuardedExec(cfg, inst, high, lane', p.gmem);
    }
  }

  lemma HighZero(cfg: Config, high: A.Inst, lane: Lane, gmem: seq<Byte>)
    requires high.opcode == A.LOADI && high.imm == 0 && high.dest < 256
    ensures Execute(cfg, high, lane, gmem) == SetReg(high.dest, 0)
  {
  }

  lemma WideExpansion(homes: R.Homes, offsets: map<nat, nat>, inst: P.Inst) returns (pre: seq<A.Inst>, main: A.Inst)
    requires Lowerable(offsets, inst) && KindOf(inst) in {WideMultiply, WideAdd} && Needs(inst) <= homes.Keys
             && GoodHomes(homes)
    ensures Mentioned(inst.operands[0]) <= homes.Keys
    ensures forall k | 0 <= k < |inst.operands[1..]| ::
              IsSource(inst.operands[1..][k]) && Mentioned(inst.operands[1..][k]) <= homes.Keys
    ensures Expand(homes, offsets, inst) ==
            pre + [Guarded(inst, main), Guarded(inst, A.Inst(A.LOADI, A.U32, BaseOf(homes, inst.operands[0]) + 1))]
    ensures pre == Preload(inst.operands[1..], FIRST_TEMP)
    ensures var rs := SourceRegs(homes, inst.operands[1..], FIRST_TEMP);
            main == A.Inst(if KindOf(inst) == WideMultiply then A.MUL
                           else A.ADD, A.U32, BaseOf(homes, inst.operands[0]), rs[0], rs[1])
  {
    hide Guarded, Preload, SourceRegs, Needs, GoodHomes, IsSource, BaseOf, Mentioned;
    SourcesHomed(homes, inst);
    var os := inst.operands;
    assert os[1..][0] == os[1] && os[1..][1] == os[2];
    pre := Preload(os[1..], FIRST_TEMP);
    var rs := SourceRegs(homes, os[1..], FIRST_TEMP);
    main := A.Inst(if KindOf(inst) == WideMultiply then A.MUL else A.ADD, A.U32, BaseOf(homes, os[0]), rs[0], rs[1]);
  }

  lemma WideExecutes(cfg: Config, main: A.Inst, lane: Lane, gmem: seq<Byte>, a: nat, b: nat)
    requires (main.opcode == A.MUL || main.opcode == A.ADD) && main.dtype == A.U32
    requires main.dest < 256 && main.src1 < 256 && main.src2 < 256 && lane.regs[main.src1] == a
             && lane.regs[main.src2] == b
    ensures Execute(cfg, main, lane, gmem) == SetReg(main.dest, Mask32(if main.opcode == A.MUL then a * b else a + b))
  {
  }

  /** What `Ready` gives for the two instructions that set a pair from two operands. */
  lemma ReadyPair(cfg: Config, offsets: map<nat, nat>, homes: R.Homes, inst: P.Inst, id: LaneId)
    requires Ready(cfg, offsets, homes, inst, id) && KindOf(inst) in {WideMultiply, WideAdd}
    ensures Lowerable(offsets, inst) && Needs(inst) <= homes.Keys && GoodHomes(homes) && NeedsHome(inst.op.base, 0)
    ensures inst.op.base != P.Ret && |inst.operands| == 3 && inst.operands[0].RegOp? && P.IsPair(inst.operands[0].reg)
    ensures IsSource(inst.operands[1]) && IsSource(inst.operands[2]) && FIRST_TEMP < 256
    ensures inst.guard.Some? ==> P.IsPredicate(inst.guard.value) && inst.guard.value.id < 8
    ensures KindOf(inst) == WideMultiply ==>
              && P.FirstSource(inst) == 1 && SingleSource(inst.operands[1]) && SingleSource(inst.operands[2])
                  && Single(inst.op.ty)
              && inst.op.base == P.Mul && inst.op.ty == P.U32
    ensures KindOf(inst) == WideAdd ==>
              && P.FirstSource(inst) == 1 && PairSource(inst.operands[1]) && PairSource(inst.operands[2])
                  && Wide(inst.op.ty)
              && inst.op.base == P.Add && inst.op.ty != P.F32
  {
    hide P.ReadRegisters, Needs, GoodHomes, OpsTotal;
  }

  /** A pair written under a guard, as the effect of the instruction. */
  lemma PairMatches(homes: R.Homes, p: R.Physical, inst: P.Inst, lane: Lane, o: Outcome, r: P.Reg, v: nat)
    requires if GuardOn(inst, lane) then RunningRel(R.WriteReg(homes, p, r, v), o, lane.id)
             else RunningRel(p, o, lane.id)
    ensures Matches(homes, p, if GuardOn(inst, lane) then P.Write(r, v) else P.Nothing, o, lane.id)
  {
  }

  lemma Product(ops: F32Ops, op: P.Opcode, a: nat, b: nat)
    requires op.base == P.Mul && op.ty == P.U32
    ensures Eval(ops, op, [a, b]) == Mask32(a * b)
  {
  }

  /** The expansion of a wide instruction, operands preloaded, writes what the instruction evaluates to. */
  lemma WideEnds(cfg: Config, offsets: map<nat, nat>, homes: R.Homes, p: R.Physical, inst: P.Inst, lane: Lane,
                 lane': Lane, a: nat, b: nat)
    requires Ready(cfg, offsets, homes, inst, lane.id) && KindOf(inst) in {WideMultiply, WideAdd} && SlotRel(p, lane)
    requires |inst.operands| == 3 && GoodHomes(homes)
    requires forall k | 0 <= k < |inst.operands[1..]| ::
               IsSource(inst.operands[1..][k]) && Mentioned(inst.operands[1..][k]) <= homes.Keys
    requires ExecSeq(cfg, Preload(inst.operands[1..], FIRST_TEMP), One(lane, p.gmem)) == Running(One(lane', p.gmem))
             && TempsOnly(lane, lane')
    requires var rs := SourceRegs(homes, inst.operands[1..], FIRST_TEMP);
             rs[0] < 256 && rs[1] < 256 && lane'.regs[rs[0]] == a && lane'.regs[rs[1]] == b
    requires ThreadHost(cfg, offsets, lane.id).eval(inst.op, P.Sources(ThreadHost(cfg, offsets, lane.id), inst,
                                                                       ViewOf(homes, p, inst).regs))
          == Mask32(if KindOf(inst) == WideMultiply then a * b else a + b)
    ensures Matches(homes, p, EffectOf(cfg, offsets, homes, p, inst, lane.id),
                    ExecSeq(cfg, Expand(homes, offsets, inst), One(lane, p.gmem)), lane.id)
  {
    hide *;
    ReadyPair(cfg, offsets, homes, inst, lane.id);
    ArithmeticEffect(ThreadHost(cfg, offsets, lane.id), inst, ViewOf(homes, p, inst));
    GuardAgrees(homes, p, lane, inst);
    DestHome(homes, inst);
    var pre, main := WideExpansion(homes, offsets, inst);
    WideMain(inst, main, main.dest, main.src1, main.src2);
    WideExecutes(cfg, main, lane', p.gmem, a, b);
    var n: nat := if KindOf(inst) == WideMultiply then a * b else a + b;
    MaskBelow(n);
    PairWritten(cfg, homes, p, inst, pre, main, lane, lane', inst.operands[0].reg, Mask32(n));
    EffectIs(cfg, offsets, homes, p, inst, lane.id);
    PairMatches(homes, p, inst, lane, ExecSeq(cfg, Expand(homes, offsets, inst), One(lane, p.gmem)),
                inst.operands[0].reg, Mask32(n));
  }

  lemma WideMultiplyMatches(cfg: Config, offsets: map<nat, nat>, homes: R.Homes, p: R.Physical, inst: P.Inst,
                            lane: Lane)
    requires Ready(cfg, offsets, homes, inst, lane.id) && KindOf(inst) == WideMultiply && SlotRel(p, lane)
    ensures Matches(homes, p, EffectOf(cfg, offsets, homes, p, inst, lane.id),
                    ExecSeq(cfg, Expand(homes, offsets, inst), One(lane, p.gmem)), lane.id)
  {
    hide *;
    ReadyPair(cfg, offsets, homes, inst, lane.id);
    var lane' := PrepareTwo(cfg, homes, inst, lane, p.gmem);
    TwoWorths(ThreadHost(cfg, offsets, lane.id), homes, p, lane, inst);
    var a, b := Worth(homes, inst.operands[1], lane), Worth(homes, inst.operands[2], lane);
    Product(cfg.ops, inst.op, a, b);
    HostEval(cfg, offsets, lane.id, inst.op, [a, b]);
    WideEnds(cfg, offsets, homes, p, inst, lane, lane', a, b);
  }

  lemma WideMain(inst: P.Inst, main: A.Inst, dest: nat, x: nat, y: nat)
    requires main == A.Inst(if KindOf(inst) == WideMultiply then A.MUL else A.ADD, A.U32, dest, x, y)
    ensures main.guard == None && main.dtype == A.U32 && main.opcode == if KindOf(inst) == WideMultiply then A.MUL
            else A.ADD
  {
  }

  lemma HostEval(cfg: Config, offsets: map<nat, nat>, id: LaneId, op: P.Opcode, vs: seq<nat>)
    ensures ThreadHost(cfg, offsets, id).eval(op, vs) == Eval(cfg.ops, op, vs)
  {
  }

  lemma MaskBelow(x: int)
    ensures Mask32(x) < WORD
  {
  }

  lemma EffectIs(cfg: Config, offsets: map<nat, nat>, homes: R.Homes, p: R.Physical, inst: P.Inst, id: LaneId)
    ensures EffectOf(cfg, offsets, homes, p, inst, id) == P.GuardedEffect(ThreadHost(cfg, offsets, id), inst,
                                                                          ViewOf(homes, p, inst))
  {
  }

  /** A 64-bit sum keeps the low word of the sum of the low words. */
  lemma LowSum(x: nat, y: nat)
    ensures Mask32(x + y) == Mask32(x % WORD + y % WORD)
  {
  }

  lemma Sum(ops: F32Ops, op: P.Opcode, a: nat, b: nat)
    requires op.base == P.Add && op.ty != P.F32
    ensures Eval(ops, op, [a, b]) == Mask32(a + b)
  {
  }

  lemma WideSum(cfg: Config, offsets: map<nat, nat>, homes: R.Homes, p: R.Physical, inst: P.Inst, lane: Lane)
    requires Ready(cfg, offsets, homes, inst, lane.id) && KindOf(inst) == WideAdd && SlotRel(p, lane)
             && |inst.operands| == 3
    requires IsSource(inst.operands[1]) && IsSource(inst.operands[2])
    requires Mentioned(inst.operands[1]) <= homes.Keys && Mentioned(inst.operands[2]) <= homes.Keys
    ensures var host := ThreadHost(cfg, offsets, lane.id);
            host.eval(inst.op, P.Sources(host, inst, ViewOf(homes, p, inst).regs))
            == Mask32(Worth(homes, inst.operands[1], lane) + Worth(homes, inst.operands[2], lane))
  {
    hide *;
    ReadyPair(cfg, offsets, homes, inst, lane.id);
    var os, host, regs := inst.operands, ThreadHost(cfg, offsets, lane.id), ViewOf(homes, p, inst).regs;
    PairWorth(host, homes, p, lane, inst, 1);
    PairWorth(host, homes, p, lane, inst, 2);
    TwoSources(host, inst, regs);
    var x, y := P.ValueOf(host, inst.op.ty, os[1], regs), P.ValueOf(host, inst.op.ty, os[2], regs);
    LowSum(x, y);
    Sum(cfg.ops, inst.op, x, y);
    HostEval(cfg, offsets, lane.id, inst.op, [x, y]);
  }

  lemma WideAddMatches(cfg: Config, offsets: map<nat, nat>, homes: R.Homes, p: R.Physical, inst: P.Inst, lane: Lane)
    requires Ready(cfg, offsets, homes, inst, lane.id) && KindOf(inst) == WideAdd && SlotRel(p, lane)
    ensures Matches(homes, p, EffectOf(cfg, offsets, homes, p, inst, lane.id),
                    ExecSeq(cfg, Expand(homes, offsets, inst), One(lane, p.gmem)), lane.id)
  {
    hide *;
    ReadyPair(cfg, offsets, homes, inst, lane.id);
    var lane' := PrepareTwo(cfg, homes, inst, lane, p.gmem);
    WideSum(cfg, offsets, homes, p, inst, lane);
    var a, b := Worth(homes, inst.operands[1], lane), Worth(homes, inst.operands[2], lane);
    WideEnds(cfg, offsets, homes, p, inst, lane, lane', a, b);
  }
}
