/** The arithmetic of the restricted PTX subset, for one thread, and which instructions are in the subset. */
module PtxMeaning {
  import opened Wrappers
  import opened Words
  import opened Expansion
  import P = Ptx
  import M = Machine

  /** Binary32 arithmetic never overflows into an error and yields words. */
  ghost predicate OpsTotal(ops: M.F32Ops) {
    && (forall a, b :: ops.add(a, b).Some? && ops.add(a, b).value < WORD)
    && (forall a, b :: ops.sub(a, b).Some? && ops.sub(a, b).value < WORD)
    && (forall a, b :: ops.mul(a, b).Some? && ops.mul(a, b).value < WORD)
    && (forall a, b, c :: ops.fma(a, b, c).Some? && ops.fma(a, b, c).value < WORD)
  }

  function ValueOr0(o: Option<nat>): nat {
    if o.Some? then o.value else 0
  }

  /** Shift amounts beyond the register width clear it (PTX ISA 9.3, section 9.7.8). */
  function ShiftLeft(a: nat, b: nat): nat {
    if b >= 32 then 0 else Mask32(a * Pow2(b))
  }

  function ShiftRight(a: nat, b: nat): nat {
    if b >= 32 then 0 else Mask32(a / Pow2(b))
  }

  const SIGN: nat := 0x8000_0000

  /** A word read in two's complement. */
  function Signed(a: nat): int {
    if a < SIGN then a else a - WORD
  }

  /** Signed shifts fill with the sign. */
  function ShiftRightSigned(a: nat, b: nat): nat {
    Mask32(Signed(a) / Pow2(if b >= 32 then 32 else b))
  }

  /**
   * What an arithmetic instruction computes. A binary32 `mad` rounds once, as `fma` does (PTX ISA 9.3, section 9.7.3);
   * 64-bit sums and wide products keep 32 bits, the abstract address rule.
   */
  function Eval(ops: M.F32Ops, op: P.Opcode, vs: seq<nat>): nat {
    var float := op.ty == P.F32;
    if op.base == P.Mov && |vs| == 1 then vs[0] % (if Wide(op.ty) then WORD * WORD else WORD)
    else if op.base == P.Fma && |vs| == 4 then ValueOr0(ops.fma(vs[1], vs[2], vs[3]))
    else if op.base == P.Mad && |vs| == 3 then
      if float then ValueOr0(ops.fma(vs[0], vs[1], vs[2])) else Mask32(vs[0] * vs[1] + vs[2])
    else if |vs| != 2 then 0
    else
      match op.base
      case Add => if float then ValueOr0(ops.add(vs[0], vs[1])) else Mask32(vs[0] + vs[1])
      case Sub => if float then ValueOr0(ops.sub(vs[0], vs[1])) else Mask32((vs[0] as int) - vs[1])
      case Mul => if float then ValueOr0(ops.mul(vs[0], vs[1])) else Mask32(vs[0] * vs[1])
      case And => Mask32(BitAnd(vs[0], vs[1]))
      case Or => Mask32(BitOr(vs[0], vs[1]))
      case Xor => Mask32(BitXor(vs[0], vs[1]))
      case Shl => ShiftLeft(vs[0], vs[1])
      case Shr => if op.ty == P.S32 then ShiftRightSigned(vs[0], vs[1]) else ShiftRight(vs[0], vs[1])
      case _ => 0
  }

  predicate CompareValues(ops: M.F32Ops, op: P.Opcode, a: nat, b: nat) {
    |op.mods| == 1 && op.mods[0].Cmp?
    && (if op.ty == P.F32 then ops.cmp(op.mods[0].op, a, b)
        else if op.ty == P.S32 then M.CompareInts(op.mods[0].op, Signed(a), Signed(b))
        else M.CompareInts(op.mods[0].op, a, b))
  }

  /** Parameters lie in parameter memory at the offsets of the layout. */
  function ParamValue(offsets: map<nat, nat>, pmem: seq<Byte>, p: nat, ty: P.Type): nat {
    if p in offsets && offsets[p] + P.SizeOf(ty) <= |pmem| then FromBytes(pmem[offsets[p]..offsets[p] + P.SizeOf(ty)])
        else 0
  }

  /** The host a thread of the launch runs on. */
  function ThreadHost(cfg: M.Config, offsets: map<nat, nat>, id: M.LaneId): P.Host {
    P.Host((op: P.Opcode, vs: seq<nat>) => Eval(cfg.ops, op, vs),
           (op: P.Opcode, a: nat, b: nat) => CompareValues(cfg.ops, op, a, b),
           (selector: nat) => ValueOr0(M.SpecialValue(selector, id)),
           (p: nat, ty: P.Type) => ParamValue(offsets, cfg.pmem, p, ty))
  }

  // ----- the subset -----

  predicate Integer32(ty: P.Type) {
    ty == P.U32 || ty == P.B32 || ty == P.S32
  }

  predicate Single(ty: P.Type) {
    Integer32(ty) || ty == P.F32
  }

  predicate SingleReg(r: P.Reg) {
    !P.IsPredicate(r) && !P.IsPair(r)
  }

  predicate SingleSource(o: P.Operand) {
    (o.RegOp? && SingleReg(o.reg)) || ParseImmediate(o).Some?
  }

  predicate PairSource(o: P.Operand) {
    (o.RegOp? && P.IsPair(o.reg)) || o.IntImm?
  }

  predicate SingleDest(o: P.Operand) {
    o.RegOp? && SingleReg(o.reg)
  }

  predicate PairDest(o: P.Operand) {
    o.RegOp? && P.IsPair(o.reg)
  }

  /** Integer products name their half, binary32 operations may name their rounding, nothing else is modified. */
  predicate KnownModifiers(inst: P.Inst) {
    var op := inst.op;
    if op.base == P.Fma then op.mods == [P.Rn]
    else if op.base == P.Mul || op.base == P.Mad then
      if op.ty == P.F32 then op.mods == [] || op.mods == [P.Rn] else op.mods == [P.Lo]
    else if op.ty == P.F32 then op.mods == [] || op.mods == [P.Rn]
    else op.mods == []
  }

  /** Rows of the lowering table: opcode, types and register classes fit together. */
  predicate InSubset(inst: P.Inst) {
    var os, ty, mods := inst.operands, inst.op.ty, inst.op.mods;
    match KindOf(inst)
    case LdParam =>
      inst.guard.None? && |os| == 2 && ((Single(ty) && SingleDest(os[0])) || (Wide(ty) && PairDest(os[0])))
    case LdGlobal => |os| == 2 && Single(ty) && SingleDest(os[0]) && os[1].Addr? && P.IsPair(os[1].reg)
    case StGlobal => |os| == 2 && Single(ty) && os[0].Addr? && P.IsPair(os[0].reg) && SingleDest(os[1])
    case Move =>
      |os| == 2 && ((Single(ty) && SingleDest(os[0]) && (SingleSource(os[1]) || os[1].Special?))
                    || (Wide(ty) && PairDest(os[0]) && PairSource(os[1])))
    case SetPredicate =>
      |os| == 3 && (ty == P.U32 || ty == P.S32 || ty == P.F32) && SingleSource(os[1]) && SingleSource(os[2])
    case Branch => true
    case Return => inst.guard.None? && os == []
    case WideMultiply => |os| == 3 && mods == [P.Wide] && ty == P.U32 && PairDest(os[0]) && SingleSource(os[1])
        && SingleSource(os[2])
    case WideAdd => |os| == 3 && mods == [] && PairDest(os[0]) && PairSource(os[1]) && PairSource(os[2])
    case Fused =>
      && |os| == 4 && KnownModifiers(inst) && SingleDest(os[0]) && SingleSource(os[1]) && SingleSource(os[2])
          && SingleSource(os[3])
      && (ty == P.F32 || (Integer32(ty) && inst.op.base == P.Mad))
    case Binary =>
      && |os| == 3 && KnownModifiers(inst) && SingleDest(os[0]) && SingleSource(os[1]) && SingleSource(os[2])
      && (Integer32(ty) || (ty == P.F32 && inst.op.base in {P.Add, P.Sub, P.Mul}))
    case Unknown => false
  }
}
