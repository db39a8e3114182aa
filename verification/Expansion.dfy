/** What each PTX instruction is lowered to, once every register has its home. */
module Expansion {
  import opened Wrappers
  import opened Allocator
  import P = Ptx
  import A = Isa
  import R = PhysicalRun

  /** `PTX_TO_AEC_TYPE`; `None` where the table has no entry. */
  function AecType(ty: P.Type): Option<A.DType> {
    match ty
    case U64 | B64 => Some(A.B64)
    case U32 => Some(A.U32)
    case B32 => Some(A.B32)
    case S32 => Some(A.S32)
    case F32 => Some(A.F32)
    case F16 => Some(A.F16)
    case PredType => Some(A.NoType)
    case F64 | U16 | Untyped => None
  }

  function AluOpcode(b: P.Base): Option<A.Opcode> {
    match b
    case Add => Some(A.ADD)
    case Sub => Some(A.SUB)
    case Mul => Some(A.MUL)
    case Mad => Some(A.MAD)
    case And => Some(A.AND)
    case Or => Some(A.OR)
    case Xor => Some(A.XOR)
    case Shl => Some(A.SHL)
    case Shr => Some(A.SHR)
    case Fma => Some(A.FMA)
    case _ => None
  }

  predicate Wide(ty: P.Type) {
    ty == P.U64 || ty == P.B64
  }

  /** `_parse_immediate`. */
  function ParseImmediate(o: P.Operand): Option<int> {
    match o
    case IntImm(v) => Some(v)
    case FloatImm(bits) => Some(bits)
    case _ => None
  }

  function Mentioned(o: P.Operand): set<P.Reg> {
    P.OperandRegs(o)
  }

  /** A comparison's destination is a predicate; `ret` looks at no operand. */
  predicate NeedsHome(b: P.Base, k: nat) {
    b != P.Ret && !(b == P.Setp && k == 0)
  }

  /** The general registers an instruction needs a home for. */
  function Needs(inst: P.Inst): set<P.Reg> {
    set k: nat, r | k < |inst.operands| && r in P.OperandRegs(inst.operands[k]) && NeedsHome(inst.op.base, k) :: r
  }

  predicate IsSource(o: P.Operand) {
    o.RegOp? || ParseImmediate(o).Some?
  }

  // ----- which instructions are lowered -----

  datatype Kind = LdParam | LdGlobal | StGlobal | Move | SetPredicate | Branch | Return
                | WideMultiply | WideAdd | Fused | Binary | Unknown

  /** The dispatch of `_lower_instruction` and `_lower_alu`. */
  function KindOf(inst: P.Inst): Kind {
    var op := inst.op;
    if op.base == P.Ld && op.mods == [P.ParamSpace] then LdParam
    else if op.base == P.Ld && op.mods == [P.GlobalSpace] then LdGlobal
    else if op.base == P.St && op.mods == [P.GlobalSpace] then StGlobal
    else if op.base == P.Mov && op.mods == [] then Move
    else if op.base == P.Setp then SetPredicate
    else if op.base == P.Bra then Branch
    else if op.base == P.Ret then Return
    else if op.base == P.Mul && op.mods != [] && op.mods[0] == P.Wide then WideMultiply
    else if op.base == P.Mad || op.base == P.Fma then Fused
    else if op.base == P.Add && Wide(op.ty) then WideAdd
    else if AluOpcode(op.base).Some? then Binary
    else Unknown
  }

  /** Operands and types are as the lowerer wants them; otherwise it raises. */
  predicate Lowerable(offsets: map<nat, nat>, inst: P.Inst) {
    var os := inst.operands;
    && (inst.guard.Some? ==> P.IsPredicate(inst.guard.value) && inst.guard.value.id < 8)
    && match KindOf(inst)
       case LdParam => |os| == 2 && os[0].RegOp? && os[1].ParamAddr? && os[1].param in offsets
           && AecType(inst.op.ty).Some?
       case LdGlobal => |os| == 2 && os[0].RegOp? && os[1].Addr? && AecType(inst.op.ty).Some?
       case StGlobal => |os| == 2 && os[0].Addr? && os[1].RegOp? && AecType(inst.op.ty).Some?
       case Move => |os| == 2 && os[0].RegOp? && (os[1].Special? || IsSource(os[1])) && AecType(inst.op.ty).Some?
       case SetPredicate =>
         && |os| == 3 && |inst.op.mods| == 1 && inst.op.mods[0].Cmp? && AecType(inst.op.ty).Some?
         && os[0].RegOp? && P.IsPredicate(os[0].reg) && os[0].reg.id < 8 && IsSource(os[1]) && IsSource(os[2])
       case Branch => |os| == 1 && os[0].Target?
       case Return => true
       case WideMultiply | WideAdd => |os| == 3 && os[0].RegOp? && IsSource(os[1]) && IsSource(os[2])
       case Binary => |os| == 3 && os[0].RegOp? && IsSource(os[1]) && IsSource(os[2]) && AecType(inst.op.ty).Some?
       case Fused => |os| == 4 && os[0].RegOp? && IsSource(os[1]) && IsSource(os[2]) && IsSource(os[3])
           && AecType(inst.op.ty).Some?
       case Unknown => false
  }

  // ----- the code -----

  /** `_guard`. */
  function Guarded(inst: P.Inst, a: A.Inst): A.Inst {
    if inst.guard.None? then a else a.(guard := Some(inst.guard.value.id), negated := inst.negated)
  }

  function LoadImmediate(dest: nat, value: int): A.Inst {
    A.Inst(A.LOADI, dest := dest, imm := value)
  }

  /** The loads of immediate operands into temporaries, from `temp` on. */
  function Preload(sources: seq<P.Operand>, temp: nat): seq<A.Inst>
    requires forall k | 0 <= k < |sources| :: IsSource(sources[k])
  {
    if sources == [] then []
    else if sources[0].RegOp? then Preload(sources[1..], temp)
    else
      assert IsSource(sources[0]);
      [LoadImmediate(temp, ParseImmediate(sources[0]).value)] + Preload(sources[1..], temp + 1)
  }

  /** Where each operand is found after the preloads. */
  function SourceRegs(homes: R.Homes, sources: seq<P.Operand>, temp: nat): (rs: seq<nat>)
    requires forall k | 0 <= k < |sources| :: IsSource(sources[k]) && Mentioned(sources[k]) <= homes.Keys
    ensures |rs| == |sources|
  {
    if sources == [] then []
    else if sources[0].RegOp? then
      assert sources[0].reg in Mentioned(sources[0]);
      [homes[sources[0].reg].base] + SourceRegs(homes, sources[1..], temp)
    else [temp] + SourceRegs(homes, sources[1..], temp + 1)
  }

  lemma SourcesHomed(homes: R.Homes, inst: P.Inst)
    requires Needs(inst) <= homes.Keys
    ensures forall k: nat | k < |inst.operands| && NeedsHome(inst.op.base, k) ::
              Mentioned(inst.operands[k]) <= homes.Keys
  {
    forall k: nat, r | k < |inst.operands| && NeedsHome(inst.op.base, k) && r in Mentioned(inst.operands[k])
      ensures r in homes
    {
      assert r in Needs(inst);
    }
  }

  function BaseOf(homes: R.Homes, o: P.Operand): nat
    requires Mentioned(o) <= homes.Keys && (o.RegOp? || o.Addr?)
  {
    assert o.reg in Mentioned(o);
    homes[o.reg].base
  }

  function AluType(inst: P.Inst): A.DType
    requires AecType(inst.op.ty).Some?
  {
    if inst.op.base == P.Shl then A.U32 else AecType(inst.op.ty).value
  }

  /** `_lower_instruction`, with branch targets still 0. */
  function Expand(homes: R.Homes, offsets: map<nat, nat>, inst: P.Inst): seq<A.Inst>
    requires Lowerable(offsets, inst) && Needs(inst) <= homes.Keys
  {
    SourcesHomed(homes, inst);
    var os, ty := inst.operands, inst.op.ty;
    match KindOf(inst)
    case LdParam =>
      var at, dest := offsets[os[1].param], BaseOf(homes, os[0]);
      if Wide(ty) then
        [LoadImmediate(FIRST_TEMP, at), A.Inst(A.LD, A.U32, dest, FIRST_TEMP, space := Some(A.Pmem)),
         LoadImmediate(FIRST_TEMP + 1, at + 4), A.Inst(A.LD, A.U32, dest + 1, FIRST_TEMP + 1, space := Some(A.Pmem))]
      else [LoadImmediate(FIRST_TEMP, at), A.Inst(A.LD, AecType(ty).value, dest, FIRST_TEMP, space := Some(A.Pmem))]
    case LdGlobal =>
      [Guarded(inst, A.Inst(A.LD, AecType(ty).value, BaseOf(homes, os[0]), BaseOf(homes, os[1]),
                            space := Some(A.Gmem)))]
    case StGlobal =>
      [Guarded(inst, A.Inst(A.ST, AecType(ty).value, 0, BaseOf(homes, os[0]), BaseOf(homes, os[1]),
                            space := Some(A.Gmem)))]
    case Move =>
      var dest := BaseOf(homes, os[0]);
      [Guarded(inst,
         if os[1].Special? then A.Inst(A.CPY, A.U32, dest, os[1].selector)
         else if os[1].RegOp? then A.Inst(A.CPY, AecType(ty).value, dest, BaseOf(homes, os[1]))
         else if Wide(ty) then A.Inst(A.LOADI64, dest := dest, imm := ParseImmediate(os[1]).value)
         else LoadImmediate(dest, ParseImmediate(os[1]).value))]
    case SetPredicate =>
      var rs := SourceRegs(homes, os[1..], FIRST_TEMP);
      Preload(os[1..], FIRST_TEMP)
      + [Guarded(inst, A.Inst(A.CMPP, AecType(ty).value, os[0].reg.id, rs[0], rs[1],
                              compare := Some(inst.op.mods[0].op)))]
    case Branch => if inst.guard.None? then [A.Inst(A.BR)] else [Guarded(inst, A.Inst(A.BRX))]
    case Return => [A.Inst(A.HALT)]
    case WideMultiply =>
      var rs, dest := SourceRegs(homes, os[1..], FIRST_TEMP), BaseOf(homes, os[0]);
      Preload(os[1..], FIRST_TEMP)
      + [Guarded(inst, A.Inst(A.MUL, A.U32, dest, rs[0], rs[1])), Guarded(inst, A.Inst(A.LOADI, A.U32, dest + 1))]
    case WideAdd =>
      var rs, dest := SourceRegs(homes, os[1..], FIRST_TEMP), BaseOf(homes, os[0]);
      Preload(os[1..], FIRST_TEMP)
      + [Guarded(inst, A.Inst(A.ADD, A.U32, dest, rs[0], rs[1])), Guarded(inst, A.Inst(A.LOADI, A.U32, dest + 1))]
    case Binary =>
      var rs := SourceRegs(homes, os[1..], FIRST_TEMP);
      Preload(os[1..], FIRST_TEMP)
      + [Guarded(inst, A.Inst(AluOpcode(inst.op.base).value, AluType(inst), BaseOf(homes, os[0]), rs[0], rs[1]))]
    case Fused =>
      var rs := SourceRegs(homes, os[1..], FIRST_TEMP);
      Preload(os[1..], FIRST_TEMP)
      + [Guarded(inst, A.Inst(AluOpcode(inst.op.base).value, AluType(inst), BaseOf(homes, os[0]), rs[0], rs[1], rs[2]))]
  }

  predicate FromSources(k: Kind) {
    k == SetPredicate || k == WideMultiply || k == WideAdd || k == Fused || k == Binary
  }

  /** What follows the preloads, given where the operands are. */
  function MainCode(inst: P.Inst, dest: nat, rs: seq<nat>): seq<A.Inst>
    requires FromSources(KindOf(inst)) && |rs| == (if KindOf(inst) == Fused then 3 else 2)
    requires KindOf(inst) in {SetPredicate, Fused, Binary} ==> AecType(inst.op.ty).Some?
    requires KindOf(inst) == SetPredicate ==> |inst.op.mods| == 1 && inst.op.mods[0].Cmp?
  {
    var k := KindOf(inst);
    if k == SetPredicate then
      [Guarded(inst, A.Inst(A.CMPP, AecType(inst.op.ty).value, dest, rs[0], rs[1],
                            compare := Some(inst.op.mods[0].op)))]
    else if k == WideMultiply then
      [Guarded(inst, A.Inst(A.MUL, A.U32, dest, rs[0], rs[1])), Guarded(inst, A.Inst(A.LOADI, A.U32, dest + 1))]
    else if k == WideAdd then
      [Guarded(inst, A.Inst(A.ADD, A.U32, dest, rs[0], rs[1])), Guarded(inst, A.Inst(A.LOADI, A.U32, dest + 1))]
    else if k == Fused then
      [Guarded(inst, A.Inst(AluOpcode(inst.op.base).value, AluType(inst), dest, rs[0], rs[1], rs[2]))]
    else [Guarded(inst, A.Inst(AluOpcode(inst.op.base).value, AluType(inst), dest, rs[0], rs[1]))]
  }

  /** The expansion, seen from its operands. */
  lemma ExpandSources(homes: R.Homes, offsets: map<nat, nat>, inst: P.Inst)
    requires Lowerable(offsets, inst) && FromSources(KindOf(inst)) && Needs(inst) <= homes.Keys
    ensures var os := inst.operands;
            && (forall k | 0 <= k < |os[1..]| :: IsSource(os[1..][k]) && Mentioned(os[1..][k]) <= homes.Keys)
            && (KindOf(inst) != SetPredicate ==> os[0].reg in homes)
            && Expand(homes, offsets, inst) ==
               Preload(os[1..], FIRST_TEMP)
               + MainCode(inst, if KindOf(inst) == SetPredicate then os[0].reg.id else homes[os[0].reg].base,
                          SourceRegs(homes, os[1..], FIRST_TEMP))
  {
    hide Preload, SourceRegs, Guarded;
    SourcesHomed(homes, inst);
    var os := inst.operands;
    forall k | 0 <= k < |os[1..]| ensures IsSource(os[1..][k]) && Mentioned(os[1..][k]) <= homes.Keys {
      assert os[1..][k] == os[k + 1];
    }
    if KindOf(inst) != SetPredicate {
      assert os[0].reg in Mentioned(os[0]);
    }
  }
}
