/** The restricted PTX subset and what it means: one thread stepping over labels and instructions. */
module Ptx {
  import opened Wrappers
  import opened Words
  import Isa

  /** Register classes by token prefix: %rd %bd %p %r %s %b %f %h. */
  datatype RegClass = ClassRd | ClassBd | ClassP | ClassR | ClassS | ClassB | ClassF | ClassH

  datatype Reg = Reg(cls: RegClass, id: nat)

  predicate IsPredicate(r: Reg) {
    r.cls == ClassP
  }

  predicate IsPair(r: Reg) {
    r.cls == ClassRd || r.cls == ClassBd
  }

  datatype Base =
    | Add | And | Cvt | Mad | Mov | Mul | Or | Shl | Shr | Sub | Xor
    | Fma | Ld | St | Setp | Bra | Ret | Atom | Call | OtherBase(id: nat)

  datatype Mod = Cc | Lo | Wide | Rn | PredMod | ParamSpace | GlobalSpace | Cmp(op: Isa.Compare) | OtherMod(id: nat)

  datatype Type = U64 | B64 | F64 | U32 | B32 | S32 | F32 | U16 | F16 | PredType | Untyped

  /** The dotted parts of an opcode: `base.mods.ty`, without the last part for `bra` and `ret`. */
  datatype Opcode = Opcode(base: Base, mods: seq<Mod>, ty: Type)

  datatype Operand =
    | RegOp(reg: Reg)
    | IntImm(value: int)
    | FloatImm(bits: nat)
    | Special(selector: nat)
    | Addr(reg: Reg)
    | ParamAddr(param: nat)
    | Target(name: string)

  datatype Inst = Inst(op: Opcode, operands: seq<Operand>, guard: Option<Reg> := None, negated: bool := false)

  datatype Item = Label(name: string) | Code(inst: Inst)

  // ----- classification, as the passes see it -----

  predicate IsPureBase(b: Base) {
    match b
    case Add | And | Cvt | Mad | Mov | Mul | Or | Shl | Shr | Sub | Xor => true
    case _ => false
  }

  predicate IsDestinationBase(b: Base) {
    IsPureBase(b) || b == Ld || b == Setp
  }

  /** `_destination_register`. */
  function Destination(inst: Inst): Option<Reg> {
    if inst.operands != [] && IsDestinationBase(inst.op.base) && inst.operands[0].RegOp? then Some(inst.operands[0].reg)
    else None
  }

  function OperandRegs(o: Operand): set<Reg> {
    match o
    case RegOp(r) => {r}
    case Addr(r) => {r}
    case _ => {}
  }

  function FirstSource(inst: Inst): nat {
    if IsDestinationBase(inst.op.base) && inst.operands != [] then 1 else 0
  }

  /** `_instruction_read_registers`. */
  function ReadRegisters(inst: Inst): (rs: set<Reg>)
    ensures inst.guard.Some? ==> inst.guard.value in rs
    ensures forall k | FirstSource(inst) <= k < |inst.operands| :: OperandRegs(inst.operands[k]) <= rs
  {
    (if inst.guard.Some? then {inst.guard.value} else {})
    + set k, r | FirstSource(inst) <= k < |inst.operands| && r in OperandRegs(inst.operands[k]) :: r
  }

  /** `_is_side_effecting`. */
  predicate IsSideEffecting(inst: Inst) {
    || inst.guard.Some?
    || Cc in inst.op.mods
    || inst.op.base in {Ld, St, Bra, Ret, Setp, Atom, Call}
    || (Destination(inst).Some? && IsPredicate(Destination(inst).value))
    || PredMod in inst.op.mods || inst.op.ty == PredType
    || !IsPureBase(inst.op.base)
  }

  // ----- semantics -----

  /** What a run never changes.  `eval` is the arithmetic, on bit patterns; `compare` decides `setp`. */
  datatype Host = Host(
    eval: (Opcode, seq<nat>) -> nat,
    compare: (Opcode, nat, nat) -> bool,
    special: nat -> nat,
    param: (nat, Type) -> nat)

  type Regs = map<Reg, nat>

  function Get(regs: Regs, r: Reg): nat {
    if r in regs then regs[r] else 0
  }

  datatype State = State(regs: Regs, gmem: seq<Byte>)

  predicate Is64(ty: Type) {
    ty == U64 || ty == B64 || ty == F64
  }

  /** The value of an operand; immediates are read at the width of the operation. */
  function ValueOf(host: Host, ty: Type, o: Operand, regs: Regs): nat {
    match o
    case RegOp(r) => Get(regs, r)
    case Addr(r) => Get(regs, r)
    case IntImm(v) => if Is64(ty) then v % (WORD * WORD) else v % WORD
    case FloatImm(bits) => bits % WORD
    case Special(s) => host.special(s)
    case ParamAddr(_) => 0
    case Target(_) => 0
  }

  function Sources(host: Host, inst: Inst, regs: Regs): (vs: seq<nat>)
    ensures |vs| == |inst.operands| - FirstSource(inst)
  {
    seq<nat>(|inst.operands| - FirstSource(inst),
        k requires 0 <= k < |inst.operands| - FirstSource(inst) =>
          ValueOf(host, inst.op.ty, inst.operands[k + FirstSource(inst)], regs))
  }

  function SizeOf(ty: Type): nat {
    match ty
    case U64 | B64 | F64 => 8
    case U16 | F16 => 2
    case _ => 4
  }

  predicate GuardHolds(inst: Inst, regs: Regs) {
    inst.guard.None? || ((Get(regs, inst.guard.value) != 0) != inst.negated)
  }

  datatype Effect = Nothing | Write(reg: Reg, value: nat) | StoreTo(address: nat, blob: seq<Byte>)
                  | Jump(name: string) | Exit | Failure

  /** The register an instruction really writes: also that of `fma`, which `Destination` does not know. */
  function Written(inst: Inst): Option<Reg> {
    if inst.op.base == Fma then
      if inst.operands != [] && inst.operands[0].RegOp? then Some(inst.operands[0].reg) else None
    else Destination(inst)
  }

  function WriteTo(dest: Option<Reg>, value: nat): Effect {
    if dest.Some? then Write(dest.value, value) else Nothing
  }

  function LoadResult(host: Host, inst: Inst, s: State): Option<nat> {
    if |inst.operands| != 2 then None
    else match inst.operands[1]
         case ParamAddr(p) => Some(host.param(p, inst.op.ty))
         case Addr(r) =>
           var address := Get(s.regs, r) % WORD;
           if address + SizeOf(inst.op.ty) <= |s.gmem|
           then Some(FromBytes(s.gmem[address..address + SizeOf(inst.op.ty)]))
           else None
         case _ => None
  }

  function StoreResult(host: Host, inst: Inst, s: State): Effect {
    if |inst.operands| != 2 || !inst.operands[0].Addr? then Failure
    else
      var address := Get(s.regs, inst.operands[0].reg) % WORD;
      if address + SizeOf(inst.op.ty) <= |s.gmem|
      then StoreTo(address, ToBytes(ValueOf(host, inst.op.ty, inst.operands[1], s.regs), SizeOf(inst.op.ty)))
      else Failure
  }

  /** What one instruction does, once its guard holds. */
  function InstEffect(host: Host, inst: Inst, s: State): Effect {
    match inst.op.base
    case Bra => if |inst.operands| == 1 && inst.operands[0].Target? then Jump(inst.operands[0].name) else Failure
    case Ret => Exit
    case St => StoreResult(host, inst, s)
    case Ld => if LoadResult(host, inst, s).Some? then WriteTo(Destination(inst), LoadResult(host, inst, s).value)
               else Failure
    case Setp =>
      var vs := Sources(host, inst, s.regs);
      if |vs| == 2 then WriteTo(Destination(inst), if host.compare(inst.op, vs[0], vs[1]) then 1 else 0) else Failure
    case Atom | Call | OtherBase(_) => Failure
    case _ => WriteTo(Written(inst), host.eval(inst.op, Sources(host, inst, s.regs)))
  }

  function GuardedEffect(host: Host, inst: Inst, s: State): Effect {
    if GuardHolds(inst, s.regs) then InstEffect(host, inst, s) else Nothing
  }

  /** The item index of a label, from index `k` on. */
  function FindLabel(items: seq<Item>, name: string, k: nat): (r: Option<nat>)
    requires k <= |items|
    ensures r.Some? ==> k <= r.value < |items| && items[r.value] == Label(name)
    ensures r.Some? ==> forall i | k <= i < r.value :: items[i] != Label(name)
    ensures r.None? ==> forall i | k <= i < |items| :: items[i] != Label(name)
    decreases |items| - k
  {
    if k == |items| then None
    else if items[k] == Label(name) then Some(k)
    else FindLabel(items, name, k + 1)
  }

  datatype StepResult = Next(pc: nat, state: State) | Done(final: State) | Fault(memory: seq<Byte>)

  function Step(host: Host, items: seq<Item>, pc: nat, s: State): StepResult {
    if pc >= |items| then Fault(s.gmem)
    else match items[pc]
         case Label(_) => Next(pc + 1, s)
         case Code(inst) =>
           match GuardedEffect(host, inst, s)
           case Nothing => Next(pc + 1, s)
           case Write(r, v) => Next(pc + 1, s.(regs := s.regs[r := v]))
           case StoreTo(address, blob) =>
             if address + |blob| <= |s.gmem|
             then Next(pc + 1, s.(gmem := s.gmem[..address] + blob + s.gmem[address + |blob|..]))
             else Fault(s.gmem)
           case Jump(l) => (match FindLabel(items, l, 0) case Some(t) => Next(t, s) case None => Fault(s.gmem))
           case Exit => Done(s)
           case Failure => Fault(s.gmem)
  }

  datatype RunResult = Halted(state: State) | Failed(memory: seq<Byte>) | OutOfSteps

  function Run(host: Host, items: seq<Item>, pc: nat, s: State, fuel: nat): RunResult
    decreases fuel
  {
    if fuel == 0 then OutOfSteps
    else match Step(host, items, pc, s)
         case Fault(m) => Failed(m)
         case Done(final) => Halted(final)
         case Next(pc', s') => Run(host, items, pc', s', fuel - 1)
  }

  // ----- frames -----

  ghost predicate SameOn(rs: set<Reg>, a: Regs, b: Regs) {
    forall r | r in rs :: Get(a, r) == Get(b, r)
  }

  /** An instruction sees registers only through the ones it is said to read. */
  lemma EffectFromReads(host: Host, inst: Inst, a: State, b: State)
    requires a.gmem == b.gmem && SameOn(ReadRegisters(inst), a.regs, b.regs)
    ensures GuardedEffect(host, inst, a) == GuardedEffect(host, inst, b)
  {
    forall k | FirstSource(inst) <= k < |inst.operands|
      ensures ValueOf(host, inst.op.ty, inst.operands[k], a.regs) == ValueOf(host, inst.op.ty, inst.operands[k], b.regs)
    {
      assert OperandRegs(inst.operands[k]) <= ReadRegisters(inst);
    }
    assert Sources(host, inst, a.regs) == Sources(host, inst, b.regs);
    if inst.op.base == Ld && |inst.operands| == 2 {
      assert OperandRegs(inst.operands[1]) <= ReadRegisters(inst);
    }
    if inst.op.base == St && |inst.operands| == 2 {
      assert OperandRegs(inst.operands[0]) <= ReadRegisters(inst);
    }
  }
}
