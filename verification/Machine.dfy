/** The executable semantics of AEC code: one warp running in lockstep over shared memory. */
module Machine {
  import opened Wrappers
  import opened Words
  import opened Isa

  /** Binary32 arithmetic on bit patterns.  Packing a result can overflow, which raises: `None`. */
  datatype F32Ops = F32Ops(
    add: (nat, nat) -> Option<nat>,
    sub: (nat, nat) -> Option<nat>,
    mul: (nat, nat) -> Option<nat>,
    fma: (nat, nat, nat) -> Option<nat>,
    cmp: (Compare, nat, nat) -> bool)

  /** What a run never changes: the arithmetic of the host and the parameter memory. */
  datatype Config = Config(ops: F32Ops, pmem: seq<Byte>)

  type Pos = n: nat | n > 0 witness 1

  /** Launch dimensions; a lane only exists when none of them is zero. */
  datatype Dim = Dim(x: Pos, y: Pos, z: Pos)

  datatype LaneId = LaneId(block: nat, thread: nat, blockDim: Dim, gridDim: Dim, warpSize: Pos)

  type Registers = r: seq<nat> | |r| == 256 witness seq(256, _ => 0)
  type Predicates = p: seq<bool> | |p| == 8 witness seq(8, _ => false)

  datatype Lane = Lane(regs: Registers, preds: Predicates, id: LaneId)

  /** What one instruction does to one lane, decided before anything is written. */
  datatype Effect =
    | Skip
    | SetReg(reg: nat, value: nat)
    | SetPair(low: nat, lowValue: nat, highValue: nat)
    | SetPred(pred: nat, flag: bool)
    | Store(address: nat, blob: seq<Byte>)
    | Trap

  /** Special register selectors of the extended profile; `None` is an unsupported selector. */
  function SpecialValue(selector: nat, id: LaneId): Option<nat> {
    var threadX := id.thread % id.blockDim.x;
    var threadYZ := id.thread / id.blockDim.x;
    var blockYZ := id.block / id.gridDim.x;
    if selector == 0x0100 then Some(threadX)
    else if selector == 0x0110 then Some(threadYZ % id.blockDim.y)
    else if selector == 0x0120 then Some(id.thread / (id.blockDim.x * id.blockDim.y))
    else if selector == 0x0101 then Some(id.blockDim.x)
    else if selector == 0x0111 then Some(id.blockDim.y)
    else if selector == 0x0121 then Some(id.blockDim.z)
    else if selector == 0x0102 then Some(id.block % id.gridDim.x)
    else if selector == 0x0112 then Some(blockYZ % id.gridDim.y)
    else if selector == 0x0122 then Some(id.block / (id.gridDim.x * id.gridDim.y))
    else if selector == 0x0103 then Some(id.gridDim.x)
    else if selector == 0x0113 then Some(id.gridDim.y)
    else if selector == 0x0123 then Some(id.gridDim.z)
    else if selector == 0x0104 then Some(threadX % id.warpSize)
    else if selector == 0x0105 then Some(threadX / id.warpSize)
    else None
  }

  function TypeSize(dtype: DType): Option<nat> {
    match dtype
    case B64 => Some(8)
    case B32 | U32 | S32 | F32 => Some(4)
    case _ => None
  }

  function Alu2(ops: F32Ops, op: Opcode, dtype: DType, a: nat, b: nat): Option<nat> {
    match op
    case ADD => if dtype == F32 then ops.add(a, b) else Some(Mask32(a + b))
    case SUB => if dtype == F32 then ops.sub(a, b) else Some(Mask32(a - b))
    case MUL => if dtype == F32 then ops.mul(a, b) else Some(Mask32(a * b))
    case AND => Some(Mask32(BitAnd(a, b)))
    case OR => Some(Mask32(BitOr(a, b)))
    case XOR => Some(Mask32(BitXor(a, b)))
    case SHL => Some(Mask32(a * Pow2(b % 32)))
    case SHR => Some(Mask32(a / Pow2(b % 32)))
    case _ => None
  }

  function Alu3(ops: F32Ops, op: Opcode, dtype: DType, a: nat, b: nat, c: nat): Option<nat> {
    if dtype == F32 then
      if op == FMA then ops.fma(a, b, c)
      else match ops.mul(a, b)
           case None => None
           case Some(product) => ops.add(product, c)
    else Some(Mask32(a * b + c))
  }

  predicate CompareInts(c: Compare, a: int, b: int) {
    match c
    case Eq => a == b
    case Ne => a != b
    case Lt => a < b
    case Le => a <= b
    case Gt => a > b
    case Ge => a >= b
  }

  predicate CompareWords(ops: F32Ops, c: Compare, dtype: DType, a: nat, b: nat) {
    if dtype == F32 then ops.cmp(c, a, b) else CompareInts(c, Mask32(a), Mask32(b))
  }

  function SetRegOrTrap(dest: nat, value: Option<nat>): Effect {
    if value.Some? && dest < 256 then SetReg(dest, value.value) else Trap
  }

  function LoadEffect(cfg: Config, inst: Inst, lane: Lane, gmem: seq<Byte>): Effect {
    if inst.space.None? || inst.src1 >= 256 then Trap
    else
      var address := Mask32(lane.regs[inst.src1]);
      var size := TypeSize(inst.dtype);
      if size.None? || (inst.space.value != Gmem && inst.space.value != Pmem) then Trap
      else
        var memory := if inst.space.value == Gmem then gmem else cfg.pmem;
        if address + size.value > |memory| then Trap
        else
          var blob := memory[address..address + size.value];
          if inst.dtype == B64 then
            if inst.dest < 255 then SetPair(inst.dest, FromBytes(blob[..4]), FromBytes(blob[4..8])) else Trap
          else SetRegOrTrap(inst.dest, Some(FromBytes(blob)))
  }

  function StoreEffect(inst: Inst, lane: Lane, gmem: seq<Byte>): Effect {
    if inst.space != Some(Gmem) || inst.src1 >= 256 || inst.src2 >= 256 || TypeSize(inst.dtype).None? then Trap
    else
      var address := Mask32(lane.regs[inst.src1]);
      var size := TypeSize(inst.dtype).value;
      if address + size > |gmem| then Trap
      else Store(address, ToBytes(Mask32(lane.regs[inst.src2]), size))
  }

  predicate IsWide(dtype: DType) {
    dtype == B64 || dtype == F64
  }

  function CopyEffect(inst: Inst, lane: Lane): Effect {
    var value := if inst.src1 >= 0x0100 then SpecialValue(inst.src1, lane.id) else Some(Mask32(lane.regs[inst.src1]));
    if IsWide(inst.dtype) then
      if inst.dest >= 255 || inst.src1 >= 255 || value.None? then Trap
      else
        // the low half is written before the high half of the source is read
        var high := if inst.src1 + 1 == inst.dest then value.value else lane.regs[inst.src1 + 1];
        SetPair(inst.dest, value.value, high)
    else SetRegOrTrap(inst.dest, value)
  }

  /** `_execute_lane`: what the instruction does once its guard has passed. */
  function Execute(cfg: Config, inst: Inst, lane: Lane, gmem: seq<Byte>): Effect {
    match inst.opcode
    case LOADI => SetRegOrTrap(inst.dest, Some(Mask32(inst.imm)))
    case LOADI64 =>
      if inst.dest >= 255 then Trap else SetPair(inst.dest, Mask32(inst.imm), Mask32(inst.imm / WORD))
    case CPY => CopyEffect(inst, lane)
    case LD => LoadEffect(cfg, inst, lane, gmem)
    case ST => StoreEffect(inst, lane, gmem)
    case ADD | SUB | MUL | AND | OR | XOR | SHL | SHR =>
      if inst.src1 >= 256 || inst.src2 >= 256 then Trap
      else SetRegOrTrap(inst.dest,
                        Alu2(cfg.ops, inst.opcode, inst.dtype, lane.regs[inst.src1], lane.regs[inst.src2]))
    case MAD | FMA =>
      if inst.src1 >= 256 || inst.src2 >= 256 || inst.src3 >= 256 then Trap
      else SetRegOrTrap(inst.dest,
                        Alu3(cfg.ops, inst.opcode, inst.dtype,
                             lane.regs[inst.src1], lane.regs[inst.src2], lane.regs[inst.src3]))
    case CMPP =>
      if inst.src1 >= 256 || inst.src2 >= 256 || inst.dest >= 8 || inst.compare.None? then Trap
      else SetPred(inst.dest,
                   CompareWords(cfg.ops, inst.compare.value, inst.dtype,
                                lane.regs[inst.src1], lane.regs[inst.src2]))
    case _ => Trap
  }

  /** The guard in front of `_execute_lane`. */
  function LaneEffect(cfg: Config, inst: Inst, lane: Lane, gmem: seq<Byte>): Effect {
    if inst.guard.None? then Execute(cfg, inst, lane, gmem)
    else if inst.guard.value >= 8 then Trap
    else if lane.preds[inst.guard.value] != inst.negated then Execute(cfg, inst, lane, gmem)
    else Skip
  }

  predicate FitsLane(e: Effect) {
    match e
    case SetReg(r, _) => r < 256
    case SetPair(r, _, _) => r < 255
    case SetPred(p, _) => p < 8
    case _ => true
  }

  lemma EffectFits(cfg: Config, inst: Inst, lane: Lane, gmem: seq<Byte>)
    ensures FitsLane(LaneEffect(cfg, inst, lane, gmem))
  {
    hide Alu2, Alu3, CompareWords, SpecialValue, FromBytes, ToBytes, TypeSize;
  }

  function Apply(e: Effect, lane: Lane): Lane
    requires FitsLane(e)
  {
    match e
    case SetReg(r, v) => lane.(regs := lane.regs[r := v])
    case SetPair(r, lo, hi) => lane.(regs := lane.regs[r := lo][r + 1 := hi])
    case SetPred(p, b) => lane.(preds := lane.preds[p := b])
    case _ => lane
  }

  function WriteBytes(gmem: seq<Byte>, address: nat, blob: seq<Byte>): (r: seq<Byte>)
    ensures |r| == |gmem|
  {
    if address + |blob| <= |gmem| then gmem[..address] + blob + gmem[address + |blob|..] else gmem
  }

  function ApplyMemory(e: Effect, gmem: seq<Byte>): (r: seq<Byte>)
    ensures |r| == |gmem|
  {
    if e.Store? then WriteBytes(gmem, e.address, e.blob) else gmem
  }

  /** The lane after the instruction, when it does not trap. */
  function StepLane(cfg: Config, inst: Inst, lane: Lane, gmem: seq<Byte>): Lane {
    EffectFits(cfg, inst, lane, gmem);
    Apply(LaneEffect(cfg, inst, lane, gmem), lane)
  }

  datatype Warp = Warp(lanes: seq<Lane>, gmem: seq<Byte>)

  /** Outcome of some stretch of execution.  A fault keeps the memory as it was when the error was raised. */
  datatype Outcome = Running(warp: Warp) | Fault(memory: seq<Byte>)

  /** `for lane in lanes: if guard_passes: execute_lane`. */
  function ExecLanes(cfg: Config, inst: Inst, lanes: seq<Lane>, gmem: seq<Byte>): Outcome
    decreases |lanes|
  {
    if lanes == [] then Running(Warp([], gmem))
    else
      var e := LaneEffect(cfg, inst, lanes[0], gmem);
      if e.Trap? then Fault(gmem)
      else
        match ExecLanes(cfg, inst, lanes[1..], ApplyMemory(e, gmem))
        case Fault(m) => Fault(m)
        case Running(rest) => Running(Warp([StepLane(cfg, inst, lanes[0], gmem)] + rest.lanes, rest.gmem))
  }

  function Exec(cfg: Config, inst: Inst, w: Warp): Outcome {
    ExecLanes(cfg, inst, w.lanes, w.gmem)
  }

  /** Straight-line execution of a list of instructions, none of them a branch. */
  function ExecSeq(cfg: Config, insts: seq<Inst>, w: Warp): Outcome
    decreases |insts|
  {
    if insts == [] then Running(w)
    else match Exec(cfg, insts[0], w)
         case Fault(m) => Fault(m)
         case Running(w') => ExecSeq(cfg, insts[1..], w')
  }

  predicate IsBranch(inst: Inst) {
    inst.opcode == BR || inst.opcode == BRX || inst.opcode == HALT
  }

  predicate LaneTakes(inst: Inst, lane: Lane)
    requires inst.guard.Some? && inst.guard.value < 8
  {
    lane.preds[inst.guard.value] != inst.negated
  }

  /** `_branchx_next_pc`: the next pc, or `None` for the errors it raises. */
  function BranchTarget(inst: Inst, lanes: seq<Lane>, pc: int): Option<int> {
    if inst.guard.None? || inst.guard.value >= 8 || lanes == [] then None
    else if forall k | 0 <= k < |lanes| :: LaneTakes(inst, lanes[k]) then Some(inst.imm)
    else if forall k | 0 <= k < |lanes| :: !LaneTakes(inst, lanes[k]) then Some(pc + 1)
    else None
  }

  datatype StepResult = Next(pc: int, warp: Warp) | Stop(final: Warp) | StepFault(memory: seq<Byte>)

  /** One turn of the loop in `_run_warp`. */
  function Step(cfg: Config, program: seq<Inst>, pc: int, w: Warp): StepResult {
    if !(0 <= pc < |program|) then StepFault(w.gmem)
    else
      var inst := program[pc];
      if inst.opcode == HALT then
        if inst.guard.Some? then StepFault(w.gmem) else Stop(w)
      else if inst.opcode == BR then
        if inst.guard.Some? then StepFault(w.gmem) else Next(inst.imm, w)
      else if inst.opcode == BRX then
        match BranchTarget(inst, w.lanes, pc)
        case None => StepFault(w.gmem)
        case Some(target) => Next(target, w)
      else
        match Exec(cfg, inst, w)
        case Fault(m) => StepFault(m)
        case Running(w') => Next(pc + 1, w')
  }

  datatype RunResult = Halted(warp: Warp) | Failed(memory: seq<Byte>) | OutOfSteps

  /** `_run_warp` from any pc, with `fuel` steps left of the step limit. */
  function Run(cfg: Config, program: seq<Inst>, pc: int, w: Warp, fuel: nat): RunResult
    decreases fuel
  {
    if !(0 <= pc < |program|) then Failed(w.gmem)
    else if fuel == 0 then OutOfSteps
    else match Step(cfg, program, pc, w)
         case StepFault(m) => Failed(m)
         case Stop(final) => Halted(final)
         case Next(pc', w') => Run(cfg, program, pc', w', fuel - 1)
  }

  /** Global memory when the run ends or has used up its steps. */
  function MemoryAfter(cfg: Config, program: seq<Inst>, pc: int, w: Warp, fuel: nat): seq<Byte>
    decreases fuel
  {
    if !(0 <= pc < |program|) || fuel == 0 then w.gmem
    else match Step(cfg, program, pc, w)
         case StepFault(m) => m
         case Stop(final) => final.gmem
         case Next(pc', w') => MemoryAfter(cfg, program, pc', w', fuel - 1)
  }

  /** A run's result has that memory. */
  lemma {:induction false} ResultMemory(cfg: Config, program: seq<Inst>, pc: int, w: Warp, fuel: nat)
    ensures match Run(cfg, program, pc, w, fuel)
            case Halted(final) => MemoryAfter(cfg, program, pc, w, fuel) == final.gmem
            case Failed(m) => MemoryAfter(cfg, program, pc, w, fuel) == m
            case OutOfSteps => true
    decreases fuel
  {
    hide Step;
    if 0 <= pc < |program| && fuel > 0 && Step(cfg, program, pc, w).Next? {
      ResultMemory(cfg, program, Step(cfg, program, pc, w).pc, Step(cfg, program, pc, w).warp, fuel - 1);
    }
  }

  /** A run that has ended is the same with more steps. */
  lemma {:induction false} MoreFuel(cfg: Config, p: seq<Inst>, pc: int, w: Warp, fuel: nat, more: nat)
    requires Run(cfg, p, pc, w, fuel) != OutOfSteps && fuel <= more
    ensures Run(cfg, p, pc, w, more) == Run(cfg, p, pc, w, fuel)
    decreases fuel
  {
    hide Step;
    if 0 <= pc < |p| && Step(cfg, p, pc, w).Next? {
      MoreFuel(cfg, p, Step(cfg, p, pc, w).pc, Step(cfg, p, pc, w).warp, fuel - 1, more - 1);
    }
  }

  /** A run ends in one way only, however many steps it is given. */
  lemma EndsOnce(cfg: Config, p: seq<Inst>, pc: int, w: Warp, fuel: nat, fuel': nat)
    ensures Run(cfg, p, pc, w, fuel) != OutOfSteps && Run(cfg, p, pc, w, fuel') != OutOfSteps ==>
              Run(cfg, p, pc, w, fuel) == Run(cfg, p, pc, w, fuel')
  {
    hide Run;
    if Run(cfg, p, pc, w, fuel) != OutOfSteps && Run(cfg, p, pc, w, fuel') != OutOfSteps {
      if fuel <= fuel' {
        MoreFuel(cfg, p, pc, w, fuel, fuel');
      } else {
        MoreFuel(cfg, p, pc, w, fuel', fuel);
      }
    }
  }

  /** A run, one turn at a time. */
  lemma RunOneStep(cfg: Config, p: seq<Inst>, pc: int, w: Warp, fuel: nat)
    ensures !(0 <= pc < |p|) ==> Run(cfg, p, pc, w, fuel) == Failed(w.gmem)
    ensures 0 <= pc < |p| && fuel == 0 ==> Run(cfg, p, pc, w, fuel) == OutOfSteps
    ensures 0 <= pc < |p| && fuel > 0 ==>
              Run(cfg, p, pc, w, fuel) ==
              match Step(cfg, p, pc, w)
              case StepFault(m) => Failed(m)
              case Stop(final) => Halted(final)
              case Next(pc', w') => Run(cfg, p, pc', w', fuel - 1)
  {
  }

  lemma MemoryOneStep(cfg: Config, p: seq<Inst>, pc: int, w: Warp, fuel: nat)
    ensures !(0 <= pc < |p|) || fuel == 0 ==> MemoryAfter(cfg, p, pc, w, fuel) == w.gmem
    ensures 0 <= pc < |p| && fuel > 0 ==>
              MemoryAfter(cfg, p, pc, w, fuel) ==
              match Step(cfg, p, pc, w)
              case StepFault(m) => m
              case Stop(final) => final.gmem
              case Next(pc', w') => MemoryAfter(cfg, p, pc', w', fuel - 1)
  {
  }

  // ----- a whole launch -----

  datatype Launch = Launch(blockDim: Dim, gridDim: Dim, warpSize: Pos, maxSteps: nat)

  function Volume(d: Dim): Pos {
    d.x * d.y * d.z
  }

  function FreshLane(id: LaneId): Lane {
    Lane(seq(256, _ => 0), seq(8, _ => false), id)
  }

  function WarpLanes(launch: Launch, warpStart: nat): nat
    requires warpStart <= Volume(launch.blockDim)
  {
    if Volume(launch.blockDim) - warpStart < launch.warpSize then Volume(launch.blockDim) - warpStart
    else launch.warpSize
  }

  function WarpLaneId(launch: Launch, block: nat, thread: nat): LaneId {
    LaneId(block, thread, launch.blockDim, launch.gridDim, launch.warpSize)
  }

  /** The lanes of the warp that starts at thread `warpStart` of a block. */
  function LaunchedLanes(launch: Launch, block: nat, warpStart: nat): seq<Lane>
    requires warpStart <= Volume(launch.blockDim)
  {
    seq(WarpLanes(launch, warpStart), k requires 0 <= k => FreshLane(WarpLaneId(launch, block, warpStart + k)))
  }

  datatype GridResult = Finished(gmem: seq<Byte>) | Aborted(gmem: seq<Byte>)

  /** Warp after warp, block after block, sharing global memory. */
  function RunGrid(cfg: Config, program: seq<Inst>, launch: Launch, block: nat, warpStart: nat,
                   gmem: seq<Byte>): GridResult
    decreases Volume(launch.gridDim) - block, Volume(launch.blockDim) - warpStart
  {
    if block >= Volume(launch.gridDim) then Finished(gmem)
    else if warpStart >= Volume(launch.blockDim) then RunGrid(cfg, program, launch, block + 1, 0, gmem)
    else
      match Run(cfg, program, 0, Warp(LaunchedLanes(launch, block, warpStart), gmem), launch.maxSteps)
      case Halted(w) => RunGrid(cfg, program, launch, block, warpStart + launch.warpSize, w.gmem)
      case _ => Aborted(MemoryAfter(cfg, program, 0, Warp(LaunchedLanes(launch, block, warpStart), gmem),
                                    launch.maxSteps))
  }
}
