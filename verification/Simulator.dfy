/** The simulator as it is written: lane states and global memory updated in place. */
module Simulator {
  import opened Wrappers
  import opened Words
  import opened Isa
  import opened Machine

  class LaneState {
    const id: LaneId
    var registers: Registers
    var predicates: Predicates

    /** All registers zero, all predicates false. */
    constructor (id: LaneId)
      ensures Value() == FreshLane(id)
    {
      this.id := id;
      registers := seq(256, _ => 0);
      predicates := seq(8, _ => false);
    }

    ghost function Value(): Lane
      reads this
    {
      Lane(registers, predicates, id)
    }
  }

  /** The lane objects hold these values. */
  ghost predicate Hold(lanes: seq<LaneState>, values: seq<Lane>)
    reads lanes
  {
    |lanes| == |values| && forall k | 0 <= k < |lanes| :: lanes[k].Value() == values[k]
  }

  ghost predicate DistinctLanes(lanes: seq<LaneState>) {
    forall i, j | 0 <= i < j < |lanes| :: lanes[i] != lanes[j]
  }

  class TrackBSimulator {
    const instructions: seq<Inst>
    const cfg: Config
    const launch: Launch
    var gmem: seq<Byte>

    constructor (instructions: seq<Inst>, cfg: Config, gmem: seq<Byte>, launch: Launch)
      ensures this.instructions == instructions && this.cfg == cfg && this.launch == launch && this.gmem == gmem
    {
      this.instructions, this.cfg, this.launch, this.gmem := instructions, cfg, launch, gmem;
    }

    /** `_execute_load`; `false` stands for the errors it raises. */
    method ExecuteLoad(inst: Inst, lane: LaneState) returns (ok: bool)
      modifies lane
      ensures var e := LoadEffect(cfg, inst, old(lane.Value()), gmem);
              ok == !e.Trap? && (ok ==> FitsLane(e) && lane.Value() == Apply(e, old(lane.Value())))
    {
      if inst.space.None? || inst.src1 >= 256 {
        return false;
      }
      var address := Mask32(lane.registers[inst.src1]);
      var size := TypeSize(inst.dtype);
      if size.None? || (inst.space.value != Gmem && inst.space.value != Pmem) {
        return false;
      }
      var memory := if inst.space.value == Gmem then gmem else cfg.pmem;
      if address + size.value > |memory| {
        return false;
      }
      var blob := memory[address..address + size.value];
      if inst.dtype == B64 {
        if inst.dest >= 255 {
          return false;
        }
        lane.registers := lane.registers[inst.dest := FromBytes(blob[..4])];
        lane.registers := lane.registers[inst.dest + 1 := FromBytes(blob[4..8])];
      } else {
        if inst.dest >= 256 {
          return false;
        }
        lane.registers := lane.registers[inst.dest := FromBytes(blob)];
      }
      return true;
    }

    /** `_execute_store`. */
    method ExecuteStore(inst: Inst, lane: LaneState) returns (ok: bool)
      modifies this`gmem
      ensures var e := StoreEffect(inst, lane.Value(), old(gmem));
              ok == !e.Trap? && gmem == if ok then ApplyMemory(e, old(gmem)) else old(gmem)
    {
      if inst.space != Some(Gmem) || inst.src1 >= 256 || inst.src2 >= 256 {
        return false;
      }
      var address := Mask32(lane.registers[inst.src1]);
      var size := TypeSize(inst.dtype);
      if size.None? || address + size.value > |gmem| {
        return false;
      }
      var blob := ToBytes(Mask32(lane.registers[inst.src2]), size.value);
      gmem := gmem[..address] + blob + gmem[address + |blob|..];
      return true;
    }

    /** The CPY branch: a special value or a register, then the high half of a pair. */
    method ExecuteCopy(inst: Inst, lane: LaneState) returns (ok: bool)
      modifies lane
      ensures var e := CopyEffect(inst, old(lane.Value()));
              ok == !e.Trap? && (ok ==> FitsLane(e) && lane.Value() == Apply(e, old(lane.Value())))
    {
      if IsWide(inst.dtype) && (inst.dest >= 255 || inst.src1 >= 255) {
        return false;
      }
      var value: Option<nat>;
      if inst.src1 >= 0x0100 {
        value := SpecialValue(inst.src1, lane.id);
      } else {
        value := Some(Mask32(lane.registers[inst.src1]));
      }
      if value.None? || inst.dest >= 256 {
        return false;
      }
      lane.registers := lane.registers[inst.dest := value.value];
      if IsWide(inst.dtype) {
        lane.registers := lane.registers[inst.dest + 1 := lane.registers[inst.src1 + 1]];
      }
      return true;
    }

    /** The branches that write one register: LOADI and the arithmetic; anything left is unsupported. */
    method ExecuteAlu(inst: Inst, lane: LaneState) returns (ok: bool)
      requires inst.opcode !in {LD, ST, CPY, LOADI64, CMPP}
      modifies lane
      ensures var e := Execute(cfg, inst, old(lane.Value()), gmem);
              && ok == !e.Trap? && !e.Store?
              && (ok ==> FitsLane(e) && lane.Value() == Apply(e, old(lane.Value())))
    {
      hide Alu2, Alu3;
      var result: Option<nat> := None;
      match inst.opcode {
        case LOADI => result := Some(Mask32(inst.imm));
        case ADD | SUB | MUL | AND | OR | XOR | SHL | SHR =>
          if inst.src1 < 256 && inst.src2 < 256 {
            result := Alu2(cfg.ops, inst.opcode, inst.dtype, lane.registers[inst.src1], lane.registers[inst.src2]);
          }
        case MAD | FMA =>
          if inst.src1 < 256 && inst.src2 < 256 && inst.src3 < 256 {
            result := Alu3(cfg.ops, inst.opcode, inst.dtype, lane.registers[inst.src1],
                           lane.registers[inst.src2], lane.registers[inst.src3]);
          }
        case _ =>
      }
      if result.None? || inst.dest >= 256 {
        return false;
      }
      lane.registers := lane.registers[inst.dest := result.value];
      return true;
    }

    /** `_execute_lane`. */
    method ExecuteLane(inst: Inst, lane: LaneState) returns (ok: bool)
      modifies lane, this`gmem
      ensures var e := Execute(cfg, inst, old(lane.Value()), old(gmem));
              && ok == !e.Trap?
              && (ok ==> FitsLane(e) && lane.Value() == Apply(e, old(lane.Value())))
              && gmem == ApplyMemory(e, old(gmem))
    {
      hide Alu2, Alu3, CompareWords, SpecialValue, FromBytes, ToBytes, TypeSize, Mask32;
      if inst.opcode == LD {
        ok := ExecuteLoad(inst, lane);
        return;
      }
      if inst.opcode == ST {
        ok := ExecuteStore(inst, lane);
        return;
      }
      if inst.opcode == CPY {
        ok := ExecuteCopy(inst, lane);
        return;
      }
      if inst.opcode == LOADI64 {
        if inst.dest >= 255 {
          return false;
        }
        lane.registers := lane.registers[inst.dest := Mask32(inst.imm)];
        lane.registers := lane.registers[inst.dest + 1 := Mask32(inst.imm / WORD)];
        return true;
      }
      if inst.opcode == CMPP {
        if inst.src1 >= 256 || inst.src2 >= 256 || inst.dest >= 8 || inst.compare.None? {
          return false;
        }
        var flag := CompareWords(cfg.ops, inst.compare.value, inst.dtype,
                                 lane.registers[inst.src1], lane.registers[inst.src2]);
        lane.predicates := lane.predicates[inst.dest := flag];
        return true;
      }
      ok := ExecuteAlu(inst, lane);
    }

    /** `if self._guard_passes(inst, lane): self._execute_lane(inst, lane)`. */
    method ExecuteGuarded(inst: Inst, lane: LaneState) returns (ok: bool)
      modifies lane, this`gmem
      ensures var e := LaneEffect(cfg, inst, old(lane.Value()), old(gmem));
              && ok == !e.Trap?
              && (ok ==> lane.Value() == StepLane(cfg, inst, old(lane.Value()), old(gmem)))
              && gmem == ApplyMemory(e, old(gmem))
    {
      if inst.guard.Some? {
        if inst.guard.value >= 8 {
          return false;
        }
        var value := lane.predicates[inst.guard.value];
        var passes := if inst.negated then !value else value;
        if !passes {
          return true;
        }
      }
      ok := ExecuteLane(inst, lane);
    }

    /** One lane of the warp; the others stay as they are. */
    method ExecuteOne(inst: Inst, lanes: seq<LaneState>, k: nat, ghost values: seq<Lane>) returns (ok: bool)
      requires DistinctLanes(lanes) && Hold(lanes, values) && k < |lanes|
      modifies lanes, this`gmem
      ensures ok == !LaneEffect(cfg, inst, values[k], old(gmem)).Trap?
      ensures ok ==> Hold(lanes, values[k := StepLane(cfg, inst, values[k], old(gmem))])
      ensures gmem == ApplyMemory(LaneEffect(cfg, inst, values[k], old(gmem)), old(gmem))
    {
      hide LaneEffect, StepLane, ApplyMemory;
      ok := ExecuteGuarded(inst, lanes[k]);
      assert forall i | 0 <= i < |lanes| && i != k :: lanes[i] != lanes[k];
    }

    /** The lane loop of `_run_warp` for one ordinary instruction. */
    method ExecuteWarp(inst: Inst, lanes: seq<LaneState>, ghost start: seq<Lane>) returns (ok: bool)
      requires DistinctLanes(lanes) && Hold(lanes, start)
      modifies lanes, this`gmem
      ensures match Exec(cfg, inst, Warp(start, old(gmem)))
              case Running(w) => ok && Hold(lanes, w.lanes) && gmem == w.gmem
              case Fault(m) => !ok && gmem == m
    {
      ghost var whole := ExecLanes(cfg, inst, start, gmem);
      ghost var values := start;
      assert start[0..] == start && start[..0] == [];
      LanesDoneStart(whole);
      HoldLength(lanes, start);
      hide LaneEffect, ExecLanes, LanesDone, StepLane, ApplyMemory, Hold, DistinctLanes;
      for k := 0 to |lanes|
        invariant |values| == |lanes| && Hold(lanes, values) && values[k..] == start[k..]
        invariant whole == LanesDone(values[..k], ExecLanes(cfg, inst, start[k..], gmem))
      {
        ghost var next := StepLane(cfg, inst, start[k], gmem);
        LanesDoneStep(cfg, inst, start, k, gmem, values[..k]);
        assert values[k] == values[k..][0] == start[k];
        ok := ExecuteOne(inst, lanes, k, values);
        if !ok {
          return false;
        }
        NextLane(values, start, k, next);
        values := values[k := next];
      }
      assert values[..|lanes|] == values;
      LanesDoneEnd(cfg, inst, start, values, gmem);
      return true;
    }

    /** `_branchx_next_pc`. */
    method BranchNextPc(inst: Inst, lanes: seq<LaneState>, pc: int, ghost values: seq<Lane>)
      returns (next: Option<int>)
      requires Hold(lanes, values)
      ensures next == BranchTarget(inst, values, pc)
    {
      if inst.guard.None? || inst.guard.value >= 8 || lanes == [] {
        return None;
      }
      var all, any := true, false;
      for k := 0 to |lanes|
        invariant all <==> forall i | 0 <= i < k :: LaneTakes(inst, values[i])
        invariant any <==> exists i | 0 <= i < k :: LaneTakes(inst, values[i])
      {
        assert lanes[k].Value() == values[k];
        var decision := lanes[k].predicates[inst.guard.value] != inst.negated;
        all, any := all && decision, any || decision;
      }
      if all {
        return Some(inst.imm);
      }
      if any {
        return None;
      }
      return Some(pc + 1);
    }

    /** `_run_warp`: fetch, execute, advance, until HALT, an error or the step limit. */
    method RunWarp(lanes: seq<LaneState>, ghost start: seq<Lane>) returns (ok: bool)
      requires DistinctLanes(lanes) && Hold(lanes, start)
      modifies lanes, this`gmem
      ensures match Run(cfg, instructions, 0, Warp(start, old(gmem)), launch.maxSteps)
              case Halted(w) => ok && Hold(lanes, w.lanes) && gmem == w.gmem
              case Failed(m) => !ok && gmem == m
              case OutOfSteps => !ok
      ensures gmem == MemoryAfter(cfg, instructions, 0, Warp(start, old(gmem)), launch.maxSteps)
    {
      hide Exec, BranchTarget, Hold, DistinctLanes, Run, MemoryAfter;
      ResultMemory(cfg, instructions, 0, Warp(start, gmem), launch.maxSteps);
      var pc, steps := 0, 0;
      ghost var values := start;
      while true
        invariant steps <= launch.maxSteps && Hold(lanes, values)
        invariant Run(cfg, instructions, 0, Warp(start, old(gmem)), launch.maxSteps)
               == Run(cfg, instructions, pc, Warp(values, gmem), launch.maxSteps - steps)
        invariant MemoryAfter(cfg, instructions, 0, Warp(start, old(gmem)), launch.maxSteps)
               == MemoryAfter(cfg, instructions, pc, Warp(values, gmem), launch.maxSteps - steps)
        decreases launch.maxSteps - steps
      {
        RunOneStep(cfg, instructions, pc, Warp(values, gmem), launch.maxSteps - steps);
        MemoryOneStep(cfg, instructions, pc, Warp(values, gmem), launch.maxSteps - steps);
        if !(0 <= pc < |instructions|) || steps >= launch.maxSteps {
          return false;
        }
        steps := steps + 1;
        var inst := instructions[pc];
        if inst.opcode == HALT {
          return inst.guard.None?;
        }
        if inst.opcode == BR {
          if inst.guard.Some? {
            return false;
          }
          pc := inst.imm;
        } else if inst.opcode == BRX {
          var next := BranchNextPc(inst, lanes, pc, values);
          if next.None? {
            return false;
          }
          pc := next.value;
        } else {
          ghost var o := Exec(cfg, inst, Warp(values, gmem));
          ok := ExecuteWarp(inst, lanes, values);
          if !ok {
            return false;
          }
          values := o.warp.lanes;
          pc := pc + 1;
        }
      }
    }

    /** Fresh lane objects for one warp. */
    method LaunchWarp(block: nat, warpStart: nat) returns (lanes: seq<LaneState>)
      requires warpStart <= Volume(launch.blockDim)
      ensures DistinctLanes(lanes) && forall k | 0 <= k < |lanes| :: fresh(lanes[k])
      ensures Hold(lanes, LaunchedLanes(launch, block, warpStart))
    {
      lanes := [];
      for k := 0 to WarpLanes(launch, warpStart)
        invariant |lanes| == k && DistinctLanes(lanes) && forall i | 0 <= i < k :: fresh(lanes[i])
        invariant forall i | 0 <= i < k ::
                    lanes[i].Value() == FreshLane(WarpLaneId(launch, block, warpStart + i))
      {
        var lane := new LaneState(WarpLaneId(launch, block, warpStart + k));
        lanes := lanes + [lane];
      }
    }

    /** `run`: every warp of every block in turn, on the same global memory. */
    method RunLaunch() returns (ok: bool)
      modifies this`gmem
      ensures match RunGrid(cfg, instructions, launch, 0, 0, old(gmem))
              case Finished(g) => ok && gmem == g
              case Aborted(g) => !ok && gmem == g
    {
      hide Run, MemoryAfter, LaunchedLanes, Volume;
      ghost var whole := RunGrid(cfg, instructions, launch, 0, 0, gmem);
      for block := 0 to Volume(launch.gridDim)
        invariant whole == RunGrid(cfg, instructions, launch, block, 0, gmem)
      {
        var warpStart := 0;
        while warpStart < Volume(launch.blockDim)
          invariant whole == RunGrid(cfg, instructions, launch, block, warpStart, gmem)
        {
          var lanes := LaunchWarp(block, warpStart);
          ok := RunWarp(lanes, LaunchedLanes(launch, block, warpStart));
          if !ok {
            return false;
          }
          warpStart := warpStart + launch.warpSize;
        }
      }
      return true;
    }
  }

  /** The lanes in front are done; `o` is what becomes of the others. */
  ghost function LanesDone(done: seq<Lane>, o: Outcome): Outcome {
    if o.Running? then Running(Warp(done + o.warp.lanes, o.warp.gmem)) else o
  }

  lemma LanesDoneStart(o: Outcome)
    ensures LanesDone([], o) == o
  {
    if o.Running? {
      assert [] + o.warp.lanes == o.warp.lanes;
    }
  }

  lemma LanesDoneStep(cfg: Config, inst: Inst, start: seq<Lane>, k: nat, gmem: seq<Byte>, done: seq<Lane>)
    requires k < |start|
    ensures var e := LaneEffect(cfg, inst, start[k], gmem);
            LanesDone(done, ExecLanes(cfg, inst, start[k..], gmem)) ==
            if e.Trap? then Fault(gmem)
            else LanesDone(done + [StepLane(cfg, inst, start[k], gmem)],
                           ExecLanes(cfg, inst, start[k + 1..], ApplyMemory(e, gmem)))
  {
    hide Execute;
    var e := LaneEffect(cfg, inst, start[k], gmem);
    assert start[k..][0] == start[k] && start[k..][1..] == start[k + 1..];
    var rest := ExecLanes(cfg, inst, start[k + 1..], ApplyMemory(e, gmem));
    var next := StepLane(cfg, inst, start[k], gmem);
    if !e.Trap? && rest.Running? {
      assert done + ([next] + rest.warp.lanes) == done + [next] + rest.warp.lanes;
    }
  }

  lemma HoldLength(lanes: seq<LaneState>, values: seq<Lane>)
    requires Hold(lanes, values)
    ensures |lanes| == |values|
  {
  }

  lemma NextLane(values: seq<Lane>, start: seq<Lane>, k: nat, next: Lane)
    requires k < |values| == |start| && values[k..] == start[k..]
    ensures values[k := next][..k + 1] == values[..k] + [next] && values[k := next][k + 1..] == start[k + 1..]
  {
    assert values[k + 1..] == values[k..][1..] && start[k + 1..] == start[k..][1..];
  }

  lemma LanesDoneEnd(cfg: Config, inst: Inst, start: seq<Lane>, done: seq<Lane>, gmem: seq<Byte>)
    ensures LanesDone(done, ExecLanes(cfg, inst, start[|start|..], gmem)) == Running(Warp(done, gmem))
  {
    assert done + [] == done;
  }
}
