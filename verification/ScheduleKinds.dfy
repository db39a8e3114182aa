/**
 * What the scheduler takes an instruction for, by what the instruction does, and which of two ready ones goes first.
 */
module ScheduleKinds {
  import opened Wrappers
  import opened Words
  import opened Isa
  import opened Machine
  import opened Dependence

  /** Some instruction of this opcode stores to memory. */
  ghost predicate CanStore(op: Opcode) {
    exists cfg: Config, i: Inst, lane: Lane, gmem: seq<Byte> ::
      i.opcode == op && LaneEffect(cfg, i, lane, gmem).Store?
  }

  /** Some instruction of this opcode does different things over memories of one size. */
  ghost predicate SeesMemory(op: Opcode) {
    exists cfg: Config, i: Inst, lane: Lane, g: seq<Byte>, g': seq<Byte> ::
      i.opcode == op && |g| == |g'| && LaneEffect(cfg, i, lane, g) != LaneEffect(cfg, i, lane, g')
  }

  function SomeConfig(): Config {
    Config(F32Ops((_, _) => None, (_, _) => None, (_, _) => None, (_, _, _) => None, (_, _, _) => false), [])
  }

  function SomeLane(): Lane {
    FreshLane(LaneId(0, 0, Dim(1, 1, 1), Dim(1, 1, 1), 1))
  }

  lemma StoreStores()
    ensures CanStore(ST)
  {
    var i := Inst(ST, U32, space := Some(Gmem));
    assert LaneEffect(SomeConfig(), i, SomeLane(), [0, 0, 0, 0]).Store?;
  }

  lemma OnlyStoreStores(op: Opcode, cfg: Config, i: Inst, lane: Lane, gmem: seq<Byte>)
    requires i.opcode == op && op != ST
    ensures !LaneEffect(cfg, i, lane, gmem).Store?
  {
    hide Alu2, Alu3, CompareWords, SpecialValue, FromBytes, ToBytes, TypeSize;
  }

  lemma LoadSees()
    ensures SeesMemory(LD)
  {
    var i := Inst(LD, U32, space := Some(Gmem));
    var g: seq<Byte>, g': seq<Byte> := [0, 0, 0, 0], [1, 0, 0, 0];
    FirstByte(g);
    FirstByte(g');
    assert g[0..4] == g && g'[0..4] == g';
    hide FromBytes;
    assert LaneEffect(SomeConfig(), i, SomeLane(), g) == SetReg(0, FromBytes(g));
    assert LaneEffect(SomeConfig(), i, SomeLane(), g') == SetReg(0, FromBytes(g'));
  }

  lemma FirstByte(g: seq<Byte>)
    requires g != []
    ensures FromBytes(g) % 256 == g[0]
  {
    assert FromBytes(g) == g[0] + 256 * FromBytes(g[1..]);
  }

  lemma OnlyLoadSees(op: Opcode, cfg: Config, i: Inst, lane: Lane, g: seq<Byte>, g': seq<Byte>)
    requires i.opcode == op && op != LD && |g| == |g'|
    ensures LaneEffect(cfg, i, lane, g) == LaneEffect(cfg, i, lane, g')
  {
    hide Alu2, Alu3, CompareWords, SpecialValue, FromBytes, ToBytes, TypeSize;
  }

  /** Stores are the instructions that can store, loads those that can see memory; control is told by name. */
  lemma KindsExactly(inst: Inst)
    ensures KindOf(inst) == Stores <==> CanStore(inst.opcode)
    ensures KindOf(inst) == Loads <==> SeesMemory(inst.opcode)
    ensures KindOf(inst) == Controls <==> inst.opcode in {BR, BRX, HALT, CALL, RET}
    ensures HasDest(inst) <==> KindOf(inst) == Loads || KindOf(inst) == Computes
  {
    hide LaneEffect;
    StoreStores();
    LoadSees();
    if inst.opcode != ST {
      forall cfg: Config, i: Inst, lane: Lane, gmem: seq<Byte> | i.opcode == inst.opcode
        ensures !LaneEffect(cfg, i, lane, gmem).Store?
      {
        OnlyStoreStores(inst.opcode, cfg, i, lane, gmem);
      }
    }
    if inst.opcode != LD {
      forall cfg: Config, i: Inst, lane: Lane, g: seq<Byte>, g': seq<Byte> | i.opcode == inst.opcode && |g| == |g'|
        ensures LaneEffect(cfg, i, lane, g) == LaneEffect(cfg, i, lane, g')
      {
        OnlyLoadSees(inst.opcode, cfg, i, lane, g, g');
      }
    }
  }

  function Rank(k: Kind): nat {
    match k
    case Loads => 0
    case Computes => 1
    case Stores => 2
    case Controls => 3
  }

  /**
   * Of two ready instructions of one kind the earlier goes first; otherwise loads go before computations, these before
   * stores and control, and a store before control unless it stands 998 places or more behind.
   */
  lemma FirstExactly(insts: seq<Inst>, i: nat, j: nat)
    requires i < |insts| && j < |insts|
    ensures var a, b := KindOf(insts[i]), KindOf(insts[j]);
            NoWorse(insts, i, j) <==>
            if a == b then i <= j
            else if a == Stores && b == Controls then i < j + 998
            else if a == Controls && b == Stores then j >= i + 998
            else Rank(a) < Rank(b)
  {
  }

  /** Some instruction of this opcode ends the run or leads elsewhere than to the next. */
  ghost predicate CanLeave(op: Opcode) {
    exists cfg: Config, program: seq<Inst>, pc: nat, w: Warp :: Leaves(cfg, program, pc, w, op)
  }

  ghost predicate Leaves(cfg: Config, program: seq<Inst>, pc: nat, w: Warp, op: Opcode) {
    && pc < |program| && program[pc].opcode == op
    && match Step(cfg, program, pc, w)
       case Stop(_) => true
       case Next(to, _) => to != pc + 1
       case StepFault(_) => false
  }

  /** Blocks end exactly behind such instructions. */
  lemma BranchesExactly(inst: Inst)
    ensures IsBranch(inst) <==> CanLeave(inst.opcode)
  {
    var w, op := Warp([SomeLane()], []), inst.opcode;
    if op == HALT {
      assert Leaves(SomeConfig(), [Inst(HALT)], 0, w, op);
    } else if op == BR {
      assert Leaves(SomeConfig(), [Inst(BR)], 0, w, op);
    } else if op == BRX {
      Taken(w.lanes[0]);
      assert Leaves(SomeConfig(), [Inst(BRX, guard := Some(0), negated := true)], 0, w, op);
    } else {
      forall cfg: Config, program: seq<Inst>, pc: nat, w: Warp ensures !Leaves(cfg, program, pc, w, op) {
        StaysInLine(cfg, program, pc, w, op);
      }
    }
  }

  lemma Taken(lane: Lane)
    requires lane == SomeLane()
    ensures BranchTarget(Inst(BRX, guard := Some(0), negated := true), [lane], 0) == Some(0)
  {
    assert LaneTakes(Inst(BRX, guard := Some(0), negated := true), lane);
  }

  lemma StaysInLine(cfg: Config, program: seq<Inst>, pc: nat, w: Warp, op: Opcode)
    requires op !in {HALT, BR, BRX}
    ensures !Leaves(cfg, program, pc, w, op)
  {
    hide ExecLanes;
  }
}
