/** Which state an AEC instruction really touches, and when two instructions may change places. */
module Independence {
  import opened Wrappers
  import opened Words
  import opened Isa
  import opened Machine

  function OperandReads(inst: Inst): set<nat> {
    match inst.opcode
    case CPY => {inst.src1} + (if IsWide(inst.dtype) then {inst.src1 + 1} else {})
    case LD => {inst.src1}
    case ST | ADD | SUB | MUL | AND | OR | XOR | SHL | SHR | CMPP => {inst.src1, inst.src2}
    case MAD | FMA => {inst.src1, inst.src2, inst.src3}
    case _ => {}
  }

  /** The registers of the file that the instruction reads; a CPY may name a special selector instead. */
  function RegReads(inst: Inst): set<nat> {
    set r | r in OperandReads(inst) && r < 256
  }

  predicate WritesPair(inst: Inst) {
    || inst.opcode == LOADI64
    || (inst.opcode == CPY && IsWide(inst.dtype))
    || (inst.opcode == LD && inst.dtype == B64)
  }

  function RegWrites(inst: Inst): set<nat> {
    match inst.opcode
    case LOADI | LOADI64 | CPY | LD | ADD | SUB | MUL | MAD | FMA | AND | OR | XOR | SHL | SHR =>
      {inst.dest} + (if WritesPair(inst) then {inst.dest + 1} else {})
    case _ => {}
  }

  function PredReads(inst: Inst): set<nat> {
    if inst.guard.Some? then {inst.guard.value} else {}
  }

  function PredWrites(inst: Inst): set<nat> {
    if inst.opcode == CMPP then {inst.dest} else {}
  }

  /** Two lanes that the instruction cannot tell apart. */
  ghost predicate SameInputs(inst: Inst, l1: Lane, l2: Lane) {
    && l1.id == l2.id
    && (forall r | r in RegReads(inst) :: l1.regs[r] == l2.regs[r])
    && (forall p | p in PredReads(inst) && p < 8 :: l1.preds[p] == l2.preds[p])
  }

  lemma MemoryFromInputs(cfg: Config, inst: Inst, l1: Lane, l2: Lane, gmem: seq<Byte>)
    requires forall r | r in OperandReads(inst) && r < 256 :: l1.regs[r] == l2.regs[r]
    ensures inst.opcode == LD ==> LoadEffect(cfg, inst, l1, gmem) == LoadEffect(cfg, inst, l2, gmem)
    ensures inst.opcode == ST ==> StoreEffect(inst, l1, gmem) == StoreEffect(inst, l2, gmem)
  {
    hide Mask32, FromBytes, ToBytes, TypeSize;
  }

  lemma CopyFromInputs(inst: Inst, l1: Lane, l2: Lane)
    requires l1.id == l2.id && forall r | r in OperandReads(inst) && r < 256 :: l1.regs[r] == l2.regs[r]
    ensures inst.opcode == CPY ==> CopyEffect(inst, l1) == CopyEffect(inst, l2)
  {
    hide Mask32, SpecialValue;
  }

  lemma ComputeFromInputs(cfg: Config, inst: Inst, l1: Lane, l2: Lane, gmem: seq<Byte>)
    requires inst.opcode != CPY && inst.opcode != LD && inst.opcode != ST
    requires forall r | r in OperandReads(inst) && r < 256 :: l1.regs[r] == l2.regs[r]
    ensures Execute(cfg, inst, l1, gmem) == Execute(cfg, inst, l2, gmem)
  {
    hide Alu2, Alu3, CompareWords, LoadEffect, StoreEffect, CopyEffect, Mask32, SetRegOrTrap;
  }

  lemma MovesAre(cfg: Config, inst: Inst, lane: Lane, gmem: seq<Byte>)
    ensures inst.opcode == CPY ==> Execute(cfg, inst, lane, gmem) == CopyEffect(inst, lane)
    ensures inst.opcode == LD ==> Execute(cfg, inst, lane, gmem) == LoadEffect(cfg, inst, lane, gmem)
    ensures inst.opcode == ST ==> Execute(cfg, inst, lane, gmem) == StoreEffect(inst, lane, gmem)
  {
    hide Alu2, Alu3, CompareWords, LoadEffect, StoreEffect, CopyEffect, Mask32, SetRegOrTrap;
  }

  lemma OperandsAgree(inst: Inst, l1: Lane, l2: Lane)
    requires SameInputs(inst, l1, l2)
    ensures l1.id == l2.id && forall r | r in OperandReads(inst) && r < 256 :: l1.regs[r] == l2.regs[r]
    ensures inst.guard.Some? && inst.guard.value < 8 ==> l1.preds[inst.guard.value] == l2.preds[inst.guard.value]
  {
    hide OperandReads;
    assert forall r | r in OperandReads(inst) && r < 256 :: r in RegReads(inst);
  }

  lemma EffectFromInputs(cfg: Config, inst: Inst, l1: Lane, l2: Lane, gmem: seq<Byte>)
    requires SameInputs(inst, l1, l2)
    ensures LaneEffect(cfg, inst, l1, gmem) == LaneEffect(cfg, inst, l2, gmem)
  {
    hide Execute, OperandReads, SameInputs, LoadEffect, StoreEffect, CopyEffect;
    OperandsAgree(inst, l1, l2);
    MovesAre(cfg, inst, l1, gmem);
    MovesAre(cfg, inst, l2, gmem);
    if inst.opcode == CPY {
      CopyFromInputs(inst, l1, l2);
    } else if inst.opcode == LD || inst.opcode == ST {
      MemoryFromInputs(cfg, inst, l1, l2, gmem);
    } else {
      ComputeFromInputs(cfg, inst, l1, l2, gmem);
    }
  }

  lemma EffectIgnoresMemory(cfg: Config, inst: Inst, lane: Lane, g1: seq<Byte>, g2: seq<Byte>)
    requires inst.opcode != LD
    requires inst.opcode == ST ==> |g1| == |g2|
    ensures LaneEffect(cfg, inst, lane, g1) == LaneEffect(cfg, inst, lane, g2)
  {
    hide Alu2, Alu3, CompareWords, SpecialValue, FromBytes, ToBytes;
  }

  /** No register or predicate written by one is touched by the other. */
  predicate Disjoint(a: Inst, x: Inst) {
    && RegWrites(a) !! RegReads(x) && RegReads(a) !! RegWrites(x) && RegWrites(a) !! RegWrites(x)
    && PredWrites(a) !! PredReads(x) && PredReads(a) !! PredWrites(x) && PredWrites(a) !! PredWrites(x)
  }

  /** `Disjoint`, and memory does not tie the two together either: `x` may be issued before `a`. */
  predicate MayOvertake(a: Inst, x: Inst) {
    && Disjoint(a, x)
    && x.opcode != ST
    && (a.opcode == ST ==> x.opcode != LD)
  }

  /** The instruction cannot raise an error, whatever the lane holds. */
  ghost predicate NeverTraps(cfg: Config, inst: Inst) {
    forall lane: Lane, gmem: seq<Byte> :: LaneEffect(cfg, inst, lane, gmem) != Trap
  }

  /** Equal results; a fault on one side is a fault on the other, with equal memory if `strict`. */
  ghost predicate Agree(strict: bool, o1: Outcome, o2: Outcome) {
    match (o1, o2)
    case (Running(w1), Running(w2)) => w1 == w2
    case (Fault(m1), Fault(m2)) => strict ==> m1 == m2
    case _ => false
  }

  lemma EffectTargets(cfg: Config, inst: Inst, lane: Lane, gmem: seq<Byte>)
    ensures match LaneEffect(cfg, inst, lane, gmem)
            case SetReg(r, _) => r in RegWrites(inst)
            case SetPair(r, _, _) => r in RegWrites(inst) && r + 1 in RegWrites(inst)
            case SetPred(p, _) => p in PredWrites(inst)
            case Store(_, _) => inst.opcode == ST
            case _ => true
  {
    hide Alu2, Alu3, CompareWords, SpecialValue, FromBytes, ToBytes;
  }

  /** An instruction changes nothing outside its write sets. */
  lemma StepLaneFrame(cfg: Config, inst: Inst, lane: Lane, gmem: seq<Byte>)
    ensures var l := StepLane(cfg, inst, lane, gmem);
            && l.id == lane.id
            && (forall r | 0 <= r < 256 && r !in RegWrites(inst) :: l.regs[r] == lane.regs[r])
            && (forall p | 0 <= p < 8 && p !in PredWrites(inst) :: l.preds[p] == lane.preds[p])
  {
    EffectFits(cfg, inst, lane, gmem);
    EffectTargets(cfg, inst, lane, gmem);
    hide LaneEffect, RegWrites, PredWrites;
  }

  lemma LaneCommute(cfg: Config, a: Inst, x: Inst, lane: Lane, gmem: seq<Byte>)
    requires Disjoint(a, x)
    ensures LaneEffect(cfg, x, StepLane(cfg, a, lane, gmem), gmem) == LaneEffect(cfg, x, lane, gmem)
    ensures LaneEffect(cfg, a, StepLane(cfg, x, lane, gmem), gmem) == LaneEffect(cfg, a, lane, gmem)
    ensures StepLane(cfg, x, StepLane(cfg, a, lane, gmem), gmem)
         == StepLane(cfg, a, StepLane(cfg, x, lane, gmem), gmem)
  {
    hide Execute, RegWrites, OperandReads;
    var la, lx := StepLane(cfg, a, lane, gmem), StepLane(cfg, x, lane, gmem);
    StepLaneFrame(cfg, a, lane, gmem);
    StepLaneFrame(cfg, x, lane, gmem);
    EffectFromInputs(cfg, x, la, lane, gmem);
    EffectFromInputs(cfg, a, lx, lane, gmem);
    var ea, ex := LaneEffect(cfg, a, lane, gmem), LaneEffect(cfg, x, lane, gmem);
    EffectFits(cfg, a, lane, gmem);
    EffectFits(cfg, x, lane, gmem);
    WritesCommute(a, x, ea, ex, lane, cfg, gmem);
  }

  lemma WritesCommute(a: Inst, x: Inst, ea: Effect, ex: Effect, lane: Lane, cfg: Config, gmem: seq<Byte>)
    requires Disjoint(a, x)
    requires ea == LaneEffect(cfg, a, lane, gmem) && ex == LaneEffect(cfg, x, lane, gmem)
    requires FitsLane(ea) && FitsLane(ex)
    ensures Apply(ex, Apply(ea, lane)) == Apply(ea, Apply(ex, lane))
  {
    EffectTargets(cfg, a, lane, gmem);
    EffectTargets(cfg, x, lane, gmem);
    hide LaneEffect, RegWrites, RegReads, PredWrites, PredReads;
    var l1, l2 := Apply(ex, Apply(ea, lane)), Apply(ea, Apply(ex, lane));
    assert l1.regs == l2.regs;
    assert l1.preds == l2.preds;
  }

  // ----- one instruction over a whole warp -----

  predicate AnyTrap(cfg: Config, inst: Inst, lanes: seq<Lane>, gmem: seq<Byte>) {
    exists k | 0 <= k < |lanes| :: LaneEffect(cfg, inst, lanes[k], gmem).Trap?
  }

  function StepAll(cfg: Config, inst: Inst, lanes: seq<Lane>, gmem: seq<Byte>): seq<Lane> {
    seq(|lanes|, k requires 0 <= k < |lanes| => StepLane(cfg, inst, lanes[k], gmem))
  }

  lemma HeadAndRest(cfg: Config, inst: Inst, lanes: seq<Lane>, gmem: seq<Byte>)
    requires lanes != []
    ensures AnyTrap(cfg, inst, lanes, gmem) <==>
              LaneEffect(cfg, inst, lanes[0], gmem).Trap? || AnyTrap(cfg, inst, lanes[1..], gmem)
    ensures StepAll(cfg, inst, lanes, gmem) == [StepLane(cfg, inst, lanes[0], gmem)]
            + StepAll(cfg, inst, lanes[1..], gmem)
  {
    hide LaneEffect, StepLane;
    if k :| 0 <= k < |lanes| && LaneEffect(cfg, inst, lanes[k], gmem).Trap? {
      assert k > 0 ==> lanes[1..][k - 1] == lanes[k];
    }
    assert forall k | 0 <= k < |lanes[1..]| :: lanes[1..][k] == lanes[k + 1];
  }

  /** Lockstep over the lanes is lane-wise for everything but a store. */
  lemma {:induction false} ExecPointwise(cfg: Config, inst: Inst, lanes: seq<Lane>, gmem: seq<Byte>)
    requires inst.opcode != ST
    ensures ExecLanes(cfg, inst, lanes, gmem) ==
            if AnyTrap(cfg, inst, lanes, gmem) then Fault(gmem)
            else Running(Warp(StepAll(cfg, inst, lanes, gmem), gmem))
    decreases |lanes|
  {
    if lanes != [] {
      ExecPointwise(cfg, inst, lanes[1..], gmem);
      EffectTargets(cfg, inst, lanes[0], gmem);
      assert ApplyMemory(LaneEffect(cfg, inst, lanes[0], gmem), gmem) == gmem;
      hide LaneEffect, StepLane, StepAll, AnyTrap, ApplyMemory;
      HeadAndRest(cfg, inst, lanes, gmem);
    }
  }

  /** A store leaves the lanes alone, and its effect on memory depends only on what it reads in them. */
  lemma {:induction false} StoreFromInputs(cfg: Config, inst: Inst, ls1: seq<Lane>, ls2: seq<Lane>, gmem: seq<Byte>)
    requires inst.opcode == ST
    requires |ls1| == |ls2| && forall k | 0 <= k < |ls1| :: SameInputs(inst, ls1[k], ls2[k])
    ensures match ExecLanes(cfg, inst, ls1, gmem)
            case Fault(m) => ExecLanes(cfg, inst, ls2, gmem) == Fault(m)
            case Running(w) => w.lanes == ls1 && ExecLanes(cfg, inst, ls2, gmem) == Running(Warp(ls2, w.gmem))
    decreases |ls1|
  {
    hide Execute, SameInputs, ApplyMemory;
    if ls1 != [] {
      EffectFromInputs(cfg, inst, ls1[0], ls2[0], gmem);
      var e := LaneEffect(cfg, inst, ls1[0], gmem);
      EffectTargets(cfg, inst, ls1[0], gmem);
      assert StepLane(cfg, inst, ls1[0], gmem) == ls1[0] && StepLane(cfg, inst, ls2[0], gmem) == ls2[0];
      StoreFromInputs(cfg, inst, ls1[1..], ls2[1..], ApplyMemory(e, gmem));
      assert ls1 == [ls1[0]] + ls1[1..] && ls2 == [ls2[0]] + ls2[1..];
    }
  }

  lemma {:induction false} ExecKeepsShape(cfg: Config, inst: Inst, lanes: seq<Lane>, gmem: seq<Byte>)
    ensures match ExecLanes(cfg, inst, lanes, gmem)
            case Running(w) => |w.lanes| == |lanes| && |w.gmem| == |gmem|
            case Fault(m) => |m| == |gmem|
    decreases |lanes|
  {
    if lanes != [] {
      ExecKeepsShape(cfg, inst, lanes[1..], ApplyMemory(LaneEffect(cfg, inst, lanes[0], gmem), gmem));
    }
  }

  function Exec2(cfg: Config, first: Inst, second: Inst, w: Warp): Outcome {
    match Exec(cfg, first, w)
    case Fault(m) => Fault(m)
    case Running(w') => Exec(cfg, second, w')
  }

  lemma OvertakeNonStore(cfg: Config, a: Inst, x: Inst, w: Warp)
    requires MayOvertake(a, x) && a.opcode != ST
    ensures Agree(true, Exec2(cfg, a, x, w), Exec2(cfg, x, a, w))
  {
    hide LaneEffect, StepLane, Disjoint;
    var g := w.gmem;
    var la, lx := StepAll(cfg, a, w.lanes, g), StepAll(cfg, x, w.lanes, g);
    ExecPointwise(cfg, a, w.lanes, g);
    ExecPointwise(cfg, x, w.lanes, g);
    ExecPointwise(cfg, a, lx, g);
    ExecPointwise(cfg, x, la, g);
    forall k | 0 <= k < |w.lanes|
      ensures LaneEffect(cfg, x, la[k], g) == LaneEffect(cfg, x, w.lanes[k], g)
      ensures LaneEffect(cfg, a, lx[k], g) == LaneEffect(cfg, a, w.lanes[k], g)
      ensures StepLane(cfg, x, la[k], g) == StepLane(cfg, a, lx[k], g)
    {
      LaneCommute(cfg, a, x, w.lanes[k], g);
    }
    assert AnyTrap(cfg, x, la, g) <==> AnyTrap(cfg, x, w.lanes, g);
    assert AnyTrap(cfg, a, lx, g) <==> AnyTrap(cfg, a, w.lanes, g);
    assert StepAll(cfg, x, la, g) == StepAll(cfg, a, lx, g);
  }

  lemma OvertakeStore(cfg: Config, a: Inst, x: Inst, w: Warp, strict: bool)
    requires MayOvertake(a, x) && a.opcode == ST
    requires strict ==> NeverTraps(cfg, x)
    ensures Agree(strict, Exec2(cfg, a, x, w), Exec2(cfg, x, a, w))
  {
    var g := w.gmem;
    var lx := StepAll(cfg, x, w.lanes, g);
    ExecPointwise(cfg, x, w.lanes, g);
    forall k | 0 <= k < |w.lanes|
      ensures SameInputs(a, w.lanes[k], lx[k])
    {
      StepLaneFrame(cfg, x, w.lanes[k], g);
    }
    StoreFromInputs(cfg, a, w.lanes, lx, g);
    ExecKeepsShape(cfg, a, w.lanes, g);
    if Exec(cfg, a, w).Running? {
      var g' := Exec(cfg, a, w).warp.gmem;
      ExecPointwise(cfg, x, w.lanes, g');
      forall k | 0 <= k < |w.lanes|
        ensures LaneEffect(cfg, x, w.lanes[k], g') == LaneEffect(cfg, x, w.lanes[k], g)
      {
        EffectIgnoresMemory(cfg, x, w.lanes[k], g, g');
      }
      assert AnyTrap(cfg, x, w.lanes, g') <==> AnyTrap(cfg, x, w.lanes, g);
      assert StepAll(cfg, x, w.lanes, g') == lx;
    }
  }

  /** Two neighbours that may change places give the same warp, and the same errors. */
  lemma Overtake(cfg: Config, a: Inst, x: Inst, w: Warp, strict: bool)
    requires MayOvertake(a, x)
    requires strict && a.opcode == ST ==> NeverTraps(cfg, x)
    ensures Agree(strict, Exec2(cfg, a, x, w), Exec2(cfg, x, a, w))
  {
    if a.opcode == ST {
      OvertakeStore(cfg, a, x, w, strict);
    } else {
      OvertakeNonStore(cfg, a, x, w);
    }
  }

  lemma ExecAlone(cfg: Config, inst: Inst, lane: Lane, gmem: seq<Byte>)
    requires LaneEffect(cfg, inst, lane, gmem) != Trap
    ensures Exec(cfg, inst, Warp([lane], gmem))
         == Running(Warp([StepLane(cfg, inst, lane, gmem)], ApplyMemory(LaneEffect(cfg, inst, lane, gmem), gmem)))
  {
    hide LaneEffect, StepLane;
    var next, memory := StepLane(cfg, inst, lane, gmem), ApplyMemory(LaneEffect(cfg, inst, lane, gmem), gmem);
    assert [lane][1..] == [] && [next] + [] == [next];
    assert ExecLanes(cfg, inst, [], memory) == Running(Warp([], memory));
  }
}
