/** The syntactic questions the passes ask of an instruction, answered by what it does. */
module Observed {
  import opened Wrappers
  import opened Words
  import opened Ptx
  import opened DeadCode

  // ----- side effects -----

  predicate MoreThanWrites(e: Effect) {
    !e.Nothing? && !e.Write?
  }

  /** On some host, in some state, the instruction does more than write a register. */
  ghost predicate CanDoMore(inst: Inst) {
    exists host: Host, s: State :: MoreThanWrites(GuardedEffect(host, inst, s))
  }

  /** It names the carry flag or a predicate. */
  predicate TouchesFlags(inst: Inst) {
    || Cc in inst.op.mods || PredMod in inst.op.mods || inst.op.ty == PredType
    || (Written(inst).Some? && IsPredicate(Written(inst).value))
  }

  function AnyHost(): Host {
    Host((_, _) => 0, (_, _, _) => false, _ => 0, (_, _) => 0)
  }

  /** Side-effecting are those that can do more than write a register, and guarded ones, loads, comparisons and fma. */
  lemma SideEffectsExactly(inst: Inst)
    ensures IsSideEffecting(inst) <==>
            CanDoMore(inst) || inst.guard.Some? || inst.op.base in {Ld, Setp, Fma} || TouchesFlags(inst)
  {
    hide CanDoMore;
    if inst.op.base in {Bra, Ret, St, Atom, Call} || inst.op.base.OtherBase? {
      DoesMore(inst);
    }
    if !IsSideEffecting(inst) {
      OnlyWrites(inst);
    }
  }

  lemma DoesMore(inst: Inst)
    requires inst.op.base in {Bra, Ret, St, Atom, Call} || inst.op.base.OtherBase?
    ensures inst.guard.None? ==> CanDoMore(inst)
  {
    if inst.guard.None? {
      assert MoreThanWrites(GuardedEffect(AnyHost(), inst, State(map[], [])));
    }
  }

  lemma OnlyWrites(inst: Inst)
    requires !IsSideEffecting(inst)
    ensures !CanDoMore(inst)
  {
    forall host: Host, s: State ensures !MoreThanWrites(GuardedEffect(host, inst, s)) {
    }
  }

  /** Whether dead-code elimination must keep an instruction whoever reads its result. */
  ghost predicate MustStay(items: seq<Item>, i: nat) {
    && i < |items| && items[i].Code?
    && var inst := items[i].inst;
       CanDoMore(inst) || inst.guard.Some? || inst.op.base in {Ld, Setp, Fma} || TouchesFlags(inst)
  }

  /** `i` writes a register that `j` reads. */
  predicate Feeds(items: seq<Item>, i: nat, j: nat) {
    && i < |items| && items[i].Code? && j < |items| && items[j].Code?
    && Destination(items[i].inst).Some? && !IsPredicate(Destination(items[i].inst).value)
    && Destination(items[i].inst).value in ReadRegisters(items[j].inst)
  }

  ghost predicate Closed(items: seq<Item>, keep: set<nat>) {
    && (forall i: nat | MustStay(items, i) :: i in keep)
    && (forall i: nat, j: nat | j in keep && Feeds(items, i, j) :: i in keep)
  }

  lemma {:induction false} LiveInside(items: seq<Item>, keep: set<nat>, n: nat, i: nat)
    requires Closed(items, keep) && LiveBy(items, n, i)
    ensures i in keep
    decreases n
  {
    SideEffectsExactly(items[i].inst);
    hide IsSideEffecting, CanDoMore, TouchesFlags, ReadRegisters, Destination;
    if IsSideEffecting(items[i].inst) {
      assert MustStay(items, i);
    } else {
      var j: nat, r: Reg :| LiveBy(items, n - 1, j) && ReadsAt(items, j, r) && Defines(items, i, r);
      LiveInside(items, keep, n - 1, j);
      assert Feeds(items, i, j);
    }
  }

  /** What is kept is the least set with everything that must stay and everything that feeds what is kept. */
  lemma KeptIsLeast(items: seq<Item>, keep: set<nat>)
    ensures Closed(items, LiveSet(items))
    ensures Closed(items, keep) ==> LiveSet(items) <= keep
  {
    hide CanDoMore, TouchesFlags, IsSideEffecting, ReadRegisters, Destination, Closed;
    LiveIsClosed(items);
    if Closed(items, keep) {
      forall i | i in LiveSet(items) ensures i in keep {
        var n: nat :| LiveBy(items, n, i);
        LiveInside(items, keep, n, i);
      }
    }
  }

  lemma LiveIsClosed(items: seq<Item>)
    ensures Closed(items, LiveSet(items))
  {
    hide CanDoMore, TouchesFlags, IsSideEffecting, ReadRegisters, Destination;
    forall i: nat | MustStay(items, i) ensures i in LiveSet(items) {
      SideEffectsExactly(items[i].inst);
      assert LiveBy(items, 0, i);
    }
    forall i: nat, j: nat | j in LiveSet(items) && Feeds(items, i, j) ensures i in LiveSet(items) {
      var r := Destination(items[i].inst).value;
      assert ReadsAt(items, j, r) && Defines(items, i, r);
      LiveThrough(items, j, r, i);
    }
  }

  // ----- reads -----

  /** Some host tells apart two states that differ in this register only. */
  ghost predicate Sees(inst: Inst, r: Reg) {
    exists host: Host, a: State, b: State :: TellsApart(host, inst, r, a, b)
  }

  ghost predicate TellsApart(host: Host, inst: Inst, r: Reg, a: State, b: State) {
    && a.gmem == b.gmem && (forall q: Reg | q != r :: Get(a.regs, q) == Get(b.regs, q))
    && GuardedEffect(host, inst, a) != GuardedEffect(host, inst, b)
  }

  /** Operands as the operation wants them. */
  predicate Regular(inst: Inst) {
    var os := inst.operands;
    match inst.op.base
    case Bra => |os| == 1 && os[0].Target?
    case Ret => os == []
    case Ld => |os| == 2 && os[0].RegOp? && (os[1].ParamAddr? || os[1].Addr?)
    case St => |os| == 2 && os[0].Addr?
    case Setp => |os| == 3 && os[0].RegOp?
    case Atom | Call | OtherBase(_) => false
    case _ => Written(inst).Some?
  }

  /** The guard on, this register as given, everything else 0. */
  function With(inst: Inst, r: Reg, value: nat): State {
    var regs: Regs := if inst.guard.Some? then map[inst.guard.value := if inst.negated then 0 else 1] else map[];
    State(regs[r := value], seq(16, _ => 0))
  }

  lemma WithGuard(inst: Inst, r: Reg, value: nat)
    requires inst.guard != Some(r)
    ensures GuardHolds(inst, With(inst, r, value).regs)
  {
  }

  lemma SeesGuard(inst: Inst, r: Reg)
    requires Regular(inst) && inst.guard == Some(r)
    ensures Sees(inst, r)
  {
    var a, b := With(inst, r, 0), With(inst, r, 1);
    hide Get;
    assert TellsApart(AnyHost(), inst, r, a, b) by {
      GuardOnOff(inst, r);
      hide Regular, GuardHolds;
      EffectNotNothing(inst, a);
      EffectNotNothing(inst, b);
      SameElsewhere(inst, r);
      hide InstEffect;
    }
  }

  lemma SameElsewhere(inst: Inst, r: Reg)
    ensures forall x: nat, y: nat, q: Reg | q != r :: Get(With(inst, r, x).regs, q) == Get(With(inst, r, y).regs, q)
  {
  }

  lemma GuardOnOff(inst: Inst, r: Reg)
    requires inst.guard == Some(r)
    ensures GuardHolds(inst, With(inst, r, 0).regs) != GuardHolds(inst, With(inst, r, 1).regs)
  {
  }

  lemma EffectNotNothing(inst: Inst, s: State)
    requires Regular(inst)
    ensures InstEffect(AnyHost(), inst, s) != Nothing
  {
  }

  /** The host that computes the `k`th source, and compares it with 1. */
  function Picks(k: nat): Host {
    Host((_, vs: seq<nat>) => if k < |vs| then vs[k] else 0, (_, x, y) => (if k == 0 then x else y) == 1, _ => 0,
         (_, _) => 0)
  }

  lemma OperandValue(host: Host, inst: Inst, o: Operand, r: Reg, value: nat)
    requires r in OperandRegs(o)
    ensures ValueOf(host, inst.op.ty, o, With(inst, r, value).regs) == value
  {
    assert o == RegOp(r) || o == Addr(r);
  }

  lemma PickedSource(inst: Inst, r: Reg, k: nat, value: nat)
    requires FirstSource(inst) <= k < |inst.operands| && r in OperandRegs(inst.operands[k])
    ensures Sources(Picks(k - FirstSource(inst)), inst, With(inst, r, value).regs)[k - FirstSource(inst)] == value
  {
    var first := FirstSource(inst);
    var host, j := Picks(k - first), k - first;
    OperandValue(host, inst, inst.operands[k], r, value);
    assert inst.operands[j + first] == inst.operands[k];
    hide With, ValueOf, Picks, OperandRegs, FirstSource;
  }

  lemma SeesOperand(inst: Inst, r: Reg, k: nat)
    requires Regular(inst) && inst.guard != Some(r) && inst.op.base !in {Bra, Ret, Ld, St, Setp}
    requires FirstSource(inst) <= k < |inst.operands| && r in OperandRegs(inst.operands[k])
    ensures Sees(inst, r)
  {
    var host, a, b := Picks(k - FirstSource(inst)), With(inst, r, 0), With(inst, r, 1);
    PickedSource(inst, r, k, 0);
    PickedSource(inst, r, k, 1);
    WithGuard(inst, r, 0);
    WithGuard(inst, r, 1);
    SameElsewhere(inst, r);
    hide With, Sources, GuardHolds, ValueOf, OperandRegs;
    SameMemory(inst, r);
    assert TellsApart(host, inst, r, a, b);
  }

  lemma SameMemory(inst: Inst, r: Reg)
    ensures forall x: nat :: With(inst, r, x).gmem == seq(16, _ => 0)
  {
  }

  lemma SeesCompared(inst: Inst, r: Reg, k: nat)
    requires Regular(inst) && inst.guard != Some(r) && inst.op.base == Setp
    requires FirstSource(inst) <= k < |inst.operands| && r in OperandRegs(inst.operands[k])
    ensures Sees(inst, r)
  {
    var host, a, b := Picks(k - FirstSource(inst)), With(inst, r, 0), With(inst, r, 1);
    PickedSource(inst, r, k, 0);
    PickedSource(inst, r, k, 1);
    WithGuard(inst, r, 0);
    WithGuard(inst, r, 1);
    SameElsewhere(inst, r);
    assert k == 1 || k == 2;
    hide With, Sources, GuardHolds, ValueOf, OperandRegs;
    SameMemory(inst, r);
    assert TellsApart(host, inst, r, a, b);
  }

  lemma Reads(inst: Inst, r: Reg, x: nat)
    ensures Get(With(inst, r, x).regs, r) == x
  {
  }

  /** Address 0 is inside a memory of sixteen bytes, address 16 is not. */
  lemma SeesAddress(inst: Inst, r: Reg)
    requires Regular(inst) && inst.guard != Some(r)
    requires (inst.op.base == Ld && inst.operands[1] == Addr(r)) || (inst.op.base == St && inst.operands[0] == Addr(r))
    ensures Sees(inst, r)
  {
    var a, b := With(inst, r, 0), With(inst, r, 16);
    WithGuard(inst, r, 0);
    WithGuard(inst, r, 16);
    SameElsewhere(inst, r);
    SameMemory(inst, r);
    Reads(inst, r, 0);
    Reads(inst, r, 16);
    hide With, GuardHolds, FromBytes, ToBytes, Get;
    assert InstEffect(AnyHost(), inst, b) == Failure;
    assert InstEffect(AnyHost(), inst, a) != Failure;
    assert TellsApart(AnyHost(), inst, r, a, b);
  }

  lemma BytesDiffer(size: nat)
    requires size > 0
    ensures ToBytes(0, size) != ToBytes(1, size)
  {
    assert ToBytes(0, size)[0] == 0 && ToBytes(1, size)[0] == 1;
  }

  lemma SeesStored(inst: Inst, r: Reg)
    requires Regular(inst) && inst.guard != Some(r) && inst.op.base == St
    requires r in OperandRegs(inst.operands[1]) && inst.operands[0] != Addr(r)
    ensures Sees(inst, r)
  {
    var a, b, q := With(inst, r, 0), With(inst, r, 1), inst.operands[0].reg;
    WithGuard(inst, r, 0);
    WithGuard(inst, r, 1);
    SameElsewhere(inst, r);
    SameMemory(inst, r);
    Reads(inst, r, 0);
    Reads(inst, r, 1);
    BytesDiffer(SizeOf(inst.op.ty));
    Elsewhere(inst, r, q);
    OperandValue(AnyHost(), inst, inst.operands[1], r, 0);
    OperandValue(AnyHost(), inst, inst.operands[1], r, 1);
    hide With, GuardHolds, ToBytes, Get, ValueOf;
    assert TellsApart(AnyHost(), inst, r, a, b);
  }

  /** Every other register but the guard is 0. */
  lemma Elsewhere(inst: Inst, r: Reg, q: Reg)
    requires q != r
    ensures forall x: nat :: Get(With(inst, r, x).regs, q) <= 1
  {
  }

  lemma SourceOf(inst: Inst, r: Reg) returns (k: nat)
    requires r in ReadRegisters(inst) && inst.guard != Some(r)
    ensures FirstSource(inst) <= k < |inst.operands| && r in OperandRegs(inst.operands[k])
  {
    k :| FirstSource(inst) <= k < |inst.operands| && r in OperandRegs(inst.operands[k]);
  }

  /** An instruction is said to read exactly the registers that can make a difference to it. */
  lemma ReadsExactly(inst: Inst, r: Reg)
    requires Regular(inst)
    ensures r in ReadRegisters(inst) <==> Sees(inst, r)
  {
    if r in ReadRegisters(inst) {
      if inst.guard == Some(r) {
        SeesGuard(inst, r);
      } else {
        var k := SourceOf(inst, r);
        hide Sees, ReadRegisters;
        if inst.op.base == Setp {
          SeesCompared(inst, r, k);
        } else if inst.op.base == Ld || (inst.op.base == St && inst.operands[0] == Addr(r)) {
          SeesAddress(inst, r);
        } else if inst.op.base == St {
          SeesStored(inst, r);
        } else {
          SeesOperand(inst, r, k);
        }
      }
    } else {
      forall host: Host, a: State, b: State ensures !TellsApart(host, inst, r, a, b) {
        Unseen(host, inst, r, a, b);
      }
    }
  }

  lemma Unseen(host: Host, inst: Inst, r: Reg, a: State, b: State)
    requires r !in ReadRegisters(inst)
    ensures !TellsApart(host, inst, r, a, b)
  {
    hide ReadRegisters, GuardedEffect, Get;
    if a.gmem == b.gmem && forall q: Reg | q != r :: Get(a.regs, q) == Get(b.regs, q) {
      EffectFromReads(host, inst, a, b);
    }
  }
}
