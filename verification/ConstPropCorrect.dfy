/** Constant facts hold at every visit, whatever round the dataflow stopped at; the rewriting changes no run. */
module ConstPropCorrect {
  import opened Wrappers
  import opened Words
  import opened Ptx
  import opened CfgBuilder
  import opened ConstProp

  /** Base and type name the operation; the modifier of `mul.hi` makes it another one, which the pass does not see. */
  predicate NamesMeaning(op: Opcode) {
    forall m | m in op.mods :: !m.OtherMod?
  }

  /** The host agrees with the pass about the operations it folds, where base and type name them. */
  ghost predicate FoldsRightly(host: Host) {
    forall op: Opcode, vs: seq<nat> | NamesMeaning(op) && (IsInt32(op.ty) || op.ty == F32) ::
      && (op.base == Mov && |vs| == 1 ==> host.eval(op, vs) == vs[0] % WORD)
      && (op.base in {Add, Sub, Mul} && |vs| == 2 && op.ty == U32 ==>
            host.eval(op, vs) == EvaluateU32(op.base, vs[0], vs[1]))
      && (op.base in {And, Or, Xor} && |vs| == 2 ==> host.eval(op, vs) == Mask32(Bitwise(op.base, vs[0], vs[1])))
  }

  /** Every write of a general register is one the dataflow takes into account, and for what it is. */
  predicate TrackedWrites(items: seq<Item>) {
    forall i | 0 <= i < |items| && items[i].Code? :: TrackedWrite(items[i].inst) && NamesMeaning(items[i].inst.op)
  }

  predicate TrackedWrite(inst: Inst) {
    Written(inst).Some? && !IsPredicate(Written(inst).value) ==>
      inst.guard.None? && Cc !in inst.op.mods && inst.op.base != Fma
  }

  /** The facts are true of these registers. */
  ghost predicate Holds(consts: Consts, regs: Regs) {
    forall r | r in consts ::
      && Get(regs, r) == consts[r].value < WORD
      && (IsInt32(consts[r].ty) || consts[r].ty == F32)
      && !IsPredicate(r)
  }

  /** A resolved operand is the value the operand has. */
  lemma ResolvedValue(host: Host, o: Operand, ty: Type, consts: Consts, regs: Regs)
    requires Holds(consts, regs) && Resolve(o, ty, consts).Some?
    ensures var c := Resolve(o, ty, consts).value;
            && (IsInt32(ty) || ty == F32) && c.value < WORD
            && (c.ty == ty || (ty == F32 && c.ty == F32))
            && ValueOf(host, ty, o, regs) == c.value
            && ValueOf(host, ty, Format(c), regs) == c.value
  {
  }

  /** What the pass computes for an instruction is what the host computes. */
  lemma FoldedValue(host: Host, inst: Inst, consts: Consts, regs: Regs)
    requires FoldsRightly(host) && Holds(consts, regs) && Foldable(inst) && NamesMeaning(inst.op)
    requires FoldedConst(inst, ResolveAll(inst, consts)).Some?
    ensures var c := FoldedConst(inst, ResolveAll(inst, consts)).value;
            && (IsInt32(inst.op.ty) || inst.op.ty == F32)
            && c.ty == inst.op.ty && c.value < WORD
            && host.eval(inst.op, Sources(host, inst, regs)) == c.value
  {
    var rs, vs := ResolveAll(inst, consts), Sources(host, inst, regs);
    forall k | 0 <= k < |rs|
      ensures rs[k].Some? ==> rs[k].value.value == vs[k] < WORD && rs[k].value.ty == inst.op.ty
                              && (IsInt32(inst.op.ty) || inst.op.ty == F32)
    {
      if rs[k].Some? {
        ResolvedValue(host, inst.operands[k + 1], inst.op.ty, consts, regs);
      }
    }
    if inst.op.base == Mov {
      assert vs[0] % WORD == vs[0];
    }
  }

  /** The registers behind an effect. */
  function RegsAfter(e: Effect, regs: Regs): Regs {
    if e.Write? then regs[e.reg := e.value] else regs
  }

  lemma StepRegs(host: Host, items: seq<Item>, pc: nat, s: State)
    requires pc < |items| && Step(host, items, pc, s).Next?
    ensures Step(host, items, pc, s).state.regs ==
            if items[pc].Code? then RegsAfter(GuardedEffect(host, items[pc].inst, s), s.regs) else s.regs
  {
    hide GuardedEffect, FindLabel;
  }

  /** Writing a predicate register makes no fact false, nor does forgetting one. */
  lemma OtherWrite(consts: Consts, regs: Regs, e: Effect, d: Option<Reg>)
    requires Holds(consts, regs) && (e.Write? ==> IsPredicate(e.reg) || Some(e.reg) == d)
    requires e.Write? && d == Some(e.reg) ==> !IsPredicate(e.reg)
    ensures Holds(Record(consts, d, None), RegsAfter(e, regs))
  {
  }

  /** Neither does recording what was written. */
  lemma KnownWrite(consts: Consts, regs: Regs, d: Reg, c: Const)
    requires Holds(consts, regs) && !IsPredicate(d) && c.value < WORD && (IsInt32(c.ty) || c.ty == F32)
    ensures Holds(Record(consts, Some(d), Some(c)), regs[d := c.value])
  {
  }

  /** A write that folds to a constant is that constant. */
  lemma FoldedWrite(host: Host, inst: Inst, consts: Consts, s: State)
    requires FoldsRightly(host) && Holds(consts, s.regs) && Fold(inst, consts).1.Some? && NamesMeaning(inst.op)
    ensures var c := Fold(inst, consts).1.value;
            && Foldable(inst) && c.value < WORD && (IsInt32(c.ty) || c.ty == F32)
            && GuardedEffect(host, inst, s) == Write(Destination(inst).value, c.value)
  {
    FoldedValue(host, inst, consts, s.regs);
    FoldableEffect(host, inst, s);
    hide FoldsRightly, GuardedEffect, Holds, Sources, FoldedConst, ResolveAll, NamesMeaning;
  }

  /** A foldable instruction writes what the host evaluates it to. */
  lemma FoldableEffect(host: Host, inst: Inst, s: State)
    requires Foldable(inst)
    ensures GuardedEffect(host, inst, s) == Write(Destination(inst).value,
                                                  host.eval(inst.op, Sources(host, inst, s.regs)))
  {
  }

  /** A write that does not fold makes the pass forget what it knew of the register. */
  lemma UnfoldedWrite(host: Host, inst: Inst, consts: Consts, s: State)
    requires TrackedWrite(inst) && Holds(consts, s.regs) && Fold(inst, consts).1.None?
    ensures Holds(FlowItem(Code(inst), consts), RegsAfter(GuardedEffect(host, inst, s), s.regs))
  {
    WriteEffect(host, inst, s);
    var e, tracked := GuardedEffect(host, inst, s), inst.guard.None? && Cc !in inst.op.mods;
    hide GuardedEffect, Fold, Holds, IsFoldBase;
    OtherWrite(consts, s.regs, e, if tracked && e != Nothing && Destination(inst).Some?
               && !IsPredicate(Destination(inst).value)
                                  then Destination(inst) else None);
    if tracked {
      ForgetMore(consts, s.regs, e, Destination(inst));
    }
  }

  lemma ForgetMore(consts: Consts, regs: Regs, e: Effect, d: Option<Reg>)
    requires Holds(consts, regs)
    requires Holds(Record(consts, if e != Nothing && d.Some? && !IsPredicate(d.value) then d else None, None),
                   RegsAfter(e, regs))
    ensures Holds(Record(consts, d, None), RegsAfter(e, regs))
  {
  }

  /** What the instruction folds to is what it computes. */
  predicate FoldKnown(inst: Inst, consts: Consts) {
    Fold(inst, consts).1.Some? ==> NamesMeaning(inst.op)
  }

  /** Going over an instruction keeps the facts true, if what it writes is tracked and known. */
  lemma TrackedKeepsFacts(host: Host, inst: Inst, consts: Consts, s: State)
    requires FoldsRightly(host) && TrackedWrite(inst) && Holds(consts, s.regs) && FoldKnown(inst, consts)
    ensures Holds(FlowItem(Code(inst), consts), RegsAfter(GuardedEffect(host, inst, s), s.regs))
  {
    if Fold(inst, consts).1.Some? {
      var c := Fold(inst, consts).1.value;
      FoldedWrite(host, inst, consts, s);
      assert TrackedWrite(inst) ==> inst.guard.None? && Cc !in inst.op.mods;
      hide Fold, GuardedEffect, Holds, FoldsRightly;
      KnownWrite(consts, s.regs, Destination(inst).value, c);
    } else {
      UnfoldedWrite(host, inst, consts, s);
    }
  }

  // ----- writes the dataflow passes over -----

  /** The guard is not known to be off. */
  predicate MayRun(inst: Inst, consts: Consts) {
    inst.guard.None? || inst.guard.value !in consts || (consts[inst.guard.value].value != 0) != inst.negated
  }

  /** A load or comparison with the operands it needs; anything else that has a register to write. */
  predicate MayWrite(inst: Inst) {
    match inst.op.base
    case Ld => |inst.operands| == 2 && (inst.operands[1].ParamAddr? || inst.operands[1].Addr?)
    case Setp => |inst.operands| == 3
    case _ => true
  }

  /** The instruction without its guard folds to this value. */
  predicate FoldsTo(inst: Inst, consts: Consts, v: nat) {
    var c := Fold(inst.(guard := None), consts).1;
    c.Some? && c.value.value == v && NamesMeaning(inst.op)
  }

  /** The fact about the register the instruction writes, if there is one, survives. */
  predicate FactSurvives(inst: Inst, consts: Consts)
    requires Written(inst).Some?
  {
    var d := Written(inst).value;
    d in consts && MayRun(inst, consts) && MayWrite(inst) ==> FoldsTo(inst, consts, consts[d].value)
  }

  lemma UntrackedFlow(inst: Inst, consts: Consts)
    requires !TrackedWrite(inst)
    ensures FlowItem(Code(inst), consts) == consts
    ensures Written(inst).Some? && !IsPredicate(Written(inst).value) && inst.operands != []
    ensures IsPureBase(inst.op.base) || inst.op.base in {Ld, Setp, Fma}
    ensures inst.op.base != Fma ==> Destination(inst) == Written(inst)
  {
  }

  /** Without the guard the effect is the same, once the guard holds. */
  lemma Unguarded(host: Host, inst: Inst, s: State)
    requires GuardHolds(inst, s.regs)
    ensures GuardedEffect(host, inst, s) == GuardedEffect(host, inst.(guard := None), s)
  {
    var bare := inst.(guard := None);
    assert Sources(host, inst, s.regs) == Sources(host, bare, s.regs);
  }

  /** Over a write the dataflow passes over the facts stay true if the one it is about survives. */
  lemma Survives(host: Host, inst: Inst, consts: Consts, s: State)
    requires FoldsRightly(host) && Holds(consts, s.regs) && !TrackedWrite(inst)
    requires Written(inst).Some? && FactSurvives(inst, consts)
    ensures Holds(FlowItem(Code(inst), consts), RegsAfter(GuardedEffect(host, inst, s), s.regs))
  {
    UntrackedFlow(inst, consts);
    WriteEffect(host, inst, s);
    CannotWrite(host, inst, s);
    var d, e := Written(inst).value, GuardedEffect(host, inst, s);
    if e.Write? && d in consts {
      assert MayRun(inst, consts);
      Unguarded(host, inst, s);
      FoldedWrite(host, inst.(guard := None), consts, s);
      hide Fold, FoldsRightly, GuardedEffect, Foldable, TrackedWrite;
      assert e.value == consts[d].value;
    }
    hide Fold, FoldsRightly, GuardedEffect, FlowItem, TrackedWrite;
  }

  lemma CannotWrite(host: Host, inst: Inst, s: State)
    ensures !MayWrite(inst) ==> !GuardedEffect(host, inst, s).Write?
  {
  }

  /** The item makes no fact false. */
  predicate ItemSurvives(item: Item, consts: Consts) {
    item.Code? ==> if TrackedWrite(item.inst) then FoldKnown(item.inst, consts) else FactSurvives(item.inst, consts)
  }

  /** Going over one item keeps the facts true, if it makes none false. */
  lemma StepKeepsFacts(host: Host, items: seq<Item>, pc: nat, s: State, consts: Consts)
    requires FoldsRightly(host) && pc < |items| && ItemSurvives(items[pc], consts)
    requires Holds(consts, s.regs) && Step(host, items, pc, s).Next?
    ensures Holds(FlowItem(items[pc], consts), Step(host, items, pc, s).state.regs)
  {
    StepRegs(host, items, pc, s);
    if items[pc].Code? {
      var inst := items[pc].inst;
      if TrackedWrite(inst) {
        TrackedKeepsFacts(host, inst, consts, s);
      } else {
        Survives(host, inst, consts, s);
      }
    }
    hide FoldsRightly, Holds, GuardedEffect, TrackedWrite, Step, Fold, FactSurvives, FoldKnown;
  }

  /** An instruction writes at most the register `Written` names. */
  lemma WriteEffect(host: Host, inst: Inst, s: State)
    ensures match GuardedEffect(host, inst, s)
            case Write(r, v) =>
              && Written(inst) == Some(r)
              && (IsFoldBase(inst.op.base) ==> v == host.eval(inst.op, Sources(host, inst, s.regs)))
            case _ => true
    ensures IsFoldBase(inst.op.base) && inst.guard.None? && Written(inst).Some? ==> GuardedEffect(host, inst, s).Write?
  {
  }

  // ----- facts at every point of a run -----

  /** A program with the graph the pass works on: `build_cfg` succeeded, nothing branches to the entry. */
  ghost predicate Analysed(items: seq<Item>, cfg: Cfg) {
    Faithful(items, cfg) && NoGuardedReturn(items) && |cfg.blocks| > 0 && cfg.blocks[0].predecessors == {}
  }

  /** `b` is the block item `pc` belongs to. */
  predicate InBlock(items: seq<Item>, cfg: Cfg, b: nat, pc: nat) {
    b < |cfg.starts| && cfg.starts[b] <= pc < EndOf(items, cfg.starts, b) <= |items|
  }

  /** No item makes a fact false that the dataflow has in front of it. */
  ghost predicate AllSurvive(items: seq<Item>, cfg: Cfg, outs: seq<Consts>)
    requires |outs| == |cfg.blocks| == |cfg.starts|
  {
    forall b: nat, i: nat | InBlock(items, cfg, b, i) :: ItemSurvives(items[i], FactsBefore(items, cfg, outs, b, i))
  }

  /** In particular if every write of a general register is tracked. */
  lemma TrackedSurvive(items: seq<Item>, cfg: Cfg, outs: seq<Consts>)
    requires |outs| == |cfg.blocks| == |cfg.starts| && TrackedWrites(items)
    ensures AllSurvive(items, cfg, outs)
  {
    hide FactsBefore, FactSurvives, TrackedWrite, Fold, NamesMeaning;
  }

  /** The facts in front of item `pc`, wherever it lies, are true. */
  ghost predicate FactsTrue(items: seq<Item>, cfg: Cfg, outs: seq<Consts>, pc: nat, s: State)
    requires |outs| == |cfg.blocks| == |cfg.starts|
  {
    pc < |items| ==> exists b :: InBlock(items, cfg, b, pc) && Holds(FactsBefore(items, cfg, outs, b, pc), s.regs)
  }

  lemma HoldsFewer(a: Consts, b: Consts, regs: Regs)
    requires SubFacts(a, b) && Holds(b, regs)
    ensures Holds(a, regs)
  {
  }

  lemma LeaderOpensBlock(items: seq<Item>, starts: seq<nat>, pc: nat) returns (b: nat)
    requires IsPartition(items, starts) && pc < |items| && IsLeader(items, pc)
    ensures b < |starts| && starts[b] == pc < EndOf(items, starts, b) <= |items|
  {
    assert pc in starts;
    b :| 0 <= b < |starts| && starts[b] == pc;
    NonEmptyUnlessNoItems(items, starts, b);
    PartitionBounds(items, starts, b);
  }

  /** Inside a block control goes to the next item; at its end it goes to the leader of a successor. */
  lemma TransferStaysOrEnters(items: seq<Item>, cfg: Cfg, b: nat, pc: nat, pc': nat) returns (c: nat)
    requires Faithful(items, cfg) && InBlock(items, cfg, b, pc) && Transfers(items, pc, pc') && pc' < |items|
    ensures pc + 1 < EndOf(items, cfg.starts, b) ==> pc' == pc + 1
    ensures pc + 1 == EndOf(items, cfg.starts, b) ==>
              c < |cfg.blocks| && InBlock(items, cfg, c, pc') && cfg.starts[c] == pc' && c in cfg.blocks[b].successors
  {
    hide BlockFilled, ItemsMapped, LabelsMapped;
    TerminatorAtEnd(items, cfg.starts, b, pc);
    c := 0;
    if pc + 1 == EndOf(items, cfg.starts, b) {
      if pc' == pc + 1 {
        assert pc' in cfg.starts;
      }
      c := LeaderOpensBlock(items, cfg.starts, pc');
      assert LeavesTo(items, cfg.starts, b, c);
    }
  }

  lemma {:induction false} ListingNothing(n: nat)
    ensures Listing({}, n) == []
  {
    if n > 0 {
      ListingNothing(n - 1);
    }
  }

  lemma StartHasFacts(items: seq<Item>, cfg: Cfg, outs: seq<Consts>, s: State)
    requires Analysed(items, cfg) && |outs| == |cfg.blocks| == |cfg.starts|
    ensures FactsTrue(items, cfg, outs, 0, s)
  {
    if |items| > 0 {
      var b := LeaderOpensBlock(items, cfg.starts, 0);
      StartsInjective(cfg.starts, b, 0);
      ListingNothing(|cfg.blocks|);
      assert EntryFacts(cfg, outs, 0) == map[];
      assert FactsBefore(items, cfg, outs, 0, 0) == map[];
    }
  }

  /** Entering a block, its entry facts are among the exit facts of the block just left. */
  lemma EntryFromPredecessor(cfg: Cfg, outs: seq<Consts>, b: nat, c: nat)
    requires b < |cfg.blocks| == |outs| && c < |cfg.blocks| && b in cfg.blocks[c].predecessors
    ensures SubFacts(EntryFacts(cfg, outs, c), outs[b])
  {
    var preds := Listing(cfg.blocks[c].predecessors, |cfg.blocks|);
    assert b in preds;
    var k :| 0 <= k < |preds| && preds[k] == b;
  }

  /** Leaving block `b`: its exit facts are true, and so are the entry facts of the block entered. */
  lemma FactsAcrossExit(host: Host, items: seq<Item>, cfg: Cfg, outs: seq<Consts>, b: nat, pc': nat, s': State)
    requires Faithful(items, cfg) && Inflationary(items, cfg, outs) && b < |outs|
    requires 0 < EndOf(items, cfg.starts, b) <= |items|
    requires InBlock(items, cfg, b, EndOf(items, cfg.starts, b) - 1)
    requires Transfers(items, EndOf(items, cfg.starts, b) - 1, pc')
    requires Holds(FactsAtEnd(items, cfg, outs, b), s'.regs)
    ensures Holds(outs[b], s'.regs) && FactsTrue(items, cfg, outs, pc', s')
  {
    hide Faithful, EntryFacts, FlowItem, Transfers;
    assert SubFacts(outs[b], FactsAtEnd(items, cfg, outs, b));
    HoldsFewer(outs[b], FactsAtEnd(items, cfg, outs, b), s'.regs);
    if pc' < |items| {
      var c := TransferStaysOrEnters(items, cfg, b, EndOf(items, cfg.starts, b) - 1, pc');
      LinkedBack(items, cfg, b, c);
      EntryFromPredecessor(cfg, outs, b, c);
      HoldsFewer(EntryFacts(cfg, outs, c), outs[b], s'.regs);
      assert FactsBefore(items, cfg, outs, c, pc') == EntryFacts(cfg, outs, c);
    }
  }

  /** Inside block `b`. */
  lemma FactsWithinBlock(items: seq<Item>, cfg: Cfg, outs: seq<Consts>, b: nat, pc: nat, pc': nat, s': State)
    requires Faithful(items, cfg) && |outs| == |cfg.blocks| == |cfg.starts|
    requires InBlock(items, cfg, b, pc) && pc + 1 < EndOf(items, cfg.starts, b) && Transfers(items, pc, pc')
    requires Holds(FactsBefore(items, cfg, outs, b, pc + 1), s'.regs)
    ensures FactsTrue(items, cfg, outs, pc', s')
  {
    hide Faithful, FactsBefore, Transfers;
    if pc' < |items| {
      var _ := TransferStaysOrEnters(items, cfg, b, pc, pc');
      assert InBlock(items, cfg, b, pc');
    }
  }

  /** The step at hand turns the facts in front of item `pc` into those behind it. */
  lemma FactsBehind(host: Host, items: seq<Item>, cfg: Cfg, outs: seq<Consts>, b: nat, pc: nat, s: State)
    requires FoldsRightly(host) && |outs| == |cfg.blocks| == |cfg.starts| && AllSurvive(items, cfg, outs)
    requires InBlock(items, cfg, b, pc) && Holds(FactsBefore(items, cfg, outs, b, pc), s.regs)
    requires Step(host, items, pc, s).Next?
    ensures Holds(FactsBefore(items, cfg, outs, b, pc + 1), Step(host, items, pc, s).state.regs)
  {
    hide Step, FlowItem, EntryFacts, FoldsRightly, ItemSurvives, Holds;
    StepKeepsFacts(host, items, pc, s, FactsBefore(items, cfg, outs, b, pc));
  }

  /**
   * After a step from item `pc` of block `b`: the facts there are true, and so are the exit facts if it was the last.
   */
  lemma FactsAfter(host: Host, items: seq<Item>, cfg: Cfg, outs: seq<Consts>, b: nat, pc: nat, pc': nat, s': State)
    requires Faithful(items, cfg) && Inflationary(items, cfg, outs) && |outs| == |cfg.blocks| == |cfg.starts|
    requires InBlock(items, cfg, b, pc) && Transfers(items, pc, pc')
    requires Holds(FactsBefore(items, cfg, outs, b, pc + 1), s'.regs)
    ensures FactsTrue(items, cfg, outs, pc', s')
    ensures pc + 1 == EndOf(items, cfg.starts, b) ==> Holds(outs[b], s'.regs)
  {
    hide FactsBefore, Inflationary, Holds, Faithful, Transfers, FactsTrue;
    if pc + 1 == EndOf(items, cfg.starts, b) {
      AtEnd(items, cfg, outs, b);
      FactsAcrossExit(host, items, cfg, outs, b, pc', s');
    } else {
      FactsWithinBlock(items, cfg, outs, b, pc, pc', s');
    }
  }

  /** Each step of a run carries true facts to true facts; at a block exit they are the recorded ones. */
  lemma FactsCarryOver(host: Host, items: seq<Item>, cfg: Cfg, outs: seq<Consts>, pc: nat, s: State)
    requires FoldsRightly(host) && Analysed(items, cfg) && Inflationary(items, cfg, outs)
    requires |outs| == |cfg.blocks| == |cfg.starts| && AllSurvive(items, cfg, outs)
    requires pc < |items| && Step(host, items, pc, s).Next? && FactsTrue(items, cfg, outs, pc, s)
    ensures FactsTrue(items, cfg, outs, Step(host, items, pc, s).pc, Step(host, items, pc, s).state)
    ensures forall b: nat | InBlock(items, cfg, b, pc) && EndOf(items, cfg.starts, b) == pc + 1 ::
              Holds(outs[b], Step(host, items, pc, s).state.regs)
  {
    var b := BlockWithFacts(items, cfg, outs, pc, s);
    FactsStep(host, items, cfg, outs, b, pc, s);
    hide *;
    forall c: nat | InBlock(items, cfg, c, pc) && EndOf(items, cfg.starts, c) == pc + 1
      ensures Holds(outs[c], Step(host, items, pc, s).state.regs)
    {
      OneBlockEach(items, cfg, b, c, pc);
    }
  }

  lemma BlockWithFacts(items: seq<Item>, cfg: Cfg, outs: seq<Consts>, pc: nat, s: State) returns (b: nat)
    requires |outs| == |cfg.blocks| == |cfg.starts| && pc < |items| && FactsTrue(items, cfg, outs, pc, s)
    ensures InBlock(items, cfg, b, pc) && Holds(FactsBefore(items, cfg, outs, b, pc), s.regs)
  {
    hide FactsBefore, Holds;
    b :| InBlock(items, cfg, b, pc) && Holds(FactsBefore(items, cfg, outs, b, pc), s.regs);
  }

  lemma FactsStep(host: Host, items: seq<Item>, cfg: Cfg, outs: seq<Consts>, b: nat, pc: nat, s: State)
    requires FoldsRightly(host) && Analysed(items, cfg) && Inflationary(items, cfg, outs)
    requires |outs| == |cfg.blocks| == |cfg.starts| && AllSurvive(items, cfg, outs)
    requires InBlock(items, cfg, b, pc) && Holds(FactsBefore(items, cfg, outs, b, pc), s.regs)
    requires Step(host, items, pc, s).Next?
    ensures Faithful(items, cfg)
    ensures FactsTrue(items, cfg, outs, Step(host, items, pc, s).pc, Step(host, items, pc, s).state)
    ensures pc + 1 == EndOf(items, cfg.starts, b) ==> Holds(outs[b], Step(host, items, pc, s).state.regs)
  {
    hide Step, FactsBefore, FoldsRightly, AllSurvive, Inflationary, Holds, Faithful, Transfers, FactsTrue,
         NoGuardedReturn, InBlock;
    var step := Step(host, items, pc, s);
    StepTransfers(host, items, pc, s);
    FactsBehind(host, items, cfg, outs, b, pc, s);
    FactsAfter(host, items, cfg, outs, b, pc, step.pc, step.state);
  }

  lemma AtEnd(items: seq<Item>, cfg: Cfg, outs: seq<Consts>, b: nat)
    requires b < |cfg.blocks| == |outs| == |cfg.starts| && EndOf(items, cfg.starts, b) <= |items|
    ensures FactsAtEnd(items, cfg, outs, b) == FactsBefore(items, cfg, outs, b, EndOf(items, cfg.starts, b))
  {
  }

  lemma LinkedBack(items: seq<Item>, cfg: Cfg, b: nat, c: nat)
    requires Faithful(items, cfg) && b < |cfg.blocks| && c < |cfg.blocks| && c in cfg.blocks[b].successors
    ensures b in cfg.blocks[c].predecessors
  {
  }

  lemma BlocksApart(items: seq<Item>, cfg: Cfg, b: nat, c: nat)
    requires Faithful(items, cfg) && b < c < |cfg.starts|
    ensures EndOf(items, cfg.starts, b) <= cfg.starts[c]
  {
    assert b + 1 == c || cfg.starts[b + 1] < cfg.starts[c];
  }

  lemma OneBlockEach(items: seq<Item>, cfg: Cfg, b: nat, c: nat, pc: nat)
    requires Faithful(items, cfg) && InBlock(items, cfg, b, pc) && InBlock(items, cfg, c, pc)
    ensures b == c
  {
    hide Faithful;
    if b < c {
      BlocksApart(items, cfg, b, c);
    } else if c < b {
      BlocksApart(items, cfg, c, b);
    }
  }

  /** Configurations of a run, step by step. */
  function At(host: Host, items: seq<Item>, s: State, n: nat): Option<(nat, State)> {
    if n == 0 then Some((0, s))
    else match At(host, items, s, n - 1)
         case None => None
         case Some(c) =>
           match Step(host, items, c.0, c.1)
           case Next(pc, s') => Some((pc, s'))
           case _ => None
  }

  lemma StepInRange(host: Host, items: seq<Item>, pc: nat, s: State)
    ensures Step(host, items, pc, s).Next? ==> pc < |items|
  {
  }

  lemma AnalysedCovers(items: seq<Item>, cfg: Cfg)
    requires Analysed(items, cfg)
    ensures Faithful(items, cfg) && BlocksCover(items, cfg) && |cfg.starts| == |cfg.blocks|
  {
  }

  /** At every point of every run, for the exits of any round: facts in front of the item at hand are true. */
  lemma {:induction false} FactsAlwaysTrue(host: Host, items: seq<Item>, cfg: Cfg, k: nat, s: State, n: nat)
    requires FoldsRightly(host) && Analysed(items, cfg)
    requires |Rounds(items, cfg, k)| == |cfg.blocks| == |cfg.starts| && AllSurvive(items, cfg, Rounds(items, cfg, k))
    ensures match At(host, items, s, n)
            case Some(c) => FactsTrue(items, cfg, Rounds(items, cfg, k), c.0, c.1)
            case None => true
  {
    hide Step, Analysed, FoldsRightly, AllSurvive, Rounds, Inflationary, Holds, BlocksCover;
    AnalysedCovers(items, cfg);
    RangesOk(items, cfg, Rounds(items, cfg, k));
    if n == 0 {
      StartHasFacts(items, cfg, Rounds(items, cfg, k), s);
    } else {
      FactsAlwaysTrue(host, items, cfg, k, s, n - 1);
      var before := At(host, items, s, n - 1);
      if before.Some? && Step(host, items, before.value.0, before.value.1).Next? {
        StepInRange(host, items, before.value.0, before.value.1);
        FactsCarryOver(host, items, cfg, Rounds(items, cfg, k), before.value.0, before.value.1);
      }
    }
  }

  /** On every visit to a block exit each recorded fact is the register's actual value. */
  lemma ExitFactsTrue(host: Host, items: seq<Item>, cfg: Cfg, k: nat, s: State, n: nat, b: nat)
    requires FoldsRightly(host) && Analysed(items, cfg)
    requires |Rounds(items, cfg, k)| == |cfg.blocks| == |cfg.starts| && AllSurvive(items, cfg, Rounds(items, cfg, k))
    requires At(host, items, s, n + 1).Some? && b < |cfg.starts|
    requires At(host, items, s, n).value.0 + 1 == EndOf(items, cfg.starts, b)
    ensures b < |Rounds(items, cfg, k)|
    ensures forall r | r in Rounds(items, cfg, k)[b] ::
              Get(At(host, items, s, n + 1).value.1.regs, r) == Rounds(items, cfg, k)[b][r].value
  {
    hide Rounds, FactsTrue, Inflationary, FoldsRightly, AllSurvive, Step, Analysed, BlocksCover, Holds, EndOf,
         InBlock;
    AnalysedCovers(items, cfg);
    FactsAlwaysTrue(host, items, cfg, k, s, n);
    var (pc, now) := At(host, items, s, n).value;
    StepInRange(host, items, pc, now);
    RangesOk(items, cfg, Rounds(items, cfg, k));
    FactsCarryOver(host, items, cfg, Rounds(items, cfg, k), pc, now);
    LastOfBlock(items, cfg, b, pc);
    HoldsAsValues(Rounds(items, cfg, k)[b], Step(host, items, pc, now).state.regs);
  }

  lemma LastOfBlock(items: seq<Item>, cfg: Cfg, b: nat, pc: nat)
    requires Analysed(items, cfg) && b < |cfg.starts| && pc + 1 == EndOf(items, cfg.starts, b)
    ensures InBlock(items, cfg, b, pc)
  {
    NonEmptyUnlessNoItems(items, cfg.starts, b);
    PartitionBounds(items, cfg.starts, b);
  }

  lemma HoldsAsValues(consts: Consts, regs: Regs)
    requires Holds(consts, regs)
    ensures forall r | r in consts :: Get(regs, r) == consts[r].value
  {
  }
}
