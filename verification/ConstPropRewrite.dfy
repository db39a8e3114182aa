/** The rewriting phase of constant propagation, and why the rewritten program runs exactly as the original. */
module ConstPropRewrite {
  import opened Wrappers
  import opened Words
  import opened Ptx
  import opened CfgBuilder
  import opened ConstProp
  import opened ConstPropCorrect

  const MAX_ITERATIONS: nat := 20

  function ApplyThrough(items: seq<Item>, s: nat, e: nat, consts: Consts): Consts
    requires e <= |items|
    decreases e
  {
    if e <= s then consts else ApplyItem(items[e - 1], ApplyThrough(items, s, e - 1, consts))
  }

  /** What the rewriting phase knows just before item `i` of block `b`. */
  function AppliedBefore(items: seq<Item>, cfg: Cfg, outs: seq<Consts>, b: nat, i: nat): Consts
    requires b < |cfg.blocks| == |outs| == |cfg.starts| && i <= |items|
  {
    ApplyThrough(items, cfg.starts[b], i, EntryFacts(cfg, outs, b))
  }

  function FoldItem(item: Item, consts: Consts): Item {
    match item
    case Label(_) => item
    case Code(inst) => Code(Fold(inst, consts).0)
  }

  /** Every one of the first `n` items is folded with the facts in front of it. */
  ghost predicate FoldedUpTo(items: seq<Item>, cfg: Cfg, outs: seq<Consts>, kept: seq<Item>, n: nat)
    requires |cfg.blocks| == |outs| == |cfg.starts|
  {
    && |kept| == n <= |items|
    && forall i: nat, b: nat | i < n && InBlock(items, cfg, b, i) ::
         kept[i] == FoldItem(items[i], AppliedBefore(items, cfg, outs, b, i))
  }

  /** `_label_to_block`: the first block listing the label. */
  method LabelToBlock(name: string, cfg: Cfg) returns (r: Option<nat>)
    ensures r.Some? ==> r.value < |cfg.blocks| && name in cfg.blocks[r.value].labels
    ensures r.None? ==> forall b | 0 <= b < |cfg.blocks| :: name !in cfg.blocks[b].labels
  {
    for b := 0 to |cfg.blocks|
      invariant forall c | 0 <= c < b :: name !in cfg.blocks[c].labels
    {
      if name in cfg.blocks[b].labels {
        return Some(b);
      }
    }
    return None;
  }

  /** With distinct labels the block listing a label is the block the label lies in. */
  lemma LabelBlock(items: seq<Item>, cfg: Cfg, i: nat, b: nat, c: nat)
    requires Faithful(items, cfg) && DistinctLabels(items) && InBlock(items, cfg, b, i) && items[i].Label?
    requires c < |cfg.blocks|
    ensures items[i].name in cfg.blocks[c].labels <==> c == b
  {
    assert BlockFilled(items, cfg.starts, b, cfg.blocks[b]) && BlockFilled(items, cfg.starts, c, cfg.blocks[c]);
    hide Faithful;
    if items[i].name in cfg.blocks[c].labels {
      var j: nat :| cfg.starts[c] <= j < EndOf(items, cfg.starts, c) && items[j] == Label(items[i].name);
      assert i == j;
      OneBlockEach(items, cfg, b, c, i);
    }
  }

  /** An instruction is mapped to the block it lies in. */
  lemma ItemBlock(items: seq<Item>, cfg: Cfg, i: nat, b: nat)
    requires Faithful(items, cfg) && InBlock(items, cfg, b, i) && items[i].Code?
    ensures i in cfg.itemToBlock && cfg.itemToBlock[i] == b
  {
    assert ItemsMapped(items, cfg.starts, |items|, cfg.itemToBlock);
    hide Faithful;
    assert InBlock(items, cfg, cfg.itemToBlock[i], i);
    OneBlockEach(items, cfg, b, cfg.itemToBlock[i], i);
  }

  lemma EndLeads(items: seq<Item>, starts: seq<nat>, b: nat)
    requires IsPartition(items, starts) && b < |starts|
    ensures EndOf(items, starts, b) == |items| || IsLeader(items, EndOf(items, starts, b))
  {
    if b + 1 < |starts| {
      assert starts[b + 1] in starts;
    }
  }

  /** The block of the next item: the same one, unless that item opens another. */
  lemma NextItemBlock(items: seq<Item>, cfg: Cfg, i: nat, b: nat) returns (c: nat)
    requires Faithful(items, cfg) && i < |items| && (i > 0 ==> InBlock(items, cfg, b, i - 1))
    ensures InBlock(items, cfg, c, i) && |cfg.starts| == |cfg.blocks|
    ensures (i > 0 && c == b) || (cfg.starts[c] == i && (i > 0 ==> c != b))
    ensures items[i].Label? ==> cfg.starts[c] == i
  {
    if IsLeader(items, i) {
      c := LeaderOpensBlock(items, cfg.starts, i);
    } else {
      c := b;
      EndLeads(items, cfg.starts, b);
    }
  }

  lemma FoldedNext(items: seq<Item>, cfg: Cfg, outs: seq<Consts>, kept: seq<Item>, n: nat, b: nat)
    requires Faithful(items, cfg) && |cfg.blocks| == |outs| == |cfg.starts| && n < |items|
    requires FoldedUpTo(items, cfg, outs, kept, n) && InBlock(items, cfg, b, n)
    ensures FoldedUpTo(items, cfg, outs, kept + [FoldItem(items[n], AppliedBefore(items, cfg, outs, b, n))], n + 1)
  {
    hide Faithful, AppliedBefore, FoldItem, InBlock;
    forall c: nat | InBlock(items, cfg, c, n) ensures c == b {
      OneBlockEach(items, cfg, b, c, n);
    }
  }

  lemma NothingFolded(items: seq<Item>, cfg: Cfg, outs: seq<Consts>)
    requires |cfg.blocks| == |outs| == |cfg.starts|
    ensures FoldedUpTo(items, cfg, outs, [], 0)
  {
  }

  /** The apply phase: facts are reset whenever the walk enters another block. */
  method Rewrite(items: seq<Item>, cfg: Cfg, outs: seq<Consts>) returns (kept: seq<Item>)
    requires Faithful(items, cfg) && DistinctLabels(items) && |cfg.blocks| == |outs| == |cfg.starts|
    ensures FoldedUpTo(items, cfg, outs, kept, |items|)
  {
    hide Faithful, DistinctLabels, EntryFacts, FoldedUpTo;
    kept := [];
    var localConstants: Consts := map[];
    var prevBlock: Option<nat> := None;
    ghost var b: nat := 0;
    NothingFolded(items, cfg, outs);
    for i := 0 to |items|
      invariant FoldedUpTo(items, cfg, outs, kept, i)
      invariant i == 0 ==> prevBlock == None
      invariant i > 0 ==> InBlock(items, cfg, b, i - 1) && prevBlock == Some(b)
                          && localConstants == AppliedBefore(items, cfg, outs, b, i)
    {
      ghost var c: nat := NextItemBlock(items, cfg, i, b);
      match items[i] {
        case Label(name) =>
          var found := LabelToBlock(name, cfg);
          LabelBlock(items, cfg, i, c, c);
          LabelBlock(items, cfg, i, c, found.value);
          if found.Some? {
            prevBlock := found;
            localConstants := EntryFacts(cfg, outs, found.value);
          }
          FoldedNext(items, cfg, outs, kept, i, c);
          kept := kept + [items[i]];
        case Code(inst) =>
          ItemBlock(items, cfg, i, c);
          var currentBlock := cfg.itemToBlock[i];
          if prevBlock != Some(currentBlock) {
            prevBlock := Some(currentBlock);
            localConstants := EntryFacts(cfg, outs, currentBlock);
          }
          FoldedNext(items, cfg, outs, kept, i, c);
          var (folded, newConstant) := Fold(inst, localConstants);
          var dest := Destination(inst);
          if dest.Some? && !IsPredicate(dest.value) {
            if newConstant.Some? {
              localConstants := localConstants[dest.value := newConstant.value];
            } else {
              localConstants := localConstants - {dest.value};
            }
          }
          kept := kept + [Code(folded)];
      }
      b := c;
    }
  }

  /** The pass: at most twenty rounds of dataflow, then the rewriting, converged or not. */
  method GlobalConstantPropagation(items: seq<Item>, cfg: Cfg)
    returns (kept: seq<Item>, iteration: nat, converged: bool)
    requires Faithful(items, cfg) && DistinctLabels(items)
    ensures iteration <= 20 && |Rounds(items, cfg, iteration)| == |cfg.blocks| == |cfg.starts|
    ensures FoldedUpTo(items, cfg, Rounds(items, cfg, iteration), kept, |items|)
    ensures converged ==> IsFixpoint(items, cfg, Rounds(items, cfg, iteration))
    ensures !converged ==> iteration == 20
  {
    hide Rounds, FoldedUpTo, IsFixpoint;
    var outs, changed;
    outs, iteration, changed := Propagate(items, cfg, MAX_ITERATIONS);
    converged := !changed;
    RangesOk(items, cfg, outs);
    kept := Rewrite(items, cfg, outs);
  }

  // ----- the rewritten program -----

  /**
   * The rewriting phase forgets what guarded instructions write and records what `.cc` instructions fold to; only `fma`
   * it passes over.
   */
  predicate ApplySurvives(item: Item, consts: Consts) {
    item.Code? ==>
      FoldKnown(item.inst, consts)
      && (!TrackedWrite(item.inst) && item.inst.op.base == Fma ==> FactSurvives(item.inst, consts))
  }

  /** Neither phase believes in a constant that a write it passes over may change. */
  ghost predicate Harmless(items: seq<Item>, cfg: Cfg, outs: seq<Consts>)
    requires |outs| == |cfg.blocks| == |cfg.starts|
  {
    && AllSurvive(items, cfg, outs)
    && forall b: nat, i: nat | InBlock(items, cfg, b, i) ::
        ApplySurvives(items[i], AppliedBefore(items, cfg, outs, b, i))
  }

  /** In particular where every write of a general register is tracked. */
  lemma TrackedIsHarmless(items: seq<Item>, cfg: Cfg, outs: seq<Consts>)
    requires |outs| == |cfg.blocks| == |cfg.starts| && TrackedWrites(items)
    ensures Harmless(items, cfg, outs)
  {
    TrackedSurvive(items, cfg, outs);
    hide AppliedBefore, FactSurvives, TrackedWrite, AllSurvive, Fold, NamesMeaning;
  }

  lemma FmaApplies(inst: Inst, consts: Consts)
    requires inst.op.base == Fma
    ensures Record(consts, Destination(inst), Fold(inst, consts).1) == consts == FlowItem(Code(inst), consts)
  {
  }

  /** What the rewriting phase knows stays true over an instruction. */
  lemma ApplyKeepsFacts(host: Host, inst: Inst, consts: Consts, s: State)
    requires FoldsRightly(host) && Holds(consts, s.regs) && ApplySurvives(Code(inst), consts)
    ensures Holds(ApplyItem(Code(inst), consts), RegsAfter(GuardedEffect(host, inst, s), s.regs))
  {
    WriteEffect(host, inst, s);
    if inst.op.base == Fma {
      FmaApplies(inst, consts);
      if TrackedWrite(inst) {
        TrackedKeepsFacts(host, inst, consts, s);
      } else {
        Survives(host, inst, consts, s);
      }
    } else if Fold(inst, consts).1.Some? {
      FoldedWrite(host, inst, consts, s);
      hide Fold, GuardedEffect, Holds, FoldsRightly;
      KnownWrite(consts, s.regs, Destination(inst).value, Fold(inst, consts).1.value);
    } else {
      ForgottenWrite(inst, consts, s.regs, GuardedEffect(host, inst, s));
    }
  }

  lemma ForgottenWrite(inst: Inst, consts: Consts, regs: Regs, e: Effect)
    requires Holds(consts, regs) && inst.op.base != Fma && Fold(inst, consts).1.None?
    requires e.Write? ==> Written(inst) == Some(e.reg)
    ensures Holds(ApplyItem(Code(inst), consts), RegsAfter(e, regs))
  {
    hide Fold;
  }

  lemma ApplyStep(host: Host, items: seq<Item>, pc: nat, s: State, consts: Consts)
    requires FoldsRightly(host) && pc < |items| && ApplySurvives(items[pc], consts)
    requires Holds(consts, s.regs) && Step(host, items, pc, s).Next?
    ensures Holds(ApplyItem(items[pc], consts), Step(host, items, pc, s).state.regs)
  {
    StepRegs(host, items, pc, s);
    if items[pc].Code? {
      ApplyKeepsFacts(host, items[pc].inst, consts, s);
    }
    hide FoldsRightly, Holds, GuardedEffect, Step, Fold, ApplySurvives;
  }

  /** Replacing known sources by immediates does not change what any source is. */
  lemma SameSources(host: Host, inst: Inst, consts: Consts, regs: Regs)
    requires Holds(consts, regs) && Foldable(inst)
    ensures Sources(host, WithConstants(inst, ResolveAll(inst, consts)), regs) == Sources(host, inst, regs)
  {
    var rs := ResolveAll(inst, consts);
    var folded := WithConstants(inst, rs);
    forall k | 1 <= k < |inst.operands|
      ensures ValueOf(host, inst.op.ty, folded.operands[k], regs) == ValueOf(host, inst.op.ty, inst.operands[k], regs)
    {
      assert folded.operands[k] == if rs[k - 1].Some? then Format(rs[k - 1].value) else inst.operands[k];
      if rs[k - 1].Some? {
        ResolvedValue(host, inst.operands[k], inst.op.ty, consts, regs);
      }
    }
  }

  lemma FormattedValue(host: Host, inst: Inst, c: Const, regs: Regs)
    requires FoldsRightly(host) && Foldable(inst) && inst.op.ty == c.ty && c.value < WORD
    requires IsInt32(c.ty) || c.ty == F32
    ensures var moved := inst.(op := Opcode(Mov, [], c.ty), operands := [inst.operands[0], Format(c)]);
            host.eval(moved.op, Sources(host, moved, regs)) == c.value
  {
    var moved := inst.(op := Opcode(Mov, [], c.ty), operands := [inst.operands[0], Format(c)]);
    var vs := Sources(host, moved, regs);
    assert ValueOf(host, c.ty, Format(c), regs) == c.value;
    assert |vs| == 1 && vs[0] == c.value;
    assert host.eval(moved.op, vs) == vs[0] % WORD;
  }

  /** Under true facts a folded instruction does what the original does. */
  lemma FoldedActs(host: Host, inst: Inst, consts: Consts, s: State)
    requires FoldsRightly(host) && Holds(consts, s.regs) && (inst.op.base in {And, Or, Xor} ==> FoldKnown(inst, consts))
    ensures GuardedEffect(host, Fold(inst, consts).0, s) == GuardedEffect(host, inst, s)
  {
    hide GuardedEffect, Holds, FoldsRightly, Sources, ResolveAll, FoldedConst, NamesMeaning;
    if Foldable(inst) && Fold(inst, consts).0 != inst {
      var rs := ResolveAll(inst, consts);
      var folded := Fold(inst, consts).0;
      FoldableEffect(host, inst, s);
      FoldableEffect(host, folded, s);
      if FoldedConst(inst, rs).Some? && inst.op.base in {And, Or, Xor} {
        FoldedValue(host, inst, consts, s.regs);
        FormattedValue(host, inst, FoldedConst(inst, rs).value, s.regs);
      } else {
        SameSources(host, inst, consts, s.regs);
      }
    }
  }

  /** Labels are where they were. */
  lemma {:induction false} SameLabels(items: seq<Item>, kept: seq<Item>, name: string, k: nat)
    requires |items| == |kept| && k <= |items|
    requires forall i | 0 <= i < |items| :: (items[i].Label? || kept[i].Label?) ==> items[i] == kept[i]
    ensures FindLabel(items, name, k) == FindLabel(kept, name, k)
    decreases |items| - k
  {
    if k < |items| {
      SameLabels(items, kept, name, k + 1);
    }
  }

  lemma LabelsKept(items: seq<Item>, cfg: Cfg, outs: seq<Consts>, kept: seq<Item>)
    requires Faithful(items, cfg) && |cfg.blocks| == |outs| == |cfg.starts|
    requires FoldedUpTo(items, cfg, outs, kept, |items|)
    ensures forall i | 0 <= i < |items| :: (items[i].Label? || kept[i].Label?) ==> items[i] == kept[i]
  {
    forall i: nat | i < |items| ensures (items[i].Label? || kept[i].Label?) ==> items[i] == kept[i] {
      var b := BlockOf(items, cfg, i);
    }
  }

  lemma BlockOf(items: seq<Item>, cfg: Cfg, i: nat) returns (b: nat)
    requires Faithful(items, cfg) && i < |items|
    ensures InBlock(items, cfg, b, i)
    decreases i
  {
    var before := 0;
    if i > 0 {
      before := BlockOf(items, cfg, i - 1);
    }
    b := NextItemBlock(items, cfg, i, before);
  }

  /** Instructions with equal effects, in programs with equal labels, take equal steps. */
  lemma SameEffectSameStep(host: Host, items: seq<Item>, kept: seq<Item>, pc: nat, s: State)
    requires |items| == |kept|
    requires forall i | 0 <= i < |items| :: (items[i].Label? || kept[i].Label?) ==> items[i] == kept[i]
    requires pc < |items| && items[pc].Code? ==>
               kept[pc].Code? && GuardedEffect(host, kept[pc].inst, s) == GuardedEffect(host, items[pc].inst, s)
    ensures Step(host, kept, pc, s) == Step(host, items, pc, s)
  {
    hide GuardedEffect, FindLabel;
    if pc < |items| && items[pc].Code? && GuardedEffect(host, items[pc].inst, s).Jump? {
      SameLabels(items, kept, GuardedEffect(host, items[pc].inst, s).name, 0);
    }
  }

  /** What the rewriting phase knows in front of item `pc` is true. */
  ghost predicate AppliedTrue(items: seq<Item>, cfg: Cfg, outs: seq<Consts>, pc: nat, s: State)
    requires |outs| == |cfg.blocks| == |cfg.starts|
  {
    forall b: nat | InBlock(items, cfg, b, pc) :: Holds(AppliedBefore(items, cfg, outs, b, pc), s.regs)
  }

  /** Where a block begins both phases know the same. */
  lemma EntryApplied(items: seq<Item>, cfg: Cfg, outs: seq<Consts>, pc: nat, s: State)
    requires Faithful(items, cfg) && |outs| == |cfg.blocks| == |cfg.starts| && FactsTrue(items, cfg, outs, pc, s)
    requires exists b: nat :: b < |cfg.starts| && cfg.starts[b] == pc && InBlock(items, cfg, b, pc)
    ensures AppliedTrue(items, cfg, outs, pc, s)
  {
    var b: nat :| b < |cfg.starts| && cfg.starts[b] == pc && InBlock(items, cfg, b, pc);
    var c := BlockWithFacts(items, cfg, outs, pc, s);
    hide Faithful, Holds, EntryFacts;
    OneBlockEach(items, cfg, b, c, pc);
    forall d: nat | InBlock(items, cfg, d, pc) ensures Holds(AppliedBefore(items, cfg, outs, d, pc), s.regs) {
      OneBlockEach(items, cfg, b, d, pc);
    }
  }

  lemma AppliedNext(items: seq<Item>, cfg: Cfg, outs: seq<Consts>, b: nat, pc: nat, s: State)
    requires |outs| == |cfg.blocks| == |cfg.starts| && Harmless(items, cfg, outs)
             && AppliedTrue(items, cfg, outs, pc, s)
    requires InBlock(items, cfg, b, pc)
    ensures ApplySurvives(items[pc], AppliedBefore(items, cfg, outs, b, pc))
    ensures Holds(AppliedBefore(items, cfg, outs, b, pc), s.regs)
    ensures AppliedBefore(items, cfg, outs, b, pc + 1) == ApplyItem(items[pc], AppliedBefore(items, cfg, outs, b, pc))
  {
    hide AllSurvive, Holds, ApplyItem, ApplySurvives, EntryFacts;
  }

  lemma WithinApplied(host: Host, items: seq<Item>, cfg: Cfg, outs: seq<Consts>, b: nat, pc: nat, next: nat, s: State)
    requires FoldsRightly(host) && Faithful(items, cfg) && |outs| == |cfg.blocks| == |cfg.starts|
    requires Harmless(items, cfg, outs) && AppliedTrue(items, cfg, outs, pc, s) && Step(host, items, pc, s).Next?
    requires next == pc + 1 && InBlock(items, cfg, b, pc) && InBlock(items, cfg, b, next)
    ensures AppliedTrue(items, cfg, outs, next, Step(host, items, pc, s).state)
  {
    AppliedNext(items, cfg, outs, b, pc, s);
    hide Faithful, Holds, ApplyItem, AppliedBefore, Step, FoldsRightly, ApplySurvives, Harmless;
    ApplyStep(host, items, pc, s, AppliedBefore(items, cfg, outs, b, pc));
    hide InBlock;
    forall d: nat | InBlock(items, cfg, d, next)
      ensures Holds(AppliedBefore(items, cfg, outs, d, next), Step(host, items, pc, s).state.regs)
    {
      OneBlockEach(items, cfg, b, d, next);
    }
  }

  /** Each step of a run carries true facts of both phases to true facts. */
  lemma BothCarryOver(host: Host, items: seq<Item>, cfg: Cfg, outs: seq<Consts>, pc: nat, s: State)
    requires FoldsRightly(host) && Analysed(items, cfg) && Inflationary(items, cfg, outs)
    requires |outs| == |cfg.blocks| == |cfg.starts| && Harmless(items, cfg, outs)
    requires pc < |items| && Step(host, items, pc, s).Next?
    requires FactsTrue(items, cfg, outs, pc, s) && AppliedTrue(items, cfg, outs, pc, s)
    ensures FactsTrue(items, cfg, outs, Step(host, items, pc, s).pc, Step(host, items, pc, s).state)
    ensures AppliedTrue(items, cfg, outs, Step(host, items, pc, s).pc, Step(host, items, pc, s).state)
  {
    assert Faithful(items, cfg) && NoGuardedReturn(items) && AllSurvive(items, cfg, outs);
    hide Analysed, Inflationary, Harmless, Faithful, FoldsRightly, Step, FactsBefore, AppliedBefore, Holds,
         NoGuardedReturn, Transfers, AllSurvive;
    var pc', s' := Step(host, items, pc, s).pc, Step(host, items, pc, s).state;
    FactsCarryOver(host, items, cfg, outs, pc, s);
    StepTransfers(host, items, pc, s);
    var b := BlockOf(items, cfg, pc);
    if pc' < |items| {
      var c := TransferStaysOrEnters(items, cfg, b, pc, pc');
      if pc + 1 < EndOf(items, cfg.starts, b) {
        WithinApplied(host, items, cfg, outs, b, pc, pc', s);
      } else {
        EntryApplied(items, cfg, outs, pc', s');
      }
    }
  }

  /** The item at a visited point, folded, has the effect of the original. */
  lemma FoldedAtVisit(host: Host, items: seq<Item>, cfg: Cfg, outs: seq<Consts>, kept: seq<Item>, pc: nat, s: State)
    requires FoldsRightly(host) && Faithful(items, cfg) && pc < |items| && items[pc].Code?
    requires |cfg.blocks| == |outs| == |cfg.starts| && FoldedUpTo(items, cfg, outs, kept, |items|)
    requires AppliedTrue(items, cfg, outs, pc, s) && Harmless(items, cfg, outs)
    ensures kept[pc].Code? && GuardedEffect(host, kept[pc].inst, s) == GuardedEffect(host, items[pc].inst, s)
  {
    var b := BlockOf(items, cfg, pc);
    AppliedNext(items, cfg, outs, b, pc, s);
    hide GuardedEffect, Holds, FoldsRightly, EntryFacts, Fold, AppliedBefore, Faithful, Harmless, FoldKnown,
         FactSurvives;
    FoldedActs(host, items[pc].inst, AppliedBefore(items, cfg, outs, b, pc), s);
  }

  /** One step of the rewritten program is one step of the original, with the identical state. */
  lemma RewrittenStep(host: Host, items: seq<Item>, cfg: Cfg, outs: seq<Consts>, kept: seq<Item>, pc: nat, s: State)
    requires FoldsRightly(host) && Faithful(items, cfg)
    requires |cfg.blocks| == |outs| == |cfg.starts| && FoldedUpTo(items, cfg, outs, kept, |items|)
    requires AppliedTrue(items, cfg, outs, pc, s) && Harmless(items, cfg, outs)
    ensures Step(host, kept, pc, s) == Step(host, items, pc, s)
  {
    LabelsKept(items, cfg, outs, kept);
    if pc < |items| && items[pc].Code? {
      FoldedAtVisit(host, items, cfg, outs, kept, pc, s);
    }
    hide *;
    SameEffectSameStep(host, items, kept, pc, s);
  }

  /** The rewritten program runs in lockstep with the original, whatever round the dataflow stopped at. */
  lemma {:induction false} RewrittenRuns(host: Host, items: seq<Item>, cfg: Cfg, outs: seq<Consts>, kept: seq<Item>,
                                         pc: nat, s: State, fuel: nat)
    requires FoldsRightly(host) && Analysed(items, cfg) && Inflationary(items, cfg, outs)
    requires |cfg.blocks| == |outs| == |cfg.starts| && Harmless(items, cfg, outs)
    requires FoldedUpTo(items, cfg, outs, kept, |items|)
    requires FactsTrue(items, cfg, outs, pc, s) && AppliedTrue(items, cfg, outs, pc, s)
    ensures Run(host, kept, pc, s, fuel) == Run(host, items, pc, s, fuel)
    decreases fuel
  {
    hide FoldedUpTo, FactsTrue, AppliedTrue, FoldsRightly, Harmless, Inflationary, Analysed, Step, BlocksCover,
         Faithful;
    AnalysedCovers(items, cfg);
    RewrittenStep(host, items, cfg, outs, kept, pc, s);
    if fuel > 0 && Step(host, items, pc, s).Next? {
      var step := Step(host, items, pc, s);
      StepInRange(host, items, pc, s);
      BothCarryOver(host, items, cfg, outs, pc, s);
      RewrittenRuns(host, items, cfg, outs, kept, step.pc, step.state, fuel - 1);
    }
  }

  lemma StartApplied(items: seq<Item>, cfg: Cfg, outs: seq<Consts>, s: State)
    requires Analysed(items, cfg) && |outs| == |cfg.blocks| == |cfg.starts| && FactsTrue(items, cfg, outs, 0, s)
    ensures AppliedTrue(items, cfg, outs, 0, s)
  {
    if |items| > 0 {
      var b := LeaderOpensBlock(items, cfg.starts, 0);
      assert InBlock(items, cfg, b, 0);
      EntryApplied(items, cfg, outs, 0, s);
    }
  }

  /**
   * Constant propagation changes no run from the start of the program, if no write it passes over can change a fact.
   */
  lemma PropagationPreservesRuns(host: Host, items: seq<Item>, cfg: Cfg, k: nat, kept: seq<Item>, s: State, fuel: nat)
    requires FoldsRightly(host) && Analysed(items, cfg)
    requires |cfg.blocks| == |Rounds(items, cfg, k)| == |cfg.starts| && Harmless(items, cfg, Rounds(items, cfg, k))
    requires FoldedUpTo(items, cfg, Rounds(items, cfg, k), kept, |items|)
    ensures Run(host, kept, 0, s, fuel) == Run(host, items, 0, s, fuel)
  {
    hide *;
    AnalysedCovers(items, cfg);
    StartHasFacts(items, cfg, Rounds(items, cfg, k), s);
    StartApplied(items, cfg, Rounds(items, cfg, k), s);
    RewrittenRuns(host, items, cfg, Rounds(items, cfg, k), kept, 0, s, fuel);
  }
}
