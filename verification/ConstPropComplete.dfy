/** What the folding passes are sure to find: constants computed from constants are known and written down. */
module ConstPropComplete {
  import opened Wrappers
  import opened Words
  import opened Ptx
  import opened ConstProp
  import L = LocalFolding
  import W = ConstPropRewrite

  // ----- meeting -----

  /** A block knows on entry exactly what all blocks in front of it know at their exits. */
  lemma MeetExactly(preds: seq<nat>, outs: seq<Consts>, v: Reg, c: Const)
    requires preds != [] && forall p | p in preds :: p < |outs|
    ensures v in Meet(preds, outs) && Meet(preds, outs)[v] == c <==>
            forall p | p in preds :: v in outs[p] && outs[p][v] == c
  {
    assert preds[0] in preds;
    assert forall k | 0 <= k < |preds| :: preds[k] in preds;
  }

  // ----- one instruction -----

  /** Registers of 32-bit integer types stand for one another, others for their own type only. */
  predicate KnownAs(c: Const, ty: Type) {
    if ty in {B32, S32, U32} then c.ty in {B32, S32, U32} else c.ty == ty
  }

  predicate KnownSource(o: Operand, ty: Type, consts: Consts) {
    || (o.RegOp? && o.reg in consts && KnownAs(consts[o.reg], ty))
    || (o.IntImm? && ty in {B32, S32, U32}) || (o.FloatImm? && ty == F32)
  }

  predicate SourcesKnown(inst: Inst, consts: Consts, n: nat) {
    |inst.operands| == n + 1 && forall k | 1 <= k <= n :: KnownSource(inst.operands[k], inst.op.ty, consts)
  }

  /** The instruction writes a general register whatever happens. */
  predicate Writer(inst: Inst) {
    inst.guard.None? && inst.operands != [] && inst.operands[0].RegOp? && inst.operands[0].reg.cls != ClassP
  }

  lemma ResolvedAt(inst: Inst, consts: Consts, k: nat)
    requires 1 <= k < |inst.operands|
    ensures ResolveAll(inst, consts)[k - 1] == Resolve(inst.operands[k], inst.op.ty, consts)
  {
    assert inst.operands[k - 1 + 1] == inst.operands[k];
  }

  lemma ResolvedIfKnown(o: Operand, ty: Type, consts: Consts)
    ensures Resolve(o, ty, consts).Some? <==> KnownSource(o, ty, consts)
  {
  }

  /** The results of resolving the sources are all there exactly if the sources are known. */
  lemma SomeKnown(inst: Inst, rs: seq<Option<Const>>, consts: Consts)
    requires inst.operands != [] && rs == ResolveAll(inst, consts)
    ensures (exists k | 0 <= k < |rs| :: rs[k].None?) <==> !SourcesKnown(inst, consts, |rs|)
    ensures |rs| == |inst.operands| - 1
  {
    hide KnownSource, Resolve;
    forall k | 0 <= k < |rs| ensures rs[k].Some? <==> KnownSource(inst.operands[k + 1], inst.op.ty, consts) {
      ResolvedAt(inst, consts, k + 1);
      ResolvedIfKnown(inst.operands[k + 1], inst.op.ty, consts);
    }
    if exists k | 0 <= k < |rs| :: rs[k].None? {
      var k :| 0 <= k < |rs| && rs[k].None?;
      assert !KnownSource(inst.operands[k + 1], inst.op.ty, consts);
    }
    hide ResolveAll;
    if forall k | 0 <= k < |rs| :: rs[k].Some? {
      forall k | 1 <= k <= |rs| ensures KnownSource(inst.operands[k], inst.op.ty, consts) {
        assert rs[k - 1].Some?;
      }
    }
  }

  /** Of these operations the result is known. */
  predicate Foldables(inst: Inst, n: nat) {
    || (inst.op.base == Mov && n == 1)
    || (inst.op.base in {Add, Sub, Mul} && inst.op.ty == U32 && n == 2)
    || (inst.op.base in {And, Or, Xor} && n == 2)
  }

  lemma ConstOfAll(inst: Inst, rs: seq<Option<Const>>)
    ensures FoldedConst(inst, rs).Some? <==>
            (forall k | 0 <= k < |rs| :: rs[k].Some?) && Foldables(inst, |rs|)
  {
    hide EvaluateU32, Bitwise, Mask32;
  }

  lemma WriterIs(inst: Inst)
    requires inst.op.base in {Mov, Add, Sub, Mul, And, Or, Xor}
    ensures Foldable(inst) <==> Writer(inst)
  {
  }

  /** A result is known exactly of moves, of sums, differences and products of .u32, and of and, or and xor. */
  lemma FoldedExactly(inst: Inst, consts: Consts)
    ensures Fold(inst, consts).1.Some? <==>
            && Writer(inst)
            && (|| (inst.op.base == Mov && SourcesKnown(inst, consts, 1))
                || (inst.op.base in {Add, Sub, Mul} && inst.op.ty == U32 && SourcesKnown(inst, consts, 2))
                || (inst.op.base in {And, Or, Xor} && SourcesKnown(inst, consts, 2)))
  {
    if inst.op.base in {Mov, Add, Sub, Mul, And, Or, Xor} {
      WriterIs(inst);
    }
    hide Foldable, SourcesKnown, ResolveAll, FoldedConst, WithConstants, Writer, Format;
    if Foldable(inst) {
      HasOperands(inst);
      var rs := ResolveAll(inst, consts);
      SomeKnown(inst, rs, consts);
      ConstOfAll(inst, rs);
      KnownCount(inst, consts);
    }
  }

  lemma HasOperands(inst: Inst)
    requires Foldable(inst)
    ensures inst.operands != []
  {
  }

  lemma KnownCount(inst: Inst, consts: Consts)
    ensures forall n: nat | SourcesKnown(inst, consts, n) :: |inst.operands| == n + 1
  {
    hide KnownSource;
  }

  /** What an item does not write stays known, in both phases. */
  lemma FactStays(item: Item, consts: Consts, r: Reg)
    requires r in consts && (item.Label? || Destination(item.inst) != Some(r))
    ensures r in FlowItem(item, consts) && FlowItem(item, consts)[r] == consts[r]
    ensures r in ApplyItem(item, consts) && ApplyItem(item, consts)[r] == consts[r]
  {
    hide Fold;
  }

  // ----- straight code -----

  /** Computed from immediates and from registers already computed. */
  predicate FromKnown(o: Operand, computed: set<Reg>) {
    o.IntImm? || (o.RegOp? && o.reg in computed)
  }

  predicate BothKnown(os: seq<Operand>, computed: set<Reg>) {
    |os| == 3 && FromKnown(os[1], computed) && FromKnown(os[2], computed)
  }

  /** A move, sum, difference, product or bitwise operation on words, of what is known. */
  predicate ConstantCode(item: Item, computed: set<Reg>) {
    && item.Code? && Writer(item.inst)
    && var op, os := item.inst.op, item.inst.operands;
       && op.mods == []
       && (|| (op.base == Mov && op.ty in {U32, B32, S32} && |os| == 2 && FromKnown(os[1], computed))
           || (op.base in {Add, Sub, Mul} && op.ty == U32 && BothKnown(os, computed))
           || (op.base in {And, Or, Xor} && op.ty in {U32, B32, S32} && BothKnown(os, computed)))
  }

  /** The registers written by the items from `s` to `e`. */
  function Computed(items: seq<Item>, s: nat, e: nat): set<Reg>
    requires e <= |items|
    decreases e
  {
    if e <= s then {}
    else
      Computed(items, s, e - 1)
      + if items[e - 1].Code? && Destination(items[e - 1].inst).Some? then {Destination(items[e - 1].inst).value}
          else {}
  }

  predicate WordFacts(consts: Consts, rs: set<Reg>) {
    forall r | r in rs :: r in consts && consts[r].ty in {B32, S32, U32}
  }

  lemma ConstantFolds(item: Item, consts: Consts, computed: set<Reg>)
    requires ConstantCode(item, computed) && WordFacts(consts, computed)
    ensures Fold(item.inst, consts).1.Some?
    ensures Destination(item.inst).Some? && !IsPredicate(Destination(item.inst).value)
    ensures Fold(item.inst, consts).1.value.ty in {B32, S32, U32}
  {
    var inst := item.inst;
    forall o | FromKnown(o, computed) ensures inst.op.ty in {B32, S32, U32} ==> KnownSource(o, inst.op.ty, consts) {
    }
    FoldedExactly(inst, consts);
    FoldedType(inst, consts);
    hide Fold;
  }

  lemma FoldedType(inst: Inst, consts: Consts)
    ensures Fold(inst, consts).1.Some? ==> Fold(inst, consts).1.value.ty == inst.op.ty
  {
    if Foldable(inst) && inst.operands != [] {
      var rs := ResolveAll(inst, consts);
      hide EvaluateU32, Bitwise, Mask32;
      if inst.op.base == Mov && |rs| == 1 {
        ResolvedAt(inst, consts, 1);
      }
    }
  }

  /** One more known result. */
  lemma FactsNext(item: Item, consts: Consts, computed: set<Reg>, c: Const)
    requires ConstantCode(item, computed) && WordFacts(consts, computed) && c.ty in {B32, S32, U32}
    ensures Destination(item.inst).Some?
    ensures WordFacts(Record(consts, Destination(item.inst), Some(c)), computed + {Destination(item.inst).value})
  {
  }

  lemma NothingComputed(items: seq<Item>, s: nat, e: nat, consts: Consts)
    requires e <= s && e <= |items|
    ensures WordFacts(consts, Computed(items, s, e))
  {
  }

  lemma ComputedNext(items: seq<Item>, s: nat, e: nat)
    requires s < e <= |items| && items[e - 1].Code? && Destination(items[e - 1].inst).Some?
    ensures Computed(items, s, e) == Computed(items, s, e - 1) + {Destination(items[e - 1].inst).value}
  {
  }

  /** After straight code that computes with constants only, every result is known. */
  lemma {:induction false} StraightKnown(items: seq<Item>, s: nat, e: nat, consts: Consts)
    requires s <= e <= |items|
    requires forall i | s <= i < e :: ConstantCode(items[i], Computed(items, s, i))
    ensures WordFacts(FlowThrough(items, s, e, consts), Computed(items, s, e))
    decreases e
  {
    hide ConstantCode, Fold, Destination, Record, Computed, WordFacts;
    if s < e {
      StraightKnown(items, s, e - 1, consts);
      var before, computed := FlowThrough(items, s, e - 1, consts), Computed(items, s, e - 1);
      ConstantFolds(items[e - 1], before, computed);
      Plain(items[e - 1], computed);
      FactsNext(items[e - 1], before, computed, Fold(items[e - 1].inst, before).1.value);
      ComputedNext(items, s, e);
    } else {
      NothingComputed(items, s, e, consts);
    }
  }

  lemma Plain(item: Item, computed: set<Reg>)
    requires ConstantCode(item, computed)
    ensures item.Code? && item.inst.guard.None? && Cc !in item.inst.op.mods
  {
  }

  // ----- rewriting -----

  predicate IsImmediate(o: Operand) {
    o.IntImm? || o.FloatImm?
  }

  /** A known source is written down in the instruction that is left. */
  lemma KnownIsWrittenDown(inst: Inst, consts: Consts, k: nat)
    requires Writer(inst) && inst.op.base in {Add, Mov, Mul, Sub, And, Or, Xor, Shl, Shr, Mad}
    requires 1 <= k < |inst.operands| && KnownSource(inst.operands[k], inst.op.ty, consts)
    ensures k < |Fold(inst, consts).0.operands| ==> IsImmediate(Fold(inst, consts).0.operands[k])
  {
    var rs := ResolveAll(inst, consts);
    ResolvedAt(inst, consts, k);
    ResolvedIfKnown(inst.operands[k], inst.op.ty, consts);
    assert Foldable(inst) && rs[k - 1].Some?;
    hide ResolveAll, Resolve, KnownSource, FoldedConst;
    var kept := WithConstants(inst, rs);
    assert kept.operands[k] == Format(rs[k - 1].value);
  }

  /** Over straight code the rewriting phase knows the same. */
  lemma {:induction false} StraightRewritten(items: seq<Item>, s: nat, e: nat, consts: Consts)
    requires s <= e <= |items|
    requires forall i | s <= i < e :: ConstantCode(items[i], Computed(items, s, i))
    ensures WordFacts(W.ApplyThrough(items, s, e, consts), Computed(items, s, e))
    decreases e
  {
    hide ConstantCode, Fold, Destination, Record, Computed, WordFacts;
    if s < e {
      StraightRewritten(items, s, e - 1, consts);
      var before, computed := W.ApplyThrough(items, s, e - 1, consts), Computed(items, s, e - 1);
      ConstantFolds(items[e - 1], before, computed);
      Plain(items[e - 1], computed);
      FactsNext(items[e - 1], before, computed, Fold(items[e - 1].inst, before).1.value);
      ComputedNext(items, s, e);
    } else {
      NothingComputed(items, s, e, consts);
    }
  }

  // ----- the local pass -----

  /** Instructions the local pass walks over. */
  lemma LocalFolds(fold: L.FloatFold, item: Item, consts: Consts, computed: set<Reg>)
    requires ConstantCode(item, computed) && item.inst.op.base in {Mov, Add, Sub, Mul} && WordFacts(consts, computed)
    ensures !L.IsBoundary(item.inst) && L.Known(fold, item.inst, consts).Some?
    ensures Destination(item.inst).Some? && !IsPredicate(Destination(item.inst).value)
    ensures L.Known(fold, item.inst, consts).value.ty in {B32, S32, U32}
  {
    var inst := item.inst;
    forall o | FromKnown(o, computed) ensures inst.op.ty in {B32, S32, U32} ==> Resolve(o, inst.op.ty, consts).Some? {
      ResolvedIfKnown(o, inst.op.ty, consts);
    }
    hide EvaluateU32, Mask32;
  }

  /** In straight code that computes with constants only, every instruction becomes a move of an immediate. */
  lemma {:induction false} StraightFolded(fold: L.FloatFold, items: seq<Item>, s: nat, e: nat)
    requires s <= e <= |items|
    requires forall i | s <= i < e ::
               ConstantCode(items[i], Computed(items, s, i)) && items[i].inst.op.base in {Mov, Add, Sub, Mul}
    ensures WordFacts(L.KnownBefore(fold, items, e), Computed(items, s, e))
    ensures forall i | s <= i < e :: MovesImmediate(L.Folded(fold, items)[i])
    decreases e
  {
    hide ConstantCode, L.Known, Destination, L.IsBoundary, MovesImmediate, Record, Computed, WordFacts, L.FoldItem;
    if s < e {
      StraightFolded(fold, items, s, e - 1);
      var before, computed := L.KnownBefore(fold, items, e - 1), Computed(items, s, e - 1);
      LocalFolds(fold, items[e - 1], before, computed);
      Plain(items[e - 1], computed);
      FoldsToMove(fold, items[e - 1], before);
      FactsNext(items[e - 1], before, computed, L.Known(fold, items[e - 1].inst, before).value);
      ComputedNext(items, s, e);
      assert L.Folded(fold, items)[e - 1] == L.FoldItem(fold, items[e - 1], before);
    } else {
      NothingComputed(items, s, e, L.KnownBefore(fold, items, e));
    }
  }

  predicate MovesImmediate(item: Item) {
    item.Code? && item.inst.op.base == Mov && |item.inst.operands| == 2 && IsImmediate(item.inst.operands[1])
  }

  lemma FoldsToMove(fold: L.FloatFold, item: Item, consts: Consts)
    requires item.Code? && !L.IsBoundary(item.inst) && L.Known(fold, item.inst, consts).Some?
    ensures MovesImmediate(L.FoldItem(fold, item, consts))
  {
    hide L.Known;
  }
}
