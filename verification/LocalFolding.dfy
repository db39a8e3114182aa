/** Local constant folding: between labels and other boundaries, known results become moves of immediates. */
module LocalFolding {
  import opened Wrappers
  import opened Words
  import opened Ptx
  import opened ConstProp
  import opened ConstPropCorrect
  import opened ConstPropRewrite

  /** `_evaluate_f32` on bit patterns; `None` for results that are not finite or do not fit. */
  type FloatFold = (Base, nat, nat) -> Option<nat>

  /** `_is_constant_fold_boundary`. */
  predicate IsBoundary(inst: Inst) {
    || inst.guard.Some?
    || inst.op.base !in {Add, Mov, Mul, Sub}
    || inst.op.mods != [] || inst.op.ty == Untyped
    || |inst.operands| != if inst.op.base == Mov then 2 else 3
  }

  function MoveOf(inst: Inst, c: Const): Inst
    requires inst.operands != []
  {
    inst.(op := Opcode(Mov, [], c.ty), operands := [inst.operands[0], Format(c)])
  }

  /** The constant an instruction is known to compute. */
  function Known(fold: FloatFold, inst: Inst, consts: Consts): Option<Const>
    requires !IsBoundary(inst)
  {
    var ty := inst.op.ty;
    if Destination(inst).None? || IsPredicate(Destination(inst).value) then None
    else if inst.op.base == Mov then Resolve(inst.operands[1], ty, consts)
    else
      var lhs, rhs := Resolve(inst.operands[1], ty, consts), Resolve(inst.operands[2], ty, consts);
      if lhs.None? || rhs.None? then None
      else if ty == U32 then Some(Const(U32, EvaluateU32(inst.op.base, lhs.value.value, rhs.value.value)))
      else if ty == F32 && inst.op.base != Sub then
        match fold(inst.op.base, lhs.value.value, rhs.value.value)
        case Some(bits) => Some(Const(F32, bits))
        case None => None
      else None
  }

  /** What is known behind an item. */
  function Learn(fold: FloatFold, item: Item, consts: Consts): Consts {
    if item.Label? || IsBoundary(item.inst) then map[]
    else Record(consts, Destination(item.inst), Known(fold, item.inst, consts))
  }

  function FoldItem(fold: FloatFold, item: Item, consts: Consts): Item {
    if item.Label? || IsBoundary(item.inst) then item
    else match Known(fold, item.inst, consts)
         case Some(c) => Code(MoveOf(item.inst, c))
         case None => item
  }

  function KnownBefore(fold: FloatFold, items: seq<Item>, n: nat): Consts
    requires n <= |items|
  {
    if n == 0 then map[] else Learn(fold, items[n - 1], KnownBefore(fold, items, n - 1))
  }

  function Folded(fold: FloatFold, items: seq<Item>): (kept: seq<Item>)
    ensures |kept| == |items|
  {
    seq(|items|, i requires 0 <= i < |items| => FoldItem(fold, items[i], KnownBefore(fold, items, i)))
  }

  /** `_fold_local_constant_instruction`. */
  method FoldInstruction(fold: FloatFold, inst: Inst, consts: Consts) returns (folded: Inst, known: Option<Const>)
    requires !IsBoundary(inst)
    ensures known == Known(fold, inst, consts)
    ensures folded == if known.Some? then MoveOf(inst, known.value) else inst
  {
    var destination := Destination(inst);
    if destination.None? || IsPredicate(destination.value) {
      return inst, None;
    }
    var ty := inst.op.ty;
    if inst.op.base == Mov {
      known := Resolve(inst.operands[1], ty, consts);
      if known.None? {
        return inst, None;
      }
      return inst.(operands := [inst.operands[0], Format(known.value)]), known;
    }
    var lhs := Resolve(inst.operands[1], ty, consts);
    var rhs := Resolve(inst.operands[2], ty, consts);
    if lhs.None? || rhs.None? {
      return inst, None;
    }
    if ty == U32 {
      known := Some(Const(U32, EvaluateU32(inst.op.base, lhs.value.value, rhs.value.value)));
    } else if ty == F32 && inst.op.base != Sub {
      var bits := fold(inst.op.base, lhs.value.value, rhs.value.value);
      if bits.None? {
        return inst, None;
      }
      known := Some(Const(F32, bits.value));
    } else {
      return inst, None;
    }
    folded := inst.(op := Opcode(Mov, [], known.value.ty), operands := [inst.operands[0], Format(known.value)]);
  }

  /** `LocalConstantFoldingPass.run` on the items of a program. */
  method FoldLocally(fold: FloatFold, items: seq<Item>) returns (kept: seq<Item>)
    ensures kept == Folded(fold, items)
  {
    hide Known, IsBoundary;
    var constants: Consts := map[];
    kept := [];
    for i := 0 to |items|
      invariant constants == KnownBefore(fold, items, i) && |kept| == i
      invariant forall j | 0 <= j < i :: kept[j] == Folded(fold, items)[j]
    {
      var item := items[i];
      if item.Label? || IsBoundary(item.inst) {
        constants := map[];
        kept := kept + [item];
      } else {
        var folded, known := FoldInstruction(fold, item.inst, constants);
        var destination := Destination(item.inst);
        constants := Record(constants, destination, known);
        kept := kept + [Code(folded)];
      }
    }
  }

  // ----- runs -----

  /**
   * The host agrees with the pass: words as in the global pass, and binary32 sums and products where they are folded.
   */
  ghost predicate Agrees(fold: FloatFold, host: Host) {
    && FoldsRightly(host)
    && forall b: Base, x: nat, y: nat | b in {Add, Mul} && fold(b, x, y).Some? ::
         fold(b, x, y).value < WORD && host.eval(Opcode(b, [], F32), [x, y]) == fold(b, x, y).value
  }

  /** What an instruction between boundaries does: it writes what the host computes. */
  lemma InnerEffect(host: Host, inst: Inst, s: State)
    requires !IsBoundary(inst)
    ensures GuardedEffect(host, inst, s) == WriteTo(Destination(inst), host.eval(inst.op, Sources(host, inst, s.regs)))
  {
  }

  lemma InnerSources(host: Host, inst: Inst, regs: Regs)
    requires !IsBoundary(inst)
    ensures Sources(host, inst, regs) ==
            if inst.op.base == Mov then [ValueOf(host, inst.op.ty, inst.operands[1], regs)]
            else [ValueOf(host, inst.op.ty, inst.operands[1], regs), ValueOf(host, inst.op.ty, inst.operands[2], regs)]
  {
  }

  /** A known constant is what the host computes. */
  lemma KnownValue(fold: FloatFold, host: Host, inst: Inst, consts: Consts, regs: Regs)
    requires Agrees(fold, host) && Holds(consts, regs) && !IsBoundary(inst) && Known(fold, inst, consts).Some?
    ensures var c := Known(fold, inst, consts).value;
            && c.ty == inst.op.ty && (IsInt32(c.ty) || c.ty == F32) && c.value < WORD
            && host.eval(inst.op, Sources(host, inst, regs)) == c.value
  {
    hide Holds, Sources, Resolve;
    InnerSources(host, inst, regs);
    ResolvedValue(host, inst.operands[1], inst.op.ty, consts, regs);
    if inst.op.base != Mov {
      ResolvedValue(host, inst.operands[2], inst.op.ty, consts, regs);
    }
    assert inst.op == Opcode(inst.op.base, [], inst.op.ty);
  }

  /** A folded instruction does what the original does. */
  lemma FoldedItemActs(fold: FloatFold, host: Host, inst: Inst, consts: Consts, s: State)
    requires Agrees(fold, host) && Holds(consts, s.regs) && !IsBoundary(inst) && Known(fold, inst, consts).Some?
    ensures !IsBoundary(MoveOf(inst, Known(fold, inst, consts).value))
    ensures GuardedEffect(host, MoveOf(inst, Known(fold, inst, consts).value), s) == GuardedEffect(host, inst, s)
  {
    hide GuardedEffect, Sources, Holds, Agrees;
    var c := Known(fold, inst, consts).value;
    KnownValue(fold, host, inst, consts, s.regs);
    InnerEffect(host, inst, s);
    InnerEffect(host, MoveOf(inst, c), s);
    InnerSources(host, MoveOf(inst, c), s.regs);
    MovedValue(fold, host, inst, c, s.regs);
  }

  lemma MovedValue(fold: FloatFold, host: Host, inst: Inst, c: Const, regs: Regs)
    requires Agrees(fold, host) && inst.operands != [] && (IsInt32(c.ty) || c.ty == F32) && c.value < WORD
    ensures host.eval(Opcode(Mov, [], c.ty), [ValueOf(host, c.ty, Format(c), regs)]) == c.value
  {
    var op, vs := Opcode(Mov, [], c.ty), [ValueOf(host, c.ty, Format(c), regs)];
    assert vs[0] == c.value;
    assert host.eval(op, vs) == vs[0] % WORD;
  }

  /** What was learned is true behind the item, whatever the item. */
  lemma LearnedHolds(fold: FloatFold, host: Host, items: seq<Item>, pc: nat, s: State, consts: Consts)
    requires Agrees(fold, host) && pc < |items| && Holds(consts, s.regs)
    requires Step(host, items, pc, s).Next? && Step(host, items, pc, s).pc == pc + 1
    ensures Holds(Learn(fold, items[pc], consts), Step(host, items, pc, s).state.regs)
  {
    hide Known, Agrees;
    if items[pc].Code? && !IsBoundary(items[pc].inst) {
      var inst := items[pc].inst;
      InnerEffect(host, inst, s);
      if Known(fold, inst, consts).Some? {
        KnownValue(fold, host, inst, consts, s.regs);
      }
    }
    hide GuardedEffect, Sources;
  }

  /** In front of a label nothing needs to be true, for nothing is known behind it. */
  ghost predicate KnownTrue(fold: FloatFold, items: seq<Item>, pc: nat, regs: Regs) {
    pc < |items| && items[pc].Code? ==> Holds(KnownBefore(fold, items, pc), regs)
  }

  lemma KnownTrueNext(fold: FloatFold, host: Host, items: seq<Item>, pc: nat, s: State)
    requires Agrees(fold, host) && KnownTrue(fold, items, pc, s.regs) && Step(host, items, pc, s).Next?
    ensures KnownTrue(fold, items, Step(host, items, pc, s).pc, Step(host, items, pc, s).state.regs)
  {
    hide Holds, Agrees, GuardedEffect, IsBoundary, Known, Record;
    var next := Step(host, items, pc, s);
    if next.pc == pc + 1 && next.pc < |items| && items[next.pc].Code? {
      if items[pc].Code? {
        LearnedHolds(fold, host, items, pc, s, KnownBefore(fold, items, pc));
      } else {
        NothingHolds(next.state.regs);
      }
    }
  }

  lemma NothingHolds(regs: Regs)
    ensures Holds(map[], regs)
  {
  }

  lemma FoldedStep(fold: FloatFold, host: Host, items: seq<Item>, pc: nat, s: State)
    requires Agrees(fold, host) && KnownTrue(fold, items, pc, s.regs)
    ensures Step(host, Folded(fold, items), pc, s) == Step(host, items, pc, s)
  {
    hide Holds, Agrees, IsBoundary, Known, KnownBefore;
    var kept := Folded(fold, items);
    forall name ensures FindLabel(kept, name, 0) == FindLabel(items, name, 0) {
      SameLabels(items, kept, name, 0);
    }
    if pc < |items| && items[pc].Code? && !IsBoundary(items[pc].inst)
       && Known(fold, items[pc].inst, KnownBefore(fold, items, pc)).Some? {
      FoldedItemActs(fold, host, items[pc].inst, KnownBefore(fold, items, pc), s);
    }
    hide GuardedEffect, FindLabel;
  }

  /** Folding locally changes no run of any program, loops and guarded writes included. */
  lemma {:induction false} FoldedRuns(fold: FloatFold, host: Host, items: seq<Item>, pc: nat, s: State, fuel: nat)
    requires Agrees(fold, host) && KnownTrue(fold, items, pc, s.regs)
    ensures Run(host, Folded(fold, items), pc, s, fuel) == Run(host, items, pc, s, fuel)
    decreases fuel
  {
    hide Agrees, KnownTrue, Step, Folded;
    if fuel > 0 {
      FoldedStep(fold, host, items, pc, s);
      if Step(host, items, pc, s).Next? {
        KnownTrueNext(fold, host, items, pc, s);
        FoldedRuns(fold, host, items, Step(host, items, pc, s).pc, Step(host, items, pc, s).state, fuel - 1);
      }
    }
  }

  lemma FoldingPreservesRuns(fold: FloatFold, host: Host, items: seq<Item>, s: State, fuel: nat)
    requires Agrees(fold, host)
    ensures Run(host, Folded(fold, items), 0, s, fuel) == Run(host, items, 0, s, fuel)
  {
    assert KnownTrue(fold, items, 0, s.regs);
    hide *;
    FoldedRuns(fold, host, items, 0, s, fuel);
  }

  // ----- folding again -----

  /** Words only, of the types the pass folds. */
  predicate AllWords(consts: Consts) {
    forall r | r in consts :: IsFoldedWord(consts[r])
  }

  predicate IsFoldedWord(c: Const) {
    c.value < WORD && (IsInt32(c.ty) || c.ty == F32)
  }

  ghost predicate FoldsToWords(fold: FloatFold) {
    forall b, x, y | fold(b, x, y).Some? :: fold(b, x, y).value < WORD
  }

  lemma KnownIsWord(fold: FloatFold, inst: Inst, consts: Consts)
    requires FoldsToWords(fold) && AllWords(consts) && !IsBoundary(inst) && Known(fold, inst, consts).Some?
    ensures IsFoldedWord(Known(fold, inst, consts).value) && Known(fold, inst, consts).value.ty == inst.op.ty
    ensures Destination(inst).Some? && !IsPredicate(Destination(inst).value)
  {
  }

  /** A move the pass wrote is known to be what it moves, whatever else is known. */
  lemma MoveIsKnown(fold: FloatFold, inst: Inst, c: Const, consts: Consts)
    requires !IsBoundary(inst) && IsFoldedWord(c) && Destination(inst).Some? && !IsPredicate(Destination(inst).value)
    ensures !IsBoundary(MoveOf(inst, c)) && Destination(MoveOf(inst, c)) == Destination(inst)
    ensures Known(fold, MoveOf(inst, c), consts) == Some(c)
    ensures MoveOf(MoveOf(inst, c), c) == MoveOf(inst, c)
  {
  }

  /** After one item the folded program has taught the same. */
  lemma SameLesson(fold: FloatFold, item: Item, consts: Consts)
    requires FoldsToWords(fold) && AllWords(consts)
    ensures Learn(fold, FoldItem(fold, item, consts), consts) == Learn(fold, item, consts)
    ensures FoldItem(fold, FoldItem(fold, item, consts), consts) == FoldItem(fold, item, consts)
    ensures AllWords(Learn(fold, item, consts))
  {
    hide IsBoundary, Known, FoldsToWords;
    if item.Code? && !IsBoundary(item.inst) && Known(fold, item.inst, consts).Some? {
      KnownIsWord(fold, item.inst, consts);
      MoveIsKnown(fold, item.inst, Known(fold, item.inst, consts).value, consts);
    }
  }

  lemma {:induction false} SameLessons(fold: FloatFold, items: seq<Item>, n: nat)
    requires FoldsToWords(fold) && n <= |items|
    ensures KnownBefore(fold, Folded(fold, items), n) == KnownBefore(fold, items, n)
            && AllWords(KnownBefore(fold, items, n))
    decreases n
  {
    hide Learn, FoldItem, FoldsToWords;
    if n > 0 {
      SameLessons(fold, items, n - 1);
      SameLesson(fold, items[n - 1], KnownBefore(fold, items, n - 1));
    }
  }

  /** Folding a second time changes nothing. */
  lemma FoldingIsIdempotent(fold: FloatFold, items: seq<Item>)
    requires FoldsToWords(fold)
    ensures Folded(fold, Folded(fold, items)) == Folded(fold, items)
  {
    hide Learn, FoldItem, FoldsToWords, KnownBefore;
    forall i | 0 <= i < |items| ensures Folded(fold, Folded(fold, items))[i] == Folded(fold, items)[i] {
      SameLessons(fold, items, i);
      SameLesson(fold, items[i], KnownBefore(fold, items, i));
    }
  }
}
