/** Guarded, `.cc` and `fma` writes, which the dataflow passes over: exactly which of them leave the facts true. */
module ConstPropHazard {
  import opened Wrappers
  import opened Words
  import opened Ptx
  import opened CfgBuilder
  import opened ConstProp
  import opened ConstPropCorrect
  import opened ConstPropRewrite

  // ----- one such write -----

  /** What the dataflow records: words, for general registers. */
  predicate Recorded(consts: Consts) {
    forall r | r in consts ::
      consts[r].value < WORD && (IsInt32(consts[r].ty) || consts[r].ty == F32) && !IsPredicate(r)
  }

  /** On every host and from every state in which the facts are true they are true behind the instruction. */
  ghost predicate KeepsFacts(inst: Inst, consts: Consts) {
    forall host: Host, s: State | FoldsRightly(host) && Holds(consts, s.regs) ::
      Holds(FlowItem(Code(inst), consts), RegsAfter(GuardedEffect(host, inst, s), s.regs))
  }

  /** The pass and the host agree about what the operation computes. */
  predicate IsBound(op: Opcode, n: nat) {
    && NamesMeaning(op) && (IsInt32(op.ty) || op.ty == F32)
    && ((op.base == Mov && n == 1) || (op.base in {Add, Sub, Mul} && n == 2 && op.ty == U32)
        || (op.base in {And, Or, Xor} && n == 2))
  }

  /** The source is neither recorded nor fixed nor the guard. */
  predicate Unknown(inst: Inst, o: Operand, consts: Consts) {
    match o
    case RegOp(r) => r !in consts && inst.guard != Some(r)
    case Addr(r) => r !in consts && inst.guard != Some(r)
    case Special(_) => true
    case _ => false
  }

  /** Whatever the state, both operands have one value. */
  predicate SameSource(o: Operand, o': Operand) {
    || (o.Special? && o == o')
    || ((o.RegOp? || o.Addr?) && (o'.RegOp? || o'.Addr?) && o.reg == o'.reg)
  }

  /** A sum or difference with an unknown source, other than the difference of something and itself. */
  predicate OpenSum(inst: Inst, consts: Consts) {
    && |inst.operands| == 3 && inst.op.base in {Add, Sub}
    && (Unknown(inst, inst.operands[1], consts) || Unknown(inst, inst.operands[2], consts))
    && (inst.op.base == Sub ==> !SameSource(inst.operands[1], inst.operands[2]))
  }

  /** An operation of the host's own, or one with all sources resolved, or a move or sum of something unknown. */
  predicate Decided(inst: Inst, consts: Consts)
    requires inst.operands != []
  {
    || !IsBound(inst.op, |inst.operands| - 1)
    || (forall k | 0 <= k < |inst.operands| - 1 :: ResolveAll(inst, consts)[k].Some?)
    || (inst.op.base == Mov && Unknown(inst, inst.operands[1], consts))
    || OpenSum(inst, consts)
  }

  // ----- a host and a state that tell -----

  function BoundValue(b: Base, vs: seq<nat>): nat
    requires |vs| == 1 || |vs| == 2
  {
    if |vs| == 1 then vs[0] % WORD
    else if b in {Add, Sub, Mul} then EvaluateU32(b, vs[0], vs[1])
    else Mask32(Bitwise(b, vs[0], vs[1]))
  }

  /** Wherever the host is free, it answers `v`; of the special registers only for the one `o` names, if it does. */
  function FreeHost(o: Operand, v: nat): Host {
    Host((op: Opcode, vs: seq<nat>) => if IsBound(op, |vs|) then BoundValue(op.base, vs) else v,
         (_, _, _) => v != 0, s => if o == Special(s) then v else 0, (_, _) => v)
  }

  lemma FreeHostFolds(o: Operand, v: nat)
    ensures FoldsRightly(FreeHost(o, v))
  {
  }

  /** Recorded registers hold their constants, the guard holds, and an unknown register `o` holds `v`. */
  function TellingRegs(inst: Inst, consts: Consts, o: Operand, v: nat): Regs {
    var known := map r | r in consts :: consts[r].value;
    var guarded := if inst.guard.Some? && inst.guard.value !in consts
                   then known[inst.guard.value := if inst.negated then 0 else 1] else known;
    if (o.RegOp? || o.Addr?) && o.reg !in consts && inst.guard != Some(o.reg) then guarded[o.reg := v] else guarded
  }

  lemma RegsTell(inst: Inst, consts: Consts, o: Operand, v: nat)
    requires Recorded(consts) && MayRun(inst, consts)
    ensures Holds(consts, TellingRegs(inst, consts, o, v)) && GuardHolds(inst, TellingRegs(inst, consts, o, v))
  {
  }

  /** Enough memory for a load from any word address, all of it made of this byte. */
  function FilledMemory(b: Byte): seq<Byte> {
    seq(WORD + 8, _ => b)
  }

  lemma {:induction false} FilledWord(b: Byte, blob: seq<Byte>)
    requires forall i | 0 <= i < |blob| :: blob[i] == b
    ensures b == 0 ==> FromBytes(blob) == 0
    ensures b == 1 && blob != [] ==> FromBytes(blob) > 0
  {
    if blob != [] {
      FilledWord(b, blob[1..]);
    }
  }

  lemma LoadTells(inst: Inst, s: State, o: Operand, v: nat)
    requires inst.op.base == Ld && MayWrite(inst) && Destination(inst).Some? && GuardHolds(inst, s.regs)
    requires (v == 0 || v == 1) && s.gmem == FilledMemory(v)
    ensures var e := GuardedEffect(FreeHost(o, v), inst, s);
            e.Write? && e.reg == Destination(inst).value && (e.value == 0 <==> v == 0)
  {
    if inst.operands[1].Addr? {
      var address := Get(s.regs, inst.operands[1].reg) % WORD;
      assert address + SizeOf(inst.op.ty) <= |s.gmem|;
      FilledWord(v, s.gmem[address..address + SizeOf(inst.op.ty)]);
    }
  }

  lemma CompareTells(inst: Inst, s: State, o: Operand, v: nat)
    requires inst.op.base == Setp && MayWrite(inst) && Destination(inst).Some? && GuardHolds(inst, s.regs)
    requires v == 0 || v == 1
    ensures GuardedEffect(FreeHost(o, v), inst, s) == Write(Destination(inst).value, v)
  {
  }

  lemma ArithmeticEffect(host: Host, inst: Inst, s: State)
    requires (IsPureBase(inst.op.base) || inst.op.base == Fma) && Written(inst).Some? && GuardHolds(inst, s.regs)
    ensures GuardedEffect(host, inst, s) == Write(Written(inst).value, host.eval(inst.op, Sources(host, inst, s.regs)))
  {
  }

  /** An operation of the host's own. */
  lemma FreeTells(inst: Inst, s: State, o: Operand, v: nat)
    requires (IsPureBase(inst.op.base) || inst.op.base == Fma) && Written(inst).Some? && GuardHolds(inst, s.regs)
    requires inst.operands != [] && !IsBound(inst.op, |inst.operands| - 1)
    ensures GuardedEffect(FreeHost(o, v), inst, s) == Write(Written(inst).value, v)
  {
    ArithmeticEffect(FreeHost(o, v), inst, s);
    var vs := Sources(FreeHost(o, v), inst, s.regs);
    assert inst.op.base != Fma ==> |vs| == |inst.operands| - 1;
    hide GuardedEffect, Sources;
  }

  /** A move of something unknown. */
  lemma MoveTells(inst: Inst, consts: Consts, s: State, o: Operand, v: nat)
    requires inst.op.base == Mov && Written(inst).Some? && GuardHolds(inst, s.regs) && (v == 0 || v == 1)
    requires IsBound(inst.op, |inst.operands| - 1) && Unknown(inst, inst.operands[1], consts)
    requires o == inst.operands[1] && s.regs == TellingRegs(inst, consts, o, v)
    ensures GuardedEffect(FreeHost(o, v), inst, s) == Write(Written(inst).value, v)
  {
    ArithmeticEffect(FreeHost(o, v), inst, s);
    var vs := Sources(FreeHost(o, v), inst, s.regs);
    assert |vs| == 1 && vs[0] == ValueOf(FreeHost(o, v), inst.op.ty, inst.operands[1], s.regs) == v;
    hide GuardedEffect, Sources, TellingRegs;
  }

  /** All sources resolved: the constant the fold gives. */
  lemma ResolvedTells(host: Host, inst: Inst, consts: Consts, s: State)
    requires FoldsRightly(host) && Holds(consts, s.regs) && GuardHolds(inst, s.regs)
    requires IsPureBase(inst.op.base) && Written(inst).Some? && !IsPredicate(Written(inst).value) && inst.operands != []
    requires IsBound(inst.op, |inst.operands| - 1)
    requires forall k | 0 <= k < |inst.operands| - 1 :: ResolveAll(inst, consts)[k].Some?
    ensures Fold(inst.(guard := None), consts).1.Some?
    ensures GuardedEffect(host, inst, s) == Write(Written(inst).value, Fold(inst.(guard := None), consts).1.value.value)
  {
    var bare := inst.(guard := None);
    assert ResolveAll(bare, consts) == ResolveAll(inst, consts);
    assert ResolveAll(bare, consts)[0].Some?;
    Unguarded(host, inst, s);
    assert Foldable(bare);
    assert FoldedConst(bare, ResolveAll(bare, consts)).Some?;
    FoldedWrite(host, bare, consts, s);
  }

  /** What the sources of a sum are worth to that host: `v` for the unknown one, and for the other what it was. */
  lemma SumSources(inst: Inst, consts: Consts, o: Operand, o': Operand, v: nat)
    requires Unknown(inst, o, consts)
    ensures ValueOf(FreeHost(o, v), U32, o, TellingRegs(inst, consts, o, v)) == v
    ensures var x := ValueOf(FreeHost(o, v), U32, o', TellingRegs(inst, consts, o, v));
            x == if SameSource(o, o') then v else ValueOf(FreeHost(o, 0), U32, o', TellingRegs(inst, consts, o, 0))
  {
  }

  lemma SumEffect(inst: Inst, consts: Consts, o: Operand, v: nat, s: State)
    requires |inst.operands| == 3 && inst.op.base in {Add, Sub} && IsBound(inst.op, 2) && Written(inst).Some?
    requires s.regs == TellingRegs(inst, consts, o, v) && GuardHolds(inst, s.regs)
    ensures var x, y := ValueOf(FreeHost(o, v), U32, inst.operands[1], s.regs),
                        ValueOf(FreeHost(o, v), U32, inst.operands[2], s.regs);
            GuardedEffect(FreeHost(o, v), inst, s) == Write(Written(inst).value, EvaluateU32(inst.op.base, x, y))
  {
    ArithmeticEffect(FreeHost(o, v), inst, s);
    var vs := Sources(FreeHost(o, v), inst, s.regs);
    assert |vs| == 2 && vs[0] == ValueOf(FreeHost(o, v), U32, inst.operands[1], s.regs);
    assert vs[1] == ValueOf(FreeHost(o, v), U32, inst.operands[2], s.regs);
    hide GuardedEffect, Sources, TellingRegs, ValueOf, EvaluateU32;
  }

  /** Neighbouring words give different sums. */
  lemma SumsDiffer(b: Base, x: nat)
    requires b in {Add, Sub}
    ensures EvaluateU32(b, 0, x) != EvaluateU32(b, 1, x) && EvaluateU32(b, x, 0) != EvaluateU32(b, x, 1)
    ensures EvaluateU32(Add, 0, 0) != EvaluateU32(Add, 1, 1)
  {
  }

  /** The state and host that show it. */
  lemma Shown(inst: Inst, consts: Consts, host: Host, s: State)
    requires !TrackedWrite(inst) && Written(inst).Some? && Written(inst).value in consts
    requires FoldsRightly(host) && Holds(consts, s.regs)
    requires var e := GuardedEffect(host, inst, s);
             e.Write? && e.reg == Written(inst).value && e.value != consts[e.reg].value
    ensures !KeepsFacts(inst, consts)
  {
    UntrackedFlow(inst, consts);
    hide FoldsRightly, GuardedEffect, FlowItem, TrackedWrite;
    var e := GuardedEffect(host, inst, s);
    assert Get(RegsAfter(e, s.regs), e.reg) != consts[e.reg].value;
    assert !Holds(FlowItem(Code(inst), consts), RegsAfter(e, s.regs));
  }

  /** An unknown source of zero or one: one of the sums is not the recorded constant. */
  lemma SumTells(inst: Inst, consts: Consts, o: Operand, o': Operand)
    requires Recorded(consts) && !TrackedWrite(inst) && Written(inst).Some? && OpenSum(inst, consts)
    requires IsBound(inst.op, 2) && !FactSurvives(inst, consts) && Unknown(inst, o, consts)
    requires (o == inst.operands[1] && o' == inst.operands[2]) || (o == inst.operands[2] && o' == inst.operands[1])
    ensures !KeepsFacts(inst, consts)
  {
    var d, x := Written(inst).value, ValueOf(FreeHost(o, 0), U32, o', TellingRegs(inst, consts, o, 0));
    var states := v => State(TellingRegs(inst, consts, o, v), []);
    forall v: nat | v < 2
      ensures GuardedEffect(FreeHost(o, v), inst, states(v)) == Write(d,
                  var y := if SameSource(o, o') then v else x;
                  if o == inst.operands[1] then EvaluateU32(inst.op.base, v, y) else EvaluateU32(inst.op.base, y, v))
      ensures FoldsRightly(FreeHost(o, v)) && Holds(consts, states(v).regs)
    {
      FreeHostFolds(o, v);
      RegsTell(inst, consts, o, v);
      SumSources(inst, consts, o, o', v);
      SumEffect(inst, consts, o, v, states(v));
    }
    SumsDiffer(inst.op.base, x);
    hide GuardedEffect, TellingRegs, ValueOf, EvaluateU32, FreeHost, FoldsRightly, Holds, TrackedWrite, KeepsFacts;
    var v: nat := if GuardedEffect(FreeHost(o, 0), inst, states(0)).value == consts[d].value then 1 else 0;
    Shown(inst, consts, FreeHost(o, v), states(v));
  }

  /** The difference shows where the fact does not survive. */
  lemma Tells(inst: Inst, consts: Consts)
    requires Recorded(consts) && !TrackedWrite(inst) && inst.operands != [] && Decided(inst, consts)
    requires Written(inst).Some? && !FactSurvives(inst, consts)
    ensures !KeepsFacts(inst, consts)
  {
    UntrackedFlow(inst, consts);
    var d, o := Written(inst).value, if |inst.operands| > 1 then inst.operands[1] else inst.operands[0];
    var v := if consts[d].value == 0 then 1 else 0;
    var host, s := FreeHost(o, v), State(TellingRegs(inst, consts, o, v), FilledMemory(v));
    FreeHostFolds(o, v);
    RegsTell(inst, consts, o, v);
    if inst.op.base == Ld {
      LoadTells(inst, s, o, v);
    } else if inst.op.base == Setp {
      CompareTells(inst, s, o, v);
    } else if !IsBound(inst.op, |inst.operands| - 1) {
      FreeTells(inst, s, o, v);
    } else if forall k | 0 <= k < |inst.operands| - 1 :: ResolveAll(inst, consts)[k].Some? {
      ResolvedTells(host, inst, consts, s);
    } else if inst.op.base == Mov {
      MoveTells(inst, consts, s, o, v);
    } else if Unknown(inst, o, consts) {
      SumTells(inst, consts, o, inst.operands[2]);
      return;
    } else {
      SumTells(inst, consts, inst.operands[2], o);
      return;
    }
    hide FoldsRightly, GuardedEffect, Fold, FlowItem, TellingRegs, FilledMemory, ResolveAll, TrackedWrite, KeepsFacts,
         Holds;
    Shown(inst, consts, host, s);
  }

  /**
   * The facts stay true over a write the dataflow passes over, on all hosts, exactly if the fact it is about survives.
   */
  lemma FactsKeptExactly(inst: Inst, consts: Consts)
    requires Recorded(consts) && !TrackedWrite(inst)
    ensures Written(inst).Some? && inst.operands != []
    ensures FactSurvives(inst, consts) ==> KeepsFacts(inst, consts)
    ensures Decided(inst, consts) ==> (KeepsFacts(inst, consts) <==> FactSurvives(inst, consts))
  {
    UntrackedFlow(inst, consts);
    hide FactSurvives, Decided, FoldsRightly, FlowItem, GuardedEffect, TrackedWrite, Holds, Recorded, Written;
    if FactSurvives(inst, consts) {
      forall host: Host, s: State | FoldsRightly(host) && Holds(consts, s.regs)
        ensures Holds(FlowItem(Code(inst), consts), RegsAfter(GuardedEffect(host, inst, s), s.regs))
      {
        Survives(host, inst, consts, s);
      }
    } else if Decided(inst, consts) {
      Tells(inst, consts);
    }
  }

  /** What a fold that is not what the operation computes records is false on some host. */
  lemma MisreadTells(inst: Inst, consts: Consts)
    requires Recorded(consts) && TrackedWrite(inst) && !FoldKnown(inst, consts)
    ensures !KeepsFacts(inst, consts)
  {
    var d, c := Destination(inst).value, Fold(inst, consts).1.value;
    var o, v := IntImm(0), if c.value == 0 then 1 else 0;
    var host, s := FreeHost(o, v), State(TellingRegs(inst, consts, o, v), []);
    FreeHostFolds(o, v);
    RegsTell(inst, consts, o, v);
    FoldableEffect(host, inst, s);
    assert !IsBound(inst.op, |Sources(host, inst, s.regs)|);
    assert FlowItem(Code(inst), consts)[d] == c;
    hide FoldsRightly, GuardedEffect, FlowItem, TrackedWrite, Fold, TellingRegs, NamesMeaning;
    assert !Holds(FlowItem(Code(inst), consts), RegsAfter(GuardedEffect(host, inst, s), s.regs));
  }

  /**
   * Over a write the dataflow follows the facts stay true, on all hosts, exactly if what it folds is named by base and
   * type: `mul.hi.u32` of known sources is recorded as the low half of the product.
   */
  lemma TrackedKeptExactly(inst: Inst, consts: Consts)
    requires Recorded(consts) && TrackedWrite(inst)
    ensures KeepsFacts(inst, consts) <==> FoldKnown(inst, consts)
  {
    hide FoldsRightly, FlowItem, GuardedEffect, TrackedWrite, Holds, Recorded, FoldKnown;
    if FoldKnown(inst, consts) {
      forall host: Host, s: State | FoldsRightly(host) && Holds(consts, s.regs)
        ensures Holds(FlowItem(Code(inst), consts), RegsAfter(GuardedEffect(host, inst, s), s.regs))
      {
        TrackedKeepsFacts(host, inst, consts, s);
      }
    } else {
      MisreadTells(inst, consts);
    }
  }

  /** `mul.hi.u32 r2, 65536, 65536`: the product is one in the high half, and zero is recorded. */
  lemma HighProductMisread(high: Mod)
    requires high.OtherMod?
    ensures var inst := Inst(Opcode(Mul, [high], U32), [RegOp(R(2)), IntImm(65536), IntImm(65536)]);
            Fold(inst, map[]).1 == Some(Const(U32, 0)) && !KeepsFacts(inst, map[])
  {
    var inst := Inst(Opcode(Mul, [high], U32), [RegOp(R(2)), IntImm(65536), IntImm(65536)]);
    var rs := ResolveAll(inst, map[]);
    assert |rs| == 2 && rs[0] == Resolve(IntImm(65536), U32, map[]) == Some(Const(U32, 65536));
    assert rs[1] == Resolve(IntImm(65536), U32, map[]);
    assert inst.op.mods[0] == high;
    TrackedKeptExactly(inst, map[]);
    hide KeepsFacts, ResolveAll;
  }

  // ----- a program that runs differently when its constants are propagated -----

  function R(n: nat): Reg {
    Reg(ClassR, n)
  }

  const P1 := Reg(ClassP, 1)
  const BASE := Reg(ClassRd, 6)

  /** `mov.u32 r<to>, o` */
  function Move(to: nat, o: Operand): Inst {
    Inst(Opcode(Mov, [], U32), [RegOp(R(to)), o])
  }

  /** `@p1 mov.u32 r1, 7` */
  const GUARDED := Move(1, IntImm(7)).(guard := Some(P1))

  /** `st.global.u32 [rd6], r2` */
  const STORE := Inst(Opcode(St, [GlobalSpace], U32), [Addr(BASE), RegOp(R(2))])

  const HALT := Inst(Opcode(Ret, [], Untyped), [])

  /** Two blocks: `r1` gets five and perhaps seven in the first, `r2` gets `o` in the second and is stored. */
  function Program(o: Operand): seq<Item> {
    [Code(Move(1, IntImm(5))), Code(GUARDED), Label("NEXT"), Code(Move(2, o)), Code(STORE), Code(HALT)]
  }

  lemma ProgramBlocks(starts: seq<nat>)
    requires IsPartition(Program(RegOp(R(1))), starts)
    ensures starts == [0, 2]
  {
    var items := Program(RegOp(R(1)));
    assert forall k: nat :: IsLeader(items, k) <==> k == 0 || k == 2;
    assert 2 in starts;
    var j :| 0 <= j < |starts| && starts[j] == 2;
    assert starts[1] in starts && starts[1] > starts[0];
    var last := starts[|starts| - 1];
    assert last in starts;
  }

  lemma ProgramTransfers(b: nat, c: nat)
    requires b < 2
    ensures LeavesTo(Program(RegOp(R(1))), [0, 2], b, c) <==> b == 0 && c == 1
  {
  }

  lemma ProgramEdge(cfg: Cfg, b: nat, c: nat)
    requires Faithful(Program(RegOp(R(1))), cfg) && b < 2 && c < 2
    ensures cfg.starts == [0, 2] && |cfg.blocks| == 2
    ensures b in cfg.blocks[c].predecessors <==> b == 0 && c == 1
  {
    ProgramBlocks(cfg.starts);
    ProgramTransfers(b, c);
    hide IsPartition, Program, LeavesTo, BlockFilled, ItemsMapped, LabelsMapped;
  }

  /** The first block has no predecessor, the second has the first. */
  lemma ProgramEdges(cfg: Cfg)
    requires Faithful(Program(RegOp(R(1))), cfg)
    ensures cfg.starts == [0, 2] && |cfg.blocks| == 2
    ensures Listing(cfg.blocks[0].predecessors, 2) == [] && Listing(cfg.blocks[1].predecessors, 2) == [0]
  {
    hide Faithful;
    ProgramEdge(cfg, 0, 0);
    ProgramEdge(cfg, 0, 1);
    ProgramEdge(cfg, 1, 0);
    ProgramEdge(cfg, 1, 1);
    assert Listing(cfg.blocks[0].predecessors, 1) == [] && Listing(cfg.blocks[1].predecessors, 1) == [0];
  }

  /** From the first round on the exit of an entry block is what its items make of no facts. */
  lemma {:induction false} EntryExit(items: seq<Item>, cfg: Cfg, k: nat)
    requires BlocksCover(items, cfg) && 0 < |cfg.blocks| && Listing(cfg.blocks[0].predecessors, |cfg.blocks|) == []
             && k > 0
    requires EndOf(items, cfg.starts, 0) <= |items|
    ensures |Rounds(items, cfg, k)| == |cfg.blocks|
    ensures Rounds(items, cfg, k)[0] == FlowThrough(items, cfg.starts[0], EndOf(items, cfg.starts, 0), map[])
  {
    hide BlocksCover, FlowThrough;
    EntryExitTo(items, cfg, Rounds(items, cfg, k - 1), |cfg.blocks|);
  }

  lemma {:induction false} EntryExitTo(items: seq<Item>, cfg: Cfg, outs: seq<Consts>, b: nat)
    requires Inflationary(items, cfg, outs) && 0 < b <= |cfg.blocks|
    requires Listing(cfg.blocks[0].predecessors, |cfg.blocks|) == []
    ensures |RoundTo(items, cfg, outs, b)| == |cfg.blocks| == |cfg.starts| && EndOf(items, cfg.starts, 0) <= |items|
    ensures RoundTo(items, cfg, outs, b)[0] == FlowThrough(items, cfg.starts[0], EndOf(items, cfg.starts, 0), map[])
  {
    hide FlowThrough;
    if b > 1 {
      EntryExitTo(items, cfg, outs, b - 1);
    }
  }

  const FIVE: Consts := map[R(1) := Const(U32, 5)]

  lemma MoveFolds(to: nat, v: nat, consts: Consts)
    requires v < WORD
    ensures Fold(Move(to, IntImm(v)), consts) == (Move(to, IntImm(v)), Some(Const(U32, v)))
  {
    var inst := Move(to, IntImm(v));
    var rs := ResolveAll(inst, consts);
    assert |rs| == 1 && rs[0] == Resolve(IntImm(v), U32, consts) == Some(Const(U32, v));
    assert WithConstants(inst, rs).operands == inst.operands;
  }

  /** Behind the guarded move the dataflow still believes in five. */
  lemma FirstBlockFlow()
    ensures FlowThrough(Program(RegOp(R(1))), 0, 2, map[]) == FIVE
  {
    var items := Program(RegOp(R(1)));
    MoveFolds(1, 5, map[]);
    hide Fold;
    assert FlowThrough(items, 0, 0, map[]) == map[];
    assert FlowThrough(items, 0, 1, map[]) == FlowItem(items[0], map[]) == FIVE;
    assert FlowThrough(items, 0, 2, map[]) == FlowItem(items[1], FIVE) == FIVE;
  }

  /** The second block starts from the wrong fact. */
  lemma ProgramFacts(cfg: Cfg, k: nat)
    requires Faithful(Program(RegOp(R(1))), cfg) && k > 0
    ensures cfg.starts == [0, 2] && |Rounds(Program(RegOp(R(1))), cfg, k)| == |cfg.blocks| == 2
    ensures EntryFacts(cfg, Rounds(Program(RegOp(R(1))), cfg, k), 0) == map[]
    ensures EntryFacts(cfg, Rounds(Program(RegOp(R(1))), cfg, k), 1) == FIVE
  {
    var items := Program(RegOp(R(1)));
    ProgramEdges(cfg);
    assert BlocksCover(items, cfg) && |items| == 6;
    hide Rounds, BlocksCover, Faithful, FlowThrough, FIVE, Program, Listing;
    EntryExit(items, cfg, k);
    FirstBlockFlow();
    MeetOne(Rounds(items, cfg, k));
  }

  lemma MeetOne(outs: seq<Consts>)
    requires |outs| > 0
    ensures Meet([0], outs) == outs[0]
  {
  }

  function BlockAt(i: nat): nat {
    if i < 2 then 0 else 1
  }

  lemma KeptAt(cfg: Cfg, outs: seq<Consts>, kept: seq<Item>, i: nat)
    requires cfg.starts == [0, 2] && |outs| == |cfg.blocks| == 2 && i < 6
    requires FoldedUpTo(Program(RegOp(R(1))), cfg, outs, kept, 6)
    requires EntryFacts(cfg, outs, 0) == map[] && EntryFacts(cfg, outs, 1) == FIVE
    ensures |kept| == 6
    ensures kept[i] == FoldItem(Program(RegOp(R(1)))[i],
                                ApplyThrough(Program(RegOp(R(1))), if i < 2 then 0 else 2, i, if i < 2 then map[]
                                             else FIVE))
  {
    var items := Program(RegOp(R(1)));
    hide EntryFacts, FoldItem, ApplyThrough, FIVE, Move, STORE, HALT, GUARDED;
    assert InBlock(items, cfg, BlockAt(i), i);
    assert kept[i] == FoldItem(items[i], AppliedBefore(items, cfg, outs, BlockAt(i), i));
  }

  lemma KeptIs(cfg: Cfg, outs: seq<Consts>, kept: seq<Item>, i: nat)
    requires cfg.starts == [0, 2] && |outs| == |cfg.blocks| == 2 && i < 6
    requires FoldedUpTo(Program(RegOp(R(1))), cfg, outs, kept, 6)
    requires EntryFacts(cfg, outs, 0) == map[] && EntryFacts(cfg, outs, 1) == FIVE
    ensures |kept| == 6 && kept[i] == Program(IntImm(5))[i]
  {
    KeptAt(cfg, outs, kept, i);
    ProgramApplied(Program(RegOp(R(1))));
    FoldsInProgram();
    hide EntryFacts, ApplyThrough, FIVE, Move, STORE, HALT, GUARDED, FoldedUpTo, Fold;
  }

  /** The items of the rewritten program. */
  lemma ProgramRewritten(cfg: Cfg, outs: seq<Consts>, kept: seq<Item>)
    requires cfg.starts == [0, 2] && |outs| == |cfg.blocks| == 2
    requires FoldedUpTo(Program(RegOp(R(1))), cfg, outs, kept, 6)
    requires EntryFacts(cfg, outs, 0) == map[] && EntryFacts(cfg, outs, 1) == FIVE
    ensures kept == Program(IntImm(5))
  {
    KeptIs(cfg, outs, kept, 0);
    assert |Program(IntImm(5))| == 6;
    hide EntryFacts, FIVE, FoldedUpTo, Program;
    forall i | 0 <= i < 6 ensures kept[i] == Program(IntImm(5))[i] {
      KeptIs(cfg, outs, kept, i);
    }
  }

  /** What the rewriting phase knows in front of the two moves that fold. */
  lemma ProgramApplied(items: seq<Item>)
    requires items == Program(RegOp(R(1)))
    ensures ApplyThrough(items, 0, 0, map[]) == map[] && ApplyThrough(items, 2, 3, FIVE) == FIVE
  {
    assert ApplyThrough(items, 2, 2, FIVE) == FIVE;
  }

  lemma FoldsInProgram()
    ensures Fold(Move(1, IntImm(5)), map[]).0 == Move(1, IntImm(5))
    ensures Fold(Move(2, RegOp(R(1))), FIVE).0 == Move(2, IntImm(5))
    ensures forall consts ::
              Fold(GUARDED, consts).0 == GUARDED && Fold(STORE, consts).0 == STORE && Fold(HALT, consts).0 == HALT
  {
    MoveFolds(1, 5, map[]);
    var inst := Move(2, RegOp(R(1)));
    var rs := ResolveAll(inst, FIVE);
    assert |rs| == 1 && rs[0] == Resolve(RegOp(R(1)), U32, FIVE) == Some(Const(U32, 5));
    assert WithConstants(inst, rs).operands == [RegOp(R(2)), IntImm(5)];
  }

  /** What the memory ends up as. */
  lemma ProgramRuns(host: Host, o: Operand, s: State, n: nat, v: nat)
    requires FoldsRightly(host) && n == 6 && |s.gmem| == 4 && Get(s.regs, P1) == 1 && Get(s.regs, BASE) == 0
    requires v == ValueOf(host, U32, o, s.regs[R(1) := 7]) < WORD
    ensures Run(host, Program(o), 0, s, n) == Halted(State(s.regs[R(1) := 7][R(2) := v], ToBytes(v, 4)))
  {
    var items := Program(o);
    var s1, s2 := State(s.regs[R(1) := 5], s.gmem), State(s.regs[R(1) := 7], s.gmem);
    var s3 := State(s2.regs[R(2) := v], s.gmem);
    var s4 := State(s3.regs, ToBytes(v, 4));
    RegsFit(s.regs, v);
    hide *;
    ProgramItems(o);
    SmallImmediates(host, s.regs);
    MoveStep(host, items, 0, s, 1, IntImm(5), s1);
    MoveStep(host, items, 1, s1, 1, IntImm(7), s2);
    PlainSteps(host, items, 2, s2);
    MoveStep(host, items, 3, s2, 2, o, s3);
    StoreStep(host, items, 4, s3, v);
    PlainSteps(host, items, 5, s4);
    RunSix(host, items, s, s1, s2, s3, s4, n);
  }

  lemma ProgramItems(o: Operand)
    ensures var items := Program(o);
            && |items| == 6 && items[0] == Code(Move(1, IntImm(5)))
            && items[1].Code? && items[1].inst == Move(1, IntImm(7)).(guard := Some(P1))
            && items[2].Label? && items[3] == Code(Move(2, o)) && items[4] == Code(STORE) && items[5] == Code(HALT)
  {
  }

  lemma RegsFit(regs: Regs, v: nat)
    requires Get(regs, P1) == 1 && Get(regs, BASE) == 0
    ensures regs[R(1) := 5][R(1) := 7] == regs[R(1) := 7] && Get(regs[R(1) := 5], P1) == 1
    ensures Get(regs[R(1) := 7][R(2) := v], BASE) == 0 && Get(regs[R(1) := 7][R(2) := v], R(2)) == v
  {
  }

  lemma SmallImmediates(host: Host, regs: Regs)
    ensures ValueOf(host, U32, IntImm(5), regs) == 5 < WORD
    ensures forall other: Regs :: ValueOf(host, U32, IntImm(7), other) == 7 < WORD
  {
  }

  lemma PlainSteps(host: Host, items: seq<Item>, pc: nat, s: State)
    requires pc < |items|
    ensures items[pc].Label? ==> Step(host, items, pc, s) == Next(pc + 1, s)
    ensures items[pc] == Code(HALT) ==> Step(host, items, pc, s) == Done(s)
  {
    hide FindLabel;
  }

  lemma RunSix(host: Host, items: seq<Item>, s: State, s1: State, s2: State, s3: State, s4: State, n: nat)
    requires n == 6 && Step(host, items, 0, s) == Next(1, s1) && Step(host, items, 1, s1) == Next(2, s2)
    requires Step(host, items, 2, s2) == Next(3, s2) && Step(host, items, 3, s2) == Next(4, s3)
    requires Step(host, items, 4, s3) == Next(5, s4) && Step(host, items, 5, s4) == Done(s4)
    ensures Run(host, items, 0, s, n) == Halted(s4)
  {
    hide Step;
    assert Run(host, items, 5, s4, n - 5) == Halted(s4);
    assert Run(host, items, 4, s3, n - 4) == Halted(s4);
    assert Run(host, items, 3, s2, n - 3) == Halted(s4);
    assert Run(host, items, 2, s2, n - 2) == Halted(s4);
    assert Run(host, items, 1, s1, n - 1) == Halted(s4);
  }

  /** A move, plain or under a guard that holds. */
  lemma MoveStep(host: Host, items: seq<Item>, pc: nat, s: State, to: nat, o: Operand, s': State)
    requires FoldsRightly(host) && pc < |items| && items[pc].Code?
    requires items[pc].inst == Move(to, o) || (items[pc].inst == Move(to, o).(guard := Some(P1))
                                               && Get(s.regs, P1) == 1)
    requires ValueOf(host, U32, o, s.regs) < WORD && s' == State(s.regs[R(to) := ValueOf(host, U32, o, s.regs)], s.gmem)
    ensures Step(host, items, pc, s) == Next(pc + 1, s')
  {
    var inst := items[pc].inst;
    var vs := Sources(host, inst, s.regs);
    assert |vs| == 1 && vs[0] == ValueOf(host, U32, o, s.regs);
    assert host.eval(inst.op, vs) == vs[0] % WORD;
    hide FoldsRightly, FindLabel;
  }

  lemma StoreStep(host: Host, items: seq<Item>, pc: nat, s: State, v: nat)
    requires pc < |items| && items[pc] == Code(STORE) && Get(s.regs, BASE) == 0 && |s.gmem| == 4
             && Get(s.regs, R(2)) == v
    ensures Step(host, items, pc, s) == Next(pc + 1, State(s.regs, ToBytes(v, 4)))
  {
    hide FindLabel, ToBytes;
    assert s.gmem[..0] + ToBytes(v, 4) + s.gmem[4..] == ToBytes(v, 4);
  }

  /** The program and its rewritten form halt with different memory. */
  ghost predicate EndsDiffer(host: Host, items: seq<Item>, kept: seq<Item>, s: State, n: nat) {
    var r, r' := Run(host, items, 0, s, n), Run(host, kept, 0, s, n);
    r.Halted? && r'.Halted? && r.state.gmem != r'.state.gmem
  }

  /**
   * `mov r1, 5; @p1 mov r1, 7; NEXT: mov r2, r1; st r2; ret`: whatever round the dataflow stops at, five is stored for
   * seven.
   */
  lemma GuardedWriteOverlooked(cfg: Cfg, k: nat, kept: seq<Item>)
    requires Faithful(Program(RegOp(R(1))), cfg) && k > 0
    requires |cfg.blocks| == |Rounds(Program(RegOp(R(1))), cfg, k)| == |cfg.starts|
    requires FoldedUpTo(Program(RegOp(R(1))), cfg, Rounds(Program(RegOp(R(1))), cfg, k), kept, 6)
    ensures exists host: Host, s: State, n: nat ::
              FoldsRightly(host) && EndsDiffer(host, Program(RegOp(R(1))), kept, s, n)
  {
    hide *;
    ProgramOutcome(cfg, k, kept);
    SomeDiffer(kept);
  }

  lemma ProgramOutcome(cfg: Cfg, k: nat, kept: seq<Item>)
    requires Faithful(Program(RegOp(R(1))), cfg) && k > 0
    requires |cfg.blocks| == |Rounds(Program(RegOp(R(1))), cfg, k)| == |cfg.starts|
    requires FoldedUpTo(Program(RegOp(R(1))), cfg, Rounds(Program(RegOp(R(1))), cfg, k), kept, 6)
    ensures kept == Program(IntImm(5))
  {
    hide *;
    FaithfulCovers(Program(RegOp(R(1))), cfg);
    ProgramFacts(cfg, k);
    ProgramRewritten(cfg, Rounds(Program(RegOp(R(1))), cfg, k), kept);
  }

  lemma FaithfulCovers(items: seq<Item>, cfg: Cfg)
    requires Faithful(items, cfg)
    ensures BlocksCover(items, cfg)
  {
  }

  lemma SomeDiffer(kept: seq<Item>)
    requires kept == Program(IntImm(5))
    ensures exists host: Host, s: State, n: nat ::
              FoldsRightly(host) && EndsDiffer(host, Program(RegOp(R(1))), kept, s, n)
  {
    var host, s, n := FreeHost(IntImm(0), 0), State(map[P1 := 1], [0, 0, 0, 0]), 6;
    FreeHostFolds(IntImm(0), 0);
    hide FoldsRightly, Program, Run, EndsDiffer, FreeHost;
    DifferOn(host, kept, s, n);
  }

  lemma DifferOn(host: Host, kept: seq<Item>, s: State, n: nat)
    requires FoldsRightly(host) && kept == Program(IntImm(5)) && n == 6
    requires |s.gmem| == 4 && Get(s.regs, P1) == 1 && Get(s.regs, BASE) == 0
    ensures EndsDiffer(host, Program(RegOp(R(1))), kept, s, n)
  {
    hide Run, Program, FoldsRightly, ToBytes;
    ProgramRuns(host, RegOp(R(1)), s, n, 7);
    ProgramRuns(host, IntImm(5), s, n, 5);
    FirstByte(7);
    FirstByte(5);
  }

  lemma FirstByte(v: nat)
    ensures ToBytes(v, 4)[0] == v % 256
  {
  }
}
