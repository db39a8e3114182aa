/** Each expansion does to a lane what the instruction does to the physical registers. */
module LoweringStep {
  import opened Wrappers
  import opened Words
  import opened Allocator
  import opened Expansion
  import opened PtxMeaning
  import opened Machine
  import opened Reorder
  import P = Ptx
  import A = Isa
  import R = PhysicalRun
  import I = Independence

  /** Below the temporaries the lane holds the slots, all of them words; its predicates are the predicate registers. */
  ghost predicate SlotRel(p: R.Physical, lane: Lane) {
    && (forall q: nat | q < FIRST_TEMP :: lane.regs[q] == R.SlotAt(p.slots, q) < WORD)
    && (forall n: nat | n < 8 :: lane.preds[n] <==> P.Get(p.preds, P.Reg(P.ClassP, n)) != 0)
  }

  /** Pairs take two registers from an even base, others one, all below the temporaries. */
  ghost predicate GoodHomes(homes: R.Homes) {
    forall r | r in homes ::
      && homes[r].width == Width(P.IsPair(r)) && homes[r].base + homes[r].width <= FIRST_TEMP
      && (P.IsPair(r) ==> homes[r].base % 2 == 0)
  }

  function One(lane: Lane, gmem: seq<Byte>): Warp {
    Warp([lane], gmem)
  }

  // ----- preloads -----

  /** `lane'` differs from `lane` in temporaries only. */
  predicate TempsOnly(lane: Lane, lane': Lane) {
    lane'.preds == lane.preds && lane'.id == lane.id && forall q: nat | q < FIRST_TEMP :: lane'.regs[q] == lane.regs[q]
  }

  /** What an operand is worth once preloaded. */
  function Worth(homes: R.Homes, o: P.Operand, lane: Lane): nat
    requires IsSource(o) && Mentioned(o) <= homes.Keys
  {
    if o.RegOp? then
      assert o.reg in Mentioned(o);
      if homes[o.reg].base < 256 then lane.regs[homes[o.reg].base] else 0
    else Mask32(ParseImmediate(o).value)
  }

  lemma LoadImmediateExec(cfg: Config, dest: nat, value: int, lane: Lane, gmem: seq<Byte>)
    requires dest < 256
    ensures Exec(cfg, LoadImmediate(dest, value), One(lane, gmem))
            == Running(One(lane.(regs := lane.regs[dest := Mask32(value)]), gmem))
  {
    I.ExecAlone(cfg, LoadImmediate(dest, value), lane, gmem);
  }

  lemma ExecNothing(cfg: Config, w: Warp)
    ensures ExecSeq(cfg, [], w) == Running(w)
  {
  }

  lemma HeadWorth(homes: R.Homes, o: P.Operand, lane: Lane)
    requires GoodHomes(homes) && IsSource(o) && Mentioned(o) <= homes.Keys
    ensures o.RegOp? ==>
              o.reg in homes && homes[o.reg].base < FIRST_TEMP && Worth(homes, o, lane) == lane.regs[homes[o.reg].base]
    ensures !o.RegOp? ==> Worth(homes, o, lane) == Mask32(ParseImmediate(o).value)
  {
    if o.RegOp? {
      assert o.reg in Mentioned(o);
    }
  }

  lemma WorthBelowTemps(homes: R.Homes, o: P.Operand, lane: Lane, lane': Lane)
    requires GoodHomes(homes) && IsSource(o) && Mentioned(o) <= homes.Keys && TempsOnly(lane, lane')
    ensures Worth(homes, o, lane') == Worth(homes, o, lane)
  {
    HeadWorth(homes, o, lane);
    HeadWorth(homes, o, lane');
  }

  lemma RegistersFirst(homes: R.Homes, sources: seq<P.Operand>, temp: nat)
    requires sources != [] && forall k | 0 <= k < |sources| ::
               IsSource(sources[k]) && Mentioned(sources[k]) <= homes.Keys
    ensures var rest := SourceRegs(homes, sources[1..], if sources[0].RegOp? then temp else temp + 1);
            forall k | 1 <= k < |sources| :: SourceRegs(homes, sources, temp)[k] == rest[k - 1]
                && sources[k] == sources[1..][k - 1]
  {
  }

  /** Every operand is found where `SourceRegs` says. */
  predicate Loaded(homes: R.Homes, sources: seq<P.Operand>, temp: nat, lane: Lane, lane': Lane)
    requires forall k | 0 <= k < |sources| :: IsSource(sources[k]) && Mentioned(sources[k]) <= homes.Keys
  {
    forall k | 0 <= k < |sources| ::
      SourceRegs(homes, sources, temp)[k] < 256
      && lane'.regs[SourceRegs(homes, sources, temp)[k]] == Worth(homes, sources[k], lane)
  }

  /** What is loaded for the rest of the operands and for the first is loaded for all. */
  lemma LoadedFirst(homes: R.Homes, sources: seq<P.Operand>, temp: nat, lane: Lane, next: Lane, lane': Lane)
    requires GoodHomes(homes) && sources != [] && TempsOnly(lane, next)
    requires forall k | 0 <= k < |sources| :: IsSource(sources[k]) && Mentioned(sources[k]) <= homes.Keys
    requires Loaded(homes, sources[1..], if sources[0].RegOp? then temp else temp + 1, next, lane')
    requires SourceRegs(homes, sources, temp)[0] < 256
             && lane'.regs[SourceRegs(homes, sources, temp)[0]] == Worth(homes, sources[0], lane)
    ensures Loaded(homes, sources, temp, lane, lane')
  {
    RegistersFirst(homes, sources, temp);
    hide Worth, Mentioned, SourceRegs, TempsOnly, GoodHomes, IsSource;
    forall k | 1 <= k < |sources| ensures Worth(homes, sources[k], next) == Worth(homes, sources[k], lane) {
      WorthBelowTemps(homes, sources[k], lane, next);
    }
  }

  lemma FirstRegister(homes: R.Homes, sources: seq<P.Operand>, temp: nat)
    requires sources != []
    requires forall k | 0 <= k < |sources| :: IsSource(sources[k]) && Mentioned(sources[k]) <= homes.Keys
    ensures sources[0].RegOp? ==> sources[0].reg in homes
    ensures SourceRegs(homes, sources, temp)[0]
            == if sources[0].RegOp? then homes[sources[0].reg].base else temp
  {
    if sources[0].RegOp? {
      assert sources[0].reg in Mentioned(sources[0]);
    }
  }

  lemma PreloadNext(sources: seq<P.Operand>, temp: nat)
    requires sources != [] && forall k | 0 <= k < |sources| :: IsSource(sources[k])
    ensures if sources[0].RegOp? then Preload(sources, temp) == Preload(sources[1..], temp)
            else Preload(sources, temp)
                 == [LoadImmediate(temp, ParseImmediate(sources[0]).value)] + Preload(sources[1..], temp + 1)
  {
    assert IsSource(sources[0]);
  }

  /** Temporaries below `temp` are as they were, and so is all that is no temporary. */
  predicate Above(lane: Lane, lane': Lane, temp: nat)
    requires FIRST_TEMP <= temp <= 256
  {
    TempsOnly(lane, lane') && forall q: nat | FIRST_TEMP <= q < temp :: lane'.regs[q] == lane.regs[q]
  }

  lemma AboveNext(lane: Lane, lane': Lane, temp: nat, word: nat)
    requires FIRST_TEMP <= temp < 256 && Above(lane.(regs := lane.regs[temp := word]), lane', temp + 1)
    ensures Above(lane, lane', temp) && TempsOnly(lane, lane.(regs := lane.regs[temp := word]))
            && lane'.regs[temp] == word
  {
  }

  /** Preloading puts every immediate operand where `SourceRegs` says, and touches temporaries only. */
  lemma {:induction false} PreloadExec(cfg: Config, homes: R.Homes, sources: seq<P.Operand>, temp: nat, lane: Lane,
                                       gmem: seq<Byte>)
    returns (lane': Lane)
    requires GoodHomes(homes) && FIRST_TEMP <= temp && temp + |sources| <= 256
    requires forall k | 0 <= k < |sources| :: IsSource(sources[k]) && Mentioned(sources[k]) <= homes.Keys
    ensures ExecSeq(cfg, Preload(sources, temp), One(lane, gmem)) == Running(One(lane', gmem))
    ensures Above(lane, lane', temp) && Loaded(homes, sources, temp, lane, lane')
    decreases |sources|
  {
    if sources == [] {
      lane' := lane;
      ExecNothing(cfg, One(lane, gmem));
    } else {
      assert IsSource(sources[0]) && FIRST_TEMP < 256;
      var value: int := if sources[0].RegOp? then 0 else ParseImmediate(sources[0]).value;
      assert sources[0].RegOp? ==> forall h | h == sources[0].reg && h in homes :: homes[h].base < FIRST_TEMP;
      hide *;
      FirstRegister(homes, sources, temp);
      HeadWorth(homes, sources[0], lane);
      PreloadNext(sources, temp);
      if sources[0].RegOp? {
        lane' := PreloadExec(cfg, homes, sources[1..], temp, lane, gmem);
        BelowTemps(lane, lane', temp);
        LoadedFirst(homes, sources, temp, lane, lane, lane');
      } else {
        var next := lane.(regs := lane.regs[temp := Mask32(value)]);
        LoadImmediateExec(cfg, temp, value, lane, gmem);
        lane' := PreloadExec(cfg, homes, sources[1..], temp + 1, next, gmem);
        ExecCons(cfg, LoadImmediate(temp, value), Preload(sources[1..], temp + 1), One(lane, gmem));
        AboveNext(lane, lane', temp, Mask32(value));
        LoadedFirst(homes, sources, temp, lane, next, lane');
      }
    }
  }

  lemma BelowTemps(lane: Lane, lane': Lane, temp: nat)
    requires FIRST_TEMP <= temp <= 256 && Above(lane, lane', temp)
    ensures TempsOnly(lane, lane) && forall q: nat | q < FIRST_TEMP :: lane'.regs[q] == lane.regs[q]
  {
  }

  // ----- operands -----

  function ViewOf(homes: R.Homes, p: R.Physical, inst: P.Inst): P.State {
    R.View(homes, p, P.ReadRegisters(inst))
  }

  lemma OperandRead(homes: R.Homes, p: R.Physical, inst: P.Inst, k: nat, r: P.Reg)
    requires P.FirstSource(inst) <= k < |inst.operands| && r in P.OperandRegs(inst.operands[k])
    ensures P.Get(ViewOf(homes, p, inst).regs, r) == R.Read(homes, p, r)
  {
    assert P.OperandRegs(inst.operands[k]) <= P.ReadRegisters(inst);
  }

  /** A single operand is worth its PTX value. */
  lemma SingleWorth(host: P.Host, homes: R.Homes, p: R.Physical, lane: Lane, inst: P.Inst, k: nat)
    requires SlotRel(p, lane) && GoodHomes(homes) && P.FirstSource(inst) <= k < |inst.operands|
    requires SingleSource(inst.operands[k]) && !Wide(inst.op.ty) && inst.op.ty != P.F64
    requires Mentioned(inst.operands[k]) <= homes.Keys
    ensures Worth(homes, inst.operands[k], lane)
         == P.ValueOf(host, inst.op.ty, inst.operands[k], ViewOf(homes, p, inst).regs) < WORD
  {
    var o := inst.operands[k];
    if o.RegOp? {
      assert o.reg in Mentioned(o);
      OperandRead(homes, p, inst, k, o.reg);
    }
    hide P.ReadRegisters, ViewOf;
  }

  lemma LowHalf(low: nat, high: nat)
    requires low < WORD
    ensures (low + WORD * high) % WORD == low && (low + WORD * high) / WORD == high
  {
  }

  lemma NarrowImmediate(v: int)
    ensures (v % (WORD * WORD)) % WORD == Mask32(v)
  {
    var q := v / (WORD * WORD);
    assert v == q * WORD * WORD + v % (WORD * WORD);
    SameRemainder(v, v % (WORD * WORD), q * WORD);
  }

  lemma SameRemainder(x: int, y: int, k: int)
    requires x == k * WORD + y
    ensures x % WORD == y % WORD
  {
  }

  /** A pair operand is worth the low half of its PTX value. */
  lemma PairWorth(host: P.Host, homes: R.Homes, p: R.Physical, lane: Lane, inst: P.Inst, k: nat)
    requires SlotRel(p, lane) && GoodHomes(homes) && P.FirstSource(inst) <= k < |inst.operands|
    requires PairSource(inst.operands[k]) && Wide(inst.op.ty) && Mentioned(inst.operands[k]) <= homes.Keys
    ensures Worth(homes, inst.operands[k], lane)
         == P.ValueOf(host, inst.op.ty, inst.operands[k], ViewOf(homes, p, inst).regs) % WORD
  {
    var o := inst.operands[k];
    if o.RegOp? {
      assert o.reg in Mentioned(o);
      OperandRead(homes, p, inst, k, o.reg);
      var base := homes[o.reg].base;
      assert lane.regs[base] == R.SlotAt(p.slots, base) < WORD;
      LowHalf(R.SlotAt(p.slots, base), R.SlotAt(p.slots, base + 1));
    } else {
      NarrowImmediate(o.value);
    }
    hide P.ReadRegisters, ViewOf;
  }

  // ----- writing -----

  lemma RelTemps(p: R.Physical, lane: Lane, lane': Lane)
    requires SlotRel(p, lane) && TempsOnly(lane, lane')
    ensures SlotRel(p, lane')
  {
  }

  lemma RelSingle(homes: R.Homes, p: R.Physical, lane: Lane, r: P.Reg, v: nat)
    requires SlotRel(p, lane) && GoodHomes(homes) && r in homes && SingleReg(r) && v < WORD
    ensures homes[r].base < FIRST_TEMP
    ensures SlotRel(R.WriteReg(homes, p, r, v), lane.(regs := lane.regs[homes[r].base := v]))
  {
  }

  lemma RelPair(homes: R.Homes, p: R.Physical, lane: Lane, r: P.Reg, v: nat)
    requires SlotRel(p, lane) && GoodHomes(homes) && r in homes && P.IsPair(r) && v < WORD * WORD
    ensures homes[r].base + 1 < FIRST_TEMP
    ensures SlotRel(R.WriteReg(homes, p, r, v),
                    lane.(regs := lane.regs[homes[r].base := v % WORD][homes[r].base + 1 := v / WORD]))
  {
    assert v / WORD < WORD;
  }

  lemma RelPredicate(homes: R.Homes, p: R.Physical, lane: Lane, id: nat, flag: bool)
    requires SlotRel(p, lane) && id < 8
    ensures SlotRel(R.WriteReg(homes, p, P.Reg(P.ClassP, id), if flag then 1 else 0),
                    lane.(preds := lane.preds[id := flag]))
  {
  }

  // ----- guards -----

  predicate GuardOn(inst: P.Inst, lane: Lane) {
    inst.guard.Some? && inst.guard.value.id < 8 ==> lane.preds[inst.guard.value.id] != inst.negated
  }

  lemma GuardAgrees(homes: R.Homes, p: R.Physical, lane: Lane, inst: P.Inst)
    requires SlotRel(p, lane) && (inst.guard.Some? ==> P.IsPredicate(inst.guard.value) && inst.guard.value.id < 8)
    ensures P.GuardHolds(inst, ViewOf(homes, p, inst).regs) <==> GuardOn(inst, lane)
  {
    if inst.guard.Some? {
      var g := inst.guard.value;
      assert g in P.ReadRegisters(inst);
      assert P.Get(ViewOf(homes, p, inst).regs, g) == R.Read(homes, p, g) == P.Get(p.preds, g);
      assert g == P.Reg(P.ClassP, g.id);
    }
  }

  lemma AccessIgnoresGuard(cfg: Config, a: A.Inst, g: Option<nat>, negated: bool, lane: Lane, gmem: seq<Byte>)
    ensures LoadEffect(cfg, a.(guard := g, negated := negated), lane, gmem) == LoadEffect(cfg, a, lane, gmem)
    ensures StoreEffect(a.(guard := g, negated := negated), lane, gmem) == StoreEffect(a, lane, gmem)
    ensures CopyEffect(a.(guard := g, negated := negated), lane) == CopyEffect(a, lane)
  {
    hide SpecialValue, FromBytes, ToBytes, TypeSize, Mask32, SetRegOrTrap;
  }

  lemma ExecuteIgnoresGuard(cfg: Config, a: A.Inst, g: Option<nat>, negated: bool, lane: Lane, gmem: seq<Byte>)
    ensures Execute(cfg, a.(guard := g, negated := negated), lane, gmem) == Execute(cfg, a, lane, gmem)
  {
    hide Alu2, Alu3, CompareWords, Mask32, LoadEffect, StoreEffect, CopyEffect, SetRegOrTrap;
    AccessIgnoresGuard(cfg, a, g, negated, lane, gmem);
  }

  /** A guarded instruction does what the bare one does, or nothing. */
  lemma GuardedEffect(cfg: Config, inst: P.Inst, a: A.Inst, lane: Lane, gmem: seq<Byte>)
    requires inst.guard.Some? ==> inst.guard.value.id < 8
    requires a.guard == None
    ensures LaneEffect(cfg, Guarded(inst, a), lane, gmem) == if GuardOn(inst, lane) then Execute(cfg, a, lane, gmem)
            else Skip
  {
    hide Execute;
    if inst.guard.Some? {
      ExecuteIgnoresGuard(cfg, a, Some(inst.guard.value.id), inst.negated, lane, gmem);
    }
  }

  lemma GuardedExec(cfg: Config, inst: P.Inst, a: A.Inst, lane: Lane, gmem: seq<Byte>)
    requires (inst.guard.Some? ==> inst.guard.value.id < 8) && a.guard == None
    ensures !GuardOn(inst, lane) ==> Exec(cfg, Guarded(inst, a), One(lane, gmem)) == Running(One(lane, gmem))
    ensures GuardOn(inst, lane) ==>
              var e := Execute(cfg, a, lane, gmem);
              Exec(cfg, Guarded(inst, a), One(lane, gmem)) ==
              if e.Trap? || !FitsLane(e) then Fault(gmem) else Running(One(Apply(e, lane), ApplyMemory(e, gmem)))
  {
    hide Execute, LaneEffect;
    GuardedEffect(cfg, inst, a, lane, gmem);
    EffectFits(cfg, Guarded(inst, a), lane, gmem);
    var e := LaneEffect(cfg, Guarded(inst, a), lane, gmem);
    if e.Trap? {
      assert [lane][1..] == [];
    } else {
      I.ExecAlone(cfg, Guarded(inst, a), lane, gmem);
    }
  }

  lemma ExecLast(cfg: Config, pre: seq<A.Inst>, last: A.Inst, w: Warp, w': Warp)
    requires ExecSeq(cfg, pre, w) == Running(w')
    ensures ExecSeq(cfg, pre + [last], w) == Exec(cfg, last, w')
  {
    ExecAppend(cfg, pre, [last], w);
    ExecCons(cfg, last, [], w');
    assert [last] + [] == [last];
    hide Exec;
  }
}
