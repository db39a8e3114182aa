/** Guarded code runs in lockstep as if the lanes whose guard is off were not there. */
module Masking {
  import opened Wrappers
  import opened Words
  import opened Machine
  import opened ControlPlan
  import A = Isa

  predicate On(g: ItemGuard, lane: Lane)
    requires g.id < 8
  {
    lane.preds[g.id] != g.negated
  }

  /** The lanes whose guard is on, in order. */
  function Active(g: ItemGuard, lanes: seq<Lane>): (r: seq<Lane>)
    requires g.id < 8
  {
    if lanes == [] then [] else (if On(g, lanes[0]) then [lanes[0]] else []) + Active(g, lanes[1..])
  }

  /** All lanes again, the active ones as they have become. */
  function Merge(g: ItemGuard, lanes: seq<Lane>, active: seq<Lane>): seq<Lane>
    requires g.id < 8 && |active| == |Active(g, lanes)|
  {
    if lanes == [] then []
    else if On(g, lanes[0]) then [active[0]] + Merge(g, lanes[1..], active[1..])
    else [lanes[0]] + Merge(g, lanes[1..], active)
  }

  /** The outcome for the whole warp of an outcome for its active lanes. */
  function Spread(g: ItemGuard, lanes: seq<Lane>, o: Outcome): Outcome
    requires g.id < 8 && (o.Running? ==> |o.warp.lanes| == |Active(g, lanes)|)
  {
    match o
    case Fault(m) => Fault(m)
    case Running(w) => Running(Warp(Merge(g, lanes, w.lanes), w.gmem))
  }

  predicate AllOn(g: ItemGuard, lanes: seq<Lane>)
    requires g.id < 8
  {
    forall k | 0 <= k < |lanes| :: On(g, lanes[k])
  }

  /** Code that can be put under a guard: unguarded, without branches, not comparing into the predicate. */
  predicate Maskable(code: seq<A.Inst>, id: nat) {
    forall k | 0 <= k < |code| :: MaskableAt(code[k], id)
  }

  predicate MaskableAt(a: A.Inst, id: nat) {
    a.guard.None? && !IsBranch(a) && (a.opcode == A.CMPP ==> a.dest != id)
  }

  lemma {:induction false} ActiveOn(g: ItemGuard, lanes: seq<Lane>)
    requires g.id < 8
    ensures AllOn(g, Active(g, lanes)) && |Active(g, lanes)| <= |lanes|
    decreases |lanes|
  {
    if lanes != [] {
      ActiveOn(g, lanes[1..]);
    }
  }

  lemma {:induction false} MergeActive(g: ItemGuard, lanes: seq<Lane>, active: seq<Lane>)
    requires g.id < 8 && |active| == |Active(g, lanes)| && AllOn(g, active)
    ensures Active(g, Merge(g, lanes, active)) == active
    decreases |lanes|
  {
    if lanes == [] {
    } else if On(g, lanes[0]) {
      MergeActive(g, lanes[1..], active[1..]);
      var rest := Merge(g, lanes[1..], active[1..]);
      assert ([active[0]] + rest)[1..] == rest && On(g, active[0]);
    } else {
      MergeActive(g, lanes[1..], active);
      var rest := Merge(g, lanes[1..], active);
      assert ([lanes[0]] + rest)[1..] == rest;
    }
  }

  lemma {:induction false} MergeMerge(g: ItemGuard, lanes: seq<Lane>, active: seq<Lane>, active': seq<Lane>)
    requires g.id < 8 && |active| == |active'| == |Active(g, lanes)| && AllOn(g, active)
    ensures Active(g, Merge(g, lanes, active)) == active
    ensures Merge(g, Merge(g, lanes, active), active') == Merge(g, lanes, active')
    decreases |lanes|
  {
    MergeActive(g, lanes, active);
    if lanes == [] {
    } else if On(g, lanes[0]) {
      MergeMerge(g, lanes[1..], active[1..], active'[1..]);
      var rest := Merge(g, lanes[1..], active[1..]);
      assert ([active[0]] + rest)[1..] == rest && On(g, active[0]);
    } else {
      MergeMerge(g, lanes[1..], active, active');
      var rest := Merge(g, lanes[1..], active);
      assert ([lanes[0]] + rest)[1..] == rest;
    }
  }

  lemma {:induction false} MergeSelf(g: ItemGuard, lanes: seq<Lane>)
    requires g.id < 8
    ensures Merge(g, lanes, Active(g, lanes)) == lanes
    decreases |lanes|
  {
    if lanes != [] {
      MergeSelf(g, lanes[1..]);
      var rest := Active(g, lanes[1..]);
      assert On(g, lanes[0]) ==> ([lanes[0]] + rest)[1..] == rest;
      assert [] + rest == rest;
    }
  }

  /** An instruction does not see its own guard. */
  lemma EffectUnderGuard(cfg: Config, a: A.Inst, g: ItemGuard, lane: Lane, gmem: seq<Byte>)
    requires g.id < 8 && a.guard.None?
    ensures LaneEffect(cfg, a.(guard := Some(g.id), negated := g.negated), lane, gmem)
         == if On(g, lane) then LaneEffect(cfg, a, lane, gmem) else Skip
  {
    hide Alu2, Alu3, CompareWords, Mask32, SetRegOrTrap, SpecialValue, FromBytes, ToBytes, TypeSize;
    var b := a.(guard := Some(g.id), negated := g.negated);
    assert LoadEffect(cfg, b, lane, gmem) == LoadEffect(cfg, a, lane, gmem);
    assert StoreEffect(b, lane, gmem) == StoreEffect(a, lane, gmem);
    assert CopyEffect(b, lane) == CopyEffect(a, lane);
    hide LoadEffect, StoreEffect, CopyEffect;
  }

  /** One guarded instruction, over all lanes. */
  lemma {:induction false} GuardedInstMasks(cfg: Config, a: A.Inst, g: ItemGuard, lanes: seq<Lane>, gmem: seq<Byte>)
    requires g.id < 8 && a.guard.None?
    ensures var o := ExecLanes(cfg, a, Active(g, lanes), gmem);
            && (o.Running? ==> |o.warp.lanes| == |Active(g, lanes)|)
            && ExecLanes(cfg, a.(guard := Some(g.id), negated := g.negated), lanes, gmem) == Spread(g, lanes, o)
    decreases |lanes|
  {
    hide LaneEffect, Apply, ApplyMemory, On;
    if lanes != [] {
      EffectUnderGuard(cfg, a, g, lanes[0], gmem);
      var e := LaneEffect(cfg, a, lanes[0], gmem);
      var rest := Active(g, lanes[1..]);
      if On(g, lanes[0]) {
        GuardedInstMasks(cfg, a, g, lanes[1..], ApplyMemory(e, gmem));
        assert ([lanes[0]] + rest)[1..] == rest;
        SpreadOn(g, lanes, StepLane(cfg, a, lanes[0], gmem), ExecLanes(cfg, a, rest, ApplyMemory(e, gmem)));
      } else {
        GuardedInstMasks(cfg, a, g, lanes[1..], gmem);
        SkipChangesNothing(lanes[0], gmem);
        assert [] + rest == rest;
      }
    }
  }

  lemma SkipChangesNothing(lane: Lane, gmem: seq<Byte>)
    ensures Apply(Skip, lane) == lane && ApplyMemory(Skip, gmem) == gmem
  {
  }

  lemma SpreadOn(g: ItemGuard, lanes: seq<Lane>, first: Lane, o: Outcome)
    requires g.id < 8 && lanes != [] && On(g, lanes[0])
    requires o.Running? ==> |o.warp.lanes| == |Active(g, lanes[1..])|
    ensures o.Running? ==> Merge(g, lanes, [first] + o.warp.lanes) == [first] + Merge(g, lanes[1..], o.warp.lanes)
  {
    if o.Running? {
      assert ([first] + o.warp.lanes)[1..] == o.warp.lanes;
    }
  }

  /** Only a comparison changes a predicate, and only its destination. */
  lemma StepKeepsGuard(cfg: Config, a: A.Inst, g: ItemGuard, lane: Lane, gmem: seq<Byte>)
    requires g.id < 8 && MaskableAt(a, g.id)
    ensures On(g, StepLane(cfg, a, lane, gmem)) <==> On(g, lane)
  {
    hide Alu2, Alu3, CompareWords, Mask32, SpecialValue, FromBytes, ToBytes, TypeSize;
    EffectFits(cfg, a, lane, gmem);
    var e := LaneEffect(cfg, a, lane, gmem);
    assert e.SetPred? ==> a.opcode == A.CMPP && e.pred == a.dest;
    hide LaneEffect;
  }

  lemma {:induction false} ExecKeepsGuard(cfg: Config, a: A.Inst, g: ItemGuard, lanes: seq<Lane>, gmem: seq<Byte>)
    requires g.id < 8 && MaskableAt(a, g.id) && AllOn(g, lanes)
    ensures var o := ExecLanes(cfg, a, lanes, gmem);
            o.Running? ==> |o.warp.lanes| == |lanes| && AllOn(g, o.warp.lanes)
    decreases |lanes|
  {
    hide LaneEffect, StepLane, ApplyMemory, On, MaskableAt;
    if lanes != [] {
      StepKeepsGuard(cfg, a, g, lanes[0], gmem);
      ExecKeepsGuard(cfg, a, g, lanes[1..], ApplyMemory(LaneEffect(cfg, a, lanes[0], gmem), gmem));
    }
  }

  /**
   * Guarded code over a warp is the bare code over its active lanes; the others, and faults, are as if they ran alone.
   */
  lemma {:induction false} GuardedCodeMasks(cfg: Config, plan: Plan, i: nat, code: seq<A.Inst>, w: Warp)
    requires i in plan.guards && plan.guards[i].id < 8 && Maskable(code, plan.guards[i].id)
    ensures var g := plan.guards[i];
            var o := ExecSeq(cfg, code, Warp(Active(g, w.lanes), w.gmem));
            && (o.Running? ==> |o.warp.lanes| == |Active(g, w.lanes)| && AllOn(g, o.warp.lanes))
            && ExecSeq(cfg, EmitAll(plan, i, code), w) == Spread(g, w.lanes, o)
    decreases |code|
  {
    hide ExecLanes, On, MaskableAt, Merge, Active;
    var g := plan.guards[i];
    var active := Active(g, w.lanes);
    ActiveOn(g, w.lanes);
    if code == [] {
      MergeSelf(g, w.lanes);
    } else {
      HeadAndTail(plan, i, code);
      GuardedInstMasks(cfg, code[0], g, w.lanes, w.gmem);
      ExecKeepsGuard(cfg, code[0], g, active, w.gmem);
      var o := ExecLanes(cfg, code[0], active, w.gmem);
      if o.Running? {
        var w' := Warp(Merge(g, w.lanes, o.warp.lanes), o.warp.gmem);
        MergeActive(g, w.lanes, o.warp.lanes);
        GuardedCodeMasks(cfg, plan, i, code[1..], w');
        var o' := ExecSeq(cfg, code[1..], o.warp);
        if o'.Running? {
          MergeMerge(g, w.lanes, o.warp.lanes, o'.warp.lanes);
        }
      }
    }
  }

  lemma HeadAndTail(plan: Plan, i: nat, code: seq<A.Inst>)
    requires i in plan.guards && code != [] && Maskable(code, plan.guards[i].id)
    ensures var g := plan.guards[i];
            && EmitAll(plan, i, code)[0] == code[0].(guard := Some(g.id), negated := g.negated)
            && EmitAll(plan, i, code)[1..] == EmitAll(plan, i, code[1..])
            && code[0].guard.None? && MaskableAt(code[0], g.id) && Maskable(code[1..], g.id)
  {
    assert MaskableAt(code[0], plan.guards[i].id);
    forall k | 0 <= k < |code[1..]| ensures MaskableAt(code[1..][k], plan.guards[i].id) {
      assert code[1..][k] == code[k + 1];
    }
  }

  // ----- one lane -----

  lemma {:induction false} NobodyThere(cfg: Config, code: seq<A.Inst>, gmem: seq<Byte>)
    ensures ExecSeq(cfg, code, Warp([], gmem)) == Running(Warp([], gmem))
    decreases |code|
  {
    if code != [] {
      NobodyThere(cfg, code[1..], gmem);
    }
  }

  /** A lane whose guard is off passes over guarded code; one whose guard is on runs it bare and keeps its guard. */
  lemma OneLaneMasks(cfg: Config, plan: Plan, i: nat, code: seq<A.Inst>, lane: Lane, gmem: seq<Byte>)
    requires i in plan.guards && plan.guards[i].id < 8 && Maskable(code, plan.guards[i].id)
    ensures var g := plan.guards[i];
            var o := ExecSeq(cfg, EmitAll(plan, i, code), Warp([lane], gmem));
            && (!On(g, lane) ==> o == Running(Warp([lane], gmem)))
            && (On(g, lane) ==> o == ExecSeq(cfg, code, Warp([lane], gmem))
                                && (o.Running? ==> |o.warp.lanes| == 1 && On(g, o.warp.lanes[0])))
  {
    hide ExecSeq, EmitAll, On, Maskable;
    var g := plan.guards[i];
    GuardedCodeMasks(cfg, plan, i, code, Warp([lane], gmem));
    NobodyThere(cfg, code, gmem);
    OneLaneActive(g, lane);
    var o := ExecSeq(cfg, code, Warp([lane], gmem));
    if On(g, lane) && o.Running? {
      OneLaneMerge(g, lane, o.warp.lanes);
      assert Warp(o.warp.lanes, o.warp.gmem) == o.warp;
    }
  }

  lemma OneLaneActive(g: ItemGuard, lane: Lane)
    requires g.id < 8
    ensures Active(g, [lane]) == if On(g, lane) then [lane] else []
    ensures !On(g, lane) ==> Merge(g, [lane], []) == [lane]
  {
    assert [lane][1..] == [];
  }

  lemma OneLaneMerge(g: ItemGuard, lane: Lane, active: seq<Lane>)
    requires g.id < 8 && On(g, lane) && |active| == 1 && |Active(g, [lane])| == 1
    ensures Merge(g, [lane], active) == active
  {
    assert [lane][1..] == [] && active[1..] == [];
    assert [active[0]] + [] == active;
  }

  // ----- where masking fails -----

  /** No lane whose region guard is off executes the emitted instruction. */
  ghost predicate SkippedWhenMasked(cfg: Config, plan: Plan, i: nat, a: A.Inst)
    requires i in plan.guards && plan.guards[i].id < 8
  {
    forall lane: Lane, gmem :: !On(plan.guards[i], lane) ==>
        LaneEffect(cfg, WithItemGuard(plan, i, a), lane, gmem) == Skip
  }

  /** The instruction adopts the guard of its region, or has the same. */
  predicate TakesRegionGuard(plan: Plan, i: nat, a: A.Inst)
    requires i in plan.guards
  {
    a.guard.None? || (a.guard.value == plan.guards[i].id && a.negated == plan.guards[i].negated)
  }

  lemma ExecutedIsNoSkip(cfg: Config, a: A.Inst, lane: Lane, gmem: seq<Byte>)
    ensures Execute(cfg, a, lane, gmem) != Skip
  {
    hide Alu2, Alu3, CompareWords, SpecialValue, FromBytes, ToBytes, TypeSize, Mask32;
  }

  /** The region guard is off, and the guard of the instruction's own, if it is another, is on. */
  function EscapingLane(g: ItemGuard, a: A.Inst): Lane
    requires g.id < 8
  {
    var preds := if a.guard.Some? && a.guard.value < 8 then seq(8, _ => false)[a.guard.value := !a.negated]
        else seq(8, _ => false);
    Lane(seq(256, _ => 0), preds[g.id := g.negated], LaneId(0, 0, Dim(1, 1, 1), Dim(1, 1, 1), 1))
  }

  /** An instruction with a guard of its own does not take that of its region: masked lanes then execute it. */
  lemma OwnGuardEscapes(cfg: Config, plan: Plan, i: nat, a: A.Inst)
    requires i in plan.guards && plan.guards[i].id < 8
    ensures SkippedWhenMasked(cfg, plan, i, a) <==> TakesRegionGuard(plan, i, a)
  {
    hide Execute;
    if !TakesRegionGuard(plan, i, a) {
      var lane := EscapingLane(plan.guards[i], a);
      assert !On(plan.guards[i], lane);
      ExecutedIsNoSkip(cfg, a, lane, []);
      assert LaneEffect(cfg, WithItemGuard(plan, i, a), lane, []) != Skip;
    }
  }

  /** A return in a region becomes a guarded HALT, which the machine refuses whatever the guards are. */
  lemma RegionReturnFaults(cfg: Config, plan: Plan, i: nat, program: seq<A.Inst>, pc: nat, w: Warp)
    requires pc < |program| && program[pc] == WithItemGuard(plan, i, A.Inst(A.HALT))
    ensures Step(cfg, program, pc, w) == (if i in plan.guards then StepFault(w.gmem) else Stop(w))
  {
  }
}
