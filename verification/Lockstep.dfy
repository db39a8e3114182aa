/** A warp in lockstep computes what its lanes compute alone, one after the other, in any order. */
module Lockstep {
  import opened Wrappers
  import opened Words
  import opened Isa
  import opened Machine
  import opened Independence

  // ----- the bytes one lane touches -----

  predicate Guarded(inst: Inst, lane: Lane) {
    inst.guard.None? || (inst.guard.value < 8 && LaneTakes(inst, lane))
  }

  predicate InSpan(inst: Inst, lane: Lane, a: nat) {
    && Guarded(inst, lane)
    && inst.space == Some(Gmem) && inst.src1 < 256 && TypeSize(inst.dtype).Some?
    && Mask32(lane.regs[inst.src1]) <= a < Mask32(lane.regs[inst.src1]) + TypeSize(inst.dtype).value
  }

  predicate LoadsByte(inst: Inst, lane: Lane, a: nat) {
    inst.opcode == LD && InSpan(inst, lane, a)
  }

  predicate StoresByte(inst: Inst, lane: Lane, a: nat) {
    inst.opcode == ST && InSpan(inst, lane, a)
  }

  /** Somewhere in the run, lane `k` loads byte `a`. */
  ghost predicate EverLoads(cfg: Config, p: seq<Inst>, pc: int, w: Warp, fuel: nat, k: nat, a: nat)
    decreases fuel
  {
    && 0 <= pc < |p| && fuel > 0 && k < |w.lanes|
    && (LoadsByte(p[pc], w.lanes[k], a)
        || (Step(cfg, p, pc, w).Next?
            && EverLoads(cfg, p, Step(cfg, p, pc, w).pc, Step(cfg, p, pc, w).warp, fuel - 1, k, a)))
  }

  /** Somewhere in the run, lane `k` stores to byte `a`. */
  ghost predicate EverStores(cfg: Config, p: seq<Inst>, pc: int, w: Warp, fuel: nat, k: nat, a: nat)
    decreases fuel
  {
    && 0 <= pc < |p| && fuel > 0 && k < |w.lanes|
    && (StoresByte(p[pc], w.lanes[k], a)
        || (Step(cfg, p, pc, w).Next?
            && EverStores(cfg, p, Step(cfg, p, pc, w).pc, Step(cfg, p, pc, w).warp, fuel - 1, k, a)))
  }

  /** No lane stores to a byte that another lane loads or stores. */
  ghost predicate NonInterfering(cfg: Config, p: seq<Inst>, w: Warp, fuel: nat) {
    && (forall j: nat, k: nat, a: nat | EverStores(cfg, p, 0, w, fuel, j, a) && EverLoads(cfg, p, 0, w, fuel, k, a) ::
          j == k)
    && (forall j: nat, k: nat, a: nat | EverStores(cfg, p, 0, w, fuel, j, a) && EverStores(cfg, p, 0, w, fuel, k, a) ::
          j == k)
  }

  ghost predicate AgreeOutside(g1: seq<Byte>, g2: seq<Byte>, hidden: iset<nat>) {
    |g1| == |g2| && forall a: nat | a < |g1| && a !in hidden :: g1[a] == g2[a]
  }

  // ----- one instruction -----

  /** A lane sees memory only through the bytes it loads. */
  lemma EffectFromLoadedBytes(cfg: Config, inst: Inst, lane: Lane, g1: seq<Byte>, g2: seq<Byte>)
    requires |g1| == |g2| && forall a: nat | a < |g1| && LoadsByte(inst, lane, a) :: g1[a] == g2[a]
    ensures LaneEffect(cfg, inst, lane, g1) == LaneEffect(cfg, inst, lane, g2)
  {
    if inst.opcode != LD {
      EffectIgnoresMemory(cfg, inst, lane, g1, g2);
    } else if Guarded(inst, lane) && inst.space == Some(Gmem) && inst.src1 < 256 && TypeSize(inst.dtype).Some? {
      var address := Mask32(lane.regs[inst.src1]);
      var size := TypeSize(inst.dtype).value;
      if address + size <= |g1| {
        forall k | address <= k < address + size ensures g1[k] == g2[k] {
          assert LoadsByte(inst, lane, k);
        }
        assert g1[address..address + size] == g2[address..address + size];
      }
    }
  }

  lemma StoreEffectSpan(cfg: Config, inst: Inst, lane: Lane, gmem: seq<Byte>)
    ensures var e := LaneEffect(cfg, inst, lane, gmem);
            match e
            case Store(address, blob) =>
              && inst.opcode == ST && address + |blob| <= |gmem|
              && forall a: nat :: StoresByte(inst, lane, a) <==> address <= a < address + |blob|
            case Trap => true
            case _ => forall a: nat :: !StoresByte(inst, lane, a)
  {
  }

  lemma ApplyMemoryFrame(cfg: Config, inst: Inst, lane: Lane, gmem: seq<Byte>, a: nat)
    requires a < |gmem| && !LaneEffect(cfg, inst, lane, gmem).Trap?
    ensures var g := ApplyMemory(LaneEffect(cfg, inst, lane, gmem), gmem);
            !StoresByte(inst, lane, a) ==> g[a] == gmem[a]
  {
    StoreEffectSpan(cfg, inst, lane, gmem);
  }

  /** The byte a lane's store leaves at an address it covers does not depend on the rest of memory. */
  lemma StoredByte(cfg: Config, inst: Inst, lane: Lane, g1: seq<Byte>, g2: seq<Byte>, a: nat)
    requires |g1| == |g2| && a < |g1| && StoresByte(inst, lane, a)
    requires !LaneEffect(cfg, inst, lane, g1).Trap?
    ensures LaneEffect(cfg, inst, lane, g2) == LaneEffect(cfg, inst, lane, g1)
    ensures ApplyMemory(LaneEffect(cfg, inst, lane, g1), g1)[a] == ApplyMemory(LaneEffect(cfg, inst, lane, g2), g2)[a]
  {
    EffectIgnoresMemory(cfg, inst, lane, g1, g2);
    StoreEffectSpan(cfg, inst, lane, g1);
  }

  /** Between two lanes of one instruction memory only changes under a store, which does not look at it. */
  lemma EffectUnmovedByNeighbour(cfg: Config, inst: Inst, first: Lane, other: Lane, gmem: seq<Byte>)
    ensures LaneEffect(cfg, inst, other, ApplyMemory(LaneEffect(cfg, inst, first, gmem), gmem))
         == LaneEffect(cfg, inst, other, gmem)
  {
    EffectTargets(cfg, inst, first, gmem);
    if inst.opcode == ST {
      EffectIgnoresMemory(cfg, inst, other, ApplyMemory(LaneEffect(cfg, inst, first, gmem), gmem), gmem);
    }
  }

  /** A successful lockstep instruction steps every lane as if alone. */
  lemma {:induction false} ExecLaneAt(cfg: Config, inst: Inst, lanes: seq<Lane>, gmem: seq<Byte>, k: nat)
    requires ExecLanes(cfg, inst, lanes, gmem).Running? && k < |lanes|
    ensures var w := ExecLanes(cfg, inst, lanes, gmem).warp;
            && |w.lanes| == |lanes|
            && !LaneEffect(cfg, inst, lanes[k], gmem).Trap?
            && w.lanes[k] == StepLane(cfg, inst, lanes[k], gmem)
    decreases |lanes|
  {
    hide Execute;
    var g := ApplyMemory(LaneEffect(cfg, inst, lanes[0], gmem), gmem);
    ExecKeepsShape(cfg, inst, lanes[1..], g);
    if k > 0 {
      ExecLaneAt(cfg, inst, lanes[1..], g, k - 1);
      EffectUnmovedByNeighbour(cfg, inst, lanes[0], lanes[k], gmem);
    }
  }

  /** Bytes no lane stores to keep their value. */
  lemma {:induction false} ExecKeepsByte(cfg: Config, inst: Inst, lanes: seq<Lane>, gmem: seq<Byte>, a: nat)
    requires ExecLanes(cfg, inst, lanes, gmem).Running? && a < |gmem|
    requires forall j | 0 <= j < |lanes| :: !StoresByte(inst, lanes[j], a)
    ensures var w := ExecLanes(cfg, inst, lanes, gmem).warp; |w.gmem| == |gmem| && w.gmem[a] == gmem[a]
    decreases |lanes|
  {
    hide LaneEffect, StoresByte;
    if lanes != [] {
      ApplyMemoryFrame(cfg, inst, lanes[0], gmem, a);
      ExecKeepsByte(cfg, inst, lanes[1..], ApplyMemory(LaneEffect(cfg, inst, lanes[0], gmem), gmem), a);
    }
  }

  /** A byte only lane `k` stores to gets the value lane `k` gives it. */
  lemma {:induction false} ExecSetsByte(cfg: Config, inst: Inst, lanes: seq<Lane>, gmem: seq<Byte>, k: nat, a: nat)
    requires ExecLanes(cfg, inst, lanes, gmem).Running? && a < |gmem| && k < |lanes|
    requires StoresByte(inst, lanes[k], a)
    requires forall j | 0 <= j < |lanes| && j != k :: !StoresByte(inst, lanes[j], a)
    ensures var w := ExecLanes(cfg, inst, lanes, gmem).warp;
            |w.gmem| == |gmem| && w.gmem[a] == ApplyMemory(LaneEffect(cfg, inst, lanes[k], gmem), gmem)[a]
    decreases |lanes|
  {
    hide LaneEffect, StoresByte;
    var g := ApplyMemory(LaneEffect(cfg, inst, lanes[0], gmem), gmem);
    if k == 0 {
      ExecKeepsByte(cfg, inst, lanes[1..], g, a);
    } else {
      ExecSetsByte(cfg, inst, lanes[1..], g, k - 1, a);
      ExecLaneAt(cfg, inst, lanes, gmem, k);
      StoredByte(cfg, inst, lanes[k], gmem, g, a);
    }
  }

  // ----- one lane alone -----

  /** The bytes that lanes other than `k` store to from here on. */
  ghost predicate OthersStore(cfg: Config, p: seq<Inst>, pc: int, w: Warp, fuel: nat, k: nat, a: nat) {
    exists j: nat :: j != k && EverStores(cfg, p, pc, w, fuel, j, a)
  }

  /** Lane `k` can run alone on a memory that differs from the warp's in the bytes of `hidden`. */
  ghost predicate Separated(cfg: Config, p: seq<Inst>, pc: int, w: Warp, fuel: nat, k: nat, hidden: iset<nat>) {
    && (forall a: nat | OthersStore(cfg, p, pc, w, fuel, k, a) :: a in hidden)
    && (forall a: nat | a in hidden :: !EverLoads(cfg, p, pc, w, fuel, k, a) && !EverStores(cfg, p, pc, w, fuel, k, a))
  }

  /** One ordinary instruction keeps lane `k` alone in step with the warp. */
  lemma AloneStep(cfg: Config, inst: Inst, w: Warp, k: nat, g: seq<Byte>, hidden: iset<nat>)
    requires Exec(cfg, inst, w).Running? && k < |w.lanes| && AgreeOutside(g, w.gmem, hidden)
    requires forall j: nat, a: nat | j < |w.lanes| && j != k && StoresByte(inst, w.lanes[j], a) :: a in hidden
    requires forall a | a in hidden :: !LoadsByte(inst, w.lanes[k], a) && !StoresByte(inst, w.lanes[k], a)
    ensures var w' := Exec(cfg, inst, w).warp;
            && |w'.lanes| == |w.lanes|
            && exists g' :: Exec(cfg, inst, Warp([w.lanes[k]], g)) == Running(Warp([w'.lanes[k]], g'))
                            && AgreeOutside(g', w'.gmem, hidden)
                            && |g'| == |g| && forall a: nat | a < |g|
                                && !StoresByte(inst, w.lanes[k], a) :: g'[a] == g[a]
  {
    hide LaneEffect, StoresByte, LoadsByte;
    var lane, w' := w.lanes[k], Exec(cfg, inst, w).warp;
    ExecLaneAt(cfg, inst, w.lanes, w.gmem, k);
    EffectFromLoadedBytes(cfg, inst, lane, g, w.gmem);
    ExecKeepsShape(cfg, inst, w.lanes, w.gmem);
    var e := LaneEffect(cfg, inst, lane, g);
    var g' := ApplyMemory(e, g);
    ExecAlone(cfg, inst, lane, g);
    forall a: nat | a < |g| && a !in hidden ensures g'[a] == w'.gmem[a] {
      if StoresByte(inst, lane, a) {
        ExecSetsByte(cfg, inst, w.lanes, w.gmem, k, a);
        StoredByte(cfg, inst, lane, g, w.gmem, a);
      } else {
        ApplyMemoryFrame(cfg, inst, lane, g, a);
        ExecKeepsByte(cfg, inst, w.lanes, w.gmem, a);
      }
    }
    forall a: nat | a < |g| && !StoresByte(inst, lane, a) ensures g'[a] == g[a] {
      ApplyMemoryFrame(cfg, inst, lane, g, a);
    }
  }

  /** Lane `k` alone takes the same branch as the whole warp: branches are uniform or the warp stops. */
  lemma BranchAlone(inst: Inst, lanes: seq<Lane>, pc: int, k: nat)
    requires k < |lanes| && BranchTarget(inst, lanes, pc).Some?
    ensures BranchTarget(inst, [lanes[k]], pc) == BranchTarget(inst, lanes, pc)
  {
    var alone := [lanes[k]];
    if forall i | 0 <= i < |lanes| :: LaneTakes(inst, lanes[i]) {
      assert forall i | 0 <= i < |alone| :: alone[i] == lanes[k];
      assert forall i | 0 <= i < |alone| :: LaneTakes(inst, alone[i]);
    } else {
      assert forall i | 0 <= i < |lanes| :: !LaneTakes(inst, lanes[i]);
      assert !LaneTakes(inst, alone[0]);
    }
  }

  /** One turn of the warp loop, seen by lane `k` alone. */
  lemma AloneTurn(cfg: Config, p: seq<Inst>, pc: int, w: Warp, k: nat, g: seq<Byte>, hidden: iset<nat>)
    returns (g': seq<Byte>)
    requires 0 <= pc < |p| && Step(cfg, p, pc, w).Next? && k < |w.lanes| && AgreeOutside(g, w.gmem, hidden)
    requires forall j: nat, a: nat | j < |w.lanes| && j != k && StoresByte(p[pc], w.lanes[j], a) :: a in hidden
    requires forall a | a in hidden :: !LoadsByte(p[pc], w.lanes[k], a) && !StoresByte(p[pc], w.lanes[k], a)
    ensures var next := Step(cfg, p, pc, w);
            && |next.warp.lanes| == |w.lanes|
            && Step(cfg, p, pc, Warp([w.lanes[k]], g)) == Next(next.pc, Warp([next.warp.lanes[k]], g'))
            && AgreeOutside(g', next.warp.gmem, hidden)
    ensures |g'| == |g| && forall a: nat | a < |g| && !StoresByte(p[pc], w.lanes[k], a) :: g'[a] == g[a]
  {
    hide Exec, BranchTarget, StoresByte, LoadsByte;
    var inst := p[pc];
    g' := g;
    if inst.opcode == BRX {
      BranchAlone(inst, w.lanes, pc, k);
    } else if inst.opcode != BR {
      AloneStep(cfg, inst, w, k, g, hidden);
      g' :| Exec(cfg, inst, Warp([w.lanes[k]], g)) == Running(Warp([Exec(cfg, inst, w).warp.lanes[k]], g'))
            && AgreeOutside(g', Exec(cfg, inst, w).warp.gmem, hidden)
            && |g'| == |g| && forall a: nat | a < |g| && !StoresByte(inst, w.lanes[k], a) :: g'[a] == g[a];
    }
  }

  /** Separation carries over to the rest of the run. */
  lemma SeparatedNext(cfg: Config, p: seq<Inst>, pc: int, w: Warp, fuel: nat, k: nat, hidden: iset<nat>)
    requires 0 <= pc < |p| && fuel > 0 && k < |w.lanes| && Step(cfg, p, pc, w).Next?
    requires |Step(cfg, p, pc, w).warp.lanes| == |w.lanes|
    requires Separated(cfg, p, pc, w, fuel, k, hidden)
    ensures Separated(cfg, p, Step(cfg, p, pc, w).pc, Step(cfg, p, pc, w).warp, fuel - 1, k, hidden)
    ensures forall j: nat, a: nat | j < |w.lanes| && j != k && StoresByte(p[pc], w.lanes[j], a) :: a in hidden
    ensures forall a | a in hidden :: !LoadsByte(p[pc], w.lanes[k], a) && !StoresByte(p[pc], w.lanes[k], a)
  {
    hide Step, StoresByte, LoadsByte;
    var pc', w' := Step(cfg, p, pc, w).pc, Step(cfg, p, pc, w).warp;
    forall a: nat | OthersStore(cfg, p, pc', w', fuel - 1, k, a) ensures a in hidden {
      var j: nat :| j != k && EverStores(cfg, p, pc', w', fuel - 1, j, a);
      assert j < |w'.lanes| && EverStores(cfg, p, pc, w, fuel, j, a);
      assert OthersStore(cfg, p, pc, w, fuel, k, a);
    }
    forall j: nat, a: nat | j < |w.lanes| && j != k && StoresByte(p[pc], w.lanes[j], a) ensures a in hidden {
      assert EverStores(cfg, p, pc, w, fuel, j, a);
      assert OthersStore(cfg, p, pc, w, fuel, k, a);
    }
  }

  /** The whole run of lane `k` alone, from any memory that differs from the warp's only in hidden bytes. */
  lemma {:induction false} AloneRun(cfg: Config, p: seq<Inst>, pc: int, w: Warp, fuel: nat, k: nat,
                                    g: seq<Byte>, hidden: iset<nat>) returns (g': seq<Byte>)
    requires Run(cfg, p, pc, w, fuel).Halted? && k < |w.lanes| && AgreeOutside(g, w.gmem, hidden)
    requires Separated(cfg, p, pc, w, fuel, k, hidden)
    ensures var final := Run(cfg, p, pc, w, fuel).warp;
            && |final.lanes| == |w.lanes|
            && Run(cfg, p, pc, Warp([w.lanes[k]], g), fuel) == Halted(Warp([final.lanes[k]], g'))
            && AgreeOutside(g', final.gmem, hidden)
    ensures |g'| == |g| && forall a: nat | a < |g| && !EverStores(cfg, p, pc, w, fuel, k, a) :: g'[a] == g[a]
    decreases fuel
  {
    hide Exec, BranchTarget, StoresByte, LoadsByte, Separated;
    g' := g;
    if Step(cfg, p, pc, w).Next? {
      StepKeepsLanes(cfg, p, pc, w);
      SeparatedNext(cfg, p, pc, w, fuel, k, hidden);
      var g1 := AloneTurn(cfg, p, pc, w, k, g, hidden);
      var next := Step(cfg, p, pc, w);
      g' := AloneRun(cfg, p, next.pc, next.warp, fuel - 1, k, g1, hidden);
    }
  }

  lemma StepKeepsLanes(cfg: Config, p: seq<Inst>, pc: int, w: Warp)
    requires Step(cfg, p, pc, w).Next?
    ensures |Step(cfg, p, pc, w).warp.lanes| == |w.lanes| && |Step(cfg, p, pc, w).warp.gmem| == |w.gmem|
  {
    ExecKeepsShape(cfg, p[pc], w.lanes, w.gmem);
    hide ExecLanes;
  }

  /** Bytes that no lane ever stores to come out as they went in. */
  lemma {:induction false} RunKeepsByte(cfg: Config, p: seq<Inst>, pc: int, w: Warp, fuel: nat, a: nat)
    requires Run(cfg, p, pc, w, fuel).Halted? && a < |w.gmem|
    requires forall j: nat :: !EverStores(cfg, p, pc, w, fuel, j, a)
    ensures var final := Run(cfg, p, pc, w, fuel).warp;
            && |final.lanes| == |w.lanes| && |final.gmem| == |w.gmem| && final.gmem[a] == w.gmem[a]
    decreases fuel
  {
    hide ExecLanes, BranchTarget, StoresByte;
    if Step(cfg, p, pc, w).Next? {
      StepKeepsLanes(cfg, p, pc, w);
      var pc', w', rest := Step(cfg, p, pc, w).pc, Step(cfg, p, pc, w).warp, fuel - 1;
      forall j | 0 <= j < |w.lanes| ensures !StoresByte(p[pc], w.lanes[j], a) {
        assert !EverStores(cfg, p, pc, w, fuel, j, a);
      }
      forall j: nat ensures !EverStores(cfg, p, pc', w', rest, j, a) {
        assert !EverStores(cfg, p, pc, w, fuel, j, a);
      }
      if !IsBranch(p[pc]) {
        ExecKeepsByte(cfg, p[pc], w.lanes, w.gmem, a);
      }
      RunKeepsByte(cfg, p, pc', w', rest, a);
    }
  }

  // ----- all lanes, one after the other -----

  datatype SerialResult = Serial(lanes: seq<Lane>, gmem: seq<Byte>) | Stuck

  /** Run the listed lanes to completion one at a time, each on the memory its predecessors left. */
  function RunSerially(cfg: Config, p: seq<Inst>, lanes: seq<Lane>, gmem: seq<Byte>, order: seq<nat>, fuel: nat)
    : SerialResult
    requires forall i | 0 <= i < |order| :: order[i] < |lanes|
    decreases |order|
  {
    if order == [] then Serial(lanes, gmem)
    else
      match Run(cfg, p, 0, Warp([lanes[order[0]]], gmem), fuel)
      case Halted(w) =>
        if |w.lanes| == 1 then RunSerially(cfg, p, lanes[order[0] := w.lanes[0]], w.gmem, order[1..], fuel) else Stuck
      case _ => Stuck
  }

  /** Part way through: lanes still waiting are as launched, and so are the bytes only they store to. */
  ghost predicate PartWay(cfg: Config, p: seq<Inst>, w: Warp, fuel: nat, waiting: seq<nat>,
                          lanes: seq<Lane>, gmem: seq<Byte>)
    requires Run(cfg, p, 0, w, fuel).Halted?
  {
    var final := Run(cfg, p, 0, w, fuel).warp;
    && |lanes| == |w.lanes| == |final.lanes| && |gmem| == |w.gmem| == |final.gmem|
    && (forall k: nat | k < |lanes| :: lanes[k] == if k in waiting then w.lanes[k] else final.lanes[k])
    && (forall a: nat | a < |gmem| ::
          gmem[a] == if exists k: nat :: k in waiting && EverStores(cfg, p, 0, w, fuel, k, a)
                     then w.gmem[a] else final.gmem[a])
  }

  lemma {:induction false} SerialFromPartWay(cfg: Config, p: seq<Inst>, w: Warp, fuel: nat, waiting: seq<nat>,
                                             lanes: seq<Lane>, gmem: seq<Byte>)
    requires Run(cfg, p, 0, w, fuel).Halted? && NonInterfering(cfg, p, w, fuel)
    requires PartWay(cfg, p, w, fuel, waiting, lanes, gmem)
    requires forall i | 0 <= i < |waiting| :: waiting[i] < |lanes|
    requires forall i, j | 0 <= i < j < |waiting| :: waiting[i] != waiting[j]
    ensures var final := Run(cfg, p, 0, w, fuel).warp;
            RunSerially(cfg, p, lanes, gmem, waiting, fuel) == Serial(final.lanes, final.gmem)
    decreases |waiting|
  {
    hide Run, EverStores, EverLoads;
    var final := Run(cfg, p, 0, w, fuel).warp;
    if waiting == [] {
      assert lanes == final.lanes && gmem == final.gmem;
    } else {
      var k, rest := waiting[0], waiting[1..];
      assert waiting == [k] + rest;
      var hidden := iset a: nat | OthersStore(cfg, p, 0, w, fuel, k, a);
      forall a: nat | a < |gmem| && a !in hidden ensures gmem[a] == w.gmem[a] {
        UntouchedByOthers(cfg, p, w, fuel, k, a, waiting, gmem);
      }
      var g' := AloneRun(cfg, p, 0, w, fuel, k, gmem, hidden);
      var lanes' := lanes[k := final.lanes[k]];
      PartWayNext(cfg, p, w, fuel, waiting, lanes, gmem, g', hidden);
      SerialFromPartWay(cfg, p, w, fuel, rest, lanes', g');
    }
  }

  lemma UntouchedByOthers(cfg: Config, p: seq<Inst>, w: Warp, fuel: nat, k: nat, a: nat,
                          waiting: seq<nat>, gmem: seq<Byte>)
    requires Run(cfg, p, 0, w, fuel).Halted? && |gmem| == |w.gmem| && a < |gmem| && k in waiting
    requires gmem[a] == w.gmem[a] || |gmem| == |Run(cfg, p, 0, w, fuel).warp.gmem|
    requires |gmem| == |Run(cfg, p, 0, w, fuel).warp.gmem| ==>
               gmem[a] == if exists k: nat :: k in waiting && EverStores(cfg, p, 0, w, fuel, k, a)
                          then w.gmem[a] else Run(cfg, p, 0, w, fuel).warp.gmem[a]
    requires !OthersStore(cfg, p, 0, w, fuel, k, a)
    ensures gmem[a] == w.gmem[a]
  {
    hide Run, EverStores;
    if !EverStores(cfg, p, 0, w, fuel, k, a) {
      forall j: nat ensures !EverStores(cfg, p, 0, w, fuel, j, a) {
      }
      RunKeepsByte(cfg, p, 0, w, fuel, a);
    }
  }

  lemma OnlyOneStores(cfg: Config, p: seq<Inst>, w: Warp, fuel: nat, j: nat, k: nat, a: nat)
    requires NonInterfering(cfg, p, w, fuel) && j != k && EverStores(cfg, p, 0, w, fuel, j, a)
    ensures !EverStores(cfg, p, 0, w, fuel, k, a)
  {
  }

  lemma PartWayNext(cfg: Config, p: seq<Inst>, w: Warp, fuel: nat, waiting: seq<nat>,
                    lanes: seq<Lane>, gmem: seq<Byte>, g': seq<Byte>, hidden: iset<nat>)
    requires Run(cfg, p, 0, w, fuel).Halted? && NonInterfering(cfg, p, w, fuel)
    requires waiting != [] && waiting[0] < |lanes|
    requires forall i, j | 0 <= i < j < |waiting| :: waiting[i] != waiting[j]
    requires PartWay(cfg, p, w, fuel, waiting, lanes, gmem)
    requires hidden == iset a: nat | OthersStore(cfg, p, 0, w, fuel, waiting[0], a)
    requires AgreeOutside(g', Run(cfg, p, 0, w, fuel).warp.gmem, hidden)
    requires forall a: nat | a < |gmem| && !EverStores(cfg, p, 0, w, fuel, waiting[0], a) :: g'[a] == gmem[a]
    ensures PartWay(cfg, p, w, fuel, waiting[1..],
                    lanes[waiting[0] := Run(cfg, p, 0, w, fuel).warp.lanes[waiting[0]]], g')
  {
    hide Run, EverStores, EverLoads;
    var k, rest, final := waiting[0], waiting[1..], Run(cfg, p, 0, w, fuel).warp;
    assert waiting == [k] + rest;
    assert k !in rest;
    forall a: nat | a < |g'|
      ensures g'[a] == if exists j: nat :: j in rest && EverStores(cfg, p, 0, w, fuel, j, a)
                       then w.gmem[a] else final.gmem[a]
    {
      if EverStores(cfg, p, 0, w, fuel, k, a) {
        forall j: nat | j != k ensures !EverStores(cfg, p, 0, w, fuel, j, a) {
          OnlyOneStores(cfg, p, w, fuel, k, j, a);
        }
        assert a !in hidden;
      } else {
        assert (exists j: nat :: j in rest && EverStores(cfg, p, 0, w, fuel, j, a))
          <==> (exists j: nat :: j in waiting && EverStores(cfg, p, 0, w, fuel, j, a));
      }
    }
  }

  /** Lockstep equals lane by lane: if the warp halts and no lane stores to bytes another lane touches,
      running the lanes alone in any order gives the same lanes and the same memory. */
  lemma LockstepIsSerial(cfg: Config, p: seq<Inst>, w: Warp, fuel: nat, order: seq<nat>)
    requires Run(cfg, p, 0, w, fuel).Halted? && NonInterfering(cfg, p, w, fuel)
    requires forall i | 0 <= i < |order| :: order[i] < |w.lanes|
    requires forall i, j | 0 <= i < j < |order| :: order[i] != order[j]
    requires forall k: nat | k < |w.lanes| :: k in order
    ensures RunSerially(cfg, p, w.lanes, w.gmem, order, fuel)
         == Serial(Run(cfg, p, 0, w, fuel).warp.lanes, Run(cfg, p, 0, w, fuel).warp.gmem)
  {
    RunKeepsShape(cfg, p, 0, w, fuel);
    var final := Run(cfg, p, 0, w, fuel).warp;
    forall a: nat | a < |w.gmem|
      ensures w.gmem[a] == if exists k: nat :: k in order && EverStores(cfg, p, 0, w, fuel, k, a)
                           then w.gmem[a] else final.gmem[a]
    {
      if forall k: nat :: k in order ==> !EverStores(cfg, p, 0, w, fuel, k, a) {
        forall j: nat ensures !EverStores(cfg, p, 0, w, fuel, j, a) {
          assert j < |w.lanes| ==> j in order;
        }
        RunKeepsByte(cfg, p, 0, w, fuel, a);
      }
    }
    hide Run, EverStores, EverLoads;
    SerialFromPartWay(cfg, p, w, fuel, order, w.lanes, w.gmem);
  }

  lemma {:induction false} RunKeepsShape(cfg: Config, p: seq<Inst>, pc: int, w: Warp, fuel: nat)
    requires Run(cfg, p, pc, w, fuel).Halted?
    ensures |Run(cfg, p, pc, w, fuel).warp.lanes| == |w.lanes|
    ensures |Run(cfg, p, pc, w, fuel).warp.gmem| == |w.gmem|
    decreases fuel
  {
    hide ExecLanes, BranchTarget;
    if Step(cfg, p, pc, w).Next? {
      StepKeepsLanes(cfg, p, pc, w);
      RunKeepsShape(cfg, p, Step(cfg, p, pc, w).pc, Step(cfg, p, pc, w).warp, fuel - 1);
    }
  }
}
