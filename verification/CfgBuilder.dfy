/** Basic blocks of a PTX program, and why their edges are the program's control transfers. */
module CfgBuilder {
  import opened Wrappers
  import opened Lists
  import opened Ptx

  datatype CfgError = DuplicateLabel(name: string) | MalformedBranch(item: nat) | UndefinedTarget(item: nat)
                    | DuplicateBlock(name: string)

  datatype TermKind = ConditionalBranch | UnconditionalBranch | Return | Fallthrough

  /** `terminator_kind`. */
  function TerminatorKind(inst: Inst): TermKind {
    match inst.op.base
    case Bra => if inst.guard.Some? then ConditionalBranch else UnconditionalBranch
    case Ret => Return
    case _ => Fallthrough
  }

  predicate EndsBlock(item: Item) {
    item.Code? && TerminatorKind(item.inst) != Fallthrough
  }

  predicate IsBra(item: Item) {
    item.Code? && item.inst.op.base == Bra
  }

  predicate HasTarget(item: Item) {
    IsBra(item) && |item.inst.operands| == 1 && item.inst.operands[0].Target?
  }

  function TargetOf(item: Item): string
    requires HasTarget(item)
  {
    item.inst.operands[0].name
  }

  // ----- item-level control transfer -----

  /** Control may go from item `i` to index `j`; the index past the end means falling off the program. */
  predicate Transfers(items: seq<Item>, i: nat, j: nat) {
    && i < |items|
    && if EndsBlock(items[i]) then
         || (HasTarget(items[i]) && j < |items| && items[j] == Label(TargetOf(items[i])))
         || (TerminatorKind(items[i].inst) == ConditionalBranch && j == i + 1)
       else j == i + 1
  }

  predicate DistinctLabels(items: seq<Item>) {
    forall i, j | 0 <= i < j < |items| && items[i].Label? :: items[i] != items[j]
  }

  predicate GoodBranches(items: seq<Item>) {
    forall i | 0 <= i < |items| && IsBra(items[i]) ::
      HasTarget(items[i]) && exists j | 0 <= j < |items| :: items[j] == Label(TargetOf(items[i]))
  }

  /** A return under a guard ends its block although the thread may carry on behind it. */
  predicate NoGuardedReturn(items: seq<Item>) {
    forall i | 0 <= i < |items| && items[i].Code? && items[i].inst.op.base == Ret :: items[i].inst.guard.None?
  }

  lemma StepTransfers(host: Host, items: seq<Item>, pc: nat, s: State)
    requires NoGuardedReturn(items) && Step(host, items, pc, s).Next?
    ensures Transfers(items, pc, Step(host, items, pc, s).pc)
  {
  }

  /** The next item of a thread is one that control can be transferred to. */
  ghost predicate MovesAlong(host: Host, items: seq<Item>, pc: nat, s: State) {
    Step(host, items, pc, s).Next? ==> Transfers(items, pc, Step(host, items, pc, s).pc)
  }

  /** All threads, from all states, move along transfers only, exactly if no return is guarded. */
  lemma ThreadsMoveAlongTransfers(host: Host, items: seq<Item>)
    ensures (forall pc: nat, s: State :: MovesAlong(host, items, pc, s)) <==> NoGuardedReturn(items)
  {
    if NoGuardedReturn(items) {
      forall pc: nat, s: State ensures MovesAlong(host, items, pc, s) {
        if Step(host, items, pc, s).Next? {
          StepTransfers(host, items, pc, s);
        }
      }
    } else {
      var i :| 0 <= i < |items| && items[i].Code? && items[i].inst.op.base == Ret && items[i].inst.guard.Some?;
      var inst := items[i].inst;
      var s := State(map[inst.guard.value := if inst.negated then 1 else 0], []);
      assert !GuardHolds(inst, s.regs) && Step(host, items, i, s) == Next(i + 1, s);
      assert !MovesAlong(host, items, i, s);
    }
  }

  /** Some state lets a thread go from item `i` to index `j`. */
  ghost predicate CanGo(host: Host, items: seq<Item>, i: nat, j: nat) {
    exists s: State :: Step(host, items, i, s).Next? && Step(host, items, i, s).pc == j
  }

  /** Some state lets a thread go on from item `i` at all. */
  ghost predicate CanStep(host: Host, items: seq<Item>, i: nat) {
    exists s: State :: Step(host, items, i, s).Next?
  }

  lemma LabelFound(items: seq<Item>, name: string, j: nat)
    requires DistinctLabels(items) && j < |items| && items[j] == Label(name)
    ensures FindLabel(items, name, 0) == Some(j)
  {
    var at := FindLabel(items, name, 0);
    assert at.Some? && items[at.value] == items[j];
  }

  /** From an item a thread can leave at all it can take every transfer. */
  lemma TransferHappens(host: Host, items: seq<Item>, i: nat, j: nat)
    requires DistinctLabels(items) && NoGuardedReturn(items) && CanStep(host, items, i) && Transfers(items, i, j)
    ensures CanGo(host, items, i, j)
  {
    var s: State :| Step(host, items, i, s).Next?;
    StepTransfers(host, items, i, s);
    if IsBra(items[i]) {
      var inst := items[i].inst;
      var on, off := if inst.negated then 0 else 1, if inst.negated then 1 else 0;
      var taken := if inst.guard.Some? then State(map[inst.guard.value := on], []) else State(map[], []);
      var passed := if inst.guard.Some? then State(map[inst.guard.value := off], []) else State(map[], []);
      assert GuardHolds(inst, taken.regs) && (inst.guard.Some? ==> !GuardHolds(inst, passed.regs));
      if HasTarget(items[i]) && j < |items| && items[j] == Label(TargetOf(items[i])) {
        LabelFound(items, TargetOf(items[i]), j);
        assert Step(host, items, i, taken) == Next(j, taken);
      } else {
        assert Step(host, items, i, passed) == Next(j, passed);
      }
    }
  }

  /** Where a thread can go on at all, the transfers are exactly the moves it can make. */
  lemma TransfersExactly(host: Host, items: seq<Item>, i: nat, j: nat)
    requires DistinctLabels(items) && NoGuardedReturn(items) && CanStep(host, items, i)
    ensures Transfers(items, i, j) <==> CanGo(host, items, i, j)
  {
    hide Transfers, Step;
    if Transfers(items, i, j) {
      TransferHappens(host, items, i, j);
    }
    if CanGo(host, items, i, j) {
      var s: State :| Step(host, items, i, s).Next? && Step(host, items, i, s).pc == j;
      StepTransfers(host, items, i, s);
    }
  }

  // ----- blocks -----

  predicate IsLeader(items: seq<Item>, k: nat) {
    k == 0 || (k < |items| && (items[k].Label? || EndsBlock(items[k - 1])))
  }

  /** `starts` are the leaders in order. */
  ghost predicate IsPartition(items: seq<Item>, starts: seq<nat>) {
    && Increasing(starts) && |starts| > 0 && starts[0] == 0
    && forall k: nat :: k in starts <==> IsLeader(items, k)
  }

  function EndOf(items: seq<Item>, starts: seq<nat>, b: nat): nat
    requires b < |starts|
  {
    if b + 1 < |starts| then starts[b + 1] else |items|
  }

  /** The instruction items in `s..e`, in order. */
  function CodeIndices(items: seq<Item>, s: nat, e: nat): (r: seq<nat>)
    requires e <= |items|
    ensures forall i | i in r :: s <= i < e && items[i].Code?
    ensures forall i: nat | s <= i < e && items[i].Code? :: i in r
    decreases e
  {
    if e <= s then [] else CodeIndices(items, s, e - 1) + if items[e - 1].Code? then [e - 1] else []
  }

  /** The labels in `s..e`, in order. */
  function LabelsIn(items: seq<Item>, s: nat, e: nat): (r: seq<string>)
    requires e <= |items|
    ensures forall name :: name in r <==> exists i: nat | s <= i < e :: items[i] == Label(name)
    decreases e
  {
    if e <= s then [] else LabelsIn(items, s, e - 1) + if items[e - 1].Label? then [items[e - 1].name] else []
  }

  datatype Block = Block(labels: seq<string>, itemIndices: seq<nat>,
                         successors: set<nat>, branchSuccessors: set<nat>, fallthrough: Option<nat>,
                         predecessors: set<nat>)

  /** Blocks in program order, with their names; edges and both maps speak of positions. */
  datatype Cfg = Cfg(starts: seq<nat>, blocks: seq<Block>, labelToBlock: map<string, nat>, itemToBlock: map<nat, nat>,
                     names: seq<string> := [], entry: nat := 0)

  /** Block `c` holds the items from its leader up to the next one. */
  ghost predicate BlockFilled(items: seq<Item>, starts: seq<nat>, c: nat, block: Block)
    requires c < |starts|
  {
    && starts[c] <= EndOf(items, starts, c) <= |items|
    && block.itemIndices == CodeIndices(items, starts[c], EndOf(items, starts, c))
    && block.labels == LabelsIn(items, starts[c], EndOf(items, starts, c))
  }

  /** What `item_to_block` says about the first `bound` items. */
  ghost predicate ItemsMapped(items: seq<Item>, starts: seq<nat>, bound: nat, itemToBlock: map<nat, nat>)
    requires bound <= |items|
  {
    && (forall i: nat :: i in itemToBlock <==> i < bound && items[i].Code?)
    && (forall i | i in itemToBlock ::
          && itemToBlock[i] < |starts|
          && starts[itemToBlock[i]] <= i < EndOf(items, starts, itemToBlock[i]))
  }

  /** `label_to_block` knows every label of the first `bound` items, and sends each label to the block it opens. */
  ghost predicate LabelsMapped(items: seq<Item>, starts: seq<nat>, bound: nat, labelToBlock: map<string, nat>)
    requires bound <= |items|
  {
    && (forall i | 0 <= i < bound && items[i].Label? :: items[i].name in labelToBlock)
    && (forall name | name in labelToBlock ::
          labelToBlock[name] < |starts| && starts[labelToBlock[name]] < |items|
          && items[starts[labelToBlock[name]]] == Label(name))
  }

  ghost predicate BlocksCover(items: seq<Item>, cfg: Cfg) {
    && |cfg.blocks| == |cfg.starts|
    && (forall b | 0 <= b < |cfg.blocks| :: BlockFilled(items, cfg.starts, b, cfg.blocks[b]))
    && ItemsMapped(items, cfg.starts, |items|, cfg.itemToBlock)
    && LabelsMapped(items, cfg.starts, |items|, cfg.labelToBlock)
  }

  /** The edges are exactly the transfers from the last item of a block to the leader of another. */
  ghost predicate EdgesFaithful(items: seq<Item>, cfg: Cfg)
    requires |cfg.blocks| == |cfg.starts|
  {
    && (forall b, c: nat | 0 <= b < |cfg.blocks| ::
          c in cfg.blocks[b].successors <==> LeavesTo(items, cfg.starts, b, c))
    && (forall b: nat, c: nat | b < |cfg.blocks| && c < |cfg.blocks| ::
          b in cfg.blocks[c].predecessors <==> c in cfg.blocks[b].successors)
  }

  predicate LeavesTo(items: seq<Item>, starts: seq<nat>, b: nat, c: nat)
    requires b < |starts|
  {
    c < |starts| && EndOf(items, starts, b) > 0 && Transfers(items, EndOf(items, starts, b) - 1, starts[c])
  }

  ghost predicate Faithful(items: seq<Item>, cfg: Cfg) {
    IsPartition(items, cfg.starts) && BlocksCover(items, cfg) && EdgesFaithful(items, cfg)
  }

  // ----- construction -----

  /** `_collect_labels`. */
  method CollectLabels(items: seq<Item>) returns (r: Result<map<string, nat>, CfgError>)
    ensures r.Ok? <==> DistinctLabels(items)
    ensures r.Ok? ==>
              && (forall name | name in r.value :: r.value[name] < |items| && items[r.value[name]] == Label(name))
              && (forall i | 0 <= i < |items| && items[i].Label? :: items[i].name in r.value)
  {
    var labels: map<string, nat> := map[];
    for index := 0 to |items|
      invariant forall name | name in labels :: labels[name] < index && items[labels[name]] == Label(name)
      invariant forall i | 0 <= i < index && items[i].Label? :: items[i].name in labels
      invariant forall i, j | 0 <= i < j < index && items[i].Label? :: items[i] != items[j]
    {
      if items[index].Label? {
        if items[index].name in labels {
          return Err(DuplicateLabel(items[index].name));
        }
        labels := labels[items[index].name := index];
      }
    }
    return Ok(labels);
  }

  /** `k` is a leader for a reason found among the first `index` items. */
  predicate LeaderBy(items: seq<Item>, index: nat, k: nat)
    requires index <= |items|
  {
    || k == 0
    || (k < index && items[k].Label?)
    || (k < |items| && k <= index && EndsBlock(items[k - 1]))
  }

  /** `_find_leaders`. */
  method FindLeaders(items: seq<Item>, labels: map<string, nat>) returns (r: Result<set<nat>, CfgError>)
    requires forall name | name in labels :: labels[name] < |items| && items[labels[name]] == Label(name)
    requires forall i | 0 <= i < |items| && items[i].Label? :: items[i].name in labels
    ensures r.Ok? <==> GoodBranches(items)
    ensures r.Ok? ==> forall k: nat :: k in r.value <==> IsLeader(items, k)
  {
    var leaders: set<nat> := {0};
    for index := 0 to |items|
      invariant forall i | 0 <= i < index && IsBra(items[i]) ::
                  HasTarget(items[i]) && exists j | 0 <= j < |items| :: items[j] == Label(TargetOf(items[i]))
      invariant forall k: nat | k in leaders :: IsLeader(items, k)
      invariant forall k: nat | LeaderBy(items, index, k) :: k in leaders
    {
      var item := items[index];
      if item.Label? {
        leaders := leaders + {index};
      } else if item.inst.op.base == Bra {
        if !HasTarget(item) {
          return Err(MalformedBranch(index));
        }
        if TargetOf(item) !in labels {
          return Err(UndefinedTarget(index));
        }
        leaders := leaders + {labels[TargetOf(item)]};
        if index + 1 < |items| {
          leaders := leaders + {index + 1};
        }
      } else if TerminatorKind(item.inst) == Return && index + 1 < |items| {
        leaders := leaders + {index + 1};
      }
    }
    return Ok(leaders);
  }

  /** The inner loop over the items of one block. */
  method FillBlock(items: seq<Item>, s: nat, e: nat) returns (labels: seq<string>, indices: seq<nat>)
    requires s <= e <= |items|
    ensures labels == LabelsIn(items, s, e) && indices == CodeIndices(items, s, e)
  {
    labels, indices := [], [];
    for i := s to e
      invariant labels == LabelsIn(items, s, i) && indices == CodeIndices(items, s, i)
    {
      if items[i].Label? {
        labels := labels + [items[i].name];
      } else {
        indices := indices + [i];
      }
    }
  }

  lemma PartitionBounds(items: seq<Item>, starts: seq<nat>, b: nat)
    requires IsPartition(items, starts) && b < |starts|
    ensures starts[b] <= EndOf(items, starts, b) <= |items|
    ensures forall k | starts[b] < k < EndOf(items, starts, b) :: !IsLeader(items, k)
    ensures b > 0 ==> EndOf(items, starts, b - 1) == starts[b]
  {
    assert starts[b] in starts;
    if b + 1 < |starts| {
      assert starts[b + 1] in starts;
    }
    forall k | starts[b] < k < EndOf(items, starts, b) ensures k !in starts {
      forall q | 0 <= q < |starts| ensures starts[q] != k {
        assert q <= b ==> starts[q] <= starts[b];
      }
    }
  }

  /** A terminator is always the last item of its block, a label always the first. */
  lemma TerminatorAtEnd(items: seq<Item>, starts: seq<nat>, b: nat, i: nat)
    requires IsPartition(items, starts) && b < |starts| && starts[b] <= i < EndOf(items, starts, b)
    ensures EndOf(items, starts, b) <= |items|
    ensures EndsBlock(items[i]) ==> i == EndOf(items, starts, b) - 1
    ensures items[i].Label? ==> i == starts[b]
  {
    PartitionBounds(items, starts, b);
    if i + 1 < EndOf(items, starts, b) {
      assert !IsLeader(items, i + 1);
    }
    if starts[b] < i {
      assert !IsLeader(items, i);
    }
  }

  function SendAll<T(==)>(keys: seq<T>, b: nat): map<T, nat> {
    map k | k in keys :: b
  }

  lemma ItemsMappedNext(items: seq<Item>, starts: seq<nat>, b: nat, itemToBlock: map<nat, nat>)
    requires IsPartition(items, starts) && b < |starts| && starts[b] <= |items|
    requires ItemsMapped(items, starts, starts[b], itemToBlock)
    ensures starts[b] <= EndOf(items, starts, b) <= |items|
    ensures var e := EndOf(items, starts, b);
            ItemsMapped(items, starts, e, itemToBlock + SendAll(CodeIndices(items, starts[b], e), b))
  {
    PartitionBounds(items, starts, b);
    hide IsPartition;
  }

  lemma LabelsMappedNext(items: seq<Item>, starts: seq<nat>, b: nat, labelToBlock: map<string, nat>)
    requires IsPartition(items, starts) && b < |starts| && starts[b] <= |items|
    requires LabelsMapped(items, starts, starts[b], labelToBlock)
    ensures starts[b] <= EndOf(items, starts, b) <= |items|
    ensures var e := EndOf(items, starts, b);
            LabelsMapped(items, starts, e, labelToBlock + SendAll(LabelsIn(items, starts[b], e), b))
  {
    PartitionBounds(items, starts, b);
    var e := EndOf(items, starts, b);
    var found := LabelsIn(items, starts[b], e);
    forall name | name in found ensures starts[b] < e && items[starts[b]] == Label(name) {
      var i: nat :| starts[b] <= i < e && items[i] == Label(name);
      TerminatorAtEnd(items, starts, b, i);
    }
    var labels := labelToBlock + SendAll(found, b);
    forall i | 0 <= i < e && items[i].Label? ensures items[i].name in labels {
      if i >= starts[b] {
        assert items[i] == Label(items[i].name);
        assert items[i].name in found;
      }
    }
    hide IsPartition, EndOf, LabelsIn;
  }

  /** The block loop of `build_cfg`. */
  method MakeBlocks(items: seq<Item>, starts: seq<nat>) returns (cfg: Cfg)
    requires IsPartition(items, starts)
    ensures cfg.starts == starts && BlocksCover(items, cfg)
  {
    var blocks: seq<Block> := [];
    var labelToBlock: map<string, nat>, itemToBlock: map<nat, nat> := map[], map[];
    hide IsPartition, LabelsIn, CodeIndices, ItemsMapped, LabelsMapped, SendAll;
    StartsAtZero(items, starts);
    EmptyMaps(items, starts);
    for b := 0 to |starts|
      invariant |blocks| == b
      invariant b < |starts| ==> starts[b] <= |items|
      invariant ItemsMapped(items, starts, if b < |starts| then starts[b] else |items|, itemToBlock)
      invariant LabelsMapped(items, starts, if b < |starts| then starts[b] else |items|, labelToBlock)
      invariant forall c | 0 <= c < b :: BlockFilled(items, starts, c, blocks[c])
    {
      var end := if b + 1 < |starts| then starts[b + 1] else |items|;
      ItemsMappedNext(items, starts, b, itemToBlock);
      LabelsMappedNext(items, starts, b, labelToBlock);
      var labels, indices := FillBlock(items, starts[b], end);
      blocks := blocks + [Block(labels, indices, {}, {}, None, {})];
      itemToBlock := itemToBlock + SendAll(indices, b);
      labelToBlock := labelToBlock + SendAll(labels, b);
    }
    cfg := Cfg(starts, blocks, labelToBlock, itemToBlock);
  }

  lemma EmptyMaps(items: seq<Item>, starts: seq<nat>)
    ensures ItemsMapped(items, starts, 0, map[]) && LabelsMapped(items, starts, 0, map[])
  {
  }

  lemma StartsAtZero(items: seq<Item>, starts: seq<nat>)
    requires IsPartition(items, starts)
    ensures |starts| > 0 && starts[0] == 0
  {
  }

  /** `block.terminator`: the last instruction, if it ends blocks. */
  function Terminator(items: seq<Item>, block: Block): Option<Inst> {
    if block.itemIndices == [] then None
    else
      var last := block.itemIndices[|block.itemIndices| - 1];
      if last < |items| && EndsBlock(items[last]) then Some(items[last].inst) else None
  }

  /** The terminator is the last item of its block; without one, the last item falls through. */
  lemma TerminatorIsLastItem(items: seq<Item>, cfg: Cfg, b: nat)
    requires IsPartition(items, cfg.starts) && BlocksCover(items, cfg) && b < |cfg.blocks|
    ensures b < |cfg.starts|
    ensures var e := EndOf(items, cfg.starts, b);
            && e <= |items| && (e == 0 <==> |items| == 0)
            && match Terminator(items, cfg.blocks[b])
               case Some(inst) => e > 0 && items[e - 1] == Code(inst) && EndsBlock(items[e - 1])
               case None => e > 0 ==> !EndsBlock(items[e - 1])
  {
    hide IsPartition, LabelsMapped, ItemsMapped, LabelsIn;
    assert BlockFilled(items, cfg.starts, b, cfg.blocks[b]);
    var starts, e := cfg.starts, EndOf(items, cfg.starts, b);
    var indices := cfg.blocks[b].itemIndices;
    NonEmptyUnlessNoItems(items, starts, b);
    if indices != [] {
      var last := indices[|indices| - 1];
      assert last in indices;
      TerminatorAtEnd(items, starts, b, last);
    }
    if e > 0 && items[e - 1].Code? {
      assert indices == CodeIndices(items, starts[b], e - 1) + [e - 1];
    }
  }

  /** Blocks are only empty when the program is. */
  lemma NonEmptyUnlessNoItems(items: seq<Item>, starts: seq<nat>, b: nat)
    requires IsPartition(items, starts) && b < |starts|
    ensures |items| > 0 ==> starts[b] < EndOf(items, starts, b)
    ensures |items| == 0 ==> starts[b] == EndOf(items, starts, b) == 0
  {
    PartitionBounds(items, starts, b);
    assert starts[b] in starts;
    if b + 1 == |starts| && |items| > 0 && starts[b] > 0 {
      assert IsLeader(items, starts[b]);
    }
    if b > 0 {
      assert IsLeader(items, starts[b]);
    }
  }

  /** The successor blocks of block `b`, from its terminator. */
  function SuccessorsOf(items: seq<Item>, cfg: Cfg, b: nat): set<nat>
    requires b < |cfg.blocks|
  {
    var next := if b + 1 < |cfg.blocks| then {b + 1} else {};
    match Terminator(items, cfg.blocks[b])
    case None => next
    case Some(inst) =>
      if TerminatorKind(inst) == Return then {}
      else
        var taken := if HasTarget(Code(inst)) && TargetOf(Code(inst)) in cfg.labelToBlock
                     then {cfg.labelToBlock[TargetOf(Code(inst))]} else {};
        if TerminatorKind(inst) == ConditionalBranch then taken + next else taken
  }

  lemma StartsInjective(starts: seq<nat>, b: nat, c: nat)
    requires Increasing(starts) && b < |starts| && c < |starts| && starts[b] == starts[c]
    ensures b == c
  {
  }

  /** A branch target, as block and as index. */
  lemma TargetBlock(items: seq<Item>, cfg: Cfg, i: nat, c: nat)
    requires DistinctLabels(items) && GoodBranches(items)
    requires IsPartition(items, cfg.starts) && BlocksCover(items, cfg)
    requires i < |items| && IsBra(items[i])
    ensures HasTarget(items[i]) && TargetOf(items[i]) in cfg.labelToBlock
    ensures c == cfg.labelToBlock[TargetOf(items[i])] <==>
              c < |cfg.starts| && cfg.starts[c] < |items| && items[cfg.starts[c]] == Label(TargetOf(items[i]))
  {
    hide EndOf, CodeIndices, LabelsIn, BlockFilled, ItemsMapped;
    var target := TargetOf(items[i]);
    assert target in cfg.labelToBlock;
    var t := cfg.labelToBlock[target];
    if c < |cfg.starts| && cfg.starts[c] < |items| && items[cfg.starts[c]] == Label(target) {
      assert cfg.starts[c] == cfg.starts[t];
      StartsInjective(cfg.starts, c, t);
    }
  }

  lemma SuccessorsFaithful(items: seq<Item>, cfg: Cfg, b: nat, c: nat)
    requires DistinctLabels(items) && GoodBranches(items)
    requires IsPartition(items, cfg.starts) && BlocksCover(items, cfg) && b < |cfg.blocks| == |cfg.starts|
    ensures c in SuccessorsOf(items, cfg, b) <==> LeavesTo(items, cfg.starts, b, c)
  {
    hide IsPartition, BlocksCover, GoodBranches, DistinctLabels, EndOf, Terminator;
    var starts, e := cfg.starts, EndOf(items, cfg.starts, b);
    TerminatorIsLastItem(items, cfg, b);
    if |items| > 0 {
      NextBlock(items, starts, b, c);
      StartInRange(items, starts, c);
      if IsBra(items[e - 1]) {
        TargetBlock(items, cfg, e - 1, c);
      }
    } else {
      EmptyProgramOneBlock(items, starts);
    }
  }

  lemma EmptyProgramOneBlock(items: seq<Item>, starts: seq<nat>)
    requires IsPartition(items, starts) && items == []
    ensures |starts| == 1
  {
    forall k: nat ensures k in starts <==> k < 1 {
    }
    DistinctLength(starts, 1);
  }

  lemma StartInRange(items: seq<Item>, starts: seq<nat>, c: nat)
    requires IsPartition(items, starts) && |items| > 0
    ensures c < |starts| ==> starts[c] < |items|
  {
    if c < |starts| {
      assert starts[c] in starts;
    }
  }

  /** Falling through the end of a block enters the next one. */
  lemma NextBlock(items: seq<Item>, starts: seq<nat>, b: nat, c: nat)
    requires IsPartition(items, starts) && b < |starts| && |items| > 0
    ensures c < |starts| && starts[c] == EndOf(items, starts, b) <==> c == b + 1 && c < |starts|
  {
    if c < |starts| {
      NonEmptyUnlessNoItems(items, starts, c);
      PartitionBounds(items, starts, c);
      if b + 1 < |starts| && starts[c] == starts[b + 1] {
        StartsInjective(starts, c, b + 1);
      }
    }
  }

  /** The edges out of one block. */
  method BlockEdges(items: seq<Item>, cfg: Cfg, b: nat) returns (branch: set<nat>, through: Option<nat>)
    requires DistinctLabels(items) && GoodBranches(items)
    requires IsPartition(items, cfg.starts) && BlocksCover(items, cfg) && b < |cfg.blocks| == |cfg.starts|
    ensures branch + (if through.Some? then {through.value} else {}) == SuccessorsOf(items, cfg, b)
  {
    hide IsPartition, BlocksCover, GoodBranches, DistinctLabels, EndOf, Terminator;
    TerminatorIsLastItem(items, cfg, b);
    var terminator := Terminator(items, cfg.blocks[b]);
    var kind := if terminator.Some? then TerminatorKind(terminator.value) else Fallthrough;
    branch, through := {}, None;
    if kind == ConditionalBranch || kind == UnconditionalBranch {
      TargetBlock(items, cfg, EndOf(items, cfg.starts, b) - 1, 0);
      branch := {cfg.labelToBlock[TargetOf(Code(terminator.value))]};
    }
    if (kind == ConditionalBranch || kind == Fallthrough) && b + 1 < |cfg.blocks| {
      through := Some(b + 1);
    }
  }

  /** `_connect_edges`: successors block by block, then the predecessors they imply. */
  method ConnectEdges(items: seq<Item>, cfg: Cfg) returns (connected: Cfg)
    requires DistinctLabels(items) && GoodBranches(items)
    requires IsPartition(items, cfg.starts) && BlocksCover(items, cfg)
    ensures Faithful(items, connected)
    ensures connected.starts == cfg.starts && connected.names == cfg.names && connected.entry == cfg.entry
  {
    var blocks := cfg.blocks;
    hide IsPartition, GoodBranches, DistinctLabels, SuccessorsOf, LeavesTo, CodeIndices, LabelsIn;
    for b := 0 to |blocks|
      invariant |blocks| == |cfg.blocks|
      invariant forall c | 0 <= c < |blocks| ::
                  blocks[c].itemIndices == cfg.blocks[c].itemIndices && blocks[c].labels == cfg.blocks[c].labels
      invariant forall c | 0 <= c < b :: blocks[c].successors == SuccessorsOf(items, cfg, c)
    {
      var branch, through := BlockEdges(items, cfg, b);
      var successors := branch + (if through.Some? then {through.value} else {});
      blocks := blocks[b := blocks[b].(successors := successors, branchSuccessors := branch, fallthrough := through)];
    }
    forall b: nat, c: nat | b < |blocks| ensures c in blocks[b].successors <==> LeavesTo(items, cfg.starts, b, c) {
      SuccessorsFaithful(items, cfg, b, c);
    }
    var linked := LinkPredecessors(blocks);
    connected := cfg.(blocks := linked);
  }

  /** `blocks[succ].predecessors.add(name)` for every edge. */
  method LinkPredecessors(blocks: seq<Block>) returns (linked: seq<Block>)
    ensures |linked| == |blocks|
    ensures forall c | 0 <= c < |blocks| ::
              && linked[c].itemIndices == blocks[c].itemIndices && linked[c].labels == blocks[c].labels
              && linked[c].successors == blocks[c].successors
              && linked[c].predecessors == set b: nat | b < |blocks| && c in blocks[b].successors
  {
    linked := seq(|blocks|, c requires 0 <= c < |blocks| => blocks[c].(predecessors := {}));
    for b := 0 to |blocks|
      invariant |linked| == |blocks|
      invariant forall c | 0 <= c < |blocks| ::
                  && linked[c].itemIndices == blocks[c].itemIndices && linked[c].labels == blocks[c].labels
                  && linked[c].successors == blocks[c].successors
                  && linked[c].predecessors == set p: nat | p < b && c in blocks[p].successors
    {
      linked := seq(|blocks|, c requires 0 <= c < |linked| =>
                      if c in blocks[b].successors
                      then linked[c].(predecessors := linked[c].predecessors + {b}) else linked[c]);
    }
  }

  // ----- what the graph means -----

  /** A block starts at the entry, at a label, and behind every branch and return. */
  lemma LeadersExactly(items: seq<Item>, k: nat)
    ensures IsLeader(items, k) <==>
            || k == 0
            || (k < |items| && (items[k].Label? || (items[k - 1].Code? && items[k - 1].inst.op.base in {Bra, Ret})))
  {
  }

  /** Within a block a thread goes on item by item. */
  lemma WithinBlock(host: Host, items: seq<Item>, cfg: Cfg, b: nat, i: nat, j: nat)
    requires Faithful(items, cfg) && NoGuardedReturn(items) && b < |cfg.starts|
    requires cfg.starts[b] <= i && i + 1 < EndOf(items, cfg.starts, b) && CanGo(host, items, i, j)
    ensures j == i + 1
  {
    var s: State :| Step(host, items, i, s).Next? && Step(host, items, i, s).pc == j;
    PartitionBounds(items, cfg.starts, b);
    TerminatorAtEnd(items, cfg.starts, b, i);
    StepTransfers(host, items, i, s);
    hide Step, Faithful, IsPartition;
  }

  /** A block is a successor exactly if some thread can leave the end of the other for its start. */
  lemma SuccessorsAreMoves(host: Host, items: seq<Item>, cfg: Cfg, b: nat, c: nat)
    requires Faithful(items, cfg) && DistinctLabels(items) && NoGuardedReturn(items) && items != []
    requires b < |cfg.blocks| && |cfg.blocks| == |cfg.starts|
    ensures 0 < EndOf(items, cfg.starts, b) <= |items|
    ensures CanStep(host, items, EndOf(items, cfg.starts, b) - 1) ==>
              (c in cfg.blocks[b].successors
               <==> c < |cfg.starts| && CanGo(host, items, EndOf(items, cfg.starts, b) - 1, cfg.starts[c]))
  {
    hide *;
    FaithfulEdge(items, cfg, b, c);
    NonEmptyUnlessNoItems(items, cfg.starts, b);
    PartitionBounds(items, cfg.starts, b);
    var last := EndOf(items, cfg.starts, b) - 1;
    if CanStep(host, items, last) && c < |cfg.starts| {
      TransfersExactly(host, items, last, cfg.starts[c]);
    }
  }

  lemma FaithfulEdge(items: seq<Item>, cfg: Cfg, b: nat, c: nat)
    requires Faithful(items, cfg) && b < |cfg.blocks|
    ensures IsPartition(items, cfg.starts) && |cfg.blocks| == |cfg.starts|
    ensures c in cfg.blocks[b].successors <==>
            c < |cfg.starts| && EndOf(items, cfg.starts, b) > 0
            && Transfers(items, EndOf(items, cfg.starts, b) - 1, cfg.starts[c])
  {
    hide IsPartition, EndOf, Transfers, ItemsMapped, LabelsMapped, BlockFilled;
    assert c in cfg.blocks[b].successors <==> LeavesTo(items, cfg.starts, b, c);
  }

  // ----- block names -----

  function Decimal(n: nat): (s: string)
    ensures s != []
  {
    var digit := ["0123456789"[n % 10]];
    if n < 10 then digit else Decimal(n / 10) + digit
  }

  lemma {:induction false} DecimalInjective(m: nat, n: nat)
    requires Decimal(m) == Decimal(n)
    ensures m == n
    decreases m
  {
    var s := Decimal(m);
    assert s[|s| - 1] == "0123456789"[m % 10] == "0123456789"[n % 10];
    assert m % 10 == n % 10;
    assert (m < 10 <==> |s| == 1) && (n < 10 <==> |s| == 1);
    if m >= 10 {
      assert s[..|s| - 1] == Decimal(m / 10) == Decimal(n / 10);
      DecimalInjective(m / 10, n / 10);
    }
  }

  const ENTRY := "entry"

  function Synthetic(k: nat): string {
    "block_" + Decimal(k)
  }

  lemma NamesSpelled()
    ensures ENTRY == "entry" && Synthetic(0) == "block_0" && Synthetic(17) == "block_17"
  {
    assert Decimal(0) == "0" && Decimal(1) == "1";
    assert Decimal(17) == Decimal(1) + ["0123456789"[7]];
  }

  predicate Unlabelled(items: seq<Item>, k: nat) {
    0 < k < |items| && IsLeader(items, k) && !items[k].Label?
  }

  /** How many unlabelled blocks other than the first start below `n`. */
  function UnlabelledBelow(items: seq<Item>, n: nat): nat {
    if n == 0 then 0 else UnlabelledBelow(items, n - 1) + if Unlabelled(items, n - 1) then 1 else 0
  }

  /** The name of the block that starts at `k`. */
  function NameAt(items: seq<Item>, k: nat): string {
    if k < |items| && items[k].Label? then items[k].name
    else if k == 0 then ENTRY else Synthetic(UnlabelledBelow(items, k))
  }

  ghost predicate DistinctNames(items: seq<Item>) {
    forall i: nat, j: nat | i < j && IsLeader(items, i) && IsLeader(items, j) :: NameAt(items, i) != NameAt(items, j)
  }

  /** An unlabelled block has this name. */
  predicate TakenName(items: seq<Item>, name: string) {
    || (name == ENTRY && (items == [] || !items[0].Label?))
    || exists k: nat | k < UnlabelledBelow(items, |items|) :: name == Synthetic(k)
  }

  lemma {:induction false} CountGrows(items: seq<Item>, i: nat, j: nat)
    requires i <= j
    ensures UnlabelledBelow(items, i) <= UnlabelledBelow(items, j)
    ensures i < j && Unlabelled(items, i) ==> UnlabelledBelow(items, i) < UnlabelledBelow(items, j)
    decreases j
  {
    if i < j {
      CountGrows(items, i, j - 1);
    }
  }

  lemma {:induction false} CountReached(items: seq<Item>, n: nat, k: nat) returns (j: nat)
    requires k < UnlabelledBelow(items, n)
    ensures j < n && Unlabelled(items, j) && UnlabelledBelow(items, j) == k
  {
    if k < UnlabelledBelow(items, n - 1) {
      j := CountReached(items, n - 1, k);
    } else {
      j := n - 1;
    }
  }

  lemma SyntheticNames(k: nat, m: nat)
    ensures Synthetic(k) != ENTRY && (Synthetic(k) == Synthetic(m) ==> k == m)
  {
    assert Synthetic(k)[0] == 'b';
    if Synthetic(k) == Synthetic(m) {
      assert Synthetic(k)[6..] == Decimal(k) && Synthetic(m)[6..] == Decimal(m);
      DecimalInjective(k, m);
    }
  }

  lemma UnlabelledName(items: seq<Item>, k: nat)
    requires IsLeader(items, k) && !(k < |items| && items[k].Label?)
    ensures TakenName(items, NameAt(items, k))
  {
    if k > 0 {
      CountGrows(items, k, |items|);
    }
  }

  /** Names are distinct exactly if no label is a name given to an unlabelled block. */
  lemma NamesDistinctExactly(items: seq<Item>)
    requires DistinctLabels(items)
    ensures DistinctNames(items) <==> forall i | 0 <= i < |items| && items[i].Label? :: !TakenName(items, items[i].name)
  {
    hide Decimal, Synthetic, EndsBlock;
    if DistinctNames(items) {
      forall i | 0 <= i < |items| && items[i].Label? ensures !TakenName(items, items[i].name) {
        TakenClashes(items, i);
      }
    }
    if forall i | 0 <= i < |items| && items[i].Label? :: !TakenName(items, items[i].name) {
      forall i: nat, j: nat | i < j && IsLeader(items, i) && IsLeader(items, j)
        ensures NameAt(items, i) != NameAt(items, j)
      {
        NamesDiffer(items, i, j);
      }
    }
  }

  lemma TakenClashes(items: seq<Item>, i: nat)
    requires i < |items| && items[i].Label? && DistinctNames(items)
    ensures !TakenName(items, items[i].name)
  {
    hide Decimal, Synthetic, EndsBlock;
    assert IsLeader(items, i) && IsLeader(items, 0) && NameAt(items, i) == items[i].name;
    forall k: nat | k < UnlabelledBelow(items, |items|) ensures items[i].name != Synthetic(k) {
      var j := CountReached(items, |items|, k);
      assert IsLeader(items, j) && NameAt(items, j) == Synthetic(k);
    }
  }

  lemma NamesDiffer(items: seq<Item>, i: nat, j: nat)
    requires DistinctLabels(items) && i < j && IsLeader(items, i) && IsLeader(items, j)
    requires forall i | 0 <= i < |items| && items[i].Label? :: !TakenName(items, items[i].name)
    ensures NameAt(items, i) != NameAt(items, j)
  {
    hide Decimal, Synthetic, EndsBlock, TakenName;
    if items[i].Label? && !items[j].Label? {
      UnlabelledName(items, j);
    } else if !items[i].Label? && items[j].Label? {
      UnlabelledName(items, i);
    } else if !items[i].Label? {
      SyntheticNames(UnlabelledBelow(items, j), UnlabelledBelow(items, i));
      if i > 0 {
        CountGrows(items, i, j);
      }
    }
  }

  /** A block has its label, if there is one, at its start. */
  lemma BlockLabel(items: seq<Item>, cfg: Cfg, b: nat)
    requires IsPartition(items, cfg.starts) && BlocksCover(items, cfg) && b < |cfg.blocks|
    ensures b < |cfg.starts|
    ensures var labels, k := cfg.blocks[b].labels, cfg.starts[b];
            if k < |items| && items[k].Label? then labels != [] && labels[0] == items[k].name else labels == []
  {
    var starts, labels, k, e := cfg.starts, cfg.blocks[b].labels, cfg.starts[b], EndOf(items, cfg.starts, b);
    assert BlockFilled(items, starts, b, cfg.blocks[b]);
    NonEmptyUnlessNoItems(items, starts, b);
    if labels != [] {
      assert labels[0] in labels;
      var i: nat :| k <= i < e && items[i] == Label(labels[0]);
      TerminatorAtEnd(items, starts, b, i);
    }
    if k < |items| && items[k].Label? {
      assert items[k] == Label(items[k].name);
      assert items[k].name in labels;
    }
  }

  /** Between two starts no block starts. */
  lemma {:induction false} CountBetween(items: seq<Item>, starts: seq<nat>, b: nat, n: nat)
    requires IsPartition(items, starts) && b < |starts| && starts[b] < n <= EndOf(items, starts, b)
    ensures UnlabelledBelow(items, n)
         == UnlabelledBelow(items, starts[b]) + if Unlabelled(items, starts[b]) then 1 else 0
    decreases n
  {
    if n > starts[b] + 1 {
      CountBetween(items, starts, b, n - 1);
      PartitionBounds(items, starts, b);
      assert !IsLeader(items, n - 1);
    }
  }

  lemma StartsAreLeaders(items: seq<Item>, starts: seq<nat>, i: nat, j: nat)
    requires IsPartition(items, starts) && i < j < |starts|
    ensures IsLeader(items, starts[i]) && IsLeader(items, starts[j]) && starts[i] < starts[j]
  {
    assert starts[i] in starts && starts[j] in starts;
  }

  lemma AllNamed(items: seq<Item>, starts: seq<nat>, names: seq<string>)
    requires IsPartition(items, starts) && |names| == |starts|
    requires forall c | 0 <= c < |names| :: names[c] == NameAt(items, starts[c])
    requires forall c, d | 0 <= c < d < |names| :: names[c] != names[d]
    ensures DistinctNames(items)
  {
    hide NameAt, IsLeader;
    forall i: nat, j: nat | i < j && IsLeader(items, i) && IsLeader(items, j)
      ensures NameAt(items, i) != NameAt(items, j)
    {
      assert i in starts && j in starts;
      var c :| 0 <= c < |starts| && starts[c] == i;
      var d :| 0 <= d < |starts| && starts[d] == j;
    }
  }

  /** Each block has its name, and the entry is the block named so, or else the first. */
  ghost predicate Named(items: seq<Item>, cfg: Cfg) {
    && |cfg.names| == |cfg.starts| && cfg.entry < |cfg.names|
    && (forall c | 0 <= c < |cfg.names| :: cfg.names[c] == NameAt(items, cfg.starts[c]))
    && (if ENTRY in cfg.names then cfg.names[cfg.entry] == ENTRY else cfg.entry == 0)
  }

  /** What the block loop of `build_cfg` names a block. */
  function NameFor(labels: seq<string>, start: nat, synthetic: nat): string {
    if start == 0 && labels == [] then ENTRY else if labels != [] then labels[0] else Synthetic(synthetic)
  }

  /** The loop gives each block its name and counts the synthetic ones. */
  lemma NameTurn(items: seq<Item>, cfg: Cfg, b: nat)
    requires IsPartition(items, cfg.starts) && BlocksCover(items, cfg) && b < |cfg.blocks|
    ensures b < |cfg.starts|
    ensures var start, labels := cfg.starts[b], cfg.blocks[b].labels;
            && NameFor(labels, start, UnlabelledBelow(items, start)) == NameAt(items, start)
            && (Unlabelled(items, start) <==> start > 0 && labels == [])
  {
    BlockLabel(items, cfg, b);
    StartCounted(items, cfg.starts, b);
    hide BlocksCover, IsPartition, Synthetic, UnlabelledBelow;
  }

  lemma NoneBelow(items: seq<Item>, cfg: Cfg)
    requires IsPartition(items, cfg.starts) && BlocksCover(items, cfg)
    ensures |cfg.blocks| == |cfg.starts| > 0 && cfg.starts[0] == 0 && UnlabelledBelow(items, 0) == 0
  {
  }

  lemma TwiceTheName(items: seq<Item>, starts: seq<nat>, c: nat, b: nat)
    requires IsPartition(items, starts) && c < b < |starts| && NameAt(items, starts[c]) == NameAt(items, starts[b])
    ensures !DistinctNames(items)
  {
    StartsAreLeaders(items, starts, c, b);
    hide NameAt, IsLeader;
  }

  /** The names `build_cfg` gives in its block loop, and the entry it picks by name. */
  method NameBlocks(items: seq<Item>, cfg: Cfg) returns (r: Result<Cfg, CfgError>)
    requires IsPartition(items, cfg.starts) && BlocksCover(items, cfg)
    ensures r.Ok? <==> DistinctNames(items)
    ensures r.Ok? ==> Named(items, r.value) && r.value == cfg.(names := r.value.names, entry := r.value.entry)
  {
    hide BlocksCover, IsPartition, DistinctNames, NameAt, NameFor, ENTRY, UnlabelledBelow, Unlabelled;
    var names: seq<string>, synthetic, entry := [], 0, 0;
    var starts := cfg.starts;
    NoneBelow(items, cfg);
    for b := 0 to |starts|
      invariant |names| == b
      invariant b < |starts| ==> synthetic == UnlabelledBelow(items, starts[b])
      invariant forall c | 0 <= c < b :: names[c] == NameAt(items, starts[c])
      invariant forall c, d | 0 <= c < d < b :: names[c] != names[d]
      invariant if ENTRY in names then entry < b && names[entry] == ENTRY else entry == 0
    {
      var labels := cfg.blocks[b].labels;
      NameTurn(items, cfg, b);
      StartCounted(items, starts, b);
      var name := NameFor(labels, starts[b], synthetic);
      if starts[b] > 0 && labels == [] {
        synthetic := synthetic + 1;
      }
      if name in names {
        var c :| 0 <= c < b && names[c] == name;
        TwiceTheName(items, starts, c, b);
        return Err(DuplicateBlock(name));
      }
      if name == ENTRY {
        entry := b;
      }
      names := names + [name];
    }
    AllNamed(items, starts, names);
    return Ok(cfg.(names := names, entry := entry));
  }

  lemma StartCounted(items: seq<Item>, starts: seq<nat>, b: nat)
    requires IsPartition(items, starts) && b < |starts|
    ensures Unlabelled(items, starts[b]) <==> starts[b] > 0 && !(starts[b] < |items| && items[starts[b]].Label?)
    ensures b + 1 < |starts| ==>
              UnlabelledBelow(items, starts[b + 1])
              == UnlabelledBelow(items, starts[b]) + if Unlabelled(items, starts[b]) then 1 else 0
  {
    assert starts[b] in starts;
    if b + 1 < |starts| {
      CountBetween(items, starts, b, starts[b + 1]);
    }
  }

  /** The entry is the first block, unless a label further down is `entry`. */
  lemma EntryIsFirst(items: seq<Item>, cfg: Cfg)
    requires IsPartition(items, cfg.starts) && Named(items, cfg) && DistinctNames(items)
    ensures cfg.entry == 0 <==> forall k | 0 < k < |items| :: items[k] != Label(ENTRY)
  {
    var starts, e := cfg.starts, cfg.entry;
    if e != 0 {
      StartsAreLeaders(items, starts, 0, e);
      SyntheticNames(UnlabelledBelow(items, starts[e]), 0);
    }
    hide Synthetic, UnlabelledBelow, ENTRY, DistinctNames;
    assert e != 0 ==> NameAt(items, starts[e]) == ENTRY;
    forall k | 0 < k < |items| && items[k] == Label(ENTRY) ensures e != 0 {
      assert IsLeader(items, k) && NameAt(items, k) == ENTRY;
      var c :| 0 <= c < |starts| && starts[c] == k;
      assert cfg.names[c] == ENTRY;
    }
  }

  /** `build_cfg`. */
  method BuildCfg(items: seq<Item>) returns (r: Result<Cfg, CfgError>)
    ensures r.Ok? <==> DistinctLabels(items) && GoodBranches(items) && DistinctNames(items)
    ensures r.Ok? ==> Faithful(items, r.value) && Named(items, r.value)
  {
    var labels := CollectLabels(items);
    if labels.Err? {
      return Err(labels.error);
    }
    var leaders := FindLeaders(items, labels.value);
    if leaders.Err? {
      return Err(leaders.error);
    }
    assert forall k | k in leaders.value :: IsLeader(items, k);
    var starts := Sorted(leaders.value, |items| + 1);
    assert 0 in starts;
    assert IsPartition(items, starts);
    var bare := MakeBlocks(items, starts);
    var named := NameBlocks(items, bare);
    if named.Err? {
      return Err(named.error);
    }
    var cfg := ConnectEdges(items, named.value);
    return Ok(cfg);
  }
}
