/** Which branches are emitted, which become guards, and the program lowered under such a plan. */
module ControlPlan {
  import opened Wrappers
  import opened Expansion
  import P = Ptx
  import A = Isa
  import R = PhysicalRun

  datatype ItemGuard = ItemGuard(id: nat, negated: bool)

  /** `ControlPlan`: branches turned into guards, the guards of the items behind them, branches that may be emitted. */
  datatype Plan = Plan(skip: set<nat>, guards: map<nat, ItemGuard>, emitted: set<nat>)

  /** `_emit`: an instruction without a guard of its own takes that of its item. */
  function WithItemGuard(plan: Plan, i: nat, a: A.Inst): A.Inst {
    if i in plan.guards && a.guard.None? then a.(guard := Some(plan.guards[i].id), negated := plan.guards[i].negated)
        else a
  }

  function EmitAll(plan: Plan, i: nat, code: seq<A.Inst>): (r: seq<A.Inst>)
    ensures |r| == |code| && forall k | 0 <= k < |code| :: r[k] == WithItemGuard(plan, i, code[k])
  {
    seq(|code|, k requires 0 <= k < |code| => WithItemGuard(plan, i, code[k]))
  }

  lemma EmitAppend(plan: Plan, i: nat, a: seq<A.Inst>, b: seq<A.Inst>)
    ensures EmitAll(plan, i, a + b) == EmitAll(plan, i, a) + EmitAll(plan, i, b)
  {
  }

  // ----- the lowered program under a plan -----

  predicate Emits(plan: Plan, items: seq<P.Item>, i: nat)
    requires i < |items|
  {
    items[i].Code? && i !in plan.skip
  }

  /** The first `n` items can be lowered over these homes. */
  predicate Fitting(homes: R.Homes, offsets: map<nat, nat>, plan: Plan, items: seq<P.Item>, n: nat) {
    n <= |items| && forall i: nat | i < n && Emits(plan, items, i) :: FitsAt(homes, offsets, items[i].inst)
  }

  predicate FitsAt(homes: R.Homes, offsets: map<nat, nat>, inst: P.Inst) {
    Lowerable(offsets, inst) && Needs(inst) <= homes.Keys
  }

  /** The code of one item, branch targets still 0. */
  function ItemUnpatched(homes: R.Homes, offsets: map<nat, nat>, plan: Plan, items: seq<P.Item>, i: nat): seq<A.Inst>
    requires i < |items| && (Emits(plan, items, i) ==> FitsAt(homes, offsets, items[i].inst))
  {
    if Emits(plan, items, i) then EmitAll(plan, i, Expand(homes, offsets, items[i].inst)) else []
  }

  function Unpatched(homes: R.Homes, offsets: map<nat, nat>, plan: Plan, items: seq<P.Item>, n: nat): seq<A.Inst>
    requires Fitting(homes, offsets, plan, items, n)
  {
    if n == 0 then []
    else Unpatched(homes, offsets, plan, items, n - 1)
         + (assert Emits(plan, items, n - 1) ==> FitsAt(homes, offsets, items[n - 1].inst);
            ItemUnpatched(homes, offsets, plan, items, n - 1))
  }

  /** The value of a label in front of item `n`. */
  function At(homes: R.Homes, offsets: map<nat, nat>, plan: Plan, items: seq<P.Item>, n: nat): nat
    requires Fitting(homes, offsets, plan, items, n)
  {
    |Unpatched(homes, offsets, plan, items, n)|
  }

  predicate EmitsBranch(plan: Plan, items: seq<P.Item>, i: nat)
    requires i < |items|
  {
    Emits(plan, items, i) && KindOf(items[i].inst) == Branch
  }

  /** Where branches were emitted, and their targets. */
  function Pending(homes: R.Homes, offsets: map<nat, nat>, plan: Plan, items: seq<P.Item>, n: nat): seq<(nat, string)>
    requires Fitting(homes, offsets, plan, items, n)
  {
    if n == 0 then []
    else Pending(homes, offsets, plan, items, n - 1)
         + if EmitsBranch(plan, items, n - 1)
           then (assert FitsAt(homes, offsets, items[n - 1].inst);
                 [(At(homes, offsets, plan, items, n - 1), items[n - 1].inst.operands[0].name)])
           else []
  }

  /** The code of one item, its branch target filled in. */
  function ItemPlanned(homes: R.Homes, offsets: map<nat, nat>, plan: Plan, items: seq<P.Item>, i: nat): seq<A.Inst>
    requires Fitting(homes, offsets, plan, items, |items|) && i < |items|
    requires EmitsBranch(plan, items, i) ==> TargetExists(items, items[i].inst)
  {
    assert Emits(plan, items, i) ==> FitsAt(homes, offsets, items[i].inst);
    var code := ItemUnpatched(homes, offsets, plan, items, i);
    if EmitsBranch(plan, items, i) then
      BranchIsOne(homes, offsets, plan, items, i);
      [code[0].(imm := At(homes, offsets, plan, items, P.FindLabel(items, items[i].inst.operands[0].name, 0).value))]
    else code
  }

  predicate TargetExists(items: seq<P.Item>, inst: P.Inst) {
    |inst.operands| == 1 && inst.operands[0].Target? && P.FindLabel(items, inst.operands[0].name, 0).Some?
  }

  predicate TargetsExist(plan: Plan, items: seq<P.Item>, n: nat)
    requires n <= |items|
  {
    forall i: nat | i < n && EmitsBranch(plan, items, i) :: TargetExists(items, items[i].inst)
  }

  function Planned(homes: R.Homes, offsets: map<nat, nat>, plan: Plan, items: seq<P.Item>, n: nat): seq<A.Inst>
    requires Fitting(homes, offsets, plan, items, |items|) && n <= |items| && TargetsExist(plan, items, n)
  {
    if n == 0 then [] else Planned(homes, offsets, plan, items, n - 1) + ItemPlanned(homes, offsets, plan, items, n - 1)
  }

  lemma BranchIsOne(homes: R.Homes, offsets: map<nat, nat>, plan: Plan, items: seq<P.Item>, i: nat)
    requires i < |items| && EmitsBranch(plan, items, i) && FitsAt(homes, offsets, items[i].inst)
    ensures |ItemUnpatched(homes, offsets, plan, items, i)| == 1
    ensures |items[i].inst.operands| == 1 && items[i].inst.operands[0].Target?
  {
  }

  lemma FittingLess(homes: R.Homes, offsets: map<nat, nat>, plan: Plan, items: seq<P.Item>, m: nat, n: nat)
    requires Fitting(homes, offsets, plan, items, n) && m <= n
    ensures Fitting(homes, offsets, plan, items, m)
  {
  }

  lemma ItemFits(homes: R.Homes, offsets: map<nat, nat>, plan: Plan, items: seq<P.Item>, i: nat)
    requires Fitting(homes, offsets, plan, items, i + 1)
    ensures Emits(plan, items, i) ==> FitsAt(homes, offsets, items[i].inst)
  {
  }

  lemma UnpatchedNext(homes: R.Homes, offsets: map<nat, nat>, plan: Plan, items: seq<P.Item>, m: nat)
    requires Fitting(homes, offsets, plan, items, m + 1)
    ensures Fitting(homes, offsets, plan, items, m) && (Emits(plan, items, m) ==> FitsAt(homes, offsets, items[m].inst))
    ensures Unpatched(homes, offsets, plan, items, m + 1)
         == Unpatched(homes, offsets, plan, items, m) + ItemUnpatched(homes, offsets, plan, items, m)
    ensures EmitsBranch(plan, items, m) ==> |items[m].inst.operands| == 1 && items[m].inst.operands[0].Target?
    ensures Pending(homes, offsets, plan, items, m + 1) == Pending(homes, offsets, plan, items, m)
            + if EmitsBranch(plan, items, m) then [(At(homes, offsets, plan, items, m), items[m].inst.operands[0].name)]
                else []
  {
    hide ItemUnpatched;
    ItemFits(homes, offsets, plan, items, m);
    if EmitsBranch(plan, items, m) {
      BranchIsOne(homes, offsets, plan, items, m);
    }
  }

}
