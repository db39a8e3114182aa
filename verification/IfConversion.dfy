/** Turning guarded forward branches into guards of the items they would jump over. */
module IfConversion {
  import opened Wrappers
  import opened ControlPlan
  import opened CfgBuilder
  import P = Ptx

  /** What the uniformity analysis says of a guarded branch. */
  datatype BranchState = Uniform | Varying | Unproven

  /** For a region, the items that keep a loop inside it uniform; an input. */
  type Slices = set<nat> -> set<nat>

  /** Where a guarded branch forward leaves to. */
  function ExitOf(items: seq<P.Item>, b: nat): (r: Option<nat>)
    requires b < |items|
    ensures r.Some? ==> b < r.value < |items| && items[r.value].Label?
  {
    if items[b].Code? && items[b].inst.op.base == P.Bra && items[b].inst.guard.Some?
       && |items[b].inst.operands| == 1 && items[b].inst.operands[0].Target? then
      match P.FindLabel(items, items[b].inst.operands[0].name, 0)
      case Some(t) => if t > b then Some(t) else None
      case None => None
    else None
  }

  predicate InRegion(items: seq<P.Item>, b: nat, i: nat)
    requires b < |items|
  {
    ExitOf(items, b).Some? && b < i < ExitOf(items, b).value && items[i].Code?
  }

  /** The instructions a branch jumps over. */
  function RegionOf(items: seq<P.Item>, b: nat): set<nat>
    requires b < |items|
  {
    set i: nat | i < |items| && InRegion(items, b, i)
  }

  predicate GoodPredicate(inst: P.Inst) {
    inst.guard.Some? && P.IsPredicate(inst.guard.value) && inst.guard.value.id < 8
  }

  function GuardFor(inst: P.Inst): ItemGuard
    requires inst.guard.Some?
  {
    ItemGuard(inst.guard.value.id, !inst.negated)
  }

  predicate NeedsGuard(items: seq<P.Item>, slice: Slices, b: nat, i: nat)
    requires b < |items|
  {
    InRegion(items, b, i) && i !in slice(RegionOf(items, b))
  }

  /** There is something to jump over, and no branch in it but those of the uniform slice. */
  predicate Straight(items: seq<P.Item>, slice: Slices, b: nat)
    requires b < |items|
  {
    RegionOf(items, b) != {} && forall i: nat | i < |items|
        && NeedsGuard(items, slice, b, i) :: items[i].inst.op.base != P.Bra
  }

  predicate NoConflict(items: seq<P.Item>, slice: Slices, b: nat, plan: Plan)
    requires b < |items| && items[b].Code? && items[b].inst.guard.Some?
  {
    forall i: nat | NeedsGuard(items, slice, b, i) && i in plan.guards :: plan.guards[i] == GuardFor(items[b].inst)
  }

  function Legalised(items: seq<P.Item>, slice: Slices, b: nat, plan: Plan): Plan
    requires b < |items| && items[b].Code? && items[b].inst.guard.Some?
  {
    Plan(plan.skip + {b},
         plan.guards + (map i | i in RegionOf(items, b) && i !in slice(RegionOf(items, b)) :: GuardFor(items[b].inst)),
         plan.emitted)
  }

  lemma StraightIsBranch(items: seq<P.Item>, slice: Slices, b: nat)
    requires b < |items| && Straight(items, slice, b)
    ensures ExitOf(items, b).Some? && items[b].Code? && items[b].inst.guard.Some?
  {
    var i :| i in RegionOf(items, b);
  }

  /** The plan after one more branch; the error names a branch whose predicate register does not exist. */
  function PlanNext(items: seq<P.Item>, states: map<nat, BranchState>, slice: Slices, plan: Plan,
                    b: nat): Result<Plan, nat>
    requires b < |items|
  {
    if b !in states || states[b] == Uniform then Ok(plan)
    else if !Straight(items, slice, b) then Ok(NotLegalised(states[b], plan, b))
    else
      StraightIsBranch(items, slice, b);
      if !GoodPredicate(items[b].inst) then Err(b)
      else if NoConflict(items, slice, b, plan) then Ok(Legalised(items, slice, b, plan))
      else Ok(NotLegalised(states[b], plan, b))
  }

  function NotLegalised(state: BranchState, plan: Plan, b: nat): Plan {
    if state == Varying then plan.(emitted := plan.emitted + {b}) else plan
  }

  function PlanUpTo(items: seq<P.Item>, states: map<nat, BranchState>, slice: Slices, n: nat): Result<Plan, nat>
    requires n <= |items|
  {
    if n == 0 then Ok(Plan({}, map[], set b | b in states && states[b] == Uniform))
    else match PlanUpTo(items, states, slice, n - 1)
         case Err(e) => Err(e)
         case Ok(plan) => PlanNext(items, states, slice, plan, n - 1)
  }

  // ----- the passes over the items -----

  lemma OneLabel(items: seq<P.Item>, i: nat, j: nat)
    requires DistinctLabels(items) && i < |items| && j < |items| && items[i].Label? && items[i] == items[j]
    ensures i == j
  {
  }

  /** `_label_indices`. */
  method LabelIndices(items: seq<P.Item>) returns (labels: map<string, nat>)
    requires DistinctLabels(items)
    ensures forall name :: if name in labels then P.FindLabel(items, name, 0) == Some(labels[name])
                           else P.FindLabel(items, name, 0).None?
  {
    labels := map[];
    for index := 0 to |items|
      invariant forall name | name in labels :: labels[name] < index && items[labels[name]] == P.Label(name)
      invariant forall i: nat | i < index && items[i].Label? :: items[i].name in labels
    {
      if items[index].Label? {
        labels := labels[items[index].name := index];
      }
    }
    forall name ensures if name in labels then P.FindLabel(items, name, 0) == Some(labels[name])
                        else P.FindLabel(items, name, 0).None?
    {
      var found := P.FindLabel(items, name, 0);
      if found.Some? && name in labels {
        OneLabel(items, found.value, labels[name]);
      }
    }
  }

  /** The instructions between a branch and its target. */
  method CollectRegion(items: seq<P.Item>, b: nat, target: nat) returns (region: set<nat>)
    requires b < target <= |items|
    ensures forall i: nat :: i in region <==> b < i < target && items[i].Code?
  {
    region := {};
    for index := b + 1 to target
      invariant forall i: nat :: i in region <==> b < i < index && items[i].Code?
    {
      if items[index].Code? {
        region := region + {index};
      }
    }
  }

  /** Whether a branch outside the uniform slice lies in the region. */
  method HasBranch(items: seq<P.Item>, b: nat, target: nat, control: set<nat>) returns (found: bool)
    requires b < target <= |items|
    ensures found <==> exists i: nat ::
                         b < i < target && items[i].Code? && i !in control && items[i].inst.op.base == P.Bra
  {
    for index := b + 1 to target
      invariant forall i: nat | b < i < index && items[i].Code? && i !in control :: items[i].inst.op.base != P.Bra
    {
      if items[index].Code? && items[index].inst.op.base == P.Bra && index !in control {
        return true;
      }
    }
    return false;
  }

  /** Whether an item of the region already has another guard. */
  method HasConflict(items: seq<P.Item>, b: nat, target: nat, control: set<nat>, guards: map<nat, ItemGuard>,
                     guard: ItemGuard)
    returns (found: bool)
    requires b < target <= |items|
    ensures found <==> exists i: nat ::
                         b < i < target && items[i].Code? && i !in control && i in guards && guards[i] != guard
  {
    for index := b + 1 to target
      invariant forall i: nat | b < i < index && items[i].Code? && i !in control && i in guards :: guards[i] == guard
    {
      if items[index].Code? && index !in control && index in guards && guards[index] != guard {
        return true;
      }
    }
    return false;
  }

  /** The guard for every item of the region outside the slice. */
  method AddGuards(items: seq<P.Item>, b: nat, target: nat, control: set<nat>, guards: map<nat, ItemGuard>,
                   guard: ItemGuard)
    returns (more: map<nat, ItemGuard>)
    requires b < target <= |items|
    ensures more == guards + map i: nat | b < i < target && items[i].Code? && i !in control :: guard
  {
    more := guards;
    for index := b + 1 to target
      invariant more == guards + map i: nat | b < i < index && items[i].Code? && i !in control :: guard
    {
      if items[index].Code? && index !in control {
        more := more[index := guard];
      }
    }
  }

  /** What `Straight`, `NoConflict` and `Legalised` say, in terms of the target. */
  lemma RegionFacts(items: seq<P.Item>, slice: Slices, b: nat, target: nat, plan: Plan)
    requires b < |items| && ExitOf(items, b) == Some(target)
    ensures items[b].Code? && items[b].inst.guard.Some?
    ensures forall i: nat :: i in RegionOf(items, b) <==> b < i < target && items[i].Code?
    ensures var control, guard := slice(RegionOf(items, b)), GuardFor(items[b].inst);
            && (Straight(items, slice, b) <==>
                (RegionOf(items, b) != {}
                 && !exists i: nat ::
                       b < i < target && items[i].Code? && i !in control && items[i].inst.op.base == P.Bra))
            && (NoConflict(items, slice, b, plan) <==>
                (!exists i: nat ::
                    b < i < target && items[i].Code? && i !in control && i in plan.guards && plan.guards[i] != guard))
            && Legalised(items, slice, b, plan).guards
               == plan.guards + map i: nat | b < i < target && items[i].Code? && i !in control :: guard
  {
  }

  lemma NoRegion(items: seq<P.Item>, slice: Slices, b: nat)
    requires b < |items| && ExitOf(items, b).None?
    ensures !Straight(items, slice, b)
  {
  }

  /** `_try_legalize_forward_exit`. */
  method TryLegalise(items: seq<P.Item>, labels: map<string, nat>, b: nat, slice: Slices, plan: Plan)
    returns (r: Result<(Plan, bool), nat>)
    requires b < |items|
    requires forall name :: if name in labels then P.FindLabel(items, name, 0) == Some(labels[name])
                            else P.FindLabel(items, name, 0).None?
    ensures r == if !Straight(items, slice, b) then Ok((plan, false))
                 else (StraightIsBranch(items, slice, b);
                       if !GoodPredicate(items[b].inst) then Err(b)
                       else if NoConflict(items, slice, b, plan) then Ok((Legalised(items, slice, b, plan), true))
                       else Ok((plan, false)))
  {
    hide Straight, NoConflict, P.FindLabel;
    if ExitOf(items, b).None? {
      NoRegion(items, slice, b);
    }
    if items[b].Label? || items[b].inst.op.base != P.Bra || items[b].inst.guard.None? || |items[b].inst.operands| != 1 {
      return Ok((plan, false));
    }
    var inst := items[b].inst;
    if !inst.operands[0].Target? || inst.operands[0].name !in labels || labels[inst.operands[0].name] <= b {
      return Ok((plan, false));
    }
    var target := labels[inst.operands[0].name];
    RegionFacts(items, slice, b, target, plan);
    hide *;
    var region := CollectRegion(items, b, target);
    assert region == RegionOf(items, b);
    if region == {} {
      return Ok((plan, false));
    }
    var control := slice(region);
    var stray := HasBranch(items, b, target, control);
    if stray {
      return Ok((plan, false));
    }
    if !GoodPredicate(inst) {
      return Err(b);
    }
    var guard := GuardFor(inst);
    var conflict := HasConflict(items, b, target, control, plan.guards, guard);
    if conflict {
      return Ok((plan, false));
    }
    var guards := AddGuards(items, b, target, control, plan.guards, guard);
    SamePlan(items, slice, b, plan);
    return Ok((Plan(plan.skip + {b}, guards, plan.emitted), true));
  }

  lemma SamePlan(items: seq<P.Item>, slice: Slices, b: nat, plan: Plan)
    requires b < |items| && items[b].Code? && items[b].inst.guard.Some?
    ensures Legalised(items, slice, b, plan) == Plan(plan.skip + {b}, Legalised(items, slice, b, plan).guards,
                                                     plan.emitted)
  {
  }

  /** `_build_control_plan`. */
  method BuildControlPlan(items: seq<P.Item>, states: map<nat, BranchState>, slice: Slices)
    returns (r: Result<Plan, nat>)
    requires DistinctLabels(items)
    ensures r == PlanUpTo(items, states, slice, |items|)
  {
    hide Straight, NoConflict, Legalised, P.FindLabel;
    var plan := Plan({}, map[], set b | b in states && states[b] == Uniform);
    var labels := LabelIndices(items);
    for b := 0 to |items|
      invariant PlanUpTo(items, states, slice, b) == Ok(plan)
    {
      if b in states && states[b] != Uniform {
        var tried := TryLegalise(items, labels, b, slice, plan);
        if tried.Err? {
          ErrorStays(items, states, slice, b + 1, |items|);
          return Err(tried.error);
        }
        var (plan', legalised) := tried.value;
        plan := plan';
        if !legalised && states[b] == Varying {
          plan := plan.(emitted := plan.emitted + {b});
        }
      }
    }
    return Ok(plan);
  }

  lemma {:induction false} ErrorStays(items: seq<P.Item>, states: map<nat, BranchState>, slice: Slices, m: nat, n: nat)
    requires m <= n <= |items| && PlanUpTo(items, states, slice, m).Err?
    ensures PlanUpTo(items, states, slice, n) == PlanUpTo(items, states, slice, m)
    decreases n
  {
    if m < n {
      ErrorStays(items, states, slice, m, n - 1);
    }
  }

  // ----- what a plan promises -----

  /** The items behind a branch that became a guard carry that guard, up to the branch target. */
  predicate Converted(plan: Plan, items: seq<P.Item>, b: nat) {
    && b < |items| && ExitOf(items, b).Some? && GoodPredicate(items[b].inst)
    && forall i: nat | i < |items| && InRegion(items, b, i) ::
         i in plan.guards && plan.guards[i] == GuardFor(items[b].inst) && items[i].inst.op.base != P.Bra
  }

  predicate GuardedBy(plan: Plan, items: seq<P.Item>, i: nat, b: nat) {
    b in plan.skip && b < |items| && InRegion(items, b, i)
  }

  /** Skipped branches are converted, and every guarded item lies behind one. */
  ghost predicate Legal(plan: Plan, items: seq<P.Item>) {
    && (forall b | b in plan.skip :: Converted(plan, items, b))
    && (forall i | i in plan.guards :: exists b :: GuardedBy(plan, items, i, b))
  }

  /** No region that could be converted holds a loop. */
  predicate NoInnerLoops(items: seq<P.Item>, slice: Slices) {
    forall b: nat | b < |items| :: slice(RegionOf(items, b)) == {}
  }

  /** A branch already converted stays converted: where regions meet the guards agree. */
  lemma StillConverted(items: seq<P.Item>, slice: Slices, b: nat, plan: Plan, c: nat)
    requires b < |items| && items[b].Code? && GoodPredicate(items[b].inst) && NoConflict(items, slice, b, plan)
    requires Converted(plan, items, c)
    ensures Converted(Legalised(items, slice, b, plan), items, c)
  {
    hide P.FindLabel;
    var plan' := Legalised(items, slice, b, plan);
    forall i: nat | i < |items| && InRegion(items, c, i)
      ensures i in plan'.guards && plan'.guards[i] == GuardFor(items[c].inst)
    {
      if i in RegionOf(items, b) && i !in slice(RegionOf(items, b)) {
        assert NeedsGuard(items, slice, b, i);
      }
    }
  }

  lemma NewlyConverted(items: seq<P.Item>, slice: Slices, b: nat, plan: Plan)
    requires b < |items| && Straight(items, slice, b) && slice(RegionOf(items, b)) == {}
    requires items[b].Code? && GoodPredicate(items[b].inst)
    ensures Converted(Legalised(items, slice, b, plan), items, b)
  {
    hide GoodPredicate, ExitOf, GuardFor;
    StraightIsBranch(items, slice, b);
    var plan' := Legalised(items, slice, b, plan);
    forall i: nat | i < |items| && InRegion(items, b, i)
      ensures i in plan'.guards && plan'.guards[i] == GuardFor(items[b].inst) && items[i].inst.op.base != P.Bra
    {
      assert NeedsGuard(items, slice, b, i) && i in RegionOf(items, b);
    }
  }

  lemma LegalisedConverts(items: seq<P.Item>, slice: Slices, b: nat, plan: Plan)
    requires b < |items| && Straight(items, slice, b) && slice(RegionOf(items, b)) == {} && Legal(plan, items)
    requires items[b].Code? && GoodPredicate(items[b].inst) && NoConflict(items, slice, b, plan)
    ensures Legal(Legalised(items, slice, b, plan), items)
  {
    hide Straight, NoConflict, GoodPredicate, ExitOf, Converted, InRegion;
    StraightIsBranch(items, slice, b);
    NewlyConverted(items, slice, b, plan);
    var plan' := Legalised(items, slice, b, plan);
    forall c | c in plan'.skip ensures Converted(plan', items, c) {
      if c != b {
        StillConverted(items, slice, b, plan, c);
      }
    }
    forall i | i in plan'.guards ensures exists c :: GuardedBy(plan', items, i, c) {
      if i in RegionOf(items, b) {
        assert GuardedBy(plan', items, i, b);
      } else {
        var c :| GuardedBy(plan, items, i, c);
        assert GuardedBy(plan', items, i, c);
      }
    }
  }

  /** Every plan the lowerer builds is legal. */
  lemma {:induction false} PlansAreLegal(items: seq<P.Item>, states: map<nat, BranchState>, slice: Slices, n: nat)
    requires n <= |items| && NoInnerLoops(items, slice) && PlanUpTo(items, states, slice, n).Ok?
    ensures Legal(PlanUpTo(items, states, slice, n).value, items)
    decreases n
  {
    hide Straight, NoConflict, Legalised, GoodPredicate, Legal;
    if n == 0 {
      NothingConverted(items, set b | b in states && states[b] == Uniform);
    } else {
      PlansAreLegal(items, states, slice, n - 1);
      var plan, b := PlanUpTo(items, states, slice, n - 1).value, n - 1;
      if b in states && states[b] != Uniform && Straight(items, slice, b) {
        StraightIsBranch(items, slice, b);
        if GoodPredicate(items[b].inst) && NoConflict(items, slice, b, plan) {
          LegalisedConverts(items, slice, b, plan);
        } else {
          EmittedIrrelevant(items, plan, plan.emitted + {b});
        }
      } else {
        EmittedIrrelevant(items, plan, plan.emitted + {b});
      }
    }
  }

  lemma NothingConverted(items: seq<P.Item>, emitted: set<nat>)
    ensures Legal(Plan({}, map[], emitted), items)
  {
  }

  lemma EmittedIrrelevant(items: seq<P.Item>, plan: Plan, emitted: set<nat>)
    requires Legal(plan, items)
    ensures Legal(plan.(emitted := emitted), items)
  {
    forall b | b in plan.skip ensures Converted(plan.(emitted := emitted), items, b) {
      assert Converted(plan, items, b);
    }
    forall i | i in plan.guards ensures exists b :: GuardedBy(plan.(emitted := emitted), items, i, b) {
      var b :| GuardedBy(plan, items, i, b);
      assert GuardedBy(plan.(emitted := emitted), items, i, b);
    }
  }

  /** No branch of a legal plan lies in the region of another. */
  lemma SkippedOutside(plan: Plan, items: seq<P.Item>, b: nat, c: nat)
    requires Legal(plan, items) && b in plan.skip && c in plan.skip
    ensures b < |items| && c < |items| && !InRegion(items, b, c)
  {
    assert Converted(plan, items, b) && Converted(plan, items, c);
  }

  /** Regions never overlap, so no two branches ever ask for different guards. */
  lemma RegionsDisjoint(plan: Plan, items: seq<P.Item>, b: nat, c: nat, i: nat)
    requires Legal(plan, items) && GuardedBy(plan, items, i, b) && GuardedBy(plan, items, i, c)
    ensures b == c
  {
    SkippedOutside(plan, items, b, c);
    SkippedOutside(plan, items, c, b);
    assert Converted(plan, items, b) && Converted(plan, items, c);
  }
}
