/** The lowering engine: one pass over the items, emitting code, then patching branch targets. */
module LoweringEngine {
  import opened Wrappers
  import opened Allocator
  import opened Expansion
  import opened CfgBuilder
  import opened ControlPlan
  import P = Ptx
  import A = Isa
  import R = PhysicalRun

  datatype LowerError = Exhausted(error: AllocationError) | NotLowerable(item: nat) | UnprovenBranch(item: nat)
      | UnknownTarget(name: string)

  /** More homes, the old ones unchanged. */
  ghost predicate Extends(homes: R.Homes, homes': R.Homes) {
    forall r | r in homes :: r in homes' && homes'[r] == homes[r]
  }

  /** The new homes are those of these registers. */
  ghost predicate Grown(homes: R.Homes, homes': R.Homes, rs: set<P.Reg>) {
    homes'.Keys <= homes.Keys + rs
  }

  lemma GrownNone(homes: R.Homes, rs: set<P.Reg>)
    ensures Grown(homes, homes, rs)
  {
  }

  lemma GrownBoth(a: R.Homes, b: R.Homes, c: R.Homes, rs: set<P.Reg>, rs': set<P.Reg>, all: set<P.Reg>)
    requires Grown(a, b, rs) && Grown(b, c, rs') && rs <= all && rs' <= all
    ensures Grown(a, c, all)
  {
  }

  /** An instruction needs a home for every register of such an operand. */
  lemma OperandNeeded(inst: P.Inst, k: nat)
    requires k < |inst.operands| && NeedsHome(inst.op.base, k)
    ensures Mentioned(inst.operands[k]) <= Needs(inst)
    ensures inst.operands[k].RegOp? || inst.operands[k].Addr? ==> {inst.operands[k].reg} <= Needs(inst)
  {
    assert forall r | r in P.OperandRegs(inst.operands[k]) :: r in Needs(inst);
  }

  lemma {:induction false} SourcesStable(homes: R.Homes, homes': R.Homes, sources: seq<P.Operand>, temp: nat)
    requires Extends(homes, homes')
    requires forall k | 0 <= k < |sources| :: IsSource(sources[k]) && Mentioned(sources[k]) <= homes.Keys
    ensures forall k | 0 <= k < |sources| :: Mentioned(sources[k]) <= homes'.Keys
    ensures SourceRegs(homes', sources, temp) == SourceRegs(homes, sources, temp)
    decreases |sources|
  {
    forall k, r | 0 <= k < |sources| && r in Mentioned(sources[k]) ensures r in homes' {
      assert r in homes;
    }
    if sources != [] {
      assert Mentioned(sources[0]) <= homes.Keys && (sources[0].RegOp? ==> sources[0].reg in Mentioned(sources[0]));
      SourcesStable(homes, homes', sources[1..], if sources[0].RegOp? then temp else temp + 1);
    }
  }

  /** Code once emitted stays right when further registers get homes. */
  lemma ExpandStable(homes: R.Homes, homes': R.Homes, offsets: map<nat, nat>, inst: P.Inst)
    requires Extends(homes, homes') && Lowerable(offsets, inst) && Needs(inst) <= homes.Keys
    ensures Needs(inst) <= homes'.Keys && Expand(homes', offsets, inst) == Expand(homes, offsets, inst)
  {
    forall r | r in Needs(inst) ensures r in homes' {
      assert r in homes;
    }
    SourcesHomed(homes, inst);
    if FromSources(KindOf(inst)) {
      hide Expand, SourceRegs, Preload, Mentioned, MainCode, Lowerable, KindOf, Needs;
      ExpandSources(homes, offsets, inst);
      ExpandSources(homes', offsets, inst);
      SourcesStable(homes, homes', inst.operands[1..], FIRST_TEMP);
    } else {
      AccessStable(homes, homes', offsets, inst);
    }
  }

  lemma AccessStable(homes: R.Homes, homes': R.Homes, offsets: map<nat, nat>, inst: P.Inst)
    requires Extends(homes, homes') && Lowerable(offsets, inst) && !FromSources(KindOf(inst))
    requires Needs(inst) <= homes.Keys && Needs(inst) <= homes'.Keys
    ensures Expand(homes', offsets, inst) == Expand(homes, offsets, inst)
  {
    SourcesHomed(homes, inst);
    SourcesHomed(homes', inst);
    var os := inst.operands;
    forall k | 0 <= k < |os| && (os[k].RegOp? || os[k].Addr?) && NeedsHome(inst.op.base, k)
      ensures BaseOf(homes', os[k]) == BaseOf(homes, os[k])
    {
      assert os[k].reg in Mentioned(os[k]);
    }
    hide SourceRegs, Preload, Mentioned, Guarded, Needs, BaseOf;
  }

  /** Code, label values and waiting branches stay as they are when registers get homes. */
  lemma {:induction false} UnpatchedStable(homes: R.Homes, homes': R.Homes, offsets: map<nat, nat>, plan: Plan,
                                           items: seq<P.Item>, n: nat)
    requires Extends(homes, homes') && Fitting(homes, offsets, plan, items, n)
    ensures Fitting(homes', offsets, plan, items, n)
    ensures Unpatched(homes', offsets, plan, items, n) == Unpatched(homes, offsets, plan, items, n)
    ensures Pending(homes', offsets, plan, items, n) == Pending(homes, offsets, plan, items, n)
    decreases n
  {
    hide Expand, Lowerable, Needs, EmitAll, Extends, FitsAt, ItemUnpatched, EmitsBranch;
    forall i: nat | i < n && Emits(plan, items, i) ensures FitsAt(homes', offsets, items[i].inst) {
      ItemStable(homes, homes', offsets, plan, items, i);
    }
    if n > 0 {
      UnpatchedStable(homes, homes', offsets, plan, items, n - 1);
      ItemStable(homes, homes', offsets, plan, items, n - 1);
    }
  }

  lemma ItemStable(homes: R.Homes, homes': R.Homes, offsets: map<nat, nat>, plan: Plan, items: seq<P.Item>, i: nat)
    requires Extends(homes, homes') && i < |items| && (Emits(plan, items, i) ==> FitsAt(homes, offsets, items[i].inst))
    ensures Emits(plan, items, i) ==> FitsAt(homes', offsets, items[i].inst)
    ensures ItemUnpatched(homes', offsets, plan, items, i) == ItemUnpatched(homes, offsets, plan, items, i)
  {
    hide Expand, Lowerable, Needs, EmitAll, Extends;
    if Emits(plan, items, i) {
      ExpandStable(homes, homes', offsets, items[i].inst);
    }
  }

  // ----- patching -----

  function PatchAll(code: seq<A.Inst>, pending: seq<(nat, string)>, labels: map<string, nat>, k: nat): (r: seq<A.Inst>)
    requires k <= |pending| && forall j | 0 <= j < k :: pending[j].0 < |code| && pending[j].1 in labels
    ensures |r| == |code|
  {
    if k == 0 then code
    else
      var before := PatchAll(code, pending, labels, k - 1);
      before[pending[k - 1].0 := before[pending[k - 1].0].(imm := labels[pending[k - 1].1])]
  }

  lemma {:induction false} PatchFrame(code: seq<A.Inst>, more: seq<A.Inst>, pending: seq<(nat, string)>,
                                      pending': seq<(nat, string)>, labels: map<string, nat>, k: nat)
    requires k <= |pending| <= |pending'| && pending'[..|pending|] == pending
    requires forall j | 0 <= j < k :: pending[j].0 < |code| && pending[j].1 in labels
    ensures forall j | 0 <= j < k :: pending'[j] == pending[j]
    ensures PatchAll(code + more, pending', labels, k) == PatchAll(code, pending, labels, k) + more
    decreases k
  {
    forall j | 0 <= j < k ensures pending'[j] == pending[j] {
      assert pending'[j] == pending'[..|pending|][j];
    }
    if k > 0 {
      PatchFrame(code, more, pending, pending', labels, k - 1);
    }
  }

  /** Waiting branches lie within the code. */
  lemma {:induction false} PendingInside(homes: R.Homes, offsets: map<nat, nat>, plan: Plan, items: seq<P.Item>, n: nat)
    requires Fitting(homes, offsets, plan, items, n)
    ensures AllBelow(Pending(homes, offsets, plan, items, n), At(homes, offsets, plan, items, n))
    decreases n
  {
    hide *;
    if n > 0 {
      FittingLess(homes, offsets, plan, items, n - 1, n);
      PendingInside(homes, offsets, plan, items, n - 1);
      PendingNext(homes, offsets, plan, items, n);
    } else {
      NothingPending(homes, offsets, plan, items);
    }
  }

  lemma NothingPending(homes: R.Homes, offsets: map<nat, nat>, plan: Plan, items: seq<P.Item>)
    requires Fitting(homes, offsets, plan, items, 0)
    ensures AllBelow(Pending(homes, offsets, plan, items, 0), At(homes, offsets, plan, items, 0))
  {
  }

  predicate AllBelow(pending: seq<(nat, string)>, at: nat) {
    forall j | 0 <= j < |pending| :: pending[j].0 < at
  }

  lemma PendingNext(homes: R.Homes, offsets: map<nat, nat>, plan: Plan, items: seq<P.Item>, n: nat)
    requires 0 < n && Fitting(homes, offsets, plan, items, n) && Fitting(homes, offsets, plan, items, n - 1)
    requires AllBelow(Pending(homes, offsets, plan, items, n - 1), At(homes, offsets, plan, items, n - 1))
    ensures AllBelow(Pending(homes, offsets, plan, items, n), At(homes, offsets, plan, items, n))
  {
    hide *;
    UnpatchedNext(homes, offsets, plan, items, n - 1);
    BranchLength(homes, offsets, plan, items, n);
    LengthIs(homes, offsets, plan, items, n - 1);
    LengthIs(homes, offsets, plan, items, n);
    var code := ItemUnpatched(homes, offsets, plan, items, n - 1);
    var more: seq<(nat, string)> :=
      if EmitsBranch(plan, items, n - 1) then [(At(homes, offsets, plan, items, n - 1),
                                                items[n - 1].inst.operands[0].name)]
      else [];
    BelowMore(Pending(homes, offsets, plan, items, n - 1), more, At(homes, offsets, plan, items, n - 1),
              At(homes, offsets, plan, items, n));
  }

  lemma BranchLength(homes: R.Homes, offsets: map<nat, nat>, plan: Plan, items: seq<P.Item>, n: nat)
    requires 0 < n && Fitting(homes, offsets, plan, items, n)
    ensures n <= |items| && (Emits(plan, items, n - 1) ==> FitsAt(homes, offsets, items[n - 1].inst))
    ensures EmitsBranch(plan, items, n - 1) ==> |ItemUnpatched(homes, offsets, plan, items, n - 1)| == 1
    ensures EmitsBranch(plan, items, n - 1) ==> items[n - 1].Code?
  {
    if EmitsBranch(plan, items, n - 1) {
      assert FitsAt(homes, offsets, items[n - 1].inst);
      BranchIsOne(homes, offsets, plan, items, n - 1);
    }
    hide ItemUnpatched, FitsAt;
  }

  lemma LengthIs(homes: R.Homes, offsets: map<nat, nat>, plan: Plan, items: seq<P.Item>, n: nat)
    requires Fitting(homes, offsets, plan, items, n)
    ensures At(homes, offsets, plan, items, n) == |Unpatched(homes, offsets, plan, items, n)|
  {
    hide Unpatched, Fitting;
  }

  lemma BelowMore(pending: seq<(nat, string)>, more: seq<(nat, string)>, at: nat, at': nat)
    requires AllBelow(pending, at) && at <= at' && AllBelow(more, at + 1) && (more != [] ==> at < at')
    ensures AllBelow(pending + more, at')
  {
  }

  /** Every label has the value of its place. */
  ghost predicate LabelsRight(homes: R.Homes, offsets: map<nat, nat>, plan: Plan, items: seq<P.Item>,
                              labels: map<string, nat>, n: nat)
    requires Fitting(homes, offsets, plan, items, n)
  {
    && (forall name | name in labels :: exists i: nat :: i < n && items[i] == P.Label(name))
    && (forall i: nat | i < n && items[i].Label? ::
        items[i].name in labels && labels[items[i].name] == LabelValue(homes, offsets, plan, items, n, i))
  }

  function LabelValue(homes: R.Homes, offsets: map<nat, nat>, plan: Plan, items: seq<P.Item>, n: nat, i: nat): nat
    requires Fitting(homes, offsets, plan, items, n) && i <= n
  {
    FittingLess(homes, offsets, plan, items, i, n);
    At(homes, offsets, plan, items, i)
  }

  lemma LabelAt(homes: R.Homes, offsets: map<nat, nat>, plan: Plan, items: seq<P.Item>, labels: map<string, nat>,
                i: nat)
    requires Fitting(homes, offsets, plan, items, |items|) && LabelsRight(homes, offsets, plan, items, labels, |items|)
    requires i < |items| && EmitsBranch(plan, items, i) && TargetExists(items, items[i].inst)
    ensures var name := items[i].inst.operands[0].name;
            var target := P.FindLabel(items, name, 0).value;
            Fitting(homes, offsets, plan, items, target)
            && name in labels && labels[name] == At(homes, offsets, plan, items, target)
  {
    var name := items[i].inst.operands[0].name;
    var target := P.FindLabel(items, name, 0).value;
    assert items[target] == P.Label(name);
    FittingLess(homes, offsets, plan, items, target, |items|);
    assert labels[items[target].name] == LabelValue(homes, offsets, plan, items, |items|, target);
    hide Unpatched, Fitting;
  }

  /** Patching the waiting branches of the unpatched code gives the planned code. */
  lemma {:induction false} PatchedIsPlanned(homes: R.Homes, offsets: map<nat, nat>, plan: Plan, items: seq<P.Item>,
                                            labels: map<string, nat>, n: nat)
    requires Fitting(homes, offsets, plan, items, |items|) && LabelsRight(homes, offsets, plan, items, labels, |items|)
    requires n <= |items| && TargetsExist(plan, items, n)
    ensures Fitting(homes, offsets, plan, items, n)
    ensures var code, pending := Unpatched(homes, offsets, plan, items, n), Pending(homes, offsets, plan, items, n);
            && (forall j | 0 <= j < |pending| :: pending[j].0 < |code| && pending[j].1 in labels)
            && PatchAll(code, pending, labels, |pending|) == Planned(homes, offsets, plan, items, n)
    decreases n
  {
    hide LabelsRight, ItemUnpatched, Fitting;
    FittingLess(homes, offsets, plan, items, n, |items|);
    if n > 0 {
      PatchedIsPlanned(homes, offsets, plan, items, labels, n - 1);
      PlannedNext(homes, offsets, plan, items, labels, n - 1);
    }
  }

  lemma PlannedNext(homes: R.Homes, offsets: map<nat, nat>, plan: Plan, items: seq<P.Item>, labels: map<string, nat>,
                    m: nat)
    requires Fitting(homes, offsets, plan, items, |items|) && LabelsRight(homes, offsets, plan, items, labels, |items|)
    requires m < |items| && TargetsExist(plan, items, m + 1)
    requires Fitting(homes, offsets, plan, items, m) && Fitting(homes, offsets, plan, items, m + 1)
    requires var code, pending := Unpatched(homes, offsets, plan, items, m), Pending(homes, offsets, plan, items, m);
             && (forall j | 0 <= j < |pending| :: pending[j].0 < |code| && pending[j].1 in labels)
             && PatchAll(code, pending, labels, |pending|) == Planned(homes, offsets, plan, items, m)
    ensures var code, pending := Unpatched(homes, offsets, plan, items, m + 1),
            Pending(homes, offsets, plan, items, m + 1);
            && (forall j | 0 <= j < |pending| :: pending[j].0 < |code| && pending[j].1 in labels)
            && PatchAll(code, pending, labels, |pending|) == Planned(homes, offsets, plan, items, m + 1)
  {
    hide LabelsRight, Fitting, Unpatched, Pending, PatchAll, P.FindLabel, ItemUnpatched;
    var code, pending := Unpatched(homes, offsets, plan, items, m), Pending(homes, offsets, plan, items, m);
    UnpatchedNext(homes, offsets, plan, items, m);
    var more := ItemUnpatched(homes, offsets, plan, items, m);
    if EmitsBranch(plan, items, m) {
      LabelAt(homes, offsets, plan, items, labels, m);
      BranchIsOne(homes, offsets, plan, items, m);
      assert more == [more[0]];
      PatchOneMore(code, more[0], pending, items[m].inst.operands[0].name, labels);
    } else {
      assert pending + [] == pending;
      PatchFrame(code, more, pending, pending, labels, |pending|);
    }
  }

  lemma PatchOneMore(code: seq<A.Inst>, one: A.Inst, pending: seq<(nat, string)>, name: string,
                     labels: map<string, nat>)
    requires name in labels && forall j | 0 <= j < |pending| :: pending[j].0 < |code| && pending[j].1 in labels
    ensures var pending' := pending + [(|code|, name)];
            && (forall j | 0 <= j < |pending'| :: pending'[j].0 < |code + [one]| && pending'[j].1 in labels)
            && PatchAll(code + [one], pending', labels, |pending'|)
               == PatchAll(code, pending, labels, |pending|) + [one.(imm := labels[name])]
  {
    hide PatchAll;
    var pending' := pending + [(|code|, name)];
    assert pending'[..|pending|] == pending;
    PatchFrame(code, [one], pending, pending', labels, |pending|);
    PatchLast(code + [one], pending', labels, |pending|);
  }

  lemma PatchLast(code: seq<A.Inst>, pending: seq<(nat, string)>, labels: map<string, nat>, k: nat)
    requires k < |pending| && forall j | 0 <= j <= k :: pending[j].0 < |code| && pending[j].1 in labels
    ensures var before := PatchAll(code, pending, labels, k);
            PatchAll(code, pending, labels, k + 1) == before[pending[k].0 :=
                                                             before[pending[k].0].(imm := labels[pending[k].1])]
  {
  }

  // ----- the invariant of the pass over the items -----

  predicate BranchesAllowed(plan: Plan, items: seq<P.Item>, n: nat)
    requires n <= |items|
  {
    forall i: nat | i < n && EmitsBranch(plan, items, i) && items[i].inst.guard.Some? :: i in plan.emitted
  }

  /** After `n` items: the code is the unpatched code, and labels and waiting branches are known. */
  ghost predicate SoFar(homes: R.Homes, offsets: map<nat, nat>, plan: Plan, items: seq<P.Item>, n: nat,
                        code: seq<A.Inst>, pending: seq<(nat, string)>, labels: map<string, nat>) {
    && Fitting(homes, offsets, plan, items, n) && BranchesAllowed(plan, items, n)
    && code == Unpatched(homes, offsets, plan, items, n) && pending == Pending(homes, offsets, plan, items, n)
    && LabelsRight(homes, offsets, plan, items, labels, n)
  }

  lemma SoFarNone(homes: R.Homes, offsets: map<nat, nat>, plan: Plan, items: seq<P.Item>)
    ensures SoFar(homes, offsets, plan, items, 0, [], [], map[])
  {
  }

  /** A label keeps its value when more items follow and more registers get homes. */
  lemma LabelValueStays(homes: R.Homes, homes': R.Homes, offsets: map<nat, nat>, plan: Plan, items: seq<P.Item>, n: nat,
                        n': nat, i: nat)
    requires Extends(homes, homes') && i <= n <= n'
    requires Fitting(homes, offsets, plan, items, n) && Fitting(homes', offsets, plan, items, n')
    ensures LabelValue(homes', offsets, plan, items, n', i) == LabelValue(homes, offsets, plan, items, n, i)
  {
    hide Fitting, Unpatched, Extends;
    FittingLess(homes, offsets, plan, items, i, n);
    FittingLess(homes', offsets, plan, items, i, n');
    UnpatchedStable(homes, homes', offsets, plan, items, i);
  }

  /** What the labels of `n` items say is still right one item further on. */
  lemma LabelsStay(homes: R.Homes, homes': R.Homes, offsets: map<nat, nat>, plan: Plan, items: seq<P.Item>,
                   labels: map<string, nat>, n: nat)
    requires Extends(homes, homes') && LabelsNeed(homes, offsets, plan, items, labels, n)
    requires n < |items| && Fitting(homes', offsets, plan, items, n + 1) && items[n].Code?
    ensures LabelsRight(homes', offsets, plan, items, labels, n + 1)
  {
    hide Fitting, LabelValue, Extends;
    forall i: nat | i < n + 1 && items[i].Label?
      ensures items[i].name in labels && labels[items[i].name] == LabelValue(homes', offsets, plan, items, n + 1, i)
    {
      LabelValueStays(homes, homes', offsets, plan, items, n, n + 1, i);
    }
    forall name | name in labels ensures exists i: nat :: i < n + 1 && items[i] == P.Label(name) {
      var i: nat :| i < n && items[i] == P.Label(name);
    }
  }

  ghost predicate LabelsNeed(homes: R.Homes, offsets: map<nat, nat>, plan: Plan, items: seq<P.Item>,
                             labels: map<string, nat>, n: nat) {
    Fitting(homes, offsets, plan, items, n) && LabelsRight(homes, offsets, plan, items, labels, n)
  }

  lemma FittingNext(homes: R.Homes, offsets: map<nat, nat>, plan: Plan, items: seq<P.Item>, n: nat)
    requires Fitting(homes, offsets, plan, items, n) && n < |items|
    requires Emits(plan, items, n) ==> FitsAt(homes, offsets, items[n].inst)
    ensures Fitting(homes, offsets, plan, items, n + 1)
  {
    hide FitsAt, Emits;
  }

  /** A label takes the value of the place it marks. */
  lemma SoFarLabel(homes: R.Homes, offsets: map<nat, nat>, plan: Plan, items: seq<P.Item>, n: nat,
                   code: seq<A.Inst>, pending: seq<(nat, string)>, labels: map<string, nat>)
    requires SoFar(homes, offsets, plan, items, n, code, pending, labels)
    requires DistinctLabels(items) && n < |items| && items[n].Label?
    ensures SoFar(homes, offsets, plan, items, n + 1, code, pending, labels[items[n].name := |code|])
  {
    hide Unpatched, Pending, Fitting, FitsAt, ItemUnpatched, LabelValue;
    FittingNext(homes, offsets, plan, items, n);
    UnpatchedNext(homes, offsets, plan, items, n);
    NoItemCode(homes, offsets, plan, items, n);
    NoHomesAdded(homes);
    var labels' := labels[items[n].name := |code|];
    forall i: nat | i < n + 1 && items[i].Label?
      ensures items[i].name in labels' && labels'[items[i].name] == LabelValue(homes, offsets, plan, items, n + 1, i)
    {
      if i == n {
        LabelValueHere(homes, offsets, plan, items, n);
      } else {
        assert items[i] != items[n];
        LabelValueStays(homes, homes, offsets, plan, items, n, n + 1, i);
      }
    }
    forall name | name in labels' ensures exists i: nat :: i < n + 1 && items[i] == P.Label(name) {
      if name == items[n].name {
        assert items[n] == P.Label(name);
      } else {
        var i: nat :| i < n && items[i] == P.Label(name);
      }
    }
    assert LabelsRight(homes, offsets, plan, items, labels', n + 1);
  }

  lemma LabelValueHere(homes: R.Homes, offsets: map<nat, nat>, plan: Plan, items: seq<P.Item>, n: nat)
    requires n < |items| && Fitting(homes, offsets, plan, items, n) && Fitting(homes, offsets, plan, items, n + 1)
    ensures LabelValue(homes, offsets, plan, items, n + 1, n) == |Unpatched(homes, offsets, plan, items, n)|
  {
    hide Unpatched, Fitting;
  }

  lemma NoItemCode(homes: R.Homes, offsets: map<nat, nat>, plan: Plan, items: seq<P.Item>, n: nat)
    requires n < |items| && !Emits(plan, items, n)
    ensures ItemUnpatched(homes, offsets, plan, items, n) == [] && !EmitsBranch(plan, items, n)
  {
  }

  /** A branch that became a guard leaves no code. */
  lemma SoFarSkip(homes: R.Homes, offsets: map<nat, nat>, plan: Plan, items: seq<P.Item>, n: nat,
                  code: seq<A.Inst>, pending: seq<(nat, string)>, labels: map<string, nat>)
    requires SoFar(homes, offsets, plan, items, n, code, pending, labels)
    requires n < |items| && items[n].Code? && n in plan.skip
    ensures SoFar(homes, offsets, plan, items, n + 1, code, pending, labels)
  {
    hide Unpatched, Pending, Fitting, FitsAt, ItemUnpatched, LabelsRight, Emits;
    NoItemEmitted(plan, items, n);
    FittingNext(homes, offsets, plan, items, n);
    UnpatchedNext(homes, offsets, plan, items, n);
    NoItemCode(homes, offsets, plan, items, n);
    NoHomesAdded(homes);
    LabelsStay(homes, homes, offsets, plan, items, labels, n);
  }

  lemma NoItemEmitted(plan: Plan, items: seq<P.Item>, n: nat)
    requires n < |items|
    ensures Emits(plan, items, n) <==> items[n].Code? && n !in plan.skip
  {
  }

  /** A branch emitted at `at` waits for its target. */
  function Waiting(inst: P.Inst, at: nat): seq<(nat, string)> {
    if KindOf(inst) == Branch && |inst.operands| == 1 && inst.operands[0].Target? then [(at, inst.operands[0].name)]
    else []
  }

  lemma WaitingIs(offsets: map<nat, nat>, inst: P.Inst, at: nat)
    requires Lowerable(offsets, inst)
    ensures KindOf(inst) == Branch ==> |inst.operands| == 1 && inst.operands[0].Target?
    ensures Waiting(inst, at) == if KindOf(inst) == Branch then [(at, inst.operands[0].name)] else []
  {
  }

  /** One instruction more, its registers given homes. */
  lemma SoFarCode(homes: R.Homes, homes': R.Homes, offsets: map<nat, nat>, plan: Plan, items: seq<P.Item>, n: nat,
                  code: seq<A.Inst>, pending: seq<(nat, string)>, labels: map<string, nat>)
    requires SoFar(homes, offsets, plan, items, n, code, pending, labels) && Extends(homes, homes')
    requires n < |items| && items[n].Code? && n !in plan.skip && FitsAt(homes', offsets, items[n].inst)
    requires KindOf(items[n].inst) == Branch && items[n].inst.guard.Some? ==> n in plan.emitted
    ensures SoFar(homes', offsets, plan, items, n + 1, code + EmitAll(plan, n, Expand(homes', offsets, items[n].inst)),
                  pending + Waiting(items[n].inst, |code|), labels)
  {
    hide Unpatched, Pending, Fitting, FitsAt, ItemUnpatched, LabelsRight, Emits, KindOf, Expand, EmitAll, Extends;
    NoItemEmitted(plan, items, n);
    UnpatchedStable(homes, homes', offsets, plan, items, n);
    FittingNext(homes', offsets, plan, items, n);
    UnpatchedNext(homes', offsets, plan, items, n);
    ItemCodeIs(homes', offsets, plan, items, n);
    WaitingIs(offsets, items[n].inst, |code|);
    LabelsStay(homes, homes', offsets, plan, items, labels, n);
  }

  lemma ItemCodeIs(homes: R.Homes, offsets: map<nat, nat>, plan: Plan, items: seq<P.Item>, n: nat)
    requires n < |items| && Emits(plan, items, n) && FitsAt(homes, offsets, items[n].inst)
    ensures Lowerable(offsets, items[n].inst) && Needs(items[n].inst) <= homes.Keys
    ensures ItemUnpatched(homes, offsets, plan, items, n) == EmitAll(plan, n, Expand(homes, offsets, items[n].inst))
    ensures EmitsBranch(plan, items, n) <==> KindOf(items[n].inst) == Branch
  {
    hide Expand, EmitAll, KindOf, Lowerable, Needs;
  }

  /** Which branch a waiting entry came from. */
  lemma {:induction false} PendingFrom(homes: R.Homes, offsets: map<nat, nat>, plan: Plan, items: seq<P.Item>, n: nat,
                                       j: nat) returns (i: nat)
    requires Fitting(homes, offsets, plan, items, n) && j < |Pending(homes, offsets, plan, items, n)|
    ensures i < n && EmitsBranch(plan, items, i) && |items[i].inst.operands| == 1
            && items[i].inst.operands[0] == P.Target(Pending(homes, offsets, plan, items, n)[j].1)
    decreases n
  {
    hide Fitting, Unpatched, ItemUnpatched, FitsAt, EmitsBranch;
    if n > 0 {
      UnpatchedNext(homes, offsets, plan, items, n - 1);
      if j < |Pending(homes, offsets, plan, items, n - 1)| {
        i := PendingFrom(homes, offsets, plan, items, n - 1, j);
      } else {
        i := n - 1;
      }
    }
  }

  /** And where a branch waits. */
  lemma {:induction false} PendingOf(homes: R.Homes, offsets: map<nat, nat>, plan: Plan, items: seq<P.Item>, n: nat,
                                     i: nat) returns (j: nat)
    requires Fitting(homes, offsets, plan, items, n) && i < n && EmitsBranch(plan, items, i)
    ensures |items[i].inst.operands| == 1 && items[i].inst.operands[0].Target?
    ensures j < |Pending(homes, offsets, plan, items, n)|
            && Pending(homes, offsets, plan, items, n)[j].1 == items[i].inst.operands[0].name
    decreases n
  {
    hide Fitting, Unpatched, ItemUnpatched, FitsAt, EmitsBranch;
    UnpatchedNext(homes, offsets, plan, items, n - 1);
    if i < n - 1 {
      j := PendingOf(homes, offsets, plan, items, n - 1, i);
    } else {
      j := |Pending(homes, offsets, plan, items, n - 1)|;
    }
  }

  /** Known names are those of labels. */
  lemma KnownTarget(homes: R.Homes, offsets: map<nat, nat>, plan: Plan, items: seq<P.Item>, labels: map<string, nat>,
                    name: string)
    requires Fitting(homes, offsets, plan, items, |items|) && LabelsRight(homes, offsets, plan, items, labels, |items|)
    ensures name in labels <==> P.FindLabel(items, name, 0).Some?
  {
    hide Fitting, LabelValue;
    var found := P.FindLabel(items, name, 0);
    if found.Some? {
      assert items[found.value] == P.Label(name);
    }
  }

  /** Why a program is not lowered. */
  ghost predicate Refused(e: LowerError, offsets: map<nat, nat>, plan: Plan, items: seq<P.Item>) {
    match e
    case Exhausted(reason) => reason == OutOfRegisters
    case NotLowerable(k) => k < |items| && Emits(plan, items, k) && !Lowerable(offsets, items[k].inst)
    case UnprovenBranch(k) =>
      k < |items| && Emits(plan, items, k) && items[k].inst.op.base == P.Bra && items[k].inst.guard.Some?
          && k !in plan.emitted
    case UnknownTarget(name) =>
      P.FindLabel(items, name, 0).None?
      && exists i: nat :: i < |items| && EmitsBranch(plan, items, i) && items[i].inst.operands == [P.Target(name)]
  }

  lemma RefusedAt(e: LowerError, offsets: map<nat, nat>, plan: Plan, items: seq<P.Item>, i: nat)
    requires i < |items| && items[i].Code? && i !in plan.skip && Explains(e, offsets, plan, i, items[i].inst)
    ensures Refused(e, offsets, plan, items)
  {
    hide Lowerable;
  }

  lemma RefusedTarget(homes: R.Homes, offsets: map<nat, nat>, plan: Plan, items: seq<P.Item>, code: seq<A.Inst>,
                      pending: seq<(nat, string)>, labels: map<string, nat>, j: nat)
    requires SoFar(homes, offsets, plan, items, |items|, code, pending, labels)
    requires j < |pending| && pending[j].1 !in labels
    ensures Refused(UnknownTarget(pending[j].1), offsets, plan, items)
  {
    hide Fitting, LabelsRight, Unpatched, Pending;
    KnownTarget(homes, offsets, plan, items, labels, pending[j].1);
    var i := PendingFrom(homes, offsets, plan, items, |items|, j);
    assert items[i].inst.operands == [P.Target(pending[j].1)];
  }

  lemma SoFarPatchable(homes: R.Homes, offsets: map<nat, nat>, plan: Plan, items: seq<P.Item>, n: nat,
                       code: seq<A.Inst>, pending: seq<(nat, string)>, labels: map<string, nat>)
    requires SoFar(homes, offsets, plan, items, n, code, pending, labels)
    ensures forall j | 0 <= j < |pending| :: pending[j].0 < |code|
  {
    hide Fitting, LabelsRight, Unpatched, Pending;
    PendingInside(homes, offsets, plan, items, n);
  }

  /** With every waiting branch patched the program is the planned one. */
  lemma SoFarDone(homes: R.Homes, offsets: map<nat, nat>, plan: Plan, items: seq<P.Item>, code: seq<A.Inst>,
                  pending: seq<(nat, string)>, labels: map<string, nat>)
    requires SoFar(homes, offsets, plan, items, |items|, code, pending, labels)
    requires forall j | 0 <= j < |pending| :: pending[j].0 < |code| && pending[j].1 in labels
    ensures IsLowered(homes, offsets, plan, items, PatchAll(code, pending, labels, |pending|))
  {
    hide Fitting, LabelsRight, Unpatched, Pending, PatchAll, Planned, P.FindLabel;
    forall i: nat | i < |items| && EmitsBranch(plan, items, i) ensures TargetExists(items, items[i].inst) {
      var j := PendingOf(homes, offsets, plan, items, |items|, i);
      KnownTarget(homes, offsets, plan, items, labels, pending[j].1);
    }
    PatchedIsPlanned(homes, offsets, plan, items, labels, |items|);
  }

  /** The lowered program: every item fits, every target exists, and the code is the planned code. */
  ghost predicate IsLowered(homes: R.Homes, offsets: map<nat, nat>, plan: Plan, items: seq<P.Item>, code: seq<A.Inst>) {
    && Fitting(homes, offsets, plan, items, |items|) && TargetsExist(plan, items, |items|)
        && BranchesAllowed(plan, items, |items|)
    && code == Planned(homes, offsets, plan, items, |items|)
  }

  // ----- operands, one at a time -----

  function Immediates(sources: seq<P.Operand>): (n: nat)
    ensures n <= |sources|
  {
    if sources == [] then 0 else Immediates(sources[1..]) + if sources[0].RegOp? then 0 else 1
  }

  lemma {:induction false} PreloadAppend(sources: seq<P.Operand>, o: P.Operand, temp: nat)
    requires IsSource(o) && forall k | 0 <= k < |sources| :: IsSource(sources[k])
    ensures Preload(sources + [o], temp) == Preload(sources, temp) + Preload([o], temp + Immediates(sources))
    ensures Immediates(sources + [o]) == Immediates(sources) + if o.RegOp? then 0 else 1
    decreases |sources|
  {
    if sources == [] {
      assert sources + [o] == [o] && [o][1..] == [];
    } else {
      assert IsSource(sources[0]) && (sources + [o])[1..] == sources[1..] + [o];
      PreloadAppend(sources[1..], o, if sources[0].RegOp? then temp else temp + 1);
    }
  }

  lemma {:induction false} SourceRegsAppend(homes: R.Homes, sources: seq<P.Operand>, o: P.Operand, temp: nat)
    requires IsSource(o) && Mentioned(o) <= homes.Keys
    requires forall k | 0 <= k < |sources| :: IsSource(sources[k]) && Mentioned(sources[k]) <= homes.Keys
    ensures SourceRegs(homes, sources + [o], temp)
         == SourceRegs(homes, sources, temp) + [if o.RegOp? then BaseOf(homes, o) else temp + Immediates(sources)]
    decreases |sources|
  {
    if sources == [] {
      assert sources + [o] == [o] && [o][1..] == [];
    } else {
      assert (sources + [o])[1..] == sources[1..] + [o];
      SourceRegsAppend(homes, sources[1..], o, if sources[0].RegOp? then temp else temp + 1);
    }
  }

  lemma OneOperand(o: P.Operand, temp: nat)
    requires IsSource(o)
    ensures Preload([o], temp) == if o.RegOp? then [] else [LoadImmediate(temp, ParseImmediate(o).value)]
  {
    assert [o][1..] == [];
  }

  lemma ExtendsTransitive(a: R.Homes, b: R.Homes, c: R.Homes)
    requires Extends(a, b) && Extends(b, c)
    ensures Extends(a, c)
  {
  }

  /** These operands are loaded: where they are, the next temporary, and the code that put them there. */
  ghost predicate Loaded(homes: R.Homes, plan: Plan, i: nat, sources: seq<P.Operand>, rs: seq<nat>, temp: nat,
                         emitted: seq<A.Inst>) {
    && (forall k | 0 <= k < |sources| :: IsSource(sources[k]) && Mentioned(sources[k]) <= homes.Keys)
    && rs == SourceRegs(homes, sources, FIRST_TEMP) && temp == FIRST_TEMP + Immediates(sources)
    && emitted == EmitAll(plan, i, Preload(sources, FIRST_TEMP))
  }

  lemma LoadedNext(homes: R.Homes, homes': R.Homes, plan: Plan, i: nat, sources: seq<P.Operand>, rs: seq<nat>,
                   temp: nat, emitted: seq<A.Inst>, o: P.Operand)
    requires Loaded(homes, plan, i, sources, rs, temp, emitted) && Extends(homes, homes')
    requires IsSource(o) && Mentioned(o) <= homes'.Keys
    ensures Loaded(homes', plan, i, sources + [o], rs + [if o.RegOp? then BaseOf(homes', o) else temp],
                   temp + (if o.RegOp? then 0 else 1), emitted + EmitAll(plan, i, Preload([o], temp)))
  {
    hide Extends, Preload, SourceRegs, Mentioned;
    SourcesStable(homes, homes', sources, FIRST_TEMP);
    PreloadAppend(sources, o, FIRST_TEMP);
    SourceRegsAppend(homes', sources, o, FIRST_TEMP);
    EmitAppend(plan, i, Preload(sources, FIRST_TEMP), Preload([o], FIRST_TEMP + Immediates(sources)));
  }

  lemma LoadedNone(homes: R.Homes, plan: Plan, i: nat)
    ensures Extends(homes, homes) && Loaded(homes, plan, i, [], [], FIRST_TEMP, [])
  {
  }

  lemma LoadedTemps(homes: R.Homes, plan: Plan, i: nat, sources: seq<P.Operand>, rs: seq<nat>, temp: nat,
                    emitted: seq<A.Inst>)
    requires Loaded(homes, plan, i, sources, rs, temp, emitted) && |sources| <= 3
    ensures FIRST_TEMP <= temp <= LAST_REGISTER
  {
  }

  /** Homes for the destination and for the sources are all an instruction needs. */
  lemma NeedsCovered(homes: R.Homes, offsets: map<nat, nat>, inst: P.Inst)
    requires Lowerable(offsets, inst) && FromSources(KindOf(inst))
    requires KindOf(inst) != SetPredicate ==> inst.operands[0].reg in homes
    requires forall k | 0 <= k < |inst.operands[1..]| :: Mentioned(inst.operands[1..][k]) <= homes.Keys
    ensures Needs(inst) <= homes.Keys
  {
    forall r | r in Needs(inst) ensures r in homes {
      var k :| 0 <= k < |inst.operands| && r in P.OperandRegs(inst.operands[k]) && NeedsHome(inst.op.base, k);
      if k > 0 {
        assert inst.operands[1..][k - 1] == inst.operands[k];
      }
    }
  }

  // ----- register widths -----

  /** Pair registers, and only they, have two registers. */
  predicate WidthsRight(homes: R.Homes) {
    forall r | r in homes :: homes[r].width == Width(P.IsPair(r))
  }

  /** Looking a register up with this flag gives it the width of its class. */
  predicate FlagRight(r: P.Reg, pair: bool) {
    (pair || r.cls == P.ClassRd) == P.IsPair(r)
  }

  /** The flag with which the lowerer looks up operand `k`. */
  predicate LookedUpAsPair(inst: P.Inst, k: nat) {
    match KindOf(inst)
    case LdParam | Move => Wide(inst.op.ty)
    case LdGlobal => k == 1
    case StGlobal | WideMultiply => k == 0
    case WideAdd => true
    case _ => false
  }

  /** Every register operand is of the class its place calls for. */
  predicate WellWidthed(inst: P.Inst) {
    forall k: nat, r | k < |inst.operands| && r in P.OperandRegs(inst.operands[k]) && NeedsHome(inst.op.base, k) ::
      FlagRight(r, LookedUpAsPair(inst, k))
  }

  lemma FlagOf(inst: P.Inst, k: nat)
    requires k < |inst.operands| && (inst.operands[k].RegOp? || inst.operands[k].Addr?) && NeedsHome(inst.op.base, k)
    ensures WellWidthed(inst) ==> FlagRight(inst.operands[k].reg, LookedUpAsPair(inst, k))
  {
    assert inst.operands[k].reg in P.OperandRegs(inst.operands[k]);
  }

  lemma AccessFlags(offsets: map<nat, nat>, inst: P.Inst)
    requires Lowerable(offsets, inst) && KindOf(inst) in {LdParam, LdGlobal, StGlobal, Move} && WellWidthed(inst)
    ensures |inst.operands| == 2
    ensures KindOf(inst) == LdParam ==> inst.operands[0].RegOp? && FlagRight(inst.operands[0].reg, Wide(inst.op.ty))
    ensures KindOf(inst) == LdGlobal ==>
              && inst.operands[0].RegOp? && inst.operands[1].Addr?
              && FlagRight(inst.operands[0].reg, false) && FlagRight(inst.operands[1].reg, true)
    ensures KindOf(inst) == StGlobal ==>
              && inst.operands[0].Addr? && inst.operands[1].RegOp?
              && FlagRight(inst.operands[0].reg, true) && FlagRight(inst.operands[1].reg, false)
    ensures KindOf(inst) == Move ==>
              && inst.operands[0].RegOp? && FlagRight(inst.operands[0].reg, Wide(inst.op.ty))
              && (inst.operands[1].RegOp? ==> FlagRight(inst.operands[1].reg, Wide(inst.op.ty)))
  {
    hide FlagRight, WellWidthed;
    FlagOf(inst, 0);
    if KindOf(inst) == LdGlobal || KindOf(inst) == StGlobal || inst.operands[1].RegOp? {
      FlagOf(inst, 1);
    }
  }

  lemma SourceFlags(offsets: map<nat, nat>, inst: P.Inst)
    requires Lowerable(offsets, inst) && FromSources(KindOf(inst)) && WellWidthed(inst)
    ensures inst.operands != [] && inst.operands[0].RegOp?
    ensures KindOf(inst) != SetPredicate ==>
              FlagRight(inst.operands[0].reg, KindOf(inst) == WideMultiply || KindOf(inst) == WideAdd)
    ensures FlagsRight(inst.operands[1..], KindOf(inst) == WideAdd)
  {
    hide FlagRight, WellWidthed;
    if KindOf(inst) != SetPredicate {
      FlagOf(inst, 0);
    }
    forall k | 0 <= k < |inst.operands[1..]| && inst.operands[1..][k].RegOp?
      ensures FlagRight(inst.operands[1..][k].reg, KindOf(inst) == WideAdd)
    {
      FlagOf(inst, k + 1);
    }
  }

  predicate AllWellWidthed(plan: Plan, items: seq<P.Item>) {
    forall i: nat | i < |items| && Emits(plan, items, i) :: WellWidthed(items[i].inst)
  }

  /** Every register that some emitted instruction needs a home for. */
  function NeededRegs(plan: Plan, items: seq<P.Item>): set<P.Reg> {
    set i: nat, r | i < |items| && Emits(plan, items, i) && r in Needs(items[i].inst) :: r
  }

  lemma NeededAt(plan: Plan, items: seq<P.Item>, i: nat)
    requires i < |items| && items[i].Code? && i !in plan.skip
    ensures Needs(items[i].inst) <= NeededRegs(plan, items)
  {
    hide Needs;
    assert Emits(plan, items, i);
  }

  lemma WidthAt(plan: Plan, items: seq<P.Item>, i: nat)
    requires i < |items|
    ensures Emits(plan, items, i) <==> items[i].Code? && i !in plan.skip
    ensures AllWellWidthed(plan, items) && Emits(plan, items, i) ==> WellWidthed(items[i].inst)
  {
  }

  predicate FlagsRight(sources: seq<P.Operand>, pair: bool) {
    forall k | 0 <= k < |sources| && sources[k].RegOp? :: FlagRight(sources[k].reg, pair)
  }

  lemma FlagAt(sources: seq<P.Operand>, pair: bool, k: nat)
    requires FlagsRight(sources, pair) && k < |sources|
    ensures sources[k].RegOp? ==> FlagRight(sources[k].reg, pair)
  {
  }

  lemma OperandMentions(o: P.Operand)
    requires IsSource(o)
    ensures Mentioned(o) == if o.RegOp? then {o.reg} else {}
    ensures !o.RegOp? ==> ParseImmediate(o).Some?
  {
  }

  lemma OperandBase(homes: R.Homes, o: P.Operand)
    requires o.RegOp? && o.reg in homes
    ensures Mentioned(o) <= homes.Keys && BaseOf(homes, o) == homes[o.reg].base
  {
  }

  lemma NoCode(plan: Plan, i: nat)
    ensures EmitAll(plan, i, []) == []
  {
  }

  /** A token looked up: it keeps its home or gets one of the width of the flag. */
  lemma OneHomeMore(mapping: map<P.Reg, nat>, width: map<P.Reg, nat>, r: P.Reg, base: nat, pair: bool)
    requires width.Keys == mapping.Keys
    ensures var homes := R.HomesOf(mapping, width);
            && (r in mapping ==> r in homes && homes[r].base == mapping[r])
            && Extends(homes, homes) && Grown(homes, homes, {r})
    ensures r !in mapping ==>
              var homes := R.HomesOf(mapping, width);
              var homes' := R.HomesOf(mapping[r := base], width[r := Width(pair || r.cls == P.ClassRd)]);
              && r in homes' && homes'[r].base == base && Extends(homes, homes') && Grown(homes, homes', {r})
              && (WidthsRight(homes) && FlagRight(r, pair) ==> WidthsRight(homes'))
  {
  }

  /** The lowerer's state: the allocator, the code so far, label values, and branches waiting for theirs. */
  class Lowerer {
    const items: seq<P.Item>
    const offsets: map<nat, nat>
    const plan: Plan
    const regs: RegisterAllocator
    var instructions: seq<A.Inst>
    var labels: map<string, nat>
    var pendingBranches: seq<(nat, string)>

    constructor (items: seq<P.Item>, offsets: map<nat, nat>, plan: Plan, preMapping: map<P.Reg, nat>)
      ensures fresh(regs) && regs.Valid() && regs.preMapping == preMapping && regs.mapping == preMapping
      ensures this.items == items && this.offsets == offsets && this.plan == plan
      ensures instructions == [] && labels == map[] && pendingBranches == []
    {
      this.items, this.offsets, this.plan := items, offsets, plan;
      regs := new RegisterAllocator(preMapping);
      instructions, labels, pendingBranches := [], map[], [];
    }

    ghost function Homes(): R.Homes
      requires regs.Valid()
      reads regs
    {
      R.HomesOf(regs.mapping, regs.width)
    }

    /** The allocator has no place left for a register, or for a pair. */
    ghost predicate Full(e: LowerError)
      reads regs
    {
      && e == Exhausted(OutOfRegisters)
      && (NoRoom(regs.next, regs.reserved, 1) || NoRoom(regs.next, regs.reserved, 2))
    }

    lemma HomesAre()
      requires regs.Valid()
      ensures regs.width.Keys == regs.mapping.Keys && Homes() == R.HomesOf(regs.mapping, regs.width)
    {
      regs.SameTokens();
      hide R.HomesOf, Separate;
    }

    lemma FullIs(e: LowerError)
      requires Full(e)
      ensures e == Exhausted(OutOfRegisters)
    {
      hide NoRoom;
    }

    lemma FullFor(pair: bool)
      requires regs.Valid()
      ensures NoRoom(regs.next, regs.reserved, Width(pair)) ==> Full(Exhausted(OutOfRegisters))
    {
      hide NoRoom;
    }

    method Emit(i: nat, a: A.Inst)
      modifies this`instructions
      ensures instructions == old(instructions) + EmitAll(plan, i, [a])
    {
      instructions := instructions + [WithItemGuard(plan, i, a)];
    }

    /** `_ptx_reg`. */
    method PtxReg(r: P.Reg, pair: bool) returns (x: Result<nat, LowerError>)
      requires regs.Valid()
      modifies regs
      ensures regs.Valid() && Extends(old(Homes()), Homes()) && regs.tempNext == old(regs.tempNext)
      ensures Grown(old(Homes()), Homes(), {r})
      ensures x.Ok? ==> r in Homes() && x.value == Homes()[r].base
      ensures x.Err? ==> Full(x.error)
      ensures WidthsRight(old(Homes())) && FlagRight(r, pair) ==> WidthsRight(Homes())
    {
      hide *;
      ghost var mapping, width := regs.mapping, regs.width;
      HomesAre();
      var got := regs.Register(r, pair || r.cls == P.ClassRd);
      HomesAre();
      FullFor(pair || r.cls == P.ClassRd);
      if got.Err? {
        NoHomesAdded(Homes());
        GrownNone(Homes(), {r});
        return Err(Exhausted(got.error));
      }
      OneHomeMore(mapping, width, r, got.value, pair);
      return Ok(got.value);
    }

    /** `_operand_reg`. */
    method OperandReg(i: nat, o: P.Operand, pair: bool) returns (x: Result<nat, LowerError>)
      requires regs.Valid() && IsSource(o) && regs.tempNext <= LAST_REGISTER
      modifies this`instructions, regs
      ensures regs.Valid() && Extends(old(Homes()), Homes()) && Grown(old(Homes()), Homes(), Mentioned(o))
      ensures x.Ok? ==>
                && Mentioned(o) <= Homes().Keys
                && x.value == (if o.RegOp? then BaseOf(Homes(), o) else old(regs.tempNext))
                && regs.tempNext == old(regs.tempNext) + (if o.RegOp? then 0 else 1)
                && instructions == old(instructions) + EmitAll(plan, i, Preload([o], old(regs.tempNext)))
      ensures x.Err? ==> Full(x.error)
      ensures WidthsRight(old(Homes())) && (o.RegOp? ==> FlagRight(o.reg, pair)) ==> WidthsRight(Homes())
    {
      hide *;
      OneOperand(o, regs.tempNext);
      OperandMentions(o);
      NoCode(plan, i);
      NoHomesAdded(Homes());
      GrownNone(Homes(), Mentioned(o));
      if o.RegOp? {
        x := PtxReg(o.reg, pair);
        assert instructions == instructions + [];
        if x.Ok? {
          OperandBase(Homes(), o);
        }
      } else {
        ghost var before := Homes();
        HomesAre();
        LastTempIs();
        var temp := regs.Temp();
        HomesAre();
        Emit(i, LoadImmediate(temp.value, ParseImmediate(o).value));
        return Ok(temp.value);
      }
    }

    /** The operands of one instruction, in order. */
    method OperandRegs(i: nat, sources: seq<P.Operand>, pair: bool, ghost needed: set<P.Reg>)
      returns (rs: seq<nat>, error: Option<LowerError>, ghost emitted: seq<A.Inst>)
      requires regs.Valid() && regs.tempNext == FIRST_TEMP && |sources| <= 3
      requires forall k | 0 <= k < |sources| :: IsSource(sources[k]) && Mentioned(sources[k]) <= needed
      modifies this`instructions, regs
      ensures regs.Valid() && Extends(old(Homes()), Homes()) && Grown(old(Homes()), Homes(), needed)
      ensures error.None? ==> Loaded(Homes(), plan, i, sources, rs, regs.tempNext, emitted)
      ensures error.None? ==> instructions == old(instructions) + emitted
      ensures error.Some? ==> Full(error.value)
      ensures WidthsRight(old(Homes())) && FlagsRight(sources, pair) ==> WidthsRight(Homes())
    {
      rs, error, emitted := [], None, [];
      hide *;
      ghost var before := Homes();
      LoadedNone(before, plan, i);
      GrownNone(before, needed);
      for j := 0 to |sources|
        invariant regs.Valid() && Extends(before, Homes()) && Grown(before, Homes(), needed)
        invariant WidthsRight(before) && FlagsRight(sources, pair) ==> WidthsRight(Homes())
        invariant Loaded(Homes(), plan, i, sources[..j], rs, regs.tempNext, emitted)
        invariant instructions == old(instructions) + emitted
      {
        ghost var homes, temp := Homes(), regs.tempNext;
        LoadedTemps(homes, plan, i, sources[..j], rs, temp, emitted);
        if FlagsRight(sources, pair) {
          FlagAt(sources, pair, j);
        }
        var x := OperandReg(i, sources[j], pair);
        ExtendsTransitive(before, homes, Homes());
        GrownBoth(before, homes, Homes(), needed, Mentioned(sources[j]), needed);
        if x.Err? {
          return rs, Some(x.error), emitted;
        }
        LoadedNext(homes, Homes(), plan, i, sources[..j], rs, temp, emitted, sources[j]);
        assert sources[..j + 1] == sources[..j] + [sources[j]];
        rs := rs + [x.value];
        emitted := emitted + EmitAll(plan, i, Preload([sources[j]], temp));
      }
      assert sources[..|sources|] == sources;
    }

    /** The ends of `_lower_setp` and `_lower_alu`. */
    method EmitMain(i: nat, inst: P.Inst, dest: nat, rs: seq<nat>)
      requires Lowerable(offsets, inst) && FromSources(KindOf(inst)) && |rs| == (if KindOf(inst) == Fused then 3 else 2)
      modifies this`instructions
      ensures instructions == old(instructions) + EmitAll(plan, i, MainCode(inst, dest, rs))
    {
      OpcodeKnown(offsets, inst);
      hide EmitAll, Guarded, KindOf, AluOpcode;
      var kind := KindOf(inst);
      if kind == SetPredicate {
        Emit(i, Guarded(inst, A.Inst(A.CMPP, AecType(inst.op.ty).value, dest, rs[0], rs[1],
                                     compare := Some(inst.op.mods[0].op))));
      } else if kind == WideMultiply {
        Emit(i, Guarded(inst, A.Inst(A.MUL, A.U32, dest, rs[0], rs[1])));
        Emit(i, Guarded(inst, A.Inst(A.LOADI, A.U32, dest + 1)));
        EmitTwo(plan, i, MainCode(inst, dest, rs));
      } else if kind == WideAdd {
        Emit(i, Guarded(inst, A.Inst(A.ADD, A.U32, dest, rs[0], rs[1])));
        Emit(i, Guarded(inst, A.Inst(A.LOADI, A.U32, dest + 1)));
        EmitTwo(plan, i, MainCode(inst, dest, rs));
      } else if kind == Fused {
        Emit(i, Guarded(inst, A.Inst(AluOpcode(inst.op.base).value, AluType(inst), dest, rs[0], rs[1], rs[2])));
      } else {
        Emit(i, Guarded(inst, A.Inst(AluOpcode(inst.op.base).value, AluType(inst), dest, rs[0], rs[1])));
      }
    }

    /** The destination of `_lower_setp` or `_lower_alu`. */
    method LowerDestination(inst: P.Inst) returns (x: Result<nat, LowerError>)
      requires regs.Valid() && Lowerable(offsets, inst) && FromSources(KindOf(inst))
      modifies regs
      ensures regs.Valid() && Extends(old(Homes()), Homes()) && regs.tempNext == old(regs.tempNext)
      ensures Grown(old(Homes()), Homes(), Needs(inst))
      ensures x.Ok? ==> DestinationAt(Homes(), inst, x.value)
      ensures x.Err? ==> Full(x.error)
      ensures WellWidthed(inst) && WidthsRight(old(Homes())) ==> WidthsRight(Homes())
    {
      hide *;
      if WellWidthed(inst) {
        SourceFlags(offsets, inst);
      }
      DestinationLookup(Homes(), offsets, inst);
      if KindOf(inst) == SetPredicate {
        return Ok(inst.operands[0].reg.id);
      }
      ghost var before := Homes();
      x := PtxReg(inst.operands[0].reg, KindOf(inst) == WideMultiply || KindOf(inst) == WideAdd);
      GrownBoth(before, before, Homes(), {}, {inst.operands[0].reg}, Needs(inst));
      if x.Ok? {
        DestinationFound(Homes(), inst, x.value);
      }
    }

    /** `_lower_setp` and `_lower_alu`: destination, operands, then the instruction or two. */
    method LowerFromSources(i: nat, inst: P.Inst) returns (error: Option<LowerError>)
      requires regs.Valid() && regs.tempNext == FIRST_TEMP && Lowerable(offsets, inst) && FromSources(KindOf(inst))
      modifies this`instructions, regs
      ensures regs.Valid() && Extends(old(Homes()), Homes()) && Grown(old(Homes()), Homes(), Needs(inst))
      ensures error.None? ==> Needs(inst) <= Homes().Keys
                              && instructions == old(instructions) + EmitAll(plan, i, Expand(Homes(), offsets, inst))
      ensures error.Some? ==> Full(error.value)
      ensures WellWidthed(inst) && WidthsRight(old(Homes())) ==> WidthsRight(Homes())
    {
      hide *;
      if WellWidthed(inst) {
        SourceFlags(offsets, inst);
      }
      SourcesOf(offsets, inst);
      SourcesNeeded(offsets, inst);
      OpcodeKnown(offsets, inst);
      ghost var before := Homes();
      var dest := LowerDestination(inst);
      ghost var middle := Homes();
      if dest.Err? {
        return Some(dest.error);
      }
      var rs;
      ghost var emitted;
      rs, error, emitted := OperandRegs(i, inst.operands[1..], KindOf(inst) == WideAdd, Needs(inst));
      ExtendsTransitive(before, middle, Homes());
      GrownBoth(before, middle, Homes(), Needs(inst), Needs(inst), Needs(inst));
      if error.Some? {
        return;
      }
      DestinationStays(middle, Homes(), inst, dest.value);
      SourcesLowered(Homes(), offsets, plan, i, inst, dest.value, rs, regs.tempNext, emitted);
      EmitMain(i, inst, dest.value, rs);
      Regroup(old(instructions), emitted, EmitAll(plan, i, MainCode(inst, dest.value, rs)));
    }

    /** `_lower_ld_param`. */
    method LowerLdParam(i: nat, inst: P.Inst) returns (error: Option<LowerError>)
      requires regs.Valid() && regs.tempNext == FIRST_TEMP && Lowerable(offsets, inst) && KindOf(inst) == LdParam
      modifies this`instructions, regs
      ensures regs.Valid() && Extends(old(Homes()), Homes()) && Grown(old(Homes()), Homes(), Needs(inst))
      ensures error.None? ==> Needs(inst) <= Homes().Keys
                              && instructions == old(instructions) + EmitAll(plan, i, Expand(Homes(), offsets, inst))
      ensures error.Some? ==> Full(error.value)
      ensures WellWidthed(inst) && WidthsRight(old(Homes())) ==> WidthsRight(Homes())
    {
      hide *;
      if WellWidthed(inst) {
        AccessFlags(offsets, inst);
      }
      AccessOperands(offsets, inst);
      AccessNeeded(offsets, inst);
      FirstTemps();
      ghost var before := Homes();
      GrownNone(before, {});
      var at, ty := offsets[inst.operands[1].param], inst.op.ty;
      var dest := PtxReg(inst.operands[0].reg, Wide(ty));
      GrownBoth(before, before, Homes(), {}, {inst.operands[0].reg}, Needs(inst));
      if dest.Err? {
        return Some(dest.error);
      }
      ParamCode(Homes(), offsets, inst);
      if Wide(ty) {
        EmitWideParam(i, dest.value, at);
      } else {
        EmitParam(i, AecType(ty).value, dest.value, at);
      }
      return None;
    }

    /** The two words of a 64-bit parameter. */
    method EmitWideParam(i: nat, dest: nat, at: nat)
      requires regs.Valid() && regs.tempNext == FIRST_TEMP
      modifies this`instructions, regs
      ensures regs.Valid() && Homes() == old(Homes())
      ensures instructions == old(instructions) + EmitAll(plan, i, WideParamLoad(dest, at))
    {
      FirstTemps();
      hide *;
      EmitParam(i, A.U32, dest, at);
      ghost var middle := instructions;
      EmitParam(i, A.U32, dest + 1, at + 4);
      WideParam(plan, i, dest, at);
      Regroup(old(instructions), EmitAll(plan, i, ParamLoad(A.U32, dest, at, FIRST_TEMP)),
              EmitAll(plan, i, ParamLoad(A.U32, dest + 1, at + 4, FIRST_TEMP + 1)));
    }

    /** Load a parameter word through the next temporary. */
    method EmitParam(i: nat, dtype: A.DType, dest: nat, at: nat)
      requires regs.Valid() && regs.tempNext <= LAST_REGISTER
      modifies this`instructions, regs
      ensures regs.Valid() && Homes() == old(Homes()) && regs.tempNext == old(regs.tempNext) + 1
      ensures instructions == old(instructions) + EmitAll(plan, i, ParamLoad(dtype, dest, at, old(regs.tempNext)))
    {
      hide *;
      HomesAre();
      LastTempIs();
      var temp := regs.Temp();
      HomesAre();
      Emit(i, LoadImmediate(temp.value, at));
      Emit(i, A.Inst(A.LD, dtype, dest, temp.value, space := Some(A.Pmem)));
      ParamLoadIs(dtype, dest, at, temp.value);
      EmitTwo(plan, i, ParamLoad(dtype, dest, at, temp.value));
    }

    /** `_lower_ld_global`: the address gets its home first. */
    method LowerLdGlobal(i: nat, inst: P.Inst) returns (error: Option<LowerError>)
      requires regs.Valid() && Lowerable(offsets, inst) && KindOf(inst) == LdGlobal
      modifies this`instructions, regs
      ensures regs.Valid() && Extends(old(Homes()), Homes()) && Grown(old(Homes()), Homes(), Needs(inst))
      ensures error.None? ==> Needs(inst) <= Homes().Keys
                              && instructions == old(instructions) + EmitAll(plan, i, Expand(Homes(), offsets, inst))
      ensures error.Some? ==> Full(error.value)
      ensures WellWidthed(inst) && WidthsRight(old(Homes())) ==> WidthsRight(Homes())
    {
      hide *;
      if WellWidthed(inst) {
        AccessFlags(offsets, inst);
      }
      AccessOperands(offsets, inst);
      AccessNeeded(offsets, inst);
      ghost var before := Homes();
      GrownNone(before, {});
      var addr := PtxReg(inst.operands[1].reg, true);
      ghost var middle := Homes();
      GrownBoth(before, before, middle, {}, {inst.operands[1].reg}, Needs(inst));
      if addr.Err? {
        return Some(addr.error);
      }
      var dest := PtxReg(inst.operands[0].reg, false);
      ExtendsTransitive(before, middle, Homes());
      GrownBoth(before, middle, Homes(), Needs(inst), {inst.operands[0].reg}, Needs(inst));
      if dest.Err? {
        return Some(dest.error);
      }
      HomeStays(middle, Homes(), inst.operands[1].reg);
      LoadCode(Homes(), offsets, inst);
      Emit(i, Guarded(inst, A.Inst(A.LD, AecType(inst.op.ty).value, dest.value, addr.value, space := Some(A.Gmem))));
      return None;
    }

    /** `_lower_st_global`. */
    method LowerStGlobal(i: nat, inst: P.Inst) returns (error: Option<LowerError>)
      requires regs.Valid() && Lowerable(offsets, inst) && KindOf(inst) == StGlobal
      modifies this`instructions, regs
      ensures regs.Valid() && Extends(old(Homes()), Homes()) && Grown(old(Homes()), Homes(), Needs(inst))
      ensures error.None? ==> Needs(inst) <= Homes().Keys
                              && instructions == old(instructions) + EmitAll(plan, i, Expand(Homes(), offsets, inst))
      ensures error.Some? ==> Full(error.value)
      ensures WellWidthed(inst) && WidthsRight(old(Homes())) ==> WidthsRight(Homes())
    {
      hide *;
      if WellWidthed(inst) {
        AccessFlags(offsets, inst);
      }
      AccessOperands(offsets, inst);
      AccessNeeded(offsets, inst);
      ghost var before := Homes();
      GrownNone(before, {});
      var addr := PtxReg(inst.operands[0].reg, true);
      ghost var middle := Homes();
      GrownBoth(before, before, middle, {}, {inst.operands[0].reg}, Needs(inst));
      if addr.Err? {
        return Some(addr.error);
      }
      var source := PtxReg(inst.operands[1].reg, false);
      ExtendsTransitive(before, middle, Homes());
      GrownBoth(before, middle, Homes(), Needs(inst), {inst.operands[1].reg}, Needs(inst));
      if source.Err? {
        return Some(source.error);
      }
      HomeStays(middle, Homes(), inst.operands[0].reg);
      StoreCode(Homes(), offsets, inst);
      Emit(i, Guarded(inst, A.Inst(A.ST, AecType(inst.op.ty).value, 0, addr.value, source.value,
                                   space := Some(A.Gmem))));
      return None;
    }

    /** `_lower_mov`. */
    method LowerMov(i: nat, inst: P.Inst) returns (error: Option<LowerError>)
      requires regs.Valid() && Lowerable(offsets, inst) && KindOf(inst) == Move
      modifies this`instructions, regs
      ensures regs.Valid() && Extends(old(Homes()), Homes()) && Grown(old(Homes()), Homes(), Needs(inst))
      ensures error.None? ==> Needs(inst) <= Homes().Keys
                              && instructions == old(instructions) + EmitAll(plan, i, Expand(Homes(), offsets, inst))
      ensures error.Some? ==> Full(error.value)
      ensures WellWidthed(inst) && WidthsRight(old(Homes())) ==> WidthsRight(Homes())
    {
      hide *;
      if WellWidthed(inst) {
        AccessFlags(offsets, inst);
      }
      AccessOperands(offsets, inst);
      AccessNeeded(offsets, inst);
      ghost var before := Homes();
      GrownNone(before, {});
      var source, wide := inst.operands[1], Wide(inst.op.ty);
      var dest := PtxReg(inst.operands[0].reg, wide);
      ghost var middle := Homes();
      GrownBoth(before, before, middle, {}, {inst.operands[0].reg}, Needs(inst));
      if dest.Err? {
        return Some(dest.error);
      }
      if source.Special? {
        MoveCode(Homes(), offsets, inst);
        Emit(i, Guarded(inst, A.Inst(A.CPY, A.U32, dest.value, source.selector)));
      } else if source.RegOp? {
        var src := PtxReg(source.reg, wide);
        ExtendsTransitive(before, middle, Homes());
        GrownBoth(before, middle, Homes(), Needs(inst), {source.reg}, Needs(inst));
        if src.Err? {
          return Some(src.error);
        }
        HomeStays(middle, Homes(), inst.operands[0].reg);
        MoveCode(Homes(), offsets, inst);
        Emit(i, Guarded(inst, A.Inst(A.CPY, AecType(inst.op.ty).value, dest.value, src.value)));
      } else if wide {
        MoveCode(Homes(), offsets, inst);
        Emit(i, Guarded(inst, A.Inst(A.LOADI64, dest := dest.value, imm := ParseImmediate(source).value)));
      } else {
        MoveCode(Homes(), offsets, inst);
        Emit(i, Guarded(inst, LoadImmediate(dest.value, ParseImmediate(source).value)));
      }
      return None;
    }

    /** `_lower_bra` and `ret`. */
    method LowerControl(i: nat, inst: P.Inst) returns (error: Option<LowerError>)
      requires regs.Valid() && Lowerable(offsets, inst) && KindOf(inst) in {Branch, Kind.Return}
      modifies this`instructions, this`pendingBranches
      ensures error.None? ==> Needs(inst) <= Homes().Keys
                              && instructions == old(instructions) + EmitAll(plan, i, Expand(Homes(), offsets, inst))
      ensures error.None? ==> pendingBranches == old(pendingBranches) + Waiting(inst, |old(instructions)|)
      ensures error == if KindOf(inst) == Branch && inst.guard.Some? && i !in plan.emitted then Some(UnprovenBranch(i))
              else None
    {
      hide *;
      ControlCode(Homes(), offsets, inst);
      WaitingIs(offsets, inst, |instructions|);
      if KindOf(inst) == Kind.Return {
        Emit(i, A.Inst(A.HALT));
        return None;
      }
      if inst.guard.Some? && i !in plan.emitted {
        return Some(UnprovenBranch(i));
      }
      pendingBranches := pendingBranches + [(|instructions|, inst.operands[0].name)];
      Emit(i, if inst.guard.None? then A.Inst(A.BR) else Guarded(inst, A.Inst(A.BRX)));
      return None;
    }

    /** `_lower_instruction`. */
    method LowerInstruction(i: nat, inst: P.Inst) returns (error: Option<LowerError>)
      requires regs.Valid() && regs.tempNext == FIRST_TEMP
      modifies this`instructions, this`pendingBranches, regs
      ensures regs.Valid() && Extends(old(Homes()), Homes())
      ensures Grown(old(Homes()), Homes(), Needs(inst))
      ensures error.None? ==> FitsAt(Homes(), offsets, inst)
                              && instructions == old(instructions) + EmitAll(plan, i, Expand(Homes(), offsets, inst))
      ensures error.None? ==> pendingBranches == old(pendingBranches) + Waiting(inst, |old(instructions)|)
      ensures error.None? ==> KindOf(inst) == Branch && inst.guard.Some? ==> i in plan.emitted
      ensures error.Some? ==> Explains(error.value, offsets, plan, i, inst)
      ensures error.Some? && error.value.Exhausted? ==> Full(error.value)
      ensures WellWidthed(inst) && WidthsRight(old(Homes())) ==> WidthsRight(Homes())
    {
      hide *;
      NoHomesAdded(Homes());
      GrownNone(Homes(), Needs(inst));
      ErrorsExplained(offsets, plan, i, inst);
      if !Lowerable(offsets, inst) {
        return Some(NotLowerable(i));
      }
      KindsCovered(offsets, inst);
      NothingWaits(inst, |instructions|);
      var kind := KindOf(inst);
      if kind == LdParam {
        error := LowerLdParam(i, inst);
      } else if kind == LdGlobal {
        error := LowerLdGlobal(i, inst);
      } else if kind == StGlobal {
        error := LowerStGlobal(i, inst);
      } else if kind == Move {
        error := LowerMov(i, inst);
      } else if kind == Branch || kind == Kind.Return {
        error := LowerControl(i, inst);
      } else {
        error := LowerFromSources(i, inst);
      }
      if error.Some? && kind != Branch {
        FullIs(error.value);
      } else if error.None? {
        Lowered(Homes(), offsets, inst);
      }
    }

    /** `_patch_branches`. */
    method PatchBranches() returns (error: Option<LowerError>)
      requires forall j | 0 <= j < |pendingBranches| :: pendingBranches[j].0 < |instructions|
      modifies this`instructions
      ensures error.None? ==>
                && (forall j | 0 <= j < |pendingBranches| :: pendingBranches[j].1 in labels)
                && instructions == PatchAll(old(instructions), pendingBranches, labels, |pendingBranches|)
      ensures error.Some? ==> exists j ::
                (0 <= j < |pendingBranches| && error.value == UnknownTarget(pendingBranches[j].1)
                 && pendingBranches[j].1 !in labels)
    {
      for j := 0 to |pendingBranches|
        invariant forall k | 0 <= k < j :: pendingBranches[k].1 in labels
        invariant instructions == PatchAll(old(instructions), pendingBranches, labels, j)
      {
        var (index, name) := pendingBranches[j];
        if name !in labels {
          return Some(UnknownTarget(name));
        }
        instructions := instructions[index := instructions[index].(imm := labels[name])];
      }
      return None;
    }

    ghost predicate Progressed(n: nat)
      reads this, regs
    {
      regs.Valid() && SoFar(Homes(), offsets, plan, items, n, instructions, pendingBranches, labels)
    }

    /** One turn of `lower`. */
    method LowerItem(i: nat) returns (error: Option<LowerError>)
      requires i < |items| && DistinctLabels(items) && Progressed(i)
      modifies this`instructions, this`labels, this`pendingBranches, regs
      ensures regs.Valid() && Extends(old(Homes()), Homes())
      ensures Grown(old(Homes()), Homes(), NeededRegs(plan, items))
      ensures error.None? ==> Progressed(i + 1)
      ensures error.Some? ==> Refused(error.value, offsets, plan, items)
      ensures error.Some? && error.value.Exhausted? ==> Full(error.value)
      ensures items[i].Code? && i !in plan.skip && WellWidthed(items[i].inst) && WidthsRight(old(Homes()))
              ==> WidthsRight(Homes())
      ensures !Emits(plan, items, i) && WidthsRight(old(Homes())) ==> WidthsRight(Homes())
    {
      hide SoFar, R.HomesOf, Expand, EmitAll, FitsAt, Extends, KindOf, Refused, DistinctLabels, Explains, WellWidthed,
           WidthsRight, NeededRegs, Needs, Grown, NoRoom, Waiting;
      ghost var before := Homes();
      NoHomesAdded(before);
      GrownNone(before, NeededRegs(plan, items));
      if items[i].Label? {
        SoFarLabel(Homes(), offsets, plan, items, i, instructions, pendingBranches, labels);
        labels := labels[items[i].name := |instructions|];
        return None;
      }
      if i in plan.skip {
        SoFarSkip(Homes(), offsets, plan, items, i, instructions, pendingBranches, labels);
        return None;
      }
      regs.ResetTemps();
      error := LowerInstruction(i, items[i].inst);
      NeededAt(plan, items, i);
      GrownBoth(before, before, Homes(), NeededRegs(plan, items), Needs(items[i].inst), NeededRegs(plan, items));
      if error.Some? {
        RefusedAt(error.value, offsets, plan, items, i);
        return;
      }
      SoFarCode(old(Homes()), Homes(), offsets, plan, items, i, old(instructions), old(pendingBranches), labels);
    }

    /** `lower`. */
    method Lower() returns (error: Option<LowerError>)
      requires regs.Valid() && DistinctLabels(items)
      requires instructions == [] && labels == map[] && pendingBranches == []
      modifies this`instructions, this`labels, this`pendingBranches, regs
      ensures regs.Valid() && Extends(old(Homes()), Homes())
      ensures Grown(old(Homes()), Homes(), NeededRegs(plan, items))
      ensures error.None? ==> IsLowered(Homes(), offsets, plan, items, instructions)
      ensures error.Some? ==> Refused(error.value, offsets, plan, items)
      ensures error.Some? && error.value.Exhausted? ==> Full(error.value)
      ensures AllWellWidthed(plan, items) && WidthsRight(old(Homes())) ==> WidthsRight(Homes())
    {
      hide *;
      ghost var before, needed := Homes(), NeededRegs(plan, items);
      NoHomesAdded(before);
      GrownNone(before, needed);
      SoFarNone(before, offsets, plan, items);
      StartsProgressed();
      for index := 0 to |items|
        invariant regs.Valid() && Extends(before, Homes()) && Grown(before, Homes(), needed) && Progressed(index)
        invariant AllWellWidthed(plan, items) && WidthsRight(before) ==> WidthsRight(Homes())
      {
        ghost var homes := Homes();
        WidthAt(plan, items, index);
        error := LowerItem(index);
        ExtendsTransitive(before, homes, Homes());
        GrownBoth(before, homes, Homes(), needed, needed, needed);
        if error.Some? {
          return;
        }
      }
      ghost var homes, code := Homes(), instructions;
      ProgressedParts(|items|);
      SoFarPatchable(homes, offsets, plan, items, |items|, code, pendingBranches, labels);
      error := PatchBranches();
      if error.Some? {
        var j :| 0 <= j < |pendingBranches| && error.value == UnknownTarget(pendingBranches[j].1)
                 && pendingBranches[j].1 !in labels;
        RefusedTarget(homes, offsets, plan, items, code, pendingBranches, labels, j);
      } else {
        SoFarDone(homes, offsets, plan, items, code, pendingBranches, labels);
      }
    }

    lemma StartsProgressed()
      requires regs.Valid() && SoFar(Homes(), offsets, plan, items, 0, instructions, pendingBranches, labels)
      ensures Progressed(0)
    {
    }

    lemma ProgressedParts(n: nat)
      requires Progressed(n)
      ensures regs.Valid() && SoFar(Homes(), offsets, plan, items, n, instructions, pendingBranches, labels)
    {
    }
  }

  /** What an error says about an item. */
  predicate Explains(e: LowerError, offsets: map<nat, nat>, plan: Plan, i: nat, inst: P.Inst) {
    match e
    case Exhausted(reason) => reason == OutOfRegisters
    case NotLowerable(k) => k == i && !Lowerable(offsets, inst)
    case UnprovenBranch(k) => k == i && inst.op.base == P.Bra && inst.guard.Some? && i !in plan.emitted
    case UnknownTarget(_) => false
  }

  lemma ErrorsExplained(offsets: map<nat, nat>, plan: Plan, i: nat, inst: P.Inst)
    ensures Explains(Exhausted(OutOfRegisters), offsets, plan, i, inst)
    ensures !Lowerable(offsets, inst) ==> Explains(NotLowerable(i), offsets, plan, i, inst)
    ensures inst.op.base == P.Bra && inst.guard.Some? && i !in plan.emitted ==>
              Explains(UnprovenBranch(i), offsets, plan, i, inst)
  {
    hide Lowerable;
  }

  lemma NothingWaits(inst: P.Inst, at: nat)
    ensures KindOf(inst) != Branch ==> Waiting(inst, at) == []
  {
    hide KindOf;
  }

  lemma Lowered(homes: R.Homes, offsets: map<nat, nat>, inst: P.Inst)
    requires Lowerable(offsets, inst) && Needs(inst) <= homes.Keys
    ensures FitsAt(homes, offsets, inst)
  {
    hide Lowerable, Needs;
  }

  lemma NoHomesAdded(homes: R.Homes)
    ensures Extends(homes, homes)
  {
  }

  lemma KindsCovered(offsets: map<nat, nat>, inst: P.Inst)
    requires Lowerable(offsets, inst)
    ensures KindOf(inst) in {LdParam, LdGlobal, StGlobal, Move, Branch, Kind.Return} || FromSources(KindOf(inst))
    ensures KindOf(inst) == Branch ==> inst.op.base == P.Bra && |inst.operands| == 1 && inst.operands[0].Target?
  {
  }

  lemma ControlCode(homes: R.Homes, offsets: map<nat, nat>, inst: P.Inst)
    requires Lowerable(offsets, inst) && KindOf(inst) in {Branch, Kind.Return}
    ensures KindOf(inst) == Branch ==>
              && |inst.operands| == 1 && inst.operands[0].Target? && Needs(inst) <= homes.Keys
              && Expand(homes, offsets, inst) == [if inst.guard.None? then A.Inst(A.BR)
                                                  else Guarded(inst, A.Inst(A.BRX))]
    ensures KindOf(inst) == Kind.Return ==>
              Needs(inst) <= homes.Keys && Expand(homes, offsets, inst) == [A.Inst(A.HALT)]
  {
  }

  function ParamLoad(dtype: A.DType, dest: nat, at: nat, temp: nat): seq<A.Inst> {
    [LoadImmediate(temp, at), A.Inst(A.LD, dtype, dest, temp, space := Some(A.Pmem))]
  }

  lemma ParamLoadIs(dtype: A.DType, dest: nat, at: nat, temp: nat)
    ensures var code := ParamLoad(dtype, dest, at, temp);
            && |code| == 2 && code[0] == LoadImmediate(temp, at)
            && code[1] == A.Inst(A.LD, dtype, dest, temp, space := Some(A.Pmem))
  {
  }

  function WideParamLoad(dest: nat, at: nat): seq<A.Inst> {
    ParamLoad(A.U32, dest, at, FIRST_TEMP) + ParamLoad(A.U32, dest + 1, at + 4, FIRST_TEMP + 1)
  }

  lemma WideParam(plan: Plan, i: nat, dest: nat, at: nat)
    ensures EmitAll(plan, i, WideParamLoad(dest, at)) == EmitAll(plan, i, ParamLoad(A.U32, dest, at, FIRST_TEMP))
                                                         + EmitAll(plan, i, ParamLoad(A.U32, dest + 1, at + 4,
                                                             FIRST_TEMP + 1))
  {
    EmitAppend(plan, i, ParamLoad(A.U32, dest, at, FIRST_TEMP), ParamLoad(A.U32, dest + 1, at + 4, FIRST_TEMP + 1));
  }

  lemma LastTempIs()
    ensures LAST_REGISTER == 255
  {
  }

  /** The destination of a comparison needs no home; others are looked up as registers. */
  lemma DestinationLookup(homes: R.Homes, offsets: map<nat, nat>, inst: P.Inst)
    requires Lowerable(offsets, inst) && FromSources(KindOf(inst))
    ensures inst.operands != [] && inst.operands[0].RegOp?
    ensures Extends(homes, homes) && Grown(homes, homes, Needs(inst)) && Grown(homes, homes, {})
    ensures KindOf(inst) == SetPredicate ==> DestinationAt(homes, inst, inst.operands[0].reg.id)
    ensures KindOf(inst) != SetPredicate ==> {inst.operands[0].reg} <= Needs(inst)
  {
    if KindOf(inst) != SetPredicate {
      OperandNeeded(inst, 0);
    }
    hide Needs;
  }

  lemma DestinationFound(homes: R.Homes, inst: P.Inst, base: nat)
    requires inst.operands != [] && inst.operands[0].RegOp? && KindOf(inst) != SetPredicate
    requires inst.operands[0].reg in homes && base == homes[inst.operands[0].reg].base
    ensures DestinationAt(homes, inst, base)
  {
  }

  lemma FirstTemps()
    ensures FIRST_TEMP + 1 <= LAST_REGISTER
  {
  }

  lemma AccessOperands(offsets: map<nat, nat>, inst: P.Inst)
    requires Lowerable(offsets, inst) && KindOf(inst) in {LdParam, LdGlobal, StGlobal, Move}
    ensures |inst.operands| == 2 && AecType(inst.op.ty).Some?
    ensures KindOf(inst) == LdParam ==>
              inst.operands[0].RegOp? && inst.operands[1].ParamAddr? && inst.operands[1].param in offsets
    ensures KindOf(inst) == LdGlobal ==> inst.operands[0].RegOp? && inst.operands[1].Addr?
    ensures KindOf(inst) == StGlobal ==> inst.operands[0].Addr? && inst.operands[1].RegOp?
    ensures KindOf(inst) == Move ==>
              inst.operands[0].RegOp?
              && (inst.operands[1].Special? || inst.operands[1].RegOp? || ParseImmediate(inst.operands[1]).Some?)
  {
  }

  lemma HomeStays(homes: R.Homes, homes': R.Homes, r: P.Reg)
    requires Extends(homes, homes') && r in homes
    ensures r in homes' && homes'[r] == homes[r]
  {
  }

  /** With homes for both operands nothing more is needed. */
  lemma NeedsTwo(homes: R.Homes, inst: P.Inst)
    requires |inst.operands| == 2 && Mentioned(inst.operands[0]) <= homes.Keys
             && Mentioned(inst.operands[1]) <= homes.Keys
    ensures Needs(inst) <= homes.Keys
  {
  }

  lemma ParamCode(homes: R.Homes, offsets: map<nat, nat>, inst: P.Inst)
    requires Lowerable(offsets, inst) && KindOf(inst) == LdParam && inst.operands[0].reg in homes
    ensures Needs(inst) <= homes.Keys
    ensures var at, dest := offsets[inst.operands[1].param], homes[inst.operands[0].reg].base;
            Expand(homes, offsets, inst) ==
            if Wide(inst.op.ty) then WideParamLoad(dest, at)
                else ParamLoad(AecType(inst.op.ty).value, dest, at, FIRST_TEMP)
  {
    NeedsTwo(homes, inst);
  }

  lemma LoadCode(homes: R.Homes, offsets: map<nat, nat>, inst: P.Inst)
    requires Lowerable(offsets, inst) && KindOf(inst) == LdGlobal && inst.operands[0].reg in homes
             && inst.operands[1].reg in homes
    ensures Needs(inst) <= homes.Keys
    ensures Expand(homes, offsets, inst) ==
            [Guarded(inst, A.Inst(A.LD, AecType(inst.op.ty).value, homes[inst.operands[0].reg].base,
                                  homes[inst.operands[1].reg].base, space := Some(A.Gmem)))]
  {
    NeedsTwo(homes, inst);
  }

  lemma StoreCode(homes: R.Homes, offsets: map<nat, nat>, inst: P.Inst)
    requires Lowerable(offsets, inst) && KindOf(inst) == StGlobal && inst.operands[0].reg in homes
             && inst.operands[1].reg in homes
    ensures Needs(inst) <= homes.Keys
    ensures Expand(homes, offsets, inst) ==
            [Guarded(inst, A.Inst(A.ST, AecType(inst.op.ty).value, 0, homes[inst.operands[0].reg].base,
                                  homes[inst.operands[1].reg].base, space := Some(A.Gmem)))]
  {
    NeedsTwo(homes, inst);
  }

  lemma MoveCode(homes: R.Homes, offsets: map<nat, nat>, inst: P.Inst)
    requires Lowerable(offsets, inst) && KindOf(inst) == Move && inst.operands[0].reg in homes
    requires inst.operands[1].RegOp? ==> inst.operands[1].reg in homes
    ensures Needs(inst) <= homes.Keys
    ensures var os, dest := inst.operands, homes[inst.operands[0].reg].base;
            Expand(homes, offsets, inst) ==
            [Guarded(inst,
               if os[1].Special? then A.Inst(A.CPY, A.U32, dest, os[1].selector)
               else if os[1].RegOp? then A.Inst(A.CPY, AecType(inst.op.ty).value, dest, homes[os[1].reg].base)
               else if Wide(inst.op.ty) then A.Inst(A.LOADI64, dest := dest, imm := ParseImmediate(os[1]).value)
               else LoadImmediate(dest, ParseImmediate(os[1]).value))]
  {
    NeedsTwo(homes, inst);
  }

  lemma Regroup(a: seq<A.Inst>, b: seq<A.Inst>, c: seq<A.Inst>)
    ensures (a + b) + c == a + (b + c)
  {
  }

  predicate DestinationAt(homes: R.Homes, inst: P.Inst, dest: nat) {
    && inst.operands != [] && inst.operands[0].RegOp?
    && if KindOf(inst) == SetPredicate then dest == inst.operands[0].reg.id
       else inst.operands[0].reg in homes && dest == homes[inst.operands[0].reg].base
  }

  lemma DestinationStays(homes: R.Homes, homes': R.Homes, inst: P.Inst, dest: nat)
    requires Extends(homes, homes') && DestinationAt(homes, inst, dest)
    ensures DestinationAt(homes', inst, dest)
  {
  }

  lemma OpcodeKnown(offsets: map<nat, nat>, inst: P.Inst)
    requires Lowerable(offsets, inst) && FromSources(KindOf(inst))
    ensures KindOf(inst) in {Fused, Binary} ==> AluOpcode(inst.op.base).Some?
    ensures KindOf(inst) in {SetPredicate, Fused, Binary} ==> AecType(inst.op.ty).Some?
    ensures KindOf(inst) == SetPredicate ==> |inst.op.mods| == 1 && inst.op.mods[0].Cmp?
  {
  }

  /** Loaded operands and the main code make up the expansion. */
  lemma SourcesLowered(homes: R.Homes, offsets: map<nat, nat>, plan: Plan, i: nat, inst: P.Inst, dest: nat,
                       rs: seq<nat>, temp: nat, emitted: seq<A.Inst>)
    requires Lowerable(offsets, inst) && FromSources(KindOf(inst))
    requires Loaded(homes, plan, i, inst.operands[1..], rs, temp, emitted)
    requires DestinationAt(homes, inst, dest)
    ensures |rs| == (if KindOf(inst) == Fused then 3 else 2) && Needs(inst) <= homes.Keys
    ensures emitted + EmitAll(plan, i, MainCode(inst, dest, rs)) == EmitAll(plan, i, Expand(homes, offsets, inst))
  {
    hide Loaded, Preload, EmitAll, SourceRegs, Mentioned, Expand, Guarded, Needs, KindOf, MainCode;
    SourcesOf(offsets, inst);
    LoadedParts(homes, plan, i, inst.operands[1..], rs, temp, emitted);
    NeedsCovered(homes, offsets, inst);
    ExpandSources(homes, offsets, inst);
    EmitAppend(plan, i, Preload(inst.operands[1..], FIRST_TEMP), MainCode(inst, dest, rs));
  }

  lemma EmitTwo(plan: Plan, i: nat, code: seq<A.Inst>)
    requires |code| == 2
    ensures EmitAll(plan, i, code) == EmitAll(plan, i, [code[0]]) + EmitAll(plan, i, [code[1]])
  {
  }

  lemma SourcesOf(offsets: map<nat, nat>, inst: P.Inst)
    requires Lowerable(offsets, inst) && FromSources(KindOf(inst))
    ensures inst.operands != [] && |inst.operands[1..]| == if KindOf(inst) == Fused then 3 else 2
    ensures forall k | 0 <= k < |inst.operands[1..]| :: IsSource(inst.operands[1..][k])
  {
    forall k | 0 <= k < |inst.operands[1..]| ensures IsSource(inst.operands[1..][k]) {
      assert inst.operands[1..][k] == inst.operands[k + 1];
    }
  }

  lemma SourcesNeeded(offsets: map<nat, nat>, inst: P.Inst)
    requires Lowerable(offsets, inst) && FromSources(KindOf(inst))
    ensures forall k | 0 <= k < |inst.operands[1..]| :: Mentioned(inst.operands[1..][k]) <= Needs(inst)
  {
    forall k | 0 <= k < |inst.operands[1..]| ensures Mentioned(inst.operands[1..][k]) <= Needs(inst) {
      assert inst.operands[1..][k] == inst.operands[k + 1];
      OperandNeeded(inst, k + 1);
    }
  }

  /** Both operands of these need their registers. */
  lemma AccessNeeded(offsets: map<nat, nat>, inst: P.Inst)
    requires Lowerable(offsets, inst) && KindOf(inst) in {LdParam, LdGlobal, StGlobal, Move}
    ensures |inst.operands| == 2
    ensures forall k | 0 <= k < 2 && (inst.operands[k].RegOp? || inst.operands[k].Addr?) ::
              {inst.operands[k].reg} <= Needs(inst)
  {
    forall k | 0 <= k < 2 && (inst.operands[k].RegOp? || inst.operands[k].Addr?)
      ensures {inst.operands[k].reg} <= Needs(inst)
    {
      OperandNeeded(inst, k);
    }
  }

  lemma LoadedParts(homes: R.Homes, plan: Plan, i: nat, sources: seq<P.Operand>, rs: seq<nat>, temp: nat,
                    emitted: seq<A.Inst>)
    requires Loaded(homes, plan, i, sources, rs, temp, emitted)
    ensures forall k | 0 <= k < |sources| :: IsSource(sources[k]) && Mentioned(sources[k]) <= homes.Keys
    ensures rs == SourceRegs(homes, sources, FIRST_TEMP) && emitted == EmitAll(plan, i, Preload(sources, FIRST_TEMP))
  {
  }
}
