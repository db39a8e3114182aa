/** The allocation pass: ranges per definition, merged intervals, the loop hull, and the scan. */
module RegisterAllocation {
  import opened Wrappers
  import opened Lists
  import opened Ptx
  import opened Liveness
  import opened LinearScan
  import opened ScanCorrect

  datatype LiveRange = LiveRange(firstDef: nat, lastUse: nat, uses: seq<nat>)

  /** Uses at both ends belong to the first definition, uses strictly between to the later ones. */
  predicate BelongsTo(k: nat, defIdx: nat, nextDef: nat, u: nat) {
    if k == 0 then defIdx <= u <= nextDef else defIdx < u < nextDef
  }

  function NextDef(defs: seq<nat>, k: nat, limit: nat): nat
    requires k < |defs|
  {
    if k + 1 < |defs| then defs[k + 1] else limit
  }

  /**
   * The range of definition `k`: the uses that belong to it, ending at the last of them or at the definition itself.
   */
  ghost predicate IsRange(defs: seq<nat>, uses: seq<nat>, k: nat, limit: nat, lr: LiveRange)
    requires k < |defs|
  {
    && lr.firstDef == defs[k]
    && (forall u :: u in lr.uses <==> u in uses && BelongsTo(k, defs[k], NextDef(defs, k, limit), u))
    && (forall u | u in lr.uses :: u <= lr.lastUse)
    && (if lr.uses == [] then lr.lastUse == defs[k] else lr.lastUse in lr.uses)
  }

  /** The loop over the uses for one definition. */
  method RangeOfDefinition(defs: seq<nat>, uses: seq<nat>, k: nat, limit: nat) returns (lr: LiveRange)
    requires k < |defs|
    ensures IsRange(defs, uses, k, limit, lr)
  {
    var defIdx, nextDef := defs[k], NextDef(defs, k, limit);
    var lastUse: int := -1;
    var useIndices: seq<nat> := [];
    for j := 0 to |uses|
      invariant forall u :: u in useIndices <==> u in uses[..j] && BelongsTo(k, defIdx, nextDef, u)
      invariant forall u | u in useIndices :: u <= lastUse
      invariant if useIndices == [] then lastUse == -1 else lastUse >= 0 && lastUse in useIndices
    {
      assert uses[..j + 1] == uses[..j] + [uses[j]];
      var u := uses[j];
      if BelongsTo(k, defIdx, nextDef, u) {
        useIndices := useIndices + [u];
        lastUse := if u > lastUse then u else lastUse;
      }
    }
    assert uses[..|uses|] == uses;
    if lastUse < 0 {
      lastUse := defIdx;
    }
    lr := LiveRange(defIdx, lastUse, useIndices);
  }

  /** The ranges of one register, in order of definition. */
  method RangesOfRegister(defs: seq<nat>, uses: seq<nat>, limit: nat) returns (ranges: seq<LiveRange>)
    ensures |ranges| == |defs| && forall k | 0 <= k < |defs| :: IsRange(defs, uses, k, limit, ranges[k])
  {
    hide IsRange;
    ranges := [];
    for k := 0 to |defs|
      invariant |ranges| == k && forall j | 0 <= j < k :: IsRange(defs, uses, j, limit, ranges[j])
    {
      var lr := RangeOfDefinition(defs, uses, k, limit);
      ranges := ranges + [lr];
    }
  }

  /**
   * All definitions, and all uses from the first definition on, lie in the merged interval; its ends are among them.
   */
  ghost predicate Merged(defs: seq<nat>, uses: seq<nat>, first: nat, last: nat)
    requires defs != []
  {
    && first == defs[0]
    && (forall d | d in defs :: d <= last)
    && (forall u | u in uses && first <= u :: u <= last)
    && (last in defs || (last in uses && first <= last))
  }

  /** The merge of split ranges: smallest start, largest end, all recorded uses. */
  method MergeRanges(ranges: seq<LiveRange>) returns (first: nat, last: nat, uses: seq<nat>)
    requires ranges != []
    ensures forall k | 0 <= k < |ranges| :: first <= ranges[k].firstDef && ranges[k].lastUse <= last
    ensures exists k :: 0 <= k < |ranges| && ranges[k].firstDef == first
    ensures exists k :: 0 <= k < |ranges| && ranges[k].lastUse == last
    ensures forall u :: u in uses <==> exists k :: 0 <= k < |ranges| && u in ranges[k].uses
  {
    first, last, uses := ranges[0].firstDef, ranges[0].lastUse, ranges[0].uses;
    for k := 1 to |ranges|
      invariant forall j | 0 <= j < k :: first <= ranges[j].firstDef && ranges[j].lastUse <= last
      invariant exists j :: 0 <= j < k && ranges[j].firstDef == first
      invariant exists j :: 0 <= j < k && ranges[j].lastUse == last
      invariant forall u :: u in uses <==> exists j :: 0 <= j < k && u in ranges[j].uses
    {
      var lr := ranges[k];
      ghost var a :| 0 <= a < k && ranges[a].firstDef == first;
      ghost var b :| 0 <= b < k && ranges[b].lastUse == last;
      first := if lr.firstDef < first then lr.firstDef else first;
      last := if lr.lastUse > last then lr.lastUse else last;
      uses := uses + lr.uses;
      assert ranges[if lr.firstDef == first then k else a].firstDef == first;
      assert ranges[if lr.lastUse == last then k else b].lastUse == last;
    }
  }

  /** A use from the first definition on is at a definition or strictly between two, or behind the last. */
  lemma UseHasRange(defs: seq<nat>, limit: nat, u: nat) returns (k: nat)
    requires Increasing(defs) && defs != [] && defs[0] <= u < limit
    ensures k < |defs| && defs[k] <= u && (k + 1 < |defs| ==> u < defs[k + 1])
    ensures u !in defs ==> BelongsTo(k, defs[k], NextDef(defs, k, limit), u)
  {
    k := 0;
    while k + 1 < |defs| && defs[k + 1] <= u
      invariant k < |defs| && defs[k] <= u
    {
      k := k + 1;
    }
  }

  lemma MergedRanges(defs: seq<nat>, uses: seq<nat>, limit: nat, ranges: seq<LiveRange>, first: nat, last: nat)
    requires Increasing(defs) && defs != [] && (forall u | u in uses :: u < limit)
    requires |ranges| == |defs| && forall k | 0 <= k < |defs| :: IsRange(defs, uses, k, limit, ranges[k])
    requires forall k | 0 <= k < |ranges| :: first <= ranges[k].firstDef && ranges[k].lastUse <= last
    requires exists k :: 0 <= k < |ranges| && ranges[k].firstDef == first
    requires exists k :: 0 <= k < |ranges| && ranges[k].lastUse == last
    ensures Merged(defs, uses, first, last) && first <= last
  {
    var a :| 0 <= a < |ranges| && ranges[a].firstDef == first;
    var b :| 0 <= b < |ranges| && ranges[b].lastUse == last;
    assert IsRange(defs, uses, a, limit, ranges[a]) && IsRange(defs, uses, b, limit, ranges[b]);
    assert IsRange(defs, uses, 0, limit, ranges[0]);
    forall d | d in defs ensures d <= last {
      var k :| 0 <= k < |defs| && defs[k] == d;
      RangeEndsLate(defs, uses, k, limit, ranges[k]);
    }
    forall u | u in uses && first <= u ensures u <= last {
      var k := UseHasRange(defs, limit, u);
      assert IsRange(defs, uses, k, limit, ranges[k]);
    }
  }

  lemma RangeEndsLate(defs: seq<nat>, uses: seq<nat>, k: nat, limit: nat, lr: LiveRange)
    requires k < |defs| && IsRange(defs, uses, k, limit, lr)
    ensures lr.lastUse >= defs[k]
  {
  }

  // ----- one interval per register -----

  /**
   * `[first, last]` spans every definition of `r` and every use from the first on, and reaches the end of the loops'
   * hull if a recorded use is in it; it ends at a definition, at a use, or there for that reason.
   */
  ghost predicate Spans(items: seq<Item>, hull: Option<(nat, nat)>, r: Reg, first: nat, last: nat) {
    && first <= last && IsDef(items, first, r) && (forall i: nat | i < first :: !IsDef(items, i, r))
    && (forall i: nat | IsDef(items, i, r) :: i <= last)
    && (forall i: nat | IsUse(items, i, r) && first <= i :: i <= last)
    && (hull.Some? ==> forall i: nat | InHull(items, hull.value, r, i) && first <= i :: hull.value.1 <= last)
    && (|| IsDef(items, last, r) || IsUse(items, last, r)
        || (hull.Some? && last == hull.value.1 && exists i: nat :: first <= i && InHull(items, hull.value, r, i)))
  }

  /** Between two definitions only the first two are taken for uses of what stood there before. */
  ghost predicate Recorded(items: seq<Item>, r: Reg, i: nat) {
    && IsUse(items, i, r)
    && (IsDef(items, i, r) ==> forall a: nat, b: nat | IsDef(items, a, r) && IsDef(items, b, r) && b < i :: a >= b)
  }

  /** A use the liveness facts record inside the hull of the loops. */
  ghost predicate InHull(items: seq<Item>, hull: (nat, nat), r: Reg, i: nat) {
    Recorded(items, r, i) && hull.0 <= i <= hull.1
  }

  /** `_has_use_in_range`. */
  method HasUseInRange(uses: seq<nat>, start: nat, end: nat) returns (r: bool)
    ensures r <==> exists u :: u in uses && start <= u <= end
  {
    for k := 0 to |uses|
      invariant forall u | u in uses[..k] :: !(start <= u <= end)
    {
      assert uses[..k + 1] == uses[..k] + [uses[k]];
      if start <= uses[k] <= end {
        assert uses[k] in uses;
        return true;
      }
    }
    assert uses[..|uses|] == uses;
    return false;
  }

  lemma SpansFromMerged(items: seq<Item>, hull: Option<(nat, nat)>, r: Reg, first: nat, last: nat)
    requires var defs, uses := DefsUpTo(items, |items|, r), UsesUpTo(items, |items|, r);
             defs != [] && Merged(defs, uses, first, last) && first <= last
    requires hull.Some? ==> forall i: nat | InHull(items, hull.value, r, i) && first <= i :: hull.value.1 <= last
    ensures Spans(items, hull, r, first, last)
  {
    var defs, uses := DefsUpTo(items, |items|, r), UsesUpTo(items, |items|, r);
    assert first in defs;
    forall i: nat | IsDef(items, i, r) ensures first <= i <= last {
      assert i in defs;
      var k :| 0 <= k < |defs| && defs[k] == i;
    }
    forall i: nat | IsUse(items, i, r) && first <= i ensures i <= last {
      assert i in uses;
    }
    hide DefsUpTo, UsesUpTo;
  }

  lemma SpansExtended(items: seq<Item>, hull: (nat, nat), r: Reg, first: nat, last: nat)
    requires Spans(items, None, r, first, last) && last < hull.1
    requires exists i: nat :: first <= i && InHull(items, hull, r, i)
    ensures Spans(items, Some(hull), r, first, hull.1)
  {
  }

  /** The merged interval of one register, extended to the end of the hull if one of its recorded uses lies inside. */
  method IntervalOf(items: seq<Item>, hull: Option<(nat, nat)>, r: Reg, defs: seq<nat>, uses: seq<nat>, limit: nat)
    returns (first: nat, last: nat)
    requires defs == DefsUpTo(items, |items|, r) && defs != [] && uses == UsesUpTo(items, |items|, r)
    requires forall u | u in uses :: u < limit
    ensures Spans(items, hull, r, first, last)
  {
    hide IsRange, Merged, Spans, DefsUpTo, UsesUpTo, IsDef, IsUse;
    var ranges := RangesOfRegister(defs, uses, limit);
    var recorded: seq<nat>;
    first, last, recorded := MergeRanges(ranges);
    MergedRanges(defs, uses, limit, ranges, first, last);
    SpansFromMerged(items, None, r, first, last);
    if hull.Some? {
      var usesInLoop := HasUseInRange(recorded, hull.value.0, hull.value.1);
      forall i: nat
        ensures i in recorded && hull.value.0 <= i <= hull.value.1 <==> first <= i && InHull(items, hull.value, r, i)
      {
        RecordedInHull(items, hull.value, r, defs, uses, limit, ranges, recorded, first, last, i);
      }
      if usesInLoop && last < hull.value.1 {
        SpansExtended(items, hull.value, r, first, last);
        last := hull.value.1;
      } else {
        SpansFromMerged(items, hull, r, first, last);
      }
    }
  }

  /** Increasing indices, and one that is not behind two of them. */
  lemma AmongFirstTwo(defs: seq<nat>, i: nat)
    requires Increasing(defs) && i in defs
    ensures (forall a, b | a in defs && b in defs && b < i :: a >= b) <==> i == defs[0] || (|defs| > 1 && i == defs[1])
  {
    var k :| 0 <= k < |defs| && defs[k] == i;
    if k >= 2 {
      assert defs[0] in defs && defs[1] in defs && defs[0] < defs[1] < defs[k];
    }
  }

  lemma DefinedAt(items: seq<Item>, r: Reg, defs: seq<nat>, i: nat)
    requires defs == DefsUpTo(items, |items|, r)
    ensures Increasing(defs) && (IsDef(items, i, r) <==> i in defs)
    ensures Recorded(items, r, i) <==>
              IsUse(items, i, r) && (i in defs ==> i == defs[0] || (|defs| > 1 && i == defs[1]))
  {
    hide IsUse;
    assert forall j: nat :: IsDef(items, j, r) <==> j in defs;
    hide IsDef, DefsUpTo;
    if i in defs {
      AmongFirstTwo(defs, i);
    }
  }

  lemma UsedAt(items: seq<Item>, r: Reg, uses: seq<nat>, i: nat)
    requires uses == UsesUpTo(items, |items|, r)
    ensures IsUse(items, i, r) <==> i in uses
  {
  }

  /** In some range, exactly if it is a use behind no second definition. */
  lemma BelongsExactly(defs: seq<nat>, limit: nat, i: nat)
    requires Increasing(defs) && defs != [] && i < limit
    ensures (exists k :: 0 <= k < |defs| && BelongsTo(k, defs[k], NextDef(defs, k, limit), i)) <==>
            defs[0] <= i && (i in defs ==> i == defs[0] || (|defs| > 1 && i == defs[1]))
  {
    if defs[0] <= i {
      var k := UseHasRange(defs, limit, i);
      if i in defs && (i == defs[0] || (|defs| > 1 && i == defs[1])) {
        assert BelongsTo(0, defs[0], NextDef(defs, 0, limit), i);
      }
    }
    forall k | 0 <= k < |defs| && BelongsTo(k, defs[k], NextDef(defs, k, limit), i)
      ensures defs[0] <= i && (i in defs ==> i == defs[0] || (|defs| > 1 && i == defs[1]))
    {
      if i in defs {
        var d :| 0 <= d < |defs| && defs[d] == i;
      }
    }
  }

  lemma InSomeRange(defs: seq<nat>, uses: seq<nat>, limit: nat, ranges: seq<LiveRange>, recorded: seq<nat>, i: nat)
    requires |ranges| == |defs| && forall k | 0 <= k < |defs| :: IsRange(defs, uses, k, limit, ranges[k])
    requires forall u :: u in recorded <==> exists k :: 0 <= k < |ranges| && u in ranges[k].uses
    ensures i in recorded <==>
            i in uses && exists k :: 0 <= k < |defs| && BelongsTo(k, defs[k], NextDef(defs, k, limit), i)
  {
    hide BelongsTo, NextDef;
    forall k | 0 <= k < |defs| ensures i in ranges[k].uses <==>
                                       i in uses && BelongsTo(k, defs[k], NextDef(defs, k, limit), i)
    {
      assert IsRange(defs, uses, k, limit, ranges[k]);
    }
  }

  lemma RecordedInHull(items: seq<Item>, hull: (nat, nat), r: Reg, defs: seq<nat>, uses: seq<nat>, limit: nat,
                       ranges: seq<LiveRange>, recorded: seq<nat>, first: nat, last: nat, i: nat)
    requires defs == DefsUpTo(items, |items|, r) && defs != [] && uses == UsesUpTo(items, |items|, r)
    requires forall u | u in uses :: u < limit
    requires |ranges| == |defs| && forall k | 0 <= k < |defs| :: IsRange(defs, uses, k, limit, ranges[k])
    requires forall u :: u in recorded <==> exists k :: 0 <= k < |ranges| && u in ranges[k].uses
    requires Merged(defs, uses, first, last)
    ensures i in recorded && hull.0 <= i <= hull.1 <==> first <= i && InHull(items, hull, r, i)
  {
    DefinedAt(items, r, defs, i);
    UsedAt(items, r, uses, i);
    InSomeRange(defs, uses, limit, ranges, recorded, i);
    hide IsRange, DefsUpTo, UsesUpTo, IsDef, IsUse, Recorded, BelongsTo, NextDef;
    if i in uses {
      BelongsExactly(defs, limit, i);
    }
  }

  /** The merged intervals of all defined registers but the predicates. */
  ghost predicate MergedMap(items: seq<Item>, hull: Option<(nat, nat)>, merged: map<Reg, (nat, nat)>) {
    && (forall r :: r in merged <==> !IsPredicate(r) && DefsUpTo(items, |items|, r) != [])
    && (forall r | r in merged :: Spans(items, hull, r, merged[r].0, merged[r].1))
  }

  /** The registers dealt with so far, each with an interval that spans it. */
  ghost predicate MergedSo(items: seq<Item>, hull: Option<(nat, nat)>, merged: map<Reg, (nat, nat)>, done: set<Reg>) {
    && (forall r :: r in merged <==> !IsPredicate(r) && r in done)
    && (forall r | r in merged :: Spans(items, hull, r, merged[r].0, merged[r].1))
  }

  /** What the collecting loop found, register by register. */
  ghost predicate Collected(items: seq<Item>, allDefs: Occurrences, allUses: Occurrences, limit: nat) {
    && (forall r :: r in allDefs <==> DefsUpTo(items, |items|, r) != [])
    && (forall r | r in allDefs :: allDefs[r] == DefsUpTo(items, |items|, r))
    && (forall r :: OccurrencesOf(allUses, r) == UsesUpTo(items, |items|, r))
    && (forall r, u | u in UsesUpTo(items, |items|, r) :: u < limit)
  }

  method MergeOne(items: seq<Item>, hull: Option<(nat, nat)>, allDefs: Occurrences, allUses: Occurrences, limit: nat,
                  merged: map<Reg, (nat, nat)>, r: Reg, ghost done: set<Reg>) returns (merged': map<Reg, (nat, nat)>)
    requires Collected(items, allDefs, allUses, limit) && r in allDefs && MergedSo(items, hull, merged, done)
    ensures MergedSo(items, hull, merged', done + {r})
  {
    hide *;
    CollectedAt(items, allDefs, allUses, limit, r);
    merged' := merged;
    if IsPredicate(r) {
      MergedPredicate(items, hull, merged, r, done);
    } else {
      var first, last := IntervalOf(items, hull, r, allDefs[r], OccurrencesOf(allUses, r), limit);
      MergedMore(items, hull, merged, r, first, last, done);
      merged' := merged[r := (first, last)];
    }
  }

  lemma CollectedAt(items: seq<Item>, allDefs: Occurrences, allUses: Occurrences, limit: nat, r: Reg)
    requires Collected(items, allDefs, allUses, limit) && r in allDefs
    ensures allDefs[r] == DefsUpTo(items, |items|, r) != [] && OccurrencesOf(allUses, r) == UsesUpTo(items, |items|, r)
    ensures forall u | u in UsesUpTo(items, |items|, r) :: u < limit
  {
    hide DefsUpTo, UsesUpTo, OccurrencesOf;
  }

  lemma MergedPredicate(items: seq<Item>, hull: Option<(nat, nat)>, merged: map<Reg, (nat, nat)>, r: Reg,
                        done: set<Reg>)
    requires MergedSo(items, hull, merged, done) && IsPredicate(r)
    ensures MergedSo(items, hull, merged, done + {r})
  {
    hide Spans;
  }

  lemma MergedMore(items: seq<Item>, hull: Option<(nat, nat)>, merged: map<Reg, (nat, nat)>, r: Reg, first: nat,
                   last: nat, done: set<Reg>)
    requires MergedSo(items, hull, merged, done) && !IsPredicate(r) && Spans(items, hull, r, first, last)
    ensures MergedSo(items, hull, merged[r := (first, last)], done + {r})
  {
    hide Spans;
  }

  method MergeAll(items: seq<Item>, hull: Option<(nat, nat)>) returns (merged: map<Reg, (nat, nat)>)
    ensures MergedMap(items, hull, merged)
  {
    var allDefs, allUses, lastInstIndex := CollectDefsUses(items);
    UsesBelow(items, lastInstIndex);
    CollectedAll(items, allDefs, allUses, lastInstIndex + 1);
    hide *;
    var todo := allDefs.Keys;
    merged := map[];
    ghost var done: set<Reg> := {};
    NoneMerged(items, hull);
    while todo != {}
      invariant done + todo == allDefs.Keys && MergedSo(items, hull, merged, done)
      decreases todo
    {
      var r :| r in todo;
      MoveOver(done, todo, r);
      merged := MergeOne(items, hull, allDefs, allUses, lastInstIndex + 1, merged, r, done);
      todo, done := todo - {r}, done + {r};
    }
    AllMerged(items, hull, allDefs, allUses, lastInstIndex + 1, merged, done);
  }

  lemma CollectedAll(items: seq<Item>, allDefs: Occurrences, allUses: Occurrences, limit: nat)
    requires DefsListed(items, |items|, allDefs) && UsesListed(items, |items|, allUses)
    requires forall r, u | u in UsesUpTo(items, |items|, r) :: u < limit
    ensures Collected(items, allDefs, allUses, limit)
  {
    hide DefsUpTo, UsesUpTo;
  }

  lemma MoveOver(done: set<Reg>, todo: set<Reg>, r: Reg)
    requires r in todo
    ensures (done + {r}) + (todo - {r}) == done + todo && todo - {r} < todo
  {
  }

  lemma NoneMerged(items: seq<Item>, hull: Option<(nat, nat)>)
    ensures MergedSo(items, hull, map[], {})
  {
  }

  lemma AllMerged(items: seq<Item>, hull: Option<(nat, nat)>, allDefs: Occurrences, allUses: Occurrences, limit: nat,
                  merged: map<Reg, (nat, nat)>, done: set<Reg>)
    requires Collected(items, allDefs, allUses, limit) && MergedSo(items, hull, merged, done) && done == allDefs.Keys
    ensures MergedMap(items, hull, merged)
  {
    hide Spans, DefsUpTo, UsesUpTo, OccurrencesOf;
  }

  lemma UsesBelow(items: seq<Item>, lastInstIndex: int)
    requires -1 <= lastInstIndex < |items| && forall i | lastInstIndex < i < |items| :: items[i].Label?
    ensures forall r, u | u in UsesUpTo(items, |items|, r) :: u < lastInstIndex + 1
  {
  }

  // ----- the scan -----

  /** Exactly the merged registers, each with its interval, by start. */
  ghost predicate Listed(merged: map<Reg, (nat, nat)>, intervals: seq<Interval>, n: nat) {
    && (forall k | 0 <= k < |intervals| ::
          && intervals[k].reg in merged && merged[intervals[k].reg] == (intervals[k].first, intervals[k].last)
          && intervals[k].first < n)
    && (forall j, k | 0 <= j < k < |intervals| :: intervals[j].first < intervals[k].first)
    && (forall r | r in merged && merged[r].0 < n ::
          exists k :: 0 <= k < |intervals| && intervals[k] == Interval(r, merged[r].0, merged[r].1))
  }

  lemma FirstIsDef(items: seq<Item>, hull: Option<(nat, nat)>, merged: map<Reg, (nat, nat)>, n: nat)
    requires n < |items| && MergedMap(items, hull, merged)
    ensures forall r | r in merged && merged[r].0 == n :: IsDef(items, n, r)
  {
    forall r | r in merged && merged[r].0 == n ensures IsDef(items, n, r) {
      assert Spans(items, hull, r, merged[r].0, merged[r].1);
    }
  }

  lemma ListedMore(merged: map<Reg, (nat, nat)>, intervals: seq<Interval>, n: nat, r: Reg)
    requires Listed(merged, intervals, n) && r in merged && merged[r].0 == n
    requires forall q | q in merged && merged[q].0 == n :: q == r
    ensures Listed(merged, intervals + [Interval(r, n, merged[r].1)], n + 1)
  {
    var longer := intervals + [Interval(r, n, merged[r].1)];
    assert longer[|intervals|] == Interval(r, merged[r].0, merged[r].1);
    forall q | q in merged && merged[q].0 < n + 1
      ensures exists k :: 0 <= k < |longer| && longer[k] == Interval(q, merged[q].0, merged[q].1)
    {
      if merged[q].0 < n {
        var k :| 0 <= k < |intervals| && intervals[k] == Interval(q, merged[q].0, merged[q].1);
        assert longer[k] == intervals[k];
      }
    }
  }

  lemma ListedSame(merged: map<Reg, (nat, nat)>, intervals: seq<Interval>, n: nat)
    requires Listed(merged, intervals, n) && forall q | q in merged :: merged[q].0 != n
    ensures Listed(merged, intervals, n + 1)
  {
  }

  /** `sorted(merged.items(), key=first_def)`: no two registers share a first definition. */
  method SortByFirst(items: seq<Item>, hull: Option<(nat, nat)>, merged: map<Reg, (nat, nat)>)
    returns (intervals: seq<Interval>)
    requires MergedMap(items, hull, merged)
    ensures Listed(merged, intervals, |items|)
  {
    hide MergedMap, Listed, DestRegister;
    intervals := [];
    NothingSorted(merged);
    for n := 0 to |items|
      invariant Listed(merged, intervals, n)
    {
      FirstIsDef(items, hull, merged, n);
      var dest := if items[n].Code? then DestRegister(items[n].inst) else None;
      if dest.Some? && dest.value in merged && merged[dest.value].0 == n {
        ListedMore(merged, intervals, n, dest.value);
        intervals := intervals + [Interval(dest.value, n, merged[dest.value].1)];
      } else {
        ListedSame(merged, intervals, n);
      }
    }
  }

  lemma NothingSorted(merged: map<Reg, (nat, nat)>)
    ensures Listed(merged, [], 0)
  {
  }

  lemma ListedScannable(items: seq<Item>, hull: Option<(nat, nat)>, merged: map<Reg, (nat, nat)>,
                        intervals: seq<Interval>)
    requires MergedMap(items, hull, merged) && Listed(merged, intervals, |items|)
    ensures Scannable(intervals)
    ensures forall k | 0 <= k < |intervals| ::
              Spans(items, hull, intervals[k].reg, intervals[k].first, intervals[k].last)
                  && !IsPredicate(intervals[k].reg)
    ensures forall r: Reg, i: nat | IsDef(items, i, r) && !IsPredicate(r) ::
            exists k :: 0 <= k < |intervals| && intervals[k].reg == r
  {
    forall k | 0 <= k < |intervals|
      ensures Spans(items, hull, intervals[k].reg, intervals[k].first, intervals[k].last)
    {
      assert merged[intervals[k].reg] == (intervals[k].first, intervals[k].last);
    }
    forall r: Reg, i: nat | IsDef(items, i, r) && !IsPredicate(r)
      ensures exists k :: 0 <= k < |intervals| && intervals[k].reg == r {
      assert i in DefsUpTo(items, |items|, r);
      assert r in merged && Spans(items, hull, r, merged[r].0, merged[r].1);
      var k :| 0 <= k < |intervals| && intervals[k] == Interval(r, merged[r].0, merged[r].1);
    }
    hide DefsUpTo;
    forall k | 0 <= k < |intervals| ensures intervals[k].first <= intervals[k].last {
      assert Spans(items, hull, intervals[k].reg, intervals[k].first, intervals[k].last);
    }
  }

  /** The loop that returns the registers of ended intervals. */
  method ExpireOld(free: seq<nat>, active: seq<Busy>, first: nat) returns (free': seq<nat>, stillActive: seq<Busy>)
    ensures free' == free + Expired(active, first) && stillActive == Lasting(active, first)
  {
    free', stillActive := free, [];
    for k := 0 to |active|
      invariant free' == free + Expired(active[..k], first) && stillActive == Lasting(active[..k], first)
    {
      assert active[..k + 1][..k] == active[..k];
      if active[k].end < first {
        free' := free' + [active[k].phys];
      } else {
        stillActive := stillActive + [active[k]];
      }
    }
    assert active[..|active|] == active;
  }

  /** The search for an even register whose neighbour is free, from the end of the list. */
  method FindPair(free: seq<nat>) returns (r: Option<nat>)
    ensures r == PairIndex(free, |free|)
  {
    for i := |free| downto 0
      invariant PairIndex(free, |free|) == PairIndex(free, i)
    {
      if free[i] % 2 == 0 && free[i] + 1 in free {
        return Some(i);
      }
    }
    return None;
  }

  /** The branch for a pair when no even/odd pair was found. */
  method TryNeighbour(free: seq<nat>, active: seq<Busy>, mapping: map<Reg, nat>, iv: Interval)
    returns (free': seq<nat>, active': seq<Busy>, mapping': map<Reg, nat>)
    ensures Pool(free', active', mapping') == Fallback(Pool(free, active, mapping), iv)
  {
    hide RemoveAt, IndexOf;
    free', active', mapping' := free, active, mapping;
    if |free'| >= 2 {
      var phys := free'[|free'| - 1];
      free' := free'[..|free'| - 1];
      if phys % 2 == 1 && phys > 0 {
        phys := phys - 1;
      }
      if phys + 1 in free' {
        free' := RemoveAt(free', IndexOf(free', phys + 1));
        if phys > 0 && phys % 2 == 0 && phys + 1 <= MAX_GPR {
          mapping' := mapping'[iv.reg := phys];
          active' := active' + [Busy(iv.last, phys), Busy(iv.last, phys + 1)];
        }
      } else {
        free' := free' + [phys];
      }
    }
  }

  /** One register of the scan. */
  method AllocateRegister(free: seq<nat>, active: seq<Busy>, mapping: map<Reg, nat>, iv: Interval)
    returns (free': seq<nat>, active': seq<Busy>, mapping': map<Reg, nat>)
    ensures Pool(free', active', mapping') == Allocate(Pool(free, active, mapping), iv)
  {
    hide Expired, Lasting, PairIndex, RemoveAt, RemoveBoth, IndexOf, Fallback;
    free', active' := ExpireOld(free, active, iv.first);
    mapping' := mapping;
    if IsPair(iv.reg) {
      var at := FindPair(free');
      var even := 0;
      if at.Some? {
        even := free'[at.value];
        free' := RemoveBoth(free', at.value, IndexOf(free', even + 1));
      }
      if even != 0 {
        mapping' := mapping'[iv.reg := even];
        active' := active' + [Busy(iv.last, even), Busy(iv.last, even + 1)];
      } else {
        free', active', mapping' := TryNeighbour(free', active', mapping', iv);
      }
    } else if free' != [] {
      var phys := free'[|free'| - 1];
      free' := free'[..|free'| - 1];
      mapping' := mapping'[iv.reg := phys];
      active' := active' + [Busy(iv.last, phys)];
    }
  }

  /** `LinearScanRegisterAllocationPass.run`, the general registers; the hull of the loops is given. */
  method AllocateRegisters(items: seq<Item>, hull: Option<(nat, nat)>)
    returns (mapping: map<Reg, nat>, ghost intervals: seq<Interval>)
    ensures Scannable(intervals) && mapping == Scan(intervals, |intervals|).mapping
    ensures forall k | 0 <= k < |intervals| ::
              Spans(items, hull, intervals[k].reg, intervals[k].first, intervals[k].last)
                  && !IsPredicate(intervals[k].reg)
    ensures forall r: Reg, i: nat | IsDef(items, i, r) && !IsPredicate(r) ::
            exists k :: 0 <= k < |intervals| && intervals[k].reg == r
  {
    hide Spans, Allocate, MergedMap, Listed, IsDef, Scannable;
    var merged := MergeAll(items, hull);
    var sortedRegs := SortByFirst(items, hull, merged);
    ListedScannable(items, hull, merged, sortedRegs);
    intervals := sortedRegs;
    mapping := map[];
    var active: seq<Busy> := [];
    var free: seq<nat> := seq(MAX_GPR, i requires 0 <= i < MAX_GPR => MAX_GPR - i);
    for k := 0 to |sortedRegs|
      invariant Pool(free, active, mapping) == Scan(sortedRegs, k)
    {
      free, active, mapping := AllocateRegister(free, active, mapping, sortedRegs[k]);
    }
  }

  /** Registers with a recorded use inside the hull of the loops never share a physical register. */
  lemma HullUsersDisjoint(items: seq<Item>, hull: (nat, nat), intervals: seq<Interval>, a: nat, b: nat, ua: nat,
                          ub: nat)
    requires Scannable(intervals) && Unspoiled(intervals, |intervals|) && a < |intervals| && b < |intervals| && a != b
    requires Spans(items, Some(hull), intervals[a].reg, intervals[a].first, intervals[a].last)
    requires Spans(items, Some(hull), intervals[b].reg, intervals[b].first, intervals[b].last)
    requires InHull(items, hull, intervals[a].reg, ua) && intervals[a].first <= ua
    requires InHull(items, hull, intervals[b].reg, ub) && intervals[b].first <= ub
    ensures var m := Scan(intervals, |intervals|).mapping;
            intervals[a].reg in m && intervals[b].reg in m ==>
              Slots(intervals[a].reg, m[intervals[a].reg]) !! Slots(intervals[b].reg, m[intervals[b].reg])
  {
    hide Scannable, Unspoiled, Scan, Slots;
    AliveTogetherDisjoint(intervals, a, b, hull.1);
  }
}
