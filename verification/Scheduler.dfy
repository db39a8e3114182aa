/** The list scheduler itself: dependence counting, the ready heap, and the walk over blocks. */
module Scheduler {
  import opened Wrappers
  import opened Isa
  import opened Lists
  import opened Machine
  import opened Reorder
  import opened Dependence

  type Graph = map<nat, seq<nat>>

  /** `dependents.get(i, [])`. */
  function DependentsOf(g: map<nat, seq<nat>>, i: nat): seq<nat> {
    if i in g then g[i] else []
  }

  function AddNew(s: seq<nat>, r: nat): seq<nat> {
    if r > 255 || r in s then s else s + [r]
  }

  /** Source registers without duplicates. */
  function SourceRegs(inst: Inst): (s: seq<nat>)
    ensures forall r: nat :: r in s <==> Reads(inst, r)
  {
    AddNew(AddNew(AddNew([], inst.src1), inst.src2), inst.src3)
  }

  /** The closest preceding definition of each source that has one. */
  function ClosestDefs(sources: seq<nat>, lastDef: map<nat, nat>): (defs: seq<nat>)
    ensures forall i: nat :: i in defs <==> exists r :: r in sources && r in lastDef && lastDef[r] == i
  {
    if sources == [] then []
    else
      var rest := ClosestDefs(sources[1..], lastDef);
      assert sources == [sources[0]] + sources[1..];
      if sources[0] in lastDef then [lastDef[sources[0]]] + rest else rest
  }

  // ----- counting unresolved dependences -----

  /** How often `j` is listed as a dependent of the unissued indices below `bound`. */
  ghost function Pending(g: Graph, issued: seq<nat>, bound: nat, j: nat): nat {
    if bound == 0 then 0
    else
      Pending(g, issued, bound - 1, j)
      + (if bound - 1 in issued then 0 else multiset(DependentsOf(g, bound - 1))[j])
  }

  lemma {:induction false} PendingZero(g: Graph, issued: seq<nat>, bound: nat, j: nat)
    ensures Pending(g, issued, bound, j) == 0
       <==> forall i: nat | i < bound && i !in issued :: j !in DependentsOf(g, i)
  {
    if bound > 0 {
      PendingZero(g, issued, bound - 1, j);
      assert multiset(DependentsOf(g, bound - 1))[j] == 0 <==> j !in DependentsOf(g, bound - 1);
    }
  }

  lemma {:induction false} PendingAfterLink(g: Graph, g': Graph, i: nat, j: nat, bound: nat, l: nat)
    requires g' == g[i := DependentsOf(g, i) + [j]]
    ensures Pending(g', [], bound, l) == Pending(g, [], bound, l) + if l == j && i < bound then 1 else 0
  {
    if bound > 0 {
      PendingAfterLink(g, g', i, j, bound - 1, l);
      assert multiset(DependentsOf(g, i) + [j]) == multiset(DependentsOf(g, i)) + multiset{j};
    }
  }

  lemma {:induction false} PendingAfterIssue(g: Graph, issued: seq<nat>, best: nat, bound: nat, j: nat)
    requires best !in issued
    ensures Pending(g, issued, bound, j)
         == Pending(g, issued + [best], bound, j) + if best < bound then multiset(DependentsOf(g, best))[j] else 0
  {
    if bound > 0 {
      PendingAfterIssue(g, issued, best, bound - 1, j);
      assert bound - 1 in issued + [best] <==> bound - 1 in issued || bound - 1 == best;
    }
  }

  // ----- building the graph -----

  /** The table of last definitions after the first `idx` instructions. */
  ghost predicate DefTable(insts: seq<Inst>, idx: nat, lastDef: map<nat, nat>)
    requires idx <= |insts|
  {
    forall r: nat ::
      if r in lastDef then
        lastDef[r] < idx && Writes(insts[lastDef[r]], r) && NoWriteBetween(insts, lastDef[r], idx, r)
      else
        forall k | 0 <= k < idx :: !Writes(insts[k], r)
  }

  ghost predicate PendingRead(insts: seq<Inst>, idx: nat, r: nat, k: nat)
    requires idx <= |insts|
  {
    k < idx && Reads(insts[k], r) && NoWriteBetween(insts, k, idx, r)
  }

  /** The reads of each register since its last write, after the first `idx` instructions. */
  ghost predicate ReadTable(insts: seq<Inst>, idx: nat, pendingReads: map<nat, seq<nat>>)
    requires idx <= |insts|
  {
    forall r: nat, k: nat :: k in DependentsOf(pendingReads, r) <==> PendingRead(insts, idx, r, k)
  }

  ghost predicate StoreMark(insts: seq<Inst>, idx: nat, lastStore: Option<nat>)
    requires idx <= |insts|
  {
    match lastStore
    case Some(s) => s < idx && KindOf(insts[s]) == Stores && NoStoreBetween(insts, s, idx)
    case None => forall k | 0 <= k < idx :: KindOf(insts[k]) != Stores
  }

  ghost predicate Tables(insts: seq<Inst>, idx: nat, lastDef: map<nat, nat>,
                         pendingReads: map<nat, seq<nat>>, lastStore: Option<nat>)
    requires idx <= |insts|
  {
    DefTable(insts, idx, lastDef) && ReadTable(insts, idx, pendingReads) && StoreMark(insts, idx, lastStore)
  }

  /** Everything instruction `idx` has to wait for, with repetitions. */
  function WaitsFor(inst: Inst, lastDef: map<nat, nat>, pendingReads: map<nat, seq<nat>>,
                    lastWrite: map<nat, nat>, lastStore: Option<nat>): seq<nat>
  {
    ClosestDefs(SourceRegs(inst), lastDef)
    + (if HasDest(inst) then DependentsOf(pendingReads, inst.dest) else [])
    + (if HasDest(inst) && inst.dest in lastWrite then [lastWrite[inst.dest]] else [])
    + (if KindOf(inst) == Loads && lastStore.Some? then [lastStore.value] else [])
  }

  lemma ClosestDefIsRaw(insts: seq<Inst>, idx: nat, lastDef: map<nat, nat>, i: nat)
    requires idx < |insts| && DefTable(insts, idx, lastDef)
    ensures i in ClosestDefs(SourceRegs(insts[idx]), lastDef) <==> RawEdge(insts, i, idx)
  {
    hide ClosestDefs, SourceRegs, Reads, Writes;
    if RawEdge(insts, i, idx) {
      var r := insts[i].dest;
      assert r in lastDef;
      assert lastDef[r] == i;
    }
    if r :| r in SourceRegs(insts[idx]) && r in lastDef && lastDef[r] == i {
      WriterIsDest(insts[i], r);
    }
  }

  lemma WriterIsDest(inst: Inst, r: nat)
    ensures Writes(inst, r) ==> inst.dest == r
  {
  }

  lemma WaitsForIsEdges(insts: seq<Inst>, idx: nat, lastDef: map<nat, nat>,
                        pendingReads: map<nat, seq<nat>>, lastStore: Option<nat>, i: nat)
    requires idx < |insts| && Tables(insts, idx, lastDef, pendingReads, lastStore)
    ensures i in WaitsFor(insts[idx], lastDef, pendingReads, lastDef, lastStore) <==> Edge(insts, i, idx)
  {
    var inst := insts[idx];
    ClosestDefIsRaw(insts, idx, lastDef, i);
    hide ClosestDefs, RawEdge, SourceRegs, Reads;
    if HasDest(inst) {
      assert i in DependentsOf(pendingReads, inst.dest) <==> WarEdge(insts, i, idx);
      assert inst.dest in lastDef && lastDef[inst.dest] == i <==> WawEdge(insts, i, idx);
    }
    if KindOf(inst) == Loads {
      assert lastStore == Some(i) <==> BarrierEdge(insts, i, idx);
    }
  }

  /** The reads of `idx` join the pending ones; its write clears those of its destination first. */
  method TrackReads(inst: Inst, idx: nat, pendingReads: map<nat, seq<nat>>) returns (updated: map<nat, seq<nat>>)
    ensures forall r: nat, k: nat ::
              k in DependentsOf(updated, r) <==>
                  (k in DependentsOf(pendingReads, r) && !Writes(inst, r)) || (k == idx && Reads(inst, r))
  {
    updated := if HasDest(inst) then pendingReads[inst.dest := []] else pendingReads;
    var sources := SourceRegs(inst);
    for t := 0 to |sources|
      invariant forall r: nat, k: nat ::
                  k in DependentsOf(updated, r) <==>
                      (k in DependentsOf(pendingReads, r) && !Writes(inst, r)) || (k == idx && r in sources[..t])
    {
      updated := updated[sources[t] := DependentsOf(updated, sources[t]) + [idx]];
      assert sources[..t + 1] == sources[..t] + [sources[t]];
    }
    assert sources[..|sources|] == sources;
  }

  /** `unresolved += 1; dependents.setdefault(i, []).append(idx)` for each `i` waited for. */
  method Link(g: Graph, waits: seq<nat>, idx: nat, ghost n: nat) returns (g': Graph, unresolved: nat)
    requires forall i | i in waits :: i < n
    ensures forall i: nat, j: nat :: j in DependentsOf(g', i) <==> j in DependentsOf(g, i) || (j == idx && i in waits)
    ensures forall l: nat :: Pending(g', [], n, l) == Pending(g, [], n, l) + if l == idx then unresolved else 0
  {
    g', unresolved := g, 0;
    for t := 0 to |waits|
      invariant forall i: nat, j: nat ::
                  j in DependentsOf(g', i) <==> j in DependentsOf(g, i) || (j == idx && i in waits[..t])
      invariant forall l: nat :: Pending(g', [], n, l) == Pending(g, [], n, l) + if l == idx then unresolved else 0
    {
      ghost var before := g';
      assert waits[t] in waits;
      assert waits[..t + 1] == waits[..t] + [waits[t]];
      g' := g'[waits[t] := DependentsOf(g', waits[t]) + [idx]];
      unresolved := unresolved + 1;
      forall l: nat ensures Pending(g', [], n, l) == Pending(g, [], n, l) + if l == idx then unresolved else 0 {
        PendingAfterLink(before, g', waits[t], idx, n, l);
      }
    }
    assert waits[..|waits|] == waits;
  }

  /** The graph holds exactly the edges into indices below `idx`. */
  ghost predicate GraphUpTo(insts: seq<Inst>, g: Graph, idx: nat) {
    forall i: nat, j: nat :: j in DependentsOf(g, i) <==> j < idx && Edge(insts, i, j)
  }

  lemma DefTableAdvance(insts: seq<Inst>, idx: nat, lastDef: map<nat, nat>)
    requires idx < |insts| && DefTable(insts, idx, lastDef)
    ensures DefTable(insts, idx + 1, if HasDest(insts[idx]) then lastDef[insts[idx].dest := idx] else lastDef)
  {
  }

  lemma ReadTableAdvance(insts: seq<Inst>, idx: nat, pendingReads: map<nat, seq<nat>>, tracked: map<nat, seq<nat>>)
    requires idx < |insts| && ReadTable(insts, idx, pendingReads)
    requires forall r: nat, k: nat ::
               k in DependentsOf(tracked, r)
               <==> (k in DependentsOf(pendingReads, r) && !Writes(insts[idx], r)) || (k == idx && Reads(insts[idx], r))
    ensures ReadTable(insts, idx + 1, tracked)
  {
    forall r: nat, k: nat
      ensures k in DependentsOf(tracked, r) <==> PendingRead(insts, idx + 1, r, k)
    {
      assert k in DependentsOf(pendingReads, r) <==> PendingRead(insts, idx, r, k);
      if k < idx {
        assert NoWriteBetween(insts, k, idx + 1, r) <==> NoWriteBetween(insts, k, idx, r) && !Writes(insts[idx], r);
      }
    }
  }

  /** One more instruction linked in: the graph is complete one index further. */
  lemma GraphAdvance(insts: seq<Inst>, g: Graph, g': Graph, idx: nat, waits: seq<nat>)
    requires idx < |insts| && GraphUpTo(insts, g, idx)
    requires forall i: nat :: i in waits <==> Edge(insts, i, idx)
    requires forall i: nat, j: nat :: j in DependentsOf(g', i) <==> j in DependentsOf(g, i) || (j == idx && i in waits)
    ensures GraphUpTo(insts, g', idx + 1)
  {
    forall i: nat, j: nat ensures j in DependentsOf(g', i) <==> j < idx + 1 && Edge(insts, i, j) {
      assert j in DependentsOf(g, i) <==> j < idx && Edge(insts, i, j);
    }
  }

  /** Counters and ready set after the first `idx` of `n` instructions, nothing issued yet. */
  ghost predicate Counted(g: Graph, idx: nat, n: nat, depCount: seq<nat>, ready: set<nat>) {
    && |depCount| == idx
    && (forall j: nat :: Pending(g, [], n, j) == if j < idx then depCount[j] else 0)
    && (forall j: nat :: j in ready <==> j < idx && depCount[j] == 0)
  }

  /** Link instruction `idx` into the graph and count what it waits for. */
  method AddInstruction(insts: seq<Inst>, idx: nat, g: Graph, waits: seq<nat>, depCount: seq<nat>, ready: set<nat>)
    returns (g': Graph, depCount': seq<nat>, ready': set<nat>)
    requires idx < |insts| && GraphUpTo(insts, g, idx)
    requires Counted(g, idx, |insts|, depCount, ready)
    requires forall i: nat :: i in waits <==> Edge(insts, i, idx)
    ensures GraphUpTo(insts, g', idx + 1)
    ensures Counted(g', idx + 1, |insts|, depCount', ready')
  {
    forall i | i in waits ensures i < |insts| {
      assert Edge(insts, i, idx);
    }
    var unresolved;
    g', unresolved := Link(g, waits, idx, |insts|);
    depCount' := depCount + [unresolved];
    ready' := if unresolved == 0 then ready + {idx} else ready;
    GraphAdvance(insts, g, g', idx, waits);
  }

  method BuildGraph(insts: seq<Inst>) returns (g: Graph, depCount: seq<nat>, ready: set<nat>)
    ensures GraphUpTo(insts, g, |insts|)
    ensures Counted(g, |insts|, |insts|, depCount, ready)
  {
    g, depCount, ready := map[], [], {};
    var lastDef: map<nat, nat>, lastWrite: map<nat, nat> := map[], map[];
    var pendingReads: map<nat, seq<nat>> := map[];
    var lastStore: Option<nat> := None;
    forall l: nat ensures Pending(g, [], |insts|, l) == 0 {
      PendingZero(g, [], |insts|, l);
    }
    for idx := 0 to |insts|
      invariant lastWrite == lastDef && DefTable(insts, idx, lastDef)
      invariant ReadTable(insts, idx, pendingReads)
      invariant StoreMark(insts, idx, lastStore)
      invariant GraphUpTo(insts, g, idx)
      invariant Counted(g, idx, |insts|, depCount, ready)
    {
      var inst := insts[idx];
      var waits := WaitsFor(inst, lastDef, pendingReads, lastWrite, lastStore);
      forall i: nat ensures i in waits <==> Edge(insts, i, idx) {
        WaitsForIsEdges(insts, idx, lastDef, pendingReads, lastStore, i);
      }
      g, depCount, ready := AddInstruction(insts, idx, g, waits, depCount, ready);
      var tracked := TrackReads(inst, idx, pendingReads);
      DefTableAdvance(insts, idx, lastDef);
      ReadTableAdvance(insts, idx, pendingReads, tracked);
      pendingReads := tracked;
      if HasDest(inst) {
        lastWrite := lastWrite[inst.dest := idx];
        lastDef := lastDef[inst.dest := idx];
      }
      lastStore := if KindOf(inst) == Stores then Some(idx) else lastStore;
    }
  }

  // ----- issuing -----

  /** `heappop`: the ready instruction with the least (priority, index). */
  method PopBest(insts: seq<Inst>, ready: set<nat>) returns (best: nat)
    requires ready != {} && forall i | i in ready :: i < |insts|
    ensures best in ready && forall i | i in ready :: NoWorse(insts, best, i)
  {
    best :| best in ready;
    var rest := ready - {best};
    while rest != {}
      invariant rest <= ready && best in ready
      invariant forall i | i in ready && i !in rest :: NoWorse(insts, best, i)
      decreases rest
    {
      var i :| i in rest;
      if !NoWorse(insts, best, i) {
        best := i;
      }
      rest := rest - {i};
    }
  }

  /** The counters, the ready set and the schedule so far all tell the same story. */
  ghost predicate Issuing(insts: seq<Inst>, g: Graph, scheduled: seq<nat>, depCount: seq<nat>, ready: set<nat>) {
    && GraphUpTo(insts, g, |insts|)
    && |depCount| == |insts|
    && (forall j | 0 <= j < |insts| :: depCount[j] == Pending(g, scheduled, |insts|, j))
    && (forall j: nat :: j in ready <==> j < |insts| && j !in scheduled && depCount[j] == 0)
    && (forall k | 0 <= k < |scheduled| :: IsBest(insts, scheduled[..k], scheduled[k]))
  }

  lemma ReadySetIsReady(insts: seq<Inst>, g: Graph, scheduled: seq<nat>, depCount: seq<nat>, ready: set<nat>, j: nat)
    requires Issuing(insts, g, scheduled, depCount, ready)
    ensures j in ready <==> Ready(insts, scheduled, j)
  {
    PendingZero(g, scheduled, |insts|, j);
    forall i: nat ensures j in DependentsOf(g, i) <==> j < |insts| && Edge(insts, i, j) {
    }
  }

  /** A dependent of an instruction that is only now issued cannot have been issued before. */
  lemma DependentUnissued(insts: seq<Inst>, scheduled: seq<nat>, best: nat, dep: nat)
    requires forall k | 0 <= k < |scheduled| :: IsBest(insts, scheduled[..k], scheduled[k])
    requires best !in scheduled && Edge(insts, best, dep)
    ensures dep !in scheduled + [best]
  {
    forall k | 0 <= k < |scheduled| ensures scheduled[k] != dep {
      assert IsBest(insts, scheduled[..k], scheduled[k]);
      assert best !in scheduled[..k];
    }
  }

  /** `for dep in dependents.get(best, []): dep_count[dep] -= 1; push when it reaches zero`. */
  method Release(insts: seq<Inst>, g: Graph, scheduled: seq<nat>, best: nat, depCount: seq<nat>, ready: set<nat>)
    returns (depCount': seq<nat>, ready': set<nat>)
    requires Issuing(insts, g, scheduled, depCount, ready)
    requires best in ready && IsBest(insts, scheduled, best)
    ensures Issuing(insts, g, scheduled + [best], depCount', ready')
  {
    hide Pending, Edge, IsBest, DependentsOf;
    var n := |insts|;
    var deps := DependentsOf(g, best);
    ghost var scheduled' := scheduled + [best];
    depCount', ready' := depCount, ready - {best};
    forall j: nat | j < n ensures depCount[j] == Pending(g, scheduled', n, j) + multiset(deps)[j] {
      PendingAfterIssue(g, scheduled, best, n, j);
    }
    assert deps[0..] == deps;
    for t := 0 to |deps|
      invariant |depCount'| == n
      invariant forall j | 0 <= j < n :: depCount'[j] == Pending(g, scheduled', n, j) + multiset(deps[t..])[j]
      invariant forall j: nat :: j in ready' <==> j < n && j !in scheduled' && depCount'[j] == 0
    {
      var dep := deps[t];
      assert dep in DependentsOf(g, best);
      DependentUnissued(insts, scheduled, best, dep);
      assert deps[t..] == [dep] + deps[t + 1..];
      assert multiset(deps[t..]) == multiset{dep} + multiset(deps[t + 1..]);
      depCount' := depCount'[dep := depCount'[dep] - 1];
      if depCount'[dep] == 0 {
        ready' := ready' + {dep};
      }
    }
    assert deps[|deps|..] == [];
    forall k | 0 <= k < |scheduled'| ensures IsBest(insts, scheduled'[..k], scheduled'[k]) {
      assert scheduled'[..k] == scheduled[..k];
    }
  }

  /** What `_schedule_block` promises: short blocks untouched, others in greedy issue order. */
  ghost predicate BlockScheduled(block: seq<Inst>, result: seq<Inst>) {
    if |block| <= 2 then result == block
    else exists order :: Greedy(block, order) && Within(block, order) && result == Pick(block, order)
  }

  /** `_schedule_block`.  The check that every instruction was issued can never fail. */
  method ScheduleBlock(insts: seq<Inst>) returns (result: seq<Inst>)
    ensures BlockScheduled(insts, result)
    ensures |result| == |insts|
  {
    if |insts| <= 2 {
      return insts;
    }
    var g, depCount, ready := BuildGraph(insts);
    var scheduled: seq<nat> := [];
    ghost var all := set i | i in UpTo(|insts|);
    while ready != {}
      invariant Issuing(insts, g, scheduled, depCount, ready)
      decreases all - (set i | i in scheduled)
    {
      var best := PopBest(insts, ready);
      forall j: nat ensures j in ready <==> Ready(insts, scheduled, j) {
        ReadySetIsReady(insts, g, scheduled, depCount, ready, j);
      }
      depCount, ready := Release(insts, g, scheduled, best, depCount, ready);
      assert UpTo(|insts|)[best] == best;
      assert best in all - (set i | i in scheduled);
      scheduled := scheduled + [best];
    }
    forall j: nat ensures !Ready(insts, scheduled, j) {
      ReadySetIsReady(insts, g, scheduled, depCount, ready, j);
    }
    assert Greedy(insts, scheduled);
    GreedyIssuesAll(insts, scheduled);
    result := Pick(insts, scheduled);
  }

  // ----- basic blocks of a lowered program -----

  /** Index 0, every branch target in range, and every index after BR, BRX or HALT. */
  predicate IsLeader(program: seq<Inst>, k: nat) {
    && k < |program|
    && (|| k == 0
        || (exists i | 0 <= i < |program| :: JumpsTo(program[i], k))
        || IsBranch(program[k - 1]))
  }

  predicate JumpsTo(inst: Inst, k: int) {
    (inst.opcode == BR || inst.opcode == BRX) && inst.imm == k
  }

  /** The next leader after `k - 1`, or the end of the program. */
  function BlockEnd(program: seq<Inst>, k: nat): (e: nat)
    requires k <= |program|
    ensures k <= e <= |program|
    ensures e < |program| ==> IsLeader(program, e)
    ensures forall i | k <= i < e :: !IsLeader(program, i)
    decreases |program| - k
  {
    if k == |program| || IsLeader(program, k) then k else BlockEnd(program, k + 1)
  }

  /** Block by block, `result` is what `_schedule_block` makes of `program`. */
  ghost predicate Rescheduled(program: seq<Inst>, result: seq<Inst>) {
    && |result| == |program|
    && forall s: nat | IsLeader(program, s) ::
         var e := BlockEnd(program, s + 1);
         BlockScheduled(program[s..e], result[s..e])
  }

  /** The leader set, collected branch by branch. */
  method FindLeaders(program: seq<Inst>) returns (leaders: set<nat>)
    requires |program| > 0
    ensures forall k: nat :: k in leaders <==> IsLeader(program, k)
    ensures forall k | k in leaders :: k < |program|
  {
    leaders := {0};
    for i := 0 to |program|
      invariant forall k: nat :: k in leaders
                  <==> k < |program| && (k == 0 || (exists j | 0 <= j < i :: JumpsTo(program[j], k))
                                         || (k <= i && IsBranch(program[k - 1])))
    {
      var inst := program[i];
      if inst.opcode == BR || inst.opcode == BRX {
        if 0 <= inst.imm < |program| {
          leaders := leaders + {inst.imm};
        }
        if i + 1 < |program| {
          leaders := leaders + {i + 1};
        }
      } else if inst.opcode == HALT {
        if i + 1 < |program| {
          leaders := leaders + {i + 1};
        }
      }
    }
  }

  /** In a sorted list of leaders, each block ends where the next one starts. */
  lemma SortedLeadersDelimit(program: seq<Inst>, leaders: seq<nat>, li: nat)
    requires Increasing(leaders) && li < |leaders|
    requires forall k: nat :: k in leaders <==> IsLeader(program, k)
    ensures IsLeader(program, leaders[li]) && leaders[li] < |program|
    ensures li + 1 < |leaders| ==> leaders[li] < leaders[li + 1] < |program|
    ensures BlockEnd(program, leaders[li] + 1) == if li + 1 < |leaders| then leaders[li + 1] else |program|
  {
    assert leaders[li] in leaders;
    var e := BlockEnd(program, leaders[li] + 1);
    if li + 1 < |leaders| {
      assert leaders[li + 1] in leaders;
    }
    if e < |program| {
      assert e in leaders;
      var q :| 0 <= q < |leaders| && leaders[q] == e;
      assert q > li;
    }
  }

  /** One turn of the block loop: only the slice `start..end` is overwritten. */
  method RescheduleSlice(instructions: seq<Inst>, start: nat, end: nat) returns (updated: seq<Inst>)
    requires start <= end <= |instructions|
    ensures |updated| == |instructions|
    ensures updated[..start] == instructions[..start] && updated[end..] == instructions[end..]
    ensures BlockScheduled(instructions[start..end], updated[start..end])
  {
    var block := instructions[start..end];
    if |block| <= 2 {
      return instructions;
    }
    var scheduled := ScheduleBlock(block);
    updated := instructions[..start] + scheduled + instructions[end..];
    assert updated[start..end] == scheduled;
  }

  ghost predicate Done(program: seq<Inst>, result: seq<Inst>, s: nat)
    requires |result| == |program|
  {
    && IsLeader(program, s)
    && var e := BlockEnd(program, s + 1);
       BlockScheduled(program[s..e], result[s..e])
  }

  lemma SliceUnchanged<T>(a: seq<T>, b: seq<T>, start: nat, s: nat, e: nat)
    requires |a| == |b| && s <= e <= start <= |a| && a[..start] == b[..start]
    ensures a[s..e] == b[s..e]
  {
    assert a[s..e] == a[..start][s..e];
    assert b[s..e] == b[..start][s..e];
  }

  lemma SuffixUnchanged<T>(a: seq<T>, b: seq<T>, start: nat, end: nat)
    requires |a| == |b| && start <= end <= |a| && a[start..] == b[start..]
    ensures a[end..] == b[end..] && a[start..end] == b[start..end]
  {
    assert a[end..] == a[start..][end - start..];
    assert b[end..] == b[start..][end - start..];
    assert a[start..end] == a[start..][..end - start];
    assert b[start..end] == b[start..][..end - start];
  }

  lemma ShortProgramUntouched(program: seq<Inst>)
    requires |program| <= 2
    ensures Rescheduled(program, program)
  {
  }

  /** The first `li` blocks are rewritten, the rest of the list is as it was. */
  ghost predicate Progress(program: seq<Inst>, instructions: seq<Inst>, leaders: seq<nat>, li: nat)
    requires li <= |leaders|
  {
    && |instructions| == |program|
    && (forall q | 0 <= q < li :: Done(program, instructions, leaders[q]))
    && (li < |leaders| ==> leaders[li] < |program| && instructions[leaders[li]..] == program[leaders[li]..])
  }

  lemma ProgressAfter(program: seq<Inst>, before: seq<Inst>, after: seq<Inst>, leaders: seq<nat>, li: nat, end: nat)
    requires Increasing(leaders) && li < |leaders| && Progress(program, before, leaders, li)
    requires forall k: nat :: k in leaders <==> IsLeader(program, k)
    requires |after| == |before| && leaders[li] < end == BlockEnd(program, leaders[li] + 1)
    requires after[..leaders[li]] == before[..leaders[li]] && after[end..] == before[end..]
    requires BlockScheduled(before[leaders[li]..end], after[leaders[li]..end])
    ensures Progress(program, after, leaders, li + 1)
  {
    hide IsLeader, BlockScheduled;
    var start := leaders[li];
    SortedLeadersDelimit(program, leaders, li);
    SuffixUnchanged(before, program, start, end);
    assert Done(program, after, start);
    forall q | 0 <= q < li ensures Done(program, after, leaders[q]) {
      SortedLeadersDelimit(program, leaders, q);
      SliceUnchanged(after, before, start, leaders[q], BlockEnd(program, leaders[q] + 1));
    }
  }

  /** `schedule_lowered`: the instruction list is overwritten block by block. */
  method ScheduleLowered(program: seq<Inst>) returns (instructions: seq<Inst>)
    ensures Rescheduled(program, instructions)
  {
    instructions := program;
    if |program| <= 2 {
      ShortProgramUntouched(program);
      return;
    }
    var leaderSet := FindLeaders(program);
    var leaders := Sorted(leaderSet, |program|);
    assert forall k: nat :: k in leaders <==> IsLeader(program, k);
    assert forall p | 0 <= p < |leaders| :: leaders[p] in leaders;
    hide IsLeader, BlockScheduled, Rescheduled, Done;
    for li := 0 to |leaders|
      invariant Progress(program, instructions, leaders, li)
    {
      SortedLeadersDelimit(program, leaders, li);
      var start := leaders[li];
      var end := if li + 1 < |leaders| then leaders[li + 1] else |program|;
      var updated := RescheduleSlice(instructions, start, end);
      ProgressAfter(program, instructions, updated, leaders, li, end);
      instructions := updated;
    }
    AllBlocksDone(program, instructions, leaders);
  }

  lemma AllBlocksDone(program: seq<Inst>, result: seq<Inst>, leaders: seq<nat>)
    requires |result| == |program|
    requires forall k: nat :: k in leaders <==> IsLeader(program, k)
    requires forall q | 0 <= q < |leaders| :: Done(program, result, leaders[q])
    ensures Rescheduled(program, result)
  {
    hide IsLeader, BlockScheduled;
    forall s: nat | IsLeader(program, s) ensures Done(program, result, s) {
      assert s in leaders;
      var q :| 0 <= q < |leaders| && leaders[q] == s;
    }
  }
}
