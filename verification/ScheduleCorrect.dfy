/** The scheduled program does what the lowered program does, on any warp from any state. */
module ScheduleCorrect {
  import opened Words
  import opened Isa
  import opened Lists
  import opened Machine
  import opened Independence
  import opened Reorder
  import opened Dependence
  import opened IssueOrder
  import opened Scheduler

  /** Whatever the scheduler moves in front of a store can raise no error. */
  ghost predicate LosesNoStore(cfg: Config, block: seq<Inst>) {
    forall a, x | 0 <= a < x < |block| && block[a].opcode == ST && Before(block, x, a) :: NeverTraps(cfg, block[x])
  }

  /** Whatever the scheduler reorders may be reordered. */
  lemma ScheduleInversionsCommute(cfg: Config, block: seq<Inst>, order: seq<nat>, strict: bool)
    requires Greedy(block, order) && Schedulable(block)
    requires strict ==> LosesNoStore(cfg, block)
    ensures InversionsCommute(cfg, block, order, strict)
  {
    GreedyIssuesAll(block, order);
    forall p, q | 0 <= p < q < |order| && order[q] < order[p]
      ensures MayOvertake(block[order[q]], block[order[p]])
      ensures strict && block[order[q]].opcode == ST ==> NeverTraps(cfg, block[order[p]])
    {
      var a, x := order[q], order[p];
      PrecedesAt(order, p, q);
      IssueOrderIsSorted(block, order, x, a);
      BeforeTotal(block, a, x);
      if block[x].opcode == ST {
        FenceBefore(block, a, x);
      }
      if block[a].opcode == ST && block[x].opcode == LD {
        LoadBefore(block, a, a, x);
      }
    }
  }

  // ----- one block -----

  /** The block without its final BR, BRX or HALT. */
  function BodyLength(block: seq<Inst>): (t: nat)
    ensures t <= |block|
  {
    if block != [] && IsBranch(block[|block| - 1]) then |block| - 1 else |block|
  }

  predicate NoBranch(insts: seq<Inst>) {
    forall i | 0 <= i < |insts| :: !IsBranch(insts[i])
  }

  /** Two blocks that a warp cannot tell apart at their boundary. */
  ghost predicate BlockMatches(cfg: Config, b: seq<Inst>, b': seq<Inst>, strict: bool) {
    && |b| == |b'|
    && var t := BodyLength(b);
       && BodyLength(b') == t
       && NoBranch(b[..t]) && NoBranch(b'[..t])
       && b[t..] == b'[t..]
       && forall w: Warp :: Agree(strict, ExecSeq(cfg, b[..t], w), ExecSeq(cfg, b'[..t], w))
  }

  /** The final branch is issued last. */
  lemma ControlStaysLast(block: seq<Inst>, order: seq<nat>)
    requires Greedy(block, order) && Schedulable(block)
    requires block != [] && IsBranch(block[|block| - 1])
    ensures |order| == |block| && order[|block| - 1] == |block| - 1
  {
    var n := |block|;
    GreedyIssuesAll(block, order);
    assert UpTo(n)[n - 1] in UpTo(n);
    var k :| 0 <= k < n && order[k] == n - 1;
    forall p | 0 <= p < k ensures order[p] < n - 1 {
      assert order[p] in order;
      assert order[p] in UpTo(n);
    }
    forall a: nat ensures a in order[..k] <==> a < n - 1 {
      if a < n - 1 {
        StoreIssuedLast(block, order, a, n - 1);
      }
    }
    DistinctLength(order[..k], n - 1);
  }

  /** Leaving out the largest index, when it is issued last, leaves an order of the rest. */
  lemma DropLast(block: seq<Inst>, order: seq<nat>, t: nat)
    requires |order| == |block| && Distinct(order) && SameElements(UpTo(|block|), order)
    requires t == |block| || (t == |block| - 1 && order[t] == t)
    ensures Distinct(order[..t]) && SameElements(UpTo(t), order[..t])
  {
    forall i: nat ensures i in UpTo(t) <==> i in order[..t] {
      assert i in order[..t] <==> i in order && i < t by {
        if t < |block| {
          assert order == order[..t] + [t];
        } else {
          assert order == order[..t];
        }
        if i in order[..t] {
          assert i in order;
          assert i in UpTo(|block|);
        }
      }
      assert i < |block| ==> UpTo(|block|)[i] in UpTo(|block|);
      assert i < t ==> UpTo(t)[i] in UpTo(t);
    }
  }

  lemma PickBody(block: seq<Inst>, order: seq<nat>, t: nat)
    requires Within(block, order) && t <= |order| && t <= |block|
    ensures Within(block, order[..t]) && Pick(block, order)[..t] == Pick(block, order[..t])
    ensures Pick(block, UpTo(t)) == block[..t]
  {
  }

  /** The issue order permutes the body of the block and keeps its end. */
  lemma OrderOfBody(block: seq<Inst>, order: seq<nat>, t: nat)
    requires Greedy(block, order) && Schedulable(block) && Within(block, order) && t == BodyLength(block)
    requires forall i | 0 <= i < |block| - 1 :: !IsBranch(block[i])
    ensures |order| == |block| && Distinct(order[..t]) && SameElements(UpTo(t), order[..t]) && Within(block, order[..t])
    ensures forall k | t <= k < |block| :: order[k] == k
    ensures forall k | 0 <= k < t :: order[k] < t
  {
    hide Greedy, Schedulable, IsBranch;
    GreedyIssuesAll(block, order);
    if t < |block| {
      ControlStaysLast(block, order);
    }
    DropLast(block, order, t);
    forall k | 0 <= k < t ensures order[k] < t {
      assert order[..t][k] in order[..t];
      assert order[k] in UpTo(t);
    }
  }

  lemma PickedShape(block: seq<Inst>, order: seq<nat>, t: nat)
    requires Within(block, order) && |order| == |block| && t == BodyLength(block)
    requires forall i | 0 <= i < |block| - 1 :: !IsBranch(block[i])
    requires forall k | t <= k < |block| :: order[k] == k
    requires forall k | 0 <= k < t :: order[k] < t
    ensures var result := Pick(block, order);
            |result| == |block| && BodyLength(result) == t && NoBranch(block[..t]) && NoBranch(result[..t])
                && result[t..] == block[t..]
  {
    hide IsBranch;
    var result := Pick(block, order);
    forall k | 0 <= k < |block| ensures result[k] == block[order[k]] {
    }
  }

  lemma BodyAgrees(cfg: Config, block: seq<Inst>, order: seq<nat>, t: nat, strict: bool, w: Warp)
    requires Greedy(block, order) && Schedulable(block) && Within(block, order) && |order| == |block|
             && t == BodyLength(block)
    requires forall i | 0 <= i < |block| - 1 :: !IsBranch(block[i])
    requires strict ==> LosesNoStore(cfg, block)
    ensures Agree(strict, ExecSeq(cfg, block[..t], w), ExecSeq(cfg, Pick(block, order)[..t], w))
  {
    hide ExecSeq, Schedulable, Greedy, IsBranch, LosesNoStore;
    OrderOfBody(block, order, t);
    PickBody(block, order, t);
    ScheduleInversionsCommute(cfg, block, order, strict);
    assert InversionsCommute(cfg, block, order[..t], strict);
    hide InversionsCommute;
    ReorderAgrees(cfg, block, UpTo(t), order[..t], w, strict);
  }

  /** The central result for one block: scheduling it changes nothing a warp can observe at its end. */
  lemma BlockAgrees(cfg: Config, block: seq<Inst>, result: seq<Inst>, strict: bool)
    requires BlockScheduled(block, result)
    requires forall i | 0 <= i < |block| - 1 :: !IsBranch(block[i])
    requires |block| > 2 ==> Schedulable(block)
    requires strict && |block| > 2 ==> LosesNoStore(cfg, block)
    ensures BlockMatches(cfg, block, result, strict)
  {
    hide ExecSeq, Schedulable, Greedy, IsBranch, Pick, LosesNoStore;
    var t := BodyLength(block);
    if |block| > 2 {
      var order :| Greedy(block, order) && Within(block, order) && result == Pick(block, order);
      OrderOfBody(block, order, t);
      PickedShape(block, order, t);
      forall w: Warp ensures Agree(strict, ExecSeq(cfg, block[..t], w), ExecSeq(cfg, result[..t], w)) {
        BodyAgrees(cfg, block, order, t, strict, w);
      }
    }
  }

  // ----- whole programs -----

  ghost predicate SchedulableProgram(program: seq<Inst>) {
    forall s: nat | IsLeader(program, s) ::
      var e := BlockEnd(program, s + 1);
      e - s > 2 ==> Schedulable(program[s..e])
  }

  ghost predicate ProgramLosesNoStore(cfg: Config, program: seq<Inst>) {
    forall s: nat | IsLeader(program, s) ::
      var e := BlockEnd(program, s + 1);
      e - s > 2 ==> LosesNoStore(cfg, program[s..e])
  }

  /** Block by block, leaders of `p` delimit matching code in both programs. */
  ghost predicate ProgramsMatch(cfg: Config, p: seq<Inst>, q: seq<Inst>, leaders: iset<nat>, strict: bool) {
    && |p| == |q|
    && forall s | s in leaders :: s < |p| && BlockOf(cfg, p, q, leaders, s, strict)
  }

  /** The block that starts at `s` ends at some `e` where control only goes on to leaders. */
  ghost predicate BlockOf(cfg: Config, p: seq<Inst>, q: seq<Inst>, leaders: iset<nat>, s: nat, strict: bool)
    requires |p| == |q|
  {
    exists e: nat :: BlockTo(cfg, p, q, leaders, s, e, strict)
  }

  ghost predicate BlockTo(cfg: Config, p: seq<Inst>, q: seq<Inst>, leaders: iset<nat>, s: nat, e: nat, strict: bool)
    requires |p| == |q|
  {
    && s < e <= |p|
    && (e < |p| ==> e in leaders)
    && BlockMatches(cfg, p[s..e], q[s..e], strict)
    && forall k: nat | k < |p| && JumpsTo(p[e - 1], k) :: k in leaders
  }

  lemma ProgramsMatchSymmetric(cfg: Config, p: seq<Inst>, q: seq<Inst>, leaders: iset<nat>, strict: bool)
    requires ProgramsMatch(cfg, p, q, leaders, strict)
    ensures ProgramsMatch(cfg, q, p, leaders, strict)
  {
    forall s | s in leaders ensures BlockOf(cfg, q, p, leaders, s, strict) {
      assert BlockOf(cfg, p, q, leaders, s, strict);
      var e: nat :| BlockTo(cfg, p, q, leaders, s, e, strict);
      BlockToSymmetric(cfg, p, q, leaders, s, e, strict);
    }
  }

  lemma BlockToSymmetric(cfg: Config, p: seq<Inst>, q: seq<Inst>, leaders: iset<nat>, s: nat, e: nat, strict: bool)
    requires |p| == |q| && BlockTo(cfg, p, q, leaders, s, e, strict)
    ensures BlockTo(cfg, q, p, leaders, s, e, strict)
  {
    var b, b' := p[s..e], q[s..e];
    var t := BodyLength(b);
    forall w: Warp ensures Agree(strict, ExecSeq(cfg, b'[..t], w), ExecSeq(cfg, b[..t], w)) {
      assert Agree(strict, ExecSeq(cfg, b[..t], w), ExecSeq(cfg, b'[..t], w));
    }
    assert q[e - 1] == b'[|b'| - 1] && p[e - 1] == b[|b| - 1];
    assert t < |b| ==> b[t..][0] == b'[t..][0];
    assert t == |b| ==> b'[..t][t - 1] == q[e - 1];
    forall k: nat | k < |q| && JumpsTo(q[e - 1], k) ensures k in leaders {
      assert JumpsTo(p[e - 1], k);
    }
  }

  /** Running through straight-line code. */
  lemma {:induction false} RunStraight(cfg: Config, p: seq<Inst>, s: nat, t: nat, w: Warp, fuel: nat)
    requires s <= t <= |p| && NoBranch(p[s..t])
    ensures match ExecSeq(cfg, p[s..t], w)
            case Running(w') =>
              if fuel >= t - s then Run(cfg, p, s, w, fuel) == Run(cfg, p, t, w', fuel - (t - s))
              else Run(cfg, p, s, w, fuel) == OutOfSteps
            case Fault(m) =>
              || Run(cfg, p, s, w, fuel) == Failed(m)
              || (fuel < t - s && Run(cfg, p, s, w, fuel) == OutOfSteps)
    decreases t - s
  {
    hide Exec;
    if s < t {
      var b := p[s..t];
      assert b[0] == p[s] && b[1..] == p[s + 1..t];
      if fuel > 0 && Exec(cfg, p[s], w).Running? {
        RunStraight(cfg, p, s + 1, t, Exec(cfg, p[s], w).warp, fuel - 1);
      }
    }
  }

  /** The block at leader `s`: its end `e`, the end `t` of its body, and what both programs have in common there. */
  lemma BlockFacts(cfg: Config, p: seq<Inst>, q: seq<Inst>, leaders: iset<nat>, s: nat, w: Warp, strict: bool)
    returns (e: nat, t: nat)
    requires ProgramsMatch(cfg, p, q, leaders, strict) && s in leaders
    ensures |p| == |q| && s <= t <= e <= |p| && s < e
    ensures e < |p| ==> e in leaders
    ensures NoBranch(p[s..t]) && NoBranch(q[s..t])
    ensures var o1, o2 := ExecSeq(cfg, p[s..t], w), ExecSeq(cfg, q[s..t], w);
            && (o1.Running? <==> o2.Running?) && (o1.Running? || strict ==> o1 == o2)
    ensures t < e ==> t == e - 1 && p[t] == q[t] && IsBranch(p[t])
    ensures t < e ==> forall k: nat | k < |p| && JumpsTo(p[t], k) :: k in leaders
  {
    hide ExecSeq, IsBranch, IsLeader, JumpsTo;
    hide BlockMatches;
    assert BlockOf(cfg, p, q, leaders, s, strict);
    e :| BlockTo(cfg, p, q, leaders, s, e, strict);
    var b, b' := p[s..e], q[s..e];
    MatchAt(cfg, b, b', w, strict);
    var k := BodyLength(b);
    t := s + k;
    assert b[..k] == p[s..t] && b'[..k] == q[s..t];
  }

  lemma MatchAt(cfg: Config, b: seq<Inst>, b': seq<Inst>, w: Warp, strict: bool)
    requires BlockMatches(cfg, b, b', strict)
    ensures |b| == |b'|
    ensures var k := BodyLength(b);
            && NoBranch(b[..k]) && NoBranch(b'[..k])
            && (k < |b| ==> k == |b| - 1 && b[k] == b'[k] && IsBranch(b[k]))
            && var o1, o2 := ExecSeq(cfg, b[..k], w), ExecSeq(cfg, b'[..k], w);
               && (o1.Running? <==> o2.Running?) && (o1.Running? || strict ==> o1 == o2)
  {
    hide ExecSeq;
    var k := BodyLength(b);
    assert Agree(strict, ExecSeq(cfg, b[..k], w), ExecSeq(cfg, b'[..k], w));
    if k < |b| {
      assert b[k..][0] == b'[k..][0];
    }
  }

  /** The branch at the end of a block does the same in both programs, and goes to a leader. */
  lemma BranchLandsOnLeader(cfg: Config, p: seq<Inst>, q: seq<Inst>, leaders: iset<nat>, t: nat, w: Warp)
    requires |p| == |q| && t < |p| && IsBranch(p[t]) && p[t] == q[t]
    requires t + 1 < |p| ==> t + 1 in leaders
    requires forall k: nat | k < |p| && JumpsTo(p[t], k) :: k in leaders
    ensures Step(cfg, p, t, w) == Step(cfg, q, t, w)
    ensures match Step(cfg, p, t, w)
            case Next(pc, w') => w' == w && (0 <= pc < |p| ==> pc in leaders)
            case _ => true
  {
    var step := Step(cfg, p, t, w);
    if step.Next? && 0 <= step.pc < |p| {
      assert step.pc == t + 1 || JumpsTo(p[t], step.pc);
    }
  }

  /** From a leader the original halts only if the other program halts in the same steps and state. */
  lemma {:induction false} HaltsAlike(cfg: Config, p: seq<Inst>, q: seq<Inst>, leaders: iset<nat>, strict: bool,
                                      s: int, w: Warp, fuel: nat)
    requires ProgramsMatch(cfg, p, q, leaders, strict)
    requires 0 <= s < |p| ==> s in leaders
    ensures Run(cfg, p, s, w, fuel).Halted? ==> Run(cfg, q, s, w, fuel) == Run(cfg, p, s, w, fuel)
    decreases fuel
  {
    hide *;
    RunOneStep(cfg, p, s, w, fuel);
    if 0 <= s < |p| && Run(cfg, p, s, w, fuel).Halted? {
      var e, t := BlockFacts(cfg, p, q, leaders, s, w, strict);
      RunStraight(cfg, p, s, t, w, fuel);
      RunStraight(cfg, q, s, t, w, fuel);
      var w', rest := ExecSeq(cfg, p[s..t], w).warp, fuel - (t - s);
      if t == e {
        HaltsAlike(cfg, p, q, leaders, strict, e, w', rest);
      } else {
        RunOneStep(cfg, p, t, w', rest);
        RunOneStep(cfg, q, t, w', rest);
        BranchLandsOnLeader(cfg, p, q, leaders, t, w');
        if rest > 0 && Step(cfg, p, t, w').Next? {
          HaltsAlike(cfg, p, q, leaders, strict, Step(cfg, p, t, w').pc, w', rest - 1);
        }
      }
    }
  }

  /** An error in one program is an error in the other, at most one block later. */
  lemma {:induction false} FailsAlike(cfg: Config, p: seq<Inst>, q: seq<Inst>, leaders: iset<nat>, strict: bool,
                                      s: int, w: Warp, fuel: nat)
    requires ProgramsMatch(cfg, p, q, leaders, strict)
    requires 0 <= s < |p| ==> s in leaders
    ensures Run(cfg, p, s, w, fuel).Failed? ==>
              && Run(cfg, q, s, w, fuel + |p|).Failed?
              && (strict ==> Run(cfg, q, s, w, fuel + |p|) == Run(cfg, p, s, w, fuel))
    decreases fuel
  {
    hide *;
    SameLength(cfg, p, q, leaders, strict);
    RunOneStep(cfg, p, s, w, fuel);
    RunOneStep(cfg, q, s, w, fuel + |p|);
    if 0 <= s < |p| && Run(cfg, p, s, w, fuel).Failed? {
      var e, t := BlockFacts(cfg, p, q, leaders, s, w, strict);
      RunStraight(cfg, p, s, t, w, fuel);
      RunStraight(cfg, q, s, t, w, fuel + |p|);
      if ExecSeq(cfg, p[s..t], w).Running? {
        var w', rest := ExecSeq(cfg, p[s..t], w).warp, fuel - (t - s);
        if t == e {
          FailsAlike(cfg, p, q, leaders, strict, e, w', rest);
        } else {
          RunOneStep(cfg, p, t, w', rest);
          RunOneStep(cfg, q, t, w', rest + |p|);
          BranchLandsOnLeader(cfg, p, q, leaders, t, w');
          if rest > 0 && Step(cfg, p, t, w').Next? {
            FailsAlike(cfg, p, q, leaders, strict, Step(cfg, p, t, w').pc, w', rest - 1);
          }
        }
      }
    }
  }

  lemma SameLength(cfg: Config, p: seq<Inst>, q: seq<Inst>, leaders: iset<nat>, strict: bool)
    requires ProgramsMatch(cfg, p, q, leaders, strict)
    ensures |p| == |q|
  {
  }

  ghost function Leaders(program: seq<Inst>): iset<nat> {
    iset s: nat | IsLeader(program, s)
  }

  lemma RescheduledMatches(cfg: Config, p: seq<Inst>, q: seq<Inst>, strict: bool)
    requires Rescheduled(p, q) && SchedulableProgram(p)
    requires strict ==> ProgramLosesNoStore(cfg, p)
    ensures ProgramsMatch(cfg, p, q, Leaders(p), strict)
  {
    forall s | s in Leaders(p) ensures BlockOf(cfg, p, q, Leaders(p), s, strict) {
      var e := BlockEnd(p, s + 1);
      var b := p[s..e];
      forall i | 0 <= i < |b| - 1 ensures !IsBranch(b[i]) {
        assert !IsLeader(p, s + i + 1);
      }
      BlockAgrees(cfg, b, q[s..e], strict);
      assert BlockTo(cfg, p, q, Leaders(p), s, e, strict);
    }
  }

  lemma EntryIsLeader(p: seq<Inst>)
    ensures |p| > 0 ==> 0 in Leaders(p)
  {
  }

  /** Scheduling preserves every halting run, step for step at block boundaries, in both directions. */
  lemma ScheduleRefines(cfg: Config, p: seq<Inst>, q: seq<Inst>, w: Warp, fuel: nat)
    requires Rescheduled(p, q) && SchedulableProgram(p)
    ensures |p| == |q|
    ensures Run(cfg, p, 0, w, fuel).Halted? <==> Run(cfg, q, 0, w, fuel).Halted?
    ensures Run(cfg, p, 0, w, fuel).Halted? ==> Run(cfg, p, 0, w, fuel) == Run(cfg, q, 0, w, fuel)
    ensures Run(cfg, p, 0, w, fuel).Failed? ==> Run(cfg, q, 0, w, fuel + |p|).Failed?
    ensures Run(cfg, q, 0, w, fuel).Failed? ==> Run(cfg, p, 0, w, fuel + |p|).Failed?
  {
    hide *;
    EntryIsLeader(p);
    RescheduledMatches(cfg, p, q, false);
    ProgramsMatchSymmetric(cfg, p, q, Leaders(p), false);
    HaltsAlike(cfg, p, q, Leaders(p), false, 0, w, fuel);
    HaltsAlike(cfg, q, p, Leaders(p), false, 0, w, fuel);
    FailsAlike(cfg, p, q, Leaders(p), false, 0, w, fuel);
    FailsAlike(cfg, q, p, Leaders(p), false, 0, w, fuel);
  }

  /** If nothing that can fail is issued before a store in front of it, memory is the same where the error is raised. */
  lemma ScheduleKeepsMemoryAtFault(cfg: Config, p: seq<Inst>, q: seq<Inst>, w: Warp, fuel: nat)
    requires Rescheduled(p, q) && SchedulableProgram(p) && ProgramLosesNoStore(cfg, p)
    ensures Run(cfg, p, 0, w, fuel).Failed? ==> Run(cfg, q, 0, w, fuel + |p|) == Run(cfg, p, 0, w, fuel)
    ensures Run(cfg, q, 0, w, fuel).Failed? ==> Run(cfg, p, 0, w, fuel + |p|) == Run(cfg, q, 0, w, fuel)
  {
    hide *;
    EntryIsLeader(p);
    RescheduledMatches(cfg, p, q, true);
    ProgramsMatchSymmetric(cfg, p, q, Leaders(p), true);
    FailsAlike(cfg, p, q, Leaders(p), true, 0, w, fuel);
    FailsAlike(cfg, q, p, Leaders(p), true, 0, w, fuel);
  }

  /** A whole launch finishes with the same global memory, or is aborted, whichever of the two programs it runs. */
  lemma {:induction false} ScheduleRefinesLaunch(cfg: Config, p: seq<Inst>, q: seq<Inst>, launch: Launch,
                                                 block: nat, warpStart: nat, gmem: seq<Byte>)
    requires Rescheduled(p, q) && SchedulableProgram(p)
    ensures match RunGrid(cfg, p, launch, block, warpStart, gmem)
            case Finished(g) => RunGrid(cfg, q, launch, block, warpStart, gmem) == Finished(g)
            case Aborted(_) => RunGrid(cfg, q, launch, block, warpStart, gmem).Aborted?
    decreases Volume(launch.gridDim) - block, Volume(launch.blockDim) - warpStart
  {
    hide Run, MemoryAfter, Rescheduled, SchedulableProgram, LaunchedLanes;
    if block < Volume(launch.gridDim) {
      if warpStart >= Volume(launch.blockDim) {
        ScheduleRefinesLaunch(cfg, p, q, launch, block + 1, 0, gmem);
      } else {
        var w := Warp(LaunchedLanes(launch, block, warpStart), gmem);
        ScheduleRefines(cfg, p, q, w, launch.maxSteps);
        var r := Run(cfg, p, 0, w, launch.maxSteps);
        if r.Halted? {
          ScheduleRefinesLaunch(cfg, p, q, launch, block, warpStart + launch.warpSize, r.warp.gmem);
        }
      }
    }
  }
}
