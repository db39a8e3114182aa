/** Source passes in front of lowering: the compiled code does what the source program's threads do. */
module OptimizedKernel {
  import opened Wrappers
  import opened Words
  import opened PtxMeaning
  import opened IfConversion
  import opened LoweringCorrect
  import opened LoweringEngine
  import opened LoweringStep
  import opened EndToEnd
  import opened Machine
  import opened CompiledKernel
  import C = CfgBuilder
  import D = DeadCode
  import DC = DeadCodeCorrect
  import E = CsePass
  import EC = CseCorrect
  import F = LocalFolding
  import Facts = ConstPropCorrect
  import G = ConstProp
  import GR = ConstPropRewrite
  import Lockstep
  import A = Isa
  import P = Ptx
  import R = PhysicalRun
  import S = Scheduler
  import T = ScheduleCorrect

  // ----- the host of a thread folds as the passes do -----

  /** The binary32 constants the local pass computes are those the machine computes. */
  ghost predicate FloatsFold(fold: F.FloatFold, ops: F32Ops) {
    forall b: P.Base, x: nat, y: nat | b in {P.Add, P.Mul} && fold(b, x, y).Some? ::
      fold(b, x, y) == (if b == P.Add then ops.add(x, y) else ops.mul(x, y)) && fold(b, x, y).value < WORD
  }

  lemma ThreadFolds(cfg: Config, offsets: map<nat, nat>, id: LaneId)
    ensures Facts.FoldsRightly(ThreadHost(cfg, offsets, id))
  {
    hide BitAnd, BitOr, BitXor, Mask32;
  }

  lemma ThreadAgrees(fold: F.FloatFold, cfg: Config, offsets: map<nat, nat>, id: LaneId)
    requires FloatsFold(fold, cfg.ops)
    ensures F.Agrees(fold, ThreadHost(cfg, offsets, id))
  {
    ThreadFolds(cfg, offsets, id);
    hide Facts.FoldsRightly, Mask32;
  }

  // ----- the passes, one after the other -----

  /**
   * `final` is what elimination of common subexpressions, local folding, constant propagation and elimination of dead
   * code make of `source`, in this order; none meets the hazards its own theorem asks to be absent.
   */
  ghost predicate Optimized(source: seq<P.Item>, fold: F.FloatFold, graph: C.Cfg, rounds: nat, final: seq<P.Item>) {
    && EC.CleanProgram(source)
    && var folded := F.Folded(fold, E.Eliminated(source));
       && Facts.Analysed(folded, graph)
       && |graph.blocks| == |G.Rounds(folded, graph, rounds)| == |graph.starts|
       && GR.Harmless(folded, graph, G.Rounds(folded, graph, rounds))
       && exists kept :: GR.FoldedUpTo(folded, graph, G.Rounds(folded, graph, rounds), kept, |folded|)
                         && final == D.Reduced(kept)
  }

  /** The second run ends as the first, in memory. */
  ghost predicate SameMemory(r: P.RunResult, r': P.RunResult) {
    match r
    case Halted(s) => r'.Halted? && r'.state.gmem == s.gmem
    case Failed(m) => r' == P.Failed(m)
    case OutOfSteps => true
  }

  /** What is left after the folding passes runs exactly as what went in. */
  lemma FoldingStages(host: P.Host, source: seq<P.Item>, fold: F.FloatFold, graph: C.Cfg, rounds: nat,
                      final: seq<P.Item>)
    returns (kept: seq<P.Item>)
    requires Optimized(source, fold, graph, rounds, final) && F.Agrees(fold, host)
    ensures final == D.Reduced(kept)
    ensures forall s: P.State, fuel: nat ::
              P.Run(host, kept, 0, s, fuel) == P.Run(host, E.Eliminated(source), 0, s, fuel)
  {
    var middle := E.Eliminated(source);
    var folded := F.Folded(fold, middle);
    kept :| GR.FoldedUpTo(folded, graph, G.Rounds(folded, graph, rounds), kept, |folded|) && final == D.Reduced(kept);
    assert Facts.FoldsRightly(host);
    hide *;
    forall s: P.State, fuel: nat ensures P.Run(host, kept, 0, s, fuel) == P.Run(host, middle, 0, s, fuel) {
      F.FoldingPreservesRuns(fold, host, middle, s, fuel);
      GR.PropagationPreservesRuns(host, folded, graph, rounds, kept, s, fuel);
    }
  }

  lemma SourceIsClean(source: seq<P.Item>, fold: F.FloatFold, graph: C.Cfg, rounds: nat, final: seq<P.Item>)
    requires Optimized(source, fold, graph, rounds, final)
    ensures EC.CleanProgram(source)
  {
  }

  lemma MatchedMemory(source: seq<P.Item>, kept: seq<P.Item>, r: P.RunResult, r': P.RunResult, r'': P.RunResult)
    ensures EC.EndsAlike(source, r, r') && DC.Matches(kept, r', r'') ==> SameMemory(r, r'')
    ensures EC.EndsAlike(source, r, r') && DC.MatchedBy(kept, r', r'') && r''.Halted? ==>
              r.Halted? && r.state.gmem == r''.state.gmem
  {
  }

  /** A run of the source that ends is matched by the optimized program. */
  lemma PassesFollow(host: P.Host, source: seq<P.Item>, fold: F.FloatFold, graph: C.Cfg, rounds: nat,
                     final: seq<P.Item>, s: P.State, fuel: nat)
    returns (fuel': nat)
    requires Optimized(source, fold, graph, rounds, final) && F.Agrees(fold, host)
    ensures SameMemory(P.Run(host, source, 0, s, fuel), P.Run(host, final, 0, s, fuel'))
  {
    var kept := FoldingStages(host, source, fold, graph, rounds, final);
    SourceIsClean(source, fold, graph, rounds, final);
    fuel' := 0;
    var r := P.Run(host, source, 0, s, fuel);
    assert r == P.OutOfSteps ==> SameMemory(r, P.Run(host, final, 0, s, 0));
    hide *;
    if r != P.OutOfSteps {
      EC.CsePreservesRuns(host, source, s, fuel);
      var f: nat :| f <= fuel && EC.EndsAlike(source, r, P.Run(host, E.Eliminated(source), 0, s, f));
      DC.EliminationPreservesRuns(host, kept, s, f);
      fuel' :| fuel' <= f && DC.Matches(kept, P.Run(host, kept, 0, s, f), P.Run(host, D.Reduced(kept), 0, s, fuel'));
      MatchedMemory(source, kept, r, P.Run(host, kept, 0, s, f), P.Run(host, final, 0, s, fuel'));
    }
  }

  /** A run of the optimized program that halts is one of the source. */
  lemma PassesPrecede(host: P.Host, source: seq<P.Item>, fold: F.FloatFold, graph: C.Cfg, rounds: nat,
                      final: seq<P.Item>, s: P.State, fuel: nat)
    returns (fuel': nat)
    requires Optimized(source, fold, graph, rounds, final) && F.Agrees(fold, host)
    requires P.Run(host, final, 0, s, fuel).Halted?
    ensures var r := P.Run(host, source, 0, s, fuel');
            r.Halted? && r.state.gmem == P.Run(host, final, 0, s, fuel).state.gmem
  {
    var kept := FoldingStages(host, source, fold, graph, rounds, final);
    SourceIsClean(source, fold, graph, rounds, final);
    DC.EliminationPreservesRuns(host, kept, s, fuel);
    var f: nat :| DC.MatchedBy(kept, P.Run(host, kept, 0, s, f), P.Run(host, D.Reduced(kept), 0, s, fuel));
    var middle := P.Run(host, E.Eliminated(source), 0, s, f);
    assert middle == P.Run(host, kept, 0, s, f) && middle != P.OutOfSteps;
    EC.CsePreservesRuns(host, source, s, f);
    hide *;
    fuel' :| EC.EndsAlike(source, P.Run(host, source, 0, s, fuel'), middle);
    MatchedMemory(source, kept, P.Run(host, source, 0, s, fuel'), middle, P.Run(host, final, 0, s, fuel));
  }

  // ----- the whole way -----

  lemma ThenEnds(r: P.RunResult, r': P.RunResult, o: RunResult)
    requires SameMemory(r, r') && SameEnd(r', o)
    ensures SameEnd(r, o)
  {
  }

  lemma FitsFor(host: P.Host, items: seq<P.Item>, homes: R.Homes, gmem: seq<Byte>, fuel: nat)
    requires OperationsAlwaysFit(host, items, homes, 0, Blank(gmem))
    ensures OperationsFit(host, items, homes, 0, Blank(gmem), fuel)
  {
    hide OperationsFit;
  }

  /** One thread: the run of the source program and that of its lane over the code compiled from the optimized one. */
  lemma OptimizedThread(cfg: Config, source: seq<P.Item>, fold: F.FloatFold, graph: C.Cfg, rounds: nat, l: Lowerer,
                        states: map<nat, BranchState>, slice: Slices, id: LaneId, gmem: seq<Byte>, fuel: nat)
    returns (fuel': nat)
    requires Optimized(source, fold, graph, rounds, l.items) && FloatsFold(fold, cfg.ops)
    requires Compiled(cfg, l, states, slice) && Launchable(cfg, l.offsets, l.plan, l.items, id)
    requires OperationsAlwaysFit(ThreadHost(cfg, l.offsets, id), l.items, l.Homes(), 0, Blank(gmem))
    ensures SameEnd(P.Run(ThreadHost(cfg, l.offsets, id), source, 0, P.State(map[], gmem), fuel),
                    Run(cfg, l.instructions, 0, One(FreshLane(id), gmem), fuel'))
  {
    hide *;
    var host, s := ThreadHost(cfg, l.offsets, id), P.State(map[], gmem);
    ThreadAgrees(fold, cfg, l.offsets, id);
    var f := PassesFollow(host, source, fold, graph, rounds, l.items, s, fuel);
    CompiledReady(cfg, l, states, slice, id);
    FitsFor(host, l.items, l.Homes(), gmem, f);
    fuel' := CompiledThread(cfg, l, states, slice, id, gmem, f);
    ThenEnds(P.Run(host, source, 0, s, fuel), P.Run(host, l.items, 0, s, f),
             Run(cfg, l.instructions, 0, One(FreshLane(id), gmem), fuel'));
  }

  /** Threads that halt one after the other in the optimized program do so in the source. */
  lemma {:induction false} SerialSource(cfg: Config, offsets: map<nat, nat>, source: seq<P.Item>, fold: F.FloatFold,
                                        graph: C.Cfg, rounds: nat, final: seq<P.Item>, ids: seq<LaneId>,
                                            gmem: seq<Byte>, fuel: nat)
    returns (fuel': nat)
    requires Optimized(source, fold, graph, rounds, final) && FloatsFold(fold, cfg.ops)
    requires ThreadsSerially(cfg, offsets, final, ids, gmem, fuel).Some?
    ensures ThreadsSerially(cfg, offsets, source, ids, gmem, fuel')
            == ThreadsSerially(cfg, offsets, final, ids, gmem, fuel)
    decreases |ids|
  {
    hide Optimized, FloatsFold, P.Run;
    fuel' := 0;
    if ids != [] {
      var host, s := ThreadHost(cfg, offsets, ids[0]), P.State(map[], gmem);
      ThreadAgrees(fold, cfg, offsets, ids[0]);
      var first := PassesPrecede(host, source, fold, graph, rounds, final, s, fuel);
      var gmem' := P.Run(host, final, 0, s, fuel).state.gmem;
      var rest := SerialSource(cfg, offsets, source, fold, graph, rounds, final, ids[1..], gmem', fuel);
      fuel' := ThenSerially(cfg, offsets, source, ids, gmem, first, rest);
    }
  }

  /**
   * A warp that halts in lockstep over the scheduled code compiled from the optimized program leaves the memory that
   * the source program's threads leave, run one after the other, and these all halt.
   */
  lemma OptimizedWarp(cfg: Config, source: seq<P.Item>, fold: F.FloatFold, graph: C.Cfg, rounds: nat, l: Lowerer,
                      scheduled: seq<A.Inst>, states: map<nat, BranchState>, slice: Slices, ids: seq<LaneId>, w: Warp,
                      steps: nat)
    returns (fuel: nat)
    requires Optimized(source, fold, graph, rounds, l.items) && FloatsFold(fold, cfg.ops)
    requires Compiled(cfg, l, states, slice)
    requires S.Rescheduled(l.instructions, scheduled) && T.SchedulableProgram(l.instructions)
    requires |w.lanes| == |ids| && forall k | 0 <= k < |ids| :: w.lanes[k] == FreshLane(ids[k])
    requires forall k | 0 <= k < |ids| :: Launchable(cfg, l.offsets, l.plan, l.items, ids[k])
    requires Run(cfg, scheduled, 0, w, steps).Halted? && Lockstep.NonInterfering(cfg, l.instructions, w, steps)
    requires ThreadsFit(cfg, l.offsets, l.items, l.Homes(), ids, w.gmem)
    ensures ThreadsSerially(cfg, l.offsets, source, ids, w.gmem, fuel)
            == Some(Run(cfg, scheduled, 0, w, steps).warp.gmem)
  {
    hide *;
    var f := ScheduledWarp(cfg, l, scheduled, states, slice, ids, w, steps);
    fuel := SerialSource(cfg, l.offsets, source, fold, graph, rounds, l.items, ids, w.gmem, f);
  }
}
