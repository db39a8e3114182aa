/** Removing dead instructions is a stuttering simulation, and removing twice removes nothing more. */
module DeadCodeCorrect {
  import opened Wrappers
  import opened Ptx
  import opened DeadCode

  /** Some removed instruction writes `r`. */
  ghost predicate DeadDestination(items: seq<Item>, r: Reg) {
    exists i: nat :: i < |items| && items[i].Code? && !Live(items, i) && Destination(items[i].inst) == Some(r)
  }

  /** Equal memory, and equal registers except those only removed instructions write. */
  ghost predicate Related(items: seq<Item>, a: State, b: State) {
    a.gmem == b.gmem && forall r: Reg | !DeadDestination(items, r) :: Get(a.regs, r) == Get(b.regs, r)
  }

  /** Where item `i` ends up. */
  ghost function Position(items: seq<Item>, i: nat): nat
    requires i <= |items|
  {
    |Kept(items, LiveSet(items), i)|
  }

  lemma {:induction false} KeptPrefix(items: seq<Item>, live: set<nat>, i: nat, n: nat)
    requires i <= n <= |items|
    ensures Kept(items, live, i) <= Kept(items, live, n)
    decreases n
  {
    if i < n {
      KeptPrefix(items, live, i, n - 1);
    }
  }

  /** A kept item is found at its position; a removed one leaves no gap. */
  lemma ItemAtPosition(items: seq<Item>, i: nat)
    requires i < |items|
    ensures Keeps(items, LiveSet(items), i) ==>
              && Position(items, i) < |Reduced(items)|
              && Reduced(items)[Position(items, i)] == items[i]
              && Position(items, i + 1) == Position(items, i) + 1
    ensures !Keeps(items, LiveSet(items), i) ==> Position(items, i + 1) == Position(items, i)
  {
    KeptPrefix(items, LiveSet(items), i + 1, |items|);
  }

  /** What a live instruction reads is not written by any dead one. */
  lemma LiveReadsAreKept(items: seq<Item>, i: nat)
    requires i < |items| && items[i].Code? && Live(items, i)
    ensures forall r | r in ReadRegisters(items[i].inst) :: !DeadDestination(items, r)
  {
    forall r | r in ReadRegisters(items[i].inst) ensures !DeadDestination(items, r) {
      forall d: nat | d < |items| && items[d].Code? && Destination(items[d].inst) == Some(r) ensures Live(items, d) {
        if IsPredicate(r) {
          assert LiveBy(items, 0, d);
        } else {
          LiveThrough(items, i, r, d);
        }
      }
    }
  }

  /** A removed instruction is unguarded and pure: it falls through and writes at most a dead register. */
  lemma DeadStep(host: Host, items: seq<Item>, i: nat, s: State)
    requires i < |items| && items[i].Code? && !Live(items, i)
    ensures match Step(host, items, i, s)
            case Next(pc, s') => pc == i + 1 && Related(items, s', s)
            case _ => false
  {
    assert !LiveBy(items, 0, i);
    var inst := items[i].inst;
    if Destination(inst).Some? {
      assert DeadDestination(items, Destination(inst).value);
    }
  }

  /** Labels keep their place in the order. */
  lemma {:induction false} LabelPosition(items: seq<Item>, name: string, k: nat)
    requires k <= |items|
    ensures Position(items, k) <= |Reduced(items)|
    ensures match FindLabel(items, name, k)
            case Some(t) => FindLabel(Reduced(items), name, Position(items, k)) == Some(Position(items, t))
            case None => FindLabel(Reduced(items), name, Position(items, k)) == None
    decreases |items| - k
  {
    KeptPrefix(items, LiveSet(items), k, |items|);
    hide LiveSet, Keeps, Kept;
    if k < |items| {
      ItemAtPosition(items, k);
      if items[k].Label? {
        LabelIsKept(items, k);
      }
      LabelPosition(items, name, k + 1);
    } else {
      AllPositions(items);
    }
  }

  lemma LabelIsKept(items: seq<Item>, k: nat)
    requires k < |items| && items[k].Label?
    ensures Keeps(items, LiveSet(items), k)
  {
  }

  lemma AllPositions(items: seq<Item>)
    ensures Position(items, 0) == 0 && Position(items, |items|) == |Reduced(items)|
  {
  }

  /** Two related states take related steps at a kept item. */
  lemma KeptStep(host: Host, items: seq<Item>, i: nat, a: State, b: State)
    requires i < |items| && Keeps(items, LiveSet(items), i) && Related(items, a, b)
    ensures match Step(host, items, i, a)
            case Next(pc, a') =>
              && pc <= |items|
              && (match Step(host, Reduced(items), Position(items, i), b)
                  case Next(pc', b') => pc' == Position(items, pc) && Related(items, a', b')
                  case _ => false)
            case Done(a') =>
              (match Step(host, Reduced(items), Position(items, i), b)
               case Done(b') => Related(items, a', b')
               case _ => false)
            case Fault(m) => Step(host, Reduced(items), Position(items, i), b) == Fault(m)
  {
    ItemAtPosition(items, i);
    if items[i].Code? {
      LiveReadsAreKept(items, i);
      EffectFromReads(host, items[i].inst, a, b);
      AllPositions(items);
      var e := GuardedEffect(host, items[i].inst, a);
      if e.Jump? {
        LabelPosition(items, e.name, 0);
      }
    }
    hide Reduced, LiveSet, DeadDestination, GuardedEffect, Position, Keeps;
  }

  /** Every run of the original is matched by a run of the reduced program, in no more steps. */
  lemma {:induction false} ReducedFollows(host: Host, items: seq<Item>, pc: nat, a: State, b: State, fuel: nat)
    returns (fuel': nat)
    requires pc <= |items| && Related(items, a, b)
    ensures fuel' <= fuel
    ensures var r, r' := Run(host, items, pc, a, fuel), Run(host, Reduced(items), Position(items, pc), b, fuel');
            match r
            case Halted(s) => r'.Halted? && Related(items, s, r'.state)
            case Failed(m) => r' == Failed(m)
            case OutOfSteps => true
    decreases fuel
  {
    hide Step, Reduced, Position, Related, Keeps;
    if fuel == 0 {
      return 0;
    }
    if pc == |items| {
      EndFaults(host, items, a, b);
      return fuel;
    }
    if Keeps(items, LiveSet(items), pc) {
      KeptStep(host, items, pc, a, b);
      var step := Step(host, items, pc, a);
      if step.Next? {
        var rest := ReducedFollows(host, items, step.pc, step.state,
                                   Step(host, Reduced(items), Position(items, pc), b).state, fuel - 1);
        return rest + 1;
      }
      return 1;
    }
    SkipRemoved(host, items, pc, a, b);
    fuel' := ReducedFollows(host, items, pc + 1, Step(host, items, pc, a).state, b, fuel - 1);
  }

  lemma EndFaults(host: Host, items: seq<Item>, a: State, b: State)
    requires Related(items, a, b)
    ensures Step(host, items, |items|, a) == Fault(a.gmem)
    ensures Step(host, Reduced(items), Position(items, |items|), b) == Fault(a.gmem)
  {
    AllPositions(items);
  }

  /** At a removed item the original takes one more step; the reduced program is already past it. */
  lemma SkipRemoved(host: Host, items: seq<Item>, i: nat, a: State, b: State)
    requires i < |items| && !Keeps(items, LiveSet(items), i) && Related(items, a, b)
    ensures Position(items, i + 1) == Position(items, i)
    ensures Step(host, items, i, a).Next? && Step(host, items, i, a).pc == i + 1
    ensures Related(items, Step(host, items, i, a).state, b)
  {
    ItemAtPosition(items, i);
    DeadStep(host, items, i, a);
  }

  /** Every run of the reduced program is a run of the original, which takes the removed steps as well. */
  lemma {:induction false} OriginalFollows(host: Host, items: seq<Item>, pc: nat, a: State, b: State, fuel: nat)
    returns (fuel': nat)
    requires pc <= |items| && Related(items, a, b)
    ensures var r, r' := Run(host, items, pc, a, fuel'), Run(host, Reduced(items), Position(items, pc), b, fuel);
            match r'
            case Halted(s) => r.Halted? && Related(items, r.state, s)
            case Failed(m) => r == Failed(m)
            case OutOfSteps => true
    decreases fuel, |items| - pc
  {
    hide Step, Reduced, Position, Related, Keeps;
    if fuel == 0 {
      return 0;
    }
    if pc == |items| {
      EndFaults(host, items, a, b);
      return fuel;
    }
    if Keeps(items, LiveSet(items), pc) {
      KeptStep(host, items, pc, a, b);
      var step := Step(host, items, pc, a);
      if step.Next? {
        var rest := OriginalFollows(host, items, step.pc, step.state,
                                    Step(host, Reduced(items), Position(items, pc), b).state, fuel - 1);
        return rest + 1;
      }
      return 1;
    }
    SkipRemoved(host, items, pc, a, b);
    var rest := OriginalFollows(host, items, pc + 1, Step(host, items, pc, a).state, b, fuel);
    return rest + 1;
  }

  /** Global dead-code elimination preserves what a kernel does, from any state and for any control flow. */
  lemma EliminationPreservesRuns(host: Host, items: seq<Item>, s: State, fuel: nat)
    ensures exists fuel': nat :: fuel' <= fuel && Matches(items, Run(host, items, 0, s, fuel),
                                                          Run(host, Reduced(items), 0, s, fuel'))
    ensures exists fuel': nat :: MatchedBy(items, Run(host, items, 0, s, fuel'), Run(host, Reduced(items), 0, s, fuel))
  {
    AllPositions(items);
    var f1 := ReducedFollows(host, items, 0, s, s, fuel);
    var f2 := OriginalFollows(host, items, 0, s, s, fuel);
    assert Matches(items, Run(host, items, 0, s, fuel), Run(host, Reduced(items), 0, s, f1));
    assert MatchedBy(items, Run(host, items, 0, s, f2), Run(host, Reduced(items), 0, s, fuel));
  }

  /** Whatever the first run comes to, the second comes to a related end. */
  ghost predicate Matches(items: seq<Item>, r: RunResult, r': RunResult) {
    match r
    case Halted(s) => r'.Halted? && Related(items, s, r'.state)
    case Failed(m) => r' == Failed(m)
    case OutOfSteps => true
  }

  ghost predicate MatchedBy(items: seq<Item>, r: RunResult, r': RunResult) {
    match r'
    case Halted(s) => r.Halted? && Related(items, r.state, s)
    case Failed(m) => r == Failed(m)
    case OutOfSteps => true
  }

  // ----- running the pass again -----

  lemma {:induction false} StillLive(items: seq<Item>, n: nat, i: nat)
    requires LiveBy(items, n, i)
    ensures LiveBy(Reduced(items), n, Position(items, i))
    decreases n
  {
    assert Live(items, i);
    ItemAtPosition(items, i);
    hide Reduced, Position;
    if !IsSideEffecting(items[i].inst) {
      var j: nat, r: Reg :| LiveBy(items, n - 1, j) && ReadsAt(items, j, r) && Defines(items, i, r);
      assert Live(items, j);
      ItemAtPosition(items, j);
      StillLive(items, n - 1, j);
      assert ReadsAt(Reduced(items), Position(items, j), r) && Defines(Reduced(items), Position(items, i), r);
    }
  }

  /** Every position of the reduced program is that of a kept item. */
  lemma {:induction false} PositionOnto(items: seq<Item>, live: set<nat>, n: nat, q: nat) returns (i: nat)
    requires n <= |items| && q < |Kept(items, live, n)|
    ensures i < n && Keeps(items, live, i) && |Kept(items, live, i)| == q
    decreases n
  {
    if q < |Kept(items, live, n - 1)| {
      i := PositionOnto(items, live, n - 1, q);
    } else {
      i := n - 1;
    }
  }

  lemma {:induction false} KeepAll(items: seq<Item>, live: set<nat>, n: nat)
    requires n <= |items| && forall i: nat | i < n :: Keeps(items, live, i)
    ensures Kept(items, live, n) == items[..n]
  {
    if n > 0 {
      KeepAll(items, live, n - 1);
    }
  }

  /** A second application removes nothing. */
  lemma EliminationIdempotent(items: seq<Item>)
    ensures Reduced(Reduced(items)) == Reduced(items)
  {
    var once := Reduced(items);
    forall q: nat | q < |once| ensures Keeps(once, LiveSet(once), q) {
      var i := PositionOnto(items, LiveSet(items), |items|, q);
      ItemAtPosition(items, i);
      if items[i].Code? {
        var n: nat :| LiveBy(items, n, i);
        StillLive(items, n, i);
      }
    }
    KeepAll(once, LiveSet(once), |once|);
    assert once[..|once|] == once;
  }
}
