/** Common-subexpression elimination preserves every run, in both directions. */
module CseCorrect {
  import opened Wrappers
  import opened Ptx
  import opened Cse
  import opened CseScope
  import opened CseExact
  import opened CsePass

  /** Every scope may be repeated. */
  ghost predicate Clean(scopes: seq<Scope>) {
    forall k: nat | k < |scopes| && scopes[k].Straight? ::
      IsScope(scopes[k].insts) && Sound(scopes[k].insts, OutsideOf(scopes, k))
  }

  /** What a scope reads before writing it, and writes, is read outside as well. */
  ghost predicate CarriesNothing(insts: seq<Inst>, outside: set<Reg>) {
    forall r | Exposed(insts, r) && Defined(insts, |insts|, r) :: r in outside
  }

  ghost predicate LeftOut(gone: seq<set<Reg>>, r: Reg) {
    exists k :: 0 <= k < |gone| && r in gone[k]
  }

  ghost predicate Related(gone: seq<set<Reg>>, a: State, b: State) {
    a.gmem == b.gmem && forall r: Reg | !LeftOut(gone, r) :: Get(a.regs, r) == Get(b.regs, r)
  }

  function Offset(scopes: seq<Scope>, k: nat): nat
    requires k <= |scopes|
  {
    |Flatten(scopes[..k])|
  }

  // ----- where scopes lie in the program -----

  lemma {:induction false} FlattenSplits(scopes: seq<Scope>, k: nat)
    requires k <= |scopes|
    ensures Flatten(scopes[..k]) <= Flatten(scopes)
    decreases |scopes|
  {
    if k < |scopes| {
      var m := |scopes| - 1;
      FlattenSplits(scopes[..m], k);
      assert scopes[..m][..k] == scopes[..k];
    } else {
      assert scopes[..k] == scopes;
    }
  }

  /** The items of scope `k` lie at its offset. */
  lemma ScopeItems(scopes: seq<Scope>, k: nat)
    requires k < |scopes|
    ensures Offset(scopes, k) + |ItemsOf(scopes[k])| == Offset(scopes, k + 1) <= |Flatten(scopes)|
    ensures Flatten(scopes)[Offset(scopes, k)..Offset(scopes, k + 1)] == ItemsOf(scopes[k])
  {
    hide Flatten, ItemsOf;
    FlattenSplits(scopes, k + 1);
    assert scopes[..k + 1] == scopes[..k] + [scopes[k]];
    FlattenAppend(scopes[..k], scopes[k]);
    Between(Flatten(scopes), Flatten(scopes[..k]), ItemsOf(scopes[k]));
  }

  lemma Between<T>(all: seq<T>, a: seq<T>, b: seq<T>)
    requires a + b <= all
    ensures |a| + |b| <= |all| && all[|a|..|a| + |b|] == b
  {
    assert all[..|a| + |b|] == a + b;
    assert all[|a|..|a| + |b|] == all[..|a| + |b|][|a|..];
  }

  lemma Ends(scopes: seq<Scope>)
    ensures Offset(scopes, 0) == 0 && Offset(scopes, |scopes|) == |Flatten(scopes)|
  {
    assert scopes[..0] == [] && scopes[..|scopes|] == scopes;
  }

  /** The first scope that is this label. */
  function LabelScope(scopes: seq<Scope>, name: string, k: nat): (r: Option<nat>)
    requires k <= |scopes|
    ensures r.Some? ==> k <= r.value < |scopes|
    decreases |scopes| - k
  {
    if k == |scopes| then None
    else if scopes[k] == Single(Label(name)) then Some(k)
    else LabelScope(scopes, name, k + 1)
  }

  lemma {:induction false} SkipCodes(items: seq<Item>, name: string, at: nat, n: nat)
    requires at + n <= |items| && forall i | at <= i < at + n :: items[i] != Label(name)
    ensures FindLabel(items, name, at) == FindLabel(items, name, at + n)
    decreases n
  {
    if n > 0 {
      SkipCodes(items, name, at + 1, n - 1);
    }
  }

  /** Finding a label in the program is finding its scope. */
  lemma {:induction false} LabelAtOffset(scopes: seq<Scope>, name: string, k: nat)
    requires k <= |scopes| && Offset(scopes, k) <= |Flatten(scopes)|
    ensures FindLabel(Flatten(scopes), name, Offset(scopes, k)) ==
            match LabelScope(scopes, name, k) case Some(j) => Some(Offset(scopes, j)) case None => None
    decreases |scopes| - k
  {
    hide Flatten, Offset;
    if k == |scopes| {
      Ends(scopes);
    } else {
      ScopeItems(scopes, k);
      LabelAtOffset(scopes, name, k + 1);
      LabelInScope(Flatten(scopes), Offset(scopes, k), scopes[k], name);
    }
  }

  lemma LabelInScope(items: seq<Item>, at: nat, sc: Scope, name: string)
    requires at + |ItemsOf(sc)| <= |items| && items[at..at + |ItemsOf(sc)|] == ItemsOf(sc)
    ensures sc == Single(Label(name)) ==> FindLabel(items, name, at) == Some(at)
    ensures sc != Single(Label(name)) ==> FindLabel(items, name, at) == FindLabel(items, name, at + |ItemsOf(sc)|)
  {
    var n := |ItemsOf(sc)|;
    forall i | at <= i < at + n ensures items[i] == ItemsOf(sc)[i - at] {
      assert items[i] == items[at..at + n][i - at];
    }
    if sc != Single(Label(name)) {
      SkipCodes(items, name, at, n);
    }
  }

  lemma {:induction false} SameLabelScope(scopes: seq<Scope>, outcome: seq<Scope>, gone: seq<set<Reg>>, name: string,
                                          k: nat)
    requires AllDone(scopes, outcome, gone, |scopes|) && k <= |scopes|
    ensures LabelScope(outcome, name, k) == LabelScope(scopes, name, k)
    decreases |scopes| - k
  {
    hide OutsideOf, Preserves, Sound;
    if k < |scopes| {
      assert ScopeDone(scopes[k], OutsideOf(scopes, k), outcome[k], gone[k]);
      SameLabelScope(scopes, outcome, gone, name, k + 1);
    }
  }

  // ----- running through a straight scope -----

  lemma {:induction false} RunThrough(host: Host, items: seq<Item>, at: nat, insts: seq<Inst>, n: nat, s: State,
                                      fuel: nat)
    requires IsScope(insts) && n <= |insts| && at + |insts| <= |items| && items[at..at + |insts|] == Codes(insts)
    ensures fuel < n ==> Run(host, items, at, s, fuel) == OutOfSteps
    ensures fuel >= n ==> Run(host, items, at, s, fuel) ==
                          Run(host, items, at + n, State(Exec(host, insts[..n], s.regs), s.gmem), fuel - n)
    decreases n
  {
    hide Run, Step, Exec, IsBoundary;
    if n == 0 {
      assert insts[..0] == [];
      ExecNothing(host, s.regs);
    } else {
      RunThrough(host, items, at, insts, n - 1, s, fuel);
      ExecNext(host, insts, n - 1, s.regs);
      CodeAt(items, at, insts, n - 1);
      if fuel >= n - 1 {
        OneStep(host, items, at + (n - 1), insts[n - 1], State(Exec(host, insts[..n - 1], s.regs), s.gmem),
                fuel - (n - 1));
      }
    }
  }

  lemma ExecNothing(host: Host, regs: Regs)
    ensures Exec(host, [], regs) == regs
  {
  }

  lemma CodeAt(items: seq<Item>, at: nat, insts: seq<Inst>, i: nat)
    requires i < |insts| && at + |insts| <= |items| && items[at..at + |insts|] == Codes(insts)
    ensures items[at + i] == Code(insts[i])
  {
    assert items[at + i] == items[at..at + |insts|][i];
  }

  lemma OneStep(host: Host, items: seq<Item>, pc: nat, inst: Inst, s: State, fuel: nat)
    requires pc < |items| && items[pc] == Code(inst) && !IsBoundary(inst)
    ensures fuel == 0 ==> Run(host, items, pc, s, fuel) == OutOfSteps
    ensures fuel > 0 ==> Run(host, items, pc, s, fuel) ==
                         Run(host, items, pc + 1, State(Apply(host, inst, s.regs), s.gmem), fuel - 1)
  {
    ApplyIsStep(host, inst, s);
    hide GuardedEffect, KeyValue, IsBoundary;
  }

  // ----- one scope in both programs -----

  lemma DoneAt(scopes: seq<Scope>, outcome: seq<Scope>, gone: seq<set<Reg>>, k: nat)
    requires AllDone(scopes, outcome, gone, |scopes|) && k < |scopes|
    ensures GoodScope(scopes[k]) && ScopeDone(scopes[k], OutsideOf(scopes, k), outcome[k], gone[k])
  {
  }

  /** What a scope reads is not eliminated anywhere else. */
  lemma ReadsSurvive(scopes: seq<Scope>, outcome: seq<Scope>, gone: seq<set<Reg>>, k: nat, r: Reg)
    requires AllDone(scopes, outcome, gone, |scopes|) && k < |scopes| && ReadIn(scopes[k], r)
    requires LeftOut(gone, r)
    ensures r in gone[k]
  {
    hide OutsideOf, ReadIn, GoodScope, Preserves, Sound, IsScope;
    var j: nat :| j < |gone| && r in gone[j];
    DoneAt(scopes, outcome, gone, j);
    if j != k {
      ReadElsewhere(scopes, j, r);
    }
  }

  lemma ExposedIsRead(insts: seq<Inst>, r: Reg)
    requires Exposed(insts, r)
    ensures ReadIn(Straight(insts), r)
  {
    var j :| 0 <= j < |insts| && r in ReadRegisters(insts[j]);
    assert ItemsOf(Straight(insts))[j] == Code(insts[j]);
  }

  /** What the scope reads first is the same in both runs. */
  lemma ExposedAgree(scopes: seq<Scope>, outcome: seq<Scope>, gone: seq<set<Reg>>, k: nat, a: State, b: State)
    requires AllDone(scopes, outcome, gone, |scopes|) && Clean(scopes) && k < |scopes| && scopes[k].Straight?
    requires Related(gone, a, b)
    ensures AgreeOnExposed(scopes[k].insts, a.regs, b.regs)
  {
    hide OutsideOf, ReadIn, GoodScope, Preserves, Sound, IsScope, AllDone, Exposed, Defined, LeftOut;
    var insts := scopes[k].insts;
    DoneAt(scopes, outcome, gone, k);
    forall r | Exposed(insts, r) ensures Get(a.regs, r) == Get(b.regs, r) {
      if LeftOut(gone, r) {
        ExposedIsRead(insts, r);
        ReadsSurvive(scopes, outcome, gone, k, r);
      }
    }
  }

  /** Going through a straight scope keeps the runs related. */
  lemma StraightRelated(host: Host, scopes: seq<Scope>, outcome: seq<Scope>, gone: seq<set<Reg>>, k: nat, a: State,
                        b: State)
    requires AllDone(scopes, outcome, gone, |scopes|) && Clean(scopes) && k < |scopes| && scopes[k].Straight?
    requires Related(gone, a, b)
    ensures outcome[k].Straight? && IsScope(scopes[k].insts) && IsScope(outcome[k].insts)
    ensures |outcome[k].insts| <= |scopes[k].insts|
    ensures Related(gone, State(Exec(host, scopes[k].insts, a.regs), a.gmem),
                    State(Exec(host, outcome[k].insts, b.regs), b.gmem))
  {
    hide OutsideOf, GoodScope, Sound, AllDone, Exec, AgreeOnExposed, Defined;
    DoneAt(scopes, outcome, gone, k);
    ExposedAgree(scopes, outcome, gone, k, a, b);
    Sizes(scopes, outcome, gone);
    assert Preserves(scopes[k].insts, outcome[k].insts, gone[k]);
    forall r | !LeftOut(gone, r) ensures r !in gone[k] {
    }
  }

  lemma Sizes(scopes: seq<Scope>, outcome: seq<Scope>, gone: seq<set<Reg>>)
    requires AllDone(scopes, outcome, gone, |scopes|)
    ensures |outcome| == |gone| == |scopes|
  {
  }

  /** A boundary has the same effect in both runs. */
  lemma SingleEffect(host: Host, scopes: seq<Scope>, outcome: seq<Scope>, gone: seq<set<Reg>>, k: nat, a: State,
                     b: State)
    requires AllDone(scopes, outcome, gone, |scopes|) && k < |scopes| && Related(gone, a, b)
    requires scopes[k].Single? && scopes[k].item.Code?
    ensures GuardedEffect(host, scopes[k].item.inst, a) == GuardedEffect(host, scopes[k].item.inst, b)
  {
    hide OutsideOf, GoodScope, AllDone, GuardedEffect, ReadRegisters, LeftOut;
    var inst := scopes[k].item.inst;
    DoneAt(scopes, outcome, gone, k);
    forall r | r in ReadRegisters(inst) ensures Get(a.regs, r) == Get(b.regs, r) {
      if LeftOut(gone, r) {
        assert ItemsOf(scopes[k])[0].Code?;
        ReadsSurvive(scopes, outcome, gone, k, r);
      }
    }
    EffectFromReads(host, inst, a, b);
  }

  /** The effect of an item on a state, in a program where the label at hand lies at `target`. */
  function AfterEffect(e: Effect, pc: nat, target: Option<nat>, s: State): StepResult {
    match e
    case Nothing => Next(pc + 1, s)
    case Write(r, v) => Next(pc + 1, s.(regs := s.regs[r := v]))
    case StoreTo(address, blob) =>
      if address + |blob| <= |s.gmem|
      then Next(pc + 1, s.(gmem := s.gmem[..address] + blob + s.gmem[address + |blob|..]))
      else Fault(s.gmem)
    case Jump(l) => (match target case Some(t) => Next(t, s) case None => Fault(s.gmem))
    case Exit => Done(s)
    case Failure => Fault(s.gmem)
  }

  lemma StepIsAfterEffect(host: Host, items: seq<Item>, pc: nat, s: State)
    requires pc < |items| && items[pc].Code?
    ensures var e := GuardedEffect(host, items[pc].inst, s);
            Step(host, items, pc, s) == AfterEffect(e, pc, if e.Jump? then FindLabel(items, e.name, 0) else None, s)
  {
    hide GuardedEffect, FindLabel;
  }

  /** A step at a boundary leads both runs to the same scope. */
  lemma SingleStep(host: Host, scopes: seq<Scope>, outcome: seq<Scope>, gone: seq<set<Reg>>, k: nat, a: State, b: State)
    returns (j: nat)
    requires AllDone(scopes, outcome, gone, |scopes|) && k < |scopes| == |outcome| && Related(gone, a, b)
             && scopes[k].Single?
    ensures j <= |scopes|
    ensures match Step(host, Flatten(scopes), Offset(scopes, k), a)
            case Next(pc, a') =>
              (match Step(host, Flatten(outcome), Offset(outcome, k), b)
               case Next(pc', b') => pc == Offset(scopes, j) && pc' == Offset(outcome, j) && Related(gone, a', b')
               case _ => false)
            case Done(a') =>
              (match Step(host, Flatten(outcome), Offset(outcome, k), b) case Done(b') => Related(gone, a',
                  b') case _ => false)
            case Fault(m) => Step(host, Flatten(outcome), Offset(outcome, k), b) == Fault(m)
  {
    hide GuardedEffect, Flatten, Offset, AllDone, LeftOut, GoodScope, FindLabel, OutsideOf, ScopeDone;
    j := k + 1;
    SingleKept(scopes, outcome, gone, k);
    SingleAt(scopes, k);
    SingleAt(outcome, k);
    if scopes[k].item.Code? {
      SingleEffect(host, scopes, outcome, gone, k, a, b);
      StepIsAfterEffect(host, Flatten(scopes), Offset(scopes, k), a);
      StepIsAfterEffect(host, Flatten(outcome), Offset(outcome, k), b);
      var e := GuardedEffect(host, scopes[k].item.inst, a);
      if e.Jump? {
        Ends(scopes);
        Ends(outcome);
        LabelAtOffset(scopes, e.name, 0);
        LabelAtOffset(outcome, e.name, 0);
        SameLabelScope(scopes, outcome, gone, e.name, 0);
        if LabelScope(scopes, e.name, 0).Some? {
          j := LabelScope(scopes, e.name, 0).value;
        }
      }
    }
  }

  lemma SingleKept(scopes: seq<Scope>, outcome: seq<Scope>, gone: seq<set<Reg>>, k: nat)
    requires AllDone(scopes, outcome, gone, |scopes|) && k < |scopes| == |outcome| && scopes[k].Single?
    ensures outcome[k] == scopes[k]
  {
    hide AllDone;
    DoneAt(scopes, outcome, gone, k);
  }

  lemma SingleAt(scopes: seq<Scope>, k: nat)
    requires k < |scopes| && scopes[k].Single?
    ensures Offset(scopes, k) + 1 == Offset(scopes, k + 1) <= |Flatten(scopes)|
    ensures Flatten(scopes)[Offset(scopes, k)] == scopes[k].item
  {
    ScopeItems(scopes, k);
    hide Flatten, Offset;
    assert Flatten(scopes)[Offset(scopes, k)..Offset(scopes, k + 1)][0] == scopes[k].item;
  }

  // ----- whole runs -----

  /** Whatever the first run comes to, the second comes to a related end. */
  ghost predicate Matches(gone: seq<set<Reg>>, r: RunResult, r': RunResult) {
    match r
    case Halted(s) => r'.Halted? && Related(gone, s, r'.state)
    case Failed(m) => r' == Failed(m)
    case OutOfSteps => true
  }

  /** Running from scope `k` on through a straight scope, in either program. */
  lemma ThroughScope(host: Host, scopes: seq<Scope>, k: nat, s: State, fuel: nat)
    requires k < |scopes| && scopes[k].Straight? && IsScope(scopes[k].insts)
    ensures var n := |scopes[k].insts|;
            && (fuel < n ==> Run(host, Flatten(scopes), Offset(scopes, k), s, fuel) == OutOfSteps)
            && (fuel >= n ==>
                  Run(host, Flatten(scopes), Offset(scopes, k), s, fuel) ==
                  Run(host, Flatten(scopes), Offset(scopes, k + 1), State(Exec(host, scopes[k].insts, s.regs), s.gmem),
                      fuel - n))
  {
    hide Run, Step, Exec, Flatten, Offset, IsBoundary;
    var insts := scopes[k].insts;
    ScopeItems(scopes, k);
    assert insts[..|insts|] == insts;
    RunThrough(host, Flatten(scopes), Offset(scopes, k), insts, |insts|, s, fuel);
  }

  lemma RunStep(host: Host, items: seq<Item>, pc: nat, s: State, fuel: nat)
    requires fuel > 0
    ensures Run(host, items, pc, s, fuel) ==
            match Step(host, items, pc, s)
            case Fault(m) => Failed(m)
            case Done(final) => Halted(final)
            case Next(pc', s') => Run(host, items, pc', s', fuel - 1)
  {
    hide Step;
  }

  lemma EndFaults(host: Host, items: seq<Item>, s: State, fuel: nat)
    requires fuel > 0
    ensures Run(host, items, |items|, s, fuel) == Failed(s.gmem)
  {
  }

  /** Every run of the original is matched by a run of the optimized program, in no more steps. */
  lemma {:induction false} OptimizedFollows(host: Host, scopes: seq<Scope>, outcome: seq<Scope>, gone: seq<set<Reg>>,
                                            k: nat, a: State, b: State, fuel: nat) returns (fuel': nat)
    requires AllDone(scopes, outcome, gone, |scopes|) && Clean(scopes) && k <= |scopes| == |outcome|
             && Related(gone, a, b)
    ensures fuel' <= fuel
    ensures Matches(gone, Run(host, Flatten(scopes), Offset(scopes, k), a, fuel),
                    Run(host, Flatten(outcome), Offset(outcome, k), b, fuel'))
    decreases fuel, |scopes| - k
  {
    hide AllDone, Clean, Run, Step, Exec, Flatten, Offset, IsScope, LeftOut;
    if fuel == 0 {
      RunNothing(host, Flatten(scopes), Offset(scopes, k), a);
      return 0;
    }
    if k == |scopes| {
      Ends(scopes);
      Ends(outcome);
      EndFaults(host, Flatten(scopes), a, fuel);
      EndFaults(host, Flatten(outcome), b, fuel);
      return fuel;
    }
    if scopes[k].Straight? {
      StraightRelated(host, scopes, outcome, gone, k, a, b);
      ThroughScope(host, scopes, k, a, fuel);
      var n := |scopes[k].insts|;
      if fuel < n {
        return 0;
      }
      var a' := State(Exec(host, scopes[k].insts, a.regs), a.gmem);
      var b' := State(Exec(host, outcome[k].insts, b.regs), b.gmem);
      var rest := OptimizedFollows(host, scopes, outcome, gone, k + 1, a', b', fuel - n);
      fuel' := rest + |outcome[k].insts|;
      ThroughScope(host, outcome, k, b, fuel');
    } else {
      var j := SingleStep(host, scopes, outcome, gone, k, a, b);
      RunStep(host, Flatten(scopes), Offset(scopes, k), a, fuel);
      var step, step' := Step(host, Flatten(scopes), Offset(scopes, k), a),
          Step(host, Flatten(outcome), Offset(outcome, k), b);
      fuel' := 1;
      if step.Next? {
        var rest := OptimizedFollows(host, scopes, outcome, gone, j, step.state, step'.state, fuel - 1);
        fuel' := rest + 1;
      }
      RunStep(host, Flatten(outcome), Offset(outcome, k), b, fuel');
    }
  }

  lemma RunNothing(host: Host, items: seq<Item>, pc: nat, s: State)
    ensures Run(host, items, pc, s, 0) == OutOfSteps
  {
  }

  /** Every run of the optimized program is matched by a run of the original. */
  lemma {:induction false} OriginalFollows(host: Host, scopes: seq<Scope>, outcome: seq<Scope>, gone: seq<set<Reg>>,
                                           k: nat, a: State, b: State, fuel: nat) returns (fuel': nat)
    requires AllDone(scopes, outcome, gone, |scopes|) && Clean(scopes) && k <= |scopes| == |outcome|
             && Related(gone, a, b)
    ensures MatchedBy(gone, Run(host, Flatten(scopes), Offset(scopes, k), a, fuel'),
                      Run(host, Flatten(outcome), Offset(outcome, k), b, fuel))
    decreases fuel, |scopes| - k
  {
    hide AllDone, Clean, Run, Step, Exec, Flatten, Offset, IsScope, LeftOut;
    if fuel == 0 {
      RunNothing(host, Flatten(outcome), Offset(outcome, k), b);
      return 0;
    }
    if k == |scopes| {
      Ends(scopes);
      Ends(outcome);
      EndFaults(host, Flatten(scopes), a, fuel);
      EndFaults(host, Flatten(outcome), b, fuel);
      return fuel;
    }
    if scopes[k].Straight? {
      StraightRelated(host, scopes, outcome, gone, k, a, b);
      ThroughScope(host, outcome, k, b, fuel);
      var n := |outcome[k].insts|;
      if fuel < n {
        return 0;
      }
      var a' := State(Exec(host, scopes[k].insts, a.regs), a.gmem);
      var b' := State(Exec(host, outcome[k].insts, b.regs), b.gmem);
      var rest := OriginalFollows(host, scopes, outcome, gone, k + 1, a', b', fuel - n);
      fuel' := rest + |scopes[k].insts|;
      ThroughScope(host, scopes, k, a, fuel');
    } else {
      var j := SingleStep(host, scopes, outcome, gone, k, a, b);
      RunStep(host, Flatten(outcome), Offset(outcome, k), b, fuel);
      var step, step' := Step(host, Flatten(scopes), Offset(scopes, k), a),
          Step(host, Flatten(outcome), Offset(outcome, k), b);
      fuel' := 1;
      if step.Next? {
        var rest := OriginalFollows(host, scopes, outcome, gone, j, step.state, step'.state, fuel - 1);
        fuel' := rest + 1;
      }
      RunStep(host, Flatten(scopes), Offset(scopes, k), a, fuel');
    }
  }

  ghost predicate MatchedBy(gone: seq<set<Reg>>, r: RunResult, r': RunResult) {
    match r'
    case Halted(s) => r.Halted? && Related(gone, r.state, s)
    case Failed(m) => r == Failed(m)
    case OutOfSteps => true
  }

  /** The pass may be trusted with this program. */
  ghost predicate CleanProgram(items: seq<Item>) {
    ScopesCover(items);
    Clean(ScopesOf(items))
  }

  /** Some scope leaves `r` unwritten at its end and does not read it first; nothing else reads it at all. */
  ghost predicate LeftUnwritten(items: seq<Item>, r: Reg) {
    ScopesCover(items);
    LeftOut(Gone(ScopesOf(items)), r)
  }

  ghost predicate SameButUnwritten(items: seq<Item>, a: State, b: State) {
    a.gmem == b.gmem && forall r: Reg | !LeftUnwritten(items, r) :: Get(a.regs, r) == Get(b.regs, r)
  }

  /** Both runs halt alike or fail on the same memory. */
  ghost predicate EndsAlike(items: seq<Item>, r: RunResult, r': RunResult) {
    match r
    case Halted(s) => r'.Halted? && SameButUnwritten(items, s, r'.state)
    case Failed(m) => r' == Failed(m)
    case OutOfSteps => r'.OutOfSteps?
  }

  /** Whatever the control flow, the pass changes neither memory nor any register it leaves written. */
  lemma CsePreservesRuns(host: Host, items: seq<Item>, s: State, fuel: nat)
    requires CleanProgram(items)
    ensures Run(host, items, 0, s, fuel) != OutOfSteps ==>
              exists fuel': nat :: fuel' <= fuel &&
                EndsAlike(items, Run(host, items, 0, s, fuel), Run(host, Eliminated(items), 0, s, fuel'))
    ensures Run(host, Eliminated(items), 0, s, fuel) != OutOfSteps ==>
              exists fuel': nat ::
                EndsAlike(items, Run(host, items, 0, s, fuel'), Run(host, Eliminated(items), 0, s, fuel))
  {
    ScopesCover(items);
    var scopes := ScopesOf(items);
    OutcomesDo(scopes);
    var outcome, gone := Outcomes(scopes), Gone(scopes);
    Ends(scopes);
    Ends(outcome);
    hide Clean, AllDone, Run, Flatten, ScopesOf, LeftOut, Outcomes, Gone;
    var f1 := OptimizedFollows(host, scopes, outcome, gone, 0, s, s, fuel);
    var f2 := OriginalFollows(host, scopes, outcome, gone, 0, s, s, fuel);
    assert Run(host, items, 0, s, fuel) != OutOfSteps ==>
             EndsAlike(items, Run(host, items, 0, s, fuel), Run(host, Eliminated(items), 0, s, f1));
    assert Run(host, Eliminated(items), 0, s, fuel) != OutOfSteps ==>
             EndsAlike(items, Run(host, items, 0, s, f2), Run(host, Eliminated(items), 0, s, fuel));
  }

  /** On every host, from every start and in every turn the optimized scope computes what the scope computes. */
  ghost predicate Repeatable(insts: seq<Inst>, outside: set<Reg>)
    requires IsScope(insts)
  {
    && IsScope(Outcome(insts, outside))
    && TurnsAlike(insts, Walked(insts, outside, |insts|))
  }

  /** The programs above are exactly those all of whose scopes are repeatable. */
  lemma CleanIsRepeatable(items: seq<Item>)
    ensures CleanProgram(items) <==>
              forall k: nat | k < |ScopesOf(items)| && ScopesOf(items)[k].Straight? ::
                && IsScope(ScopesOf(items)[k].insts)
                && Repeatable(ScopesOf(items)[k].insts, OutsideOf(ScopesOf(items), k))
  {
    var scopes := ScopesOf(items);
    ScopesCover(items);
    hide ScopesOf, Repeatable, Sound, OutsideOf;
    forall k: nat | k < |scopes| && scopes[k].Straight?
      ensures IsScope(scopes[k].insts)
      ensures Sound(scopes[k].insts, OutsideOf(scopes, k)) <==> Repeatable(scopes[k].insts, OutsideOf(scopes, k))
    {
      EachGood(scopes, k);
      SoundIsRepeatable(scopes[k].insts, OutsideOf(scopes, k));
    }
  }

  lemma SoundIsRepeatable(insts: seq<Inst>, outside: set<Reg>)
    requires IsScope(insts)
    ensures Sound(insts, outside) <==> Repeatable(insts, outside)
  {
    RepeatedExactly(insts, outside);
    hide TurnsAlike, SameTerms, Loses, Walked;
  }

  /** The check that can be made without optimizing: nothing a scope reads first and writes goes unread elsewhere. */
  lemma CarriesNothingIsClean(items: seq<Item>)
    requires forall k: nat | k < |ScopesOf(items)| && ScopesOf(items)[k].Straight? ::
               && LookUpsClean(ScopesOf(items)[k].insts, OutsideOf(ScopesOf(items), k))
               && CarriesNothing(ScopesOf(items)[k].insts, OutsideOf(ScopesOf(items), k))
    ensures CleanProgram(items)
  {
    var scopes := ScopesOf(items);
    ScopesCover(items);
    hide ScopesOf, LookUpsClean, OutsideOf, Sound, CarriesNothing;
    forall k: nat | k < |scopes| && scopes[k].Straight?
      ensures IsScope(scopes[k].insts) && Sound(scopes[k].insts, OutsideOf(scopes, k))
    {
      EachGood(scopes, k);
      CarriesNothingIsSound(scopes[k].insts, OutsideOf(scopes, k));
    }
  }

  lemma CarriesNothingIsSound(insts: seq<Inst>, outside: set<Reg>)
    requires IsScope(insts) && LookUpsClean(insts, outside) && CarriesNothing(insts, outside)
    ensures Sound(insts, outside)
  {
    RepeatedExactly(insts, outside);
    OutcomeRight(insts, outside);
    hide LookUpsClean, TurnsAlike, SameTerms, Walked, Exposed, Defined, TermAfter;
    forall r ensures !Loses(insts, Outcome(insts, outside), r) {
      if Exposed(insts, r) {
        KeptTerm(insts, outside, r);
      }
    }
  }
}
