/** A loop whose second turn reads what common-subexpression elimination left out of the first. */
module CseLoop {
  import opened Wrappers
  import opened Words
  import opened Ptx
  import opened Cse
  import opened CseScope
  import opened CsePass
  import opened CseCorrect

  // ----- the program -----

  function R(n: nat): Reg {
    Reg(ClassR, n)
  }

  const P1 := Reg(ClassP, 1)
  const BASE := Reg(ClassRd, 6)

  /** `mov.u32 r5, r4` */
  const CARRY := Inst(Opcode(Mov, [], U32), [RegOp(R(5)), RegOp(R(4))])

  /** `add.u32 r<to>, r2, r3` */
  function Sum(to: nat): Inst {
    Inst(Opcode(Add, [], U32), [RegOp(R(to)), RegOp(R(2)), RegOp(R(3))])
  }

  /** `st.global.u32 [rd6], r5` */
  const STORE := Inst(Opcode(St, [GlobalSpace], U32), [Addr(BASE), RegOp(R(5))])

  /** `@p1 bra DONE` */
  const LEAVE := Inst(Opcode(Bra, [], Untyped), [Operand.Target("DONE")], Some(P1))

  /** `setp.eq.u32 p1, r2, r3` */
  const SET := Inst(Opcode(Setp, [], U32), [RegOp(P1), RegOp(R(2)), RegOp(R(3))])

  /** `bra LOOP` */
  const BACK := Inst(Opcode(Bra, [], Untyped), [Operand.Target("LOOP")])

  const HALT := Inst(Opcode(Ret, [], Untyped), [])

  /** What follows the straight run. */
  const REST: seq<Item> := [Code(STORE), Code(LEAVE), Code(SET), Code(BACK), Label("DONE"), Code(HALT)]

  function Loop(body: seq<Inst>): seq<Item> {
    [Label("LOOP")] + Codes(body) + REST
  }

  const BODY := [CARRY, Sum(1), Sum(4)]

  /** The loop as a pass sees it. */
  function LoopScopes(body: seq<Inst>): seq<Scope> {
    [Single(Label("LOOP")), Straight(body), Single(REST[0]), Single(REST[1]), Single(REST[2]), Single(REST[3]),
     Single(REST[4]), Single(REST[5])]
  }

  lemma BodyIsScope()
    ensures IsScope(BODY) && IsScope([CARRY, Sum(1)])
    ensures IsBoundary(STORE) && IsBoundary(LEAVE) && IsBoundary(SET) && IsBoundary(BACK) && IsBoundary(HALT)
  {
  }

  /** The pass cuts the loop there. */
  lemma LoopIsCut()
    ensures ScopesOf(Loop(BODY)) == LoopScopes(BODY)
  {
    BodyIsScope();
    hide IsBoundary;
    var items := Loop(BODY);
    assert |items| == 10 && items[1] == Code(CARRY) && items[2] == Code(Sum(1)) && items[3] == Code(Sum(4));
    assert forall i | 0 <= i < 6 :: items[4 + i] == REST[i];
    assert CutAfter(items, 1) == Cut([Single(Label("LOOP"))], []);
    assert CutAfter(items, 2) == Cut([Single(Label("LOOP"))], [CARRY]);
    assert CutAfter(items, 3) == Cut([Single(Label("LOOP"))], [CARRY, Sum(1)]);
    assert CutAfter(items, 4) == Cut([Single(Label("LOOP"))], BODY);
    assert CutAfter(items, 5) == Cut([Single(Label("LOOP")), Straight(BODY), Single(REST[0])], []);
    assert CutAfter(items, 6) == Cut([Single(Label("LOOP")), Straight(BODY), Single(REST[0]), Single(REST[1])], []);
    assert CutAfter(items, 7).scopes == CutAfter(items, 6).scopes + [Single(REST[2])];
    assert CutAfter(items, 8).scopes == CutAfter(items, 7).scopes + [Single(REST[3])];
    assert CutAfter(items, 9).scopes == CutAfter(items, 8).scopes + [Single(REST[4])];
    assert CutAfter(items, 10).scopes == CutAfter(items, 9).scopes + [Single(REST[5])];
  }

  // ----- what the pass makes of it -----

  /** Only the scope itself reads `r1` and `r4`; the store reads `r5`. */
  lemma OutsideOfLoop()
    ensures R(1) !in OutsideOf(LoopScopes(BODY), 1) && R(4) !in OutsideOf(LoopScopes(BODY), 1)
    ensures R(5) in OutsideOf(LoopScopes(BODY), 1)
  {
    var scopes := LoopScopes(BODY);
    hide OutsideOf;
    forall r | r == R(1) || r == R(4) ensures r !in OutsideOf(scopes, 1) {
      forall j: nat | j < |scopes| && j != 1 ensures !ReadIn(scopes[j], r) {
        assert |ItemsOf(scopes[j])| == 1;
      }
      ReadElsewhere(scopes, 1, r);
    }
    assert ItemsOf(scopes[2])[0] == Code(STORE) && OperandRegs(STORE.operands[1]) <= ReadRegisters(STORE);
    assert ItemsOf(scopes[2])[0].Code? && R(5) in ReadRegisters(ItemsOf(scopes[2])[0].inst);
    assert ReadIn(scopes[2], R(5));
    ReadElsewhere(scopes, 1, R(5));
  }

  lemma NothingRewritten(inst: Inst)
    ensures RewriteSources(inst, map[]) == inst
  {
    assert RewriteSources(inst, map[]).operands == inst.operands;
  }

  /** `(add.u32, r2, r3)` */
  function SumKey(): Key {
    Key(Opcode(Add, [], U32), [RegOp(R(2)), RegOp(R(3))])
  }

  lemma SumKeyOf(to: nat)
    ensures ExpressionKey(Sum(to)) == Some(SumKey()) && !IsBoundary(Sum(to)) && CseScope.Target(Sum(to)) == R(to)
    ensures to != 2 && to != 3 ==> !KeyReads(SumKey(), R(to))
  {
    assert Sum(to).operands[1..] == [RegOp(R(2)), RegOp(R(3))];
    if to != 2 && to != 3 {
      NotMentioned(SumKey().sources, 2, R(to));
    }
  }

  const NONE: map<Reg, Reg> := map[]

  lemma CarryTurn(outside: set<Reg>)
    requires R(5) in outside && IsScope(BODY)
    ensures Turned(BODY, outside, 0, Tables([], [], map[], map[], map[])) == Tables([CARRY], [0], map[], map[], map[])
  {
    NothingRewritten(CARRY);
    hide RewriteSources, ExpressionKey, IsBoundary, KeyReads;
    assert Forgotten(map[], R(5)) == map[] && NONE - {R(5)} == NONE;
  }

  lemma SumTurn(outside: set<Reg>)
    requires R(1) !in outside && IsScope(BODY)
    ensures Turned(BODY, outside, 1, Tables([CARRY], [0], map[], map[], map[]))
         == Tables([CARRY, Sum(1)], [0, 1], map[], map[SumKey() := R(1)], map[])
  {
    NothingRewritten(Sum(1));
    SumKeyOf(1);
    hide RewriteSources, ExpressionKey, IsBoundary, KeyReads, CseScope.Target;
    assert Forgotten(map[], R(1)) == map[] && NONE - {R(1)} == NONE;
    assert [CARRY] + [Sum(1)] == [CARRY, Sum(1)] && [0] + [1] == [0, 1];
  }

  lemma AgainTurn(outside: set<Reg>)
    requires R(4) !in outside && IsScope(BODY)
    ensures Turned(BODY, outside, 2, Tables([CARRY, Sum(1)], [0, 1], map[], map[SumKey() := R(1)], map[]))
         == Tables([CARRY, Sum(1)], [0, 1], map[R(4) := R(1)], map[SumKey() := R(1)], map[R(4) := R(1)])
  {
    NothingRewritten(Sum(4));
    SumKeyOf(4);
    hide RewriteSources, ExpressionKey, IsBoundary, KeyReads, CseScope.Target;
    var exprs := map[SumKey() := R(1)];
    assert Forgotten(exprs, R(4)) == exprs && NONE - {R(4)} == NONE;
    assert !ReadAfter(R(4), R(1), BODY[3..]);
  }

  /** The second sum is dropped. */
  lemma SumDropped(outside: set<Reg>)
    requires R(1) !in outside && R(4) !in outside && R(5) in outside
    ensures IsScope(BODY) && Outcome(BODY, outside) == [CARRY, Sum(1)] && Dropped(BODY, outside) == {R(4)}
  {
    BodyIsScope();
    hide Turned, IsScope;
    CarryTurn(outside);
    SumTurn(outside);
    AgainTurn(outside);
    assert Walked(BODY, outside, 1) == Tables([CARRY], [0], map[], map[], map[]);
    assert Walked(BODY, outside, 2) == Tables([CARRY, Sum(1)], [0, 1], map[], map[SumKey() := R(1)], map[]);
    assert Walked(BODY, outside, 3).aliases == map[R(4) := R(1)];
  }

  lemma LoopOutcomes(outside: set<Reg>, optimized: seq<Inst>)
    requires Splits(LoopScopes(BODY)) && outside == OutsideOf(LoopScopes(BODY), 1)
    requires IsScope(BODY) && optimized == Outcome(BODY, outside)
    ensures Outcomes(LoopScopes(BODY)) == LoopScopes(optimized)
  {
    hide OutsideOf, Outcome, IsScope, IsBoundary, Splits, REST, BODY;
    var scopes := LoopScopes(BODY);
    forall k: nat | k < |scopes| ensures Outcomes(scopes)[k] == LoopScopes(optimized)[k] {
      EachGood(scopes, k);
    }
  }

  lemma LoopAfterPass()
    ensures Eliminated(Loop(BODY)) == Loop([CARRY, Sum(1)])
  {
    var scopes, optimized := LoopScopes(BODY), [CARRY, Sum(1)];
    var outside := OutsideOf(scopes, 1);
    hide *;
    LoopIsCut();
    OutsideOfLoop();
    SumDropped(outside);
    EliminatedIs(Loop(BODY), scopes);
    LoopOutcomes(outside, optimized);
    FlattenLoop(optimized);
  }

  lemma EliminatedIs(items: seq<Item>, scopes: seq<Scope>)
    requires scopes == ScopesOf(items)
    ensures Splits(scopes) && Eliminated(items) == Flatten(Outcomes(scopes))
  {
    ScopesCover(items);
  }

  lemma FlattenLoop(body: seq<Inst>)
    ensures Flatten(LoopScopes(body)) == Loop(body)
  {
    var scopes := LoopScopes(body);
    hide Flatten;
    FlattenNothing();
    assert scopes[..1] == [] + [scopes[0]];
    FlattenAppend([], scopes[0]);
    assert scopes[..2] == scopes[..1] + [scopes[1]];
    FlattenAppend(scopes[..1], scopes[1]);
    assert scopes[..3] == scopes[..2] + [scopes[2]];
    FlattenAppend(scopes[..2], scopes[2]);
    assert scopes[..4] == scopes[..3] + [scopes[3]];
    FlattenAppend(scopes[..3], scopes[3]);
    assert scopes[..5] == scopes[..4] + [scopes[4]];
    FlattenAppend(scopes[..4], scopes[4]);
    assert scopes[..6] == scopes[..5] + [scopes[5]];
    FlattenAppend(scopes[..5], scopes[5]);
    assert scopes[..7] == scopes[..6] + [scopes[6]];
    FlattenAppend(scopes[..6], scopes[6]);
    assert scopes == scopes[..7] + [scopes[7]];
    FlattenAppend(scopes[..7], scopes[7]);
  }

  // ----- how the loop runs -----

  /** The items of the loop, and what finding the labels gives. */
  lemma LoopItems(body: seq<Inst>)
    ensures var items, n := Loop(body), |body|;
            && |items| == n + 7 && items[0] == Label("LOOP") && items[1..1 + n] == CsePass.Codes(body)
            && items[n + 1] == Code(STORE) && items[n + 2] == Code(LEAVE) && items[n + 3] == Code(SET)
            && items[n + 4] == Code(BACK) && items[n + 5] == Label("DONE") && items[n + 6] == Code(HALT)
            && FindLabel(items, "LOOP", 0) == Some(0) && FindLabel(items, "DONE", 0) == Some(n + 5)
  {
    var items, n := Loop(body), |body|;
    hide STORE, LEAVE, SET, BACK, HALT;
    assert forall i | 0 < i <= n :: items[i] == Code(body[i - 1]);
    assert forall i | 0 <= i < 6 :: items[n + 1 + i] == REST[i];
    assert items[n + 1 + 4] == Label("DONE");
    var at := FindLabel(items, "DONE", 0);
    if at.Some? {
      assert items[at.value] == Label("DONE");
    }
  }

  /** The memory after the store: `r5`, in little-endian order. */
  function Stored(regs: Regs): seq<Byte> {
    ToBytes(Get(regs, R(5)), 4)
  }

  lemma StoreStep(host: Host, items: seq<Item>, pc: nat, s: State)
    requires pc < |items| && items[pc] == Code(STORE) && |s.gmem| == 4 && Get(s.regs, BASE) == 0
    ensures Step(host, items, pc, s) == Next(pc + 1, State(s.regs, Stored(s.regs)))
  {
    hide ToBytes, FindLabel;
    assert s.gmem[..0] + Stored(s.regs) + s.gmem[4..] == Stored(s.regs);
  }

  lemma LeaveStep(host: Host, items: seq<Item>, pc: nat, s: State, done: nat)
    requires pc < |items| && items[pc] == Code(LEAVE) && FindLabel(items, "DONE", 0) == Some(done)
    ensures Step(host, items, pc, s) == if Get(s.regs, P1) != 0 then Next(done, s) else Next(pc + 1, s)
  {
    hide FindLabel;
  }

  lemma SetStep(host: Host, items: seq<Item>, pc: nat, s: State)
    requires pc < |items| && items[pc] == Code(SET)
    requires host.compare(SET.op, Get(s.regs, R(2)), Get(s.regs, R(3)))
    ensures Step(host, items, pc, s) == Next(pc + 1, State(s.regs[P1 := 1], s.gmem))
  {
    hide FindLabel;
    var vs := Sources(host, SET, s.regs);
    assert vs[0] == ValueOf(host, U32, SET.operands[1], s.regs) && vs[1] == ValueOf(host, U32, SET.operands[2], s.regs);
  }

  lemma BackStep(host: Host, items: seq<Item>, pc: nat, s: State)
    requires pc < |items| && items[pc] == Code(BACK) && FindLabel(items, "LOOP", 0) == Some(0)
    ensures Step(host, items, pc, s) == Next(0, s)
  {
    hide FindLabel;
  }

  lemma PlainSteps(host: Host, items: seq<Item>, pc: nat, s: State)
    requires pc < |items|
    ensures items[pc].Label? ==> Step(host, items, pc, s) == Next(pc + 1, s)
    ensures items[pc] == Code(HALT) ==> Step(host, items, pc, s) == Done(s)
  {
    hide FindLabel;
  }

  /** `n` steps lead from one place to the other. */
  ghost predicate Reaches(host: Host, items: seq<Item>, pc: nat, s: State, n: nat, pc': nat, s': State) {
    forall fuel: nat, more: nat | more == fuel + n :: Run(host, items, pc, s, more) == Run(host, items, pc', s', fuel)
  }

  lemma OneReaches(host: Host, items: seq<Item>, pc: nat, s: State, pc': nat, s': State)
    requires Step(host, items, pc, s) == Next(pc', s')
    ensures Reaches(host, items, pc, s, 1, pc', s')
  {
    hide Step;
  }

  lemma ThenReaches(host: Host, items: seq<Item>, pc: nat, s: State, n: nat, pc': nat, s': State, m: nat, pc'': nat,
                    s'': State)
    requires Reaches(host, items, pc, s, n, pc', s') && Reaches(host, items, pc', s', m, pc'', s'')
    ensures Reaches(host, items, pc, s, n + m, pc'', s'')
  {
    hide Run;
    forall fuel: nat, more: nat | more == fuel + (n + m)
      ensures Run(host, items, pc, s, more) == Run(host, items, pc'', s'', fuel)
    {
      assert Run(host, items, pc', s', fuel + m) == Run(host, items, pc'', s'', fuel);
    }
  }

  lemma BodyReaches(host: Host, items: seq<Item>, at: nat, body: seq<Inst>, s: State)
    requires IsScope(body) && at + |body| <= |items| && items[at..at + |body|] == CsePass.Codes(body)
    ensures Reaches(host, items, at, s, |body|, at + |body|, State(Exec(host, body, s.regs), s.gmem))
  {
    assert body[..|body|] == body;
    hide Run, Exec, IsScope;
    var pc', s' := at + |body|, State(Exec(host, body, s.regs), s.gmem);
    forall fuel: nat, more: nat | more == fuel + |body|
      ensures Run(host, items, at, s, more) == Run(host, items, pc', s', fuel)
    {
      RunThrough(host, items, at, body, |body|, s, more);
    }
  }

  /** The straight run and the store. */
  lemma ToTheStore(host: Host, body: seq<Inst>, s: State)
    requires IsScope(body) && |s.gmem| == 4 && Get(Exec(host, body, s.regs), BASE) == 0
    ensures var after := Exec(host, body, s.regs);
            Reaches(host, Loop(body), 0, s, |body| + 2, |body| + 2, State(after, Stored(after)))
  {
    hide *;
    var items, n, after := Loop(body), |body|, Exec(host, body, s.regs);
    var middle, s' := State(after, s.gmem), State(after, Stored(after));
    LoopItems(body);
    PlainSteps(host, items, 0, s);
    OneReaches(host, items, 0, s, 1, s);
    BodyReaches(host, items, 1, body, s);
    ThenReaches(host, items, 0, s, 1, 1, s, n, n + 1, middle);
    StoreStep(host, items, n + 1, middle);
    OneReaches(host, items, n + 1, middle, n + 2, s');
    ThenReaches(host, items, 0, s, n + 1, n + 1, middle, 1, n + 2, s');
  }

  /** A turn with the predicate clear sets it and goes back. */
  lemma FirstTurn(host: Host, body: seq<Inst>, s: State)
    requires IsScope(body) && |s.gmem| == 4 && Get(Exec(host, body, s.regs), BASE) == 0
    requires Get(Exec(host, body, s.regs), P1) == 0
    requires host.compare(SET.op, Get(Exec(host, body, s.regs), R(2)), Get(Exec(host, body, s.regs), R(3)))
    ensures var after := Exec(host, body, s.regs);
            Reaches(host, Loop(body), 0, s, |body| + 5, 0, State(after[P1 := 1], Stored(after)))
  {
    hide *;
    var items, n, after := Loop(body), |body|, Exec(host, body, s.regs);
    var s', s'' := State(after, Stored(after)), State(after[P1 := 1], Stored(after));
    LoopItems(body);
    ToTheStore(host, body, s);
    LeaveStep(host, items, n + 2, s', n + 5);
    OneReaches(host, items, n + 2, s', n + 3, s');
    ThenReaches(host, items, 0, s, n + 2, n + 2, s', 1, n + 3, s');
    SetStep(host, items, n + 3, s');
    OneReaches(host, items, n + 3, s', n + 4, s'');
    ThenReaches(host, items, 0, s, n + 3, n + 3, s', 1, n + 4, s'');
    BackStep(host, items, n + 4, s'');
    OneReaches(host, items, n + 4, s'', 0, s'');
    ThenReaches(host, items, 0, s, n + 4, n + 4, s'', 1, 0, s'');
  }

  /** A turn with the predicate set leaves the loop. */
  lemma LastTurn(host: Host, body: seq<Inst>, s: State)
    requires IsScope(body) && |s.gmem| == 4 && Get(Exec(host, body, s.regs), BASE) == 0
    requires Get(Exec(host, body, s.regs), P1) == 1
    ensures var after := Exec(host, body, s.regs);
            Reaches(host, Loop(body), 0, s, |body| + 4, |body| + 6, State(after, Stored(after)))
  {
    hide *;
    var items, n, after := Loop(body), |body|, Exec(host, body, s.regs);
    var s' := State(after, Stored(after));
    LoopItems(body);
    ToTheStore(host, body, s);
    LeaveStep(host, items, n + 2, s', n + 5);
    OneReaches(host, items, n + 2, s', n + 5, s');
    ThenReaches(host, items, 0, s, n + 2, n + 2, s', 1, n + 5, s');
    PlainSteps(host, items, n + 5, s');
    OneReaches(host, items, n + 5, s', n + 6, s');
    ThenReaches(host, items, 0, s, n + 3, n + 5, s', 1, n + 6, s');
  }

  // ----- two turns, before and after the pass -----

  /** Moves copy, sums are seven, comparisons hold. */
  function SevenHost(): Host {
    Host((_, vs) => if |vs| == 1 then vs[0] else 7, (_, _, _) => true, _ => 0, (_, _) => 0)
  }

  lemma Applies(regs: Regs, to: nat)
    ensures Apply(SevenHost(), CARRY, regs) == regs[R(5) := Get(regs, R(4))]
    ensures Apply(SevenHost(), Sum(to), regs) == regs[R(to) := 7]
  {
  }

  /** One turn of the straight run, with and without the second sum. */
  lemma Bodies(regs: Regs)
    ensures IsScope(BODY) && IsScope([CARRY, Sum(1)])
    ensures Exec(SevenHost(), [CARRY, Sum(1)], regs) == regs[R(5) := Get(regs, R(4))][R(1) := 7]
    ensures Exec(SevenHost(), BODY, regs) == regs[R(5) := Get(regs, R(4))][R(1) := 7][R(4) := 7]
  {
    BodyIsScope();
    assert [CARRY][..0] == [] && [CARRY, Sum(1)][..1] == [CARRY] && BODY[..2] == [CARRY, Sum(1)];
    hide IsBoundary, Apply;
    var one := Apply(SevenHost(), CARRY, regs);
    Applies(regs, 1);
    Applies(one, 1);
    Applies(one[R(1) := 7], 4);
    assert Exec(SevenHost(), [CARRY], regs) == one;
    assert Exec(SevenHost(), [CARRY, Sum(1)], regs) == one[R(1) := 7];
  }

  /** Two turns of the loop store what `r5` held in the second. */
  lemma TwoTurns(host: Host, body: seq<Inst>, s: State, one: Regs, two: Regs)
    requires IsScope(body) && one == Exec(host, body, s.regs) && two == Exec(host, body, one[P1 := 1]) && |s.gmem| == 4
    requires Get(one, BASE) == Get(two, BASE) == 0 && Get(one, P1) == 0 && Get(two, P1) == 1
    requires host.compare(SET.op, Get(one, R(2)), Get(one, R(3)))
    ensures Run(host, Loop(body), 0, s, 2 * |body| + 10) == Halted(State(two, Stored(two)))
  {
    hide *;
    var items, n := Loop(body), |body|;
    var s', s'' := State(one[P1 := 1], Stored(one)), State(two, Stored(two));
    FirstTurn(host, body, s);
    StoredLength(one);
    LastTurn(host, body, s');
    ThenReaches(host, items, 0, s, n + 5, 0, s', n + 4, n + 6, s'');
    LoopItems(body);
    ReachesEnd(host, items, s, 2 * n + 9, n + 6, s'');
  }

  lemma StoredLength(regs: Regs)
    ensures |Stored(regs)| == 4
  {
  }

  lemma ReachesEnd(host: Host, items: seq<Item>, s: State, n: nat, pc: nat, s': State)
    requires Reaches(host, items, 0, s, n, pc, s') && pc < |items| && items[pc] == Code(HALT)
    ensures Run(host, items, 0, s, n + 1) == Halted(s')
  {
    PlainSteps(host, items, pc, s');
    RunStep(host, items, pc, s', 1);
    hide Run, Step;
    assert Run(host, items, 0, s, n + 1) == Run(host, items, pc, s', 1);
  }

  /** Two turns on that host, with the second sum and without it. */
  lemma TwoEnds(host: Host, s: State, n: nat, n': nat) returns (two: Regs, two': Regs)
    requires host == SevenHost() && s == State(map[], [0, 0, 0, 0]) && n == 2 * |BODY| + 10 && n' == 14
    ensures Run(host, Loop(BODY), 0, s, n) == Halted(State(two, Stored(two)))
    ensures Run(host, Loop([CARRY, Sum(1)]), 0, s, n') == Halted(State(two', Stored(two')))
    ensures Get(two, R(5)) == 7 && Get(two', R(5)) == 0
  {
    hide Exec, Run, IsScope, IsBoundary, Loop, ToBytes, CARRY, Sum, BODY;
    var one, one' := map[R(5) := 0, R(1) := 7, R(4) := 7], map[R(5) := 0, R(1) := 7];
    Bodies(map[]);
    Bodies(one[P1 := 1]);
    Bodies(one'[P1 := 1]);
    two, two' := Exec(host, BODY, one[P1 := 1]), Exec(host, [CARRY, Sum(1)], one'[P1 := 1]);
    TwoTurns(host, BODY, s, one, two);
    TwoTurns(host, [CARRY, Sum(1)], s, one', two');
  }

  /** The program halts and what the pass makes of it halts, with different memory. */
  ghost predicate EndsDiffer(host: Host, items: seq<Item>, s: State, fuel: nat, fuel': nat) {
    var r, r' := Run(host, items, 0, s, fuel), Run(host, Eliminated(items), 0, s, fuel');
    r.Halted? && r'.Halted? && r.state.gmem != r'.state.gmem
  }

  /** The loop stores seven in its second turn; what the pass makes of it stores zero. */
  lemma CarriedReadLost()
    ensures exists host: Host, s: State, fuel: nat, fuel': nat :: EndsDiffer(host, Loop(BODY), s, fuel, fuel')
    ensures !CleanProgram(Loop(BODY))
  {
    var host, s := SevenHost(), State(map[], [0, 0, 0, 0]);
    LostOn(host, s, 2 * |BODY| + 10, 14);
  }

  lemma LostOn(host: Host, s: State, n: nat, n': nat)
    requires host == SevenHost() && s == State(map[], [0, 0, 0, 0]) && n == 2 * |BODY| + 10 && n' == 14
    ensures EndsDiffer(host, Loop(BODY), s, n, n') && !CleanProgram(Loop(BODY))
  {
    hide Run, Loop, Eliminated, Stored, CleanProgram, SevenHost, Get, BODY;
    var two, two' := TwoEnds(host, s, n, n');
    LoopAfterPass();
    StoredByte(two);
    StoredByte(two');
    assert EndsDiffer(host, Loop(BODY), s, n, n');
    NotClean(Loop(BODY), host, s, n, n');
  }

  lemma StoredByte(regs: Regs)
    ensures |Stored(regs)| == 4 && Stored(regs)[0] == Get(regs, R(5)) % 256
  {
  }

  /** A clean program would end with the same memory. */
  lemma NotClean(items: seq<Item>, host: Host, s: State, fuel: nat, fuel': nat)
    requires EndsDiffer(host, items, s, fuel, fuel')
    ensures !CleanProgram(items)
  {
    hide Run, Eliminated, CleanProgram;
    if CleanProgram(items) {
      CsePreservesRuns(host, items, s, fuel);
      var f: nat :| f <= fuel && EndsAlike(items, Run(host, items, 0, s, fuel), Run(host, Eliminated(items), 0, s, f));
      MoreSteps(host, Eliminated(items), 0, s, f, fuel');
    }
  }

  /** Runs that end are the same with any number of steps that suffices. */
  lemma {:induction false} MoreSteps(host: Host, items: seq<Item>, pc: nat, s: State, f: nat, g: nat)
    requires Run(host, items, pc, s, f) != OutOfSteps && Run(host, items, pc, s, g) != OutOfSteps
    ensures Run(host, items, pc, s, f) == Run(host, items, pc, s, g)
    decreases f
  {
    hide Step;
    if f > 0 && g > 0 && Step(host, items, pc, s).Next? {
      MoreSteps(host, items, Step(host, items, pc, s).pc, Step(host, items, pc, s).state, f - 1, g - 1);
    }
  }
}
