/** Straight-line code in which common-subexpression elimination reuses an expression its own register changed. */
module CseSelfRead {
  import opened Wrappers
  import opened Words
  import opened Ptx
  import opened Cse
  import opened CseScope
  import opened CsePass
  import opened CseCorrect
  import opened CseLoop

  // ----- the program -----

  /** `add.u32 r<to>, r1, r2` */
  function Grow(to: nat): Inst {
    Inst(Opcode(Add, [], U32), [RegOp(R(to)), RegOp(R(1)), RegOp(R(2))])
  }

  /** `mov.u32 r5, r<from>` */
  function Copy(from: nat): Inst {
    Inst(Opcode(Mov, [], U32), [RegOp(R(5)), RegOp(R(from))])
  }

  const GROWN := [Grow(1), Grow(3), Copy(3)]

  const GROWN_ONCE := [Grow(1), Copy(1)]

  function Program(body: seq<Inst>): seq<Item> {
    CsePass.Codes(body) + [Code(STORE), Code(HALT)]
  }

  function ProgramScopes(body: seq<Inst>): seq<Scope> {
    [Straight(body), Single(Code(STORE)), Single(Code(HALT))]
  }

  lemma GrownIsScope()
    ensures IsScope(GROWN) && IsScope(GROWN_ONCE) && IsBoundary(STORE) && IsBoundary(HALT)
  {
  }

  lemma ProgramIsCut()
    ensures ScopesOf(Program(GROWN)) == ProgramScopes(GROWN)
  {
    GrownIsScope();
    hide IsBoundary;
    var items := Program(GROWN);
    assert |items| == 5 && items[0] == Code(Grow(1)) && items[1] == Code(Grow(3)) && items[2] == Code(Copy(3));
    assert items[3] == Code(STORE) && items[4] == Code(HALT);
    assert CutAfter(items, 1) == Cut([], [Grow(1)]);
    assert CutAfter(items, 2) == Cut([], [Grow(1), Grow(3)]);
    assert CutAfter(items, 3) == Cut([], GROWN);
    assert CutAfter(items, 4) == Cut([Straight(GROWN), Single(Code(STORE))], []);
    assert CutAfter(items, 5) == Cut(ProgramScopes(GROWN), []);
  }

  // ----- what the pass makes of it -----

  /** Only the scope itself reads `r1` and `r3`; the store reads `r5`. */
  lemma OutsideOfGrown()
    ensures R(1) !in OutsideOf(ProgramScopes(GROWN), 0) && R(3) !in OutsideOf(ProgramScopes(GROWN), 0)
    ensures R(5) in OutsideOf(ProgramScopes(GROWN), 0)
  {
    var scopes := ProgramScopes(GROWN);
    hide OutsideOf;
    forall r | r == R(1) || r == R(3) ensures r !in OutsideOf(scopes, 0) {
      forall j: nat | j < |scopes| && j != 0 ensures !ReadIn(scopes[j], r) {
        assert |ItemsOf(scopes[j])| == 1;
      }
      ReadElsewhere(scopes, 0, r);
    }
    assert ItemsOf(scopes[1])[0] == Code(STORE) && OperandRegs(STORE.operands[1]) <= ReadRegisters(STORE);
    assert ItemsOf(scopes[1])[0].Code? && R(5) in ReadRegisters(ItemsOf(scopes[1])[0].inst);
    assert ReadIn(scopes[1], R(5));
    ReadElsewhere(scopes, 0, R(5));
  }

  /** `(add.u32, r1, r2)` */
  function GrowKey(): Key {
    Key(Opcode(Add, [], U32), [RegOp(R(1)), RegOp(R(2))])
  }

  lemma GrowKeyOf(to: nat)
    ensures ExpressionKey(Grow(to)) == Some(GrowKey()) && !IsBoundary(Grow(to)) && CseScope.Target(Grow(to)) == R(to)
    ensures to != 1 && to != 2 ==> !KeyReads(GrowKey(), R(to))
  {
    assert Grow(to).operands[1..] == [RegOp(R(1)), RegOp(R(2))];
    if to != 1 && to != 2 {
      NotMentioned(GrowKey().sources, 2, R(to));
    }
  }

  /** The first sum is remembered as held by `r1`, which it has just changed. */
  lemma GrowTurn(outside: set<Reg>)
    requires R(1) !in outside && IsScope(GROWN)
    ensures Turned(GROWN, outside, 0, Tables([], [], map[], map[], map[]))
         == Tables([Grow(1)], [0], map[], map[GrowKey() := R(1)], map[])
  {
    NothingRewritten(Grow(1));
    GrowKeyOf(1);
    hide RewriteSources, ExpressionKey, IsBoundary, KeyReads, CseScope.Target;
    assert Forgotten(map[], R(1)) == map[] && NONE - {R(1)} == NONE;
  }

  /** The second sum is taken for the first. */
  lemma GrownAgainTurn(outside: set<Reg>)
    requires R(3) !in outside && IsScope(GROWN)
    ensures Turned(GROWN, outside, 1, Tables([Grow(1)], [0], map[], map[GrowKey() := R(1)], map[]))
         == Tables([Grow(1)], [0], map[R(3) := R(1)], map[GrowKey() := R(1)], map[R(3) := R(1)])
  {
    NothingRewritten(Grow(3));
    GrowKeyOf(3);
    var exprs := map[GrowKey() := R(1)];
    assert !ReadAfter(R(3), R(1), GROWN[2..]) by {
      assert GROWN[2..] == [Copy(3)] && Destination(Copy(3)) == Some(R(5));
    }
    hide RewriteSources, ExpressionKey, IsBoundary, KeyReads, CseScope.Target, ReadAfter;
    assert Forgotten(exprs, R(3)) == exprs && NONE - {R(3)} == NONE;
  }

  lemma CopyRewritten()
    ensures RewriteSources(Copy(3), map[R(3) := R(1)]) == Copy(1)
    ensures ExpressionKey(Copy(1)).Some? && CseScope.Target(Copy(1)) == R(5)
  {
    var aliases := map[R(3) := R(1)];
    assert ResolveAlias(R(3), aliases, {}) == R(1) by {
      assert ResolveAlias(R(1), aliases, {R(3)}) == R(1);
    }
    assert RewriteSources(Copy(3), aliases).operands == Copy(1).operands;
  }

  lemma CopyTurn(outside: set<Reg>, exprs: map<Key, Reg>, replacements: map<Reg, Reg>)
    requires R(5) in outside && IsScope(GROWN)
    ensures var t := Turned(GROWN, outside, 2, Tables([Grow(1)], [0], map[R(3) := R(1)], exprs, replacements));
            t.optimized == GROWN_ONCE && t.aliases == map[R(3) := R(1)]
  {
    CopyRewritten();
    hide RewriteSources, ExpressionKey, IsBoundary, KeyReads, Forgotten, ReadAfter;
    var aliases := map[R(3) := R(1)];
    assert aliases - {R(5)} == aliases;
  }

  /** One of the two sums is left. */
  lemma SecondGrowthDropped(outside: set<Reg>)
    requires R(1) !in outside && R(3) !in outside && R(5) in outside
    ensures IsScope(GROWN) && Outcome(GROWN, outside) == GROWN_ONCE && Dropped(GROWN, outside) == {R(3)}
  {
    GrownIsScope();
    hide Turned, IsScope;
    GrowTurn(outside);
    GrownAgainTurn(outside);
    CopyTurn(outside, map[GrowKey() := R(1)], map[R(3) := R(1)]);
    assert Walked(GROWN, outside, 1) == Tables([Grow(1)], [0], map[], map[GrowKey() := R(1)], map[]);
    assert Walked(GROWN, outside, 2)
        == Tables([Grow(1)], [0], map[R(3) := R(1)], map[GrowKey() := R(1)], map[R(3) := R(1)]);
  }

  lemma ProgramOutcomes(outside: set<Reg>, optimized: seq<Inst>)
    requires Splits(ProgramScopes(GROWN)) && outside == OutsideOf(ProgramScopes(GROWN), 0)
    requires IsScope(GROWN) && optimized == Outcome(GROWN, outside)
    ensures Outcomes(ProgramScopes(GROWN)) == ProgramScopes(optimized)
  {
    hide OutsideOf, Outcome, IsScope, IsBoundary, Splits, GROWN;
    var scopes := ProgramScopes(GROWN);
    forall k: nat | k < |scopes| ensures Outcomes(scopes)[k] == ProgramScopes(optimized)[k] {
      EachGood(scopes, k);
    }
  }

  lemma FlattenProgram(body: seq<Inst>)
    ensures Flatten(ProgramScopes(body)) == Program(body)
  {
    var scopes := ProgramScopes(body);
    hide Flatten;
    FlattenNothing();
    assert scopes[..1] == [] + [scopes[0]];
    FlattenAppend([], scopes[0]);
    assert scopes[..2] == scopes[..1] + [scopes[1]];
    FlattenAppend(scopes[..1], scopes[1]);
    assert scopes == scopes[..2] + [scopes[2]];
    FlattenAppend(scopes[..2], scopes[2]);
  }

  lemma ProgramAfterPass()
    ensures Eliminated(Program(GROWN)) == Program(GROWN_ONCE)
  {
    var scopes, optimized := ProgramScopes(GROWN), GROWN_ONCE;
    var outside := OutsideOf(scopes, 0);
    hide *;
    ProgramIsCut();
    OutsideOfGrown();
    SecondGrowthDropped(outside);
    EliminatedIs(Program(GROWN), scopes);
    ProgramOutcomes(outside, optimized);
    FlattenProgram(optimized);
  }

  // ----- how the program runs -----

  lemma ProgramItems(body: seq<Inst>)
    ensures var items, n := Program(body), |body|;
            |items| == n + 2 && items[0..n] == CsePass.Codes(body) && items[n] == Code(STORE)
                && items[n + 1] == Code(HALT)
  {
    hide STORE, HALT;
  }

  lemma ProgramEnds(host: Host, body: seq<Inst>, s: State)
    requires IsScope(body) && |s.gmem| == 4 && Get(Exec(host, body, s.regs), BASE) == 0
    ensures var after := Exec(host, body, s.regs);
            Run(host, Program(body), 0, s, |body| + 2) == Halted(State(after, Stored(after)))
  {
    hide *;
    var items, n, after := Program(body), |body|, Exec(host, body, s.regs);
    var middle, s' := State(after, s.gmem), State(after, Stored(after));
    ProgramItems(body);
    BodyReaches(host, items, 0, body, s);
    StoreStep(host, items, n, middle);
    OneReaches(host, items, n, middle, n + 1, s');
    ThenReaches(host, items, 0, s, n, n, middle, 1, n + 1, s');
    ReachesEnd(host, items, s, n + 1, n + 1, s');
  }

  /** Moves copy and sums are sums. */
  function AddingHost(): Host {
    Host((_, vs) => if |vs| == 1 then vs[0] else if |vs| == 2 then Mask32(vs[0] + vs[1]) else 0,
         (_, _, _) => true, _ => 0, (_, _) => 0)
  }

  lemma Adds(regs: Regs, n: nat)
    ensures !IsBoundary(Grow(n)) && !IsBoundary(Copy(n))
    ensures Apply(AddingHost(), Grow(n), regs) == regs[R(n) := Mask32(Get(regs, R(1)) + Get(regs, R(2)))]
    ensures Apply(AddingHost(), Copy(n), regs) == regs[R(5) := Get(regs, R(n))]
  {
  }

  lemma TwoRun(host: Host, x: Inst, y: Inst, regs: Regs)
    requires !IsBoundary(x) && !IsBoundary(y)
    ensures IsScope([x, y]) && Exec(host, [x, y], regs) == Apply(host, y, Apply(host, x, regs))
  {
    hide IsBoundary, Apply, Exec;
    ExecNothing(host, regs);
    ExecAppend(host, [], x, regs);
    ExecAppend(host, [x], y, regs);
    assert [] + [x] == [x] && [x] + [y] == [x, y];
  }

  lemma ThreeRun(host: Host, x: Inst, y: Inst, z: Inst, regs: Regs)
    requires !IsBoundary(x) && !IsBoundary(y) && !IsBoundary(z)
    ensures IsScope([x, y, z]) && Exec(host, [x, y, z], regs) == Apply(host, z, Apply(host, y, Apply(host, x, regs)))
  {
    hide IsBoundary, Apply, Exec;
    TwoRun(host, x, y, regs);
    ExecAppend(host, [x, y], z, regs);
    assert [x, y] + [z] == [x, y, z];
  }

  lemma GrownIs()
    ensures GROWN == [Grow(1), Grow(3), Copy(3)] && GROWN_ONCE == [Grow(1), Copy(1)]
    ensures R(1) != R(2) && R(1) != R(3) && R(2) != R(3)
  {
  }

  lemma GetAfter(regs: Regs, r: Reg, v: nat, q: Reg)
    ensures Get(regs[r := v], q) == if q == r then v else Get(regs, q)
  {
  }

  /** Two sums and a copy: `r5` gets `r1 + 2 * r2`. */
  lemma GrownRegs(host: Host, regs: Regs)
    requires host == AddingHost()
    ensures var sum := Mask32(Get(regs, R(1)) + Get(regs, R(2)));
            var twice := Mask32(sum + Get(regs, R(2)));
            IsScope(GROWN) && Exec(host, GROWN, regs) == regs[R(1) := sum][R(3) := twice][R(5) := twice]
  {
    hide *;
    GrownIs();
    var sum := Mask32(Get(regs, R(1)) + Get(regs, R(2)));
    var one := regs[R(1) := sum];
    var twice := Mask32(sum + Get(regs, R(2)));
    Adds(regs, 1);
    GetAfter(regs, R(1), sum, R(1));
    GetAfter(regs, R(1), sum, R(2));
    Adds(one, 3);
    GetAfter(one, R(3), twice, R(3));
    Adds(one[R(3) := twice], 3);
    ThreeRun(host, Grow(1), Grow(3), Copy(3), regs);
  }

  /** One sum and a copy: `r5` gets `r1 + r2`. */
  lemma GrownOnceRegs(host: Host, regs: Regs)
    requires host == AddingHost()
    ensures var sum := Mask32(Get(regs, R(1)) + Get(regs, R(2)));
            IsScope(GROWN_ONCE) && Exec(host, GROWN_ONCE, regs) == regs[R(1) := sum][R(5) := sum]
  {
    hide *;
    GrownIs();
    var sum := Mask32(Get(regs, R(1)) + Get(regs, R(2)));
    Adds(regs, 1);
    GetAfter(regs, R(1), sum, R(1));
    Adds(regs[R(1) := sum], 1);
    TwoRun(host, Grow(1), Copy(1), regs);
  }

  /** From `r2 = 1` the program leaves two in `r5`, what the pass makes of it one. */
  lemma GrownBodies(regs: Regs, host: Host)
    requires regs == map[R(2) := 1] && host == AddingHost()
    ensures IsScope(GROWN) && IsScope(GROWN_ONCE)
    ensures var a, b := Exec(host, GROWN, regs), Exec(host, GROWN_ONCE, regs);
            Get(a, R(5)) == 2 && Get(b, R(5)) == 1 && Get(a, BASE) == Get(b, BASE) == 0
  {
    GrownIsScope();
    hide IsBoundary, Exec, Grow, GROWN, GROWN_ONCE, AddingHost;
    GrownRegs(host, regs);
    GrownOnceRegs(host, regs);
  }

  /** Straight-line code runs once and is changed all the same: the pass makes the program store another word. */
  lemma OwnSourceLost()
    ensures exists host: Host, s: State, fuel: nat, fuel': nat :: EndsDiffer(host, Program(GROWN), s, fuel, fuel')
    ensures !CleanProgram(Program(GROWN))
  {
    hide *;
    var host, s, n, n' := AddingHost(), State(map[R(2) := 1], [0, 0, 0, 0]), |GROWN| + 2, |GROWN_ONCE| + 2;
    GrowthLostOn(host, s, n, n');
  }

  lemma GrowthLostOn(host: Host, s: State, n: nat, n': nat)
    requires host == AddingHost() && s == State(map[R(2) := 1], [0, 0, 0, 0])
    requires n == |GROWN| + 2 && n' == |GROWN_ONCE| + 2
    ensures EndsDiffer(host, Program(GROWN), s, n, n') && !CleanProgram(Program(GROWN))
  {
    hide Run, Program, Eliminated, Stored, CleanProgram, AddingHost, Get, Exec, IsScope, GROWN, GROWN_ONCE;
    GrownBodies(s.regs, host);
    ProgramEnds(host, GROWN, s);
    ProgramEnds(host, GROWN_ONCE, s);
    ProgramAfterPass();
    StoredByte(Exec(host, GROWN, s.regs));
    StoredByte(Exec(host, GROWN_ONCE, s.regs));
    assert EndsDiffer(host, Program(GROWN), s, n, n');
    NotClean(Program(GROWN), host, s, n, n');
  }
}
