/** What elimination of common subexpressions is sure to find: a computation repeated on inputs that stay. */
module CseComplete {
  import opened Wrappers
  import opened Ptx
  import opened Cse
  import opened CseScope

  // ----- which instructions take part -----

  /** An unguarded operation of the pass with all its operands, into a general register. */
  predicate TakesPart(inst: Inst) {
    var n := |inst.operands|;
    && inst.guard.None? && Cc !in inst.op.mods
    && n > 0 && inst.operands[0].RegOp? && inst.operands[0].reg.cls != ClassP
    && (|| (inst.op.base in {Add, And, Mul, Or, Shl, Shr, Sub, Xor} && n == 3)
        || (inst.op.base in {Cvt, Mov} && n == 2) || (inst.op.base == Mad && n == 4))
  }

  /** All others end a scope; these are looked up by operation and sources. */
  lemma BoundaryExactly(inst: Inst)
    ensures IsBoundary(inst) <==> !TakesPart(inst)
    ensures TakesPart(inst) ==>
              && ExpressionKey(inst) == Some(Key(inst.op, inst.operands[1..]))
              && CseScope.Target(inst) == inst.operands[0].reg
  {
  }

  // ----- a repeated computation -----

  predicate SameComputation(a: Inst, b: Inst) {
    a.op == b.op && a.operands != [] && b.operands != [] && a.operands[1..] == b.operands[1..]
  }

  /** None of the first `n` instructions writes a register that `inst` computes from. */
  predicate InputsStay(insts: seq<Inst>, n: nat, inst: Inst)
    requires n <= |insts| && IsScope(insts)
  {
    forall k: nat, q | k < n && 1 <= q < |inst.operands| :: CseScope.Target(insts[k]) !in OperandRegs(inst.operands[q])
  }

  /** `j` computes again what `i`, and nothing else so far, has computed, and its result is not needed by name. */
  predicate Repeats(insts: seq<Inst>, outsideReads: set<Reg>, i: nat, j: nat)
    requires IsScope(insts)
  {
    && i < j < |insts| && SameComputation(insts[i], insts[j]) && InputsStay(insts, j + 1, insts[i])
    && (forall m: nat | m < j && m != i :: !SameComputation(insts[i], insts[m]))
    && (forall k: nat | k <= j && k != i :: CseScope.Target(insts[k]) != CseScope.Target(insts[i]))
    && CseScope.Target(insts[i]) !in outsideReads && CseScope.Target(insts[j]) !in outsideReads
    && !ReadAfter(CseScope.Target(insts[j]), CseScope.Target(insts[i]), insts[j + 1..])
  }

  /** Some of the first `n` instructions writes `r`. */
  ghost predicate WrittenBy(insts: seq<Inst>, n: nat, r: Reg)
    requires IsScope(insts) && n <= |insts|
  {
    exists k: nat :: k < n && CseScope.Target(insts[k]) == r
  }

  /** The tables before instruction `n`: aliases and results are written registers, and the key is known from `i` on. */
  ghost predicate Knows(insts: seq<Inst>, key: Key, i: nat, n: nat, t: Tables)
    requires IsScope(insts) && i < |insts| && n <= |insts|
  {
    && (forall r | r in t.aliases :: WrittenBy(insts, n, r) && WrittenBy(insts, n, t.aliases[r]))
    && (forall k | k in t.exprs :: WrittenBy(insts, n, t.exprs[k]))
    && (if n <= i then key !in t.exprs else key in t.exprs && t.exprs[key] == CseScope.Target(insts[i]))
    && (n > i ==> CseScope.Target(insts[i]) !in t.aliases)
  }

  lemma WrittenMore(insts: seq<Inst>, n: nat, r: Reg)
    requires IsScope(insts) && n < |insts|
    ensures WrittenBy(insts, n + 1, r) <==> WrittenBy(insts, n, r) || CseScope.Target(insts[n]) == r
  {
    if CseScope.Target(insts[n]) == r {
      assert n < n + 1;
    }
  }

  lemma {:induction false} ResolvedIsWritten(insts: seq<Inst>, n: nat, name: Reg, aliases: map<Reg, Reg>,
                                             seen: set<Reg>)
    requires IsScope(insts) && n <= |insts|
    requires forall r | r in aliases :: WrittenBy(insts, n, aliases[r])
    ensures ResolveAlias(name, aliases, seen) == name || WrittenBy(insts, n, ResolveAlias(name, aliases, seen))
    decreases aliases.Keys - seen
  {
    hide WrittenBy;
    if name in aliases && name !in seen {
      ResolvedIsWritten(insts, n, aliases[name], aliases, seen + {name});
    }
  }

  /** An operand is rewritten to itself or to one that names a written register. */
  lemma RewrittenOperand(insts: seq<Inst>, n: nat, o: Operand, aliases: map<Reg, Reg>)
    requires IsScope(insts) && n <= |insts|
    requires forall r | r in aliases :: WrittenBy(insts, n, r) && WrittenBy(insts, n, aliases[r])
    ensures RewriteOperand(o, aliases) == o
            || exists r :: r in OperandRegs(RewriteOperand(o, aliases)) && WrittenBy(insts, n, r)
    ensures (forall r | r in OperandRegs(o) :: !WrittenBy(insts, n, r)) ==> RewriteOperand(o, aliases) == o
  {
    hide WrittenBy;
    if o.RegOp? || o.Addr? {
      ResolvedIsWritten(insts, n, o.reg, aliases, {});
      assert ResolveAlias(o.reg, aliases, {}) in OperandRegs(RewriteOperand(o, aliases));
    }
  }

  lemma SourceStays(insts: seq<Inst>, outsideReads: set<Reg>, i: nat, j: nat, n: nat, q: nat, r: Reg)
    requires IsScope(insts) && Repeats(insts, outsideReads, i, j) && n <= j + 1
    requires 1 <= q < |insts[i].operands| && r in OperandRegs(insts[i].operands[q])
    ensures !WrittenBy(insts, n, r)
  {
    forall k: nat | k < n ensures CseScope.Target(insts[k]) != r {
      assert CseScope.Target(insts[k]) !in OperandRegs(insts[i].operands[q]);
    }
  }

  /** The instruction looked up at `n` has the key of `i` exactly if it computes the same. */
  lemma RewrittenKey(insts: seq<Inst>, outsideReads: set<Reg>, i: nat, j: nat, n: nat, t: Tables)
    requires IsScope(insts) && Repeats(insts, outsideReads, i, j) && n <= j
    requires forall r | r in t.aliases :: WrittenBy(insts, n, r) && WrittenBy(insts, n, t.aliases[r])
    ensures var rewritten := RewriteSources(insts[n], t.aliases);
            && ExpressionKey(rewritten).Some?
            && (ExpressionKey(rewritten) == ExpressionKey(insts[i]) <==> SameComputation(insts[i], insts[n]))
  {
    var rewritten := RewriteSources(insts[n], t.aliases);
    BoundaryExactly(insts[n]);
    BoundaryExactly(insts[i]);
    BoundaryExactly(rewritten);
    assert TakesPart(insts[n]) && TakesPart(insts[i]);
    SourcesRewritten(insts[n], t.aliases);
    assert TakesPart(rewritten);
    hide TakesPart, IsBoundary, ExpressionKey, WrittenBy, RewriteOperand, RewriteSources, Repeats;
    forall q | 1 <= q < |insts[i].operands| && q < |insts[n].operands|
      ensures rewritten.operands[q] == insts[i].operands[q] <==> insts[n].operands[q] == insts[i].operands[q]
    {
      RewrittenOperand(insts, n, insts[n].operands[q], t.aliases);
      forall r | r in OperandRegs(insts[i].operands[q]) ensures !WrittenBy(insts, n, r) {
        SourceStays(insts, outsideReads, i, j, n, q, r);
      }
    }
    SameTails(rewritten.operands, insts[n].operands, insts[i].operands);
  }

  lemma SourcesRewritten(inst: Inst, aliases: map<Reg, Reg>)
    requires TakesPart(inst)
    ensures var rewritten := RewriteSources(inst, aliases);
            && |rewritten.operands| == |inst.operands| && rewritten.operands[0] == inst.operands[0]
            && (forall q | 1 <= q < |inst.operands| ::
                rewritten.operands[q] == RewriteOperand(inst.operands[q], aliases))
  {
    hide RewriteOperand;
  }

  lemma SameTails(a: seq<Operand>, b: seq<Operand>, c: seq<Operand>)
    requires |a| == |b| > 0 && c != []
    requires forall q | 1 <= q < |c| && q < |b| :: a[q] == c[q] <==> b[q] == c[q]
    ensures a[1..] == c[1..] <==> b[1..] == c[1..]
  {
    if a[1..] == c[1..] {
      forall q | 1 <= q < |c| ensures b[q] == c[q] {
        assert a[q] == a[1..][q - 1] == c[1..][q - 1] == c[q];
      }
    }
    if b[1..] == c[1..] {
      forall q | 1 <= q < |c| ensures a[q] == c[q] {
        assert b[q] == b[1..][q - 1] == c[1..][q - 1] == c[q];
      }
    }
  }

  /** Writing a register that is no input and no result of the key leaves what is known of it. */
  lemma ForgottenKeeps(exprs: map<Key, Reg>, key: Key, d: Reg)
    requires !KeyReads(key, d)
    ensures key in Forgotten(exprs, d) <==> key in exprs && exprs[key] != d
    ensures key in exprs && exprs[key] != d ==> Forgotten(exprs, d)[key] == exprs[key]
    ensures forall k | k in Forgotten(exprs, d) :: k in exprs && Forgotten(exprs, d)[k] == exprs[k]
  {
    hide KeyReads;
  }

  lemma {:induction false} NotMentioned(sources: seq<Operand>, n: nat, r: Reg)
    requires n <= |sources| && forall q | 0 <= q < n :: r !in OperandRegs(sources[q])
    ensures r !in Mentioned(sources, n)
    decreases n
  {
    if n > 0 {
      NotMentioned(sources, n - 1, r);
    }
  }

  lemma NotAnInput(insts: seq<Inst>, outsideReads: set<Reg>, i: nat, j: nat, k: nat)
    requires IsScope(insts) && Repeats(insts, outsideReads, i, j) && k <= j
    ensures ExpressionKey(insts[i]).Some? && !KeyReads(ExpressionKey(insts[i]).value, CseScope.Target(insts[k]))
  {
    BoundaryExactly(insts[i]);
    var sources, r := insts[i].operands[1..], CseScope.Target(insts[k]);
    forall q | 0 <= q < |sources| ensures r !in OperandRegs(sources[q]) {
      assert sources[q] == insts[i].operands[q + 1];
    }
    NotMentioned(sources, |sources|, r);
  }

  lemma ResolvedTarget(name: Reg, aliases: map<Reg, Reg>)
    requires name !in aliases
    ensures ResolveAlias(name, aliases, {}) == name
  {
  }

  /** What one turn of the walk does to the tables. */
  lemma TurnIs(insts: seq<Inst>, outsideReads: set<Reg>, n: nat, t: Tables, keyed: Key, d: Reg, use: Option<Reg>)
    requires IsScope(insts) && n < |insts| && d == CseScope.Target(insts[n])
    requires ExpressionKey(RewriteSources(insts[n], t.aliases)) == Some(keyed)
    requires use == Reused(Forgotten(t.exprs, d), keyed, d, outsideReads, t.aliases - {d}, insts[n + 1..])
    ensures var t' := Turned(insts, outsideReads, n, t);
            && t'.aliases == (if use.Some? then (t.aliases - {d})[d := use.value] else t.aliases - {d})
            && t'.exprs == (if use.Some? || d in outsideReads then Forgotten(t.exprs, d)
                            else Forgotten(t.exprs, d)[keyed := d])
            && t'.kept == if use.Some? then t.kept else t.kept + [n]
  {
    hide RewriteSources, ExpressionKey, Forgotten, Reused;
  }

  lemma UseIs(exprs: map<Key, Reg>, keyed: Key, d: Reg, outsideReads: set<Reg>, known: map<Reg, Reg>, future: seq<Inst>)
    ensures var use := Reused(exprs, keyed, d, outsideReads, known, future);
            use.Some? ==> keyed in exprs && use.value == ResolveAlias(exprs[keyed], known, {})
    ensures keyed !in exprs ==> Reused(exprs, keyed, d, outsideReads, known, future).None?
    ensures keyed in exprs && d !in outsideReads && !ReadAfter(d, ResolveAlias(exprs[keyed], known, {}), future) ==>
              Reused(exprs, keyed, d, outsideReads, known, future) == Some(ResolveAlias(exprs[keyed], known, {}))
  {
    hide ReadAfter, ResolveAlias;
  }

  /** One turn of the walk in front of `j`. */
  lemma KnowsNext(insts: seq<Inst>, outsideReads: set<Reg>, i: nat, j: nat, n: nat, t: Tables)
    requires IsScope(insts) && Repeats(insts, outsideReads, i, j) && n < j
    requires ExpressionKey(insts[i]).Some? && Knows(insts, ExpressionKey(insts[i]).value, i, n, t)
    ensures Knows(insts, ExpressionKey(insts[i]).value, i, n + 1, Turned(insts, outsideReads, n, t))
  {
    var key, d, home := ExpressionKey(insts[i]).value, CseScope.Target(insts[n]), CseScope.Target(insts[i]);
    RepeatFacts(insts, outsideReads, i, j, n);
    KnowsFacts(insts, key, i, n, t);
    hide *;
    RewrittenKey(insts, outsideReads, i, j, n, t);
    NotAnInput(insts, outsideReads, i, j, n);
    ForgottenKeeps(t.exprs, key, d);
    var keyed := ExpressionKey(RewriteSources(insts[n], t.aliases)).value;
    var use := Reused(Forgotten(t.exprs, d), keyed, d, outsideReads, t.aliases - {d}, insts[n + 1..]);
    TurnIs(insts, outsideReads, n, t, keyed, d, use);
    UseIs(Forgotten(t.exprs, d), keyed, d, outsideReads, t.aliases - {d}, insts[n + 1..]);
    if use.Some? {
      ResolvedIsWritten(insts, n, Forgotten(t.exprs, d)[keyed], t.aliases - {d}, {});
    }
    KnowsAgain(insts, key, i, n, t, Turned(insts, outsideReads, n, t), keyed, d, use);
  }

  lemma RepeatFacts(insts: seq<Inst>, outsideReads: set<Reg>, i: nat, j: nat, n: nat)
    requires IsScope(insts) && Repeats(insts, outsideReads, i, j) && n <= j
    ensures i < j < |insts| && CseScope.Target(insts[i]) !in outsideReads && CseScope.Target(insts[j]) !in outsideReads
    ensures SameComputation(insts[i], insts[n]) <==> n == i || n == j
    ensures n != i ==> CseScope.Target(insts[n]) != CseScope.Target(insts[i])
    ensures !ReadAfter(CseScope.Target(insts[j]), CseScope.Target(insts[i]), insts[j + 1..])
  {
    SameAsItself(insts, i);
    hide ReadAfter, InputsStay, SameComputation, IsScope, IsBoundary;
  }

  lemma KnowsFacts(insts: seq<Inst>, key: Key, i: nat, n: nat, t: Tables)
    requires IsScope(insts) && i < |insts| && n <= |insts| && Knows(insts, key, i, n, t)
    ensures forall r | r in t.aliases :: WrittenBy(insts, n, r) && WrittenBy(insts, n, t.aliases[r])
    ensures forall k | k in t.exprs :: WrittenBy(insts, n, t.exprs[k])
    ensures if n <= i then key !in t.exprs else key in t.exprs && t.exprs[key] == CseScope.Target(insts[i])
    ensures n > i ==> CseScope.Target(insts[i]) !in t.aliases
  {
    hide WrittenBy, IsScope, IsBoundary;
  }

  lemma KnowsAgain(insts: seq<Inst>, key: Key, i: nat, n: nat, t: Tables, t': Tables, keyed: Key, d: Reg,
                   use: Option<Reg>)
    requires IsScope(insts) && i < |insts| && n < |insts| && Knows(insts, key, i, n, t)
    requires d == CseScope.Target(insts[n]) && (n != i ==> d != CseScope.Target(insts[i])) && (keyed == key <==> n == i)
    requires t'.aliases == if use.Some? then (t.aliases - {d})[d := use.value] else t.aliases - {d}
    requires !KeyReads(key, d) && (use.Some? ==> n != i && WrittenBy(insts, n, use.value))
    requires t'.exprs == Forgotten(t.exprs, d) || t'.exprs == Forgotten(t.exprs, d)[keyed := d]
    requires n == i ==> t'.exprs == Forgotten(t.exprs, d)[keyed := d]
    ensures Knows(insts, key, i, n + 1, t')
  {
    hide *;
    KnowsFacts(insts, key, i, n, t);
    AliasesWritten(insts, n, t.aliases, t'.aliases, d, use);
    ResultsWritten(insts, n, t.exprs, t'.exprs, keyed, d);
    KeyStays(insts, key, i, n, t.exprs, t'.exprs, keyed, d);
    KnowsWhole(insts, key, i, n + 1, t');
  }

  lemma AliasesWritten(insts: seq<Inst>, n: nat, aliases: map<Reg, Reg>, aliases': map<Reg, Reg>, d: Reg,
                       use: Option<Reg>)
    requires IsScope(insts) && n < |insts| && d == CseScope.Target(insts[n])
    requires forall r | r in aliases :: WrittenBy(insts, n, r) && WrittenBy(insts, n, aliases[r])
    requires aliases' == if use.Some? then (aliases - {d})[d := use.value] else aliases - {d}
    requires use.Some? ==> WrittenBy(insts, n, use.value)
    ensures forall r | r in aliases' :: WrittenBy(insts, n + 1, r) && WrittenBy(insts, n + 1, aliases'[r])
  {
    hide *;
    forall r | r in aliases' ensures WrittenBy(insts, n + 1, r) && WrittenBy(insts, n + 1, aliases'[r]) {
      WrittenMore(insts, n, r);
      WrittenMore(insts, n, aliases'[r]);
    }
  }

  lemma ResultsWritten(insts: seq<Inst>, n: nat, exprs: map<Key, Reg>, exprs': map<Key, Reg>, keyed: Key, d: Reg)
    requires IsScope(insts) && n < |insts| && d == CseScope.Target(insts[n])
    requires forall k | k in exprs :: WrittenBy(insts, n, exprs[k])
    requires exprs' == Forgotten(exprs, d) || exprs' == Forgotten(exprs, d)[keyed := d]
    ensures forall k | k in exprs' :: WrittenBy(insts, n + 1, exprs'[k])
  {
    ForgottenIsPart(exprs, d);
    hide *;
    forall k | k in exprs' ensures WrittenBy(insts, n + 1, exprs'[k]) {
      WrittenMore(insts, n, exprs'[k]);
    }
  }

  lemma ForgottenIsPart(exprs: map<Key, Reg>, d: Reg)
    ensures forall k | k in Forgotten(exprs, d) :: k in exprs && Forgotten(exprs, d)[k] == exprs[k]
  {
  }

  lemma KeyStays(insts: seq<Inst>, key: Key, i: nat, n: nat, exprs: map<Key, Reg>, exprs': map<Key, Reg>, keyed: Key,
                 d: Reg)
    requires IsScope(insts) && i < |insts| && n < |insts| && d == CseScope.Target(insts[n])
    requires if n <= i then key !in exprs else key in exprs && exprs[key] == CseScope.Target(insts[i])
    requires (n != i ==> d != CseScope.Target(insts[i])) && (keyed == key <==> n == i) && !KeyReads(key, d)
    requires exprs' == Forgotten(exprs, d) || exprs' == Forgotten(exprs, d)[keyed := d]
    requires n == i ==> exprs' == Forgotten(exprs, d)[keyed := d]
    ensures if n + 1 <= i then key !in exprs' else key in exprs' && exprs'[key] == CseScope.Target(insts[i])
  {
    hide *;
    ForgottenKeeps(exprs, key, d);
  }

  lemma KnowsWhole(insts: seq<Inst>, key: Key, i: nat, n: nat, t: Tables)
    requires IsScope(insts) && i < |insts| && n <= |insts|
    requires forall r | r in t.aliases :: WrittenBy(insts, n, r) && WrittenBy(insts, n, t.aliases[r])
    requires forall k | k in t.exprs :: WrittenBy(insts, n, t.exprs[k])
    requires if n <= i then key !in t.exprs else key in t.exprs && t.exprs[key] == CseScope.Target(insts[i])
    requires n > i ==> CseScope.Target(insts[i]) !in t.aliases
    ensures Knows(insts, key, i, n, t)
  {
    hide WrittenBy, IsScope, IsBoundary;
  }

  lemma SameAsItself(insts: seq<Inst>, i: nat)
    requires IsScope(insts) && i < |insts|
    ensures SameComputation(insts[i], insts[i])
  {
    BoundaryExactly(insts[i]);
  }

  lemma RepeatBounds(insts: seq<Inst>, outsideReads: set<Reg>, i: nat, j: nat)
    requires IsScope(insts) && Repeats(insts, outsideReads, i, j)
    ensures i < j < |insts| && !IsBoundary(insts[i]) && !IsBoundary(insts[j])
  {
  }

  lemma KeyOf(insts: seq<Inst>, i: nat)
    requires IsScope(insts) && i < |insts|
    ensures insts[i].operands != [] && ExpressionKey(insts[i]) == Some(Key(insts[i].op, insts[i].operands[1..]))
  {
    BoundaryExactly(insts[i]);
  }

  lemma WalkedNext(insts: seq<Inst>, outsideReads: set<Reg>, n: nat)
    requires IsScope(insts) && n <= |insts|
    ensures n == 0 ==> Walked(insts, outsideReads, n) == Tables([], [], map[], map[], map[])
    ensures n > 0 ==> Walked(insts, outsideReads, n)
                      == Turned(insts, outsideReads, n - 1, Walked(insts, outsideReads, n - 1))
  {
  }

  lemma KnowsNothing(insts: seq<Inst>, key: Key, i: nat, t: Tables)
    requires IsScope(insts) && i < |insts| && t == Tables([], [], map[], map[], map[])
    ensures Knows(insts, key, i, 0, t)
  {
  }

  lemma {:induction false} KnowsUpTo(insts: seq<Inst>, outsideReads: set<Reg>, i: nat, j: nat, n: nat)
    requires IsScope(insts) && Repeats(insts, outsideReads, i, j) && n <= j
    ensures ExpressionKey(insts[i]).Some?
    ensures Knows(insts, ExpressionKey(insts[i]).value, i, n, Walked(insts, outsideReads, n))
    decreases n
  {
    hide *;
    RepeatBounds(insts, outsideReads, i, j);
    KeyOf(insts, i);
    WalkedNext(insts, outsideReads, n);
    if n > 0 {
      KnowsUpTo(insts, outsideReads, i, j, n - 1);
      KnowsNext(insts, outsideReads, i, j, n - 1, Walked(insts, outsideReads, n - 1));
    } else {
      KnowsNothing(insts, ExpressionKey(insts[i]).value, i, Walked(insts, outsideReads, 0));
    }
  }

  lemma {:induction false} KeptBelow(insts: seq<Inst>, outsideReads: set<Reg>, n: nat)
    requires IsScope(insts) && n <= |insts|
    ensures forall k | k in Walked(insts, outsideReads, n).kept :: k < n
    decreases n
  {
    hide Reused, RewriteSources, ExpressionKey, Forgotten;
    if n > 0 {
      KeptBelow(insts, outsideReads, n - 1);
    }
  }

  lemma {:induction false} KeptStays(insts: seq<Inst>, outsideReads: set<Reg>, m: nat, n: nat, k: nat)
    requires IsScope(insts) && k < m <= n <= |insts|
    ensures k in Walked(insts, outsideReads, n).kept <==> k in Walked(insts, outsideReads, m).kept
    decreases n
  {
    hide Reused, RewriteSources, ExpressionKey, Forgotten;
    if m < n {
      KeptStays(insts, outsideReads, m, n - 1, k);
    }
  }

  /** A computation repeated on inputs that stay is dropped, and its readers are given the first result. */
  lemma RepeatIsDropped(insts: seq<Inst>, outsideReads: set<Reg>, i: nat, j: nat)
    requires IsScope(insts) && Repeats(insts, outsideReads, i, j)
    ensures j !in Walked(insts, outsideReads, |insts|).kept
    ensures var t := Walked(insts, outsideReads, j + 1);
            CseScope.Target(insts[j]) in t.aliases && t.aliases[CseScope.Target(insts[j])] == CseScope.Target(insts[i])
  {
    hide *;
    RepeatBounds(insts, outsideReads, i, j);
    KeyOf(insts, i);
    RepeatFacts(insts, outsideReads, i, j, j);
    WalkedNext(insts, outsideReads, j + 1);
    var t, key := Walked(insts, outsideReads, j), Key(insts[i].op, insts[i].operands[1..]);
    var d, home := CseScope.Target(insts[j]), CseScope.Target(insts[i]);
    KnowsUpTo(insts, outsideReads, i, j, j);
    KnowsFacts(insts, key, i, j, t);
    KeptBelow(insts, outsideReads, j);
    RewrittenKey(insts, outsideReads, i, j, j, t);
    NotAnInput(insts, outsideReads, i, j, j);
    ForgottenKeeps(t.exprs, key, d);
    ResolvedTarget(home, t.aliases - {d});
    UseIs(Forgotten(t.exprs, d), key, d, outsideReads, t.aliases - {d}, insts[j + 1..]);
    TurnIs(insts, outsideReads, j, t, key, d, Some(home));
    KeptStays(insts, outsideReads, j + 1, |insts|, j);
  }
}
