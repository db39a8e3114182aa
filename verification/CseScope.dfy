/** One scope of common-subexpression elimination, and the meaning it preserves. */
module CseScope {
  import opened Wrappers
  import opened Ptx
  import opened Cse

  // ----- straight-line execution -----

  function KeyValue(host: Host, k: Key, regs: Regs): nat {
    host.eval(k.op, seq<nat>(|k.sources|, i requires 0 <= i < |k.sources| => ValueOf(host, k.op.ty, k.sources[i],
        regs)))
  }

  /** A scope holds no boundaries, so each instruction computes one expression into one register. */
  predicate IsScope(insts: seq<Inst>) {
    forall i | 0 <= i < |insts| :: !IsBoundary(insts[i])
  }

  function Target(inst: Inst): Reg
    requires !IsBoundary(inst)
  {
    inst.operands[0].reg
  }

  function Apply(host: Host, inst: Inst, regs: Regs): Regs
    requires !IsBoundary(inst)
  {
    regs[Target(inst) := KeyValue(host, ExpressionKey(inst).value, regs)]
  }

  function Exec(host: Host, insts: seq<Inst>, regs: Regs): Regs
    requires IsScope(insts)
  {
    if insts == [] then regs else Apply(host, insts[|insts| - 1], Exec(host, insts[..|insts| - 1], regs))
  }

  /** `Apply` is what the PTX machine does with the instruction. */
  lemma ApplyIsStep(host: Host, inst: Inst, s: State)
    requires !IsBoundary(inst)
    ensures GuardedEffect(host, inst, s) == Write(Target(inst), KeyValue(host, ExpressionKey(inst).value, s.regs))
    ensures Destination(inst) == Some(Target(inst)) && !IsPredicate(Target(inst))
  {
    var k := ExpressionKey(inst).value;
    assert Sources(host, inst, s.regs)
        == seq<nat>(|k.sources|, i requires 0 <= i < |k.sources| => ValueOf(host, k.op.ty, k.sources[i], s.regs));
  }

  // ----- what holds while the scope is walked -----

  /** Some of the first `n` instructions writes `r`. */
  predicate Defined(insts: seq<Inst>, n: nat, r: Reg)
    requires n <= |insts|
  {
    exists j | 0 <= j < n :: Destination(insts[j]) == Some(r)
  }

  /** `r` is read before the scope writes it. */
  predicate Exposed(insts: seq<Inst>, r: Reg) {
    exists j | 0 <= j < |insts| :: r in ReadRegisters(insts[j]) && !Defined(insts, j, r)
  }

  predicate ReadsItself(inst: Inst) {
    Destination(inst).Some? && Destination(inst).value in ReadRegisters(inst)
  }

  /** An instruction may read its own destination only if that is read outside too, for then it is never looked up. */
  predicate LookUpsClean(insts: seq<Inst>, outsideReads: set<Reg>) {
    forall j | 0 <= j < |insts| && ReadsItself(insts[j]) :: Destination(insts[j]).value in outsideReads
  }

  predicate NeverRead(insts: seq<Inst>, i: nat, r: Reg) {
    forall j | i <= j < |insts| :: r !in ReadRegisters(insts[j])
  }

  function Home(aliases: map<Reg, Reg>, r: Reg): Reg {
    if r in aliases then aliases[r] else r
  }

  /** Aliases are direct, and safe until their target changes; after that (`stale`) nothing reads them. */
  ghost predicate Sorted(insts: seq<Inst>, i: nat, aliases: map<Reg, Reg>, stale: set<Reg>, exprs: map<Key, Reg>)
    requires i <= |insts|
  {
    && stale <= aliases.Keys
    && (forall r | r in stale :: NeverRead(insts, i, r))
    && (forall r | r in aliases && r !in stale :: aliases[r] !in aliases && !ReadAfter(r, aliases[r], insts[i..]))
    && (forall r | r in aliases :: Defined(insts, i, r))
    && (forall k | k in exprs :: exprs[k] !in aliases)
  }

  /**
   * `now` comes from the original instructions so far, `kept` from the optimized ones; `a` and `b` are where they
   * began.
   */
  ghost predicate Corresponds(host: Host, insts: seq<Inst>, i: nat, aliases: map<Reg, Reg>, stale: set<Reg>,
                              exprs: map<Key, Reg>, a: Regs, b: Regs, now: Regs, kept: Regs)
    requires i <= |insts|
  {
    && (forall k | k in exprs :: KeyValue(host, k, kept) == Get(kept, exprs[k]))
    && (forall r | r !in stale && (Defined(insts, i, r) || Get(a, r) == Get(b, r)) ::
          Get(now, r) == Get(kept, Home(aliases, r)))
  }

  ghost predicate AgreeOnExposed(insts: seq<Inst>, a: Regs, b: Regs) {
    forall r | Exposed(insts, r) :: Get(a, r) == Get(b, r)
  }

  /** What the instruction at hand reads is not stale, and its alias is direct. */
  lemma ReadsDirectly(insts: seq<Inst>, i: nat, aliases: map<Reg, Reg>, stale: set<Reg>, exprs: map<Key, Reg>, r: Reg)
    requires i < |insts| && r in ReadRegisters(insts[i]) && Sorted(insts, i, aliases, stale, exprs)
    ensures r !in stale && ResolveAlias(r, aliases, {}) == Home(aliases, r)
  {
    assert r in stale ==> NeverRead(insts, i, r);
    hide ReadRegisters, Destination;
  }

  /** What the instruction at hand reads is known and found at its home. */
  lemma ReadsAtHome(host: Host, insts: seq<Inst>, i: nat, aliases: map<Reg, Reg>, stale: set<Reg>, exprs: map<Key, Reg>,
                    a: Regs, b: Regs, now: Regs, kept: Regs, r: Reg)
    requires i < |insts| && r in ReadRegisters(insts[i])
    requires Sorted(insts, i, aliases, stale, exprs) && AgreeOnExposed(insts, a, b)
    requires Corresponds(host, insts, i, aliases, stale, exprs, a, b, now, kept)
    ensures ResolveAlias(r, aliases, {}) == Home(aliases, r) && Get(now, r) == Get(kept, Home(aliases, r))
  {
    hide ReadRegisters, Destination, Sorted;
    ReadsDirectly(insts, i, aliases, stale, exprs, r);
    assert Defined(insts, i, r) || Exposed(insts, r);
  }

  /** The rewritten instruction computes in the optimized run what the original computes in its own. */
  lemma RewrittenValue(host: Host, insts: seq<Inst>, i: nat, aliases: map<Reg, Reg>, stale: set<Reg>,
                       exprs: map<Key, Reg>, a: Regs, b: Regs, now: Regs, kept: Regs)
    requires i < |insts| && !IsBoundary(insts[i])
    requires Sorted(insts, i, aliases, stale, exprs) && AgreeOnExposed(insts, a, b)
    requires Corresponds(host, insts, i, aliases, stale, exprs, a, b, now, kept)
    ensures var rewritten := RewriteSources(insts[i], aliases);
            && !IsBoundary(rewritten) && Target(rewritten) == Target(insts[i])
            && KeyValue(host, ExpressionKey(rewritten).value, kept)
                == KeyValue(host, ExpressionKey(insts[i]).value, now)
  {
    var inst, rewritten := insts[i], RewriteSources(insts[i], aliases);
    var k, k' := ExpressionKey(inst).value, ExpressionKey(rewritten).value;
    forall j | 0 <= j < |k.sources|
      ensures ValueOf(host, k'.op.ty, k'.sources[j], kept) == ValueOf(host, k.op.ty, k.sources[j], now)
    {
      assert k.sources[j] == inst.operands[j + 1];
      assert OperandRegs(inst.operands[j + 1]) <= ReadRegisters(inst);
      assert k'.sources[j] == RewriteOperand(inst.operands[j + 1], aliases);
      var reference := RegOf(k.sources[j]);
      if reference.Some? {
        ReadsAtHome(host, insts, i, aliases, stale, exprs, a, b, now, kept, reference.value);
      }
    }
    assert seq<nat>(|k.sources|, j requires 0 <= j < |k.sources| => ValueOf(host, k.op.ty, k.sources[j], now))
        == seq<nat>(|k'.sources|, j requires 0 <= j < |k'.sources| => ValueOf(host, k'.op.ty, k'.sources[j], kept));
  }

  // ----- the tables after one instruction -----

  function Restale(aliases: map<Reg, Reg>, stale: set<Reg>, d: Reg): set<Reg> {
    set r | r in aliases && r != d && (r in stale || aliases[r] == d)
  }

  lemma SortedNext(insts: seq<Inst>, i: nat, aliases: map<Reg, Reg>, stale: set<Reg>, exprs: map<Key, Reg>, d: Reg)
    requires i < |insts| && Destination(insts[i]) == Some(d) && Sorted(insts, i, aliases, stale, exprs)
    ensures Sorted(insts, i + 1, aliases - {d}, Restale(aliases, stale, d), Forgotten(exprs, d))
  {
    var aliases', stale' := aliases - {d}, Restale(aliases, stale, d);
    hide ReadRegisters, Destination, KeyReads;
    var future, later := insts[i..], insts[i + 1..];
    assert future[0] == insts[i] && forall j | 0 <= j < |later| :: later[j] == future[j + 1];
    forall r | r in stale' ensures NeverRead(insts, i + 1, r) {
      forall j | i + 1 <= j < |insts| ensures r !in ReadRegisters(insts[j]) {
        assert insts[j] == future[j - i];
      }
    }
    forall r | r in aliases' && r !in stale' ensures !ReadAfter(r, aliases'[r], later) {
      LaterReadAfter(r, aliases[r], insts, i);
    }
    forall r | r in aliases' ensures Defined(insts, i + 1, r) {
      assert Defined(insts, i, r);
    }
  }

  lemma LaterReadAfter(r: Reg, target: Reg, insts: seq<Inst>, i: nat)
    requires i < |insts| && !ReadAfter(r, target, insts[i..])
    ensures !ReadAfter(r, target, insts[i + 1..])
  {
    var future, later := insts[i..], insts[i + 1..];
    forall m, j | 0 <= m <= j < |later|
      ensures !(Destination(later[m]) == Some(target) && r in ReadRegisters(later[j])) {
      assert later[m] == future[m + 1] && later[j] == future[j + 1];
    }
  }

  lemma SortedAlias(insts: seq<Inst>, i: nat, aliases: map<Reg, Reg>, stale: set<Reg>, exprs: map<Key, Reg>, d: Reg,
                    k: Key)
    requires i < |insts| && Destination(insts[i]) == Some(d) && Sorted(insts, i, aliases, stale, exprs)
    requires k in Forgotten(exprs, d) && !ReadAfter(d, exprs[k], insts[i + 1..])
    ensures Sorted(insts, i + 1, (aliases - {d})[d := exprs[k]], Restale(aliases, stale, d), Forgotten(exprs, d))
  {
    SortedNext(insts, i, aliases, stale, exprs, d);
    assert Defined(insts, i + 1, d);
    hide ReadAfter, NeverRead, Defined, Destination, KeyReads;
  }

  lemma SortedIndex(insts: seq<Inst>, i: nat, aliases: map<Reg, Reg>, stale: set<Reg>, exprs: map<Key, Reg>, d: Reg,
                    k: Key)
    requires i <= |insts| && d !in aliases && Sorted(insts, i, aliases, stale, exprs)
    ensures Sorted(insts, i, aliases, stale, exprs[k := d])
  {
    hide ReadAfter, NeverRead, Defined;
  }

  /** A rewritten instruction reads its own destination only if the original did. */
  lemma RewrittenReadsOthers(insts: seq<Inst>, i: nat, aliases: map<Reg, Reg>, stale: set<Reg>, exprs: map<Key, Reg>)
    requires i < |insts| && !IsBoundary(insts[i]) && !ReadsItself(insts[i]) && Sorted(insts, i, aliases, stale, exprs)
    ensures var rewritten := RewriteSources(insts[i], aliases);
            ExpressionKey(rewritten).Some? && !KeyReads(ExpressionKey(rewritten).value, Target(insts[i]))
  {
    var inst, rewritten := insts[i], RewriteSources(insts[i], aliases);
    var k, d := ExpressionKey(rewritten).value, Target(inst);
    forall j | 0 <= j < |k.sources| ensures d !in OperandRegs(k.sources[j]) {
      assert k.sources[j] == RewriteOperand(inst.operands[j + 1], aliases);
      assert OperandRegs(inst.operands[j + 1]) <= ReadRegisters(inst);
      var reference := RegOf(inst.operands[j + 1]);
      if reference.Some? {
        ReadsDirectly(insts, i, aliases, stale, exprs, reference.value);
        assert insts[i..][0] == inst;
      }
    }
    NotMentioned(k.sources, |k.sources|, d);
  }

  lemma {:induction false} NotMentioned(sources: seq<Operand>, n: nat, d: Reg)
    requires n <= |sources| && forall j | 0 <= j < n :: d !in OperandRegs(sources[j])
    ensures d !in Mentioned(sources, n)
    decreases n
  {
    if n > 0 {
      NotMentioned(sources, n - 1, d);
    }
  }

  lemma KeyValueFrame(host: Host, k: Key, regs: Regs, d: Reg, v: nat)
    requires !KeyReads(k, d)
    ensures KeyValue(host, k, regs[d := v]) == KeyValue(host, k, regs)
  {
    forall j | 0 <= j < |k.sources|
      ensures ValueOf(host, k.op.ty, k.sources[j], regs[d := v]) == ValueOf(host, k.op.ty, k.sources[j], regs)
    {
      assert OperandRegs(k.sources[j]) <= Mentioned(k.sources, |k.sources|);
    }
    assert seq<nat>(|k.sources|, j requires 0 <= j < |k.sources| => ValueOf(host, k.op.ty, k.sources[j], regs[d := v]))
        == seq<nat>(|k.sources|, j requires 0 <= j < |k.sources| => ValueOf(host, k.op.ty, k.sources[j], regs));
  }

  // ----- the two runs after one instruction -----

  /** Both runs write `v` to `d`. */
  lemma BothWrite(host: Host, insts: seq<Inst>, i: nat, aliases: map<Reg, Reg>, stale: set<Reg>, exprs: map<Key, Reg>,
                  a: Regs, b: Regs, now: Regs, kept: Regs, d: Reg, v: nat)
    requires i < |insts| && Destination(insts[i]) == Some(d) && stale <= aliases.Keys
    requires Corresponds(host, insts, i, aliases, stale, exprs, a, b, now, kept)
    ensures Corresponds(host, insts, i + 1, aliases - {d}, Restale(aliases, stale, d), Forgotten(exprs, d),
                        a, b, now[d := v], kept[d := v])
  {
    hide KeyValue, KeyReads;
    forall k | k in Forgotten(exprs, d) ensures KeyValue(host, k, kept[d := v]) == KeyValue(host, k, kept) {
      KeyValueFrame(host, k, kept, d, v);
    }
    forall r | r != d && Defined(insts, i + 1, r) ensures Defined(insts, i, r) {
    }
    hide Defined;
  }

  /** Only the original writes `v` to `d`; the optimized run has it in the alias target. */
  lemma OneWrites(host: Host, insts: seq<Inst>, i: nat, aliases: map<Reg, Reg>, stale: set<Reg>, exprs: map<Key, Reg>,
                  a: Regs, b: Regs, now: Regs, kept: Regs, d: Reg, v: nat, k: Key)
    requires i < |insts| && Destination(insts[i]) == Some(d) && stale <= aliases.Keys
    requires Corresponds(host, insts, i, aliases, stale, exprs, a, b, now, kept)
    requires k in Forgotten(exprs, d) && KeyValue(host, k, kept) == v
    ensures Corresponds(host, insts, i + 1, (aliases - {d})[d := exprs[k]], Restale(aliases, stale, d),
                        Forgotten(exprs, d), a, b, now[d := v], kept)
  {
    hide KeyValue, KeyReads;
    forall r | r != d && Defined(insts, i + 1, r) ensures Defined(insts, i, r) {
    }
    hide Defined;
  }

  /** The key just computed may be looked up from now on. */
  lemma Indexes(host: Host, insts: seq<Inst>, i: nat, aliases: map<Reg, Reg>, stale: set<Reg>, exprs: map<Key, Reg>,
                a: Regs, b: Regs, now: Regs, kept: Regs, d: Reg, k: Key)
    requires i <= |insts| && KeyValue(host, k, kept) == Get(kept, d)
    requires Corresponds(host, insts, i, aliases, stale, exprs, a, b, now, kept)
    ensures Corresponds(host, insts, i, aliases, stale, exprs[k := d], a, b, now, kept)
  {
    hide KeyValue, Defined;
  }

  // ----- the walk over a scope -----

  ghost predicate Tracks(insts: seq<Inst>, i: nat, optimized: seq<Inst>, aliases: map<Reg, Reg>, stale: set<Reg>,
                         exprs: map<Key, Reg>)
    requires IsScope(insts) && IsScope(optimized) && i <= |insts|
  {
    forall host: Host, a, b | AgreeOnExposed(insts, a, b) ::
      Corresponds(host, insts, i, aliases, stale, exprs, a, b, Exec(host, insts[..i], a), Exec(host, optimized, b))
  }

  /** From starts agreeing on what the scope reads first, both versions agree outside `unknown`. */
  ghost predicate Preserves(insts: seq<Inst>, optimized: seq<Inst>, unknown: set<Reg>)
    requires IsScope(insts) && IsScope(optimized)
  {
    forall host: Host, a, b | AgreeOnExposed(insts, a, b) ::
      forall r | r !in unknown && (Defined(insts, |insts|, r) || Get(a, r) == Get(b, r)) ::
        Get(Exec(host, insts, a), r) == Get(Exec(host, optimized, b), r)
  }

  lemma ExecNext(host: Host, insts: seq<Inst>, i: nat, regs: Regs)
    requires IsScope(insts) && i < |insts|
    ensures Exec(host, insts[..i + 1], regs) == Apply(host, insts[i], Exec(host, insts[..i], regs))
  {
    assert insts[..i + 1][..i] == insts[..i];
  }

  lemma ExecAppend(host: Host, insts: seq<Inst>, inst: Inst, regs: Regs)
    requires IsScope(insts) && !IsBoundary(inst)
    ensures IsScope(insts + [inst])
    ensures Exec(host, insts + [inst], regs) == Apply(host, inst, Exec(host, insts, regs))
  {
    assert (insts + [inst])[..|insts|] == insts;
  }

  lemma ScopeWrites(insts: seq<Inst>, i: nat)
    requires IsScope(insts) && i < |insts|
    ensures Destination(insts[i]) == Some(Target(insts[i]))
  {
  }

  lemma TracksKeep(insts: seq<Inst>, i: nat, optimized: seq<Inst>, aliases: map<Reg, Reg>, stale: set<Reg>,
                   exprs: map<Key, Reg>)
    requires IsScope(insts) && IsScope(optimized) && i < |insts|
    requires Sorted(insts, i, aliases, stale, exprs) && Tracks(insts, i, optimized, aliases, stale, exprs)
    ensures var rewritten, d := RewriteSources(insts[i], aliases), Target(insts[i]);
            && !IsBoundary(rewritten) && IsScope(optimized + [rewritten])
            && Tracks(insts, i + 1, optimized + [rewritten], aliases - {d}, Restale(aliases, stale, d),
                      Forgotten(exprs, d))
            && (!ReadsItself(insts[i]) ==>
                  Tracks(insts, i + 1, optimized + [rewritten], aliases - {d}, Restale(aliases, stale, d),
                         Forgotten(exprs, d)[ExpressionKey(rewritten).value := d]))
  {
    var rewritten, d := RewriteSources(insts[i], aliases), Target(insts[i]);
    var k := ExpressionKey(rewritten).value;
    RewrittenInScope(insts, i, aliases);
    ScopeWrites(insts, i);
    var exprs' := Forgotten(exprs, d)[k := d];
    hide Corresponds, Sorted, Exec, KeyValue, ExpressionKey, RewriteSources, KeyReads, IsBoundary, AgreeOnExposed,
         Forgotten, Restale, ReadsItself;
    forall host: Host, a, b | AgreeOnExposed(insts, a, b)
      ensures Corresponds(host, insts, i + 1, aliases - {d}, Restale(aliases, stale, d), Forgotten(exprs, d), a, b,
                          Exec(host, insts[..i + 1], a), Exec(host, optimized + [rewritten], b))
      ensures !ReadsItself(insts[i]) ==>
                Corresponds(host, insts, i + 1, aliases - {d}, Restale(aliases, stale, d), exprs', a, b,
                            Exec(host, insts[..i + 1], a), Exec(host, optimized + [rewritten], b))
    {
      KeepOne(host, insts, i, optimized, aliases, stale, exprs, a, b);
    }
  }

  lemma RewrittenInScope(insts: seq<Inst>, i: nat, aliases: map<Reg, Reg>)
    requires IsScope(insts) && i < |insts|
    ensures var rewritten := RewriteSources(insts[i], aliases);
            && !IsBoundary(insts[i]) && !IsBoundary(rewritten) && ExpressionKey(rewritten).Some?
            && Target(rewritten) == Target(insts[i]) && Destination(rewritten) == Some(Target(insts[i]))
  {
  }

  lemma ScopeAppend(insts: seq<Inst>, inst: Inst)
    requires IsScope(insts) && !IsBoundary(inst)
    ensures IsScope(insts + [inst])
  {
  }

  lemma CleanAt(insts: seq<Inst>, outsideReads: set<Reg>, i: nat, d: Reg)
    requires i < |insts| && LookUpsClean(insts, outsideReads) && Destination(insts[i]) == Some(d) && d !in outsideReads
    ensures !ReadsItself(insts[i])
  {
  }

  lemma SortedStale(insts: seq<Inst>, i: nat, aliases: map<Reg, Reg>, stale: set<Reg>, exprs: map<Key, Reg>)
    requires i <= |insts| && Sorted(insts, i, aliases, stale, exprs)
    ensures stale <= aliases.Keys
  {
  }

  lemma KeepOne(host: Host, insts: seq<Inst>, i: nat, optimized: seq<Inst>, aliases: map<Reg, Reg>, stale: set<Reg>,
                exprs: map<Key, Reg>, a: Regs, b: Regs)
    requires IsScope(insts) && IsScope(optimized) && i < |insts|
    requires Sorted(insts, i, aliases, stale, exprs) && AgreeOnExposed(insts, a, b)
    requires Corresponds(host, insts, i, aliases, stale, exprs, a, b, Exec(host, insts[..i], a),
                         Exec(host, optimized, b))
    ensures var rewritten, d := RewriteSources(insts[i], aliases), Target(insts[i]);
            && !IsBoundary(rewritten) && IsScope(optimized + [rewritten])
            && Corresponds(host, insts, i + 1, aliases - {d}, Restale(aliases, stale, d), Forgotten(exprs, d), a, b,
                           Exec(host, insts[..i + 1], a), Exec(host, optimized + [rewritten], b))
            && (!ReadsItself(insts[i]) ==>
                  Corresponds(host, insts, i + 1, aliases - {d}, Restale(aliases, stale, d),
                              Forgotten(exprs, d)[ExpressionKey(rewritten).value := d], a, b,
                              Exec(host, insts[..i + 1], a), Exec(host, optimized + [rewritten], b)))
  {
    hide Corresponds, Sorted, Exec, KeyValue, ExpressionKey, RewriteSources, KeyReads, AgreeOnExposed, Forgotten,
         Restale, ReadsItself;
    var now, kept := Exec(host, insts[..i], a), Exec(host, optimized, b);
    var rewritten, d := RewriteSources(insts[i], aliases), Target(insts[i]);
    SortedStale(insts, i, aliases, stale, exprs);
    ScopeWrites(insts, i);
    RewrittenInScope(insts, i, aliases);
    RewrittenValue(host, insts, i, aliases, stale, exprs, a, b, now, kept);
    ExecNext(host, insts, i, a);
    ExecAppend(host, optimized, rewritten, b);
    var k := ExpressionKey(rewritten).value;
    var v := KeyValue(host, k, kept);
    BothWrite(host, insts, i, aliases, stale, exprs, a, b, now, kept, d, v);
    if !ReadsItself(insts[i]) {
      RewrittenReadsOthers(insts, i, aliases, stale, exprs);
      KeyValueFrame(host, k, kept, d, v);
      Indexes(host, insts, i + 1, aliases - {d}, Restale(aliases, stale, d), Forgotten(exprs, d), a, b,
              now[d := v], kept[d := v], d, k);
    }
  }

  lemma DropOne(host: Host, insts: seq<Inst>, i: nat, optimized: seq<Inst>, aliases: map<Reg, Reg>, stale: set<Reg>,
                exprs: map<Key, Reg>, a: Regs, b: Regs)
    requires IsScope(insts) && IsScope(optimized) && i < |insts|
    requires Sorted(insts, i, aliases, stale, exprs) && AgreeOnExposed(insts, a, b)
    requires Corresponds(host, insts, i, aliases, stale, exprs, a, b, Exec(host, insts[..i], a),
                         Exec(host, optimized, b))
    requires ExpressionKey(RewriteSources(insts[i], aliases)).Some?
    requires ExpressionKey(RewriteSources(insts[i], aliases)).value in Forgotten(exprs, Target(insts[i]))
    ensures var d, k := Target(insts[i]), ExpressionKey(RewriteSources(insts[i], aliases)).value;
            k in exprs && Corresponds(host, insts, i + 1, (aliases - {d})[d := exprs[k]], Restale(aliases, stale, d),
                                      Forgotten(exprs, d), a, b, Exec(host, insts[..i + 1], a),
                                          Exec(host, optimized, b))
  {
    hide Corresponds, Sorted, Exec, KeyValue, ExpressionKey, RewriteSources, KeyReads, AgreeOnExposed, Restale;
    var now, kept := Exec(host, insts[..i], a), Exec(host, optimized, b);
    var d, k := Target(insts[i]), ExpressionKey(RewriteSources(insts[i], aliases)).value;
    SortedStale(insts, i, aliases, stale, exprs);
    ScopeWrites(insts, i);
    RewrittenValue(host, insts, i, aliases, stale, exprs, a, b, now, kept);
    ExecNext(host, insts, i, a);
    OneWrites(host, insts, i, aliases, stale, exprs, a, b, now, kept, d, KeyValue(host, k, kept), k);
  }

  lemma TracksDrop(insts: seq<Inst>, i: nat, optimized: seq<Inst>, aliases: map<Reg, Reg>, stale: set<Reg>,
                   exprs: map<Key, Reg>)
    requires IsScope(insts) && IsScope(optimized) && i < |insts|
    requires Sorted(insts, i, aliases, stale, exprs) && Tracks(insts, i, optimized, aliases, stale, exprs)
    requires ExpressionKey(RewriteSources(insts[i], aliases)).Some?
    requires ExpressionKey(RewriteSources(insts[i], aliases)).value in Forgotten(exprs, Target(insts[i]))
    ensures var d, k := Target(insts[i]), ExpressionKey(RewriteSources(insts[i], aliases)).value;
            k in exprs && Tracks(insts, i + 1, optimized, (aliases - {d})[d := exprs[k]], Restale(aliases, stale, d),
                                 Forgotten(exprs, d))
  {
    var d, k := Target(insts[i]), ExpressionKey(RewriteSources(insts[i], aliases)).value;
    hide Corresponds, Sorted, Exec, ExpressionKey, RewriteSources, IsBoundary, AgreeOnExposed, Restale;
    forall host: Host, a, b | AgreeOnExposed(insts, a, b)
      ensures Corresponds(host, insts, i + 1, (aliases - {d})[d := exprs[k]], Restale(aliases, stale, d),
                          Forgotten(exprs, d), a, b, Exec(host, insts[..i + 1], a), Exec(host, optimized, b))
    {
      DropOne(host, insts, i, optimized, aliases, stale, exprs, a, b);
    }
  }

  lemma TracksStart(insts: seq<Inst>)
    requires IsScope(insts)
    ensures Tracks(insts, 0, [], map[], {}, map[]) && Sorted(insts, 0, map[], {}, map[])
  {
    assert insts[..0] == [];
  }

  /** As long as nothing is removed nothing is rewritten either. */
  ghost predicate Untouched(insts: seq<Inst>, i: nat, optimized: seq<Inst>, aliases: map<Reg, Reg>)
    requires i <= |insts|
  {
    |optimized| <= i && (|optimized| == i ==> optimized == insts[..i] && aliases == map[])
  }

  lemma UntouchedNext(insts: seq<Inst>, i: nat, optimized: seq<Inst>, aliases: map<Reg, Reg>, d: Reg)
    requires i < |insts| && Untouched(insts, i, optimized, aliases)
    ensures Untouched(insts, i + 1, optimized + [RewriteSources(insts[i], aliases)], aliases - {d})
  {
    if |optimized| == i {
      assert RewriteSources(insts[i], map[]).operands == insts[i].operands;
      assert aliases - {d} == map[];
    }
  }

  /** What the walk maintains. */
  ghost predicate Walk(insts: seq<Inst>, outsideReads: set<Reg>, i: nat, optimized: seq<Inst>, aliases: map<Reg, Reg>,
                       stale: set<Reg>, exprs: map<Key, Reg>)
    requires IsScope(insts) && i <= |insts|
  {
    && IsScope(optimized) && Sorted(insts, i, aliases, stale, exprs) && Untouched(insts, i, optimized, aliases)
    && (LookUpsClean(insts, outsideReads) ==> Tracks(insts, i, optimized, aliases, stale, exprs))
  }

  lemma WalkKeep(insts: seq<Inst>, outsideReads: set<Reg>, i: nat, optimized: seq<Inst>, aliases: map<Reg, Reg>,
                 stale: set<Reg>, exprs: map<Key, Reg>)
    requires IsScope(insts) && i < |insts| && Walk(insts, outsideReads, i, optimized, aliases, stale, exprs)
    ensures var rewritten, d := RewriteSources(insts[i], aliases), Target(insts[i]);
            && ExpressionKey(rewritten).Some? && Destination(rewritten) == Some(d)
            && Walk(insts, outsideReads, i + 1, optimized + [rewritten], aliases - {d}, Restale(aliases, stale, d),
                    Forgotten(exprs, d))
            && (d !in outsideReads ==>
                  Walk(insts, outsideReads, i + 1, optimized + [rewritten], aliases - {d}, Restale(aliases, stale, d),
                       Forgotten(exprs, d)[ExpressionKey(rewritten).value := d]))
  {
    hide Tracks, Sorted, ReadsItself, RewriteSources, IsBoundary, Restale, Untouched, LookUpsClean, ExpressionKey,
         Destination, Forgotten;
    var rewritten, d := RewriteSources(insts[i], aliases), Target(insts[i]);
    ScopeWrites(insts, i);
    RewrittenInScope(insts, i, aliases);
    ScopeAppend(optimized, rewritten);
    SortedNext(insts, i, aliases, stale, exprs, d);
    UntouchedNext(insts, i, optimized, aliases, d);
    SortedIndex(insts, i + 1, aliases - {d}, Restale(aliases, stale, d), Forgotten(exprs, d), d,
                ExpressionKey(rewritten).value);
    if LookUpsClean(insts, outsideReads) {
      TracksKeep(insts, i, optimized, aliases, stale, exprs);
      if d !in outsideReads {
        CleanAt(insts, outsideReads, i, d);
      }
    }
  }

  lemma WalkDrop(insts: seq<Inst>, outsideReads: set<Reg>, i: nat, optimized: seq<Inst>, aliases: map<Reg, Reg>,
                 stale: set<Reg>, exprs: map<Key, Reg>, k: Key)
    requires IsScope(insts) && i < |insts| && Walk(insts, outsideReads, i, optimized, aliases, stale, exprs)
    requires ExpressionKey(RewriteSources(insts[i], aliases)) == Some(k)
    requires k in Forgotten(exprs, Target(insts[i])) && !ReadAfter(Target(insts[i]), exprs[k], insts[i + 1..])
    ensures var d := Target(insts[i]);
            Walk(insts, outsideReads, i + 1, optimized, (aliases - {d})[d := exprs[k]], Restale(aliases, stale, d),
                 Forgotten(exprs, d))
  {
    var d := Target(insts[i]);
    ScopeWrites(insts, i);
    hide Tracks, Sorted, ExpressionKey, RewriteSources, IsBoundary, Restale, ReadAfter, ReadsItself;
    SortedAlias(insts, i, aliases, stale, exprs, d, k);
    if LookUpsClean(insts, outsideReads) {
      TracksDrop(insts, i, optimized, aliases, stale, exprs);
    }
  }

  lemma WalkStart(insts: seq<Inst>, outsideReads: set<Reg>)
    requires IsScope(insts)
    ensures Walk(insts, outsideReads, 0, [], map[], {}, map[])
  {
    TracksStart(insts);
  }

  predicate AllDefined(insts: seq<Inst>, aliases: map<Reg, Reg>) {
    forall r | r in aliases :: Defined(insts, |insts|, r)
  }

  lemma AliasesDefined(insts: seq<Inst>, i: nat, aliases: map<Reg, Reg>, stale: set<Reg>, exprs: map<Key, Reg>)
    requires i <= |insts| && Sorted(insts, i, aliases, stale, exprs)
    ensures forall r | r in aliases :: Defined(insts, i, r)
  {
  }

  lemma WalkEnd(insts: seq<Inst>, outsideReads: set<Reg>, optimized: seq<Inst>, aliases: map<Reg, Reg>, stale: set<Reg>,
                exprs: map<Key, Reg>)
    requires IsScope(insts) && Walk(insts, outsideReads, |insts|, optimized, aliases, stale, exprs)
    ensures IsScope(optimized) && AllDefined(insts, aliases) && (|optimized| == |insts| ==> optimized == insts)
  {
    assert insts[..|insts|] == insts;
    AliasesDefined(insts, |insts|, aliases, stale, exprs);
    hide Tracks, Sorted, ReadsItself, Defined;
  }

  /** Replacements cover the aliases and touch nothing that is read outside. */
  ghost predicate Covers(replacements: map<Reg, Reg>, aliases: map<Reg, Reg>, outsideReads: set<Reg>) {
    aliases.Keys <= replacements.Keys && replacements.Keys !! outsideReads
  }

  lemma NothingCovered(outsideReads: set<Reg>)
    ensures Covers(map[], map[], outsideReads)
  {
  }

  lemma CoversNext(replacements: map<Reg, Reg>, aliases: map<Reg, Reg>, outsideReads: set<Reg>, d: Reg, t: Option<Reg>)
    requires Covers(replacements, aliases, outsideReads) && (t.Some? ==> d !in outsideReads)
    ensures Covers(if t.Some? then replacements[d := t.value] else replacements,
                   if t.Some? then (aliases - {d})[d := t.value] else aliases - {d}, outsideReads)
  {
  }

  // ----- what the walk computes -----

  /**
   * The tables after some instructions: what was kept (and which instructions those were), and every replacement made.
   */
  datatype Tables = Tables(optimized: seq<Inst>, kept: seq<nat>, aliases: map<Reg, Reg>, exprs: map<Key, Reg>,
                           replacements: map<Reg, Reg>)

  /** The register that makes the instruction needless, if there is one. */
  function Reused(exprs: map<Key, Reg>, key: Key, d: Reg, outsideReads: set<Reg>, known: map<Reg, Reg>,
                  future: seq<Inst>)
    : Option<Reg>
  {
    if d !in outsideReads && key in exprs && !ReadAfter(d, ResolveAlias(exprs[key], known, {}), future)
    then Some(ResolveAlias(exprs[key], known, {}))
    else None
  }

  function Turned(insts: seq<Inst>, outsideReads: set<Reg>, i: nat, t: Tables): Tables
    requires IsScope(insts) && i < |insts|
  {
    var rewritten, d := RewriteSources(insts[i], t.aliases), Target(insts[i]);
    var key, exprs, known := ExpressionKey(rewritten).value, Forgotten(t.exprs, d), t.aliases - {d};
    var use := Reused(exprs, key, d, outsideReads, known, insts[i + 1..]);
    if use.Some? then
      t.(aliases := known[d := use.value], exprs := exprs, replacements := t.replacements[d := use.value])
    else
      t.(optimized := t.optimized + [rewritten], kept := t.kept + [i], aliases := known,
         exprs := if d in outsideReads then exprs else exprs[key := d])
  }

  /** The tables after the first `i` instructions. */
  function Walked(insts: seq<Inst>, outsideReads: set<Reg>, i: nat): Tables
    requires IsScope(insts) && i <= |insts|
  {
    if i == 0 then Tables([], [], map[], map[], map[]) else Turned(insts, outsideReads, i - 1,
                                                                   Walked(insts, outsideReads, i - 1))
  }

  /** What becomes of a scope. */
  function Outcome(insts: seq<Inst>, outsideReads: set<Reg>): seq<Inst>
    requires IsScope(insts)
  {
    Walked(insts, outsideReads, |insts|).optimized
  }

  /** The registers whose last write in the scope is removed. */
  function Dropped(insts: seq<Inst>, outsideReads: set<Reg>): set<Reg>
    requires IsScope(insts)
  {
    Walked(insts, outsideReads, |insts|).aliases.Keys
  }

  ghost function StaleAt(insts: seq<Inst>, outsideReads: set<Reg>, i: nat): set<Reg>
    requires IsScope(insts) && i <= |insts|
  {
    if i == 0 then {}
    else Restale(Walked(insts, outsideReads, i - 1).aliases, StaleAt(insts, outsideReads, i - 1), Target(insts[i - 1]))
  }

  ghost predicate WalkAt(insts: seq<Inst>, outsideReads: set<Reg>, i: nat)
    requires IsScope(insts) && i <= |insts|
  {
    var t := Walked(insts, outsideReads, i);
    && Walk(insts, outsideReads, i, t.optimized, t.aliases, StaleAt(insts, outsideReads, i), t.exprs)
    && Covers(t.replacements, t.aliases, outsideReads)
  }

  /** The register a known expression lives in is not an alias itself. */
  lemma PriorIsDirect(insts: seq<Inst>, i: nat, aliases: map<Reg, Reg>, stale: set<Reg>, exprs: map<Key, Reg>, k: Key,
                      d: Reg)
    requires i <= |insts| && Sorted(insts, i, aliases, stale, exprs) && k in Forgotten(exprs, d)
    ensures k in exprs && Forgotten(exprs, d)[k] == exprs[k] && ResolveAlias(exprs[k], aliases - {d}, {}) == exprs[k]
  {
    hide KeyReads, ReadAfter, NeverRead, Defined;
  }

  lemma WalkPrior(insts: seq<Inst>, outsideReads: set<Reg>, i: nat, optimized: seq<Inst>, aliases: map<Reg, Reg>,
                  stale: set<Reg>, exprs: map<Key, Reg>, k: Key, d: Reg)
    requires IsScope(insts) && i <= |insts| && Walk(insts, outsideReads, i, optimized, aliases, stale, exprs)
    requires k in Forgotten(exprs, d)
    ensures k in exprs && Forgotten(exprs, d)[k] == exprs[k] && ResolveAlias(exprs[k], aliases - {d}, {}) == exprs[k]
  {
    hide Tracks, Sorted, Forgotten;
    PriorIsDirect(insts, i, aliases, stale, exprs, k, d);
  }

  /** One turn keeps what the walk has to keep. */
  lemma WalkTurn(insts: seq<Inst>, outsideReads: set<Reg>, i: nat, t: Tables, stale: set<Reg>)
    requires IsScope(insts) && i < |insts|
    requires Walk(insts, outsideReads, i, t.optimized, t.aliases, stale, t.exprs)
    requires Covers(t.replacements, t.aliases, outsideReads)
    ensures var t', d := Turned(insts, outsideReads, i, t), Target(insts[i]);
            && Walk(insts, outsideReads, i + 1, t'.optimized, t'.aliases, Restale(t.aliases, stale, d), t'.exprs)
            && Covers(t'.replacements, t'.aliases, outsideReads)
  {
    RewrittenInScope(insts, i, t.aliases);
    hide Walk, LookUpsClean, ExpressionKey, RewriteSources, IsBoundary, ReadAfter, ResolveAlias, Restale, Forgotten,
         Covers, IsScope, Destination, KeyReads;
    var d, key := Target(insts[i]), ExpressionKey(RewriteSources(insts[i], t.aliases)).value;
    WalkKeep(insts, outsideReads, i, t.optimized, t.aliases, stale, t.exprs);
    var use := Reused(Forgotten(t.exprs, d), key, d, outsideReads, t.aliases - {d}, insts[i + 1..]);
    CoversNext(t.replacements, t.aliases, outsideReads, d, use);
    if use.Some? {
      WalkPrior(insts, outsideReads, i, t.optimized, t.aliases, stale, t.exprs, key, d);
      WalkDrop(insts, outsideReads, i, t.optimized, t.aliases, stale, t.exprs, key);
    }
  }

  lemma {:induction false} WalkRight(insts: seq<Inst>, outsideReads: set<Reg>, i: nat)
    requires IsScope(insts) && i <= |insts|
    ensures WalkAt(insts, outsideReads, i)
  {
    hide Walk, Restale, Covers, IsScope, Turned, IsBoundary;
    if i == 0 {
      WalkStart(insts, outsideReads);
      NothingCovered(outsideReads);
    } else {
      WalkRight(insts, outsideReads, i - 1);
      WalkTurn(insts, outsideReads, i - 1, Walked(insts, outsideReads, i - 1), StaleAt(insts, outsideReads, i - 1));
    }
  }

  /** `removed_count`. */
  lemma {:induction false} KeptCount(insts: seq<Inst>, outsideReads: set<Reg>, i: nat)
    requires IsScope(insts) && i <= |insts|
    ensures var t := Walked(insts, outsideReads, i); |t.optimized| == |t.kept| <= i
  {
    if i > 0 {
      KeptCount(insts, outsideReads, i - 1);
      hide ExpressionKey, RewriteSources, IsBoundary, ReadAfter, ResolveAlias, Forgotten;
    }
  }

  /** Dropped registers are not read outside and were written; if nothing is removed nothing is rewritten. */
  lemma OutcomeRight(insts: seq<Inst>, outsideReads: set<Reg>)
    requires IsScope(insts)
    ensures IsScope(Outcome(insts, outsideReads)) && |Outcome(insts, outsideReads)| <= |insts|
    ensures |Outcome(insts, outsideReads)| == |insts| ==> Outcome(insts, outsideReads) == insts
    ensures forall r | r in Dropped(insts, outsideReads) :: Defined(insts, |insts|, r) && r !in outsideReads
  {
    hide Walk, Walked, IsScope, Defined;
    var t := Walked(insts, outsideReads, |insts|);
    WalkRight(insts, outsideReads, |insts|);
    KeptCount(insts, outsideReads, |insts|);
    WalkEnd(insts, outsideReads, t.optimized, t.aliases, StaleAt(insts, outsideReads, |insts|), t.exprs);
  }

  // ----- the methods -----

  /** `_optimize_cse_scope`, the lookup: the register to use instead, or else the key is indexed unless read outside. */
  method LookUp(table: ExpressionTable, key: Key, destination: Reg, outsideReads: set<Reg>, known: map<Reg, Reg>,
                future: seq<Inst>) returns (aliasTarget: Option<Reg>)
    requires table.Valid()
    modifies table
    ensures table.Valid()
    ensures aliasTarget.Some? <==>
              && destination !in outsideReads && key in old(table.exprs)
              && !ReadAfter(destination, ResolveAlias(old(table.exprs)[key], known, {}), future)
    ensures aliasTarget.Some? ==>
              aliasTarget.value == ResolveAlias(old(table.exprs)[key], known, {}) && table.exprs == old(table.exprs)
    ensures aliasTarget.None? ==>
              table.exprs == if destination in outsideReads then old(table.exprs)
                  else old(table.exprs)[key := destination]
  {
    hide ReadAfter, ResolveAlias, Indexed;
    if destination in outsideReads {
      return None;
    }
    if key in table.exprs {
      var target := ResolveAlias(table.exprs[key], known, {});
      var readAfter := AliasReadAfterTargetRedefinition(destination, target, future);
      if !readAfter {
        return Some(target);
      }
      table.ReplaceKey(key, destination);
    } else {
      table.IndexKey(key, destination);
    }
    return None;
  }

  /** `_optimize_cse_scope`, one turn of its loop: the register whose copy is used instead, if the instruction goes. */
  method Visit(table: ExpressionTable, insts: seq<Inst>, i: nat, rewritten: Inst, outsideReads: set<Reg>,
               known: map<Reg, Reg>, ghost t: Tables)
    returns (destination: Reg, aliasTarget: Option<Reg>, known': map<Reg, Reg>)
    requires IsScope(insts) && i < |insts| && rewritten == RewriteSources(insts[i], known)
    requires table.Valid() && t.aliases == known && t.exprs == table.exprs
    modifies table
    ensures table.Valid()
    ensures var t' := Turned(insts, outsideReads, i, t);
            && known' == t'.aliases && table.exprs == t'.exprs
            && t'.replacements == (if aliasTarget.Some? then t.replacements[destination := aliasTarget.value]
                                   else t.replacements)
            && t'.optimized == (if aliasTarget.Some? then t.optimized else t.optimized + [rewritten])
  {
    RewrittenInScope(insts, i, known);
    hide ExpressionKey, RewriteSources, IsBoundary, ReadAfter, ResolveAlias, KeyReads, Destination, Indexed, Forgotten,
         IsScope;
    var key := ExpressionKey(rewritten).value;
    destination := Destination(rewritten).value;
    table.Invalidate(destination);
    known' := known - {destination};
    aliasTarget := LookUp(table, key, destination, outsideReads, known', insts[i + 1..]);
    if aliasTarget.Some? {
      known' := known'[destination := aliasTarget.value];
    }
  }

  /** `_optimize_cse_scope`. */
  method OptimizeScope(insts: seq<Inst>, outsideReads: set<Reg>)
    returns (optimized: seq<Inst>, replacements: map<Reg, Reg>, removedCount: nat)
    requires IsScope(insts)
    ensures optimized == Outcome(insts, outsideReads)
    ensures replacements == Walked(insts, outsideReads, |insts|).replacements
    ensures |optimized| + removedCount == |insts|
  {
    hide RewriteSources, IsBoundary, Indexed, IsScope, Turned;
    var table := new ExpressionTable();
    var known: map<Reg, Reg> := map[];
    optimized, replacements, removedCount := [], map[], 0;
    for i := 0 to |insts|
      invariant fresh(table) && table.Valid() && |optimized| + removedCount == i
      invariant var t := Walked(insts, outsideReads, i);
                optimized == t.optimized && known == t.aliases && table.exprs == t.exprs
                    && replacements == t.replacements
    {
      var rewritten := RewriteSources(insts[i], known);
      var destination, aliasTarget;
      destination, aliasTarget, known := Visit(table, insts, i, rewritten, outsideReads, known,
                                               Walked(insts, outsideReads, i));
      if aliasTarget.Some? {
        replacements := replacements[destination := aliasTarget.value];
        removedCount := removedCount + 1;
        continue;
      }
      optimized := optimized + [rewritten];
    }
  }

  // ----- why an instruction must not be looked up if it reads its own destination -----

  lemma OtherRegistersRead(inst: Inst)
    requires !IsBoundary(inst)
    ensures ReadsItself(inst) <==>
              exists j | 0 <= j < |ExpressionKey(inst).value.sources| ::
                Target(inst) in OperandRegs(ExpressionKey(inst).value.sources[j])
  {
    var k := ExpressionKey(inst).value;
    assert forall j | 0 <= j < |k.sources| :: k.sources[j] == inst.operands[j + 1];
    if ReadsItself(inst) {
      var j :| 1 <= j < |inst.operands| && Target(inst) in OperandRegs(inst.operands[j]);
      assert k.sources[j - 1] == inst.operands[j];
    }
  }

  /**
   * Behind an instruction its destination holds the value of its key, on every host and start, iff it does not read
   * itself.
   */
  lemma IndexedRightly(inst: Inst)
    requires !IsBoundary(inst)
    ensures (forall host: Host, regs ::
               KeyValue(host, ExpressionKey(inst).value, Apply(host, inst, regs))
                   == Get(Apply(host, inst, regs), Target(inst)))
            <==> !ReadsItself(inst)
  {
    var k, d := ExpressionKey(inst).value, Target(inst);
    OtherRegistersRead(inst);
    if !ReadsItself(inst) {
      NotMentioned(k.sources, |k.sources|, d);
      forall host: Host, regs ensures KeyValue(host, k, Apply(host, inst, regs)) == Get(Apply(host, inst, regs), d) {
        KeyValueFrame(host, k, regs, d, KeyValue(host, k, regs));
      }
    } else {
      var host, after := TellingHost(inst);
      assert after == Apply(host, inst, map[]);
    }
  }

  /** On a host that tells zero registers from others, a self-reading instruction does not hold its key afterwards. */
  lemma TellingHost(inst: Inst) returns (host: Host, after: Regs)
    requires !IsBoundary(inst) && ReadsItself(inst)
    ensures after == Apply(host, inst, map[])
    ensures KeyValue(host, ExpressionKey(inst).value, after) != Get(after, Target(inst))
  {
    var k, d := ExpressionKey(inst).value, Target(inst);
    OtherRegistersRead(inst);
    var j :| 0 <= j < |k.sources| && d in OperandRegs(k.sources[j]);
    var none := Host((_, _) => 0, (_, _, _) => false, _ => 0, (_, _) => 0);
    var before: seq<nat> := seq<nat>(|k.sources|, i requires 0 <= i < |k.sources| => ValueOf(none, k.op.ty,
        k.sources[i], map[]));
    host := Host((_, vs) => if vs == before then 1 else 0, (_, _, _) => false, _ => 0, (_, _) => 0);
    assert seq<nat>(|k.sources|, i requires 0 <= i < |k.sources| => ValueOf(host, k.op.ty, k.sources[i], map[]))
        == before;
    after := Apply(host, inst, map[]);
    assert Get(after, d) == 1;
    var later := seq<nat>(|k.sources|, i requires 0 <= i < |k.sources| => ValueOf(host, k.op.ty, k.sources[i], after));
    assert later[j] == 1 && before[j] == 0;
  }
}
