/** When a scope may be run again and again after common subexpressions are gone: exactly, by symbolic execution. */
module CseExact {
  import opened Wrappers
  import opened Words
  import opened Ptx
  import opened Cse
  import opened CseScope

  // ----- symbolic execution of straight code -----

  /** A value as the arithmetic was applied, from the registers at the start. */
  datatype Term = Start(reg: Reg) | Const(value: nat) | Selected(selector: nat) | App(op: Opcode, args: seq<Term>)

  function OperandTerm(insts: seq<Inst>, ty: Type, o: Operand): Term
    requires IsScope(insts)
    decreases |insts|, 1
  {
    match o
    case RegOp(r) => TermAfter(insts, r)
    case Addr(r) => TermAfter(insts, r)
    case IntImm(v) => Const(if Is64(ty) then v % (WORD * WORD) else v % WORD)
    case FloatImm(bits) => Const(bits % WORD)
    case Special(s) => Selected(s)
    case ParamAddr(_) => Const(0)
    case Target(_) => Const(0)
  }

  /** What `r` holds behind the instructions. */
  function TermAfter(insts: seq<Inst>, r: Reg): Term
    requires IsScope(insts)
    decreases |insts|, 0
  {
    if insts == [] then Start(r)
    else
      var before, last := insts[..|insts| - 1], insts[|insts| - 1];
      var k := ExpressionKey(last).value;
      if CseScope.Target(last) == r
      then App(k.op, seq(|k.sources|, i requires 0 <= i < |k.sources| => OperandTerm(before, k.op.ty, k.sources[i])))
      else TermAfter(before, r)
  }

  function Eval(host: Host, regs: Regs, t: Term): nat {
    match t
    case Start(r) => Get(regs, r)
    case Const(v) => v
    case Selected(s) => host.special(s)
    case App(op, args) => host.eval(op, seq<nat>(|args|, i requires 0 <= i < |args| => Eval(host, regs, args[i])))
  }

  /** Symbolic execution is right on every host. */
  lemma {:induction false} EvalAfter(host: Host, insts: seq<Inst>, regs: Regs, r: Reg)
    requires IsScope(insts)
    ensures Get(Exec(host, insts, regs), r) == Eval(host, regs, TermAfter(insts, r))
    decreases |insts|
  {
    if insts != [] {
      var before, last := insts[..|insts| - 1], insts[|insts| - 1];
      var k, middle := ExpressionKey(last).value, Exec(host, before, regs);
      if CseScope.Target(last) == r {
        var t := TermAfter(insts, r);
        forall i | 0 <= i < |k.sources|
          ensures ValueOf(host, k.op.ty, k.sources[i], middle) == Eval(host, regs, t.args[i])
        {
          assert t.args[i] == OperandTerm(before, k.op.ty, k.sources[i]);
          var reference := RegOf(k.sources[i]);
          if reference.Some? {
            EvalAfter(host, before, regs, reference.value);
          }
        }
        assert seq<nat>(|k.sources|, i requires 0 <= i < |k.sources| => ValueOf(host, k.op.ty, k.sources[i], middle))
            == seq<nat>(|t.args|, i requires 0 <= i < |t.args| => Eval(host, regs, t.args[i]));
      } else {
        EvalAfter(host, before, regs, r);
      }
    }
  }

  // ----- different terms can be told apart -----

  predicate SmallConsts(t: Term) {
    match t
    case Const(v) => v < WORD * WORD
    case App(_, args) => forall i | 0 <= i < |args| :: SmallConsts(args[i])
    case _ => true
  }

  lemma {:induction false} TermsAreSmall(insts: seq<Inst>, r: Reg)
    requires IsScope(insts)
    ensures SmallConsts(TermAfter(insts, r))
    decreases |insts|
  {
    if insts != [] {
      var before, last := insts[..|insts| - 1], insts[|insts| - 1];
      var k, t := ExpressionKey(last).value, TermAfter(insts, r);
      if CseScope.Target(last) == r {
        forall i | 0 <= i < |k.sources| ensures SmallConsts(t.args[i]) {
          assert t.args[i] == OperandTerm(before, k.op.ty, k.sources[i]);
          var reference := RegOf(k.sources[i]);
          if reference.Some? {
            TermsAreSmall(before, reference.value);
          }
        }
      } else {
        TermsAreSmall(before, r);
      }
    }
  }

  /** A list with every subterm of its members, and no large constant. */
  ghost predicate Closed(all: seq<Term>) {
    && (forall t | t in all :: SmallConsts(t))
    && (forall t | t in all && t.App? :: forall i | 0 <= i < |t.args| :: t.args[i] in all)
  }

  function Subterms(t: Term): (all: seq<Term>)
    ensures t in all
  {
    (if t.App? then SubtermsOf(t.args, t) else []) + [t]
  }

  function SubtermsOf(args: seq<Term>, ghost whole: Term): (all: seq<Term>)
    requires forall i | 0 <= i < |args| :: args[i] < whole
    ensures forall i | 0 <= i < |args| :: args[i] in all
    decreases whole, |args|
  {
    if args == [] then [] else Subterms(args[0]) + SubtermsOf(args[1..], whole)
  }

  lemma {:induction false} SubtermsClosed(t: Term)
    requires SmallConsts(t)
    ensures Closed(Subterms(t))
  {
    if t.App? {
      AllSubtermsClosed(t.args, t);
    }
  }

  lemma {:induction false} AllSubtermsClosed(args: seq<Term>, whole: Term)
    requires forall i | 0 <= i < |args| :: args[i] < whole && SmallConsts(args[i])
    ensures Closed(SubtermsOf(args, whole))
    decreases whole, |args|
  {
    if args != [] {
      SubtermsClosed(args[0]);
      AllSubtermsClosed(args[1..], whole);
    }
  }

  function IndexOf(all: seq<Term>, t: Term): (i: nat)
    ensures i <= |all| && (t in all <==> i < |all|) && (i < |all| ==> all[i] == t)
  {
    if all == [] || all[0] == t then 0 else 1 + IndexOf(all[1..], t)
  }

  /** Constants stand for themselves, every other term of the list for a number no constant reaches. */
  function Number(all: seq<Term>, t: Term): nat {
    if t.Const? then t.value else WORD * WORD + IndexOf(all, t)
  }

  function Numbers(all: seq<Term>, ts: seq<Term>): seq<nat> {
    seq<nat>(|ts|, i requires 0 <= i < |ts| => Number(all, ts[i]))
  }

  lemma NumbersDiffer(all: seq<Term>, a: Term, b: Term)
    requires Closed(all) && a in all && b in all && Number(all, a) == Number(all, b)
    ensures a == b
  {
    assert SmallConsts(a) && SmallConsts(b);
    assert all[IndexOf(all, a)] == a && all[IndexOf(all, b)] == b;
  }

  /** The application the list holds for these numbers, if there is one. */
  function Applied(all: seq<Term>, op: Opcode, vs: seq<nat>, n: nat): (r: Option<Term>)
    requires n <= |all|
    ensures r.Some? ==> r.value in all && r.value.App? && r.value.op == op && Numbers(all, r.value.args) == vs
    ensures r.None? ==> forall i | 0 <= i < n && all[i].App? :: all[i].op != op || Numbers(all, all[i].args) != vs
  {
    if n == 0 then None
    else if all[n - 1].App? && all[n - 1].op == op && Numbers(all, all[n - 1].args) == vs then Some(all[n - 1])
    else Applied(all, op, vs, n - 1)
  }

  /** On this host the terms of the list evaluate to their numbers. */
  function NumberingHost(all: seq<Term>): Host {
    Host((op, vs) => var t := Applied(all, op, vs, |all|); if t.Some? then Number(all, t.value) else 0,
         (_, _, _) => false,
         s => Number(all, Selected(s)),
         (_, _) => 0)
  }

  function NumberingRegs(all: seq<Term>, n: nat): (regs: Regs)
    requires n <= |all|
    ensures forall i | 0 <= i < n && all[i].Start? :: Get(regs, all[i].reg) == Number(all, all[i])
  {
    if n == 0 then map[]
    else if all[n - 1].Start? then NumberingRegs(all, n - 1)[all[n - 1].reg := Number(all, all[n - 1])]
    else NumberingRegs(all, n - 1)
  }

  lemma {:induction false} EvalIsNumber(all: seq<Term>, t: Term)
    requires Closed(all) && t in all
    ensures Eval(NumberingHost(all), NumberingRegs(all, |all|), t) == Number(all, t)
    decreases t
  {
    var host, regs := NumberingHost(all), NumberingRegs(all, |all|);
    if t.App? {
      forall i | 0 <= i < |t.args| ensures Eval(host, regs, t.args[i]) == Number(all, t.args[i]) {
        EvalIsNumber(all, t.args[i]);
      }
      assert seq<nat>(|t.args|, i requires 0 <= i < |t.args| => Eval(host, regs, t.args[i])) == Numbers(all, t.args);
      var found := Applied(all, t.op, Numbers(all, t.args), |all|);
      assert all[IndexOf(all, t)] == t;
      assert found.Some?;
      SameNumbers(all, found.value.args, t.args);
      assert found.value == t;
    } else if t.Start? {
      assert all[IndexOf(all, t)] == t;
    }
  }

  lemma SameNumbers(all: seq<Term>, a: seq<Term>, b: seq<Term>)
    requires Closed(all) && Numbers(all, a) == Numbers(all, b)
    requires (forall i | 0 <= i < |a| :: a[i] in all) && (forall i | 0 <= i < |b| :: b[i] in all)
    ensures a == b
  {
    assert |Numbers(all, a)| == |a| && |Numbers(all, b)| == |b|;
    forall i | 0 <= i < |a| ensures a[i] == b[i] {
      assert Numbers(all, a)[i] == Numbers(all, b)[i];
      NumbersDiffer(all, a[i], b[i]);
    }
  }

  /** Terms are equal iff no host and no start tells them apart. */
  lemma TermsTellApart(a: Term, b: Term)
    requires SmallConsts(a) && SmallConsts(b)
    ensures a == b <==> forall host: Host, regs: Regs :: Eval(host, regs, a) == Eval(host, regs, b)
  {
    var all := Subterms(a) + Subterms(b);
    SubtermsClosed(a);
    SubtermsClosed(b);
    assert Closed(all);
    EvalIsNumber(all, a);
    EvalIsNumber(all, b);
    if a != b && Number(all, a) == Number(all, b) {
      NumbersDiffer(all, a, b);
    }
  }

  // ----- what happens turn after turn -----

  /** The registers after the scope was run `n` times. */
  function Again(host: Host, insts: seq<Inst>, n: nat, regs: Regs): Regs
    requires IsScope(insts)
  {
    if n == 0 then regs else Exec(host, insts, Again(host, insts, n - 1, regs))
  }

  /** The value instruction `i` computes in a turn that starts on `regs`. */
  function Computes(host: Host, insts: seq<Inst>, i: nat, regs: Regs): nat
    requires IsScope(insts) && i < |insts|
  {
    KeyValue(host, ExpressionKey(insts[i]).value, Exec(host, insts[..i], regs))
  }

  /** The kept instruction `p` computes in a turn from `b` what it computed in the original's turn from `a`. */
  ghost predicate ComputesAlike(host: Host, insts: seq<Inst>, t: Tables, p: nat, a: Regs, b: Regs)
    requires IsScope(insts) && IsScope(t.optimized) && p < |t.optimized|
  {
    && p < |t.kept| && t.kept[p] < |insts|
    && Computes(host, t.optimized, p, b) == Computes(host, insts, t.kept[p], a)
  }

  /** On every host, from every start and in every turn the kept instructions compute what they computed before. */
  ghost predicate TurnsAlike(insts: seq<Inst>, t: Tables)
    requires IsScope(insts) && IsScope(t.optimized)
  {
    forall host: Host, regs: Regs, n: nat, p: nat | p < |t.optimized| ::
      ComputesAlike(host, insts, t, p, Again(host, insts, n, regs), Again(host, t.optimized, n, regs))
  }

  /** What instruction `i` computes, as a term. */
  function Computed(insts: seq<Inst>, i: nat): Term
    requires IsScope(insts) && i < |insts|
  {
    TermAfter(insts[..i + 1], CseScope.Target(insts[i]))
  }

  /** The kept instruction `p` computes the same term. */
  predicate SameTerm(insts: seq<Inst>, t: Tables, p: nat)
    requires IsScope(insts) && IsScope(t.optimized) && p < |t.optimized|
  {
    p < |t.kept| && t.kept[p] < |insts| && Computed(t.optimized, p) == Computed(insts, t.kept[p])
  }

  /** Within one turn the kept instructions compute the same terms. */
  predicate SameTerms(insts: seq<Inst>, t: Tables)
    requires IsScope(insts) && IsScope(t.optimized)
  {
    forall p: nat | p < |t.optimized| :: SameTerm(insts, t, p)
  }

  /** `r` is read first by the next turn, and the outcome leaves another term in it. */
  predicate Loses(insts: seq<Inst>, outcome: seq<Inst>, r: Reg)
    requires IsScope(insts) && IsScope(outcome)
  {
    Exposed(insts, r) && TermAfter(outcome, r) != TermAfter(insts, r)
  }

  // ----- nothing lost: every turn is alike -----

  /** The value of an instruction depends on the registers it reads. */
  lemma SameValue(host: Host, inst: Inst, a: Regs, b: Regs)
    requires !IsBoundary(inst) && forall q | q in ReadRegisters(inst) :: Get(a, q) == Get(b, q)
    ensures KeyValue(host, ExpressionKey(inst).value, a) == KeyValue(host, ExpressionKey(inst).value, b)
  {
    var k := ExpressionKey(inst).value;
    forall j | 0 <= j < |k.sources|
      ensures ValueOf(host, k.op.ty, k.sources[j], a) == ValueOf(host, k.op.ty, k.sources[j], b)
    {
      assert k.sources[j] == inst.operands[j + 1] && OperandRegs(inst.operands[j + 1]) <= ReadRegisters(inst);
    }
    hide ReadRegisters, ValueOf, OperandRegs, ExpressionKey, IsBoundary;
    assert seq<nat>(|k.sources|, j requires 0 <= j < |k.sources| => ValueOf(host, k.op.ty, k.sources[j], a))
        == seq<nat>(|k.sources|, j requires 0 <= j < |k.sources| => ValueOf(host, k.op.ty, k.sources[j], b));
  }

  lemma AppliedTo(host: Host, inst: Inst, regs: Regs, r: Reg)
    requires !IsBoundary(inst)
    ensures Get(Apply(host, inst, regs), r)
         == if CseScope.Target(inst) == r then KeyValue(host, ExpressionKey(inst).value, regs) else Get(regs, r)
  {
    hide KeyValue, ExpressionKey, IsBoundary, CseScope.Target;
  }

  /** What an instruction reads was written before it or is read first. */
  lemma ReadsKnown(insts: seq<Inst>, i: nat, a: Regs, b: Regs, q: Reg)
    requires i < |insts| && AgreeOnExposed(insts, a, b) && q in ReadRegisters(insts[i])
    ensures Defined(insts, i, q) || Get(a, q) == Get(b, q)
  {
    hide ReadRegisters, Defined;
  }

  lemma DefinedBefore(insts: seq<Inst>, i: nat, r: Reg)
    requires IsScope(insts) && i < |insts| && Defined(insts, i + 1, r) && CseScope.Target(insts[i]) != r
    ensures Defined(insts, i, r)
  {
    ScopeWrites(insts, i);
    hide IsBoundary, Destination;
  }

  /** Registers a turn has written, or that agreed before, depend only on what the scope reads first. */
  lemma {:induction false} ExecFrame(host: Host, insts: seq<Inst>, i: nat, a: Regs, b: Regs, r: Reg)
    requires IsScope(insts) && i <= |insts| && AgreeOnExposed(insts, a, b)
    requires Defined(insts, i, r) || Get(a, r) == Get(b, r)
    ensures Get(Exec(host, insts[..i], a), r) == Get(Exec(host, insts[..i], b), r)
    decreases i
  {
    if i == 0 {
      assert insts[..0] == [] && !Defined(insts, 0, r);
    } else {
      var inst, front := insts[i - 1], insts[..i - 1];
      assert !IsBoundary(inst);
      hide *;
      ExecNext(host, insts, i - 1, a);
      ExecNext(host, insts, i - 1, b);
      AppliedTo(host, inst, Exec(host, front, a), r);
      AppliedTo(host, inst, Exec(host, front, b), r);
      if CseScope.Target(inst) == r {
        forall q | q in ReadRegisters(inst) ensures Get(Exec(host, front, a), q) == Get(Exec(host, front, b), q) {
          ReadsKnown(insts, i - 1, a, b, q);
          ExecFrame(host, insts, i - 1, a, b, q);
        }
        SameValue(host, inst, Exec(host, front, a), Exec(host, front, b));
      } else {
        if Defined(insts, i, r) {
          DefinedBefore(insts, i - 1, r);
        }
        ExecFrame(host, insts, i - 1, a, b, r);
      }
    }
  }

  /** As long as nothing is lost, every turn starts from agreeing registers. */
  lemma {:induction false} TurnsAgree(host: Host, insts: seq<Inst>, outcome: seq<Inst>, n: nat, regs: Regs)
    requires IsScope(insts) && IsScope(outcome) && forall r :: !Loses(insts, outcome, r)
    ensures AgreeOnExposed(insts, Again(host, insts, n, regs), Again(host, outcome, n, regs))
  {
    hide Exec, IsScope, Exposed, Defined, TermAfter;
    if n > 0 {
      TurnsAgree(host, insts, outcome, n - 1, regs);
      var a, b := Again(host, insts, n - 1, regs), Again(host, outcome, n - 1, regs);
      forall r | Exposed(insts, r) ensures Get(Exec(host, insts, a), r) == Get(Exec(host, outcome, b), r) {
        assert !Loses(insts, outcome, r);
        EvalAfter(host, outcome, b, r);
        EvalAfter(host, insts, b, r);
        assert insts[..|insts|] == insts;
        ExecFrame(host, insts, |insts|, a, b, r);
      }
    }
  }

  lemma ComputesIsTerm(host: Host, insts: seq<Inst>, i: nat, regs: Regs)
    requires IsScope(insts) && i < |insts|
    ensures Computes(host, insts, i, regs) == Eval(host, regs, Computed(insts, i))
    ensures Computes(host, insts, i, regs) == Get(Exec(host, insts[..i + 1], regs), CseScope.Target(insts[i]))
  {
    ExecNext(host, insts, i, regs);
    EvalAfter(host, insts[..i + 1], regs, CseScope.Target(insts[i]));
    hide Exec, TermAfter, KeyValue;
  }

  /** The same terms, from starts agreeing on what is read first. */
  lemma SameTermsCompute(host: Host, insts: seq<Inst>, t: Tables, p: nat, a: Regs, b: Regs)
    requires IsScope(insts) && IsScope(t.optimized) && SameTerms(insts, t) && p < |t.optimized|
             && AgreeOnExposed(insts, a, b)
    ensures ComputesAlike(host, insts, t, p, a, b)
  {
    assert SameTerm(insts, t, p);
    var i := t.kept[p];
    ComputesIsTerm(host, t.optimized, p, b);
    ComputesIsTerm(host, insts, i, b);
    ComputesIsTerm(host, insts, i, a);
    ScopeWrites(insts, i);
    assert Defined(insts, i + 1, CseScope.Target(insts[i]));
    ExecFrame(host, insts, i + 1, a, b, CseScope.Target(insts[i]));
  }

  /** Within a turn the kept instructions compute alike once the starts agree on what is read first. */
  lemma {:induction false} KeptCompute(host: Host, insts: seq<Inst>, outsideReads: set<Reg>, i: nat, p: nat, a: Regs,
                                       b: Regs)
    requires IsScope(insts) && i <= |insts| && LookUpsClean(insts, outsideReads) && AgreeOnExposed(insts, a, b)
    requires var t := Walked(insts, outsideReads, i); IsScope(t.optimized) && p < |t.optimized|
    ensures ComputesAlike(host, insts, Walked(insts, outsideReads, i), p, a, b)
  {
    hide AgreeOnExposed, LookUpsClean, Exec, KeyValue, ExpressionKey, RewriteSources, IsBoundary, Walked, IsScope;
    KeptCount(insts, outsideReads, i);
    if i > 0 {
      TurnShape(insts, outsideReads, i - 1);
      var t, t' := Walked(insts, outsideReads, i - 1), Walked(insts, outsideReads, i);
      KeptCount(insts, outsideReads, i - 1);
      if p < |t.optimized| {
        KeptCompute(host, insts, outsideReads, i - 1, p, a, b);
        assert t'.optimized[..p] == t.optimized[..p];
      } else {
        assert t'.optimized[..p] == t.optimized;
        KeptNow(host, insts, outsideReads, i - 1, a, b);
      }
    }
  }

  /** A turn keeps the instruction at hand, with its sources rewritten, or nothing. */
  lemma TurnShape(insts: seq<Inst>, outsideReads: set<Reg>, i: nat)
    requires IsScope(insts) && i < |insts|
    ensures var t, t', d := Walked(insts, outsideReads, i), Walked(insts, outsideReads, i + 1),
            CseScope.Target(insts[i]);
            var rewritten := RewriteSources(insts[i], t.aliases);
            && !IsBoundary(insts[i]) && IsScope(t.optimized) && IsScope(t'.optimized) && !IsBoundary(rewritten)
                && IsScope(t.optimized + [rewritten])
            && CseScope.Target(rewritten) == d
            && (d in t'.aliases ==> t'.optimized == t.optimized && t'.kept == t.kept)
            && (d !in t'.aliases ==> t'.optimized == t.optimized + [rewritten] && t'.kept == t.kept + [i])
            && (forall r | r != d :: r in t'.aliases <==> r in t.aliases)
  {
    KeptScope(insts, outsideReads, i);
    KeptScope(insts, outsideReads, i + 1);
    RewrittenInScope(insts, i, Walked(insts, outsideReads, i).aliases);
    ScopeAppend(Walked(insts, outsideReads, i).optimized, RewriteSources(insts[i],
                                                                         Walked(insts, outsideReads, i).aliases));
    hide ExpressionKey, RewriteSources, IsBoundary, Reused, Forgotten, IsScope, Destination;
  }

  lemma KeptScope(insts: seq<Inst>, outsideReads: set<Reg>, i: nat)
    requires IsScope(insts) && i <= |insts|
    ensures IsScope(Walked(insts, outsideReads, i).optimized)
  {
    WalkRight(insts, outsideReads, i);
    hide Walked, IsBoundary, Tracks, Sorted;
  }

  lemma KeptNow(host: Host, insts: seq<Inst>, outsideReads: set<Reg>, i: nat, a: Regs, b: Regs)
    requires IsScope(insts) && i < |insts| && LookUpsClean(insts, outsideReads) && AgreeOnExposed(insts, a, b)
    requires IsScope(Walked(insts, outsideReads, i).optimized)
    ensures var t := Walked(insts, outsideReads, i);
            && ExpressionKey(RewriteSources(insts[i], t.aliases)).Some?
            && KeyValue(host, ExpressionKey(RewriteSources(insts[i], t.aliases)).value, Exec(host, t.optimized, b))
               == Computes(host, insts, i, a)
  {
    var t, stale := Walked(insts, outsideReads, i), StaleAt(insts, outsideReads, i);
    WalkRight(insts, outsideReads, i);
    RewrittenInScope(insts, i, t.aliases);
    hide Walked, AgreeOnExposed, LookUpsClean, Exec, KeyValue, ExpressionKey, RewriteSources, IsBoundary, Sorted,
         Corresponds;
    assert Tracks(insts, i, t.optimized, t.aliases, stale, t.exprs);
    RewrittenValue(host, insts, i, t.aliases, stale, t.exprs, a, b, Exec(host, insts[..i], a),
                   Exec(host, t.optimized, b));
  }

  // ----- something lost: some host tells -----

  lemma {:induction false} ExecConcat(host: Host, a: seq<Inst>, b: seq<Inst>, regs: Regs)
    requires IsScope(a) && IsScope(b)
    ensures IsScope(a + b) && Exec(host, a + b, regs) == Exec(host, b, Exec(host, a, regs))
    decreases |b|
  {
    if b == [] {
      assert a + b == a;
    } else {
      var n := |b| - 1;
      ExecConcat(host, a, b[..n], regs);
      ExecAppend(host, a + b[..n], b[n], regs);
      assert a + b == (a + b[..n]) + [b[n]];
      hide IsBoundary, Apply;
    }
  }

  predicate Writes(insts: seq<Inst>, r: Reg)
    requires IsScope(insts)
  {
    exists i | 0 <= i < |insts| :: CseScope.Target(insts[i]) == r
  }

  /** What is not written is kept. */
  lemma {:induction false} TermSkips(a: seq<Inst>, b: seq<Inst>, r: Reg)
    requires IsScope(a) && IsScope(b) && IsScope(a + b) && !Writes(b, r)
    ensures TermAfter(a + b, r) == TermAfter(a, r)
    decreases |b|
  {
    if b == [] {
      assert a + b == a;
    } else {
      var n := |b| - 1;
      assert (a + b)[..|a + b| - 1] == a + b[..n];
      assert CseScope.Target(b[n]) != r;
      TermSkips(a, b[..n], r);
    }
  }

  /** Neither table mentions the register. */
  ghost predicate Free(aliases: map<Reg, Reg>, exprs: map<Key, Reg>, r: Reg) {
    && r !in aliases && (forall q | q in aliases :: aliases[q] != r)
    && (forall k | k in exprs :: exprs[k] != r && !KeyReads(k, r))
  }

  lemma FreeNext(aliases: map<Reg, Reg>, exprs: map<Key, Reg>, r: Reg, d: Reg, key: Key)
    requires Free(aliases, exprs, r) && d != r && !KeyReads(key, r)
    ensures var known, others := aliases - {d}, Forgotten(exprs, d);
            && Free(known, others, r) && Free(known, others[key := d], r)
            && (key in others ==> key in exprs && Free(known[d := exprs[key]], others, r))
  {
    hide KeyReads;
  }

  /** Up to the first reader nothing the walk holds mentions the register. */
  ghost predicate Unmentioned(t: Tables, r: Reg)
    requires IsScope(t.optimized)
  {
    Free(t.aliases, t.exprs, r) && !Writes(t.optimized, r)
  }

  lemma RewrittenKeeps(inst: Inst, aliases: map<Reg, Reg>, m: nat, r: Reg)
    requires r !in aliases && m < |inst.operands| && RegOf(inst.operands[m]) == Some(r)
    ensures RegOf(RewriteSources(inst, aliases).operands[m]) == Some(r)
  {
  }

  /** An instruction that does not read `r` does not start to. */
  lemma RewrittenStill(inst: Inst, aliases: map<Reg, Reg>, stale: set<Reg>, insts: seq<Inst>, i: nat,
                       exprs: map<Key, Reg>, r: Reg)
    requires i < |insts| && insts[i] == inst && !IsBoundary(inst) && r !in ReadRegisters(inst)
    requires Sorted(insts, i, aliases, stale, exprs) && forall q | q in aliases :: aliases[q] != r
    ensures ExpressionKey(RewriteSources(inst, aliases)).Some?
    ensures !KeyReads(ExpressionKey(RewriteSources(inst, aliases)).value, r)
  {
    var k := ExpressionKey(RewriteSources(inst, aliases)).value;
    forall j | 0 <= j < |k.sources| ensures r !in OperandRegs(k.sources[j]) {
      assert k.sources[j] == RewriteOperand(inst.operands[j + 1], aliases);
      assert OperandRegs(inst.operands[j + 1]) <= ReadRegisters(inst);
      var reference := RegOf(inst.operands[j + 1]);
      if reference.Some? {
        ReadsDirectly(insts, i, aliases, stale, exprs, reference.value);
      }
    }
    NotMentioned(k.sources, |k.sources|, r);
  }

  /** No instruction in front of `j` reads or writes `r`. */
  predicate Untouched(insts: seq<Inst>, j: nat, r: Reg)
    requires IsScope(insts) && j <= |insts|
  {
    forall i | 0 <= i < j :: r !in ReadRegisters(insts[i]) && CseScope.Target(insts[i]) != r
  }

  lemma {:induction false} WalkUnmentioned(insts: seq<Inst>, outsideReads: set<Reg>, i: nat, r: Reg)
    requires IsScope(insts) && i <= |insts| && Untouched(insts, i, r)
    ensures IsScope(Walked(insts, outsideReads, i).optimized) && Unmentioned(Walked(insts, outsideReads, i), r)
  {
    hide Turned, Unmentioned, Sorted, ExpressionKey, RewriteSources, IsBoundary, KeyReads, ReadRegisters, IsScope;
    KeptScope(insts, outsideReads, i);
    if i == 0 {
      NothingMentioned(r);
    } else {
      WalkUnmentioned(insts, outsideReads, i - 1, r);
      StillUnread(insts, outsideReads, i - 1, r);
      TurnedUnmentioned(insts, outsideReads, i - 1, Walked(insts, outsideReads, i - 1),
                        StaleAt(insts, outsideReads, i - 1), r);
    }
  }

  lemma NothingMentioned(r: Reg)
    ensures IsScope([]) && Unmentioned(Tables([], [], map[], map[], map[]), r)
  {
  }

  lemma StillUnread(insts: seq<Inst>, outsideReads: set<Reg>, i: nat, r: Reg)
    requires IsScope(insts) && i < |insts| && r !in ReadRegisters(insts[i])
    requires IsScope(Walked(insts, outsideReads, i).optimized) && Unmentioned(Walked(insts, outsideReads, i), r)
    ensures var t := Walked(insts, outsideReads, i);
            && Sorted(insts, i, t.aliases, StaleAt(insts, outsideReads, i), t.exprs)
            && ExpressionKey(RewriteSources(insts[i], t.aliases)).Some?
            && !KeyReads(ExpressionKey(RewriteSources(insts[i], t.aliases)).value, r)
  {
    WalkRight(insts, outsideReads, i);
    assert !IsBoundary(insts[i]);
    hide Walked, Sorted, ExpressionKey, RewriteSources, IsBoundary, KeyReads, ReadRegisters, Tracks;
    var t := Walked(insts, outsideReads, i);
    RewrittenStill(insts[i], t.aliases, StaleAt(insts, outsideReads, i), insts, i, t.exprs, r);
  }

  lemma TurnedUnmentioned(insts: seq<Inst>, outsideReads: set<Reg>, i: nat, t: Tables, stale: set<Reg>, r: Reg)
    requires IsScope(insts) && i < |insts| && IsScope(t.optimized) && Unmentioned(t, r)
    requires IsScope(Turned(insts, outsideReads, i, t).optimized)
    requires Sorted(insts, i, t.aliases, stale, t.exprs) && CseScope.Target(insts[i]) != r
    requires ExpressionKey(RewriteSources(insts[i], t.aliases)).Some?
    requires !KeyReads(ExpressionKey(RewriteSources(insts[i], t.aliases)).value, r)
    ensures Unmentioned(Turned(insts, outsideReads, i, t), r)
  {
    var d, rewritten := CseScope.Target(insts[i]), RewriteSources(insts[i], t.aliases);
    var key := ExpressionKey(rewritten).value;
    RewrittenInScope(insts, i, t.aliases);
    if key in Forgotten(t.exprs, d) {
      PriorIsDirect(insts, i, t.aliases, stale, t.exprs, key, d);
    }
    ScopeAppend(t.optimized, rewritten);
    WritesNext(t.optimized, rewritten, r);
    FreeNext(t.aliases, t.exprs, r, d, key);
    hide ExpressionKey, RewriteSources, IsBoundary, ReadAfter, ResolveAlias, KeyReads, Sorted, Destination, Forgotten,
         IsScope, Writes, CseScope.Target, Free;
  }

  lemma WritesNext(insts: seq<Inst>, inst: Inst, r: Reg)
    requires IsScope(insts) && IsScope(insts + [inst]) && !IsBoundary(inst)
    ensures Writes(insts + [inst], r) <==> Writes(insts, r) || CseScope.Target(inst) == r
  {
    hide IsBoundary, CseScope.Target;
    var more := insts + [inst];
    assert forall i | 0 <= i < |insts| :: more[i] == insts[i];
    assert more[|insts|] == inst;
  }

  /** Later turns only add to what is kept. */
  lemma {:induction false} WalkExtends(insts: seq<Inst>, outsideReads: set<Reg>, i: nat, n: nat)
    requires IsScope(insts) && i <= n <= |insts|
    ensures Walked(insts, outsideReads, i).optimized <= Walked(insts, outsideReads, n).optimized
    ensures Walked(insts, outsideReads, i).kept <= Walked(insts, outsideReads, n).kept
    decreases n
  {
    hide *;
    if i < n {
      WalkExtends(insts, outsideReads, i, n - 1);
      TurnShape(insts, outsideReads, n - 1);
    }
  }

  lemma FirstReader(insts: seq<Inst>, r: Reg) returns (j: nat)
    requires IsScope(insts) && Exposed(insts, r)
    ensures j < |insts| && r in ReadRegisters(insts[j]) && Untouched(insts, j, r)
  {
    hide ReadRegisters, IsBoundary;
    var last: nat :| last < |insts| && r in ReadRegisters(insts[last]) && !Defined(insts, last, r);
    j := 0;
    while r !in ReadRegisters(insts[j])
      invariant j <= last && forall i | 0 <= i < j :: r !in ReadRegisters(insts[i])
      decreases last - j
    {
      j := j + 1;
    }
    forall i | 0 <= i < j ensures CseScope.Target(insts[i]) != r {
      ScopeWrites(insts, i);
    }
  }

  lemma ReaderOperand(inst: Inst, r: Reg) returns (m: nat)
    requires !IsBoundary(inst) && r in ReadRegisters(inst)
    ensures 1 <= m < |inst.operands| && RegOf(inst.operands[m]) == Some(r)
  {
    m :| 1 <= m < |inst.operands| && r in OperandRegs(inst.operands[m]);
  }

  /** An instruction whose key is not held stays. */
  lemma TurnKeeps(insts: seq<Inst>, outsideReads: set<Reg>, i: nat)
    requires IsScope(insts) && i < |insts|
    requires var t := Walked(insts, outsideReads, i);
             && ExpressionKey(RewriteSources(insts[i], t.aliases)).Some?
             && ExpressionKey(RewriteSources(insts[i], t.aliases)).value !in t.exprs
    ensures var t, t' := Walked(insts, outsideReads, i), Walked(insts, outsideReads, i + 1);
            t'.optimized == t.optimized + [RewriteSources(insts[i], t.aliases)] && t'.kept == t.kept + [i]
  {
    hide ExpressionKey, RewriteSources, IsBoundary, ReadAfter, ResolveAlias, KeyReads;
  }

  lemma RewrittenReads(inst: Inst, aliases: map<Reg, Reg>, m: nat, r: Reg)
    requires !IsBoundary(inst) && 1 <= m < |inst.operands| && RegOf(inst.operands[m]) == Some(r) && r !in aliases
    ensures var rewritten := RewriteSources(inst, aliases);
            && ExpressionKey(rewritten).Some? && KeyReads(ExpressionKey(rewritten).value, r)
            && RegOf(rewritten.operands[m]) == Some(r)
  {
    RewrittenKeeps(inst, aliases, m, r);
    var rewritten := RewriteSources(inst, aliases);
    var key := ExpressionKey(rewritten).value;
    assert key.sources[m - 1] == rewritten.operands[m];
    assert r in OperandRegs(key.sources[m - 1]);
  }

  /** The first reader stays, and it still reads the register. */
  lemma FirstReaderKept(insts: seq<Inst>, outsideReads: set<Reg>, j: nat, r: Reg) returns (p: nat, m: nat)
    requires IsScope(insts) && j < |insts| && r in ReadRegisters(insts[j]) && Untouched(insts, j, r)
    requires IsScope(Outcome(insts, outsideReads))
    ensures var t := Walked(insts, outsideReads, |insts|);
            && p < |t.optimized| && p < |t.kept| && t.kept[p] == j && !Writes(t.optimized[..p], r)
            && t.optimized[p].op == insts[j].op && |t.optimized[p].operands| == |insts[j].operands|
            && CseScope.Target(t.optimized[p]) == CseScope.Target(insts[j])
            && 1 <= m < |insts[j].operands|
            && RegOf(insts[j].operands[m]) == Some(r) && RegOf(t.optimized[p].operands[m]) == Some(r)
  {
    var t := Walked(insts, outsideReads, j);
    WalkUnmentioned(insts, outsideReads, j, r);
    KeptCount(insts, outsideReads, j);
    RewrittenInScope(insts, j, t.aliases);
    m := ReaderOperand(insts[j], r);
    hide ExpressionKey, RewriteSources, IsBoundary, KeyReads, Walked, ReadRegisters, Destination, RegOf;
    RewrittenReads(insts[j], t.aliases, m, r);
    TurnKeeps(insts, outsideReads, j);
    WalkExtends(insts, outsideReads, j + 1, |insts|);
    p := |t.optimized|;
    assert Walked(insts, outsideReads, |insts|).optimized[..p] == t.optimized;
  }

  /** Instructions of one shape that find different terms in one operand compute different terms. */
  lemma OperandTells(a: seq<Inst>, x: Inst, b: seq<Inst>, y: Inst, m: nat, r: Reg)
    requires IsScope(a) && IsScope(b) && !IsBoundary(x) && !IsBoundary(y) && IsScope(a + [x]) && IsScope(b + [y])
    requires 1 <= m < |x.operands| && |x.operands| == |y.operands| && x.op == y.op
    requires CseScope.Target(x) == CseScope.Target(y)
    requires RegOf(x.operands[m]) == RegOf(y.operands[m]) == Some(r) && TermAfter(a, r) != TermAfter(b, r)
    ensures TermAfter(a + [x], CseScope.Target(x)) != TermAfter(b + [y], CseScope.Target(x))
  {
    LastTerm(a, x, m, r);
    LastTerm(b, y, m, r);
    hide TermAfter, IsBoundary, RegOf, CseScope.Target;
  }

  /** The term an instruction computes has the term of each of its operands. */
  lemma LastTerm(a: seq<Inst>, x: Inst, m: nat, r: Reg)
    requires IsScope(a) && !IsBoundary(x) && IsScope(a + [x]) && 1 <= m < |x.operands|
             && RegOf(x.operands[m]) == Some(r)
    ensures var t := TermAfter(a + [x], CseScope.Target(x));
            t.App? && m - 1 < |t.args| && t.args[m - 1] == TermAfter(a, r)
  {
    assert (a + [x])[..|a|] == a && (a + [x])[|a|] == x;
    var k := ExpressionKey(x).value;
    assert k.sources[m - 1] == x.operands[m];
    hide IsBoundary;
  }

  /** What instruction `i` computes in the second turn, as a term. */
  lemma SecondTurn(host: Host, insts: seq<Inst>, i: nat, regs: Regs)
    requires IsScope(insts) && i < |insts|
    ensures IsScope(insts + insts[..i]) && IsScope(insts + insts[..i] + [insts[i]])
    ensures Computes(host, insts, i, Again(host, insts, 1, regs))
         == Eval(host, regs, TermAfter(insts + insts[..i] + [insts[i]], CseScope.Target(insts[i])))
  {
    var front := insts + insts[..i];
    ExecConcat(host, insts, insts[..i], regs);
    ExecAppend(host, front, insts[i], regs);
    EvalAfter(host, front + [insts[i]], regs, CseScope.Target(insts[i]));
    assert Again(host, insts, 0, regs) == regs;
    assert Again(host, insts, 1, regs) == Exec(host, insts, regs);
    hide Exec, TermAfter, IsBoundary, KeyValue, ExpressionKey, Again;
  }

  /** A lost register gives the difference away in the second turn. */
  lemma LossTells(insts: seq<Inst>, outsideReads: set<Reg>, r: Reg)
    requires IsScope(insts) && IsScope(Outcome(insts, outsideReads)) && Loses(insts, Outcome(insts, outsideReads), r)
    ensures !TurnsAlike(insts, Walked(insts, outsideReads, |insts|))
  {
    var t := Walked(insts, outsideReads, |insts|);
    var outcome := t.optimized;
    hide ReadRegisters, IsBoundary, ExpressionKey, TermAfter, Exec, Walked, Dropped, RegOf, CseScope.Target, KeyValue,
         Again;
    var j := FirstReader(insts, r);
    var p, m := FirstReaderKept(insts, outsideReads, j, r);
    var front, front' := insts + insts[..j], outcome + outcome[..p];
    TermSkips(insts, insts[..j], r);
    TermSkips(outcome, outcome[..p], r);
    OperandTells(front, insts[j], front', outcome[p], m, r);
    var a, b := TermAfter(front + [insts[j]], CseScope.Target(insts[j])),
        TermAfter(front' + [outcome[p]], CseScope.Target(insts[j]));
    TermsAreSmall(front + [insts[j]], CseScope.Target(insts[j]));
    TermsAreSmall(front' + [outcome[p]], CseScope.Target(insts[j]));
    TermsTellApart(a, b);
    var host: Host, regs: Regs :| Eval(host, regs, a) != Eval(host, regs, b);
    SecondTurn(host, insts, j, regs);
    SecondTurn(host, outcome, p, regs);
    assert !ComputesAlike(host, insts, t, p, Again(host, insts, 1, regs), Again(host, outcome, 1, regs));
  }

  /** Instructions that always compute alike compute the same term. */
  lemma AlwaysAlike(insts: seq<Inst>, t: Tables, p: nat)
    requires IsScope(insts) && IsScope(t.optimized) && p < |t.optimized|
    requires forall host: Host, regs: Regs :: ComputesAlike(host, insts, t, p, regs, regs)
    ensures SameTerm(insts, t, p)
  {
    assert ComputesAlike(NoHost(), insts, t, p, map[], map[]);
    var i := t.kept[p];
    TermsAreSmall(t.optimized[..p + 1], CseScope.Target(t.optimized[p]));
    TermsAreSmall(insts[..i + 1], CseScope.Target(insts[i]));
    hide IsBoundary, Exec, TermAfter, Computes, IsScope, CseScope.Target;
    forall host: Host, regs: Regs
      ensures Eval(host, regs, Computed(t.optimized, p)) == Eval(host, regs, Computed(insts, i))
    {
      assert ComputesAlike(host, insts, t, p, regs, regs);
      ComputesIsTerm(host, t.optimized, p, regs);
      ComputesIsTerm(host, insts, i, regs);
    }
    TermsTellApart(Computed(t.optimized, p), Computed(insts, i));
  }

  /** Different terms in the first turn give the difference away at once. */
  lemma AlikeSameTerms(insts: seq<Inst>, t: Tables)
    requires IsScope(insts) && IsScope(t.optimized) && TurnsAlike(insts, t)
    ensures SameTerms(insts, t)
  {
    hide IsBoundary, Exec, ComputesAlike, SameTerm, IsScope;
    forall p: nat | p < |t.optimized| ensures SameTerm(insts, t, p) {
      forall host: Host, regs: Regs ensures ComputesAlike(host, insts, t, p, regs, regs) {
        assert ComputesAlike(host, insts, t, p, Again(host, insts, 0, regs), Again(host, t.optimized, 0, regs));
      }
      AlwaysAlike(insts, t, p);
    }
  }

  function NoHost(): Host {
    Host((_, _) => 0, (_, _, _) => false, _ => 0, (_, _) => 0)
  }

  /** Where no self-reading expression is looked up, one turn computes the same terms. */
  lemma CleanSameTerms(insts: seq<Inst>, outsideReads: set<Reg>)
    requires IsScope(insts) && IsScope(Outcome(insts, outsideReads)) && LookUpsClean(insts, outsideReads)
    ensures SameTerms(insts, Walked(insts, outsideReads, |insts|))
  {
    var t := Walked(insts, outsideReads, |insts|);
    hide IsBoundary, ComputesAlike, SameTerm, IsScope, Walked, LookUpsClean, Exposed;
    forall p: nat | p < |t.optimized| ensures SameTerm(insts, t, p) {
      forall host: Host, regs: Regs ensures ComputesAlike(host, insts, t, p, regs, regs) {
        KeptCompute(host, insts, outsideReads, |insts|, p, regs, regs);
      }
      AlwaysAlike(insts, t, p);
    }
  }

  /**
   * A scope may be repeated on every host iff one turn computes the same terms and loses nothing the next reads first.
   */
  lemma RepeatedExactly(insts: seq<Inst>, outsideReads: set<Reg>)
    requires IsScope(insts)
    ensures IsScope(Outcome(insts, outsideReads))
    ensures TurnsAlike(insts, Walked(insts, outsideReads, |insts|)) <==>
              SameTerms(insts, Walked(insts, outsideReads, |insts|))
                  && forall r :: !Loses(insts, Outcome(insts, outsideReads), r)
    ensures LookUpsClean(insts, outsideReads) ==> SameTerms(insts, Walked(insts, outsideReads, |insts|))
  {
    OutcomeRight(insts, outsideReads);
    hide ReadRegisters, IsBoundary, Exec, Walked, Loses, LookUpsClean, ComputesAlike, SameTerms, TermAfter;
    var t := Walked(insts, outsideReads, |insts|);
    if LookUpsClean(insts, outsideReads) {
      CleanSameTerms(insts, outsideReads);
    }
    if TurnsAlike(insts, t) {
      AlikeSameTerms(insts, t);
      forall r ensures !Loses(insts, t.optimized, r) {
        if Loses(insts, t.optimized, r) {
          LossTells(insts, outsideReads, r);
        }
      }
    } else if SameTerms(insts, t) && forall r :: !Loses(insts, t.optimized, r) {
      forall host: Host, regs: Regs, n: nat, p: nat | p < |t.optimized|
        ensures ComputesAlike(host, insts, t, p, Again(host, insts, n, regs), Again(host, t.optimized, n, regs))
      {
        TurnsAgree(host, insts, t.optimized, n, regs);
        SameTermsCompute(host, insts, t, p, Again(host, insts, n, regs), Again(host, t.optimized, n, regs));
      }
    }
  }

  /** A register the outcome writes nowhere is lost if it is dropped and read first. */
  lemma UnwrittenIsLost(insts: seq<Inst>, outsideReads: set<Reg>, r: Reg)
    requires IsScope(insts) && r in Dropped(insts, outsideReads) && Exposed(insts, r)
    ensures IsScope(Outcome(insts, outsideReads))
    ensures !Writes(Outcome(insts, outsideReads), r) ==> Loses(insts, Outcome(insts, outsideReads), r)
  {
    OutcomeRight(insts, outsideReads);
    var outcome := Outcome(insts, outsideReads);
    hide Outcome, Dropped;
    if !Writes(outcome, r) {
      TermUnwritten(outcome, r);
      WrittenIsApplied(insts, |insts|, r);
      assert insts[..|insts|] == insts;
    }
  }

  lemma {:induction false} WrittenIsApplied(insts: seq<Inst>, n: nat, r: Reg)
    requires IsScope(insts) && n <= |insts| && Defined(insts, n, r)
    ensures TermAfter(insts[..n], r).App?
  {
    assert insts[..n][..n - 1] == insts[..n - 1];
    ScopeWrites(insts, n - 1);
    if CseScope.Target(insts[n - 1]) != r {
      WrittenIsApplied(insts, n - 1, r);
    }
  }

  // ----- what one sound turn keeps -----

  /** The optimized scope computes the same terms and loses nothing. */
  ghost predicate Sound(insts: seq<Inst>, outsideReads: set<Reg>)
    requires IsScope(insts)
  {
    && IsScope(Outcome(insts, outsideReads))
    && SameTerms(insts, Walked(insts, outsideReads, |insts|))
    && forall r :: !Loses(insts, Outcome(insts, outsideReads), r)
  }

  /** What is left unwritten at the end of the scope and not read by it first either. */
  function Unwritten(insts: seq<Inst>, outsideReads: set<Reg>): set<Reg>
    requires IsScope(insts)
  {
    set r | r in Dropped(insts, outsideReads) && !Exposed(insts, r)
  }

  /** The last writer of `r` among the first `i` instructions was kept, as number `p`. */
  ghost predicate KeptWriter(insts: seq<Inst>, t: Tables, i: nat, r: Reg, p: nat)
    requires IsScope(insts) && IsScope(t.optimized) && i <= |insts|
  {
    && p < |t.optimized| && p < |t.kept| && t.kept[p] < i
    && TermAfter(t.optimized, r) == Computed(t.optimized, p)
    && TermAfter(insts[..i], r) == Computed(insts, t.kept[p])
  }

  lemma TermNext(insts: seq<Inst>, inst: Inst, r: Reg)
    requires IsScope(insts) && IsScope(insts + [inst]) && !IsBoundary(inst) && CseScope.Target(inst) != r
    ensures TermAfter(insts + [inst], r) == TermAfter(insts, r)
  {
    assert (insts + [inst])[..|insts|] == insts;
  }

  lemma WriterKept(insts: seq<Inst>, t: Tables, i: nat, inst: Inst, r: Reg, p: nat)
    requires IsScope(insts) && i < |insts| && IsScope(t.optimized) && !IsBoundary(inst) && IsScope(t.optimized + [inst])
    requires KeptWriter(insts, t, i, r, p) && CseScope.Target(insts[i]) == CseScope.Target(inst) != r
    ensures KeptWriter(insts, t.(optimized := t.optimized + [inst], kept := t.kept + [i]), i + 1, r, p)
    ensures KeptWriter(insts, t, i + 1, r, p)
  {
    assert insts[..i + 1] == insts[..i] + [insts[i]];
    assert !IsBoundary(insts[i]) && IsScope(insts[..i] + [insts[i]]);
    TermNext(insts[..i], insts[i], r);
    TermNext(t.optimized, inst, r);
    assert (t.optimized + [inst])[..p + 1] == t.optimized[..p + 1];
    hide TermAfter, IsBoundary;
  }

  lemma WriterNow(insts: seq<Inst>, t: Tables, i: nat, inst: Inst)
    requires IsScope(insts) && i < |insts| && IsScope(t.optimized) && !IsBoundary(inst) && IsScope(t.optimized + [inst])
    requires |t.optimized| == |t.kept| && CseScope.Target(insts[i]) == CseScope.Target(inst)
    ensures KeptWriter(insts, t.(optimized := t.optimized + [inst], kept := t.kept + [i]), i + 1, CseScope.Target(inst),
                       |t.kept|)
  {
    assert (t.optimized + [inst])[..|t.kept| + 1] == t.optimized + [inst];
    hide TermAfter, IsBoundary;
  }

  /** A register that is not dropped was last written by an instruction that was kept. */
  lemma {:induction false} NotDropped(insts: seq<Inst>, outsideReads: set<Reg>, i: nat, r: Reg) returns (p: nat)
    requires IsScope(insts) && i <= |insts| && Defined(insts, i, r) && r !in Walked(insts, outsideReads, i).aliases
    ensures IsScope(Walked(insts, outsideReads, i).optimized)
    ensures KeptWriter(insts, Walked(insts, outsideReads, i), i, r, p)
  {
    hide Walked, IsBoundary, RewriteSources, TermAfter, KeptWriter, Destination, IsScope, CseScope.Target;
    TurnShape(insts, outsideReads, i - 1);
    KeptCount(insts, outsideReads, i - 1);
    DefinedEarlier(insts, i - 1, r);
    var t, t' := Walked(insts, outsideReads, i - 1), Walked(insts, outsideReads, i);
    var rewritten := RewriteSources(insts[i - 1], t.aliases);
    var more := t.(optimized := t.optimized + [rewritten], kept := t.kept + [i - 1]);
    if CseScope.Target(insts[i - 1]) == r {
      WriterNow(insts, t, i - 1, rewritten);
      p := |t.kept|;
      WriterOnly(insts, more, t', i, r, p);
    } else {
      p := NotDropped(insts, outsideReads, i - 1, r);
      WriterKept(insts, t, i - 1, rewritten, r, p);
      WriterOnly(insts, if t'.kept == t.kept then t else more, t', i, r, p);
    }
  }

  lemma DefinedEarlier(insts: seq<Inst>, i: nat, r: Reg)
    requires IsScope(insts) && i < |insts| && Defined(insts, i + 1, r)
    ensures CseScope.Target(insts[i]) != r ==> Defined(insts, i, r)
  {
    ScopeWrites(insts, i);
  }

  /** Only what was kept matters. */
  lemma WriterOnly(insts: seq<Inst>, t: Tables, t': Tables, i: nat, r: Reg, p: nat)
    requires IsScope(insts) && IsScope(t.optimized) && i <= |insts| && KeptWriter(insts, t, i, r, p)
    requires t'.optimized == t.optimized && t'.kept == t.kept
    ensures KeptWriter(insts, t', i, r, p)
  {
  }

  /** Where one turn computes the same terms, only a dropped register can be lost. */
  lemma KeptTerm(insts: seq<Inst>, outside: set<Reg>, r: Reg)
    requires IsScope(insts) && IsScope(Outcome(insts, outside)) && r !in Dropped(insts, outside)
    requires SameTerms(insts, Walked(insts, outside, |insts|))
    ensures TermAfter(insts, r) == TermAfter(Outcome(insts, outside), r)
  {
    assert insts[..|insts|] == insts;
    hide TermAfter, IsScope, Walked, Computed, Defined;
    if Defined(insts, |insts|, r) {
      var p := NotDropped(insts, outside, |insts|, r);
      assert SameTerm(insts, Walked(insts, outside, |insts|), p);
    } else {
      NeverWritten(insts, outside, |insts|, r);
      TermUnwritten(insts, r);
      TermUnwritten(Outcome(insts, outside), r);
    }
  }

  lemma TermUnwritten(insts: seq<Inst>, r: Reg)
    requires IsScope(insts) && !Writes(insts, r)
    ensures TermAfter(insts, r) == Start(r)
  {
    assert [] + insts == insts;
    TermSkips([], insts, r);
  }

  /** A sound scope preserves every register but those it leaves unwritten. */
  lemma SoundPreserves(insts: seq<Inst>, outsideReads: set<Reg>)
    requires IsScope(insts) && Sound(insts, outsideReads)
    ensures Preserves(insts, Outcome(insts, outsideReads), Unwritten(insts, outsideReads))
  {
    var outcome := Outcome(insts, outsideReads);
    assert insts[..|insts|] == insts;
    hide IsBoundary, TermAfter, Exec, Walked, Computed, Destination;
    forall host: Host, a, b, r | AgreeOnExposed(insts, a, b) && r !in Unwritten(insts, outsideReads)
                                 && (Defined(insts, |insts|, r) || Get(a, r) == Get(b, r))
      ensures Get(Exec(host, insts, a), r) == Get(Exec(host, outcome, b), r)
    {
      SameTermAfter(insts, outsideReads, r);
      EvalAfter(host, outcome, b, r);
      EvalAfter(host, insts, b, r);
      ExecFrame(host, insts, |insts|, a, b, r);
    }
  }

  lemma SameTermAfter(insts: seq<Inst>, outsideReads: set<Reg>, r: Reg)
    requires IsScope(insts) && Sound(insts, outsideReads) && r !in Unwritten(insts, outsideReads)
    ensures TermAfter(insts, r) == TermAfter(Outcome(insts, outsideReads), r)
  {
    if r in Dropped(insts, outsideReads) {
      assert !Loses(insts, Outcome(insts, outsideReads), r);
    } else {
      KeptTerm(insts, outsideReads, r);
    }
  }

  lemma NeverTarget(insts: seq<Inst>, r: Reg)
    requires IsScope(insts) && !Defined(insts, |insts|, r)
    ensures !Writes(insts, r) && forall i | 0 <= i < |insts| :: CseScope.Target(insts[i]) != r
  {
    forall i | 0 <= i < |insts| ensures CseScope.Target(insts[i]) != r {
      ScopeWrites(insts, i);
    }
  }

  lemma NeverWritten(insts: seq<Inst>, outsideReads: set<Reg>, i: nat, r: Reg)
    requires IsScope(insts) && i <= |insts| && !Defined(insts, |insts|, r)
    ensures !Writes(insts, r)
    ensures IsScope(Walked(insts, outsideReads, i).optimized) && !Writes(Walked(insts, outsideReads, i).optimized, r)
  {
    hide *;
    NeverTarget(insts, r);
    NotYetWritten(insts, outsideReads, i, r);
  }

  lemma NothingWritten(insts: seq<Inst>, outsideReads: set<Reg>, r: Reg)
    requires IsScope(insts)
    ensures Walked(insts, outsideReads, 0).optimized == [] && IsScope([]) && !Writes([], r)
  {
  }

  // ----- scopes that write no register twice -----

  predicate WritesOnce(insts: seq<Inst>)
    requires IsScope(insts)
  {
    forall i, j | 0 <= i < j < |insts| :: CseScope.Target(insts[i]) != CseScope.Target(insts[j])
  }

  /** What the scope has not written yet the outcome has not either. */
  lemma {:induction false} NotYetWritten(insts: seq<Inst>, outsideReads: set<Reg>, i: nat, r: Reg)
    requires IsScope(insts) && i <= |insts| && forall j | 0 <= j < i :: CseScope.Target(insts[j]) != r
    ensures IsScope(Walked(insts, outsideReads, i).optimized) && !Writes(Walked(insts, outsideReads, i).optimized, r)
  {
    hide *;
    if i == 0 {
      NothingWritten(insts, outsideReads, r);
    } else {
      NotYetWritten(insts, outsideReads, i - 1, r);
      TurnShape(insts, outsideReads, i - 1);
      var t := Walked(insts, outsideReads, i - 1);
      WritesNext(t.optimized, RewriteSources(insts[i - 1], t.aliases), r);
    }
  }

  /** A register whose one write is removed is written nowhere in the outcome. */
  lemma {:induction false} DroppedUnwritten(insts: seq<Inst>, outsideReads: set<Reg>, i: nat, r: Reg)
    requires IsScope(insts) && WritesOnce(insts) && i <= |insts| && r in Walked(insts, outsideReads, i).aliases
    ensures IsScope(Walked(insts, outsideReads, i).optimized) && !Writes(Walked(insts, outsideReads, i).optimized, r)
  {
    hide *;
    NothingAliased(insts, outsideReads);
    if i > 0 {
      TurnShape(insts, outsideReads, i - 1);
      var t := Walked(insts, outsideReads, i - 1);
      if CseScope.Target(insts[i - 1]) == r {
        OnlyWriter(insts, i - 1, r);
        NotYetWritten(insts, outsideReads, i - 1, r);
      } else {
        DroppedUnwritten(insts, outsideReads, i - 1, r);
        WritesNext(t.optimized, RewriteSources(insts[i - 1], t.aliases), r);
      }
    }
  }

  lemma OnlyWriter(insts: seq<Inst>, i: nat, r: Reg)
    requires IsScope(insts) && WritesOnce(insts) && i < |insts| && CseScope.Target(insts[i]) == r
    ensures forall j | 0 <= j < i :: CseScope.Target(insts[j]) != r
  {
  }

  lemma NothingAliased(insts: seq<Inst>, outsideReads: set<Reg>)
    requires IsScope(insts)
    ensures Walked(insts, outsideReads, 0).aliases == map[]
  {
  }

  /** In such a scope, with no reuse of self-reading expressions: it is sound iff it reads no dropped register first. */
  lemma SoundExactly(insts: seq<Inst>, outsideReads: set<Reg>)
    requires IsScope(insts) && LookUpsClean(insts, outsideReads) && WritesOnce(insts)
    ensures Sound(insts, outsideReads) <==> forall r | r in Dropped(insts, outsideReads) :: !Exposed(insts, r)
  {
    RepeatedExactly(insts, outsideReads);
    OutcomeRight(insts, outsideReads);
    hide LookUpsClean, WritesOnce, TurnsAlike, SameTerms, Exposed, TermAfter, Defined, Walked, IsScope;
    var outcome := Outcome(insts, outsideReads);
    forall r ensures Loses(insts, outcome, r) <==> r in Dropped(insts, outsideReads) && Exposed(insts, r) {
      if r in Dropped(insts, outsideReads) {
        if Exposed(insts, r) {
          DroppedUnwritten(insts, outsideReads, |insts|, r);
          UnwrittenIsLost(insts, outsideReads, r);
        }
      } else {
        KeptTerm(insts, outsideReads, r);
      }
    }
  }
}
