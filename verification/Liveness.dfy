/** Live ranges per definition, merged into one interval per register. */
module Liveness {
  import opened Wrappers
  import opened Lists
  import opened Ptx

  predicate WritesFirstOperand(b: Base) {
    b in {Ld, Mov, Add, Sub, Mul, Mad, And, Or, Xor, Shl, Shr, Cvt, Fma}
  }

  /** `_dest_register`. */
  function DestRegister(inst: Inst): Option<Reg> {
    if WritesFirstOperand(inst.op.base) && inst.operands != [] && inst.operands[0].RegOp?
        then Some(inst.operands[0].reg)
    else None
  }

  function OperandReg(o: Operand): seq<Reg> {
    match o
    case RegOp(r) => [r]
    case Addr(r) => [r]
    case _ => []
  }

  function RegsFrom(operands: seq<Operand>, k: nat): (rs: seq<Reg>)
    requires k <= |operands|
    ensures forall r :: r in rs <==> exists j | k <= j < |operands| :: r in OperandRegs(operands[j])
    decreases |operands| - k
  {
    if k == |operands| then [] else OperandReg(operands[k]) + RegsFrom(operands, k + 1)
  }

  /** `_source_registers`. */
  function SourceRegisters(inst: Inst): (rs: seq<Reg>)
  {
    var firstSource := if (WritesFirstOperand(inst.op.base) || inst.op.base == Setp) && inst.operands != [] then 1
        else 0;
    (if inst.guard.Some? then [inst.guard.value] else []) + RegsFrom(inst.operands, firstSource)
  }

  /** Outside `fma` liveness sees the reads the other passes see. */
  lemma SourcesAreReads(inst: Inst, r: Reg)
    requires inst.op.base != Fma
    ensures r in SourceRegisters(inst) <==> r in ReadRegisters(inst)
    ensures DestRegister(inst).Some? ==> Destination(inst) == DestRegister(inst)
    ensures Destination(inst).Some? && inst.op.base != Setp ==> DestRegister(inst) == Destination(inst)
  {
  }

  predicate IsDef(items: seq<Item>, i: nat, r: Reg) {
    i < |items| && items[i].Code? && DestRegister(items[i].inst) == Some(r)
  }

  predicate IsUse(items: seq<Item>, i: nat, r: Reg) {
    i < |items| && items[i].Code? && r in SourceRegisters(items[i].inst)
  }

  type Occurrences = map<Reg, seq<nat>>

  function OccurrencesOf(m: Occurrences, r: Reg): seq<nat> {
    if r in m then m[r] else []
  }

  /** `setdefault(r, []).append(i)` */
  function Note(m: Occurrences, r: Reg, i: nat): Occurrences {
    m[r := OccurrencesOf(m, r) + [i]]
  }

  predicate Ascending(s: seq<nat>) {
    forall p, q | 0 <= p < q < |s| :: s[p] <= s[q]
  }

  /** The definitions of `r` among the first `n` items. */
  function DefsUpTo(items: seq<Item>, n: nat, r: Reg): (ds: seq<nat>)
    requires n <= |items|
    ensures forall i: nat :: i in ds <==> i < n && IsDef(items, i, r)
    ensures Increasing(ds)
  {
    if n == 0 then []
    else
      var before := DefsUpTo(items, n - 1, r);
      assert forall p | 0 <= p < |before| :: before[p] in before;
      before + if IsDef(items, n - 1, r) then [n - 1] else []
  }

  /** `i`, once for every time `r` occurs. */
  function Times(sources: seq<Reg>, k: nat, r: Reg, i: nat): (us: seq<nat>)
    requires k <= |sources|
    ensures forall u | u in us :: u == i
    ensures i in us <==> r in sources[..k]
  {
    if k == 0 then []
    else
      assert sources[..k] == sources[..k - 1] + [sources[k - 1]];
      Times(sources, k - 1, r, i) + if sources[k - 1] == r then [i] else []
  }

  /** The uses of `r` by item `i`. */
  function UsesAt(item: Item, r: Reg, i: nat): (us: seq<nat>)
    ensures forall u | u in us :: u == i
    ensures i in us <==> item.Code? && r in SourceRegisters(item.inst)
  {
    if item.Label? then []
    else
      var sources := SourceRegisters(item.inst);
      assert sources[..|sources|] == sources;
      Times(sources, |sources|, r, i)
  }

  lemma AscendingAppend(a: seq<nat>, b: seq<nat>, i: nat)
    requires Ascending(a) && (forall u | u in a :: u < i) && (forall u | u in b :: u == i)
    ensures Ascending(a + b)
  {
    assert forall p | 0 <= p < |a| :: a[p] in a;
    assert forall p | 0 <= p < |b| :: b[p] in b;
  }

  lemma UsesAppend(items: seq<Item>, n: nat, r: Reg, before: seq<nat>, here: seq<nat>)
    requires n < |items| && forall i: nat :: i in before <==> i < n && IsUse(items, i, r)
    requires here == UsesAt(items[n], r, n)
    ensures forall i: nat :: i in before + here <==> i < n + 1 && IsUse(items, i, r)
  {
    assert n in here <==> IsUse(items, n, r);
    hide UsesAt, IsUse;
    forall i: nat ensures i in before + here <==> i < n + 1 && IsUse(items, i, r) {
      assert i in before + here <==> i in before || i in here;
    }
  }

  /** The uses of `r` among the first `n` items, once per operand. */
  function UsesUpTo(items: seq<Item>, n: nat, r: Reg): (us: seq<nat>)
    requires n <= |items|
    ensures forall i: nat :: i in us <==> i < n && IsUse(items, i, r)
    ensures Ascending(us)
  {
    if n == 0 then []
    else
      var before, here := UsesUpTo(items, n - 1, r), UsesAt(items[n - 1], r, n - 1);
      AscendingAppend(before, here, n - 1);
      UsesAppend(items, n - 1, r, before, here);
      before + here
  }

  ghost predicate DefsListed(items: seq<Item>, n: nat, defs: Occurrences)
    requires n <= |items|
  {
    (forall r :: OccurrencesOf(defs, r) == DefsUpTo(items, n, r)) && forall r | r in defs :: defs[r] != []
  }

  ghost predicate UsesListed(items: seq<Item>, n: nat, uses: Occurrences)
    requires n <= |items|
  {
    forall r :: OccurrencesOf(uses, r) == UsesUpTo(items, n, r)
  }

  lemma DefsNext(items: seq<Item>, n: nat, defs: Occurrences)
    requires n < |items| && DefsListed(items, n, defs)
    ensures items[n].Label? ==> DefsListed(items, n + 1, defs)
    ensures items[n].Code? ==>
              DefsListed(items, n + 1, match DestRegister(items[n].inst) case Some(d) => Note(defs, d,
                  n) case None => defs)
  {
    hide DestRegister, DefsUpTo, OccurrencesOf, Note;
    forall r ensures DefsUpTo(items, n + 1, r) == DefsUpTo(items, n, r) + if IsDef(items, n, r) then [n] else [] {
      DefsOneMore(items, n, r);
    }
    if items[n].Code? && DestRegister(items[n].inst).Some? {
      var d := DestRegister(items[n].inst).value;
      forall r ensures OccurrencesOf(Note(defs, d, n), r) == DefsUpTo(items, n + 1, r) {
        NoteOne(defs, d, n, r);
      }
      NoteKeys(defs, d, n);
    }
  }

  lemma NoteKeys(defs: Occurrences, d: Reg, n: nat)
    requires forall r | r in defs :: defs[r] != []
    ensures forall r | r in Note(defs, d, n) :: Note(defs, d, n)[r] != []
  {
  }

  lemma DefsOneMore(items: seq<Item>, n: nat, r: Reg)
    requires n < |items|
    ensures DefsUpTo(items, n + 1, r) == DefsUpTo(items, n, r) + if IsDef(items, n, r) then [n] else []
  {
  }

  /** All uses of the first `n` items and those by the first `j` sources of the next. */
  ghost predicate PartlyListed(items: seq<Item>, n: nat, sources: seq<Reg>, j: nat, uses: Occurrences)
    requires n <= |items| && j <= |sources|
  {
    forall r :: OccurrencesOf(uses, r) == UsesUpTo(items, n, r) + Times(sources, j, r, n)
  }

  lemma NoteOne(uses: Occurrences, src: Reg, n: nat, r: Reg)
    ensures OccurrencesOf(Note(uses, src, n), r) == OccurrencesOf(uses, r) + if src == r then [n] else []
  {
    assert OccurrencesOf(uses, r) + [] == OccurrencesOf(uses, r);
  }

  lemma TimesNext(sources: seq<Reg>, j: nat, r: Reg, n: nat)
    requires j < |sources|
    ensures Times(sources, j + 1, r, n) == Times(sources, j, r, n) + if sources[j] == r then [n] else []
  {
  }

  lemma PartlyNext(items: seq<Item>, n: nat, sources: seq<Reg>, j: nat, uses: Occurrences)
    requires n <= |items| && j < |sources| && PartlyListed(items, n, sources, j, uses)
    ensures PartlyListed(items, n, sources, j + 1, Note(uses, sources[j], n))
  {
    hide UsesUpTo, Times, Note, OccurrencesOf;
    forall r ensures OccurrencesOf(Note(uses, sources[j], n), r) == UsesUpTo(items, n, r)
        + Times(sources, j + 1, r, n) {
      PartlyOne(items, n, sources, j, uses, r);
    }
  }

  lemma PartlyOne(items: seq<Item>, n: nat, sources: seq<Reg>, j: nat, uses: Occurrences, r: Reg)
    requires n <= |items| && j < |sources| && OccurrencesOf(uses, r) == UsesUpTo(items, n, r) + Times(sources, j, r, n)
    ensures OccurrencesOf(Note(uses, sources[j], n), r) == UsesUpTo(items, n, r) + Times(sources, j + 1, r, n)
  {
    NoteOne(uses, sources[j], n, r);
    TimesNext(sources, j, r, n);
    Associate(UsesUpTo(items, n, r), Times(sources, j, r, n), if sources[j] == r then [n] else []);
    hide *;
  }

  lemma Associate(a: seq<nat>, b: seq<nat>, c: seq<nat>)
    ensures (a + b) + c == a + (b + c)
  {
  }

  lemma PartlyBoth(items: seq<Item>, n: nat, uses: Occurrences)
    requires n < |items| && items[n].Code?
    ensures UsesListed(items, n, uses) ==> PartlyListed(items, n, SourceRegisters(items[n].inst), 0, uses)
    ensures var sources := SourceRegisters(items[n].inst);
            PartlyListed(items, n, sources, |sources|, uses) ==> UsesListed(items, n + 1, uses)
  {
    UsesNext(items, n);
    hide UsesUpTo, SourceRegisters, OccurrencesOf;
  }

  /** The inner loop over the sources of one instruction. */
  method NoteUses(items: seq<Item>, n: nat, uses: Occurrences) returns (uses': Occurrences)
    requires n < |items| && items[n].Code? && UsesListed(items, n, uses)
    ensures UsesListed(items, n + 1, uses')
  {
    uses' := uses;
    var sources := SourceRegisters(items[n].inst);
    hide SourceRegisters, PartlyListed, UsesListed, Note;
    PartlyBoth(items, n, uses);
    for j := 0 to |sources|
      invariant PartlyListed(items, n, sources, j, uses')
    {
      PartlyNext(items, n, sources, j, uses');
      uses' := Note(uses', sources[j], n);
    }
    PartlyBoth(items, n, uses');
  }

  lemma UsesNext(items: seq<Item>, n: nat)
    requires n < |items| && items[n].Code?
    ensures var sources := SourceRegisters(items[n].inst);
            forall r :: UsesUpTo(items, n + 1, r) == UsesUpTo(items, n, r) + Times(sources, |sources|, r, n)
  {
  }

  lemma UsesSkipLabel(items: seq<Item>, n: nat)
    requires n < |items| && items[n].Label?
    ensures forall r :: UsesUpTo(items, n + 1, r) == UsesUpTo(items, n, r)
  {
  }

  lemma NothingListed(items: seq<Item>)
    ensures DefsListed(items, 0, map[]) && UsesListed(items, 0, map[])
  {
  }

  /** The collecting loop of `analyze_liveness`. */
  method CollectDefsUses(items: seq<Item>) returns (allDefs: Occurrences, allUses: Occurrences, lastInstIndex: int)
    ensures DefsListed(items, |items|, allDefs) && UsesListed(items, |items|, allUses)
    ensures -1 <= lastInstIndex < |items| && forall i | lastInstIndex < i < |items| :: items[i].Label?
  {
    allDefs, allUses, lastInstIndex := map[], map[], -1;
    NothingListed(items);
    hide SourceRegisters, DestRegister, DefsUpTo, UsesUpTo, DefsListed;
    for i := 0 to |items|
      invariant DefsListed(items, i, allDefs) && UsesListed(items, i, allUses)
      invariant -1 <= lastInstIndex < i && forall k | lastInstIndex < k < i :: items[k].Label?
    {
      DefsNext(items, i, allDefs);
      if items[i].Code? {
        lastInstIndex := i;
        var dest := DestRegister(items[i].inst);
        if dest.Some? {
          allDefs := Note(allDefs, dest.value, i);
        }
        allUses := NoteUses(items, i, allUses);
      } else {
        UsesSkipLabel(items, i);
      }
    }
  }
}
