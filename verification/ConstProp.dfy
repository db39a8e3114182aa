/** Global constant propagation: the dataflow over blocks and the rewriting it drives. */
module ConstProp {
  import opened Wrappers
  import opened Words
  import opened Ptx
  import opened CfgBuilder

  // ----- folding one instruction -----

  datatype Const = Const(ty: Type, value: nat)

  type Consts = map<Reg, Const>

  predicate IsInt32(ty: Type) {
    ty == B32 || ty == S32 || ty == U32
  }

  /** `_constant_type_matches`. */
  predicate TypeMatches(known: Type, requested: Type) {
    if requested == F32 then known == F32
    else if IsInt32(requested) then IsInt32(known)
    else known == requested
  }

  function Coerce(value: nat, ty: Type): nat {
    if IsInt32(ty) || ty == F32 then value % WORD else value
  }

  /** `_parse_immediate_constant`. */
  function ParseImmediate(o: Operand, ty: Type): Option<Const> {
    match o
    case IntImm(v) => if IsInt32(ty) then Some(Const(ty, Mask32(v))) else None
    case FloatImm(bits) => if ty == F32 then Some(Const(F32, Mask32(bits))) else None
    case _ => None
  }

  /** `_resolve_constant`. */
  function Resolve(o: Operand, ty: Type, consts: Consts): Option<Const> {
    if o.RegOp? then
      if o.reg in consts && TypeMatches(consts[o.reg].ty, ty) then Some(Const(ty, Coerce(consts[o.reg].value, ty)))
      else None
    else ParseImmediate(o, ty)
  }

  /** `_format_constant`. */
  function Format(c: Const): Operand {
    if c.ty == F32 then FloatImm(Mask32(c.value)) else IntImm(Mask32(c.value))
  }

  predicate IsFoldBase(b: Base) {
    match b
    case Add | Mov | Mul | Sub | And | Or | Xor | Shl | Shr | Mad => true
    case _ => false
  }

  function ResolveAll(inst: Inst, consts: Consts): (r: seq<Option<Const>>)
    requires inst.operands != []
    ensures |r| == |inst.operands| - 1
  {
    seq(|inst.operands| - 1, k requires 0 <= k < |inst.operands| - 1 =>
          Resolve(inst.operands[k + 1], inst.op.ty, consts))
  }

  function Bitwise(b: Base, x: nat, y: nat): nat {
    if b == And then BitAnd(x, y) else if b == Or then BitOr(x, y) else BitXor(x, y)
  }

  /** `_evaluate_u32`. */
  function EvaluateU32(b: Base, x: nat, y: nat): nat {
    if b == Add then Mask32(x + y) else if b == Sub then Mask32(x - y) else Mask32(x * y)
  }

  /** The constant an instruction with these resolved sources computes, if the pass can tell. */
  function FoldedConst(inst: Inst, rs: seq<Option<Const>>): Option<Const> {
    if exists k | 0 <= k < |rs| :: rs[k].None? then None
    else if inst.op.base == Mov && |rs| == 1 then rs[0]
    else if inst.op.base in {Add, Sub, Mul} && |rs| == 2 && inst.op.ty == U32 then
      Some(Const(U32, EvaluateU32(inst.op.base, rs[0].value.value, rs[1].value.value)))
    else if inst.op.base in {And, Or, Xor} && |rs| == 2 then
      Some(Const(inst.op.ty, Mask32(Bitwise(inst.op.base, rs[0].value.value, rs[1].value.value))))
    else None
  }

  predicate Foldable(inst: Inst) {
    inst.guard.None? && IsFoldBase(inst.op.base) && Destination(inst).Some? && !IsPredicate(Destination(inst).value)
  }

  /** The instruction with its known sources replaced by immediates. */
  function WithConstants(inst: Inst, rs: seq<Option<Const>>): Inst
    requires |inst.operands| == |rs| + 1
  {
    inst.(operands := [inst.operands[0]]
                      + seq(|rs|, k requires 0 <= k < |rs| =>
                              if rs[k].Some? then Format(rs[k].value) else inst.operands[k + 1]))
  }

  /** `_fold_with_constants`. */
  function Fold(inst: Inst, consts: Consts): (Inst, Option<Const>) {
    if !Foldable(inst) then (inst, None)
    else
      var rs := ResolveAll(inst, consts);
      if forall k | 0 <= k < |rs| :: rs[k].None? then (inst, None)
      else
        var c := FoldedConst(inst, rs);
        if c.Some? && inst.op.base in {And, Or, Xor} then
          (inst.(op := Opcode(Mov, [], inst.op.ty), operands := [inst.operands[0], Format(c.value)]), c)
        else (WithConstants(inst, rs), c)
  }

  // ----- dataflow -----

  /** The destination is known to be `c`, or no longer known. */
  function Record(consts: Consts, dest: Option<Reg>, c: Option<Const>): Consts {
    if dest.None? || IsPredicate(dest.value) then consts
    else if c.Some? then consts[dest.value := c.value]
    else consts - {dest.value}
  }

  /** One item of the dataflow phase: guarded and `.cc` instructions are passed over. */
  function FlowItem(item: Item, consts: Consts): Consts {
    if item.Label? || item.inst.guard.Some? || Cc in item.inst.op.mods then consts
    else Record(consts, Destination(item.inst), Fold(item.inst, consts).1)
  }

  /** One item of the rewriting phase. */
  function ApplyItem(item: Item, consts: Consts): Consts {
    if item.Label? then consts else Record(consts, Destination(item.inst), Fold(item.inst, consts).1)
  }

  function FlowThrough(items: seq<Item>, s: nat, e: nat, consts: Consts): Consts
    requires e <= |items|
    decreases e
  {
    if e <= s then consts else FlowItem(items[e - 1], FlowThrough(items, s, e - 1, consts))
  }

  /** The predecessors of a block, listed. */
  function Listing(preds: set<nat>, n: nat): (r: seq<nat>)
    ensures forall p: nat :: p in r <==> p in preds && p < n
  {
    if n == 0 then [] else Listing(preds, n - 1) + if n - 1 in preds then [n - 1] else []
  }

  /** What all listed blocks agree on at their exits. */
  function Meet(preds: seq<nat>, outs: seq<Consts>): (r: Consts)
    requires forall p | p in preds :: p < |outs|
  {
    if preds == [] then map[]
    else
      assert forall k | 0 <= k < |preds| :: preds[k] in preds;
      var first := outs[preds[0]];
      map v | v in first && forall k | 1 <= k < |preds| ::
          v in outs[preds[k]] && outs[preds[k]][v] == first[v] :: first[v]
  }

  /** `_block_entry_constants`. */
  function EntryFacts(cfg: Cfg, outs: seq<Consts>, b: nat): Consts
    requires b < |cfg.blocks| == |outs|
  {
    Meet(Listing(cfg.blocks[b].predecessors, |cfg.blocks|), outs)
  }

  predicate SubFacts(a: Consts, b: Consts) {
    forall r | r in a :: r in b && b[r] == a[r]
  }

  /** Facts just before item `i` of block `b`, given the facts at block exits. */
  function FactsBefore(items: seq<Item>, cfg: Cfg, outs: seq<Consts>, b: nat, i: nat): Consts
    requires b < |cfg.blocks| == |outs| == |cfg.starts| && i <= |items|
  {
    FlowThrough(items, cfg.starts[b], i, EntryFacts(cfg, outs, b))
  }

  function FactsAtEnd(items: seq<Item>, cfg: Cfg, outs: seq<Consts>, b: nat): Consts
    requires b < |cfg.blocks| == |outs| == |cfg.starts| && EndOf(items, cfg.starts, b) <= |items|
  {
    FactsBefore(items, cfg, outs, b, EndOf(items, cfg.starts, b))
  }

  // ----- the facts only grow -----

  lemma FoldMonotone(inst: Inst, a: Consts, b: Consts)
    requires SubFacts(a, b)
    ensures Fold(inst, a).1.Some? ==> Fold(inst, b).1 == Fold(inst, a).1
  {
    if Foldable(inst) {
      var ra, rb := ResolveAll(inst, a), ResolveAll(inst, b);
      forall k | 0 <= k < |ra| && ra[k].Some? ensures rb[k] == ra[k] {
        assert ra[k] == Resolve(inst.operands[k + 1], inst.op.ty, a);
        assert rb[k] == Resolve(inst.operands[k + 1], inst.op.ty, b);
      }
      if Fold(inst, a).1.Some? {
        assert ra == rb;
      }
    }
  }

  lemma FlowItemMonotone(item: Item, a: Consts, b: Consts)
    requires SubFacts(a, b)
    ensures SubFacts(FlowItem(item, a), FlowItem(item, b))
  {
    if item.Code? {
      FoldMonotone(item.inst, a, b);
    }
  }

  lemma {:induction false} FlowThroughMonotone(items: seq<Item>, s: nat, e: nat, a: Consts, b: Consts)
    requires SubFacts(a, b) && e <= |items|
    ensures SubFacts(FlowThrough(items, s, e, a), FlowThrough(items, s, e, b))
    decreases e
  {
    if e > s {
      FlowThroughMonotone(items, s, e - 1, a, b);
      FlowItemMonotone(items[e - 1], FlowThrough(items, s, e - 1, a), FlowThrough(items, s, e - 1, b));
    }
  }

  /** Pointwise: every block exit knows at least as much. */
  ghost predicate Grown(small: seq<Consts>, large: seq<Consts>) {
    |small| == |large| && forall b | 0 <= b < |small| :: SubFacts(small[b], large[b])
  }

  lemma MeetMonotone(preds: seq<nat>, small: seq<Consts>, large: seq<Consts>)
    requires Grown(small, large) && forall p | p in preds :: p < |small|
    ensures SubFacts(Meet(preds, small), Meet(preds, large))
  {
    if preds != [] {
      assert preds[0] in preds;
      forall k | 1 <= k < |preds| ensures preds[k] < |small| {
        assert preds[k] in preds;
      }
    }
  }

  lemma FactsMonotone(items: seq<Item>, cfg: Cfg, small: seq<Consts>, large: seq<Consts>, b: nat, i: nat)
    requires Grown(small, large) && b < |cfg.blocks| == |small| == |cfg.starts| && i <= |items|
    ensures SubFacts(FactsBefore(items, cfg, small, b, i), FactsBefore(items, cfg, large, b, i))
  {
    MeetMonotone(Listing(cfg.blocks[b].predecessors, |cfg.blocks|), small, large);
    FlowThroughMonotone(items, cfg.starts[b], i, EntryFacts(cfg, small, b), EntryFacts(cfg, large, b));
  }

  /** Recomputing any block from these exits yields at least what is recorded for it. */
  ghost predicate Inflationary(items: seq<Item>, cfg: Cfg, outs: seq<Consts>) {
    && |outs| == |cfg.blocks| == |cfg.starts|
    && forall b | 0 <= b < |outs| ::
         EndOf(items, cfg.starts, b) <= |items| && SubFacts(outs[b], FactsAtEnd(items, cfg, outs, b))
  }

  lemma UpdateInflationary(items: seq<Item>, cfg: Cfg, outs: seq<Consts>, b: nat)
    requires Inflationary(items, cfg, outs) && b < |outs|
    ensures Grown(outs, outs[b := FactsAtEnd(items, cfg, outs, b)])
    ensures Inflationary(items, cfg, outs[b := FactsAtEnd(items, cfg, outs, b)])
  {
    var outs' := outs[b := FactsAtEnd(items, cfg, outs, b)];
    forall c | 0 <= c < |outs| ensures SubFacts(outs'[c], FactsAtEnd(items, cfg, outs', c)) {
      FactsMonotone(items, cfg, outs, outs', c, EndOf(items, cfg.starts, c));
    }
  }

  // ----- the pass -----

  /** The instruction loop over one block. */
  method FlowBlock(items: seq<Item>, s: nat, e: nat, incoming: Consts) returns (local: Consts)
    requires s <= e <= |items|
    ensures local == FlowThrough(items, s, e, incoming)
  {
    local := incoming;
    for i := s to e
      invariant local == FlowThrough(items, s, i, incoming)
    {
      if items[i].Code? {
        var inst := items[i].inst;
        if inst.guard.None? && Cc !in inst.op.mods {
          var (_, newConst) := Fold(inst, local);
          var dest := Destination(inst);
          if dest.Some? && !IsPredicate(dest.value) {
            if newConst.Some? {
              local := local[dest.value := newConst.value];
            } else {
              local := local - {dest.value};
            }
          }
        }
      }
    }
  }

  /** The exits with that of one block recomputed. */
  ghost function UpdateAt(items: seq<Item>, cfg: Cfg, outs: seq<Consts>, b: nat): (r: seq<Consts>)
    requires Inflationary(items, cfg, outs) && b < |cfg.blocks|
    ensures Inflationary(items, cfg, r) && Grown(outs, r)
  {
    UpdateInflationary(items, cfg, outs, b);
    outs[b := FactsAtEnd(items, cfg, outs, b)]
  }

  lemma GrownThrough(items: seq<Item>, cfg: Cfg, a: seq<Consts>, b: seq<Consts>, k: nat)
    requires Inflationary(items, cfg, b) && k < |cfg.blocks| && Grown(a, b)
    ensures Grown(a, UpdateAt(items, cfg, b, k))
  {
    hide UpdateAt, Inflationary;
    GrownTransitive(a, b, UpdateAt(items, cfg, b, k));
  }

  /** The exits after the first `b` blocks of a round, each recomputed from the exits as they are by then. */
  ghost function RoundTo(items: seq<Item>, cfg: Cfg, outs: seq<Consts>, b: nat): (r: seq<Consts>)
    requires Inflationary(items, cfg, outs) && b <= |cfg.blocks|
    ensures Inflationary(items, cfg, r) && Grown(outs, r)
  {
    if b == 0 then
      SubFactsReflexive(outs);
      outs
    else
      GrownThrough(items, cfg, outs, RoundTo(items, cfg, outs, b - 1), b - 1);
      UpdateAt(items, cfg, RoundTo(items, cfg, outs, b - 1), b - 1)
  }

  /** Every exit is what recomputation gives. */
  ghost predicate IsFixpoint(items: seq<Item>, cfg: Cfg, outs: seq<Consts>) {
    && |outs| == |cfg.blocks| == |cfg.starts|
    && forall b | 0 <= b < |outs| ::
         EndOf(items, cfg.starts, b) <= |items| && outs[b] == FactsAtEnd(items, cfg, outs, b)
  }

  /** One turn of the `while changed` loop. */
  method Round(items: seq<Item>, cfg: Cfg, outs: seq<Consts>) returns (outs': seq<Consts>, changed: bool)
    requires BlocksCover(items, cfg) && Inflationary(items, cfg, outs)
    ensures outs' == RoundTo(items, cfg, outs, |cfg.blocks|)
    ensures changed <==> outs' != outs
    ensures !changed ==> IsFixpoint(items, cfg, outs)
  {
    hide FlowThrough, EntryFacts, Inflationary, SubFacts;
    outs', changed := outs, false;
    SubFactsReflexive(outs);
    RangesOk(items, cfg, outs);
    for b := 0 to |cfg.blocks|
      invariant outs' == RoundTo(items, cfg, outs, b)
      invariant changed <==> outs' != outs
      invariant !changed ==> forall c | 0 <= c < b :: outs[c] == FactsAtEnd(items, cfg, outs, c)
    {
      RangesOk(items, cfg, outs');
      assert BlockFilled(items, cfg.starts, b, cfg.blocks[b]);
      var incoming := EntryFacts(cfg, outs', b);
      var local := FlowBlock(items, cfg.starts[b], EndOf(items, cfg.starts, b), incoming);
      UpdateInflationary(items, cfg, outs', b);
      if local != outs'[b] {
        StrictGrowth(outs, outs', b, local);
        outs' := outs'[b := local];
        changed := true;
      }
      assert outs'[b := local] == outs';
    }
  }

  lemma SubFactsReflexive(outs: seq<Consts>)
    ensures Grown(outs, outs)
  {
  }

  lemma RangesOk(items: seq<Item>, cfg: Cfg, outs: seq<Consts>)
    requires Inflationary(items, cfg, outs)
    ensures |outs| == |cfg.blocks| == |cfg.starts|
    ensures forall b | 0 <= b < |outs| :: EndOf(items, cfg.starts, b) <= |items|
  {
  }

  lemma GrownTransitive(a: seq<Consts>, b: seq<Consts>, c: seq<Consts>)
    requires Grown(a, b) && Grown(b, c)
    ensures Grown(a, c)
  {
  }

  lemma NothingNewIsEqual(a: Consts, b: Consts)
    requires SubFacts(a, b)
    ensures (forall r | r in b :: r in a) ==> a == b
  {
  }

  /** Facts never come back to what they were. */
  lemma StrictGrowth(a: seq<Consts>, b: seq<Consts>, k: nat, local: Consts)
    requires Grown(a, b) && k < |b| && SubFacts(b[k], local) && local != b[k]
    ensures b[k := local] != a
  {
    NothingNewIsEqual(b[k], local);
    var r :| r in local && r !in b[k];
    assert SubFacts(a[k], b[k]);
    assert r !in a[k];
  }

  /** No facts at all: the exits before the first round. */
  function NoFacts(n: nat): (outs: seq<Consts>)
    ensures |outs| == n && forall b | 0 <= b < n :: outs[b] == map[]
  {
    seq(n, _ => map[])
  }

  lemma NoFactsInflationary(items: seq<Item>, cfg: Cfg)
    requires BlocksCover(items, cfg)
    ensures Inflationary(items, cfg, NoFacts(|cfg.blocks|))
  {
    forall b | 0 <= b < |cfg.blocks| ensures EndOf(items, cfg.starts, b) <= |items| {
      assert BlockFilled(items, cfg.starts, b, cfg.blocks[b]);
    }
    hide FlowThrough, EntryFacts;
  }

  /** The exits after `k` rounds. */
  ghost function Rounds(items: seq<Item>, cfg: Cfg, k: nat): (outs: seq<Consts>)
    requires BlocksCover(items, cfg)
    ensures Inflationary(items, cfg, outs)
  {
    if k == 0 then
      NoFactsInflationary(items, cfg);
      NoFacts(|cfg.blocks|)
    else
      RoundTo(items, cfg, Rounds(items, cfg, k - 1), |cfg.blocks|)
  }

  lemma FirstRounds(items: seq<Item>, cfg: Cfg)
    requires BlocksCover(items, cfg)
    ensures Rounds(items, cfg, 0) == NoFacts(|cfg.blocks|)
  {
  }

  lemma NextRound(items: seq<Item>, cfg: Cfg, k: nat)
    requires BlocksCover(items, cfg)
    ensures Rounds(items, cfg, k + 1) == RoundTo(items, cfg, Rounds(items, cfg, k), |cfg.blocks|)
  {
  }

  /** The dataflow phase: rounds until nothing changes, but no more than `maxIterations`. */
  method Propagate(items: seq<Item>, cfg: Cfg, maxIterations: nat)
    returns (outs: seq<Consts>, iteration: nat, changed: bool)
    requires BlocksCover(items, cfg)
    ensures iteration <= maxIterations && outs == Rounds(items, cfg, iteration)
    ensures !changed ==> IsFixpoint(items, cfg, outs)
    ensures changed ==> iteration == maxIterations
  {
    hide *;
    FirstRounds(items, cfg);
    outs, iteration, changed := NoFacts(|cfg.blocks|), 0, true;
    while changed && iteration < maxIterations
      invariant iteration <= maxIterations && outs == Rounds(items, cfg, iteration)
      invariant !changed ==> IsFixpoint(items, cfg, outs)
      decreases maxIterations - iteration
    {
      NextRound(items, cfg, iteration);
      iteration := iteration + 1;
      outs, changed := Round(items, cfg, outs);
    }
  }

  // ----- how many rounds an uncapped loop would take -----

  /** The registers constants can be known for. */
  function Destinations(items: seq<Item>): set<Reg> {
    set i | 0 <= i < |items| && items[i].Code? && Destination(items[i].inst).Some? :: Destination(items[i].inst).value
  }

  ghost function FactSet(outs: seq<Consts>): set<(nat, Reg)> {
    set b: nat, r | b < |outs| && r in outs[b] :: (b, r)
  }

  ghost predicate FactsWithin(outs: seq<Consts>, rs: set<Reg>) {
    forall b | 0 <= b < |outs| :: outs[b].Keys <= rs
  }

  lemma {:induction false} FlowThroughWithin(items: seq<Item>, s: nat, e: nat, consts: Consts, rs: set<Reg>)
    requires e <= |items| && consts.Keys <= rs && Destinations(items) <= rs
    ensures FlowThrough(items, s, e, consts).Keys <= rs
    decreases e
  {
    if e > s {
      FlowThroughWithin(items, s, e - 1, consts, rs);
      var item := items[e - 1];
      if item.Code? && Destination(item.inst).Some? {
        assert Destination(item.inst).value in Destinations(items);
      }
      hide Fold;
    }
  }

  lemma UpdateWithin(items: seq<Item>, cfg: Cfg, outs: seq<Consts>, b: nat)
    requires Inflationary(items, cfg, outs) && b < |cfg.blocks| && FactsWithin(outs, Destinations(items))
    ensures FactsWithin(UpdateAt(items, cfg, outs, b), Destinations(items))
  {
    hide FlowThrough, Inflationary, Destinations, EntryFacts;
    RangesOk(items, cfg, outs);
    EntryWithin(cfg, outs, b, Destinations(items));
    FlowThroughWithin(items, cfg.starts[b], EndOf(items, cfg.starts, b), EntryFacts(cfg, outs, b), Destinations(items));
  }

  lemma {:induction false} RoundWithin(items: seq<Item>, cfg: Cfg, outs: seq<Consts>, b: nat)
    requires Inflationary(items, cfg, outs) && b <= |cfg.blocks| && FactsWithin(outs, Destinations(items))
    ensures FactsWithin(RoundTo(items, cfg, outs, b), Destinations(items))
    decreases b
  {
    hide UpdateAt, Inflationary, Destinations, FactsWithin, Grown;
    if b > 0 {
      RoundWithin(items, cfg, outs, b - 1);
      UpdateWithin(items, cfg, RoundTo(items, cfg, outs, b - 1), b - 1);
    }
  }

  lemma EntryWithin(cfg: Cfg, outs: seq<Consts>, b: nat, rs: set<Reg>)
    requires b < |cfg.blocks| == |outs| && FactsWithin(outs, rs)
    ensures EntryFacts(cfg, outs, b).Keys <= rs
  {
    var preds := Listing(cfg.blocks[b].predecessors, |cfg.blocks|);
    if preds != [] {
      assert preds[0] in preds;
    }
  }

  lemma {:induction false} RoundsWithin(items: seq<Item>, cfg: Cfg, k: nat)
    requires BlocksCover(items, cfg)
    ensures FactsWithin(Rounds(items, cfg, k), Destinations(items))
  {
    hide BlocksCover, Destinations, RoundTo;
    if k > 0 {
      RoundsWithin(items, cfg, k - 1);
      RoundWithin(items, cfg, Rounds(items, cfg, k - 1), |cfg.blocks|);
    }
  }

  lemma SubsetCard<T>(a: set<T>, b: set<T>)
    requires a <= b
    ensures |a| <= |b| && (a != b ==> |a| < |b|)
  {
    assert b == a + (b - a);
    if a != b {
      var x :| x in b - a;
      assert |b - a| > 0;
    }
  }

  ghost function Row(b: nat, rs: set<Reg>): set<(nat, Reg)> {
    set r | r in rs :: (b, r)
  }

  /** Every pair of a block number below `n` and a register of `rs`. */
  ghost function Grid(n: nat, rs: set<Reg>): set<(nat, Reg)> {
    if n == 0 then {} else Grid(n - 1, rs) + Row(n - 1, rs)
  }

  lemma {:induction false} GridContains(n: nat, rs: set<Reg>, b: nat, r: Reg)
    ensures (b, r) in Grid(n, rs) <==> b < n && r in rs
  {
    if n > 0 {
      GridContains(n - 1, rs, b, r);
    }
  }

  lemma {:induction false} GridCard(n: nat, rs: set<Reg>)
    ensures |Grid(n, rs)| == n * |rs|
  {
    hide Row;
    if n > 0 {
      GridCard(n - 1, rs);
      RowCard(n - 1, rs);
      RowIsNew(n - 1, rs);
      DisjointCard(Grid(n - 1, rs), Row(n - 1, rs));
      OneMoreRow(n - 1, |rs|);
    }
  }

  lemma OneMoreRow(n: nat, k: nat)
    ensures (n + 1) * k == n * k + k
  {
  }

  lemma RowIsNew(n: nat, rs: set<Reg>)
    ensures Grid(n, rs) !! Row(n, rs)
  {
    forall r | (n, r) in Row(n, rs) ensures (n, r) !in Grid(n, rs) {
      GridContains(n, rs, n, r);
    }
  }

  lemma DisjointCard<T>(a: set<T>, b: set<T>)
    requires a !! b
    ensures |a + b| == |a| + |b|
  {
  }

  lemma {:induction false} RowCard(b: nat, rs: set<Reg>)
    ensures |Row(b, rs)| == |rs|
    decreases |rs|
  {
    if rs == {} {
      assert Row(b, rs) == {};
    } else {
      var r :| r in rs;
      RowCard(b, rs - {r});
      assert Row(b, rs) == Row(b, rs - {r}) + {(b, r)};
    }
  }

  lemma FactSetGrows(small: seq<Consts>, large: seq<Consts>)
    requires Grown(small, large)
    ensures FactSet(small) <= FactSet(large)
    ensures small != large ==> FactSet(small) != FactSet(large)
  {
    forall b: nat, r | (b, r) in FactSet(small) ensures (b, r) in FactSet(large) {
      assert SubFacts(small[b], large[b]);
    }
    if small != large {
      var b :| 0 <= b < |small| && small[b] != large[b];
      assert SubFacts(small[b], large[b]);
      NothingNewIsEqual(small[b], large[b]);
      var r :| r in large[b] && r !in small[b];
      assert (b, r) in FactSet(large) && (b, r) !in FactSet(small);
    }
  }

  lemma FactSetWithin(outs: seq<Consts>, rs: set<Reg>)
    requires FactsWithin(outs, rs)
    ensures FactSet(outs) <= Grid(|outs|, rs)
  {
    forall b: nat, r | (b, r) in FactSet(outs) ensures (b, r) in Grid(|outs|, rs) {
      assert r in outs[b].Keys;
      GridContains(|outs|, rs, b, r);
    }
  }

  /** While rounds keep changing something, each one adds a fact. */
  lemma {:induction false} FactsCounted(items: seq<Item>, cfg: Cfg, k: nat)
    requires BlocksCover(items, cfg)
    requires forall i | 0 <= i < k :: Rounds(items, cfg, i + 1) != Rounds(items, cfg, i)
    ensures |FactSet(Rounds(items, cfg, k))| >= k
  {
    hide BlocksCover, FactSet, RoundTo, Inflationary, SubFacts;
    if k > 0 {
      FactsCounted(items, cfg, k - 1);
      var before, after := Rounds(items, cfg, k - 1), Rounds(items, cfg, k);
      assert Rounds(items, cfg, k - 1 + 1) != Rounds(items, cfg, k - 1);
      FactSetGrows(before, after);
      SubsetCard(FactSet(before), FactSet(after));
    }
  }

  /** Uncapped, the loop would stop within blocks times registers rounds, plus the one that notices. */
  lemma DataflowConverges(items: seq<Item>, cfg: Cfg) returns (k: nat)
    requires BlocksCover(items, cfg)
    ensures k <= |cfg.blocks| * |Destinations(items)|
    ensures Rounds(items, cfg, k + 1) == Rounds(items, cfg, k)
  {
    hide BlocksCover, Destinations, RoundTo;
    var n := |cfg.blocks| * |Destinations(items)|;
    if i: nat :| i <= n && Rounds(items, cfg, i + 1) == Rounds(items, cfg, i) {
      k := i;
    } else {
      FactsCounted(items, cfg, n + 1);
      RoundsWithin(items, cfg, n + 1);
      var outs := Rounds(items, cfg, n + 1);
      RangesOk(items, cfg, outs);
      var all := Grid(|cfg.blocks|, Destinations(items));
      GridCard(|cfg.blocks|, Destinations(items));
      FactSetWithin(outs, Destinations(items));
      SubsetCard(FactSet(outs), all);
      assert false;
    }
  }
}
