/** Local common-subexpression elimination: the expression table and the walk over one scope. */
module Cse {
  import opened Wrappers
  import opened Ptx

  // ----- keys -----

  /** `(opcode, source operands)`. */
  datatype Key = Key(op: Opcode, sources: seq<Operand>)

  function ExpectedOperands(b: Base): Option<nat> {
    match b
    case Add | And | Mul | Or | Shl | Shr | Sub | Xor => Some(3)
    case Cvt | Mov => Some(2)
    case Mad => Some(4)
    case _ => None
  }

  /** `_cse_expression_key`. */
  function ExpressionKey(inst: Inst): Option<Key> {
    if inst.guard.Some? || inst.operands == [] then None
    else if ExpectedOperands(inst.op.base) != Some(|inst.operands|) || Cc in inst.op.mods then None
    else if !inst.operands[0].RegOp? || IsPredicate(inst.operands[0].reg) then None
    else Some(Key(inst.op, inst.operands[1..]))
  }

  /** `_is_cse_scope_boundary`. */
  predicate IsBoundary(inst: Inst) {
    inst.guard.Some? || Cc in inst.op.mods || !IsPureBase(inst.op.base) || ExpressionKey(inst).None?
  }

  /** The registers among the first `n` operands. */
  function Mentioned(sources: seq<Operand>, n: nat): (rs: set<Reg>)
    requires n <= |sources|
    ensures forall i | 0 <= i < n :: OperandRegs(sources[i]) <= rs
  {
    if n == 0 then {} else Mentioned(sources, n - 1) + OperandRegs(sources[n - 1])
  }

  predicate KeyReads(k: Key, r: Reg) {
    r in Mentioned(k.sources, |k.sources|)
  }

  function RegOf(o: Operand): Option<Reg> {
    match o
    case RegOp(r) => Some(r)
    case Addr(r) => Some(r)
    case _ => None
  }

  // ----- aliases -----

  /** `_resolve_alias`: follow the table until it ends or comes back. */
  function ResolveAlias(name: Reg, aliases: map<Reg, Reg>, seen: set<Reg>): Reg
    decreases aliases.Keys - seen
  {
    if name in aliases && name !in seen then ResolveAlias(aliases[name], aliases, seen + {name}) else name
  }

  function RewriteOperand(o: Operand, aliases: map<Reg, Reg>): Operand {
    match o
    case RegOp(r) => RegOp(ResolveAlias(r, aliases, {}))
    case Addr(r) => Addr(ResolveAlias(r, aliases, {}))
    case _ => o
  }

  /** `_rewrite_sources`. */
  function RewriteSources(inst: Inst, aliases: map<Reg, Reg>): (r: Inst)
    ensures r.op == inst.op && |r.operands| == |inst.operands| && r.guard == inst.guard
  {
    inst.(operands := seq(|inst.operands|, k requires 0 <= k < |inst.operands| =>
      if FirstSource(inst) <= k then RewriteOperand(inst.operands[k], aliases) else inst.operands[k]))
  }

  /** Reading `alias` in `future[i..]` comes after (or together with) a redefinition of `target`. */
  predicate ReadAfter(aliasName: Reg, target: Reg, future: seq<Inst>) {
    exists i, j | 0 <= i <= j < |future| ::
      Destination(future[i]) == Some(target) && aliasName in ReadRegisters(future[j])
  }

  /** `_alias_read_after_target_redefinition`. */
  method AliasReadAfterTargetRedefinition(aliasName: Reg, target: Reg, future: seq<Inst>) returns (r: bool)
    ensures r <==> ReadAfter(aliasName, target, future)
  {
    var targetRedefined := false;
    for j := 0 to |future|
      invariant targetRedefined <==> exists i | 0 <= i < j :: Destination(future[i]) == Some(target)
      invariant !ReadAfter(aliasName, target, future[..j])
    {
      if Destination(future[j]) == Some(target) {
        targetRedefined := true;
      }
      if targetRedefined && aliasName in ReadRegisters(future[j]) {
        return true;
      }
    }
    assert future[..|future|] == future;
    return false;
  }

  // ----- the expression table -----

  type Index = map<Reg, set<Key>>

  function At(index: Index, r: Reg): set<Key> {
    if r in index then index[r] else {}
  }

  /** `index.setdefault(r, set()).add(key)` */
  function Put(index: Index, r: Reg, key: Key): Index {
    index[r := At(index, r) + {key}]
  }

  /** Discard `key`, and the whole entry when that leaves it empty. */
  function Drop(index: Index, r: Reg, key: Key): Index {
    if r !in index then index
    else if index[r] - {key} == {} then index - {r}
    else index[r := index[r] - {key}]
  }

  ghost predicate NoEmptyEntry(index: Index) {
    forall r | r in index :: index[r] != {}
  }

  lemma PutAt(index: Index, r: Reg, key: Key)
    requires NoEmptyEntry(index)
    ensures NoEmptyEntry(Put(index, r, key))
    ensures forall q :: At(Put(index, r, key), q) == if q == r then At(index, q) + {key} else At(index, q)
  {
  }

  lemma DropAt(index: Index, r: Reg, key: Key)
    requires NoEmptyEntry(index)
    ensures NoEmptyEntry(Drop(index, r, key))
    ensures forall q :: At(Drop(index, r, key), q) == if q == r then At(index, q) - {key} else At(index, q)
  {
  }

  /** Both reverse indexes say exactly what `exprs` says, about every register outside `gone`. */
  ghost predicate Indexed(exprs: map<Key, Reg>, byResult: Index, bySource: Index, gone: set<Reg>) {
    && NoEmptyEntry(byResult) && NoEmptyEntry(bySource)
    && (forall r, k | r !in gone :: k in At(byResult, r) <==> (k in exprs && exprs[k] == r))
    && (forall r, k | r !in gone :: k in At(bySource, r) <==> (k in exprs && KeyReads(k, r)))
    && (forall r | r in gone :: r !in byResult && r !in bySource)
  }

  lemma KeyIndexed(exprs: map<Key, Reg>, byResult: Index, bySource: Index, key: Key, r: Reg, byResult': Index,
                   bySource': Index)
    requires Indexed(exprs, byResult, bySource, {}) && key !in exprs && NoEmptyEntry(byResult')
             && NoEmptyEntry(bySource')
    requires forall q :: At(byResult', q) == if q == r then At(byResult, q) + {key} else At(byResult, q)
    requires forall q :: At(bySource', q) ==
               if KeyReads(key, q) then At(bySource, q) + {key} else At(bySource, q)
    ensures Indexed(exprs[key := r], byResult', bySource', {})
  {
    hide At, Mentioned, NoEmptyEntry;
  }

  lemma AreFull(exprs: map<Key, Reg>, byResult: Index, bySource: Index, gone: set<Reg>)
    requires Indexed(exprs, byResult, bySource, gone)
    ensures NoEmptyEntry(byResult) && NoEmptyEntry(bySource)
  {
  }

  /** What `_invalidate` sets out to remove, and the indexes without the register's own entries. */
  lemma EntriesTaken(exprs: map<Key, Reg>, byResult: Index, bySource: Index, r: Reg)
    requires Indexed(exprs, byResult, bySource, {})
    ensures forall k :: k in At(byResult, r) + At(bySource, r) <==> k in exprs && (exprs[k] == r || KeyReads(k, r))
    ensures Indexed(exprs, byResult - {r}, bySource - {r}, {r})
  {
    hide KeyReads;
    forall q | q != r ensures At(byResult - {r}, q) == At(byResult, q) && At(bySource - {r}, q) == At(bySource, q) {
    }
  }

  /** With every key of the register gone there is nothing left to be inconsistent about. */
  lemma NothingGone(exprs: map<Key, Reg>, byResult: Index, bySource: Index, r: Reg)
    requires Indexed(exprs, byResult, bySource, {r})
    requires forall k | k in exprs :: exprs[k] != r && !KeyReads(k, r)
    ensures Indexed(exprs, byResult, bySource, {})
  {
    hide KeyReads;
  }

  /** The expressions that do not involve `d`. */
  function Forgotten(exprs: map<Key, Reg>, d: Reg): map<Key, Reg> {
    map k | k in exprs && exprs[k] != d && !KeyReads(k, d) :: exprs[k]
  }

  /** `expression_destinations` with its reverse indexes. */
  class ExpressionTable {
    var exprs: map<Key, Reg>
    var byResult: Index
    var bySource: Index

    ghost predicate Valid()
      reads this
    {
      Indexed(exprs, byResult, bySource, {})
    }

    constructor ()
      ensures Valid() && exprs == map[]
    {
      exprs, byResult, bySource := map[], map[], map[];
    }

    /** The loop of `_index_key`: the key is noted under every register it reads. */
    method NoteSources(key: Key)
      requires NoEmptyEntry(bySource)
      modifies this`bySource
      ensures NoEmptyEntry(bySource)
      ensures forall r :: At(bySource, r) == if KeyReads(key, r) then At(old(bySource), r) + {key}
              else At(old(bySource), r)
    {
      hide At, Put, NoEmptyEntry;
      for i := 0 to |key.sources|
        invariant NoEmptyEntry(bySource)
        invariant forall r :: At(bySource, r) ==
                    if r in Mentioned(key.sources, i) then At(old(bySource), r) + {key} else At(old(bySource), r)
      {
        var reference := RegOf(key.sources[i]);
        if reference.Some? {
          PutAt(bySource, reference.value, key);
          bySource := Put(bySource, reference.value, key);
        }
      }
    }

    /** `_index_key`. */
    method IndexKey(key: Key, destination: Reg)
      requires Valid() && key !in exprs
      modifies this
      ensures Valid() && exprs == old(exprs)[key := destination]
    {
      hide At, Put, Indexed, NoEmptyEntry, KeyReads;
      AreFull(exprs, byResult, bySource, {});
      exprs := exprs[key := destination];
      PutAt(byResult, destination, key);
      byResult := Put(byResult, destination, key);
      NoteSources(key);
      KeyIndexed(old(exprs), old(byResult), old(bySource), key, destination, byResult, bySource);
    }

    /** `_unindex_key`; while a register is being forgotten its own index entries are already gone. */
    method UnindexKey(key: Key, ghost gone: set<Reg>)
      requires Indexed(exprs, byResult, bySource, gone)
      modifies this
      ensures Indexed(exprs, byResult, bySource, gone) && exprs == old(exprs) - {key}
    {
      hide At, Drop;
      if key !in exprs {
        assert exprs == exprs - {key};
        return;
      }
      var destination := exprs[key];
      exprs := exprs - {key};
      DropAt(byResult, destination, key);
      byResult := Drop(byResult, destination, key);
      for i := 0 to |key.sources|
        invariant exprs == old(exprs) - {key} && byResult == Drop(old(byResult), destination, key)
        invariant NoEmptyEntry(bySource) && bySource.Keys <= old(bySource).Keys
        invariant forall r :: At(bySource, r) == At(old(bySource), r) - if r in Mentioned(key.sources, i) then {key}
                  else {}
      {
        var reference := RegOf(key.sources[i]);
        if reference.Some? {
          DropAt(bySource, reference.value, key);
          DropKeys(bySource, reference.value, key);
          bySource := Drop(bySource, reference.value, key);
        }
      }
      DropKeys(old(byResult), destination, key);
    }

    /** Unindex a key, then index it anew. */
    method ReplaceKey(key: Key, destination: Reg)
      requires Valid()
      modifies this
      ensures Valid() && exprs == old(exprs)[key := destination]
    {
      hide Indexed;
      UnindexKey(key, {});
      IndexKey(key, destination);
    }

    /** `_invalidate`, without its last line: forget every expression `destination` holds or takes part in. */
    method Invalidate(destination: Reg)
      requires Valid()
      modifies this
      ensures Valid()
      ensures exprs == Forgotten(old(exprs), destination)
    {
      hide Indexed, KeyReads, At;
      var stale := At(byResult, destination) + At(bySource, destination);
      EntriesTaken(exprs, byResult, bySource, destination);
      ghost var all := stale;
      byResult := byResult - {destination};
      bySource := bySource - {destination};
      while stale != {}
        invariant Indexed(exprs, byResult, bySource, {destination})
        invariant stale <= all && exprs == old(exprs) - (all - stale)
        decreases |stale|
      {
        var key :| key in stale;
        UnindexKey(key, {destination});
        stale := stale - {key};
        assert exprs == old(exprs) - (all - stale);
      }
      NothingGone(exprs, byResult, bySource, destination);
    }
  }

  lemma DropKeys(index: Index, r: Reg, key: Key)
    ensures Drop(index, r, key).Keys <= index.Keys
  {
  }
}
