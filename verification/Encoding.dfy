/** The 128-bit AEC encoding: overlapping control fields, decoding, and raw binaries. */
module Encoding {
  import opened Wrappers
  import opened Words
  import opened Isa
  import opened HalfWords

  /** The tables of an `ISAProfile` the encoder uses. */
  datatype Profile = Profile(opcodes: map<Opcode, nat>, types: map<DType, nat>,
                             spaces: map<Space, nat>, compares: map<Compare, nat>)

  datatype EncodeError =
    | UnsupportedOpcode | UnsupportedType | UnsupportedSource | BranchNeedsPredicate | NegatedWithoutPredicate
    | UnsupportedCompare | UnsupportedSpace | UnknownOpcode | UnknownType | UnknownCompare | UnknownSpace
    | UnknownSource | PartialInstruction

  /** `(word0, word1, word2, word3)`. */
  datatype Quad = Quad(w0: nat, w1: nat, w2: nat, w3: nat)

  predicate InRange(q: Quad) {
    q.w0 < WORD && q.w1 < WORD && q.w2 < WORD && q.w3 < WORD
  }

  const PRED_ENABLE: bv16 := 0x8000
  const PRED_NEGATE: bv16 := 0x4000

  predicate IsCvt(op: Opcode) {
    op == CVTFF || op == CVTFI || op == CVTIF || op == CVTII
  }

  predicate IsCompare(op: Opcode) {
    op == CMP || op == CMPP
  }

  predicate IsMemory(op: Opcode) {
    op == LD || op == ST || op == LDC
  }

  /** `_uses_immediate`. */
  predicate UsesImmediate(op: Opcode) {
    op == LOADI || op == LOADI64 || op == BR || op == BRX || op == CALL
  }

  /** `_instruction_encoding_type`. */
  function EncodingType(op: Opcode, ty: DType): DType {
    if op == SHL && ty == B32 then U32
    else if op == LOADI || op == LOADI64 || op == BR || op == BRX then NoType
    else ty
  }

  // ----- profiles -----

  predicate Injective<K, V(==)>(m: map<K, V>) {
    forall a, b | a in m && b in m && m[a] == m[b] :: a == b
  }

  /** Codes fit their fields and are distinct, and code 0 is a known compare, space and type. */
  predicate WellFormed(p: Profile) {
    && Injective(p.opcodes) && Injective(p.types) && Injective(p.spaces) && Injective(p.compares)
    && (forall k | k in p.opcodes :: p.opcodes[k] < HALF)
    && (forall k | k in p.types :: p.types[k] < 16)
    && (forall k | k in p.spaces :: p.spaces[k] < 8)
    && (forall k | k in p.compares :: p.compares[k] < 8)
    && Gmem in p.spaces && p.spaces[Gmem] == 0 && Eq in p.compares && p.compares[Eq] == 0
  }

  /** A reverse lookup table. */
  function Reverse<K, V(==)>(m: map<K, V>): (r: map<V, K>)
    requires Injective(m)
    ensures forall k | k in m :: m[k] in r && r[m[k]] == k
    ensures forall v | v in r :: r[v] in m && m[r[v]] == v
  {
    map k | k in m :: m[k] := k
  }

  // ----- half-words -----

  function Or(x: bv16, y: bv16): bv16 {
    x | y
  }

  function Shl(x: bv16, k: bv5): bv16
    requires k <= 16
  {
    x << k
  }

  /** `n & 0x7`, as a number. */
  function Mask3(n: nat): (r: nat)
    ensures r < 8 && (n < 8 ==> r == n)
  {
    n % 8
  }

  /** `n & 0x7`. */
  function Low3(n: nat): bv16 {
    Mask3(n) as bv16
  }

  /** `n & 0xF`. */
  function Low4(n: nat): bv16 {
    (n % 16) as bv16
  }

  lemma Low3Value(n: nat)
    ensures Low3(n) < 8 && Low3(n) as nat == Mask3(n)
  {
  }

  lemma Low4Value(n: nat)
    ensures Low4(n) < 16 && Low4(n) as nat == n % 16
  {
  }

  lemma OrLaws(x: bv16, y: bv16, z: bv16)
    ensures Or(x, 0) == x && Or(0, x) == x && Or(Or(x, y), z) == Or(x, Or(y, z))
  {
  }

  /** Shifting the shared bits into place together is shifting each into place. */
  lemma SharedBits(source: bv16, extra: bv16)
    ensures Shl(Or(Shl(source, 2), extra), 8) == Or(Shl(source, 10), Shl(extra, 8))
  {
  }

  lemma SpaceBits(space: bv16)
    requires space < 8
    ensures Shl(Shl(space, 3), 8) == Shl(space, 11)
  {
  }

  lemma ZeroBits()
    ensures Low3(0) == 0 && Shl(0, 2) == 0 && Shl(0, 8) == 0 && Shl(0, 10) == 0
  {
  }

  // ----- encoding -----

  predicate TypeKnown(p: Profile, i: Inst) {
    EncodingType(i.opcode, i.dtype) in p.types
  }

  predicate SourceKnown(p: Profile, i: Inst) {
    IsCvt(i.opcode) && i.cvtSource.Some? ==> i.cvtSource.value in p.types
  }

  predicate GuardAllowed(i: Inst) {
    (i.opcode == BRX ==> i.guard.Some?) && (i.negated ==> i.guard.Some?)
  }

  predicate ExtraKnown(p: Profile, i: Inst) {
    && (i.compare.Some? ==> i.compare.value in p.compares)
    && (i.compare.None? && i.space.Some? ==> i.space.value in p.spaces)
  }

  predicate Encodable(p: Profile, i: Inst) {
    i.opcode in p.opcodes && TypeKnown(p, i) && SourceKnown(p, i) && GuardAllowed(i) && ExtraKnown(p, i)
  }

  function TypeCode(p: Profile, i: Inst): bv16
    requires TypeKnown(p, i)
  {
    Low4(p.types[EncodingType(i.opcode, i.dtype)])
  }

  function GuardBits(i: Inst): bv16 {
    match i.guard
    case None => 0
    case Some(n) => Or(Or(PRED_ENABLE, Low3(n)), if i.negated then PRED_NEGATE else 0)
  }

  function SourceCode(p: Profile, i: Inst): bv16
    requires SourceKnown(p, i)
  {
    if IsCvt(i.opcode) && i.cvtSource.Some? then Low4(p.types[i.cvtSource.value]) else 0
  }

  function Extra(p: Profile, i: Inst): bv16
    requires ExtraKnown(p, i)
  {
    if i.compare.Some? then Low3(p.compares[i.compare.value])
    else if i.space.Some? then Shl(Low3(p.spaces[i.space.value]), 3)
    else Low3(i.family)
  }

  /** The six bits above bit 8: compare, family, space and conversion source share them. */
  function Sub(p: Profile, i: Inst): bv16
    requires Encodable(p, i)
  {
    Or(Shl(SourceCode(p, i), 2), Extra(p, i))
  }

  function Control(p: Profile, i: Inst): bv16
    requires Encodable(p, i)
  {
    Or(Or(Shl(TypeCode(p, i), 3), GuardBits(i)), Shl(Sub(p, i), 8))
  }

  /** `n & 0xFFFF`. */
  function Mask16(n: nat): (r: nat)
    ensures r < HALF && (n < HALF ==> r == n)
  {
    n % HALF
  }

  function Registers(dest: nat, src1: nat): nat {
    Mask16(dest) * HALF + Mask16(src1)
  }

  function WithControl(opcode: nat, ctrl: bv16): nat {
    Mask16(opcode) * HALF + AsNat(ctrl)
  }

  function Encoded(p: Profile, i: Inst): Quad
    requires Encodable(p, i)
  {
    Quad(if UsesImmediate(i.opcode) then Mask32(i.imm) else Mask32(i.src3),
         if i.opcode == LOADI64 then Mask32(i.imm / WORD) else Mask32(i.src2),
         Registers(i.dest, i.src1), WithControl(p.opcodes[i.opcode], Control(p, i)))
  }

  /** What an error says about the instruction. */
  predicate Blames(p: Profile, i: Inst, e: EncodeError) {
    match e
    case UnsupportedOpcode => i.opcode !in p.opcodes
    case UnsupportedType => !TypeKnown(p, i)
    case UnsupportedSource => !SourceKnown(p, i)
    case BranchNeedsPredicate => i.opcode == BRX && i.guard.None?
    case NegatedWithoutPredicate => i.negated && i.guard.None?
    case UnsupportedCompare => i.compare.Some? && i.compare.value !in p.compares
    case UnsupportedSpace => i.compare.None? && i.space.Some? && i.space.value !in p.spaces
    case _ => false
  }

  /** Type and conversion source. */
  function TypedBits(p: Profile, i: Inst): bv16
    requires TypeKnown(p, i) && SourceKnown(p, i)
  {
    if IsCvt(i.opcode) && i.cvtSource.Some? then Or(Or(0, Shl(TypeCode(p, i), 3)), Shl(SourceCode(p, i), 10))
    else Or(0, Shl(TypeCode(p, i), 3))
  }

  /** The guard on top. */
  function GuardedBits(i: Inst, typed: bv16): bv16 {
    match i.guard
    case None => typed
    case Some(n) =>
      var enabled := Or(typed, Or(PRED_ENABLE, Low3(n)));
      if i.negated then Or(enabled, PRED_NEGATE) else enabled
  }

  /** And whatever shares the bits from 8 on. */
  function ExtraBits(p: Profile, i: Inst, guarded: bv16): bv16
    requires ExtraKnown(p, i)
  {
    if i.compare.Some? then Or(guarded, Shl(Low3(p.compares[i.compare.value]), 8))
    else if i.space.Some? then Or(guarded, Shl(Low3(p.spaces[i.space.value]), 11))
    else if i.family != 0 then Or(guarded, Shl(Low3(i.family), 8))
    else guarded
  }

  /** The three stages of accumulation make up the control half-word. */
  lemma ControlGathered(p: Profile, i: Inst)
    requires Encodable(p, i)
    ensures ExtraBits(p, i, GuardedBits(i, TypedBits(p, i))) == Control(p, i)
  {
    hide Or, Shl, Low3, Low4, TypeCode, SourceCode, Extra, GuardBits;
    var t, s, g, x := Shl(TypeCode(p, i), 3), Shl(SourceCode(p, i), 10), GuardBits(i), Shl(Extra(p, i), 8);
    TypedGathered(p, i);
    GuardGathered(i, TypedBits(p, i));
    ExtraGathered(p, i, GuardedBits(i, TypedBits(p, i)));
    SharedBits(SourceCode(p, i), Extra(p, i));
    OrLaws(Or(t, s), g, x);
    OrLaws(t, s, g);
    OrSwaps(s, g);
    OrLaws(t, g, s);
    OrLaws(Or(t, g), s, x);
  }

  lemma OrSwaps(x: bv16, y: bv16)
    ensures Or(x, y) == Or(y, x)
  {
  }

  lemma TypedGathered(p: Profile, i: Inst)
    requires Encodable(p, i)
    ensures TypedBits(p, i) == Or(Shl(TypeCode(p, i), 3), Shl(SourceCode(p, i), 10))
  {
    ZeroBits();
    OrLaws(Shl(TypeCode(p, i), 3), 0, 0);
    hide Or, Shl, Low3, Low4, TypeCode;
  }

  lemma GuardGathered(i: Inst, typed: bv16)
    ensures GuardedBits(i, typed) == Or(typed, GuardBits(i))
  {
    OrLaws(typed, 0, 0);
    if i.guard.Some? {
      OrLaws(Or(PRED_ENABLE, Low3(i.guard.value)), 0, 0);
      OrLaws(typed, Or(PRED_ENABLE, Low3(i.guard.value)), PRED_NEGATE);
    }
    hide Or, Low3;
  }

  lemma ExtraGathered(p: Profile, i: Inst, guarded: bv16)
    requires Encodable(p, i)
    ensures ExtraBits(p, i, guarded) == Or(guarded, Shl(Extra(p, i), 8))
  {
    ZeroBits();
    OrLaws(guarded, 0, 0);
    if i.compare.None? && i.space.Some? {
      Low3Value(p.spaces[i.space.value]);
      SpaceBits(Low3(p.spaces[i.space.value]));
    }
    hide Or, Low3, Low4, Shl;
  }

  lemma StagesGathered(p: Profile, i: Inst, typed: bv16, guarded: bv16, ctrl: bv16)
    requires Encodable(p, i) && typed == TypedBits(p, i) && guarded == GuardedBits(i, typed)
    requires ctrl == ExtraBits(p, i, guarded)
    ensures ctrl == Control(p, i)
  {
    ControlGathered(p, i);
    hide *;
  }

  /** `encode_instruction`, the guard. */
  method EncodeGuard(i: Inst, typed: bv16) returns (r: Result<bv16, EncodeError>)
    ensures r.Ok? <==> GuardAllowed(i)
    ensures match r
            case Ok(ctrl) => ctrl == GuardedBits(i, typed)
            case Err(e) => e == if i.opcode == BRX then BranchNeedsPredicate else NegatedWithoutPredicate
  {
    hide Or, Low3;
    var ctrl := typed;
    if i.opcode == BRX {
      if i.guard.None? {
        return Err(BranchNeedsPredicate);
      }
      ctrl := Or(ctrl, Or(PRED_ENABLE, Low3(i.guard.value)));
      if i.negated {
        ctrl := Or(ctrl, PRED_NEGATE);
      }
    } else if i.guard.Some? {
      ctrl := Or(ctrl, Or(PRED_ENABLE, Low3(i.guard.value)));
      if i.negated {
        ctrl := Or(ctrl, PRED_NEGATE);
      }
    } else if i.negated {
      return Err(NegatedWithoutPredicate);
    }
    return Ok(ctrl);
  }

  /** `encode_instruction`, the accumulation of `pred_ctrl`. */
  method EncodeControl(p: Profile, i: Inst, dtype: DType) returns (r: Result<bv16, EncodeError>)
    requires i.opcode in p.opcodes && dtype == EncodingType(i.opcode, i.dtype) && dtype in p.types
    ensures r.Ok? <==> Encodable(p, i)
    ensures match r case Ok(ctrl) => ctrl == Control(p, i) case Err(e) => Blames(p, i, e)
  {
    hide Or, Shl, Low3, Low4, Control, GuardedBits;
    var ctrl: bv16 := 0;
    if IsCvt(i.opcode) && i.cvtSource.Some? {
      if i.cvtSource.value !in p.types {
        return Err(UnsupportedSource);
      }
      ctrl := Or(ctrl, Shl(Low4(p.types[dtype]), 3));
      ctrl := Or(ctrl, Shl(Low4(p.types[i.cvtSource.value]), 10));
    } else {
      ctrl := Or(ctrl, Shl(Low4(p.types[dtype]), 3));
    }
    assert ctrl == TypedBits(p, i);
    hide TypedBits;
    var guarded := EncodeGuard(i, ctrl);
    if guarded.Err? {
      return guarded;
    }
    ghost var typed := ctrl;
    ctrl := guarded.value;
    if i.compare.Some? {
      if i.compare.value !in p.compares {
        return Err(UnsupportedCompare);
      }
      ctrl := Or(ctrl, Shl(Low3(p.compares[i.compare.value]), 8));
    } else if i.space.Some? {
      if i.space.value !in p.spaces {
        return Err(UnsupportedSpace);
      }
      ctrl := Or(ctrl, Shl(Low3(p.spaces[i.space.value]), 11));
    } else if i.family != 0 {
      ctrl := Or(ctrl, Shl(Low3(i.family), 8));
    }
    assert ctrl == ExtraBits(p, i, guarded.value);
    hide ExtraBits;
    StagesGathered(p, i, typed, guarded.value, ctrl);
    return Ok(ctrl);
  }

  /** `encode_instruction`. */
  method EncodeInstruction(p: Profile, i: Inst) returns (r: Result<Quad, EncodeError>)
    ensures r.Ok? <==> Encodable(p, i)
    ensures match r case Ok(q) => q == Encoded(p, i) case Err(e) => Blames(p, i, e)
  {
    hide Control, Mask32, Registers, WithControl;
    if i.opcode !in p.opcodes {
      return Err(UnsupportedOpcode);
    }
    var dtype := EncodingType(i.opcode, i.dtype);
    if dtype !in p.types {
      return Err(UnsupportedType);
    }
    var ctrl := EncodeControl(p, i, dtype);
    if ctrl.Err? {
      return Err(ctrl.error);
    }
    var word0, word1;
    if i.opcode == LOADI64 {
      word0, word1 := Mask32(i.imm), Mask32(i.imm / WORD);
    } else if UsesImmediate(i.opcode) {
      word0, word1 := Mask32(i.imm), Mask32(i.src2);
    } else {
      word0, word1 := Mask32(i.src3), Mask32(i.src2);
    }
    return Ok(Quad(word0, word1, Registers(i.dest, i.src1), WithControl(p.opcodes[i.opcode], ctrl.value)));
  }
}
