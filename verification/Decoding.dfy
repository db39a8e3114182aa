/** Decoding AEC words, and when encoding and decoding undo each other. */
module Decoding {
  import opened Wrappers
  import opened Words
  import opened Isa
  import opened HalfWords
  import opened Encoding

  function TypeField(c: bv16): nat {
    ((c >> 3) & 0xF) as nat
  }

  function FamilyField(c: bv16): nat {
    ((c >> 8) & 0x7) as nat
  }

  function SpaceField(c: bv16): nat {
    ((c >> 11) & 0x7) as nat
  }

  function SourceField(c: bv16): nat {
    ((c >> 10) & 0xF) as nat
  }

  function PredField(c: bv16): nat {
    (c & 0x7) as nat
  }

  predicate Enabled(c: bv16) {
    c & PRED_ENABLE != 0
  }

  predicate Negated(c: bv16) {
    c & PRED_NEGATE != 0
  }

  function ControlOf(w3: nat): bv16 {
    AsBits(Mask16(w3))
  }

  function SecondSource(op: Opcode, q: Quad): nat {
    if op == LOADI64 then 0 else Mask32(q.w1)
  }

  function ThirdSource(op: Opcode, q: Quad): nat {
    if UsesImmediate(op) then 0 else Mask32(q.w0)
  }

  function Immediate(op: Opcode, q: Quad): nat {
    if op == LOADI64 then Mask32(q.w1) * WORD + Mask32(q.w0)
    else if UsesImmediate(op) then Mask32(q.w0) else 0
  }

  /** `decode_words_to_instruction`. */
  function Decode(p: Profile, q: Quad): (r: Result<Inst, EncodeError>)
    requires WellFormed(p)
  {
    var code, c := Mask16(q.w3 / HALF), ControlOf(q.w3);
    if code !in Reverse(p.opcodes) then Err(UnknownOpcode)
    else
      var op := Reverse(p.opcodes)[code];
      if TypeField(c) !in Reverse(p.types) then Err(UnknownType)
      else if IsCompare(op) && FamilyField(c) !in Reverse(p.compares) then Err(UnknownCompare)
      else if IsMemory(op) && SpaceField(c) !in Reverse(p.spaces) then Err(UnknownSpace)
      else if IsCvt(op) && SourceField(c) !in Reverse(p.types) then Err(UnknownSource)
      else Ok(Inst(op, Reverse(p.types)[TypeField(c)], Mask16(q.w2 / HALF), Mask16(q.w2),
                   SecondSource(op, q), ThirdSource(op, q), Immediate(op, q),
                   if op == BRX || Enabled(c) then Some(PredField(c)) else None,
                   (op == BRX || Enabled(c)) && Negated(c),
                   if IsCompare(op) then Some(Reverse(p.compares)[FamilyField(c)]) else None,
                   if IsMemory(op) then Some(Reverse(p.spaces)[SpaceField(c)]) else None,
                   if IsCvt(op) then Some(Reverse(p.types)[SourceField(c)]) else None,
                   0))
  }

  // ----- fields come back -----

  // The shared six bits, as a compare or family, as a space, as a conversion source.

  function AsFamily(sub: bv16): nat {
    (sub & 0x7) as nat
  }

  function AsSpace(sub: bv16): nat {
    (sub >> 3) as nat
  }

  function AsSource(sub: bv16): nat {
    (sub >> 2) as nat
  }

  function SubField(c: bv16): bv16 {
    (c >> 8) & 0x3F
  }

  function Guarding(on: bool, n: bv16, neg: bool): bv16 {
    if on then Or(Or(PRED_ENABLE, n), if neg then PRED_NEGATE else 0) else 0
  }

  /** Disjoint fields of a half-word can be read off again. */
  lemma BitFields(t: bv16, g: bv16, sub: bv16)
    requires t < 16 && g & 0x3FF8 == 0 && sub < 64
    ensures var c := ((t << 3) | g) | (sub << 8);
            && (c >> 3) & 0xF == t && c & 0x7 == g & 0x7 && c & 0x8000 == g & 0x8000 && c & 0x4000 == g & 0x4000
            && (c >> 8) & 0x7 == sub & 0x7 && (c >> 11) & 0x7 == sub >> 3 && (c >> 10) & 0xF == sub >> 2
            && (c >> 8) & 0x3F == sub
  {
  }

  lemma GuardFields(on: bool, n: bv16, neg: bool)
    requires n < 8 && (neg ==> on)
    ensures var g := Guarding(on, n, neg);
            && g & 0x3FF8 == 0 && (on ==> g & 0x7 == n) && (g & 0x8000 != 0 <==> on) && (g & 0x4000 != 0 <==> neg)
  {
  }

  lemma LowFields(t: bv16, on: bool, n: bv16, neg: bool, sub: bv16)
    requires t < 16 && n < 8 && sub < 64 && (neg ==> on)
    ensures var c := Or(Or(Shl(t, 3), Guarding(on, n, neg)), Shl(sub, 8));
            TypeField(c) == t as nat && (on ==> PredField(c) == n as nat) && (Enabled(c) <==> on)
                && (Negated(c) <==> neg)
  {
    var g := Guarding(on, n, neg);
    GuardFields(on, n, neg);
    BitFields(t, g, sub);
    hide Guarding;
  }

  lemma HighFields(t: bv16, on: bool, n: bv16, neg: bool, sub: bv16)
    requires t < 16 && n < 8 && sub < 64 && (neg ==> on)
    ensures var c := Or(Or(Shl(t, 3), Guarding(on, n, neg)), Shl(sub, 8));
            && FamilyField(c) == AsFamily(sub) && SpaceField(c) == AsSpace(sub) && SourceField(c) == AsSource(sub)
            && SubField(c) == sub
  {
    var g := Guarding(on, n, neg);
    GuardFields(on, n, neg);
    BitFields(t, g, sub);
    hide Guarding;
  }

  lemma SubSmall(s: bv16, x: bv16)
    requires s < 16 && x < 64
    ensures Or(Shl(s, 2), x) < 64
  {
  }

  lemma SmallBits(x: bv16)
    requires x < 8
    ensures x < 64 && Shl(x, 3) < 64
  {
  }

  lemma SubBound(p: Profile, i: Inst)
    requires Encodable(p, i)
    ensures Sub(p, i) < 64
  {
    Low3Value(if i.compare.Some? then p.compares[i.compare.value]
              else if i.space.Some? then p.spaces[i.space.value] else i.family);
    SmallBits(Low3(if i.compare.Some? then p.compares[i.compare.value]
                   else if i.space.Some? then p.spaces[i.space.value] else i.family));
    if IsCvt(i.opcode) && i.cvtSource.Some? {
      Low4Value(p.types[i.cvtSource.value]);
    }
    hide Low3, Low4, Shl, Or;
    SubSmall(SourceCode(p, i), Extra(p, i));
  }

  /** What decoding finds in the control half-word. */
  lemma ControlFields(p: Profile, i: Inst)
    requires WellFormed(p) && Encodable(p, i)
    ensures var c := Control(p, i);
            && TypeField(c) == p.types[EncodingType(i.opcode, i.dtype)]
            && (Enabled(c) <==> i.guard.Some?) && (Negated(c) <==> i.negated)
            && (i.guard.Some? ==> PredField(c) == Mask3(i.guard.value))
            && FamilyField(c) == AsFamily(Sub(p, i)) && SpaceField(c) == AsSpace(Sub(p, i))
            && SourceField(c) == AsSource(Sub(p, i)) && SubField(c) == Sub(p, i)
  {
    hide Low3, Low4, Sub, Or, Shl, TypeField, FamilyField, SpaceField, SourceField, PredField, Enabled, Negated,
         AsFamily, AsSpace, AsSource, SubField, Injective, IsCompare, IsMemory, IsCvt, Mask3, Readable;
    SubBound(p, i);
    Low4Value(p.types[EncodingType(i.opcode, i.dtype)]);
    var n := GuardIndex(i);
    LowFields(TypeCode(p, i), i.guard.Some?, n, i.negated, Sub(p, i));
    HighFields(TypeCode(p, i), i.guard.Some?, n, i.negated, Sub(p, i));
  }

  lemma GuardIndex(i: Inst) returns (n: bv16)
    ensures n < 8 && (i.guard.Some? ==> n == Low3(i.guard.value) && n as nat == Mask3(i.guard.value))
  {
    n := 0;
    if i.guard.Some? {
      n := Low3(i.guard.value);
      Low3Value(i.guard.value);
    }
    hide Low3;
  }

  // ----- round trips -----

  lemma UpperLower(upper: nat, lower: nat)
    requires upper < HALF && lower < HALF
    ensures Mask16((upper * HALF + lower) / HALF) == upper && Mask16(upper * HALF + lower) == lower
    ensures upper * HALF + lower < WORD
  {
  }

  lemma ControlWord(opcode: nat, ctrl: bv16)
    requires opcode < HALF
    ensures Mask16(WithControl(opcode, ctrl) / HALF) == opcode && ControlOf(WithControl(opcode, ctrl)) == ctrl
    ensures WithControl(opcode, ctrl) < WORD
  {
    hide Mask16, AsBits, AsNat;
    BitsBack(ctrl);
    UpperLower(opcode, AsNat(ctrl));
  }

  lemma RegisterFields(dest: nat, src1: nat)
    ensures Mask16(Registers(dest, src1) / HALF) == Mask16(dest) && Mask16(Registers(dest, src1)) == Mask16(src1)
    ensures Registers(dest, src1) < WORD
    ensures Registers(Mask16(dest), Mask16(src1)) == Registers(dest, src1)
  {
    UpperLower(Mask16(dest), Mask16(src1));
    hide Mask16;
  }

  lemma MaskFields(x: int)
    ensures Mask32(Mask32(x)) == Mask32(x)
    ensures 0 <= x < WORD ==> Mask32(x) == x
  {
  }

  /** Both halves of a 64-bit immediate. */
  lemma WideImmediate(x: int)
    ensures var y := Mask32(x / WORD) * WORD + Mask32(x);
            0 <= y < WORD * WORD && (0 <= x < WORD * WORD <==> y == x)
    ensures var y := Mask32(x / WORD) * WORD + Mask32(x); Mask32(y) == Mask32(x) && Mask32(y / WORD) == Mask32(x / WORD)
  {
    var low, high := x % WORD, (x / WORD) % WORD;
    var rest := x / WORD / WORD;
    assert x == (rest * WORD + high) * WORD + low;
    assert x == rest * (WORD * WORD) + (high * WORD + low);
    assert 0 <= high * WORD + low < WORD * WORD;
    ModUnique(x, WORD * WORD, rest, high * WORD + low);
    ModUnique(high * WORD + low, WORD, high, low);
  }

  lemma SmallMultiple(k: int, m: int)
    requires m > 0
    ensures -m < k * m < m ==> k == 0
  {
    if k >= 1 {
      assert k * m >= m;
    } else if k <= -1 {
      assert k * m <= -m;
    }
  }

  lemma ModUnique(x: int, m: nat, q: int, r: nat)
    requires m > 0 && x == q * m + r && r < m
    ensures x % m == r && x / m == q
  {
    assert (x / m - q) * m == r - x % m;
    SmallMultiple(x / m - q, m);
  }

  /** The value of the shared bits is one the decoder can read for this opcode. */
  predicate Readable(p: Profile, op: Opcode, sub: bv16)
    requires WellFormed(p)
  {
    if IsCompare(op) then AsFamily(sub) in Reverse(p.compares)
    else if IsMemory(op) then AsSpace(sub) in Reverse(p.spaces)
    else IsCvt(op) ==> AsSource(sub) in Reverse(p.types)
  }

  /** What decoding the encoding of `i` gives. */
  function ReadBack(p: Profile, i: Inst): Inst
    requires WellFormed(p) && Encodable(p, i) && Readable(p, i.opcode, Sub(p, i))
  {
    var op, sub := i.opcode, Sub(p, i);
    Inst(op, EncodingType(op, i.dtype), Mask16(i.dest), Mask16(i.src1),
         if op == LOADI64 then 0 else Mask32(i.src2),
         if UsesImmediate(op) then 0 else Mask32(i.src3),
         if op == LOADI64 then Mask32(i.imm / WORD) * WORD + Mask32(i.imm)
         else if UsesImmediate(op) then Mask32(i.imm) else 0,
         if i.guard.Some? then Some(Mask3(i.guard.value)) else None,
         i.negated,
         if IsCompare(op) then Some(Reverse(p.compares)[AsFamily(sub)]) else None,
         if IsMemory(op) then Some(Reverse(p.spaces)[AsSpace(sub)]) else None,
         if IsCvt(op) then Some(Reverse(p.types)[AsSource(sub)]) else None,
         0)
  }

  lemma ReverseGets<K, V>(m: map<K, V>, k: K)
    requires Injective(m) && k in m
    ensures m[k] in Reverse(m) && Reverse(m)[m[k]] == k
  {
  }

  lemma OperandsBack(p: Profile, i: Inst)
    requires WellFormed(p) && Encodable(p, i) && Readable(p, i.opcode, Sub(p, i))
    ensures var q := Encoded(p, i); var r := ReadBack(p, i);
            && SecondSource(i.opcode, q) == r.src2 && ThirdSource(i.opcode, q) == r.src3
            && Immediate(i.opcode, q) == r.imm
            && Mask16(q.w2 / HALF) == r.dest && Mask16(q.w2) == r.src1
  {
    hide Mask32, WithControl, Control, Registers, Sub, Reverse;
    RegisterFields(i.dest, i.src1);
    MaskFields(i.src2);
    MaskFields(i.src3);
    MaskFields(i.imm);
    MaskFields(i.imm / WORD);
  }

  lemma DecodesToReadBack(p: Profile, i: Inst)
    requires WellFormed(p) && Encodable(p, i)
    ensures Readable(p, i.opcode, Sub(p, i)) ==> Decode(p, Encoded(p, i)) == Ok(ReadBack(p, i))
    ensures !Readable(p, i.opcode, Sub(p, i)) ==> Decode(p, Encoded(p, i)).Err?
  {
    hide Reverse, Injective, Control, Sub, WithControl, ControlOf, Registers, TypeField, FamilyField, SpaceField,
         SourceField, PredField, Enabled, Negated, AsFamily, AsSpace, AsSource, SubField, Mask32, SecondSource,
         ThirdSource, Immediate;
    ControlFields(p, i);
    ControlWord(p.opcodes[i.opcode], Control(p, i));
    ReverseGets(p.opcodes, i.opcode);
    ReverseGets(p.types, EncodingType(i.opcode, i.dtype));
    if Readable(p, i.opcode, Sub(p, i)) {
      OperandsBack(p, i);
    }
  }

  /** Every field in range, and the optional fields present exactly where the opcode reads them. */
  predicate Canonical(p: Profile, i: Inst) {
    && Encodable(p, i)
    && i.dtype == EncodingType(i.opcode, i.dtype)
    && i.dest < HALF && i.src1 < HALF
    && (if i.opcode == LOADI64 then 0 <= i.imm < WORD * WORD && i.src2 == 0 && i.src3 == 0
        else if UsesImmediate(i.opcode) then 0 <= i.imm < WORD && i.src2 < WORD && i.src3 == 0
        else i.imm == 0 && i.src2 < WORD && i.src3 < WORD)
    && (i.guard.Some? ==> i.guard.value < 8)
    && (i.compare.Some? <==> IsCompare(i.opcode)) && (i.space.Some? <==> IsMemory(i.opcode))
    && (i.cvtSource.Some? <==> IsCvt(i.opcode)) && i.family == 0
  }

  /** Only the field the opcode reads is set, and to a value the decoder knows. */
  predicate CleanSub(p: Profile, i: Inst)
    requires WellFormed(p) && Encodable(p, i)
  {
    var sub := Sub(p, i);
    && Readable(p, i.opcode, sub)
    && (if IsCompare(i.opcode) then AsSpace(sub) == 0
        else if IsMemory(i.opcode) then AsFamily(sub) == 0
        else if IsCvt(i.opcode) then AsFamily(sub) % 4 == 0
        else sub == 0)
  }

  /** The shared bits of a canonical instruction are its one optional field. */
  lemma CanonicalSub(p: Profile, i: Inst)
    requires WellFormed(p) && Canonical(p, i)
    ensures var sub := Sub(p, i);
            && (IsCompare(i.opcode) ==> AsFamily(sub) == p.compares[i.compare.value] && AsSpace(sub) == 0)
            && (IsMemory(i.opcode) ==> AsSpace(sub) == p.spaces[i.space.value] && AsFamily(sub) == 0)
            && (IsCvt(i.opcode) ==> AsSource(sub) == p.types[i.cvtSource.value] && AsFamily(sub) % 4 == 0)
            && (!IsCompare(i.opcode) && !IsMemory(i.opcode) && !IsCvt(i.opcode) ==> sub == 0)
  {
    ZeroBits();
    OrLaws(Extra(p, i), 0, 0);
    OrLaws(Shl(SourceCode(p, i), 2), 0, 0);
    if IsCompare(i.opcode) {
      Low3Value(p.compares[i.compare.value]);
      PlainField(Low3(p.compares[i.compare.value]));
    } else if IsMemory(i.opcode) {
      Low3Value(p.spaces[i.space.value]);
      SpaceShifted(Low3(p.spaces[i.space.value]));
    } else if IsCvt(i.opcode) {
      Low4Value(p.types[i.cvtSource.value]);
      SourceShifted(Low4(p.types[i.cvtSource.value]));
    }
    hide Low3, Low4, Or, Shl, AsFamily, AsSpace, AsSource;
  }

  lemma PlainField(x: bv16)
    requires x < 8
    ensures AsFamily(x) == x as nat && AsSpace(x) == 0
  {
    assert x & 0x7 == x && x >> 3 == 0;
  }

  lemma SpaceShifted(x: bv16)
    requires x < 8
    ensures AsSpace(Shl(x, 3)) == x as nat && AsFamily(Shl(x, 3)) == 0
  {
    assert (x << 3) >> 3 == x && (x << 3) & 0x7 == 0;
  }

  lemma SourceShifted(x: bv16)
    requires x < 16
    ensures AsSource(Shl(x, 2)) == x as nat && AsFamily(Shl(x, 2)) % 4 == 0
  {
    assert (x << 2) >> 2 == x;
    assert (x << 2) & 0x7 == 0 || (x << 2) & 0x7 == 4;
  }

  /** A shared field is determined by the part the opcode reads, once the other part is clear. */
  lemma SubDetermined(x: bv16, y: bv16)
    requires x < 64 && y < 64
    ensures AsFamily(x) == AsFamily(y) && AsSpace(x) == AsSpace(y) ==> x == y
    ensures AsSource(x) == AsSource(y) && AsFamily(x) % 4 == 0 && AsFamily(y) % 4 == 0 ==> x == y
  {
    if AsFamily(x) == AsFamily(y) && AsSpace(x) == AsSpace(y) {
      SameBits(x & 0x7, y & 0x7);
      SameBits(x >> 3, y >> 3);
      assert x == ((x >> 3) << 3) | (x & 0x7) && y == ((y >> 3) << 3) | (y & 0x7);
    }
    if AsSource(x) == AsSource(y) && AsFamily(x) % 4 == 0 && AsFamily(y) % 4 == 0 {
      SameBits(x >> 2, y >> 2);
      LowTwo(x);
      LowTwo(y);
      assert x == ((x >> 2) << 2) | (x & 0x3) && y == ((y >> 2) << 2) | (y & 0x3);
    }
  }

  lemma SameBits(x: bv16, y: bv16)
    requires x as nat == y as nat
    ensures x == y
  {
    BitsBack(x);
    BitsBack(y);
  }

  lemma LowTwo(x: bv16)
    requires AsFamily(x) % 4 == 0
    ensures x & 0x3 == 0
  {
    var low := x & 0x7;
    SevenCases(low);
    assert x & 0x3 == low & 0x3;
  }

  lemma SevenCases(low: bv16)
    requires low < 8 && (low as nat) % 4 == 0
    ensures low == 0 || low == 4
  {
  }

  /** Decoding undoes encoding exactly for the canonical instructions. */
  lemma DecodeUndoesEncode(p: Profile, i: Inst)
    requires WellFormed(p) && Encodable(p, i)
    ensures Decode(p, Encoded(p, i)) == Ok(i) <==> Canonical(p, i)
  {
    hide Sub, Encoded, Decode, AsFamily, AsSpace, AsSource, Reverse, Injective;
    DecodesToReadBack(p, i);
    WideImmediate(i.imm);
    if Canonical(p, i) {
      CanonicalSub(p, i);
      if IsCompare(i.opcode) {
        ReverseGets(p.compares, i.compare.value);
      } else if IsMemory(i.opcode) {
        ReverseGets(p.spaces, i.space.value);
      } else if IsCvt(i.opcode) {
        ReverseGets(p.types, i.cvtSource.value);
      }
      CanonicalReadBack(p, i);
    }
  }

  lemma CanonicalIndices(p: Profile, i: Inst)
    requires WellFormed(p) && Canonical(p, i) && Readable(p, i.opcode, Sub(p, i))
    ensures var r := ReadBack(p, i); r.dest == i.dest && r.src1 == i.src1 && r.guard == i.guard
  {
    hide Sub, AsFamily, AsSpace, AsSource, Reverse, Injective, WellFormed, Encodable, Readable, Mask32, Mask16, Mask3;
  }

  lemma CanonicalSources(p: Profile, i: Inst)
    requires WellFormed(p) && Canonical(p, i) && Readable(p, i.opcode, Sub(p, i))
    ensures var r := ReadBack(p, i); r.src2 == i.src2 && r.src3 == i.src3
  {
    hide Sub, AsFamily, AsSpace, AsSource, Reverse, Injective, WellFormed, Encodable, Readable, Mask32, Mask16, Mask3;
    MaskFields(i.src2);
    MaskFields(i.src3);
  }

  lemma CanonicalImmediate(p: Profile, i: Inst)
    requires WellFormed(p) && Canonical(p, i) && Readable(p, i.opcode, Sub(p, i))
    ensures ReadBack(p, i).imm == i.imm
  {
    hide Sub, AsFamily, AsSpace, AsSource, Reverse, Injective, WellFormed, Encodable, Readable, Mask32, Mask16, Mask3;
    WideImmediate(i.imm);
    MaskFields(i.imm);
  }

  lemma CanonicalReadBack(p: Profile, i: Inst)
    requires WellFormed(p) && Canonical(p, i) && Readable(p, i.opcode, Sub(p, i))
    requires IsCompare(i.opcode) ==> Reverse(p.compares)[AsFamily(Sub(p, i))] == i.compare.value
    requires IsMemory(i.opcode) ==> Reverse(p.spaces)[AsSpace(Sub(p, i))] == i.space.value
    requires IsCvt(i.opcode) ==> Reverse(p.types)[AsSource(Sub(p, i))] == i.cvtSource.value
    ensures ReadBack(p, i) == i
  {
    hide Sub, AsFamily, AsSpace, AsSource, Reverse, Injective, WellFormed, Encodable, Readable, Mask32, Mask16, Mask3;
    CanonicalIndices(p, i);
    CanonicalSources(p, i);
    CanonicalImmediate(p, i);
  }

  /** Encoding what was decoded gives the same words exactly when the shared bits hold nothing else. */
  lemma ReencodeExactly(p: Profile, i: Inst)
    requires WellFormed(p) && Encodable(p, i)
    ensures (exists j :: Decode(p, Encoded(p, i)) == Ok(j) && Encodable(p, j) && Encoded(p, j) == Encoded(p, i))
            <==> CleanSub(p, i)
  {
    hide Sub, Encoded, Decode, AsFamily, AsSpace, AsSource, Reverse, Injective, WellFormed, Encodable, ReadBack,
         CleanSub, Readable;
    DecodesToReadBack(p, i);
    if Readable(p, i.opcode, Sub(p, i)) {
      ReadBackCanonical(p, i);
      ReadBackEncodes(p, i, ReadBack(p, i));
    } else {
      UnreadableNotClean(p, i);
    }
  }

  lemma UnreadableNotClean(p: Profile, i: Inst)
    requires WellFormed(p) && Encodable(p, i) && !Readable(p, i.opcode, Sub(p, i))
    ensures !CleanSub(p, i)
  {
  }

  /** What is read back from an encoding is canonical. */
  lemma ReadBackCanonical(p: Profile, i: Inst)
    requires WellFormed(p) && Encodable(p, i) && Readable(p, i.opcode, Sub(p, i))
    ensures Canonical(p, ReadBack(p, i))
  {
    WideImmediate(i.imm);
    hide Sub, AsFamily, AsSpace, AsSource, Injective;
  }

  /** It has the words of `i` exactly if `i` keeps the shared bits clean. */
  lemma ReadBackEncodes(p: Profile, i: Inst, j: Inst)
    requires WellFormed(p) && Encodable(p, i) && Readable(p, i.opcode, Sub(p, i))
    requires j == ReadBack(p, i) && Canonical(p, j)
    ensures Encoded(p, j) == Encoded(p, i) <==> CleanSub(p, i)
  {
    hide Sub, Encoded, AsFamily, AsSpace, AsSource, Injective, Mask32, Mask16, Mask3, Registers;
    SameUpToSub(p, i, j);
    CanonicalSub(p, j);
    SubBound(p, i);
    SubBound(p, j);
    SubDetermined(Sub(p, i), Sub(p, j));
    ZeroFields();
  }

  lemma ZeroFields()
    ensures AsFamily(0) == 0 && AsSpace(0) == 0 && AsSource(0) == 0
  {
  }

  /** Outside the control half-word nothing is lost. */
  lemma SameRegisterWord(p: Profile, i: Inst, j: Inst)
    requires WellFormed(p) && Encodable(p, i) && Readable(p, i.opcode, Sub(p, i)) && j == ReadBack(p, i)
             && Encodable(p, j)
    ensures Encoded(p, j).w2 == Encoded(p, i).w2
  {
    hide Sub, AsFamily, AsSpace, AsSource, Reverse, Injective, WellFormed, Encodable, Readable, Mask32, Mask16, Mask3,
         Registers, WithControl, Control;
    RegisterFields(i.dest, i.src1);
  }

  lemma SameOperandWords(p: Profile, i: Inst, j: Inst)
    requires WellFormed(p) && Encodable(p, i) && Readable(p, i.opcode, Sub(p, i)) && j == ReadBack(p, i)
             && Encodable(p, j)
    ensures Encoded(p, j).w0 == Encoded(p, i).w0 && Encoded(p, j).w1 == Encoded(p, i).w1
  {
    hide Sub, AsFamily, AsSpace, AsSource, Reverse, Injective, WellFormed, Encodable, Readable, Mask32, Mask16, Mask3,
         Registers, WithControl, Control;
    if i.opcode == LOADI64 {
      WideImmediate(i.imm);
    } else if UsesImmediate(i.opcode) {
      MaskFields(i.src2);
      MaskFields(i.imm);
    } else {
      MaskFields(i.src2);
      MaskFields(i.src3);
    }
  }

  lemma SameTypeAndGuard(p: Profile, i: Inst, j: Inst)
    requires WellFormed(p) && Encodable(p, i) && Readable(p, i.opcode, Sub(p, i)) && j == ReadBack(p, i)
             && Encodable(p, j)
    ensures TypeCode(p, j) == TypeCode(p, i) && GuardBits(j) == GuardBits(i)
  {
    hide Sub, AsFamily, AsSpace, AsSource, Reverse, Injective, WellFormed, Readable, Low3, Low4, Or, Shl;
    if i.guard.Some? {
      SameGuard(i.guard.value);
    }
  }

  /** Apart from the shared bits the words of `i` and of what is read back agree. */
  lemma SameUpToSub(p: Profile, i: Inst, j: Inst)
    requires WellFormed(p) && Encodable(p, i) && Readable(p, i.opcode, Sub(p, i))
    requires j == ReadBack(p, i) && Canonical(p, j)
    ensures Encoded(p, j) == Encoded(p, i) <==> Sub(p, j) == Sub(p, i)
  {
    SameRegisterWord(p, i, j);
    SameOperandWords(p, i, j);
    SameTypeAndGuard(p, i, j);
    var ci, cj := SameControl(p, i, j);
    ControlWord(p.opcodes[i.opcode], ci);
    ControlWord(p.opcodes[i.opcode], cj);
    hide Sub, WithControl, ControlOf, Registers, Mask32, Reverse, Injective, Control;
  }

  lemma SameControl(p: Profile, i: Inst, j: Inst) returns (ci: bv16, cj: bv16)
    requires WellFormed(p) && Encodable(p, i) && Encodable(p, j)
    requires TypeCode(p, j) == TypeCode(p, i) && GuardBits(j) == GuardBits(i)
    ensures ci == Control(p, i) && cj == Control(p, j)
    ensures ci == cj <==> Sub(p, j) == Sub(p, i)
  {
    ControlFields(p, i);
    ControlFields(p, j);
    ci, cj := Control(p, i), Control(p, j);
    hide Sub, TypeCode, GuardBits, Or, Shl, SubField, WellFormed, Encodable;
  }

  lemma SameGuard(n: nat)
    ensures Low3(Mask3(n)) == Low3(n)
  {
  }

  // ----- any four words -----

  /** The bit between the type and the shared field, which nothing reads. */
  predicate BitSeven(c: bv16) {
    c & 0x80 != 0
  }

  /** What the decoder does not read outside the shared bits is clear, and what it reads is the encoder's choice. */
  predicate PlainClean(c: bv16, j: Inst) {
    && !BitSeven(c) && (j.opcode == BRX ==> Enabled(c))
    && (!Enabled(c) ==> PredField(c) == 0 && !Negated(c))
  }

  /** The shared bits hold nothing but the field the opcode reads. */
  predicate SharedClean(c: bv16, j: Inst) {
    if IsCompare(j.opcode) then AsSpace(SubField(c)) == 0
    else if IsMemory(j.opcode) then AsFamily(SubField(c)) == 0
    else if IsCvt(j.opcode) then AsFamily(SubField(c)) % 4 == 0
    else SubField(c) == 0
  }

  /** Nothing in the control half-word goes unread, and the type is the one the encoder writes for the opcode. */
  predicate NothingUnread(c: bv16, j: Inst) {
    j.dtype == EncodingType(j.opcode, j.dtype) && PlainClean(c, j) && SharedClean(c, j)
  }

  predicate SamePlain(c: bv16, d: bv16) {
    && TypeField(c) == TypeField(d) && PredField(c) == PredField(d)
    && Enabled(c) == Enabled(d) && Negated(c) == Negated(d) && BitSeven(c) == BitSeven(d)
  }

  lemma SharedFields(c: bv16)
    ensures FamilyField(c) == AsFamily(SubField(c)) && SpaceField(c) == AsSpace(SubField(c))
    ensures SourceField(c) == AsSource(SubField(c)) && SubField(c) < 64
    ensures TypeField(c) < 16 && PredField(c) < 8
  {
    var sub := (c >> 8) & 0x3F;
    assert (c >> 8) & 0x7 == sub & 0x7 && (c >> 11) & 0x7 == sub >> 3 && (c >> 10) & 0xF == sub >> 2;
  }

  lemma RebuildBits(c: bv16, d: bv16)
    requires (c >> 3) & 0xF == (d >> 3) & 0xF && c & 0x7 == d & 0x7 && c & 0x80 == d & 0x80
    requires (c >> 8) & 0x3F == (d >> 8) & 0x3F && c & 0x8000 == d & 0x8000 && c & 0x4000 == d & 0x4000
    ensures c == d
  {
  }

  lemma TopBit(c: bv16)
    ensures c & 0x8000 == if Enabled(c) then 0x8000 else 0
  {
  }

  lemma NextBit(c: bv16)
    ensures c & 0x4000 == if Negated(c) then 0x4000 else 0
  {
  }

  lemma SeventhBit(c: bv16)
    ensures c & 0x80 == if BitSeven(c) then 0x80 else 0
  {
  }

  lemma FieldBits(c: bv16, d: bv16)
    ensures TypeField(c) == TypeField(d) ==> (c >> 3) & 0xF == (d >> 3) & 0xF
    ensures PredField(c) == PredField(d) ==> c & 0x7 == d & 0x7
  {
    if TypeField(c) == TypeField(d) {
      SameBits((c >> 3) & 0xF, (d >> 3) & 0xF);
    }
    if PredField(c) == PredField(d) {
      SameBits(c & 0x7, d & 0x7);
    }
  }

  lemma PlainBits(c: bv16, d: bv16)
    requires SamePlain(c, d)
    ensures (c >> 3) & 0xF == (d >> 3) & 0xF && c & 0x7 == d & 0x7 && c & 0x80 == d & 0x80
    ensures c & 0x8000 == d & 0x8000 && c & 0x4000 == d & 0x4000
  {
    FieldBits(c, d);
    TopBit(c);
    TopBit(d);
    NextBit(c);
    NextBit(d);
    SeventhBit(c);
    SeventhBit(d);
    hide Enabled, Negated, BitSeven, TypeField, PredField;
  }

  /** The fields and the unread bit make up the half-word. */
  lemma FieldsDetermine(c: bv16, d: bv16)
    requires SamePlain(c, d) && SubField(c) == SubField(d)
    ensures c == d
  {
    PlainBits(c, d);
    hide SamePlain;
    RebuildBits(c, d);
  }

  lemma QuietBits(t: bv16, g: bv16, sub: bv16)
    requires t < 16 && g & 0x3FF8 == 0 && sub < 64
    ensures !BitSeven(Or(Or(Shl(t, 3), g), Shl(sub, 8)))
    ensures g == 0 ==> PredField(Or(Or(Shl(t, 3), g), Shl(sub, 8))) == 0
  {
    var c := ((t << 3) | g) | (sub << 8);
    assert c & 0x80 == 0;
    assert g == 0 ==> c & 0x7 == 0;
  }

  /** The encoder sets no bit the decoder does not read. */
  lemma ControlQuiet(p: Profile, j: Inst)
    requires WellFormed(p) && Encodable(p, j)
    ensures !BitSeven(Control(p, j)) && (j.guard.None? ==> PredField(Control(p, j)) == 0)
  {
    SubBound(p, j);
    Low4Value(p.types[EncodingType(j.opcode, j.dtype)]);
    var n := GuardIndex(j);
    GuardFields(j.guard.Some?, n, j.negated);
    hide Low3, Low4, Sub, PredField, BitSeven;
    QuietBits(TypeCode(p, j), GuardBits(j), Sub(p, j));
  }

  /** What decoding any words gives is canonical as soon as its type is. */
  lemma DecodedCanonical(p: Profile, q: Quad, j: Inst)
    requires WellFormed(p) && InRange(q) && Decode(p, q) == Ok(j)
    ensures j.dtype == EncodingType(j.opcode, j.dtype) ==> Canonical(p, j)
  {
    ReadFields(p, q, j);
    DecodedOperands(p, q, j);
    DecodedExtras(p, q, j);
    hide Decode, ControlOf, TypeField, FamilyField, SpaceField, SourceField, PredField, Enabled, Negated, Injective,
         WellFormed, Mask16;
  }

  lemma DecodedExtras(p: Profile, q: Quad, j: Inst)
    requires WellFormed(p) && Decode(p, q) == Ok(j)
    ensures SourceKnown(p, j) && ExtraKnown(p, j) && GuardAllowed(j)
    ensures (j.compare.Some? <==> IsCompare(j.opcode)) && (j.space.Some? <==> IsMemory(j.opcode))
    ensures (j.cvtSource.Some? <==> IsCvt(j.opcode)) && j.dest < HALF && j.src1 < HALF
  {
    hide ControlOf, TypeField, FamilyField, SpaceField, SourceField, PredField, Enabled, Negated, Injective, Mask16,
         Mask32, SecondSource, ThirdSource, Immediate;
  }

  lemma DecodedOperands(p: Profile, q: Quad, j: Inst)
    requires WellFormed(p) && InRange(q) && Decode(p, q) == Ok(j)
    ensures j.opcode in p.opcodes && j.dest == Mask16(q.w2 / HALF) && j.src1 == Mask16(q.w2) && j.family == 0
    ensures j.src2 == (if j.opcode == LOADI64 then 0 else q.w1)
            && j.src3 == (if UsesImmediate(j.opcode) then 0 else q.w0)
    ensures j.imm == if j.opcode == LOADI64 then q.w1 * WORD + q.w0 else if UsesImmediate(j.opcode) then q.w0 else 0
    ensures 0 <= q.w1 * WORD + q.w0 < WORD * WORD
    ensures p.opcodes[j.opcode] == Mask16(q.w3 / HALF)
  {
    WideWords(q.w1, q.w0);
    MaskFields(q.w0);
    MaskFields(q.w1);
    hide ControlOf, TypeField, FamilyField, SpaceField, SourceField, PredField, Enabled, Negated, Injective, Mask16,
         Mask32;
  }

  lemma WideWords(high: nat, low: nat)
    requires high < WORD && low < WORD
    ensures 0 <= high * WORD + low < WORD * WORD
    ensures (high * WORD + low) / WORD == high && Mask32(high * WORD + low) == low
  {
    ModUnique(high * WORD + low, WORD, high, low);
    assert high * WORD <= (WORD - 1) * WORD;
  }

  lemma RegistersBack(w: nat)
    requires w < WORD
    ensures Registers(Mask16(w / HALF), Mask16(w)) == w
  {
    SplitWord(w);
    RegisterFields(w / HALF, w);
    hide Mask16;
  }

  /** The immediate of a decoded instruction, as words. */
  lemma ImmediateBack(q: Quad, op: Opcode)
    requires InRange(q)
    ensures var imm := if op == LOADI64 then q.w1 * WORD + q.w0 else if UsesImmediate(op) then q.w0 else 0;
            && (UsesImmediate(op) ==> Mask32(imm) == q.w0) && (op == LOADI64 ==> Mask32(imm / WORD) == q.w1)
    ensures Mask32(q.w0) == q.w0 && Mask32(q.w1) == q.w1
  {
    WideWords(q.w1, q.w0);
    MaskFields(q.w0);
    MaskFields(q.w1);
  }

  /** Outside the control half-word decoding loses nothing. */
  lemma OperandWordsBack(p: Profile, q: Quad, j: Inst)
    requires WellFormed(p) && InRange(q) && Decode(p, q) == Ok(j) && Encodable(p, j)
    ensures var r := Encoded(p, j); r.w0 == q.w0 && r.w1 == q.w1 && r.w2 == q.w2
  {
    assert UsesImmediate(LOADI64);
    hide Decode, Control, WithControl, WellFormed, Encodable, Mask32, Mask16, Registers, InRange, UsesImmediate;
    DecodedOperands(p, q, j);
    ImmediateBack(q, j.opcode);
    InRangeWord(q);
    RegistersBack(q.w2);
  }

  lemma InRangeWord(q: Quad)
    requires InRange(q)
    ensures q.w2 < WORD
  {
  }

  lemma SplitWord(w: nat)
    requires w < WORD
    ensures Mask16(w / HALF) == w / HALF && w == (w / HALF) * HALF + Mask16(w)
  {
  }

  /** The last word comes back exactly if the control half-word does. */
  lemma ControlWordBack(p: Profile, q: Quad, j: Inst)
    requires WellFormed(p) && InRange(q) && Decode(p, q) == Ok(j) && Encodable(p, j)
    ensures Encoded(p, j).w3 == q.w3 <==> Control(p, j) == ControlOf(q.w3)
  {
    SplitWord(q.w3);
    BitsThere(Mask16(q.w3));
    DecodedOperands(p, q, j);
    ControlWord(p.opcodes[j.opcode], Control(p, j));
    BitsBack(Control(p, j));
    hide Decode, Control, Registers, AsBits, AsNat, Mask32, WellFormed, Encodable;
  }

  /** What the decoder read of the control half-word. */
  lemma ReadFields(p: Profile, q: Quad, j: Inst)
    requires WellFormed(p) && Decode(p, q) == Ok(j)
    ensures var c := ControlOf(q.w3);
            && j.dtype in p.types && p.types[j.dtype] == TypeField(c)
            && (j.guard.Some? <==> j.opcode == BRX || Enabled(c))
                && (j.guard.Some? ==> j.guard.value == PredField(c) < 8)
            && (j.negated <==> j.guard.Some? && Negated(c))
            && (IsCompare(j.opcode) ==> j.compare.Some? && p.compares[j.compare.value] == FamilyField(c))
            && (IsMemory(j.opcode) ==> j.space.Some? && p.spaces[j.space.value] == SpaceField(c))
            && (IsCvt(j.opcode) ==> j.cvtSource.Some? && p.types[j.cvtSource.value] == SourceField(c))
  {
    SharedFields(ControlOf(q.w3));
    hide ControlOf, TypeField, FamilyField, SpaceField, SourceField, PredField, Enabled, Negated, Injective, Mask16,
         Mask32, SecondSource, ThirdSource, Immediate;
  }

  /** The shared bits come back exactly if nothing else is in them. */
  lemma SharedBack(p: Profile, q: Quad, j: Inst)
    requires WellFormed(p) && InRange(q) && Decode(p, q) == Ok(j) && Canonical(p, j)
    ensures Sub(p, j) == SubField(ControlOf(q.w3)) <==> SharedClean(ControlOf(q.w3), j)
  {
    var c := ControlOf(q.w3);
    SharedFields(c);
    ReadFields(p, q, j);
    CanonicalSub(p, j);
    SubBound(p, j);
    SubDetermined(Sub(p, j), SubField(c));
    hide Decode, Sub, ControlOf, SubField, AsFamily, AsSpace, AsSource, TypeField, FamilyField, SpaceField, SourceField,
         PredField, Enabled, Negated, Injective;
  }

  /** Outside the shared bits the encoder writes what the decoder found exactly if nothing went unread there. */
  lemma PlainFieldsBack(p: Profile, q: Quad, j: Inst)
    requires WellFormed(p) && Decode(p, q) == Ok(j) && Canonical(p, j)
    ensures SamePlain(Control(p, j), ControlOf(q.w3)) <==> PlainClean(ControlOf(q.w3), j)
    ensures SubField(Control(p, j)) == Sub(p, j)
  {
    ReadFields(p, q, j);
    ControlFields(p, j);
    ControlQuiet(p, j);
    hide Decode, Sub, ControlOf, SubField, AsFamily, AsSpace, AsSource, TypeField, FamilyField, SpaceField, SourceField,
         PredField, Enabled, Negated, Injective, BitSeven, Control, WellFormed;
  }

  lemma ControlBack(p: Profile, q: Quad, j: Inst)
    requires WellFormed(p) && InRange(q) && Decode(p, q) == Ok(j) && Canonical(p, j)
    ensures Control(p, j) == ControlOf(q.w3) <==> NothingUnread(ControlOf(q.w3), j)
  {
    assert j.dtype == EncodingType(j.opcode, j.dtype);
    var c, d := ControlOf(q.w3), Control(p, j);
    hide Decode, Sub, ControlOf, SubField, SamePlain, PlainClean, SharedClean, Injective, Control, WellFormed,
         Canonical, EncodingType;
    PlainFieldsBack(p, q, j);
    SharedBack(p, q, j);
    if PlainClean(c, j) && SharedClean(c, j) {
      FieldsDetermine(d, c);
    }
    SameItself(c);
  }

  lemma SameItself(c: bv16)
    ensures SamePlain(c, c)
  {
  }

  /** Any words that decode: encoding the result gives them back exactly if nothing in them went unread. */
  lemma WordsRecovered(p: Profile, q: Quad, j: Inst)
    requires WellFormed(p) && InRange(q) && Decode(p, q) == Ok(j)
    ensures Encodable(p, j) && Encoded(p, j) == q <==> NothingUnread(ControlOf(q.w3), j)
  {
    DecodedCanonical(p, q, j);
    if Encodable(p, j) {
      OperandWordsBack(p, q, j);
      ControlWordBack(p, q, j);
      ControlFields(p, j);
      ReadFields(p, q, j);
    }
    if Canonical(p, j) {
      ControlBack(p, q, j);
    }
    hide Decode, Control, ControlOf, Canonical, Sub, TypeField, FamilyField, SpaceField, SourceField, PredField,
         Enabled, Negated, SubField, PlainClean, SharedClean;
  }
}
