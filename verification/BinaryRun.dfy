/** What is decoded from a binary does what was encoded, and every field lies where the format says. */
module BinaryRun {
  import opened Wrappers
  import opened Words
  import opened Isa
  import opened HalfWords
  import opened Encoding
  import opened Decoding
  import opened Binary
  import opened Machine

  // ----- one instruction -----

  /** Operands fit their fields, and the fields that share bits are present where the opcode has them. */
  predicate FieldsFit(i: Inst) {
    && i.dest < HALF && i.src1 < HALF && i.src2 < WORD && i.src3 < WORD && (i.guard.Some? ==> i.guard.value < 8)
    && (i.compare.Some? <==> i.opcode == CMP || i.opcode == CMPP)
    && (i.space.Some? <==> i.opcode == LD || i.opcode == ST || i.opcode == LDC)
    && (i.opcode == CVTFF || i.opcode == CVTFI || i.opcode == CVTIF || i.opcode == CVTII ==>
          i.cvtSource.Some? && i.family == 0)
    && (i.opcode == BR || i.opcode == BRX || i.opcode == CALL ==> 0 <= i.imm < WORD)
  }

  /** The instruction with nothing in the fields its opcode does not have. */
  function Plain(i: Inst): Inst {
    Inst(i.opcode, EncodingType(i.opcode, i.dtype), i.dest, i.src1,
         if i.opcode == LOADI64 then 0 else i.src2, if UsesImmediate(i.opcode) then 0 else i.src3,
         if i.opcode == LOADI64 then Mask32(i.imm / WORD) * WORD + Mask32(i.imm)
         else if UsesImmediate(i.opcode) then Mask32(i.imm) else 0,
         i.guard, i.negated, i.compare, i.space, if IsCvt(i.opcode) then i.cvtSource else None, 0)
  }

  lemma PlainIsCanonical(p: Profile, i: Inst)
    requires WellFormed(p) && Encodable(p, i) && FieldsFit(i)
    ensures Encodable(p, Plain(i)) && Canonical(p, Plain(i))
    ensures IsCompare(i.opcode) || IsMemory(i.opcode) || IsCvt(i.opcode) ==> Sub(p, Plain(i)) == Sub(p, i)
  {
    WideImmediate(i.imm);
    hide Injective, Low3, Low4, Or, Shl, Mask32;
  }

  /** Decoding gives the plain instruction back. */
  lemma DecodesToPlain(p: Profile, i: Inst)
    requires WellFormed(p) && Encodable(p, i) && FieldsFit(i)
    ensures Decode(p, Encoded(p, i)) == Ok(Plain(i))
  {
    PlainIsCanonical(p, i);
    DecodesToReadBack(p, i);
    ReadsItsField(p, i);
    SharedFieldsBack(p, i);
    OtherFieldsBack(p, i);
    hide *;
  }

  lemma FieldsKnown(p: Profile, i: Inst)
    requires WellFormed(p) && Encodable(p, i) && FieldsFit(i)
    ensures Injective(p.compares) && Injective(p.spaces) && Injective(p.types)
    ensures IsCompare(i.opcode) ==> i.compare.Some? && i.compare.value in p.compares
    ensures IsMemory(i.opcode) ==> i.space.Some? && i.space.value in p.spaces && i.compare.None?
    ensures IsCvt(i.opcode) ==> i.cvtSource.Some? && i.cvtSource.value in p.types
    ensures !(IsCompare(i.opcode) && IsMemory(i.opcode)) && !(IsCompare(i.opcode) && IsCvt(i.opcode))
            && !(IsMemory(i.opcode) && IsCvt(i.opcode))
    ensures Plain(i).opcode == i.opcode && Plain(i).compare == i.compare && Plain(i).space == i.space
    ensures IsCvt(i.opcode) ==> Plain(i).cvtSource == i.cvtSource
  {
    hide Injective, Mask32;
  }

  lemma ReadableAs(p: Profile, op: Opcode, sub: bv16)
    requires WellFormed(p) && Injective(p.compares) && Injective(p.spaces) && Injective(p.types)
    ensures IsCompare(op) && !IsMemory(op) && !IsCvt(op) ==>
              (Readable(p, op, sub) <==> AsFamily(sub) in Reverse(p.compares))
    ensures IsMemory(op) && !IsCompare(op) && !IsCvt(op) ==>
              (Readable(p, op, sub) <==> AsSpace(sub) in Reverse(p.spaces))
    ensures IsCvt(op) && !IsCompare(op) && !IsMemory(op) ==>
              (Readable(p, op, sub) <==> AsSource(sub) in Reverse(p.types))
    ensures !IsCompare(op) && !IsMemory(op) && !IsCvt(op) ==> Readable(p, op, sub)
  {
    hide AsFamily, AsSpace, AsSource, Reverse, Injective, IsCompare, IsMemory, IsCvt;
  }

  /** The shared bits hold what the opcode reads there. */
  lemma ReadsItsField(p: Profile, i: Inst)
    requires WellFormed(p) && Encodable(p, i) && FieldsFit(i)
    ensures Readable(p, i.opcode, Sub(p, i))
    ensures IsCompare(i.opcode) ==> Reverse(p.compares)[AsFamily(Sub(p, i))] == i.compare.value
    ensures IsMemory(i.opcode) ==> Reverse(p.spaces)[AsSpace(Sub(p, i))] == i.space.value
    ensures IsCvt(i.opcode) ==> Reverse(p.types)[AsSource(Sub(p, i))] == i.cvtSource.value
  {
    hide *;
    FieldsKnown(p, i);
    PlainIsCanonical(p, i);
    CanonicalSub(p, Plain(i));
    ReadableAs(p, i.opcode, Sub(p, i));
    if IsCompare(i.opcode) {
      ReverseGets(p.compares, i.compare.value);
    } else if IsMemory(i.opcode) {
      ReverseGets(p.spaces, i.space.value);
    } else if IsCvt(i.opcode) {
      ReverseGets(p.types, i.cvtSource.value);
    }
  }

  lemma SharedFieldsBack(p: Profile, i: Inst)
    requires WellFormed(p) && Encodable(p, i) && FieldsFit(i) && Readable(p, i.opcode, Sub(p, i))
    ensures var j := ReadBack(p, i);
            j.compare == Plain(i).compare && j.space == Plain(i).space && j.cvtSource == Plain(i).cvtSource
  {
    ReadsItsField(p, i);
    hide Sub, AsFamily, AsSpace, AsSource, Reverse, Injective, WellFormed, Encodable, Readable, Mask32, Mask16, Mask3;
  }

  lemma OtherFieldsBack(p: Profile, i: Inst)
    requires WellFormed(p) && Encodable(p, i) && FieldsFit(i) && Readable(p, i.opcode, Sub(p, i))
    requires var j := ReadBack(p, i);
             j.compare == Plain(i).compare && j.space == Plain(i).space && j.cvtSource == Plain(i).cvtSource
    ensures ReadBack(p, i) == Plain(i)
  {
    MaskFields(i.src2);
    MaskFields(i.src3);
    hide Sub, AsFamily, AsSpace, AsSource, Reverse, Injective, WellFormed, Encodable, Readable, Mask32, Mask16, Mask3;
  }

  /** Everything an opcode has is the same in `j`. */
  predicate SameFields(i: Inst, j: Inst) {
    && j.opcode == i.opcode && j.dest == i.dest && j.src1 == i.src1
    && j.guard == i.guard && j.negated == i.negated && j.compare == i.compare && j.space == i.space
    && (i.opcode != LOADI64 ==> j.src2 == i.src2)
    && (i.opcode !in {LOADI, LOADI64, BR, BRX, CALL} ==> j.src3 == i.src3)
    && (i.opcode in {CVTFF, CVTFI, CVTIF, CVTII} ==> j.cvtSource == i.cvtSource)
    && j.dtype == (if i.opcode in {LOADI, LOADI64, BR, BRX} then NoType
                   else if i.opcode == SHL && i.dtype == B32 then U32 else i.dtype)
  }

  /** And so is the immediate, as far as it is written: a word, or two, or a branch target. */
  predicate SameImmediate(i: Inst, j: Inst) {
    && (i.opcode in {BR, BRX, CALL} ==> j.imm == i.imm)
    && (i.opcode == LOADI ==> Mask32(j.imm) == Mask32(i.imm))
    && (i.opcode == LOADI64 ==> Mask32(j.imm) == Mask32(i.imm) && Mask32(j.imm / WORD) == Mask32(i.imm / WORD))
  }

  lemma PlainSameFields(i: Inst)
    ensures SameFields(i, Plain(i)) || !FieldsFit(i)
  {
    hide Mask32;
  }

  lemma PlainSameImmediate(i: Inst)
    requires FieldsFit(i)
    ensures SameImmediate(i, Plain(i))
  {
    hide Mask32, EncodingType;
    if i.opcode == LOADI64 {
      WideImmediate(i.imm);
    } else {
      MaskFields(i.imm);
    }
  }

  /** Decoding an encoding succeeds, and everything the opcode has comes back. */
  lemma FieldsKept(p: Profile, i: Inst)
    requires WellFormed(p) && Encodable(p, i) && FieldsFit(i)
    ensures match Decode(p, Encoded(p, i))
            case Err(_) => false
            case Ok(j) => SameFields(i, j) && SameImmediate(i, j)
  {
    hide *;
    DecodesToPlain(p, i);
    PlainSameFields(i);
    PlainSameImmediate(i);
  }

  lemma MovesAlike(cfg: Config, i: Inst, j: Inst, lane: Lane, gmem: seq<Byte>)
    requires i.opcode in {LOADI, LOADI64, CPY, LD, ST} && j.opcode == i.opcode && j.dest == i.dest && j.src1 == i.src1
    requires (i.opcode == LOADI ==> Mask32(j.imm) == Mask32(i.imm)) && (i.opcode == ST ==> j.src2 == i.src2)
    requires i.opcode == LOADI64 ==> Mask32(j.imm) == Mask32(i.imm) && Mask32(j.imm / WORD) == Mask32(i.imm / WORD)
    requires i.opcode in {CPY, LD, ST} ==> j.dtype == i.dtype && j.space == i.space
    ensures Execute(cfg, j, lane, gmem) == Execute(cfg, i, lane, gmem)
  {
    hide Alu2, Alu3, CompareWords, SpecialValue, FromBytes, ToBytes, TypeSize, Mask32;
  }

  lemma ComputesAlike(cfg: Config, i: Inst, j: Inst, lane: Lane, gmem: seq<Byte>)
    requires i.opcode !in {LOADI, LOADI64, CPY, LD, ST} && j.opcode == i.opcode && j.dest == i.dest && j.src1 == i.src1
    requires j.compare == i.compare && (j.dtype == i.dtype || i.opcode in {BR, BRX}
                                        || (i.opcode == SHL && i.dtype == B32))
    requires j.src2 == i.src2 && (i.opcode !in {BR, BRX, CALL} ==> j.src3 == i.src3)
    ensures Execute(cfg, j, lane, gmem) == Execute(cfg, i, lane, gmem)
  {
    hide Alu3, CompareWords, SpecialValue, LoadEffect, StoreEffect, CopyEffect, Mask32, BitAnd, BitOr, BitXor, Pow2;
  }

  lemma ExecutesAlike(cfg: Config, i: Inst, j: Inst, lane: Lane, gmem: seq<Byte>)
    requires SameFields(i, j) && SameImmediate(i, j)
    ensures Execute(cfg, j, lane, gmem) == Execute(cfg, i, lane, gmem)
  {
    hide Execute, Mask32;
    if i.opcode in {LOADI, LOADI64, CPY, LD, ST} {
      MovesAlike(cfg, i, j, lane, gmem);
    } else {
      ComputesAlike(cfg, i, j, lane, gmem);
    }
  }

  lemma GuardedAlike(cfg: Config, i: Inst, j: Inst, lane: Lane, gmem: seq<Byte>)
    requires j.guard == i.guard && j.negated == i.negated
    requires Execute(cfg, j, lane, gmem) == Execute(cfg, i, lane, gmem)
    ensures LaneEffect(cfg, j, lane, gmem) == LaneEffect(cfg, i, lane, gmem)
  {
    hide Execute;
  }

  lemma SameControl(i: Inst, j: Inst)
    requires SameFields(i, j) && SameImmediate(i, j)
    ensures j.opcode == i.opcode && j.guard == i.guard && j.negated == i.negated
    ensures i.opcode == BR || i.opcode == BRX ==> j.imm == i.imm
  {
    hide Mask32;
  }

  /** What is decoded does to every lane and memory what was encoded, and branches to the same place. */
  lemma EncodingKeepsEffect(p: Profile, i: Inst, j: Inst, cfg: Config, lane: Lane, gmem: seq<Byte>)
    requires WellFormed(p) && Encodable(p, i) && FieldsFit(i) && Decode(p, Encoded(p, i)) == Ok(j)
    ensures LaneEffect(cfg, j, lane, gmem) == LaneEffect(cfg, i, lane, gmem)
    ensures j.opcode == i.opcode && j.guard == i.guard && j.negated == i.negated
    ensures i.opcode == BR || i.opcode == BRX ==> j.imm == i.imm
  {
    hide *;
    FieldsKept(p, i);
    SameControl(i, j);
    ExecutesAlike(cfg, i, j, lane, gmem);
    GuardedAlike(cfg, i, j, lane, gmem);
  }

  // ----- programs -----

  ghost predicate SameInstruction(cfg: Config, i: Inst, j: Inst) {
    && j.opcode == i.opcode && j.guard == i.guard && j.negated == i.negated
    && (i.opcode == BR || i.opcode == BRX ==> j.imm == i.imm)
    && forall lane: Lane, gmem: seq<Byte> :: LaneEffect(cfg, j, lane, gmem) == LaneEffect(cfg, i, lane, gmem)
  }

  lemma {:induction false} SameLanes(cfg: Config, i: Inst, j: Inst, lanes: seq<Lane>, gmem: seq<Byte>)
    requires SameInstruction(cfg, i, j)
    ensures ExecLanes(cfg, j, lanes, gmem) == ExecLanes(cfg, i, lanes, gmem)
    decreases |lanes|
  {
    hide LaneEffect;
    if lanes != [] {
      assert LaneEffect(cfg, j, lanes[0], gmem) == LaneEffect(cfg, i, lanes[0], gmem);
      SameLanes(cfg, i, j, lanes[1..], ApplyMemory(LaneEffect(cfg, i, lanes[0], gmem), gmem));
    }
  }

  lemma {:induction false} SameRuns(cfg: Config, insts: seq<Inst>, back: seq<Inst>, pc: int, w: Warp, fuel: nat)
    requires |back| == |insts| && forall k | 0 <= k < |insts| :: SameInstruction(cfg, insts[k], back[k])
    ensures Run(cfg, back, pc, w, fuel) == Run(cfg, insts, pc, w, fuel)
    decreases fuel
  {
    hide SameInstruction, ExecLanes;
    if 0 <= pc < |insts| && fuel > 0 {
      assert SameInstruction(cfg, insts[pc], back[pc]);
      SameStep(cfg, insts, back, pc, w);
      hide Step;
      if Step(cfg, insts, pc, w).Next? {
        SameRuns(cfg, insts, back, Step(cfg, insts, pc, w).pc, Step(cfg, insts, pc, w).warp, fuel - 1);
      }
    }
  }

  lemma SameStep(cfg: Config, insts: seq<Inst>, back: seq<Inst>, pc: int, w: Warp)
    requires |back| == |insts| && 0 <= pc < |insts| && SameInstruction(cfg, insts[pc], back[pc])
    ensures Step(cfg, back, pc, w) == Step(cfg, insts, pc, w)
  {
    SameLanes(cfg, insts[pc], back[pc], w.lanes, w.gmem);
    hide ExecLanes, LaneEffect;
  }

  /** Words whose bytes are the binary of a list of instructions. */
  ghost predicate BinaryOf(p: Profile, insts: seq<Inst>, words: seq<Quad>) {
    && (forall i | i in insts :: Encodable(p, i))
    && AllBytes(words) == AllBytes(EncodedAll(p, insts)) && forall q | q in words :: InRange(q)
  }

  /** Every word decodes, to the instruction at its place. */
  ghost predicate DecodesTo(p: Profile, words: seq<Quad>, back: seq<Inst>) {
    WellFormed(p) && |back| == |words| && forall k | 0 <= k < |words| :: Decode(p, words[k]) == Ok(back[k])
  }

  /** The binary of a list of instructions, cut into words again, decodes, and what is decoded runs as the list. */
  lemma BinaryRuns(p: Profile, insts: seq<Inst>, words: seq<Quad>, cfg: Config) returns (back: seq<Inst>)
    requires WellFormed(p) && (forall i | i in insts :: FieldsFit(i)) && BinaryOf(p, insts, words)
    ensures |words| == |insts| && DecodesTo(p, words, back)
    ensures forall w: Warp, fuel: nat :: Run(cfg, back, 0, w, fuel) == Run(cfg, insts, 0, w, fuel)
  {
    hide Encodable, Encoded, Decode, InRange, WellFormed, AllBytes, FieldsFit, SameInstruction, Run;
    var qs := EncodedAll(p, insts);
    forall k | 0 <= k < |insts| ensures InRange(qs[k]) && Decode(p, qs[k]).Ok? {
      assert insts[k] in insts;
      EncodedInRange(p, insts[k]);
      DecodesToPlain(p, insts[k]);
    }
    AllBytesInjective(words, qs);
    back := seq(|insts|, k requires 0 <= k < |insts| => Decode(p, words[k]).value);
    forall k | 0 <= k < |insts| ensures SameInstruction(cfg, insts[k], back[k]) {
      assert insts[k] in insts;
      SameAfterDecoding(p, insts[k], back[k], cfg);
    }
    forall w: Warp, fuel: nat ensures Run(cfg, back, 0, w, fuel) == Run(cfg, insts, 0, w, fuel) {
      SameRuns(cfg, insts, back, 0, w, fuel);
    }
  }

  lemma SameAfterDecoding(p: Profile, i: Inst, j: Inst, cfg: Config)
    requires WellFormed(p) && Encodable(p, i) && FieldsFit(i) && Decode(p, Encoded(p, i)) == Ok(j)
    ensures SameInstruction(cfg, i, j)
  {
    FieldsKept(p, i);
    SameControl(i, j);
    hide LaneEffect, WellFormed, Encodable, FieldsFit, Encoded, Decode, SameFields, SameImmediate;
    forall lane: Lane, gmem: seq<Byte> ensures LaneEffect(cfg, j, lane, gmem) == LaneEffect(cfg, i, lane, gmem) {
      EncodingKeepsEffect(p, i, j, cfg, lane, gmem);
    }
  }

  // ----- the documented codes -----

  lemma DefaultOpcodes()
    ensures C1Default().opcodes.Keys == C1Opcodes()
    ensures forall op | op in C1Opcodes() :: op in C1Default().opcodes && C1Default().opcodes[op] == OpcodeNumber(op)
  {
    hide OpcodeNumber, C1Opcodes;
  }

  lemma ArithmeticNumbers()
    ensures OpcodeNumber(ADD) == 0x0001 && OpcodeNumber(SUB) == 0x0002 && OpcodeNumber(MUL) == 0x0003
    ensures OpcodeNumber(MAD) == 0x0004 && OpcodeNumber(FMA) == 0x0005
  {
  }

  lemma BitNumbers()
    ensures OpcodeNumber(AND) == 0x0010 && OpcodeNumber(OR) == 0x0011 && OpcodeNumber(XOR) == 0x0012
    ensures OpcodeNumber(SHL) == 0x0014 && OpcodeNumber(SHR) == 0x0015
  {
  }

  lemma MemoryNumbers()
    ensures OpcodeNumber(CMPP) == 0x0021 && OpcodeNumber(LD) == 0x0030 && OpcodeNumber(ST) == 0x0031
    ensures OpcodeNumber(BR) == 0x0040 && OpcodeNumber(BRX) == 0x0041
  {
  }

  lemma MoveNumbers()
    ensures OpcodeNumber(HALT) == 0x0045 && OpcodeNumber(CPY) == 0x0054 && OpcodeNumber(LOADI) == 0x0055
    ensures OpcodeNumber(LOADI64) == 0x0056
  {
  }

  /** The opcodes of the target and their codes, as documented. */
  lemma OpcodesDocumented(codes: map<Opcode, nat>)
    requires codes == C1Default().opcodes
    ensures codes.Keys == {ADD, SUB, MUL, MAD, FMA, AND, OR, XOR, SHL, SHR, CMPP, LD, ST, BR, BRX, HALT, CPY, LOADI,
                           LOADI64}
    ensures codes[ADD] == 0x0001 && codes[SUB] == 0x0002 && codes[MUL] == 0x0003 && codes[MAD] == 0x0004
    ensures codes[FMA] == 0x0005 && codes[AND] == 0x0010 && codes[OR] == 0x0011 && codes[XOR] == 0x0012
    ensures codes[SHL] == 0x0014 && codes[SHR] == 0x0015 && codes[CMPP] == 0x0021 && codes[LD] == 0x0030
    ensures codes[ST] == 0x0031 && codes[BR] == 0x0040 && codes[BRX] == 0x0041 && codes[HALT] == 0x0045
    ensures codes[CPY] == 0x0054 && codes[LOADI] == 0x0055 && codes[LOADI64] == 0x0056
  {
    DefaultOpcodes();
    ArithmeticNumbers();
    BitNumbers();
    MemoryNumbers();
    MoveNumbers();
    hide OpcodeNumber, C1Default, Offering;
  }

  /** The type, space and comparison codes, and the bits that switch the guard on and negate it. */
  lemma FieldCodesDocumented()
    ensures PRED_ENABLE == 0x8000 && PRED_NEGATE == 0x4000
    ensures var types := C1Default().types;
            && types.Keys == {B32, B64, U32, S32, F32, NoType} && types[B32] == 0x0 && types[B64] == 0x1
            && types[U32] == 0x2 && types[S32] == 0x3 && types[F32] == 0x8 && types[NoType] == 0xF
    ensures var codes := C1Default().compares;
            && (forall c: Compare :: c in codes)
            && codes[Eq] == 0 && codes[Ne] == 1 && codes[Lt] == 2 && codes[Le] == 3 && codes[Gt] == 4 && codes[Ge] == 5
    ensures var codes := C1Default().spaces;
            && (forall c: Space :: c in codes)
            && codes[Gmem] == 0 && codes[Smem] == 1 && codes[Cmem] == 2 && codes[Lmem] == 3 && codes[Pmem] == 4
  {
  }
}
