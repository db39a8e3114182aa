/** The two ISA profiles, and raw binaries: sixteen little-endian bytes an instruction. */
module Binary {
  import opened Wrappers
  import opened Words
  import opened Isa
  import opened HalfWords
  import opened Encoding
  import opened Decoding

  // ----- profiles -----

  function OpcodeNumber(op: Opcode): nat {
    match op
    case ADD => 0x01 case SUB => 0x02 case MUL => 0x03 case MAD => 0x04 case FMA => 0x05 case DIV => 0x06
    case NEG => 0x07 case ABS => 0x08 case MIN => 0x09 case MAX => 0x0A
    case AND => 0x10 case OR => 0x11 case XOR => 0x12 case NOT => 0x13 case SHL => 0x14 case SHR => 0x15
    case BFX => 0x16 case BINS => 0x17 case POPC => 0x18 case FLO => 0x19
    case CMP => 0x20 case CMPP => 0x21 case SEL => 0x22 case PICK => 0x23
    case LD => 0x30 case ST => 0x31 case LDC => 0x32 case ATOM => 0x33
    case BR => 0x40 case BRX => 0x41 case CALL => 0x43 case RET => 0x44 case HALT => 0x45
    case SYNCCT => 0x47 case MBAR => 0x49
    case CVTFF => 0x50 case CVTFI => 0x51 case CVTIF => 0x52 case CVTII => 0x53
    case CPY => 0x54 case LOADI => 0x55 case LOADI64 => 0x56 case SHUF => 0x57 case VOTE => 0x58 case MTCH => 0x59
    case RCP => 0x70 case RSQ => 0x71 case SIN => 0x72 case COS => 0x73 case EXP => 0x74 case LOG => 0x75
    case SQRT => 0x76 case RDTSC => 0x80
  }

  function TypeNumber(ty: DType): nat {
    match ty
    case B32 => 0x0 case B64 => 0x1 case U32 => 0x2 case S32 => 0x3 case U8 => 0x4 case S8 => 0x5
    case F32 => 0x8 case F64 => 0x9 case F16 => 0xA case BF16 => 0xB case NoType => 0xF
  }

  function SpaceNumber(sp: Space): nat {
    match sp case Gmem => 0 case Smem => 1 case Cmem => 2 case Lmem => 3 case Pmem => 4
  }

  function CompareNumber(c: Compare): nat {
    match c case Eq => 0 case Ne => 1 case Lt => 2 case Le => 3 case Gt => 4 case Ge => 5
  }

  function C1Opcodes(): set<Opcode> {
    {ADD, SUB, MUL, MAD, FMA, AND, OR, XOR, SHL, SHR, CMPP, LD, ST, BR, BRX, HALT, CPY, LOADI, LOADI64}
  }

  function C1Types(): set<DType> {
    {B32, B64, U32, S32, F32, NoType}
  }

  /** A profile offering these opcodes and types; both real ones list every space and comparison. */
  function Offering(ops: set<Opcode>, types: set<DType>): Profile {
    Profile(map op | op in ops :: OpcodeNumber(op), map ty | ty in types :: TypeNumber(ty),
            map sp: Space | true :: SpaceNumber(sp), map c: Compare | true :: CompareNumber(c))
  }

  /** `C1_DEFAULT`. */
  function C1Default(): Profile {
    Offering(C1Opcodes(), C1Types())
  }

  function TrackBOpcodes(): set<Opcode> {
    {ADD, SUB, MUL, MAD, FMA, DIV, NEG, ABS, MIN, MAX, AND, OR, XOR, NOT, SHL, SHR, BFX, BINS, POPC, FLO,
     CMP, CMPP, SEL, PICK, LD, ST, LDC, ATOM, BR, BRX, CALL, RET, HALT, SYNCCT, MBAR,
     CVTFF, CVTFI, CVTIF, CVTII, CPY, LOADI, LOADI64, SHUF, VOTE, MTCH,
     RCP, RSQ, SIN, COS, EXP, LOG, SQRT, RDTSC}
  }

  function TrackBTypes(): set<DType> {
    {B32, B64, U32, S32, U8, S8, F32, F64, F16, BF16, NoType}
  }

  /** `TRACK_B_V1`. */
  function TrackB(): Profile {
    Offering(TrackBOpcodes(), TrackBTypes())
  }

  // Which opcode a number stands for.

  function ArithmeticOpcode(n: nat): Opcode {
    if n == 1 then ADD else if n == 2 then SUB else if n == 3 then MUL else if n == 4 then MAD else if n == 5 then FMA
    else if n == 6 then DIV else if n == 7 then NEG else if n == 8 then ABS else if n == 9 then MIN else MAX
  }

  function BitOpcode(n: nat): Opcode {
    if n == 0x10 then AND else if n == 0x11 then OR else if n == 0x12 then XOR else if n == 0x13 then NOT
    else if n == 0x14 then SHL else if n == 0x15 then SHR else if n == 0x16 then BFX else if n == 0x17 then BINS
    else if n == 0x18 then POPC else FLO
  }

  function MemoryOpcode(n: nat): Opcode {
    if n == 0x20 then CMP else if n == 0x21 then CMPP else if n == 0x22 then SEL else if n == 0x23 then PICK
    else if n == 0x30 then LD else if n == 0x31 then ST else if n == 0x32 then LDC else ATOM
  }

  function ControlOpcode(n: nat): Opcode {
    if n == 0x40 then BR else if n == 0x41 then BRX else if n == 0x43 then CALL else if n == 0x44 then RET
    else if n == 0x45 then HALT else if n == 0x47 then SYNCCT else MBAR
  }

  function MoveOpcode(n: nat): Opcode {
    if n == 0x50 then CVTFF else if n == 0x51 then CVTFI else if n == 0x52 then CVTIF else if n == 0x53 then CVTII
    else if n == 0x54 then CPY else if n == 0x55 then LOADI else if n == 0x56 then LOADI64 else if n == 0x57 then SHUF
    else if n == 0x58 then VOTE else MTCH
  }

  function SpecialOpcode(n: nat): Opcode {
    if n == 0x70 then RCP else if n == 0x71 then RSQ else if n == 0x72 then SIN else if n == 0x73 then COS
    else if n == 0x74 then EXP else if n == 0x75 then LOG else if n == 0x76 then SQRT else RDTSC
  }

  function OpcodeOf(n: nat): Opcode {
    if n < 0x10 then ArithmeticOpcode(n) else if n < 0x20 then BitOpcode(n) else if n < 0x40 then MemoryOpcode(n)
    else if n < 0x50 then ControlOpcode(n) else if n < 0x70 then MoveOpcode(n) else SpecialOpcode(n)
  }

  lemma OpcodeNumberInverse(op: Opcode)
    ensures OpcodeOf(OpcodeNumber(op)) == op && OpcodeNumber(op) < HALF
  {
    var n := OpcodeNumber(op);
    if n < 0x10 {
      hide BitOpcode, MemoryOpcode, ControlOpcode, MoveOpcode, SpecialOpcode;
    } else if n < 0x20 {
      hide ArithmeticOpcode, MemoryOpcode, ControlOpcode, MoveOpcode, SpecialOpcode;
    } else if n < 0x40 {
      hide ArithmeticOpcode, BitOpcode, ControlOpcode, MoveOpcode, SpecialOpcode;
    } else if n < 0x50 {
      hide ArithmeticOpcode, BitOpcode, MemoryOpcode, MoveOpcode, SpecialOpcode;
    } else if n < 0x70 {
      hide ArithmeticOpcode, BitOpcode, MemoryOpcode, ControlOpcode, SpecialOpcode;
    } else {
      hide ArithmeticOpcode, BitOpcode, MemoryOpcode, ControlOpcode, MoveOpcode;
    }
  }

  lemma OfferingWellFormed(ops: set<Opcode>, types: set<DType>)
    ensures WellFormed(Offering(ops, types))
  {
    forall op: Opcode ensures OpcodeOf(OpcodeNumber(op)) == op && OpcodeNumber(op) < HALF {
      OpcodeNumberInverse(op);
    }
    hide OpcodeOf, OpcodeNumber;
  }

  /** Both profiles give every opcode, type, space and comparison a code of its own that fits its field. */
  lemma ProfilesWellFormed()
    ensures WellFormed(C1Default()) && WellFormed(TrackB())
  {
    OfferingWellFormed(C1Opcodes(), C1Types());
    OfferingWellFormed(TrackBOpcodes(), TrackBTypes());
    hide WellFormed, Offering, C1Opcodes, C1Types, TrackBOpcodes, TrackBTypes;
  }

  // ----- bytes -----

  function WordBytes(q: Quad): (bytes: seq<Byte>)
    ensures |bytes| == 16
  {
    ToBytes(q.w0, 4) + ToBytes(q.w1, 4) + ToBytes(q.w2, 4) + ToBytes(q.w3, 4)
  }

  function AllBytes(qs: seq<Quad>): (bytes: seq<Byte>)
    ensures |bytes| == 16 * |qs|
  {
    if qs == [] then [] else AllBytes(qs[..|qs| - 1]) + WordBytes(qs[|qs| - 1])
  }

  lemma {:induction false} BytesOfNumber(v: nat, n: nat)
    requires v < Power256(n)
    ensures FromBytes(ToBytes(v, n)) == v
  {
    if n > 0 {
      BytesOfNumber(v / 256, n - 1);
    }
  }

  lemma {:induction false} NumberOfBytes(blob: seq<Byte>)
    ensures FromBytes(blob) < Power256(|blob|) && ToBytes(FromBytes(blob), |blob|) == blob
    decreases |blob|
  {
    if blob != [] {
      NumberOfBytes(blob[1..]);
      var rest := FromBytes(blob[1..]);
      assert FromBytes(blob) == blob[0] + 256 * rest;
      assert FromBytes(blob) % 256 == blob[0] && FromBytes(blob) / 256 == rest;
      assert blob == [blob[0]] + blob[1..];
    }
  }

  lemma WordBytesInjective(a: Quad, b: Quad)
    requires InRange(a) && InRange(b) && WordBytes(a) == WordBytes(b)
    ensures a == b
  {
    FourBytes();
    hide Power256, FromBytes, ToBytes;
    var x, y := WordBytes(a), WordBytes(b);
    assert x[..4] == ToBytes(a.w0, 4) && x[4..8] == ToBytes(a.w1, 4) && x[8..12] == ToBytes(a.w2, 4)
           && x[12..] == ToBytes(a.w3, 4);
    assert y[..4] == ToBytes(b.w0, 4) && y[4..8] == ToBytes(b.w1, 4) && y[8..12] == ToBytes(b.w2, 4)
           && y[12..] == ToBytes(b.w3, 4);
    BytesOfNumber(a.w0, 4);
    BytesOfNumber(a.w1, 4);
    BytesOfNumber(a.w2, 4);
    BytesOfNumber(a.w3, 4);
    BytesOfNumber(b.w0, 4);
    BytesOfNumber(b.w1, 4);
    BytesOfNumber(b.w2, 4);
    BytesOfNumber(b.w3, 4);
  }

  /** Bytes determine the words. */
  lemma {:induction false} AllBytesInjective(a: seq<Quad>, b: seq<Quad>)
    requires (forall q | q in a :: InRange(q)) && (forall q | q in b :: InRange(q)) && AllBytes(a) == AllBytes(b)
    ensures a == b
    decreases |a|
  {
    assert 16 * |a| == 16 * |b|;
    if a != [] {
      var m := |a| - 1;
      var x, y := AllBytes(a), AllBytes(b);
      assert x[..16 * m] == AllBytes(a[..m]) && x[16 * m..] == WordBytes(a[m]);
      assert y[..16 * m] == AllBytes(b[..m]) && y[16 * m..] == WordBytes(b[m]);
      WordBytesInjective(a[m], b[m]);
      AllBytesInjective(a[..m], b[..m]);
      assert a == a[..m] + [a[m]] && b == b[..m] + [b[m]];
    }
  }

  function EncodedAll(p: Profile, insts: seq<Inst>): (qs: seq<Quad>)
    requires forall i | i in insts :: Encodable(p, i)
    ensures |qs| == |insts| && forall k | 0 <= k < |insts| :: qs[k] == Encoded(p, insts[k])
  {
    seq(|insts|, k requires 0 <= k < |insts| => assert insts[k] in insts; Encoded(p, insts[k]))
  }

  /** `instructions_to_bytes`: the first instruction that cannot be encoded stops it. */
  method InstructionsToBytes(p: Profile, insts: seq<Inst>) returns (r: Result<seq<Byte>, EncodeError>)
    ensures r.Ok? <==> forall i | i in insts :: Encodable(p, i)
    ensures r.Ok? ==> r.value == AllBytes(EncodedAll(p, insts))
    ensures r.Err? ==> exists k | 0 <= k < |insts| ::
              Blames(p, insts[k], r.error) && !Encodable(p, insts[k]) && forall j | 0 <= j < k :: Encodable(p, insts[j])
  {
    hide Encodable, Encoded, Blames, WordBytes;
    var out: seq<Byte> := [];
    for k := 0 to |insts|
      invariant forall j | 0 <= j < k :: Encodable(p, insts[j])
      invariant out == AllBytes(EncodedAll(p, insts[..k]))
    {
      var words := EncodeInstruction(p, insts[k]);
      if words.Err? {
        return Err(words.error);
      }
      out := out + WordBytes(words.value);
      assert EncodedAll(p, insts[..k + 1])[..k] == EncodedAll(p, insts[..k]);
    }
    assert insts[..|insts|] == insts;
    return Ok(out);
  }

  /** `bytes_to_words`. */
  method BytesToWords(blob: seq<Byte>) returns (r: Result<seq<Quad>, EncodeError>)
    ensures r.Ok? <==> |blob| % 16 == 0
    ensures r.Ok? ==> AllBytes(r.value) == blob && forall q | q in r.value :: InRange(q)
    ensures r.Err? ==> r.error == PartialInstruction
  {
    if |blob| % 16 != 0 {
      return Err(PartialInstruction);
    }
    var words: seq<Quad> := [];
    while 16 * |words| < |blob|
      invariant 16 * |words| <= |blob| && AllBytes(words) == blob[..16 * |words|]
      invariant forall q | q in words :: InRange(q)
      decreases |blob| - 16 * |words|
    {
      var at := 16 * |words|;
      var q := QuadAt(blob[at..at + 16]);
      assert blob[..at + 16] == blob[..at] + blob[at..at + 16];
      assert (words + [q])[..|words|] == words;
      words := words + [q];
    }
    assert blob[..|blob|] == blob;
    return Ok(words);
  }

  /** Sixteen bytes as four words. */
  method QuadAt(b: seq<Byte>) returns (q: Quad)
    requires |b| == 16
    ensures InRange(q) && WordBytes(q) == b
  {
    q := Quad(FromBytes(b[..4]), FromBytes(b[4..8]), FromBytes(b[8..12]), FromBytes(b[12..]));
    FourBytes();
    NumberOfBytes(b[..4]);
    NumberOfBytes(b[4..8]);
    NumberOfBytes(b[8..12]);
    NumberOfBytes(b[12..]);
    hide Power256, FromBytes, ToBytes;
    assert b == b[..4] + b[4..8] + b[8..12] + b[12..];
  }

  /** The words of an encoding are 32 bits wide. */
  lemma EncodedInRange(p: Profile, i: Inst)
    requires WellFormed(p) && Encodable(p, i)
    ensures InRange(Encoded(p, i))
  {
    RegisterFields(i.dest, i.src1);
    ControlWord(p.opcodes[i.opcode], Control(p, i));
    hide WithControl, Registers, Control, Mask16;
  }

  /** Whatever words reproduce the binary of a list, decoding them gives the list back, if all of it is canonical. */
  lemma ListRecovered(p: Profile, insts: seq<Inst>, words: seq<Quad>)
    requires WellFormed(p) && forall i | i in insts :: Encodable(p, i)
    requires AllBytes(words) == AllBytes(EncodedAll(p, insts)) && forall q | q in words :: InRange(q)
    ensures |words| == |insts|
    ensures (forall k | 0 <= k < |words| :: Decode(p, words[k]) == Ok(insts[k]))
            <==> forall i | i in insts :: Canonical(p, i)
  {
    hide Encodable, Encoded, Canonical, Decode, InRange, WellFormed, AllBytes;
    var qs := EncodedAll(p, insts);
    forall k | 0 <= k < |insts|
      ensures InRange(qs[k]) && (Decode(p, qs[k]) == Ok(insts[k]) <==> Canonical(p, insts[k])) {
      EncodedInRange(p, insts[k]);
      DecodeUndoesEncode(p, insts[k]);
    }
    AllBytesInjective(words, qs);
  }
}
