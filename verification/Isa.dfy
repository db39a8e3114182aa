/** AEC instructions: the fields of `AECInstruction`, with opcode and type names as enumerations. */
module Isa {
  import opened Wrappers

  datatype Opcode =
    | ADD | SUB | MUL | MAD | FMA | DIV | NEG | ABS | MIN | MAX
    | AND | OR | XOR | NOT | SHL | SHR | BFX | BINS | POPC | FLO
    | CMP | CMPP | SEL | PICK
    | LD | ST | LDC | ATOM
    | BR | BRX | CALL | RET | HALT | SYNCCT | MBAR
    | CVTFF | CVTFI | CVTIF | CVTII | CPY | LOADI | LOADI64
    | SHUF | VOTE | MTCH
    | RCP | RSQ | SIN | COS | EXP | LOG | SQRT | RDTSC

  datatype DType = B32 | B64 | U32 | S32 | U8 | S8 | F32 | F64 | F16 | BF16 | NoType

  datatype Space = Gmem | Smem | Cmem | Lmem | Pmem

  datatype Compare = Eq | Ne | Lt | Le | Gt | Ge

  datatype Inst = Inst(
    opcode: Opcode,
    dtype: DType := NoType,
    dest: nat := 0,
    src1: nat := 0,
    src2: nat := 0,
    src3: nat := 0,
    imm: int := 0,
    guard: Option<nat> := None,
    negated: bool := false,
    compare: Option<Compare> := None,
    space: Option<Space> := None,
    cvtSource: Option<DType> := None,
    family: nat := 0)
}
