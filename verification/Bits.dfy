/** What the operations of the machine on words are: bit by bit, modulo the word size, and in order. */
module Bits {
  import opened Wrappers
  import opened Words
  import opened Isa
  import opened Machine

  /** Bit `k` of a number. */
  predicate Bit(n: int, k: nat) {
    n / Pow2(k) % 2 == 1
  }

  /** Bit 0 is the parity, and the bits above are those of the half. */
  lemma BitNext(n: nat, k: nat)
    ensures Bit(n, 0) <==> n % 2 == 1
    ensures Bit(n, k + 1) <==> Bit(n / 2, k)
  {
    var p := Pow2(k);
    assert Pow2(k + 1) == 2 * p && Pow2(0) == 1;
    hide Pow2;
    Division(n, 2);
    Division(n / 2, p);
    var q, r := n / 2 / p, n / 2 % p;
    assert n == (2 * p) * q + (2 * r + n % 2);
    RemainderIs(n, 2 * p, q, 2 * r + n % 2);
  }

  lemma NoBits(k: nat)
    ensures !Bit(0, k)
  {
  }

  /** A number below a power of two has no bits from there on. */
  lemma HighBitsClear(n: nat, k: nat)
    requires n < Pow2(k)
    ensures !Bit(n, k)
  {
    QuotientIsZero(n, Pow2(k));
  }

  lemma HalfOfSum(h: nat, bit: nat)
    requires bit < 2
    ensures (2 * h + bit) / 2 == h && (2 * h + bit) % 2 == bit
  {
  }

  lemma {:induction false} AndBits(a: nat, b: nat, k: nat)
    ensures Bit(BitAnd(a, b), k) <==> Bit(a, k) && Bit(b, k)
    decreases k
  {
    NoBits(k);
    if a != 0 && b != 0 {
      var h, bit := BitAnd(a / 2, b / 2), if a % 2 == 1 && b % 2 == 1 then 1 else 0;
      HalfOfSum(h, bit);
      assert BitAnd(a, b) == 2 * h + bit;
      hide Bit, BitAnd;
      if k == 0 {
        BitNext(2 * h + bit, 0);
        BitNext(a, 0);
        BitNext(b, 0);
      } else {
        BitNext(2 * h + bit, k - 1);
        BitNext(a, k - 1);
        BitNext(b, k - 1);
        AndBits(a / 2, b / 2, k - 1);
      }
    }
  }

  lemma {:induction false} OrBits(a: nat, b: nat, k: nat)
    ensures Bit(BitOr(a, b), k) <==> Bit(a, k) || Bit(b, k)
    decreases k
  {
    NoBits(k);
    if a != 0 && b != 0 {
      var h, bit := BitOr(a / 2, b / 2), if a % 2 == 1 || b % 2 == 1 then 1 else 0;
      HalfOfSum(h, bit);
      assert BitOr(a, b) == 2 * h + bit;
      hide Bit, BitOr;
      if k == 0 {
        BitNext(2 * h + bit, 0);
        BitNext(a, 0);
        BitNext(b, 0);
      } else {
        BitNext(2 * h + bit, k - 1);
        BitNext(a, k - 1);
        BitNext(b, k - 1);
        OrBits(a / 2, b / 2, k - 1);
      }
    }
  }

  lemma {:induction false} XorBits(a: nat, b: nat, k: nat)
    ensures Bit(BitXor(a, b), k) <==> (Bit(a, k) != Bit(b, k))
    decreases k
  {
    NoBits(k);
    if a != 0 && b != 0 {
      var h, bit := BitXor(a / 2, b / 2), if a % 2 != b % 2 then 1 else 0;
      HalfOfSum(h, bit);
      assert BitXor(a, b) == 2 * h + bit;
      hide Bit, BitXor;
      if k == 0 {
        BitNext(2 * h + bit, 0);
        BitNext(a, 0);
        BitNext(b, 0);
      } else {
        BitNext(2 * h + bit, k - 1);
        BitNext(a, k - 1);
        BitNext(b, k - 1);
        XorBits(a / 2, b / 2, k - 1);
      }
    }
  }

  lemma ScaledQuotient(p: nat, x: nat, r: nat)
    requires p > 0
    ensures (p * x + r) / p == x + r / p
  {
    Division(r, p);
    assert p * (x + r / p) == p * x + p * (r / p);
    RemainderIs(p * x + r, p, x + r / p, r % p);
  }

  lemma EvenMultiple(p: nat, h: nat, q: nat)
    ensures (p * (2 * h)) * q == p * (2 * (h * q))
  {
  }

  /** What is cut off above is an even number of times `p`. */
  lemma CutOff(n: nat, p: nat, h: nat, q: nat, r: nat)
    requires p > 0 && n == (p * (2 * h)) * q + r
    ensures n / p % 2 == r / p % 2
  {
    EvenMultiple(p, h, q);
    ScaledQuotient(p, 2 * (h * q), r);
    EvenAdded(h * q, r / p);
  }

  /** The low 32 bits are the bits below 32. */
  lemma MaskBits(n: nat, k: nat)
    ensures Bit(Mask32(n), k) <==> k < 32 && Bit(n, k)
  {
    PowerOfWord();
    if k < 32 {
      PowerAdds(k, 32 - k);
      assert Pow2(32 - k) == 2 * Pow2(31 - k);
      Division(n, WORD);
      CutOff(n, Pow2(k), Pow2(31 - k), n / WORD, n % WORD);
    } else {
      PowerGrows(32, k);
      HighBitsClear(Mask32(n), k);
    }
  }

  lemma EvenAdded(h: int, n: int)
    ensures (2 * h + n) % 2 == n % 2
  {
  }

  lemma {:induction false} PowerGrows(m: nat, n: nat)
    requires m <= n
    ensures Pow2(m) <= Pow2(n)
    decreases n
  {
    if m < n {
      PowerGrows(m, n - 1);
    }
  }

  /** AND, OR and XOR of the machine, bit by bit. */
  lemma BitwiseOperations(ops: F32Ops, dtype: DType, a: nat, b: nat, k: nat)
    ensures var r := Alu2(ops, AND, dtype, a, b); r.Some? && (Bit(r.value, k) <==> k < 32 && Bit(a, k) && Bit(b, k))
    ensures var r := Alu2(ops, OR, dtype, a, b); r.Some? && (Bit(r.value, k) <==> k < 32 && (Bit(a, k) || Bit(b, k)))
    ensures var r := Alu2(ops, XOR, dtype, a, b); r.Some? && (Bit(r.value, k) <==> k < 32 && Bit(a, k) != Bit(b, k))
  {
    hide Bit, BitAnd, BitOr, BitXor, Mask32;
    AndBits(a, b, k);
    OrBits(a, b, k);
    XorBits(a, b, k);
    MaskBits(BitAnd(a, b), k);
    MaskBits(BitOr(a, b), k);
    MaskBits(BitXor(a, b), k);
  }

  /** A shift by the amount modulo 32 moves every bit; what leaves the word is lost and zeros come in. */
  lemma ShiftOperations(ops: F32Ops, dtype: DType, a: nat, b: nat, k: nat)
    requires a < WORD
    ensures var r := Alu2(ops, SHL, dtype, a, b);
            r.Some? && (Bit(r.value, k) <==> b % 32 <= k < 32 && Bit(a, k - b % 32))
    ensures var r := Alu2(ops, SHR, dtype, a, b); r.Some? && (Bit(r.value, k) <==> Bit(a, k + b % 32))
  {
    hide Bit, Mask32, Pow2;
    var n := b % 32;
    QuotientIsZero(a, Pow2(n));
    MaskBits(a * Pow2(n), k);
    ShiftedUp(a, n, k);
    ShiftedDown(a, n, k);
  }

  lemma Swapped(a: nat, m: nat, half: nat)
    ensures a * (m * (2 * half)) == m * (2 * (half * a)) + 0
  {
  }

  lemma EvenQuotient(m: nat, x: nat)
    requires m > 0
    ensures (m * (2 * x) + 0) / m % 2 == 0
  {
    RemainderIs(m * (2 * x) + 0, m, 2 * x, 0);
    EvenAdded(x, 0);
  }

  /** Below the amount there are zeros. */
  lemma ZerosComeIn(a: nat, m: nat, half: nat)
    requires m > 0
    ensures a * (m * (2 * half)) / m % 2 == 0
  {
    Swapped(a, m, half);
    EvenQuotient(m, half * a);
  }

  lemma ScaledBoth(a: nat, p: nat, m: nat)
    requires p > 0 && m > 0
    ensures p * m > 0 && a * p / (p * m) == a / m
  {
    Division(a, m);
    ScaledParts(a / m, a % m, p, m);
    ProductMonotone(p, a % m + 1, m);
    RemainderIs(a * p, p * m, a / m, p * (a % m));
  }

  lemma ScaledParts(q: nat, r: nat, p: nat, m: nat)
    ensures (m * q + r) * p == (p * m) * q + p * r && p * (r + 1) == p * r + p
  {
  }

  lemma ShiftedUp(a: nat, n: nat, k: nat)
    ensures Bit(a * Pow2(n), k) <==> n <= k && Bit(a, k - n)
  {
    if n <= k {
      PowerAdds(n, k - n);
      ScaledBoth(a, Pow2(n), Pow2(k - n));
    } else {
      PowerAdds(k, n - k);
      assert Pow2(n - k) == 2 * Pow2(n - k - 1);
      ZerosComeIn(a, Pow2(k), Pow2(n - k - 1));
    }
  }

  lemma QuotientTwice(a: nat, p: nat, m: nat)
    requires p > 0 && m > 0
    ensures p * m > 0 && a / p / m == a / (p * m)
  {
    Division(a, p);
    Division(a / p, m);
    var q, r, s := a / p / m, a / p % m, a % p;
    TwiceParts(q, r, s, p, m);
    ProductMonotone(p, r + 1, m);
    RemainderIs(a, p * m, q, p * r + s);
  }

  lemma TwiceParts(q: nat, r: nat, s: nat, p: nat, m: nat)
    ensures p * (m * q + r) + s == (p * m) * q + (p * r + s) && p * (r + 1) == p * r + p
  {
  }

  lemma ShiftedDown(a: nat, n: nat, k: nat)
    ensures Bit(a / Pow2(n), k) <==> Bit(a, k + n)
  {
    PowerAdds(n, k);
    QuotientTwice(a, Pow2(n), Pow2(k));
  }

  // ----- sums and products -----

  /** A word that differs from `x` by a multiple of the word size. */
  ghost predicate IsWordOf(r: nat, x: int) {
    r < WORD && exists q: int :: Differs(r, x, q)
  }

  predicate Differs(r: nat, x: int, q: int) {
    x == q * WORD + r
  }

  lemma MaskIsWord(x: int)
    ensures IsWordOf(Mask32(x), x)
  {
    assert Differs(Mask32(x), x, x / WORD);
  }

  /** Integer arithmetic is that of the integers, modulo the word size. */
  lemma WordOperations(ops: F32Ops, op: Opcode, dtype: DType, a: nat, b: nat, c: nat)
    requires dtype != F32
    ensures match Alu2(ops, ADD, dtype, a, b) case Some(r) => IsWordOf(r, a + b) case None => false
    ensures match Alu2(ops, SUB, dtype, a, b) case Some(r) => IsWordOf(r, a - b) case None => false
    ensures match Alu2(ops, MUL, dtype, a, b) case Some(r) => IsWordOf(r, a * b) case None => false
    ensures match Alu3(ops, op, dtype, a, b, c) case Some(r) => IsWordOf(r, a * b + c) case None => false
  {
    MaskIsWord(a + b);
    MaskIsWord(a - b);
    MaskIsWord(a * b);
    MaskIsWord(a * b + c);
    hide Mask32, IsWordOf;
  }

  // ----- comparisons -----

  /** Words are compared as numbers. */
  lemma Comparisons(ops: F32Ops, dtype: DType, a: nat, b: nat)
    requires dtype != F32 && a < WORD && b < WORD
    ensures CompareWords(ops, Lt, dtype, a, b) <==> a < b
    ensures CompareWords(ops, Gt, dtype, a, b) <==> b < a
    ensures CompareWords(ops, Eq, dtype, a, b) <==> a == b
    ensures CompareWords(ops, Ne, dtype, a, b) <==> a != b
    ensures CompareWords(ops, Le, dtype, a, b) <==> !(b < a)
    ensures CompareWords(ops, Ge, dtype, a, b) <==> !(a < b)
  {
  }

  // ----- bytes -----

  /** Words lie in memory low byte first. */
  lemma {:induction false} ByteOfWord(value: nat, size: nat, k: nat)
    requires k < size
    ensures ToBytes(value, size)[k] == value / Power256(k) % 256
    decreases k
  {
    if k > 0 {
      ByteOfWord(value / 256, size - 1, k - 1);
      QuotientTwice(value, 256, Power256(k - 1));
    }
  }

  /** And are read that way. */
  lemma {:induction false} ByteRead(blob: seq<Byte>, k: nat)
    requires k < |blob|
    ensures FromBytes(blob) / Power256(k) % 256 == blob[k]
    decreases k
  {
    var rest := FromBytes(blob[1..]);
    var value := blob[0] + 256 * rest;
    RemainderIs(value, 256, rest, blob[0]);
    if k > 0 {
      ByteRead(blob[1..], k - 1);
      QuotientTwice(value, 256, Power256(k - 1));
    }
  }

  // ----- accesses -----

  /** Which types loads and stores move: eight bytes for .b64, four for words and binary32, nothing else. */
  function Moved(dtype: DType): nat {
    if dtype == B64 then 8 else if dtype in {B32, U32, S32, F32} then 4 else 0
  }

  /** A load is refused exactly if its address is not held, its type does not move, or it leaves the memory. */
  lemma LoadsExactly(cfg: Config, inst: Inst, lane: Lane, gmem: seq<Byte>)
    requires inst.src1 < 256 && inst.dest < 255
    ensures var memory := if inst.space == Some(Pmem) then cfg.pmem else gmem;
            LoadEffect(cfg, inst, lane, gmem) != Trap <==>
            && inst.space in {Some(Gmem), Some(Pmem)} && Moved(inst.dtype) > 0
            && Mask32(lane.regs[inst.src1]) + Moved(inst.dtype) <= |memory|
  {
    hide FromBytes, Mask32;
  }

  /** A store of a type that moves changes as many bytes. */
  lemma StoresExactly(inst: Inst, lane: Lane, gmem: seq<Byte>)
    requires inst.src1 < 256 && inst.src2 < 256
    ensures var e := StoreEffect(inst, lane, gmem);
            if e.Store? then e.address == Mask32(lane.regs[inst.src1]) && |e.blob| == Moved(inst.dtype)
                             && e.address + |e.blob| <= |gmem|
            else inst.space != Some(Gmem) || Moved(inst.dtype) == 0
                 || Mask32(lane.regs[inst.src1]) + Moved(inst.dtype) > |gmem|
  {
    hide ToBytes, Mask32;
  }

  /** A copy moves two registers for the 64-bit types and one for the others. */
  lemma CopiesExactly(inst: Inst, lane: Lane)
    requires inst.src1 < 255 && inst.dest < 255
    ensures CopyEffect(inst, lane).SetPair? <==> inst.dtype in {B64, F64}
    ensures CopyEffect(inst, lane).SetReg? <==> inst.dtype !in {B64, F64}
  {
    hide Mask32;
  }
}
