/** Arithmetic on 32-bit words, written over unbounded naturals as the Python source does. */
module Words {

  const WORD: nat := 0x1_0000_0000

  type Byte = b: int | 0 <= b < 256

  /** `x & 0xFFFFFFFF`, for any integer. */
  function Mask32(x: int): (r: nat)
    ensures r < WORD
    ensures 0 <= x < WORD ==> r == x
  {
    x % WORD
  }

  function Pow2(n: nat): (r: nat)
    ensures r > 0
  {
    if n == 0 then 1 else 2 * Pow2(n - 1)
  }

  function BitAnd(a: nat, b: nat): nat {
    if a == 0 || b == 0 then 0
    else 2 * BitAnd(a / 2, b / 2) + (if a % 2 == 1 && b % 2 == 1 then 1 else 0)
  }

  function BitOr(a: nat, b: nat): nat
    decreases a + b
  {
    if a == 0 then b
    else if b == 0 then a
    else 2 * BitOr(a / 2, b / 2) + (if a % 2 == 1 || b % 2 == 1 then 1 else 0)
  }

  function BitXor(a: nat, b: nat): nat
    decreases a + b
  {
    if a == 0 then b
    else if b == 0 then a
    else 2 * BitXor(a / 2, b / 2) + (if a % 2 != b % 2 then 1 else 0)
  }

  /** `int.from_bytes(blob, "little")`. */
  function FromBytes(blob: seq<Byte>): nat {
    if blob == [] then 0 else blob[0] + 256 * FromBytes(blob[1..])
  }

  /** `value.to_bytes(size, "little")` for a value that fits. */
  function ToBytes(value: nat, size: nat): (blob: seq<Byte>)
    ensures |blob| == size
  {
    if size == 0 then [] else [value % 256] + ToBytes(value / 256, size - 1)
  }

  function Power256(n: nat): (r: nat)
    ensures r > 0
  {
    if n == 0 then 1 else 256 * Power256(n - 1)
  }

  lemma FourBytes()
    ensures Power256(4) == WORD
  {
    assert Power256(3) == 256 * Power256(2);
    assert Power256(1) == 256;
  }

  lemma {:induction false} PowerAdds(m: nat, n: nat)
    ensures Pow2(m + n) == Pow2(m) * Pow2(n)
    decreases n
  {
    if n > 0 {
      PowerAdds(m, n - 1);
      assert Pow2(m + n) == 2 * Pow2(m + n - 1);
    }
  }

  lemma PowerOfWord()
    ensures Pow2(32) == WORD
  {
    assert Pow2(4) == 16;
    hide Pow2;
    PowerAdds(4, 4);
    PowerAdds(8, 8);
    PowerAdds(16, 16);
  }

  /** Scaling the dividend and the divisor scales the remainder. */
  lemma ScaledRemainder(a: nat, p: nat, m: nat)
    requires p > 0 && m > 0
    ensures a * p % (p * m) == p * (a % m)
  {
    var q, r := a / m, a % m;
    Division(a, m);
    assert a * p == (p * m) * q + p * r;
    assert p * r < p * m by {
      ProductMonotone(p, r + 1, m);
    }
    RemainderIs(a * p, p * m, q, p * r);
  }

  lemma ProductMonotone(d: nat, m: nat, n: nat)
    requires m <= n
    ensures d * m <= d * n
  {
  }

  lemma QuotientUnique(d: nat, q: nat, r: nat, q': nat, r': nat)
    requires d * q + r == d * q' + r' && r < d && r' < d
    ensures q == q' && r == r'
  {
    if q < q' {
      ProductMonotone(d, q + 1, q');
    } else if q' < q {
      ProductMonotone(d, q' + 1, q);
    }
  }

  lemma Division(n: nat, d: nat)
    requires d > 0
    ensures n == d * (n / d) + n % d && 0 <= n % d < d && 0 <= n / d
  {
  }

  lemma RemainderIs(n: nat, d: nat, q: nat, r: nat)
    requires n == d * q + r && r < d
    ensures n / d == q && n % d == r
  {
    Division(n, d);
    QuotientUnique(d, q, r, n / d, n % d);
  }

  /** A product with a power of two is a multiple of the word size exactly if the factor ends in enough zeros. */
  lemma ShiftedOut(a: nat, k: nat)
    requires k < 32
    ensures Mask32(a * Pow2(k)) == 0 <==> a % Pow2(32 - k) == 0
  {
    hide Pow2;
    var p, m := Pow2(k), Pow2(32 - k);
    PowerAdds(k, 32 - k);
    PowerOfWord();
    ScaledRemainder(a, p, m);
    ProductIsZero(p, a % m);
  }

  lemma ProductIsZero(p: nat, r: nat)
    requires p > 0
    ensures p * r == 0 <==> r == 0
  {
  }

  lemma QuotientIsZero(a: nat, p: nat)
    requires p > 0
    ensures a / p == 0 <==> a < p
    ensures a / p <= a
  {
    Division(a, p);
    var q := a / p;
    ProductMonotone(q, 1, p);
    if q >= 1 {
      ProductMonotone(p, 1, q);
    }
  }
}
