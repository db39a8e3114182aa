/** Half-words as numbers and as bits. */
module HalfWords {
  const HALF: nat := 0x1_0000

  function JoinNibbles(high: bv4, low: bv4): bv8 {
    ((high as bv8) << 4) | (low as bv8)
  }

  function JoinBytes(high: bv8, low: bv8): bv16 {
    ((high as bv16) << 8) | (low as bv16)
  }

  function AsNat(c: bv16): (n: nat)
    ensures n < HALF
  {
    c as nat
  }

  function ByteBits(n: nat): bv8
    requires n < 256
  {
    JoinNibbles((n / 16) as bv4, (n % 16) as bv4)
  }

  /** The bits of a half-word, byte by byte and nibble by nibble. */
  function AsBits(n: nat): bv16
    requires n < HALF
  {
    JoinBytes(ByteBits(n / 256), ByteBits(n % 256))
  }

  lemma NibbleNumber(n: nat)
    requires n < 16
    ensures (n as bv4) as nat == n
  {
  }

  lemma NibbleBits(b: bv4)
    ensures (b as nat) as bv4 == b
  {
  }

  lemma NibblesNumber(high: bv4, low: bv4)
    ensures JoinNibbles(high, low) as nat == 16 * (high as nat) + (low as nat)
  {
  }

  lemma BytesNumber(high: bv8, low: bv8)
    ensures AsNat(JoinBytes(high, low)) == 256 * (high as nat) + (low as nat)
  {
  }

  lemma SplitByte(b: bv8)
    ensures b == JoinNibbles((b >> 4) as bv4, (b & 0xF) as bv4)
  {
  }

  lemma SplitHalf(c: bv16)
    ensures c == JoinBytes((c >> 8) as bv8, (c & 0xFF) as bv8)
  {
  }

  lemma Parts(m: nat, high: nat, low: nat)
    requires low < m && (m == 16 || m == 256)
    ensures (m * high + low) / m == high && (m * high + low) % m == low
  {
  }

  lemma ByteBack(n: nat)
    requires n < 256
    ensures ByteBits(n) as nat == n
  {
    NibbleNumber(n / 16);
    NibbleNumber(n % 16);
    NibblesNumber((n / 16) as bv4, (n % 16) as bv4);
    hide JoinNibbles;
  }

  lemma ByteThere(b: bv8)
    ensures ByteBits(b as nat) == b
  {
    var high, low := (b >> 4) as bv4, (b & 0xF) as bv4;
    SplitByte(b);
    NibblesNumber(high, low);
    hide JoinNibbles;
    Parts(16, high as nat, low as nat);
    NibbleBits(high);
    NibbleBits(low);
  }

  lemma BitsOfParts(high: nat, low: nat)
    requires high < 256 && low < 256
    ensures 256 * high + low < HALF && AsBits(256 * high + low) == JoinBytes(ByteBits(high), ByteBits(low))
  {
    hide JoinBytes, ByteBits;
    Parts(256, high, low);
  }

  lemma JoinedBack(high: bv8, low: bv8)
    ensures AsBits(AsNat(JoinBytes(high, low))) == JoinBytes(high, low)
  {
    hide JoinBytes, AsNat, ByteBits, AsBits;
    BytesNumber(high, low);
    BitsOfParts(high as nat, low as nat);
    ByteThere(high);
    ByteThere(low);
  }

  /** Half-words survive being numbers. */
  lemma BitsBack(c: bv16)
    ensures AsBits(AsNat(c)) == c
  {
    hide JoinBytes, AsNat, AsBits;
    SplitHalf(c);
    JoinedBack((c >> 8) as bv8, (c & 0xFF) as bv8);
  }

  /** Numbers survive being half-words. */
  lemma BitsThere(n: nat)
    requires n < HALF
    ensures AsNat(AsBits(n)) == n
  {
    hide JoinBytes, AsNat, ByteBits;
    ByteBack(n / 256);
    ByteBack(n % 256);
    BytesNumber(ByteBits(n / 256), ByteBits(n % 256));
  }
}
