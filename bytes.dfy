/**
 * Fixed-width integers of the C++ sources, modelled as subsets of the
 * unbounded integers, and the few bit manipulations the codecs need.
 */
module Bytes {
  /** `uint8_t`: one octet of a telegram payload. */
  type u8 = x: int | 0 <= x < 0x100

  /** `uint16_t`: a packed group or physical address, a year. */
  type u16 = x: int | 0 <= x < 0x1_0000

  /** `uint32_t`: the bit pattern of an IEEE 754 single. */
  type u32 = x: int | 0 <= x < 0x1_0000_0000

  /** `int16_t`. */
  type i16 = x: int | -0x8000 <= x < 0x8000

  function Pow2(n: nat): (r: nat)
    ensures r >= 1
  {
    if n == 0 then 1 else 2 * Pow2(n - 1)
  }

  /** Powers of two add their exponents. */
  lemma {:induction false} Pow2Add(a: nat, b: nat)
    ensures Pow2(a + b) == Pow2(a) * Pow2(b)
    decreases a
  {
    if a > 0 {
      Pow2Add(a - 1, b);
    }
  }

  /** The powers the DPT 9 codecs use: 11 and 15 mantissa bits, 26 bits of clamped input. */
  lemma Pow2Constants()
    ensures Pow2(11) == 2048 && Pow2(15) == 32768 && Pow2(26) == 67108864
  {
    assert Pow2(5) == 32;
    Pow2Add(5, 5);
    Pow2Add(10, 1);
    Pow2Add(10, 5);
    Pow2Add(15, 11);
  }

  /**
   * C++ `x / 2` on a signed integer: the quotient is rounded toward zero,
   * unlike Dafny's `/`, which rounds toward minus infinity for a positive
   * divisor.
   */
  function TruncHalf(x: int): (r: int)
    ensures x >= 0 ==> 0 <= r && 2 * r <= x <= 2 * r + 1
    ensures x < 0 ==> r <= 0 && 2 * r - 1 <= x <= 2 * r
  {
    if x >= 0 then x / 2 else -((-x) / 2)
  }

  /** C++ `static_cast<int16_t>(x)`: keeps the low 16 bits, two's complement. */
  function ToInt16(x: int): (r: i16)
    ensures -0x8000 <= x < 0x8000 ==> r == x
  {
    (x + 0x8000) % 0x1_0000 - 0x8000
  }

  /** `(b & mask) != 0` for an octet `b`. */
  predicate HasBits(b: u8, mask: bv8)
  {
    (b as bv8) & mask != 0
  }

  /** Big-endian octets of a 16-bit value: `{x >> 8, x & 0xFF}`. */
  function BigEndian16(x: u16): (r: seq<u8>)
    ensures |r| == 2 && r[0] as int * 0x100 + r[1] == x
  {
    [x / 0x100, x % 0x100]
  }

  /** `(hi << 8) | lo` of two octets. */
  function Word16(hi: u8, lo: u8): (r: u16)
    ensures r / 0x100 == hi && r % 0x100 == lo
  {
    hi * 0x100 + lo
  }

  /** `(b & 0x80) >> 7` of an octet is its top bit, `b / 0x80`. */
  lemma TopBit(b: u8)
    ensures HasBits(b, 0x80) <==> b / 0x80 == 1
    ensures (((b as bv8) & 0x80) >> 7) as int == b / 0x80
  {
  }

  /** Joining the two octets of a big-endian split gives the word back. */
  lemma Word16OfBigEndian(x: u16)
    ensures Word16(BigEndian16(x)[0], BigEndian16(x)[1]) == x
  {
  }

  /** An octet converted to an integer and back is unchanged. */
  lemma OctetRoundTrip(f: bv8)
    ensures (f as int) as bv8 == f
  {
  }
}
