/**
 * The datapoint-type codecs of `knx_tp/dpt.cpp`: conversion between
 * typed values and the raw payload octets of a group telegram.
 *
 * `knx_ip/dpt.cpp` contains the same code for DPT 1, 5, 5.001, 5.003, 9
 * (decoding), 10, 11, 14, 19 (encoding) and 20.102; those functions are
 * modelled here once. The three IP codecs that differ live in `DptIp`.
 *
 * Floating-point values are modelled exactly: a DPT 9 value is its
 * (mantissa, exponent) pair, worth `0.01 * mantissa * 2^exponent`; a
 * DPT 14 value is its IEEE 754 bit pattern; the 5.001 and 5.003 scalings
 * are real divisions.
 */
module Dpt {
  import opened Bytes

  // ---------------------------------------------------------------- DPT 1

  /** Switch value: bit 0 of the first octet; an empty payload is `false`. */
  function Decode1(data: seq<u8>): bool
  {
    if |data| == 0 then false else data[0] % 2 == 1
  }

  /** One octet, 0x01 for `true` and 0x00 for `false`: no bit but bit 0 is ever set. */
  function Encode1(value: bool): (r: seq<u8>)
    ensures |r| == 1 && r[0] <= 1
    ensures r[0] == 1 <==> value
  {
    [if value then 1 else 0]
  }

  /** Decoding reads only bit 0 of the first octet, and inverts encoding. */
  lemma Dpt1RoundTrip(value: bool, data: seq<u8>)
    ensures Decode1(Encode1(value)) == value
    ensures |data| > 0 ==> Decode1(data) == Decode1([data[0] % 2])
    ensures |data| == 0 ==> !Decode1(data)
  {
  }

  // ---------------------------------------------------------------- DPT 5

  /** Unsigned 8-bit value: the first octet; empty payload is 0. */
  function Decode5(data: seq<u8>): (r: u8)
    ensures |data| == 0 ==> r == 0
  {
    if |data| == 0 then 0 else data[0]
  }

  function Encode5(value: u8): (r: seq<u8>)
    ensures |r| == 1
  {
    [value]
  }

  lemma Dpt5RoundTrip(value: u8, data: seq<u8>)
    ensures Decode5(Encode5(value)) == value
    ensures |data| > 0 ==> Encode5(Decode5(data)) == data[..1]
  {
  }

  /** DPT 5.001: the first octet scaled from 0..255 to 0..100 percent. */
  function Decode5Percentage(data: seq<u8>): (r: real)
    ensures 0.0 <= r <= 100.0
    ensures |data| == 0 ==> r == 0.0
    ensures |data| > 0 ==> r * 255.0 == data[0] as real * 100.0
  {
    if |data| == 0 then 0.0 else (data[0] as real * 100.0) / 255.0
  }

  /** DPT 5.003: the first octet scaled from 0..255 to 0..360 degrees. */
  function Decode5Angle(data: seq<u8>): (r: real)
    ensures 0.0 <= r <= 360.0
    ensures |data| == 0 ==> r == 0.0
    ensures |data| > 0 ==> r * 255.0 == data[0] as real * 360.0
  {
    if |data| == 0 then 0.0 else (data[0] as real * 360.0) / 255.0
  }

  // ---------------------------------------------------------------- DPT 9

  /** A KNX 2-octet float, worth `0.01 * mantissa * 2^exponent`. */
  datatype Float16 = Float16(mantissa: int, exponent: nat)

  /** The value of a DPT 9 float in hundredths. */
  function Hundredths(f: Float16): int
  {
    f.mantissa * Pow2(f.exponent)
  }

  /** C++ `~x` on a two's-complement integer. */
  function BitNot(x: int): int
  {
    -x - 1
  }

  /** C++ `x & 0x7FF` on a two's-complement integer of any sign. */
  function Low11(x: int): (r: int)
    ensures 0 <= r < 2048
  {
    x % 2048
  }

  /**
   * Decodes `MEEEEMMM MMMMMMMM`. The negative branch computes
   * `-(~(m - 1) & 0x7FF)` on the 11 mantissa bits `m`, which is `m - 2048`
   * except for `m == 0`, where it is 0: a sign bit with zero mantissa bits
   * decodes to 0 rather than to -2048.
   */
  function Decode9(data: seq<u8>): (r: Float16)
    ensures -2047 <= r.mantissa <= 2047 && r.exponent <= 15
    ensures |data| < 2 ==> r == Float16(0, 0)
  {
    if |data| < 2 then Float16(0, 0)
    else
      var raw := Word16(data[0], data[1]);
      var bits := Low11(raw);
      var exponent := (raw / 2048) % 16;
      var mantissa := if raw >= 0x8000 then -Low11(BitNot(bits - 1)) else bits;
      Float16(mantissa, exponent)
  }

  predicate Fits11(m: int)
  {
    -2048 <= m <= 2047
  }

  /**
   * The two octets `((exponent & 0x0F) << 11) | (mantissa & 0x7FF)`, with
   * `0x8000` or-ed in for a negative mantissa, most significant first.
   */
  function Word9(mantissa: int, exponent: nat): (r: seq<u8>)
    requires Fits11(mantissa) && exponent <= 15
    ensures |r| == 2
  {
    BigEndian16(Raw9(mantissa, exponent))
  }

  /** The 16-bit word that `Word9` sends, before it is split into octets. */
  function Raw9(mantissa: int, exponent: nat): u16
    requires Fits11(mantissa) && exponent <= 15
  {
    (if mantissa < 0 then 0x8000 else 0) + exponent * 2048 + Low11(mantissa)
  }

  /** The sign and exponent sit above the low 11 bits of the word. */
  lemma Raw9Fields(mantissa: int, exponent: nat)
    requires Fits11(mantissa) && exponent <= 15
    ensures Raw9(mantissa, exponent) / 2048 == (if mantissa < 0 then 16 else 0) + exponent
    ensures Raw9(mantissa, exponent) % 2048 == Low11(mantissa)
    ensures Raw9(mantissa, exponent) >= 0x8000 <==> mantissa < 0
  {
  }

  /**
   * The negative branch of `decode_dpt9` undoes the 11-bit two's complement,
   * except that the bits of -2048 (all zero) come back as 0.
   */
  lemma NegativeMantissa(mantissa: int)
    requires -2048 <= mantissa < 0
    ensures -Low11(BitNot(Low11(mantissa) - 1)) == if mantissa == -2048 then 0 else mantissa
  {
    assert Low11(mantissa) == mantissa + 2048;
  }

  /** The exponent field of an encoded word, `(r[0] >> 3) & 0x0F`. */
  function ExponentField(r: seq<u8>): nat
    requires |r| >= 1
  {
    (r[0] / 8) % 16
  }

  /** The encoded word carries the exponent and decodes back to the mantissa. */
  lemma Word9Fields(mantissa: int, exponent: nat)
    requires Fits11(mantissa) && exponent <= 15
    ensures ExponentField(Word9(mantissa, exponent)) == exponent
    ensures Decode9(Word9(mantissa, exponent))
            == if mantissa == -2048 then Float16(0, exponent) else Float16(mantissa, exponent)
  {
    Word9Exponent(mantissa, exponent);
    Word9Decodes(mantissa, exponent);
  }

  /** The exponent field of the encoded word. */
  lemma Word9Exponent(mantissa: int, exponent: nat)
    requires Fits11(mantissa) && exponent <= 15
    ensures ExponentField(Word9(mantissa, exponent)) == exponent
  {
    var raw := Raw9(mantissa, exponent);
    Raw9Fields(mantissa, exponent);
    assert Word9(mantissa, exponent)[0] == raw / 256;
    assert (raw / 256) / 8 == raw / 2048;
  }

  /** Decoding the encoded word gives the mantissa back, -2048 aside. */
  lemma Word9Decodes(mantissa: int, exponent: nat)
    requires Fits11(mantissa) && exponent <= 15
    ensures Decode9(Word9(mantissa, exponent))
            == if mantissa == -2048 then Float16(0, exponent) else Float16(mantissa, exponent)
  {
    var raw := Raw9(mantissa, exponent);
    Word16OfBigEndian(raw);
    Raw9Fields(mantissa, exponent);
    if mantissa < 0 {
      NegativeMantissa(mantissa);
    }
  }

  /** The scaled input of `encode_dpt9`: a non-finite float or `value * 100` truncated. */
  datatype FloatInput = NonFinite | Finite(hundredths: int)

  /**
   * The clamp of the input to -671088.64 .. 670760.96, in hundredths.
   * `encode_dpt9` clamps the float and scales it in single precision: 670760.96f is
   * 670760.9375, and times 100.0f it rounds to 67076092, so that is the largest
   * scaled value; -671088.64f * 100.0f is exactly -67108864.
   */
  function Clamp9(h: int): (r: int)
    ensures -67108864 <= r <= 67076092
    ensures -67108864 <= h <= 67076092 ==> r == h
  {
    if h < -67108864 then -67108864 else if h > 67076092 then 67076092 else h
  }

  /** `m` halved `k` times with C++ integer division (rounding toward zero). */
  function Halved(m: int, k: nat): int
  {
    if k == 0 then m else TruncHalf(Halved(m, k - 1))
  }

  /** `e` is the smallest number of halvings after which `m` fits 11 bits. */
  predicate LeastFit(m: int, e: nat)
  {
    Fits11(Halved(m, e)) && forall k :: 0 <= k < e ==> !Fits11(Halved(m, k))
  }

  /** The exponent the halving loop stops at when started at `k`: the first fit, or 15. */
  function Exponent9(c: int, k: nat): (e: nat)
    requires k <= 15
    ensures k <= e <= 15
    decreases 15 - k
  {
    if Fits11(Halved(c, k)) || k == 15 then k else Exponent9(c, k + 1)
  }

  /** The word `encode_dpt9` produces, as a function of its input. */
  function Dpt9Payload(value: FloatInput): (r: seq<u8>)
    ensures |r| == 2
  {
    match value
    case NonFinite => [0, 0]
    case Finite(h) =>
      var c := Clamp9(h);
      var e := Exponent9(c, 0);
      HalvedBound(c, e);
      Word9(Halved(c, e), e)
  }

  /** After `k` halvings a clamped input lies in `-2^(26-k) .. 2047 * 2^(15-k)`; at 15 it fits. */
  lemma {:induction false} HalvedBound(c: int, k: nat)
    requires -67108864 <= c <= 67076092 && k <= 15
    ensures -(Pow2(26 - k) as int) <= Halved(c, k) <= 2047 * Pow2(15 - k)
    ensures k == 15 ==> Fits11(Halved(c, k))
  {
    Pow2Constants();
    if k > 0 {
      HalvedBound(c, k - 1);
      var low, high := Pow2(26 - k) as int, Pow2(15 - k);
      assert Pow2(27 - k) == 2 * low;
      assert Pow2(16 - k) == 2 * high;
      var x := Halved(c, k - 1);
      assert -2 * low <= x <= 2047 * (2 * high);
      assert Halved(c, k) == TruncHalf(x);
      assert -low <= TruncHalf(x) <= 2047 * high;
    }
    if k == 15 {
      assert Pow2(0) == 1;
    }
  }

  /** An input past the top of the range saturates to mantissa 2046 at exponent 15, the word 0x7FFE. */
  lemma Dpt9Saturates(h: int)
    requires h > 67076092
    ensures Dpt9Payload(Finite(h)) == [0x7F, 0xFE]
  {
    var c := Clamp9(h);
    assert Halved(c, 0) == 67076092;
    assert Halved(c, 1) == 33538046;
    assert Halved(c, 2) == 16769023;
    assert Halved(c, 3) == 8384511;
    assert Halved(c, 4) == 4192255;
    assert Halved(c, 5) == 2096127;
    assert Halved(c, 6) == 1048063;
    assert Halved(c, 7) == 524031;
    assert Halved(c, 8) == 262015;
    assert Halved(c, 9) == 131007;
    assert Halved(c, 10) == 65503;
    assert Halved(c, 11) == 32751;
    assert Halved(c, 12) == 16375;
    assert Halved(c, 13) == 8187;
    assert Halved(c, 14) == 4093;
    assert Halved(c, 15) == 2046;
    Exponent9Exit(c, 0, 15);
    Word9Fields(2046, 15);
    assert Raw9(2046, 15) == 0x7FFE;
  }

  /** Every word meeting the contract of `Encode9` is `Dpt9Payload`: the two descriptions agree. */
  lemma Encode9IsPayload(value: FloatInput, r: seq<u8>)
    requires |r| == 2
    requires value.NonFinite? ==> r == [0, 0]
    requires value.Finite? ==>
      var c := Clamp9(value.hundredths);
      var e := ExponentField(r);
      e <= 15 && LeastFit(c, e) && r == Word9(Halved(c, e), e)
    ensures r == Dpt9Payload(value)
  {
    if value.Finite? {
      var c := Clamp9(value.hundredths);
      Exponent9Exit(c, 0, ExponentField(r));
    }
  }

  /** The loop's exit exponent is `Exponent9`. */
  lemma {:induction false} Exponent9Exit(c: int, j: nat, e: nat)
    requires j <= e <= 15
    requires forall k :: j <= k < e ==> !Fits11(Halved(c, k))
    requires Fits11(Halved(c, e)) || e == 15
    ensures Exponent9(c, j) == e
    decreases e - j
  {
    if j < e {
      Exponent9Exit(c, j + 1, e);
    }
  }

  /**
   * `encode_dpt9`: clamp, then halve the mantissa (rounding toward zero)
   * and count the exponent up until the mantissa fits 11 bits; the result
   * uses the smallest such exponent, which for every clamped input is at
   * most 15, so the final clamp changes nothing.
   */
  method Encode9(value: FloatInput) returns (r: seq<u8>)
    ensures |r| == 2
    ensures value.NonFinite? ==> r == [0, 0]
    ensures value.Finite? ==>
      var c := Clamp9(value.hundredths);
      var e := ExponentField(r);
      e <= 15 && LeastFit(c, e) && r == Word9(Halved(c, e), e)
  {
    if value.NonFinite? {
      return [0, 0];
    }
    var mantissa32 := Clamp9(value.hundredths);
    var c := mantissa32;
    var exponent := 0;
    while (mantissa32 < -2048 || mantissa32 > 2047) && exponent < 15
      invariant 0 <= exponent <= 15
      invariant mantissa32 == Halved(c, exponent)
      invariant forall k :: 0 <= k < exponent ==> !Fits11(Halved(c, k))
    {
      mantissa32 := TruncHalf(mantissa32);
      exponent := exponent + 1;
    }
    if exponent == 15 {
      FitsAfterFifteen(c);
    }
    assert LeastFit(c, exponent);
    var mantissa: int := ToInt16(mantissa32);
    assert mantissa == mantissa32;
    if mantissa < -2048 {
      mantissa := -2048;
    }
    if mantissa > 2047 {
      mantissa := 2047;
    }
    Word9Fields(mantissa, exponent);
    r := Word9(mantissa, exponent);
  }

  /** Fifteen halvings bring every clamped input into 11 bits. */
  lemma FitsAfterFifteen(c: int)
    requires -67108864 <= c <= 67076092
    ensures Fits11(Halved(c, 15))
  {
    HalvedBound(c, 15);
  }

  /** Truncating halvings of a non-negative value round down by less than one step. */
  lemma {:induction false} HalvedErrorNonNegative(c: int, k: nat)
    requires c >= 0
    ensures 0 <= Halved(c, k)
    ensures Halved(c, k) * Pow2(k) <= c < Halved(c, k) * Pow2(k) + Pow2(k)
  {
    if k > 0 {
      HalvedErrorNonNegative(c, k - 1);
      var h := Halved(c, k - 1);
      var h2 := TruncHalf(h);
      var p := Pow2(k - 1);
      assert Halved(c, k) * Pow2(k) == h2 * (2 * p);
      if h == 2 * h2 + 1 {
        MulStep(h2, p, 1);
      } else {
        MulStep(h2, p, 0);
      }
    }
  }

  /** Truncating halvings of a negative value round up by less than one step. */
  lemma {:induction false} HalvedErrorNegative(c: int, k: nat)
    requires c < 0
    ensures Halved(c, k) <= 0
    ensures Halved(c, k) * Pow2(k) - Pow2(k) < c <= Halved(c, k) * Pow2(k)
  {
    if k > 0 {
      HalvedErrorNegative(c, k - 1);
      var h := Halved(c, k - 1);
      var h2 := TruncHalf(h);
      var p := Pow2(k - 1);
      assert Halved(c, k) * Pow2(k) == h2 * (2 * p);
      if h == 2 * h2 - 1 {
        MulStep(h2, p, -1);
      } else {
        MulStep(h2, p, 0);
      }
    }
  }

  lemma MulStep(h2: int, p: int, b: int)
    requires b == -1 || b == 0 || b == 1
    ensures h2 * (2 * p) == (2 * h2 + b) * p - b * p
  {
  }

  /**
   * Encoding then decoding a finite value loses less than one unit of the
   * chosen exponent, rounding toward zero, except for a mantissa of
   * exactly -2048, which decodes to 0.
   */
  lemma Dpt9Quantization(c: int, e: nat)
    requires e <= 15 && Fits11(Halved(c, e))
    ensures var d := Decode9(Word9(Halved(c, e), e));
      d.exponent == e &&
      (Halved(c, e) != -2048 ==>
        (c >= 0 ==> 0 <= c - Hundredths(d) < Pow2(e)) &&
        (c < 0 ==> 0 <= Hundredths(d) - c < Pow2(e)))
  {
    Word9Fields(Halved(c, e), e);
    if c >= 0 {
      HalvedErrorNonNegative(c, e);
    } else {
      HalvedErrorNegative(c, e);
    }
  }

  /** -20.48 fits with exponent 0, is sent as 0x80 0x00 and reads back as 0. */
  lemma Dpt9MinimumMantissaReadsZero()
    ensures LeastFit(-2048, 0) && Word9(-2048, 0) == [0x80, 0x00]
    ensures Decode9([0x80, 0x00]) == Float16(0, 0)
  {
  }

  // ---------------------------------------------------------------- DPT 14

  /** A 4-octet float as its big-endian IEEE 754 bit pattern; short payloads are 0. */
  function Decode14(data: seq<u8>): u32
  {
    if |data| < 4 then 0
    else data[0] as int * 0x100_0000 + data[1] as int * 0x1_0000 + data[2] as int * 0x100 + data[3]
  }

  function Encode14(bits: u32): (r: seq<u8>)
    ensures |r| == 4
  {
    [bits / 0x100_0000, (bits / 0x1_0000) % 0x100, (bits / 0x100) % 0x100, bits % 0x100]
  }

  lemma Dpt14RoundTrip(bits: u32, data: seq<u8>)
    ensures Decode14(Encode14(bits)) == bits
    ensures |data| >= 4 ==> Encode14(Decode14(data)) == data[..4]
  {
    DecodeOfEncode14(bits);
    if |data| >= 4 {
      EncodeOfDecode14(data);
    }
  }

  /** The four octets of a word, high first, put back together. */
  lemma DecodeOfEncode14(bits: u32)
    ensures Decode14(Encode14(bits)) == bits
  {
    var q1, q2 := bits / 0x100, bits / 0x1_0000;
    assert q2 == q1 / 0x100;
    assert bits / 0x100_0000 == q2 / 0x100;
    assert bits == q1 * 0x100 + bits % 0x100;
  }

  /** Division by a power of 256 splits off the low octets. */
  lemma DivModSplit(hi: int, lo: int, k: int)
    requires k == 0x100 || k == 0x1_0000 || k == 0x100_0000
    requires 0 <= lo < k
    ensures (hi * k + lo) / k == hi && (hi * k + lo) % k == lo
  {
    if k == 0x100 {
    } else if k == 0x1_0000 {
    } else {
    }
  }

  /** The big-endian word of four octets encodes back to those octets. */
  lemma Word32Octets(a: u8, b: u8, c: u8, d: u8)
    ensures Encode14(a * 0x100_0000 + b * 0x1_0000 + c * 0x100 + d) == [a, b, c, d]
  {
    DivModSplit(a, b * 0x1_0000 + c * 0x100 + d, 0x100_0000);
    DivModSplit(a * 0x100 + b, c * 0x100 + d, 0x1_0000);
    DivModSplit(a, b, 0x100);
    DivModSplit(a * 0x1_0000 + b * 0x100 + c, d, 0x100);
    DivModSplit(a * 0x100 + b, c, 0x100);
  }

  /** The first four octets of a payload survive decoding and encoding again. */
  lemma EncodeOfDecode14(data: seq<u8>)
    requires |data| >= 4
    ensures Encode14(Decode14(data)) == data[..4]
  {
    Word32Octets(data[0], data[1], data[2], data[3]);
  }

  // ---------------------------------------------------------------- DPT 16

  /** The longest string DPT 16.001 carries. */
  const MaxDpt16Length := 14

  predicate Printable(c: char)
  {
    0x20 <= c as int <= 0x7E
  }

  /** The printable-ASCII characters of `s`, in order. */
  function Printables(s: string): (r: string)
    ensures |r| <= |s|
    ensures forall i :: 0 <= i < |r| ==> Printable(r[i])
  {
    if s == [] then []
    else Printables(s[..|s| - 1]) + (if Printable(s[|s| - 1]) then [s[|s| - 1]] else [])
  }

  lemma {:induction false} PrintablesAppend(a: string, b: string)
    ensures Printables(a + b) == Printables(a) + Printables(b)
    decreases |b|
  {
    if b != [] {
      var b' := b[..|b| - 1];
      assert (a + b)[..|a + b| - 1] == a + b';
      PrintablesAppend(a, b');
    } else {
      assert a + b == a;
    }
  }

  lemma {:induction false} PrintablesOfPrintable(s: string)
    requires forall i :: 0 <= i < |s| ==> Printable(s[i])
    ensures Printables(s) == s
    decreases |s|
  {
    if s != [] {
      PrintablesOfPrintable(s[..|s| - 1]);
    }
  }

  function Take<T>(s: seq<T>, n: nat): (r: seq<T>)
    ensures |r| <= n && r <= s
    ensures |s| <= n ==> r == s
  {
    if |s| <= n then s else s[..n]
  }

  /** Octets read as characters (`static_cast<char>`). */
  function Latin1(data: seq<u8>): (r: string)
    ensures |r| == |data|
  {
    seq(|data|, i requires 0 <= i < |data| => data[i] as char)
  }

  /** Characters stored as octets (`static_cast<uint8_t>`). */
  function Octets(s: string): (r: seq<u8>)
    ensures |r| == |s|
  {
    seq(|s|, i requires 0 <= i < |s| => (s[i] as int) % 0x100)
  }

  /** The octets before the first NUL terminator. */
  function BeforeNul(data: seq<u8>): (r: seq<u8>)
    ensures r <= data
    ensures forall i :: 0 <= i < |r| ==> r[i] != 0
  {
    if data == [] || data[0] == 0 then [] else [data[0]] + BeforeNul(data[1..])
  }

  /** Cutting a NUL-free prefix off the front commutes with `BeforeNul`. */
  lemma {:induction false} BeforeNulPrefix(data: seq<u8>, i: nat)
    requires i <= |data| && forall k :: 0 <= k < i ==> data[k] != 0
    ensures BeforeNul(data) == data[..i] + BeforeNul(data[i..])
    decreases i
  {
    if i > 0 {
      forall k | 0 <= k < i - 1 ensures data[1..][k] != 0 {
        assert data[1..][k] == data[k + 1];
      }
      BeforeNulPrefix(data[1..], i - 1);
      BeforeNulCons(data, i);
    }
  }

  /** One step of `BeforeNulPrefix`: a non-NUL first octet joins the prefix. */
  lemma BeforeNulCons(data: seq<u8>, i: nat)
    requires 0 < i <= |data| && data[0] != 0
    requires BeforeNul(data[1..]) == data[1..][..i - 1] + BeforeNul(data[1..][i - 1..])
    ensures BeforeNul(data) == data[..i] + BeforeNul(data[i..])
  {
    ConsSlices(data, i);
    ConsAppend(data, i, BeforeNul(data[i..]));
    assert BeforeNul(data) == [data[0]] + BeforeNul(data[1..]);
  }

  /** The first `i` elements are the head and `i - 1` elements of the tail. */
  lemma ConsSlices<T>(data: seq<T>, i: nat)
    requires 0 < i <= |data|
    ensures [data[0]] + data[1..][..i - 1] == data[..i] && data[1..][i - 1..] == data[i..]
  {
  }

  /** The head in front of `i - 1` elements of the tail and anything after them. */
  lemma ConsAppend<T>(data: seq<T>, i: nat, tail: seq<T>)
    requires 0 < i <= |data|
    ensures [data[0]] + (data[1..][..i - 1] + tail) == data[..i] + tail
  {
    ConsSlices(data, i);
    assert [data[0]] + (data[1..][..i - 1] + tail) == ([data[0]] + data[1..][..i - 1]) + tail;
  }

  /** What `decode_dpt16` returns: at most 14 printable characters before the NUL. */
  function Decode16Spec(data: seq<u8>): string
  {
    Take(Printables(Latin1(BeforeNul(data))), MaxDpt16Length)
  }

  /** What `encode_dpt16` returns: at most 14 printable characters, then a NUL. */
  function Encode16Spec(value: string): seq<u8>
  {
    Octets(Take(Printables(value), MaxDpt16Length)) + [0]
  }

  /**
   * `decode_dpt16`: copies printable octets up to the first NUL, stopping
   * once 14 characters are kept.
   */
  method Decode16(data: seq<u8>) returns (result: string)
    ensures result == Decode16Spec(data)
    ensures |result| <= MaxDpt16Length
    ensures forall i :: 0 <= i < |result| ==> Printable(result[i])
  {
    result := [];
    var count := 0;
    var i := 0;
    while i < |data|
      invariant 0 <= i <= |data|
      invariant count == |result| <= MaxDpt16Length
      invariant result == Printables(Latin1(data[..i]))
      invariant forall k :: 0 <= k < i ==> data[k] != 0
    {
      var byte := data[i];
      if byte == 0 || count >= MaxDpt16Length {
        Decode16Stop(data, i);
        break;
      }
      DecodeStep(data, i);
      if 0x20 <= byte <= 0x7E {
        result := result + [byte as char];
        count := count + 1;
      }
      i := i + 1;
    }
    if i == |data| {
      assert data[..i] == data;
      Decode16Whole(data);
    }
  }

  /** A payload with no NUL, whose printable characters fit, is read whole. */
  lemma Decode16Whole(data: seq<u8>)
    requires forall k :: 0 <= k < |data| ==> data[k] != 0
    requires |Printables(Latin1(data))| <= MaxDpt16Length
    ensures Decode16Spec(data) == Printables(Latin1(data))
  {
    BeforeNulPrefix(data, |data|);
    assert data[|data|..] == [];
    assert BeforeNul(data) == data[..|data|] + [];
    assert data[..|data|] + [] == data;
  }

  /** One more octet of the payload adds its character when it is printable. */
  lemma DecodeStep(data: seq<u8>, i: nat)
    requires i < |data|
    ensures Printables(Latin1(data[..i + 1])) ==
      Printables(Latin1(data[..i])) + (if Printable(data[i] as char) then [data[i] as char] else [])
  {
    var s := Latin1(data[..i + 1]);
    assert s[..|s| - 1] == Latin1(data[..i]);
  }

  lemma Decode16Stop(data: seq<u8>, i: nat)
    requires i < |data| && forall k :: 0 <= k < i ==> data[k] != 0
    requires |Printables(Latin1(data[..i]))| <= MaxDpt16Length
    requires data[i] == 0 || |Printables(Latin1(data[..i]))| == MaxDpt16Length
    ensures Decode16Spec(data) == Printables(Latin1(data[..i]))
  {
    BeforeNulPrefix(data, i);
    var rest := BeforeNul(data[i..]);
    Latin1Append(data[..i], rest);
    PrintablesAppend(Latin1(data[..i]), Latin1(rest));
    if data[i] == 0 {
      assert rest == [];
    }
    TakePrefix(Printables(Latin1(data[..i])), Printables(Latin1(rest)), MaxDpt16Length);
  }

  /** Reading two runs of octets is reading each in turn. */
  lemma Latin1Append(a: seq<u8>, b: seq<u8>)
    ensures Latin1(a + b) == Latin1(a) + Latin1(b)
  {
  }

  /** A prefix that fills the limit, or that has nothing after it, is all `Take` keeps. */
  lemma TakePrefix<T>(p: seq<T>, x: seq<T>, n: nat)
    requires |p| == n || (x == [] && |p| <= n)
    ensures Take(p + x, n) == p
  {
    if x == [] {
      assert p + x == p;
    } else {
      assert (p + x)[..n] == p;
    }
  }

  /**
   * `encode_dpt16`: copies printable characters, at most 14, then appends
   * the NUL terminator.
   */
  method Encode16(value: string) returns (result: seq<u8>)
    ensures result == Encode16Spec(value)
    ensures |result| <= MaxDpt16Length + 1 && result[|result| - 1] == 0
  {
    result := [];
    var count := 0;
    var i := 0;
    while i < |value|
      invariant 0 <= i <= |value|
      invariant count == |result| <= MaxDpt16Length
      invariant result == Octets(Printables(value[..i]))
    {
      if count >= MaxDpt16Length {
        EncodeStop(value, i);
        break;
      }
      var c := value[i];
      EncodeStep(value, i);
      if 0x20 <= c as int <= 0x7E {
        result := result + [c as int];
        count := count + 1;
      }
      i := i + 1;
    }
    if i == |value| {
      assert value[..i] == value;
    }
    result := result + [0];
  }

  /** One more character of the input adds its octet when it is printable. */
  lemma EncodeStep(value: string, i: nat)
    requires i < |value|
    ensures Octets(Printables(value[..i + 1])) ==
      Octets(Printables(value[..i])) + (if Printable(value[i]) then [value[i] as int] else [])
  {
    var c := value[i];
    assert value[..i + 1][..i] == value[..i];
    var p := Printables(value[..i]);
    if Printable(c) {
      assert Octets(p + [c]) == Octets(p) + [c as int];
    }
  }

  /** Once 14 characters are kept, the rest of the input no longer matters. */
  lemma EncodeStop(value: string, i: nat)
    requires i <= |value| && |Printables(value[..i])| >= MaxDpt16Length
    ensures Take(Printables(value), MaxDpt16Length) == Take(Printables(value[..i]), MaxDpt16Length)
  {
    assert value == value[..i] + value[i..];
    PrintablesAppend(value[..i], value[i..]);
  }

  /**
   * A string survives encoding and decoding as its first 14 printable
   * characters; a string of at most 14 printable characters survives whole.
   */
  lemma Dpt16RoundTrip(value: string)
    ensures Decode16Spec(Encode16Spec(value)) == Take(Printables(value), MaxDpt16Length)
    ensures |value| <= MaxDpt16Length && (forall i :: 0 <= i < |value| ==> Printable(value[i])) ==>
      Decode16Spec(Encode16Spec(value)) == value
  {
    var t := Take(Printables(value), MaxDpt16Length);
    TerminatedOctets(t);
    PrintablesOfPrintable(t);
    if |value| <= MaxDpt16Length && (forall i :: 0 <= i < |value| ==> Printable(value[i])) {
      PrintablesOfPrintable(value);
    }
  }

  /** Printable characters stored as octets and terminated read back unchanged. */
  lemma TerminatedOctets(t: string)
    requires forall i :: 0 <= i < |t| ==> Printable(t[i])
    ensures Latin1(BeforeNul(Octets(t) + [0])) == t
  {
    var octets := Octets(t);
    BeforeNulPrefix(octets + [0], |octets|);
    assert (octets + [0])[..|octets|] == octets;
    assert (octets + [0])[|octets|..] == [0];
    assert Latin1(octets) == t;
  }

  // ---------------------------------------------------------------- DPT 20.102

  /** HVAC operating mode, with its wire ordinal. */
  datatype HvacMode = Auto | Comfort | Standby | Night | FrostProtection

  function HvacOrdinal(mode: HvacMode): (r: u8)
    ensures r <= 4
  {
    match mode
    case Auto => 0
    case Comfort => 1
    case Standby => 2
    case Night => 3
    case FrostProtection => 4
  }

  /** Ordinals 0..4 name a mode; anything else, or an empty payload, is `Auto`. */
  function Decode20(data: seq<u8>): HvacMode
  {
    if |data| == 0 then Auto
    else if data[0] == 1 then Comfort
    else if data[0] == 2 then Standby
    else if data[0] == 3 then Night
    else if data[0] == 4 then FrostProtection
    else Auto
  }

  function Encode20(mode: HvacMode): (r: seq<u8>)
    ensures |r| == 1
  {
    [HvacOrdinal(mode)]
  }

  lemma Dpt20RoundTrip(mode: HvacMode, data: seq<u8>)
    ensures Decode20(Encode20(mode)) == mode
    ensures |data| > 0 && data[0] <= 4 ==> HvacOrdinal(Decode20(data)) == data[0]
    ensures (|data| == 0 || data[0] > 4) ==> Decode20(data) == Auto
  {
  }

  // ---------------------------------------------------------------- DPT 10.001

  datatype TimeOfDay = TimeOfDay(dayOfWeek: u8, hour: u8, minute: u8, second: u8)

  function Min(a: int, b: int): int
  {
    if a < b then a else b
  }

  /**
   * Octet 0 holds the day of week in bits 7-5 and the hour in bits 4-0;
   * octets 1 and 2 hold minute and second in their low 6 bits. Payloads
   * shorter than 3 octets decode to all zeros.
   */
  function Decode10(data: seq<u8>): (r: TimeOfDay)
    ensures r.dayOfWeek <= 7 && r.hour <= 31 && r.minute <= 63 && r.second <= 63
    ensures |data| < 3 ==> r == TimeOfDay(0, 0, 0, 0)
  {
    if |data| < 3 then TimeOfDay(0, 0, 0, 0)
    else TimeOfDay((data[0] / 32) % 8, data[0] % 32, data[1] % 64, data[2] % 64)
  }

  /** Masks the day of week to 3 bits and clamps hour, minute, second to 23, 59, 59. */
  function Encode10(time: TimeOfDay): (r: seq<u8>)
    ensures |r| == 3
  {
    var dow := time.dayOfWeek % 8;
    var hour := Min(time.hour, 23);
    [dow * 32 + hour, Min(time.minute, 59), Min(time.second, 59)]
  }

  /** Encoding then decoding gives the masked and clamped time; valid times come back unchanged. */
  lemma Dpt10RoundTrip(time: TimeOfDay)
    ensures Decode10(Encode10(time))
            == TimeOfDay(time.dayOfWeek % 8, Min(time.hour, 23), Min(time.minute, 59), Min(time.second, 59))
    ensures time.dayOfWeek <= 7 && time.hour <= 23 && time.minute <= 59 && time.second <= 59 ==>
            Decode10(Encode10(time)) == time
  {
  }

  // ---------------------------------------------------------------- DPT 11.001

  datatype Date = Date(day: u8, month: u8, year: u16)

  /**
   * Octets day, month, year-of-century; a year octet below 90 means
   * 2000-2089, otherwise 1900 + octet. Short payloads give 2000-01-01.
   */
  function Decode11(data: seq<u8>): (r: Date)
    ensures 1990 <= r.year <= 2155
    ensures |data| < 3 ==> r == Date(1, 1, 2000)
  {
    if |data| < 3 then Date(1, 1, 2000)
    else Date(data[0], data[1], if data[2] < 90 then 2000 + data[2] as int else 1900 + data[2] as int)
  }

  /** A received date keeps day and month as sent; the year octet is windowed at 90. */
  lemma Decode11Fields(data: seq<u8>)
    requires |data| >= 3
    ensures Decode11(data).day == data[0] && Decode11(data).month == data[1]
    ensures data[2] < 90 ==> Decode11(data).year == 2000 + data[2] as int
    ensures data[2] >= 90 ==> Decode11(data).year == 1900 + data[2] as int
  {
  }

  /** A received time reads the day of week from bits 7-5 and the hour from bits 4-0 of octet 0. */
  lemma Decode10Fields(data: seq<u8>)
    requires |data| >= 3
    ensures Decode10(data).dayOfWeek as int * 32 + Decode10(data).hour as int == data[0] as int
    ensures Decode10(data).minute as int == data[1] as int % 64 && Decode10(data).second as int == data[2] as int % 64
  {
  }

  function Clamp(x: int, lo: int, hi: int): int
  {
    if x < lo then lo else if x > hi then hi else x
  }

  /** Years outside 1990-2089 are sent as year octet 0 (2000). */
  function YearOctet(year: u16): (r: u8)
    ensures r <= 99
  {
    if 2000 <= year <= 2089 then year - 2000
    else if 1990 <= year <= 1999 then year - 1900
    else 0
  }

  function Encode11(date: Date): (r: seq<u8>)
    ensures |r| == 3
  {
    [Clamp(date.day, 1, 31), Clamp(date.month, 1, 12), YearOctet(date.year)]
  }

  /**
   * Encoding then decoding clamps day and month and replaces a year
   * outside 1990-2089 by 2000; valid dates come back unchanged.
   */
  lemma Dpt11RoundTrip(date: Date)
    ensures Decode11(Encode11(date))
            == Date(Clamp(date.day, 1, 31), Clamp(date.month, 1, 12),
                    if 1990 <= date.year <= 2089 then date.year else 2000)
    ensures 1 <= date.day <= 31 && 1 <= date.month <= 12 && 1990 <= date.year <= 2089 ==>
            Decode11(Encode11(date)) == date
  {
  }

  // ---------------------------------------------------------------- DPT 19.001

  datatype DateTime = DateTime(
    year: u16, month: u8, day: u8, dayOfWeek: u8, hour: u8, minute: u8, second: u8,
    quality: u8,
    fault: bool, workingDay: bool, noWorkingDay: bool, noYear: bool,
    noDate: bool, noDayOfWeek: bool, noTime: bool, summerTime: bool)

  /** 2000-01-01 00:00:00, no flags. */
  const DefaultDateTime := DateTime(2000, 1, 1, 0, 0, 0, 0, 0,
    false, false, false, false, false, false, false, false)

  /** The fields of the 8-octet layout, read without any range check. */
  function RawDateTime(data: seq<u8>): (r: DateTime)
    requires |data| >= 8
    ensures r.dayOfWeek <= 7 && r.hour <= 31 && r.quality <= 1
    ensures r.quality == 1 <==> r.fault
  {
    var flags := data[7];
    TopBit(flags);
    DateTime(Word16(data[0], data[1]), data[2], data[3], (data[4] / 32) % 8, data[4] % 32,
      data[5], data[6], flags / 0x80,
      HasBits(flags, 0x80), HasBits(flags, 0x40), HasBits(flags, 0x20), HasBits(flags, 0x10),
      HasBits(flags, 0x08), HasBits(flags, 0x04), HasBits(flags, 0x02), HasBits(flags, 0x01))
  }

  /** The ranges a decoded date and time keeps. */
  predicate ValidDateTime(dt: DateTime)
  {
    1990 <= dt.year <= 2089 && 1 <= dt.month <= 12 && 1 <= dt.day <= 31 &&
    dt.dayOfWeek <= 7 && dt.hour <= 23 && dt.minute <= 59 && dt.second <= 59
  }

  /** Each out-of-range field replaced by its default. */
  function Repaired(dt: DateTime): DateTime
  {
    dt.(year := if 1990 <= dt.year <= 2089 then dt.year else 2000,
        month := if 1 <= dt.month <= 12 then dt.month else 1,
        day := if 1 <= dt.day <= 31 then dt.day else 1,
        dayOfWeek := if dt.dayOfWeek <= 7 then dt.dayOfWeek else 0,
        hour := if dt.hour <= 23 then dt.hour else 0,
        minute := if dt.minute <= 59 then dt.minute else 0,
        second := if dt.second <= 59 then dt.second else 0)
  }

  /** Range repair always yields a valid date and time. */
  lemma RepairedValid(dt: DateTime)
    ensures ValidDateTime(Repaired(dt))
  {
  }

  /** A date and time already in range is left as it is. */
  lemma RepairedKeeps(dt: DateTime)
    requires ValidDateTime(dt)
    ensures Repaired(dt) == dt
  {
  }

  /** What `decode_dpt19` returns: the repaired fields of an exactly 8-octet payload. */
  function Decode19Spec(data: seq<u8>): DateTime
  {
    if |data| != 8 then DefaultDateTime else Repaired(RawDateTime(data))
  }

  /**
   * `decode_dpt19`: rejects any payload that is not exactly 8 octets, reads
   * the fields, then patches each out-of-range field to its default.
   */
  method Decode19(data: seq<u8>) returns (dt: DateTime)
    ensures dt == Decode19Spec(data)
    ensures ValidDateTime(dt)
    ensures |data| == 8 && ValidDateTime(RawDateTime(data)) ==> dt == RawDateTime(data)
  {
    dt := DefaultDateTime;
    if |data| != 8 {
      return;
    }
    var raw := RawDateTime(data);
    var year, month, day := raw.year, raw.month, raw.day;
    var dayOfWeek: int := raw.dayOfWeek;
    var hour, minute, second := raw.hour, raw.minute, raw.second;
    if year < 1990 || year > 2089 {
      year := 2000;
    }
    if month < 1 || month > 12 {
      month := 1;
    }
    if day < 1 || day > 31 {
      day := 1;
    }
    // Never taken: the day of week is three bits wide.
    if dayOfWeek > 7 {
      dayOfWeek := 0;
    }
    if hour > 23 {
      hour := 0;
    }
    if minute > 59 {
      minute := 0;
    }
    if second > 59 {
      second := 0;
    }
    dt := raw.(year := year, month := month, day := day, dayOfWeek := dayOfWeek,
               hour := hour, minute := minute, second := second);
    if ValidDateTime(raw) {
      RepairedKeeps(raw);
    }
  }

  /** The flag octet: fault in bit 7 down to summer time in bit 0. */
  function FlagOctet(dt: DateTime): (r: u8)
  {
    FlagBits(dt) as int
  }

  function FlagBits(dt: DateTime): bv8
  {
      (if dt.fault then 0x80 else 0) | (if dt.workingDay then 0x40 else 0) |
      (if dt.noWorkingDay then 0x20 else 0) | (if dt.noYear then 0x10 else 0) |
      (if dt.noDate then 0x08 else 0) | (if dt.noDayOfWeek then 0x04 else 0) |
      (if dt.noTime then 0x02 else 0) | (if dt.summerTime then 0x01 else 0)
  }

  /** Clamps every field into range; the quality field is not sent. */
  function Encode19(dt: DateTime): (r: seq<u8>)
    ensures |r| == 8
  {
    var year := Clamp(dt.year, 1990, 2089);
    [year / 0x100, year % 0x100, Clamp(dt.month, 1, 12), Clamp(dt.day, 1, 31),
     (dt.dayOfWeek % 8) * 32 + Min(dt.hour, 23), Min(dt.minute, 59), Min(dt.second, 59),
     FlagOctet(dt)]
  }

  /** `dt` with every field clamped the way `Encode19` clamps it, quality following the fault flag. */
  function Clamped19(dt: DateTime): (r: DateTime)
    ensures ValidDateTime(r)
  {
    dt.(year := Clamp(dt.year, 1990, 2089), month := Clamp(dt.month, 1, 12),
        day := Clamp(dt.day, 1, 31), dayOfWeek := dt.dayOfWeek % 8,
        hour := Min(dt.hour, 23), minute := Min(dt.minute, 59), second := Min(dt.second, 59),
        quality := if dt.fault then 1 else 0)
  }

  /** Every flag comes back from the octet it is packed into. */
  lemma FlagOctetBits(dt: DateTime)
    ensures var f := FlagOctet(dt);
      HasBits(f, 0x80) == dt.fault && HasBits(f, 0x40) == dt.workingDay && HasBits(f, 0x20) == dt.noWorkingDay &&
      HasBits(f, 0x10) == dt.noYear && HasBits(f, 0x08) == dt.noDate && HasBits(f, 0x04) == dt.noDayOfWeek &&
      HasBits(f, 0x02) == dt.noTime && HasBits(f, 0x01) == dt.summerTime &&
      f / 0x80 == (if dt.fault then 1 else 0)
  {
    TopBit(FlagOctet(dt));
    var flags := FlagBits(dt);
    FlagBitsSet(dt);
    OctetRoundTrip(flags);
    assert FlagOctet(dt) as bv8 == flags;
  }

  lemma FlagBitsSet(dt: DateTime)
    ensures var f := FlagBits(dt);
      (f & 0x80 != 0) == dt.fault && (f & 0x40 != 0) == dt.workingDay &&
      (f & 0x20 != 0) == dt.noWorkingDay && (f & 0x10 != 0) == dt.noYear &&
      (f & 0x08 != 0) == dt.noDate && (f & 0x04 != 0) == dt.noDayOfWeek &&
      (f & 0x02 != 0) == dt.noTime && (f & 0x01 != 0) == dt.summerTime &&
      (f & 0x80) >> 7 == (if dt.fault then 1 else 0)
  {
  }

  /** The 8 octets `Encode19` produces read back as the clamped date and time. */
  lemma RawOfEncode19(dt: DateTime)
    ensures RawDateTime(Encode19(dt)) == Clamped19(dt)
  {
    FlagOctetBits(dt);
    var year := Clamp(dt.year, 1990, 2089);
    var e := Encode19(dt);
    assert Word16(e[0], e[1]) == year;
  }

  /**
   * Decoding an encoded date and time gives it back clamped into range,
   * with quality set from the fault flag; a valid value whose quality
   * matches its fault flag comes back unchanged.
   */
  lemma Dpt19RoundTrip(dt: DateTime)
    ensures Decode19Spec(Encode19(dt)) == Clamped19(dt)
    ensures ValidDateTime(dt) && dt.quality == (if dt.fault then 1 else 0) ==>
            Decode19Spec(Encode19(dt)) == dt
  {
    RawOfEncode19(dt);
  }
}
