/**
 * The codecs of `knx_ip/dpt.cpp` that differ from the TP ones in `Dpt`:
 * DPT 9 encoding with a 16-bit mantissa and arithmetic shifts, DPT 16
 * without length limit or character filter, and DPT 19 decoding without
 * range repair.
 */
module DptIp {
  import opened Bytes
  import opened Dpt

  // ---------------------------------------------------------------- DPT 9

  /** `m` shifted right `k` times (`m >>= 1`, rounding toward minus infinity). */
  function Shifted(m: int, k: nat): int
  {
    if k == 0 then m else Shifted(m, k - 1) / 2
  }

  /** `e` is the smallest number of shifts after which `m` fits 11 bits. */
  predicate LeastShift(m: int, e: nat)
  {
    Fits11(Shifted(m, e)) && forall k :: 0 <= k < e ==> !Fits11(Shifted(m, k))
  }

  /**
   * `encode_dpt9` of `knx_ip`: the scaled value is already an `int16_t`;
   * the mantissa is shifted right until it fits 11 bits, which takes at
   * most 4 shifts, so the final clamp never changes it.
   */
  method Encode9(scaled: i16) returns (r: seq<u8>)
    ensures |r| == 2
    ensures var e := ExponentField(r);
      e <= 4 && LeastShift(scaled, e) && r == Word9(Shifted(scaled, e), e)
  {
    var mantissa: int := scaled;
    var exponent := 0;
    FitsAfterFour(scaled);
    while (mantissa < -2048 || mantissa > 2047) && exponent < 15
      invariant 0 <= exponent <= 4
      invariant mantissa == Shifted(scaled, exponent)
      invariant forall k :: 0 <= k < exponent ==> !Fits11(Shifted(scaled, k))
    {
      mantissa := mantissa / 2;
      exponent := exponent + 1;
    }
    if mantissa < -2048 {
      mantissa := -2048;
    }
    if mantissa > 2047 {
      mantissa := 2047;
    }
    Word9Fields(mantissa, exponent);
    r := Word9(mantissa, exponent);
  }

  /** Four shifts bring any 16-bit mantissa into 11 bits. */
  lemma FitsAfterFour(scaled: i16)
    ensures Fits11(Shifted(scaled, 4))
  {
    var s: int := scaled;
    assert Shifted(s, 1) == s / 2;
    assert Shifted(s, 2) == Shifted(s, 1) / 2;
    assert Shifted(s, 3) == Shifted(s, 2) / 2;
    assert Shifted(s, 4) == Shifted(s, 3) / 2;
  }

  /** Shifting right rounds toward minus infinity by less than one step. */
  lemma {:induction false} ShiftedError(c: int, k: nat)
    ensures Shifted(c, k) * Pow2(k) <= c < Shifted(c, k) * Pow2(k) + Pow2(k)
  {
    if k > 0 {
      ShiftedError(c, k - 1);
      var h := Shifted(c, k - 1);
      var p := Pow2(k - 1);
      assert Shifted(c, k) * Pow2(k) == (h / 2) * (2 * p);
      MulStep(h / 2, p, h % 2);
    }
  }

  /**
   * Encoding then decoding loses less than one unit of the chosen
   * exponent, always downward, except that a mantissa of -2048 reads back
   * as 0.
   */
  lemma Dpt9Quantization(scaled: i16, e: nat)
    requires e <= 15 && Fits11(Shifted(scaled, e))
    ensures var d := Decode9(Word9(Shifted(scaled, e), e));
      d.exponent == e &&
      (Shifted(scaled, e) != -2048 ==> 0 <= scaled - Hundredths(d) < Pow2(e))
  {
    Word9Fields(Shifted(scaled, e), e);
    ShiftedError(scaled, e);
  }

  // ---------------------------------------------------------------- DPT 16

  /** What `decode_dpt16` of `knx_ip` returns: every octet before the first NUL. */
  function Decode16Spec(data: seq<u8>): string
  {
    Latin1(BeforeNul(data))
  }

  /** What `encode_dpt16` of `knx_ip` returns: every character, then a NUL. */
  function Encode16Spec(value: string): seq<u8>
  {
    Octets(value) + [0]
  }

  /** `decode_dpt16` of `knx_ip`: copies octets until the first NUL. */
  method Decode16(data: seq<u8>) returns (result: string)
    ensures result == Decode16Spec(data)
  {
    result := [];
    var i := 0;
    while i < |data|
      invariant 0 <= i <= |data|
      invariant result == Latin1(data[..i])
      invariant forall k :: 0 <= k < i ==> data[k] != 0
    {
      var byte := data[i];
      if byte == 0 {
        BeforeNulPrefix(data, i);
        assert BeforeNul(data[i..]) == [];
        break;
      }
      result := result + [byte as char];
      i := i + 1;
    }
    if i == |data| {
      BeforeNulPrefix(data, i);
      assert data[..i] == data && data[i..] == [];
    }
  }

  /** `encode_dpt16` of `knx_ip`: every character as an octet, then a NUL. */
  method Encode16(value: string) returns (result: seq<u8>)
    ensures result == Encode16Spec(value)
  {
    result := [];
    var i := 0;
    while i < |value|
      invariant 0 <= i <= |value|
      invariant result == Octets(value[..i])
    {
      result := result + [(value[i] as int) % 0x100];
      i := i + 1;
    }
    assert value[..i] == value;
    result := result + [0];
  }

  /** A character string holding only octet values, as a C++ `std::string` does. */
  predicate OctetString(value: string)
  {
    forall i :: 0 <= i < |value| ==> value[i] as int < 0x100
  }

  /**
   * Any string without NUL survives encoding and decoding whole, however
   * long; a NUL cuts it short.
   */
  lemma Dpt16RoundTrip(value: string)
    requires OctetString(value)
    ensures Decode16Spec(Encode16Spec(value)) == CutAtNul(value)
    ensures (forall i :: 0 <= i < |value| ==> value[i] != '\0') ==> Decode16Spec(Encode16Spec(value)) == value
  {
    OctetsBeforeNul(value);
  }

  /** `value` up to its first NUL character. */
  function CutAtNul(value: string): (r: string)
    ensures r <= value
    ensures (forall i :: 0 <= i < |value| ==> value[i] != '\0') ==> r == value
  {
    if value == [] || value[0] == '\0' then [] else [value[0]] + CutAtNul(value[1..])
  }

  lemma {:induction false} OctetsBeforeNul(value: string)
    requires OctetString(value)
    ensures Latin1(BeforeNul(Octets(value) + [0])) == CutAtNul(value)
    decreases |value|
  {
    var data := Octets(value) + [0];
    if value == [] {
    } else if value[0] == '\0' {
      assert data[0] == 0;
    } else {
      OctetsBeforeNul(value[1..]);
      TerminatedTail(value);
      var rest := BeforeNul(data[1..]);
      assert BeforeNul(data) == [data[0]] + rest;
      Latin1Cons(data[0], rest);
    }
  }

  /** The terminated octets of a string, split after its first character. */
  lemma TerminatedTail(value: string)
    requires OctetString(value) && value != []
    ensures var data := Octets(value) + [0];
      data[0] == value[0] as int && data[1..] == Octets(value[1..]) + [0]
  {
    var data := Octets(value) + [0];
    assert data[1..] == Octets(value[1..]) + [0];
  }

  /** Reading one more octet in front adds its character in front. */
  lemma Latin1Cons(d: u8, rest: seq<u8>)
    ensures Latin1([d] + rest) == [d as char] + Latin1(rest)
  {
  }

  // ---------------------------------------------------------------- DPT 19

  /**
   * `decode_dpt19` of `knx_ip`: any payload of at least 8 octets is read
   * field by field with no range check; octets past the eighth are ignored.
   */
  function Decode19(data: seq<u8>): DateTime
  {
    if |data| < 8 then DefaultDateTime else RawDateTime(data)
  }

  /** Both decoders read an encoded date and time back as the same clamped value. */
  lemma Dpt19RoundTrip(dt: DateTime)
    ensures Decode19(Encode19(dt)) == Clamped19(dt)
    ensures Decode19(Encode19(dt)) == Decode19Spec(Encode19(dt))
  {
    RawOfEncode19(dt);
  }

  /**
   * Unlike the TP decoder, this one passes out-of-range fields through
   * and accepts payloads longer than 8 octets.
   */
  lemma Dpt19Unvalidated()
    ensures Decode19([0, 0, 13, 0, 31, 60, 60, 0]).month == 13
    ensures Decode19([0, 0, 13, 0, 31, 60, 60, 0]).hour == 31
    ensures Dpt.Decode19Spec([0, 0, 13, 0, 31, 60, 60, 0]).month == 1
    ensures Decode19([7, 208, 1, 1, 0, 0, 0, 0, 9]).year == 2000
    ensures Dpt.Decode19Spec([7, 208, 1, 1, 0, 0, 0, 0, 9]) == DefaultDateTime
  {
  }
}
