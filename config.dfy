/**
 * The configuration validators of the two `__init__.py` files, and the
 * packing of a validated group address into `ga_int` for an
 * `on_group_address` trigger.
 *
 * Python's `int()` is modelled on ASCII text: white space stripped at
 * both ends, an optional sign, and decimal digits with single
 * underscores between them.
 */
module Config {
  import opened Wrappers
  import opened Bytes
  import opened Text
  import opened AddressBits
  import KnxTp
  import KnxIp
  import GroupAddressIp

  /** The ASCII characters `str.isspace()` accepts. */
  predicate PySpace(c: char)
  {
    c == ' ' || 0x09 <= c as int <= 0x0D || 0x1C <= c as int <= 0x1F
  }

  function StripLeft(s: string): (r: string)
    ensures |r| <= |s| && r == s[|s| - |r|..]
    ensures |r| > 0 ==> !PySpace(r[0])
    ensures forall i :: 0 <= i < |s| - |r| ==> PySpace(s[i])
  {
    if |s| > 0 && PySpace(s[0]) then StripLeft(s[1..]) else s
  }

  function StripRight(s: string): (r: string)
    ensures |r| <= |s| && r == s[..|r|]
    ensures |r| > 0 ==> !PySpace(r[|r| - 1])
    ensures forall i :: |r| <= i < |s| ==> PySpace(s[i])
  {
    if |s| > 0 && PySpace(s[|s| - 1]) then StripRight(s[..|s| - 1]) else s
  }

  /** White space removed from both ends. */
  function Strip(s: string): string
  {
    StripRight(StripLeft(s))
  }

  /**
   * Digits with single underscores between them, underscores dropped;
   * `None` for anything else (empty, a leading, trailing or doubled
   * underscore, any other character).
   */
  function DigitGroups(t: string): (r: Option<string>)
    ensures r.Some? ==> 1 <= |r.value| && AllDigits(r.value)
    ensures r.Some? ==> 1 <= |t| && IsDigit(t[0]) && IsDigit(t[|t| - 1])
  {
    if |t| == 0 || !IsDigit(t[0]) then None
    else if |t| == 1 then Some(t)
    else if t[1] == '_' then
      match DigitGroups(t[2..])
      case None => None
      case Some(rest) => Some([t[0]] + rest)
    else
      match DigitGroups(t[1..])
      case None => None
      case Some(rest) => Some([t[0]] + rest)
  }

  /** A plain run of digits is its own digit group. */
  lemma {:induction false} DigitGroupsOfDigits(t: string)
    requires 1 <= |t| && AllDigits(t)
    ensures DigitGroups(t) == Some(t)
  {
    if |t| > 1 {
      assert IsDigit(t[1]);
      DigitGroupsOfDigits(t[1..]);
      assert [t[0]] + t[1..] == t;
    }
  }

  /** `int(text)` in base 10: the value, or `None` where Python raises `ValueError`. */
  function PyInt(text: string): Option<int>
  {
    var t := Strip(text);
    if |t| == 0 then None
    else
      var signed := t[0] == '+' || t[0] == '-';
      match DigitGroups(if signed then t[1..] else t)
      case None => None
      case Some(digits) => Some(if t[0] == '-' then -(DigitsValue(digits) as int) else DigitsValue(digits))
  }

  /** `int()` reads back what `str()` of a non-negative number prints. */
  lemma PyIntOfDec(n: nat)
    ensures PyInt(Dec(n)) == Some(n)
  {
    var s := Dec(n);
    assert !PySpace(s[0]) && IsDigit(s[0]);
    assert StripLeft(s) == s;
    assert !PySpace(s[|s| - 1]) by {
      assert IsDigit(s[|s| - 1]);
    }
    assert StripRight(s) == s;
    DigitGroupsOfDigits(s);
  }

  lemma StripPadded()
    ensures Strip(" +1_0 ") == "+1_0"
  {
    assert StripLeft(" +1_0 ") == "+1_0 " by {
      assert " +1_0 "[1..] == "+1_0 ";
    }
    assert StripRight("+1_0 ") == "+1_0" by {
      assert "+1_0 "[..4] == "+1_0";
    }
  }

  lemma DigitGroupsUnderscore()
    ensures DigitGroups("1_0") == Some("10")
  {
    assert "1_0"[2..] == "0";
    assert DigitGroups("0") == Some("0");
    assert ['1'] + "0" == "10";
  }

  /** Python accepts white space, a sign and underscores, which the C++ parsers reject. */
  lemma PyIntLenient()
    ensures PyInt(" +1_0 ") == Some(10)
  {
    StripPadded();
    DigitGroupsUnderscore();
    assert "+1_0"[1..] == "1_0";
    assert DigitsValue("10") == 10;
  }

  /** A doubled underscore is a `ValueError`. */
  lemma PyIntDoubleUnderscore()
    ensures PyInt("1__0") == None
  {
    assert StripLeft("1__0") == "1__0";
    assert StripRight("1__0") == "1__0";
    assert DigitGroups("1__0") == None by {
      assert "1__0"[2..] == "_0";
      assert DigitGroups("_0") == None;
    }
  }

  /** The three integers of an address whose parts all parse. */
  function ParseParts(parts: seq<string>): Option<(int, int, int)>
    requires |parts| == 3
  {
    var main, middle, sub := PyInt(parts[0]), PyInt(parts[1]), PyInt(parts[2]);
    if main.None? || middle.None? || sub.None? then None
    else Some((main.value, middle.value, sub.value))
  }

  lemma ParsePartsOfDecs(a: nat, b: nat, c: nat)
    ensures ParseParts([Dec(a), Dec(b), Dec(c)]) == Some((a, b, c))
  {
    PyIntOfDec(a);
    PyIntOfDec(b);
    PyIntOfDec(c);
  }

  /**
   * `validate_knx_address` (identical in both integrations): `/` read as
   * `.`, exactly three parts, each an `int` in 0..31, 0..7 and 0..255;
   * the result is the canonical `main.middle.sub`.
   */
  function ValidateKnxAddress(value: string): Result<string>
  {
    var parts := Split(ReplaceSlash(value), '.');
    if |parts| != 3 then Failure("KNX address must have 3 parts (e.g., 1.2.3)")
    else
      match ParseParts(parts)
      case None => Failure("Invalid KNX address format")
      case Some((main, middle, sub)) =>
        if !(0 <= main <= 31 && 0 <= middle <= 7 && 0 <= sub <= 255) then Failure("Invalid KNX address format")
        else Success(Triple(main, middle, sub, '.'))
  }

  /** An accepted address comes back as the canonical text of three in-range numbers. */
  lemma ValidatedForm(value: string)
    requires ValidateKnxAddress(value).Success?
    ensures exists main: nat, middle: nat, sub: nat ::
      main <= 31 && middle <= 7 && sub <= 255 && ValidateKnxAddress(value).value == Triple(main, middle, sub, '.')
  {
  }

  /** The canonical text of an address splits into its three numerals. */
  lemma SplitTriple(a: nat, b: nat, c: nat)
    ensures ReplaceSlash(Triple(a, b, c, '.')) == Triple(a, b, c, '.')
    ensures Split(Triple(a, b, c, '.'), '.') == [Dec(a), Dec(b), Dec(c)]
  {
    ReplaceSlashDotted(Dec(a), Dec(b), Dec(c));
    var parts := [Dec(a), Dec(b), Dec(c)];
    DigitPartsFree(parts, '.');
    Join3(Dec(a), Dec(b), Dec(c), '.');
    SplitJoin(parts, '.');
  }

  /** Canonical text of an address in range is accepted unchanged. */
  lemma ValidateCanonical(a: nat, b: nat, c: nat)
    requires a <= 31 && b <= 7 && c <= 255
    ensures ValidateKnxAddress(Triple(a, b, c, '.')) == Success(Triple(a, b, c, '.'))
  {
    SplitTriple(a, b, c);
    ParsePartsOfDecs(a, b, c);
  }

  /** Validating twice is validating once. */
  lemma ValidateIdempotent(value: string)
    requires ValidateKnxAddress(value).Success?
    ensures ValidateKnxAddress(ValidateKnxAddress(value).value) == ValidateKnxAddress(value)
  {
    ValidatedForm(value);
    var main: nat, middle: nat, sub: nat :| main <= 31 && middle <= 7 && sub <= 255 &&
      ValidateKnxAddress(value).value == Triple(main, middle, sub, '.');
    ValidateCanonical(main, middle, sub);
  }

  /**
   * The `ga_int` packing of `to_code` on a validated address: `None` where
   * Python would raise. The masks are Python's `&`, which on negative
   * numbers agrees with the Euclidean remainder.
   */
  function ToCodeGaInt(address: string): Option<u16>
  {
    var parts := Split(address, '.');
    if |parts| < 3 then None
    else
      match ParseParts(parts[..3])
      case None => None
      case Some((area, line, device)) => Some(GroupPack(area, line, device))
  }

  /**
   * On every validated address the code generator's `ga_int`, the TP
   * `address_to_int_` and the IP `GroupAddress::set_address` agree.
   */
  lemma ValidatedAddressesAgree(value: string)
    requires ValidateKnxAddress(value).Success?
    ensures var t := ValidateKnxAddress(value).value;
      ToCodeGaInt(t) == Some(KnxTp.AddressToInt(t)) && GroupAddressIp.ParseAddress(t) == KnxTp.AddressToInt(t)
  {
    ValidatedForm(value);
    var a: nat, b: nat, c: nat :| a <= 31 && b <= 7 && c <= 255 &&
      ValidateKnxAddress(value).value == Triple(a, b, c, '.');
    ToCodeOfTriple(a, b, c);
    AddressToIntOfTriple(a, b, c);
    ParseAddressOfTriple(a, b, c);
  }

  /** `to_code` packs the canonical text of an address into its fields. */
  lemma ToCodeOfTriple(a: nat, b: nat, c: nat)
    ensures ToCodeGaInt(Triple(a, b, c, '.')) == Some(GroupPack(a, b, c))
  {
    SplitTriple(a, b, c);
    assert [Dec(a), Dec(b), Dec(c)][..3] == [Dec(a), Dec(b), Dec(c)];
    ParsePartsOfDecs(a, b, c);
  }

  /** `address_to_int_` of the canonical text of an in-range address. */
  lemma AddressToIntOfTriple(a: nat, b: nat, c: nat)
    requires a <= 31 && b <= 7 && c <= 255
    ensures KnxTp.AddressToInt(Triple(a, b, c, '.')) == GroupPack(a, b, c)
  {
    TripleLength(a, b, c, '.');
    KnxTp.DottedToInt(Dec(a), Dec(b), Dec(c));
  }

  /** `GroupAddress::set_address` of the canonical text of an in-range address. */
  lemma ParseAddressOfTriple(a: nat, b: nat, c: nat)
    requires a <= 31 && b <= 7 && c <= 255
    ensures GroupAddressIp.ParseAddress(Triple(a, b, c, '.')) == GroupPack(a, b, c)
  {
    ReplaceSlashDotted(Dec(a), Dec(b), Dec(c));
    GroupAddressIp.ParseDottedDigits(Dec(a), Dec(b), Dec(c));
  }

  /** Every part, in turn, an `int` in 0..255. */
  predicate AllOctets(parts: seq<string>)
  {
    |parts| == 0 || (PyInt(parts[0]).Some? && 0 <= PyInt(parts[0]).value <= 255 && AllOctets(parts[1..]))
  }

  /** `validate_ip_address`: four dot-separated octets; the text itself is returned. */
  function ValidateIpAddress(value: string): (r: Result<string>)
    ensures r.Success? ==> r.value == value
    ensures r.Success? <==> |Split(value, '.')| == 4 && AllOctets(Split(value, '.'))
  {
    var parts := Split(value, '.');
    if |parts| != 4 then Failure("IP address must have 4 parts")
    else if !AllOctets(parts) then Failure("Invalid IP address format")
    else Success(value)
  }

  /** Four digit strings joined by dots split back into them. */
  lemma SplitQuad(w: string, x: string, y: string, z: string)
    requires AllDigits(w) && AllDigits(x) && AllDigits(y) && AllDigits(z)
    ensures Split(w + ['.'] + x + ['.'] + y + ['.'] + z, '.') == [w, x, y, z]
  {
    var parts := [w, x, y, z];
    assert AllDigits(parts[0]) && AllDigits(parts[1]) && AllDigits(parts[2]) && AllDigits(parts[3]);
    DigitPartsFree(parts, '.');
    Join4(w, x, y, z, '.');
    SplitJoin(parts, '.');
  }

  lemma OctetsOfDecs(a: nat, b: nat, c: nat, d: nat)
    requires a <= 255 && b <= 255 && c <= 255 && d <= 255
    ensures AllOctets([Dec(a), Dec(b), Dec(c), Dec(d)])
  {
    OctetCons(d, []);
    assert [Dec(d)] == [Dec(d)] + [];
    OctetCons(c, [Dec(d)]);
    OctetCons(b, [Dec(c), Dec(d)]);
    OctetCons(a, [Dec(b), Dec(c), Dec(d)]);
  }

  /** An octet's numeral in front of parts that all pass. */
  lemma OctetCons(n: nat, rest: seq<string>)
    requires n <= 255 && AllOctets(rest)
    ensures AllOctets([Dec(n)] + rest)
  {
    PyIntOfDec(n);
    assert ([Dec(n)] + rest)[1..] == rest;
  }

  /** Every dotted quad of octets validates. */
  lemma ValidateDottedQuad(a: nat, b: nat, c: nat, d: nat)
    requires a <= 255 && b <= 255 && c <= 255 && d <= 255
    ensures var s := Dec(a) + ['.'] + Dec(b) + ['.'] + Dec(c) + ['.'] + Dec(d);
      ValidateIpAddress(s) == Success(s)
  {
    SplitQuad(Dec(a), Dec(b), Dec(c), Dec(d));
    OctetsOfDecs(a, b, c, d);
  }

  /** The default multicast group `224.0.23.12` passes the validator. */
  lemma DefaultMulticastValid()
    ensures ValidateIpAddress("224.0.23.12").Success?
  {
    assert Dec(224) == "224" && Dec(0) == "0" && Dec(23) == "23" && Dec(12) == "12";
    assert "224.0.23.12" == Dec(224) + ['.'] + Dec(0) + ['.'] + Dec(23) + ['.'] + Dec(12);
    ValidateDottedQuad(224, 0, 23, 12);
  }

  /**
   * The physical address is validated with the group ranges, so
   * `20.1.1` passes the validator while the IP component's
   * `parse_physical_address_` turns it into 0.
   */
  lemma PhysicalRangeMismatch()
    ensures ValidateKnxAddress("20.1.1") == Success("20.1.1")
    ensures KnxIp.ParsePhysicalAddress("20.1.1") == 0
  {
    assert Dec(20) == "20" && Dec(1) == "1";
    assert Triple(20, 1, 1, '.') == "20.1.1";
    ValidateCanonical(20, 1, 1);
    KnxIp.ParsePhysicalExamples();
  }
}
