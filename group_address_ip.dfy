/**
 * `knx_ip::GroupAddress`: an identifier and a packed 5/3/8-bit group
 * address, settable from text with a `strtol`-based parser and printed
 * back as `main/middle/sub`.
 */
module GroupAddressIp {
  import opened Wrappers
  import opened Bytes
  import opened Text
  import opened AddressBits

  /** C `isspace` in the "C" locale: space, tab, newline, vertical tab, form feed, carriage return. */
  predicate IsSpace(c: char)
  {
    c == ' ' || 0x09 <= c as int <= 0x0D
  }

  /** The first position at or after `i` that is not white space. */
  function SkipSpaces(s: string, i: nat): (r: nat)
    requires i <= |s|
    ensures i <= r <= |s|
    ensures forall k :: i <= k < r ==> IsSpace(s[k])
    ensures r < |s| ==> !IsSpace(s[r])
    decreases |s| - i
  {
    if i < |s| && IsSpace(s[i]) then SkipSpaces(s, i + 1) else i
  }

  /** The first position at or after `i` that is not a decimal digit. */
  function DigitRun(s: string, i: nat): (r: nat)
    requires i <= |s|
    ensures i <= r <= |s|
    ensures AllDigits(s[i..r])
    ensures r < |s| ==> !IsDigit(s[r])
    decreases |s| - i
  {
    if i < |s| && IsDigit(s[i]) then
      var r := DigitRun(s, i + 1);
      assert s[i..r] == [s[i]] + s[i + 1..r];
      r
    else i
  }

  /** What `strtol(s, &end, 10)` returns, and where `end` points. */
  datatype Conversion = Conversion(value: int, end: nat)

  /**
   * `strtol` in base 10 on a NUL-free string: optional white space, an
   * optional sign, then digits. Without any digit the value is 0 and `end`
   * is the start of the string. The value is exact; `long` saturation is
   * outside every range the callers accept.
   */
  function Strtol(s: string): (r: Conversion)
    ensures r.end <= |s|
  {
    var start := SkipSpaces(s, 0);
    var signed := start < |s| && (s[start] == '+' || s[start] == '-');
    var digitsStart := if signed then start + 1 else start;
    var digitsEnd := DigitRun(s, digitsStart);
    if digitsEnd == digitsStart then Conversion(0, 0)
    else
      var magnitude: int := DigitsValue(s[digitsStart..digitsEnd]);
      Conversion(if signed && s[start] == '-' then -magnitude else magnitude, digitsEnd)
  }

  /**
   * One segment through `strtol(segment.c_str(), &endptr, 10)` and the
   * `*endptr != '\0'` check: `None` when characters are left over.
   */
  function SegmentValue(segment: string): Option<int>
  {
    var c := CStr(segment);
    var conversion := Strtol(c);
    if conversion.end != |c| then None else Some(conversion.value)
  }

  /** A non-empty digit string converts completely to its value. */
  lemma SegmentValueOfDigits(s: string)
    requires |s| >= 1 && AllDigits(s)
    ensures SegmentValue(s) == Some(DigitsValue(s))
  {
    assert Find(s, '\0', 0).None? by {
      forall k | 0 <= k < |s|
        ensures s[k] != '\0'
      {
        assert IsDigit(s[k]);
      }
    }
    assert CStr(s) == s;
    assert !IsSpace(s[0]) && IsDigit(s[0]);
    assert SkipSpaces(s, 0) == 0;
    assert DigitRun(s, 0) == |s|;
    assert s[0..|s|] == s;
  }

  /**
   * `set_address(const std::string &)`: `/` and `.` both separate the
   * fields; the text before the first dot, between the dots and after the
   * second dot must each convert completely with `strtol` and lie in
   * 0..31, 0..7 and 0..255. Anything else gives address 0.
   */
  function ParseAddress(address: string): u16
  {
    ParseDotted(ReplaceSlash(address))
  }

  /** `set_address` once every `/` has become a `.`. */
  function ParseDotted(addr: string): u16
  {
    match Split(addr)
    case None => 0
    case Some(fields) => ParseFields(fields.0, fields.1, fields.2)
  }

  /**
   * The text before the first dot, between it and the next one, and after
   * that; `None` when there are fewer than two dots.
   */
  function Split(addr: string): Option<(string, string, string)>
  {
    var first := Find(addr, '.', 0);
    // `first_dot + 1` wraps to 0 when `first_dot` is `npos`.
    var second := Find(addr, '.', if first.None? then 0 else first.value + 1);
    if first.None? || second.None? then None
    else Some((addr[..first.value], addr[first.value + 1..second.value], addr[second.value + 1..]))
  }

  /** The range checks on the three converted fields. */
  function ParseFields(mainText: string, middleText: string, subText: string): u16
  {
    var main := SegmentValue(mainText);
    var middle := SegmentValue(middleText);
    var sub := SegmentValue(subText);
    if main.None? || main.value < 0 || main.value > 31 then 0
    else if middle.None? || middle.value < 0 || middle.value > 7 then 0
    else if sub.None? || sub.value < 0 || sub.value > 255 then 0
    else GroupPack(main.value, middle.value, sub.value)
  }

  /** Three digit strings joined by dots parse to the packed values they spell. */
  lemma ParseDottedDigits(x: string, y: string, z: string)
    requires 1 <= |x| && 1 <= |y| && 1 <= |z|
    requires AllDigits(x) && AllDigits(y) && AllDigits(z)
    requires DigitsValue(x) <= 31 && DigitsValue(y) <= 7 && DigitsValue(z) <= 255
    ensures ParseDotted(x + ['.'] + y + ['.'] + z) == GroupPack(DigitsValue(x), DigitsValue(y), DigitsValue(z))
  {
    DottedFields(x, y, z);
    SegmentValueOfDigits(x);
    SegmentValueOfDigits(y);
    SegmentValueOfDigits(z);
  }

  /** The two dots of `x.y.z` split it back into `x`, `y` and `z`. */
  lemma DottedFields(x: string, y: string, z: string)
    requires AllDigits(x) && AllDigits(y) && AllDigits(z)
    ensures ParseDotted(x + ['.'] + y + ['.'] + z) == ParseFields(x, y, z)
  {
    var s := x + ['.'] + y + ['.'] + z;
    DottedTriple(x, y, z);
    SplitAt(s, |x|, |x| + 1 + |y|);
  }

  /** With its dots at `i` and `j`, a text splits into the fields around them. */
  lemma SplitAt(addr: string, i: nat, j: nat)
    requires Find(addr, '.', 0) == Some(i) && Find(addr, '.', i + 1) == Some(j)
    ensures Split(addr) == Some((addr[..i], addr[i + 1..j], addr[j + 1..]))
  {
  }

  /**
   * `get_address()`: `"%d/%d/%d"` of the three fields into a 16-byte
   * buffer, which keeps at most 15 characters.
   */
  function FormatAddress(address: u16): (r: string)
    ensures |r| <= 15
  {
    TripleLength(MainGroup(address), MiddleGroup(address), SubGroup(address), '/');
    Triple(MainGroup(address), MiddleGroup(address), SubGroup(address), '/')
  }

  /** Printing an address and parsing the text gives the address back. */
  lemma ParseFormatRoundTrip(address: u16)
    ensures ParseAddress(FormatAddress(address)) == address
  {
    var a, b, c := MainGroup(address), MiddleGroup(address), SubGroup(address);
    ReplaceSlashTriple(a, b, c);
    assert Triple(a, b, c, '.') == Dec(a) + ['.'] + Dec(b) + ['.'] + Dec(c);
    ParseDottedDigits(Dec(a), Dec(b), Dec(c));
    PackOfGroupFields(address);
  }

  /** An empty field converts completely, to 0. */
  lemma EmptySegmentIsZero()
    ensures SegmentValue("") == Some(0)
  {
    assert CStr("") == "";
  }

  /** `strtol` skips leading white space and takes a sign. */
  lemma SignedSegment()
    ensures SegmentValue(" +2") == Some(2)
    ensures SegmentValue("-0") == Some(0)
  {
    assert CStr(" +2") == " +2" by { assert Find(" +2", '\0', 0).None?; }
    assert CStr("-0") == "-0" by { assert Find("-0", '\0', 0).None?; }
    assert !IsSpace('+') && SkipSpaces(" +2", 1) == 1;
    assert SkipSpaces(" +2", 0) == 1;
    assert DigitsValue("2") == 2;
    assert DigitRun(" +2", 2) == 3;
    assert " +2"[2..3] == "2";
    assert DigitRun("-0", 1) == 2;
    assert "-0"[1..2] == "0";
  }

  /** Text left after the digits rejects the field. */
  lemma TrailingTextRejected()
    ensures SegmentValue("3.4") == None
  {
    assert CStr("3.4") == "3.4" by { assert Find("3.4", '\0', 0).None?; }
    assert DigitRun("3.4", 0) == 1;
  }

  /** An empty middle field is accepted as 0: `1..3` is `1/0/3`. */
  lemma EmptyMiddleAccepted()
    ensures ParseAddress("1..3") == GroupPack(1, 0, 3)
  {
    assert ReplaceSlash("1..3") == "1..3";
    EmptyMiddleSplit();
    SegmentValueOfDigits("1");
    EmptySegmentIsZero();
    SegmentValueOfDigits("3");
    assert DigitsValue("1") == 1 && DigitsValue("3") == 3;
    assert ParseDotted("1..3") == ParseFields("1", "", "3");
  }

  /** The fields of `1..3`. */
  lemma EmptyMiddleSplit()
    ensures Split("1..3") == Some(("1", "", "3"))
  {
    var addr := "1..3";
    FindAt(addr, '.', 0, 1);
    FindAt(addr, '.', 2, 2);
    SplitAt(addr, 1, 2);
    assert addr[..1] == "1" && addr[2..2] == "" && addr[3..] == "3";
  }

  /** A fourth field ends up in the sub-group text, which then fails to convert. */
  lemma FourFieldsRejected()
    ensures ParseAddress("1.2.3.4") == 0
  {
    var addr := ReplaceSlash("1.2.3.4");
    assert addr == "1.2.3.4";
    FindAt(addr, '.', 0, 1);
    FindAt(addr, '.', 2, 3);
    assert addr[4..] == "3.4";
    TrailingTextRejected();
  }

  class GroupAddress {
    var id: string
    var address: u16

    constructor ()
      ensures id == "" && address == 0
    {
      id := "";
      address := 0;
    }

    method SetId(id: string)
      modifies this
      ensures this.id == id && address == old(address)
    {
      this.id := id;
    }

    /** `set_address(const std::string &)`. */
    method SetAddress(text: string)
      modifies this
      ensures address == ParseAddress(text) && id == old(id)
    {
      address := ParseAddress(text);
    }

    /** `get_address()`. */
    function GetAddress(): (r: string)
      reads this
      ensures ParseAddress(r) == address
    {
      ParseFormatRoundTrip(address);
      FormatAddress(address)
    }
  }
}
