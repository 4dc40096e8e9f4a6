/**
 * The IP component `KNXIPComponent`: strict parsing of physical and group
 * address texts, a registry kept as lists, the group-write/read/response
 * requests and the notification of entities.
 *
 * As in `KnxTp`, entities are numbers, notifying one appends to the
 * `invocations` trace, and each `send_telegram` call appends to `sent`.
 */
module KnxIp {
  import opened Wrappers
  import opened Bytes
  import opened Text
  import opened AddressBits
  import GroupAddressIp
  import KnxTp

  /** The three numbers of a well-formed address text. */
  datatype Fields = Fields(first: nat, second: nat, third: nat)

  /**
   * The structural checks shared by `parse_physical_address_` and
   * `encode_address_`: `/` read as `.`, two dots, and three non-empty
   * all-digit fields (the third running to the end of the text).
   */
  function ParseFields(address: string): (r: Option<Fields>)
  {
    var addr := ReplaceSlash(address);
    var pos1 := Find(addr, '.', 0);
    // `pos1 + 1` wraps to 0 when `pos1` is `npos`.
    var pos2 := Find(addr, '.', if pos1.None? then 0 else pos1.value + 1);
    if pos1.None? || pos2.None? then None
    else FieldTexts(addr[..pos1.value], addr[pos1.value + 1..pos2.value], addr[pos2.value + 1..])
  }

  /** The digit and emptiness checks on the three field texts. */
  function FieldTexts(first: string, second: string, third: string): Option<Fields>
  {
    if !AllDigits(first) || !AllDigits(second) || !AllDigits(third) then None
    else if |first| == 0 || |second| == 0 || |third| == 0 then None
    else Some(Fields(DigitsValue(first), DigitsValue(second), DigitsValue(third)))
  }

  /**
   * `parse_physical_address_`: area and line 0..15, device 0..255, packed
   * 4/4/8; 0 for anything else.
   */
  function ParsePhysicalAddress(address: string): (r: u16)
    ensures ParseFields(address).None? ==> r == 0
    ensures var f := ParseFields(address);
      (f.Some? && (f.value.first > 15 || f.value.second > 15 || f.value.third > 255)) ==> r == 0
    ensures var f := ParseFields(address);
      (f.Some? && f.value.first <= 15 && f.value.second <= 15 && f.value.third <= 255) ==>
        r / 4096 == f.value.first && (r / 256) % 16 == f.value.second && r % 256 == f.value.third
  {
    match ParseFields(address)
    case None => 0
    case Some(f) =>
      if f.first > 15 || f.second > 15 || f.third > 255 then 0
      else PhysicalPack(f.first, f.second, f.third)
  }

  /**
   * `encode_address_`: group ranges 0..31, 0..7, 0..255 packed 5/3/8,
   * high octet first; `{0, 0}` for anything else.
   */
  function EncodeAddress(address: string): (r: seq<u8>)
    ensures |r| == 2
    ensures ParseFields(address).None? ==> r == [0, 0]
    ensures var f := ParseFields(address);
      (f.Some? && (f.value.first > 31 || f.value.second > 7 || f.value.third > 255)) ==> r == [0, 0]
    ensures var f := ParseFields(address);
      (f.Some? && f.value.first <= 31 && f.value.second <= 7 && f.value.third <= 255) ==>
        var w := Word16(r[0], r[1]);
        MainGroup(w) == f.value.first && MiddleGroup(w) == f.value.second && SubGroup(w) == f.value.third
  {
    match ParseFields(address)
    case None => [0, 0]
    case Some(f) =>
      if f.first > 31 || f.second > 7 || f.third > 255 then [0, 0]
      else
        var packed := GroupPack(f.first, f.second, f.third);
        GroupFieldsOfPack(f.first, f.second, f.third);
        Word16OfBigEndian(packed);
        BigEndian16(packed)
  }

  /** `ParseFields` once the two dots have been located. */
  lemma ParseFieldsAt(address: string, p1: nat, p2: nat)
    requires Find(ReplaceSlash(address), '.', 0) == Some(p1)
    requires Find(ReplaceSlash(address), '.', p1 + 1) == Some(p2)
    ensures p1 < p2 < |address|
    ensures var addr := ReplaceSlash(address);
      ParseFields(address) == FieldTexts(addr[..p1], addr[p1 + 1..p2], addr[p2 + 1..])
  {
  }

  /** Three digit strings joined by dots are well formed and read as the numbers they spell. */
  lemma DottedFields(x: string, y: string, z: string)
    requires 1 <= |x| && 1 <= |y| && 1 <= |z|
    requires AllDigits(x) && AllDigits(y) && AllDigits(z)
    ensures ParseFields(x + ['.'] + y + ['.'] + z) == Some(Fields(DigitsValue(x), DigitsValue(y), DigitsValue(z)))
  {
    var s := x + ['.'] + y + ['.'] + z;
    var addr := ReplaceSlash(s);
    var p1, p2 := |x|, |x| + 1 + |y|;
    assert addr == s by {
      ReplaceSlashDotted(x, y, z);
    }
    assert Find(addr, '.', 0) == Some(p1) && Find(addr, '.', p1 + 1) == Some(p2) by {
      DottedTriple(x, y, z);
    }
    assert addr[..p1] == x && addr[p1 + 1..p2] == y && addr[p2 + 1..] == z by {
      DottedPieces(x, y, z);
    }
    ParseFieldsAt(s, p1, p2);
    assert ParseFields(s) == Some(Fields(DigitsValue(x), DigitsValue(y), DigitsValue(z)));
  }

  /** The printed form of an area, line and device parses back to their packing. */
  lemma ParsePhysicalDotted(area: nat, line: nat, device: nat)
    requires area <= 15 && line <= 15 && device <= 255
    ensures ParsePhysicalAddress(Triple(area, line, device, '.')) == PhysicalPack(area, line, device)
  {
    DottedFields(Dec(area), Dec(line), Dec(device));
  }

  /** `1.1.200` is 0x11C8; `20.1.1` is out of the physical range. */
  lemma ParsePhysicalExamples()
    ensures ParsePhysicalAddress("1.1.200") == 0x11C8
    ensures ParsePhysicalAddress("20.1.1") == 0
  {
    InRangePhysical();
    AreaOutOfRange();
  }

  /** `1.1.200` is area 1, line 1, device 200. */
  lemma InRangePhysical()
    ensures ParsePhysicalAddress("1.1.200") == 0x11C8
  {
    assert "1.1.200" == Triple(1, 1, 200, '.') by {
      assert Dec(1) == "1" && Dec(200) == "200";
    }
    ParsePhysicalDotted(1, 1, 200);
  }

  /** Area 20 does not fit the four area bits. */
  lemma AreaOutOfRange()
    ensures ParsePhysicalAddress("20.1.1") == 0
  {
    assert "20.1.1" == "20" + ['.'] + "1" + ['.'] + "1";
    assert AllDigits("20") && AllDigits("1") && DigitsValue("20") == 20;
    DottedFields("20", "1", "1");
  }

  /**
   * Up to 16 characters the strict IP encoder and the TP one agree; the IP
   * one has no length limit.
   */
  lemma EncodeAddressAgreesWithTp(address: string)
    requires |address| <= 16
    ensures EncodeAddress(address) == KnxTp.EncodeAddress(address)
  {
    var addr := ReplaceSlash(address);
    var pos1 := Find(addr, '.', 0);
    if |address| == 0 || pos1.None? {
      return;
    }
    var pos2 := Find(addr, '.', pos1.value + 1);
    if pos2.None? {
      return;
    }
    AgreeAt(address, pos1.value, pos2.value);
  }

  /** The two encoders agree once the two dots have been located. */
  lemma AgreeAt(address: string, p1: nat, p2: nat)
    requires 0 < |address| <= 16
    requires Find(ReplaceSlash(address), '.', 0) == Some(p1)
    requires Find(ReplaceSlash(address), '.', p1 + 1) == Some(p2)
    ensures EncodeAddress(address) == KnxTp.EncodeAddress(address)
  {
    ParseFieldsAt(address, p1, p2);
    var addr := ReplaceSlash(address);
    var first, second, third := addr[..p1], addr[p1 + 1..p2], addr[p2 + 1..];
    TpFieldsAt(address, p1, p2);
    IpFieldsAt(address, first, second, third);
  }

  /** `address_to_int_` once the two dots have been located. */
  lemma TpFieldsAt(address: string, p1: nat, p2: nat)
    requires 0 < |address| <= 16
    requires Find(ReplaceSlash(address), '.', 0) == Some(p1)
    requires Find(ReplaceSlash(address), '.', p1 + 1) == Some(p2)
    requires p1 < p2 < |address|
    ensures var addr := ReplaceSlash(address);
      KnxTp.AddressToInt(address) == KnxTp.FieldsToInt(addr[..p1], addr[p1 + 1..p2], addr[p2 + 1..])
  {
    var addr := ReplaceSlash(address);
    var first, second, third := addr[..p1], addr[p1 + 1..p2], addr[p2 + 1..];
    if p1 == 0 || p2 == p1 + 1 || p2 == |addr| - 1 {
      EmptyFieldIsZero(first, second, third);
    }
  }

  /** `address_to_int_` rejects an empty field. */
  lemma EmptyFieldIsZero(first: string, second: string, third: string)
    requires |first| == 0 || |second| == 0 || |third| == 0
    ensures KnxTp.FieldsToInt(first, second, third) == 0
  {
  }

  /** The strict encoder on three field texts, in terms of the TP field checks. */
  lemma IpFieldsAt(address: string, first: string, second: string, third: string)
    requires ParseFields(address) == FieldTexts(first, second, third)
    ensures EncodeAddress(address) == BigEndian16(KnxTp.FieldsToInt(first, second, third))
  {
    FieldTextsAgree(first, second, third);
    assert BigEndian16(0) == [0, 0];
  }

  /** The TP field checks accept exactly the IP ones that are in the group ranges. */
  lemma FieldTextsAgree(first: string, second: string, third: string)
    ensures KnxTp.FieldsToInt(first, second, third) ==
      match FieldTexts(first, second, third)
      case None => 0
      case Some(f) => if f.first > 31 || f.second > 7 || f.third > 255 then 0 else GroupPack(f.first, f.second, f.third)
  {
  }

  /**
   * Leading zeros make a text longer than 16 characters, which the TP
   * encoder rejects and the IP one accepts.
   */
  lemma EncodeAddressLengthDiffers(k: nat)
    requires k >= 13
    ensures KnxTp.EncodeAddress(Zeros(k) + "1.2.3") == [0, 0]
    ensures EncodeAddress(Zeros(k) + "1.2.3") == BigEndian16(GroupPack(1, 2, 3))
  {
    var x := Zeros(k) + "1";
    DigitsValueAppend(Zeros(k), "1");
    var text := Zeros(k) + "1.2.3";
    KnxTp.LongAddressEncodesZero(text);
    assert "1.2.3" == "1" + ".2.3";
    assert text == x + ".2.3";
    SubFields23(x);
    EncodeOfFields(text, 1, 2, 3);
  }

  /** The fields of a main-group numeral followed by `.2.3`. */
  lemma SubFields23(x: string)
    requires 1 <= |x| && AllDigits(x)
    ensures ParseFields(x + ".2.3") == Some(Fields(DigitsValue(x), 2, 3))
  {
    Spelled23(x);
    Digits23();
    DottedFields(x, "2", "3");
  }

  /** The one-digit fields `2` and `3`. */
  lemma Digits23()
    ensures AllDigits("2") && AllDigits("3") && DigitsValue("2") == 2 && DigitsValue("3") == 3
  {
  }

  /** `.2.3` spelled as separators and fields. */
  lemma Spelled23(x: string)
    ensures x + ".2.3" == x + ['.'] + "2" + ['.'] + "3"
  {
    assert ['.'] + "2" + ['.'] + "3" == ".2.3";
  }

  /** Text whose fields are in the group ranges encodes to their packing. */
  lemma EncodeOfFields(address: string, main: nat, middle: nat, sub: nat)
    requires ParseFields(address) == Some(Fields(main, middle, sub))
    requires main <= 31 && middle <= 7 && sub <= 255
    ensures EncodeAddress(address) == BigEndian16(GroupPack(main, middle, sub))
  {
  }

  class Component {
    var physicalAddress: string
    var groupAddresses: seq<GroupAddressIp.GroupAddress>
    var entities: seq<nat>
    var sent: seq<KnxTp.Telegram>
    var invocations: seq<KnxTp.Invocation>

    constructor ()
      ensures physicalAddress == "" && groupAddresses == [] && entities == []
      ensures sent == [] && invocations == []
    {
      physicalAddress := "";
      groupAddresses := [];
      entities := [];
      sent := [];
      invocations := [];
    }

    /** `set_physical_address`: only the text is stored. */
    method SetPhysicalAddress(address: string)
      modifies this
      ensures physicalAddress == address
      ensures groupAddresses == old(groupAddresses) && entities == old(entities)
      ensures sent == old(sent) && invocations == old(invocations)
    {
      physicalAddress := address;
    }

    /** The position of the first registered group address with this id. */
    function IndexOf(id: string): (r: Option<nat>)
      reads this, groupAddresses
      ensures r.Some? ==> r.value < |groupAddresses| && groupAddresses[r.value].id == id
      ensures r.Some? ==> forall k :: 0 <= k < r.value ==> groupAddresses[k].id != id
      ensures r.None? ==> forall k :: 0 <= k < |groupAddresses| ==> groupAddresses[k].id != id
    {
      FirstWithId(groupAddresses, id)
    }

    /** `get_group_address(id)` finds an entry, and that entry's `get_address()` is `ga`. */
    predicate Resolves(id: string, ga: string)
      reads this, groupAddresses
    {
      var i := IndexOf(id);
      i.Some? && groupAddresses[i.value].GetAddress() == ga
    }

    /** `register_group_address`: appended, so an earlier entry with the same id keeps winning. */
    method RegisterGroupAddress(ga: GroupAddressIp.GroupAddress)
      modifies this
      ensures groupAddresses == old(groupAddresses) + [ga]
      ensures physicalAddress == old(physicalAddress) && entities == old(entities)
      ensures sent == old(sent) && invocations == old(invocations)
    {
      groupAddresses := groupAddresses + [ga];
    }

    /** `get_group_address`: the linear search for the first entry with the id. */
    method GetGroupAddress(id: string) returns (r: Option<GroupAddressIp.GroupAddress>)
      ensures r.None? <==> IndexOf(id).None?
      ensures r.Some? ==> r.value == groupAddresses[IndexOf(id).value]
    {
      var i := 0;
      while i < |groupAddresses|
        invariant 0 <= i <= |groupAddresses|
        invariant forall k :: 0 <= k < i ==> groupAddresses[k].id != id
      {
        if groupAddresses[i].id == id {
          return Some(groupAddresses[i]);
        }
        i := i + 1;
      }
      return None;
    }

    /** `notify_entities_`: every entity in order, with no check. */
    method NotifyEntities(ga: string, data: seq<u8>)
      modifies this
      ensures invocations == old(invocations) + KnxTp.EntityCalls(entities, ga, data)
      ensures physicalAddress == old(physicalAddress) && groupAddresses == old(groupAddresses)
      ensures entities == old(entities) && sent == old(sent)
    {
      var trace := invocations;
      var i := 0;
      while i < |entities|
        invariant 0 <= i <= |entities|
        invariant trace == invocations + KnxTp.EntityCalls(entities[..i], ga, data)
      {
        assert entities[..i + 1][..i] == entities[..i];
        trace := trace + [KnxTp.EntityNotified(entities[i], ga, data)];
        i := i + 1;
      }
      assert entities[..i] == entities;
      invocations := trace;
    }

    /** `register_entity`: appended to the entity list. */
    method RegisterEntity(entity: nat)
      modifies this
      ensures entities == old(entities) + [entity]
      ensures physicalAddress == old(physicalAddress) && groupAddresses == old(groupAddresses)
      ensures sent == old(sent) && invocations == old(invocations)
    {
      entities := entities + [entity];
    }

    /** `send_telegram`: the request is recorded. */
    method SendTelegram(destination: string, data: seq<u8>)
      modifies this
      ensures sent == old(sent) + [KnxTp.Telegram(destination, data)]
      ensures physicalAddress == old(physicalAddress) && groupAddresses == old(groupAddresses)
      ensures entities == old(entities) && invocations == old(invocations)
    {
      sent := sent + [KnxTp.Telegram(destination, data)];
    }

    /** What a group request for `id` sends: nothing for an unknown id, else one telegram to the first match. */
    function Request(id: string, data: seq<u8>): (r: seq<KnxTp.Telegram>)
      reads this, groupAddresses
      ensures |r| <= 1 && (r == [] <==> IndexOf(id).None?)
      ensures forall i :: IndexOf(id) == Some(i) ==>
        r == [KnxTp.Telegram(GroupAddressIp.FormatAddress(groupAddresses[i].address), data)]
    {
      match IndexOf(id)
      case None => []
      case Some(i) => [KnxTp.Telegram(GroupAddressIp.FormatAddress(groupAddresses[i].address), data)]
    }

    /** `send_group_write`. */
    method SendGroupWrite(id: string, data: seq<u8>)
      modifies this
      ensures sent == old(sent) + old(Request(id, data))
      ensures physicalAddress == old(physicalAddress) && groupAddresses == old(groupAddresses)
      ensures entities == old(entities) && invocations == old(invocations)
    {
      var ga := GetGroupAddress(id);
      if ga.Some? {
        SendTelegram(GroupAddressIp.FormatAddress(ga.value.address), data);
      }
    }

    /** `send_group_read`: an empty payload. */
    method SendGroupRead(id: string)
      modifies this
      ensures sent == old(sent) + old(Request(id, []))
      ensures physicalAddress == old(physicalAddress) && groupAddresses == old(groupAddresses)
      ensures entities == old(entities) && invocations == old(invocations)
    {
      var ga := GetGroupAddress(id);
      if ga.Some? {
        SendTelegram(GroupAddressIp.FormatAddress(ga.value.address), []);
      }
    }

    /** `send_group_response`. */
    method SendGroupResponse(id: string, data: seq<u8>)
      modifies this
      ensures sent == old(sent) + old(Request(id, data))
      ensures physicalAddress == old(physicalAddress) && groupAddresses == old(groupAddresses)
      ensures entities == old(entities) && invocations == old(invocations)
    {
      var ga := GetGroupAddress(id);
      if ga.Some? {
        SendTelegram(GroupAddressIp.FormatAddress(ga.value.address), data);
      }
    }
  }

  /** The first position in `list` whose id is `id`. */
  function FirstWithId(list: seq<GroupAddressIp.GroupAddress>, id: string): (r: Option<nat>)
    reads list
    ensures r.Some? ==> r.value < |list| && list[r.value].id == id
    ensures r.Some? ==> forall k :: 0 <= k < r.value ==> list[k].id != id
    ensures r.None? ==> forall k :: 0 <= k < |list| ==> list[k].id != id
  {
    if |list| == 0 then None
    else
      match FirstWithId(list[..|list| - 1], id)
      case Some(i) => Some(i)
      case None => if list[|list| - 1].id == id then Some(|list| - 1) else None
  }

  /** Appending an entry never changes which entry an already-known id finds. */
  lemma {:induction false} FirstMatchWins(list: seq<GroupAddressIp.GroupAddress>, ga: GroupAddressIp.GroupAddress, id: string)
    requires FirstWithId(list, id).Some?
    ensures FirstWithId(list + [ga], id) == FirstWithId(list, id)
  {
    assert (list + [ga])[..|list|] == list;
  }
}
