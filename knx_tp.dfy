/**
 * The twisted-pair component `KNXTPComponent`: text/integer conversion of
 * addresses, the frame checksum, the registry of group addresses, entities
 * and callbacks, the group-write/read/response requests, and the dispatch
 * of a received group telegram.
 *
 * Entities and callbacks are identified by numbers; calling one is
 * recorded by appending an `Invocation` to the `invocations` trace, and
 * every `send_telegram` call appends a `Telegram` to the `sent` trace.
 */
module KnxTp {
  import opened Wrappers
  import opened Bytes
  import opened Text
  import opened AddressBits
  import opened GroupAddressTp

  /**
   * `address_to_int_`: text of at most 16 characters, `/` or `.` between
   * three non-empty all-digit fields in the ranges 0..31, 0..7, 0..255,
   * packed 5/3/8. Every other text gives 0.
   */
  function AddressToInt(address: string): u16
  {
    if |address| == 0 || |address| > 16 then 0
    else
      var addr := ReplaceSlash(address);
      var first := Find(addr, '.', 0);
      if first.None? || first.value == 0 then 0
      else if first.value >= |addr| - 1 then 0
      else
        var second := Find(addr, '.', first.value + 1);
        if second.None? || second.value <= first.value + 1 || second.value >= |addr| - 1 then 0
        else FieldsToInt(addr[..first.value], addr[first.value + 1..second.value], addr[second.value + 1..])
  }

  /** The digit and range checks of `address_to_int_` on the three fields. */
  function FieldsToInt(area: string, line: string, device: string): u16
  {
    if !AllDigits(area) || !AllDigits(line) || !AllDigits(device) then 0
    else if |area| == 0 || |line| == 0 || |device| == 0 then 0
    else if DigitsValue(area) > 31 || DigitsValue(line) > 7 || DigitsValue(device) > 255 then 0
    else GroupPack(DigitsValue(area), DigitsValue(line), DigitsValue(device))
  }

  /**
   * `int_to_address_`: `"%d/%d/%d"` of bits 15-11, 10-8 and 7-0 into a
   * 16-byte buffer, `"0/0/0"` if the text would not fit.
   */
  function IntToAddress(address: u16): (r: string)
    ensures 5 <= |r| <= 8
    ensures r == Triple(MainGroup(address), MiddleGroup(address), SubGroup(address), '/')
  {
    var text := Triple(MainGroup(address), MiddleGroup(address), SubGroup(address), '/');
    TripleLength(MainGroup(address), MiddleGroup(address), SubGroup(address), '/');
    if |text| >= 16 then "0/0/0" else text
  }

  /** Three digit strings joined by dots, short enough, convert to what they spell. */
  lemma DottedToInt(x: string, y: string, z: string)
    requires 1 <= |x| && 1 <= |y| && 1 <= |z| && |x| + |y| + |z| + 2 <= 16
    requires AllDigits(x) && AllDigits(y) && AllDigits(z)
    ensures AddressToInt(x + ['.'] + y + ['.'] + z) == FieldsToInt(x, y, z)
  {
    ReplaceSlashDotted(x, y, z);
    DottedTriple(x, y, z);
  }

  /** `address_to_int_` inverts `int_to_address_` on every 16-bit address. */
  lemma AddressToIntRoundTrip(address: u16)
    ensures AddressToInt(IntToAddress(address)) == address
  {
    var a, b, c := MainGroup(address), MiddleGroup(address), SubGroup(address);
    var s := Triple(a, b, c, '/');
    ReplaceSlashTriple(a, b, c);
    var t := Triple(a, b, c, '.');
    assert t == Dec(a) + ['.'] + Dec(b) + ['.'] + Dec(c);
    ReplaceSlashIdempotent(s);
    assert AddressToInt(s) == AddressToInt(t) by {
      AddressToIntReplaceSlash(s);
      AddressToIntReplaceSlash(t);
    }
    TripleLength(a, b, c, '.');
    DottedToInt(Dec(a), Dec(b), Dec(c));
    PackOfGroupFields(address);
  }

  /** So different addresses print differently. */
  lemma IntToAddressInjective(x: u16, y: u16)
    requires IntToAddress(x) == IntToAddress(y)
    ensures x == y
  {
    AddressToIntRoundTrip(x);
    AddressToIntRoundTrip(y);
  }

  /** `/` and `.` are interchangeable: only the text with slashes replaced matters. */
  lemma AddressToIntReplaceSlash(s: string)
    ensures AddressToInt(s) == AddressToInt(ReplaceSlash(s))
  {
    ReplaceSlashIdempotent(s);
  }

  /** Texts that do not have the three-field shape convert to 0. */
  lemma AddressToIntRejects()
    ensures AddressToInt("") == 0
    ensures AddressToInt("1.2") == 0
    ensures AddressToInt("1.2.3.4") == 0
    ensures AddressToInt("a.b.c") == 0
    ensures AddressToInt("00000000000001.2.3") == 0
  {
    var s := ReplaceSlash("1.2");
    assert s == "1.2";
    FindAt(s, '.', 0, 1);
    var t := ReplaceSlash("1.2.3.4");
    assert t == "1.2.3.4";
    FindAt(t, '.', 0, 1);
    FindAt(t, '.', 2, 3);
    assert t[4..] == "3.4" && !IsDigit(t[4..][1]);
    var u := ReplaceSlash("a.b.c");
    assert u == "a.b.c";
    FindAt(u, '.', 0, 1);
    FindAt(u, '.', 2, 3);
    assert u[..1] == "a" && !IsDigit(u[..1][0]);
  }

  /** The dotted spelling of group address 1/2/3 converts to its packed value. */
  lemma DottedAddressExample()
    ensures AddressToInt("1.2.3") == GroupPack(1, 2, 3)
  {
    assert "1.2.3" == "1" + ['.'] + "2" + ['.'] + "3";
    DottedToInt("1", "2", "3");
    assert DigitsValue("1") == 1 && DigitsValue("2") == 2 && DigitsValue("3") == 3;
  }

  /** The slash and dot spellings of an address convert alike. */
  lemma AddressToIntExamples()
    ensures AddressToInt("1/2/3") == AddressToInt("1.2.3") == GroupPack(1, 2, 3)
  {
    AddressToIntReplaceSlash("1/2/3");
    assert ReplaceSlash("1/2/3") == "1.2.3";
    DottedAddressExample();
  }

  /** `encode_address_`: the converted address, high octet first. */
  function EncodeAddress(address: string): (r: seq<u8>)
    ensures |r| == 2 && Word16(r[0], r[1]) == AddressToInt(address)
  {
    BigEndian16(AddressToInt(address))
  }

  /** Text longer than the 16-character limit encodes as address 0. */
  lemma LongAddressEncodesZero(address: string)
    requires |address| > 16
    ensures EncodeAddress(address) == [0, 0]
  {
    assert AddressToInt(address) == 0;
  }

  /**
   * `decode_address_`: the two octets at `offset`, high first, printed by
   * `int_to_address_`; `"0.0.0"` (with dots) when they are not both there.
   */
  function DecodeAddress(data: seq<u8>, offset: nat): (r: string)
    ensures offset + 1 >= |data| ==> r == "0.0.0"
    ensures offset + 1 < |data| ==> r == IntToAddress(Word16(data[offset], data[offset + 1]))
    ensures offset + 1 < |data| ==> AddressToInt(r) == Word16(data[offset], data[offset + 1])
  {
    if offset + 1 >= |data| then "0.0.0"
    else
      var r := IntToAddress(Word16(data[offset], data[offset + 1]));
      AddressToIntRoundTrip(Word16(data[offset], data[offset + 1]));
      r
  }

  /** Decoding an encoded address gives its canonical text. */
  lemma DecodeEncodeAddress(address: string)
    ensures DecodeAddress(EncodeAddress(address), 0) == IntToAddress(AddressToInt(address))
  {
    var r := EncodeAddress(address);
    assert Word16(r[0], r[1]) == AddressToInt(address);
  }

  /** XOR of all octets of `s`. */
  function XorAll(s: seq<u8>): bv8
  {
    if |s| == 0 then 0 else XorAll(s[..|s| - 1]) ^ (s[|s| - 1] as bv8)
  }

  /**
   * `calculate_checksum_`: 0xFF for fewer than two octets, otherwise the
   * complement of the XOR of every octet but the last.
   */
  function Checksum(data: seq<u8>): u8
  {
    if |data| <= 1 then 0xFF else (!XorAll(data[..|data| - 1])) as int
  }

  /** The accumulation loop of `calculate_checksum_`. */
  method CalculateChecksum(data: seq<u8>) returns (r: u8)
    ensures r == Checksum(data)
  {
    if |data| <= 1 {
      return 0xFF;
    }
    var checksum: bv8 := 0;
    var i := 0;
    while i < |data| - 1
      invariant 0 <= i <= |data| - 1
      invariant checksum == XorAll(data[..i])
    {
      assert data[..i + 1][..i] == data[..i];
      checksum := checksum ^ (data[i] as bv8);
      i := i + 1;
    }
    r := (!checksum) as int;
  }

  /**
   * A frame whose last octet is the checksum of the frame has an XOR of
   * all its octets equal to 0xFF.
   */
  lemma {:induction false} ChecksumCompletesFrame(data: seq<u8>)
    requires 2 <= |data| && data[|data| - 1] == Checksum(data)
    ensures XorAll(data) == 0xFF
  {
    var x := XorAll(data[..|data| - 1]);
    OctetRoundTrip(!x);
    assert data[|data| - 1] as bv8 == !x;
    assert data[..|data| - 1] == data[..|data| - 1];
    XorComplement(x);
  }

  lemma XorComplement(x: bv8)
    ensures x ^ !x == 0xFF
  {
  }

  /** One fan-out step of `notify_entities_`. */
  datatype Invocation =
    | TelegramCallback(callback: nat, ga: string, data: seq<u8>)
    | AddressCallback(callback: nat, data: seq<u8>)
    | EntityNotified(entity: nat, ga: string, data: seq<u8>)

  /** One call of `send_telegram`. */
  datatype Telegram = Telegram(destination: string, data: seq<u8>)

  /** A `send_group_write` an entity asks for: configured address id and payload. */
  datatype Write = Write(id: string, data: seq<u8>)

  /** Every on-telegram callback, in registration order. */
  function TelegramCalls(callbacks: seq<nat>, ga: string, data: seq<u8>): (r: seq<Invocation>)
    ensures |r| == |callbacks|
    ensures forall i :: 0 <= i < |r| ==> r[i] == TelegramCallback(callbacks[i], ga, data)
  {
    if |callbacks| == 0 then []
    else TelegramCalls(callbacks[..|callbacks| - 1], ga, data) + [TelegramCallback(callbacks[|callbacks| - 1], ga, data)]
  }

  /** Every callback of one group address, in registration order. */
  function AddressCalls(callbacks: seq<nat>, data: seq<u8>): (r: seq<Invocation>)
    ensures |r| == |callbacks|
    ensures forall i :: 0 <= i < |r| ==> r[i] == AddressCallback(callbacks[i], data)
  {
    if |callbacks| == 0 then []
    else AddressCalls(callbacks[..|callbacks| - 1], data) + [AddressCallback(callbacks[|callbacks| - 1], data)]
  }

  /** Every entity, in registration order. */
  function EntityCalls(entities: seq<nat>, ga: string, data: seq<u8>): (r: seq<Invocation>)
    ensures |r| == |entities|
    ensures forall i :: 0 <= i < |r| ==> r[i] == EntityNotified(entities[i], ga, data)
  {
    if |entities| == 0 then []
    else EntityCalls(entities[..|entities| - 1], ga, data) + [EntityNotified(entities[|entities| - 1], ga, data)]
  }

  /**
   * What `notify_entities_` calls: all on-telegram callbacks, then the
   * callbacks registered for exactly `gaInt`, then all entities.
   */
  function Dispatch(telegramCallbacks: seq<nat>, gaCallbacks: map<u16, seq<nat>>, entities: seq<nat>,
                    ga: string, gaInt: u16, data: seq<u8>): seq<Invocation>
  {
    TelegramCalls(telegramCallbacks, ga, data)
      + AddressCalls(if gaInt in gaCallbacks then gaCallbacks[gaInt] else [], data)
      + EntityCalls(entities, ga, data)
  }

  /**
   * The dispatch order: the callbacks for one address and the entities
   * never run before any on-telegram callback, every entity is notified
   * exactly once, and only callbacks registered for `gaInt` run.
   */
  lemma DispatchOrder(telegramCallbacks: seq<nat>, gaCallbacks: map<u16, seq<nat>>, entities: seq<nat>,
                      ga: string, gaInt: u16, data: seq<u8>)
    ensures var d := Dispatch(telegramCallbacks, gaCallbacks, entities, ga, gaInt, data);
      var own := if gaInt in gaCallbacks then gaCallbacks[gaInt] else [];
      |d| == |telegramCallbacks| + |own| + |entities| &&
      (forall i :: 0 <= i < |d| ==> (d[i].TelegramCallback? <==> i < |telegramCallbacks|)) &&
      (forall i :: 0 <= i < |d| ==> (d[i].EntityNotified? <==> i >= |telegramCallbacks| + |own|)) &&
      (forall i :: 0 <= i < |d| && d[i].AddressCallback? ==> d[i].callback in own) &&
      (forall i :: 0 <= i < |entities| ==> d[|telegramCallbacks| + |own| + i] == EntityNotified(entities[i], ga, data))
  {
  }

  /** The entity loop of `notify_entities_`: each entity in turn. */
  method NotifyEach(entities: seq<nat>, ga: string, data: seq<u8>) returns (calls: seq<Invocation>)
    ensures calls == EntityCalls(entities, ga, data)
  {
    calls := [];
    var i := 0;
    while i < |entities|
      invariant 0 <= i <= |entities|
      invariant calls == EntityCalls(entities[..i], ga, data)
    {
      assert entities[..i + 1][..i] == entities[..i];
      calls := calls + [EntityNotified(entities[i], ga, data)];
      i := i + 1;
    }
    assert entities[..i] == entities;
  }

  /**
   * The telegrams a series of group writes produces, given the text each
   * registered id resolves to: one per write whose id is registered, in
   * order.
   */
  function Sends(targets: map<string, string>, writes: seq<Write>): (r: seq<Telegram>)
    ensures |r| <= |writes|
    ensures (forall i :: 0 <= i < |writes| ==> writes[i].id in targets) ==> |r| == |writes|
  {
    if writes == [] then []
    else
      var last := writes[|writes| - 1];
      Sends(targets, writes[..|writes| - 1]) +
      (if last.id in targets then [Telegram(targets[last.id], last.data)] else [])
  }

  /** The writes of two series in a row send the telegrams of each in turn. */
  lemma {:induction false} SendsAppend(targets: map<string, string>, a: seq<Write>, b: seq<Write>)
    ensures Sends(targets, a + b) == Sends(targets, a) + Sends(targets, b)
    decreases |b|
  {
    if b == [] {
      assert a + b == a;
    } else {
      var b' := b[..|b| - 1];
      assert (a + b)[..|a + b| - 1] == a + b';
      assert (a + b)[|a + b| - 1] == b[|b| - 1];
      SendsAppend(targets, a, b');
    }
  }

  /** Sending one more series after a prefix extends what was sent by its telegrams. */
  lemma SentStep(sent: seq<Telegram>, targets: map<string, string>, prefix: seq<Write>, next: seq<Write>)
    ensures sent + Sends(targets, prefix) + Sends(targets, next) == sent + Sends(targets, prefix + next)
  {
    SendsAppend(targets, prefix, next);
  }

  /** The text each id of a lookup table resolves to. */
  function TargetsOf(lookup: map<string, GroupAddress>, render: u16 -> string): (r: map<string, string>)
    reads lookup.Values
    ensures r.Keys == lookup.Keys
    ensures forall id :: id in r ==> r[id] == render(lookup[id].address)
  {
    map id | id in lookup :: render(lookup[id].address)
  }

  /** Three series sent one after the other send their concatenation. */
  lemma SentInThreeSteps(targets: map<string, string>, a: seq<Write>, b: seq<Write>, c: seq<Write>,
                         s0: seq<Telegram>, s1: seq<Telegram>, s2: seq<Telegram>, s3: seq<Telegram>)
    requires s1 == s0 + Sends(targets, a)
    requires s2 == s1 + Sends(targets, b)
    requires s3 == s2 + Sends(targets, c)
    ensures s3 == s0 + Sends(targets, a + b + c)
  {
    SentStep(s0, targets, a, b);
    SentStep(s0, targets, a + b, c);
  }

  class Component {
    /** What the opaque `GroupAddress::get_address()` returns for a stored address. */
    const render: u16 -> string

    var physicalAddress: string
    var physicalAddressInt: u16
    var groupAddresses: seq<GroupAddress>
    var gaLookup: map<string, GroupAddress>
    var entities: seq<nat>
    var telegramCallbacks: seq<nat>
    var gaCallbacks: map<u16, seq<nat>>
    var sent: seq<Telegram>
    var invocations: seq<Invocation>

    constructor (render: u16 -> string)
      ensures this.render == render
      ensures physicalAddress == "" && physicalAddressInt == 0
      ensures groupAddresses == [] && gaLookup == map[] && entities == []
      ensures telegramCallbacks == [] && gaCallbacks == map[]
      ensures sent == [] && invocations == []
    {
      this.render := render;
      physicalAddress := "";
      physicalAddressInt := 0;
      groupAddresses := [];
      gaLookup := map[];
      entities := [];
      telegramCallbacks := [];
      gaCallbacks := map[];
      sent := [];
      invocations := [];
    }

    /** `set_physical_address`: the text and its conversion. */
    method SetPhysicalAddress(address: string)
      modifies this
      ensures physicalAddress == address && physicalAddressInt == AddressToInt(address)
      ensures groupAddresses == old(groupAddresses) && gaLookup == old(gaLookup) && entities == old(entities)
      ensures telegramCallbacks == old(telegramCallbacks) && gaCallbacks == old(gaCallbacks)
      ensures sent == old(sent) && invocations == old(invocations)
    {
      physicalAddress := address;
      physicalAddressInt := AddressToInt(address);
    }

    /** `get_group_address`: the entry the lookup table holds for `id`, if any. */
    function GetGroupAddress(id: string): (r: Option<GroupAddress>)
      reads this
      ensures r.Some? <==> id in gaLookup
      ensures r.Some? ==> r.value == gaLookup[id]
    {
      if id in gaLookup then Some(gaLookup[id]) else None
    }

    /**
     * `register_group_address`: appended to the list and entered in the
     * lookup table under its current id, replacing an earlier entry with
     * that id.
     */
    method RegisterGroupAddress(ga: GroupAddress)
      modifies this
      ensures groupAddresses == old(groupAddresses) + [ga]
      ensures GetGroupAddress(ga.id) == Some(ga)
      ensures forall id :: id != ga.id ==> GetGroupAddress(id) == old(GetGroupAddress(id))
      ensures physicalAddress == old(physicalAddress) && physicalAddressInt == old(physicalAddressInt)
      ensures entities == old(entities) && telegramCallbacks == old(telegramCallbacks)
      ensures gaCallbacks == old(gaCallbacks) && sent == old(sent) && invocations == old(invocations)
    {
      groupAddresses := groupAddresses + [ga];
      gaLookup := gaLookup[ga.id := ga];
    }

    /** `register_entity`: appended to the entity list. */
    method RegisterEntity(entity: nat)
      modifies this
      ensures entities == old(entities) + [entity]
      ensures physicalAddress == old(physicalAddress) && physicalAddressInt == old(physicalAddressInt)
      ensures groupAddresses == old(groupAddresses) && gaLookup == old(gaLookup)
      ensures telegramCallbacks == old(telegramCallbacks) && gaCallbacks == old(gaCallbacks)
      ensures sent == old(sent) && invocations == old(invocations)
    {
      entities := entities + [entity];
    }

    /** `add_on_telegram_callback`: appended to the on-telegram callbacks. */
    method AddOnTelegramCallback(callback: nat)
      modifies this
      ensures telegramCallbacks == old(telegramCallbacks) + [callback]
      ensures physicalAddress == old(physicalAddress) && physicalAddressInt == old(physicalAddressInt)
      ensures groupAddresses == old(groupAddresses) && gaLookup == old(gaLookup) && entities == old(entities)
      ensures gaCallbacks == old(gaCallbacks) && sent == old(sent) && invocations == old(invocations)
    {
      telegramCallbacks := telegramCallbacks + [callback];
    }

    /** `add_on_group_address_callback`: appended to the callbacks of `gaInt`, creating the list if needed. */
    method AddOnGroupAddressCallback(gaInt: u16, callback: nat)
      modifies this
      ensures gaInt in gaCallbacks
      ensures gaCallbacks[gaInt] == (if gaInt in old(gaCallbacks) then old(gaCallbacks)[gaInt] else []) + [callback]
      ensures forall k :: k != gaInt ==> (k in gaCallbacks <==> k in old(gaCallbacks))
      ensures forall k :: k != gaInt && k in gaCallbacks ==> gaCallbacks[k] == old(gaCallbacks)[k]
      ensures physicalAddress == old(physicalAddress) && physicalAddressInt == old(physicalAddressInt)
      ensures groupAddresses == old(groupAddresses) && gaLookup == old(gaLookup) && entities == old(entities)
      ensures telegramCallbacks == old(telegramCallbacks) && sent == old(sent) && invocations == old(invocations)
    {
      var existing := if gaInt in gaCallbacks then gaCallbacks[gaInt] else [];
      gaCallbacks := gaCallbacks[gaInt := existing + [callback]];
    }

    /** `send_telegram`: the request is recorded; the bus transfer itself is not part of this model. */
    method SendTelegram(destination: string, data: seq<u8>)
      modifies this
      ensures sent == old(sent) + [Telegram(destination, data)]
      ensures OnlySent()
    {
      sent := sent + [Telegram(destination, data)];
    }

    /** What a group request for `id` sends: nothing for an unknown id. */
    function Request(id: string, data: seq<u8>): (r: seq<Telegram>)
      reads this, gaLookup.Values
      ensures id !in gaLookup ==> r == []
      ensures id in gaLookup ==> r == [Telegram(render(gaLookup[id].address), data)]
    {
      match GetGroupAddress(id)
      case None => []
      case Some(ga) => [Telegram(render(ga.address), data)]
    }

    /** Whether `get_group_address(id)` is non-null and its `get_address()` equals `ga`. */
    predicate Resolves(id: string, ga: string)
      reads this, gaLookup.Values
    {
      id in gaLookup && render(gaLookup[id].address) == ga
    }

    /** The text each registered id resolves to. */
    function Targets(): (r: map<string, string>)
      reads this, gaLookup.Values
      ensures r == TargetsOf(gaLookup, render)
    {
      TargetsOf(gaLookup, render)
    }

    /** What a series of group writes sends, in order; unknown ids send nothing. */
    function Requests(writes: seq<Write>): (r: seq<Telegram>)
      reads this, gaLookup.Values
      ensures |r| <= |writes|
    {
      Sends(Targets(), writes)
    }

    /** A single write sends what `send_group_write` sends. */
    lemma RequestsOfOne(id: string, data: seq<u8>)
      ensures Sends(Targets(), [Write(id, data)]) == Request(id, data)
    {
      assert [Write(id, data)][..0] == [];
    }

    /** Everything but the sent telegrams is as it was. */
    twostate predicate OnlySent()
      reads this
    {
      physicalAddress == old(physicalAddress) && physicalAddressInt == old(physicalAddressInt) &&
      groupAddresses == old(groupAddresses) && gaLookup == old(gaLookup) && entities == old(entities) &&
      telegramCallbacks == old(telegramCallbacks) && gaCallbacks == old(gaCallbacks) &&
      invocations == old(invocations)
    }

    /** `send_group_write`. */
    method SendGroupWrite(id: string, data: seq<u8>)
      modifies this
      ensures sent == old(sent) + old(Request(id, data))
      ensures OnlySent()
    {
      var ga := GetGroupAddress(id);
      if ga.Some? {
        SendTelegram(render(ga.value.address), data);
      }
    }

    /** `send_group_read`: an empty payload. */
    method SendGroupRead(id: string)
      modifies this
      ensures sent == old(sent) + old(Request(id, []))
      ensures OnlySent()
    {
      var ga := GetGroupAddress(id);
      if ga.Some? {
        SendTelegram(render(ga.value.address), []);
      }
    }

    /** `send_group_response`. */
    method SendGroupResponse(id: string, data: seq<u8>)
      modifies this
      ensures sent == old(sent) + old(Request(id, data))
      ensures OnlySent()
    {
      var ga := GetGroupAddress(id);
      if ga.Some? {
        SendTelegram(render(ga.value.address), data);
      }
    }

    /** `notify_entities_`: the fan-out in `Dispatch` order. */
    method NotifyEntities(ga: string, gaInt: u16, data: seq<u8>)
      modifies this
      ensures invocations == old(invocations) + Dispatch(telegramCallbacks, gaCallbacks, entities, ga, gaInt, data)
      ensures physicalAddress == old(physicalAddress) && physicalAddressInt == old(physicalAddressInt)
      ensures groupAddresses == old(groupAddresses) && gaLookup == old(gaLookup) && entities == old(entities)
      ensures telegramCallbacks == old(telegramCallbacks) && gaCallbacks == old(gaCallbacks)
      ensures sent == old(sent)
    {
      // `CallbackManager::call` runs each list in registration order.
      var first := TelegramCalls(telegramCallbacks, ga, data);
      var own := AddressCalls(if gaInt in gaCallbacks then gaCallbacks[gaInt] else [], data);
      var notified := NotifyEach(entities, ga, data);
      invocations := invocations + (first + own + notified);
    }

    /**
     * `group_object_callback_`: a telegram from the stack. A missing
     * payload or one longer than 254 octets is dropped; otherwise the
     * first `len` octets are dispatched under the printed address.
     */
    method GroupObjectCallback(ga: u16, data: Option<seq<u8>>, len: u8)
      requires data.Some? ==> len as int <= |data.value|
      modifies this
      ensures data.None? || len > 254 ==> invocations == old(invocations)
      ensures data.Some? && len <= 254 ==>
        invocations == old(invocations) + Dispatch(telegramCallbacks, gaCallbacks, entities, IntToAddress(ga), ga, data.value[..len])
      ensures physicalAddress == old(physicalAddress) && physicalAddressInt == old(physicalAddressInt)
      ensures groupAddresses == old(groupAddresses) && gaLookup == old(gaLookup) && entities == old(entities)
      ensures telegramCallbacks == old(telegramCallbacks) && gaCallbacks == old(gaCallbacks)
      ensures sent == old(sent)
    {
      if data.None? {
        return;
      }
      if len > 254 {
        return;
      }
      NotifyEntities(IntToAddress(ga), ga, data.value[..len]);
    }
  }
}
