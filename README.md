# KNX for ESPHome — a Dafny model of the core

This project models the logic of an ESPHome integration for KNX building
automation. The integration has two stacks:

- `knx_tp` talks to the twisted-pair bus through a serial transceiver.
- `knx_ip` talks to KNXnet/IP routers over multicast UDP.

Apart from the transport, the shared logic covers these parts:

- **Datapoint codecs** (`Dpt`, `DptIp`). These convert typed values to and from the payload octets of a group telegram. They cover DPT 1, 5, 5.001, 5.003, 9, 10, 11, 14, 16, 19 and 20.102 of the KNX Standard (ISO/IEC 14543-3, volume 3, part 7, chapter 2, "Datapoint Types"). `Dpt` models the hardened `knx_tp/dpt.cpp`. `DptIp` models only the three `knx_ip/dpt.cpp` codecs that differ:
  - DPT 9 encoding with arithmetic shifts;
  - DPT 16 without filter or limit;
  - DPT 19 decoding without range repair.
- **Addresses** (`AddressBits`, `KnxTp`, `GroupAddressTp`, `GroupAddressIp`, `KnxIp`, `Config`). Group addresses pack as 5/3/8 bits and physical addresses as 4/4/8. The model covers:
  - the TP text parser (`address_to_int_`);
  - the IP `strtol` parser (`GroupAddress::set_address`);
  - the IP hand-written parsers (`parse_physical_address_`, `encode_address_`);
  - the formatters;
  - the two Python configuration validators.

  Each parser keeps its own edge cases.
- **Registry and dispatcher** (`KnxTp.Component`, `KnxIp.Component`). These are classes whose fields the methods update:
  - group-address registry;
  - entity list;
  - telegram callbacks;
  - per-address callbacks;
  - a trace of the telegrams sent;
  - a trace of the callback and entity invocations.

  Entities and callbacks are identified by numbers. A fan-out appends to the invocation trace.
- **Entity handlers** (`SwitchTp`, `BinarySensorTp`, `ClimateTp`, `TextSensorTp`, `TextSensorIp`, `SensorIp`). Each is a class with a `published` (or `events`) trace:
  - `publish_state`, `set_timeout` and sends are recorded there;
  - every telegram handler filters on the text its state group address renders to.

Text formatting shared by the two text sensors is in `TextFormat`. Decimal digits, splitting, `find` and `/`-to-`.` replacement are in `Text`. Fixed-width integers and powers of two are in `Bytes`. `Wrappers` holds `Option` and `Result`.

## Model

| member | source | states |
|---|---|---|
| Dpt.Dpt1RoundTrip | components/knx_tp/dpt.cpp:10-17 | DPT 1 decodes its own encoding; an empty payload is false; otherwise only bit 0 of the first octet counts |
| Dpt.Encode1 | components/knx_tp/dpt.cpp:15-17 | the DPT 1 payload is one octet, 0x01 exactly for `true` and 0x00 for `false` |
| Dpt.Dpt5RoundTrip | components/knx_tp/dpt.cpp:20-27 | DPT 5 decodes its own encoding, and re-encoding a decoded payload gives its first octet |
| Dpt.Decode5Percentage | components/knx_tp/dpt.cpp:30-33 | 5.001 is `data[0] * 100 / 255`, in 0..100; empty input gives 0 |
| Dpt.Decode5Angle | components/knx_tp/dpt.cpp:42-45 | 5.003 is `data[0] * 360 / 255`, in 0..360; empty input gives 0 |
| Dpt.Decode9 | components/knx_tp/dpt.cpp:61-80 | a DPT 9 word decodes to a mantissa in -2047..2047 and an exponent of at most 15; fewer than two octets decode to 0 |
| Dpt.Word9Fields | components/knx_tp/dpt.cpp:61-121 | the packed word carries the exponent in bits 11-14, and decoding it gives back the (mantissa, exponent) pair, except that mantissa -2048 reads as 0 |
| Dpt.Raw9Fields | components/knx_tp/dpt.cpp:110-115 | the packed word holds the sign in bit 15, the exponent in bits 11-14 and the low 11 mantissa bits below them |
| Dpt.NegativeMantissa | components/knx_tp/dpt.cpp:72-76 | the negative branch's `-(~(m - 1) & 0x7FF)` recovers every mantissa from -2047 to -1 from its 11 bits, and maps the bits of -2048 to 0 |
| Dpt.Word9Exponent | components/knx_tp/dpt.cpp:110-120 | the exponent field of the first octet is the exponent that was packed |
| Dpt.Word9Decodes | components/knx_tp/dpt.cpp:61-80 | decoding a packed word gives back its mantissa and exponent, -2048 aside |
| Dpt.Clamp9 | components/knx_tp/dpt.cpp:88-91 | the scaled value is clamped to -67108864..67076092 (670760.96f times 100.0f in single precision) and left alone inside it |
| Dpt.Encode9 | components/knx_tp/dpt.cpp:82-122 | non-finite input gives `{0,0}`; otherwise the halving loop stops at the least exponent (at most 15) at which the truncated mantissa fits 11 bits, and the word is that pair packed |
| Dpt.HalvedBound | components/knx_tp/dpt.cpp:88-109 | after k truncating halvings a clamped value lies in -2^(26-k)..2047*2^(15-k), so at 15 it always fits 11 bits and the final clamp is a no-op |
| Dpt.Dpt9Saturates | components/knx_tp/dpt.cpp:88-121 | an input above the range saturates to mantissa 2046 at exponent 15, the word 0x7F 0xFE |
| Dpt.Encode9IsPayload | components/knx_tp/dpt.cpp:82-122 | the encoder's output equals the reference payload function for every input |
| Dpt.Dpt9Quantization | components/knx_tp/dpt.cpp:61-122 | a decoded encoding keeps the exponent and loses less than one step of 2^e hundredths, toward zero |
| Dpt.Dpt9MinimumMantissaReadsZero | components/knx_tp/dpt.cpp:73-76 | a sign-set word with zero mantissa bits decodes to 0 |
| Dpt.Dpt14RoundTrip | components/knx_tp/dpt.cpp:125-146 | DPT 14 round-trips its 32-bit pattern big-endian, and re-encoding a decoded payload gives its first four octets |
| Dpt.Word32Octets | components/knx_tp/dpt.cpp:135-146 | the big-endian split of a word built from four octets is those four octets |
| Dpt.EncodeOfDecode14 | components/knx_tp/dpt.cpp:125-146 | re-encoding a decoded payload of four or more octets gives its first four octets |
| Dpt.Decode16 | components/knx_tp/dpt.cpp:149-167 | the loop stops at the first 0 or after 14 kept characters, drops non-printables, and yields at most 14 printable characters |
| Dpt.Decode16Stop | components/knx_tp/dpt.cpp:149-167 | decoding stops where the terminator or the 14th kept character is |
| Dpt.Encode16 | components/knx_tp/dpt.cpp:169-189 | at most 14 printable characters are copied and a single 0 is appended |
| Dpt.Dpt16RoundTrip | components/knx_tp/dpt.cpp:149-189 | decoding an encoding gives the first 14 printable characters, and a short printable text comes back unchanged |
| Dpt.Dpt20RoundTrip | components/knx_tp/dpt.cpp:192-205 | 20.102 decodes its own encoding for all five modes; an empty payload or an octet above 4 is AUTO; otherwise the octet is the mode's ordinal |
| Dpt.Decode10 | components/knx_tp/dpt.cpp:211-227 | the decoded fields lie within their bit widths; fewer than 3 octets give 00:00:00 with day of week 0 |
| Dpt.Decode10Fields | components/knx_tp/dpt.cpp:216-226 | day of week and hour are the top 3 and low 5 bits of octet 0; minute and second the low 6 bits of octets 1 and 2 |
| Dpt.Dpt10RoundTrip | components/knx_tp/dpt.cpp:211-241 | decoding an encoding gives the clamped time (hour 23, minute and second 59), and an in-range time comes back unchanged |
| Dpt.Decode11 | components/knx_tp/dpt.cpp:248-265 | the windowed year lies in 1990..2155; fewer than 3 octets give 2000-01-01 |
| Dpt.Decode11Fields | components/knx_tp/dpt.cpp:253-264 | day and month are taken as sent; a year octet below 90 means 20xx, otherwise 19xx |
| Dpt.Dpt11RoundTrip | components/knx_tp/dpt.cpp:248-289 | decoding an encoding gives the clamped date, with years outside 1990..2089 read back as 2000, and an in-range date comes back unchanged |
| Dpt.RepairedValid | components/knx_tp/dpt.cpp:340-347 | range repair always yields a valid date and time |
| Dpt.RepairedKeeps | components/knx_tp/dpt.cpp:340-347 | range repair leaves a valid date and time alone |
| Dpt.Decode19 | components/knx_tp/dpt.cpp:299-350 | a payload that is not exactly 8 octets gives the default; every decoded value is in range; an in-range 8-octet payload is read as is |
| Dpt.Clamped19 | components/knx_tp/dpt.cpp:352-392 | the encoder's clamping yields a valid date and time |
| Dpt.FlagBitsSet | components/knx_tp/dpt.cpp:371-380 | byte 7 carries fault..summer_time in bits 7..0 |
| Dpt.Dpt19RoundTrip | components/knx_tp/dpt.cpp:299-392 | decoding an encoding gives the clamped value; a valid value whose quality equals its fault bit comes back unchanged |
| DptIp.Encode9 | components/knx_ip/dpt.cpp:75-101 | for every 16-bit scaled value the flooring shift loop stops at the least shift count, at most 4, at which the mantissa fits 11 bits, and packs that pair |
| DptIp.Dpt9Quantization | components/knx_ip/dpt.cpp:56-101 | a decoded encoding keeps the exponent and lies below the value by less than 2^e hundredths |
| DptIp.Decode16 | components/knx_ip/dpt.cpp:128-138 | every octet before the first 0 is kept, with no limit and no filter |
| DptIp.Encode16 | components/knx_ip/dpt.cpp:140-150 | every character is copied, then a 0 |
| DptIp.Dpt16RoundTrip | components/knx_ip/dpt.cpp:128-150 | decoding an encoding cuts at the first NUL, so NUL-free text comes back unchanged |
| DptIp.Dpt19RoundTrip | components/knx_ip/dpt.cpp:260-338 | the unvalidated decoder reads an encoding back as the same clamped value as the TP decoder |
| DptIp.Dpt19Unvalidated | components/knx_ip/dpt.cpp:260-296 | month 13 and hour 31 pass through unrepaired; a 9-octet payload is accepted, where the TP decoder gives the default |
| AddressBits.GroupFieldsOfPack | components/knx_tp/group_address.h:27-29 | the main, middle and sub accessors read back the fields a 5/3/8 packing stored |
| AddressBits.PackOfGroupFields | components/knx_tp/group_address.h:27-29 | repacking the three fields reconstructs every 16-bit address |
| AddressBits.PhysicalPack | components/knx_ip/knx_ip.cpp:288 | the 4/4/8 packing stores area, line and device in their bit ranges |
| GroupAddressTp.GroupAddress.constructor | components/knx_tp/group_address.h:31-32 | a fresh group address has an empty id and address 0 |
| GroupAddressTp.GroupAddress.SetId | components/knx_tp/group_address.h:16 | the id is stored and the address is untouched |
| GroupAddressTp.GroupAddress.SetAddress | components/knx_tp/group_address.h:20 | the address is stored and the id is untouched |
| GroupAddressTp.GroupAddress.GetMainGroup | components/knx_tp/group_address.h:27 | bits 15-11: the main group in 0..31 is the address divided by 2048 |
| GroupAddressTp.GroupAddress.GetMiddleGroup | components/knx_tp/group_address.h:28 | bits 10-8: the middle group in 0..7 is the address below bit 11 divided by 256 |
| GroupAddressTp.GroupAddress.GetSubGroup | components/knx_tp/group_address.h:29 | bits 7-0: the sub group in 0..255 leaves a multiple of 256 when taken from the address |
| GroupAddressTp.GroupAddress.GroupsDetermineAddress | components/knx_tp/group_address.h:27-29 | the three accessors determine the stored address |
| GroupAddressIp.SegmentValueOfDigits | components/knx_ip/group_address.cpp:28-45 | a plain run of digits is accepted as its decimal value |
| GroupAddressIp.ParseDottedDigits | components/knx_ip/group_address.cpp:9-49 | dotted digit fields within 31/7/255 are stored as their 5/3/8 packing |
| GroupAddressIp.EmptySegmentIsZero | components/knx_ip/group_address.cpp:29-45 | `strtol` accepts an empty segment as 0 |
| GroupAddressIp.SignedSegment | components/knx_ip/group_address.cpp:29-45 | leading white space and a sign are accepted |
| GroupAddressIp.TrailingTextRejected | components/knx_ip/group_address.cpp:38-45 | a segment not fully consumed is rejected, including a third segment holding another dot |
| GroupAddressIp.EmptyMiddleAccepted | components/knx_ip/group_address.cpp:11-48 | "1..3" is stored as 1/0/3 |
| GroupAddressIp.FourFieldsRejected | components/knx_ip/group_address.cpp:28-45 | "1.2.3.4" is stored as 0 |
| GroupAddressIp.ParseFormatRoundTrip | components/knx_ip/group_address.cpp:9-59 | parsing the formatted text gives back every 16-bit address |
| GroupAddressIp.GroupAddress.SetAddress | components/knx_ip/group_address.cpp:9-49 | the stored address is the parse of the text; the id is untouched |
| GroupAddressIp.GroupAddress.GetAddress | components/knx_ip/group_address.cpp:51-59 | the formatted text parses back to the stored address, so setting it again changes nothing |
| KnxTp.IntToAddress | components/knx_tp/knx_tp.cpp:454-469 | "main/middle/sub" of bits 15-11, 10-8 and 7-0, 5 to 8 characters long |
| KnxTp.DottedToInt | components/knx_tp/knx_tp.cpp:379-452 | short dotted digit text converts through the digit and range checks of its three fields |
| KnxTp.AddressToIntRoundTrip | components/knx_tp/knx_tp.cpp:379-469 | `address_to_int_(int_to_address_(x)) == x` for every 16-bit x |
| KnxTp.IntToAddressInjective | components/knx_tp/knx_tp.cpp:454-469 | distinct addresses format to distinct text |
| KnxTp.AddressToIntReplaceSlash | components/knx_tp/knx_tp.cpp:389 | '/' and '.' are interchangeable |
| KnxTp.AddressToIntRejects | components/knx_tp/knx_tp.cpp:383-429 | "", "1.2", "1.2.3.4", "a.b.c" and a text over 16 characters all give 0 |
| KnxTp.AddressToIntExamples | components/knx_tp/knx_tp.cpp:379-452 | "1/2/3" and "1.2.3" both give 1/2/3 packed |
| KnxTp.EncodeAddress | components/knx_tp/knx_tp.cpp:362-368 | the two octets are the big-endian split of the converted address |
| KnxTp.DecodeAddress | components/knx_tp/knx_tp.cpp:370-377 | "0.0.0" when offset+1 is past the end; otherwise the canonical slash text of the big-endian word at the offset, which converts back to that word |
| KnxTp.DecodeEncodeAddress | components/knx_tp/knx_tp.cpp:362-377 | decoding an encoding gives the canonical slash form of the address |
| KnxTp.CalculateChecksum | components/knx_tp/knx_tp.cpp:347-360 | the loop computes 0xFF below two octets and otherwise the complement of the XOR of all octets but the last |
| KnxTp.ChecksumCompletesFrame | components/knx_tp/knx_tp.cpp:347-360 | a frame whose last octet is its checksum XORs to 0xFF |
| KnxTp.DispatchOrder | components/knx_tp/knx_tp.cpp:293-317 | every telegram callback runs first, then the callbacks for exactly this address, then every entity in registration order |
| KnxTp.NotifyEach | components/knx_tp/knx_tp.cpp:311-316 | the entity loop notifies each entity once, in order |
| KnxTp.SendsAppend | components/knx_tp/knx_tp.cpp:256-285 | sends for a sequence of writes are the concatenation of the sends for its parts |
| KnxTp.TargetsOf | components/knx_tp/knx_tp.cpp:196-204 | an id resolves exactly when it is registered, to the rendering of its stored address |
| KnxTp.Component.constructor | components/knx_tp/knx_tp.h:99-141 | the registry, entity list, callbacks and traces start empty |
| KnxTp.Component.SetPhysicalAddress | components/knx_tp/knx_tp.cpp:173-177 | stores the text and its converted value; nothing else changes |
| KnxTp.Component.RegisterGroupAddress | components/knx_tp/knx_tp.cpp:183-188 | appends and overwrites the lookup entry, so the last registration wins; other ids are unaffected |
| KnxTp.Component.GetGroupAddress | components/knx_tp/knx_tp.cpp:196-204 | the lookup entry for a registered id, None otherwise |
| KnxTp.Component.RegisterEntity | components/knx_tp/knx_tp.cpp:190-194 | only appends the entity |
| KnxTp.Component.AddOnTelegramCallback | components/knx_tp/knx_tp.h:88-90 | only appends the callback |
| KnxTp.Component.AddOnGroupAddressCallback | components/knx_tp/knx_tp.cpp:521-528 | only appends the callback to that address's list |
| KnxTp.Component.SendTelegram | components/knx_tp/knx_tp.cpp:206-254 | records one telegram to the destination with the payload; no other field changes |
| KnxTp.Component.RequestsOfOne | components/knx_tp/knx_tp.cpp:256-285 | a single write sends exactly the resolved request |
| KnxTp.Component.SendGroupWrite | components/knx_tp/knx_tp.cpp:256-264 | an unknown id sends nothing; a known one sends the payload to its rendered address |
| KnxTp.Component.SendGroupRead | components/knx_tp/knx_tp.cpp:266-275 | as a write, with an empty payload |
| KnxTp.Component.SendGroupResponse | components/knx_tp/knx_tp.cpp:277-285 | as a write |
| KnxTp.Component.NotifyEntities | components/knx_tp/knx_tp.cpp:293-317 | appends the ordered fan-out and changes nothing else |
| KnxTp.Component.GroupObjectCallback | components/knx_tp/knx_tp.cpp:319-345 | a missing payload or a length above 254 is dropped; otherwise the first `len` octets are dispatched under the formatted address |
| KnxIp.ParsePhysicalAddress | components/knx_ip/knx_ip.cpp:239-289 | 0 unless there are three non-empty digit fields, and 0 when a field is out of range; within 15/15/255 the fields land in their 4/4/8 bit ranges |
| KnxIp.ParsePhysicalDotted | components/knx_ip/knx_ip.cpp:239-289 | every in-range dotted physical address parses to its packing |
| KnxIp.ParsePhysicalExamples | components/knx_ip/knx_ip.cpp:239-289 | "1.1.200" is 0x11C8, and "20.1.1" is 0 |
| KnxIp.EncodeAddress | components/knx_ip/knx_ip.cpp:291-342 | `{0,0}` on a structural failure or a field out of range; within 31/7/255 the fields land in the big-endian 5/3/8 word |
| KnxIp.EncodeAddressAgreesWithTp | components/knx_ip/knx_ip.cpp:291-342 | on text of at most 16 characters the IP encoder equals the TP one |
| KnxIp.EncodeAddressLengthDiffers | components/knx_ip/knx_ip.cpp:291-342 | the IP encoder has no length limit: an address padded with 13 or more leading zeros encodes there and gives `{0,0}` on TP |
| KnxIp.Component.constructor | components/knx_ip/knx_ip.h:85-87 | the list, entities and traces start empty |
| KnxIp.Component.SetPhysicalAddress | components/knx_ip/knx_ip.cpp:115-117 | only stores the text |
| KnxIp.Component.RegisterGroupAddress | components/knx_ip/knx_ip.cpp:119-121 | only appends |
| KnxIp.Component.IndexOf | components/knx_ip/knx_ip.cpp:129-136 | the first position holding the id, or None when none does |
| KnxIp.Component.GetGroupAddress | components/knx_ip/knx_ip.cpp:129-136 | the first registered match, or None |
| KnxIp.FirstMatchWins | components/knx_ip/knx_ip.cpp:119-136 | a later registration under the same id does not change the lookup |
| KnxIp.Component.RegisterEntity | components/knx_ip/knx_ip.cpp:123-127 | only appends |
| KnxIp.Component.NotifyEntities | components/knx_ip/knx_ip.cpp:233-237 | every entity, in order, with no filtering |
| KnxIp.Component.SendTelegram | components/knx_ip/knx_ip.cpp:138-162 | records one telegram; nothing else changes |
| KnxIp.Component.Request | components/knx_ip/knx_ip.cpp:164-193 | none exactly when the id is unknown; otherwise one telegram carrying the data to the formatted address of the first registration with that id |
| KnxIp.Component.SendGroupWrite | components/knx_ip/knx_ip.cpp:164-172 | sends the request of the id, nothing for an unknown id |
| KnxIp.Component.SendGroupRead | components/knx_ip/knx_ip.cpp:174-183 | as a write, with an empty payload |
| KnxIp.Component.SendGroupResponse | components/knx_ip/knx_ip.cpp:185-193 | as a write |
| Config.PyIntOfDec | components/knx_tp/__init__.py:48-55 | `int()` reads back the decimal text of every natural number |
| Config.PyIntLenient | components/knx_tp/__init__.py:48-55 | `int()` accepts surrounding white space, a sign and underscores |
| Config.PyIntDoubleUnderscore | components/knx_tp/__init__.py:48-55 | a doubled underscore is a `ValueError` |
| Config.ValidatedForm | components/knx_tp/__init__.py:41-56 | an accepted address is returned as canonical "main.middle.sub" within 31/7/255 |
| Config.ValidateCanonical | components/knx_ip/__init__.py:30-45 | every canonical in-range address is accepted unchanged |
| Config.ValidateIdempotent | components/knx_tp/__init__.py:41-56 | validating twice is validating once |
| Config.ValidatedAddressesAgree | components/knx_tp/__init__.py:131-136 | on every validated address the code generator's `ga_int`, the TP `address_to_int_` and the IP `set_address` agree |
| Config.ValidateIpAddress | components/knx_ip/__init__.py:47-61 | accepted exactly when there are four dot-separated parts that each parse to 0..255; the text is returned unchanged |
| Config.ValidateDottedQuad | components/knx_ip/__init__.py:47-61 | every dotted quad of octets is accepted |
| Config.DefaultMulticastValid | components/knx_ip/__init__.py:47-61 | "224.0.23.12" is accepted |
| Config.PhysicalRangeMismatch | components/knx_ip/knx_ip.cpp:274-281 | "20.1.1" validates but parses to 0 as a physical address |
| SwitchTp.EchoIsWrittenState | components/knx_tp/switch.cpp:41-67 | echoing the written octet back publishes the written state, since inversion is an involution |
| SwitchTp.Switch.WriteState | components/knx_tp/switch.cpp:34-56 | without a component nothing is sent or published; otherwise `state XOR invert` is sent to the command address and the un-inverted state is published |
| SwitchTp.Switch.OnKnxTelegram | components/knx_tp/switch.cpp:58-77 | publishes `decode_dpt1 XOR invert` exactly when the state id is set and resolves to the telegram's address |
| BinarySensorTp.StateEvents | components/knx_tp/binary_sensor.cpp:51-76 | publishes `state XOR invert`, then schedules "auto_reset" exactly when the time is positive and the published state is true |
| BinarySensorTp.ResetFollowsOn | components/knx_tp/binary_sensor.cpp:66-74 | a scheduled reset always follows a published true |
| BinarySensorTp.BinarySensor.OnKnxTelegram | components/knx_tp/binary_sensor.cpp:34-49 | reacts exactly to telegrams for the resolved state address |
| BinarySensorTp.BinarySensor.UpdateStateFromKnx | components/knx_tp/binary_sensor.cpp:51-76 | records the events of the state |
| BinarySensorTp.BinarySensor.AutoResetFired | components/knx_tp/binary_sensor.cpp:70-74 | the reset only publishes false |
| ClimateTp.HvacToClimateMode | components/knx_tp/climate.cpp:248-264 | 2 is OFF; 1, 3 and 4 are HEAT; 0 and everything above 4 are AUTO |
| ClimateTp.ClimateModeToHvac | components/knx_tp/climate.cpp:266-280 | OFF is 2; HEAT and COOL are 1; the rest are 0 |
| ClimateTp.ModeEcho | components/knx_tp/climate.cpp:131-206 | a mode written and echoed back reads as itself, except that COOL reads as HEAT and the rest as AUTO |
| ClimateTp.ActionFor | components/knx_tp/climate.cpp:144-165 | an active bit gives HEATING in HEAT and COOLING in COOL mode; everything else is IDLE |
| ClimateTp.Apply | components/knx_tp/climate.cpp:111-187 | a telegram changes only the field of its role; a false preset bit changes nothing |
| ClimateTp.Climate.RoleOf | components/knx_tp/climate.cpp:111-187 | the temperature address wins; optional roles with empty ids are skipped; a preset role names a configured preset address |
| ClimateTp.Climate.PresetMatch | components/knx_tp/climate.cpp:166-187 | the first configured preset whose address matches, or none when no preset matches |
| ClimateTp.Climate.OnKnxTelegram | components/knx_tp/climate.cpp:104-188 | without a component nothing changes; otherwise the state is updated for the telegram's role and published when the role publishes |
| ClimateTp.PresetOff | components/knx_tp/climate.cpp:212-216 | an OFF write for a configured preset id, nothing for an empty one |
| ClimateTp.OnWrite | components/knx_tp/climate.cpp:223-245 | an ON write exactly when the selected preset has a configured id |
| ClimateTp.PresetWritesShape | components/knx_tp/climate.cpp:208-246 | an OFF for every configured preset, then the ON for the selected one if it is configured |
| ClimateTp.Climate.SendPreset | components/knx_tp/climate.cpp:208-246 | sends exactly the resolved preset writes |
| ClimateTp.Climate.SendTemperature | components/knx_tp/climate.cpp:190-196 | sends the DPT 9 payload to the setpoint address |
| ClimateTp.Climate.SendMode | components/knx_tp/climate.cpp:198-206 | sends the mode only when the mode id is set |
| ClimateTp.Climate.Control | components/knx_tp/climate.cpp:78-102 | target, mode and preset are applied only when present; the requested writes are sent; the state is published once |
| TextFormat.ClockReadsBack | components/knx_tp/text_sensor.cpp:53-54 | "%02d:%02d:%02d" of fields below 100 is 8 characters, and its fields read back as the numbers |
| TextFormat.TimeText | components/knx_tp/text_sensor.cpp:42-55 | with a weekday 1..7 the clock is prefixed by the day's name and a space; otherwise it stands alone |
| TextFormat.DateReadsBack | components/knx_tp/text_sensor.cpp:69-70 | "%04d-%02d-%02d" of small fields is 10 characters, and its fields read back as the numbers |
| TextFormat.Flags | components/knx_tp/text_sensor.cpp:94-99 | " [FAULT]" first, then " [DST]"; empty exactly when neither flag is set |
| TextSensorTp.Checked | components/knx_tp/text_sensor.cpp:56-62 | text that does not fit the 64-octet buffer becomes "ERROR" |
| TextSensorTp.TimeFits | components/knx_tp/text_sensor.cpp:41-63 | the time text is 12 or 8 characters and ends with the clock |
| TextSensorTp.DateFits | components/knx_tp/text_sensor.cpp:66-79 | the date text is 10 to 12 characters |
| TextSensorTp.ValidDateTimeText | components/knx_tp/text_sensor.cpp:81-102 | a valid date and time formats to 19 characters followed by its flags |
| TextSensorTp.PublishedFits | components/knx_tp/text_sensor.cpp:26-113 | every published text fits the buffer, and the "ERROR" path is never taken for DPT 10, 11 and 19 |
| TextSensorTp.TextSensor.OnKnxTelegram | components/knx_tp/text_sensor.cpp:26-113 | publishes the formatted payload exactly when the state address resolves to the telegram's address |
| TextSensorIp.Buffered | components/knx_ip/text_sensor.cpp:38-44 | `snprintf` into 64 octets keeps a prefix of at most 63 characters |
| TextSensorIp.RawDateTimeLength | components/knx_ip/text_sensor.cpp:59-62 | unrepaired fields widen the date and time text to 19..25 characters |
| TextSensorIp.NeverTruncated | components/knx_ip/text_sensor.cpp:35-70 | no time, date or date-and-time text reaches the buffer limit |
| TextSensorIp.WideMinute | components/knx_ip/text_sensor.cpp:59-70 | an unrepaired minute of 255 widens the text to 20 characters, where TP repairs the minute to 0 |
| TextSensorIp.TextSensor.OnKnxTelegram | components/knx_ip/text_sensor.cpp:26-83 | publishes exactly when the first registration of the state id renders to the telegram's address |
| SensorIp.Decode | components/knx_ip/sensor.cpp:44-68 | DPT 9 types read a 2-octet float, 5.001/5.003 a scaled real, generic 1-byte an octet and generic 4-byte a 32-bit pattern |
| SensorIp.ShortPayloadIsZero | components/knx_ip/sensor.cpp:44-68 | a payload shorter than the type's width decodes to zero |
| SensorIp.ExtraOctetsIgnored | components/knx_ip/sensor.cpp:44-68 | octets past the type's width do not matter |
| SensorIp.NamesDistinct | components/knx_ip/sensor.cpp:78-91 | every type has its own name, and "Unknown" is never returned |
| SensorIp.Sensor.OnKnxTelegram | components/knx_ip/sensor.cpp:27-76 | an empty payload or another address publishes nothing; otherwise the decoded reading is published |

## Left out

- Floating point. DPT 9 values are (mantissa, exponent) pairs worth `0.01 * m * 2^e`. The encoders take the already-scaled hundredths (`value * 100`, truncated) or "non-finite". DPT 14 is its raw IEEE 754 bit pattern. 5.001 and 5.003 are exact reals. Sensor and climate temperatures are those values, not `float`.
- Dpt.Encode9: the `value * 100` scaling and its truncation to an integer are a parameter. The NaN and infinity test is a constructor of the input.
- DptIp.Encode9: the `int16_t` cast of `value * 100` is a parameter (any 16-bit value). The overflow of that cast is not modelled.
- The UART and UDP transports, frame layout and timing, `setup`, `loop`, `dump_config`, traits, logging and `broadcast_time_`. `send_telegram` is a recorded telegram.
- `components/knx_tp/group_address.cpp` is not part of this model. The TP `GroupAddress::get_address()` is a fixed function of the stored address, given to the TP component as `render`.
- Entities and callbacks are numbers, and invoking one is an entry in a trace. What a callback then does is not modelled.
- KnxTp.DispatchOrder: the build switches `USE_KNX_ON_TELEGRAM` and `USE_KNX_ON_GROUP_ADDRESS` are taken at their default, enabled. A build that sets either to 0 and so skips those callbacks is not modelled.
- KnxTp.Component.NotifyEntities: the `entity != nullptr` skip is not modelled. Entities are numbers here, and `register_entity` dereferences its argument, so a null entity is never stored.
- `set_timeout` is a recorded event. ESPHome's rule that a new timeout under the same name replaces a pending one is left to the scheduler, which is not part of this model.
- Config.PyInt: Python's `int()` is modelled on ASCII digits, signs, underscores and ASCII white space. Unicode digits and white space are not modelled.
- GroupAddressIp.Strtol: overflow of `strtol` to `LONG_MAX` is not modelled, since the fields are checked against 255 or less.
- ClimateTp.Climate.Control: the source interleaves each send with its field store. The model sends first and stores after. The sends read only the component's registry, so the order of sends and the final state are the same.
- SensorIp.SensorTypeToString: the `default: "Unknown"` branch cannot be reached with a value of the enumeration, so the model has no such value.
- TextSensorIp.TextSensor and SensorIp.Sensor: the component is never null. The IP handlers dereference `knx_` without a check.
- DptIp.Encode16 and DptIp.Dpt16RoundTrip: the C++ `std::string` holds octets, while the model's text is Dafny characters. Each character is taken modulo 256, and the round trip is stated for strings of octets (every character below 256).
