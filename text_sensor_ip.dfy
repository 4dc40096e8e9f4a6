/**
 * `knx_ip::KNXTextSensor` (components/knx_ip/text_sensor.cpp): the same
 * formats as the TP sensor, but with no null check on the KNX component,
 * no "ERROR" replacement, and the unvalidated IP DPT 19 decoder, whose
 * fields can be up to three digits (and the year five).
 */
module TextSensorIp {
  import opened Bytes
  import opened Text
  import opened Dpt
  import opened TextFormat
  import DptIp
  import KnxIp

  /** `TextSensorDPT`; DPT 16 is the default. */
  datatype TextSensorDpt = Dpt16 | Dpt10 | Dpt11 | Dpt19

  /** What `snprintf` leaves in the 64-byte buffer: at most 63 characters and the terminator. */
  function Buffered(written: string): (r: string)
    ensures |r| <= 63 && r <= written
    ensures |written| <= 63 ==> r == written
  {
    if |written| <= 63 then written else written[..63]
  }

  /** The DPT 10 text as the buffer holds it. */
  function TimeTextOf(t: TimeOfDay): string
  {
    Buffered(TimeText(t))
  }

  /** The DPT 11 text as the buffer holds it. */
  function DateTextOf(d: Date): string
  {
    Buffered(DateText(d.year as nat, d.month as nat, d.day as nat))
  }

  /** The DPT 19 text as the buffer holds it, then the flag suffix. */
  function DateTimeTextOf(dt: DateTime): string
  {
    Buffered(DateTimeText(dt)) + Flags(dt.fault, dt.summerTime)
  }

  /** The text published for a telegram on the state address. */
  function Published(dpt: TextSensorDpt, data: seq<u8>): string
  {
    match dpt
    case Dpt10 => TimeTextOf(Decode10(data))
    case Dpt11 => DateTextOf(Decode11(data))
    case Dpt19 => DateTimeTextOf(DptIp.Decode19(data))
    case Dpt16 => DptIp.Decode16Spec(data)
  }

  /**
   * Every field of a raw DPT 19 value fits its numeral: a five-digit year
   * at most, three-digit octets at most, so the date and time is 19 to 25
   * characters.
   */
  lemma RawDateTimeLength(dt: DateTime)
    ensures 19 <= |DateTimeText(dt)| <= 25
  {
    FourDigits(dt.year as nat);
    OctetDigits(dt.month as nat);
    OctetDigits(dt.day as nat);
    OctetDigits(dt.hour as nat);
    OctetDigits(dt.minute as nat);
    OctetDigits(dt.second as nat);
  }

  /** The buffer never truncates: every format is published whole. */
  lemma NeverTruncated(dpt: TextSensorDpt, data: seq<u8>)
    ensures dpt == Dpt10 ==> Published(dpt, data) == TimeText(Decode10(data))
    ensures dpt == Dpt11 ==> var d := Decode11(data);
      Published(dpt, data) == DateText(d.year as nat, d.month as nat, d.day as nat)
    ensures dpt == Dpt19 ==> var dt := DptIp.Decode19(data);
      Published(dpt, data) == DateTimeText(dt) + Flags(dt.fault, dt.summerTime)
  {
    match dpt
    case Dpt10 => TimeUnbuffered(Decode10(data));
    case Dpt11 => DateUnbuffered(Decode11(data));
    case Dpt19 => DateTimeUnbuffered(DptIp.Decode19(data));
    case Dpt16 =>
  }

  /** A DPT 10 text is at most 15 characters. */
  lemma TimeUnbuffered(t: TimeOfDay)
    ensures TimeTextOf(t) == TimeText(t)
  {
    OctetDigits(t.hour as nat);
    OctetDigits(t.minute as nat);
    OctetDigits(t.second as nat);
  }

  /** A DPT 11 text is at most 13 characters. */
  lemma DateUnbuffered(d: Date)
    ensures DateTextOf(d) == DateText(d.year as nat, d.month as nat, d.day as nat)
  {
    FourDigits(d.year as nat);
    OctetDigits(d.month as nat);
    OctetDigits(d.day as nat);
  }

  /** A raw DPT 19 text is at most 25 characters. */
  lemma DateTimeUnbuffered(dt: DateTime)
    ensures DateTimeTextOf(dt) == DateTimeText(dt) + Flags(dt.fault, dt.summerTime)
  {
    RawDateTimeLength(dt);
  }

  /** The IP decoder keeps a minute octet of 255; the TP decoder resets it to 0. */
  lemma WideMinuteDecoded()
    ensures DptIp.Decode19([7, 232, 10, 20, 14, 255, 0, 0]) ==
      DateTime(2024, 10, 20, 0, 14, 255, 0, 0, false, false, false, false, false, false, false, false)
    ensures Dpt.Decode19Spec([7, 232, 10, 20, 14, 255, 0, 0]).minute == 0
  {
  }

  /**
   * That minute is printed in three digits, so the published text is one
   * character longer than the `YYYY-MM-DD HH:MM:SS` layout.
   */
  lemma WideMinute()
    ensures |Published(Dpt19, [7, 232, 10, 20, 14, 255, 0, 0])| == 20
  {
    WideMinuteDecoded();
    var dt := DateTime(2024, 10, 20, 0, 14, 255, 0, 0, false, false, false, false, false, false, false, false);
    WideDateTime(dt);
    PublishedDateTime([7, 232, 10, 20, 14, 255, 0, 0]);
  }

  /** A raw DPT 19 text without flags is published at its own length. */
  lemma PublishedDateTime(data: seq<u8>)
    requires |data| >= 8
    requires !DptIp.Decode19(data).fault && !DptIp.Decode19(data).summerTime
    ensures |Published(Dpt19, data)| == |DateTimeText(DptIp.Decode19(data))|
  {
    DateTimeUnbuffered(DptIp.Decode19(data));
  }

  /** The date and the nine-character clock joined by a space. */
  lemma WideDateTime(dt: DateTime)
    requires dt.year == 2024 && dt.month == 10 && dt.day == 20
    requires dt.hour == 14 && dt.minute == 255 && dt.second == 0
    ensures |DateTimeText(dt)| == 20
  {
    DateReadsBack(2024, 10, 20);
    WideClock();
  }

  /** A minute of 255 makes the clock nine characters long. */
  lemma WideClock()
    ensures |Clock(14, 255, 0)| == 9
  {
    TwoDigits(14);
    TwoDigits(0);
    assert |Dec(255)| == 3 by {
      DecLength(255, 3, 1000);
      assert |Dec(25)| == 2 by { assert |Dec(2)| == 1; }
    }
  }

  class TextSensor {
    const knx: KnxIp.Component
    const stateGaId: string
    const dptType: TextSensorDpt
    /** The texts passed to `publish_state`, oldest first. */
    var published: seq<string>

    constructor (knx: KnxIp.Component, stateGaId: string, dptType: TextSensorDpt)
      ensures this.knx == knx && this.stateGaId == stateGaId && this.dptType == dptType
      ensures published == []
    {
      this.knx := knx;
      this.stateGaId := stateGaId;
      this.dptType := dptType;
      published := [];
    }

    /** `on_knx_telegram`: one text for a telegram on the state address, nothing otherwise. */
    method OnKnxTelegram(ga: string, data: seq<u8>)
      modifies this
      ensures old(knx.Resolves(stateGaId, ga)) ==> published == old(published) + [Published(dptType, data)]
      ensures !old(knx.Resolves(stateGaId, ga)) ==> published == old(published)
    {
      var ourGa := knx.GetGroupAddress(stateGaId);
      var ours := ourGa.Some? && ourGa.value.GetAddress() == ga;
      assert ours == knx.Resolves(stateGaId, ga);
      if ours {
        published := published + [Published(dptType, data)];
      }
    }
  }
}
