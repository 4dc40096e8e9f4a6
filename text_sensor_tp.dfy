/**
 * `knx_tp::KNXTextSensor` (components/knx_tp/text_sensor.cpp): a
 * telegram on the sensor's state address is decoded as DPT 10, 11, 19 or
 * 16 and published as one text. The three `snprintf` formats are checked
 * against the 64-byte buffer and replaced by "ERROR" when they would not
 * fit; the lemmas here show that, given the decoders' ranges, they always
 * fit.
 */
module TextSensorTp {
  import opened Bytes
  import opened Text
  import opened Dpt
  import opened TextFormat
  import KnxTp

  /** `TextSensorDPT`; anything but 10, 11 and 19 is handled as DPT 16. */
  datatype TextSensorDpt = Dpt16 | Dpt10 | Dpt11 | Dpt19

  /** The size of the local formatting buffer, terminator included. */
  const BufferSize := 64

  /** A formatted text, or "ERROR" when `snprintf` reports that it needs the whole buffer or more. */
  function Checked(written: string): (r: string)
    ensures |written| < BufferSize ==> r == written
    ensures |written| >= BufferSize ==> r == "ERROR"
  {
    if |written| >= BufferSize then "ERROR" else written
  }

  /** The DPT 19 text: the checked date and time, then the flag suffix when it fitted. */
  function DateTimeTextOf(dt: DateTime): (r: string)
    ensures |DateTimeText(dt)| >= BufferSize ==> r == "ERROR"
    ensures |DateTimeText(dt)| < BufferSize ==> r == DateTimeText(dt) + Flags(dt.fault, dt.summerTime)
  {
    var written := DateTimeText(dt);
    if |written| >= BufferSize then "ERROR" else written + Flags(dt.fault, dt.summerTime)
  }

  /** The text published for a telegram on the state address. */
  function Published(dpt: TextSensorDpt, data: seq<u8>): string
  {
    match dpt
    case Dpt10 => Checked(TimeText(Decode10(data)))
    case Dpt11 =>
      var date := Decode11(data);
      Checked(DateText(date.year as nat, date.month as nat, date.day as nat))
    case Dpt19 => DateTimeTextOf(Decode19Spec(data))
    case Dpt16 => Decode16Spec(data)
  }

  /**
   * DPT 10: the decoder's fields are at most two digits, so the text is
   * the bare clock (8 characters) or a day name and the clock (12); the
   * clock reads back as the decoded fields (`ClockReadsBack`).
   */
  lemma TimeFits(data: seq<u8>)
    ensures var t, r := Decode10(data), Published(Dpt10, data);
      var clock := Clock(t.hour as nat, t.minute as nat, t.second as nat);
      |clock| == 8 && r == TimeText(t) &&
      |r| == (if 1 <= t.dayOfWeek <= 7 then 12 else 8) && r[|r| - 8..] == clock
  {
    var t := Decode10(data);
    ClockReadsBack(t.hour as nat, t.minute as nat, t.second as nat);
  }

  /**
   * DPT 11: the year is four digits and the month and day two or three,
   * so the text is the unchecked `YYYY-MM-DD` of the decoded date, ten
   * to twelve characters long.
   */
  lemma DateFits(data: seq<u8>)
    ensures var d, r := Decode11(data), Published(Dpt11, data);
      10 <= |r| <= 12 && r == DateText(d.year as nat, d.month as nat, d.day as nat)
  {
    var d := Decode11(data);
    DateTextLength(d.year as nat, d.month as nat, d.day as nat);
  }

  /** A four-digit year with octet month and day gives ten to twelve characters. */
  lemma DateTextLength(year: nat, month: nat, day: nat)
    requires year < 10000 && month < 256 && day < 256
    ensures 10 <= |DateText(year, month, day)| <= 12
  {
    FourDigits(year);
    OctetDigits(month);
    OctetDigits(day);
  }

  /**
   * A validated date and time takes exactly 19 characters, so it is kept
   * and followed by " [FAULT]" exactly when the fault flag is set and
   * " [DST]" exactly when summer time is.
   */
  lemma ValidDateTimeText(dt: DateTime)
    requires ValidDateTime(dt)
    ensures var r := DateTimeTextOf(dt);
      |DateTimeText(dt)| == 19 &&
      |r| == 19 + (if dt.fault then 8 else 0) + (if dt.summerTime then 6 else 0) &&
      r[..19] == DateTimeText(dt) && r[19..] == Flags(dt.fault, dt.summerTime)
  {
    DateReadsBack(dt.year as nat, dt.month as nat, dt.day as nat);
    ClockReadsBack(dt.hour as nat, dt.minute as nat, dt.second as nat);
    var text, flags := DateTimeText(dt), Flags(dt.fault, dt.summerTime);
    assert (text + flags)[..19] == text && (text + flags)[19..] == flags;
  }

  /** DPT 19: the decoder validates its fields, so `ValidDateTimeText` applies to every payload. */
  lemma DecodedDateTimeValid(data: seq<u8>)
    ensures ValidDateTime(Decode19Spec(data))
  {
    if |data| == 8 {
      var raw := RawDateTime(data);
      RepairedValid(raw);
    }
  }

  /** The "ERROR" replacement never happens: every published text fits the buffer. */
  lemma PublishedFits(dpt: TextSensorDpt, data: seq<u8>)
    ensures |Published(dpt, data)| < BufferSize
    ensures dpt != Dpt16 ==> Published(dpt, data) != "ERROR"
  {
    match dpt
    case Dpt10 => TimeFits(data);
    case Dpt11 => DateFits(data);
    case Dpt19 =>
      DecodedDateTimeValid(data);
      ValidDateTimeText(Decode19Spec(data));
    case Dpt16 => assert |Decode16Spec(data)| <= MaxDpt16Length;
  }

  class TextSensor {
    const knx: KnxTp.Component?
    const stateGaId: string
    const dptType: TextSensorDpt
    /** The texts passed to `publish_state`, oldest first. */
    var published: seq<string>

    constructor (knx: KnxTp.Component?, stateGaId: string, dptType: TextSensorDpt)
      ensures this.knx == knx && this.stateGaId == stateGaId && this.dptType == dptType
      ensures published == []
    {
      this.knx := knx;
      this.stateGaId := stateGaId;
      this.dptType := dptType;
      published := [];
    }

    /**
     * `on_knx_telegram`: without a KNX component, or for another address,
     * nothing is published; otherwise exactly one text.
     */
    method OnKnxTelegram(ga: string, data: seq<u8>)
      modifies this
      ensures knx != null && old(knx.Resolves(stateGaId, ga)) ==> published == old(published) + [Published(dptType, data)]
      ensures !(knx != null && old(knx.Resolves(stateGaId, ga))) ==> published == old(published)
    {
      if knx == null {
        return;
      }
      if knx.Resolves(stateGaId, ga) {
        var text: string;
        match dptType {
          case Dpt10 =>
            text := Checked(TimeText(Decode10(data)));
          case Dpt11 =>
            var date := Decode11(data);
            text := Checked(DateText(date.year as nat, date.month as nat, date.day as nat));
          case Dpt19 =>
            var dt := Dpt.Decode19(data);
            text := DateTimeTextOf(dt);
          case Dpt16 =>
            text := Dpt.Decode16(data);
        }
        published := published + [text];
      }
    }
  }
}
