/**
 * `knx_ip::KNXSensor` (components/knx_ip/sensor.cpp): a non-empty
 * telegram on the sensor's state address is decoded with the decoder its
 * sensor type selects, and the value is published.
 *
 * The published value is a float in the source; here it is the decoder's
 * exact result (see `Reading`).
 */
module SensorIp {
  import opened Wrappers
  import opened Bytes
  import opened Dpt
  import KnxIp

  /** `KNXSensorType`. */
  datatype SensorType =
    | Temperature | Humidity | Brightness | Pressure | Percentage | Angle
    | Generic1Byte | Generic2Byte | Generic4Byte

  /**
   * A decoded value: a DPT 9 float as mantissa and exponent, a DPT 5.001
   * or 5.003 value as a real, a raw DPT 5 octet, or the IEEE 754 bit
   * pattern of a DPT 14 float.
   */
  datatype Reading =
    | Float2(f: Float16)
    | Scaled(value: real)
    | Octet(n: u8)
    | Float4(bits: u32)

  /** The types read as DPT 9 2-octet floats. */
  predicate IsDpt9(t: SensorType)
  {
    t == Temperature || t == Humidity || t == Brightness || t == Pressure || t == Generic2Byte
  }

  /** The payload width the selected decoder needs. */
  function Width(t: SensorType): (n: nat)
    ensures n in {1, 2, 4}
  {
    if IsDpt9(t) then 2 else if t == Generic4Byte then 4 else 1
  }

  /** What a decoder returns when the payload is too short: zero. */
  predicate IsZero(r: Reading)
  {
    match r
    case Float2(f) => Hundredths(f) == 0
    case Scaled(v) => v == 0.0
    case Octet(n) => n == 0
    case Float4(bits) => bits == 0
  }

  /** The decoder the `switch` selects for a sensor type. */
  function Decode(t: SensorType, data: seq<u8>): (r: Reading)
    ensures IsDpt9(t) <==> r.Float2?
    ensures t == Percentage || t == Angle <==> r.Scaled?
    ensures t == Generic1Byte <==> r.Octet?
    ensures t == Generic4Byte <==> r.Float4?
  {
    match t
    case Temperature => Float2(Decode9(data))
    case Humidity => Float2(Decode9(data))
    case Brightness => Float2(Decode9(data))
    case Pressure => Float2(Decode9(data))
    case Generic2Byte => Float2(Decode9(data))
    case Percentage => Scaled(Decode5Percentage(data))
    case Angle => Scaled(Decode5Angle(data))
    case Generic1Byte => Octet(Decode5(data))
    case Generic4Byte => Float4(Decode14(data))
  }

  /**
   * A non-empty payload shorter than the selected decoder needs is not
   * rejected: it decodes to that decoder's zero.
   */
  lemma {:induction false} ShortPayloadIsZero(t: SensorType, data: seq<u8>)
    requires |data| < Width(t)
    ensures IsZero(Decode(t, data))
  {
    if IsDpt9(t) {
      assert Decode9(data) == Float16(0, 0);
      assert Hundredths(Float16(0, 0)) == 0 * Pow2(0);
    }
  }

  /** A payload of the full width is read from its first octets, whatever follows. */
  lemma {:induction false} ExtraOctetsIgnored(t: SensorType, data: seq<u8>, extra: seq<u8>)
    requires |data| == Width(t)
    ensures Decode(t, data + extra) == Decode(t, data)
  {
    var whole := data + extra;
    if IsDpt9(t) {
      assert whole[0] == data[0] && whole[1] == data[1];
    } else if t == Generic4Byte {
      assert whole[..4] == data;
    } else {
      assert whole[0] == data[0];
    }
  }

  /** `sensor_type_to_string`: the name and DPT shown in the configuration dump. */
  function SensorTypeToString(t: SensorType): (r: string)
    ensures r != "Unknown"
  {
    match t
    case Temperature => "Temperature (DPT 9.001)"
    case Humidity => "Humidity (DPT 9.007)"
    case Brightness => "Brightness (DPT 9.004)"
    case Pressure => "Pressure (DPT 9.006)"
    case Percentage => "Percentage (DPT 5.001)"
    case Angle => "Angle (DPT 5.003)"
    case Generic1Byte => "Generic 1-byte (DPT 5.xxx)"
    case Generic2Byte => "Generic 2-byte (DPT 9.xxx)"
    case Generic4Byte => "Generic 4-byte (DPT 14.xxx)"
  }

  /** The sensor type a configuration-dump name stands for. */
  function SensorTypeOfString(s: string): (r: Option<SensorType>)
  {
    if s == "Temperature (DPT 9.001)" then Some(Temperature)
    else if s == "Humidity (DPT 9.007)" then Some(Humidity)
    else if s == "Brightness (DPT 9.004)" then Some(Brightness)
    else if s == "Pressure (DPT 9.006)" then Some(Pressure)
    else if s == "Percentage (DPT 5.001)" then Some(Percentage)
    else if s == "Angle (DPT 5.003)" then Some(Angle)
    else if s == "Generic 1-byte (DPT 5.xxx)" then Some(Generic1Byte)
    else if s == "Generic 2-byte (DPT 9.xxx)" then Some(Generic2Byte)
    else if s == "Generic 4-byte (DPT 14.xxx)" then Some(Generic4Byte)
    else None
  }

  /** Every sensor type has its own name: the name reads back as the type. */
  lemma NamesDistinct(t: SensorType)
    ensures SensorTypeOfString(SensorTypeToString(t)) == Some(t)
  {
  }

  class Sensor {
    const knx: KnxIp.Component
    const stateGaId: string
    const sensorType: SensorType
    /** The values passed to `publish_state`, oldest first. */
    var published: seq<Reading>

    /** The default sensor type is the generic 2-octet float. */
    constructor (knx: KnxIp.Component, stateGaId: string, sensorType: SensorType)
      ensures this.knx == knx && this.stateGaId == stateGaId && this.sensorType == sensorType
      ensures published == []
    {
      this.knx := knx;
      this.stateGaId := stateGaId;
      this.sensorType := sensorType;
      published := [];
    }

    /**
     * `on_knx_telegram`: another address or an empty payload publishes
     * nothing; otherwise exactly one decoded value is published.
     */
    method OnKnxTelegram(ga: string, data: seq<u8>)
      modifies this
      ensures old(knx.Resolves(stateGaId, ga)) && data != [] ==> published == old(published) + [Decode(sensorType, data)]
      ensures !old(knx.Resolves(stateGaId, ga)) || data == [] ==> published == old(published)
    {
      var ourGa := knx.GetGroupAddress(stateGaId);
      var ours := ourGa.Some? && ourGa.value.GetAddress() == ga;
      assert ours == knx.Resolves(stateGaId, ga);
      if ours && |data| != 0 {
        published := published + [Decode(sensorType, data)];
      }
    }
  }
}
