/**
 * `knx_tp::KNXBinarySensor`: a DPT 1.001 state read from one group
 * address, optionally inverted, with an optional automatic reset to
 * OFF for momentary signals such as motion detectors.
 */
module BinarySensorTp {
  import opened Bytes
  import Dpt
  import KnxTp

  /** What the sensor asks of ESPHome: a published state or a named timeout. */
  datatype Event =
    | Published(state: bool)
    | TimeoutScheduled(name: string, delayMs: u32)

  /** The name the reset timeout is scheduled under; a later one with the same name replaces it. */
  const AutoResetName := "auto_reset"

  /**
   * `update_state_from_knx`: the state after inversion is published, and
   * a reset is scheduled only when an auto-reset time is configured and
   * that state is ON.
   */
  function StateEvents(state: bool, invert: bool, autoResetMs: u32): (r: seq<Event>)
    ensures 1 <= |r| <= 2 && r[0] == Published(state != invert)
    ensures |r| == 2 <==> autoResetMs > 0 && state != invert
    ensures |r| == 2 ==> r[1] == TimeoutScheduled(AutoResetName, autoResetMs)
  {
    var published := if invert then !state else state;
    [Published(published)] +
    (if autoResetMs > 0 && published then [TimeoutScheduled(AutoResetName, autoResetMs)] else [])
  }

  /**
   * A reset is only ever scheduled right behind an ON: the sensor cannot
   * schedule a reset after publishing OFF.
   */
  lemma ResetFollowsOn(state: bool, invert: bool, autoResetMs: u32, i: nat)
    requires i < |StateEvents(state, invert, autoResetMs)|
    requires StateEvents(state, invert, autoResetMs)[i].TimeoutScheduled?
    ensures i == 1 && StateEvents(state, invert, autoResetMs)[0] == Published(true)
  {
  }

  class BinarySensor {
    /** The component is set before the sensor is registered, so it is never null here. */
    const knx: KnxTp.Component
    var stateGaId: string
    var invert: bool
    var autoResetMs: u32
    var events: seq<Event>

    constructor (knx: KnxTp.Component, stateGaId: string, invert: bool, autoResetMs: u32)
      ensures this.knx == knx && this.stateGaId == stateGaId && this.invert == invert
      ensures this.autoResetMs == autoResetMs && events == []
    {
      this.knx := knx;
      this.stateGaId := stateGaId;
      this.invert := invert;
      this.autoResetMs := autoResetMs;
      events := [];
    }

    /** `update_state_from_knx`. */
    method UpdateStateFromKnx(state: bool)
      modifies this
      ensures stateGaId == old(stateGaId) && invert == old(invert) && autoResetMs == old(autoResetMs)
      ensures events == old(events) + StateEvents(state, invert, autoResetMs)
    {
      var s := state;
      if invert {
        s := !s;
      }
      events := events + [Published(s)];
      if autoResetMs > 0 && s {
        events := events + [TimeoutScheduled(AutoResetName, autoResetMs)];
      }
    }

    /**
     * `on_knx_telegram`: a telegram on the address the state id resolves
     * to is decoded as DPT 1 and handed to `UpdateStateFromKnx`; any other
     * telegram, or an id that does not resolve, changes nothing.
     */
    method OnKnxTelegram(ga: string, data: seq<u8>)
      modifies this
      ensures stateGaId == old(stateGaId) && invert == old(invert) && autoResetMs == old(autoResetMs)
      ensures old(knx.Resolves(stateGaId, ga)) ==> events == old(events) + StateEvents(Dpt.Decode1(data), invert, autoResetMs)
      ensures !old(knx.Resolves(stateGaId, ga)) ==> events == old(events)
    {
      var ourGa := knx.GetGroupAddress(stateGaId);
      if ourGa.None? || knx.render(ourGa.value.address) != ga {
        return;
      }
      UpdateStateFromKnx(Dpt.Decode1(data));
    }

    /** The scheduled reset firing: OFF is published, nothing is decoded again. */
    method AutoResetFired()
      modifies this
      ensures stateGaId == old(stateGaId) && invert == old(invert) && autoResetMs == old(autoResetMs)
      ensures events == old(events) + [Published(false)]
    {
      events := events + [Published(false)];
    }
  }
}
