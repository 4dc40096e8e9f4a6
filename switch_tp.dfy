/**
 * `knx_tp::KNXSwitch`: a switch whose command goes out as a DPT 1.001
 * group write and whose state may come back on a feedback address.
 */
module SwitchTp {
  import opened Bytes
  import Dpt
  import KnxTp

  /** The payload written for a requested state: the state, inverted if configured. */
  function Command(state: bool, invert: bool): (r: seq<u8>)
    ensures |r| == 1 && Dpt.Decode1(r) == (state != invert)
  {
    Dpt.Encode1(state != invert)
  }

  /** The state a feedback payload stands for: its DPT 1 bit, inverted if configured. */
  function Feedback(data: seq<u8>, invert: bool): (r: bool)
    ensures data == [] ==> r == invert
  {
    Dpt.Decode1(data) != invert
  }

  /** The byte a switch writes, echoed back on its feedback address, reads as the state written. */
  lemma EchoIsWrittenState(state: bool, invert: bool)
    ensures Feedback(Command(state, invert), invert) == state
  {
    Dpt.Dpt1RoundTrip(state != invert, Command(state, invert));
  }

  class Switch {
    var knx: KnxTp.Component?
    var commandGaId: string
    var stateGaId: string
    var invert: bool
    /** The states handed to `publish_state`, oldest first. */
    var published: seq<bool>

    constructor (knx: KnxTp.Component?, commandGaId: string, stateGaId: string, invert: bool)
      ensures this.knx == knx && this.commandGaId == commandGaId && this.stateGaId == stateGaId
      ensures this.invert == invert && published == []
    {
      this.knx := knx;
      this.commandGaId := commandGaId;
      this.stateGaId := stateGaId;
      this.invert := invert;
      published := [];
    }

    /**
     * `write_state`: without a KNX component nothing happens; otherwise
     * the (possibly inverted) state is written to the command address
     * and the requested state itself is published.
     */
    method WriteState(state: bool)
      modifies this, knx
      ensures knx == old(knx) && commandGaId == old(commandGaId) && stateGaId == old(stateGaId)
      ensures invert == old(invert)
      ensures knx == null ==> published == old(published)
      ensures knx != null ==> published == old(published) + [state]
      ensures knx != null ==> knx.sent == old(knx.sent) + old(knx.Request(commandGaId, Command(state, invert)))
      ensures knx != null ==> knx.OnlySent()
    {
      if knx == null {
        return;
      }
      var data := Command(state, invert);
      knx.SendGroupWrite(commandGaId, data);
      published := published + [state];
    }

    /**
     * `on_knx_telegram`: with a feedback address configured, a telegram
     * on the address it resolves to publishes the decoded, possibly
     * inverted, state; every other telegram is ignored. The component is
     * dereferenced without a null check whenever a feedback id is set.
     */
    method OnKnxTelegram(ga: string, data: seq<u8>)
      requires stateGaId != "" ==> knx != null
      modifies this
      ensures knx == old(knx) && commandGaId == old(commandGaId) && stateGaId == old(stateGaId)
      ensures invert == old(invert)
      ensures stateGaId != "" && old(knx.Resolves(stateGaId, ga)) ==> published == old(published) + [Feedback(data, invert)]
      ensures !(stateGaId != "" && old(knx.Resolves(stateGaId, ga))) ==> published == old(published)
    {
      if stateGaId != "" {
        var stateGa := knx.GetGroupAddress(stateGaId);
        if stateGa.Some? && knx.render(stateGa.value.address) == ga {
          published := published + [Feedback(data, invert)];
        }
      }
    }
  }
}
