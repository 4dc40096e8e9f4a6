/**
 * `knx_tp::KNXClimate`: a thermostat whose current temperature,
 * setpoint, HVAC mode, heating/cooling activity and presets travel on
 * separate group addresses.
 *
 * Temperatures are kept in hundredths of a degree, the scale the DPT 9
 * codec works in; a temperature that was never set is `NonFinite`, as
 * ESPHome starts it at NaN.
 */
module ClimateTp {
  import opened Wrappers
  import opened Bytes
  import Dpt
  import KnxTp
  import GroupAddressTp

  /** ESPHome's `ClimateMode`. */
  datatype ClimateMode = Off | HeatCool | Cool | Heat | FanOnly | Dry | Auto

  /** ESPHome's `ClimateAction`. */
  datatype ClimateAction = ActionOff | Cooling | Heating | Idle | Drying | Fan

  /** ESPHome's `ClimatePreset`. */
  datatype ClimatePreset = NoPreset | Home | Away | Boost | Comfort | Eco | Sleep | Activity

  /**
   * `hvac_mode_to_climate_mode_`: standby is OFF, comfort, night and
   * frost protection are HEAT, and auto or any unknown ordinal is AUTO.
   */
  function HvacToClimateMode(hvac: u8): (r: ClimateMode)
    ensures r == Off <==> hvac == 2
    ensures r == Heat <==> hvac == 1 || hvac == 3 || hvac == 4
    ensures r == Auto <==> hvac == 0 || hvac > 4
  {
    match hvac
    case 0 => Auto
    case 1 => Heat
    case 2 => Off
    case 3 => Heat
    case 4 => Heat
    case _ => Auto
  }

  /**
   * `climate_mode_to_hvac_mode_`: OFF is standby, HEAT and COOL are both
   * comfort, everything else is auto; always a valid DPT 20.102 ordinal.
   */
  function ClimateModeToHvac(mode: ClimateMode): (r: u8)
    ensures r <= 2
    ensures r == 2 <==> mode == Off
    ensures r == 1 <==> mode == Heat || mode == Cool
  {
    match mode
    case Auto => 0
    case Heat => 1
    case Cool => 1
    case Off => 2
    case _ => 0
  }

  /** `static_cast<DPT::HVACMode>` of an ordinal in range. */
  function HvacOfOrdinal(n: u8): (r: Dpt.HvacMode)
    requires n <= 4
    ensures Dpt.HvacOrdinal(r) == n
  {
    match n
    case 0 => Dpt.Auto
    case 1 => Dpt.Comfort
    case 2 => Dpt.Standby
    case 3 => Dpt.Night
    case 4 => Dpt.FrostProtection
  }

  /** The DPT 20.102 payload `send_mode_` writes for a climate mode. */
  function ModePayload(mode: ClimateMode): (r: seq<u8>)
    ensures |r| == 1 && r[0] == ClimateModeToHvac(mode)
  {
    Dpt.Encode20(HvacOfOrdinal(ClimateModeToHvac(mode)))
  }

  /** The mode a mode feedback payload sets. */
  function ModeOfFeedback(data: seq<u8>): ClimateMode
  {
    HvacToClimateMode(Dpt.HvacOrdinal(Dpt.Decode20(data)))
  }

  /**
   * A mode sent and echoed back on the mode address: OFF, HEAT and AUTO
   * return unchanged, COOL comes back as HEAT (both map to comfort), and
   * every other mode comes back as AUTO.
   */
  lemma ModeEcho(mode: ClimateMode)
    ensures ModeOfFeedback(ModePayload(mode)) ==
      if mode == Cool then Heat
      else if mode == Off || mode == Heat then mode
      else Auto
  {
    Dpt.Dpt20RoundTrip(HvacOfOrdinal(ClimateModeToHvac(mode)), []);
  }

  /** A decoded DPT 9 value on the hundredths scale; the scale is exact. */
  function Temperature(f: Dpt.Float16): (r: Dpt.FloatInput)
    ensures r.Finite? && r.hundredths == f.mantissa * Pow2(f.exponent)
  {
    Dpt.Finite(Dpt.Hundredths(f))
  }

  /**
   * The action feedback rule: an active bit means HEATING in HEAT mode
   * and COOLING in COOL mode; otherwise, and for an inactive bit, IDLE.
   */
  function ActionFor(active: bool, mode: ClimateMode): (r: ClimateAction)
    ensures r == Heating <==> active && mode == Heat
    ensures r == Cooling <==> active && mode == Cool
    ensures r == Idle <==> !active || (mode != Heat && mode != Cool)
  {
    if active then
      if mode == Heat then Heating
      else if mode == Cool then Cooling
      else Idle
    else Idle
  }

  /** The state ESPHome sees through `publish_state()`. */
  datatype ClimateState = ClimateState(
    currentTemperature: Dpt.FloatInput, targetTemperature: Dpt.FloatInput,
    mode: ClimateMode, action: ClimateAction, preset: Option<ClimatePreset>)

  /** Which configured address a telegram was recognised on. */
  datatype Role =
    | CurrentTemperature
    | Setpoint
    | ModeFeedback
    | ActionFeedback
    | PresetFeedback(preset: ClimatePreset)
    | Unrelated

  /**
   * The effect of a telegram of `role` on the state: each role changes
   * its own field and nothing else; an OFF on a preset address and an
   * unrelated telegram change nothing.
   */
  function Apply(state: ClimateState, role: Role, data: seq<u8>): (r: ClimateState)
    ensures role.Unrelated? ==> r == state
    ensures role.PresetFeedback? && !Dpt.Decode1(data) ==> r == state
    ensures !role.CurrentTemperature? ==> r.currentTemperature == state.currentTemperature
    ensures !role.Setpoint? ==> r.targetTemperature == state.targetTemperature
    ensures !role.ModeFeedback? ==> r.mode == state.mode
    ensures !role.ActionFeedback? ==> r.action == state.action
    ensures !role.PresetFeedback? ==> r.preset == state.preset
    ensures role.ActionFeedback? ==> r.action == ActionFor(Dpt.Decode1(data), state.mode)
    ensures role.PresetFeedback? && Dpt.Decode1(data) ==> r.preset == Some(role.preset)
  {
    match role
    case CurrentTemperature => state.(currentTemperature := Temperature(Dpt.Decode9(data)))
    case Setpoint => state.(targetTemperature := Temperature(Dpt.Decode9(data)))
    case ModeFeedback => state.(mode := ModeOfFeedback(data))
    case ActionFeedback => state.(action := ActionFor(Dpt.Decode1(data), state.mode))
    case PresetFeedback(p) => if Dpt.Decode1(data) then state.(preset := Some(p)) else state
    case Unrelated => state
  }

  /** Whether a telegram of `role` ends in `publish_state()`: all but a preset OFF and an unrelated one. */
  predicate Publishes(role: Role, data: seq<u8>)
  {
    match role
    case PresetFeedback(_) => Dpt.Decode1(data)
    case Unrelated => false
    case _ => true
  }

  /** The address id of a selectable preset, if the preset has one. */
  function PresetGaId(preset: ClimatePreset, comfort: string, eco: string, away: string, sleep: string): (r: Option<string>)
    ensures r.Some? <==> preset in {Comfort, Eco, Away, Sleep}
  {
    match preset
    case Comfort => Some(comfort)
    case Eco => Some(eco)
    case Away => Some(away)
    case Sleep => Some(sleep)
    case _ => None
  }

  /** An OFF write to a preset address, if it is configured. */
  function PresetOff(id: string): (r: seq<KnxTp.Write>)
    ensures |r| <= 1 && (r != [] <==> id != "")
    ensures r != [] ==> r[0] == KnxTp.Write(id, Dpt.Encode1(false))
  {
    if id != "" then [KnxTp.Write(id, Dpt.Encode1(false))] else []
  }

  /** Every write is an OFF to a configured address. */
  predicate AllOff(w: seq<KnxTp.Write>)
  {
    forall i :: 0 <= i < |w| ==> w[i].data == Dpt.Encode1(false) && w[i].id != ""
  }

  lemma AllOffAppend(a: seq<KnxTp.Write>, b: seq<KnxTp.Write>)
    requires AllOff(a) && AllOff(b)
    ensures AllOff(a + b)
  {
    assert forall i :: |a| <= i < |a + b| ==> (a + b)[i] == b[i - |a|];
  }

  /** The number of configured preset addresses. */
  function Configured(comfort: string, eco: string, away: string, sleep: string): (n: nat)
    ensures n <= 4
  {
    (if comfort != "" then 1 else 0) + (if eco != "" then 1 else 0) +
    (if away != "" then 1 else 0) + (if sleep != "" then 1 else 0)
  }

  /** The OFFs of `send_preset_`: one per configured address, in the order comfort, eco, away, sleep. */
  function OffWrites(comfort: string, eco: string, away: string, sleep: string): (r: seq<KnxTp.Write>)
    ensures |r| == Configured(comfort, eco, away, sleep) && AllOff(r)
  {
    AllOffAppend(PresetOff(comfort), PresetOff(eco));
    AllOffAppend(PresetOff(comfort) + PresetOff(eco), PresetOff(away));
    AllOffAppend(PresetOff(comfort) + PresetOff(eco) + PresetOff(away), PresetOff(sleep));
    PresetOff(comfort) + PresetOff(eco) + PresetOff(away) + PresetOff(sleep)
  }

  /** The ON of `send_preset_`: to the selected preset's address when it has one and it is configured. */
  function OnWrite(selected: Option<string>): (r: seq<KnxTp.Write>)
    ensures |r| <= 1
    ensures r != [] <==> selected.Some? && selected.value != ""
    ensures r != [] ==> r[0] == KnxTp.Write(selected.value, Dpt.Encode1(true))
  {
    if selected.Some? && selected.value != "" then [KnxTp.Write(selected.value, Dpt.Encode1(true))] else []
  }

  /** `send_preset_`: the OFFs, then the ON. */
  function PresetWrites(preset: ClimatePreset, comfort: string, eco: string, away: string, sleep: string): seq<KnxTp.Write>
  {
    OffWrites(comfort, eco, away, sleep) + OnWrite(PresetGaId(preset, comfort, eco, away, sleep))
  }

  /**
   * The preset writes hold one OFF per configured preset address and at
   * most one ON: it is present exactly when the selected preset has a
   * configured address, it goes to that address, and it comes last.
   */
  lemma PresetWritesShape(preset: ClimatePreset, comfort: string, eco: string, away: string, sleep: string)
    ensures var w := PresetWrites(preset, comfort, eco, away, sleep);
      var n := Configured(comfort, eco, away, sleep);
      var selected := PresetGaId(preset, comfort, eco, away, sleep);
      var on := selected.Some? && selected.value != "";
      |w| == n + (if on then 1 else 0) && AllOff(w[..n]) &&
      (on ==> w[n] == KnxTp.Write(selected.value, Dpt.Encode1(true)))
  {
    var offs := OffWrites(comfort, eco, away, sleep);
    var w := PresetWrites(preset, comfort, eco, away, sleep);
    assert w[..|offs|] == offs;
  }

  /** The OFFs sent in two pairs, then the ON, send what the preset writes send. */
  lemma PresetSentInSteps(targets: map<string, string>, preset: ClimatePreset,
                          comfort: string, eco: string, away: string, sleep: string,
                          s0: seq<KnxTp.Telegram>, s1: seq<KnxTp.Telegram>, s2: seq<KnxTp.Telegram>, s3: seq<KnxTp.Telegram>)
    requires s1 == s0 + KnxTp.Sends(targets, PresetOff(comfort) + PresetOff(eco))
    requires s2 == s1 + KnxTp.Sends(targets, PresetOff(away) + PresetOff(sleep))
    requires s3 == s2 + KnxTp.Sends(targets, OnWrite(PresetGaId(preset, comfort, eco, away, sleep)))
    ensures s3 == s0 + KnxTp.Sends(targets, PresetWrites(preset, comfort, eco, away, sleep))
  {
    var front, back := PresetOff(comfort) + PresetOff(eco), PresetOff(away) + PresetOff(sleep);
    assert front + back == OffWrites(comfort, eco, away, sleep);
    KnxTp.SentInThreeSteps(targets, front, back, OnWrite(PresetGaId(preset, comfort, eco, away, sleep)), s0, s1, s2, s3);
  }

  /** A requested change: each part is optional. */
  datatype ClimateCall = ClimateCall(
    targetTemperature: Option<Dpt.FloatInput>, mode: Option<ClimateMode>, preset: Option<ClimatePreset>)

  class Climate {
    const knx: KnxTp.Component?
    const temperatureGaId: string
    const setpointGaId: string
    const modeGaId: string
    const actionGaId: string
    const comfortGaId: string
    const ecoGaId: string
    const awayGaId: string
    const sleepGaId: string

    var currentTemperature: Dpt.FloatInput
    var targetTemperature: Dpt.FloatInput
    var mode: ClimateMode
    var action: ClimateAction
    var preset: Option<ClimatePreset>
    /** Every state handed to `publish_state()`, oldest first. */
    var published: seq<ClimateState>

    constructor (knx: KnxTp.Component?, temperatureGaId: string, setpointGaId: string,
                 modeGaId: string, actionGaId: string,
                 comfortGaId: string, ecoGaId: string, awayGaId: string, sleepGaId: string)
      ensures this.knx == knx && this.temperatureGaId == temperatureGaId && this.setpointGaId == setpointGaId
      ensures this.modeGaId == modeGaId && this.actionGaId == actionGaId
      ensures this.comfortGaId == comfortGaId && this.ecoGaId == ecoGaId
      ensures this.awayGaId == awayGaId && this.sleepGaId == sleepGaId
      ensures State() == ClimateState(Dpt.NonFinite, Dpt.NonFinite, Off, ActionOff, None)
      ensures published == []
    {
      this.knx := knx;
      this.temperatureGaId := temperatureGaId;
      this.setpointGaId := setpointGaId;
      this.modeGaId := modeGaId;
      this.actionGaId := actionGaId;
      this.comfortGaId := comfortGaId;
      this.ecoGaId := ecoGaId;
      this.awayGaId := awayGaId;
      this.sleepGaId := sleepGaId;
      currentTemperature := Dpt.NonFinite;
      targetTemperature := Dpt.NonFinite;
      mode := Off;
      action := ActionOff;
      preset := None;
      published := [];
    }

    function State(): ClimateState
      reads this
    {
      ClimateState(currentTemperature, targetTemperature, mode, action, preset)
    }

    /**
     * The role of a telegram on `ga`: the first of temperature, setpoint,
     * mode, action, comfort, eco, away, sleep whose id resolves to `ga`.
     * Temperature and setpoint are looked up even when their id is empty;
     * the other ids are skipped when empty.
     */
    function RoleOf(ga: string): (r: Role)
      requires knx != null
      reads knx, knx.gaLookup.Values
      ensures knx.Resolves(temperatureGaId, ga) ==> r == CurrentTemperature
      ensures r.ModeFeedback? ==> modeGaId != ""
      ensures r.ActionFeedback? ==> actionGaId != ""
      ensures r.PresetFeedback? ==> PresetGaId(r.preset, comfortGaId, ecoGaId, awayGaId, sleepGaId).Some?
      ensures r.PresetFeedback? ==> knx.Resolves(PresetGaId(r.preset, comfortGaId, ecoGaId, awayGaId, sleepGaId).value, ga)
    {
      if knx.Resolves(temperatureGaId, ga) then CurrentTemperature
      else if knx.Resolves(setpointGaId, ga) then Setpoint
      else if modeGaId != "" && knx.Resolves(modeGaId, ga) then ModeFeedback
      else if actionGaId != "" && knx.Resolves(actionGaId, ga) then ActionFeedback
      else if PresetMatch(ga).Some? then PresetFeedback(PresetMatch(ga).value)
      else Unrelated
    }

    /**
     * The preset of the first of comfort, eco, away and sleep whose
     * address id is configured and resolves to `ga`.
     */
    function PresetMatch(ga: string): (r: Option<ClimatePreset>)
      requires knx != null
      reads knx, knx.gaLookup.Values
      ensures r.Some? ==> PresetGaId(r.value, comfortGaId, ecoGaId, awayGaId, sleepGaId).Some?
      ensures r.Some? ==> var id := PresetGaId(r.value, comfortGaId, ecoGaId, awayGaId, sleepGaId).value;
        id != "" && knx.Resolves(id, ga)
      ensures r.None? ==> forall id :: id in [comfortGaId, ecoGaId, awayGaId, sleepGaId] ==> !(id != "" && knx.Resolves(id, ga))
    {
      if comfortGaId != "" && knx.Resolves(comfortGaId, ga) then Some(Comfort)
      else if ecoGaId != "" && knx.Resolves(ecoGaId, ga) then Some(Eco)
      else if awayGaId != "" && knx.Resolves(awayGaId, ga) then Some(Away)
      else if sleepGaId != "" && knx.Resolves(sleepGaId, ga) then Some(Sleep)
      else None
    }

    /**
     * `on_knx_telegram`: without a component nothing happens; otherwise
     * the telegram's role decides the one field that changes, and the
     * new state is published unless the telegram was unrelated or a
     * preset OFF.
     */
    method OnKnxTelegram(ga: string, data: seq<u8>)
      modifies this
      ensures knx == null ==> State() == old(State()) && published == old(published)
      ensures knx != null ==> State() == Apply(old(State()), RoleOf(ga), data)
      ensures knx != null && Publishes(RoleOf(ga), data) ==> published == old(published) + [State()]
      ensures knx != null && !Publishes(RoleOf(ga), data) ==> published == old(published)
    {
      if knx == null {
        return;
      }
      if knx.Resolves(temperatureGaId, ga) {
        currentTemperature := Temperature(Dpt.Decode9(data));
        published := published + [State()];
        return;
      }
      if knx.Resolves(setpointGaId, ga) {
        targetTemperature := Temperature(Dpt.Decode9(data));
        published := published + [State()];
        return;
      }
      if modeGaId != "" && knx.Resolves(modeGaId, ga) {
        mode := ModeOfFeedback(data);
        published := published + [State()];
        return;
      }
      if actionGaId != "" && knx.Resolves(actionGaId, ga) {
        action := ActionFor(Dpt.Decode1(data), mode);
        published := published + [State()];
        return;
      }
      // `check_preset` on comfort, eco, away and sleep in turn; the first
      // match consumes the telegram, and only an ON selects the preset.
      var matched := PresetMatch(ga);
      if matched.Some? && Dpt.Decode1(data) {
        preset := matched;
        published := published + [State()];
      }
    }

    /** The write `send_temperature_` asks for. */
    function TemperatureWrites(temperature: Dpt.FloatInput): (r: seq<KnxTp.Write>)
      ensures knx == null ==> r == []
      ensures knx != null ==> r == [KnxTp.Write(setpointGaId, Dpt.Dpt9Payload(temperature))]
    {
      if knx != null then [KnxTp.Write(setpointGaId, Dpt.Dpt9Payload(temperature))] else []
    }

    /** The write `send_mode_` asks for: none without a mode address. */
    function ModeWrites(mode: ClimateMode): (r: seq<KnxTp.Write>)
      ensures knx == null || modeGaId == "" ==> r == []
      ensures knx != null && modeGaId != "" ==> r == [KnxTp.Write(modeGaId, ModePayload(mode))]
    {
      if knx != null && modeGaId != "" then [KnxTp.Write(modeGaId, ModePayload(mode))] else []
    }

    /** The writes `send_preset_` asks for. */
    function PresetWritesOf(preset: ClimatePreset): (r: seq<KnxTp.Write>)
      ensures knx == null ==> r == []
      ensures knx != null ==> r == PresetWrites(preset, comfortGaId, ecoGaId, awayGaId, sleepGaId)
    {
      if knx != null then PresetWrites(preset, comfortGaId, ecoGaId, awayGaId, sleepGaId) else []
    }

    /** Everything a `control` call writes, in the order it writes it: setpoint, mode, presets. */
    function ControlWrites(call: ClimateCall): seq<KnxTp.Write>
    {
      (if call.targetTemperature.Some? then TemperatureWrites(call.targetTemperature.value) else []) +
      (if call.mode.Some? then ModeWrites(call.mode.value) else []) +
      (if call.preset.Some? then PresetWritesOf(call.preset.value) else [])
    }

    /**
     * The sending helpers below take the table of group-address texts as a
     * ghost argument: a group write changes only the list of sent
     * telegrams, so the table stays the same across a whole `control` call.
     */
    predicate Renders(targets: map<string, string>)
      reads knx
      reads if knx != null then knx.gaLookup.Values else {}
    {
      knx != null && targets == KnxTp.TargetsOf(knx.gaLookup, knx.render)
    }

    /** `send_temperature_`. */
    method SendTemperature(temperature: Dpt.FloatInput, ghost targets: map<string, string>)
      requires Renders(targets)
      modifies knx
      ensures knx.OnlySent() && Renders(targets)
      ensures knx.sent == old(knx.sent) + KnxTp.Sends(targets, TemperatureWrites(temperature))
    {
      var data := Dpt.Encode9(temperature);
      Dpt.Encode9IsPayload(temperature, data);
      knx.RequestsOfOne(setpointGaId, data);
      knx.SendGroupWrite(setpointGaId, data);
    }

    /** `send_mode_`. */
    method SendMode(mode: ClimateMode, ghost targets: map<string, string>)
      requires Renders(targets)
      modifies knx
      ensures knx.OnlySent() && Renders(targets)
      ensures knx.sent == old(knx.sent) + KnxTp.Sends(targets, ModeWrites(mode))
    {
      if modeGaId != "" {
        var data := ModePayload(mode);
        knx.RequestsOfOne(modeGaId, data);
        knx.SendGroupWrite(modeGaId, data);
      } else {
        assert ModeWrites(mode) == [];
      }
    }

    /** `send_preset_off`: an OFF to one preset address, if it is configured. */
    method SendPresetOff(id: string, ghost targets: map<string, string>)
      requires Renders(targets)
      modifies knx
      ensures knx.OnlySent() && Renders(targets)
      ensures knx.sent == old(knx.sent) + KnxTp.Sends(targets, PresetOff(id))
    {
      if id != "" {
        knx.RequestsOfOne(id, Dpt.Encode1(false));
        knx.SendGroupWrite(id, Dpt.Encode1(false));
      }
    }

    /** The ON that closes `send_preset_`, if the selected preset has a configured address. */
    method SendPresetOn(selected: Option<string>, ghost targets: map<string, string>)
      requires Renders(targets)
      modifies knx
      ensures knx.OnlySent() && Renders(targets)
      ensures knx.sent == old(knx.sent) + KnxTp.Sends(targets, OnWrite(selected))
    {
      if selected.Some? && selected.value != "" {
        knx.RequestsOfOne(selected.value, Dpt.Encode1(true));
        knx.SendGroupWrite(selected.value, Dpt.Encode1(true));
      }
    }

    /** `send_preset_off` on two preset addresses in turn. */
    method SendPresetOffs(first: string, second: string, ghost targets: map<string, string>)
      requires Renders(targets)
      modifies knx
      ensures knx.OnlySent() && Renders(targets)
      ensures knx.sent == old(knx.sent) + KnxTp.Sends(targets, PresetOff(first) + PresetOff(second))
    {
      ghost var s0 := knx.sent;
      SendPresetOff(first, targets);
      SendPresetOff(second, targets);
      KnxTp.SentStep(s0, targets, PresetOff(first), PresetOff(second));
    }

    /** `send_preset_`: OFF to every configured preset address, then ON to the selected one. */
    method SendPreset(preset: ClimatePreset, ghost targets: map<string, string>)
      requires Renders(targets)
      modifies knx
      ensures knx.OnlySent() && Renders(targets)
      ensures knx.sent == old(knx.sent) + KnxTp.Sends(targets, PresetWritesOf(preset))
    {
      ghost var s0 := knx.sent;
      var selected := PresetGaId(preset, comfortGaId, ecoGaId, awayGaId, sleepGaId);
      SendPresetOffs(comfortGaId, ecoGaId, targets);
      ghost var s1 := knx.sent;
      SendPresetOffs(awayGaId, sleepGaId, targets);
      ghost var s2 := knx.sent;
      SendPresetOn(selected, targets);
      PresetSentInSteps(targets, preset, comfortGaId, ecoGaId, awayGaId, sleepGaId, s0, s1, s2, knx.sent);
    }

    /**
     * `control`: the target temperature, the mode and the preset, each
     * only when the call carries it, are stored and sent in that order;
     * the resulting state is published once at the end.
     */
    method Control(call: ClimateCall)
      modifies this, knx
      ensures targetTemperature == if call.targetTemperature.Some? then call.targetTemperature.value else old(targetTemperature)
      ensures mode == if call.mode.Some? then call.mode.value else old(mode)
      ensures preset == if call.preset.Some? then call.preset else old(preset)
      ensures currentTemperature == old(currentTemperature) && action == old(action)
      ensures published == old(published) + [State()]
      ensures knx != null ==> knx.OnlySent()
      ensures knx != null ==> knx.sent == old(knx.sent) + old(knx.Requests(ControlWrites(call)))
    {
      ghost var targets := if knx != null then knx.Targets() else map[];
      ghost var requested := if knx != null then knx.Requests(ControlWrites(call)) else [];
      assert knx != null ==> Renders(targets) && requested == KnxTp.Sends(targets, ControlWrites(call));
      // The stored fields and the sent telegrams live in different objects
      // and no send reads a stored field, so sending first and storing
      // afterwards ends in the same state as interleaving them.
      if knx != null {
        SendAll(call, targets);
      }
      if call.targetTemperature.Some? {
        targetTemperature := call.targetTemperature.value;
      }
      if call.mode.Some? {
        mode := call.mode.value;
      }
      if call.preset.Some? {
        preset := call.preset;
      }
      published := published + [State()];
    }

    /** The sending half of `control`. */
    method SendAll(call: ClimateCall, ghost targets: map<string, string>)
      requires Renders(targets)
      modifies knx
      ensures knx.OnlySent() && Renders(targets)
      ensures knx.sent == old(knx.sent) + KnxTp.Sends(targets, ControlWrites(call))
    {
      var a := if call.targetTemperature.Some? then TemperatureWrites(call.targetTemperature.value) else [];
      var b := if call.mode.Some? then ModeWrites(call.mode.value) else [];
      var c := if call.preset.Some? then PresetWritesOf(call.preset.value) else [];
      ghost var s0 := knx.sent;
      if call.targetTemperature.Some? {
        SendTemperature(call.targetTemperature.value, targets);
      }
      ghost var s1 := knx.sent;
      if call.mode.Some? {
        SendMode(call.mode.value, targets);
      }
      ghost var s2 := knx.sent;
      if call.preset.Some? {
        SendPreset(call.preset.value, targets);
      }
      KnxTp.SentInThreeSteps(targets, a, b, c, s0, s1, s2, knx.sent);
    }
  }
}
