/** The Xiaomi Air Conditioning Companion climate entity: a cache of what the
    air conditioner is doing, the configuration frames composed from it, the
    poll that overwrites it, the power sensor that detects use of the
    original remote, and the infrared command and learn services. */
module Climate {
  import Miio
  import opened Rounding

  datatype Option<+T> = None | Some(value: T)

  /** The entity's operation modes, in declaration order. */
  datatype OperationMode = Heat | Cool | Auto | Dehumidify | Ventilate | Off

  /** The entity's list of offered operation modes (`_operation_modes`). */
  const OperationModes: seq<OperationMode> := [Heat, Cool, Auto, Dehumidify, Ventilate, Off]

  /** A mode the air conditioner can run in: every mode except Off. */
  type ActiveMode = m: OperationMode | m != Off witness Heat

  /** The string value of each operation mode (the host's HVAC mode names). */
  function ModeValue(m: OperationMode): string
  {
    match m
    case Heat => "heat"
    case Cool => "cool"
    case Auto => "auto"
    case Dehumidify => "dry"
    case Ventilate => "fan_only"
    case Off => "off"
  }

  /** Python's `str.lower()` on the ASCII letters. */
  function Lower(s: string): (r: string)
    ensures |r| == |s|
  {
    seq(|s|, i requires 0 <= i < |s| => if 'A' <= s[i] <= 'Z' then (s[i] as int + 32) as char else s[i])
  }

  /** A state string that names no operation mode and is not "off" in any
      letter case, so `OperationMode(name)` rejects it and both the exact and
      the lower-cased comparisons with "off" are false. */
  type UnmappedName = s: string | (forall m :: s != ModeValue(m)) && Lower(s) != "off" witness "on"

  /** What `_hvac_mode` holds: the value of an operation mode, or a state
      string that is none of them (the power sensor's "on", or a state the
      host restored, such as "unavailable"). */
  datatype HvacMode = Mode(op: OperationMode) | Unmapped(name: UnmappedName)

  /** The string `_hvac_mode` holds for a mode. */
  function HvacModeName(h: HvacMode): string
  {
    match h
    case Mode(m) => ModeValue(m)
    case Unmapped(name) => name
  }

  /** Reading a state string into `_hvac_mode`: the mode whose value it is
      (`OperationMode(s)` succeeds), or else an unmapped name. A string that
      is "off" only when lower-cased has no place in this type. */
  function ParseHvacMode(s: string): (r: HvacMode)
    requires s == ModeValue(Off) || Lower(s) != "off"
    ensures HvacModeName(r) == s
    ensures r.Unmapped? <==> forall m :: s != ModeValue(m)
  {
    if s == "heat" then Mode(Heat)
    else if s == "cool" then Mode(Cool)
    else if s == "auto" then Mode(Auto)
    else if s == "dry" then Mode(Dehumidify)
    else if s == "fan_only" then Mode(Ventilate)
    else if s == "off" then Mode(Off)
    else Unmapped(s)
  }

  /** Every mode reads back from its own name, so the string and the
      datatype views of `_hvac_mode` agree. */
  lemma ParseHvacModeName(h: HvacMode)
    ensures HvacModeName(h) == ModeValue(Off) || Lower(HvacModeName(h)) != "off"
    ensures ParseHvacMode(HvacModeName(h)) == h
  {
  }

  /** A temperature or humidity sensor's state as the host reports it. */
  datatype Reading = Unknown | Unavailable | Number(value: real) | Unparsable

  /** The state the host restores at start-up from the previous run. The
      `lastOnOperation` attribute may be missing (outer None) or hold None. */
  datatype Snapshot = Snapshot(
    state: HvacMode,
    fanMode: Miio.FanSpeed,
    swingMode: Miio.SwingMode,
    temperature: Option<int>,
    lastOnOperation: Option<Option<ActiveMode>>)

  /** How a learn session ended: a code was captured (and only announced to
      the user), the timeout passed, or a `learn_result` poll raised. */
  datatype LearnOutcome = Captured(code: string) | TimedOut | Aborted

  const StateOn: string := "on"
  const StateOff: string := "off"
  const DefaultMinTemperature: int := 16
  const DefaultMaxTemperature: int := 32
  const DefaultTargetTemperature: int := 26
  const DefaultTimeout: nat := 10
  const DefaultSlot: int := 30
  const RawCommandPrefix: string := "01"
  const LearnedCodePrefix: string := "FE"

  /** Fan speeds and swing positions offered to users, in library order. */
  const FanModes: seq<Miio.FanSpeed> := [Miio.FanSpeed.Low, Miio.FanSpeed.Medium, Miio.FanSpeed.High, Miio.FanSpeed.Auto]
  const SwingModes: seq<Miio.SwingMode> := [Miio.SwingMode.On, Miio.SwingMode.Off]

  predicate StartsWith(s: string, prefix: string)
  {
    |prefix| <= |s| && s[..|prefix|] == prefix
  }

  /** The device mode of the same name (`MiioOperationMode[mode.name]`). */
  function ToDevice(m: ActiveMode): Miio.OperationMode
  {
    match m
    case Heat => Miio.OperationMode.Heat
    case Cool => Miio.OperationMode.Cool
    case Auto => Miio.OperationMode.Auto
    case Dehumidify => Miio.OperationMode.Dehumidify
    case Ventilate => Miio.OperationMode.Ventilate
  }

  /** The entity mode of the same name as a reported device mode
      (`OperationMode[state.mode.name]`). */
  function FromDevice(d: Miio.OperationMode): (r: ActiveMode)
    ensures ToDevice(r) == d
  {
    match d
    case Heat => Heat
    case Cool => Cool
    case Auto => Auto
    case Dehumidify => Dehumidify
    case Ventilate => Ventilate
  }

  /** Naming a device mode after an entity mode and back is the identity. */
  lemma ModeNamesRoundTrip(m: ActiveMode)
    ensures FromDevice(ToDevice(m)) == m
  {
  }

  /** The frame `_send_configuration` sends from the cached fields, or None
      when it sends nothing: the model is unknown, or the mode to send does
      not name a device mode (the current mode when powered, else the last
      mode the unit was on in). */
  function ComposeFrame(
    model: Option<Miio.ModelId>, power: bool, hvac: HvacMode, lastOn: Option<ActiveMode>,
    temperature: int, fan: Miio.FanSpeed, swing: Miio.SwingMode): (r: Option<Miio.Frame>)
    ensures r.Some? <==> model.Some? && (if power then hvac.Mode? && hvac.op != Off else lastOn.Some?)
    ensures r.Some? ==>
      && r.value.model == model.value
      && r.value.power == power
      && r.value.temperature == temperature
      && r.value.fan == fan
      && r.value.swing == swing
      && r.value.led == Miio.Led.Off
    ensures r.Some? && power ==> hvac == Mode(FromDevice(r.value.mode))
    ensures r.Some? && !power ==> lastOn == Some(FromDevice(r.value.mode))
  {
    if model.None? then None
    else
      var mode: Option<ActiveMode> :=
        if power then (if hvac.Mode? && hvac.op != Off then Some(hvac.op) else None)
        else lastOn;
      if mode.None? then None
      else Some(Miio.Frame(model.value, power, ToDevice(mode.value), temperature, fan, swing, Miio.Led.Off))
  }

  /** The device calls `_send_configuration` makes for a composed frame. */
  function FrameCalls(frame: Option<Miio.Frame>): seq<Miio.Call>
  {
    if frame.Some? then [Miio.SendConfiguration(frame.value)] else []
  }

  /** The call one pass of `send_command`'s loop makes for a non-empty
      command: a raw command is sent as it is, a learned code with the model
      id when the model is known, and anything else is refused. */
  function CommandCall(command: string, model: Option<Miio.ModelId>): (r: Option<Miio.Call>)
    ensures r.Some? <==> StartsWith(command, RawCommandPrefix) || (StartsWith(command, LearnedCodePrefix) && model.Some?)
    ensures r.Some? && StartsWith(command, RawCommandPrefix) ==> r.value == Miio.SendCommand(command)
    ensures r.Some? && !StartsWith(command, RawCommandPrefix) ==> model.Some? && r.value == Miio.SendIrCode(model.value, command)
  {
    if StartsWith(command, RawCommandPrefix) then Some(Miio.SendCommand(command))
    else if StartsWith(command, LearnedCodePrefix) && model.Some? then Some(Miio.SendIrCode(model.value, command))
    else None
  }

  /** A `learn_result` reply that neither ends nor aborts the session. */
  predicate Quiet(reply: Miio.LearnReply)
  {
    reply.Message? && !StartsWith(reply.text, LearnedCodePrefix)
  }

  /** How many times `call` occurs in `calls`. */
  function Occurrences(calls: seq<Miio.Call>, call: Miio.Call): nat
  {
    if calls == [] then 0 else (if calls[0] == call then 1 else 0) + Occurrences(calls[1..], call)
  }

  lemma {:induction false} OccurrencesAppend(a: seq<Miio.Call>, b: seq<Miio.Call>, call: Miio.Call)
    ensures Occurrences(a + b, call) == Occurrences(a, call) + Occurrences(b, call)
  {
    if a == [] {
      assert a + b == b;
    } else {
      assert (a + b)[1..] == a[1..] + b;
      OccurrencesAppend(a[1..], b, call);
    }
  }

  /** The calls a learn session has made after `polls` polls never include
      `learn_stop`, so the session's tail decides how often it is called. */
  lemma {:induction false} PollsNeverStop(slot: int, polls: nat, tail: seq<Miio.Call>)
    ensures Occurrences([Miio.Learn(slot)] + seq(polls, _ => Miio.LearnResult) + tail, Miio.LearnStop(slot))
         == Occurrences(tail, Miio.LearnStop(slot))
  {
    if polls == 0 {
      assert [Miio.Learn(slot)] + seq(polls, _ => Miio.LearnResult) + tail == [Miio.Learn(slot)] + tail;
      OccurrencesAppend([Miio.Learn(slot)], tail, Miio.LearnStop(slot));
    } else {
      var shorter := seq(polls - 1, _ => Miio.LearnResult);
      assert seq(polls, _ => Miio.LearnResult) == shorter + [Miio.LearnResult];
      assert [Miio.Learn(slot)] + seq(polls, _ => Miio.LearnResult) + tail
          == [Miio.Learn(slot)] + shorter + ([Miio.LearnResult] + tail);
      PollsNeverStop(slot, polls - 1, [Miio.LearnResult] + tail);
      OccurrencesAppend([Miio.LearnResult], tail, Miio.LearnStop(slot));
    }
  }

  /** `async_learn_command`: start learning on `slot`, poll the device once a
      second while fewer than `timeout` seconds have passed, stop at the first
      reply carrying a learned code, and stop learning on either exit. The
      k-th poll is answered by `replies(k)`. An exception from a poll leaves
      the method before `learn_stop`. The captured code is only announced;
      the entity does not store it, so the method changes no field. */
  method LearnCommand(slot: int, timeout: nat, replies: nat -> Miio.LearnReply)
    returns (outcome: LearnOutcome, polls: nat, calls: seq<Miio.Call>)
    ensures polls <= timeout
    ensures calls == [Miio.Learn(slot)] + seq(polls, _ => Miio.LearnResult)
                     + (if outcome.Aborted? then [] else [Miio.LearnStop(slot)])
    ensures forall k :: 0 <= k < polls - 1 ==> Quiet(replies(k))
    ensures outcome.TimedOut? <==> forall k :: 0 <= k < timeout ==> Quiet(replies(k))
    ensures outcome.TimedOut? ==> polls == timeout
    ensures outcome.Captured? ==>
      0 < polls && replies(polls - 1) == Miio.Message(outcome.code) && StartsWith(outcome.code, LearnedCodePrefix)
    ensures outcome.Aborted? ==> 0 < polls && replies(polls - 1) == Miio.LearnReply.Raised
    ensures Occurrences(calls, Miio.LearnStop(slot)) == if outcome.Aborted? then 0 else 1
  {
    calls := [Miio.Learn(slot)];
    polls := 0;
    while polls < timeout
      invariant polls <= timeout
      invariant calls == [Miio.Learn(slot)] + seq(polls, _ => Miio.LearnResult)
      invariant forall k :: 0 <= k < polls ==> Quiet(replies(k))
    {
      var reply := replies(polls);
      calls := calls + [Miio.LearnResult];
      polls := polls + 1;
      if reply.Raised? {
        outcome := Aborted;
        PollsNeverStop(slot, polls, []);
        return;
      }
      if StartsWith(reply.text, LearnedCodePrefix) {
        calls := calls + [Miio.LearnStop(slot)];
        outcome := Captured(reply.text);
        PollsNeverStop(slot, polls, [Miio.LearnStop(slot)]);
        return;
      }
    }
    calls := calls + [Miio.LearnStop(slot)];
    outcome := TimedOut;
    PollsNeverStop(slot, polls, [Miio.LearnStop(slot)]);
  }

  /** The climate entity `XiaomiACPartnerClimate`: its cached fields and the
      operations that update them. Each operation returns the device calls
      it made; `replies(k)` is the device's answer to the k-th of them. */
  class ACPartnerClimate {
    const minTemperature: int
    const maxTemperature: int
    /** Whether an external power-on restores the last mode; fixed to false. */
    const powerSensorRestoreState: bool

    var airConditionModel: Option<Miio.ModelId>
    var available: bool
    /** `_state`: whether the entity believes the unit is powered. */
    var state: bool
    var targetTemperature: int
    var hvacMode: HvacMode
    var fanMode: Miio.FanSpeed
    var swingMode: Miio.SwingMode
    var lastOnOperation: Option<ActiveMode>
    var currentTemperature: Option<real>
    var currentHumidity: Option<real>
    var onByRemote: bool

    /** The defaults `__init__` sets; the bounds come from the configuration. */
    constructor (minTemp: Option<int>, maxTemp: Option<int>)
      ensures minTemperature == (if minTemp.Some? then minTemp.value else DefaultMinTemperature)
      ensures maxTemperature == (if maxTemp.Some? then maxTemp.value else DefaultMaxTemperature)
      ensures !powerSensorRestoreState
      ensures airConditionModel == None && !available && !state
      ensures targetTemperature == DefaultTargetTemperature && hvacMode == Mode(Off)
      ensures fanMode == Miio.FanSpeed.Low && swingMode == Miio.SwingMode.On
      ensures lastOnOperation == None && currentTemperature == None && currentHumidity == None
      ensures !onByRemote
    {
      minTemperature := if minTemp.Some? then minTemp.value else DefaultMinTemperature;
      maxTemperature := if maxTemp.Some? then maxTemp.value else DefaultMaxTemperature;
      powerSensorRestoreState := false;
      airConditionModel := None;
      available := false;
      state := false;
      targetTemperature := DefaultTargetTemperature;
      hvacMode := Mode(Off);
      fanMode := FanModes[0];
      swingMode := SwingModes[0];
      lastOnOperation := None;
      currentTemperature := None;
      currentHumidity := None;
      onByRemote := false;
    }

    /** The frame `_send_configuration` would send now. */
    function PendingFrame(): Option<Miio.Frame>
      reads this
    {
      ComposeFrame(airConditionModel, state, hvacMode, lastOnOperation, targetTemperature, fanMode, swingMode)
    }

    /** The displayed mode is Off exactly when the unit is believed off. */
    predicate Consistent()
      reads this
    {
      hvacMode == Mode(Off) <==> !state
    }

    /** `async_restore`: reload the previous run's state, if any. */
    method Restore(last: Option<Snapshot>)
      modifies this`hvacMode, this`fanMode, this`swingMode, this`targetTemperature, this`lastOnOperation, this`state
      ensures last.None? ==>
        && hvacMode == old(hvacMode) && fanMode == old(fanMode) && swingMode == old(swingMode)
        && targetTemperature == old(targetTemperature) && lastOnOperation == old(lastOnOperation) && state == old(state)
      ensures last.Some? ==>
        var s := last.value;
        && hvacMode == s.state && fanMode == s.fanMode && swingMode == s.swingMode
        && targetTemperature == (if s.temperature.Some? && s.temperature.value != 0 then s.temperature.value else DefaultTargetTemperature)
        && lastOnOperation == (if s.lastOnOperation.Some? then s.lastOnOperation.value else old(lastOnOperation))
        && state == (if s.lastOnOperation.Some? then s.lastOnOperation.value.Some? else old(state))
    {
      if last.Some? {
        var s := last.value;
        hvacMode := s.state;
        fanMode := s.fanMode;
        swingMode := s.swingMode;
        targetTemperature := if s.temperature.Some? && s.temperature.value != 0 then s.temperature.value else DefaultTargetTemperature;
        if s.lastOnOperation.Some? {
          lastOnOperation := s.lastOnOperation.value;
          state := lastOnOperation.Some?;
        }
      }
    }

    /** `_try_command`: make one call; it succeeds when the reply contains
        "ok"; an exception marks the entity unavailable. */
    method TryCommand(call: Miio.Call, reply: Miio.Response) returns (ok: bool, calls: seq<Miio.Call>)
      modifies this`available
      ensures calls == [call]
      ensures ok <==> reply == Miio.Ok
      ensures available == (old(available) && !reply.Raised?)
    {
      calls := [call];
      ok := reply == Miio.Ok;
      if reply.Raised? && available {
        available := false;
      }
    }

    /** `_send_configuration`: send the frame composed from the cache, or
        nothing when it cannot be composed. */
    method SendConfiguration(reply: Miio.Response) returns (calls: seq<Miio.Call>)
      modifies this`available
      ensures calls == FrameCalls(PendingFrame())
      ensures available == (old(available) && (PendingFrame().Some? ==> !reply.Raised?))
    {
      var frame := PendingFrame();
      calls := [];
      if frame.Some? {
        var ok, c := TryCommand(Miio.SendConfiguration(frame.value), reply);
        calls := c;
      }
    }

    /** The effect of `async_set_hvac_mode(mode)`, given the power state and
        availability before it. Off first sends `off`; only when that
        succeeds is the unit believed off and a frame sent, but the mode
        shows Off either way. Any other mode powers on and sends a frame. */
    ghost predicate ModeApplied(mode: OperationMode, replies: nat -> Miio.Response, oldState: bool, oldAvailable: bool, calls: seq<Miio.Call>)
      reads this
    {
      if mode == Off then
        var offOk := replies(0) == Miio.Ok;
        && hvacMode == Mode(Off)
        && state == (if offOk then false else oldState)
        && calls == [Miio.TurnOff] + (if offOk then FrameCalls(PendingFrame()) else [])
        && available == (oldAvailable && !replies(0).Raised? && (offOk && PendingFrame().Some? ==> !replies(1).Raised?))
      else
        && hvacMode == Mode(mode)
        && state
        && calls == FrameCalls(PendingFrame())
        && available == (oldAvailable && (PendingFrame().Some? ==> !replies(0).Raised?))
    }

    /** `async_set_hvac_mode`. */
    method SetHvacMode(mode: OperationMode, replies: nat -> Miio.Response) returns (calls: seq<Miio.Call>)
      modifies this`hvacMode, this`state, this`available
      ensures ModeApplied(mode, replies, old(state), old(available), calls)
      ensures mode != Off || replies(0) == Miio.Ok ==> Consistent()
    {
      hvacMode := Mode(mode);
      if mode == Off {
        var ok;
        ok, calls := TryCommand(Miio.TurnOff, replies(0));
        if ok {
          state := false;
          hvacMode := Mode(Off);
          var c := SendConfiguration(replies(1));
          calls := calls + c;
        }
      } else {
        state := true;
        calls := SendConfiguration(replies(0));
      }
    }

    /** `async_set_temperature`: an absent or out-of-range temperature is
        ignored; otherwise it is stored rounded, and then either the given
        mode is applied, or a frame is sent unless the mode is Off. */
    method SetTemperature(temperature: Option<real>, mode: Option<OperationMode>, replies: nat -> Miio.Response)
      returns (calls: seq<Miio.Call>)
      modifies this`targetTemperature, this`hvacMode, this`state, this`available
      ensures !(temperature.Some? && minTemperature as real <= temperature.value <= maxTemperature as real) ==>
        && targetTemperature == old(targetTemperature) && hvacMode == old(hvacMode) && state == old(state)
        && available == old(available) && calls == []
      ensures temperature.Some? && minTemperature as real <= temperature.value <= maxTemperature as real ==>
        && targetTemperature == RoundHalfEven(temperature.value)
        && minTemperature <= targetTemperature <= maxTemperature
        && (mode.Some? ==> ModeApplied(mode.value, replies, old(state), old(available), calls))
        && (mode.None? ==>
              && hvacMode == old(hvacMode) && state == old(state)
              && calls == (if hvacMode != Mode(Off) then FrameCalls(PendingFrame()) else [])
              && available == (old(available) && (hvacMode != Mode(Off) && PendingFrame().Some? ==> !replies(0).Raised?)))
    {
      calls := [];
      if temperature.None? {
        return;
      }
      var t := temperature.value;
      if t < minTemperature as real || t > maxTemperature as real {
        return;
      }
      RoundInRange(t, minTemperature, maxTemperature);
      targetTemperature := RoundHalfEven(t);
      if mode.Some? {
        calls := SetHvacMode(mode.value, replies);
        return;
      }
      if hvacMode != Mode(Off) {
        calls := SendConfiguration(replies(0));
      }
    }

    /** `async_set_fan_mode`, as written: store the fan speed; unless the
        mode is Off, the device is sent `off`. */
    method SetFanMode(fan: Miio.FanSpeed, replies: nat -> Miio.Response) returns (calls: seq<Miio.Call>)
      modifies this`fanMode, this`available
      ensures fanMode == fan
      ensures calls == (if hvacMode != Mode(Off) then [Miio.TurnOff] else [])
      ensures available == (old(available) && (hvacMode != Mode(Off) ==> !replies(0).Raised?))
    {
      fanMode := fan;
      calls := [];
      if hvacMode != Mode(Off) {
        var ok;
        ok, calls := TryCommand(Miio.TurnOff, replies(0));
      }
    }

    /** `async_set_fan_mode` as evidently intended (its error message speaks
        of turning the device on, as `async_set_swing_mode` does): unless the
        mode is Off, the device is sent `on`. */
    method SetFanModeAsIntended(fan: Miio.FanSpeed, replies: nat -> Miio.Response) returns (calls: seq<Miio.Call>)
      modifies this`fanMode, this`available
      ensures fanMode == fan
      ensures calls == (if hvacMode != Mode(Off) then [Miio.TurnOn] else [])
      ensures available == (old(available) && (hvacMode != Mode(Off) ==> !replies(0).Raised?))
    {
      fanMode := fan;
      calls := [];
      if hvacMode != Mode(Off) {
        var ok;
        ok, calls := TryCommand(Miio.TurnOn, replies(0));
      }
    }

    /** `async_set_swing_mode`: store the swing position; unless the mode is
        Off, the device is sent `on`. */
    method SetSwingMode(swing: Miio.SwingMode, replies: nat -> Miio.Response) returns (calls: seq<Miio.Call>)
      modifies this`swingMode, this`available
      ensures swingMode == swing
      ensures calls == (if hvacMode != Mode(Off) then [Miio.TurnOn] else [])
      ensures available == (old(available) && (hvacMode != Mode(Off) ==> !replies(0).Raised?))
    {
      swingMode := swing;
      calls := [];
      if hvacMode != Mode(Off) {
        var ok;
        ok, calls := TryCommand(Miio.TurnOn, replies(0));
      }
    }

    /** `async_turn_off`: the unit is believed off before the Off mode is
        applied, so it stays believed off even when `off` fails. */
    method TurnOff(replies: nat -> Miio.Response) returns (calls: seq<Miio.Call>)
      modifies this`hvacMode, this`state, this`available
      ensures ModeApplied(Off, replies, false, old(available), calls)
      ensures hvacMode == Mode(Off) && !state
      ensures Consistent()
    {
      state := false;
      calls := SetHvacMode(Off, replies);
    }

    /** `async_turn_on`: resume the last mode the unit was on in, or the
        second listed mode (Cool) when there is none. */
    method TurnOn(replies: nat -> Miio.Response) returns (calls: seq<Miio.Call>)
      modifies this`hvacMode, this`state, this`available
      ensures var mode := if old(lastOnOperation).Some? then old(lastOnOperation).value else Cool;
        ModeApplied(mode, replies, old(state), old(available), calls)
      ensures state && hvacMode != Mode(Off)
      ensures Consistent()
    {
      if lastOnOperation.Some? {
        calls := SetHvacMode(lastOnOperation.value, replies);
      } else {
        calls := SetHvacMode(OperationModes[1], replies);
      }
      state := true;
    }

    /** The cache after a reported status has been applied, given the model
        id known before: the reported mode becomes the last mode, the power
        report decides the mode shown, and the model id is kept from the
        first successful poll. */
    ghost predicate StatusApplied(s: Miio.Status, oldModel: Option<Miio.ModelId>)
      reads this
    {
      && lastOnOperation == Some(FromDevice(s.mode))
      && (s.power == StateOff ==> hvacMode == Mode(Off) && !state)
      && (s.power != StateOff ==> hvacMode == Mode(FromDevice(s.mode)) && state)
      && airConditionModel == (if oldModel.Some? then oldModel else Some(s.airConditionModel))
    }

    /** The part of `async_update` that overwrites the cache with a status. */
    method ApplyStatus(s: Miio.Status)
      modifies this`lastOnOperation, this`hvacMode, this`state, this`airConditionModel
      ensures StatusApplied(s, old(airConditionModel))
      ensures Consistent()
    {
      lastOnOperation := Some(FromDevice(s.mode));
      if s.power == StateOff {
        hvacMode := Mode(Off);
        state := false;
      } else {
        hvacMode := Mode(lastOnOperation.value);
        state := true;
      }
      if airConditionModel.None? {
        airConditionModel := Some(s.airConditionModel);
      }
    }

    /** `async_update`, as written: poll the device status. The entity is
        marked available before the status is read, even when the poll
        raised; reading the missing status then raises in turn, so the
        method is left (`aborted`) with nothing else updated. */
    method Update(reply: Miio.PollReply) returns (calls: seq<Miio.Call>, aborted: bool)
      modifies this`available, this`lastOnOperation, this`hvacMode, this`state, this`airConditionModel
      ensures calls == [Miio.QueryStatus]
      ensures available
      ensures aborted <==> reply.Raised?
      ensures reply.Raised? ==>
        && lastOnOperation == old(lastOnOperation) && hvacMode == old(hvacMode)
        && state == old(state) && airConditionModel == old(airConditionModel)
      ensures reply.Reported? ==> StatusApplied(reply.status, old(airConditionModel)) && Consistent()
    {
      calls := [Miio.QueryStatus];
      if reply.Raised? && available {
        available := false;
      }
      available := true;
      if reply.Raised? {
        aborted := true;
        return;
      }
      aborted := false;
      ApplyStatus(reply.status);
    }

    /** `async_update` as its structure evidently intends: a failed poll marks
        the entity unavailable and leaves the cache as it was; a successful
        one marks it available and applies the status. */
    method UpdateAsIntended(reply: Miio.PollReply) returns (calls: seq<Miio.Call>)
      modifies this`available, this`lastOnOperation, this`hvacMode, this`state, this`airConditionModel
      ensures calls == [Miio.QueryStatus]
      ensures available <==> reply.Reported?
      ensures reply.Raised? ==>
        && lastOnOperation == old(lastOnOperation) && hvacMode == old(hvacMode)
        && state == old(state) && airConditionModel == old(airConditionModel)
      ensures reply.Reported? ==> StatusApplied(reply.status, old(airConditionModel)) && Consistent()
    {
      calls := [Miio.QueryStatus];
      if reply.Raised? {
        if available {
          available := false;
        }
        return;
      }
      available := true;
      ApplyStatus(reply.status);
    }

    /** `_async_power_sensor_changed`: an event without a new state, or with
        the same state as before, is ignored. Power turning on while the mode
        is Off is attributed to the original remote; power turning off shows
        Off. No device call is made. */
    method PowerSensorChanged(oldState: Option<string>, newState: Option<string>)
      modifies this`onByRemote, this`hvacMode
      ensures newState.None? || (oldState.Some? && newState.value == oldState.value) ==>
        onByRemote == old(onByRemote) && hvacMode == old(hvacMode)
      ensures newState.Some? && !(oldState.Some? && newState.value == oldState.value) ==>
        var n := newState.value;
        var remoteOn := n == StateOn && old(hvacMode) == Mode(Off);
        && onByRemote == (if n == StateOff then false else if remoteOn then true else old(onByRemote))
        && hvacMode == (if n == StateOff then Mode(Off)
                        else if !remoteOn then old(hvacMode)
                        else if powerSensorRestoreState && lastOnOperation.Some? then Mode(lastOnOperation.value)
                        else Unmapped(StateOn))
    {
      if newState.None? {
        return;
      }
      if oldState.Some? && newState.value == oldState.value {
        return;
      }
      if newState.value == StateOn && hvacMode == Mode(Off) {
        onByRemote := true;
        if powerSensorRestoreState && lastOnOperation.Some? {
          hvacMode := Mode(lastOnOperation.value);
        } else {
          hvacMode := Unmapped(StateOn);
        }
      }
      if newState.value == StateOff {
        onByRemote := false;
        if hvacMode != Mode(Off) {
          hvacMode := Mode(Off);
        }
      }
    }

    /** `_async_temp_sensor_changed`: a numeric reading becomes the current
        temperature; unknown, unavailable and unparsable readings are ignored. */
    method TemperatureSensorChanged(newState: Option<Reading>)
      modifies this`currentTemperature
      ensures currentTemperature ==
        (if newState.Some? && newState.value.Number? then Some(newState.value.value) else old(currentTemperature))
    {
      if newState.Some? && newState.value.Number? {
        currentTemperature := Some(newState.value.value);
      }
    }

    /** `_async_humidity_sensor_changed`, as for the temperature sensor. */
    method HumiditySensorChanged(newState: Option<Reading>)
      modifies this`currentHumidity
      ensures currentHumidity ==
        (if newState.Some? && newState.value.Number? then Some(newState.value.value) else old(currentHumidity))
    {
      if newState.Some? && newState.value.Number? {
        currentHumidity := Some(newState.value.value);
      }
    }

    /** `async_send_command`: an empty command sends nothing; otherwise each
        of `repeat` passes sends a raw command, or a learned code when the
        model is known, and sends nothing for any other prefix. */
    method SendCommand(command: string, repeat: nat, replies: nat -> Miio.Response) returns (calls: seq<Miio.Call>)
      modifies this`available
      ensures var c := CommandCall(command, airConditionModel);
        calls == (if command != [] && c.Some? then seq(repeat, _ => c.value) else [])
      ensures var c := CommandCall(command, airConditionModel);
        available == (old(available) && (command != [] && c.Some? ==> forall k :: 0 <= k < repeat ==> !replies(k).Raised?))
    {
      calls := [];
      if command == [] {
        return;
      }
      ghost var c := CommandCall(command, airConditionModel);
      for i := 0 to repeat
        invariant calls == if c.Some? then seq(i, _ => c.value) else []
        invariant available == (old(available) && (c.Some? ==> forall k :: 0 <= k < i ==> !replies(k).Raised?))
      {
        var sent := [];
        if StartsWith(command, RawCommandPrefix) {
          var ok;
          ok, sent := TryCommand(Miio.SendCommand(command), replies(i));
        } else if StartsWith(command, LearnedCodePrefix) {
          if airConditionModel.Some? {
            var ok;
            ok, sent := TryCommand(Miio.SendIrCode(airConditionModel.value, command), replies(i));
          }
        }
        calls := calls + sent;
      }
    }
  }
}
