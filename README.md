# Xiaomi Air Conditioning Companion climate entity, in Dafny

This project models the climate entity `XiaomiACPartnerClimate` of the Home
Assistant integration for the Xiaomi/Aqara Air Conditioning Companion ("AC
Partner"). The entity keeps a cache of what the air conditioner is doing:
the displayed mode, the believed power state, the target temperature, the fan
speed, the swing position, the last mode the unit ran in, the model id, and
the availability and "switched on by the original remote" flags. It composes
full seven-field configuration frames from that cache. A periodic poll
overwrites the cache. A power-draw sensor reveals use of the original remote.
Two services replay infrared commands and learn new ones.

Files:

- `miio.dfy` (module `Miio`): the python-miio library as the entity sees it.
  This covers the device's operation modes, fan speeds, swing positions and
  LED as closed enums, the status record, the configuration frame, the device
  calls (`Call`) and the replies a call can get.
- `rounding.dfy` (module `Rounding`): Python's `round`, which rounds half to
  even.
- `climate.dfy` (module `Climate`): the entity's modes, frame composition,
  command dispatch and the learn loop. It also holds the class
  `ACPartnerClimate`, with one method per entity operation.
- `findings.dfy` (module `Findings`): two concrete runs that show where the
  code departs from what it evidently intends (see "## Findings"), and one
  run after which the displayed mode and the power belief disagree.

Modelling conventions:

- Every entity method returns `calls`, the device calls it made, in order.
  The device's answer to the k-th of them is the parameter `replies(k)`:
  a reply containing "ok", any other reply, or a raised `DeviceException`.
- Temperatures requested by the user are `real`. The stored target is the
  `int` that `round` gives, because the temperature step is whole
  (`const.py:35`).
- `_state` is a `bool`. Its initial `None` is `false`. A restored
  `last_on_operation` sets it to that value's truth value.
- `_last_on_operation` has the type `Option<ActiveMode>`, so it is never Off.
  The poll stores a device mode, and the device has no Off mode. A restore
  reloads a value an earlier run stored the same way.
- `_hvac_mode` is either an operation mode or `Unmapped(name)`. The second
  case covers the power sensor's placeholder `"on"` and states such as
  `"unavailable"`. Its type `UnmappedName` admits only strings that name no
  operation mode and are not "off" in any letter case, so no operation mode
  accepts them, no frame built from them is sent, and the exact and the
  lower-cased comparisons with "off" agree on them.
- The learn loop's wall-clock timeout becomes whole seconds. The k-th poll,
  counting from 0, happens when k is less than the timeout. Device latency
  is ignored.

The code's behaviour, including the points below, is modelled as written:

- The poll does not copy the fan speed, swing position or target temperature
  into the cache. It only fills display attributes that nothing reads.
- A failed command marks the entity unavailable. A successful command never
  marks it available again; only a poll does.
- Setting the fan speed sends `off` (see "## Findings").
- The learned code is only announced, never stored.
- There is no guard against two concurrent learn sessions, and no way to
  cancel one.
- The displayed mode is not kept equal to "off exactly when powered off".
  `Consistent()` holds after a poll, a turn-off and any successful mode
  change. It can fail after a failed `off`; after a power-sensor event,
  because that event changes the mode but not `_state`; and after restoring
  a previous state of "off" that carries a last mode, because the last mode
  then sets `_state` (`Findings.RestoredOffScenario`).

## Model

| member | source | states |
|---|---|---|
| `Rounding.RoundHalfEven` | custom_components/xiaomi_miio_airconditioningcompanion/climate.py:454-455 | The stored temperature is within one half of the requested one, and a tie goes to the even integer. |
| `Rounding.RoundHalfEvenUnique` | custom_components/xiaomi_miio_airconditioningcompanion/climate.py:454-455 | Those two properties determine the rounded value. |
| `Rounding.RoundInRange` | custom_components/xiaomi_miio_airconditioningcompanion/climate.py:450-455 | A temperature that passed the min/max check still lies within the bounds after rounding. |
| `Rounding.RoundOfInteger` | custom_components/xiaomi_miio_airconditioningcompanion/climate.py:454-455 | A whole-number temperature is stored unchanged. |
| `Climate.FromDevice` | custom_components/xiaomi_miio_airconditioningcompanion/climate.py:558 | A reported device mode becomes the entity mode of the same name, and naming it back gives the device mode again. |
| `Climate.ModeNamesRoundTrip` | custom_components/xiaomi_miio_airconditioningcompanion/climate.py:424-425 | Mapping an active entity mode to the device mode and back returns it. |
| `Climate.ParseHvacMode` | custom_components/xiaomi_miio_airconditioningcompanion/climate.py:268 | A stored state string becomes an entity mode whose name is that string, and it is unmapped iff no operation mode has that name. |
| `Climate.ParseHvacModeName` | custom_components/xiaomi_miio_airconditioningcompanion/climate.py:424 | Every entity mode is the parse of its own name, so a mode the cache holds and the string the code compares with "off" and converts with `OperationMode(...)` carry the same information. |
| `Climate.ComposeFrame` | custom_components/xiaomi_miio_airconditioningcompanion/climate.py:416-440 | A frame is sent exactly when the model is known and the mode resolves. The mode is the current mode when powered, else the last mode. The frame carries the model, the power state, the temperature, the fan speed and the swing position unchanged, with the LED off. |
| `Climate.CommandCall` | custom_components/xiaomi_miio_airconditioningcompanion/climate.py:668-689 | A command prefixed "01" is sent raw. A command prefixed "FE" is sent with the model id, but only when the model is known. Any other command gets no call. |
| `Climate.OccurrencesAppend` | custom_components/xiaomi_miio_airconditioningcompanion/climate.py:626-652 | Call counts add up over concatenated call sequences. This is used to count the `learn_stop` calls. |
| `Climate.PollsNeverStop` | custom_components/xiaomi_miio_airconditioningcompanion/climate.py:628-646 | The calls made while learning and polling contain no `learn_stop`. |
| `Climate.LearnCommand` | custom_components/xiaomi_miio_airconditioningcompanion/climate.py:626-652 | The calls are exactly `learn`, one `learn_result` per poll and then `learn_stop`. Polls number at most the timeout. The session times out iff every reply within the timeout is quiet, and then it polls exactly timeout times. A capture returns the first "FE" reply. `learn_stop` is called exactly once, unless a poll raised. |
| `Climate.ACPartnerClimate.constructor` | custom_components/xiaomi_miio_airconditioningcompanion/climate.py:200-259 | The initial state: bounds 16/32 unless configured, target 26, mode Off, not powered, model unknown, unavailable, first fan speed and swing position, no last mode, restore-on-power off. |
| `Climate.ACPartnerClimate.Restore` | custom_components/xiaomi_miio_airconditioningcompanion/climate.py:265-275 | With a previous state, this restores the mode, fan and swing. A falsy temperature becomes 26. A present `last_on_operation` sets both the last mode and the power belief. Without a previous state, nothing changes. |
| `Climate.ACPartnerClimate.TryCommand` | custom_components/xiaomi_miio_airconditioningcompanion/climate.py:516-531 | One call is made. It succeeds iff the reply is "ok". An exception clears `available`, and nothing sets it. |
| `Climate.ACPartnerClimate.SendConfiguration` | custom_components/xiaomi_miio_airconditioningcompanion/climate.py:416-440 | The frame composed from the cache is sent, or nothing when it cannot be composed. Only `available` can change. |
| `Climate.ACPartnerClimate.SetHvacMode` | custom_components/xiaomi_miio_airconditioningcompanion/climate.py:468-484 | Off: `off` is sent and the mode shows Off even if `off` fails. Only on success is the unit believed off and a frame sent. Other modes: the unit is believed on and a frame is sent. The last mode never changes. |
| `Climate.ACPartnerClimate.SetTemperature` | custom_components/xiaomi_miio_airconditioningcompanion/climate.py:442-466 | An absent or out-of-range temperature changes nothing and makes no call. Otherwise the rounded, in-range value is stored. A given mode is then applied; without one, one frame attempt is made iff the mode is not Off. |
| `Climate.ACPartnerClimate.SetFanMode` | custom_components/xiaomi_miio_airconditioningcompanion/climate.py:486-493 | The fan speed is stored. When the mode is not Off, `off` is sent. |
| `Climate.ACPartnerClimate.SetFanModeAsIntended` | custom_components/xiaomi_miio_airconditioningcompanion/climate.py:486-493 | The corrected form: when the mode is not Off, `on` is sent. |
| `Climate.ACPartnerClimate.SetSwingMode` | custom_components/xiaomi_miio_airconditioningcompanion/climate.py:495-501 | The swing position is stored. When the mode is not Off, `on` is sent. |
| `Climate.ACPartnerClimate.TurnOff` | custom_components/xiaomi_miio_airconditioningcompanion/climate.py:503-506 | Off is applied after the unit is believed off, so afterwards the mode is Off and the unit is believed off whatever the device answers. |
| `Climate.ACPartnerClimate.TurnOn` | custom_components/xiaomi_miio_airconditioningcompanion/climate.py:508-514 | The last mode is applied, or Cool (the second listed mode) when there is none. The unit ends believed on. |
| `Climate.ACPartnerClimate.ApplyStatus` | custom_components/xiaomi_miio_airconditioningcompanion/climate.py:558-566 | The reported mode becomes the last mode. Power "off" shows Off and not powered; anything else shows the reported mode and powered. The model id is taken only when unset. |
| `Climate.ACPartnerClimate.Update` | custom_components/xiaomi_miio_airconditioningcompanion/climate.py:533-566 | The entity is available afterwards in every case. A raised poll aborts with the cache untouched. A reported status is applied, which leaves the cache consistent. |
| `Climate.ACPartnerClimate.UpdateAsIntended` | custom_components/xiaomi_miio_airconditioningcompanion/climate.py:533-566 | The corrected form: afterwards the entity is available iff the poll succeeded. A failed poll leaves the cache untouched. |
| `Climate.ACPartnerClimate.PowerSensorChanged` | custom_components/xiaomi_miio_airconditioningcompanion/climate.py:585-606 | An event that is null or repeats the old state is ignored. "on" while Off sets `onByRemote` and shows the `"on"` placeholder, because restore is off. "off" clears the flag and shows Off. No device call is made. |
| `Climate.ACPartnerClimate.TemperatureSensorChanged` | custom_components/xiaomi_miio_airconditioningcompanion/climate.py:569-575 | A numeric reading becomes the current temperature. A missing, unknown, unavailable or unparsable one is ignored. |
| `Climate.ACPartnerClimate.HumiditySensorChanged` | custom_components/xiaomi_miio_airconditioningcompanion/climate.py:577-583 | The same rule applies to the current humidity. |
| `Climate.ACPartnerClimate.SendCommand` | custom_components/xiaomi_miio_airconditioningcompanion/climate.py:654-691 | An empty command or an unsendable prefix gets no call. Otherwise exactly `repeat` identical calls are made. The entity stays available iff none of them raised. |
| `Findings.FailedPollScenario` | custom_components/xiaomi_miio_airconditioningcompanion/climate.py:540-558 | After a raised poll, the entity as written is available and the corrected one is not. |
| `Findings.FanChangeWhileCoolingScenario` | custom_components/xiaomi_miio_airconditioningcompanion/climate.py:486-493 | While cooling, a fan change sends `off` as written and `on` as corrected. |
| `Findings.RestoredOffScenario` | custom_components/xiaomi_miio_airconditioningcompanion/climate.py:265-275 | Restoring a state of "off" that carries a last mode leaves the mode Off while the unit is believed on. |

## Findings

| source | as written | input that shows it | evidently intended | confidence | as-written member | corrected member |
|---|---|---|---|---|---|---|
| custom_components/xiaomi_miio_airconditioningcompanion/climate.py:540-558 | After a `DeviceException` from `status()`, line 545 sets `_available` true, and line 558 then reads `state.mode` of `None` and raises. | A poll whose `status()` raises. | The entity is marked unavailable and the cache is left untouched. | high, not executed | `Climate.ACPartnerClimate.Update` (shown by `Findings.FailedPollScenario`) | `Climate.ACPartnerClimate.UpdateAsIntended` |
| custom_components/xiaomi_miio_airconditioningcompanion/climate.py:486-493 | While the mode is not Off, a fan change calls `off`, under the error message "Turning the acpartner on failed." | `SetHvacMode(Cool)` and then a fan change. | The device is sent `on`, as the swing change does. | medium, not executed | `Climate.ACPartnerClimate.SetFanMode` (shown by `Findings.FanChangeWhileCoolingScenario`) | `Climate.ACPartnerClimate.SetFanModeAsIntended` |

## Left out

- Home Assistant plumbing is not modelled. This covers service registration and dispatch (`climate.py:138-194`), the property getters, `device_info`, `async_write_ha_state`, and the subscription to the sensors at start-up.
- The display attributes `_state_attrs` that the poll fills (`climate.py:547-557`) are not modelled, because nothing reads them.
- The one-decimal rounding branch (`climate.py:457`) is not modelled, because the temperature step is the constant 1.
- Executor dispatch, `asyncio.sleep`, the delay between repeats (`time.sleep`) and `utcnow` are not modelled. The learn timeout is counted in one-second ticks.
- Exceptions from `learn` and `learn_stop` are not modelled; those calls are assumed to return. Exceptions from `learn_result` are modelled as `Aborted`.
- Float parsing of sensor readings is not modelled. A reading is already classified as unknown, unavailable, a number or unparsable.
- The reading of the temperature and humidity sensors at start-up (`climate.py:281-291`) is not modelled. It goes through the same update rule as `TemperatureSensorChanged`.
- Climate.ComposeFrame: it returns no frame for a powered cache whose mode is Off. In Python that case raises an uncaught `KeyError` rather than the caught `ValueError`. No operation reaches it, and nothing follows the frame in any caller.
- Climate.ACPartnerClimate.Restore: a restored state that is "off" only in another letter case (`"OFF"`) is not modelled. `_hvac_mode` cannot hold it, because the code compares it with "off" exactly at some points and lower-cased at others.
- Climate.ACPartnerClimate.Restore: a restored swing attribute that is missing (`None`) is not modelled. With it, the next frame would raise `AttributeError`. The snapshot's fields are also already typed, so the parsing of restored strings is not modelled.
- The persistent notifications and logging are not modelled. They are fire-and-forget.
- `__init__.py` (config-entry migration and model detection), `sensor.py` (a read-only poll wrapper) and `const.py` are not part of this model. Only the constants of `const.py` are used.
- The service schema's ranges for slot, timeout and repeat count are not modelled. The methods accept any slot, and any natural-number timeout and repeat count.
- Interleaving at `await` points is not modelled. Each entity operation runs to completion. The code creates `_temp_lock` (`climate.py:256`) but never takes it, so a poll or a sensor event can run between the steps of a mode change (`climate.py:473-479`, `climate.py:537`).
