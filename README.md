# Input engine model

A Dafny model of the yuzu input engine (`src/input_common/input_engine.cpp`).
The engine is the part of the emulator's input layer that every hardware
backend writes into. It keeps three things:

- a table of per-device controller state: buttons, hat masks, axes, motion
  samples and a battery level, keyed by `PadIdentifier`;
- a registry of listener subscriptions under integer keys, plus one mapping
  observer;
- a "configuring" mode. While it is on, raw writes are not stored. Instead
  the engine reports to the mapping observer which input the user moved
  deliberately.

The model has five modules:

- `InputTypes` (`input_types.dfy`) holds the value types: `PadIdentifier`,
  `ControllerData`, `BasicMotion`, `BatteryLevel`, `InputIdentifier`,
  `MappingData` and the rest.
- `ControllerTable` (`controller_table.dfy`) holds what the engine's
  `try_emplace`, `insert_or_assign` and `find` calls do to the device table.
  It is written as pure functions over `map<PadIdentifier, ControllerData>`.
- `MappingDetection` (`mapping_detection.dfy`) holds listener matching and
  the detection rule for each input kind, as pure functions with their
  properties:
  - button: one event iff the state changed;
  - hat: one event per changed direction bit, lowest bit first;
  - axis: one event iff the value moved at least 0.5;
  - motion: one event iff some accelerometer component is beyond ±1.5 or
    some gyroscope component beyond ±0.6.
- `Engine` (`input_engine.dfy`) holds the class `InputEngine`.
  - Its fields are those of the C++ object.
  - Its methods update them in place, with the same branches and loops as
    the C++ code.
  - Listener notifiers and the mapping observer are foreign code. Their
    effect is recorded in two ghost logs. `notified` counts how often each
    subscription key's notifier ran. `mappingEvents` is the ordered list of
    events delivered to the observer.
- `Scenarios` (`scenarios.dfy`) holds three client call sequences and what
  the engine guarantees after each.

Three behaviours of the code shape the contracts:

- Every per-input pre-set and setter looks the device up with `.at`. A
  device must first be registered with `PreSetController`, so these
  operations require a registered device.
- In configuring mode with an observer, `SetButton` changes the table: the
  button trigger pre-sets the index, so an unknown button is inserted as
  released. No query result changes.
- An axis is reported when it moves by 0.5 or more. The code returns early
  only when the difference is below 0.5.

## Model

| member | source | states |
|---|---|---|
| ControllerTable.PreSetController | src/input_common/input_engine.cpp:11-14 | the device is registered; known devices keep their record; a new device gets the empty record |
| ControllerTable.PreSetButton | src/input_common/input_engine.cpp:16-20 | only this device's button map changes; it gains the index; an existing entry is untouched; no button query changes |
| ControllerTable.PreSetHatButton | src/input_common/input_engine.cpp:22-26 | only this device's hat map changes; it gains the index; an existing entry is untouched; no hat mask changes |
| ControllerTable.PreSetAxis | src/input_common/input_engine.cpp:28-32 | only this device's axis map changes; it gains the index; an existing entry is untouched; no axis query changes |
| ControllerTable.PreSetMotion | src/input_common/input_engine.cpp:34-38 | only this device's motion map changes; it gains the index; every existing sample is untouched; a new entry reads as the zero sample |
| ControllerTable.PreSetIdempotent | src/input_common/input_engine.cpp:11-38 | pre-setting twice equals pre-setting once, for the device and for every input kind |
| ControllerTable.PreSetAfterWriteKeepsValue | src/input_common/input_engine.cpp:16-93 | a pre-set after a write never overwrites the written button state, hat mask, axis value or motion sample |
| ControllerTable.GetButton | src/input_common/input_engine.cpp:95-110 | true iff the device and the button are known and the button is held |
| ControllerTable.GetHatButton | src/input_common/input_engine.cpp:112-127 | true iff the stored mask of a known hat shares a bit with the direction; an unknown device or hat reads false |
| ControllerTable.GetAxis | src/input_common/input_engine.cpp:129-144 | a known axis reads its stored value; an unknown device or axis reads 0.0 |
| ControllerTable.GetBattery | src/input_common/input_engine.cpp:146-156 | a known device reads its stored level; an unknown device reads Charging |
| ControllerTable.GetMotion | src/input_common/input_engine.cpp:158-168 | a known device reads its stored sample; an unknown device reads the zero sample |
| ControllerTable.WithButton | src/input_common/input_engine.cpp:40-49 | the written button reads back the new value; every other (device, button) query is unchanged |
| ControllerTable.WithHatButton | src/input_common/input_engine.cpp:51-60 | the written hat reads back the new mask; every other hat mask is unchanged |
| ControllerTable.WithAxis | src/input_common/input_engine.cpp:62-71 | the written axis reads back the new value; every other axis query is unchanged |
| ControllerTable.WithBattery | src/input_common/input_engine.cpp:73-82 | the device's level is the new one; every other device's level is unchanged |
| ControllerTable.WithMotion | src/input_common/input_engine.cpp:84-93 | the written motion reads back the new sample; the device's other samples and other devices are unchanged |
| ControllerTable.UnknownPadDefaults | src/input_common/input_engine.cpp:95-168 | on an unregistered device: buttons and hat directions read false, axes 0.0, battery Charging, motion the zero sample |
| ControllerTable.UnknownIndexDefaults | src/input_common/input_engine.cpp:103-141 | on a registered device: an unknown button or hat direction reads false and an unknown axis reads 0.0 |
| ControllerTable.ResetButtons | src/input_common/input_engine.cpp:170-179 | devices and indices are kept; every button reads released and every hat mask is 0; axes, motion and battery are untouched |
| ControllerTable.ResetAxes | src/input_common/input_engine.cpp:181-187 | devices, axis indices and all other state are kept; every axis reads 0.0 |
| MappingDetection.IsInputIdentifierEqual | src/input_common/input_engine.cpp:322-335 | true iff kind, index and device all match; the notifier plays no part |
| MappingDetection.Listeners | src/input_common/input_engine.cpp:189-199 | the notified keys are exactly those whose subscription names this device, kind and index and has a notifier |
| MappingDetection.ListenerNotifiedOnlyForItsInput | src/input_common/input_engine.cpp:322-335 | a subscription with a notifier hears a change iff device, kind and index are all its own |
| MappingDetection.ButtonEvents | src/input_common/input_engine.cpp:200-214 | at most one event; an event iff the new state differs from the stored one; it carries the new state |
| MappingDetection.HatEventCount | src/input_common/input_engine.cpp:228-243 | a hat sample yields popcount(value XOR stored) events |
| MappingDetection.HatEventsExact | src/input_common/input_engine.cpp:228-243 | every event names a changed direction bit; every changed bit is named; events come in ascending bit order |
| MappingDetection.HatChangesOnce | src/input_common/input_engine.cpp:228-243 | the hat events of a sample, counted as a multiset, are the changed directions, each exactly once |
| MappingDetection.HatDiagonalExample | src/input_common/input_engine.cpp:228-243 | a diagonal 0x05 from rest yields the events for bit 1 and then bit 4 |
| MappingDetection.AxisEvents | src/input_common/input_engine.cpp:257-269 | at most one event; an event iff the value moved by at least 0.5 either way; it carries the new value |
| MappingDetection.AxisThresholdExamples | src/input_common/input_engine.cpp:257-269 | from 0.0: 0.3 is ignored, 0.6 is reported, and -0.5 is reported (the threshold is inclusive) |
| MappingDetection.MotionEvents | src/input_common/input_engine.cpp:298-319 | at most one event; an event iff some accelerometer component is beyond ±1.5 or some gyroscope component beyond ±0.6; it carries the sample |
| MappingDetection.MotionActiveSomeComponent | src/input_common/input_engine.cpp:298-311 | the code's is_active flag holds iff some component is beyond its threshold |
| MappingDetection.MotionRestExample | src/input_common/input_engine.cpp:298-319 | a resting sample (gravity on one axis, small rotation) is not reported |
| Engine.ScanHatDirections | src/input_common/input_engine.cpp:231-243 | the 16-bit counter loop visits the bits 1..128 exactly once and yields exactly the hat events of the sample against the table |
| Engine.HatLoopStep | src/input_common/input_engine.cpp:231-235 | one loop step tests direction bit i; it emits iff that bit differs between the sample and the stored mask |
| Engine.LoggedOnce | src/input_common/input_engine.cpp:170-187 | a reset's observer log holds each event of its set exactly once and nothing else |
| Engine.ButtonReleaseLogged | src/input_common/input_engine.cpp:171-173 | releasing one more button adds its release event iff it was held, on top of the earlier buttons' releases |
| Engine.HatReleaseLogged | src/input_common/input_engine.cpp:174-176 | zeroing one more hat adds one release event per direction bit its mask held, on top of the earlier hats' |
| Engine.AxisCenteringLogged | src/input_common/input_engine.cpp:182-186 | centring one more axis adds a 0.0 event iff it was at least 0.5 off centre, on top of the earlier axes' |
| Engine.OneHatReleases | src/input_common/input_engine.cpp:174-176 | the release events of one hat are exactly the directions whose bit differs between the mask and 0 |
| Engine.ListenersLogged | src/input_common/input_engine.cpp:171-186 | writing one more index runs exactly its listeners on top of those of the indices written before |
| Engine.PadListenersLogged | src/input_common/input_engine.cpp:170-179 | resetting one more device runs exactly the listeners of its known buttons and hats on top of the earlier devices' |
| Engine.PadReleasesLogged | src/input_common/input_engine.cpp:170-179 | resetting one more device adds exactly its releases to the earlier devices' releases |
| Engine.PadAxisListenersLogged | src/input_common/input_engine.cpp:181-187 | centring one more device runs exactly the listeners of its known axes on top of the earlier devices' |
| Engine.PadCenteringsLogged | src/input_common/input_engine.cpp:181-187 | centring one more device adds exactly its centrings to the earlier devices' centrings |
| Engine.InputEngine.constructor | src/input_common/input_engine.cpp:345-353 | a new engine keeps its name, has no devices, no subscriptions, no observer handler, is not configuring, and its key counter is 0 |
| Engine.InputEngine.GetEngineName | src/input_common/input_engine.cpp:345-347 | returns the engine's name |
| Engine.InputEngine.PreSetController | src/input_common/input_engine.cpp:11-14 | the table becomes its device pre-set |
| Engine.InputEngine.PreSetButton | src/input_common/input_engine.cpp:16-20 | the table becomes its button pre-set |
| Engine.InputEngine.PreSetHatButton | src/input_common/input_engine.cpp:22-26 | the table becomes its hat pre-set |
| Engine.InputEngine.PreSetAxis | src/input_common/input_engine.cpp:28-32 | the table becomes its axis pre-set |
| Engine.InputEngine.PreSetMotion | src/input_common/input_engine.cpp:34-38 | the table becomes its motion pre-set |
| Engine.InputEngine.GetButton | src/input_common/input_engine.cpp:95-110 | true iff the device and the button are known and the button is held |
| Engine.InputEngine.GetHatButton | src/input_common/input_engine.cpp:112-127 | an unknown device or hat reads false; a known hat reads true iff its mask shares a bit with the direction |
| Engine.InputEngine.GetAxis | src/input_common/input_engine.cpp:129-144 | a known axis reads its stored value; otherwise 0.0 |
| Engine.InputEngine.GetBattery | src/input_common/input_engine.cpp:146-156 | a known device reads its stored level; otherwise Charging |
| Engine.InputEngine.GetMotion | src/input_common/input_engine.cpp:158-168 | a known device reads its stored sample; otherwise the zero sample |
| Engine.InputEngine.SetButton | src/input_common/input_engine.cpp:40-49 | outside configuring the value is stored; with an observer only the pre-set happens; otherwise the table is unchanged; matching listeners run once; the observer receives exactly the button events against the old state |
| Engine.InputEngine.SetHatButton | src/input_common/input_engine.cpp:51-60 | outside configuring the mask is stored, otherwise the table is unchanged; matching listeners run once; the observer receives exactly the hat events against the stored mask |
| Engine.InputEngine.SetAxis | src/input_common/input_engine.cpp:62-71 | outside configuring the value is stored, otherwise the table is unchanged; matching listeners run once; the observer receives exactly the axis events |
| Engine.InputEngine.SetBattery | src/input_common/input_engine.cpp:73-82 | outside configuring the level is stored; battery listeners (index 0) run once; the observer log is not in the frame, so a battery change is never reported |
| Engine.InputEngine.SetMotion | src/input_common/input_engine.cpp:84-93 | outside configuring the sample is stored; matching listeners run once; the observer receives exactly the motion events |
| Engine.InputEngine.ResetButtonState | src/input_common/input_engine.cpp:170-179 | outside configuring the table becomes ResetButtons of the old one, otherwise it is unchanged; the listeners of every known button and hat of every device run once each; while detecting, the observer receives exactly one release per held button and per set hat direction bit, and otherwise nothing |
| Engine.InputEngine.ReleasePad | src/input_common/input_engine.cpp:171-176 | one device's buttons are released and then its hats zeroed; its button and hat listeners run once each; while detecting, the observer receives exactly that device's releases |
| Engine.InputEngine.ReleasePadButtons | src/input_common/input_engine.cpp:171-173 | outside configuring every known button of the device is released and nothing else changes; each known button's listeners run once; while detecting, the observer receives exactly one release per held button |
| Engine.InputEngine.ReleasePadHats | src/input_common/input_engine.cpp:174-176 | outside configuring every known hat of the device is zeroed and nothing else changes; each known hat's listeners run once; while detecting, the observer receives exactly one release per set direction bit |
| Engine.InputEngine.ResetAnalogState | src/input_common/input_engine.cpp:181-187 | outside configuring the table becomes ResetAxes of the old one, otherwise it is unchanged; the listeners of every known axis of every device run once each; while detecting, the observer receives exactly one 0.0 event per axis at least 0.5 off centre, and otherwise nothing |
| Engine.InputEngine.CenterPadAxes | src/input_common/input_engine.cpp:182-186 | outside configuring every known axis of the device is 0.0 and nothing else changes; each known axis's listeners run once; while detecting, the observer receives exactly one 0.0 event per axis at least 0.5 off centre |
| Engine.InputEngine.NotifyListeners | src/input_common/input_engine.cpp:190-199 | the scan of the registry runs each matching notifier exactly once and no other |
| Engine.InputEngine.TriggerOnButtonChange | src/input_common/input_engine.cpp:189-215 | listeners as above; without configuring mode and an observer, nothing else; otherwise the button is pre-set and an event is sent iff the state differs from the stored one |
| Engine.InputEngine.TriggerOnHatButtonChange | src/input_common/input_engine.cpp:217-244 | listeners as above; in configuring mode with an observer the events are exactly HatEvents against the stored mask |
| Engine.InputEngine.TriggerOnAxisChange | src/input_common/input_engine.cpp:246-270 | listeners as above; in configuring mode with an observer the events are exactly AxisEvents against the stored value |
| Engine.InputEngine.TriggerOnBatteryChange | src/input_common/input_engine.cpp:272-284 | only the battery listeners of the device (index 0) run |
| Engine.InputEngine.TriggerOnMotionChange | src/input_common/input_engine.cpp:286-320 | listeners as above; in configuring mode with an observer the events are exactly MotionEvents |
| Engine.InputEngine.BeginConfiguration | src/input_common/input_engine.cpp:337-339 | the engine is in configuring mode |
| Engine.InputEngine.EndConfiguration | src/input_common/input_engine.cpp:341-343 | the engine is in normal mode |
| Engine.InputEngine.SetCallback | src/input_common/input_engine.cpp:349-353 | the subscription is stored under the counter's old value, which was never issued before and exceeds every key issued before; the counter advances by one; the key invariant is kept |
| Engine.InputEngine.SetMappingCallback | src/input_common/input_engine.cpp:355-358 | the observer is replaced |
| Engine.InputEngine.DeleteCallback | src/input_common/input_engine.cpp:360-368 | a registered key is removed; an unknown key leaves the registry unchanged; the key invariant is kept |
| Scenarios.ConfigureThenPress | src/input_common/input_engine.cpp:11-49 | a press while configuring is reported once and not stored; the same press after configuring ends is stored |
| Scenarios.ListenerHearsOnlyItsButton | src/input_common/input_engine.cpp:189-199 | a listener on button 5 of device a hears only button 5 of a, and not button 6 of a or button 5 of device b |
| Scenarios.KeysAreNeverReused | src/input_common/input_engine.cpp:349-368 | keys are 0, 1, 2 and then 3 after key 1 is deleted; deleting it again, or deleting an unknown key, changes nothing |

## Left out

- The mutexes (`mutex`, `mutex_callback`) and all concurrency are not modelled. Every call runs alone, and a callback does not re-enter the engine.
- Logging (`LOG_ERROR`) has no effect on state and is not modelled.
- Listener notifiers and the mapping observer are foreign code. Only the fact that they run, and with which event, is recorded, in ghost logs.
- Engine.InputEngine.NotifyListeners: the matching keys are added to the notification log together after the registry scan. The code calls each notifier during the scan, and the relative order of notifiers is not modelled, because `unordered_map` iteration order is unspecified.
- The `std::out_of_range` that `.at` throws for an unregistered device (pre-sets, setters, the button trigger) or an unknown motion index (`GetMotion`) becomes a precondition. The engine never catches it.
- `f32` arithmetic is modelled with exact reals. Rounding at the 0.5, 1.5 and 0.6 thresholds is not captured, and neither are NaN and infinity. With a NaN axis sample the code reports the axis, because its early return needs `difference < 0.5f` (line 260) and that comparison is false for NaN. A NaN motion component never makes the sample active, because every threshold comparison (lines 302-307) is false for NaN. An infinite axis sample against the same stored infinity is also reported, because the difference is NaN; equal finite values would give no event.
- `GetHatButtonName` is not part of this model. A hat event carries the direction bit, and the name mapping lies outside this file.
- `input_engine.h` is not part of this model. The default battery level of a new record is taken to be the enumeration's zero value (`None`), and the key counter is taken to start at 0.
- Overflow of the `int` key counter after 2^31 subscriptions is not modelled. The counter is an unbounded integer.
- `src/core/hle/service/filesystem/fsp/fs_i_file.h` is unrelated to the input engine and is not modelled.
- Engine.InputEngine.ResetButtonState: the listener runs and observer events are stated as exact multisets, not as sequences. Their order follows `unordered_map` iteration order, which is unspecified.
- Engine.InputEngine.ReleasePad: the order of listener runs and observer events is not stated, for the same reason.
- Engine.InputEngine.ReleasePadButtons: the order of listener runs and observer events is not stated, for the same reason.
- Engine.InputEngine.ReleasePadHats: the order of listener runs and observer events across hats is not stated, for the same reason. The code emits one hat's events in ascending bit order, but this contract states them only as a multiset; of the hat operations only `SetHatButton` states the order, through `HatEvents`.
- Engine.InputEngine.ResetAnalogState: the order of listener runs and observer events is not stated, for the same reason.
- Engine.InputEngine.CenterPadAxes: the order of listener runs and observer events is not stated, for the same reason.
