// Client-side sequences of engine calls, with what the engine guarantees
// at the end of each.

module Scenarios {
  import opened InputTypes
  import opened MappingDetection
  import opened Engine

  /** A device is registered with one button, then pressed once while
      configuring (reported, not stored) and once after (stored). An unknown
      device must be registered with `PreSetController` first: the per-input
      pre-sets look the device up with a throwing accessor. */
  method ConfigureThenPress(d: PadIdentifier) returns (before: bool, during: bool, after: bool, ghost events: seq<MappingData>)
    ensures !before && !during && after
    ensures events == [MappingData("emu", d, 0, ButtonValue(true))]
  {
    var engine := new InputEngine("emu");
    engine.PreSetController(d);
    engine.PreSetButton(d, 0);
    before := engine.GetButton(d, 0);
    engine.BeginConfiguration();
    engine.SetMappingCallback(MappingCallback(true));
    engine.SetButton(d, 0, true);
    during := engine.GetButton(d, 0);
    events := engine.mappingEvents;
    engine.EndConfiguration();
    engine.SetButton(d, 0, true);
    after := engine.GetButton(d, 0);
  }

  /** A listener on button 5 of device `a` hears button 5 of `a` and nothing
      on button 6 of `a` or on button 5 of another device. */
  method ListenerHearsOnlyItsButton(a: PadIdentifier, b: PadIdentifier)
    returns (key: int, ghost onOwn: nat, ghost onOtherIndex: nat, ghost onOtherPad: nat)
    requires a != b
    ensures onOwn == 1 && onOtherIndex == 0 && onOtherPad == 0
  {
    var engine := new InputEngine("emu");
    engine.PreSetController(a);
    engine.PreSetController(b);
    var subscription := InputIdentifier(a, EngineInputType.Button, 5, InputCallback(true));
    key := engine.SetCallback(subscription);
    assert engine.callbacks == map[key := subscription];
    assert engine.notified[key] == 0;
    ListenerNotifiedOnlyForItsInput(engine.callbacks, key, a, EngineInputType.Button, 6);
    engine.SetButton(a, 6, true);
    onOtherIndex := engine.notified[key];
    ListenerNotifiedOnlyForItsInput(engine.callbacks, key, b, EngineInputType.Button, 5);
    engine.SetButton(b, 5, true);
    onOtherPad := engine.notified[key];
    ListenerNotifiedOnlyForItsInput(engine.callbacks, key, a, EngineInputType.Button, 5);
    engine.SetButton(a, 5, true);
    onOwn := engine.notified[key];
  }

  /** Keys grow by one per subscription and a deleted key is not reused;
      deleting a key that is not registered changes nothing. */
  method KeysAreNeverReused(input: InputIdentifier) returns (k0: int, k1: int, k2: int, k3: int, live: int)
    ensures k0 == 0 && k1 == 1 && k2 == 2 && k3 == 3
    ensures live == 3
  {
    var engine := new InputEngine("emu");
    k0 := engine.SetCallback(input);
    k1 := engine.SetCallback(input);
    k2 := engine.SetCallback(input);
    engine.DeleteCallback(k1);
    k3 := engine.SetCallback(input);
    assert engine.callbacks.Keys == {0, 2, 3};
    engine.DeleteCallback(k1);
    engine.DeleteCallback(42);
    assert engine.callbacks.Keys == {0, 2, 3};
    live := |engine.callbacks|;
  }
}
