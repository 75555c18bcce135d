// The device state table: per-device controller state keyed by identity.
// Each function below is what one lookup or one map operation of the engine
// (`try_emplace`, `insert_or_assign`, `find`) does to the table as a value.

module ControllerTable {
  import opened InputTypes

  type Table = map<PadIdentifier, ControllerData>

  /** The table changed at most the entry of `pad`; the set of devices is the same. */
  ghost predicate OnlyPadChanged(t: Table, r: Table, pad: PadIdentifier) {
    r.Keys == t.Keys && forall p :: p in t && p != pad ==> r[p] == t[p]
  }

  /** `try_emplace`: insert `v` under `k` unless `k` is already present. */
  function TryEmplace<K, V>(m: map<K, V>, k: K, v: V): (r: map<K, V>)
    ensures r.Keys == m.Keys + {k}
    ensures forall x :: x in m ==> r[x] == m[x]
    ensures k !in m ==> r[k] == v
  {
    if k in m then m else m[k := v]
  }

  // ---------------------------------------------------------------- queries

  /** Stored button state; false for an unknown device or button. */
  function GetButton(t: Table, pad: PadIdentifier, button: int): (r: bool)
    ensures r <==> pad in t && button in t[pad].buttons && t[pad].buttons[button]
  {
    if pad !in t then false
    else if button !in t[pad].buttons then false
    else t[pad].buttons[button]
  }

  /** The stored hat mask as the hat-detection rule reads it: 0 when unknown. */
  function HatMask(t: Table, pad: PadIdentifier, button: int): bv8 {
    if pad in t && button in t[pad].hatButtons then t[pad].hatButtons[button] else 0
  }

  /** Whether any bit of `direction` is set in the stored hat mask; false for
      an unknown device or hat. */
  function GetHatButton(t: Table, pad: PadIdentifier, button: int, direction: bv8): (r: bool)
    ensures r <==> HatMask(t, pad, button) & direction != 0
  {
    if pad !in t then false
    else if button !in t[pad].hatButtons then false
    else t[pad].hatButtons[button] & direction != 0
  }

  /** Stored axis value; 0.0 for an unknown device or axis. */
  function GetAxis(t: Table, pad: PadIdentifier, axis: int): (r: real)
    ensures pad in t && axis in t[pad].axes ==> r == t[pad].axes[axis]
    ensures pad !in t || axis !in t[pad].axes ==> r == 0.0
  {
    if pad !in t then 0.0
    else if axis !in t[pad].axes then 0.0
    else t[pad].axes[axis]
  }

  /** Stored battery level; `Charging` for an unknown device. */
  function GetBattery(t: Table, pad: PadIdentifier): (r: BatteryLevel)
    ensures pad in t ==> r == t[pad].battery
    ensures pad !in t ==> r == BatteryLevel.Charging
  {
    if pad !in t then BatteryLevel.Charging else t[pad].battery
  }

  /** Stored motion sample; the zero sample for an unknown device. On a known
      device the index must exist (the source reads it with `.at`). */
  function GetMotion(t: Table, pad: PadIdentifier, motion: int): (r: BasicMotion)
    requires pad !in t || motion in t[pad].motions
    ensures pad in t ==> r == t[pad].motions[motion]
    ensures pad !in t ==> r == ZeroMotion
  {
    if pad !in t then ZeroMotion else t[pad].motions[motion]
  }

  // --------------------------------------------------------------- pre-sets

  /** Registers a device with an empty record unless it is already known. */
  function PreSetController(t: Table, pad: PadIdentifier): (r: Table)
    ensures r.Keys == t.Keys + {pad}
    ensures forall p :: p in t ==> r[p] == t[p]
    ensures pad !in t ==> r[pad] == EmptyController
  {
    TryEmplace(t, pad, EmptyController)
  }

  /** Registers button `button` as released unless it is already known. */
  function PreSetButton(t: Table, pad: PadIdentifier, button: int): (r: Table)
    requires pad in t
    ensures OnlyPadChanged(t, r, pad)
    ensures r[pad] == t[pad].(buttons := r[pad].buttons)
    ensures r[pad].buttons.Keys == t[pad].buttons.Keys + {button}
    ensures button in t[pad].buttons ==> r == t
    ensures forall p, b :: GetButton(r, p, b) == GetButton(t, p, b)
  {
    t[pad := t[pad].(buttons := TryEmplace(t[pad].buttons, button, false))]
  }

  /** Registers hat `button` with mask 0 unless it is already known. */
  function PreSetHatButton(t: Table, pad: PadIdentifier, button: int): (r: Table)
    requires pad in t
    ensures OnlyPadChanged(t, r, pad)
    ensures r[pad] == t[pad].(hatButtons := r[pad].hatButtons)
    ensures r[pad].hatButtons.Keys == t[pad].hatButtons.Keys + {button}
    ensures button in t[pad].hatButtons ==> r == t
    ensures forall p, h :: HatMask(r, p, h) == HatMask(t, p, h)
  {
    t[pad := t[pad].(hatButtons := TryEmplace(t[pad].hatButtons, button, 0))]
  }

  /** Registers axis `axis` at 0.0 unless it is already known. */
  function PreSetAxis(t: Table, pad: PadIdentifier, axis: int): (r: Table)
    requires pad in t
    ensures OnlyPadChanged(t, r, pad)
    ensures r[pad] == t[pad].(axes := r[pad].axes)
    ensures r[pad].axes.Keys == t[pad].axes.Keys + {axis}
    ensures axis in t[pad].axes ==> r == t
    ensures forall p, a :: GetAxis(r, p, a) == GetAxis(t, p, a)
  {
    t[pad := t[pad].(axes := TryEmplace(t[pad].axes, axis, 0.0))]
  }

  /** Registers motion `motion` with the zero sample unless it is already known. */
  function PreSetMotion(t: Table, pad: PadIdentifier, motion: int): (r: Table)
    requires pad in t
    ensures OnlyPadChanged(t, r, pad)
    ensures r[pad] == t[pad].(motions := r[pad].motions)
    ensures r[pad].motions.Keys == t[pad].motions.Keys + {motion}
    ensures motion in t[pad].motions ==> r == t
    ensures forall m :: m in t[pad].motions ==> r[pad].motions[m] == t[pad].motions[m]
    ensures motion !in t[pad].motions ==> GetMotion(r, pad, motion) == ZeroMotion
  {
    t[pad := t[pad].(motions := TryEmplace(t[pad].motions, motion, ZeroMotion))]
  }

  // ----------------------------------------------------------------- writes

  /** `insert_or_assign` of a button state. */
  function WithButton(t: Table, pad: PadIdentifier, button: int, value: bool): (r: Table)
    requires pad in t
    ensures OnlyPadChanged(t, r, pad)
    ensures r[pad] == t[pad].(buttons := r[pad].buttons)
    ensures r[pad].buttons.Keys == t[pad].buttons.Keys + {button}
    ensures forall p, b :: GetButton(r, p, b) == if p == pad && b == button then value else GetButton(t, p, b)
  {
    t[pad := t[pad].(buttons := t[pad].buttons[button := value])]
  }

  /** `insert_or_assign` of a hat mask. */
  function WithHatButton(t: Table, pad: PadIdentifier, button: int, value: bv8): (r: Table)
    requires pad in t
    ensures OnlyPadChanged(t, r, pad)
    ensures r[pad] == t[pad].(hatButtons := r[pad].hatButtons)
    ensures r[pad].hatButtons.Keys == t[pad].hatButtons.Keys + {button}
    ensures forall p, h :: HatMask(r, p, h) == if p == pad && h == button then value else HatMask(t, p, h)
  {
    t[pad := t[pad].(hatButtons := t[pad].hatButtons[button := value])]
  }

  /** `insert_or_assign` of an axis value. */
  function WithAxis(t: Table, pad: PadIdentifier, axis: int, value: real): (r: Table)
    requires pad in t
    ensures OnlyPadChanged(t, r, pad)
    ensures r[pad] == t[pad].(axes := r[pad].axes)
    ensures r[pad].axes.Keys == t[pad].axes.Keys + {axis}
    ensures forall p, a :: GetAxis(r, p, a) == if p == pad && a == axis then value else GetAxis(t, p, a)
  {
    t[pad := t[pad].(axes := t[pad].axes[axis := value])]
  }

  /** Assignment of the device's battery level. */
  function WithBattery(t: Table, pad: PadIdentifier, value: BatteryLevel): (r: Table)
    requires pad in t
    ensures OnlyPadChanged(t, r, pad)
    ensures r[pad] == t[pad].(battery := value)
    ensures forall p :: GetBattery(r, p) == if p == pad then value else GetBattery(t, p)
  {
    t[pad := t[pad].(battery := value)]
  }

  /** `insert_or_assign` of a motion sample. */
  function WithMotion(t: Table, pad: PadIdentifier, motion: int, value: BasicMotion): (r: Table)
    requires pad in t
    ensures OnlyPadChanged(t, r, pad)
    ensures r[pad] == t[pad].(motions := r[pad].motions)
    ensures r[pad].motions.Keys == t[pad].motions.Keys + {motion}
    ensures GetMotion(r, pad, motion) == value
    ensures forall m :: m in t[pad].motions && m != motion ==> GetMotion(r, pad, m) == GetMotion(t, pad, m)
  {
    t[pad := t[pad].(motions := t[pad].motions[motion := value])]
  }

  // ----------------------------------------------------------------- resets

  /** One device with every known button released. */
  function ClearButtons(c: ControllerData): ControllerData {
    c.(buttons := map b | b in c.buttons :: false)
  }

  /** One device with every known hat at mask 0. */
  function ClearHats(c: ControllerData): ControllerData {
    c.(hatButtons := map h | h in c.hatButtons :: 0 as bv8)
  }

  /** One device after a button reset: buttons first, then hats. */
  function ReleaseButtons(c: ControllerData): ControllerData {
    ClearHats(ClearButtons(c))
  }

  /** The table after `ResetButtonState` outside configuring mode. */
  function ResetButtons(t: Table): (r: Table)
    ensures r.Keys == t.Keys
    ensures forall p :: p in t ==> r[p].buttons.Keys == t[p].buttons.Keys
    ensures forall p :: p in t ==> r[p].hatButtons.Keys == t[p].hatButtons.Keys
    ensures forall p :: p in t ==> r[p].axes == t[p].axes && r[p].motions == t[p].motions && r[p].battery == t[p].battery
    ensures forall p, b :: !GetButton(r, p, b)
    ensures forall p, h :: HatMask(r, p, h) == 0
  {
    map p | p in t :: ReleaseButtons(t[p])
  }

  /** One device after an analog reset: every known axis at 0.0. */
  function CenterAxes(c: ControllerData): ControllerData {
    c.(axes := map a | a in c.axes :: 0.0)
  }

  /** The table after `ResetAnalogState` outside configuring mode. */
  function ResetAxes(t: Table): (r: Table)
    ensures r.Keys == t.Keys
    ensures forall p :: p in t ==> r[p].axes.Keys == t[p].axes.Keys
    ensures forall p :: p in t ==> r[p] == t[p].(axes := r[p].axes)
    ensures forall p, a :: GetAxis(r, p, a) == 0.0
  {
    map p | p in t :: CenterAxes(t[p])
  }

  // ----------------------------------------------------------------- lemmas

  /** Queries against a device that was never registered return the
      documented defaults. */
  lemma UnknownPadDefaults(t: Table, pad: PadIdentifier)
    requires pad !in t
    ensures forall b :: !GetButton(t, pad, b)
    ensures forall h, d :: !GetHatButton(t, pad, h, d)
    ensures forall a :: GetAxis(t, pad, a) == 0.0
    ensures GetBattery(t, pad) == BatteryLevel.Charging
    ensures forall m :: GetMotion(t, pad, m) == ZeroMotion
  {
  }

  /** Queries against a registered device for an index it does not know
      return the same defaults as for an unknown device. */
  lemma UnknownIndexDefaults(t: Table, pad: PadIdentifier)
    requires pad in t
    ensures forall b :: b !in t[pad].buttons ==> !GetButton(t, pad, b)
    ensures forall h, d :: h !in t[pad].hatButtons ==> !GetHatButton(t, pad, h, d)
    ensures forall a :: a !in t[pad].axes ==> GetAxis(t, pad, a) == 0.0
  {
  }

  /** Pre-setting twice is the same as pre-setting once, for every kind. */
  lemma PreSetIdempotent(t: Table, pad: PadIdentifier, index: int)
    ensures PreSetController(PreSetController(t, pad), pad) == PreSetController(t, pad)
    ensures pad in t ==> PreSetButton(PreSetButton(t, pad, index), pad, index) == PreSetButton(t, pad, index)
    ensures pad in t ==> PreSetHatButton(PreSetHatButton(t, pad, index), pad, index) == PreSetHatButton(t, pad, index)
    ensures pad in t ==> PreSetAxis(PreSetAxis(t, pad, index), pad, index) == PreSetAxis(t, pad, index)
    ensures pad in t ==> PreSetMotion(PreSetMotion(t, pad, index), pad, index) == PreSetMotion(t, pad, index)
  {
  }

  /** Pre-setting a device never overwrites what a write stored before it. */
  lemma PreSetAfterWriteKeepsValue(t: Table, pad: PadIdentifier, index: int,
                                   pressed: bool, mask: bv8, axis: real, sample: BasicMotion)
    requires pad in t
    ensures GetButton(PreSetButton(WithButton(t, pad, index, pressed), pad, index), pad, index) == pressed
    ensures HatMask(PreSetHatButton(WithHatButton(t, pad, index, mask), pad, index), pad, index) == mask
    ensures GetAxis(PreSetAxis(WithAxis(t, pad, index, axis), pad, index), pad, index) == axis
    ensures GetMotion(PreSetMotion(WithMotion(t, pad, index, sample), pad, index), pad, index) == sample
    ensures PreSetController(WithButton(t, pad, index, pressed), pad) == WithButton(t, pad, index, pressed)
  {
  }
}
