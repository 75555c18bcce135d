// Value types shared by the input engine: device identities, per-device
// controller state, listener subscriptions and mapping events.

module InputTypes {

  /** Device identity: GUID, logical pad index and physical port. Equality is
      structural, so two identifiers name the same device iff all three agree. */
  datatype PadIdentifier = PadIdentifier(guid: seq<bv8>, pad: int, port: int)

  /** Charge level a backend reports for a device. */
  datatype BatteryLevel = None | Empty | Critical | Low | Medium | Full | Charging

  /** The level a freshly registered controller holds: the enumeration's zero value. */
  const DefaultBattery: BatteryLevel := BatteryLevel.None

  /** A six-axis motion sample (single-precision components modelled as reals). */
  datatype BasicMotion = BasicMotion(
    gyroX: real, gyroY: real, gyroZ: real,
    accelX: real, accelY: real, accelZ: real,
    deltaTimestamp: nat)

  /** The value-initialised sample: every component zero. */
  const ZeroMotion: BasicMotion := BasicMotion(0.0, 0.0, 0.0, 0.0, 0.0, 0.0, 0)

  /** The kind of input a listener watches or a mapping event names. */
  datatype EngineInputType = None | Analog | Button | HatButton | Motion | Battery

  /** Everything the engine knows about one device. Hat masks are 8-bit
      direction fields, one bit per compass direction. */
  datatype ControllerData = ControllerData(
    buttons: map<int, bool>,
    hatButtons: map<int, bv8>,
    axes: map<int, real>,
    motions: map<int, BasicMotion>,
    battery: BatteryLevel)

  /** What `try_emplace(identifier)` inserts for a device seen for the first time. */
  const EmptyController: ControllerData :=
    ControllerData(map[], map[], map[], map[], DefaultBattery)

  /** A listener's notifier; only whether it is set matters to the engine,
      its body is foreign code. */
  datatype InputCallback = InputCallback(onChange: bool)

  /** A subscription: which input on which device, and its notifier. */
  datatype InputIdentifier = InputIdentifier(
    identifier: PadIdentifier,
    kind: EngineInputType,
    index: int,
    callback: InputCallback)

  /** The single mapping observer slot; `onData` says whether a handler is set. */
  datatype MappingCallback = MappingCallback(onData: bool)

  /** Kind-specific payload of a detected binding. A hat event carries the
      direction bit that changed. */
  datatype MappingValue =
    | ButtonValue(pressed: bool)
    | HatValue(direction: bv8)
    | AxisValue(value: real)
    | MotionValue(sample: BasicMotion)

  /** A detected binding as delivered to the mapping observer. */
  datatype MappingData = MappingData(
    engine: string,
    pad: PadIdentifier,
    index: int,
    value: MappingValue)
  {
    /** The input kind the event is tagged with. */
    function Kind(): EngineInputType {
      match value
      case ButtonValue(_) => EngineInputType.Button
      case HatValue(_) => EngineInputType.HatButton
      case AxisValue(_) => EngineInputType.Analog
      case MotionValue(_) => EngineInputType.Motion
    }
  }
}
