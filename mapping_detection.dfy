// Listener matching and the mapping-detection rules: which subscriptions a
// change notifies, and which detected-binding events a change in configuring
// mode yields, per input kind.

module MappingDetection {
  import opened InputTypes

  /** Deflection an axis must reach before it counts as deliberate. */
  const AxisThreshold: real := 0.5
  /** Accelerometer magnitude above which a motion sample counts as a gesture. */
  const AccelThreshold: real := 1.5
  /** Gyroscope magnitude above which a motion sample counts as a gesture. */
  const GyroThreshold: real := 0.6

  function Abs(x: real): (r: real)
    ensures r >= 0.0 && (r == x || r == -x)
  {
    if x < 0.0 then -x else x
  }

  // ------------------------------------------------------------- listeners

  /** Whether a subscription watches input `index` of kind `kind` on device `pad`. */
  function IsInputIdentifierEqual(input: InputIdentifier, pad: PadIdentifier, kind: EngineInputType, index: int): (r: bool)
    ensures r <==> input == InputIdentifier(pad, kind, index, input.callback)
  {
    if input.kind != kind then false
    else if input.index != index then false
    else if input.identifier != pad then false
    else true
  }

  /** Keys of the subscriptions whose notifier a change of (`pad`, `kind`,
      `index`) invokes. */
  ghost function Listeners(callbacks: map<int, InputIdentifier>, pad: PadIdentifier, kind: EngineInputType, index: int): (r: set<int>)
    ensures forall k :: k in r <==> k in callbacks && callbacks[k] == InputIdentifier(pad, kind, index, InputCallback(true))
  {
    set k | k in callbacks && IsInputIdentifierEqual(callbacks[k], pad, kind, index) && callbacks[k].callback.onChange
  }

  /** A subscription is notified by exactly the changes of the input it names:
      another index, another kind or another device leaves it silent. */
  lemma ListenerNotifiedOnlyForItsInput(callbacks: map<int, InputIdentifier>, key: int, pad: PadIdentifier, kind: EngineInputType, index: int)
    requires key in callbacks && callbacks[key].callback.onChange
    ensures key in Listeners(callbacks, pad, kind, index) <==>
              callbacks[key].identifier == pad && callbacks[key].kind == kind && callbacks[key].index == index
  {
  }

  // ----------------------------------------------------------------- button

  /** Events for a button sample: one carrying the new state iff it differs
      from the stored state. */
  function ButtonEvents(engine: string, pad: PadIdentifier, button: int, value: bool, stored: bool): (r: seq<MappingData>)
    ensures |r| <= 1
    ensures r != [] <==> value != stored
    ensures forall e :: e in r ==> e == MappingData(engine, pad, button, ButtonValue(value))
  {
    if value == stored then [] else [MappingData(engine, pad, button, ButtonValue(value))]
  }

  // -------------------------------------------------------------------- hat

  /** The direction bit at position `i`: 1, 2, 4, ..., 128. */
  function Bit(i: nat): bv8
    requires i < 8
  {
    (1 as bv8) << i
  }

  /** Whether direction `i` is set in `value` but not in `stored`, or the reverse. */
  predicate HatBitDiffers(value: bv8, stored: bv8, i: nat)
    requires i < 8
  {
    (value & Bit(i) != 0) != (stored & Bit(i) != 0)
  }

  /** The event naming direction bit `i` of hat `button`. */
  function HatEvent(engine: string, pad: PadIdentifier, button: int, i: nat): MappingData
    requires i < 8
  {
    MappingData(engine, pad, button, HatValue(Bit(i)))
  }

  /** Events for the first `n` direction bits, lowest bit first. */
  function HatChanges(engine: string, pad: PadIdentifier, button: int, value: bv8, stored: bv8, n: nat): seq<MappingData>
    requires n <= 8
  {
    if n == 0 then []
    else HatChanges(engine, pad, button, value, stored, n - 1)
         + (if HatBitDiffers(value, stored, n - 1) then [HatEvent(engine, pad, button, n - 1)] else [])
  }

  /** Events for a hat sample: one per direction bit that differs from the stored mask. */
  function HatEvents(engine: string, pad: PadIdentifier, button: int, value: bv8, stored: bv8): seq<MappingData> {
    HatChanges(engine, pad, button, value, stored, 8)
  }

  /** Number of set bits among the first `n` positions. */
  function PopcountBelow(x: bv8, n: nat): nat
    requires n <= 8
  {
    if n == 0 then 0 else PopcountBelow(x, n - 1) + (if x & Bit(n - 1) != 0 then 1 else 0)
  }

  function Popcount(x: bv8): nat {
    PopcountBelow(x, 8)
  }

  /** A single bit differs between two masks iff it is set in their exclusive or. */
  lemma DiffersIsXorBit(value: bv8, stored: bv8, i: nat)
    requires i < 8
    ensures HatBitDiffers(value, stored, i) <==> (value ^ stored) & Bit(i) != 0
  {
    assert Bit(i) == 1 || Bit(i) == 2 || Bit(i) == 4 || Bit(i) == 8
        || Bit(i) == 16 || Bit(i) == 32 || Bit(i) == 64 || Bit(i) == 128;
  }

  /** As many events as changed direction bits among the first `n`. */
  lemma {:induction false} HatChangesCount(engine: string, pad: PadIdentifier, button: int, value: bv8, stored: bv8, n: nat)
    requires n <= 8
    ensures |HatChanges(engine, pad, button, value, stored, n)| == PopcountBelow(value ^ stored, n)
  {
    if n > 0 {
      HatChangesCount(engine, pad, button, value, stored, n - 1);
      DiffersIsXorBit(value, stored, n - 1);
    }
  }

  /** A hat sample yields popcount(value XOR stored) events. */
  lemma HatEventCount(engine: string, pad: PadIdentifier, button: int, value: bv8, stored: bv8)
    ensures |HatEvents(engine, pad, button, value, stored)| == Popcount(value ^ stored)
  {
    HatChangesCount(engine, pad, button, value, stored, 8);
  }

  /** Every event among the first `n` bits names a bit that differs. */
  lemma {:induction false} HatChangesSound(engine: string, pad: PadIdentifier, button: int, value: bv8, stored: bv8, n: nat)
    requires n <= 8
    ensures forall e :: e in HatChanges(engine, pad, button, value, stored, n) ==>
              exists i :: 0 <= i < n && HatBitDiffers(value, stored, i) && e == HatEvent(engine, pad, button, i)
  {
    if n > 0 {
      HatChangesSound(engine, pad, button, value, stored, n - 1);
    }
  }

  /** Every differing bit among the first `n` has its event. */
  lemma {:induction false} HatChangesComplete(engine: string, pad: PadIdentifier, button: int, value: bv8, stored: bv8, n: nat)
    requires n <= 8
    ensures forall i :: 0 <= i < n && HatBitDiffers(value, stored, i) ==>
              HatEvent(engine, pad, button, i) in HatChanges(engine, pad, button, value, stored, n)
  {
    if n > 0 {
      HatChangesComplete(engine, pad, button, value, stored, n - 1);
    }
  }

  /** The events among the first `n` bits come in strictly ascending bit order,
      so no direction is reported twice. */
  lemma {:induction false} HatChangesOrdered(engine: string, pad: PadIdentifier, button: int, value: bv8, stored: bv8, n: nat)
    requires n <= 8
    ensures forall j, k :: 0 <= j < k < |HatChanges(engine, pad, button, value, stored, n)| ==>
              DirectionBefore(HatChanges(engine, pad, button, value, stored, n)[j],
                              HatChanges(engine, pad, button, value, stored, n)[k])
  {
    if n > 0 {
      HatChangesOrdered(engine, pad, button, value, stored, n - 1);
      var prev := HatChanges(engine, pad, button, value, stored, n - 1);
      var cur := HatChanges(engine, pad, button, value, stored, n);
      if HatBitDiffers(value, stored, n - 1) {
        assert cur == prev + [HatEvent(engine, pad, button, n - 1)];
        HatChangesSound(engine, pad, button, value, stored, n - 1);
        forall j, k | 0 <= j < k < |cur|
          ensures DirectionBefore(cur[j], cur[k])
        {
          assert cur[j] == prev[j] && prev[j] in prev;
          if k == |prev| {
            var i :| 0 <= i < n - 1 && HatBitDiffers(value, stored, i) && prev[j] == HatEvent(engine, pad, button, i);
            BitIncreasing(i, n - 1);
          } else {
            assert cur[k] == prev[k];
          }
        }
      } else {
        assert cur == prev;
      }
    }
  }

  /** A hat sample yields exactly one event per differing direction bit, in
      ascending bit order. */
  lemma HatEventsExact(engine: string, pad: PadIdentifier, button: int, value: bv8, stored: bv8)
    ensures forall e :: e in HatEvents(engine, pad, button, value, stored) ==>
              exists i :: 0 <= i < 8 && HatBitDiffers(value, stored, i) && e == HatEvent(engine, pad, button, i)
    ensures forall i :: 0 <= i < 8 && HatBitDiffers(value, stored, i) ==>
              HatEvent(engine, pad, button, i) in HatEvents(engine, pad, button, value, stored)
    ensures forall j, k :: 0 <= j < k < |HatEvents(engine, pad, button, value, stored)| ==>
              DirectionBefore(HatEvents(engine, pad, button, value, stored)[j], HatEvents(engine, pad, button, value, stored)[k])
  {
    HatChangesSound(engine, pad, button, value, stored, 8);
    HatChangesComplete(engine, pad, button, value, stored, 8);
    HatChangesOrdered(engine, pad, button, value, stored, 8);
  }

  /** The events for the differing direction bits among the first `n`, as a set. */
  ghost function ChangedDirections(engine: string, pad: PadIdentifier, button: int, value: bv8, stored: bv8, n: nat): set<MappingData>
    requires n <= 8
  {
    set i: nat | i < n && HatBitDiffers(value, stored, i) :: HatEvent(engine, pad, button, i)
  }

  /** The multiset of a union of disjoint sets is the sum of their multisets. */
  lemma DisjointUnion<T>(a: set<T>, b: set<T>)
    requires a !! b
    ensures multiset(a + b) == multiset(a) + multiset(b)
  {
    assert forall x :: multiset(a + b)[x] == (multiset(a) + multiset(b))[x];
  }

  /** The event of direction bit `n - 1`, if that bit differs. */
  ghost function LastChange(engine: string, pad: PadIdentifier, button: int, value: bv8, stored: bv8, n: nat): set<MappingData>
    requires 0 < n <= 8
  {
    if HatBitDiffers(value, stored, n - 1) then {HatEvent(engine, pad, button, n - 1)} else {}
  }

  /** Every event of the first `n` bits is one of the lower bits' or bit `n - 1`'s. */
  lemma ChangedDirectionsSplit(engine: string, pad: PadIdentifier, button: int, value: bv8, stored: bv8, n: nat)
    requires 0 < n <= 8
    ensures ChangedDirections(engine, pad, button, value, stored, n)
            <= ChangedDirections(engine, pad, button, value, stored, n - 1) + LastChange(engine, pad, button, value, stored, n)
  {
    forall e | e in ChangedDirections(engine, pad, button, value, stored, n)
      ensures e in ChangedDirections(engine, pad, button, value, stored, n - 1) + LastChange(engine, pad, button, value, stored, n)
    {
      var i: nat :| i < n && HatBitDiffers(value, stored, i) && e == HatEvent(engine, pad, button, i);
      if i < n - 1 {
        assert e in ChangedDirections(engine, pad, button, value, stored, n - 1);
      }
    }
  }

  /** The lower bits' events stay, and none of them is bit `n - 1`'s. */
  lemma ChangedDirectionsKeep(engine: string, pad: PadIdentifier, button: int, value: bv8, stored: bv8, n: nat)
    requires 0 < n <= 8
    ensures ChangedDirections(engine, pad, button, value, stored, n - 1) <= ChangedDirections(engine, pad, button, value, stored, n)
    ensures ChangedDirections(engine, pad, button, value, stored, n - 1) !! LastChange(engine, pad, button, value, stored, n)
  {
    forall e | e in ChangedDirections(engine, pad, button, value, stored, n - 1)
      ensures e in ChangedDirections(engine, pad, button, value, stored, n)
      ensures e != HatEvent(engine, pad, button, n - 1)
    {
      var i: nat :| i < n - 1 && HatBitDiffers(value, stored, i) && e == HatEvent(engine, pad, button, i);
      BitIncreasing(i, n - 1);
    }
  }

  /** The events among the first `n` bits are those of the differing bits,
      each exactly once. */
  lemma {:induction false} HatChangesOnce(engine: string, pad: PadIdentifier, button: int, value: bv8, stored: bv8, n: nat)
    requires n <= 8
    ensures multiset(HatChanges(engine, pad, button, value, stored, n)) == multiset(ChangedDirections(engine, pad, button, value, stored, n))
  {
    if n > 0 {
      HatChangesOnce(engine, pad, button, value, stored, n - 1);
      var prev := ChangedDirections(engine, pad, button, value, stored, n - 1);
      var last := LastChange(engine, pad, button, value, stored, n);
      ChangedDirectionsSplit(engine, pad, button, value, stored, n);
      ChangedDirectionsKeep(engine, pad, button, value, stored, n);
      assert last <= ChangedDirections(engine, pad, button, value, stored, n);
      assert ChangedDirections(engine, pad, button, value, stored, n) == prev + last;
      DisjointUnion(prev, last);
    }
  }

  /** Both events are hat events and the first names a lower direction bit. */
  predicate DirectionBefore(a: MappingData, b: MappingData) {
    a.value.HatValue? && b.value.HatValue? && a.value.direction < b.value.direction
  }

  /** Direction bits grow with their position. */
  lemma BitIncreasing(i: nat, j: nat)
    requires i < j < 8
    ensures Bit(i) < Bit(j)
  {
  }

  /** The example of a diagonal press: from mask 0x00 the sample 0x05 yields
      two events, for bit 1 then bit 4. */
  lemma HatDiagonalExample(engine: string, pad: PadIdentifier, button: int)
    ensures HatEvents(engine, pad, button, 0x05, 0x00)
            == [MappingData(engine, pad, button, HatValue(1)), MappingData(engine, pad, button, HatValue(4))]
  {
    var e1, e4 := HatEvent(engine, pad, button, 0), HatEvent(engine, pad, button, 2);
    assert HatChanges(engine, pad, button, 0x05, 0x00, 1) == [e1];
    assert HatChanges(engine, pad, button, 0x05, 0x00, 2) == [e1];
    assert HatChanges(engine, pad, button, 0x05, 0x00, 3) == [e1, e4];
    assert HatChanges(engine, pad, button, 0x05, 0x00, 4) == [e1, e4];
    assert HatChanges(engine, pad, button, 0x05, 0x00, 5) == [e1, e4];
    assert HatChanges(engine, pad, button, 0x05, 0x00, 6) == [e1, e4];
    assert HatChanges(engine, pad, button, 0x05, 0x00, 7) == [e1, e4];
  }

  // ------------------------------------------------------------------- axis

  /** Events for an axis sample: one carrying the new value iff it moved at
      least the threshold away from the stored value. */
  function AxisEvents(engine: string, pad: PadIdentifier, axis: int, value: real, stored: real): (r: seq<MappingData>)
    ensures |r| <= 1
    ensures r != [] <==> (value - stored >= AxisThreshold || stored - value >= AxisThreshold)
    ensures forall e :: e in r ==> e == MappingData(engine, pad, axis, AxisValue(value))
  {
    if Abs(value - stored) < AxisThreshold then [] else [MappingData(engine, pad, axis, AxisValue(value))]
  }

  /** From a centred stick, 0.3 is drift and 0.6 a deliberate deflection;
      a deflection of exactly the threshold already counts. */
  lemma AxisThresholdExamples(engine: string, pad: PadIdentifier, axis: int)
    ensures AxisEvents(engine, pad, axis, 0.3, 0.0) == []
    ensures AxisEvents(engine, pad, axis, 0.6, 0.0) == [MappingData(engine, pad, axis, AxisValue(0.6))]
    ensures |AxisEvents(engine, pad, axis, -0.5, 0.0)| == 1
  {
  }

  // ----------------------------------------------------------------- motion

  /** The activity test of a motion sample, as the source computes it. */
  predicate MotionIsActive(m: BasicMotion) {
    var accelActive := Abs(m.accelX) > AccelThreshold || Abs(m.accelY) > AccelThreshold || Abs(m.accelZ) > AccelThreshold;
    var gyroActive := Abs(m.gyroX) > GyroThreshold || Abs(m.gyroY) > GyroThreshold || Abs(m.gyroZ) > GyroThreshold;
    accelActive || gyroActive
  }

  function Accels(m: BasicMotion): seq<real> { [m.accelX, m.accelY, m.accelZ] }
  function Gyros(m: BasicMotion): seq<real> { [m.gyroX, m.gyroY, m.gyroZ] }

  /** Events for a motion sample: one carrying the sample iff some
      accelerometer component exceeds 1.5 or some gyroscope component 0.6 in
      magnitude. The stored sample plays no part. */
  function MotionEvents(engine: string, pad: PadIdentifier, motion: int, value: BasicMotion): (r: seq<MappingData>)
    ensures |r| <= 1
    ensures r != [] <==> (exists a :: a in Accels(value) && (a > 1.5 || a < -1.5))
                         || (exists g :: g in Gyros(value) && (g > 0.6 || g < -0.6))
    ensures forall e :: e in r ==> e == MappingData(engine, pad, motion, MotionValue(value))
  {
    MotionActiveSomeComponent(value);
    if !MotionIsActive(value) then [] else [MappingData(engine, pad, motion, MotionValue(value))]
  }

  /** The activity test holds iff some component is beyond its threshold. */
  lemma MotionActiveSomeComponent(m: BasicMotion)
    ensures MotionIsActive(m) <==> (exists a :: a in Accels(m) && (a > 1.5 || a < -1.5))
                                   || (exists g :: g in Gyros(m) && (g > 0.6 || g < -0.6))
  {
    assert forall a :: a in Accels(m) <==> a == m.accelX || a == m.accelY || a == m.accelZ;
    assert forall g :: g in Gyros(m) <==> g == m.gyroX || g == m.gyroY || g == m.gyroZ;
    if MotionIsActive(m) {
      if Abs(m.accelX) > AccelThreshold { assert m.accelX in Accels(m); }
      else if Abs(m.accelY) > AccelThreshold { assert m.accelY in Accels(m); }
      else if Abs(m.accelZ) > AccelThreshold { assert m.accelZ in Accels(m); }
      else if Abs(m.gyroX) > GyroThreshold { assert m.gyroX in Gyros(m); }
      else if Abs(m.gyroY) > GyroThreshold { assert m.gyroY in Gyros(m); }
      else { assert m.gyroZ in Gyros(m); }
    }
  }

  /** A resting device (gravity on one axis, no rotation) is not a gesture. */
  lemma MotionRestExample(engine: string, pad: PadIdentifier, motion: int)
    ensures MotionEvents(engine, pad, motion, BasicMotion(0.1, -0.2, 0.0, 0.0, 0.0, -1.0, 5)) == []
  {
  }
}
