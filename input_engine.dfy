// The input engine: the device state table, the listener registry and the
// mutation-and-notification protocol, as one object updated in place.
//
// Listener notifiers and the mapping observer are foreign code. Their effect
// is recorded in two ghost logs: `notified` counts, per subscription key, how
// many times its notifier ran, and `mappingEvents` lists the events delivered
// to the mapping observer, in order. Callbacks are taken not to re-enter the
// engine.

module Engine {
  import opened InputTypes
  import ControllerTable
  import opened MappingDetection

  // ----------------------------------------------------- reset accounting

  /** The indices of `kind` that device record `c` knows. */
  ghost function KnownIndices(c: ControllerData, kind: EngineInputType): set<int> {
    match kind
    case Button => c.buttons.Keys
    case HatButton => c.hatButtons.Keys
    case Analog => c.axes.Keys
    case _ => {}
  }

  /** Keys whose notifier runs when some `kind` input of `pad` among `indices`
      is written once each. */
  ghost function IndexListeners(callbacks: map<int, InputIdentifier>, pad: PadIdentifier, kind: EngineInputType,
                                indices: set<int>): set<int> {
    set k | k in callbacks && callbacks[k].identifier == pad && callbacks[k].kind == kind
            && callbacks[k].index in indices && callbacks[k].callback.onChange
  }

  /** Keys whose notifier runs when every known `kind` input of every device of
      `t` in `pads` is written once each. */
  ghost function TableListeners(callbacks: map<int, InputIdentifier>, t: ControllerTable.Table, pads: set<PadIdentifier>,
                                kind: EngineInputType): set<int> {
    set k | k in callbacks && callbacks[k].identifier in pads && callbacks[k].identifier in t && callbacks[k].kind == kind
            && callbacks[k].index in KnownIndices(t[callbacks[k].identifier], kind) && callbacks[k].callback.onChange
  }

  /** The events releasing the buttons among `indices` that the button map
      `buttons` of device `pad` holds pressed. */
  ghost function ButtonReleases(engine: string, pad: PadIdentifier, buttons: map<int, bool>, indices: set<int>): (r: set<MappingData>)
    ensures forall e :: e in r ==> e.pad == pad && e.value == ButtonValue(false) && e.index in indices
  {
    set b | b in indices && b in buttons && buttons[b] :: MappingData(engine, pad, b, ButtonValue(false))
  }

  /** The events releasing each direction bit set in the stored mask of a
      hat among `indices`, in the hat map `hats` of device `pad`. */
  ghost function HatReleases(engine: string, pad: PadIdentifier, hats: map<int, bv8>, indices: set<int>): (r: set<MappingData>)
    ensures forall e :: e in r ==> e.pad == pad && e.value.HatValue? && e.index in indices
  {
    set h, i: nat | h in indices && h in hats && i < 8 && hats[h] & Bit(i) != 0 :: HatEvent(engine, pad, h, i)
  }

  /** The events centring each axis among `indices` that is at least the
      threshold off centre, in the axis map `axes` of device `pad`. */
  ghost function AxisCenterings(engine: string, pad: PadIdentifier, axes: map<int, real>, indices: set<int>): (r: set<MappingData>)
    ensures forall e :: e in r ==> e.pad == pad && e.index in indices
  {
    set a | a in indices && a in axes && Abs(axes[a]) >= AxisThreshold :: MappingData(engine, pad, a, AxisValue(0.0))
  }

  /** Every release a button reset of device `pad`, holding `c`, reports. */
  ghost function PadReleases(engine: string, pad: PadIdentifier, c: ControllerData): (r: set<MappingData>)
    ensures forall e :: e in r ==> e.pad == pad
  {
    ButtonReleases(engine, pad, c.buttons, c.buttons.Keys) + HatReleases(engine, pad, c.hatButtons, c.hatButtons.Keys)
  }

  /** Every release a button reset of the devices of `t` in `pads` reports. */
  ghost function TableReleases(engine: string, t: ControllerTable.Table, pads: set<PadIdentifier>): set<MappingData> {
    set p, e | p in pads && p in t && e in PadReleases(engine, p, t[p]) :: e
  }

  /** Every centring an analog reset of the devices of `t` in `pads` reports. */
  ghost function TableCenterings(engine: string, t: ControllerTable.Table, pads: set<PadIdentifier>): set<MappingData> {
    set p, e | p in pads && p in t && e in AxisCenterings(engine, p, t[p].axes, t[p].axes.Keys) :: e
  }

  /** `after` extends `before` by exactly the events of `events`, each once,
      in some order. */
  ghost predicate LogsExactly(before: seq<MappingData>, after: seq<MappingData>, events: set<MappingData>) {
    && |before| <= |after|
    && after[..|before|] == before
    && multiset(after[|before|..]) == multiset(events)
  }

  /** What `LogsExactly` promises event by event: every event of the set is
      delivered exactly once, and nothing else is delivered. */
  lemma LoggedOnce(before: seq<MappingData>, after: seq<MappingData>, events: set<MappingData>)
    requires LogsExactly(before, after, events)
    ensures forall e :: e in events ==> multiset(after[|before|..])[e] == 1
    ensures forall i :: |before| <= i < |after| ==> after[i] in events
  {
    forall i | |before| <= i < |after|
      ensures after[i] in events
    {
      assert after[i] == after[|before|..][i - |before|];
      assert after[i] in multiset(after[|before|..]);
    }
  }

  lemma LogsNothing(a: seq<MappingData>)
    ensures LogsExactly(a, a, {})
  {
    assert a[|a|..] == [];
  }

  lemma LogsExtend(a: seq<MappingData>, b: seq<MappingData>, c: seq<MappingData>, e1: set<MappingData>, e2: set<MappingData>)
    requires LogsExactly(a, b, e1) && LogsExactly(b, c, e2) && e1 !! e2
    ensures LogsExactly(a, c, e1 + e2)
  {
    assert c[..|a|] == b[..|b|][..|a|];
    assert c[|a|..] == b[|a|..] + c[|b|..];
    DisjointUnion(e1, e2);
  }

  /** Writing input `index` once more runs its listeners on top of those of
      the indices written before. */
  lemma ListenersLogged(callbacks: map<int, InputIdentifier>, pad: PadIdentifier, kind: EngineInputType,
                        keys: set<int>, pending: set<int>, index: int, n0: multiset<int>, n1: multiset<int>, n2: multiset<int>)
    requires index in pending && pending <= keys
    requires n1 == n0 + multiset(IndexListeners(callbacks, pad, kind, keys - pending))
    requires n2 == n1 + multiset(Listeners(callbacks, pad, kind, index))
    ensures n2 == n0 + multiset(IndexListeners(callbacks, pad, kind, keys - (pending - {index})))
  {
    var done := IndexListeners(callbacks, pad, kind, keys - pending);
    var now := Listeners(callbacks, pad, kind, index);
    assert IndexListeners(callbacks, pad, kind, keys - (pending - {index})) == done + now;
    DisjointUnion(done, now);
  }

  /** Releasing one more button reports its release iff it was held. */
  lemma ButtonReleaseLogged(engine: string, t: ControllerTable.Table, pad: PadIdentifier, keys: set<int>, pending: set<int>,
                            button: int, detecting: bool, log0: seq<MappingData>, log1: seq<MappingData>, log2: seq<MappingData>)
    requires pad in t && button in pending && pending <= keys
    requires LogsExactly(log0, log1, if detecting then ButtonReleases(engine, pad, t[pad].buttons, keys - pending) else {})
    requires log2 == log1 + if detecting then ButtonEvents(engine, pad, button, false, ControllerTable.GetButton(t, pad, button)) else []
    ensures LogsExactly(log0, log2, if detecting then ButtonReleases(engine, pad, t[pad].buttons, keys - (pending - {button})) else {})
  {
    if detecting {
      OneButtonLogged(engine, t, pad, button, log1, log2);
      ButtonReleasesSplit(engine, pad, t[pad].buttons, keys, pending, button);
      LogsExtend(log0, log1, log2, ButtonReleases(engine, pad, t[pad].buttons, keys - pending), ButtonReleases(engine, pad, t[pad].buttons, {button}));
    } else {
      assert log2 == log1;
    }
  }

  lemma OneButtonLogged(engine: string, t: ControllerTable.Table, pad: PadIdentifier, button: int, log1: seq<MappingData>, log2: seq<MappingData>)
    requires pad in t
    requires log2 == log1 + ButtonEvents(engine, pad, button, false, ControllerTable.GetButton(t, pad, button))
    ensures LogsExactly(log1, log2, ButtonReleases(engine, pad, t[pad].buttons, {button}))
  {
    assert log2[..|log1|] == log1;
    assert log2[|log1|..] == ButtonEvents(engine, pad, button, false, ControllerTable.GetButton(t, pad, button));
  }

  lemma ButtonReleasesSplit(engine: string, pad: PadIdentifier, m: map<int, bool>, keys: set<int>, pending: set<int>, button: int)
    requires button in pending && pending <= keys
    ensures ButtonReleases(engine, pad, m, keys - (pending - {button}))
            == ButtonReleases(engine, pad, m, keys - pending) + ButtonReleases(engine, pad, m, {button})
    ensures ButtonReleases(engine, pad, m, keys - pending) !! ButtonReleases(engine, pad, m, {button})
  {
    assert keys - (pending - {button}) == (keys - pending) + {button};
  }

  /** Zeroing one more hat reports the release of each direction its stored
      mask held, once each. */
  lemma HatReleaseLogged(engine: string, t: ControllerTable.Table, pad: PadIdentifier, keys: set<int>, pending: set<int>,
                         button: int, detecting: bool, log0: seq<MappingData>, log1: seq<MappingData>, log2: seq<MappingData>)
    requires pad in t && button in pending && pending <= keys && keys <= t[pad].hatButtons.Keys
    requires LogsExactly(log0, log1, if detecting then HatReleases(engine, pad, t[pad].hatButtons, keys - pending) else {})
    requires log2 == log1 + if detecting then HatEvents(engine, pad, button, 0, ControllerTable.HatMask(t, pad, button)) else []
    ensures LogsExactly(log0, log2, if detecting then HatReleases(engine, pad, t[pad].hatButtons, keys - (pending - {button})) else {})
  {
    if detecting {
      OneHatLogged(engine, t, pad, button, log1, log2);
      HatReleasesSplit(engine, pad, t[pad].hatButtons, keys, pending, button);
      LogsExtend(log0, log1, log2, HatReleases(engine, pad, t[pad].hatButtons, keys - pending), HatReleases(engine, pad, t[pad].hatButtons, {button}));
    } else {
      assert log2 == log1;
    }
  }

  lemma OneHatLogged(engine: string, t: ControllerTable.Table, pad: PadIdentifier, button: int, log1: seq<MappingData>, log2: seq<MappingData>)
    requires pad in t && button in t[pad].hatButtons
    requires log2 == log1 + HatEvents(engine, pad, button, 0, ControllerTable.HatMask(t, pad, button))
    ensures LogsExactly(log1, log2, HatReleases(engine, pad, t[pad].hatButtons, {button}))
  {
    HatChangesOnce(engine, pad, button, 0, t[pad].hatButtons[button], 8);
    OneHatReleases(engine, pad, t[pad].hatButtons, button);
    assert log2[..|log1|] == log1;
    assert log2[|log1|..] == HatEvents(engine, pad, button, 0, ControllerTable.HatMask(t, pad, button));
  }

  /** The releases of one stored hat are its set direction bits. */
  lemma OneHatReleases(engine: string, pad: PadIdentifier, hats: map<int, bv8>, button: int)
    requires button in hats
    ensures HatReleases(engine, pad, hats, {button}) == ChangedDirections(engine, pad, button, 0, hats[button], 8)
  {
    var mask := hats[button];
    forall i: nat | i < 8
      ensures HatBitDiffers(0, mask, i) <==> mask & Bit(i) != 0
    {
    }
  }

  lemma HatReleasesSplit(engine: string, pad: PadIdentifier, m: map<int, bv8>, keys: set<int>, pending: set<int>, button: int)
    requires button in pending && pending <= keys
    ensures HatReleases(engine, pad, m, keys - (pending - {button}))
            == HatReleases(engine, pad, m, keys - pending) + HatReleases(engine, pad, m, {button})
    ensures HatReleases(engine, pad, m, keys - pending) !! HatReleases(engine, pad, m, {button})
  {
    assert keys - (pending - {button}) == (keys - pending) + {button};
  }

  /** Centring one more axis reports 0.0 for it iff it was at least the
      threshold off centre. */
  lemma AxisCenteringLogged(engine: string, t: ControllerTable.Table, pad: PadIdentifier, keys: set<int>, pending: set<int>,
                            axis: int, detecting: bool, log0: seq<MappingData>, log1: seq<MappingData>, log2: seq<MappingData>)
    requires pad in t && axis in pending && pending <= keys
    requires LogsExactly(log0, log1, if detecting then AxisCenterings(engine, pad, t[pad].axes, keys - pending) else {})
    requires log2 == log1 + if detecting then AxisEvents(engine, pad, axis, 0.0, ControllerTable.GetAxis(t, pad, axis)) else []
    ensures LogsExactly(log0, log2, if detecting then AxisCenterings(engine, pad, t[pad].axes, keys - (pending - {axis})) else {})
  {
    if detecting {
      OneAxisLogged(engine, t, pad, axis, log1, log2);
      AxisCenteringsSplit(engine, pad, t[pad].axes, keys, pending, axis);
      LogsExtend(log0, log1, log2, AxisCenterings(engine, pad, t[pad].axes, keys - pending), AxisCenterings(engine, pad, t[pad].axes, {axis}));
    } else {
      assert log2 == log1;
    }
  }

  lemma OneAxisLogged(engine: string, t: ControllerTable.Table, pad: PadIdentifier, axis: int, log1: seq<MappingData>, log2: seq<MappingData>)
    requires pad in t
    requires log2 == log1 + AxisEvents(engine, pad, axis, 0.0, ControllerTable.GetAxis(t, pad, axis))
    ensures LogsExactly(log1, log2, AxisCenterings(engine, pad, t[pad].axes, {axis}))
  {
    assert log2[..|log1|] == log1;
    assert log2[|log1|..] == AxisEvents(engine, pad, axis, 0.0, ControllerTable.GetAxis(t, pad, axis));
  }

  lemma AxisCenteringsSplit(engine: string, pad: PadIdentifier, m: map<int, real>, keys: set<int>, pending: set<int>, axis: int)
    requires axis in pending && pending <= keys
    ensures AxisCenterings(engine, pad, m, keys - (pending - {axis}))
            == AxisCenterings(engine, pad, m, keys - pending) + AxisCenterings(engine, pad, m, {axis})
    ensures AxisCenterings(engine, pad, m, keys - pending) !! AxisCenterings(engine, pad, m, {axis})
  {
    assert keys - (pending - {axis}) == (keys - pending) + {axis};
  }

  /** Resetting one more device runs the listeners of its known buttons and
      then of its known hats, on top of those of the devices done before. */
  lemma PadListenersLogged(callbacks: map<int, InputIdentifier>, t: ControllerTable.Table, pending: set<PadIdentifier>,
                           pad: PadIdentifier, n0: multiset<int>, n1: multiset<int>, n2: multiset<int>)
    requires pad in pending && pending <= t.Keys
    requires n1 == n0 + multiset(TableListeners(callbacks, t, t.Keys - pending, EngineInputType.Button)
                                 + TableListeners(callbacks, t, t.Keys - pending, EngineInputType.HatButton))
    requires n2 == n1 + multiset(IndexListeners(callbacks, pad, EngineInputType.Button, t[pad].buttons.Keys))
                      + multiset(IndexListeners(callbacks, pad, EngineInputType.HatButton, t[pad].hatButtons.Keys))
    ensures n2 == n0 + multiset(TableListeners(callbacks, t, t.Keys - (pending - {pad}), EngineInputType.Button)
                                + TableListeners(callbacks, t, t.Keys - (pending - {pad}), EngineInputType.HatButton))
  {
    assert KnownIndices(t[pad], EngineInputType.Button) == t[pad].buttons.Keys;
    assert KnownIndices(t[pad], EngineInputType.HatButton) == t[pad].hatButtons.Keys;
    TableListenersSplit(callbacks, t, pending, pad, EngineInputType.Button);
    TableListenersSplit(callbacks, t, pending, pad, EngineInputType.HatButton);
    TableListenersKindsApart(callbacks, t, t.Keys - (pending - {pad}));
    CountFour(n0, n1, n1 + multiset(IndexListeners(callbacks, pad, EngineInputType.Button, t[pad].buttons.Keys)), n2,
              TableListeners(callbacks, t, t.Keys - pending, EngineInputType.Button),
              TableListeners(callbacks, t, t.Keys - pending, EngineInputType.HatButton),
              IndexListeners(callbacks, pad, EngineInputType.Button, t[pad].buttons.Keys),
              IndexListeners(callbacks, pad, EngineInputType.HatButton, t[pad].hatButtons.Keys));
  }

  /** Button listeners and hat listeners are different subscriptions. */
  lemma TableListenersKindsApart(callbacks: map<int, InputIdentifier>, t: ControllerTable.Table, pads: set<PadIdentifier>)
    ensures TableListeners(callbacks, t, pads, EngineInputType.Button) !! TableListeners(callbacks, t, pads, EngineInputType.HatButton)
  {
  }

  /** Adding the counts of `b0 + h0`, then `b1`, then `h1` counts each key of
      `(b0 + b1) + (h0 + h1)` once, when the sets do not overlap. */
  lemma CountFour<T>(n0: multiset<T>, n1: multiset<T>, n2: multiset<T>, n3: multiset<T>,
                     b0: set<T>, h0: set<T>, b1: set<T>, h1: set<T>)
    requires b0 !! b1 && h0 !! h1 && (b0 + b1) !! (h0 + h1)
    requires n1 == n0 + multiset(b0 + h0) && n2 == n1 + multiset(b1) && n3 == n2 + multiset(h1)
    ensures n3 == n0 + multiset((b0 + b1) + (h0 + h1))
  {
    assert forall x :: n3[x] == (n0 + multiset((b0 + b1) + (h0 + h1)))[x];
  }


  /** Centring one more device runs the listeners of its known axes on top of
      those of the devices done before. */
  lemma PadAxisListenersLogged(callbacks: map<int, InputIdentifier>, t: ControllerTable.Table, pending: set<PadIdentifier>,
                               pad: PadIdentifier, n0: multiset<int>, n1: multiset<int>, n2: multiset<int>)
    requires pad in pending && pending <= t.Keys
    requires n1 == n0 + multiset(TableListeners(callbacks, t, t.Keys - pending, EngineInputType.Analog))
    requires n2 == n1 + multiset(IndexListeners(callbacks, pad, EngineInputType.Analog, t[pad].axes.Keys))
    ensures n2 == n0 + multiset(TableListeners(callbacks, t, t.Keys - (pending - {pad}), EngineInputType.Analog))
  {
    TableListenersSplit(callbacks, t, pending, pad, EngineInputType.Analog);
    DisjointUnion(TableListeners(callbacks, t, t.Keys - pending, EngineInputType.Analog),
                  IndexListeners(callbacks, pad, EngineInputType.Analog, t[pad].axes.Keys));
  }

  /** The listeners of the devices done so far plus one more device: the new
      device's keys name that device, so they are new. */
  lemma TableListenersSplit(callbacks: map<int, InputIdentifier>, t: ControllerTable.Table, pending: set<PadIdentifier>,
                            pad: PadIdentifier, kind: EngineInputType)
    requires pad in pending && pending <= t.Keys
    ensures TableListeners(callbacks, t, t.Keys - (pending - {pad}), kind)
            == TableListeners(callbacks, t, t.Keys - pending, kind) + IndexListeners(callbacks, pad, kind, KnownIndices(t[pad], kind))
    ensures TableListeners(callbacks, t, t.Keys - pending, kind) !! IndexListeners(callbacks, pad, kind, KnownIndices(t[pad], kind))
  {
  }

  /** Resetting one more device reports its button releases and then its hat
      releases, on top of those of the devices done before. */
  lemma PadReleasesLogged(engine: string, t: ControllerTable.Table, pending: set<PadIdentifier>, pad: PadIdentifier,
                          detecting: bool, log0: seq<MappingData>, log1: seq<MappingData>, log2: seq<MappingData>)
    requires pad in pending && pending <= t.Keys
    requires LogsExactly(log0, log1, if detecting then TableReleases(engine, t, t.Keys - pending) else {})
    requires LogsExactly(log1, log2, if detecting then PadReleases(engine, pad, t[pad]) else {})
    ensures LogsExactly(log0, log2, if detecting then TableReleases(engine, t, t.Keys - (pending - {pad})) else {})
  {
    var done := if detecting then TableReleases(engine, t, t.Keys - pending) else {};
    var here := if detecting then PadReleases(engine, pad, t[pad]) else {};
    TableReleasesSplit(engine, t, pending, pad);
    LogsExtend(log0, log1, log2, done, here);
  }

  lemma TableReleasesSplit(engine: string, t: ControllerTable.Table, pending: set<PadIdentifier>, pad: PadIdentifier)
    requires pad in pending && pending <= t.Keys
    ensures TableReleases(engine, t, t.Keys - (pending - {pad})) == TableReleases(engine, t, t.Keys - pending) + PadReleases(engine, pad, t[pad])
    ensures TableReleases(engine, t, t.Keys - pending) !! PadReleases(engine, pad, t[pad])
  {
    var done := TableReleases(engine, t, t.Keys - pending);
    var here := PadReleases(engine, pad, t[pad]);
    var next := TableReleases(engine, t, t.Keys - (pending - {pad}));
    forall e | e in next
      ensures e in done + here
    {
      var p :| p in t.Keys - (pending - {pad}) && p in t && e in PadReleases(engine, p, t[p]);
      if p != pad {
        assert e in done;
      }
    }
    forall e | e in done
      ensures e in next && e.pad != pad
    {
      var p :| p in t.Keys - pending && p in t && e in PadReleases(engine, p, t[p]);
    }
    assert here <= next;
  }

  /** Centring one more device reports its axis centrings on top of those of
      the devices done before. */
  lemma PadCenteringsLogged(engine: string, t: ControllerTable.Table, pending: set<PadIdentifier>, pad: PadIdentifier,
                            detecting: bool, log0: seq<MappingData>, log1: seq<MappingData>, log2: seq<MappingData>)
    requires pad in pending && pending <= t.Keys
    requires LogsExactly(log0, log1, if detecting then TableCenterings(engine, t, t.Keys - pending) else {})
    requires LogsExactly(log1, log2, if detecting then AxisCenterings(engine, pad, t[pad].axes, t[pad].axes.Keys) else {})
    ensures LogsExactly(log0, log2, if detecting then TableCenterings(engine, t, t.Keys - (pending - {pad})) else {})
  {
    TableCenteringsSplit(engine, t, pending, pad);
    LogsExtend(log0, log1, log2, if detecting then TableCenterings(engine, t, t.Keys - pending) else {},
               if detecting then AxisCenterings(engine, pad, t[pad].axes, t[pad].axes.Keys) else {});
  }

  lemma TableCenteringsSplit(engine: string, t: ControllerTable.Table, pending: set<PadIdentifier>, pad: PadIdentifier)
    requires pad in pending && pending <= t.Keys
    ensures var axes := AxisCenterings(engine, pad, t[pad].axes, t[pad].axes.Keys);
            && TableCenterings(engine, t, t.Keys - (pending - {pad})) == TableCenterings(engine, t, t.Keys - pending) + axes
            && TableCenterings(engine, t, t.Keys - pending) !! axes
  {
    var done := TableCenterings(engine, t, t.Keys - pending);
    var axes := AxisCenterings(engine, pad, t[pad].axes, t[pad].axes.Keys);
    var next := TableCenterings(engine, t, t.Keys - (pending - {pad}));
    forall e | e in next
      ensures e in done + axes
    {
      var p :| p in t.Keys - (pending - {pad}) && p in t && e in AxisCenterings(engine, p, t[p].axes, t[p].axes.Keys);
      if p != pad {
        assert e in done;
      }
    }
    forall e | e in done
      ensures e in next && e.pad != pad
    {
      var p :| p in t.Keys - pending && p in t && e in AxisCenterings(engine, p, t[p].axes, t[p].axes.Keys);
    }
    assert axes <= next;
  }

  /** Progress of the button loop of one device: the buttons in `pending`
      still hold their state in `t0`, the other known buttons are released. */
  function ButtonsReleased(t0: ControllerTable.Table, pad: PadIdentifier, pending: set<int>): ControllerTable.Table
    requires pad in t0
  {
    t0[pad := t0[pad].(buttons := map b | b in t0[pad].buttons :: b in pending && t0[pad].buttons[b])]
  }

  lemma ButtonsReleasedStart(t0: ControllerTable.Table, pad: PadIdentifier)
    requires pad in t0
    ensures ButtonsReleased(t0, pad, t0[pad].buttons.Keys) == t0
  {
    assert ButtonsReleased(t0, pad, t0[pad].buttons.Keys)[pad].buttons == t0[pad].buttons;
  }

  lemma ButtonsReleasedStep(t0: ControllerTable.Table, pad: PadIdentifier, pending: set<int>, button: int)
    requires pad in t0 && button in pending && button in t0[pad].buttons
    ensures ControllerTable.WithButton(ButtonsReleased(t0, pad, pending), pad, button, false) == ButtonsReleased(t0, pad, pending - {button})
  {
    assert ControllerTable.WithButton(ButtonsReleased(t0, pad, pending), pad, button, false)[pad].buttons
        == ButtonsReleased(t0, pad, pending - {button})[pad].buttons;
  }

  lemma ButtonsReleasedDone(t0: ControllerTable.Table, pad: PadIdentifier)
    requires pad in t0
    ensures ButtonsReleased(t0, pad, {}) == t0[pad := ControllerTable.ClearButtons(t0[pad])]
  {
    assert ButtonsReleased(t0, pad, {})[pad].buttons == ControllerTable.ClearButtons(t0[pad]).buttons;
  }

  /** Progress of the hat loop of one device: the hats in `pending` still
      hold their mask in `t0`, the other known hats are at 0. */
  function HatsZeroed(t0: ControllerTable.Table, pad: PadIdentifier, pending: set<int>): ControllerTable.Table
    requires pad in t0
  {
    t0[pad := t0[pad].(hatButtons := map h | h in t0[pad].hatButtons :: if h in pending then t0[pad].hatButtons[h] else 0)]
  }

  lemma HatsZeroedStart(t0: ControllerTable.Table, pad: PadIdentifier)
    requires pad in t0
    ensures HatsZeroed(t0, pad, t0[pad].hatButtons.Keys) == t0
  {
    assert HatsZeroed(t0, pad, t0[pad].hatButtons.Keys)[pad].hatButtons == t0[pad].hatButtons;
  }

  lemma HatsZeroedStep(t0: ControllerTable.Table, pad: PadIdentifier, pending: set<int>, button: int)
    requires pad in t0 && button in pending && button in t0[pad].hatButtons
    ensures ControllerTable.WithHatButton(HatsZeroed(t0, pad, pending), pad, button, 0) == HatsZeroed(t0, pad, pending - {button})
  {
    assert ControllerTable.WithHatButton(HatsZeroed(t0, pad, pending), pad, button, 0)[pad].hatButtons
        == HatsZeroed(t0, pad, pending - {button})[pad].hatButtons;
  }

  lemma HatsZeroedDone(t0: ControllerTable.Table, pad: PadIdentifier)
    requires pad in t0
    ensures HatsZeroed(t0, pad, {}) == t0[pad := ControllerTable.ClearHats(t0[pad])]
  {
    assert HatsZeroed(t0, pad, {})[pad].hatButtons == ControllerTable.ClearHats(t0[pad]).hatButtons;
  }

  /** Progress of the axis loop of one device: the axes in `pending` still
      hold their value in `t0`, the other known axes are at 0.0. */
  function AxesCentred(t0: ControllerTable.Table, pad: PadIdentifier, pending: set<int>): ControllerTable.Table
    requires pad in t0
  {
    t0[pad := t0[pad].(axes := map a | a in t0[pad].axes :: if a in pending then t0[pad].axes[a] else 0.0)]
  }

  lemma AxesCentredStart(t0: ControllerTable.Table, pad: PadIdentifier)
    requires pad in t0
    ensures AxesCentred(t0, pad, t0[pad].axes.Keys) == t0
  {
    assert AxesCentred(t0, pad, t0[pad].axes.Keys)[pad].axes == t0[pad].axes;
  }

  lemma AxesCentredStep(t0: ControllerTable.Table, pad: PadIdentifier, pending: set<int>, axis: int)
    requires pad in t0 && axis in pending && axis in t0[pad].axes
    ensures ControllerTable.WithAxis(AxesCentred(t0, pad, pending), pad, axis, 0.0) == AxesCentred(t0, pad, pending - {axis})
  {
    assert ControllerTable.WithAxis(AxesCentred(t0, pad, pending), pad, axis, 0.0)[pad].axes
        == AxesCentred(t0, pad, pending - {axis})[pad].axes;
  }

  lemma AxesCentredDone(t0: ControllerTable.Table, pad: PadIdentifier)
    requires pad in t0
    ensures AxesCentred(t0, pad, {}) == t0[pad := ControllerTable.CenterAxes(t0[pad])]
  {
    assert AxesCentred(t0, pad, {})[pad].axes == ControllerTable.CenterAxes(t0[pad]).axes;
  }

  /** Progress of a button reset: the devices in `pending` still hold their
      state in `t0`, every other device of `t0` has been released. */
  ghost predicate ReleasedExcept(t0: ControllerTable.Table, t: ControllerTable.Table, pending: set<PadIdentifier>) {
    && t.Keys == t0.Keys
    && forall p :: p in t ==> t[p] == if p in pending then t0[p] else ControllerTable.ReleaseButtons(t0[p])
  }

  /** Releasing the buttons and then the hats of one pending device. */
  lemma ReleasedExceptStep(t0: ControllerTable.Table, t: ControllerTable.Table, t2: ControllerTable.Table,
                           pending: set<PadIdentifier>, pad: PadIdentifier)
    requires ReleasedExcept(t0, t, pending) && pad in pending && pad in t0
    requires t2 == t[pad := ControllerTable.ReleaseButtons(t[pad])]
    ensures ReleasedExcept(t0, t2, pending - {pad})
  {
    assert t2.Keys == t.Keys;
    forall p | p in t2
      ensures t2[p] == if p in pending - {pad} then t0[p] else ControllerTable.ReleaseButtons(t0[p])
    {
      if p == pad {
        assert t2[p] == ControllerTable.ReleaseButtons(t0[p]);
      } else {
        assert t2[p] == t[p];
      }
    }
  }

  lemma ReleasedExceptDone(t0: ControllerTable.Table, t: ControllerTable.Table)
    requires ReleasedExcept(t0, t, {})
    ensures t == ControllerTable.ResetButtons(t0)
  {
    var r := ControllerTable.ResetButtons(t0);
    assert forall p :: p in t ==> t[p] == r[p];
  }

  /** Progress of an analog reset: the devices in `pending` still hold their
      state in `t0`, every other device of `t0` has been centred. */
  ghost predicate CenteredExcept(t0: ControllerTable.Table, t: ControllerTable.Table, pending: set<PadIdentifier>) {
    && t.Keys == t0.Keys
    && forall p :: p in t ==> t[p] == if p in pending then t0[p] else ControllerTable.CenterAxes(t0[p])
  }

  lemma CenteredExceptStep(t0: ControllerTable.Table, t: ControllerTable.Table, pending: set<PadIdentifier>, pad: PadIdentifier)
    requires CenteredExcept(t0, t, pending) && pad in pending && pad in t0
    ensures CenteredExcept(t0, t[pad := ControllerTable.CenterAxes(t[pad])], pending - {pad})
  {
  }

  lemma CenteredExceptDone(t0: ControllerTable.Table, t: ControllerTable.Table)
    requires CenteredExcept(t0, t, {})
    ensures t == ControllerTable.ResetAxes(t0)
  {
    var r := ControllerTable.ResetAxes(t0);
    assert forall p :: p in t ==> t[p] == r[p];
  }

  /** The hat loop's counter after `i` doublings: 1, 2, 4, ..., 128, then 256. */
  function HatIndex(i: nat): bv16
    requires i <= 8
  {
    if i == 0 then 1 else if i == 1 then 2 else if i == 2 then 4 else if i == 3 then 8
    else if i == 4 then 16 else if i == 5 then 32 else if i == 6 then 64 else if i == 7 then 128
    else 256
  }

  /** The loop runs while the counter is below 0xff, i.e. for the eight
      direction bits and no more; at step `i` it tests direction bit `i`. */
  lemma HatIndexStep(i: nat)
    requires i <= 8
    ensures HatIndex(i) < 0xff <==> i < 8
    ensures i < 8 ==> HatIndex(i) as bv8 == Bit(i) && HatIndex(i) << 1 == HatIndex(i + 1)
  {
  }

  /** One step of the hat loop tests exactly direction bit `i` of the stored
      mask: it reports the event for that bit iff the bit's state in `value`
      differs from what the table holds. */
  lemma HatLoopStep(engine: string, t: ControllerTable.Table, pad: PadIdentifier, button: int, value: bv8, i: nat, index: bv16)
    requires i < 8 && index == HatIndex(i)
    ensures index < 0xff && index << 1 == HatIndex(i + 1)
    ensures HatChanges(engine, pad, button, value, ControllerTable.HatMask(t, pad, button), i + 1) ==
      HatChanges(engine, pad, button, value, ControllerTable.HatMask(t, pad, button), i) +
      if (value & (index as bv8) != 0) != ControllerTable.GetHatButton(t, pad, button, index as bv8)
      then [MappingData(engine, pad, button, HatValue(index as bv8))] else []
  {
    HatIndexStep(i);
  }

  /** The direction loop of the hat trigger: walks the direction bits 1, 2,
      4, ..., 128 with a 16-bit counter while it is below 0xff, and reports
      each bit whose state in `value` differs from what `table` holds. */
  method ScanHatDirections(engine: string, table: ControllerTable.Table, pad: PadIdentifier, button: int, value: bv8)
    returns (events: seq<MappingData>)
    ensures events == HatEvents(engine, pad, button, value, ControllerTable.HatMask(table, pad, button))
  {
    events := [];
    var index: bv16 := 1;
    ghost var i: nat := 0;
    while index < 0xff
      invariant i <= 8 && index == HatIndex(i)
      invariant events == HatChanges(engine, pad, button, value, ControllerTable.HatMask(table, pad, button), i)
      decreases 8 - i
    {
      HatLoopStep(engine, table, pad, button, value, i, index);
      var buttonValue := value & (index as bv8) != 0;
      if buttonValue != ControllerTable.GetHatButton(table, pad, button, index as bv8) {
        events := events + [MappingData(engine, pad, button, HatValue(index as bv8))];
      }
      index := index << 1;
      i := i + 1;
    }
    HatIndexStep(i);
  }

  /** Once every key is visited, the keys recorded are exactly the listeners. */
  lemma VisitedAll(found: set<int>, listeners: set<int>, keys: set<int>)
    requires found <= keys && listeners <= keys
    requires forall k :: k in keys ==> (k in found <==> k in listeners)
    ensures found == listeners
  {
    assert forall k :: k in found <==> k in listeners;
  }

  /** Some element of a non-empty set: the next entry a map iteration visits. */
  method Pick<T>(s: set<T>) returns (x: T)
    requires s != {}
    ensures x in s
  {
    x :| x in s;
  }

  class InputEngine {
    /** Name of the backend family this engine serves; stamped on every mapping event. */
    const engineName: string
    /** The device state table. */
    var controllers: ControllerTable.Table
    /** Engine-wide mode: while true, raw writes are suppressed and changes go
        to mapping detection. */
    var configuring: bool
    /** Listener registry: subscription key to subscription. */
    var callbacks: map<int, InputIdentifier>
    /** The key the next subscription receives. */
    var lastCallbackKey: int
    /** The single mapping observer slot. */
    var mappingCallback: MappingCallback

    /** Every key ever handed out by `SetCallback`. */
    ghost var issuedKeys: set<int>
    /** How many times each subscription's notifier has run. */
    ghost var notified: multiset<int>
    /** Events delivered to the mapping observer, oldest first. */
    ghost var mappingEvents: seq<MappingData>

    /** Registry invariant: every live key was issued, and every issued key is
        below the counter, so the counter never hands out a used key again. */
    ghost predicate Valid()
      reads this`callbacks, this`lastCallbackKey, this`issuedKeys
    {
      && callbacks.Keys <= issuedKeys
      && forall k :: k in issuedKeys ==> k < lastCallbackKey
    }

    /** Whether a change is passed to mapping detection: configuring mode with
        an observer that has a handler. */
    predicate Detecting()
      reads this`configuring, this`mappingCallback
    {
      configuring && mappingCallback.onData
    }

    constructor (name: string)
      ensures engineName == name
      ensures controllers == map[] && !configuring
      ensures callbacks == map[] && lastCallbackKey == 0 && mappingCallback == MappingCallback(false)
      ensures issuedKeys == {} && notified == multiset{} && mappingEvents == []
      ensures Valid()
    {
      engineName := name;
      controllers := map[];
      configuring := false;
      callbacks := map[];
      lastCallbackKey := 0;
      mappingCallback := MappingCallback(false);
      issuedKeys := {};
      notified := multiset{};
      mappingEvents := [];
    }

    function GetEngineName(): (r: string)
      ensures r == engineName
    {
      engineName
    }

    // ------------------------------------------------------------ pre-sets

    method PreSetController(pad: PadIdentifier)
      modifies this`controllers
      ensures controllers == ControllerTable.PreSetController(old(controllers), pad)
    {
      controllers := ControllerTable.PreSetController(controllers, pad);
    }

    method PreSetButton(pad: PadIdentifier, button: int)
      requires pad in controllers
      modifies this`controllers
      ensures controllers == ControllerTable.PreSetButton(old(controllers), pad, button)
    {
      controllers := ControllerTable.PreSetButton(controllers, pad, button);
    }

    method PreSetHatButton(pad: PadIdentifier, button: int)
      requires pad in controllers
      modifies this`controllers
      ensures controllers == ControllerTable.PreSetHatButton(old(controllers), pad, button)
    {
      controllers := ControllerTable.PreSetHatButton(controllers, pad, button);
    }

    method PreSetAxis(pad: PadIdentifier, axis: int)
      requires pad in controllers
      modifies this`controllers
      ensures controllers == ControllerTable.PreSetAxis(old(controllers), pad, axis)
    {
      controllers := ControllerTable.PreSetAxis(controllers, pad, axis);
    }

    method PreSetMotion(pad: PadIdentifier, motion: int)
      requires pad in controllers
      modifies this`controllers
      ensures controllers == ControllerTable.PreSetMotion(old(controllers), pad, motion)
    {
      controllers := ControllerTable.PreSetMotion(controllers, pad, motion);
    }

    // ------------------------------------------------------------- queries

    /** A button query; false for an unknown device or button. */
    function GetButton(pad: PadIdentifier, button: int): (r: bool)
      reads this`controllers
      ensures r <==> pad in controllers && button in controllers[pad].buttons && controllers[pad].buttons[button]
    {
      ControllerTable.GetButton(controllers, pad, button)
    }

    /** A hat query: a bit test of the stored mask, an unknown hat reading as 0. */
    function GetHatButton(pad: PadIdentifier, button: int, direction: bv8): (r: bool)
      reads this`controllers
      ensures !(pad in controllers && button in controllers[pad].hatButtons) ==> !r
      ensures pad in controllers && button in controllers[pad].hatButtons ==>
                (r <==> controllers[pad].hatButtons[button] & direction != 0)
    {
      ControllerTable.GetHatButton(controllers, pad, button, direction)
    }

    /** An axis query; 0.0 for an unknown device or axis. */
    function GetAxis(pad: PadIdentifier, axis: int): (r: real)
      reads this`controllers
      ensures pad in controllers && axis in controllers[pad].axes ==> r == controllers[pad].axes[axis]
      ensures pad !in controllers || axis !in controllers[pad].axes ==> r == 0.0
    {
      ControllerTable.GetAxis(controllers, pad, axis)
    }

    /** A battery query; `Charging` for an unknown device. */
    function GetBattery(pad: PadIdentifier): (r: BatteryLevel)
      reads this`controllers
      ensures pad in controllers ==> r == controllers[pad].battery
      ensures pad !in controllers ==> r == BatteryLevel.Charging
    {
      ControllerTable.GetBattery(controllers, pad)
    }

    /** A motion query; the zero sample for an unknown device. */
    function GetMotion(pad: PadIdentifier, motion: int): (r: BasicMotion)
      reads this`controllers
      requires pad !in controllers || motion in controllers[pad].motions
      ensures pad in controllers ==> r == controllers[pad].motions[motion]
      ensures pad !in controllers ==> r == ZeroMotion
    {
      ControllerTable.GetMotion(controllers, pad, motion)
    }

    // ---------------------------------------------------------- mutations

    /** Stores a button state unless configuring, then notifies. In configuring
        mode with an observer, the only table change is the pre-set of the
        button the detection rule performs. */
    method SetButton(pad: PadIdentifier, button: int, value: bool)
      requires pad in controllers
      modifies this`controllers, this`notified, this`mappingEvents
      ensures controllers == if !configuring then ControllerTable.WithButton(old(controllers), pad, button, value)
                             else if Detecting() then ControllerTable.PreSetButton(old(controllers), pad, button)
                             else old(controllers)
      ensures notified == old(notified) + multiset(Listeners(callbacks, pad, EngineInputType.Button, button))
      ensures mappingEvents == old(mappingEvents) +
        if Detecting() then ButtonEvents(engineName, pad, button, value, ControllerTable.GetButton(old(controllers), pad, button))
        else []
    {
      if !configuring {
        controllers := ControllerTable.WithButton(controllers, pad, button, value);
      }
      TriggerOnButtonChange(pad, button, value);
    }

    /** Stores a hat mask unless configuring, then notifies. */
    method SetHatButton(pad: PadIdentifier, button: int, value: bv8)
      requires pad in controllers
      modifies this`controllers, this`notified, this`mappingEvents
      ensures controllers == if !configuring then ControllerTable.WithHatButton(old(controllers), pad, button, value)
                             else old(controllers)
      ensures notified == old(notified) + multiset(Listeners(callbacks, pad, EngineInputType.HatButton, button))
      ensures mappingEvents == old(mappingEvents) +
        if Detecting() then HatEvents(engineName, pad, button, value, ControllerTable.HatMask(old(controllers), pad, button))
        else []
    {
      if !configuring {
        controllers := ControllerTable.WithHatButton(controllers, pad, button, value);
      }
      TriggerOnHatButtonChange(pad, button, value);
    }

    /** Stores an axis value unless configuring, then notifies. */
    method SetAxis(pad: PadIdentifier, axis: int, value: real)
      requires pad in controllers
      modifies this`controllers, this`notified, this`mappingEvents
      ensures controllers == if !configuring then ControllerTable.WithAxis(old(controllers), pad, axis, value)
                             else old(controllers)
      ensures notified == old(notified) + multiset(Listeners(callbacks, pad, EngineInputType.Analog, axis))
      ensures mappingEvents == old(mappingEvents) +
        if Detecting() then AxisEvents(engineName, pad, axis, value, ControllerTable.GetAxis(old(controllers), pad, axis))
        else []
    {
      if !configuring {
        controllers := ControllerTable.WithAxis(controllers, pad, axis, value);
      }
      TriggerOnAxisChange(pad, axis, value);
    }

    /** Stores a battery level unless configuring, then notifies the battery
        listeners (index 0). Never reported to the mapping observer. */
    method SetBattery(pad: PadIdentifier, value: BatteryLevel)
      requires pad in controllers
      modifies this`controllers, this`notified
      ensures controllers == if !configuring then ControllerTable.WithBattery(old(controllers), pad, value)
                             else old(controllers)
      ensures notified == old(notified) + multiset(Listeners(callbacks, pad, EngineInputType.Battery, 0))
    {
      if !configuring {
        controllers := ControllerTable.WithBattery(controllers, pad, value);
      }
      TriggerOnBatteryChange(pad, value);
    }

    /** Stores a motion sample unless configuring, then notifies. */
    method SetMotion(pad: PadIdentifier, motion: int, value: BasicMotion)
      requires pad in controllers
      modifies this`controllers, this`notified, this`mappingEvents
      ensures controllers == if !configuring then ControllerTable.WithMotion(old(controllers), pad, motion, value)
                             else old(controllers)
      ensures notified == old(notified) + multiset(Listeners(callbacks, pad, EngineInputType.Motion, motion))
      ensures mappingEvents == old(mappingEvents) +
        if Detecting() then MotionEvents(engineName, pad, motion, value) else []
    {
      if !configuring {
        controllers := ControllerTable.WithMotion(controllers, pad, motion, value);
      }
      TriggerOnMotionChange(pad, motion, value);
    }

    // -------------------------------------------------------------- resets

    /** Releases every known button and hat of every device through the
        ordinary mutators. Each known index is written once, so each listener
        of a known button or hat runs once; in configuring mode with an
        observer, every held button and every set hat direction is reported
        released, once. */
    method ResetButtonState()
      modifies this`controllers, this`notified, this`mappingEvents
      ensures !configuring ==> controllers == ControllerTable.ResetButtons(old(controllers))
      ensures configuring ==> controllers == old(controllers)
      ensures notified == old(notified) + multiset(TableListeners(callbacks, old(controllers), old(controllers).Keys, EngineInputType.Button)
                                                   + TableListeners(callbacks, old(controllers), old(controllers).Keys, EngineInputType.HatButton))
      ensures !Detecting() ==> mappingEvents == old(mappingEvents)
      ensures LogsExactly(old(mappingEvents), mappingEvents,
                          if Detecting() then TableReleases(engineName, old(controllers), old(controllers).Keys) else {})
    {
      var pads := controllers.Keys;
      LogsNothing(mappingEvents);
      while pads != {}
        invariant pads <= old(controllers).Keys
        invariant configuring ==> controllers == old(controllers)
        invariant !configuring ==> ReleasedExcept(old(controllers), controllers, pads)
        invariant notified == old(notified) + multiset(TableListeners(callbacks, old(controllers), old(controllers).Keys - pads, EngineInputType.Button)
                                                       + TableListeners(callbacks, old(controllers), old(controllers).Keys - pads, EngineInputType.HatButton))
        invariant !Detecting() ==> mappingEvents == old(mappingEvents)
        invariant LogsExactly(old(mappingEvents), mappingEvents,
                              if Detecting() then TableReleases(engineName, old(controllers), old(controllers).Keys - pads) else {})
        decreases pads
      {
        var pad := Pick(pads);
        ghost var t := controllers;
        ghost var n1 := notified;
        ghost var before := mappingEvents;
        ReleasePad(pad);
        assert t[pad] == old(controllers)[pad];
        if !configuring {
          ReleasedExceptStep(old(controllers), t, controllers, pads, pad);
        }
        PadListenersLogged(callbacks, old(controllers), pads, pad, old(notified), n1, notified);
        PadReleasesLogged(engineName, old(controllers), pads, pad, Detecting(), old(mappingEvents), before, mappingEvents);
        pads := pads - {pad};
      }
      assert old(controllers).Keys - pads == old(controllers).Keys;
      if !configuring {
        ReleasedExceptDone(old(controllers), controllers);
      }
    }

    /** One pass of the device loop of `ResetButtonState`: every button of
        `pad` released, then every hat. */
    method ReleasePad(pad: PadIdentifier)
      requires pad in controllers
      modifies this`controllers, this`notified, this`mappingEvents
      ensures configuring ==> controllers == old(controllers)
      ensures !configuring ==> controllers == old(controllers)[pad := ControllerTable.ReleaseButtons(old(controllers)[pad])]
      ensures notified == old(notified) + multiset(IndexListeners(callbacks, pad, EngineInputType.Button, old(controllers)[pad].buttons.Keys))
                                        + multiset(IndexListeners(callbacks, pad, EngineInputType.HatButton, old(controllers)[pad].hatButtons.Keys))
      ensures !Detecting() ==> mappingEvents == old(mappingEvents)
      ensures LogsExactly(old(mappingEvents), mappingEvents, if Detecting() then PadReleases(engineName, pad, old(controllers)[pad]) else {})
    {
      ghost var c0 := controllers[pad];
      ghost var before := mappingEvents;
      ReleasePadButtons(pad);
      ghost var mid := mappingEvents;
      assert controllers[pad].hatButtons == c0.hatButtons;
      ReleasePadHats(pad);
      ghost var buttons := if Detecting() then ButtonReleases(engineName, pad, c0.buttons, c0.buttons.Keys) else {};
      ghost var hats := if Detecting() then HatReleases(engineName, pad, c0.hatButtons, c0.hatButtons.Keys) else {};
      assert buttons !! hats;
      LogsExtend(before, mid, mappingEvents, buttons, hats);
    }

    /** The first half of the per-device body of `ResetButtonState`: every
        known button of `pad` through `SetButton(.., false)`. */
    method ReleasePadButtons(pad: PadIdentifier)
      requires pad in controllers
      modifies this`controllers, this`notified, this`mappingEvents
      ensures configuring ==> controllers == old(controllers)
      ensures !configuring ==> controllers == old(controllers)[pad := ControllerTable.ClearButtons(old(controllers)[pad])]
      ensures notified == old(notified) + multiset(IndexListeners(callbacks, pad, EngineInputType.Button, old(controllers)[pad].buttons.Keys))
      ensures !Detecting() ==> mappingEvents == old(mappingEvents)
      ensures LogsExactly(old(mappingEvents), mappingEvents,
                          if Detecting() then ButtonReleases(engineName, pad, old(controllers)[pad].buttons, old(controllers)[pad].buttons.Keys) else {})
    {
      ghost var c0 := controllers[pad];
      var buttons := controllers[pad].buttons.Keys;
      assert c0.buttons.Keys - buttons == {};
      LogsNothing(mappingEvents);
      ButtonsReleasedStart(controllers, pad);
      while buttons != {}
        invariant buttons <= c0.buttons.Keys
        invariant configuring ==> controllers == old(controllers)
        invariant !configuring ==> controllers == ButtonsReleased(old(controllers), pad, buttons)
        invariant notified == old(notified) + multiset(IndexListeners(callbacks, pad, EngineInputType.Button, c0.buttons.Keys - buttons))
        invariant !Detecting() ==> mappingEvents == old(mappingEvents)
        invariant LogsExactly(old(mappingEvents), mappingEvents,
                              if Detecting() then ButtonReleases(engineName, pad, c0.buttons, c0.buttons.Keys - buttons) else {})
        decreases buttons
      {
        var button := Pick(buttons);
        ghost var n1 := notified;
        ghost var before := mappingEvents;
        SetButton(pad, button, false);
        if !configuring {
          ButtonsReleasedStep(old(controllers), pad, buttons, button);
        }
        ListenersLogged(callbacks, pad, EngineInputType.Button, c0.buttons.Keys, buttons, button, old(notified), n1, notified);
        ButtonReleaseLogged(engineName, old(controllers), pad, c0.buttons.Keys, buttons, button, Detecting(),
                            old(mappingEvents), before, mappingEvents);
        buttons := buttons - {button};
      }
      assert c0.buttons.Keys - buttons == c0.buttons.Keys;
      ButtonsReleasedDone(old(controllers), pad);
    }

    /** The second half of the per-device body of `ResetButtonState`: every
        known hat of `pad` through `SetHatButton(.., 0)`. */
    method ReleasePadHats(pad: PadIdentifier)
      requires pad in controllers
      modifies this`controllers, this`notified, this`mappingEvents
      ensures configuring ==> controllers == old(controllers)
      ensures !configuring ==> controllers == old(controllers)[pad := ControllerTable.ClearHats(old(controllers)[pad])]
      ensures notified == old(notified) + multiset(IndexListeners(callbacks, pad, EngineInputType.HatButton, old(controllers)[pad].hatButtons.Keys))
      ensures !Detecting() ==> mappingEvents == old(mappingEvents)
      ensures LogsExactly(old(mappingEvents), mappingEvents,
                          if Detecting() then HatReleases(engineName, pad, old(controllers)[pad].hatButtons, old(controllers)[pad].hatButtons.Keys) else {})
    {
      ghost var c0 := controllers[pad];
      var hats := controllers[pad].hatButtons.Keys;
      assert c0.hatButtons.Keys - hats == {};
      LogsNothing(mappingEvents);
      HatsZeroedStart(controllers, pad);
      while hats != {}
        invariant hats <= c0.hatButtons.Keys
        invariant configuring ==> controllers == old(controllers)
        invariant !configuring ==> controllers == HatsZeroed(old(controllers), pad, hats)
        invariant notified == old(notified) + multiset(IndexListeners(callbacks, pad, EngineInputType.HatButton, c0.hatButtons.Keys - hats))
        invariant !Detecting() ==> mappingEvents == old(mappingEvents)
        invariant LogsExactly(old(mappingEvents), mappingEvents,
                              if Detecting() then HatReleases(engineName, pad, c0.hatButtons, c0.hatButtons.Keys - hats) else {})
        decreases hats
      {
        var button := Pick(hats);
        ghost var n1 := notified;
        ghost var before := mappingEvents;
        SetHatButton(pad, button, 0);
        if !configuring {
          HatsZeroedStep(old(controllers), pad, hats, button);
        }
        ListenersLogged(callbacks, pad, EngineInputType.HatButton, c0.hatButtons.Keys, hats, button, old(notified), n1, notified);
        HatReleaseLogged(engineName, old(controllers), pad, c0.hatButtons.Keys, hats, button, Detecting(),
                         old(mappingEvents), before, mappingEvents);
        hats := hats - {button};
      }
      assert c0.hatButtons.Keys - hats == c0.hatButtons.Keys;
      HatsZeroedDone(old(controllers), pad);
    }

    /** Centres every known axis of every device through `SetAxis`. Each
        known axis is written once, so each of its listeners runs once; in
        configuring mode with an observer, every axis at least the threshold
        off centre is reported as 0.0, once. */
    method ResetAnalogState()
      modifies this`controllers, this`notified, this`mappingEvents
      ensures !configuring ==> controllers == ControllerTable.ResetAxes(old(controllers))
      ensures configuring ==> controllers == old(controllers)
      ensures notified == old(notified) + multiset(TableListeners(callbacks, old(controllers), old(controllers).Keys, EngineInputType.Analog))
      ensures !Detecting() ==> mappingEvents == old(mappingEvents)
      ensures LogsExactly(old(mappingEvents), mappingEvents,
                          if Detecting() then TableCenterings(engineName, old(controllers), old(controllers).Keys) else {})
    {
      var pads := controllers.Keys;
      LogsNothing(mappingEvents);
      while pads != {}
        invariant pads <= old(controllers).Keys
        invariant configuring ==> controllers == old(controllers)
        invariant !configuring ==> CenteredExcept(old(controllers), controllers, pads)
        invariant notified == old(notified) + multiset(TableListeners(callbacks, old(controllers), old(controllers).Keys - pads, EngineInputType.Analog))
        invariant !Detecting() ==> mappingEvents == old(mappingEvents)
        invariant LogsExactly(old(mappingEvents), mappingEvents,
                              if Detecting() then TableCenterings(engineName, old(controllers), old(controllers).Keys - pads) else {})
        decreases pads
      {
        var pad := Pick(pads);
        ghost var t := controllers;
        ghost var n1 := notified;
        ghost var before := mappingEvents;
        CenterPadAxes(pad);
        assert t[pad] == old(controllers)[pad];
        if !configuring {
          CenteredExceptStep(old(controllers), t, pads, pad);
        }
        PadAxisListenersLogged(callbacks, old(controllers), pads, pad, old(notified), n1, notified);
        PadCenteringsLogged(engineName, old(controllers), pads, pad, Detecting(), old(mappingEvents), before, mappingEvents);
        pads := pads - {pad};
      }
      assert old(controllers).Keys - pads == old(controllers).Keys;
      if !configuring {
        CenteredExceptDone(old(controllers), controllers);
      }
    }

    /** The per-device body of `ResetAnalogState`. */
    method CenterPadAxes(pad: PadIdentifier)
      requires pad in controllers
      modifies this`controllers, this`notified, this`mappingEvents
      ensures configuring ==> controllers == old(controllers)
      ensures !configuring ==> controllers == old(controllers)[pad := ControllerTable.CenterAxes(old(controllers)[pad])]
      ensures notified == old(notified) + multiset(IndexListeners(callbacks, pad, EngineInputType.Analog, old(controllers)[pad].axes.Keys))
      ensures !Detecting() ==> mappingEvents == old(mappingEvents)
      ensures LogsExactly(old(mappingEvents), mappingEvents,
                          if Detecting() then AxisCenterings(engineName, pad, old(controllers)[pad].axes, old(controllers)[pad].axes.Keys) else {})
    {
      ghost var c0 := controllers[pad];
      var axes := controllers[pad].axes.Keys;
      assert c0.axes.Keys - axes == {};
      LogsNothing(mappingEvents);
      AxesCentredStart(controllers, pad);
      while axes != {}
        invariant axes <= c0.axes.Keys
        invariant configuring ==> controllers == old(controllers)
        invariant !configuring ==> controllers == AxesCentred(old(controllers), pad, axes)
        invariant notified == old(notified) + multiset(IndexListeners(callbacks, pad, EngineInputType.Analog, c0.axes.Keys - axes))
        invariant !Detecting() ==> mappingEvents == old(mappingEvents)
        invariant LogsExactly(old(mappingEvents), mappingEvents,
                              if Detecting() then AxisCenterings(engineName, pad, c0.axes, c0.axes.Keys - axes) else {})
        decreases axes
      {
        var axis := Pick(axes);
        ghost var n1 := notified;
        ghost var before := mappingEvents;
        SetAxis(pad, axis, 0.0);
        if !configuring {
          AxesCentredStep(old(controllers), pad, axes, axis);
        }
        ListenersLogged(callbacks, pad, EngineInputType.Analog, c0.axes.Keys, axes, axis, old(notified), n1, notified);
        AxisCenteringLogged(engineName, old(controllers), pad, c0.axes.Keys, axes, axis, Detecting(),
                            old(mappingEvents), before, mappingEvents);
        axes := axes - {axis};
      }
      assert c0.axes.Keys - axes == c0.axes.Keys;
      AxesCentredDone(old(controllers), pad);
    }

    // ------------------------------------------------------- notification

    /** Runs the notifier of every subscription for (`pad`, `kind`, `index`)
        once, and no other. */
    method NotifyListeners(pad: PadIdentifier, kind: EngineInputType, index: int)
      modifies this`notified
      ensures notified == old(notified) + multiset(Listeners(callbacks, pad, kind, index))
    {
      var subscriptions := callbacks;
      ghost var listeners := Listeners(subscriptions, pad, kind, index);
      var pending := subscriptions.Keys;
      ghost var done: set<int> := {};
      ghost var found: set<int> := {};
      while pending != {}
        modifies {}
        invariant pending !! done && pending + done == subscriptions.Keys
        invariant found <= done && forall k :: k in done ==> (k in found <==> k in listeners)
        decreases pending
      {
        var key := Pick(pending);
        var poller := subscriptions[key];
        if IsInputIdentifierEqual(poller, pad, kind, index) && poller.callback.onChange {
          found := found + {key};
        }
        pending := pending - {key};
        done := done + {key};
      }
      VisitedAll(found, listeners, subscriptions.Keys);
      notified := notified + multiset(found);
    }

    method TriggerOnButtonChange(pad: PadIdentifier, button: int, value: bool)
      requires pad in controllers
      modifies this`controllers, this`notified, this`mappingEvents
      ensures controllers == if Detecting() then ControllerTable.PreSetButton(old(controllers), pad, button) else old(controllers)
      ensures notified == old(notified) + multiset(Listeners(callbacks, pad, EngineInputType.Button, button))
      ensures mappingEvents == old(mappingEvents) +
        if Detecting() then ButtonEvents(engineName, pad, button, value, ControllerTable.GetButton(old(controllers), pad, button))
        else []
    {
      NotifyListeners(pad, EngineInputType.Button, button);
      if !configuring || !mappingCallback.onData {
        return;
      }
      PreSetButton(pad, button);
      if value == ControllerTable.GetButton(controllers, pad, button) {
        return;
      }
      mappingEvents := mappingEvents + [MappingData(engineName, pad, button, ButtonValue(value))];
    }

    /** Reports, in configuring mode, one event per direction bit (1, 2, 4,
        ..., 128 in turn) whose state in `value` differs from the stored mask. */
    method TriggerOnHatButtonChange(pad: PadIdentifier, button: int, value: bv8)
      modifies this`notified, this`mappingEvents
      ensures notified == old(notified) + multiset(Listeners(callbacks, pad, EngineInputType.HatButton, button))
      ensures mappingEvents == old(mappingEvents) +
        if Detecting() then HatEvents(engineName, pad, button, value, ControllerTable.HatMask(controllers, pad, button))
        else []
    {
      NotifyListeners(pad, EngineInputType.HatButton, button);
      if !configuring || !mappingCallback.onData {
        return;
      }
      var events := ScanHatDirections(engineName, controllers, pad, button, value);
      mappingEvents := mappingEvents + events;
    }

    method TriggerOnAxisChange(pad: PadIdentifier, axis: int, value: real)
      modifies this`notified, this`mappingEvents
      ensures notified == old(notified) + multiset(Listeners(callbacks, pad, EngineInputType.Analog, axis))
      ensures mappingEvents == old(mappingEvents) +
        if Detecting() then AxisEvents(engineName, pad, axis, value, ControllerTable.GetAxis(controllers, pad, axis))
        else []
    {
      NotifyListeners(pad, EngineInputType.Analog, axis);
      if !configuring || !mappingCallback.onData {
        return;
      }
      if Abs(value - ControllerTable.GetAxis(controllers, pad, axis)) < AxisThreshold {
        return;
      }
      mappingEvents := mappingEvents + [MappingData(engineName, pad, axis, AxisValue(value))];
    }

    method TriggerOnBatteryChange(pad: PadIdentifier, value: BatteryLevel)
      modifies this`notified
      ensures notified == old(notified) + multiset(Listeners(callbacks, pad, EngineInputType.Battery, 0))
    {
      NotifyListeners(pad, EngineInputType.Battery, 0);
    }

    method TriggerOnMotionChange(pad: PadIdentifier, motion: int, value: BasicMotion)
      modifies this`notified, this`mappingEvents
      ensures notified == old(notified) + multiset(Listeners(callbacks, pad, EngineInputType.Motion, motion))
      ensures mappingEvents == old(mappingEvents) +
        if Detecting() then MotionEvents(engineName, pad, motion, value) else []
    {
      NotifyListeners(pad, EngineInputType.Motion, motion);
      if !configuring || !mappingCallback.onData {
        return;
      }
      var isActive := false;
      if Abs(value.accelX) > AccelThreshold || Abs(value.accelY) > AccelThreshold || Abs(value.accelZ) > AccelThreshold {
        isActive := true;
      }
      if Abs(value.gyroX) > GyroThreshold || Abs(value.gyroY) > GyroThreshold || Abs(value.gyroZ) > GyroThreshold {
        isActive := true;
      }
      if !isActive {
        return;
      }
      mappingEvents := mappingEvents + [MappingData(engineName, pad, motion, MotionValue(value))];
    }

    // ---------------------------------------------------------------- mode

    method BeginConfiguration()
      modifies this`configuring
      ensures configuring
    {
      configuring := true;
    }

    method EndConfiguration()
      modifies this`configuring
      ensures !configuring
    {
      configuring := false;
    }

    // ------------------------------------------------------------ registry

    /** Registers a subscription under the counter's current value and
        advances the counter; the key was never handed out before. */
    method SetCallback(input: InputIdentifier) returns (key: int)
      requires Valid()
      modifies this`callbacks, this`lastCallbackKey, this`issuedKeys
      ensures Valid()
      ensures key == old(lastCallbackKey) && lastCallbackKey == key + 1
      ensures key !in old(issuedKeys) && forall k :: k in old(issuedKeys) ==> k < key
      ensures issuedKeys == old(issuedKeys) + {key}
      ensures callbacks == old(callbacks)[key := input] && key !in old(callbacks)
    {
      callbacks := callbacks[lastCallbackKey := input];
      issuedKeys := issuedKeys + {lastCallbackKey};
      key := lastCallbackKey;
      lastCallbackKey := lastCallbackKey + 1;
    }

    /** Replaces the mapping observer. */
    method SetMappingCallback(callback: MappingCallback)
      modifies this`mappingCallback
      ensures mappingCallback == callback
    {
      mappingCallback := callback;
    }

    /** Removes the subscription under `key`; an unknown key changes nothing. */
    method DeleteCallback(key: int)
      requires Valid()
      modifies this`callbacks
      ensures Valid()
      ensures key in old(callbacks) ==> callbacks == old(callbacks) - {key}
      ensures key !in old(callbacks) ==> callbacks == old(callbacks)
    {
      if key !in callbacks {
        return;
      }
      callbacks := callbacks - {key};
    }
  }
}
