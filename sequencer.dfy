/**
 * The injection sequencer of src/sender/sender_uinput.cpp as a pure state
 * machine. A `Device` value is the sender's whole observable state: whether
 * /dev/uinput was opened, the key table, the modifier mask, the inter-event
 * delay, and the trace of what reached the device or the clock. Each function
 * below is one operation; `UInputSender.Sender` performs the same operations in
 * place and is proved to agree with them.
 */
module Sequencer {
  import opened Base
  import opened Keys
  import opened KeyMap

  /** The four bits of the `Modifier` mask. */
  datatype Mod = Shift | Ctrl | Alt | Super

  type ModMask = set<Mod>

  const AllModifiers: ModMask := {Shift, Ctrl, Alt, Super}

  // Event types and codes from linux/input-event-codes.h.
  const EvSyn := 0
  const EvKey := 1
  const SynReport := 0

  /** A `struct input_event` as written: type and code are stored as unsigned 16-bit values. */
  datatype InputEvent = InputEvent(evType: int, code: int, value: int)

  function Wire(evType: int, code: int, value: int): InputEvent
  {
    InputEvent(evType % 0x1_0000, code % 0x1_0000, value)
  }

  /** One observable effect: an event written to the device, or a sleep of the calling thread. */
  datatype Step = Wrote(event: InputEvent) | Slept(micros: int)

  datatype Device = Device(ready: bool, keyMap: KeyTable, mods: ModMask, keyDelayUs: Uint32, trace: seq<Step>)

  /** A new state together with the boolean an operation returns. */
  datatype Outcome = Outcome(device: Device, ok: bool)

  /** The modifier bit a key toggles: either side of Shift, Ctrl, Alt or Super. */
  function ModifierBits(k: Key): ModMask
  {
    match k
    case ShiftLeft | ShiftRight => {Shift}
    case CtrlLeft | CtrlRight => {Ctrl}
    case AltLeft | AltRight => {Alt}
    case SuperLeft | SuperRight => {Super}
    case _ => {}
  }

  /** The key `holdModifier`/`releaseModifier` use for a bit: always the left-side one. */
  function LeftKey(m: Mod): (k: Key)
    ensures ModifierBits(k) == {m}
  {
    match m
    case Shift => ShiftLeft
    case Ctrl => CtrlLeft
    case Alt => AltLeft
    case Super => SuperLeft
  }

  /** A key the device can be sent: the device is open and the key has a table entry. */
  predicate Resolvable(d: Device, k: Key)
  {
    d.ready && k in d.keyMap
  }

  /** The two events `sendKey` writes: the key transition, then the synchronisation report. */
  function KeyEvents(code: int, down: bool): seq<Step>
  {
    [Wrote(Wire(EvKey, code, if down then 1 else 0)), Wrote(Wire(EvSyn, SynReport, 0))]
  }

  /** What `delay` adds to the trace. */
  function DelaySteps(d: Device): seq<Step>
  {
    if d.keyDelayUs > 0 then [Slept(d.keyDelayUs)] else []
  }

  /** `emit`: the write reaches the device only when it is open (a write on fd -1 fails). */
  function Emit(d: Device, evType: int, code: int, value: int): Device
  {
    if d.ready then d.(trace := d.trace + [Wrote(Wire(evType, code, value))]) else d
  }

  function Sync(d: Device): Device
  {
    Emit(d, EvSyn, SynReport, 0)
  }

  /** `linuxKeyCodeFor`: the stored code, or -1 for a key without an entry. */
  function LinuxKeyCodeFor(d: Device, k: Key): (code: int)
    ensures code >= 0 <==> k in d.keyMap
    ensures k in d.keyMap ==> code == d.keyMap[k]
  {
    if k in d.keyMap then d.keyMap[k] else -1
  }

  function SendKey(d: Device, k: Key, down: bool): (r: Outcome)
    ensures r.ok <==> Resolvable(d, k)
    ensures r.device == if r.ok then d.(trace := d.trace + KeyEvents(d.keyMap[k], down)) else d
  {
    if !d.ready then Outcome(d, false)
    else
      var code := LinuxKeyCodeFor(d, k);
      if code < 0 then Outcome(d, false)
      else Outcome(Sync(Emit(d, EvKey, code, if down then 1 else 0)), true)
  }

  /** `delay`: sleeps only when the configured delay is non-zero. */
  function Delay(d: Device): (d': Device)
    ensures d' == d.(trace := d.trace + DelaySteps(d))
  {
    if d.keyDelayUs > 0 then d.(trace := d.trace + [Slept(d.keyDelayUs)]) else d
  }

  /** `keyDown`: the modifier bit is set first, whether or not the press is then sent. */
  function KeyDown(d: Device, k: Key): (r: Outcome)
    ensures r.ok <==> Resolvable(d, k)
    ensures r.device.mods == d.mods + ModifierBits(k)
    ensures r.device.trace == d.trace + (if r.ok then KeyEvents(d.keyMap[k], true) else [])
    ensures r.device == d.(mods := r.device.mods, trace := r.device.trace)
  {
    SendKey(d.(mods := d.mods + ModifierBits(k)), k, true)
  }

  /** `keyUp`: the release is sent, then the modifier bit is cleared whatever the result. */
  function KeyUp(d: Device, k: Key): (r: Outcome)
    ensures r.ok <==> Resolvable(d, k)
    ensures r.device.mods == d.mods - ModifierBits(k)
    ensures r.device.trace == d.trace + (if r.ok then KeyEvents(d.keyMap[k], false) else [])
    ensures r.device == d.(mods := r.device.mods, trace := r.device.trace)
  {
    var sent := SendKey(d, k, false);
    Outcome(sent.device.(mods := sent.device.mods - ModifierBits(k)), sent.ok)
  }

  /** `tap`: press, delay, release; a failed press ends the tap at once. */
  function Tap(d: Device, k: Key): Outcome
  {
    var pressed := KeyDown(d, k);
    if !pressed.ok then Outcome(pressed.device, false)
    else KeyUp(Delay(pressed.device), k)
  }

  /** One `ok &= keyDown/keyUp(...)` line of holdModifier/releaseModifier. */
  function ModifierStep(o: Outcome, mask: ModMask, m: Mod, press: bool): Outcome
  {
    if m in mask then
      var r := if press then KeyDown(o.device, LeftKey(m)) else KeyUp(o.device, LeftKey(m));
      Outcome(r.device, o.ok && r.ok)
    else o
  }

  /** The four lines in source order: Shift, Ctrl, Alt, Super; no rollback on failure. */
  function ModifierSweep(d: Device, mask: ModMask, press: bool): Outcome
  {
    var shift := ModifierStep(Outcome(d, true), mask, Shift, press);
    var ctrl := ModifierStep(shift, mask, Ctrl, press);
    var alt := ModifierStep(ctrl, mask, Alt, press);
    ModifierStep(alt, mask, Super, press)
  }

  function HoldModifier(d: Device, mask: ModMask): Outcome
  {
    ModifierSweep(d, mask, true)
  }

  function ReleaseModifier(d: Device, mask: ModMask): Outcome
  {
    ModifierSweep(d, mask, false)
  }

  function ReleaseAllModifiers(d: Device): Outcome
  {
    ReleaseModifier(d, AllModifiers)
  }

  /**
   * `combo`: hold, delay, tap, delay, release. A failed hold returns at once
   * without releasing; otherwise the release always runs and the result is the tap's.
   */
  function Combo(d: Device, mask: ModMask, k: Key): Outcome
  {
    var held := HoldModifier(d, mask);
    if !held.ok then Outcome(held.device, false)
    else
      var tapped := Tap(Delay(held.device), k);
      var released := ReleaseModifier(Delay(tapped.device), mask);
      Outcome(released.device, tapped.ok)
  }

  /** `flush`: one synchronisation report. */
  function Flush(d: Device): (d': Device)
    ensures d' == d.(trace := d.trace + (if d.ready then [Wrote(Wire(EvSyn, SynReport, 0))] else []))
  {
    Sync(d)
  }

  datatype Capabilities = Capabilities(
    canInjectKeys: bool,
    canInjectText: bool,
    canSimulateHID: bool,
    supportsKeyRepeat: bool,
    needsAccessibilityPerm: bool,
    needsInputMonitoringPerm: bool,
    needsUinputAccess: bool)

  /** What the uinput backend reports: key injection exactly when the device is open, never text. */
  function CapabilitiesOf(ready: bool): (c: Capabilities)
    ensures c.canInjectKeys <==> ready
    ensures !c.canInjectText && c.canSimulateHID && c.supportsKeyRepeat && c.needsUinputAccess
    ensures !c.needsAccessibilityPerm && !c.needsInputMonitoringPerm
  {
    Capabilities(ready, false, true, true, false, false, true)
  }

  // ---------------------------------------------------------------------------
  // Properties of composite operations

  /**
   * A tap on a resolvable key writes press, sync, (sleep), release, sync and
   * leaves the key's modifier bit clear. On any other key it writes nothing,
   * does not sleep, fails, and leaves the key's modifier bit SET (keyDown set it
   * before sending and no keyUp follows).
   */
  lemma TapSequence(d: Device, k: Key)
    ensures Tap(d, k).ok <==> Resolvable(d, k)
    ensures Resolvable(d, k) ==>
      Tap(d, k).device ==
        d.(mods := d.mods - ModifierBits(k),
           trace := d.trace + KeyEvents(d.keyMap[k], true) + DelaySteps(d) + KeyEvents(d.keyMap[k], false))
    ensures !Resolvable(d, k) ==> Tap(d, k).device == d.(mods := d.mods + ModifierBits(k))
  {
    var pressed := KeyDown(d, k);
    if Resolvable(d, k) {
      var waited := Delay(pressed.device);
      assert waited.keyMap == d.keyMap && waited.ready;
      var released := KeyUp(waited, k);
      assert released.device.mods == d.mods + ModifierBits(k) - ModifierBits(k);
      assert d.mods + ModifierBits(k) - ModifierBits(k) == d.mods - ModifierBits(k);
    }
  }

  /** The two events one sweep line writes, when its bit is in the mask and its key resolves. */
  function SweepLineEvents(d: Device, mask: ModMask, m: Mod, press: bool): seq<Step>
  {
    if m in mask && Resolvable(d, LeftKey(m)) then KeyEvents(d.keyMap[LeftKey(m)], press) else []
  }

  /** All events of a sweep, in the order Shift, Ctrl, Alt, Super. */
  function SweepEvents(d: Device, mask: ModMask, press: bool): seq<Step>
  {
    SweepLineEvents(d, mask, Shift, press) + SweepLineEvents(d, mask, Ctrl, press)
      + SweepLineEvents(d, mask, Alt, press) + SweepLineEvents(d, mask, Super, press)
  }

  /** The effect of one sweep line on a state that agrees with `d` on the device and the key table. */
  lemma ModifierStepEffect(d: Device, o: Outcome, mask: ModMask, m: Mod, press: bool)
    requires o.device.ready == d.ready && o.device.keyMap == d.keyMap && o.device.keyDelayUs == d.keyDelayUs
    ensures ModifierStep(o, mask, m, press) == Outcome(
      o.device.(
        mods := if press then o.device.mods + mask * {m} else o.device.mods - mask * {m},
        trace := o.device.trace + SweepLineEvents(d, mask, m, press)),
      o.ok && (m in mask ==> Resolvable(d, LeftKey(m))))
  {
  }

  /** Every bit is one of the four. */
  lemma ModifierCases(m: Mod)
    ensures m in AllModifiers
    ensures m == Shift || m == Ctrl || m == Alt || m == Super
  {
    match m
    case Shift =>
    case Ctrl =>
    case Alt =>
    case Super =>
  }

  lemma MaskSplit(mask: ModMask)
    ensures mask == mask * {Shift} + mask * {Ctrl} + mask * {Alt} + mask * {Super}
  {
    forall m | m in mask ensures m in mask * {Shift} + mask * {Ctrl} + mask * {Alt} + mask * {Super} {
      ModifierCases(m);
    }
  }

  /** Whether one sweep line succeeds: its bit is not requested, or its key could be sent. */
  predicate SweepLineOk(d: Device, mask: ModMask, m: Mod)
  {
    m in mask ==> Resolvable(d, LeftKey(m))
  }

  /** The four sweep lines composed, before any simplification. */
  lemma SweepUnfolds(d: Device, mask: ModMask, press: bool)
    ensures ModifierSweep(d, mask, press) == Outcome(
      d.(mods := if press then d.mods + mask * {Shift} + mask * {Ctrl} + mask * {Alt} + mask * {Super}
                 else d.mods - mask * {Shift} - mask * {Ctrl} - mask * {Alt} - mask * {Super},
         trace := d.trace + SweepLineEvents(d, mask, Shift, press) + SweepLineEvents(d, mask, Ctrl, press)
                  + SweepLineEvents(d, mask, Alt, press) + SweepLineEvents(d, mask, Super, press)),
      SweepLineOk(d, mask, Shift) && SweepLineOk(d, mask, Ctrl) && SweepLineOk(d, mask, Alt) && SweepLineOk(d, mask, Super))
  {
    var o0 := Outcome(d, true);
    ModifierStepEffect(d, o0, mask, Shift, press);
    var o1 := ModifierStep(o0, mask, Shift, press);
    ModifierStepEffect(d, o1, mask, Ctrl, press);
    var o2 := ModifierStep(o1, mask, Ctrl, press);
    ModifierStepEffect(d, o2, mask, Alt, press);
    var o3 := ModifierStep(o2, mask, Alt, press);
    ModifierStepEffect(d, o3, mask, Super, press);
  }

  lemma AppendFour(t: seq<Step>, a: seq<Step>, b: seq<Step>, c: seq<Step>, e: seq<Step>)
    ensures t + a + b + c + e == t + (a + b + c + e)
  {
  }

  /**
   * holdModifier/releaseModifier: the result is true iff every requested bit's
   * left-side key could be sent (true for an empty mask, also on a closed
   * device); the mask ends up exactly OR-ed in (hold) or cleared (release) even
   * when some sends fail; the trace gains the sweep's events in the order Shift,
   * Ctrl, Alt, Super; nothing else changes.
   */
  lemma {:induction false} ModifierSweepEffect(d: Device, mask: ModMask, press: bool)
    ensures ModifierSweep(d, mask, press).ok <==> forall m | m in mask :: Resolvable(d, LeftKey(m))
    ensures ModifierSweep(d, mask, press).device ==
      d.(mods := if press then d.mods + mask else d.mods - mask,
         trace := d.trace + SweepEvents(d, mask, press))
  {
    SweepUnfolds(d, mask, press);
    MaskSplit(mask);
    var s, c, a, u := mask * {Shift}, mask * {Ctrl}, mask * {Alt}, mask * {Super};
    assert d.mods + s + c + a + u == d.mods + mask;
    assert d.mods - s - c - a - u == d.mods - mask;
    var e1, e2, e3, e4 := SweepLineEvents(d, mask, Shift, press), SweepLineEvents(d, mask, Ctrl, press),
                          SweepLineEvents(d, mask, Alt, press), SweepLineEvents(d, mask, Super, press);
    AppendFour(d.trace, e1, e2, e3, e4);
    if SweepLineOk(d, mask, Shift) && SweepLineOk(d, mask, Ctrl) && SweepLineOk(d, mask, Alt) && SweepLineOk(d, mask, Super) {
      forall m | m in mask ensures Resolvable(d, LeftKey(m)) {
        ModifierCases(m);
      }
    }
  }

  /** `releaseAllModifiers` always ends with no modifier bit set. */
  lemma ReleaseAllClearsMask(d: Device)
    ensures ReleaseAllModifiers(d).device.mods == {}
    ensures ReleaseAllModifiers(d).ok <==> forall m: Mod :: Resolvable(d, LeftKey(m))
  {
    ModifierSweepEffect(d, AllModifiers, false);
    forall m: Mod ensures m in AllModifiers { ModifierCases(m); }
  }

  /** A failed hold ends `combo` at once: nothing is released and nothing more is written. */
  lemma ComboStopsAfterFailedHold(d: Device, mask: ModMask, k: Key)
    requires !HoldModifier(d, mask).ok
    ensures Combo(d, mask, k) == Outcome(HoldModifier(d, mask).device, false)
    ensures exists m | m in mask :: !Resolvable(d, LeftKey(m))
    ensures Combo(d, mask, k).device.mods == d.mods + mask
  {
    ModifierSweepEffect(d, mask, true);
  }

  /** A sweep's events depend only on whether the device is open and on the key table. */
  lemma SweepEventsAgree(d: Device, e: Device, mask: ModMask, press: bool)
    requires d.ready == e.ready && d.keyMap == e.keyMap
    ensures SweepEvents(e, mask, press) == SweepEvents(d, mask, press)
  {
  }

  /** The middle of `combo`: delay, tap, delay, on the state the hold left. */
  lemma ComboMiddle(held: Device, k: Key)
    ensures var w := Delay(Tap(Delay(held), k).device);
      w.ready == held.ready && w.keyMap == held.keyMap && w.keyDelayUs == held.keyDelayUs
      && w.mods == (if Resolvable(held, k) then held.mods - ModifierBits(k) else held.mods + ModifierBits(k))
      && w.trace == held.trace + DelaySteps(held)
        + (if Resolvable(held, k) then KeyEvents(held.keyMap[k], true) + DelaySteps(held) + KeyEvents(held.keyMap[k], false) else [])
        + DelaySteps(held)
  {
    var waited := Delay(held);
    TapSequence(waited, k);
  }

  /**
   * After a successful hold, `combo` presses the mask, taps the key and
   * releases the mask, with a delay between the stages; it reports only the
   * tap's result, and no bit of the mask is left set.
   */
  lemma ComboSequence(d: Device, mask: ModMask, k: Key)
    requires HoldModifier(d, mask).ok
    ensures Combo(d, mask, k).ok <==> Resolvable(d, k)
    ensures Combo(d, mask, k).device.trace ==
      d.trace + SweepEvents(d, mask, true) + DelaySteps(d)
        + (if Resolvable(d, k) then KeyEvents(d.keyMap[k], true) + DelaySteps(d) + KeyEvents(d.keyMap[k], false) else [])
        + DelaySteps(d) + SweepEvents(d, mask, false)
    ensures Combo(d, mask, k).device.mods ==
      (if Resolvable(d, k) then d.mods + mask - ModifierBits(k) else d.mods + mask + ModifierBits(k)) - mask
    ensures Combo(d, mask, k).device.mods !! mask
  {
    ModifierSweepEffect(d, mask, true);
    var held := HoldModifier(d, mask).device;
    assert held == d.(mods := d.mods + mask, trace := d.trace + SweepEvents(d, mask, true));
    assert Resolvable(held, k) == Resolvable(d, k) && DelaySteps(held) == DelaySteps(d);
    TapSequence(Delay(held), k);
    ComboMiddle(held, k);
    var waited2 := Delay(Tap(Delay(held), k).device);
    ModifierSweepEffect(waited2, mask, false);
    SweepEventsAgree(d, waited2, mask, false);
  }

  /**
   * `combo(Ctrl, C)` on an open device whose table has CtrlLeft and C: Ctrl
   * down, C down, C up, Ctrl up, each followed by a sync report and separated
   * by the configured delay; the result is true and Ctrl ends released.
   */
  lemma ComboCtrlC(d: Device)
    requires d.ready && CtrlLeft in d.keyMap && Letter(2) in d.keyMap
    ensures Combo(d, {Ctrl}, Letter(2)).ok
    ensures Combo(d, {Ctrl}, Letter(2)).device.trace ==
      d.trace + KeyEvents(d.keyMap[CtrlLeft], true) + DelaySteps(d)
        + KeyEvents(d.keyMap[Letter(2)], true) + DelaySteps(d) + KeyEvents(d.keyMap[Letter(2)], false)
        + DelaySteps(d) + KeyEvents(d.keyMap[CtrlLeft], false)
    ensures Combo(d, {Ctrl}, Letter(2)).device.mods == d.mods - {Ctrl}
  {
    ModifierSweepEffect(d, {Ctrl}, true);
    ComboSequence(d, {Ctrl}, Letter(2));
  }

  /** Only Wrote steps reach the device; a closed device sees none of them. */
  predicate OnlySleeps(steps: seq<Step>)
  {
    forall i | 0 <= i < |steps| :: steps[i].Slept?
  }

  /**
   * On a device that failed to open, every single-key operation fails and
   * writes nothing, and flush changes nothing.
   */
  lemma ClosedDeviceKeysFail(d: Device, k: Key)
    requires !d.ready
    ensures !KeyDown(d, k).ok && KeyDown(d, k).device.trace == d.trace
    ensures !KeyUp(d, k).ok && KeyUp(d, k).device.trace == d.trace
    ensures !Tap(d, k).ok && Tap(d, k).device.trace == d.trace
    ensures Flush(d) == d
  {
    TapSequence(d, k);
  }

  /**
   * On a device that failed to open, hold/release write nothing and report
   * true exactly for an empty mask.
   */
  lemma ClosedDeviceSweeps(d: Device, mask: ModMask, press: bool)
    requires !d.ready
    ensures ModifierSweep(d, mask, press).ok <==> mask == {}
    ensures ModifierSweep(d, mask, press).device.trace == d.trace
  {
    ModifierSweepEffect(d, mask, press);
    if mask != {} {
      var m :| m in mask;
      assert !Resolvable(d, LeftKey(m));
    }
    forall m ensures SweepLineEvents(d, mask, m, press) == [] {
    }
  }

  /** On a device that failed to open, `combo` fails and at most sleeps. */
  lemma ClosedDeviceComboFails(d: Device, mask: ModMask, k: Key)
    requires !d.ready
    ensures !Combo(d, mask, k).ok
    ensures d.trace <= Combo(d, mask, k).device.trace
    ensures OnlySleeps(Combo(d, mask, k).device.trace[|d.trace|..])
  {
    ClosedDeviceSweeps(d, mask, true);
    if mask == {} {
      var held := HoldModifier(d, mask).device;
      var waited := Delay(held);
      ClosedDeviceKeysFail(waited, k);
      var waited2 := Delay(Tap(waited, k).device);
      ClosedDeviceSweeps(waited2, mask, false);
      assert Combo(d, mask, k).device.trace == d.trace + DelaySteps(d) + DelaySteps(d);
    }
  }

  // ---------------------------------------------------------------------------
  // Modifier bookkeeping across arbitrary key sequences

  /** A caller's sequence of keyDown (true) / keyUp (false) calls. */
  type KeyCall = (Key, bool)

  function RunKeys(d: Device, calls: seq<KeyCall>): Device
    decreases |calls|
  {
    if calls == [] then d
    else
      var before := RunKeys(d, calls[..|calls| - 1]);
      var last := calls[|calls| - 1];
      if last.1 then KeyDown(before, last.0).device else KeyUp(before, last.0).device
  }

  /** The direction of the last call that touched bit `m`, if any. */
  function LastTouch(calls: seq<KeyCall>, m: Mod): Option<bool>
    decreases |calls|
  {
    if calls == [] then None
    else if m in ModifierBits(calls[|calls| - 1].0) then Some(calls[|calls| - 1].1)
    else LastTouch(calls[..|calls| - 1], m)
  }

  /**
   * Each modifier bit is independent: it is set after a sequence of keyDown/keyUp
   * calls iff the last call on one of its own two keys was a keyDown (or, with
   * no such call, iff it was set before), whether or not any call reached the device.
   */
  lemma {:induction false} ModifierBitFollowsLastCall(d: Device, calls: seq<KeyCall>, m: Mod)
    ensures m in RunKeys(d, calls).mods <==>
      match LastTouch(calls, m)
      case Some(down) => down
      case None => m in d.mods
    decreases |calls|
  {
    if calls != [] {
      ModifierBitFollowsLastCall(d, calls[..|calls| - 1], m);
    }
  }

  /** Press Shift, press Ctrl, release Shift: Ctrl stays set and Shift is clear. */
  lemma ShiftCtrlReleaseShift(d: Device)
    ensures var after := RunKeys(d, [(ShiftLeft, true), (CtrlLeft, true), (ShiftLeft, false)]);
            Ctrl in after.mods && Shift !in after.mods
  {
    var calls := [(ShiftLeft, true), (CtrlLeft, true), (ShiftLeft, false)];
    ModifierBitFollowsLastCall(d, calls, Ctrl);
    ModifierBitFollowsLastCall(d, calls, Shift);
    assert calls[..2] == [(ShiftLeft, true), (CtrlLeft, true)];
    assert calls[..2][..1] == [(ShiftLeft, true)];
  }
}
