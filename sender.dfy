/**
 * The uinput `Sender` of src/sender/sender_uinput.cpp as a class whose fields
 * are the fields of `Sender::Impl`: `ready` stands for `fd >= 0`, `keyMap`,
 * `currentMods` and `keyDelayUs` are the members of the same names, and the
 * ghost `trace` records every event that reached the device and every sleep.
 *
 * Each method updates the fields in place, following the source statement by
 * statement, and its contract ties the new state to the `Sequencer` function of
 * the same name applied to the old state; the properties of the operations are
 * the lemmas about those functions.
 */
module UInputSender {
  import opened Base
  import opened Keys
  import opened KeyMap
  import opened Sequencer

  /** The time the constructor waits for udev after creating the device, in microseconds. */
  const UdevSettleUs := 100_000

  /** The delay a new sender waits between the stages of a tap or combo, in microseconds. */
  const DefaultKeyDelayUs := 1000

  class Sender {
    var ready: bool
    var keyMap: KeyTable
    var currentMods: ModMask
    var keyDelayUs: Uint32
    ghost var trace: seq<Step>

    /** The sender's state as a `Sequencer.Device` value. */
    ghost function State(): Device
      reads this
    {
      Device(ready, keyMap, currentMods, keyDelayUs, trace)
    }

    /**
     * `Sender()` / `Impl()`: `deviceOpened` says whether opening /dev/uinput
     * succeeded; `scan` is what the xkbcommon keymap yields (empty when it
     * could not be built). A closed device gets an empty table and no sleep.
     */
    constructor (deviceOpened: bool, scan: seq<ScanEntry>, naming: Naming)
      ensures State() == Device(
        deviceOpened,
        if deviceOpened then InitialKeyMap(scan, naming) else map[],
        {},
        DefaultKeyDelayUs,
        if deviceOpened then [Slept(UdevSettleUs)] else [])
    {
      ready := deviceOpened;
      keyMap := map[];
      currentMods := {};
      keyDelayUs := DefaultKeyDelayUs;
      trace := [];
      new;
      if deviceOpened {
        trace := trace + [Slept(UdevSettleUs)];
        InitKeyMap(scan, naming);
      }
    }

    /**
     * `initKeyMap`: clear the table, store the first evdev code found for each
     * key while scanning the keycodes in order, then fill the keys still
     * missing from the fallback table, in its order.
     */
    method InitKeyMap(scan: seq<ScanEntry>, naming: Naming)
      modifies this
      ensures State() == old(State()).(keyMap := InitialKeyMap(scan, naming))
    {
      keyMap := map[];
      for i := 0 to |scan|
        invariant keyMap == Discover(map[], scan[..i], naming)
        invariant State() == old(State()).(keyMap := keyMap)
      {
        HitsStep(scan, naming, i);
        var sym := scan[i].sym;
        if sym == NoSymbol {
          continue;
        }
        var mapped := MapKeysymToKey(sym, naming);
        if mapped == Unknown {
          continue;
        }
        var evdevCode := EvdevOf(scan[i].keycode);
        if evdevCode > 0 {
          if mapped !in keyMap {
            keyMap := keyMap[mapped := evdevCode];
          }
        }
      }
      assert scan[..|scan|] == scan;
      ghost var discovered := keyMap;
      for j := 0 to |FallbackTable()|
        invariant keyMap == FillMissing(discovered, AsHits(FallbackTable()[..j]))
        invariant State() == old(State()).(keyMap := keyMap)
      {
        AsHitsStep(discovered, FallbackTable(), j);
        SetIfMissing(FallbackTable()[j].0, FallbackTable()[j].1);
      }
      assert FallbackTable()[..|FallbackTable()|] == FallbackTable();
    }

    /** The `setIfMissing` lambda of initKeyMap. */
    method SetIfMissing(k: Key, v: EvdevCode)
      modifies this
      ensures State() == old(State()).(keyMap := KeyMap.SetIfMissing(old(keyMap), Some((k, v))))
    {
      if k !in keyMap {
        keyMap := keyMap[k := v];
      }
    }

    method LinuxKeyCodeFor(k: Key) returns (code: int)
      ensures code == Sequencer.LinuxKeyCodeFor(State(), k)
    {
      if k !in keyMap {
        return -1;
      }
      return keyMap[k];
    }

    /** `emit`: one `input_event` written to the descriptor; on a closed device the write fails. */
    method Emit(evType: int, code: int, value: int)
      modifies this
      ensures State() == Sequencer.Emit(old(State()), evType, code, value)
    {
      if ready {
        trace := trace + [Wrote(Wire(evType, code, value))];
      }
    }

    method Sync()
      modifies this
      ensures State() == Sequencer.Sync(old(State()))
    {
      Emit(EvSyn, SynReport, 0);
    }

    method SendKey(k: Key, down: bool) returns (ok: bool)
      modifies this
      ensures Outcome(State(), ok) == Sequencer.SendKey(old(State()), k, down)
    {
      if !ready {
        return false;
      }
      var code := LinuxKeyCodeFor(k);
      if code < 0 {
        return false;
      }
      Emit(EvKey, code, if down then 1 else 0);
      Sync();
      return true;
    }

    method Delay()
      modifies this
      ensures State() == Sequencer.Delay(old(State()))
    {
      if keyDelayUs > 0 {
        trace := trace + [Slept(keyDelayUs)];
      }
    }

    method KeyDown(k: Key) returns (ok: bool)
      modifies this
      ensures Outcome(State(), ok) == Sequencer.KeyDown(old(State()), k)
    {
      currentMods := currentMods + ModifierBits(k);
      ok := SendKey(k, true);
    }

    method KeyUp(k: Key) returns (ok: bool)
      modifies this
      ensures Outcome(State(), ok) == Sequencer.KeyUp(old(State()), k)
    {
      ok := SendKey(k, false);
      currentMods := currentMods - ModifierBits(k);
    }

    method Tap(k: Key) returns (ok: bool)
      modifies this
      ensures Outcome(State(), ok) == Sequencer.Tap(old(State()), k)
    {
      var pressed := KeyDown(k);
      if !pressed {
        return false;
      }
      Delay();
      ok := KeyUp(k);
    }

    /** One `ok &= keyDown(...)` / `ok &= keyUp(...)` line of holdModifier/releaseModifier. */
    method ModifierLine(mask: ModMask, m: Mod, press: bool, okSoFar: bool) returns (ok: bool)
      modifies this
      ensures Outcome(State(), ok) == ModifierStep(Outcome(old(State()), okSoFar), mask, m, press)
    {
      ok := okSoFar;
      if m in mask {
        var r;
        if press {
          r := KeyDown(LeftKey(m));
        } else {
          r := KeyUp(LeftKey(m));
        }
        ok := ok && r;
      }
    }

    method HoldModifier(mask: ModMask) returns (ok: bool)
      modifies this
      ensures Outcome(State(), ok) == Sequencer.HoldModifier(old(State()), mask)
    {
      ok := true;
      ok := ModifierLine(mask, Shift, true, ok);
      ok := ModifierLine(mask, Ctrl, true, ok);
      ok := ModifierLine(mask, Alt, true, ok);
      ok := ModifierLine(mask, Super, true, ok);
    }

    method ReleaseModifier(mask: ModMask) returns (ok: bool)
      modifies this
      ensures Outcome(State(), ok) == Sequencer.ReleaseModifier(old(State()), mask)
    {
      ok := true;
      ok := ModifierLine(mask, Shift, false, ok);
      ok := ModifierLine(mask, Ctrl, false, ok);
      ok := ModifierLine(mask, Alt, false, ok);
      ok := ModifierLine(mask, Super, false, ok);
    }

    method ReleaseAllModifiers() returns (ok: bool)
      modifies this
      ensures Outcome(State(), ok) == Sequencer.ReleaseAllModifiers(old(State()))
    {
      ok := ReleaseModifier(AllModifiers);
    }

    method Combo(mask: ModMask, k: Key) returns (ok: bool)
      modifies this
      ensures Outcome(State(), ok) == Sequencer.Combo(old(State()), mask, k)
    {
      ghost var h := Sequencer.HoldModifier(State(), mask);
      var held := HoldModifier(mask);
      if !held {
        return false;
      }
      Delay();
      assert State() == Sequencer.Delay(h.device);
      ghost var t := Sequencer.Tap(State(), k);
      ok := Tap(k);
      Delay();
      assert State() == Sequencer.Delay(t.device) && ok == t.ok;
      var _ := ReleaseModifier(mask);
    }

    /** Both `typeText` overloads: uinput cannot inject text, so the call always fails and changes nothing. */
    method TypeText(text: seq<int>) returns (ok: bool)
      ensures !ok
    {
      ok := false;
    }

    /** `typeCharacter`: not supported by this backend; always fails and changes nothing. */
    method TypeCharacter(codepoint: int) returns (ok: bool)
      ensures !ok
    {
      ok := false;
    }

    method Flush()
      modifies this
      ensures State() == Sequencer.Flush(old(State()))
    {
      Sync();
    }

    method SetKeyDelay(delayUs: Uint32)
      modifies this
      ensures State() == old(State()).(keyDelayUs := delayUs)
    {
      keyDelayUs := delayUs;
    }

    method Capabilities() returns (c: Sequencer.Capabilities)
      ensures c == CapabilitiesOf(ready)
    {
      c := CapabilitiesOf(ready);
    }

    method IsReady() returns (r: bool)
      ensures r <==> State().ready
    {
      r := ready;
    }

    /** `requestPermissions`: nothing can be requested at run time; reports whether the device is open. */
    method RequestPermissions() returns (r: bool)
      ensures r <==> State().ready
    {
      r := IsReady();
    }

    method ActiveModifiers() returns (mods: ModMask)
      ensures mods == State().mods
    {
      mods := currentMods;
    }
  }

  /** Discovery over one more scanned keycode is one more `SetIfMissing`. */
  lemma HitsStep(scan: seq<ScanEntry>, naming: Naming, i: int)
    requires 0 <= i < |scan|
    ensures Discover(map[], scan[..i + 1], naming) ==
      KeyMap.SetIfMissing(Discover(map[], scan[..i], naming), Candidate(scan[i], naming))
  {
    var hs := Hits(scan[..i + 1], naming);
    assert hs[..i] == Hits(scan[..i], naming);
    assert hs[i] == Candidate(scan[i], naming);
  }

  /** The fallback pass over one more table row is one more `SetIfMissing`. */
  lemma AsHitsStep(m: KeyTable, table: seq<Entry>, j: int)
    requires 0 <= j < |table|
    ensures FillMissing(m, AsHits(table[..j + 1])) == KeyMap.SetIfMissing(FillMissing(m, AsHits(table[..j])), Some(table[j]))
  {
    var hs := AsHits(table[..j + 1]);
    assert hs[..j] == AsHits(table[..j]);
    assert hs[j] == Some(table[j]);
  }
}
