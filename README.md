# axidev-io uinput sender and XKB rule-name detection, in Dafny

This project models two parts of the Linux backend of axidev-io (formerly
typr-io), a library that injects synthetic keyboard input.

**The uinput sender** (src/sender/sender_uinput.cpp):
- it opens a virtual keyboard through /dev/uinput;
- it builds a table from logical keys to Linux evdev key codes (`initKeyMap`), first by classifying the keysyms of the active XKB keymap (`mapKeysymToKey`), then by completing the table from a static fallback list;
- it sequences key presses, releases, taps, modifier holds and combos into `input_event` writes and sleeps, while it tracks the modifier bits.

**XKB rule-name detection** (src/keyboard/common/linux_layout.cpp/.hpp) fills the five components of `xkb_rule_names` from three sources, in order:
1. the `XKB_DEFAULT_*` environment variables;
2. `/etc/default/keyboard`;
3. a layout guessed from `LC_ALL` / `LC_MESSAGES` / `LANG`.

## Layout

| file | module | content |
|---|---|---|
| base.dfy | `Base` | `Option`, `Uint32` |
| keys.dfy | `Keys` | the logical keys, keysym constants, `MapKeysymToKey` and its classification lemmas |
| keymap.dfy | `KeyMap` | the key table: the first-wins `FillMissing` fold shared by discovery and the fallback pass, the 115-row fallback table, `InitialKeyMap` |
| sequencer.dfy | `Sequencer` | the sender as a pure state machine over `Device` values, with a trace of written events and sleeps; the properties of tap, hold/release and combo |
| sender.dfy | `UInputSender` | `class Sender` with the fields of `Sender::Impl`. Each method updates them in place and is proved to agree with its `Sequencer` function. |
| layout_text.dfy | `LayoutText` | `trimInPlace`, `stripSurroundingQuotes`, ASCII case mapping and `normalizeKey`. Each is an imperative method proved equal to a specification function. |
| linux_layout.dfy | `LinuxLayout` | the three detection stages as functions (`FromEnvironment`, `FromFile`, `FromLocale`, composed as `Detect`), the imperative `DetectXkbRuleNames` proved equal to `Detect`, and the precedence properties |

### How the source is represented

- `Sender::Impl::fd >= 0` is the field `ready`. `currentMods` is a set of the four modifier bits.
- Every `input_event` that reaches the device, and every sleep, is appended to a ghost `trace`. That is how "what the device saw" is stated.
- A write on a closed descriptor fails, so it adds nothing to the trace.
- Functions that mutate a `std::string&` in place (`trimInPlace`, `stripSurroundingQuotes`, the `std::transform` calls) are methods that return the new string.
- The environment is a `map<string, string>`. The keyboard file is `Option<seq<string>>`, `None` when it cannot be opened. The xkbcommon keymap scan is a sequence of `(keycode, keysym)` pairs, empty when any xkb stage fails. The keysym-name fallback is the `Naming` parameter.
- The 115 `setIfMissing(...)` calls of `initKeyMap` are the rows of `KeyMap.FallbackTable`, applied in source order by a loop. The key-name `if`/`else if` chain of the file loop is `LinuxLayout.FieldOfKey`. The locale table is `LinuxLayout.GuessLayout`.
- `static_cast<int>(xkbKey - 8)` on an unsigned 32-bit keycode is written out with 32-bit wrap-around (`KeyMap.EvdevOf`). The `unsigned short` casts of event type and code are written out as `% 0x1_0000` (`Sequencer.Wire`).

### Behaviour worth knowing

The model follows the code in each case:
- `keyDown` sets the modifier bit before it tries to send, so the bit is set even when the press fails (closed device, or no table entry). `tap` on an unresolvable modifier key therefore leaves its bit set. See `Sequencer.KeyDown` and `Sequencer.TapSequence`.
- On a closed device `holdModifier`/`releaseModifier` with an empty mask return true. `combo` with an empty mask still runs both of its delays, which sleep whenever the key delay is non-zero. So not every call on a closed device fails without effect. See `Sequencer.ClosedDeviceSweeps` and `Sequencer.ClosedDeviceComboFails`.
- The fallback table has no row for `Insert`, although the keysym classifier resolves `XKB_KEY_Insert`. With discovery failing, `Insert` cannot be sent: `KeyMap.FallbackCoverage` states that exactly `Unknown` and `Insert` then lack an entry.
- `hasModifier` tests membership in a set of exactly four bits (`Sequencer.ModMask`, a `set<Mod>`), so the modifier state holds nothing but Shift, Ctrl, Alt and Super.
- A locale of `C` or `POSIX` yields the layout `c` or `posix`: any non-empty language not in the table becomes its own layout name (`LinuxLayout.LocaleTable`).
- A set but empty `LC_ALL` hides `LC_MESSAGES` and `LANG` and leaves the layout missing (`LinuxLayout.EmptyLcAllBlocksFallback`).

## Model

| member | source | states |
|---|---|---|
| Keys.LetterCaseFolds | src/sender/sender_uinput.cpp:33-38 | the lower- and upper-case keysym of the i-th letter both classify to `Letter(i)`, whatever the name fallback does |
| Keys.DigitAndFunctionOffsets | src/sender/sender_uinput.cpp:40-49 | keysym `0 + d` classifies to `Num(d)` and `F1 + (n - 1)` to `F(n)`, by constant offset |
| Keys.ClassifiedIgnoresNaming | src/sender/sender_uinput.cpp:31-140 | a keysym in the letter, digit or F ranges or in the direct switch classifies to a known key and never consults the keysym-name fallback |
| Keys.UnclassifiedUsesName | src/sender/sender_uinput.cpp:142-150 | any other keysym yields exactly what the key-name parser makes of the keysym's name, or `Unknown` when the name is empty |
| Keys.CanonicalKeysymRoundTrip | src/sender/sender_uinput.cpp:31-140 | round trip: for every key in a contiguous run (letters, digits, F1..F20, keypad digits), its canonical keysym classifies back to that key |
| Keys.NumpadDigits | src/sender/sender_uinput.cpp:96-115 | the keypad digit keysyms 0xffb0..0xffb9 are the run `Numpad(0)`..`Numpad(9)` of the direct switch |
| Keys.DirectTableReachable | src/sender/sender_uinput.cpp:31-140 | no entry of the direct switch is shadowed by the range checks before it: every keysym the switch names classifies to exactly its entry |
| Keys.DirectKey | src/sender/sender_uinput.cpp:51-140 | defined by its body, the `switch` over named keysyms; meaning stated by `Keys.DirectTableReachable` and `Keys.NumpadDigits` |
| Keys.KeyByName | src/sender/sender_uinput.cpp:142-150 | defined by its body, the keysym-name fallback; meaning stated by `Keys.UnclassifiedUsesName` |
| Keys.MapKeysymToKey | src/sender/sender_uinput.cpp:31-151 | defined by its body; meaning stated by `Keys.LetterCaseFolds`, `Keys.DigitAndFunctionOffsets`, `Keys.ClassifiedIgnoresNaming`, `Keys.UnclassifiedUsesName` and `Keys.CanonicalKeysymRoundTrip` |
| KeyMap.EvdevOfPositive | src/sender/sender_uinput.cpp:262-266 | the offset conversion gives a positive code iff the keycode lies in (8, 2^31 + 8), and the code is then keycode − 8 |
| KeyMap.EvdevOf | src/sender/sender_uinput.cpp:262-266 | defined by its body, the 32-bit `xkbKey - 8` cast; meaning stated by `KeyMap.EvdevOfPositive` |
| KeyMap.Discover | src/sender/sender_uinput.cpp:250-272 | defined by its body, the scan loop as a first-wins fold; meaning stated by `KeyMap.DiscoverFirstKeycodeWins`, `KeyMap.DiscoveredCodesComeFromScan` and `KeyMap.DiscoverIdempotent` |
| KeyMap.FillMissingFirstWins | src/sender/sender_uinput.cpp:266-270 | the "insert only if absent" rule over a sequence: a key ends in the table iff it was there or some entry carries it; existing values are never replaced; a new key gets its first entry's value |
| KeyMap.TableFillsOnlyMissing | src/sender/sender_uinput.cpp:285-290 | `setIfMissing` over any list of rows keeps every existing entry and adds exactly the keys of the rows |
| KeyMap.DiscoverFirstKeycodeWins | src/sender/sender_uinput.cpp:250-272 | discovery stores a key iff some scanned keycode has a symbol, a known key and a positive evdev code; the first such keycode (minus 8) wins, and existing entries are kept |
| KeyMap.DiscoverFirst | src/sender/sender_uinput.cpp:250-272 | a key missing from the table takes the code of the first scanned keycode that yields it, minus 8 |
| KeyMap.CandidateSkips | src/sender/sender_uinput.cpp:254-266 | a scanned keycode contributes only when its keysym is not NoSymbol, classifies to a known key, and the keycode lies in (8, 2^31 + 8); the stored code is keycode − 8 |
| KeyMap.DiscoveredCodesComeFromScan | src/sender/sender_uinput.cpp:250-272 | every discovered code is some scanned keycode minus 8 |
| KeyMap.DiscoverIdempotent | src/sender/sender_uinput.cpp:250-272 | running discovery a second time over the same scan leaves the table unchanged |
| KeyMap.FallbackRow | src/sender/sender_uinput.cpp:284-422 | defined by its body, one `setIfMissing(key, code)` call per row; meaning stated by `KeyMap.RowPosition` and `KeyMap.FallbackKeysDistinct` |
| KeyMap.FallbackTable | src/sender/sender_uinput.cpp:284-422 | the 115 rows in source order; that no key has two rows is `KeyMap.FallbackKeysDistinct` |
| KeyMap.FallbackPosition | src/sender/sender_uinput.cpp:284-422 | defined by its body, the row index of each key (−1 for `Unknown` and `Insert`); meaning stated by `KeyMap.RowPosition` and `KeyMap.PositionRow` |
| KeyMap.RowPosition | src/sender/sender_uinput.cpp:284-422 | every row lies at the position of its key, so the position is an inverse of the table |
| KeyMap.PositionRow | src/sender/sender_uinput.cpp:284-422 | every key with a position has its row there |
| KeyMap.PositionedKeys | src/sender/sender_uinput.cpp:284-422 | exactly the keys other than `Unknown` and `Insert` have a row |
| KeyMap.FallbackKeysDistinct | src/sender/sender_uinput.cpp:284-422 | no two rows of the static table name the same key |
| KeyMap.ApplyFallback | src/sender/sender_uinput.cpp:284-422 | defined by its body, the 115 `setIfMissing` calls as a fold; meaning stated by `KeyMap.FallbackFillsOnlyMissing` |
| KeyMap.InitialKeyMap | src/sender/sender_uinput.cpp:238-425 | defined by its body, discovery then fallback from an empty table; meaning stated by `KeyMap.InitialKeyMapCoversFallback`, `KeyMap.NoDiscoveryUsesFallback` and `KeyMap.FallbackCoverage` |
| KeyMap.FallbackFillsOnlyMissing | src/sender/sender_uinput.cpp:284-422 | the fallback pass keeps every discovered entry, adds every key of the static table, and adds no other key |
| KeyMap.InitialKeyMapCoversFallback | src/sender/sender_uinput.cpp:238-422 | after `initKeyMap` every key of the static table has an entry, whatever the scan produced |
| KeyMap.NoDiscoveryUsesFallback | src/sender/sender_uinput.cpp:245-422 | with discovery producing nothing, each fallback key maps to the code of its row in the static table, its only row |
| KeyMap.FallbackCoverage | src/sender/sender_uinput.cpp:238-422 | with discovery producing nothing, a key has an entry iff it is neither `Unknown` nor `Insert` |
| Sequencer.LinuxKeyCodeFor | src/sender/sender_uinput.cpp:427-435 | the lookup is non-negative iff the key has an entry, and is then the stored code |
| Sequencer.Emit | src/sender/sender_uinput.cpp:437-452 | defined by its body: the event reaches the trace iff the device is open; meaning stated by `Sequencer.SendKey` and `Sequencer.ClosedDeviceKeysFail` |
| Sequencer.Sync | src/sender/sender_uinput.cpp:454-457 | defined by its body, one `EV_SYN/SYN_REPORT` emit; meaning stated by `Sequencer.SendKey` and `Sequencer.Flush` |
| Sequencer.SendKey | src/sender/sender_uinput.cpp:459-477 | succeeds iff the device is open and the key has an entry; on success exactly the key event and a sync report are appended, otherwise nothing changes |
| Sequencer.Delay | src/sender/sender_uinput.cpp:479-483 | sleeps the configured delay, and only when it is non-zero |
| Sequencer.KeyDown | src/sender/sender_uinput.cpp:524-553 | the modifier bit of the key is set whatever the outcome; the result and the appended press events are those of sending the key; nothing else changes |
| Sequencer.KeyUp | src/sender/sender_uinput.cpp:555-592 | the release is sent, then the key's modifier bit is cleared whatever the outcome; nothing else changes |
| Sequencer.LeftKey | src/sender/sender_uinput.cpp:612-628 | the key used for each modifier bit toggles exactly that bit |
| Sequencer.Tap | src/sender/sender_uinput.cpp:594-603 | defined by its body; meaning stated by `Sequencer.TapSequence` and `Sequencer.ClosedDeviceKeysFail` |
| Sequencer.HoldModifier | src/sender/sender_uinput.cpp:612-628 | defined by its body, a press sweep over the four bits; meaning stated by `Sequencer.ModifierSweepEffect` and `Sequencer.ClosedDeviceSweeps` |
| Sequencer.ReleaseModifier | src/sender/sender_uinput.cpp:630-647 | defined by its body, a release sweep over the four bits; meaning stated by `Sequencer.ModifierSweepEffect` and `Sequencer.ClosedDeviceSweeps` |
| Sequencer.ReleaseAllModifiers | src/sender/sender_uinput.cpp:649-656 | defined by its body; meaning stated by `Sequencer.ReleaseAllClearsMask` |
| Sequencer.Combo | src/sender/sender_uinput.cpp:658-669 | defined by its body; meaning stated by `Sequencer.ComboStopsAfterFailedHold`, `Sequencer.ComboSequence`, `Sequencer.ComboCtrlC` and `Sequencer.ClosedDeviceComboFails` |
| Sequencer.TapSequence | src/sender/sender_uinput.cpp:594-603 | a tap on a resolvable key writes press, sync, (sleep), release, sync and clears its bit; on any other key it fails, writes and sleeps nothing, and leaves the key's bit set |
| Sequencer.ModifierStepEffect | src/sender/sender_uinput.cpp:614-621 | one `ok &= keyDown/keyUp(...)` line changes the bit, the trace and the result only when its bit is in the mask |
| Sequencer.ModifierSweepEffect | src/sender/sender_uinput.cpp:612-647 | hold/release return true iff every requested bit's left key could be sent; the mask is OR-ed in or cleared even when sends fail (no rollback); events appear in the order Shift, Ctrl, Alt, Super |
| Sequencer.ReleaseAllClearsMask | src/sender/sender_uinput.cpp:649-656 | after `releaseAllModifiers` no modifier bit is set; it succeeds iff all four left keys can be sent |
| Sequencer.ComboStopsAfterFailedHold | src/sender/sender_uinput.cpp:658-661 | a failed hold ends `combo` at once: false, no release, no further event, and the mask stays set |
| Sequencer.ComboMiddle | src/sender/sender_uinput.cpp:662-664 | delay, tap, delay: the trace and modifier bits after the middle of `combo` |
| Sequencer.ComboSequence | src/sender/sender_uinput.cpp:658-669 | after a successful hold, `combo` writes hold events, delay, tap events, delay, release events; it reports the tap's result and leaves no bit of the mask set |
| Sequencer.ComboCtrlC | src/sender/sender_uinput.cpp:658-669 | `combo(Ctrl, C)` on an open device with both keys mapped writes Ctrl down, C down, C up, Ctrl up, each with its sync report, returns true and leaves Ctrl released |
| Sequencer.ClosedDeviceKeysFail | src/sender/sender_uinput.cpp:459-463 | on a closed device keyDown, keyUp and tap fail and write nothing, and flush changes nothing |
| Sequencer.ClosedDeviceSweeps | src/sender/sender_uinput.cpp:612-647 | on a closed device hold/release write nothing and succeed iff the mask is empty |
| Sequencer.ClosedDeviceComboFails | src/sender/sender_uinput.cpp:658-669 | on a closed device `combo` fails and its trace grows only by sleeps |
| Sequencer.ModifierBitFollowsLastCall | src/sender/sender_uinput.cpp:524-592 | after any sequence of keyDown/keyUp calls, each modifier bit is set iff the last call on one of its own keys was a keyDown (or, with none, iff it was set before), whatever reached the device |
| Sequencer.ShiftCtrlReleaseShift | src/sender/sender_uinput.cpp:524-592 | Shift down, Ctrl down, Shift up leaves Ctrl set and Shift clear |
| Sequencer.Flush | src/sender/sender_uinput.cpp:691-695 | `flush` appends one sync report when the device is open and changes nothing otherwise |
| Sequencer.CapabilitiesOf | src/sender/sender_uinput.cpp:499-510 | key injection is reported iff the device is open; text injection never; HID simulation, key repeat and uinput access always; no accessibility or input-monitoring permission |
| UInputSender.Sender.constructor | src/sender/sender_uinput.cpp:160-198 | a new sender has no modifier bits and a 1000 µs delay; if the device opened, it slept 100 ms and holds `InitialKeyMap` of the scan; otherwise its table is empty and nothing happened |
| UInputSender.Sender.InitKeyMap | src/sender/sender_uinput.cpp:238-425 | clearing, the scan loop and the 115 fallback insertions leave exactly `InitialKeyMap(scan)` and change no other field |
| UInputSender.Sender.SetIfMissing | src/sender/sender_uinput.cpp:286-290 | the lambda stores the code only when the key is absent |
| UInputSender.Sender.LinuxKeyCodeFor | src/sender/sender_uinput.cpp:427-435 | returns the stored code or −1, as `Sequencer.LinuxKeyCodeFor` |
| UInputSender.Sender.Emit | src/sender/sender_uinput.cpp:437-452 | the event reaches the trace exactly when the device is open |
| UInputSender.Sender.Sync | src/sender/sender_uinput.cpp:454-457 | one `EV_SYN/SYN_REPORT` emit |
| UInputSender.Sender.SendKey | src/sender/sender_uinput.cpp:459-477 | result and new state are those of `Sequencer.SendKey` |
| UInputSender.Sender.Delay | src/sender/sender_uinput.cpp:479-483 | new state is `Sequencer.Delay` of the old one |
| UInputSender.Sender.KeyDown | src/sender/sender_uinput.cpp:524-553 | result and new state are `Sequencer.KeyDown` of the old state |
| UInputSender.Sender.KeyUp | src/sender/sender_uinput.cpp:555-592 | result and new state are `Sequencer.KeyUp` of the old state |
| UInputSender.Sender.Tap | src/sender/sender_uinput.cpp:594-603 | result and new state are `Sequencer.Tap` of the old state |
| UInputSender.Sender.ModifierLine | src/sender/sender_uinput.cpp:614-621 | one `ok &= ...` line is `Sequencer.ModifierStep` |
| UInputSender.Sender.HoldModifier | src/sender/sender_uinput.cpp:612-628 | result and new state are `Sequencer.HoldModifier` of the old state |
| UInputSender.Sender.ReleaseModifier | src/sender/sender_uinput.cpp:630-647 | result and new state are `Sequencer.ReleaseModifier` of the old state |
| UInputSender.Sender.ReleaseAllModifiers | src/sender/sender_uinput.cpp:649-656 | result and new state are `Sequencer.ReleaseAllModifiers` of the old state |
| UInputSender.Sender.Combo | src/sender/sender_uinput.cpp:658-669 | result and new state are `Sequencer.Combo` of the old state |
| UInputSender.Sender.TypeText | src/sender/sender_uinput.cpp:671-683 | both `typeText` overloads always fail and change nothing |
| UInputSender.Sender.TypeCharacter | src/sender/sender_uinput.cpp:685-689 | `typeCharacter` always fails and changes nothing |
| UInputSender.Sender.Flush | src/sender/sender_uinput.cpp:691-695 | new state is `Sequencer.Flush` of the old one |
| UInputSender.Sender.SetKeyDelay | src/sender/sender_uinput.cpp:697-701 | only the delay changes, to the given value |
| UInputSender.Sender.Capabilities | src/sender/sender_uinput.cpp:499-510 | the capabilities of the current readiness |
| UInputSender.Sender.IsReady | src/sender/sender_uinput.cpp:512-516 | true iff the device is open |
| UInputSender.Sender.RequestPermissions | src/sender/sender_uinput.cpp:518-522 | nothing can be requested; reports whether the device is open |
| UInputSender.Sender.ActiveModifiers | src/sender/sender_uinput.cpp:605-610 | the current modifier bits |
| LayoutText.FindChar | src/keyboard/common/linux_layout.cpp:85-93 | `std::string::find` of one character: −1 iff absent, otherwise the first position holding it |
| LayoutText.CutAt | src/keyboard/common/linux_layout.cpp:85-87 | `resize` at the first occurrence: the result lacks the character, is the input when it is absent, and is a proper prefix ending just before it otherwise |
| LayoutText.CutAtDropsTail | src/keyboard/common/linux_layout.cpp:130-133 | whatever follows the first cut character is dropped |
| LayoutText.Trim | src/keyboard/common/linux_layout.cpp:21-30 | defined by its body, both trims; meaning stated by `LayoutText.TrimRemovesOuterSpace`, `LayoutText.TrimEmptyIffAllSpace`, `LayoutText.TrimPadded` and `LayoutText.TrimIdempotent` |
| LayoutText.TrimInPlace | src/keyboard/common/linux_layout.cpp:21-30 | the two scans leave exactly `Trim(s)`; an all-whitespace string becomes empty |
| LayoutText.TrimRemovesOuterSpace | src/keyboard/common/linux_layout.cpp:21-30 | the result is a span of the input with only whitespace before and after it, and it neither starts nor ends with whitespace |
| LayoutText.TrimEmptyIffAllSpace | src/keyboard/common/linux_layout.cpp:23-27 | the result is empty iff the input is all whitespace |
| LayoutText.TrimFixesTrimmed | src/keyboard/common/linux_layout.cpp:21-30 | a string without outer whitespace is left unchanged |
| LayoutText.TrimIdempotent | src/keyboard/common/linux_layout.cpp:21-30 | trimming twice is trimming once |
| LayoutText.TrimPadded | src/keyboard/common/linux_layout.cpp:21-30 | any amount of whitespace around a trimmed string is removed, and only it |
| LayoutText.StripSurroundingQuotes | src/keyboard/common/linux_layout.cpp:32-37 | the method leaves exactly `Unquote(s)` |
| LayoutText.Unquote | src/keyboard/common/linux_layout.cpp:32-37 | defined by its body; meaning stated by `LayoutText.UnquoteRoundTrip` and `LayoutText.UnquoteUnchanged` |
| LayoutText.UnquoteRoundTrip | src/keyboard/common/linux_layout.cpp:32-37 | wrapping any text in a pair of the same quote and stripping gives the text back (one pair only) |
| LayoutText.UnquoteUnchanged | src/keyboard/common/linux_layout.cpp:32-37 | the string is unchanged iff it is not wrapped in a matching pair; a wrapped one is the quote, the result, the quote |
| LayoutText.UpperInPlace | src/keyboard/common/linux_layout.cpp:42-44 | the in-place `toupper` loop leaves `Upper(s)` |
| LayoutText.LowerInPlace | src/keyboard/common/linux_layout.cpp:142-144 | the in-place `tolower` loop leaves `Lower(s)` |
| LayoutText.Upper | src/keyboard/common/linux_layout.cpp:42-44 | defined by its body, `toupper` on every character; meaning stated by `LayoutText.UpperIsUpper` and `LayoutText.UpperCommutesWithTrim` |
| LayoutText.Lower | src/keyboard/common/linux_layout.cpp:142-144 | defined by its body, `tolower` on every character; meaning stated by `LayoutText.LowerIsLower` |
| LayoutText.UpperIsUpper | src/keyboard/common/linux_layout.cpp:145-147 | upper-casing leaves no lower-case ASCII letter and is idempotent; upper-casing after lower-casing gives the upper-cased input |
| LayoutText.LowerIsLower | src/keyboard/common/linux_layout.cpp:142-144 | lower-casing leaves no upper-case ASCII letter and is idempotent; lower-casing after upper-casing gives the lower-cased input |
| LayoutText.UpperCommutesWithTrim | src/keyboard/common/linux_layout.cpp:40-46 | upper-casing commutes with trimming |
| LayoutText.NormalizeKey | src/keyboard/common/linux_layout.cpp:40-46 | the method returns `NormalKey(key)`, the trimmed, upper-cased key |
| LayoutText.NormalKey | src/keyboard/common/linux_layout.cpp:40-46 | defined by its body, trim then upper-case; meaning stated by `LayoutText.NormalKeyIgnoresCaseAndPadding` |
| LayoutText.NormalKeyIgnoresCaseAndPadding | src/keyboard/common/linux_layout.cpp:40-46 | keys that differ only in ASCII case and surrounding whitespace normalise alike |
| LinuxLayout.EmptyIffNoField | src/keyboard/common/linux_layout.hpp:29-32 | `empty()` holds iff every one of the five components is the empty string |
| LinuxLayout.UnsetIsEmpty | src/keyboard/common/linux_layout.hpp:22-32 | a default-constructed record is empty |
| LinuxLayout.XkbRuleNames.IsEmpty | src/keyboard/common/linux_layout.hpp:29-32 | defined by its body; meaning stated by `LinuxLayout.EmptyIffNoField` and `LinuxLayout.UnsetIsEmpty` |
| LinuxLayout.FromEnvironment | src/keyboard/common/linux_layout.cpp:60-75 | each component after step 1 is its `XKB_DEFAULT_*` variable trimmed, or empty when unset |
| LinuxLayout.ParseLine | src/keyboard/common/linux_layout.cpp:85-103 | a line without `=` before its comment yields nothing; a parsed value is never empty and is already trimmed |
| LinuxLayout.ParseAssignment | src/keyboard/common/linux_layout.cpp:85-103 | round trip: a line `key=value` without `#` and with no `=` in the key parses to the normalised key and the trimmed, unquoted, trimmed value, or to nothing when that value is empty |
| LinuxLayout.LayoutLineParses | src/keyboard/common/linux_layout.cpp:85-114 | an `XKBLAYOUT=value` line supplies the layout with its cleaned value |
| LinuxLayout.QuotedLayoutLineParses | src/keyboard/common/linux_layout.cpp:85-103 | the line `XKBLAYOUT="de"` parses to the key `XKBLAYOUT` and the value `de` |
| LinuxLayout.FieldOfKey | src/keyboard/common/linux_layout.cpp:105-114 | defined by its body, the key-name `if`/`else if` chain; meaning stated by `LinuxLayout.BothSpellings` |
| LinuxLayout.FromFile | src/keyboard/common/linux_layout.cpp:77-117 | defined by its body; meaning stated by `LinuxLayout.FirstSupplierWins`, `LinuxLayout.FileKeepsKnown` and `LinuxLayout.FileFillsMissing` |
| LinuxLayout.LocaleSource | src/keyboard/common/linux_layout.cpp:121-125 | defined by its body; meaning stated by `LinuxLayout.LocalePrecedence` and `LinuxLayout.EmptyLcAllBlocksFallback` |
| LinuxLayout.GuessLayout | src/keyboard/common/linux_layout.cpp:149-162 | defined by its body, the locale table; meaning stated by `LinuxLayout.LocaleTable` and `LinuxLayout.KnownLanguages` |
| LinuxLayout.FromLocale | src/keyboard/common/linux_layout.cpp:119-164 | defined by its body; meaning stated by `LinuxLayout.LocaleOnlyFillsLayout`, `LinuxLayout.LocalePrecedence` and `LinuxLayout.EmptyLcAllBlocksFallback` |
| LinuxLayout.Detect | src/keyboard/common/linux_layout.cpp:55-168 | defined by its body, the three stages in order; meaning stated by `LinuxLayout.EnvironmentWins`, `LinuxLayout.FileFillsMissing`, `LinuxLayout.OnlyLayoutFromLocale` and `LinuxLayout.LayoutLineFromFile` |
| LinuxLayout.LayoutLineFromFile | src/keyboard/common/linux_layout.cpp:55-168 | end to end: with no environment, a keyboard file whose one line is `XKBLAYOUT=value` yields that value as the layout |
| LinuxLayout.ParseLines | src/keyboard/common/linux_layout.cpp:84-103 | one parse result per line, none with an empty value |
| LinuxLayout.LocaleBase | src/keyboard/common/linux_layout.cpp:129-133 | the base of a locale contains neither `.` nor `@` |
| LinuxLayout.SplitAtUnderscore | src/keyboard/common/linux_layout.cpp:135-140 | language and region are the text before and after the first `_`; without `_` the region is empty |
| LinuxLayout.SetIfEmpty | src/keyboard/common/linux_layout.cpp:48-51 | the destination keeps a non-empty value and takes the new one only when empty |
| LinuxLayout.DetectXkbRuleNames | src/keyboard/common/linux_layout.cpp:55-168 | the imperative detection returns exactly `Detect(env, file)`, the composition of the three stages |
| LinuxLayout.ReadEnvironment | src/keyboard/common/linux_layout.cpp:60-75 | step 1 leaves `FromEnvironment(env)` |
| LinuxLayout.ReadConfigLines | src/keyboard/common/linux_layout.cpp:84-115 | the `getline` loop applies the parsed lines in file order through `setIfEmpty` |
| LinuxLayout.ParseConfigLine | src/keyboard/common/linux_layout.cpp:85-103 | the loop body's parsing of one line equals `ParseLine` |
| LinuxLayout.GuessFromLocale | src/keyboard/common/linux_layout.cpp:128-162 | the cut, split, case mapping and table lookup equal `LocaleLayout` of the variable's value |
| LinuxLayout.GetApplySetting | src/keyboard/common/linux_layout.cpp:105-114 | one line changes a component only when it supplies it and the component is empty |
| LinuxLayout.FirstSupplierWins | src/keyboard/common/linux_layout.cpp:79-115 | over the file's lines a known component is never overwritten; a missing one takes the value of the first line that supplies it, and stays as it was when none does |
| LinuxLayout.LocaleOnlyFillsLayout | src/keyboard/common/linux_layout.cpp:120-164 | the locale step changes no component but the layout, leaves a known layout alone, and any layout it sets is the guess from the first set locale variable |
| LinuxLayout.FileKeepsKnown | src/keyboard/common/linux_layout.cpp:77-117 | the file step keeps every component the environment supplied |
| LinuxLayout.EnvironmentWins | src/keyboard/common/linux_layout.cpp:55-168 | a non-empty trimmed `XKB_DEFAULT_*` value is the final value of its component |
| LinuxLayout.OnlyLayoutFromLocale | src/keyboard/common/linux_layout.cpp:119-164 | rules, model, variant and options come only from the environment and the file |
| LinuxLayout.FileIgnoredWhenEnvironmentComplete | src/keyboard/common/linux_layout.cpp:79-80 | with all five components set by the environment, the file's content does not matter and the result is the environment's |
| LinuxLayout.FileFillsMissing | src/keyboard/common/linux_layout.cpp:79-115 | a component the environment lacks takes the value of the file's first line that supplies it |
| LinuxLayout.EmptyLcAllBlocksFallback | src/keyboard/common/linux_layout.cpp:121-127 | a set but empty `LC_ALL` is the locale used, and it leaves the record unchanged |
| LinuxLayout.LocalePrecedence | src/keyboard/common/linux_layout.cpp:121-125 | `LC_ALL` wins over `LC_MESSAGES`, which wins over `LANG` |
| LinuxLayout.LocaleIgnoresEncodingAndModifier | src/keyboard/common/linux_layout.cpp:129-133 | for a base without `.` and `@`, appending `.encoding` or `@modifier` (whatever the modifier contains) leaves the guess unchanged |
| LinuxLayout.LocaleLayoutOfParts | src/keyboard/common/linux_layout.cpp:135-147 | `lang_REGION` is guessed from the lower-cased language and the upper-cased region; without `_` the region is empty |
| LinuxLayout.LocaleTable | src/keyboard/common/linux_layout.cpp:149-162 | in any letter case: en gives gb for GB/UK and us otherwise; pt_BR gives br; da gives dk; sv gives se; any other non-empty language is its own layout; an empty language gives nothing |
| LinuxLayout.KnownLanguages | src/keyboard/common/linux_layout.cpp:149-159 | the four table rows for en, pt, da and sv |
| LinuxLayout.CommentIgnored | src/keyboard/common/linux_layout.cpp:85-87 | everything from the first `#` on does not affect a line's parse |
| LinuxLayout.BothSpellings | src/keyboard/common/linux_layout.cpp:105-114 | each component accepts exactly its `XKBxxx` and `XKB_DEFAULT_xxx` key spellings |

## Left out

- The uinput device setup is not modelled: the `open` flags, the `UI_SET_EVBIT`/`UI_SET_KEYBIT`/`UI_DEV_SETUP`/`UI_DEV_CREATE` ioctls and their results, and `UI_DEV_DESTROY`/`close` in the destructor. Whether `open` succeeded is the constructor's `deviceOpened` parameter. A failing ioctl does not change readiness in the source either.
- A `write` on an open descriptor is assumed to succeed. Its result is only logged by the source and never reaches a caller.
- libxkbcommon is not part of this model. The keymap scan (`xkb_context_new` … `xkb_state_key_get_one_sym` over min..max keycodes) is the constructor's `scan` input, empty when any xkb stage fails. `xkb_keysym_get_name` and `stringToKey` are the `Naming` parameter.
- The `Key` enumeration header is not part of this model. `Keys.Key` lists the keys the sender names, and the runs that the classifier offsets into become indexed constructors.
- `std::getenv` and reading `/etc/default/keyboard` are inputs: an environment map and the file's lines. The `#if defined(__linux__)` guard is not modelled.
- Moves and a null `m_impl` (a moved-from `Sender`) are not modelled, so the `if (!m_impl) return false` branches are absent. Neither is `Sender::type()`.
- Logging is not modelled.
- Thread sleeps are recorded as `Slept` steps in the trace. No clock is modelled.
- Both `typeText` overloads are one method over a sequence of code points. Neither reads its argument.
- Case mapping is ASCII only, as `toupper`/`tolower` behave in the "C" locale.
- The facts about individual rows of the fallback table and the direct keysym switch are not restated as lemmas, beyond those in the model table.
- The listener, the public sender header (`sender.hpp`) and the tests are outside the modelled core.
- UInputSender.Sender.TypeText: the contract says only that the call fails. The method has no `modifies` clause, so it also cannot change the sender.
