/**
 * Building the per-sender `Key -> evdev code` table (`Impl::initKeyMap` in
 * src/sender/sender_uinput.cpp), as functions on values. The imperative pass
 * that fills the table in place is `UInputSender.Sender.InitKeyMap`, proved
 * equal to `InitialKeyMap` below.
 *
 * Both passes of initKeyMap share one rule: an entry is stored only when its
 * key is not yet in the table ("find == end then insert"). `FillMissing` is that
 * rule over a sequence of optional entries; discovery feeds it one optional
 * entry per scanned keycode, the fallback pass one entry per table row.
 */
module KeyMap {
  import opened Base
  import opened Keys

  type Keycode = Uint32

  /** Codes stored in the table: strictly positive (`linuxKeyCodeFor` uses -1 for "absent"). */
  type EvdevCode = c: int | 0 < c witness 1

  type Entry = (Key, EvdevCode)
  type KeyTable = map<Key, EvdevCode>

  /** One probed keycode and the keysym the keymap produces for it with no modifier active. */
  datatype ScanEntry = ScanEntry(keycode: Keycode, sym: Keysym)

  /**
   * `static_cast<int>(xkbKey - 8)` for an unsigned 32-bit `xkbKey`: the
   * subtraction wraps modulo 2^32 and the cast reinterprets as a signed 32-bit int.
   */
  function EvdevOf(xkbKey: Keycode): int
  {
    var diff := (xkbKey - 8) % 0x1_0000_0000;
    if diff < 0x8000_0000 then diff else diff - 0x1_0000_0000
  }

  /** The offset conversion keeps a code exactly when it lies strictly above 8 and below 2^31 + 8. */
  lemma EvdevOfPositive(xkbKey: Keycode)
    ensures EvdevOf(xkbKey) > 0 <==> 8 < xkbKey < 0x8000_0008
    ensures 8 <= xkbKey < 0x8000_0008 ==> EvdevOf(xkbKey) == xkbKey - 8
  {
  }

  /** What one scanned keycode contributes: nothing for NoSymbol, Unknown or a non-positive code. */
  function Candidate(e: ScanEntry, naming: Naming): Option<Entry>
  {
    if e.sym == NoSymbol then None
    else
      var mapped := MapKeysymToKey(e.sym, naming);
      if mapped == Unknown then None
      else
        var code := EvdevOf(e.keycode);
        if code > 0 then Some((mapped, code)) else None
  }

  function Hits(scan: seq<ScanEntry>, naming: Naming): seq<Option<Entry>>
  {
    seq(|scan|, i requires 0 <= i < |scan| => Candidate(scan[i], naming))
  }

  function AsHits(table: seq<Entry>): seq<Option<Entry>>
  {
    seq(|table|, i requires 0 <= i < |table| => Some(table[i]))
  }

  /** The `setIfMissing` rule for one optional entry. */
  function SetIfMissing(m: KeyTable, h: Option<Entry>): KeyTable
  {
    if h.Some? && h.value.0 !in m then m[h.value.0 := h.value.1] else m
  }

  /** `SetIfMissing` applied to each entry of `hs` in order. */
  function FillMissing(m: KeyTable, hs: seq<Option<Entry>>): KeyTable
    decreases |hs|
  {
    if hs == [] then m else SetIfMissing(FillMissing(m, hs[..|hs| - 1]), hs[|hs| - 1])
  }

  predicate HitsKey(h: Option<Entry>, k: Key)
  {
    h.Some? && h.value.0 == k
  }

  /** `i` is the earliest position of `hs` carrying an entry for `k`. */
  predicate IsFirstHit(hs: seq<Option<Entry>>, k: Key, i: int)
  {
    && 0 <= i < |hs|
    && HitsKey(hs[i], k)
    && forall j | 0 <= j < i :: !HitsKey(hs[j], k)
  }

  /** A key is in the filled table iff it was there already or some entry carries it. */
  lemma {:induction false} FillMissingKeys(m: KeyTable, hs: seq<Option<Entry>>, k: Key)
    ensures k in FillMissing(m, hs) <==> k in m || exists i | 0 <= i < |hs| :: HitsKey(hs[i], k)
    decreases |hs|
  {
    if hs != [] {
      var n := |hs| - 1;
      var p := hs[..n];
      FillMissingKeys(m, p, k);
      assert FillMissing(m, hs) == SetIfMissing(FillMissing(m, p), hs[n]);
      if exists i | 0 <= i < |p| :: HitsKey(p[i], k) {
        var i :| 0 <= i < |p| && HitsKey(p[i], k);
        assert HitsKey(hs[i], k);
      }
      if exists i | 0 <= i < |hs| :: HitsKey(hs[i], k) {
        var i :| 0 <= i < |hs| && HitsKey(hs[i], k);
        if i < n {
          assert HitsKey(p[i], k);
        }
      }
    }
  }

  /** An existing entry is never replaced. */
  lemma {:induction false} FillMissingKeeps(m: KeyTable, hs: seq<Option<Entry>>, k: Key)
    requires k in m
    ensures k in FillMissing(m, hs) && FillMissing(m, hs)[k] == m[k]
    decreases |hs|
  {
    if hs != [] {
      FillMissingKeeps(m, hs[..|hs| - 1], k);
    }
  }

  /** A new key gets the value of its first entry. */
  lemma {:induction false} FillMissingFirst(m: KeyTable, hs: seq<Option<Entry>>, k: Key, i: int)
    requires IsFirstHit(hs, k, i) && k !in m
    ensures k in FillMissing(m, hs) && FillMissing(m, hs)[k] == hs[i].value.1
    decreases |hs|
  {
    var n := |hs| - 1;
    var p := hs[..n];
    if i < n {
      assert IsFirstHit(p, k, i);
      FillMissingFirst(m, p, k, i);
    } else {
      FillMissingKeys(m, p, k);
      assert forall j | 0 <= j < |p| :: p[j] == hs[j];
      assert k !in FillMissing(m, p);
    }
  }

  /**
   * The meaning of `FillMissing`: a key ends up in the table iff it was there
   * already or some entry carries it; an existing value is never replaced; a
   * new key gets the value of its FIRST entry.
   */
  lemma FillMissingFirstWins(m: KeyTable, hs: seq<Option<Entry>>, k: Key)
    ensures k in FillMissing(m, hs) <==> k in m || exists i | 0 <= i < |hs| :: HitsKey(hs[i], k)
    ensures k in m ==> k in FillMissing(m, hs) && FillMissing(m, hs)[k] == m[k]
    ensures forall i | IsFirstHit(hs, k, i) && k !in m ::
              k in FillMissing(m, hs) && FillMissing(m, hs)[k] == hs[i].value.1
  {
    FillMissingKeys(m, hs, k);
    if k in m {
      FillMissingKeeps(m, hs, k);
    }
    forall i | IsFirstHit(hs, k, i) && k !in m
      ensures k in FillMissing(m, hs) && FillMissing(m, hs)[k] == hs[i].value.1
    {
      FillMissingFirst(m, hs, k, i);
    }
  }

  /** Scanning discovery: the first keycode found for each key. */
  function Discover(m: KeyTable, scan: seq<ScanEntry>, naming: Naming): KeyTable
  {
    FillMissing(m, Hits(scan, naming))
  }

  /** The number of `setIfMissing(...)` rows of the static fallback in initKeyMap. */
  const FallbackRows := 115

  /**
   * Row `i` of the static fallback, in source order: a key and its code from
   * linux/input-event-codes.h. The rows come in the source's groups.
   */
  function FallbackRow(i: nat): Entry
    requires i < FallbackRows
  {
    if i < 14 then CommonRow(i)
    else if i < 24 then ModifierRow(i - 14)
    else if i < 44 then FunctionKeyRow(i - 24)
    else if i < 70 then LetterRow(i - 44)
    else if i < 80 then DigitRow(i - 70)
    else if i < 96 then NumpadRow(i - 80)
    else if i < 104 then MediaRow(i - 96)
    else PunctuationRow(i - 104)
  }

  // Common keys: KEY_SPACE, KEY_ENTER, KEY_TAB, KEY_BACKSPACE, KEY_DELETE, KEY_ESC,
  // KEY_LEFT, KEY_RIGHT, KEY_UP, KEY_DOWN, KEY_HOME, KEY_END, KEY_PAGEUP, KEY_PAGEDOWN
  function CommonRow(j: nat): Entry
    requires j < 14
  {
    match j
    case 0 => (Space, 57)
    case 1 => (Enter, 28)
    case 2 => (Tab, 15)
    case 3 => (Backspace, 14)
    case 4 => (Delete, 111)
    case 5 => (Escape, 1)
    case 6 => (Left, 105)
    case 7 => (Right, 106)
    case 8 => (Up, 103)
    case 9 => (Down, 108)
    case 10 => (Home, 102)
    case 11 => (End, 107)
    case 12 => (PageUp, 104)
    case _ => (PageDown, 109)
  }

  // Modifiers: KEY_LEFTSHIFT .. KEY_RIGHTMETA, KEY_CAPSLOCK, KEY_NUMLOCK
  function ModifierRow(j: nat): Entry
    requires j < 10
  {
    match j
    case 0 => (ShiftLeft, 42)
    case 1 => (ShiftRight, 54)
    case 2 => (CtrlLeft, 29)
    case 3 => (CtrlRight, 97)
    case 4 => (AltLeft, 56)
    case 5 => (AltRight, 100)
    case 6 => (SuperLeft, 125)
    case 7 => (SuperRight, 126)
    case 8 => (CapsLock, 58)
    case _ => (NumLock, 69)
  }

  // Function keys: KEY_F1 .. KEY_F20
  function FunctionKeyRow(j: nat): Entry
    requires j < 20
  {
    match j
    case 0 => (F(1), 59)
    case 1 => (F(2), 60)
    case 2 => (F(3), 61)
    case 3 => (F(4), 62)
    case 4 => (F(5), 63)
    case 5 => (F(6), 64)
    case 6 => (F(7), 65)
    case 7 => (F(8), 66)
    case 8 => (F(9), 67)
    case 9 => (F(10), 68)
    case 10 => (F(11), 87)
    case 11 => (F(12), 88)
    case 12 => (F(13), 183)
    case 13 => (F(14), 184)
    case 14 => (F(15), 185)
    case 15 => (F(16), 186)
    case 16 => (F(17), 187)
    case 17 => (F(18), 188)
    case 18 => (F(19), 189)
    case _ => (F(20), 190)
  }

  // Letters: KEY_A .. KEY_Z
  function LetterRow(j: nat): Entry
    requires j < 26
  {
    match j
    case 0 => (Letter(0), 30)
    case 1 => (Letter(1), 48)
    case 2 => (Letter(2), 46)
    case 3 => (Letter(3), 32)
    case 4 => (Letter(4), 18)
    case 5 => (Letter(5), 33)
    case 6 => (Letter(6), 34)
    case 7 => (Letter(7), 35)
    case 8 => (Letter(8), 23)
    case 9 => (Letter(9), 36)
    case 10 => (Letter(10), 37)
    case 11 => (Letter(11), 38)
    case 12 => (Letter(12), 50)
    case 13 => (Letter(13), 49)
    case 14 => (Letter(14), 24)
    case 15 => (Letter(15), 25)
    case 16 => (Letter(16), 16)
    case 17 => (Letter(17), 19)
    case 18 => (Letter(18), 31)
    case 19 => (Letter(19), 20)
    case 20 => (Letter(20), 22)
    case 21 => (Letter(21), 47)
    case 22 => (Letter(22), 17)
    case 23 => (Letter(23), 45)
    case 24 => (Letter(24), 21)
    case _ => (Letter(25), 44)
  }

  // Top-row digits: KEY_0 .. KEY_9
  function DigitRow(j: nat): Entry
    requires j < 10
  {
    match j
    case 0 => (Num(0), 11)
    case 1 => (Num(1), 2)
    case 2 => (Num(2), 3)
    case 3 => (Num(3), 4)
    case 4 => (Num(4), 5)
    case 5 => (Num(5), 6)
    case 6 => (Num(6), 7)
    case 7 => (Num(7), 8)
    case 8 => (Num(8), 9)
    case _ => (Num(9), 10)
  }

  // Numpad: KEY_KP0 .. KEY_KP9, KEY_KPSLASH, KEY_KPASTERISK, KEY_KPMINUS, KEY_KPPLUS,
  // KEY_KPENTER, KEY_KPDOT
  function NumpadRow(j: nat): Entry
    requires j < 16
  {
    match j
    case 0 => (Numpad(0), 82)
    case 1 => (Numpad(1), 79)
    case 2 => (Numpad(2), 80)
    case 3 => (Numpad(3), 81)
    case 4 => (Numpad(4), 75)
    case 5 => (Numpad(5), 76)
    case 6 => (Numpad(6), 77)
    case 7 => (Numpad(7), 71)
    case 8 => (Numpad(8), 72)
    case 9 => (Numpad(9), 73)
    case 10 => (NumpadDivide, 98)
    case 11 => (NumpadMultiply, 55)
    case 12 => (NumpadMinus, 74)
    case 13 => (NumpadPlus, 78)
    case 14 => (NumpadEnter, 96)
    case _ => (NumpadDecimal, 83)
  }

  // Misc: KEY_MENU, KEY_MUTE, KEY_VOLUMEDOWN, KEY_VOLUMEUP, KEY_PLAYPAUSE, KEY_STOPCD,
  // KEY_NEXTSONG, KEY_PREVIOUSSONG
  function MediaRow(j: nat): Entry
    requires j < 8
  {
    match j
    case 0 => (Menu, 139)
    case 1 => (Mute, 113)
    case 2 => (VolumeDown, 114)
    case 3 => (VolumeUp, 115)
    case 4 => (MediaPlayPause, 164)
    case 5 => (MediaStop, 166)
    case 6 => (MediaNext, 163)
    case _ => (MediaPrevious, 165)
  }

  // Punctuation: KEY_GRAVE, KEY_MINUS, KEY_EQUAL, KEY_LEFTBRACE, KEY_RIGHTBRACE,
  // KEY_BACKSLASH, KEY_SEMICOLON, KEY_APOSTROPHE, KEY_COMMA, KEY_DOT, KEY_SLASH
  function PunctuationRow(j: nat): Entry
    requires j < 11
  {
    match j
    case 0 => (Grave, 41)
    case 1 => (Minus, 12)
    case 2 => (Equal, 13)
    case 3 => (LeftBracket, 26)
    case 4 => (RightBracket, 27)
    case 5 => (Backslash, 43)
    case 6 => (Semicolon, 39)
    case 7 => (Apostrophe, 40)
    case 8 => (Comma, 51)
    case 9 => (Period, 52)
    case _ => (Slash, 53)
  }

  function FallbackTable(): (t: seq<Entry>)
    ensures |t| == FallbackRows
    ensures forall i | 0 <= i < FallbackRows :: t[i] == FallbackRow(i)
  {
    seq(FallbackRows, i requires 0 <= i < FallbackRows => FallbackRow(i))
  }

  /**
   * Where a key's row sits in the static fallback, listed key by key: -1 for
   * the keys it has no row for (`Unknown`, and `Insert`, which the keysym
   * classifier knows but the fallback omits).
   */
  function FallbackPosition(k: Key): int
  {
    match k
    case Letter(l) => 44 + l
    case Num(d) => 70 + d
    case F(n) => 24 + n - 1
    case Numpad(d) => 80 + d
    case Space => 0 case Enter => 1 case Tab => 2 case Backspace => 3
    case Delete => 4 case Escape => 5 case Left => 6 case Right => 7
    case Up => 8 case Down => 9 case Home => 10 case End => 11
    case PageUp => 12 case PageDown => 13 case ShiftLeft => 14 case ShiftRight => 15
    case CtrlLeft => 16 case CtrlRight => 17 case AltLeft => 18 case AltRight => 19
    case SuperLeft => 20 case SuperRight => 21 case CapsLock => 22 case NumLock => 23
    case NumpadDivide => 90 case NumpadMultiply => 91 case NumpadMinus => 92 case NumpadPlus => 93
    case NumpadEnter => 94 case NumpadDecimal => 95 case Menu => 96 case Mute => 97
    case VolumeDown => 98 case VolumeUp => 99 case MediaPlayPause => 100 case MediaStop => 101
    case MediaNext => 102 case MediaPrevious => 103 case Grave => 104 case Minus => 105
    case Equal => 106 case LeftBracket => 107 case RightBracket => 108 case Backslash => 109
    case Semicolon => 110 case Apostrophe => 111 case Comma => 112 case Period => 113
    case Slash => 114
    case Unknown => -1
    case Insert => -1
  }

  /** The fallback pass over a discovered table. */
  function ApplyFallback(m: KeyTable): KeyTable
  {
    FillMissing(m, AsHits(FallbackTable()))
  }

  /** The table `initKeyMap` leaves behind: cleared, discovered, then completed from the fallback. */
  function InitialKeyMap(scan: seq<ScanEntry>, naming: Naming): KeyTable
  {
    ApplyFallback(Discover(map[], scan, naming))
  }

  /**
   * Discovery, stated over the scanned keycodes: a key is found iff some scanned
   * keycode yields it (not NoSymbol, not Unknown, positive evdev code); an entry
   * already present is never overwritten; otherwise the first such keycode wins.
   */
  lemma DiscoverFirstKeycodeWins(m: KeyTable, scan: seq<ScanEntry>, naming: Naming, k: Key)
    ensures k in Discover(m, scan, naming) <==>
              k in m || exists i | 0 <= i < |scan| :: HitsKey(Candidate(scan[i], naming), k)
    ensures k in m ==> Discover(m, scan, naming)[k] == m[k]
    ensures forall i | 0 <= i < |scan| && k !in m && HitsKey(Candidate(scan[i], naming), k) &&
                       (forall j | 0 <= j < i :: !HitsKey(Candidate(scan[j], naming), k)) ::
              && k in Discover(m, scan, naming)
              && Discover(m, scan, naming)[k] == scan[i].keycode - 8
  {
    var hs := Hits(scan, naming);
    FillMissingKeys(m, hs, k);
    if k in m {
      FillMissingKeeps(m, hs, k);
    }
    if k in Discover(m, scan, naming) && k !in m {
      var i :| 0 <= i < |hs| && HitsKey(hs[i], k);
      assert HitsKey(Candidate(scan[i], naming), k);
    }
    if exists i | 0 <= i < |scan| :: HitsKey(Candidate(scan[i], naming), k) {
      var i :| 0 <= i < |scan| && HitsKey(Candidate(scan[i], naming), k);
      assert HitsKey(hs[i], k);
    }
    forall i | 0 <= i < |scan| && k !in m && HitsKey(Candidate(scan[i], naming), k) &&
               (forall j | 0 <= j < i :: !HitsKey(Candidate(scan[j], naming), k))
      ensures k in Discover(m, scan, naming) && Discover(m, scan, naming)[k] == scan[i].keycode - 8
    {
      DiscoverFirst(m, scan, naming, k, i);
    }
  }

  /** The first scanned keycode that yields a missing key supplies its code. */
  lemma DiscoverFirst(m: KeyTable, scan: seq<ScanEntry>, naming: Naming, k: Key, i: int)
    requires 0 <= i < |scan| && k !in m && HitsKey(Candidate(scan[i], naming), k)
    requires forall j | 0 <= j < i :: !HitsKey(Candidate(scan[j], naming), k)
    ensures k in Discover(m, scan, naming) && Discover(m, scan, naming)[k] == scan[i].keycode - 8
  {
    var hs := Hits(scan, naming);
    assert IsFirstHit(hs, k, i);
    FillMissingFirst(m, hs, k, i);
    CandidateSkips(scan[i], naming, k);
  }

  /** A scanned keycode contributes only when its keysym is a symbol that classifies to a key. */
  lemma CandidateSkips(e: ScanEntry, naming: Naming, k: Key)
    requires HitsKey(Candidate(e, naming), k)
    ensures e.sym != NoSymbol && k != Unknown && MapKeysymToKey(e.sym, naming) == k
    ensures 8 < e.keycode < 0x8000_0008 && Candidate(e, naming).value.1 == e.keycode - 8
  {
  }

  /** Every code discovery stores is some scanned keycode minus the xkb offset of 8. */
  lemma DiscoveredCodesComeFromScan(scan: seq<ScanEntry>, naming: Naming, k: Key)
    requires k in Discover(map[], scan, naming)
    ensures exists i | 0 <= i < |scan| :: 8 < scan[i].keycode && scan[i].keycode - 8 == Discover(map[], scan, naming)[k]
  {
    var hs := Hits(scan, naming);
    assert |hs| == |scan| && forall j | 0 <= j < |scan| :: hs[j] == Candidate(scan[j], naming);
    FillMissingFirstWins(map[], hs, k);
    var i := FirstHitIndex(hs, k);
    CandidateSkips(scan[i], naming, k);
  }

  /** The first position carrying `k`, when there is one. */
  lemma {:induction false} FirstHitIndex(hs: seq<Option<Entry>>, k: Key) returns (i: int)
    requires exists j | 0 <= j < |hs| :: HitsKey(hs[j], k)
    ensures IsFirstHit(hs, k, i)
    decreases |hs|
  {
    if HitsKey(hs[0], k) {
      i := 0;
    } else {
      var j :| 0 <= j < |hs| && HitsKey(hs[j], k);
      assert HitsKey(hs[1..][j - 1], k);
      var i' := FirstHitIndex(hs[1..], k);
      i := i' + 1;
      forall j' | 0 <= j' < i ensures !HitsKey(hs[j'], k) {
        if j' > 0 { assert hs[j'] == hs[1..][j' - 1]; }
      }
    }
  }

  /** Running discovery twice over the same scan yields the same table. */
  lemma DiscoverIdempotent(m: KeyTable, scan: seq<ScanEntry>, naming: Naming)
    ensures Discover(Discover(m, scan, naming), scan, naming) == Discover(m, scan, naming)
  {
    var once := Discover(m, scan, naming);
    var twice := Discover(once, scan, naming);
    forall k ensures (k in twice <==> k in once) && (k in once ==> twice[k] == once[k]) {
      DiscoverFirstKeycodeWins(m, scan, naming, k);
      DiscoverFirstKeycodeWins(once, scan, naming, k);
    }
    assert twice.Keys == once.Keys;
  }

  /**
   * The fallback pass keeps every discovered entry, adds every key of the
   * static table, and adds nothing else.
   */
  lemma FallbackFillsOnlyMissing(d: KeyTable, k: Key)
    ensures k in d ==> k in ApplyFallback(d) && ApplyFallback(d)[k] == d[k]
    ensures k in ApplyFallback(d) <==> k in d || exists i | 0 <= i < |FallbackTable()| :: FallbackTable()[i].0 == k
  {
    TableFillsOnlyMissing(d, FallbackTable(), k);
  }

  /** `FallbackFillsOnlyMissing` for any table of rows. */
  lemma TableFillsOnlyMissing(d: KeyTable, table: seq<Entry>, k: Key)
    ensures k in d ==> k in FillMissing(d, AsHits(table)) && FillMissing(d, AsHits(table))[k] == d[k]
    ensures k in FillMissing(d, AsHits(table)) <==> k in d || exists i | 0 <= i < |table| :: table[i].0 == k
  {
    var hs := AsHits(table);
    FillMissingKeys(d, hs, k);
    if k in d {
      FillMissingKeeps(d, hs, k);
    }
    if exists i | 0 <= i < |table| :: table[i].0 == k {
      var i :| 0 <= i < |table| && table[i].0 == k;
      assert HitsKey(hs[i], k);
    }
    if exists i | 0 <= i < |hs| :: HitsKey(hs[i], k) {
      var i :| 0 <= i < |hs| && HitsKey(hs[i], k);
      assert table[i].0 == k;
    }
  }

  /**
   * After `initKeyMap`, every key of the static table has an entry, whatever the
   * scan produced, and every entry the scan produced is the one kept.
   */
  lemma InitialKeyMapCoversFallback(scan: seq<ScanEntry>, naming: Naming, i: int)
    requires 0 <= i < |FallbackTable()|
    ensures FallbackTable()[i].0 in InitialKeyMap(scan, naming)
  {
    var k := FallbackTable()[i].0;
    FallbackFillsOnlyMissing(Discover(map[], scan, naming), k);
  }

  /**
   * With layout discovery producing nothing (any xkb stage failing), a lookup of
   * a fallback key yields the code of its first row in the static table.
   */
  lemma NoDiscoveryUsesFallback(naming: Naming, i: int)
    requires 0 <= i < |FallbackTable()|
    ensures FallbackTable()[i].0 in InitialKeyMap([], naming)
    ensures InitialKeyMap([], naming)[FallbackTable()[i].0] == FallbackTable()[i].1
  {
    var hs := AsHits(FallbackTable());
    assert Discover(map[], [], naming) == map[];
    forall j | 0 <= j < i ensures FallbackTable()[j].0 != FallbackTable()[i].0 {
      FallbackKeysDistinct(j, i);
    }
    assert IsFirstHit(hs, FallbackTable()[i].0, i);
    FillMissingFirstWins(map[], hs, FallbackTable()[i].0);
  }

  // ---------------------------------------------------------------------------
  // The static fallback, key by key

  /** Every row sits where `FallbackPosition` places its key, so no key has two rows. */
  lemma RowPosition(i: nat)
    requires i < FallbackRows
    ensures FallbackPosition(FallbackRow(i).0) == i
  {
    if i < 10 {
      RowPositionsFrom0(i);
    } else if i < 20 {
      RowPositionsFrom10(i);
    } else if i < 30 {
      RowPositionsFrom20(i);
    } else if i < 40 {
      RowPositionsFrom30(i);
    } else if i < 50 {
      RowPositionsFrom40(i);
    } else if i < 60 {
      RowPositionsFrom50(i);
    } else if i < 70 {
      RowPositionsFrom60(i);
    } else if i < 80 {
      RowPositionsFrom70(i);
    } else if i < 86 {
      RowPositionsFrom80(i);
    } else if i < 92 {
      RowPositionsFrom86(i);
    } else if i < 98 {
      RowPositionsFrom92(i);
    } else if i < 104 {
      RowPositionsFrom98(i);
    } else if i < 110 {
      RowPositionsFrom104(i);
    } else {
      RowPositionsFrom110(i);
    }
  }

  lemma RowPositionsFrom0(i: nat)
    requires 0 <= i < 10
    ensures FallbackPosition(FallbackRow(i).0) == i
  {
  }

  lemma RowPositionsFrom10(i: nat)
    requires 10 <= i < 20
    ensures FallbackPosition(FallbackRow(i).0) == i
  {
  }

  lemma RowPositionsFrom20(i: nat)
    requires 20 <= i < 30
    ensures FallbackPosition(FallbackRow(i).0) == i
  {
  }

  lemma RowPositionsFrom30(i: nat)
    requires 30 <= i < 40
    ensures FallbackPosition(FallbackRow(i).0) == i
  {
  }

  lemma RowPositionsFrom40(i: nat)
    requires 40 <= i < 50
    ensures FallbackPosition(FallbackRow(i).0) == i
  {
  }

  lemma RowPositionsFrom50(i: nat)
    requires 50 <= i < 60
    ensures FallbackPosition(FallbackRow(i).0) == i
  {
  }

  lemma RowPositionsFrom60(i: nat)
    requires 60 <= i < 70
    ensures FallbackPosition(FallbackRow(i).0) == i
  {
  }

  lemma RowPositionsFrom70(i: nat)
    requires 70 <= i < 80
    ensures FallbackPosition(FallbackRow(i).0) == i
  {
  }

  lemma RowPositionsFrom80(i: nat)
    requires 80 <= i < 86
    ensures FallbackPosition(FallbackRow(i).0) == i
  {
  }

  lemma RowPositionsFrom86(i: nat)
    requires 86 <= i < 92
    ensures FallbackPosition(FallbackRow(i).0) == i
  {
  }

  lemma RowPositionsFrom92(i: nat)
    requires 92 <= i < 98
    ensures FallbackPosition(FallbackRow(i).0) == i
  {
  }

  lemma RowPositionsFrom98(i: nat)
    requires 98 <= i < 104
    ensures FallbackPosition(FallbackRow(i).0) == i
  {
  }

  lemma RowPositionsFrom104(i: nat)
    requires 104 <= i < 110
    ensures FallbackPosition(FallbackRow(i).0) == i
  {
  }

  lemma RowPositionsFrom110(i: nat)
    requires 110 <= i < 115
    ensures FallbackPosition(FallbackRow(i).0) == i
  {
  }

  /** A key the position table places has its row there. */
  lemma PositionRow(k: Key)
    requires FallbackPosition(k) >= 0
    ensures FallbackPosition(k) < FallbackRows && FallbackRow(FallbackPosition(k)).0 == k
  {
    if k.Letter? {
      assert FallbackRow(FallbackPosition(k)).0 == k;
    } else if k.Num? {
      assert FallbackRow(FallbackPosition(k)).0 == k;
    } else if k.F? {
      assert FallbackRow(FallbackPosition(k)).0 == k;
    } else if k.Numpad? {
      assert FallbackRow(FallbackPosition(k)).0 == k;
    } else {
      PositionRowOfNamed(k);
    }
  }

  lemma PositionRowOfNamed(k: Key)
    requires FallbackPosition(k) >= 0 && !(k.Letter? || k.Num? || k.F? || k.Numpad?)
    ensures FallbackPosition(k) < FallbackRows && FallbackRow(FallbackPosition(k)).0 == k
  {
    if FallbackPosition(k) < 14 {
      NamedRowsFrom0(k);
    } else if FallbackPosition(k) < 24 {
      NamedRowsFrom14(k);
    } else if FallbackPosition(k) < 96 {
      NamedRowsFrom90(k);
    } else if FallbackPosition(k) < 104 {
      NamedRowsFrom96(k);
    } else if FallbackPosition(k) < 110 {
      NamedRowsFrom104(k);
    } else {
      NamedRowsFrom110(k);
    }
  }

  lemma NamedRowsFrom0(k: Key)
    requires 0 <= FallbackPosition(k) < 14 && !(k.Letter? || k.Num? || k.F? || k.Numpad?)
    ensures FallbackRow(FallbackPosition(k)).0 == k
  {
  }

  lemma NamedRowsFrom14(k: Key)
    requires 14 <= FallbackPosition(k) < 24 && !(k.Letter? || k.Num? || k.F? || k.Numpad?)
    ensures FallbackRow(FallbackPosition(k)).0 == k
  {
  }

  lemma NamedRowsFrom90(k: Key)
    requires 90 <= FallbackPosition(k) < 96 && !(k.Letter? || k.Num? || k.F? || k.Numpad?)
    ensures FallbackRow(FallbackPosition(k)).0 == k
  {
  }

  lemma NamedRowsFrom96(k: Key)
    requires 96 <= FallbackPosition(k) < 104 && !(k.Letter? || k.Num? || k.F? || k.Numpad?)
    ensures FallbackRow(FallbackPosition(k)).0 == k
  {
  }

  lemma NamedRowsFrom104(k: Key)
    requires 104 <= FallbackPosition(k) < 110 && !(k.Letter? || k.Num? || k.F? || k.Numpad?)
    ensures FallbackRow(FallbackPosition(k)).0 == k
  {
  }

  lemma NamedRowsFrom110(k: Key)
    requires 110 <= FallbackPosition(k) < 115 && !(k.Letter? || k.Num? || k.F? || k.Numpad?)
    ensures FallbackRow(FallbackPosition(k)).0 == k
  {
  }

  /** Only `Unknown` and `Insert` have no place in the static fallback. */
  lemma PositionedKeys(k: Key)
    ensures FallbackPosition(k) >= 0 <==> k != Unknown && k != Insert
  {
  }

  /** No key has two rows in the static fallback. */
  lemma FallbackKeysDistinct(i: int, j: int)
    requires 0 <= i < |FallbackTable()| && 0 <= j < |FallbackTable()| && i != j
    ensures FallbackTable()[i].0 != FallbackTable()[j].0
  {
    RowPosition(i);
    RowPosition(j);
  }

  /**
   * With discovery producing nothing, exactly the keys other than `Unknown` and
   * `Insert` get an entry: the fallback has a row for every other key.
   */
  lemma FallbackCoverage(naming: Naming, k: Key)
    ensures k in InitialKeyMap([], naming) <==> k != Unknown && k != Insert
  {
    assert Discover(map[], [], naming) == map[];
    FallbackFillsOnlyMissing(map[], k);
    PositionedKeys(k);
    if exists i | 0 <= i < |FallbackTable()| :: FallbackTable()[i].0 == k {
      var i :| 0 <= i < |FallbackTable()| && FallbackTable()[i].0 == k;
      RowPosition(i);
    }
    if k != Unknown && k != Insert {
      PositionRow(k);
      assert FallbackTable()[FallbackPosition(k)].0 == k;
    }
  }
}
