/**
 * The logical key enumeration and the classifier that turns an XKB keysym into a
 * logical key (`mapKeysymToKey` in src/sender/sender_uinput.cpp).
 *
 * The enumeration itself lives in a header that is not part of this model. The
 * datatype below lists the keys the sender names, and represents the runs the
 * classifier relies on being contiguous (A..Z, Num0..Num9, F1..F20) as
 * constructors indexed by their offset within the run.
 */
module Keys {
  import opened Base

  type Keysym = Uint32
  type LetterIndex = i: int | 0 <= i < 26
  type DigitIndex = i: int | 0 <= i < 10
  type FunctionNumber = n: int | 1 <= n <= 20 witness 1

  datatype Key =
    | Unknown
    | Letter(letter: LetterIndex)         // Key::A + letter
    | Num(digit: DigitIndex)              // Key::Num0 + digit
    | F(number: FunctionNumber)           // Key::F1 + (number - 1)
    | Enter | Backspace | Space | Tab | Escape
    | Left | Right | Up | Down | Home | End | PageUp | PageDown | Delete | Insert
    | NumpadDivide | NumpadMultiply | NumpadMinus | NumpadPlus | NumpadEnter | NumpadDecimal
    | Numpad(numpadDigit: DigitIndex)     // Key::Numpad0 .. Key::Numpad9
    | Comma | Period | Slash | Backslash | Semicolon | Apostrophe | Minus | Equal | Grave
    | LeftBracket | RightBracket
    | ShiftLeft | ShiftRight | CtrlLeft | CtrlRight | AltLeft | AltRight | SuperLeft | SuperRight
    | CapsLock | NumLock | Menu | Mute | VolumeDown | VolumeUp
    | MediaPlayPause | MediaStop | MediaNext | MediaPrevious

  // Keysym values from xkbcommon-keysyms.h.
  const NoSymbol: Keysym := 0
  const KeysymLowerA: Keysym := 0x61
  const KeysymLowerZ: Keysym := 0x7a
  const KeysymUpperA: Keysym := 0x41
  const KeysymUpperZ: Keysym := 0x5a
  const KeysymDigit0: Keysym := 0x30
  const KeysymDigit9: Keysym := 0x39
  const KeysymF1: Keysym := 0xffbe
  const KeysymF20: Keysym := 0xffd1

  /**
   * The keysym-name fallback, which calls into libxkbcommon
   * (`xkb_keysym_get_name`) and into the key-name parser (`stringToKey`), neither
   * of which is part of this model. `keysymName` yields "" where the name lookup
   * reports no characters.
   */
  datatype Naming = Naming(keysymName: Keysym -> string, stringToKey: string -> Key)

  /** The switch over named control, navigation, numpad and punctuation keysyms. */
  function DirectKey(sym: Keysym): Key
  {
    match sym
    case 0xff0d => Enter
    case 0xff08 => Backspace
    case 0x20 => Space
    case 0xff09 => Tab
    case 0xff1b => Escape
    case 0xff51 => Left
    case 0xff53 => Right
    case 0xff52 => Up
    case 0xff54 => Down
    case 0xff50 => Home
    case 0xff57 => End
    case 0xff55 => PageUp
    case 0xff56 => PageDown
    case 0xffff => Delete
    case 0xff63 => Insert
    case 0xffaf => NumpadDivide
    case 0xffaa => NumpadMultiply
    case 0xffad => NumpadMinus
    case 0xffab => NumpadPlus
    case 0xff8d => NumpadEnter
    case 0xffae => NumpadDecimal
    case 0xffb0 => Numpad(0)
    case 0xffb1 => Numpad(1)
    case 0xffb2 => Numpad(2)
    case 0xffb3 => Numpad(3)
    case 0xffb4 => Numpad(4)
    case 0xffb5 => Numpad(5)
    case 0xffb6 => Numpad(6)
    case 0xffb7 => Numpad(7)
    case 0xffb8 => Numpad(8)
    case 0xffb9 => Numpad(9)
    case 0x2c => Comma
    case 0x2e => Period
    case 0x2f => Slash
    case 0x5c => Backslash
    case 0x3b => Semicolon
    case 0x27 => Apostrophe
    case 0x2d => Minus
    case 0x3d => Equal
    case 0x60 => Grave
    case 0x5b => LeftBracket
    case 0x5d => RightBracket
    case _ => Unknown
  }

  /** The name-string fallback: render the keysym's name and parse it as a key name. */
  function KeyByName(sym: Keysym, naming: Naming): Key
  {
    var name := naming.keysymName(sym);
    if |name| > 0 then
      var mapped := naming.stringToKey(name);
      if mapped != Unknown then mapped else Unknown
    else
      Unknown
  }

  /** Classify a keysym: letter ranges, digits, F1..F20, the direct table, then by name. */
  function MapKeysymToKey(sym: Keysym, naming: Naming): Key
  {
    if KeysymLowerA <= sym <= KeysymLowerZ then Letter(sym - KeysymLowerA)
    else if KeysymUpperA <= sym <= KeysymUpperZ then Letter(sym - KeysymUpperA)
    else if KeysymDigit0 <= sym <= KeysymDigit9 then Num(sym - KeysymDigit0)
    else if KeysymF1 <= sym <= KeysymF20 then F(1 + (sym - KeysymF1))
    else if DirectKey(sym) != Unknown then DirectKey(sym)
    else KeyByName(sym, naming)
  }

  /** True for keysyms the classifier resolves without the name fallback. */
  predicate Classified(sym: Keysym)
  {
    || KeysymLowerA <= sym <= KeysymLowerZ
    || KeysymUpperA <= sym <= KeysymUpperZ
    || KeysymDigit0 <= sym <= KeysymDigit9
    || KeysymF1 <= sym <= KeysymF20
    || DirectKey(sym) != Unknown
  }

  /**
   * The keysym at the start of `k`'s run, for the keys the classifier maps by
   * offset within a contiguous run (lower case for letters, and the keypad
   * digits of the direct table); `None` for every other key.
   */
  function CanonicalKeysym(k: Key): (r: Option<Keysym>)
    ensures r.Some? ==> Classified(r.value)
  {
    match k
    case Letter(i) => Some(KeysymLowerA + i)
    case Num(d) => Some(KeysymDigit0 + d)
    case F(n) => Some(KeysymF1 + (n - 1))
    case Numpad(d) => assert DirectKey(0xffb0 + d) != Unknown by { NumpadDigits(d); } Some(0xffb0 + d)
    case _ => None
  }

  /** Lower- and upper-case forms of a letter keysym classify to the same letter key. */
  lemma LetterCaseFolds(i: LetterIndex, naming: Naming)
    ensures MapKeysymToKey(KeysymLowerA + i, naming) == Letter(i)
    ensures MapKeysymToKey(KeysymUpperA + i, naming) == Letter(i)
  {
  }

  /** Digits and function keys map by constant offset. */
  lemma DigitAndFunctionOffsets(d: DigitIndex, n: FunctionNumber, naming: Naming)
    ensures MapKeysymToKey(KeysymDigit0 + d, naming) == Num(d)
    ensures MapKeysymToKey(KeysymF1 + (n - 1), naming) == F(n)
  {
  }

  /** Keysyms covered by the ranges or the direct table never reach the name fallback. */
  lemma ClassifiedIgnoresNaming(sym: Keysym, n1: Naming, n2: Naming)
    requires Classified(sym)
    ensures MapKeysymToKey(sym, n1) == MapKeysymToKey(sym, n2) != Unknown
  {
  }

  /** Outside the ranges and the table, the result is exactly the name fallback's. */
  lemma UnclassifiedUsesName(sym: Keysym, naming: Naming)
    requires !Classified(sym)
    ensures MapKeysymToKey(sym, naming) ==
      (if |naming.keysymName(sym)| > 0 then naming.stringToKey(naming.keysymName(sym)) else Unknown)
  {
  }

  /** Round trip: the canonical keysym of a key classifies back to that key. */
  lemma {:induction false} CanonicalKeysymRoundTrip(k: Key, naming: Naming)
    requires CanonicalKeysym(k).Some?
    ensures MapKeysymToKey(CanonicalKeysym(k).value, naming) == k
  {
    if k.Letter? {
      LetterCaseFolds(k.letter, naming);
    } else if k.Num? {
      DigitAndFunctionOffsets(k.digit, 1, naming);
    } else if k.F? {
      DigitAndFunctionOffsets(0, k.number, naming);
    } else {
      assert k.Numpad?;
      NumpadDigits(k.numpadDigit);
      DirectTableReachable(0xffb0 + k.numpadDigit, naming);
    }
  }

  /** Keypad digits are the run 0xffb0 to 0xffb9 of the direct table. */
  lemma NumpadDigits(d: DigitIndex)
    ensures DirectKey(0xffb0 + d) == Numpad(d)
  {
    if d < 5 {
      assert d == 0 || d == 1 || d == 2 || d == 3 || d == 4;
    } else {
      assert d == 5 || d == 6 || d == 7 || d == 8 || d == 9;
    }
  }

  /**
   * No entry of the direct table is shadowed by the range checks before it:
   * every keysym the table names classifies to exactly its entry.
   */
  lemma DirectTableReachable(sym: Keysym, naming: Naming)
    requires DirectKey(sym) != Unknown
    ensures MapKeysymToKey(sym, naming) == DirectKey(sym)
  {
  }
}
