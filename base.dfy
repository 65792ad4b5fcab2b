/** Small shared vocabulary: an optional value and the unsigned 32-bit range. */
module Base {

  datatype Option<T> = None | Some(value: T)

  /** Values of a C++ `uint32_t` (keysyms, XKB keycodes, microsecond delays). */
  type Uint32 = x: int | 0 <= x < 0x1_0000_0000
}
