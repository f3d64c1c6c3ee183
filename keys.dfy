/**
 * The HID key bits the soundboard and the file browser test. The values are
 * those of libctru's `hid.h` (not part of this model): one bit per button,
 * KEY_UP and KEY_DOWN each covering the D-pad and the circle pad.
 */
module Keys {

  const KEY_A: bv32 := 1 << 0
  const KEY_B: bv32 := 1 << 1
  const KEY_START: bv32 := 1 << 3
  const KEY_DUP: bv32 := 1 << 6
  const KEY_DDOWN: bv32 := 1 << 7
  const KEY_TOUCH: bv32 := 1 << 20
  const KEY_CPAD_UP: bv32 := 1 << 30
  const KEY_CPAD_DOWN: bv32 := 1 << 31
  const KEY_UP: bv32 := KEY_DUP | KEY_CPAD_UP
  const KEY_DOWN: bv32 := KEY_DDOWN | KEY_CPAD_DOWN

  /** `keys & mask` taken as a C condition. */
  predicate Has(keys: bv32, mask: bv32)
  {
    keys & mask != 0
  }
}
