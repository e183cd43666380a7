/** Modifier masks and usages (main/tusb/keycodes.c). The key tables are a parameter. */
module Keycodes {
  import opened HidScaling
  import opened Commands

  /** barrier_key_to_hid under the active layout: a total function from key codes to HID usages. */
  type Layout = u16 -> bv8

  const MASK_SHIFT: bv16 := 0x0001
  const MASK_CONTROL: bv16 := 0x0002
  const MASK_ALT: bv16 := 0x0004
  const MASK_META: bv16 := 0x0008
  const MASK_SUPER: bv16 := 0x0010
  const MASK_ALTGR: bv16 := 0x0020

  const MOD_LEFT_CTRL: bv8 := 0x01
  const MOD_LEFT_SHIFT: bv8 := 0x02
  const MOD_LEFT_ALT: bv8 := 0x04
  const MOD_LEFT_GUI: bv8 := 0x08
  const MOD_RIGHT_ALT: bv8 := 0x40

  function When(given: bool, bit: bv8): bv8 {
    if given then bit else 0
  }

  /** mask_to_tusb_modifier */
  function MaskToModifier(mask: bv16): bv8 {
    When(mask & MASK_SHIFT != 0, MOD_LEFT_SHIFT)
    | When(mask & MASK_CONTROL != 0, MOD_LEFT_CTRL)
    | When(mask & MASK_ALT != 0, MOD_LEFT_ALT)
    | When(mask & MASK_META != 0, MOD_RIGHT_ALT)
    | When(mask & MASK_SUPER != 0, MOD_LEFT_GUI)
    | When(mask & MASK_ALTGR != 0, MOD_RIGHT_ALT)
  }

  /** Which logical modifier drives each bit of the HID modifier byte: Ctrl, Shift, Alt and GUI on the left, Meta and
      AltGr both Alt on the right; bits 4, 5 and 7 have none. */
  lemma ModifierBits(mask: bv16, i: bv8)
    requires i < 8
    ensures Bit(MaskToModifier(mask), i) <==>
            || (i == 0 && mask & 0x0002 != 0)
            || (i == 1 && mask & 0x0001 != 0)
            || (i == 2 && mask & 0x0004 != 0)
            || (i == 3 && mask & 0x0010 != 0)
            || (i == 6 && (mask & 0x0008 != 0 || mask & 0x0020 != 0))
  {
  }

  /** Usages 0xE0..0xE7 are modifier keys (section 10 of HID Usage Tables 1.12, usage page 0x07). */
  predicate IsModifier(usage: bv8) {
    0xE0 <= usage <= 0xE7
  }
}
