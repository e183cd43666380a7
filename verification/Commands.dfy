/** The actuator's command vocabulary (main/tusb/tusb_actuator.h). */
module Commands {
  import opened HidScaling

  type i8 = n: int | -128 <= n < 128

  datatype Cmd =
    | KeyDown(key: u16, mask: bv16)
    | KeyUp(key: u16, mask: bv16)
    | KeyRepeat
    | MouseDown(button: i8)
    | MouseUp(button: i8)
    | MouseWheel(dx: i16, dy: i16)
    | Enter(x: u16, y: u16, mask: bv16)
    | Leave
    | Jiggle
    | Connected
    | Disconnected
    | SetScreenSize(w: u16, h: u16)
    | SetScaling(scaling: u16)

  /** A call of the network task into the actuator: a queued command, or a movement through the shared target. */
  datatype Call = Queue(cmd: Cmd) | SetMovement(x: u16, y: u16) | MoveRelative(dx: i16, dy: i16)

  const QUEUE_DEPTH: nat := 32

  /** barrier_button_to_hid */
  function ButtonBit(button: i8): bv8 {
    match button
    case 1 => 0x01
    case 2 => 0x04
    case 3 => 0x02
    case _ => 0
  }

  function PressButton(buttons: bv8, button: i8): bv8 {
    buttons | ButtonBit(button)
  }

  function ReleaseButton(buttons: bv8, button: i8): bv8 {
    buttons & !ButtonBit(button)
  }

  lemma ButtonTwice(buttons: bv8, button: i8)
    ensures PressButton(PressButton(buttons, button), button) == PressButton(buttons, button)
    ensures ReleaseButton(ReleaseButton(buttons, button), button) == ReleaseButton(buttons, button)
  {
  }

  /** Bits of an 8-bit report field, addressed by position. */
  predicate Bit(v: bv8, i: bv8)
    requires i < 8
  {
    v & (1 << i) != 0
  }

  /** Left, right and middle are buttons 1, 2 and 3 of the HID boot mouse (Appendix B.2 of HID 1.11), bits 0, 1 and 2 of
      its report. */
  predicate ReportsAs(button: i8, i: bv8) {
    (button == 1 && i == 0) || (button == 3 && i == 1) || (button == 2 && i == 2)
  }

  /** Pressing a button sets exactly its bit, releasing it clears exactly that, and other numbers do nothing. */
  lemma ButtonBits(buttons: bv8, button: i8, i: bv8)
    requires i < 8
    ensures Bit(PressButton(buttons, button), i) <==> Bit(buttons, i) || ReportsAs(button, i)
    ensures Bit(ReleaseButton(buttons, button), i) <==> Bit(buttons, i) && !ReportsAs(button, i)
  {
  }

  lemma BitOr(v: bv8, w: bv8, i: bv8)
    requires i < 8
    ensures Bit(v | w, i) <==> Bit(v, i) || Bit(w, i)
  {
  }

  /** The wheel damping of the HID task: dy limited to -3..3. */
  function Damp(dy: i16): i8 {
    if dy > 3 then 3 else if dy < -3 then -3 else dy
  }
}
