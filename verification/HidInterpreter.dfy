/** The command interpreter of the HID task (main/tusb/tusb_actuator.c), run without interference. */
module HidInterpreter {
  import opened HidScaling
  import opened Commands
  import opened Keycodes

  const MAX_KEYS: nat := 6

  datatype HidReport =
    | KeyboardReport(bytes: seq<bv8>)
    | MouseReport(buttons: bv8, x: u16, y: u16, wheel: i8)

  /** How USB answers while one command is handled: whether the device is mounted, and how often a
      report is refused before it would be accepted. */
  datatype Usb = Usb(mounted: bool, keyboard: nat, first: nat, second: nat)

  // ---- the tracked keys ----

  function TrackDown(keys: seq<u16>, key: u16): (tracked: seq<u16>)
    ensures |keys| <= MAX_KEYS ==> |tracked| <= MAX_KEYS
  {
    if |keys| < MAX_KEYS && key !in keys then keys + [key] else keys
  }

  function IndexOf(keys: seq<u16>, key: u16): (i: nat)
    requires key in keys
    ensures i < |keys| && keys[i] == key && key !in keys[..i]
  {
    if keys[0] == key then 0 else 1 + IndexOf(keys[1..], key)
  }

  lemma {:induction false} FirstIndex(keys: seq<u16>, key: u16, i: nat)
    requires i < |keys| && keys[i] == key && key !in keys[..i]
    ensures IndexOf(keys, key) == i
  {
  }

  /** Removal as the code does it: the last key takes the place of the removed one. */
  function SwapRemove(keys: seq<u16>, i: nat): seq<u16>
    requires i < |keys|
  {
    keys[i := keys[|keys| - 1]][..|keys| - 1]
  }

  function TrackUp(keys: seq<u16>, key: u16): seq<u16> {
    if key in keys then SwapRemove(keys, IndexOf(keys, key)) else []
  }

  ghost predicate Distinct(keys: seq<u16>) {
    forall i, j :: 0 <= i < j < |keys| ==> keys[i] != keys[j]
  }

  ghost predicate Tracks(keys: seq<u16>) {
    |keys| <= MAX_KEYS && Distinct(keys)
  }

  ghost function KeySet(keys: seq<u16>): set<u16> {
    set k | k in keys
  }

  /** The slot array is the tracked keys, then zeros. */
  function Slots(keys: seq<u16>): (s: seq<u16>)
    requires |keys| <= MAX_KEYS
    ensures |s| == MAX_KEYS
  {
    keys + seq(MAX_KEYS - |keys|, _ => 0)
  }

  // ---- keyboard reports ----

  function Usage(key: u16, layout: Layout): bv8 {
    if key == 0 then 0 else layout(key)
  }

  function SlotUsage(key: u16, layout: Layout): bv8 {
    var usage := Usage(key, layout);
    if IsModifier(usage) then 0 else usage
  }

  function ModifierOf(usage: bv8): bv8
    requires IsModifier(usage)
  {
    1 << (usage - 0xE0)
  }

  function Merge(a: bv8, b: bv8): bv8 {
    a | b
  }

  function KeyModifier(key: u16, layout: Layout): bv8 {
    var usage := Usage(key, layout);
    if IsModifier(usage) then ModifierOf(usage) else 0
  }

  function Modifiers(keys: seq<u16>, layout: Layout): bv8 {
    if keys == [] then 0 else Merge(Modifiers(keys[..|keys| - 1], layout), KeyModifier(keys[|keys| - 1], layout))
  }

  function SlotCodes(slots: seq<u16>, layout: Layout): seq<bv8> {
    seq(|slots|, i requires 0 <= i < |slots| => SlotUsage(slots[i], layout))
  }

  lemma ModifiersStep(base: bv8, keys: seq<u16>, i: nat, layout: Layout)
    requires i < |keys|
    ensures var usage := Usage(keys[i], layout);
            var before := Merge(base, Modifiers(keys[..i], layout));
            Merge(base, Modifiers(keys[..i + 1], layout)) ==
              if IsModifier(usage) then Merge(before, ModifierOf(usage)) else before
  {
    assert keys[..i + 1][..i] == keys[..i];
    MergeLaws(base, Modifiers(keys[..i], layout), KeyModifier(keys[i], layout));
    MergeLaws(Modifiers(keys[..i], layout), 0, 0);
  }

  lemma MergeLaws(a: bv8, b: bv8, c: bv8)
    ensures Merge(a, Merge(b, c)) == Merge(Merge(a, b), c)
    ensures Merge(a, 0) == a
  {
  }

  /** modifier byte, reserved byte, six slots (Appendix B.1 of HID 1.11) */
  function KeyboardBytes(slots: seq<u16>, mask: bv16, layout: Layout): seq<bv8>
    requires |slots| == MAX_KEYS
  {
    [Merge(MaskToModifier(mask), Modifiers(slots, layout)), 0] + SlotCodes(slots, layout)
  }

  // ---- the pointer ----

  datatype Pointer = Pointer(
    targetX: u16, targetY: u16, width: u16, height: u16, buttons: bv8, wheel: i8,
    sentX: u16, sentY: u16, sentButtons: bv8)

  function PointerReport(p: Pointer): HidReport {
    MouseReport(p.buttons, ToHid(p.width, p.targetX), ToHid(p.height, p.targetY), p.wheel)
  }

  function AfterReport(p: Pointer): Pointer {
    p.(sentX := ToHid(p.width, p.targetX), sentY := ToHid(p.height, p.targetY), sentButtons := p.buttons, wheel := 0)
  }

  /** send_abs_mouse_retry: only a change of buttons is important enough to wait for. */
  function Retry(p: Pointer, refusals: nat): (Pointer, seq<HidReport>) {
    if refusals == 0 || p.buttons != p.sentButtons then (AfterReport(p), [PointerReport(p)]) else (p, [])
  }

  predicate AlreadySent(p: Pointer) {
    && ToHid(p.width, p.targetX) == p.sentX && ToHid(p.height, p.targetY) == p.sentY
    && p.buttons == p.sentButtons && p.wheel == 0
  }

  /** send_abs_mouse_once */
  function Once(p: Pointer, refusals: nat): (Pointer, seq<HidReport>) {
    if !AlreadySent(p) && refusals == 0 then (AfterReport(p), [PointerReport(p)]) else (p, [])
  }

  // ---- one command ----

  datatype State = State(keys: seq<u16>, pointer: Pointer, scaling: u16, sent: seq<HidReport>)

  function Press(s: State, keys: seq<u16>, mask: bv16, layout: Layout): State
    requires |keys| <= MAX_KEYS
  {
    s.(keys := keys, sent := s.sent + [KeyboardReport(KeyboardBytes(Slots(keys), mask, layout))])
  }

  function Point(s: State, out: (Pointer, seq<HidReport>)): State {
    s.(pointer := out.0, sent := s.sent + out.1)
  }

  /** The keyboard report with nothing pressed. */
  const RELEASED: seq<bv8> := [0, 0, 0, 0, 0, 0, 0, 0]

  function ExecKey(s: State, cmd: Cmd, layout: Layout): State
    requires |s.keys| <= MAX_KEYS && (cmd.KeyDown? || cmd.KeyUp?)
  {
    if cmd.KeyDown? then Press(s, TrackDown(s.keys, cmd.key), cmd.mask, layout)
    else Press(s, TrackUp(s.keys, cmd.key), cmd.mask, layout)
  }

  function ExecMouse(s: State, cmd: Cmd, usb: Usb): State
    requires cmd.MouseDown? || cmd.MouseUp? || cmd.MouseWheel?
  {
    var p := s.pointer;
    var p' := match cmd
      case MouseDown(b) => p.(buttons := PressButton(p.buttons, b))
      case MouseUp(b) => p.(buttons := ReleaseButton(p.buttons, b))
      case MouseWheel(_, dy) => p.(wheel := Damp(dy));
    Point(s, Retry(p', usb.first))
  }

  function ExecEnter(s: State, cmd: Cmd, usb: Usb): State
    requires cmd.Enter?
  {
    var moved := Point(s, Once(s.pointer.(targetX := cmd.x, targetY := cmd.y), usb.first));
    if cmd.mask == 0 then moved
    else moved.(sent := moved.sent + [KeyboardReport([MaskToModifier(cmd.mask), 0, 0, 0, 0, 0, 0, 0])])
  }

  function ExecLeave(s: State, usb: Usb): State {
    Point(s.(keys := [], sent := s.sent + [KeyboardReport(RELEASED)]),
          Once(s.pointer.(buttons := 0, wheel := 0), usb.first))
  }

  function ExecJiggle(s: State, usb: Usb): State {
    var p := s.pointer;
    var out := Point(s, Once(p.(targetX := JiggleTo(p.targetX, p.width)), usb.first));
    Point(out, Once(out.pointer.(targetX := p.targetX), usb.second))
  }

  /** A dequeued command: dropped while the device is unmounted, else handled. */
  function Exec(s: State, cmd: Cmd, usb: Usb, layout: Layout): (s': State)
    requires |s.keys| <= MAX_KEYS
    ensures |s'.keys| <= MAX_KEYS
  {
    if !usb.mounted then s
    else match cmd
      case KeyDown(_, _) => ExecKey(s, cmd, layout)
      case KeyUp(_, _) => ExecKey(s, cmd, layout)
      case MouseDown(_) => ExecMouse(s, cmd, usb)
      case MouseUp(_) => ExecMouse(s, cmd, usb)
      case MouseWheel(_, _) => ExecMouse(s, cmd, usb)
      case Enter(_, _, _) => ExecEnter(s, cmd, usb)
      case Leave => ExecLeave(s, usb)
      case Jiggle => ExecJiggle(s, usb)
      case Disconnected => s.(keys := [], pointer := s.pointer.(buttons := 0, wheel := 0))
      case SetScreenSize(w, h) => s.(pointer := s.pointer.(width := w, height := h))
      case SetScaling(scaling) => s.(scaling := scaling)
      case KeyRepeat => s
      case Connected => s
  }

  // ---- the code ----

  /** The fields of tusb_actuator_t that the HID task owns. `sent` is what the host has accepted. */
  class HidTask {
    const layout: Layout
    const pressedKeys: array<u16>
    var keyCount: nat
    var mouseButtons: bv8
    var mouseWheel: i8
    var targetX: u16
    var targetY: u16
    var screenWidth: u16
    var screenHeight: u16
    var scaling: u16
    var lastSentHx: u16
    var lastSentHy: u16
    var lastSentButtons: bv8
    ghost var sent: seq<HidReport>

    ghost predicate Valid()
      reads this, pressedKeys
    {
      && pressedKeys.Length == MAX_KEYS && keyCount <= MAX_KEYS
      && pressedKeys[..] == Slots(pressedKeys[..keyCount])
      && Distinct(pressedKeys[..keyCount])
    }

    ghost function Keys(): seq<u16>
      reads this, pressedKeys
      requires keyCount <= pressedKeys.Length
    {
      pressedKeys[..keyCount]
    }

    ghost function Pos(): Pointer
      reads this
    {
      Pointer(targetX, targetY, screenWidth, screenHeight, mouseButtons, mouseWheel,
              lastSentHx, lastSentHy, lastSentButtons)
    }

    ghost function Abs(): State
      reads this, pressedKeys
      requires keyCount <= pressedKeys.Length
    {
      State(Keys(), Pos(), scaling, sent)
    }

    /** tusb_actuator_init */
    constructor (width: u16, height: u16, layout: Layout)
      ensures Valid() && fresh(pressedKeys) && this.layout == layout
      ensures Abs() == State([], Pointer(0, 0, width, height, 0, 0, 0, 0, 0), 100, [])
    {
      this.layout := layout;
      screenWidth, screenHeight, scaling := width, height, 100;
      targetX, targetY := 0, 0;
      mouseButtons, mouseWheel, keyCount := 0, 0, 0;
      lastSentHx, lastSentHy, lastSentButtons := 0, 0, 0;
      pressedKeys := new u16[MAX_KEYS](_ => 0);
      sent := [];
    }

    method TrackKeyDown(key: u16)
      requires Valid()
      modifies this`keyCount, pressedKeys
      ensures Valid() && Keys() == TrackDown(old(Keys()), key)
    {
      if keyCount < MAX_KEYS {
        var found := false;
        var i := 0;
        while i < keyCount && !found
          invariant 0 <= i <= keyCount
          invariant found <==> key in pressedKeys[..i]
        {
          if pressedKeys[i] == key {
            found := true;
          }
          i := i + 1;
        }
        if !found {
          pressedKeys[keyCount] := key;
          keyCount := keyCount + 1;
        }
      }
    }

    method ReleaseKeys()
      requires pressedKeys.Length == MAX_KEYS
      modifies this`keyCount, pressedKeys
      ensures Valid() && Keys() == []
    {
      keyCount := 0;
      forall i | 0 <= i < pressedKeys.Length {
        pressedKeys[i] := 0;
      }
    }

    /** The last key moves into the freed slot. */
    method RemoveAt(i: nat)
      requires Valid() && i < keyCount
      modifies this`keyCount, pressedKeys
      ensures Valid() && Keys() == SwapRemove(old(Keys()), i)
    {
      pressedKeys[i] := pressedKeys[keyCount - 1];
      pressedKeys[keyCount - 1] := 0;
      keyCount := keyCount - 1;
    }

    method TrackKeyUp(key: u16)
      requires Valid()
      modifies this`keyCount, pressedKeys
      ensures Valid() && Keys() == TrackUp(old(Keys()), key)
    {
      ghost var keys := Keys();
      var found := false;
      var i := 0;
      while i < keyCount && !found
        invariant 0 <= i <= |keys| && Valid()
        invariant !found ==> Keys() == keys && key !in keys[..i]
        invariant found ==> key in keys && Keys() == SwapRemove(keys, IndexOf(keys, key))
        decreases !found, |keys| - i
      {
        if pressedKeys[i] == key {
          FirstIndex(keys, key, i);
          RemoveAt(i);
          found := true;
        }
        i := i + 1;
      }
      if !found {
        ReleaseKeys();
      }
    }

    /** The slot loop: modifier keys are merged into the modifier byte and leave an empty slot. */
    method MergeSlots(base: bv8) returns (modifier: bv8, codes: seq<bv8>)
      requires pressedKeys.Length == MAX_KEYS
      ensures modifier == Merge(base, Modifiers(pressedKeys[..], layout))
      ensures codes == SlotCodes(pressedKeys[..], layout)
    {
      ghost var slots := pressedKeys[..];
      modifier, codes := base, [];
      MergeLaws(base, 0, 0);
      for i := 0 to 6
        invariant |codes| == i
        invariant modifier == Merge(base, Modifiers(slots[..i], layout))
        invariant forall j :: 0 <= j < i ==> codes[j] == SlotUsage(slots[j], layout)
      {
        ModifiersStep(base, slots, i, layout);
        var k := pressedKeys[i];
        var hid := if k != 0 then layout(k) else 0;
        if 0xE0 <= hid <= 0xE7 {
          modifier := Merge(modifier, ModifierOf(hid));
          hid := 0;
        }
        codes := codes + [hid];
      }
      assert slots[..6] == slots;
    }

    method BuildReport(mask: bv16) returns (report: seq<bv8>)
      requires Valid()
      ensures report == KeyboardBytes(Slots(Keys()), mask, layout)
    {
      var modifier, codes := MergeSlots(MaskToModifier(mask));
      report := [modifier, 0] + codes;
    }

    /** send_kb_report: blocks, waiting once per refusal. */
    method SendKeyboard(report: seq<bv8>, refusals: nat)
      modifies this`sent
      ensures sent == old(sent) + [KeyboardReport(report)]
    {
      var left := refusals;
      while left != 0 {
        left := left - 1;
      }
      sent := sent + [KeyboardReport(report)];
    }

    method Accept(hx: u16, hy: u16)
      modifies this`sent, this`lastSentHx, this`lastSentHy, this`lastSentButtons, this`mouseWheel
      ensures sent == old(sent) + [MouseReport(mouseButtons, hx, hy, old(mouseWheel))]
      ensures lastSentHx == hx && lastSentHy == hy && lastSentButtons == mouseButtons && mouseWheel == 0
    {
      sent := sent + [MouseReport(mouseButtons, hx, hy, mouseWheel)];
      lastSentHx, lastSentHy := hx, hy;
      lastSentButtons := mouseButtons;
      mouseWheel := 0;
    }

    method SendMouseRetry(refusals: nat)
      modifies this`sent, this`lastSentHx, this`lastSentHy, this`lastSentButtons, this`mouseWheel
      ensures var out := Retry(old(Pos()), refusals); Pos() == out.0 && sent == old(sent) + out.1
    {
      var hx := ToHid(screenWidth, targetX);
      var hy := ToHid(screenHeight, targetY);
      var important := mouseButtons != lastSentButtons;
      var left := refusals;
      while left != 0
        invariant 0 <= left <= refusals && (left == refusals || important)
        modifies {}
      {
        if !important {
          return;
        }
        left := left - 1;
      }
      Accept(hx, hy);
    }

    method SendMouseOnce(refusals: nat)
      modifies this`sent, this`lastSentHx, this`lastSentHy, this`lastSentButtons, this`mouseWheel
      ensures var out := Once(old(Pos()), refusals); Pos() == out.0 && sent == old(sent) + out.1
    {
      var hx := ToHid(screenWidth, targetX);
      var hy := ToHid(screenHeight, targetY);
      if hx == lastSentHx && hy == lastSentHy && mouseButtons == lastSentButtons && mouseWheel == 0 {
        return;
      }
      if refusals == 0 {
        Accept(hx, hy);
      }
    }

    method HandleKey(cmd: Cmd, usb: Usb)
      requires Valid() && (cmd.KeyDown? || cmd.KeyUp?)
      modifies this`keyCount, this`sent, pressedKeys
      ensures Valid() && Abs() == ExecKey(old(Abs()), cmd, layout)
    {
      if cmd.KeyDown? {
        TrackKeyDown(cmd.key);
      } else {
        TrackKeyUp(cmd.key);
      }
      var report := BuildReport(cmd.mask);
      SendKeyboard(report, usb.keyboard);
    }

    method HandleMouse(cmd: Cmd, usb: Usb)
      requires Valid() && (cmd.MouseDown? || cmd.MouseUp? || cmd.MouseWheel?)
      modifies this
      ensures Valid() && Abs() == ExecMouse(old(Abs()), cmd, usb)
    {
      match cmd {
        case MouseDown(b) => mouseButtons := PressButton(mouseButtons, b);
        case MouseUp(b) => mouseButtons := ReleaseButton(mouseButtons, b);
        case MouseWheel(_, dy) => mouseWheel := Damp(dy);
      }
      SendMouseRetry(usb.first);
    }

    method HandleEnter(cmd: Cmd, usb: Usb)
      requires Valid() && cmd.Enter?
      modifies this
      ensures Valid() && Abs() == ExecEnter(old(Abs()), cmd, usb)
    {
      targetX := cmd.x;
      targetY := cmd.y;
      SendMouseOnce(usb.first);
      if cmd.mask != 0 {
        SendKeyboard([MaskToModifier(cmd.mask), 0, 0, 0, 0, 0, 0, 0], usb.keyboard);
      }
    }

    method HandleLeave(usb: Usb)
      requires Valid()
      modifies this, pressedKeys
      ensures Valid() && Abs() == ExecLeave(old(Abs()), usb)
    {
      ReleaseKeys();
      SendKeyboard(RELEASED, usb.keyboard);
      mouseButtons := 0;
      mouseWheel := 0;
      SendMouseOnce(usb.first);
    }

    method HandleJiggle(usb: Usb)
      requires Valid()
      modifies this
      ensures Valid() && Abs() == ExecJiggle(old(Abs()), usb)
    {
      var origX, origY := targetX, targetY;
      targetX := if origX + 1 < screenWidth then origX + 1 else ToU16(origX - 1);
      targetY := origY;
      SendMouseOnce(usb.first);
      targetX := origX;
      targetY := origY;
      SendMouseOnce(usb.second);
    }

    /** The body of the HID task's loop for one dequeued command. */
    method Handle(cmd: Cmd, usb: Usb)
      requires Valid()
      modifies this, pressedKeys
      ensures Valid() && Abs() == Exec(old(Abs()), cmd, usb, layout)
    {
      if !usb.mounted {
        return;
      }
      match cmd {
        case KeyDown(_, _) => HandleKey(cmd, usb);
        case KeyUp(_, _) => HandleKey(cmd, usb);
        case KeyRepeat =>
        case MouseDown(_) => HandleMouse(cmd, usb);
        case MouseUp(_) => HandleMouse(cmd, usb);
        case MouseWheel(_, _) => HandleMouse(cmd, usb);
        case Enter(_, _, _) => HandleEnter(cmd, usb);
        case Leave => HandleLeave(usb);
        case Jiggle => HandleJiggle(usb);
        case Connected =>
        case Disconnected =>
          ReleaseKeys();
          mouseButtons := 0;
          mouseWheel := 0;
        case SetScreenSize(w, h) =>
          screenWidth := w;
          screenHeight := h;
        case SetScaling(s) =>
          scaling := s;
      }
    }
  }
}
