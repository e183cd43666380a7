/** What the host's keyboard shows over whole runs, in terms the firmware knows (main/tusb/tusb_actuator.c). */
module HostKeyboard {
  import opened HidScaling
  import opened Commands
  import opened Keycodes
  import opened HidInterpreter
  import opened HidRuns

  /** What the host's keyboard shows, in the firmware's terms: the mask and the tracked keys of the last handled
      command that sent a keyboard report. LEAVE and an ENTER with modifiers send one without keys. */
  datatype Shown = Shown(mask: bv16, keys: seq<u16>)

  const NOTHING: Shown := Shown(0, [])

  /** After a handled command; `keys` are those tracked before it. */
  function ShowCmd(shown: Shown, keys: seq<u16>, cmd: Cmd): Shown {
    match cmd
    case KeyDown(_, mask) => Shown(mask, KeysAfter(keys, cmd))
    case KeyUp(_, mask) => Shown(mask, KeysAfter(keys, cmd))
    case Enter(_, _, mask) => if mask == 0 then shown else Shown(mask, [])
    case Leave => NOTHING
    case _ => shown
  }

  function ShowStep(shown: Shown, keys: seq<u16>, step: Step): Shown {
    if step.usb.mounted then ShowCmd(shown, keys, step.cmd) else shown
  }

  /** Over a sequence of commands; `keys` are the tracked ones. */
  function ShowAll(shown: Shown, keys: seq<u16>, steps: seq<Step>): Shown
    decreases |steps|
  {
    if steps == [] then shown
    else
      var keys' := if steps[0].usb.mounted then KeysAfter(keys, steps[0].cmd) else keys;
      ShowAll(ShowStep(shown, keys, steps[0]), keys', steps[1..])
  }

  /** The host's last keyboard report is the one for `shown`. */
  ghost predicate HostShows(s: State, shown: Shown, layout: Layout) {
    |shown.keys| <= MAX_KEYS && LastKeyboard(s.sent) == KeyboardBytes(Slots(shown.keys), shown.mask, layout)
  }

  lemma MergeIsZero(a: bv8, b: bv8)
    ensures Merge(a, b) == 0 <==> a == 0 && b == 0
  {
  }

  lemma ModifierIsNotZero(usage: bv8)
    requires IsModifier(usage)
    ensures ModifierOf(usage) != 0
  {
  }

  lemma {:induction false} NoModifiersIff(slots: seq<u16>, layout: Layout)
    ensures Modifiers(slots, layout) == 0 <==>
            forall j :: 0 <= j < |slots| ==> !IsModifier(Usage(slots[j], layout))
    decreases |slots|
  {
    if slots != [] {
      var last := |slots| - 1;
      NoModifiersIff(slots[..last], layout);
      MergeIsZero(Modifiers(slots[..last], layout), KeyModifier(slots[last], layout));
      if IsModifier(Usage(slots[last], layout)) {
        ModifierIsNotZero(Usage(slots[last], layout));
      }
      assert forall j :: 0 <= j < last ==> slots[..last][j] == slots[j];
    }
  }

  /** A report without keys. */
  lemma BytesWithoutKeys(mask: bv16, layout: Layout)
    ensures KeyboardBytes(Slots([]), mask, layout) == [MaskToModifier(mask), 0, 0, 0, 0, 0, 0, 0]
  {
    NoModifiersIff(Slots([]), layout);
    MergeLaws(MaskToModifier(mask), 0, 0);
  }

  lemma MouseKeepsKeyboard(s: State, out: (Pointer, seq<HidReport>))
    requires |out.1| <= 1 && forall r <- out.1 :: r.MouseReport?
    ensures LastKeyboard(Point(s, out).sent) == LastKeyboard(s.sent)
  {
    if out.1 == [] {
      assert s.sent + out.1 == s.sent;
    } else {
      assert s.sent + out.1 == s.sent + [out.1[0]];
      SeenAfter(s.sent, out.1[0]);
    }
  }

  lemma PointingKeepsKeyboard(s: State, p: Pointer, refusals: nat)
    ensures LastKeyboard(Point(s, Once(p, refusals)).sent) == LastKeyboard(s.sent)
    ensures LastKeyboard(Point(s, Retry(p, refusals)).sent) == LastKeyboard(s.sent)
  {
    MouseKeepsKeyboard(s, Once(p, refusals));
    MouseKeepsKeyboard(s, Retry(p, refusals));
  }

  lemma EnterShows(s: State, cmd: Cmd, usb: Usb)
    requires cmd.Enter?
    ensures LastKeyboard(ExecEnter(s, cmd, usb).sent) ==
            if cmd.mask == 0 then LastKeyboard(s.sent) else [MaskToModifier(cmd.mask), 0, 0, 0, 0, 0, 0, 0]
  {
    var p := s.pointer.(targetX := cmd.x, targetY := cmd.y);
    PointingKeepsKeyboard(s, p, usb.first);
    SeenAfter(Point(s, Once(p, usb.first)).sent, KeyboardReport([MaskToModifier(cmd.mask), 0, 0, 0, 0, 0, 0, 0]));
  }

  lemma LeaveShows(s: State, usb: Usb)
    ensures LastKeyboard(ExecLeave(s, usb).sent) == RELEASED
  {
    var released := s.(keys := [], sent := s.sent + [KeyboardReport(RELEASED)]);
    SeenAfter(s.sent, KeyboardReport(RELEASED));
    PointingKeepsKeyboard(released, s.pointer.(buttons := 0, wheel := 0), usb.first);
  }

  lemma JiggleShows(s: State, usb: Usb)
    ensures LastKeyboard(ExecJiggle(s, usb).sent) == LastKeyboard(s.sent)
  {
    var p := s.pointer;
    var q := p.(targetX := JiggleTo(p.targetX, p.width));
    var out := Point(s, Once(q, usb.first));
    PointingKeepsKeyboard(s, q, usb.first);
    PointingKeepsKeyboard(out, out.pointer.(targetX := p.targetX), usb.second);
  }

  lemma MouseShows(s: State, cmd: Cmd, usb: Usb)
    requires cmd.MouseDown? || cmd.MouseUp? || cmd.MouseWheel?
    ensures LastKeyboard(ExecMouse(s, cmd, usb).sent) == LastKeyboard(s.sent)
  {
    var p := s.pointer;
    var q := match cmd
      case MouseDown(b) => p.(buttons := PressButton(p.buttons, b))
      case MouseUp(b) => p.(buttons := ReleaseButton(p.buttons, b))
      case MouseWheel(_, dy) => p.(wheel := Damp(dy));
    PointingKeepsKeyboard(s, q, usb.first);
  }

  lemma PressShows(s: State, keys: seq<u16>, mask: bv16, layout: Layout)
    requires |keys| <= MAX_KEYS
    ensures HostShows(Press(s, keys, mask, layout), Shown(mask, keys), layout)
  {
    SeenAfter(s.sent, KeyboardReport(KeyboardBytes(Slots(keys), mask, layout)));
  }

  lemma NothingIsReleased(layout: Layout)
    ensures KeyboardBytes(Slots([]), 0, layout) == RELEASED
  {
    BytesWithoutKeys(0, layout);
  }

  /** The commands that send a keyboard report when they are handled. */
  predicate Typing(cmd: Cmd) {
    cmd.KeyDown? || cmd.KeyUp? || cmd.Leave? || (cmd.Enter? && cmd.mask != 0)
  }

  lemma SilentStep(s: State, step: Step, layout: Layout)
    requires |s.keys| <= MAX_KEYS && (Typing(step.cmd) ==> !step.usb.mounted)
    ensures LastKeyboard(Exec(s, step.cmd, step.usb, layout).sent) == LastKeyboard(s.sent)
  {
    if step.usb.mounted {
      match step.cmd {
        case MouseDown(_) => MouseShows(s, step.cmd, step.usb);
        case MouseUp(_) => MouseShows(s, step.cmd, step.usb);
        case MouseWheel(_, _) => MouseShows(s, step.cmd, step.usb);
        case Enter(_, _, _) => EnterShows(s, step.cmd, step.usb);
        case Jiggle => JiggleShows(s, step.usb);
        case _ =>
      }
    }
  }

  lemma TypingStep(s: State, step: Step, shown: Shown, layout: Layout)
    requires |s.keys| <= MAX_KEYS && Typing(step.cmd) && step.usb.mounted
    ensures HostShows(Exec(s, step.cmd, step.usb, layout), ShowStep(shown, s.keys, step), layout)
  {
    match step.cmd {
      case KeyDown(key, mask) => PressShows(s, TrackDown(s.keys, key), mask, layout);
      case KeyUp(key, mask) => PressShows(s, TrackUp(s.keys, key), mask, layout);
      case Enter(_, _, mask) =>
        EnterShows(s, step.cmd, step.usb);
        BytesWithoutKeys(mask, layout);
      case Leave =>
        LeaveShows(s, step.usb);
        NothingIsReleased(layout);
    }
  }

  lemma StepShows(s: State, step: Step, shown: Shown, layout: Layout)
    requires |s.keys| <= MAX_KEYS && HostShows(s, shown, layout)
    ensures HostShows(Exec(s, step.cmd, step.usb, layout), ShowStep(shown, s.keys, step), layout)
  {
    if step.usb.mounted && Typing(step.cmd) {
      TypingStep(s, step, shown, layout);
    } else {
      SilentStep(s, step, layout);
    }
  }

  /** Over every run the host's last keyboard report is the one for the last handled keyboard command. */
  lemma {:induction false} RunShows(s: State, steps: seq<Step>, shown: Shown, layout: Layout)
    requires |s.keys| <= MAX_KEYS && HostShows(s, shown, layout)
    ensures HostShows(RunAll(s, steps, layout), ShowAll(shown, s.keys, steps), layout)
    decreases |steps|
  {
    if steps != [] {
      StepShows(s, steps[0], shown, layout);
      ExecKeys(s, steps[0], layout);
      RunShows(Exec(s, steps[0].cmd, steps[0].usb, layout), steps[1..], ShowStep(shown, s.keys, steps[0]), layout);
    }
  }

  /** At every point of every run from boot the host shows exactly the modifiers of the last mask and the keys
      tracked when it was sent. */
  lemma HostShowsLastKeys(boot: State, steps: seq<Step>, layout: Layout)
    requires boot.keys == [] && boot.sent == []
    ensures var shown := ShowAll(NOTHING, [], steps);
            Shows(LastKeyboard(RunAll(boot, steps, layout).sent), shown.mask, KeySet(shown.keys), layout)
  {
    NothingIsReleased(layout);
    RunShows(boot, steps, NOTHING, layout);
    var shown := ShowAll(NOTHING, [], steps);
    KeyboardBytesShow(shown.keys, shown.mask, layout);
  }

  lemma SlotsAreEmptyIff(keys: seq<u16>, layout: Layout)
    requires |keys| <= MAX_KEYS
    ensures Modifiers(Slots(keys), layout) == 0 && SlotCodes(Slots(keys), layout) == RELEASED[2..] <==>
            forall k <- keys :: Usage(k, layout) == 0
  {
    var slots := Slots(keys);
    var codes := SlotCodes(slots, layout);
    NoModifiersIff(slots, layout);
    assert forall j :: |keys| <= j < 6 ==> slots[j] == 0;
    assert forall j :: 0 <= j < 6 ==> RELEASED[2..][j] == 0;
    if Modifiers(slots, layout) == 0 && codes == RELEASED[2..] {
      forall k | k in keys
        ensures Usage(k, layout) == 0
      {
        var j :| 0 <= j < |keys| && keys[j] == k;
        assert slots[j] == k && codes[j] == RELEASED[2..][j];
      }
    }
    if forall k <- keys :: Usage(k, layout) == 0 {
      assert forall j :: 0 <= j < |keys| ==> slots[j] == keys[j] && keys[j] in keys;
      assert codes == RELEASED[2..];
    }
  }

  /** A keyboard report shows nothing exactly if its mask has no modifier and none of its keys has a usage. */
  lemma ReleasedIff(shown: Shown, layout: Layout)
    requires |shown.keys| <= MAX_KEYS
    ensures KeyboardBytes(Slots(shown.keys), shown.mask, layout) == RELEASED <==>
            MaskToModifier(shown.mask) == 0 && forall k <- shown.keys :: Usage(k, layout) == 0
  {
    var slots := Slots(shown.keys);
    SlotsAreEmptyIff(shown.keys, layout);
    MergeIsZero(MaskToModifier(shown.mask), Modifiers(slots, layout));
    var first := Merge(MaskToModifier(shown.mask), Modifiers(slots, layout));
    SplitReport(first, SlotCodes(slots, layout));
  }

  lemma SplitReport(first: bv8, codes: seq<bv8>)
    requires |codes| == 6
    ensures [first, 0] + codes == RELEASED <==> first == 0 && codes == RELEASED[2..]
  {
    var report := [first, 0] + codes;
    assert report[2..] == codes && report[0] == first && RELEASED[0] == 0;
    if first == 0 && codes == RELEASED[2..] {
      assert RELEASED == [0, 0] + RELEASED[2..];
    }
  }

  /** DISCONNECTED sends no report: after any run from boot that ends with it the host's keyboard is released if and
      only if the last keyboard report was sent with a mask without modifiers and tracked keys without usages. */
  lemma DisconnectReleasesIff(boot: State, steps: seq<Step>, usb: Usb, layout: Layout)
    requires boot.keys == [] && boot.sent == []
    ensures var s := Exec(RunAll(boot, steps, layout), Disconnected, usb, layout);
            var shown := ShowAll(NOTHING, [], steps);
            && (LastKeyboard(s.sent) == RELEASED <==>
                MaskToModifier(shown.mask) == 0 && forall k <- shown.keys :: Usage(k, layout) == 0)
            && (usb.mounted ==> s.keys == [])
  {
    NothingIsReleased(layout);
    RunShows(boot, steps, NOTHING, layout);
    SilentStep(RunAll(boot, steps, layout), Step(Disconnected, usb), layout);
    ReleasedIff(ShowAll(NOTHING, [], steps), layout);
  }

  /** So a key held at the moment of a disconnect stays pressed on the host though no longer tracked. */
  lemma DisconnectLeavesKeyPressed(s: State, layout: Layout)
    requires s.keys == [] && layout(97) == 0x04
    ensures var up := Usb(true, 0, 0, 0);
            var s' := RunAll(s, [Step(KeyDown(97, 0), up), Step(Disconnected, up)], layout);
            s'.keys == [] && 0x04 in LastKeyboard(s'.sent)[2..]
  {
    var up := Usb(true, 0, 0, 0);
    var steps := [Step(KeyDown(97, 0), up), Step(Disconnected, up)];
    assert steps[1..] == [Step(Disconnected, up)];
    var pressed := Exec(s, KeyDown(97, 0), up, layout);
    assert RunAll(pressed, steps[1..], layout) == Exec(pressed, Disconnected, up, layout);
    var report := KeyboardBytes(Slots([97]), 0, layout);
    SeenAfter(s.sent, KeyboardReport(report));
    KeyboardBytesShow([97], 0, layout);
    assert 97 in KeySet([97]) && Usage(97, layout) == 0x04;
    assert TrackDown(s.keys, 97) == [97];
    assert pressed.sent == s.sent + [KeyboardReport(report)];
  }
}
