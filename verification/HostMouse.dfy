/** What the host's mouse shows over whole runs (main/tusb/tusb_actuator.c). */
module HostMouse {
  import opened HidScaling
  import opened Commands
  import opened Keycodes
  import opened HidInterpreter
  import opened HidRuns

  // ---- buttons ----

  /** The buttons held after a command, of those the mouse has. */
  function HeldButtons(held: set<i8>, step: Step): set<i8> {
    if !step.usb.mounted then held
    else match step.cmd
      case MouseDown(b) => if 1 <= b <= 3 then held + {b} else held
      case MouseUp(b) => held - {b}
      case Leave => {}
      case Disconnected => {}
      case _ => held
  }

  function HeldButtonsAfter(held: set<i8>, steps: seq<Step>): set<i8>
    decreases |steps|
  {
    if steps == [] then held else HeldButtonsAfter(HeldButtons(held, steps[0]), steps[1..])
  }

  /** The button byte shows these buttons: left in bit 0, right in bit 1, middle in bit 2, nothing else. */
  ghost predicate ShowsButtons(buttons: bv8, held: set<i8>) {
    forall i: bv8 :: i < 8 ==> (Bit(buttons, i) <==> exists b :: b in held && ReportsAs(b, i))
  }

  function ButtonsAfter(buttons: bv8, cmd: Cmd): bv8 {
    match cmd
    case MouseDown(b) => PressButton(buttons, b)
    case MouseUp(b) => ReleaseButton(buttons, b)
    case Leave => 0
    case Disconnected => 0
    case _ => buttons
  }

  lemma ExecMouseButtons(s: State, cmd: Cmd, usb: Usb)
    requires cmd.MouseDown? || cmd.MouseUp? || cmd.MouseWheel?
    ensures ExecMouse(s, cmd, usb).pointer.buttons == ButtonsAfter(s.pointer.buttons, cmd)
  {
  }

  lemma ExecOtherButtons(s: State, cmd: Cmd, usb: Usb)
    ensures cmd.Enter? ==> ExecEnter(s, cmd, usb).pointer.buttons == s.pointer.buttons
    ensures ExecLeave(s, usb).pointer.buttons == 0
    ensures ExecJiggle(s, usb).pointer.buttons == s.pointer.buttons
  {
  }

  lemma ExecButtons(s: State, step: Step, layout: Layout)
    requires |s.keys| <= MAX_KEYS
    ensures Exec(s, step.cmd, step.usb, layout).pointer.buttons ==
            if step.usb.mounted then ButtonsAfter(s.pointer.buttons, step.cmd) else s.pointer.buttons
  {
    if step.cmd.MouseDown? || step.cmd.MouseUp? || step.cmd.MouseWheel? {
      ExecMouseButtons(s, step.cmd, step.usb);
    } else {
      ExecOtherButtons(s, step.cmd, step.usb);
    }
  }

  lemma NoButtons()
    ensures ShowsButtons(0, {})
  {
    forall i: bv8 | i < 8
      ensures !Bit(0, i)
    {
      NoBitOfZero(i);
    }
  }

  lemma PressShown(buttons: bv8, held: set<i8>, button: i8)
    requires ShowsButtons(buttons, held)
    ensures ShowsButtons(PressButton(buttons, button), if 1 <= button <= 3 then held + {button} else held)
  {
    var after := if 1 <= button <= 3 then held + {button} else held;
    forall i: bv8 | i < 8
      ensures Bit(PressButton(buttons, button), i) <==> exists b :: b in after && ReportsAs(b, i)
    {
      ButtonBits(buttons, button, i);
      if Bit(buttons, i) {
        var b :| b in held && ReportsAs(b, i);
        assert b in after;
      }
      if ReportsAs(button, i) {
        assert button in after;
      }
    }
  }

  lemma ReleaseShown(buttons: bv8, held: set<i8>, button: i8)
    requires ShowsButtons(buttons, held)
    ensures ShowsButtons(ReleaseButton(buttons, button), held - {button})
  {
    forall i: bv8 | i < 8
      ensures Bit(ReleaseButton(buttons, button), i) <==> exists b :: b in held - {button} && ReportsAs(b, i)
    {
      ButtonBits(buttons, button, i);
      if Bit(buttons, i) && !ReportsAs(button, i) {
        var b :| b in held && ReportsAs(b, i);
        assert b in held - {button};
      }
    }
  }

  lemma StepButtons(s: State, held: set<i8>, step: Step, layout: Layout)
    requires |s.keys| <= MAX_KEYS && ShowsButtons(s.pointer.buttons, held)
    ensures ShowsButtons(Exec(s, step.cmd, step.usb, layout).pointer.buttons, HeldButtons(held, step))
  {
    ExecButtons(s, step, layout);
    NoButtons();
    match step.cmd {
      case MouseDown(b) => PressShown(s.pointer.buttons, held, b);
      case MouseUp(b) => ReleaseShown(s.pointer.buttons, held, b);
      case _ =>
    }
  }

  /** Over every run the button byte shows exactly the buttons held. */
  lemma {:induction false} RunButtons(s: State, held: set<i8>, steps: seq<Step>, layout: Layout)
    requires |s.keys| <= MAX_KEYS && ShowsButtons(s.pointer.buttons, held)
    ensures ShowsButtons(RunAll(s, steps, layout).pointer.buttons, HeldButtonsAfter(held, steps))
    decreases |steps|
  {
    if steps != [] {
      StepButtons(s, held, steps[0], layout);
      RunButtons(Exec(s, steps[0].cmd, steps[0].usb, layout), HeldButtons(held, steps[0]), steps[1..], layout);
    }
  }

  lemma CompletedButtons(s: State, cmd: Cmd, usb: Usb)
    requires cmd.MouseDown? || cmd.MouseUp?
    ensures ExecMouse(s, cmd, usb).pointer.sentButtons == ExecMouse(s, cmd, usb).pointer.buttons
  {
  }

  /** After any run from boot that ends with a completed MOUSE_DOWN or MOUSE_UP, the host's last mouse report shows
      exactly the buttons held. */
  lemma ButtonsReachHost(boot: State, steps: seq<Step>, cmd: Cmd, usb: Usb, layout: Layout)
    requires boot.keys == [] && boot.pointer.buttons == 0 && HostAgrees(boot)
    requires usb.mounted && (cmd.MouseDown? || cmd.MouseUp?)
    ensures var s := Exec(RunAll(boot, steps, layout), cmd, usb, layout);
            var held := HeldButtons(HeldButtonsAfter({}, steps), Step(cmd, usb));
            LastMouse(s.sent).MouseReport? && ShowsButtons(LastMouse(s.sent).buttons, held)
  {
    var s := RunAll(boot, steps, layout);
    NoButtons();
    RunButtons(boot, {}, steps, layout);
    StepButtons(s, HeldButtonsAfter({}, steps), Step(cmd, usb), layout);
    RunAccounted(boot, steps, layout);
    ExecAccounted(s, Step(cmd, usb), layout);
    CompletedButtons(s, cmd, usb);
  }

  /** After a LEAVE whose mouse report is not refused the host shows no button. */
  lemma LeaveReleasesButtons(s: State, usb: Usb, layout: Layout)
    requires |s.keys| <= MAX_KEYS && usb.mounted && usb.first == 0 && HostAgrees(s)
    ensures var host := LastMouse(Exec(s, Leave, usb, layout).sent);
            host.MouseReport? && host.buttons == 0
  {
    var released := s.(keys := [], sent := s.sent + [KeyboardReport(RELEASED)]);
    SeenAfter(s.sent, KeyboardReport(RELEASED));
    OnceSeen(released, s.pointer.(buttons := 0, wheel := 0));
  }

  // ---- the wheel ----

  function Distance(a: int, b: int): nat {
    if a < b then b - a else a - b
  }

  /** A wheel command scrolls the host, in one report, by the value in -3..3 nearest to what was asked, unless that
      report is refused with the buttons unchanged; then the value waits for the next report. */
  lemma WheelReachesHost(s: State, dx: i16, dy: i16, usb: Usb, layout: Layout, other: int)
    requires |s.keys| <= MAX_KEYS && usb.mounted && -3 <= other <= 3
    ensures var s' := Exec(s, MouseWheel(dx, dy), usb, layout);
            var sends := usb.first == 0 || s.pointer.buttons != s.pointer.sentButtons;
            && (sends ==> |s'.sent| == |s.sent| + 1 && s.sent <= s'.sent && s'.pointer.wheel == 0 &&
                          LastMouse(s'.sent).MouseReport?)
            && (!sends ==> s'.sent == s.sent)
            && var v := if sends then LastMouse(s'.sent).wheel else s'.pointer.wheel;
               -3 <= v <= 3 && Distance(v, dy) <= Distance(other, dy)
  {
    SeenAfter(s.sent, PointerReport(s.pointer.(wheel := Damp(dy))));
    assert s.sent + [] == s.sent;
  }

  // ---- reports without news, the jiggle, settings ----

  /** An ENTER without modifiers reports exactly if position, buttons or wheel are news to the host. */
  lemma EnterReportsNews(s: State, x: u16, y: u16, usb: Usb, layout: Layout)
    requires |s.keys| <= MAX_KEYS && usb.mounted && usb.first == 0
    ensures var p := s.pointer;
            Exec(s, Enter(x, y, 0), usb, layout).sent == s.sent <==>
            && ToHid(p.width, x) == p.sentX && ToHid(p.height, y) == p.sentY
            && p.buttons == p.sentButtons && p.wheel == 0
  {
    var p := s.pointer.(targetX := x, targetY := y);
    assert s.sent + [] == s.sent;
    assert |s.sent + [PointerReport(p)]| == |s.sent| + 1;
  }

  /** With its reports accepted, a jiggle first takes the host to the neighbouring pixel and then to the target. */
  lemma JiggleMovesHost(s: State, usb: Usb, layout: Layout)
    requires |s.keys| <= MAX_KEYS && usb.mounted && usb.first == usb.second == 0 && HostAgrees(s)
    ensures var p := s.pointer;
            var aside := s.(sent := s.sent + Once(p.(targetX := JiggleTo(p.targetX, p.width)), 0).1);
            var s' := Exec(s, Jiggle, usb, layout);
            && LastMouse(aside.sent).MouseReport? && LastMouse(s'.sent).MouseReport?
            && aside.sent <= s'.sent && s.sent <= aside.sent
            && LastMouse(aside.sent).x == ToHid(p.width, JiggleTo(p.targetX, p.width))
            && LastMouse(s'.sent).x == ToHid(p.width, p.targetX) && LastMouse(s'.sent).y == ToHid(p.height, p.targetY)
  {
    var p := s.pointer;
    var q := p.(targetX := JiggleTo(p.targetX, p.width));
    var aside := Point(s, Once(q, 0));
    OnceSeen(s, q);
    OnceSeen(aside, aside.pointer.(targetX := p.targetX));
  }

  /** Settings take effect as given; CONNECTED and key repeats have none. */
  lemma SettingsTakeEffect(s: State, w: u16, h: u16, scaling: u16, usb: Usb, layout: Layout)
    requires |s.keys| <= MAX_KEYS && usb.mounted
    ensures var p := Exec(s, SetScreenSize(w, h), usb, layout).pointer;
            p == s.pointer.(width := p.width, height := p.height) && p.width == w && p.height == h
    ensures Exec(s, SetScaling(scaling), usb, layout).scaling == scaling
    ensures Exec(s, Connected, usb, layout) == s == Exec(s, KeyRepeat, usb, layout)
  {
  }
}
