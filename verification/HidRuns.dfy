/** What the HID task's command interpreter guarantees over whole command sequences. */
module HidRuns {
  import opened HidScaling
  import opened Commands
  import opened Keycodes
  import opened HidInterpreter

  /** A dequeued command and how USB answers while it is handled. */
  datatype Step = Step(cmd: Cmd, usb: Usb)

  function RunAll(s: State, steps: seq<Step>, layout: Layout): (s': State)
    requires |s.keys| <= MAX_KEYS
    ensures |s'.keys| <= MAX_KEYS
    decreases |steps|
  {
    if steps == [] then s else RunAll(Exec(s, steps[0].cmd, steps[0].usb, layout), steps[1..], layout)
  }

  // ---- key tracking ----

  lemma DownRefinesSet(keys: seq<u16>, key: u16)
    requires Tracks(keys)
    ensures Tracks(TrackDown(keys, key))
    ensures KeySet(TrackDown(keys, key)) == if |keys| < MAX_KEYS then KeySet(keys) + {key} else KeySet(keys)
  {
  }

  lemma SwapRemoveIsRemoval(keys: seq<u16>, i: nat)
    requires Tracks(keys) && i < |keys|
    ensures Tracks(SwapRemove(keys, i)) && KeySet(SwapRemove(keys, i)) == KeySet(keys) - {keys[i]}
  {
    var last := |keys| - 1;
    var removed := SwapRemove(keys, i);
    assert forall j :: 0 <= j < last ==> removed[j] == if j == i then keys[last] else keys[j];
    forall k | k in KeySet(keys) - {keys[i]}
      ensures k in removed
    {
      var j :| 0 <= j < |keys| && keys[j] == k;
      assert removed[if j == last then i else j] == k;
    }
  }

  /** Key-up on the slot array is set removal when the key is tracked, and release of everything when it is not. */
  lemma UpRefinesSet(keys: seq<u16>, key: u16)
    requires Tracks(keys)
    ensures Tracks(TrackUp(keys, key))
    ensures KeySet(TrackUp(keys, key)) == if key in keys then KeySet(keys) - {key} else {}
  {
    if key in keys {
      SwapRemoveIsRemoval(keys, IndexOf(keys, key));
    }
  }

  /** The keys that are physically down according to the sender. */
  function Sent(held: set<u16>, cmd: Cmd): set<u16> {
    match cmd
    case KeyDown(key, _) => held + {key}
    case KeyUp(key, _) => held - {key}
    case Leave => {}
    case Disconnected => {}
    case _ => held
  }

  /** The same according to the executed commands alone. */
  function Held(held: set<u16>, step: Step): set<u16> {
    if step.usb.mounted then Sent(held, step.cmd) else held
  }

  function HeldAfter(held: set<u16>, steps: seq<Step>): set<u16>
    decreases |steps|
  {
    if steps == [] then held else HeldAfter(Held(held, steps[0]), steps[1..])
  }

  /** The guard under which one step keeps the tracker exact: no more than six keys at once, and no key-up
      for a key that is not held. */
  predicate Orderly(held: set<u16>, step: Step) {
    step.usb.mounted ==>
      match step.cmd
      case KeyDown(key, _) => |held + {key}| <= MAX_KEYS
      case KeyUp(key, _) => key in held || held == {}
      case _ => true
  }

  predicate OrderlyRun(held: set<u16>, steps: seq<Step>)
    decreases |steps|
  {
    steps == [] || (Orderly(held, steps[0]) && OrderlyRun(Held(held, steps[0]), steps[1..]))
  }

  lemma {:induction false} DistinctCardinality(keys: seq<u16>)
    requires Distinct(keys)
    ensures |KeySet(keys)| == |keys|
    decreases |keys|
  {
    if keys != [] {
      var last := |keys| - 1;
      DistinctCardinality(keys[..last]);
      assert KeySet(keys) == KeySet(keys[..last]) + {keys[last]};
    }
  }

  /** What a handled command does to the tracked keys. */
  function KeysAfter(keys: seq<u16>, cmd: Cmd): (tracked: seq<u16>)
    ensures |keys| <= MAX_KEYS ==> |tracked| <= MAX_KEYS
  {
    match cmd
    case KeyDown(key, _) => TrackDown(keys, key)
    case KeyUp(key, _) => TrackUp(keys, key)
    case Leave => []
    case Disconnected => []
    case _ => keys
  }

  lemma ExecKeys(s: State, step: Step, layout: Layout)
    requires |s.keys| <= MAX_KEYS
    ensures Exec(s, step.cmd, step.usb, layout).keys ==
            if step.usb.mounted then KeysAfter(s.keys, step.cmd) else s.keys
  {
  }

  /** One step keeps a tracker exact with respect to the executed commands if and only if it is orderly. */
  lemma ExactStepIff(s: State, step: Step, layout: Layout)
    requires Tracks(s.keys)
    ensures var held := KeySet(s.keys);
            KeySet(Exec(s, step.cmd, step.usb, layout).keys) == Held(held, step) <==> Orderly(held, step)
  {
    ExecKeys(s, step, layout);
    DistinctCardinality(s.keys);
    var held := KeySet(s.keys);
    if step.usb.mounted {
      match step.cmd {
        case KeyDown(key, _) =>
          DownRefinesSet(s.keys, key);
          if key in held {
            assert held + {key} == held;
          }
        case KeyUp(key, _) =>
          UpRefinesSet(s.keys, key);
          if key !in held {
            assert held - {key} == held;
          }
        case _ =>
      }
    }
  }

  /** The guard under which the tracker follows the sender: handled commands are orderly, and commands dropped
      because the device is unmounted would have changed nothing. */
  predicate Followed(held: set<u16>, step: Step) {
    if step.usb.mounted then Orderly(held, step)
    else match step.cmd
      case KeyDown(key, _) => key in held
      case KeyUp(key, _) => key !in held
      case Leave => held == {}
      case Disconnected => held == {}
      case _ => true
  }

  predicate FollowedRun(held: set<u16>, steps: seq<Step>)
    decreases |steps|
  {
    steps == [] || (Followed(held, steps[0]) && FollowedRun(Sent(held, steps[0].cmd), steps[1..]))
  }

  /** One step keeps the tracker equal to what the sender holds if and only if it is followed. */
  lemma SenderStepIff(s: State, step: Step, layout: Layout)
    requires Tracks(s.keys)
    ensures var held := KeySet(s.keys);
            KeySet(Exec(s, step.cmd, step.usb, layout).keys) == Sent(held, step.cmd) <==> Followed(held, step)
  {
    ExactStepIff(s, step, layout);
    ExecKeys(s, step, layout);
    var held := KeySet(s.keys);
    if !step.usb.mounted && step.cmd.KeyDown? {
      assert step.cmd.key in held + {step.cmd.key};
    } else if !step.usb.mounted && step.cmd.KeyUp? {
      assert step.cmd.key !in held - {step.cmd.key};
    }
  }

  /** After every command of a run the tracked keys are those the sender holds. */
  ghost predicate TracksSender(s: State, steps: seq<Step>, held: set<u16>, layout: Layout)
    requires |s.keys| <= MAX_KEYS
    decreases |steps|
  {
    KeySet(s.keys) == held &&
    (steps == [] ||
     TracksSender(Exec(s, steps[0].cmd, steps[0].usb, layout), steps[1..], Sent(held, steps[0].cmd), layout))
  }

  lemma {:induction false} TracksSenderIff(s: State, steps: seq<Step>, layout: Layout)
    requires Tracks(s.keys)
    ensures TracksSender(s, steps, KeySet(s.keys), layout) <==> FollowedRun(KeySet(s.keys), steps)
    decreases |steps|
  {
    if steps != [] {
      var step := steps[0];
      SenderStepIff(s, step, layout);
      StepTracks(s, step, layout);
      if Followed(KeySet(s.keys), step) {
        TracksSenderIff(Exec(s, step.cmd, step.usb, layout), steps[1..], layout);
      }
    }
  }

  lemma StepTracks(s: State, step: Step, layout: Layout)
    requires Tracks(s.keys)
    ensures Tracks(Exec(s, step.cmd, step.usb, layout).keys)
    ensures KeySet(Exec(s, step.cmd, step.usb, layout).keys) <= Held(KeySet(s.keys), step)
  {
    ExecKeys(s, step, layout);
    if step.cmd.KeyDown? {
      DownRefinesSet(s.keys, step.cmd.key);
    } else if step.cmd.KeyUp? {
      UpRefinesSet(s.keys, step.cmd.key);
    }
  }

  /** No phantom keys: whatever is executed, the array keeps its shape and tracks only keys that are held. */
  lemma {:induction false} NoPhantomKeys(s: State, steps: seq<Step>, held: set<u16>, layout: Layout)
    requires Tracks(s.keys) && KeySet(s.keys) <= held
    ensures var s' := RunAll(s, steps, layout);
            Tracks(s'.keys) && KeySet(s'.keys) <= HeldAfter(held, steps)
    decreases |steps|
  {
    if steps != [] {
      var step := steps[0];
      StepTracks(s, step, layout);
      NoPhantomKeys(Exec(s, step.cmd, step.usb, layout), steps[1..], Held(held, step), layout);
    }
  }

  /** Over an orderly run the tracked keys are exactly the held ones. */
  lemma {:induction false} OrderlyRunIsExact(s: State, steps: seq<Step>, layout: Layout)
    requires Tracks(s.keys) && OrderlyRun(KeySet(s.keys), steps)
    ensures KeySet(RunAll(s, steps, layout).keys) == HeldAfter(KeySet(s.keys), steps)
    decreases |steps|
  {
    if steps != [] {
      var step := steps[0];
      ExactStepIff(s, step, layout);
      StepTracks(s, step, layout);
      OrderlyRunIsExact(Exec(s, step.cmd, step.usb, layout), steps[1..], layout);
    }
  }

  /** A key-up that is dequeued while the device is unmounted is lost: the key stays tracked. */
  lemma DroppedUpLeavesPhantom(s: State, layout: Layout)
    requires s.keys == []
    ensures var steps := [Step(KeyDown(97, 0), Usb(true, 0, 0, 0)), Step(KeyUp(97, 0), Usb(false, 0, 0, 0))];
            RunAll(s, steps, layout).keys == [97]
  {
  }

  // ---- keyboard reports ----

  /** What a keyboard report must say about a set of tracked keys: modifier bits for the usages 0xE0 to 0xE7, slots for
      all others; key 0 has no usage. */
  ghost predicate Shows(report: seq<bv8>, mask: bv16, keys: set<u16>, layout: Layout) {
    && |report| == 8 && report[1] == 0
    && (forall i: bv8 :: i < 8 ==>
          (Bit(report[0], i) <==>
           Bit(MaskToModifier(mask), i) || exists k :: k in keys && k != 0 && layout(k) == 0xE0 + i))
    && (forall usage: bv8 :: usage != 0 ==>
          (usage in report[2..] <==>
           !(0xE0 <= usage <= 0xE7) && exists k :: k in keys && k != 0 && layout(k) == usage))
  }

  lemma NoBitOfZero(i: bv8)
    requires i < 8
    ensures !Bit(0, i)
  {
  }

  lemma UsageInRange(i: bv8)
    requires i < 8
    ensures IsModifier(0xE0 + i)
  {
  }

  lemma MergeBit(a: bv8, b: bv8, i: bv8)
    requires i < 8
    ensures Bit(Merge(a, b), i) <==> Bit(a, i) || Bit(b, i)
  {
    BitOr(a, b, i);
  }

  lemma KeyModifierBit(key: u16, layout: Layout, i: bv8)
    requires i < 8
    ensures Bit(KeyModifier(key, layout), i) <==> Usage(key, layout) == 0xE0 + i
  {
  }

  lemma {:induction false} ModifiersBit(keys: seq<u16>, layout: Layout, i: bv8)
    requires i < 8
    ensures Bit(Modifiers(keys, layout), i) <==> exists j :: 0 <= j < |keys| && Usage(keys[j], layout) == 0xE0 + i
    decreases |keys|
  {
    if keys == [] {
      NoBitOfZero(i);
    } else {
      var last := |keys| - 1;
      ModifiersBit(keys[..last], layout, i);
      MergeBit(Modifiers(keys[..last], layout), KeyModifier(keys[last], layout), i);
      KeyModifierBit(keys[last], layout, i);
      assert (exists j :: 0 <= j < |keys| && Usage(keys[j], layout) == 0xE0 + i) <==>
             (exists j :: 0 <= j < last && Usage(keys[..last][j], layout) == 0xE0 + i)
             || Usage(keys[last], layout) == 0xE0 + i;
    }
  }

  lemma KeyboardBytesShow(keys: seq<u16>, mask: bv16, layout: Layout)
    requires |keys| <= MAX_KEYS
    ensures Shows(KeyboardBytes(Slots(keys), mask, layout), mask, KeySet(keys), layout)
  {
    var slots := Slots(keys);
    var report := KeyboardBytes(slots, mask, layout);
    assert forall j :: |keys| <= j < |slots| ==> Usage(slots[j], layout) == 0;
    forall i: bv8 | i < 8
      ensures Bit(report[0], i) <==>
              Bit(MaskToModifier(mask), i) || exists k :: k in KeySet(keys) && Usage(k, layout) == 0xE0 + i
    {
      UsageInRange(i);
      MergeBit(MaskToModifier(mask), Modifiers(slots, layout), i);
      ModifiersBit(slots, layout, i);
      if exists k :: k in KeySet(keys) && Usage(k, layout) == 0xE0 + i {
        var k :| k in KeySet(keys) && Usage(k, layout) == 0xE0 + i;
        var j :| 0 <= j < |keys| && keys[j] == k;
        assert slots[j] == k;
      }
      if exists j :: 0 <= j < |slots| && Usage(slots[j], layout) == 0xE0 + i {
        var j :| 0 <= j < |slots| && Usage(slots[j], layout) == 0xE0 + i;
        assert slots[j] in KeySet(keys);
      }
    }
    forall usage: bv8 | usage != 0
      ensures usage in report[2..] <==> !IsModifier(usage) && exists k :: k in KeySet(keys) && Usage(k, layout) == usage
    {
      assert report[2..] == SlotCodes(slots, layout);
      if !IsModifier(usage) && exists k :: k in KeySet(keys) && Usage(k, layout) == usage {
        var k :| k in KeySet(keys) && Usage(k, layout) == usage;
        var j :| 0 <= j < |keys| && keys[j] == k;
        assert SlotCodes(slots, layout)[j] == usage;
      }
    }
  }

  /** The report accepted at the end of KEY_DOWN and KEY_UP shows exactly the keys tracked afterwards. */
  lemma KeyReportShowsTrackedKeys(s: State, cmd: Cmd, usb: Usb, layout: Layout)
    requires Tracks(s.keys) && usb.mounted && (cmd.KeyDown? || cmd.KeyUp?)
    ensures var s' := Exec(s, cmd, usb, layout);
            exists report :: s'.sent == s.sent + [KeyboardReport(report)]
                             && Shows(report, cmd.mask, KeySet(s'.keys), layout)
  {
    var keys := Exec(s, cmd, usb, layout).keys;
    KeyboardBytesShow(keys, cmd.mask, layout);
    var report := KeyboardBytes(Slots(keys), cmd.mask, layout);
    assert Exec(s, cmd, usb, layout).sent == s.sent + [KeyboardReport(report)];
  }

  // ---- what the host last saw ----

  function LastKeyboard(sent: seq<HidReport>): seq<bv8> {
    if sent == [] then RELEASED
    else if sent[|sent| - 1].KeyboardReport? then sent[|sent| - 1].bytes
    else LastKeyboard(sent[..|sent| - 1])
  }

  function LastMouse(sent: seq<HidReport>): HidReport {
    if sent == [] then MouseReport(0, 0, 0, 0)
    else if sent[|sent| - 1].MouseReport? then sent[|sent| - 1]
    else LastMouse(sent[..|sent| - 1])
  }

  lemma SeenAfter(sent: seq<HidReport>, report: HidReport)
    ensures LastKeyboard(sent + [report]) == if report.KeyboardReport? then report.bytes else LastKeyboard(sent)
    ensures LastMouse(sent + [report]) == if report.MouseReport? then report else LastMouse(sent)
  {
  }

  /** last_sent_* describe the last mouse report the host accepted. */
  ghost predicate HostAgrees(s: State) {
    var last := LastMouse(s.sent);
    last.MouseReport? && last.x == s.pointer.sentX && last.y == s.pointer.sentY && last.buttons == s.pointer.sentButtons
  }

  /** One more mouse report that `Once` may send: the host then agrees with what was sent. */
  lemma OnceSeen(s: State, p: Pointer)
    requires HostAgrees(s) && p.sentX == s.pointer.sentX && p.sentY == s.pointer.sentY
    requires p.sentButtons == s.pointer.sentButtons
    ensures var s' := Point(s, Once(p, 0));
            HostAgrees(s') && AlreadySent(s'.pointer) && LastKeyboard(s'.sent) == LastKeyboard(s.sent)
  {
    SeenAfter(s.sent, PointerReport(p));
    assert s.sent + [] == s.sent;
  }

  /** After an ENTER whose mouse report is not refused the host's pointer stands at the entry point, and with
      modifiers held its last keyboard report shows exactly those modifiers and no key, tracked ones included. */
  lemma EnterReachesHost(s: State, x: u16, y: u16, mask: bv16, usb: Usb, layout: Layout)
    requires |s.keys| <= MAX_KEYS && usb.mounted && usb.first == 0 && HostAgrees(s)
    ensures var s' := Exec(s, Enter(x, y, mask), usb, layout);
            var host := LastMouse(s'.sent);
            && s'.pointer.targetX == x && s'.pointer.targetY == y && s'.keys == s.keys
            && host.MouseReport? && host.buttons == s'.pointer.buttons
            && host.x == ToHid(s'.pointer.width, x) && host.y == ToHid(s'.pointer.height, y)
            && LastKeyboard(s'.sent) ==
                 if mask == 0 then LastKeyboard(s.sent) else [MaskToModifier(mask), 0, 0, 0, 0, 0, 0, 0]
  {
    var p := s.pointer.(targetX := x, targetY := y);
    OnceSeen(s, p);
    SeenAfter(Point(s, Once(p, 0)).sent, KeyboardReport([MaskToModifier(mask), 0, 0, 0, 0, 0, 0, 0]));
  }

  /** A jiggle leaves the target where it was. */
  lemma JiggleRestoresTarget(s: State, usb: Usb, layout: Layout)
    requires |s.keys| <= MAX_KEYS && usb.mounted
    ensures var p, q := s.pointer, Exec(s, Jiggle, usb, layout).pointer;
            q.targetX == p.targetX && q.targetY == p.targetY && q.buttons == p.buttons
    ensures usb.second == 0 ==> AlreadySent(Exec(s, Jiggle, usb, layout).pointer)
  {
  }

  /** LEAVE leaves nothing pressed: not tracked, not on the host's keyboard, no button held. */
  lemma LeaveReleases(s: State, usb: Usb, layout: Layout)
    requires |s.keys| <= MAX_KEYS && usb.mounted
    ensures var s' := Exec(s, Leave, usb, layout);
            LastKeyboard(s'.sent) == RELEASED && s'.keys == [] && s'.pointer.buttons == 0 && s'.pointer.wheel == 0
  {
  }

  // ---- wheel delivery ----

  function Magnitude(v: int): nat {
    if v < 0 then -v else v
  }

  function WheelOf(report: HidReport): nat {
    if report.MouseReport? then Magnitude(report.wheel) else 0
  }

  /** Total wheel magnitude the host has received. */
  function Delivered(sent: seq<HidReport>): nat {
    if sent == [] then 0 else Delivered(sent[..|sent| - 1]) + WheelOf(sent[|sent| - 1])
  }

  function One(b: bool): nat {
    if b then 1 else 0
  }

  /** How many accepted reports carried a wheel value. */
  function Scrolls(sent: seq<HidReport>): nat {
    if sent == [] then 0 else Scrolls(sent[..|sent| - 1]) + One(WheelOf(sent[|sent| - 1]) != 0)
  }

  /** How one stretch of execution may change what the host has: last_sent_* keep describing the last
      accepted report, and `wheels` wheel commands account for all wheel movement that is delivered. */
  ghost predicate Accounted(s: State, s': State, wheels: nat) {
    && (HostAgrees(s) ==> HostAgrees(s'))
    && Delivered(s'.sent) + Magnitude(s'.pointer.wheel) <= Delivered(s.sent) + Magnitude(s.pointer.wheel) + 3 * wheels
    && Scrolls(s'.sent) + One(s'.pointer.wheel != 0) <= Scrolls(s.sent) + One(s.pointer.wheel != 0) + wheels
  }

  lemma CountAfter(sent: seq<HidReport>, report: HidReport)
    ensures Delivered(sent + [report]) == Delivered(sent) + WheelOf(report)
    ensures Scrolls(sent + [report]) == Scrolls(sent) + One(WheelOf(report) != 0)
  {
  }

  lemma KeyboardAccounted(s: State, keys: seq<u16>, bytes: seq<bv8>)
    ensures Accounted(s, s.(keys := keys, sent := s.sent + [KeyboardReport(bytes)]), 0)
  {
  }

  ghost predicate SameSent(p: Pointer, q: Pointer) {
    p.sentX == q.sentX && p.sentY == q.sentY && p.sentButtons == q.sentButtons
  }

  /** A pointer report moves the pending wheel value to the host, or leaves it pending. */
  lemma PointAccounted(s: State, p: Pointer, out: (Pointer, seq<HidReport>), wheels: nat)
    requires out == (p, []) || out == (AfterReport(p), [PointerReport(p)])
    requires SameSent(p, s.pointer)
    requires p.wheel == s.pointer.wheel || p.wheel == 0 || (wheels == 1 && -3 <= p.wheel <= 3)
    ensures Accounted(s, Point(s, out), wheels)
  {
    if out.1 == [] {
      assert s.sent + out.1 == s.sent;
    } else {
      SeenAfter(s.sent, PointerReport(p));
      CountAfter(s.sent, PointerReport(p));
    }
  }

  lemma MouseAccounted(s: State, cmd: Cmd, usb: Usb)
    requires cmd.MouseDown? || cmd.MouseUp? || cmd.MouseWheel?
    ensures Accounted(s, ExecMouse(s, cmd, usb), One(cmd.MouseWheel?))
  {
    var p := s.pointer;
    var q := match cmd
      case MouseDown(b) => p.(buttons := PressButton(p.buttons, b))
      case MouseUp(b) => p.(buttons := ReleaseButton(p.buttons, b))
      case MouseWheel(_, dy) => p.(wheel := Damp(dy));
    PointAccounted(s, q, Retry(q, usb.first), One(cmd.MouseWheel?));
  }

  lemma EnterAccounted(s: State, cmd: Cmd, usb: Usb)
    requires cmd.Enter?
    ensures Accounted(s, ExecEnter(s, cmd, usb), 0)
  {
    var q := s.pointer.(targetX := cmd.x, targetY := cmd.y);
    var moved := Point(s, Once(q, usb.first));
    PointAccounted(s, q, Once(q, usb.first), 0);
    KeyboardAccounted(moved, moved.keys, [MaskToModifier(cmd.mask), 0, 0, 0, 0, 0, 0, 0]);
  }

  lemma LeaveAccounted(s: State, usb: Usb)
    ensures Accounted(s, ExecLeave(s, usb), 0)
  {
    var released := s.(keys := [], sent := s.sent + [KeyboardReport(RELEASED)]);
    KeyboardAccounted(s, [], RELEASED);
    var q := s.pointer.(buttons := 0, wheel := 0);
    PointAccounted(released, q, Once(q, usb.first), 0);
  }

  lemma JiggleAccounted(s: State, usb: Usb)
    ensures Accounted(s, ExecJiggle(s, usb), 0)
  {
    var p := s.pointer;
    var q := p.(targetX := JiggleTo(p.targetX, p.width));
    var out := Point(s, Once(q, usb.first));
    PointAccounted(s, q, Once(q, usb.first), 0);
    var r := out.pointer.(targetX := p.targetX);
    PointAccounted(out, r, Once(r, usb.second), 0);
  }

  lemma ExecAccounted(s: State, step: Step, layout: Layout)
    requires |s.keys| <= MAX_KEYS
    ensures Accounted(s, Exec(s, step.cmd, step.usb, layout), One(step.usb.mounted && step.cmd.MouseWheel?))
  {
    if step.usb.mounted {
      match step.cmd {
        case KeyDown(key, mask) =>
          var keys := TrackDown(s.keys, key);
          KeyboardAccounted(s, keys, KeyboardBytes(Slots(keys), mask, layout));
        case KeyUp(key, mask) =>
          var keys := TrackUp(s.keys, key);
          KeyboardAccounted(s, keys, KeyboardBytes(Slots(keys), mask, layout));
        case MouseDown(_) => MouseAccounted(s, step.cmd, step.usb);
        case MouseUp(_) => MouseAccounted(s, step.cmd, step.usb);
        case MouseWheel(_, _) => MouseAccounted(s, step.cmd, step.usb);
        case Enter(_, _, _) => EnterAccounted(s, step.cmd, step.usb);
        case Leave => LeaveAccounted(s, step.usb);
        case Jiggle => JiggleAccounted(s, step.usb);
        case _ =>
      }
    }
  }

  function Wheels(steps: seq<Step>): nat
    decreases |steps|
  {
    if steps == [] then 0 else One(steps[0].usb.mounted && steps[0].cmd.MouseWheel?) + Wheels(steps[1..])
  }

  lemma {:induction false} RunAccounted(s: State, steps: seq<Step>, layout: Layout)
    requires |s.keys| <= MAX_KEYS
    ensures Accounted(s, RunAll(s, steps, layout), Wheels(steps))
    decreases |steps|
  {
    if steps != [] {
      ExecAccounted(s, steps[0], layout);
      RunAccounted(Exec(s, steps[0].cmd, steps[0].usb, layout), steps[1..], layout);
    }
  }

  /** Wheel values are never duplicated: whatever is refused in between, at most one accepted report per
      executed wheel command carries a wheel value, and at most 3 units per wheel command reach the host. */
  lemma WheelNotDuplicated(boot: State, steps: seq<Step>, layout: Layout)
    requires boot.keys == [] && boot.sent == [] && boot.pointer.wheel == 0
    ensures var sent := RunAll(boot, steps, layout).sent;
            Delivered(sent) <= 3 * Wheels(steps) && Scrolls(sent) <= Wheels(steps)
  {
    RunAccounted(boot, steps, layout);
  }
}
