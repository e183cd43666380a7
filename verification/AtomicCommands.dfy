/** The step machine of TwoTask and the interpreter of HidInterpreter are models of the same loop: left alone, the
    step machine takes every dequeued command to the state the interpreter computes. */
module AtomicCommands {
  import opened HidScaling
  import opened Commands
  import opened TwoTask
  import HidInterpreter
  import Keycodes

  function PointerOf(s: State): HidInterpreter.Pointer {
    HidInterpreter.Pointer(s.mem.targetX, s.mem.targetY, s.dev.width, s.dev.height, s.dev.buttons, s.dev.wheel,
                           s.dev.sentX, s.dev.sentY, s.dev.sentButtons)
  }

  /** What a command must leave alone: the network task, the flag and the queue. */
  predicate Undisturbed(s: State, t: State) {
    t.net == s.net && t.mem.pending == s.mem.pending && t.mem.queue == s.mem.queue && t.mem.session == s.mem.session
  }

  function Step(accepted: bool): Event {
    Hid(HidEnv(accepted, true, false, false))
  }

  /** Only the HID task and the USB stack move. */
  predicate Alone(events: seq<Event>) {
    forall e <- events :: !e.Net?
  }

  /** Each refusal is followed by a USB completion, which wakes the task for the next attempt. */
  function Refused(n: nat): seq<Event> {
    if n == 0 then [] else [Step(false), UsbComplete, Step(false)] + Refused(n - 1)
  }

  lemma {:induction false} RefusedAlone(n: nat)
    ensures Alone(Refused(n))
  {
    if n > 0 {
      RefusedAlone(n - 1);
    }
  }

  /** However often a blocking report is refused, the task comes back to the same attempt. */
  lemma {:induction false} RefusedSteps(s: State, n: nat)
    requires s.hid.Keyboard? || (s.hid.Retry? && s.hid.important)
    ensures var t := Run(s, Refused(n));
            t == s.(mem := s.mem.(notified := s.mem.notified && n == 0))
    decreases n
  {
    if n > 0 {
      var once := [Step(false), UsbComplete, Step(false)];
      RunThree(s, Step(false), UsbComplete, Step(false));
      RunConcat(s, once, Refused(n - 1));
      RefusedSteps(s.(mem := s.mem.(notified := false)), n - 1);
    }
  }

  lemma KeyboardSteps(s: State, refusals: nat) returns (events: seq<Event>)
    requires s.hid.Keyboard?
    ensures Alone(events) && Undisturbed(s, Run(s, events))
    ensures var t := Run(s, events);
            if s.hid.leaving
            then t.hid == ReadX(ToTop) && PointerOf(t) == PointerOf(s).(buttons := 0, wheel := 0)
            else t.hid == Top && PointerOf(t) == PointerOf(s)
  {
    RefusedAlone(refusals);
    RefusedSteps(s, refusals);
    events := Refused(refusals) + [Step(true)];
    RunConcat(s, Refused(refusals), [Step(true)]);
    assert [Step(true)] == [Step(true)] + [];
    RunOne(Run(s, Refused(refusals)), Step(true), []);
  }

  lemma OnceSteps(s: State, refusals: nat) returns (events: seq<Event>)
    requires s.hid.ReadX?
    ensures Alone(events) && Undisturbed(s, Run(s, events))
    ensures Run(s, events).hid == Continue(s.hid.after)
    ensures PointerOf(Run(s, events)) == HidInterpreter.Once(PointerOf(s), refusals).0
  {
    var e := Step(refusals == 0);
    events := [e, e, e];
    RunThree(s, e, e, e);
  }

  /** With the buttons unchanged there is one attempt. */
  lemma UnimportantSteps(s: State, refusals: nat) returns (events: seq<Event>)
    requires s.hid == RetryReadX && s.dev.buttons == s.dev.sentButtons
    ensures Alone(events) && Undisturbed(s, Run(s, events)) && Run(s, events).hid == Top
    ensures PointerOf(Run(s, events)) == HidInterpreter.Retry(PointerOf(s), refusals).0
  {
    var e := Step(refusals == 0);
    events := [e, e, e];
    RunThree(s, e, e, e);
  }

  /** Otherwise attempts follow until one is accepted. */
  lemma ImportantAttempts(s: State, refusals: nat) returns (events: seq<Event>)
    requires s.hid.Retry? && s.hid.important
    ensures Alone(events) && Undisturbed(s, Run(s, events)) && Run(s, events).hid == Top
    ensures Run(s, events).dev == Reported(s.dev, s.hid.hx, s.hid.hy)
    ensures Run(s, events).mem.targetX == s.mem.targetX && Run(s, events).mem.targetY == s.mem.targetY
  {
    var e := Step(true);
    RefusedAlone(refusals);
    RefusedSteps(s, refusals);
    events := Refused(refusals) + [e];
    RunConcat(s, Refused(refusals), [e]);
    assert [e] == [e] + [];
    RunOne(Run(s, Refused(refusals)), e, []);
  }

  lemma ImportantSteps(s: State, refusals: nat) returns (events: seq<Event>)
    requires s.hid == RetryReadX && s.dev.buttons != s.dev.sentButtons
    ensures Alone(events) && Undisturbed(s, Run(s, events)) && Run(s, events).hid == Top
    ensures PointerOf(Run(s, events)) == HidInterpreter.Retry(PointerOf(s), refusals).0
  {
    var e := Step(true);
    var t := Next(Next(s, e), e);
    var attempts := ImportantAttempts(t, refusals);
    events := [e] + ([e] + attempts);
    RunOne(s, e, [e] + attempts);
    RunOne(Next(s, e), e, attempts);
  }

  lemma RetrySteps(s: State, refusals: nat) returns (events: seq<Event>)
    requires s.hid == RetryReadX
    ensures Alone(events) && Undisturbed(s, Run(s, events)) && Run(s, events).hid == Top
    ensures PointerOf(Run(s, events)) == HidInterpreter.Retry(PointerOf(s), refusals).0
  {
    if s.dev.buttons == s.dev.sentButtons {
      events := UnimportantSteps(s, refusals);
    } else {
      events := ImportantSteps(s, refusals);
    }
  }

  lemma EnterSteps(s: State, usb: HidInterpreter.Usb) returns (events: seq<Event>)
    requires s.hid.EnterX?
    ensures Alone(events) && Undisturbed(s, Run(s, events)) && Run(s, events).hid == Top
    ensures PointerOf(Run(s, events)) ==
            HidInterpreter.Once(PointerOf(s).(targetX := s.hid.x, targetY := s.hid.y), usb.first).0
  {
    var e := Step(true);
    var t := Next(Next(s, e), e);
    var once := OnceSteps(t, usb.first);
    var u := Run(t, once);
    var more := [];
    if s.hid.keyboard {
      more := KeyboardSteps(u, usb.keyboard);
    }
    events := [e] + ([e] + (once + more));
    RunOne(s, e, [e] + (once + more));
    RunOne(Next(s, e), e, once + more);
    RunConcat(t, once, more);
  }

  /** The second half of a jiggle. */
  lemma BackSteps(s: State, refusals: nat) returns (events: seq<Event>)
    requires s.hid.BackX?
    ensures Alone(events) && Undisturbed(s, Run(s, events)) && Run(s, events).hid == Top
    ensures PointerOf(Run(s, events)) ==
            HidInterpreter.Once(PointerOf(s).(targetX := s.hid.x, targetY := s.hid.y), refusals).0
  {
    var e := Step(true);
    var t := Next(Next(s, e), e);
    var once := OnceSteps(t, refusals);
    events := [e] + ([e] + once);
    RunOne(s, e, [e] + once);
    RunOne(Next(s, e), e, once);
  }

  /** The first half: read the target, move it by one pixel. */
  lemma AsideSteps(s: State) returns (events: seq<Event>)
    requires s.hid == JiggleReadX
    ensures Alone(events)
    ensures Run(s, events) == s.(mem := s.mem.(targetX := JiggleTo(s.mem.targetX, s.dev.width)),
                                 hid := ReadX(ToMoveBack(s.mem.targetX, s.mem.targetY)))
  {
    var e := Step(true);
    events := [e] + [e, e, e];
    RunOne(s, e, [e, e, e]);
    RunThree(Next(s, e), e, e, e);
  }

  lemma JiggleSteps(s: State, usb: HidInterpreter.Usb) returns (events: seq<Event>)
    requires s.hid == JiggleReadX
    ensures Alone(events) && Undisturbed(s, Run(s, events)) && Run(s, events).hid == Top
    ensures var p := PointerOf(s);
            var out := HidInterpreter.Once(p.(targetX := JiggleTo(p.targetX, p.width)), usb.first).0;
            PointerOf(Run(s, events)) == HidInterpreter.Once(out.(targetX := p.targetX), usb.second).0
  {
    var aside := AsideSteps(s);
    var t := Run(s, aside);
    var once := OnceSteps(t, usb.first);
    var u := Run(t, once);
    var back := BackSteps(u, usb.second);
    events := aside + (once + back);
    RunConcat(s, aside, once + back);
    RunConcat(t, once, back);
  }

  /** Where the case that `s` is about to carry out leads the pointer. */
  function CaseOutcome(s: State, usb: HidInterpreter.Usb): HidInterpreter.Pointer {
    var p := PointerOf(s);
    match s.hid
    case Keyboard(leaving) =>
      if leaving then HidInterpreter.Once(p.(buttons := 0, wheel := 0), usb.first).0 else p
    case RetryReadX => HidInterpreter.Retry(p, usb.first).0
    case EnterX(x, y, _) => HidInterpreter.Once(p.(targetX := x, targetY := y), usb.first).0
    case JiggleReadX =>
      var out := HidInterpreter.Once(p.(targetX := JiggleTo(p.targetX, p.width)), usb.first).0;
      HidInterpreter.Once(out.(targetX := p.targetX), usb.second).0
    case ResizeY(h) => p.(height := h)
    case _ => p
  }

  /** The steps after the command switch. */
  lemma CaseSteps(s: State, usb: HidInterpreter.Usb) returns (events: seq<Event>)
    requires s.hid.Keyboard? || s.hid == RetryReadX || s.hid.EnterX? || s.hid == JiggleReadX || s.hid.ResizeY?
    ensures Alone(events) && Undisturbed(s, Run(s, events)) && Run(s, events).hid == Top
    ensures PointerOf(Run(s, events)) == CaseOutcome(s, usb)
  {
    match s.hid {
      case Keyboard(leaving) =>
        var keys := KeyboardSteps(s, usb.keyboard);
        var t := Run(s, keys);
        var once := [];
        if leaving {
          once := OnceSteps(t, usb.first);
        }
        events := keys + once;
        RunConcat(s, keys, once);
      case RetryReadX => events := RetrySteps(s, usb.first);
      case EnterX(_, _, _) => events := EnterSteps(s, usb);
      case JiggleReadX => events := JiggleSteps(s, usb);
      case ResizeY(_) =>
        events := [Step(true)] + [];
        RunOne(s, Step(true), []);
    }
  }

  /** The command switch, followed by its case, is the interpreter's step. */
  ghost predicate SwitchRefined(s: State, st: HidInterpreter.State, usb: HidInterpreter.Usb, layout: Keycodes.Layout)
    requires s.hid.Dispatch? && |st.keys| <= HidInterpreter.MAX_KEYS
  {
    var t := Next(s, Hid(HidEnv(true, usb.mounted, false, false)));
    && (t.hid == Top || t.hid.Keyboard? || t.hid == RetryReadX || t.hid.EnterX? || t.hid == JiggleReadX
        || t.hid.ResizeY?)
    && Undisturbed(s, t)
    && CaseOutcome(t, usb) == HidInterpreter.Exec(st, s.hid.cmd, usb, layout).pointer
  }

  predicate MovesPointer(cmd: Cmd) {
    cmd.MouseDown? || cmd.MouseUp? || cmd.MouseWheel? || cmd.Enter? || cmd.Jiggle?
  }

  lemma PointerSwitchRefines(s: State, st: HidInterpreter.State, usb: HidInterpreter.Usb, layout: Keycodes.Layout)
    requires s.hid.Dispatch? && st.pointer == PointerOf(s) && |st.keys| <= HidInterpreter.MAX_KEYS
    requires MovesPointer(s.hid.cmd)
    ensures SwitchRefined(s, st, usb, layout)
  {
  }

  lemma OtherSwitchRefines(s: State, st: HidInterpreter.State, usb: HidInterpreter.Usb, layout: Keycodes.Layout)
    requires s.hid.Dispatch? && st.pointer == PointerOf(s) && |st.keys| <= HidInterpreter.MAX_KEYS
    requires !MovesPointer(s.hid.cmd)
    ensures SwitchRefined(s, st, usb, layout)
  {
  }

  lemma SwitchRefines(s: State, st: HidInterpreter.State, usb: HidInterpreter.Usb, layout: Keycodes.Layout)
    requires s.hid.Dispatch? && st.pointer == PointerOf(s) && |st.keys| <= HidInterpreter.MAX_KEYS
    ensures SwitchRefined(s, st, usb, layout)
  {
    if MovesPointer(s.hid.cmd) {
      PointerSwitchRefines(s, st, usb, layout);
    } else {
      OtherSwitchRefines(s, st, usb, layout);
    }
  }

  /** Run alone, the step machine handles a dequeued command as the interpreter says, whatever USB answers. */
  lemma StepsRefineInterpreter(s: State, st: HidInterpreter.State, usb: HidInterpreter.Usb, layout: Keycodes.Layout)
    returns (events: seq<Event>)
    requires s.hid.Dispatch? && st.pointer == PointerOf(s) && |st.keys| <= HidInterpreter.MAX_KEYS
    ensures Alone(events) && Undisturbed(s, Run(s, events)) && Run(s, events).hid == Top
    ensures PointerOf(Run(s, events)) == HidInterpreter.Exec(st, s.hid.cmd, usb, layout).pointer
  {
    var e := Hid(HidEnv(true, usb.mounted, false, false));
    SwitchRefines(s, st, usb, layout);
    var t := Next(s, e);
    var more := [];
    if t.hid != Top {
      more := CaseSteps(t, usb);
    }
    events := [e] + more;
    RunOne(s, e, more);
  }

  // ---- conversely, every run of a case is one of the interpreter's ----

  /** The ends of send_abs_mouse_once from pointer state `p`: it reports, or it does not. */
  predicate OnceEnds(p: HidInterpreter.Pointer, q: HidInterpreter.Pointer) {
    q == HidInterpreter.Once(p, 0).0 || q == HidInterpreter.Once(p, 1).0
  }

  /** The pointer state after a report at given coordinates, or with nothing to report. */
  function ReportAt(p: HidInterpreter.Pointer, hx: u16, hy: u16): HidInterpreter.Pointer {
    if hx == p.sentX && hy == p.sentY && p.buttons == p.sentButtons && p.wheel == 0 then p
    else p.(sentX := hx, sentY := hy, sentButtons := p.buttons, wheel := 0)
  }

  predicate RetryEndsAt(p: HidInterpreter.Pointer, hx: u16, hy: u16, important: bool, q: HidInterpreter.Pointer) {
    || q == p.(sentX := hx, sentY := hy, sentButtons := p.buttons, wheel := 0)
    || (!important && q == p)
  }

  /** What the interpreter allows for the rest of a case after send_abs_mouse_once. */
  predicate MayEndAfter(after: After, p: HidInterpreter.Pointer, q: HidInterpreter.Pointer) {
    match after
    case ToQueue => false
    case ToTop => q == p
    case ToKeyboard => q == p
    case ToMoveBack(x, y) => OnceEnds(p.(targetX := x, targetY := y), q)
  }

  /** `q` is a pointer state in which the case carried out at `s` may end. */
  predicate MayEnd(s: State, q: HidInterpreter.Pointer) {
    var p := PointerOf(s);
    match s.hid
    case Top => q == p
    case Keyboard(leaving) => if leaving then OnceEnds(p.(buttons := 0, wheel := 0), q) else q == p
    case KeyboardWait(leaving) => if leaving then OnceEnds(p.(buttons := 0, wheel := 0), q) else q == p
    case RetryReadX => q == HidInterpreter.Retry(p, 0).0 || q == HidInterpreter.Retry(p, 1).0
    case RetryReadY(hx) => RetryEndsAt(p, hx, ToHid(p.height, p.targetY), p.buttons != p.sentButtons, q)
    case Retry(hx, hy, important) => RetryEndsAt(p, hx, hy, important, q)
    case RetryWait(hx, hy) => RetryEndsAt(p, hx, hy, true, q)
    case ReadX(after) => MayEndAt(after, p, ToHid(p.width, p.targetX), ToHid(p.height, p.targetY), q)
    case ReadY(after, hx) => MayEndAt(after, p, hx, ToHid(p.height, p.targetY), q)
    case TryOnce(after, hx, hy) => MayEndAt(after, p, hx, hy, q)
    case EnterX(x, y, _) => OnceEnds(p.(targetX := x, targetY := y), q)
    case EnterY(y, _) => OnceEnds(p.(targetY := y), q)
    case JiggleReadX => JiggleEnds(p, JiggleTo(p.targetX, p.width), p.targetX, p.targetY, q)
    case JiggleReadY(x) => JiggleEnds(p, JiggleTo(x, p.width), x, p.targetY, q)
    case JiggleX(x, y) => JiggleEnds(p, JiggleTo(x, p.width), x, y, q)
    case JiggleY(x, y) => JiggleEnds(p, p.targetX, x, y, q)
    case BackX(x, y) => OnceEnds(p.(targetX := x, targetY := y), q)
    case BackY(y) => OnceEnds(p.(targetY := y), q)
    case ResizeY(h) => q == p.(height := h)
    case _ => false
  }

  predicate MayEndAt(after: After, p: HidInterpreter.Pointer, hx: u16, hy: u16, q: HidInterpreter.Pointer) {
    MayEndAfter(after, p, q) || MayEndAfter(after, ReportAt(p, hx, hy), q)
  }

  /** Both reports of a jiggle that goes aside to `aside` and back to (x, y). */
  predicate JiggleEnds(p: HidInterpreter.Pointer, aside: u16, x: u16, y: u16, q: HidInterpreter.Pointer) {
    var moved := p.(targetX := aside, targetY := y);
    || OnceEnds(HidInterpreter.Once(moved, 0).0.(targetX := x, targetY := y), q)
    || OnceEnds(HidInterpreter.Once(moved, 1).0.(targetX := x, targetY := y), q)
  }

  lemma BlockingEnds(s: State, env: HidEnv, q: HidInterpreter.Pointer)
    requires Blocking(s.hid) && MayEnd(HidNext(s, env), q)
    ensures MayEnd(s, q)
  {
  }

  lemma ReadEnds(s: State, env: HidEnv, q: HidInterpreter.Pointer)
    requires (s.hid.ReadX? || s.hid.ReadY?) && MayEnd(HidNext(s, env), q)
    ensures MayEnd(s, q)
  {
  }

  /** After an attempt the case goes on from the pointer state with or without the report. */
  lemma TriedEnds(s: State, after: After, q: HidInterpreter.Pointer)
    requires s.hid == Continue(after) && MayEnd(s, q)
    ensures MayEndAfter(after, PointerOf(s), q)
  {
  }

  lemma TryEnds(s: State, env: HidEnv, q: HidInterpreter.Pointer)
    requires s.hid.TryOnce? && MayEnd(HidNext(s, env), q)
    ensures MayEnd(s, q)
  {
    TriedEnds(HidNext(s, env), s.hid.after, q);
    assert PointerOf(HidNext(s, env)) == PointerOf(s) ||
           PointerOf(HidNext(s, env)) == ReportAt(PointerOf(s), s.hid.hx, s.hid.hy);
  }

  lemma JiggleWriteEnds(s: State, env: HidEnv, q: HidInterpreter.Pointer)
    requires s.hid.JiggleReadX? || s.hid.JiggleReadY? || s.hid.JiggleX? || s.hid.JiggleY?
    ensures MayEnd(HidNext(s, env), q) ==> MayEnd(s, q)
  {
  }

  lemma WriteEnds(s: State, env: HidEnv, q: HidInterpreter.Pointer)
    requires s.hid.EnterX? || s.hid.EnterY? || s.hid.BackX? || s.hid.BackY? || s.hid.ResizeY?
    requires MayEnd(HidNext(s, env), q)
    ensures MayEnd(s, q)
  {
  }

  /** The events are those of one case: the task is back at the top of its loop after the last of them only. */
  predicate OneCase(s: State, events: seq<Event>)
    decreases |events|
  {
    if events == [] then s.hid == Top
    else !events[0].Net? && !InLoop(s.hid) && OneCase(Next(s, events[0]), events[1..])
  }

  lemma {:induction false} CaseMayEnd(s: State, events: seq<Event>)
    requires OneCase(s, events)
    ensures MayEnd(s, PointerOf(Run(s, events))) && Undisturbed(s, Run(s, events))
    decreases |events|
  {
    if events != [] {
      var e, q := events[0], PointerOf(Run(s, events));
      CaseMayEnd(Next(s, e), events[1..]);
      if e.Hid? {
        if Blocking(s.hid) {
          BlockingEnds(s, e.env, q);
        } else if s.hid.TryOnce? {
          TryEnds(s, e.env, q);
        } else if InOnce(s.hid) {
          ReadEnds(s, e.env, q);
        } else if s.hid.EnterX? || s.hid.EnterY? || s.hid.BackX? || s.hid.BackY? || s.hid.ResizeY? {
          WriteEnds(s, e.env, q);
        } else {
          JiggleWriteEnds(s, e.env, q);
        }
      }
    }
  }

  /** What may end is what the interpreter computes for some answers of USB. */
  lemma SomeOutcome(s: State, q: HidInterpreter.Pointer) returns (usb: HidInterpreter.Usb)
    requires MayEnd(s, q) && (s.hid == Top || s.hid.Keyboard? || s.hid == RetryReadX || s.hid.EnterX?
                              || s.hid == JiggleReadX || s.hid.ResizeY?)
    ensures usb.mounted && q == CaseOutcome(s, usb)
  {
    var choices := [HidInterpreter.Usb(true, 0, 0, 0), HidInterpreter.Usb(true, 0, 0, 1),
                    HidInterpreter.Usb(true, 0, 1, 0), HidInterpreter.Usb(true, 0, 1, 1)];
    if q == CaseOutcome(s, choices[0]) {
      usb := choices[0];
    } else if q == CaseOutcome(s, choices[1]) {
      usb := choices[1];
    } else if q == CaseOutcome(s, choices[2]) {
      usb := choices[2];
    } else {
      usb := choices[3];
    }
  }

  /** Every run that carries out a dequeued command without a network step, with any refusals, completions and
      timeouts, ends in a pointer state that the interpreter computes for some answers of USB. */
  lemma InterpreterCoversSteps(s: State, env: HidEnv, events: seq<Event>, st: HidInterpreter.State,
                               layout: Keycodes.Layout)
    returns (usb: HidInterpreter.Usb)
    requires s.hid.Dispatch? && st.pointer == PointerOf(s) && |st.keys| <= HidInterpreter.MAX_KEYS
    requires OneCase(HidNext(s, env), events)
    ensures var t := Run(s, [Hid(env)] + events);
            && t.hid == Top && Undisturbed(s, t)
            && PointerOf(t) == HidInterpreter.Exec(st, s.hid.cmd, usb, layout).pointer
    ensures usb.mounted == env.mounted
  {
    var t := HidNext(s, env);
    RunOne(s, Hid(env), events);
    CaseMayEnd(t, events);
    CaseEndsAtTop(t, events);
    usb := HidInterpreter.Usb(false, 0, 0, 0);
    if env.mounted {
      SwitchRefines(s, st, usb.(mounted := true), layout);
      usb := SomeOutcome(t, PointerOf(Run(t, events)));
      SwitchRefines(s, st, usb, layout);
    }
  }

  lemma {:induction false} CaseEndsAtTop(s: State, events: seq<Event>)
    requires OneCase(s, events)
    ensures Run(s, events).hid == Top && (s.hid == Top ==> events == [])
    decreases |events|
  {
    if events != [] {
      CaseEndsAtTop(Next(s, events[0]), events[1..]);
    }
  }
}
