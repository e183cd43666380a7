/** The queue side of the actuator: duplicate rejection and the bounded command queue
    (main/tusb/tusb_actuator.c). */
module QueueDedup {
  import opened HidScaling
  import opened Commands
  import opened HidInterpreter
  import Keycodes
  import opened HidRuns
  import opened HostKeyboard
  import opened HostMouse

  const DEDUP_MS: nat := 30

  datatype Kind = KindKeyDown | KindKeyUp | KindMouseDown | KindMouseUp

  /** The last_queued_* fields. */
  datatype Recent = Recent(
    kbKind: Kind, kbKey: u16, kbMask: bv16, kbTime: nat,
    btnKind: Kind, btnId: i8, btnTime: nat, wheelTime: nat)

  /** The zeroed fields after calloc; the zero kind is ACT_CMD_KEY_DOWN. */
  const FRESH: Recent := Recent(KindKeyDown, 0, 0, 0, KindKeyDown, 0, 0, 0)

  /** One call of an actuator_queue_* function, with the clock reading it makes. */
  datatype Event = Event(now: nat, cmd: Cmd)

  /** `now - then` on uint64_t: the time that has passed, for a clock that does not run backwards. */
  function Elapsed(now: nat, since: nat): (ms: nat)
    ensures since <= now < since + 0x1_0000_0000_0000_0000 ==> ms == now - since
  {
    (now - since) % 0x1_0000_0000_0000_0000
  }

  predicate Rejected(r: Recent, e: Event) {
    match e.cmd
    case KeyDown(key, mask) =>
      r.kbKind == KindKeyDown && r.kbKey == key && r.kbMask == mask && Elapsed(e.now, r.kbTime) < DEDUP_MS
    case KeyUp(key, mask) =>
      r.kbKind == KindKeyUp && r.kbKey == key && r.kbMask == mask && Elapsed(e.now, r.kbTime) < DEDUP_MS
    case MouseDown(id) => r.btnKind == KindMouseDown && r.btnId == id && Elapsed(e.now, r.btnTime) < DEDUP_MS
    case MouseUp(id) => r.btnKind == KindMouseUp && r.btnId == id && Elapsed(e.now, r.btnTime) < DEDUP_MS
    case MouseWheel(_, _) => Elapsed(e.now, r.wheelTime) < DEDUP_MS
    case KeyRepeat => true
    case _ => false
  }

  function Remember(r: Recent, e: Event): Recent {
    match e.cmd
    case KeyDown(key, mask) => r.(kbKind := KindKeyDown, kbKey := key, kbMask := mask, kbTime := e.now)
    case KeyUp(key, mask) => r.(kbKind := KindKeyUp, kbKey := key, kbMask := mask, kbTime := e.now)
    case MouseDown(id) => r.(btnKind := KindMouseDown, btnId := id, btnTime := e.now)
    case MouseUp(id) => r.(btnKind := KindMouseUp, btnId := id, btnTime := e.now)
    case MouseWheel(_, _) => r.(wheelTime := e.now)
    case _ => r
  }

  function Admit(r: Recent, e: Event): Recent {
    if Rejected(r, e) then r else Remember(r, e)
  }

  function AdmitAll(r: Recent, events: seq<Event>): Recent
    decreases |events|
  {
    if events == [] then r else AdmitAll(Admit(r, events[0]), events[1..])
  }

  /** The events that get past the duplicate check. */
  function Filter(r: Recent, events: seq<Event>): seq<Event>
    decreases |events|
  {
    if events == [] then []
    else
      var rest := Filter(Admit(r, events[0]), events[1..]);
      if Rejected(r, events[0]) then rest else [events[0]] + rest
  }

  // ---- what the commands mean for keys and buttons ----

  datatype Pressed = Pressed(keys: seq<u16>, buttons: bv8)

  function Apply(p: Pressed, cmd: Cmd): Pressed {
    Pressed(KeysAfter(p.keys, cmd), ButtonsAfter(p.buttons, cmd))
  }

  function Replay(p: Pressed, events: seq<Event>): Pressed
    decreases |events|
  {
    if events == [] then p else Replay(Apply(p, events[0].cmd), events[1..])
  }

  /** Apply is what the HID task does to its keys and buttons on a mounted device. */
  lemma ApplyIsExec(s: State, cmd: Cmd, usb: Usb, layout: Keycodes.Layout)
    requires |s.keys| <= MAX_KEYS && usb.mounted
    ensures var s' := Exec(s, cmd, usb, layout);
            Apply(Pressed(s.keys, s.pointer.buttons), cmd) == Pressed(s'.keys, s'.pointer.buttons)
  {
    ExecKeys(s, Step(cmd, usb), layout);
    ExecButtons(s, Step(cmd, usb), layout);
  }

  // ---- when the filter loses nothing ----

  /** Rejecting this event makes no difference to these keys and buttons. */
  predicate Harmless(r: Recent, p: Pressed, e: Event) {
    Rejected(r, e) ==>
      match e.cmd
      case KeyDown(key, _) => key in p.keys || |p.keys| >= MAX_KEYS
      case KeyUp(_, _) => p.keys == []
      case MouseDown(b) => PressButton(p.buttons, b) == p.buttons
      case MouseUp(b) => ReleaseButton(p.buttons, b) == p.buttons
      case _ => true
  }

  predicate HarmlessRun(r: Recent, p: Pressed, events: seq<Event>)
    decreases |events|
  {
    events == [] ||
    (Harmless(r, p, events[0]) && HarmlessRun(Admit(r, events[0]), Apply(p, events[0].cmd), events[1..]))
  }

  /** What is pressed after one event of the filtered stream. */
  function KeepOne(r: Recent, kept: Pressed, e: Event): Pressed {
    if Rejected(r, e) then kept else Apply(kept, e.cmd)
  }

  /** After every event of the stream the filtered keys and buttons are the unfiltered ones. */
  predicate SameThroughout(r: Recent, raw: Pressed, kept: Pressed, events: seq<Event>)
    decreases |events|
  {
    raw == kept &&
    (events == [] ||
     SameThroughout(Admit(r, events[0]), Apply(raw, events[0].cmd), KeepOne(r, kept, events[0]), events[1..]))
  }

  lemma HarmlessIff(r: Recent, p: Pressed, e: Event)
    ensures Apply(p, e.cmd) == KeepOne(r, p, e) <==> Harmless(r, p, e)
  {
    if e.cmd.KeyUp? && e.cmd.key in p.keys {
      assert |TrackUp(p.keys, e.cmd.key)| == |p.keys| - 1;
    }
  }

  /** On every stream, the tracked keys and the buttons are the same at any time if and only if each event rejected is
      harmless: a key-down finds its key tracked or the tracker full, a key-up finds no key tracked, and a button
      event finds the button as it wants it. */
  lemma {:induction false} FilterLosesNothingIff(r: Recent, p: Pressed, events: seq<Event>)
    ensures SameThroughout(r, p, p, events) <==> HarmlessRun(r, p, events)
    decreases |events|
  {
    if events != [] {
      var e := events[0];
      HarmlessIff(r, p, e);
      if Harmless(r, p, e) {
        FilterLosesNothingIff(Admit(r, e), Apply(p, e.cmd), events[1..]);
      }
    }
  }

  /** In particular nothing is lost at the end. */
  lemma {:induction false} SameAtTheEnd(r: Recent, raw: Pressed, kept: Pressed, events: seq<Event>)
    requires SameThroughout(r, raw, kept, events)
    ensures Replay(kept, Filter(r, events)) == Replay(raw, events)
    decreases |events|
  {
    if events != [] {
      var e := events[0];
      SameAtTheEnd(Admit(r, e), Apply(raw, e.cmd), KeepOne(r, kept, e), events[1..]);
      if !Rejected(r, e) {
        ReplayStep(kept, e, Filter(Admit(r, e), events[1..]));
      }
    }
  }

  // ---- the host's keyboard ----

  /** Keys, buttons, and what the host's keyboard shows. */
  datatype View = View(pressed: Pressed, shown: Shown)

  function ApplyView(v: View, cmd: Cmd): View {
    View(Apply(v.pressed, cmd), ShowCmd(v.shown, v.pressed.keys, cmd))
  }

  function KeepView(r: Recent, v: View, e: Event): View {
    if Rejected(r, e) then v else ApplyView(v, e.cmd)
  }

  function ReplayView(v: View, events: seq<Event>): View
    decreases |events|
  {
    if events == [] then v else ReplayView(ApplyView(v, events[0].cmd), events[1..])
  }

  /** A rejected key event is harmless to the host only if its report would be the one shown already. */
  predicate HarmlessToHost(r: Recent, v: View, e: Event) {
    Harmless(r, v.pressed, e) &&
    (Rejected(r, e) ==>
       match e.cmd
       case KeyDown(_, mask) => v.shown == Shown(mask, v.pressed.keys)
       case KeyUp(_, mask) => v.shown == Shown(mask, [])
       case _ => true)
  }

  predicate HarmlessToHostRun(r: Recent, v: View, events: seq<Event>)
    decreases |events|
  {
    events == [] ||
    (HarmlessToHost(r, v, events[0]) &&
     HarmlessToHostRun(Admit(r, events[0]), ApplyView(v, events[0].cmd), events[1..]))
  }

  predicate SameViewThroughout(r: Recent, raw: View, kept: View, events: seq<Event>)
    decreases |events|
  {
    raw == kept &&
    (events == [] ||
     SameViewThroughout(Admit(r, events[0]), ApplyView(raw, events[0].cmd), KeepView(r, kept, events[0]), events[1..]))
  }

  lemma HarmlessToHostIff(r: Recent, v: View, e: Event)
    ensures ApplyView(v, e.cmd) == KeepView(r, v, e) <==> HarmlessToHost(r, v, e)
  {
    HarmlessIff(r, v.pressed, e);
  }

  /** On every stream, keys, buttons and the host's keyboard are the same at any time if and only if moreover each key
      event rejected would only have repeated the report the host shows. */
  lemma {:induction false} HostSeesNoDifferenceIff(r: Recent, v: View, events: seq<Event>)
    ensures SameViewThroughout(r, v, v, events) <==> HarmlessToHostRun(r, v, events)
    decreases |events|
  {
    if events != [] {
      var e := events[0];
      HarmlessToHostIff(r, v, e);
      if HarmlessToHost(r, v, e) {
        HostSeesNoDifferenceIff(Admit(r, e), ApplyView(v, e.cmd), events[1..]);
      }
    }
  }

  lemma ReplayViewStep(v: View, e: Event, rest: seq<Event>)
    ensures ReplayView(v, [e] + rest) == ReplayView(ApplyView(v, e.cmd), rest)
  {
    assert ([e] + rest)[1..] == rest;
  }

  lemma {:induction false} SameViewAtTheEnd(r: Recent, raw: View, kept: View, events: seq<Event>)
    requires SameViewThroughout(r, raw, kept, events)
    ensures ReplayView(kept, Filter(r, events)) == ReplayView(raw, events)
    decreases |events|
  {
    if events != [] {
      var e := events[0];
      SameViewAtTheEnd(Admit(r, e), ApplyView(raw, e.cmd), KeepView(r, kept, e), events[1..]);
      if !Rejected(r, e) {
        ReplayViewStep(kept, e, Filter(Admit(r, e), events[1..]));
      }
    }
  }

  // ---- streams without resets ----

  /** The commands that reset keys and buttons pass the duplicate check without being remembered. */
  predicate Plain(events: seq<Event>) {
    forall e <- events :: !e.cmd.Leave? && !e.cmd.Disconnected?
  }

  predicate DropsNoKeyUp(r: Recent, events: seq<Event>)
    decreases |events|
  {
    events == [] || (
      && (Rejected(r, events[0]) ==> !events[0].cmd.KeyUp?)
      && DropsNoKeyUp(Admit(r, events[0]), events[1..]))
  }

  /** The remembered button event, replayed, changes nothing. */
  ghost predicate ButtonSettled(r: Recent, buttons: bv8) {
    && (r.btnKind == KindMouseDown ==> PressButton(buttons, r.btnId) == buttons)
    && (r.btnKind == KindMouseUp ==> ReleaseButton(buttons, r.btnId) == buttons)
  }

  /** No key-down that equals the remembered one falls into its window. */
  ghost predicate NotRepeatedSoon(r: Recent, events: seq<Event>) {
    forall e <- events :: e.cmd == KeyDown(r.kbKey, r.kbMask) ==> Elapsed(e.now, r.kbTime) >= DEDUP_MS
  }

  /** The remembered key-down, replayed, changes nothing, or is not repeated. */
  ghost predicate KeySettled(r: Recent, keys: seq<u16>, events: seq<Event>) {
    r.kbKind == KindKeyDown ==> r.kbKey in keys || |keys| >= MAX_KEYS || NotRepeatedSoon(r, events)
  }

  lemma ButtonsStaySettled(r: Recent, buttons: bv8, e: Event)
    requires ButtonSettled(r, buttons) && !e.cmd.Leave? && !e.cmd.Disconnected?
    ensures ButtonSettled(Admit(r, e), ButtonsAfter(buttons, e.cmd))
    ensures Rejected(r, e) ==> ButtonsAfter(buttons, e.cmd) == buttons
  {
    if e.cmd.MouseDown? || e.cmd.MouseUp? {
      ButtonTwice(buttons, e.cmd.button);
    }
  }

  lemma {:induction false} SettledIsHarmless(r: Recent, p: Pressed, events: seq<Event>)
    requires KeySettled(r, p.keys, events) && ButtonSettled(r, p.buttons)
    requires Plain(events) && DropsNoKeyUp(r, events)
    ensures HarmlessRun(r, p, events)
    decreases |events|
  {
    if events != [] {
      var e := events[0];
      assert e in events && forall f <- events[1..] :: f in events;
      ButtonsStaySettled(r, p.buttons, e);
      SettledIsHarmless(Admit(r, e), Apply(p, e.cmd), events[1..]);
    }
  }

  /** Between resets, rejecting repeated key-downs, button-downs and button-ups loses nothing: the filtered stream
      presses exactly the same keys, in the same slots, and the same buttons. */
  lemma FilterPreservesPressed(r: Recent, p: Pressed, events: seq<Event>)
    requires KeySettled(r, p.keys, events) && ButtonSettled(r, p.buttons)
    requires Plain(events) && DropsNoKeyUp(r, events)
    ensures Replay(p, Filter(r, events)) == Replay(p, events)
  {
    SettledIsHarmless(r, p, events);
    FilterLosesNothingIff(r, p, events);
    SameAtTheEnd(r, p, p, events);
  }

  const RELEASED_ALL: Pressed := Pressed([], 0)
  const BOOT_VIEW: View := View(RELEASED_ALL, NOTHING)

  /** From boot, where the zeroed memory reads as a key-down of key 0 at time 0. */
  lemma BootFilterPreservesPressed(events: seq<Event>)
    requires Plain(events) && DropsNoKeyUp(FRESH, events)
    requires forall e <- events :: e.cmd == KeyDown(0, 0) ==> Elapsed(e.now, 0) >= DEDUP_MS
    ensures Replay(RELEASED_ALL, Filter(FRESH, events)) == Replay(RELEASED_ALL, events)
  {
    FilterPreservesPressed(FRESH, RELEASED_ALL, events);
  }

  /** No ENTER with modifiers, which would replace the keys shown. */
  predicate KeepsShown(events: seq<Event>) {
    forall e <- events :: e.cmd.Enter? ==> e.cmd.mask == 0
  }

  ghost predicate ViewSettled(r: Recent, v: View, events: seq<Event>) {
    r.kbKind == KindKeyDown ==>
      || NotRepeatedSoon(r, events)
      || (v.shown == Shown(r.kbMask, v.pressed.keys) &&
          (r.kbKey in v.pressed.keys || |v.pressed.keys| >= MAX_KEYS))
  }

  lemma RestNotRepeated(r: Recent, e: Event, rest: seq<Event>)
    ensures NotRepeatedSoon(r, [e] + rest) ==> NotRepeatedSoon(r, rest)
    ensures NotRepeatedSoon(r, [e] + rest) && r.kbKind == KindKeyDown ==> !(Rejected(r, e) && e.cmd.KeyDown?)
  {
    assert e in [e] + rest && forall f <- rest :: f in [e] + rest;
  }

  lemma SettledRejection(r: Recent, v: View, e: Event, rest: seq<Event>)
    requires ViewSettled(r, v, [e] + rest) && ButtonSettled(r, v.pressed.buttons)
    requires !e.cmd.Leave? && !e.cmd.Disconnected? && (Rejected(r, e) ==> !e.cmd.KeyUp?)
    ensures HarmlessToHost(r, v, e)
  {
    RestNotRepeated(r, e, rest);
    ButtonsStaySettled(r, v.pressed.buttons, e);
  }

  lemma ViewStaysSettled(r: Recent, v: View, e: Event, rest: seq<Event>)
    requires ViewSettled(r, v, [e] + rest) && HarmlessToHost(r, v, e)
    requires !e.cmd.Leave? && !e.cmd.Disconnected? && (e.cmd.Enter? ==> e.cmd.mask == 0)
    requires Rejected(r, e) ==> !e.cmd.KeyUp?
    ensures ViewSettled(Admit(r, e), ApplyView(v, e.cmd), rest)
  {
    RestNotRepeated(r, e, rest);
    if Rejected(r, e) {
      HarmlessToHostIff(r, v, e);
    }
  }

  lemma {:induction false} SettledIsHarmlessToHost(r: Recent, v: View, events: seq<Event>)
    requires ViewSettled(r, v, events) && ButtonSettled(r, v.pressed.buttons)
    requires Plain(events) && KeepsShown(events) && DropsNoKeyUp(r, events)
    ensures HarmlessToHostRun(r, v, events)
    decreases |events|
  {
    if events != [] {
      var e, rest := events[0], events[1..];
      assert e in events && (forall f <- rest :: f in events) && events == [e] + rest;
      ButtonsStaySettled(r, v.pressed.buttons, e);
      SettledRejection(r, v, e, rest);
      ViewStaysSettled(r, v, e, rest);
      SettledIsHarmlessToHost(Admit(r, e), ApplyView(v, e.cmd), rest);
    }
  }

  /** From boot, between resets and without ENTERs with modifiers, the host's keyboard loses nothing either. */
  lemma BootFilterPreservesView(events: seq<Event>)
    requires Plain(events) && KeepsShown(events) && DropsNoKeyUp(FRESH, events)
    requires forall e <- events :: e.cmd == KeyDown(0, 0) ==> Elapsed(e.now, 0) >= DEDUP_MS
    ensures ReplayView(BOOT_VIEW, Filter(FRESH, events)) == ReplayView(BOOT_VIEW, events)
  {
    SettledIsHarmlessToHost(FRESH, BOOT_VIEW, events);
    HostSeesNoDifferenceIff(FRESH, BOOT_VIEW, events);
    SameViewAtTheEnd(FRESH, BOOT_VIEW, BOOT_VIEW, events);
  }

  // ---- key-ups: a superset ----

  /** A key-down that the filtered tracker does not take, rejected or for lack of room, is not taken by the
      unfiltered one either. */
  predicate RoomFor(r: Recent, raw: seq<u16>, kept: seq<u16>, e: Event) {
    e.cmd.KeyDown? && e.cmd.key !in kept && (Rejected(r, e) || |kept| >= MAX_KEYS) ==> |raw| >= MAX_KEYS
  }

  predicate Roomy(r: Recent, raw: Pressed, kept: Pressed, events: seq<Event>)
    decreases |events|
  {
    events == [] || (
      && RoomFor(r, raw.keys, kept.keys, events[0])
      && Roomy(Admit(r, events[0]), Apply(raw, events[0].cmd), KeepOne(r, kept, events[0]), events[1..]))
  }

  /** After each event of the stream the filtered keys include the unfiltered ones. */
  ghost predicate SupersetThroughout(r: Recent, raw: Pressed, kept: Pressed, events: seq<Event>)
    decreases |events|
  {
    KeySet(raw.keys) <= KeySet(kept.keys) &&
    (events == [] ||
     SupersetThroughout(Admit(r, events[0]), Apply(raw, events[0].cmd), KeepOne(r, kept, events[0]), events[1..]))
  }

  /** One event on the unfiltered keys and on the filtered ones. */
  lemma StepKeepsSupersetIff(r: Recent, raw: Pressed, kept: Pressed, e: Event)
    requires Tracks(raw.keys) && Tracks(kept.keys) && KeySet(raw.keys) <= KeySet(kept.keys)
    ensures var raw', kept' := Apply(raw, e.cmd).keys, KeepOne(r, kept, e).keys;
            && Tracks(raw') && Tracks(kept')
            && (KeySet(raw') <= KeySet(kept') <==> RoomFor(r, raw.keys, kept.keys, e))
  {
    if e.cmd.KeyDown? {
      var key := e.cmd.key;
      DownRefinesSet(raw.keys, key);
      DownRefinesSet(kept.keys, key);
      assert key in KeySet(raw.keys) + {key} && (key in KeySet(kept.keys) <==> key in kept.keys);
    } else if e.cmd.KeyUp? {
      UpRefinesSet(raw.keys, e.cmd.key);
      UpRefinesSet(kept.keys, e.cmd.key);
      assert e.cmd.key in raw.keys ==> e.cmd.key in KeySet(raw.keys);
    }
  }

  /** On every stream, rejected key-ups included, the filtered keys contain the unfiltered ones at all times (an
      unmatched key-up releases everything) exactly as long as no key-down is taken by the unfiltered tracker
      alone. */
  lemma {:induction false} FilterKeepsSupersetIff(r: Recent, raw: Pressed, kept: Pressed, events: seq<Event>)
    requires Tracks(raw.keys) && Tracks(kept.keys) && KeySet(raw.keys) <= KeySet(kept.keys)
    ensures SupersetThroughout(r, raw, kept, events) <==> Roomy(r, raw, kept, events)
    decreases |events|
  {
    if events != [] {
      var e := events[0];
      var raw', kept' := Apply(raw, e.cmd), KeepOne(r, kept, e);
      StepKeepsSupersetIff(r, raw, kept, e);
      if RoomFor(r, raw.keys, kept.keys, e) {
        FilterKeepsSupersetIff(Admit(r, e), raw', kept', events[1..]);
      }
    }
  }

  /** The filtered tracker has room for every key-down that is kept. */
  predicate NeverFull(r: Recent, kept: Pressed, events: seq<Event>)
    decreases |events|
  {
    events == [] || (
      && (events[0].cmd.KeyDown? && !Rejected(r, events[0]) ==>
            events[0].cmd.key in kept.keys || |kept.keys| < MAX_KEYS)
      && NeverFull(Admit(r, events[0]), KeepOne(r, kept, events[0]), events[1..]))
  }

  /** The remembered key-down is in the filtered tracker, or is not repeated. */
  ghost predicate DownRecorded(r: Recent, kept: seq<u16>, events: seq<Event>) {
    r.kbKind == KindKeyDown ==> r.kbKey in kept || NotRepeatedSoon(r, events)
  }

  /** Between resets only a full tracker can get in the way. */
  lemma {:induction false} RoomyUnlessFull(r: Recent, raw: Pressed, kept: Pressed, events: seq<Event>)
    requires Tracks(kept.keys) && DownRecorded(r, kept.keys, events)
    requires Plain(events) && NeverFull(r, kept, events)
    ensures Roomy(r, raw, kept, events)
    decreases |events|
  {
    if events != [] {
      var e := events[0];
      assert e in events && forall f <- events[1..] :: f in events;
      if e.cmd.KeyUp? {
        UpRefinesSet(kept.keys, e.cmd.key);
      }
      RoomyUnlessFull(Admit(r, e), Apply(raw, e.cmd), KeepOne(r, kept, e), events[1..]);
    }
  }

  lemma {:induction false} SupersetAtTheEnd(r: Recent, raw: Pressed, kept: Pressed, events: seq<Event>)
    requires SupersetThroughout(r, raw, kept, events)
    ensures KeySet(Replay(raw, events).keys) <= KeySet(Replay(kept, Filter(r, events)).keys)
    decreases |events|
  {
    if events != [] {
      var e := events[0];
      SupersetAtTheEnd(Admit(r, e), Apply(raw, e.cmd), KeepOne(r, kept, e), events[1..]);
      if !Rejected(r, e) {
        ReplayStep(kept, e, Filter(Admit(r, e), events[1..]));
      }
    }
  }

  lemma {:induction false} FilterPreservesButtons(r: Recent, raw: Pressed, kept: Pressed, events: seq<Event>)
    requires raw.buttons == kept.buttons && ButtonSettled(r, kept.buttons) && Plain(events)
    ensures Replay(raw, events).buttons == Replay(kept, Filter(r, events)).buttons
    decreases |events|
  {
    if events != [] {
      var e := events[0];
      assert e in events && forall f <- events[1..] :: f in events;
      ButtonsStaySettled(r, kept.buttons, e);
      FilterPreservesButtons(Admit(r, e), Apply(raw, e.cmd), KeepOne(r, kept, e), events[1..]);
      if !Rejected(r, e) {
        ReplayStep(kept, e, Filter(Admit(r, e), events[1..]));
      }
    }
  }

  /** From boot and between resets, whatever is rejected: at the end the filtered keys contain the unfiltered ones and
      the buttons are the same, if every key-down that is kept found room and no KeyDown(0, 0) came in the first
      30 ms. */
  lemma BootFilterKeepsSuperset(events: seq<Event>)
    requires Plain(events) && NeverFull(FRESH, RELEASED_ALL, events)
    requires forall e <- events :: e.cmd == KeyDown(0, 0) ==> Elapsed(e.now, 0) >= DEDUP_MS
    ensures var all, filtered := Replay(RELEASED_ALL, events), Replay(RELEASED_ALL, Filter(FRESH, events));
            KeySet(all.keys) <= KeySet(filtered.keys) && all.buttons == filtered.buttons
  {
    RoomyUnlessFull(FRESH, RELEASED_ALL, RELEASED_ALL, events);
    FilterKeepsSupersetIff(FRESH, RELEASED_ALL, RELEASED_ALL, events);
    SupersetAtTheEnd(FRESH, RELEASED_ALL, RELEASED_ALL, events);
    FilterPreservesButtons(FRESH, RELEASED_ALL, RELEASED_ALL, events);
  }

  lemma ReplayStep(p: Pressed, e: Event, rest: seq<Event>)
    ensures Replay(p, [e] + rest) == Replay(Apply(p, e.cmd), rest)
  {
  }

  lemma FilterStep(r: Recent, e: Event, rest: seq<Event>)
    ensures Filter(r, [e] + rest) ==
            if Rejected(r, e) then Filter(r, rest) else [e] + Filter(Remember(r, e), rest)
  {
  }

  const UP1: Event := Event(100, KeyUp(1, 0))
  const UP1_AGAIN: Event := Event(101, KeyUp(1, 0))
  const DOWN7: Event := Event(200, KeyDown(7, 0))
  const DOWN8: Event := Event(300, KeyDown(8, 0))
  const OVERFLOW: seq<Event> := [UP1] + ([UP1_AGAIN] + ([DOWN7] + ([DOWN8] + [])))
  const FULL: Pressed := Pressed([1, 2, 3, 4, 5, 6], 0)
  const FIVE: Pressed := Pressed([6, 2, 3, 4, 5], 0)

  lemma FullTracks()
    ensures Tracks(FULL.keys)
  {
  }

  lemma FirstReleased()
    ensures Apply(FULL, UP1.cmd) == FIVE
  {
  }

  lemma UnfilteredOverflow()
    ensures Replay(FULL, OVERFLOW).keys == [7, 8]
  {
    ReplayStep(FULL, UP1, [UP1_AGAIN] + ([DOWN7] + ([DOWN8] + [])));
    FirstReleased();
    ReplayStep(FIVE, UP1_AGAIN, [DOWN7] + ([DOWN8] + []));
    ReplayStep(RELEASED_ALL, DOWN7, [DOWN8] + []);
    ReplayStep(Pressed([7], 0), DOWN8, []);
  }

  lemma FilteredOverflow(r: Recent)
    requires r.kbKind == KindKeyDown
    ensures Replay(FULL, Filter(r, OVERFLOW)).keys == [6, 2, 3, 4, 5, 7]
  {
    var r1 := Remember(r, UP1);
    var r2 := Remember(r1, DOWN7);
    FilterStep(r, UP1, [UP1_AGAIN] + ([DOWN7] + ([DOWN8] + [])));
    FilterStep(r1, UP1_AGAIN, [DOWN7] + ([DOWN8] + []));
    FilterStep(r1, DOWN7, [DOWN8] + []);
    FilterStep(r2, DOWN8, []);
    ReplayStep(FULL, UP1, [DOWN7] + ([DOWN8] + []));
    FirstReleased();
    ReplayStep(FIVE, DOWN7, [DOWN8] + []);
    ReplayStep(Pressed([6, 2, 3, 4, 5, 7], 0), DOWN8, []);
  }

  lemma EightIsMissing(all: seq<u16>, filtered: seq<u16>)
    requires all == [7, 8] && filtered == [6, 2, 3, 4, 5, 7]
    ensures !(KeySet(all) <= KeySet(filtered))
  {
    assert all[1] == 8 && 8 in KeySet(all);
    assert forall i :: 0 <= i < |filtered| ==> filtered[i] != 8;
    assert 8 !in KeySet(filtered);
  }

  /** Without room the superset claim fails: after a rejected key-up the filtered tracker can be full while
      the unfiltered one takes another key. */
  lemma OverflowBreaksSuperset() returns (r: Recent, p: Pressed, events: seq<Event>)
    ensures Tracks(p.keys) && Plain(events)
    ensures (r.kbKind == KindKeyDown ==> r.kbKey in p.keys) && ButtonSettled(r, p.buttons)
    ensures !(KeySet(Replay(p, events).keys) <= KeySet(Replay(p, Filter(r, events)).keys))
  {
    r := Recent(KindKeyDown, 6, 0, 0, KindKeyDown, 0, 0, 0);
    p := FULL;
    events := OVERFLOW;
    FullTracks();
    UnfilteredOverflow();
    FilteredOverflow(r);
    EightIsMissing(Replay(p, events).keys, Replay(p, Filter(r, events)).keys);
  }

  /** The filter remembers across LEAVE: a key pressed again right after it is lost. */
  lemma LeaveDefeatsFilter() returns (events: seq<Event>)
    ensures Replay(RELEASED_ALL, events).keys == [65]
    ensures Replay(RELEASED_ALL, Filter(FRESH, events)).keys == []
  {
    var down, leave, again := Event(100, KeyDown(65, 0)), Event(105, Leave), Event(110, KeyDown(65, 0));
    events := [down] + ([leave] + ([again] + []));
    ReplayStep(RELEASED_ALL, down, [leave] + ([again] + []));
    ReplayStep(Pressed([65], 0), leave, [again] + []);
    ReplayStep(RELEASED_ALL, again, []);
    var r := Remember(FRESH, down);
    FilterStep(FRESH, down, [leave] + ([again] + []));
    FilterStep(r, leave, [again] + []);
    FilterStep(r, again, []);
    assert Filter(FRESH, events) == [down] + ([leave] + []);
    ReplayStep(RELEASED_ALL, down, [leave] + []);
    ReplayStep(Pressed([65], 0), leave, []);
  }

  lemma DownEnterDown()
    ensures var pressed := View(Pressed([65], 0), Shown(0, [65]));
            && ApplyView(BOOT_VIEW, KeyDown(65, 0)) == pressed
            && ApplyView(pressed, Enter(1, 1, 1)) == View(Pressed([65], 0), Shown(1, []))
            && ApplyView(View(Pressed([65], 0), Shown(1, [])), KeyDown(65, 0)) == pressed
  {
  }

  /** The filter remembers across an ENTER with modifiers as well: the keys tracked are the same, but the host misses
      the key pressed again and is left with the modifiers. */
  lemma EnterDefeatsFilter() returns (events: seq<Event>)
    ensures HarmlessRun(FRESH, RELEASED_ALL, events)
    ensures ReplayView(BOOT_VIEW, events).shown == Shown(0, [65])
    ensures ReplayView(BOOT_VIEW, Filter(FRESH, events)).shown == Shown(1, [])
  {
    var down, enter, again := Event(100, KeyDown(65, 0)), Event(105, Enter(1, 1, 1)), Event(110, KeyDown(65, 0));
    var one, two := View(Pressed([65], 0), Shown(0, [65])), View(Pressed([65], 0), Shown(1, []));
    events := [down] + ([enter] + ([again] + []));
    DownEnterDown();
    ReplayViewStep(BOOT_VIEW, down, [enter] + ([again] + []));
    ReplayViewStep(one, enter, [again] + []);
    ReplayViewStep(two, again, []);
    var r := Remember(FRESH, down);
    FilterStep(FRESH, down, [enter] + ([again] + []));
    FilterStep(r, enter, [again] + []);
    FilterStep(r, again, []);
    assert Filter(FRESH, events) == [down] + ([enter] + []);
    ReplayViewStep(BOOT_VIEW, down, [enter] + []);
    ReplayViewStep(one, enter, []);
    HarmlessSteps(FRESH, RELEASED_ALL, down, [enter] + ([again] + []));
    HarmlessSteps(r, one.pressed, enter, [again] + []);
    HarmlessSteps(r, two.pressed, again, []);
  }

  lemma HarmlessSteps(r: Recent, p: Pressed, e: Event, rest: seq<Event>)
    ensures HarmlessRun(r, p, [e] + rest) <==>
            Harmless(r, p, e) && HarmlessRun(Admit(r, e), Apply(p, e.cmd), rest)
  {
    assert ([e] + rest)[1..] == rest;
  }

  // ---- what is filtered out ----

  ghost predicate Subsequence(a: seq<Event>, b: seq<Event>)
    decreases |b|
  {
    if b == [] then a == []
    else Subsequence(a, b[1..]) || (a != [] && a[0] == b[0] && Subsequence(a[1..], b[1..]))
  }

  /** Filtering only drops events; it neither reorders nor invents any. */
  lemma {:induction false} FilterIsSubsequence(r: Recent, events: seq<Event>)
    ensures Subsequence(Filter(r, events), events)
    decreases |events|
  {
    if events != [] {
      var rest := Filter(Admit(r, events[0]), events[1..]);
      FilterIsSubsequence(Admit(r, events[0]), events[1..]);
      assert ([events[0]] + rest)[1..] == rest;
    }
  }

  function LastKey(events: seq<Event>): seq<Event> {
    if events == [] then []
    else if events[|events| - 1].cmd.KeyDown? || events[|events| - 1].cmd.KeyUp? then [events[|events| - 1]]
    else LastKey(events[..|events| - 1])
  }

  function LastButton(events: seq<Event>): seq<Event> {
    if events == [] then []
    else if events[|events| - 1].cmd.MouseDown? || events[|events| - 1].cmd.MouseUp? then [events[|events| - 1]]
    else LastButton(events[..|events| - 1])
  }

  function LastWheel(events: seq<Event>): seq<Event> {
    if events == [] then []
    else if events[|events| - 1].cmd.MouseWheel? then [events[|events| - 1]]
    else LastWheel(events[..|events| - 1])
  }

  /** The remembered key event is the last key event that was queued, or the one remembered at the start. */
  ghost predicate RemembersKey(start: Recent, r: Recent, queued: seq<Event>) {
    var last := LastKey(queued);
    if last == [] then
      r.kbKind == start.kbKind && r.kbKey == start.kbKey && r.kbMask == start.kbMask && r.kbTime == start.kbTime
    else
      && r.kbTime == last[0].now
      && last[0].cmd == (if r.kbKind == KindKeyDown then KeyDown(r.kbKey, r.kbMask) else KeyUp(r.kbKey, r.kbMask))
      && (r.kbKind == KindKeyDown || r.kbKind == KindKeyUp)
  }

  ghost predicate RemembersButton(start: Recent, r: Recent, queued: seq<Event>) {
    var last := LastButton(queued);
    if last == [] then r.btnKind == start.btnKind && r.btnId == start.btnId && r.btnTime == start.btnTime
    else
      && r.btnTime == last[0].now
      && last[0].cmd == (if r.btnKind == KindMouseDown then MouseDown(r.btnId) else MouseUp(r.btnId))
      && (r.btnKind == KindMouseDown || r.btnKind == KindMouseUp)
  }

  ghost predicate RemembersWheel(start: Recent, r: Recent, queued: seq<Event>) {
    var last := LastWheel(queued);
    r.wheelTime == if last == [] then start.wheelTime else last[0].now
  }

  ghost predicate RemembersLast(start: Recent, r: Recent, queued: seq<Event>) {
    RemembersKey(start, r, queued) && RemembersButton(start, r, queued) && RemembersWheel(start, r, queued)
  }

  lemma LastAfter(queued: seq<Event>, e: Event)
    ensures LastKey(queued + [e]) == if e.cmd.KeyDown? || e.cmd.KeyUp? then [e] else LastKey(queued)
    ensures LastButton(queued + [e]) == if e.cmd.MouseDown? || e.cmd.MouseUp? then [e] else LastButton(queued)
    ensures LastWheel(queued + [e]) == if e.cmd.MouseWheel? then [e] else LastWheel(queued)
  {
    assert (queued + [e])[..|queued|] == queued;
  }

  lemma RemembersOne(start: Recent, r: Recent, queued: seq<Event>, e: Event)
    requires RemembersLast(start, r, queued)
    ensures RemembersLast(start, Remember(r, e), queued + [e])
  {
    LastAfter(queued, e);
  }

  lemma {:induction false} AdmitAllRemembers(start: Recent, r: Recent, queued: seq<Event>, events: seq<Event>)
    requires RemembersLast(start, r, queued)
    ensures RemembersLast(start, AdmitAll(r, events), queued + Filter(r, events))
    decreases |events|
  {
    if events == [] {
      assert queued + [] == queued;
    } else {
      var e := events[0];
      var rest := Filter(Admit(r, e), events[1..]);
      if Rejected(r, e) {
        AdmitAllRemembers(start, r, queued, events[1..]);
      } else {
        RemembersOne(start, r, queued, e);
        AdmitAllRemembers(start, Remember(r, e), queued + [e], events[1..]);
        assert queued + ([e] + rest) == (queued + [e]) + rest;
      }
    }
  }

  lemma FilterRemembers(r: Recent, events: seq<Event>)
    ensures RemembersLast(r, AdmitAll(r, events), Filter(r, events))
  {
    AdmitAllRemembers(r, r, [], events);
    assert [] + Filter(r, events) == Filter(r, events);
  }

  /** A key event is rejected only as an exact repeat of the last key event queued, less than 30 ms before. */
  lemma RejectedOnlyAsRepeat(r: Recent, events: seq<Event>, e: Event)
    requires LastKey(Filter(r, events)) != [] && (e.cmd.KeyDown? || e.cmd.KeyUp?)
    ensures var last := LastKey(Filter(r, events))[0];
            Rejected(AdmitAll(r, events), e) <==> e.cmd == last.cmd && Elapsed(e.now, last.now) < 30
  {
    FilterRemembers(r, events);
  }

  /** So is a button event. */
  lemma ButtonRejectedIff(r: Recent, events: seq<Event>, e: Event)
    requires LastButton(Filter(r, events)) != [] && (e.cmd.MouseDown? || e.cmd.MouseUp?)
    ensures var last := LastButton(Filter(r, events))[0];
            Rejected(AdmitAll(r, events), e) <==> e.cmd == last.cmd && Elapsed(e.now, last.now) < 30
  {
    FilterRemembers(r, events);
  }

  /** A wheel event is rejected, and its scroll lost, exactly less than 30 ms after the last one queued, whatever they
      scroll by. */
  lemma WheelRejectedIff(r: Recent, events: seq<Event>, e: Event)
    requires LastWheel(Filter(r, events)) != [] && e.cmd.MouseWheel?
    ensures Rejected(AdmitAll(r, events), e) <==> Elapsed(e.now, LastWheel(Filter(r, events))[0].now) < 30
  {
    FilterRemembers(r, events);
  }

  /** From boot until the first of its kind is queued, the zeroed memory rejects a press of key 0 without modifiers and
      every scroll of the first 30 ms, and nothing else of keys, buttons and wheel. Key repeats are always rejected, and
      no other command ever is. */
  lemma FirstRejectedIff(events: seq<Event>, e: Event)
    requires var queued := Filter(FRESH, events);
             && (e.cmd.KeyDown? || e.cmd.KeyUp? ==> LastKey(queued) == [])
             && (e.cmd.MouseDown? || e.cmd.MouseUp? ==> LastButton(queued) == [])
             && (e.cmd.MouseWheel? ==> LastWheel(queued) == [])
    ensures Rejected(AdmitAll(FRESH, events), e) <==>
            || e.cmd.KeyRepeat?
            || ((e.cmd == KeyDown(0, 0) || e.cmd.MouseWheel?) && Elapsed(e.now, 0) < 30)
  {
    FilterRemembers(FRESH, events);
  }

  // ---- the code ----

  lemma {:induction false} FilterSnoc(r: Recent, events: seq<Event>, e: Event)
    ensures AdmitAll(r, events + [e]) == Admit(AdmitAll(r, events), e)
    ensures Filter(r, events + [e]) == Filter(r, events) + if Rejected(AdmitAll(r, events), e) then [] else [e]
    decreases |events|
  {
    if events == [] {
      assert events + [e] == [e] && [e][1..] == [];
      assert Filter(Remember(r, e), []) == [];
    } else {
      var first := events[0];
      assert (events + [e])[1..] == events[1..] + [e];
      FilterSnoc(Admit(r, first), events[1..], e);
    }
  }

  /** What is left of a queue while a sender waited for room: a full one lost `taken` commands at its head. */
  function After(queue: seq<Cmd>, taken: nat): seq<Cmd> {
    if |queue| < 32 then queue else queue[if taken < |queue| then taken else |queue|..]
  }

  /** The producer's side of tusb_actuator_t. `queued` records what has entered the queue. */
  class CommandQueue {
    var recent: Recent
    var queue: seq<Cmd>
    ghost var queued: seq<Event>

    ghost predicate Valid()
      reads this
    {
      |queue| <= QUEUE_DEPTH
    }

    constructor ()
      ensures Valid() && recent == FRESH && queue == [] && queued == []
    {
      recent, queue, queued := FRESH, [], [];
    }

    /** _dump_queue: receives as many commands as were waiting and drops them. */
    method DumpQueue()
      modifies this`queue
      ensures queue == []
    {
      var depth := |queue|;
      for i := 0 to depth
        invariant queue == old(queue)[i..]
      {
        queue := queue[1..];
      }
    }

    /** _q: while the bounded send waits for room, the HID task takes `taken` commands. */
    method Enqueue(e: Event, taken: nat) returns (ok: bool)
      requires Valid()
      modifies this`queue, this`queued
      ensures Valid()
      ensures ok <==> |old(queue)| < QUEUE_DEPTH || taken > 0
      ensures ok ==> queued == old(queued) + [e] && queue == After(old(queue), taken) + [e.cmd]
      ensures !ok ==> queue == [] && queued == old(queued)
    {
      if |queue| == QUEUE_DEPTH {
        queue := queue[if taken < QUEUE_DEPTH then taken else QUEUE_DEPTH..];
      }
      if |queue| == QUEUE_DEPTH {
        DumpQueue();
        return false;
      }
      queue := queue + [e.cmd];
      queued := queued + [e];
      return true;
    }

    /** actuator_queue_disconnected: flush, then enqueue into the empty queue. */
    method QueueDisconnected(now: nat) returns (ok: bool)
      requires Valid()
      modifies this`queue, this`queued
      ensures Valid() && ok && queue == [Disconnected] && queued == old(queued) + [Event(now, Disconnected)]
    {
      while queue != []
        invariant Valid() && queued == old(queued)
        decreases |queue|
      {
        queue := queue[1..];
      }
      ok := Enqueue(Event(now, Disconnected), 0);
    }

    /** actuator_queue_key_down, _key_up, _key_repeat, _mouse_down, _mouse_up, _mouse_wheel, _enter, _leave, _jiggle,
        _connected, _set_screen_size, _set_scaling. The memory of a kept event is updated even when
        the queue then turns out to be full. */
    method Submit(e: Event, taken: nat) returns (ok: bool)
      requires Valid() && !e.cmd.Disconnected?
      modifies this
      ensures Valid() && recent == Admit(old(recent), e)
      ensures Rejected(old(recent), e) ==> ok && queue == old(queue) && queued == old(queued)
      ensures !Rejected(old(recent), e) ==>
                && (ok <==> |old(queue)| < QUEUE_DEPTH || taken > 0)
                && (ok ==> queued == old(queued) + [e] && queue == After(old(queue), taken) + [e.cmd])
                && (!ok ==> queue == [] && queued == old(queued))
    {
      match e.cmd {
        case KeyDown(key, mask) =>
          if recent.kbKind == KindKeyDown && recent.kbKey == key && recent.kbMask == mask
             && Elapsed(e.now, recent.kbTime) < DEDUP_MS {
            return true;
          }
          recent := recent.(kbKey := key, kbMask := mask, kbKind := KindKeyDown, kbTime := e.now);
        case KeyUp(key, mask) =>
          if recent.kbKind == KindKeyUp && recent.kbKey == key && recent.kbMask == mask
             && Elapsed(e.now, recent.kbTime) < DEDUP_MS {
            return true;
          }
          recent := recent.(kbKey := key, kbMask := mask, kbKind := KindKeyUp, kbTime := e.now);
        case KeyRepeat =>
          return true;
        case MouseDown(button) =>
          if recent.btnKind == KindMouseDown && recent.btnId == button && Elapsed(e.now, recent.btnTime) < DEDUP_MS {
            return true;
          }
          recent := recent.(btnId := button, btnKind := KindMouseDown, btnTime := e.now);
        case MouseUp(button) =>
          if recent.btnKind == KindMouseUp && recent.btnId == button && Elapsed(e.now, recent.btnTime) < DEDUP_MS {
            return true;
          }
          recent := recent.(btnId := button, btnKind := KindMouseUp, btnTime := e.now);
        case MouseWheel(_, _) =>
          if Elapsed(e.now, recent.wheelTime) < DEDUP_MS {
            return true;
          }
          recent := recent.(wheelTime := e.now);
        case _ =>
      }
      ok := Enqueue(e, taken);
    }

    /** The network task's calls in order: as long as none fails, what enters the queue is the filtered stream. */
    method SubmitAll(events: seq<Event>, taken: seq<nat>) returns (ok: bool)
      requires Valid() && |taken| == |events| && forall e <- events :: !e.cmd.Disconnected?
      modifies this
      ensures Valid()
      ensures ok ==> queued == old(queued) + Filter(old(recent), events) && recent == AdmitAll(old(recent), events)
    {
      for i := 0 to |events|
        invariant Valid()
        invariant queued == old(queued) + Filter(old(recent), events[..i])
        invariant recent == AdmitAll(old(recent), events[..i])
      {
        assert events[i] in events && events[..i + 1] == events[..i] + [events[i]];
        FilterSnoc(old(recent), events[..i], events[i]);
        ok := Submit(events[i], taken[i]);
        if !ok {
          return;
        }
      }
      assert events[..|events|] == events;
      ok := true;
    }
  }
}
