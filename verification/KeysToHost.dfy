/** From bytes on the wire to the host's keyboard: packets become calls, calls pass the duplicate check and the queue,
    the HID task carries them out, and the host shows the keys the server holds. */
module KeysToHost {
  import opened HidScaling
  import opened Commands
  import opened Keycodes
  import opened HidInterpreter
  import opened HidRuns
  import opened HostKeyboard
  import opened HostMouse
  import opened QueueDedup
  import BarrierClient
  import PacketReader
  import WireBytes
  import WireToActuator
  import WireToHost
  import TwoTask
  import TwoTaskOrder

  function CmdsOf(events: seq<Event>): seq<Cmd> {
    if events == [] then [] else [events[0].cmd] + CmdsOf(events[1..])
  }

  /** The keys the sender holds after these commands. */
  function SentBy(held: set<u16>, cmds: seq<Cmd>): set<u16>
    decreases |cmds|
  {
    if cmds == [] then held else SentBy(Sent(held, cmds[0]), cmds[1..])
  }

  /** The commands that matter to keys or to the host's keyboard. */
  predicate IsKeyCmd(cmd: Cmd) {
    cmd.KeyDown? || cmd.KeyUp? || cmd.Leave? || cmd.Disconnected? || (cmd.Enter? && cmd.mask != 0)
  }

  function KeyCmds(cmds: seq<Cmd>): seq<Cmd> {
    if cmds == [] then [] else (if IsKeyCmd(cmds[0]) then [cmds[0]] else []) + KeyCmds(cmds[1..])
  }

  lemma {:induction false} OnlyKeyCmdsMatter(held: set<u16>, cmds: seq<Cmd>)
    ensures SentBy(held, KeyCmds(cmds)) == SentBy(held, cmds)
    decreases |cmds|
  {
    if cmds != [] {
      OnlyKeyCmdsMatter(Sent(held, cmds[0]), cmds[1..]);
      if IsKeyCmd(cmds[0]) {
        assert ([cmds[0]] + KeyCmds(cmds[1..]))[1..] == KeyCmds(cmds[1..]);
      } else {
        assert [] + KeyCmds(cmds[1..]) == KeyCmds(cmds[1..]);
      }
    }
  }

  // ---- from the filtered stream to the host ----

  /** The commands of the stream, carried out on a mounted device, whatever is refused. */
  predicate CarriesOut(steps: seq<Step>, cmds: seq<Cmd>) {
    |steps| == |cmds| && forall i :: 0 <= i < |steps| ==> steps[i].cmd == cmds[i] && steps[i].usb.mounted
  }

  lemma {:induction false} CarriesOutRest(steps: seq<Step>, events: seq<Event>)
    requires CarriesOut(steps, CmdsOf(events)) && events != []
    ensures steps != [] && steps[0].cmd == events[0].cmd && steps[0].usb.mounted
    ensures CarriesOut(steps[1..], CmdsOf(events[1..]))
  {
    assert CmdsOf(events)[1..] == CmdsOf(events[1..]);
  }

  /** Tracked keys and the host's keyboard after the steps are those of the stream. */
  lemma {:induction false} StepsReplay(s: State, shown: Shown, steps: seq<Step>, events: seq<Event>, buttons: bv8,
                                       layout: Layout)
    requires |s.keys| <= MAX_KEYS && CarriesOut(steps, CmdsOf(events))
    ensures var v := ReplayView(View(Pressed(s.keys, buttons), shown), events);
            RunAll(s, steps, layout).keys == v.pressed.keys && ShowAll(shown, s.keys, steps) == v.shown
    decreases |events|
  {
    if events != [] {
      var step := steps[0];
      CarriesOutRest(steps, events);
      ExecKeys(s, step, layout);
      StepsReplay(Exec(s, step.cmd, step.usb, layout), ShowStep(shown, s.keys, step), steps[1..], events[1..],
                  ButtonsAfter(buttons, step.cmd), layout);
    }
  }

  // ---- the sender's keys ----

  const MOUNTED: Usb := Usb(true, 0, 0, 0)

  function StepsOf(events: seq<Event>): (steps: seq<Step>)
    ensures CarriesOut(steps, CmdsOf(events))
  {
    if events == [] then []
    else
      var steps := [Step(events[0].cmd, MOUNTED)] + StepsOf(events[1..]);
      assert CmdsOf(events)[1..] == CmdsOf(events[1..]);
      steps
  }

  lemma {:induction false} TracksSenderAtTheEnd(s: State, events: seq<Event>, held: set<u16>, layout: Layout)
    requires |s.keys| <= MAX_KEYS && TracksSender(s, StepsOf(events), held, layout)
    ensures KeySet(RunAll(s, StepsOf(events), layout).keys) == SentBy(held, CmdsOf(events))
    decreases |events|
  {
    if events != [] {
      var step := Step(events[0].cmd, MOUNTED);
      assert StepsOf(events)[1..] == StepsOf(events[1..]) && StepsOf(events)[0] == step;
      assert CmdsOf(events)[1..] == CmdsOf(events[1..]);
      TracksSenderAtTheEnd(Exec(s, step.cmd, step.usb, layout), events[1..], Sent(held, step.cmd), layout);
    }
  }

  /** The server's key commands are orderly: no seventh key, and no release of a key that is not held while others
      are. */
  predicate ServerOrderly(events: seq<Event>) {
    FollowedRun({}, StepsOf(events))
  }

  lemma RawTracksServer(boot: State, events: seq<Event>, layout: Layout)
    requires boot.keys == [] && ServerOrderly(events)
    ensures KeySet(ReplayView(BOOT_VIEW, events).pressed.keys) == SentBy({}, CmdsOf(events))
  {
    assert KeySet(boot.keys) == {};
    TracksSenderIff(boot, StepsOf(events), layout);
    TracksSenderAtTheEnd(boot, events, {}, layout);
    StepsReplay(boot, NOTHING, StepsOf(events), events, 0, layout);
  }

  // ---- nothing is hidden ----

  /** No ENTER with modifiers and no DISCONNECTED while keys are tracked: these alone leave tracked keys unshown, or
      untracked ones shown. */
  predicate NothingHidden(v: View, events: seq<Event>)
    decreases |events|
  {
    events == [] || (
      && (events[0].cmd.Disconnected? || (events[0].cmd.Enter? && events[0].cmd.mask != 0) ==> v.pressed.keys == [])
      && NothingHidden(ApplyView(v, events[0].cmd), events[1..]))
  }

  lemma {:induction false} ShownAreTracked(v: View, events: seq<Event>)
    requires NothingHidden(v, events) && v.shown.keys == v.pressed.keys
    ensures var w := ReplayView(v, events); w.shown.keys == w.pressed.keys
    decreases |events|
  {
    if events != [] {
      ShownAreTracked(ApplyView(v, events[0].cmd), events[1..]);
    }
  }

  /** The server's stream `events`, filtered, queued, and carried out on a mounted device with any refusals: the tracked
      keys are those the server holds, and the host's keyboard shows exactly these and the modifiers of the last
      mask. */
  lemma KeysReachHost(boot: State, events: seq<Event>, steps: seq<Step>, layout: Layout)
    requires boot.keys == [] && boot.sent == [] && CarriesOut(steps, CmdsOf(Filter(FRESH, events)))
    requires HarmlessToHostRun(FRESH, BOOT_VIEW, events) && ServerOrderly(events) && NothingHidden(BOOT_VIEW, events)
    ensures var final, held := RunAll(boot, steps, layout), SentBy({}, CmdsOf(events));
            && KeySet(final.keys) == held
            && Shows(LastKeyboard(final.sent), ReplayView(BOOT_VIEW, events).shown.mask, held, layout)
  {
    StepsReplay(boot, NOTHING, steps, Filter(FRESH, events), 0, layout);
    HostSeesNoDifferenceIff(FRESH, BOOT_VIEW, events);
    SameViewAtTheEnd(FRESH, BOOT_VIEW, BOOT_VIEW, events);
    RawTracksServer(boot, events, layout);
    ShownAreTracked(BOOT_VIEW, events);
    HostShowsLastKeys(boot, steps, layout);
  }

  // ---- from the wire ----

  /** The two tasks from boot to a point with no command under way, dropping and giving up nothing: what they are called
      for are the server's events that pass the duplicate check, and the device is mounted when they carry it out. */
  ghost predicate Delivering(start: TwoTask.State, during: seq<TwoTask.Event>, events: seq<Event>, steps: seq<Step>) {
    && TwoTaskOrder.Drained(start) && TwoTaskOrder.Drained(TwoTask.Run(start, during))
    && TwoTaskOrder.DropsNothing(start, during) && TwoTaskOrder.NeverGivesUp(start, during)
    && TwoTaskOrder.QueueCmds(TwoTaskOrder.CallsBegun(start, during)) == CmdsOf(Filter(FRESH, events))
    && CarriesOut(steps, TwoTaskOrder.SwitchedAll(start, during))
  }

  lemma DeliveredAreCarriedOut(start: TwoTask.State, during: seq<TwoTask.Event>, events: seq<Event>, steps: seq<Step>)
    requires Delivering(start, during, events, steps)
    ensures CarriesOut(steps, CmdsOf(Filter(FRESH, events)))
  {
    TwoTaskOrder.CalledAreCarriedOut(start, during);
  }

  /** From bytes to the host's keyboard: whatever the chunking of the frames, the interleaving of the two tasks and the
      refusals, after a stretch of session from boot the host shows exactly the keys that the frames leave pressed,
      and the modifiers of the last mask. */
  lemma WireDeterminesKeys(setup: BarrierClient.Setup, c: BarrierClient.Client, script: seq<BarrierClient.Moment>,
                           io: seq<PacketReader.Io>, frames: seq<seq<WireBytes.byte>>, tail: seq<WireBytes.byte>,
                           keepAwake: bool, start: TwoTask.State, during: seq<TwoTask.Event>, events: seq<Event>,
                           boot: State, steps: seq<Step>, layout: Layout)
    requires WireToHost.Stretch(c, script, io, frames, tail, keepAwake)
    requires KeyCmds(CmdsOf(events)) ==
             KeyCmds(TwoTaskOrder.QueueCmds(WireToHost.CallsSince(c, BarrierClient.Run(setup, c, script))))
    requires Delivering(start, during, events, steps) && boot.keys == [] && boot.sent == []
    requires HarmlessToHostRun(FRESH, BOOT_VIEW, events) && ServerOrderly(events) && NothingHidden(BOOT_VIEW, events)
    ensures var held := SentBy({}, TwoTaskOrder.QueueCmds(WireToHost.CallsOf(frames, keepAwake)));
            var final := RunAll(boot, steps, layout);
            && KeySet(final.keys) == held
            && Shows(LastKeyboard(final.sent), ReplayView(BOOT_VIEW, events).shown.mask, held, layout)
  {
    WireToHost.StretchCalls(setup, c, script, io, frames, tail, keepAwake);
    OnlyKeyCmdsMatter({}, CmdsOf(events));
    OnlyKeyCmdsMatter({}, TwoTaskOrder.QueueCmds(WireToHost.CallsOf(frames, keepAwake)));
    DeliveredAreCarriedOut(start, during, events, steps);
    KeysReachHost(boot, events, steps, layout);
  }
}
