/** What complete calls of the network task, and the HID task's idle wait, do when the other task does not come in
    between (main/tusb/tusb_actuator.c). */
module TwoTaskCalls {
  import opened HidScaling
  import opened Commands
  import opened TwoTask

  function Iterate(f: State -> State, s: State, n: nat): State
    decreases n
  {
    if n == 0 then s else Iterate(f, f(s), n - 1)
  }

  lemma {:induction false} IterateMore(f: State -> State, s: State, n: nat, k: nat)
    ensures Iterate(f, s, n + k) == Iterate(f, Iterate(f, s, n), k)
    decreases n
  {
    if n > 0 {
      IterateMore(f, f(s), n - 1, k);
    }
  }

  function Stepping(e: Event): State -> State {
    s => Next(s, e)
  }

  /** The state after `n` times the same event. */
  function Times(s: State, e: Event, n: nat): State {
    Iterate(Stepping(e), s, n)
  }

  lemma TimesMore(s: State, e: Event, n: nat, k: nat, t: State)
    requires Times(s, e, n) == t
    ensures Times(s, e, n + k) == Times(t, e, k)
  {
    IterateMore(Stepping(e), s, n, k);
  }

  lemma One(s: State, e: Event)
    ensures Times(s, e, 1) == Next(s, e)
  {
    assert Iterate(Stepping(e), Stepping(e)(s), 0) == Stepping(e)(s);
  }

  lemma Three(s: State, e: Event)
    ensures Times(s, e, 3) == Next(Next(Next(s, e), e), e)
  {
    One(Next(Next(s, e), e), e);
    One(s, e);
    TimesMore(s, e, 1, 2, Next(s, e));
    One(Next(s, e), e);
    TimesMore(Next(s, e), e, 1, 1, Next(Next(s, e), e));
  }

  // ---- queueing ----

  lemma Sends(s: State, cmd: Cmd, e: Event)
    requires s.net.Idle? && !cmd.Disconnected? && |s.mem.queue| < 32 && e == Net(Queue(cmd), false, false)
    ensures Next(Next(Next(s, e), e), e) ==
            s.(mem := s.mem.(queue := s.mem.queue + [Entry(cmd, s.mem.session)], notified := true))
  {
  }

  /** With room in the queue a command is appended to it and the HID task notified. */
  lemma CommandIsQueued(s: State, cmd: Cmd)
    requires s.net.Idle? && !cmd.Disconnected? && |s.mem.queue| < 32
    ensures Times(s, Net(Queue(cmd), false, false), 3) ==
            s.(mem := s.mem.(queue := s.mem.queue + [Entry(cmd, s.mem.session)], notified := true))
  {
    var e := Net(Queue(cmd), false, false);
    Three(s, e);
    Sends(s, cmd, e);
  }

  lemma {:induction false} DumpEmpties(s: State, call: Call)
    requires s.net == Dump(|s.mem.queue|)
    ensures Times(s, Net(call, false, true), |s.mem.queue| + 1) == s.(mem := s.mem.(queue := []), net := Idle)
    decreases |s.mem.queue|
  {
    var e, n := Net(call, false, true), |s.mem.queue|;
    One(s, e);
    TimesMore(s, e, 1, n, Next(s, e));
    if n > 0 {
      DumpEmpties(Next(s, e), call);
    }
  }

  lemma GivesUp(s: State, cmd: Cmd, e: Event)
    requires s.net.Idle? && !cmd.Disconnected? && |s.mem.queue| == 32 && e == Net(Queue(cmd), false, true)
    ensures Next(Next(Next(s, e), e), e) == s.(net := Dump(32))
  {
  }

  /** When the queue stays full until the sender gives up, all queued commands are dropped, the new one too, and the HID
      task is not notified. */
  lemma FullQueueIsDumped(s: State, cmd: Cmd)
    requires s.net.Idle? && !cmd.Disconnected? && |s.mem.queue| == 32
    ensures Times(s, Net(Queue(cmd), false, true), 36) == s.(mem := s.mem.(queue := []))
  {
    var e := Net(Queue(cmd), false, true);
    Three(s, e);
    GivesUp(s, cmd, e);
    TimesMore(s, e, 3, 33, s.(net := Dump(32)));
    DumpEmpties(s.(net := Dump(32)), Queue(cmd));
  }

  lemma {:induction false} FlushEmpties(s: State, call: Call)
    requires s.net == Flush
    ensures Times(s, Net(call, false, false), |s.mem.queue|) == s.(mem := s.mem.(queue := []))
    decreases |s.mem.queue|
  {
    var e, n := Net(call, false, false), |s.mem.queue|;
    if n > 0 {
      One(s, e);
      TimesMore(s, e, 1, n - 1, Next(s, e));
      FlushEmpties(Next(s, e), call);
    }
  }

  lemma SendsDisconnected(s: State, e: Event)
    requires s.net == Flush && s.mem.queue == [] && e == Net(Queue(Disconnected), false, false)
    ensures var session := s.mem.session + 1;
            Next(Next(Next(s, e), e), e) ==
            s.(net := Idle,
               mem := s.mem.(queue := [Entry(Disconnected, session)], notified := true, session := session))
  {
  }

  lemma BeginsFlush(s: State, e: Event)
    requires s.net.Idle? && e == Net(Queue(Disconnected), false, false)
    ensures Next(s, e) == s.(net := Flush)
  {
  }

  /** DISCONNECTED drops whatever is queued and is queued alone, in a new session. */
  lemma DisconnectedIsQueuedAlone(s: State)
    requires s.net.Idle?
    ensures var session := s.mem.session + 1;
            Times(s, Net(Queue(Disconnected), false, false), |s.mem.queue| + 4) ==
            s.(mem := s.mem.(queue := [Entry(Disconnected, session)], notified := true, session := session))
  {
    var e, n := Net(Queue(Disconnected), false, false), |s.mem.queue|;
    var flushing, flushed := s.(net := Flush), s.(net := Flush, mem := s.mem.(queue := []));
    One(s, e);
    BeginsFlush(s, e);
    TimesMore(s, e, 1, n + 3, flushing);
    FlushEmpties(flushing, Queue(Disconnected));
    TimesMore(flushing, e, n, 3, flushed);
    Three(flushed, e);
    SendsDisconnected(flushed, e);
  }

  /** A finished movement raises the flag and notifies the HID task, unless the flag is up already. */
  lemma MovementIsAnnounced(s: State, e: Event)
    requires s.net == SetPending && e.Net? && !e.spurious
    ensures !s.mem.pending ==>
              Next(Next(s, e), e) == s.(net := Idle, mem := s.mem.(pending := true, notified := true))
    ensures s.mem.pending ==> Next(s, e) == s.(net := Idle)
  {
  }

  // ---- the idle wait ----

  /** The idle wait ends exactly with a notification, which is used up, or after its second. */
  lemma IdleWaitEndsIff(s: State, env: HidEnv)
    requires s.hid.Sleep?
    ensures var t := HidNext(s, env);
            && (t.hid == Top <==> s.mem.notified || env.timeout) && (t.hid == Top || t.hid == Sleep)
            && t == s.(hid := t.hid, mem := s.mem.(notified := false))
  {
  }

  /** So even a wake-up that was lost only delays a pending movement: after the second has passed, the movement is
      taken up. */
  lemma TimeoutTakesUpMovement(s: State)
    requires s.hid.Sleep? && s.mem.pending
    ensures var t := Next(Next(s, Hid(HidEnv(true, true, false, true))), Hid(HidEnv(true, true, false, false)));
            t == s.(hid := ReadX(ToQueue), mem := s.mem.(pending := false, notified := false))
  {
  }

  // ---- commands ----

  lemma EnterWrites(s: State, x: u16, y: u16, mask: bv16, e: Event)
    requires s.hid == Dispatch(Enter(x, y, mask)) && e == Hid(HidEnv(true, true, false, false))
    ensures Next(Next(Next(s, e), e), e) ==
            s.(hid := ReadX(if mask != 0 then ToKeyboard else ToTop), mem := s.mem.(targetX := x, targetY := y))
  {
    assert Next(s, e) == s.(hid := EnterX(x, y, mask != 0));
  }

  lemma ReportGoesOut(s: State, after: After, e: Event)
    requires s.hid == ReadX(after) && e == Hid(HidEnv(true, true, false, false))
    ensures var t := Next(Next(Next(s, e), e), e);
            Converged(t) && t.mem == s.mem && t.net == s.net && t.hid == Continue(after)
  {
    var hx := ToHid(s.dev.width, s.mem.targetX);
    assert Next(s, e) == s.(hid := ReadY(after, hx));
    assert Next(Next(s, e), e) == s.(hid := TryOnce(after, hx, ToHid(s.dev.height, s.mem.targetY)));
  }

  /** An ENTER carried out with its reports accepted: the target is the entry point, the host has it, and a keyboard
      report comes after it exactly if there are modifiers to show. */
  lemma EnterIsCarriedOut(s: State, x: u16, y: u16, mask: bv16)
    requires s.hid == Dispatch(Enter(x, y, mask))
    ensures var t := Times(s, Hid(HidEnv(true, true, false, false)), 6);
            && t.mem == s.mem.(targetX := x, targetY := y) && t.net == s.net
            && Converged(t) && t.hid == if mask != 0 then Keyboard(false) else Top
  {
    var e := Hid(HidEnv(true, true, false, false));
    var after := if mask != 0 then ToKeyboard else ToTop;
    var written := s.(hid := ReadX(after), mem := s.mem.(targetX := x, targetY := y));
    Three(s, e);
    EnterWrites(s, x, y, mask, e);
    TimesMore(s, e, 3, 3, written);
    Three(written, e);
    ReportGoesOut(written, after, e);
  }

  /** Keys and LEAVE begin with a keyboard report, which is awaited; buttons and wheel go to the mouse report. */
  lemma CommandsBeginWith(s: State, cmd: Cmd, env: HidEnv)
    requires s.hid == Dispatch(cmd) && env.mounted
    ensures cmd.KeyDown? || cmd.KeyUp? ==> HidNext(s, env) == s.(hid := Keyboard(false))
    ensures cmd.Leave? ==> HidNext(s, env) == s.(hid := Keyboard(true))
    ensures cmd.MouseDown? || cmd.MouseUp? || cmd.MouseWheel? ==>
              HidNext(s, env).hid == RetryReadX && HidNext(s, env).mem == s.mem
  {
  }
}
