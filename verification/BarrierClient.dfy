/** The client task's run loop (main/barrier/barrier_client.c). */
module BarrierClient {
  import opened HidScaling
  import opened Commands
  import opened WireBytes
  import opened BarrierPacket
  import opened Reconnect
  import ConfigFile

  // ---- what the run loop does that others can see ----

  /** Why a call was made: outside packet handling, for a packet, or because the link was idle for
      more than the configured number of seconds. */
  datatype Cause = Setting | Handling | Idle(interval: u16)

  datatype Event =
    | Act(call: Call, cause: Cause, accepted: bool, at: nat)
    | Reply(packet: Packet, delivered: bool)
    | Recreated(ok: bool)
    | Wait(ms: u32, random: u32)

  // ---- the environment ----

  /** What the surroundings answer while the task passes one point of its loops: the time since the previous
      point, whether the task is asked to stop, the network events, the live configuration, and the outcome of
      every call the task may make there. */
  datatype Moment = Moment(
    elapsed: nat, stop: bool, hasIp: bool, reconnect: bool, cfg: ConfigFile.Config,
    recreated: bool, handshake: bool, read: Result<Packet>, accepts: bool, sends: bool, random: u32)

  /** Constant over a run: whether there is an event group, and the reconnect parameters. */
  datatype Setup = Setup(events: bool, maxRetries: int, baseDelay: u32, maxDelay: u32, jitter: u32)

  function DelayOf(setup: Setup, retries: nat, random: u32): u32 {
    var before := Backoff(setup.baseDelay, setup.maxDelay, retries);
    if setup.jitter == 0 then before else ToU32(before + random % setup.jitter)
  }

  predicate MayRetry(setup: Setup, retries: nat) {
    setup.maxRetries < 0 || retries < setup.maxRetries
  }

  // ---- the state machine ----

  datatype Phase = IdlePhase | Handshaking | Online | Offline

  /** The points of the loops: the outer loop's test, the wait for the network, the connection attempt, the
      packet loop's test, the cleanup after it, and the end of the task. */
  datatype Loc = Top | Waiting | Connecting | InSession | Leaving | Stopped

  datatype Client = Client(
    loc: Loc, phase: Phase, running: bool, entered: bool, lastActivity: nat, retries: nat, now: nat,
    trace: seq<Event>)

  function Started(now: nat, retries: nat): Client {
    Client(Top, IdlePhase, true, false, now, retries, now, [])
  }

  function Say(s: Client, e: Event): Client {
    s.(trace := s.trace + [e])
  }

  function Do(s: Client, call: Call, cause: Cause, accepted: bool): Client {
    Say(s, Act(call, cause, accepted, s.now))
  }

  function Tick(s: Client, m: Moment): Client {
    s.(now := s.now + m.elapsed, running := s.running && !m.stop)
  }

  function Halt(s: Client): Client {
    s.(loc := Stopped, phase := IdlePhase, running := false)
  }

  /** Wait before the next attempt, if there may be one. */
  function Pause(setup: Setup, s: Client, random: u32): Client {
    Say(s, Wait(DelayOf(setup, s.retries, random), random)).(retries := s.retries + 1, loc := Top)
  }

  function PauseOrHalt(setup: Setup, s: Client, random: u32): Client {
    if MayRetry(setup, s.retries) then Pause(setup, s, random) else Halt(s)
  }

  function AtTop(setup: Setup, s: Client): Client {
    if !s.running then Halt(s) else s.(loc := if setup.events then Waiting else Connecting)
  }

  function AtWaiting(s: Client, m: Moment): Client {
    if !s.running || m.hasIp then s.(loc := Connecting) else s
  }

  function Reconfigure(setup: Setup, s: Client, m: Moment): Client {
    var a := Do(s, Queue(SetScreenSize(m.cfg.screenWidth, m.cfg.screenHeight)), Setting, m.accepts);
    var b := Do(a, Queue(SetScaling(m.cfg.scaling)), Setting, m.accepts);
    var c := Say(b, Recreated(m.recreated));
    if m.recreated then c.(loc := Top) else Pause(setup, c.(retries := 0), m.random)
  }

  function Connect(setup: Setup, s: Client, m: Moment): Client {
    if m.handshake then
      Do(s, Queue(Connected), Setting, m.accepts).(loc := InSession, phase := Online, retries := 0)
    else
      PauseOrHalt(setup, s.(phase := Offline), m.random)
  }

  function AtConnecting(setup: Setup, s: Client, m: Moment): Client {
    if setup.events && m.reconnect then Reconfigure(setup, s, m) else Connect(setup, s, m)
  }

  /** What handling a packet leads to: the new state, and whether the session goes on. */
  datatype Handled = Handled(client: Client, ok: bool)

  /** A call whose refusal ends the session; one that is taken counts as user activity. */
  function Enqueue(s: Client, cmd: Cmd, m: Moment): Handled {
    var t := Do(s, Queue(cmd), Handling, m.accepts);
    Handled(if m.accepts then t.(lastActivity := s.now) else t, m.accepts)
  }

  /** A call that cannot fail. */
  function Active(s: Client, call: Call): Handled {
    Handled(Do(s, call, Handling, true).(lastActivity := s.now), true)
  }

  /** The packets without fields. */
  function HandleBare(s: Client, kind: Kind, m: Moment): Handled {
    match kind
    case QINF =>
      Handled(Say(s, Reply(DeviceInfo(0, 0, m.cfg.screenWidth, m.cfg.screenHeight, 0, 0, 0), m.sends)), m.sends)
    case CALV =>
      var t := if m.cfg.keepAwake then Do(s, Queue(Jiggle), Handling, m.accepts) else s;
      Handled(Say(t, Reply(Bare(CALV), m.sends)), m.sends)
    case COUT => Handled(Do(s.(entered := false), Queue(Leave), Handling, m.accepts), m.accepts)
    case CBYE | EUNK | EBSY | EBAD => Handled(s, false)
    case _ => Handled(s, true)
  }

  function HandlePacket(s: Client, p: Packet, m: Moment): Handled {
    match p
    case Bare(kind) => HandleBare(s, kind, m)
    case MoveAbs(x, y) => Active(s, SetMovement(x, y))
    case MoveRel(dx, dy) => Active(s, MoveRelative(dx, dy))
    case KeyPress(key, mask, _) => Enqueue(s, KeyDown(key, mask as bv16), m)
    case KeyRelease(key, mask, _) => Enqueue(s, KeyUp(key, mask as bv16), m)
    case KeyAgain(_, _, _, _) => Active(s, Queue(KeyRepeat))
    case ButtonDown(id) => Enqueue(s, MouseDown(id), m)
    case ButtonUp(id) => Enqueue(s, MouseUp(id), m)
    case Wheel(dx, dy) => Enqueue(s, MouseWheel(dx, dy), m)
    case CursorEnter(x, y, _, mask) => Enqueue(s.(entered := true), Enter(x, y, mask as bv16), m)
    case Incompatible(_, _) => Handled(s, false)
    case DeviceInfo(_, _, _, _, _, _, _) | GrabClipboard(_, _) | Clipboard(_, _) => Handled(s, true)
  }

  /** The read timed out: a jiggle if the cursor is here and nothing has happened for long enough. */
  function IdleCheck(s: Client, m: Moment): Client {
    if m.cfg.keepAwake && s.entered && s.now - s.lastActivity > m.cfg.jiggleInterval * 1000 then
      Do(s, Queue(Jiggle), Idle(m.cfg.jiggleInterval), m.accepts).(lastActivity := s.now)
    else s
  }

  function GoOn(s: Client, stay: bool): Client {
    if stay then s else s.(loc := Leaving)
  }

  function AtSession(setup: Setup, s: Client, m: Moment): Client {
    if !s.running then s.(loc := Leaving)
    else
      match m.read
      case Err(e) => if e.TimedOut? then IdleCheck(s, m) else s.(loc := Leaving)
      case Ok(p) =>
        if setup.events && m.reconnect then s.(loc := Leaving)
        else
          var h := HandlePacket(s, p, m);
          GoOn(h.client, h.ok)
  }

  function AtLeaving(setup: Setup, s: Client, m: Moment): Client {
    var t := Do(s.(phase := Offline, entered := false), Queue(Disconnected), Setting, true);
    if !s.running then Halt(t) else PauseOrHalt(setup, t, m.random)
  }

  function Step(setup: Setup, s: Client, m: Moment): Client {
    match s.loc
    case Top => AtTop(setup, s)
    case Waiting => AtWaiting(s, m)
    case Connecting => AtConnecting(setup, s, m)
    case InSession => AtSession(setup, s, m)
    case Leaving => AtLeaving(setup, s, m)
    case Stopped => s
  }

  function Next(setup: Setup, s: Client, m: Moment): Client {
    if s.loc == Stopped then s else Step(setup, Tick(s, m), m)
  }

  /** A whole run, one moment after the other. */
  function Run(setup: Setup, s: Client, script: seq<Moment>): Client {
    if script == [] then s
    else Next(setup, Run(setup, s, script[..|script| - 1]), script[|script| - 1])
  }

  /** The states a run goes through. */
  ghost predicate Follows(setup: Setup, states: seq<Client>, script: seq<Moment>) {
    && |states| == |script| + 1
    && forall k :: 0 <= k < |script| ==> states[k + 1] == Next(setup, states[k], script[k])
  }

  lemma StatesOf(setup: Setup, s: Client, script: seq<Moment>) returns (states: seq<Client>)
    ensures Follows(setup, states, script) && states[0] == s && states[|script|] == Run(setup, s, script)
  {
    if script == [] {
      states := [s];
    } else {
      var n := |script| - 1;
      var before := StatesOf(setup, s, script[..n]);
      var last := Next(setup, before[n], script[n]);
      states := before + [last];
      forall k | 0 <= k < |script|
        ensures states[k + 1] == Next(setup, states[k], script[k])
      {
        if k < n {
          assert script[k] == script[..n][k];
        }
      }
    }
  }

  lemma {:induction false} StaysStopped(setup: Setup, states: seq<Client>, script: seq<Moment>, i: nat)
    requires Follows(setup, states, script) && i <= |script| && states[i].loc == Stopped
    ensures states[|script|] == states[i]
    decreases |script| - i
  {
    if i < |script| {
      StaysStopped(setup, states, script, i + 1);
    }
  }

  // ---- the code ----

  /** barrier_client_t, with the clock it reads; the place in the loops and the trace are kept for the
      specification. */
  class BarrierClient {
    var phase: Phase
    var running: bool
    var cursorEntered: bool
    var lastActivityMs: nat
    const reconnect: Reconnect
    const networkEvents: bool
    var now: nat
    ghost var loc: Loc
    ghost var trace: seq<Event>

    constructor (networkEvents: bool)
      ensures this.networkEvents == networkEvents && fresh(reconnect)
      ensures phase == IdlePhase && !running && !cursorEntered && trace == [] && reconnect.retryCount == 0
      ensures Params() == Setup(networkEvents, -1, BASE_DELAY_MS, MAX_DELAY_MS, JITTER_MS)
    {
      phase, running, cursorEntered, lastActivityMs := IdlePhase, false, false, 0;
      reconnect := new Reconnect();
      this.networkEvents := networkEvents;
      now, loc, trace := 0, Top, [];
    }

    ghost function Params(): Setup
      reads reconnect
    {
      Setup(networkEvents, reconnect.maxRetries, reconnect.baseDelayMs, reconnect.maxDelayMs, reconnect.jitterMs)
    }

    ghost function Abs(): Client
      reads this, reconnect
    {
      Client(loc, phase, running, cursorEntered, lastActivityMs, reconnect.retryCount, now, trace)
    }

    ghost method Note(e: Event)
      modifies this`trace
      ensures Abs() == Say(old(Abs()), e)
    {
      trace := trace + [e];
    }

    ghost method NoteCall(call: Call, cause: Cause, accepted: bool)
      modifies this`trace
      ensures Abs() == Do(old(Abs()), call, cause, accepted)
    {
      Note(Act(call, cause, accepted, now));
    }

    /** The surroundings move on to the next moment. */
    method Observe(m: Moment)
      modifies this`now, this`running
      ensures Abs() == Tick(old(Abs()), m)
    {
      now := now + m.elapsed;
      if m.stop {
        running := false;
      }
    }

    method Delay(random: u32)
      modifies this`trace, this`loc, reconnect`retryCount
      ensures Abs() == Pause(old(Params()), old(Abs()), random) && Params() == old(Params())
    {
      var delay := reconnect.Delay(random);
      Note(Wait(delay, random));
      loc := Top;
    }

    /** A changed configuration: the actuator's settings, and a new TLS client. */
    method ApplyConfig(m: Moment)
      modifies this`trace, this`loc, reconnect`retryCount
      ensures Abs() == Reconfigure(old(Params()), old(Abs()), m) && Params() == old(Params())
    {
      NoteCall(Queue(SetScreenSize(m.cfg.screenWidth, m.cfg.screenHeight)), Setting, m.accepts);
      NoteCall(Queue(SetScaling(m.cfg.scaling)), Setting, m.accepts);
      Note(Recreated(m.recreated));
      if !m.recreated {
        reconnect.Reset();
        Delay(m.random);
        return;
      }
      loc := Top;
    }

    method Stop()
      modifies this`phase, this`running, this`loc
      ensures Abs() == Halt(old(Abs()))
    {
      phase := IdlePhase;
      running := false;
      loc := Stopped;
    }

    /** One connection attempt. */
    method TryConnect(m: Moment) returns (next: Loc)
      modifies this`phase, this`running, this`trace, this`loc, reconnect`retryCount
      ensures Abs() == Connect(old(Params()), old(Abs()), m) && Params() == old(Params()) && loc == next
    {
      phase := Handshaking;
      if !m.handshake {
        phase := Offline;
        if !reconnect.ShouldRetry() {
          Stop();
          return Stopped;
        }
        Delay(m.random);
        return Top;
      }
      phase := Online;
      reconnect.Reset();
      NoteCall(Queue(Connected), Setting, m.accepts);
      loc := InSession;
      return InSession;
    }

    method QueueInput(cmd: Cmd, m: Moment) returns (ok: bool)
      modifies this`trace, this`lastActivityMs
      ensures Handled(Abs(), ok) == Enqueue(old(Abs()), cmd, m)
    {
      NoteCall(Queue(cmd), Handling, m.accepts);
      if !m.accepts {
        return false;
      }
      lastActivityMs := now;
      return true;
    }

    method Move(call: Call) returns (ok: bool)
      modifies this`trace, this`lastActivityMs
      ensures Handled(Abs(), ok) == Active(old(Abs()), call)
    {
      NoteCall(call, Handling, true);
      lastActivityMs := now;
      return true;
    }

    method HandleFieldless(kind: Kind, m: Moment) returns (ok: bool)
      modifies this`trace, this`cursorEntered
      ensures Handled(Abs(), ok) == HandleBare(old(Abs()), kind, m)
    {
      match kind {
        case QINF =>
          Note(Reply(DeviceInfo(0, 0, m.cfg.screenWidth, m.cfg.screenHeight, 0, 0, 0), m.sends));
          return m.sends;
        case CALV =>
          if m.cfg.keepAwake {
            NoteCall(Queue(Jiggle), Handling, m.accepts);
          }
          Note(Reply(Bare(CALV), m.sends));
          return m.sends;
        case COUT =>
          cursorEntered := false;
          NoteCall(Queue(Leave), Handling, m.accepts);
          return m.accepts;
        case CBYE | EUNK | EBSY | EBAD =>
          return false;
        case _ =>
          return true;
      }
    }

    /** The packets that queue a key, button or wheel command. */
    method DispatchInput(p: Packet, m: Moment) returns (ok: bool)
      requires p.KeyPress? || p.KeyRelease? || p.ButtonDown? || p.ButtonUp? || p.Wheel?
      modifies this`trace, this`lastActivityMs
      ensures Handled(Abs(), ok) == HandlePacket(old(Abs()), p, m)
    {
      match p {
        case KeyPress(key, mask, _) => ok := QueueInput(KeyDown(key, mask as bv16), m);
        case KeyRelease(key, mask, _) => ok := QueueInput(KeyUp(key, mask as bv16), m);
        case ButtonDown(id) => ok := QueueInput(MouseDown(id), m);
        case ButtonUp(id) => ok := QueueInput(MouseUp(id), m);
        case Wheel(dx, dy) => ok := QueueInput(MouseWheel(dx, dy), m);
      }
    }

    /** handle_packet */
    method Dispatch(p: Packet, m: Moment) returns (ok: bool)
      modifies this`trace, this`lastActivityMs, this`cursorEntered
      ensures Handled(Abs(), ok) == HandlePacket(old(Abs()), p, m)
    {
      match p {
        case Bare(kind) => ok := HandleFieldless(kind, m);
        case MoveAbs(x, y) => ok := Move(SetMovement(x, y));
        case MoveRel(dx, dy) => ok := Move(MoveRelative(dx, dy));
        case KeyPress(_, _, _) => ok := DispatchInput(p, m);
        case KeyRelease(_, _, _) => ok := DispatchInput(p, m);
        case KeyAgain(_, _, _, _) => ok := Move(Queue(KeyRepeat));
        case ButtonDown(_) => ok := DispatchInput(p, m);
        case ButtonUp(_) => ok := DispatchInput(p, m);
        case Wheel(_, _) => ok := DispatchInput(p, m);
        case CursorEnter(x, y, _, mask) =>
          cursorEntered := true;
          ok := QueueInput(Enter(x, y, mask as bv16), m);
        case Incompatible(_, _) => ok := false;
        case DeviceInfo(_, _, _, _, _, _, _) => ok := true;
        case GrabClipboard(_, _) => ok := true;
        case Clipboard(_, _) => ok := true;
      }
    }

    method JiggleIfIdle(m: Moment)
      modifies this`trace, this`lastActivityMs
      ensures Abs() == IdleCheck(old(Abs()), m)
    {
      if m.cfg.keepAwake && cursorEntered {
        if now - lastActivityMs > m.cfg.jiggleInterval * 1000 {
          NoteCall(Queue(Jiggle), Idle(m.cfg.jiggleInterval), m.accepts);
          lastActivityMs := now;
        }
      }
    }

    /** The body of the packet loop; false ends the loop. */
    method OnePacket(m: Moment) returns (stay: bool)
      requires running
      modifies this`trace, this`lastActivityMs, this`cursorEntered
      ensures GoOn(Abs(), stay) == AtSession(Params(), old(Abs()), m)
    {
      if m.read.Err? {
        if m.read.error.TimedOut? {
          JiggleIfIdle(m);
          return true;
        }
        return false;
      }
      if networkEvents && m.reconnect {
        return false;
      }
      stay := Dispatch(m.read.value, m);
    }

    /** The test in the wait for the network. */
    method WaitAt(m: Moment) returns (over: bool)
      requires loc == Waiting
      modifies this`now, this`running, this`loc
      ensures Abs() == Next(Params(), old(Abs()), m) && loc == if over then Connecting else Waiting
    {
      Observe(m);
      over := !running || m.hasIp;
      loc := if over then Connecting else Waiting;
    }

    /** The test and the body of the packet loop. */
    method ServeAt(m: Moment) returns (over: bool)
      requires loc == InSession
      modifies this`now, this`running, this`loc, this`trace, this`lastActivityMs, this`cursorEntered
      ensures Abs() == Next(Params(), old(Abs()), m) && loc == if over then Leaving else InSession
    {
      Observe(m);
      var stay := false;
      if running {
        stay := OnePacket(m);
      }
      over := !stay;
      loc := if over then Leaving else InSession;
    }

    /** At the connection attempt: a changed configuration is applied first. */
    method AttemptAt(m: Moment) returns (next: Loc)
      requires loc == Connecting
      modifies this`now, this`phase, this`running, this`trace, this`loc, reconnect`retryCount
      ensures Abs() == Next(old(Params()), old(Abs()), m) && Params() == old(Params()) && loc == next
      ensures next == Top || next == Stopped || next == InSession
    {
      Observe(m);
      if networkEvents && m.reconnect {
        ApplyConfig(m);
        return Top;
      }
      next := TryConnect(m);
    }

    /** After the packet loop. */
    method CleanUpAt(m: Moment) returns (next: Loc)
      requires loc == Leaving
      modifies this`now, this`phase, this`running, this`cursorEntered, this`trace, this`loc, reconnect`retryCount
      ensures Abs() == Next(old(Params()), old(Abs()), m) && Params() == old(Params()) && loc == next
      ensures next == Top || next == Stopped
    {
      Observe(m);
      phase := Offline;
      cursorEntered := false;
      NoteCall(Queue(Disconnected), Setting, true);
      if !running || !reconnect.ShouldRetry() {
        Stop();
        return Stopped;
      }
      Delay(m.random);
      return Top;
    }

    /** The outer loop's test. */
    method TestAt(m: Moment) returns (go: bool)
      requires loc == Top
      modifies this`now, this`running, this`phase, this`loc
      ensures Abs() == Next(Params(), old(Abs()), m)
      ensures loc == if go then (if networkEvents then Waiting else Connecting) else Stopped
    {
      Observe(m);
      if !running {
        Stop();
        return false;
      }
      loc := if networkEvents then Waiting else Connecting;
      return true;
    }

    /** The wait for the network; `over` is false if the script ends first. */
    method AwaitNetwork(script: seq<Moment>, from: nat, ghost states: seq<Client>) returns (i: nat, over: bool)
      requires Follows(Params(), states, script)
      requires from <= |script| && loc == Waiting && Abs() == states[from]
      modifies this`now, this`running, this`loc
      ensures from <= i <= |script| && Abs() == states[i]
      ensures if over then loc == Connecting else i == |script|
    {
      i := from;
      over := false;
      while i < |script| && !over
        invariant from <= i <= |script| && Abs() == states[i] && loc == if over then Connecting else Waiting
        decreases |script| - i
      {
        over := WaitAt(script[i]);
        i := i + 1;
      }
    }

    /** The packet loop. */
    method Serve(script: seq<Moment>, from: nat, ghost states: seq<Client>) returns (i: nat, over: bool)
      requires Follows(Params(), states, script)
      requires from <= |script| && loc == InSession && Abs() == states[from]
      modifies this`now, this`running, this`loc, this`trace, this`lastActivityMs, this`cursorEntered
      ensures from <= i <= |script| && Abs() == states[i]
      ensures if over then loc == Leaving else i == |script|
    {
      i := from;
      over := false;
      while i < |script| && !over
        invariant from <= i <= |script| && Abs() == states[i] && loc == if over then Leaving else InSession
        decreases |script| - i
      {
        over := ServeAt(script[i]);
        i := i + 1;
      }
    }

    /** A session: the packet loop and what follows it. */
    method Session(script: seq<Moment>, from: nat, ghost states: seq<Client>) returns (i: nat, next: Loc)
      requires Follows(Params(), states, script)
      requires from <= |script| && loc == InSession && Abs() == states[from]
      modifies this, reconnect`retryCount
      ensures from <= i <= |script| && Params() == old(Params()) && Abs() == states[i]
      ensures i == |script| || (loc == next && (next == Top || next == Stopped))
    {
      var over;
      i, over := Serve(script, from, states);
      next := Leaving;
      if over && i < |script| {
        next := CleanUpAt(script[i]);
        i := i + 1;
      }
    }

    /** One round of the outer loop, from its test to the next. */
    method Round(script: seq<Moment>, from: nat, ghost states: seq<Client>) returns (i: nat, next: Loc)
      requires Follows(Params(), states, script)
      requires from <= |script| && loc == (if networkEvents then Waiting else Connecting) && Abs() == states[from]
      modifies this, reconnect`retryCount
      ensures from <= i <= |script| && Params() == old(Params()) && Abs() == states[i]
      ensures i == |script| || (loc == next && (next == Top || next == Stopped))
    {
      i := from;
      next := Connecting;
      if networkEvents {
        var over;
        i, over := AwaitNetwork(script, i, states);
      }
      if i == |script| {
        return;
      }
      next := AttemptAt(script[i]);
      i := i + 1;
      if next == InSession {
        i, next := Session(script, i, states);
      }
    }

    /** barrier_client_task, up to its end or the end of the script. */
    method Task(script: seq<Moment>, startedAt: nat)
      requires !cursorEntered && phase == IdlePhase && trace == []
      modifies this, reconnect`retryCount
      ensures Abs() == Run(old(Params()), Started(startedAt, old(reconnect.retryCount)), script)
      ensures Params() == old(Params())
    {
      ghost var states := StatesOf(Params(), Started(startedAt, reconnect.retryCount), script);
      running := true;
      lastActivityMs, now, loc := startedAt, startedAt, Top;
      var i := 0;
      while i < |script|
        invariant i <= |script| && Params() == old(Params()) && Abs() == states[i]
        invariant loc == Top || i == |script|
        decreases |script| - i
      {
        var go := TestAt(script[i]);
        i := i + 1;
        var next := Stopped;
        if go {
          i, next := Round(script, i, states);
        }
        if next == Stopped && i < |script| {
          StaysStopped(Params(), states, script, i);
          return;
        }
      }
    }
  }
}
