/** The network task and the HID task of main/tusb/tusb_actuator.c as one transition system.
    Every shared access (target_x, target_y, movement_pending, the queue, the notification) is a
    step of its own. An event says which task moves and how its environment answers. */
module TwoTask {
  import opened HidScaling
  import opened Commands

  /** Where the network task stands. */
  datatype NetPc =
    | Idle
    | WriteX(x: u16, y: u16)
    | WriteY(y: u16)
    | RelReadX(dx: i16, dy: i16)
    | RelReadY(nx: int, dy: i16)
    | RelWriteX(nx: int, ny: int)
    | RelWriteY(ny: int)
    | SetPending
    | NotifyMovement
    | Flush
    | Send(cmd: Cmd)
    | NotifyQueue
    | DumpDepth
    | Dump(left: nat)

  /** What the HID task does after send_abs_mouse_once returns. */
  datatype After = ToQueue | ToTop | ToKeyboard | ToMoveBack(x: u16, y: u16)

  /** Where the HID task stands. */
  datatype HidPc =
    | Top
    | ReadX(after: After)
    | ReadY(after: After, hx: u16)
    | TryOnce(after: After, hx: u16, hy: u16)
    | Receive
    | Sleep
    | Dispatch(cmd: Cmd)
    | Keyboard(leaving: bool)
    | KeyboardWait(leaving: bool)
    | RetryReadX
    | RetryReadY(hx: u16)
    | Retry(hx: u16, hy: u16, important: bool)
    | RetryWait(hx: u16, hy: u16)
    | EnterX(x: u16, y: u16, keyboard: bool)
    | EnterY(y: u16, keyboard: bool)
    | JiggleReadX
    | JiggleReadY(x: u16)
    | JiggleX(x: u16, y: u16)
    | JiggleY(x: u16, y: u16)
    | BackX(x: u16, y: u16)
    | BackY(y: u16)
    | ResizeY(h: u16)

  /** A queued command and the session it was queued in; the session is bookkeeping only. */
  datatype Entry = Entry(cmd: Cmd, session: nat)

  /** What both tasks see: the target, movement_pending, the queue, the HID task's notification.
      `session` counts the flushes; it is bookkeeping and no step branches on it. */
  datatype Shared = Shared(
    targetX: u16, targetY: u16, pending: bool, queue: seq<Entry>, notified: bool, session: nat)

  /** The fields only the HID task writes. `aimX` and `aimY` are bookkeeping: the coordinates of the last finished
      attempt to report, accepted or refused. A movement taken while the device is unmounted and a change of the
      screen size count as attempts at the target of that moment. No step branches on them. */
  datatype Device = Device(
    width: u16, height: u16, buttons: bv8, wheel: i8, sentX: u16, sentY: u16, sentButtons: bv8,
    aimX: u16, aimY: u16)

  datatype State = State(mem: Shared, dev: Device, net: NetPc, hid: HidPc)

  datatype Event =
    | Net(call: Call, spurious: bool, giveUp: bool)
    | Hid(env: HidEnv)
    | UsbComplete

  /** How the HID task's environment answers: tud_hid_report, tud_mounted, a spurious failure of the weak
      compare-and-swap, and the one-second timeout of the idle wait. */
  datatype HidEnv = HidEnv(accepted: bool, mounted: bool, spurious: bool, timeout: bool)

  predicate Init(s: State) {
    && s.net == Idle && s.hid == Top && !s.mem.pending && !s.mem.notified
    && s.mem.targetX == s.mem.targetY == s.dev.sentX == s.dev.sentY == s.dev.aimX == s.dev.aimY == 0
    && |s.mem.queue| <= QUEUE_DEPTH && s.mem.session == 0
    && (forall e <- s.mem.queue :: e.session == 0)
  }

  // ---- the network task ----

  function StartCall(call: Call): NetPc {
    match call
    case SetMovement(x, y) => WriteX(x, y)
    case MoveRelative(dx, dy) => RelReadX(dx, dy)
    case Queue(cmd) => if cmd.Disconnected? then Flush else Send(cmd)
  }

  /** actuator_set_movement and actuator_move_relative, up to the compare-and-swap. */
  function MovementStep(m: Shared, dev: Device, pc: NetPc): (Shared, NetPc) {
    match pc
    case WriteX(x, y) => (m.(targetX := x), WriteY(y))
    case WriteY(y) => (m.(targetY := y), SetPending)
    case RelReadX(dx, dy) => (m, RelReadY(m.targetX + dx, dy))
    case RelReadY(nx, dy) => (m, RelWriteX(nx, m.targetY + dy))
    case RelWriteX(nx, ny) => (m.(targetX := ClampU16(nx, LastPixel(dev.width))), RelWriteY(ny))
    case RelWriteY(ny) => (m.(targetY := ClampU16(ny, LastPixel(dev.height))), SetPending)
    case _ => (m, pc)
  }

  /** _notify_movement, _q, _dump_queue and the flush of actuator_queue_disconnected. */
  function SignalStep(m: Shared, pc: NetPc, spurious: bool, giveUp: bool): (Shared, NetPc) {
    match pc
    case SetPending => if !m.pending && !spurious then (m.(pending := true), NotifyMovement) else (m, Idle)
    case NotifyMovement => (m.(notified := true), Idle)
    case Flush =>
      if m.queue != [] then (m.(queue := m.queue[1..]), Flush)
      else (m.(session := m.session + 1), Send(Disconnected))
    case Send(cmd) =>
      if |m.queue| < QUEUE_DEPTH then (m.(queue := m.queue + [Entry(cmd, m.session)]), NotifyQueue)
      else if giveUp then (m, DumpDepth)
      else (m, pc)
    case NotifyQueue => (m.(notified := true), Idle)
    case DumpDepth => (m, Dump(|m.queue|))
    case Dump(left) =>
      if left == 0 then (m, Idle)
      else (m.(queue := if m.queue == [] then [] else m.queue[1..]), Dump(left - 1))
    case _ => (m, pc)
  }

  predicate Moving(pc: NetPc) {
    pc.WriteX? || pc.WriteY? || pc.RelReadX? || pc.RelReadY? || pc.RelWriteX? || pc.RelWriteY?
  }

  function NetNext(s: State, call: Call, spurious: bool, giveUp: bool): State {
    if s.net.Idle? then s.(net := StartCall(call))
    else
      var (m, pc) := if Moving(s.net) then MovementStep(s.mem, s.dev, s.net)
                     else SignalStep(s.mem, s.net, spurious, giveUp);
      s.(mem := m, net := pc)
  }

  // ---- the HID task ----

  function Continue(after: After): HidPc {
    match after
    case ToQueue => Receive
    case ToTop => Top
    case ToKeyboard => Keyboard(false)
    case ToMoveBack(x, y) => BackX(x, y)
  }

  function Reported(dev: Device, hx: u16, hy: u16): Device {
    dev.(sentX := hx, sentY := hy, sentButtons := dev.buttons, wheel := 0, aimX := hx, aimY := hy)
  }

  /** An attempt that ends without a report. */
  function Attempted(dev: Device, hx: u16, hy: u16): Device {
    dev.(aimX := hx, aimY := hy)
  }

  function Widen(m: Shared, dev: Device, w: u16): Device {
    dev.(width := w, aimX := if w == dev.width then dev.aimX else ToHid(w, m.targetX))
  }

  function Heighten(m: Shared, dev: Device, h: u16): Device {
    dev.(height := h, aimY := if h == dev.height then dev.aimY else ToHid(h, m.targetY))
  }

  /** The start of each case of the command switch: device fields and where the case goes on. */
  function Execute(m: Shared, dev: Device, cmd: Cmd): (Device, HidPc) {
    match cmd
    case KeyDown(_, _) => (dev, Keyboard(false))
    case KeyUp(_, _) => (dev, Keyboard(false))
    case KeyRepeat => (dev, Top)
    case MouseDown(b) => (dev.(buttons := PressButton(dev.buttons, b)), RetryReadX)
    case MouseUp(b) => (dev.(buttons := ReleaseButton(dev.buttons, b)), RetryReadX)
    case MouseWheel(_, dy) => (dev.(wheel := Damp(dy)), RetryReadX)
    case Enter(x, y, mask) => (dev, EnterX(x, y, mask != 0))
    case Leave => (dev, Keyboard(true))
    case Jiggle => (dev, JiggleReadX)
    case Connected => (dev, Top)
    case Disconnected => (dev.(buttons := 0, wheel := 0), Top)
    case SetScreenSize(w, h) => (Widen(m, dev, w), ResizeY(h))
    case SetScaling(_) => (dev, Top)
  }

  /** The loop itself: flag check, queue check, idle wait. */
  function LoopStep(m: Shared, dev: Device, pc: HidPc, env: HidEnv): (Shared, Device, HidPc) {
    match pc
    case Top =>
      if m.pending && !env.spurious then
        if env.mounted then (m.(pending := false), dev, ReadX(ToQueue))
        else (m.(pending := false), Attempted(dev, ToHid(dev.width, m.targetX), ToHid(dev.height, m.targetY)), Receive)
      else (m, dev, Receive)
    case Receive =>
      if m.queue == [] then (m, dev, Sleep)
      else (m.(queue := m.queue[1..]), dev, Dispatch(m.queue[0].cmd))
    case Sleep =>
      if m.notified then (m.(notified := false), dev, Top)
      else if env.timeout then (m, dev, Top)
      else (m, dev, Sleep)
    case Dispatch(cmd) =>
      if env.mounted then
        var (d, next) := Execute(m, dev, cmd);
        (m, d, next)
      else (m, dev, Top)
    case _ => (m, dev, pc)
  }

  /** send_kb_report and send_abs_mouse_retry; a refused report waits for a notification. */
  function BlockingStep(m: Shared, dev: Device, pc: HidPc, env: HidEnv): (Shared, Device, HidPc) {
    match pc
    case Keyboard(leaving) =>
      if !env.accepted then (m, dev, KeyboardWait(leaving))
      else if leaving then (m, dev.(buttons := 0, wheel := 0), ReadX(ToTop))
      else (m, dev, Top)
    case KeyboardWait(leaving) =>
      if m.notified then (m.(notified := false), dev, Keyboard(leaving)) else (m, dev, pc)
    case RetryReadX => (m, dev, RetryReadY(ToHid(dev.width, m.targetX)))
    case RetryReadY(hx) => (m, dev, Retry(hx, ToHid(dev.height, m.targetY), dev.buttons != dev.sentButtons))
    case Retry(hx, hy, important) =>
      if env.accepted then (m, Reported(dev, hx, hy), Top)
      else if important then (m, dev, RetryWait(hx, hy))
      else (m, Attempted(dev, hx, hy), Top)
    case RetryWait(hx, hy) =>
      if m.notified then (m.(notified := false), dev, Retry(hx, hy, true)) else (m, dev, pc)
    case _ => (m, dev, pc)
  }

  /** send_abs_mouse_once */
  function OnceStep(m: Shared, dev: Device, pc: HidPc, env: HidEnv): (Shared, Device, HidPc) {
    match pc
    case ReadX(a) => (m, dev, ReadY(a, ToHid(dev.width, m.targetX)))
    case ReadY(a, hx) => (m, dev, TryOnce(a, hx, ToHid(dev.height, m.targetY)))
    case TryOnce(a, hx, hy) =>
      if hx == dev.sentX && hy == dev.sentY && dev.buttons == dev.sentButtons && dev.wheel == 0 then
        (m, Attempted(dev, hx, hy), Continue(a))
      else if env.accepted then (m, Reported(dev, hx, hy), Continue(a))
      else (m, Attempted(dev, hx, hy), Continue(a))
    case _ => (m, dev, pc)
  }

  /** The target writes of ENTER and JIGGLE and the second half of SET_SCREEN_SIZE. */
  function WriteStep(m: Shared, dev: Device, pc: HidPc): (Shared, Device, HidPc) {
    match pc
    case EnterX(x, y, kb) => (m.(targetX := x), dev, EnterY(y, kb))
    case EnterY(y, kb) => (m.(targetY := y), dev, ReadX(if kb then ToKeyboard else ToTop))
    case JiggleReadX => (m, dev, JiggleReadY(m.targetX))
    case JiggleReadY(x) => (m, dev, JiggleX(x, m.targetY))
    case JiggleX(x, y) => (m.(targetX := JiggleTo(x, dev.width)), dev, JiggleY(x, y))
    case JiggleY(x, y) => (m.(targetY := y), dev, ReadX(ToMoveBack(x, y)))
    case BackX(x, y) => (m.(targetX := x), dev, BackY(y))
    case BackY(y) => (m.(targetY := y), dev, ReadX(ToTop))
    case ResizeY(h) => (m, Heighten(m, dev, h), Top)
    case _ => (m, dev, pc)
  }

  predicate InLoop(pc: HidPc) {
    pc.Top? || pc.Receive? || pc.Sleep? || pc.Dispatch?
  }

  predicate InOnce(pc: HidPc) {
    pc.ReadX? || pc.ReadY? || pc.TryOnce?
  }

  predicate Blocking(pc: HidPc) {
    pc.Keyboard? || pc.KeyboardWait? || pc.RetryReadX? || pc.RetryReadY? || pc.Retry? || pc.RetryWait?
  }

  function HidNext(s: State, env: HidEnv): State {
    var (m, dev, pc) :=
      if InLoop(s.hid) then LoopStep(s.mem, s.dev, s.hid, env)
      else if Blocking(s.hid) then BlockingStep(s.mem, s.dev, s.hid, env)
      else if InOnce(s.hid) then OnceStep(s.mem, s.dev, s.hid, env)
      else WriteStep(s.mem, s.dev, s.hid);
    s.(mem := m, dev := dev, hid := pc)
  }

  function Next(s: State, e: Event): State {
    match e
    case Net(call, spurious, giveUp) => NetNext(s, call, spurious, giveUp)
    case Hid(env) => HidNext(s, env)
    case UsbComplete => s.(mem := s.mem.(notified := true))
  }

  function Run(s: State, events: seq<Event>): State
    decreases |events|
  {
    if events == [] then s else Run(Next(s, events[0]), events[1..])
  }

  /** The environment assumption on the weak compare-and-swap: it does not fail spuriously. */
  predicate Strong(e: Event) {
    match e
    case Net(_, spurious, _) => !spurious
    case Hid(env) => !env.spurious
    case UsbComplete => true
  }

  predicate StrongRun(events: seq<Event>) {
    forall e <- events :: Strong(e)
  }

  lemma {:induction false} RunConcat(s: State, before: seq<Event>, after: seq<Event>)
    ensures Run(s, before + after) == Run(Run(s, before), after)
    decreases |before|
  {
    if before == [] {
      assert before + after == after;
    } else {
      assert (before + after)[1..] == before[1..] + after;
      RunConcat(Next(s, before[0]), before[1..], after);
    }
  }

  lemma RunOne(s: State, e: Event, after: seq<Event>)
    ensures Run(s, [e] + after) == Run(Next(s, e), after)
  {
  }

  lemma RunThree(s: State, e: Event, f: Event, g: Event)
    ensures Run(s, [e, f, g]) == Next(Next(Next(s, e), f), g)
  {
    assert [e, f, g] == [e] + [f, g] && [f, g] == [f] + [g] && [g] == [g] + [];
    RunOne(s, e, [f, g]);
    RunOne(Next(s, e), f, [g]);
    RunOne(Next(Next(s, e), f), g, []);
  }

  // ---- no lost wake-up ----

  /** The HID task has made its flag check and may go to sleep without making it again. */
  predicate PastFlagCheck(pc: HidPc) {
    pc.Receive? || pc.Sleep? || ((pc.ReadX? || pc.ReadY? || pc.TryOnce?) && pc.after.ToQueue?)
  }

  predicate WakeUpDue(m: Shared, net: NetPc, hid: HidPc) {
    && (m.pending && PastFlagCheck(hid) ==> m.notified || net.NotifyMovement?)
    && (m.queue != [] && hid.Sleep? ==> m.notified || net.NotifyQueue?)
  }

  // ---- queue discipline ----

  predicate QueueSound(m: Shared, net: NetPc) {
    && |m.queue| <= QUEUE_DEPTH
    && (forall e <- m.queue :: e.session == m.session)
    && (net == Send(Disconnected) ==> m.queue == [])
  }

  // ---- position convergence ----

  predicate XInFlux(m: Shared, net: NetPc) {
    m.pending || net.WriteY? || net.RelWriteY? || net.SetPending?
  }

  predicate YInFlux(m: Shared, net: NetPc) {
    m.pending || net.SetPending?
  }

  predicate XIs(m: Shared, dev: Device, net: NetPc, hx: u16) {
    XInFlux(m, net) || hx == ToHid(dev.width, m.targetX)
  }

  predicate YIs(m: Shared, dev: Device, net: NetPc, hy: u16) {
    YInFlux(m, net) || hy == ToHid(dev.height, m.targetY)
  }

  /** The HID task will read both coordinates afresh before it is back at the top of its loop. */
  predicate WillReport(pc: HidPc) {
    || pc.ReadX? || pc.RetryReadX? || pc.EnterX? || pc.EnterY? || pc.JiggleReadX? || pc.JiggleReadY?
    || pc.JiggleX? || pc.JiggleY? || pc.BackX? || pc.BackY?
    || ((pc.Keyboard? || pc.KeyboardWait?) && pc.leaving)
  }

  /** The x coordinate the HID task carries towards its next report, else that of its last attempt. */
  function HeldX(dev: Device, pc: HidPc): u16 {
    if pc.ReadY? || pc.TryOnce? || pc.RetryReadY? || pc.Retry? || pc.RetryWait? then pc.hx else dev.aimX
  }

  function HeldY(dev: Device, pc: HidPc): u16 {
    if pc.TryOnce? || pc.Retry? || pc.RetryWait? then pc.hy else dev.aimY
  }

  predicate PositionTracked(m: Shared, dev: Device, net: NetPc, hid: HidPc) {
    || WillReport(hid)
    || (XIs(m, dev, net, HeldX(dev, hid)) && (hid.ReadY? || hid.RetryReadY? || YIs(m, dev, net, HeldY(dev, hid))))
  }

  predicate Inv(s: State) {
    && WakeUpDue(s.mem, s.net, s.hid)
    && QueueSound(s.mem, s.net)
    && PositionTracked(s.mem, s.dev, s.net, s.hid)
  }

  lemma InitInv(s: State)
    requires Init(s)
    ensures Inv(s)
  {
  }

  lemma MovementKeeps(m: Shared, dev: Device, net: NetPc, hid: HidPc)
    requires WakeUpDue(m, net, hid) && QueueSound(m, net) && PositionTracked(m, dev, net, hid) && Moving(net)
    ensures var (m', net') := MovementStep(m, dev, net);
            WakeUpDue(m', net', hid) && QueueSound(m', net') && PositionTracked(m', dev, net', hid)
  {
  }

  lemma SignalKeeps(m: Shared, dev: Device, net: NetPc, hid: HidPc, giveUp: bool)
    requires WakeUpDue(m, net, hid) && QueueSound(m, net) && PositionTracked(m, dev, net, hid)
    ensures var (m', net') := SignalStep(m, net, false, giveUp);
            WakeUpDue(m', net', hid) && QueueSound(m', net') && PositionTracked(m', dev, net', hid)
  {
  }

  lemma ExecuteKeeps(m: Shared, dev: Device, net: NetPc, hid: HidPc, cmd: Cmd)
    requires hid.Dispatch? && PositionTracked(m, dev, net, hid)
    ensures var (dev', hid') := Execute(m, dev, cmd);
            !PastFlagCheck(hid') && !hid'.Sleep? && PositionTracked(m, dev', net, hid')
  {
  }

  lemma LoopKeeps(m: Shared, dev: Device, net: NetPc, hid: HidPc, env: HidEnv)
    requires WakeUpDue(m, net, hid) && QueueSound(m, net) && PositionTracked(m, dev, net, hid)
    requires InLoop(hid) && !env.spurious
    ensures var (m', dev', hid') := LoopStep(m, dev, hid, env);
            WakeUpDue(m', net, hid') && QueueSound(m', net) && PositionTracked(m', dev', net, hid')
  {
    if hid.Dispatch? {
      ExecuteKeeps(m, dev, net, hid, hid.cmd);
    }
  }

  lemma KeyboardKeeps(m: Shared, dev: Device, net: NetPc, hid: HidPc, env: HidEnv)
    requires WakeUpDue(m, net, hid) && QueueSound(m, net) && PositionTracked(m, dev, net, hid)
    requires hid.Keyboard? || hid.KeyboardWait?
    ensures var (m', dev', hid') := BlockingStep(m, dev, hid, env);
            WakeUpDue(m', net, hid') && QueueSound(m', net) && PositionTracked(m', dev', net, hid')
  {
  }

  lemma RetryKeeps(m: Shared, dev: Device, net: NetPc, hid: HidPc, env: HidEnv)
    requires WakeUpDue(m, net, hid) && QueueSound(m, net) && PositionTracked(m, dev, net, hid)
    requires hid.RetryReadX? || hid.RetryReadY? || hid.Retry? || hid.RetryWait?
    ensures var (m', dev', hid') := BlockingStep(m, dev, hid, env);
            WakeUpDue(m', net, hid') && QueueSound(m', net) && PositionTracked(m', dev', net, hid')
  {
  }

  lemma OnceKeeps(m: Shared, dev: Device, net: NetPc, hid: HidPc, env: HidEnv)
    requires WakeUpDue(m, net, hid) && QueueSound(m, net) && PositionTracked(m, dev, net, hid) && InOnce(hid)
    ensures var (m', dev', hid') := OnceStep(m, dev, hid, env);
            WakeUpDue(m', net, hid') && QueueSound(m', net) && PositionTracked(m', dev', net, hid')
  {
  }

  lemma WriteKeeps(m: Shared, dev: Device, net: NetPc, hid: HidPc)
    requires WakeUpDue(m, net, hid) && QueueSound(m, net) && PositionTracked(m, dev, net, hid)
    requires !InLoop(hid) && !Blocking(hid) && !InOnce(hid)
    ensures var (m', dev', hid') := WriteStep(m, dev, hid);
            WakeUpDue(m', net, hid') && QueueSound(m', net) && PositionTracked(m', dev', net, hid')
  {
  }

  lemma StepKeepsInv(s: State, e: Event)
    requires Inv(s) && Strong(e)
    ensures Inv(Next(s, e))
  {
    match e {
      case Net(call, _, giveUp) =>
        if Moving(s.net) {
          MovementKeeps(s.mem, s.dev, s.net, s.hid);
        } else if !s.net.Idle? {
          SignalKeeps(s.mem, s.dev, s.net, s.hid, giveUp);
        }
      case Hid(env) =>
        if InLoop(s.hid) {
          LoopKeeps(s.mem, s.dev, s.net, s.hid, env);
        } else if s.hid.Keyboard? || s.hid.KeyboardWait? {
          KeyboardKeeps(s.mem, s.dev, s.net, s.hid, env);
        } else if Blocking(s.hid) {
          RetryKeeps(s.mem, s.dev, s.net, s.hid, env);
        } else if InOnce(s.hid) {
          OnceKeeps(s.mem, s.dev, s.net, s.hid, env);
        } else {
          WriteKeeps(s.mem, s.dev, s.net, s.hid);
        }
      case UsbComplete =>
    }
  }

  lemma {:induction false} RunKeepsInv(s: State, events: seq<Event>)
    requires Inv(s) && StrongRun(events)
    ensures Inv(Run(s, events))
    decreases |events|
  {
    if events != [] {
      StepKeepsInv(s, events[0]);
      RunKeepsInv(Next(s, events[0]), events[1..]);
    }
  }

  // ---- main results ----

  /** In every reachable state: if the HID task sleeps, or is on its way to sleep, with work waiting, the
      wake-up is latched or the network task is just about to give it. */
  lemma NoLostWakeUp(start: State, events: seq<Event>)
    requires Init(start) && StrongRun(events)
    ensures var s := Run(start, events);
            && (PastFlagCheck(s.hid) && s.mem.pending ==> s.mem.notified || s.net.NotifyMovement?)
            && (s.hid.Sleep? && s.mem.queue != [] ==> s.mem.notified || s.net.NotifyQueue?)
  {
    InitInv(start);
    RunKeepsInv(start, events);
  }

  /** So with work waiting and the network task idle, no timeout is needed to get a sleeping HID task
      back to the top of its loop. */
  lemma SleeperWakes(start: State, events: seq<Event>, env: HidEnv)
    requires Init(start) && StrongRun(events)
    ensures var s := Run(start, events);
            s.hid.Sleep? && s.net.Idle? && (s.mem.pending || s.mem.queue != []) ==> HidNext(s, env).hid == Top
  {
    NoLostWakeUp(start, events);
  }

  predicate Converged(s: State) {
    s.dev.sentX == ToHid(s.dev.width, s.mem.targetX) && s.dev.sentY == ToHid(s.dev.height, s.mem.targetY)
  }

  predicate Quiescent(s: State) {
    s.net.Idle? && !s.mem.pending && InLoop(s.hid) && !s.hid.Dispatch?
  }

  /** The last attempt to report ended without the host being there. */
  predicate Behind(dev: Device) {
    dev.sentX != dev.aimX || dev.sentY != dev.aimY
  }

  /** Whatever the interleaving, once the writer is idle and the flag is clear, the last report carries the
      current target if and only if the last attempt to report was not behind. */
  lemma ConvergedIff(start: State, events: seq<Event>)
    requires Init(start) && StrongRun(events)
    ensures var s := Run(start, events); Quiescent(s) ==> (Converged(s) <==> !Behind(s.dev))
  {
    InitInv(start);
    RunKeepsInv(start, events);
  }

  predicate Elsewhere(dev: Device, hx: u16, hy: u16) {
    hx != dev.sentX || hy != dev.sentY
  }

  /** The guards of the steps that leave the host with an old position: a report with new coordinates refused for
      good, a movement taken while the device is unmounted, a new screen size under which the target scales
      differently. */
  predicate Cause(s: State, e: Event) {
    e.Hid? &&
      match s.hid
      case TryOnce(_, hx, hy) => !e.env.accepted && Elsewhere(s.dev, hx, hy)
      case Retry(hx, hy, important) => !e.env.accepted && !important && Elsewhere(s.dev, hx, hy)
      case Top =>
        s.mem.pending && !e.env.spurious && !e.env.mounted &&
        Elsewhere(s.dev, ToHid(s.dev.width, s.mem.targetX), ToHid(s.dev.height, s.mem.targetY))
      case Dispatch(cmd) =>
        e.env.mounted && cmd.SetScreenSize? && cmd.w != s.dev.width && ToHid(cmd.w, s.mem.targetX) != s.dev.sentX
      case ResizeY(h) => h != s.dev.height && ToHid(h, s.mem.targetY) != s.dev.sentY
      case _ => false
  }

  predicate CauseFree(s: State, events: seq<Event>)
    decreases |events|
  {
    events == [] || (!Cause(s, events[0]) && CauseFree(Next(s, events[0]), events[1..]))
  }

  /** The step ends an attempt to bring the position to the host, or takes the place of one. */
  predicate EndsAttempt(s: State, e: Event) {
    e.Hid? &&
      match s.hid
      case TryOnce(_, _, _) => true
      case Retry(_, _, important) => e.env.accepted || !important
      case Top => s.mem.pending && !e.env.spurious && !e.env.mounted
      case _ => false
  }

  predicate SameScreen(s: State, t: State) {
    t.dev.width == s.dev.width && t.dev.height == s.dev.height
  }

  lemma ExecuteBehind(m: Shared, dev: Device, cmd: Cmd)
    ensures !Behind(dev) ==>
              (Behind(Execute(m, dev, cmd).0) <==>
               cmd.SetScreenSize? && cmd.w != dev.width && ToHid(cmd.w, m.targetX) != dev.sentX)
    ensures !cmd.SetScreenSize? || cmd.w == dev.width ==> (Behind(Execute(m, dev, cmd).0) <==> Behind(dev))
  {
  }

  /** From every state: a step that ends an attempt leaves the host behind if and only if it is a cause, and one that
      neither ends an attempt nor changes the screen changes nothing. */
  lemma AttemptDecides(s: State, e: Event)
    ensures EndsAttempt(s, e) ==> (Behind(Next(s, e).dev) <==> Cause(s, e))
    ensures !EndsAttempt(s, e) && SameScreen(s, Next(s, e)) ==> (Behind(Next(s, e).dev) <==> Behind(s.dev))
  {
    if e.Hid? && s.hid.Dispatch? {
      ExecuteBehind(s.mem, s.dev, s.hid.cmd);
    }
  }

  /** A host that is not behind falls behind in a step if and only if that step is a cause. */
  lemma FallsBehindIff(s: State, e: Event)
    requires !Behind(s.dev)
    ensures Behind(Next(s, e).dev) <==> Cause(s, e)
  {
    if e.Hid? && s.hid.Dispatch? {
      ExecuteBehind(s.mem, s.dev, s.hid.cmd);
    }
  }

  /** Whether the last attempt of a run was a cause; `was` if there was none. */
  predicate LastAttemptFailed(s: State, events: seq<Event>, was: bool)
    decreases |events|
  {
    if events == [] then was
    else
      LastAttemptFailed(Next(s, events[0]), events[1..],
                        if EndsAttempt(s, events[0]) then Cause(s, events[0]) else was)
  }

  predicate ScreenKept(s: State, events: seq<Event>)
    decreases |events|
  {
    events == [] || (SameScreen(s, Next(s, events[0])) && ScreenKept(Next(s, events[0]), events[1..]))
  }

  lemma {:induction false} LastAttemptDecides(s: State, events: seq<Event>)
    requires ScreenKept(s, events)
    ensures Behind(Run(s, events).dev) <==> LastAttemptFailed(s, events, Behind(s.dev))
    decreases |events|
  {
    if events != [] {
      AttemptDecides(s, events[0]);
      LastAttemptDecides(Next(s, events[0]), events[1..]);
    }
  }

  /** While the screen stays the same: at every quiescent point the host has the current target if and only if the last
      attempt was not a cause, or there was none and the host was not behind. */
  lemma LastAttemptConverges(start: State, before: seq<Event>, during: seq<Event>)
    requires Init(start) && StrongRun(before + during) && ScreenKept(Run(start, before), during)
    ensures var s := Run(start, before);
            var t := Run(s, during);
            Quiescent(t) ==> (Converged(t) <==> !LastAttemptFailed(s, during, Behind(s.dev)))
  {
    RunConcat(start, before, during);
    ConvergedIff(start, before + during);
    LastAttemptDecides(Run(start, before), during);
  }

  lemma {:induction false} CauseFreeNotBehind(s: State, events: seq<Event>)
    requires !Behind(s.dev) && CauseFree(s, events)
    ensures !Behind(Run(s, events).dev)
    decreases |events|
  {
    if events != [] {
      FallsBehindIff(s, events[0]);
      CauseFreeNotBehind(Next(s, events[0]), events[1..]);
    }
  }

  /** With none of these steps, it always converges. */
  lemma Converges(start: State, events: seq<Event>)
    requires Init(start) && StrongRun(events) && CauseFree(start, events)
    ensures var s := Run(start, events); Quiescent(s) ==> Converged(s)
  {
    ConvergedIff(start, events);
    CauseFreeNotBehind(start, events);
  }

  /** The flush closes a session for good: whatever the HID task can still take from the queue was queued
      after the latest flush, and DISCONNECTED is always queued at once, into an empty queue. */
  lemma SessionsAreSeparated(start: State, events: seq<Event>, call: Call, giveUp: bool)
    requires Init(start) && StrongRun(events)
    ensures var s := Run(start, events);
            && (forall e <- s.mem.queue :: e.session == s.mem.session)
            && (s.net == Send(Disconnected) ==>
                  var t := NetNext(s, call, false, giveUp);
                  t.mem.queue == [Entry(Disconnected, s.mem.session)] && t.net.NotifyQueue?)
  {
    InitInv(start);
    RunKeepsInv(start, events);
  }

  // ---- where the assumptions are needed ----

  function BootState(w: u16, h: u16): State {
    State(Shared(0, 0, false, [], false, 0), Device(w, h, 0, 0, 0, 0, 0, 0, 0), Idle, Top)
  }

  const STEP: Event := Hid(HidEnv(true, true, false, false))
  const NET: Event := Net(SetMovement(5, 5), false, false)

  lemma {:induction false} TraceIsRun(trace: seq<State>, events: seq<Event>)
    requires |trace| == |events| + 1
    requires forall i :: 0 <= i < |events| ==> trace[i + 1] == Next(trace[i], events[i])
    ensures Run(trace[0], events) == trace[|events|]
    ensures (forall i :: 0 <= i < |events| ==> !Cause(trace[i], events[i])) ==> CauseFree(trace[0], events)
    decreases |events|
  {
    if events != [] {
      TraceIsRun(trace[1..], events[1..]);
    }
  }

  /** One spurious failure of the network task's compare-and-swap loses a movement for good. */
  lemma SpuriousProducerLosesMovement() returns (start: State, events: seq<Event>)
    ensures Init(start) && CauseFree(start, events)
    ensures var s := Run(start, events);
            Quiescent(s) && s.hid.Sleep? && !s.mem.notified && !Converged(s)
  {
    var s0 := BootState(11, 11);
    var lost := Net(SetMovement(5, 5), true, false);
    var s1 := Next(s0, NET);
    var s2 := Next(s1, NET);
    var s3 := Next(s2, NET);
    var s4 := Next(s3, lost);
    var s5 := Next(s4, STEP);
    var s6 := Next(s5, STEP);
    start, events := s0, [NET, NET, NET, lost, STEP, STEP];
    TraceIsRun([s0, s1, s2, s3, s4, s5, s6], events);
  }

  /** One complete actuator_set_movement from boot: the flag is up and the notification latched. */
  lemma MoveFromBoot() returns (moved: State)
    ensures moved == BootState(11, 11).(mem := Shared(5, 5, true, [], true, 0))
    ensures moved == Run(BootState(11, 11), [NET, NET, NET, NET, NET])
  {
    var s1 := Next(BootState(11, 11), NET);
    var s2 := Next(s1, NET);
    var s3 := Next(s2, NET);
    var s4 := Next(s3, NET);
    moved := Next(s4, NET);
    TraceIsRun([BootState(11, 11), s1, s2, s3, s4, moved], [NET, NET, NET, NET, NET]);
  }

  /** A step of the HID task breaks the wake-up guarantee if and only if its compare-and-swap fails spuriously on a
      flag whose notification has been used up. */
  lemma SpuriousBreaksWakeUpIff(s: State, env: HidEnv)
    requires WakeUpDue(s.mem, s.net, s.hid)
    ensures var t := HidNext(s, env);
            !WakeUpDue(t.mem, t.net, t.hid) <==>
            s.hid.Top? && s.mem.pending && env.spurious && !s.mem.notified && !s.net.NotifyMovement?
  {
  }

  /** A spurious failure of the HID task's compare-and-swap in each of two loops puts it to sleep with the flag
      set and nothing latched: only the one-second timeout gets it out. */
  lemma SpuriousConsumerSleepsOnWork() returns (start: State, events: seq<Event>)
    ensures Init(start)
    ensures var s := Run(start, events);
            s.hid.Sleep? && s.mem.pending && !s.mem.notified && s.net.Idle?
  {
    var failing := Hid(HidEnv(true, true, true, false));
    var s0 := MoveFromBoot();
    var s1 := Next(s0, failing);
    var s2 := Next(s1, STEP);
    var s3 := Next(s2, STEP);
    var s4 := Next(s3, failing);
    var s5 := Next(s4, STEP);
    TraceIsRun([s0, s1, s2, s3, s4, s5], [failing, STEP, STEP, failing, STEP]);
    start, events := BootState(11, 11), [NET, NET, NET, NET, NET] + [failing, STEP, STEP, failing, STEP];
    RunConcat(start, [NET, NET, NET, NET, NET], [failing, STEP, STEP, failing, STEP]);
  }

  /** One refused movement report leaves the host behind with nothing pending. */
  lemma RefusedReportIsNotRetried() returns (start: State, events: seq<Event>)
    ensures Init(start) && StrongRun(events)
    ensures var s := Run(start, events); Quiescent(s) && !Converged(s)
  {
    var refused := Hid(HidEnv(false, true, false, false));
    var s0 := MoveFromBoot();
    var s1 := Next(s0, STEP);
    var s2 := Next(s1, STEP);
    var s3 := Next(s2, STEP);
    var s4 := Next(s3, refused);
    TraceIsRun([s0, s1, s2, s3, s4], [STEP, STEP, STEP, refused]);
    start, events := BootState(11, 11), [NET, NET, NET, NET, NET] + [STEP, STEP, STEP, refused];
    RunConcat(start, [NET, NET, NET, NET, NET], [STEP, STEP, STEP, refused]);
  }
}
