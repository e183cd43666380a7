/** Progress of the two-task system: with the network task idle and the USB stack cooperating, the HID task comes to
    rest within a bounded number of steps, with nothing left to do (main/tusb/tusb_actuator.c). */
module TwoTaskProgress {
  import opened HidScaling
  import opened Commands
  import opened TwoTask

  /** The device is mounted, reports are accepted, and a waiting sender gets its completion callback. */
  function Cooperation(s: State): Event {
    if (s.hid.KeyboardWait? || s.hid.RetryWait?) && !s.mem.notified then UsbComplete
    else Hid(HidEnv(true, true, false, false))
  }

  function Cooperate(s: State, steps: nat): State
    decreases steps
  {
    if steps == 0 then s else Cooperate(Next(s, Cooperation(s)), steps - 1)
  }

  /** Asleep without a notification: only the timeout or another task can start the HID task again. */
  predicate AtRest(s: State) {
    s.hid.Sleep? && !s.mem.notified
  }

  // ---- the measure ----

  function StepsAfter(after: After): nat {
    match after
    case ToQueue => 1
    case ToTop => 2
    case ToKeyboard => 3
    case ToMoveBack(_, _) => 7
  }

  /** How many steps a program counter is away from the idle wait, commands and notifications apart. */
  function StepsLeft(pc: HidPc): nat {
    match pc
    case Sleep => 0
    case Receive => 1
    case Top => 2
    case Keyboard(leaving) => if leaving then 6 else 3
    case KeyboardWait(leaving) => if leaving then 7 else 4
    case Retry(_, _, _) => 3
    case RetryWait(_, _) => 4
    case RetryReadY(_) => 4
    case RetryReadX => 5
    case TryOnce(after, _, _) => StepsAfter(after) + 1
    case ReadY(after, _) => StepsAfter(after) + 2
    case ReadX(after) => StepsAfter(after) + 3
    case EnterY(_, keyboard) => 7
    case EnterX(_, _, keyboard) => 8
    case BackY(_) => 6
    case BackX(_, _) => 7
    case JiggleY(_, _) => 11
    case JiggleX(_, _) => 12
    case JiggleReadY(_) => 13
    case JiggleReadX => 14
    case ResizeY(_) => 3
    case Dispatch(_) => 15
  }

  /** A notification can cost a round of the loop, a pending movement a report, a queued command its longest case. */
  function Work(s: State): nat {
    StepsLeft(s.hid) + 15 * |s.mem.queue| + (if s.mem.notified then 3 else 0) + (if s.mem.pending then 3 else 0)
    + (if (s.hid.KeyboardWait? || s.hid.RetryWait?) && !s.mem.notified then 4 else 0)
  }

  lemma LoopProgress(s: State)
    requires InLoop(s.hid) && !AtRest(s) && s.net.Idle?
    ensures Work(Next(s, Cooperation(s))) < Work(s)
  {
  }

  lemma BlockingProgress(s: State)
    requires Blocking(s.hid)
    ensures Work(Next(s, Cooperation(s))) < Work(s)
  {
  }

  lemma OtherProgress(s: State)
    requires !InLoop(s.hid) && !Blocking(s.hid)
    ensures Work(Next(s, Cooperation(s))) < Work(s)
  {
  }

  /** Every cooperative step does some of the work. */
  lemma Progress(s: State)
    requires !AtRest(s) && s.net.Idle?
    ensures Work(Next(s, Cooperation(s))) < Work(s) && Next(s, Cooperation(s)).net.Idle?
  {
    if InLoop(s.hid) {
      LoopProgress(s);
    } else if Blocking(s.hid) {
      BlockingProgress(s);
    } else {
      OtherProgress(s);
    }
  }

  lemma RestIsStable(s: State)
    requires AtRest(s)
    ensures Next(s, Cooperation(s)) == s
  {
  }

  lemma {:induction false} ComesToRest(s: State, steps: nat)
    requires s.net.Idle? && Inv(s) && steps >= Work(s)
    ensures var t := Cooperate(s, steps); AtRest(t) && t.net.Idle? && Inv(t)
    decreases steps
  {
    if AtRest(s) {
      RestIsStable(s);
    } else {
      Progress(s);
    }
    if steps > 0 {
      StepKeepsInv(s, Cooperation(s));
      ComesToRest(Next(s, Cooperation(s)), steps - 1);
    }
  }

  /** From every reachable state in which the network task is idle: after at most Work steps the HID task is
      asleep, the queue empty and the flag clear, and the host has the current position if and only if the last
      attempt to report was not behind. */
  lemma ReachableStatesSettle(start: State, events: seq<Event>)
    requires Init(start) && StrongRun(events) && Run(start, events).net.Idle?
    ensures var s := Run(start, events);
            var t := Cooperate(s, Work(s));
            AtRest(t) && t.net.Idle? && t.mem.queue == [] && !t.mem.pending && (Converged(t) <==> !Behind(t.dev))
  {
    InitInv(start);
    RunKeepsInv(start, events);
    ComesToRest(Run(start, events), Work(Run(start, events)));
  }

  // ---- a pending report is made ----

  predicate SameSize(dev: Device, cmd: Cmd) {
    cmd.SetScreenSize? ==> cmd.w == dev.width && cmd.h == dev.height
  }

  /** Nothing in the queue, or about to be handled, changes the screen size. */
  predicate SizeSettled(s: State) {
    && (s.hid.ResizeY? ==> s.hid.h == s.dev.height)
    && (s.hid.Dispatch? ==> SameSize(s.dev, s.hid.cmd))
    && forall e <- s.mem.queue :: SameSize(s.dev, e.cmd)
  }

  lemma SizeStaysSettled(s: State)
    requires SizeSettled(s)
    ensures var t := Next(s, Cooperation(s));
            SizeSettled(t) && t.dev.width == s.dev.width && t.dev.height == s.dev.height
    ensures !Behind(s.dev) ==> !Behind(Next(s, Cooperation(s)).dev)
  {
    if !Behind(s.dev) {
      FallsBehindIff(s, Cooperation(s));
    }
  }

  /** A pending movement makes up for earlier failures: the flag is taken while mounted and the report is accepted. */
  predicate Repairing(s: State) {
    || !Behind(s.dev) || s.mem.pending
    || ((s.hid.ReadX? || s.hid.ReadY? || s.hid.TryOnce?) && s.hid.after.ToQueue?)
  }

  lemma RepairGoesOn(s: State)
    requires SizeSettled(s) && s.net.Idle? && Repairing(s)
    ensures Repairing(Next(s, Cooperation(s)))
  {
    SizeStaysSettled(s);
  }

  lemma {:induction false} PendingRepairs(s: State, steps: nat)
    requires SizeSettled(s) && s.net.Idle? && Repairing(s)
    ensures Repairing(Cooperate(s, steps))
    decreases steps
  {
    if steps > 0 {
      SizeStaysSettled(s);
      RepairGoesOn(s);
      PendingRepairs(Next(s, Cooperation(s)), steps - 1);
    }
  }

  /** Once the flag is up, the host gets the position that the target holds when the HID task comes to rest, however
      much was refused before. Whether that is the requested position is the subject of TwoTaskRequests. */
  lemma PendingTargetArrives(start: State, events: seq<Event>)
    requires Init(start) && StrongRun(events)
    ensures var s := Run(start, events);
            s.net.Idle? && SizeSettled(s) && (s.mem.pending || !Behind(s.dev)) ==> Converged(Cooperate(s, Work(s)))
  {
    var s := Run(start, events);
    if s.net.Idle? && SizeSettled(s) && (s.mem.pending || !Behind(s.dev)) {
      ReachableStatesSettle(start, events);
      PendingRepairs(s, Work(s));
    }
  }
}
