/** Whose position reaches the host: the target both tasks write, against the movements the server asked for
    (main/tusb/tusb_actuator.c). */
module TwoTaskRequests {
  import opened HidScaling
  import opened Commands
  import opened TwoTask
  import opened TwoTaskProgress

  datatype Spot = Spot(x: u16, y: u16)

  /** Where a movement call asks the pointer to go. */
  function Place(at: Spot, call: Call, width: u16, height: u16): Spot {
    match call
    case SetMovement(x, y) => Spot(x, y)
    case MoveRelative(dx, dy) => Spot(MoveAxis(at.x, dx, width), MoveAxis(at.y, dy, height))
    case Queue(_) => at
  }

  function PlaceAll(at: Spot, calls: seq<Call>, width: u16, height: u16): Spot
    decreases |calls|
  {
    if calls == [] then at else PlaceAll(Place(at, calls[0], width, height), calls[1..], width, height)
  }

  /** The request that an event begins: a movement call, or an ENTER, which asks for its entry point. */
  function Asked(s: State, e: Event): seq<Call> {
    match e
    case Net(call, _, _) => if s.net.Idle? && !call.Queue? then [call] else []
    case Hid(env) =>
      if s.hid.Dispatch? && env.mounted && s.hid.cmd.Enter? then [SetMovement(s.hid.cmd.x, s.hid.cmd.y)] else []
    case UsbComplete => []
  }

  function Requests(s: State, events: seq<Event>): seq<Call>
    decreases |events|
  {
    if events == [] then [] else Asked(s, events[0]) + Requests(Next(s, events[0]), events[1..])
  }

  // ---- where the target is going ----

  /** The HID task has yet to write the x coordinate, in an ENTER or to undo a jiggle. */
  predicate OwesX(pc: HidPc) {
    pc.EnterX? || pc.JiggleReadY? || pc.JiggleX? || pc.JiggleY? || pc.BackX? || JiggleReports(pc)
  }

  predicate OwesY(pc: HidPc) {
    || pc.EnterX? || pc.EnterY? || pc.JiggleX? || pc.JiggleY? || pc.BackX? || pc.BackY?
    || JiggleReports(pc)
  }

  /** Between the two halves of a jiggle. */
  predicate JiggleReports(pc: HidPc) {
    (pc.ReadX? || pc.ReadY? || pc.TryOnce?) && pc.after.ToMoveBack?
  }

  /** The target once the HID task has finished the case it is in. */
  function HidGoal(m: Shared, pc: HidPc): Spot {
    match pc
    case EnterX(x, y, _) => Spot(x, y)
    case EnterY(y, _) => Spot(m.targetX, y)
    case JiggleReadY(x) => Spot(x, m.targetY)
    case JiggleX(x, y) => Spot(x, y)
    case JiggleY(x, y) => Spot(x, y)
    case BackX(x, y) => Spot(x, y)
    case BackY(y) => Spot(m.targetX, y)
    case ReadX(after) => AfterGoal(m, after)
    case ReadY(after, _) => AfterGoal(m, after)
    case TryOnce(after, _, _) => AfterGoal(m, after)
    case _ => Spot(m.targetX, m.targetY)
  }

  function AfterGoal(m: Shared, after: After): Spot {
    if after.ToMoveBack? then Spot(after.x, after.y) else Spot(m.targetX, m.targetY)
  }

  /** Where a movement call that stands at `pc` takes the pointer from `at`. */
  function Finish(at: Spot, dev: Device, pc: NetPc): Spot {
    match pc
    case WriteX(x, y) => Spot(x, y)
    case WriteY(y) => Spot(at.x, y)
    case RelReadX(dx, dy) => Spot(MoveAxis(at.x, dx, dev.width), MoveAxis(at.y, dy, dev.height))
    case RelReadY(nx, dy) => Spot(ClampU16(nx, LastPixel(dev.width)), MoveAxis(at.y, dy, dev.height))
    case RelWriteX(nx, ny) => Spot(ClampU16(nx, LastPixel(dev.width)), ClampU16(ny, LastPixel(dev.height)))
    case RelWriteY(ny) => Spot(at.x, ClampU16(ny, LastPixel(dev.height)))
    case _ => at
  }

  /** Where the target is going: the HID task finishes its case first, the movement call under way after it. */
  function Lead(s: State): Spot {
    Finish(HidGoal(s.mem, s.hid), s.dev, s.net)
  }

  // ---- the exact condition under which requests are carried out one after the other ----

  /** A write of the network task is not undone by one the HID task owes, and what it reads is what the HID task will
      leave, as far as the result shows. */
  predicate NetMeets(m: Shared, dev: Device, net: NetPc, hid: HidPc) {
    var goal := HidGoal(m, hid);
    match net
    case WriteX(x, _) => !OwesX(hid) || x == goal.x
    case WriteY(y) => !OwesY(hid) || y == goal.y
    case RelReadX(dx, _) => MoveAxis(m.targetX, dx, dev.width) == MoveAxis(goal.x, dx, dev.width)
    case RelReadY(_, dy) => MoveAxis(m.targetY, dy, dev.height) == MoveAxis(goal.y, dy, dev.height)
    case RelWriteX(nx, _) => !OwesX(hid) || ClampU16(nx, LastPixel(dev.width)) == goal.x
    case RelWriteY(ny) => !OwesY(hid) || ClampU16(ny, LastPixel(dev.height)) == goal.y
    case _ => true
  }

  /** An ENTER that begins while a movement call is under way: what the call has yet to write is the entry point. */
  predicate EnterMeets(x: u16, y: u16, dev: Device, net: NetPc) {
    match net
    case WriteX(a, b) => a == x && b == y
    case WriteY(b) => b == y
    case RelReadX(dx, dy) => MoveAxis(x, dx, dev.width) == x && MoveAxis(y, dy, dev.height) == y
    case RelReadY(nx, dy) => ClampU16(nx, LastPixel(dev.width)) == x && MoveAxis(y, dy, dev.height) == y
    case RelWriteX(nx, ny) => ClampU16(nx, LastPixel(dev.width)) == x && ClampU16(ny, LastPixel(dev.height)) == y
    case RelWriteY(ny) => ClampU16(ny, LastPixel(dev.height)) == y
    case _ => true
  }

  /** The guard of a step. */
  predicate Meets(s: State, e: Event) {
    match e
    case Net(_, _, _) => NetMeets(s.mem, s.dev, s.net, s.hid)
    case Hid(env) =>
      s.hid.Dispatch? && env.mounted && s.hid.cmd.Enter? ==> EnterMeets(s.hid.cmd.x, s.hid.cmd.y, s.dev, s.net)
    case UsbComplete => true
  }

  predicate AllMeet(s: State, events: seq<Event>)
    decreases |events|
  {
    events == [] || (Meets(s, events[0]) && AllMeet(Next(s, events[0]), events[1..]))
  }

  /** After every event the target is going where the requests so far, carried out one after the other, lead. */
  predicate LeadFollows(s: State, want: Spot, events: seq<Event>)
    decreases |events|
  {
    Lead(s) == want &&
    (events == [] ||
     LeadFollows(Next(s, events[0]), PlaceAll(want, Asked(s, events[0]), s.dev.width, s.dev.height), events[1..]))
  }

  /** A write of the network task as the HID task's case leaves it. */
  lemma GoalAfterWrite(m: Shared, hid: HidPc, x: u16, y: u16)
    ensures HidGoal(m.(targetX := x), hid) == HidGoal(m, hid).(x := if OwesX(hid) then HidGoal(m, hid).x else x)
    ensures HidGoal(m.(targetY := y), hid) == HidGoal(m, hid).(y := if OwesY(hid) then HidGoal(m, hid).y else y)
  {
  }

  lemma MovementLeads(m: Shared, dev: Device, net: NetPc, hid: HidPc)
    requires Moving(net)
    ensures var (m', net') := MovementStep(m, dev, net);
            Finish(HidGoal(m', hid), dev, net') == Finish(HidGoal(m, hid), dev, net) <==> NetMeets(m, dev, net, hid)
  {
    var (m', net') := MovementStep(m, dev, net);
    GoalAfterWrite(m, hid, m'.targetX, m'.targetY);
  }

  lemma SignalKeepsTarget(m: Shared, net: NetPc, spurious: bool, giveUp: bool)
    requires !Moving(net)
    ensures var (m', net') := SignalStep(m, net, spurious, giveUp);
            m'.targetX == m.targetX && m'.targetY == m.targetY && !Moving(net')
  {
  }

  lemma NetLeads(s: State, call: Call, spurious: bool, giveUp: bool)
    ensures var t := NetNext(s, call, spurious, giveUp);
            Lead(t) == (if s.net.Idle? then Place(Lead(s), call, s.dev.width, s.dev.height) else Lead(s)) <==>
            NetMeets(s.mem, s.dev, s.net, s.hid)
  {
    if Moving(s.net) {
      MovementLeads(s.mem, s.dev, s.net, s.hid);
    } else if !s.net.Idle? {
      SignalKeepsTarget(s.mem, s.net, spurious, giveUp);
    }
  }

  lemma LoopKeepsGoal(m: Shared, dev: Device, hid: HidPc, env: HidEnv)
    requires InLoop(hid)
    ensures var (m', dev', hid') := LoopStep(m, dev, hid, env);
            HidGoal(m', hid') ==
              if hid.Dispatch? && env.mounted && hid.cmd.Enter? then Spot(hid.cmd.x, hid.cmd.y) else HidGoal(m, hid)
  {
  }

  lemma BlockingKeepsGoal(m: Shared, dev: Device, hid: HidPc, env: HidEnv)
    requires Blocking(hid)
    ensures var (m', dev', hid') := BlockingStep(m, dev, hid, env); HidGoal(m', hid') == HidGoal(m, hid)
  {
  }

  lemma OnceKeepsGoal(m: Shared, dev: Device, hid: HidPc, env: HidEnv)
    requires InOnce(hid)
    ensures var (m', dev', hid') := OnceStep(m, dev, hid, env); HidGoal(m', hid') == HidGoal(m, hid)
  {
  }

  lemma WriteKeepsGoal(m: Shared, dev: Device, hid: HidPc)
    requires !InLoop(hid) && !Blocking(hid) && !InOnce(hid)
    ensures var (m', dev', hid') := WriteStep(m, dev, hid); HidGoal(m', hid') == HidGoal(m, hid)
  {
  }

  lemma HidKeepsGoal(m: Shared, dev: Device, net: NetPc, hid: HidPc, env: HidEnv)
    ensures var s := HidNext(State(m, dev, net, hid), env);
            HidGoal(s.mem, s.hid) ==
              if hid.Dispatch? && env.mounted && hid.cmd.Enter? then Spot(hid.cmd.x, hid.cmd.y) else HidGoal(m, hid)
  {
    if InLoop(hid) {
      LoopKeepsGoal(m, dev, hid, env);
    } else if Blocking(hid) {
      BlockingKeepsGoal(m, dev, hid, env);
    } else if InOnce(hid) {
      OnceKeepsGoal(m, dev, hid, env);
    } else {
      WriteKeepsGoal(m, dev, hid);
    }
  }

  lemma FinishAtEntry(x: u16, y: u16, dev: Device, net: NetPc)
    ensures Finish(Spot(x, y), dev, net) == Spot(x, y) <==> EnterMeets(x, y, dev, net)
  {
  }

  lemma SameFinish(at: Spot, dev: Device, dev': Device, net: NetPc)
    requires dev'.width == dev.width && dev'.height == dev.height
    ensures Finish(at, dev', net) == Finish(at, dev, net)
  {
  }

  lemma HidLeads(s: State, env: HidEnv)
    requires SameScreen(s, HidNext(s, env))
    ensures Lead(HidNext(s, env)) == PlaceAll(Lead(s), Asked(s, Hid(env)), s.dev.width, s.dev.height) <==>
            Meets(s, Hid(env))
  {
    HidKeepsGoal(s.mem, s.dev, s.net, s.hid, env);
    SameFinish(HidGoal(s.mem, s.hid), s.dev, HidNext(s, env).dev, s.net);
    if s.hid.Dispatch? && env.mounted && s.hid.cmd.Enter? {
      SameFinish(Spot(s.hid.cmd.x, s.hid.cmd.y), s.dev, HidNext(s, env).dev, s.net);
      FinishAtEntry(s.hid.cmd.x, s.hid.cmd.y, s.dev, s.net);
    }
  }

  /** A step takes the target on as requested if and only if it meets its guard. */
  lemma StepLeadsIff(s: State, e: Event)
    requires SameScreen(s, Next(s, e))
    ensures Lead(Next(s, e)) == PlaceAll(Lead(s), Asked(s, e), s.dev.width, s.dev.height) <==> Meets(s, e)
  {
    match e {
      case Net(call, spurious, giveUp) => NetLeads(s, call, spurious, giveUp);
      case Hid(env) => HidLeads(s, env);
      case UsbComplete =>
    }
  }

  /** While the screen stays the same, in every interleaving: after every event the target is going where the requests
      so far lead, carried out one after the other, if and only if each step meets its guard. */
  lemma {:induction false} LeadFollowsIff(s: State, events: seq<Event>)
    requires ScreenKept(s, events)
    ensures LeadFollows(s, Lead(s), events) <==> AllMeet(s, events)
    decreases |events|
  {
    if events != [] {
      StepLeadsIff(s, events[0]);
      if Meets(s, events[0]) {
        LeadFollowsIff(Next(s, events[0]), events[1..]);
      }
    }
  }

  // ---- over runs ----

  lemma {:induction false} PlaceMore(at: Spot, first: seq<Call>, more: seq<Call>, width: u16, height: u16)
    ensures PlaceAll(at, first + more, width, height) ==
            PlaceAll(PlaceAll(at, first, width, height), more, width, height)
    decreases |first|
  {
    if first == [] {
      assert first + more == more;
    } else {
      assert (first + more)[1..] == first[1..] + more;
      PlaceMore(Place(at, first[0], width, height), first[1..], more, width, height);
    }
  }

  lemma {:induction false} LeadAtTheEnd(s: State, want: Spot, events: seq<Event>)
    requires ScreenKept(s, events) && LeadFollows(s, want, events)
    ensures Lead(Run(s, events)) == PlaceAll(want, Requests(s, events), s.dev.width, s.dev.height)
    ensures SameScreen(s, Run(s, events))
    decreases |events|
  {
    if events != [] {
      var t, asked := Next(s, events[0]), Asked(s, events[0]);
      LeadAtTheEnd(t, PlaceAll(want, asked, s.dev.width, s.dev.height), events[1..]);
      PlaceMore(want, asked, Requests(t, events[1..]), s.dev.width, s.dev.height);
    }
  }

  /** The host shows this spot. */
  predicate HostAt(s: State, at: Spot) {
    s.dev.sentX == ToHid(s.dev.width, at.x) && s.dev.sentY == ToHid(s.dev.height, at.y)
  }

  lemma QuietLead(t: State)
    requires t.net.Idle? && InLoop(t.hid)
    ensures Lead(t) == Spot(t.mem.targetX, t.mem.targetY)
  {
  }

  /** While the screen stays the same and each step meets its guard: at every quiescent point the host shows the
      position requested if and only if the last attempt to report was not behind. */
  lemma RequestedPositionShownIff(start: State, before: seq<Event>, during: seq<Event>)
    requires Init(start) && StrongRun(before + during)
    requires var s := Run(start, before);
             ScreenKept(s, during) && AllMeet(s, during) && Quiescent(Run(s, during))
    ensures var s := Run(start, before);
            var t := Run(s, during);
            HostAt(t, PlaceAll(Lead(s), Requests(s, during), s.dev.width, s.dev.height)) <==> !Behind(t.dev)
  {
    var s := Run(start, before);
    RunConcat(start, before, during);
    LeadFollowsIff(s, during);
    LeadAtTheEnd(s, Lead(s), during);
    QuietLead(Run(s, during));
    ConvergedIff(start, before + during);
  }

  /** What one complete call that nothing interrupts leaves in the target: the absolute position asked for, or the old
      one moved as far as asked and stopped at the edge. */
  lemma CompleteMovement(s: State, call: Call)
    requires s.net.Idle? && !call.Queue? && s.dev.width >= 1 && s.dev.height >= 1
    ensures var e := Net(call, false, false);
            var t := Run(s, if call.SetMovement? then [e, e, e] else [e, e, e, e, e]);
            var x, y := t.mem.targetX, t.mem.targetY;
            && t.net == SetPending && t.hid == s.hid && t.dev == s.dev
            && match call
               case SetMovement(ax, ay) => x == ax && y == ay
               case MoveRelative(dx, dy) =>
                 Moved(s.mem.targetX, dx, s.dev.width, x) && Moved(s.mem.targetY, dy, s.dev.height, y)
               case Queue(_) => true
  {
    var e := Net(call, false, false);
    if call.SetMovement? {
      RunThree(s, e, e, e);
    } else {
      assert [e, e, e, e, e] == [e] + ([e] + [e, e, e]);
      RunOne(s, e, [e] + [e, e, e]);
      RunOne(Next(s, e), e, [e, e, e]);
      RunThree(Next(Next(s, e), e), e, e, e);
      RelativeMoveIs(s.mem.targetX, call.dx, s.dev.width);
      RelativeMoveIs(s.mem.targetY, call.dy, s.dev.height);
    }
  }

  /** `to` is `delta` away from `from`, or the edge of the screen in that direction. */
  predicate Moved(from: u16, delta: i16, dimension: u16, to: u16) {
    if from + delta < 0 then to == 0 else if from + delta >= dimension then to == dimension - 1 else to == from + delta
  }

  // ---- in particular, without overlap ----

  /** The HID task is in an ENTER or a JIGGLE. */
  predicate HidWriting(pc: HidPc) {
    OwesX(pc) || OwesY(pc) || pc.JiggleReadX?
  }

  /** No ENTER or JIGGLE overlaps a movement call. */
  predicate Separate(s: State) {
    !(HidWriting(s.hid) && Moving(s.net))
  }

  predicate Steady(s: State, events: seq<Event>)
    decreases |events|
  {
    Separate(s) && (events == [] || Steady(Next(s, events[0]), events[1..]))
  }

  lemma SeparateMeets(s: State, e: Event)
    requires Separate(s) && Separate(Next(s, e))
    ensures Meets(s, e)
  {
  }

  lemma {:induction false} SteadyMeets(s: State, events: seq<Event>)
    requires Steady(s, events)
    ensures AllMeet(s, events)
    decreases |events|
  {
    if events != [] {
      SeparateMeets(s, events[0]);
      SteadyMeets(Next(s, events[0]), events[1..]);
    }
  }

  /** As long as no ENTER or JIGGLE overlaps a movement call, at every quiescent point the host shows the position
      requested if and only if the last attempt to report was not behind. */
  lemma SeparateRequestsShownIff(start: State, before: seq<Event>, during: seq<Event>)
    requires Init(start) && StrongRun(before + during)
    requires var s := Run(start, before);
             ScreenKept(s, during) && Steady(s, during) && Quiescent(Run(s, during))
    ensures var s := Run(start, before);
            var t := Run(s, during);
            HostAt(t, PlaceAll(Lead(s), Requests(s, during), s.dev.width, s.dev.height)) <==> !Behind(t.dev)
  {
    SteadyMeets(Run(start, before), during);
    RequestedPositionShownIff(start, before, during);
  }

  // ---- a pending movement arrives ----

  function CooperationFrom(s: State, steps: nat): seq<Event>
    decreases steps
  {
    if steps == 0 then [] else [Cooperation(s)] + CooperationFrom(Next(s, Cooperation(s)), steps - 1)
  }

  lemma {:induction false} CooperationMeets(s: State, steps: nat)
    requires s.net.Idle? && SizeSettled(s)
    ensures var events := CooperationFrom(s, steps);
            Run(s, events) == Cooperate(s, steps) && AllMeet(s, events) && ScreenKept(s, events) && StrongRun(events)
    decreases steps
  {
    if steps > 0 {
      var e := Cooperation(s);
      var rest := CooperationFrom(Next(s, e), steps - 1);
      SizeStaysSettled(s);
      CooperationMeets(Next(s, e), steps - 1);
      assert ([e] + rest)[1..] == rest;
    }
  }

  lemma {:induction false} MeetsConcat(s: State, first: seq<Event>, more: seq<Event>)
    requires AllMeet(s, first) && AllMeet(Run(s, first), more)
    requires ScreenKept(s, first) && ScreenKept(Run(s, first), more)
    ensures AllMeet(s, first + more) && ScreenKept(s, first + more)
    decreases |first|
  {
    if first == [] {
      assert first + more == more;
    } else {
      assert (first + more)[1..] == first[1..] + more;
      MeetsConcat(Next(s, first[0]), first[1..], more);
    }
  }

  lemma ShownAtRest(t: State, at: Spot)
    requires t.hid.Sleep? && t.net.Idle? && Converged(t) && Lead(t) == at
    ensures HostAt(t, at)
  {
  }

  lemma CooperationArrives(start: State, events: seq<Event>)
    requires Init(start) && StrongRun(events)
    requires var s := Run(start, events); s.net.Idle? && SizeSettled(s) && (s.mem.pending || !Behind(s.dev))
    ensures var s := Run(start, events);
            var t := Cooperate(s, Work(s));
            AtRest(t) && t.net.Idle? && Converged(t)
  {
    ReachableStatesSettle(start, events);
    PendingTargetArrives(start, events);
  }

  lemma LeadAfterCooperation(start: State, events: seq<Event>, steps: nat)
    requires Init(start) && ScreenKept(start, events) && AllMeet(start, events)
    requires Run(start, events).net.Idle? && SizeSettled(Run(start, events))
    ensures var more := CooperationFrom(Run(start, events), steps);
            && Run(start, events + more) == Cooperate(Run(start, events), steps)
            && Lead(Run(start, events + more)) ==
               PlaceAll(Spot(0, 0), Requests(start, events + more), start.dev.width, start.dev.height)
  {
    var s := Run(start, events);
    var more := CooperationFrom(s, steps);
    CooperationMeets(s, steps);
    RunConcat(start, events, more);
    MeetsConcat(start, events, more);
    LeadFollowsIff(start, events + more);
    LeadAtTheEnd(start, Lead(start), events + more);
    QuietLead(start);
  }

  /** After a run from boot whose steps met their guards, with the network task idle and a movement pending,
      cooperation brings the host to the position requested, ENTERs still queued included, however many reports were
      refused before. */
  lemma RequestedPositionArrives(start: State, events: seq<Event>)
    requires Init(start) && StrongRun(events) && ScreenKept(start, events) && AllMeet(start, events)
    requires var s := Run(start, events); s.net.Idle? && SizeSettled(s) && (s.mem.pending || !Behind(s.dev))
    ensures var more := CooperationFrom(Run(start, events), Work(Run(start, events)));
            var t := Run(start, events + more);
            var asked := Requests(start, events + more);
            AtRest(t) && HostAt(t, PlaceAll(Spot(0, 0), asked, start.dev.width, start.dev.height))
  {
    var s := Run(start, events);
    CooperationArrives(start, events);
    LeadAfterCooperation(start, events, Work(s));
    var t := Cooperate(s, Work(s));
    ShownAtRest(t, Lead(t));
  }

  // ---- where overlap loses a movement ----

  /** A run to `t` in which nothing goes wrong. */
  ghost predicate Reaches(s: State, events: seq<Event>, t: State) {
    Run(s, events) == t && StrongRun(events) && CauseFree(s, events)
  }

  lemma {:induction false} ReachesOn(s: State, first: seq<Event>, t: State, more: seq<Event>, u: State)
    requires Reaches(s, first, t) && Reaches(t, more, u)
    ensures Reaches(s, first + more, u)
    decreases |first|
  {
    if first == [] {
      assert first + more == more;
    } else {
      assert (first + more)[1..] == first[1..] + more;
      assert forall e <- first[1..] :: e in first;
      ReachesOn(Next(s, first[0]), first[1..], t, more, u);
      assert forall e <- first + more :: e in first || e in more;
    }
  }

  lemma ReachesOne(s: State, e: Event)
    requires Strong(e) && !Cause(s, e)
    ensures Reaches(s, [e], Next(s, e))
  {
    assert [e][1..] == [];
  }

  lemma TwoSteps(s: State, e: Event, f: Event) returns (events: seq<Event>)
    requires Strong(e) && Strong(f) && !Cause(s, e) && !Cause(Next(s, e), f)
    ensures Reaches(s, events, Next(Next(s, e), f))
  {
    ReachesOne(s, e);
    ReachesOne(Next(s, e), f);
    ReachesOn(s, [e], Next(s, e), [f], Next(Next(s, e), f));
    events := [e] + [f];
  }

  const JIGGLING: State := BootState(11, 11).(mem := Shared(0, 0, false, [Entry(Jiggle, 0)], false, 0))

  /** The jiggle has been dequeued and has read the target. */
  lemma JiggleHasRead() returns (s: State, events: seq<Event>)
    ensures s == JIGGLING.(mem := JIGGLING.mem.(queue := []), hid := JiggleX(0, 0)) && Reaches(JIGGLING, events, s)
  {
    var taken := Next(Next(JIGGLING, STEP), STEP);
    var first := TwoSteps(JIGGLING, STEP, STEP);
    var reading := Next(Next(taken, STEP), STEP);
    var second := TwoSteps(taken, STEP, STEP);
    ReachesOne(reading, STEP);
    s := Next(reading, STEP);
    ReachesOn(taken, second, reading, [STEP], s);
    ReachesOn(JIGGLING, first, taken, second + [STEP], s);
    events := first + (second + [STEP]);
  }

  /** A complete actuator_set_movement to (5, 5) with the HID task standing still. */
  lemma MovedMeanwhile(s: State) returns (t: State, events: seq<Event>)
    requires s.net.Idle? && !s.mem.pending
    ensures t == s.(mem := s.mem.(targetX := 5, targetY := 5, pending := true, notified := true))
    ensures Reaches(s, events, t)
  {
    var s1 := Next(s, NET);
    var s2 := Next(s1, NET);
    var s3 := Next(s2, NET);
    var s4 := Next(s3, NET);
    t := Next(s4, NET);
    events := [NET, NET, NET, NET, NET];
    TraceIsRun([s, s1, s2, s3, s4, t], events);
  }

  /** One report by send_abs_mouse_once, accepted. */
  lemma OnceAccepted(s: State) returns (t: State, events: seq<Event>)
    requires s.hid.ReadX?
    ensures t.mem == s.mem && t.net == s.net && t.hid == Continue(s.hid.after)
    ensures t.dev.width == s.dev.width && t.dev.height == s.dev.height && Reaches(s, events, t)
  {
    var s2 := Next(Next(s, STEP), STEP);
    events := TwoSteps(s, STEP, STEP);
    t := Next(s2, STEP);
    ReachesOne(s2, STEP);
    ReachesOn(s, events, s2, [STEP], t);
    events := events + [STEP];
  }

  lemma JiggleWrites(s: State) returns (t: State, events: seq<Event>)
    requires s.hid == JiggleX(0, 0) && s.dev.width == 11
    ensures t == s.(mem := s.mem.(targetX := 1, targetY := 0), hid := ReadX(ToMoveBack(0, 0)))
    ensures Reaches(s, events, t)
  {
    events := TwoSteps(s, STEP, STEP);
    t := Next(Next(s, STEP), STEP);
  }

  lemma JiggleWritesBack(s: State) returns (t: State, events: seq<Event>)
    requires s.hid == BackX(0, 0)
    ensures t == s.(mem := s.mem.(targetX := 0, targetY := 0), hid := ReadX(ToTop)) && Reaches(s, events, t)
  {
    events := TwoSteps(s, STEP, STEP);
    t := Next(Next(s, STEP), STEP);
  }

  /** The rest of the jiggle. */
  lemma JiggleEnds(s: State) returns (t: State, events: seq<Event>)
    requires s.hid == JiggleX(0, 0) && s.dev.width == s.dev.height == 11
    ensures t.mem == s.mem.(targetX := 0, targetY := 0) && t.hid == Top && t.net == s.net
    ensures t.dev.width == t.dev.height == 11 && Reaches(s, events, t)
  {
    var a, toA := JiggleWrites(s);
    var b, toB := OnceAccepted(a);
    var c, toC := JiggleWritesBack(b);
    var toT;
    t, toT := OnceAccepted(c);
    ReachesOn(b, toC, c, toT, t);
    ReachesOn(a, toB, b, toC + toT, t);
    ReachesOn(s, toA, a, toB + (toC + toT), t);
    events := toA + (toB + (toC + toT));
  }

  lemma FlagTaken(s: State) returns (t: State, events: seq<Event>)
    requires s.hid == Top && s.mem.pending
    ensures t.mem == s.mem.(pending := false) && t.hid == Receive && t.net == s.net
    ensures t.dev.width == s.dev.width && t.dev.height == s.dev.height && Reaches(s, events, t)
  {
    var s1 := Next(s, STEP);
    ReachesOne(s, STEP);
    t, events := OnceAccepted(s1);
    ReachesOn(s, [STEP], s1, events, t);
    events := [STEP] + events;
  }

  lemma NotAtFive(s: State)
    requires Converged(s) && s.mem.targetX == s.mem.targetY == 0 && s.dev.width == s.dev.height == 11
    ensures HostAt(s, Spot(0, 0)) && !HostAt(s, Spot(5, 5))
  {
  }

  /** A jiggle that has read the target before a movement writes it puts the old value back: the server asked for
      (5, 5), every report was accepted, nothing is pending, and the host stays at (0, 0). */
  lemma JiggleOverwritesMovement() returns (events: seq<Event>)
    ensures Init(JIGGLING) && StrongRun(events) && CauseFree(JIGGLING, events)
    ensures var s := Run(JIGGLING, events);
            Quiescent(s) && s.mem.queue == [] && HostAt(s, Spot(0, 0)) && !HostAt(s, Spot(5, 5))
  {
    var a, toA := JiggleHasRead();
    var b, toB := MovedMeanwhile(a);
    var c, toC := JiggleEnds(b);
    var d, toD := FlagTaken(c);
    ReachesOn(b, toC, c, toD, d);
    ReachesOn(a, toB, b, toC + toD, d);
    ReachesOn(JIGGLING, toA, a, toB + (toC + toD), d);
    events := toA + (toB + (toC + toD));
    Converges(JIGGLING, events);
    NotAtFive(d);
  }

  const ENTERING: State := BootState(11, 11).(mem := Shared(0, 0, false, [Entry(Enter(7, 7, 0), 0)], false, 0))

  lemma EnterWrites(s: State) returns (t: State, events: seq<Event>)
    requires s.hid == Receive && s.mem.queue == [Entry(Enter(7, 7, 0), 0)]
    ensures t == s.(mem := s.mem.(queue := [], targetX := 7, targetY := 7), hid := ReadX(ToTop))
    ensures Reaches(s, events, t)
  {
    var a := Next(Next(s, STEP), STEP);
    var first := TwoSteps(s, STEP, STEP);
    var second := TwoSteps(a, STEP, STEP);
    t := Next(Next(a, STEP), STEP);
    ReachesOn(s, first, a, second, t);
    events := first + second;
  }

  lemma NotAtFiveButSeven(s: State)
    requires Converged(s) && s.mem.targetX == s.mem.targetY == 7 && s.dev.width == s.dev.height == 11
    ensures HostAt(s, Spot(7, 7)) && !HostAt(s, Spot(5, 5))
  {
  }

  /** An ENTER waits in the queue while movements do not: one queued first but carried out later moves the pointer
      back to its entry point. */
  lemma LateEnterOverwritesMovement() returns (events: seq<Event>)
    ensures Init(ENTERING) && StrongRun(events) && CauseFree(ENTERING, events)
    ensures var s := Run(ENTERING, events);
            Quiescent(s) && s.mem.queue == [] && HostAt(s, Spot(7, 7)) && !HostAt(s, Spot(5, 5))
  {
    var a, toA := MovedMeanwhile(ENTERING);
    var b, toB := FlagTaken(a);
    var c, toC := EnterWrites(b);
    var d, toD := OnceAccepted(c);
    ReachesOn(b, toC, c, toD, d);
    ReachesOn(a, toB, b, toC + toD, d);
    ReachesOn(ENTERING, toA, a, toB + (toC + toD), d);
    events := toA + (toB + (toC + toD));
    Converges(ENTERING, events);
    NotAtFiveButSeven(d);
  }
}
