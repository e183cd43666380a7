/** In which order the HID task carries out what the network task asks for (main/tusb/tusb_actuator.c). */
module TwoTaskOrder {
  import opened HidScaling
  import opened Commands
  import opened TwoTask
  import opened TwoTaskRequests

  // ---- the queue ----

  function Queued(queue: seq<Entry>): seq<Cmd> {
    if queue == [] then [] else [queue[0].cmd] + Queued(queue[1..])
  }

  /** The command a step puts into the queue. */
  function Sent(s: State, e: Event): seq<Cmd> {
    if e.Net? && s.net.Send? && |s.mem.queue| < QUEUE_DEPTH then [s.net.cmd] else []
  }

  /** The command a step takes out of the queue to carry it out. */
  function Taken(s: State, e: Event): seq<Cmd> {
    if e.Hid? && s.hid.Receive? && s.mem.queue != [] then [s.mem.queue[0].cmd] else []
  }

  /** The step drops a queued command: the flush before a DISCONNECTED, or the dump of a full queue. */
  predicate Drops(s: State, e: Event) {
    e.Net? && s.mem.queue != [] && (s.net.Flush? || (s.net.Dump? && s.net.left > 0))
  }

  function SentAll(s: State, events: seq<Event>): seq<Cmd>
    decreases |events|
  {
    if events == [] then [] else Sent(s, events[0]) + SentAll(Next(s, events[0]), events[1..])
  }

  function TakenAll(s: State, events: seq<Event>): seq<Cmd>
    decreases |events|
  {
    if events == [] then [] else Taken(s, events[0]) + TakenAll(Next(s, events[0]), events[1..])
  }

  predicate DropsNothing(s: State, events: seq<Event>)
    decreases |events|
  {
    events == [] || (!Drops(s, events[0]) && DropsNothing(Next(s, events[0]), events[1..]))
  }

  /** After every event of the run, what was taken and what waits are together what waited at first and was sent. */
  ghost predicate FirstInFirstOut(s: State, taken: seq<Cmd>, sent: seq<Cmd>, events: seq<Event>)
    decreases |events|
  {
    taken + Queued(s.mem.queue) == sent &&
    (events == [] ||
     FirstInFirstOut(Next(s, events[0]), taken + Taken(s, events[0]), sent + Sent(s, events[0]), events[1..]))
  }

  lemma JoinCmds(a: seq<Cmd>, b: seq<Cmd>, c: seq<Cmd>)
    ensures (a + b) + c == a + (b + c)
    ensures [] + a == a == a + []
  {
  }

  lemma {:induction false} QueuedSnoc(queue: seq<Entry>, entry: Entry)
    ensures Queued(queue + [entry]) == Queued(queue) + [entry.cmd]
  {
    if queue == [] {
      assert [] + [entry] == [entry] && [entry][1..] == [];
    } else {
      assert (queue + [entry])[1..] == queue[1..] + [entry];
      QueuedSnoc(queue[1..], entry);
    }
  }

  lemma CaseKeepsQueue(s: State, env: HidEnv)
    requires !InLoop(s.hid)
    ensures HidNext(s, env).mem.queue == s.mem.queue && !HidNext(s, env).hid.Dispatch?
  {
  }

  lemma HidQueueStep(s: State, env: HidEnv)
    ensures Taken(s, Hid(env)) + Queued(HidNext(s, env).mem.queue) == Queued(s.mem.queue)
  {
    JoinCmds(Queued(s.mem.queue), [], []);
    if !InLoop(s.hid) {
      CaseKeepsQueue(s, env);
    }
  }

  lemma NetQueueStep(s: State, call: Call, spurious: bool, giveUp: bool)
    ensures var e, t := Net(call, spurious, giveUp), NetNext(s, call, spurious, giveUp);
            if Drops(s, e) then Queued(s.mem.queue) == [s.mem.queue[0].cmd] + Queued(t.mem.queue) && Sent(s, e) == []
            else Queued(t.mem.queue) == Queued(s.mem.queue) + Sent(s, e)
  {
    if s.net.Send? && |s.mem.queue| < QUEUE_DEPTH {
      QueuedSnoc(s.mem.queue, Entry(s.net.cmd, s.mem.session));
    }
  }

  lemma QueueStep(s: State, e: Event)
    ensures var t := Next(s, e);
            if Drops(s, e) then Queued(s.mem.queue) == [s.mem.queue[0].cmd] + Queued(t.mem.queue)
                                && Sent(s, e) == Taken(s, e) == []
            else Taken(s, e) + Queued(t.mem.queue) == Queued(s.mem.queue) + Sent(s, e)
  {
    JoinCmds(Queued(Next(s, e).mem.queue), [], []);
    JoinCmds(Queued(s.mem.queue), [], []);
    match e {
      case Net(call, spurious, giveUp) => NetQueueStep(s, call, spurious, giveUp);
      case Hid(env) => HidQueueStep(s, env);
      case UsbComplete =>
    }
  }

  /** In every interleaving commands are carried out in the order sent, none twice and none missing, after every event
      if and only if no flush or dump meets a non-empty queue. */
  lemma {:induction false} FirstInFirstOutIff(s: State, taken: seq<Cmd>, sent: seq<Cmd>, events: seq<Event>)
    requires taken + Queued(s.mem.queue) == sent
    ensures FirstInFirstOut(s, taken, sent, events) <==> DropsNothing(s, events)
    decreases |events|
  {
    if events != [] {
      var e := events[0];
      var t := Next(s, e);
      QueueStep(s, e);
      if Drops(s, e) {
        assert |taken + Taken(s, e) + Queued(t.mem.queue)| < |sent + Sent(s, e)|;
      } else {
        JoinCmds(taken, Taken(s, e), Queued(t.mem.queue));
        JoinCmds(taken, Queued(s.mem.queue), Sent(s, e));
        FirstInFirstOutIff(t, taken + Taken(s, e), sent + Sent(s, e), events[1..]);
      }
    }
  }

  lemma {:induction false} FirstInFirstOutAtTheEnd(s: State, taken: seq<Cmd>, sent: seq<Cmd>, events: seq<Event>)
    requires FirstInFirstOut(s, taken, sent, events)
    ensures taken + TakenAll(s, events) + Queued(Run(s, events).mem.queue) == sent + SentAll(s, events)
    decreases |events|
  {
    if events == [] {
      assert taken + [] == taken && sent + [] == sent;
    } else {
      var e, t := events[0], Next(s, events[0]);
      FirstInFirstOutAtTheEnd(t, taken + Taken(s, e), sent + Sent(s, e), events[1..]);
      JoinCmds(taken, Taken(s, e), TakenAll(t, events[1..]));
      JoinCmds(sent, Sent(s, e), SentAll(t, events[1..]));
    }
  }

  // ---- from calls to commands carried out ----

  function QueueCmds(calls: seq<Call>): seq<Cmd> {
    if calls == [] then [] else (if calls[0].Queue? then [calls[0].cmd] else []) + QueueCmds(calls[1..])
  }

  /** The call that begins in a step. */
  function Begun(s: State, e: Event): seq<Call> {
    if e.Net? && s.net.Idle? then [e.call] else []
  }

  function CallsBegun(s: State, events: seq<Event>): seq<Call>
    decreases |events|
  {
    if events == [] then [] else Begun(s, events[0]) + CallsBegun(Next(s, events[0]), events[1..])
  }

  /** The command a call has yet to put into the queue. */
  function InHand(net: NetPc): seq<Cmd> {
    if net.Send? then [net.cmd] else if net.Flush? then [Disconnected] else []
  }

  /** The bounded send is given up at a full queue. */
  predicate GivesUp(s: State, e: Event) {
    e.Net? && s.net.Send? && |s.mem.queue| >= QUEUE_DEPTH && e.giveUp
  }

  predicate NeverGivesUp(s: State, events: seq<Event>)
    decreases |events|
  {
    events == [] || (!GivesUp(s, events[0]) && NeverGivesUp(Next(s, events[0]), events[1..]))
  }

  lemma QueueCmdsOne(call: Call)
    ensures QueueCmds([call]) == if call.Queue? then [call.cmd] else []
  {
    assert [call][1..] == [] && QueueCmds([]) == [];
  }

  lemma SendStep(s: State, e: Event)
    requires !GivesUp(s, e)
    ensures Sent(s, e) + InHand(Next(s, e).net) == InHand(s.net) + QueueCmds(Begun(s, e))
  {
    if e.Net? && s.net.Idle? {
      QueueCmdsOne(e.call);
    }
  }

  lemma QueueCmdsMore(calls: seq<Call>, more: seq<Call>)
    requires |calls| <= 1
    ensures QueueCmds(calls + more) == QueueCmds(calls) + QueueCmds(more)
  {
    if calls == [] {
      assert [] + more == more;
    } else {
      assert (calls + more)[1..] == more;
      QueueCmdsOne(calls[0]);
    }
  }

  /** What enters the queue are the commands of the calls, in their order. */
  lemma {:induction false} SentAreCalled(s: State, events: seq<Event>)
    requires NeverGivesUp(s, events)
    ensures SentAll(s, events) + InHand(Run(s, events).net) == InHand(s.net) + QueueCmds(CallsBegun(s, events))
    decreases |events|
  {
    if events == [] {
      assert [] + InHand(s.net) == InHand(s.net) + [];
    } else {
      var e, t := events[0], Next(s, events[0]);
      SendStep(s, e);
      SentAreCalled(t, events[1..]);
      QueueCmdsMore(Begun(s, e), CallsBegun(t, events[1..]));
      JoinCmds(Sent(s, e), SentAll(t, events[1..]), InHand(Run(t, events[1..]).net));
      JoinCmds(Sent(s, e), InHand(t.net), QueueCmds(CallsBegun(t, events[1..])));
      JoinCmds(InHand(s.net), QueueCmds(Begun(s, e)), QueueCmds(CallsBegun(t, events[1..])));
    }
  }

  /** The command a step of the HID task carries out, or drops if the device is unmounted. */
  function Switched(s: State, e: Event): seq<Cmd> {
    if e.Hid? && s.hid.Dispatch? then [s.hid.cmd] else []
  }

  function SwitchedAll(s: State, events: seq<Event>): seq<Cmd>
    decreases |events|
  {
    if events == [] then [] else Switched(s, events[0]) + SwitchedAll(Next(s, events[0]), events[1..])
  }

  function InSwitch(hid: HidPc): seq<Cmd> {
    if hid.Dispatch? then [hid.cmd] else []
  }

  lemma SwitchStep(s: State, e: Event)
    ensures Switched(s, e) + InSwitch(Next(s, e).hid) == InSwitch(s.hid) + Taken(s, e)
  {
  }

  /** Every command taken is carried out, in the order taken. */
  lemma {:induction false} TakenAreSwitched(s: State, events: seq<Event>)
    ensures SwitchedAll(s, events) + InSwitch(Run(s, events).hid) == InSwitch(s.hid) + TakenAll(s, events)
    decreases |events|
  {
    if events == [] {
      assert [] + InSwitch(s.hid) == InSwitch(s.hid) + [];
    } else {
      var e, t := events[0], Next(s, events[0]);
      SwitchStep(s, e);
      TakenAreSwitched(t, events[1..]);
      JoinCmds(Switched(s, e), SwitchedAll(t, events[1..]), InSwitch(Run(t, events[1..]).hid));
      JoinCmds(Switched(s, e), InSwitch(t.hid), TakenAll(t, events[1..]));
      JoinCmds(InSwitch(s.hid), Taken(s, e), TakenAll(t, events[1..]));
    }
  }

  /** No command is under way: none in hand, none queued, none at the switch. */
  predicate Drained(s: State) {
    InHand(s.net) == [] && s.mem.queue == [] && !s.hid.Dispatch?
  }

  /** In every interleaving in which nothing is dropped or given up: between two points with no command under way the
      HID task carries out exactly the commands called for, in their order. */
  lemma CalledAreCarriedOut(s: State, events: seq<Event>)
    requires Drained(s) && Drained(Run(s, events)) && DropsNothing(s, events) && NeverGivesUp(s, events)
    ensures SwitchedAll(s, events) == QueueCmds(CallsBegun(s, events))
  {
    FirstInFirstOutIff(s, [], [], events);
    FirstInFirstOutAtTheEnd(s, [], [], events);
    SentAreCalled(s, events);
    TakenAreSwitched(s, events);
    JoinCmds(SwitchedAll(s, events), [], []);
    JoinCmds(TakenAll(s, events), [], []);
    JoinCmds(SentAll(s, events), [], []);
    JoinCmds(QueueCmds(CallsBegun(s, events)), [], []);
  }

  // ---- positions: movements overtake ENTERs in the queue ----

  /** An ENTER asks for its entry point. */
  function EntryOf(cmd: Cmd): seq<Call> {
    if cmd.Enter? then [SetMovement(cmd.x, cmd.y)] else []
  }

  /** The calls that ask for a position, in their order. */
  function Positioning(calls: seq<Call>): seq<Call> {
    if calls == [] then []
    else (if calls[0].Queue? then EntryOf(calls[0].cmd) else [calls[0]]) + Positioning(calls[1..])
  }

  function EntriesIn(queue: seq<Entry>): seq<Call> {
    if queue == [] then [] else EntryOf(queue[0].cmd) + EntriesIn(queue[1..])
  }

  function AtSwitch(hid: HidPc): seq<Call> {
    if hid.Dispatch? then EntryOf(hid.cmd) else []
  }

  function UnderWay(queue: seq<Entry>, net: NetPc): seq<Call> {
    EntriesIn(queue) + (if net.Send? then EntryOf(net.cmd) else [])
  }

  /** The entry points still to be carried out: of the command at the switch, of those queued, of the one being sent. */
  function Waiting(s: State): seq<Call> {
    AtSwitch(s.hid) + UnderWay(s.mem.queue, s.net)
  }

  /** The ENTER that the step loses: flushed, dumped, given up at a full queue, or dropped while unmounted. */
  function Lost(s: State, e: Event): seq<Call> {
    match e
    case Net(_, _, giveUp) =>
      if Drops(s, e) then EntryOf(s.mem.queue[0].cmd)
      else if s.net.Send? && |s.mem.queue| >= QUEUE_DEPTH && giveUp then EntryOf(s.net.cmd)
      else []
    case Hid(env) => if s.hid.Dispatch? && !env.mounted then EntryOf(s.hid.cmd) else []
    case UsbComplete => []
  }

  /** The guard of a step: no ENTER is lost, and a movement call overtakes none that asks for another position. */
  predicate Prompt(s: State, e: Event) {
    && Lost(s, e) == []
    && (e.Net? && s.net.Idle? && !e.call.Queue? ==> [e.call] + Waiting(s) == Waiting(s) + [e.call])
  }

  predicate AllPrompt(s: State, events: seq<Event>)
    decreases |events|
  {
    events == [] || (Prompt(s, events[0]) && AllPrompt(Next(s, events[0]), events[1..]))
  }

  /** After every event the positions carried out and those waiting are the ones asked for, in the order of the
      calls. */
  ghost predicate InCallOrder(s: State, carried: seq<Call>, asked: seq<Call>, events: seq<Event>)
    decreases |events|
  {
    carried + Waiting(s) == asked &&
    (events == [] ||
     InCallOrder(Next(s, events[0]), carried + Asked(s, events[0]), asked + Positioning(Begun(s, events[0])),
                 events[1..]))
  }

  lemma {:induction false} EntriesSnoc(queue: seq<Entry>, entry: Entry)
    ensures EntriesIn(queue + [entry]) == EntriesIn(queue) + EntryOf(entry.cmd)
  {
    if queue == [] {
      assert [] + [entry] == [entry] && [entry][1..] == [];
    } else {
      assert (queue + [entry])[1..] == queue[1..] + [entry];
      EntriesSnoc(queue[1..], entry);
    }
  }

  lemma PositioningOne(call: Call)
    ensures Positioning([call]) == if call.Queue? then EntryOf(call.cmd) else [call]
  {
    assert [call][1..] == [] && Positioning([]) == [];
  }

  lemma Joins(a: seq<Call>, b: seq<Call>, c: seq<Call>)
    ensures (a + b) + c == a + (b + c)
    ensures [] + a == a == a + []
  {
  }

  lemma SendUnderWay(m: Shared, cmd: Cmd, spurious: bool, giveUp: bool)
    ensures var (m', net') := SignalStep(m, Send(cmd), spurious, giveUp);
            if |m.queue| >= QUEUE_DEPTH && giveUp
            then UnderWay(m.queue, Send(cmd)) == UnderWay(m'.queue, net') + EntryOf(cmd)
            else UnderWay(m'.queue, net') == UnderWay(m.queue, Send(cmd))
  {
    if |m.queue| < QUEUE_DEPTH {
      EntriesSnoc(m.queue, Entry(cmd, m.session));
      Joins(EntriesIn(m.queue) + EntryOf(cmd), [], []);
    } else if giveUp {
      Joins(EntriesIn(m.queue), [], []);
    }
  }

  /** The other steps that signal: a flush or dump takes off the first. */
  lemma SignalUnderWay(m: Shared, net: NetPc, spurious: bool, giveUp: bool)
    requires !net.Send?
    ensures var (m', net') := SignalStep(m, net, spurious, giveUp);
            if m.queue != [] && (net.Flush? || (net.Dump? && net.left > 0))
            then UnderWay(m.queue, net) == EntryOf(m.queue[0].cmd) + UnderWay(m'.queue, net')
            else UnderWay(m'.queue, net') == UnderWay(m.queue, net)
  {
    if m.queue != [] && (net.Flush? || (net.Dump? && net.left > 0)) {
      Joins(EntryOf(m.queue[0].cmd), EntriesIn(m.queue[1..]), []);
    }
  }

  lemma MovementUnderWay(m: Shared, dev: Device, net: NetPc)
    requires Moving(net)
    ensures var (m', net') := MovementStep(m, dev, net); UnderWay(m'.queue, net') == UnderWay(m.queue, net)
  {
  }

  lemma StartUnderWay(queue: seq<Entry>, call: Call)
    ensures UnderWay(queue, StartCall(call)) ==
            UnderWay(queue, NetPc.Idle) + (if call.Queue? then EntryOf(call.cmd) else [])
  {
    Joins(EntriesIn(queue), [], []);
  }

  /** A step of the network task within a call. */
  lemma NetUnderWay(s: State, call: Call, spurious: bool, giveUp: bool)
    requires !s.net.Idle?
    ensures var e := Net(call, spurious, giveUp);
            var t := NetNext(s, call, spurious, giveUp);
            && |UnderWay(t.mem.queue, t.net)| + |Lost(s, e)| == |UnderWay(s.mem.queue, s.net)|
            && (Lost(s, e) == [] ==> UnderWay(t.mem.queue, t.net) == UnderWay(s.mem.queue, s.net))
  {
    if Moving(s.net) {
      MovementUnderWay(s.mem, s.dev, s.net);
    } else if s.net.Send? {
      SendUnderWay(s.mem, s.net.cmd, spurious, giveUp);
    } else {
      SignalUnderWay(s.mem, s.net, spurious, giveUp);
    }
  }

  lemma NetWaiting(s: State, call: Call, spurious: bool, giveUp: bool)
    ensures var e := Net(call, spurious, giveUp);
            var t := NetNext(s, call, spurious, giveUp);
            && (s.net.Idle? ==> Waiting(t) == Waiting(s) + (if call.Queue? then EntryOf(call.cmd) else []))
            && (!s.net.Idle? ==> |Waiting(t)| + |Lost(s, e)| == |Waiting(s)|)
            && (!s.net.Idle? && Lost(s, e) == [] ==> Waiting(t) == Waiting(s))
  {
    if s.net.Idle? {
      StartUnderWay(s.mem.queue, call);
      Joins(AtSwitch(s.hid), UnderWay(s.mem.queue, s.net), if call.Queue? then EntryOf(call.cmd) else []);
    } else {
      NetUnderWay(s, call, spurious, giveUp);
    }
  }

  lemma LoopSwitch(s: State, env: HidEnv)
    requires InLoop(s.hid) && !s.hid.Dispatch?
    ensures var t := HidNext(s, env);
            AtSwitch(t.hid) + UnderWay(t.mem.queue, s.net) == AtSwitch(s.hid) + UnderWay(s.mem.queue, s.net)
  {
    if s.hid.Receive? && s.mem.queue != [] {
      var back := if s.net.Send? then EntryOf(s.net.cmd) else [];
      Joins(EntryOf(s.mem.queue[0].cmd), EntriesIn(s.mem.queue[1..]), back);
    }
  }

  lemma SwitchTakes(s: State, env: HidEnv)
    requires s.hid.Dispatch?
    ensures HidNext(s, env).mem.queue == s.mem.queue && !HidNext(s, env).hid.Dispatch?
    ensures Asked(s, Hid(env)) == if env.mounted then AtSwitch(s.hid) else []
  {
  }

  lemma HidWaiting(s: State, env: HidEnv)
    ensures var e, t := Hid(env), HidNext(s, env);
            && |Asked(s, e)| + |Waiting(t)| + |Lost(s, e)| == |Waiting(s)|
            && (Lost(s, e) == [] ==> Asked(s, e) + Waiting(t) == Waiting(s))
  {
    var t := HidNext(s, env);
    Joins(Waiting(t), [], []);
    Joins(UnderWay(s.mem.queue, s.net), [], []);
    if s.hid.Dispatch? {
      SwitchTakes(s, env);
    } else if InLoop(s.hid) {
      LoopSwitch(s, env);
    } else {
      CaseKeepsQueue(s, env);
    }
  }

  /** One step keeps the order of the calls if and only if it is prompt. */
  lemma StepInOrderIff(s: State, carried: seq<Call>, asked: seq<Call>, e: Event)
    requires carried + Waiting(s) == asked
    ensures (carried + Asked(s, e)) + Waiting(Next(s, e)) == asked + Positioning(Begun(s, e)) <==> Prompt(s, e)
  {
    var t := Next(s, e);
    Joins(carried, Asked(s, e), Waiting(t));
    match e {
      case Net(call, spurious, giveUp) =>
        NetWaiting(s, call, spurious, giveUp);
        Joins(Waiting(s), [], []);
        Joins(asked, [], []);
        if s.net.Idle? {
          PositioningOne(call);
          Joins(carried, Waiting(s), Positioning([call]));
          if !call.Queue? {
            SameBehind(carried, [call] + Waiting(s), Waiting(s) + [call]);
          }
        }
      case Hid(env) => HidWaiting(s, env);
      case UsbComplete =>
    }
  }

  lemma SameBehind(front: seq<Call>, a: seq<Call>, b: seq<Call>)
    ensures front + a == front + b <==> a == b
  {
    if front + a == front + b {
      assert (front + a)[|front|..] == a && (front + b)[|front|..] == b;
    }
  }

  /** In every interleaving: positions are carried out in the order of the calls, after every event, if and only if each
      step is prompt. */
  lemma {:induction false} InCallOrderIff(s: State, carried: seq<Call>, asked: seq<Call>, events: seq<Event>)
    requires carried + Waiting(s) == asked
    ensures InCallOrder(s, carried, asked, events) <==> AllPrompt(s, events)
    decreases |events|
  {
    if events != [] {
      var e := events[0];
      StepInOrderIff(s, carried, asked, e);
      if Prompt(s, e) {
        InCallOrderIff(Next(s, e), carried + Asked(s, e), asked + Positioning(Begun(s, e)), events[1..]);
      }
    }
  }

  lemma PositioningMore(calls: seq<Call>, more: seq<Call>)
    requires |calls| <= 1
    ensures Positioning(calls + more) == Positioning(calls) + Positioning(more)
  {
    if calls == [] {
      assert [] + more == more;
    } else {
      assert (calls + more)[1..] == more;
      PositioningOne(calls[0]);
    }
  }

  lemma {:induction false} InCallOrderAtTheEnd(s: State, carried: seq<Call>, asked: seq<Call>, events: seq<Event>)
    requires InCallOrder(s, carried, asked, events)
    ensures carried + Requests(s, events) + Waiting(Run(s, events)) == asked + Positioning(CallsBegun(s, events))
    decreases |events|
  {
    if events == [] {
      Joins(carried, [], []);
      Joins(asked, [], []);
    } else {
      var e, t := events[0], Next(s, events[0]);
      InCallOrderAtTheEnd(t, carried + Asked(s, e), asked + Positioning(Begun(s, e)), events[1..]);
      PositioningMore(Begun(s, e), CallsBegun(t, events[1..]));
      Joins(carried, Asked(s, e), Requests(t, events[1..]));
      Joins(asked, Positioning(Begun(s, e)), Positioning(CallsBegun(t, events[1..])));
    }
  }

  /** Over a prompt run that begins and ends with no ENTER waiting, the requests carried out are those of the calls, in
      their order. */
  lemma PromptRequests(s: State, events: seq<Event>)
    requires AllPrompt(s, events) && Waiting(s) == [] && Waiting(Run(s, events)) == []
    ensures Requests(s, events) == Positioning(CallsBegun(s, events))
  {
    InCallOrderIff(s, [], [], events);
    InCallOrderAtTheEnd(s, [], [], events);
    Joins(Requests(s, events), [], []);
    Joins(Positioning(CallsBegun(s, events)), [], []);
  }

  /** Then, with each step also meeting its guard, at every quiescent point the host shows the position that the calls,
      ENTERs included, lead to, if and only if the last attempt to report was not behind. */
  lemma CalledPositionShownIff(start: State, before: seq<Event>, during: seq<Event>)
    requires Init(start) && StrongRun(before + during)
    requires var s := Run(start, before);
             && ScreenKept(s, during) && AllMeet(s, during) && AllPrompt(s, during)
             && Waiting(s) == [] && Waiting(Run(s, during)) == [] && Quiescent(Run(s, during))
    ensures var s := Run(start, before);
            var t := Run(s, during);
            var asked := Positioning(CallsBegun(s, during));
            HostAt(t, PlaceAll(Lead(s), asked, s.dev.width, s.dev.height)) <==> !Behind(t.dev)
  {
    PromptRequests(Run(start, before), during);
    RequestedPositionShownIff(start, before, during);
  }
}
