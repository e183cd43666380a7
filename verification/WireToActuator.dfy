/** From bytes on the wire to actuator calls: the packet loop of barrier_client_task fed by read_packet
    (main/barrier/barrier_client.c). */
module WireToActuator {
  import opened HidScaling
  import opened Commands
  import opened WireBytes
  import opened BarrierPacket
  import opened PacketReader
  import opened BarrierClient

  /** The calls made while handling packets. */
  function HandlingCalls(trace: seq<Event>): seq<Call> {
    if trace == [] then []
    else
      var e, before := trace[|trace| - 1], HandlingCalls(trace[..|trace| - 1]);
      if e.Act? && e.cause == Handling then before + [e.call] else before
  }

  /** A packet by which the server ends the session. */
  predicate Goodbye(p: Packet) {
    p.Incompatible? || p in [Bare(CBYE), Bare(EUNK), Bare(EBSY), Bare(EBAD)]
  }

  /** The calls a packet stands for. */
  function CallsFor(p: Packet, keepAwake: bool): seq<Call> {
    match p
    case MoveAbs(x, y) => [SetMovement(x, y)]
    case MoveRel(dx, dy) => [MoveRelative(dx, dy)]
    case KeyPress(key, mask, _) => [Queue(KeyDown(key, mask as bv16))]
    case KeyRelease(key, mask, _) => [Queue(KeyUp(key, mask as bv16))]
    case KeyAgain(_, _, _, _) => [Queue(KeyRepeat)]
    case ButtonDown(id) => [Queue(MouseDown(id))]
    case ButtonUp(id) => [Queue(MouseUp(id))]
    case Wheel(dx, dy) => [Queue(MouseWheel(dx, dy))]
    case CursorEnter(x, y, _, mask) => [Queue(Enter(x, y, mask as bv16))]
    case Bare(COUT) => [Queue(Leave)]
    case Bare(CALV) => if keepAwake then [Queue(Jiggle)] else []
    case _ => []
  }

  /** The calls a list of parsed frames stands for. */
  function CallsForAll(rs: seq<Result<Packet>>, keepAwake: bool): seq<Call> {
    if rs == [] then []
    else
      var r, before := rs[|rs| - 1], CallsForAll(rs[..|rs| - 1], keepAwake);
      if r.Ok? then before + CallsFor(r.value, keepAwake) else before
  }

  predicate Welcome(r: Result<Packet>) {
    r.Ok? && !Goodbye(r.value)
  }

  /** Nothing but packets happens: no stop request, no new configuration, room in the queue, a working link. */
  predicate Undisturbed(m: Moment, keepAwake: bool) {
    !m.stop && !m.reconnect && m.accepts && m.sends && m.cfg.keepAwake == keepAwake
  }

  function ReadBy(m: Moment): seq<Result<Packet>> {
    if m.read == Err(TimedOut) then [] else [m.read]
  }

  /** What the moments read, without the timeouts. */
  function Results(script: seq<Moment>): seq<Result<Packet>> {
    if script == [] then []
    else ReadBy(script[0]) + Results(script[1..])
  }

  /** Each moment's packet is what read_packet takes from the stream, until `frames` reads have not timed out. */
  ghost predicate Feeds(script: seq<Moment>, io: seq<Io>, frames: nat) {
    if frames == 0 then script == []
    else
      && script != [] && script[0].read == ReadPacket(io).0
      && Feeds(script[1..], ReadPacket(io).1, if script[0].read == Err(TimedOut) then frames else frames - 1)
  }

  lemma {:induction false} ResultsAreRead(script: seq<Moment>, io: seq<Io>, frames: nat)
    requires Feeds(script, io, frames)
    ensures Results(script) == ReadMany(io, frames).0
    decreases |script|
  {
    if frames > 0 {
      ResultsAreRead(script[1..], ReadPacket(io).1, if script[0].read == Err(TimedOut) then frames else frames - 1);
    }
  }

  lemma {:induction false} ResultsSnoc(script: seq<Moment>, m: Moment)
    ensures Results(script + [m]) == Results(script) + ReadBy(m)
  {
    if script == [] {
      assert [] + [m] == [m] && [m][1..] == [];
      assert ReadBy(m) + [] == ReadBy(m) == [] + ReadBy(m);
    } else {
      assert (script + [m])[1..] == script[1..] + [m];
      ResultsSnoc(script[1..], m);
      assert ReadBy(script[0]) + (Results(script[1..]) + ReadBy(m)) == Results(script) + ReadBy(m);
    }
  }

  lemma DoCalls(s: Client, call: Call, cause: Cause, accepted: bool)
    ensures HandlingCalls(Do(s, call, cause, accepted).trace) ==
            if cause == Handling then HandlingCalls(s.trace) + [call] else HandlingCalls(s.trace)
  {
  }

  lemma ReplyCalls(s: Client, p: Packet, delivered: bool)
    ensures HandlingCalls(Say(s, Reply(p, delivered)).trace) == HandlingCalls(s.trace)
  {
  }

  lemma BareCalls(s: Client, kind: Kind, m: Moment)
    requires !Goodbye(Bare(kind)) && m.accepts && m.sends
    ensures var h := HandleBare(s, kind, m);
            h.ok && HandlingCalls(h.client.trace) == HandlingCalls(s.trace) + CallsFor(Bare(kind), m.cfg.keepAwake)
    ensures HandleBare(s, kind, m).client.loc == s.loc && HandleBare(s, kind, m).client.running == s.running
  {
    if kind == QINF {
      ReplyCalls(s, DeviceInfo(0, 0, m.cfg.screenWidth, m.cfg.screenHeight, 0, 0, 0), m.sends);
    } else if kind == CALV {
      DoCalls(s, Queue(Jiggle), Handling, m.accepts);
      ReplyCalls(if m.cfg.keepAwake then Do(s, Queue(Jiggle), Handling, m.accepts) else s, Bare(CALV), m.sends);
    } else if kind == COUT {
      DoCalls(s.(entered := false), Queue(Leave), Handling, m.accepts);
    }
  }

  lemma PacketCalls(s: Client, p: Packet, m: Moment)
    requires !Goodbye(p) && m.accepts && m.sends
    ensures var h := HandlePacket(s, p, m);
            h.ok && HandlingCalls(h.client.trace) == HandlingCalls(s.trace) + CallsFor(p, m.cfg.keepAwake)
    ensures HandlePacket(s, p, m).client.loc == s.loc && HandlePacket(s, p, m).client.running == s.running
  {
    if p.Bare? {
      BareCalls(s, p.bare, m);
    } else {
      var calls := CallsFor(p, m.cfg.keepAwake);
      if calls != [] {
        DoCalls(s, calls[0], Handling, true);
        DoCalls(s.(entered := true), calls[0], Handling, true);
      }
    }
  }

  lemma MomentCalls(setup: Setup, s: Client, m: Moment, keepAwake: bool)
    requires s.loc == InSession && s.running && Undisturbed(m, keepAwake)
    requires m.read == Err(TimedOut) || Welcome(m.read)
    ensures var t := Next(setup, s, m);
            t.loc == InSession && t.running &&
            HandlingCalls(t.trace) ==
              HandlingCalls(s.trace) + (if m.read.Ok? then CallsFor(m.read.value, keepAwake) else [])
  {
    var u := Tick(s, m);
    if m.read.Ok? {
      PacketCalls(u, m.read.value, m);
    } else {
      DoCalls(u, Queue(Jiggle), Idle(m.cfg.jiggleInterval), m.accepts);
    }
  }

  /** One more read: a timeout adds nothing. */
  lemma CallsAppend(rs: seq<Result<Packet>>, r: Result<Packet>, keepAwake: bool, before: seq<Call>)
    ensures var more := rs + (if r == Err(TimedOut) then [] else [r]);
            before + CallsForAll(more, keepAwake) ==
            before + CallsForAll(rs, keepAwake) + (if r.Ok? then CallsFor(r.value, keepAwake) else [])
  {
    if r == Err(TimedOut) {
      assert rs + [] == rs;
    } else {
      assert (rs + [r])[..|rs|] == rs;
    }
  }

  /** Nothing but packets and timeouts happens at a moment. */
  predicate Plain(m: Moment, keepAwake: bool) {
    Undisturbed(m, keepAwake) && (m.read == Err(TimedOut) || Welcome(m.read))
  }

  lemma {:induction false} CallsOverStates(setup: Setup, states: seq<Client>, script: seq<Moment>, k: nat,
                                           keepAwake: bool)
    requires Follows(setup, states, script) && k <= |script| && states[0].loc == InSession && states[0].running
    requires forall m <- script :: Plain(m, keepAwake)
    ensures states[k].loc == InSession && states[k].running
    ensures HandlingCalls(states[k].trace) ==
            HandlingCalls(states[0].trace) + CallsForAll(Results(script[..k]), keepAwake)
  {
    if k > 0 {
      var before, m := script[..k - 1], script[k - 1];
      CallsOverStates(setup, states, script, k - 1, keepAwake);
      StateCalls(setup, states, script, k - 1, keepAwake);
      assert script[..k] == before + [m];
      ResultsSnoc(before, m);
      CallsAppend(Results(before), m.read, keepAwake, HandlingCalls(states[0].trace));
    } else {
      assert script[..0] == [] && CallsForAll(Results([]), keepAwake) == [];
    }
  }

  lemma StateCalls(setup: Setup, states: seq<Client>, script: seq<Moment>, k: nat, keepAwake: bool)
    requires Follows(setup, states, script) && k < |script| && Plain(script[k], keepAwake)
    requires states[k].loc == InSession && states[k].running
    ensures states[k + 1].loc == InSession && states[k + 1].running
    ensures HandlingCalls(states[k + 1].trace) == HandlingCalls(states[k].trace) +
              (if script[k].read.Ok? then CallsFor(script[k].read.value, keepAwake) else [])
  {
    MomentCalls(setup, states[k], script[k], keepAwake);
  }

  /** A session that is not disturbed makes exactly the calls its packets stand for, in their order. */
  lemma SessionCalls(setup: Setup, s: Client, script: seq<Moment>, keepAwake: bool)
    requires s.loc == InSession && s.running
    requires forall m <- script :: Plain(m, keepAwake)
    ensures HandlingCalls(Run(setup, s, script).trace) ==
            HandlingCalls(s.trace) + CallsForAll(Results(script), keepAwake)
  {
    var states := StatesOf(setup, s, script);
    CallsOverStates(setup, states, script, |script|, keepAwake);
    assert script[..|script|] == script;
  }

  lemma {:induction false} ReadsAreResults(script: seq<Moment>)
    ensures forall m <- script :: m.read == Err(TimedOut) || m.read in Results(script)
  {
    if script != [] {
      ReadsAreResults(script[1..]);
    }
  }

  // ---- up to the first frame that ends the session ----

  /** The frames before the first that does not parse or says goodbye. */
  function WelcomePart(rs: seq<Result<Packet>>): (part: seq<Result<Packet>>)
    ensures part <= rs && (forall r <- part :: Welcome(r))
    ensures part != rs ==> !Welcome(rs[|part|])
  {
    if rs == [] || !Welcome(rs[0]) then [] else [rs[0]] + WelcomePart(rs[1..])
  }

  /** How many frames are read: the one that ends the session is. */
  function Served(rs: seq<Result<Packet>>): (n: nat)
    ensures n <= |rs|
  {
    if WelcomePart(rs) == rs then |rs| else |WelcomePart(rs)| + 1
  }

  lemma {:induction false} ReadManyPrefix(io: seq<Io>, j: nat, n: nat)
    requires j <= n
    ensures |ReadMany(io, n).0| == n && ReadMany(io, j).0 == ReadMany(io, n).0[..j]
    decreases n, Size(io)
  {
    if n > 0 {
      var (r, rest) := ReadPacket(io);
      if r == Err(TimedOut) {
        ReadManyPrefix(rest, j, n);
      } else {
        ReadManyPrefix(rest, if j == 0 then 0 else j - 1, n - 1);
      }
    }
  }

  lemma {:induction false} FeedsEndsOnRead(script: seq<Moment>, io: seq<Io>, frames: nat)
    requires Feeds(script, io, frames) && frames > 0
    ensures script != [] && script[|script| - 1].read != Err(TimedOut)
    decreases |script|
  {
    var left := if script[0].read == Err(TimedOut) then frames else frames - 1;
    if left > 0 {
      FeedsEndsOnRead(script[1..], ReadPacket(io).1, left);
    }
  }

  /** A frame that does not parse or says goodbye makes no call and ends the packet loop. */
  lemma LastMoment(setup: Setup, s: Client, m: Moment, keepAwake: bool)
    requires s.loc == InSession && s.running && Undisturbed(m, keepAwake)
    requires m.read != Err(TimedOut) && !Welcome(m.read)
    ensures var t := Next(setup, s, m); t.loc == Leaving && t.trace == s.trace
  {
  }

  lemma StaysInSession(setup: Setup, s: Client, script: seq<Moment>, keepAwake: bool)
    requires s.loc == InSession && s.running && forall m <- script :: Plain(m, keepAwake)
    ensures Run(setup, s, script).loc == InSession && Run(setup, s, script).running
  {
    var states := StatesOf(setup, s, script);
    CallsOverStates(setup, states, script, |script|, keepAwake);
  }

  /** A session whose last read ends it. */
  lemma EndedSession(setup: Setup, s: Client, script: seq<Moment>, keepAwake: bool)
    requires s.loc == InSession && s.running && script != []
    requires var n := |script| - 1;
             && (forall m <- script[..n] :: Plain(m, keepAwake)) && Undisturbed(script[n], keepAwake)
             && script[n].read != Err(TimedOut) && !Welcome(script[n].read)
    ensures var d := Run(setup, s, script);
            d.loc == Leaving &&
            HandlingCalls(d.trace) == HandlingCalls(s.trace) + CallsForAll(Results(script[..|script| - 1]), keepAwake)
  {
    var n := |script| - 1;
    StaysInSession(setup, s, script[..n], keepAwake);
    SessionCalls(setup, s, script[..n], keepAwake);
    LastMoment(setup, Run(setup, s, script[..n]), script[n], keepAwake);
  }

  lemma ReadsOf(script: seq<Moment>, io: seq<Io>, frames: seq<seq<byte>>, tail: seq<byte>, n: nat)
    requires AllValid(frames) && Bytes(io) == Concat(frames) + tail && Calm(io, frames, 0, 0)
    requires n <= |frames| && Feeds(script, io, n)
    ensures Results(script) == ParseAll(frames)[..n]
  {
    ChunkingIndependence(io, frames, tail);
    ReadManyPrefix(io, n, |frames|);
    ResultsAreRead(script, io, n);
  }

  lemma PlainReads(script: seq<Moment>, keepAwake: bool)
    requires forall m <- script :: Undisturbed(m, keepAwake)
    requires forall r <- Results(script) :: Welcome(r)
    ensures forall m <- script :: Plain(m, keepAwake)
  {
    ReadsAreResults(script);
  }

  lemma {:induction false} CutLast(script: seq<Moment>, rs: seq<Result<Packet>>)
    requires script != [] && script[|script| - 1].read != Err(TimedOut)
    requires WelcomePart(rs) != rs && Results(script) == rs[..Served(rs)]
    ensures Results(script[..|script| - 1]) == WelcomePart(rs) && !Welcome(script[|script| - 1].read)
  {
    var n := |script| - 1;
    assert script == script[..n] + [script[n]];
    ResultsSnoc(script[..n], script[n]);
    var part := WelcomePart(rs);
    assert rs[..|part| + 1] == part + [rs[|part|]];
    assert (Results(script[..n]) + [script[n].read])[..|part|] == part;
  }

  /** However the bytes of a list of valid frames are split into reads, with the limit expiring only where a frame
      begins: an undisturbed session makes exactly the calls of the frames before the first that does not parse or
      says goodbye, in their order, and stays open if and only if there is none. */
  lemma WireDeterminesCalls(setup: Setup, s: Client, script: seq<Moment>, io: seq<Io>, frames: seq<seq<byte>>,
                            tail: seq<byte>, keepAwake: bool)
    requires s.loc == InSession && s.running && forall m <- script :: Undisturbed(m, keepAwake)
    requires AllValid(frames) && Bytes(io) == Concat(frames) + tail && Calm(io, frames, 0, 0)
    requires Feeds(script, io, Served(ParseAll(frames)))
    ensures var part := WelcomePart(ParseAll(frames));
            var d := Run(setup, s, script);
            && HandlingCalls(d.trace) == HandlingCalls(s.trace) + CallsForAll(part, keepAwake)
            && d.loc == if part == ParseAll(frames) then InSession else Leaving
  {
    var rs := ParseAll(frames);
    ReadsOf(script, io, frames, tail, Served(rs));
    if WelcomePart(rs) == rs {
      assert rs[..|rs|] == rs;
      PlainReads(script, keepAwake);
      StaysInSession(setup, s, script, keepAwake);
      SessionCalls(setup, s, script, keepAwake);
    } else {
      FeedsEndsOnRead(script, io, Served(rs));
      CutLast(script, rs);
      PlainReads(script[..|script| - 1], keepAwake);
      EndedSession(setup, s, script, keepAwake);
    }
  }

  /** The next thing the actuator hears after the packet loop is DISCONNECTED. */
  lemma LeavingDisconnects(setup: Setup, c: Client, m: Moment)
    requires c.loc == Leaving
    ensures var t := Next(setup, c, m);
            |c.trace| < |t.trace| && c.trace <= t.trace && t.loc != Leaving &&
            t.trace[|c.trace|] == Act(Queue(Disconnected), Setting, true, t.now)
  {
  }
}
