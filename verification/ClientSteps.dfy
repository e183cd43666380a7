/** What single moments of the client task do (main/barrier/barrier_client.c): replies, the ends of waits, attempts and
    sessions. */
module ClientSteps {
  import opened HidScaling
  import opened Commands
  import opened WireBytes
  import opened BarrierPacket
  import opened BarrierClient

  // ---- replies ----

  /** A query for the screen during a session leads to exactly one reply, delivered if the link takes it: a DINF with
      the configured screen size, at the origin. */
  lemma QueryIsAnswered(setup: Setup, c: Client, m: Moment, before: seq<byte>)
    requires c.loc == InSession && c.running && !m.stop && !(setup.events && m.reconnect) && m.read == Ok(Bare(QINF))
    requires |before| == 1024
    ensures var trace := Next(setup, c, m).trace;
            && |trace| == |c.trace| + 1 && c.trace <= trace && trace[|c.trace|].Reply?
            && trace[|c.trace|].delivered == m.sends && WellFormed(trace[|c.trace|].packet)
            && FrameLen(trace[|c.trace|].packet) == 22
            && Written(trace[|c.trace|].packet, before)[..22] == InfoBytes(m.cfg.screenWidth, m.cfg.screenHeight)
  {
    InfoIsWritten(m.cfg.screenWidth, m.cfg.screenHeight, before);
  }

  function InfoBytes(w: u16, h: u16): seq<byte> {
    [0, 0, 0, 18, 0x44, 0x49, 0x4E, 0x46] + [0, 0, 0, 0] + [w / 256, w % 256, h / 256, h % 256] + [0, 0, 0, 0, 0, 0]
  }

  lemma InfoIsWritten(w: u16, h: u16, before: seq<byte>)
    requires |before| == 1024
    ensures Written(DeviceInfo(0, 0, w, h, 0, 0, 0), before)[..22] == InfoBytes(w, h)
  {
    assert Header(DINF) == [0, 0, 0, 18, 0x44, 0x49, 0x4E, 0x46];
    assert Data(DeviceInfo(0, 0, w, h, 0, 0, 0)) ==
           [0, 0, 0, 0] + [w / 256, w % 256, h / 256, h % 256] + [0, 0, 0, 0, 0, 0];
  }

  /** A keep-alive during a session is answered with a keep-alive, after a jiggle if the device is to be kept awake. */
  lemma KeepAliveIsAnswered(setup: Setup, c: Client, m: Moment, before: seq<byte>)
    requires c.loc == InSession && c.running && !m.stop && !(setup.events && m.reconnect) && m.read == Ok(Bare(CALV))
    requires |before| == 1024
    ensures var jiggles := if m.cfg.keepAwake then [Act(Queue(Jiggle), Handling, m.accepts, c.now + m.elapsed)] else [];
            Next(setup, c, m).trace == c.trace + jiggles + [Reply(Bare(CALV), m.sends)]
    ensures Written(Bare(CALV), before)[..8] == [0, 0, 0, 4, 0x43, 0x41, 0x4C, 0x56]
  {
    KeepAliveMoment(setup, c, m);
    HeaderBytes(before);
  }

  lemma KeepAliveMoment(setup: Setup, c: Client, m: Moment)
    requires c.loc == InSession && c.running && !m.stop && !(setup.events && m.reconnect) && m.read == Ok(Bare(CALV))
    ensures var jiggles := if m.cfg.keepAwake then [Act(Queue(Jiggle), Handling, m.accepts, c.now + m.elapsed)] else [];
            Next(setup, c, m).trace == c.trace + jiggles + [Reply(Bare(CALV), m.sends)]
  {
    assert c.trace + [] == c.trace;
  }

  lemma HeaderBytes(before: seq<byte>)
    requires |before| == 1024
    ensures Written(Bare(CALV), before)[..8] == [0, 0, 0, 4, 0x43, 0x41, 0x4C, 0x56]
  {
    assert Header(CALV) == [0, 0, 0, 4, 0x43, 0x41, 0x4C, 0x56];
    assert Data(Bare(CALV)) == [];
  }

  // ---- how a session ends ----

  /** Packets whose command must get into the queue for the session to go on. */
  predicate MustQueue(p: Packet) {
    p.KeyPress? || p.KeyRelease? || p.ButtonDown? || p.ButtonUp? || p.Wheel? || p.CursorEnter? || p == Bare(COUT)
  }

  /** Packets that must be answered. */
  predicate MustAnswer(p: Packet) {
    p == Bare(QINF) || p == Bare(CALV)
  }

  predicate SignsOff(p: Packet) {
    p == Bare(CBYE) || p == Bare(EUNK) || p == Bare(EBSY) || p == Bare(EBAD) || p.Incompatible?
  }

  lemma BareEndsIff(s: Client, kind: Kind, m: Moment)
    ensures !HandleBare(s, kind, m).ok <==>
            || SignsOff(Bare(kind)) || (MustQueue(Bare(kind)) && !m.accepts) || (MustAnswer(Bare(kind)) && !m.sends)
    ensures HandleBare(s, kind, m).client.loc == s.loc
  {
  }

  lemma PacketEndsIff(s: Client, p: Packet, m: Moment)
    ensures !HandlePacket(s, p, m).ok <==>
            SignsOff(p) || (MustQueue(p) && !m.accepts) || (MustAnswer(p) && !m.sends)
    ensures HandlePacket(s, p, m).client.loc == s.loc
  {
    if p.Bare? {
      BareEndsIff(s, p.bare, m);
    }
  }

  /** The packet loop ends exactly when the task is stopped, a read fails other than by a timeout, the configuration has
      changed, the server signs off, a command that must be queued is refused, or a reply cannot be sent. */
  lemma SessionEndsIff(setup: Setup, c: Client, m: Moment)
    requires c.loc == InSession
    ensures Next(setup, c, m).loc == Leaving <==>
            || m.stop || !c.running
            || (m.read.Err? && !m.read.error.TimedOut?)
            || (m.read.Ok? && ((setup.events && m.reconnect) || SignsOff(m.read.value)
                               || (MustQueue(m.read.value) && !m.accepts) || (MustAnswer(m.read.value) && !m.sends)))
    ensures Next(setup, c, m).loc == Leaving || Next(setup, c, m).loc == InSession
  {
    if m.read.Ok? {
      PacketEndsIff(Tick(c, m), m.read.value, m);
    }
  }

  /** The packet that reveals a changed configuration is not handled. */
  lemma ReconnectDropsPacket(setup: Setup, c: Client, m: Moment)
    requires c.loc == InSession && c.running && !m.stop && m.read.Ok? && setup.events && m.reconnect
    ensures Next(setup, c, m).loc == Leaving && Next(setup, c, m).trace == c.trace
  {
  }

  // ---- waits, attempts, settings ----

  /** The wait for the network ends exactly when there is an address or the task is stopped. */
  lemma NetworkWaitEndsIff(setup: Setup, c: Client, m: Moment)
    requires c.loc == Waiting
    ensures Next(setup, c, m).loc == Connecting <==> m.hasIp || m.stop || !c.running
    ensures Next(setup, c, m).loc == Connecting || Next(setup, c, m).loc == Waiting
    ensures Next(setup, c, m).trace == c.trace
  {
  }

  /** A changed configuration goes to the actuator as it is, size before scaling, before the TLS client is recreated; if
      that fails, the retries start afresh with one wait. */
  lemma ConfigurationIsApplied(setup: Setup, c: Client, m: Moment)
    requires c.loc == Connecting && setup.events && m.reconnect
    ensures var now := c.now + m.elapsed;
            var size := SetScreenSize(m.cfg.screenWidth, m.cfg.screenHeight);
            var told := c.trace + [Act(Queue(size), Setting, m.accepts, now),
                                   Act(Queue(SetScaling(m.cfg.scaling)), Setting, m.accepts, now),
                                   Recreated(m.recreated)];
            var d := Next(setup, c, m);
            && d.loc == Top
            && d.trace == (if m.recreated then told else told + [Wait(DelayOf(setup, 0, m.random), m.random)])
            && d.retries == if m.recreated then c.retries else 1
  {
  }

  /** After a failed attempt to connect, or a session, the task waits once with the backoff, if it is still to run and
      may retry, and ends otherwise. */
  lemma FailureWaitsIff(setup: Setup, c: Client, m: Moment)
    requires (c.loc == Connecting && !(setup.events && m.reconnect) && !m.handshake) || c.loc == Leaving
    ensures var d, now := Next(setup, c, m), c.now + m.elapsed;
            var closed := if c.loc == Leaving then [Act(Queue(Disconnected), Setting, true, now)] else [];
            var again := (c.loc == Leaving ==> c.running && !m.stop)
                         && (setup.maxRetries < 0 || c.retries < setup.maxRetries);
            && d.loc == (if again then Top else Stopped) && d.phase == (if again then Offline else IdlePhase)
            && d.retries == (if again then c.retries + 1 else c.retries)
            && d.trace == c.trace + closed
                          + (if again then [Wait(DelayOf(setup, c.retries, m.random), m.random)] else [])
  {
    assert c.trace + [] == c.trace;
  }

  /** A handshake that succeeds opens a session with fresh retries. */
  lemma HandshakeOpensSession(setup: Setup, c: Client, m: Moment)
    requires c.loc == Connecting && !(setup.events && m.reconnect) && m.handshake
    ensures var d := Next(setup, c, m);
            && d.loc == InSession && d.phase == Online && d.retries == 0
            && d.trace == c.trace + [Act(Queue(Connected), Setting, m.accepts, c.now + m.elapsed)]
  {
  }
}
