/** What every run of the client task looks like from outside: sessions are bracketed, settings and waits lie
    between them, idle jiggles are due, and waits follow the backoff. */
module ClientRuns {
  import opened HidScaling
  import opened Commands
  import opened WireBytes
  import opened BarrierPacket
  import opened Reconnect
  import opened BarrierClient

  // ---- the declarative reading of a trace ----

  predicate Opens(e: Event) {
    e.Act? && e.call == Queue(Connected)
  }

  predicate Closes(e: Event) {
    e.Act? && e.call == Queue(Disconnected)
  }

  predicate Enters(e: Event) {
    e.Act? && e.call.Queue? && e.call.cmd.Enter?
  }

  /** The cursor leaves, or a session begins or ends. */
  predicate Exits(e: Event) {
    e.Act? && (e.call == Queue(Leave) || Opens(e) || Closes(e))
  }

  /** Some `on` event has had no `off` event after it. */
  ghost predicate Since(trace: seq<Event>, on: Event -> bool, off: Event -> bool) {
    exists i :: 0 <= i < |trace| && on(trace[i]) && forall j :: i < j < |trace| ==> !off(trace[j])
  }

  /** A session is open. */
  ghost predicate OpenAfter(trace: seq<Event>) {
    Since(trace, Opens, Closes)
  }

  /** The session's latest enter or leave was an enter. */
  ghost predicate HereAfter(trace: seq<Event>) {
    Since(trace, Enters, Exits)
  }

  predicate IsSettingCmd(c: Cmd) {
    c.SetScreenSize? || c.SetScaling?
  }

  /** Calls a packet may cause. */
  predicate IsSessionCall(c: Call) {
    c.Queue? ==> !IsSettingCmd(c.cmd) && !c.cmd.Connected? && !c.cmd.Disconnected?
  }

  /** Calls that show the user was active, if they were taken. */
  predicate IsUserCall(c: Call) {
    c.Queue? ==> !c.cmd.Leave? && !c.cmd.Jiggle?
  }

  /** Events that restart the idle clock. */
  predicate IsActivity(e: Event) {
    e.Act? && (e.cause.Idle? || (e.cause.Handling? && e.accepted && IsUserCall(e.call)))
  }

  /** Waits since the last fresh start: a session, or a TLS client that could not be created. */
  function WaitsAfter(trace: seq<Event>, initial: nat): nat {
    if trace == [] then initial
    else
      var e, before := trace[|trace| - 1], WaitsAfter(trace[..|trace| - 1], initial);
      if e.Wait? then before + 1 else if Opens(e) || e == Recreated(false) then 0 else before
  }

  /** Nothing the user did, nor an earlier idle jiggle, nor the start, lies within `interval` seconds before `at`. */
  ghost predicate QuietFor(start: nat, before: seq<Event>, interval: u16, at: nat) {
    at - start > interval * 1000 && forall e <- before :: IsActivity(e) ==> at - e.at > interval * 1000
  }

  ghost predicate ActInOrder(start: nat, before: seq<Event>, call: Call, cause: Cause, at: nat) {
    match cause
    case Setting =>
      if call == Queue(Connected) then !OpenAfter(before)
      else if call == Queue(Disconnected) then OpenAfter(before)
      else call.Queue? && IsSettingCmd(call.cmd) && !OpenAfter(before)
    case Handling => OpenAfter(before) && IsSessionCall(call)
    case Idle(interval) =>
      call == Queue(Jiggle) && OpenAfter(before) && HereAfter(before) && QuietFor(start, before, interval, at)
  }

  /** What must have gone before an event, for it to be in order. */
  ghost predicate InOrder(setup: Setup, start: nat, initial: nat, before: seq<Event>, e: Event) {
    match e
    case Act(call, cause, _, at) =>
      start <= at && (forall f <- before :: f.Act? ==> f.at <= at) && ActInOrder(start, before, call, cause, at)
    case Reply(_, _) => OpenAfter(before)
    case Recreated(_) => !OpenAfter(before)
    case Wait(ms, random) => !OpenAfter(before) && ms == DelayOf(setup, WaitsAfter(before, initial), random)
  }

  ghost predicate Orderly(setup: Setup, start: nat, initial: nat, trace: seq<Event>) {
    forall k :: 0 <= k < |trace| ==> InOrder(setup, start, initial, trace[..k], trace[k])
  }

  // ---- an observer of traces ----

  /** What the observer knows: whether a session is open, whether the cursor is here (the session's latest
      enter or leave was an enter), when the user was last active, how many waits there were since the last
      fresh start, when the latest event was, and whether every event so far was in order. */
  datatype Seen = Seen(open: bool, here: bool, active: nat, waits: nat, latest: nat, ok: bool)

  function SeeSetting(seen: Seen, call: Call, at: nat): Seen {
    match call
    case Queue(Connected) => seen.(open := true, here := false, waits := 0, ok := seen.ok && !seen.open)
    case Queue(Disconnected) => seen.(open := false, here := false, ok := seen.ok && seen.open)
    case _ => seen.(ok := seen.ok && !seen.open && call.Queue? && IsSettingCmd(call.cmd))
  }

  function SeeHandling(seen: Seen, call: Call, accepted: bool, at: nat): Seen {
    seen.(here := if call.Queue? && call.cmd.Enter? then true else if call == Queue(Leave) then false else seen.here,
          active := if accepted && IsUserCall(call) then at else seen.active,
          ok := seen.ok && seen.open && IsSessionCall(call))
  }

  function SeeIdle(seen: Seen, call: Call, interval: u16, at: nat): Seen {
    seen.(active := at,
          ok := seen.ok && seen.open && seen.here && call == Queue(Jiggle) && at - seen.active > interval * 1000)
  }

  function SeeAct(seen: Seen, call: Call, cause: Cause, accepted: bool, at: nat): Seen {
    match cause
    case Setting => SeeSetting(seen, call, at)
    case Handling => SeeHandling(seen, call, accepted, at)
    case Idle(interval) => SeeIdle(seen, call, interval, at)
  }

  function See(setup: Setup, seen: Seen, e: Event): Seen {
    match e
    case Act(call, cause, accepted, at) =>
      var after := SeeAct(seen, call, cause, accepted, at);
      after.(latest := at, ok := after.ok && seen.latest <= at)
    case Reply(_, _) => seen.(ok := seen.ok && seen.open)
    case Recreated(ok) => seen.(waits := if ok then seen.waits else 0, ok := seen.ok && !seen.open)
    case Wait(ms, random) =>
      seen.(waits := seen.waits + 1,
            ok := seen.ok && !seen.open && ms == DelayOf(setup, seen.waits, random))
  }

  function Watch(setup: Setup, seen: Seen, trace: seq<Event>): Seen {
    if trace == [] then seen
    else See(setup, Watch(setup, seen, trace[..|trace| - 1]), trace[|trace| - 1])
  }

  function Fresh(now: nat, retries: nat): Seen {
    Seen(false, false, now, retries, now, true)
  }

  // ---- the client's variables agree with the observer ----

  predicate InSessionLoc(l: Loc) {
    l == InSession || l == Leaving
  }

  ghost predicate Agrees(s: Client, seen: Seen) {
    && seen.ok
    && seen.open == InSessionLoc(s.loc) == (s.phase == Online)
    && s.entered == seen.here
    && s.lastActivity == seen.active
    && s.retries == seen.waits
    && seen.latest <= s.now && s.lastActivity <= s.now
    && (s.entered ==> seen.open)
    && (s.loc == Stopped ==> s.phase == IdlePhase && !s.running)
  }

  ghost predicate Inv(setup: Setup, from: Seen, s: Client) {
    Agrees(s, Watch(setup, from, s.trace))
  }

  lemma SayWatched(setup: Setup, from: Seen, s: Client, e: Event)
    ensures Watch(setup, from, Say(s, e).trace) == See(setup, Watch(setup, from, s.trace), e)
  {
  }

  lemma DoWatched(setup: Setup, from: Seen, s: Client, call: Call, cause: Cause, accepted: bool)
    ensures Watch(setup, from, Do(s, call, cause, accepted).trace) ==
            See(setup, Watch(setup, from, s.trace), Act(call, cause, accepted, s.now))
  {
  }

  lemma PauseKeeps(setup: Setup, from: Seen, s: Client, random: u32)
    requires Inv(setup, from, s.(phase := Offline, loc := Top)) && !s.entered
    ensures Inv(setup, from, Pause(setup, s.(phase := Offline), random))
    ensures Inv(setup, from, PauseOrHalt(setup, s.(phase := Offline), random))
  {
  }

  lemma SettingKeeps(setup: Setup, from: Seen, s: Client, cmd: Cmd, accepted: bool)
    requires Inv(setup, from, s) && s.loc == Connecting && IsSettingCmd(cmd)
    ensures Inv(setup, from, Do(s, Queue(cmd), Setting, accepted))
  {
    DoWatched(setup, from, s, Queue(cmd), Setting, accepted);
  }

  lemma RecreatedKeeps(setup: Setup, from: Seen, s: Client, m: Moment)
    requires Inv(setup, from, s) && s.loc == Connecting
    ensures var c := Say(s, Recreated(m.recreated));
            Inv(setup, from, if m.recreated then c.(loc := Top) else Pause(setup, c.(retries := 0), m.random))
  {
    SayWatched(setup, from, s, Recreated(m.recreated));
    var c := Say(s, Recreated(m.recreated)).(retries := 0);
    SayWatched(setup, from, c, Wait(DelayOf(setup, 0, m.random), m.random));
  }

  lemma ReconfigureKeeps(setup: Setup, from: Seen, s: Client, m: Moment)
    requires Inv(setup, from, s) && s.loc == Connecting
    ensures Inv(setup, from, Reconfigure(setup, s, m))
  {
    var size, scale := SetScreenSize(m.cfg.screenWidth, m.cfg.screenHeight), SetScaling(m.cfg.scaling);
    var a := Do(s, Queue(size), Setting, m.accepts);
    SettingKeeps(setup, from, s, size, m.accepts);
    SettingKeeps(setup, from, a, scale, m.accepts);
    RecreatedKeeps(setup, from, Do(a, Queue(scale), Setting, m.accepts), m);
  }

  lemma ConnectKeeps(setup: Setup, from: Seen, s: Client, m: Moment)
    requires Inv(setup, from, s) && s.loc == Connecting
    ensures Inv(setup, from, Connect(setup, s, m))
  {
    if m.handshake {
      DoWatched(setup, from, s, Queue(Connected), Setting, m.accepts);
    } else {
      PauseKeeps(setup, from, s, m.random);
    }
  }

  lemma EnqueueKeeps(setup: Setup, from: Seen, s: Client, here: bool, cmd: Cmd, m: Moment)
    requires Inv(setup, from, s) && s.loc == InSession && IsSessionCall(Queue(cmd)) && IsUserCall(Queue(cmd))
    requires here == (cmd.Enter? || s.entered)
    ensures Inv(setup, from, Enqueue(s.(entered := here), cmd, m).client)
  {
  }

  lemma ActiveKeeps(setup: Setup, from: Seen, s: Client, call: Call)
    requires Inv(setup, from, s) && s.loc == InSession
    requires call.Queue? ==> call.cmd == KeyRepeat
    ensures Inv(setup, from, Active(s, call).client)
  {
  }

  lemma AnswerKeeps(setup: Setup, from: Seen, s: Client, reply: Packet, delivered: bool)
    requires Inv(setup, from, s) && s.loc == InSession
    ensures Inv(setup, from, Say(s, Reply(reply, delivered)))
  {
    SayWatched(setup, from, s, Reply(reply, delivered));
  }

  lemma JiggleKeeps(setup: Setup, from: Seen, s: Client, accepted: bool)
    requires Inv(setup, from, s) && s.loc == InSession
    ensures Inv(setup, from, Do(s, Queue(Jiggle), Handling, accepted))
  {
    DoWatched(setup, from, s, Queue(Jiggle), Handling, accepted);
  }

  lemma KeepAliveKeeps(setup: Setup, from: Seen, s: Client, m: Moment)
    requires Inv(setup, from, s) && s.loc == InSession
    ensures Inv(setup, from, HandleBare(s, CALV, m).client)
  {
    JiggleKeeps(setup, from, s, m.accepts);
    AnswerKeeps(setup, from, if m.cfg.keepAwake then Do(s, Queue(Jiggle), Handling, m.accepts) else s, Bare(CALV),
                m.sends);
  }

  lemma QueryKeeps(setup: Setup, from: Seen, s: Client, m: Moment)
    requires Inv(setup, from, s) && s.loc == InSession
    ensures Inv(setup, from, HandleBare(s, QINF, m).client)
  {
    AnswerKeeps(setup, from, s, DeviceInfo(0, 0, m.cfg.screenWidth, m.cfg.screenHeight, 0, 0, 0), m.sends);
  }

  lemma LeaveKeeps(setup: Setup, from: Seen, s: Client, m: Moment)
    requires Inv(setup, from, s) && s.loc == InSession
    ensures Inv(setup, from, HandleBare(s, COUT, m).client)
  {
    DoWatched(setup, from, s.(entered := false), Queue(Leave), Handling, m.accepts);
  }

  lemma HandleBareKeeps(setup: Setup, from: Seen, s: Client, kind: Kind, m: Moment)
    requires Inv(setup, from, s) && s.loc == InSession
    ensures Inv(setup, from, HandleBare(s, kind, m).client)
  {
    if kind == QINF {
      QueryKeeps(setup, from, s, m);
    } else if kind == CALV {
      KeepAliveKeeps(setup, from, s, m);
    } else if kind == COUT {
      LeaveKeeps(setup, from, s, m);
    }
  }

  lemma KeyPacketKeeps(setup: Setup, from: Seen, s: Client, p: Packet, m: Moment)
    requires Inv(setup, from, s) && s.loc == InSession && (p.KeyPress? || p.KeyRelease? || p.KeyAgain?)
    ensures Inv(setup, from, HandlePacket(s, p, m).client)
  {
    match p
    case KeyPress(key, mask, _) => EnqueueKeeps(setup, from, s, s.entered, KeyDown(key, mask as bv16), m);
    case KeyRelease(key, mask, _) => EnqueueKeeps(setup, from, s, s.entered, KeyUp(key, mask as bv16), m);
    case KeyAgain(_, _, _, _) => ActiveKeeps(setup, from, s, Queue(KeyRepeat));
  }

  lemma HandlePacketKeeps(setup: Setup, from: Seen, s: Client, p: Packet, m: Moment)
    requires Inv(setup, from, s) && s.loc == InSession
    ensures Inv(setup, from, HandlePacket(s, p, m).client)
  {
    match p
    case Bare(kind) => HandleBareKeeps(setup, from, s, kind, m);
    case MoveAbs(x, y) => ActiveKeeps(setup, from, s, SetMovement(x, y));
    case MoveRel(dx, dy) => ActiveKeeps(setup, from, s, MoveRelative(dx, dy));
    case KeyPress(_, _, _) => KeyPacketKeeps(setup, from, s, p, m);
    case KeyRelease(_, _, _) => KeyPacketKeeps(setup, from, s, p, m);
    case KeyAgain(_, _, _, _) => KeyPacketKeeps(setup, from, s, p, m);
    case ButtonDown(id) => EnqueueKeeps(setup, from, s, s.entered, MouseDown(id), m);
    case ButtonUp(id) => EnqueueKeeps(setup, from, s, s.entered, MouseUp(id), m);
    case Wheel(dx, dy) => EnqueueKeeps(setup, from, s, s.entered, MouseWheel(dx, dy), m);
    case CursorEnter(x, y, _, mask) => EnqueueKeeps(setup, from, s, true, Enter(x, y, mask as bv16), m);
    case _ =>
  }

  lemma IdleKeeps(setup: Setup, from: Seen, s: Client, m: Moment)
    requires Inv(setup, from, s) && s.loc == InSession
    ensures Inv(setup, from, IdleCheck(s, m))
  {
  }

  lemma LeavesSession(setup: Setup, from: Seen, s: Client, stay: bool)
    requires Inv(setup, from, s) && s.loc == InSession
    ensures Inv(setup, from, GoOn(s, stay))
  {
  }

  lemma PacketKeeps(setup: Setup, from: Seen, s: Client, p: Packet, m: Moment)
    requires Inv(setup, from, s) && s.loc == InSession
    ensures Inv(setup, from, GoOn(HandlePacket(s, p, m).client, HandlePacket(s, p, m).ok))
  {
    var h := HandlePacket(s, p, m);
    HandlePacketKeeps(setup, from, s, p, m);
    LeavesSession(setup, from, h.client, h.ok);
  }

  lemma SessionKeeps(setup: Setup, from: Seen, s: Client, m: Moment)
    requires Inv(setup, from, s) && s.loc == InSession
    ensures Inv(setup, from, AtSession(setup, s, m))
  {
    IdleKeeps(setup, from, s, m);
    if m.read.Ok? {
      PacketKeeps(setup, from, s, m.read.value, m);
    }
  }

  lemma LeavingKeeps(setup: Setup, from: Seen, s: Client, m: Moment)
    requires Inv(setup, from, s) && s.loc == Leaving
    ensures Inv(setup, from, AtLeaving(setup, s, m))
  {
    var t := s.(phase := Offline, entered := false);
    DoWatched(setup, from, t, Queue(Disconnected), Setting, true);
    PauseKeeps(setup, from, Do(t, Queue(Disconnected), Setting, true), m.random);
  }

  /** Every step keeps the agreement. */
  lemma NextKeeps(setup: Setup, from: Seen, s: Client, m: Moment)
    requires Inv(setup, from, s)
    ensures Inv(setup, from, Next(setup, s, m))
  {
    var t := Tick(s, m);
    match t.loc
    case Top =>
    case Waiting =>
    case Connecting => ReconfigureKeeps(setup, from, t, m); ConnectKeeps(setup, from, t, m);
    case InSession => SessionKeeps(setup, from, t, m);
    case Leaving => LeavingKeeps(setup, from, t, m);
    case Stopped =>
  }

  /** Every run of the client task produces a trace the observer accepts, and its variables agree with what the
      observer saw. */
  lemma {:induction false} RunAgrees(setup: Setup, now: nat, retries: nat, script: seq<Moment>)
    ensures Inv(setup, Fresh(now, retries), Run(setup, Started(now, retries), script))
  {
    if script != [] {
      var n := |script| - 1;
      RunAgrees(setup, now, retries, script[..n]);
      NextKeeps(setup, Fresh(now, retries), Run(setup, Started(now, retries), script[..n]), script[n]);
    }
  }

  // ---- what the observer's verdict means ----

  lemma SinceSnoc(trace: seq<Event>, e: Event, on: Event -> bool, off: Event -> bool)
    ensures Since(trace + [e], on, off) <==> on(e) || (Since(trace, on, off) && !off(e))
  {
    var longer := trace + [e];
    assert longer[|trace|] == e;
    if on(e) {
      assert on(longer[|trace|]);
    }
    if Since(trace, on, off) && !off(e) {
      var i :| 0 <= i < |trace| && on(trace[i]) && forall j :: i < j < |trace| ==> !off(trace[j]);
      assert on(longer[i]);
    }
    if Since(longer, on, off) && !on(e) {
      var i :| 0 <= i < |longer| && on(longer[i]) && forall j :: i < j < |longer| ==> !off(longer[j]);
      assert forall j :: i < j < |trace| ==> trace[j] == longer[j];
    }
  }

  lemma SnocOpen(setup: Setup, trace: seq<Event>, seen: Seen, e: Event)
    requires (seen.open <==> OpenAfter(trace)) && (seen.here <==> HereAfter(trace)) && See(setup, seen, e).ok
    ensures See(setup, seen, e).open <==> OpenAfter(trace + [e])
    ensures See(setup, seen, e).here <==> HereAfter(trace + [e])
  {
    SinceSnoc(trace, e, Opens, Closes);
    SinceSnoc(trace, e, Enters, Exits);
  }

  lemma SeenWasOk(setup: Setup, seen: Seen, e: Event)
    requires See(setup, seen, e).ok
    ensures seen.ok
  {
  }

  lemma {:induction false} WatchOpen(setup: Setup, from: Seen, trace: seq<Event>)
    requires Watch(setup, from, trace).ok && !from.open && !from.here
    ensures Watch(setup, from, trace).open <==> OpenAfter(trace)
    ensures Watch(setup, from, trace).here <==> HereAfter(trace)
  {
    if trace != [] {
      var n := |trace| - 1;
      var seen := Watch(setup, from, trace[..n]);
      SeenWasOk(setup, seen, trace[n]);
      WatchOpen(setup, from, trace[..n]);
      SnocOpen(setup, trace[..n], seen, trace[n]);
      assert trace == trace[..n] + [trace[n]];
    }
  }

  /** The observer's clocks and counter are those of the declarative reading. */
  ghost predicate Counts(start: nat, initial: nat, trace: seq<Event>, seen: Seen) {
    && seen.waits == WaitsAfter(trace, initial)
    && start <= seen.active <= seen.latest
    && (forall e <- trace :: e.Act? ==> e.at <= seen.latest)
    && (forall e <- trace :: IsActivity(e) ==> e.at <= seen.active)
    && (seen.active == start || exists e <- trace :: IsActivity(e) && e.at == seen.active)
  }

  lemma SnocCounts(setup: Setup, start: nat, initial: nat, trace: seq<Event>, seen: Seen, e: Event)
    requires Counts(start, initial, trace, seen) && See(setup, seen, e).ok
    ensures Counts(start, initial, trace + [e], See(setup, seen, e))
  {
    assert (trace + [e])[..|trace|] == trace;
  }

  lemma {:induction false} WatchCounts(setup: Setup, start: nat, initial: nat, trace: seq<Event>)
    requires Watch(setup, Fresh(start, initial), trace).ok
    ensures Counts(start, initial, trace, Watch(setup, Fresh(start, initial), trace))
  {
    if trace != [] {
      var n := |trace| - 1;
      var seen := Watch(setup, Fresh(start, initial), trace[..n]);
      SeenWasOk(setup, seen, trace[n]);
      WatchCounts(setup, start, initial, trace[..n]);
      SnocCounts(setup, start, initial, trace[..n], seen, trace[n]);
      assert trace == trace[..n] + [trace[n]];
    }
  }

  lemma SeenInOrder(setup: Setup, start: nat, initial: nat, trace: seq<Event>, seen: Seen, e: Event)
    requires (seen.open <==> OpenAfter(trace)) && (seen.here <==> HereAfter(trace))
    requires Counts(start, initial, trace, seen) && See(setup, seen, e).ok
    ensures InOrder(setup, start, initial, trace, e)
  {
  }

  /** An accepted trace is in order. */
  lemma {:induction false} WatchedIsOrderly(setup: Setup, start: nat, initial: nat, trace: seq<Event>)
    requires Watch(setup, Fresh(start, initial), trace).ok
    ensures Orderly(setup, start, initial, trace)
  {
    if trace != [] {
      var n := |trace| - 1;
      var before := trace[..n];
      var seen := Watch(setup, Fresh(start, initial), before);
      SeenWasOk(setup, seen, trace[n]);
      WatchedIsOrderly(setup, start, initial, before);
      WatchOpen(setup, Fresh(start, initial), before);
      WatchCounts(setup, start, initial, before);
      SeenInOrder(setup, start, initial, before, seen, trace[n]);
      OrderlySnoc(setup, start, initial, before, trace);
    }
  }

  lemma OrderlySnoc(setup: Setup, start: nat, initial: nat, before: seq<Event>, trace: seq<Event>)
    requires trace != [] && before == trace[..|trace| - 1]
    ensures Orderly(setup, start, initial, before) && InOrder(setup, start, initial, before, trace[|trace| - 1]) ==>
            Orderly(setup, start, initial, trace)
  {
    forall k | 0 <= k < |before|
      ensures before[..k] == trace[..k] && before[k] == trace[k]
    {
    }
  }

  // ---- the main results ----

  /** Every run: the calls form (settings and waits)* (CONNECTED, session calls, DISCONNECTED) repeated, idle
      jiggles come only while the cursor is here and after the configured quiet time, waits follow the backoff for
      the number of waits since the last fresh start, and the client's variables say what the trace says. */
  lemma RunIsOrderly(setup: Setup, start: nat, initial: nat, script: seq<Moment>)
    ensures var c := Run(setup, Started(start, initial), script);
            && Orderly(setup, start, initial, c.trace)
            && (InSessionLoc(c.loc) <==> OpenAfter(c.trace)) && (c.phase == Online <==> OpenAfter(c.trace))
            && (c.entered <==> HereAfter(c.trace)) && (c.entered ==> OpenAfter(c.trace))
            && c.retries == WaitsAfter(c.trace, initial)
            && (c.loc == Stopped ==> !OpenAfter(c.trace) && !c.running)
  {
    RunAgrees(setup, start, initial, script);
    var trace := Run(setup, Started(start, initial), script).trace;
    WatchOpen(setup, Fresh(start, initial), trace);
    WatchCounts(setup, start, initial, trace);
    WatchedIsOrderly(setup, start, initial, trace);
  }

  /** Between two CONNECTEDs there is a DISCONNECTED. */
  lemma SessionsDoNotOverlap(setup: Setup, start: nat, initial: nat, trace: seq<Event>, i: nat, j: nat)
    requires Orderly(setup, start, initial, trace) && i < j < |trace| && Opens(trace[i]) && Opens(trace[j])
    ensures exists k :: i < k < j && Closes(trace[k])
  {
    var before := trace[..j];
    assert InOrder(setup, start, initial, before, trace[j]);
    assert !OpenAfter(before) && Opens(before[i]);
    var k :| i < k < |before| && Closes(before[k]);
    assert Closes(trace[k]);
  }

  /** Over every run: when a read of a session times out, a jiggle is queued, with nothing else, if and only if the
      device is to be kept awake, the session's latest enter or leave was an enter, and for more than the interval the
      user was not active, no idle jiggle was made, and the task had been started. */
  lemma IdleJigglesComeIff(setup: Setup, start: nat, initial: nat, script: seq<Moment>, m: Moment)
    requires var c := Run(setup, Started(start, initial), script); c.loc == InSession && c.running
    requires !m.stop && m.read == Err(TimedOut)
    ensures JigglesWhenDue(setup, start, Run(setup, Started(start, initial), script), m)
  {
    var c := Run(setup, Started(start, initial), script);
    ActivityIsLatest(setup, start, initial, script, m.cfg.jiggleInterval, c.now + m.elapsed);
    DueMoment(setup, start, c, m);
  }

  ghost predicate JigglesWhenDue(setup: Setup, start: nat, c: Client, m: Moment) {
    var now := c.now + m.elapsed;
    Next(setup, c, m).trace ==
      if m.cfg.keepAwake && HereAfter(c.trace) && QuietFor(start, c.trace, m.cfg.jiggleInterval, now)
      then c.trace + [Act(Queue(Jiggle), Idle(m.cfg.jiggleInterval), m.accepts, now)] else c.trace
  }

  lemma DueMoment(setup: Setup, start: nat, c: Client, m: Moment)
    requires c.loc == InSession && c.running && !m.stop && m.read == Err(TimedOut)
    requires c.entered <==> HereAfter(c.trace)
    requires QuietFor(start, c.trace, m.cfg.jiggleInterval, c.now + m.elapsed) <==>
             c.now + m.elapsed - c.lastActivity > m.cfg.jiggleInterval * 1000
    ensures JigglesWhenDue(setup, start, c, m)
  {
    TimedOutMoment(setup, c, m);
  }

  /** The client's two variables that decide about idle jiggles say what the trace says. */
  lemma ActivityIsLatest(setup: Setup, start: nat, initial: nat, script: seq<Moment>, interval: u16, at: nat)
    ensures var c := Run(setup, Started(start, initial), script);
            && (QuietFor(start, c.trace, interval, at) <==> at - c.lastActivity > interval * 1000)
            && (c.entered <==> HereAfter(c.trace))
  {
    var c := Run(setup, Started(start, initial), script);
    RunIsOrderly(setup, start, initial, script);
    RunAgrees(setup, start, initial, script);
    WatchCounts(setup, start, initial, c.trace);
    QuietIff(start, initial, c.trace, Watch(setup, Fresh(start, initial), c.trace), interval, at);
  }

  lemma QuietIff(start: nat, initial: nat, trace: seq<Event>, seen: Seen, interval: u16, at: nat)
    requires Counts(start, initial, trace, seen)
    ensures QuietFor(start, trace, interval, at) <==> at - seen.active > interval * 1000
  {
  }

  /** One timed-out read. */
  lemma TimedOutMoment(setup: Setup, c: Client, m: Moment)
    requires c.loc == InSession && c.running && !m.stop && m.read == Err(TimedOut)
    ensures var d, now := Next(setup, c, m), c.now + m.elapsed;
            var due := m.cfg.keepAwake && c.entered && now - c.lastActivity > m.cfg.jiggleInterval * 1000;
            && d.loc == InSession && d.running
            && d.lastActivity == (if due then now else c.lastActivity)
            && d.trace == if due then c.trace + [Act(Queue(Jiggle), Idle(m.cfg.jiggleInterval), m.accepts, now)]
                          else c.trace
  {
  }

  predicate IsIdleJiggle(e: Event) {
    e.Act? && e.cause.Idle?
  }

  /** Two idle jiggles are more than the interval in force at the second apart. */
  lemma IdleJigglesAreSpaced(setup: Setup, start: nat, initial: nat, script: seq<Moment>, i: nat, j: nat)
    ensures var trace := Run(setup, Started(start, initial), script).trace;
            i < j < |trace| && IsIdleJiggle(trace[i]) && IsIdleJiggle(trace[j]) ==>
              trace[j].at - trace[i].at > trace[j].cause.interval * 1000
  {
    var trace := Run(setup, Started(start, initial), script).trace;
    RunIsOrderly(setup, start, initial, script);
    if i < j < |trace| && IsIdleJiggle(trace[i]) && IsIdleJiggle(trace[j]) {
      assert InOrder(setup, start, initial, trace[..j], trace[j]);
      assert trace[i] in trace[..j];
    }
  }

  /** The idle clock neither runs backwards nor ahead of the clock. */
  predicate Advances(c: Client, d: Client) {
    c.lastActivity <= d.lastActivity <= d.now && c.now <= d.now
  }

  lemma HandlingAdvances(c: Client, p: Packet, m: Moment)
    requires c.lastActivity <= c.now
    ensures Advances(c, HandlePacket(c, p, m).client)
  {
  }

  lemma ActivityStep(setup: Setup, c: Client, m: Moment)
    requires c.lastActivity <= c.now
    ensures Advances(c, Next(setup, c, m))
  {
    var t := Tick(c, m);
    if c.loc == InSession && m.read.Ok? {
      HandlingAdvances(t, m.read.value, m);
    }
  }

  /** Between any two points of a run the activity time advances. */
  lemma {:induction false} LastActivityAdvances(setup: Setup, states: seq<Client>, script: seq<Moment>, i: nat, j: nat)
    requires Follows(setup, states, script) && i <= j <= |script| && states[0].lastActivity <= states[0].now
    ensures Advances(states[i], states[j])
    decreases j
  {
    if i < j {
      LastActivityAdvances(setup, states, script, i, j - 1);
      ActivityStep(setup, states[j - 1], script[j - 1]);
    } else if j > 0 {
      LastActivityAdvances(setup, states, script, j - 1, j - 1);
      ActivityStep(setup, states[j - 1], script[j - 1]);
    }
  }

  lemma RunningStep(setup: Setup, c: Client, m: Moment)
    requires setup.maxRetries < 0 && !m.stop && c.running
    ensures Next(setup, c, m).running
  {
  }

  /** With retries unlimited the task ends only if it is asked to. */
  lemma {:induction false} UnlimitedClientPersists(setup: Setup, start: nat, initial: nat, script: seq<Moment>)
    requires setup.maxRetries < 0 && forall m <- script :: !m.stop
    ensures Run(setup, Started(start, initial), script).running
  {
    if script != [] {
      var n := |script| - 1;
      UnlimitedClientPersists(setup, start, initial, script[..n]);
      RunningStep(setup, Run(setup, Started(start, initial), script[..n]), script[n]);
    }
  }

  /** With the default parameters no wait reaches 65 seconds. */
  lemma DefaultWaitsAreShort(setup: Setup, start: nat, initial: nat, trace: seq<Event>, k: nat)
    requires setup == Setup(setup.events, -1, BASE_DELAY_MS, MAX_DELAY_MS, JITTER_MS)
    requires Orderly(setup, start, initial, trace) && k < |trace| && trace[k].Wait?
    ensures trace[k].ms < 65000
  {
  }

  lemma RetriesStep(setup: Setup, c: Client, m: Moment)
    requires setup.maxRetries >= 0
    ensures var r := Next(setup, c, m).retries; r <= c.retries || r <= 1 || r <= setup.maxRetries
  {
  }

  /** With a limit on retries the counter stays within it, except for the one wait after a TLS client could not be
      created, which is not checked against the limit. */
  lemma {:induction false} RetriesStayWithinLimit(setup: Setup, start: nat, initial: nat, script: seq<Moment>)
    requires 0 <= initial <= setup.maxRetries
    ensures Run(setup, Started(start, initial), script).retries <=
            if setup.maxRetries == 0 then 1 else setup.maxRetries
  {
    if script != [] {
      var n := |script| - 1;
      RetriesStayWithinLimit(setup, start, initial, script[..n]);
      RetriesStep(setup, Run(setup, Started(start, initial), script[..n]), script[n]);
    }
  }
}
