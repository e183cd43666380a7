/** The log ring buffer (web_log_push and web_log_drain in main/web/web_server.c). */
module LogRing {
  import opened WireBytes

  const RING_SIZE: nat := 2048
  const CAPACITY: nat := 2047

  /** A WebSocket frame the server accepted: bytes, and where in the log they start. */
  datatype Frame = Frame(start: nat, bytes: seq<byte>)

  /** The log as an unbounded stream: everything ever accepted, how much of it is confirmed as sent, the frames
      sent since the client attached at position `origin`, and how often a second frame failed. */
  datatype Log = Log(accepted: seq<byte>, confirmed: nat, origin: nat, frames: seq<Frame>, broken: nat)

  predicate Fits(l: Log) {
    l.origin <= l.confirmed <= |l.accepted| && |l.accepted| - l.confirmed <= CAPACITY
  }

  /** Pushing appends the longest prefix that fits. */
  function Appended(l: Log, data: seq<byte>): Log
    requires Fits(l)
  {
    l.(accepted := l.accepted + data[..Min(|data|, CAPACITY - (|l.accepted| - l.confirmed))])
  }

  /** The bytes before the physical end of the ring. */
  function Room(l: Log): nat {
    RING_SIZE - l.confirmed % RING_SIZE
  }

  /** Draining: one frame, or two when the queued bytes wrap; they are confirmed only if the last one is sent. */
  function Drained(l: Log, first: bool, second: bool): Log
    requires Fits(l)
  {
    var queued := l.accepted[l.confirmed..];
    if queued == [] || !first then l
    else if |queued| < Room(l) then
      l.(confirmed := |l.accepted|, frames := l.frames + [Frame(l.confirmed, queued)])
    else
      var head := Frame(l.confirmed, queued[..Room(l)]);
      var tail := Frame(l.confirmed + Room(l), queued[Room(l)..]);
      if second then l.(confirmed := |l.accepted|, frames := l.frames + [head, tail])
      else l.(frames := l.frames + [head], broken := l.broken + 1)
  }

  /** Above 60% of the ring, a push drains at once. */
  function Pushed(l: Log, data: seq<byte>, first: bool, second: bool): Log
    requires Fits(l)
  {
    var l' := Appended(l, data);
    if |l'.accepted| - l'.confirmed > RING_SIZE * 3 / 5 then Drained(l', first, second) else l'
  }

  lemma ModShift(a: nat, k: nat)
    requires k < RING_SIZE
    ensures (a + k) % RING_SIZE ==
            if a % RING_SIZE + k < RING_SIZE then a % RING_SIZE + k else a % RING_SIZE + k - RING_SIZE
  {
  }

  // ---- the code ----

  class LogRing {
    const ring: array<byte>
    var head: nat
    var tail: nat
    var connected: bool
    ghost var log: Log

    ghost predicate Valid()
      reads this, ring
    {
      && ring.Length == RING_SIZE && Fits(log)
      && tail == log.confirmed % RING_SIZE && head == |log.accepted| % RING_SIZE
      && (forall p :: log.confirmed <= p < |log.accepted| ==> ring[p % RING_SIZE] == log.accepted[p])
    }

    constructor ()
      ensures Valid() && fresh(ring) && !connected && log == Log([], 0, 0, [], 0)
    {
      ring := new byte[RING_SIZE](_ => 0);
      head, tail, connected := 0, 0, false;
      log := Log([], 0, 0, [], 0);
    }

    /** Number of queued bytes from the two indices. */
    function Used(): nat
      reads this
      requires tail <= RING_SIZE
    {
      if head >= tail then head - tail else RING_SIZE - tail + head
    }

    lemma UsedIsQueued()
      requires Valid()
      ensures Used() == |log.accepted| - log.confirmed
    {
      ModShift(log.confirmed, |log.accepted| - log.confirmed);
    }

    lemma Slice(from: nat, count: nat)
      requires Valid() && log.confirmed <= from && from + count <= |log.accepted|
      requires from % RING_SIZE + count <= RING_SIZE
      ensures ring[from % RING_SIZE..from % RING_SIZE + count] == log.accepted[from..from + count]
    {
      var physical, logical := ring[from % RING_SIZE..from % RING_SIZE + count], log.accepted[from..from + count];
      forall i | 0 <= i < count
        ensures physical[i] == logical[i]
      {
        ModShift(from, i);
      }
    }

    lemma OnePart()
      requires Valid() && head > tail
      ensures ring[tail..head] == log.accepted[log.confirmed..] && 0 < |log.accepted| - log.confirmed < Room(log)
    {
      UsedIsQueued();
      Slice(log.confirmed, |log.accepted| - log.confirmed);
    }

    lemma TwoParts()
      requires Valid() && head < tail
      ensures var queued := log.accepted[log.confirmed..];
              var room := Room(log);
              room <= |queued| && ring[tail..] == queued[..room] && ring[..head] == queued[room..]
    {
      UsedIsQueued();
      var queued := log.accepted[log.confirmed..];
      var room := Room(log);
      Slice(log.confirmed, room);
      assert queued[..room] == log.accepted[log.confirmed..log.confirmed + room];
      assert (log.confirmed + room) % RING_SIZE == 0;
      Slice(log.confirmed + room, |queued| - room);
      assert queued[room..] == log.accepted[log.confirmed + room..];
    }

    /** web_log_drain; `first` and `second` say whether httpd_ws_send_frame_async succeeds. */
    method Drain(first: bool, second: bool)
      requires Valid()
      modifies this`tail, this`log
      ensures Valid() && log == Drained(old(log), first, second)
    {
      if tail == head {
        UsedIsQueued();
        return;
      }
      var sent := false;
      if head >= tail {
        OnePart();
        sent := first;
        if sent {
          log := log.(frames := log.frames + [Frame(log.confirmed, ring[tail..head])]);
        }
      } else {
        TwoParts();
        ghost var one := Frame(log.confirmed, ring[tail..]);
        ghost var two := Frame(log.confirmed + Room(log), ring[..head]);
        if first {
          log := log.(frames := log.frames + [one]);
          sent := second;
          if sent {
            log := log.(frames := log.frames + [two]);
            assert log.frames == old(log.frames) + [one, two];
          } else {
            log := log.(broken := log.broken + 1);
          }
        }
      }
      if sent {
        tail := head;
        log := log.(confirmed := |log.accepted|);
      }
    }

    lemma FullIff()
      requires Valid()
      ensures (head + 1) % RING_SIZE == tail <==> |log.accepted| - log.confirmed == CAPACITY
    {
      UsedIsQueued();
      ModShift(|log.accepted|, 1);
    }

    /** The slot after the last queued byte is not one of the queued bytes' slots. */
    lemma HeadIsFree()
      requires Valid() && |log.accepted| - log.confirmed < CAPACITY
      ensures forall p :: log.confirmed <= p < |log.accepted| ==> p % RING_SIZE != head
    {
      forall p | log.confirmed <= p < |log.accepted|
        ensures p % RING_SIZE != head
      {
        ModShift(p, |log.accepted| - p);
      }
    }

    /** One round of the copy loop. */
    method Put(b: byte)
      requires Valid() && (head + 1) % RING_SIZE != tail
      modifies this`head, this`log, ring
      ensures Valid() && log == old(log).(accepted := old(log).accepted + [b])
    {
      FullIff();
      HeadIsFree();
      ModShift(|log.accepted|, 1);
      ring[head] := b;
      head := (head + 1) % RING_SIZE;
      log := log.(accepted := log.accepted + [b]);
    }

    /** web_log_push */
    method Push(data: seq<byte>, first: bool, second: bool)
      requires Valid()
      modifies this, ring
      ensures Valid() && connected == old(connected)
      ensures log == if connected then Pushed(old(log), data, first, second) else old(log)
    {
      if !connected {
        return;
      }
      var i := 0;
      while i < |data| && (head + 1) % RING_SIZE != tail
        invariant 0 <= i <= |data| && Valid() && connected == old(connected)
        invariant log == old(log).(accepted := old(log).accepted + data[..i])
      {
        Put(data[i]);
        assert data[..i + 1] == data[..i] + [data[i]];
        i := i + 1;
      }
      FullIff();
      UsedIsQueued();
      assert log == Appended(old(log), data) by {
        assert i == Min(|data|, CAPACITY - (|old(log).accepted| - old(log).confirmed));
      }
      var used := Used();
      if used > RING_SIZE * 3 / 5 {
        Drain(first, second);
      }
    }

    /** log_ws_handler on a new connection: stale bytes are discarded, then the greeting is pushed. */
    method Attach(greeting: seq<byte>, first: bool, second: bool)
      requires Valid()
      modifies this, ring
      ensures Valid() && connected
      ensures var all := old(log.accepted);
              log == Pushed(Log(all, |all|, |all|, [], 0), greeting, first, second)
    {
      connected := true;
      tail := head;
      log := Log(log.accepted, |log.accepted|, |log.accepted|, [], 0);
      Push(greeting, first, second);
    }
  }

  // ---- what the WebSocket client receives ----

  /** A reader that knows each frame's position and drops what it already has. */
  function Received(frames: seq<Frame>, origin: nat): seq<byte> {
    if frames == [] then []
    else
      var before := Received(frames[..|frames| - 1], origin);
      var f := frames[|frames| - 1];
      var have := origin + |before|;
      if f.start <= have <= f.start + |f.bytes| then before + f.bytes[have - f.start..] else before
  }

  /** No frame leaves a gap before it. */
  predicate Gapless(frames: seq<Frame>, origin: nat) {
    frames == [] || (
      && Gapless(frames[..|frames| - 1], origin)
      && frames[|frames| - 1].start <= origin + |Received(frames[..|frames| - 1], origin)|)
  }

  function Total(frames: seq<Frame>): nat {
    if frames == [] then 0 else Total(frames[..|frames| - 1]) + |frames[|frames| - 1].bytes|
  }

  function Reach(l: Log): nat {
    l.origin + |Received(l.frames, l.origin)|
  }

  /** What holds of the frames after any pushes and drains. The last conjunct bounds resending. */
  ghost predicate Faithful(l: Log) {
    && Fits(l)
    && Gapless(l.frames, l.origin)
    && l.confirmed <= Reach(l) <= |l.accepted|
    && Received(l.frames, l.origin) == l.accepted[l.origin..Reach(l)]
    && Total(l.frames) + (if Reach(l) > l.confirmed then CAPACITY else 0)
       <= |Received(l.frames, l.origin)| + CAPACITY * l.broken
  }

  /** What is new in a frame continues what was received. */
  lemma Continues(accepted: seq<byte>, origin: nat, have: nat, f: Frame)
    requires origin <= f.start <= have <= f.start + |f.bytes| <= |accepted|
    requires f.bytes == accepted[f.start..f.start + |f.bytes|]
    ensures accepted[origin..have] + f.bytes[have - f.start..] == accepted[origin..f.start + |f.bytes|]
  {
  }

  lemma AddFrame(l: Log, f: Frame)
    requires Fits(l) && f.start <= Reach(l) <= |l.accepted| && l.origin <= f.start
    requires f.start + |f.bytes| <= |l.accepted| && f.bytes == l.accepted[f.start..f.start + |f.bytes|]
    requires Gapless(l.frames, l.origin) && Received(l.frames, l.origin) == l.accepted[l.origin..Reach(l)]
    ensures var l' := l.(frames := l.frames + [f]);
            && Gapless(l'.frames, l'.origin)
            && Reach(l') == (if Reach(l) <= f.start + |f.bytes| then f.start + |f.bytes| else Reach(l))
            && Received(l'.frames, l'.origin) == l.accepted[l.origin..Reach(l')]
            && Total(l'.frames) == Total(l.frames) + |f.bytes|
  {
    var frames := l.frames + [f];
    assert frames[..|frames| - 1] == l.frames;
    if Reach(l) <= f.start + |f.bytes| {
      Continues(l.accepted, l.origin, Reach(l), f);
    }
  }

  lemma AppendedFaithful(l: Log, data: seq<byte>)
    requires Faithful(l)
    ensures Faithful(Appended(l, data))
  {
    var l' := Appended(l, data);
    assert l'.accepted[l.origin..Reach(l)] == l.accepted[l.origin..Reach(l)];
  }

  lemma HeadOnlyFaithful(l: Log)
    requires Faithful(l) && Room(l) <= |l.accepted| - l.confirmed
    ensures Faithful(Drained(l, true, false))
  {
    var f := Frame(l.confirmed, l.accepted[l.confirmed..][..Room(l)]);
    assert f.bytes == l.accepted[f.start..f.start + |f.bytes|];
    AddFrame(l, f);
  }

  lemma OneFrameFaithful(l: Log)
    requires Faithful(l) && 0 < |l.accepted| - l.confirmed < Room(l)
    ensures Faithful(Drained(l, true, true))
  {
    AddFrame(l, Frame(l.confirmed, l.accepted[l.confirmed..]));
  }

  lemma SplitQueued(l: Log)
    requires Fits(l) && Room(l) <= |l.accepted| - l.confirmed
    ensures var mid := l.confirmed + Room(l);
            var head, tail := Frame(l.confirmed, l.accepted[l.confirmed..mid]), Frame(mid, l.accepted[mid..]);
            Drained(l, true, true) == l.(frames := l.frames + [head] + [tail], confirmed := |l.accepted|)
  {
    var mid := l.confirmed + Room(l);
    assert l.accepted[l.confirmed..][..Room(l)] == l.accepted[l.confirmed..mid];
    assert l.accepted[l.confirmed..][Room(l)..] == l.accepted[mid..];
  }

  lemma AllConfirmedFaithful(l: Log)
    requires Fits(l) && Gapless(l.frames, l.origin) && Reach(l) == |l.accepted|
    requires Received(l.frames, l.origin) == l.accepted[l.origin..]
    requires Total(l.frames) <= |Received(l.frames, l.origin)| + CAPACITY * l.broken
    ensures Faithful(l.(confirmed := |l.accepted|))
  {
  }

  /** Both frames of a wrapped drain reach the client, who then has everything. */
  lemma AddBoth(l: Log, head: Frame, tail: Frame)
    requires Faithful(l) && head.start == l.confirmed && tail.start == head.start + |head.bytes|
    requires tail.start <= |l.accepted| && head.bytes == l.accepted[l.confirmed..tail.start]
    requires tail.bytes == l.accepted[tail.start..]
    ensures var l' := l.(frames := l.frames + [head] + [tail]);
            && Gapless(l'.frames, l'.origin) && Reach(l') == |l.accepted|
            && Received(l'.frames, l'.origin) == l.accepted[l.origin..]
            && Total(l'.frames) == Total(l.frames) + (|l.accepted| - l.confirmed)
  {
    AddFrame(l, head);
    AddFrame(l.(frames := l.frames + [head]), tail);
  }

  lemma TwoFramesFaithful(l: Log)
    requires Faithful(l) && Room(l) <= |l.accepted| - l.confirmed
    ensures Faithful(Drained(l, true, true))
  {
    var mid := l.confirmed + Room(l);
    var head := Frame(l.confirmed, l.accepted[l.confirmed..mid]);
    var tail := Frame(mid, l.accepted[mid..]);
    AddBoth(l, head, tail);
    SplitQueued(l);
    AllConfirmedFaithful(l.(frames := l.frames + [head] + [tail]));
  }

  lemma DrainedFaithful(l: Log, first: bool, second: bool)
    requires Faithful(l)
    ensures Faithful(Drained(l, first, second))
  {
    if l.confirmed < |l.accepted| && first {
      if |l.accepted| - l.confirmed < Room(l) {
        OneFrameFaithful(l);
      } else if second {
        TwoFramesFaithful(l);
      } else {
        HeadOnlyFaithful(l);
      }
    }
  }

  datatype Op = Push(data: seq<byte>, first: bool, second: bool) | Drain(first: bool, second: bool)

  function RunLog(l: Log, ops: seq<Op>): (after: Log)
    requires Fits(l)
    ensures Fits(after)
    decreases |ops|
  {
    if ops == [] then l
    else
      RunLog(match ops[0]
        case Push(data, first, second) => Pushed(l, data, first, second)
        case Drain(first, second) => Drained(l, first, second),
        ops[1..])
  }

  lemma {:induction false} RunFaithful(l: Log, ops: seq<Op>)
    requires Faithful(l)
    ensures Faithful(RunLog(l, ops))
    decreases |ops|
  {
    if ops != [] {
      match ops[0] {
        case Push(data, first, second) =>
          AppendedFaithful(l, data);
          DrainedFaithful(Appended(l, data), first, second);
          RunFaithful(Pushed(l, data, first, second), ops[1..]);
        case Drain(first, second) =>
          DrainedFaithful(l, first, second);
          RunFaithful(Drained(l, first, second), ops[1..]);
      }
    }
  }

  /** Under any pushes and any send failures since a client attached: no accepted byte is skipped, the client has
      received exactly a prefix of the accepted bytes that includes every confirmed one, and each failed second
      frame costs at most one resent part of the ring. */
  lemma NothingSkipped(start: Log, ops: seq<Op>)
    requires start.frames == [] && start.origin == start.confirmed == |start.accepted| && start.broken == 0
    ensures var l := RunLog(start, ops);
            && Gapless(l.frames, l.origin)
            && l.confirmed <= Reach(l) <= |l.accepted|
            && Received(l.frames, l.origin) == l.accepted[l.origin..Reach(l)]
            && Total(l.frames) <= |Received(l.frames, l.origin)| + CAPACITY * l.broken
  {
    assert start.accepted[start.origin..Reach(start)] == [];
    RunFaithful(start, ops);
  }

  // ---- the ring makes progress ----

  /** A drain whose sends succeed confirms everything queued; the first send alone does while the queued bytes end
      before the ring's physical end, and otherwise nothing is confirmed unless the second succeeds too. */
  lemma DrainConfirmsIff(l: Log, first: bool, second: bool)
    requires Fits(l)
    ensures var queued := |l.accepted| - l.confirmed;
            var l' := Drained(l, first, second);
            && (queued > 0 ==> (l'.confirmed == |l.accepted| <==> first && (second || queued < Room(l))))
            && (l'.confirmed == l.confirmed || l'.confirmed == |l.accepted|)
            && l'.accepted == l.accepted
  {
  }

  /** A push accepts all of the data, or as much as fills the ring's 2047 usable bytes. */
  lemma PushAccepts(l: Log, data: seq<byte>)
    requires Fits(l)
    ensures var l' := Appended(l, data);
            && Fits(l') && l.accepted <= l'.accepted && l'.accepted[|l.accepted|..] <= data
            && (l'.accepted[|l.accepted|..] == data || |l'.accepted| - l'.confirmed == 2047)
            && l' == l.(accepted := l'.accepted)
  {
  }

  /** A push whose sends succeed never leaves more than 60 percent of the ring queued, and below that it sends
      nothing. */
  lemma PushDrains(l: Log, data: seq<byte>, first: bool, second: bool)
    requires Fits(l)
    ensures var l' := Pushed(l, data, first, second);
            var queued := |Appended(l, data).accepted| - l.confirmed;
            && (first && second ==> |l'.accepted| - l'.confirmed <= 1228)
            && (queued <= 1228 ==> l' == Appended(l, data))
            && (queued > 1228 && first && second ==> l'.confirmed == |l'.accepted|)
  {
    DrainConfirmsIff(Appended(l, data), first, second);
  }

  /** Whatever failed before: once a drain's sends succeed, the client has received every accepted byte. */
  lemma SuccessfulDrainReachesAll(start: Log, ops: seq<Op>)
    requires start.frames == [] && start.origin == start.confirmed == |start.accepted| && start.broken == 0
    ensures var l := Drained(RunLog(start, ops), true, true);
            l.confirmed == |l.accepted| == Reach(l) && Received(l.frames, l.origin) == l.accepted[l.origin..]
  {
    assert start.accepted[start.origin..Reach(start)] == [];
    RunFaithful(start, ops);
    var l := RunLog(start, ops);
    DrainConfirmsIff(l, true, true);
    DrainedFaithful(l, true, true);
  }

  // ---- what the log page shows ----

  /** The log page appends the text of every frame to what it shows already. */
  function Raw(frames: seq<Frame>): seq<byte> {
    if frames == [] then [] else Raw(frames[..|frames| - 1]) + frames[|frames| - 1].bytes
  }

  /** Nothing has been sent twice: no second frame has failed, or one has and its first frame has not been resent. */
  predicate NothingResent(l: Log) {
    l.broken == 0 || (l.broken == 1 && Reach(l) > l.confirmed)
  }

  /** What the page shows is the log so far, or longer than it. */
  ghost predicate RawSound(l: Log) {
    && Faithful(l)
    && (l.broken == 0 ==> Reach(l) == l.confirmed)
    && (if NothingResent(l) then Raw(l.frames) == l.accepted[l.origin..Reach(l)]
        else |Raw(l.frames)| > Reach(l) - l.origin)
  }

  lemma RawMore(frames: seq<Frame>, f: Frame)
    ensures Raw(frames + [f]) == Raw(frames) + f.bytes
  {
    assert (frames + [f])[..|frames|] == frames;
  }

  lemma AppendedRaw(l: Log, data: seq<byte>)
    requires RawSound(l)
    ensures RawSound(Appended(l, data))
  {
    AppendedFaithful(l, data);
    var more := Appended(l, data);
    assert more.accepted[l.origin..Reach(l)] == l.accepted[l.origin..Reach(l)];
  }

  /** A slice of the log and the one that follows it. */
  lemma Joined(log: seq<byte>, a: nat, b: nat, c: nat)
    requires a <= b <= c <= |log|
    ensures log[a..b] + log[b..c] == log[a..c]
  {
  }

  lemma OneFrameRaw(l: Log)
    requires RawSound(l) && 0 < |l.accepted| - l.confirmed < Room(l)
    ensures RawSound(Drained(l, true, true))
  {
    var f := Frame(l.confirmed, l.accepted[l.confirmed..]);
    OneFrameFaithful(l);
    AddFrame(l, f);
    RawMore(l.frames, f);
    Joined(l.accepted, l.origin, l.confirmed, |l.accepted|);
  }

  lemma HeadOnlyRaw(l: Log)
    requires RawSound(l) && Room(l) <= |l.accepted| - l.confirmed
    ensures RawSound(Drained(l, true, false))
  {
    var mid := l.confirmed + Room(l);
    var f := Frame(l.confirmed, l.accepted[l.confirmed..mid]);
    assert f.bytes == l.accepted[l.confirmed..][..Room(l)];
    HeadOnlyFaithful(l);
    AddFrame(l, f);
    RawMore(l.frames, f);
    Joined(l.accepted, l.origin, l.confirmed, mid);
  }

  lemma TwoFramesRaw(l: Log)
    requires RawSound(l) && Room(l) <= |l.accepted| - l.confirmed
    ensures RawSound(Drained(l, true, true))
  {
    var mid := l.confirmed + Room(l);
    var head := Frame(l.confirmed, l.accepted[l.confirmed..mid]);
    var tail := Frame(mid, l.accepted[mid..]);
    TwoFramesFaithful(l);
    AddBoth(l, head, tail);
    SplitQueued(l);
    RawMore(l.frames, head);
    RawMore(l.frames + [head], tail);
    Joined(l.accepted, l.origin, l.confirmed, mid);
    Joined(l.accepted, l.origin, mid, |l.accepted|);
  }

  lemma DrainedRaw(l: Log, first: bool, second: bool)
    requires RawSound(l)
    ensures RawSound(Drained(l, first, second))
  {
    if l.confirmed < |l.accepted| && first {
      if |l.accepted| - l.confirmed < Room(l) {
        OneFrameRaw(l);
      } else if second {
        TwoFramesRaw(l);
      } else {
        HeadOnlyRaw(l);
      }
    }
  }

  lemma {:induction false} RunRaw(l: Log, ops: seq<Op>)
    requires RawSound(l)
    ensures RawSound(RunLog(l, ops))
    decreases |ops|
  {
    if ops != [] {
      match ops[0] {
        case Push(data, first, second) =>
          AppendedRaw(l, data);
          DrainedRaw(Appended(l, data), first, second);
          RunRaw(Pushed(l, data, first, second), ops[1..]);
        case Drain(first, second) =>
          DrainedRaw(l, first, second);
          RunRaw(Drained(l, first, second), ops[1..]);
      }
    }
  }

  /** Under any pushes and any send failures since a client attached, the page shows exactly the log so far if and only
      if nothing has been resent; otherwise it shows some bytes twice. */
  lemma PageShowsLogIff(start: Log, ops: seq<Op>)
    requires start.frames == [] && start.origin == start.confirmed == |start.accepted| && start.broken == 0
    ensures var l := RunLog(start, ops);
            l.origin <= Reach(l) <= |l.accepted| &&
            (Raw(l.frames) == l.accepted[l.origin..Reach(l)] <==> NothingResent(l))
  {
    assert start.accepted[start.origin..Reach(start)] == [];
    RunRaw(start, ops);
  }

  /** One drain: if it completes, its frames together are exactly the queued bytes; if not, nothing is
      confirmed and at most the bytes up to the end of the ring have been sent. */
  lemma DrainSendsQueuedBytes(l: Log, first: bool, second: bool)
    requires Fits(l) && l.confirmed < |l.accepted|
    ensures var l' := Drained(l, first, second);
            var sent := l'.frames[|l.frames|..];
            && l.frames <= l'.frames
            && (l'.confirmed == |l.accepted| ==>
                  (|sent| == 1 && sent[0].bytes == l.accepted[l.confirmed..])
                  || (|sent| == 2 && sent[0].bytes + sent[1].bytes == l.accepted[l.confirmed..]))
            && (l'.confirmed != |l.accepted| ==>
                  && l'.confirmed == l.confirmed
                  && (sent == [] || (|sent| == 1 &&
                      sent[0] == Frame(l.confirmed, l.accepted[l.confirmed..l.confirmed + Room(l)]))))
  {
    var queued := l.accepted[l.confirmed..];
    if first && |queued| >= Room(l) {
      assert queued[..Room(l)] + queued[Room(l)..] == queued;
      assert queued[..Room(l)] == l.accepted[l.confirmed..l.confirmed + Room(l)];
    }
  }
}
