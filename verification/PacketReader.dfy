/** Framed reads from a chunked stream (read_packet and tls_read_full in main/barrier/barrier_client.c,
    tls_client_read in main/network/tls_client.c). */
module PacketReader {
  import opened HidScaling
  import opened Commands
  import opened WireBytes
  import opened BarrierPacket

  const READ_BUF_SIZE: nat := 1024

  /** What the transport will do next. A chunk may be taken in several reads. A timeout carries what the
      reader learns next: whether its wall-clock limit has passed, and whether it was notified. */
  datatype Io = Chunk(bytes: seq<byte>) | Timeout(expired: bool, notified: bool) | Closed | Broken

  /** tls_client_read: a positive count, TLS_ERR_TIMEOUT, 0 or -1. */
  datatype ReadResult = Got(bytes: seq<byte>) | NothingYet(expired: bool, notified: bool) | End | Fault

  function ReadOnce(io: seq<Io>, want: nat): (ReadResult, seq<Io>) {
    if io == [] then (End, [])
    else match io[0]
      case Chunk(b) =>
        if b == [] then (End, io[1..])
        else if |b| <= want then (Got(b), io[1..])
        else (Got(b[..want]), [Chunk(b[want..])] + io[1..])
      case Timeout(expired, notified) => (NothingYet(expired, notified), io[1..])
      case Closed => (End, io[1..])
      case Broken => (Fault, io[1..])
  }

  /** The bytes still to come before the stream ends. */
  function Bytes(io: seq<Io>): seq<byte> {
    if io == [] then []
    else match io[0]
      case Chunk(b) => if b == [] then [] else b + Bytes(io[1..])
      case Timeout(_, _) => Bytes(io[1..])
      case _ => []
  }

  /** A termination measure: every read makes it smaller. */
  function Size(io: seq<Io>): nat {
    if io == [] then 0
    else 1 + (if io[0].Chunk? then |io[0].bytes| else 0) + Size(io[1..])
  }

  datatype Taken = Taken(status: Result<()>, bytes: seq<byte>, rest: seq<Io>)

  /** Reading exactly `n` bytes: how it ends, the bytes consumed, what is left of the stream. */
  function Take(io: seq<Io>, n: nat): (t: Taken)
    ensures t.status.Ok? ==> |t.bytes| == n
    ensures Size(t.rest) <= Size(io)
    ensures t.status == Err(TimedOut) ==> Size(t.rest) < Size(io)
    decreases Size(io)
  {
    if n == 0 then Taken(Ok(()), [], io)
    else if io == [] then Taken(Err(Failed), [], [])
    else match io[0]
      case Chunk(b) =>
        if b == [] then Taken(Err(Failed), [], io[1..])
        else if |b| <= n then
          var t := Take(io[1..], n - |b|);
          t.(bytes := b + t.bytes)
        else
          var rest := [Chunk(b[n..])] + io[1..];
          assert rest[1..] == io[1..];
          Taken(Ok(()), b[..n], rest)
      case Timeout(expired, notified) =>
        if expired then Taken(Err(TimedOut), [], io[1..])
        else if notified then Taken(Err(Failed), [], io[1..])
        else Take(io[1..], n)
      case _ => Taken(Err(Failed), [], io[1..])
  }

  /** read_packet */
  function ReadPacket(io: seq<Io>): (out: (Result<Packet>, seq<Io>))
    ensures out.0 == Err(TimedOut) ==> Size(out.1) < Size(io)
    ensures Size(out.1) <= Size(io)
  {
    var header := Take(io, 4);
    if header.status.Err? then (Err(header.status.error), header.rest)
    else
      var payload := U32At(header.bytes, 0);
      if payload > READ_BUF_SIZE - 4 || payload < 4 then (Err(InvalidSize), header.rest)
      else
        var data := Take(header.rest, payload);
        if data.status.Err? then (Err(data.status.error), data.rest)
        else (ParseAssembled(header.bytes + data.bytes), data.rest)
  }

  /** packet_parse on a complete frame and nothing else. */
  function ParseAssembled(frame: seq<byte>): (r: Result<Packet>)
    requires Framed(frame)
    ensures r != Err(TimedOut)
  {
    ParseIgnoresTail(frame, |frame|);
    Parse(frame, |frame|)
  }

  // ---- the code ----

  class TlsStream {
    var io: seq<Io>

    constructor (io: seq<Io>)
      ensures this.io == io
    {
      this.io := io;
    }

    method Read(want: nat) returns (r: ReadResult)
      requires want > 0
      modifies this
      ensures (r, io) == ReadOnce(old(io), want)
    {
      var out := ReadOnce(io, want);
      r := out.0;
      io := out.1;
    }
  }

  method CopyIn(buf: array<byte>, at: nat, bytes: seq<byte>)
    requires at + |bytes| <= buf.Length
    modifies buf
    ensures buf[at..at + |bytes|] == bytes
    ensures buf[..at] == old(buf[..at]) && buf[at + |bytes|..] == old(buf[at + |bytes|..])
  {
    forall i | 0 <= i < |bytes| {
      buf[at + i] := bytes[i];
    }
  }

  lemma Appended(s: seq<byte>, t: seq<byte>, from: nat, mid: nat, more: nat, to: nat)
    requires from <= mid <= more <= to <= |s| == |t| && s[..mid] == t[..mid] && s[more..] == t[more..]
    ensures t[from..more] == s[from..mid] + t[mid..more]
    ensures t[..from] == s[..from] && t[to..] == s[to..]
  {
  }

  /** One read of the loop below: how it ends, the bytes it yields, what is left of the stream. */
  function OneRead(io: seq<Io>, n: nat): Taken {
    var (r, rest) := ReadOnce(io, n);
    match r
    case Got(bytes) => Taken(Ok(()), bytes, rest)
    case NothingYet(expired, notified) =>
      Taken(if expired then Err(TimedOut) else if notified then Err(Failed) else Ok(()), [], rest)
    case _ => Taken(Err(Failed), [], rest)
  }

  lemma OneReadOfTake(io: seq<Io>, n: nat, one: Taken)
    requires n > 0 && one == OneRead(io, n)
    ensures |one.bytes| <= n
    ensures one.status.Err? ==> Take(io, n) == one && one.bytes == []
    ensures one.status.Ok? ==> Size(one.rest) < Size(io)
    ensures one.status.Ok? ==> var left := Take(one.rest, n - |one.bytes|);
                               Take(io, n) == Taken(left.status, one.bytes + left.bytes, left.rest)
  {
  }

  /** One read of the loop below, into `buf` from `offset` on. */
  method ReadSome(stream: TlsStream, buf: array<byte>, offset: nat, to: nat) returns (status: Result<()>, next: nat)
    requires offset < to <= buf.Length
    modifies stream, buf
    ensures offset <= next <= to
    ensures Taken(status, buf[offset..next], stream.io) == OneRead(old(stream.io), to - offset)
    ensures buf[..offset] == old(buf[..offset]) && buf[next..] == old(buf[next..])
  {
    OneReadOfTake(stream.io, to - offset, OneRead(stream.io, to - offset));
    next := offset;
    var n := stream.Read(to - offset);
    if n.Got? {
      CopyIn(buf, offset, n.bytes);
      next := offset + |n.bytes|;
    } else if n.NothingYet? {
      if n.expired {
        return Err(TimedOut), offset;
      }
      if n.notified {
        return Err(Failed), offset;
      }
    } else {
      return Err(Failed), offset;
    }
    status := Ok(());
  }

  /** Bytes got, and what is left to take, make up the whole. */
  ghost predicate MakesUp(whole: Taken, got: seq<byte>, left: Taken) {
    whole == Taken(left.status, got + left.bytes, left.rest)
  }

  lemma MakesUpFurther(whole: Taken, got: seq<byte>, left: Taken, more: seq<byte>, next: Taken)
    requires MakesUp(whole, got, left) && MakesUp(left, more, next)
    ensures MakesUp(whole, got + more, next)
  {
    Regroup(got, more, next.bytes);
  }

  /** The read loop that occurs three times in the source, in tls_read_full and twice in read_packet. */
  method ReadFull(stream: TlsStream, buf: array<byte>, from: nat, to: nat) returns (status: Result<()>)
    requires from <= to <= buf.Length
    modifies stream, buf
    ensures status == Take(old(stream.io), to - from).status
    ensures stream.io == Take(old(stream.io), to - from).rest
    ensures status.Ok? ==> buf[from..to] == Take(old(stream.io), to - from).bytes
    ensures buf[..from] == old(buf[..from]) && buf[to..] == old(buf[to..])
  {
    var offset := from;
    ghost var whole := Take(stream.io, to - from);
    ghost var left := whole;
    while offset < to
      invariant from <= offset <= to
      invariant left == Take(stream.io, to - offset)
      invariant MakesUp(whole, buf[from..offset], left)
      invariant buf[..from] == old(buf[..from]) && buf[to..] == old(buf[to..])
      decreases Size(stream.io)
    {
      ghost var was, at, io := buf[..], offset, stream.io;
      OneReadOfTake(io, to - at, OneRead(io, to - at));
      status, offset := ReadSome(stream, buf, offset, to);
      Appended(was, buf[..], from, at, offset, to);
      if status.Err? {
        return;
      }
      ghost var next := Take(stream.io, to - offset);
      MakesUpFurther(whole, was[from..at], left, buf[at..offset], next);
      left := next;
    }
    status := Ok(());
  }

  /** The second half of read_packet: the payload is read behind the header and both are parsed. */
  method ReadPayload(stream: TlsStream, readBuf: array<byte>, header: seq<byte>) returns (r: Result<Packet>)
    requires readBuf.Length == READ_BUF_SIZE && |header| == 4 && 4 <= U32At(header, 0) <= READ_BUF_SIZE - 4
    modifies stream, readBuf
    ensures var data := Take(old(stream.io), U32At(header, 0));
            && stream.io == data.rest
            && (data.status.Err? ==> r == Err(data.status.error))
            && (data.status.Ok? ==>
                  U32At(header + data.bytes, 0) == U32At(header, 0) && r == ParseAssembled(header + data.bytes))
  {
    CopyIn(readBuf, 0, header);
    assert readBuf[..4] == header;
    var total := 4 + U32At(header, 0);
    var status := ReadFull(stream, readBuf, 4, total);
    if status.Err? {
      return Err(status.error);
    }
    ghost var frame := header + readBuf[4..total];
    assert readBuf[..][..total] == frame by {
      assert readBuf[..total] == readBuf[..4] + readBuf[4..total];
    }
    assert U32At(frame, 0) == U32At(header, 0);
    ParseIgnoresTail(readBuf[..], total);
    ParseIgnoresTail(frame, total);
    r := Parse(readBuf[..], total);
  }

  /** read_packet: the result and the state of the stream are those of the specification, so in particular
      packet_parse only ever depends on the bytes assembled for this frame. */
  method ReadPacketInto(stream: TlsStream, readBuf: array<byte>) returns (r: Result<Packet>)
    requires readBuf.Length == READ_BUF_SIZE
    modifies stream, readBuf
    ensures (r, stream.io) == ReadPacket(old(stream.io))
  {
    var header := new byte[4];
    var status := ReadFull(stream, header, 0, 4);
    if status.Err? {
      return Err(status.error);
    }
    assert header[..] == header[0..4];
    var payload := U32At(header[..], 0);
    if payload > READ_BUF_SIZE - 4 {
      return Err(InvalidSize);
    }
    if payload < 4 {
      return Err(InvalidSize);
    }
    r := ReadPayload(stream, readBuf, header[..]);
  }

  // ---- what a read comes to ----

  /** The bytes that arrive before reading is interrupted. */
  function Available(io: seq<Io>): seq<byte> {
    if io == [] then []
    else match io[0]
      case Chunk(b) => if b == [] then [] else b + Available(io[1..])
      case Timeout(expired, notified) => if expired || notified then [] else Available(io[1..])
      case _ => []
  }

  /** What interrupts it: the limit, or anything else, be it a notification, the end of the stream or a fault. */
  function Interruption(io: seq<Io>): (e: Error)
    ensures e == TimedOut || e == Failed
  {
    if io == [] then Failed
    else match io[0]
      case Chunk(b) => if b == [] then Failed else Interruption(io[1..])
      case Timeout(expired, notified) =>
        if expired then TimedOut else if notified then Failed else Interruption(io[1..])
      case _ => Failed
  }

  lemma {:induction false} TakeDecides(io: seq<Io>, n: nat)
    ensures var t := Take(io, n);
            && t.status == (if |Available(io)| >= n then Ok(()) else Err(Interruption(io)))
            && t.bytes == (if |Available(io)| >= n then Available(io)[..n] else Available(io))
            && (t.status.Ok? ==> Available(t.rest) == Available(io)[n..] && Interruption(t.rest) == Interruption(io))
    decreases Size(io)
  {
    if n > 0 && io != [] {
      match io[0] {
        case Chunk(b) =>
          if b != [] && |b| <= n {
            TakeDecides(io[1..], n - |b|);
          } else if b != [] {
            var rest := [Chunk(b[n..])] + io[1..];
            assert rest[1..] == io[1..];
            assert Available(rest) == b[n..] + Available(io[1..]) == Available(io)[n..];
          }
        case Timeout(expired, notified) =>
          if !expired && !notified {
            TakeDecides(io[1..], n);
          }
        case _ =>
      }
    }
  }

  /** read_packet, decided by the bytes that arrive before reading is interrupted: a complete frame is parsed, a length
      outside 4..1020 is refused, and otherwise the interruption is what is returned. */
  lemma ReadPacketDecides(io: seq<Io>)
    ensures var got, r := Available(io), ReadPacket(io).0;
            if |got| < 4 then r == Err(Interruption(io))
            else if U32At(got, 0) < 4 || U32At(got, 0) > 1020 then r == Err(InvalidSize)
            else if |got| < 4 + U32At(got, 0) then r == Err(Interruption(io))
            else Framed(got[..4 + U32At(got, 0)]) && r == ParseAssembled(got[..4 + U32At(got, 0)])
  {
    var got := Available(io);
    TakeDecides(io, 4);
    if |got| >= 4 {
      var header := Take(io, 4);
      assert header.bytes == got[..4] && U32At(header.bytes, 0) == U32At(got, 0);
      PayloadDecides(header.bytes, header.rest, U32At(got, 0));
      assert got == header.bytes + Available(header.rest);
    }
  }

  lemma PayloadDecides(header: seq<byte>, io: seq<Io>, n: nat)
    requires |header| == 4 && U32At(header, 0) == n
    ensures var got, data := header + Available(io), Take(io, n);
            && data.status == (if |got| < 4 + n then Err(Interruption(io)) else Ok(()))
            && (data.status.Ok? ==> header + data.bytes == got[..4 + n] && (n >= 4 ==> Framed(got[..4 + n])))
  {
    TakeDecides(io, n);
    if |Available(io)| >= n {
      var f := (header + Available(io))[..4 + n];
      assert header + Available(io)[..n] == f;
      assert f[..4] == header && U32At(f, 0) == n;
    }
  }

  // ---- independence from chunking ----

  /** A frame read_packet accepts: payload of 4..1020 bytes, announced as such. */
  predicate ValidFrame(f: seq<byte>) {
    Framed(f) && |f| <= 1024
  }

  predicate AllValid(frames: seq<seq<byte>>) {
    forall i :: 0 <= i < |frames| ==> ValidFrame(frames[i])
  }

  function Concat(frames: seq<seq<byte>>): seq<byte> {
    if frames == [] then [] else frames[0] + Concat(frames[1..])
  }

  /** The offsets at which a frame begins. */
  ghost predicate Starts(frames: seq<seq<byte>>, at: nat, offset: nat) {
    frames != [] && (offset == at || Starts(frames[1..], at + |frames[0]|, offset))
  }

  /** From stream offset `offset` to the end of the frames, the limit only expires where a frame begins, and
      nothing interrupts. Timeouts that do not expire may occur anywhere. */
  ghost predicate Calm(io: seq<Io>, frames: seq<seq<byte>>, at: nat, offset: nat) {
    io == [] || offset >= at + |Concat(frames)| ||
    match io[0]
    case Chunk(b) => b != [] && Calm(io[1..], frames, at, offset + |b|)
    case Timeout(expired, notified) =>
      !notified && (expired ==> Starts(frames, at, offset)) && Calm(io[1..], frames, at, offset)
    case _ => true
  }

  lemma {:induction false} StartsLater(frames: seq<seq<byte>>, at: nat, offset: nat)
    requires Starts(frames, at, offset)
    ensures offset >= at
    decreases |frames|
  {
    if offset != at {
      StartsLater(frames[1..], at + |frames[0]|, offset);
    }
  }

  /** Inside a frame nothing starts. */
  lemma NoStartInside(frames: seq<seq<byte>>, at: nat, offset: nat)
    requires frames != [] && at < offset < at + |frames[0]|
    ensures !Starts(frames, at, offset)
  {
    if Starts(frames[1..], at + |frames[0]|, offset) {
      StartsLater(frames[1..], at + |frames[0]|, offset);
    }
  }

  lemma {:induction false} CalmAfterFrame(io: seq<Io>, frames: seq<seq<byte>>, at: nat, offset: nat)
    requires Calm(io, frames, at, offset) && frames != [] && offset >= at + |frames[0]| && |frames[0]| > 0
    ensures Calm(io, frames[1..], at + |frames[0]|, offset)
    decreases |io|
  {
    if io == [] || offset >= at + |Concat(frames)| {
    } else if io[0].Chunk? {
      CalmAfterFrame(io[1..], frames, at, offset + |io[0].bytes|);
    } else if io[0].Timeout? {
      CalmAfterFrame(io[1..], frames, at, offset);
    }
  }

  lemma PartOfChunk(b: seq<byte>, more: seq<Io>, n: nat)
    requires n < |b|
    ensures ([Chunk(b[n..])] + more)[1..] == more
    ensures Bytes([Chunk(b)] + more) == b[..n] + Bytes([Chunk(b[n..])] + more)
  {
  }

  lemma Regroup(a: seq<byte>, b: seq<byte>, c: seq<byte>)
    ensures a + (b + c) == (a + b) + c
  {
  }

  /** Reading `n` bytes within the current frame either yields the next `n` bytes of the stream, however they are
      chunked, or, only where the frame begins, times out having consumed nothing. */
  lemma {:induction false} TakeIsChunkingFree(io: seq<Io>, n: nat, frames: seq<seq<byte>>, at: nat, offset: nat)
    requires Calm(io, frames, at, offset) && frames != [] && at <= offset && offset + n <= at + |frames[0]|
    requires n <= |Bytes(io)|
    ensures var t := Take(io, n);
            && Calm(t.rest, frames, at, offset + |t.bytes|)
            && Bytes(io) == t.bytes + Bytes(t.rest)
            && (t.status == Ok(()) || (t.status == Err(TimedOut) && t.bytes == [] && offset == at && n > 0))
    decreases Size(io)
  {
    if n > 0 {
      match io[0] {
        case Chunk(b) =>
          if |b| <= n {
            TakeIsChunkingFree(io[1..], n - |b|, frames, at, offset + |b|);
            Regroup(b, Take(io[1..], n - |b|).bytes, Bytes(Take(io[1..], n - |b|).rest));
          } else {
            PartOfChunk(b, io[1..], n);
          }
        case Timeout(expired, _) =>
          if expired {
            if offset != at {
              NoStartInside(frames, at, offset);
            }
          } else {
            TakeIsChunkingFree(io[1..], n, frames, at, offset);
          }
        case _ =>
      }
    }
  }

  /** The payload half of ReadPacketAtFrame: inside a frame nothing can time out. */
  lemma PayloadAtFrame(io: seq<Io>, frames: seq<seq<byte>>, at: nat)
    requires frames != [] && ValidFrame(frames[0]) && frames[0][4..] <= Bytes(io) && Calm(io, frames, at, at + 4)
    ensures var t := Take(io, |frames[0]| - 4);
            && t.status == Ok(()) && t.bytes == frames[0][4..] && Bytes(io) == t.bytes + Bytes(t.rest)
            && Calm(t.rest, frames[1..], at + |frames[0]|, at + |frames[0]|)
  {
    var n := |frames[0]| - 4;
    TakeIsChunkingFree(io, n, frames, at, at + 4);
    var t := Take(io, n);
    assert t.bytes == Bytes(io)[..n] == frames[0][4..];
    CalmAfterFrame(t.rest, frames, at, at + |frames[0]|);
  }

  /** What read_packet makes of both halves of a frame. */
  lemma BothHalves(io: seq<Io>, f: seq<byte>)
    requires ValidFrame(f) && Take(io, 4).status.Ok? && U32At(Take(io, 4).bytes, 0) == |f| - 4
    requires var data := Take(Take(io, 4).rest, |f| - 4); data.status.Ok? && Take(io, 4).bytes + data.bytes == f
    ensures ReadPacket(io) == (ParseAssembled(f), Take(Take(io, 4).rest, |f| - 4).rest)
  {
  }

  /** One call of read_packet at a frame's beginning: the frame's parse, with the stream at the next frame's
      beginning; or a timeout, with the stream where it was. */
  lemma ReadPacketAtFrame(io: seq<Io>, frames: seq<seq<byte>>, at: nat)
    requires frames != [] && ValidFrame(frames[0]) && frames[0] <= Bytes(io) && Calm(io, frames, at, at)
    ensures var (r, rest) := ReadPacket(io);
            || (r == Err(TimedOut) && Bytes(rest) == Bytes(io) && Calm(rest, frames, at, at))
            || (r == ParseAssembled(frames[0]) && Bytes(io) == frames[0] + Bytes(rest)
                && Calm(rest, frames[1..], at + |frames[0]|, at + |frames[0]|))
  {
    var f := frames[0];
    var header := Take(io, 4);
    TakeIsChunkingFree(io, 4, frames, at, at);
    if header.status.Ok? {
      assert header.bytes == Bytes(io)[..4] == f[..4];
      AfterHeader(header.bytes, header.rest, frames, at);
      BothHalves(io, f);
    }
  }

  lemma AfterHeader(header: seq<byte>, rest: seq<Io>, frames: seq<seq<byte>>, at: nat)
    requires frames != [] && ValidFrame(frames[0]) && header == frames[0][..4]
    requires frames[0] <= header + Bytes(rest) && Calm(rest, frames, at, at + 4)
    ensures U32At(header, 0) == |frames[0]| - 4
    ensures var t := Take(rest, |frames[0]| - 4);
            && t.status == Ok(()) && header + t.bytes == frames[0]
            && header + Bytes(rest) == frames[0] + Bytes(t.rest)
            && Calm(t.rest, frames[1..], at + |frames[0]|, at + |frames[0]|)
  {
    var f := frames[0];
    WithoutHeader(f, header, Bytes(rest));
    PayloadAtFrame(rest, frames, at);
    Regroup(header, f[4..], Bytes(Take(rest, |f| - 4).rest));
  }

  lemma WithoutHeader(f: seq<byte>, header: seq<byte>, more: seq<byte>)
    requires |f| >= 4 && header == f[..4] && f <= header + more
    ensures f[4..] <= more && header + f[4..] == f && U32At(header, 0) == U32At(f, 0)
  {
  }

  /** read_packet called over and over until it has produced `k` results other than a timeout. */
  function ReadMany(io: seq<Io>, k: nat): (seq<Result<Packet>>, seq<Io>)
    decreases k, Size(io)
  {
    if k == 0 then ([], io)
    else
      var (r, rest) := ReadPacket(io);
      if r == Err(TimedOut) then ReadMany(rest, k)
      else
        var (rs, end) := ReadMany(rest, k - 1);
        ([r] + rs, end)
  }

  function ParseAll(frames: seq<seq<byte>>): (rs: seq<Result<Packet>>)
    requires AllValid(frames)
    ensures |rs| == |frames|
  {
    if frames == [] then []
    else [ParseAssembled(frames[0])] + ParseAll(frames[1..])
  }

  lemma {:induction false} ReadManyAtFrames(io: seq<Io>, frames: seq<seq<byte>>, at: nat, tail: seq<byte>)
    requires AllValid(frames) && Bytes(io) == Concat(frames) + tail && Calm(io, frames, at, at)
    ensures var (rs, rest) := ReadMany(io, |frames|); rs == ParseAll(frames) && Bytes(rest) == tail
    decreases |frames|, Size(io)
  {
    if frames == [] {
      assert [] + tail == tail;
    } else {
      var f := frames[0];
      assert Bytes(io) == f + (Concat(frames[1..]) + tail);
      ReadPacketAtFrame(io, frames, at);
      var (r, rest) := ReadPacket(io);
      if r == Err(TimedOut) {
        ReadManyAtFrames(rest, frames, at, tail);
      } else {
        assert Bytes(rest) == Bytes(io)[|f|..] == Concat(frames[1..]) + tail;
        ReadManyAtFrames(rest, frames[1..], at + |f|, tail);
      }
    }
  }

  /** Independence from chunking: however the bytes of a list of valid frames are split into reads, and with
      limits expiring only where a frame begins, repeated read_packet returns exactly the parses of those frames
      in order and leaves the stream right behind them. */
  lemma ChunkingIndependence(io: seq<Io>, frames: seq<seq<byte>>, tail: seq<byte>)
    requires AllValid(frames) && Bytes(io) == Concat(frames) + tail && Calm(io, frames, 0, 0)
    ensures var (rs, rest) := ReadMany(io, |frames|); rs == ParseAll(frames) && Bytes(rest) == tail
  {
    ReadManyAtFrames(io, frames, 0, tail);
  }

  /** What a timed-out or otherwise failed read has consumed is gone. */
  lemma {:induction false} TakeConsumes(io: seq<Io>, n: nat)
    ensures var t := Take(io, n);
            t.status.Ok? || t.status == Err(TimedOut) ==> Bytes(io) == t.bytes + Bytes(t.rest)
    decreases Size(io)
  {
    if n > 0 && io != [] {
      match io[0] {
        case Chunk(b) =>
          if |b| <= n && b != [] {
            TakeConsumes(io[1..], n - |b|);
            var t := Take(io[1..], n - |b|);
            assert b + (t.bytes + Bytes(t.rest)) == (b + t.bytes) + Bytes(t.rest);
          } else if b != [] {
            var rest := [Chunk(b[n..])] + io[1..];
            assert rest[1..] == io[1..];
            assert Bytes(io) == b[..n] + (b[n..] + Bytes(io[1..]));
          }
        case Timeout(expired, notified) =>
          if !expired && !notified {
            TakeConsumes(io[1..], n);
          }
        case _ =>
      }
    }
  }

  /** The limit expires before any byte arrives. */
  predicate ExpiresFirst(io: seq<Io>) {
    io != [] && io[0].Timeout? && (io[0].expired || (!io[0].notified && ExpiresFirst(io[1..])))
  }

  lemma {:induction false} ConsumesNothingIff(io: seq<Io>, n: nat)
    requires Take(io, n).status == Err(TimedOut)
    ensures Take(io, n).bytes == [] <==> ExpiresFirst(io)
    decreases |io|
  {
    if io[0].Timeout? && !io[0].expired {
      ConsumesNothingIff(io[1..], n);
    }
  }

  /** A read_packet that times out leaves the stream intact if and only if the limit expired before the first
      byte of the frame; otherwise the bytes already consumed are lost and framing is broken. */
  lemma TimeoutKeepsStreamIff(io: seq<Io>)
    requires ReadPacket(io).0 == Err(TimedOut)
    ensures Bytes(ReadPacket(io).1) == Bytes(io) <==> ExpiresFirst(io)
  {
    var header := Take(io, 4);
    TakeConsumes(io, 4);
    if header.status.Err? {
      ConsumesNothingIff(io, 4);
      assert |Bytes(io)| == |header.bytes| + |Bytes(header.rest)|;
    } else {
      var data := Take(header.rest, U32At(header.bytes, 0));
      TakeConsumes(header.rest, U32At(header.bytes, 0));
      assert |Bytes(io)| == 4 + |data.bytes| + |Bytes(data.rest)|;
      if ExpiresFirst(io) {
        ExpiresFirstStops(io, 4);
      }
    }
  }

  lemma {:induction false} ExpiresFirstStops(io: seq<Io>, n: nat)
    requires ExpiresFirst(io) && n > 0
    ensures Take(io, n).status == Err(TimedOut)
    decreases |io|
  {
    if !io[0].expired {
      ExpiresFirstStops(io[1..], n);
    }
  }
}
