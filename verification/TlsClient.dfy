/** Writing to the TLS connection (tls_client_write in main/network/tls_client.c, send_packet in
    main/barrier/barrier_client.c). */
module TlsClient {
  import opened WireBytes
  import opened BarrierPacket

  const MAX_RETRIES: nat := 30
  const WRITE_BUF_SIZE: nat := 1024

  type pos = n: nat | n > 0 witness 1

  /** How esp_tls_conn_write answers: it takes up to `n` bytes, or finds the peer closed, or times out, or fails. */
  datatype WriteEvent = Wrote(n: pos) | PeerClosed | WriteTimeout | WriteError

  /** The answers in call order: any sequence at all. */
  type Transport = nat -> WriteEvent

  /** Thirty timeouts in a row from answer `i`: no progress in between. */
  ghost predicate Stalled(transport: Transport, i: nat) {
    forall j :: i <= j < i + 30 ==> transport(j).WriteTimeout?
  }

  ghost predicate StalledBefore(transport: Transport, steps: nat) {
    exists i: nat :: i + 30 <= steps && Stalled(transport, i)
  }

  /** What the first `steps` answers take, from a buffer without end. */
  ghost function Accepted(transport: Transport, steps: nat): nat {
    if steps == 0 then 0
    else Accepted(transport, steps - 1) + (if transport(steps - 1).Wrote? then transport(steps - 1).n else 0)
  }

  /** An answer after which there is no going on. */
  ghost predicate Final(answer: WriteEvent) {
    answer.PeerClosed? || answer.WriteError?
  }

  class TlsClient {
    var connected: bool
    var hasTls: bool
    ghost var delivered: seq<byte>

    ghost predicate Open()
      reads this
    {
      connected && hasTls
    }

    /** tls_client_write. `taken` bytes reach the transport in `steps` calls: always a prefix of the buffer;
        the whole buffer exactly when its length is returned and exactly when the connection stays up;
        and the result is -1 on an open connection exactly when thirty timeouts followed one another. It goes on as long
        as something is left, the connection neither closed nor failed, and no thirty timeouts in a row. */
    method Write(buf: seq<byte>, transport: Transport) returns (sent: int, ghost taken: nat, ghost steps: nat)
      modifies this
      ensures taken <= |buf| && delivered == old(delivered) + buf[..taken]
      ensures !old(Open()) ==> sent == -1 && taken == 0 && connected == old(connected) && hasTls == old(hasTls)
      ensures old(Open()) ==>
                && (sent == -1 || sent == taken)
                && (sent == |buf| <==> taken == |buf|)
                && (connected <==> taken == |buf|)
                && (hasTls <==> taken == |buf| || (steps > 0 && transport(steps - 1).PeerClosed?))
                && (sent == -1 <==> StalledBefore(transport, steps))
                && taken == Min(|buf|, Accepted(transport, steps))
                && (taken < |buf| ==> steps > 0 && (Final(transport(steps - 1)) || StalledBefore(transport, steps)))
                && (steps > 0 ==> Accepted(transport, steps - 1) < |buf|)
                && (forall j: nat :: j + 1 < steps ==> !Final(transport(j)))
    {
      taken, steps := 0, 0;
      if !connected || !hasTls {
        return -1, taken, steps;
      }
      var offset := 0;
      var retries, call := 0, 0;
      while offset < |buf|
        invariant connected && hasTls && call == steps
        invariant taken == offset <= |buf| && delivered == old(delivered) + buf[..offset]
        invariant taken == Min(|buf|, Accepted(transport, steps))
        invariant steps > 0 ==> Accepted(transport, steps - 1) < |buf|
        invariant forall j: nat :: j < steps ==> !Final(transport(j))
        invariant retries <= steps && retries < MAX_RETRIES
        invariant forall j :: steps - retries <= j < steps ==> transport(j).WriteTimeout?
        invariant steps > retries ==> !transport(steps - retries - 1).WriteTimeout?
        invariant !StalledBefore(transport, steps)
        decreases |buf| - offset, MAX_RETRIES - retries
      {
        var answer := transport(call);
        ghost var quiet := steps;
        call, steps := call + 1, steps + 1;
        if answer.Wrote? {
          var n := if answer.n <= |buf| - offset then answer.n else |buf| - offset;
          delivered := delivered + buf[offset..offset + n];
          assert buf[..offset + n] == buf[..offset] + buf[offset..offset + n];
          offset := offset + n;
          taken := offset;
          retries := 0;
          StillNotStalled(transport, quiet);
        } else if answer.PeerClosed? {
          StillNotStalled(transport, quiet);
          connected := false;
          return offset, taken, steps;
        } else if answer.WriteTimeout? {
          retries := retries + 1;
          if retries >= MAX_RETRIES {
            assert Stalled(transport, steps - MAX_RETRIES);
            hasTls, connected := false, false;
            return -1, taken, steps;
          }
          NotYetStalled(transport, quiet, retries - 1);
        } else {
          StillNotStalled(transport, quiet);
          hasTls, connected := false, false;
          return offset, taken, steps;
        }
      }
      sent := |buf|;
    }
  }

  /** An answer other than a timeout completes no stall. */
  lemma StillNotStalled(transport: Transport, steps: nat)
    requires !StalledBefore(transport, steps) && !transport(steps).WriteTimeout?
    ensures !StalledBefore(transport, steps + 1)
  {
  }

  /** Nor does a timeout that makes fewer than thirty in a row. */
  lemma NotYetStalled(transport: Transport, steps: nat, retries: nat)
    requires !StalledBefore(transport, steps) && retries <= steps && retries + 1 < MAX_RETRIES
    requires steps > retries ==> !transport(steps - retries - 1).WriteTimeout?
    ensures !StalledBefore(transport, steps + 1)
  {
  }

  /** send_packet. Success only means that the write did not stall: the frame has been delivered in full
      if and only if the connection is still up afterwards. */
  method SendPacket(client: TlsClient, p: Packet, writeBuf: array<byte>, transport: Transport)
    returns (r: Result<()>, ghost taken: nat, ghost steps: nat)
    requires WellFormed(p) && writeBuf.Length == WRITE_BUF_SIZE
    modifies client, writeBuf
    ensures var frame := Written(p, old(writeBuf[..]))[..FrameLen(p)];
            && taken <= |frame| && client.delivered == old(client.delivered) + frame[..taken]
            && (old(client.Open()) ==>
                  && (taken == |frame| <==> client.connected) && taken == Min(|frame|, Accepted(transport, steps))
                  && (taken < |frame| ==>
                        steps > 0 && (Final(transport(steps - 1)) || StalledBefore(transport, steps))))
    ensures r == Ok(()) || r == Err(Failed)
    ensures r.Err? <==> !old(client.Open()) || StalledBefore(transport, steps)
  {
    var length := PacketSerialize(p, writeBuf, WRITE_BUF_SIZE);
    var sent;
    assert writeBuf[..length.value] == Written(p, old(writeBuf[..]))[..FrameLen(p)];
    sent, taken, steps := client.Write(writeBuf[..length.value], transport);
    if sent < 0 {
      return Err(Failed), taken, steps;
    }
    r := Ok(());
  }
}
