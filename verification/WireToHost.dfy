/** From bytes on the wire to the position the host shows: the calls of WireToActuator are the network task's calls in
    TwoTask. */
module WireToHost {
  import opened HidScaling
  import opened Commands
  import opened WireBytes
  import opened BarrierPacket
  import opened PacketReader
  import opened BarrierClient
  import opened WireToActuator
  import opened TwoTaskRequests
  import TwoTask
  import TwoTaskOrder

  /** A stretch of session: an undisturbed client, a stream of valid frames, and moments that read these frames, up to
      the first that ends the session. */
  ghost predicate Stretch(c: Client, script: seq<Moment>, io: seq<Io>, frames: seq<seq<byte>>, tail: seq<byte>,
                          keepAwake: bool)
  {
    && c.loc == InSession && c.running && (forall m <- script :: Undisturbed(m, keepAwake))
    && AllValid(frames) && Bytes(io) == Concat(frames) + tail && Calm(io, frames, 0, 0)
    && Feeds(script, io, Served(ParseAll(frames)))
  }

  /** The calls the frames stand for. */
  function CallsOf(frames: seq<seq<byte>>, keepAwake: bool): seq<Call>
    requires AllValid(frames)
  {
    CallsForAll(WelcomePart(ParseAll(frames)), keepAwake)
  }

  /** The calls made while handling packets between two points of a run. */
  function CallsSince(c: Client, d: Client): seq<Call> {
    if |HandlingCalls(c.trace)| <= |HandlingCalls(d.trace)| then HandlingCalls(d.trace)[|HandlingCalls(c.trace)|..]
    else []
  }

  lemma StretchCalls(setup: Setup, c: Client, script: seq<Moment>, io: seq<Io>, frames: seq<seq<byte>>,
                     tail: seq<byte>, keepAwake: bool)
    requires Stretch(c, script, io, frames, tail, keepAwake)
    ensures CallsSince(c, Run(setup, c, script)) == CallsOf(frames, keepAwake)
  {
    WireDeterminesCalls(setup, c, script, io, frames, tail, keepAwake);
  }

  /** The two tasks on the same screen up to a quiescent state: every step meets its guard and is prompt, and no ENTER
      waits at either end. */
  ghost predicate Carrying(start: TwoTask.State, before: seq<TwoTask.Event>, during: seq<TwoTask.Event>) {
    var s := TwoTask.Run(start, before);
    var t := TwoTask.Run(s, during);
    && TwoTask.Init(start) && TwoTask.StrongRun(before + during) && TwoTask.ScreenKept(s, during)
    && AllMeet(s, during) && TwoTaskOrder.AllPrompt(s, during)
    && TwoTaskOrder.Waiting(s) == [] && TwoTaskOrder.Waiting(t) == [] && TwoTask.Quiescent(t)
  }

  /** While the two tasks carry out the positioning calls that a stretch of session makes, ENTERs included: whatever the
      chunking of the bytes and the interleaving of the tasks, at every quiescent point the host shows the position
      that the frames lead to, if and only if the last attempt to report was not behind. */
  lemma WireDeterminesPosition(setup: Setup, c: Client, script: seq<Moment>, io: seq<Io>, frames: seq<seq<byte>>,
                               tail: seq<byte>, keepAwake: bool,
                               start: TwoTask.State, before: seq<TwoTask.Event>, during: seq<TwoTask.Event>)
    ensures Stretch(c, script, io, frames, tail, keepAwake) && Carrying(start, before, during) &&
            TwoTaskOrder.Positioning(TwoTaskOrder.CallsBegun(TwoTask.Run(start, before), during)) ==
            TwoTaskOrder.Positioning(CallsSince(c, Run(setup, c, script))) ==>
              var s := TwoTask.Run(start, before);
              var t := TwoTask.Run(s, during);
              var asked := TwoTaskOrder.Positioning(CallsOf(frames, keepAwake));
              HostAt(t, PlaceAll(Lead(s), asked, s.dev.width, s.dev.height)) <==> !TwoTask.Behind(t.dev)
  {
    if Stretch(c, script, io, frames, tail, keepAwake) && Carrying(start, before, during) {
      StretchCalls(setup, c, script, io, frames, tail, keepAwake);
      TwoTaskOrder.CalledPositionShownIff(start, before, during);
    }
  }
}
