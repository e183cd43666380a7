/** What the bytes of a frame stand for, read off the wire without the packet codec (main/barrier/barrier_packet.c,
    main/barrier/barrier_client.c). */
module WireMeanings {
  import opened HidScaling
  import opened Commands
  import opened WireBytes
  import opened BarrierPacket
  import opened PacketReader
  import opened BarrierClient
  import opened WireToActuator

  /** The frame is of this kind: its code stands behind the length. */
  predicate Says(f: seq<byte>, code: string)
    requires |f| >= 8 && |code| == 4
  {
    && f[4] == code[0] as int && f[5] == code[1] as int && f[6] == code[2] as int && f[7] == code[3] as int
  }

  /** The big-endian number at position `i`, unsigned and as a two's complement. */
  function Word(f: seq<byte>, i: nat): u16
    requires i + 1 < |f|
  {
    (f[i] as int) * 256 + f[i + 1]
  }

  function Offset(f: seq<byte>, i: nat): i16
    requires i + 1 < |f|
  {
    if f[i] < 128 then Word(f, i) else Word(f, i) - 65536
  }

  function Small(f: seq<byte>, i: nat): i8
    requires i < |f|
  {
    if f[i] < 128 then f[i] else (f[i] as int) - 256
  }

  /** How long a frame must at least be, by its code. */
  function LeastLength(f: seq<byte>): nat
    requires |f| >= 8
  {
    if Says(f, "DINF") then 22
    else if Says(f, "CINN") then 18
    else if Says(f, "DKRP") then 16
    else if Says(f, "DKDN") || Says(f, "DKUP") then 14
    else if Says(f, "CCLP") || Says(f, "DCLP") then 13
    else if Says(f, "DMMV") || Says(f, "DMRM") || Says(f, "DMWM") || Says(f, "EICV") then 12
    else if Says(f, "DMDN") || Says(f, "DMUP") then 9
    else 8
  }

  predicate LongEnough(f: seq<byte>) {
    |f| >= 8 && |f| >= LeastLength(f)
  }

  /** The call of a key, a button, or a movement of pointer or cursor. */
  function Meaning(f: seq<byte>, keepAwake: bool): seq<Call>
    requires LongEnough(f)
  {
    if Says(f, "DKDN") then [Queue(KeyDown(Word(f, 8), Word(f, 10) as bv16))]
    else if Says(f, "DKUP") then [Queue(KeyUp(Word(f, 8), Word(f, 10) as bv16))]
    else if Says(f, "DKRP") then [Queue(KeyRepeat)]
    else if Says(f, "DMDN") then [Queue(MouseDown(Small(f, 8)))]
    else if Says(f, "DMUP") then [Queue(MouseUp(Small(f, 8)))]
    else if Says(f, "DMWM") then [Queue(MouseWheel(Offset(f, 8), Offset(f, 10)))]
    else if Says(f, "DMMV") then [SetMovement(Word(f, 8), Word(f, 10))]
    else if Says(f, "DMRM") then [MoveRelative(Offset(f, 8), Offset(f, 10))]
    else if Says(f, "CINN") then [Queue(Enter(Word(f, 8), Word(f, 10), Word(f, 16) as bv16))]
    else if Says(f, "COUT") then [Queue(Leave)]
    else if Says(f, "CALV") && keepAwake then [Queue(Jiggle)]
    else []
  }

  /** The server signs off. */
  predicate SaysGoodbye(f: seq<byte>)
    requires |f| >= 8
  {
    Says(f, "CBYE") || Says(f, "EUNK") || Says(f, "EBSY") || Says(f, "EBAD") || Says(f, "EICV")
  }

  /** The frame neither is too short nor signs off. */
  predicate GoesOn(f: seq<byte>) {
    LongEnough(f) && !SaysGoodbye(f)
  }

  /** The frames before the first that ends the session. */
  function Leading(frames: seq<seq<byte>>): seq<seq<byte>> {
    if frames == [] || !GoesOn(frames[0]) then [] else [frames[0]] + Leading(frames[1..])
  }

  function Meanings(frames: seq<seq<byte>>, keepAwake: bool): seq<Call>
    requires forall f <- frames :: LongEnough(f)
  {
    if frames == [] then [] else Meaning(frames[0], keepAwake) + Meanings(frames[1..], keepAwake)
  }

  function Long(f: seq<byte>, i: nat): u32
    requires i + 3 < |f|
  {
    ((f[i] as int * 256 + f[i + 1]) * 256 + f[i + 2]) * 256 + f[i + 3]
  }

  /** The fields of a frame that carries some, where they stand. */
  function Content(f: seq<byte>): Packet
    requires LongEnough(f) && LeastLength(f) > 8
  {
    if Says(f, "DINF") then DeviceInfo(Word(f, 8), Word(f, 10), Word(f, 12), Word(f, 14), Word(f, 16), Word(f, 18),
                                       Word(f, 20))
    else if Says(f, "CINN") then CursorEnter(Word(f, 8), Word(f, 10), Long(f, 12), Word(f, 16))
    else if Says(f, "DKRP") then KeyAgain(Word(f, 8), Word(f, 10), Word(f, 12), Word(f, 14))
    else if Says(f, "DKDN") then KeyPress(Word(f, 8), Word(f, 10), Word(f, 12))
    else if Says(f, "DKUP") then KeyRelease(Word(f, 8), Word(f, 10), Word(f, 12))
    else if Says(f, "CCLP") then GrabClipboard(0, 0)
    else if Says(f, "DCLP") then Clipboard(f[8], Long(f, 9))
    else if Says(f, "DMMV") then MoveAbs(Word(f, 8), Word(f, 10))
    else if Says(f, "DMRM") then MoveRel(Offset(f, 8), Offset(f, 10))
    else if Says(f, "DMWM") then Wheel(Offset(f, 8), Offset(f, 10))
    else if Says(f, "DMDN") then ButtonDown(Small(f, 8))
    else if Says(f, "DMUP") then ButtonUp(Small(f, 8))
    else Incompatible(Word(f, 8), Word(f, 10))
  }

  // ---- the codec reads the same ----

  lemma LengthByCode(f: seq<byte>)
    requires |f| >= 8
    ensures LeastLength(f) == 8 + Demanded(CodeAt(f, 4))
  {
  }

  lemma ParsesIff(f: seq<byte>)
    requires Framed(f)
    ensures ParseAssembled(f).Ok? <==> LongEnough(f)
    ensures ParseAssembled(f).Ok? ==> ParseAssembled(f).value == Decode(KindOfCode(CodeAt(f, 4)), f[8..])
  {
    LengthByCode(f);
    ParseSucceedsIff(f);
  }

  lemma WideContent(f: seq<byte>)
    requires Framed(f) && LongEnough(f) && (Says(f, "DINF") || Says(f, "CINN") || Says(f, "DCLP"))
    ensures ParseAssembled(f) == Ok(Content(f))
  {
    ParsesIff(f);
    var d := f[8..];
    assert forall i :: 0 <= i < |d| ==> d[i] == f[8 + i];
  }

  lemma KeyContent(f: seq<byte>)
    requires Framed(f) && LongEnough(f) && (Says(f, "DKDN") || Says(f, "DKUP") || Says(f, "DKRP"))
    ensures ParseAssembled(f) == Ok(Content(f))
  {
    ParsesIff(f);
    var d := f[8..];
    assert forall i :: 0 <= i < |d| ==> d[i] == f[8 + i];
  }

  /** Parsing reads each field where it stands in the frame. */
  lemma FieldsAreRead(f: seq<byte>)
    requires Framed(f) && LongEnough(f) && LeastLength(f) > 8
    ensures ParseAssembled(f) == Ok(Content(f))
  {
    if Says(f, "DINF") || Says(f, "CINN") || Says(f, "DCLP") {
      WideContent(f);
    } else if Says(f, "DKDN") || Says(f, "DKUP") || Says(f, "DKRP") {
      KeyContent(f);
    } else {
      SmallContent(f);
    }
  }

  lemma SmallContent(f: seq<byte>)
    requires Framed(f) && LongEnough(f) && 8 < LeastLength(f) < 14 && !Says(f, "DCLP")
    ensures ParseAssembled(f) == Ok(Content(f))
  {
    ParsesIff(f);
    var d := f[8..];
    assert forall i :: 0 <= i < |d| ==> d[i] == f[8 + i];
  }

  function CallsOf(r: Result<Packet>, keepAwake: bool): seq<Call> {
    if r.Ok? then CallsFor(r.value, keepAwake) else []
  }

  /** The codes that stand for a call with fields. */
  predicate HasFields(f: seq<byte>)
    requires |f| >= 8
  {
    || Says(f, "DKDN") || Says(f, "DKUP") || Says(f, "DKRP") || Says(f, "DMWM") || Says(f, "DMMV") || Says(f, "DMRM")
    || Says(f, "DMDN") || Says(f, "DMUP") || Says(f, "CINN")
  }

  lemma LongContentMeans(f: seq<byte>, keepAwake: bool)
    requires LongEnough(f) && (Says(f, "DKDN") || Says(f, "DKUP") || Says(f, "DKRP") || Says(f, "CINN"))
    ensures CallsOf(Ok(Content(f)), keepAwake) == Meaning(f, keepAwake) && Welcome(Ok(Content(f)))
  {
  }

  lemma ShortContentMeans(f: seq<byte>, keepAwake: bool)
    requires LongEnough(f)
    requires Says(f, "DMWM") || Says(f, "DMMV") || Says(f, "DMRM") || Says(f, "DMDN") || Says(f, "DMUP")
    ensures CallsOf(Ok(Content(f)), keepAwake) == Meaning(f, keepAwake) && Welcome(Ok(Content(f)))
  {
  }

  lemma FieldsMean(f: seq<byte>, keepAwake: bool)
    requires Framed(f) && LongEnough(f) && HasFields(f)
    ensures CallsOf(ParseAssembled(f), keepAwake) == Meaning(f, keepAwake) && Welcome(ParseAssembled(f))
  {
    FieldsAreRead(f);
    if Says(f, "DKDN") || Says(f, "DKUP") || Says(f, "DKRP") || Says(f, "CINN") {
      LongContentMeans(f, keepAwake);
    } else {
      ShortContentMeans(f, keepAwake);
    }
  }

  /** The kinds that stand for no call and do not end the session. */
  predicate Silent(k: Kind) {
    k in {QINF, DINF, CIAK, CNOP, CCLP, DCLP, CROP, DSOP, UNKNOWN}
  }

  lemma SilentOrKnown(f: seq<byte>)
    requires |f| >= 8
    ensures Silent(KindOfCode(CodeAt(f, 4))) || HasFields(f) || Says(f, "COUT") || Says(f, "CALV") || SaysGoodbye(f)
  {
  }

  lemma SilentMeansNothing(k: Kind, data: seq<byte>, keepAwake: bool)
    requires Silent(k) && |data| >= Needed(k)
    ensures var r := Ok(Decode(k, data)); CallsOf(r, keepAwake) == [] && Welcome(r)
  {
  }

  lemma SignsMean(f: seq<byte>, keepAwake: bool)
    requires Framed(f) && LongEnough(f) && (Says(f, "COUT") || Says(f, "CALV"))
    ensures CallsOf(ParseAssembled(f), keepAwake) == Meaning(f, keepAwake) && Welcome(ParseAssembled(f))
  {
    ParsesIff(f);
  }

  lemma GoodbyeMeans(f: seq<byte>, keepAwake: bool)
    requires Framed(f) && LongEnough(f) && SaysGoodbye(f)
    ensures CallsOf(ParseAssembled(f), keepAwake) == [] && !Welcome(ParseAssembled(f))
  {
    ParsesIff(f);
  }

  lemma OthersMean(f: seq<byte>, keepAwake: bool)
    requires Framed(f) && LongEnough(f) && !HasFields(f)
    requires !Says(f, "COUT") && !Says(f, "CALV") && !SaysGoodbye(f)
    ensures CallsOf(ParseAssembled(f), keepAwake) == [] && Welcome(ParseAssembled(f))
  {
    ParsesIff(f);
    SilentOrKnown(f);
    SilentMeansNothing(KindOfCode(CodeAt(f, 4)), f[8..], keepAwake);
  }

  /** The calls of a frame, and whether it ends the session, can be read off its bytes. */
  lemma FrameMeans(f: seq<byte>, keepAwake: bool)
    requires Framed(f)
    ensures Welcome(ParseAssembled(f)) <==> GoesOn(f)
    ensures LongEnough(f) ==> CallsOf(ParseAssembled(f), keepAwake) == Meaning(f, keepAwake)
  {
    if !LongEnough(f) {
      ParsesIff(f);
    } else if Says(f, "COUT") || Says(f, "CALV") {
      SignsMean(f, keepAwake);
    } else if SaysGoodbye(f) {
      GoodbyeMeans(f, keepAwake);
    } else if HasFields(f) {
      FieldsMean(f, keepAwake);
    } else {
      OthersMean(f, keepAwake);
    }
  }

  // ---- whole streams ----

  lemma CallsOfLast(rs: seq<Result<Packet>>, keepAwake: bool)
    requires rs != []
    ensures CallsForAll(rs, keepAwake) == CallsForAll(rs[..|rs| - 1], keepAwake) + CallsOf(rs[|rs| - 1], keepAwake)
  {
  }

  lemma Apart(a: seq<Call>, b: seq<Call>, c: seq<Call>, ab: seq<Call>, bc: seq<Call>)
    requires ab == a + b && bc == b + c
    ensures ab + c == a + bc
  {
  }

  lemma {:induction false} CallsOfFirst(rs: seq<Result<Packet>>, keepAwake: bool)
    requires rs != []
    ensures CallsForAll(rs, keepAwake) == CallsOf(rs[0], keepAwake) + CallsForAll(rs[1..], keepAwake)
    decreases |rs|
  {
    var n := |rs| - 1;
    var init, rest := rs[..n], rs[1..];
    CallsOfLast(rs, keepAwake);
    if n > 0 {
      CallsOfFirst(init, keepAwake);
      CallsOfLast(rest, keepAwake);
      assert init[1..] == rest[..n - 1] && init[0] == rs[0] && rest[n - 1] == rs[n];
      Apart(CallsOf(rs[0], keepAwake), CallsForAll(init[1..], keepAwake), CallsOf(rs[n], keepAwake),
            CallsForAll(init, keepAwake), CallsForAll(rest, keepAwake));
    } else {
      assert init == [] && rest == [];
    }
  }

  lemma {:induction false} LeadingFramesMean(frames: seq<seq<byte>>, keepAwake: bool)
    requires AllValid(frames)
    ensures forall f <- Leading(frames) :: LongEnough(f)
    ensures CallsForAll(WelcomePart(ParseAll(frames)), keepAwake) == Meanings(Leading(frames), keepAwake)
    ensures WelcomePart(ParseAll(frames)) == ParseAll(frames) <==> Leading(frames) == frames
    ensures |WelcomePart(ParseAll(frames))| == |Leading(frames)| <= |frames|
    decreases |frames|
  {
    if frames != [] {
      var f, r, rest := frames[0], ParseAssembled(frames[0]), ParseAll(frames[1..]);
      FrameMeans(f, keepAwake);
      assert ParseAll(frames)[1..] == rest;
      LeadingFramesMean(frames[1..], keepAwake);
      if GoesOn(f) {
        var part := [r] + WelcomePart(rest);
        CallsOfFirst(part, keepAwake);
        assert part[1..] == WelcomePart(rest);
        assert Leading(frames)[1..] == Leading(frames[1..]);
      }
    }
  }

  /** However valid frames are split into reads, with the limit expiring only where a frame begins: the calls of an
      undisturbed session are those the bytes of the frames stand for, up to the first frame that is too short or signs
      off, and the session stays open if and only if there is none. */
  lemma BytesDetermineCalls(setup: Setup, s: Client, script: seq<Moment>, io: seq<Io>, frames: seq<seq<byte>>,
                            tail: seq<byte>, keepAwake: bool)
    requires s.loc == InSession && s.running && forall m <- script :: Undisturbed(m, keepAwake)
    requires AllValid(frames) && Bytes(io) == Concat(frames) + tail && Calm(io, frames, 0, 0)
    requires Feeds(script, io, if Leading(frames) == frames then |frames| else |Leading(frames)| + 1)
    ensures forall f <- Leading(frames) :: LongEnough(f)
    ensures var d := Run(setup, s, script);
            && HandlingCalls(d.trace) == HandlingCalls(s.trace) + Meanings(Leading(frames), keepAwake)
            && d.loc == if Leading(frames) == frames then InSession else Leaving
  {
    LeadingFramesMean(frames, keepAwake);
    WireDeterminesCalls(setup, s, script, io, frames, tail, keepAwake);
  }
}
