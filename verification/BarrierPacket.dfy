/** The packet codec (main/barrier/barrier_packet.c). */
module BarrierPacket {
  import opened HidScaling
  import opened Commands
  import opened WireBytes

  datatype Error = InvalidSize | NoMemory | TimedOut | Failed
  datatype Result<T> = Ok(value: T) | Err(error: Error)

  const CODE_LEN: nat := 4
  const HEADER_LEN: nat := 8

  datatype Kind =
    | QINF | DINF | CIAK | CALV | CNOP | CINN | COUT | DMMV | DMRM | DMUP | DMDN | DMWM
    | DKUP | DKDN | DKRP | CCLP | DCLP | CBYE | EUNK | EBSY | EBAD | EICV | CROP | DSOP | UNKNOWN

  /** packet_t: the kind with its member of the union. */
  datatype Packet =
    | Bare(bare: Kind)
    | DeviceInfo(x: u16, y: u16, w: u16, h: u16, dummy: u16, mx: u16, my: u16)
    | MoveAbs(x: u16, y: u16)
    | MoveRel(dx: i16, dy: i16)
    | ButtonUp(id: i8)
    | ButtonDown(id: i8)
    | Wheel(dx: i16, dy: i16)
    | CursorEnter(x: u16, y: u16, number: u32, mask: u16)
    | KeyRelease(key: u16, mask: u16, button: u16)
    | KeyPress(key: u16, mask: u16, button: u16)
    | KeyAgain(key: u16, mask: u16, count: u16, button: u16)
    | GrabClipboard(clip: byte, number: u32)
    | Clipboard(clip: byte, number: u32)
    | Incompatible(major: u16, minor: u16)

  /** The kinds whose packets carry no fields. */
  predicate IsBare(k: Kind) {
    match k
    case QINF | CIAK | CALV | CNOP | COUT | CBYE | EUNK | EBSY | EBAD | CROP | DSOP | UNKNOWN => true
    case _ => false
  }

  predicate WellFormed(p: Packet) {
    p.Bare? ==> IsBare(p.bare)
  }

  function KindOf(p: Packet): Kind {
    match p
    case Bare(k) => k
    case DeviceInfo(_, _, _, _, _, _, _) => DINF
    case MoveAbs(_, _) => DMMV
    case MoveRel(_, _) => DMRM
    case ButtonUp(_) => DMUP
    case ButtonDown(_) => DMDN
    case Wheel(_, _) => DMWM
    case CursorEnter(_, _, _, _) => CINN
    case KeyRelease(_, _, _) => DKUP
    case KeyPress(_, _, _) => DKDN
    case KeyAgain(_, _, _, _) => DKRP
    case GrabClipboard(_, _) => CCLP
    case Clipboard(_, _) => DCLP
    case Incompatible(_, _) => EICV
  }

  /** The four ASCII bytes of a packet code. */
  datatype Code = Code(a: char, b: char, c: char, d: char)

  /** type_to_code */
  function CodeOf(k: Kind): Code {
    match k
    case QINF => Code('Q', 'I', 'N', 'F')
    case DINF => Code('D', 'I', 'N', 'F')
    case CIAK => Code('C', 'I', 'A', 'K')
    case CALV => Code('C', 'A', 'L', 'V')
    case CNOP => Code('C', 'N', 'O', 'P')
    case CINN => Code('C', 'I', 'N', 'N')
    case COUT => Code('C', 'O', 'U', 'T')
    case DMMV => Code('D', 'M', 'M', 'V')
    case DMRM => Code('D', 'M', 'R', 'M')
    case DMUP => Code('D', 'M', 'U', 'P')
    case DMDN => Code('D', 'M', 'D', 'N')
    case DMWM => Code('D', 'M', 'W', 'M')
    case DKUP => Code('D', 'K', 'U', 'P')
    case DKDN => Code('D', 'K', 'D', 'N')
    case DKRP => Code('D', 'K', 'R', 'P')
    case CCLP => Code('C', 'C', 'L', 'P')
    case DCLP => Code('D', 'C', 'L', 'P')
    case CBYE => Code('C', 'B', 'Y', 'E')
    case EUNK => Code('E', 'U', 'N', 'K')
    case EBSY => Code('E', 'B', 'S', 'Y')
    case EBAD => Code('E', 'B', 'A', 'D')
    case EICV => Code('E', 'I', 'C', 'V')
    case CROP => Code('C', 'R', 'O', 'P')
    case DSOP => Code('D', 'S', 'O', 'P')
    case UNKNOWN => Code('?', '?', '?', '?')
  }

  /** code_to_type */
  function KindOfCode(code: Code): Kind {
    if code == Code('Q', 'I', 'N', 'F') then QINF
    else if code == Code('D', 'I', 'N', 'F') then DINF
    else if code == Code('C', 'I', 'A', 'K') then CIAK
    else if code == Code('C', 'A', 'L', 'V') then CALV
    else if code == Code('C', 'N', 'O', 'P') then CNOP
    else if code == Code('C', 'I', 'N', 'N') then CINN
    else if code == Code('C', 'O', 'U', 'T') then COUT
    else if code == Code('D', 'M', 'M', 'V') then DMMV
    else if code == Code('D', 'M', 'R', 'M') then DMRM
    else if code == Code('D', 'M', 'U', 'P') then DMUP
    else if code == Code('D', 'M', 'D', 'N') then DMDN
    else if code == Code('D', 'M', 'W', 'M') then DMWM
    else if code == Code('D', 'K', 'U', 'P') then DKUP
    else if code == Code('D', 'K', 'D', 'N') then DKDN
    else if code == Code('D', 'K', 'R', 'P') then DKRP
    else if code == Code('C', 'C', 'L', 'P') then CCLP
    else if code == Code('D', 'C', 'L', 'P') then DCLP
    else if code == Code('C', 'B', 'Y', 'E') then CBYE
    else if code == Code('E', 'U', 'N', 'K') then EUNK
    else if code == Code('E', 'B', 'S', 'Y') then EBSY
    else if code == Code('E', 'B', 'A', 'D') then EBAD
    else if code == Code('E', 'I', 'C', 'V') then EICV
    else if code == Code('C', 'R', 'O', 'P') then CROP
    else if code == Code('D', 'S', 'O', 'P') then DSOP
    else UNKNOWN
  }

  lemma BareCodeIsRecognised(k: Kind)
    requires IsBare(k)
    ensures KindOfCode(CodeOf(k)) == k
  {
  }

  /** Each kind's code is recognised as that kind. */
  lemma CodeIsRecognised(k: Kind)
    ensures KindOfCode(CodeOf(k)) == k
  {
    if IsBare(k) {
      BareCodeIsRecognised(k);
    }
  }

  /** And nothing else is recognised as a known kind. */
  lemma OnlyCodesAreRecognised(code: Code)
    ensures KindOfCode(code) != UNKNOWN ==> CodeOf(KindOfCode(code)) == code
  {
  }

  function CodeAt(s: seq<byte>, i: nat): Code
    requires i + 4 <= |s|
  {
    Code(s[i] as char, s[i + 1] as char, s[i + 2] as char, s[i + 3] as char)
  }

  /** Each code is ASCII, so it survives the trip through bytes. */
  predicate Ascii(code: Code) {
    code.a < 128 as char && code.b < 128 as char && code.c < 128 as char && code.d < 128 as char
  }

  lemma CodesAreAscii(k: Kind)
    ensures Ascii(CodeOf(k))
  {
  }

  /** How many bytes of data packet_parse insists on. */
  function Needed(k: Kind): nat {
    match k
    case DINF => 14
    case DMMV | DMRM | DMWM | EICV => 4
    case DMUP | DMDN => 1
    case CINN => 10
    case DKUP | DKDN => 6
    case DKRP => 8
    case CCLP | DCLP => 5
    case _ => 0
  }

  /** How many bytes of data packet_serialize announces: all it writes, and two more for CINN. */
  function Announced(k: Kind): nat {
    if k == CINN then 12 else Needed(k)
  }

  function Decode(k: Kind, data: seq<byte>): (p: Packet)
    requires |data| >= Needed(k)
    ensures KindOf(p) == k && WellFormed(p)
  {
    match k
    case DINF => DeviceInfo(U16At(data, 0), U16At(data, 2), U16At(data, 4), U16At(data, 6),
                            U16At(data, 8), U16At(data, 10), U16At(data, 12))
    case DMMV => MoveAbs(U16At(data, 0), U16At(data, 2))
    case DMRM => MoveRel(I16At(data, 0), I16At(data, 2))
    case DMUP => ButtonUp(SignedByte(data[0]))
    case DMDN => ButtonDown(SignedByte(data[0]))
    case DMWM => Wheel(I16At(data, 0), I16At(data, 2))
    case CINN => CursorEnter(U16At(data, 0), U16At(data, 2), U32At(data, 4), U16At(data, 8))
    case DKUP => KeyRelease(U16At(data, 0), U16At(data, 2), U16At(data, 4))
    case DKDN => KeyPress(U16At(data, 0), U16At(data, 2), U16At(data, 4))
    case DKRP => KeyAgain(U16At(data, 0), U16At(data, 2), U16At(data, 4), U16At(data, 6))
    case CCLP => GrabClipboard(0, 0)
    case DCLP => Clipboard(data[0], U32At(data, 1))
    case EICV => Incompatible(U16At(data, 0), U16At(data, 2))
    case _ => Bare(k)
  }

  /** The announced data length of a frame whose header is present. */
  function DataLen(buf: seq<byte>): nat
    requires |buf| >= HEADER_LEN
  {
    var payload := U32At(buf, 0);
    if payload >= CODE_LEN then payload - CODE_LEN else 0
  }

  /** packet_parse trusts the announced length, not `len`: the memory behind it must be readable. */
  predicate Readable(buf: seq<byte>, len: nat) {
    len <= |buf| && (len >= HEADER_LEN ==>
      var need := Needed(KindOfCode(CodeAt(buf, 4)));
      DataLen(buf) >= need ==> HEADER_LEN + need <= |buf|)
  }

  /** packet_parse */
  function Parse(buf: seq<byte>, len: nat): Result<Packet>
    requires Readable(buf, len)
  {
    if len < HEADER_LEN then Err(InvalidSize)
    else
      var k := KindOfCode(CodeAt(buf, 4));
      if DataLen(buf) < Needed(k) then Err(InvalidSize) else Ok(Decode(k, buf[HEADER_LEN..]))
  }

  /** The data bytes packet_serialize writes. */
  function Data(p: Packet): (data: seq<byte>)
    ensures |data| == Needed(KindOf(p)) || p.Bare?
  {
    match p
    case Bare(_) => []
    case DeviceInfo(x, y, w, h, dummy, mx, my) =>
      [Hi(x), Lo(x), Hi(y), Lo(y), Hi(w), Lo(w), Hi(h), Lo(h), Hi(dummy), Lo(dummy), Hi(mx), Lo(mx), Hi(my), Lo(my)]
    case MoveAbs(x, y) => [Hi(x), Lo(x), Hi(y), Lo(y)]
    case MoveRel(dx, dy) => [Hi(ToU16(dx)), Lo(ToU16(dx)), Hi(ToU16(dy)), Lo(ToU16(dy))]
    case ButtonUp(id) => [ToByte(id)]
    case ButtonDown(id) => [ToByte(id)]
    case Wheel(dx, dy) => [Hi(ToU16(dx)), Lo(ToU16(dx)), Hi(ToU16(dy)), Lo(ToU16(dy))]
    case CursorEnter(x, y, n, mask) =>
      [Hi(x), Lo(x), Hi(y), Lo(y), Byte0(n), Byte1(n), Byte2(n), Byte3(n), Hi(mask), Lo(mask)]
    case KeyRelease(key, mask, button) => [Hi(key), Lo(key), Hi(mask), Lo(mask), Hi(button), Lo(button)]
    case KeyPress(key, mask, button) => [Hi(key), Lo(key), Hi(mask), Lo(mask), Hi(button), Lo(button)]
    case KeyAgain(key, mask, count, button) =>
      [Hi(key), Lo(key), Hi(mask), Lo(mask), Hi(count), Lo(count), Hi(button), Lo(button)]
    case GrabClipboard(clip, n) => [clip, Byte0(n), Byte1(n), Byte2(n), Byte3(n)]
    case Clipboard(clip, n) => [clip, Byte0(n), Byte1(n), Byte2(n), Byte3(n)]
    case Incompatible(major, minor) => [Hi(major), Lo(major), Hi(minor), Lo(minor)]
  }

  function Header(k: Kind): (header: seq<byte>)
    ensures |header| == HEADER_LEN
  {
    CodesAreAscii(k);
    Prefix(CODE_LEN + Announced(k), CodeOf(k))
  }

  /** A length and a code, as they stand at the beginning of a frame. */
  function Prefix(n: u32, code: Code): (prefix: seq<byte>)
    requires Ascii(code)
    ensures |prefix| == HEADER_LEN
  {
    [Byte0(n), Byte1(n), Byte2(n), Byte3(n), code.a as int, code.b as int, code.c as int, code.d as int]
  }

  function FrameLen(p: Packet): nat {
    HEADER_LEN + Announced(KindOf(p))
  }

  /** The buffer after packet_serialize: header and data over what was there. */
  function Written(p: Packet, before: seq<byte>): seq<byte>
    requires |before| >= FrameLen(p) && WellFormed(p)
  {
    Header(KindOf(p)) + Data(p) + before[HEADER_LEN + |Data(p)|..]
  }

  // ---- round trips ----

  lemma KeyDataDecodes(p: Packet, rest: seq<byte>)
    requires p.DeviceInfo? || p.KeyPress? || p.KeyRelease? || p.KeyAgain?
    ensures Decode(KindOf(p), Data(p) + rest) == p
  {
  }

  lemma DataDecodes(p: Packet, rest: seq<byte>)
    requires WellFormed(p)
    ensures Decode(KindOf(p), Data(p) + rest) == if p.GrabClipboard? then GrabClipboard(0, 0) else p
  {
    var data := Data(p) + rest;
    assert forall i :: 0 <= i < |Data(p)| ==> data[i] == Data(p)[i];
    match p {
      case DeviceInfo(_, _, _, _, _, _, _) => KeyDataDecodes(p, rest);
      case KeyPress(_, _, _) => KeyDataDecodes(p, rest);
      case KeyRelease(_, _, _) => KeyDataDecodes(p, rest);
      case KeyAgain(_, _, _, _) => KeyDataDecodes(p, rest);
      case MoveRel(dx, dy) =>
        I16RoundTrip(dx, 0);
        I16RoundTrip(dy, 0);
      case Wheel(dx, dy) =>
        I16RoundTrip(dx, 0);
        I16RoundTrip(dy, 0);
      case ButtonUp(id) => I8RoundTrip(id, 0);
      case ButtonDown(id) => I8RoundTrip(id, 0);
      case CursorEnter(_, _, n, _) => U32RoundTrip(n);
      case Clipboard(_, n) => U32RoundTrip(n);
      case _ =>
    }
  }

  lemma HeaderDecodes(k: Kind, rest: seq<byte>)
    ensures var f := Header(k) + rest;
            U32At(f, 0) == CODE_LEN + Announced(k) && KindOfCode(CodeAt(f, 4)) == k && DataLen(f) == Announced(k)
  {
    CodeIsRecognised(k);
    CodesAreAscii(k);
    U32RoundTrip(CODE_LEN + Announced(k));
    var code := CodeOf(k);
    var f := Header(k) + rest;
    assert CodeAt(f, 4) == code;
  }

  /** Parsing what was serialised gives the packet back, whatever the buffer held before, exactly for every
      packet but a clipboard grab with non-zero fields: those fields are never parsed. */
  lemma ParseAfterSerialize(p: Packet, before: seq<byte>)
    requires WellFormed(p) && |before| >= FrameLen(p)
    ensures var f := Written(p, before);
            && Readable(f, FrameLen(p)) && Parse(f, FrameLen(p)).Ok?
            && (Parse(f, FrameLen(p)) == Ok(p) <==> (p.GrabClipboard? ==> p == GrabClipboard(0, 0)))
  {
    var k := KindOf(p);
    var rest := before[HEADER_LEN + |Data(p)|..];
    var f := Written(p, before);
    assert f == Header(k) + (Data(p) + rest);
    HeaderDecodes(k, Data(p) + rest);
    assert f[HEADER_LEN..] == Data(p) + rest;
    DataDecodes(p, rest);
  }

  /** The length field of the frame is right. */
  predicate Framed(f: seq<byte>) {
    |f| >= HEADER_LEN && U32At(f, 0) == |f| - CODE_LEN
  }

  /** A frame of a known kind that is exactly as long as its announced length and as its kind needs. */
  predicate ExactFrame(f: seq<byte>) {
    && Framed(f)
    && KindOfCode(CodeAt(f, 4)) != UNKNOWN && |f| == HEADER_LEN + Needed(KindOfCode(CodeAt(f, 4)))
  }

  lemma HeaderIsUnique(f: seq<byte>)
    requires ExactFrame(f) && KindOfCode(CodeAt(f, 4)) != CINN
    ensures f[..HEADER_LEN] == Header(KindOfCode(CodeAt(f, 4)))
  {
    OnlyCodesAreRecognised(CodeAt(f, 4));
    U32BytesUnique(f[0], f[1], f[2], f[3]);
  }

  lemma TwoFieldsAreUnique(k: Kind, data: seq<byte>)
    requires |data| == 4 && (k == EICV || k == DMMV)
    ensures Data(Decode(k, data)) == data
  {
    U16BytesUnique(data, 0);
    U16BytesUnique(data, 2);
  }

  lemma ThreeFieldsAreUnique(k: Kind, data: seq<byte>)
    requires |data| == 6 && (k == DKUP || k == DKDN)
    ensures Data(Decode(k, data)) == data
  {
    U16BytesUnique(data, 0);
    U16BytesUnique(data, 2);
    U16BytesUnique(data, 4);
  }

  lemma FourFieldsAreUnique(data: seq<byte>)
    requires |data| == 8
    ensures Data(Decode(DKRP, data)) == data
  {
    U16BytesUnique(data, 0);
    U16BytesUnique(data, 2);
    U16BytesUnique(data, 4);
    U16BytesUnique(data, 6);
  }

  lemma SevenFieldsAreUnique(data: seq<byte>)
    requires |data| == 14
    ensures Data(Decode(DINF, data)) == data
  {
    U16BytesUnique(data, 0);
    U16BytesUnique(data, 2);
    U16BytesUnique(data, 4);
    U16BytesUnique(data, 6);
    U16BytesUnique(data, 8);
    U16BytesUnique(data, 10);
    U16BytesUnique(data, 12);
  }

  lemma SignedFieldsAreUnique(k: Kind, data: seq<byte>)
    requires |data| == 4 && (k == DMRM || k == DMWM)
    ensures Data(Decode(k, data)) == data
  {
    I16RoundTrip(0, U16At(data, 0));
    I16RoundTrip(0, U16At(data, 2));
    U16BytesUnique(data, 0);
    U16BytesUnique(data, 2);
  }

  lemma EnterFieldsAreUnique(data: seq<byte>)
    requires |data| == 10
    ensures Data(Decode(CINN, data)) == data
  {
    U16BytesUnique(data, 0);
    U16BytesUnique(data, 2);
    U32BytesUnique(data[4], data[5], data[6], data[7]);
    U16BytesUnique(data, 8);
  }

  lemma ClipboardFieldsAreUnique(data: seq<byte>)
    requires |data| == 5
    ensures Data(Decode(DCLP, data)) == data
  {
    U32BytesUnique(data[1], data[2], data[3], data[4]);
  }

  lemma ButtonFieldIsUnique(k: Kind, data: seq<byte>)
    requires |data| == 1 && (k == DMUP || k == DMDN)
    ensures Data(Decode(k, data)) == data
  {
    I8RoundTrip(0, data[0]);
  }

  lemma DataIsUnique(k: Kind, data: seq<byte>)
    requires |data| == Needed(k) && k != CCLP
    ensures Data(Decode(k, data)) == data
  {
    match k {
      case DINF => SevenFieldsAreUnique(data);
      case DKRP => FourFieldsAreUnique(data);
      case DKUP => ThreeFieldsAreUnique(k, data);
      case DKDN => ThreeFieldsAreUnique(k, data);
      case EICV => TwoFieldsAreUnique(k, data);
      case DMMV => TwoFieldsAreUnique(k, data);
      case DMRM => SignedFieldsAreUnique(k, data);
      case DMWM => SignedFieldsAreUnique(k, data);
      case DMUP => ButtonFieldIsUnique(k, data);
      case DMDN => ButtonFieldIsUnique(k, data);
      case CINN => EnterFieldsAreUnique(data);
      case DCLP => ClipboardFieldsAreUnique(data);
      case _ =>
    }
  }

  /** Serialising what was parsed reproduces an exact frame byte for byte, except for CINN, whose
      announced length grows by two, and for a clipboard grab with non-zero fields. */
  lemma SerializeAfterParse(f: seq<byte>, before: seq<byte>)
    requires ExactFrame(f) && |before| == HEADER_LEN + Announced(KindOfCode(CodeAt(f, 4)))
    ensures Readable(f, |f|) && Parse(f, |f|).Ok?
    ensures var k := KindOfCode(CodeAt(f, 4));
            Written(Parse(f, |f|).value, before) == f <==>
            k != CINN && (k == CCLP ==> f[HEADER_LEN..] == [0, 0, 0, 0, 0])
    ensures KindOfCode(CodeAt(f, 4)) == CINN ==> |Written(Parse(f, |f|).value, before)| == |f| + 2
  {
    var k := KindOfCode(CodeAt(f, 4));
    var p := Parse(f, |f|).value;
    var out := Written(p, before);
    assert |before[HEADER_LEN + |Data(p)|..]| == Announced(k) - Needed(k);
    if k != CINN {
      HeaderIsUnique(f);
      assert out == Header(k) + Data(p);
      assert f == f[..HEADER_LEN] + f[HEADER_LEN..];
      if k == CCLP {
        assert out[HEADER_LEN..] == [0, 0, 0, 0, 0];
      } else {
        DataIsUnique(k, f[HEADER_LEN..]);
      }
    } else {
      assert |out| == |f| + 2;
    }
  }

  /** When the announced payload lies within the `len` bytes handed over, nothing beyond them is looked at. */
  lemma ParseIgnoresTail(buf: seq<byte>, len: nat)
    requires HEADER_LEN <= len <= |buf| && CODE_LEN + U32At(buf, 0) <= len
    ensures Readable(buf, len) && Readable(buf[..len], len) && Parse(buf, len) == Parse(buf[..len], len)
  {
    var k := KindOfCode(CodeAt(buf, 4));
    assert CodeAt(buf[..len], 4) == CodeAt(buf, 4) && U32At(buf[..len], 0) == U32At(buf, 0);
    if DataLen(buf) >= Needed(k) {
      DecodeIgnoresTail(k, buf[HEADER_LEN..], buf[..len][HEADER_LEN..]);
    }
  }

  lemma DecodeIgnoresTail(k: Kind, data: seq<byte>, shorter: seq<byte>)
    requires |data| >= |shorter| >= Needed(k) && data[..|shorter|] == shorter
    ensures Decode(k, data) == Decode(k, shorter)
  {
  }

  // ---- which frames are accepted ----

  /** The data bytes a frame must at least carry, by its code. */
  function Demanded(code: Code): nat {
    if code == Code('D', 'I', 'N', 'F') then 14
    else if code == Code('C', 'I', 'N', 'N') then 10
    else if code == Code('D', 'K', 'R', 'P') then 8
    else if code == Code('D', 'K', 'D', 'N') || code == Code('D', 'K', 'U', 'P') then 6
    else if code == Code('C', 'C', 'L', 'P') || code == Code('D', 'C', 'L', 'P') then 5
    else if code == Code('D', 'M', 'M', 'V') || code == Code('D', 'M', 'R', 'M') then 4
    else if code == Code('D', 'M', 'W', 'M') || code == Code('E', 'I', 'C', 'V') then 4
    else if code == Code('D', 'M', 'D', 'N') || code == Code('D', 'M', 'U', 'P') then 1
    else 0
  }

  lemma DemandIsNeed(code: Code)
    ensures Needed(KindOfCode(code)) == Demanded(code)
  {
  }

  /** A frame is accepted exactly when it carries the data its code demands: more never hurts, and a code without
      fields, such as DSOP, or an unknown one is accepted with any data. */
  lemma ParseSucceedsIff(f: seq<byte>)
    requires Framed(f)
    ensures Readable(f, |f|)
    ensures Parse(f, |f|).Ok? <==> |f| - HEADER_LEN >= Demanded(CodeAt(f, 4))
    ensures Parse(f, |f|).Err? ==> Parse(f, |f|).error == InvalidSize
    ensures Parse(f, |f|).Ok? ==> KindOf(Parse(f, |f|).value) == KindOfCode(CodeAt(f, 4))
  {
    DemandIsNeed(CodeAt(f, 4));
  }

  /** `longer` is `f` with `extra` data and its length field raised accordingly. */
  predicate Extends(longer: seq<byte>, f: seq<byte>, extra: seq<byte>) {
    Framed(longer) && |f| >= HEADER_LEN && longer[CODE_LEN..] == f[CODE_LEN..] + extra
  }

  /** Data beyond what an accepted frame carries changes nothing. */
  lemma ParseIgnoresExtra(f: seq<byte>, extra: seq<byte>, longer: seq<byte>)
    requires Framed(f) && Extends(longer, f, extra) && |f| - HEADER_LEN >= Demanded(CodeAt(f, 4))
    ensures Readable(f, |f|) && Readable(longer, |longer|)
    ensures Parse(f, |f|).Ok? && Parse(longer, |longer|) == Parse(f, |f|)
  {
    var code := CodeAt(f, 4);
    DemandIsNeed(code);
    var tail := longer[CODE_LEN..];
    assert CodeAt(longer, 4) == CodeAt(tail, 0) == CodeAt(f[CODE_LEN..], 0) == code;
    assert longer[HEADER_LEN..] == tail[CODE_LEN..] == f[HEADER_LEN..] + extra;
    DecodeIgnoresTail(KindOfCode(code), longer[HEADER_LEN..], f[HEADER_LEN..]);
  }

  /** So a serialised packet followed by any data, its length field raised accordingly, is still parsed as it was. */
  lemma SerializedWithExtra(p: Packet, before: seq<byte>, extra: seq<byte>, longer: seq<byte>)
    requires WellFormed(p) && |before| == FrameLen(p) && Extends(longer, Written(p, before), extra)
    ensures Readable(longer, |longer|)
    ensures Parse(longer, |longer|) == Ok(if p.GrabClipboard? then GrabClipboard(0, 0) else p)
  {
    var f, k := Written(p, before), KindOf(p);
    var rest := before[HEADER_LEN + |Data(p)|..];
    assert f == Header(k) + (Data(p) + rest);
    HeaderDecodes(k, Data(p) + rest);
    assert f[HEADER_LEN..] == Data(p) + rest;
    DataDecodes(p, rest);
    DemandIsNeed(CodeAt(f, 4));
    ParseIgnoresExtra(f, extra, longer);
  }

  // ---- the code of packet_serialize ----

  /** `after` is `before` with `bytes` written from position `at`. */
  ghost predicate Patched(before: seq<byte>, after: seq<byte>, at: nat, bytes: seq<byte>) {
    && at + |bytes| <= |before| == |after|
    && (forall i :: 0 <= i < |bytes| ==> after[at + i] == bytes[i])
    && (forall i :: 0 <= i < |before| && !(at <= i < at + |bytes|) ==> after[i] == before[i])
  }

  method WriteDeviceInfo(p: Packet, buf: array<byte>)
    requires p.DeviceInfo? && HEADER_LEN + |Data(p)| <= buf.Length
    modifies buf
    ensures Patched(old(buf[..]), buf[..], HEADER_LEN, Data(p))
  {
    WriteU16(buf, 8, p.x);
    WriteU16(buf, 10, p.y);
    WriteU16(buf, 12, p.w);
    WriteU16(buf, 14, p.h);
    WriteU16(buf, 16, p.dummy);
    WriteU16(buf, 18, p.mx);
    WriteU16(buf, 20, p.my);
  }

  method WriteKey(p: Packet, buf: array<byte>)
    requires (p.KeyRelease? || p.KeyPress? || p.KeyAgain?) && HEADER_LEN + |Data(p)| <= buf.Length
    modifies buf
    ensures Patched(old(buf[..]), buf[..], HEADER_LEN, Data(p))
  {
    WriteU16(buf, 8, p.key);
    WriteU16(buf, 10, p.mask);
    if p.KeyAgain? {
      WriteU16(buf, 12, p.count);
      WriteU16(buf, 14, p.button);
    } else {
      WriteU16(buf, 12, p.button);
    }
  }

  method WritePointer(p: Packet, buf: array<byte>)
    requires p.MoveAbs? || p.MoveRel? || p.ButtonUp? || p.ButtonDown? || p.Wheel? || p.CursorEnter?
    requires HEADER_LEN + |Data(p)| <= buf.Length
    modifies buf
    ensures Patched(old(buf[..]), buf[..], HEADER_LEN, Data(p))
  {
    match p {
      case MoveAbs(x, y) =>
        WriteU16(buf, 8, x);
        WriteU16(buf, 10, y);
      case MoveRel(dx, dy) =>
        WriteI16(buf, 8, dx);
        WriteI16(buf, 10, dy);
      case ButtonUp(id) =>
        buf[8] := ToByte(id);
      case ButtonDown(id) =>
        buf[8] := ToByte(id);
      case Wheel(dx, dy) =>
        WriteI16(buf, 8, dx);
        WriteI16(buf, 10, dy);
      case CursorEnter(x, y, number, mask) =>
        WriteU16(buf, 8, x);
        WriteU16(buf, 10, y);
        WriteU32(buf, 12, number);
        WriteU16(buf, 16, mask);
    }
  }

  /** The second switch: the fields of the packet after the header. */
  method WriteData(p: Packet, buf: array<byte>)
    requires WellFormed(p) && HEADER_LEN + |Data(p)| <= buf.Length
    modifies buf
    ensures Patched(old(buf[..]), buf[..], HEADER_LEN, Data(p))
  {
    match p {
      case DeviceInfo(_, _, _, _, _, _, _) => WriteDeviceInfo(p, buf);
      case KeyRelease(_, _, _) => WriteKey(p, buf);
      case KeyPress(_, _, _) => WriteKey(p, buf);
      case KeyAgain(_, _, _, _) => WriteKey(p, buf);
      case GrabClipboard(clip, number) =>
        buf[8] := clip;
        WriteU32(buf, 9, number);
      case Clipboard(clip, number) =>
        buf[8] := clip;
        WriteU32(buf, 9, number);
      case Incompatible(major, minor) =>
        WriteU16(buf, 8, major);
        WriteU16(buf, 10, minor);
      case Bare(_) =>
      case _ => WritePointer(p, buf);
    }
  }

  method WritePrefix(n: u32, code: Code, buf: array<byte>)
    requires HEADER_LEN <= buf.Length && Ascii(code)
    modifies buf
    ensures Patched(old(buf[..]), buf[..], 0, Prefix(n, code))
  {
    WriteU32(buf, 0, n);
    buf[4] := code.a as int;
    buf[5] := code.b as int;
    buf[6] := code.c as int;
    buf[7] := code.d as int;
  }

  method WriteHeader(k: Kind, buf: array<byte>)
    requires HEADER_LEN <= buf.Length
    modifies buf
    ensures Patched(old(buf[..]), buf[..], 0, Header(k))
  {
    CodesAreAscii(k);
    WritePrefix(CODE_LEN + Announced(k), CodeOf(k), buf);
  }

  lemma PatchesAreWritten(p: Packet, before: seq<byte>, middle: seq<byte>, after: seq<byte>)
    requires WellFormed(p) && |before| >= FrameLen(p)
    requires Patched(before, middle, 0, Header(KindOf(p))) && Patched(middle, after, HEADER_LEN, Data(p))
    ensures after == Written(p, before)
  {
  }

  /** packet_serialize: too small a buffer is refused untouched, otherwise exactly the frame's bytes change. */
  method PacketSerialize(p: Packet, buf: array<byte>, outLen: nat) returns (r: Result<nat>)
    requires WellFormed(p) && outLen <= buf.Length
    modifies buf
    ensures FrameLen(p) > outLen ==> r == Err(NoMemory) && buf[..] == old(buf[..])
    ensures FrameLen(p) <= outLen ==> r == Ok(FrameLen(p)) && buf[..] == Written(p, old(buf[..]))
  {
    if HEADER_LEN + Announced(KindOf(p)) > outLen {
      return Err(NoMemory);
    }
    WriteHeader(KindOf(p), buf);
    ghost var middle := buf[..];
    WriteData(p, buf);
    PatchesAreWritten(p, old(buf[..]), middle, buf[..]);
    r := Ok(HEADER_LEN + Announced(KindOf(p)));
  }
}
