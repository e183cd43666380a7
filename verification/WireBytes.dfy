/** Big-endian integers in byte buffers (main/barrier/barrier_io.c). Shifts and masks are written as
    division and remainder. */
module WireBytes {
  import opened HidScaling
  import opened Commands

  type byte = n: int | 0 <= n < 0x100
  type u32 = n: int | 0 <= n < 0x1_0000_0000

  function Min(a: nat, b: nat): nat {
    if a < b then a else b
  }

  function Hi(v: u16): byte {
    v / 0x100
  }

  function Lo(v: u16): byte {
    v % 0x100
  }

  /** Byte `i` of a 32-bit value, most significant first. */
  function Byte0(v: u32): byte {
    v / 0x100_0000
  }

  function Byte1(v: u32): byte {
    v / 0x1_0000 % 0x100
  }

  function Byte2(v: u32): byte {
    v / 0x100 % 0x100
  }

  function Byte3(v: u32): byte {
    v % 0x100
  }

  /** The C conversions between a signed value and the unsigned one with the same bits. */
  function SignedU16(v: u16): i16 {
    if v < 0x8000 then v else v - 0x1_0000
  }

  function SignedByte(v: byte): i8 {
    if v < 0x80 then v else v - 0x100
  }

  function ToByte(v: i8): byte {
    v % 0x100
  }

  function U16At(s: seq<byte>, i: nat): u16
    requires i + 2 <= |s|
  {
    (s[i] as int) * 0x100 + s[i + 1]
  }

  function I16At(s: seq<byte>, i: nat): i16
    requires i + 2 <= |s|
  {
    SignedU16(U16At(s, i))
  }

  function U32At(s: seq<byte>, i: nat): u32
    requires i + 4 <= |s|
  {
    (s[i] as int) * 0x100_0000 + (s[i + 1] as int) * 0x1_0000 + (s[i + 2] as int) * 0x100 + s[i + 3]
  }

  lemma U16RoundTrip(v: u16, a: byte, b: byte)
    ensures Hi(v) * 0x100 + Lo(v) == v
    ensures Hi(a * 0x100 + b) == a && Lo(a * 0x100 + b) == b
  {
  }

  lemma U16BytesUnique(s: seq<byte>, i: nat)
    requires i + 2 <= |s|
    ensures Hi(U16At(s, i)) == s[i] && Lo(U16At(s, i)) == s[i + 1]
  {
  }

  lemma I16RoundTrip(v: i16, w: u16)
    ensures SignedU16(ToU16(v)) == v
    ensures ToU16(SignedU16(w)) == w
  {
  }

  lemma I8RoundTrip(v: i8, w: byte)
    ensures SignedByte(ToByte(v)) == v
    ensures ToByte(SignedByte(w)) == w
  {
  }

  lemma U32RoundTrip(v: u32)
    ensures Byte0(v) * 0x100_0000 + Byte1(v) * 0x1_0000 + Byte2(v) * 0x100 + Byte3(v) == v
  {
    assert v / 0x1_0000 == (v / 0x100) / 0x100;
    assert v / 0x100_0000 == (v / 0x1_0000) / 0x100;
  }

  lemma U32BytesUnique(a: byte, b: byte, c: byte, d: byte)
    ensures var v := a * 0x100_0000 + b * 0x1_0000 + c * 0x100 + d;
            Byte0(v) == a && Byte1(v) == b && Byte2(v) == c && Byte3(v) == d
  {
    var v := a * 0x100_0000 + b * 0x1_0000 + c * 0x100 + d;
    assert v / 0x100 == a * 0x1_0000 + b * 0x100 + c;
    assert v / 0x1_0000 == a * 0x100 + b;
  }

  method WriteU16(buf: array<byte>, at: nat, v: u16)
    requires at + 2 <= buf.Length
    modifies buf
    ensures buf[at] == Hi(v) && buf[at + 1] == Lo(v)
    ensures forall i :: 0 <= i < buf.Length && !(at <= i < at + 2) ==> buf[i] == old(buf[i])
  {
    buf[at] := v / 0x100 % 0x100;
    buf[at + 1] := v % 0x100;
  }

  method WriteI16(buf: array<byte>, at: nat, v: i16)
    requires at + 2 <= buf.Length
    modifies buf
    ensures buf[at] == Hi(ToU16(v)) && buf[at + 1] == Lo(ToU16(v))
    ensures forall i :: 0 <= i < buf.Length && !(at <= i < at + 2) ==> buf[i] == old(buf[i])
  {
    WriteU16(buf, at, ToU16(v));
  }

  method WriteU32(buf: array<byte>, at: nat, v: u32)
    requires at + 4 <= buf.Length
    modifies buf
    ensures buf[at] == Byte0(v) && buf[at + 1] == Byte1(v) && buf[at + 2] == Byte2(v) && buf[at + 3] == Byte3(v)
    ensures forall i :: 0 <= i < buf.Length && !(at <= i < at + 4) ==> buf[i] == old(buf[i])
  {
    buf[at] := v / 0x100_0000 % 0x100;
    buf[at + 1] := v / 0x1_0000 % 0x100;
    buf[at + 2] := v / 0x100 % 0x100;
    buf[at + 3] := v % 0x100;
  }
}
