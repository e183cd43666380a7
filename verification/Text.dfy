/** Decimal printing (printf %u, %d) and integer scanning (scanf %d, strtol, strtoul). */
module Text {
  predicate IsDigit(c: char) {
    '0' <= c <= '9'
  }

  /** isspace in the C locale: space, tab, line feed, vertical tab, form feed, carriage return. */
  predicate IsSpace(c: char): (space: bool)
    ensures space <==> c == ' ' || c == '\t' || c == '\n' || c == '\U{000B}' || c == '\U{000C}' || c == '\r'
  {
    c == ' ' || '\t' <= c <= '\r'
  }

  function Digit(d: nat): (c: char)
    requires d < 10
    ensures IsDigit(c) && DigitValue(c) == d
  {
    ('0' as int + d) as char
  }

  function DigitValue(c: char): nat
    requires IsDigit(c)
  {
    c as int - '0' as int
  }

  function Decimal(n: nat): (s: string)
    ensures s != "" && forall c <- s :: IsDigit(c)
  {
    if n < 10 then [Digit(n)] else Decimal(n / 10) + [Digit(n % 10)]
  }

  function SignedDecimal(n: int): (s: string)
    ensures s != "" && (IsDigit(s[0]) || s[0] == '-')
    ensures forall c <- s :: IsDigit(c) || c == '-'
  {
    if n < 0 then "-" + Decimal(-n) else Decimal(n)
  }

  function SkipSpaces(s: string): string {
    if s != "" && IsSpace(s[0]) then SkipSpaces(s[1..]) else s
  }

  /** Leading digits appended to the value read so far, and the rest of the input. */
  function ScanDigits(s: string, value: nat): (nat, string) {
    if s != "" && IsDigit(s[0]) then ScanDigits(s[1..], 10 * value + DigitValue(s[0])) else (value, s)
  }

  datatype Scanned = NoNumber | Number(value: int, rest: string)

  /** Leading white space, an optional sign, at least one digit. */
  function ScanInteger(s: string): Scanned {
    var t := SkipSpaces(s);
    var signed := t != "" && (t[0] == '-' || t[0] == '+');
    var digits := if signed then t[1..] else t;
    if digits == "" || !IsDigit(digits[0]) then NoNumber
    else
      var (value, rest) := ScanDigits(digits, 0);
      Number(if signed && t[0] == '-' then -(value as int) else value as int, rest)
  }

  predicate StartsWithDigit(s: string) {
    s != "" && IsDigit(s[0])
  }

  lemma {:induction false} ScanDecimal(n: nat, rest: string)
    ensures ScanDigits(Decimal(n) + rest, 0) == ScanDigits(rest, n)
    decreases n
  {
    if n < 10 {
      assert (Decimal(n) + rest)[1..] == rest;
    } else {
      var d := [Digit(n % 10)];
      assert Decimal(n) + rest == Decimal(n / 10) + (d + rest);
      ScanDecimal(n / 10, d + rest);
      assert (d + rest)[1..] == rest;
    }
  }

  /** Scanning what was printed gives the number back, up to the first character that cannot continue it. */
  lemma ScanPrinted(n: int, rest: string)
    requires !StartsWithDigit(rest)
    ensures ScanInteger(SignedDecimal(n) + rest) == Number(n, rest)
  {
    var s := SignedDecimal(n) + rest;
    assert s[0] == SignedDecimal(n)[0];
    assert SkipSpaces(s) == s;
    if n < 0 {
      assert s[1..] == Decimal(-n) + rest;
      ScanDecimal(-n, rest);
    } else {
      ScanDecimal(n, rest);
    }
  }

  /** A plus sign may come first. */
  lemma ScanWithPlus(n: nat, rest: string)
    requires !StartsWithDigit(rest)
    ensures ScanInteger("+" + (Decimal(n) + rest)) == Number(n, rest)
  {
    assert ("+" + (Decimal(n) + rest))[1..] == Decimal(n) + rest;
    ScanDecimal(n, rest);
  }

  const ULONG_MAX: int := 0xFFFF_FFFF
  const LONG_MAX: int := 0x7FFF_FFFF
  const LONG_MIN: int := -0x8000_0000

  /** strtoul with 32-bit unsigned long: saturates, and negates modulo 2^32 after a minus sign. */
  function StrToUl(s: string): (n: nat)
    ensures n <= ULONG_MAX
  {
    match ScanInteger(s)
    case NoNumber => 0
    case Number(v, _) => if v > ULONG_MAX || v < -ULONG_MAX then ULONG_MAX else v % (ULONG_MAX + 1)
  }

  /** strtol with 32-bit long: saturates at both ends. */
  function StrToL(s: string): (n: int)
    ensures LONG_MIN <= n <= LONG_MAX
  {
    match ScanInteger(s)
    case NoNumber => 0
    case Number(v, _) => if v > LONG_MAX then LONG_MAX else if v < LONG_MIN then LONG_MIN else v
  }
}
