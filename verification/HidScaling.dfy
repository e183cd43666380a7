/** Pixel coordinates to HID absolute-pointer coordinates (main/tusb/tusb_actuator.c). */
module HidScaling {
  type u16 = n: int | 0 <= n < 0x1_0000
  type i16 = n: int | -0x8000 <= n < 0x8000

  const ABS_PTR_MAX: int := 32767

  /** The C conversion to uint16_t. */
  function ToU16(v: int): u16 {
    v % 0x1_0000
  }

  /** `screen_width - 1` stored in a uint16_t: a zero dimension wraps to 65535. */
  function LastPixel(dimension: u16): u16 {
    ToU16(dimension - 1)
  }

  /** to_hid_x and to_hid_y, which differ only in the dimension they read. */
  function ToHid(dimension: u16, v: u16): u16 {
    var denom := LastPixel(dimension);
    if denom == 0 then 0 else ToU16((v * ABS_PTR_MAX) / denom)
  }

  function ClampU16(v: int, max: u16): u16 {
    if v < 0 then 0 else if v > max then max else v
  }

  /** One axis of actuator_move_relative. */
  function MoveAxis(target: u16, delta: i16, dimension: u16): u16 {
    ClampU16(target + delta, LastPixel(dimension))
  }

  function CeilDiv(a: nat, b: nat): nat
    requires b > 0
  {
    (a + b - 1) / b
  }

  // ---- arithmetic helpers ----

  lemma DivBounds(a: nat, b: nat)
    requires b > 0
    ensures b * (a / b) <= a < b * (a / b) + b
  {
  }

  lemma MulMonotone(b: nat, x: int, y: int)
    ensures x <= y ==> b * x <= b * y
  {
  }

  lemma DivIs(a: nat, b: nat, q: nat)
    requires b > 0 && b * q <= a < b * q + b
    ensures a / b == q
  {
    DivBounds(a, b);
    MulMonotone(b, a / b + 1, q);
    MulMonotone(b, q + 1, a / b);
  }

  lemma DivMonotone(a: nat, c: nat, b: nat)
    requires b > 0 && a <= c
    ensures a / b <= c / b
  {
    DivBounds(a, b);
    DivBounds(c, b);
    MulMonotone(b, c / b + 1, a / b);
  }

  // ---- properties ----

  /** The 32-bit product cannot wrap, and inside the screen the narrowing cast loses nothing. */
  lemma NoOverflow(dimension: u16, v: u16)
    ensures 0 <= v * ABS_PTR_MAX < 0x1_0000_0000
    ensures v < dimension && dimension >= 2 ==>
              ToHid(dimension, v) == (v * ABS_PTR_MAX) / (dimension - 1) <= ABS_PTR_MAX
  {
    if v < dimension && dimension >= 2 {
      DivMonotone(v * ABS_PTR_MAX, (dimension - 1) * ABS_PTR_MAX, dimension - 1);
      DivIs((dimension - 1) * ABS_PTR_MAX, dimension - 1, ABS_PTR_MAX);
    }
  }

  lemma EdgesAreExact(dimension: u16)
    requires dimension >= 2
    ensures ToHid(dimension, 0) == 0
    ensures ToHid(dimension, dimension - 1) == ABS_PTR_MAX
  {
    DivIs((dimension - 1) * ABS_PTR_MAX, dimension - 1, ABS_PTR_MAX);
  }

  lemma Monotone(dimension: u16, v: u16, w: u16)
    requires v <= w < dimension && dimension >= 2
    ensures ToHid(dimension, v) <= ToHid(dimension, w)
  {
    NoOverflow(dimension, v);
    NoOverflow(dimension, w);
    DivMonotone(v * ABS_PTR_MAX, w * ABS_PTR_MAX, dimension - 1);
  }

  /** Up to 32768 pixels wide, ceiling division recovers the pixel from its HID coordinate. */
  lemma InverseByCeiling(dimension: u16, v: u16)
    requires v < dimension && 2 <= dimension <= 32768
    ensures CeilDiv(ToHid(dimension, v) * (dimension - 1), ABS_PTR_MAX) == v
  {
    NoOverflow(dimension, v);
    var d := dimension - 1;
    var h := ToHid(dimension, v);
    DivBounds(v * ABS_PTR_MAX, d);
    assert d * h <= v * ABS_PTR_MAX < d * h + d;
    DivIs(h * d + ABS_PTR_MAX - 1, ABS_PTR_MAX, v);
  }

  ghost predicate Injective(dimension: u16) {
    forall v: u16, w: u16 :: v < dimension && w < dimension && ToHid(dimension, v) == ToHid(dimension, w) ==> v == w
  }

  lemma EqualImages(dimension: u16, v: u16, w: u16)
    requires v < dimension && w < dimension && 2 <= dimension <= 32768
    requires ToHid(dimension, v) == ToHid(dimension, w)
    ensures v == w
  {
    InverseByCeiling(dimension, v);
    InverseByCeiling(dimension, w);
  }

  lemma FirstTwoCollide(dimension: u16)
    requires dimension > 32768
    ensures ToHid(dimension, 0) == ToHid(dimension, 1)
  {
    var d := LastPixel(dimension);
    DivIs(0, d, 0);
    DivIs(ABS_PTR_MAX, d, 0);
    assert ToHid(dimension, 0) == ToU16(0 / d);
    assert ToHid(dimension, 1) == ToU16(ABS_PTR_MAX / d);
  }

  /** Distinct pixels keep distinct HID coordinates exactly up to a dimension of 32768. */
  lemma InjectiveIff(dimension: u16)
    requires dimension >= 2
    ensures Injective(dimension) <==> dimension <= 32768
  {
    if dimension <= 32768 {
      forall v: u16, w: u16 | v < dimension && w < dimension && ToHid(dimension, v) == ToHid(dimension, w)
        ensures v == w
      {
        EqualImages(dimension, v, w);
      }
    } else {
      FirstTwoCollide(dimension);
    }
  }

  /** The clamp picks the representable point nearest to the requested one. */
  lemma ClampIsNearest(v: int, max: u16, p: u16)
    requires p <= max
    ensures ClampU16(v, max) <= max
    ensures var c := ClampU16(v, max); (if c < v then v - c else c - v) <= (if p < v then v - p else p - v)
  {
  }

  /** From any stored target and for any delta, one axis of a relative move ends on the screen
      exactly when the screen has at least one pixel on that axis. */
  lemma RelativeMoveOnScreenIff(target: u16, delta: i16, dimension: u16)
    ensures MoveAxis(target, delta, dimension) < dimension <==> dimension >= 1
  {
  }

  /** A relative move goes exactly as far as asked, in the direction asked, and stops at the edge it would cross. */
  lemma RelativeMoveIs(target: u16, delta: i16, dimension: u16)
    requires dimension >= 1
    ensures 0 <= target + delta < dimension ==> MoveAxis(target, delta, dimension) == target + delta
    ensures target + delta < 0 ==> MoveAxis(target, delta, dimension) == 0
    ensures target + delta >= dimension ==> MoveAxis(target, delta, dimension) == dimension - 1
  {
  }

  /** The jiggle's detour: one pixel right, or one left at the right edge. */
  function JiggleTo(x: u16, width: u16): u16 {
    if x + 1 < width then x + 1 else ToU16(x - 1)
  }

  /** From a pixel on the screen the detour is a neighbouring pixel on the screen, if and only if there is one: the one
      to the right, except from the last pixel. */
  lemma JiggleIsNeighbourIff(x: u16, width: u16)
    requires x < width
    ensures (JiggleTo(x, width) < width && (JiggleTo(x, width) == x + 1 || JiggleTo(x, width) == x - 1)) <==> width >= 2
    ensures width >= 2 ==> (JiggleTo(x, width) == x + 1 <==> x != width - 1)
  {
  }
}
