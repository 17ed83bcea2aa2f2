/** The RGBA pixel value of the film (openvdb/tools/RayTracer.h, struct Film::RGBA).
    Channels are single-precision floats in the source; here they are reals, so no
    rounding is modelled. The struct is a value type: the two operators that mutate
    their receiver (`+=` and `over`) are functions returning the receiver's new value. */
module Colour {

  datatype RGBA = RGBA(r: real, g: real, b: real, a: real)

  /** `RGBA()`: black, opaque. */
  const Black: RGBA := RGBA(0.0, 0.0, 0.0, 1.0)

  /** `RGBA(intensity)`: a grey of the given intensity, opaque. It is opaque white
      scaled by the intensity, and a colour in range exactly when the intensity is in
      [0,1]. */
  function Grey(intensity: real): (c: RGBA)
    ensures c == Scale(RGBA(1.0, 1.0, 1.0, 1.0), intensity)
    ensures InRange(c) <==> InUnit(intensity)
  {
    RGBA(intensity, intensity, intensity, 1.0)
  }

  /** `operator*(scale)`: scales the colour channels; the result is opaque whatever
      the alpha of the operand. */
  function Scale(c: RGBA, s: real): RGBA
  {
    RGBA(c.r * s, c.g * s, c.b * s, 1.0)
  }

  /** `operator+(rhs)`: adds the colour channels; the result is opaque. */
  function Add(c: RGBA, d: RGBA): RGBA
  {
    RGBA(c.r + d.r, c.g + d.g, c.b + d.b, 1.0)
  }

  /** `operator*(rhs)`: multiplies the colour channels; the result is opaque. */
  function Mul(c: RGBA, d: RGBA): RGBA
  {
    RGBA(c.r * d.r, c.g * d.g, c.b * d.b, 1.0)
  }

  /** `operator+=(rhs)`: the receiver's new value; unlike `+`, it also adds alpha. */
  function AddAssign(c: RGBA, d: RGBA): RGBA
  {
    RGBA(c.r + d.r, c.g + d.g, c.b + d.b, c.a + d.a)
  }

  /** `over(rhs)`: the receiver's new value after compositing `rhs` behind it. */
  function Over(c: RGBA, rhs: RGBA): RGBA
  {
    var s := rhs.a * (1.0 - c.a);
    RGBA(c.a * c.r + s * rhs.r, c.a * c.g + s * rhs.g, c.a * c.b + s * rhs.b, c.a + s)
  }

  predicate InUnit(x: real) { 0.0 <= x <= 1.0 }

  /** All four channels in [0,1], the range the struct's documentation promises. */
  predicate InRange(c: RGBA)
  {
    InUnit(c.r) && InUnit(c.g) && InUnit(c.b) && InUnit(c.a)
  }

  /** The three operators that build a new RGBA reset alpha to 1, while `+=` sums
      alpha: on the colour channels `+` and `+=` agree, on alpha they differ as soon
      as the alphas do not sum to 1. */
  lemma AlphaQuirk(c: RGBA, d: RGBA, s: real)
    ensures Scale(c, s).a == Add(c, d).a == Mul(c, d).a == 1.0
    ensures AddAssign(c, d).r == Add(c, d).r && AddAssign(c, d).g == Add(c, d).g
            && AddAssign(c, d).b == Add(c, d).b
    ensures AddAssign(c, d) == Add(c, d) <==> c.a + d.a == 1.0
  {
  }

  /** Compositing anything behind an opaque colour leaves it unchanged. */
  lemma OverOpaqueIdentity(c: RGBA, rhs: RGBA)
    requires c.a == 1.0
    ensures Over(c, rhs) == c
  {
  }

  /** Compositing behind a fully transparent colour yields `rhs` premultiplied by its
      own alpha. */
  lemma OverTransparent(c: RGBA, rhs: RGBA)
    requires c.a == 0.0
    ensures Over(c, rhs) == RGBA(rhs.a * rhs.r, rhs.a * rhs.g, rhs.a * rhs.b, rhs.a)
  {
  }

  /** `over` keeps colours inside the unit range and never lowers alpha. */
  lemma OverInRange(c: RGBA, rhs: RGBA)
    requires InRange(c) && InRange(rhs)
    ensures InRange(Over(c, rhs))
    ensures c.a <= Over(c, rhs).a
  {
    var s := rhs.a * (1.0 - c.a);
    MulWithinUnit(rhs.a, 1.0 - c.a);
    ChannelBound(c.a, c.r, s, rhs.r);
    ChannelBound(c.a, c.g, s, rhs.g);
    ChannelBound(c.a, c.b, s, rhs.b);
  }

  /** Scaling a non-negative bound by a factor in [0,1] stays within the bound. */
  lemma MulWithinUnit(x: real, m: real)
    requires InUnit(x) && 0.0 <= m
    ensures 0.0 <= x * m <= m && 0.0 <= m * x <= m
  {
    assert m - x * m == (1.0 - x) * m;
  }

  lemma ChannelBound(a: real, x: real, s: real, y: real)
    requires InUnit(a) && InUnit(x) && InUnit(y) && 0.0 <= s <= 1.0 - a
    ensures InUnit(a * x + s * y)
  {
    var p, q := a * x, s * y;
    MulWithinUnit(x, a);
    MulWithinUnit(y, s);
    assert 0.0 <= p <= a && 0.0 <= q <= s;
  }
}
