/**
 * RGB colors (src/color.rs): three real channels with component-wise
 * arithmetic, loose-tier equality, and a clamping conversion to bytes.
 */
module Colors {
  import opened Float

  /** An unsigned 8-bit value, `u8`. */
  type Byte = n: int | 0 <= n < 256

  /** `Color::new(r, g, b)` is the datatype constructor. */
  datatype Color = Color(r: real, g: real, b: real)

  /** The derived `Default`: black, which converts to zero bytes and is the unit of addition. */
  function Default(): (black: Color)
    ensures ToRgb(black) == [0, 0, 0]
    ensures forall c :: Add(c, black) == c
  {
    Color(0.0, 0.0, 0.0)
  }

  /**
   * One arm of `to_rgb`: below 0 is 0, above 1 is 255, otherwise `c * 255`
   * truncated, that is, the largest byte `n` with `n <= c * 255`.
   */
  function ChannelToByte(c: real): (n: Byte)
    ensures c < 0.0 ==> n == 0
    ensures c > 1.0 ==> n == 255
    ensures 0.0 <= c <= 1.0 ==> n as real <= c * 255.0 < n as real + 1.0
  {
    if c < 0.0 then 0
    else if c > 1.0 then 255
    else (c * 255.0).Floor
  }

  /** `to_rgb`: three bytes, byte `k` converted from channel `k` alone. */
  function ToRgb(c: Color): (rgb: seq<Byte>)
    ensures |rgb| == 3
    ensures forall k :: 0 <= k < 3 ==> rgb[k] == ChannelToByte(Channel(c, k))
  {
    [ChannelToByte(c.r), ChannelToByte(c.g), ChannelToByte(c.b)]
  }

  /** The channel at position `k` of `to_rgb`'s output. */
  function Channel(c: Color, k: nat): real
    requires k < 3
  {
    if k == 0 then c.r else if k == 1 then c.g else c.b
  }

  /** `PartialEq`: every channel agrees at the loose tier. */
  predicate Eq(c: Color, d: Color)
    ensures Eq(c, d) <==> -EpsilonLow < c.r - d.r < EpsilonLow && -EpsilonLow < c.g - d.g < EpsilonLow && -EpsilonLow < c.b - d.b < EpsilonLow
  {
    ApproxEqLowPrecision(c.r, d.r) && ApproxEqLowPrecision(c.g, d.g) && ApproxEqLowPrecision(c.b, d.b)
  }

  /** `Color + Color`: subtracting `d` again gives back `c`. */
  function Add(c: Color, d: Color): (s: Color)
    ensures Sub(s, d) == c
  {
    Color(c.r + d.r, c.g + d.g, c.b + d.b)
  }

  /** `Color - Color`: the color that, added to `d`, gives `c`. */
  function Sub(c: Color, d: Color): (s: Color)
    ensures Color(s.r + d.r, s.g + d.g, s.b + d.b) == c
  {
    Color(c.r - d.r, c.g - d.g, c.b - d.b)
  }

  /** `Color * Color`: the Hadamard (channel-by-channel) product, which is commutative and has white as unit. */
  function Mul(c: Color, d: Color): (p: Color)
    ensures p.r == d.r * c.r && p.g == d.g * c.g && p.b == d.b * c.b
    ensures d == Color(1.0, 1.0, 1.0) ==> p == c
  {
    Color(c.r * d.r, c.g * d.g, c.b * d.b)
  }

  /** `Color * f64`: the product with the grey whose three channels are `s`. */
  function Scale(c: Color, s: real): (p: Color)
    ensures p == Mul(c, Color(s, s, s))
  {
    Color(c.r * s, c.g * s, c.b * s)
  }

  /**
   * Byte `k` of `to_rgb` clamps channel `k`: 0 below 0.0, 255 above 1.0, and in
   * between the largest byte `n` with `n <= c * 255`.
   */
  lemma ToRgbClampsEachChannel(c: Color, k: nat)
    requires k < 3
    ensures Channel(c, k) < 0.0 ==> ToRgb(c)[k] == 0
    ensures Channel(c, k) > 1.0 ==> ToRgb(c)[k] == 255
    ensures 0.0 <= Channel(c, k) <= 1.0 ==>
              ToRgb(c)[k] as real <= Channel(c, k) * 255.0 < ToRgb(c)[k] as real + 1.0
    ensures ToRgb(c)[k] == ChannelToByte(Channel(c, k))
  {
  }

  /** Each byte depends on its own channel only. */
  lemma ToRgbChannelsIndependent(c: Color, d: Color, k: nat)
    requires k < 3
    requires Channel(c, k) == Channel(d, k)
    ensures ToRgb(c)[k] == ToRgb(d)[k]
  {
  }

  /** The conversion preserves the order of channel values. */
  lemma ChannelToByteMonotone(c: real, d: real)
    requires c <= d
    ensures ChannelToByte(c) <= ChannelToByte(d)
  {
  }

  /** 1.0 becomes 255 and 0.5 becomes 127 (truncation, not rounding). */
  lemma ChannelExamples()
    ensures ChannelToByte(1.0) == 255 && ChannelToByte(0.5) == 127 && ChannelToByte(0.0) == 0
    ensures ChannelToByte(-0.5) == 0 && ChannelToByte(1.7) == 255
  {
  }

  /** The default color is black and converts to three zero bytes. */
  lemma DefaultIsBlack()
    ensures Default() == Color(0.0, 0.0, 0.0)
    ensures ToRgb(Default()) == [0, 0, 0]
  {
  }

  /** Equality is at the loose tier: a gap of 5e-4 is still equal, a gap of 1e-3 is not. */
  lemma EqUsesLooseTier(c: Color)
    ensures Eq(c, Color(c.r + 0.0005, c.g, c.b))
    ensures !Eq(c, Color(c.r + EpsilonLow, c.g, c.b))
  {
  }

  lemma EqReflexive(c: Color)
    ensures Eq(c, c)
  {
  }

  lemma EqSymmetric(c: Color, d: Color)
    ensures Eq(c, d) <==> Eq(d, c)
  {
  }

  /** Subtraction undoes addition and vice versa. */
  lemma AddSubInverse(c: Color, d: Color)
    ensures Sub(Add(c, d), d) == c
    ensures Add(Sub(c, d), d) == c
  {
  }

  /** The Hadamard product is commutative, white is its unit, and scaling is the product with a grey. */
  lemma ProductLaws(c: Color, d: Color, s: real)
    ensures Mul(c, d) == Mul(d, c)
    ensures Mul(c, Color(1.0, 1.0, 1.0)) == c
    ensures Scale(c, s) == Mul(c, Color(s, s, s))
  {
  }

  /** The unit tests of color.rs. */
  lemma ArithmeticExamples()
    ensures Eq(Color(1.6, 0.7, 1.0), Add(Color(0.9, 0.6, 0.75), Color(0.7, 0.1, 0.25)))
    ensures Eq(Color(0.2, 0.5, 0.5), Sub(Color(0.9, 0.6, 0.75), Color(0.7, 0.1, 0.25)))
    ensures Eq(Color(0.4, 0.6, 0.8), Scale(Color(0.2, 0.3, 0.4), 2.0))
    ensures Eq(Color(0.9, 0.2, 0.04), Mul(Color(1.0, 0.2, 0.4), Color(0.9, 1.0, 0.1)))
  {
  }
}
