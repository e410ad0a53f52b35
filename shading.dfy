/**
 * The per-pixel colour of the software path: the lighting-mode dispatch, the
 * additive depth overlay, the rescale into [0, 1] and the conversion to the
 * three bytes of a back-buffer pixel.  The lighting terms themselves (normal
 * mapping, the clamped dot product, Lambert and Phong) are computed by
 * helpers outside this model and enter as the functions of a `Lighting`.
 */
module Shading {
  import opened Geometry
  import opened Textures
  import opened Vertices

  datatype LightingMode = Combined | ObservedArea | Diffuse | Specular

  const LightIntensity: real := 7.0

  /** The lighting terms of one interpolated pixel.  `observedArea` and
      `specular` also see whether normal mapping is on, since they use the
      pixel normal; `lambert` uses only the diffuse texture at the pixel's uv. */
  datatype Lighting = Lighting(observedArea: (VertexOut, bool) -> real,
                               lambert: VertexOut -> ColorRGB,
                               specular: (VertexOut, bool) -> ColorRGB)

  /** A clamped dot product, a texture read divided by pi and a texture read
      times a power are never negative. */
  ghost predicate LightingNonNegative(l: Lighting) {
    (forall p, normalMap :: 0.0 <= l.observedArea(p, normalMap)) &&
    (forall p :: NonNegative(l.lambert(p))) &&
    (forall p, normalMap :: NonNegative(l.specular(p, normalMap)))
  }

  /** The colour the lighting mode produces before the overlay. */
  function LitColor(mode: LightingMode, l: Lighting, p: VertexOut, normalMap: bool): ColorRGB {
    var observedArea := l.observedArea(p, normalMap);
    match mode
    case Combined => AddColor(ScaleColor(LightIntensity * observedArea, l.lambert(p)), l.specular(p, normalMap))
    case ObservedArea => Gray(observedArea)
    case Diffuse => ScaleColor(LightIntensity * observedArea, l.lambert(p))
    case Specular => ScaleColor(observedArea, l.specular(p, normalMap))
  }

  lemma MulNonNegative(a: real, b: real)
    requires 0.0 <= a && 0.0 <= b
    ensures 0.0 <= a * b
  {
  }

  lemma ScaleColorNonNegative(s: real, c: ColorRGB)
    requires 0.0 <= s && NonNegative(c)
    ensures NonNegative(ScaleColor(s, c))
  {
    MulNonNegative(s, c.r);
    MulNonNegative(s, c.g);
    MulNonNegative(s, c.b);
  }

  /** With non-negative lighting terms every mode gives a non-negative colour. */
  lemma LitColorNonNegative(mode: LightingMode, l: Lighting, p: VertexOut, normalMap: bool)
    requires LightingNonNegative(l)
    ensures NonNegative(LitColor(mode, l, p, normalMap))
  {
    var observedArea := l.observedArea(p, normalMap);
    assert 0.0 <= observedArea;
    assert NonNegative(l.lambert(p));
    assert NonNegative(l.specular(p, normalMap));
    ScaleColorNonNegative(LightIntensity * observedArea, l.lambert(p));
    ScaleColorNonNegative(observedArea, l.specular(p, normalMap));
  }

  /** Combined is exactly the diffuse mode's colour plus the unscaled specular term. */
  lemma CombinedIsDiffusePlusSpecular(l: Lighting, p: VertexOut, normalMap: bool)
    ensures LitColor(Combined, l, p, normalMap)
         == AddColor(LitColor(Diffuse, l, p, normalMap), l.specular(p, normalMap))
  {
  }

  /** With an observed area of at most one, the Specular mode never exceeds the
      specular term it scales, channel by channel. */
  lemma {:induction false} SpecularModeAtMostTerm(l: Lighting, p: VertexOut, normalMap: bool)
    requires 0.0 <= l.observedArea(p, normalMap) <= 1.0 && NonNegative(l.specular(p, normalMap))
    ensures var c, s := LitColor(Specular, l, p, normalMap), l.specular(p, normalMap);
      0.0 <= c.r <= s.r && 0.0 <= c.g <= s.g && 0.0 <= c.b <= s.b
  {
    var k, s := l.observedArea(p, normalMap), l.specular(p, normalMap);
    UnitScaleInRange(k, s.r);
    UnitScaleInRange(k, s.g);
    UnitScaleInRange(k, s.b);
  }

  function MaxChannel(c: ColorRGB): real {
    Max(c.r, Max(c.g, c.b))
  }

  lemma DivAtMostOne(a: real, m: real)
    requires 0.0 <= a <= m && 0.0 < m
    ensures 0.0 <= a / m <= 1.0
  {
  }

  /** Rescale a colour whose largest channel exceeds 1 so that channel becomes 1. */
  function MaxToOne(c: ColorRGB): (r: ColorRGB)
    ensures NonNegative(c) ==> InUnitRange(r)
    ensures MaxChannel(c) <= 1.0 ==> r == c
    ensures 1.0 < MaxChannel(c) ==> r == ScaleColor(1.0 / MaxChannel(c), c)
  {
    var m := MaxChannel(c);
    if 1.0 < m then
      var r := ScaleColor(1.0 / m, c);
      assert NonNegative(c) ==> InUnitRange(r) by {
        if NonNegative(c) {
          DivAtMostOne(c.r, m);
          DivAtMostOne(c.g, m);
          DivAtMostOne(c.b, m);
        }
      }
      r
    else
      c
  }

  /** The channels keep their ratios, so the hue is unchanged. */
  lemma {:induction false} MaxToOneKeepsHue(c: ColorRGB)
    ensures var r := MaxToOne(c);
      r.r * c.g == r.g * c.r && r.g * c.b == r.b * c.g && r.r * c.b == r.b * c.r
  {
    var m := MaxChannel(c);
    if 1.0 < m {
      var k := 1.0 / m;
      assert MaxToOne(c) == ScaleColor(k, c);
      assert (k * c.r) * c.g == (k * c.g) * c.r;
      assert (k * c.g) * c.b == (k * c.b) * c.g;
      assert (k * c.r) * c.b == (k * c.b) * c.r;
    }
  }

  /** Rescaling twice is rescaling once. */
  lemma MaxToOneIdempotent(c: ColorRGB)
    requires NonNegative(c)
    ensures MaxToOne(MaxToOne(c)) == MaxToOne(c)
  {
    assert MaxChannel(MaxToOne(c)) <= 1.0;
  }

  /** A float-to-uint8 cast of a value in [0, 256): its integer part. */
  function ToByte(x: real): (b: Byte)
    requires 0.0 <= x < 256.0
    ensures b as real <= x < b as real + 1.0
  {
    x.Floor
  }

  /** A back-buffer pixel: the surface's packing of three channel bytes is
      abstracted as the bytes themselves. */
  datatype Pixel = Pixel(r: Byte, g: Byte, b: Byte)

  const WhitePixel := Pixel(255, 255, 255)

  lemma UnitTimesScale(v: real, scale: real)
    requires 0.0 <= v <= 1.0 && 0.0 <= scale < 256.0
    ensures 0.0 <= v * scale <= scale
  {
    assert scale - v * scale == (1.0 - v) * scale;
  }

  /** Each channel in [0, 1] multiplied by `scale` and cast to a byte. */
  function PackColor(c: ColorRGB, scale: real): (p: Pixel)
    requires InUnitRange(c) && 0.0 <= scale < 256.0
    ensures p.r as real <= c.r * scale < p.r as real + 1.0
    ensures p.g as real <= c.g * scale < p.g as real + 1.0
    ensures p.b as real <= c.b * scale < p.b as real + 1.0
  {
    UnitTimesScale(c.r, scale);
    UnitTimesScale(c.g, scale);
    UnitTimesScale(c.b, scale);
    Pixel(ToByte(c.r * scale), ToByte(c.g * scale), ToByte(c.b * scale))
  }

  /** The cast of a whole number is that number. */
  lemma ToByteOfWhole(b: Byte)
    ensures ToByte(b as real) == b
  {
  }

  /** A texel read back through the sampler's division by 255 and packed with
      255 gives its own three bytes: the two conversions are inverse. */
  lemma {:induction false} PackSampledTexel(t: Texel)
    ensures PackColor(ColorRGB(ChannelToUnit(t.r), ChannelToUnit(t.g), ChannelToUnit(t.b)), MaxColorValue)
         == Pixel(t.r, t.g, t.b)
  {
    var c := ColorRGB(ChannelToUnit(t.r), ChannelToUnit(t.g), ChannelToUnit(t.b));
    assert c.r * MaxColorValue == t.r as real;
    assert c.g * MaxColorValue == t.g as real;
    assert c.b * MaxColorValue == t.b as real;
    ToByteOfWhole(t.r);
    ToByteOfWhole(t.g);
    ToByteOfWhole(t.b);
  }

  /** The colour written for a pixel: the mode's colour, plus the pixel's own
      colour when the depth overlay is on, rescaled into [0, 1]. */
  function FinalColor(mode: LightingMode, l: Lighting, p: VertexOut, normalMap: bool, showDepth: bool): (c: ColorRGB)
    requires LightingNonNegative(l) && NonNegative(p.color)
    ensures InUnitRange(c)
    ensures var s := if showDepth then AddColor(LitColor(mode, l, p, normalMap), p.color) else LitColor(mode, l, p, normalMap);
      (MaxChannel(s) <= 1.0 ==> c == s) && (1.0 < MaxChannel(s) ==> c == ScaleColor(1.0 / MaxChannel(s), s))
  {
    LitColorNonNegative(mode, l, p, normalMap);
    var lit := LitColor(mode, l, p, normalMap);
    MaxToOne(if showDepth then AddColor(lit, p.color) else lit)
  }

  /** The bytes PixelShading writes. */
  function ShadePixel(mode: LightingMode, l: Lighting, p: VertexOut, normalMap: bool, showDepth: bool): Pixel
    requires LightingNonNegative(l) && NonNegative(p.color)
  {
    PackColor(FinalColor(mode, l, p, normalMap, showDepth), MaxColorValue)
  }

  /** The observed-area mode without overlay paints a gray whose level is the
      observed area capped at 1, as a byte. */
  lemma {:induction false} ObservedAreaIsGray(l: Lighting, p: VertexOut, normalMap: bool)
    requires LightingNonNegative(l) && NonNegative(p.color)
    ensures var v := Min(l.observedArea(p, normalMap), 1.0) * MaxColorValue;
      0.0 <= v < 256.0 &&
      ShadePixel(ObservedArea, l, p, normalMap, false) == Pixel(ToByte(v), ToByte(v), ToByte(v))
  {
    var a := l.observedArea(p, normalMap);
    assert 0.0 <= a;
    var c := FinalColor(ObservedArea, l, p, normalMap, false);
    assert MaxChannel(Gray(a)) == a;
    if 1.0 < a {
      assert c == ScaleColor(1.0 / a, Gray(a));
      DivSelf(a);
      assert c == Gray(1.0);
    } else {
      assert c == Gray(a);
    }
    assert c == Gray(Min(a, 1.0));
  }

  lemma DivSelf(a: real)
    requires a != 0.0
    ensures (1.0 / a) * a == 1.0
  {
  }

  /** The depth overlay's gray level: depth mapped linearly from [lo, hi] to
      [0, 1], 0 below the band and 1 above it. */
  function Remap(v: real, lo: real, hi: real): (r: real)
    requires lo < hi
    ensures 0.0 <= r <= 1.0
    ensures v <= lo ==> r == 0.0
    ensures hi <= v ==> r == 1.0
    ensures lo <= v <= hi ==> r * (hi - lo) == v - lo
  {
    if v <= lo then 0.0
    else if hi <= v then 1.0
    else
      DivBelowOne(v - lo, hi - lo);
      (v - lo) / (hi - lo)
  }

  lemma {:induction false} RemapMonotone(a: real, b: real, lo: real, hi: real)
    requires lo < hi && a <= b
    ensures Remap(a, lo, hi) <= Remap(b, lo, hi)
  {
    if lo < a && b < hi {
      DivMonotone(a - lo, b - lo, hi - lo);
    }
  }

  lemma DivMonotone(x: real, y: real, d: real)
    requires 0.0 < d && x <= y
    ensures x / d <= y / d
  {
    assert y / d - x / d == (y - x) / d;
  }

  const DepthBandLow: real := 0.985
  const DepthBandHigh: real := 1.0

  /** The colour the depth overlay gives a pixel at depth z. */
  function DepthColor(z: real): (c: ColorRGB)
    ensures InUnitRange(c) && c.r == c.g == c.b
  {
    Gray(Remap(z, DepthBandLow, DepthBandHigh))
  }
}
