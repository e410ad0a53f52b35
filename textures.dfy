/**
 * The software texture's nearest-neighbour lookup.  A texture is the pixel
 * array of a loaded image surface; `Sample` maps a uv pair to one texel and
 * converts its three 8-bit channels to [0, 1].  Decoding of the surface's
 * pixel format (SDL_GetRGB) is abstracted: each texel already holds its
 * three channel bytes.
 */
module Textures {
  import opened Geometry

  type Byte = n: int | 0 <= n < 256

  datatype Texel = Texel(r: Byte, g: Byte, b: Byte)

  /** A surface of width x height texels stored row by row. */
  datatype Texture = Texture(width: nat, height: nat, texels: seq<Texel>)

  predicate ValidTexture(t: Texture) {
    0 < t.width && 0 < t.height && |t.texels| == t.width * t.height
  }

  const MaxColorValue: real := 255.0

  /** One channel byte as a fraction of 255. */
  function ChannelToUnit(c: Byte): (v: real)
    ensures 0.0 <= v <= 1.0
    ensures v * MaxColorValue == c as real
  {
    c as real / MaxColorValue
  }

  /** The texel column and row that uv falls into (float-to-int casts truncate). */
  function TexelX(t: Texture, uv: Vector2): int { Trunc(uv.x * t.width as real) }
  function TexelY(t: Texture, uv: Vector2): int { Trunc(uv.y * t.height as real) }

  /** The index `x + y * w` that Sample reads. */
  function TexelIndex(t: Texture, uv: Vector2): int {
    TexelX(t, uv) + TexelY(t, uv) * t.width
  }

  predicate InUnitSquare(uv: Vector2) {
    0.0 <= uv.x < 1.0 && 0.0 <= uv.y < 1.0
  }

  lemma {:induction false} RowMajorInRange(x: int, y: int, w: nat, h: nat)
    requires 0 <= x < w && 0 <= y < h
    ensures 0 <= x + y * w < w * h
  {
    assert y * w <= (h - 1) * w by {
      assert y <= h - 1;
    }
    assert (h - 1) * w == h * w - w;
  }

  lemma {:induction false} TruncInRange(s: real, n: nat)
    requires 0 < n && 0.0 <= s < 1.0
    ensures 0 <= Trunc(s * n as real) < n
  {
    var p := s * n as real;
    assert 0.0 <= p by {
      assert 0.0 <= s && 0.0 < n as real;
    }
    assert p < n as real by {
      assert (1.0 - s) * n as real > 0.0;
    }
    TruncNonNegative(p);
  }

  /** For u, v in [0, 1) the column is in [0, w), the row in [0, h), and so the
      index read lies in [0, w * h). */
  lemma {:induction false} TexelIndexInRange(t: Texture, uv: Vector2)
    requires ValidTexture(t) && InUnitSquare(uv)
    ensures 0 <= TexelX(t, uv) < t.width && 0 <= TexelY(t, uv) < t.height
    ensures 0 <= TexelIndex(t, uv) < |t.texels|
  {
    TruncInRange(uv.x, t.width);
    TruncInRange(uv.y, t.height);
    RowMajorInRange(TexelX(t, uv), TexelY(t, uv), t.width, t.height);
  }

  /** Exactly which values the cast maps into [0, n): truncation toward zero
      sends values just below zero (above -1) to 0 as well, so a column
      TexelX = Trunc(u * w) is in bounds exactly when -1 < u * w < w. */
  lemma {:induction false} TruncBoundsIff(s: real, n: nat)
    requires 0 < n
    ensures (0 <= Trunc(s) < n) <==> (-1.0 < s < n as real)
  {
    if 0.0 <= s {
      var f := s.Floor;
      assert Trunc(s) == f;
      assert f as real <= s < f as real + 1.0;
    } else {
      var f := (-s).Floor;
      assert Trunc(s) == -f;
      assert f as real <= -s < f as real + 1.0;
      assert 0 <= f;
    }
  }

  lemma FloorOfHalf(x: int)
    ensures (x as real + 0.5).Floor == x
  {
    var f := (x as real + 0.5).Floor;
    assert f as real <= x as real + 0.5 < f as real + 1.0;
  }

  /** Sample's colour: the texel at x + y * w, each channel divided by 255.
      The texture is a value: sampling cannot change it. */
  function Sample(t: Texture, uv: Vector2): (c: ColorRGB)
    requires ValidTexture(t) && InUnitSquare(uv)
    ensures InUnitRange(c)
    ensures var i := TexelIndex(t, uv);
      0 <= i < |t.texels| &&
      c.r * MaxColorValue == t.texels[i].r as real &&
      c.g * MaxColorValue == t.texels[i].g as real &&
      c.b * MaxColorValue == t.texels[i].b as real
  {
    TexelIndexInRange(t, uv);
    var texel := t.texels[TexelIndex(t, uv)];
    ColorRGB(ChannelToUnit(texel.r), ChannelToUnit(texel.g), ChannelToUnit(texel.b))
  }

  /** Sampling at the centre of texel (x, y) reads exactly that texel. */
  lemma {:induction false} SampleAtTexelCentre(t: Texture, x: nat, y: nat)
    requires ValidTexture(t) && x < t.width && y < t.height
    ensures var uv := Vector2((x as real + 0.5) / t.width as real, (y as real + 0.5) / t.height as real);
      InUnitSquare(uv) && TexelX(t, uv) == x && TexelY(t, uv) == y && TexelIndex(t, uv) == x + y * t.width
  {
    var w, h := t.width as real, t.height as real;
    var uv := Vector2((x as real + 0.5) / w, (y as real + 0.5) / h);
    CentreOfCell(x, t.width);
    CentreOfCell(y, t.height);
    FloorOfHalf(x);
    FloorOfHalf(y);
    assert TexelX(t, uv) == x;
    assert TexelY(t, uv) == y;
  }

  lemma CentreOfCell(x: nat, n: nat)
    requires x < n
    ensures var c := (x as real + 0.5) / n as real;
      0.0 <= c < 1.0 && c * n as real == x as real + 0.5
  {
    DivBelowOne(x as real + 0.5, n as real);
  }
}
