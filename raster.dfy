/**
 * The software rasterizer as values: which index triples a topology draws,
 * triangle setup (signed area, clamped bounding box, barycentric weights),
 * the depth and perspective-correct attribute interpolation, the per-pixel
 * depth test, and the whole frame as a fold over the triangles.  The
 * imperative Renderer is proved to compute exactly these values.
 */
module Raster {
  import opened Geometry
  import opened Vertices
  import opened Shading

  // ---------------------------------------------------------------- topology

  datatype PrimitiveTopology = TriangleList | TriangleStrip

  const TriangleSides: nat := 3

  /** One RenderTriangle call: the first index it reads and whether the first
      and last corner are swapped. */
  datatype TriangleStart = TriangleStart(index: nat, swap: bool)

  /** The list loop: 0, 3, 6, ... while below n, never swapped. */
  function ListStarts(n: nat): (r: seq<TriangleStart>)
    ensures forall k :: 0 <= k < |r| ==> r[k].index == TriangleSides * k && r[k].index < n && !r[k].swap
    ensures n <= TriangleSides * |r|
  {
    var count := (n + TriangleSides - 1) / TriangleSides;
    seq(count, k requires 0 <= k < count => TriangleStart(TriangleSides * k, false))
  }

  /** The strip loop with the bound `index + 2 < n`: one triangle per index,
      every odd one swapped. */
  function StripStarts(n: nat): (r: seq<TriangleStart>)
    ensures forall k :: 0 <= k < |r| ==> r[k].index == k && r[k].index + 2 < n && (r[k].swap <==> k % 2 == 1)
    ensures n <= |r| + 2
  {
    var count := if 2 <= n then n - 2 else 0;
    seq(count, k requires 0 <= k < count => TriangleStart(k, k % 2 == 1))
  }

  function TriangleStarts(topology: PrimitiveTopology, n: nat): seq<TriangleStart> {
    match topology
    case TriangleList => ListStarts(n)
    case TriangleStrip => StripStarts(n)
  }

  /** A list whose length is a multiple of three. */
  predicate TopologyFits(topology: PrimitiveTopology, n: nat) {
    topology == TriangleList ==> n % TriangleSides == 0
  }

  predicate StartsFit(starts: seq<TriangleStart>, n: nat) {
    forall k :: 0 <= k < |starts| ==> starts[k].index + 2 < n
  }

  /** Every triangle reads three indices inside the index buffer. */
  lemma {:induction false} StartsReadInBounds(topology: PrimitiveTopology, n: nat)
    requires TopologyFits(topology, n)
    ensures StartsFit(TriangleStarts(topology, n), n)
  {
    var starts := TriangleStarts(topology, n);
    if topology == TriangleList {
      forall k | 0 <= k < |starts|
        ensures starts[k].index + 2 < n
      {
        assert k < n / 3;
        assert starts[k].index == 3 * k;
      }
    }
  }

  /** In a list every index belongs to exactly one triangle: the k-th reads
      indices 3k, 3k + 1 and 3k + 2. */
  lemma {:induction false} ListStartsPartition(n: nat, i: nat)
    requires n % TriangleSides == 0 && i < n
    ensures var s := ListStarts(n);
      i / 3 < |s| && s[i / 3].index <= i < s[i / 3].index + 3
    ensures var s := ListStarts(n);
      forall k :: 0 <= k < |s| && s[k].index <= i < s[k].index + 3 ==> k == i / 3
  {
    var s := ListStarts(n);
    assert |s| == n / 3;
    assert s[i / 3].index == 3 * (i / 3);
    forall k | 0 <= k < |s| && s[k].index <= i < s[k].index + 3
      ensures k == i / 3
    {
      assert s[k].index == 3 * k;
      assert 3 * k <= i < 3 * k + 3;
    }
  }

  /** Successive strip triangles start one index apart, so they share two
      indices, and alternate between swapped and natural order. */
  lemma StripStartsAlternate(n: nat)
    ensures 2 <= n ==> |StripStarts(n)| == n - 2
    ensures var s := StripStarts(n);
      forall k :: 0 <= k < |s| - 1 ==> s[k + 1].index == s[k].index + 1 && s[k + 1].swap != s[k].swap
    ensures |StripStarts(n)| == 0 || !StripStarts(n)[0].swap
  {
  }

  /** The strip loop's bound as written: `size() - 2` on an unsigned 64-bit size. */
  function StripLoopBoundAsWritten(n: nat): nat
    requires n < 0x1_0000_0000_0000_0000
  {
    (n - 2) % 0x1_0000_0000_0000_0000
  }

  /** With fewer than two indices the unsigned subtraction wraps around: the
      loop runs, and its first triangle reads index 2, past the end. */
  lemma StripBoundUnderflows(n: nat)
    requires n < 2
    ensures StripLoopBoundAsWritten(n) >= 0xFFFF_FFFF_FFFF_FFFE
    ensures 0 < StripLoopBoundAsWritten(n) && 0 + 2 >= n
    ensures |StripStarts(n)| == 0
  {
  }

  /** Where no wrap-around happens the bound as written is the triangle count. */
  lemma StripBoundAgreesFromTwo(n: nat)
    requires 2 <= n < 0x1_0000_0000_0000_0000
    ensures StripLoopBoundAsWritten(n) == |StripStarts(n)|
  {
  }

  /** The three vertex indices of a triangle: first and last exchanged when swapped. */
  function TriangleIndices(indices: seq<nat>, s: TriangleStart): (r: (nat, nat, nat))
    requires s.index + 2 < |indices|
    ensures !s.swap ==> r == (indices[s.index], indices[s.index + 1], indices[s.index + 2])
    ensures s.swap ==> r == (indices[s.index + 2], indices[s.index + 1], indices[s.index])
  {
    var b := if s.swap then 1 else 0;
    (indices[s.index + 2 * b], indices[s.index + 1], indices[s.index + (1 - b) * 2])
  }

  /** A triangle naming one vertex twice is skipped. */
  predicate Degenerate(i0: nat, i1: nat, i2: nat) {
    i0 == i1 || i1 == i2 || i2 == i0
  }

  // ------------------------------------------------------------ triangle setup

  /** A corner: the transformed vertex and its pixel-space position. */
  datatype Corner = Corner(vertex: VertexOut, screen: Vector2)
  datatype Triangle = Triangle(c0: Corner, c1: Corner, c2: Corner)

  /** The signed area term: cross(v1 - v0, v2 - v1). */
  function Area(t: Triangle): real {
    Cross2(Sub2(t.c1.screen, t.c0.screen), Sub2(t.c2.screen, t.c1.screen))
  }

  /** A pixel rectangle [startX, endX) x [startY, endY). */
  datatype Box = Box(startX: int, endX: int, startY: int, endY: int)

  predicate InBox(b: Box, x: int, y: int) {
    b.startX <= x < b.endX && b.startY <= y < b.endY
  }

  const Margin: real := 1.0

  function MinX(t: Triangle): real { Min(t.c0.screen.x, Min(t.c1.screen.x, t.c2.screen.x)) }
  function MaxX(t: Triangle): real { Max(t.c0.screen.x, Max(t.c1.screen.x, t.c2.screen.x)) }
  function MinY(t: Triangle): real { Min(t.c0.screen.y, Min(t.c1.screen.y, t.c2.screen.y)) }
  function MaxY(t: Triangle): real { Max(t.c0.screen.y, Max(t.c1.screen.y, t.c2.screen.y)) }

  /** The corners' extent grown by one pixel, clamped to the buffer and cast to int.
      The box lies inside the buffer. */
  function BoundingBox(t: Triangle, width: nat, height: nat): (b: Box)
    ensures 0 <= b.startX <= b.endX <= width && 0 <= b.startY <= b.endY <= height
  {
    var w, h := width as real, height as real;
    var left, right := Clamp(MinX(t) - Margin, 0.0, w), Clamp(MaxX(t) + Margin, 0.0, w);
    var top, bottom := Clamp(MinY(t) - Margin, 0.0, h), Clamp(MaxY(t) + Margin, 0.0, h);
    ClampMonotone(MinX(t) - Margin, MaxX(t) + Margin, 0.0, w);
    ClampMonotone(MinY(t) - Margin, MaxY(t) + Margin, 0.0, h);
    TruncNonNegative(left);
    TruncNonNegative(right);
    TruncNonNegative(top);
    TruncNonNegative(bottom);
    Box(Trunc(left), Trunc(right), Trunc(top), Trunc(bottom))
  }

  /** The three normalised sub-areas of a point. */
  datatype Weights = Weights(w0: real, w1: real, w2: real)

  function SubArea0(t: Triangle, p: Vector2): real { Cross2(Sub2(p, t.c1.screen), Sub2(t.c1.screen, t.c2.screen)) }
  function SubArea1(t: Triangle, p: Vector2): real { Cross2(Sub2(p, t.c2.screen), Sub2(t.c2.screen, t.c0.screen)) }
  function SubArea2(t: Triangle, p: Vector2): real { Cross2(Sub2(p, t.c0.screen), Sub2(t.c0.screen, t.c1.screen)) }

  /** Each sub-area times the reciprocal of the whole area. */
  function BarycentricWeights(t: Triangle, p: Vector2): Weights
    requires Area(t) != 0.0
  {
    var invArea := 1.0 / Area(t);
    Weights(SubArea0(t, p) * invArea, SubArea1(t, p) * invArea, SubArea2(t, p) * invArea)
  }

  predicate Convex(w: Weights) {
    0.0 <= w.w0 && 0.0 <= w.w1 && 0.0 <= w.w2 && w.w0 + w.w1 + w.w2 == 1.0
  }

  /** The sub-areas add up to the whole area, whatever the point. */
  lemma SubAreasSum(t: Triangle, p: Vector2)
    ensures SubArea0(t, p) + SubArea1(t, p) + SubArea2(t, p) == Area(t)
  {
  }

  lemma {:induction false} WeightsSumToOne(t: Triangle, p: Vector2)
    requires Area(t) != 0.0
    ensures var w := BarycentricWeights(t, p); w.w0 + w.w1 + w.w2 == 1.0
  {
    var inv := 1.0 / Area(t);
    SubAreasSum(t, p);
    assert SubArea0(t, p) * inv + SubArea1(t, p) * inv + SubArea2(t, p) * inv
        == (SubArea0(t, p) + SubArea1(t, p) + SubArea2(t, p)) * inv;
  }

  /** Sub-areas weighting the corners give area times the point. */
  lemma SubAreasReconstructX(t: Triangle, p: Vector2)
    ensures SubArea0(t, p) * t.c0.screen.x + SubArea1(t, p) * t.c1.screen.x + SubArea2(t, p) * t.c2.screen.x
         == Area(t) * p.x
  {
  }

  lemma SubAreasReconstructY(t: Triangle, p: Vector2)
    ensures SubArea0(t, p) * t.c0.screen.y + SubArea1(t, p) * t.c1.screen.y + SubArea2(t, p) * t.c2.screen.y
         == Area(t) * p.y
  {
  }

  /** The weights are the point's barycentric coordinates: weighting the
      corners by them gives the point back. */
  lemma {:induction false} WeightsReconstructPoint(t: Triangle, p: Vector2)
    requires Area(t) != 0.0
    ensures var w := BarycentricWeights(t, p);
      w.w0 * t.c0.screen.x + w.w1 * t.c1.screen.x + w.w2 * t.c2.screen.x == p.x &&
      w.w0 * t.c0.screen.y + w.w1 * t.c1.screen.y + w.w2 * t.c2.screen.y == p.y
  {
    var a := Area(t);
    var inv := 1.0 / a;
    var (s0, s1, s2) := (SubArea0(t, p), SubArea1(t, p), SubArea2(t, p));
    SubAreasReconstructX(t, p);
    SubAreasReconstructY(t, p);
    assert (s0 * inv) * t.c0.screen.x + (s1 * inv) * t.c1.screen.x + (s2 * inv) * t.c2.screen.x
        == inv * (s0 * t.c0.screen.x + s1 * t.c1.screen.x + s2 * t.c2.screen.x);
    assert (s0 * inv) * t.c0.screen.y + (s1 * inv) * t.c1.screen.y + (s2 * inv) * t.c2.screen.y
        == inv * (s0 * t.c0.screen.y + s1 * t.c1.screen.y + s2 * t.c2.screen.y);
    CancelReciprocal(a, p.x);
    CancelReciprocal(a, p.y);
  }

  /** At a corner the weights single that corner out. */
  lemma {:induction false} WeightsAtFirstCorner(t: Triangle)
    requires Area(t) != 0.0
    ensures BarycentricWeights(t, t.c0.screen) == Weights(1.0, 0.0, 0.0)
  {
    var inv := 1.0 / Area(t);
    assert SubArea0(t, t.c0.screen) == Area(t);
    assert SubArea1(t, t.c0.screen) == 0.0;
    assert SubArea2(t, t.c0.screen) == 0.0;
    assert Area(t) * inv == 1.0;
  }

  /** The point-in-triangle test: a non-degenerate area and every normalised
      sub-area non-negative, edges included. */
  predicate Covered(t: Triangle, p: Vector2) {
    Area(t) != 0.0 &&
    var w := BarycentricWeights(t, p);
    0.0 <= w.w0 && 0.0 <= w.w1 && 0.0 <= w.w2
  }

  /** A pixel is covered exactly when its weights lie in [0, 1] (they always sum to 1). */
  lemma {:induction false} CoveredIffConvex(t: Triangle, p: Vector2)
    requires Area(t) != 0.0
    ensures Covered(t, p) <==> Convex(BarycentricWeights(t, p))
    ensures Covered(t, p) ==> var w := BarycentricWeights(t, p); w.w0 <= 1.0 && w.w1 <= 1.0 && w.w2 <= 1.0
  {
    WeightsSumToOne(t, p);
  }

  lemma MulMonotone(w: real, a: real, b: real)
    requires 0.0 <= w && a <= b
    ensures w * a <= w * b
  {
    assert w * b - w * a == w * (b - a);
  }

  /** A convex combination lies between the smallest and largest value. */
  lemma {:induction false} ConvexBetween(w: Weights, a: real, b: real, c: real)
    requires Convex(w)
    ensures Min(a, Min(b, c)) <= w.w0 * a + w.w1 * b + w.w2 * c <= Max(a, Max(b, c))
  {
    ConvexAtLeast(w, a, b, c, Min(a, Min(b, c)));
    ConvexAtMost(w, a, b, c, Max(a, Max(b, c)));
  }

  lemma ConvexAtLeast(w: Weights, a: real, b: real, c: real, lo: real)
    requires Convex(w) && lo <= a && lo <= b && lo <= c
    ensures lo <= w.w0 * a + w.w1 * b + w.w2 * c
  {
    MulMonotone(w.w0, lo, a);
    MulMonotone(w.w1, lo, b);
    MulMonotone(w.w2, lo, c);
    SumOfScaled(w, lo);
    var x0, x1, x2 := w.w0 * a, w.w1 * b, w.w2 * c;
    var y0, y1, y2 := w.w0 * lo, w.w1 * lo, w.w2 * lo;
    assert y0 <= x0 && y1 <= x1 && y2 <= x2;
    assert y0 + y1 + y2 == lo;
  }

  lemma ConvexAtMost(w: Weights, a: real, b: real, c: real, hi: real)
    requires Convex(w) && a <= hi && b <= hi && c <= hi
    ensures w.w0 * a + w.w1 * b + w.w2 * c <= hi
  {
    MulMonotone(w.w0, a, hi);
    MulMonotone(w.w1, b, hi);
    MulMonotone(w.w2, c, hi);
    SumOfScaled(w, hi);
    var x0, x1, x2 := w.w0 * a, w.w1 * b, w.w2 * c;
    var y0, y1, y2 := w.w0 * hi, w.w1 * hi, w.w2 * hi;
    assert x0 <= y0 && x1 <= y1 && x2 <= y2;
    assert y0 + y1 + y2 == hi;
  }

  lemma SumOfScaled(w: Weights, v: real)
    requires w.w0 + w.w1 + w.w2 == 1.0
    ensures w.w0 * v + w.w1 * v + w.w2 * v == v
  {
    assert w.w0 * v + w.w1 * v + w.w2 * v == (w.w0 + w.w1 + w.w2) * v;
  }

  lemma {:induction false} BoxContainsAxis(lo: real, hi: real, x: int, n: nat)
    requires lo <= x as real <= hi && 0 <= x < n
    ensures Trunc(Clamp(lo - Margin, 0.0, n as real)) <= x < Trunc(Clamp(hi + Margin, 0.0, n as real))
  {
    var l, r := Clamp(lo - Margin, 0.0, n as real), Clamp(hi + Margin, 0.0, n as real);
    TruncNonNegative(l);
    TruncNonNegative(r);
    assert l <= x as real;
    if hi + Margin <= n as real {
      assert r == hi + Margin;
    }
  }

  /** One axis of the box on an in-buffer coordinate x: the clamped, truncated
      edges admit x exactly when x is above lo less two and at most hi. */
  lemma {:induction false} BoxAxisIff(lo: real, hi: real, x: int, n: nat)
    requires 0 <= x < n
    ensures Trunc(Clamp(lo - Margin, 0.0, n as real)) <= x < Trunc(Clamp(hi + Margin, 0.0, n as real))
        <==> lo - Margin - 1.0 < x as real && x as real <= hi
  {
    var l, r := Clamp(lo - Margin, 0.0, n as real), Clamp(hi + Margin, 0.0, n as real);
    TruncNonNegative(l);
    TruncNonNegative(r);
    assert Trunc(l) <= x <==> l < x as real + 1.0;
    assert x < Trunc(r) <==> x as real + 1.0 <= r;
  }

  /** The box is the corners' extent grown by one pixel: an in-buffer column
      lies in it exactly when it is above MinX - 2 and at most MaxX, and a row
      exactly when it is above MinY - 2 and at most MaxY. */
  lemma {:induction false} BoundingBoxIsExtent(t: Triangle, width: nat, height: nat, x: int, y: int)
    requires 0 <= x < width && 0 <= y < height
    ensures var b := BoundingBox(t, width, height);
      b.startX <= x < b.endX <==> MinX(t) - 2.0 < x as real && x as real <= MaxX(t)
    ensures var b := BoundingBox(t, width, height);
      b.startY <= y < b.endY <==> MinY(t) - 2.0 < y as real && y as real <= MaxY(t)
  {
    BoxAxisIff(MinX(t), MaxX(t), x, width);
    BoxAxisIff(MinY(t), MaxY(t), y, height);
  }

  /** A covered point lies within the corners' extent. */
  lemma {:induction false} CoveredWithinExtentX(t: Triangle, p: Vector2)
    requires Covered(t, p)
    ensures MinX(t) <= p.x <= MaxX(t)
  {
    var w := BarycentricWeights(t, p);
    CoveredIffConvex(t, p);
    WeightsReconstructPoint(t, p);
    ConvexBetween(w, t.c0.screen.x, t.c1.screen.x, t.c2.screen.x);
  }

  lemma {:induction false} CoveredWithinExtentY(t: Triangle, p: Vector2)
    requires Covered(t, p)
    ensures MinY(t) <= p.y <= MaxY(t)
  {
    var w := BarycentricWeights(t, p);
    CoveredIffConvex(t, p);
    WeightsReconstructPoint(t, p);
    ConvexBetween(w, t.c0.screen.y, t.c1.screen.y, t.c2.screen.y);
  }

  /** No covered pixel of the buffer lies outside the bounding box, so the
      box loop misses none of the triangle's pixels. */
  lemma {:induction false} CoveredPixelInBox(t: Triangle, x: int, y: int, width: nat, height: nat)
    requires 0 <= x < width && 0 <= y < height
    requires Covered(t, Vector2(x as real, y as real))
    ensures InBox(BoundingBox(t, width, height), x, y)
  {
    CoveredWithinExtentX(t, Vector2(x as real, y as real));
    CoveredWithinExtentY(t, Vector2(x as real, y as real));
    BoxContainsAxis(MinX(t), MaxX(t), x, width);
    BoxContainsAxis(MinY(t), MaxY(t), y, height);
  }

  // ---------------------------------------------------------- interpolation

  /** A vertex in front of the camera: positive clip w and positive depth. */
  predicate InFront(v: VertexOut) {
    0.0 < v.position.z && 0.0 < v.position.w
  }

  predicate TriangleInFront(t: Triangle) {
    InFront(t.c0.vertex) && InFront(t.c1.vertex) && InFront(t.c2.vertex)
  }

  lemma {:induction false} ReciprocalBlendPositive(w: Weights, a: real, b: real, c: real)
    requires Convex(w) && 0.0 < a && 0.0 < b && 0.0 < c
    ensures 0.0 < w.w0 * (1.0 / a) + w.w1 * (1.0 / b) + w.w2 * (1.0 / c)
  {
    var m := Min(1.0 / a, Min(1.0 / b, 1.0 / c));
    ConvexBetween(w, 1.0 / a, 1.0 / b, 1.0 / c);
    assert 0.0 < m;
  }

  /** The weighted sum of reciprocals the source inverts, never zero. */
  function ReciprocalBlend(w: Weights, a: real, b: real, c: real): (s: real)
    requires Convex(w) && 0.0 < a && 0.0 < b && 0.0 < c
    ensures 0.0 < s
  {
    ReciprocalBlendPositive(w, a, b, c);
    w.w0 * (1.0 / a) + w.w1 * (1.0 / b) + w.w2 * (1.0 / c)
  }

  /** The interpolated depth: 1 / (w0 / z0 + w1 / z1 + w2 / z2). */
  function InterpolatedDepth(t: Triangle, w: Weights): (z: real)
    requires TriangleInFront(t) && Convex(w)
    ensures 0.0 < z
  {
    1.0 / ReciprocalBlend(w, t.c0.vertex.position.z, t.c1.vertex.position.z, t.c2.vertex.position.z)
  }

  /** The interpolated clip w, the same harmonic blend of the corners' w. */
  function InterpolatedW(t: Triangle, w: Weights): (vw: real)
    requires TriangleInFront(t) && Convex(w)
    ensures 0.0 < vw
  {
    1.0 / ReciprocalBlend(w, t.c0.vertex.position.w, t.c1.vertex.position.w, t.c2.vertex.position.w)
  }

  lemma ReciprocalAntitone(a: real, b: real)
    requires 0.0 < a <= b
    ensures 1.0 / b <= 1.0 / a
  {
    assert 1.0 / a - 1.0 / b == (b - a) / (a * b);
  }

  /** The harmonic blend of positive values lies between the smallest and the largest. */
  lemma {:induction false} HarmonicBetween(w: Weights, a: real, b: real, c: real)
    requires Convex(w) && 0.0 < a && 0.0 < b && 0.0 < c
    ensures Min(a, Min(b, c)) <= 1.0 / ReciprocalBlend(w, a, b, c) <= Max(a, Max(b, c))
  {
    HarmonicAtLeast(w, a, b, c, Min(a, Min(b, c)));
    HarmonicAtMost(w, a, b, c, Max(a, Max(b, c)));
  }

  lemma {:induction false} HarmonicAtLeast(w: Weights, a: real, b: real, c: real, lo: real)
    requires Convex(w) && 0.0 < lo <= a && lo <= b && lo <= c
    ensures lo <= 1.0 / ReciprocalBlend(w, a, b, c)
  {
    var s := ReciprocalBlend(w, a, b, c);
    ReciprocalAntitone(lo, a);
    ReciprocalAntitone(lo, b);
    ReciprocalAntitone(lo, c);
    ConvexAtMost(w, 1.0 / a, 1.0 / b, 1.0 / c, 1.0 / lo);
    ReciprocalAntitone(s, 1.0 / lo);
    ReciprocalOfReciprocal(lo);
  }

  lemma {:induction false} HarmonicAtMost(w: Weights, a: real, b: real, c: real, hi: real)
    requires Convex(w) && 0.0 < a <= hi && 0.0 < b <= hi && 0.0 < c <= hi
    ensures 1.0 / ReciprocalBlend(w, a, b, c) <= hi
  {
    var s := ReciprocalBlend(w, a, b, c);
    ReciprocalAntitone(a, hi);
    ReciprocalAntitone(b, hi);
    ReciprocalAntitone(c, hi);
    ConvexAtLeast(w, 1.0 / a, 1.0 / b, 1.0 / c, 1.0 / hi);
    assert 0.0 < 1.0 / hi;
    ReciprocalAntitone(1.0 / hi, s);
    ReciprocalOfReciprocal(hi);
  }

  /** The interpolated depth never leaves the range of the corner depths, and
      a triangle at one depth interpolates to exactly that depth. */
  lemma {:induction false} DepthBetweenCorners(t: Triangle, w: Weights)
    requires TriangleInFront(t) && Convex(w)
    ensures var z0, z1, z2 := t.c0.vertex.position.z, t.c1.vertex.position.z, t.c2.vertex.position.z;
      Min(z0, Min(z1, z2)) <= InterpolatedDepth(t, w) <= Max(z0, Max(z1, z2))
  {
    HarmonicBetween(w, t.c0.vertex.position.z, t.c1.vertex.position.z, t.c2.vertex.position.z);
  }

  /** Perspective-correct interpolation of one attribute component: each
      corner's value weighted and divided by its w, the sum scaled by the
      interpolated w. */
  function PerspectiveComponent(t: Triangle, w: Weights, x0: real, x1: real, x2: real): real
    requires TriangleInFront(t) && Convex(w)
  {
    var w0, w1, w2 := t.c0.vertex.position.w, t.c1.vertex.position.w, t.c2.vertex.position.w;
    InterpolatedW(t, w) * ((1.0 / w0) * (w.w0 * x0) + (1.0 / w1) * (w.w1 * x1) + (1.0 / w2) * (w.w2 * x2))
  }

  /** The interpolated uv, component by component. */
  function Perspective2(t: Triangle, w: Weights, a0: Vector2, a1: Vector2, a2: Vector2): Vector2
    requires TriangleInFront(t) && Convex(w)
  {
    Vector2(PerspectiveComponent(t, w, a0.x, a1.x, a2.x), PerspectiveComponent(t, w, a0.y, a1.y, a2.y))
  }

  /** The interpolated normal, tangent or view direction, component by component. */
  function Perspective3(t: Triangle, w: Weights, a0: Vector3, a1: Vector3, a2: Vector3): Vector3
    requires TriangleInFront(t) && Convex(w)
  {
    Vector3(PerspectiveComponent(t, w, a0.x, a1.x, a2.x), PerspectiveComponent(t, w, a0.y, a1.y, a2.y),
            PerspectiveComponent(t, w, a0.z, a1.z, a2.z))
  }

  /** With one common w the perspective correction cancels: the result is the
      plain weighted sum. */
  lemma {:induction false} EqualWIsAffine(t: Triangle, w: Weights, x0: real, x1: real, x2: real)
    requires TriangleInFront(t) && Convex(w)
    requires t.c0.vertex.position.w == t.c1.vertex.position.w == t.c2.vertex.position.w
    ensures PerspectiveComponent(t, w, x0, x1, x2) == w.w0 * x0 + w.w1 * x1 + w.w2 * x2
  {
    CommonWInterpolatesToIt(t, w);
    ComponentAffine(t.c0.vertex.position.w, w, x0, x1, x2);
  }

  lemma {:induction false} EqualWIsAffine2(t: Triangle, w: Weights, a0: Vector2, a1: Vector2, a2: Vector2)
    requires TriangleInFront(t) && Convex(w)
    requires t.c0.vertex.position.w == t.c1.vertex.position.w == t.c2.vertex.position.w
    ensures Perspective2(t, w, a0, a1, a2) == Add2(Add2(Scale2(w.w0, a0), Scale2(w.w1, a1)), Scale2(w.w2, a2))
  {
    EqualWIsAffine(t, w, a0.x, a1.x, a2.x);
    EqualWIsAffine(t, w, a0.y, a1.y, a2.y);
  }

  lemma {:induction false} EqualWIsAffine3(t: Triangle, w: Weights, a0: Vector3, a1: Vector3, a2: Vector3)
    requires TriangleInFront(t) && Convex(w)
    requires t.c0.vertex.position.w == t.c1.vertex.position.w == t.c2.vertex.position.w
    ensures Perspective3(t, w, a0, a1, a2) == Add3(Add3(Scale3(w.w0, a0), Scale3(w.w1, a1)), Scale3(w.w2, a2))
  {
    EqualWIsAffine(t, w, a0.x, a1.x, a2.x);
    EqualWIsAffine(t, w, a0.y, a1.y, a2.y);
    EqualWIsAffine(t, w, a0.z, a1.z, a2.z);
  }

  /** Corners sharing one w interpolate to that w. */
  lemma {:induction false} CommonWInterpolatesToIt(t: Triangle, w: Weights)
    requires TriangleInFront(t) && Convex(w)
    requires t.c0.vertex.position.w == t.c1.vertex.position.w == t.c2.vertex.position.w
    ensures InterpolatedW(t, w) == t.c0.vertex.position.w
  {
    var c := t.c0.vertex.position.w;
    SumOfScaled(w, 1.0 / c);
    assert ReciprocalBlend(w, c, c, c) == 1.0 / c;
    ReciprocalOfReciprocal(c);
  }

  /** One component: c times the sum of (1 / c) * (w_i * x_i) is the affine sum. */
  lemma ComponentAffine(c: real, w: Weights, x0: real, x1: real, x2: real)
    requires c != 0.0
    ensures c * ((1.0 / c) * (w.w0 * x0) + (1.0 / c) * (w.w1 * x1) + (1.0 / c) * (w.w2 * x2))
         == w.w0 * x0 + w.w1 * x1 + w.w2 * x2
  {
    var s := w.w0 * x0 + w.w1 * x1 + w.w2 * x2;
    assert (1.0 / c) * (w.w0 * x0) + (1.0 / c) * (w.w1 * x1) + (1.0 / c) * (w.w2 * x2) == (1.0 / c) * s;
    CancelReciprocal(c, s);
  }

  /** At the first corner's weights the interpolation returns that corner's value. */
  lemma {:induction false} PerspectiveAtCorner2(t: Triangle, a0: Vector2, a1: Vector2, a2: Vector2)
    requires TriangleInFront(t)
    ensures Perspective2(t, Weights(1.0, 0.0, 0.0), a0, a1, a2) == a0
  {
    var w := Weights(1.0, 0.0, 0.0);
    var w0 := t.c0.vertex.position.w;
    assert ReciprocalBlend(w, w0, t.c1.vertex.position.w, t.c2.vertex.position.w) == 1.0 / w0;
    assert InterpolatedW(t, w) == w0;
    CancelReciprocal(w0, a0.x);
    CancelReciprocal(w0, a0.y);
  }

  /** The vertex handed to PixelShading: interpolated uv, normalised
      interpolated directions, and a depth gray or white as its colour. */
  function InterpolatePixel(t: Triangle, w: Weights, z: real, showDepth: bool,
                            normalized: Vector3 -> Vector3): (p: VertexOut)
    requires TriangleInFront(t) && Convex(w)
    ensures InUnitRange(p.color)
    ensures showDepth ==> p.color == DepthColor(z)
    ensures !showDepth ==> p.color == White
  {
    var v0, v1, v2 := t.c0.vertex, t.c1.vertex, t.c2.vertex;
    VertexOut(Vector4(0.0, 0.0, 0.0, 0.0),
              if showDepth then DepthColor(z) else White,
              Perspective2(t, w, v0.uv, v1.uv, v2.uv),
              normalized(Perspective3(t, w, v0.normal, v1.normal, v2.normal)),
              normalized(Perspective3(t, w, v0.tangent, v1.tangent, v2.tangent)),
              normalized(Perspective3(t, w, v0.viewDirection, v1.viewDirection, v2.viewDirection)))
  }

  // ---------------------------------------------------------- one pixel

  /** One pixel of both buffers. */
  datatype Cell = Cell(depth: real, color: Pixel)

  /** The modes RenderTriangle and PixelShading read. */
  datatype Config = Config(lightingMode: LightingMode, normalMapEnabled: bool,
                           showDepthBuffer: bool, showBoundingBox: bool)

  /** Everything that decides a pixel's colour besides the triangle. */
  datatype Shader = Shader(config: Config, lighting: Lighting, normalized: Vector3 -> Vector3)

  ghost predicate ValidShader(sh: Shader) {
    LightingNonNegative(sh.lighting)
  }

  /** The coloured pixel of a covered point at depth z. */
  function ShadeAt(sh: Shader, t: Triangle, w: Weights, z: real): Pixel
    requires ValidShader(sh) && TriangleInFront(t) && Convex(w)
  {
    var pixel := InterpolatePixel(t, w, z, sh.config.showDepthBuffer, sh.normalized);
    ShadePixel(sh.config.lightingMode, sh.lighting, pixel, sh.config.normalMapEnabled, sh.config.showDepthBuffer)
  }

  /** The interpolated depth triangle t has at pixel (x, y), when it covers it. */
  function DepthAt(t: Triangle, x: int, y: int): real
    requires TriangleInFront(t) && Covered(t, Vector2(x as real, y as real))
  {
    var p := Vector2(x as real, y as real);
    CoveredIffConvex(t, p);
    InterpolatedDepth(t, BarycentricWeights(t, p))
  }

  /** The colour triangle t gives pixel (x, y), when it covers it. */
  function ColorAt(sh: Shader, t: Triangle, x: int, y: int): Pixel
    requires ValidShader(sh) && TriangleInFront(t) && Covered(t, Vector2(x as real, y as real))
  {
    var p := Vector2(x as real, y as real);
    CoveredIffConvex(t, p);
    ShadeAt(sh, t, BarycentricWeights(t, p), DepthAt(t, x, y))
  }

  /** What one box pixel becomes: painted white in box mode (depth untouched);
      otherwise, if covered and not behind the stored depth (a tie passes),
      the new depth and colour; else unchanged. */
  function PixelUpdate(sh: Shader, t: Triangle, x: int, y: int, cell: Cell): (r: Cell)
    requires ValidShader(sh) && TriangleInFront(t)
    ensures r.depth <= cell.depth
  {
    if sh.config.showBoundingBox then
      Cell(cell.depth, WhitePixel)
    else if !Covered(t, Vector2(x as real, y as real)) then
      cell
    else if cell.depth < DepthAt(t, x, y) then
      cell
    else
      Cell(DepthAt(t, x, y), ColorAt(sh, t, x, y))
  }

  /** The depth test: a covered pixel takes the triangle's depth exactly when
      that depth is not behind the stored one. */
  lemma DepthTestIff(sh: Shader, t: Triangle, x: int, y: int, cell: Cell)
    requires ValidShader(sh) && TriangleInFront(t) && !sh.config.showBoundingBox
    requires Covered(t, Vector2(x as real, y as real))
    ensures PixelUpdate(sh, t, x, y, cell) == Cell(DepthAt(t, x, y), ColorAt(sh, t, x, y))
        <==> DepthAt(t, x, y) <= cell.depth
    ensures DepthAt(t, x, y) > cell.depth ==> PixelUpdate(sh, t, x, y, cell) == cell
  {
  }

  /** Outside box mode a pixel the triangle does not cover keeps its depth and colour. */
  lemma UncoveredPixelUnchanged(sh: Shader, t: Triangle, x: int, y: int, cell: Cell)
    requires ValidShader(sh) && TriangleInFront(t) && !sh.config.showBoundingBox
    requires !Covered(t, Vector2(x as real, y as real))
    ensures PixelUpdate(sh, t, x, y, cell) == cell
  {
  }

  /** Two triangles covering a pixel at different depths leave the nearer one's
      depth and colour, whichever is drawn first. */
  lemma OcclusionIsOrderIndependent(sh: Shader, a: Triangle, b: Triangle, x: int, y: int, cell: Cell)
    requires ValidShader(sh) && TriangleInFront(a) && TriangleInFront(b) && !sh.config.showBoundingBox
    requires Covered(a, Vector2(x as real, y as real)) && Covered(b, Vector2(x as real, y as real))
    requires DepthAt(a, x, y) < DepthAt(b, x, y) <= cell.depth
    ensures PixelUpdate(sh, b, x, y, PixelUpdate(sh, a, x, y, cell)) == Cell(DepthAt(a, x, y), ColorAt(sh, a, x, y))
    ensures PixelUpdate(sh, a, x, y, PixelUpdate(sh, b, x, y, cell)) == Cell(DepthAt(a, x, y), ColorAt(sh, a, x, y))
  {
  }

  /** At equal depth the later triangle wins. */
  lemma EqualDepthLaterWins(sh: Shader, a: Triangle, b: Triangle, x: int, y: int, cell: Cell)
    requires ValidShader(sh) && TriangleInFront(a) && TriangleInFront(b) && !sh.config.showBoundingBox
    requires Covered(a, Vector2(x as real, y as real)) && Covered(b, Vector2(x as real, y as real))
    requires DepthAt(a, x, y) == DepthAt(b, x, y) <= cell.depth
    ensures PixelUpdate(sh, b, x, y, PixelUpdate(sh, a, x, y, cell)) == Cell(DepthAt(b, x, y), ColorAt(sh, b, x, y))
  {
  }

  // ---------------------------------------------------------- one triangle

  /** The column and row of buffer index i: i % width and i / width. */
  lemma {:induction false} RowMajorIndex(x: int, y: int, width: nat, height: nat)
    requires 0 <= x < width && 0 <= y < height
    ensures 0 <= x + y * width < width * height
    ensures (x + y * width) % width == x && (x + y * width) / width == y
  {
    assert y * width <= (height - 1) * width by {
      MulMonotoneInt(width, y, height - 1);
    }
    assert (height - 1) * width == height * width - width;
    DivModUnique(x + y * width, width, x, y);
  }

  lemma MulMonotoneInt(w: nat, a: int, b: int)
    requires a <= b
    ensures a * w <= b * w
  {
    assert b * w - a * w == (b - a) * w;
  }

  lemma {:induction false} DivModUnique(i: int, w: nat, x: int, y: int)
    requires 0 <= x < w && i == x + y * w
    ensures i % w == x && i / w == y
  {
    var q, r := i / w, i % w;
    assert i == q * w + r && 0 <= r < w;
    assert (y - q) * w == r - x;
    if y - q > 0 {
      MulMonotoneInt(w, 1, y - q);
      assert false;
    } else if y - q < 0 {
      MulMonotoneInt(w, y - q, -1);
      assert false;
    }
  }

  /** What buffer cell i becomes when triangle t is drawn. */
  function TriangleCell(sh: Shader, t: Triangle, width: nat, height: nat, i: nat, cell: Cell): (r: Cell)
    requires ValidShader(sh) && TriangleInFront(t) && 0 < width
    ensures r.depth <= cell.depth
  {
    var x, y := i % width, i / width;
    if InBox(BoundingBox(t, width, height), x, y) then PixelUpdate(sh, t, x, y, cell) else cell
  }

  /** Both buffers after RenderTriangle draws t. */
  function RasterTriangle(sh: Shader, t: Triangle, width: nat, height: nat, cells: seq<Cell>): (r: seq<Cell>)
    requires ValidShader(sh) && TriangleInFront(t) && |cells| == width * height
    ensures |r| == |cells|
    ensures forall i :: 0 <= i < |r| ==> r[i].depth <= cells[i].depth
  {
    seq(|cells|, i requires 0 <= i < |cells| => TriangleCell(sh, t, width, height, i, cells[i]))
  }

  /** Pixels outside the box keep both buffer values. */
  lemma OutsideBoxUnchanged(sh: Shader, t: Triangle, width: nat, height: nat, cells: seq<Cell>, x: int, y: int)
    requires ValidShader(sh) && TriangleInFront(t) && |cells| == width * height
    requires 0 <= x < width && 0 <= y < height && !InBox(BoundingBox(t, width, height), x, y)
    ensures 0 <= x + y * width < |cells|
    ensures RasterTriangle(sh, t, width, height, cells)[x + y * width] == cells[x + y * width]
  {
    RowMajorIndex(x, y, width, height);
  }

  /** Outside box mode one triangle changes only pixels it covers: every other
      pixel keeps both buffer values, so the footprint bounds what it draws. */
  lemma {:induction false} UncoveredUnchanged(sh: Shader, t: Triangle, width: nat, height: nat, cells: seq<Cell>, x: int, y: int)
    requires ValidShader(sh) && TriangleInFront(t) && |cells| == width * height && !sh.config.showBoundingBox
    requires 0 <= x < width && 0 <= y < height && !Covered(t, Vector2(x as real, y as real))
    ensures 0 <= x + y * width < |cells|
    ensures RasterTriangle(sh, t, width, height, cells)[x + y * width] == cells[x + y * width]
  {
    RowMajorIndex(x, y, width, height);
    UncoveredPixelUnchanged(sh, t, x, y, cells[x + y * width]);
  }

  /** In box mode every box pixel turns white and no depth changes. */
  lemma {:induction false} BoxModePaintsBox(sh: Shader, t: Triangle, width: nat, height: nat, cells: seq<Cell>, x: int, y: int)
    requires ValidShader(sh) && TriangleInFront(t) && |cells| == width * height && sh.config.showBoundingBox
    requires 0 <= x < width && 0 <= y < height
    ensures 0 <= x + y * width < |cells|
    ensures var r := RasterTriangle(sh, t, width, height, cells)[x + y * width];
      r.depth == cells[x + y * width].depth &&
      (r.color == WhitePixel <==> InBox(BoundingBox(t, width, height), x, y) || cells[x + y * width].color == WhitePixel)
  {
    RowMajorIndex(x, y, width, height);
  }

  // ---------------------------------------------------------- the frame

  /** The largest finite single-precision value, the cleared depth. */
  const MaxFloat: real := 340282346638528859811704183484516925440.0

  predicate IndicesValid(indices: seq<nat>, vertexCount: nat) {
    forall k :: 0 <= k < |indices| ==> indices[k] < vertexCount
  }

  predicate AllInFront(vs: seq<VertexOut>) {
    forall k :: 0 <= k < |vs| ==> InFront(vs[k])
  }

  /** A vertex whose clip position has positive w and z: after the divide
      it is in front of the camera. */
  predicate ClipInFront(v: Vertex, wvp: Matrix) {
    0.0 < ClipPosition(v, wvp).w && 0.0 < ClipPosition(v, wvp).z
  }

  lemma {:induction false} TransformedInFront(v: Vertex, wvp: Matrix, world: Matrix, normalized: Vector3 -> Vector3)
    requires ClipInFront(v, wvp)
    ensures InFront(TransformVertex(v, wvp, world, normalized))
  {
    var clip := ClipPosition(v, wvp);
    var o := TransformVertex(v, wvp, world, normalized);
    assert o.position.z * clip.w == clip.z;
    if o.position.z <= 0.0 {
      MulMonotone(clip.w, o.position.z, 0.0);
      assert false;
    }
  }

  /** The corners named by three vertex indices. */
  function BuildTriangle(vs: seq<VertexOut>, screen: seq<Vector2>, i0: nat, i1: nat, i2: nat): Triangle
    requires |vs| == |screen| && i0 < |vs| && i1 < |vs| && i2 < |vs|
  {
    Triangle(Corner(vs[i0], screen[i0]), Corner(vs[i1], screen[i1]), Corner(vs[i2], screen[i2]))
  }

  /** What the mesh hands the rasterizer: its transformed vertices, their
      pixel positions and its indices. */
  datatype ScreenMesh = ScreenMesh(vertices: seq<VertexOut>, screen: seq<Vector2>, indices: seq<nat>)

  predicate ValidScreenMesh(g: ScreenMesh) {
    |g.vertices| == |g.screen| && IndicesValid(g.indices, |g.vertices|) && AllInFront(g.vertices)
  }

  /** The buffers after one RenderTriangle call. */
  function TriangleStep(sh: Shader, g: ScreenMesh, width: nat, height: nat, s: TriangleStart, cells: seq<Cell>): (r: seq<Cell>)
    requires ValidShader(sh) && ValidScreenMesh(g) && s.index + 2 < |g.indices| && |cells| == width * height
    ensures |r| == |cells|
    ensures forall i :: 0 <= i < |r| ==> r[i].depth <= cells[i].depth
    ensures var (i0, i1, i2) := TriangleIndices(g.indices, s); Degenerate(i0, i1, i2) ==> r == cells
  {
    var (i0, i1, i2) := TriangleIndices(g.indices, s);
    if Degenerate(i0, i1, i2) then cells
    else RasterTriangle(sh, BuildTriangle(g.vertices, g.screen, i0, i1, i2), width, height, cells)
  }

  /** The buffers after the given triangles, drawn in order. */
  function RasterTriangles(sh: Shader, g: ScreenMesh, width: nat, height: nat,
                           starts: seq<TriangleStart>, cells: seq<Cell>): (r: seq<Cell>)
    requires ValidShader(sh) && ValidScreenMesh(g) && StartsFit(starts, |g.indices|) && |cells| == width * height
    ensures |r| == |cells|
    decreases |starts|
  {
    if |starts| == 0 then cells
    else
      var last := |starts| - 1;
      TriangleStep(sh, g, width, height, starts[last], RasterTriangles(sh, g, width, height, starts[..last], cells))
  }

  /** Drawing the next start extends the drawn prefix by one RenderTriangle call. */
  lemma RasterTrianglesExtend(sh: Shader, g: ScreenMesh, width: nat, height: nat, starts: seq<TriangleStart>,
                              k: nat, cells: seq<Cell>, current: seq<Cell>, next: seq<Cell>)
    requires ValidShader(sh) && ValidScreenMesh(g) && StartsFit(starts, |g.indices|) && |cells| == width * height
    requires k < |starts| && current == RasterTriangles(sh, g, width, height, starts[..k], cells)
    requires next == TriangleStep(sh, g, width, height, starts[k], current)
    ensures next == RasterTriangles(sh, g, width, height, starts[..k + 1], cells)
  {
    assert starts[..k + 1][..k] == starts[..k];
  }

  /** Drawing triangles never raises a depth value. */
  lemma {:induction false} DepthsNeverRise(sh: Shader, g: ScreenMesh, width: nat, height: nat,
                                           starts: seq<TriangleStart>, cells: seq<Cell>)
    requires ValidShader(sh) && ValidScreenMesh(g) && StartsFit(starts, |g.indices|) && |cells| == width * height
    ensures var r := RasterTriangles(sh, g, width, height, starts, cells);
      forall i :: 0 <= i < |r| ==> r[i].depth <= cells[i].depth
  {
    if |starts| != 0 {
      var last := |starts| - 1;
      DepthsNeverRise(sh, g, width, height, starts[..last], cells);
    }
  }

  /** In box mode the depth buffer comes out exactly as it went in. */
  lemma {:induction false} BoxModeKeepsDepths(sh: Shader, g: ScreenMesh, width: nat, height: nat,
                                              starts: seq<TriangleStart>, cells: seq<Cell>)
    requires ValidShader(sh) && ValidScreenMesh(g) && StartsFit(starts, |g.indices|) && |cells| == width * height
    requires sh.config.showBoundingBox
    ensures var r := RasterTriangles(sh, g, width, height, starts, cells);
      forall i :: 0 <= i < |r| ==> r[i].depth == cells[i].depth
  {
    if |starts| != 0 {
      var last := |starts| - 1;
      BoxModeKeepsDepths(sh, g, width, height, starts[..last], cells);
    }
  }

  /** Both buffers after ResetDepthBuffer and ClearBackground. */
  function ClearedBuffers(width: nat, height: nat, clear: Pixel): (r: seq<Cell>)
    ensures |r| == width * height
    ensures forall i :: 0 <= i < |r| ==> r[i] == Cell(MaxFloat, clear)
  {
    seq(width * height, _ => Cell(MaxFloat, clear))
  }

  /** Every vertex through the vertex stage. */
  function TransformVertices(vertices: seq<Vertex>, wvp: Matrix, world: Matrix,
                             normalized: Vector3 -> Vector3): (r: seq<VertexOut>)
    requires forall k :: 0 <= k < |vertices| ==> HasNonZeroW(vertices[k], wvp)
    ensures |r| == |vertices|
    ensures forall k :: 0 <= k < |r| ==> r[k] == TransformVertex(vertices[k], wvp, world, normalized)
  {
    seq(|vertices|, k requires 0 <= k < |vertices| => TransformVertex(vertices[k], wvp, world, normalized))
  }

  /** Every transformed vertex mapped to pixel space. */
  function ScreenPositions(vs: seq<VertexOut>, width: nat, height: nat): (r: seq<Vector2>)
    ensures |r| == |vs|
    ensures forall k :: 0 <= k < |r| ==> r[k] == NdcToScreen(vs[k].position, width, height)
  {
    seq(|vs|, k requires 0 <= k < |vs| => NdcToScreen(vs[k].position, width, height))
  }

  /** The frame's buffers: cleared, then every triangle of the topology drawn. */
  function RenderFrame(sh: Shader, g: ScreenMesh, topology: PrimitiveTopology,
                       width: nat, height: nat, clear: Pixel): (r: seq<Cell>)
    requires ValidShader(sh) && ValidScreenMesh(g) && TopologyFits(topology, |g.indices|)
    ensures |r| == width * height
    ensures forall i :: 0 <= i < |r| ==> r[i].depth <= MaxFloat
  {
    StartsReadInBounds(topology, |g.indices|);
    var starts := TriangleStarts(topology, |g.indices|);
    DepthsNeverRise(sh, g, width, height, starts, ClearedBuffers(width, height, clear));
    RasterTriangles(sh, g, width, height, starts, ClearedBuffers(width, height, clear))
  }
}
