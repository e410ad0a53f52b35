/**
 * The vertex stage of the software path: object-space vertices become
 * clip-space positions with a perspective divide, directions are moved to
 * world space, and NDC positions map to pixel space.  Vector normalisation
 * (a square root) is supplied by the caller as `normalized`.
 */
module Vertices {
  import opened Geometry

  /** An input vertex as loaded from the mesh. */
  datatype Vertex = Vertex(position: Vector3, uv: Vector2, normal: Vector3, tangent: Vector3)

  /** A transformed vertex: after the divide, position holds x/w, y/w, z/w and the clip w. */
  datatype VertexOut = VertexOut(position: Vector4, color: ColorRGB, uv: Vector2,
                                 normal: Vector3, tangent: Vector3, viewDirection: Vector3)

  const White := ColorRGB(1.0, 1.0, 1.0)

  /** The homogeneous clip-space position of v: (position, 1) * worldViewProjection. */
  function ClipPosition(v: Vertex, worldViewProjection: Matrix): Vector4 {
    TransformPoint(worldViewProjection, Vector4(v.position.x, v.position.y, v.position.z, 1.0))
  }

  predicate HasNonZeroW(v: Vertex, worldViewProjection: Matrix) {
    ClipPosition(v, worldViewProjection).w != 0.0
  }

  /** x, y and z multiplied by the reciprocal of w; w itself is kept. */
  function PerspectiveDivide(clip: Vector4): (d: Vector4)
    requires clip.w != 0.0
    ensures d.w == clip.w && d.x * clip.w == clip.x && d.y * clip.w == clip.y && d.z * clip.w == clip.z
  {
    var invW := 1.0 / clip.w;
    Vector4(clip.x * invW, clip.y * invW, clip.z * invW, clip.w)
  }

  /** One vertex through the vertex stage: x, y and z are divided by the clip w,
      w itself is kept, normal and tangent go through the world matrix's linear
      part, the view direction is the normalised pre-divide xyz, and uv is copied. */
  function TransformVertex(v: Vertex, worldViewProjection: Matrix, world: Matrix,
                           normalized: Vector3 -> Vector3): (o: VertexOut)
    requires HasNonZeroW(v, worldViewProjection)
    ensures var clip := ClipPosition(v, worldViewProjection);
      o.position == PerspectiveDivide(clip)
    ensures o.uv == v.uv && o.color == White
    ensures o.normal == TransformVector(world, v.normal) && o.tangent == TransformVector(world, v.tangent)
    ensures var clip := ClipPosition(v, worldViewProjection);
      o.viewDirection == normalized(Vector3(clip.x, clip.y, clip.z))
  {
    var clip := ClipPosition(v, worldViewProjection);
    VertexOut(PerspectiveDivide(clip), White, v.uv,
              TransformVector(world, v.normal), TransformVector(world, v.tangent),
              normalized(Vector3(clip.x, clip.y, clip.z)))
  }

  /** A translation-only world matrix leaves the transformed normal and tangent
      equal to the input's: no translation leaks into directions. */
  lemma TranslationKeepsDirections(v: Vertex, wvp: Matrix, t: Vector3, normalized: Vector3 -> Vector3)
    requires HasNonZeroW(v, wvp)
    ensures TransformVertex(v, wvp, Translation(t), normalized).normal == v.normal
    ensures TransformVertex(v, wvp, Translation(t), normalized).tangent == v.tangent
  {
    TranslationMovesPointsOnly(t, v.normal);
    TranslationMovesPointsOnly(t, v.tangent);
  }

  /** The transform the frame uses: world, then view, then projection. */
  function WorldViewProjection(world: Matrix, view: Matrix, projection: Matrix): Matrix {
    Mul(Mul(world, view), projection)
  }

  lemma {:induction false} WorldViewProjectionComposes(world: Matrix, view: Matrix, projection: Matrix, p: Vector4)
    ensures TransformPoint(WorldViewProjection(world, view, projection), p)
         == TransformPoint(projection, TransformPoint(view, TransformPoint(world, p)))
  {
    TransformPointMul(Mul(world, view), projection, p);
    TransformPointMul(world, view, p);
  }

  /** NDC x, y in [-1, 1] to pixel coordinates; NDC y points up, pixel y down. */
  function NdcToScreen(p: Vector4, width: nat, height: nat): Vector2 {
    Vector2(((p.x + 1.0) / 2.0) * width as real, ((1.0 - p.y) / 2.0) * height as real)
  }

  lemma {:induction false} NdcToScreenRange(p: Vector4, width: nat, height: nat)
    requires -1.0 <= p.x <= 1.0 && -1.0 <= p.y <= 1.0
    ensures 0.0 <= NdcToScreen(p, width, height).x <= width as real
    ensures 0.0 <= NdcToScreen(p, width, height).y <= height as real
  {
    NdcToScreenRangeX(p, width, height);
    NdcToScreenRangeY(p, width, height);
  }

  lemma NdcToScreenRangeX(p: Vector4, width: nat, height: nat)
    requires -1.0 <= p.x <= 1.0
    ensures 0.0 <= NdcToScreen(p, width, height).x <= width as real
  {
    var sx := (p.x + 1.0) / 2.0;
    UnitScaleInRange(sx, width as real);
    assert NdcToScreen(p, width, height).x == sx * width as real;
  }

  lemma NdcToScreenRangeY(p: Vector4, width: nat, height: nat)
    requires -1.0 <= p.y <= 1.0
    ensures 0.0 <= NdcToScreen(p, width, height).y <= height as real
  {
    var sy := (1.0 - p.y) / 2.0;
    UnitScaleInRange(sy, height as real);
    assert NdcToScreen(p, width, height).y == sy * height as real;
  }

  lemma UnitScaleInRange(s: real, n: real)
    requires 0.0 <= s <= 1.0 && 0.0 <= n
    ensures 0.0 <= s * n <= n
  {
    assert n - s * n == (1.0 - s) * n;
  }

  /** The top-left NDC corner (-1, 1) is pixel (0, 0) and the bottom-right
      corner (1, -1) is (width, height); a higher NDC y is a smaller pixel y. */
  lemma NdcToScreenFlipsY(a: Vector4, b: Vector4, width: nat, height: nat)
    requires a.y <= b.y && 0 < height
    ensures NdcToScreen(b, width, height).y <= NdcToScreen(a, width, height).y
    ensures NdcToScreen(Vector4(-1.0, 1.0, a.z, a.w), width, height) == Vector2(0.0, 0.0)
    ensures NdcToScreen(Vector4(1.0, -1.0, a.z, a.w), width, height) == Vector2(width as real, height as real)
  {
    var h := height as real;
    assert ((1.0 - a.y) / 2.0) * h - ((1.0 - b.y) / 2.0) * h == ((b.y - a.y) / 2.0) * h;
  }
}
