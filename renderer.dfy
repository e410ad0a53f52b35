/**
 * The software renderer's state and its frame pass.  The depth buffer and
 * the back buffer are width * height arrays written in place; the mode
 * fields are flipped and cycled by key handlers.  Every buffer-writing
 * method is proved against the value model of the Raster module.
 */
module Renderer {
  import opened Geometry
  import opened Textures
  import opened Vertices
  import opened Shading
  import opened Raster

  datatype RenderingStyle = Software | DirectX

  function RenderStyleIndex(s: RenderingStyle): nat {
    match s
    case Software => 0
    case DirectX => 1
  }

  function RenderStyleFromIndex(i: nat): RenderingStyle
    requires i < 2
  {
    if i == 0 then Software else DirectX
  }

  /** `(style + 1) % (DirectX + 1)` on the enum's integers. */
  function NextRenderStyle(s: RenderingStyle): (r: RenderingStyle)
    ensures r != s
    ensures s == Software <==> r == DirectX
  {
    RenderStyleFromIndex((RenderStyleIndex(s) + 1) % (RenderStyleIndex(DirectX) + 1))
  }

  function LightingModeIndex(m: LightingMode): nat {
    match m
    case Combined => 0
    case ObservedArea => 1
    case Diffuse => 2
    case Specular => 3
  }

  function LightingModeFromIndex(i: nat): LightingMode
    requires i < 4
  {
    if i == 0 then Combined else if i == 1 then ObservedArea else if i == 2 then Diffuse else Specular
  }

  /** `(mode + 1) % (Specular + 1)` on the enum's integers. */
  function NextLightingMode(m: LightingMode): (r: LightingMode)
    ensures m == Combined ==> r == ObservedArea
    ensures m == ObservedArea ==> r == Diffuse
    ensures m == Diffuse ==> r == Specular
    ensures m == Specular ==> r == Combined
  {
    LightingModeFromIndex((LightingModeIndex(m) + 1) % (LightingModeIndex(Specular) + 1))
  }

  /** Four steps return to the starting mode, and no fewer do. */
  lemma LightingCycleHasPeriodFour(m: LightingMode)
    ensures NextLightingMode(NextLightingMode(NextLightingMode(NextLightingMode(m)))) == m
    ensures NextLightingMode(m) != m && NextLightingMode(NextLightingMode(m)) != m
    ensures NextLightingMode(NextLightingMode(NextLightingMode(m))) != m
  {
  }

  /** Two steps return to the starting style. */
  lemma RenderStyleAlternates(s: RenderingStyle)
    ensures NextRenderStyle(NextRenderStyle(s)) == s
  {
  }

  /** Every mode field of the renderer at once. */
  datatype Modes = Modes(renderStyle: RenderingStyle, lightingMode: LightingMode, rotating: bool,
                         printFPS: bool, uniformColorEnabled: bool, normalMapEnabled: bool,
                         showDepthBuffer: bool, showBoundingBox: bool, showFire: bool)

  /** The clear colour's channels are multiplied by 100 before the byte cast. */
  const ClearScale: real := 100.0

  /** The software mesh: its vertices and indices, how the indices form
      triangles, its world matrix and the vertex stage's output. */
  class Mesh {
    var vertices: seq<Vertex>
    var indices: seq<nat>
    var primitiveTopology: PrimitiveTopology
    var worldMatrix: Matrix
    var verticesOut: seq<VertexOut>

    constructor (vertices: seq<Vertex>, indices: seq<nat>, topology: PrimitiveTopology, world: Matrix)
      ensures this.vertices == vertices && this.indices == indices
      ensures primitiveTopology == topology && worldMatrix == world && verticesOut == []
    {
      this.vertices := vertices;
      this.indices := indices;
      primitiveTopology := topology;
      worldMatrix := world;
      verticesOut := [];
    }
  }

  /** Pairs the two buffers into cells. */
  function Zip(depths: seq<real>, colors: seq<Pixel>): (r: seq<Cell>)
    requires |depths| == |colors|
    ensures |r| == |depths|
    ensures forall i :: 0 <= i < |r| ==> r[i].depth == depths[i] && r[i].color == colors[i]
  {
    seq(|depths|, i requires 0 <= i < |depths| => Cell(depths[i], colors[i]))
  }

  lemma ZipUpdate(depths: seq<real>, colors: seq<Pixel>, i: nat, c: Cell)
    requires |depths| == |colors| && i < |depths|
    ensures Zip(depths[i := c.depth], colors[i := c.color]) == Zip(depths, colors)[i := c]
  {
  }

  /** Cell i of a width-wide buffer is done once the column sweep has passed
      its column, or the row sweep of its column has passed its row. */
  predicate Done(width: nat, i: nat, px: int, py: int)
    requires 0 < width
  {
    i % width < px || (i % width == px && i / width < py)
  }

  /** The buffers part-way through RenderTriangle's sweep: done cells drawn,
      the others as before. */
  ghost function Swept(sh: Shader, t: Triangle, width: nat, height: nat, before: seq<Cell>, px: int, py: int): (r: seq<Cell>)
    requires ValidShader(sh) && TriangleInFront(t) && |before| == width * height && 0 < width
    ensures |r| == |before|
  {
    seq(|before|, i requires 0 <= i < |before| =>
      if Done(width, i, px, py) then TriangleCell(sh, t, width, height, i, before[i]) else before[i])
  }

  /** Columns left of the box are outside it. */
  lemma SweepBegins(sh: Shader, t: Triangle, width: nat, height: nat, before: seq<Cell>)
    requires ValidShader(sh) && TriangleInFront(t) && |before| == width * height && 0 < width
    ensures Swept(sh, t, width, height, before, BoundingBox(t, width, height).startX, -1) == before
  {
  }

  /** Rows above the box are outside it. */
  lemma ColumnBegins(sh: Shader, t: Triangle, width: nat, height: nat, before: seq<Cell>, px: int)
    requires ValidShader(sh) && TriangleInFront(t) && |before| == width * height && 0 < width
    ensures Swept(sh, t, width, height, before, px, BoundingBox(t, width, height).startY)
         == Swept(sh, t, width, height, before, px, -1)
  {
  }

  /** Rows below the box are outside it. */
  lemma ColumnEnds(sh: Shader, t: Triangle, width: nat, height: nat, before: seq<Cell>, px: int)
    requires ValidShader(sh) && TriangleInFront(t) && |before| == width * height && 0 < width
    ensures Swept(sh, t, width, height, before, px, BoundingBox(t, width, height).endY)
         == Swept(sh, t, width, height, before, px + 1, -1)
  {
  }

  /** Columns right of the box are outside it, so the finished sweep is the
      whole triangle. */
  lemma SweepEnds(sh: Shader, t: Triangle, width: nat, height: nat, before: seq<Cell>)
    requires ValidShader(sh) && TriangleInFront(t) && |before| == width * height && 0 < width
    ensures Swept(sh, t, width, height, before, BoundingBox(t, width, height).endX, -1)
         == RasterTriangle(sh, t, width, height, before)
  {
  }

  /** Updating the next box pixel of the sweep advances the sweep by one row. */
  lemma SweepAdvances(sh: Shader, t: Triangle, width: nat, height: nat, before: seq<Cell>, px: int, py: int,
                      current: seq<Cell>, next: seq<Cell>)
    requires ValidShader(sh) && TriangleInFront(t) && |before| == width * height && 0 < width
    requires 0 <= px < width && 0 <= py < height && InBox(BoundingBox(t, width, height), px, py)
    requires current == Swept(sh, t, width, height, before, px, py) && 0 <= px + py * width < |current|
    requires next == current[px + py * width := PixelUpdate(sh, t, px, py, current[px + py * width])]
    ensures next == Swept(sh, t, width, height, before, px, py + 1)
  {
    SweepStep(sh, t, width, height, before, px, py);
  }

  /** One step of the row sweep at a box pixel updates that pixel only. */
  lemma SweepStep(sh: Shader, t: Triangle, width: nat, height: nat, before: seq<Cell>, px: int, py: int)
    requires ValidShader(sh) && TriangleInFront(t) && |before| == width * height && 0 < width
    requires 0 <= px < width && 0 <= py < height && InBox(BoundingBox(t, width, height), px, py)
    ensures 0 <= px + py * width < |before|
    ensures Swept(sh, t, width, height, before, px, py)[px + py * width] == before[px + py * width]
    ensures Swept(sh, t, width, height, before, px, py + 1)
         == Swept(sh, t, width, height, before, px, py)[px + py * width := PixelUpdate(sh, t, px, py, before[px + py * width])]
  {
    RowMajorIndex(px, py, width, height);
    var k := px + py * width;
    var current := Swept(sh, t, width, height, before, px, py);
    var next := Swept(sh, t, width, height, before, px, py + 1);
    var updated := current[k := PixelUpdate(sh, t, px, py, before[k])];
    assert !Done(width, k, px, py) && Done(width, k, px, py + 1);
    forall i | 0 <= i < |before|
      ensures next[i] == updated[i]
    {
      if i != k {
        SplitIndex(i, width);
        if i % width == px && i / width == py {
          assert false;
        }
        assert Done(width, i, px, py + 1) == Done(width, i, px, py);
      }
    }
    assert next == updated;
  }

  /** An index is its column plus its row times the width. */
  lemma SplitIndex(i: int, width: nat)
    requires 0 < width
    ensures i == i % width + (i / width) * width
  {
  }

  class Renderer {
    const width: nat
    const height: nat
    const depthBuffer: array<real>
    const backBuffer: array<Pixel>
    const mesh: Mesh
    const uniformColor: ColorRGB
    const softwareColor: ColorRGB

    var renderStyle: RenderingStyle
    var lightingMode: LightingMode
    var rotating: bool
    var printFPS: bool
    var uniformColorEnabled: bool
    var normalMapEnabled: bool
    var showDepthBuffer: bool
    var showBoundingBox: bool
    var showFire: bool

    /** Both buffers hold one entry per pixel, and both clear colours are colours. */
    ghost predicate Valid()
      reads this
    {
      depthBuffer.Length == width * height && backBuffer.Length == width * height &&
      InUnitRange(uniformColor) && InUnitRange(softwareColor)
    }

    ghost function CurrentModes(): Modes
      reads this
    {
      Modes(renderStyle, lightingMode, rotating, printFPS, uniformColorEnabled,
            normalMapEnabled, showDepthBuffer, showBoundingBox, showFire)
    }

    /** The modes the rasterizer and PixelShading read. */
    function RasterConfig(): Config
      reads this
    {
      Config(lightingMode, normalMapEnabled, showDepthBuffer, showBoundingBox)
    }

    /** Both buffers, pixel by pixel. */
    ghost function Cells(): seq<Cell>
      reads this, depthBuffer, backBuffer
      requires Valid()
    {
      Zip(depthBuffer[..], backBuffer[..])
    }

    function ClearColor(): (c: ColorRGB)
      reads this
      requires Valid()
      ensures InUnitRange(c)
    {
      if uniformColorEnabled then uniformColor else softwareColor
    }

    /** Buffers of width * height pixels, the depth buffer reset, the back
        buffer black.  Rotation starts on; the other modes start as given. */
    constructor (width: nat, height: nat, mesh: Mesh, uniformColor: ColorRGB, softwareColor: ColorRGB, initial: Modes)
      requires InUnitRange(uniformColor) && InUnitRange(softwareColor)
      ensures Valid()
      ensures this.width == width && this.height == height && this.mesh == mesh
      ensures this.uniformColor == uniformColor && this.softwareColor == softwareColor
      ensures CurrentModes() == initial.(rotating := true)
      ensures fresh(depthBuffer) && fresh(backBuffer)
      ensures forall i :: 0 <= i < depthBuffer.Length ==> depthBuffer[i] == MaxFloat
      ensures forall i :: 0 <= i < backBuffer.Length ==> backBuffer[i] == Pixel(0, 0, 0)
    {
      this.width := width;
      this.height := height;
      this.mesh := mesh;
      this.uniformColor := uniformColor;
      this.softwareColor := softwareColor;
      depthBuffer := new real[width * height];
      backBuffer := new Pixel[width * height](_ => Pixel(0, 0, 0));
      renderStyle := initial.renderStyle;
      lightingMode := initial.lightingMode;
      rotating := true;
      printFPS := initial.printFPS;
      uniformColorEnabled := initial.uniformColorEnabled;
      normalMapEnabled := initial.normalMapEnabled;
      showDepthBuffer := initial.showDepthBuffer;
      showBoundingBox := initial.showBoundingBox;
      showFire := initial.showFire;
      new;
      ResetDepthBuffer();
    }

    /** Every depth entry becomes the largest float; the colours are untouched. */
    method ResetDepthBuffer()
      requires Valid()
      modifies depthBuffer
      ensures forall i :: 0 <= i < depthBuffer.Length ==> depthBuffer[i] == MaxFloat
    {
      var i := 0;
      while i < width * height
        invariant 0 <= i <= width * height
        invariant forall k :: 0 <= k < i ==> depthBuffer[k] == MaxFloat
      {
        depthBuffer[i] := MaxFloat;
        i := i + 1;
      }
    }

    /** Every back-buffer pixel becomes the selected clear colour times 100. */
    method ClearBackground()
      requires Valid()
      modifies backBuffer
      ensures forall i :: 0 <= i < backBuffer.Length ==> backBuffer[i] == PackColor(ClearColor(), ClearScale)
    {
      var clear: Pixel;
      if uniformColorEnabled {
        clear := PackColor(uniformColor, ClearScale);
      } else {
        clear := PackColor(softwareColor, ClearScale);
      }
      var i := 0;
      while i < width * height
        invariant 0 <= i <= width * height
        invariant forall k :: 0 <= k < i ==> backBuffer[k] == clear
      {
        backBuffer[i] := clear;
        i := i + 1;
      }
    }

    /** The vertex stage: the output is rebuilt from scratch, one transformed
        vertex per input vertex, in order. */
    method VertexTransformationFunction(view: Matrix, projection: Matrix, normalized: Vector3 -> Vector3)
      requires forall k :: 0 <= k < |mesh.vertices| ==>
        HasNonZeroW(mesh.vertices[k], WorldViewProjection(mesh.worldMatrix, view, projection))
      modifies mesh`verticesOut
      ensures mesh.verticesOut == TransformVertices(mesh.vertices,
        WorldViewProjection(mesh.worldMatrix, view, projection), mesh.worldMatrix, normalized)
    {
      var vertices, world := mesh.vertices, mesh.worldMatrix;
      var wvp := WorldViewProjection(world, view, projection);
      var out: seq<VertexOut> := [];
      var k := 0;
      while k < |vertices|
        invariant 0 <= k <= |vertices|
        invariant |out| == k
        invariant forall j :: 0 <= j < k ==> out[j] == TransformVertex(vertices[j], wvp, world, normalized)
      {
        var vertexOut := TransformVertex(vertices[k], wvp, world, normalized);
        out := out + [vertexOut];
        k := k + 1;
      }
      mesh.verticesOut := out;
    }

    /** The pixel-space position of every transformed vertex, in order. */
    method ScreenSpaceVertices() returns (screen: seq<Vector2>)
      ensures screen == ScreenPositions(mesh.verticesOut, width, height)
    {
      screen := [];
      var k := 0;
      while k < |mesh.verticesOut|
        invariant 0 <= k <= |mesh.verticesOut|
        invariant |screen| == k
        invariant forall j :: 0 <= j < k ==> screen[j] == NdcToScreen(mesh.verticesOut[j].position, width, height)
      {
        screen := screen + [NdcToScreen(mesh.verticesOut[k].position, width, height)];
        k := k + 1;
      }
    }

    /** Writes the shaded colour of `pixel` at one index and nowhere else. */
    method PixelShading(pixelIndex: nat, pixel: VertexOut, lighting: Lighting)
      requires Valid() && pixelIndex < backBuffer.Length
      requires LightingNonNegative(lighting) && NonNegative(pixel.color)
      modifies backBuffer
      ensures backBuffer[pixelIndex] == ShadePixel(lightingMode, lighting, pixel, normalMapEnabled, showDepthBuffer)
      ensures forall i :: 0 <= i < backBuffer.Length && i != pixelIndex ==> backBuffer[i] == old(backBuffer[i])
    {
      var finalColor := LitColor(lightingMode, lighting, pixel, normalMapEnabled);
      if showDepthBuffer {
        finalColor := AddColor(finalColor, pixel.color);
      }
      LitColorNonNegative(lightingMode, lighting, pixel, normalMapEnabled);
      finalColor := MaxToOne(finalColor);
      backBuffer[pixelIndex] := PackColor(finalColor, MaxColorValue);
    }

    /** The screen mesh the rasterizer reads. */
    ghost function ScreenMeshOf(screen: seq<Vector2>): ScreenMesh
      reads this, mesh
    {
      ScreenMesh(mesh.verticesOut, screen, mesh.indices)
    }

    /** The body of RenderTriangle's pixel loop at (px, py): white in box mode;
        otherwise, when the triangle covers the pixel and is not behind the
        stored depth, the new depth and the shaded colour. */
    method RenderPixel(t: Triangle, px: int, py: int, lighting: Lighting, normalized: Vector3 -> Vector3)
      requires Valid() && LightingNonNegative(lighting) && TriangleInFront(t)
      requires 0 <= px < width && 0 <= py < height
      modifies depthBuffer, backBuffer
      ensures 0 <= px + py * width < width * height
      ensures Cells() == old(Cells())[px + py * width :=
        PixelUpdate(Shader(RasterConfig(), lighting, normalized), t, px, py, old(Cells())[px + py * width])]
    {
      RowMajorIndex(px, py, width, height);
      var pixelIndex := px + py * width;
      ghost var r := PixelUpdate(Shader(RasterConfig(), lighting, normalized), t, px, py,
                                 Cell(depthBuffer[pixelIndex], backBuffer[pixelIndex]));
      ghost var depths, colors := depthBuffer[..], backBuffer[..];
      if showBoundingBox {
        backBuffer[pixelIndex] := WhitePixel;
      } else {
        var currentPixel := Vector2(px as real, py as real);
        if Covered(t, currentPixel) {
          CoveredIffConvex(t, currentPixel);
          var weights := BarycentricWeights(t, currentPixel);
          var interpolatedZDepth := InterpolatedDepth(t, weights);
          if !(depthBuffer[pixelIndex] < interpolatedZDepth) {
            depthBuffer[pixelIndex] := interpolatedZDepth;
            var pixel := InterpolatePixel(t, weights, interpolatedZDepth, showDepthBuffer, normalized);
            PixelShading(pixelIndex, pixel, lighting);
          }
        }
      }
      assert depthBuffer[..] == depths[pixelIndex := r.depth];
      assert backBuffer[..] == colors[pixelIndex := r.color];
      ZipUpdate(depths, colors, pixelIndex, r);
    }

    /** One triangle: skipped if it names a vertex twice, otherwise every box
        pixel updated by the depth test, and nothing outside the box. */
    method RenderTriangle(screen: seq<Vector2>, vertexIndex: nat, swapVertices: bool,
                          lighting: Lighting, normalized: Vector3 -> Vector3)
      requires Valid() && LightingNonNegative(lighting)
      requires ValidScreenMesh(ScreenMeshOf(screen)) && vertexIndex + 2 < |mesh.indices|
      modifies depthBuffer, backBuffer
      ensures Cells() == TriangleStep(Shader(RasterConfig(), lighting, normalized), ScreenMeshOf(screen),
                                      width, height, TriangleStart(vertexIndex, swapVertices), old(Cells()))
      ensures var (i0, i1, i2) := TriangleIndices(mesh.indices, TriangleStart(vertexIndex, swapVertices));
        Degenerate(i0, i1, i2) ==> Cells() == old(Cells())
    {
      ghost var sh := Shader(RasterConfig(), lighting, normalized);
      ghost var before := Cells();
      var b := if swapVertices then 1 else 0;
      var vertexIndex0 := mesh.indices[vertexIndex + 2 * b];
      var vertexIndex1 := mesh.indices[vertexIndex + 1];
      var vertexIndex2 := mesh.indices[vertexIndex + (1 - b) * 2];
      assert (vertexIndex0, vertexIndex1, vertexIndex2) == TriangleIndices(mesh.indices, TriangleStart(vertexIndex, swapVertices));
      if vertexIndex0 == vertexIndex1 || vertexIndex1 == vertexIndex2 || vertexIndex2 == vertexIndex0 {
        return;
      }
      var t := BuildTriangle(mesh.verticesOut, screen, vertexIndex0, vertexIndex1, vertexIndex2);
      RasterizeBox(t, lighting, normalized);
    }

    /** The pixel loops of RenderTriangle: column by column, row by row over
        the triangle's bounding box. */
    method RasterizeBox(t: Triangle, lighting: Lighting, normalized: Vector3 -> Vector3)
      requires Valid() && LightingNonNegative(lighting) && TriangleInFront(t)
      modifies depthBuffer, backBuffer
      ensures Cells() == RasterTriangle(Shader(RasterConfig(), lighting, normalized), t, width, height, old(Cells()))
    {
      ghost var sh := Shader(RasterConfig(), lighting, normalized);
      ghost var before := Cells();
      var box := BoundingBox(t, width, height);
      if width == 0 {
        return;
      }
      SweepBegins(sh, t, width, height, before);
      var px := box.startX;
      while px < box.endX
        invariant box.startX <= px <= box.endX
        invariant Cells() == Swept(sh, t, width, height, before, px, -1)
      {
        RasterizeColumn(t, px, lighting, normalized, before);
        px := px + 1;
      }
      SweepEnds(sh, t, width, height, before);
    }

    /** One column of RenderTriangle's sweep: the box rows of column px, top to bottom. */
    method RasterizeColumn(t: Triangle, px: int, lighting: Lighting, normalized: Vector3 -> Vector3, ghost before: seq<Cell>)
      requires Valid() && LightingNonNegative(lighting) && TriangleInFront(t) && 0 < width && |before| == width * height
      requires BoundingBox(t, width, height).startX <= px < BoundingBox(t, width, height).endX
      requires Cells() == Swept(Shader(RasterConfig(), lighting, normalized), t, width, height, before, px, -1)
      modifies depthBuffer, backBuffer
      ensures Cells() == Swept(Shader(RasterConfig(), lighting, normalized), t, width, height, before, px + 1, -1)
    {
      ghost var sh := Shader(RasterConfig(), lighting, normalized);
      var box := BoundingBox(t, width, height);
      ColumnBegins(sh, t, width, height, before, px);
      var py := box.startY;
      while py < box.endY
        invariant box.startY <= py <= box.endY
        invariant Cells() == Swept(sh, t, width, height, before, px, py)
      {
        ghost var swept := Cells();
        RenderPixel(t, px, py, lighting, normalized);
        SweepAdvances(sh, t, width, height, before, px, py, swept, Cells());
        py := py + 1;
      }
      ColumnEnds(sh, t, width, height, before, px);
    }

    /** The software frame: the vertex stage, the pixel positions, both buffers
        cleared, then every triangle of the topology drawn in order. */
    method RenderSoftware(view: Matrix, projection: Matrix, lighting: Lighting, normalized: Vector3 -> Vector3)
      requires Valid() && LightingNonNegative(lighting)
      requires TopologyFits(mesh.primitiveTopology, |mesh.indices|) && IndicesValid(mesh.indices, |mesh.vertices|)
      requires forall k :: 0 <= k < |mesh.vertices| ==>
        ClipInFront(mesh.vertices[k], WorldViewProjection(mesh.worldMatrix, view, projection))
      modifies mesh`verticesOut, depthBuffer, backBuffer
      ensures forall k :: 0 <= k < |mesh.vertices| ==>
        HasNonZeroW(mesh.vertices[k], WorldViewProjection(mesh.worldMatrix, view, projection))
      ensures mesh.verticesOut == TransformVertices(mesh.vertices,
        WorldViewProjection(mesh.worldMatrix, view, projection), mesh.worldMatrix, normalized)
      ensures ValidScreenMesh(ScreenMeshOf(ScreenPositions(mesh.verticesOut, width, height)))
      ensures Cells() == RenderFrame(Shader(RasterConfig(), lighting, normalized),
        ScreenMeshOf(ScreenPositions(mesh.verticesOut, width, height)),
        mesh.primitiveTopology, width, height, PackColor(ClearColor(), ClearScale))
    {
      ghost var wvp := WorldViewProjection(mesh.worldMatrix, view, projection);
      assert forall k :: 0 <= k < |mesh.vertices| ==> HasNonZeroW(mesh.vertices[k], wvp);
      VertexTransformationFunction(view, projection, normalized);
      forall k | 0 <= k < |mesh.verticesOut|
        ensures InFront(mesh.verticesOut[k])
      {
        TransformedInFront(mesh.vertices[k], wvp, mesh.worldMatrix, normalized);
      }
      var screen := ScreenSpaceVertices();
      ResetDepthBuffer();
      ClearBackground();
      assert Cells() == ClearedBuffers(width, height, PackColor(ClearColor(), ClearScale));
      RenderTopology(screen, lighting, normalized);
    }

    /** The topology switch of the frame. */
    method RenderTopology(screen: seq<Vector2>, lighting: Lighting, normalized: Vector3 -> Vector3)
      requires Valid() && LightingNonNegative(lighting)
      requires ValidScreenMesh(ScreenMeshOf(screen)) && TopologyFits(mesh.primitiveTopology, |mesh.indices|)
      modifies depthBuffer, backBuffer
      ensures StartsFit(TriangleStarts(mesh.primitiveTopology, |mesh.indices|), |mesh.indices|)
      ensures Cells() == RasterTriangles(Shader(RasterConfig(), lighting, normalized), ScreenMeshOf(screen),
        width, height, TriangleStarts(mesh.primitiveTopology, |mesh.indices|), old(Cells()))
    {
      match mesh.primitiveTopology {
        case TriangleList => RenderTriangleList(screen, lighting, normalized);
        case TriangleStrip => RenderTriangleStrip(screen, lighting, normalized);
      }
    }

    /** A list draws one triangle at every third index. */
    method RenderTriangleList(screen: seq<Vector2>, lighting: Lighting, normalized: Vector3 -> Vector3)
      requires Valid() && LightingNonNegative(lighting)
      requires ValidScreenMesh(ScreenMeshOf(screen)) && TopologyFits(TriangleList, |mesh.indices|)
      modifies depthBuffer, backBuffer
      ensures StartsFit(ListStarts(|mesh.indices|), |mesh.indices|)
      ensures Cells() == RasterTriangles(Shader(RasterConfig(), lighting, normalized), ScreenMeshOf(screen),
        width, height, ListStarts(|mesh.indices|), old(Cells()))
    {
      ghost var sh := Shader(RasterConfig(), lighting, normalized);
      ghost var g := ScreenMeshOf(screen);
      ghost var cleared := Cells();
      var n := |mesh.indices|;
      StartsReadInBounds(TriangleList, n);
      ghost var starts := ListStarts(n);
      ghost var k := 0;
      assert |starts| * TriangleSides == n;
      var index := 0;
      while index < n
        invariant index == k * TriangleSides && k <= |starts|
        invariant Cells() == RasterTriangles(sh, g, width, height, starts[..k], cleared)
      {
        ghost var drawn := Cells();
        assert starts[k] == TriangleStart(index, false);
        RenderTriangle(screen, index, false, lighting, normalized);
        RasterTrianglesExtend(sh, g, width, height, starts, k, cleared, drawn, Cells());
        index := index + TriangleSides;
        k := k + 1;
      }
      assert starts[..k] == starts;
    }

    /** A strip draws one triangle at every index with two more after it, the
        odd ones with their first and last vertex swapped. */
    method RenderTriangleStrip(screen: seq<Vector2>, lighting: Lighting, normalized: Vector3 -> Vector3)
      requires Valid() && LightingNonNegative(lighting)
      requires ValidScreenMesh(ScreenMeshOf(screen))
      modifies depthBuffer, backBuffer
      ensures StartsFit(StripStarts(|mesh.indices|), |mesh.indices|)
      ensures Cells() == RasterTriangles(Shader(RasterConfig(), lighting, normalized), ScreenMeshOf(screen),
        width, height, StripStarts(|mesh.indices|), old(Cells()))
    {
      ghost var sh := Shader(RasterConfig(), lighting, normalized);
      ghost var g := ScreenMeshOf(screen);
      ghost var cleared := Cells();
      var n := |mesh.indices|;
      StartsReadInBounds(TriangleStrip, n);
      ghost var starts := StripStarts(n);
      var index := 0;
      while index + 2 < n
        invariant index <= |starts|
        invariant Cells() == RasterTriangles(sh, g, width, height, starts[..index], cleared)
      {
        ghost var drawn := Cells();
        assert starts[index] == TriangleStart(index, index % 2 == 1);
        RenderTriangle(screen, index, index % 2 == 1, lighting, normalized);
        RasterTrianglesExtend(sh, g, width, height, starts, index, cleared, drawn, Cells());
        index := index + 1;
      }
      assert starts[..index] == starts;
    }

    method CycleShadingMode()
      modifies this
      ensures lightingMode == NextLightingMode(old(lightingMode))
      ensures CurrentModes() == old(CurrentModes()).(lightingMode := lightingMode)
    {
      lightingMode := NextLightingMode(lightingMode);
    }

    method CycleRenderStyle()
      modifies this
      ensures renderStyle == NextRenderStyle(old(renderStyle))
      ensures CurrentModes() == old(CurrentModes()).(renderStyle := renderStyle)
    {
      renderStyle := NextRenderStyle(renderStyle);
    }

    method EnableRotation()
      modifies this
      ensures CurrentModes() == old(CurrentModes()).(rotating := !old(rotating))
    {
      rotating := !rotating;
    }

    method TogglePrintFPS()
      modifies this
      ensures CurrentModes() == old(CurrentModes()).(printFPS := !old(printFPS))
    {
      printFPS := !printFPS;
    }

    method ToggleUniformClearColor()
      modifies this
      ensures CurrentModes() == old(CurrentModes()).(uniformColorEnabled := !old(uniformColorEnabled))
    {
      uniformColorEnabled := !uniformColorEnabled;
    }

    method ToggleNormalMap()
      modifies this
      ensures CurrentModes() == old(CurrentModes()).(normalMapEnabled := !old(normalMapEnabled))
    {
      normalMapEnabled := !normalMapEnabled;
    }

    method ToggleDepthBuffer()
      modifies this
      ensures CurrentModes() == old(CurrentModes()).(showDepthBuffer := !old(showDepthBuffer))
    {
      showDepthBuffer := !showDepthBuffer;
    }

    method ToggleBoundingBoxVisualization()
      modifies this
      ensures CurrentModes() == old(CurrentModes()).(showBoundingBox := !old(showBoundingBox))
    {
      showBoundingBox := !showBoundingBox;
    }

    method ToggleFireFx()
      modifies this
      ensures CurrentModes() == old(CurrentModes()).(showFire := !old(showFire))
    {
      showFire := !showFire;
    }
  }

  /** Four shading cycles bring the renderer back to its modes. */
  method CycleShadingFourTimes(r: Renderer)
    modifies r
    ensures r.CurrentModes() == old(r.CurrentModes())
  {
    r.CycleShadingMode();
    r.CycleShadingMode();
    r.CycleShadingMode();
    r.CycleShadingMode();
    LightingCycleHasPeriodFour(old(r.lightingMode));
  }

  /** Toggling the depth overlay twice restores every mode. */
  method ToggleDepthBufferTwice(r: Renderer)
    modifies r
    ensures r.CurrentModes() == old(r.CurrentModes())
  {
    r.ToggleDepthBuffer();
    r.ToggleDepthBuffer();
  }
}
