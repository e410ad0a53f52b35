# GP1 Dual Rasterizer: the software path, modelled in Dafny

The dual rasterizer draws one textured, lit mesh in two ways: with DirectX,
and with a software rasterizer written against plain memory buffers. This
project models the software rasterizer and proves things about it. It also
models the texel lookup of the software texture and the two mode cycles of
the DirectX effect wrapper.

A software frame runs these steps:

1. The vertex stage transforms every mesh vertex by world × view ×
   projection, divides x, y and z by the clip w, and keeps w.
2. The NDC positions are mapped to pixel coordinates.
3. The depth buffer is reset to the largest float and the back buffer is
   cleared to one of two colours.
4. The index buffer is walked as a triangle list or as a triangle strip.
   Odd strip triangles have their first and last vertex swapped.
5. Each triangle is handled like this:
   - it is skipped if it names a vertex twice;
   - its bounding box is grown by one pixel, clamped to the screen and
     truncated to integers;
   - in bounding-box mode every box pixel is painted white, the depth
     buffer is not touched, and nothing below applies;
   - otherwise each box pixel is tested for coverage, and a covered pixel
     gets barycentric weights (the three sub-areas divided by the signed
     area) and a harmonic depth;
   - the pixel is discarded when the stored depth is smaller, so a tie
     overwrites;
   - otherwise the depth is stored and uv, normal, tangent and view
     direction are interpolated with perspective correction;
   - the pixel is then shaded in one of four lighting modes and written as
     three bytes.

## How the model is built

Geometry works over exact `real`s, so the barycentric and interpolation
identities hold exactly.

The modules are:

- `Geometry`: vectors, colours, row-vector matrices, clamp and truncation.
- `Textures`: `Software_Texture::Sample`.
- `Vertices`: the vertex stage and the screen mapping.
- `Shading`: the lighting-mode dispatch, the depth overlay, `MaxToOne` and
  the byte cast.
- `Raster`: the rasterizer as values. It holds the topology walks, triangle
  setup, the per-pixel depth test, one triangle as a `seq<Cell>` map and the
  frame as a fold over triangles.
- `Renderer`: classes `Mesh` and `Renderer`.
  - The depth buffer and the back buffer are `array`s, written in place by
    `while` loops.
  - Every buffer-writing method is proved to leave exactly the cells that
    the `Raster` functions compute.
  - The properties of those functions are proved as lemmas.
- `Effect`: the class `Effect` with its filtering and cull-mode cycles.

## Model

| member | source | states |
|---|---|---|
| Geometry.Trunc | source/Renderer.cpp:340-343 | the float-to-int cast, toward zero; TruncBounds and TruncNonNegative state its bounds |
| Geometry.TruncBounds | source/Renderer.cpp:340-343 | truncation moves toward zero by less than one: a non-negative value's cast is at most it and within 1, a non-positive value's is at least it and within 1 |
| Geometry.Clamp | source/Renderer.cpp:333-336 | the result lies in [lo, hi] and equals v when v already does |
| Geometry.ClampMonotone | source/Renderer.cpp:333-336 | clamping keeps order, so a clamped start never passes a clamped end |
| Geometry.TransformPointMul | source/Renderer.cpp:283-292 | transforming by a matrix product is transforming by each factor in turn |
| Geometry.ScaledRowsSum | source/Renderer.cpp:283-292 | a row vector times a matrix is the sum of the matrix's rows scaled by the vector's components |
| Geometry.TranslationMovesPointsOnly | source/Renderer.cpp:292-296 | directions ignore the translation row; points move by exactly the translation |
| Textures.ChannelToUnit | source/Textures.cpp:103-105 | a byte over 255 lies in [0, 1] and times 255 gives the byte back |
| Textures.TexelIndexInRange | source/Textures.cpp:94-98 | for u, v in [0, 1) the column, the row and x + y * w are all in bounds |
| Textures.TruncBoundsIff | source/Textures.cpp:94-96 | the float-to-int cast lands in [0, n) exactly when its argument is in (-1, n) |
| Textures.TexelX | source/Textures.cpp:94 | the column is the truncated u × width; TexelIndexInRange and TruncBoundsIff bound it |
| Textures.TexelY | source/Textures.cpp:95 | the row is the truncated v × height; TexelIndexInRange and TruncBoundsIff bound it |
| Textures.TexelIndex | source/Textures.cpp:98 | the row-major index x + y × width; TexelIndexInRange proves it inside the pixel data for uv in [0, 1) |
| Textures.Sample | source/Textures.cpp:88-105 | needs u, v in [0, 1); reads texel x + y * w with x = trunc(u w), y = trunc(v h) in bounds; every channel is that texel's byte / 255, in [0, 1] |
| Textures.SampleAtTexelCentre | source/Textures.cpp:94-98 | sampling at the centre of texel (x, y) reads exactly texel x + y * w |
| Shading.PackSampledTexel | source/Textures.cpp:103-105 | a sampled texel packed back with 255 gives its own three bytes |
| Effect.NextFilteringMethod | source/effect.cpp:66 | Point → Linear → Anisotropic → Point |
| Effect.FilteringCycleHasPeriodThree | source/effect.cpp:66 | three steps restore the method, and one or two do not |
| Effect.TechniqueNamesDistinct | source/effect.cpp:69-95 | each filtering method has its own technique name |
| Effect.NextCullMode | source/effect.cpp:106 | Off → Front → Back → Off |
| Effect.CullCycleHasPeriodThree | source/effect.cpp:106 | three steps restore the cull mode, and one or two do not |
| Effect.CullToD3D | source/effect.cpp:108-122 | each cull mode maps to its own raster cull value, in both directions |
| Effect.Effect.constructor | source/effect.cpp:4-8 | a new effect filters by point (the member default) with "PointFilteringTechnique" |
| Effect.Effect.CycleFilteringMethod | source/effect.cpp:64-96 | steps the method, selects the technique named for the new method, and changes nothing else |
| Effect.Effect.CycleCullModeAsWritten | source/effect.cpp:98-124 | steps the cull mode; the bound rasterizer state is the one fetched, unchanged |
| Effect.CullModeNotApplied | source/effect.cpp:98-124 | after one cycle from Off the effect says Front while its state still culls nothing |
| Effect.Effect.CycleCullMode | source/effect.cpp:98-124 | corrected: steps the cull mode and binds a state whose description culls by it |
| Effect.CycleFilteringThrice | source/effect.cpp:64-96 | three calls restore the method and the technique |
| Vertices.TransformVertex | source/Renderer.cpp:284-303 | position is the perspective divide of the clip position (w kept; x, y, z times w give the clip x, y, z); uv copied; colour white; normal and tangent through the world matrix; view direction the normalised clip xyz |
| Vertices.PerspectiveDivide | source/Renderer.cpp:298-301 | w is kept and the divided x, y, z times w give back the clip x, y, z |
| Vertices.TranslationKeepsDirections | source/Renderer.cpp:295-296 | with a pure translation as the world matrix, normal and tangent are unchanged |
| Vertices.WorldViewProjectionComposes | source/Renderer.cpp:283-292 | world × view × projection applies world first, then view, then projection |
| Vertices.NdcToScreen | source/Renderer.cpp:245-246 | x maps from [-1, 1] onto [0, width] and y, flipped, onto [0, height]; NdcToScreenRange and NdcToScreenFlipsY are proved about it |
| Raster.TransformVertices | source/Renderer.cpp:288-303 | one vertex-stage output per mesh vertex, the k-th the transform of the k-th vertex |
| Vertices.NdcToScreenRange | source/Renderer.cpp:240-248 | NDC in [-1, 1] maps into [0, width] × [0, height] |
| Vertices.NdcToScreenFlipsY | source/Renderer.cpp:240-248 | NDC (-1, 1) is pixel (0, 0) and (1, -1) is (width, height); a higher NDC y is a smaller pixel y |
| Renderer.Renderer.VertexTransformationFunction | source/Renderer.cpp:281-304 | vertices_out is rebuilt with one transformed vertex per input vertex, in order |
| Renderer.Renderer.ScreenSpaceVertices | source/Renderer.cpp:240-248 | one pixel position per transformed vertex, in order |
| Raster.ListStarts | source/Renderer.cpp:256-261 | the list loop's starts: the k-th is index 3k, below n and never swapped, and no index of the buffer is left past the last start |
| Raster.StripStarts | source/Renderer.cpp:263-266 | the strip loop with the bound `index + 2 < n`: the k-th start is index k, reads inside the buffer, is swapped exactly when k is odd, and the loop stops only when index + 2 reaches n |
| Raster.RasterTriangles | source/Renderer.cpp:254-271 | the triangles drawn in order, one triangle step each; the size is kept, and DepthsNeverRise, BoxModeKeepsDepths and RasterTrianglesExtend are proved about it |
| Raster.RasterTrianglesExtend | source/Renderer.cpp:256-266 | one more loop iteration draws one more start: the prefix of k + 1 starts is the prefix of k followed by one triangle step |
| Raster.ListStartsPartition | source/Renderer.cpp:256-261 | a list's k-th triangle reads indices 3k to 3k + 2, and every index belongs to exactly one triangle |
| Raster.StripStartsAlternate | source/Renderer.cpp:262-267 | a strip draws n − 2 triangles one index apart, alternating natural and swapped, starting natural |
| Raster.StartsReadInBounds | source/Renderer.cpp:254-271 | with a list length divisible by 3, every triangle reads three indices inside the buffer |
| Raster.StripLoopBoundAsWritten | source/Renderer.cpp:263 | the loop bound `size() - 2` on a 64-bit unsigned size |
| Raster.StripBoundUnderflows | source/Renderer.cpp:263 | with fewer than two indices the bound wraps past 2^64 − 2, so index 2 is read, while no triangle exists |
| Raster.StripBoundAgreesFromTwo | source/Renderer.cpp:263 | from two indices on, the bound as written is the strip's triangle count |
| Raster.TriangleIndices | source/Renderer.cpp:308-310 | indices i, i+1, i+2, or i+2, i+1, i when swapped |
| Raster.Degenerate | source/Renderer.cpp:312 | two of the three corner indices are equal; helper, no contract |
| Raster.Area | source/Renderer.cpp:326 | the cross product of the first two edges; helper, no contract; SubAreasSum and WeightsSumToOne are proved about it |
| Raster.SubArea0 | source/Renderer.cpp:367 | the first sub-area of a point; helper, no contract; SubAreasSum is proved about the three |
| Raster.SubArea1 | source/Renderer.cpp:368 | the second sub-area; helper, no contract |
| Raster.SubArea2 | source/Renderer.cpp:369 | the third sub-area; helper, no contract |
| Raster.BuildTriangle | source/Renderer.cpp:317-319 | the three corners read from the transformed vertices and their screen positions; helper, no contract |
| Raster.TriangleStarts | source/Renderer.cpp:254-271 | the topology switch: ListStarts for a list, StripStarts for a strip; helper, no contract |
| Raster.ClearedBuffers | source/Renderer.cpp:251-252 | width * height cells, each at depth FLT_MAX with the clear colour |
| Raster.ScreenPositions | source/Renderer.cpp:241-249 | one screen position per transformed vertex, in order, each NdcToScreen of its position |
| Raster.DepthAt | source/Renderer.cpp:379 | the interpolated depth at a covered pixel; helper, no contract; DepthBetweenCorners is proved about it |
| Raster.ShadeAt | source/Renderer.cpp:389-442 | the shaded colour of the interpolated pixel; helper, no contract |
| Raster.ColorAt | source/Renderer.cpp:389-442 | ShadeAt at a covered pixel's weights and depth; helper, no contract |
| Vertices.ClipPosition | source/Renderer.cpp:292 | (position, 1) times the combined matrix; helper, no contract |
| Vertices.WorldViewProjection | source/Renderer.cpp:283 | world * view * projection; helper, no contract; WorldViewProjectionComposes is proved about it |
| Effect.TechniqueName | source/effect.cpp:72-88 | the technique each filtering method selects; helper, no contract; TechniqueNamesDistinct is proved about it |
| Shading.MaxChannel | source/Renderer.cpp:511 | the largest of the three channels; helper, no contract |
| Raster.BoundingBox | source/Renderer.cpp:329-343 | 0 ≤ startX ≤ endX ≤ width and 0 ≤ startY ≤ endY ≤ height; BoundingBoxIsExtent says which box it is |
| Raster.BoxAxisIff | source/Renderer.cpp:333-343 | on one axis, an in-buffer coordinate x lies between the clamped, truncated edges exactly when lo − 2 < x ≤ hi |
| Raster.BoundingBoxIsExtent | source/Renderer.cpp:329-343 | an in-buffer column is in the box exactly when MinX − 2 < x ≤ MaxX, and a row exactly when MinY − 2 < y ≤ MaxY: the corners' extent grown by one pixel, clamped and truncated |
| Raster.BarycentricWeights | source/Renderer.cpp:366-373 | each sub-area times the reciprocal of the signed area; WeightsSumToOne, WeightsReconstructPoint and WeightsAtFirstCorner prove they are the pixel's barycentric coordinates |
| Raster.Covered | source/Renderer.cpp:363 | the point-in-triangle test taken for `Utils::IsInTriangle`: a non-zero area and all three weights non-negative, edges included; CoveredIffConvex proves this is exactly convex weights |
| Raster.InterpolatedDepth | source/Renderer.cpp:379 | the harmonic blend of the corner depths, always positive; DepthBetweenCorners bounds it by the corners |
| Raster.InterpolatedW | source/Renderer.cpp:391 | the harmonic blend of the corner clip w, always positive; CommonWInterpolatesToIt shows a common w is returned unchanged |
| Raster.PerspectiveComponent | source/Renderer.cpp:393-400 | the perspective-correct blend of one component: each corner's value times its weight over its w, summed, times the interpolated w; EqualWIsAffine is proved about it |
| Raster.Perspective2 | source/Renderer.cpp:393-400 | the perspective-correct uv, component by component; EqualWIsAffine2 and PerspectiveAtCorner2 are proved about it |
| Raster.Perspective3 | source/Renderer.cpp:402-428 | the same perspective-correct blend for normal, tangent and view direction; EqualWIsAffine3 is proved about it |
| Raster.SubAreasSum | source/Renderer.cpp:321-369 | the three sub-areas add up to the signed triangle area |
| Raster.WeightsSumToOne | source/Renderer.cpp:367-373 | w0 + w1 + w2 = 1 for a non-degenerate triangle |
| Raster.WeightsReconstructPoint | source/Renderer.cpp:367-373 | the weights times the corners give back the pixel position |
| Raster.WeightsAtFirstCorner | source/Renderer.cpp:367-373 | at the first corner the weights are (1, 0, 0) |
| Raster.CoveredIffConvex | source/Renderer.cpp:363-373 | a pixel counts as covered exactly when its weights are convex, and then each is at most 1 |
| Raster.ConvexBetween | source/Renderer.cpp:367-373 | a convex blend lies between the smallest and the largest value |
| Raster.CoveredPixelInBox | source/Renderer.cpp:329-363 | every covered on-screen pixel lies inside the clamped box, so the box loses none of the triangle |
| Raster.ReciprocalBlend | source/Renderer.cpp:379 | with convex weights and positive depths the blended reciprocal is positive, so it can be inverted |
| Raster.HarmonicBetween | source/Renderer.cpp:379-389 | the harmonic blend of three positive values lies between their minimum and maximum |
| Raster.DepthBetweenCorners | source/Renderer.cpp:379 | the interpolated depth is positive and between the corners' smallest and largest depth |
| Raster.EqualWIsAffine | source/Renderer.cpp:391-399 | with equal clip w the perspective-correct blend of one component is the plain weighted sum |
| Raster.EqualWIsAffine2 | source/Renderer.cpp:391-399 | with equal clip w the perspective-correct uv is the plain weighted sum |
| Raster.EqualWIsAffine3 | source/Renderer.cpp:402-428 | with equal clip w the perspective-correct normal, tangent and view direction are the plain weighted sums |
| Raster.PerspectiveAtCorner2 | source/Renderer.cpp:391-399 | at a corner the interpolated uv is that corner's uv |
| Raster.InterpolatePixel | source/Renderer.cpp:389-436 | the pixel's colour is in [0, 1]: the depth overlay gray when it is on, white otherwise |
| Raster.PixelUpdate | source/Renderer.cpp:353-443 | a box pixel never gets a larger depth |
| Raster.DepthTestIff | source/Renderer.cpp:379-386 | a covered pixel takes the triangle's depth and colour exactly when that depth is not behind the stored one, and stays as it was otherwise |
| Raster.UncoveredPixelUnchanged | source/Renderer.cpp:363-364 | outside box mode, a pixel the triangle does not cover keeps its depth and colour |
| Raster.OcclusionIsOrderIndependent | source/Renderer.cpp:379-386 | of two triangles at different depths the nearer one's depth and colour remain, in either drawing order |
| Raster.EqualDepthLaterWins | source/Renderer.cpp:381 | at equal depth the later triangle overwrites |
| Raster.RowMajorIndex | source/Renderer.cpp:351 | px + py * width lies in [0, width * height) and gives back px and py |
| Raster.TriangleCell | source/Renderer.cpp:345-446 | cell i after one triangle never has a larger depth |
| Raster.RasterTriangle | source/Renderer.cpp:345-446 | one triangle keeps the buffer size and never raises a depth |
| Raster.OutsideBoxUnchanged | source/Renderer.cpp:345-349 | pixels outside the box keep depth and colour |
| Raster.UncoveredUnchanged | source/Renderer.cpp:345-444 | outside box mode, drawing one triangle leaves every pixel it does not cover with both buffer values unchanged |
| Raster.BoxModePaintsBox | source/Renderer.cpp:353-361 | in box mode the depth is untouched, and a pixel is white exactly when it is in the box or was already white |
| Raster.TriangleStep | source/Renderer.cpp:306-315 | a triangle naming a vertex twice leaves the buffers unchanged; a step keeps the buffer size and never raises a depth |
| Raster.DepthsNeverRise | source/Renderer.cpp:254-271 | over any sequence of triangles no depth entry increases |
| Raster.BoxModeKeepsDepths | source/Renderer.cpp:353-361 | in box mode a whole sequence of triangles leaves the depth buffer as it was |
| Raster.RenderFrame | source/Renderer.cpp:234-271 | the frame's buffers have width * height cells, none deeper than FLT_MAX |
| Raster.TransformedInFront | source/Renderer.cpp:297-301 | positive clip w and z give a positive depth after the divide |
| Shading.LitColor | source/Renderer.cpp:473-503 | the four-mode dispatch: Combined is 7 × observed area × lambert plus specular, ObservedArea the gray of the observed area, Diffuse 7 × observed area × lambert, Specular observed area × specular; LitColorNonNegative and CombinedIsDiffusePlusSpecular are proved about it |
| Shading.ShadePixel | source/Renderer.cpp:448-516 | the written bytes: FinalColor packed with 255, so each byte is the integer part of its channel times 255 |
| Shading.LitColorNonNegative | source/Renderer.cpp:472-500 | with non-negative lighting terms every mode gives a non-negative colour |
| Shading.CombinedIsDiffusePlusSpecular | source/Renderer.cpp:474-490 | Combined is the Diffuse colour plus the unscaled specular term |
| Shading.SpecularModeAtMostTerm | source/Renderer.cpp:494-499 | with an observed area in [0, 1], the Specular mode's colour is non-negative and at most the specular term, channel by channel |
| Shading.MaxToOne | source/Renderer.cpp:511 | a colour whose channels are all at most 1 is unchanged; otherwise every channel is divided by the largest one; a non-negative colour ends up in [0, 1] |
| Shading.MaxToOneKeepsHue | source/Renderer.cpp:511 | the rescale keeps the ratios between channels |
| Shading.MaxToOneIdempotent | source/Renderer.cpp:511 | rescaling twice is rescaling once |
| Shading.ToByte | source/Renderer.cpp:513-516 | the uint8 cast of a value in [0, 256) is its integer part |
| Shading.PackColor | source/Renderer.cpp:513-516 | each byte is the integer part of its channel times the scale |
| Shading.FinalColor | source/Renderer.cpp:469-511 | the colour is the lit colour, plus the pixel's colour when the overlay is on; if its largest channel exceeds 1 it is divided by that channel, otherwise kept; the result is in [0, 1] |
| Shading.ObservedAreaIsGray | source/Renderer.cpp:485-516 | ObservedArea mode without overlay writes a gray of the observed area capped at 1, times 255 |
| Shading.Remap | source/Renderer.cpp:438 | depth maps into [0, 1]: 0 up to the band, 1 past it, linear in between |
| Shading.RemapMonotone | source/Renderer.cpp:438 | a deeper pixel is never darker in the overlay |
| Shading.DepthColor | source/Renderer.cpp:436-440 | the overlay colour is a gray in [0, 1] |
| Renderer.NextLightingMode | source/Renderer.cpp:541 | Combined → ObservedArea → Diffuse → Specular → Combined |
| Renderer.LightingCycleHasPeriodFour | source/Renderer.cpp:541 | four steps restore the lighting mode, and fewer do not |
| Renderer.NextRenderStyle | source/Renderer.cpp:99 | Software and DirectX swap |
| Renderer.RenderStyleAlternates | source/Renderer.cpp:99 | two steps restore the render style |
| Renderer.Mesh.constructor | source/Renderer.cpp:254-304 | a software mesh holds the vertices, the indices, the topology and the world matrix the renderer reads, and starts with no transformed vertices |
| Renderer.Renderer.constructor | source/Renderer.cpp:33-39 | both buffers get one entry per pixel, the depth buffer is reset, the back buffer is black (a new SDL surface is zero-filled), and rotation starts on |
| Renderer.Renderer.ResetDepthBuffer | source/Renderer.cpp:532-535 | every one of the width * height depth entries is FLT_MAX |
| Renderer.Renderer.ClearBackground | source/Renderer.cpp:520-530 | every back-buffer pixel is the selected clear colour times 100, cast to bytes |
| Renderer.Renderer.PixelShading | source/Renderer.cpp:448-518 | exactly one back-buffer entry is written, with the shaded bytes; all others are unchanged |
| Renderer.Renderer.RenderPixel | source/Renderer.cpp:349-443 | one box pixel of both buffers becomes its depth-test update and nothing else changes |
| Renderer.Renderer.RasterizeBox | source/Renderer.cpp:345-446 | the pixel loops leave both buffers exactly as the one-triangle map says |
| Renderer.Renderer.RasterizeColumn | source/Renderer.cpp:348-444 | the inner loop over one column's rows leaves both buffers as the sweep map says once that column is done |
| Renderer.Renderer.RenderTriangle | source/Renderer.cpp:306-446 | both buffers become one triangle step; a triangle naming a vertex twice leaves them unchanged, as its own ensures says |
| Renderer.Renderer.RenderTriangleList | source/Renderer.cpp:256-261 | the list loop draws triangles 0, 3, 6, ... in order |
| Renderer.Renderer.RenderTriangleStrip | source/Renderer.cpp:262-267 | the strip loop, with the corrected bound, draws every strip triangle in order |
| Renderer.Renderer.RenderTopology | source/Renderer.cpp:254-271 | the switch draws the triangles of the mesh's topology |
| Renderer.Renderer.RenderSoftware | source/Renderer.cpp:234-271 | both buffers become the frame function: cleared, then every triangle drawn in order |
| Renderer.Renderer.CycleShadingMode | source/Renderer.cpp:537-562 | the lighting mode steps once and no other mode changes |
| Renderer.Renderer.CycleRenderStyle | source/Renderer.cpp:97-117 | the render style steps once and no other mode changes |
| Renderer.Renderer.EnableRotation | source/Renderer.cpp:80-95 | negates the rotation flag and nothing else |
| Renderer.Renderer.TogglePrintFPS | source/Renderer.cpp:130-144 | negates the FPS flag and nothing else |
| Renderer.Renderer.ToggleUniformClearColor | source/Renderer.cpp:145-162 | negates the uniform-colour flag and nothing else |
| Renderer.Renderer.ToggleNormalMap | source/Renderer.cpp:563-579 | negates the normal-map flag and nothing else |
| Renderer.Renderer.ToggleDepthBuffer | source/Renderer.cpp:580-596 | negates the depth-overlay flag and nothing else |
| Renderer.Renderer.ToggleBoundingBoxVisualization | source/Renderer.cpp:597-613 | negates the box-mode flag and nothing else |
| Renderer.Renderer.ToggleFireFx | source/Renderer.cpp:862-879 | negates the fire flag and nothing else |
| Renderer.CycleShadingFourTimes | source/Renderer.cpp:541 | four shading cycles restore every mode |
| Renderer.ToggleDepthBufferTwice | source/Renderer.cpp:584 | two depth-overlay toggles restore every mode |

## Left out

- The DirectX path is not modelled. This covers device and swap chain setup, `RenderDirectX`, `UpdateDirectX`, the DirectX meshes, `Effect_Shaded` and `DirectX_Texture`, because they are foreign GPU API calls. `Renderer::CycleCullModes` and `Renderer::CycleFilteringMethods` only call the effect cycles on each DirectX mesh; the cycles themselves are modelled in `Effect`.
- The D3DX effect object is not modelled. A technique is identified by the name it is looked up by. The rasterizer state is a value holding its description, reduced to the cull field.
- SDL surfaces are left out: lock, unlock, blit and window update. `SDL_MapRGB` and `SDL_FillRect` are abstracted, and a back-buffer pixel is its three bytes.
- File loading is left out: `LoadFromFile` and the OBJ parser. So is the texture's surface decoding (`SDL_GetRGB`): a texel already holds its three bytes.
- `Camera.h` reads input, needs `tan` and an inverse matrix, and is not part of this model. The view and projection matrices are parameters of `RenderSoftware`. The camera's pitch clamp at source/Camera.h:137 is not modelled.
- The lighting terms are not modelled. This covers the normal-map tangent frame, `DotClamped`, `Lambert`, `Phong` with `pow`, and the textures they sample. They enter as the three functions of a `Lighting`, assumed non-negative. Vector normalisation is the caller's function `normalized`.
- The headers of `ColorRGB::MaxToOne`, `Remap` and `Utils::IsInTriangle` are not part of this model.
  - MaxToOne divides by the largest channel when it exceeds 1.
  - Remap is linear from the band onto [0, 1] and clamps outside it.
  - IsInTriangle counts a pixel as covered when the area is non-zero and all three weights are non-negative, edges included.
- IEEE float behaviour is left out: rounding, infinities and NaN. Geometry is exact `real`. A zero-area triangle is never covered.
- Renderer.Renderer.RenderSoftware: requires every vertex to have positive clip w and z. This excludes vertices behind the camera and nearer than the near plane, which the source draws unclipped while its camera moves. Positive w and z keep the harmonic blend's denominator positive over exact reals.
- Renderer.Renderer.RenderSoftware: requires the list length to be a multiple of three and every index to be below the vertex count. The source reads past the buffers otherwise.
- `Render`, `Update`, `UpdateSoftware` (the timed rotation of the world matrix), `PrintInfo`, all console printing, and `main.cpp` (the event loop and key mapping) are left out as I/O and timing.
- Renderer.Renderer.constructor: the initial values of the modes other than rotation are not in the renderer's header, so they are parameters. The clear colours are parameters assumed to lie in [0, 1].
- Renderer.Renderer.ScreenSpaceVertices, Renderer.Renderer.RenderPixel, Renderer.Renderer.RasterizeBox, Renderer.Renderer.RasterizeColumn, Renderer.Renderer.RenderTopology, Renderer.Renderer.RenderTriangleList and Renderer.Renderer.RenderTriangleStrip are blocks of code that the source writes inline in its callers. They are separate methods here so that each proof stays small.
- The software `Mesh` struct's header is not part of this model. Its fields are taken from their uses in source/Renderer.cpp.
- The `Vertex` colour field is commented out in source/DataTypes.h, yet source/Renderer.cpp:290 initialises each `Vertex_Out` from `v.color`. The model takes the `Vertex_Out` default, white, as the transformed vertex's colour.
- The interpolated pixel is a default-constructed `Vertex_Out` (source/Renderer.cpp:389), so its colour attribute is white, or the depth gray when the overlay is on; the colour written is the lit colour computed from it.

## Findings

| source | as written | input that shows it | evidently intended | confidence | as-written member | corrected member |
|---|---|---|---|---|---|---|
| source/Renderer.cpp:263 | the strip loop runs while `index < indices.size() - 2`, an unsigned subtraction | a strip mesh with 0 or 1 indices: the bound wraps to 2^64 − 2 or more, so the first call reads `indices[2]` past the end | draw `max(n − 2, 0)` triangles, that is, loop while `index + 2 < n` | not executed | Raster.StripBoundUnderflows | Raster.StartsReadInBounds |
| source/effect.cpp:100-124 | CycleCullMode edits a local copy of the rasterizer description, then sets back the state object it fetched | an effect with culling off and a no-cull state, after one cycle: the effect reports Front while the bound state still culls nothing | bind a state created from the edited description | not executed | Effect.CullModeNotApplied | Effect.Effect.CycleCullMode |
