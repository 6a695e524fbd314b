# opengl-samples: the integer logic under the rendering

The opengl-samples scripts are mostly OpenGL, GLFW and Qt calls. Underneath
the calls sits a small amount of exact logic that decides what is handed to
the GPU and when. This project models that logic in Dafny and proves
properties of it:

- **Grid triangulation** (module `Grid`, `GridInstances`). Covers
  `MyGLWidget.makePlane` in rippleDeformer and the `Plane` render object of
  diffuseLighting. Each builds a row-major grid of points in the y = 0 plane
  and splits every cell into two triangles. The indices are stored as
  unsigned 16-bit values.
- **Vertex layouts and constant tables** (modules `Layout`, `Quads`,
  `Cubes`).
  - Covers the interleaved float records that `glVertexAttribPointer` reads,
    and the quad index tables that split a quad into two triangles.
  - Covers the full-screen quads of 02indexed_vbo, 03texture and
    06instancing1, and imageProcess's unit quad.
  - Covers the colour cube of 06instancing1 and 06instancing3_uniform_buffer,
    the instance-offset table of the latter, and diffuseLighting's `Cube`.
  - For each table: vertex count against the largest index, index count
    against the draw count, and record size against the stride and offsets.
- **Camera keys** (module `Camera`). The W/S/A/D/Q/Z dispatch of
  `keyPressEvent` over the `FreeCamera` translation moves, in both programs'
  variants.
- **Three small state machines.**
  - The filter cycler of imageProcess (`FilterCycle`).
  - The ping-pong buffer index of 09transform_feedback
    (`TransformFeedback`), together with its initial particle data and
    uniform tables.
  - The edge-triggered FXAA switch of 06instancing1, with the framebuffer
    each pass draws into (`Fxaa`).
- **The procedural checkerboard texture** of 03texture (`Checkerboard`).

Modelling choices:

- **Positions and float computations are exact reals.** Examples are
  `(xsize / xdivs) * j - xsize / 2` and `.5 - rand()`. float32 rounding is
  not modelled.
- **Integer arithmetic follows Python 2.** The scripts use `xrange`, so `/`
  on ints is floor division. Every operand here is non-negative, and on
  those floor division and Dafny's division agree.
- **numpy's conversion to `ushort` wraps modulo 2^16** (`Grid.ToUShort`).
  The model therefore shows exactly when the 16-bit index list differs from
  the generated one, instead of assuming it never does.
- **Index tables have an element width.** `np.uint` is C `unsigned long`:
  4 bytes on Windows and 32-bit platforms, 8 on 64-bit Linux and macOS.
  The platform is a parameter (`Layout.Platform`), and a draw reads the
  table's bytes regrouped into words of its `GL_UNSIGNED_*` type,
  little-endian (`Layout.ReadIndices`).
- **Key codes are Qt's `Qt.Key_*` values** (W = 0x57, Space = 0x20, and so
  on). Exceptions the Python code would raise are `Result` errors:
  - `ZeroDivisionError` for a zero division count;
  - `ValueError` from `tuple.index`;
  - `KeyError` from the program dictionary.
- **Randomness comes in as parameters.** These are the `rand()` triples of
  the particle start positions. The programs'
  compiled GL objects are identified by position: program `k` is the `k`-th
  compiled, and vertex array `i` reads buffer `i`.

## Model

| member | source | states |
|---|---|---|
| Util.RangeLen | rippleDeformer/main.py:148-151 | `range(n)` runs `n` times for `n >= 0` and not at all for negative `n` |
| Util.NextIndex | imageProcess/main.py:135-138 | the index after `i` (0 after the last) is again an index of the tuple |
| Util.NextIndexWraps | OpenGL-Examples/09transform_feedback.py:224 | imageProcess's explicit "last goes to 0, else add one" is the same step as 09's `(cur + 1) % n` |
| Util.LaterIsMod | OpenGL-Examples/09transform_feedback.py:224 | `k` repetitions of the wrapping step from `i` land on `(i + k) mod n` |
| Util.LaterFullCircle | imageProcess/main.py:134-139 | `n` wrapping steps round a ring of `n` return to the start |
| Grid.ToUShort | rippleDeformer/main.py:159-160 | the `ushort` array has one entry per index and every entry is below 2^16 |
| Grid.MakePlane | rippleDeformer/main.py:128-160 | `makePlane` fails with ZeroDivisionError exactly when `xdivs` or `zdivs` is 0; on success every stored index fits 16 bits |
| Grid.MakeLitPlane | diffuseLighting/main.py:224-262 | `Plane` fails exactly when a division count is 0; otherwise it has one normal per vertex and every normal is (0, 1, 0) |
| Grid.RowsLength | rippleDeformer/main.py:138-143 | the nested vertex loop appends `rows * cols` points |
| Grid.RowsAt | rippleDeformer/main.py:138-143 | point `i * cols + j` is column `j` of row `i`, at x = jfactor*j - xsize/2, z = ifactor*i - zsize/2 |
| Grid.RowIndicesLayout | rippleDeformer/main.py:151-157 | a row of cells gives 6 indices per cell, and entries 6j..6j+5 are those of cell j |
| Grid.GridIndicesLength | rippleDeformer/main.py:148-157 | `rows` rows of `xdivs` cells give `6 * rows * xdivs` indices |
| Grid.GridIndexAt | rippleDeformer/main.py:148-157 | entry `6 (i xdivs + j) + k` of the index list is entry `k` of cell (i, j) |
| Grid.CellIndicesBounded | rippleDeformer/main.py:149-157 | every index of cell (i, j) names a point of rows 0..i+1 |
| Grid.RowIndicesBounded | rippleDeformer/main.py:151-157 | every index of row `i` of cells names a point of rows 0..i+1 |
| Grid.GridIndicesBounded | rippleDeformer/main.py:148-157 | every index of `rows` rows of cells is below `(rows + 1)(xdivs + 1)`, the number of points |
| Grid.CellTriangles | rippleDeformer/main.py:149-157 | cell (i, j) is the triangles (i,j),(i+1,j),(i+1,j+1) and (i,j),(i+1,j+1),(i,j+1); each has three different corners, they share exactly the diagonal, and together they use all four corners |
| Grid.RowsFlat | rippleDeformer/main.py:142 | every generated point has y = 0 |
| Grid.PlaneSize | rippleDeformer/main.py:136-157 | for `xdivs, zdivs >= 1` the plane has `(zdivs+1)(xdivs+1)` points and `6 zdivs xdivs` indices |
| Grid.PlaneVertices | rippleDeformer/main.py:136-143 | for `xdivs, zdivs >= 1`, point `i (xdivs+1) + j` is grid point (i, j) and all points are at height 0 |
| Grid.PlaneIndices | rippleDeformer/main.py:148-160 | for `xdivs, zdivs >= 1` every stored index names an existing point; when there are at most 2^16 points the stored indices equal the generated ones |
| Grid.UShortIdentity | rippleDeformer/main.py:159-160 | the `ushort` conversion leaves indices below 2^16 unchanged |
| Grid.LastCorner | rippleDeformer/main.py:148-157 | the largest generated index, the far corner `(zdivs+1)(xdivs+1) - 1`, sits at entry `6 zdivs xdivs - 4` |
| Grid.UShortExactIff | rippleDeformer/main.py:159-160 | the 16-bit index list equals the generated one if and only if the grid has at most 2^16 points |
| Grid.PlaneCorners | rippleDeformer/main.py:134-143 | the first point is (-xsize/2, 0, -zsize/2) and the last (xsize/2, 0, zsize/2) |
| Grid.LitPlaneMatchesGrid | diffuseLighting/main.py:232-260 | `Plane` fails exactly when `makePlane` does, and otherwise builds the same points and indices with one normal per point |
| Grid.NegativeDivsNoCells | rippleDeformer/main.py:136-151 | a negative division count divides without error but produces no index at all |
| GridInstances.RippleGridSize | rippleDeformer/main.py:180 | the requested 160 x 160 grid has 25921 points and 153600 indices |
| GridInstances.RippleGridFits | rippleDeformer/main.py:224 | the 160 x 160 grid's indices, up to 25920, fit the `GL_UNSIGNED_SHORT` draw unchanged |
| GridInstances.LitPlaneDefaultsShape | diffuseLighting/main.py:226-260 | the default `Plane()` has 121 points and normals and 600 indices, each below 121 |
| Camera.KeyPress | rippleDeformer/main.py:242-255 | each of W/S/A/D/Q/Z moves the position by its own displacement (view, -view, ±right, up, -up); the axes never change; any other key changes nothing |
| Camera.OppositeKeysCancel | rippleDeformer/main.py:74-96 | forward/backward, strafe left/right and lift up/down undo each other, in either order |
| Camera.FlavoursMirrorStrafe | diffuseLighting/main.py:91-97 | diffuseLighting's A is rippleDeformer's D and the reverse; the other keys agree |
| Camera.StrafeIdleWithoutRightAxis | rippleDeformer/main.py:31 | while the right axis is still the zero `QVector3D()`, A and D do not move the camera |
| Layout.PackedFromTiles | OpenGL-Examples/02indexed_vbo.py:67-70 | attributes placed back to back read every byte of the record exactly once and nothing past it |
| Layout.PackedTiles | OpenGL-Examples/02indexed_vbo.py:67-70 | a packed layout's attributes tile the stride: every byte covered, no byte by two attributes |
| Layout.AttributeReadsInBuffer | OpenGL-Examples/02indexed_vbo.py:63-70 | for whole records under a packed layout, every attribute read of every vertex stays inside the uploaded bytes |
| Layout.FlattenLength | OpenGL-Examples/02indexed_vbo.py:54-60 | records of `w` floats upload as `w` floats each |
| Layout.FlattenAt | OpenGL-Examples/02indexed_vbo.py:54-60 | float `c` of record `v` is at position `v w + c` of the uploaded array |
| Layout.RecordsUpload | OpenGL-Examples/02indexed_vbo.py:54-70 | an array of records whose size is the stride holds whole records, and GL reads back one vertex per record |
| Layout.QuadSplitCovers | OpenGL-Examples/02indexed_vbo.py:75-78 | both quad splits give two triangles of three distinct corners that share exactly the split's diagonal and together use all four vertices |
| Layout.FaceIndicesLength | OpenGL-Examples/06instancing3_uniform_buffer.py:115-134 | `n` quads give `6n` indices |
| Layout.FaceIndicesAt | OpenGL-Examples/06instancing3_uniform_buffer.py:115-134 | the six entries of quad `f` are the split of vertices 4f..4f+3 |
| Layout.FaceIndicesBelow | OpenGL-Examples/06instancing3_uniform_buffer.py:115-134 | every index of `n` quads is below `4n` |
| Layout.FaceIndicesLayout | OpenGL-Examples/06instancing3_uniform_buffer.py:115-134 | the table of `n` quads has `6n` entries, quad `f` uses only vertices 4f..4f+3, and all are below `4n` |
| Layout.QuadsDetermine | OpenGL-Examples/06instancing3_uniform_buffer.py:115-134 | conversely, a `6n`-entry table whose every quad is the split of 4f..4f+3 is the table of `n` quads |
| Layout.FaceDrawInBounds | OpenGL-Examples/06instancing1.py:265 | drawing all `6n` indices of `n` quads reads whole triangles naming only the `4n` vertices |
| Quads.WellFormedUpload | OpenGL-Examples/02indexed_vbo.py:63-97 | a well-formed mesh uploads whole records, one vertex per record, and its draw names only those vertices |
| Layout.WidenLength | OpenGL-Examples/02indexed_vbo.py:75-81 | a table of `n` elements each `w` index words wide holds `n * w` words |
| Layout.WidenAt | OpenGL-Examples/02indexed_vbo.py:75-81 | an index table whose elements are `w` index words wide, uploaded by its `nbytes`, is `w` words per entry: the entry's value in the low word, zeros above it |
| Layout.WidenNarrow | OpenGL-Examples/02indexed_vbo.py:75-81 | elements exactly one index word wide are read back unchanged |
| Layout.DrawReadsTableIff | OpenGL-Examples/02indexed_vbo.py:75-97 | a draw reads the index table as built exactly when the numpy element type is as wide as the GL index type (for a table whose second entry is non-zero) |
| Quads.ULongQuadDraw | OpenGL-Examples/02indexed_vbo.py:75-97 | the strip table stored as `np.uint` and drawn as `GL_UNSIGNED_INT` is read as built exactly when `unsigned long` has 4 bytes; with 8 bytes the draw reads 0, 0, 1, 0, 2, 0, two triangles with a repeated corner |
| Quads.UInt32QuadsDraw | OpenGL-Examples/02indexed_vbo.py:75-97 | the three strip tables stored as `np.uint32` are read as built on every platform |
| Quads.ColoredQuadLayout | OpenGL-Examples/02indexed_vbo.py:54-97 | 4 records of 6 floats tiled by the 24-byte layout (colour at byte 12), indices the strip split of the quad, the draw count 6 equal to the index count, and the `np.uint` table read as built exactly when `unsigned long` has 4 bytes |
| Quads.ColoredQuadCovers | OpenGL-Examples/02indexed_vbo.py:54-78 | the four vertices are the four distinct corners of [-1, 1]^2; the two counter-clockwise triangles use all four, share exactly one diagonal and so lie on either side of it, tiling the whole viewport without overlap |
| Quads.TexturedQuadLayout | OpenGL-Examples/03texture.py:58-135 | 4 records of 5 floats tiled by the 20-byte layout (uv at byte 12), strip indices below 4, the draw count 6, and the `np.uint` table read as built exactly when `unsigned long` has 4 bytes |
| Quads.TexturedQuadCovers | OpenGL-Examples/03texture.py:58-82 | the textured quad's vertices are the four corners of [-1, 1]^2 and its two counter-clockwise triangles share one diagonal and use all four corners: they tile the viewport without overlap |
| Quads.TexturedQuadUpright | OpenGL-Examples/03texture.py:58-64 | each vertex's uv is its screen position mapped from [-1, 1] to [0, 1], so the texture fills the quad upright |
| Quads.PostQuadLayout | OpenGL-Examples/06instancing1.py:164-289 | the post quad is 4 records of 5 floats tiled by its 20-byte layout, with strip indices below 4, the draw count 6, and the `np.uint` table read as built exactly when `unsigned long` has 4 bytes |
| Quads.PostQuadCovers | OpenGL-Examples/06instancing1.py:164-188 | the post quad's vertices are the four corners of [-1, 1]^2 and its two counter-clockwise triangles share one diagonal and use all four corners, so the FXAA pass writes every pixel once |
| Quads.PostQuadUpright | OpenGL-Examples/06instancing1.py:164-170 | the post quad samples the offscreen image at the same place it draws it |
| Quads.ImageQuadLayout | imageProcess/main.py:77-129 | stride 0 means packed 8-byte records, which the 4 two-float vertices fill; the indices are the fan split, all below 4, all of them are drawn, and the `np.ushort` table drawn as `GL_UNSIGNED_SHORT` is read as built on every platform |
| Quads.ImageQuadCovers | imageProcess/main.py:77-82 | the image quad's vertices are the four corners of the unit square and its two counter-clockwise triangles share the diagonal (0, 0)-(1, 1) and use all four corners: they tile it without overlap |
| Cubes.FacesUpToLayout | OpenGL-Examples/06instancing1.py:69-106 | the vertex table has 4 records per face, record `4f + r` being record `r` of face `f` |
| Cubes.ColorCubeSize | OpenGL-Examples/06instancing1.py:69-106 | the colour cube has 24 vertices |
| Cubes.ColorCubeRecords | OpenGL-Examples/06instancing3_uniform_buffer.py:63-110 | 24 x 6 floats, tiled by the 24-byte layout with colour at byte 12, read back as 24 vertices |
| Cubes.ColorCubeIndicesAreStrips | OpenGL-Examples/06instancing1.py:121-140 | the index table is the strip split of six quads: face `f` uses only vertices 4f..4f+3 |
| Cubes.ColorCubeDraw | OpenGL-Examples/06instancing1.py:121-265 | the `6*6` draw covers exactly the 36 indices, whole triangles, each below the 24 vertices; the `np.uint` table drawn as `GL_UNSIGNED_INT` is read as built exactly when `unsigned long` has 4 bytes |
| Cubes.UInt32CubeDraw | OpenGL-Examples/06instancing3_uniform_buffer.py:115-208 | the cube's index table stored as `np.uint32` is read as built on every platform |
| Cubes.ColorCubeFacesSound | OpenGL-Examples/06instancing1.py:69-106 | every quad drawn is four different corners of one side of [-1, 1]^3, in one colour |
| Cubes.ColorCubeFacesDistinct | OpenGL-Examples/06instancing1.py:69-106 | the six faces are six different sides in six different colours |
| Cubes.OffsetForDecodes | OpenGL-Examples/06instancing3_uniform_buffer.py:145-154 | the reference offset of instance `k < 8` determines `k` (bits 2, 1, 0 from x, y, z) |
| Cubes.OffsetsMatch | OpenGL-Examples/06instancing3_uniform_buffer.py:145-154 | there are 8 offsets and offset `k` has x, y, z = -2 exactly where bit 2, 1, 0 of `k` is set, else +2, with w = 0 |
| Cubes.InstanceOffsets | OpenGL-Examples/06instancing3_uniform_buffer.py:145-164 | the 32 floats are one RGBA32F texel per drawn instance, and the 8 offsets are pairwise different |
| Cubes.CubeIgnoresWidth | diffuseLighting/main.py:144-146 | the half-extent is 0.5 whatever width is passed, so every `Cube` is the same |
| Cubes.CubeIndicesAreFans | diffuseLighting/main.py:209-220 | the index table is the fan split of six quads: face `k` is (4k, 4k+1, 4k+2), (4k, 4k+2, 4k+3) |
| Cubes.CubeIndexTable | diffuseLighting/main.py:177-220 | `render` draws 36 indices in whole triangles, each below the 24 rows of the normal table |
| Cubes.CubeAsWrittenOutOfRange | diffuseLighting/main.py:149-175 | as written, the vertex table has 20 rows, index 20 is drawn (so the draw leaves the table), and rows 16-19 lie opposite to where their normals point |
| Cubes.CubeFacesOnTheirSides | diffuseLighting/main.py:149-208 | each face of the corrected table lies on the side of the cube its normals point out of |
| Cubes.CubeSound | diffuseLighting/main.py:149-220 | corrected, the table has a row per normal (24), the draw stays inside it, and every row is a corner on the face its normal points out of |
| FilterCycle.IndexOf | imageProcess/main.py:134 | `tuple.index`: nothing exactly when the value is absent, otherwise the position of its first occurrence |
| FilterCycle.KeyPress | imageProcess/main.py:132-141 | only Space acts; it fails exactly when the active filter is not in the tuple, otherwise the new filter is in the tuple and the title names it |
| FilterCycle.InitialValid | imageProcess/main.py:33-34 | the start filter is `filters[0]`, it is one of the filters, and the filters are distinct |
| FilterCycle.KeyPressPreservesValid | imageProcess/main.py:133-140 | from a valid state no key fails, and the active filter stays a member with a matching title |
| FilterCycle.SpaceAdvances | imageProcess/main.py:134-139 | Space moves from filter `i` to filter `i + 1`, and from the last to the first |
| FilterCycle.PressesLater | imageProcess/main.py:134-139 | `k` presses move the widget `k` wrapping steps round the tuple |
| FilterCycle.PressesAdvance | imageProcess/main.py:134-139 | after `k` presses a widget on filter `i` is on filter `(i + k) mod n` |
| FilterCycle.FullCycleReturns | imageProcess/main.py:132-141 | `n` presses bring a valid widget back to exactly its starting state |
| FilterCycle.SpaceToggles | imageProcess/main.py:33 | with the program's two filters one press selects the Gaussian filter and two restore the start |
| FilterCycle.InstallPrograms | imageProcess/main.py:62-67 | the table has a program for exactly the filters, each compiled from its own filter's shader, the last compile winning for a repeated name |
| FilterCycle.Program | imageProcess/main.py:127 | the paint lookup fails with KeyError exactly when the active filter has no program |
| FilterCycle.PaintFindsProgram | imageProcess/main.py:127 | on every valid widget the lookup succeeds and finds the program compiled from the active filter |
| Fxaa.Step | OpenGL-Examples/06instancing1.py:228-230 | FXAA flips exactly when the key is down now and was not down before, and the key state is remembered |
| Fxaa.Frame | OpenGL-Examples/06instancing1.py:233-289 | the cube's 6*6 draw is always issued, and the post quad's draw is issued exactly when FXAA is on |
| Fxaa.FrameTargets | OpenGL-Examples/06instancing1.py:236-289 | the cube goes to the offscreen framebuffer exactly when FXAA is on, the post pass draws onto the screen only then, and every frame ends with the screen bound |
| Fxaa.Render | OpenGL-Examples/06instancing1.py:222-292 | one frame: FXAA flips exactly on a rising edge of the space bar; then, whatever was bound before, the cube's 36 indices are drawn into the offscreen framebuffer and the 6-index post pass onto the screen exactly when FXAA is on, the cube goes to the screen otherwise, and the screen is bound at the end |
| Fxaa.RunCountsPresses | OpenGL-Examples/06instancing1.py:228-230 | after a run of frames FXAA is its start value flipped once per rising edge of the key, and the remembered key is the last frame's |
| Fxaa.HeldKeyRisesOnce | OpenGL-Examples/06instancing1.py:228-230 | a held key rises at most once: on the first frame, and only if it was up before |
| Fxaa.HoldingFlipsOnce | OpenGL-Examples/06instancing1.py:230 | holding the key across any number of frames flips FXAA at most once |
| Fxaa.TapsToggle | OpenGL-Examples/06instancing1.py:228-230 | a tap flips FXAA and two taps restore it |
| Fxaa.FirstFrameUsesFxaa | OpenGL-Examples/06instancing1.py:38-39 | the start state has FXAA on, and the first frame draws offscreen and then posts to the screen |
| TransformFeedback.Render | OpenGL-Examples/09transform_feedback.py:177-224 | a frame reads vertex array `(cur+1) % n`, writes buffer `cur`, draws vertex array `cur` (the buffer just written), processes all particles, and moves `cur` to the next index; source and target differ when `n >= 2` |
| TransformFeedback.Run | OpenGL-Examples/09transform_feedback.py:224 | the current index stays in `[0, n)` after any number of frames |
| TransformFeedback.RunLater | OpenGL-Examples/09transform_feedback.py:224 | after `k` frames the index has taken `k` wrapping steps |
| TransformFeedback.RunAdvances | OpenGL-Examples/09transform_feedback.py:224 | after `k` frames the index is `(cur + k) mod n` |
| TransformFeedback.FrameAtBindings | OpenGL-Examples/09transform_feedback.py:178-181 | frame `k` writes buffer `(cur + k) mod n` and reads the one after it |
| TransformFeedback.ReadsWhatWasWritten | OpenGL-Examples/09transform_feedback.py:178-224 | frame `k + n - 1` reads the buffer frame `k` wrote |
| TransformFeedback.TwoBuffersAlternate | OpenGL-Examples/09transform_feedback.py:178-224 | with the two buffers, two frames restore the index, each frame reads what the previous one wrote, and consecutive frames write different buffers |
| TransformFeedback.StartPosition | OpenGL-Examples/09transform_feedback.py:104-107 | for draws in [0, 1) a particle starts in the box of half-width 2.5 around (0, 20, 0) |
| TransformFeedback.InitialData | OpenGL-Examples/09transform_feedback.py:101-110 | two entries per particle |
| TransformFeedback.InitialDataAt | OpenGL-Examples/09transform_feedback.py:101-110 | entry `2i` is particle `i`'s start position and entry `2i + 1` its velocity, which is zero |
| TransformFeedback.ParticleRecords | OpenGL-Examples/09transform_feedback.py:116-130 | the array read with stride 6 floats is one six-float record per particle |
| TransformFeedback.ParticleUpload | OpenGL-Examples/09transform_feedback.py:116-130 | the stride-24 layout tiles position at byte 0 and velocity at byte 12, the data are whole records, GL reads one vertex per particle, and with P particles uploaded every frame's passes process exactly the vertices in the buffer |
| TransformFeedback.ParticleRecordAt | OpenGL-Examples/09transform_feedback.py:101-130 | vertex `i` as read is particle `i`'s start position followed by a zero velocity |
| TransformFeedback.UniformsMatchTables | OpenGL-Examples/09transform_feedback.py:143-175 | 3 centres and 3 radii match the uniform count 3, and every radius is positive |
| Checkerboard.MakeImage | OpenGL-Examples/03texture.py:96-102 | the loop builds the image of `height` rows of `width` RGBA pixels: `4 width height` entries |
| Checkerboard.ImageLength | OpenGL-Examples/03texture.py:96-102 | `m` rows hold `4 width` entries each |
| Checkerboard.RowAt | OpenGL-Examples/03texture.py:98-102 | entry `4i + c` of a row is channel `c` of pixel `i` |
| Checkerboard.ImageRowAt | OpenGL-Examples/03texture.py:97-102 | row `j` starts at entry `4 width j` |
| Checkerboard.ImageAt | OpenGL-Examples/03texture.py:97-102 | pixel (i, j) occupies entries `4 (j width + i)` to `+3`, R, G, B, A in order, rows outermost |
| Checkerboard.ChannelValues | OpenGL-Examples/03texture.py:99-114 | every entry is 0 or 0xFF, alpha is always 0xFF, and every entry fits the unsigned byte of the upload |
| Checkerboard.ChannelLitIff | OpenGL-Examples/03texture.py:99-101 | a colour entry is 0xFF exactly when both `j / p` and `i / p` are odd, for the channel's period `p` (10, 13, 17) |
| Checkerboard.DefaultImageSize | OpenGL-Examples/03texture.py:17 | the default 640 x 480 window gives 1228800 entries |

## Left out

- All OpenGL, GLFW and Qt calls are left out. These include shader compilation and linking, buffer and texture uploads, framebuffer and renderbuffer setup, window and event-loop code, and `glGetError`. They are calls into libraries whose code is not part of this model. Only the data handed to them and the decisions around them are modelled.
- Matrix math is left out: `glm.perspective` and `glm.rotate`, `QMatrix4x4.lookAt`, and the camera's `getWorldToViewMatrix`. The mouse look in `updateMouse` (rippleDeformer/main.py:58-72) is also left out. All of these are float numerics in libraries not shown. The camera's axes are state that the keys never change.
- The particle physics and the shaders' sphere bounce live in GLSL files that are not part of this model.
- `rand()` is a parameter: the triples passed to `TransformFeedback.StartPosition`. The `randint` seed is only handed to the shader, so it is left out with the physics.
- Pillow's image loading and flipping in imageProcess are left out, as foreign calls. So is the window geometry taken from the image size.
- float32 rounding is left out. Positions, uv coordinates and particle data are exact reals, so `Grid.PlaneCorners` and `Camera.OppositeKeysCancel` hold exactly, where float32 would hold them only approximately.
- Python 3 division is not modelled. The scripts are Python 2 (they use `xrange`), where `/` on ints floors. `Checkerboard.Channel` uses Dafny's division, which agrees with floor on the non-negative pixel coordinates.
- Two defects in diffuseLighting's widget are not modelled. `initializeGL` calls `self.makePlane` (diffuseLighting/main.py:309), which that widget does not define. `setupBuffers` calls `glGenVertexArrays(0)` (diffuseLighting/main.py:113). `Plane` and `Cube` are modelled instead.
- Layout.ReadIndices assumes little-endian byte order, as on every platform the scripts target, and index values that fit one word of the GL index type, as every table here does. Big-endian reads are not modelled.
- Triangle winding matters only under face culling, which no program enables. It is checked for the quads (`Quads.*Covers`) but not for the cubes.
- Fxaa.Step: `renderGL` reads `glfwGetKey` twice, once for the test and once for the remembered state. GLFW changes key state only while polling events, between frames, so both reads give the same value, and the model samples the key once per frame.
- FilterCycle.SpaceAdvances, FilterCycle.PressesAdvance, FilterCycle.PressesLater and FilterCycle.FullCycleReturns require the filters to be distinct. With a repeated name, `tuple.index` finds the first occurrence and the cycle skips the later copies. The program's own tuple is distinct (`FilterCycle.InitialValid`).
- FilterCycle.InstallPrograms identifies each program by its place in the compile order, not by the GL handle `compileProgram` returns.
- Checkerboard.MakeImage takes non-negative sizes. A negative `width` or `height` would give an empty image in Python, and `glTexImage2D` would reject it.
- TransformFeedback.Render requires a current index below a non-zero buffer count. Every state reached from `__init__` meets this (`TransformFeedback.Run`). Outside it, Python would raise `ZeroDivisionError` or `IndexError`, and those paths are not modelled.
- TransformFeedback.Render models vertex array `i` as reading buffer `i`, as `initGL` sets them up in pairs (OpenGL-Examples/09transform_feedback.py:117-130). The per-frame uniform uploads other than the sphere tables and the seed are left out: gravity, `dt` and bounce are physics constants.
- Files that are pure plumbing are not part of this model: displayImage, 00skeleton, 01shader_vbo1, the two triangle scripts, and 07geometry_shader_blending. The last one's buffer and draw do not agree with each other, so it holds no consistent tables to check.

## Findings

| source | as written | input that shows it | evidently intended | confidence | as-written member | corrected member |
|---|---|---|---|---|---|---|
| diffuseLighting/main.py:149-220 | `Cube`'s vertex table has 20 rows. The four rows after "left" are labelled bottom but sit at y = +0.5, and there is no sixth face. Yet the normal table has 24 rows and the indices reach 23. | any `Cube(width)`: `render` draws index 20 (entry 30) against a 20-row vertex buffer, and rows 16-19 carry normal (0, -1, 0) on the top face | 24 rows, in the normals' order: a bottom face at y = -0.5 in rows 16-19, then the top face at y = +0.5 in rows 20-23 | high for the table as text; not executed (`Cube` is never instantiated by the widget) | Cubes.CubeAsWrittenOutOfRange | Cubes.CubeSound |
| OpenGL-Examples/02indexed_vbo.py:75-97 | the quad's index table is built with `dtype=np.uint`, uploaded by its `nbytes`, and drawn as six `GL_UNSIGNED_INT` | on a platform with an 8-byte `unsigned long` (64-bit Linux or macOS) the draw reads 0, 0, 1, 0, 2, 0: both triangles repeat a corner and nothing is drawn | `dtype=np.uint32`, 4 bytes everywhere, to match `GL_UNSIGNED_INT` | high where `unsigned long` has 8 bytes, none on Windows; not executed | Quads.ULongQuadDraw | Quads.UInt32QuadsDraw |
| OpenGL-Examples/03texture.py:79-135 | the same `np.uint` strip table drawn as `GL_UNSIGNED_INT` | the same 8-byte platform: the draw reads 0, 0, 1, 0, 2, 0 | `dtype=np.uint32` | high where `unsigned long` has 8 bytes; not executed | Quads.TexturedQuadLayout | Quads.UInt32QuadsDraw |
| OpenGL-Examples/06instancing1.py:186-289 | the post quad's `np.uint` table drawn as `GL_UNSIGNED_INT` | the same 8-byte platform: the FXAA pass reads 0, 0, 1, 0, 2, 0 and draws nothing | `dtype=np.uint32` | high where `unsigned long` has 8 bytes; not executed | Quads.PostQuadLayout | Quads.UInt32QuadsDraw |
| OpenGL-Examples/06instancing1.py:121-265 | the colour cube's 36-entry `np.uint` table drawn as `6*6` `GL_UNSIGNED_INT` (likewise OpenGL-Examples/06instancing3_uniform_buffer.py:115-208) | the same 8-byte platform: the second index read is 0 where the table has 1, and the draw reads only the first 18 entries, interleaved with zeros | `dtype=np.uint32` | high where `unsigned long` has 8 bytes; not executed | Cubes.ColorCubeDraw | Cubes.UInt32CubeDraw |
