# Terrain, scene graph, cube and input handling of a small OpenGL demo, in Dafny

This project models the computational core of a real-time 3D demo. The demo
has a heightmap terrain, a textured cube, a scene graph and mouse/keyboard
camera controls. Every OpenGL call is left out, and what remains is stated as
pure Dafny functions and methods, with proofs about them.

- **Terrain** (`terrain.dfy`, `terrain_properties.dfy`, `layout.dfy`). This
  models `Terrain::Terrain`. A grid of `xSlices` × `zSlices` cells has
  `(xSlices + 1) * (zSlices + 1)` vertices, row-major, with vertex `(x, z)` at
  slot `z * nx + x`. It is built in three passes:
  1. Positions, texture coordinates and heights. A height is sampled from an
     RGB heightmap or is 0 when none was loaded.
  2. A finite-difference normal per vertex, from four neighbour heights that
     are clamped to the vertex itself at the borders.
  3. Two triangles per cell, cells in row-major order.

  Each buffer is defined once as a row-major concatenation of per-cell groups
  (`Layout.Rows`). The methods that fill it with the source's nested loops
  are proved equal to it. Further lemmas give lengths, offsets, index ranges,
  winding, and the flat-terrain cases.
- **Scene graph** (`scene_graph.dfy`, `scene_graph_properties.dfy`). This
  models `Node` as a finite tree over any matrix type `M` with a
  multiplication. The render callback is recorded as a `Call` of the callback
  with the world matrix it receives, so a walk yields its sequence of calls.
  When `mul` and `identity` form a monoid, every call is proved to receive the
  parent matrix times the product of the local transforms on the path to its
  node. Pre-order and child order are proved as well.
- **Cube** (`cube.dfy`). This models `Cube::Cube`. It covers:
  - the 36-vertex, 8-values-per-vertex table, built face by face;
  - the loop that splits the table into position, texture-coordinate and
    normal streams, proved to be the inverse of interleaving;
  - per-face facts about the table: corners, normals, texture coordinates,
    the shared diagonal and the winding.
- **Input** (`input.dfy`, `input_properties.dfy`). This covers `Scene`'s
  `on_key`, `on_click` and `on_drag`, the window size that `resize` records,
  the constructor's initial camera state, and the clamp/reset at the start of `Scene::update`. Together they form a
  record-update state machine, with an invariant kept over every event
  sequence.

Floats are modelled as reals, so float rounding is not modelled. Integers are
unbounded. Source paths below are relative to the repository root.

Three points about the code and how the model treats them:
- The heightmap is loaded as RGB (`SOIL_LOAD_RGB`), and the red byte of the
  sampled pixel is the height.
- Every buffer is one flat row-major array: `z` is the outer loop, and slot
  `z * nx + x` holds vertex `(x, z)`. This includes the temporary height buffer.
- The code normalises the flat-ground normal `(0, 2 * x_step, 0)` to
  `(0, 1, 0)` before storing it. The model stops before normalising, so it
  stores `(0, 2 * xStep, 0)`.

## Model

| member | source | states |
|---|---|---|
| Terrain.SampleCoord | Entrega/code/Terrain.cpp:57-58 | the texel coordinate is the floor `c` of `i * (texSize - 1) / slices` (`c * slices <= i * (texSize - 1) < (c + 1) * slices`); it never exceeds `texSize - 1`; the first grid line samples texel 0 and the last samples texel `texSize - 1` |
| Terrain.PixelIndex | Entrega/code/Terrain.cpp:57-61 | the byte read is the first of a 3-byte pixel, and all three bytes of that pixel lie inside the `width * height * 3` image |
| Terrain.SampleHeight | Entrega/code/Terrain.cpp:53-64 | without a heightmap the height is 0 |
| Terrain.HeightRange | Entrega/code/Terrain.cpp:61-63 | with a heightmap and a non-negative maximum height, every height lies in `[-0.15 * maxHeight, 0.85 * maxHeight]` |
| Terrain.StepsSpanGrid | Entrega/code/Terrain.cpp:43-44 | `xSlices` steps of `xStep` span the terrain's width exactly, and `zSlices` steps of `zStep` its depth |
| Terrain.VertexPosition | Entrega/code/Terrain.cpp:51-53 | a vertex's Y coordinate is the height sampled for it |
| Terrain.VertexSpacing | Entrega/code/Terrain.cpp:51-52 | the next vertex of a row is `xStep` further along X at the same Z, and the next row's vertex is `zStep` further along Z at the same X |
| Terrain.AxisBounds | Entrega/code/Terrain.cpp:43-44 | coordinate `i` of `n` steps along a centred axis is `-size / 2` at `i = 0`, `size / 2` at `i = n`, and between the two otherwise |
| Terrain.VertexPositionBounds | Entrega/code/Terrain.cpp:51-52 | vertex X and Z positions span exactly `[-width / 2, width / 2]` × `[-depth / 2, depth / 2]`, with the first and last vertices of a row or column on the edges |
| Terrain.VertexUv | Entrega/code/Terrain.cpp:72-75 | each vertex contributes two texture coordinates |
| Terrain.VertexUvBounds | Entrega/code/Terrain.cpp:72-73 | texture coordinates lie in the unit square; the grid's first and last rows and columns map to its edges |
| Terrain.GeometryRow | Entrega/code/Terrain.cpp:49-76 | the inner loop over row `z` appends exactly row `z` of the reference position, texture-coordinate and height buffers, one height per vertex |
| Terrain.GenerateGeometry | Entrega/code/Terrain.cpp:47-77 | pass 1 produces the reference position, texture-coordinate and height buffers, row after row |
| Terrain.Coordinates | Entrega/code/Terrain.cpp:36 | the position buffer holds `3 * totalVertices` values |
| Terrain.TextureUvs | Entrega/code/Terrain.cpp:37 | the texture-coordinate buffer holds `2 * totalVertices` values |
| Terrain.Heights | Entrega/code/Terrain.cpp:41 | the height buffer holds one value per vertex |
| Terrain.Normals | Entrega/code/Terrain.cpp:38 | the normal buffer holds `3 * totalVertices` values |
| Terrain.SlotInRange | Entrega/code/Terrain.cpp:29 | the slot `z * nx + x` of a vertex of an `nx` × `nz` grid is below `nx * nz` |
| Terrain.SlotNextRow | Entrega/code/Terrain.cpp:90-91 | the vertex one row further on is `nx` slots further on |
| Terrain.NeighbourSlots | Entrega/code/Terrain.cpp:88-91 | each of the four neighbour slots read for a normal is below `totalVertices` |
| Terrain.NeighbourClamp | Entrega/code/Terrain.cpp:88-91 | left, right, down and up are the adjacent slots (±1, ±nx) inside the grid; at each border the vertex's own slot replaces the missing neighbour, with no wrap-around |
| Terrain.NormalAt | Entrega/code/Terrain.cpp:88-96 | the pre-normalisation normal's Y component is `2 * xStep`, whatever the neighbour heights and whatever the Z step |
| Terrain.LevelNormal | Entrega/code/Terrain.cpp:88-96 | where all heights are equal, the normal is `(0, 2 * xStep, 0)` |
| Terrain.NormalRow | Entrega/code/Terrain.cpp:84-102 | the inner loop over row `z` appends exactly row `z` of the reference normal buffer |
| Terrain.ComputeNormals | Entrega/code/Terrain.cpp:82-103 | pass 2 produces the reference normal buffer, read from the completed height buffer |
| Terrain.Quad | Entrega/code/Terrain.cpp:111-117 | each cell yields six indices; their order and ranges are in `TerrainProperties.CellTriangles` and `CellTrianglesNonDegenerate` |
| Terrain.TriangleIndices | Entrega/code/Terrain.cpp:106-119 | the index buffer holds exactly `6 * xSlices * zSlices` indices |
| Terrain.BuildIndices | Entrega/code/Terrain.cpp:106-119 | pass 3's nested loops produce the reference index buffer, six indices per cell, row-major |
| Terrain.BuildTerrain | Entrega/code/Terrain.cpp:19-120 | the constructor's buffers are the three passes' references, normals computed from the sampled heights; `number_of_indices` is the index count |
| TerrainProperties.BufferSizes | Entrega/code/Terrain.cpp:27-38 | `totalVertices = (xSlices + 1) * (zSlices + 1)`; the position, texture-coordinate, height and normal buffers hold 3, 2, 1 and 3 values per vertex |
| TerrainProperties.CellTriangles | Entrega/code/Terrain.cpp:107-118 | cell `(x, z)` starts at offset `6 * (z * xSlices + x)` and contributes `tl, bl, tr, tr, bl, br`, with `tl = z * nx + x`, `tr = tl + 1`, `bl = tl + nx`, `br = bl + 1` |
| TerrainProperties.IndicesInRange | Entrega/code/Terrain.cpp:111-117 | every index in the buffer is below `(xSlices + 1) * (zSlices + 1)` |
| TerrainProperties.CellTrianglesNonDegenerate | Entrega/code/Terrain.cpp:111-117 | each triangle names three distinct vertices, and the two triangles share the bottom-left/top-right diagonal |
| TerrainProperties.TrianglesFaceUp | Entrega/code/Terrain.cpp:111-117 | both triangles of every cell wind counter-clockwise seen from +Y: their edge cross product has Y component `xStep * zStep`, whatever the heights |
| TerrainProperties.HeightIsPositionY | Entrega/code/Terrain.cpp:66-69 | the height stored at vertex `(x, z)`'s slot is the Y value of its position, and both are the vertex's height |
| TerrainProperties.FlatWithoutHeightmap | Entrega/code/Terrain.cpp:53-66 | without a heightmap every stored height is 0 |
| TerrainProperties.UvsInUnitSquare | Entrega/code/Terrain.cpp:72-75 | every value in the texture-coordinate buffer lies in `[0, 1]` |
| TerrainProperties.LevelGroundNormalsPointUp | Entrega/code/Terrain.cpp:82-101 | where all heights are equal, the three values stored for every vertex's normal are `0, 2 * xStep, 0` |
| TerrainProperties.NoHeightmapNormalsPointUp | Entrega/code/Terrain.cpp:53-101 | without a heightmap every stored normal is `(0, 2 * xStep, 0)` |
| TerrainProperties.NormalFromTangents | Entrega/code/Terrain.cpp:93-96 | the cross product of the tangents `(0, h_U - h_D, 2 * zStep)` and `(2 * xStep, h_R - h_L, 0)` is the stored normal with X and Y scaled by `2 * zStep` and Z by `2 * xStep`, so it is parallel to the normal when the steps are equal |
| SceneGraph.NewNode | Entrega/code/Node.cpp:7 | a new node has the identity transform, no children and no callback |
| SceneGraph.AddChild | Entrega/code/Node.cpp:10-12 | the child is appended after the existing children, which keep their order; the transform and callback are unchanged |
| SceneGraph.UpdateAndRender | Entrega/code/Node.cpp:16-37 | a walk makes one call per node of the tree that has a callback |
| SceneGraph.RenderChildren | Entrega/code/Node.cpp:34-36 | walking the children makes one call per callback-carrying node in their subtrees |
| SceneGraphProperties.OwnCallFirst | Entrega/code/Node.cpp:22-29 | a node's own callback is called first, with `parent * transform`; without a callback, the walk is just the children's walks under that matrix |
| SceneGraphProperties.ChildrenInOrder | Entrega/code/Node.cpp:34-36 | the walk is the node's own call, then the walks of the children before `i`, then child `i`'s walk, then the walks of the later children, all under the node's world matrix |
| SceneGraphProperties.AddChildTrace | Entrega/code/Node.cpp:10-12 | after `add_child`, a walk makes the calls it made before, followed by the new child's walk under the node's world matrix |
| SceneGraphProperties.NewNodeTrace | Entrega/code/Node.cpp:7 | a new node's walk makes no call; once given a callback, it calls it once with exactly the parent matrix |
| SceneGraphProperties.TraceMatchesAncestry | Entrega/code/Node.cpp:16-37 | the walk makes exactly the calls of the tree's callbacks in pre-order, each folding the local transforms from the walked node down to the callback's node onto the parent matrix |
| SceneGraphProperties.FoldIsProduct | Entrega/code/Node.cpp:22 | with an associative multiplication and its identity, folding a chain of transforms onto `parent` is `parent` times the chain's product |
| SceneGraphProperties.WorldIsAncestorProduct | Entrega/code/Node.cpp:22-35 | call `i` of a walk invokes the `i`-th callback in pre-order with `parent` times the product of the local transforms from the root down to its node |
| SceneGraphProperties.RootCallbackSeesOwnTransform | Entrega/code/Node.cpp:22-28 | walked from the identity, a node's own callback receives its local transform |
| Cube.Table | Entrega/code/Cube.cpp:14-63 | the table has 36 rows |
| Cube.FaceVertex | Entrega/code/Cube.cpp:14-63 | every row of face `f` carries that face's signed unit axis normal and lies on the face's plane at distance `size / 2`; each of its coordinates is `±size / 2`, and each texture coordinate is 0 or 1 |
| Cube.SharedDiagonal | Entrega/code/Cube.cpp:14-63 | the second triangle of every face repeats the first triangle's first and last corners |
| Cube.TriangleFacesOutward | Entrega/code/Cube.cpp:14-63 | both triangles of every face wind counter-clockwise seen from outside: their edge cross product is the face normal scaled by `size * size` |
| Cube.Deinterleave | Entrega/code/Cube.cpp:69-78 | the loop's three streams are the positions, texture coordinates and normals of the table, and interleaving them gives the table back |
| Cube.StreamsAt | Entrega/code/Cube.cpp:70-77 | for vertex `i`, `pos[3i + k] = vertices[8i + k]`, `uvs[2i + k] = vertices[8i + 3 + k]` and `norm[3i + k] = vertices[8i + 5 + k]` |
| Cube.SplitThenInterleave | Entrega/code/Cube.cpp:69-78 | interleaving the three streams of a 288-value table restores the table |
| Cube.InterleaveThenSplit | Entrega/code/Cube.cpp:69-78 | splitting an interleaved table returns the three streams it was built from |
| Cube.NewCube | Entrega/code/Cube.cpp:9-78 | `vertex_count` is 36; the position, texture-coordinate and normal streams hold 108, 72 and 108 values and are the de-interleaved table |
| Cube.StreamsOfTable | Entrega/code/Cube.cpp:14-77 | vertex `i`'s entries in the three streams are the position, texture coordinates and normal of table row `i` |
| Input.Initial | Entrega/code/Scene.cpp:107-113 | the camera starts at pitch 0.4 and yaw 0, with no pending rotation, the pointer released and no movement flag set; with a window of positive size the state is valid |
| Input.OnKey | Entrega/code/Scene.cpp:355-361 | a movement key (`w/W`, `s/S`, `a/A`, `d/D`, `e/E`, `q/Q`) sets its own flag to `pressed`; every other flag and field is unchanged, and any other key changes nothing |
| Input.OnClick | Entrega/code/Scene.cpp:354 | records the pointer position and whether the button is down, and changes nothing else |
| Input.OnDrag | Entrega/code/Scene.cpp:353 | released, nothing changes; pressed, the pending rotation is `1.025` times the travel since the last position over the window height (about X) or width (about Y), the position is recorded, and nothing else changes |
| Input.ClampPitch | Entrega/code/Scene.cpp:248 | the result lies in `[-1.5, 1.5]` and equals the input when the input already does |
| Input.ApplyRotation | Entrega/code/Scene.cpp:246-249 | the pitch becomes the clamped sum, the yaw the plain sum, both deltas 0; nothing else changes, and a valid state stays valid |
| Input.OnResize | Entrega/code/Scene.cpp:340-342 | the window's width and height become `w` and `h` and nothing else changes; a valid state stays valid exactly when both are positive |
| InputProperties.KeysAreDistinct | Entrega/code/Scene.cpp:356-359 | no key code is bound to two directions |
| InputProperties.OnKeyLastWins | Entrega/code/Scene.cpp:355-361 | two events for the same key leave the state the second alone would |
| InputProperties.DragAfterReleaseIgnored | Entrega/code/Scene.cpp:353-354 | a drag after a release changes nothing |
| InputProperties.DragAfterPress | Entrega/code/Scene.cpp:353-354 | a drag right after a press sets the pending rotation from the travel since the press |
| InputProperties.DragsOverwrite | Entrega/code/Scene.cpp:353 | a second drag before the next update replaces the pending rotation rather than adding to it |
| InputProperties.ApplyRotationIdempotent | Entrega/code/Scene.cpp:246-249 | the clamp and reset is idempotent |
| InputProperties.ClampIsNearest | Entrega/code/Scene.cpp:248 | the clamped pitch is the allowed pitch nearest the unclamped one |
| InputProperties.DragAfterResize | Entrega/code/Scene.cpp:342-353 | a drag after `resize(w, h)` divides the vertical travel by the new `h` and the horizontal travel by the new `w` |
| InputProperties.ZeroSizeBlocksDrag | Entrega/code/Scene.cpp:342-353 | after a resize to zero width or height, a pressed pointer cannot drag without dividing by zero |
| InputProperties.ReachableStatesValid | Entrega/code/Scene.cpp:246-361 | from the initial state of a window with a size, after any sequence of key, click, drag, resize and update events whose resizes keep a positive size, the pitch is within `[-1.5, 1.5]`, the window has a positive size, and a pressed pointer has a recorded position |

## Left out

- All OpenGL calls: VAO/VBO creation and upload, binding and draw calls, and the parts of `Scene::resize` after it records the size: the camera ratio, the viewport and the render-target storage. These are side effects on the graphics driver or on collaborators outside this model. The render targets, the two-pass renderer and the shader sources are left out too.
- Loading the heightmap with SOIL, and the error message printed when loading fails. The image is an `Option<Image>` parameter: `None` stands for a failed load.
- Half-precision conversion of the buffers and `glm::normalize`. The model stores reals and stops at the normal before normalisation.
- Camera rotation and movement in `Scene::update` after the clamp, `cube_angle`, the camera's location and speed, and rendering. These are floating-point matrix work on collaborators outside this model.
- The `8 cubemap` directory. It is an earlier copy of the same classes.
- Terrain.SampleCoord: computes the exact floor of `i * (texSize - 1) / slices`. The source computes it in floats and truncates, so rounding could land one texel lower on an exact boundary.
- Terrain.BuildTerrain: requires at least one cell each way. The source divides by `x_slices` and `z_slices` as floats and would produce infinities or NaN for zero, which reals cannot represent.
- Terrain.PixelIndex: requires an image of at least 1 × 1 pixels with `width * height * 3` bytes. This is what a successful RGB load returns.
- Terrain.GenerateGeometry: appends heights in slot order rather than assigning `temp_heights[z * n_verts_x + x]`. Both give the same buffer, because row `z` starts at slot `z * nx`.
- Terrain.BuildIndices: indices are unbounded naturals. 32-bit `unsigned`/`GLuint` wrap-around and the `GLsizei` cast of the index count are not modelled.
- Input.OnDrag: requires a window of non-zero width and height while the pointer is pressed. The source divides by them as floats and would store infinities or NaN.
- InputProperties.ReachableStatesValid: requires every resize to report a positive width and height. `resize(w, 0)` (a minimised window, say) followed by a pressed drag divides by zero in the source, which reals cannot represent; `ZeroSizeBlocksDrag` states that such a drag is excluded.
- Input.Initial: the last pointer position starts absent. The constructor never sets it; the first `on_click` records it.
- SceneGraph.UpdateAndRender: nodes form a finite tree of values. Shared `shared_ptr` children, cycles, and callbacks that modify the graph while it is walked are not modelled. A callback's effect is recorded as a call in the returned sequence.
