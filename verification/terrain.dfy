/**
 The heightmap terrain builder (`Terrain::Terrain`).

 A terrain of `xSlices` by `zSlices` cells has `(xSlices + 1) * (zSlices + 1)`
 vertices laid out row-major: vertex `(x, z)` occupies slot `z * nx + x`,
 where `nx = xSlices + 1`. Construction runs three passes:

   1. positions, texture coordinates and the height of every vertex, the
      height being sampled from the heightmap (or 0 when none was loaded);
   2. a finite-difference normal per vertex from its four neighbours'
      heights, clamped to the vertex itself at the borders;
   3. two triangles per cell, cells in row-major order.

 Floating-point values are modelled as reals; normals stop before
 normalisation and half-precision conversion.
 */
module Terrain {
  import opened Options
  import opened Vectors
  import opened Layout

  newtype Byte = b: int | 0 <= b < 256

  /** Values stored per pixel: the heightmap is loaded as RGB. */
  const Channels: nat := 3

  /** Fraction of the maximum height subtracted from every sampled height (a constant sea level). */
  const SeaLevelFraction: real := 0.15

  /** Largest channel value of a pixel, mapped to the full height range. */
  const MaxChannel: real := 255.0

  /** A loaded heightmap: `width * height` pixels of `Channels` bytes, row after row. */
  datatype Image = Image(width: nat, height: nat, pixels: seq<Byte>)

  predicate WellFormed(img: Image) {
    && img.width >= 1
    && img.height >= 1
    && |img.pixels| == img.width * img.height * Channels
  }

  /** The constructor's arguments other than the heightmap path. */
  datatype Params = Params(width: real, depth: real, xSlices: nat, zSlices: nat, maxHeight: real)

  /** A grid of at least one cell each way, as the step sizes' divisions need. */
  predicate HasCells(p: Params) {
    p.xSlices > 0 && p.zSlices > 0
  }

  /** The heightmap, if it could be loaded, and the arguments the constructor is called with. */
  predicate Buildable(heightmap: Option<Image>, p: Params) {
    && HasCells(p)
    && (heightmap.Some? ==> WellFormed(heightmap.value))
  }

  /** The GPU-side buffers the constructor uploads, before half-precision conversion. */
  datatype TerrainMesh = TerrainMesh(
    coordinates: seq<real>,
    textureUvs: seq<real>,
    normals: seq<real>,
    indices: seq<nat>,
    numberOfIndices: nat)

  function VertsX(p: Params): nat { p.xSlices + 1 }

  function VertsZ(p: Params): nat { p.zSlices + 1 }

  function TotalVertices(p: Params): nat { VertsX(p) * VertsZ(p) }

  /** Slot of vertex `(x, z)` in a row-major buffer `nx` vertices wide. */
  function Slot(nx: nat, x: nat, z: nat): nat { z * nx + x }

  function XStep(p: Params): real
    requires p.xSlices > 0
  {
    p.width / p.xSlices as real
  }

  function ZStep(p: Params): real
    requires p.zSlices > 0
  {
    p.depth / p.zSlices as real
  }

  /** `xSlices` steps of `xStep` cover the width, and `zSlices` steps of `zStep` the depth. */
  lemma StepsSpanGrid(p: Params)
    requires HasCells(p)
    ensures XStep(p) * p.xSlices as real == p.width
    ensures ZStep(p) * p.zSlices as real == p.depth
  {
  }

  lemma SlotInRange(nx: nat, nz: nat, x: nat, z: nat)
    requires x < nx && z < nz
    ensures Slot(nx, x, z) < nx * nz
  {
    MulLeMono(z + 1, nz, nx);
    MulSucc(z, nx);
  }

  /** The vertex below `(x, z)` in the next row is `nx` slots further on. */
  lemma SlotNextRow(nx: nat, x: nat, z: nat)
    ensures Slot(nx, x, z + 1) == Slot(nx, x, z) + nx
  {
    MulSucc(z, nx);
  }

  // ---------------------------------------------------------------------------
  // Pass 1: heightmap sampling, positions and texture coordinates
  // ---------------------------------------------------------------------------

  /**
   Nearest-neighbour texel coordinate for grid coordinate `i` of `slices`:
   `i / slices * (texSize - 1)`, truncated to an integer.
   */
  function SampleCoord(i: nat, slices: nat, texSize: nat): (c: nat)
    requires 0 < slices && i <= slices && 1 <= texSize
    ensures c <= texSize - 1
    ensures c * slices <= i * (texSize - 1) < (c + 1) * slices
    ensures i == 0 ==> c == 0
    ensures i == slices ==> c == texSize - 1
  {
    var c := i * (texSize - 1) / slices;
    DivFloor(i * (texSize - 1), slices);
    SampleCoordBound(i, slices, texSize, c);
    c
  }

  /** `a / b` is the largest `c` with `c * b <= a`. */
  lemma DivFloor(a: nat, b: nat)
    requires 0 < b
    ensures (a / b) * b <= a < (a / b + 1) * b
  {
    var q, r := a / b, a % b;
    assert a == q * b + r;
    MulSucc(q, b);
  }

  /** If `a * b < c * b` then `a < c`. */
  lemma MulLtCancel(a: nat, c: nat, b: nat)
    requires a * b < c * b
    ensures a < c
  {
    if c <= a {
      MulLeMono(c, a, b);
    }
  }

  /** A `c` with `c * b <= a < (c + 1) * b` is at most `d` when `a <= d * b`, and equals `d` when `a == d * b`. */
  lemma FloorBounds(a: nat, b: nat, c: nat, d: nat)
    requires c * b <= a < (c + 1) * b
    requires a <= d * b
    ensures c <= d
    ensures a == d * b ==> c == d
  {
    MulSucc(d, b);
    MulLtCancel(c, d + 1, b);
    if a == d * b {
      MulLtCancel(d, c + 1, b);
    }
  }

  /** The floor `c` of `i * (texSize - 1) / slices` for `i <= slices` is a valid texel coordinate. */
  lemma SampleCoordBound(i: nat, slices: nat, texSize: nat, c: nat)
    requires 0 < slices && i <= slices && 1 <= texSize
    requires c * slices <= i * (texSize - 1) < (c + 1) * slices
    ensures c <= texSize - 1
    ensures i == 0 ==> c == 0
    ensures i == slices ==> c == texSize - 1
  {
    MulLeMono(i, slices, texSize - 1);
    FloorBounds(i * (texSize - 1), slices, c, texSize - 1);
    if i == 0 {
      FloorBounds(0, slices, c, 0);
    }
  }

  /** Index of the first (red) byte of the pixel sampled for vertex `(x, z)`. */
  function PixelIndex(img: Image, p: Params, x: nat, z: nat): (idx: nat)
    requires WellFormed(img) && p.xSlices > 0 && p.zSlices > 0
    requires x <= p.xSlices && z <= p.zSlices
    ensures idx % Channels == 0
    ensures idx + Channels - 1 < |img.pixels|
  {
    var imgX := SampleCoord(x, p.xSlices, img.width);
    var imgY := SampleCoord(z, p.zSlices, img.height);
    SlotInRange(img.width, img.height, imgX, imgY);
    Distrib(imgY * img.width + imgX, 1, Channels);
    MulLeMono(imgY * img.width + imgX + 1, img.width * img.height, Channels);
    (imgY * img.width + imgX) * Channels
  }

  /** A channel value scaled to `[0, m]` and lowered by the sea level lies in `[-0.15 m, 0.85 m]`. */
  lemma ChannelHeightRange(value: Byte, m: real)
    requires 0.0 <= m
    ensures var h := value as real / MaxChannel * m - m * SeaLevelFraction;
      -SeaLevelFraction * m <= h <= (1.0 - SeaLevelFraction) * m
  {
    var f := value as real / MaxChannel;
    assert 0.0 <= f <= 1.0;
    assert 0.0 <= f * m <= m;
  }

  /**
   Height of vertex `(x, z)`: 0 without a heightmap; otherwise the red byte
   of the sampled pixel scaled to `[0, maxHeight]`, lowered by the sea level.
   */
  function SampleHeight(heightmap: Option<Image>, p: Params, x: nat, z: nat): (h: real)
    requires Buildable(heightmap, p) && x <= p.xSlices && z <= p.zSlices
    ensures heightmap.None? ==> h == 0.0
  {
    match heightmap
    case None => 0.0
    case Some(img) =>
      var value := img.pixels[PixelIndex(img, p, x, z)];
      value as real / MaxChannel * p.maxHeight - p.maxHeight * SeaLevelFraction
  }

  /** With a heightmap, every height lies between the sea level below 0 and the rest of `maxHeight` above. */
  lemma HeightRange(heightmap: Option<Image>, p: Params, x: nat, z: nat)
    requires Buildable(heightmap, p) && x <= p.xSlices && z <= p.zSlices
    requires heightmap.Some? && 0.0 <= p.maxHeight
    ensures -SeaLevelFraction * p.maxHeight <= SampleHeight(heightmap, p, x, z) <= (1.0 - SeaLevelFraction) * p.maxHeight
  {
    var img := heightmap.value;
    var value := img.pixels[PixelIndex(img, p, x, z)];
    assert SampleHeight(heightmap, p, x, z) == value as real / MaxChannel * p.maxHeight - p.maxHeight * SeaLevelFraction;
    ChannelHeightRange(value, p.maxHeight);
  }

  /**
   The height the constructor gives each vertex, as a function of the vertex;
   the vertex passes read heights through it. Points off the grid get 0.
   */
  function Sampler(heightmap: Option<Image>, p: Params): (nat, nat) -> real
    requires Buildable(heightmap, p)
  {
    (x: nat, z: nat) => if x <= p.xSlices && z <= p.zSlices then SampleHeight(heightmap, p, x, z) else 0.0
  }

  /** Position of vertex `(x, z)`: centred on the origin, at the height `height` gives it. */
  function VertexPosition(height: (nat, nat) -> real, p: Params, x: nat, z: nat): (v: Vec3)
    requires HasCells(p)
    ensures v.y == height(x, z)
  {
    var xPos := -p.width * 0.5 + x as real * XStep(p);
    var zPos := -p.depth * 0.5 + z as real * ZStep(p);
    Vec3(xPos, height(x, z), zPos)
  }

  /**
   Neighbouring vertices are one step apart: the next vertex of a row lies
   `xStep` further along X at the same Z, and the same vertex of the next row
   lies `zStep` further along Z at the same X.
   */
  lemma VertexSpacing(height: (nat, nat) -> real, p: Params, x: nat, z: nat)
    requires HasCells(p)
    ensures var v, right, up := VertexPosition(height, p, x, z), VertexPosition(height, p, x + 1, z), VertexPosition(height, p, x, z + 1);
      && right.x == v.x + XStep(p) && right.z == v.z
      && up.z == v.z + ZStep(p) && up.x == v.x
  {
    assert (x + 1) as real * XStep(p) == x as real * XStep(p) + XStep(p);
    assert (z + 1) as real * ZStep(p) == z as real * ZStep(p) + ZStep(p);
  }

  /**
   The grid spans `[-width / 2, width / 2]` by `[-depth / 2, depth / 2]`,
   its first and last vertices on the edges.
   */
  lemma VertexPositionBounds(height: (nat, nat) -> real, p: Params, x: nat, z: nat)
    requires HasCells(p) && x <= p.xSlices && z <= p.zSlices
    ensures var v := VertexPosition(height, p, x, z);
      && (x == 0 ==> v.x == -p.width / 2.0)
      && (x == p.xSlices ==> v.x == p.width / 2.0)
      && (z == 0 ==> v.z == -p.depth / 2.0)
      && (z == p.zSlices ==> v.z == p.depth / 2.0)
      && (0.0 <= p.width ==> -p.width / 2.0 <= v.x <= p.width / 2.0)
      && (0.0 <= p.depth ==> -p.depth / 2.0 <= v.z <= p.depth / 2.0)
  {
    AxisBounds(p.width, p.xSlices, x);
    AxisBounds(p.depth, p.zSlices, z);
  }

  /**
   Coordinate `i` of `n` along an axis of length `size` centred on the
   origin: the first at `-size / 2`, the last at `size / 2`, all between.
   */
  lemma AxisBounds(size: real, n: nat, i: nat)
    requires 0 < n && i <= n
    ensures var c := -size * 0.5 + i as real * (size / n as real);
      && (i == 0 ==> c == -size / 2.0)
      && (i == n ==> c == size / 2.0)
      && (0.0 <= size ==> -size / 2.0 <= c <= size / 2.0)
  {
    var step := size / n as real;
    assert step * n as real == size;
    if 0.0 <= size {
      assert 0.0 <= step;
      assert i as real * step <= n as real * step;
    }
  }

  /** Texture coordinate of vertex `(x, z)`: the grid stretched once over the unit square. */
  function VertexUv(p: Params, x: nat, z: nat): (uv: seq<real>)
    requires p.xSlices > 0 && p.zSlices > 0 && x <= p.xSlices && z <= p.zSlices
    ensures |uv| == 2
  {
    [x as real / p.xSlices as real, z as real / p.zSlices as real]
  }

  /** Texture coordinates lie in the unit square, with the grid's edges on its edges. */
  lemma VertexUvBounds(p: Params, x: nat, z: nat)
    requires p.xSlices > 0 && p.zSlices > 0 && x <= p.xSlices && z <= p.zSlices
    ensures var uv := VertexUv(p, x, z);
      && 0.0 <= uv[0] <= 1.0 && 0.0 <= uv[1] <= 1.0
      && (x == 0 ==> uv[0] == 0.0) && (z == 0 ==> uv[1] == 0.0)
      && (x == p.xSlices ==> uv[0] == 1.0) && (z == p.zSlices ==> uv[1] == 1.0)
  {
  }

  function PositionCell(height: (nat, nat) -> real, p: Params): (nat, nat) -> seq<real>
    requires HasCells(p)
  {
    (x: nat, z: nat) =>
      if x <= p.xSlices && z <= p.zSlices then Components(VertexPosition(height, p, x, z)) else []
  }

  function HeightCell(height: (nat, nat) -> real, p: Params): (nat, nat) -> seq<real>
    requires HasCells(p)
  {
    (x: nat, z: nat) => if x <= p.xSlices && z <= p.zSlices then [height(x, z)] else []
  }

  function UvCell(p: Params): (nat, nat) -> seq<real>
    requires p.xSlices > 0 && p.zSlices > 0
  {
    (x: nat, z: nat) => if x <= p.xSlices && z <= p.zSlices then VertexUv(p, x, z) else []
  }

  /** Reference content of the position buffer: three values per vertex, row-major. */
  function Coordinates(height: (nat, nat) -> real, p: Params): (c: seq<real>)
    requires HasCells(p)
    ensures |c| == 3 * TotalVertices(p)
  {
    RowsLength(PositionCell(height, p), VertsX(p), VertsZ(p), 3);
    Rows(PositionCell(height, p), VertsX(p), VertsZ(p))
  }

  /** Reference content of the temporary height buffer: one value per vertex, row-major. */
  function Heights(height: (nat, nat) -> real, p: Params): (h: seq<real>)
    requires HasCells(p)
    ensures |h| == TotalVertices(p)
  {
    RowsLength(HeightCell(height, p), VertsX(p), VertsZ(p), 1);
    Rows(HeightCell(height, p), VertsX(p), VertsZ(p))
  }

  /** Reference content of the texture-coordinate buffer: two values per vertex, row-major. */
  function TextureUvs(p: Params): (t: seq<real>)
    requires HasCells(p)
    ensures |t| == 2 * TotalVertices(p)
  {
    RowsLength(UvCell(p), VertsX(p), VertsZ(p), 2);
    Rows(UvCell(p), VertsX(p), VertsZ(p))
  }

  /** Pass 1: positions, texture coordinates and the temporary height buffer. */
  method GenerateGeometry(height: (nat, nat) -> real, p: Params)
    returns (coordinates: seq<real>, textureUvs: seq<real>, heights: seq<real>)
    requires HasCells(p)
    ensures coordinates == Coordinates(height, p)
    ensures textureUvs == TextureUvs(p)
    ensures heights == Heights(height, p)
  {
    var nx, nz := VertsX(p), VertsZ(p);
    ghost var positionCell, uvCell, heightCell := PositionCell(height, p), UvCell(p), HeightCell(height, p);
    coordinates, textureUvs, heights := [], [], [];
    var z := 0;
    while z < nz
      invariant z <= nz
      invariant coordinates == Rows(positionCell, nx, z)
      invariant textureUvs == Rows(uvCell, nx, z)
      invariant heights == Rows(heightCell, nx, z)
      invariant |heights| == z * nx
    {
      var rowCoordinates, rowUvs, rowHeights := GeometryRow(height, p, z);
      // Row z starts at slot z * nx, the slot `temp_heights[z * n_verts_x + x]` in `Terrain::Terrain` writes for x = 0.
      assert |heights| == Slot(nx, 0, z);
      coordinates := coordinates + rowCoordinates;
      textureUvs := textureUvs + rowUvs;
      heights := heights + rowHeights;
      assert coordinates == Rows(positionCell, nx, z + 1);
      assert textureUvs == Rows(uvCell, nx, z + 1);
      assert heights == Rows(heightCell, nx, z + 1);
      MulSucc(z, nx);
      z := z + 1;
    }
  }

  /** Pass 1 over row `z`: the vertices `(0, z)` .. `(nx - 1, z)`, left to right. */
  method GeometryRow(height: (nat, nat) -> real, p: Params, z: nat)
    returns (coordinates: seq<real>, textureUvs: seq<real>, heights: seq<real>)
    requires HasCells(p) && z < VertsZ(p)
    ensures coordinates == Row(PositionCell(height, p), z, VertsX(p))
    ensures textureUvs == Row(UvCell(p), z, VertsX(p))
    ensures heights == Row(HeightCell(height, p), z, VertsX(p))
    ensures |heights| == VertsX(p)
  {
    var nx := VertsX(p);
    ghost var positionCell, uvCell, heightCell := PositionCell(height, p), UvCell(p), HeightCell(height, p);
    coordinates, textureUvs, heights := [], [], [];
    var x := 0;
    while x < nx
      invariant x <= nx
      invariant coordinates == Row(positionCell, z, x)
      invariant textureUvs == Row(uvCell, z, x)
      invariant heights == Row(heightCell, z, x)
      invariant |heights| == x
    {
      var position := VertexPosition(height, p, x, z);
      heights := heights + [position.y];
      coordinates := coordinates + Components(position);
      textureUvs := textureUvs + VertexUv(p, x, z);
      x := x + 1;
    }
  }

  // ---------------------------------------------------------------------------
  // Pass 2: finite-difference normals
  // ---------------------------------------------------------------------------

  /** Slots whose heights the normal of a vertex reads: left, right, down and up. */
  datatype Neighbours = Neighbours(left: nat, right: nat, down: nat, up: nat)

  /**
   Neighbour slots of vertex `(x, z)`; a neighbour that would fall outside
   the grid is replaced by the vertex itself (no wrap-around).
   */
  function NeighbourSlots(nx: nat, nz: nat, x: nat, z: nat): (n: Neighbours)
    requires x < nx && z < nz
    ensures n.left < nx * nz && n.right < nx * nz && n.down < nx * nz && n.up < nx * nz
  {
    var self := Slot(nx, x, z);
    var left := if x > 0 then Slot(nx, x - 1, z) else self;
    var right := if x < nx - 1 then Slot(nx, x + 1, z) else self;
    var down := if z > 0 then Slot(nx, x, z - 1) else self;
    var up := if z < nz - 1 then Slot(nx, x, z + 1) else self;
    assert self < nx * nz by { SlotInRange(nx, nz, x, z); }
    assert up < nx * nz by {
      if z < nz - 1 { SlotInRange(nx, nz, x, z + 1); }
    }
    Neighbours(left, right, down, up)
  }

  /**
   The neighbours are one slot left and right and one row (`nx` slots) down
   and up, except at the border, where the vertex's own slot stands in.
   */
  lemma NeighbourClamp(nx: nat, nz: nat, x: nat, z: nat)
    requires x < nx && z < nz
    ensures var n, self := NeighbourSlots(nx, nz, x, z), Slot(nx, x, z);
      && (x == 0 ==> n.left == self)
      && (x > 0 ==> n.left + 1 == self)
      && (x == nx - 1 ==> n.right == self)
      && (x < nx - 1 ==> n.right == self + 1)
      && (z == 0 ==> n.down == self)
      && (z > 0 ==> n.down + nx == self)
      && (z == nz - 1 ==> n.up == self)
      && (z < nz - 1 ==> n.up == self + nx)
  {
    if z > 0 {
      SlotNextRow(nx, x, z - 1);
    }
    SlotNextRow(nx, x, z);
  }

  /**
   Pre-normalisation normal of vertex `(x, z)`:
   `(h_L - h_R, 2 * xStep, h_D - h_U)`. The Y component uses the X step
   only, whatever the Z step is.
   */
  function NormalAt(heights: seq<real>, p: Params, x: nat, z: nat): (v: Vec3)
    requires p.xSlices > 0 && |heights| == TotalVertices(p)
    requires x < VertsX(p) && z < VertsZ(p)
    ensures v.y == 2.0 * XStep(p)
  {
    var n := NeighbourSlots(VertsX(p), VertsZ(p), x, z);
    var hL, hR, hD, hU := heights[n.left], heights[n.right], heights[n.down], heights[n.up];
    Vec3(hL - hR, 2.0 * XStep(p), hD - hU)
  }

  /** Where all heights are equal the normal points straight up: `(0, 2 * xStep, 0)`. */
  lemma LevelNormal(heights: seq<real>, p: Params, x: nat, z: nat)
    requires p.xSlices > 0 && |heights| == TotalVertices(p)
    requires x < VertsX(p) && z < VertsZ(p)
    requires forall i | 0 <= i < |heights| :: heights[i] == heights[0]
    ensures NormalAt(heights, p, x, z) == Vec3(0.0, 2.0 * XStep(p), 0.0)
  {
  }

  function NormalCell(heights: seq<real>, p: Params): (nat, nat) -> seq<real>
    requires p.xSlices > 0 && |heights| == TotalVertices(p)
  {
    (x: nat, z: nat) =>
      if x < VertsX(p) && z < VertsZ(p) then Components(NormalAt(heights, p, x, z)) else []
  }

  /** Reference content of the normal buffer: three values per vertex, row-major. */
  function Normals(heights: seq<real>, p: Params): (n: seq<real>)
    requires p.xSlices > 0 && |heights| == TotalVertices(p)
    ensures |n| == 3 * TotalVertices(p)
  {
    RowsLength(NormalCell(heights, p), VertsX(p), VertsZ(p), 3);
    Rows(NormalCell(heights, p), VertsX(p), VertsZ(p))
  }

  /** Pass 2: one normal per vertex, read from the completed height buffer. */
  method ComputeNormals(heights: seq<real>, p: Params) returns (normals: seq<real>)
    requires p.xSlices > 0 && |heights| == TotalVertices(p)
    ensures normals == Normals(heights, p)
  {
    var nx, nz := VertsX(p), VertsZ(p);
    ghost var normalCell := NormalCell(heights, p);
    normals := [];
    var z := 0;
    while z < nz
      invariant z <= nz
      invariant normals == Rows(normalCell, nx, z)
    {
      var row := NormalRow(heights, p, z);
      RowsSnoc(normalCell, nx, z);
      normals := normals + row;
      z := z + 1;
    }
  }

  /** The normals of row `z`, left to right. */
  method NormalRow(heights: seq<real>, p: Params, z: nat) returns (row: seq<real>)
    requires p.xSlices > 0 && |heights| == TotalVertices(p) && z < VertsZ(p)
    ensures row == Row(NormalCell(heights, p), z, VertsX(p))
  {
    var nx := VertsX(p);
    ghost var normalCell := NormalCell(heights, p);
    row := [];
    var x := 0;
    while x < nx
      invariant x <= nx
      invariant row == Row(normalCell, z, x)
    {
      row := row + Components(NormalAt(heights, p, x, z));
      x := x + 1;
    }
  }

  // ---------------------------------------------------------------------------
  // Pass 3: triangle indices
  // ---------------------------------------------------------------------------

  /**
   The six indices of cell `(x, z)` in a grid `nx` vertices wide: triangles
   (top-left, bottom-left, top-right) and (top-right, bottom-left, bottom-right).
   */
  function Quad(nx: nat, x: nat, z: nat): (q: seq<nat>)
    ensures |q| == 6
  {
    var tl := z * nx + x;
    var tr := z * nx + (x + 1);
    var bl := (z + 1) * nx + x;
    var br := (z + 1) * nx + (x + 1);
    [tl, bl, tr, tr, bl, br]
  }

  function QuadCell(nx: nat): (nat, nat) -> seq<nat> {
    (x: nat, z: nat) => Quad(nx, x, z)
  }

  /** Reference content of the index buffer: six indices per cell, cells row-major. */
  function TriangleIndices(xSlices: nat, zSlices: nat): (t: seq<nat>)
    ensures |t| == 6 * xSlices * zSlices
  {
    RowsLength(QuadCell(xSlices + 1), xSlices, zSlices, 6);
    Rows(QuadCell(xSlices + 1), xSlices, zSlices)
  }

  /** Pass 3: the index buffer. */
  method BuildIndices(xSlices: nat, zSlices: nat) returns (indices: seq<nat>)
    ensures indices == TriangleIndices(xSlices, zSlices)
  {
    var nx := xSlices + 1;
    ghost var quadCell := QuadCell(nx);
    indices := [];
    var z := 0;
    while z < zSlices
      invariant z <= zSlices
      invariant indices == Rows(quadCell, xSlices, z)
    {
      var x := 0;
      while x < xSlices
        invariant x <= xSlices
        invariant indices == Rows(quadCell, xSlices, z) + Row(quadCell, z, x)
      {
        var quad := Quad(nx, x, z);
        indices := indices + quad;
        assert Row(quadCell, z, x + 1) == Row(quadCell, z, x) + quadCell(x, z);
        x := x + 1;
      }
      assert Rows(quadCell, xSlices, z + 1) == Rows(quadCell, xSlices, z) + Row(quadCell, z, xSlices);
      z := z + 1;
    }
  }

  // ---------------------------------------------------------------------------
  // The constructor
  // ---------------------------------------------------------------------------

  /** `Terrain::Terrain` without the graphics-driver calls: the three passes in order. */
  method BuildTerrain(heightmap: Option<Image>, p: Params) returns (mesh: TerrainMesh)
    requires Buildable(heightmap, p)
    ensures mesh.coordinates == Coordinates(Sampler(heightmap, p), p)
    ensures mesh.textureUvs == TextureUvs(p)
    ensures mesh.normals == Normals(Heights(Sampler(heightmap, p), p), p)
    ensures mesh.indices == TriangleIndices(p.xSlices, p.zSlices)
    ensures mesh.numberOfIndices == |mesh.indices|
  {
    var coordinates, textureUvs, heights := GenerateGeometry(Sampler(heightmap, p), p);
    var normals := ComputeNormals(heights, p);
    var indices := BuildIndices(p.xSlices, p.zSlices);
    mesh := TerrainMesh(coordinates, textureUvs, normals, indices, |indices|);
  }
}
