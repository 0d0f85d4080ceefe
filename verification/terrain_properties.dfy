/**
 Properties of the buffers the terrain builder produces: sizes, where each
 vertex and cell lands, the range of every index, and the flat-ground cases.
 */
module TerrainProperties {
  import opened Options
  import opened Vectors
  import opened Layout
  import opened Terrain

  /** The vertex count and the three vertex buffers' lengths. */
  lemma BufferSizes(height: (nat, nat) -> real, p: Params)
    requires HasCells(p)
    ensures TotalVertices(p) == (p.xSlices + 1) * (p.zSlices + 1)
    ensures |Coordinates(height, p)| == 3 * TotalVertices(p)
    ensures |TextureUvs(p)| == 2 * TotalVertices(p)
    ensures |Heights(height, p)| == TotalVertices(p)
    ensures |Normals(Heights(height, p), p)| == 3 * TotalVertices(p)
  {
  }

  /**
   Cell `(x, z)` contributes, at offset `6 * (z * xSlices + x)`, the triangles
   (top-left, bottom-left, top-right) and (top-right, bottom-left, bottom-right)
   of its four corner vertices.
   */
  lemma {:induction false} CellTriangles(xSlices: nat, zSlices: nat, x: nat, z: nat)
    requires x < xSlices && z < zSlices
    ensures CellOffset(xSlices, 6, x, z) == 6 * (z * xSlices + x)
    ensures CellOffset(xSlices, 6, x, z) + 6 <= |TriangleIndices(xSlices, zSlices)|
    ensures
      var nx := xSlices + 1;
      var tl, tr := Slot(nx, x, z), Slot(nx, x + 1, z);
      var bl, br := Slot(nx, x, z + 1), Slot(nx, x + 1, z + 1);
      var start := CellOffset(xSlices, 6, x, z);
      TriangleIndices(xSlices, zSlices)[start..start + 6] == [tl, bl, tr, tr, bl, br]
  {
    RowsCell(QuadCell(xSlices + 1), xSlices, zSlices, 6, x, z);
  }

  /** Every index in the buffer names an existing vertex. */
  lemma {:induction false} IndicesInRange(xSlices: nat, zSlices: nat)
    ensures forall i <- TriangleIndices(xSlices, zSlices) :: i < (xSlices + 1) * (zSlices + 1)
  {
    var nx, total := xSlices + 1, (xSlices + 1) * (zSlices + 1);
    forall x: nat, z: nat | x < xSlices && z < zSlices
      ensures forall i <- QuadCell(nx)(x, z) :: i < total
    {
      SlotInRange(nx, zSlices + 1, x + 1, z + 1);
      MulLeMono(x, x + 1, 1);
      MulSucc(z, nx);
    }
    RowsMembers(QuadCell(nx), xSlices, zSlices, (i: nat) => i < total);
  }

  /** Both triangles of a cell name three distinct vertices and share the bottom-left/top-right diagonal. */
  lemma CellTrianglesNonDegenerate(nx: nat, x: nat, z: nat)
    requires x + 1 < nx
    ensures var q := Quad(nx, x, z);
      && q[0] != q[1] && q[1] != q[2] && q[0] != q[2]
      && q[3] != q[4] && q[4] != q[5] && q[3] != q[5]
      && q[1] == q[4] && q[2] == q[3]
  {
    MulSucc(z, nx);
  }

  /**
   Both triangles of cell `(x, z)` wind counter-clockwise seen from above,
   whatever the heights: the Y component of the cross product of their edges
   is `xStep * zStep`, positive for a terrain of positive width and depth.
   */
  lemma TrianglesFaceUp(height: (nat, nat) -> real, p: Params, x: nat, z: nat)
    requires HasCells(p) && x < p.xSlices && z < p.zSlices
    ensures
      var tl, tr := VertexPosition(height, p, x, z), VertexPosition(height, p, x + 1, z);
      var bl, br := VertexPosition(height, p, x, z + 1), VertexPosition(height, p, x + 1, z + 1);
      && Cross(Sub(bl, tl), Sub(tr, tl)).y == XStep(p) * ZStep(p)
      && Cross(Sub(bl, tr), Sub(br, tr)).y == XStep(p) * ZStep(p)
  {
    var dx, dz := XStep(p), ZStep(p);
    assert (x + 1) as real * dx == x as real * dx + dx;
    assert (z + 1) as real * dz == z as real * dz + dz;
  }

  /** The height of vertex `(x, z)` is the Y coordinate of its position. */
  lemma HeightIsPositionY(height: (nat, nat) -> real, p: Params, x: nat, z: nat)
    requires HasCells(p) && x < VertsX(p) && z < VertsZ(p)
    ensures CellOffset(VertsX(p), 3, x, z) + 1 < |Coordinates(height, p)|
    ensures Slot(VertsX(p), x, z) < |Heights(height, p)|
    ensures Coordinates(height, p)[CellOffset(VertsX(p), 3, x, z) + 1]
         == Heights(height, p)[Slot(VertsX(p), x, z)]
         == height(x, z)
  {
    RowsAt(PositionCell(height, p), VertsX(p), VertsZ(p), 3, x, z, 1);
    RowsAt(HeightCell(height, p), VertsX(p), VertsZ(p), 1, x, z, 0);
  }

  /** Without a heightmap every stored height is 0. */
  lemma {:induction false} FlatWithoutHeightmap(p: Params)
    requires HasCells(p)
    ensures forall h <- Heights(Sampler(None, p), p) :: h == 0.0
  {
    RowsMembers(HeightCell(Sampler(None, p), p), VertsX(p), VertsZ(p), (h: real) => h == 0.0);
  }

  /** Every texture coordinate lies in the unit interval. */
  lemma {:induction false} UvsInUnitSquare(p: Params)
    requires HasCells(p)
    ensures forall u <- TextureUvs(p) :: 0.0 <= u <= 1.0
  {
    forall x: nat, z: nat | x < VertsX(p) && z < VertsZ(p)
      ensures forall u <- UvCell(p)(x, z) :: 0.0 <= u <= 1.0
    {
      VertexUvBounds(p, x, z);
    }
    RowsMembers(UvCell(p), VertsX(p), VertsZ(p), (u: real) => 0.0 <= u <= 1.0);
  }

  /**
   Where all heights are equal, the normal stored for vertex `(x, z)` is
   `(0, 2 * xStep, 0)`: straight up before normalisation.
   */
  lemma {:induction false} LevelGroundNormalsPointUp(heights: seq<real>, p: Params, x: nat, z: nat)
    requires p.xSlices > 0 && |heights| == TotalVertices(p)
    requires forall i | 0 <= i < |heights| :: heights[i] == heights[0]
    requires x < VertsX(p) && z < VertsZ(p)
    ensures
      var start := CellOffset(VertsX(p), 3, x, z);
      start + 3 <= |Normals(heights, p)| && Normals(heights, p)[start..start + 3] == [0.0, 2.0 * XStep(p), 0.0]
  {
    RowsCell(NormalCell(heights, p), VertsX(p), VertsZ(p), 3, x, z);
    LevelNormal(heights, p, x, z);
  }

  /**
   The stored normal against the two tangents the normal pass is built from,
   `(2 * xStep, h_R - h_L, 0)` and `(0, h_U - h_D, 2 * zStep)`: their cross
   product is the normal with its X and Y components scaled by `2 * zStep`
   and its Z component by `2 * xStep`. When the steps are equal the stored
   normal is parallel to the true cross product.
   */
  lemma NormalFromTangents(heights: seq<real>, p: Params, x: nat, z: nat)
    requires HasCells(p) && |heights| == TotalVertices(p)
    requires x < VertsX(p) && z < VertsZ(p)
    ensures
      var n, v := NeighbourSlots(VertsX(p), VertsZ(p), x, z), NormalAt(heights, p, x, z);
      var dx, dz := XStep(p), ZStep(p);
      var alongX := Vec3(2.0 * dx, heights[n.right] - heights[n.left], 0.0);
      var alongZ := Vec3(0.0, heights[n.up] - heights[n.down], 2.0 * dz);
      Cross(alongZ, alongX) == Vec3(2.0 * dz * v.x, 2.0 * dz * v.y, 2.0 * dx * v.z)
  {
    var n, v := NeighbourSlots(VertsX(p), VertsZ(p), x, z), NormalAt(heights, p, x, z);
    var dx, dz := XStep(p), ZStep(p);
    assert v == Vec3(heights[n.left] - heights[n.right], 2.0 * dx, heights[n.down] - heights[n.up]);
  }

  /** Without a heightmap the terrain is flat, so every normal points straight up. */
  lemma {:induction false} NoHeightmapNormalsPointUp(p: Params, x: nat, z: nat)
    requires HasCells(p) && x < VertsX(p) && z < VertsZ(p)
    ensures
      var start := CellOffset(VertsX(p), 3, x, z);
      var normals := Normals(Heights(Sampler(None, p), p), p);
      start + 3 <= |normals| && normals[start..start + 3] == [0.0, 2.0 * XStep(p), 0.0]
  {
    var heights := Heights(Sampler(None, p), p);
    FlatWithoutHeightmap(p);
    assert forall i | 0 <= i < |heights| :: heights[i] == 0.0 by {
      forall i | 0 <= i < |heights| ensures heights[i] == 0.0 {
        assert heights[i] in heights;
      }
    }
    LevelGroundNormalsPointUp(heights, p, x, z);
  }
}
