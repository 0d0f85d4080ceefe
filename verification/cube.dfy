/**
 The textured cube (`Cube::Cube`): a hard-coded table of 36 vertices, eight
 values each (position X, Y, Z, texture U, V, normal X, Y, Z), two triangles
 per face, split into three attribute streams for the vertex buffers.
 */
module Cube {
  import opened Vectors
  import opened Layout

  /** Vertices drawn: 6 faces, 2 triangles each, 3 vertices per triangle. */
  const VertexCount: nat := 36
  /** Values per vertex in the interleaved table. */
  const Stride: nat := 8

  /** One row of the table: position, texture coordinates, normal. */
  datatype Corner = Corner(position: Vec3, u: real, v: real, normal: Vec3)

  /** The row's eight values in table order. */
  function Values(c: Corner): (r: seq<real>)
    ensures |r| == Stride
  {
    Components(c.position) + [c.u, c.v] + Components(c.normal)
  }

  /** The six rows of face `f`, two triangles sharing a diagonal; `s` is half the edge. */
  function Face(s: real, f: nat): (rows: seq<Corner>)
    requires f < 6
    ensures |rows| == 6
  {
    if f == 0 then // front face, facing +Z
      [
        Corner(Vec3(-s, -s, s), 0.0, 0.0, Vec3(0.0, 0.0, 1.0)),
        Corner(Vec3(s, -s, s), 1.0, 0.0, Vec3(0.0, 0.0, 1.0)),
        Corner(Vec3(s, s, s), 1.0, 1.0, Vec3(0.0, 0.0, 1.0)),
        Corner(Vec3(-s, -s, s), 0.0, 0.0, Vec3(0.0, 0.0, 1.0)),
        Corner(Vec3(s, s, s), 1.0, 1.0, Vec3(0.0, 0.0, 1.0)),
        Corner(Vec3(-s, s, s), 0.0, 1.0, Vec3(0.0, 0.0, 1.0))
      ]
    else if f == 1 then // back face, facing -Z
      [
        Corner(Vec3(s, -s, -s), 0.0, 0.0, Vec3(0.0, 0.0, -1.0)),
        Corner(Vec3(-s, -s, -s), 1.0, 0.0, Vec3(0.0, 0.0, -1.0)),
        Corner(Vec3(-s, s, -s), 1.0, 1.0, Vec3(0.0, 0.0, -1.0)),
        Corner(Vec3(s, -s, -s), 0.0, 0.0, Vec3(0.0, 0.0, -1.0)),
        Corner(Vec3(-s, s, -s), 1.0, 1.0, Vec3(0.0, 0.0, -1.0)),
        Corner(Vec3(s, s, -s), 0.0, 1.0, Vec3(0.0, 0.0, -1.0))
      ]
    else if f == 2 then // left face, facing -X
      [
        Corner(Vec3(-s, -s, -s), 0.0, 0.0, Vec3(-1.0, 0.0, 0.0)),
        Corner(Vec3(-s, -s, s), 1.0, 0.0, Vec3(-1.0, 0.0, 0.0)),
        Corner(Vec3(-s, s, s), 1.0, 1.0, Vec3(-1.0, 0.0, 0.0)),
        Corner(Vec3(-s, -s, -s), 0.0, 0.0, Vec3(-1.0, 0.0, 0.0)),
        Corner(Vec3(-s, s, s), 1.0, 1.0, Vec3(-1.0, 0.0, 0.0)),
        Corner(Vec3(-s, s, -s), 0.0, 1.0, Vec3(-1.0, 0.0, 0.0))
      ]
    else if f == 3 then // right face, facing +X
      [
        Corner(Vec3(s, -s, s), 0.0, 0.0, Vec3(1.0, 0.0, 0.0)),
        Corner(Vec3(s, -s, -s), 1.0, 0.0, Vec3(1.0, 0.0, 0.0)),
        Corner(Vec3(s, s, -s), 1.0, 1.0, Vec3(1.0, 0.0, 0.0)),
        Corner(Vec3(s, -s, s), 0.0, 0.0, Vec3(1.0, 0.0, 0.0)),
        Corner(Vec3(s, s, -s), 1.0, 1.0, Vec3(1.0, 0.0, 0.0)),
        Corner(Vec3(s, s, s), 0.0, 1.0, Vec3(1.0, 0.0, 0.0))
      ]
    else if f == 4 then // top face, facing +Y
      [
        Corner(Vec3(-s, s, s), 0.0, 0.0, Vec3(0.0, 1.0, 0.0)),
        Corner(Vec3(s, s, s), 1.0, 0.0, Vec3(0.0, 1.0, 0.0)),
        Corner(Vec3(s, s, -s), 1.0, 1.0, Vec3(0.0, 1.0, 0.0)),
        Corner(Vec3(-s, s, s), 0.0, 0.0, Vec3(0.0, 1.0, 0.0)),
        Corner(Vec3(s, s, -s), 1.0, 1.0, Vec3(0.0, 1.0, 0.0)),
        Corner(Vec3(-s, s, -s), 0.0, 1.0, Vec3(0.0, 1.0, 0.0))
      ]
    else // bottom face, facing -Y
      [
        Corner(Vec3(-s, -s, -s), 0.0, 0.0, Vec3(0.0, -1.0, 0.0)),
        Corner(Vec3(s, -s, -s), 1.0, 0.0, Vec3(0.0, -1.0, 0.0)),
        Corner(Vec3(s, -s, s), 1.0, 1.0, Vec3(0.0, -1.0, 0.0)),
        Corner(Vec3(-s, -s, -s), 0.0, 0.0, Vec3(0.0, -1.0, 0.0)),
        Corner(Vec3(s, -s, s), 1.0, 1.0, Vec3(0.0, -1.0, 0.0)),
        Corner(Vec3(-s, -s, s), 0.0, 1.0, Vec3(0.0, -1.0, 0.0))
      ]
  }

  /** The rows of faces `0` .. `n - 1`, in order. */
  function Faces(s: real, n: nat): (rows: seq<Corner>)
    requires n <= 6
    ensures |rows| == 6 * n
  {
    if n == 0 then [] else Faces(s, n - 1) + Face(s, n - 1)
  }

  /** The table, one row of eight values per vertex, for a cube of edge `size` centred on the origin. */
  function Table(size: real): (rows: seq<Corner>)
    ensures |rows| == VertexCount
  {
    Faces(size * 0.5, 6)
  }

  /** The rows laid end to end, as the source's flat `vertices` array. */
  function Flatten(rows: seq<Corner>): (v: seq<real>)
    ensures |v| == Stride * |rows|
  {
    if |rows| == 0 then [] else Values(rows[0]) + Flatten(rows[1..])
  }

  function Vertices(size: real): (v: seq<real>)
    ensures |v| == Stride * VertexCount
  {
    Flatten(Table(size))
  }

  /**
   The position stream: values 0 to 2 of every vertex, vertex after vertex.
   Value `j` of the stream is value `j % 3` of vertex `j / 3`.
   */
  function Positions(v: seq<real>): (pos: seq<real>)
    requires |v| == Stride * VertexCount
    ensures |pos| == 3 * VertexCount
  {
    seq(3 * VertexCount, j requires 0 <= j < 3 * VertexCount => v[Stride * (j / 3) + j % 3])
  }

  /** The texture-coordinate stream: values 3 and 4 of every vertex. */
  function Uvs(v: seq<real>): (uvs: seq<real>)
    requires |v| == Stride * VertexCount
    ensures |uvs| == 2 * VertexCount
  {
    seq(2 * VertexCount, j requires 0 <= j < 2 * VertexCount => v[Stride * (j / 2) + 3 + j % 2])
  }

  /** The normal stream: values 5 to 7 of every vertex. */
  function Normals(v: seq<real>): (norm: seq<real>)
    requires |v| == Stride * VertexCount
    ensures |norm| == 3 * VertexCount
  {
    seq(3 * VertexCount, j requires 0 <= j < 3 * VertexCount => v[Stride * (j / 3) + 5 + j % 3])
  }

  /** The inverse of the split: the three streams woven back into one table. */
  function Interleave(pos: seq<real>, uvs: seq<real>, norm: seq<real>): (v: seq<real>)
    requires |pos| == 3 * VertexCount && |uvs| == 2 * VertexCount && |norm| == 3 * VertexCount
    ensures |v| == Stride * VertexCount
  {
    seq(Stride * VertexCount, j requires 0 <= j < Stride * VertexCount =>
      var i, k := j / Stride, j % Stride;
      if k < 3 then pos[3 * i + k] else if k < 5 then uvs[2 * i + k - 3] else norm[3 * i + k - 5])
  }

  /**
   The loop of `Cube::Cube`: for each of the 36 vertices, its position,
   texture coordinates and normal are appended to their own stream.
   */
  method Deinterleave(vertices: seq<real>) returns (pos: seq<real>, uvs: seq<real>, norm: seq<real>)
    requires |vertices| == Stride * VertexCount
    ensures pos == Positions(vertices) && uvs == Uvs(vertices) && norm == Normals(vertices)
    ensures Interleave(pos, uvs, norm) == vertices
  {
    pos, uvs, norm := [], [], [];
    var i := 0;
    while i < VertexCount
      invariant 0 <= i <= VertexCount
      invariant pos == Positions(vertices)[..3 * i]
      invariant uvs == Uvs(vertices)[..2 * i]
      invariant norm == Normals(vertices)[..3 * i]
    {
      var base := i * Stride;
      StreamsAt(vertices, i);
      pos := pos + [vertices[base + 0], vertices[base + 1], vertices[base + 2]];
      uvs := uvs + [vertices[base + 3], vertices[base + 4]];
      norm := norm + [vertices[base + 5], vertices[base + 6], vertices[base + 7]];
      i := i + 1;
    }
    SplitThenInterleave(vertices);
  }

  /** Where vertex `i`'s eight values land in the three streams. */
  lemma StreamsAt(v: seq<real>, i: nat)
    requires |v| == Stride * VertexCount && i < VertexCount
    ensures var b := Stride * i;
      && Positions(v)[3 * i] == v[b] && Positions(v)[3 * i + 1] == v[b + 1] && Positions(v)[3 * i + 2] == v[b + 2]
      && Uvs(v)[2 * i] == v[b + 3] && Uvs(v)[2 * i + 1] == v[b + 4]
      && Normals(v)[3 * i] == v[b + 5] && Normals(v)[3 * i + 1] == v[b + 6] && Normals(v)[3 * i + 2] == v[b + 7]
  {
    DivMod(3 * i, 3, i, 0);
    DivMod(3 * i + 1, 3, i, 1);
    DivMod(3 * i + 2, 3, i, 2);
    DivMod(2 * i, 2, i, 0);
    DivMod(2 * i + 1, 2, i, 1);
  }

  lemma DivMod(m: nat, d: nat, q: nat, r: nat)
    requires 0 <= r < d && m == d * q + r
    ensures m / d == q && m % d == r
  {
    var q', r' := m / d, m % d;
    assert m == d * q' + r';
    if q' < q {
      MulLeMono(q' + 1, q, d);
      MulSucc(q', d);
    } else if q < q' {
      MulLeMono(q + 1, q', d);
      MulSucc(q, d);
    }
  }

  /** Splitting the table and weaving the streams back gives the table again. */
  lemma SplitThenInterleave(v: seq<real>)
    requires |v| == Stride * VertexCount
    ensures Interleave(Positions(v), Uvs(v), Normals(v)) == v
  {
    var w := Interleave(Positions(v), Uvs(v), Normals(v));
    forall j | 0 <= j < Stride * VertexCount
      ensures w[j] == v[j]
    {
      var i := j / Stride;
      StreamsAt(v, i);
      InterleaveAt(Positions(v), Uvs(v), Normals(v), i);
      var b := Stride * i;
      assert j == b || j == b + 1 || j == b + 2 || j == b + 3 || j == b + 4 || j == b + 5 || j == b + 6 || j == b + 7;
    }
  }

  /** Where vertex `i`'s entries of the three streams land in the woven table. */
  lemma InterleaveAt(pos: seq<real>, uvs: seq<real>, norm: seq<real>, i: nat)
    requires |pos| == 3 * VertexCount && |uvs| == 2 * VertexCount && |norm| == 3 * VertexCount
    requires i < VertexCount
    ensures var v, b := Interleave(pos, uvs, norm), Stride * i;
      && v[b] == pos[3 * i] && v[b + 1] == pos[3 * i + 1] && v[b + 2] == pos[3 * i + 2]
      && v[b + 3] == uvs[2 * i] && v[b + 4] == uvs[2 * i + 1]
      && v[b + 5] == norm[3 * i] && v[b + 6] == norm[3 * i + 1] && v[b + 7] == norm[3 * i + 2]
  {
    var b := Stride * i;
    DivMod(b, Stride, i, 0);
    DivMod(b + 1, Stride, i, 1);
    DivMod(b + 2, Stride, i, 2);
    DivMod(b + 3, Stride, i, 3);
    DivMod(b + 4, Stride, i, 4);
    DivMod(b + 5, Stride, i, 5);
    DivMod(b + 6, Stride, i, 6);
    DivMod(b + 7, Stride, i, 7);
  }

  /** Weaving three streams together and splitting the result gives the streams back. */
  lemma InterleaveThenSplit(pos: seq<real>, uvs: seq<real>, norm: seq<real>)
    requires |pos| == 3 * VertexCount && |uvs| == 2 * VertexCount && |norm| == 3 * VertexCount
    ensures var v := Interleave(pos, uvs, norm);
      Positions(v) == pos && Uvs(v) == uvs && Normals(v) == norm
  {
    InterleavedPositionsAndNormals(pos, uvs, norm);
    InterleavedUvs(pos, uvs, norm);
  }

  lemma InterleavedPositionsAndNormals(pos: seq<real>, uvs: seq<real>, norm: seq<real>)
    requires |pos| == 3 * VertexCount && |uvs| == 2 * VertexCount && |norm| == 3 * VertexCount
    ensures forall j | 0 <= j < 3 * VertexCount ::
      Positions(Interleave(pos, uvs, norm))[j] == pos[j] && Normals(Interleave(pos, uvs, norm))[j] == norm[j]
  {
    var v := Interleave(pos, uvs, norm);
    forall j | 0 <= j < 3 * VertexCount
      ensures Positions(v)[j] == pos[j] && Normals(v)[j] == norm[j]
    {
      var i := j / 3;
      InterleaveAt(pos, uvs, norm, i);
      StreamsAt(v, i);
      assert j == 3 * i || j == 3 * i + 1 || j == 3 * i + 2;
    }
  }

  lemma InterleavedUvs(pos: seq<real>, uvs: seq<real>, norm: seq<real>)
    requires |pos| == 3 * VertexCount && |uvs| == 2 * VertexCount && |norm| == 3 * VertexCount
    ensures forall j | 0 <= j < 2 * VertexCount :: Uvs(Interleave(pos, uvs, norm))[j] == uvs[j]
  {
    var v := Interleave(pos, uvs, norm);
    forall j | 0 <= j < 2 * VertexCount
      ensures Uvs(v)[j] == uvs[j]
    {
      var i := j / 2;
      InterleaveAt(pos, uvs, norm, i);
      StreamsAt(v, i);
      assert j == 2 * i || j == 2 * i + 1;
    }
  }

  /** Value `k` of row `i` sits at `Stride * i + k` of the flat table. */
  lemma {:induction false} FlattenAt(rows: seq<Corner>, i: nat, k: nat)
    requires i < |rows| && k < Stride
    ensures Flatten(rows)[Stride * i + k] == Values(rows[i])[k]
    decreases i
  {
    if i > 0 {
      assert rows[1..][i - 1] == rows[i];
      FlattenAt(rows[1..], i - 1, k);
    }
  }

  /** The buffers `Cube::Cube` hands to OpenGL, and the vertex count it draws. */
  datatype CubeMesh = CubeMesh(vertexCount: nat, positions: seq<real>, textureUvs: seq<real>, normals: seq<real>)

  /** `Cube::Cube(size)` without the OpenGL calls. */
  method NewCube(size: real) returns (mesh: CubeMesh)
    ensures mesh.vertexCount == VertexCount
    ensures |mesh.positions| == 3 * mesh.vertexCount && |mesh.normals| == 3 * mesh.vertexCount
    ensures |mesh.textureUvs| == 2 * mesh.vertexCount
    ensures Interleave(mesh.positions, mesh.textureUvs, mesh.normals) == Vertices(size)
    ensures mesh.positions == Positions(Vertices(size))
    ensures mesh.textureUvs == Uvs(Vertices(size))
    ensures mesh.normals == Normals(Vertices(size))
  {
    var pos, uvs, norm := Deinterleave(Vertices(size));
    mesh := CubeMesh(VertexCount, pos, uvs, norm);
  }

  /** The outward normals of the faces, in table order: +Z, -Z, -X, +X, +Y, -Y. */
  const FaceNormals: seq<Vec3> := [
    Vec3(0.0, 0.0, 1.0), Vec3(0.0, 0.0, -1.0),
    Vec3(-1.0, 0.0, 0.0), Vec3(1.0, 0.0, 0.0),
    Vec3(0.0, 1.0, 0.0), Vec3(0.0, -1.0, 0.0)
  ]

  /** Row `k` of face `f` is row `6 * f + k` of the table. */
  lemma {:induction false} FacesAt(s: real, n: nat, f: nat, k: nat)
    requires n <= 6 && f < n && k < 6
    ensures Faces(s, n)[6 * f + k] == Face(s, f)[k]
    decreases n
  {
    if f < n - 1 {
      FacesAt(s, n - 1, f, k);
    }
  }

  /**
   `c` is a corner of the face with outward normal `n` of a cube with
   half-edge `s`: it carries that normal, lies on the face's plane, each of
   its coordinates is `s` or `-s`, and its texture coordinates are 0 or 1.
   */
  predicate CornerOfFace(c: Corner, s: real, n: Vec3) {
    && c.normal == n
    && Dot(c.position, n) == s
    && (c.position.x == s || c.position.x == -s)
    && (c.position.y == s || c.position.y == -s)
    && (c.position.z == s || c.position.z == -s)
    && (c.u == 0.0 || c.u == 1.0) && (c.v == 0.0 || c.v == 1.0)
  }

  lemma FaceCorners(s: real, f: nat)
    requires f < 6
    ensures forall k | 0 <= k < 6 :: CornerOfFace(Face(s, f)[k], s, FaceNormals[f])
  {
    if f == 0 {
      assert forall k | 0 <= k < 6 :: CornerOfFace(Face(s, 0)[k], s, FaceNormals[0]);
    } else if f == 1 {
      assert forall k | 0 <= k < 6 :: CornerOfFace(Face(s, 1)[k], s, FaceNormals[1]);
    } else if f == 2 {
      assert forall k | 0 <= k < 6 :: CornerOfFace(Face(s, 2)[k], s, FaceNormals[2]);
    } else if f == 3 {
      assert forall k | 0 <= k < 6 :: CornerOfFace(Face(s, 3)[k], s, FaceNormals[3]);
    } else if f == 4 {
      assert forall k | 0 <= k < 6 :: CornerOfFace(Face(s, 4)[k], s, FaceNormals[4]);
    } else {
      assert forall k | 0 <= k < 6 :: CornerOfFace(Face(s, 5)[k], s, FaceNormals[5]);
    }
  }

  /**
   Corner `k` of face `f`: its normal is the face's outward unit normal, it
   lies on the face's plane at distance `size / 2` from the centre, each of
   its coordinates is `size / 2` or `-size / 2`, and its texture coordinates
   are 0 or 1.
   */
  lemma FaceVertex(size: real, f: nat, k: nat)
    requires f < 6 && k < 6
    ensures IsAxisUnit(FaceNormals[f])
    ensures CornerOfFace(Table(size)[6 * f + k], size * 0.5, FaceNormals[f])
  {
    FacesAt(size * 0.5, 6, f, k);
    FaceCorners(size * 0.5, f);
  }

  /**
   The triangle of corners `a`, `b`, `c` winds counter-clockwise seen from
   the side `n` points to: the cross product of its edges is `n` scaled by
   `area2`, twice the triangle's area.
   */
  predicate Winds(a: Vec3, b: Vec3, c: Vec3, n: Vec3, area2: real) {
    Cross(Sub(b, a), Sub(c, a)) == Vec3(area2 * n.x, area2 * n.y, area2 * n.z)
  }

  /** Each face's two triangles share the diagonal from corner 0 to corner 2 and both wind around the outward normal. */
  predicate FaceShape(rows: seq<Corner>, s: real, n: Vec3)
    requires |rows| == 6
  {
    && rows[3] == rows[0] && rows[4] == rows[2]
    && Winds(rows[0].position, rows[1].position, rows[2].position, n, 4.0 * s * s)
    && Winds(rows[3].position, rows[4].position, rows[5].position, n, 4.0 * s * s)
  }

  lemma FrontFaceShape(s: real)
    ensures FaceShape(Face(s, 0), s, FaceNormals[0])
  {
  }

  lemma BackFaceShape(s: real)
    ensures FaceShape(Face(s, 1), s, FaceNormals[1])
  {
  }

  lemma LeftFaceShape(s: real)
    ensures FaceShape(Face(s, 2), s, FaceNormals[2])
  {
  }

  lemma RightFaceShape(s: real)
    ensures FaceShape(Face(s, 3), s, FaceNormals[3])
  {
  }

  lemma TopFaceShape(s: real)
    ensures FaceShape(Face(s, 4), s, FaceNormals[4])
  {
  }

  lemma BottomFaceShape(s: real)
    ensures FaceShape(Face(s, 5), s, FaceNormals[5])
  {
  }

  lemma FaceTriangles(s: real, f: nat)
    requires f < 6
    ensures FaceShape(Face(s, f), s, FaceNormals[f])
  {
    FrontFaceShape(s);
    BackFaceShape(s);
    LeftFaceShape(s);
    RightFaceShape(s);
    TopFaceShape(s);
    BottomFaceShape(s);
  }

  /** The second triangle of every face reuses the first triangle's first and last corners. */
  lemma SharedDiagonal(size: real, f: nat)
    requires f < 6
    ensures Table(size)[6 * f + 3] == Table(size)[6 * f]
    ensures Table(size)[6 * f + 4] == Table(size)[6 * f + 2]
  {
    var s := size * 0.5;
    FaceTriangles(s, f);
    FacesAt(s, 6, f, 0);
    FacesAt(s, 6, f, 2);
    FacesAt(s, 6, f, 3);
    FacesAt(s, 6, f, 4);
  }

  /**
   Triangle `h` of face `f` (table rows `6f + 3h` .. `6f + 3h + 2`) winds
   counter-clockwise seen from outside: the cross product of its edges
   points along the face normal, with length `size * size`, twice its area.
   */
  lemma TriangleFacesOutward(size: real, f: nat, h: nat)
    requires f < 6 && h < 2
    ensures var rows, t := Table(size), 6 * f + 3 * h;
      Winds(rows[t].position, rows[t + 1].position, rows[t + 2].position, FaceNormals[f], size * size)
  {
    var s := size * 0.5;
    FaceTriangles(s, f);
    FacesAt(s, 6, f, 3 * h);
    FacesAt(s, 6, f, 3 * h + 1);
    FacesAt(s, 6, f, 3 * h + 2);
    assert 4.0 * s * s == size * size;
  }

  /** Vertex `i`'s entries in the three streams are the position, texture coordinates and normal of table row `i`. */
  lemma StreamsOfTable(size: real, i: nat)
    requires i < VertexCount
    ensures var pos, uvs, norm, row := Positions(Vertices(size)), Uvs(Vertices(size)), Normals(Vertices(size)), Table(size)[i];
      && Vec3(pos[3 * i], pos[3 * i + 1], pos[3 * i + 2]) == row.position
      && uvs[2 * i] == row.u && uvs[2 * i + 1] == row.v
      && Vec3(norm[3 * i], norm[3 * i + 1], norm[3 * i + 2]) == row.normal
  {
    var v, rows := Vertices(size), Table(size);
    StreamsAt(v, i);
    var row := rows[i];
    assert Values(row) == [row.position.x, row.position.y, row.position.z, row.u, row.v, row.normal.x, row.normal.y, row.normal.z];
    FlattenAt(rows, i, 0);
    FlattenAt(rows, i, 1);
    FlattenAt(rows, i, 2);
    FlattenAt(rows, i, 3);
    FlattenAt(rows, i, 4);
    FlattenAt(rows, i, 5);
    FlattenAt(rows, i, 6);
    FlattenAt(rows, i, 7);
  }
}
