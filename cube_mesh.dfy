/**
 * The per-face vertex and index tables of a unit cube (src/gfx/cube_mesh.rs).
 * Face `i` is the side of the cube facing `Offset(DirAt(i))`; its four
 * corners are listed in `CubeVertices[i]` and its two triangles in
 * `CubeIndices[i]`, as indices into those four corners.
 */
module CubeMesh {
  import opened Vector
  import opened Direction

  datatype TexCoord = TexCoord(u: int, v: int)

  /** A mesh vertex: the table's float positions are the integers 0 and 1. */
  datatype Vertex = Vertex(position: Int3, texCoords: TexCoord, texIndex: nat)

  const CubeVertices: seq<seq<Vertex>> := [
    [Vertex(Int3(0, 0, 0), TexCoord(1, 1), 0), Vertex(Int3(0, 1, 0), TexCoord(1, 0), 0), Vertex(Int3(1, 1, 0), TexCoord(0, 0), 0), Vertex(Int3(1, 0, 0), TexCoord(0, 1), 0)],
    [Vertex(Int3(0, 0, 1), TexCoord(0, 1), 0), Vertex(Int3(0, 1, 1), TexCoord(0, 0), 0), Vertex(Int3(1, 1, 1), TexCoord(1, 0), 0), Vertex(Int3(1, 0, 1), TexCoord(1, 1), 0)],
    [Vertex(Int3(1, 0, 0), TexCoord(1, 1), 0), Vertex(Int3(1, 0, 1), TexCoord(0, 1), 0), Vertex(Int3(1, 1, 1), TexCoord(0, 0), 0), Vertex(Int3(1, 1, 0), TexCoord(1, 0), 0)],
    [Vertex(Int3(0, 0, 0), TexCoord(0, 1), 0), Vertex(Int3(0, 0, 1), TexCoord(1, 1), 0), Vertex(Int3(0, 1, 1), TexCoord(1, 0), 0), Vertex(Int3(0, 1, 0), TexCoord(0, 0), 0)],
    [Vertex(Int3(0, 1, 0), TexCoord(0, 1), 0), Vertex(Int3(0, 1, 1), TexCoord(0, 0), 0), Vertex(Int3(1, 1, 1), TexCoord(1, 0), 0), Vertex(Int3(1, 1, 0), TexCoord(1, 1), 0)],
    [Vertex(Int3(0, 0, 0), TexCoord(0, 1), 0), Vertex(Int3(0, 0, 1), TexCoord(0, 0), 0), Vertex(Int3(1, 0, 1), TexCoord(1, 0), 0), Vertex(Int3(1, 0, 0), TexCoord(1, 1), 0)]
  ]

  const CubeIndices: seq<seq<nat>> := [
    [0, 1, 2, 0, 2, 3],
    [0, 2, 1, 0, 3, 2],
    [0, 2, 1, 0, 3, 2],
    [0, 1, 2, 0, 2, 3],
    [0, 1, 2, 0, 2, 3],
    [0, 2, 1, 0, 3, 2]
  ]

  predicate Bit(n: int) { n == 0 || n == 1 }

  /**
   * `p` lies on the side of the unit cube that faces `o`: along the one
   * axis where `o` is non-zero, the coordinate is 1 for +1 and 0 for -1.
   */
  predicate OnSide(p: Int3, o: Int3) {
    && (o.x != 0 ==> p.x == (if o.x > 0 then 1 else 0))
    && (o.y != 0 ==> p.y == (if o.y > 0 then 1 else 0))
    && (o.z != 0 ==> p.z == (if o.z > 0 then 1 else 0))
  }

  /** Corner `k` of face `face`. */
  function CubeVertex(face: nat, k: nat): Vertex
    requires face < 6 && k < 4
  {
    CubeVertices[face][k]
  }

  /**
   * Every position and texture coordinate of the table is 0 or 1, and the
   * four corners of face `face` lie on the cube side its direction points to.
   */
  lemma CubeVertexOnSide(face: nat, k: nat)
    requires face < 6 && k < 4
    ensures var v := CubeVertex(face, k);
      && Bit(v.position.x) && Bit(v.position.y) && Bit(v.position.z)
      && Bit(v.texCoords.u) && Bit(v.texCoords.v)
      && OnSide(v.position, Offset(DirAt(face)))
  {
    if face == 0 { assert DirAt(0) == Forward; }
    else if face == 1 { assert DirAt(1) == Backward; }
    else if face == 2 { assert DirAt(2) == Right; }
    else if face == 3 { assert DirAt(3) == Left; }
    else if face == 4 { assert DirAt(4) == Up; }
    else { assert DirAt(5) == Down; }
  }

  /** The six corner indices of face `face`: two triangles, three corners each. */
  function FaceIndices(face: nat): (r: seq<nat>)
    requires face < 6
    ensures |r| == 6
  {
    CubeIndices[face]
  }

  /** Both triangles start at corner 0 (entries 0 and 3), and every entry is a corner 0..3. */
  lemma FaceIndicesBelow(face: nat, j: nat)
    requires face < 6 && j < 6
    ensures FaceIndices(face)[0] == 0 && FaceIndices(face)[3] == 0
    ensures FaceIndices(face)[j] < 4
  {
    if face == 0 { } else if face == 1 { } else if face == 2 { }
    else if face == 3 { } else if face == 4 { } else { }
  }

  /** Between them, the two triangles of a face use all four of its corners. */
  lemma FaceCoversCorners(face: nat, k: nat)
    requires face < 6 && k < 4
    ensures k in FaceIndices(face)
  {
    var r := FaceIndices(face);
    if k == 0 { assert r[0] == k; }
    else if k == 1 { assert r[1] == k || r[2] == k; }
    else if k == 2 { assert r[1] == k || r[2] == k; }
    else { assert r[4] == k || r[5] == k; }
  }

  /** Corner `j` (0..2) of triangle `t` (0 or 1) of face `face`. */
  function Corner(face: nat, t: nat, j: nat): Int3
    requires face < 6 && t < 2 && j < 3
  {
    CubeVertex(face, FaceIndices(face)[3 * t + j]).position
  }

  /** The normal (b - a) x (c - a) of the triangle a, b, c, by the right-hand rule. */
  function Normal(a: Int3, b: Int3, c: Int3): (r: Int3)
    ensures r.x == (b.y - a.y) * (c.z - a.z) - (b.z - a.z) * (c.y - a.y)
    ensures r.y == (b.z - a.z) * (c.x - a.x) - (b.x - a.x) * (c.z - a.z)
    ensures r.z == (b.x - a.x) * (c.y - a.y) - (b.y - a.y) * (c.x - a.x)
  {
    var u, v := Int3(b.x - a.x, b.y - a.y, b.z - a.z), Int3(c.x - a.x, c.y - a.y, c.z - a.z);
    Int3(u.y * v.z - u.z * v.y, u.z * v.x - u.x * v.z, u.x * v.y - u.y * v.x)
  }

  /** The geometric normal of triangle `t` (0 or 1) of face `face`. */
  function TriangleNormal(face: nat, t: nat): Int3
    requires face < 6 && t < 2
  {
    Normal(Corner(face, t, 0), Corner(face, t, 1), Corner(face, t, 2))
  }

  /** The first triangle of each face winds outward. */
  lemma FirstTriangleOutward(face: nat)
    requires face < 6
    ensures TriangleNormal(face, 0) == Offset(DirAt(face))
  {
    if face == 0 {
      assert DirAt(0) == Forward;
      assert Corner(0, 0, 0) == Int3(0, 0, 0);
      assert Corner(0, 0, 1) == Int3(0, 1, 0);
      assert Corner(0, 0, 2) == Int3(1, 1, 0);
    } else if face == 1 {
      assert DirAt(1) == Backward;
      assert Corner(1, 0, 0) == Int3(0, 0, 1);
      assert Corner(1, 0, 1) == Int3(1, 1, 1);
      assert Corner(1, 0, 2) == Int3(0, 1, 1);
    } else if face == 2 {
      assert DirAt(2) == Right;
      assert Corner(2, 0, 0) == Int3(1, 0, 0);
      assert Corner(2, 0, 1) == Int3(1, 1, 1);
      assert Corner(2, 0, 2) == Int3(1, 0, 1);
    } else if face == 3 {
      assert DirAt(3) == Left;
      assert Corner(3, 0, 0) == Int3(0, 0, 0);
      assert Corner(3, 0, 1) == Int3(0, 0, 1);
      assert Corner(3, 0, 2) == Int3(0, 1, 1);
    } else if face == 4 {
      assert DirAt(4) == Up;
      assert Corner(4, 0, 0) == Int3(0, 1, 0);
      assert Corner(4, 0, 1) == Int3(0, 1, 1);
      assert Corner(4, 0, 2) == Int3(1, 1, 1);
    } else {
      assert DirAt(5) == Down;
      assert Corner(5, 0, 0) == Int3(0, 0, 0);
      assert Corner(5, 0, 1) == Int3(1, 0, 1);
      assert Corner(5, 0, 2) == Int3(0, 0, 1);
    }
  }

  /** The second triangle of each face winds outward. */
  lemma SecondTriangleOutward(face: nat)
    requires face < 6
    ensures TriangleNormal(face, 1) == Offset(DirAt(face))
  {
    if face == 0 {
      assert DirAt(0) == Forward;
      assert Corner(0, 1, 0) == Int3(0, 0, 0);
      assert Corner(0, 1, 1) == Int3(1, 1, 0);
      assert Corner(0, 1, 2) == Int3(1, 0, 0);
    } else if face == 1 {
      assert DirAt(1) == Backward;
      assert Corner(1, 1, 0) == Int3(0, 0, 1);
      assert Corner(1, 1, 1) == Int3(1, 0, 1);
      assert Corner(1, 1, 2) == Int3(1, 1, 1);
    } else if face == 2 {
      assert DirAt(2) == Right;
      assert Corner(2, 1, 0) == Int3(1, 0, 0);
      assert Corner(2, 1, 1) == Int3(1, 1, 0);
      assert Corner(2, 1, 2) == Int3(1, 1, 1);
    } else if face == 3 {
      assert DirAt(3) == Left;
      assert Corner(3, 1, 0) == Int3(0, 0, 0);
      assert Corner(3, 1, 1) == Int3(0, 1, 1);
      assert Corner(3, 1, 2) == Int3(0, 1, 0);
    } else if face == 4 {
      assert DirAt(4) == Up;
      assert Corner(4, 1, 0) == Int3(0, 1, 0);
      assert Corner(4, 1, 1) == Int3(1, 1, 1);
      assert Corner(4, 1, 2) == Int3(1, 1, 0);
    } else {
      assert DirAt(5) == Down;
      assert Corner(5, 1, 0) == Int3(0, 0, 0);
      assert Corner(5, 1, 1) == Int3(1, 0, 0);
      assert Corner(5, 1, 2) == Int3(1, 0, 1);
    }
  }

  /**
   * The winding is consistent: both triangles of every face have as normal
   * exactly the face's outward unit offset, so back-face culling keeps the
   * side that faces away from the block.
   */
  lemma WindingOutward(face: nat, t: nat)
    requires face < 6 && t < 2
    ensures TriangleNormal(face, t) == Offset(DirAt(face))
  {
    if t == 0 {
      FirstTriangleOutward(face);
    } else {
      SecondTriangleOutward(face);
    }
  }
}
