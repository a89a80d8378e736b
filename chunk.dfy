/**
 * The voxel chunk (src/chunk.rs): a 16 x 16 x 16 grid of solid/empty cells
 * stored at linear index x + 16y + 256z, its bounds-checked reads and writes,
 * the face-culled mesh built from the cube tables, and the per-column sets of
 * entities standing over each (x, z) column.
 *
 * `oobSolid` is what a read outside the grid answers. The source answers
 * false (empty); the flag lets the model also state a path search over a
 * grid whose edge reads solid, the only reading under which that search
 * terminates.
 */
module Chunks {
  import opened Wrappers
  import opened Vector
  import opened Direction
  import opened CubeMesh

  const ChunkSize: int := 16
  const ChunkLen: int := 4096
  /** The number of faces of a cell, one per direction. */
  const Sides: nat := 6

  predicate InBounds(p: Int3) {
    0 <= p.x < 16 && 0 <= p.y < 16 && 0 <= p.z < 16
  }

  /** The linear index of an in-range cell: below `ChunkLen`, and one-to-one (see `BlockIndexInjective`). */
  function BlockIndex(p: Int3): (i: nat)
    requires InBounds(p)
    ensures i < ChunkLen
  {
    p.x + 16 * p.y + 256 * p.z
  }

  /** Two in-range cells with the same linear index are the same cell. */
  lemma BlockIndexInjective(p: Int3, q: Int3)
    requires InBounds(p) && InBounds(q)
    ensures BlockIndex(p) == BlockIndex(q) ==> p == q
  {
    assert -256 < (q.x - p.x) + 16 * (q.y - p.y) < 256;
    assert -16 < q.x - p.x < 16;
  }

  /** `get_block` over the cell array `blocks`: the cell's value in range, `oob` outside it. */
  function BlockAt(blocks: seq<bool>, oob: bool, p: Int3): bool
    requires |blocks| == ChunkLen
  {
    if InBounds(p) then blocks[BlockIndex(p)] else oob
  }

  /**
   * Writing `v` at an in-range cell and reading it back gives `v`; every
   * other cell, in range or not, reads as before.
   */
  lemma SetThenGet(blocks: seq<bool>, oob: bool, p: Int3, v: bool, q: Int3)
    requires |blocks| == ChunkLen && InBounds(p)
    ensures BlockAt(blocks[BlockIndex(p) := v], oob, q) == if q == p then v else BlockAt(blocks, oob, q)
  {
    if InBounds(q) {
      BlockIndexInjective(p, q);
    }
  }

  // ---------------------------------------------------------------- meshing

  /** A visible face: the cell it belongs to and the direction it faces. */
  datatype Face = Face(cell: Int3, dir: Direction)

  /** The neighbour of `p` across its face `dir`. */
  function Neighbour(p: Int3, dir: Direction): Int3 {
    p.Add(Offset(dir))
  }

  /** The condition under which `generate_mesh` emits face `dir` of cell `p`. */
  predicate Visible(blocks: seq<bool>, oob: bool, p: Int3, dir: Direction)
    requires |blocks| == ChunkLen
  {
    InBounds(p) && BlockAt(blocks, oob, p) && !BlockAt(blocks, oob, Neighbour(p, dir))
  }

  /** The faces among directions 0..k-1 of the solid cell `p`, in direction order. */
  function CellFaces(blocks: seq<bool>, oob: bool, p: Int3, k: nat): (r: seq<Face>)
    requires |blocks| == ChunkLen && k <= Sides
    ensures |r| <= k
  {
    if k == 0 then []
    else
      CellFaces(blocks, oob, p, k - 1)
      + (if BlockAt(blocks, oob, Neighbour(p, DirAt(k - 1))) then [] else [Face(p, DirAt(k - 1))])
  }

  /** The faces of cell `p`: none when it is empty. */
  function SolidCellFaces(blocks: seq<bool>, oob: bool, p: Int3): (r: seq<Face>)
    requires |blocks| == ChunkLen
    ensures |r| <= 6
  {
    if BlockAt(blocks, oob, p) then CellFaces(blocks, oob, p, Sides) else []
  }

  /** The faces of cells x = 0..k-1 of row (y, z), the innermost loop. */
  function RowFaces(blocks: seq<bool>, oob: bool, y: int, z: int, k: nat): (r: seq<Face>)
    requires |blocks| == ChunkLen && k <= ChunkSize
  {
    if k == 0 then [] else RowFaces(blocks, oob, y, z, k - 1) + SolidCellFaces(blocks, oob, Int3(k - 1, y, z))
  }

  /** The faces of rows y = 0..k-1 of plane z, the middle loop. */
  function PlaneFaces(blocks: seq<bool>, oob: bool, z: int, k: nat): (r: seq<Face>)
    requires |blocks| == ChunkLen && k <= ChunkSize
  {
    if k == 0 then [] else PlaneFaces(blocks, oob, z, k - 1) + RowFaces(blocks, oob, k - 1, z, ChunkSize)
  }

  /** The faces of planes z = 0..k-1, the outer loop. */
  function GridFaces(blocks: seq<bool>, oob: bool, k: nat): (r: seq<Face>)
    requires |blocks| == ChunkLen && k <= ChunkSize
  {
    if k == 0 then [] else GridFaces(blocks, oob, k - 1) + PlaneFaces(blocks, oob, k - 1, ChunkSize)
  }

  /** Every face of the chunk, in the order `generate_mesh` emits them. */
  function Faces(blocks: seq<bool>, oob: bool): (r: seq<Face>)
    requires |blocks| == ChunkLen
  {
    GridFaces(blocks, oob, ChunkSize)
  }

  lemma {:induction false} CellFacesExact(blocks: seq<bool>, oob: bool, p: Int3, k: nat, f: Face)
    requires |blocks| == ChunkLen && k <= Sides
    ensures f in CellFaces(blocks, oob, p, k) <==>
      f.cell == p && Index(f.dir) < k && !BlockAt(blocks, oob, Neighbour(p, f.dir))
  {
    if k > 0 {
      CellFacesExact(blocks, oob, p, k - 1, f);
      IndexRoundTrip(f.dir, k - 1);
    }
  }

  lemma {:induction false} RowFacesExact(blocks: seq<bool>, oob: bool, y: int, z: int, k: nat, f: Face)
    requires |blocks| == ChunkLen && k <= ChunkSize && 0 <= y < 16 && 0 <= z < 16
    ensures f in RowFaces(blocks, oob, y, z, k) <==>
      Visible(blocks, oob, f.cell, f.dir) && f.cell.y == y && f.cell.z == z && f.cell.x < k
  {
    if k > 0 {
      RowFacesExact(blocks, oob, y, z, k - 1, f);
      CellFacesExact(blocks, oob, Int3(k - 1, y, z), Sides, f);
    }
  }

  lemma {:induction false} PlaneFacesExact(blocks: seq<bool>, oob: bool, z: int, k: nat, f: Face)
    requires |blocks| == ChunkLen && k <= ChunkSize && 0 <= z < 16
    ensures f in PlaneFaces(blocks, oob, z, k) <==>
      Visible(blocks, oob, f.cell, f.dir) && f.cell.z == z && f.cell.y < k
  {
    if k > 0 {
      PlaneFacesExact(blocks, oob, z, k - 1, f);
      RowFacesExact(blocks, oob, k - 1, z, ChunkSize, f);
    }
  }

  lemma {:induction false} GridFacesExact(blocks: seq<bool>, oob: bool, k: nat, f: Face)
    requires |blocks| == ChunkLen && k <= ChunkSize
    ensures f in GridFaces(blocks, oob, k) <==> Visible(blocks, oob, f.cell, f.dir) && f.cell.z < k
  {
    if k > 0 {
      GridFacesExact(blocks, oob, k - 1, f);
      PlaneFacesExact(blocks, oob, k - 1, ChunkSize, f);
    }
  }

  /**
   * A face is in the mesh exactly when its cell is in range and solid and
   * the neighbour across it reads empty, border cells included when
   * out-of-range reads are empty.
   */
  lemma FacesExact(blocks: seq<bool>, oob: bool, f: Face)
    requires |blocks| == ChunkLen
    ensures f in Faces(blocks, oob) <==> Visible(blocks, oob, f.cell, f.dir)
  {
    GridFacesExact(blocks, oob, ChunkSize, f);
  }

  /** Six key slots per cell, in linear cell order. */
  function CellKey(p: Int3): int {
    6 * (p.x + 16 * p.y + 256 * p.z)
  }

  /** The position of a face in linear cell-then-direction order. */
  function FaceKey(f: Face): int {
    CellKey(f.cell) + Index(f.dir)
  }

  /** Strictly increasing keys, all in [lo, hi). */
  predicate KeysBetween(fs: seq<Face>, lo: int, hi: int) {
    && (forall i | 0 <= i < |fs| :: lo <= FaceKey(fs[i]) < hi)
    && (forall i, j | 0 <= i < j < |fs| :: FaceKey(fs[i]) < FaceKey(fs[j]))
  }

  lemma KeysBetweenAppend(a: seq<Face>, b: seq<Face>, lo: int, mid: int, hi: int)
    requires lo <= mid <= hi
    requires KeysBetween(a, lo, mid) && KeysBetween(b, mid, hi)
    ensures KeysBetween(a + b, lo, hi)
  {
    var ab := a + b;
    forall i | 0 <= i < |ab| ensures lo <= FaceKey(ab[i]) < hi {
      if i < |a| { assert ab[i] == a[i]; } else { assert ab[i] == b[i - |a|]; }
    }
    forall i, j | 0 <= i < j < |ab| ensures FaceKey(ab[i]) < FaceKey(ab[j]) {
      if j < |a| {
        assert ab[i] == a[i] && ab[j] == a[j];
      } else if i < |a| {
        assert ab[i] == a[i] && ab[j] == b[j - |a|];
      } else {
        assert ab[i] == b[i - |a|] && ab[j] == b[j - |a|];
      }
    }
  }

  lemma {:induction false} CellFacesOrdered(blocks: seq<bool>, oob: bool, p: Int3, k: nat)
    requires |blocks| == ChunkLen && k <= Sides
    ensures KeysBetween(CellFaces(blocks, oob, p, k), CellKey(p), CellKey(p) + k)
  {
    if k > 0 {
      CellFacesOrdered(blocks, oob, p, k - 1);
      var last := if BlockAt(blocks, oob, Neighbour(p, DirAt(k - 1))) then [] else [Face(p, DirAt(k - 1))];
      KeysBetweenAppend(CellFaces(blocks, oob, p, k - 1), last, CellKey(p), CellKey(p) + k - 1, CellKey(p) + k);
    }
  }

  lemma {:induction false} RowFacesOrdered(blocks: seq<bool>, oob: bool, y: int, z: int, k: nat)
    requires |blocks| == ChunkLen && k <= ChunkSize
    ensures KeysBetween(RowFaces(blocks, oob, y, z, k), CellKey(Int3(0, y, z)), CellKey(Int3(k, y, z)))
  {
    if k > 0 {
      RowFacesOrdered(blocks, oob, y, z, k - 1);
      var p := Int3(k - 1, y, z);
      CellFacesOrdered(blocks, oob, p, Sides);
      KeysBetweenAppend(RowFaces(blocks, oob, y, z, k - 1), SolidCellFaces(blocks, oob, p),
        CellKey(Int3(0, y, z)), CellKey(p), CellKey(Int3(k, y, z)));
    }
  }

  lemma {:induction false} PlaneFacesOrdered(blocks: seq<bool>, oob: bool, z: int, k: nat)
    requires |blocks| == ChunkLen && k <= ChunkSize
    ensures KeysBetween(PlaneFaces(blocks, oob, z, k), CellKey(Int3(0, 0, z)), CellKey(Int3(0, k, z)))
  {
    if k > 0 {
      PlaneFacesOrdered(blocks, oob, z, k - 1);
      RowFacesOrdered(blocks, oob, k - 1, z, ChunkSize);
      var lo, mid, hi := CellKey(Int3(0, 0, z)), CellKey(Int3(0, k - 1, z)), CellKey(Int3(0, k, z));
      assert CellKey(Int3(ChunkSize, k - 1, z)) == hi;
      KeysBetweenAppend(PlaneFaces(blocks, oob, z, k - 1), RowFaces(blocks, oob, k - 1, z, ChunkSize), lo, mid, hi);
    }
  }

  lemma {:induction false} GridFacesOrdered(blocks: seq<bool>, oob: bool, k: nat)
    requires |blocks| == ChunkLen && k <= ChunkSize
    ensures KeysBetween(GridFaces(blocks, oob, k), 0, CellKey(Int3(0, 0, k)))
  {
    if k > 0 {
      GridFacesOrdered(blocks, oob, k - 1);
      PlaneFacesOrdered(blocks, oob, k - 1, ChunkSize);
      var mid, hi := CellKey(Int3(0, 0, k - 1)), CellKey(Int3(0, 0, k));
      assert CellKey(Int3(0, ChunkSize, k - 1)) == hi;
      KeysBetweenAppend(GridFaces(blocks, oob, k - 1), PlaneFaces(blocks, oob, k - 1, ChunkSize), 0, mid, hi);
    }
  }

  /** No face is emitted twice: faces come in strictly increasing cell-then-direction order. */
  lemma FacesDistinct(blocks: seq<bool>, oob: bool, i: nat, j: nat)
    requires |blocks| == ChunkLen
    requires i < j < |Faces(blocks, oob)|
    ensures Faces(blocks, oob)[i] != Faces(blocks, oob)[j]
  {
    GridFacesOrdered(blocks, oob, ChunkSize);
  }

  lemma AppendAssoc(a: seq<Face>, b: seq<Face>, c: seq<Face>)
    ensures a + (b + c) == (a + b) + c
  {
  }

  lemma CellStep(blocks: seq<bool>, oob: bool, p: Int3, faces0: seq<Face>, k: nat, faces: seq<Face>, faces': seq<Face>)
    requires |blocks| == ChunkLen && k < Sides
    requires faces == faces0 + CellFaces(blocks, oob, p, k)
    requires faces' == faces + (if BlockAt(blocks, oob, Neighbour(p, DirAt(k))) then [] else [Face(p, DirAt(k))])
    ensures faces' == faces0 + CellFaces(blocks, oob, p, k + 1)
  {
    AppendAssoc(faces0, CellFaces(blocks, oob, p, k), faces' [|faces|..]);
  }

  lemma RowStep(blocks: seq<bool>, oob: bool, y: int, z: int, faces0: seq<Face>, x: nat, faces: seq<Face>, faces': seq<Face>)
    requires |blocks| == ChunkLen && x < ChunkSize
    requires faces == faces0 + RowFaces(blocks, oob, y, z, x)
    requires faces' == faces + SolidCellFaces(blocks, oob, Int3(x, y, z))
    ensures faces' == faces0 + RowFaces(blocks, oob, y, z, x + 1)
  {
    AppendAssoc(faces0, RowFaces(blocks, oob, y, z, x), SolidCellFaces(blocks, oob, Int3(x, y, z)));
  }

  lemma PlaneStep(blocks: seq<bool>, oob: bool, z: int, faces0: seq<Face>, y: nat, faces: seq<Face>, faces': seq<Face>)
    requires |blocks| == ChunkLen && y < ChunkSize
    requires faces == faces0 + PlaneFaces(blocks, oob, z, y)
    requires faces' == faces + RowFaces(blocks, oob, y, z, ChunkSize)
    ensures faces' == faces0 + PlaneFaces(blocks, oob, z, y + 1)
  {
    AppendAssoc(faces0, PlaneFaces(blocks, oob, z, y), RowFaces(blocks, oob, y, z, ChunkSize));
  }

  lemma GridStep(blocks: seq<bool>, oob: bool, z: nat, faces: seq<Face>, faces': seq<Face>)
    requires |blocks| == ChunkLen && z < ChunkSize
    requires faces == GridFaces(blocks, oob, z)
    requires faces' == faces + PlaneFaces(blocks, oob, z, ChunkSize)
    ensures faces' == GridFaces(blocks, oob, z + 1)
  {
  }

  /** A cube-table vertex moved to cell `p`. */
  function Translate(v: Vertex, p: Int3): Vertex {
    v.(position := v.position.Add(p))
  }

  /** The four vertices emitted for face `f`. */
  function FaceVertices(f: Face): seq<Vertex> {
    var i := Index(f.dir);
    [Translate(CubeVertex(i, 0), f.cell), Translate(CubeVertex(i, 1), f.cell),
     Translate(CubeVertex(i, 2), f.cell), Translate(CubeVertex(i, 3), f.cell)]
  }

  /** The six indices emitted for face `f` when the mesh already holds `base` vertices. */
  function FaceIndexList(f: Face, base: nat): seq<nat> {
    var ix := FaceIndices(Index(f.dir));
    [ix[0] + base, ix[1] + base, ix[2] + base, ix[3] + base, ix[4] + base, ix[5] + base]
  }

  /** The vertex list of a mesh of faces `fs`: four vertices per face. */
  function MeshVertices(fs: seq<Face>): (r: seq<Vertex>)
    ensures |r| == 4 * |fs|
  {
    if fs == [] then [] else MeshVertices(fs[..|fs| - 1]) + FaceVertices(fs[|fs| - 1])
  }

  /** The index list of a mesh of faces `fs`: six per face. */
  function MeshIndices(fs: seq<Face>): (r: seq<nat>)
    ensures |r| == 6 * |fs|
  {
    if fs == [] then []
    else MeshIndices(fs[..|fs| - 1]) + FaceIndexList(fs[|fs| - 1], 4 * (|fs| - 1))
  }

  /** Vertex 4i + k of the mesh is corner k of face i's table entry, moved to face i's cell. */
  lemma {:induction false} MeshVertexAt(fs: seq<Face>, i: nat, k: nat)
    requires i < |fs| && k < 4
    ensures MeshVertices(fs)[4 * i + k].position == CubeVertex(Index(fs[i].dir), k).position.Add(fs[i].cell)
  {
    if i < |fs| - 1 {
      MeshVertexAt(fs[..|fs| - 1], i, k);
    }
  }

  /** Index 6i + j of the mesh is entry j of face i's index table, shifted by face i's first vertex. */
  lemma {:induction false} MeshIndexAt(fs: seq<Face>, i: nat, j: nat)
    requires i < |fs| && j < 6
    ensures MeshIndices(fs)[6 * i + j] == FaceIndices(Index(fs[i].dir))[j] + 4 * i
  {
    if i < |fs| - 1 {
      MeshIndexAt(fs[..|fs| - 1], i, j);
    }
  }

  /** Every index refers to a vertex of the mesh. */
  lemma MeshIndicesBelow(fs: seq<Face>, n: nat)
    requires n < |MeshIndices(fs)|
    ensures MeshIndices(fs)[n] < |MeshVertices(fs)|
  {
    MeshIndexAt(fs, n / 6, n % 6);
    FaceIndicesBelow(Index(fs[n / 6].dir), n % 6);
  }

  lemma {:induction false} RowFacesCount(blocks: seq<bool>, oob: bool, y: int, z: int, k: nat)
    requires |blocks| == ChunkLen && k <= ChunkSize
    ensures |RowFaces(blocks, oob, y, z, k)| <= 6 * k
  {
    if k > 0 {
      RowFacesCount(blocks, oob, y, z, k - 1);
    }
  }

  lemma {:induction false} PlaneFacesCount(blocks: seq<bool>, oob: bool, z: int, k: nat)
    requires |blocks| == ChunkLen && k <= ChunkSize
    ensures |PlaneFaces(blocks, oob, z, k)| <= 96 * k
  {
    if k > 0 {
      PlaneFacesCount(blocks, oob, z, k - 1);
      RowFacesCount(blocks, oob, k - 1, z, ChunkSize);
    }
  }

  lemma {:induction false} GridFacesCount(blocks: seq<bool>, oob: bool, k: nat)
    requires |blocks| == ChunkLen && k <= ChunkSize
    ensures |GridFaces(blocks, oob, k)| <= 1536 * k
  {
    if k > 0 {
      GridFacesCount(blocks, oob, k - 1);
      PlaneFacesCount(blocks, oob, k - 1, ChunkSize);
      assert GridFaces(blocks, oob, k) == GridFaces(blocks, oob, k - 1) + PlaneFaces(blocks, oob, k - 1, ChunkSize);
    }
  }

  /** The whole mesh fits the `u32` indices of the source: at most 6 faces of 4 vertices per cell. */
  lemma MeshFitsU32(blocks: seq<bool>, oob: bool)
    requires |blocks| == ChunkLen
    ensures |MeshVertices(Faces(blocks, oob))| <= 4 * 6 * ChunkLen < 0x1_0000_0000
  {
    GridFacesCount(blocks, oob, ChunkSize);
  }

  /** An all-empty grid has no visible face, so a new chunk's mesh is empty. */
  lemma EmptyGridNoFaces(blocks: seq<bool>, oob: bool)
    requires |blocks| == ChunkLen
    requires forall i | 0 <= i < |blocks| :: !blocks[i]
    ensures Faces(blocks, oob) == []
  {
    var fs := Faces(blocks, oob);
    if fs != [] {
      FacesExact(blocks, oob, fs[0]);
      assert false;
    }
  }

  // ---------------------------------------------------------------- the chunk


  /** A mesh built so far holds exactly the vertices and indices of faces `fs`. */
  predicate MeshOf(vertices: seq<Vertex>, indices: seq<nat>, fs: seq<Face>) {
    vertices == MeshVertices(fs) && indices == MeshIndices(fs)
  }

  method BuildMesh(grid: seq<bool>, oob: bool) returns (vertices: seq<Vertex>, indices: seq<nat>)
    requires |grid| == ChunkLen
    ensures MeshOf(vertices, indices, Faces(grid, oob))
  {
    vertices, indices := [], [];
    ghost var faces: seq<Face> := [];
    for z := 0 to ChunkSize
      invariant faces == GridFaces(grid, oob, z)
      invariant MeshOf(vertices, indices, faces)
    {
      ghost var before := faces;
      vertices, indices, faces := EmitPlane(grid, oob, z, vertices, indices, faces);
      GridStep(grid, oob, z, before, faces);
    }
    assert faces == Faces(grid, oob);
  }

  /** The `y` loop of `generate_mesh` over plane `z`. */
  method EmitPlane(grid: seq<bool>, oob: bool, z: int, vertices0: seq<Vertex>, indices0: seq<nat>, ghost faces0: seq<Face>)
    returns (vertices: seq<Vertex>, indices: seq<nat>, ghost faces: seq<Face>)
    requires |grid| == ChunkLen && 0 <= z < ChunkSize
    requires MeshOf(vertices0, indices0, faces0)
    ensures faces == faces0 + PlaneFaces(grid, oob, z, ChunkSize)
    ensures MeshOf(vertices, indices, faces)
  {
    vertices, indices, faces := vertices0, indices0, faces0;
    var y := 0;
    while y < ChunkSize
      invariant 0 <= y <= ChunkSize
      invariant faces == faces0 + PlaneFaces(grid, oob, z, y)
      invariant MeshOf(vertices, indices, faces)
    {
      ghost var before := faces;
      vertices, indices, faces := EmitRow(grid, oob, y, z, vertices, indices, faces);
      PlaneStep(grid, oob, z, faces0, y, before, faces);
      y := y + 1;
    }
  }

  /** The `x` loop of `generate_mesh` over row (y, z). */
  method EmitRow(grid: seq<bool>, oob: bool, y: int, z: int, vertices0: seq<Vertex>, indices0: seq<nat>, ghost faces0: seq<Face>)
    returns (vertices: seq<Vertex>, indices: seq<nat>, ghost faces: seq<Face>)
    requires |grid| == ChunkLen && 0 <= y < ChunkSize && 0 <= z < ChunkSize
    requires MeshOf(vertices0, indices0, faces0)
    ensures faces == faces0 + RowFaces(grid, oob, y, z, ChunkSize)
    ensures MeshOf(vertices, indices, faces)
  {
    vertices, indices, faces := vertices0, indices0, faces0;
    var x := 0;
    while x < ChunkSize
      invariant 0 <= x <= ChunkSize
      invariant faces == faces0 + RowFaces(grid, oob, y, z, x)
      invariant MeshOf(vertices, indices, faces)
    {
      ghost var before := faces;
      vertices, indices, faces := EmitSolidCell(grid, oob, Int3(x, y, z), vertices, indices, faces);
      RowStep(grid, oob, y, z, faces0, x, before, faces);
      x := x + 1;
    }
  }

  /** The body of the `x` loop: the faces of cell `p` when it is solid, nothing otherwise. */
  method EmitSolidCell(grid: seq<bool>, oob: bool, p: Int3, vertices0: seq<Vertex>, indices0: seq<nat>, ghost faces0: seq<Face>)
    returns (vertices: seq<Vertex>, indices: seq<nat>, ghost faces: seq<Face>)
    requires |grid| == ChunkLen
    requires MeshOf(vertices0, indices0, faces0)
    ensures faces == faces0 + SolidCellFaces(grid, oob, p)
    ensures MeshOf(vertices, indices, faces)
  {
    vertices, indices, faces := vertices0, indices0, faces0;
    if BlockAt(grid, oob, p) {
      vertices, indices, faces := EmitCell(grid, oob, p, vertices, indices, faces);
    } else {
      assert faces0 + [] == faces0;
    }
  }

  /** The `dir_i` loop of `generate_mesh` for one solid cell `p`. */
  method EmitCell(grid: seq<bool>, oob: bool, p: Int3, vertices0: seq<Vertex>, indices0: seq<nat>, ghost faces0: seq<Face>)
    returns (vertices: seq<Vertex>, indices: seq<nat>, ghost faces: seq<Face>)
    requires |grid| == ChunkLen
    requires MeshOf(vertices0, indices0, faces0)
    ensures faces == faces0 + CellFaces(grid, oob, p, Sides)
    ensures MeshOf(vertices, indices, faces)
  {
    vertices, indices, faces := vertices0, indices0, faces0;
    var dirI := 0;
    while dirI < Sides
      invariant 0 <= dirI <= Sides
      invariant faces == faces0 + CellFaces(grid, oob, p, dirI)
      invariant MeshOf(vertices, indices, faces)
    {
      ghost var before := faces;
      vertices, indices, faces := EmitSide(grid, oob, p, dirI, vertices, indices, faces);
      CellStep(grid, oob, p, faces0, dirI, before, faces);
      dirI := dirI + 1;
    }
  }

  /** The body of the `dir_i` loop: the face of `p` towards direction `dirI` when the neighbour there is empty. */
  method EmitSide(grid: seq<bool>, oob: bool, p: Int3, dirI: nat, vertices0: seq<Vertex>, indices0: seq<nat>, ghost faces0: seq<Face>)
    returns (vertices: seq<Vertex>, indices: seq<nat>, ghost faces: seq<Face>)
    requires |grid| == ChunkLen && dirI < Sides
    requires MeshOf(vertices0, indices0, faces0)
    ensures faces == faces0 + (if BlockAt(grid, oob, Neighbour(p, DirAt(dirI))) then [] else [Face(p, DirAt(dirI))])
    ensures MeshOf(vertices, indices, faces)
  {
    vertices, indices, faces := vertices0, indices0, faces0;
    var dir := DirAt(dirI);
    var offset := Offset(dir);
    var neighbour := Int3(p.x + offset.x, p.y + offset.y, p.z + offset.z);
    assert neighbour == Neighbour(p, dir);
    if !BlockAt(grid, oob, neighbour) {
      vertices, indices := EmitFace(Face(p, dir), vertices, indices, faces);
      faces := faces + [Face(p, dir)];
    } else {
      assert faces0 + [] == faces0;
    }
  }

  /** The `vert_i` and `ind_i` loops of `generate_mesh` for one visible face. */
  method EmitFace(f: Face, vertices0: seq<Vertex>, indices0: seq<nat>, ghost faces: seq<Face>)
    returns (vertices: seq<Vertex>, indices: seq<nat>)
    requires MeshOf(vertices0, indices0, faces)
    ensures MeshOf(vertices, indices, faces + [f])
  {
    vertices, indices := vertices0, indices0;
    var dirI := Index(f.dir);
    var vertCount := |vertices|;
    for vertI := 0 to 4
      invariant vertices == vertices0 + FaceVertices(f)[..vertI]
    {
      vertices := vertices + [Translate(CubeVertex(dirI, vertI), f.cell)];
    }
    for indI := 0 to 6
      invariant indices == indices0 + FaceIndexList(f, vertCount)[..indI]
    {
      indices := indices + [FaceIndices(dirI)[indI] + vertCount];
    }
    assert (faces + [f])[..|faces|] == faces;
    assert MeshVertices(faces + [f]) == MeshVertices(faces) + FaceVertices(f);
    assert MeshIndices(faces + [f]) == MeshIndices(faces) + FaceIndexList(f, 4 * |faces|);
  }

  // ------------------------------------------------------------ occupancy

  /** A column (x, z) of the grid, which keeps the set of entities overlapping it. */
  predicate ColumnInBounds(x: int, z: int) {
    0 <= x < ChunkSize && 0 <= z < ChunkSize
  }

  /** The per-column entity sets; a column without a key holds no entity. */
  type Columns = map<(int, int), set<nat>>

  /** The entities recorded over column (x, z). */
  function Occupants(columns: Columns, x: int, z: int): set<nat> {
    if (x, z) in columns then columns[(x, z)] else {}
  }

  /** `add_entity_to_block` on values: the column gains `entity`; out of range nothing changes. */
  function AddOccupant(columns: Columns, entity: nat, x: int, z: int): (r: Columns)
    ensures forall cx, cz :: Occupants(r, cx, cz) ==
                             if (cx, cz) == (x, z) && ColumnInBounds(x, z) then Occupants(columns, cx, cz) + {entity}
                             else Occupants(columns, cx, cz)
  {
    if ColumnInBounds(x, z) then columns[(x, z) := Occupants(columns, x, z) + {entity}] else columns
  }

  /** `remove_entity_from_block` on values: the column loses `entity`; out of range nothing changes. */
  function RemoveOccupant(columns: Columns, entity: nat, x: int, z: int): (r: Columns)
    ensures forall cx, cz :: Occupants(r, cx, cz) ==
                             if (cx, cz) == (x, z) && ColumnInBounds(x, z) then Occupants(columns, cx, cz) - {entity}
                             else Occupants(columns, cx, cz)
  {
    if ColumnInBounds(x, z) then columns[(x, z) := Occupants(columns, x, z) - {entity}] else columns
  }

  /** Adding and removing only ever touch the one entity: every other entity's columns are as before. */
  lemma OccupantUpdatesIsolated(columns: Columns, entity: nat, other: nat, x: int, z: int, cx: int, cz: int)
    requires other != entity
    ensures other in Occupants(AddOccupant(columns, entity, x, z), cx, cz) <==> other in Occupants(columns, cx, cz)
    ensures other in Occupants(RemoveOccupant(columns, entity, x, z), cx, cz) <==> other in Occupants(columns, cx, cz)
  {
  }

  class Chunk {
    const blocks: array<bool>
    const oobSolid: bool
    /** `BLOCK_SIZE`: world units per cell, which world positions are divided by to find their cell. */
    const blockSize: int
    /** The entities overlapping each (x, z) column. */
    var columns: Columns

    ghost predicate Valid() reads this {
      blocks.Length == ChunkLen && blockSize > 0
    }

    /** `Chunk::new`: every cell empty, no entity in any column. */
    constructor (oobSolid: bool, blockSize: int)
      requires blockSize > 0
      ensures Valid() && fresh(blocks) && this.oobSolid == oobSolid && this.blockSize == blockSize
      ensures forall i | 0 <= i < ChunkLen :: !blocks[i]
      ensures columns == map[]
    {
      blocks := new bool[ChunkLen](_ => false);
      this.oobSolid := oobSolid;
      this.blockSize := blockSize;
      columns := map[];
    }

    /** `get_block`: false (or `oobSolid`) outside the grid, the stored cell inside it. */
    function GetBlock(x: int, y: int, z: int): (solid: bool)
      reads this, blocks
      requires Valid()
      ensures !InBounds(Int3(x, y, z)) ==> solid == oobSolid
      ensures InBounds(Int3(x, y, z)) ==> solid == blocks[BlockIndex(Int3(x, y, z))]
    {
      BlockAt(blocks[..], oobSolid, Int3(x, y, z))
    }

    /** `set_block`: writes the one cell in range; out of range it does nothing. */
    method SetBlock(solid: bool, x: int, y: int, z: int)
      requires Valid()
      modifies blocks
      ensures Valid()
      ensures InBounds(Int3(x, y, z)) ==> blocks[..] == old(blocks[..])[BlockIndex(Int3(x, y, z)) := solid]
      ensures !InBounds(Int3(x, y, z)) ==> blocks[..] == old(blocks[..])
    {
      if x < 0 || x >= ChunkSize || y < 0 || y >= ChunkSize || z < 0 || z >= ChunkSize {
        return;
      }
      blocks[x + y * 16 + z * 256] := solid;
    }

    /**
     * `generate_mesh`: the vertices and indices of every visible face, in
     * z, y, x, direction order (see `FacesExact`, `FacesDistinct`,
     * `MeshVertexAt` and `MeshIndexAt` for what they hold).
     */
    method GenerateMesh() returns (vertices: seq<Vertex>, indices: seq<nat>)
      requires Valid()
      ensures vertices == MeshVertices(Faces(blocks[..], oobSolid))
      ensures indices == MeshIndices(Faces(blocks[..], oobSolid))
    {
      var grid := blocks[..];
      vertices, indices := BuildMesh(grid, oobSolid);
    }

    /** `add_entity_to_block`: joins the column's set; a no-op outside the grid. */
    method AddEntityToBlock(entity: nat, x: int, z: int)
      modifies this`columns
      ensures columns == AddOccupant(old(columns), entity, x, z)
    {
      if ColumnInBounds(x, z) {
        columns := columns[(x, z) := Occupants(columns, x, z) + {entity}];
      }
    }

    /** `remove_entity_from_block`: leaves the column's set; a no-op outside the grid. */
    method RemoveEntityFromBlock(entity: nat, x: int, z: int)
      modifies this`columns
      ensures columns == RemoveOccupant(old(columns), entity, x, z)
    {
      if ColumnInBounds(x, z) {
        columns := columns[(x, z) := Occupants(columns, x, z) - {entity}];
      }
    }

    /** `entities_at_block`: the column's set in range, nothing outside it. */
    function EntitiesAtBlock(x: int, z: int): (r: Option<set<nat>>)
      reads this
      ensures r.Some? <==> ColumnInBounds(x, z)
      ensures r.Some? ==> r.value == Occupants(columns, x, z)
    {
      if ColumnInBounds(x, z) then Some(Occupants(columns, x, z)) else None
    }
  }
}
