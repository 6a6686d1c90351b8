/** Specification of the voxel terrain of terrain.py as functions of a grid
    value: the smoothed height field, the face-culled mesh with its vertex
    pool, the windowed collision query and one physics step. The class in
    module VoxelTerrain is proved to compute exactly these. */
module VoxelGrid {
  import opened Vectors
  import opened Boxes
  import opened Geometry

  /** Number of cells along x, y and z (`size`, integer by the source's assertion). */
  datatype Dims = Dims(sx: nat, sy: nat, sz: nat)

  /** `blocks[x][y][z]`: 1 for a solid cell, 0 for an empty one. */
  type Blocks = seq<seq<seq<int>>>

  /** Every index inside the dimensions can be read. */
  predicate Covers(b: Blocks, d: Dims) {
    && |b| >= d.sx
    && forall x :: 0 <= x < d.sx ==>
         |b[x]| >= d.sy && forall y :: 0 <= y < d.sy ==> |b[x][y]| >= d.sz
  }

  /** Exactly the dimensions: `size.x` lists of `size.y` lists of `size.z` cells. */
  predicate Shaped(b: Blocks, d: Dims) {
    && |b| == d.sx
    && forall x :: 0 <= x < d.sx ==>
         |b[x]| == d.sy && forall y :: 0 <= y < d.sy ==> |b[x][y]| == d.sz
  }

  predicate InGrid(d: Dims, x: int, y: int, z: int) {
    0 <= x < d.sx && 0 <= y < d.sy && 0 <= z < d.sz
  }

  /** The terrain state that meshing, collision and physics read. */
  datatype Grid = Grid(blocks: Blocks, dims: Dims, position: Vector3, blockSize: int) {
    predicate Valid() {
      Covers(blocks, dims)
    }
  }

  predicate Solid(g: Grid, x: int, y: int, z: int)
    requires g.Valid()
  {
    InGrid(g.dims, x, y, z) && g.blocks[x][y][z] != 0
  }

  ghost predicate AllEmpty(g: Grid)
    requires g.Valid()
  {
    forall x, y, z :: InGrid(g.dims, x, y, z) ==> g.blocks[x][y][z] == 0
  }

  ghost predicate AllSolid(g: Grid)
    requires g.Valid()
  {
    forall x, y, z :: InGrid(g.dims, x, y, z) ==> g.blocks[x][y][z] != 0
  }

  // ---------------------------------------------------------------------
  // Height field

  predicate HeightsShaped(h: seq<seq<int>>, sx: nat, sz: nat) {
    |h| == sx && forall x :: 0 <= x < sx ==> |h[x]| == sz
  }

  /** A height per column, each in [0, top]. */
  predicate HeightsWithin(h: seq<seq<int>>, sx: nat, sz: nat, top: int) {
    HeightsShaped(h, sx, sz) &&
    forall x, z :: 0 <= x < sx && 0 <= z < sz ==> 0 <= h[x][z] <= top
  }

  predicate InColumns(sx: nat, sz: nat, x: int, z: int) {
    0 <= x < sx && 0 <= z < sz
  }

  /** Sum of the in-bounds heights of column row x + dx, over dz in [-1, j). */
  function RowSum(r: seq<seq<int>>, sx: nat, sz: nat, x: int, z: int, dx: int, j: int): int
    requires HeightsShaped(r, sx, sz)
    requires -1 <= j <= 2
    decreases j + 1
  {
    if j == -1 then 0
    else RowSum(r, sx, sz, x, z, dx, j - 1)
         + (if InColumns(sx, sz, x + dx, z + j - 1) then r[x + dx][z + j - 1] else 0)
  }

  /** Number of in-bounds columns of row x + dx, over dz in [-1, j). */
  function RowCount(sx: nat, sz: nat, x: int, z: int, dx: int, j: int): int
    requires -1 <= j <= 2
    decreases j + 1
  {
    if j == -1 then 0
    else RowCount(sx, sz, x, z, dx, j - 1) + (if InColumns(sx, sz, x + dx, z + j - 1) then 1 else 0)
  }

  /** Sum over the rows dx in [-1, i) of the 3x3 neighbourhood of (x, z). */
  function WindowSum(r: seq<seq<int>>, sx: nat, sz: nat, x: int, z: int, i: int): int
    requires HeightsShaped(r, sx, sz)
    requires -1 <= i <= 2
    decreases i + 1
  {
    if i == -1 then 0 else WindowSum(r, sx, sz, x, z, i - 1) + RowSum(r, sx, sz, x, z, i - 1, 2)
  }

  function WindowCount(sx: nat, sz: nat, x: int, z: int, i: int): int
    requires -1 <= i <= 2
    decreases i + 1
  {
    if i == -1 then 0 else WindowCount(sx, sz, x, z, i - 1) + RowCount(sx, sz, x, z, i - 1, 2)
  }

  lemma {:induction false} RowCountBounds(sx: nat, sz: nat, x: int, z: int, dx: int, j: int)
    requires -1 <= j <= 2
    ensures 0 <= RowCount(sx, sz, x, z, dx, j) <= j + 1
    ensures j >= 1 && InColumns(sx, sz, x + dx, z) ==> RowCount(sx, sz, x, z, dx, j) >= 1
  {
    if j > -1 {
      RowCountBounds(sx, sz, x, z, dx, j - 1);
    }
  }

  lemma {:induction false} RowSumBounds(r: seq<seq<int>>, sx: nat, sz: nat, top: int,
                                        x: int, z: int, dx: int, j: int)
    requires HeightsWithin(r, sx, sz, top)
    requires -1 <= j <= 2
    ensures 0 <= RowSum(r, sx, sz, x, z, dx, j) <= top * RowCount(sx, sz, x, z, dx, j)
  {
    if j > -1 {
      RowSumBounds(r, sx, sz, top, x, z, dx, j - 1);
      var c := RowCount(sx, sz, x, z, dx, j - 1);
      var e := if InColumns(sx, sz, x + dx, z + j - 1) then 1 else 0;
      assert RowCount(sx, sz, x, z, dx, j) == c + e;
      Distribute(top, c, e);
    }
  }

  lemma Distribute(t: int, c: int, e: int)
    ensures t * (c + e) == t * c + t * e
  {
  }

  /** The neighbourhood of an in-bounds column holds between one and nine columns. */
  lemma {:induction false} WindowCountBounds(sx: nat, sz: nat, x: int, z: int, i: int)
    requires -1 <= i <= 2
    ensures 0 <= WindowCount(sx, sz, x, z, i) <= 3 * (i + 1)
    ensures i >= 1 && InColumns(sx, sz, x, z) ==> WindowCount(sx, sz, x, z, i) >= 1
  {
    if i > -1 {
      WindowCountBounds(sx, sz, x, z, i - 1);
      RowCountBounds(sx, sz, x, z, i - 1, 2);
    }
  }

  /** The neighbourhood sum is at most top per column counted. */
  lemma {:induction false} WindowSumBounds(r: seq<seq<int>>, sx: nat, sz: nat, top: int,
                                           x: int, z: int, i: int)
    requires HeightsWithin(r, sx, sz, top)
    requires -1 <= i <= 2
    ensures 0 <= WindowSum(r, sx, sz, x, z, i) <= top * WindowCount(sx, sz, x, z, i)
  {
    if i > -1 {
      WindowSumBounds(r, sx, sz, top, x, z, i - 1);
      RowSumBounds(r, sx, sz, top, x, z, i - 1, 2);
      var c := WindowCount(sx, sz, x, z, i - 1);
      var e := RowCount(sx, sz, x, z, i - 1, 2);
      Distribute(top, c, e);
    }
  }

  /** Floor division of a sum of at most top per item by the item count. */
  lemma MeanBounds(sum: int, count: int, top: int)
    requires count >= 1 && 0 <= sum <= top * count
    ensures 0 <= sum / count <= top
    ensures (sum / count) * count <= sum < (sum / count + 1) * count
  {
  }

  /** `height_matrix[x][z]`: integer mean of the in-bounds 3x3 neighbourhood. */
  function SmoothedHeight(r: seq<seq<int>>, sx: nat, sz: nat, x: int, z: int): int
    requires HeightsShaped(r, sx, sz) && InColumns(sx, sz, x, z)
  {
    WindowCountBounds(sx, sz, x, z, 2);
    WindowSum(r, sx, sz, x, z, 2) / WindowCount(sx, sz, x, z, 2)
  }

  /** Every smoothed height is the floor of the neighbourhood mean, at most
      nine columns are averaged, and random heights in [0, top] give
      smoothed heights in [0, top]. */
  lemma SmoothedHeightBounds(r: seq<seq<int>>, sx: nat, sz: nat, top: int, x: int, z: int)
    requires HeightsWithin(r, sx, sz, top) && InColumns(sx, sz, x, z)
    ensures 1 <= WindowCount(sx, sz, x, z, 2) <= 9
    ensures var h, n, sum := SmoothedHeight(r, sx, sz, x, z), WindowCount(sx, sz, x, z, 2),
                            WindowSum(r, sx, sz, x, z, 2);
            h * n <= sum < (h + 1) * n
    ensures 0 <= SmoothedHeight(r, sx, sz, x, z) <= top
  {
    WindowCountBounds(sx, sz, x, z, 2);
    WindowSumBounds(r, sx, sz, top, x, z, 2);
    MeanBounds(WindowSum(r, sx, sz, x, z, 2), WindowCount(sx, sz, x, z, 2), top);
  }

  /** The grid is a height field: a cell is solid exactly below its column's height. */
  ghost predicate IsHeightField(b: Blocks, d: Dims, h: seq<seq<int>>)
    requires Covers(b, d) && HeightsShaped(h, d.sx, d.sz)
  {
    forall x, y, z :: InGrid(d, x, y, z) ==> b[x][y][z] == if y < h[x][z] then 1 else 0
  }

  /** A height field has no gaps or overhangs: below a solid cell every cell is solid. */
  lemma HeightFieldSolidFromFloor(b: Blocks, d: Dims, h: seq<seq<int>>, x: int, y: int, y': int, z: int)
    requires Covers(b, d) && HeightsShaped(h, d.sx, d.sz) && IsHeightField(b, d, h)
    requires InGrid(d, x, y', z) && 0 <= y <= y' && b[x][y'][z] == 1
    ensures b[x][y][z] == 1
  {
  }

  // ---------------------------------------------------------------------
  // Mesh: face culling

  /** The six faces, in the order terrain.py tests them: +y, -y, +z, -z, +x, -x. */
  datatype Face = PosY | NegY | PosZ | NegZ | PosX | NegX

  function FaceIndex(f: Face): nat {
    match f
    case PosY => 0 case NegY => 1 case PosZ => 2 case NegZ => 3 case PosX => 4 case NegX => 5
  }

  /** A point of the integer lattice; a cell is named by its lowest corner. */
  datatype Corner = Corner(x: int, y: int, z: int)

  /** Face `face` of the cell (x, y, z). */
  datatype Quad = Quad(x: int, y: int, z: int, face: Face)

  /** The cell on the other side of the face. */
  function Across(q: Quad): Corner {
    match q.face
    case PosY => Corner(q.x, q.y + 1, q.z)
    case NegY => Corner(q.x, q.y - 1, q.z)
    case PosZ => Corner(q.x, q.y, q.z + 1)
    case NegZ => Corner(q.x, q.y, q.z - 1)
    case PosX => Corner(q.x + 1, q.y, q.z)
    case NegX => Corner(q.x - 1, q.y, q.z)
  }

  /** A face is emitted when its cell is solid and the cell across it is
      inside the grid and empty; faces on the grid boundary never are. */
  predicate Exposed(g: Grid, q: Quad)
    requires g.Valid()
  {
    var n := Across(q);
    Solid(g, q.x, q.y, q.z) && InGrid(g.dims, n.x, n.y, n.z) && g.blocks[n.x][n.y][n.z] == 0
  }

  /** Corners v1, v2, v3, v4 of each face, as terrain.py lists them. */
  function FaceCorners(q: Quad): (cs: seq<Corner>)
    ensures |cs| == 4
  {
    var x, y, z := q.x, q.y, q.z;
    match q.face
    case PosY => [Corner(x, y + 1, z), Corner(x, y + 1, z + 1), Corner(x + 1, y + 1, z + 1), Corner(x + 1, y + 1, z)]
    case NegY => [Corner(x, y, z), Corner(x, y, z + 1), Corner(x + 1, y, z + 1), Corner(x + 1, y, z)]
    case PosZ => [Corner(x, y + 1, z + 1), Corner(x, y, z + 1), Corner(x + 1, y, z + 1), Corner(x + 1, y + 1, z + 1)]
    case NegZ => [Corner(x, y, z), Corner(x, y + 1, z), Corner(x + 1, y, z), Corner(x + 1, y + 1, z)]
    case PosX => [Corner(x + 1, y + 1, z), Corner(x + 1, y + 1, z + 1), Corner(x + 1, y, z), Corner(x + 1, y, z + 1)]
    case NegX => [Corner(x, y + 1, z + 1), Corner(x, y + 1, z), Corner(x, y, z), Corner(x, y, z + 1)]
  }

  /** Winding of the two triangles (v1, a, b) and (v1, c, d), as indices into
      the face's corners. */
  datatype Winding = Winding(a: nat, b: nat, c: nat, d: nat)

  function FaceWinding(f: Face): (w: Winding)
    ensures 1 <= w.a <= 3 && 1 <= w.b <= 3 && 1 <= w.c <= 3 && 1 <= w.d <= 3
  {
    match f
    case PosY => Winding(1, 2, 2, 3)
    case NegY => Winding(2, 1, 3, 2)
    case PosZ => Winding(1, 2, 2, 3)
    case NegZ => Winding(1, 3, 3, 2)
    case PosX => Winding(1, 3, 3, 2)
    case NegX => Winding(1, 2, 2, 3)
  }

  /** World position of a lattice corner: `position + Vector3(x, y, z) * block_size`. */
  function CornerPosition(g: Grid, c: Corner): Vector3 {
    Add(g.position, Scale(OfInts(c.x, c.y, c.z), g.blockSize as real))
  }

  function CornerVertex(g: Grid, c: Corner): Vertex {
    Vertex(CornerPosition(g, c))
  }

  /** The two triangles emitted for a face, before they are recoloured. */
  function QuadTriangles(g: Grid, q: Quad): seq<Triangle> {
    var cs := FaceCorners(q);
    var w := FaceWinding(q.face);
    [NewTriangle(CornerVertex(g, cs[0]), CornerVertex(g, cs[w.a]), CornerVertex(g, cs[w.b]), None),
     NewTriangle(CornerVertex(g, cs[0]), CornerVertex(g, cs[w.c]), CornerVertex(g, cs[w.d]), None)]
  }

  /** A face is emitted exactly when it is exposed. */
  function FaceQuads(g: Grid, q: Quad): seq<Quad>
    requires g.Valid()
  {
    if Exposed(g, q) then [q] else []
  }

  /** The order in which `reset_mesh` tests the faces of a cell. */
  const FaceOrder: seq<Face> := [PosY, NegY, PosZ, NegZ, PosX, NegX]

  /** The emitted faces among fs of the cell (x, y, z), in the order of fs. */
  function FacesOf(g: Grid, x: int, y: int, z: int, fs: seq<Face>): seq<Quad>
    requires g.Valid()
  {
    if fs == [] then []
    else FacesOf(g, x, y, z, fs[..|fs| - 1]) + FaceQuads(g, Quad(x, y, z, fs[|fs| - 1]))
  }

  /** The faces of one cell that are emitted, in test order. */
  function CellQuads(g: Grid, x: int, y: int, z: int): seq<Quad>
    requires g.Valid()
  {
    FacesOf(g, x, y, z, FaceOrder)
  }

  /** The six tests written out, in order. */
  lemma CellQuadsSpelled(g: Grid, x: int, y: int, z: int)
    requires g.Valid()
    ensures CellQuads(g, x, y, z)
            == FaceQuads(g, Quad(x, y, z, PosY)) + FaceQuads(g, Quad(x, y, z, NegY))
               + FaceQuads(g, Quad(x, y, z, PosZ)) + FaceQuads(g, Quad(x, y, z, NegZ))
               + FaceQuads(g, Quad(x, y, z, PosX)) + FaceQuads(g, Quad(x, y, z, NegX))
  {
    var o := FaceOrder;
    assert o[..5][..4][..3][..2][..1][..0] == [];
    assert FacesOf(g, x, y, z, o[..1]) == FaceQuads(g, Quad(x, y, z, PosY));
    assert o[..5][..4][..3][..2] == o[..2];
    assert FacesOf(g, x, y, z, o[..2]) == FacesOf(g, x, y, z, o[..1]) + FaceQuads(g, Quad(x, y, z, NegY));
    assert o[..5][..4][..3] == o[..3];
    assert FacesOf(g, x, y, z, o[..3]) == FacesOf(g, x, y, z, o[..2]) + FaceQuads(g, Quad(x, y, z, PosZ));
    assert o[..5][..4] == o[..4];
    assert FacesOf(g, x, y, z, o[..4]) == FacesOf(g, x, y, z, o[..3]) + FaceQuads(g, Quad(x, y, z, NegZ));
    assert FacesOf(g, x, y, z, o[..5]) == FacesOf(g, x, y, z, o[..4]) + FaceQuads(g, Quad(x, y, z, PosX));
    assert FacesOf(g, x, y, z, o) == FacesOf(g, x, y, z, o[..5]) + FaceQuads(g, Quad(x, y, z, NegX));
  }

  /** Faces of the cells (x, y, 0) .. (x, y, n - 1), in loop order. */
  function ZRun(g: Grid, x: int, y: int, n: nat): seq<Quad>
    requires g.Valid()
  {
    if n == 0 then [] else ZRun(g, x, y, n - 1) + CellQuads(g, x, y, n - 1)
  }

  /** Faces of the cells with this x and y in [0, n), in loop order. */
  function YRun(g: Grid, x: int, n: nat): seq<Quad>
    requires g.Valid()
  {
    if n == 0 then [] else YRun(g, x, n - 1) + ZRun(g, x, n - 1, g.dims.sz)
  }

  /** Faces of the cells with x in [0, n), in loop order. */
  function XRun(g: Grid, n: nat): seq<Quad>
    requires g.Valid()
  {
    if n == 0 then [] else XRun(g, n - 1) + YRun(g, n - 1, g.dims.sy)
  }

  /** Every face `reset_mesh` emits, in emission order. */
  function MeshQuads(g: Grid): seq<Quad>
    requires g.Valid()
  {
    XRun(g, g.dims.sx)
  }

  /** The triangles of a sequence of faces, two per face, in order. */
  function MeshTriangles(g: Grid, qs: seq<Quad>): seq<Triangle> {
    if qs == [] then [] else MeshTriangles(g, qs[..|qs| - 1]) + QuadTriangles(g, qs[|qs| - 1])
  }

  function QuadCornerSet(q: Quad): set<Corner> {
    var cs := FaceCorners(q);
    {cs[0], cs[1], cs[2], cs[3]}
  }

  /** The lattice corners a sequence of faces touches. */
  function CornerSet(qs: seq<Quad>): set<Corner> {
    if qs == [] then {} else CornerSet(qs[..|qs| - 1]) + QuadCornerSet(qs[|qs| - 1])
  }

  /** The positions of a set of lattice corners. */
  function PoolKeys(g: Grid, cs: set<Corner>): set<Vector3> {
    set c | c in cs :: CornerPosition(g, c)
  }

  /** A vertex pool holding, for each position, the vertex at it
      (`Vertex` hashes and compares by position). */
  function PoolMap(keys: set<Vector3>): map<Vector3, Vertex> {
    map k | k in keys :: Vertex(k)
  }

  /** The pool `reset_mesh` builds while it emits the faces qs. */
  function MeshPool(g: Grid, qs: seq<Quad>): map<Vector3, Vertex> {
    PoolMap(PoolKeys(g, CornerSet(qs)))
  }

  // Exactness of the face enumeration

  lemma {:induction false} FacesOfExact(g: Grid, x: int, y: int, z: int, fs: seq<Face>, q: Quad)
    requires g.Valid()
    ensures q in FacesOf(g, x, y, z, fs) <==> q.x == x && q.y == y && q.z == z && q.face in fs && Exposed(g, q)
  {
    if fs != [] {
      FacesOfExact(g, x, y, z, fs[..|fs| - 1], q);
      assert fs == fs[..|fs| - 1] + [fs[|fs| - 1]];
    }
  }

  lemma CellQuadsExact(g: Grid, x: int, y: int, z: int, q: Quad)
    requires g.Valid()
    ensures q in CellQuads(g, x, y, z) <==> q.x == x && q.y == y && q.z == z && Exposed(g, q)
  {
    FacesOfExact(g, x, y, z, FaceOrder, q);
    assert q.face == FaceOrder[FaceIndex(q.face)];
  }

  lemma {:induction false} ZRunExact(g: Grid, x: int, y: int, n: nat, q: Quad)
    requires g.Valid()
    ensures q in ZRun(g, x, y, n) <==> q.x == x && q.y == y && 0 <= q.z < n && Exposed(g, q)
  {
    if n > 0 {
      ZRunExact(g, x, y, n - 1, q);
      CellQuadsExact(g, x, y, n - 1, q);
    }
  }

  lemma {:induction false} YRunExact(g: Grid, x: int, n: nat, q: Quad)
    requires g.Valid()
    ensures q in YRun(g, x, n) <==> q.x == x && 0 <= q.y < n && Exposed(g, q)
  {
    if n > 0 {
      YRunExact(g, x, n - 1, q);
      ZRunExact(g, x, n - 1, g.dims.sz, q);
    }
  }

  lemma {:induction false} XRunExact(g: Grid, n: nat, q: Quad)
    requires g.Valid()
    ensures q in XRun(g, n) <==> 0 <= q.x < n && Exposed(g, q)
  {
    if n > 0 {
      XRunExact(g, n - 1, q);
      YRunExact(g, n - 1, g.dims.sy, q);
    }
  }

  /** Where the faces of each run lie, without the exposure condition. */
  lemma ZRunWhere(g: Grid, x: int, y: int, n: nat, q: Quad)
    requires g.Valid() && q in ZRun(g, x, y, n)
    ensures q.x == x && q.y == y && 0 <= q.z < n
  {
    ZRunExact(g, x, y, n, q);
  }

  lemma YRunWhere(g: Grid, x: int, n: nat, q: Quad)
    requires g.Valid() && q in YRun(g, x, n)
    ensures q.x == x && 0 <= q.y < n
  {
    YRunExact(g, x, n, q);
  }

  lemma XRunWhere(g: Grid, n: nat, q: Quad)
    requires g.Valid() && q in XRun(g, n)
    ensures 0 <= q.x < n
  {
    XRunExact(g, n, q);
  }

  /** `reset_mesh` emits a face exactly when its cell is solid and the cell
      across it is in the grid and empty. */
  lemma MeshQuadsExact(g: Grid, q: Quad)
    requires g.Valid()
    ensures q in MeshQuads(g) <==> Exposed(g, q)
  {
    XRunExact(g, g.dims.sx, q);
  }

  // No face is emitted twice: the emission order is strictly increasing.

  /** Lexicographic order on (x, y, z, face index). */
  predicate Before(p: Quad, q: Quad) {
    || p.x < q.x
    || (p.x == q.x && p.y < q.y)
    || (p.x == q.x && p.y == q.y && p.z < q.z)
    || (p.x == q.x && p.y == q.y && p.z == q.z && FaceIndex(p.face) < FaceIndex(q.face))
  }

  ghost predicate StrictlyOrdered(qs: seq<Quad>) {
    forall i, j :: 0 <= i < j < |qs| ==> Before(qs[i], qs[j])
  }

  lemma OrderedConcat(a: seq<Quad>, b: seq<Quad>)
    requires StrictlyOrdered(a) && StrictlyOrdered(b)
    requires forall p, q :: p in a && q in b ==> Before(p, q)
    ensures StrictlyOrdered(a + b)
  {
    var c := a + b;
    forall i, j | 0 <= i < j < |c| ensures Before(c[i], c[j]) {
      if j < |a| {
        assert c[i] == a[i] && c[j] == a[j];
      } else if i >= |a| {
        assert c[i] == b[i - |a|] && c[j] == b[j - |a|];
      } else {
        assert c[i] in a && c[j] in b;
      }
    }
  }

  /** Faces listed in increasing index are emitted in increasing order. */
  lemma {:induction false} FacesOfOrdered(g: Grid, x: int, y: int, z: int, fs: seq<Face>)
    requires g.Valid()
    requires forall i, j :: 0 <= i < j < |fs| ==> FaceIndex(fs[i]) < FaceIndex(fs[j])
    ensures StrictlyOrdered(FacesOf(g, x, y, z, fs))
  {
    if fs != [] {
      var init, last := fs[..|fs| - 1], fs[|fs| - 1];
      var a, b := FacesOf(g, x, y, z, init), FaceQuads(g, Quad(x, y, z, last));
      FacesOfOrdered(g, x, y, z, init);
      forall p, q | p in a && q in b ensures Before(p, q) {
        FacesOfExact(g, x, y, z, init, p);
        var i :| 0 <= i < |init| && init[i] == p.face;
        assert FaceIndex(fs[i]) < FaceIndex(fs[|fs| - 1]);
      }
      OrderedConcat(a, b);
    }
  }

  lemma CellQuadsOrdered(g: Grid, x: int, y: int, z: int)
    requires g.Valid()
    ensures StrictlyOrdered(CellQuads(g, x, y, z))
  {
    FacesOfOrdered(g, x, y, z, FaceOrder);
  }

  lemma {:induction false} ZRunOrdered(g: Grid, x: int, y: int, n: nat)
    requires g.Valid()
    ensures StrictlyOrdered(ZRun(g, x, y, n))
  {
    if n > 0 {
      var a, b := ZRun(g, x, y, n - 1), CellQuads(g, x, y, n - 1);
      ZRunOrdered(g, x, y, n - 1);
      CellQuadsOrdered(g, x, y, n - 1);
      forall p, q | p in a && q in b ensures Before(p, q) {
        ZRunWhere(g, x, y, n - 1, p);
        CellQuadsExact(g, x, y, n - 1, q);
      }
      OrderedConcat(a, b);
    }
  }

  lemma {:induction false} YRunOrdered(g: Grid, x: int, n: nat)
    requires g.Valid()
    ensures StrictlyOrdered(YRun(g, x, n))
  {
    if n > 0 {
      var a, b := YRun(g, x, n - 1), ZRun(g, x, n - 1, g.dims.sz);
      YRunOrdered(g, x, n - 1);
      ZRunOrdered(g, x, n - 1, g.dims.sz);
      forall p, q | p in a && q in b ensures Before(p, q) {
        YRunWhere(g, x, n - 1, p);
        ZRunWhere(g, x, n - 1, g.dims.sz, q);
      }
      OrderedConcat(a, b);
    }
  }

  lemma {:induction false} XRunOrdered(g: Grid, n: nat)
    requires g.Valid()
    ensures StrictlyOrdered(XRun(g, n))
  {
    if n > 0 {
      var a, b := XRun(g, n - 1), YRun(g, n - 1, g.dims.sy);
      XRunOrdered(g, n - 1);
      YRunOrdered(g, n - 1, g.dims.sy);
      forall p, q | p in a && q in b ensures Before(p, q) {
        XRunWhere(g, n - 1, p);
        YRunWhere(g, n - 1, g.dims.sy, q);
      }
      OrderedConcat(a, b);
    }
  }

  /** Faces come out in (x, y, z, face) order, so none is emitted twice. */
  lemma MeshQuadsDistinct(g: Grid)
    requires g.Valid()
    ensures StrictlyOrdered(MeshQuads(g))
    ensures forall i, j :: 0 <= i < j < |MeshQuads(g)| ==> MeshQuads(g)[i] != MeshQuads(g)[j]
  {
    XRunOrdered(g, g.dims.sx);
  }

  // Triangles and the vertex pool

  /** Two triangles per face: triangles 2i and 2i + 1 are those of face i. */
  lemma {:induction false} MeshTrianglesLayout(g: Grid, qs: seq<Quad>)
    ensures |MeshTriangles(g, qs)| == 2 * |qs|
    ensures forall i :: 0 <= i < |qs| ==>
              && MeshTriangles(g, qs)[2 * i] == QuadTriangles(g, qs[i])[0]
              && MeshTriangles(g, qs)[2 * i + 1] == QuadTriangles(g, qs[i])[1]
  {
    if qs != [] {
      var init := qs[..|qs| - 1];
      MeshTrianglesLayout(g, init);
      var t, t', last := MeshTriangles(g, qs), MeshTriangles(g, init), QuadTriangles(g, qs[|qs| - 1]);
      assert |last| == 2;
      assert t == t' + last;
      forall i | 0 <= i < |qs|
        ensures t[2 * i] == QuadTriangles(g, qs[i])[0] && t[2 * i + 1] == QuadTriangles(g, qs[i])[1]
      {
        if i < |init| {
          assert t[2 * i] == t'[2 * i] && t[2 * i + 1] == t'[2 * i + 1];
          assert init[i] == qs[i];
        } else {
          assert qs[i] == qs[|qs| - 1] && 2 * i == |t'|;
          assert t[2 * i] == last[0] && t[2 * i + 1] == last[1];
        }
      }
    }
  }

  function TriangleVertices(t: Triangle): set<Vertex> {
    {t.v0, t.v1, t.v2}
  }

  /** Both triangles of a face start at its first corner v1, together they
      use exactly the face's four corners, and they carry the default
      colour; with a positive block size the four corners are distinct
      points. */
  lemma QuadTrianglesShape(g: Grid, q: Quad)
    ensures var ts, cs := QuadTriangles(g, q), FaceCorners(q);
            && |ts| == 2
            && ts[0].v0 == CornerVertex(g, cs[0]) && ts[1].v0 == CornerVertex(g, cs[0])
            && TriangleVertices(ts[0]) + TriangleVertices(ts[1])
               == {CornerVertex(g, cs[0]), CornerVertex(g, cs[1]), CornerVertex(g, cs[2]), CornerVertex(g, cs[3])}
            && ts[0].color == DEFAULT_COLOR && ts[1].color == DEFAULT_COLOR
    ensures g.blockSize > 0 ==>
              forall i, j :: 0 <= i < j < 4 ==>
                CornerPosition(g, FaceCorners(q)[i]) != CornerPosition(g, FaceCorners(q)[j])
  {
    if g.blockSize > 0 {
      forall i, j | 0 <= i < j < 4
        ensures CornerPosition(g, FaceCorners(q)[i]) != CornerPosition(g, FaceCorners(q)[j])
      {
        CornerPositionInjective(g, FaceCorners(q)[i], FaceCorners(q)[j]);
      }
    }
  }

  lemma ScaledIntsInjective(a: int, b: int, s: real)
    requires s != 0.0 && a as real * s == b as real * s
    ensures a == b
  {
    assert (a - b) as real * s == 0.0;
  }

  /** With a nonzero block size, distinct corners lie at distinct positions,
      so keying the pool by lattice corner is keying it by position. */
  lemma CornerPositionInjective(g: Grid, c: Corner, c': Corner)
    requires g.blockSize != 0
    ensures CornerPosition(g, c) == CornerPosition(g, c') <==> c == c'
  {
    if CornerPosition(g, c) == CornerPosition(g, c') {
      var s := g.blockSize as real;
      ScaledIntsInjective(c.x, c'.x, s);
      ScaledIntsInjective(c.y, c'.y, s);
      ScaledIntsInjective(c.z, c'.z, s);
    }
  }

  /** The pool holds pairwise-distinct positions. */
  lemma {:induction false} InjectiveImageSize(g: Grid, cs: set<Corner>)
    requires g.blockSize != 0
    ensures |PoolKeys(g, cs)| == |cs|
    decreases |cs|
  {
    if cs != {} {
      var c :| c in cs;
      var rest := cs - {c};
      InjectiveImageSize(g, rest);
      assert PoolKeys(g, cs) == PoolKeys(g, rest) + {CornerPosition(g, c)};
      if CornerPosition(g, c) in PoolKeys(g, rest) {
        var c' :| c' in rest && CornerPosition(g, c') == CornerPosition(g, c);
        CornerPositionInjective(g, c, c');
      }
    }
  }

  /** With a nonzero block size the pool holds one vertex per distinct
      lattice corner the faces use: sharing is exactly by corner. */
  lemma PoolSize(g: Grid, qs: seq<Quad>)
    requires g.blockSize != 0
    ensures |MeshPool(g, qs)| == |CornerSet(qs)|
  {
    InjectiveImageSize(g, CornerSet(qs));
    var keys := PoolKeys(g, CornerSet(qs));
    assert MeshPool(g, qs).Keys == keys;
  }

  /** A lattice corner is in the set exactly when some face uses it. */
  lemma {:induction false} CornerSetMembers(qs: seq<Quad>, c: Corner)
    ensures c in CornerSet(qs) <==> exists q :: q in qs && c in QuadCornerSet(q)
  {
    if qs != [] {
      var init, last := qs[..|qs| - 1], qs[|qs| - 1];
      CornerSetMembers(init, c);
      assert qs == init + [last];
      if c in CornerSet(qs) && c !in QuadCornerSet(last) {
        var q :| q in init && c in QuadCornerSet(q);
        assert q in qs;
      }
      if exists q :: q in qs && c in QuadCornerSet(q) {
        var q :| q in qs && c in QuadCornerSet(q);
        if q != last {
          assert q in init;
        }
      }
    }
  }

  /** Every vertex of every emitted triangle is the pool's entry for its
      own position, so triangles sharing a corner share its vertex. */
  lemma {:induction false} MeshVerticesInPool(g: Grid, qs: seq<Quad>)
    ensures forall t, v :: t in MeshTriangles(g, qs) && v in TriangleVertices(t) ==>
              v.position in MeshPool(g, qs) && MeshPool(g, qs)[v.position] == v
  {
    if qs != [] {
      var init, last := qs[..|qs| - 1], qs[|qs| - 1];
      MeshVerticesInPool(g, init);
      assert CornerSet(init) <= CornerSet(qs);
      var cs := FaceCorners(last);
      assert forall i :: 0 <= i < 4 ==> CornerPosition(g, cs[i]) in PoolKeys(g, CornerSet(qs));
      QuadTrianglesShape(g, last);
      forall t, v | t in MeshTriangles(g, qs) && v in TriangleVertices(t)
        ensures v.position in MeshPool(g, qs) && MeshPool(g, qs)[v.position] == v
      {
        if t !in MeshTriangles(g, init) {
          assert t in QuadTriangles(g, last);
        } else {
          assert v.position in PoolKeys(g, CornerSet(init));
        }
      }
    }
  }

  /** An all-empty grid gives no faces. */
  lemma EmptyGridHasNoFaces(g: Grid)
    requires g.Valid() && AllEmpty(g)
    ensures MeshQuads(g) == [] && MeshTriangles(g, MeshQuads(g)) == []
  {
    if MeshQuads(g) != [] {
      MeshQuadsExact(g, MeshQuads(g)[0]);
    }
  }

  /** A grid with every cell solid gives no faces either: inner faces lie
      between two solid cells, and boundary faces are never emitted. This
      covers the flat single-layer terrain of size (4, 1, 4) with every
      column of height 1. */
  lemma SolidGridHasNoFaces(g: Grid)
    requires g.Valid() && AllSolid(g)
    ensures MeshQuads(g) == [] && MeshTriangles(g, MeshQuads(g)) == []
  {
    if MeshQuads(g) != [] {
      MeshQuadsExact(g, MeshQuads(g)[0]);
    }
  }

  // ---------------------------------------------------------------------
  // Collision

  /** The terrain's overall box `[position, position + size * block_size]`. */
  function Bounds(g: Grid): Box {
    var s := g.blockSize as real;
    Box(g.position.x, Along(g.position.x, s, g.dims.sx),
        g.position.y, Along(g.position.y, s, g.dims.sy),
        g.position.z, Along(g.position.z, s, g.dims.sz))
  }

  /** The coordinate i block lengths s past o. */
  function Along(o: real, s: real, i: int): real {
    o + i as real * s
  }

  /** The block-sized box of cell (x, y, z). */
  function CellBox(g: Grid, x: int, y: int, z: int): Box {
    var s := g.blockSize as real;
    MakeBox(Vector3(s, s, s), Add(Add(g.position, Scale(OfInts(x, y, z), s)), Div(Vector3(s, s, s), 2.0)))
  }

  /** Python's `int()` on a float: truncation toward zero. */
  function Trunc(r: real): (t: int)
    ensures 0.0 <= r ==> t as real <= r < t as real + 1.0
    ensures r < 0.0 ==> t as real - 1.0 < r <= t as real
  {
    if r >= 0.0 then r.Floor else -((-r).Floor)
  }

  /** Half-open index range [lo, hi). */
  datatype Span = Span(lo: int, hi: int)

  /** `range(max(st - 1, 0), min(n, st + 3))`. */
  function Window(st: int, n: nat): (w: Span)
    ensures 0 <= w.lo && st - 1 <= w.lo && (w.lo == 0 || w.lo == st - 1)
    ensures w.hi <= n && w.hi <= st + 3 && (w.hi == n || w.hi == st + 3)
  {
    Span(if st - 1 > 0 then st - 1 else 0, if n < st + 3 then n else st + 3)
  }

  /** The start index on one axis: the truncated cell offset of the box's upper bound. */
  function WindowStart(upper: real, origin: real, blockSize: int): int
    requires blockSize != 0
  {
    Trunc((upper - origin) / blockSize as real)
  }

  /** Some solid cell with indices in the three spans has a box colliding with `box`. */
  ghost predicate HitIn(g: Grid, box: Box, wx: Span, wy: Span, wz: Span)
    requires g.Valid()
  {
    exists x, y, z ::
      && wx.lo <= x < wx.hi && wy.lo <= y < wy.hi && wz.lo <= z < wz.hi
      && Solid(g, x, y, z) && Collides(CellBox(g, x, y, z), box)
  }

  /** `Terrain.collides_box(box)`: false when the box misses the terrain's
      bounds; otherwise whether a solid cell of the local search window
      collides with it. */
  ghost predicate CollidesTerrain(g: Grid, box: Box)
    requires g.Valid() && g.blockSize > 0
  {
    && Collides(Bounds(g), box)
    && HitIn(g, box,
             Window(WindowStart(box.ux, g.position.x, g.blockSize), g.dims.sx),
             Window(WindowStart(box.uy, g.position.y, g.blockSize), g.dims.sy),
             Window(WindowStart(box.uz, g.position.z, g.blockSize), g.dims.sz))
  }

  /** After the early-outs the numerator is non-negative, so truncation is the floor. */
  lemma WindowStartIsFloor(g: Grid, box: Box)
    requires g.blockSize > 0 && Collides(Bounds(g), box)
    ensures WindowStart(box.ux, g.position.x, g.blockSize) == ((box.ux - g.position.x) / g.blockSize as real).Floor
    ensures WindowStart(box.uy, g.position.y, g.blockSize) == ((box.uy - g.position.y) / g.blockSize as real).Floor
    ensures WindowStart(box.uz, g.position.z, g.blockSize) == ((box.uz - g.position.z) / g.blockSize as real).Floor
  {
  }

  /** A reported collision is a real one: some solid cell's box overlaps the query. */
  lemma CollisionIsSound(g: Grid, box: Box)
    requires g.Valid() && g.blockSize > 0 && CollidesTerrain(g, box)
    ensures exists x, y, z :: Solid(g, x, y, z) && Collides(CellBox(g, x, y, z), box)
  {
  }

  lemma EmptyTerrainNeverCollides(g: Grid, box: Box)
    requires g.Valid() && g.blockSize > 0 && AllEmpty(g)
    ensures !CollidesTerrain(g, box)
  {
  }

  lemma OutsideBoundsNeverCollides(g: Grid, box: Box)
    requires g.Valid() && g.blockSize > 0 && !Collides(Bounds(g), box)
    ensures !CollidesTerrain(g, box)
  {
  }

  /** a / s against an integer bound, for positive s. */
  lemma QuotientBounds(a: real, s: real, k: real)
    requires s > 0.0
    ensures a < k * s ==> a / s < k
    ensures k * s <= a ==> k <= a / s
  {
    assert (a / s) * s == a;
    if a / s >= k {
      assert (a / s - k) * s >= 0.0;
    }
    if k > a / s {
      assert (k - a / s) * s > 0.0;
    }
  }

  /** The box of cell (x, y, z) in closed form. */
  function CellSpan(g: Grid, x: int, y: int, z: int): Box {
    var s, p := g.blockSize as real, g.position;
    Box(Along(p.x, s, x), Along(p.x, s, x) + s,
        Along(p.y, s, y), Along(p.y, s, y) + s,
        Along(p.z, s, z), Along(p.z, s, z) + s)
  }

  /** Cell (x, y, z) spans [position + i*s, position + i*s + s] on each axis. */
  lemma CellBoxBounds(g: Grid, x: int, y: int, z: int)
    ensures CellBox(g, x, y, z) == CellSpan(g, x, y, z)
  {
  }

  /** On one axis: the interval [o + i*s, o + i*s + s] of cell i of a grid
      of n cells lies inside the terrain's extent [o, o + n*s]. */
  lemma AxisInExtent(o: real, s: real, i: int, n: nat)
    requires s > 0.0 && 0 <= i < n
    ensures o <= Along(o, s, i) && Along(o, s, i) + s <= Along(o, s, n)
  {
    assert i as real * s >= 0.0;
    assert (n - i - 1) as real * s >= 0.0;
    assert n as real * s == i as real * s + s + (n - i - 1) as real * s;
  }

  /** Every cell's span lies inside the terrain's bounds. */
  lemma CellSpanInBounds(g: Grid, x: int, y: int, z: int)
    requires g.blockSize > 0 && InGrid(g.dims, x, y, z)
    ensures var c, b := CellSpan(g, x, y, z), Bounds(g);
            && b.lx <= c.lx && c.ux <= b.ux && b.ly <= c.ly && c.uy <= b.uy && b.lz <= c.lz && c.uz <= b.uz
  {
    var s, p := g.blockSize as real, g.position;
    AxisInExtent(p.x, s, x, g.dims.sx);
    AxisInExtent(p.y, s, y, g.dims.sy);
    AxisInExtent(p.z, s, z, g.dims.sz);
  }

  /** On one axis: a cell index whose interval touches a query interval of
      length below the block size lies in the search window. */
  lemma AxisInWindow(o: real, bs: int, i: int, n: nat, l: real, u: real)
    requires bs > 0 && 0 <= i < n
    requires l <= u < l + bs as real
    requires o + i as real * bs as real <= u && l <= o + i as real * bs as real + bs as real
    ensures var w := Window(WindowStart(u, o, bs), n); w.lo <= i < w.hi
  {
    var s := bs as real;
    QuotientBounds(u - o, s, i as real);
    assert u - o < (i + 2) as real * s;
    QuotientBounds(u - o, s, (i + 2) as real);
  }

  /** For a query no longer than a block on every axis, the local window
      search finds every solid cell that collides with it. */
  lemma WindowCompleteForSmallBoxes(g: Grid, box: Box)
    requires g.Valid() && g.blockSize > 0 && WellFormed(box)
    requires box.ux - box.lx < g.blockSize as real
    requires box.uy - box.ly < g.blockSize as real
    requires box.uz - box.lz < g.blockSize as real
    ensures CollidesTerrain(g, box) <==>
            exists x, y, z :: Solid(g, x, y, z) && Collides(CellBox(g, x, y, z), box)
  {
    if exists x, y, z :: Solid(g, x, y, z) && Collides(CellBox(g, x, y, z), box) {
      var x, y, z :| Solid(g, x, y, z) && Collides(CellBox(g, x, y, z), box);
      CellBoxBounds(g, x, y, z);
      CellWithinBounds(g, box, x, y, z);
      CellInWindowX(g, box, x, y, z);
      CellInWindowY(g, box, x, y, z);
      CellInWindowZ(g, box, x, y, z);
      var p := g.position;
      assert HitIn(g, box,
                   Window(WindowStart(box.ux, p.x, g.blockSize), g.dims.sx),
                   Window(WindowStart(box.uy, p.y, g.blockSize), g.dims.sy),
                   Window(WindowStart(box.uz, p.z, g.blockSize), g.dims.sz));
    }
  }

  /** A cell colliding with a query lies inside the terrain's bounds. */
  lemma CellWithinBounds(g: Grid, box: Box, x: int, y: int, z: int)
    requires g.blockSize > 0 && InGrid(g.dims, x, y, z)
    requires Collides(CellSpan(g, x, y, z), box)
    ensures Collides(Bounds(g), box)
  {
    CellSpanInBounds(g, x, y, z);
  }

  /** A cell colliding with a query shorter than a block along x is in the
      search window along x; likewise for y and z below. */
  lemma CellInWindowX(g: Grid, box: Box, x: int, y: int, z: int)
    requires g.blockSize > 0 && WellFormed(box) && InGrid(g.dims, x, y, z)
    requires box.ux - box.lx < g.blockSize as real
    requires Collides(CellSpan(g, x, y, z), box)
    ensures var w := Window(WindowStart(box.ux, g.position.x, g.blockSize), g.dims.sx); w.lo <= x < w.hi
  {
    AxisInWindow(g.position.x, g.blockSize, x, g.dims.sx, box.lx, box.ux);
  }

  lemma CellInWindowY(g: Grid, box: Box, x: int, y: int, z: int)
    requires g.blockSize > 0 && WellFormed(box) && InGrid(g.dims, x, y, z)
    requires box.uy - box.ly < g.blockSize as real
    requires Collides(CellSpan(g, x, y, z), box)
    ensures var w := Window(WindowStart(box.uy, g.position.y, g.blockSize), g.dims.sy); w.lo <= y < w.hi
  {
    AxisInWindow(g.position.y, g.blockSize, y, g.dims.sy, box.ly, box.uy);
  }

  lemma CellInWindowZ(g: Grid, box: Box, x: int, y: int, z: int)
    requires g.blockSize > 0 && WellFormed(box) && InGrid(g.dims, x, y, z)
    requires box.uz - box.lz < g.blockSize as real
    requires Collides(CellSpan(g, x, y, z), box)
    ensures var w := Window(WindowStart(box.uz, g.position.z, g.blockSize), g.dims.sz); w.lo <= z < w.hi
  {
    AxisInWindow(g.position.z, g.blockSize, z, g.dims.sz, box.lz, box.uz);
  }

  // ---------------------------------------------------------------------
  // Physics

  /** The player's box: (s/2, 2s, s/2), centred 1.5 blocks below the camera. */
  function PlayerBox(s: real, offset: Vector3): (b: Box)
    ensures b.ux - b.lx == s / 2.0 && b.uy - b.ly == 2.0 * s && b.uz - b.lz == s / 2.0
    ensures b.lx + b.ux == -2.0 * offset.x
    ensures b.ly + b.uy == -2.0 * offset.y - 3.0 * s
    ensures b.lz + b.uz == -2.0 * offset.z
  {
    MakeBox(Vector3(s / 2.0, s * 2.0, s / 2.0), Sub(Neg(offset), Vector3(0.0, s * 3.0 / 2.0, 0.0)))
  }

  /** The window search misses solid cells under a box taller than about a
      block, such as the player's own (two blocks tall): here the player's
      box overlaps the only solid cell, (0, 0, 0), and is not reported. */
  lemma TallBoxMissesCell()
    ensures var g := Grid([[[1], [0], [0]]], Dims(1, 3, 1), Zero, 1);
            var box := PlayerBox(1.0, Vector3(-0.5, -3.0, -0.5));
            && g.Valid() && Solid(g, 0, 0, 0) && Collides(CellBox(g, 0, 0, 0), box)
            && !CollidesTerrain(g, box)
  {
    var g := Grid([[[1], [0], [0]]], Dims(1, 3, 1), Zero, 1);
    var box := Box(0.25, 0.75, 0.5, 2.5, 0.25, 0.75);
    TallBoxShapes(g);
    TallBoxWindowStarts();
    var wx, wy, wz := Span(0, 1), Span(1, 3), Span(0, 1);
    TallGridUpperCellsEmpty(g);
    NoSolidNoHit(g, box, wx, wy, wz);
  }

  lemma TallBoxShapes(g: Grid)
    requires g == Grid([[[1], [0], [0]]], Dims(1, 3, 1), Zero, 1)
    ensures PlayerBox(1.0, Vector3(-0.5, -3.0, -0.5)) == Box(0.25, 0.75, 0.5, 2.5, 0.25, 0.75)
    ensures CellBox(g, 0, 0, 0) == Box(0.0, 1.0, 0.0, 1.0, 0.0, 1.0)
    ensures Bounds(g) == Box(0.0, 1.0, 0.0, 3.0, 0.0, 1.0)
  {
  }

  lemma TallGridUpperCellsEmpty(g: Grid)
    requires g == Grid([[[1], [0], [0]]], Dims(1, 3, 1), Zero, 1)
    ensures g.Valid()
    ensures forall x, y, z :: 0 <= x < 1 && 1 <= y < 3 && 0 <= z < 1 ==> !Solid(g, x, y, z)
  {
    forall x, y, z | 0 <= x < 1 && 1 <= y < 3 && 0 <= z < 1 ensures !Solid(g, x, y, z) {
      assert x == 0 && z == 0 && (y == 1 || y == 2);
    }
  }

  /** No hit is reported from spans that hold no solid cell. */
  lemma NoSolidNoHit(g: Grid, box: Box, wx: Span, wy: Span, wz: Span)
    requires g.Valid()
    requires forall x, y, z :: wx.lo <= x < wx.hi && wy.lo <= y < wy.hi && wz.lo <= z < wz.hi ==> !Solid(g, x, y, z)
    ensures !HitIn(g, box, wx, wy, wz)
  {
  }

  lemma TallBoxWindowStarts()
    ensures WindowStart(2.5, 0.0, 1) == 2 && WindowStart(0.75, 0.0, 1) == 0
  {
    assert (2.5 - 0.0) / 1 as real == 2.5;
    assert (0.75 - 0.0) / 1 as real == 0.75;
  }

  /** Camera offset, velocity and the on-floor flag: what a tick changes. */
  datatype Body = Body(offset: Vector3, velocity: Vector3, onFloor: bool)

  /** The terrain's collision test as a total predicate on boxes. */
  ghost predicate Blocked(g: Grid, box: Box) {
    g.Valid() && g.blockSize > 0 && CollidesTerrain(g, box)
  }

  /** One axis of a tick: the offset and velocity after it, and whether
      the move along it was undone. */
  datatype Move = Move(offset: Vector3, velocity: Vector3, blocked: bool)

  /** Move the camera against the x velocity; when the player's box then
      collides, move it back and zero that component. */
  function MoveX(hit: Box -> bool, s: real, o: Vector3, v: Vector3): Move {
    var moved := o.(x := o.x - v.x);
    if hit(PlayerBox(s, moved)) then Move(moved.(x := moved.x + v.x), v.(x := 0.0), true)
    else Move(moved, v, false)
  }

  function MoveY(hit: Box -> bool, s: real, o: Vector3, v: Vector3): Move {
    var moved := o.(y := o.y - v.y);
    if hit(PlayerBox(s, moved)) then Move(moved.(y := moved.y + v.y), v.(y := 0.0), true)
    else Move(moved, v, false)
  }

  function MoveZ(hit: Box -> bool, s: real, o: Vector3, v: Vector3): Move {
    var moved := o.(z := o.z - v.z);
    if hit(PlayerBox(s, moved)) then Move(moved.(z := moved.z + v.z), v.(z := 0.0), true)
    else Move(moved, v, false)
  }

  /** `Terrain.tick` with the player simulation on, for a collision test
      `hit` and block size s: damp the velocity, then move along x, y and z
      in turn; the body is on the floor when the vertical move was undone. */
  function TickStep(hit: Box -> bool, s: real, gravity: Vector3, friction: real, b: Body): Body {
    var v := Scale(Add(b.velocity, gravity), friction);
    var mx := MoveX(hit, s, b.offset, v);
    var my := MoveY(hit, s, mx.offset, mx.velocity);
    var mz := MoveZ(hit, s, my.offset, my.velocity);
    Body(mz.offset, mz.velocity, my.blocked)
  }

  /** Each axis either moves by the damped velocity or is left where it was
      with that velocity component zeroed; the body is on the floor exactly
      when its vertical move was undone, whatever the collision test. */
  lemma TickResolvesEachAxis(hit: Box -> bool, s: real, gravity: Vector3, friction: real, b: Body)
    ensures var r, v := TickStep(hit, s, gravity, friction, b), Scale(Add(b.velocity, gravity), friction);
            && ((r.offset.x == b.offset.x - v.x && r.velocity.x == v.x) || (r.offset.x == b.offset.x && r.velocity.x == 0.0))
            && ((r.offset.z == b.offset.z - v.z && r.velocity.z == v.z) || (r.offset.z == b.offset.z && r.velocity.z == 0.0))
            && (r.onFloor ==> r.offset.y == b.offset.y && r.velocity.y == 0.0)
            && (!r.onFloor ==> r.offset.y == b.offset.y - v.y && r.velocity.y == v.y)
  {
  }

  /** The axes are resolved in the order x, y, z against the collision
      test: each move is undone, with its velocity component zeroed,
      exactly when the player's box at the moved position collides, and
      the body is on the floor exactly when the y move collided. */
  lemma TickFollowsCollisions(hit: Box -> bool, s: real, gravity: Vector3, friction: real, b: Body)
    ensures var r, v := TickStep(hit, s, gravity, friction, b), Scale(Add(b.velocity, gravity), friction);
            var hx := hit(PlayerBox(s, b.offset.(x := b.offset.x - v.x)));
            var o1 := if hx then b.offset else b.offset.(x := b.offset.x - v.x);
            var hy := hit(PlayerBox(s, o1.(y := o1.y - v.y)));
            var o2 := if hy then o1 else o1.(y := o1.y - v.y);
            var hz := hit(PlayerBox(s, o2.(z := o2.z - v.z)));
            && r.onFloor == hy
            && r.velocity.x == (if hx then 0.0 else v.x)
            && r.velocity.y == (if hy then 0.0 else v.y)
            && r.velocity.z == (if hz then 0.0 else v.z)
            && r.offset == (if hz then o2 else o2.(z := o2.z - v.z))
  {
  }

  /** When nothing collides, the body moves by its damped velocity and is not on the floor. */
  lemma TickWithoutObstacles(hit: Box -> bool, s: real, gravity: Vector3, friction: real, b: Body)
    requires forall box :: !hit(box)
    ensures var v := Scale(Add(b.velocity, gravity), friction);
            TickStep(hit, s, gravity, friction, b) == Body(Sub(b.offset, v), v, false)
  {
  }

  /** Over an all-empty grid nothing collides, so the body falls freely. */
  lemma TickOverEmptyGrid(g: Grid, gravity: Vector3, friction: real, b: Body)
    requires g.Valid() && g.blockSize > 0 && AllEmpty(g)
    ensures var v := Scale(Add(b.velocity, gravity), friction);
            TickStep(box => Blocked(g, box), g.blockSize as real, gravity, friction, b)
            == Body(Sub(b.offset, v), v, false)
  {
    forall box ensures !Blocked(g, box) {
      EmptyTerrainNeverCollides(g, box);
    }
    TickWithoutObstacles(box => Blocked(g, box), g.blockSize as real, gravity, friction, b);
  }

  /** A body without horizontal velocity, under vertical gravity, whose
      downward move would collide, stays where it is, comes to rest and is
      on the floor. */
  lemma TickAtRestOnFloor(hit: Box -> bool, s: real, gravity: Vector3, friction: real, b: Body)
    requires b.velocity.x == 0.0 && b.velocity.z == 0.0 && gravity.x == 0.0 && gravity.z == 0.0
    requires hit(PlayerBox(s, b.offset.(y := b.offset.y - (b.velocity.y + gravity.y) * friction)))
    ensures TickStep(hit, s, gravity, friction, b) == Body(b.offset, Zero, true)
  {
    var v := Scale(Add(b.velocity, gravity), friction);
    assert v.x == 0.0 && v.z == 0.0;
    var mx := MoveX(hit, s, b.offset, v);
    assert mx.offset == b.offset && mx.velocity == v;
    var my := MoveY(hit, s, mx.offset, mx.velocity);
    assert mx.offset.(y := mx.offset.y - mx.velocity.y) == b.offset.(y := b.offset.y - (b.velocity.y + gravity.y) * friction);
    assert my.offset == b.offset && my.velocity == Zero && my.blocked;
    var mz := MoveZ(hit, s, my.offset, my.velocity);
    assert mz.offset == b.offset && mz.velocity == Zero;
  }

  // ---------------------------------------------------------------------
  // Input

  /** The keys `handle_input` reads from the keyboard state. */
  datatype Keys = Keys(w: bool, s: bool, d: bool, a: bool, space: bool,
                       left: bool, right: bool, up: bool, down: bool)

  /** One walking key: when held, the step turned toward the camera's yaw is
      added to the velocity. */
  function Impulse(v: Vector3, held: bool, step: Vector3, turn: Vector3,
                   rotate: (Vector3, Vector3) -> Vector3): Vector3 {
    if held then Add(v, rotate(step, turn)) else v
  }

  /** The walking impulses of W, S, D and A, in that order, each a
      horizontal step of length `speed` turned by the camera's yaw through
      `rotate`. */
  function WalkVelocity(v: Vector3, keys: Keys, yaw: real, speed: real,
                        rotate: (Vector3, Vector3) -> Vector3): Vector3 {
    var turn := Vector3(0.0, -yaw, 0.0);
    var v1 := Impulse(v, keys.w, Vector3(0.0, 0.0, speed), turn, rotate);
    var v2 := Impulse(v1, keys.s, Vector3(0.0, 0.0, -speed), turn, rotate);
    var v3 := Impulse(v2, keys.d, Vector3(speed, 0.0, 0.0), turn, rotate);
    Impulse(v3, keys.a, Vector3(-speed, 0.0, 0.0), turn, rotate)
  }

  /** A single walking key adds exactly its own step, turned by the
      negated yaw: W forwards along z, D sideways along x. */
  lemma SingleKeyImpulse(v: Vector3, yaw: real, speed: real, rotate: (Vector3, Vector3) -> Vector3)
    ensures WalkVelocity(v, Keys(true, false, false, false, false, false, false, false, false), yaw, speed, rotate)
            == Add(v, rotate(Vector3(0.0, 0.0, speed), Vector3(0.0, -yaw, 0.0)))
    ensures WalkVelocity(v, Keys(false, false, true, false, false, false, false, false, false), yaw, speed, rotate)
            == Add(v, rotate(Vector3(speed, 0.0, 0.0), Vector3(0.0, -yaw, 0.0)))
  {
  }

  /** The velocity after `handle_input`: walking impulses, then the jump. */
  function InputVelocity(v: Vector3, keys: Keys, yaw: real, speed: real, jump: real, onFloor: bool,
                         rotate: (Vector3, Vector3) -> Vector3): Vector3 {
    var w := WalkVelocity(v, keys, yaw, speed, rotate);
    if keys.space && onFloor then w.(y := jump) else w
  }

  /** A jump sets the vertical velocity to the jump power, and only happens
      from the floor: in the air, or without space, the vertical velocity is
      whatever walking left it. Walking never depends on the floor. */
  lemma JumpOnlyFromFloor(v: Vector3, keys: Keys, yaw: real, speed: real, jump: real, onFloor: bool,
                          rotate: (Vector3, Vector3) -> Vector3)
    ensures var r, w := InputVelocity(v, keys, yaw, speed, jump, onFloor, rotate),
                        WalkVelocity(v, keys, yaw, speed, rotate);
            && r.x == w.x && r.z == w.z
            && (keys.space && onFloor ==> r.y == jump)
            && (!(keys.space && onFloor) ==> r == w)
  {
  }

  /** With no key held the velocity is unchanged. */
  lemma NoKeysNoImpulse(v: Vector3, yaw: real, speed: real, jump: real, onFloor: bool,
                        rotate: (Vector3, Vector3) -> Vector3)
    ensures InputVelocity(v, Keys(false, false, false, false, false, false, false, false, false),
                          yaw, speed, jump, onFloor, rotate) == v
  {
  }

  /** The camera rotation after the arrow keys: left/right turn the yaw by
      +/- speed, up/down the pitch by -/+ speed; no wrapping to [0, 360). */
  function InputRotation(r: Vector3, keys: Keys, speed: real): Vector3 {
    var r1 := if keys.left then r.(y := r.y + speed) else r;
    var r2 := if keys.right then r1.(y := r1.y - speed) else r1;
    var r3 := if keys.up then r2.(x := r2.x - speed) else r2;
    if keys.down then r3.(x := r3.x + speed) else r3
  }

  /** Opposite arrow keys cancel, and roll is never touched. */
  lemma OppositeArrowsCancel(r: Vector3, keys: Keys, speed: real)
    ensures InputRotation(r, keys, speed).z == r.z
    ensures keys.left == keys.right && keys.up == keys.down ==> InputRotation(r, keys, speed) == r
    ensures keys.left && !keys.right && !keys.up && !keys.down ==>
              InputRotation(r, keys, speed) == r.(y := r.y + speed)
  {
  }

  // ---------------------------------------------------------------------
  // Placement

  /** `center - size * block_size / 2`: the grid's lowest corner. */
  function GridOrigin(d: Dims, blockSize: int, center: Vector3): Vector3 {
    Sub(center, Div(Scale(OfInts(d.sx, d.sy, d.sz), blockSize as real), 2.0))
  }

  /** The generated terrain is centred on `center`: its bounds run
      size * block_size / 2 either side of it on every axis. */
  lemma GridCentred(blocks: Blocks, d: Dims, blockSize: int, center: Vector3)
    ensures var b := Bounds(Grid(blocks, d, GridOrigin(d, blockSize, center), blockSize));
            && b.lx + b.ux == 2.0 * center.x
            && b.ly + b.uy == 2.0 * center.y
            && b.lz + b.uz == 2.0 * center.z
            && b.ux - b.lx == d.sx as real * blockSize as real
            && b.uy - b.ly == d.sy as real * blockSize as real
            && b.uz - b.lz == d.sz as real * blockSize as real
  {
  }
}
