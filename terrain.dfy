/** The Terrain class of terrain.py: a voxel grid generated from a random
    height field, meshed into triangles that share vertices through a pool,
    queried for box collisions, and driving the player's camera through a
    physics tick and keyboard input. Every method is proved to compute the
    specification functions of module VoxelGrid. */
module VoxelTerrain {
  import opened Vectors
  import opened Boxes
  import opened Geometry
  import opened Scene
  import opened VoxelGrid

  /** Colour every terrain triangle gets once the mesh is built. */
  const GRASS := Color(90, 200, 50)

  /** The triangles with their colour replaced, in order. */
  function Recolored(ts: seq<Triangle>, c: Color): (r: seq<Triangle>)
    ensures |r| == |ts|
    ensures forall i :: 0 <= i < |ts| ==> r[i] == ts[i].(color := c)
  {
    if ts == [] then [] else Recolored(ts[..|ts| - 1], c) + [ts[|ts| - 1].(color := c)]
  }

  /** The recolouring loop of `reset_mesh`. */
  method Recolor(ts: seq<Triangle>, c: Color) returns (r: seq<Triangle>)
    ensures r == Recolored(ts, c)
  {
    r := ts;
    for i := 0 to |ts|
      invariant |r| == |ts|
      invariant forall j :: 0 <= j < i ==> r[j] == ts[j].(color := c)
      invariant forall j :: i <= j < |ts| ==> r[j] == ts[j]
    {
      r := r[i := r[i].(color := c)];
    }
  }

  /** Whether a scene child belongs to the previous mesh: a vertex whose
      position is pooled, or one of the previous triangles. */
  predicate OldMeshPart(d: Drawable, pool: map<Vector3, Vertex>, tris: seq<Triangle>) {
    match d
    case VertexChild(v) => v.position in pool
    case TriangleChild(t) => t in tris
    case Inert(_) => false
  }

  /** Testing a vertex child against a triangle list compares a vertex
      with triangles, which fails; the filter is only defined when every
      vertex child not in the pool meets an empty triangle list. */
  ghost predicate NoForeignVertices(cs: seq<Drawable>, pool: map<Vector3, Vertex>, tris: seq<Triangle>) {
    forall d :: d in cs && d.VertexChild? && d.vertex.position !in pool ==> tris == []
  }

  /** The children that are not part of the previous mesh, in order. */
  function WithoutMesh(cs: seq<Drawable>, pool: map<Vector3, Vertex>, tris: seq<Triangle>): (r: seq<Drawable>)
    ensures forall d :: multiset(r)[d] == if OldMeshPart(d, pool, tris) then 0 else multiset(cs)[d]
    ensures forall d :: d in r <==> d in cs && !OldMeshPart(d, pool, tris)
  {
    if cs == [] then []
    else
      var init, last := cs[..|cs| - 1], cs[|cs| - 1];
      assert cs == init + [last];
      WithoutMesh(init, pool, tris) + (if OldMeshPart(last, pool, tris) then [] else [last])
  }

  /** Children made only of mesh parts are all dropped by the filter, so a
      second `reset_mesh` removes every triangle the first one added. */
  lemma {:induction false} WithoutMeshDropsParts(cs: seq<Drawable>, extra: seq<Drawable>,
                                                 pool: map<Vector3, Vertex>, tris: seq<Triangle>)
    requires forall i :: 0 <= i < |extra| ==> OldMeshPart(extra[i], pool, tris)
    ensures WithoutMesh(cs + extra, pool, tris) == WithoutMesh(cs, pool, tris)
  {
    if extra == [] {
      assert cs + extra == cs;
    } else {
      var init := extra[..|extra| - 1];
      assert (cs + extra)[..|cs + extra| - 1] == cs + init;
      WithoutMeshDropsParts(cs, init, pool, tris);
    }
  }

  /** The filter keeps the order of the children: filtering a
      concatenation concatenates the filtered halves. */
  lemma {:induction false} WithoutMeshAppend(a: seq<Drawable>, b: seq<Drawable>,
                                             pool: map<Vector3, Vertex>, tris: seq<Triangle>)
    ensures WithoutMesh(a + b, pool, tris) == WithoutMesh(a, pool, tris) + WithoutMesh(b, pool, tris)
  {
    if b == [] {
      assert a + b == a;
    } else {
      var init, last := b[..|b| - 1], b[|b| - 1];
      assert (a + b)[..|a + b| - 1] == a + init;
      assert (a + b)[|a + b| - 1] == last;
      WithoutMeshAppend(a, init, pool, tris);
      var keep := if OldMeshPart(last, pool, tris) then [] else [last];
      AppendAssoc(WithoutMesh(a, pool, tris), WithoutMesh(init, pool, tris), keep);
    }
  }

  /** A single child is kept exactly when it is not part of the old mesh. */
  lemma WithoutMeshSingle(d: Drawable, pool: map<Vector3, Vertex>, tris: seq<Triangle>)
    ensures WithoutMesh([d], pool, tris) == if OldMeshPart(d, pool, tris) then [] else [d]
  {
    assert [d][..0] == [];
  }

  lemma ResetDoesNotAccumulate(cs: seq<Drawable>, pool: map<Vector3, Vertex>, tris: seq<Triangle>)
    ensures WithoutMesh(cs + AsChildren(tris), pool, tris) == WithoutMesh(cs, pool, tris)
  {
    WithoutMeshDropsParts(cs, AsChildren(tris), pool, tris);
  }

  function AsChildren(ts: seq<Triangle>): seq<Drawable> {
    seq(|ts|, i requires 0 <= i < |ts| => TriangleChild(ts[i]))
  }

  /** `blocks[x][y][z] = v` on a value. */
  function Set3(b: Blocks, d: Dims, x: int, y: int, z: int, v: int): (r: Blocks)
    requires Shaped(b, d) && InGrid(d, x, y, z)
    ensures Shaped(r, d)
    ensures forall x', y', z' :: InGrid(d, x', y', z') ==>
              r[x'][y'][z'] == if x' == x && y' == y && z' == z then v else b[x'][y'][z']
  {
    b[x := b[x][y := b[x][y][z := v]]]
  }

  /** The smoothing loop of `generate`: each height is the floor of the mean
      of the in-bounds 3x3 neighbourhood of random heights in [0, top]. */
  method SmoothHeights(r: seq<seq<int>>, sx: nat, sz: nat, top: int) returns (h: seq<seq<int>>)
    requires HeightsWithin(r, sx, sz, top)
    ensures HeightsWithin(h, sx, sz, top)
    ensures forall x, z :: 0 <= x < sx && 0 <= z < sz ==> h[x][z] == SmoothedHeight(r, sx, sz, x, z)
  {
    h := seq(sx, _ => seq(sz, _ => 0));
    for x := 0 to sx
      invariant HeightsShaped(h, sx, sz)
      invariant forall x', z' :: 0 <= x' < x && 0 <= z' < sz ==> h[x'][z'] == SmoothedHeight(r, sx, sz, x', z')
    {
      for z := 0 to sz
        invariant HeightsShaped(h, sx, sz)
        invariant forall x', z' :: 0 <= x' < x && 0 <= z' < sz ==> h[x'][z'] == SmoothedHeight(r, sx, sz, x', z')
        invariant forall z' :: 0 <= z' < z ==> h[x][z'] == SmoothedHeight(r, sx, sz, x, z')
      {
        var mean := NeighbourMean(r, sx, sz, x, z);
        h := h[x := h[x][z := mean]];
      }
    }
    forall x, z | 0 <= x < sx && 0 <= z < sz ensures 0 <= h[x][z] <= top {
      SmoothedHeightBounds(r, sx, sz, top, x, z);
    }
  }

  /** The loops over dx and dz of `generate` for one cell: the in-bounds
      neighbours are summed and counted, and the sum floor-divided by the
      count. */
  method NeighbourMean(r: seq<seq<int>>, sx: nat, sz: nat, x: int, z: int) returns (mean: int)
    requires HeightsShaped(r, sx, sz) && InColumns(sx, sz, x, z)
    ensures mean == SmoothedHeight(r, sx, sz, x, z)
  {
    var total, count := 0, 0;
    for dx := -1 to 2
      invariant total == WindowSum(r, sx, sz, x, z, dx)
      invariant count == WindowCount(sx, sz, x, z, dx)
    {
      for dz := -1 to 2
        invariant total == WindowSum(r, sx, sz, x, z, dx) + RowSum(r, sx, sz, x, z, dx, dz)
        invariant count == WindowCount(sx, sz, x, z, dx) + RowCount(sx, sz, x, z, dx, dz)
      {
        var nx, nz := x + dx, z + dz;
        if 0 <= nx < sx && 0 <= nz < sz {
          total := total + r[nx][nz];
          count := count + 1;
        }
      }
    }
    WindowCountBounds(sx, sz, x, z, 2);
    mean := total / count;
  }

  /** The filling loop of `generate`: every column of an all-empty grid is
      made solid from the floor up to its height. */
  method FillHeights(b0: Blocks, d: Dims, h: seq<seq<int>>) returns (b: Blocks)
    requires Shaped(b0, d) && HeightsWithin(h, d.sx, d.sz, d.sy)
    requires forall x, y, z :: InGrid(d, x, y, z) ==> b0[x][y][z] == 0
    ensures Shaped(b, d) && IsHeightField(b, d, h)
  {
    b := b0;
    for x := 0 to d.sx
      invariant Shaped(b, d)
      invariant forall x', y', z' :: InGrid(d, x', y', z') ==>
                  b[x'][y'][z'] == if x' < x && y' < h[x'][z'] then 1 else 0
    {
      for z := 0 to d.sz
        invariant Shaped(b, d)
        invariant forall x', y', z' :: InGrid(d, x', y', z') ==>
                    b[x'][y'][z'] == if (x' < x || (x' == x && z' < z)) && y' < h[x'][z'] then 1 else 0
      {
        for y := 0 to h[x][z]
          invariant Shaped(b, d)
          invariant forall x', y', z' :: InGrid(d, x', y', z') ==>
                      b[x'][y'][z'] == if ((x' < x || (x' == x && z' < z)) && y' < h[x'][z'])
                                          || (x' == x && z' == z && y' < y) then 1 else 0
        {
          b := Set3(b, d, x, y, z, 1);
        }
      }
    }
  }

  class Terrain {
    const env: Environment
    var playerSimulation: bool
    var onFloor: bool
    var jumpPower: real
    var cameraSpeed: real
    var movementSpeed: real
    var friction: real
    var gravity: Vector3
    var velocity: Vector3
    /** The vertex pool, keyed by position. */
    var vertices: map<Vector3, Vertex>
    var triangles: seq<Triangle>
    var blocks: Blocks
    var dims: Dims
    var position: Vector3
    var blockSize: int

    /** The grid the meshing and collision code reads. */
    function AsGrid(): Grid
      reads this
    {
      Grid(blocks, dims, position, blockSize)
    }

    ghost predicate Valid()
      reads this
    {
      Covers(blocks, dims)
    }

    /** The flag is always switched on, whatever the argument; the argument
        only decides whether the camera is first placed 100 units up. */
    constructor (env: Environment, playerSimulation: bool)
      modifies env`offset
      ensures this.env == env && this.playerSimulation
      ensures !onFloor && jumpPower == 9.0 && cameraSpeed == 5.0 && movementSpeed == 0.4
      ensures friction == 0.9 && gravity == Vector3(0.0, -1.0, 0.0) && velocity == Zero
      ensures vertices == map[] && triangles == []
      ensures blocks == [[[]]] && dims == Dims(0, 0, 0) && position == Zero && blockSize == 0
      ensures playerSimulation ==> env.offset == Vector3(0.0, -100.0, 0.0)
      ensures !playerSimulation ==> env.offset == old(env.offset)
      ensures env.rotation == old(env.rotation) && env.children == old(env.children)
      ensures Valid()
    {
      if playerSimulation {
        env.SetCamera(Vector3(0.0, 100.0, 0.0));
      }
      this.env := env;
      this.playerSimulation := true;
      onFloor := false;
      jumpPower := 9.0;
      cameraSpeed := 5.0;
      movementSpeed := 0.4;
      friction := 0.9;
      gravity := Vector3(0.0, -1.0, 0.0);
      velocity := Zero;
      vertices := map[];
      triangles := [];
      blocks := [[[]]];
      dims := Dims(0, 0, 0);
      position := Zero;
      blockSize := 0;
    }

    /** `generate(size, block_size, center)`, with the random heights (each
        drawn from [0, size.y]) as a parameter: the grid is centred on
        `center` and is the height field of the smoothed heights. */
    method Generate(size: Dims, blockSize: int, center: Vector3, randomHeights: seq<seq<int>>)
      requires HeightsWithin(randomHeights, size.sx, size.sz, size.sy)
      modifies this`jumpPower, this`blockSize, this`dims, this`position, this`blocks
      ensures jumpPower == blockSize as real / 2.0 && this.blockSize == blockSize && dims == size
      ensures position == GridOrigin(size, blockSize, center)
      ensures Shaped(blocks, dims) && Valid()
      ensures forall x, y, z :: InGrid(size, x, y, z) ==>
                blocks[x][y][z] == if y < SmoothedHeight(randomHeights, size.sx, size.sz, x, z) then 1 else 0
    {
      jumpPower := blockSize as real / 2.0;
      this.blockSize := blockSize;
      dims := size;
      position := Sub(center, Div(Scale(OfInts(size.sx, size.sy, size.sz), blockSize as real), 2.0));
      var empty := seq(size.sx, _ => seq(size.sy, _ => seq(size.sz, _ => 0)));
      var heights := SmoothHeights(randomHeights, size.sx, size.sz, size.sy);
      blocks := FillHeights(empty, size, heights);
    }

    /** `reset_mesh`: drop the previous mesh from the scene, emit two
        triangles per exposed face in loop order with corners shared
        through a fresh pool, recolour them and add them to the scene. */
    method ResetMesh()
      requires Valid() && NoForeignVertices(env.children, vertices, triangles)
      modifies this`vertices, this`triangles, env`children
      ensures var qs := MeshQuads(AsGrid());
              && vertices == MeshPool(AsGrid(), qs)
              && triangles == Recolored(MeshTriangles(AsGrid(), qs), GRASS)
      ensures env.children == WithoutMesh(old(env.children), old(vertices), old(triangles)) + AsChildren(triangles)
    {
      env.children := WithoutMesh(env.children, vertices, triangles);
      var pool, tris := BuildMesh();
      tris := Recolor(tris, GRASS);
      vertices, triangles := pool, tris;
      env.children := env.children + AsChildren(triangles);
    }

    /** The loops of `reset_mesh` over x, y and z, into a fresh pool and
        triangle list. */
    method BuildMesh() returns (pool: map<Vector3, Vertex>, tris: seq<Triangle>)
      requires Valid()
      ensures pool == MeshPool(AsGrid(), MeshQuads(AsGrid()))
      ensures tris == MeshTriangles(AsGrid(), MeshQuads(AsGrid()))
    {
      ghost var g := AsGrid();
      pool, tris := map[], [];
      ghost var qs: seq<Quad> := [];
      for x := 0 to dims.sx
        invariant qs == XRun(g, x) && pool == MeshPool(g, qs) && tris == MeshTriangles(g, qs)
      {
        pool, tris, qs := MeshSlice(x, pool, tris, qs);
      }
    }

    /** The cells with this x, in loop order. */
    method MeshSlice(x: int, pool: map<Vector3, Vertex>, tris: seq<Triangle>, ghost qs: seq<Quad>)
      returns (pool': map<Vector3, Vertex>, tris': seq<Triangle>, ghost qs': seq<Quad>)
      requires Valid() && 0 <= x < dims.sx
      requires pool == MeshPool(AsGrid(), qs) && tris == MeshTriangles(AsGrid(), qs)
      ensures qs' == qs + YRun(AsGrid(), x, dims.sy)
      ensures pool' == MeshPool(AsGrid(), qs') && tris' == MeshTriangles(AsGrid(), qs')
    {
      ghost var g := AsGrid();
      pool', tris', qs' := pool, tris, qs;
      for y := 0 to dims.sy
        invariant qs' == qs + YRun(g, x, y)
        invariant pool' == MeshPool(g, qs') && tris' == MeshTriangles(g, qs')
      {
        pool', tris', qs' := MeshColumn(x, y, pool', tris', qs');
        AppendAssoc(qs, YRun(g, x, y), ZRun(g, x, y, dims.sz));
      }
    }

    /** The cells with this x and y, in loop order; empty cells are skipped. */
    method MeshColumn(x: int, y: int, pool: map<Vector3, Vertex>, tris: seq<Triangle>, ghost qs: seq<Quad>)
      returns (pool': map<Vector3, Vertex>, tris': seq<Triangle>, ghost qs': seq<Quad>)
      requires Valid() && 0 <= x < dims.sx && 0 <= y < dims.sy
      requires pool == MeshPool(AsGrid(), qs) && tris == MeshTriangles(AsGrid(), qs)
      ensures qs' == qs + ZRun(AsGrid(), x, y, dims.sz)
      ensures pool' == MeshPool(AsGrid(), qs') && tris' == MeshTriangles(AsGrid(), qs')
    {
      ghost var g := AsGrid();
      pool', tris', qs' := pool, tris, qs;
      for z := 0 to dims.sz
        invariant qs' == qs + ZRun(g, x, y, z)
        invariant pool' == MeshPool(g, qs') && tris' == MeshTriangles(g, qs')
      {
        if blocks[x][y][z] != 0 {
          pool', tris', qs' := EmitCell(x, y, z, pool', tris', qs');
        } else {
          EmptyCellHasNoFaces(g, x, y, z);
        }
        AppendAssoc(qs, ZRun(g, x, y, z), CellQuads(g, x, y, z));
      }
    }

    /** The six face tests of one solid cell, in source order. */
    method EmitCell(x: int, y: int, z: int, pool: map<Vector3, Vertex>, tris: seq<Triangle>, ghost qs: seq<Quad>)
      returns (pool': map<Vector3, Vertex>, tris': seq<Triangle>, ghost qs': seq<Quad>)
      requires Valid() && pool == MeshPool(AsGrid(), qs) && tris == MeshTriangles(AsGrid(), qs)
      ensures qs' == qs + CellQuads(AsGrid(), x, y, z)
      ensures pool' == MeshPool(AsGrid(), qs') && tris' == MeshTriangles(AsGrid(), qs')
    {
      ghost var g := AsGrid();
      pool', tris', qs' := EmitFace(Quad(x, y, z, PosY), pool, tris, qs);
      ghost var part := FaceQuads(g, Quad(x, y, z, PosY));
      pool', tris', qs' := EmitFace(Quad(x, y, z, NegY), pool', tris', qs');
      AppendAssoc(qs, part, FaceQuads(g, Quad(x, y, z, NegY)));
      part := part + FaceQuads(g, Quad(x, y, z, NegY));
      pool', tris', qs' := EmitFace(Quad(x, y, z, PosZ), pool', tris', qs');
      AppendAssoc(qs, part, FaceQuads(g, Quad(x, y, z, PosZ)));
      part := part + FaceQuads(g, Quad(x, y, z, PosZ));
      pool', tris', qs' := EmitFace(Quad(x, y, z, NegZ), pool', tris', qs');
      AppendAssoc(qs, part, FaceQuads(g, Quad(x, y, z, NegZ)));
      part := part + FaceQuads(g, Quad(x, y, z, NegZ));
      pool', tris', qs' := EmitFace(Quad(x, y, z, PosX), pool', tris', qs');
      AppendAssoc(qs, part, FaceQuads(g, Quad(x, y, z, PosX)));
      part := part + FaceQuads(g, Quad(x, y, z, PosX));
      pool', tris', qs' := EmitFace(Quad(x, y, z, NegX), pool', tris', qs');
      CellQuadsSpelled(g, x, y, z);
      AppendAssoc(qs, part, FaceQuads(g, Quad(x, y, z, NegX)));
    }

    /** One face test: the face is emitted when it is exposed. */
    method EmitFace(q: Quad, pool: map<Vector3, Vertex>, tris: seq<Triangle>, ghost qs: seq<Quad>)
      returns (pool': map<Vector3, Vertex>, tris': seq<Triangle>, ghost qs': seq<Quad>)
      requires Valid() && pool == MeshPool(AsGrid(), qs) && tris == MeshTriangles(AsGrid(), qs)
      ensures qs' == qs + FaceQuads(AsGrid(), q)
      ensures pool' == MeshPool(AsGrid(), qs') && tris' == MeshTriangles(AsGrid(), qs')
    {
      if Exposed(AsGrid(), q) {
        pool', tris' := AddQuad(q, pool, tris, qs);
        qs' := qs + [q];
      } else {
        pool', tris', qs' := pool, tris, qs;
        assert qs + [] == qs;
      }
    }

    /** The two triangles of one face, each corner looked up in the pool
        and added to it when missing. */
    method AddQuad(q: Quad, pool: map<Vector3, Vertex>, tris: seq<Triangle>, ghost qs: seq<Quad>)
      returns (pool': map<Vector3, Vertex>, tris': seq<Triangle>)
      requires pool == MeshPool(AsGrid(), qs) && tris == MeshTriangles(AsGrid(), qs)
      ensures pool' == MeshPool(AsGrid(), qs + [q]) && tris' == MeshTriangles(AsGrid(), qs + [q])
    {
      var g := AsGrid();
      var cs := FaceCorners(q);
      var w := FaceWinding(q.face);
      PoolMapKeys(PoolKeys(g, CornerSet(qs)));
      var v1, v2, v3, v4;
      pool', v1, v2, v3, v4 := InternCorners(pool, g, cs);
      var vs := [v1, v2, v3, v4];
      tris' := tris + [NewTriangle(v1, vs[w.a], vs[w.b], None), NewTriangle(v1, vs[w.c], vs[w.d], None)];
      QuadTrianglesOf(g, q, v1, v2, v3, v4);
      MeshTrianglesSnoc(g, qs, q);
      PoolGrows(g, qs, q);
      PoolIsMap(pool', PoolKeys(g, CornerSet(qs + [q])));
    }

    /** The four pool lookups of a face, in corner order. */
    static method InternCorners(pool: map<Vector3, Vertex>, g: Grid, cs: seq<Corner>)
      returns (pool': map<Vector3, Vertex>, v1: Vertex, v2: Vertex, v3: Vertex, v4: Vertex)
      requires |cs| == 4 && forall k :: k in pool ==> pool[k] == Vertex(k)
      ensures v1 == CornerVertex(g, cs[0]) && v2 == CornerVertex(g, cs[1])
      ensures v3 == CornerVertex(g, cs[2]) && v4 == CornerVertex(g, cs[3])
      ensures pool'.Keys == pool.Keys + {v1.position, v2.position, v3.position, v4.position}
      ensures forall k :: k in pool' ==> pool'[k] == Vertex(k)
    {
      pool', v1 := Intern(pool, CornerVertex(g, cs[0]));
      pool', v2 := Intern(pool', CornerVertex(g, cs[1]));
      pool', v3 := Intern(pool', CornerVertex(g, cs[2]));
      pool', v4 := Intern(pool', CornerVertex(g, cs[3]));
    }

    /** Vertex interning: a pooled vertex at the same position is reused;
        otherwise this vertex is added to the pool under its position. */
    static method Intern(pool: map<Vector3, Vertex>, v: Vertex) returns (pool': map<Vector3, Vertex>, v': Vertex)
      requires forall k :: k in pool ==> pool[k] == Vertex(k)
      ensures v' == v && pool'.Keys == pool.Keys + {v.position}
      ensures forall k :: k in pool' ==> pool'[k] == Vertex(k)
    {
      if v.position in pool {
        v' := pool[v.position];
        pool' := pool;
      } else {
        v' := v;
        pool' := pool[v.position := v];
      }
    }

    /** `collides_box(box)`: the bounds test, then a search of the cells
        with indices in [st - 1, st + 3) on each axis, st the truncated
        offset of the box's upper bound, returning at the first solid cell
        whose box collides. */
    method CollidesBox(box: Box) returns (hit: bool)
      requires Valid() && blockSize > 0
      ensures hit == CollidesTerrain(AsGrid(), box)
    {
      var s := blockSize as real;
      var lx, ly, lz := position.x, position.y, position.z;
      var ux := position.x + dims.sx as real * s;
      var uy := position.y + dims.sy as real * s;
      var uz := position.z + dims.sz as real * s;
      assert Bounds(AsGrid()) == Box(lx, ux, ly, uy, lz, uz);
      if box.ux < lx || box.lx > ux { return false; }
      if box.uy < ly || box.ly > uy { return false; }
      if box.uz < lz || box.lz > uz { return false; }
      hit := SearchWindow(box);
    }

    /** The second half of `collides_box`, for a box that meets the
        terrain's bounds: the window starts are the truncated cell offsets
        of the box's upper corner. */
    method SearchWindow(box: Box) returns (hit: bool)
      requires Valid() && blockSize > 0 && Collides(Bounds(AsGrid()), box)
      ensures hit == CollidesTerrain(AsGrid(), box)
    {
      var s := blockSize as real;
      var stx := Trunc((box.ux - position.x) / s);
      var sty := Trunc((box.uy - position.y) / s);
      var stz := Trunc((box.uz - position.z) / s);
      var wx, wy, wz := Window(stx, dims.sx), Window(sty, dims.sy), Window(stz, dims.sz);
      hit := ScanWindow(box, wx, wy, wz);
    }

    /** The x loop of the window search. */
    method ScanWindow(box: Box, wx: Span, wy: Span, wz: Span) returns (hit: bool)
      requires Valid() && blockSize > 0
      requires 0 <= wx.lo && wx.hi <= dims.sx && 0 <= wy.lo && wy.hi <= dims.sy
      requires 0 <= wz.lo && wz.hi <= dims.sz
      ensures hit == HitIn(AsGrid(), box, wx, wy, wz)
    {
      ghost var g := AsGrid();
      var x := wx.lo;
      while x < wx.hi
        invariant wx.lo <= x
        invariant !HitIn(g, box, Span(wx.lo, x), wy, wz)
      {
        hit := ScanSlice(box, x, wy, wz);
        if hit {
          HitInWiden(g, box, Span(x, x + 1), wy, wz, wx, wy, wz);
          return;
        }
        NoHitJoinX(g, box, wx.lo, x, x + 1, wy, wz);
        x := x + 1;
      }
      HitInWiden(g, box, wx, wy, wz, Span(wx.lo, x), wy, wz);
      return false;
    }

    /** The y loop of the window search, for one x. */
    method ScanSlice(box: Box, x: int, wy: Span, wz: Span) returns (hit: bool)
      requires Valid() && blockSize > 0 && 0 <= x < dims.sx
      requires 0 <= wy.lo && wy.hi <= dims.sy && 0 <= wz.lo && wz.hi <= dims.sz
      ensures hit == HitIn(AsGrid(), box, Span(x, x + 1), wy, wz)
    {
      ghost var g := AsGrid();
      var y := wy.lo;
      while y < wy.hi
        invariant wy.lo <= y
        invariant !HitIn(g, box, Span(x, x + 1), Span(wy.lo, y), wz)
      {
        hit := ScanColumn(box, x, y, wz);
        if hit {
          HitInWiden(g, box, Span(x, x + 1), Span(y, y + 1), wz, Span(x, x + 1), wy, wz);
          return;
        }
        NoHitJoinY(g, box, Span(x, x + 1), wy.lo, y, y + 1, wz);
        y := y + 1;
      }
      HitInWiden(g, box, Span(x, x + 1), wy, wz, Span(x, x + 1), Span(wy.lo, y), wz);
      return false;
    }

    /** The z loop of the window search, for one x and y: the first solid
        cell whose block-sized box collides ends the search. */
    method ScanColumn(box: Box, x: int, y: int, wz: Span) returns (hit: bool)
      requires Valid() && blockSize > 0 && 0 <= x < dims.sx && 0 <= y < dims.sy
      requires 0 <= wz.lo && wz.hi <= dims.sz
      ensures hit == HitIn(AsGrid(), box, Span(x, x + 1), Span(y, y + 1), wz)
    {
      ghost var g := AsGrid();
      var s := blockSize as real;
      var z := wz.lo;
      while z < wz.hi
        invariant wz.lo <= z
        invariant !HitIn(g, box, Span(x, x + 1), Span(y, y + 1), Span(wz.lo, z))
      {
        if blocks[x][y][z] != 0 {
          var bx := MakeBox(Vector3(s, s, s), Add(Add(position, Scale(OfInts(x, y, z), s)), Div(Vector3(s, s, s), 2.0)));
          if Collides(bx, box) {
            assert Solid(g, x, y, z) && bx == CellBox(g, x, y, z);
            return true;
          }
        }
        NoHitJoinZ(g, box, Span(x, x + 1), Span(y, y + 1), wz.lo, z, z + 1);
        z := z + 1;
      }
      HitInWiden(g, box, Span(x, x + 1), Span(y, y + 1), wz, Span(x, x + 1), Span(y, y + 1), Span(wz.lo, z));
      return false;
    }

    /** `tick()`: with the simulation on, one physics step of TickStep over
        this terrain's collision test. */
    method Tick()
      requires Valid() && blockSize > 0
      modifies this`velocity, this`onFloor, env`offset
      ensures !playerSimulation ==>
                velocity == old(velocity) && onFloor == old(onFloor) && env.offset == old(env.offset)
      ensures playerSimulation ==>
                var g := AsGrid();
                Body(env.offset, velocity, onFloor)
                == TickStep(box => Blocked(g, box), blockSize as real, gravity, friction,
                            Body(old(env.offset), old(velocity), old(onFloor)))
    {
      if !playerSimulation { return; }
      var s := blockSize as real;
      var mx := ProbeX(env.offset, Scale(Add(velocity, gravity), friction));
      var my := ProbeY(mx.offset, mx.velocity);
      var mz := ProbeZ(my.offset, my.velocity);
      env.offset, velocity, onFloor := mz.offset, mz.velocity, my.blocked;
    }

    /** The x block of `tick`: move, test the player's box, undo on a collision. */
    method ProbeX(o: Vector3, v: Vector3) returns (m: Move)
      requires Valid() && blockSize > 0
      ensures var g := AsGrid(); m == MoveX(box => Blocked(g, box), blockSize as real, o, v)
    {
      var moved := o.(x := o.x - v.x);
      var hit := CollidesBox(PlayerBox(blockSize as real, moved));
      if hit {
        m := Move(moved.(x := moved.x + v.x), v.(x := 0.0), true);
      } else {
        m := Move(moved, v, false);
      }
    }

    /** The y block of `tick`; its collision result is the on-floor flag. */
    method ProbeY(o: Vector3, v: Vector3) returns (m: Move)
      requires Valid() && blockSize > 0
      ensures var g := AsGrid(); m == MoveY(box => Blocked(g, box), blockSize as real, o, v)
    {
      var moved := o.(y := o.y - v.y);
      var hit := CollidesBox(PlayerBox(blockSize as real, moved));
      if hit {
        m := Move(moved.(y := moved.y + v.y), v.(y := 0.0), true);
      } else {
        m := Move(moved, v, false);
      }
    }

    /** The z block of `tick`. */
    method ProbeZ(o: Vector3, v: Vector3) returns (m: Move)
      requires Valid() && blockSize > 0
      ensures var g := AsGrid(); m == MoveZ(box => Blocked(g, box), blockSize as real, o, v)
    {
      var moved := o.(z := o.z - v.z);
      var hit := CollidesBox(PlayerBox(blockSize as real, moved));
      if hit {
        m := Move(moved.(z := moved.z + v.z), v.(z := 0.0), true);
      } else {
        m := Move(moved, v, false);
      }
    }

    /** `handle_input()` for the keys held, with the trigonometric
        `Vector3.rotate` as the parameter `rotate`: the walking keys and the
        jump change the velocity, the arrow keys the camera rotation. */
    method HandleInput(keys: Keys, rotate: (Vector3, Vector3) -> Vector3)
      modifies this`velocity, env`rotation
      ensures velocity == InputVelocity(old(velocity), keys, old(env.rotation).y, movementSpeed,
                                        jumpPower, onFloor, rotate)
      ensures env.rotation == InputRotation(old(env.rotation), keys, cameraSpeed)
    {
      velocity := InputVelocity(velocity, keys, env.rotation.y, movementSpeed, jumpPower, onFloor, rotate);
      env.rotation := InputRotation(env.rotation, keys, cameraSpeed);
    }
  }

  // Lemmas the methods use

  /** An empty cell emits no face. */
  lemma EmptyCellHasNoFaces(g: Grid, x: int, y: int, z: int)
    requires g.Valid() && InGrid(g.dims, x, y, z) && g.blocks[x][y][z] == 0
    ensures CellQuads(g, x, y, z) == []
  {
    if CellQuads(g, x, y, z) != [] {
      CellQuadsExact(g, x, y, z, CellQuads(g, x, y, z)[0]);
    }
  }

  lemma AppendAssoc<T>(a: seq<T>, b: seq<T>, c: seq<T>)
    ensures (a + b) + c == a + (b + c)
  {
  }

  /** Emitting one more face adds its four corner positions to the pool keys. */
  lemma PoolGrows(g: Grid, qs: seq<Quad>, q: Quad)
    ensures var cs := FaceCorners(q);
            PoolKeys(g, CornerSet(qs + [q]))
            == PoolKeys(g, CornerSet(qs)) + {CornerPosition(g, cs[0]), CornerPosition(g, cs[1]),
                                             CornerPosition(g, cs[2]), CornerPosition(g, cs[3])}
  {
    assert (qs + [q])[..|qs|] == qs;
    assert CornerSet(qs + [q]) == CornerSet(qs) + QuadCornerSet(q);
  }

  /** Every entry of a pool built from keys is the vertex at its key. */
  lemma PoolMapKeys(keys: set<Vector3>)
    ensures PoolMap(keys).Keys == keys
    ensures forall k :: k in PoolMap(keys) ==> PoolMap(keys)[k] == Vertex(k)
  {
  }

  /** A pool whose every entry is the vertex at its key is determined by its keys. */
  lemma PoolIsMap(pool: map<Vector3, Vertex>, keys: set<Vector3>)
    requires forall k :: k in pool ==> pool[k] == Vertex(k)
    requires pool.Keys == keys
    ensures pool == PoolMap(keys)
  {
  }

  /** The two triangles of a face, over its four corner vertices. */
  lemma QuadTrianglesOf(g: Grid, q: Quad, v1: Vertex, v2: Vertex, v3: Vertex, v4: Vertex)
    requires var cs := FaceCorners(q);
             && v1 == CornerVertex(g, cs[0]) && v2 == CornerVertex(g, cs[1])
             && v3 == CornerVertex(g, cs[2]) && v4 == CornerVertex(g, cs[3])
    ensures var w, vs := FaceWinding(q.face), [v1, v2, v3, v4];
            QuadTriangles(g, q) == [NewTriangle(vs[0], vs[w.a], vs[w.b], None), NewTriangle(vs[0], vs[w.c], vs[w.d], None)]
  {
  }

  lemma MeshTrianglesSnoc(g: Grid, qs: seq<Quad>, q: Quad)
    ensures MeshTriangles(g, qs + [q]) == MeshTriangles(g, qs) + QuadTriangles(g, q)
  {
    assert (qs + [q])[..|qs|] == qs;
  }

  lemma NoHitJoinX(g: Grid, box: Box, a: int, b: int, c: int, wy: Span, wz: Span)
    requires g.Valid()
    requires !HitIn(g, box, Span(a, b), wy, wz) && !HitIn(g, box, Span(b, c), wy, wz)
    ensures !HitIn(g, box, Span(a, c), wy, wz)
  {
  }

  lemma NoHitJoinY(g: Grid, box: Box, wx: Span, a: int, b: int, c: int, wz: Span)
    requires g.Valid()
    requires !HitIn(g, box, wx, Span(a, b), wz) && !HitIn(g, box, wx, Span(b, c), wz)
    ensures !HitIn(g, box, wx, Span(a, c), wz)
  {
  }

  lemma NoHitJoinZ(g: Grid, box: Box, wx: Span, wy: Span, a: int, b: int, c: int)
    requires g.Valid()
    requires !HitIn(g, box, wx, wy, Span(a, b)) && !HitIn(g, box, wx, wy, Span(b, c))
    ensures !HitIn(g, box, wx, wy, Span(a, c))
  {
  }

  /** A hit in some spans is a hit in any wider ones. */
  lemma HitInWiden(g: Grid, box: Box, wx: Span, wy: Span, wz: Span, wx': Span, wy': Span, wz': Span)
    requires g.Valid()
    requires (wx'.lo <= wx.lo && wx.hi <= wx'.hi) || wx.hi <= wx.lo
    requires (wy'.lo <= wy.lo && wy.hi <= wy'.hi) || wy.hi <= wy.lo
    requires (wz'.lo <= wz.lo && wz.hi <= wz'.hi) || wz.hi <= wz.lo
    ensures HitIn(g, box, wx, wy, wz) ==> HitIn(g, box, wx', wy', wz')
  {
  }
}
