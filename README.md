# pygame-3d-movement: a verified model of the voxel terrain and its kernel

This project models the logic of a small software 3D renderer with a walkable voxel terrain.

`trans.py` gives the kernel:
- exact `Vector3` algebra;
- axis-aligned `Box`es with the inclusive overlap test;
- `Vertex` (equal by position) and `Triangle` (three vertices and a colour, with a centroid);
- the `Environment` camera and scene. Its `offset` and `rotation` are set, moved and wrapped into [0, 360). Its child list is drawn farthest-first.

`terrain.py` gives the `Terrain` class:
- `generate` builds a grid of cells, 1 for solid and 0 for empty, as the height field of 3×3-smoothed random column heights.
- `reset_mesh` replaces the terrain's triangles in the scene. It emits two triangles per exposed cell face, shares corners through a position-keyed vertex pool, and recolours them grass green.
- `collides_box` tests a box against the terrain's bounds, then against the solid cells of a small search window.
- `tick` applies damping and gravity, then moves the camera axis by axis (x, y, z). A move that makes the player's box collide is undone and zeroes that velocity component. `on_floor` records whether the vertical move was undone.
- `handle_input` adds walking impulses, jumps only from the floor, and turns the camera.

The project is split into modules:
- `Vectors`, `Boxes` and `Geometry` hold the value types of the kernel.
- `Scene` holds the `Environment` class, Python's stable descending sort, and `%` on angles.
- `VoxelGrid` holds the specification of the terrain, as functions of a grid value. The smoothed heights, the faces and triangles emitted in loop order, the vertex pool, the collision query and one physics step are all defined there. The properties of the terrain are proved there as lemmas.
- `VoxelTerrain` holds the `Terrain` class. Its fields are the source's attributes. Each method mirrors the source's loops and is proved to compute the `VoxelGrid` functions.
  - The nested Python lists are `seq` fields.
  - The vertex dict is a `map` from position to vertex.

Values over `real` are exact. Floating-point rounding is not modelled. Python's `int()` is modelled as truncation toward zero (`Trunc`), `//` as floor division on non-negative integers, and `% 360` on a float as the floored remainder (`WrapDegrees`).

Behaviour of the code worth noting:
- terrain.py:80 and the five face tests after it (lines 99, 118, 137, 156 and 175) emit a face only when the neighbouring cell is inside the grid and empty. Faces on the grid boundary are never emitted, so a fully solid (4, 1, 4) grid yields no triangles at all (`VoxelGrid.SolidGridHasNoFaces`).
- `Vertex.__eq__` (trans.py:134-135) compares exact positions. The rounding to 5 decimals appears only in `__hash__` (trans.py:131-132).
- The search window of `collides_box` (terrain.py:210-216) is built on the box's upper corner only: cells `st - 1` to `st + 2` on each axis, where `st` is the cell index of that corner. A box taller than about one block can therefore overlap a solid cell below that window and not be reported. The player's own box is two blocks tall. `VoxelGrid.WindowCompleteForSmallBoxes` proves that the search is exact for boxes shorter than a block on every axis. `VoxelGrid.TallBoxMissesCell` gives a concrete grid and player position where a touching cell is missed. The physics step uses the search as written.

## Model

| member | source | states |
|---|---|---|
| Vectors.Equal | trans.py:102-103 | component-wise comparison holds exactly when the two vectors are the same value |
| Vectors.Neg | trans.py:13-14 | definition (no contract): component-wise negation; its properties are `Vectors.NegInvolutive` and `Vectors.AddNegIsZero` |
| Vectors.Add | trans.py:16-17 | definition (no contract): component-wise sum; see `Vectors.AddNegIsZero` |
| Vectors.Sub | trans.py:19-20 | definition (no contract): component-wise difference; `Vectors.SubIsAddNeg` relates it to `Add` and `Neg` |
| Vectors.Scale | trans.py:22-23 | definition (no contract): `vector * scalar`; `Vectors.ScaleDivInverse` relates it to `Div` |
| Vectors.Div | trans.py:25-26 | definition: `vector / scalar` for a nonzero scalar; `Vectors.ScaleDivInverse` states that it undoes `Scale` |
| Vectors.Cross | trans.py:28-34 | definition (no contract): the cross product; its properties are the three `Cross` lemmas below |
| Vectors.Dot | trans.py:47-48 | definition (no contract): the dot product; used by `Vectors.CrossOrthogonal` |
| Vectors.SubIsAddNeg | trans.py:13-20 | a − b equals a + (−b) |
| Vectors.NegInvolutive | trans.py:13-14 | negating twice gives the vector back |
| Vectors.AddNegIsZero | trans.py:13-17 | a + (−a) is the zero vector |
| Vectors.ScaleDivInverse | trans.py:22-26 | for k ≠ 0, (a * k) / k == a |
| Vectors.CrossAntiCommutative | trans.py:28-34 | a × b == −(b × a) |
| Vectors.CrossOrthogonal | trans.py:28-34 | the cross product is orthogonal to both factors under `dot` |
| Vectors.CrossSelfIsZero | trans.py:28-34 | a × a is zero |
| Boxes.MakeBox | trans.py:110-116 | on each axis the extent is the size and the midpoint is the centre |
| Boxes.MakeBoxWellFormed | trans.py:110-116 | with non-negative size components every lower bound is at most its upper bound |
| Boxes.Collides | trans.py:118-122 | definition (no contract): the three axis tests; `Boxes.CollidesIffCommonPoint` states what it means |
| Boxes.CollidesSymmetric | trans.py:118-122 | `a.collides_box(b) == b.collides_box(a)` |
| Boxes.CollidesIffCommonPoint | trans.py:118-122 | two well-formed boxes collide if and only if some point lies in both closed boxes |
| Boxes.SelfCollides | trans.py:118-122 | a well-formed box collides with itself |
| Boxes.TouchingBoxesCollide | trans.py:119-121 | boxes of size (2,2,2) at the origin and at (2,0,0), touching only on x = 1, collide |
| Boxes.SeparatedBoxesDoNotCollide | trans.py:119-121 | the same boxes with centres 2.5 apart do not collide |
| Geometry.SameVertex | trans.py:134-135 | `Vertex.__eq__` holds exactly when the vertices are equal values, i.e. have the same position |
| Geometry.NewTriangle | trans.py:164-166 | the vertices are kept in the given winding order; a given colour is kept and a missing one becomes (255, 0, 0) |
| Geometry.Center | trans.py:174-175 | definition (no contract): the vertex mean plus the offset; `Geometry.CenterIsMean` and `Geometry.CenterTranslates` state its meaning |
| Geometry.CenterTranslates | trans.py:174-175 | the centre of the shifted triangle is the unshifted centre plus the offset |
| Geometry.CenterIsMean | trans.py:174-175 | each coordinate of the centre is the mean of the three vertices' coordinates |
| Scene.Insert | trans.py:229 | definition (no contract): one insertion step of the stable descending sort; `Scene.SortDesc*` state its effect |
| Scene.SortDesc | trans.py:229 | definition (no contract): `sorted(..., key, reverse=True)`; `Scene.SortDescPermutes`, `Scene.SortDescOrdered` and `Scene.SortDescStable` state its meaning |
| Scene.Displayable | trans.py:230 | definition (no contract): the children with `display`, in order; `Scene.DisplayableCount` states which are kept |
| Scene.HasDisplay | trans.py:230 | definition (no contract): the `hasattr(child, "display")` test; `Scene.DisplayableCount` states that exactly the children passing it are drawn |
| Scene.DepthKey | trans.py:229 | definition (no contract): the sort key, a child's distance from the camera at the given offset; `Scene.Environment.Display` sorts on it |
| Scene.SortDescPermutes | trans.py:229 | the sorted children are a permutation of the children |
| Scene.SortDescOrdered | trans.py:229 | the sorted children have non-increasing keys (`reverse=True`) |
| Scene.SortDescStable | trans.py:229 | for every key value, the children with that key keep their list order (stability) |
| Scene.DisplayableKeepsOrder | trans.py:229-230 | keeping only the children that have `display` preserves the non-increasing order and adds no child |
| Scene.DisplayableCount | trans.py:230 | each child occurs among the drawn ones as often as in the list if it has `display`, otherwise never |
| Scene.DisplayablePermutes | trans.py:229-230 | permuting the children permutes the children that are drawn |
| Scene.WrapDegrees | trans.py:224-226 | `r % 360` lies in [0, 360) and differs from r by a whole number of turns |
| Scene.WrapDegreesUnique | trans.py:224-226 | the wrapped angle is the only value in [0, 360) that differs from r by whole turns |
| Scene.WrapDegreesIdempotent | trans.py:224-226 | wrapping twice is wrapping once |
| Scene.WrapNegativeAngle | trans.py:224-226 | −10 wraps to 350 (floored, not truncated, remainder) |
| Scene.Environment.constructor | trans.py:206-211 | camera at the origin, no rotation, the given field of view, no children |
| Scene.Environment.AddChild | trans.py:213-214 | the child is appended at the end, the rest unchanged |
| Scene.Environment.SetCamera | trans.py:216-217 | afterwards offset == −position, so offset + position is zero |
| Scene.Environment.MoveCamera | trans.py:219-220 | the offset grows by the step turned by the negated camera rotation |
| Scene.Environment.RotateCamera | trans.py:222-226 | each rotation component becomes (r − d) mod 360, in [0, 360) |
| Scene.Environment.Display | trans.py:228-231 | the children drawn are exactly those with `display`, farthest first, ties in list order, each child as often as it occurs |
| VoxelGrid.WindowCountBounds | terrain.py:53-60 | the number of in-bounds neighbours counted is at most 9, and at least 1 for an in-bounds column |
| VoxelGrid.WindowSumBounds | terrain.py:53-60 | the neighbourhood total is between 0 and top times that count |
| VoxelGrid.MeanBounds | terrain.py:61 | `total // count` is the floor of the mean and lies in [0, top] |
| VoxelGrid.SmoothedHeight | terrain.py:51-61 | definition (no contract): `total // count` over the in-bounds 3×3 neighbourhood; `VoxelGrid.SmoothedHeightBounds` states its meaning |
| VoxelGrid.SmoothedHeightBounds | terrain.py:51-61 | each smoothed height h satisfies h·n ≤ sum < (h+1)·n with 1 ≤ n ≤ 9, and lies in [0, top] |
| VoxelGrid.HeightFieldSolidFromFloor | terrain.py:64-67 | in a height field every cell below a solid cell is solid: no gaps or overhangs |
| VoxelGrid.FaceCorners | terrain.py:81-84 | each face has four corners v1..v4 |
| VoxelGrid.Exposed | terrain.py:80-175 | definition (no contract): the face's neighbouring cell is inside the grid and empty, as in the six tests; `VoxelGrid.MeshQuadsExact` states its role |
| VoxelGrid.FaceWinding | terrain.py:95-192 | the two triangles of every face index its four corners, starting at v1 |
| VoxelGrid.CornerPosition | terrain.py:81-84 | definition (no contract): the corner expression `position + Vector3(..) * block_size` of terrain.py:81-84 and the twenty-three like it; `VoxelGrid.CornerPositionInjective` states its meaning |
| VoxelGrid.QuadTriangles | terrain.py:95-191 | definition (no contract): the two triangles of one face, over its pooled corners, at terrain.py:95-96, 114-115, 133-134, 152-153, 171-172 and 190-191; `VoxelGrid.QuadTrianglesShape` and `VoxelGrid.MeshTrianglesLayout` state its meaning |
| VoxelGrid.MeshQuads | terrain.py:75-192 | definition (no contract): the faces emitted by the three loops, in loop order; `VoxelGrid.MeshQuadsExact` and `VoxelGrid.MeshQuadsDistinct` state its meaning |
| VoxelGrid.MeshTriangles | terrain.py:95-192 | definition (no contract): two triangles per face, over pooled vertices; `VoxelGrid.MeshTrianglesLayout` and `VoxelGrid.MeshVerticesInPool` state its meaning |
| VoxelGrid.MeshPool | terrain.py:86-93 | definition (no contract): the vertex dict after the faces' corners are interned; `VoxelGrid.PoolSize` and `VoxelGrid.CornerSetMembers` state its meaning |
| VoxelGrid.CellQuadsSpelled | terrain.py:80-192 | a solid cell's faces are the six tests +y, −y, +z, −z, +x, −x in that order |
| VoxelGrid.CellQuadsExact | terrain.py:78-192 | a face is among a cell's emitted faces exactly when it belongs to the cell and is exposed |
| VoxelGrid.MeshQuadsExact | terrain.py:75-192 | a face is emitted if and only if its cell is solid and the cell across it is inside the grid and empty |
| VoxelGrid.MeshQuadsDistinct | terrain.py:75-192 | faces come out strictly ordered by (x, y, z, face), so no face is emitted twice |
| VoxelGrid.MeshTrianglesLayout | terrain.py:95-97 | there are exactly two triangles per emitted face, triangles 2i and 2i+1 being those of face i |
| VoxelGrid.QuadTrianglesShape | terrain.py:80-97 | a face's two triangles both start at v1, together use exactly its four corners, and carry the default colour; with positive block size the corners are four distinct points |
| VoxelGrid.CornerPositionInjective | terrain.py:81-84 | with a nonzero block size two lattice corners have the same position if and only if they are the same corner |
| VoxelGrid.PoolSize | terrain.py:86-93 | with a nonzero block size the pool has one entry per distinct lattice corner the faces use |
| VoxelGrid.CornerSetMembers | terrain.py:86-93 | a corner is pooled exactly when some emitted face uses it |
| VoxelGrid.MeshVerticesInPool | terrain.py:86-97 | every vertex of every triangle is the pool's entry for its position, so faces sharing a corner share its vertex |
| VoxelGrid.EmptyGridHasNoFaces | terrain.py:75-78 | an all-empty grid gives no faces and no triangles |
| VoxelGrid.SolidGridHasNoFaces | terrain.py:80-192 | an all-solid grid (e.g. the flat (4,1,4) terrain) gives no faces and no triangles |
| VoxelGrid.Bounds | terrain.py:199-204 | definition (no contract): the terrain's box `position` to `position + size·block_size`; `VoxelGrid.CellSpanInBounds` and `VoxelGrid.GridCentred` state its properties |
| VoxelGrid.CellBox | terrain.py:219-222 | definition (no contract): the block-sized box of one cell; `VoxelGrid.CellBoxBounds` states its extent |
| VoxelGrid.Trunc | terrain.py:210-212 | `int()` truncates toward zero: for r ≥ 0 the result t has t ≤ r < t + 1, for r < 0 it has t − 1 < r ≤ t |
| VoxelGrid.Window | terrain.py:214-216 | `range(max(st − 1, 0), min(n, st + 3))`: the lower end is the larger of 0 and st − 1, the upper end the smaller of n and st + 3 |
| VoxelGrid.WindowStart | terrain.py:210-212 | definition (no contract): the truncated cell offset of the box's upper bound; `VoxelGrid.WindowStartIsFloor` states its value after the early-outs |
| VoxelGrid.HitIn | terrain.py:214-225 | definition (no contract): some solid cell of the window has a box that collides; see `VoxelGrid.CollisionIsSound` |
| VoxelGrid.CollidesTerrain | terrain.py:198-227 | definition (no contract): the bounds test, then the window search; `VoxelGrid.CollisionIsSound`, `VoxelGrid.WindowCompleteForSmallBoxes` and `VoxelGrid.TallBoxMissesCell` state what it means |
| VoxelGrid.WindowStartIsFloor | terrain.py:206-212 | after the early-outs the truncated window start equals the floor |
| VoxelGrid.CollisionIsSound | terrain.py:214-225 | a reported collision is real: some solid cell's block box overlaps the query |
| VoxelGrid.EmptyTerrainNeverCollides | terrain.py:214-227 | over an all-empty grid nothing collides |
| VoxelGrid.OutsideBoundsNeverCollides | terrain.py:206-208 | a box separated from the terrain's bounds on some axis never collides |
| VoxelGrid.CellBoxBounds | terrain.py:219-222 | cell (x, y, z)'s box spans [p + i·s, p + i·s + s] on each axis |
| VoxelGrid.CellSpanInBounds | terrain.py:199-204 | every cell's box lies inside the terrain's bounds |
| VoxelGrid.CellWithinBounds | terrain.py:206-208 | a box touching some cell passes the bounds test |
| VoxelGrid.WindowCompleteForSmallBoxes | terrain.py:210-216 | for boxes shorter than a block on every axis, `collides_box` is true if and only if some solid cell's box overlaps the query |
| VoxelGrid.TallBoxMissesCell | terrain.py:210-216 | a two-block-tall player box overlapping the only solid cell is reported as not colliding |
| VoxelGrid.PlayerBox | terrain.py:235 | the player's box is block_size/2 × 2·block_size × block_size/2, centred at −offset − (0, 1.5·block_size, 0) |
| VoxelGrid.MoveX | terrain.py:234-237 | definition (no contract): the x move, undone with the x velocity zeroed on a collision; `VoxelGrid.TickFollowsCollisions` states it |
| VoxelGrid.MoveY | terrain.py:239-245 | definition (no contract): the y move, undone on a collision, whose result is the on-floor flag; `VoxelGrid.TickFollowsCollisions` states it |
| VoxelGrid.MoveZ | terrain.py:247-250 | definition (no contract): the z move, undone with the z velocity zeroed on a collision; `VoxelGrid.TickFollowsCollisions` states it |
| VoxelGrid.TickStep | terrain.py:229-250 | definition (no contract): damping and gravity, then the x, y and z moves; `VoxelGrid.TickFollowsCollisions` and the other `VoxelGrid.Tick*` lemmas state its meaning |
| VoxelGrid.TickResolvesEachAxis | terrain.py:232-250 | each axis either moves by the damped velocity or stays, with that velocity component zeroed; `on_floor` is exactly "the vertical move was undone" |
| VoxelGrid.TickFollowsCollisions | terrain.py:232-250 | the axes are resolved in the order x, y, z: each move is undone with its velocity component zeroed exactly when the player box at the moved position collides, and `on_floor` is the result of the y test |
| VoxelGrid.TickWithoutObstacles | terrain.py:232-250 | with no collision the body moves by its damped velocity and is not on the floor |
| VoxelGrid.TickOverEmptyGrid | terrain.py:229-250 | over an all-empty terrain the player falls freely |
| VoxelGrid.TickAtRestOnFloor | terrain.py:239-245 | a body with no horizontal motion under vertical gravity whose downward step collides stays put, with zero velocity, on the floor |
| VoxelGrid.Impulse | terrain.py:255-256 | definition (no contract): one walking key adds its step turned by the negated yaw when held; `VoxelGrid.SingleKeyImpulse` and `VoxelGrid.NoKeysNoImpulse` state its effect |
| VoxelGrid.WalkVelocity | terrain.py:255-265 | definition (no contract): the W, S, D and A impulses in that order; `VoxelGrid.SingleKeyImpulse` states its effect for one key |
| VoxelGrid.SingleKeyImpulse | terrain.py:255-262 | W alone adds the forward step (0, 0, speed) turned by the negated yaw; D alone adds the sideways step (speed, 0, 0) turned the same way |
| VoxelGrid.InputVelocity | terrain.py:255-268 | definition (no contract): W/S/D/A add their steps, turned by the yaw read before any change, then space on the floor sets the vertical speed; `VoxelGrid.JumpOnlyFromFloor` and `VoxelGrid.NoKeysNoImpulse` state its meaning |
| VoxelGrid.InputRotation | terrain.py:270-280 | definition (no contract): left/right change the yaw and up/down the pitch by the camera speed; `VoxelGrid.OppositeArrowsCancel` states its meaning |
| VoxelGrid.JumpOnlyFromFloor | terrain.py:267-268 | space sets the vertical velocity to the jump power only when on the floor; otherwise the velocity is the walking result |
| VoxelGrid.NoKeysNoImpulse | terrain.py:255-268 | with no key held the velocity is unchanged |
| VoxelGrid.OppositeArrowsCancel | terrain.py:270-280 | roll is never changed, opposite arrows cancel, and left alone adds the camera speed to the yaw |
| VoxelGrid.GridOrigin | terrain.py:36 | definition (no contract): `center − size·block_size / 2`; `VoxelGrid.GridCentred` states its meaning |
| VoxelGrid.GridCentred | terrain.py:36 | the generated grid's bounds are centred on `center` on every axis, with extent size·block_size on each of x, y and z |
| VoxelTerrain.Recolored | terrain.py:194-195 | same length, and triangle i is triangle i with the grass colour |
| VoxelTerrain.Recolor | terrain.py:194-195 | the loop sets every triangle's colour and changes nothing else |
| VoxelTerrain.OldMeshPart | terrain.py:70 | definition (no contract): the filter test, a vertex child whose position is pooled or a triangle of the old list; `VoxelTerrain.WithoutMesh` states that exactly these are dropped |
| VoxelTerrain.WithoutMesh | terrain.py:70 | a child survives the filter exactly when it is not a pooled vertex or an old triangle; survivors keep their multiplicity |
| VoxelTerrain.WithoutMeshAppend | terrain.py:70 | the filter keeps order: filtering a concatenation is the concatenation of the filtered halves |
| VoxelTerrain.WithoutMeshSingle | terrain.py:70 | a single child is kept exactly when it is not part of the old mesh; with `WithoutMeshAppend` this fixes the filter's result, order included |
| VoxelTerrain.WithoutMeshDropsParts | terrain.py:70 | appending only old mesh parts to the children does not change what the filter keeps |
| VoxelTerrain.ResetDoesNotAccumulate | terrain.py:70-196 | the triangles one `reset_mesh` adds are all removed by the next, so meshes do not pile up in the scene |
| VoxelTerrain.Set3 | terrain.py:67 | writing one cell keeps the shape and changes only that cell |
| VoxelTerrain.SmoothHeights | terrain.py:47-61 | every height is the smoothed height of its column, and lies in [0, top] |
| VoxelTerrain.NeighbourMean | terrain.py:53-61 | the loops over dx and dz compute the floor of the mean of the in-bounds neighbours |
| VoxelTerrain.FillHeights | terrain.py:64-67 | the grid becomes exactly the height field: solid below each column's height, empty above, never out of range |
| VoxelTerrain.Terrain.constructor | terrain.py:8-28 | all initial constants; the flag is always on; the camera is placed 100 up only when the argument asks |
| VoxelTerrain.Terrain.Generate | terrain.py:30-67 | sets block size, size, jump power block_size/2 and the centred origin; cell (x, y, z) is 1 iff y is below the smoothed height |
| VoxelTerrain.Terrain.ResetMesh | terrain.py:69-196 | the pool and triangles are those of the exposed faces, recoloured; the children are the filtered old children, in their order, followed by the new triangles |
| VoxelTerrain.Terrain.BuildMesh | terrain.py:75-192 | the three loops produce the exposed faces' pool and triangles in loop order |
| VoxelTerrain.Terrain.MeshSlice | terrain.py:76-192 | the y loop for one x appends that slice's faces |
| VoxelTerrain.Terrain.MeshColumn | terrain.py:77-192 | the z loop appends the column's faces, skipping empty cells |
| VoxelTerrain.Terrain.EmitCell | terrain.py:80-192 | the six face tests of a solid cell append its exposed faces in source order |
| VoxelTerrain.Terrain.EmitFace | terrain.py:80-97 | a face test appends the face exactly when it is exposed |
| VoxelTerrain.Terrain.AddQuad | terrain.py:81-97 | one face adds its corners to the pool and its two triangles, with its winding, to the list |
| VoxelTerrain.Terrain.InternCorners | terrain.py:86-93 | the four lookups return the corner vertices and add exactly their positions to the pool |
| VoxelTerrain.Terrain.Intern | terrain.py:86-87 | a pooled vertex is reused and a new one inserted; the pool maps each position to the vertex at it |
| VoxelTerrain.Terrain.CollidesBox | terrain.py:198-227 | the result is the specified collision query: bounds test, then window search |
| VoxelTerrain.Terrain.SearchWindow | terrain.py:210-227 | the window starts are the truncated offsets of the box's upper corner, and the result is the window search |
| VoxelTerrain.Terrain.ScanWindow | terrain.py:214-227 | the x loop reports a hit exactly when some solid cell of the window collides |
| VoxelTerrain.Terrain.ScanSlice | terrain.py:215-225 | the y loop for one x reports exactly the hits of that slice |
| VoxelTerrain.Terrain.ScanColumn | terrain.py:216-225 | the z loop returns at the first solid colliding cell, and false when there is none |
| VoxelTerrain.Terrain.Tick | terrain.py:229-250 | with the simulation off nothing changes; otherwise offset, velocity and `on_floor` are one physics step against this terrain |
| VoxelTerrain.Terrain.ProbeX | terrain.py:234-237 | the x move, undone with the x velocity zeroed when the player's box collides |
| VoxelTerrain.Terrain.ProbeY | terrain.py:239-245 | the y move, undone on a collision; the collision result becomes the on-floor flag |
| VoxelTerrain.Terrain.ProbeZ | terrain.py:247-250 | the z move, undone with the z velocity zeroed on a collision |
| VoxelTerrain.Terrain.HandleInput | terrain.py:252-280 | the velocity becomes `InputVelocity` of the old velocity and the yaw read before any change; the rotation becomes `InputRotation` of the old rotation |
| VoxelTerrain.EmptyCellHasNoFaces | terrain.py:78 | an empty cell emits no face |

## Left out

- `Vector3.rotate` and `step_rotate` use trigonometry on floats. They appear only as the parameter `rotate` of `Scene.Environment.MoveCamera` and `VoxelTerrain.Terrain.HandleInput`.
- `magnitude`, `normalize` and `distance` need a square root. `distance_from_camera` is the parameter `depth` of `Scene.Environment.Display`, and is then sorted on as an arbitrary key.
- Projection, `is_visible`, `get_normal`, shading and every drawing call are left out. They are floating-point trigonometry and calls into pygame.
- `Vertex.__hash__` and its rounding are left out: they only bucket dictionary lookups, which then compare exact positions.
- `random.randint` is replaced by the parameter `randomHeights` of `VoxelTerrain.Terrain.Generate`. Each entry must lie in [0, size.y], as `randint(0, size.y)` guarantees.
- main.py is not part of this model: it contains the window, the event loop, mouse grab and frame pacing. Polling the keyboard is replaced by the `Keys` parameter of `HandleInput`.
- Vectors.Div requires a nonzero divisor. The `ZeroDivisionError` that `__truediv__` (trans.py:25-26) raises on a zero divisor is not modelled; every use in the model divides by 2 or 3.
- Floating-point arithmetic is left out: all quantities are exact reals or integers.
- Object identity and aliasing are left out. `Triangle` has no `__eq__`, so Python compares triangles by identity; the model compares them as values. Two distinct but identical triangles are therefore one thing to the filter in `reset_mesh`.
- Sizes are natural numbers. The assertion that size components are integers is met by the type, and negative sizes are not modelled.
- `Geometry.NewTriangle` takes an optional colour. A present but falsy colour, such as an empty tuple, which `or` also replaces by the default, is not modelled.
- VoxelTerrain.Terrain.ResetMesh requires `NoForeignVertices`: every vertex child whose position is not in the pool must meet an empty triangle list. The source's `i not in self.triangles` calls `Vertex.__eq__` on a triangle and raises `AttributeError` otherwise.
- VoxelTerrain.Terrain.CollidesBox requires a positive block size. With block size 0 (the state before `generate`) the source divides by zero once the bounds test passes. A negative block size is not modelled.
- VoxelTerrain.Terrain.Tick requires a positive block size, for the same reason, because it calls `collides_box`.
- VoxelGrid.FaceCorners states only that each face has four corners. The twenty-four corner lists are its body, transcribed from the source, and what they imply is stated by `VoxelGrid.QuadTrianglesShape`.
- Scene.Environment.Display assumes every child reports a distance. A child without `distance_from_camera` would make `sorted` raise; such a child is not modelled.
