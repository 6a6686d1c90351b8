/** Axis-aligned boxes (the Box class of trans.py): six bounds derived from a
    size and a centre, and the inclusive separating-axis overlap test. */
module Boxes {
  import opened Vectors

  datatype Box = Box(lx: real, ux: real, ly: real, uy: real, lz: real, uz: real)

  /** `Box(size, center)`: each axis spans center -/+ size/2. */
  function MakeBox(size: Vector3, center: Vector3): (b: Box)
    ensures b.ux - b.lx == size.x && b.uy - b.ly == size.y && b.uz - b.lz == size.z
    ensures b.lx + b.ux == 2.0 * center.x
    ensures b.ly + b.uy == 2.0 * center.y
    ensures b.lz + b.uz == 2.0 * center.z
  {
    Box(center.x - size.x / 2.0, center.x + size.x / 2.0,
        center.y - size.y / 2.0, center.y + size.y / 2.0,
        center.z - size.z / 2.0, center.z + size.z / 2.0)
  }

  /** Every lower bound is at most the matching upper bound. */
  predicate WellFormed(b: Box) {
    b.lx <= b.ux && b.ly <= b.uy && b.lz <= b.uz
  }

  /** The point p lies in the closed box b. */
  predicate Contains(b: Box, p: Vector3) {
    b.lx <= p.x <= b.ux && b.ly <= p.y <= b.uy && b.lz <= p.z <= b.uz
  }

  /** `a.collides_box(b)`: false as soon as one axis separates the two
      boxes, with strict comparisons, so touching boxes collide. */
  predicate Collides(a: Box, b: Box) {
    if b.ux < a.lx || b.lx > a.ux then false
    else if b.uy < a.ly || b.ly > a.uy then false
    else if b.uz < a.lz || b.lz > a.uz then false
    else true
  }

  lemma MakeBoxWellFormed(size: Vector3, center: Vector3)
    requires size.x >= 0.0 && size.y >= 0.0 && size.z >= 0.0
    ensures WellFormed(MakeBox(size, center))
  {
  }

  lemma CollidesSymmetric(a: Box, b: Box)
    ensures Collides(a, b) == Collides(b, a)
  {
  }

  /** Two well-formed boxes collide exactly when they share a point of space
      (boundaries included). */
  lemma CollidesIffCommonPoint(a: Box, b: Box)
    requires WellFormed(a) && WellFormed(b)
    ensures Collides(a, b) <==> exists p :: Contains(a, p) && Contains(b, p)
  {
    if Collides(a, b) {
      var p := Vector3(Max(a.lx, b.lx), Max(a.ly, b.ly), Max(a.lz, b.lz));
      assert Contains(a, p) && Contains(b, p);
    }
  }

  function Max(a: real, b: real): real {
    if a >= b then a else b
  }

  lemma SelfCollides(b: Box)
    requires WellFormed(b)
    ensures Collides(b, b)
  {
  }

  /** Boxes of size (2,2,2) at the origin and at (2,0,0) only touch on the
      plane x = 1, and still collide. */
  lemma TouchingBoxesCollide()
    ensures Collides(MakeBox(Vector3(2.0, 2.0, 2.0), Zero),
                     MakeBox(Vector3(2.0, 2.0, 2.0), Vector3(2.0, 0.0, 0.0)))
  {
  }

  lemma SeparatedBoxesDoNotCollide()
    ensures !Collides(MakeBox(Vector3(2.0, 2.0, 2.0), Zero),
                      MakeBox(Vector3(2.0, 2.0, 2.0), Vector3(2.5, 0.0, 0.0)))
  {
  }
}
