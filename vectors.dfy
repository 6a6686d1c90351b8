/** Exact three-component vector algebra (the Vector3 class of trans.py),
    over unbounded reals. Floating-point rounding is not modelled. */
module Vectors {

  datatype Vector3 = Vector3(x: real, y: real, z: real)

  const Zero := Vector3(0.0, 0.0, 0.0)

  /** Integer lattice point as a vector (Python's Vector3(x, y, z) with int components). */
  function OfInts(x: int, y: int, z: int): Vector3 {
    Vector3(x as real, y as real, z as real)
  }

  function Neg(a: Vector3): Vector3 {
    Vector3(-a.x, -a.y, -a.z)
  }

  function Add(a: Vector3, b: Vector3): Vector3 {
    Vector3(a.x + b.x, a.y + b.y, a.z + b.z)
  }

  function Sub(a: Vector3, b: Vector3): Vector3 {
    Vector3(a.x - b.x, a.y - b.y, a.z - b.z)
  }

  /** Multiplication by a scalar (`__mul__`). */
  function Scale(a: Vector3, k: real): Vector3 {
    Vector3(a.x * k, a.y * k, a.z * k)
  }

  /** True division by a scalar (`__truediv__`); Python raises on a zero divisor. */
  function Div(a: Vector3, k: real): Vector3
    requires k != 0.0
  {
    Vector3(a.x / k, a.y / k, a.z / k)
  }

  function Dot(a: Vector3, b: Vector3): real {
    a.x * b.x + a.y * b.y + a.z * b.z
  }

  function Cross(a: Vector3, b: Vector3): Vector3 {
    Vector3(a.y * b.z - a.z * b.y,
            a.z * b.x - a.x * b.z,
            a.x * b.y - a.y * b.x)
  }

  /** Component-wise comparison (`__eq__`) is exactly value equality. */
  function Equal(a: Vector3, b: Vector3): (r: bool)
    ensures r <==> a == b
  {
    a.x == b.x && a.y == b.y && a.z == b.z
  }

  lemma SubIsAddNeg(a: Vector3, b: Vector3)
    ensures Sub(a, b) == Add(a, Neg(b))
  {
  }

  lemma NegInvolutive(a: Vector3)
    ensures Neg(Neg(a)) == a
  {
  }

  lemma AddNegIsZero(a: Vector3)
    ensures Add(a, Neg(a)) == Zero
  {
  }

  lemma ScaleDivInverse(a: Vector3, k: real)
    requires k != 0.0
    ensures Div(Scale(a, k), k) == a
  {
  }

  lemma CrossAntiCommutative(a: Vector3, b: Vector3)
    ensures Cross(a, b) == Neg(Cross(b, a))
  {
  }

  lemma CrossOrthogonal(a: Vector3, b: Vector3)
    ensures Dot(Cross(a, b), a) == 0.0
    ensures Dot(Cross(a, b), b) == 0.0
  {
  }

  lemma CrossSelfIsZero(a: Vector3)
    ensures Cross(a, a) == Zero
  {
  }
}
