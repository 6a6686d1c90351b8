/** Mesh primitives of trans.py: vertices compared by position, and
    coloured triangles with their centroid. Projection and shading are not
    part of this model. */
module Geometry {
  import opened Vectors

  datatype Color = Color(r: int, g: int, b: int)

  /** Colour a triangle gets when none is given. */
  const DEFAULT_COLOR := Color(255, 0, 0)

  datatype Option<T> = None | Some(value: T)

  datatype Vertex = Vertex(position: Vector3)

  /** `Vertex.__eq__`: two vertices are equal when their positions are; a
      vertex holds nothing else, so this is value equality. */
  function SameVertex(a: Vertex, b: Vertex): (r: bool)
    ensures r <==> a == b
  {
    Equal(a.position, b.position)
  }

  datatype Triangle = Triangle(v0: Vertex, v1: Vertex, v2: Vertex, color: Color)

  /** `Triangle(vertex0, vertex1, vertex2, color)`: the vertices are kept in
      the given (winding) order, and a missing colour becomes the default. */
  function NewTriangle(a: Vertex, b: Vertex, c: Vertex, color: Option<Color>): (t: Triangle)
    ensures [t.v0, t.v1, t.v2] == [a, b, c]
    ensures color.Some? ==> t.color == color.value
    ensures color.None? ==> t.color == DEFAULT_COLOR
  {
    Triangle(a, b, c, match color case Some(k) => k case None => DEFAULT_COLOR)
  }

  /** `Triangle.center(offset)`: the shifted positions summed left to right,
      then divided by three. */
  function Center(t: Triangle, offset: Vector3): Vector3 {
    Div(Add(Add(Add(t.v0.position, offset), Add(t.v1.position, offset)),
            Add(t.v2.position, offset)), 3.0)
  }

  /** The centroid of the shifted triangle is the shifted centroid. */
  lemma CenterTranslates(t: Triangle, offset: Vector3)
    ensures Center(t, offset) == Add(Center(t, Zero), offset)
  {
  }

  /** Each coordinate of the centroid is the mean of the three vertices'. */
  lemma CenterIsMean(t: Triangle)
    ensures 3.0 * Center(t, Zero).x == t.v0.position.x + t.v1.position.x + t.v2.position.x
    ensures 3.0 * Center(t, Zero).y == t.v0.position.y + t.v1.position.y + t.v2.position.y
    ensures 3.0 * Center(t, Zero).z == t.v0.position.z + t.v1.position.z + t.v2.position.z
  {
  }
}
