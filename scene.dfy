/** The camera and scene graph of trans.py (class Environment): camera
    offset and rotation, the child list, and the back-to-front drawing order
    of the painter's algorithm. */
module Scene {
  import opened Vectors
  import opened Geometry

  /** What the scene's child list can hold: the two drawable primitives, and
      any other object that reports a distance but has no `display`. */
  datatype Drawable =
    | VertexChild(vertex: Vertex)
    | TriangleChild(triangle: Triangle)
    | Inert(id: nat)

  /** `hasattr(child, "display")`. */
  predicate HasDisplay(d: Drawable) {
    !d.Inert?
  }

  /** The children that have `display`, in order. */
  function Displayable(s: seq<Drawable>): seq<Drawable> {
    if s == [] then []
    else Displayable(s[..|s| - 1]) + (if HasDisplay(s[|s| - 1]) then [s[|s| - 1]] else [])
  }

  // ---------------------------------------------------------------------
  // Stable sort in descending key order (Python's `sorted(..., reverse=True)`)

  /** Puts x before the first element whose key is not above x's. */
  function Insert<T>(x: T, s: seq<T>, key: T -> real): seq<T> {
    if s == [] then [x]
    else if key(x) >= key(s[0]) then [x] + s
    else [s[0]] + Insert(x, s[1..], key)
  }

  function SortDesc<T>(s: seq<T>, key: T -> real): seq<T> {
    if s == [] then [] else Insert(s[0], SortDesc(s[1..], key), key)
  }

  ghost predicate NonIncreasing<T>(s: seq<T>, key: T -> real) {
    forall i, j :: 0 <= i < j < |s| ==> key(s[i]) >= key(s[j])
  }

  /** The elements whose key is k, in their order in s. */
  function WithKey<T>(s: seq<T>, key: T -> real, k: real): seq<T> {
    if s == [] then []
    else (if key(s[0]) == k then [s[0]] else []) + WithKey(s[1..], key, k)
  }

  lemma {:induction false} InsertPermutes<T>(x: T, s: seq<T>, key: T -> real)
    ensures multiset(Insert(x, s, key)) == multiset(s) + multiset{x}
  {
    if s != [] && key(x) < key(s[0]) {
      InsertPermutes(x, s[1..], key);
      assert s == [s[0]] + s[1..];
    }
  }

  /** Inserting keeps every key at most b when x and all of s respect b. */
  lemma {:induction false} InsertBounded<T>(x: T, s: seq<T>, key: T -> real, b: real)
    requires key(x) <= b
    requires forall i :: 0 <= i < |s| ==> key(s[i]) <= b
    ensures forall i :: 0 <= i < |Insert(x, s, key)| ==> key(Insert(x, s, key)[i]) <= b
  {
    if s != [] && key(x) < key(s[0]) {
      InsertBounded(x, s[1..], key, b);
    }
  }

  lemma {:induction false} InsertKeepsOrder<T>(x: T, s: seq<T>, key: T -> real)
    requires NonIncreasing(s, key)
    ensures NonIncreasing(Insert(x, s, key), key)
  {
    if s != [] && key(x) < key(s[0]) {
      var tail := s[1..];
      assert NonIncreasing(tail, key) by {
        forall i, j | 0 <= i < j < |tail| ensures key(tail[i]) >= key(tail[j]) {
          assert tail[i] == s[i + 1] && tail[j] == s[j + 1];
        }
      }
      var rest := Insert(x, tail, key);
      InsertKeepsOrder(x, tail, key);
      assert forall i :: 0 <= i < |tail| ==> key(tail[i]) <= key(s[0]) by {
        forall i | 0 <= i < |tail| ensures key(tail[i]) <= key(s[0]) {
          assert tail[i] == s[i + 1];
        }
      }
      InsertBounded(x, tail, key, key(s[0]));
      var r := [s[0]] + rest;
      forall i, j | 0 <= i < j < |r| ensures key(r[i]) >= key(r[j]) {
        assert r[j] == rest[j - 1];
        if i > 0 {
          assert r[i] == rest[i - 1];
        }
      }
    }
  }

  lemma {:induction false} InsertWithKey<T>(x: T, s: seq<T>, key: T -> real, k: real)
    requires NonIncreasing(s, key)
    ensures WithKey(Insert(x, s, key), key, k)
         == (if key(x) == k then [x] else []) + WithKey(s, key, k)
  {
    if s != [] && key(x) < key(s[0]) {
      var tail := s[1..];
      assert NonIncreasing(tail, key) by {
        forall i, j | 0 <= i < j < |tail| ensures key(tail[i]) >= key(tail[j]) {
          assert tail[i] == s[i + 1] && tail[j] == s[j + 1];
        }
      }
      var rest := Insert(x, tail, key);
      assert Insert(x, s, key) == [s[0]] + rest;
      var a := if key(s[0]) == k then [s[0]] else [];
      var b := if key(x) == k then [x] else [];
      InsertWithKey(x, tail, key, k);
      assert WithKey(rest, key, k) == b + WithKey(tail, key, k);
      WithKeyCons(s[0], rest, key, k);
      assert s == [s[0]] + tail;
      WithKeyCons(s[0], tail, key, k);
      assert WithKey(s, key, k) == a + WithKey(tail, key, k);
      if key(x) == k {
        assert a == [];
      } else {
        assert b == [];
      }
    } else {
      assert Insert(x, s, key) == [x] + s;
      WithKeyCons(x, s, key, k);
    }
  }

  lemma WithKeyCons<T>(h: T, t: seq<T>, key: T -> real, k: real)
    ensures WithKey([h] + t, key, k) == (if key(h) == k then [h] else []) + WithKey(t, key, k)
  {
    assert ([h] + t)[1..] == t;
  }

  lemma {:induction false} SortDescPermutes<T>(s: seq<T>, key: T -> real)
    ensures multiset(SortDesc(s, key)) == multiset(s)
  {
    if s != [] {
      SortDescPermutes(s[1..], key);
      InsertPermutes(s[0], SortDesc(s[1..], key), key);
      assert s == [s[0]] + s[1..];
    }
  }

  lemma {:induction false} SortDescOrdered<T>(s: seq<T>, key: T -> real)
    ensures NonIncreasing(SortDesc(s, key), key)
  {
    if s != [] {
      SortDescOrdered(s[1..], key);
      InsertKeepsOrder(s[0], SortDesc(s[1..], key), key);
    }
  }

  /** Stability: among elements with equal keys, the original order is kept. */
  lemma {:induction false} SortDescStable<T>(s: seq<T>, key: T -> real, k: real)
    ensures WithKey(SortDesc(s, key), key, k) == WithKey(s, key, k)
  {
    if s != [] {
      SortDescStable(s[1..], key, k);
      SortDescOrdered(s[1..], key);
      InsertWithKey(s[0], SortDesc(s[1..], key), key, k);
    }
  }

  lemma {:induction false} DisplayableKeepsOrder(s: seq<Drawable>, key: Drawable -> real)
    requires NonIncreasing(s, key)
    ensures NonIncreasing(Displayable(s), key)
    ensures forall d :: d in Displayable(s) ==> d in s
  {
    if s != [] {
      var init := s[..|s| - 1];
      var last := s[|s| - 1];
      assert NonIncreasing(init, key) by {
        forall i, j | 0 <= i < j < |init| ensures key(init[i]) >= key(init[j]) {
          assert init[i] == s[i] && init[j] == s[j];
        }
      }
      DisplayableKeepsOrder(init, key);
      var r := Displayable(s);
      forall i, j | 0 <= i < j < |r| ensures key(r[i]) >= key(r[j]) {
        if j == |Displayable(init)| {
          assert r[i] in init;
          var m :| 0 <= m < |init| && init[m] == r[i];
          assert s[m] == r[i];
        } else {
          assert r[i] == Displayable(init)[i] && r[j] == Displayable(init)[j];
        }
      }
      forall d | d in r ensures d in s {
        if d in Displayable(init) {
          assert d in init;
        }
      }
    }
  }

  /** How often d occurs among the displayable children of s. */
  lemma {:induction false} DisplayableCount(s: seq<Drawable>, d: Drawable)
    ensures multiset(Displayable(s))[d] == if HasDisplay(d) then multiset(s)[d] else 0
  {
    if s != [] {
      DisplayableCount(s[..|s| - 1], d);
      assert s == s[..|s| - 1] + [s[|s| - 1]];
    }
  }

  lemma DisplayablePermutes(s: seq<Drawable>, t: seq<Drawable>)
    requires multiset(s) == multiset(t)
    ensures multiset(Displayable(s)) == multiset(Displayable(t))
  {
    forall d ensures multiset(Displayable(s))[d] == multiset(Displayable(t))[d] {
      DisplayableCount(s, d);
      DisplayableCount(t, d);
    }
  }

  // ---------------------------------------------------------------------
  // Angles

  /** Python's `r % 360` on a float: the remainder of floored division, so
      always in [0, 360), differing from r by a whole number of turns. */
  function WrapDegrees(r: real): (m: real)
    ensures 0.0 <= m < 360.0
    ensures (r - m) / 360.0 == ((r - m) / 360.0).Floor as real
  {
    r - 360.0 * ((r / 360.0).Floor as real)
  }

  /** The wrapped angle is the only value in [0, 360) a whole number of
      turns away from r. */
  lemma WrapDegreesUnique(r: real, m: real, turns: int)
    requires 0.0 <= m < 360.0
    requires r == m + 360.0 * turns as real
    ensures WrapDegrees(r) == m
  {
    assert r / 360.0 == turns as real + m / 360.0;
    assert (r / 360.0).Floor == turns;
  }

  lemma WrapDegreesIdempotent(r: real)
    ensures WrapDegrees(WrapDegrees(r)) == WrapDegrees(r)
  {
    WrapDegreesUnique(WrapDegrees(r), WrapDegrees(r), 0);
  }

  lemma WrapNegativeAngle()
    ensures WrapDegrees(-10.0) == 350.0
  {
    WrapDegreesUnique(-10.0, 350.0, -1);
  }

  /** Sort key of `display`: `child.distance_from_camera(offset)`. The
      distance itself needs a square root, so it is a parameter. */
  function DepthKey(depth: (Drawable, Vector3) -> real, offset: Vector3): Drawable -> real {
    d => depth(d, offset)
  }

  class Environment {
    /** Negated world position of the camera. */
    var offset: Vector3
    /** Euler angles in degrees. */
    var rotation: Vector3
    var fov: int
    var children: seq<Drawable>

    constructor (fov: int)
      ensures offset == Zero && rotation == Zero && this.fov == fov && children == []
    {
      offset := Zero;
      rotation := Zero;
      this.fov := fov;
      children := [];
    }

    method AddChild(child: Drawable)
      modifies this`children
      ensures children == old(children) + [child]
    {
      children := children + [child];
    }

    /** After `set_camera(p)` the offset is the inverse of p. */
    method SetCamera(position: Vector3)
      modifies this`offset
      ensures Add(offset, position) == Zero
      ensures offset == Neg(position)
    {
      offset := Neg(position);
    }

    /** `move_camera`: the step is turned by the inverse camera rotation
        (`rotate`, trigonometric, is a parameter) and added to the offset. */
    method MoveCamera(step: Vector3, rotate: (Vector3, Vector3) -> Vector3)
      modifies this`offset
      ensures offset == Add(old(offset), rotate(step, Neg(rotation)))
    {
      offset := Add(offset, rotate(step, Neg(rotation)));
    }

    /** `rotate_camera(d)`: subtract d, then wrap every angle into [0, 360). */
    method RotateCamera(delta: Vector3)
      modifies this`rotation
      ensures rotation == Vector3(WrapDegrees(old(rotation).x - delta.x),
                                  WrapDegrees(old(rotation).y - delta.y),
                                  WrapDegrees(old(rotation).z - delta.z))
      ensures 0.0 <= rotation.x < 360.0 && 0.0 <= rotation.y < 360.0 && 0.0 <= rotation.z < 360.0
    {
      var r := Add(rotation, Neg(delta));
      r := r.(x := WrapDegrees(r.x));
      r := r.(y := WrapDegrees(r.y));
      r := r.(z := WrapDegrees(r.z));
      rotation := r;
    }

    /** `display`: the children that have `display`, in the order their
        `display` is called: farthest first, equal distances in list order. */
    method Display(depth: (Drawable, Vector3) -> real) returns (drawn: seq<Drawable>)
      ensures drawn == Displayable(SortDesc(children, DepthKey(depth, offset)))
      ensures NonIncreasing(drawn, DepthKey(depth, offset))
      ensures multiset(drawn) == multiset(Displayable(children))
    {
      var key := DepthKey(depth, offset);
      var order := SortDesc(children, key);
      drawn := [];
      for i := 0 to |order|
        invariant drawn == Displayable(order[..i])
      {
        assert order[..i + 1][..i] == order[..i];
        if HasDisplay(order[i]) {
          drawn := drawn + [order[i]];
        }
      }
      assert order[..|order|] == order;
      SortDescOrdered(children, key);
      DisplayableKeepsOrder(order, key);
      SortDescPermutes(children, key);
      DisplayablePermutes(order, children);
    }
  }
}
