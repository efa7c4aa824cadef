/** Integer vectors and rectangles (cinder's `Vec2i` and `Area`). */
module Geometry {
  import opened CppArith

  datatype Vec2 = Vec2(x: int, y: int)

  /** Component-wise minimum of two vectors. */
  function MinVec(a: Vec2, b: Vec2): (r: Vec2)
    ensures r.x <= a.x && r.x <= b.x && (r.x == a.x || r.x == b.x)
    ensures r.y <= a.y && r.y <= b.y && (r.y == a.y || r.y == b.y)
  {
    Vec2(Min(a.x, b.x), Min(a.y, b.y))
  }

  /** `reduce_max(abs(a - b))`: the Chebyshev distance between two cells. */
  function Chebyshev(a: Vec2, b: Vec2): (d: nat)
    ensures d >= Abs(a.x - b.x) && d >= Abs(a.y - b.y)
    ensures d == Abs(a.x - b.x) || d == Abs(a.y - b.y)
    ensures d == 0 <==> a == b
  {
    Max(Abs(a.x - b.x), Abs(a.y - b.y))
  }

  /** An integer rectangle from corner (x1, y1) to corner (x2, y2). */
  datatype Area = Area(x1: int, y1: int, x2: int, y2: int)
  {
    function Width(): int { x2 - x1 }
    function Height(): int { y2 - y1 }
  }
}
