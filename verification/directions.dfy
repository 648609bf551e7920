/** Grid vectors and the "dominant axis" rule that both the swipe handler and
    the enemy AI use to turn an integer offset into one of the four unit
    directions. */
module Directions {

  /** A grid vector (x, y); y grows upwards. */
  type Vec = (int, int)

  const Up: Vec := (0, 1)
  const Right: Vec := (1, 0)
  const Down: Vec := (0, -1)
  const Left: Vec := (-1, 0)

  predicate IsUnitVec(d: Vec) {
    d == Up || d == Right || d == Down || d == Left
  }

  function Abs(n: int): nat { if n < 0 then -n else n }

  function Add(p: Vec, d: Vec): Vec { (p.0 + d.0, p.1 + d.1) }

  function Sub(p: Vec, q: Vec): Vec { (p.0 - q.0, p.1 - q.1) }

  function Dot(a: Vec, b: Vec): int { a.0 * b.0 + a.1 * b.1 }

  /** Horizontal when the horizontal extent is strictly larger, vertical
      otherwise; each component points the way the offset does, with 0 read as
      negative. The result is a unit direction whose projection onto the offset
      is the larger of the two extents, and the zero offset gives Down. */
  function DominantDirection(off: Vec): (d: Vec)
    ensures IsUnitVec(d)
    ensures d.0 != 0 <==> Abs(off.0) > Abs(off.1)
    ensures Dot(d, off) == (if Abs(off.0) > Abs(off.1) then Abs(off.0) else Abs(off.1))
    ensures off == (0, 0) ==> d == Down
  {
    if Abs(off.0) > Abs(off.1) then (if off.0 > 0 then 1 else -1, 0)
    else (0, if off.1 > 0 then 1 else -1)
  }
}
