/**
 * Geometric value types: an immutable position, a velocity and the integer
 * cell key of the uniform grid. Coordinates are integers here (the source
 * uses floating-point numbers).
 */
module Dto {

  /** A position on the plane; a frozen value, so moving yields a new one. */
  datatype Point = Point(x: int, y: int)

  /** A displacement applied by one move step (one unit of time). */
  datatype Velocity = Velocity(dx: int, dy: int)

  /** The integer coordinates of one square of the grid. */
  type CellKey = (int, int)

  /** The point reached from `p` after one step at velocity `v`. */
  function MoveTo(p: Point, v: Velocity): (q: Point)
    ensures q.x - p.x == v.dx && q.y - p.y == v.dy
  {
    Point(p.x + v.dx, p.y + v.dy)
  }

  /** The point reached from `p` after `n` successive steps at velocity `v`. */
  function Advance(p: Point, v: Velocity, n: nat): Point
  {
    if n == 0 then p else MoveTo(Advance(p, v, n - 1), v)
  }

  /** Moving at zero velocity leaves the point where it was. */
  lemma MoveToZero(p: Point)
    ensures MoveTo(p, Velocity(0, 0)) == p
  {
  }

  /** Two steps compose into one step by the sum of the velocities. */
  lemma MoveToCompose(p: Point, v1: Velocity, v2: Velocity)
    ensures MoveTo(MoveTo(p, v1), v2) == MoveTo(p, Velocity(v1.dx + v2.dx, v1.dy + v2.dy))
  {
  }

  /** The step from (12, 5) at velocity (-7, 3) lands on (5, 8). */
  lemma MoveToExample()
    ensures MoveTo(Point(12, 5), Velocity(-7, 3)) == Point(5, 8)
  {
  }

  /** `n` steps at a constant velocity displace the point by `n` times that velocity. */
  lemma {:induction false} AdvanceClosedForm(p: Point, v: Velocity, n: nat)
    ensures Advance(p, v, n) == Point(p.x + n * v.dx, p.y + n * v.dy)
  {
    if n > 0 {
      AdvanceClosedForm(p, v, n - 1);
      assert n * v.dx == (n - 1) * v.dx + v.dx;
      assert n * v.dy == (n - 1) * v.dy + v.dy;
    }
  }

  /** Advancing `m` steps and then `n` more is advancing `m + n` steps. */
  lemma {:induction false} AdvanceAdditive(p: Point, v: Velocity, m: nat, n: nat)
    ensures Advance(Advance(p, v, m), v, n) == Advance(p, v, m + n)
  {
    if n > 0 {
      AdvanceAdditive(p, v, m, n - 1);
    }
  }
}
