/**
 * The part of Shapely that `validate_coordinates` relies on: a polygon shell given as a
 * coordinate list, and `Polygon.contains(Point)`, which holds exactly for points in the
 * interior (points on the boundary are not contained).
 *
 * The interior is decided as GEOS decides it for a point and a ring: the point is on the
 * boundary when it lies on one of the ring's edges; otherwise it is inside when a ray
 * from it towards increasing x crosses the edges an odd number of times, each edge
 * counted with its lower end included and its upper end excluded.
 */
module Geometry {
  datatype Point = Point(x: real, y: real)

  function Min(a: real, b: real): real { if a <= b then a else b }
  function Max(a: real, b: real): real { if a <= b then b else a }

  /** `p` lies on the closed segment from `a` to `b`. */
  predicate OnSegment(p: Point, a: Point, b: Point) {
    (b.x - a.x) * (p.y - a.y) == (b.y - a.y) * (p.x - a.x)
    && Min(a.x, b.x) <= p.x <= Max(a.x, b.x)
    && Min(a.y, b.y) <= p.y <= Max(a.y, b.y)
  }

  /** The edge from `a` to `b` crosses the ray from `p` towards increasing x. */
  predicate CrossesRay(p: Point, a: Point, b: Point) {
    (a.y > p.y) != (b.y > p.y)
    && p.x < a.x + (p.y - a.y) * (b.x - a.x) / (b.y - a.y)
  }

  /** The vertex after vertex `i`; Shapely closes an open shell back to its first vertex. */
  function Next(ring: seq<Point>, i: nat): Point
    requires i < |ring|
  {
    if i + 1 < |ring| then ring[i + 1] else ring[0]
  }

  /** The number of vertices of the closed shell Shapely builds from the list. */
  function ShellSize(ring: seq<Point>): nat {
    if ring != [] && ring[0] == ring[|ring| - 1] then |ring| else |ring| + 1
  }

  /** Shapely refuses a shell of fewer than four coordinates, once closed. */
  predicate IsShell(ring: seq<Point>) {
    ShellSize(ring) >= 4
  }

  predicate OnBoundary(ring: seq<Point>, p: Point) {
    exists i :: 0 <= i < |ring| && OnSegment(p, ring[i], Next(ring, i))
  }

  /** Crossings of the ray from `p` with the edges that start at vertex `i` or later. */
  function Crossings(ring: seq<Point>, p: Point, i: nat): nat
    requires i <= |ring|
    decreases |ring| - i
  {
    if i == |ring| then 0
    else (if CrossesRay(p, ring[i], Next(ring, i)) then 1 else 0) + Crossings(ring, p, i + 1)
  }

  /** `Polygon(ring).contains(p)`: `p` is in the interior. */
  predicate Contains(ring: seq<Point>, p: Point) {
    !OnBoundary(ring, p) && Crossings(ring, p, 0) % 2 == 1
  }

  /** A vertex of the shell is on its boundary, so it is never contained. */
  lemma {:induction false} VerticesAreNotContained(ring: seq<Point>, i: nat)
    requires i < |ring|
    ensures !Contains(ring, ring[i])
  {
    assert OnSegment(ring[i], ring[i], Next(ring, i));
  }

  /** No edge crosses a horizontal line that no vertex reaches. */
  lemma {:induction false} NoCrossingsBeyondTheRing(ring: seq<Point>, p: Point, i: nat)
    requires i <= |ring|
    requires (forall k :: 0 <= k < |ring| ==> ring[k].y > p.y) || (forall k :: 0 <= k < |ring| ==> ring[k].y <= p.y)
    ensures Crossings(ring, p, i) == 0
    decreases |ring| - i
  {
    if i < |ring| {
      assert !CrossesRay(p, ring[i], Next(ring, i));
      NoCrossingsBeyondTheRing(ring, p, i + 1);
    }
  }

  /** A point above or below every vertex is not contained. */
  lemma {:induction false} OutsideTheLatitudeBandIsNotContained(ring: seq<Point>, p: Point)
    requires (forall k :: 0 <= k < |ring| ==> ring[k].y > p.y) || (forall k :: 0 <= k < |ring| ==> ring[k].y < p.y)
    ensures !Contains(ring, p)
  {
    NoCrossingsBeyondTheRing(ring, p, 0);
  }

  /** The closed shell of an axis-parallel rectangle, listed as a zone file lists it. */
  function Rectangle(x0: real, x1: real, y0: real, y1: real): seq<Point> {
    [Point(x0, y0), Point(x0, y1), Point(x1, y1), Point(x1, y0), Point(x0, y0)]
  }

  lemma {:induction false} VerticalEdgeCrossing(p: Point, x: real, ya: real, yb: real)
    ensures CrossesRay(p, Point(x, ya), Point(x, yb)) <==> (ya > p.y) != (yb > p.y) && p.x < x
  {
    if ya != yb {
      assert (p.y - ya) * (x - x) / (yb - ya) == 0.0;
    }
  }

  lemma {:induction false} HorizontalEdgeCrossing(p: Point, xa: real, xb: real, y: real)
    ensures !CrossesRay(p, Point(xa, y), Point(xb, y))
  {
  }

  /** Only the two vertical sides can cross the ray, each when `p` is level with it and to its left. */
  lemma {:induction false} RectangleCrossings(x0: real, x1: real, y0: real, y1: real, p: Point)
    requires x0 < x1 && y0 < y1
    ensures Crossings(Rectangle(x0, x1, y0, y1), p, 0)
            == (if y0 <= p.y < y1 && p.x < x0 then 1 else 0) + (if y0 <= p.y < y1 && p.x < x1 then 1 else 0)
  {
    var r := Rectangle(x0, x1, y0, y1);
    VerticalEdgeCrossing(p, x0, y0, y1);
    HorizontalEdgeCrossing(p, x0, x1, y1);
    VerticalEdgeCrossing(p, x1, y1, y0);
    HorizontalEdgeCrossing(p, x1, x0, y0);
    HorizontalEdgeCrossing(p, x0, x0, y0);
    assert Next(r, 0) == r[1] && Next(r, 1) == r[2] && Next(r, 2) == r[3] && Next(r, 3) == r[4] && Next(r, 4) == r[0];
    assert Crossings(r, p, 4) == 0;
    assert Crossings(r, p, 3) == 0;
    assert Crossings(r, p, 1) == Crossings(r, p, 2);
  }

  lemma {:induction false} NonzeroFactor(a: real, b: real)
    requires a != 0.0
    ensures a * b == 0.0 <==> b == 0.0
  {
    if b != 0.0 {
      assert a * b != 0.0 by {
        if (a > 0.0 && b > 0.0) || (a < 0.0 && b < 0.0) {
          assert a * b > 0.0;
        } else {
          assert a * b < 0.0;
        }
      }
    }
  }

  /** `p` lies on the side from (xa, ya) to (xb, yb), which is vertical or horizontal. */
  lemma {:induction false} SideMembership(p: Point, xa: real, ya: real, xb: real, yb: real)
    requires (xa == xb) != (ya == yb)
    ensures OnSegment(p, Point(xa, ya), Point(xb, yb))
            <==> (if xa == xb then p.x == xa && Min(ya, yb) <= p.y <= Max(ya, yb)
                  else p.y == ya && Min(xa, xb) <= p.x <= Max(xa, xb))
  {
    if xa == xb {
      NonzeroFactor(yb - ya, p.x - xa);
    } else {
      NonzeroFactor(xb - xa, p.y - ya);
    }
  }

  /** The boundary of a rectangle is its four sides. */
  lemma {:induction false} RectangleBoundary(x0: real, x1: real, y0: real, y1: real, p: Point)
    requires x0 < x1 && y0 < y1
    ensures OnBoundary(Rectangle(x0, x1, y0, y1), p)
            <==> ((p.x == x0 || p.x == x1) && y0 <= p.y <= y1) || ((p.y == y0 || p.y == y1) && x0 <= p.x <= x1)
  {
    var r := Rectangle(x0, x1, y0, y1);
    SideMembership(p, x0, y0, x0, y1);
    SideMembership(p, x0, y1, x1, y1);
    SideMembership(p, x1, y1, x1, y0);
    SideMembership(p, x1, y0, x0, y0);
    assert Next(r, 0) == r[1] && Next(r, 1) == r[2] && Next(r, 2) == r[3] && Next(r, 3) == r[4] && Next(r, 4) == r[0];
    assert OnSegment(p, r[4], Next(r, 4)) ==> p == r[0];
    if OnBoundary(r, p) {
      var i :| 0 <= i < |r| && OnSegment(p, r[i], Next(r, i));
      assert i < 4 || p == r[0];
    } else {
      assert !OnSegment(p, r[0], r[1]) && !OnSegment(p, r[1], r[2]);
      assert !OnSegment(p, r[2], r[3]) && !OnSegment(p, r[3], r[4]);
    }
  }

  /** A rectangle contains exactly the points strictly inside it. */
  lemma {:induction false} RectangleContainsItsInterior(x0: real, x1: real, y0: real, y1: real, p: Point)
    requires x0 < x1 && y0 < y1
    ensures Contains(Rectangle(x0, x1, y0, y1), p) <==> x0 < p.x < x1 && y0 < p.y < y1
  {
    RectangleCrossings(x0, x1, y0, y1, p);
    RectangleBoundary(x0, x1, y0, y1, p);
  }
}
