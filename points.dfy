/** Grid points and the four-way reflection of one stepping offset onto the
    four quadrants of the circle (`_get_circle_quadrants` once its arguments
    are known to be int pairs). */
module Points {

  /** A grid point or offset (x, y). */
  type Point = (int, int)

  /** n squared, the `n ** 2` of the source. */
  function Sq(n: int): int {
    n * n
  }

  lemma SqStep(n: int)
    ensures Sq(n + 1) == Sq(n) + 2 * n + 1
  {
  }

  lemma SqNonNegative(n: int)
    ensures 0 <= Sq(n)
  {
  }

  /** Squared Euclidean distance between two grid points. */
  function SqDist(c: Point, p: Point): int {
    Sq(p.0 - c.0) + Sq(p.1 - c.1)
  }

  /** p turned a quarter turn about c: the offset (dx, dy) becomes (-dy, dx). */
  function QuarterTurn(c: Point, p: Point): Point {
    (c.0 - (p.1 - c.1), c.1 + (p.0 - c.0))
  }

  /** The four points derived from offset o about center c, in the order
      I, II, III, IV. The first is the offset mirrored in x; each next point is
      the previous one turned a quarter turn about c, and four turns close
      the cycle. */
  function Quadrants(c: Point, o: Point): (r: seq<Point>)
    ensures |r| == 4
    ensures r[0] == (c.0 - o.0, c.1 + o.1)
    ensures r[1] == QuarterTurn(c, r[0]) && r[2] == QuarterTurn(c, r[1]) && r[3] == QuarterTurn(c, r[2])
    ensures QuarterTurn(c, r[3]) == r[0]
  {
    [ (c.0 - o.0, c.1 + o.1),
      (c.0 - o.1, c.1 - o.0),
      (c.0 + o.0, c.1 - o.1),
      (c.0 + o.1, c.1 + o.0) ]
  }

  /** All four points lie at the offset's squared length from c. */
  lemma QuadrantsOnCircle(c: Point, o: Point)
    ensures forall k :: 0 <= k < 4 ==> SqDist(c, Quadrants(c, o)[k]) == Sq(o.0) + Sq(o.1)
  {
    var q := Quadrants(c, o);
    assert Sq(-o.0) == Sq(o.0) && Sq(-o.1) == Sq(o.1);
  }

  /** An offset (-d, 0) on the axis yields the four axis points at distance d,
      starting to the right and turning counter-clockwise. */
  lemma AxisQuadrants(c: Point, d: int)
    ensures Quadrants(c, (-d, 0)) == [(c.0 + d, c.1), (c.0, c.1 + d), (c.0 - d, c.1), (c.0, c.1 - d)]
  {
  }

  /** The two documented reflections. */
  lemma QuadrantsExamples()
    ensures Quadrants((50, 50), (-2, 0)) == [(52, 50), (50, 52), (48, 50), (50, 48)]
    ensures Quadrants((50, 50), (-1, 0)) == [(51, 50), (50, 51), (49, 50), (50, 49)]
  {
  }
}
