/** The interior scan (`_get_vectors_inside_circle` once its arguments are
    known to be ints): a row-major scan of the square [-r, r] x [-r, r] about
    the center that keeps the offsets inside the closed disk of radius r. */
module Interior {
  import opened Points

  /** The scan's test: `x ** 2 + y ** 2 <= radius ** 2`. */
  predicate InDisk(dx: int, dy: int, r: int) {
    Sq(dx) + Sq(dy) <= Sq(r)
  }

  /** Row-major order: an earlier row, or the same row further left. */
  predicate Before(p: Point, q: Point) {
    p.1 < q.1 || (p.1 == q.1 && p.0 < q.0)
  }

  /** Every element comes strictly before every later one. */
  predicate RowMajor(s: seq<Point>) {
    forall i, j :: 0 <= i < j < |s| ==> Before(s[i], s[j])
  }

  /** What the inner loop has appended on row dy once dx has run from -r up
      to hi - 1. */
  function RowScan(c: Point, r: int, dy: int, hi: int): seq<Point>
    decreases hi + r
  {
    if hi <= -r then []
    else
      RowScan(c, r, dy, hi - 1) +
      (if InDisk(hi - 1, dy, r) then [(c.0 + hi - 1, c.1 + dy)] else [])
  }

  /** What the outer loop has appended once dy has run from -r up to hi - 1. */
  function DiskScan(c: Point, r: int, hi: int): seq<Point>
    decreases hi + r
  {
    if hi <= -r then [] else DiskScan(c, r, hi - 1) + RowScan(c, r, hi - 1, r + 1)
  }

  /** The whole scan: both loops run over range(-r, r + 1). */
  function Disk(c: Point, r: int): seq<Point> {
    DiskScan(c, r, r + 1)
  }

  /** The nested scan over the bounding square, appending in place. */
  method VectorsInsideCircle(c: Point, r: int) returns (pts: seq<Point>)
    ensures pts == Disk(c, r)
  {
    pts := [];
    var y := -r;
    while y < r + 1
      invariant -r <= y && (y <= r + 1 || y == -r)
      invariant pts == DiskScan(c, r, y)
    {
      var x := -r;
      while x < r + 1
        invariant -r <= x <= r + 1
        invariant pts == DiskScan(c, r, y) + RowScan(c, r, y, x)
      {
        assert x * x + y * y <= r * r <==> InDisk(x, y, r);
        if x * x + y * y <= r * r {
          pts := pts + [(c.0 + x, c.1 + y)];
        }
        x := x + 1;
      }
      y := y + 1;
    }
  }

  /** Squaring preserves and reflects the order of non-negative numbers. */
  lemma SquareOrder(a: int, b: int)
    requires 0 <= a && 0 <= b
    ensures a <= b <==> Sq(a) <= Sq(b)
  {
    if a <= b {
      var e := b - a;
      assert b * b == a * a + 2 * a * e + e * e;
      assert a * e >= 0 && e * e >= 0;
    } else {
      var e := a - b;
      assert a * a == b * b + 2 * b * e + e * e;
      assert b * e >= 0 && e * e > 0;
    }
  }

  /** An offset whose square is at most r squared, r >= 0, lies in [-r, r]. */
  lemma SquareBound(d: int, r: int)
    requires 0 <= r && Sq(d) <= Sq(r)
    ensures -r <= d <= r
  {
    var m := if d < 0 then -d else d;
    assert Sq(m) == Sq(d);
    SquareOrder(m, r);
  }

  /** A sum of two squares bounds each square. */
  lemma DiskBoundsOffsets(dx: int, dy: int, r: int)
    requires 0 <= r && InDisk(dx, dy, r)
    ensures -r <= dx <= r && -r <= dy <= r
  {
    SqNonNegative(dx);
    SqNonNegative(dy);
    SquareBound(dx, r);
    SquareBound(dy, r);
  }

  /** The row scan holds exactly the row's disk points left of hi, in order. */
  lemma {:induction false} RowScanSpec(c: Point, r: int, dy: int, hi: int)
    ensures forall p :: p in RowScan(c, r, dy, hi) <==>
              p.1 == c.1 + dy && -r <= p.0 - c.0 < hi && InDisk(p.0 - c.0, dy, r)
    ensures RowMajor(RowScan(c, r, dy, hi))
    decreases hi + r
  {
    if hi > -r {
      RowScanSpec(c, r, dy, hi - 1);
      var prev := RowScan(c, r, dy, hi - 1);
      var s := RowScan(c, r, dy, hi);
      assert s == prev + (if InDisk(hi - 1, dy, r) then [(c.0 + hi - 1, c.1 + dy)] else []);
      forall i, j | 0 <= i < j < |s| ensures Before(s[i], s[j]) {
        if j >= |prev| {
          assert s[i] in prev;
        }
      }
    }
  }

  /** The partial scan holds exactly the disk points of the rows above hi,
      within the bounding square, in row-major order. */
  lemma {:induction false} DiskScanSpec(c: Point, r: int, hi: int)
    ensures forall p :: p in DiskScan(c, r, hi) <==>
              -r <= p.1 - c.1 < hi && -r <= p.0 - c.0 <= r && InDisk(p.0 - c.0, p.1 - c.1, r)
    ensures RowMajor(DiskScan(c, r, hi))
    decreases hi + r
  {
    if hi > -r {
      DiskScanSpec(c, r, hi - 1);
      RowScanSpec(c, r, hi - 1, r + 1);
      var prev := DiskScan(c, r, hi - 1);
      var row := RowScan(c, r, hi - 1, r + 1);
      var s := DiskScan(c, r, hi);
      assert s == prev + row;
      forall p ensures p in s <==> p in prev || p in row {
      }
      forall i, j | 0 <= i < j < |s| ensures Before(s[i], s[j]) {
        if i < |prev| && j >= |prev| {
          assert s[i] in prev && s[j] == row[j - |prev|];
          assert s[j] in row;
        } else if i >= |prev| {
          assert s[i] == row[i - |prev|] && s[j] == row[j - |prev|];
        }
      }
    }
  }

  /** The scan yields a point exactly when r >= 0 and the point lies in the
      closed disk of radius r about c, with no point twice, in row-major order
      (rows by ascending dy, within a row by ascending dx). */
  lemma DiskSpec(c: Point, r: int)
    ensures forall p :: p in Disk(c, r) <==> 0 <= r && InDisk(p.0 - c.0, p.1 - c.1, r)
    ensures RowMajor(Disk(c, r))
    ensures forall i, j :: 0 <= i < j < |Disk(c, r)| ==> Disk(c, r)[i] != Disk(c, r)[j]
  {
    DiskScanSpec(c, r, r + 1);
    forall p: Point | 0 <= r && InDisk(p.0 - c.0, p.1 - c.1, r) ensures p in Disk(c, r) {
      DiskBoundsOffsets(p.0 - c.0, p.1 - c.1, r);
    }
  }

  /** Radius 0 yields the center alone and a negative radius nothing. */
  lemma SmallDiskExamples(c: Point)
    ensures Disk(c, 0) == [c]
    ensures Disk(c, -3) == []
  {
    assert RowScan(c, 0, 0, 1) == [(c.0 + 0, c.1 + 0)];
  }

  /** The documented radius-1 scan. */
  lemma RadiusOneDiskExample()
    ensures Disk((25, 25), 1) == [(25, 24), (24, 25), (25, 25), (26, 25), (25, 26)]
  {
    var c := (25, 25);
    assert RowScan(c, 1, -1, 2) == [(25, 24)];
    assert RowScan(c, 1, 0, 2) == [(24, 25), (25, 25), (26, 25)];
    assert RowScan(c, 1, 1, 2) == [(25, 26)];
  }

  /** The radius-2 scan is its five rows, top to bottom. */
  lemma DiskTwoByRows(c: Point)
    ensures Disk(c, 2) == RowScan(c, 2, -2, 3) + RowScan(c, 2, -1, 3) + RowScan(c, 2, 0, 3) +
                          RowScan(c, 2, 1, 3) + RowScan(c, 2, 2, 3)
  {
    assert DiskScan(c, 2, -2) == [];
  }

  /** The top and bottom rows of the radius-2 scan about (50, 50). */
  lemma RadiusTwoEdgeRows()
    ensures RowScan((50, 50), 2, -2, 3) == [(50, 48)]
    ensures RowScan((50, 50), 2, 2, 3) == [(50, 52)]
  {
  }

  /** The rows next to the middle of the radius-2 scan about (50, 50). */
  lemma RadiusTwoInnerRows()
    ensures RowScan((50, 50), 2, -1, 3) == [(49, 49), (50, 49), (51, 49)]
    ensures RowScan((50, 50), 2, 1, 3) == [(49, 51), (50, 51), (51, 51)]
  {
  }

  /** The middle row of the radius-2 scan about (50, 50). */
  lemma RadiusTwoMiddleRow()
    ensures RowScan((50, 50), 2, 0, 3) == [(48, 50), (49, 50), (50, 50), (51, 50), (52, 50)]
  {
  }

  /** The documented radius-2 scan, row by row. */
  lemma RadiusTwoDiskExample()
    ensures Disk((50, 50), 2) ==
              [(50, 48), (49, 49), (50, 49), (51, 49), (48, 50), (49, 50), (50, 50),
               (51, 50), (52, 50), (49, 51), (50, 51), (51, 51), (50, 52)]
  {
    var c := (50, 50);
    DiskTwoByRows(c);
    RadiusTwoEdgeRows();
    RadiusTwoInnerRows();
    RadiusTwoMiddleRow();
  }
}
