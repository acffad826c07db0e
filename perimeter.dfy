/** The perimeter generator (`get_circle_vectors` once its arguments are known
    to be ints): the x = -r, y = 0, error = 2 - 2r variant of the midpoint
    circle algorithm, run as a `while x < 0` loop that emits the four quadrant
    points of every offset it visits, optionally followed by the interior scan.

    The source reuses its `radius` parameter inside the loop (`radius = error`),
    and the fill pass reads that variable after the loop: the fill radius is the
    error value the last pass started with, not the caller's radius. */
module Perimeter {
  import opened Points
  import opened Interior

  /** The loop's variables at its head. `radius` is the reused parameter: the
      caller's radius before the first pass, afterwards the error value that
      the latest pass started with. */
  datatype LoopState = LoopState(x: int, y: int, error: int, radius: int)

  /** The state before the first pass, for the caller's radius r. */
  function Start(r: int): LoopState {
    LoopState(-r, 0, 2 - 2 * r, r)
  }

  /** The offset a pass reflects onto the four quadrants. */
  function Offset(s: LoopState): Point {
    (s.x, s.y)
  }

  /** One pass of the loop body, apart from the points it emits. */
  function Step(s: LoopState): LoopState {
    var radius := s.error;
    var y := if radius <= s.y then s.y + 1 else s.y;
    var e := if radius <= s.y then s.error + y * 2 + 1 else s.error;
    var x := if radius > s.x || e > y then s.x + 1 else s.x;
    var e' := if radius > s.x || e > y then e + x * 2 + 1 else e;
    LoopState(x, y, e', radius)
  }

  /** The quantity the error variable tracks for radius r at offset (x, y):
      how far (x + 1, y + 1) lies outside the circle, in squared units. */
  function ErrorTerm(x: int, y: int, r: int): int {
    Sq(x + 1) + Sq(y + 1) - Sq(r)
  }

  /** The loop invariant for the caller's radius r: the error variable equals
      ErrorTerm; for r >= 1 the offset stays within -r <= x <= 0, 0 <= y <= r,
      and for r <= 0 the state is the start state, whose x already ends the loop. */
  predicate Inv(r: int, s: LoopState) {
    && s.error == ErrorTerm(s.x, s.y, r)
    && if 0 < r then -r <= s.x <= 0 && 0 <= s.y <= r else s.x == -r && s.y == 0
  }

  lemma StartInv(r: int)
    ensures Inv(r, Start(r))
  {
    SqStep(-r);
    SqStep(r - 1);
    assert Sq(-r + 1) == Sq(r - 1);
  }

  /** One pass keeps the invariant and records the error it started with in
      `radius`. It raises each of x and y by at most one and at least one of
      them by one, so (r - y) + (-x) decreases and never goes below zero. */
  lemma StepKeepsInv(r: int, s: LoopState)
    requires Inv(r, s) && s.x < 0
    ensures Inv(r, Step(s))
    ensures s.x <= Step(s).x <= s.x + 1 && s.y <= Step(s).y <= s.y + 1
    ensures s.x + s.y < Step(s).x + Step(s).y
    ensures Step(s).radius == s.error
    ensures 0 < r - s.x - s.y
  {
    var radius := s.error;
    SqStep(s.y + 1);
    SqStep(s.x + 1);
    if radius <= s.y {
      // on the row y = r the error is at least 2r + 1 > y, so y stays within [0, r]
      SqNonNegative(s.x + 1);
      SqStep(r);
      assert s.y < r;
    }
    var y := if radius <= s.y then s.y + 1 else s.y;
    var e := if radius <= s.y then s.error + y * 2 + 1 else s.error;
    assert e == ErrorTerm(s.x, y, r);
  }

  /** The states at the heads of all passes from s on, in order. */
  function Heads(r: int, s: LoopState): seq<LoopState>
    requires Inv(r, s)
    decreases r - s.x - s.y
  {
    if s.x >= 0 then []
    else
      StepKeepsInv(r, s);
      [s] + Heads(r, Step(s))
  }

  /** The state in which the loop, started in s, exits. */
  function Exit(r: int, s: LoopState): LoopState
    requires Inv(r, s)
    decreases r - s.x - s.y
  {
    if s.x >= 0 then s
    else
      StepKeepsInv(r, s);
      Exit(r, Step(s))
  }

  /** One pass peels the first head off and leads to the same exit. */
  lemma HeadsUnfold(r: int, s: LoopState)
    requires Inv(r, s) && s.x < 0
    ensures Inv(r, Step(s))
    ensures Heads(r, s) == [s] + Heads(r, Step(s))
    ensures Exit(r, s) == Exit(r, Step(s))
  {
    StepKeepsInv(r, s);
  }

  /** The bookkeeping of one pass: the head moves from the pending heads to
      the visited ones, and its quadrant points join the outline. */
  lemma AdvancePass(c: Point, r: int, done: seq<LoopState>, cur: LoopState, pts: seq<Point>)
    requires Inv(r, cur) && cur.x < 0
    requires done + Heads(r, cur) == Passes(r)
    requires pts == Outline(c, done)
    ensures Inv(r, Step(cur))
    ensures (done + [cur]) + Heads(r, Step(cur)) == Passes(r)
    ensures Exit(r, Step(cur)) == Exit(r, cur)
    ensures pts + Quadrants(c, Offset(cur)) == Outline(c, done + [cur])
  {
    HeadsUnfold(r, cur);
    assert (done + [cur]) + Heads(r, Step(cur)) == done + ([cur] + Heads(r, Step(cur)));
    assert (done + [cur])[..|done|] == done;
  }

  /** The points emitted after passing through the heads hs: the four quadrant
      points of each head's offset, pass after pass. */
  function Outline(c: Point, hs: seq<LoopState>): seq<Point>
  {
    if hs == [] then [] else Outline(c, hs[..|hs| - 1]) + Quadrants(c, Offset(hs[|hs| - 1]))
  }

  /** The heads of all passes for the caller's radius r. */
  function Passes(r: int): seq<LoopState> {
    StartInv(r);
    Heads(r, Start(r))
  }

  /** The value the reused `radius` variable holds once the loop has exited. */
  function FillRadius(r: int): int {
    StartInv(r);
    Exit(r, Start(r)).radius
  }

  /** What `get_circle_vectors` returns for an int center c and int radius r:
      the outline of every pass, then, with fill, the interior scan for the
      value `radius` holds when the loop exits. */
  function CircleVectorsSpec(c: Point, r: int, fill: bool): seq<Point>
  {
    Outline(c, Passes(r)) + (if fill then Disk(c, FillRadius(r)) else [])
  }

  /** The stepping loop, extending the point list in place. */
  method CircleVectors(c: Point, radius: int, fill: bool) returns (pts: seq<Point>)
    ensures pts == CircleVectorsSpec(c, radius, fill)
  {
    pts := [];
    // the source assigns to `radius` itself; Dafny parameters are immutable
    var rad := radius;
    var x, y, error := -radius, 0, 2 - 2 * radius;
    ghost var done: seq<LoopState> := [];
    StartInv(radius);
    while x < 0
      invariant Inv(radius, LoopState(x, y, error, rad))
      invariant done + Heads(radius, LoopState(x, y, error, rad)) == Passes(radius)
      invariant Exit(radius, LoopState(x, y, error, rad)).radius == FillRadius(radius)
      invariant pts == Outline(c, done)
      decreases radius - x - y
    {
      ghost var cur := LoopState(x, y, error, rad);
      AdvancePass(c, radius, done, cur, pts);
      pts := pts + Quadrants(c, (x, y));
      done := done + [cur];
      rad := error;
      if rad <= y {
        y := y + 1;
        error := error + y * 2 + 1;
      }
      if rad > x || error > y {
        x := x + 1;
        error := error + x * 2 + 1;
      }
      assert LoopState(x, y, error, rad) == Step(cur);
    }
    assert Heads(radius, LoopState(x, y, error, rad)) == [];
    assert done == Passes(radius);
    if fill {
      var inside := VectorsInsideCircle(c, rad);
      pts := pts + inside;
    }
  }
}
