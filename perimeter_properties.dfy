/** What the stepping loop visits, proved about the specification functions
    of the Perimeter module: the shape of the passes, the outline they emit,
    the radius left behind for the fill pass, and the documented examples. */
module PerimeterProperties {
  import opened Points
  import opened Interior
  import opened Perimeter

  /** The heads from s on: each keeps the invariant and has x < 0; consecutive
      heads are one pass apart; the first is s itself and the last has x = -1,
      whose pass is the one after which the loop exits. */
  lemma {:induction false} HeadsSpec(r: int, s: LoopState)
    requires Inv(r, s)
    ensures var hs := Heads(r, s);
      && (forall k :: 0 <= k < |hs| ==>
            Inv(r, hs[k]) && s.x <= hs[k].x < 0 && s.y <= hs[k].y)
      && (forall k :: 0 <= k < |hs| - 1 ==> hs[k + 1] == Step(hs[k]))
      && (hs == [] <==> 0 <= s.x)
      && (hs == [] ==> Exit(r, s) == s)
      && (s.x < 0 ==> Exit(r, s).x == 0 && Inv(r, Exit(r, s)))
      && (hs != [] ==> hs[0] == s && hs[|hs| - 1].x == -1 && Exit(r, s) == Step(hs[|hs| - 1]))
    decreases r - s.x - s.y
  {
    if s.x < 0 {
      StepKeepsInv(r, s);
      HeadsSpec(r, Step(s));
      var hs := Heads(r, s);
      var rest := Heads(r, Step(s));
      assert hs == [s] + rest;
      forall k | 0 <= k < |hs| - 1 ensures hs[k + 1] == Step(hs[k]) {
        if k > 0 {
          assert hs[k] == rest[k - 1] && hs[k + 1] == rest[k];
        }
      }
    }
  }

  /** Counting passes: x rises by at most one per pass and x + y by at least
      one, so from s the loop runs between (exit x - s.x) and
      (exit x + exit y) - (s.x + s.y) times. */
  lemma {:induction false} HeadsCount(r: int, s: LoopState)
    requires Inv(r, s)
    ensures Exit(r, s).x - s.x <= |Heads(r, s)|
    ensures |Heads(r, s)| <= (Exit(r, s).x + Exit(r, s).y) - (s.x + s.y)
    decreases r - s.x - s.y
  {
    if s.x < 0 {
      StepKeepsInv(r, s);
      HeadsCount(r, Step(s));
    }
  }

  /** The outline has four points per head: point k is quadrant point k % 4 of
      head k / 4, so it lies at that head's offset length from the center. */
  lemma {:induction false} OutlineSpec(c: Point, hs: seq<LoopState>)
    ensures |Outline(c, hs)| == 4 * |hs|
    ensures forall k :: 0 <= k < |Outline(c, hs)| ==>
              Outline(c, hs)[k] == Quadrants(c, Offset(hs[k / 4]))[k % 4]
    ensures forall k :: 0 <= k < |Outline(c, hs)| ==>
              SqDist(c, Outline(c, hs)[k]) == Sq(hs[k / 4].x) + Sq(hs[k / 4].y)
    decreases |hs|
  {
    if hs != [] {
      var init := hs[..|hs| - 1];
      OutlineSpec(c, init);
      var q := Quadrants(c, Offset(hs[|hs| - 1]));
      var o := Outline(c, hs);
      assert o == Outline(c, init) + q;
      forall k | 0 <= k < |o| ensures o[k] == Quadrants(c, Offset(hs[k / 4]))[k % 4] {
        if k < 4 * |init| {
          assert hs[k / 4] == init[k / 4];
        } else {
          assert k / 4 == |hs| - 1 && o[k] == q[k - 4 * |init|];
        }
      }
      forall k | 0 <= k < |o|
        ensures SqDist(c, o[k]) == Sq(hs[k / 4].x) + Sq(hs[k / 4].y)
      {
        QuadrantsOnCircle(c, Offset(hs[k / 4]));
      }
    }
  }

  /** The passes for the caller's radius r. For r <= 0 there are none. For
      r >= 1 the first visits (-r, 0), the last visits an offset with x = -1,
      and there are between r and 2r of them; every head keeps
      error == (x+1)^2 + (y+1)^2 - r^2 with -r <= x < 0 and 0 <= y <= r. */
  lemma PassesShape(r: int)
    ensures var hs := Passes(r);
      && (r <= 0 ==> hs == [])
      && (0 < r ==> hs != [] && Offset(hs[0]) == (-r, 0) && hs[|hs| - 1].x == -1)
      && (0 < r ==> r <= |hs| <= 2 * r)
      && (forall k :: 0 <= k < |hs| ==>
            && hs[k].error == ErrorTerm(hs[k].x, hs[k].y, r)
            && -r <= hs[k].x < 0 && 0 <= hs[k].y <= r)
  {
    StartInv(r);
    HeadsSpec(r, Start(r));
    HeadsCount(r, Start(r));
  }

  /** Between consecutive passes x and y each rise by at most one, and at
      least one of them rises; neither ever decreases. */
  lemma PassesSteps(r: int)
    ensures var hs := Passes(r);
      forall k :: 0 <= k < |hs| - 1 ==>
        && hs[k].x <= hs[k + 1].x <= hs[k].x + 1
        && hs[k].y <= hs[k + 1].y <= hs[k].y + 1
        && hs[k].x + hs[k].y < hs[k + 1].x + hs[k + 1].y
  {
    forall k | 0 <= k < |Passes(r)| - 1 {
      PassStep(r, k);
    }
  }

  /** Pass k + 1 starts where pass k's step leads. */
  lemma PassStep(r: int, k: int)
    requires 0 <= k < |Passes(r)| - 1
    ensures var s, t := Passes(r)[k], Passes(r)[k + 1];
      && s.x <= t.x <= s.x + 1 && s.y <= t.y <= s.y + 1 && s.x + s.y < t.x + t.y
  {
    StartInv(r);
    HeadsSpec(r, Start(r));
    var s := Passes(r)[k];
    assert Inv(r, s) && s.x < 0;
    assert Passes(r)[k + 1] == Step(s);
    StepKeepsInv(r, s);
  }


  /** Without fill the result is the perimeter alone: four points per pass,
      point k being quadrant point k % 4 of pass k / 4, so it lies at that
      pass's offset length from the center; for r <= 0 it is empty. */
  lemma PerimeterPoints(c: Point, r: int)
    ensures var hs := Passes(r);
      var pts := CircleVectorsSpec(c, r, false);
      && (r <= 0 ==> pts == [])
      && |pts| == 4 * |hs|
      && (forall k :: 0 <= k < |pts| ==> pts[k] == Quadrants(c, Offset(hs[k / 4]))[k % 4])
      && (forall k :: 0 <= k < |pts| ==>
            SqDist(c, pts[k]) == Sq(hs[k / 4].x) + Sq(hs[k / 4].y))
  {
    PassesShape(r);
    OutlineSpec(c, Passes(r));
    assert CircleVectorsSpec(c, r, false) == Outline(c, Passes(r));
  }

  /** The radius the fill pass uses. For r <= 0 the loop never runs and it is
      the caller's radius. For r >= 1 it is the error value the last pass
      started with, (y + 1)^2 - r^2 at that pass's offset (-1, y), and the
      loop can only have stopped with y = r - 1 or y = r, so it is 0 or 2r + 1. */
  lemma FillRadiusSpec(r: int)
    ensures var hs := Passes(r);
      var fr := FillRadius(r);
      && (r <= 0 ==> fr == r)
      && (0 < r ==> hs != [] && fr == hs[|hs| - 1].error)
      && (0 < r ==> fr == Sq(hs[|hs| - 1].y + 1) - Sq(r))
      && (0 < r ==> fr == 0 || fr == 2 * r + 1)
  {
    StartInv(r);
    var hs := Heads(r, Start(r));
    HeadsSpec(r, Start(r));
    if 0 < r {
      var last := hs[|hs| - 1];
      StepKeepsInv(r, last);
      LastPassRadius(r, last);
    }
  }

  /** A pass at x = -1 on a row y <= r - 2 cannot end the loop: the error is
      negative enough that y moves and x stays. */
  lemma LowRowKeepsLooping(r: int, s: LoopState)
    requires Inv(r, s) && s.x == -1 && s.y <= r - 2
    ensures Step(s).x == -1
  {
    var y1 := s.y + 1;
    // (y+1)^2 + (y+1) + 1 <= (r-1)^2 + (r-1) + 1 <= r^2
    SquareOrder(y1, r - 1);
    SqStep(r - 1);
    assert Sq(0) == 0;
    assert Sq(y1) + y1 + 1 <= Sq(r);
    SqStep(y1);
  }

  /** A pass that starts at x = -1 and ends the loop started with error 0 or
      2r + 1, on row r - 1 or r. */
  lemma LastPassRadius(r: int, s: LoopState)
    requires Inv(r, s) && s.x == -1 && Step(s).x == 0
    ensures s.error == Sq(s.y + 1) - Sq(r)
    ensures s.y == r - 1 || s.y == r
    ensures s.error == 0 || s.error == 2 * r + 1
  {
    assert Sq(0) == 0;
    if s.y <= r - 2 {
      LowRowKeepsLooping(r, s);
    }
    SqStep(r);
  }

  /** The outline of a single pass is that pass's four quadrant points. */
  lemma OutlineOfOne(c: Point, s: LoopState)
    ensures Outline(c, [s]) == Quadrants(c, Offset(s))
  {
    assert [s][..0] == [];
  }

  /** Outlines grow pass by pass at the end. */
  lemma OutlineSnoc(c: Point, hs: seq<LoopState>, s: LoopState)
    ensures Outline(c, hs + [s]) == Outline(c, hs) + Quadrants(c, Offset(s))
  {
    assert (hs + [s])[..|hs|] == hs;
  }

  /** A run of three passes: from s0 the loop steps to s1, s2 and s3 and
      stops there. */
  lemma ThreePasses(r: int, s0: LoopState, s1: LoopState, s2: LoopState, s3: LoopState)
    requires Inv(r, s0) && s0.x < 0 && s1 == Step(s0)
    requires s1.x < 0 && s2 == Step(s1) && s2.x < 0 && s3 == Step(s2) && 0 <= s3.x
    ensures Heads(r, s0) == [s0, s1, s2] && Exit(r, s0) == s3
  {
    HeadsUnfold(r, s0);
    HeadsUnfold(r, s1);
    HeadsUnfold(r, s2);
    assert Heads(r, s3) == [];
  }

  /** The steps of the radius-2 loop. */
  lemma RadiusTwoSteps()
    ensures Step(Start(2)) == LoopState(-2, 1, 1, -2)
    ensures Step(LoopState(-2, 1, 1, -2)) == LoopState(-1, 2, 5, 1)
    ensures Step(LoopState(-1, 2, 5, 1)) == LoopState(0, 2, 6, 5)
  {
  }

  /** The outline of three passes is their quadrant points, pass after pass. */
  lemma OutlineOfThree(c: Point, s0: LoopState, s1: LoopState, s2: LoopState)
    ensures Outline(c, [s0, s1, s2]) ==
              Quadrants(c, Offset(s0)) + Quadrants(c, Offset(s1)) + Quadrants(c, Offset(s2))
  {
    OutlineOfOne(c, s0);
    OutlineSnoc(c, [s0], s1);
    OutlineSnoc(c, [s0, s1], s2);
    assert [s0] + [s1] == [s0, s1] && [s0, s1] + [s2] == [s0, s1, s2];
  }

  /** Radius 2: three passes, at (-2, 0), (-2, 1) and (-1, 2); the last one
      starts with error 5, which the fill pass then uses as its radius. */
  lemma RadiusTwoPasses()
    ensures Passes(2) == [Start(2), LoopState(-2, 1, 1, -2), LoopState(-1, 2, 5, 1)]
    ensures FillRadius(2) == 5
  {
    StartInv(2);
    RadiusTwoSteps();
    ThreePasses(2, Start(2), LoopState(-2, 1, 1, -2), LoopState(-1, 2, 5, 1), LoopState(0, 2, 6, 5));
  }



  /** The outline of the three radius-2 passes about (50, 50). */
  lemma RadiusTwoOutline()
    ensures Outline((50, 50), [Start(2), LoopState(-2, 1, 1, -2), LoopState(-1, 2, 5, 1)]) ==
              [(52, 50), (50, 52), (48, 50), (50, 48), (52, 51), (49, 52),
               (48, 49), (51, 48), (51, 52), (48, 51), (49, 48), (52, 49)]
  {
    var c := (50, 50);
    OutlineOfThree(c, Start(2), LoopState(-2, 1, 1, -2), LoopState(-1, 2, 5, 1));
    AxisQuadrants(c, 2);
    assert Quadrants(c, (-2, 1)) == [(52, 51), (49, 52), (48, 49), (51, 48)];
    assert Quadrants(c, (-1, 2)) == [(51, 52), (48, 51), (49, 48), (52, 49)];
  }


  /** The documented radius-2 perimeter about (50, 50). */
  lemma RadiusTwoExample()
    ensures CircleVectorsSpec((50, 50), 2, false) ==
              [(52, 50), (50, 52), (48, 50), (50, 48), (52, 51), (49, 52),
               (48, 49), (51, 48), (51, 52), (48, 51), (49, 48), (52, 49)]
  {
    RadiusTwoPasses();
    RadiusTwoOutline();
  }

  /** Radius 1: one pass, at (-1, 0), which leaves 0 in `radius`. */
  lemma RadiusOnePasses()
    ensures Passes(1) == [Start(1)]
    ensures FillRadius(1) == 0
  {
    StartInv(1);
    HeadsUnfold(1, Start(1));
    assert Step(Start(1)) == LoopState(0, 1, 4, 0);
  }

  /** Radius 1 gives the four axis neighbours of the center. */
  lemma RadiusOneExample(c: Point)
    ensures CircleVectorsSpec(c, 1, false) ==
              [(c.0 + 1, c.1), (c.0, c.1 + 1), (c.0 - 1, c.1), (c.0, c.1 - 1)]
  {
    RadiusOnePasses();
    OutlineOfOne(c, Start(1));
    AxisQuadrants(c, 1);
  }

  /** With fill, radius 1 adds the scan for the radius 0 the loop leaves
      behind: the center itself. */
  lemma RadiusOneFillExample(c: Point)
    ensures CircleVectorsSpec(c, 1, true) ==
              [(c.0 + 1, c.1), (c.0, c.1 + 1), (c.0 - 1, c.1), (c.0, c.1 - 1), c]
  {
    RadiusOnePasses();
    RadiusOneExample(c);
    SmallDiskExamples(c);
  }

  /** The documented radius-1 examples. */
  lemma RadiusOneDocExamples()
    ensures CircleVectorsSpec((25, 25), 1, false) == [(26, 25), (25, 26), (24, 25), (25, 24)]
    ensures CircleVectorsSpec((42, 42), 1, false) == [(43, 42), (42, 43), (41, 42), (42, 41)]
  {
    RadiusOneExample((25, 25));
    RadiusOneExample((42, 42));
  }

  /** Radius 0: the loop never runs and `radius` keeps its value 0. */
  lemma RadiusZeroPasses()
    ensures Passes(0) == [] && FillRadius(0) == 0
  {
  }

  /** Radius 0: without fill nothing is returned, with fill the scan for
      radius 0 returns the center. */
  lemma RadiusZeroExample(c: Point)
    ensures CircleVectorsSpec(c, 0, false) == []
    ensures CircleVectorsSpec(c, 0, true) == [c]
  {
    SmallDiskExamples(c);
  }
}
