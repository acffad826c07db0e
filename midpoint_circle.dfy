/** The module's three functions as callers see them: arguments of any type,
    checked by `_validate_input` and `_is_int`, with a raised exception as an
    `Outcome`. A center that passes the checks may still hold a numeric string;
    the arithmetic on it raises TypeError as soon as the first point is built,
    and so does negating a radius that is a numeric string. */
module MidpointCircle {
  import opened Validation
  import opened Points
  import opened Interior
  import opened Perimeter
  import opened PerimeterProperties

  /** An argument whose two items are ints, so that arithmetic on them succeeds. */
  predicate HoldsInts(a: Arg) {
    a.Indexable? && |a.items| == 2 && a.items[0].IntV? && a.items[1].IntV?
  }

  function PointOf(a: Arg): Point
    requires HoldsInts(a)
  {
    (a.items[0].i, a.items[1].i)
  }

  /** A point passed on as a Python tuple of two ints. */
  function AsArg(p: Point): Arg {
    Indexable([IntV(p.0), IntV(p.1)])
  }

  /** `_get_circle_quadrants`: the center is checked first, then the offset;
      both being int pairs, the four quadrant points are returned. */
  function GetCircleQuadrants(center: Arg, current: Arg): (r: Outcome<seq<Point>>)
    ensures ValidateInput(center).Raise? ==> r == Raise(ValidateInput(center).error)
    ensures ValidateInput(center).Ok? && ValidateInput(current).Raise? ==>
              r == Raise(ValidateInput(current).error)
    ensures r.Ok? <==>
              ValidateInput(center).Ok? && ValidateInput(current).Ok? &&
              HoldsInts(center) && HoldsInts(current)
    ensures r.Ok? ==> |r.value| == 4 && r.value == Quadrants(PointOf(center), PointOf(current))
    ensures ValidateInput(center).Ok? && ValidateInput(current).Ok? && r.Raise? ==>
              r.error == TypeError
  {
    match ValidateInput(center)
    case Raise(e) => Raise(e)
    case Ok(_) =>
      match ValidateInput(current)
      case Raise(e) => Raise(e)
      case Ok(_) =>
        if HoldsInts(center) && HoldsInts(current) then
          Ok(Quadrants(PointOf(center), PointOf(current)))
        else
          Raise(TypeError)
  }

  /** `_get_vectors_inside_circle`: a bad center raises; a radius `int()`
      refuses yields an empty list silently; otherwise the interior scan. */
  method GetVectorsInsideCircle(center: Arg, radius: Value) returns (r: Outcome<seq<Point>>)
    ensures ValidateInput(center).Raise? ==> r == Raise(ValidateInput(center).error)
    ensures ValidateInput(center).Ok? && !IsInt(radius) ==> r == Ok([])
    ensures ValidateInput(center).Ok? && IsInt(radius) && radius.StrV? ==> r == Raise(TypeError)
    ensures ValidateInput(center).Ok? && radius.IntV? && HoldsInts(center) ==>
              r == Ok(Disk(PointOf(center), radius.i))
    ensures ValidateInput(center).Ok? && radius.IntV? && !HoldsInts(center) ==>
              r == (if 0 <= radius.i then Raise(TypeError) else Ok([]))
  {
    var v := ValidateInput(center);
    if v.Raise? {
      return Raise(v.error);
    }
    if !IsInt(radius) {
      return Ok([]);
    }
    if !radius.IntV? {
      // `-radius` on a string
      return Raise(TypeError);
    }
    if !HoldsInts(center) {
      // the scan appends (center[0] + 0, center[1] + 0) whenever radius >= 0
      return if 0 <= radius.i then Raise(TypeError) else Ok([]);
    }
    var pts := VectorsInsideCircle(PointOf(center), radius.i);
    return Ok(pts);
  }

  /** `get_circle_vectors`: a bad center raises; a radius `int()` refuses
      yields an empty list silently; otherwise the perimeter, followed with
      fill by the interior scan for the radius the loop leaves behind. */
  method GetCircleVectors(center: Arg, radius: Value, fill: bool) returns (r: Outcome<seq<Point>>)
    ensures ValidateInput(center).Raise? ==> r == Raise(ValidateInput(center).error)
    ensures ValidateInput(center).Ok? && !IsInt(radius) ==> r == Ok([])
    ensures ValidateInput(center).Ok? && IsInt(radius) && radius.StrV? ==> r == Raise(TypeError)
    ensures ValidateInput(center).Ok? && radius.IntV? && HoldsInts(center) ==>
              r == Ok(CircleVectorsSpec(PointOf(center), radius.i, fill))
    ensures ValidateInput(center).Ok? && radius.IntV? && !HoldsInts(center) ==>
              r == (if 0 < radius.i || (fill && radius.i == 0) then Raise(TypeError) else Ok([]))
  {
    var v := ValidateInput(center);
    if v.Raise? {
      return Raise(v.error);
    }
    if !IsInt(radius) {
      return Ok([]);
    }
    if !radius.IntV? {
      // `x = -radius` on a string
      return Raise(TypeError);
    }
    if !HoldsInts(center) {
      // a first pass builds points from the center; without one, the fill
      // scan for the untouched radius does so when that radius is 0
      return if 0 < radius.i || (fill && radius.i == 0) then Raise(TypeError) else Ok([]);
    }
    var pts := CircleVectors(PointOf(center), radius.i, fill);
    return Ok(pts);
  }

  /** The scan builds a point, and so touches the center's items, exactly
      when the radius is not negative: the ground for the TypeError cases
      above. */
  lemma DiskEmptyIff(c: Point, r: int)
    ensures Disk(c, r) == [] <==> r < 0
  {
    DiskSpec(c, r);
    if 0 <= r {
      assert c in Disk(c, r);
    }
  }

  /** Likewise the perimeter loop builds points exactly when the radius is
      positive, and the fill pass for a radius <= 0 scans that radius itself. */
  lemma PerimeterEmptyIff(c: Point, r: int)
    ensures CircleVectorsSpec(c, r, false) == [] <==> r <= 0
    ensures r <= 0 ==> CircleVectorsSpec(c, r, true) == Disk(c, r)
  {
    PassesShape(r);
    PerimeterPoints(c, r);
    if r <= 0 {
      StartInv(r);
      HeadsSpec(r, Start(r));
    }
  }

  /** Inside the loop, `_get_circle_quadrants(center, (x, y))` never raises
      for a validated int center: every visited x is negative, so the offset's
      first item is truthy and passes the shape check. The loop may therefore
      use the quadrant points directly. */
  lemma LoopQuadrantsNeverRaise(c: Point, r: int)
    requires ValidateInput(AsArg(c)).Ok?
    ensures forall k :: 0 <= k < |Passes(r)| ==>
              GetCircleQuadrants(AsArg(c), AsArg(Offset(Passes(r)[k]))) ==
              Ok(Quadrants(c, Offset(Passes(r)[k])))
  {
    PassesShape(r);
  }

  /** The documented radius-1 calls of `get_circle_vectors`. */
  method CircleVectorsExamples() returns (r1: Outcome<seq<Point>>, r2: Outcome<seq<Point>>)
    ensures r1 == Ok([(26, 25), (25, 26), (24, 25), (25, 24)])
    ensures r2 == Ok([(43, 42), (42, 43), (41, 42), (42, 41)])
  {
    RadiusOneDocExamples();
    r1 := GetCircleVectors(AsArg((25, 25)), IntV(1), false);
    r2 := GetCircleVectors(AsArg((42, 42)), IntV(1), false);
  }

  /** The documented radius-0 call, and the same call with fill. */
  method RadiusZeroExamples() returns (r1: Outcome<seq<Point>>, r2: Outcome<seq<Point>>)
    ensures r1 == Ok([])
    ensures r2 == Ok([(42, 42)])
  {
    RadiusZeroExample((42, 42));
    r1 := GetCircleVectors(AsArg((42, 42)), IntV(0), false);
    r2 := GetCircleVectors(AsArg((42, 42)), IntV(0), true);
  }

  /** A zero first coordinate is a shape error for every radius; a
      three-item center is one even next to a radius `int()` refuses; and
      validation reports an item `int()` refuses as a ValueError. */
  method ShapeErrorExamples(radius: int) returns (r1: Outcome<seq<Point>>, r2: Outcome<seq<Point>>,
                                                  r3: Outcome<seq<Point>>, r4: Outcome<seq<Point>>)
    ensures r1 == Raise(TypeError) && r2 == Raise(TypeError) && r3 == Raise(TypeError)
    ensures r4 == Raise(ValueError)
  {
    r1 := GetCircleVectors(AsArg((0, 5)), IntV(radius), false);
    r2 := GetCircleVectors(Indexable([IntV(42), IntV(42), IntV(2)]), StrV("c"), false);
    r3 := GetVectorsInsideCircle(Indexable([IntV(42), IntV(42), IntV(2)]), StrV("c"));
    r4 := GetCircleQuadrants(Indexable([StrV("a"), IntV(10)]), AsArg((-2, 0)));
  }

  /** The documented calls of `_get_vectors_inside_circle` and
      `_get_circle_quadrants`. */
  method InsideAndQuadrantsExamples() returns (r1: Outcome<seq<Point>>, r2: Outcome<seq<Point>>,
                                               r3: Outcome<seq<Point>>)
    ensures r1 == Ok([])
    ensures r2 == Ok([(42, 42)])
    ensures r3 == Ok([(52, 50), (50, 52), (48, 50), (50, 48)])
  {
    r1 := GetVectorsInsideCircle(AsArg((42, 42)), StrV("c"));
    SmallDiskExamples((42, 42));
    r2 := GetVectorsInsideCircle(AsArg((42, 42)), IntV(0));
    r3 := GetCircleQuadrants(AsArg((50, 50)), AsArg((-2, 0)));
  }
}
