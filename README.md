# Midpoint circle rasterisation, modelled in Dafny

This project models `graphics/midpoint_circle.py`. The module turns a circle into grid points:

- `get_circle_vectors(center, radius, fill)` returns the perimeter points of a circle. With `fill`, it then appends an interior scan.
- `_get_circle_quadrants(center, point)` reflects one stepping offset onto the four quadrants.
- `_get_vectors_inside_circle(center, radius)` returns every grid point of the closed disk, in row-major order.
- `_validate_input`, `_is_indexable` and `_is_int` are the duck-typed checks on the arguments.

The project has six modules, one per file:

| file | module | contents |
|---|---|---|
| `validation.dfy` | `Validation` | Python argument values as a datatype; the three checks; raised exceptions as an `Outcome`. |
| `points.dfy` | `Points` | The four-way quadrant reflection and its geometry. |
| `interior.dfy` | `Interior` | The interior scan, as a method with two nested loops, proved equal to the recursive function `Disk`. |
| `perimeter.dfy` | `Perimeter` | The stepping loop, as a method proved equal to functions over the sequence of loop states (`Passes`, `FillRadius`, `Outline`, `CircleVectorsSpec`). |
| `perimeter_properties.dfy` | `PerimeterProperties` | What the loop visits: the shape of the passes, the outline, the radius left for the fill pass, and the documented examples. |
| `midpoint_circle.dfy` | `MidpointCircle` | The three functions as callers see them: arguments of any type, validation first, and exceptions as outcomes. |

Two behaviours of the code are easy to misread, and the model keeps both as written:

- `(0, 5)` is a valid pair of ints, yet `_is_indexable` rejects it. Its truthiness test on the first item (`midpoint_circle.py:149`) makes `_validate_input` raise TypeError for any pair whose first item is `0` or `""` (`Validation.IntPairValidation`).
- The fill disk does not follow the perimeter. The loop overwrites `radius` with `error` on every pass (`midpoint_circle.py:41`), and the fill pass reads that variable (`midpoint_circle.py:48-49`).
  - So for r >= 1 the fill radius is the error value the last pass started with: 0 for radius 1, and otherwise 0 or 2r + 1 (`PerimeterProperties.FillRadiusSpec`).
  - Radius 2 fills to radius 5 (`PerimeterProperties.RadiusTwoPasses`).
  - For r <= 0 the loop never runs and the fill radius is r itself.

Two more behaviours are modelled as the code has them:

- A radius that `int()` refuses makes `get_circle_vectors` return `[]` silently (`midpoint_circle.py:35`). The model keeps this and does not raise a ValueError.
- Validation passes a numeric string item or radius, such as `"12"`, but arithmetic on it then raises TypeError.
  - This happens when a quadrant point or scan point is built, or when `-radius` is evaluated.
  - The model gives exactly those outcomes.

## Model

| member | source | states |
|---|---|---|
| Validation.IsIntAccepts | graphics/midpoint_circle.py:160-180 | `int()` succeeds for every int. For a string it succeeds exactly when the string is one optional sign followed by one or more ASCII digits, written as "every character a digit". For any other object it fails. |
| Validation.IsIndexableProbe | graphics/midpoint_circle.py:137-157 | True exactly for a two-item argument with a truthy first item. An unsubscriptable or empty argument answers False instead of raising. A first item of `0` or `""` answers False whatever the second item. |
| Validation.ValidateInput | graphics/midpoint_circle.py:112-134 | The check either raises or returns True; it never returns False. |
| Validation.ValidateInputTypeError | graphics/midpoint_circle.py:130-157 | TypeError is raised exactly when the argument is not subscriptable, does not have two items, or has a falsy first item. The shape check comes before the item check. |
| Validation.ValidateInputValueError | graphics/midpoint_circle.py:130-133 | ValueError is raised exactly for a well-shaped pair with an item that `int()` refuses. |
| Validation.ValidateInputAccepts | graphics/midpoint_circle.py:130-132 | The argument is accepted exactly for a two-item argument whose first item is truthy and whose items `int()` both accepts. |
| Validation.IntPairValidation | graphics/midpoint_circle.py:149 | An int pair is accepted iff its first coordinate is non-zero. A zero first coordinate is reported as a shape TypeError. |
| Validation.ValidationExamples | graphics/midpoint_circle.py:119-169 | The documented results of the three checks, plus the zero and empty-string first items. |
| Points.Quadrants | graphics/midpoint_circle.py:67-76 | Four points. The first is the offset mirrored in x. Each next point is the previous one turned a quarter turn about the center, and four turns close the cycle. |
| Points.QuadrantsOnCircle | graphics/midpoint_circle.py:67-76 | All four quadrant points lie at the offset's squared length from the center. |
| Points.QuadrantsExamples | graphics/midpoint_circle.py:59-63 | The two documented reflections. |
| Interior.VectorsInsideCircle | graphics/midpoint_circle.py:102-109 | The nested `for` loops produce exactly `Disk(c, r)`. |
| Interior.RowScanSpec | graphics/midpoint_circle.py:106-108 | One inner loop keeps exactly the row's points inside the disk, left to right. |
| Interior.DiskScanSpec | graphics/midpoint_circle.py:104-108 | The outer loop so far holds exactly the disk points of the rows it has visited, in row-major order. |
| Interior.DiskSpec | graphics/midpoint_circle.py:104-108 | A point is in the scan iff r >= 0 and dx² + dy² <= r². The scan is in row-major order with no repeats. |
| Interior.SmallDiskExamples | graphics/midpoint_circle.py:92-93 | Radius 0 gives the center alone, for every center; radius -3 gives nothing. (`MidpointCircle.DiskEmptyIff` covers every negative radius.) |
| Interior.RadiusOneDiskExample | graphics/midpoint_circle.py:89-90 | The documented radius-1 scan. |
| Interior.RadiusTwoDiskExample | graphics/midpoint_circle.py:86-87 | The documented radius-2 scan. |
| Perimeter.StartInv | graphics/midpoint_circle.py:36-38 | The start state x = -r, y = 0, error = 2 - 2r satisfies the loop invariant: error = (x+1)² + (y+1)² - r², with x and y in range. |
| Perimeter.StepKeepsInv | graphics/midpoint_circle.py:41-47 | One pass keeps the invariant and stores the old error in `radius`. x and y each rise by at most one, at least one of them rises, and the measure r - x - y stays positive. |
| Perimeter.HeadsUnfold | graphics/midpoint_circle.py:39-47 | A pass peels the first head off the remaining passes and leaves the exit state unchanged. |
| Perimeter.AdvancePass | graphics/midpoint_circle.py:39-41 | The per-pass bookkeeping: the head moves to the visited passes and its quadrant points join the outline. |
| Perimeter.CircleVectors | graphics/midpoint_circle.py:34-50 | The loop, then with `fill` the scan for the radius left behind, produces exactly `CircleVectorsSpec`. |
| PerimeterProperties.HeadsSpec | graphics/midpoint_circle.py:39-47 | Every pass keeps the invariant with x < 0, and consecutive passes are one step apart. Passes happen iff the start has x < 0. The last pass starts at x = -1 and its step is the exit state, with x = 0. |
| PerimeterProperties.HeadsCount | graphics/midpoint_circle.py:39-47 | The number of passes lies between the rise of x and the rise of x + y from start to exit. |
| PerimeterProperties.OutlineSpec | graphics/midpoint_circle.py:40 | The outline holds four points per pass. Point k is quadrant point k mod 4 of pass k / 4, at that pass's offset length from the center. |
| PerimeterProperties.PassesShape | graphics/midpoint_circle.py:36-47 | r <= 0 gives no pass. For r > 0, the first offset is (-r, 0), the last has x = -1, and there are between r and 2r passes. Every pass satisfies the error equation with -r <= x < 0 and 0 <= y <= r. |
| PerimeterProperties.PassesSteps | graphics/midpoint_circle.py:42-47 | From pass to pass, x and y never decrease, each rises by at most one, and at least one rises. |
| PerimeterProperties.PassStep | graphics/midpoint_circle.py:42-47 | The same three facts for one pair of consecutive passes. |
| PerimeterProperties.PerimeterPoints | graphics/midpoint_circle.py:39-40 | Without fill, the result has 4 points per pass, in quadrant order, each at its pass's offset length from the center, and nothing for r <= 0. |
| PerimeterProperties.FillRadiusSpec | graphics/midpoint_circle.py:41-49 | The fill radius is the caller's radius when r <= 0. Otherwise it is the last pass's starting error (y+1)² - r², which is 0 or 2r + 1. |
| PerimeterProperties.LowRowKeepsLooping | graphics/midpoint_circle.py:42-47 | A pass at x = -1 on a row y <= r - 2 leaves x at -1. |
| PerimeterProperties.LastPassRadius | graphics/midpoint_circle.py:41-47 | A pass that ends the loop starts on row r - 1 or r, with error 0 or 2r + 1. |
| PerimeterProperties.OutlineOfOne | graphics/midpoint_circle.py:40 | The outline of one pass is its four quadrant points. |
| PerimeterProperties.OutlineSnoc | graphics/midpoint_circle.py:40 | Each pass appends its quadrant points at the end. |
| PerimeterProperties.RadiusTwoSteps | graphics/midpoint_circle.py:41-47 | The radius-2 loop body takes (-2, 0) to (-2, 1), then to (-1, 2), then to (0, 2), storing -2, 1 and 5 in `radius` in turn. |
| PerimeterProperties.ThreePasses | graphics/midpoint_circle.py:39-47 | A state that steps to s1, s2 and then s3, with x < 0 in the first three and x >= 0 in s3, makes exactly three passes and exits in s3. |
| PerimeterProperties.RadiusTwoPasses | graphics/midpoint_circle.py:36-47 | Radius 2 makes three passes, at (-2, 0), (-2, 1) and (-1, 2), and leaves 5 in `radius`. |
| PerimeterProperties.RadiusTwoOutline | graphics/midpoint_circle.py:22-23 | Those three passes about (50, 50) give the 12 documented points. |
| PerimeterProperties.RadiusTwoExample | graphics/midpoint_circle.py:22-23 | The documented radius-2 perimeter. |
| PerimeterProperties.RadiusOnePasses | graphics/midpoint_circle.py:36-47 | Radius 1 makes one pass, at (-1, 0), and leaves 0 in `radius`. |
| PerimeterProperties.RadiusOneExample | graphics/midpoint_circle.py:25-29 | Radius 1 gives the four axis neighbours of any center, in quadrant order. |
| PerimeterProperties.RadiusOneFillExample | graphics/midpoint_circle.py:48-49 | With fill, radius 1 adds only the center, the scan for the radius 0 that the loop leaves behind. |
| PerimeterProperties.RadiusOneDocExamples | graphics/midpoint_circle.py:25-29 | The two documented radius-1 perimeters. |
| PerimeterProperties.RadiusZeroPasses | graphics/midpoint_circle.py:36-39 | Radius 0 makes no pass and leaves `radius` at 0. |
| PerimeterProperties.RadiusZeroExample | graphics/midpoint_circle.py:31-49 | Radius 0 gives `[]`, and with fill gives the center. |
| MidpointCircle.GetCircleQuadrants | graphics/midpoint_circle.py:53-77 | A center error wins over an offset error. The four points come back iff both pass validation and hold ints; a validated pair that is not ints gives TypeError. |
| MidpointCircle.GetVectorsInsideCircle | graphics/midpoint_circle.py:80-109 | A center error is raised. A radius that `int()` refuses gives `[]`. A numeric-string radius gives TypeError. Otherwise the result is `Disk`, or TypeError when a point must be built from non-int center items. |
| MidpointCircle.GetCircleVectors | graphics/midpoint_circle.py:10-50 | The same shape, with `CircleVectorsSpec` as the result. A non-int center raises exactly when a pass or the fill scan builds a point. |
| MidpointCircle.DiskEmptyIff | graphics/midpoint_circle.py:104-108 | The scan is empty iff the radius is negative. |
| MidpointCircle.PerimeterEmptyIff | graphics/midpoint_circle.py:35-49 | The perimeter is empty iff r <= 0. For such r the fill result is the scan for r itself. |
| MidpointCircle.LoopQuadrantsNeverRaise | graphics/midpoint_circle.py:39-40 | Inside the loop, `_get_circle_quadrants` never raises for a validated int center, because every visited offset has a negative, so truthy, x. |

| MidpointCircle.CircleVectorsExamples | graphics/midpoint_circle.py:25-29 | The two documented radius-1 calls of `get_circle_vectors` return their documented lists. |
| MidpointCircle.RadiusZeroExamples | graphics/midpoint_circle.py:31-49 | Radius 0 returns `[]`, and with fill returns the center alone. |
| MidpointCircle.ShapeErrorExamples | graphics/midpoint_circle.py:95-134 | A zero first coordinate raises TypeError for every radius. A three-item center raises TypeError even with a radius `int()` refuses. `("a", 10)` raises ValueError. |
| MidpointCircle.InsideAndQuadrantsExamples | graphics/midpoint_circle.py:59-96 | The documented scan calls for radius `"c"` and radius 0, and the documented quadrant call, through the validated entry points. |

## Left out

- `int()` parsing of strings is limited to an optional sign and ASCII digits. Surrounding whitespace, underscores and non-ASCII digits are not modelled.
- Floats, bytes and other numeric types are not modelled. Items are ints (bools count as ints), strings, or other objects, which `int()` refuses.
- Mappings, whose subscript raises KeyError rather than TypeError or IndexError, are not modelled.
- `_is_indexable` returns the falsy first item itself rather than `False`. The model keeps only its truth value, which is all `_validate_input` uses.
- `fill` is a `bool`. Arbitrary truthy or falsy values passed as `fill` are not modelled.
- Exception message texts are not modelled. Outcomes record only the exception type.
- The doctest runner under `if __name__ == "__main__"` is not modelled.
- Perimeter.CircleVectors: no bound is claimed on how far perimeter points lie from the true circle. The model proves only the loop invariant error = (x+1)² + (y+1)² - r² and the step structure.
- Python lists are extended in place; the model appends to immutable sequences. No other reference can observe the list before it is returned, so no behaviour is lost.
