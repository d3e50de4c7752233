# Circle packer: placement search and enclosing circles

This project models the geometric core of a WPF circle-packing program in Dafny.

- `circles.dfy` (module `Circles`): points, circles, `Circle.Overlaps` and the distance functions.
- `enclosing.dfy` (module `EnclosingCircleHelper`): the two enclosing-circle constructions.
  - `GetTightEnclosingCircle` runs a Welzl-style scan over the circle centres and then widens the radius to the farthest circle edge.
  - `GetEnclosingCircle` takes the bounding-box midpoint of all circles and, again, the farthest circle edge as radius.
- `processing.dfy` (module `Processing`): the placement of the next circle.
  - `FindBestPositionForCircle` generates the tangent positions of every ordered pair of distinct packed circles. It keeps the accepted candidate that lies closest to the origin.
  - `PlaceNextCircleAggressively` uses that candidate when there is one. Otherwise it walks an outward spiral of at most 10000 positions and takes the first one that overlaps nothing.

Modelling conventions:

- `float` coordinates are `real`.
- `MathF.Sqrt`, `Cos`, `Sin`, `Acos` and `Atan2` are not interpreted. They are the fields of a `Numerics` value that every operation receives as a parameter.
  - A lemma that needs the square root to be the non-negative root says so with `requires SqrtLaw(m)`.
  - A lemma that needs `cos² + sin² = 1` says so with `requires TrigLaw(m)`.
  - No other property of these routines is assumed.
- `MathF.Pow(x, 2)` is the exact product `x * x`. `SKPoint.Length` is `m.sqrt(x * x + y * y)`, so it goes through the same uninterpreted square root as `MathF.Sqrt`.
- Circles are values. The core never changes a circle after building it.
- A `null` result becomes `None`.
- The loops that reassign a local circle or running bounds are methods with `for` loops. Each is proved against a recursive function that describes the state after a prefix of the input (`TwoPointScan`, `OnePointScan`, `MinimalScan`, `ScanFrom`, `MinEdge`/`MaxEdge`). The properties are then proved about those functions.
- `ComputeMinimalEnclosingCircle` shuffles an array that it throws away at once (`(new Random()).Shuffle(shuffled.ToArray())`). So the scan visits the points in input order, and the model does the same.

## Model

| member | source | states |
|---|---|---|
| Circles.Overlaps | CirclePackingWPF/Circles.cs:13-19 | a.Overlaps(b): the squared centre distance dx·dx + dy·dy is strictly below the square of the radius sum |
| Circles.Distance | CirclePackingWPF/Circles.cs:29 | the square root of the squared coordinate differences, with Pow(x, 2) as x·x |
| Circles.Length | CirclePackingWPF/Processing.cs:48 | SKPoint.Length: the square root of x·x + y·y, the distance from the origin |
| Circles.OverlapsSymmetric | CirclePackingWPF/Circles.cs:13-19 | a.Overlaps(b) holds exactly when b.Overlaps(a) holds |
| Circles.TangentCirclesDoNotOverlap | CirclePackingWPF/Circles.cs:13-19 | two circles whose centres are exactly the radius sum apart do not overlap, because the test is strict |
| Circles.OverlapsIffCloserThanRadiusSum | CirclePackingWPF/Circles.cs:13-19 | for a non-negative radius sum, the squared-distance test is the same as "centre distance < r1 + r2" |
| EnclosingCircleHelper.IsPointInside | CirclePackingWPF/Circles.cs:31 | the point is within the radius plus the slack 1e-3 of the centre |
| EnclosingCircleHelper.MakeCircleThreePoints | CirclePackingWPF/Circles.cs:84-105 | for \|norm\| < 1e-6, the bounding-box midpoint with the largest of the three distances as radius; otherwise the centre ((dAC.dY·detAB − dAB.dY·detAC)/norm, (dAB.dX·detAC − dAC.dX·detAB)/norm) with the distance to a as radius |
| EnclosingCircleHelper.CircumcentreEquidistant | CirclePackingWPF/Circles.cs:85-90 | when the norm is not zero, the centre computed from detAB, detAC and norm is equally far from a, b and c |
| EnclosingCircleHelper.ThreePointsCircumcircle | CirclePackingWPF/Circles.cs:100-104 | outside the collinear fallback, all three points lie exactly on the returned circle |
| EnclosingCircleHelper.ThreePointsCollinearFallback | CirclePackingWPF/Circles.cs:92-97 | when \|norm\| < 1e-6, the centre is the midpoint of the three points' bounding box, every point is within the radius, and the radius is one of the three distances |
| EnclosingCircleHelper.ThreePointsContainsAll | CirclePackingWPF/Circles.cs:84-105 | a, b and c all pass IsPointInside for MakeCircleThreePoints(a, b, c) in both branches |
| EnclosingCircleHelper.CollinearOnLine | CirclePackingWPF/Circles.cs:92-97 | three points in order on a horizontal line get the circle that has the outer two as diameter |
| EnclosingCircleHelper.MakeCircleTwoPoints | CirclePackingWPF/Circles.cs:71-82 | the result is the diameter circle of p and q, replaced by MakeCircleThreePoints(p, q, r) for each point r found outside, in list order |
| EnclosingCircleHelper.DiameterCircleContainsEnds | CirclePackingWPF/Circles.cs:72-74 | the starting circle (midpoint, half distance) contains p and q |
| EnclosingCircleHelper.TwoPointScanContains | CirclePackingWPF/Circles.cs:76-80 | after each step the circle contains p, q and the point just scanned |
| EnclosingCircleHelper.MakeCircleOnePoint | CirclePackingWPF/Circles.cs:60-69 | the result starts as the zero circle at p; each point q found outside rebuilds it from the two-point scan of the prefix ending at q |
| EnclosingCircleHelper.OnePointScanContains | CirclePackingWPF/Circles.cs:60-69 | after each step the circle contains p and the point just scanned |
| EnclosingCircleHelper.MinimalScan | CirclePackingWPF/Circles.cs:50-56 | the outer scan has produced a circle exactly when at least one point has been scanned |
| EnclosingCircleHelper.ComputeMinimalEnclosingCircle | CirclePackingWPF/Circles.cs:46-58 | empty input gives the default circle (origin, radius 0); otherwise the result is the scan of the points in input order, with the rebuild at index i seeing points[0] through points[i] |
| EnclosingCircleHelper.MinimalScanStartsAtFirstPoint | CirclePackingWPF/Circles.cs:51-55 | index 0 always rebuilds, from the one-point circle at the first point |
| EnclosingCircleHelper.MinimalScanContainsLast | CirclePackingWPF/Circles.cs:51-56 | after each step the circle contains the point just scanned |
| EnclosingCircleHelper.MaxReach | CirclePackingWPF/Circles.cs:41 | the maximum of Distance(center, c.Position) + c.Radius is at least that value for every circle and equals it for one |
| EnclosingCircleHelper.GetTightEnclosingCircle | CirclePackingWPF/Circles.cs:33-44 | empty input gives (0,0) with radius 0; otherwise the centre is the centre of the minimal-circle scan, every circle lies inside, and one touches the boundary |
| EnclosingCircleHelper.MinEdge | CirclePackingWPF/Circles.cs:111-119 | the running minimum, started at float.MaxValue, is at most the side of every circle and is float.MaxValue or the side of some circle |
| EnclosingCircleHelper.MaxEdge | CirclePackingWPF/Circles.cs:111-119 | the running maximum, started at float.MinValue, is at least the side of every circle and is float.MinValue or the side of some circle |
| EnclosingCircleHelper.EdgesStep | CirclePackingWPF/Circles.cs:114-119 | one loop iteration folds the new circle's Left/Right/Up/Down into the four running bounds |
| EnclosingCircleHelper.GetEnclosingCircle | CirclePackingWPF/Circles.cs:107-126 | empty input gives (0,0) with radius 0; otherwise the centre is the bounding-box midpoint, every circle lies inside, and one touches the boundary |
| Processing.AnyOverlaps | CirclePackingWPF/Processing.cs:47 | some packed circle overlaps the candidate; the same test guards the spiral at line 26 |
| Processing.TangentPositions | CirclePackingWPF/Processing.cs:61-81 | a pair yields either no position or exactly two |
| Processing.AtAngleDistance | CirclePackingWPF/Processing.cs:77-79 | the point c1 + R1·(cos a, sin a) lies at distance R1 from c1 |
| Processing.TangentPairOnCircle | CirclePackingWPF/Processing.cs:73-80 | both positions, at angle + theta and angle − theta, lie at distance R1 from c1 |
| Processing.TangentPositionsOnCircle | CirclePackingWPF/Processing.cs:61-81 | every tangent position lies at distance c1.Radius + newRadius from c1 |
| Processing.TangentPositionsOfConcentric | CirclePackingWPF/Processing.cs:65-69 | circles with the same centre give no tangent position (d < 1e-5) |
| Processing.Consider | CirclePackingWPF/Processing.cs:46-52 | one candidate position: it becomes the best circle, with its length as the best distance, when no packed circle overlaps it and its length is strictly below the best distance; otherwise the state is unchanged |
| Processing.ScanFromAppend | CirclePackingWPF/Processing.cs:40-56 | scanning two runs of candidates one after the other is the same as scanning their concatenation |
| Processing.ScanFromSnoc | CirclePackingWPF/Processing.cs:45-53 | one more candidate is kept exactly when nothing overlaps it and it is strictly nearer than the best so far |
| Processing.NearestScanIsFirstNearest | CirclePackingWPF/Processing.cs:37-53 | the scan returns null exactly when no candidate is accepted with a length below float.MaxValue; otherwise it returns the accepted candidate of least length, the first one on ties, as a circle of the requested radius, and its length as the best distance |
| Processing.FirstNearestUnique | CirclePackingWPF/Processing.cs:49-52 | the strict `<` makes the chosen index unique: ties go to the earlier candidate |
| Processing.ScanPositions | CirclePackingWPF/Processing.cs:45-54 | the loop over one pair's positions leaves the search state that the ScanFrom fold specifies |
| Processing.ScanRow | CirclePackingWPF/Processing.cs:41-55 | the loop over the partners of circle a skips a itself and leaves the state of scanning that row's candidates |
| Processing.FindBestPositionForCircle | CirclePackingWPF/Processing.cs:36-59 | the result is the nearest-scan result over all candidates in pair order (a, then b, then position) |
| Processing.BestPlacementAccepted | CirclePackingWPF/Processing.cs:46-47 | a tangent placement has the requested radius and no packed circle overlaps it |
| Processing.PairInRow | CirclePackingWPF/Processing.cs:41-45 | a tangent position of partner j is among the candidates of row i |
| Processing.RowFromPair | CirclePackingWPF/Processing.cs:41-45 | every candidate of row i comes from some partner j |
| Processing.RowInCandidates | CirclePackingWPF/Processing.cs:40-45 | the candidates of each row are among all candidates |
| Processing.CandidateFromRow | CirclePackingWPF/Processing.cs:40-45 | every candidate comes from some row |
| Processing.CandidatesFromDistinctPairs | CirclePackingWPF/Processing.cs:40-44 | a point is a candidate exactly when it is a tangent position of packed[i] and packed[j] for some i ≠ j |
| Processing.NoPlacementBelowTwoCircles | CirclePackingWPF/Processing.cs:40-42 | with fewer than two packed circles there is no distinct pair, so the tangent phase returns null |
| Processing.SpiralCandidate | CirclePackingWPF/Processing.cs:19-25 | the i-th spiral circle: radius toPlace.Radius, centre at angle 0.1·i and distance toPlace.Radius + 0.1·i from the origin, as (radius·cos(angle), radius·sin(angle)) |
| Processing.SpiralFirstFitUnique | CirclePackingWPF/Processing.cs:22-27 | at most one spiral index is the first that fits |
| Processing.SpiralCandidateDistance | CirclePackingWPF/Processing.cs:19-25 | spiral candidate i lies at distance \|toPlace.Radius + 0.1·i\| from the origin |
| Processing.PlaceNextCircleAggressively | CirclePackingWPF/Processing.cs:13-33 | a tangent placement takes precedence. Otherwise the result is spiral candidate k (angle 0.1·k, radius toPlace.Radius + 0.1·k) for the first of the 10000 indices that overlaps nothing. The result is null only when all 10000 overlap. A result always has the requested radius and overlaps no packed circle |

## Left out

- CirclePackingWPF/MainWindow.xaml.cs is not part of this model. It holds the window, the timer, the drawing, the mouse handling and the random radii.
- `Extensions.ToSKPoint` is a conversion between UI point types and is not modelled.
- Floating-point behaviour is not modelled: rounding, NaN, infinities and single-precision overflow. For example, the spiral's angle is the exact 0.1·i, not a sum of rounded `0.1f` steps. The constants 1e-3, 1e-5 and 1e-6 are the exact decimals.
- The math routines are uninterpreted. So nothing is proved that depends on their values beyond SqrtLaw and TrigLaw:
  - that a tangent position also touches c2;
  - that the Welzl scan gives the minimal circle.
- Processing.TangentPositions: when R1 = c1.Radius + newRadius is zero, the source divides by zero. The model yields no positions in that case. In single precision the cosine is then ±infinity, which the range test rejects, or NaN. A NaN cosine gives NaN positions. Those are accepted by the overlap filter, but `NaN < bestDistance` is false, so they never become the result. The search result is therefore the same.
- Processing.FindBestPositionForCircle skips a pair when `a == b`, which is reference equality. The model skips equal indices instead. The two differ only when the same Circle object appears twice in the list: the source skips that pair, and the model does not.
- Processing.FindBestPositionForCircle is modelled as three methods, one per loop (`ScanPositions`, `ScanRow` and the outer loop), so that each loop is proved on its own. The loops, their order and their updates are those of the source.
- `null` lists are not modelled: a Dafny sequence cannot be null. The empty-list results are modelled.
- That the inputs are never modified and every result is a new Circle holds trivially, because the model works on values.
- EnclosingCircleHelper.MinimalScanContainsLast: states containment of the point just scanned, not of every point scanned so far. The full Welzl containment argument depends on the 1e-3 slack and on real analysis of the uninterpreted routines.
- The random shuffle has no effect in the source, so no randomness is modelled.
- Performance is not modelled: the cubic pair scan and the prefix copies made by `Take(i + 1).ToList()` (modelled as sequence prefixes).
