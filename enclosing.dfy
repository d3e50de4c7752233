/** The enclosing-circle helper: a Welzl-style scan for the circle around the centres,
    widened to contain whole circles, and a cheaper circle around the bounding box. */
module EnclosingCircleHelper {
  import opened Circles

  /** IsPointInside: p lies within the radius of c, up to a slack of 1e-3. */
  predicate IsPointInside(m: Numerics, c: Circle, p: Point) {
    Distance(m, c.position, p) <= c.radius + 0.001
  }

  /** Every circle of cs lies within e: centre distance plus radius is at most e's radius. */
  ghost predicate Encloses(m: Numerics, e: Circle, cs: seq<Circle>) {
    forall i :: 0 <= i < |cs| ==> Distance(m, e.position, cs[i].position) + cs[i].radius <= e.radius
  }

  /** Some circle of cs touches e from inside. */
  ghost predicate Touches(m: Numerics, e: Circle, cs: seq<Circle>) {
    exists i :: 0 <= i < |cs| && Distance(m, e.position, cs[i].position) + cs[i].radius == e.radius
  }

  // ----- MakeCircleThreePoints -----

  /** Twice the signed area of the triangle a, b, c: the determinant the circumcentre divides by. */
  function Norm(a: Point, b: Point, c: Point): real {
    2.0 * ((b.x - a.x) * (c.y - b.y) - (b.y - a.y) * (c.x - b.x))
  }

  /** Below 1e-6 in magnitude the determinant counts as zero. */
  predicate Collinear(a: Point, b: Point, c: Point) {
    Abs(Norm(a, b, c)) < 0.000001
  }

  /** Centre of the axis-aligned bounding box of three points. */
  function BoxMidpoint(a: Point, b: Point, c: Point): Point {
    Point((Min(a.x, Min(b.x, c.x)) + Max(a.x, Max(b.x, c.x))) / 2.0,
          (Min(a.y, Min(b.y, c.y)) + Max(a.y, Max(b.y, c.y))) / 2.0)
  }

  /** The offset from a to b (the source's dAB, dAC tuples). */
  function Offset(a: Point, b: Point): Point {
    Point(b.x - a.x, b.y - a.y)
  }

  /** The determinant of a and b: (b - a) . (a + b), that is |b|^2 - |a|^2. */
  function Det(a: Point, b: Point): real {
    (b.x - a.x) * (a.x + b.x) + (b.y - a.y) * (a.y + b.y)
  }

  function Dot(p: Point, q: Point): real { p.x * q.x + p.y * q.y }

  function Cross(p: Point, q: Point): real { p.x * q.y - p.y * q.x }

  /** The centre computed from the offsets u = dAB, v = dAC, the two determinants and the norm. */
  function CentreOf(u: Point, v: Point, detAB: real, detAC: real, norm: real): Point
    requires norm != 0.0
  {
    Point((v.y * detAB - u.y * detAC) / norm, (u.x * detAC - v.x * detAB) / norm)
  }

  /** Intersection of the perpendicular bisectors of a-b and a-c. */
  function Circumcentre(a: Point, b: Point, c: Point): Point
    requires Norm(a, b, c) != 0.0
  {
    CentreOf(Offset(a, b), Offset(a, c), Det(a, b), Det(a, c), Norm(a, b, c))
  }

  /** MakeCircleThreePoints: the circumcircle, or for (nearly) collinear points the circle
      about the bounding-box centre out to the farthest of the three. */
  function MakeCircleThreePoints(m: Numerics, a: Point, b: Point, c: Point): Circle {
    if Collinear(a, b, c) then
      var center := BoxMidpoint(a, b, c);
      Circle(center, Max(Distance(m, center, a), Max(Distance(m, center, b), Distance(m, center, c))))
    else
      var center := Circumcentre(a, b, c);
      Circle(center, Distance(m, center, a))
  }

  /** When the norm is twice the cross product of u and v, the centre projects onto u and v
      at half of the two determinants. */
  lemma CentreOfProjects(u: Point, v: Point, detAB: real, detAC: real, norm: real)
    requires norm == 2.0 * Cross(u, v) && norm != 0.0
    ensures 2.0 * Dot(CentreOf(u, v, detAB, detAC, norm), u) == detAB
    ensures 2.0 * Dot(CentreOf(u, v, detAB, detAC, norm), v) == detAC
  {
    var o := CentreOf(u, v, detAB, detAC, norm);
    var k := Cross(u, v);
    assert o.x * norm == v.y * detAB - u.y * detAC;
    assert o.y * norm == u.x * detAC - v.x * detAB;
    var pu, pv := o.x * u.x + o.y * u.y, o.x * v.x + o.y * v.y;
    assert pu * norm == (v.y * detAB - u.y * detAC) * u.x + (u.x * detAC - v.x * detAB) * u.y;
    assert pu * norm == detAB * k;
    assert pv * norm == (v.y * detAB - u.y * detAC) * v.x + (u.x * detAC - v.x * detAB) * v.y;
    assert pv * norm == detAC * k;
  }

  /** The source's norm is twice the cross product of b - a and c - a. */
  lemma NormIsCross(a: Point, b: Point, c: Point)
    ensures Norm(a, b, c) == 2.0 * Cross(Offset(a, b), Offset(a, c))
  {
  }

  /** One coordinate of the difference of two squared distances. */
  lemma SquareDifference(o: real, p: real, q: real, u: real)
    requires u == q - p
    ensures Sq(o - q) - Sq(o - p) == u * (p + q) - 2.0 * o * u
  {
    assert Sq(o - q) - Sq(o - p) == (p - q) * (2.0 * o - p - q);
  }

  /** A point whose projection onto b - a is half the determinant is as far from b as from a
      (it lies on the perpendicular bisector of a and b). */
  lemma EquidistantFromProjection(o: Point, a: Point, b: Point)
    requires 2.0 * Dot(o, Offset(a, b)) == Det(a, b)
    ensures SqDist(o, b) == SqDist(o, a)
  {
    SquareDifference(o.x, a.x, b.x, b.x - a.x);
    SquareDifference(o.y, a.y, b.y, b.y - a.y);
  }

  /** The circumcentre is equally far from all three points, whatever the points. */
  lemma CircumcentreEquidistant(a: Point, b: Point, c: Point)
    requires Norm(a, b, c) != 0.0
    ensures SqDist(Circumcentre(a, b, c), b) == SqDist(Circumcentre(a, b, c), a)
    ensures SqDist(Circumcentre(a, b, c), c) == SqDist(Circumcentre(a, b, c), a)
  {
    NormIsCross(a, b, c);
    CentreOfProjects(Offset(a, b), Offset(a, c), Det(a, b), Det(a, c), Norm(a, b, c));
    EquidistantFromProjection(Circumcentre(a, b, c), a, b);
    EquidistantFromProjection(Circumcentre(a, b, c), a, c);
  }

  /** The circle through three points contains all three, in both branches, for any square root. */
  lemma ThreePointsContainsAll(m: Numerics, a: Point, b: Point, c: Point)
    ensures IsPointInside(m, MakeCircleThreePoints(m, a, b, c), a)
    ensures IsPointInside(m, MakeCircleThreePoints(m, a, b, c), b)
    ensures IsPointInside(m, MakeCircleThreePoints(m, a, b, c), c)
  {
    if !Collinear(a, b, c) {
      CircumcentreEquidistant(a, b, c);
    }
  }

  /** In the collinear fallback the radius is the largest of the three centre distances. */
  lemma ThreePointsCollinearFallback(m: Numerics, a: Point, b: Point, c: Point)
    requires Collinear(a, b, c)
    ensures MakeCircleThreePoints(m, a, b, c).position == BoxMidpoint(a, b, c)
    ensures var e := MakeCircleThreePoints(m, a, b, c);
      Distance(m, e.position, a) <= e.radius && Distance(m, e.position, b) <= e.radius &&
      Distance(m, e.position, c) <= e.radius
    ensures var e := MakeCircleThreePoints(m, a, b, c);
      e.radius in {Distance(m, e.position, a), Distance(m, e.position, b), Distance(m, e.position, c)}
  {
  }

  /** Outside the fallback every point lies exactly on the circle. */
  lemma ThreePointsCircumcircle(m: Numerics, a: Point, b: Point, c: Point)
    requires !Collinear(a, b, c)
    ensures var e := MakeCircleThreePoints(m, a, b, c);
      Distance(m, e.position, a) == e.radius && Distance(m, e.position, b) == e.radius &&
      Distance(m, e.position, c) == e.radius
  {
    CircumcentreEquidistant(a, b, c);
  }

  /** Three points in order along a horizontal line get the circle on the outer two as diameter;
      for (0,0), (5,0), (10,0) that is the circle about (5,0) of radius 5. */
  lemma CollinearOnLine(m: Numerics, a: Point, b: Point, c: Point)
    requires SqrtLaw(m)
    requires a.y == b.y == c.y
    requires a.x <= b.x <= c.x
    ensures MakeCircleThreePoints(m, a, b, c) == Circle(Point((a.x + c.x) / 2.0, a.y), (c.x - a.x) / 2.0)
  {
    var center := Point((a.x + c.x) / 2.0, a.y);
    var half := (c.x - a.x) / 2.0;
    assert Norm(a, b, c) == 0.0;
    assert BoxMidpoint(a, b, c) == center;
    assert SqDist(center, a) == half * half;
    assert SqDist(center, c) == half * half;
    SqrtOfSquare(m, half * half, half);
    var off := Abs(center.x - b.x);
    assert SqDist(center, b) == off * off;
    SqrtOfSquare(m, off * off, off);
    SquareMonotone(half, off);
  }

  // ----- MakeCircleTwoPoints -----

  /** The circle with diameter p-q that MakeCircleTwoPoints starts from. */
  function DiameterCircle(m: Numerics, p: Point, q: Point): Circle {
    Circle(Point((p.x + q.x) / 2.0, (p.y + q.y) / 2.0), Distance(m, p, q) / 2.0)
  }

  /** The circle MakeCircleTwoPoints holds after scanning points[..n]: each point found
      outside replaces it with the circle through p, q and that point. */
  function TwoPointScan(m: Numerics, points: seq<Point>, p: Point, q: Point, n: nat): Circle
    requires n <= |points|
  {
    if n == 0 then DiameterCircle(m, p, q)
    else
      var circle := TwoPointScan(m, points, p, q, n - 1);
      if IsPointInside(m, circle, points[n - 1]) then circle
      else MakeCircleThreePoints(m, p, q, points[n - 1])
  }

  method MakeCircleTwoPoints(m: Numerics, points: seq<Point>, p: Point, q: Point) returns (circle: Circle)
    ensures circle == TwoPointScan(m, points, p, q, |points|)
  {
    var center := Point((p.x + q.x) / 2.0, (p.y + q.y) / 2.0);
    var radius := Distance(m, p, q) / 2.0;
    circle := Circle(center, radius);
    for i := 0 to |points|
      invariant circle == TwoPointScan(m, points, p, q, i)
    {
      var r := points[i];
      if !IsPointInside(m, circle, r) {
        circle := MakeCircleThreePoints(m, p, q, r);
      }
    }
  }

  /** The diameter circle contains both ends. */
  lemma DiameterCircleContainsEnds(m: Numerics, p: Point, q: Point)
    requires SqrtLaw(m)
    ensures IsPointInside(m, DiameterCircle(m, p, q), p)
    ensures IsPointInside(m, DiameterCircle(m, p, q), q)
  {
    var e := DiameterCircle(m, p, q);
    var d2 := SqDist(p, q);
    SqNonNegative(p.x - q.x);
    SqNonNegative(p.y - q.y);
    var s := m.sqrt(d2);
    assert 0.0 <= s && s * s == d2;
    assert SqDist(e.position, p) == d2 / 4.0;
    assert SqDist(e.position, q) == d2 / 4.0;
    assert (s / 2.0) * (s / 2.0) == d2 / 4.0;
    SqrtOfSquare(m, d2 / 4.0, s / 2.0);
  }

  /** The two-point scan keeps p and q inside, and the last point it scanned. */
  lemma {:induction false} TwoPointScanContains(m: Numerics, points: seq<Point>, p: Point, q: Point, n: nat)
    requires SqrtLaw(m)
    requires n <= |points|
    ensures IsPointInside(m, TwoPointScan(m, points, p, q, n), p)
    ensures IsPointInside(m, TwoPointScan(m, points, p, q, n), q)
    ensures n > 0 ==> IsPointInside(m, TwoPointScan(m, points, p, q, n), points[n - 1])
    decreases n
  {
    if n == 0 {
      DiameterCircleContainsEnds(m, p, q);
    } else if IsPointInside(m, TwoPointScan(m, points, p, q, n - 1), points[n - 1]) {
      TwoPointScanContains(m, points, p, q, n - 1);
    } else {
      ThreePointsContainsAll(m, p, q, points[n - 1]);
    }
  }

  // ----- MakeCircleOnePoint -----

  /** The circle MakeCircleOnePoint holds after scanning points[..n]: each point q found
      outside rebuilds it from the two-point scan of the prefix ending at q. */
  function OnePointScan(m: Numerics, points: seq<Point>, p: Point, n: nat): Circle
    requires n <= |points|
  {
    if n == 0 then Circle(p, 0.0)
    else
      var circle := OnePointScan(m, points, p, n - 1);
      if IsPointInside(m, circle, points[n - 1]) then circle
      else TwoPointScan(m, points[..n], p, points[n - 1], n)
  }

  method MakeCircleOnePoint(m: Numerics, points: seq<Point>, p: Point) returns (circle: Circle)
    ensures circle == OnePointScan(m, points, p, |points|)
  {
    circle := Circle(p, 0.0);
    for i := 0 to |points|
      invariant circle == OnePointScan(m, points, p, i)
    {
      var q := points[i];
      if !IsPointInside(m, circle, q) {
        circle := MakeCircleTwoPoints(m, points[..i + 1], p, q);
      }
    }
  }

  /** The one-point scan keeps its anchor p inside, and the last point it scanned. */
  lemma {:induction false} OnePointScanContains(m: Numerics, points: seq<Point>, p: Point, n: nat)
    requires SqrtLaw(m)
    requires n <= |points|
    ensures IsPointInside(m, OnePointScan(m, points, p, n), p)
    ensures n > 0 ==> IsPointInside(m, OnePointScan(m, points, p, n), points[n - 1])
    decreases n
  {
    if n == 0 {
      assert SqDist(p, p) == 0.0;
      SqrtOfSquare(m, 0.0, 0.0);
    } else if IsPointInside(m, OnePointScan(m, points, p, n - 1), points[n - 1]) {
      OnePointScanContains(m, points, p, n - 1);
    } else {
      TwoPointScanContains(m, points[..n], p, points[n - 1], n);
    }
  }

  // ----- ComputeMinimalEnclosingCircle -----

  /** The circle the outer scan holds after points[..n], None before the first point:
      a point found outside rebuilds it from the one-point scan of the prefix ending there. */
  function MinimalScan(m: Numerics, points: seq<Point>, n: nat): (r: Option<Circle>)
    requires n <= |points|
    ensures r.Some? <==> n > 0
  {
    if n == 0 then None
    else
      var circle := MinimalScan(m, points, n - 1);
      if circle.None? || !IsPointInside(m, circle.value, points[n - 1]) then
        Some(OnePointScan(m, points[..n], points[n - 1], n))
      else circle
  }

  /** ComputeMinimalEnclosingCircle. The shuffle of the source permutes a temporary copy that
      is then discarded, so the points are scanned in their input order. */
  method ComputeMinimalEnclosingCircle(m: Numerics, points: seq<Point>) returns (mec: Circle)
    ensures points == [] ==> mec == Circle(ORIGIN, 0.0)
    ensures points != [] ==> MinimalScan(m, points, |points|) == Some(mec)
  {
    var shuffled := points;
    var circle: Option<Circle> := None;
    for i := 0 to |shuffled|
      invariant circle == MinimalScan(m, shuffled, i)
    {
      var p := shuffled[i];
      if circle.None? || !IsPointInside(m, circle.value, p) {
        var rebuilt := MakeCircleOnePoint(m, shuffled[..i + 1], p);
        circle := Some(rebuilt);
      }
    }
    mec := if circle.Some? then circle.value else Circle(ORIGIN, 0.0);
  }

  /** The first point always triggers a rebuild, from the one-point circle at that point. */
  lemma MinimalScanStartsAtFirstPoint(m: Numerics, points: seq<Point>)
    requires |points| > 0
    ensures MinimalScan(m, points, 1) == Some(OnePointScan(m, points[..1], points[0], 1))
  {
  }

  /** After each step the scanned circle contains the point just scanned. */
  lemma MinimalScanContainsLast(m: Numerics, points: seq<Point>, n: nat)
    requires SqrtLaw(m)
    requires 0 < n <= |points|
    ensures IsPointInside(m, MinimalScan(m, points, n).value, points[n - 1])
  {
    var before := MinimalScan(m, points, n - 1);
    if before.None? || !IsPointInside(m, before.value, points[n - 1]) {
      OnePointScanContains(m, points[..n], points[n - 1], n);
    }
  }

  // ----- the max-distance radius -----

  /** circles.Max(c => Distance(center, c.Position) + c.Radius). */
  function MaxReach(m: Numerics, center: Point, circles: seq<Circle>): (r: real)
    requires |circles| > 0
    ensures Encloses(m, Circle(center, r), circles)
    ensures Touches(m, Circle(center, r), circles)
  {
    var last := circles[|circles| - 1];
    var reach := Distance(m, center, last.position) + last.radius;
    if |circles| == 1 then reach
    else Max(MaxReach(m, center, circles[..|circles| - 1]), reach)
  }

  /** The centres of the circles, in order. */
  function Positions(circles: seq<Circle>): (ps: seq<Point>)
    ensures |ps| == |circles|
  {
    seq(|circles|, i requires 0 <= i < |circles| => circles[i].position)
  }

  /** GetTightEnclosingCircle: the centre of the circle around the centres, with the radius
      widened until every circle lies inside and one touches the boundary. */
  method GetTightEnclosingCircle(m: Numerics, circles: seq<Circle>) returns (enclosing: Circle)
    ensures circles == [] ==> enclosing == Circle(ORIGIN, 0.0)
    ensures circles != [] ==>
      enclosing.position == MinimalScan(m, Positions(circles), |circles|).value.position
    ensures circles != [] ==> Encloses(m, enclosing, circles) && Touches(m, enclosing, circles)
  {
    if |circles| == 0 {
      return Circle(ORIGIN, 0.0);
    }
    var points := Positions(circles);
    var mec := ComputeMinimalEnclosingCircle(m, points);
    var maxDistance := MaxReach(m, mec.position, circles);
    enclosing := Circle(mec.position, maxDistance);
  }

  // ----- GetEnclosingCircle -----

  /** The four sides of a circle's bounding rectangle. */
  datatype Side = Left | Right | Up | Down

  /** The coordinate of one side of the rectangle around c. */
  function Edge(c: Circle, side: Side): real {
    match side
    case Left => c.position.x - c.radius
    case Right => c.position.x + c.radius
    case Up => c.position.y - c.radius
    case Down => c.position.y + c.radius
  }

  /** Running minimum of one side, from float.MaxValue: it bounds that side of every circle,
      and it is float.MaxValue or the side of some circle. */
  function MinEdge(circles: seq<Circle>, side: Side): (r: real)
    ensures r <= FLOAT_MAX
    ensures forall i :: 0 <= i < |circles| ==> r <= Edge(circles[i], side)
    ensures r == FLOAT_MAX || exists i :: 0 <= i < |circles| && r == Edge(circles[i], side)
  {
    if circles == [] then FLOAT_MAX
    else Min(MinEdge(circles[..|circles| - 1], side), Edge(circles[|circles| - 1], side))
  }

  /** Running maximum of one side, from float.MinValue (the negation of float.MaxValue). */
  function MaxEdge(circles: seq<Circle>, side: Side): (r: real)
    ensures r >= -FLOAT_MAX
    ensures forall i :: 0 <= i < |circles| ==> Edge(circles[i], side) <= r
    ensures r == -FLOAT_MAX || exists i :: 0 <= i < |circles| && r == Edge(circles[i], side)
  {
    if circles == [] then -FLOAT_MAX
    else Max(MaxEdge(circles[..|circles| - 1], side), Edge(circles[|circles| - 1], side))
  }

  /** The four running bounds of the loop in GetEnclosingCircle. */
  predicate BoxOf(circles: seq<Circle>, xMin: real, xMax: real, yMin: real, yMax: real) {
    xMin == MinEdge(circles, Left) && xMax == MaxEdge(circles, Right) &&
    yMin == MinEdge(circles, Up) && yMax == MaxEdge(circles, Down)
  }

  /** One more circle folds its sides into the running bounds. */
  lemma EdgesStep(circles: seq<Circle>, i: nat, xMin: real, xMax: real, yMin: real, yMax: real)
    requires i < |circles|
    requires BoxOf(circles[..i], xMin, xMax, yMin, yMax)
    ensures BoxOf(circles[..i + 1], Min(xMin, Edge(circles[i], Left)), Max(xMax, Edge(circles[i], Right)),
                  Min(yMin, Edge(circles[i], Up)), Max(yMax, Edge(circles[i], Down)))
  {
    MinEdgeStep(circles, i, Left);
    MaxEdgeStep(circles, i, Right);
    MinEdgeStep(circles, i, Up);
    MaxEdgeStep(circles, i, Down);
  }

  lemma MinEdgeStep(circles: seq<Circle>, i: nat, side: Side)
    requires i < |circles|
    ensures MinEdge(circles[..i + 1], side) == Min(MinEdge(circles[..i], side), Edge(circles[i], side))
  {
    assert circles[..i + 1][..i] == circles[..i];
  }

  lemma MaxEdgeStep(circles: seq<Circle>, i: nat, side: Side)
    requires i < |circles|
    ensures MaxEdge(circles[..i + 1], side) == Max(MaxEdge(circles[..i], side), Edge(circles[i], side))
  {
    assert circles[..i + 1][..i] == circles[..i];
  }

  /** Midpoint of the bounding box of the circles. */
  function BoxCentre(circles: seq<Circle>): Point {
    Point((MinEdge(circles, Left) + MaxEdge(circles, Right)) / 2.0,
          (MinEdge(circles, Up) + MaxEdge(circles, Down)) / 2.0)
  }

  /** GetEnclosingCircle: the circle about the bounding-box midpoint that contains every circle
      and touches one. */
  method GetEnclosingCircle(m: Numerics, circles: seq<Circle>) returns (enclosing: Circle)
    ensures circles == [] ==> enclosing == Circle(ORIGIN, 0.0)
    ensures circles != [] ==> enclosing.position == BoxCentre(circles)
    ensures circles != [] ==> Encloses(m, enclosing, circles) && Touches(m, enclosing, circles)
  {
    if |circles| == 0 {
      return Circle(ORIGIN, 0.0);
    }
    var xMin, xMax := FLOAT_MAX, -FLOAT_MAX;
    var yMin, yMax := FLOAT_MAX, -FLOAT_MAX;
    for i := 0 to |circles|
      invariant BoxOf(circles[..i], xMin, xMax, yMin, yMax)
    {
      var c := circles[i];
      EdgesStep(circles, i, xMin, xMax, yMin, yMax);
      xMin, xMax := Min(xMin, Edge(c, Left)), Max(xMax, Edge(c, Right));
      yMin, yMax := Min(yMin, Edge(c, Up)), Max(yMax, Edge(c, Down));
    }
    assert circles[..|circles|] == circles;
    assert BoxOf(circles, xMin, xMax, yMin, yMax);
    var center := Point((xMin + xMax) / 2.0, (yMin + yMax) / 2.0);
    var radius := MaxReach(m, center, circles);
    enclosing := Circle(center, radius);
  }
}
