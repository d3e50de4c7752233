/** Points, circles, the overlap test and the distance function of the circle packer.
    Single-precision coordinates are modelled as reals; the math library routines
    (square root, cosine, sine, arc cosine, two-argument arc tangent) are not
    interpreted: they are the fields of a `Numerics` value that every caller passes in. */
module Circles {

  datatype Option<T> = None | Some(value: T)

  /** A point of the plane (SKPoint). */
  datatype Point = Point(x: real, y: real)

  /** A circle: its centre and its radius. */
  datatype Circle = Circle(position: Point, radius: real)

  /** The library routines the geometry calls, left uninterpreted. */
  datatype Numerics = Numerics(
    sqrt: real -> real,
    cos: real -> real,
    sin: real -> real,
    acos: real -> real,
    atan2: (real, real) -> real)

  const ORIGIN := Point(0.0, 0.0)

  /** float.MaxValue; float.MinValue is its negation. */
  const FLOAT_MAX: real := 340282346638528859811704183484516925440.0

  function Sq(x: real): real { x * x }

  function Min(a: real, b: real): real { if a <= b then a else b }

  function Max(a: real, b: real): real { if a >= b then a else b }

  function Abs(a: real): real { if a < 0.0 then -a else a }

  /** Squared Euclidean distance. */
  function SqDist(a: Point, b: Point): real { Sq(a.x - b.x) + Sq(a.y - b.y) }

  /** Distance of the enclosing-circle helper: the square root of the squared distance. */
  function Distance(m: Numerics, a: Point, b: Point): real { m.sqrt(SqDist(a, b)) }

  /** SKPoint.Length: distance of a point from the origin. */
  function Length(m: Numerics, p: Point): real { m.sqrt(p.x * p.x + p.y * p.y) }

  /** a.Overlaps(b): the squared centre distance is strictly below the squared radius sum. */
  predicate Overlaps(a: Circle, b: Circle) {
    var dx := a.position.x - b.position.x;
    var dy := a.position.y - b.position.y;
    var distanceSq := dx * dx + dy * dy;
    var radiusSum := a.radius + b.radius;
    distanceSq < radiusSum * radiusSum
  }

  /** The square root the model may rely on, where a lemma says so: it returns the
      non-negative root of a non-negative argument. */
  ghost predicate SqrtLaw(m: Numerics) {
    forall x: real :: 0.0 <= x ==> 0.0 <= m.sqrt(x) && m.sqrt(x) * m.sqrt(x) == x
  }

  /** The Pythagorean identity for the cosine and sine, where a lemma relies on it. */
  ghost predicate TrigLaw(m: Numerics) {
    forall a: real :: m.cos(a) * m.cos(a) + m.sin(a) * m.sin(a) == 1.0
  }

  lemma SqNonNegative(x: real)
    ensures Sq(x) >= 0.0
  {
    if x < 0.0 {
      assert Sq(x) == (-x) * (-x);
    }
  }

  /** For non-negative numbers, comparing squares compares the numbers. */
  lemma SquareMonotone(x: real, y: real)
    requires 0.0 <= x && 0.0 <= y
    ensures x < y <==> x * x < y * y
  {
    var xx, xy, yy := x * x, x * y, y * y;
    if x < y {
      MulNonNegative(x, y - x);
      MulPositive(y, y - x);
      assert xx <= xy < yy;
    } else {
      MulNonNegative(y, x - y);
      MulNonNegative(x, x - y);
      assert yy <= xy <= xx;
    }
  }

  lemma MulNonNegative(a: real, b: real)
    requires 0.0 <= a && 0.0 <= b
    ensures 0.0 <= a * b
  {
  }

  lemma MulPositive(a: real, b: real)
    requires 0.0 < a && 0.0 < b
    ensures 0.0 < a * b
  {
  }

  /** Under SqrtLaw the square root is the unique non-negative root. */
  lemma SqrtOfSquare(m: Numerics, x: real, s: real)
    requires SqrtLaw(m)
    requires 0.0 <= x && 0.0 <= s && s * s == x
    ensures m.sqrt(x) == s
  {
    var t := m.sqrt(x);
    assert 0.0 <= t && t * t == x;
    if t < s {
      SquareMonotone(t, s);
    } else if s < t {
      SquareMonotone(s, t);
    }
  }

  /** Overlaps is symmetric. */
  lemma OverlapsSymmetric(a: Circle, b: Circle)
    ensures Overlaps(a, b) <==> Overlaps(b, a)
  {
    var dx, dy := a.position.x - b.position.x, a.position.y - b.position.y;
    assert (-dx) * (-dx) == dx * dx;
    assert (-dy) * (-dy) == dy * dy;
    assert b.radius + a.radius == a.radius + b.radius;
  }

  /** Circles whose centres are exactly the radius sum apart touch and do not overlap. */
  lemma TangentCirclesDoNotOverlap(a: Circle, b: Circle)
    requires SqDist(a.position, b.position) == Sq(a.radius + b.radius)
    ensures !Overlaps(a, b)
  {
  }

  /** For non-negative radii, Overlaps says that the centres are closer than the radius sum. */
  lemma OverlapsIffCloserThanRadiusSum(m: Numerics, a: Circle, b: Circle)
    requires SqrtLaw(m)
    requires a.radius + b.radius >= 0.0
    ensures Overlaps(a, b) <==> Distance(m, a.position, b.position) < a.radius + b.radius
  {
    var q := SqDist(a.position, b.position);
    SqNonNegative(a.position.x - b.position.x);
    SqNonNegative(a.position.y - b.position.y);
    var d := m.sqrt(q);
    assert 0.0 <= d && d * d == q;
    SquareMonotone(d, a.radius + b.radius);
  }
}
