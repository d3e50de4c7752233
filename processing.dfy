/** The placement search of the circle packer: tangent candidates for every ordered pair of
    distinct packed circles, the accepted candidate nearest the origin, and a bounded outward
    spiral as the fallback. */
module Processing {
  import opened Circles

  /** Number of spiral positions tried before giving up. */
  const SPIRAL_STEPS: nat := 10000

  /** Some packed circle overlaps the candidate (the source's `Any(c => c.Overlaps(candidate))`). */
  predicate AnyOverlaps(packed: seq<Circle>, candidate: Circle) {
    exists i :: 0 <= i < |packed| && Overlaps(packed[i], candidate)
  }

  // ----- TangentPositions -----

  /** The point at polar offset (r, a) from centre. */
  function AtAngle(m: Numerics, centre: Point, r: real, a: real): Point {
    Point(centre.x + r * m.cos(a), centre.y + r * m.sin(a))
  }

  /** TangentPositions: the centres at distance R1 = c1.radius + newRadius from c1 where the law
      of cosines says a circle of radius newRadius would touch both c1 and c2. No candidate when
      the centres (nearly) coincide; when R1 is zero the cosine has a zero divisor and no
      candidate is produced either. */
  function TangentPositions(m: Numerics, c1: Circle, c2: Circle, newRadius: real): (ps: seq<Point>)
    ensures |ps| == 0 || |ps| == 2
  {
    var R1 := c1.radius + newRadius;
    var R2 := c2.radius + newRadius;
    var dx := c2.position.x - c1.position.x;
    var dy := c2.position.y - c1.position.y;
    var d := m.sqrt(Sq(dx) + Sq(dy));
    if d < 0.00001 || R1 == 0.0 then []
    else TangentPair(m, c1.position, R1, m.atan2(dy, dx), CosineAtFirstCentre(R1, R2, d))
  }

  /** Law of cosines: the cosine of the angle opposite side R2 in the triangle with sides R1, d, R2. */
  function CosineAtFirstCentre(R1: real, R2: real, d: real): real
    requires R1 != 0.0 && d != 0.0
  {
    (Sq(R1) + Sq(d) - Sq(R2)) / (2.0 * R1 * d)
  }

  /** The two points at distance R1 from centre, at angle +- acos(cos) around angle; none when
      cos lies outside [-1, 1]. */
  function TangentPair(m: Numerics, centre: Point, R1: real, angle: real, cos: real): seq<Point> {
    if cos < -1.0 || cos > 1.0 then []
    else
      var theta := m.acos(cos);
      [AtAngle(m, centre, R1, angle + theta), AtAngle(m, centre, R1, angle - theta)]
  }

  /** A polar offset of length r lands at squared distance r * r from its centre. */
  lemma AtAngleDistance(m: Numerics, centre: Point, r: real, a: real)
    requires TrigLaw(m)
    ensures SqDist(AtAngle(m, centre, r, a), centre) == Sq(r)
  {
    var c, s := m.cos(a), m.sin(a);
    assert c * c + s * s == 1.0;
    assert Sq(r * c) + Sq(r * s) == r * r * (c * c + s * s);
  }

  /** Both points of a tangent pair lie at distance R1 from the centre, whatever the angles. */
  lemma TangentPairOnCircle(m: Numerics, centre: Point, R1: real)
    requires TrigLaw(m)
    ensures forall angle, cos, p :: p in TangentPair(m, centre, R1, angle, cos) ==> SqDist(p, centre) == Sq(R1)
  {
    forall angle, cos | -1.0 <= cos <= 1.0
      ensures forall p :: p in TangentPair(m, centre, R1, angle, cos) ==> SqDist(p, centre) == Sq(R1)
    {
      AtAngleDistance(m, centre, R1, angle + m.acos(cos));
      AtAngleDistance(m, centre, R1, angle - m.acos(cos));
    }
  }

  /** Every tangent candidate lies on the circle of radius c1.radius + newRadius around c1. */
  lemma TangentPositionsOnCircle(m: Numerics, c1: Circle, c2: Circle, newRadius: real)
    requires TrigLaw(m)
    ensures forall p :: p in TangentPositions(m, c1, c2, newRadius) ==>
      SqDist(p, c1.position) == Sq(c1.radius + newRadius)
  {
    TangentPairOnCircle(m, c1.position, c1.radius + newRadius);
  }

  /** Circles whose centres coincide give no tangent candidate. */
  lemma TangentPositionsOfConcentric(m: Numerics, c1: Circle, c2: Circle, newRadius: real)
    requires SqrtLaw(m)
    requires c1.position == c2.position
    ensures TangentPositions(m, c1, c2, newRadius) == []
  {
    SqrtOfSquare(m, 0.0, 0.0);
  }

  // ----- FindBestPositionForCircle -----

  /** The tangent candidates of the ordered pair (i, j); none for i == j. */
  function PairCandidates(m: Numerics, packed: seq<Circle>, r: real, i: nat, j: nat): seq<Point>
    requires i < |packed| && j < |packed|
  {
    if i == j then [] else TangentPositions(m, packed[i], packed[j], r)
  }

  /** The candidates of row i, for the partners j < n, in iteration order. */
  function RowCandidates(m: Numerics, packed: seq<Circle>, r: real, i: nat, n: nat): seq<Point>
    requires i < |packed| && n <= |packed|
  {
    if n == 0 then [] else RowCandidates(m, packed, r, i, n - 1) + PairCandidates(m, packed, r, i, n - 1)
  }

  /** The candidates of rows i < n, in iteration order. */
  function Candidates(m: Numerics, packed: seq<Circle>, r: real, n: nat): seq<Point>
    requires n <= |packed|
  {
    if n == 0 then [] else Candidates(m, packed, r, n - 1) + RowCandidates(m, packed, r, n - 1, |packed|)
  }

  /** A candidate the search may keep: no packed circle overlaps it and its length is below
      float.MaxValue, the initial best distance. */
  predicate Eligible(m: Numerics, packed: seq<Circle>, r: real, p: Point) {
    !AnyOverlaps(packed, Circle(p, r)) && Length(m, p) < FLOAT_MAX
  }

  /** The state of the tangent search: the best circle so far and its distance from the origin. */
  datatype Best = Best(circle: Option<Circle>, distance: real)

  /** One candidate considered: kept when no packed circle overlaps it and it is strictly nearer
      the origin than the best so far. */
  function Consider(m: Numerics, packed: seq<Circle>, r: real, best: Best, p: Point): Best {
    if !AnyOverlaps(packed, Circle(p, r)) && Length(m, p) < best.distance then Best(Some(Circle(p, r)), Length(m, p))
    else best
  }

  /** The search state after considering cands in order, starting from start. */
  function ScanFrom(m: Numerics, packed: seq<Circle>, r: real, start: Best, cands: seq<Point>): Best
    decreases |cands|
  {
    if cands == [] then start
    else Consider(m, packed, r, ScanFrom(m, packed, r, start, cands[..|cands| - 1]), cands[|cands| - 1])
  }

  /** The best circle and best distance after scanning cands from the initial state (nothing,
      float.MaxValue). */
  function NearestScan(m: Numerics, packed: seq<Circle>, r: real, cands: seq<Point>): Best {
    ScanFrom(m, packed, r, Best(None, FLOAT_MAX), cands)
  }

  /** Scanning two runs of candidates one after the other is scanning their concatenation. */
  lemma {:induction false} ScanFromAppend(m: Numerics, packed: seq<Circle>, r: real, start: Best, xs: seq<Point>, ys: seq<Point>)
    ensures ScanFrom(m, packed, r, start, xs + ys) == ScanFrom(m, packed, r, ScanFrom(m, packed, r, start, xs), ys)
    decreases |ys|
  {
    if ys == [] {
      assert xs + ys == xs;
    } else {
      var zs := ys[..|ys| - 1];
      assert (xs + ys)[..|xs + ys| - 1] == xs + zs;
      ScanFromAppend(m, packed, r, start, xs, zs);
    }
  }

  /** One more candidate scanned. */
  lemma ScanFromSnoc(m: Numerics, packed: seq<Circle>, r: real, start: Best, xs: seq<Point>, p: Point)
    ensures ScanFrom(m, packed, r, start, xs + [p]) == Consider(m, packed, r, ScanFrom(m, packed, r, start, xs), p)
  {
    assert (xs + [p])[..|xs|] == xs;
  }

  /** Index k of cands holds the first eligible candidate of least length. */
  ghost predicate FirstNearest(m: Numerics, packed: seq<Circle>, r: real, cands: seq<Point>, k: int) {
    0 <= k < |cands| && Eligible(m, packed, r, cands[k]) &&
    (forall j :: 0 <= j < k && Eligible(m, packed, r, cands[j]) ==> Length(m, cands[k]) < Length(m, cands[j])) &&
    (forall j :: k < j < |cands| && Eligible(m, packed, r, cands[j]) ==> Length(m, cands[k]) <= Length(m, cands[j]))
  }

  /** At most one index is the first nearest: ties go to the earlier candidate. */
  lemma FirstNearestUnique(m: Numerics, packed: seq<Circle>, r: real, cands: seq<Point>, k1: int, k2: int)
    requires FirstNearest(m, packed, r, cands, k1) && FirstNearest(m, packed, r, cands, k2)
    ensures k1 == k2
  {
  }

  /** The scan finds nothing exactly when no candidate is eligible, and otherwise keeps the first
      eligible candidate of least length, with its length as the best distance. */
  lemma {:induction false} NearestScanIsFirstNearest(m: Numerics, packed: seq<Circle>, r: real, cands: seq<Point>)
    ensures var Best(best, bestDistance) := NearestScan(m, packed, r, cands);
      (best.None? <==> forall j :: 0 <= j < |cands| ==> !Eligible(m, packed, r, cands[j])) &&
      (best.None? ==> bestDistance == FLOAT_MAX) &&
      (best.Some? ==>
         exists k :: FirstNearest(m, packed, r, cands, k) && best.value == Circle(cands[k], r) && bestDistance == Length(m, cands[k]))
    decreases |cands|
  {
    if cands != [] {
      var n := |cands| - 1;
      var s, p := cands[..n], cands[n];
      assert forall j :: 0 <= j < n ==> cands[j] == s[j];
      NearestScanIsFirstNearest(m, packed, r, s);
      var Best(best0, bd0) := NearestScan(m, packed, r, s);
      if best0.Some? {
        var k0 :| FirstNearest(m, packed, r, s, k0) && best0.value == Circle(s[k0], r) && bd0 == Length(m, s[k0]);
        assert forall j :: 0 <= j < n && Eligible(m, packed, r, s[j]) ==> Length(m, s[k0]) <= Length(m, s[j]);
        if !AnyOverlaps(packed, Circle(p, r)) && Length(m, p) < bd0 {
          assert FirstNearest(m, packed, r, cands, n);
        } else {
          assert FirstNearest(m, packed, r, cands, k0);
        }
      } else if !AnyOverlaps(packed, Circle(p, r)) && Length(m, p) < bd0 {
        assert FirstNearest(m, packed, r, cands, n);
      }
    }
  }

  /** The tangent phase's result: the first accepted candidate nearest the origin, if any. */
  function BestPlacement(m: Numerics, toPlace: Circle, packed: seq<Circle>): Option<Circle> {
    NearestScan(m, packed, toPlace.radius, Candidates(m, packed, toPlace.radius, |packed|)).circle
  }

  /** The innermost loop of FindBestPositionForCircle: the tangent positions of one pair,
      considered in order. */
  method ScanPositions(m: Numerics, packed: seq<Circle>, r: real, positions: seq<Point>, best0: Option<Circle>, distance0: real)
    returns (bestCircle: Option<Circle>, bestDistance: real)
    ensures Best(bestCircle, bestDistance) == ScanFrom(m, packed, r, Best(best0, distance0), positions)
  {
    bestCircle, bestDistance := best0, distance0;
    for k := 0 to |positions|
      invariant Best(bestCircle, bestDistance) == ScanFrom(m, packed, r, Best(best0, distance0), positions[..k])
    {
      var pos := positions[k];
      var candidate := Circle(pos, r);
      ScanFromSnoc(m, packed, r, Best(best0, distance0), positions[..k], pos);
      assert positions[..k + 1] == positions[..k] + [pos];
      if !AnyOverlaps(packed, candidate) {
        var dist := Length(m, pos);
        if dist < bestDistance {
          bestDistance := dist;
          bestCircle := Some(candidate);
        }
      }
    }
    assert positions[..|positions|] == positions;
  }

  /** The middle loop of FindBestPositionForCircle: every partner b of packed circle i, skipping
      the circle itself. */
  method ScanRow(m: Numerics, packed: seq<Circle>, r: real, i: nat, best0: Option<Circle>, distance0: real)
    returns (bestCircle: Option<Circle>, bestDistance: real)
    requires i < |packed|
    ensures Best(bestCircle, bestDistance) == ScanFrom(m, packed, r, Best(best0, distance0), RowCandidates(m, packed, r, i, |packed|))
  {
    bestCircle, bestDistance := best0, distance0;
    for j: nat := 0 to |packed|
      invariant Best(bestCircle, bestDistance) == ScanFrom(m, packed, r, Best(best0, distance0), RowCandidates(m, packed, r, i, j))
    {
      ScanFromAppend(m, packed, r, Best(best0, distance0), RowCandidates(m, packed, r, i, j), PairCandidates(m, packed, r, i, j));
      if i != j {
        var positions := TangentPositions(m, packed[i], packed[j], r);
        bestCircle, bestDistance := ScanPositions(m, packed, r, positions, bestCircle, bestDistance);
      }
    }
  }

  /** FindBestPositionForCircle: every ordered pair of distinct packed circles, each tangent
      candidate of the pair, the accepted candidate of least length kept. */
  method FindBestPositionForCircle(m: Numerics, toPlace: Circle, packed: seq<Circle>) returns (bestCircle: Option<Circle>)
    ensures bestCircle == BestPlacement(m, toPlace, packed)
  {
    var r := toPlace.radius;
    bestCircle := None;
    var bestDistance := FLOAT_MAX;
    for i: nat := 0 to |packed|
      invariant Best(bestCircle, bestDistance) == NearestScan(m, packed, r, Candidates(m, packed, r, i))
    {
      ScanFromAppend(m, packed, r, Best(None, FLOAT_MAX), Candidates(m, packed, r, i), RowCandidates(m, packed, r, i, |packed|));
      bestCircle, bestDistance := ScanRow(m, packed, r, i, bestCircle, bestDistance);
    }
  }

  /** A tangent placement keeps the radius and overlaps no packed circle. */
  lemma BestPlacementAccepted(m: Numerics, toPlace: Circle, packed: seq<Circle>)
    ensures var best := BestPlacement(m, toPlace, packed);
      best.Some? ==> best.value.radius == toPlace.radius && !AnyOverlaps(packed, best.value)
  {
    NearestScanIsFirstNearest(m, packed, toPlace.radius, Candidates(m, packed, toPlace.radius, |packed|));
  }

  /** A tangent position of partner j < n is among the candidates of row i. */
  lemma {:induction false} PairInRow(m: Numerics, packed: seq<Circle>, r: real, i: nat, j: nat, n: nat, p: Point)
    requires i < |packed| && j < n <= |packed|
    requires p in PairCandidates(m, packed, r, i, j)
    ensures p in RowCandidates(m, packed, r, i, n)
    decreases n
  {
    if j < n - 1 {
      PairInRow(m, packed, r, i, j, n - 1, p);
    }
  }

  /** Every candidate of row i comes from some partner j < n. */
  lemma {:induction false} RowFromPair(m: Numerics, packed: seq<Circle>, r: real, i: nat, n: nat, p: Point)
    requires i < |packed| && n <= |packed|
    requires p in RowCandidates(m, packed, r, i, n)
    ensures exists j :: 0 <= j < n && p in PairCandidates(m, packed, r, i, j)
    decreases n
  {
    if p in RowCandidates(m, packed, r, i, n - 1) {
      RowFromPair(m, packed, r, i, n - 1, p);
    } else {
      assert p in PairCandidates(m, packed, r, i, n - 1);
    }
  }

  /** The candidates of row i < n are among the candidates of the first n rows. */
  lemma {:induction false} RowInCandidates(m: Numerics, packed: seq<Circle>, r: real, i: nat, n: nat, p: Point)
    requires i < n <= |packed|
    requires p in RowCandidates(m, packed, r, i, |packed|)
    ensures p in Candidates(m, packed, r, n)
    decreases n
  {
    assert Candidates(m, packed, r, n) == Candidates(m, packed, r, n - 1) + RowCandidates(m, packed, r, n - 1, |packed|);
    if i < n - 1 {
      RowInCandidates(m, packed, r, i, n - 1, p);
    }
  }

  /** Every candidate of the first n rows comes from some row i < n. */
  lemma {:induction false} CandidateFromRow(m: Numerics, packed: seq<Circle>, r: real, n: nat, p: Point)
    requires n <= |packed|
    requires p in Candidates(m, packed, r, n)
    ensures exists i :: 0 <= i < n && p in RowCandidates(m, packed, r, i, |packed|)
    decreases n
  {
    if p in Candidates(m, packed, r, n - 1) {
      CandidateFromRow(m, packed, r, n - 1, p);
    } else {
      assert p in RowCandidates(m, packed, r, n - 1, |packed|);
    }
  }

  /** A point is a candidate exactly when it is a tangent position of an ordered pair of
      distinct packed circles. */
  lemma CandidatesFromDistinctPairs(m: Numerics, packed: seq<Circle>, r: real, p: Point)
    ensures p in Candidates(m, packed, r, |packed|) <==>
      exists i, j :: 0 <= i < |packed| && 0 <= j < |packed| && i != j && p in TangentPositions(m, packed[i], packed[j], r)
  {
    if p in Candidates(m, packed, r, |packed|) {
      CandidateFromRow(m, packed, r, |packed|, p);
      var i :| 0 <= i < |packed| && p in RowCandidates(m, packed, r, i, |packed|);
      RowFromPair(m, packed, r, i, |packed|, p);
      var j :| 0 <= j < |packed| && p in PairCandidates(m, packed, r, i, j);
      assert i != j && p in TangentPositions(m, packed[i], packed[j], r);
    }
    if exists i, j :: 0 <= i < |packed| && 0 <= j < |packed| && i != j && p in TangentPositions(m, packed[i], packed[j], r) {
      var i, j :| 0 <= i < |packed| && 0 <= j < |packed| && i != j && p in TangentPositions(m, packed[i], packed[j], r);
      PairInRow(m, packed, r, i, j, |packed|, p);
      RowInCandidates(m, packed, r, i, |packed|, p);
    }
  }

  /** With fewer than two packed circles there is no distinct pair, so no tangent placement. */
  lemma NoPlacementBelowTwoCircles(m: Numerics, toPlace: Circle, packed: seq<Circle>)
    requires |packed| < 2
    ensures BestPlacement(m, toPlace, packed) == None
  {
    var r := toPlace.radius;
    if |packed| == 1 {
      assert RowCandidates(m, packed, r, 0, 1) == [];
      assert Candidates(m, packed, r, 1) == [];
    }
  }

  // ----- PlaceNextCircleAggressively -----

  /** The i-th spiral candidate: angle 0.1 * i, distance toPlace.radius + 0.1 * i from the origin. */
  function SpiralCandidate(m: Numerics, toPlace: Circle, i: nat): Circle {
    Circle(AtAngle(m, ORIGIN, toPlace.radius + 0.1 * i as real, 0.1 * i as real), toPlace.radius)
  }

  /** Spiral candidate k is the first of the 10000 that no packed circle overlaps. */
  predicate IsSpiralFirstFit(m: Numerics, toPlace: Circle, packed: seq<Circle>, k: nat) {
    k < SPIRAL_STEPS && !AnyOverlaps(packed, SpiralCandidate(m, toPlace, k)) &&
    forall j: nat :: j < k ==> AnyOverlaps(packed, SpiralCandidate(m, toPlace, j))
  }

  /** The first fit is unique. */
  lemma SpiralFirstFitUnique(m: Numerics, toPlace: Circle, packed: seq<Circle>, k1: nat, k2: nat)
    requires IsSpiralFirstFit(m, toPlace, packed, k1) && IsSpiralFirstFit(m, toPlace, packed, k2)
    ensures k1 == k2
  {
  }

  /** Spiral candidate i lies at distance |toPlace.radius + 0.1 * i| from the origin. */
  lemma SpiralCandidateDistance(m: Numerics, toPlace: Circle, i: nat)
    requires TrigLaw(m)
    ensures SqDist(SpiralCandidate(m, toPlace, i).position, ORIGIN) == Sq(toPlace.radius + 0.1 * i as real)
  {
    AtAngleDistance(m, ORIGIN, toPlace.radius + 0.1 * i as real, 0.1 * i as real);
  }

  /** PlaceNextCircleAggressively: the tangent placement when there is one, otherwise the first
      of 10000 spiral positions that overlaps no packed circle, otherwise nothing. */
  method PlaceNextCircleAggressively(m: Numerics, toPlace: Circle, packed: seq<Circle>) returns (placed: Option<Circle>)
    ensures BestPlacement(m, toPlace, packed).Some? ==> placed == BestPlacement(m, toPlace, packed)
    ensures BestPlacement(m, toPlace, packed).None? && placed.Some? ==>
      exists k: nat :: IsSpiralFirstFit(m, toPlace, packed, k) && placed.value == SpiralCandidate(m, toPlace, k)
    ensures BestPlacement(m, toPlace, packed).None? ==>
      (placed.None? <==> forall k: nat :: k < SPIRAL_STEPS ==> AnyOverlaps(packed, SpiralCandidate(m, toPlace, k)))
    ensures placed.Some? ==> placed.value.radius == toPlace.radius && !AnyOverlaps(packed, placed.value)
  {
    var bestPosition := FindBestPositionForCircle(m, toPlace, packed);
    BestPlacementAccepted(m, toPlace, packed);
    if bestPosition.Some? {
      return bestPosition;
    }

    var angle := 0.0;
    var step := 0.1;
    var radius := toPlace.radius;
    var i: nat := 0;
    while i < SPIRAL_STEPS
      invariant i <= SPIRAL_STEPS
      invariant angle == 0.1 * i as real && radius == toPlace.radius + 0.1 * i as real
      invariant forall j: nat :: j < i ==> AnyOverlaps(packed, SpiralCandidate(m, toPlace, j))
    {
      var x := radius * m.cos(angle);
      var y := radius * m.sin(angle);
      var candidate := Circle(Point(x, y), toPlace.radius);
      assert candidate == SpiralCandidate(m, toPlace, i);
      if !AnyOverlaps(packed, candidate) {
        assert IsSpiralFirstFit(m, toPlace, packed, i);
        return Some(candidate);
      }
      angle := angle + step;
      radius := radius + 0.1;
      i := i + 1;
    }
    return None;
  }
}
