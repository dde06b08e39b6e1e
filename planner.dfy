/** `generateWaypoints(start, end, count)` of client/src/hooks/use-preload.ts:
    `count` points evenly spaced on the straight segment from `start` to
    `end`, both ends excluded. Points are `[latitude, longitude]` pairs;
    arithmetic is over the reals (floating-point rounding is not modelled). */
module RoutePlanner {
  import opened Schema

  const DefaultCount := 3

  /** `i / (count + 1)`, the position of the i-th point (1-based) along the segment. */
  function Ratio(i: int, count: int): real
    requires count >= 1
  {
    i as real / (count + 1) as real
  }

  function Scale(x: real, ratio: real): real {
    x * ratio
  }

  /** `a + (b - a) * ratio`. */
  function Lerp(a: real, b: real, ratio: real): real {
    a + Scale(b - a, ratio)
  }

  /** The i-th point (1-based) of `count`. */
  function Point(start: (real, real), end: (real, real), i: int, count: int): Coordinate
    requires count >= 1
  {
    Coordinate(Lerp(start.0, end.0, Ratio(i, count)), Lerp(start.1, end.1, Ratio(i, count)))
  }

  /** `generateWaypoints(start, end, count)`. */
  method GenerateWaypoints(start: (real, real), end: (real, real), count: int)
    returns (waypoints: seq<Coordinate>)
    ensures |waypoints| == if count > 0 then count else 0
    ensures forall k :: 0 <= k < |waypoints| ==> count >= 1 && waypoints[k] == Point(start, end, k + 1, count)
  {
    waypoints := [];
    var i := 1;
    while i <= count
      invariant 1 <= i <= (if count > 0 then count + 1 else 1)
      invariant |waypoints| == i - 1
      invariant forall k :: 0 <= k < |waypoints| ==> count >= 1 && waypoints[k] == Point(start, end, k + 1, count)
    {
      var ratio := i as real / (count + 1) as real;
      waypoints := waypoints + [Coordinate(start.0 + (end.0 - start.0) * ratio, start.1 + (end.1 - start.1) * ratio)];
      i := i + 1;
    }
  }

  // ---------------------------------------------------------------------
  // Properties of the interpolation
  // ---------------------------------------------------------------------

  /** Every ratio of `1..count` lies strictly between 0 and 1, and they grow with i. */
  lemma RatioBounds(i: int, j: int, count: int)
    requires count >= 1 && 1 <= i <= count && 1 <= j <= count
    ensures 0.0 < Ratio(i, count) < 1.0
    ensures i < j ==> Ratio(i, count) < Ratio(j, count)
  {
    var d := (count + 1) as real;
    assert Ratio(i, count) * d == i as real;
    assert Ratio(j, count) * d == j as real;
  }

  /** Multiplying by a positive factor keeps a strict order. */
  lemma ScaleStrict(x: real, y: real, z: real)
    requires x > 0.0 && y < z
    ensures Scale(x, y) < Scale(x, z)
  {
    assert x * z - x * y == x * (z - y);
    assert x * (z - y) > 0.0;
  }

  lemma ScalePositive(x: real, ratio: real)
    requires x > 0.0 && 0.0 < ratio
    ensures 0.0 < Scale(x, ratio)
  {
  }

  lemma ScaleBelow(x: real, ratio: real)
    requires x > 0.0 && ratio < 1.0
    ensures Scale(x, ratio) < x
  {
    assert x - x * ratio == x * (1.0 - ratio);
    assert x * (1.0 - ratio) > 0.0;
  }

  lemma ScaleNegate(x: real, ratio: real)
    ensures Scale(-x, ratio) == -Scale(x, ratio)
  {
  }

  /** A value interpolated strictly inside (0, 1) lies strictly between the two
      ends when they differ, and equals them when they coincide. */
  lemma LerpBetween(a: real, b: real, ratio: real)
    requires 0.0 < ratio < 1.0
    ensures a < b ==> a < Lerp(a, b, ratio) < b
    ensures b < a ==> b < Lerp(a, b, ratio) < a
    ensures a == b ==> Lerp(a, b, ratio) == a
  {
    if a < b {
      ScalePositive(b - a, ratio);
      ScaleBelow(b - a, ratio);
    } else if b < a {
      ScalePositive(a - b, ratio);
      ScaleBelow(a - b, ratio);
      ScaleNegate(a - b, ratio);
      assert -(a - b) == b - a;
    }
  }

  /** A larger ratio moves further from the start towards the end. */
  lemma LerpMonotone(a: real, b: real, r1: real, r2: real)
    requires r1 < r2
    ensures a < b ==> Lerp(a, b, r1) < Lerp(a, b, r2)
    ensures b < a ==> Lerp(a, b, r2) < Lerp(a, b, r1)
  {
    if a < b {
      ScaleStrict(b - a, r1, r2);
    } else if b < a {
      ScaleStrict(a - b, r1, r2);
      ScaleNegate(a - b, r1);
      ScaleNegate(a - b, r2);
    }
  }

  /** Each generated point lies strictly between start and end in every
      coordinate where the two differ, and equals them where they coincide. */
  lemma PointBetween(start: (real, real), end: (real, real), i: int, count: int)
    requires count >= 1 && 1 <= i <= count
    ensures start.0 < end.0 ==> start.0 < Point(start, end, i, count).latitude < end.0
    ensures end.0 < start.0 ==> end.0 < Point(start, end, i, count).latitude < start.0
    ensures start.0 == end.0 ==> Point(start, end, i, count).latitude == start.0
    ensures start.1 < end.1 ==> start.1 < Point(start, end, i, count).longitude < end.1
    ensures end.1 < start.1 ==> end.1 < Point(start, end, i, count).longitude < start.1
    ensures start.1 == end.1 ==> Point(start, end, i, count).longitude == start.1
  {
    RatioBounds(i, i, count);
    LerpBetween(start.0, end.0, Ratio(i, count));
    LerpBetween(start.1, end.1, Ratio(i, count));
  }

  /** The points are ordered from start towards end. */
  lemma PointsOrdered(start: (real, real), end: (real, real), i: int, j: int, count: int)
    requires count >= 1 && 1 <= i < j <= count
    ensures start.0 < end.0 ==> Point(start, end, i, count).latitude < Point(start, end, j, count).latitude
    ensures end.0 < start.0 ==> Point(start, end, j, count).latitude < Point(start, end, i, count).latitude
    ensures start.1 < end.1 ==> Point(start, end, i, count).longitude < Point(start, end, j, count).longitude
    ensures end.1 < start.1 ==> Point(start, end, j, count).longitude < Point(start, end, i, count).longitude
  {
    RatioBounds(i, j, count);
    LerpMonotone(start.0, end.0, Ratio(i, count), Ratio(j, count));
    LerpMonotone(start.1, end.1, Ratio(i, count), Ratio(j, count));
  }

  /** With the default count the points sit at a quarter, half and three
      quarters of the way. */
  lemma DefaultQuarters(start: (real, real), end: (real, real))
    ensures Point(start, end, 1, DefaultCount) == Coordinate(Lerp(start.0, end.0, 0.25), Lerp(start.1, end.1, 0.25))
    ensures Point(start, end, 2, DefaultCount) == Coordinate(Lerp(start.0, end.0, 0.5), Lerp(start.1, end.1, 0.5))
    ensures Point(start, end, 3, DefaultCount) == Coordinate(Lerp(start.0, end.0, 0.75), Lerp(start.1, end.1, 0.75))
  {
    assert Ratio(1, DefaultCount) == 0.25;
    assert Ratio(2, DefaultCount) == 0.5;
    assert Ratio(3, DefaultCount) == 0.75;
  }
}
