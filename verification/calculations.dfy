/** The shared length helper of the utilities: the Euclidean distance between
    two points, rounded to the nearest whole pixel. Square roots are stated
    without reals: n is the rounded square root of d exactly when
    4d < (2n+1)^2 and, for n > 0, (2n-1)^2 <= 4d. */
module Calculations {
  import opened Types

  /** Squared Euclidean distance, dx^2 + dy^2. */
  function SquaredDistance(start: Point, end: Point): (d: nat)
  {
    (end.x - start.x) * (end.x - start.x) + (end.y - start.y) * (end.y - start.y)
  }

  /** n is the nearest integer to the square root of d: sqrt(d) lies in
      [n - 1/2, n + 1/2), squared and multiplied by four. */
  ghost predicate IsNearestSqrt(d: nat, n: nat)
  {
    4 * d < (2 * n + 1) * (2 * n + 1) && (n > 0 ==> (2 * n - 1) * (2 * n - 1) <= 4 * d)
  }

  /** Squaring is monotone on naturals. */
  lemma SquareMonotone(a: nat, b: nat)
    requires a <= b
    ensures a * a <= b * b
  {
  }

  /** (a + 1)^2 and (a + 2)^2 written out around a^2. */
  lemma SquareSucc(a: int)
    ensures (a + 1) * (a + 1) == a * a + 2 * a + 1
    ensures (a + 2) * (a + 2) == a * a + 4 * a + 4
    ensures (2 * a) * (2 * a) == 4 * (a * a)
    ensures (2 * a + 1) * (2 * a + 1) == 4 * (a * a) + 4 * a + 1
    ensures (2 * a - 1) * (2 * a - 1) == 4 * (a * a) - 4 * a + 1
  {
  }

  /** If s is the floor square root of d / 4, then 2s or 2s + 1 is that of d. */
  lemma SqrtStep(d: nat, s: nat)
    requires s * s <= d / 4 < (s + 1) * (s + 1)
    ensures (2 * s) * (2 * s) <= d < (2 * s + 2) * (2 * s + 2)
  {
  }

  /** Floor of the square root, halving the problem by a factor of four. */
  function IntSqrt(d: nat): (r: nat)
    ensures r * r <= d < (r + 1) * (r + 1)
    decreases d
  {
    if d < 4 then (if d == 0 then 0 else 1)
    else
      var s := IntSqrt(d / 4);
      SqrtStep(d, s);
      var r0 := 2 * s;
      if (r0 + 1) * (r0 + 1) <= d then r0 + 1 else r0
  }

  /** Rounds the square root of d half up, as Math.round(Math.sqrt(d)) does
      on a whole number d (a tie would need (n + 1/2)^2 to be whole). */
  function NearestSqrt(d: nat): (n: nat)
    ensures IsNearestSqrt(d, n)
  {
    var r := IntSqrt(d);
    SquareSucc(r);
    SquareSucc(r + 1);
    if d - r * r > r then r + 1 else r
  }

  /** The nearest-integer bounds leave only one candidate. */
  lemma {:induction false} NearestSqrtUnique(d: nat, n: nat, m: nat)
    requires IsNearestSqrt(d, n) && IsNearestSqrt(d, m)
    ensures n == m
  {
    if n < m {
      SquareMonotone(2 * n + 1, 2 * m - 1);
    } else if m < n {
      SquareMonotone(2 * m + 1, 2 * n - 1);
    }
  }

  /** A perfect square's rounded root is exact. */
  lemma NearestSqrtOfSquare(k: nat)
    ensures NearestSqrt(k * k) == k
  {
    SquareSucc(k);
    NearestSqrtUnique(k * k, NearestSqrt(k * k), k);
  }

  /** The bounds mean "nearest": every other whole k lies at least as far from
      sqrt(d) as n does, i.e. sqrt(d) is on n's side of the midpoint (n+k)/2. */
  lemma {:induction false} NearestSqrtIsNearest(d: nat, n: nat, k: nat)
    requires IsNearestSqrt(d, n)
    ensures k > n ==> 4 * d < (n + k) * (n + k)
    ensures k < n ==> (n + k) * (n + k) <= 4 * d
  {
    if k > n {
      SquareMonotone(2 * n + 1, n + k);
    } else if k < n {
      SquareMonotone(n + k, 2 * n - 1);
    }
  }

  /** calculateLineLength: Math.round(Math.sqrt(dx^2 + dy^2)). */
  function CalculateLineLength(start: Point, end: Point): (n: nat)
    ensures IsNearestSqrt(SquaredDistance(start, end), n)
  {
    NearestSqrt(SquaredDistance(start, end))
  }

  /** The length does not depend on the direction the segment is drawn in. */
  lemma LineLengthSymmetric(a: Point, b: Point)
    ensures CalculateLineLength(a, b) == CalculateLineLength(b, a)
  {
    assert SquaredDistance(a, b) == SquaredDistance(b, a);
  }

  /** A segment whose ends coincide has length 0. */
  lemma LineLengthZero(p: Point)
    ensures CalculateLineLength(p, p) == 0
  {
    NearestSqrtUnique(0, CalculateLineLength(p, p), 0);
  }

  /** Only the offset between the ends matters: translating both ends by the
      same vector leaves the length unchanged. */
  lemma LineLengthTranslation(a: Point, b: Point, dx: int, dy: int)
    ensures CalculateLineLength(a, b)
         == CalculateLineLength(Point(a.x + dx, a.y + dy), Point(b.x + dx, b.y + dy))
  {
    assert SquaredDistance(a, b) == SquaredDistance(Point(a.x + dx, a.y + dy), Point(b.x + dx, b.y + dy));
  }

  /** The converse of the contract of CalculateLineLength: any n meeting the
      nearest-integer bounds is the length. */
  lemma LineLengthIs(a: Point, b: Point, n: nat)
    requires IsNearestSqrt(SquaredDistance(a, b), n)
    ensures CalculateLineLength(a, b) == n
  {
    NearestSqrtUnique(SquaredDistance(a, b), CalculateLineLength(a, b), n);
  }

  /** The absolute value of an integer. */
  function Abs(v: int): (r: nat)
    ensures r == v || r == -v
  {
    if v < 0 then -v else v
  }

  /** A horizontal segment measures exactly |dx|; a vertical one exactly |dy|. */
  lemma LineLengthAxisAligned(a: Point, b: Point)
    requires a.y == b.y || a.x == b.x
    ensures CalculateLineLength(a, b) == if a.y == b.y then Abs(b.x - a.x) else Abs(b.y - a.y)
  {
    var k := if a.y == b.y then Abs(b.x - a.x) else Abs(b.y - a.y);
    assert SquaredDistance(a, b) == k * k;
    NearestSqrtOfSquare(k);
  }

  /** The 3-4-5 triangle: from (0,0) to (3,4) measures 5. */
  lemma LineLengthThreeFourFive()
    ensures CalculateLineLength(Point(0, 0), Point(3, 4)) == 5
  {
    assert SquaredDistance(Point(0, 0), Point(3, 4)) == 25;
    LineLengthIs(Point(0, 0), Point(3, 4), 5);
  }

  /** Rounding, not truncation: from (0,0) to (1,2) is sqrt(5) ~ 2.24, giving 2. */
  lemma LineLengthRoundsDown()
    ensures CalculateLineLength(Point(0, 0), Point(1, 2)) == 2
  {
    assert SquaredDistance(Point(0, 0), Point(1, 2)) == 5;
    LineLengthIs(Point(0, 0), Point(1, 2), 2);
  }

  /** From (0,0) to (2,2) is sqrt(8) ~ 2.83, which rounds up to 3. */
  lemma LineLengthRoundsUp()
    ensures CalculateLineLength(Point(0, 0), Point(2, 2)) == 3
  {
    assert SquaredDistance(Point(0, 0), Point(2, 2)) == 8;
    LineLengthIs(Point(0, 0), Point(2, 2), 3);
  }
}
