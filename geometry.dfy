/** The distance primitive of the reader (`get_euler_distance`).

    Points have integer coordinates.  The Euclidean distance itself is
    irrational in general, so the model keeps its square exactly
    (`SquaredDistance`) and its integer part (`Distance`, what `int(...)`
    of the distance gives), and relates both to any real number whose
    square is the squared distance. */
module Geometry {
  import opened Numbers

  datatype Point = Point(x: int, y: int)

  /** The square of the Euclidean distance between `p` and `q`. */
  function SquaredDistance(p: Point, q: Point): nat
  {
    Square(p.x - q.x) + Square(p.y - q.y)
  }

  function Square(a: int): nat
  {
    a * a
  }

  /** The integer square root, rounded down. */
  function FloorSqrt(n: nat): (r: nat)
    ensures r * r <= n < (r + 1) * (r + 1)
  {
    if n == 0 then 0
    else
      var s := FloorSqrt(n - 1);
      if (s + 1) * (s + 1) <= n then s + 1 else s
  }

  /** `int(get_euler_distance(p, q))`: the distance rounded down. */
  function Distance(p: Point, q: Point): (d: nat)
    ensures d * d <= SquaredDistance(p, q) < (d + 1) * (d + 1)
  {
    FloorSqrt(SquaredDistance(p, q))
  }

  /** `d` is the exact Euclidean distance between `p` and `q`. */
  ghost predicate IsEuclidean(d: real, p: Point, q: Point)
  {
    0.0 <= d && d * d == SquaredDistance(p, q) as real
  }

  lemma SquareMonotone(a: nat, b: nat)
    requires a <= b
    ensures a * a <= b * b
  {
    assert a * a <= a * b;
  }

  lemma RealSquareMonotone(a: real, b: real)
    requires 0.0 <= a <= b
    ensures a * a <= b * b
  {
    RealScaleMonotone(a, a, b);
    RealScaleMonotone(b, a, b);
    calc {
      a * a;
      <= a * b;
      <= b * b;
    }
  }

  lemma RealSquareStrictMonotone(a: real, b: real)
    requires 0.0 <= a < b
    ensures a * a < b * b
  {
    RealProductPositive(b - a, b);
    RealScaleMonotone(a, a, b);
    calc {
      a * a;
      <= a * b;
      < b * b;
    }
  }

  /** `FloorSqrt(n)` is the only natural number whose square is at most `n`
      and whose successor's square exceeds `n`. */
  lemma FloorSqrtUnique(n: nat, r: nat)
    requires r * r <= n < (r + 1) * (r + 1)
    ensures FloorSqrt(n) == r
  {
    var s := FloorSqrt(n);
    if s < r {
      SquareMonotone(s + 1, r);
    } else if r < s {
      SquareMonotone(r + 1, s);
    }
  }

  lemma FloorSqrtOfSquare(k: nat)
    ensures FloorSqrt(k * k) == k
  {
    assert (k + 1) * (k + 1) == k * k + 2 * k + 1;
    FloorSqrtUnique(k * k, k);
  }

  lemma FloorSqrtMonotone(m: nat, n: nat)
    requires m <= n
    ensures FloorSqrt(m) <= FloorSqrt(n)
  {
    var a, b := FloorSqrt(m), FloorSqrt(n);
    if b < a {
      SquareMonotone(b + 1, a);
    }
  }

  /** Rounding down commutes with taking the larger of two square roots:
      `int(max(sqrt(m), sqrt(n)))` is `max(int(sqrt(m)), int(sqrt(n)))`. */
  lemma FloorSqrtOfMax(m: nat, n: nat)
    ensures FloorSqrt(if m >= n then m else n)
         == (if FloorSqrt(m) >= FloorSqrt(n) then FloorSqrt(m) else FloorSqrt(n))
  {
    if m >= n {
      FloorSqrtMonotone(n, m);
    } else {
      FloorSqrtMonotone(m, n);
    }
  }

  /** The exact distance is determined by the points: two non-negative
      reals whose squares are the squared distance are equal. */
  lemma EuclideanUnique(d1: real, d2: real, p: Point, q: Point)
    requires IsEuclidean(d1, p, q) && IsEuclidean(d2, p, q)
    ensures d1 == d2
  {
    if d1 < d2 {
      RealSquareStrictMonotone(d1, d2);
    } else if d2 < d1 {
      RealSquareStrictMonotone(d2, d1);
    }
  }

  /** The distance does not depend on the order of its arguments. */
  lemma DistanceSymmetric(p: Point, q: Point)
    ensures SquaredDistance(p, q) == SquaredDistance(q, p)
    ensures Distance(p, q) == Distance(q, p)
  {
  }

  lemma SquarePositive(a: int)
    requires a != 0
    ensures Square(a) >= 1
  {
    var b: nat := if a < 0 then -a else a;
    SquareMonotone(1, b);
    assert a * a == b * b;
  }

  /** The distance is zero exactly when both points are equal. */
  lemma DistanceZeroIffEqual(p: Point, q: Point)
    ensures SquaredDistance(p, q) == 0 <==> p == q
    ensures Distance(p, q) == 0 <==> p == q
  {
    if p != q {
      if p.x != q.x {
        SquarePositive(p.x - q.x);
      } else {
        SquarePositive(p.y - q.y);
      }
      assert SquaredDistance(p, q) >= 1;
    }
  }

  function Translate(p: Point, dx: int, dy: int): Point
  {
    Point(p.x + dx, p.y + dy)
  }

  /** The distance depends only on the coordinate differences: moving both
      points by the same offset leaves it unchanged, and it equals the
      distance of the difference vector from the origin. */
  lemma DistanceTranslationInvariant(p: Point, q: Point, dx: int, dy: int)
    ensures SquaredDistance(Translate(p, dx, dy), Translate(q, dx, dy)) == SquaredDistance(p, q)
    ensures SquaredDistance(p, q) == SquaredDistance(Point(p.x - q.x, p.y - q.y), Point(0, 0))
    ensures Distance(Translate(p, dx, dy), Translate(q, dx, dy)) == Distance(p, q)
  {
  }

  /** The integer part of the exact Euclidean distance is `Distance`. */
  lemma FloorOfEuclidean(d: real, p: Point, q: Point)
    requires IsEuclidean(d, p, q)
    ensures d.Floor == Distance(p, q)
  {
    var r := Distance(p, q);
    var n := SquaredDistance(p, q);
    if d < r as real {
      RealSquareStrictMonotone(d, r as real);
    }
    if (r + 1) as real <= d {
      RealSquareMonotone((r + 1) as real, d);
    }
  }

  /** Comparing exact distances to a common target gives the same answer
      as comparing squared distances, so a nearest-vertex search may use
      either. */
  lemma NearerIffSquaredNearer(d1: real, d2: real, p1: Point, p2: Point, t: Point)
    requires IsEuclidean(d1, p1, t) && IsEuclidean(d2, p2, t)
    ensures d1 <= d2 <==> SquaredDistance(p1, t) <= SquaredDistance(p2, t)
    ensures d1 < d2 <==> SquaredDistance(p1, t) < SquaredDistance(p2, t)
  {
    if d1 <= d2 {
      RealSquareMonotone(d1, d2);
    } else {
      RealSquareStrictMonotone(d2, d1);
    }
    if d1 < d2 {
      RealSquareStrictMonotone(d1, d2);
    } else {
      RealSquareMonotone(d2, d1);
    }
  }
}
