/** The value types and the UnityEngine.Mathf helpers that the terrain core
    relies on, over real numbers. Only their documented behaviour is modelled:
    float rounding is not. */
module Unity {

  /** UnityEngine.Vector2 */
  datatype Vec2 = Vec2(x: real, y: real)

  function Sub(a: Vec2, b: Vec2): Vec2 {
    Vec2(a.x - b.x, a.y - b.y)
  }

  /** Vector2.sqrMagnitude */
  function SqrMagnitude(v: Vec2): (r: real)
    ensures r >= 0.0
  {
    SquareNonNegative(v.x);
    SquareNonNegative(v.y);
    v.x * v.x + v.y * v.y
  }

  lemma SquareNonNegative(a: real)
    ensures a * a >= 0.0
  {
    if a < 0.0 {
      assert a * a == (-a) * (-a);
    }
  }

  /** Mathf.Max: the larger of the two */
  function Max(a: real, b: real): (r: real)
    ensures r >= a && r >= b && (r == a || r == b)
  {
    if a > b then a else b
  }

  /** Mathf.Min: the smaller of the two */
  function Min(a: real, b: real): (r: real)
    ensures r <= a && r <= b && (r == a || r == b)
  {
    if a < b then a else b
  }

  /** Mathf.Clamp(value, min, max) */
  function Clamp(value: real, min: real, max: real): (r: real)
    ensures min <= max ==> min <= r <= max
    ensures min <= value <= max ==> r == value
    ensures value < min ==> r == min
  {
    if value < min then min else if value > max then max else value
  }

  /** Mathf.Clamp01 */
  function Clamp01(value: real): (r: real)
    ensures 0.0 <= r <= 1.0
    ensures 0.0 <= value <= 1.0 ==> r == value
  {
    if value < 0.0 then 0.0 else if value > 1.0 then 1.0 else value
  }

  /** Mathf.InverseLerp(a, b, value): where value lies between a and b, as a
      fraction clamped to [0, 1]; 0 when the interval is degenerate. */
  function InverseLerp(a: real, b: real, value: real): (r: real)
    ensures 0.0 <= r <= 1.0
    ensures value == a ==> r == 0.0
    ensures a != b && value == b ==> r == 1.0
  {
    if a != b then
      DivSelf(b - a);
      Clamp01((value - a) / (b - a))
    else 0.0
  }

  lemma DivSelf(x: real)
    requires x != 0.0
    ensures x / x == 1.0
  {
  }

  /** Mathf.RoundToInt: the nearest integer, ties to the even one
      (System.Math.Round's default). */
  function RoundToInt(f: real): (r: int)
    ensures f - 0.5 <= r as real <= f + 0.5
    ensures (r as real == f - 0.5 || r as real == f + 0.5) ==> r % 2 == 0
  {
    var fl := f.Floor;
    var frac := f - fl as real;
    if frac < 0.5 then fl
    else if frac > 0.5 then fl + 1
    else if fl % 2 == 0 then fl else fl + 1
  }

  /** The two facts RoundToInt ensures pick exactly one integer. */
  lemma RoundToIntUnique(f: real, n: int)
    requires f - 0.5 <= n as real <= f + 0.5
    requires (n as real == f - 0.5 || n as real == f + 0.5) ==> n % 2 == 0
    ensures n == RoundToInt(f)
  {
  }

  /** Rounding v / s to an integer n and scaling back lands n * s within
      half of s of v. */
  lemma RoundedScaled(v: real, s: int)
    requires s > 0
    ensures (RoundToInt(v / s as real) * s) as real - s as real / 2.0 <= v
    ensures v <= (RoundToInt(v / s as real) * s) as real + s as real / 2.0
  {
    var f := s as real;
    var n := RoundToInt(v / f);
    assert (n * s) as real == n as real * f;
    assert v / f * f == v;
    ScaledBetween(v, v / f, n as real, f);
  }

  /** Scaling q - 0.5 <= n <= q + 0.5 by a positive f, where v = q * f. */
  lemma ScaledBetween(v: real, q: real, n: real, f: real)
    requires f > 0.0 && q * f == v && q - 0.5 <= n <= q + 0.5
    ensures n * f - f / 2.0 <= v <= n * f + f / 2.0
  {
    ScaleMonotone(n, q + 0.5, f);
    ScaleMonotone(q - 0.5, n, f);
  }

  lemma ScaleMonotone(a: real, b: real, f: real)
    requires a <= b && f > 0.0
    ensures a * f <= b * f
  {
    assert b * f - a * f == (b - a) * f;
  }

  /** UnityEngine.Bounds on the plane: a box given by its centre and its size
      (the third axis is zero wherever the terrain core builds one). */
  datatype Bounds = Bounds(center: Vec2, size: Vec2) {
    function MinCorner(): Vec2 { Vec2(center.x - size.x / 2.0, center.y - size.y / 2.0) }
    function MaxCorner(): Vec2 { Vec2(center.x + size.x / 2.0, center.y + size.y / 2.0) }
    predicate Contains(p: Vec2) {
      MinCorner().x <= p.x <= MaxCorner().x && MinCorner().y <= p.y <= MaxCorner().y
    }
  }

  /** How far p lies outside the interval [lo, hi] on one axis. */
  function AxisGap(lo: real, hi: real, p: real): (r: real)
    ensures r >= 0.0
    ensures r == 0.0 <==> lo <= p <= hi
  {
    if p < lo then lo - p else if p > hi then p - hi else 0.0
  }

  /** Bounds.SqrDistance: the squared distance from p to the nearest point of
      the box, never negative and zero for a point inside it. */
  function SqrDistance(b: Bounds, p: Vec2): (r: real)
    ensures r >= 0.0
    ensures b.Contains(p) ==> r == 0.0
  {
    var dx := AxisGap(b.MinCorner().x, b.MaxCorner().x, p.x);
    var dy := AxisGap(b.MinCorner().y, b.MaxCorner().y, p.y);
    SquareNonNegative(dx);
    SquareNonNegative(dy);
    dx * dx + dy * dy
  }

  /** `Mathf.Sqrt(sqrDist) <= limit`, stated without the square root: a
      non-negative distance is at most `limit` exactly when `limit` is
      non-negative and its square is at least `sqrDist`. */
  predicate Within(sqrDist: real, limit: real)
  {
    0.0 <= limit && sqrDist <= limit * limit
  }

  /** A point that is within a limit of the box is within every larger one,
      and a nearer point is within every limit a farther one is. */
  lemma WithinMonotone(sq1: real, sq2: real, t1: real, t2: real)
    requires sq1 <= sq2 && t1 <= t2
    requires Within(sq2, t1)
    ensures Within(sq1, t2)
  {
    assert t1 * t1 <= t2 * t2 by {
      assert 0.0 <= t1;
      assert t1 * t1 <= t1 * t2 <= t2 * t2;
    }
  }

  /** The inclusive boundary: a distance of exactly `limit` is within it, and
      any square distance beyond limit * limit is not. */
  lemma WithinBoundary(limit: real, sqrDist: real)
    requires limit >= 0.0
    ensures Within(limit * limit, limit)
    ensures sqrDist > limit * limit ==> !Within(sqrDist, limit)
  {
  }
}
