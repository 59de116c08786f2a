/** Planar geometry shared by the game world and the monster AI.

    Coordinates are mathematical reals.  `std::sqrt` is a foreign call: it is passed
    around as a function `sqrt`, and `IsSqrt` states the only thing ever used about it.
 */
module Geometry {

  datatype Vec3 = Vec3(x: real, y: real, z: real)

  /** `sqrt` returns the non-negative root of every non-negative argument. */
  ghost predicate IsSqrt(sqrt: real -> real) {
    forall v: real :: 0.0 <= v ==> 0.0 <= sqrt(v) && sqrt(v) * sqrt(v) == v
  }

  /** Distance in the ground plane; the height z never takes part. */
  function Dist(sqrt: real -> real, a: Vec3, b: Vec3): real {
    sqrt((a.x - b.x) * (a.x - b.x) + (a.y - b.y) * (a.y - b.y))
  }

  function Abs(v: real): real {
    if v < 0.0 then -v else v
  }

  /** One step of length `step` from p towards w, where `d` is their distance. */
  function Toward(p: Vec3, w: Vec3, d: real, step: real): Vec3
    requires d != 0.0
  {
    Vec3(p.x + (w.x - p.x) / d * step, p.y + (w.y - p.y) / d * step, p.z)
  }

  lemma SquareNonNegative(a: real)
    ensures 0.0 <= a * a
  {
  }

  lemma ProductPositive(a: real, b: real, k: real)
    requires 0.0 < a && 0.0 < b
    requires k == a * b
    ensures 0.0 < k
  {
  }

  lemma SquareMonotone(a: real, b: real)
    requires 0.0 <= a && 0.0 <= b
    ensures a <= b <==> a * a <= b * b
  {
    if a <= b {
      assert a * a <= a * b <= b * b;
    } else {
      ProductPositive(a - b, a + b, (a - b) * (a + b));
      assert (a - b) * (a + b) == a * a - b * b;
    }
  }

  lemma DistSquared(sqrt: real -> real, a: Vec3, b: Vec3)
    requires IsSqrt(sqrt)
    ensures 0.0 <= Dist(sqrt, a, b)
    ensures Dist(sqrt, a, b) * Dist(sqrt, a, b)
         == (a.x - b.x) * (a.x - b.x) + (a.y - b.y) * (a.y - b.y)
  {
    SquareNonNegative(a.x - b.x);
    SquareNonNegative(a.y - b.y);
    assert 0.0 <= (a.x - b.x) * (a.x - b.x) + (a.y - b.y) * (a.y - b.y);
  }

  lemma DistSymmetric(sqrt: real -> real, a: Vec3, b: Vec3)
    ensures Dist(sqrt, a, b) == Dist(sqrt, b, a)
  {
    assert (a.x - b.x) * (a.x - b.x) == (b.x - a.x) * (b.x - a.x);
    assert (a.y - b.y) * (a.y - b.y) == (b.y - a.y) * (b.y - a.y);
  }

  /** Neither coordinate differs by more than the distance. */
  lemma AxisWithinDist(sqrt: real -> real, a: Vec3, b: Vec3)
    requires IsSqrt(sqrt)
    ensures Abs(a.x - b.x) <= Dist(sqrt, a, b)
    ensures Abs(a.y - b.y) <= Dist(sqrt, a, b)
  {
    DistSquared(sqrt, a, b);
    var dx, dy, d := Abs(a.x - b.x), Abs(a.y - b.y), Dist(sqrt, a, b);
    SquareNonNegative(dx);
    SquareNonNegative(dy);
    assert dx * dx == (a.x - b.x) * (a.x - b.x);
    assert dy * dy == (a.y - b.y) * (a.y - b.y);
    SquareMonotone(dx, d);
    SquareMonotone(dy, d);
  }

  /** Cauchy-Schwarz in the plane. */
  lemma DotBound(x1: real, y1: real, x2: real, y2: real, a: real, b: real)
    requires 0.0 <= a && 0.0 <= b
    requires a * a == x1 * x1 + y1 * y1
    requires b * b == x2 * x2 + y2 * y2
    ensures x1 * x2 + y1 * y2 <= a * b
  {
    var dot, cross := x1 * x2 + y1 * y2, x1 * y2 - y1 * x2;
    SquareNonNegative(cross);
    assert (a * b) * (a * b) == (a * a) * (b * b);
    assert (a * a) * (b * b) == (x1 * x1 + y1 * y1) * (x2 * x2 + y2 * y2);
    assert (x1 * x1 + y1 * y1) * (x2 * x2 + y2 * y2) == dot * dot + cross * cross;
    assert 0.0 <= a * b;
    if 0.0 < dot {
      SquareMonotone(dot, a * b);
    }
  }

  lemma Triangle(sqrt: real -> real, a: Vec3, b: Vec3, c: Vec3)
    requires IsSqrt(sqrt)
    ensures Dist(sqrt, a, c) <= Dist(sqrt, a, b) + Dist(sqrt, b, c)
  {
    DistSquared(sqrt, a, b);
    DistSquared(sqrt, b, c);
    DistSquared(sqrt, a, c);
    var x1, y1, x2, y2 := a.x - b.x, a.y - b.y, b.x - c.x, b.y - c.y;
    var p, q, r := Dist(sqrt, a, b), Dist(sqrt, b, c), Dist(sqrt, a, c);
    DotBound(x1, y1, x2, y2, p, q);
    assert a.x - c.x == x1 + x2 && a.y - c.y == y1 + y2;
    assert r * r == (x1 + x2) * (x1 + x2) + (y1 + y2) * (y1 + y2);
    assert (x1 + x2) * (x1 + x2) == x1 * x1 + 2.0 * (x1 * x2) + x2 * x2;
    assert (y1 + y2) * (y1 + y2) == y1 * y1 + 2.0 * (y1 * y2) + y2 * y2;
    assert (p + q) * (p + q) == p * p + 2.0 * (p * q) + q * q;
    SquareMonotone(r, p + q);
  }

  /** Scaling a unit vector by e gives a vector of square length e * e. */
  lemma ScaledUnit(ux: real, uy: real, e: real)
    requires ux * ux + uy * uy == 1.0
    ensures (ux * e) * (ux * e) + (uy * e) * (uy * e) == e * e
  {
    assert (ux * e) * (ux * e) == (ux * ux) * (e * e);
    assert (uy * e) * (uy * e) == (uy * uy) * (e * e);
    assert (ux * ux) * (e * e) + (uy * uy) * (e * e) == (ux * ux + uy * uy) * (e * e);
  }

  lemma UnitVector(dx: real, dy: real, d: real, ux: real, uy: real)
    requires 0.0 < d
    requires d * d == dx * dx + dy * dy
    requires ux == dx / d && uy == dy / d
    ensures ux * d == dx && uy * d == dy
    ensures ux * ux + uy * uy == 1.0
  {
    var k := d * d;
    ProductPositive(d, d, k);
    var xx, yy := dx * dx, dy * dy;
    SquareOfProduct(ux, d, dx, k, xx);
    SquareOfProduct(uy, d, dy, k, yy);
    UnitCancel(ux * ux, uy * uy, k, xx, yy);
  }

  lemma SquareOfProduct(u: real, d: real, v: real, k: real, vv: real)
    requires v == u * d && k == d * d && vv == v * v
    ensures vv == (u * u) * k
  {
    assert v * v == (u * d) * (u * d) == (u * u) * (d * d);
  }

  lemma UnitCancel(a: real, b: real, k: real, ak: real, bk: real)
    requires 0.0 < k
    requires ak == a * k && bk == b * k && ak + bk == k
    ensures a + b == 1.0
  {
    assert (a + b - 1.0) * k == 0.0;
  }

  lemma EqualSquares(a: real, b: real)
    requires 0.0 <= a && 0.0 <= b
    requires a * a == b * b
    ensures a == b
  {
    SquareMonotone(a, b);
    SquareMonotone(b, a);
  }

  /** A step of length `step` towards w turns the distance d into |d - step|. */
  lemma TowardDistance(sqrt: real -> real, p: Vec3, w: Vec3, step: real)
    requires IsSqrt(sqrt)
    requires 0.0 < Dist(sqrt, p, w)
    ensures Dist(sqrt, Toward(p, w, Dist(sqrt, p, w), step), w) == Abs(Dist(sqrt, p, w) - step)
  {
    DistSquared(sqrt, p, w);
    DistSymmetric(sqrt, p, w);
    DistSquared(sqrt, w, p);
    var d := Dist(sqrt, p, w);
    var q := Toward(p, w, d, step);
    var ux, uy, e := (w.x - p.x) / d, (w.y - p.y) / d, d - step;
    UnitVector(w.x - p.x, w.y - p.y, d, ux, uy);
    RemainingOffset(p.x, w.x, d, ux, step, q.x);
    RemainingOffset(p.y, w.y, d, uy, step, q.y);
    DistSymmetric(sqrt, w, q);
    ScaledDistance(sqrt, w, q, ux, uy, e);
  }

  lemma RemainingOffset(p: real, w: real, d: real, u: real, step: real, q: real)
    requires u * d == w - p
    requires q == p + u * step
    ensures w - q == u * (d - step)
  {
  }

  lemma ScaledDistance(sqrt: real -> real, w: Vec3, q: Vec3, ux: real, uy: real, e: real)
    requires IsSqrt(sqrt)
    requires ux * ux + uy * uy == 1.0
    requires w.x - q.x == ux * e && w.y - q.y == uy * e
    ensures Dist(sqrt, w, q) == Abs(e)
  {
    ScaledUnit(ux, uy, e);
    DistSquared(sqrt, w, q);
    assert Abs(e) * Abs(e) == e * e;
    EqualSquares(Dist(sqrt, w, q), Abs(e));
  }
}
