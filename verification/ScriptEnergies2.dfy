// The energy of the 3x2 singular-value script (eigsys/eigsys_2.py:34-35), its form in the two
// invariants, and exactly where the special branch of its difference entry misses the
// eigenvalue (eigsys/eigsys_2.py:129-136).
module ScriptEnergies2 {
  import opened LinearAlgebra
  import opened Invariants3
  import opened SecondOrder
  import opened Hessian2
  import opened EigenvalueForms
  import opened EigenvalueForms2
  import opened SingularEnergies2
  import opened SingularPaths
  import opened SingularMotion
  import opened Hessian3

  // The logarithm is a parameter: it turns products into sums, and at y it has derivative 1 / y
  // and second derivative -1 / y^2.
  ghost predicate IsLog(log: real -> real) {
    && (forall x, y :: x > 0.0 && y > 0.0 ==> log(Times(x, y)) == log(x) + log(y))
    && forall y :: y > 0.0 ==> SecondOrderAt0(From(log, y), log(y), 1.0 / y, -0.5 / (y * y))
  }

  function From(f: real -> real, y: real): real -> real {
    t => f(y + t)
  }

  // ---- The square root ------------------------------------------------------------------------------

  function Cubed(x: real): real {
    x * x * x
  }

  function Fifth(r: real): real {
    r * r * r * r * r
  }

  // q is the root at y + t and r the root at y.
  ghost predicate RootMoved(r: real, q: real, t: real, u: real) {
    r > 0.0 && q >= 0.0 && u == q - r && t == q * q - r * r
  }

  // 8 r^3 times the error is u^3 (u + 4 r).
  lemma RootError(r: real, q: real, t: real, k1: real, k2: real, u: real, e: real)
    requires RootMoved(r, q, t, u) && 2.0 * r * k1 == 1.0 && 8.0 * (r * r * r) * k2 == -1.0
    requires e == q - (r + t * k1 + t * t * k2)
    ensures 8.0 * Cubed(r) * e == Cubed(u) * (u + 4.0 * r)
  {
    var c := 8.0 * (r * r * r);
    Regroup(r, t, k1, k2);
    ErrorParts(c, u, t * k1, t * t * k2, 4.0 * (r * r) * t, t * t, e);
    RootPolynomial(r, u, q, t);
  }

  lemma Regroup(r: real, t: real, k1: real, k2: real)
    ensures 8.0 * (r * r * r) * (t * k1) == 4.0 * (r * r) * t * (2.0 * r * k1)
    ensures 8.0 * (r * r * r) * (t * t * k2) == t * t * (8.0 * (r * r * r) * k2)
  {
  }

  lemma ErrorParts(c: real, u: real, x: real, y: real, cx: real, cy: real, e: real)
    requires e == u - x - y && c * x == cx && c * y == -cy
    ensures c * e == c * u - cx + cy
  {
  }

  lemma RootPolynomial(r: real, u: real, q: real, t: real)
    requires u == q - r && t == q * q - r * r
    ensures 8.0 * (r * r * r) * u - 4.0 * (r * r) * t + t * t == u * u * u * (u + 4.0 * r)
  {
    assert t == u * u + 2.0 * r * u;
    assert t * t == u * u * (u * u) + 4.0 * r * (u * u * u) + 4.0 * (r * r) * (u * u);
    assert 4.0 * (r * r) * t == 4.0 * (r * r) * (u * u) + 8.0 * (r * r * r) * u;
  }

  // |u| r is at most |t|.
  lemma RootStep(r: real, q: real, t: real, u: real)
    requires RootMoved(r, q, t, u)
    ensures Abs(u) * r <= Abs(t)
  {
    hide Abs;
    var w := q + r;
    RootFactors(r, q, t, u, w);
    AbsProduct(u, w);
    AbsNonNegative(w);
    AbsAbove(u);
    MulMonotone(r, w, Abs(u));
  }

  lemma RootFactors(r: real, q: real, t: real, u: real, w: real)
    requires u == q - r && w == q + r && t == q * q - r * r
    ensures u * w == t
  {
  }

  lemma RootRange(r: real, q: real, t: real, u: real)
    requires RootMoved(r, q, t, u) && Abs(t) <= Square(r)
    ensures 0.0 <= u + 4.0 * r <= 5.0 * r
  {
    if q > 2.0 * r {
      MulMonotone(2.0 * r, q, q);
      MulMonotone(2.0 * r, q, 2.0 * r);
      assert 2.0 * r * q >= 4.0 * (r * r);
      ProductPositive(r, r, r * r);
    }
  }

  // |x|^3 up to a^3.
  lemma CubeMonotone(x: real, a: real)
    requires 0.0 <= x <= a
    ensures Cubed(x) <= Cubed(a)
  {
    MulMonotone(x, a, x);
    MulMonotone(x, a, a);
    ProductSign(x, x);
    MulMonotone(x * x, a * a, x);
    ProductSign(a, a);
    MulMonotone(x, a, a * a);
  }

  lemma RootBound(r: real, q: real, t: real, u: real, e: real)
    requires r > 0.0 && RootMoved(r, q, t, u) && Abs(t) <= Square(r) && 8.0 * Cubed(r) * e == Cubed(u) * (u + 4.0 * r)
    ensures Abs(e) * (8.0 * Fifth(r)) <= 5.0 * Cubed(Abs(t))
  {
    hide *;
    RootStep(r, q, t, u);
    RootRange(r, q, t, u);
    AbsAbove(u);
    var w := Abs(u);
    CubeAbs(r, u, e, w);
    ProductSign(w, r);
    CubeMonotone(w * r, Abs(t));
    BoundKernel(r, u, w, Abs(e), Cubed(Abs(t)));
  }

  lemma CubeAbs(r: real, u: real, e: real, w: real)
    requires r > 0.0 && u + 4.0 * r >= 0.0 && w == Abs(u) && 8.0 * Cubed(r) * e == Cubed(u) * (u + 4.0 * r)
    ensures Abs(e) * (8.0 * Cubed(r)) == Cubed(w) * (u + 4.0 * r)
  {
    var c := 8.0 * (r * r * r);
    ProductPositive(r, r, r * r);
    ProductPositive(r * r, r, r * r * r);
    AbsProduct(c, e);
    AbsProduct(u, u);
    AbsProduct(u * u, u);
    AbsProduct(u * u * u, u + 4.0 * r);
    AbsNonNegative(c);
    AbsNonNegative(u + 4.0 * r);
  }

  lemma BoundKernel(r: real, u: real, w: real, e: real, a: real)
    requires r > 0.0 && w >= 0.0 && u + 4.0 * r <= 5.0 * r && Cubed(w * r) <= a
    requires e * (8.0 * Cubed(r)) == Cubed(w) * (u + 4.0 * r)
    ensures e * (8.0 * Fifth(r)) <= 5.0 * a
  {
    var cube, rrr, s := Cubed(w), Cubed(r), e * (8.0 * Fifth(r));
    CubesPositive(r, w);
    CubeOfProduct(w, r);
    FifthIs(r, e, s);
    hide Cubed, Fifth;
    MulMonotone(u + 4.0 * r, 5.0 * r, cube);
    MulMonotone(e * (8.0 * rrr), cube * (5.0 * r), rrr);
    assert cube * (5.0 * r) * rrr == 5.0 * r * (cube * rrr);
    MulMonotone(cube * rrr, a, 5.0 * r);
    Divided(s, 5.0 * a, r);
  }

  lemma CubesPositive(r: real, w: real)
    requires r > 0.0 && w >= 0.0
    ensures Cubed(r) > 0.0 && Cubed(w) >= 0.0
  {
    ProductSign(w, w);
    ProductSign(w * w, w);
    ProductPositive(r, r, r * r);
    ProductPositive(r * r, r, Cubed(r));
  }

  lemma CubeOfProduct(w: real, r: real)
    ensures Cubed(w * r) == Cubed(w) * Cubed(r)
  {
  }

  lemma FifthIs(r: real, e: real, s: real)
    requires s == e * (8.0 * Fifth(r))
    ensures s * r == e * (8.0 * Cubed(r)) * Cubed(r)
  {
  }

  ghost predicate CubicError(f: real -> real, k0: real, k1: real, k2: real, c: real, room: real) {
    forall t :: Abs(t) <= room ==> Abs(f(t) - Parabola(k0, k1, k2, t)) <= c * Times(Abs(t), Square(t))
  }

  // An error of third order is no part of the expansion.
  lemma CubicExpands(f: real -> real, k0: real, k1: real, k2: real, c: real, room: real)
    requires c >= 0.0 && room > 0.0 && CubicError(f, k0, k1, k2, c, room)
    ensures SecondOrderAt0(f, k0, k1, k2)
  {
    hide *;
    forall eps | eps > 0.0 ensures QuadraticNear(f, k0, k1, k2, eps) {
      var b := RestRoom(c, eps);
      var near := if b <= room then b else room;
      forall t | Abs(t) <= near ensures Abs(f(t) - Parabola(k0, k1, k2, t)) <= eps * Square(t) {
        CubicAt(f, k0, k1, k2, c, room, eps, b, t);
      }
      WithinFrom(f, k0, k1, k2, eps, near);
      NearFrom(f, k0, k1, k2, eps, near);
    }
    AllNear(f, k0, k1, k2);
  }

  lemma CubicAt(f: real -> real, k0: real, k1: real, k2: real, c: real, room: real, eps: real, b: real, t: real)
    requires CubicError(f, k0, k1, k2, c, room) && c >= 0.0 && c * b <= eps && Abs(t) <= b && Abs(t) <= room
    ensures Abs(f(t) - Parabola(k0, k1, k2, t)) <= eps * Square(t)
  {
    var e := Abs(f(t) - Parabola(k0, k1, k2, t));
    assert e <= c * Times(Abs(t), Square(t)) by {
      hide Times, Square, Parabola, Abs;
    }
    hide *;
    SquareSign(t);
    AbsAbove(t);
    CubicKernel(e, Abs(t), b, c, eps, Square(t));
  }

  lemma CubicKernel(e: real, a: real, b: real, c: real, eps: real, sq: real)
    requires 0.0 <= a <= b && c >= 0.0 && c * b <= eps && sq >= 0.0 && e <= c * Times(a, sq)
    ensures e <= eps * sq
  {
    assert c * Times(a, sq) == c * a * sq;
    MulMonotone(a, b, c);
    MulMonotone(c * a, eps, sq);
  }

  // The derivatives of the root: 1 / (2 r) and half of -1 / (4 r^3).
  lemma RootExpands(sqrt: real -> real, y: real, r: real, k1: real, k2: real)
    requires IsSqrt(sqrt) && y > 0.0 && r == sqrt(y)
    requires 2.0 * r * k1 == 1.0 && 8.0 * (r * r * r) * k2 == -1.0
    ensures SecondOrderAt0(From(sqrt, y), r, k1, k2)
  {
    hide *;
    var c, d := RootRoom(sqrt, y, r);
    forall t | Abs(t) <= y
      ensures Abs(From(sqrt, y)(t) - Parabola(r, k1, k2, t)) <= c * Times(Abs(t), Square(t))
    {
      RootAt(sqrt, y, r, k1, k2, t, c, d);
    }
    CubicFrom(From(sqrt, y), r, k1, k2, c, y);
    CubicExpands(From(sqrt, y), r, k1, k2, c, y);
  }

  lemma CubicFrom(f: real -> real, k0: real, k1: real, k2: real, c: real, room: real)
    requires forall t :: Abs(t) <= room ==> Abs(f(t) - Parabola(k0, k1, k2, t)) <= c * Times(Abs(t), Square(t))
    ensures CubicError(f, k0, k1, k2, c, room)
  {
    hide Times, Square, Parabola, Abs;
  }

  lemma RootRoom(sqrt: real -> real, y: real, r: real) returns (c: real, d: real)
    requires IsSqrt(sqrt) && y > 0.0 && r == sqrt(y)
    ensures r > 0.0 && y == Square(r) && d == 8.0 * Fifth(r) && d > 0.0 && c >= 0.0 && c * d == 5.0
  {
    assert r >= 0.0 && Square(r) == y;
    hide IsSqrt, Square, Fifth;
    RootPositive(r, y);
    FifthPower(r);
    d := 8.0 * Fifth(r);
    c := Fraction(d);
  }

  lemma Fraction(d: real) returns (c: real)
    requires d > 0.0
    ensures c >= 0.0 && c * d == 5.0
  {
    c := 5.0 / d;
    assert c * d == 5.0;
    if c < 0.0 {
      ProductPositive(-c, d, -c * d);
    }
  }

  lemma FifthPower(r: real)
    requires r > 0.0
    ensures Fifth(r) > 0.0
  {
    ProductPositive(r, r, r * r);
    ProductPositive(r * r, r, r * r * r);
    ProductPositive(r * r * r, r, r * r * r * r);
    ProductPositive(r * r * r * r, r, r * r * r * r * r);
  }

  lemma RootAt(sqrt: real -> real, y: real, r: real, k1: real, k2: real, t: real, c: real, d: real)
    requires IsSqrt(sqrt) && r == sqrt(y) && r > 0.0 && y == Square(r) && Abs(t) <= y
    requires 2.0 * r * k1 == 1.0 && 8.0 * (r * r * r) * k2 == -1.0
    requires d == 8.0 * Fifth(r) && d > 0.0 && c * d == 5.0
    ensures Abs(From(sqrt, y)(t) - Parabola(r, k1, k2, t)) <= c * Times(Abs(t), Square(t))
  {
    var q := RootNear(sqrt, y, r, t);
    var u, e := q - r, q - (r + t * k1 + t * t * k2);
    assert From(sqrt, y)(t) - Parabola(r, k1, k2, t) == e;
    hide *;
    RootError(r, q, t, k1, k2, u, e);
    RootBound(r, q, t, u, e);
    FifthDivided(Abs(e), t, c, d);
  }

  lemma RootNear(sqrt: real -> real, y: real, r: real, t: real) returns (q: real)
    requires IsSqrt(sqrt) && r > 0.0 && y == Square(r) && Abs(t) <= y
    ensures q == sqrt(y + t) && RootMoved(r, q, t, q - r)
  {
    q := sqrt(y + t);
    assert y + t >= 0.0;
    assert q >= 0.0 && Square(q) == y + t;
  }

  lemma FifthDivided(e: real, t: real, c: real, d: real)
    requires d > 0.0 && c * d == 5.0 && e * d <= 5.0 * Cubed(Abs(t))
    ensures e <= c * Times(Abs(t), Square(t))
  {
    SquareOfAbs(t);
    hide Abs;
    var a := Abs(t);
    assert c * a * (a * a) * d == c * d * (a * a * a);
    Divided(e, c * a * (a * a), d);
  }

  // ---- The script's energy --------------------------------------------------------------------------

  // energy_s
  function LogEnergy(log: real -> real): V2 -> real {
    (s: V2) => log(Times(s.x, s.x)) + log(Times(s.y, s.y)) + s.x * s.y + s.x * s.x * (s.y * s.y)
  }

  // Its form in the second invariant.
  function LogArea(log: real -> real, sqrt: real -> real): real -> real {
    y => log(y) + sqrt(y) + y
  }

  function LogInvariant(log: real -> real, sqrt: real -> real): V2 -> real {
    (i: V2) => LogArea(log, sqrt)(i.y)
  }

  lemma RootOfSquare(sqrt: real -> real, r: real)
    requires IsSqrt(sqrt) && r >= 0.0
    ensures sqrt(Square(r)) == r
  {
    SquareSign(r);
    var q := sqrt(Square(r));
    assert q >= 0.0 && Square(q) == Square(r);
    if q > 0.0 || r > 0.0 {
      assert (q - r) * (q + r) == 0.0;
      ProductZero(q - r, q + r, 0.0);
    }
  }

  lemma AreaOfDiag(a: real, b: real, r: real)
    requires r == a * b
    ensures Invariants2(Diag2(a, b)).y == Times(Times(a, a), Times(b, b)) == Square(r)
  {
  }

  lemma LogIsInvariant(log: real -> real, sqrt: real -> real)
    requires IsLog(log) && IsSqrt(sqrt)
    ensures InSingularValues2(LogEnergy(log), LogInvariant(log, sqrt))
  {
    hide IsLog, IsSqrt, LogEnergy, LogArea, Diag2, Invariants2;
    forall s | Positive2(s) ensures LogEnergy(log)(s) == LogInvariant(log, sqrt)(Invariants2(Diag2(s.x, s.y))) {
      LogHere(log, sqrt, s, Times(s.x, s.x), Times(s.y, s.y));
    }
  }

  lemma LogHere(log: real -> real, sqrt: real -> real, s: V2, aa: real, bb: real)
    requires IsLog(log) && IsSqrt(sqrt) && Positive2(s) && aa == Times(s.x, s.x) && bb == Times(s.y, s.y)
    ensures LogEnergy(log)(s) == LogArea(log, sqrt)(Invariants2(Diag2(s.x, s.y)).y)
  {
    hide IsLog, IsSqrt, LogEnergy, LogArea, Diag2, Invariants2;
    ProductPositive(s.x, s.x, aa);
    ProductPositive(s.y, s.y, bb);
    ProductSign(s.x, s.y);
    hide *;
    var r := s.x * s.y;
    AreaOfDiag(s.x, s.y, r);
    RootOfSquare(sqrt, r);
    LogAt(log, sqrt, s, aa, bb, Square(r));
  }

  lemma LogAt(log: real -> real, sqrt: real -> real, s: V2, aa: real, bb: real, y: real)
    requires IsLog(log) && aa == Times(s.x, s.x) && bb == Times(s.y, s.y) && aa > 0.0 && bb > 0.0
    requires y == Times(aa, bb) && sqrt(y) == s.x * s.y
    ensures LogEnergy(log)(s) == LogArea(log, sqrt)(y)
  {
    assert log(Times(aa, bb)) == log(aa) + log(bb) by {
      hide Times;
    }
    assert s.x * s.x * (s.y * s.y) == y;
  }

  function Plus(y: real): real -> real {
    t => y + t
  }

  lemma LineExpands(y: real)
    ensures SecondOrderAt0(Plus(y), y, 1.0, 0.0)
  {
    hide Abs, Square, Parabola;
    forall eps | eps > 0.0 ensures QuadraticNear(Plus(y), y, 1.0, 0.0, eps) {
      forall t | Abs(t) <= 1.0 ensures Abs(Plus(y)(t) - Parabola(y, 1.0, 0.0, t)) <= eps * Square(t) {
        LineAt(y, t);
        SquareSign(t);
        ProductSign(eps, Square(t));
      }
      assert QuadraticWithin(Plus(y), y, 1.0, 0.0, eps, 1.0);
    }
  }

  lemma LineAt(y: real, t: real)
    ensures Abs(Plus(y)(t) - Parabola(y, 1.0, 0.0, t)) == 0.0
  {
  }

  // The derivatives of LogArea at y = r^2, for i = 1 / r.
  function AreaSlope(i: real): real {
    i * i + 0.5 * i + 1.0
  }

  function AreaCurve(i: real): real {
    -(i * i * (i * i)) - 0.25 * (i * i * i)
  }

  lemma AreaExpands(log: real -> real, sqrt: real -> real, y: real, r: real, i: real)
    requires IsLog(log) && IsSqrt(sqrt) && r > 0.0 && r * r == y && r * i == 1.0 && sqrt(y) == r
    ensures SecondOrderAt0(From(LogArea(log, sqrt), y), LogArea(log, sqrt)(y), AreaSlope(i), 0.5 * AreaCurve(i))
  {
    ProductPositive(r, r, y);
    var l1, l2, k1, k2 := 1.0 / y, -0.5 / (y * y), 0.5 * i, -0.125 * (i * i * i);
    RootCoefficients(r, i, k1, k2);
    LogCoefficients(r, i, y, l1, l2);
    LogExpands(log, y, l1, l2);
    CoefficientsSum(i, l1, l2, k1, k2);
    hide *;
    RootExpands(sqrt, y, r, k1, k2);
    AreaSum(log, sqrt, y, r, l1, l2, k1, k2, AreaSlope(i), 0.5 * AreaCurve(i));
  }

  lemma LogExpands(log: real -> real, y: real, l1: real, l2: real)
    requires IsLog(log) && y > 0.0 && l1 == 1.0 / y && l2 == -0.5 / (y * y)
    ensures SecondOrderAt0(From(log, y), log(y), l1, l2)
  {
    hide SecondOrderAt0, Times;
  }

  lemma AreaSum(log: real -> real, sqrt: real -> real, y: real, r: real, l1: real, l2: real, k1: real, k2: real,
                m1: real, m2: real)
    requires SecondOrderAt0(From(log, y), log(y), l1, l2) && SecondOrderAt0(From(sqrt, y), r, k1, k2) && sqrt(y) == r
    requires m1 == l1 + k1 + 1.0 && m2 == l2 + k2 + 0.0
    ensures SecondOrderAt0(From(LogArea(log, sqrt), y), LogArea(log, sqrt)(y), m1, m2)
  {
    hide *;
    var f := (t: real) => From(log, y)(t) + From(sqrt, y)(t);
    LineExpands(y);
    SumExpands(From(log, y), From(sqrt, y), f, log(y), l1, l2, r, k1, k2, log(y) + r, l1 + k1, l2 + k2);
    forall t ensures From(LogArea(log, sqrt), y)(t) == f(t) + Plus(y)(t) {
      AreaFrom(log, sqrt, y, t);
    }
    AreaFrom(log, sqrt, y, 0.0);
    SumExpands(f, Plus(y), From(LogArea(log, sqrt), y), log(y) + r, l1 + k1, l2 + k2, y, 1.0, 0.0,
               LogArea(log, sqrt)(y), m1, m2);
  }

  lemma AreaFrom(log: real -> real, sqrt: real -> real, y: real, t: real)
    ensures From(LogArea(log, sqrt), y)(t) == From(log, y)(t) + From(sqrt, y)(t) + Plus(y)(t)
    ensures LogArea(log, sqrt)(y) == log(y) + sqrt(y) + y
  {
  }

  lemma RootCoefficients(r: real, i: real, k1: real, k2: real)
    requires r * i == 1.0 && k1 == 0.5 * i && k2 == -0.125 * (i * i * i)
    ensures 2.0 * r * k1 == 1.0 && 8.0 * (r * r * r) * k2 == -1.0
  {
    assert 8.0 * (r * r * r) * k2 == -(r * i * (r * i) * (r * i)) by {
      CubeRegroup(r, i);
    }
  }

  lemma CubeRegroup(r: real, i: real)
    ensures r * r * r * (i * i * i) == r * i * (r * i) * (r * i)
  {
  }

  lemma LogCoefficients(r: real, i: real, y: real, l1: real, l2: real)
    requires r * i == 1.0 && y == r * r && y > 0.0 && l1 == 1.0 / y && l2 == -0.5 / (y * y)
    ensures l1 == i * i && l2 == -0.5 * (i * i * (i * i))
  {
    var ii := i * i;
    assert y * ii == 1.0 by {
      assert r * r * (i * i) == r * i * (r * i);
    }
    assert l1 == ii;
    assert y * y * (ii * ii) == 1.0 by {
      assert y * y * (ii * ii) == y * ii * (y * ii);
    }
    ProductPositive(y, y, y * y);
    assert l2 == -0.5 * (ii * ii);
  }

  lemma CoefficientsSum(i: real, l1: real, l2: real, k1: real, k2: real)
    requires l1 == i * i && l2 == -0.5 * (i * i * (i * i)) && k1 == 0.5 * i && k2 == -0.125 * (i * i * i)
    ensures AreaSlope(i) == l1 + k1 + 1.0 && 0.5 * AreaCurve(i) == l2 + k2 + 0.0
  {
  }

  // ---- A function of the second invariant --------------------------------------------------------

  function Second(k: real): V2 {
    V2(0.0, k)
  }

  function SecondM(k: real): M2 {
    M2(V2(0.0, 0.0), V2(0.0, k))
  }

  lemma SecondForms(k: real, c: real, d: V2)
    ensures Dot2(Second(k), d) == d.y * k && Dot2(d, MulVec2(SecondM(c), d)) == d.y * d.y * c
  {
    assert MulVec2(SecondM(c), d) == V2(0.0, c * d.y);
  }

  lemma OneVariable(e: V2 -> real, f: real -> real, i: V2, k: real, c: real)
    requires forall j: V2 :: e(j) == f(j.y)
    requires SecondOrderAt0(From(f, i.y), f(i.y), k, 0.5 * c)
    ensures TwiceDifferentiable2(e, i, Second(k), SecondM(c))
  {
    hide Dot2, MulVec2, Abs, Second, SecondM, Square, Parabola, From;
    forall eps | eps > 0.0 ensures TaylorNear2(e, i, Second(k), SecondM(c), eps) {
      assert QuadraticNear(From(f, i.y), f(i.y), k, 0.5 * c, eps);
      var b :| b > 0.0 && QuadraticWithin(From(f, i.y), f(i.y), k, 0.5 * c, eps, b);
      SquareSign(b);
      SquareZero();
      forall d: V2 | Dot2(d, d) <= Square(b)
        ensures Abs(e(V2(i.x + d.x, i.y + d.y)) - (e(i) + Dot2(Second(k), d) + 0.5 * Dot2(d, MulVec2(SecondM(c), d))))
          <= eps * Dot2(d, d)
      {
        OneAt(e, f, i, k, c, d, eps, b);
      }
      assert Square(b) > 0.0 by {
        SquareAbove(b);
      }
      assert TaylorWithin2(e, i, Second(k), SecondM(c), eps, Square(b));
    }
  }

  lemma OneAt(e: V2 -> real, f: real -> real, i: V2, k: real, c: real, d: V2, eps: real, b: real)
    requires forall j: V2 :: e(j) == f(j.y)
    requires QuadraticWithin(From(f, i.y), f(i.y), k, 0.5 * c, eps, b) && Dot2(d, d) <= Square(b) && b > 0.0
      && eps > 0.0
    ensures Abs(e(V2(i.x + d.x, i.y + d.y)) - (e(i) + Dot2(Second(k), d) + 0.5 * Dot2(d, MulVec2(SecondM(c), d))))
      <= eps * Dot2(d, d)
  {
    hide *;
    BelowBound(d, b);
    SecondForms(k, c, d);
    WithinAt(From(f, i.y), f(i.y), k, 0.5 * c, eps, b, d.y, eps * Square(d.y));
    MulMonotone(Square(d.y), Dot2(d, d), eps);
    FromAt(f, i.y, d.y, e, V2(i.x + d.x, i.y + d.y));
    ParabolaIs(f(i.y), k, c, d.y);
  }

  lemma ParabolaIs(y: real, k: real, c: real, t: real)
    ensures Parabola(y, k, 0.5 * c, t) == y + t * k + 0.5 * (t * t * c)
  {
  }

  lemma BelowBound(d: V2, b: real)
    requires Dot2(d, d) <= Square(b) && b > 0.0
    ensures Abs(d.y) <= b && 0.0 <= Square(d.y) <= Dot2(d, d)
  {
    assert Dot2(d, d) == Square(d.x) + Square(d.y);
    hide Dot2, Square;
    SquareSign(d.x);
    SquareSign(d.y);
    AbsSquare(d.y);
    SquareRoot(Abs(d.y), b);
  }

  lemma FromAt(f: real -> real, y: real, t: real, e: V2 -> real, j: V2)
    requires (forall i: V2 :: e(i) == f(i.y)) && j.y == y + t
    ensures From(f, y)(t) == e(j)
  {
  }

  // ---- Where the script's difference entry is right ----------------------------------------------

  lemma BendOfSecond(a: real, b: real, k: real, c: real)
    ensures Bend2(a, b, Second(k), SecondM(c)) == -2.0 * b * (2.0 * (a * b * (a * b)) * c + k)
  {
    var z := -2.0 * a * b;
    assert MulVec2(SecondM(c), V2(2.0, z)) == V2(0.0, c * z);
    hide MulVec2, SecondM;
    assert 2.0 * a * (b * b) * (c * z) == -2.0 * b * (2.0 * (a * b * (a * b)) * c) by {
      BendRegroup(a, b, c, z);
    }
  }

  lemma BendRegroup(a: real, b: real, c: real, z: real)
    requires z == -2.0 * a * b
    ensures 2.0 * a * (b * b) * (c * z) == -2.0 * b * (2.0 * (a * b * (a * b)) * c)
  {
  }

  lemma BendRoot(r: real, i: real)
    requires r * i == 1.0
    ensures 2.0 * (r * r) * AreaCurve(i) + AreaSlope(i) == 1.0 - i * i
  {
    assert 2.0 * (r * r) * AreaCurve(i) == -2.0 * (r * i * (r * i)) * (i * i) - 0.5 * (r * i * (r * i)) * i by {
      CurveRegroup(r, i);
    }
  }

  lemma CurveRegroup(r: real, i: real)
    ensures r * r * (i * i * (i * i)) == r * i * (r * i) * (i * i)
    ensures r * r * (i * i * i) == r * i * (r * i) * i
  {
  }

  lemma BendZero2(a: real, b: real, r: real, i: real)
    requires b > 0.0 && r == a * b && r > 0.0 && r * i == 1.0
    ensures Bend2(a, b, Second(AreaSlope(i)), SecondM(AreaCurve(i))) == 0.0 <==> r == 1.0
  {
    hide AreaSlope, AreaCurve, Second, SecondM, Bend2;
    BendOfSecond(a, b, AreaSlope(i), AreaCurve(i));
    BendRoot(r, i);
    var v := 1.0 - i * i;
    ProductZero(-2.0 * b, v, -2.0 * b * v);
    UnitRoot(r, i);
  }

  lemma UnitRoot(r: real, i: real)
    requires r > 0.0 && r * i == 1.0
    ensures i * i == 1.0 <==> r == 1.0
  {
    if i * i == 1.0 {
      assert r * r * (i * i) == 1.0 by {
        assert r * r * (i * i) == r * i * (r * i);
      }
      assert r * r == 1.0;
      assert (r - 1.0) * (r + 1.0) == 0.0;
      ProductZero(r - 1.0, r + 1.0, 0.0);
    }
  }

  // The energy's gradient and Hessian in the invariants, at singular values whose product is
  // 1 / i.
  lemma LogTwice(log: real -> real, sqrt: real -> real, s: V2, r: real, i: real)
    requires IsLog(log) && IsSqrt(sqrt) && Positive2(s) && r == s.x * s.y && r * i == 1.0
    ensures r > 0.0
    ensures TwiceDifferentiable2(LogInvariant(log, sqrt), Invariants2(Diag2(s.x, s.y)), Second(AreaSlope(i)),
                                 SecondM(AreaCurve(i)))
  {
    hide *;
    ProductAbove(s, r);
    var j := Invariants2(Diag2(s.x, s.y));
    AreaOfDiag(s.x, s.y, r);
    RootOfSquare(sqrt, r);
    SquareIs(r);
    AreaExpands(log, sqrt, j.y, r, i);
    forall k: V2 ensures LogInvariant(log, sqrt)(k) == LogArea(log, sqrt)(k.y) {
      InvariantAt(log, sqrt, k);
    }
    OneVariable(LogInvariant(log, sqrt), LogArea(log, sqrt), j, AreaSlope(i), AreaCurve(i));
  }

  lemma ProductAbove(s: V2, r: real)
    requires Positive2(s) && r == s.x * s.y
    ensures r > 0.0
  {
    ProductPositive(s.x, s.y, r);
  }

  lemma SquareIs(r: real)
    ensures Square(r) == r * r
  {
  }

  lemma InvariantAt(log: real -> real, sqrt: real -> real, k: V2)
    ensures LogInvariant(log, sqrt)(k) == LogArea(log, sqrt)(k.y)
  {
    hide LogArea;
  }

  lemma SecondSymmetric(k: real)
    ensures Symmetric2(SecondM(k))
  {
  }

  // For its energy the 3x2 script's difference entry is the eigenvalue exactly where the quotient
  // is taken, the two singular values are equal, or their product is 1.
  lemma LogNearValues(log: real -> real, sqrt: real -> real, s: V2, p: V2, m: M2, i: real, values: V2)
    requires IsLog(log) && IsSqrt(sqrt) && Positive2(s) && s.x * s.y * i == 1.0
    requires TwiceAlong2(LogEnergy(log), s, p, m) && Symmetric2(m)
    ensures var g := Second(AreaSlope(i));
      && p == DEda2(s.x, s.y, g) && m == Hessian2.D2Eda2(s.x, s.y, g, SecondM(AreaCurve(i)))
      && (QuotientForm(s.x, s.y, p, m)[1] == Eigenvalues2(s.x, s.y, g, values)[1] <==>
          Abs(s.x - s.y) > NEAR || s.x == s.y || s.x * s.y == 1.0)
  {
    hide IsLog, IsSqrt, TwiceAlong2, LogEnergy, Symmetric2, DEda2, Hessian2.D2Eda2, QuotientForm, Eigenvalues2, Abs,
      AreaSlope, AreaCurve, Second, SecondM, Bend2, Invariants2, Diag2, InSingularValues2, TwiceDifferentiable2;
    var r, g, h := s.x * s.y, Second(AreaSlope(i)), SecondM(AreaCurve(i));
    LogTwice(log, sqrt, s, r, i);
    LogIsInvariant(log, sqrt);
    SecondSymmetric(AreaCurve(i));
    Induced2(LogEnergy(log), LogInvariant(log, sqrt), s, p, m, g, h);
    QuotientFormAgrees(s.x, s.y, g, h, values);
    BendZero2(s.x, s.y, r, i);
  }

  // Such an input.
  lemma LogNearInput(log: real -> real, sqrt: real -> real, values: V2)
    requires IsLog(log) && IsSqrt(sqrt)
    ensures var s, g, h := V2(1.0, 1.005), Second(AreaSlope(1.0 / 1.005)), SecondM(AreaCurve(1.0 / 1.005));
      var p, m := DEda2(s.x, s.y, g), Hessian2.D2Eda2(s.x, s.y, g, h);
      && TwiceAlong2(LogEnergy(log), s, p, m) && Symmetric2(m)
      && QuotientForm(s.x, s.y, p, m)[1] != Eigenvalues2(s.x, s.y, g, values)[1]
  {
    hide IsLog, IsSqrt, LogEnergy, Symmetric2, DEda2, Hessian2.D2Eda2, QuotientForm, Eigenvalues2, AreaSlope, AreaCurve,
      Second, SecondM, Bend2, Invariants2, Diag2, InSingularValues2, TwiceDifferentiable2, SecondOrderAt0, Dot2, Form2,
      Line2;
    var s, i := V2(1.0, 1.005), 1.0 / 1.005;
    var g, h := Second(AreaSlope(i)), SecondM(AreaCurve(i));
    var p, m := DEda2(s.x, s.y, g), Hessian2.D2Eda2(s.x, s.y, g, h);
    LogTwice(log, sqrt, s, 1.005, i);
    LogIsInvariant(log, sqrt);
    SecondSymmetric(AreaCurve(i));
    forall d ensures SecondOrderAt0(Line2(LogEnergy(log), s, d), LogEnergy(log)(s), Dot2(p, d), 0.5 * Form2(m, d)) {
      InducedAlong2(LogEnergy(log), LogInvariant(log, sqrt), s, g, h, d);
    }
    HessianSymmetric2(s.x, s.y, g, h);
    LogNearValues(log, sqrt, s, p, m, i, values);
  }
}
