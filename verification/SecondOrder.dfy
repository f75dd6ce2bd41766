// What "gradient" and "Hessian" mean for the energies of eigsys: the quadratic
// that approximates a function to second order, and the chain rule that carries
// it from the invariants to the deformation gradient.
module SecondOrder {
  import opened LinearAlgebra

  // |f(t) - (k0 + t k1 + t^2 k2)| <= eps t^2 for |t| <= delta
  ghost predicate QuadraticWithin(f: real -> real, k0: real, k1: real, k2: real, eps: real, delta: real) {
    forall t :: Abs(t) <= delta ==> Abs(f(t) - Parabola(k0, k1, k2, t)) <= eps * Square(t)
  }

  function Parabola(k0: real, k1: real, k2: real, t: real): real {
    k0 + t * k1 + t * t * k2
  }

  ghost predicate QuadraticNear(f: real -> real, k0: real, k1: real, k2: real, eps: real) {
    exists delta :: delta > 0.0 && QuadraticWithin(f, k0, k1, k2, eps, delta)
  }

  // f(t) = k0 + t k1 + t^2 k2 + o(t^2)
  ghost predicate SecondOrderAt0(f: real -> real, k0: real, k1: real, k2: real) {
    forall eps :: eps > 0.0 ==> QuadraticNear(f, k0, k1, k2, eps)
  }

  ghost predicate TaylorWithin(e: V3 -> real, i: V3, g: V3, h: M3, eps: real, delta: real) {
    forall d: V3 :: Dot(d, d) <= delta ==>
      Abs(e(Add(i, d)) - (e(i) + Dot(g, d) + 0.5 * Dot(d, MulVec(h, d)))) <= eps * Dot(d, d)
  }

  ghost predicate TaylorNear(e: V3 -> real, i: V3, g: V3, h: M3, eps: real) {
    exists delta :: delta > 0.0 && TaylorWithin(e, i, g, h, eps, delta)
  }

  // e has gradient g and Hessian h at i.
  ghost predicate TwiceDifferentiable(e: V3 -> real, i: V3, g: V3, h: M3) {
    forall eps :: eps > 0.0 ==> TaylorNear(e, i, g, h, eps)
  }

  // ---- Bounds ---------------------------------------------------------------

  predicate Small(v: V3, m: real) {
    Abs(v.x) <= m && Abs(v.y) <= m && Abs(v.z) <= m
  }

  predicate SmallM(h: M3, m: real) {
    Small(h.c0, m) && Small(h.c1, m) && Small(h.c2, m)
  }

  lemma ProductBound(x: real, y: real, p: real, m: real, n: real, b: real)
    requires Abs(x) <= m && Abs(y) <= n && p == x * y && b == m * n
    ensures Abs(p) <= b
  {
    assert 0.0 <= Abs(x) && 0.0 <= Abs(y);
    AbsProduct(x, y);
    hide Abs;
    MulMonotone(Abs(x), m, Abs(y));
    MulMonotone(Abs(y), n, m);
  }

  lemma ScaleEntries(k: real, v: V3, w: V3)
    requires w == Scale(k, v)
    ensures w.x == k * v.x && w.y == k * v.y && w.z == k * v.z
  {
  }

  lemma SmallScale(k: real, v: V3, c: real, m: real, b: real)
    requires Abs(k) <= c && Small(v, m) && b == c * m
    ensures Small(Scale(k, v), b)
  {
    hide Scale, Abs;
    var w := Scale(k, v);
    ScaleEntries(k, v, w);
    ProductBound(k, v.x, w.x, c, m, b);
    ProductBound(k, v.y, w.y, c, m, b);
    ProductBound(k, v.z, w.z, c, m, b);
  }

  lemma AbsAdd3(x: real, y: real, z: real, s: real, b: real)
    requires Abs(x) <= b && Abs(y) <= b && Abs(z) <= b && s == x + y + z
    ensures Abs(s) <= 3.0 * b
  {
  }

  lemma SmallDot(v: V3, w: V3, m: real, n: real, b: real)
    requires Small(v, m) && Small(w, n) && b == m * n
    ensures Abs(Dot(v, w)) <= 3.0 * b
  {
    hide Abs;
    var x, y, z := v.x * w.x, v.y * w.y, v.z * w.z;
    ProductBound(v.x, w.x, x, m, n, b);
    ProductBound(v.y, w.y, y, m, n, b);
    ProductBound(v.z, w.z, z, m, n, b);
    AbsAdd3(x, y, z, Dot(v, w), b);
  }

  lemma SmallCombine(a: V3, b: V3, c: V3, m: real)
    requires Small(a, m) && Small(b, m) && Small(c, m)
    ensures Small(Add(Add(a, b), c), 3.0 * m)
  {
  }

  lemma SmallMulVec(h: M3, v: V3, m: real, n: real, b: real)
    requires SmallM(h, m) && Small(v, n) && b == n * m
    ensures Small(MulVec(h, v), 3.0 * b)
  {
    hide Scale, Small, Add;
    SmallEntries(v, n);
    SmallScale(v.x, h.c0, n, m, b);
    SmallScale(v.y, h.c1, n, m, b);
    SmallScale(v.z, h.c2, n, m, b);
    SmallCombine(Scale(v.x, h.c0), Scale(v.y, h.c1), Scale(v.z, h.c2), b);
  }

  lemma SmallEntries(v: V3, m: real)
    requires Small(v, m)
    ensures Abs(v.x) <= m && Abs(v.y) <= m && Abs(v.z) <= m
  {
  }

  lemma SmallForm(h: M3, v: V3, w: V3, m: real)
    requires SmallM(h, m) && Small(v, 3.0 * m) && Small(w, 3.0 * m)
    ensures Abs(Dot(v, MulVec(h, w))) <= 81.0 * (m * m * m)
  {
    hide *;
    var b := 3.0 * m * m;
    SmallMulVec(h, w, m, 3.0 * m, b);
    SmallDot(v, MulVec(h, w), 3.0 * m, 3.0 * b, 27.0 * (m * m * m));
  }

  function Size(v: V3): real {
    Abs(v.x) + Abs(v.y) + Abs(v.z)
  }

  // ---- The quadratic is unique ----------------------------------------------

  lemma AtZero(f: real -> real, k0: real, k1: real, k2: real, delta: real)
    requires delta > 0.0 && QuadraticWithin(f, k0, k1, k2, 1.0, delta)
    ensures f(0.0) == k0
  {
    assert Abs(f(0.0) - Parabola(k0, k1, k2, 0.0)) <= 1.0 * Square(0.0);
  }

  lemma NarrowWithin(f: real -> real, k0: real, k1: real, k2: real, eps: real, delta: real, delta': real)
    requires delta' <= delta && QuadraticWithin(f, k0, k1, k2, eps, delta)
    ensures QuadraticWithin(f, k0, k1, k2, eps, delta')
  {
  }

  // Two quadratics within eps of one function differ by little at t and at -t.
  lemma Symmetrised(a: real, a': real, b: real, eps: real, t: real, w: real)
    requires t > 0.0 && w == eps * Square(t) && a' == -a
    requires Abs(t * a + t * t * b) <= 2.0 * w
    requires Abs(t * a' + t * t * b) <= 2.0 * w
    ensures Abs(a) <= 2.0 * eps * t && Abs(b) <= 2.0 * eps
  {
    hide *;
    var tb := t * b;
    var bound := 2.0 * eps * t;
    FactorOut(t, a, b, a + tb, eps, bound, w);
    FactorOut(t, a', b, a' + tb, eps, bound, w);
    HalfSum(a, tb, bound);
    CancelFactor(t, b, 2.0 * eps, tb, bound);
  }

  lemma HalfSum(a: real, b: real, bound: real)
    requires Abs(a + b) <= bound && Abs(-a + b) <= bound
    ensures Abs(a) <= bound && Abs(b) <= bound
  {
  }

  lemma FactorOut(t: real, a: real, b: real, u: real, eps: real, bound: real, w: real)
    requires t > 0.0 && w == eps * Square(t) && bound == 2.0 * eps * t && u == a + t * b
    requires Abs(t * a + t * t * b) <= 2.0 * w
    ensures Abs(u) <= bound
  {
    CancelFactor(t, u, bound, t * a + t * t * b, 2.0 * w);
  }

  lemma CancelFactor(t: real, u: real, bound: real, p: real, q: real)
    requires t > 0.0 && p == t * u && q == t * bound && Abs(p) <= q
    ensures Abs(u) <= bound
  {
    if u > bound {
      assert t * u > t * bound;
    }
    if -u > bound {
      assert t * (-u) > t * bound;
    }
  }

  lemma ParabolaDifference(k0: real, k1: real, k2: real, l1: real, l2: real, t: real, s: real, a: real, b: real)
    requires (s == t && a == k1 - l1) || (s == -t && a == l1 - k1)
    requires b == k2 - l2
    ensures t * a + t * t * b == Parabola(k0, k1, k2, s) - Parabola(k0, l1, l2, s)
  {
    if s == t {
    } else {
      assert s * s == t * t;
      assert s * k1 - s * l1 == t * a;
    }
  }

  lemma ParabolaGap(f: real, k0: real, k1: real, k2: real, l1: real, l2: real, t: real, s: real, w: real, a: real,
                    b: real)
    requires Abs(f - Parabola(k0, k1, k2, s)) <= w && Abs(f - Parabola(k0, l1, l2, s)) <= w
    requires (s == t && a == k1 - l1) || (s == -t && a == l1 - k1)
    requires b == k2 - l2
    ensures Abs(t * a + t * t * b) <= 2.0 * w
  {
    hide Parabola;
    ParabolaDifference(k0, k1, k2, l1, l2, t, s, a, b);
  }

  lemma WithinAt(f: real -> real, k0: real, k1: real, k2: real, eps: real, delta: real, t: real, w: real)
    requires QuadraticWithin(f, k0, k1, k2, eps, delta) && Abs(t) <= delta && w == eps * Square(t)
    ensures Abs(f(t) - Parabola(k0, k1, k2, t)) <= w
  {
    hide Parabola, Square;
  }

  lemma CoefficientsClose(f: real -> real, k0: real, k1: real, k2: real, l1: real, l2: real, eps: real, delta: real,
                          t: real)
    requires 0.0 < t <= delta
    requires QuadraticWithin(f, k0, k1, k2, eps, delta) && QuadraticWithin(f, k0, l1, l2, eps, delta)
    ensures Abs(k1 - l1) <= 2.0 * eps * t && Abs(k2 - l2) <= 2.0 * eps
  {
    hide *;
    SquareOpposite(t);
    AbsOfPositive(t);
    var w := eps * Square(t);
    WithinAt(f, k0, k1, k2, eps, delta, t, w);
    WithinAt(f, k0, l1, l2, eps, delta, t, w);
    WithinAt(f, k0, k1, k2, eps, delta, -t, w);
    WithinAt(f, k0, l1, l2, eps, delta, -t, w);
    var a, b := k1 - l1, k2 - l2;
    var a', s := l1 - k1, -t;
    ParabolaGap(f(t), k0, k1, k2, l1, l2, t, t, w, a, b);
    ParabolaGap(f(s), k0, k1, k2, l1, l2, t, s, w, a', b);
    Symmetrised(a, a', b, eps, t, w);
  }

  lemma AbsOfPositive(t: real)
    requires 0.0 < t
    ensures Abs(t) == t && Abs(-t) == t
  {
  }

  lemma SquareOpposite(t: real)
    ensures Square(-t) == Square(t)
  {
  }

  // A function has at most one second-order expansion, so the coefficients the
  // other lemmas find are its value, derivative and half second derivative.
  lemma ExpansionUnique(f: real -> real, k0: real, k1: real, k2: real, l0: real, l1: real, l2: real)
    requires SecondOrderAt0(f, k0, k1, k2) && SecondOrderAt0(f, l0, l1, l2)
    ensures k0 == l0 && k1 == l1 && k2 == l2
  {
    assert QuadraticNear(f, k0, k1, k2, 1.0) && QuadraticNear(f, l0, l1, l2, 1.0);
    var d0 :| d0 > 0.0 && QuadraticWithin(f, k0, k1, k2, 1.0, d0);
    var e0 :| e0 > 0.0 && QuadraticWithin(f, l0, l1, l2, 1.0, e0);
    AtZero(f, k0, k1, k2, d0);
    AtZero(f, l0, l1, l2, e0);
    var near := if d0 <= e0 then d0 else e0;
    NarrowWithin(f, k0, k1, k2, 1.0, d0, near);
    NarrowWithin(f, k0, l1, l2, 1.0, e0, near);
    if k1 != l1 {
      var t := if near <= Abs(k1 - l1) / 4.0 then near else Abs(k1 - l1) / 4.0;
      CoefficientsClose(f, k0, k1, k2, l1, l2, 1.0, near, t);
    }
    if k2 != l2 {
      var eps := Abs(k2 - l2) / 4.0;
      assert QuadraticNear(f, k0, k1, k2, eps) && QuadraticNear(f, l0, l1, l2, eps);
      var d :| d > 0.0 && QuadraticWithin(f, k0, k1, k2, eps, d);
      var e :| e > 0.0 && QuadraticWithin(f, l0, l1, l2, eps, e);
      var t := if d <= e then d else e;
      NarrowWithin(f, k0, k1, k2, eps, d, t);
      NarrowWithin(f, k0, l1, l2, eps, e, t);
      CoefficientsClose(f, k0, k1, k2, l1, l2, eps, t, t);
    }
  }

  // ---- Sums -----------------------------------------------------------------

  lemma WithinFrom(f: real -> real, k0: real, k1: real, k2: real, eps: real, near: real)
    requires forall t :: Abs(t) <= near ==> Abs(f(t) - Parabola(k0, k1, k2, t)) <= eps * Square(t)
    ensures QuadraticWithin(f, k0, k1, k2, eps, near)
  {
    hide Parabola, Square, Abs;
  }

  lemma NearFrom(f: real -> real, k0: real, k1: real, k2: real, eps: real, near: real)
    requires near > 0.0 && QuadraticWithin(f, k0, k1, k2, eps, near)
    ensures QuadraticNear(f, k0, k1, k2, eps)
  {
    hide QuadraticWithin;
  }

  lemma AllNear(f: real -> real, k0: real, k1: real, k2: real)
    requires forall eps :: eps > 0.0 ==> QuadraticNear(f, k0, k1, k2, eps)
    ensures SecondOrderAt0(f, k0, k1, k2)
  {
    hide QuadraticNear;
  }

  lemma TwoErrors(x: real, y: real, z: real, w: real)
    requires Abs(x) <= w && Abs(y) <= w && z == x + y
    ensures Abs(z) <= 2.0 * w
  {
  }

  lemma ParabolaSum(k0: real, k1: real, k2: real, l0: real, l1: real, l2: real, m0: real, m1: real, m2: real, t: real)
    requires m0 == k0 + l0 && m1 == k1 + l1 && m2 == k2 + l2
    ensures Parabola(m0, m1, m2, t) == Parabola(k0, k1, k2, t) + Parabola(l0, l1, l2, t)
  {
    assert t * m1 == t * k1 + t * l1;
    assert t * t * m2 == t * t * k2 + t * t * l2;
  }

  lemma SumWithin(f: real -> real, g: real -> real, h: real -> real, k0: real, k1: real, k2: real, l0: real,
                  l1: real, l2: real, m0: real, m1: real, m2: real, eps: real, half: real, c: real, d: real,
                  near: real)
    requires QuadraticWithin(f, k0, k1, k2, half, c) && QuadraticWithin(g, l0, l1, l2, half, d)
    requires near <= c && near <= d && eps == 2.0 * half && forall t :: h(t) == f(t) + g(t)
    requires m0 == k0 + l0 && m1 == k1 + l1 && m2 == k2 + l2
    ensures QuadraticWithin(h, m0, m1, m2, eps, near)
  {
    hide *;
    forall t | Abs(t) <= near ensures Abs(h(t) - Parabola(m0, m1, m2, t)) <= eps * Square(t) {
      var w := half * Square(t);
      WithinAt(f, k0, k1, k2, half, c, t, w);
      WithinAt(g, l0, l1, l2, half, d, t, w);
      ParabolaSum(k0, k1, k2, l0, l1, l2, m0, m1, m2, t);
      TwoErrors(f(t) - Parabola(k0, k1, k2, t), g(t) - Parabola(l0, l1, l2, t), h(t) - Parabola(m0, m1, m2, t), w);
      assert eps * Square(t) == 2.0 * w;
    }
    WithinFrom(h, m0, m1, m2, eps, near);
  }

  lemma SumExpands(f: real -> real, g: real -> real, h: real -> real, k0: real, k1: real, k2: real, l0: real,
                   l1: real, l2: real, m0: real, m1: real, m2: real)
    requires SecondOrderAt0(f, k0, k1, k2) && SecondOrderAt0(g, l0, l1, l2) && forall t :: h(t) == f(t) + g(t)
    requires m0 == k0 + l0 && m1 == k1 + l1 && m2 == k2 + l2
    ensures SecondOrderAt0(h, m0, m1, m2)
  {
    hide QuadraticWithin;
    forall eps | eps > 0.0 ensures QuadraticNear(h, m0, m1, m2, eps) {
      var half := eps / 2.0;
      assert QuadraticNear(f, k0, k1, k2, half) && QuadraticNear(g, l0, l1, l2, half);
      var c :| c > 0.0 && QuadraticWithin(f, k0, k1, k2, half, c);
      var d :| d > 0.0 && QuadraticWithin(g, l0, l1, l2, half, d);
      var near := if c <= d then c else d;
      SumWithin(f, g, h, k0, k1, k2, l0, l1, l2, m0, m1, m2, eps, half, c, d, near);
    }
  }

  // ---- The chain rule -------------------------------------------------------

  // p + t (q + t r): the velocity of i + t p + t^2 q + t^3 r, up to a factor t.
  function Velocity(p: V3, q: V3, r: V3, t: real): V3 {
    Add(p, Scale(t, Add(q, Scale(t, r))))
  }

  function Displacement(p: V3, q: V3, r: V3, t: real): V3 {
    Scale(t, Velocity(p, q, r, t))
  }

  lemma SmallAdd(a: V3, b: V3, m: real, n: real)
    requires Small(a, m) && Small(b, n)
    ensures Small(Add(a, b), m + n)
  {
  }

  lemma SmallWeaken(a: V3, m: real, n: real)
    requires Small(a, m) && m <= n
    ensures Small(a, n)
  {
  }

  lemma SmallVelocity(p: V3, q: V3, r: V3, t: real, m: real)
    requires m >= 0.0 && Small(p, m) && Small(q, m) && Small(r, m) && Abs(t) <= 1.0
    ensures Small(Add(q, Scale(t, r)), 2.0 * m)
    ensures Small(Velocity(p, q, r, t), 3.0 * m)
  {
    hide Small, Scale, Add, Abs;
    SmallScale(t, r, 1.0, m, m);
    SmallAdd(q, Scale(t, r), m, m);
    var w := Add(q, Scale(t, r));
    SmallScale(t, w, 1.0, 2.0 * m, 2.0 * m);
    SmallAdd(p, Scale(t, w), m, 2.0 * m);
  }

  // v . h v for v = p + t w
  lemma FormExpand(h: M3, p: V3, w: V3, t: real, v: V3, s: real)
    requires v == Add(p, Scale(t, w))
    requires s == Dot(p, MulVec(h, w)) + Dot(w, MulVec(h, p)) + t * Dot(w, MulVec(h, w))
    ensures Dot(v, MulVec(h, v)) == Dot(p, MulVec(h, p)) + t * s
  {
    hide *;
    var hp, hw := MulVec(h, p), MulVec(h, w);
    MulVecAdd(h, p, Scale(t, w));
    MulVecScale(h, t, w);
    var hv := Add(hp, Scale(t, hw));
    DotAdd(p, Scale(t, w), hv);
    DotScale(t, w, hv);
    DotAdd(hp, Scale(t, hw), p);
    DotScale(t, hw, p);
    DotAdd(hp, Scale(t, hw), w);
    DotScale(t, hw, w);
    FormKernel(Dot(p, hp), Dot(p, hw), Dot(w, hp), Dot(w, hw), t, Dot(p, hv), Dot(w, hv), Dot(v, hv), s);
  }

  lemma FormKernel(pp: real, pw: real, wp: real, ww: real, t: real, pv: real, wv: real, vv: real, s: real)
    requires pv == pp + t * pw && wv == wp + t * ww && vv == pv + t * wv && s == pw + wp + t * ww
    ensures vv == pp + t * s
  {
  }

  // The second-order model of the energy along the path, less its parabola.
  lemma ModelGap(i: real, g: V3, h: M3, p: V3, q: V3, r: V3, t: real, w: V3, v: V3, d: V3, s: real,
                 gap: real)
    requires w == Add(q, Scale(t, r)) && v == Add(p, Scale(t, w)) && d == Scale(t, v)
    requires gap == Dot(g, r) + 0.5 * s
    requires s == Dot(p, MulVec(h, w)) + Dot(w, MulVec(h, p)) + t * Dot(w, MulVec(h, w))
    ensures i + Dot(g, d) + 0.5 * Dot(d, MulVec(h, d))
      - Parabola(i, Dot(g, p), Dot(g, q) + 0.5 * Dot(p, MulVec(h, p)), t)
         == t * Square(t) * gap
  {
    hide *;
    DotScale(t, v, g);
    DotAdd(p, Scale(t, w), g);
    DotScale(t, w, g);
    DotAdd(q, Scale(t, r), g);
    DotScale(t, r, g);
    MulVecScale(h, t, v);
    DotScaleScale(t, v, MulVec(h, v));
    FormExpand(h, p, w, t, v, s);
    ModelKernel(i, Dot(g, p), Dot(g, q), Dot(g, r), Dot(g, w), Dot(g, v), Dot(g, d), t,
                Dot(p, MulVec(h, p)), s, Dot(v, MulVec(h, v)), Dot(d, MulVec(h, d)));
  }

  lemma ModelKernel(i: real, gp: real, gq: real, gr: real, gw: real, gv: real, gd: real, t: real,
                    pp: real, s: real, vv: real, dd: real)
    requires gw == gq + t * gr && gv == gp + t * gw && gd == t * gv
    requires vv == pp + t * s && dd == Square(t) * vv
    ensures i + gd + 0.5 * dd - Parabola(i, gp, gq + 0.5 * pp, t) == t * Square(t) * (gr + 0.5 * s)
  {
  }

  // Bounds on the pieces of the gap, for coefficients bounded by m >= 1.
  lemma GapBound(g: V3, h: M3, p: V3, r: V3, w: V3, t: real, m: real, s: real, k: real)
    requires k == 125.0 * (m * m * m)
    requires m >= 1.0 && Abs(t) <= 1.0
    requires Small(g, m) && SmallM(h, m) && Small(p, m) && Small(r, m) && Small(w, 2.0 * m)
    requires s == Dot(p, MulVec(h, w)) + Dot(w, MulVec(h, p)) + t * Dot(w, MulVec(h, w))
    ensures Abs(Dot(g, r) + 0.5 * s) <= k
  {
    hide *;
    var mm, mmm := m * m, m * m * m;
    SmallDot(g, r, m, m, mm);
    SmallWeaken(p, m, 3.0 * m);
    SmallWeaken(w, 2.0 * m, 3.0 * m);
    SmallForm(h, p, w, m);
    SmallForm(h, w, p, m);
    SmallForm(h, w, w, m);
    var ww := Dot(w, MulVec(h, w));
    ProductBound(t, ww, t * ww, 1.0, 81.0 * mmm, 81.0 * mmm);
    CubeDominates(m);
    SumBound(Dot(g, r), Dot(p, MulVec(h, w)), Dot(w, MulVec(h, p)), t * ww, mm, mmm, s);
  }

  lemma CubeDominates(m: real)
    requires m >= 1.0
    ensures 0.0 <= m * m <= m * m * m
  {
    MulMonotone(1.0, m, m);
    MulMonotone(1.0, m, m * m);
  }

  lemma SumBound(a: real, b: real, c: real, d: real, mm: real, mmm: real, s: real)
    requires Abs(a) <= 3.0 * mm && 0.0 <= mm <= mmm
    requires Abs(b) <= 81.0 * mmm && Abs(c) <= 81.0 * mmm && Abs(d) <= 81.0 * mmm && s == b + c + d
    ensures Abs(a + 0.5 * s) <= 125.0 * mmm
  {
  }

  lemma ModelAt(e: V3 -> real, i: V3, g: V3, h: M3, d: V3, eps: real, delta: real)
    requires TaylorWithin(e, i, g, h, eps, delta) && Dot(d, d) <= delta
    ensures Abs(e(Add(i, d)) - (e(i) + Dot(g, d) + 0.5 * Dot(d, MulVec(h, d)))) <= eps * Dot(d, d)
  {
    hide Dot, MulVec, Add, Abs;
  }

  // The displacement is at most 27 m^2 t^2 squared.
  lemma DisplacementBound(v: V3, t: real, m: real, sq: real, room: real)
    requires Small(v, 3.0 * m) && sq == Square(t) && room == 27.0 * (m * m)
    ensures Dot(Scale(t, v), Scale(t, v)) <= sq * room
  {
    hide *;
    DotScaleScale(t, v, v);
    SmallDot(v, v, 3.0 * m, 3.0 * m, 9.0 * (m * m));
    SquareSign(t);
    AbsAbove(Dot(v, v));
    MulMonotone(Dot(v, v), room, sq);
  }

  lemma AbsAbove(x: real)
    ensures x <= Abs(x) && -x <= Abs(x) && 0.0 <= Abs(x)
  {
  }

  lemma EnergyError(eps: real, dd: real, room: real, sq: real, er: real, total: real)
    requires eps >= 0.0 && sq >= 0.0 && dd <= sq * room && er == eps * room && 2.0 * er <= total
    ensures 2.0 * (eps * dd) <= total * sq
  {
    MulMonotone(dd, sq * room, eps);
    MulMonotone(2.0 * er, total, sq);
    assert sq * room * eps == er * sq;
  }

  lemma PathError(t: real, sq: real, gap: real, k: real, tk: real, total: real, error: real)
    requires sq >= 0.0 && Abs(gap) <= k && tk == Abs(t) * k && 2.0 * tk <= total
    requires error == t * sq * gap
    ensures 2.0 * Abs(error) <= total * sq
  {
    hide *;
    AbsNonNegative(sq);
    ProductBound(t, gap, t * gap, Abs(t), k, tk);
    ProductBound(t * gap, sq, error, tk, sq, tk * sq);
    MulMonotone(2.0 * tk, total, sq);
  }

  lemma AbsNonNegative(x: real)
    requires x >= 0.0
    ensures Abs(x) == x
  {
  }

  lemma ErrorSum(value: real, model: real, parabola: real, error: real, a: real, c: real)
    requires Abs(value - model) <= a && 2.0 * a <= c && error == model - parabola && 2.0 * Abs(error) <= c
    ensures Abs(value - parabola) <= c
  {
  }

  lemma Errors(value: real, model: real, parabola: real, eps: real, dd: real, room: real, sq: real, t: real,
               gap: real, k: real, total: real)
    requires Abs(value - model) <= eps * dd && eps >= 0.0 && dd <= sq * room && sq >= 0.0
    requires model - parabola == t * sq * gap && Abs(gap) <= k
    requires 2.0 * (eps * room) <= total && 2.0 * (Abs(t) * k) <= total
    ensures Abs(value - parabola) <= total * sq
  {
    hide *;
    EnergyError(eps, dd, room, sq, eps * room, total);
    var error := model - parabola;
    PathError(t, sq, gap, k, Abs(t) * k, total, error);
    ErrorSum(value, model, parabola, error, eps * dd, total * sq);
  }

  // What coefficients bounded by m allow: room for the squared displacement and
  // k for the cubic term of the path.
  predicate Budget(m: real, room: real, k: real) {
    room == 27.0 * (m * m) && k == 125.0 * (m * m * m)
  }

  // The two errors of one step, for coefficients bounded by m.
  lemma ChainPieces(e: V3 -> real, i: V3, g: V3, h: M3, p: V3, q: V3, r: V3, t: real, m: real,
                    eps: real, delta: real, room: real, k: real, sq: real)
    returns (d: V3, model: real, gap: real, dd: real)
    requires m >= 1.0 && Abs(t) <= 1.0 && Budget(m, room, k) && sq == Square(t)
    requires Small(g, m) && SmallM(h, m) && Small(p, m) && Small(q, m) && Small(r, m)
    requires TaylorWithin(e, i, g, h, eps, delta) && sq * room <= delta
    ensures d == Displacement(p, q, r, t)
    ensures Abs(e(Add(i, d)) - model) <= eps * dd && dd <= sq * room
    ensures model - Parabola(e(i), Dot(g, p), Dot(g, q) + 0.5 * Dot(p, MulVec(h, p)), t) == t * sq * gap
    ensures Abs(gap) <= k
  {
    hide Abs, Small, SmallM, TaylorWithin, Square, Dot, MulVec, Parabola, Add, Scale, Displacement;
    var w := Add(q, Scale(t, r));
    var v := Add(p, Scale(t, w));
    d := Scale(t, v);
    var s := Dot(p, MulVec(h, w)) + Dot(w, MulVec(h, p)) + t * Dot(w, MulVec(h, w));
    model := e(i) + Dot(g, d) + 0.5 * Dot(d, MulVec(h, d));
    gap := Dot(g, r) + 0.5 * s;
    dd := Dot(d, d);
    VelocityIs(p, q, r, t, w, v, d);
    SmallVelocity(p, q, r, t, m);
    DisplacementBound(v, t, m, sq, room);
    ModelAt(e, i, g, h, d, eps, delta);
    ModelGap(e(i), g, h, p, q, r, t, w, v, d, s, gap);
    GapBound(g, h, p, r, w, t, m, s, k);
  }

  lemma ChainAt(e: V3 -> real, i: V3, g: V3, h: M3, p: V3, q: V3, r: V3, t: real, m: real,
                eps: real, delta: real, total: real, room: real, k: real)
    requires m >= 1.0 && Abs(t) <= 1.0 && eps >= 0.0 && Budget(m, room, k)
    requires Small(g, m) && SmallM(h, m) && Small(p, m) && Small(q, m) && Small(r, m)
    requires TaylorWithin(e, i, g, h, eps, delta)
    requires Square(t) * room <= delta && 2.0 * (eps * room) <= total && 2.0 * (Abs(t) * k) <= total
    ensures Abs(e(Add(i, Displacement(p, q, r, t)))
      - Parabola(e(i), Dot(g, p), Dot(g, q) + 0.5 * Dot(p, MulVec(h, p)), t))
         <= total * Square(t)
  {
    hide *;
    SquareSign(t);
    var d, model, gap, dd := ChainPieces(e, i, g, h, p, q, r, t, m, eps, delta, room, k, Square(t));
    Errors(e(Add(i, d)), model, Parabola(e(i), Dot(g, p), Dot(g, q) + 0.5 * Dot(p, MulVec(h, p)), t),
           eps, dd, room, Square(t), t, gap, k, total);
  }

  lemma VelocityIs(p: V3, q: V3, r: V3, t: real, w: V3, v: V3, d: V3)
    requires w == Add(q, Scale(t, r)) && v == Add(p, Scale(t, w)) && d == Scale(t, v)
    ensures v == Velocity(p, q, r, t) && d == Displacement(p, q, r, t)
  {
    hide Add, Scale;
  }

  lemma Choice(eps: real, delta: real, a: real, k: real) returns (bound: real)
    requires eps > 0.0 && delta > 0.0 && a > 0.0 && k > 0.0
    ensures 0.0 < bound <= 1.0 && bound * a <= delta && 2.0 * (bound * k) <= eps
  {
    var u, v := delta / a, eps / (2.0 * k);
    assert u * a == delta && 2.0 * (v * k) == eps;
    bound := if u <= v then u else v;
    if bound > 1.0 {
      bound := 1.0;
    }
    MulMonotone(bound, u, a);
    MulMonotone(bound, v, k);
  }

  lemma SquareOfAbs(t: real)
    ensures Square(t) == Abs(t) * Abs(t) && 0.0 <= Abs(t)
  {
  }

  lemma SquareBelow(t: real)
    requires Abs(t) <= 1.0
    ensures Square(t) <= Abs(t)
  {
    hide *;
    SquareOfAbs(t);
    SquareBelowOne(Abs(t), Square(t));
  }

  lemma SquareBelowOne(a: real, s: real)
    requires 0.0 <= a <= 1.0 && s == a * a
    ensures s <= a
  {
    var rest := 1.0 - a;
    assert rest * a == a - s;
    MulMonotone(0.0, rest, a);
  }

  lemma ChainNear(e: V3 -> real, i: V3, g: V3, h: M3, p: V3, q: V3, r: real -> V3, m: real, f: real -> real,
                  k0: real, k1: real, k2: real, total: real)
    requires TwiceDifferentiable(e, i, g, h)
    requires m >= 1.0 && Small(g, m) && SmallM(h, m) && Small(p, m) && Small(q, m)
    requires forall t :: Abs(t) <= 1.0 ==> Small(r(t), m)
    requires forall t :: f(t) == e(Add(i, Displacement(p, q, r(t), t)))
    requires k0 == e(i) && k1 == Dot(g, p) && k2 == Dot(g, q) + 0.5 * Dot(p, MulVec(h, p)) && total > 0.0
    ensures QuadraticNear(f, k0, k1, k2, total)
  {
    hide Abs, Small, SmallM, TaylorWithin, Square, Dot, MulVec, Parabola, Add, Displacement;
    var a, k := 27.0 * (m * m), 125.0 * (m * m * m);
    RoomsPositive(m);
    var eps := Portion(total, a);
    assert TaylorNear(e, i, g, h, eps);
    var delta :| delta > 0.0 && TaylorWithin(e, i, g, h, eps, delta);
    var bound := Choice(total, delta, a, k);
    forall t | Abs(t) <= bound
      ensures Abs(f(t) - Parabola(k0, k1, k2, t)) <= total * Square(t)
    {
      SquareBelow(t);
      MulMonotone(Square(t), bound, a);
      MulMonotone(Abs(t), bound, k);
      ChainAt(e, i, g, h, p, q, r(t), t, m, eps, delta, total, a, k);
    }
    assert QuadraticWithin(f, k0, k1, k2, total, bound);
  }

  lemma Portion(total: real, a: real) returns (eps: real)
    requires total > 0.0 && a > 0.0
    ensures eps > 0.0 && 2.0 * (eps * a) <= total
  {
    eps := total / (2.0 * a);
  }

  lemma RoomsPositive(m: real)
    requires m >= 1.0
    ensures 27.0 * (m * m) > 0.0 && 125.0 * (m * m * m) > 0.0
  {
    CubeDominates(m);
    MulMonotone(1.0, m, m);
  }

  // Second-order chain rule: an energy with gradient g and Hessian h at i, along
  // i + t p + t^2 q + t^3 r(t), changes by t g.p + t^2 (g.q + p.hp / 2).
  lemma ChainRule(e: V3 -> real, i: V3, g: V3, h: M3, p: V3, q: V3, r: real -> V3, m: real, f: real -> real)
    requires TwiceDifferentiable(e, i, g, h)
    requires m >= 1.0 && Small(g, m) && SmallM(h, m) && Small(p, m) && Small(q, m)
    requires forall t :: Abs(t) <= 1.0 ==> Small(r(t), m)
    requires forall t :: f(t) == e(Add(i, Displacement(p, q, r(t), t)))
    ensures SecondOrderAt0(f, e(i), Dot(g, p), Dot(g, q) + 0.5 * Dot(p, MulVec(h, p)))
  {
    var k0, k1, k2 := e(i), Dot(g, p), Dot(g, q) + 0.5 * Dot(p, MulVec(h, p));
    forall total | total > 0.0
      ensures QuadraticNear(f, k0, k1, k2, total)
    {
      ChainNear(e, i, g, h, p, q, r, m, f, k0, k1, k2, total);
    }
  }
}
