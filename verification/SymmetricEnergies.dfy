// Energies that are a function of the singular values, whatever their order
// (eigsys/eigsys_3.py:37-56, 120-177): the gradient and the nine eigenpairs the script builds
// from g_s and H_s are those of the energy of F.
module SymmetricEnergies {
  import opened LinearAlgebra
  import opened Invariants3
  import opened SecondOrder
  import opened Eigensystem3
  import opened Hessian3
  import opened EigenvalueForms
  import opened SingularEnergies
  import opened SingularPaths
  import opened SingularSolve
  import opened SingularMotion

  ghost predicate SymmetricEnergy(f: V3 -> real) {
    forall a, b :: NonNegative(a) && Permuted(a, b) ==> f(a) == f(b)
  }

  // sigma(t) holds the singular values of F + t X, in any order.
  ghost predicate SingularPath(sigma: real -> V3, f: M3, x: M3) {
    forall t :: NonNegative(sigma(t)) && Invariants(Diag(sigma(t))) == Invariants(Along(f, x, t))
  }

  // energy_F along F + t X.
  function ValuesAlong(f: V3 -> real, sigma: real -> V3): real -> real {
    t => f(sigma(t))
  }

  // The energy of F less its stand-in.
  function Between(f: V3 -> real, sigma: real -> V3, e: V3 -> real, g: M3, x: M3): real -> real {
    t => f(sigma(t)) - EnergyAlong(e, g, x)(t)
  }

  // ---- Along the singular values -------------------------------------------------------------

  // What f and e change from s, compared.
  ghost predicate TwinsAt(f: V3 -> real, e: V3 -> real, s: V3, eps: real, delta: real) {
    forall d :: Dot(d, d) <= delta ==> Abs(f(Add(s, d)) - f(s) - (e(Add(s, d)) - e(s))) <= eps * Dot(d, d)
  }

  lemma OneTaylor(f: V3 -> real, e: V3 -> real, s: V3, p: V3, m: M3, eps: real) returns (delta: real)
    requires TwiceDifferentiable(f, s, p, m) && TwiceDifferentiable(e, s, p, m) && eps > 0.0
    ensures delta > 0.0 && TwinsAt(f, e, s, 2.0 * eps, delta)
  {
    hide Dot, MulVec, Add, Abs;
    assert TaylorNear(f, s, p, m, eps) && TaylorNear(e, s, p, m, eps);
    var b :| b > 0.0 && TaylorWithin(f, s, p, m, eps, b);
    var c :| c > 0.0 && TaylorWithin(e, s, p, m, eps, c);
    delta := if b <= c then b else c;
    forall d | Dot(d, d) <= delta
      ensures Abs(f(Add(s, d)) - f(s) - (e(Add(s, d)) - e(s))) <= 2.0 * eps * Dot(d, d)
    {
      ModelAt(f, s, p, m, d, eps, b);
      ModelAt(e, s, p, m, d, eps, c);
      SameModel(f(Add(s, d)), f(s), e(Add(s, d)), e(s), Dot(p, d), 0.5 * Dot(d, MulVec(m, d)), eps * Dot(d, d));
    }
  }

  lemma SameModel(fd: real, f: real, ed: real, e: real, p: real, q: real, bound: real)
    requires Abs(fd - (f + p + q)) <= bound && Abs(ed - (e + p + q)) <= bound
    ensures Abs(fd - f - (ed - e)) <= 2.0 * bound
  {
  }

  lemma SymmetricIn(f: V3 -> real, v: V3, w: V3)
    requires SymmetricEnergy(f) && NonNegative(v) && Permuted(v, w)
    ensures f(w) == f(v)
  {
  }

  lemma AddSub(s: V3, w: V3)
    ensures Add(s, Sub(w, s)) == w
  {
  }

  // At t, with the three values in the order of those of s.
  lemma TwinsAlong(f: V3 -> real, e: V3 -> real, s: V3, sigma: real -> V3, g: M3, x: M3, c: real, r: real, t: real,
                   eps: real, delta: real, far: real, room: real, total: real)
    requires SymmetricEnergy(f) && SingularPath(sigma, g, x) && Follow(s, g, x, c, r) && Abs(t) <= r
    requires TwinsAt(f, InValues(e), s, eps, delta) && eps >= 0.0
    requires far == c * Abs(t) && c >= 0.0 && room == 3.0 * (far * far) && room <= delta
      && eps * room <= total
    ensures Abs(f(sigma(t)) - f(s) - (EnergyAlong(e, g, x)(t) - InValues(e)(s))) <= total
  {
    hide *;
    var v := sigma(t);
    assert NonNegative(v) && Invariants(Diag(v)) == Invariants(Along(g, x, t)) by {
      PathAt(sigma, g, x, t);
    }
    var w := FollowAt(s, g, x, c, r, t, v, far);
    SymmetricIn(f, v, w);
    PermutedInvariants(v, w);
    var d := Sub(w, s);
    AddSub(s, w);
    InValuesIs(e, w);
    EnergyIs(e, g, x, t);
    SmallDot(d, d, far, far, far * far);
    AbsAbove(Dot(d, d));
    TwinsHere(f, InValues(e), s, eps, delta, d);
    MulMonotone(Dot(d, d), room, eps);
  }

  lemma PathAt(sigma: real -> V3, f: M3, x: M3, t: real)
    requires SingularPath(sigma, f, x)
    ensures NonNegative(sigma(t)) && Invariants(Diag(sigma(t))) == Invariants(Along(f, x, t))
  {
    hide NonNegative, Invariants, Along, Diag;
  }

  lemma FollowAt(s: V3, f: M3, x: M3, c: real, r: real, t: real, v: V3, far: real) returns (w: V3)
    requires Follow(s, f, x, c, r) && Abs(t) <= r && NonNegative(v) && far == c * Abs(t)
    requires Invariants(Diag(v)) == Invariants(Along(f, x, t))
    ensures Permuted(v, w) && Small(Sub(w, s), far)
  {
    hide NonNegative, Invariants, Along, Diag, Permuted, Small, Sub, Abs;
    assert StayNear(s, v, c * Abs(t));
    w :| Permuted(v, w) && Small(Sub(w, s), far);
  }

  lemma TwinsHere(f: V3 -> real, e: V3 -> real, s: V3, eps: real, delta: real, d: V3)
    requires TwinsAt(f, e, s, eps, delta) && Dot(d, d) <= delta
    ensures Abs(f(Add(s, d)) - f(s) - (e(Add(s, d)) - e(s))) <= eps * Dot(d, d)
  {
    hide Dot, Add, Abs;
  }

  lemma EnergyIs(e: V3 -> real, f: M3, x: M3, t: real)
    ensures EnergyAlong(e, f, x)(t) == e(Invariants(Along(f, x, t)))
  {
    hide Invariants, Along;
  }

  lemma RoomIs(c: real, t: real, k: real, far: real)
    requires k == 3.0 * (c * c) && far == c * Abs(t)
    ensures 3.0 * (far * far) == k * Square(t)
  {
    SquareOfAbs(t);
    hide Abs, Square;
    FarSquared(c, Abs(t), far);
  }

  lemma FarSquared(c: real, a: real, far: real)
    requires far == c * a
    ensures 3.0 * (far * far) == 3.0 * (c * c) * (a * a)
  {
    assert far * far == c * a * (c * a) == c * c * (a * a);
  }

  lemma RadiusFor(r: real, delta: real, k: real) returns (near: real)
    requires r > 0.0 && delta > 0.0 && k > 0.0
    ensures 0.0 < near <= r && near <= 1.0 && near * k <= delta
  {
    var q := delta / k;
    assert q * k == delta;
    if q <= 0.0 {
      MulMonotone(q, 0.0, k);
    }
    near := if r <= 1.0 && r <= q then r else if q <= 1.0 then q else 1.0;
    MulMonotone(near, q, k);
  }

  // The energy of F and its stand-in change alike along F + t X.
  lemma ChangeAlike(f: V3 -> real, e: V3 -> real, s: V3, p: V3, m: M3, sigma: real -> V3, g: M3, x: M3, c: real,
                    r: real, gap: real, o: real)
    requires SymmetricEnergy(f) && SingularPath(sigma, g, x) && Follow(s, g, x, c, r) && c > 0.0 && r > 0.0
    requires TwiceDifferentiable(f, s, p, m) && TwiceDifferentiable(InValues(e), s, p, m)
    requires gap == f(s) - InValues(e)(s) && o == 0.0
    ensures SecondOrderAt0(Between(f, sigma, e, g, x), gap, o, o)
  {
    hide *;
    forall eps | eps > 0.0 ensures QuadraticNear(Between(f, sigma, e, g, x), gap, o, o, eps) {
      AlikeNear(f, e, s, p, m, sigma, g, x, c, r, gap, o, eps);
    }
    AllNear(Between(f, sigma, e, g, x), gap, o, o);
  }

  lemma AlikeNear(f: V3 -> real, e: V3 -> real, s: V3, p: V3, m: M3, sigma: real -> V3, g: M3, x: M3, c: real,
                  r: real, gap: real, o: real, eps: real)
    requires SymmetricEnergy(f) && SingularPath(sigma, g, x) && Follow(s, g, x, c, r) && c > 0.0 && r > 0.0
    requires TwiceDifferentiable(f, s, p, m) && TwiceDifferentiable(InValues(e), s, p, m)
    requires gap == f(s) - InValues(e)(s) && o == 0.0 && eps > 0.0
    ensures QuadraticNear(Between(f, sigma, e, g, x), gap, o, o, eps)
  {
    hide *;
    var k := 3.0 * (c * c);
    ProductPositive(c, c, c * c);
    var part := Portion(eps, k);
    var delta := OneTaylor(f, InValues(e), s, p, m, part);
    var near := RadiusFor(r, delta, k);
    forall t | Abs(t) <= near
      ensures Abs(Between(f, sigma, e, g, x)(t) - Parabola(gap, o, o, t)) <= eps * Square(t)
    {
      var far := c * Abs(t);
      var room := 3.0 * (far * far);
      RoomIs(c, t, k, far);
      SquareBelow(t);
      SquareSign(t);
      MulMonotone(Square(t), near, k);
      MulMonotone(2.0 * (part * k), eps, Square(t));
      RoomTotal(part, k, Square(t), room);
      TwinsAlong(f, e, s, sigma, g, x, c, r, t, 2.0 * part, delta, far, room, eps * Square(t));
      GapIs(f, sigma, e, g, x, t, gap, o);
      assert f(sigma(t)) - f(s) - (EnergyAlong(e, g, x)(t) - InValues(e)(s)) ==
        Between(f, sigma, e, g, x)(t) - Parabola(gap, o, o, t);
    }
    WithinFrom(Between(f, sigma, e, g, x), gap, o, o, eps, near);
    NearFrom(Between(f, sigma, e, g, x), gap, o, o, eps, near);
  }

  lemma GapIs(f: V3 -> real, sigma: real -> V3, e: V3 -> real, g: M3, x: M3, t: real, gap: real, o: real)
    requires o == 0.0
    ensures Parabola(gap, o, o, t) == gap
    ensures Between(f, sigma, e, g, x)(t) == f(sigma(t)) - EnergyAlong(e, g, x)(t)
  {
    hide EnergyAlong;
  }

  lemma RoomTotal(part: real, k: real, sq: real, room: real)
    requires room == k * sq
    ensures 2.0 * part * room == 2.0 * (part * k) * sq
  {
    assert part * room == part * k * sq;
  }

  // ---- The eigenvalues ---------------------------------------------------------------------

  // Two different singular values for which the script's difference is the quotient.
  predicate NearRight(pi: real, pj: real, si: real, sj: real, hii: real, hij: real)
    requires si != sj
  {
    Abs(si - sj) > NEAR || hii - hij == (pi - pj) / (si - sj)
  }

  predicate AllNearRight(s: V3, p: V3, m: M3)
    requires Distinct(s)
  {
    && NearRight(p.x, p.y, s.x, s.y, m.c0.x, m.c1.x) && NearRight(p.x, p.z, s.x, s.z, m.c0.x, m.c2.x)
    && NearRight(p.y, p.z, s.y, s.z, m.c1.y, m.c2.y)
  }

  lemma DifferenceIs(da: real, db: real, l: real, k: real, a: real, b: real, hii: real, hij: real)
    requires a != b && PairRelation(da, db, l, k, a, b) && NearRight(da, db, a, b, hii, hij)
    ensures Difference(da, db, a, b, hii, hij) == k
  {
    Quotients(da, db, l, k, a, b);
    hide PairRelation;
  }

  lemma DifferencesAre(s: V3, g: V3, m: M3)
    requires Distinct(s) && AllNearRight(s, DEda(s, g), m)
    ensures DifferenceForm(s, DEda(s, g), m) == SymEigenvalues(s.x, s.y, s.z, g)
  {
    hide DEda, AntiEigenvalues, SymEigenvalues, PairRelation, NearRight, Difference;
    var d, l, k := DEda(s, g), AntiEigenvalues(s.x, s.y, s.z, g), SymEigenvalues(s.x, s.y, s.z, g);
    PairRelations(s, g);
    PairSwap(d.z, d.x, l.y, k.y, s.z, s.x);
    DifferenceIs(d.x, d.y, l.x, k.x, s.x, s.y, m.c0.x, m.c1.x);
    DifferenceIs(d.x, d.z, l.y, k.y, s.x, s.z, m.c0.x, m.c2.x);
    DifferenceIs(d.y, d.z, l.z, k.z, s.y, s.z, m.c1.y, m.c2.y);
  }

  lemma FormIs(root2: real, u: M3, s: V3, v: M3, g: V3, p: V3, m: M3, values: V3, w: M3, x: M3)
    requires root2 > 0.0 && Positive(s) && Distinct(s) && p == DEda(s, g) && AllNearRight(s, p, m)
    ensures SingularForm(root2, u, s, v, p, m, values, w, x) == RebuiltForm(root2, u, s, v, g, values, w, x)
  {
    hide Spectral, RotateAll, Modes, DEda, AllNearRight, SumForm, DifferenceForm, AntiEigenvalues, SymEigenvalues;
    SumFormAgrees(s, g);
    DifferencesAre(s, g, m);
  }

  // The stand-in along F + t X, in the terms of the script.
  lemma StandInTheorem(e: V3 -> real, u: M3, s: V3, v: M3, g: V3, h: M3, p: V3, m: M3, values: V3, w: M3, root2: real,
                       x: M3)
    requires Orthogonal(u) && Orthogonal(v) && root2 > 0.0 && root2 * root2 == 2.0
    requires Positive(s) && Distinct(s) && AllNearRight(s, p, m) && EigenSystem(m, values, w)
    requires p == DEda(s, g) && m == D2Eda2(s, g, h) && TwiceDifferentiable(e, Invariants(Diag(s)), g, h)
    ensures SecondOrderAt0(EnergyAlong(e, Rotate(u, Diag(s), v), x), e(Invariants(Diag(s))),
                           Inner(Rotate(u, Diag(p), v), x),
                           0.5 * SingularForm(root2, u, s, v, p, m, values, w, x))
  {
    hide *;
    InvariantsRotate(u, Diag(s), v);
    HessianTheorem(e, u, s, v, g, h, values, w, root2, x);
    GradientRotated(e, u, s, v, g, h, x);
    FormIs(root2, u, s, v, g, p, m, values, w, x);
  }

  // ---- The theorem ------------------------------------------------------------------------------

  // For any energy of the singular values that does not depend on their order, with gradient p
  // and Hessian m at distinct positive singular values s, and where no near branch is wrong:
  // along any X the energy of F + t X is
  //   f(s) + t <U diag(p) V.T, X> + t^2 / 2 sum_i lmds[i] <U Qs[i] V.T, X>^2 + o(t^2),
  // with the gradient and the nine eigenpairs of the script.
  lemma SymmetricTheorem(f: V3 -> real, u: M3, s: V3, v: M3, p: V3, m: M3, values: V3, w: M3, root2: real, x: M3,
                         sigma: real -> V3)
    requires Orthogonal(u) && Orthogonal(v) && root2 > 0.0 && root2 * root2 == 2.0
    requires Positive(s) && Distinct(s) && AllNearRight(s, p, m)
    requires SymmetricEnergy(f) && TwiceDifferentiable(f, s, p, m) && EigenSystem(m, values, w)
    requires SingularPath(sigma, Rotate(u, Diag(s), v), x)
    ensures SecondOrderAt0(ValuesAlong(f, sigma), f(s), Inner(Rotate(u, Diag(p), v), x),
                           0.5 * SingularForm(root2, u, s, v, p, m, values, w, x))
  {
    hide *;
    var y, i := Rotate(u, Diag(s), v), Invariants(Diag(s));
    InvariantsRotate(u, Diag(s), v);
    var c, r := ValuesFollow(s, y, x);
    var g, h := SolvedFor(s, p, m);
    var e := QuadraticEnergy(i, g, h);
    QuadraticTwice(i, g, h);
    InducedTwice(s, g, h);
    StandInTheorem(e, u, s, v, g, h, p, m, values, w, root2, x);
    InValuesIs(e, s);
    var k1, k2 := Inner(Rotate(u, Diag(p), v), x), 0.5 * SingularForm(root2, u, s, v, p, m, values, w, x);
    var rest := Between(f, sigma, e, y, x);
    ChangeAlike(f, e, s, p, m, sigma, y, x, c, r, f(s) - e(i), 0.0);
    forall t ensures ValuesAlong(f, sigma)(t) == EnergyAlong(e, y, x)(t) + rest(t) {
      GapIs(f, sigma, e, y, x, t, 0.0, 0.0);
      ValuesAt(f, sigma, t);
    }
    SumExpands(EnergyAlong(e, y, x), rest, ValuesAlong(f, sigma), e(i), k1, k2, f(s) - e(i), 0.0, 0.0, f(s), k1, k2);
  }

  lemma ValuesAt(f: V3 -> real, sigma: real -> V3, t: real)
    ensures ValuesAlong(f, sigma)(t) == f(sigma(t))
  {
  }

  // ---- ARAP ---------------------------------------------------------------------------------------

  // energy_s of the script for "ARAP": the sum of (s - 1)^2.
  function Arap(s: V3): real {
    Stretch(s.x) + Stretch(s.y) + Stretch(s.z)
  }

  function Stretch(x: real): real {
    (x - 1.0) * (x - 1.0)
  }

  lemma ArapSymmetric()
    ensures SymmetricEnergy(Arap)
  {
    hide Stretch, NonNegative;
    forall a, b | NonNegative(a) && Permuted(a, b) ensures Arap(a) == Arap(b) {
    }
  }

  function ArapGradient(s: V3): V3 {
    V3(2.0 * (s.x - 1.0), 2.0 * (s.y - 1.0), 2.0 * (s.z - 1.0))
  }

  const TWICE := Diag(V3(2.0, 2.0, 2.0))

  lemma DiagTimes(k: real, d: V3)
    ensures MulVec(Diag(V3(k, k, k)), d) == Scale(k, d)
  {
    MulEntries(Diag(V3(k, k, k)), d.x, d.y, d.z);
    hide MulVec;
  }

  lemma ArapStep(s: V3, d: V3)
    ensures Arap(Add(s, d)) == Arap(s) + Dot(ArapGradient(s), d) + 0.5 * Dot(d, MulVec(TWICE, d))
  {
    var j, p := Add(s, d), ArapGradient(s);
    assert j.x == s.x + d.x && j.y == s.y + d.y && j.z == s.z + d.z;
    assert p.x == 2.0 * (s.x - 1.0) && p.y == 2.0 * (s.y - 1.0) && p.z == 2.0 * (s.z - 1.0);
    hide MulVec, Scale, Add, Stretch, ArapGradient, Diag, Dot;
    DiagTimes(2.0, d);
    DotScale(2.0, d, d);
    DotTimes(p, d);
    DotTimes(d, d);
    ArapEntry(s.x, d.x, j.x, p.x);
    ArapEntry(s.y, d.y, j.y, p.y);
    ArapEntry(s.z, d.z, j.z, p.z);
  }

  lemma ArapEntry(x: real, d: real, y: real, p: real)
    requires y == x + d && p == 2.0 * (x - 1.0)
    ensures Stretch(y) == Stretch(x) + Times(p, d) + Times(d, d)
  {
  }

  lemma ArapTwice(s: V3)
    ensures TwiceDifferentiable(Arap, s, ArapGradient(s), TWICE)
  {
    hide Arap, ArapGradient, Dot, MulVec, Add;
    forall eps | eps > 0.0 ensures TaylorNear(Arap, s, ArapGradient(s), TWICE, eps) {
      forall d: V3 | Dot(d, d) <= 1.0
        ensures Abs(Arap(Add(s, d)) - (Arap(s) + Dot(ArapGradient(s), d) + 0.5 * Dot(d, MulVec(TWICE, d))))
          <= eps * Dot(d, d)
      {
        ArapStep(s, d);
        DotSelf(d);
        ProductSign(eps, Dot(d, d));
      }
      assert TaylorWithin(Arap, s, ArapGradient(s), TWICE, eps, 1.0);
    }
  }

  lemma ArapNearRight(s: V3)
    requires Distinct(s)
    ensures AllNearRight(s, ArapGradient(s), TWICE)
  {
    Quotient(2.0 * (s.x - 1.0) - 2.0 * (s.y - 1.0), 2.0, s.x - s.y);
    Quotient(2.0 * (s.x - 1.0) - 2.0 * (s.z - 1.0), 2.0, s.x - s.z);
    Quotient(2.0 * (s.y - 1.0) - 2.0 * (s.z - 1.0), 2.0, s.y - s.z);
  }

  lemma ArapEigenSystem()
    ensures EigenSystem(TWICE, V3(2.0, 2.0, 2.0), IDENTITY)
  {
    IdentityOrthogonal();
    hide Orthogonal, MulVec, Diag, Scale;
    DiagTimes(2.0, IDENTITY.c0);
    DiagTimes(2.0, IDENTITY.c1);
    DiagTimes(2.0, IDENTITY.c2);
  }

  lemma IdentityOrthogonal()
    ensures Orthogonal(IDENTITY)
  {
  }

  // ARAP has no polynomial form in the invariants; its near branch is always right.
  lemma ArapTheorem(u: M3, s: V3, v: M3, root2: real, x: M3, sigma: real -> V3)
    requires Orthogonal(u) && Orthogonal(v) && root2 > 0.0 && root2 * root2 == 2.0
    requires Positive(s) && Distinct(s) && SingularPath(sigma, Rotate(u, Diag(s), v), x)
    ensures SecondOrderAt0(ValuesAlong(Arap, sigma), Arap(s), Inner(Rotate(u, Diag(ArapGradient(s)), v), x),
                           0.5 * SingularForm(root2, u, s, v, ArapGradient(s), TWICE, V3(2.0, 2.0, 2.0), IDENTITY, x))
  {
    hide *;
    ArapSymmetric();
    ArapTwice(s);
    ArapNearRight(s);
    ArapEigenSystem();
    SymmetricTheorem(Arap, u, s, v, ArapGradient(s), TWICE, V3(2.0, 2.0, 2.0), IDENTITY, root2, x, sigma);
  }
}
