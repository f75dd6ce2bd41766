// Energies given in the singular values, as the singular-value script takes them
// (eigsys/eigsys_3.py:37-75, 120-177): the gradient and the nine eigenpairs it builds from the
// energy's gradient and Hessian in (a, b, c) are those of the energy of F.
module SingularEnergies {
  import opened LinearAlgebra
  import opened Invariants3
  import opened SecondOrder
  import opened Eigensystem3
  import opened Hessian3
  import opened EigenvalueForms

  function Line(f: V3 -> real, s: V3, d: V3): real -> real {
    t => f(Add(s, Scale(t, d)))
  }

  // f has gradient p and Hessian m at s, along every line.
  ghost predicate TwiceAlong(f: V3 -> real, s: V3, p: V3, m: M3) {
    forall d :: SecondOrderAt0(Line(f, s, d), f(s), Dot(p, d), 0.5 * Form(m, d))
  }

  predicate Symmetric(m: M3) {
    Transpose(m) == m
  }

  predicate Positive(s: V3) {
    s.x > 0.0 && s.y > 0.0 && s.z > 0.0
  }

  // f is the energy of F at F = diag(a, b, c), for positive singular values.
  ghost predicate InSingularValues(f: V3 -> real, e: V3 -> real) {
    forall s :: Positive(s) ==> f(s) == e(Invariants(Diag(s)))
  }

  // lmds of the singular-value script, for g_s = p and H_s = m with eigenvalues S_s.
  function SingularEigenvalues(s: V3, p: V3, m: M3, values: V3): (lmds: seq<real>)
    requires Positive(s)
    ensures |lmds| == 9
  {
    var k, l := SumForm(s, p), DifferenceForm(s, p, m);
    [k.x, k.y, k.z, l.x, l.y, l.z, values.x, values.y, values.z]
  }

  // ---- The energy's derivatives in the singular values ----------------------------------

  lemma DiagAlong(s: V3, d: V3, t: real)
    ensures Along(Diag(s), Diag(d), t) == Diag(Add(s, Scale(t, d)))
  {
  }

  lemma RoomFor(a: real, d: real) returns (r: real)
    requires a > 0.0
    ensures r > 0.0 && forall t :: Abs(t) <= r ==> a + t * d > 0.0
  {
    var k := 1.0 + Abs(d);
    r := a / k;
    assert r * k == a;
    forall t | Abs(t) <= r ensures a + t * d > 0.0 {
      Within(a, d, t, r, k);
    }
  }

  lemma Within(a: real, d: real, t: real, r: real, k: real)
    requires r > 0.0 && r * k == a && k == 1.0 + Abs(d) && Abs(t) <= r
    ensures a + t * d > 0.0
  {
    AbsProduct(t, d);
    MulMonotone(Abs(t), r, Abs(d));
    assert r * k == r + r * Abs(d);
  }

  // Near s the line stays among the positive singular values.
  lemma PositiveNear(s: V3, d: V3) returns (r: real)
    requires Positive(s)
    ensures r > 0.0 && forall t :: Abs(t) <= r ==> Positive(Add(s, Scale(t, d)))
  {
    var a := RoomFor(s.x, d.x);
    var b := RoomFor(s.y, d.y);
    var c := RoomFor(s.z, d.z);
    r := if a <= b && a <= c then a else if b <= c then b else c;
    forall t | Abs(t) <= r ensures Positive(Add(s, Scale(t, d))) {
      assert s.x + t * d.x > 0.0 && s.y + t * d.y > 0.0 && s.z + t * d.z > 0.0;
    }
  }

  lemma LineIsEnergy(f: V3 -> real, e: V3 -> real, s: V3, d: V3) returns (r: real)
    requires InSingularValues(f, e) && Positive(s)
    ensures r > 0.0 && forall t :: Abs(t) <= r ==> Line(f, s, d)(t) == EnergyAlong(e, Diag(s), Diag(d))(t)
  {
    hide Invariants, Along, Diag, Add, Scale, Positive, Abs;
    r := PositiveNear(s, d);
    forall t | Abs(t) <= r ensures Line(f, s, d)(t) == EnergyAlong(e, Diag(s), Diag(d))(t) {
      DiagAlong(s, d, t);
      assert Positive(Add(s, Scale(t, d)));
    }
  }

  // Functions that agree near 0 have the same expansion.
  lemma NearExpansion(f: real -> real, f': real -> real, r: real, k0: real, k1: real, k2: real)
    requires r > 0.0 && (forall t :: Abs(t) <= r ==> f(t) == f'(t)) && SecondOrderAt0(f', k0, k1, k2)
    ensures SecondOrderAt0(f, k0, k1, k2)
  {
    hide Abs, Parabola, Square;
    forall eps | eps > 0.0
      ensures QuadraticNear(f, k0, k1, k2, eps)
    {
      assert QuadraticNear(f', k0, k1, k2, eps);
      var delta :| delta > 0.0 && QuadraticWithin(f', k0, k1, k2, eps, delta);
      assert QuadraticWithin(f, k0, k1, k2, eps, if delta <= r then delta else r);
    }
  }

  lemma DiagonalDiag(d: V3)
    ensures Diagonal(Diag(d)) == d
  {
  }

  lemma NoPairs(l: V3, m: V3, d: V3)
    ensures PairSum(l, m, Diag(d)) == 0.0
  {
  }

  lemma FirstAlong(s: V3, g: V3, d: V3)
    ensures Dot(g, FirstVariation(Diag(s), Diag(d))) == Dot(DEda(s, g), d)
  {
    hide FirstVariation, Diag, Diagonal, DIda, Dot, MulVec, Transpose;
    FirstVariationDiag(s, Diag(d));
    DiagonalDiag(d);
    Adjoint(DIda(s), g, d);
  }

  // The energy of F taken at diagonal matrices has this gradient and Hessian.
  lemma InducedAlong(f: V3 -> real, e: V3 -> real, s: V3, g: V3, h: M3, d: V3)
    requires InSingularValues(f, e) && Positive(s) && TwiceDifferentiable(e, Invariants(Diag(s)), g, h)
    ensures SecondOrderAt0(Line(f, s, d), f(s), Dot(DEda(s, g), d), 0.5 * Form(D2Eda2(s, g, h), d))
  {
    hide *;
    var y := Diag(d);
    assert f(s) == e(Invariants(Diag(s))) by {
      AtDiag(f, e, s);
    }
    var r := LineIsEnergy(f, e, s, d);
    EnergySecondOrder(e, Diag(s), y, g, h);
    FirstAlong(s, g, d);
    ModelDiag(s, y, g, h);
    DiagonalDiag(d);
    NoPairs(AntiEigenvalues(s.x, s.y, s.z, g), SymEigenvalues(s.x, s.y, s.z, g), d);
    NearExpansion(Line(f, s, d), EnergyAlong(e, Diag(s), y), r, f(s), Dot(DEda(s, g), d),
      0.5 * Form(D2Eda2(s, g, h), d));
  }

  lemma AtDiag(f: V3 -> real, e: V3 -> real, s: V3)
    requires InSingularValues(f, e) && Positive(s)
    ensures f(s) == e(Invariants(Diag(s)))
  {
  }

  // ---- A gradient and a symmetric Hessian are determined by the lines ---------------------

  lemma UnitDots(p: V3)
    ensures Dot(p, V3(1.0, 0.0, 0.0)) == p.x && Dot(p, V3(0.0, 1.0, 0.0)) == p.y && Dot(p, V3(0.0, 0.0, 1.0)) == p.z
  {
  }

  lemma MulUnits(m: M3, i: real, o: real)
    requires i == 1.0 && o == 0.0
    ensures MulVec(m, V3(i, o, o)) == m.c0 && MulVec(m, V3(o, i, o)) == m.c1 && MulVec(m, V3(o, o, i)) == m.c2
  {
    hide MulVec;
    MulEntries(m, i, o, o);
    MulEntries(m, o, i, o);
    MulEntries(m, o, o, i);
    MulUnit(m.c0.x, m.c1.x, m.c2.x, i, o);
    MulUnit(m.c0.y, m.c1.y, m.c2.y, i, o);
    MulUnit(m.c0.z, m.c1.z, m.c2.z, i, o);
  }

  lemma MulEntries(m: M3, x: real, y: real, z: real)
    ensures MulVec(m, V3(x, y, z)) == V3(m.c0.x * x + m.c1.x * y + m.c2.x * z,
      m.c0.y * x + m.c1.y * y + m.c2.y * z, m.c0.z * x + m.c1.z * y + m.c2.z * z)
  {
  }

  lemma MulUnit(x: real, y: real, z: real, i: real, o: real)
    requires i == 1.0 && o == 0.0
    ensures x * i + y * o + z * o == x && x * o + y * i + z * o == y && x * o + y * o + z * i == z
  {
  }

  lemma DotPairs(p: V3)
    ensures Dot(V3(1.0, 1.0, 0.0), p) == p.x + p.y
    ensures Dot(V3(1.0, 0.0, 1.0), p) == p.x + p.z
    ensures Dot(V3(0.0, 1.0, 1.0), p) == p.y + p.z
  {
  }

  lemma MulPairs(m: M3)
    ensures MulVec(m, V3(1.0, 1.0, 0.0)) == Add(m.c0, m.c1)
    ensures MulVec(m, V3(1.0, 0.0, 1.0)) == Add(m.c0, m.c2)
    ensures MulVec(m, V3(0.0, 1.0, 1.0)) == Add(m.c1, m.c2)
  {
  }

  lemma UnitForms(m: M3)
    ensures Form(m, V3(1.0, 0.0, 0.0)) == m.c0.x
    ensures Form(m, V3(0.0, 1.0, 0.0)) == m.c1.y
    ensures Form(m, V3(0.0, 0.0, 1.0)) == m.c2.z
    ensures Form(m, V3(1.0, 1.0, 0.0)) == m.c0.x + m.c1.x + (m.c0.y + m.c1.y)
    ensures Form(m, V3(1.0, 0.0, 1.0)) == m.c0.x + m.c2.x + (m.c0.z + m.c2.z)
    ensures Form(m, V3(0.0, 1.0, 1.0)) == m.c1.y + m.c2.y + (m.c1.z + m.c2.z)
  {
    hide Dot, MulVec;
    MulUnits(m, 1.0, 0.0);
    MulPairs(m);
    UnitDots(m.c0);
    UnitDots(m.c1);
    UnitDots(m.c2);
    DotSymmetric(V3(1.0, 0.0, 0.0), m.c0);
    DotSymmetric(V3(0.0, 1.0, 0.0), m.c1);
    DotSymmetric(V3(0.0, 0.0, 1.0), m.c2);
    DotPairs(Add(m.c0, m.c1));
    DotPairs(Add(m.c0, m.c2));
    DotPairs(Add(m.c1, m.c2));
  }

  lemma SymmetricIs(m: M3)
    requires Symmetric(m)
    ensures m.c0.y == m.c1.x && m.c0.z == m.c2.x && m.c1.z == m.c2.y
  {
  }

  lemma FormsDetermine(m: M3, n: M3)
    requires Symmetric(m) && Symmetric(n) && forall d :: Form(m, d) == Form(n, d)
    ensures m == n
  {
    hide Form, Symmetric;
    UnitForms(m);
    UnitForms(n);
    SymmetricIs(m);
    SymmetricIs(n);
    assert m.c0.x == n.c0.x && m.c1.y == n.c1.y && m.c2.z == n.c2.z;
    assert m.c1.x == n.c1.x && m.c2.x == n.c2.x && m.c2.y == n.c2.y;
  }

  lemma DotsDetermine(p: V3, q: V3)
    requires forall d :: Dot(p, d) == Dot(q, d)
    ensures p == q
  {
    hide Dot;
    UnitDots(p);
    UnitDots(q);
  }

  lemma SymmetricFrom(m: M3)
    requires m.c0.y == m.c1.x && m.c0.z == m.c2.x && m.c1.z == m.c2.y
    ensures Symmetric(m)
  {
  }

  lemma SumSymmetric(a: M3, b: M3)
    requires Symmetric(a) && Symmetric(b)
    ensures Symmetric(AddM(a, b))
  {
    hide Transpose, AddM;
    TransposeAdd(a, b);
  }

  lemma MultipleSymmetric(k: real, a: M3)
    requires Symmetric(a)
    ensures Symmetric(ScaleM(k, a))
  {
    hide Transpose, ScaleM;
    TransposeScale(k, a);
  }

  lemma ConjugateSymmetric(d: M3, h: M3)
    requires Symmetric(h)
    ensures Symmetric(MatMul(MatMul(d, h), Transpose(d)))
  {
    hide Transpose, MatMul;
    TransposeMatMul(MatMul(d, h), Transpose(d));
    TransposeMatMul(d, h);
    TransposeInvolution(d);
    MatMulAssociative(d, h, Transpose(d));
  }

  lemma HessianSymmetric(s: V3, g: V3, h: M3)
    requires Symmetric(h)
    ensures Symmetric(D2Eda2(s, g, h))
  {
    hide Symmetric, AddM, ScaleM, MatMul, Transpose, Doubly;
    var a, b, c := ScaleM(g.x, D2I1(s)), ScaleM(g.y, D2I2(s)), ScaleM(g.z, D2I3(s));
    LengthSymmetric(s);
    AreaSymmetric(s);
    VolumeSymmetric(s);
    hide D2I1, D2I2, D2I3;
    MultipleSymmetric(g.x, D2I1(s));
    MultipleSymmetric(g.y, D2I2(s));
    MultipleSymmetric(g.z, D2I3(s));
    SumSymmetric(a, b);
    SumSymmetric(AddM(a, b), c);
    ConjugateSymmetric(DIda(s), h);
    SumSymmetric(Weighted(s, g), MatMul(MatMul(DIda(s), h), Transpose(DIda(s))));
  }

  lemma LengthSymmetric(s: V3)
    ensures Symmetric(D2I1(s))
  {
    hide Symmetric;
    SymmetricFrom(D2I1(s));
  }

  lemma AreaSymmetric(s: V3)
    ensures Symmetric(D2I2(s))
  {
    hide Symmetric;
    SymmetricFrom(D2I2(s));
  }

  lemma VolumeSymmetric(s: V3)
    ensures Symmetric(D2I3(s))
  {
    hide Symmetric;
    SymmetricFrom(D2I3(s));
  }

  // So the gradient and Hessian in (a, b, c) are those that come from the invariants.
  lemma Induced(f: V3 -> real, e: V3 -> real, s: V3, p: V3, m: M3, g: V3, h: M3)
    requires Positive(s) && InSingularValues(f, e) && TwiceDifferentiable(e, Invariants(Diag(s)), g, h)
    requires Symmetric(h) && TwiceAlong(f, s, p, m) && Symmetric(m)
    ensures p == DEda(s, g) && m == D2Eda2(s, g, h)
  {
    hide Dot, Form, SecondOrderAt0, InSingularValues, TwiceDifferentiable, Symmetric, DEda, D2Eda2, Line, Invariants;
    forall d
      ensures Dot(p, d) == Dot(DEda(s, g), d) && Form(m, d) == Form(D2Eda2(s, g, h), d)
    {
      InducedAlong(f, e, s, g, h, d);
      assert SecondOrderAt0(Line(f, s, d), f(s), Dot(p, d), 0.5 * Form(m, d));
      ExpansionUnique(Line(f, s, d), f(s), Dot(p, d), 0.5 * Form(m, d),
                      f(s), Dot(DEda(s, g), d), 0.5 * Form(D2Eda2(s, g, h), d));
    }
    HessianSymmetric(s, g, h);
    FormsDetermine(m, D2Eda2(s, g, h));
    DotsDetermine(p, DEda(s, g));
  }

  // ---- The theorem --------------------------------------------------------------------------

  // U diag(g_s) V.T along x is the energy's slope.
  lemma GradientRotated(e: V3 -> real, u: M3, s: V3, v: M3, g: V3, h: M3, x: M3)
    requires Orthogonal(u) && Orthogonal(v) && TwiceDifferentiable(e, Invariants(Rotate(u, Diag(s), v)), g, h)
    ensures Inner(EnergyGradient(Rotate(u, Diag(s), v), g), x) == Inner(Rotate(u, Diag(DEda(s, g)), v), x)
  {
    hide *;
    var f, d, y := Rotate(u, Diag(s), v), Diag(s), Unrotate(u, x, v);
    InvariantsRotate(u, d, v);
    EnergySecondOrder(e, d, y, g, h);
    EnergySecondOrder(e, f, x, g, h);
    forall t ensures EnergyAlong(e, f, x)(t) == EnergyAlong(e, d, y)(t) {
      EnergyRotated(e, u, d, v, x, t);
    }
    var k2 := Dot(g, SecondVariation(d, y)) + 0.5 * Form(h, FirstVariation(d, y));
    SameExpansion(EnergyAlong(e, f, x), EnergyAlong(e, d, y), e(Invariants(d)), Dot(g, FirstVariation(d, y)), k2);
    ExpansionUnique(EnergyAlong(e, f, x), e(Invariants(d)), Dot(g, FirstVariation(d, y)), k2, e(Invariants(f)),
                    Dot(g, FirstVariation(f, x)), Dot(g, SecondVariation(f, x)) + 0.5 * Form(h, FirstVariation(f, x)));
    GradientInner(f, g, x);
    InnerRotate(u, Diag(DEda(s, g)), v, x);
    FirstInner(s, g, y);
  }

  lemma FirstInner(s: V3, g: V3, y: M3)
    ensures Dot(g, FirstVariation(Diag(s), y)) == Inner(Diag(DEda(s, g)), y)
  {
    hide FirstVariation, Diag, DIda, MulVec, Transpose, Inner;
    FirstVariationDiag(s, y);
    Adjoint(DIda(s), g, Diagonal(y));
    InnerDiag(DEda(s, g), y);
  }

  // Two singular values for which the script's difference is the eigenvalue.
  predicate Settled(a: real, b: real) {
    Abs(a - b) > NEAR || a == b
  }

  predicate AllSettled(s: V3) {
    Settled(s.x, s.y) && Settled(s.x, s.z) && Settled(s.y, s.z)
  }

  lemma SingularIs(s: V3, g: V3, h: M3, values: V3)
    requires Positive(s) && AllSettled(s)
    ensures SingularEigenvalues(s, DEda(s, g), D2Eda2(s, g, h), values) == Eigenvalues(s, g, values)
  {
    hide SumForm, DifferenceForm, AntiEigenvalues, SymEigenvalues, DEda, D2Eda2, Bend, Abs;
    SumFormAgrees(s, g);
    DifferenceFormAgrees(s, g, h);
  }

  // The sum over the script's nine pairs, and the one of the invariant script.
  function SingularForm(root2: real, u: M3, s: V3, v: M3, p: V3, m: M3, values: V3, w: M3, x: M3): real
    requires root2 > 0.0 && Positive(s)
  {
    Spectral(SingularEigenvalues(s, p, m, values), RotateAll(u, Modes(root2, w), v), x)
  }

  lemma SingularFormIs(root2: real, u: M3, s: V3, v: M3, g: V3, h: M3, values: V3, w: M3, x: M3)
    requires root2 > 0.0 && Positive(s) && AllSettled(s)
    ensures SingularForm(root2, u, s, v, DEda(s, g), D2Eda2(s, g, h), values, w, x) ==
      RebuiltForm(root2, u, s, v, g, values, w, x)
  {
    hide Spectral, Eigenvalues, SingularEigenvalues, RotateAll, Modes, DEda, D2Eda2, AllSettled;
    SingularIs(s, g, h, values);
  }

  // The same with the gradient and Hessian that come from the invariants.
  lemma InducedTheorem(e: V3 -> real, u: M3, s: V3, v: M3, g: V3, h: M3, values: V3, w: M3, root2: real, x: M3)
    requires Orthogonal(u) && Orthogonal(v) && root2 > 0.0 && root2 * root2 == 2.0
    requires Positive(s) && AllSettled(s) && EigenSystem(D2Eda2(s, g, h), values, w)
    requires TwiceDifferentiable(e, Invariants(Diag(s)), g, h)
    ensures SecondOrderAt0(EnergyAlong(e, Rotate(u, Diag(s), v), x), e(Invariants(Diag(s))),
                           Inner(Rotate(u, Diag(DEda(s, g)), v), x),
                           0.5 * SingularForm(root2, u, s, v, DEda(s, g), D2Eda2(s, g, h), values, w, x))
  {
    hide *;
    InvariantsRotate(u, Diag(s), v);
    HessianTheorem(e, u, s, v, g, h, values, w, root2, x);
    GradientRotated(e, u, s, v, g, h, x);
    SingularFormIs(root2, u, s, v, g, h, values, w, x);
  }

  // For an energy given in the singular values, with gradient p and Hessian m there, the
  // script's gradient and nine eigenpairs are those of the energy of F: along any X it is
  //   f(s) + t <U diag(p) V.T, X> + t^2 / 2 sum_i lmds[i] <U Qs[i] V.T, X>^2 + o(t^2).
  lemma SingularValueTheorem(f: V3 -> real, e: V3 -> real, u: M3, s: V3, v: M3, p: V3, m: M3, g: V3, h: M3,
                             values: V3, w: M3, root2: real, x: M3)
    requires Orthogonal(u) && Orthogonal(v) && root2 > 0.0 && root2 * root2 == 2.0
    requires Positive(s) && AllSettled(s)
    requires InSingularValues(f, e) && TwiceDifferentiable(e, Invariants(Diag(s)), g, h) && Symmetric(h)
    requires TwiceAlong(f, s, p, m) && Symmetric(m) && EigenSystem(m, values, w)
    ensures SecondOrderAt0(EnergyAlong(e, Rotate(u, Diag(s), v), x), f(s), Inner(Rotate(u, Diag(p), v), x),
                           0.5 * SingularForm(root2, u, s, v, p, m, values, w, x))
  {
    hide *;
    Induced(f, e, s, p, m, g, h);
    AtDiag(f, e, s);
    InducedTheorem(e, u, s, v, g, h, values, w, root2, x);
  }
}
