// Energies of the two singular values of a 3x2 deformation gradient, as the singular-value
// script takes them (eigsys/eigsys_2.py:34-56, 92-140): the gradient and the six eigenpairs it
// builds from the energy's gradient and Hessian in (a, b) are those of the energy of F.
module SingularEnergies2 {
  import opened LinearAlgebra
  import opened Invariants3
  import opened SecondOrder
  import opened Eigensystem3
  import opened Hessian3
  import opened Hessian2
  import opened EigenvalueForms
  import opened EigenvalueForms2
  import opened SingularEnergies

  function Line2(f: V2 -> real, s: V2, d: V2): real -> real {
    t => f(Shift(s, t, d))
  }

  function Shift(s: V2, t: real, d: V2): V2 {
    V2(s.x + t * d.x, s.y + t * d.y)
  }

  function Form2(m: M2, d: V2): real {
    Dot2(d, MulVec2(m, d))
  }

  // f has gradient p and Hessian m at s, along every line.
  ghost predicate TwiceAlong2(f: V2 -> real, s: V2, p: V2, m: M2) {
    forall d :: SecondOrderAt0(Line2(f, s, d), f(s), Dot2(p, d), 0.5 * Form2(m, d))
  }

  predicate Symmetric2(m: M2) {
    m.c0.y == m.c1.x
  }

  predicate Positive2(s: V2) {
    s.x > 0.0 && s.y > 0.0
  }

  // f is the energy of F at F = diag(a, b), for positive singular values.
  ghost predicate InSingularValues2(f: V2 -> real, e: V2 -> real) {
    forall s :: Positive2(s) ==> f(s) == e(Invariants2(Diag2(s.x, s.y)))
  }

  // ---- The energy's derivatives in the singular values ----------------------------------------

  function Flat(s: V2): V3 {
    V3(s.x, s.y, 0.0)
  }

  lemma Diag2Along(s: V2, d: V2, t: real)
    ensures Along2(Diag2(s.x, s.y), Diag2(d.x, d.y), t) == Diag2(Shift(s, t, d).x, Shift(s, t, d).y)
  {
    var l, v := Along2(Diag2(s.x, s.y), Diag2(d.x, d.y), t), Shift(s, t, d);
    assert l.c0.x == v.x && l.c1.y == v.y;
    assert l.c0.y == 0.0 && l.c0.z == 0.0 && l.c1.x == 0.0 && l.c1.z == 0.0;
  }

  lemma PositiveNear2(s: V2, d: V2) returns (r: real)
    requires Positive2(s)
    ensures r > 0.0 && forall t :: Abs(t) <= r ==> Positive2(Shift(s, t, d))
  {
    var a := RoomFor(s.x, d.x);
    var b := RoomFor(s.y, d.y);
    r := if a <= b then a else b;
    forall t | Abs(t) <= r ensures Positive2(Shift(s, t, d)) {
      assert s.x + t * d.x > 0.0 && s.y + t * d.y > 0.0;
    }
  }

  lemma LineIsEnergy2(f: V2 -> real, e: V2 -> real, s: V2, d: V2) returns (r: real)
    requires InSingularValues2(f, e) && Positive2(s)
    ensures r > 0.0
    ensures forall t :: Abs(t) <= r ==> Line2(f, s, d)(t) == EnergyAlong2(e, Diag2(s.x, s.y), Diag2(d.x, d.y))(t)
  {
    hide Invariants2, Along2, Diag2, Positive2, Abs, Shift;
    r := PositiveNear2(s, d);
    forall t | Abs(t) <= r ensures Line2(f, s, d)(t) == EnergyAlong2(e, Diag2(s.x, s.y), Diag2(d.x, d.y))(t) {
      assert Positive2(Shift(s, t, d));
      Diag2Along(s, d, t);
    }
  }

  lemma FlatGradient(s: V2, g: V2)
    ensures DEda(Flat(s), Pad(g)) == Flat(DEda2(s.x, s.y, g))
  {
    hide MulVec, MulVec2, DIda, DIda2, Flat, Pad;
    var k := DIda(Flat(s));
    FlatColumns(s, k);
    FlatMul(k, DIda2(s.x, s.y), g);
  }

  lemma FlatMul(k: M3, d: M2, g: V2)
    requires k.c0 == V3(d.c0.x, d.c0.y, 0.0) && k.c1 == V3(d.c1.x, d.c1.y, 0.0)
    ensures MulVec(k, Pad(g)) == Flat(MulVec2(d, g))
  {
    MulEntries(k, g.x, g.y, 0.0);
    hide MulVec;
    NoThird(k.c2.x, 0.0);
    NoThird(k.c2.y, 0.0);
    NoThird(k.c2.z, 0.0);
    NoThird(g.x, 0.0);
    NoThird(g.y, 0.0);
  }

  lemma NoThird(x: real, z: real)
    requires z == 0.0
    ensures x * z == 0.0 && z * x == 0.0
  {
  }

  lemma FlatColumns(s: V2, k: M3)
    requires k == DIda(Flat(s))
    ensures var d := DIda2(s.x, s.y);
      k.c0 == V3(d.c0.x, d.c0.y, 0.0) && k.c1 == V3(d.c1.x, d.c1.y, 0.0)
  {
    FlatAreaGradient(s.x, s.y);
    hide AreaGradient, VolumeGradient;
  }

  lemma FlatDots(p: V2, d: V2)
    ensures Dot(Flat(p), Flat(d)) == Dot2(p, d)
  {
  }

  lemma Flats(s: V2)
    ensures Widen(Diag2(s.x, s.y)) == Diag(Flat(s)) && Flat(s) == V3(s.x, s.y, 0.0)
  {
  }

  // The energy of F taken at diagonal matrices has this gradient and Hessian.
  lemma InducedAlong2(f: V2 -> real, e: V2 -> real, s: V2, g: V2, h: M2, d: V2)
    requires InSingularValues2(f, e) && Positive2(s)
    requires TwiceDifferentiable2(e, Invariants2(Diag2(s.x, s.y)), g, h)
    ensures SecondOrderAt0(Line2(f, s, d), f(s), Dot2(DEda2(s.x, s.y, g), d),
                           0.5 * Form2(Hessian2.D2Eda2(s.x, s.y, g, h), d))
  {
    hide *;
    var y, x, s3, d3 := Diag2(s.x, s.y), Diag2(d.x, d.y), Flat(s), Flat(d);
    AtDiag2(f, e, s);
    Flats(s);
    Flats(d);
    LiftDifferentiable(e, Invariants2(y), g, h);
    LiftAt(e, y);
    EnergySecondOrder(Lift(e), Diag(s3), Diag(d3), Pad(g), PadM(h));
    forall t ensures EnergyAlong2(e, y, x)(t) == EnergyAlong(Lift(e), Diag(s3), Diag(d3))(t) {
      EnergyWidened(e, y, x, t);
    }
    FirstAlong(s3, Pad(g), d3);
    FlatGradient(s, g);
    FlatDots(DEda2(s.x, s.y, g), d);
    SecondAlong(s, g, h, d);
    var k1, k2 := Dot2(DEda2(s.x, s.y, g), d), 0.5 * Form2(Hessian2.D2Eda2(s.x, s.y, g, h), d);
    SameExpansion(EnergyAlong2(e, y, x), EnergyAlong(Lift(e), Diag(s3), Diag(d3)), f(s), k1, k2);
    var r := LineIsEnergy2(f, e, s, d);
    NearExpansion(Line2(f, s, d), EnergyAlong2(e, y, x), r, f(s), k1, k2);
  }

  lemma SecondAlong(s: V2, g: V2, h: M2, d: V2)
    ensures var y, x := Diag(Flat(s)), Diag(Flat(d));
      Dot(Pad(g), SecondVariation(y, x)) + 0.5 * Form(PadM(h), FirstVariation(y, x)) ==
      0.5 * Form2(Hessian2.D2Eda2(s.x, s.y, g, h), d)
  {
    hide *;
    var s3, d3 := Flat(s), Flat(d);
    Flats(s);
    Flats(d);
    ModelDiag(s3, Diag(d3), Pad(g), PadM(h));
    DiagonalDiag(d3);
    NoPairs(AntiEigenvalues(s3.x, s3.y, s3.z, Pad(g)), SymEigenvalues(s3.x, s3.y, s3.z, Pad(g)), d3);
    NarrowIsWide(s.x, s.y, g, h, d.x, d.y);
    Form2Is(Hessian2.D2Eda2(s.x, s.y, g, h), d);
  }

  lemma Form2Is(m: M2, d: V2)
    ensures Form2(m, d) == Dot2(V2(d.x, d.y), MulVec2(m, V2(d.x, d.y)))
  {
  }

  lemma AtDiag2(f: V2 -> real, e: V2 -> real, s: V2)
    requires InSingularValues2(f, e) && Positive2(s)
    ensures f(s) == e(Invariants2(Diag2(s.x, s.y)))
  {
  }

  // ---- A gradient and a symmetric Hessian are determined by the lines -----------------------

  lemma Unit2(p: V2, m: M2)
    ensures Dot2(p, V2(1.0, 0.0)) == p.x && Dot2(p, V2(0.0, 1.0)) == p.y
    ensures Form2(m, V2(1.0, 0.0)) == m.c0.x && Form2(m, V2(0.0, 1.0)) == m.c1.y
    ensures Form2(m, V2(1.0, 1.0)) == m.c0.x + m.c1.x + (m.c0.y + m.c1.y)
  {
  }

  lemma LinesDetermine2(p: V2, q: V2, m: M2, n: M2)
    requires Symmetric2(m) && Symmetric2(n) && forall d :: Dot2(p, d) == Dot2(q, d) && Form2(m, d) == Form2(n, d)
    ensures p == q && m == n
  {
    hide Dot2, Form2;
    Unit2(p, m);
    Unit2(q, n);
    assert Form2(m, V2(1.0, 1.0)) == Form2(n, V2(1.0, 1.0));
  }

  lemma ConjugateEntry(h: M2, x: real, u: real, y: real, w: real)
    requires Symmetric2(h)
    ensures Dot2(V2(x, u), MulVec2(h, V2(y, w))) == Dot2(V2(y, w), MulVec2(h, V2(x, u)))
  {
  }

  lemma HessianSymmetric2(a: real, b: real, g: V2, h: M2)
    requires Symmetric2(h)
    ensures Symmetric2(Hessian2.D2Eda2(a, b, g, h))
  {
    var d := DIda2(a, b);
    hide DIda2;
    var m, n := MulVec2(h, V2(d.c0.x, d.c1.x)), MulVec2(h, V2(d.c0.y, d.c1.y));
    ConjugateEntry(h, d.c0.x, d.c1.x, d.c0.y, d.c1.y);
    SecondEntry(d, m);
    FirstEntry(d, n);
    hide MulVec2, Dot2;
  }

  lemma FirstEntry(d: M2, m: V2)
    ensures MulVec2(d, m).x == Dot2(V2(d.c0.x, d.c1.x), m)
  {
  }

  lemma SecondEntry(d: M2, m: V2)
    ensures MulVec2(d, m).y == Dot2(V2(d.c0.y, d.c1.y), m)
  {
  }

  // So the gradient and Hessian in (a, b) are those that come from the invariants.
  lemma Induced2(f: V2 -> real, e: V2 -> real, s: V2, p: V2, m: M2, g: V2, h: M2)
    requires Positive2(s) && InSingularValues2(f, e)
    requires TwiceDifferentiable2(e, Invariants2(Diag2(s.x, s.y)), g, h) && Symmetric2(h)
    requires TwiceAlong2(f, s, p, m) && Symmetric2(m)
    ensures p == DEda2(s.x, s.y, g) && m == Hessian2.D2Eda2(s.x, s.y, g, h)
  {
    hide Dot2, Form2, SecondOrderAt0, InSingularValues2, TwiceDifferentiable2, Symmetric2, DEda2, Hessian2.D2Eda2,
      Line2, Invariants2, Diag2;
    var q, n := DEda2(s.x, s.y, g), Hessian2.D2Eda2(s.x, s.y, g, h);
    forall d
      ensures Dot2(p, d) == Dot2(q, d) && Form2(m, d) == Form2(n, d)
    {
      InducedAlong2(f, e, s, g, h, d);
      assert SecondOrderAt0(Line2(f, s, d), f(s), Dot2(p, d), 0.5 * Form2(m, d));
      ExpansionUnique(Line2(f, s, d), f(s), Dot2(p, d), 0.5 * Form2(m, d), f(s), Dot2(q, d), 0.5 * Form2(n, d));
    }
    HessianSymmetric2(s.x, s.y, g, h);
    LinesDetermine2(p, q, m, n);
  }

  // ---- The theorem ----------------------------------------------------------------------------

  // lmds of the singular-value script, for g_s = p and H_s = m with eigenvalues S_s.
  function SingularEigenvalues2(s: V2, p: V2, m: M2, values: V2): (lmds: seq<real>)
    requires Positive2(s)
    ensures |lmds| == 6
  {
    QuotientForm(s.x, s.y, p, m) + [values.x, values.y]
  }

  // The sum over the script's six pairs.
  function SingularForm2(root2: real, u: M3, s: V2, v: M2, p: V2, m: M2, values: V2, w: M2, x: M32): real
    requires root2 > 0.0 && Positive2(s)
  {
    var l, q := SingularEigenvalues2(s, p, m, values), Modes2(root2, w);
    Mode2(l[0], Rotate2(u, q[0], v), x) + Mode2(l[1], Rotate2(u, q[1], v), x) + Mode2(l[2], Rotate2(u, q[2], v), x)
    + Mode2(l[3], Rotate2(u, q[3], v), x) + Mode2(l[4], Rotate2(u, q[4], v), x) + Mode2(l[5], Rotate2(u, q[5], v), x)
  }

  lemma SingularIs2(s: V2, g: V2, h: M2, values: V2)
    requires Positive2(s) && Settled(s.x, s.y)
    ensures SingularEigenvalues2(s, DEda2(s.x, s.y, g), Hessian2.D2Eda2(s.x, s.y, g, h), values)
      == Eigenvalues2(s.x, s.y, g, values)
  {
    QuotientFormAgrees(s.x, s.y, g, h, values);
    EigenvaluesEnd(s.x, s.y, g, values);
    hide QuotientForm, Eigenvalues2, DEda2, Hessian2.D2Eda2, Abs, Bend2;
  }

  lemma EigenvaluesEnd(a: real, b: real, g: V2, values: V2)
    ensures var l := Eigenvalues2(a, b, g, values); l[4] == values.x && l[5] == values.y
  {
  }

  lemma SingularFormIs2(root2: real, u: M3, s: V2, v: M2, g: V2, h: M2, values: V2, w: M2, x: M32)
    requires root2 > 0.0 && Positive2(s) && Settled(s.x, s.y)
    ensures SingularForm2(root2, u, s, v, DEda2(s.x, s.y, g), Hessian2.D2Eda2(s.x, s.y, g, h), values, w, x) ==
      RebuiltForm2(root2, u, s.x, s.y, v, g, values, w, x)
  {
    hide Mode2, Eigenvalues2, SingularEigenvalues2, Rotate2, Modes2, DEda2, Hessian2.D2Eda2, Settled;
    SingularIs2(s, g, h, values);
  }

  lemma InnerFlat(p: V2, y: M32)
    ensures Inner2(Diag2(p.x, p.y), y) == Inner(Diag(Flat(p)), Widen(y))
  {
  }

  lemma InnerRotate2(u: M3, p: V2, v: M2, x: M32, y: M32)
    requires Widen(y) == Unrotate(u, Widen(x), WidenFrame(v))
    ensures Inner2(Rotate2(u, Diag2(p.x, p.y), v), x) == Inner2(Diag2(p.x, p.y), y)
  {
    hide Inner, Inner2, Rotate, Rotate2, Unrotate, Widen, WidenFrame, Diag2;
    var q := Diag2(p.x, p.y);
    WidenRotate(u, q, v);
    WidenInner(Rotate2(u, q, v), x);
    WidenInner(q, y);
    InnerRotate(u, Widen(q), WidenFrame(v), Widen(x));
  }

  // U diag(g_s) V.T along x is the energy's slope.
  lemma GradientRotated2(e: V2 -> real, u: M3, s: V2, v: M2, g: V2, h: M2, x: M32)
    requires Orthogonal(u) && Orthogonal2(v)
    requires TwiceDifferentiable2(e, Invariants2(Rotate2(u, Diag2(s.x, s.y), v)), g, h)
    ensures Inner2(EnergyGradient2(Rotate2(u, Diag2(s.x, s.y), v), g), x)
      == Inner2(Rotate2(u, Diag2(DEda2(s.x, s.y, g).x, DEda2(s.x, s.y, g).y), v), x)
  {
    hide *;
    var f, d, p := Rotate2(u, Diag2(s.x, s.y), v), Diag2(s.x, s.y), DEda2(s.x, s.y, g);
    var y := NarrowDirection(u, x, v);
    var e3, g3, h3, s3 := Lift(e), Pad(g), PadM(h), Flat(s);
    LiftDifferentiable(e, Invariants2(f), g, h);
    LiftAt(e, f);
    Flats(s);
    WidenOrthogonal(v);
    WidenRotate(u, d, v);
    InvariantsRotate(u, Widen(d), WidenFrame(v));
    EnergySecondOrder(e3, Widen(d), Widen(y), g3, h3);
    EnergySecondOrder(e3, Widen(f), Widen(x), g3, h3);
    forall t ensures EnergyAlong(e3, Widen(f), Widen(x))(t) == EnergyAlong(e3, Widen(d), Widen(y))(t) {
      EnergyRotated(e3, u, Widen(d), WidenFrame(v), Widen(x), t);
    }
    var k1, k2 := Dot(g3, FirstVariation(Widen(d), Widen(y))),
      Dot(g3, SecondVariation(Widen(d), Widen(y))) + 0.5 * Form(h3, FirstVariation(Widen(d), Widen(y)));
    var l1, l2 := Dot(g3, FirstVariation(Widen(f), Widen(x))),
      Dot(g3, SecondVariation(Widen(f), Widen(x))) + 0.5 * Form(h3, FirstVariation(Widen(f), Widen(x)));
    SameExpansion(EnergyAlong(e3, Widen(f), Widen(x)), EnergyAlong(e3, Widen(d), Widen(y)), e3(Invariants(Widen(d))),
                  k1, k2);
    ExpansionUnique(EnergyAlong(e3, Widen(f), Widen(x)), e3(Invariants(Widen(d))), k1, k2, e3(Invariants(Widen(f))), l1,
                    l2);
    GradientInner2(f, g, x);
    FirstInner(s3, g3, Widen(y));
    FlatGradient(s, g);
    InnerFlat(p, y);
    InnerRotate2(u, p, v, x, y);
  }

  // For an energy f of the two singular values that has a form e in the two invariants, with
  // gradient p and Hessian m at s, the script's gradient and six eigenpairs are those of the
  // energy of F: along any X it is
  //   f(s) + t <U diag(p) V.T, X> + t^2 / 2 sum_i lmds[i] <U Q[i] V.T, X>^2 + o(t^2).
  lemma SingularValueTheorem2(f: V2 -> real, e: V2 -> real, u: M3, s: V2, v: M2, p: V2, m: M2, g: V2, h: M2,
                              values: V2, w: M2, root2: real, x: M32)
    requires Orthogonal(u) && Orthogonal2(v) && root2 > 0.0 && root2 * root2 == 2.0
    requires Positive2(s) && Settled(s.x, s.y)
    requires InSingularValues2(f, e) && TwiceDifferentiable2(e, Invariants2(Diag2(s.x, s.y)), g, h) && Symmetric2(h)
    requires TwiceAlong2(f, s, p, m) && Symmetric2(m) && EigenSystem2(m, values, w)
    ensures SecondOrderAt0(EnergyAlong2(e, Rotate2(u, Diag2(s.x, s.y), v), x), f(s),
                           Inner2(Rotate2(u, Diag2(p.x, p.y), v), x),
                           0.5 * SingularForm2(root2, u, s, v, p, m, values, w, x))
  {
    hide *;
    Induced2(f, e, s, p, m, g, h);
    AtDiag2(f, e, s);
    InvariantsRotate2(u, Diag2(s.x, s.y), v);
    HessianTheorem2(e, u, s.x, s.y, v, g, h, values, w, root2, x);
    GradientRotated2(e, u, s, v, g, h, x);
    SingularFormIs2(root2, u, s, v, g, h, values, w, x);
  }

  lemma InvariantsRotate2(u: M3, d: M32, v: M2)
    requires Orthogonal(u) && Orthogonal2(v)
    ensures Invariants2(Rotate2(u, d, v)) == Invariants2(d)
  {
    hide Invariants, Invariants2, Rotate, Rotate2, Widen, WidenFrame, Orthogonal, Orthogonal2;
    WidenOrthogonal(v);
    WidenRotate(u, d, v);
    InvariantsRotate(u, Widen(d), WidenFrame(v));
    WidenInvariants(d);
    WidenInvariants(Rotate2(u, d, v));
  }
}
