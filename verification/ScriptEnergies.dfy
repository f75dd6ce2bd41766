// Energies of the singular-value scripts at nearly equal singular values: "Yeoh"
// (eigsys/eigsys_3.py:48-50) and the 3x2 script's own (eigsys/eigsys_2.py:34-35). Exactly where
// the special branch of each script's difference entry misses the eigenvalue.
module ScriptEnergies {
  import opened LinearAlgebra
  import opened Invariants3
  import opened SecondOrder
  import opened Eigensystem3
  import opened Hessian3
  import opened EigenvalueForms
  import opened SingularEnergies
  import opened Orders
  import opened SingularPaths
  import opened SingularMotion

  // ---- Yeoh ---------------------------------------------------------------------------------------

  // The sum of u, u^2 and u^3.
  function Powers(u: real): real {
    u + u * u + u * u * u
  }

  // energy_s for "Yeoh", and its form in the invariants.
  function YeohValues(s: V3): real {
    Powers(s.x * s.x + s.y * s.y + s.z * s.z - 3.0)
  }

  function Yeoh(i: V3): real {
    Powers(i.x - 3.0)
  }

  function YeohSlope(u: real): real {
    1.0 + 2.0 * u + 3.0 * (u * u)
  }

  function YeohGradient(i: V3): V3 {
    V3(YeohSlope(i.x - 3.0), 0.0, 0.0)
  }

  function YeohHessian(i: V3): M3 {
    Only(2.0 + 6.0 * (i.x - 3.0))
  }

  // The matrix with k in its first entry and nothing else.
  function Only(k: real): M3 {
    M3(V3(k, 0.0, 0.0), ZERO, ZERO)
  }

  lemma OnlyTimes(k: real, d: V3)
    ensures MulVec(Only(k), d) == V3(k * d.x, 0.0, 0.0)
  {
  }

  lemma OnlyForm(k: real, d: V3)
    ensures Form(Only(k), d) == k * Square(d.x)
  {
    OnlyTimes(k, d);
    hide MulVec, Only;
    FirstOnly(d, k * d.x);
  }

  lemma FirstOnly(d: V3, x: real)
    ensures Dot(d, V3(x, 0.0, 0.0)) == d.x * x && Dot(V3(x, 0.0, 0.0), d) == x * d.x
  {
  }

  function CubeOf(d: V3): real {
    Times(d.x, Times(d.x, d.x))
  }

  lemma CubeOrder()
    ensures Order(CubeOf, 3)
  {
    OrderEntries();
    hide *;
    var x := (d: V3) => d.x;
    var xx := (d: V3) => Times(d.x, d.x);
    OrderProduct(x, 1, x, 1, xx, 2);
    CubeIs3();
    OrderProduct(x, 1, xx, 2, CubeOf, 3);
  }

  lemma CubeIs3()
    ensures forall d :: CubeOf(d) == Times(d.x, Times(d.x, d.x))
  {
    hide Times;
  }

  lemma PowersStep(u: real, x: real, v: real)
    requires v == u + x
    ensures Powers(v) == Powers(u) + (YeohSlope(u) * x + 0.5 * ((2.0 + 6.0 * u) * Square(x)) + x * (x * x))
  {
  }

  lemma YeohStep(i: V3, d: V3)
    ensures Yeoh(Add(i, d)) == Yeoh(i) + (Dot(YeohGradient(i), d) + 0.5 * Form(YeohHessian(i), d) + CubeOf(d))
  {
    hide Powers, Square, YeohSlope, Form, Dot, Only, CubeOf;
    var u := i.x - 3.0;
    var v := Add(i, d).x - 3.0;
    assert v == u + d.x;
    PowersStep(u, d.x, v);
    CubeAt(d);
    FirstOnly(d, YeohSlope(u));
    OnlyForm(2.0 + 6.0 * u, d);
  }

  lemma CubeAt(d: V3)
    ensures CubeOf(d) == d.x * (d.x * d.x)
  {
  }

  lemma YeohTwice(i: V3)
    ensures TwiceDifferentiable(Yeoh, i, YeohGradient(i), YeohHessian(i))
  {
    hide *;
    CubeOrder();
    forall d
      ensures Yeoh(Add(i, d)) == Yeoh(i) + (Dot(YeohGradient(i), d) + 0.5 * Form(YeohHessian(i), d) + CubeOf(d))
    {
      YeohStep(i, d);
    }
    ThirdOrderRest(Yeoh, i, YeohGradient(i), YeohHessian(i), CubeOf);
  }

  lemma Length(s: V3)
    ensures Invariants(Diag(s)).x == s.x * s.x + s.y * s.y + s.z * s.z
  {
    hide Inner, Cofactors, Det, Invariants, Diag;
    InvariantsByMinors(Diag(s));
    DiagSquare(s);
  }

  lemma YeohIsInvariant()
    ensures InSingularValues(YeohValues, Yeoh)
  {
    hide Invariants, Diag, Powers, Positive;
    forall s | Positive(s) ensures YeohValues(s) == Yeoh(Invariants(Diag(s))) {
      Length(s);
    }
  }

  lemma OnlySymmetric(k: real)
    ensures Symmetric(Only(k))
  {
  }

  lemma BendOfLength(a: real, b: real, c: real, g: V3, k: real)
    requires g.y == 0.0 && g.z == 0.0
    ensures Bend(a, b, c, g, Only(k)) == 4.0 * (a * k)
  {
    hide Only, MulVec, Dot, Row, RowSlope;
    var r, e := Row(a, b, c), RowSlope(a, b, c);
    RowStart(a, b, c);
    OnlyTimes(k, e);
    FirstOnly(r, k * e.x);
    NoBend(b, c, g.y, g.z);
    BendKernel(a, k, r.x, e.x);
  }

  lemma RowStart(a: real, b: real, c: real)
    ensures Row(a, b, c).x == 2.0 * a && RowSlope(a, b, c).x == 2.0
  {
  }

  lemma NoBend(b: real, c: real, y: real, z: real)
    requires y == 0.0 && z == 0.0
    ensures 2.0 * b * (y + c * c * z) == 0.0
  {
  }

  lemma BendKernel(a: real, k: real, x: real, e: real)
    requires x == 2.0 * a && e == 2.0
    ensures x * (k * e) == 4.0 * (a * k)
  {
  }

  lemma BendZero(a: real, b: real, c: real, g: V3, k: real)
    requires a > 0.0 && g.y == 0.0 && g.z == 0.0
    ensures Bend(a, b, c, g, Only(k)) == 0.0 <==> k == 0.0
  {
    BendOfLength(a, b, c, g, k);
    ProductZero(a, k, a * k);
    hide Bend;
  }

  // For Yeoh each difference entry of the script is the eigenvalue exactly where the quotient is
  // taken, the two values are equal, or a^2 + b^2 + c^2 is 8 / 3.
  lemma YeohNearValues(s: V3, p: V3, m: M3)
    requires Positive(s) && TwiceAlong(YeohValues, s, p, m) && Symmetric(m)
    ensures var g, k := YeohGradient(Invariants(Diag(s))), s.x * s.x + s.y * s.y + s.z * s.z;
      var f, l := DifferenceForm(s, p, m), SymEigenvalues(s.x, s.y, s.z, g);
      && p == DEda(s, g) && m == D2Eda2(s, g, YeohHessian(Invariants(Diag(s))))
      && (f.x == l.x <==> Abs(s.x - s.y) > NEAR || s.x == s.y || k == 8.0 / 3.0)
      && (f.y == l.y <==> Abs(s.x - s.z) > NEAR || s.x == s.z || k == 8.0 / 3.0)
      && (f.z == l.z <==> Abs(s.y - s.z) > NEAR || s.y == s.z || k == 8.0 / 3.0)
  {
    hide YeohValues, Yeoh, TwiceAlong, Symmetric, DEda, D2Eda2, DifferenceForm, SymEigenvalues, Bend, Abs, Invariants,
      Diag, Only, YeohSlope, TwiceDifferentiable, InSingularValues;
    var i := Invariants(Diag(s));
    var g, h, k := YeohGradient(i), YeohHessian(i), 2.0 + 6.0 * (i.x - 3.0);
    Length(s);
    YeohIsInvariant();
    YeohTwice(i);
    OnlySymmetric(k);
    Induced(YeohValues, Yeoh, s, p, m, g, h);
    DifferenceFormAgrees(s, g, h);
    BendZero(s.x, s.y, s.z, g, k);
    BendZero(s.x, s.z, s.y, g, k);
    BendZero(s.y, s.z, s.x, g, k);
  }

  // Such an input.
  lemma YeohNearInput()
    ensures var s := V3(1.0, 1.005, 1.0);
      var g, h := YeohGradient(Invariants(Diag(s))), YeohHessian(Invariants(Diag(s)));
      var p, m := DEda(s, g), D2Eda2(s, g, h);
      && TwiceAlong(YeohValues, s, p, m) && Symmetric(m)
      && DifferenceForm(s, p, m).x != SymEigenvalues(s.x, s.y, s.z, g).x
  {
    hide YeohValues, Yeoh, Symmetric, DEda, D2Eda2, DifferenceForm, SymEigenvalues, Invariants, Diag, YeohGradient,
      YeohHessian, TwiceDifferentiable, InSingularValues, SecondOrderAt0, Dot, Form, Line;
    var s := V3(1.0, 1.005, 1.0);
    var i := Invariants(Diag(s));
    var g, h := YeohGradient(i), YeohHessian(i);
    YeohIsInvariant();
    YeohTwice(i);
    YeohSymmetric(i);
    forall d ensures SecondOrderAt0(Line(YeohValues, s, d), YeohValues(s), Dot(DEda(s, g), d),
                                    0.5 * Form(D2Eda2(s, g, h), d)) {
      InducedAlong(YeohValues, Yeoh, s, g, h, d);
    }
    HessianSymmetric(s, g, h);
    YeohNearValues(s, DEda(s, g), D2Eda2(s, g, h));
  }

  lemma YeohSymmetric(i: V3)
    ensures Symmetric(YeohHessian(i))
  {
    OnlySymmetric(2.0 + 6.0 * (i.x - 3.0));
    hide Only, Symmetric;
  }
}
