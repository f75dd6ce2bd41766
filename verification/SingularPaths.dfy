// Energies given in the singular values alone (eigsys/eigsys_3.py:24-75, 120-177): where the
// singular values are distinct they move no faster than F, and so the energy of F has the
// gradient and Hessian the script builds from those of the energy in (a, b, c).
module SingularPaths {
  import opened LinearAlgebra
  import opened Invariants3
  import opened SecondOrder
  import opened Eigensystem3
  import opened Hessian3
  import opened EigenvalueForms
  import opened SingularEnergies
  import opened Orders

  // ---- A quadratic energy of the invariants, and its form in the singular values -----------

  // g . (i - i0) + (i - i0) . h (i - i0) / 2
  function QuadraticEnergy(i0: V3, g: V3, h: M3): V3 -> real {
    i => Dot(g, Sub(i, i0)) + 0.5 * Form(h, Sub(i, i0))
  }

  lemma SubAdd(i: V3, d: V3)
    ensures Sub(Add(i, d), i) == d && Sub(i, i) == ZERO
  {
  }

  lemma FormZero(g: V3, h: M3)
    ensures Dot(g, ZERO) == 0.0 && Form(h, ZERO) == 0.0
  {
    var v := MulVec(h, ZERO);
    hide MulVec;
  }

  lemma QuadraticIs(i0: V3, g: V3, h: M3, d: V3)
    ensures QuadraticEnergy(i0, g, h)(Add(i0, d)) == Dot(g, d) + 0.5 * Form(h, d)
    ensures QuadraticEnergy(i0, g, h)(i0) == 0.0
  {
    hide Dot, Form, Sub, Add;
    SubAdd(i0, d);
    FormZero(g, h);
  }

  lemma QuadraticTwice(i0: V3, g: V3, h: M3)
    ensures TwiceDifferentiable(QuadraticEnergy(i0, g, h), i0, g, h)
  {
    hide Dot, MulVec, Add, QuadraticEnergy;
    var e := QuadraticEnergy(i0, g, h);
    forall eps | eps > 0.0 ensures TaylorNear(e, i0, g, h, eps) {
      forall d: V3 | Dot(d, d) <= 1.0
        ensures Abs(e(Add(i0, d)) - (e(i0) + Dot(g, d) + 0.5 * Dot(d, MulVec(h, d)))) <= eps * Dot(d, d)
      {
        QuadraticIs(i0, g, h, d);
        DotSelf(d);
        ProductSign(eps, Dot(d, d));
      }
      assert TaylorWithin(e, i0, g, h, eps, 1.0);
    }
  }

  // The energy in the singular values.
  function InValues(e: V3 -> real): V3 -> real {
    s => e(Invariants(Diag(s)))
  }

  // ---- Its remainder is of third order -----------------------------------------------------

  function Minors(d: V3): V3 {
    V3(d.y * d.z, d.z * d.x, d.x * d.y)
  }

  // The diagonal of the mixed cofactors of two diagonal matrices.
  function MixedMatrix(s: V3): M3 {
    M3(V3(0.0, s.z, s.y), V3(s.z, 0.0, s.x), V3(s.y, s.x, 0.0))
  }

  lemma MinorsOrder()
    ensures OrderV(Minors, 2)
  {
    hide Order;
    OrderEntries();
    var x, y, z := (d: V3) => d.x, (d: V3) => d.y, (d: V3) => d.z;
    var p, q, r := (d: V3) => d.y * d.z, (d: V3) => d.z * d.x, (d: V3) => d.x * d.y;
    OrderProduct(y, 1, z, 1, p, 2);
    OrderProduct(z, 1, x, 1, q, 2);
    OrderProduct(x, 1, y, 1, r, 2);
    OrderVEntries(Minors, 2, p, q, r);
  }

  function Linear(s: V3): V3 -> V3 {
    d => FirstVariation(Diag(s), Diag(d))
  }

  function Quadratic(s: V3): V3 -> V3 {
    d => SecondVariation(Diag(s), Diag(d))
  }

  function Higher(s: V3): V3 -> V3 {
    d => HigherVariation(Diag(s), Diag(d), 1.0)
  }

  lemma LinearOrder(s: V3)
    ensures OrderV(Linear(s), 1)
  {
    hide OrderV, FirstVariation, DIda, MulVec, Transpose, Diag, Diagonal;
    OrderSelf();
    forall d ensures Linear(s)(d) == MulVec(Transpose(DIda(s)), d) {
      FirstVariationDiag(s, Diag(d));
      DiagonalDiag(d);
    }
    OrderMul(Transpose(DIda(s)), d => d, 1, Linear(s));
  }

  lemma SecondIs(s: V3, d: V3)
    ensures SecondVariation(Diag(s), Diag(d)) ==
      V3(0.5 * Form(D2I1(s), d), 0.5 * Form(D2I2(s), d), 0.5 * Form(D2I3(s), d))
  {
    hide *;
    LengthSecondDiag(s, Diag(d));
    AreaSecondDiag(s, Diag(d));
    VolumeSecondDiag(s, Diag(d));
    DiagonalDiag(d);
    NoPairs(V3(2.0, 2.0, 2.0), V3(2.0, 2.0, 2.0), d);
    NoPairs(AreaAnti(s.x, s.y, s.z), AreaSym(s.x, s.y, s.z), d);
    NoPairs(VolumeAnti(s.x, s.y, s.z), VolumeSym(s.x, s.y, s.z), d);
  }

  lemma HalfForm(m: M3, h: V3 -> real)
    requires forall d :: h(d) == 0.5 * Form(m, d)
    ensures Order(h, 2)
  {
    hide Order, Form;
    var f := (d: V3) => Form(m, d);
    OrderForm(m, f);
    OrderTimes(0.5, f, h, 2);
  }

  lemma QuadraticOrder(s: V3)
    ensures OrderV(Quadratic(s), 2)
  {
    hide Order, SecondVariation, Form, D2I1, D2I2, D2I3, Diag;
    var x, y := (d: V3) => 0.5 * Form(D2I1(s), d), (d: V3) => 0.5 * Form(D2I2(s), d);
    var z := (d: V3) => 0.5 * Form(D2I3(s), d);
    HalfForm(D2I1(s), x);
    HalfForm(D2I2(s), y);
    HalfForm(D2I3(s), z);
    forall d ensures Quadratic(s)(d) == V3(x(d), y(d), z(d)) {
      SecondIs(s, d);
    }
    OrderVEntries(Quadratic(s), 2, x, y, z);
  }

  function Mixed(s: V3): V3 -> real {
    d => Dot(MulVec(MixedMatrix(s), d), Minors(d))
  }

  function MinorsSquare(d: V3): real {
    Dot(Minors(d), Minors(d))
  }

  // det along s + d: its first and second variations and det d.
  function DetFirst(s: V3): V3 -> real {
    d => Dot(Minors(s), d)
  }

  function DetSecond(s: V3): V3 -> real {
    d => Dot(Minors(d), s)
  }

  function DetThird(d: V3): real {
    Times(d.x, Times(d.y, d.z))
  }

  function DetHigher(s: V3): V3 -> real {
    d => SquareRemainder(Det(Diag(s)), DetFirst(s)(d), DetSecond(s)(d), DetThird(d), 1.0)
  }

  lemma DiagInner(a: V3, m: M3)
    ensures Inner(Diag(a), m) == Dot(a, Diagonal(m))
  {
    InnerDiag(a, m);
    hide Inner;
  }

  lemma CofactorsAre(d: V3)
    ensures Cofactors(Diag(d)) == Diag(Minors(d))
  {
    hide Cofactors;
    CofactorsDiag(d);
  }

  lemma MixedDiagonal(s: V3, d: V3)
    ensures Diagonal(MixedCofactors(Diag(s), Diag(d))) == MulVec(MixedMatrix(s), d)
  {
    hide MixedCofactors, MulVec;
    MixedDiag(s, Diag(d));
    MulEntries(MixedMatrix(s), d.x, d.y, d.z);
  }

  lemma MixedInner(s: V3, d: V3)
    ensures Inner(MixedCofactors(Diag(s), Diag(d)), Diag(Minors(d))) == Mixed(s)(d)
  {
    hide Inner, MixedCofactors, Dot, MulVec, Minors, Diag, Diagonal, MixedMatrix;
    var n, m := Minors(d), MixedCofactors(Diag(s), Diag(d));
    InnerSymmetric(m, Diag(n));
    DiagInner(n, m);
    MixedDiagonal(s, d);
    DotSymmetric(n, MulVec(MixedMatrix(s), d));
  }

  lemma DiagPair(a: V3, b: V3)
    ensures Inner(Diag(a), Diag(b)) == Dot(a, b)
  {
    hide Inner, Dot, Diag, Diagonal;
    DiagInner(a, Diag(b));
    DiagonalDiag(b);
  }

  lemma DetThirdIs(d: V3)
    ensures DetThird(d) == Det(Diag(d))
  {
    DetDiag(d);
    hide Det;
  }

  lemma HigherY(s: V3, d: V3)
    ensures Higher(s)(d).x == 0.0 && Higher(s)(d).y == 2.0 * Mixed(s)(d) + MinorsSquare(d)
  {
    hide Inner, MixedCofactors, Cofactors, Det, SquareRemainder, Mixed, Dot, Diag, Minors;
    CofactorsAre(d);
    MixedInner(s, d);
    DiagPair(Minors(d), Minors(d));
  }

  lemma HigherZ(s: V3, d: V3)
    ensures Higher(s)(d).z == DetHigher(s)(d)
  {
    hide Inner, MixedCofactors, Cofactors, Det, SquareRemainder, Dot, Diag, Minors, DetThird;
    CofactorsAre(d);
    CofactorsAre(s);
    DiagPair(Minors(s), d);
    DiagPair(Minors(d), s);
    DetThirdIs(d);
    assert DetHigher(s)(d) == SquareRemainder(Det(Diag(s)), DetFirst(s)(d), DetSecond(s)(d), DetThird(d), 1.0);
  }

  lemma MixedOrder(s: V3)
    ensures Order(Mixed(s), 3)
  {
    hide *;
    OrderSelf();
    MinorsOrder();
    var l := (d: V3) => MulVec(MixedMatrix(s), d);
    OrderMul(MixedMatrix(s), d => d, 1, l);
    MixedIs(s, l);
    OrderDot(l, 1, Minors, 2, Mixed(s), 3);
  }

  lemma MixedIs(s: V3, l: V3 -> V3)
    requires forall d :: l(d) == MulVec(MixedMatrix(s), d)
    ensures forall d :: Mixed(s)(d) == Dot(l(d), Minors(d))
  {
    hide Dot, MulVec, Minors, MixedMatrix;
  }

  lemma MinorsSquareOrder()
    ensures Order(MinorsSquare, 3)
  {
    hide Order, Dot, Minors;
    MinorsOrder();
    OrderDot(Minors, 2, Minors, 2, MinorsSquare, 4);
    OrderLess(MinorsSquare, 4, 3);
  }

  lemma DetOrders(s: V3)
    ensures Order(DetFirst(s), 1) && Order(DetSecond(s), 2) && Order(DetThird, 3)
  {
    hide Order, Dot, Minors, Times;
    OrderSelf();
    OrderEntries();
    MinorsOrder();
    OrderConstV(s);
    OrderConstV(Minors(s));
    OrderDot(d => Minors(s), 0, d => d, 1, DetFirst(s), 1);
    OrderDot(Minors, 2, d => s, 0, DetSecond(s), 2);
    var p := (d: V3) => Times(d.y, d.z);
    OrderProduct((d: V3) => d.y, 1, (d: V3) => d.z, 1, p, 2);
    OrderProduct((d: V3) => d.x, 1, p, 2, DetThird, 3);
  }

  lemma RemainderSplit(d: real, k0: real, k1: real, k2: real, k3: real)
    requires k0 == 2.0 * d
    ensures SquareRemainder(d, k1, k2, k3, 1.0) == k0 * k3 + 2.0 * Times(k1, k2) + Times(k2, k2)
      + (2.0 * Times(k1, k3) + 2.0 * Times(k2, k3) + Times(k3, k3))
  {
  }

  lemma TwiceOrder(f: V3 -> real, k: nat, g: V3 -> real, l: nat, h: V3 -> real)
    requires Order(f, k) && Order(g, l) && k + l >= 3 && forall d :: h(d) == 2.0 * Times(f(d), g(d))
    ensures Order(h, 3)
  {
    hide Order, Times;
    var p := (d: V3) => Times(f(d), g(d));
    OrderProduct(f, k, g, l, p, k + l);
    OrderLess(p, k + l, 3);
    OrderTimes(2.0, p, h, 3);
  }

  lemma SquareOrder(f: V3 -> real, k: nat, h: V3 -> real)
    requires Order(f, k) && 2 * k >= 3 && forall d :: h(d) == Times(f(d), f(d))
    ensures Order(h, 3)
  {
    hide Order, Times;
    OrderProduct(f, k, f, k, h, 2 * k);
    OrderLess(h, 2 * k, 3);
  }

  lemma DetHigherIs(s: V3, d: V3)
    ensures DetHigher(s)(d) == SquareRemainder(Det(Diag(s)), DetFirst(s)(d), DetSecond(s)(d), DetThird(d), 1.0)
  {
    hide SquareRemainder, Det, DetFirst, DetSecond, DetThird, Diag;
  }

  lemma SumOfThree(a: V3 -> real, b: V3 -> real, c: V3 -> real, h: V3 -> real)
    requires Order(a, 3) && Order(b, 3) && Order(c, 3) && forall d :: h(d) == a(d) + b(d) + c(d)
    ensures Order(h, 3)
  {
    hide *;
    var ab := (d: V3) => a(d) + b(d);
    OrderSum(a, b, ab, 3);
    OrderSum(ab, c, h, 3);
  }

  lemma DetHigherOrder(s: V3)
    ensures Order(DetHigher(s), 3)
  {
    hide *;
    DetOrders(s);
    var k0, k1, k2 := 2.0 * Det(Diag(s)), DetFirst(s), DetSecond(s);
    var a, b := (d: V3) => k0 * DetThird(d), (d: V3) => 2.0 * Times(k1(d), k2(d));
    var c, e := (d: V3) => Times(k2(d), k2(d)), (d: V3) => 2.0 * Times(k1(d), DetThird(d));
    var f, g := (d: V3) => 2.0 * Times(k2(d), DetThird(d)), (d: V3) => Times(DetThird(d), DetThird(d));
    OrderTimes(k0, DetThird, a, 3);
    TwiceOrder(k1, 1, k2, 2, b);
    SquareOrder(k2, 2, c);
    TwiceOrder(k1, 1, DetThird, 3, e);
    TwiceOrder(k2, 2, DetThird, 3, f);
    SquareOrder(DetThird, 3, g);
    var abc, efg := (d: V3) => a(d) + b(d) + c(d), (d: V3) => e(d) + f(d) + g(d);
    SumOfThree(a, b, c, abc);
    SumOfThree(e, f, g, efg);
    forall d ensures DetHigher(s)(d) == abc(d) + efg(d) {
      DetHigherIs(s, d);
      RemainderSplit(Det(Diag(s)), k0, k1(d), k2(d), DetThird(d));
    }
    OrderSum(abc, efg, DetHigher(s), 3);
  }

  lemma HigherOrder(s: V3)
    ensures OrderV(Higher(s), 3)
  {
    hide Order, Mixed, MinorsSquare, DetHigher;
    MixedOrder(s);
    MinorsSquareOrder();
    DetHigherOrder(s);
    var twice := (d: V3) => 2.0 * Mixed(s)(d);
    OrderTimes(2.0, Mixed(s), twice, 3);
    var x, y := (d: V3) => 0.0 * DetHigher(s)(d), (d: V3) => twice(d) + MinorsSquare(d);
    OrderTimes(0.0, DetHigher(s), x, 3);
    OrderSum(twice, MinorsSquare, y, 3);
    forall d ensures Higher(s)(d) == V3(x(d), y(d), DetHigher(s)(d)) {
      HigherY(s, d);
      HigherZ(s, d);
    }
    OrderVEntries(Higher(s), 3, x, y, DetHigher(s));
  }

  // ---- So the energy in the singular values has the gradient and Hessian of the script -----

  function Later(s: V3): V3 -> V3 {
    d => Add(Quadratic(s)(d), Higher(s)(d))
  }

  lemma LaterOrder(s: V3)
    ensures OrderV(Later(s), 2)
  {
    hide OrderV, Quadratic, Higher, Add;
    QuadraticOrder(s);
    HigherOrder(s);
    OrderLessV(Higher(s), 3, 2);
    OrderAddV(Quadratic(s), Higher(s), Later(s), 2);
  }

  lemma OneStep(i: V3, p: V3, q: V3, r: V3)
    ensures Expansion(i, p, q, r, 1.0) == Add(i, Add(p, Add(q, r)))
  {
  }

  lemma InvariantsStep(s: V3, d: V3)
    ensures Invariants(Diag(Add(s, d))) == Add(Invariants(Diag(s)), Add(Linear(s)(d), Later(s)(d)))
  {
    hide Invariants, Diag, Along, FirstVariation, SecondVariation, HigherVariation, Expansion, Add, Scale;
    DiagAlong(s, d, 1.0);
    ScaleOne(d);
    InvariantsAlong(Diag(s), Diag(d), 1.0);
    OneStep(Invariants(Diag(s)), Linear(s)(d), Quadratic(s)(d), Higher(s)(d));
  }

  lemma ScaleOne(d: V3)
    ensures Scale(1.0, d) == d
  {
  }

  // What the model of InValues leaves out at s + d.
  function Remainder(s: V3, g: V3, h: M3): V3 -> real {
    d => Dot(g, Higher(s)(d)) + 0.5 * (Dot(Linear(s)(d), MulVec(h, Later(s)(d)))
      + Dot(Later(s)(d), MulVec(h, Linear(s)(d))) + Dot(Later(s)(d), MulVec(h, Later(s)(d))))
  }

  lemma RemainderKernel(g: V3, h: M3, l: V3, q: V3, r: V3, w: V3, c: V3)
    requires w == Add(q, r) && c == Add(l, w)
    ensures Dot(g, c) + 0.5 * Form(h, c) == Dot(g, l) + (Dot(g, q) + 0.5 * Form(h, l))
      + (Dot(g, r) + 0.5 * (Dot(l, MulVec(h, w)) + Dot(w, MulVec(h, l)) + Dot(w, MulVec(h, w))))
  {
    hide Dot, MulVec, Add;
    DotAdd(l, w, g);
    DotAdd(q, r, g);
    FormSum(h, l, w, c);
  }

  lemma FormSum(h: M3, l: V3, w: V3, c: V3)
    requires c == Add(l, w)
    ensures Form(h, c) == Form(h, l) + (Dot(l, MulVec(h, w)) + Dot(w, MulVec(h, l)) + Dot(w, MulVec(h, w)))
  {
    hide Dot, MulVec, Add;
    MulVecAdd(h, l, w);
    DotAdd(l, w, MulVec(h, c));
    DotAdd(MulVec(h, l), MulVec(h, w), l);
    DotAdd(MulVec(h, l), MulVec(h, w), w);
  }

  lemma StepIs(s: V3, g: V3, h: M3, d: V3)
    ensures InValues(QuadraticEnergy(Invariants(Diag(s)), g, h))(Add(s, d)) ==
      Dot(DEda(s, g), d) + 0.5 * Form(D2Eda2(s, g, h), d) + Remainder(s, g, h)(d)
  {
    hide *;
    InvariantsStep(s, d);
    var i0, l, w := Invariants(Diag(s)), Linear(s)(d), Later(s)(d);
    InValuesIs(QuadraticEnergy(i0, g, h), Add(s, d));
    QuadraticIs(i0, g, h, Add(l, w));
    LaterIs(s, d);
    LinearIs(s, d);
    QuadraticVariation(s, d);
    RemainderIs(s, g, h);
    RemainderKernel(g, h, l, Quadratic(s)(d), Higher(s)(d), w, Add(l, w));
    FirstAlong(s, g, d);
    ModelDiag(s, Diag(d), g, h);
    DiagonalDiag(d);
    NoPairs(AntiEigenvalues(s.x, s.y, s.z, g), SymEigenvalues(s.x, s.y, s.z, g), d);
  }

  lemma InValuesIs(e: V3 -> real, s: V3)
    ensures InValues(e)(s) == e(Invariants(Diag(s)))
  {
  }

  lemma LaterIs(s: V3, d: V3)
    ensures Later(s)(d) == Add(Quadratic(s)(d), Higher(s)(d))
  {
    hide Add, Quadratic, Higher;
  }

  lemma LinearIs(s: V3, d: V3)
    ensures Linear(s)(d) == FirstVariation(Diag(s), Diag(d))
  {
    hide FirstVariation, Diag;
  }

  lemma QuadraticVariation(s: V3, d: V3)
    ensures Quadratic(s)(d) == SecondVariation(Diag(s), Diag(d))
  {
    hide SecondVariation, Diag;
  }

  lemma RemainderIs(s: V3, g: V3, h: M3)
    ensures forall d :: Remainder(s, g, h)(d) == Dot(g, Higher(s)(d)) + 0.5 * (Dot(Linear(s)(d),
      MulVec(h, Later(s)(d))) + Dot(Later(s)(d), MulVec(h, Linear(s)(d))) + Dot(Later(s)(d), MulVec(h, Later(s)(d))))
  {
    hide Linear, Later, Higher, Dot, MulVec;
  }

  lemma CrossOrder(h: M3, f: V3 -> V3, k: nat, g: V3 -> V3, l: nat, r: V3 -> real)
    requires OrderV(f, k) && OrderV(g, l) && k + l >= 3 && forall d :: r(d) == Dot(f(d), MulVec(h, g(d)))
    ensures Order(r, 3)
  {
    hide *;
    var hg := (d: V3) => MulVec(h, g(d));
    OrderMul(h, g, l, hg);
    DotOrder(f, k, hg, l, r);
  }

  lemma DotOrder(f: V3 -> V3, k: nat, g: V3 -> V3, l: nat, r: V3 -> real)
    requires OrderV(f, k) && OrderV(g, l) && k + l >= 3 && forall d :: r(d) == Dot(f(d), g(d))
    ensures Order(r, 3)
  {
    hide *;
    var j := k + l;
    OrderDot(f, k, g, l, r, j);
    OrderLess(r, j, 3);
  }

  lemma FourTerms(a: V3 -> real, b: V3 -> real, c: V3 -> real, e: V3 -> real, r: V3 -> real)
    requires Order(a, 3) && Order(b, 3) && Order(c, 3) && Order(e, 3)
    requires forall d :: r(d) == a(d) + 0.5 * (b(d) + c(d) + e(d))
    ensures Order(r, 3)
  {
    hide *;
    var bc := (d: V3) => b(d) + c(d);
    OrderSum(b, c, bc, 3);
    var bce := (d: V3) => bc(d) + e(d);
    OrderSum(bc, e, bce, 3);
    HalfTerm(a, bce, r);
  }

  lemma HalfTerm(a: V3 -> real, b: V3 -> real, r: V3 -> real)
    requires Order(a, 3) && Order(b, 3) && forall d :: r(d) == a(d) + 0.5 * b(d)
    ensures Order(r, 3)
  {
    hide *;
    var half := (d: V3) => 0.5 * b(d);
    OrderTimes(0.5, b, half, 3);
    OrderSum(a, half, r, 3);
  }

  lemma RemainderOrder(s: V3, g: V3, h: M3)
    ensures Order(Remainder(s, g, h), 3)
  {
    hide *;
    LinearOrder(s);
    LaterOrder(s);
    var l, w := Linear(s), Later(s);
    var a, b := (d: V3) => Dot(g, Higher(s)(d)), (d: V3) => Dot(l(d), MulVec(h, w(d)));
    var c, e := (d: V3) => Dot(w(d), MulVec(h, l(d))), (d: V3) => Dot(w(d), MulVec(h, w(d)));
    ConstOrder(s, g, a);
    CrossOrder(h, l, 1, w, 2, b);
    CrossOrder(h, w, 2, l, 1, c);
    CrossOrder(h, w, 2, w, 2, e);
    RemainderIs(s, g, h);
    FourTerms(a, b, c, e, Remainder(s, g, h));
  }

  lemma ConstOrder(s: V3, g: V3, a: V3 -> real)
    requires forall d :: a(d) == Dot(g, Higher(s)(d))
    ensures Order(a, 3)
  {
    hide *;
    HigherOrder(s);
    OrderConstV(g);
    OrderDot(d => g, 0, Higher(s), 3, a, 3);
  }

  lemma LargestEntry(d: V3) returns (n: real)
    ensures n >= 0.0 && Small(d, n) && Square(n) <= Dot(d, d)
  {
    n := if Abs(d.x) >= Abs(d.y) && Abs(d.x) >= Abs(d.z) then Abs(d.x)
         else if Abs(d.y) >= Abs(d.z) then Abs(d.y) else Abs(d.z);
    LargestKernel(d, n);
  }

  lemma LargestKernel(d: V3, n: real)
    requires n == Abs(d.x) || n == Abs(d.y) || n == Abs(d.z)
    ensures Square(n) <= Dot(d, d)
  {
    hide *;
    SquaresOf(d);
    SquareSign(d.x);
    SquareSign(d.y);
    SquareSign(d.z);
    AbsSquare(d.x);
    AbsSquare(d.y);
    AbsSquare(d.z);
  }

  lemma SquaresOf(d: V3)
    ensures Dot(d, d) == Square(d.x) + Square(d.y) + Square(d.z)
  {
  }

  lemma AbsSquare(x: real)
    ensures Square(Abs(x)) == Square(x)
  {
  }

  lemma SquareRoot(n: real, b: real)
    requires n >= 0.0 && b > 0.0 && Square(n) <= Square(b)
    ensures n <= b
  {
    if n > b {
      MulMonotone(b, n, b);
      MulMonotone(b, n, n);
      ProductPositive(n - b, b, (n - b) * b);
    }
  }

  lemma CubeBound(n: real, b: real, c: real, eps: real, r: real, dd: real)
    requires 0.0 <= n <= b && c >= 0.0 && c * b <= eps && Abs(r) <= c * Power(n, 3) && Square(n) <= dd
    ensures Abs(r) <= eps * dd
  {
    hide Power, Abs, Square;
    CubeIs(n);
    SquareSign(n);
    MulMonotone(n, b, c);
    CubeKernel(n, Square(n), c, eps, dd, c * n, Power(n, 3));
  }

  lemma CubeIs(n: real)
    requires n >= 0.0
    ensures Power(n, 3) == n * Square(n)
  {
    PowerOne(n);
    assert Power(n, 2) == n * Power(n, 1);
  }

  lemma CubeKernel(n: real, sq: real, c: real, eps: real, dd: real, cn: real, cube: real)
    requires n >= 0.0 && c >= 0.0 && 0.0 <= sq <= dd && cn == c * n && cn <= eps && cube == n * sq
    ensures c * cube <= eps * dd
  {
    ProductSign(c, n);
    MulMonotone(cn, eps, sq);
    MulMonotone(sq, dd, eps);
    assert c * cube == cn * sq;
  }

  // A remainder of third order is no part of the gradient or the Hessian.
  lemma ThirdOrderRest(e: V3 -> real, s: V3, p: V3, m: M3, r: V3 -> real)
    requires Order(r, 3) && forall d :: e(Add(s, d)) == e(s) + (Dot(p, d) + 0.5 * Form(m, d) + r(d))
    ensures TwiceDifferentiable(e, s, p, m)
  {
    hide Dot, MulVec, Add, Abs, Square, OrderBy;
    var c :| OrderBy(r, 3, c);
    forall eps | eps > 0.0 ensures TaylorNear(e, s, p, m, eps) {
      OrderSign(r, c);
      var b := RestRoom(c, eps);
      forall d: V3 | Dot(d, d) <= Square(b)
        ensures Abs(e(Add(s, d)) - (e(s) + Dot(p, d) + 0.5 * Dot(d, MulVec(m, d)))) <= eps * Dot(d, d)
      {
        RestAt(e, s, p, m, r, c, eps, b, d);
      }
      SquareAbove(b);
      assert TaylorWithin(e, s, p, m, eps, Square(b));
    }
  }

  lemma OrderSign(r: V3 -> real, c: real)
    requires OrderBy(r, 3, c)
    ensures c >= 0.0
  {
  }

  lemma SquareAbove(b: real)
    requires b > 0.0
    ensures Square(b) > 0.0
  {
    ProductPositive(b, b, Square(b));
  }

  lemma RestAt(e: V3 -> real, s: V3, p: V3, m: M3, r: V3 -> real, c: real, eps: real, b: real, d: V3)
    requires OrderBy(r, 3, c) && 0.0 < b <= 1.0 && c * b <= eps && c >= 0.0 && Dot(d, d) <= Square(b)
    requires e(Add(s, d)) == e(s) + (Dot(p, d) + 0.5 * Form(m, d) + r(d))
    ensures Abs(e(Add(s, d)) - (e(s) + Dot(p, d) + 0.5 * Dot(d, MulVec(m, d)))) <= eps * Dot(d, d)
  {
    hide *;
    var n := LargestEntry(d);
    SquareRoot(n, b);
    OrderAt(r, c, d, n);
    CubeBound(n, b, c, eps, r(d), Dot(d, d));
    FormDot(m, d);
    assert e(Add(s, d)) - (e(s) + Dot(p, d) + 0.5 * Dot(d, MulVec(m, d))) == r(d);
  }

  lemma OrderAt(r: V3 -> real, c: real, d: V3, n: real)
    requires OrderBy(r, 3, c) && 0.0 <= n <= 1.0 && Small(d, n)
    ensures Abs(r(d)) <= c * Power(n, 3)
  {
    hide Abs, Power, Small;
  }

  lemma FormDot(m: M3, d: V3)
    ensures Form(m, d) == Dot(d, MulVec(m, d))
  {
  }

  lemma RestRoom(c: real, eps: real) returns (b: real)
    requires c >= 0.0 && eps > 0.0
    ensures 0.0 < b <= 1.0 && c * b <= eps
  {
    var k := eps / (1.0 + c);
    assert k * (1.0 + c) == eps;
    b := if k <= 1.0 then k else 1.0;
    MulMonotone(b, k, 1.0 + c);
  }

  // A quadratic energy of the invariants, read in the singular values.
  lemma InducedTwice(s: V3, g: V3, h: M3)
    ensures TwiceDifferentiable(InValues(QuadraticEnergy(Invariants(Diag(s)), g, h)), s, DEda(s, g), D2Eda2(s, g, h))
  {
    hide *;
    var i0 := Invariants(Diag(s));
    var e := QuadraticEnergy(i0, g, h);
    RemainderOrder(s, g, h);
    InValuesIs(e, s);
    QuadraticIs(i0, g, h, ZERO);
    forall d ensures InValues(e)(Add(s, d)) == InValues(e)(s)
      + (Dot(DEda(s, g), d) + 0.5 * Form(D2Eda2(s, g, h), d) + Remainder(s, g, h)(d))
    {
      StepIs(s, g, h, d);
    }
    ThirdOrderRest(InValues(e), s, DEda(s, g), D2Eda2(s, g, h), Remainder(s, g, h));
  }
}
