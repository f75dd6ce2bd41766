// The Hessian of an isotropic energy of a 3x3 deformation gradient is the one
// the script rebuilds from nine eigenvalues and eigenvectors
// (eigsys/eigsys_invariants_3.py:99-111, 161-201).
module Hessian3 {
  import opened LinearAlgebra
  import opened Invariants3
  import opened Gradients3
  import opened SecondOrder
  import opened Eigensystem3

  // The gradient and Hessian of the energy in the singular values.
  function DEda(s: V3, g: V3): V3 {
    MulVec(DIda(s), g)
  }

  function Weighted(s: V3, g: V3): M3 {
    AddM(AddM(ScaleM(g.x, D2I1(s)), ScaleM(g.y, D2I2(s))), ScaleM(g.z, D2I3(s)))
  }

  function D2Eda2(s: V3, g: V3, h: M3): M3 {
    AddM(Weighted(s, g), MatMul(MatMul(DIda(s), h), Transpose(DIda(s))))
  }

  // lmds[0..3] and lmds[3..6]
  function AntiEigenvalues(a: real, b: real, c: real, g: V3): V3 {
    var abc := a * b * c;
    V3(2.0 * (g.x + (a * b + c * c) * g.y + c * abc * g.z),
       2.0 * (g.x + (a * c + b * b) * g.y + b * abc * g.z),
       2.0 * (g.x + (b * c + a * a) * g.y + a * abc * g.z))
  }

  function SymEigenvalues(a: real, b: real, c: real, g: V3): V3 {
    var abc := a * b * c;
    V3(2.0 * (g.x + (c * c - a * b) * g.y - c * abc * g.z),
       2.0 * (g.x + (b * b - a * c) * g.y - b * abc * g.z),
       2.0 * (g.x + (a * a - b * c) * g.y - a * abc * g.z))
  }

  // What sym_eigsolve_3x3 promises of a symmetric matrix.
  predicate EigenSystem(h: M3, values: V3, u: M3) {
    && Orthogonal(u)
    && MulVec(h, u.c0) == Scale(values.x, u.c0)
    && MulVec(h, u.c1) == Scale(values.y, u.c1)
    && MulVec(h, u.c2) == Scale(values.z, u.c2)
  }

  // ---- Forms -----------------------------------------------------------------

  lemma FormAdd(a: M3, b: M3, v: V3)
    ensures Form(AddM(a, b), v) == Form(a, v) + Form(b, v)
  {
    hide Dot, MulVec, Add;
    MulVecAddM(a, b, v);
    DotAdd(MulVec(a, v), MulVec(b, v), v);
  }

  lemma MulVecAddM(a: M3, b: M3, v: V3)
    ensures MulVec(AddM(a, b), v) == Add(MulVec(a, v), MulVec(b, v))
  {
    hide Dot, MulVec, Transpose, Add, AddM;
    TransposeAdd(a, b);
    ByRows(AddM(a, b), v);
    ByRows(a, v);
    ByRows(b, v);
    MulVecAddMRows(Transpose(a), Transpose(b), v);
  }

  lemma MulVecAddMRows(a: M3, b: M3, v: V3)
    ensures Add(V3(Dot(a.c0, v), Dot(a.c1, v), Dot(a.c2, v)), V3(Dot(b.c0, v), Dot(b.c1, v), Dot(b.c2, v)))
         == V3(Dot(AddM(a, b).c0, v), Dot(AddM(a, b).c1, v), Dot(AddM(a, b).c2, v))
  {
    DotAdd(a.c0, b.c0, v);
    DotAdd(a.c1, b.c1, v);
    DotAdd(a.c2, b.c2, v);
    hide Dot;
  }

  lemma FormScale(k: real, a: M3, v: V3)
    ensures Form(ScaleM(k, a), v) == k * Form(a, v)
  {
    hide Dot, MulVec, Scale;
    MulVecScaleM(k, a, v);
    DotScale(k, MulVec(a, v), v);
  }

  lemma MulVecScaleM(k: real, a: M3, v: V3)
    ensures MulVec(ScaleM(k, a), v) == Scale(k, MulVec(a, v))
  {
    hide Dot, MulVec, Transpose, Scale, ScaleM;
    TransposeScale(k, a);
    ByRows(ScaleM(k, a), v);
    ByRows(a, v);
    MulVecScaleMRows(k, Transpose(a), v);
  }

  lemma MulVecScaleMRows(k: real, a: M3, v: V3)
    ensures Scale(k, V3(Dot(a.c0, v), Dot(a.c1, v), Dot(a.c2, v)))
         == V3(Dot(ScaleM(k, a).c0, v), Dot(ScaleM(k, a).c1, v), Dot(ScaleM(k, a).c2, v))
  {
    hide Dot;
    DotScale(k, a.c0, v);
    DotScale(k, a.c1, v);
    DotScale(k, a.c2, v);
  }

  // d . (D h D.T) d == (D.T d) . h (D.T d)
  lemma FormConjugate(d: M3, h: M3, v: V3, p: V3)
    requires p == MulVec(Transpose(d), v)
    ensures Form(MatMul(MatMul(d, h), Transpose(d)), v) == Form(h, p)
  {
    hide Dot, MulVec, Transpose, MatMul;
    MulVecAssociative(MatMul(d, h), Transpose(d), v);
    MulVecAssociative(d, h, p);
    Adjoint(d, MulVec(h, p), v);
    DotSymmetric(v, MulVec(d, MulVec(h, p)));
    DotSymmetric(MulVec(h, p), p);
  }

  // Coordinates in an orthonormal basis.
  lemma Coordinates(u: M3, v: V3)
    requires Orthogonal(u)
    ensures v == Combine(Dot(u.c0, v), u.c0, Dot(u.c1, v), u.c1, Dot(u.c2, v), u.c2)
  {
    hide Dot, Transpose, Combine, Orthogonal;
    TransposeMulVec(u, v);
    OrthogonalOnto(u, v);
  }

  lemma EigenProduct(h: M3, l: real, c: V3, v: V3)
    requires MulVec(h, c) == Scale(l, c)
    ensures Dot(c, v) * Dot(MulVec(h, c), v) == l * Square(Dot(c, v))
  {
    hide Dot, MulVec, Scale;
    DotScale(l, c, v);
    SpectralKernel(l, Dot(c, v), Dot(MulVec(h, c), v), Dot(c, v) * Dot(MulVec(h, c), v));
  }

  // A form in its eigenbasis.
  lemma FormSpectral(h: M3, values: V3, u: M3, v: V3)
    requires EigenSystem(h, values, u)
    ensures Form(h, v) == values.x * Square(Dot(u.c0, v)) + values.y * Square(Dot(u.c1, v))
      + values.z * Square(Dot(u.c2, v))
  {
    hide Dot, MulVec, Combine, Scale, Square, Orthogonal;
    var t0, t1, t2 := Dot(u.c0, v), Dot(u.c1, v), Dot(u.c2, v);
    Coordinates(u, v);
    MulVecCombine(h, t0, u.c0, t1, u.c1, t2, u.c2);
    DotCombine(t0, MulVec(h, u.c0), t1, MulVec(h, u.c1), t2, MulVec(h, u.c2), v);
    DotSymmetric(v, MulVec(h, v));
    EigenProduct(h, values.x, u.c0, v);
    EigenProduct(h, values.y, u.c1, v);
    EigenProduct(h, values.z, u.c2, v);
  }

  lemma SpectralKernel(l: real, t: real, lt: real, p: real)
    requires lt == l * t && p == t * lt
    ensures p == l * Square(t)
  {
  }

  lemma MulVecCombine(h: M3, p: real, a: V3, q: real, b: V3, r: real, c: V3)
    ensures MulVec(h, Combine(p, a, q, b, r, c)) == Combine(p, MulVec(h, a), q, MulVec(h, b), r, MulVec(h, c))
  {
    hide MulVec, Scale, Add;
    MulVecAdd(h, Add(Scale(p, a), Scale(q, b)), Scale(r, c));
    MulVecAdd(h, Scale(p, a), Scale(q, b));
    MulVecScale(h, p, a);
    MulVecScale(h, q, b);
    MulVecScale(h, r, c);
  }

  // ---- The second-order term at a diagonal deformation gradient ---------------

  lemma PairLinear(g: V3, lam: real, mu: real, l1: real, l2: real, l3: real, m1: real, m2: real, m3: real, u: real,
                   v: real)
    requires lam == g.x * l1 + g.y * l2 + g.z * l3 && mu == g.x * m1 + g.y * m2 + g.z * m3
    ensures PairForm(lam, mu, u, v)
      == g.x * PairForm(l1, m1, u, v) + g.y * PairForm(l2, m2, u, v) + g.z * PairForm(l3, m3, u, v)
  {
    hide Square;
    PairLinearKernel(g.x, g.y, g.z, lam, mu, l1, l2, l3, m1, m2, m3, Square(u - v), Square(u + v),
                     PairForm(l1, m1, u, v), PairForm(l2, m2, u, v), PairForm(l3, m3, u, v), PairForm(lam, mu, u, v));
  }

  lemma PairLinearKernel(g1: real, g2: real, g3: real, lam: real, mu: real, l1: real, l2: real, l3: real,
                         m1: real, m2: real, m3: real, x: real, y: real, p1: real, p2: real, p3: real, p: real)
    requires lam == g1 * l1 + g2 * l2 + g3 * l3 && mu == g1 * m1 + g2 * m2 + g3 * m3
    requires p1 == 0.25 * (l1 * x + m1 * y) && p2 == 0.25 * (l2 * x + m2 * y) && p3 == 0.25 * (l3 * x + m3 * y)
    requires p == 0.25 * (lam * x + mu * y)
    ensures p == g1 * p1 + g2 * p2 + g3 * p3
  {
  }

  lemma PairSumLinear(g: V3, a: real, b: real, c: real, y: M3)
    ensures PairSum(AntiEigenvalues(a, b, c, g), SymEigenvalues(a, b, c, g), y)
         == g.x * PairSum(V3(2.0, 2.0, 2.0), V3(2.0, 2.0, 2.0), y)
          + g.y * PairSum(AreaAnti(a, b, c), AreaSym(a, b, c), y)
          + g.z * PairSum(VolumeAnti(a, b, c), VolumeSym(a, b, c), y)
  {
    var l, m := AntiEigenvalues(a, b, c, g), SymEigenvalues(a, b, c, g);
    var p, q, r, t := AreaAnti(a, b, c), AreaSym(a, b, c), VolumeAnti(a, b, c), VolumeSym(a, b, c);
    EigenvaluesLinear(a, b, c, g);
    hide PairForm, AntiEigenvalues, SymEigenvalues, AreaAnti, AreaSym, VolumeAnti, VolumeSym;
    PairLinear(g, l.x, m.x, 2.0, p.x, r.x, 2.0, q.x, t.x, y.c1.x, y.c0.y);
    PairLinear(g, l.y, m.y, 2.0, p.y, r.y, 2.0, q.y, t.y, y.c2.x, y.c0.z);
    PairLinear(g, l.z, m.z, 2.0, p.z, r.z, 2.0, q.z, t.z, y.c2.y, y.c1.z);
  }

  lemma EigenvaluesLinear(a: real, b: real, c: real, g: V3)
    ensures var l, p, r := AntiEigenvalues(a, b, c, g), AreaAnti(a, b, c), VolumeAnti(a, b, c);
      && l.x == g.x * 2.0 + g.y * p.x + g.z * r.x
      && l.y == g.x * 2.0 + g.y * p.y + g.z * r.y
      && l.z == g.x * 2.0 + g.y * p.z + g.z * r.z
    ensures var m, q, t := SymEigenvalues(a, b, c, g), AreaSym(a, b, c), VolumeSym(a, b, c);
      && m.x == g.x * 2.0 + g.y * q.x + g.z * t.x
      && m.y == g.x * 2.0 + g.y * q.y + g.z * t.y
      && m.z == g.x * 2.0 + g.y * q.z + g.z * t.z
  {
    var abc := a * b * c;
    EigenvalueKernel(g.x, g.y, g.z, a * b + c * c, c * abc);
    EigenvalueKernel(g.x, g.y, g.z, a * c + b * b, b * abc);
    EigenvalueKernel(g.x, g.y, g.z, b * c + a * a, a * abc);
    EigenvalueKernel(g.x, g.y, g.z, c * c - a * b, -(c * abc));
    EigenvalueKernel(g.x, g.y, g.z, b * b - a * c, -(b * abc));
    EigenvalueKernel(g.x, g.y, g.z, a * a - b * c, -(a * abc));
  }

  lemma EigenvalueKernel(g1: real, g2: real, g3: real, p: real, r: real)
    ensures 2.0 * (g1 + p * g2 + r * g3) == g1 * 2.0 + g2 * (2.0 * p) + g3 * (2.0 * r)
  {
  }

  lemma WeightedForm(s: V3, g: V3, d: V3)
    ensures Form(Weighted(s, g), d) == g.x * Form(D2I1(s), d) + g.y * Form(D2I2(s), d) + g.z * Form(D2I3(s), d)
  {
    hide Form, AddM, ScaleM, D2I1, D2I2, D2I3;
    var h1, h2, h3 := ScaleM(g.x, D2I1(s)), ScaleM(g.y, D2I2(s)), ScaleM(g.z, D2I3(s));
    FormAdd(AddM(h1, h2), h3, d);
    FormAdd(h1, h2, d);
    FormScale(g.x, D2I1(s), d);
    FormScale(g.y, D2I2(s), d);
    FormScale(g.z, D2I3(s), d);
  }

  lemma ModelKernel3(g: V3, q: V3, f1: real, f2: real, f3: real, p1: real, p2: real, p3: real, gq: real, weighted: real,
                     pairs: real)
    requires q.x == 0.5 * f1 + p1 && q.y == 0.5 * f2 + p2 && q.z == 0.5 * f3 + p3
    requires gq == g.x * q.x + g.y * q.y + g.z * q.z
    requires weighted == g.x * f1 + g.y * f2 + g.z * f3 && pairs == g.x * p1 + g.y * p2 + g.z * p3
    ensures gq == 0.5 * weighted + pairs
  {
  }

  lemma DotEntries(a: V3, b: V3)
    ensures Dot(a, b) == a.x * b.x + a.y * b.y + a.z * b.z
  {
  }

  lemma SecondVariationForm(s: V3, y: M3, g: V3)
    ensures Dot(g, SecondVariation(Diag(s), y))
         == 0.5 * Form(Weighted(s, g), Diagonal(y))
           + PairSum(AntiEigenvalues(s.x, s.y, s.z, g), SymEigenvalues(s.x, s.y, s.z, g), y)
  {
    hide *;
    var q, d := SecondVariation(Diag(s), y), Diagonal(y);
    LengthSecondDiag(s, y);
    AreaSecondDiag(s, y);
    VolumeSecondDiag(s, y);
    WeightedForm(s, g, d);
    PairSumLinear(g, s.x, s.y, s.z, y);
    DotEntries(g, q);
    ModelKernel3(g, q, Form(D2I1(s), d), Form(D2I2(s), d), Form(D2I3(s), d),
                 PairSum(V3(2.0, 2.0, 2.0), V3(2.0, 2.0, 2.0), y),
                 PairSum(AreaAnti(s.x, s.y, s.z), AreaSym(s.x, s.y, s.z), y),
                 PairSum(VolumeAnti(s.x, s.y, s.z), VolumeSym(s.x, s.y, s.z), y),
                 Dot(g, q), Form(Weighted(s, g), d),
                 PairSum(AntiEigenvalues(s.x, s.y, s.z, g), SymEigenvalues(s.x, s.y, s.z, g), y));
  }

  lemma HessianForm(s: V3, g: V3, h: M3, v: V3)
    ensures Form(D2Eda2(s, g, h), v) == Form(Weighted(s, g), v) + Form(h, MulVec(Transpose(DIda(s)), v))
  {
    hide Form, MatMul, MulVec, Transpose, DIda, Weighted, AddM;
    FormAdd(Weighted(s, g), MatMul(MatMul(DIda(s), h), Transpose(DIda(s))), v);
    FormConjugate(DIda(s), h, v, MulVec(Transpose(DIda(s)), v));
  }

  // At a diagonal gradient the second-order term splits into the singular-value
  // Hessian on the diagonal and one pair of modes per off-diagonal pair.
  lemma ModelDiag(s: V3, y: M3, g: V3, h: M3)
    ensures var p := FirstVariation(Diag(s), y);
      Dot(g, SecondVariation(Diag(s), y)) + 0.5 * Form(h, p)
      == 0.5 * Form(D2Eda2(s, g, h), Diagonal(y))
        + PairSum(AntiEigenvalues(s.x, s.y, s.z, g), SymEigenvalues(s.x, s.y, s.z, g), y)
  {
    hide *;
    SecondVariationForm(s, y, g);
    FirstVariationDiag(s, y);
    HessianForm(s, g, h, Diagonal(y));
  }

  // ---- The nine eigenpairs ----------------------------------------------------

  // Qs: six off-diagonal modes over root2, three diagonals of eigenvectors.
  function Modes(root2: real, u: M3): (qs: seq<M3>)
    requires root2 != 0.0
    ensures |qs| == 9
  {
    var k := 1.0 / root2;
    [ScaleM(k, M3(V3(0.0, -1.0, 0.0), V3(1.0, 0.0, 0.0), V3(0.0, 0.0, 0.0))),
     ScaleM(k, M3(V3(0.0, 0.0, -1.0), V3(0.0, 0.0, 0.0), V3(1.0, 0.0, 0.0))),
     ScaleM(k, M3(V3(0.0, 0.0, 0.0), V3(0.0, 0.0, -1.0), V3(0.0, 1.0, 0.0))),
     ScaleM(k, M3(V3(0.0, 1.0, 0.0), V3(1.0, 0.0, 0.0), V3(0.0, 0.0, 0.0))),
     ScaleM(k, M3(V3(0.0, 0.0, 1.0), V3(0.0, 0.0, 0.0), V3(1.0, 0.0, 0.0))),
     ScaleM(k, M3(V3(0.0, 0.0, 0.0), V3(0.0, 0.0, 1.0), V3(0.0, 1.0, 0.0))),
     Diag(u.c0), Diag(u.c1), Diag(u.c2)]
  }

  // lmds
  function Eigenvalues(s: V3, g: V3, values: V3): (lmds: seq<real>)
    ensures |lmds| == 9
  {
    var l, m := AntiEigenvalues(s.x, s.y, s.z, g), SymEigenvalues(s.x, s.y, s.z, g);
    [l.x, l.y, l.z, m.x, m.y, m.z, values.x, values.y, values.z]
  }

  function RotateAll(u: M3, qs: seq<M3>, v: M3): (rs: seq<M3>)
    ensures |rs| == |qs|
    ensures forall i :: 0 <= i < |qs| ==> rs[i] == Rotate(u, qs[i], v)
  {
    seq(|qs|, i requires 0 <= i < |qs| => Rotate(u, qs[i], v))
  }

  // The form of the rebuilt Hessian: the sum of lmds[i] <qs[i], x>^2.
  function Spectral(lmds: seq<real>, qs: seq<M3>, x: M3): real
    requires |lmds| == |qs|
  {
    if |qs| == 0 then 0.0
    else Spectral(lmds[..|lmds| - 1], qs[..|qs| - 1], x) + Mode(lmds[|lmds| - 1], qs[|qs| - 1], x)
  }

  function Mode(lmd: real, q: M3, x: M3): real {
    lmd * Square(Inner(q, x))
  }

  lemma SpectralPrefix(l: seq<real>, q: seq<M3>, x: M3, n: nat)
    requires n < |l| == |q|
    ensures Spectral(l[..n + 1], q[..n + 1], x) == Spectral(l[..n], q[..n], x) + Mode(l[n], q[n], x)
  {
    hide Mode;
    assert l[..n + 1][..n] == l[..n] && q[..n + 1][..n] == q[..n];
  }

  lemma SpectralNine(l: seq<real>, q: seq<M3>, x: M3)
    requires |l| == |q| == 9
    ensures Spectral(l, q, x)
         == Mode(l[0], q[0], x) + Mode(l[1], q[1], x) + Mode(l[2], q[2], x) + Mode(l[3], q[3], x) + Mode(l[4], q[4], x)
          + Mode(l[5], q[5], x) + Mode(l[6], q[6], x) + Mode(l[7], q[7], x) + Mode(l[8], q[8], x)
  {
    assert Spectral(l[..0], q[..0], x) == 0.0;
    assert l[..9] == l && q[..9] == q;
    hide Mode, Spectral;
    SpectralPrefix(l, q, x, 0);
    SpectralPrefix(l, q, x, 1);
    SpectralPrefix(l, q, x, 2);
    SpectralPrefix(l, q, x, 3);
    SpectralPrefix(l, q, x, 4);
    SpectralPrefix(l, q, x, 5);
    SpectralPrefix(l, q, x, 6);
    SpectralPrefix(l, q, x, 7);
    SpectralPrefix(l, q, x, 8);
  }

  // ---- Each eigenpair against a direction -------------------------------------

  lemma HalfSquare(root2: real, k: real, z: real, w: real, lmd: real)
    requires root2 != 0.0 && root2 * root2 == 2.0 && k == 1.0 / root2 && w == k * z
    ensures lmd * Square(w) == 0.5 * (lmd * Square(z))
  {
    assert k * root2 == 1.0;
    assert 2.0 * (k * k) == 1.0 by {
      assert (k * root2) * (k * root2) == (k * k) * (root2 * root2);
    }
    assert Square(w) == (k * k) * Square(z);
    HalfScale(k * k, Square(z), lmd, Square(w));
  }

  lemma HalfScale(kk: real, zz: real, lmd: real, p: real)
    requires 2.0 * kk == 1.0 && p == kk * zz
    ensures lmd * p == 0.5 * (lmd * zz)
  {
  }

  lemma InnerUnits(y: M3)
    ensures Inner(M3(V3(0.0, -1.0, 0.0), V3(1.0, 0.0, 0.0), V3(0.0, 0.0, 0.0)), y) == y.c1.x - y.c0.y
    ensures Inner(M3(V3(0.0, 0.0, -1.0), V3(0.0, 0.0, 0.0), V3(1.0, 0.0, 0.0)), y) == y.c2.x - y.c0.z
    ensures Inner(M3(V3(0.0, 0.0, 0.0), V3(0.0, 0.0, -1.0), V3(0.0, 1.0, 0.0)), y) == y.c2.y - y.c1.z
  {
  }

  lemma InnerUnitsSymmetric(y: M3)
    ensures Inner(M3(V3(0.0, 1.0, 0.0), V3(1.0, 0.0, 0.0), V3(0.0, 0.0, 0.0)), y) == y.c1.x + y.c0.y
    ensures Inner(M3(V3(0.0, 0.0, 1.0), V3(0.0, 0.0, 0.0), V3(1.0, 0.0, 0.0)), y) == y.c2.x + y.c0.z
    ensures Inner(M3(V3(0.0, 0.0, 0.0), V3(0.0, 0.0, 1.0), V3(0.0, 1.0, 0.0)), y) == y.c2.y + y.c1.z
  {
  }

  lemma ScaledMode(root2: real, lmd: real, q: M3, z: real, y: M3)
    requires root2 != 0.0 && root2 * root2 == 2.0
    requires Inner(q, y) == z
    ensures Mode(lmd, ScaleM(1.0 / root2, q), y) == 0.5 * (lmd * Square(z))
  {
    hide Inner, ScaleM, Square;
    var k := 1.0 / root2;
    var w := Inner(ScaleM(k, q), y);
    InnerScale(k, q, y);
    HalfSquare(root2, k, z, w, lmd);
  }

  lemma PairFormIs(lam: real, mu: real, u: real, v: real, d: real, t: real)
    requires d == u - v && t == u + v
    ensures 2.0 * PairForm(lam, mu, u, v) == 0.5 * (lam * Square(d)) + 0.5 * (mu * Square(t))
  {
    hide Square;
  }

  lemma PairModesSum(root2: real, lam: real, mu: real, anti: M3, sym: M3, u: real, v: real, y: M3)
    requires root2 != 0.0 && root2 * root2 == 2.0
    requires Inner(anti, y) == u - v && Inner(sym, y) == u + v
    ensures Mode(lam, ScaleM(1.0 / root2, anti), y) + Mode(mu, ScaleM(1.0 / root2, sym), y)
      == 2.0 * PairForm(lam, mu, u, v)
  {
    hide *;
    var d, t := Inner(anti, y), Inner(sym, y);
    ScaledMode(root2, lam, anti, d, y);
    ScaledMode(root2, mu, sym, t, y);
    PairFormIs(lam, mu, u, v, d, t);
  }

  lemma DiagonalMode(values: real, c: V3, y: M3)
    ensures Mode(values, Diag(c), y) == values * Square(Dot(c, Diagonal(y)))
  {
    hide Inner, Square, Diag;
    InnerDiag(c, y);
    assert Inner(Diag(c), y) == Dot(c, Diagonal(y));
  }

  // The script's nine eigenpairs give the whole second-order term.
  lemma SpectralDiag(root2: real, s: V3, g: V3, h: M3, values: V3, u: M3, y: M3)
    requires root2 != 0.0 && root2 * root2 == 2.0
    requires EigenSystem(D2Eda2(s, g, h), values, u)
    ensures Spectral(Eigenvalues(s, g, values), Modes(root2, u), y)
         == Form(D2Eda2(s, g, h), Diagonal(y))
           + 2.0 * PairSum(AntiEigenvalues(s.x, s.y, s.z, g), SymEigenvalues(s.x, s.y, s.z, g), y)
  {
    hide Mode, Spectral, Inner, Square, Form, D2Eda2, EigenSystem, PairForm, AntiEigenvalues, SymEigenvalues, Diag,
      ScaleM, Diagonal, Dot;
    var l, m := AntiEigenvalues(s.x, s.y, s.z, g), SymEigenvalues(s.x, s.y, s.z, g);
    SpectralNine(Eigenvalues(s, g, values), Modes(root2, u), y);
    InnerUnits(y);
    InnerUnitsSymmetric(y);
    PairModesSum(root2, l.x, m.x, M3(V3(0.0, -1.0, 0.0), V3(1.0, 0.0, 0.0), V3(0.0, 0.0, 0.0)),
                 M3(V3(0.0, 1.0, 0.0), V3(1.0, 0.0, 0.0), V3(0.0, 0.0, 0.0)), y.c1.x, y.c0.y, y);
    PairModesSum(root2, l.y, m.y, M3(V3(0.0, 0.0, -1.0), V3(0.0, 0.0, 0.0), V3(1.0, 0.0, 0.0)),
                 M3(V3(0.0, 0.0, 1.0), V3(0.0, 0.0, 0.0), V3(1.0, 0.0, 0.0)), y.c2.x, y.c0.z, y);
    PairModesSum(root2, l.z, m.z, M3(V3(0.0, 0.0, 0.0), V3(0.0, 0.0, -1.0), V3(0.0, 1.0, 0.0)),
                 M3(V3(0.0, 0.0, 0.0), V3(0.0, 0.0, 1.0), V3(0.0, 1.0, 0.0)), y.c2.y, y.c1.z, y);
    DiagonalMode(values.x, u.c0, y);
    DiagonalMode(values.y, u.c1, y);
    DiagonalMode(values.z, u.c2, y);
    FormSpectral(D2Eda2(s, g, h), values, u, Diagonal(y));
  }

  // ---- From directions to energies ---------------------------------------------

  // f + t x, seen by the energy.
  function EnergyAlong(e: V3 -> real, f: M3, x: M3): real -> real {
    t => e(Invariants(Along(f, x, t)))
  }

  // The gradient the script rebuilds: the sum of dEdI[k] gI_k.
  function EnergyGradient(f: M3, g: V3): M3 {
    AddM(AddM(ScaleM(g.x, GradI1(f)), ScaleM(g.y, GradI2(f))), ScaleM(g.z, GradI3(f)))
  }

  lemma ExpansionDisplacement(i: V3, p: V3, q: V3, r: V3, t: real)
    ensures Expansion(i, p, q, r, t) == Add(i, Displacement(p, q, r, t))
  {
    DisplacementKernel(p.x, q.x, r.x, t);
    DisplacementKernel(p.y, q.y, r.y, t);
    DisplacementKernel(p.z, q.z, r.z, t);
  }

  lemma DisplacementKernel(p: real, q: real, r: real, t: real)
    ensures t * (p + t * (q + t * r)) == t * p + t * t * q + t * t * t * r
  {
  }

  // On |t| <= 1 the remainder of the invariants is bounded.
  lemma HigherBound(f: M3, x: M3) returns (m: real)
    ensures m >= 0.0
    ensures forall t :: Abs(t) <= 1.0 ==> Small(HigherVariation(f, x, t), m)
  {
    var a, b := 2.0 * Inner(MixedCofactors(f, x), Cofactors(x)), Inner(Cofactors(x), Cofactors(x));
    var k0, k1, k2, k3 := Det(f), Inner(Cofactors(f), x), Inner(Cofactors(x), f), Det(x);
    var c0, c1, c2, c3 := 2.0 * k0 * k3 + 2.0 * k1 * k2, k2 * k2 + 2.0 * k1 * k3, 2.0 * k2 * k3, k3 * k3;
    m := Abs(a) + Abs(b) + (Abs(c0) + Abs(c1) + Abs(c2) + Abs(c3));
    forall t | Abs(t) <= 1.0
      ensures Small(HigherVariation(f, x, t), m)
    {
      HigherEntries(f, x, t, a, b, k0, k1, k2, k3, c0, c1, c2, c3, m);
    }
  }

  lemma HigherEntries(f: M3, x: M3, t: real, a: real, b: real, k0: real, k1: real, k2: real, k3: real,
                      c0: real, c1: real, c2: real, c3: real, m: real)
    requires Abs(t) <= 1.0
    requires a == 2.0 * Inner(MixedCofactors(f, x), Cofactors(x)) && b == Inner(Cofactors(x), Cofactors(x))
    requires k0 == Det(f) && k1 == Inner(Cofactors(f), x) && k2 == Inner(Cofactors(x), f) && k3 == Det(x)
    requires c0 == 2.0 * k0 * k3 + 2.0 * k1 * k2 && c1 == k2 * k2 + 2.0 * k1 * k3 && c2 == 2.0 * k2 * k3
      && c3 == k3 * k3
    requires m == Abs(a) + Abs(b) + (Abs(c0) + Abs(c1) + Abs(c2) + Abs(c3))
    ensures Small(HigherVariation(f, x, t), m)
  {
    var r := HigherVariation(f, x, t);
    HigherIs(f, x, t, a, b, k0, k1, k2, k3);
    hide *;
    AreaRemainderBound(t, a, b, r.y);
    VolumeRemainderBound(k0, k1, k2, k3, t, c0, c1, c2, c3);
    AbsAbove(a);
    AbsAbove(b);
    AbsAbove(c0);
    AbsAbove(c1);
    AbsAbove(c2);
    AbsAbove(c3);
    SmallOf(r, m);
  }

  lemma SmallOf(r: V3, m: real)
    requires r.x == 0.0 && m >= 0.0 && Abs(r.y) <= m && Abs(r.z) <= m
    ensures Small(r, m)
  {
  }

  lemma HigherIs(f: M3, x: M3, t: real, a: real, b: real, k0: real, k1: real, k2: real, k3: real)
    requires a == 2.0 * Inner(MixedCofactors(f, x), Cofactors(x)) && b == Inner(Cofactors(x), Cofactors(x))
    requires k0 == Det(f) && k1 == Inner(Cofactors(f), x) && k2 == Inner(Cofactors(x), f) && k3 == Det(x)
    ensures var r := HigherVariation(f, x, t);
      r.x == 0.0 && r.y == a + t * b && r.z == SquareRemainder(k0, k1, k2, k3, t)
  {
    hide Inner, Cofactors, MixedCofactors, Det, SquareRemainder;
  }

  lemma AbsAdd(x: real, y: real)
    ensures Abs(x + y) <= Abs(x) + Abs(y)
  {
  }

  lemma AreaRemainderBound(t: real, a: real, b: real, r: real)
    requires Abs(t) <= 1.0 && r == a + t * b
    ensures Abs(r) <= Abs(a) + Abs(b)
  {
    hide *;
    var tb := t * b;
    ShrinkBound(t, b, tb);
    AbsAdd(a, tb);
  }

  lemma VolumeRemainderBound(k0: real, k1: real, k2: real, k3: real, t: real, c0: real, c1: real, c2: real, c3: real)
    requires Abs(t) <= 1.0
    requires c0 == 2.0 * k0 * k3 + 2.0 * k1 * k2 && c1 == k2 * k2 + 2.0 * k1 * k3 && c2 == 2.0 * k2 * k3
      && c3 == k3 * k3
    ensures Abs(SquareRemainder(k0, k1, k2, k3, t)) <= Abs(c0) + Abs(c1) + Abs(c2) + Abs(c3)
  {
    hide *;
    RemainderIs(k0, k1, k2, k3, t, c0, c1, c2, c3);
    NestedBound(t, c0, c1, c2, c3, SquareRemainder(k0, k1, k2, k3, t));
  }

  lemma NestedBound(t: real, c0: real, c1: real, c2: real, c3: real, r: real)
    requires Abs(t) <= 1.0 && r == c0 + t * (c1 + t * (c2 + t * c3))
    ensures Abs(r) <= Abs(c0) + Abs(c1) + Abs(c2) + Abs(c3)
  {
    hide *;
    var d3 := t * c3;
    var d2 := t * (c2 + d3);
    var d1 := t * (c1 + d2);
    ShrinkBound(t, c3, d3);
    AbsAdd(c2, d3);
    ShrinkBound(t, c2 + d3, d2);
    AbsAdd(c1, d2);
    ShrinkBound(t, c1 + d2, d1);
    AbsAdd(c0, d1);
  }

  lemma RemainderIs(k0: real, k1: real, k2: real, k3: real, t: real, c0: real, c1: real, c2: real, c3: real)
    requires c0 == 2.0 * k0 * k3 + 2.0 * k1 * k2 && c1 == k2 * k2 + 2.0 * k1 * k3 && c2 == 2.0 * k2 * k3
      && c3 == k3 * k3
    ensures SquareRemainder(k0, k1, k2, k3, t) == c0 + t * (c1 + t * (c2 + t * c3))
  {
  }

  lemma ShrinkBound(t: real, c: real, p: real)
    requires Abs(t) <= 1.0 && p == t * c
    ensures Abs(p) <= Abs(c)
  {
    hide *;
    ProductBound(t, c, p, 1.0, Abs(c), Abs(c));
  }

  // Along any line, any twice differentiable energy of the invariants follows the
  // chain rule with the variations of the invariants.
  lemma EnergySecondOrder(e: V3 -> real, f: M3, x: M3, g: V3, h: M3)
    requires TwiceDifferentiable(e, Invariants(f), g, h)
    ensures SecondOrderAt0(EnergyAlong(e, f, x), e(Invariants(f)), Dot(g, FirstVariation(f, x)),
                           Dot(g, SecondVariation(f, x)) + 0.5 * Form(h, FirstVariation(f, x)))
  {
    hide *;
    var p, q := FirstVariation(f, x), SecondVariation(f, x);
    var m0 := HigherBound(f, x);
    var m := 1.0 + Size(g) + Size(h.c0) + Size(h.c1) + Size(h.c2) + Size(p) + Size(q) + m0;
    SizesSmall(g, h, p, q, m0, m);
    EnergyBounded(e, f, x, g, h, m0, m);
  }

  lemma EnergyBounded(e: V3 -> real, f: M3, x: M3, g: V3, h: M3, m0: real, m: real)
    requires TwiceDifferentiable(e, Invariants(f), g, h)
    requires m >= 1.0 && m0 <= m && Small(g, m) && SmallM(h, m) && Small(FirstVariation(f, x), m)
      && Small(SecondVariation(f, x), m)
    requires forall t :: Abs(t) <= 1.0 ==> Small(HigherVariation(f, x, t), m0)
    ensures SecondOrderAt0(EnergyAlong(e, f, x), e(Invariants(f)), Dot(g, FirstVariation(f, x)),
                           Dot(g, SecondVariation(f, x)) + 0.5 * Form(h, FirstVariation(f, x)))
  {
    hide FirstVariation, SecondVariation, HigherVariation, Abs, Small, SmallM, Dot, MulVec, Displacement, Add,
      TwiceDifferentiable, SecondOrderAt0, Invariants, EnergyAlong;
    EnergyPath(e, f, x, m0, m);
    ChainRule(e, Invariants(f), g, h, FirstVariation(f, x), SecondVariation(f, x), t => HigherVariation(f, x, t), m,
      EnergyAlong(e, f, x));
  }

  lemma SizesSmall(g: V3, h: M3, p: V3, q: V3, m0: real, m: real)
    requires m0 >= 0.0 && m == 1.0 + Size(g) + Size(h.c0) + Size(h.c1) + Size(h.c2) + Size(p) + Size(q) + m0
    ensures m >= 1.0 && m >= m0 && Small(g, m) && SmallM(h, m) && Small(p, m) && Small(q, m)
  {
    hide Abs, Small, Size;
    SizeBound(g, m);
    SizeBound(h.c0, m);
    SizeBound(h.c1, m);
    SizeBound(h.c2, m);
    SizeBound(p, m);
    SizeBound(q, m);
  }

  lemma SizeBound(v: V3, m: real)
    ensures Size(v) >= 0.0
    ensures Size(v) <= m ==> Small(v, m)
  {
  }

  lemma EnergyPath(e: V3 -> real, f: M3, x: M3, m0: real, m: real)
    requires m0 <= m && forall t :: Abs(t) <= 1.0 ==> Small(HigherVariation(f, x, t), m0)
    ensures forall t :: Abs(t) <= 1.0 ==> Small(HigherVariation(f, x, t), m)
    ensures forall t ::
      EnergyAlong(e, f, x)(t) == e(Add(Invariants(f),
        Displacement(FirstVariation(f, x), SecondVariation(f, x), HigherVariation(f, x, t), t)))
  {
    hide HigherVariation, FirstVariation, SecondVariation, Invariants, Along, Displacement, Expansion, Add;
    forall t
      ensures EnergyAlong(e, f, x)(t) ==
              e(Add(Invariants(f), Displacement(FirstVariation(f, x), SecondVariation(f, x), HigherVariation(f, x, t),
                t)))
    {
      InvariantsAlong(f, x, t);
      ExpansionDisplacement(Invariants(f), FirstVariation(f, x), SecondVariation(f, x), HigherVariation(f, x, t), t);
    }
  }

  lemma GradientInner(f: M3, g: V3, x: M3)
    ensures Inner(EnergyGradient(f, g), x) == Dot(g, FirstVariation(f, x))
  {
    hide *;
    GradientsAreDerivatives(f, x);
    GradientTerms(f, g, x);
    DotEntries(g, FirstVariation(f, x));
  }

  lemma GradientTerms(f: M3, g: V3, x: M3)
    ensures Inner(EnergyGradient(f, g), x)
      == g.x * Inner(GradI1(f), x) + g.y * Inner(GradI2(f), x) + g.z * Inner(GradI3(f), x)
  {
    hide Inner, AddM, ScaleM, GradI1, GradI2, GradI3;
    var a, b, c := ScaleM(g.x, GradI1(f)), ScaleM(g.y, GradI2(f)), ScaleM(g.z, GradI3(f));
    InnerAdd(AddM(a, b), c, x);
    InnerAdd(a, b, x);
    InnerScale(g.x, GradI1(f), x);
    InnerScale(g.y, GradI2(f), x);
    InnerScale(g.z, GradI3(f), x);
  }

  lemma InnerAdd(a: M3, b: M3, x: M3)
    ensures Inner(AddM(a, b), x) == Inner(a, x) + Inner(b, x)
  {
    hide Dot, Add;
    DotAdd(a.c0, b.c0, x.c0);
    DotAdd(a.c1, b.c1, x.c1);
    DotAdd(a.c2, b.c2, x.c2);
  }

  // Rotating the deformation and the direction rotates nothing the energy sees.
  lemma EnergyRotated(e: V3 -> real, u: M3, d: M3, v: M3, x: M3, t: real)
    requires Orthogonal(u) && Orthogonal(v)
    ensures EnergyAlong(e, Rotate(u, d, v), x)(t) == EnergyAlong(e, d, Unrotate(u, x, v))(t)
  {
    assert Invariants(Along(Rotate(u, d, v), x, t)) == Invariants(Along(d, Unrotate(u, x, v), t)) by {
      InvariantsRotated(u, d, v, x, t);
    }
    hide Rotate, Unrotate, Invariants, Orthogonal, Along;
  }

  lemma InvariantsRotated(u: M3, d: M3, v: M3, x: M3, t: real)
    requires Orthogonal(u) && Orthogonal(v)
    ensures Invariants(Along(Rotate(u, d, v), x, t)) == Invariants(Along(d, Unrotate(u, x, v), t))
  {
    hide Rotate, Unrotate, Invariants, Orthogonal, AddM, ScaleM;
    var y := Unrotate(u, x, v);
    RotateUnrotate(u, x, v);
    RotateAlong(u, d, y, v, t);
    InvariantsRotate(u, Along(d, y, t), v);
  }

  lemma ModeRotated(u: M3, v: M3, lmd: real, q: M3, x: M3)
    ensures Mode(lmd, Rotate(u, q, v), x) == Mode(lmd, q, Unrotate(u, x, v))
  {
    hide Inner, Rotate, Unrotate, Square;
    InnerRotate(u, q, v, x);
  }

  lemma {:induction false} SpectralRotated(u: M3, v: M3, lmds: seq<real>, qs: seq<M3>, x: M3)
    requires |lmds| == |qs|
    ensures Spectral(lmds, RotateAll(u, qs, v), x) == Spectral(lmds, qs, Unrotate(u, x, v))
  {
    hide Mode, Rotate, Unrotate;
    if |qs| > 0 {
      var n := |qs| - 1;
      SpectralRotated(u, v, lmds[..n], qs[..n], x);
      assert RotateAll(u, qs, v)[..n] == RotateAll(u, qs[..n], v);
      ModeRotated(u, v, lmds[n], qs[n], x);
    }
  }

  // The same function of t has the same expansion.
  lemma SameExpansion(f: real -> real, f': real -> real, k0: real, k1: real, k2: real)
    requires forall t :: f(t) == f'(t)
    requires SecondOrderAt0(f', k0, k1, k2)
    ensures SecondOrderAt0(f, k0, k1, k2)
  {
    hide Abs, Parabola, Square;
    forall eps | eps > 0.0
      ensures QuadraticNear(f, k0, k1, k2, eps)
    {
      assert QuadraticNear(f', k0, k1, k2, eps);
      var delta :| delta > 0.0 && QuadraticWithin(f', k0, k1, k2, eps, delta);
      assert QuadraticWithin(f, k0, k1, k2, eps, delta);
    }
  }

  // x.T H_rebuilt x for H_rebuilt = Qmat diag(lmds) Qmat.T.
  function RebuiltForm(root2: real, u: M3, s: V3, v: M3, g: V3, values: V3, w: M3, x: M3): real
    requires root2 > 0.0
  {
    Spectral(Eigenvalues(s, g, values), RotateAll(u, Modes(root2, w), v), x)
  }

  lemma RebuiltIs(root2: real, u: M3, s: V3, v: M3, g: V3, values: V3, w: M3, x: M3)
    requires root2 > 0.0
    ensures RebuiltForm(root2, u, s, v, g, values, w, x)
      == Spectral(Eigenvalues(s, g, values), Modes(root2, w), Unrotate(u, x, v))
  {
    hide Eigenvalues, Modes, Spectral, Unrotate, RotateAll;
    SpectralRotated(u, v, Eigenvalues(s, g, values), Modes(root2, w), x);
  }

  // Main theorem. At F = U diag(a, b, c) V.T, an energy of the invariants with
  // gradient g and Hessian h changes along any direction X by
  //   t <gradient, X> + t^2 / 2 sum_i lmds[i] <U Qs[i] V.T, X>^2 + o(t^2),
  // with the gradient, the eigenvalues and the eigenvectors of the script.
  lemma HessianTheorem(e: V3 -> real, u: M3, s: V3, v: M3, g: V3, h: M3, values: V3, w: M3, root2: real, x: M3)
    requires Orthogonal(u) && Orthogonal(v) && root2 > 0.0 && root2 * root2 == 2.0
    requires EigenSystem(D2Eda2(s, g, h), values, w)
    requires TwiceDifferentiable(e, Invariants(Rotate(u, Diag(s), v)), g, h)
    ensures var f := Rotate(u, Diag(s), v);
      SecondOrderAt0(EnergyAlong(e, f, x), e(Invariants(f)), Inner(EnergyGradient(f, g), x),
                     0.5 * RebuiltForm(root2, u, s, v, g, values, w, x))
  {
    hide *;
    RebuiltIs(root2, u, s, v, g, values, w, x);
    var f, d, y := Rotate(u, Diag(s), v), Diag(s), Unrotate(u, x, v);
    InvariantsRotate(u, d, v);
    EnergySecondOrder(e, d, y, g, h);
    ModelDiag(s, y, g, h);
    SpectralDiag(root2, s, g, h, values, w, y);
    forall t
      ensures EnergyAlong(e, f, x)(t) == EnergyAlong(e, d, y)(t)
    {
      EnergyRotated(e, u, d, v, x, t);
    }
    var k2 := Dot(g, SecondVariation(d, y)) + 0.5 * Form(h, FirstVariation(d, y));
    SameExpansion(EnergyAlong(e, f, x), EnergyAlong(e, d, y), e(Invariants(d)), Dot(g, FirstVariation(d, y)), k2);
    EnergySecondOrder(e, f, x, g, h);
    ExpansionUnique(EnergyAlong(e, f, x), e(Invariants(d)), Dot(g, FirstVariation(d, y)), k2,
                    e(Invariants(f)), Dot(g, FirstVariation(f, x)),
                      Dot(g, SecondVariation(f, x)) + 0.5 * Form(h, FirstVariation(f, x)));
    GradientInner(f, g, x);
  }
}
