// The isotropic invariants of a 3x3 deformation gradient and their derivatives
// (eigsys/eigsys_invariants_3.py).
module Invariants3 {
  import opened LinearAlgebra

  // I1, I2, I3 of the right Cauchy-Green tensor.
  function Invariants(f: M3): V3 {
    var c := GramMatrix(f);
    var i1 := Trace(c);
    V3(i1, 0.5 * (i1 * i1 - Trace(MatMul(c, c))), Det(c))
  }

  function Cofactors(f: M3): M3 {
    M3(Cross(f.c1, f.c2), Cross(f.c2, f.c0), Cross(f.c0, f.c1))
  }

  // The part of Cofactors(f + x) linear in both.
  function MixedCofactors(f: M3, x: M3): M3 {
    M3(Add(Cross(f.c1, x.c2), Cross(x.c1, f.c2)),
       Add(Cross(f.c2, x.c0), Cross(x.c2, f.c0)),
       Add(Cross(f.c0, x.c1), Cross(x.c0, f.c1)))
  }

  // f + t * x
  function Along(f: M3, x: M3, t: real): M3 {
    AddM(f, ScaleM(t, x))
  }

  // ---- The invariants as squares of minors ---------------------------------

  lemma GramEntries(f: M3)
    ensures GramMatrix(f) == M3(V3(Dot(f.c0, f.c0), Dot(f.c0, f.c1), Dot(f.c0, f.c2)),
                                V3(Dot(f.c0, f.c1), Dot(f.c1, f.c1), Dot(f.c1, f.c2)),
                                V3(Dot(f.c0, f.c2), Dot(f.c1, f.c2), Dot(f.c2, f.c2)))
  {
    hide Dot, MulVec, Transpose;
    TransposeMulVec(f, f.c0);
    TransposeMulVec(f, f.c1);
    TransposeMulVec(f, f.c2);
    DotSymmetric(f.c0, f.c1);
    DotSymmetric(f.c0, f.c2);
    DotSymmetric(f.c1, f.c2);
  }

  lemma SymmetricSquareTrace(a: real, b: real, c: real, d: real, e: real, g: real)
    ensures var m := M3(V3(a, d, e), V3(d, b, g), V3(e, g, c));
            Trace(MatMul(m, m)) == a * a + b * b + c * c + 2.0 * d * d + 2.0 * e * e + 2.0 * g * g
  {
  }

  lemma SymmetricDet(a: real, b: real, c: real, d: real, e: real, g: real)
    ensures Det(M3(V3(a, d, e), V3(d, b, g), V3(e, g, c)))
         == a * (b * c - g * g) - d * (d * c - e * g) + e * (d * g - b * e)
  {
  }

  lemma GramDeterminant(f: M3)
    ensures Det(GramMatrix(f)) == Det(f) * Det(f)
  {
    var a, b, c := f.c0, f.c1, f.c2;
    var n := Cross(b, c);
    var aa, bb, cc, ab, ac, bc := Dot(a, a), Dot(b, b), Dot(c, c), Dot(a, b), Dot(a, c), Dot(b, c);
    hide Dot, Cross, Combine, Scale;
    GramEntries(f);
    hide GramMatrix;
    SymmetricDet(aa, bb, cc, ab, ac, bc);
    Cramer(a, b, c, n);
    DotScale(Det(f), n, a);
    DotCombine(Dot(n, n), a, Dot(Cross(c, a), n), b, Dot(Cross(a, b), n), c, a);
    CrossDotCross(b, c, b, c);
    CrossDotCross(c, a, b, c);
    CrossDotCross(a, b, b, c);
    DotSymmetric(a, n);
    DotSymmetric(a, b);
    DotSymmetric(a, c);
    DotSymmetric(b, c);
  }

  lemma InvariantsByMinors(f: M3)
    ensures Invariants(f) == V3(Inner(f, f), Inner(Cofactors(f), Cofactors(f)), Det(f) * Det(f))
  {
    var a, b, c := f.c0, f.c1, f.c2;
    var aa, bb, cc, ab, ac, bc := Dot(a, a), Dot(b, b), Dot(c, c), Dot(a, b), Dot(a, c), Dot(b, c);
    hide Dot, Cross, Det, MulVec, MatMul;
    GramEntries(f);
    GramDeterminant(f);
    hide GramMatrix;
    SymmetricSquareTrace(aa, bb, cc, ab, ac, bc);
    CrossDotCross(b, c, b, c);
    CrossDotCross(c, a, c, a);
    CrossDotCross(a, b, a, b);
    DotSymmetric(a, b);
    DotSymmetric(a, c);
    DotSymmetric(b, c);
  }

  // ---- The invariants along a line -----------------------------------------

  // a + t * b + t * t * c
  function Quadratic(a: V3, b: V3, c: V3, t: real): V3 {
    Combine(1.0, a, t, b, t * t, c)
  }

  lemma CrossAlong(a: V3, b: V3, p: V3, q: V3, t: real)
    ensures Cross(Add(a, Scale(t, p)), Add(b, Scale(t, q)))
         == Quadratic(Cross(a, b), Add(Cross(a, q), Cross(p, b)), Cross(p, q), t)
  {
    Regroup(Cross(a, b), Cross(a, q), Cross(p, b), Cross(p, q), t);
    hide *;
    var v := Add(b, Scale(t, q));
    CrossAdd(a, Scale(t, p), v);
    CrossScale(t, p, v);
    CrossAdd(b, Scale(t, q), a);
    CrossAdd(b, Scale(t, q), p);
    CrossScale(t, q, a);
    CrossScale(t, q, p);
  }

  lemma Regroup(ab: V3, aq: V3, pb: V3, pq: V3, t: real)
    ensures Add(Add(ab, Scale(t, aq)), Scale(t, Add(pb, Scale(t, pq)))) == Quadratic(ab, Add(aq, pb), pq, t)
  {
    RegroupKernel(ab.x, aq.x, pb.x, pq.x, t);
    RegroupKernel(ab.y, aq.y, pb.y, pq.y, t);
    RegroupKernel(ab.z, aq.z, pb.z, pq.z, t);
  }

  lemma RegroupKernel(ab: real, aq: real, pb: real, pq: real, t: real)
    ensures ab + t * aq + t * (pb + t * pq) == 1.0 * ab + t * (aq + pb) + t * t * pq
  {
  }

  function QuadraticM(c: M3, m: M3, k: M3, t: real): M3 {
    M3(Quadratic(c.c0, m.c0, k.c0, t), Quadratic(c.c1, m.c1, k.c1, t), Quadratic(c.c2, m.c2, k.c2, t))
  }

  lemma CofactorsAlong(f: M3, x: M3, t: real)
    ensures Cofactors(Along(f, x, t)) == QuadraticM(Cofactors(f), MixedCofactors(f, x), Cofactors(x), t)
  {
    hide Cross, Quadratic;
    CrossAlong(f.c1, f.c2, x.c1, x.c2, t);
    CrossAlong(f.c2, f.c0, x.c2, x.c0, t);
    CrossAlong(f.c0, f.c1, x.c0, x.c1, t);
  }

  function Quartic(k0: real, k1: real, k2: real, k3: real, k4: real, t: real): real {
    k0 + t * k1 + t * t * k2 + t * t * t * (k3 + t * k4)
  }

  lemma DotQuadratic(a: V3, b: V3, c: V3, t: real)
    ensures Dot(Quadratic(a, b, c, t), Quadratic(a, b, c, t))
         == Quartic(Dot(a, a), 2.0 * Dot(a, b), Dot(b, b) + 2.0 * Dot(a, c), 2.0 * Dot(b, c), Dot(c, c), t)
  {
    var q := Combine(1.0, a, t, b, t * t, c);
    assert q == Quadratic(a, b, c, t);
    hide *;
    DotCombine(1.0, a, t, b, t * t, c, q);
    DotCombine(1.0, a, t, b, t * t, c, a);
    DotCombine(1.0, a, t, b, t * t, c, b);
    DotCombine(1.0, a, t, b, t * t, c, c);
    DotSymmetric(a, q);
    DotSymmetric(b, q);
    DotSymmetric(c, q);
    DotSymmetric(a, b);
    DotSymmetric(a, c);
    DotSymmetric(b, c);
    QuadraticSquareKernel(Dot(a, a), Dot(b, b), Dot(c, c), Dot(a, b), Dot(b, a), Dot(a, c), Dot(c, a), Dot(b, c),
                          Dot(c, b), t, Dot(a, q), Dot(b, q), Dot(c, q), Dot(q, q));
  }

  lemma QuadraticSquareKernel(aa: real, bb: real, cc: real, ab: real, ba: real, ac: real, ca: real, bc: real, cb: real,
                              t: real, aq: real, bq: real, cq: real, qq: real)
    requires ab == ba && ac == ca && bc == cb
    requires aq == 1.0 * aa + t * ba + t * t * ca
    requires bq == 1.0 * ab + t * bb + t * t * cb
    requires cq == 1.0 * ac + t * bc + t * t * cc
    requires qq == 1.0 * aq + t * bq + t * t * cq
    ensures qq == Quartic(aa, 2.0 * ab, bb + 2.0 * ac, 2.0 * bc, cc, t)
  {
  }

  function Cubic(k0: real, k1: real, k2: real, k3: real, t: real): real {
    k0 + t * k1 + t * t * k2 + t * t * t * k3
  }

  lemma DotLineQuadratic(f: V3, x: V3, n: V3, m: V3, k: V3, t: real)
    ensures Dot(Quadratic(n, m, k, t), Add(f, Scale(t, x)))
         == Cubic(Dot(n, f), Dot(m, f) + Dot(n, x), Dot(k, f) + Dot(m, x), Dot(k, x), t)
  {
    var q := Combine(1.0, n, t, m, t * t, k);
    assert q == Quadratic(n, m, k, t);
    hide *;
    DotAdd(f, Scale(t, x), q);
    DotScale(t, x, q);
    DotCombine(1.0, n, t, m, t * t, k, f);
    DotCombine(1.0, n, t, m, t * t, k, x);
    DotLineQuadraticKernel(Dot(n, f), Dot(m, f), Dot(k, f), Dot(n, x), Dot(m, x), Dot(k, x), t,
                           Dot(q, f), Dot(q, x), Dot(q, Add(f, Scale(t, x))));
  }

  lemma DotLineQuadraticKernel(nf: real, mf: real, kf: real, nx: real, mx: real, kx: real, t: real,
                               qf: real, qx: real, d: real)
    requires qf == 1.0 * nf + t * mf + t * t * kf
    requires qx == 1.0 * nx + t * mx + t * t * kx
    requires d == qf + t * qx
    ensures d == Cubic(nf, mf + nx, kf + mx, kx, t)
  {
  }

  lemma DetAlong(f: M3, x: M3, t: real)
    ensures Det(Along(f, x, t))
         == Cubic(Det(f), Inner(Cofactors(f), x), Inner(Cofactors(x), f), Det(x), t)
  {
    hide Dot, Cross, Quadratic, MixedCofactors, Cubic, Inner, Add, Scale;
    CofactorsAlong(f, x, t);
    var n, m, k := Cross(f.c1, f.c2), MixedCofactors(f, x).c0, Cross(x.c1, x.c2);
    DotLineQuadratic(f.c0, x.c0, n, m, k, t);
    DotSymmetric(Along(f, x, t).c0, Quadratic(n, m, k, t));
    MixedWithOwn(f, x);
    MixedWithOwn(x, f);
    MixedSymmetric(f, x);
    DotSymmetric(f.c0, n);
    DotSymmetric(x.c0, k);
  }

  lemma MixedSymmetric(f: M3, x: M3)
    ensures MixedCofactors(f, x) == MixedCofactors(x, f)
  {
    hide Cross;
  }

  // The linear part of Det in x, whichever column is expanded.
  lemma MixedWithOwn(f: M3, x: M3)
    ensures Dot(MixedCofactors(f, x).c0, f.c0) + Dot(Cross(f.c1, f.c2), x.c0) == Inner(Cofactors(f), x)
  {
    hide Dot, Cross;
    var p, q := Cross(f.c1, x.c2), Cross(x.c1, f.c2);
    DotAdd(p, q, f.c0);
    DotSymmetric(p, f.c0);
    DotSymmetric(q, f.c0);
    MixedProductCyclic(f.c0, f.c1, x.c2);
    MixedProductCyclic(f.c1, x.c2, f.c0);
    MixedProductCyclic(f.c0, x.c1, f.c2);
    DotSymmetric(x.c1, Cross(f.c2, f.c0));
    DotSymmetric(x.c2, Cross(f.c0, f.c1));
  }

  // ---- Isotropy ------------------------------------------------------------

  lemma InvariantsLeft(u: M3, f: M3)
    requires Orthogonal(u)
    ensures Invariants(MatMul(u, f)) == Invariants(f)
  {
    assert GramMatrix(MatMul(u, f)) == GramMatrix(f) by {
      hide Dot, MulVec, GramMatrix, Orthogonal;
      GramEntries(f);
      GramEntries(MatMul(u, f));
      OrthogonalKeepsDot(u, f.c0, f.c0);
      OrthogonalKeepsDot(u, f.c1, f.c1);
      OrthogonalKeepsDot(u, f.c2, f.c2);
      OrthogonalKeepsDot(u, f.c0, f.c1);
      OrthogonalKeepsDot(u, f.c0, f.c2);
      OrthogonalKeepsDot(u, f.c1, f.c2);
    }
    hide GramMatrix, MatMul, Trace, Det;
  }

  // Each entry of Cofactors(f) is one minor, whichever way f is read.
  lemma CofactorsTranspose(f: M3)
    ensures Cofactors(Transpose(f)) == Transpose(Cofactors(f))
  {
    CofactorEntries(f);
    CofactorEntries(Transpose(f));
    hide Cofactors, Minor;
    MinorTransposed(f.c1.y, f.c1.z, f.c2.y, f.c2.z);
    MinorTransposed(f.c2.y, f.c2.z, f.c0.y, f.c0.z);
    MinorTransposed(f.c0.y, f.c0.z, f.c1.y, f.c1.z);
    MinorTransposed(f.c1.z, f.c1.x, f.c2.z, f.c2.x);
    MinorTransposed(f.c2.z, f.c2.x, f.c0.z, f.c0.x);
    MinorTransposed(f.c0.z, f.c0.x, f.c1.z, f.c1.x);
    MinorTransposed(f.c1.x, f.c1.y, f.c2.x, f.c2.y);
    MinorTransposed(f.c2.x, f.c2.y, f.c0.x, f.c0.y);
    MinorTransposed(f.c0.x, f.c0.y, f.c1.x, f.c1.y);
  }

  // The determinant of [[a, b], [c, d]].
  function Minor(a: real, b: real, c: real, d: real): real {
    a * d - b * c
  }

  lemma MinorTransposed(a: real, b: real, c: real, d: real)
    ensures Minor(a, b, c, d) == Minor(a, c, b, d)
  {
  }

  lemma CrossMinors(a: V3, b: V3)
    ensures Cross(a, b) == V3(Minor(a.y, b.y, a.z, b.z), Minor(a.z, b.z, a.x, b.x), Minor(a.x, b.x, a.y, b.y))
  {
  }

  lemma CofactorEntries(f: M3)
    ensures Cofactors(f)
         == M3(V3(Minor(f.c1.y, f.c2.y, f.c1.z, f.c2.z), Minor(f.c1.z, f.c2.z, f.c1.x, f.c2.x),
           Minor(f.c1.x, f.c2.x, f.c1.y, f.c2.y)),
               V3(Minor(f.c2.y, f.c0.y, f.c2.z, f.c0.z), Minor(f.c2.z, f.c0.z, f.c2.x, f.c0.x),
                 Minor(f.c2.x, f.c0.x, f.c2.y, f.c0.y)),
               V3(Minor(f.c0.y, f.c1.y, f.c0.z, f.c1.z), Minor(f.c0.z, f.c1.z, f.c0.x, f.c1.x),
                 Minor(f.c0.x, f.c1.x, f.c0.y, f.c1.y)))
  {
    hide Cross, Minor;
    CrossMinors(f.c1, f.c2);
    CrossMinors(f.c2, f.c0);
    CrossMinors(f.c0, f.c1);
  }

  lemma DetTranspose(f: M3)
    ensures Det(Transpose(f)) == Det(f)
  {
  }

  lemma InvariantsTranspose(f: M3)
    ensures Invariants(Transpose(f)) == Invariants(f)
  {
    hide *;
    InvariantsByMinors(f);
    InvariantsByMinors(Transpose(f));
    CofactorsTranspose(f);
    DetTranspose(f);
    InnerTranspose(f, f);
    InnerTranspose(Cofactors(f), Cofactors(f));
  }

  // Rotations before and after a deformation leave its invariants alone.
  lemma InvariantsRotate(u: M3, f: M3, v: M3)
    requires Orthogonal(u) && Orthogonal(v)
    ensures Invariants(Rotate(u, f, v)) == Invariants(f)
  {
    hide Invariants, MatMul, Transpose, Orthogonal;
    var uf := MatMul(u, f);
    InvariantsLeft(u, f);
    InvariantsTranspose(uf);
    InvariantsLeft(v, Transpose(uf));
    TransposeMatMul(v, Transpose(uf));
    TransposeInvolution(uf);
    InvariantsTranspose(MatMul(v, Transpose(uf)));
  }

  // ---- Taylor coefficients of the invariants along f + t * x ---------------

  function FirstVariation(f: M3, x: M3): V3 {
    V3(2.0 * Inner(f, x),
       2.0 * Inner(Cofactors(f), MixedCofactors(f, x)),
       2.0 * (Det(f) * Inner(Cofactors(f), x)))
  }

  function SecondVariation(f: M3, x: M3): V3 {
    var d1 := Inner(Cofactors(f), x);
    var m := MixedCofactors(f, x);
    V3(Inner(x, x),
       Inner(m, m) + 2.0 * Inner(Cofactors(f), Cofactors(x)),
       d1 * d1 + 2.0 * (Det(f) * Inner(Cofactors(x), f)))
  }

  // What remains, divided by the cube of t: a polynomial in t.
  function HigherVariation(f: M3, x: M3, t: real): V3 {
    V3(0.0,
       2.0 * Inner(MixedCofactors(f, x), Cofactors(x)) + t * Inner(Cofactors(x), Cofactors(x)),
       SquareRemainder(Det(f), Inner(Cofactors(f), x), Inner(Cofactors(x), f), Det(x), t))
  }

  function SquareRemainder(k0: real, k1: real, k2: real, k3: real, t: real): real {
    2.0 * k0 * k3 + 2.0 * k1 * k2 + t * (k2 * k2 + 2.0 * k1 * k3) + t * t * (2.0 * k2 * k3) + t * t * t * (k3 * k3)
  }

  // i + t * p + t^2 * q + t^3 * r
  function Taylor(i: real, p: real, q: real, r: real, t: real): real {
    i + (t * p + t * t * q + t * t * t * r)
  }

  function Expansion(i: V3, p: V3, q: V3, r: V3, t: real): V3 {
    V3(Taylor(i.x, p.x, q.x, r.x, t), Taylor(i.y, p.y, q.y, r.y, t), Taylor(i.z, p.z, q.z, r.z, t))
  }

  lemma InnerLine(f: M3, x: M3, t: real)
    ensures Inner(Along(f, x, t), Along(f, x, t)) == Taylor(Inner(f, f), 2.0 * Inner(f, x), Inner(x, x), 0.0, t)
  {
    hide Dot;
    DotLine(f.c0, x.c0, t);
    DotLine(f.c1, x.c1, t);
    DotLine(f.c2, x.c2, t);
  }

  lemma DotLine(a: V3, b: V3, t: real)
    ensures var l := Add(a, Scale(t, b)); Dot(l, l) == Dot(a, a) + t * (2.0 * Dot(a, b)) + t * t * Dot(b, b)
  {
    var l := Add(a, Scale(t, b));
    hide *;
    DotAdd(a, Scale(t, b), l);
    DotScale(t, b, l);
    DotAdd(a, Scale(t, b), a);
    DotScale(t, b, a);
    DotAdd(a, Scale(t, b), b);
    DotScale(t, b, b);
    DotSymmetric(a, b);
    DotLineKernel(Dot(a, a), Dot(a, b), Dot(b, b), t, Dot(a, l), Dot(b, l), Dot(l, l));
  }

  lemma DotLineKernel(aa: real, ab: real, bb: real, t: real, al: real, bl: real, ll: real)
    requires al == aa + t * ab && bl == ab + t * bb && ll == al + t * bl
    ensures ll == aa + t * (2.0 * ab) + t * t * bb
  {
  }

  lemma InnerQuadraticM(c: M3, m: M3, k: M3, t: real)
    ensures Inner(QuadraticM(c, m, k, t), QuadraticM(c, m, k, t))
         == Quartic(Inner(c, c), 2.0 * Inner(c, m), Inner(m, m) + 2.0 * Inner(c, k), 2.0 * Inner(m, k), Inner(k, k), t)
  {
    hide Dot, Quadratic;
    DotQuadratic(c.c0, m.c0, k.c0, t);
    DotQuadratic(c.c1, m.c1, k.c1, t);
    DotQuadratic(c.c2, m.c2, k.c2, t);
  }

  // The invariants along any line through any deformation gradient.
  lemma InvariantsAlong(f: M3, x: M3, t: real)
    ensures Invariants(Along(f, x, t))
         == Expansion(Invariants(f), FirstVariation(f, x), SecondVariation(f, x), HigherVariation(f, x, t), t)
  {
    hide Inner, Cofactors, MixedCofactors, Det, QuadraticM, Cubic, Along, Invariants, SquareRemainder, Taylor, Quartic;
    var i, p, q, r := Invariants(f), FirstVariation(f, x), SecondVariation(f, x), HigherVariation(f, x, t);
    InvariantsByMinors(f);
    InvariantsByMinors(Along(f, x, t));
    InnerLine(f, x, t);
    AreaLine(f, x, t, i.y, p.y, q.y, r.y);
    VolumeLine(f, x, t, i.z, p.z, q.z, r.z);
  }

  lemma AreaLine(f: M3, x: M3, t: real, i: real, p: real, q: real, r: real)
    requires var c, m, k := Cofactors(f), MixedCofactors(f, x), Cofactors(x);
      && i == Inner(c, c) && p == 2.0 * Inner(c, m) && q == Inner(m, m) + 2.0 * Inner(c, k)
      && r == 2.0 * Inner(m, k) + t * Inner(k, k)
    ensures Inner(Cofactors(Along(f, x, t)), Cofactors(Along(f, x, t))) == Taylor(i, p, q, r, t)
  {
    var c, m, k := Cofactors(f), MixedCofactors(f, x), Cofactors(x);
    hide *;
    CofactorsAlong(f, x, t);
    InnerQuadraticM(c, m, k, t);
    AreaKernel(Inner(c, c), Inner(c, m), Inner(m, m), Inner(c, k), Inner(m, k), Inner(k, k), t, i, p, q, r,
               Inner(Cofactors(Along(f, x, t)), Cofactors(Along(f, x, t))));
  }

  lemma AreaKernel(cc: real, cm: real, mm: real, ck: real, mk: real, kk: real, t: real,
                   i: real, p: real, q: real, r: real, total: real)
    requires i == cc && p == 2.0 * cm && q == mm + 2.0 * ck && r == 2.0 * mk + t * kk
    requires total == Quartic(cc, 2.0 * cm, mm + 2.0 * ck, 2.0 * mk, kk, t)
    ensures total == Taylor(i, p, q, r, t)
  {
  }

  lemma VolumeLine(f: M3, x: M3, t: real, i: real, p: real, q: real, r: real)
    requires var d0, d1, d2 := Det(f), Inner(Cofactors(f), x), Inner(Cofactors(x), f);
      && i == d0 * d0 && p == 2.0 * (d0 * d1) && q == d1 * d1 + 2.0 * (d0 * d2)
      && r == SquareRemainder(d0, d1, d2, Det(x), t)
    ensures Det(Along(f, x, t)) * Det(Along(f, x, t)) == Taylor(i, p, q, r, t)
  {
    hide *;
    DetAlong(f, x, t);
    VolumeKernel(Det(f), Inner(Cofactors(f), x), Inner(Cofactors(x), f), Det(x), t, i, p, q, r, Det(Along(f, x, t)));
  }

  lemma VolumeKernel(k0: real, k1: real, k2: real, k3: real, t: real, i: real, p: real, q: real, r: real, d: real)
    requires i == k0 * k0 && p == 2.0 * (k0 * k1) && q == k1 * k1 + 2.0 * (k0 * k2)
    requires r == SquareRemainder(k0, k1, k2, k3, t)
    requires d == Cubic(k0, k1, k2, k3, t)
    ensures d * d == Taylor(i, p, q, r, t)
  {
  }
}
