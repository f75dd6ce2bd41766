// Gradients of the invariants of a 3x3 deformation gradient as the script
// writes them, and the adjugate its loops build
// (eigsys/eigsys_invariants_3.py:51-65).
module Gradients3 {
  import opened LinearAlgebra
  import opened Invariants3

  // The adjugate: the cofactors, transposed.
  function Adjugate(m: M3): M3 {
    Transpose(Cofactors(m))
  }

  // [gI1, gI2, gI3]
  function GradI1(f: M3): M3 {
    ScaleM(2.0, f)
  }

  function GradI2(f: M3): M3 {
    var c := GramMatrix(f);
    ScaleM(2.0, SubM(ScaleM(Trace(c), f), MatMul(f, c)))
  }

  function GradI3(f: M3): M3 {
    ScaleM(2.0, MatMul(f, Transpose(Adjugate(GramMatrix(f)))))
  }

  function SubM(a: M3, b: M3): M3 {
    M3(Sub(a.c0, b.c0), Sub(a.c1, b.c1), Sub(a.c2, b.c2))
  }

  // ---- adj(m) @ m == det(m) * identity --------------------------------------

  lemma AdjugateInverts(m: M3, w: V3)
    ensures MulVec(Adjugate(m), MulVec(m, w)) == Scale(Det(m), w)
  {
    var c := Cofactors(m);
    var v := MulVec(m, w);
    TransposeMulVec(c, v);
    hide MulVec, Transpose, Dot, Cross, Combine;
    CofactorProducts(m, w);
  }

  lemma CofactorProducts(m: M3, w: V3)
    ensures Dot(Cofactors(m).c0, MulVec(m, w)) == Det(m) * w.x
    ensures Dot(Cofactors(m).c1, MulVec(m, w)) == Det(m) * w.y
    ensures Dot(Cofactors(m).c2, MulVec(m, w)) == Det(m) * w.z
  {
    hide Dot, Cross, Combine;
    var a, b, c, v := m.c0, m.c1, m.c2, MulVec(m, w);
    DotSymmetric(Cross(b, c), v);
    DotSymmetric(Cross(c, a), v);
    DotSymmetric(Cross(a, b), v);
    DotCombine(w.x, a, w.y, b, w.z, c, Cross(b, c));
    DotCombine(w.x, a, w.y, b, w.z, c, Cross(c, a));
    DotCombine(w.x, a, w.y, b, w.z, c, Cross(a, b));
    CrossSelf(b, c);
    CrossSelf(c, a);
    CrossSelf(a, b);
    MixedProductCyclic(a, b, c);
    MixedProductCyclic(c, a, b);
  }

  // ---- The gradients are the first variations -------------------------------

  lemma InnerScale(k: real, a: M3, x: M3)
    ensures Inner(ScaleM(k, a), x) == k * Inner(a, x)
  {
    hide Dot, Scale;
    DotScale(k, a.c0, x.c0);
    DotScale(k, a.c1, x.c1);
    DotScale(k, a.c2, x.c2);
  }

  lemma InnerSub(a: M3, b: M3, x: M3)
    ensures Inner(SubM(a, b), x) == Inner(a, x) - Inner(b, x)
  {
    hide Dot, Sub;
    DotSubLeft(a.c0, b.c0, x.c0);
    DotSubLeft(a.c1, b.c1, x.c1);
    DotSubLeft(a.c2, b.c2, x.c2);
  }

  lemma DotSubLeft(a: V3, b: V3, c: V3)
    ensures Dot(Sub(a, b), c) == Dot(a, c) - Dot(b, c)
  {
    hide Dot, Sub;
    DotSub(c, a, b);
    DotSymmetric(c, a);
    DotSymmetric(c, b);
    DotSymmetric(c, Sub(a, b));
  }

  // One column of the mixed cofactors against the matching cofactor.
  lemma MixedProduct(a: V3, b: V3, p: V3, q: V3)
    ensures Dot(Cross(a, b), Add(Cross(a, q), Cross(p, b)))
         == Dot(a, a) * Dot(b, q) - Dot(a, q) * Dot(b, a) + (Dot(a, p) * Dot(b, b) - Dot(a, b) * Dot(b, p))
  {
    hide Dot, Cross, Add;
    var n := Cross(a, b);
    DotAdd(Cross(a, q), Cross(p, b), n);
    CrossDotCross(a, b, a, q);
    CrossDotCross(a, b, p, b);
  }

  lemma GradI2Inner(f: M3, x: M3)
    ensures var c := GramMatrix(f);
      Inner(GradI2(f), x) == 2.0 * (Trace(c) * Inner(f, x) - Inner(MatMul(f, c), x))
  {
    hide ScaleM, SubM, MatMul, GramMatrix, Trace, Inner;
    var c := GramMatrix(f);
    var s := ScaleM(Trace(c), f);
    InnerScale(2.0, SubM(s, MatMul(f, c)), x);
    InnerSub(s, MatMul(f, c), x);
    InnerScale(Trace(c), f, x);
  }

  lemma InnerColumns(f: M3, x: M3)
    ensures Inner(f, x) == Dot(f.c0, x.c0) + Dot(f.c1, x.c1) + Dot(f.c2, x.c2)
  {
  }

  lemma MixedInner(f: M3, x: M3)
    ensures var a, b, d, p, q, r := f.c0, f.c1, f.c2, x.c0, x.c1, x.c2;
      Inner(Cofactors(f), MixedCofactors(f, x))
      == Dot(Cross(b, d), Add(Cross(b, r), Cross(q, d)))
       + Dot(Cross(d, a), Add(Cross(d, p), Cross(r, a)))
       + Dot(Cross(a, b), Add(Cross(a, q), Cross(p, b)))
  {
    hide Dot, Cross, Add;
  }

  lemma GramTrace(f: M3)
    ensures Trace(GramMatrix(f)) == Dot(f.c0, f.c0) + Dot(f.c1, f.c1) + Dot(f.c2, f.c2)
  {
    hide Dot, GramMatrix;
    GramEntries(f);
  }

  lemma GradI2IsDerivative(f: M3, x: M3)
    ensures Inner(GradI2(f), x) == 2.0 * Inner(Cofactors(f), MixedCofactors(f, x))
  {
    var c := GramMatrix(f);
    var a, b, d, p, q, r := f.c0, f.c1, f.c2, x.c0, x.c1, x.c2;
    hide *;
    InnerColumns(f, x);
    GradI2Inner(f, x);
    MixedInner(f, x);
    GramTrace(f);
    InnerGram(f, x);
    MixedProduct(b, d, q, r);
    MixedProduct(d, a, r, p);
    MixedProduct(a, b, p, q);
    DotSymmetric(a, b);
    DotSymmetric(a, d);
    DotSymmetric(b, d);
    GradI2Kernel(Dot(a, a), Dot(b, b), Dot(d, d), Dot(a, b), Dot(b, a), Dot(a, d), Dot(d, a), Dot(b, d), Dot(d, b),
                 Dot(a, p), Dot(b, p), Dot(d, p), Dot(a, q), Dot(b, q), Dot(d, q), Dot(a, r), Dot(b, r), Dot(d, r),
                 Dot(Cross(b, d), Add(Cross(b, r), Cross(q, d))),
                 Dot(Cross(d, a), Add(Cross(d, p), Cross(r, a))),
                 Dot(Cross(a, b), Add(Cross(a, q), Cross(p, b))),
                 Trace(c), Inner(f, x), Inner(MatMul(f, c), x));
  }

  lemma GradI2Kernel(aa: real, bb: real, dd: real, ab: real, ba: real, ad: real, da: real, bd: real, db: real,
                     ap: real, bp: real, dp: real, aq: real, bq: real, dq: real, ar: real, br: real, dr: real,
                     u: real, v: real, w: real, tr: real, fx: real, fcx: real)
    requires ab == ba && ad == da && bd == db
    requires u == bb * dr - br * db + (bq * dd - bd * dq)
    requires v == dd * ap - dp * ad + (dr * aa - da * ar)
    requires w == aa * bq - aq * ba + (ap * bb - ab * bp)
    requires tr == aa + bb + dd && fx == ap + bq + dr
    requires fcx == aa * ap + ab * bp + ad * dp + (ab * aq + bb * bq + bd * dq) + (ad * ar + bd * br + dd * dr)
    ensures tr * fx - fcx == u + v + w
  {
  }

  lemma InnerGram(f: M3, x: M3)
    ensures var a, b, d, p, q, r := f.c0, f.c1, f.c2, x.c0, x.c1, x.c2;
      Inner(MatMul(f, GramMatrix(f)), x)
      == Dot(a, a) * Dot(a, p) + Dot(a, b) * Dot(b, p) + Dot(a, d) * Dot(d, p)
       + (Dot(a, b) * Dot(a, q) + Dot(b, b) * Dot(b, q) + Dot(b, d) * Dot(d, q))
       + (Dot(a, d) * Dot(a, r) + Dot(b, d) * Dot(b, r) + Dot(d, d) * Dot(d, r))
  {
    hide Dot, Combine, GramMatrix;
    GramEntries(f);
    var a, b, d := f.c0, f.c1, f.c2;
    DotCombine(Dot(a, a), a, Dot(a, b), b, Dot(a, d), d, x.c0);
    DotCombine(Dot(a, b), a, Dot(b, b), b, Dot(b, d), d, x.c1);
    DotCombine(Dot(a, d), a, Dot(b, d), b, Dot(d, d), d, x.c2);
  }

  // F @ adj(F.T @ F) == det(F) * cofactors(F)
  lemma GradI3ByCofactors(f: M3)
    ensures MatMul(f, Transpose(Adjugate(GramMatrix(f)))) == ScaleM(Det(f), Cofactors(f))
  {
    var n := Cofactors(f);
    hide Dot, Cross, Combine, Scale, GramMatrix, Transpose;
    TransposeInvolution(Cofactors(GramMatrix(f)));
    CofactorsOfGram(f);
    GramEntries(n);
    DotSymmetric(n.c0, n.c1);
    DotSymmetric(n.c0, n.c2);
    DotSymmetric(n.c1, n.c2);
    Cramer(f.c0, f.c1, f.c2, n.c0);
    Cramer(f.c0, f.c1, f.c2, n.c1);
    Cramer(f.c0, f.c1, f.c2, n.c2);
  }

  // Minors of the Gram matrix are products of minors.
  lemma CofactorsOfGram(f: M3)
    ensures Cofactors(GramMatrix(f)) == GramMatrix(Cofactors(f))
  {
    hide Dot, GramMatrix, Cross, Cofactors, Times;
    var a, b, d := f.c0, f.c1, f.c2;
    var l, m, n := Cross(b, d), Cross(d, a), Cross(a, b);
    CofactorColumns(f);
    GramEntries(f);
    GramEntries(Cofactors(f));
    CrossTimes(b, d, b, d);
    CrossTimes(d, a, d, a);
    CrossTimes(a, b, a, b);
    CrossTimes(b, d, d, a);
    CrossTimes(b, d, a, b);
    CrossTimes(d, a, a, b);
    DotSymmetric(a, b);
    DotSymmetric(a, d);
    DotSymmetric(b, d);
    SymmetricCofactors(Dot(a, a), Dot(b, b), Dot(d, d), Dot(a, b), Dot(a, d), Dot(b, d),
                       Dot(l, l), Dot(m, m), Dot(n, n), Dot(l, m), Dot(l, n), Dot(m, n));
  }

  lemma CrossTimes(a: V3, b: V3, c: V3, d: V3)
    ensures Dot(Cross(a, b), Cross(c, d)) == Times(Dot(a, c), Dot(b, d)) - Times(Dot(a, d), Dot(b, c))
  {
    hide Dot, Cross;
    CrossDotCross(a, b, c, d);
  }

  lemma CofactorColumns(f: M3)
    ensures Cofactors(f) == M3(Cross(f.c1, f.c2), Cross(f.c2, f.c0), Cross(f.c0, f.c1))
  {
    hide Cross;
  }

  lemma SymmetricCofactors(aa: real, bb: real, dd: real, ab: real, ad: real, bd: real,
                           ll: real, mm: real, nn: real, lm: real, ln: real, mn: real)
    requires ll == Times(bb, dd) - Times(bd, bd) && mm == Times(dd, aa) - Times(ad, ad)
    requires nn == Times(aa, bb) - Times(ab, ab) && lm == Times(bd, ad) - Times(ab, dd)
    requires ln == Times(ab, bd) - Times(bb, ad) && mn == Times(ad, ab) - Times(bd, aa)
    ensures Cofactors(M3(V3(aa, ab, ad), V3(ab, bb, bd), V3(ad, bd, dd)))
         == M3(V3(ll, lm, ln), V3(lm, mm, mn), V3(ln, mn, nn))
  {
    hide Cross, Times, Cofactors;
    var p, q, r := V3(aa, ab, ad), V3(ab, bb, bd), V3(ad, bd, dd);
    CofactorColumns(M3(p, q, r));
    CrossEntries(q, r);
    CrossEntries(r, p);
    CrossEntries(p, q);
    TimesSwap(dd, ab);
    TimesSwap(ad, bb);
    TimesSwap(aa, bd);
  }

  lemma CrossEntries(p: V3, q: V3)
    ensures Cross(p, q) == V3(Times(p.y, q.z) - Times(p.z, q.y), Times(p.z, q.x) - Times(p.x, q.z),
                              Times(p.x, q.y) - Times(p.y, q.x))
  {
  }

  lemma TimesSwap(x: real, y: real)
    ensures Times(x, y) == Times(y, x)
  {
  }

  // ---- The gradients the script assembles are the derivatives ---------------

  // <gI_k(F), X> is the first variation of I_k: with InvariantsAlong, the
  // exact linear term of I_k(F + tX).
  lemma GradientsAreDerivatives(f: M3, x: M3)
    ensures FirstVariation(f, x) == V3(Inner(GradI1(f), x), Inner(GradI2(f), x), Inner(GradI3(f), x))
  {
    hide Inner, Cofactors, MixedCofactors, GradI2, MatMul, ScaleM, Transpose, GramMatrix, Adjugate, Det;
    InnerScale(2.0, f, x);
    GradI2IsDerivative(f, x);
    GradI3ByCofactors(f);
    InnerScale(2.0, ScaleM(Det(f), Cofactors(f)), x);
    InnerScale(Det(f), Cofactors(f), x);
  }
}
