// The closed-form eigensystem of the Hessian of an isotropic energy of a 3x3
// deformation gradient (eigsys/eigsys_invariants_3.py:44-48, 68-111, 172-201).
module Eigensystem3 {
  import opened LinearAlgebra
  import opened Invariants3

  // ---- Variations at a diagonal deformation gradient ------------------------

  lemma CofactorsDiag(s: V3)
    ensures Cofactors(Diag(s)) == Diag(V3(s.y * s.z, s.z * s.x, s.x * s.y))
  {
  }

  lemma DetDiag(s: V3)
    ensures Det(Diag(s)) == s.x * s.y * s.z
  {
  }

  lemma InnerDiag(s: V3, y: M3)
    ensures Inner(Diag(s), y) == s.x * y.c0.x + s.y * y.c1.y + s.z * y.c2.z
  {
  }

  lemma MixedDiag0(s: V3, y: M3)
    ensures MixedCofactors(Diag(s), y).c0 == V3(s.y * y.c2.z + s.z * y.c1.y, -s.z * y.c1.x, -s.y * y.c2.x)
  {
  }

  lemma MixedDiag1(s: V3, y: M3)
    ensures MixedCofactors(Diag(s), y).c1 == V3(-s.z * y.c0.y, s.z * y.c0.x + s.x * y.c2.z, -s.x * y.c2.y)
  {
  }

  lemma MixedDiag2(s: V3, y: M3)
    ensures MixedCofactors(Diag(s), y).c2 == V3(-s.y * y.c0.z, -s.x * y.c1.z, s.x * y.c1.y + s.y * y.c0.x)
  {
  }

  // ---- The closed forms of the script ---------------------------------------

  // Columns gI1, gI2, gI3: the gradients of the invariants in the singular values.
  function DIda(s: V3): M3 {
    M3(Scale(2.0, s), Scale(2.0, AreaGradient(s.x, s.y, s.z)), Scale(2.0, VolumeGradient(s.x, s.y, s.z)))
  }

  function AreaGradient(a: real, b: real, c: real): V3 {
    V3(a * (b * b) + a * (c * c), b * (c * c) + b * (a * a), c * (a * a) + c * (b * b))
  }

  function VolumeGradient(a: real, b: real, c: real): V3 {
    V3(a * (b * b) * (c * c), b * (c * c) * (a * a), c * (a * a) * (b * b))
  }

  // The Hessians of the invariants in the singular values.
  function D2I1(s: V3): M3 {
    Doubly(1.0, 1.0, 1.0, 0.0, 0.0, 0.0)
  }

  function D2I2(s: V3): M3 {
    var a, b, c := s.x, s.y, s.z;
    Doubly(b * b + c * c, c * c + a * a, a * a + b * b, 2.0 * a * b, 2.0 * a * c, 2.0 * b * c)
  }

  function D2I3(s: V3): M3 {
    var a, b, c := s.x, s.y, s.z;
    Doubly(b * b * (c * c), c * c * (a * a), a * a * (b * b), 2.0 * a * b * (c * c), 2.0 * a * (b * b) * c,
      2.0 * (a * a) * b * c)
  }

  // Twice the symmetric matrix with diagonal p, q, r and off-diagonal d, e, g.
  function Doubly(p: real, q: real, r: real, d: real, e: real, g: real): M3 {
    M3(Scale(2.0, V3(p, d, e)), Scale(2.0, V3(d, q, g)), Scale(2.0, V3(e, g, r)))
  }

  function Form(h: M3, v: V3): real {
    Dot(v, MulVec(h, v))
  }

  // The diagonal of y, and the form of one antisymmetric and one symmetric
  // off-diagonal mode with eigenvalues lam and mu, halved as in a Taylor series.
  function Diagonal(y: M3): V3 {
    V3(y.c0.x, y.c1.y, y.c2.z)
  }

  function PairForm(lam: real, mu: real, u: real, v: real): real {
    0.25 * (lam * Square(u - v) + mu * Square(u + v))
  }

  // The three off-diagonal pairs, antisymmetric eigenvalues in l, symmetric in m.
  function PairSum(l: V3, m: V3, y: M3): real {
    PairForm(l.x, m.x, y.c1.x, y.c0.y) + PairForm(l.y, m.y, y.c2.x, y.c0.z) + PairForm(l.z, m.z, y.c2.y, y.c1.z)
  }

  // The part of the off-diagonal eigenvalues each of I2 and I3 contributes.
  function AreaAnti(a: real, b: real, c: real): V3 {
    V3(2.0 * (a * b + c * c), 2.0 * (a * c + b * b), 2.0 * (b * c + a * a))
  }

  function AreaSym(a: real, b: real, c: real): V3 {
    V3(2.0 * (c * c - a * b), 2.0 * (b * b - a * c), 2.0 * (a * a - b * c))
  }

  function VolumeAnti(a: real, b: real, c: real): V3 {
    var abc := a * b * c;
    V3(2.0 * (c * abc), 2.0 * (b * abc), 2.0 * (a * abc))
  }

  function VolumeSym(a: real, b: real, c: real): V3 {
    var abc := a * b * c;
    V3(-2.0 * (c * abc), -2.0 * (b * abc), -2.0 * (a * abc))
  }

  // ---- First variations ------------------------------------------------------

  lemma FirstVariationDiag(s: V3, y: M3)
    ensures FirstVariation(Diag(s), y) == MulVec(Transpose(DIda(s)), Diagonal(y))
  {
    hide Inner, Cofactors, MixedCofactors, Det, Diag, MulVec, Transpose, DIda;
    var f, n, m := Diag(s), V3(s.y * s.z, s.z * s.x, s.x * s.y), MixedCofactors(Diag(s), y);
    CofactorsDiag(s);
    DetDiag(s);
    InnerDiag(s, y);
    InnerDiag(n, y);
    InnerDiag(n, m);
    MixedDiag0(s, y);
    MixedDiag1(s, y);
    MixedDiag2(s, y);
    FirstKernel(s, Diagonal(y), n, m.c0.x, m.c1.y, m.c2.z, Det(f), Inner(Diag(n), y), FirstVariation(f, y));
    TransposeMulVec(DIda(s), Diagonal(y));
  }

  lemma FirstKernel(s: V3, d: V3, n: V3, m0: real, m1: real, m2: real, d0: real, d1: real, p: V3)
    requires n == V3(s.y * s.z, s.z * s.x, s.x * s.y)
    requires m0 == s.y * d.z + s.z * d.y && m1 == s.z * d.x + s.x * d.z && m2 == s.x * d.y + s.y * d.x
    requires d0 == s.x * s.y * s.z && d1 == n.x * d.x + n.y * d.y + n.z * d.z
    requires p.x == 2.0 * (s.x * d.x + s.y * d.y + s.z * d.z)
    requires p.y == 2.0 * (n.x * m0 + n.y * m1 + n.z * m2)
    requires p.z == 2.0 * (d0 * d1)
    ensures p == V3(Dot(DIda(s).c0, d), Dot(DIda(s).c1, d), Dot(DIda(s).c2, d))
  {
    hide Dot, Scale, AreaGradient, VolumeGradient;
    Doubled(s, d);
    FirstArea(s, d, n, m0, m1, m2, AreaGradient(s.x, s.y, s.z));
    FirstVolume(s, d, n, d0, d1, VolumeGradient(s.x, s.y, s.z));
  }

  lemma FirstArea(s: V3, d: V3, n: V3, m0: real, m1: real, m2: real, g: V3)
    requires n == V3(s.y * s.z, s.z * s.x, s.x * s.y) && g == AreaGradient(s.x, s.y, s.z)
    requires m0 == s.y * d.z + s.z * d.y && m1 == s.z * d.x + s.x * d.z && m2 == s.x * d.y + s.y * d.x
    ensures Dot(Scale(2.0, g), d) == 2.0 * (n.x * m0 + n.y * m1 + n.z * m2)
  {
    hide Dot, Scale, AreaGradient;
    Doubled(g, d);
    AreaScalars(s.x, s.y, s.z, d.x, d.y, d.z, n.x, n.y, n.z, m0, m1, m2, g);
  }

  lemma FirstVolume(s: V3, d: V3, n: V3, d0: real, d1: real, h: V3)
    requires n == V3(s.y * s.z, s.z * s.x, s.x * s.y) && h == VolumeGradient(s.x, s.y, s.z)
    requires d0 == s.x * s.y * s.z && d1 == n.x * d.x + n.y * d.y + n.z * d.z
    ensures Dot(Scale(2.0, h), d) == 2.0 * (d0 * d1)
  {
    hide Dot, Scale, VolumeGradient;
    Doubled(h, d);
    VolumeScalars(s.x, s.y, s.z, d.x, d.y, d.z, n.x, n.y, n.z, d0, d1, h);
  }

  lemma Doubled(g: V3, d: V3)
    ensures Dot(Scale(2.0, g), d) == 2.0 * (g.x * d.x + g.y * d.y + g.z * d.z)
  {
    DotScale(2.0, g, d);
    hide Scale;
  }

  lemma AreaScalars(a: real, b: real, c: real, u: real, v: real, w: real, n0: real, n1: real, n2: real,
                    m0: real, m1: real, m2: real, g: V3)
    requires n0 == b * c && n1 == c * a && n2 == a * b
    requires m0 == b * w + c * v && m1 == c * u + a * w && m2 == a * v + b * u
    requires g == AreaGradient(a, b, c)
    ensures n0 * m0 + n1 * m1 + n2 * m2 == g.x * u + g.y * v + g.z * w
  {
  }

  lemma VolumeScalars(a: real, b: real, c: real, u: real, v: real, w: real, n0: real, n1: real, n2: real,
                      d0: real, d1: real, g: V3)
    requires n0 == b * c && n1 == c * a && n2 == a * b
    requires d0 == a * b * c && d1 == n0 * u + n1 * v + n2 * w
    requires g == VolumeGradient(a, b, c)
    ensures d0 * d1 == g.x * u + g.y * v + g.z * w
  {
  }

  // ---- Second variations -----------------------------------------------------

  lemma DoublyForm(m: M3, p: real, q: real, r: real, d: real, e: real, g: real, v: V3)
    requires m.c0.x == 2.0 * p && m.c1.y == 2.0 * q && m.c2.z == 2.0 * r
    requires m.c1.x == 2.0 * d && m.c0.y == 2.0 * d && m.c2.x == 2.0 * e && m.c0.z == 2.0 * e && m.c2.y == 2.0 * g
      && m.c1.z == 2.0 * g
    ensures Form(m, v)
         == 2.0 * (v.x * (p * v.x + d * v.y + e * v.z) + v.y * (d * v.x + q * v.y + g * v.z)
           + v.z * (e * v.x + g * v.y + r * v.z))
  {
    var w := MulVec(m, v);
    DoublyKernel(m.c0.x, m.c1.x, m.c2.x, p, d, e, v.x, v.y, v.z, w.x);
    DoublyKernel(m.c0.y, m.c1.y, m.c2.y, d, q, g, v.x, v.y, v.z, w.y);
    DoublyKernel(m.c0.z, m.c1.z, m.c2.z, e, g, r, v.x, v.y, v.z, w.z);
    hide MulVec;
    PairScale(w.x, 2.0 * (p * v.x + d * v.y + e * v.z), v.x);
    PairScale(w.y, 2.0 * (d * v.x + q * v.y + g * v.z), v.y);
    PairScale(w.z, 2.0 * (e * v.x + g * v.y + r * v.z), v.z);
  }

  lemma DoublyKernel(m0: real, m1: real, m2: real, p: real, d: real, e: real, x: real, y: real, z: real, w: real)
    requires m0 == 2.0 * p && m1 == 2.0 * d && m2 == 2.0 * e
    requires w == x * m0 + y * m1 + z * m2
    ensures w == 2.0 * (p * x + d * y + e * z)
  {
  }

  // A pair whose eigenvalues are 2 (q + p) and 2 (q - p).
  lemma PairModes(lam: real, mu: real, p: real, q: real, u: real, v: real)
    requires lam == 2.0 * (p + q) && mu == 2.0 * (q - p)
    ensures PairForm(lam, mu, u, v) == q * (u * u + v * v) - 2.0 * (p * (u * v))
  {
    PairExpand(lam, mu, u, v);
    assert lam + mu == 4.0 * q && mu - lam == -4.0 * p;
    hide PairForm;
    PairScale(lam + mu, 4.0 * q, u * u + v * v);
    PairScale(mu - lam, -4.0 * p, u * v);
  }

  lemma PairScale(x: real, y: real, z: real)
    requires x == y
    ensures x * z == y * z
  {
  }

  lemma PairExpand(lam: real, mu: real, u: real, v: real)
    ensures PairForm(lam, mu, u, v) == 0.25 * ((lam + mu) * (u * u + v * v)) + 0.5 * ((mu - lam) * (u * v))
  {
  }

  lemma AreaSecond(a: real, b: real, c: real, n0: real, n1: real, n2: real,
                   y00: real, y10: real, y20: real, y01: real, y11: real, y21: real, y02: real, y12: real, y22: real,
                   m00: real, m11: real, m22: real, k0: real, k1: real, k2: real)
    requires n0 == b * c && n1 == c * a && n2 == a * b
    requires m00 == b * y22 + c * y11 && m11 == c * y00 + a * y22 && m22 == a * y11 + b * y00
    requires k0 == y11 * y22 - y21 * y12 && k1 == y22 * y00 - y02 * y20 && k2 == y00 * y11 - y10 * y01
    ensures m00 * m00 + c * y01 * (c * y01) + b * y02 * (b * y02)
          + (c * y10 * (c * y10) + m11 * m11 + a * y12 * (a * y12))
          + (b * y20 * (b * y20) + a * y21 * (a * y21) + m22 * m22)
          + 2.0 * (n0 * k0 + n1 * k1 + n2 * k2)
         == y00 * ((b * b + c * c) * y00 + 2.0 * a * b * y11 + 2.0 * a * c * y22)
          + y11 * (2.0 * a * b * y00 + (c * c + a * a) * y11 + 2.0 * b * c * y22)
          + y22 * (2.0 * a * c * y00 + 2.0 * b * c * y11 + (a * a + b * b) * y22)
          + (c * c * (y01 * y01 + y10 * y10) - 2.0 * (a * b * (y01 * y10)))
          + (b * b * (y02 * y02 + y20 * y20) - 2.0 * (a * c * (y02 * y20)))
          + (a * a * (y12 * y12 + y21 * y21) - 2.0 * (b * c * (y12 * y21)))
  {
  }

  // The diagonal and the off-diagonal part of twice the second variation of I3.
  function VolumeBlock(s: V3, v: V3): real {
    v.x * (s.y * s.y * (s.z * s.z) * v.x + 2.0 * s.x * s.y * (s.z * s.z) * v.y + 2.0 * s.x * (s.y * s.y) * s.z * v.z)
      + v.y * (2.0 * s.x * s.y * (s.z * s.z) * v.x + s.z * s.z * (s.x * s.x) * v.y
        + 2.0 * (s.x * s.x) * s.y * s.z * v.z)
      + v.z * (2.0 * s.x * (s.y * s.y) * s.z * v.x + 2.0 * (s.x * s.x) * s.y * s.z * v.y
        + s.x * s.x * (s.y * s.y) * v.z)
  }

  function VolumePairs(s: V3, y: M3): real {
    var abc := s.x * s.y * s.z;
    -2.0 * (s.z * abc * (y.c1.x * y.c0.y)) - 2.0 * (s.y * abc * (y.c2.x * y.c0.z))
      - 2.0 * (s.x * abc * (y.c2.y * y.c1.z))
  }

  // det s, its first variation along y and the part of its second one from y's cofactors.
  ghost predicate VolumeParts(s: V3, y: M3, abc: real, d1: real, d2: real) {
    && abc == s.x * s.y * s.z
    && d1 == s.y * s.z * y.c0.x + s.z * s.x * y.c1.y + s.x * s.y * y.c2.z
    && d2 == s.x * (y.c1.y * y.c2.z - y.c1.z * y.c2.y) + s.y * (y.c2.z * y.c0.x - y.c2.x * y.c0.z)
      + s.z * (y.c0.x * y.c1.y - y.c0.y * y.c1.x)
  }

  function VolumeTotal(abc: real, d1: real, d2: real): real {
    d1 * d1 + 2.0 * (abc * d2)
  }

  lemma VolumeSecond(s: V3, y: M3, abc: real, d1: real, d2: real)
    requires VolumeParts(s, y, abc, d1, d2)
    ensures VolumeTotal(abc, d1, d2) == VolumeBlock(s, Diagonal(y)) + VolumePairs(s, y)
  {
    VolumeKernel(s.x, s.y, s.z, abc, d1, d2, y.c0.x, y.c1.x, y.c2.x, y.c0.y, y.c1.y, y.c2.y, y.c0.z, y.c1.z, y.c2.z);
  }

  lemma VolumeKernel(a: real, b: real, c: real, abc: real, d1: real, d2: real, y00: real, y01: real, y02: real,
                     y10: real, y11: real, y12: real, y20: real, y21: real, y22: real)
    requires abc == a * b * c && d1 == b * c * y00 + c * a * y11 + a * b * y22
    requires d2 == a * (y11 * y22 - y21 * y12) + b * (y22 * y00 - y02 * y20) + c * (y00 * y11 - y10 * y01)
    ensures d1 * d1 + 2.0 * (abc * d2)
         == y00 * (b * b * (c * c) * y00 + 2.0 * a * b * (c * c) * y11 + 2.0 * a * (b * b) * c * y22)
          + y11 * (2.0 * a * b * (c * c) * y00 + c * c * (a * a) * y11 + 2.0 * (a * a) * b * c * y22)
          + y22 * (2.0 * a * (b * b) * c * y00 + 2.0 * (a * a) * b * c * y11 + a * a * (b * b) * y22)
          + (-2.0 * (c * abc * (y01 * y10)) - 2.0 * (b * abc * (y02 * y20)) - 2.0 * (a * abc * (y12 * y21)))
  {
  }

  lemma InnerEntries(y: M3, z: M3)
    ensures Inner(y, z) == y.c0.x * z.c0.x + y.c0.y * z.c0.y + y.c0.z * z.c0.z
                         + (y.c1.x * z.c1.x + y.c1.y * z.c1.y + y.c1.z * z.c1.z)
                         + (y.c2.x * z.c2.x + y.c2.y * z.c2.y + y.c2.z * z.c2.z)
  {
  }

  lemma LengthSecondDiag(s: V3, y: M3)
    ensures SecondVariation(Diag(s), y).x
         == 0.5 * Form(D2I1(s), Diagonal(y)) + PairSum(V3(2.0, 2.0, 2.0), V3(2.0, 2.0, 2.0), y)
  {
    hide Inner, Cofactors, MixedCofactors, Det, Diag, PairForm, Form;
    InnerEntries(y, y);
    PairModes(2.0, 2.0, 0.0, 1.0, y.c1.x, y.c0.y);
    PairModes(2.0, 2.0, 0.0, 1.0, y.c2.x, y.c0.z);
    PairModes(2.0, 2.0, 0.0, 1.0, y.c2.y, y.c1.z);
    DoublyForm(D2I1(s), 1.0, 1.0, 1.0, 0.0, 0.0, 0.0, Diagonal(y));
  }

  lemma MixedSquare(s: V3, y: M3, m: M3, m0: real, m1: real, m2: real)
    requires m == M3(V3(m0, -s.z * y.c1.x, -s.y * y.c2.x), V3(-s.z * y.c0.y, m1, -s.x * y.c2.y),
      V3(-s.y * y.c0.z, -s.x * y.c1.z, m2))
    ensures Inner(m, m) == m0 * m0 + s.z * y.c1.x * (s.z * y.c1.x) + s.y * y.c2.x * (s.y * y.c2.x)
                         + (s.z * y.c0.y * (s.z * y.c0.y) + m1 * m1 + s.x * y.c2.y * (s.x * y.c2.y))
                         + (s.y * y.c0.z * (s.y * y.c0.z) + s.x * y.c1.z * (s.x * y.c1.z) + m2 * m2)
  {
    hide Dot;
    DotSelfEntries(m.c0);
    DotSelfEntries(m.c1);
    DotSelfEntries(m.c2);
  }

  lemma DotSelfEntries(v: V3)
    ensures Dot(v, v) == v.x * v.x + v.y * v.y + v.z * v.z
  {
  }

  lemma CofactorDiagonal(y: M3)
    ensures Cofactors(y).c0.x == y.c1.y * y.c2.z - y.c1.z * y.c2.y
    ensures Cofactors(y).c1.y == y.c2.z * y.c0.x - y.c2.x * y.c0.z
    ensures Cofactors(y).c2.z == y.c0.x * y.c1.y - y.c0.y * y.c1.x
  {
  }

  lemma PairSumArea(a: real, b: real, c: real, y: M3)
    ensures PairSum(AreaAnti(a, b, c), AreaSym(a, b, c), y)
         == (c * c * (y.c1.x * y.c1.x + y.c0.y * y.c0.y) - 2.0 * (a * b * (y.c1.x * y.c0.y)))
          + (b * b * (y.c2.x * y.c2.x + y.c0.z * y.c0.z) - 2.0 * (a * c * (y.c2.x * y.c0.z)))
          + (a * a * (y.c2.y * y.c2.y + y.c1.z * y.c1.z) - 2.0 * (b * c * (y.c2.y * y.c1.z)))
  {
    hide PairForm;
    var l, r := AreaAnti(a, b, c), AreaSym(a, b, c);
    PairModes(l.x, r.x, a * b, c * c, y.c1.x, y.c0.y);
    PairModes(l.y, r.y, a * c, b * b, y.c2.x, y.c0.z);
    PairModes(l.z, r.z, b * c, a * a, y.c2.y, y.c1.z);
  }

  lemma PairSumVolume(s: V3, y: M3)
    ensures PairSum(VolumeAnti(s.x, s.y, s.z), VolumeSym(s.x, s.y, s.z), y) == VolumePairs(s, y)
  {
    hide PairForm;
    var l, r, abc := VolumeAnti(s.x, s.y, s.z), VolumeSym(s.x, s.y, s.z), s.x * s.y * s.z;
    PairModes(l.x, r.x, s.z * abc, 0.0, y.c1.x, y.c0.y);
    PairModes(l.y, r.y, s.y * abc, 0.0, y.c2.x, y.c0.z);
    PairModes(l.z, r.z, s.x * abc, 0.0, y.c2.y, y.c1.z);
  }

  lemma MixedDiag(s: V3, y: M3)
    ensures MixedCofactors(Diag(s), y)
         == M3(V3(s.y * y.c2.z + s.z * y.c1.y, -s.z * y.c1.x, -s.y * y.c2.x),
               V3(-s.z * y.c0.y, s.z * y.c0.x + s.x * y.c2.z, -s.x * y.c2.y),
               V3(-s.y * y.c0.z, -s.x * y.c1.z, s.x * y.c1.y + s.y * y.c0.x))
  {
    hide MixedCofactors, Diag;
    MixedDiag0(s, y);
    MixedDiag1(s, y);
    MixedDiag2(s, y);
  }

  lemma AreaVariation(s: V3, y: M3) returns (m0: real, m1: real, m2: real, k: M3)
    ensures SecondVariation(Diag(s), y).y
         == m0 * m0 + s.z * y.c1.x * (s.z * y.c1.x) + s.y * y.c2.x * (s.y * y.c2.x)
          + (s.z * y.c0.y * (s.z * y.c0.y) + m1 * m1 + s.x * y.c2.y * (s.x * y.c2.y))
          + (s.y * y.c0.z * (s.y * y.c0.z) + s.x * y.c1.z * (s.x * y.c1.z) + m2 * m2)
          + 2.0 * (s.y * s.z * k.c0.x + s.z * s.x * k.c1.y + s.x * s.y * k.c2.z)
    ensures m0 == s.y * y.c2.z + s.z * y.c1.y && m1 == s.z * y.c0.x + s.x * y.c2.z && m2 == s.x * y.c1.y + s.y * y.c0.x
    ensures k == Cofactors(y)
  {
    m0, m1, m2 := s.y * y.c2.z + s.z * y.c1.y, s.z * y.c0.x + s.x * y.c2.z, s.x * y.c1.y + s.y * y.c0.x;
    k := Cofactors(y);
    hide Inner, Cofactors, MixedCofactors, Det, Diag;
    CofactorsDiag(s);
    InnerDiag(V3(s.y * s.z, s.z * s.x, s.x * s.y), k);
    MixedDiag(s, y);
    MixedSquare(s, y, MixedCofactors(Diag(s), y), m0, m1, m2);
  }

  lemma FormArea(s: V3, v: V3, a: real, b: real, c: real)
    requires s == V3(a, b, c)
    ensures Form(D2I2(s), v)
         == 2.0 * (v.x * ((b * b + c * c) * v.x + 2.0 * a * b * v.y + 2.0 * a * c * v.z)
                 + v.y * (2.0 * a * b * v.x + (c * c + a * a) * v.y + 2.0 * b * c * v.z)
                 + v.z * (2.0 * a * c * v.x + 2.0 * b * c * v.y + (a * a + b * b) * v.z))
  {
    hide Form;
    DoublyForm(D2I2(s), b * b + c * c, c * c + a * a, a * a + b * b, 2.0 * a * b, 2.0 * a * c, 2.0 * b * c, v);
  }

  lemma DiagonalIs(y: M3)
    ensures Diagonal(y) == V3(y.c0.x, y.c1.y, y.c2.z)
  {
  }

  lemma AreaSecondDiag(s: V3, y: M3)
    ensures SecondVariation(Diag(s), y).y
         == 0.5 * Form(D2I2(s), Diagonal(y)) + PairSum(AreaAnti(s.x, s.y, s.z), AreaSym(s.x, s.y, s.z), y)
  {
    hide *;
    var a, b, c := s.x, s.y, s.z;
    var m0, m1, m2, k := AreaVariation(s, y);
    CofactorDiagonal(y);
    DiagonalIs(y);
    FormArea(s, Diagonal(y), a, b, c);
    PairSumArea(a, b, c, y);
    AreaSecond(a, b, c, b * c, c * a, a * b, y.c0.x, y.c0.y, y.c0.z, y.c1.x, y.c1.y, y.c1.z, y.c2.x, y.c2.y, y.c2.z,
               m0, m1, m2, k.c0.x, k.c1.y, k.c2.z);
  }

  lemma VolumeVariation(s: V3, y: M3)
    ensures SecondVariation(Diag(s), y).z ==
      VolumeTotal(Det(Diag(s)), Inner(Cofactors(Diag(s)), y), Inner(Cofactors(y), Diag(s)))
  {
    hide Inner, Cofactors, MixedCofactors, Det, Diag;
  }

  lemma VolumePartsAre(s: V3, y: M3)
    ensures VolumeParts(s, y, Det(Diag(s)), Inner(Cofactors(Diag(s)), y), Inner(Cofactors(y), Diag(s)))
  {
    hide Inner, Cofactors, MixedCofactors, Det, Diag;
    var n, k := V3(s.y * s.z, s.z * s.x, s.x * s.y), Cofactors(y);
    CofactorsDiag(s);
    DetDiag(s);
    InnerDiag(n, y);
    InnerDiag(s, k);
    InnerSymmetric(k, Diag(s));
    CofactorDiagonal(y);
  }

  lemma FormVolume(s: V3, v: V3)
    ensures Form(D2I3(s), v) == 2.0 * VolumeBlock(s, v)
  {
    hide Form;
    DoublyForm(D2I3(s), s.y * s.y * (s.z * s.z), s.z * s.z * (s.x * s.x), s.x * s.x * (s.y * s.y),
               2.0 * s.x * s.y * (s.z * s.z), 2.0 * s.x * (s.y * s.y) * s.z, 2.0 * (s.x * s.x) * s.y * s.z, v);
  }

  lemma VolumeSecondDiag(s: V3, y: M3)
    ensures SecondVariation(Diag(s), y).z
         == 0.5 * Form(D2I3(s), Diagonal(y)) + PairSum(VolumeAnti(s.x, s.y, s.z), VolumeSym(s.x, s.y, s.z), y)
  {
    hide *;
    VolumeVariation(s, y);
    VolumePartsAre(s, y);
    FormVolume(s, Diagonal(y));
    PairSumVolume(s, y);
    VolumeSecond(s, y, Det(Diag(s)), Inner(Cofactors(Diag(s)), y), Inner(Cofactors(y), Diag(s)));
  }

  lemma InnerSymmetric(a: M3, b: M3)
    ensures Inner(a, b) == Inner(b, a)
  {
    hide Dot;
    DotSymmetric(a.c0, b.c0);
    DotSymmetric(a.c1, b.c1);
    DotSymmetric(a.c2, b.c2);
  }
}
