// At distinct positive singular values every gradient and Hessian in (a, b, c) comes from a
// gradient and Hessian in the invariants: dI/da has an inverse there
// (eigsys/eigsys_invariants_3.py:68-97).
module SingularSolve {
  import opened LinearAlgebra
  import opened Gradients3
  import opened Eigensystem3
  import opened Hessian3
  import opened EigenvalueForms
  import opened SingularEnergies

  predicate Distinct(s: V3) {
    s.x != s.y && s.x != s.z && s.y != s.z
  }

  // ---- The determinant of dI/da -----------------------------------------------------------

  lemma Determinant(s: V3)
    ensures Det(DIda(s)) == 8.0 * Dot(s, Cross(AreaGradient(s.x, s.y, s.z), VolumeGradient(s.x, s.y, s.z)))
  {
    hide Dot, Cross, Scale, AreaGradient, VolumeGradient;
    var p, q := AreaGradient(s.x, s.y, s.z), VolumeGradient(s.x, s.y, s.z);
    CrossScale(2.0, p, Scale(2.0, q));
    CrossScale(2.0, q, p);
    DotScale(2.0, s, Cross(Scale(2.0, p), Scale(2.0, q)));
    DotScale(2.0, Cross(p, Scale(2.0, q)), s);
    DotScale(2.0, Cross(p, q), s);
    CrossScale(2.0, q, p);
    CrossRight(p, q);
  }

  lemma CrossRight(p: V3, q: V3)
    ensures Cross(p, Scale(2.0, q)) == Scale(2.0, Cross(p, q))
  {
    CrossScale(2.0, q, p);
    hide Cross, Scale;
  }

  // The entries of the gradients of I2 and I3 at singular value a, over its factor 2, for the
  // squares of the other two.
  predicate Entries(a: real, bb: real, cc: real, p: real, q: real) {
    p == a * (bb + cc) && q == a * (bb * cc)
  }

  function Part(b: real, c: real, aa: real, bb: real, cc: real): real {
    b * c * (aa * aa * (bb - cc))
  }

  lemma CrossPart(b: real, c: real, aa: real, bb: real, cc: real, pb: real, pc: real, qb: real, qc: real)
    requires Entries(b, cc, aa, pb, qb) && Entries(c, aa, bb, pc, qc)
    ensures Times(pb, qc) - Times(pc, qb) == Part(b, c, aa, bb, cc)
  {
    assert pb * qc == b * c * ((cc + aa) * (aa * bb));
    assert pc * qb == b * c * ((aa + bb) * (cc * aa));
    assert (cc + aa) * (aa * bb) - (aa + bb) * (cc * aa) == aa * aa * (bb - cc);
  }

  function Gaps(aa: real, bb: real, cc: real): real {
    (aa - bb) * (bb - cc) * (cc - aa)
  }

  lemma Vandermonde(aa: real, bb: real, cc: real)
    ensures aa * aa * (bb - cc) + bb * bb * (cc - aa) + cc * cc * (aa - bb) == -Gaps(aa, bb, cc)
  {
  }

  lemma GradientEntriesAre(a: real, b: real, c: real, aa: real, bb: real, cc: real)
    requires aa == a * a && bb == b * b && cc == c * c
    ensures var p, q := AreaGradient(a, b, c), VolumeGradient(a, b, c);
      Entries(a, bb, cc, p.x, q.x) && Entries(b, cc, aa, p.y, q.y) && Entries(c, aa, bb, p.z, q.z)
  {
  }

  function Product(a: real, b: real, c: real, aa: real, bb: real, cc: real): real {
    a * b * c * -Gaps(aa, bb, cc)
  }

  lemma TripleKernel(a: real, b: real, c: real, aa: real, bb: real, cc: real, k: real, l: real, m: real)
    requires k == Part(b, c, aa, bb, cc) && l == Part(c, a, bb, cc, aa) && m == Part(a, b, cc, aa, bb)
    ensures Times(a, k) + Times(b, l) + Times(c, m) == Product(a, b, c, aa, bb, cc)
  {
    Vandermonde(aa, bb, cc);
    hide Gaps;
    CommonFactor(a, b, c, aa * aa * (bb - cc), bb * bb * (cc - aa), cc * cc * (aa - bb), -Gaps(aa, bb, cc));
  }

  lemma CommonFactor(a: real, b: real, c: real, x: real, y: real, z: real, total: real)
    requires x + y + z == total
    ensures a * (b * c * x) + b * (c * a * y) + c * (a * b * z) == a * b * c * total
  {
    assert a * (b * c * x) == a * b * c * x;
    assert b * (c * a * y) == a * b * c * y;
    assert c * (a * b * z) == a * b * c * z;
  }

  lemma TripleIs(s: V3, aa: real, bb: real, cc: real)
    requires aa == s.x * s.x && bb == s.y * s.y && cc == s.z * s.z
    ensures Dot(s, Cross(AreaGradient(s.x, s.y, s.z), VolumeGradient(s.x, s.y, s.z))) ==
      Product(s.x, s.y, s.z, aa, bb, cc)
  {
    hide *;
    var p, q := AreaGradient(s.x, s.y, s.z), VolumeGradient(s.x, s.y, s.z);
    GradientEntriesAre(s.x, s.y, s.z, aa, bb, cc);
    CrossPart(s.y, s.z, aa, bb, cc, p.y, p.z, q.y, q.z);
    CrossPart(s.z, s.x, bb, cc, aa, p.z, p.x, q.z, q.x);
    CrossPart(s.x, s.y, cc, aa, bb, p.x, p.y, q.x, q.y);
    CrossEntries(p, q);
    var k, l, m := Part(s.y, s.z, aa, bb, cc), Part(s.z, s.x, bb, cc, aa), Part(s.x, s.y, cc, aa, bb);
    assert Cross(p, q) == V3(k, l, m);
    DotTimes(s, Cross(p, q));
    TripleKernel(s.x, s.y, s.z, aa, bb, cc, k, l, m);
  }

  lemma NonZeroProduct(x: real, y: real)
    requires x != 0.0 && y != 0.0
    ensures x * y != 0.0
  {
    ProductZero(x, y, x * y);
  }

  lemma SquaresApart(a: real, b: real)
    requires a > 0.0 && b > 0.0 && a != b
    ensures a * a - b * b != 0.0
  {
    NonZeroProduct(a - b, a + b);
    assert (a - b) * (a + b) == a * a - b * b;
  }

  lemma ThreeFactors(x: real, y: real, z: real)
    requires x != 0.0 && y != 0.0 && z != 0.0
    ensures x * y * z != 0.0
  {
    NonZeroProduct(x, y);
    NonZeroProduct(x * y, z);
  }

  lemma GapsNotZero(s: V3)
    requires Positive(s) && Distinct(s)
    ensures Gaps(s.x * s.x, s.y * s.y, s.z * s.z) != 0.0
  {
    SquaresApart(s.x, s.y);
    SquaresApart(s.y, s.z);
    SquaresApart(s.z, s.x);
    GapsFrom(s.x * s.x, s.y * s.y, s.z * s.z);
    hide *;
  }

  lemma GapsFrom(aa: real, bb: real, cc: real)
    requires aa - bb != 0.0 && bb - cc != 0.0 && cc - aa != 0.0
    ensures Gaps(aa, bb, cc) != 0.0
  {
    var x, y, z := aa - bb, bb - cc, cc - aa;
    GapsAre(aa, bb, cc, x, y, z);
    hide Gaps;
    ThreeFactors(x, y, z);
  }

  lemma GapsAre(aa: real, bb: real, cc: real, x: real, y: real, z: real)
    requires x == aa - bb && y == bb - cc && z == cc - aa
    ensures Gaps(aa, bb, cc) == x * y * z
  {
  }

  lemma DeterminantNotZero(s: V3)
    requires Positive(s) && Distinct(s)
    ensures Det(DIda(s)) != 0.0
  {
    GapsNotZero(s);
    hide *;
    var aa, bb, cc := s.x * s.x, s.y * s.y, s.z * s.z;
    TripleIs(s, aa, bb, cc);
    Determinant(s);
    ProductFrom(s.x, s.y, s.z, aa, bb, cc);
  }

  lemma ProductFrom(a: real, b: real, c: real, aa: real, bb: real, cc: real)
    requires a != 0.0 && b != 0.0 && c != 0.0 && Gaps(aa, bb, cc) != 0.0
    ensures Product(a, b, c, aa, bb, cc) != 0.0
  {
    hide Gaps;
    var v := -Gaps(aa, bb, cc);
    ThreeFactors(a, b, c);
    NonZeroProduct(a * b * c, v);
  }

  // ---- Its inverse ------------------------------------------------------------------------

  // The solution of k x = p by Cramer's rule.
  function Solve(k: M3, p: V3): V3
    requires Det(k) != 0.0
  {
    Scale(1.0 / Det(k), V3(Dot(Cross(k.c1, k.c2), p), Dot(Cross(k.c2, k.c0), p), Dot(Cross(k.c0, k.c1), p)))
  }

  lemma Solves(k: M3, p: V3)
    requires Det(k) != 0.0
    ensures MulVec(k, Solve(k, p)) == p
  {
    hide Dot, Cross, Combine, Scale;
    var d := Det(k);
    var r := V3(Dot(Cross(k.c1, k.c2), p), Dot(Cross(k.c2, k.c0), p), Dot(Cross(k.c0, k.c1), p));
    Cramer(k.c0, k.c1, k.c2, p);
    assert MulVec(k, r) == Scale(d, p);
    hide Det, MulVec;
    MulVecScale(k, 1.0 / d, r);
    Unscale(d, 1.0 / d, p);
  }

  lemma Unscale(d: real, k: real, p: V3)
    requires d != 0.0 && k == 1.0 / d
    ensures Scale(k, Scale(d, p)) == p
  {
    assert k * d == 1.0;
    ScaleBackEntry(k, d, p.x);
    ScaleBackEntry(k, d, p.y);
    ScaleBackEntry(k, d, p.z);
  }

  const IDENTITY := M3(V3(1.0, 0.0, 0.0), V3(0.0, 1.0, 0.0), V3(0.0, 0.0, 1.0))

  function Inverse(k: M3): M3
    requires Det(k) != 0.0
  {
    M3(Solve(k, IDENTITY.c0), Solve(k, IDENTITY.c1), Solve(k, IDENTITY.c2))
  }

  lemma InverseIs(k: M3)
    requires Det(k) != 0.0
    ensures MatMul(k, Inverse(k)) == IDENTITY
  {
    hide Solve, MulVec, Det;
    Solves(k, IDENTITY.c0);
    Solves(k, IDENTITY.c1);
    Solves(k, IDENTITY.c2);
  }

  lemma IdentityLeft(m: M3)
    ensures MatMul(IDENTITY, m) == m && Transpose(IDENTITY) == IDENTITY
  {
  }

  lemma IdentityRight(m: M3)
    ensures MatMul(m, IDENTITY) == m
  {
    hide MulVec;
    MulUnits(m, 1.0, 0.0);
  }

  // k (n r n.T) k.T == r where k n is the identity.
  lemma ConjugateBack(k: M3, n: M3, r: M3)
    requires MatMul(k, n) == IDENTITY
    ensures MatMul(MatMul(k, MatMul(MatMul(n, r), Transpose(n))), Transpose(k)) == r
  {
    hide *;
    var nt, kt := Transpose(n), Transpose(k);
    MatMulAssociative(k, MatMul(n, r), nt);
    MatMulAssociative(k, n, r);
    IdentityLeft(r);
    MatMulAssociative(r, nt, kt);
    TransposeMatMul(k, n);
    IdentityRight(r);
  }

  lemma RestSum(w: M3, m: M3)
    ensures AddM(w, AddM(m, ScaleM(-1.0, w))) == m
  {
  }

  // The gradient and Hessian in the invariants for p and m.
  function GradientFor(s: V3, p: V3): V3
    requires Det(DIda(s)) != 0.0
  {
    Solve(DIda(s), p)
  }

  function HessianFor(s: V3, g: V3, m: M3): M3
    requires Det(DIda(s)) != 0.0
  {
    var n := Inverse(DIda(s));
    MatMul(MatMul(n, AddM(m, ScaleM(-1.0, Weighted(s, g)))), Transpose(n))
  }

  lemma SolvedFor(s: V3, p: V3, m: M3) returns (g: V3, h: M3)
    requires Positive(s) && Distinct(s)
    ensures DEda(s, g) == p && D2Eda2(s, g, h) == m
  {
    DeterminantNotZero(s);
    hide Det, DIda, Inverse, Solve, Weighted, MatMul, MulVec, Transpose, AddM, ScaleM;
    g := GradientFor(s, p);
    h := HessianFor(s, g, m);
    Solves(DIda(s), p);
    InverseIs(DIda(s));
    var r := AddM(m, ScaleM(-1.0, Weighted(s, g)));
    ConjugateBack(DIda(s), Inverse(DIda(s)), r);
    RestSum(Weighted(s, g), m);
  }
}
