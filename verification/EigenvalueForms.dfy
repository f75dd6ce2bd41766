// The two closed forms of the off-diagonal eigenvalues: by quotients of the
// gradient in the singular values, with a special branch where two nearly agree
// (eigsys/eigsys_3.py:151-161), and by the
// invariants (eigsys/eigsys_invariants_3.py:186-196).
module EigenvalueForms {
  import opened LinearAlgebra
  import opened Eigensystem3
  import opened Hessian3

  const NEAR := 0.01

  // (g_i - g_j) / (s_i - s_j) if abs(s_i - s_j) > 1e-2 else H_ii - H_ij
  function Difference(gi: real, gj: real, si: real, sj: real, hii: real, hij: real): real {
    if Abs(si - sj) > NEAR then (gi - gj) / (si - sj) else hii - hij
  }

  // lmds[0..6] of the singular-value script, with g and H in the singular values.
  function SumForm(s: V3, g: V3): V3
    requires s.x > 0.0 && s.y > 0.0 && s.z > 0.0
  {
    V3((g.x + g.y) / (s.x + s.y), (g.x + g.z) / (s.x + s.z), (g.y + g.z) / (s.y + s.z))
  }

  function DifferenceForm(s: V3, g: V3, h: M3): V3 {
    V3(Difference(g.x, g.y, s.x, s.y, h.c0.x, h.c1.x),
       Difference(g.x, g.z, s.x, s.z, h.c0.x, h.c2.x),
       Difference(g.y, g.z, s.y, s.z, h.c1.y, h.c2.y))
  }

  // ---- Sums and differences of the gradient -------------------------------------------

  // d is the entry of the energy gradient whose invariant gradients are a, p, q.
  ghost predicate EntryOf(d: real, g: V3, a: real, p: real, q: real) {
    d == g.x * (2.0 * a) + g.y * (2.0 * p) + g.z * (2.0 * q)
  }

  // The entries of the invariant gradients at singular values a and b, for
  // x = c * c and y = a * b.
  ghost predicate GradientPair(a: real, b: real, x: real, y: real, pa: real, pb: real, qa: real, qb: real) {
    pa == b * y + a * x && pb == a * y + b * x && qa == b * y * x && qb == a * y * x
  }

  // The pair's two eigenvalues.
  ghost predicate ModePair(l: real, m: real, g: V3, x: real, y: real) {
    l == 2.0 * (g.x + (y + x) * g.y + y * x * g.z) && m == 2.0 * (g.x + (x - y) * g.y - y * x * g.z)
  }

  lemma GradientEntries(s: V3, g: V3, p: V3, q: V3)
    requires p == AreaGradient(s.x, s.y, s.z) && q == VolumeGradient(s.x, s.y, s.z)
    ensures var d := DEda(s, g);
      EntryOf(d.x, g, s.x, p.x, q.x) && EntryOf(d.y, g, s.y, p.y, q.y) && EntryOf(d.z, g, s.z, p.z, q.z)
  {
    hide AreaGradient, VolumeGradient;
  }

  lemma PairKernel(a: real, b: real, x: real, y: real, pa: real, pb: real, qa: real, qb: real, g: V3, da: real,
                   db: real, l: real, m: real)
    requires GradientPair(a, b, x, y, pa, pb, qa, qb) && EntryOf(da, g, a, pa, qa) && EntryOf(db, g, b, pb, qb)
    requires ModePair(l, m, g, x, y)
    ensures PairRelation(da, db, l, m, a, b)
  {
  }

  // What both forms rest on, for one pair of singular values.
  ghost predicate PairRelation(da: real, db: real, l: real, m: real, a: real, b: real) {
    da + db == l * (a + b) && da - db == m * (a - b)
  }

  lemma PairRelations(s: V3, g: V3)
    ensures var d, l, m := DEda(s, g), AntiEigenvalues(s.x, s.y, s.z, g), SymEigenvalues(s.x, s.y, s.z, g);
      && PairRelation(d.x, d.y, l.x, m.x, s.x, s.y)
      && PairRelation(d.z, d.x, l.y, m.y, s.z, s.x)
      && PairRelation(d.y, d.z, l.z, m.z, s.y, s.z)
  {
    hide *;
    var d, l, m := DEda(s, g), AntiEigenvalues(s.x, s.y, s.z, g), SymEigenvalues(s.x, s.y, s.z, g);
    var p, q := AreaGradient(s.x, s.y, s.z), VolumeGradient(s.x, s.y, s.z);
    GradientEntries(s, g, p, q);
    GradientShapes(s.x, s.y, s.z, p, q);
    EigenvalueShapes(s.x, s.y, s.z, g);
    PairKernel(s.x, s.y, Times(s.z, s.z), Times(s.x, s.y), p.x, p.y, q.x, q.y, g, d.x, d.y, l.x, m.x);
    PairKernel(s.z, s.x, Times(s.y, s.y), Times(s.z, s.x), p.z, p.x, q.z, q.x, g, d.z, d.x, l.y, m.y);
    PairKernel(s.y, s.z, Times(s.x, s.x), Times(s.y, s.z), p.y, p.z, q.y, q.z, g, d.y, d.z, l.z, m.z);
  }

  lemma GradientShapes(a: real, b: real, c: real, p: V3, q: V3)
    requires p == AreaGradient(a, b, c) && q == VolumeGradient(a, b, c)
    ensures GradientPair(a, b, Times(c, c), Times(a, b), p.x, p.y, q.x, q.y)
    ensures GradientPair(c, a, Times(b, b), Times(c, a), p.z, p.x, q.z, q.x)
    ensures GradientPair(b, c, Times(a, a), Times(b, c), p.y, p.z, q.y, q.z)
  {
  }

  lemma EigenvalueShapes(a: real, b: real, c: real, g: V3)
    ensures var l, m := AntiEigenvalues(a, b, c, g), SymEigenvalues(a, b, c, g);
      && ModePair(l.x, m.x, g, Times(c, c), Times(a, b))
      && ModePair(l.y, m.y, g, Times(b, b), Times(c, a))
      && ModePair(l.z, m.z, g, Times(a, a), Times(b, c))
  {
  }

  lemma Quotients(da: real, db: real, l: real, m: real, a: real, b: real)
    requires PairRelation(da, db, l, m, a, b)
    ensures a + b != 0.0 ==> (da + db) / (a + b) == l
    ensures a - b != 0.0 ==> (da - db) / (a - b) == m
  {
    if a + b != 0.0 {
      Quotient(da + db, l, a + b);
    }
    if a - b != 0.0 {
      Quotient(da - db, m, a - b);
    }
  }

  lemma Quotient(p: real, l: real, d: real)
    requires d != 0.0 && p == l * d
    ensures p / d == l
  {
  }

  // The sums: the quotient form is the invariant form for all positive singular
  // values.
  lemma SumFormAgrees(s: V3, g: V3)
    requires s.x > 0.0 && s.y > 0.0 && s.z > 0.0
    ensures SumForm(s, DEda(s, g)) == AntiEigenvalues(s.x, s.y, s.z, g)
  {
    hide DEda, AntiEigenvalues, SymEigenvalues, PairRelation;
    PairRelations(s, g);
    var d, l, m := DEda(s, g), AntiEigenvalues(s.x, s.y, s.z, g), SymEigenvalues(s.x, s.y, s.z, g);
    Quotients(d.x, d.y, l.x, m.x, s.x, s.y);
    Quotients(d.z, d.x, l.y, m.y, s.z, s.x);
    Quotients(d.y, d.z, l.z, m.z, s.y, s.z);
  }

  // ---- The special branch ----------------------------------------------------------------

  // Row i of DIda: the derivatives of the three invariants in singular value a,
  // for the other two b and c.
  function Row(a: real, b: real, c: real): V3 {
    V3(2.0 * a, 2.0 * (a * (b * b) + a * (c * c)), 2.0 * (a * (b * b) * (c * c)))
  }

  // (Row(a) - Row(b)) / (a - b)
  function RowSlope(a: real, b: real, c: real): V3 {
    V3(2.0, 2.0 * (c * c - a * b), -2.0 * (a * b * (c * c)))
  }

  // What is left of H_ii - H_ij minus the eigenvalue, over a - b.
  function Bend(a: real, b: real, c: real, g: V3, h: M3): real {
    Dot(Row(a, b, c), MulVec(h, RowSlope(a, b, c))) - 2.0 * b * (g.y + c * c * g.z)
  }

  // H_ii and H_ij for the pair.
  function DiagonalWeight(a: real, b: real, c: real, g: V3): real {
    g.x * 2.0 + g.y * (2.0 * (b * b + c * c)) + g.z * (2.0 * (b * b * (c * c)))
  }

  function CrossWeight(a: real, b: real, c: real, g: V3): real {
    g.y * (4.0 * (a * b)) + g.z * (4.0 * (a * b * (c * c)))
  }

  function DiagonalEntry(a: real, b: real, c: real, g: V3, h: M3): real {
    DiagonalWeight(a, b, c, g) + Dot(Row(a, b, c), MulVec(h, Row(a, b, c)))
  }

  function CrossEntry(a: real, b: real, c: real, g: V3, h: M3): real {
    CrossWeight(a, b, c, g) + Dot(Row(a, b, c), MulVec(h, Row(b, a, c)))
  }

  // m is the symmetric eigenvalue of the pair, by the invariants.
  predicate SymEigenvalue(m: real, a: real, b: real, c: real, g: V3) {
    m == 2.0 * (g.x + (c * c - a * b) * g.y - a * b * (c * c) * g.z)
  }

  lemma RowDifference(a: real, b: real, c: real)
    ensures Row(a, b, c) == Add(Row(b, a, c), Scale(a - b, RowSlope(a, b, c)))
  {
    RowDifferenceKernel(a, b, c, a - b);
  }

  lemma RowDifferenceKernel(a: real, b: real, c: real, d: real)
    requires d == a - b
    ensures 2.0 * (a * (b * b) + a * (c * c)) == 2.0 * (b * (a * a) + b * (c * c)) + d * (2.0 * (c * c - a * b))
    ensures 2.0 * (a * (b * b) * (c * c)) == 2.0 * (b * (a * a) * (c * c)) + d * (-2.0 * (a * b * (c * c)))
  {
  }

  lemma WeightedGap(a: real, b: real, c: real, g: V3, m: real)
    requires SymEigenvalue(m, a, b, c, g)
    ensures DiagonalWeight(a, b, c, g) - CrossWeight(a, b, c, g) - m == (a - b) * (-2.0 * b * (g.y + c * c * g.z))
  {
    WeightedGapKernel(a, b, c, g.y, g.z, g.x, m);
  }

  lemma WeightedGapKernel(a: real, b: real, c: real, g2: real, g3: real, g1: real, m: real)
    requires m == 2.0 * (g1 + (c * c - a * b) * g2 - a * b * (c * c) * g3)
    ensures g1 * 2.0 + g2 * (2.0 * (b * b + c * c)) + g3 * (2.0 * (b * b * (c * c)))
      - (g2 * (4.0 * (a * b)) + g3 * (4.0 * (a * b * (c * c)))) - m
         == (a - b) * (-2.0 * b * (g2 + c * c * g3))
  {
  }

  lemma RowProduct(h: M3, r: V3, p: V3, q: V3, k: real, e: V3)
    requires p == Add(q, Scale(k, e))
    ensures Dot(r, MulVec(h, p)) - Dot(r, MulVec(h, q)) == k * Dot(r, MulVec(h, e))
  {
    hide *;
    MulVecAdd(h, q, Scale(k, e));
    MulVecScale(h, k, e);
    DotAdd(MulVec(h, q), Scale(k, MulVec(h, e)), r);
    DotScale(k, MulVec(h, e), r);
  }

  // The special branch misses the eigenvalue by (a - b) times the bend.
  lemma SpecialBranchGap(a: real, b: real, c: real, g: V3, h: M3, m: real)
    requires SymEigenvalue(m, a, b, c, g)
    ensures DiagonalEntry(a, b, c, g, h) - CrossEntry(a, b, c, g, h) - m == (a - b) * Bend(a, b, c, g, h)
  {
    hide Row, RowSlope, Dot, MulVec, Add, Scale, DiagonalWeight, CrossWeight, SymEigenvalue;
    var r, e := Row(a, b, c), RowSlope(a, b, c);
    RowDifference(a, b, c);
    RowProduct(h, r, r, Row(b, a, c), a - b, e);
    WeightedGap(a, b, c, g, m);
    GapKernel(DiagonalWeight(a, b, c, g), CrossWeight(a, b, c, g), Dot(r, MulVec(h, r)),
              Dot(r, MulVec(h, Row(b, a, c))), m, a - b,
              Dot(r, MulVec(h, e)), -2.0 * b * (g.y + c * c * g.z), Bend(a, b, c, g, h));
  }

  lemma GapKernel(wi: real, wj: real, pi: real, pj: real, m: real, d: real, p: real, q: real, bend: real)
    requires wi - wj - m == d * q && pi - pj == d * p && bend == p + q
    ensures wi + pi - (wj + pj) - m == d * bend
  {
  }

  // The code's value is the eigenvalue exactly when the quotient is taken, the
  // two singular values are equal, or the bend vanishes.
  lemma DifferenceExact(a: real, b: real, c: real, g: V3, h: M3, gi: real, gj: real, l: real, m: real)
    requires PairRelation(gi, gj, l, m, a, b) && SymEigenvalue(m, a, b, c, g)
    ensures Difference(gi, gj, a, b, DiagonalEntry(a, b, c, g, h), CrossEntry(a, b, c, g, h)) == m
       <==> Abs(a - b) > NEAR || a == b || Bend(a, b, c, g, h) == 0.0
  {
    hide DiagonalEntry, CrossEntry, Bend, SymEigenvalue;
    SpecialBranchGap(a, b, c, g, h, m);
    Quotients(gi, gj, l, m, a, b);
    hide PairRelation;
    var gap := (a - b) * Bend(a, b, c, g, h);
    ProductZero(a - b, Bend(a, b, c, g, h), gap);
  }

  lemma RowsOfDIda(s: V3)
    ensures Transpose(DIda(s)) == M3(Row(s.x, s.y, s.z), Row(s.y, s.z, s.x), Row(s.z, s.x, s.y))
  {
  }

  lemma RowSwap(a: real, b: real, c: real)
    ensures Row(a, b, c) == Row(a, c, b)
  {
  }

  lemma ConjugateEntries(d: M3, h: M3)
    ensures var m, r := MatMul(MatMul(d, h), Transpose(d)), Transpose(d);
      && m.c0.x == Dot(r.c0, MulVec(h, r.c0)) && m.c1.x == Dot(r.c0, MulVec(h, r.c1))
        && m.c2.x == Dot(r.c0, MulVec(h, r.c2))
      && m.c1.y == Dot(r.c1, MulVec(h, r.c1)) && m.c2.y == Dot(r.c1, MulVec(h, r.c2))
  {
    hide Dot, MulVec, Transpose;
    var r := Transpose(d);
    MulVecAssociative(d, h, r.c0);
    MulVecAssociative(d, h, r.c1);
    MulVecAssociative(d, h, r.c2);
    ByRows(d, MulVec(h, r.c0));
    ByRows(d, MulVec(h, r.c1));
    ByRows(d, MulVec(h, r.c2));
  }

  lemma WeightedEntry(g: V3, p: M3, q: M3, r: M3)
    ensures var w := AddM(AddM(ScaleM(g.x, p), ScaleM(g.y, q)), ScaleM(g.z, r));
      && w.c0.x == g.x * p.c0.x + g.y * q.c0.x + g.z * r.c0.x && w.c1.y == g.x * p.c1.y + g.y * q.c1.y + g.z * r.c1.y
      && w.c1.x == g.x * p.c1.x + g.y * q.c1.x + g.z * r.c1.x && w.c2.x == g.x * p.c2.x + g.y * q.c2.x + g.z * r.c2.x
      && w.c2.y == g.x * p.c2.y + g.y * q.c2.y + g.z * r.c2.y
  {
  }

  // The entries of the three invariant Hessians for one pair.
  ghost predicate DiagonalShape(p: real, q: real, r: real, b: real, c: real) {
    p == 2.0 && q == 2.0 * (b * b + c * c) && r == 2.0 * (b * b * (c * c))
  }

  ghost predicate CrossShape(p: real, q: real, r: real, a: real, b: real, c: real) {
    p == 0.0 && q == 4.0 * (a * b) && r == 4.0 * (a * b * (c * c))
  }

  lemma DiagonalCombination(g: V3, p: real, q: real, r: real, a: real, b: real, c: real, w: real)
    requires DiagonalShape(p, q, r, b, c) && w == g.x * p + g.y * q + g.z * r
    ensures w == DiagonalWeight(a, b, c, g)
  {
  }

  lemma CrossCombination(g: V3, p: real, q: real, r: real, a: real, b: real, c: real, w: real)
    requires CrossShape(p, q, r, a, b, c) && w == g.x * p + g.y * q + g.z * r
    ensures w == CrossWeight(a, b, c, g)
  {
  }

  lemma LengthShape(s: V3)
    ensures var p := D2I1(s); p.c0.x == 2.0 && p.c1.y == 2.0 && p.c1.x == 0.0 && p.c2.x == 0.0 && p.c2.y == 0.0
  {
  }

  lemma AreaShape(s: V3)
    ensures var a, b, c, q := s.x, s.y, s.z, D2I2(s);
      && q.c0.x == 2.0 * (b * b + c * c) && q.c1.y == 2.0 * (c * c + a * a)
      && q.c1.x == 4.0 * (a * b) && q.c2.x == 4.0 * (a * c) && q.c2.y == 4.0 * (b * c)
  {
  }

  lemma VolumeShape(s: V3)
    ensures var a, b, c, r := s.x, s.y, s.z, D2I3(s);
      && r.c0.x == 2.0 * (b * b * (c * c)) && r.c1.y == 2.0 * (c * c * (a * a))
      && r.c1.x == 4.0 * (a * b * (c * c)) && r.c2.x == 4.0 * (a * c * (b * b)) && r.c2.y == 4.0 * (b * c * (a * a))
  {
  }

  lemma Shapes(s: V3)
    ensures var a, b, c, p, q, r := s.x, s.y, s.z, D2I1(s), D2I2(s), D2I3(s);
      && DiagonalShape(p.c0.x, q.c0.x, r.c0.x, b, c) && DiagonalShape(p.c0.x, q.c0.x, r.c0.x, c, b)
      && DiagonalShape(p.c1.y, q.c1.y, r.c1.y, c, a)
      && CrossShape(p.c1.x, q.c1.x, r.c1.x, a, b, c)
      && CrossShape(p.c2.x, q.c2.x, r.c2.x, a, c, b)
      && CrossShape(p.c2.y, q.c2.y, r.c2.y, b, c, a)
  {
    hide D2I1, D2I2, D2I3;
    LengthShape(s);
    AreaShape(s);
    VolumeShape(s);
  }

  lemma WeightedEntries(s: V3, g: V3)
    ensures var a, b, c, w := s.x, s.y, s.z, Weighted(s, g);
      && w.c0.x == DiagonalWeight(a, b, c, g) && w.c0.x == DiagonalWeight(a, c, b, g)
        && w.c1.y == DiagonalWeight(b, c, a, g)
      && w.c1.x == CrossWeight(a, b, c, g) && w.c2.x == CrossWeight(a, c, b, g) && w.c2.y == CrossWeight(b, c, a, g)
  {
    hide D2I1, D2I2, D2I3, AddM, ScaleM, DiagonalShape, CrossShape, DiagonalWeight, CrossWeight;
    var a, b, c, w, p, q, r := s.x, s.y, s.z, Weighted(s, g), D2I1(s), D2I2(s), D2I3(s);
    WeightedEntry(g, p, q, r);
    Shapes(s);
    DiagonalCombination(g, p.c0.x, q.c0.x, r.c0.x, a, b, c, w.c0.x);
    DiagonalCombination(g, p.c0.x, q.c0.x, r.c0.x, a, c, b, w.c0.x);
    DiagonalCombination(g, p.c1.y, q.c1.y, r.c1.y, b, c, a, w.c1.y);
    CrossCombination(g, p.c1.x, q.c1.x, r.c1.x, a, b, c, w.c1.x);
    CrossCombination(g, p.c2.x, q.c2.x, r.c2.x, a, c, b, w.c2.x);
    CrossCombination(g, p.c2.y, q.c2.y, r.c2.y, b, c, a, w.c2.y);
  }

  // The entries of the singular-value Hessian the script reads.
  lemma HessianEntries(s: V3, g: V3, h: M3)
    ensures var a, b, c, m := s.x, s.y, s.z, D2Eda2(s, g, h);
      && m.c0.x == DiagonalEntry(a, b, c, g, h) && m.c1.x == CrossEntry(a, b, c, g, h)
      && m.c0.x == DiagonalEntry(a, c, b, g, h) && m.c2.x == CrossEntry(a, c, b, g, h)
      && m.c1.y == DiagonalEntry(b, c, a, g, h) && m.c2.y == CrossEntry(b, c, a, g, h)
  {
    hide Weighted, MatMul, Transpose, Row, Dot, MulVec, DIda, DiagonalWeight, CrossWeight;
    RowsOfDIda(s);
    RowSwap(s.x, s.y, s.z);
    RowSwap(s.y, s.z, s.x);
    RowSwap(s.z, s.x, s.y);
    ConjugateEntries(DIda(s), h);
    WeightedEntries(s, g);
  }

  lemma SymShapes(a: real, b: real, c: real, g: V3)
    ensures var m := SymEigenvalues(a, b, c, g);
      SymEigenvalue(m.x, a, b, c, g) && SymEigenvalue(m.y, a, c, b, g) && SymEigenvalue(m.z, b, c, a, g)
  {
  }

  lemma PairSwap(da: real, db: real, l: real, m: real, a: real, b: real)
    requires PairRelation(da, db, l, m, a, b)
    ensures PairRelation(db, da, l, m, b, a)
  {
  }

  // For each pair the singular-value script's eigenvalue is the invariant one
  // exactly when the quotient is taken, the singular values are equal, or the
  // pair's bend vanishes.
  lemma DifferenceFormAgrees(s: V3, g: V3, h: M3)
    ensures var f, m := DifferenceForm(s, DEda(s, g), D2Eda2(s, g, h)), SymEigenvalues(s.x, s.y, s.z, g);
      && (f.x == m.x <==> Abs(s.x - s.y) > 0.01 || s.x == s.y || Bend(s.x, s.y, s.z, g, h) == 0.0)
      && (f.y == m.y <==> Abs(s.x - s.z) > 0.01 || s.x == s.z || Bend(s.x, s.z, s.y, g, h) == 0.0)
      && (f.z == m.z <==> Abs(s.y - s.z) > 0.01 || s.y == s.z || Bend(s.y, s.z, s.x, g, h) == 0.0)
  {
    hide Bend, DiagonalEntry, CrossEntry, Difference, DEda, D2Eda2, AntiEigenvalues, SymEigenvalues, Abs, SymEigenvalue,
      PairRelation;
    var d, l, m := DEda(s, g), AntiEigenvalues(s.x, s.y, s.z, g), SymEigenvalues(s.x, s.y, s.z, g);
    HessianEntries(s, g, h);
    PairRelations(s, g);
    PairSwap(d.z, d.x, l.y, m.y, s.z, s.x);
    SymShapes(s.x, s.y, s.z, g);
    DifferenceExact(s.x, s.y, s.z, g, h, d.x, d.y, l.x, m.x);
    DifferenceExact(s.x, s.z, s.y, g, h, d.x, d.z, l.y, m.y);
    DifferenceExact(s.y, s.z, s.x, g, h, d.y, d.z, l.z, m.z);
  }
}
