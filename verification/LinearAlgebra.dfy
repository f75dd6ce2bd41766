// Vectors and 3x3 matrices over the reals, as numpy and Eigen hold them in the
// files modelled here. A matrix is its three columns. Each identity is proved
// from smaller ones, with the definitions it does not need hidden.
module LinearAlgebra {

  datatype V3 = V3(x: real, y: real, z: real)

  datatype M3 = M3(c0: V3, c1: V3, c2: V3)

  const ZERO := V3(0.0, 0.0, 0.0)

  const ZERO_M := M3(ZERO, ZERO, ZERO)

  function Abs(x: real): real {
    if x < 0.0 then -x else x
  }

  function Times(f: real, x: real): real {
    f * x
  }

  function Square(x: real): real {
    x * x
  }

  function Add(a: V3, b: V3): V3 {
    V3(a.x + b.x, a.y + b.y, a.z + b.z)
  }

  function Sub(a: V3, b: V3): V3 {
    V3(a.x - b.x, a.y - b.y, a.z - b.z)
  }

  function Scale(k: real, a: V3): V3 {
    V3(k * a.x, k * a.y, k * a.z)
  }

  function Neg(a: V3): V3 {
    V3(-a.x, -a.y, -a.z)
  }

  function Dot(a: V3, b: V3): real {
    a.x * b.x + a.y * b.y + a.z * b.z
  }

  function Cross(a: V3, b: V3): V3 {
    V3(a.y * b.z - a.z * b.y, a.z * b.x - a.x * b.z, a.x * b.y - a.y * b.x)
  }

  // p * a + q * b + s * c
  function Combine(p: real, a: V3, q: real, b: V3, s: real, c: V3): V3 {
    Add(Add(Scale(p, a), Scale(q, b)), Scale(s, c))
  }

  // m @ v: the combination of the columns of m by the entries of v.
  function MulVec(m: M3, v: V3): V3 {
    Combine(v.x, m.c0, v.y, m.c1, v.z, m.c2)
  }

  function MatMul(a: M3, b: M3): M3 {
    M3(MulVec(a, b.c0), MulVec(a, b.c1), MulVec(a, b.c2))
  }

  function Transpose(m: M3): M3 {
    M3(V3(m.c0.x, m.c1.x, m.c2.x), V3(m.c0.y, m.c1.y, m.c2.y), V3(m.c0.z, m.c1.z, m.c2.z))
  }

  function AddM(a: M3, b: M3): M3 {
    M3(Add(a.c0, b.c0), Add(a.c1, b.c1), Add(a.c2, b.c2))
  }

  function ScaleM(k: real, a: M3): M3 {
    M3(Scale(k, a.c0), Scale(k, a.c1), Scale(k, a.c2))
  }

  function Diag(d: V3): M3 {
    M3(V3(d.x, 0.0, 0.0), V3(0.0, d.y, 0.0), V3(0.0, 0.0, d.z))
  }

  function Trace(m: M3): real {
    m.c0.x + m.c1.y + m.c2.z
  }

  function Det(m: M3): real {
    Dot(m.c0, Cross(m.c1, m.c2))
  }

  // The Frobenius inner product, in which a Hessian acts on matrices.
  function Inner(a: M3, b: M3): real {
    Dot(a.c0, b.c0) + Dot(a.c1, b.c1) + Dot(a.c2, b.c2)
  }

  // F.T @ F
  function GramMatrix(f: M3): M3 {
    MatMul(Transpose(f), f)
  }

  // Orthonormal columns.
  predicate Orthogonal(u: M3) {
    && Dot(u.c0, u.c0) == 1.0 && Dot(u.c1, u.c1) == 1.0 && Dot(u.c2, u.c2) == 1.0
    && Dot(u.c0, u.c1) == 0.0 && Dot(u.c0, u.c2) == 0.0 && Dot(u.c1, u.c2) == 0.0
  }

  // u @ w @ v.T: a matrix carried out of the frame of the singular vectors.
  function Rotate(u: M3, w: M3, v: M3): M3 {
    MatMul(MatMul(u, w), Transpose(v))
  }

  // u.T @ x @ v: the same change of frame undone.
  function Unrotate(u: M3, x: M3, v: M3): M3 {
    MatMul(MatMul(Transpose(u), x), v)
  }

  // ---- Dot is symmetric and linear -----------------------------------------

  lemma DotSymmetric(a: V3, b: V3)
    ensures Dot(a, b) == Dot(b, a)
  {
  }

  lemma DotAdd(a: V3, b: V3, c: V3)
    ensures Dot(Add(a, b), c) == Dot(a, c) + Dot(b, c)
    ensures Dot(c, Add(a, b)) == Dot(c, a) + Dot(c, b)
  {
  }

  lemma DotTimes(a: V3, b: V3)
    ensures Dot(a, b) == Times(a.x, b.x) + Times(a.y, b.y) + Times(a.z, b.z)
  {
  }

  lemma DotNeg(c: V3, a: V3)
    ensures Dot(c, Neg(a)) == -Dot(c, a)
  {
  }

  lemma DotScale(k: real, a: V3, c: V3)
    ensures Dot(Scale(k, a), c) == k * Dot(a, c)
    ensures Dot(c, Scale(k, a)) == k * Dot(c, a)
  {
  }

  lemma DotScaleScale(t: real, v: V3, w: V3)
    ensures Dot(Scale(t, v), Scale(t, w)) == Square(t) * Dot(v, w)
  {
    hide Dot, Scale;
    DotScale(t, v, Scale(t, w));
    DotScale(t, w, v);
  }

  lemma DotCombine(p: real, a: V3, q: real, b: V3, s: real, c: V3, w: V3)
    ensures Dot(Combine(p, a, q, b, s, c), w) == p * Dot(a, w) + q * Dot(b, w) + s * Dot(c, w)
  {
    hide Dot, Add, Scale;
    DotAdd(Add(Scale(p, a), Scale(q, b)), Scale(s, c), w);
    DotAdd(Scale(p, a), Scale(q, b), w);
    DotScale(p, a, w);
    DotScale(q, b, w);
    DotScale(s, c, w);
  }

  lemma MulMonotone(a: real, b: real, c: real)
    requires a <= b && c >= 0.0
    ensures a * c <= b * c
  {
  }

  lemma AbsProduct(x: real, y: real)
    ensures Abs(x * y) == Abs(x) * Abs(y)
  {
    if x >= 0.0 && y >= 0.0 {
      MulMonotone(0.0, x, y);
    } else if x >= 0.0 {
      MulMonotone(0.0, x, -y);
    } else if y >= 0.0 {
      MulMonotone(0.0, -x, y);
    } else {
      MulMonotone(0.0, -x, -y);
    }
  }

  lemma ProductSign(k: real, e: real)
    requires k >= 0.0 && e >= 0.0
    ensures k * e >= 0.0
  {
  }

  lemma ProductPositive(x: real, y: real, p: real)
    requires x > 0.0 && y > 0.0
    requires p == x * y
    ensures p > 0.0
  {
  }

  lemma ProductZero(x: real, y: real, p: real)
    requires p == x * y
    ensures p == 0.0 <==> x == 0.0 || y == 0.0
  {
    if p == 0.0 && x != 0.0 {
      assert y == p / x;
    }
  }

  lemma SquareSign(x: real)
    ensures Square(x) >= 0.0
    ensures Square(x) <= 0.0 ==> x == 0.0
  {
    if x > 0.0 {
      ProductPositive(x, x, Square(x));
    } else if x < 0.0 {
      ProductPositive(-x, -x, Square(x));
    } else {
      assert Square(x) == 0.0;
    }
    hide Square;
  }

  lemma DotSelf(a: V3)
    ensures Dot(a, a) >= 0.0
    ensures Dot(a, a) <= 0.0 ==> a == ZERO
  {
    assert Dot(a, a) == Square(a.x) + Square(a.y) + Square(a.z);
    hide Square, Dot;
    SquareSign(a.x);
    SquareSign(a.y);
    SquareSign(a.z);
  }

  // ---- Products of vectors -------------------------------------------------

  lemma TripleProductX(a: V3, b: V3, c: V3)
    ensures Cross(Cross(a, b), c).x == Dot(a, c) * b.x - Dot(b, c) * a.x
  {
  }

  lemma TripleProductY(a: V3, b: V3, c: V3)
    ensures Cross(Cross(a, b), c).y == Dot(a, c) * b.y - Dot(b, c) * a.y
  {
  }

  lemma TripleProductZ(a: V3, b: V3, c: V3)
    ensures Cross(Cross(a, b), c).z == Dot(a, c) * b.z - Dot(b, c) * a.z
  {
  }

  lemma TripleProduct(a: V3, b: V3, c: V3)
    ensures Cross(Cross(a, b), c) == Sub(Scale(Dot(a, c), b), Scale(Dot(b, c), a))
  {
    TripleProductX(a, b, c);
    TripleProductY(a, b, c);
    TripleProductZ(a, b, c);
    hide Dot, Cross;
  }

  lemma CrossAntisymmetric(a: V3, b: V3)
    ensures Cross(a, b) == Neg(Cross(b, a))
  {
  }

  lemma CrossAddLeft(a: V3, b: V3, c: V3)
    ensures Cross(Add(a, b), c) == Add(Cross(a, c), Cross(b, c))
  {
    var d := Add(a, b);
    assert d.x == a.x + b.x && d.y == a.y + b.y && d.z == a.z + b.z;
    hide Add;
    assert d.y * c.z == a.y * c.z + b.y * c.z;
    assert d.z * c.y == a.z * c.y + b.z * c.y;
    assert d.z * c.x == a.z * c.x + b.z * c.x;
    assert d.x * c.z == a.x * c.z + b.x * c.z;
    assert d.x * c.y == a.x * c.y + b.x * c.y;
    assert d.y * c.x == a.y * c.x + b.y * c.x;
  }

  lemma CrossAdd(a: V3, b: V3, c: V3)
    ensures Cross(Add(a, b), c) == Add(Cross(a, c), Cross(b, c))
    ensures Cross(c, Add(a, b)) == Add(Cross(c, a), Cross(c, b))
  {
    hide Cross;
    CrossAddLeft(a, b, c);
    CrossAntisymmetric(c, Add(a, b));
    CrossAntisymmetric(c, a);
    CrossAntisymmetric(c, b);
  }

  lemma CrossScaleLeft(k: real, a: V3, c: V3)
    ensures Cross(Scale(k, a), c) == Scale(k, Cross(a, c))
  {
    var d := Scale(k, a);
    var n := Cross(a, c);
    assert d.x == k * a.x && d.y == k * a.y && d.z == k * a.z;
    hide Scale;
    assert k * n.x == d.y * c.z - d.z * c.y;
    assert k * n.y == d.z * c.x - d.x * c.z;
    assert k * n.z == d.x * c.y - d.y * c.x;
  }

  lemma CrossScale(k: real, a: V3, c: V3)
    ensures Cross(Scale(k, a), c) == Scale(k, Cross(a, c))
    ensures Cross(c, Scale(k, a)) == Scale(k, Cross(c, a))
  {
    hide Cross;
    CrossScaleLeft(k, a, c);
    CrossAntisymmetric(c, Scale(k, a));
    CrossAntisymmetric(c, a);
  }

  lemma MixedProductCyclic(a: V3, b: V3, c: V3)
    ensures Dot(a, Cross(b, c)) == Dot(b, Cross(c, a))
  {
  }

  lemma CrossSelf(a: V3, b: V3)
    ensures Dot(a, Cross(a, b)) == 0.0
    ensures Dot(b, Cross(a, b)) == 0.0
  {
  }

  lemma CrossDotCross(a: V3, b: V3, c: V3, d: V3)
    ensures Dot(Cross(a, b), Cross(c, d)) == Dot(a, c) * Dot(b, d) - Dot(a, d) * Dot(b, c)
  {
  }

  // Cramer's rule: a vector is the combination of three columns weighted by its
  // products with their cross products. The two readings of
  // (a x b) x (c x r) give it without expanding a determinant.
  lemma Cramer(a: V3, b: V3, c: V3, r: V3)
    ensures Scale(Dot(a, Cross(b, c)), r)
         == Combine(Dot(Cross(b, c), r), a, Dot(Cross(c, a), r), b, Dot(Cross(a, b), r), c)
  {
    hide Dot, Cross;
    TripleProduct(a, b, Cross(c, r));
    TripleProduct(c, r, Cross(a, b));
    CrossAntisymmetric(Cross(a, b), Cross(c, r));
    MixedProductCyclic(a, c, r);
    MixedProductCyclic(c, r, a);
    MixedProductCyclic(b, c, r);
    MixedProductCyclic(r, b, c);
    MixedProductCyclic(a, b, c);
    MixedProductCyclic(c, a, b);
    DotSymmetric(r, Cross(b, c));
    DotSymmetric(r, Cross(a, b));
    DotSymmetric(r, Cross(a, c));
    CrossAntisymmetric(a, c);
    DotNeg(r, Cross(c, a));
    DotSymmetric(r, Cross(c, a));
  }

  // ---- Norms ---------------------------------------------------------------

  // The square root is a parameter.
  ghost predicate IsSqrt(sqrt: real -> real) {
    forall x :: x >= 0.0 ==> sqrt(x) >= 0.0 && Square(sqrt(x)) == x
  }

  function Norm(sqrt: real -> real, v: V3): real {
    sqrt(Dot(v, v))
  }

  function Normalize(sqrt: real -> real, c: V3): V3
    requires Norm(sqrt, c) != 0.0
  {
    Scale(1.0 / Norm(sqrt, c), c)
  }

  lemma NormalizeUnit(sqrt: real -> real, c: V3)
    requires IsSqrt(sqrt) && Dot(c, c) > 0.0
    ensures Norm(sqrt, c) > 0.0
    ensures Dot(Normalize(sqrt, c), Normalize(sqrt, c)) == 1.0
    ensures Scale(Norm(sqrt, c), Normalize(sqrt, c)) == c
  {
    hide Dot, Scale;
    var s := Norm(sqrt, c);
    RootPositive(s, Dot(c, c));
    var k := 1.0 / s;
    DotScaleScale(k, c, c);
    InverseSquare(s, k, Dot(c, c));
    ScaleBack(s, k, c);
  }

  lemma RootPositive(s: real, x: real)
    requires x > 0.0 && s >= 0.0 && Square(s) == x
    ensures s > 0.0
  {
    SquareZero();
  }

  lemma SquareZero()
    ensures Square(0.0) == 0.0
  {
  }

  lemma InverseSquare(s: real, k: real, x: real)
    requires s > 0.0 && k == 1.0 / s && Square(s) == x
    ensures Square(k) * x == 1.0
  {
    assert k * s == 1.0;
    assert Square(k) * x == (k * s) * (k * s);
  }

  lemma ScaleBack(s: real, k: real, c: V3)
    requires s > 0.0 && k == 1.0 / s
    ensures Scale(s, Scale(k, c)) == c
  {
    assert s * k == 1.0;
    ScaleBackEntry(s, k, c.x);
    ScaleBackEntry(s, k, c.y);
    ScaleBackEntry(s, k, c.z);
  }

  lemma ScaleBackEntry(s: real, k: real, x: real)
    requires s * k == 1.0
    ensures s * (k * x) == x
  {
    assert s * (k * x) == (s * k) * x;
  }

  // ---- Matrices ------------------------------------------------------------

  // U.T @ w, entry by entry.
  lemma TransposeMulVec(u: M3, w: V3)
    ensures MulVec(Transpose(u), w) == V3(Dot(u.c0, w), Dot(u.c1, w), Dot(u.c2, w))
  {
  }

  lemma Adjoint(u: M3, v: V3, w: V3)
    ensures Dot(MulVec(u, v), w) == Dot(v, MulVec(Transpose(u), w))
  {
    hide Combine, Transpose;
    DotCombine(v.x, u.c0, v.y, u.c1, v.z, u.c2, w);
    TransposeMulVec(u, w);
  }

  lemma TransposeInvolution(m: M3)
    ensures Transpose(Transpose(m)) == m
  {
  }

  // m @ v, row by row.
  lemma ByRows(m: M3, v: V3)
    ensures MulVec(m, v) == V3(Dot(Transpose(m).c0, v), Dot(Transpose(m).c1, v), Dot(Transpose(m).c2, v))
  {
    TransposeInvolution(m);
    TransposeMulVec(Transpose(m), v);
    hide *;
  }

  lemma MulVecAdjoint(b: M3, row: V3, v: V3)
    ensures Dot(MulVec(Transpose(b), row), v) == Dot(row, MulVec(b, v))
  {
    TransposeInvolution(b);
    Adjoint(Transpose(b), row, v);
    hide *;
  }

  lemma TransposeMatMul(a: M3, b: M3)
    ensures Transpose(MatMul(a, b)) == MatMul(Transpose(b), Transpose(a))
  {
    TransposeMulVec(b, Transpose(a).c0);
    TransposeMulVec(b, Transpose(a).c1);
    TransposeMulVec(b, Transpose(a).c2);
    ByRows(a, b.c0);
    ByRows(a, b.c1);
    ByRows(a, b.c2);
    var rows := Transpose(a);
    DotSymmetric(b.c0, rows.c0);
    DotSymmetric(b.c1, rows.c0);
    DotSymmetric(b.c2, rows.c0);
    DotSymmetric(b.c0, rows.c1);
    DotSymmetric(b.c1, rows.c1);
    DotSymmetric(b.c2, rows.c1);
    DotSymmetric(b.c0, rows.c2);
    DotSymmetric(b.c1, rows.c2);
    DotSymmetric(b.c2, rows.c2);
    hide Dot, MulVec;
  }

  lemma MulVecAssociative(a: M3, b: M3, v: V3)
    ensures MulVec(MatMul(a, b), v) == MulVec(a, MulVec(b, v))
  {
    ByRows(MatMul(a, b), v);
    ByRows(a, MulVec(b, v));
    TransposeMatMul(a, b);
    var rows := Transpose(a);
    MulVecAdjoint(b, rows.c0, v);
    MulVecAdjoint(b, rows.c1, v);
    MulVecAdjoint(b, rows.c2, v);
    hide Dot, MulVec, Transpose;
  }

  // Orthonormal columns keep products, and U.T undoes U.
  lemma OrthogonalUndo(u: M3, v: V3)
    requires Orthogonal(u)
    ensures MulVec(Transpose(u), MulVec(u, v)) == v
  {
    TransposeMulVec(u, MulVec(u, v));
    DotCombine(v.x, u.c0, v.y, u.c1, v.z, u.c2, u.c0);
    DotCombine(v.x, u.c0, v.y, u.c1, v.z, u.c2, u.c1);
    DotCombine(v.x, u.c0, v.y, u.c1, v.z, u.c2, u.c2);
    DotSymmetric(u.c0, u.c1);
    DotSymmetric(u.c0, u.c2);
    DotSymmetric(u.c1, u.c2);
    DotSymmetric(u.c0, MulVec(u, v));
    DotSymmetric(u.c1, MulVec(u, v));
    DotSymmetric(u.c2, MulVec(u, v));
    hide Dot, Combine, Transpose;
  }

  lemma OrthogonalKeepsDot(u: M3, v: V3, w: V3)
    requires Orthogonal(u)
    ensures Dot(MulVec(u, v), MulVec(u, w)) == Dot(v, w)
  {
    hide *;
    Adjoint(u, v, MulVec(u, w));
    OrthogonalUndo(u, w);
  }

  // The determinant of orthonormal columns is not zero.
  lemma OrthogonalDet(u: M3)
    requires Orthogonal(u)
    ensures Det(u) * Det(u) == 1.0
  {
    var a, b, c := u.c0, u.c1, u.c2;
    var n := Cross(b, c);
    Cramer(a, b, c, n);
    DotCombine(Dot(n, n), a, Dot(Cross(c, a), n), b, Dot(Cross(a, b), n), c, a);
    DotScale(Det(u), n, a);
    CrossDotCross(b, c, b, c);
    CrossDotCross(c, a, b, c);
    CrossDotCross(a, b, b, c);
    DotSymmetric(a, n);
    DotSymmetric(a, b);
    DotSymmetric(a, c);
    DotSymmetric(b, c);
    hide Dot, Combine, Cross, Scale;
    var d := Det(u);
    assert d == Dot(n, a);
    assert Dot(n, n) == 1.0;
    assert Dot(Cross(c, a), n) == 0.0;
    assert Dot(Cross(a, b), n) == 0.0;
    assert d * Dot(n, a) == 1.0;
  }

  // A square matrix with orthonormal columns has orthonormal rows: it reaches
  // every vector.
  lemma OrthogonalOnto(u: M3, w: V3)
    requires Orthogonal(u)
    ensures MulVec(u, MulVec(Transpose(u), w)) == w
  {
    var back := MulVec(u, MulVec(Transpose(u), w));
    var e := Sub(w, back);
    var a, b, c := u.c0, u.c1, u.c2;
    assert Dot(a, e) == 0.0 && Dot(b, e) == 0.0 && Dot(c, e) == 0.0 by {
      OrthogonalUndo(u, MulVec(Transpose(u), w));
      TransposeMulVec(u, w);
      TransposeMulVec(u, back);
      DotSub(a, w, back);
      DotSub(b, w, back);
      DotSub(c, w, back);
      hide *;
    }
    assert Det(u) * Dot(e, e) == 0.0 by {
      hide Dot, Combine, Cross, Scale, MulVec, Transpose, Sub;
      Cramer(a, b, c, e);
      DotScale(Det(u), e, e);
      DotCombine(Dot(Cross(b, c), e), a, Dot(Cross(c, a), e), b, Dot(Cross(a, b), e), c, e);
    }
    OrthogonalDet(u);
    DotSelf(e);
    hide Dot, Det, Combine, MulVec, Transpose;
    assert Dot(e, e) == (Det(u) * Det(u)) * Dot(e, e) == Det(u) * (Det(u) * Dot(e, e)) == 0.0;
  }

  lemma DotSub(c: V3, a: V3, b: V3)
    ensures Dot(c, Sub(a, b)) == Dot(c, a) - Dot(c, b)
  {
  }

  // ---- Changing frame ------------------------------------------------------

  lemma MulVecAdd(m: M3, a: V3, b: V3)
    ensures MulVec(m, Add(a, b)) == Add(MulVec(m, a), MulVec(m, b))
  {
    hide Dot, MulVec, Transpose;
    ByRows(m, Add(a, b));
    ByRows(m, a);
    ByRows(m, b);
    DotAdd(a, b, Transpose(m).c0);
    DotAdd(a, b, Transpose(m).c1);
    DotAdd(a, b, Transpose(m).c2);
  }

  lemma MulVecScale(m: M3, k: real, a: V3)
    ensures MulVec(m, Scale(k, a)) == Scale(k, MulVec(m, a))
  {
    hide Dot, MulVec, Transpose;
    ByRows(m, Scale(k, a));
    ByRows(m, a);
    DotScale(k, a, Transpose(m).c0);
    DotScale(k, a, Transpose(m).c1);
    DotScale(k, a, Transpose(m).c2);
  }

  lemma MatMulAlong(m: M3, a: M3, b: M3, t: real)
    ensures MatMul(m, AddM(a, ScaleM(t, b))) == AddM(MatMul(m, a), ScaleM(t, MatMul(m, b)))
  {
    hide MulVec, Add, Scale;
    MulVecAdd(m, a.c0, Scale(t, b.c0));
    MulVecAdd(m, a.c1, Scale(t, b.c1));
    MulVecAdd(m, a.c2, Scale(t, b.c2));
    MulVecScale(m, t, b.c0);
    MulVecScale(m, t, b.c1);
    MulVecScale(m, t, b.c2);
  }

  lemma TransposeAdd(a: M3, b: M3)
    ensures Transpose(AddM(a, b)) == AddM(Transpose(a), Transpose(b))
  {
  }

  lemma TransposeScaleX(k: real, a: M3)
    ensures Transpose(ScaleM(k, a)).c0 == Scale(k, Transpose(a).c0)
  {
  }

  lemma TransposeScaleY(k: real, a: M3)
    ensures Transpose(ScaleM(k, a)).c1 == Scale(k, Transpose(a).c1)
  {
  }

  lemma TransposeScaleZ(k: real, a: M3)
    ensures Transpose(ScaleM(k, a)).c2 == Scale(k, Transpose(a).c2)
  {
  }

  lemma TransposeScale(k: real, a: M3)
    ensures Transpose(ScaleM(k, a)) == ScaleM(k, Transpose(a))
  {
    hide Scale, Transpose;
    TransposeScaleX(k, a);
    TransposeScaleY(k, a);
    TransposeScaleZ(k, a);
  }

  lemma TransposeAlong(a: M3, b: M3, t: real)
    ensures Transpose(AddM(a, ScaleM(t, b))) == AddM(Transpose(a), ScaleM(t, Transpose(b)))
  {
    TransposeAdd(a, ScaleM(t, b));
    TransposeScale(t, b);
    hide *;
  }

  lemma MatMulAlongLeft(a: M3, b: M3, m: M3, t: real)
    ensures MatMul(AddM(a, ScaleM(t, b)), m) == AddM(MatMul(a, m), ScaleM(t, MatMul(b, m)))
  {
    hide *;
    var s := AddM(a, ScaleM(t, b));
    TransposeMatMul(s, m);
    TransposeAlong(a, b, t);
    MatMulAlong(Transpose(m), Transpose(a), Transpose(b), t);
    TransposeMatMul(a, m);
    TransposeMatMul(b, m);
    TransposeAlong(MatMul(a, m), MatMul(b, m), t);
    TransposeInvolution(MatMul(s, m));
    TransposeInvolution(AddM(MatMul(a, m), ScaleM(t, MatMul(b, m))));
  }

  lemma MatMulAssociative(a: M3, b: M3, c: M3)
    ensures MatMul(MatMul(a, b), c) == MatMul(a, MatMul(b, c))
  {
    MulVecAssociative(a, b, c.c0);
    MulVecAssociative(a, b, c.c1);
    MulVecAssociative(a, b, c.c2);
    hide MulVec;
  }

  lemma OrthogonalCancelLeft(u: M3, m: M3)
    requires Orthogonal(u)
    ensures MatMul(u, MatMul(Transpose(u), m)) == m
  {
    OrthogonalOnto(u, m.c0);
    OrthogonalOnto(u, m.c1);
    OrthogonalOnto(u, m.c2);
    hide MulVec, Transpose;
  }

  lemma OrthogonalCancelRight(v: M3, m: M3)
    requires Orthogonal(v)
    ensures MatMul(MatMul(m, v), Transpose(v)) == m
  {
    hide *;
    TransposeMatMul(MatMul(m, v), Transpose(v));
    TransposeMatMul(m, v);
    TransposeInvolution(v);
    OrthogonalCancelLeft(v, Transpose(m));
    TransposeInvolution(m);
    TransposeInvolution(MatMul(MatMul(m, v), Transpose(v)));
  }

  // A change of frame loses nothing.
  lemma RotateUnrotate(u: M3, x: M3, v: M3)
    requires Orthogonal(u) && Orthogonal(v)
    ensures Rotate(u, Unrotate(u, x, v), v) == x
  {
    hide MatMul, Transpose, Orthogonal;
    var ux := MatMul(Transpose(u), x);
    MatMulAssociative(u, ux, v);
    OrthogonalCancelRight(v, MatMul(u, ux));
    OrthogonalCancelLeft(u, x);
  }

  lemma RotateAlong(u: M3, a: M3, b: M3, v: M3, t: real)
    ensures Rotate(u, AddM(a, ScaleM(t, b)), v) == AddM(Rotate(u, a, v), ScaleM(t, Rotate(u, b, v)))
  {
    hide MatMul, AddM, ScaleM, Transpose;
    MatMulAlong(u, a, b, t);
    MatMulAlongLeft(MatMul(u, a), MatMul(u, b), Transpose(v), t);
  }

  lemma InnerMatMulLeft(u: M3, w: M3, x: M3)
    ensures Inner(MatMul(u, w), x) == Inner(w, MatMul(Transpose(u), x))
  {
    hide Dot, MulVec, Transpose;
    Adjoint(u, w.c0, x.c0);
    Adjoint(u, w.c1, x.c1);
    Adjoint(u, w.c2, x.c2);
  }

  lemma InnerTranspose(a: M3, b: M3)
    ensures Inner(Transpose(a), Transpose(b)) == Inner(a, b)
  {
  }

  lemma InnerRotate(u: M3, w: M3, v: M3, x: M3)
    ensures Inner(Rotate(u, w, v), x) == Inner(w, Unrotate(u, x, v))
  {
    hide MatMul, Transpose, Inner;
    var uw, vt := MatMul(u, w), Transpose(v);
    InnerTranspose(MatMul(uw, vt), x);
    TransposeMatMul(uw, vt);
    TransposeInvolution(v);
    InnerMatMulLeft(v, Transpose(uw), Transpose(x));
    TransposeMatMul(x, v);
    InnerTranspose(uw, MatMul(x, v));
    InnerMatMulLeft(u, w, MatMul(x, v));
    MatMulAssociative(Transpose(u), x, v);
  }

  // Frames of singular vectors keep inner products of matrices.
  lemma InnerRotateRotate(u: M3, a: M3, b: M3, v: M3)
    requires Orthogonal(u) && Orthogonal(v)
    ensures Inner(Rotate(u, a, v), Rotate(u, b, v)) == Inner(a, b)
  {
    hide Inner, MatMul, Transpose, Orthogonal;
    InnerRotate(u, a, v, Rotate(u, b, v));
    UnrotateRotate(u, b, v);
  }

  lemma UnrotateRotate(u: M3, b: M3, v: M3)
    requires Orthogonal(u) && Orthogonal(v)
    ensures Unrotate(u, Rotate(u, b, v), v) == b
  {
    hide MatMul, Transpose, Orthogonal;
    var ub, ut, vt := MatMul(u, b), Transpose(u), Transpose(v);
    MatMulAssociative(ut, ub, vt);
    OrthogonalUndoLeft(u, b);
    OrthogonalUndoRight(v, b);
  }

  lemma OrthogonalUndoLeft(u: M3, m: M3)
    requires Orthogonal(u)
    ensures MatMul(Transpose(u), MatMul(u, m)) == m
  {
    OrthogonalUndo(u, m.c0);
    OrthogonalUndo(u, m.c1);
    OrthogonalUndo(u, m.c2);
    hide MulVec, Transpose;
  }

  lemma OrthogonalUndoRight(v: M3, m: M3)
    requires Orthogonal(v)
    ensures MatMul(MatMul(m, Transpose(v)), v) == m
  {
    hide *;
    var vt := Transpose(v);
    TransposeMatMul(MatMul(m, vt), v);
    TransposeMatMul(m, vt);
    TransposeInvolution(v);
    OrthogonalUndoLeft(v, Transpose(m));
    TransposeInvolution(m);
    TransposeInvolution(MatMul(MatMul(m, vt), v));
  }
}
