// Assembling a singular value decomposition from an eigen-decomposition of
// F.T F (eigsys/eigsys_3.py:27-34, eigsys/eigsys_2.py:19-31).
module Svd {
  import opened LinearAlgebra
  import opened Invariants3
  import opened Hessian3
  import opened Hessian2

  // F x . F y == x . (F.T F) y
  lemma GramDot(f: M3, x: V3, y: V3)
    ensures Dot(MulVec(f, x), MulVec(f, y)) == Dot(x, MulVec(GramMatrix(f), y))
  {
    hide Dot, MulVec, Transpose;
    Adjoint(f, x, MulVec(f, y));
    MulVecAssociative(Transpose(f), f, y);
  }

  // Two eigenvectors of F.T F stay orthogonal under F, and are stretched by the
  // root of the eigenvalue.
  lemma StretchedColumns(f: M3, q: V3, r: V3, l: real)
    requires MulVec(GramMatrix(f), r) == Scale(l, r)
    ensures Dot(MulVec(f, q), MulVec(f, r)) == l * Dot(q, r)
  {
    hide *;
    GramDot(f, q, r);
    DotScale(l, r, q);
  }

  lemma NormalizePair(sqrt: real -> real, b: V3, c: V3)
    requires Norm(sqrt, b) != 0.0 && Norm(sqrt, c) != 0.0
    ensures Dot(b, c) == 0.0 ==> Dot(Normalize(sqrt, b), Normalize(sqrt, c)) == 0.0
  {
    hide Dot, Scale;
    var k, l := 1.0 / Norm(sqrt, b), 1.0 / Norm(sqrt, c);
    DotScale(k, b, Scale(l, c));
    DotScale(l, c, b);
  }

  lemma OneColumn(u: M3, k: real)
    ensures MulVec(u, V3(k, 0.0, 0.0)) == Scale(k, u.c0)
    ensures MulVec(u, V3(0.0, k, 0.0)) == Scale(k, u.c1)
    ensures MulVec(u, V3(0.0, 0.0, k)) == Scale(k, u.c2)
  {
    ZeroScale(u.c0);
    ZeroScale(u.c1);
    ZeroScale(u.c2);
    hide Scale;
  }

  lemma ZeroScale(c: V3)
    ensures Scale(0.0, c) == ZERO
  {
  }

  lemma MatMulDiag(u: M3, s: V3)
    ensures MatMul(u, Diag(s)) == M3(Scale(s.x, u.c0), Scale(s.y, u.c1), Scale(s.z, u.c2))
  {
    hide MulVec, Scale;
    OneColumn(u, s.x);
    OneColumn(u, s.y);
    OneColumn(u, s.z);
  }

  // U, sigma and V.T of F, from the eigenvalues and eigenvectors of F.T F.
  method Svd3x3(f: M3, lmd: V3, q: M3, sqrt: real -> real) returns (u: M3, sigma: V3, vt: M3)
    requires IsSqrt(sqrt) && EigenSystem(GramMatrix(f), lmd, q)
    requires lmd.x > 0.0 && lmd.y > 0.0 && lmd.z > 0.0
    ensures Orthogonal(u) && Orthogonal(q) && vt == Transpose(q)
    ensures sigma.x > 0.0 && sigma.y > 0.0 && sigma.z > 0.0
    ensures Square(sigma.x) == lmd.x && Square(sigma.y) == lmd.y && Square(sigma.z) == lmd.z
    ensures f == Rotate(u, Diag(sigma), q)
  {
    hide Dot, Scale, MulVec, Transpose, GramMatrix, Square, MatMul, Normalize;
    sigma := V3(sqrt(lmd.x), sqrt(lmd.y), sqrt(lmd.z));
    var columns := new V3[3];
    columns[0], columns[1], columns[2] := MulVec(f, q.c0), MulVec(f, q.c1), MulVec(f, q.c2);
    ghost var c := M3(columns[0], columns[1], columns[2]);
    StretchedFrame(f, lmd, q, c);
    NormalizeUnit(sqrt, c.c0);
    NormalizeUnit(sqrt, c.c1);
    NormalizeUnit(sqrt, c.c2);
    for i := 0 to 3
      invariant columns[0] == if 0 < i then Normalize(sqrt, c.c0) else c.c0
      invariant columns[1] == if 1 < i then Normalize(sqrt, c.c1) else c.c1
      invariant columns[2] == if 2 < i then Normalize(sqrt, c.c2) else c.c2
    {
      columns[i] := Normalize(sqrt, columns[i]);
    }
    u := M3(columns[0], columns[1], columns[2]);
    vt := Transpose(q);
    NormalizePair(sqrt, c.c0, c.c1);
    NormalizePair(sqrt, c.c0, c.c2);
    NormalizePair(sqrt, c.c1, c.c2);
    MatMulDiag(u, sigma);
    OrthogonalCancelRight(q, f);
    assert MatMul(f, q) == c by {
      MatMulColumns(f, q);
    }
  }

  lemma MatMulColumns(f: M3, q: M3)
    ensures MatMul(f, q) == M3(MulVec(f, q.c0), MulVec(f, q.c1), MulVec(f, q.c2))
  {
  }

  lemma StretchedFrame(f: M3, lmd: V3, q: M3, c: M3)
    requires EigenSystem(GramMatrix(f), lmd, q)
    requires c == M3(MulVec(f, q.c0), MulVec(f, q.c1), MulVec(f, q.c2))
    ensures Dot(c.c0, c.c0) == lmd.x && Dot(c.c1, c.c1) == lmd.y && Dot(c.c2, c.c2) == lmd.z
    ensures Dot(c.c0, c.c1) == 0.0 && Dot(c.c0, c.c2) == 0.0 && Dot(c.c1, c.c2) == 0.0
  {
    hide Dot, Scale, MulVec, GramMatrix;
    StretchedColumns(f, q.c0, q.c0, lmd.x);
    StretchedColumns(f, q.c1, q.c1, lmd.y);
    StretchedColumns(f, q.c2, q.c2, lmd.z);
    StretchedColumns(f, q.c0, q.c1, lmd.y);
    StretchedColumns(f, q.c0, q.c2, lmd.z);
    StretchedColumns(f, q.c1, q.c2, lmd.z);
  }

  // ---- 3x2 -----------------------------------------------------------------------

  // C @ v for the 2x2 Gram matrix C.
  lemma GramDot2(f: M32, x: V2, y: V2)
    ensures Dot(MulPlane(f, x), MulPlane(f, y)) == Dot2(x, MulVec2(Gram2(f), y))
  {
    hide Dot, Scale, Add;
    var w := MulPlane(f, y);
    DotAdd(Scale(x.x, f.c0), Scale(x.y, f.c1), w);
    DotScale(x.x, f.c0, w);
    DotScale(x.y, f.c1, w);
    DotAdd(Scale(y.x, f.c0), Scale(y.y, f.c1), f.c0);
    DotAdd(Scale(y.x, f.c0), Scale(y.y, f.c1), f.c1);
    DotScale(y.x, f.c0, f.c0);
    DotScale(y.y, f.c1, f.c0);
    DotScale(y.x, f.c0, f.c1);
    DotScale(y.y, f.c1, f.c1);
    GramKernel(x, y, Gram2(f), Dot(f.c0, w), Dot(f.c1, w), Dot(MulPlane(f, x), w));
  }

  lemma GramKernel(x: V2, y: V2, c: M2, w0: real, w1: real, total: real)
    requires total == x.x * w0 + x.y * w1
    requires w0 == y.x * c.c0.x + y.y * c.c1.x && w1 == y.x * c.c0.y + y.y * c.c1.y
    ensures total == Dot2(x, MulVec2(c, y))
  {
  }

  // F @ v
  function MulPlane(f: M32, v: V2): V3 {
    Add(Scale(v.x, f.c0), Scale(v.y, f.c1))
  }

  lemma StretchedColumns2(f: M32, q: V2, r: V2, l: real)
    requires MulVec2(Gram2(f), r) == V2(l * r.x, l * r.y)
    ensures Dot(MulPlane(f, q), MulPlane(f, r)) == l * Dot2(q, r)
  {
    GramDot2(f, q, r);
    hide Gram2, MulVec2, MulPlane, Dot;
  }

  // The third column is the unit normal, so the frame is complete.
  lemma ExtendOrthogonal(a: V3, b: V3)
    requires Dot(a, a) == 1.0 && Dot(b, b) == 1.0 && Dot(a, b) == 0.0
    ensures Orthogonal(M3(a, b, Cross(a, b)))
  {
    CrossSelf(a, b);
    CrossDotCross(a, b, a, b);
    DotSymmetric(a, b);
    hide Dot, Cross;
  }

  // U extended by extend, sigma, and V.T for a 3x2 F.
  method Svd3x2(f: M32, lmd: V2, q: M2, sqrt: real -> real) returns (u: M3, sigma: V2)
    requires IsSqrt(sqrt) && EigenSystem2(Gram2(f), lmd, q)
    requires lmd.x > 0.0 && lmd.y > 0.0
    ensures Orthogonal(u) && u.c2 == Cross(u.c0, u.c1)
    ensures sigma.x > 0.0 && sigma.y > 0.0 && Square(sigma.x) == lmd.x && Square(sigma.y) == lmd.y
    ensures f == Rotate2(u, Diag2(sigma.x, sigma.y), q)
  {
    hide Dot, Dot2, Scale, MulVec, MulVec2, Gram2, Square, Normalize, Add, Cross;
    sigma := V2(sqrt(lmd.x), sqrt(lmd.y));
    var columns := new V3[2];
    columns[0], columns[1] := MulPlane(f, q.c0), MulPlane(f, q.c1);
    ghost var a, b := columns[0], columns[1];
    StretchedColumns2(f, q.c0, q.c0, lmd.x);
    StretchedColumns2(f, q.c1, q.c1, lmd.y);
    StretchedColumns2(f, q.c0, q.c1, lmd.y);
    NormalizeUnit(sqrt, a);
    NormalizeUnit(sqrt, b);
    for i := 0 to 2
      invariant columns[0] == if 0 < i then Normalize(sqrt, a) else a
      invariant columns[1] == if 1 < i then Normalize(sqrt, b) else b
    {
      columns[i] := Normalize(sqrt, columns[i]);
    }
    NormalizePair(sqrt, a, b);
    ExtendOrthogonal(columns[0], columns[1]);
    u := M3(columns[0], columns[1], Cross(columns[0], columns[1]));
    Reassemble(f, q, u, sigma, a, b);
  }

  lemma Reassemble(f: M32, q: M2, u: M3, sigma: V2, a: V3, b: V3)
    requires Orthogonal2(q)
    requires a == MulPlane(f, q.c0) && b == MulPlane(f, q.c1)
    requires Scale(sigma.x, u.c0) == a && Scale(sigma.y, u.c1) == b
    ensures f == Rotate2(u, Diag2(sigma.x, sigma.y), q)
  {
    hide Scale, MulVec, Orthogonal2, Add;
    OneColumn(u, sigma.x);
    OneColumn(u, sigma.y);
    RowsOrthonormal(q);
    PlaneBack(f, q, a, b);
  }

  // A 2x2 matrix with orthonormal columns has orthonormal rows.
  lemma RowsOrthonormal(q: M2)
    requires Orthogonal2(q)
    ensures q.c0.x * q.c0.x + q.c1.x * q.c1.x == 1.0
    ensures q.c0.y * q.c0.y + q.c1.y * q.c1.y == 1.0
    ensures q.c0.x * q.c0.y + q.c1.x * q.c1.y == 0.0
  {
    RowsKernel(q.c0.x, q.c0.y, q.c1.x, q.c1.y);
  }

  lemma RowsKernel(x0: real, y0: real, x1: real, y1: real)
    requires x0 * x0 + y0 * y0 == 1.0 && x1 * x1 + y1 * y1 == 1.0 && x0 * x1 + y0 * y1 == 0.0
    ensures x0 * x0 + x1 * x1 == 1.0 && y0 * y0 + y1 * y1 == 1.0 && x0 * y0 + x1 * y1 == 0.0
  {
    var d := x0 * y1 - y0 * x1;
    assert d * x0 == y1 by {
      assert d * x0 == (x0 * x0 + y0 * y0) * y1 - y0 * (x0 * x1 + y0 * y1);
    }
    assert d * y0 == -x1 by {
      assert d * y0 == x0 * (x0 * x1 + y0 * y1) - (x0 * x0 + y0 * y0) * x1;
    }
    assert d * d == 1.0 by {
      assert d * d == (d * x0) * y1 - (d * y0) * x1;
    }
    assert x1 * x1 == (d * d) * (y0 * y0);
    assert y1 * y1 == (d * d) * (x0 * x0);
    assert x1 * y1 == -((d * d) * (x0 * y0));
  }

  // c is p a + q b, entry by entry.
  ghost predicate InPlane(c: V3, p: real, a: V3, q: real, b: V3) {
    OnLine(c.x, p, a.x, q, b.x) && OnLine(c.y, p, a.y, q, b.y) && OnLine(c.z, p, a.z, q, b.z)
  }

  ghost predicate OnLine(c: real, p: real, a: real, q: real, b: real) {
    c == p * a + q * b
  }

  lemma PlaneEntries(p: real, a: V3, q: real, b: V3)
    ensures InPlane(Add(Scale(p, a), Scale(q, b)), p, a, q, b)
  {
  }

  ghost predicate Rows(p: real, q: real, r: real, s: real) {
    p * p + q * q == 1.0 && r * r + s * s == 1.0 && p * r + q * s == 0.0
  }

  lemma PlaneBack(f: M32, q: M2, a: V3, b: V3)
    requires a == MulPlane(f, q.c0) && b == MulPlane(f, q.c1) && Rows(q.c0.x, q.c1.x, q.c0.y, q.c1.y)
    ensures Add(Scale(q.c0.x, a), Scale(q.c1.x, b)) == f.c0
    ensures Add(Scale(q.c0.y, a), Scale(q.c1.y, b)) == f.c1
  {
    hide Add, Scale, InPlane, Rows;
    PlaneEntries(q.c0.x, f.c0, q.c0.y, f.c1);
    PlaneEntries(q.c1.x, f.c0, q.c1.y, f.c1);
    PlaneEntries(q.c0.x, a, q.c1.x, b);
    PlaneEntries(q.c0.y, a, q.c1.y, b);
    PlaneUndo(q.c0.x, q.c1.x, q.c0.y, q.c1.y, f.c0, f.c1, a, b,
              Add(Scale(q.c0.x, a), Scale(q.c1.x, b)), Add(Scale(q.c0.y, a), Scale(q.c1.y, b)));
  }

  lemma PlaneUndo(p: real, q: real, r: real, s: real, f: V3, g: V3, a: V3, b: V3, c: V3, d: V3)
    requires Rows(p, q, r, s) && InPlane(a, p, f, r, g) && InPlane(b, q, f, s, g)
    requires InPlane(c, p, a, q, b) && InPlane(d, r, a, s, b)
    ensures c == f && d == g
  {
    hide Rows, OnLine;
    PlaneEntry(p, q, r, s, f.x, g.x, a.x, b.x, c.x, d.x);
    PlaneEntry(p, q, r, s, f.y, g.y, a.y, b.y, c.y, d.y);
    PlaneEntry(p, q, r, s, f.z, g.z, a.z, b.z, c.z, d.z);
  }

  lemma PlaneEntry(p: real, q: real, r: real, s: real, f: real, g: real, a: real, b: real, c: real, d: real)
    requires Rows(p, q, r, s) && OnLine(a, p, f, r, g) && OnLine(b, q, f, s, g)
    requires OnLine(c, p, a, q, b) && OnLine(d, r, a, s, b)
    ensures c == f && d == g
  {
    assert p * a + q * b == (p * p + q * q) * f + (p * r + q * s) * g;
    assert r * a + s * b == (p * r + q * s) * f + (r * r + s * s) * g;
  }
}
