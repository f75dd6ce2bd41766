// The 3x2 eigenvalues by quotients in the singular values (eigsys/eigsys_2.py:129-136)
// against those by the invariants (eigsys/eigsys_invariants_2.py:175-182).
module EigenvalueForms2 {
  import opened LinearAlgebra
  import opened Hessian2
  import opened EigenvalueForms

  // sym_dEda
  function DEda2(a: real, b: real, g: V2): V2 {
    MulVec2(DIda2(a, b), g)
  }

  // lmds[0..4] of the singular-value script.
  function QuotientForm(a: real, b: real, d: V2, h: M2): (lmds: seq<real>)
    requires a > 0.0 && b > 0.0
    ensures |lmds| == 4
  {
    [(d.x + d.y) / (a + b), Difference(d.x, d.y, a, b, h.c0.x, h.c1.x), d.x / a, d.y / b]
  }

  // How far the special branch bends away, per unit of a - b.
  function Bend2(a: real, b: real, g: V2, h: M2): real {
    var m := MulVec2(h, V2(2.0, -2.0 * a * b));
    2.0 * a * m.x + 2.0 * a * (b * b) * m.y - 2.0 * b * g.y
  }

  lemma GradientFactors(a: real, b: real, g: V2)
    ensures var d := DEda2(a, b, g);
      && d.x == 2.0 * (g.x + b * b * g.y) * a && d.y == 2.0 * (g.x + a * a * g.y) * b
      && d.x + d.y == 2.0 * (g.x + a * b * g.y) * (a + b) && d.x - d.y == 2.0 * (g.x - a * b * g.y) * (a - b)
  {
    hide MulVec2, Product2;
    var d, j := DEda2(a, b, g), DIda2(a, b);
    MulVecEntries(j, g.x, g.y);
    FactorProduct(a, b, g, d, j);
    hide DEda2, DIda2;
    FactorKernel(a, b, g.x, g.y, d.x, d.y);
  }

  lemma FactorProduct(a: real, b: real, g: V2, d: V2, j: M2)
    requires j == DIda2(a, b) && Product2(d, j, g.x, g.y)
    ensures d.x == 2.0 * a * g.x + 2.0 * (a * (b * b)) * g.y && d.y == 2.0 * b * g.x + 2.0 * (a * a * b) * g.y
  {
  }

  lemma FactorKernel(a: real, b: real, p: real, q: real, x: real, y: real)
    requires x == 2.0 * a * p + 2.0 * (a * (b * b)) * q && y == 2.0 * b * p + 2.0 * (a * a * b) * q
    ensures x == 2.0 * (p + b * b * q) * a && y == 2.0 * (p + a * a * q) * b
    ensures x + y == 2.0 * (p + a * b * q) * (a + b) && x - y == 2.0 * (p - a * b * q) * (a - b)
  {
  }

  // The first row of the Hessian the special branch reads, for m and n its columns' products.
  ghost predicate FirstRow(e0: real, e1: real, a: real, b: real, g: V2, m: V2, n: V2, x: real, u: real) {
    && e0 == g.x * 2.0 + g.y * (2.0 * (b * b)) + (x * m.x + u * m.y)
    && e1 == g.y * (4.0 * a * b) + (x * n.x + u * n.y)
  }

  ghost predicate BendShape(bend: real, b: real, g: V2, k: V2, x: real, u: real) {
    bend == x * k.x + u * k.y - 2.0 * b * g.y
  }

  // The columns are (x, u) and (y, w).
  ghost predicate Columns(a: real, b: real, x: real, y: real, u: real, w: real, z: real) {
    x == 2.0 * a && y == 2.0 * b && u == 2.0 * (a * (b * b)) && w == 2.0 * (a * a * b) && z == -2.0 * a * b
  }

  // h's products with the columns differ by a - b times its product with (2, -2 a b).
  lemma ColumnGap(a: real, b: real, h: M2, m: V2, n: V2, k: V2, x: real, y: real, u: real, w: real, z: real)
    requires Columns(a, b, x, y, u, w, z)
    requires Product2(m, h, x, u) && Product2(n, h, y, w) && Product2(k, h, 2.0, z)
    ensures m.x - n.x == (a - b) * k.x && m.y - n.y == (a - b) * k.y
  {
    hide Columns;
    PowerGap(a, b, x, y, u, w, z);
    GapKernel(h.c0.x, h.c1.x, x, y, a - b, u, w, z, m.x, n.x, k.x);
    GapKernel(h.c0.y, h.c1.y, x, y, a - b, u, w, z, m.y, n.y, k.y);
  }

  lemma PowerGap(a: real, b: real, x: real, y: real, u: real, w: real, z: real)
    requires Columns(a, b, x, y, u, w, z)
    ensures u - w == (a - b) * z && x - y == 2.0 * (a - b)
  {
  }

  lemma GapKernel(p: real, q: real, x: real, y: real, t: real, u: real, w: real, z: real, m: real, n: real, k: real)
    requires x - y == 2.0 * t && u - w == t * z
    requires m == p * x + q * u && n == p * y + q * w && k == p * 2.0 + q * z
    ensures m - n == t * k
  {
    assert m - n == p * (2.0 * t) + q * (t * z) by {
      assert m - n == p * (x - y) + q * (u - w);
    }
  }

  lemma BranchKernel(a: real, b: real, g: V2, m: V2, n: V2, k: V2, x: real, u: real,
                     e0: real, e1: real, bend: real)
    requires FirstRow(e0, e1, a, b, g, m, n, x, u) && BendShape(bend, b, g, k, x, u)
    requires m.x - n.x == (a - b) * k.x && m.y - n.y == (a - b) * k.y
    ensures e0 - e1 - 2.0 * (g.x - a * b * g.y) == (a - b) * bend
  {
    FinishKernel(a, b, a - b, g.x, g.y, m.x, m.y, n.x, n.y, k.x, k.y, x, u);
  }

  lemma FinishKernel(a: real, b: real, t: real, p: real, q: real, m0: real, m1: real, n0: real, n1: real,
                     k0: real, k1: real, x: real, u: real)
    requires t == a - b && m0 - n0 == t * k0 && m1 - n1 == t * k1
    ensures (p * 2.0 + q * (2.0 * (b * b)) + (x * m0 + u * m1)) - (q * (4.0 * a * b) + (x * n0 + u * n1))
      - 2.0 * (p - a * b * q) == t * (x * k0 + u * k1 - 2.0 * b * q)
  {
    assert x * m0 - x * n0 == x * (t * k0) by {
      assert x * m0 - x * n0 == x * (m0 - n0);
    }
    assert u * m1 - u * n1 == u * (t * k1) by {
      assert u * m1 - u * n1 == u * (m1 - n1);
    }
  }

  lemma ColumnsAre(a: real, b: real, x: real, y: real, u: real, w: real, z: real)
    requires Columns(a, b, x, y, u, w, z)
    ensures DIda2(a, b) == M2(V2(x, y), V2(u, w))
  {
  }

  lemma HessianRow(a: real, b: real, g: V2, h: M2)
    ensures var d, e := DIda2(a, b), D2Eda2(a, b, g, h);
      && e.c0.x == g.x * 2.0 + g.y * (2.0 * (b * b)) + MulVec2(d, MulVec2(h, V2(d.c0.x, d.c1.x))).x
      && e.c1.x == g.y * (4.0 * a * b) + MulVec2(d, MulVec2(h, V2(d.c0.y, d.c1.y))).x
  {
    hide MulVec2, DIda2;
  }

  lemma BranchEntries(a: real, b: real, g: V2, h: M2, x: real, y: real, u: real, w: real, z: real)
    requires Columns(a, b, x, y, u, w, z)
    ensures var e := D2Eda2(a, b, g, h);
      FirstRow(e.c0.x, e.c1.x, a, b, g, MulVec2(h, V2(x, u)), MulVec2(h, V2(y, w)), x, u)
  {
    hide MulVec2, DIda2, D2Eda2, Columns;
    var d, m, n := DIda2(a, b), MulVec2(h, V2(x, u)), MulVec2(h, V2(y, w));
    ColumnsAre(a, b, x, y, u, w, z);
    HessianRow(a, b, g, h);
    MulVecEntries(d, m.x, m.y);
    MulVecEntries(d, n.x, n.y);
  }

  lemma BendIs(a: real, b: real, g: V2, h: M2, x: real, y: real, u: real, w: real, z: real)
    requires Columns(a, b, x, y, u, w, z)
    ensures BendShape(Bend2(a, b, g, h), b, g, MulVec2(h, V2(2.0, z)), x, u)
  {
    hide MulVec2;
  }

  lemma BranchGapAt(a: real, b: real, g: V2, h: M2, x: real, y: real, u: real, w: real, z: real)
    requires Columns(a, b, x, y, u, w, z)
    ensures var s := D2Eda2(a, b, g, h);
      s.c0.x - s.c1.x - 2.0 * (g.x - a * b * g.y) == (a - b) * Bend2(a, b, g, h)
  {
    hide MulVec2, D2Eda2, Bend2, Product2, FirstRow, BendShape, Columns;
    var m, n, k, s := MulVec2(h, V2(x, u)), MulVec2(h, V2(y, w)), MulVec2(h, V2(2.0, z)), D2Eda2(a, b, g, h);
    BranchEntries(a, b, g, h, x, y, u, w, z);
    BendIs(a, b, g, h, x, y, u, w, z);
    MulVecEntries(h, x, u);
    MulVecEntries(h, y, w);
    MulVecEntries(h, 2.0, z);
    ColumnGap(a, b, h, m, n, k, x, y, u, w, z);
    BranchKernel(a, b, g, m, n, k, x, u, s.c0.x, s.c1.x, Bend2(a, b, g, h));
  }

  // The special branch against the invariant form.
  lemma BranchGap(a: real, b: real, g: V2, h: M2)
    ensures var s := D2Eda2(a, b, g, h);
      s.c0.x - s.c1.x - 2.0 * (g.x - a * b * g.y) == (a - b) * Bend2(a, b, g, h)
  {
    hide D2Eda2, Bend2;
    BranchGapAt(a, b, g, h, 2.0 * a, 2.0 * b, 2.0 * (a * (b * b)), 2.0 * (a * a * b), -2.0 * a * b);
  }

  // For all positive singular values the quotients are the invariant eigenvalues; the
  // difference is, exactly where its quotient is taken, the values are equal or the bend is zero.
  lemma QuotientFormAgrees(a: real, b: real, g: V2, h: M2, values: V2)
    requires a > 0.0 && b > 0.0
    ensures var q, l := QuotientForm(a, b, DEda2(a, b, g), D2Eda2(a, b, g, h)), Eigenvalues2(a, b, g, values);
      && q[0] == l[0] && q[2] == l[2] && q[3] == l[3]
      && (q[1] == l[1] <==> Abs(a - b) > 0.01 || a == b || Bend2(a, b, g, h) == 0.0)
  {
    GradientFactors(a, b, g);
    BranchGap(a, b, g, h);
    hide DEda2, D2Eda2, Bend2, Abs;
    var d, s := DEda2(a, b, g), D2Eda2(a, b, g, h);
    Quotient(d.x + d.y, 2.0 * (g.x + a * b * g.y), a + b);
    Quotient(d.x, 2.0 * (g.x + b * b * g.y), a);
    Quotient(d.y, 2.0 * (g.x + a * a * g.y), b);
    DifferenceAt(a, b, d.x, d.y, s.c0.x, s.c1.x, 2.0 * (g.x - a * b * g.y), Bend2(a, b, g, h));
  }

  lemma DifferenceAt(a: real, b: real, x: real, y: real, h0: real, h1: real, m: real, bend: real)
    requires x - y == m * (a - b) && h0 - h1 - m == (a - b) * bend
    ensures Difference(x, y, a, b, h0, h1) == m <==> Abs(a - b) > NEAR || a == b || bend == 0.0
  {
    if Abs(a - b) > NEAR {
      Quotient(x - y, m, a - b);
    }
    ProductZero(a - b, bend, (a - b) * bend);
  }
}
