// H_rebuilt = Qmat @ diag(lmds) @ Qmat.T: the assembly loops of the eigsys
// scripts, and what the assembled matrix does (eigsys/eigsys_invariants_3.py:
// 134-139, 198-201; the 3x2 script repeats it with six columns of six entries).
module Assembly {
  import opened LinearAlgebra
  import opened Invariants3
  import opened Hessian3
  import opened Eigenpairs

  // ---- Sums -----------------------------------------------------------------------

  // a[0] * b[0] + ... + a[n - 1] * b[n - 1]
  function DotTo(a: seq<real>, b: seq<real>, n: nat): real
    requires n <= |a| && n <= |b|
  {
    if n == 0 then 0.0 else DotTo(a, b, n - 1) + a[n - 1] * b[n - 1]
  }

  // Entry (r, c) of Qmat diag(lmds) Qmat.T over the first m columns of Qmat.
  function Entry(lmds: seq<real>, vs: seq<seq<real>>, r: nat, c: nat, m: nat): real
    requires m <= |lmds| == |vs| && forall i :: 0 <= i < |vs| ==> r < |vs[i]| && c < |vs[i]|
  {
    if m == 0 then 0.0 else Entry(lmds, vs, r, c, m - 1) + vs[m - 1][r] * lmds[m - 1] * vs[m - 1][c]
  }

  ghost predicate Columns(lmds: seq<real>, vs: seq<seq<real>>, size: nat) {
    |lmds| == |vs| && forall i :: 0 <= i < |vs| ==> |vs[i]| == size
  }

  // Row r of the matrix against x, over its first n columns.
  function RowDot(lmds: seq<real>, vs: seq<seq<real>>, r: nat, x: seq<real>, m: nat, n: nat): real
    requires Columns(lmds, vs, |x|) && r < |x| && m <= |vs| && n <= |x|
  {
    if n == 0 then 0.0 else RowDot(lmds, vs, r, x, m, n - 1) + Entry(lmds, vs, r, n - 1, m) * x[n - 1]
  }

  // The r-th entry of the sum of lmds[i] <vs[i], x> vs[i] over i < m.
  function SpectralRow(lmds: seq<real>, vs: seq<seq<real>>, r: nat, x: seq<real>, m: nat): real
    requires Columns(lmds, vs, |x|) && r < |x| && m <= |vs|
  {
    if m == 0 then 0.0 else SpectralRow(lmds, vs, r, x, m - 1) + vs[m - 1][r] * lmds[m - 1] * DotTo(vs[m - 1], x, |x|)
  }

  lemma {:induction false} RowDotStep(lmds: seq<real>, vs: seq<seq<real>>, r: nat, x: seq<real>, m: nat, n: nat)
    requires Columns(lmds, vs, |x|) && r < |x| && m < |vs| && n <= |x|
    ensures RowDot(lmds, vs, r, x, m + 1, n) == RowDot(lmds, vs, r, x, m, n) + vs[m][r] * lmds[m] * DotTo(vs[m], x, n)
  {
    if n > 0 {
      RowDotStep(lmds, vs, r, x, m, n - 1);
      var k, d := vs[m][r] * lmds[m], DotTo(vs[m], x, n - 1);
      StepKernel(RowDot(lmds, vs, r, x, m, n - 1), k, d, Entry(lmds, vs, r, n - 1, m), vs[m][n - 1], x[n - 1],
                 RowDot(lmds, vs, r, x, m + 1, n - 1));
    }
  }

  lemma StepKernel(row: real, k: real, d: real, e: real, v: real, x: real, row': real)
    requires row' == row + k * d
    ensures row' + (e + k * v) * x == row + e * x + k * (d + v * x)
  {
  }

  // The assembled matrix against a vector is its spectral sum.
  lemma {:induction false} RowIsSpectral(lmds: seq<real>, vs: seq<seq<real>>, r: nat, x: seq<real>, m: nat)
    requires Columns(lmds, vs, |x|) && r < |x| && m <= |vs|
    ensures RowDot(lmds, vs, r, x, m, |x|) == SpectralRow(lmds, vs, r, x, m)
  {
    hide RowDot, DotTo;
    if m == 0 {
      ZeroRow(lmds, vs, r, x, |x|);
    } else {
      var k := m - 1;
      RowIsSpectral(lmds, vs, r, x, k);
      RowDotStep(lmds, vs, r, x, k, |x|);
    }
  }

  lemma {:induction false} ZeroRow(lmds: seq<real>, vs: seq<seq<real>>, r: nat, x: seq<real>, n: nat)
    requires Columns(lmds, vs, |x|) && r < |x| && n <= |x|
    ensures RowDot(lmds, vs, r, x, 0, n) == 0.0
  {
    if n > 0 {
      ZeroRow(lmds, vs, r, x, n - 1);
    }
  }

  // ---- Orthonormal columns are eigenvectors -----------------------------------------

  ghost predicate Orthonormal(vs: seq<seq<real>>, size: nat)
    requires forall i :: 0 <= i < |vs| ==> |vs[i]| == size
  {
    forall i, j :: 0 <= i < |vs| && 0 <= j < |vs| ==> DotTo(vs[i], vs[j], size) == if i == j then 1.0 else 0.0
  }

  lemma {:induction false} SpectralRowAt(lmds: seq<real>, vs: seq<seq<real>>, size: nat, r: nat, j: nat, m: nat)
    requires Columns(lmds, vs, size) && Orthonormal(vs, size) && r < size && j < |vs| && m <= |vs|
    ensures SpectralRow(lmds, vs, r, vs[j], m) == if j < m then lmds[j] * vs[j][r] else 0.0
  {
    if m > 0 {
      SpectralRowAt(lmds, vs, size, r, j, m - 1);
      assert DotTo(vs[m - 1], vs[j], size) == if m - 1 == j then 1.0 else 0.0;
    }
  }

  // H_rebuilt @ Qmat[:, j] == lmds[j] * Qmat[:, j]
  lemma EigenColumn(lmds: seq<real>, vs: seq<seq<real>>, size: nat, r: nat, j: nat)
    requires Columns(lmds, vs, size) && Orthonormal(vs, size) && r < size && j < |vs|
    ensures RowDot(lmds, vs, r, vs[j], |vs|, size) == lmds[j] * vs[j][r]
  {
    RowIsSpectral(lmds, vs, r, vs[j], |vs|);
    SpectralRowAt(lmds, vs, size, r, j, |vs|);
  }

  // ---- The assembly loops --------------------------------------------------------------

  function Vec(a: M3): (x: seq<real>)
    ensures |x| == 9
  {
    [a.c0.x, a.c0.y, a.c0.z, a.c1.x, a.c1.y, a.c1.z, a.c2.x, a.c2.y, a.c2.z]
  }

  function Vecs(qs: seq<M3>): (vs: seq<seq<real>>)
    ensures |vs| == |qs| && forall i :: 0 <= i < |qs| ==> vs[i] == Vec(qs[i]) && |vs[i]| == 9
  {
    seq(|qs|, i requires 0 <= i < |qs| => Vec(qs[i]))
  }

  // a[i][j]
  function At(a: M3, i: nat, j: nat): real
    requires i < 3 && j < 3
  {
    var c := if j == 0 then a.c0 else if j == 1 then a.c1 else a.c2;
    if i == 0 then c.x else if i == 1 then c.y else c.z
  }

  // Vec puts entry (i, j) at 3 j + i.
  lemma VecAt(a: M3, i: nat, j: nat)
    requires i < 3 && j < 3
    ensures Vec(a)[3 * j + i] == At(a, i, j)
  {
  }

  // mat2vec: the entries column by column, row i of column j at 3 j + i.
  method Mat2Vec(a: M3) returns (x: seq<real>)
    ensures x == Vec(a) && |x| == 9
    ensures forall i, j :: 0 <= i < 3 && 0 <= j < 3 ==> x[3 * j + i] == At(a, i, j)
    ensures V3(x[0], x[1], x[2]) == a.c0 && V3(x[3], x[4], x[5]) == a.c1 && V3(x[6], x[7], x[8]) == a.c2
  {
    x := [];
    for j := 0 to 3
      invariant x == Vec(a)[..3 * j]
    {
      for i := 0 to 3
        invariant x == Vec(a)[..3 * j + i]
      {
        assert Vec(a)[3 * j + i] == At(a, i, j);
        x := x + [At(a, i, j)];
      }
    }
  }

  // Qmat: one rotated mode a column.
  method FillColumns(qs: seq<M3>) returns (qmat: array2<real>)
    ensures fresh(qmat) && qmat.Length0 == 9 && qmat.Length1 == |qs|
    ensures forall r, m :: 0 <= r < 9 && 0 <= m < |qs| ==> qmat[r, m] == Vecs(qs)[m][r]
    ensures forall i, j, m :: 0 <= i < 3 && 0 <= j < 3 && 0 <= m < |qs| ==> qmat[3 * j + i, m] == At(qs[m], i, j)
  {
    hide Vec, At;
    qmat := new real[9, |qs|];
    for i := 0 to |qs|
      invariant forall r, j :: 0 <= r < 9 && 0 <= j < i ==> qmat[r, j] == Vecs(qs)[j][r]
    {
      var x := Mat2Vec(qs[i]);
      forall r | 0 <= r < 9 {
        qmat[r, i] := x[r];
      }
    }
    forall i, j, m | 0 <= i < 3 && 0 <= j < 3 && 0 <= m < |qs| ensures qmat[3 * j + i, m] == At(qs[m], i, j) {
      VecAt(qs[m], i, j);
    }
  }

  // The sum over the first n modes of lmds[m] qs[m][i][j] qs[m][k][l].
  function ModeSum(lmds: seq<real>, qs: seq<M3>, i: nat, j: nat, k: nat, l: nat, n: nat): real
    requires i < 3 && j < 3 && k < 3 && l < 3 && n <= |lmds| == |qs|
  {
    if n == 0 then 0.0
    else ModeSum(lmds, qs, i, j, k, l, n - 1) + lmds[n - 1] * At(qs[n - 1], i, j) * At(qs[n - 1], k, l)
  }

  lemma {:induction false} EntryIsModeSum(lmds: seq<real>, qs: seq<M3>, i: nat, j: nat, k: nat, l: nat, n: nat)
    requires i < 3 && j < 3 && k < 3 && l < 3 && n <= |lmds| == |qs|
    ensures Entry(lmds, Vecs(qs), 3 * j + i, 3 * l + k, n) == ModeSum(lmds, qs, i, j, k, l, n)
  {
    hide Vec, At;
    if n > 0 {
      EntryIsModeSum(lmds, qs, i, j, k, l, n - 1);
      VecAt(qs[n - 1], i, j);
      VecAt(qs[n - 1], k, l);
      Swapped(At(qs[n - 1], i, j), lmds[n - 1], At(qs[n - 1], k, l));
    }
  }

  lemma Swapped(a: real, l: real, b: real)
    ensures a * l * b == l * a * b
  {
  }

  // H_rebuilt: at row 3 j + i and column 3 l + k, what the modes make of entries (i, j) and (k, l).
  method Rebuild(lmds: seq<real>, qs: seq<M3>) returns (h: array2<real>)
    requires |lmds| == |qs|
    ensures fresh(h) && h.Length0 == 9 && h.Length1 == 9
    ensures forall r, c :: 0 <= r < 9 && 0 <= c < 9 ==> h[r, c] == Entry(lmds, Vecs(qs), r, c, |qs|)
    ensures forall i, j, k, l :: 0 <= i < 3 && 0 <= j < 3 && 0 <= k < 3 && 0 <= l < 3 ==>
      h[3 * j + i, 3 * l + k] == ModeSum(lmds, qs, i, j, k, l, |qs|)
  {
    hide Vec, Vecs, At, ModeSum, Entry;
    ghost var vs := Vecs(qs);
    var qmat := FillColumns(qs);
    h := new real[9, 9];
    for r := 0 to 9
      invariant forall r', c :: 0 <= r' < r && 0 <= c < 9 ==> h[r', c] == Entry(lmds, vs, r', c, |qs|)
      invariant forall r, j :: 0 <= r < 9 && 0 <= j < |qs| ==> qmat[r, j] == vs[j][r]
    {
      for c := 0 to 9
        invariant forall r', c :: 0 <= r' < r && 0 <= c < 9 ==> h[r', c] == Entry(lmds, vs, r', c, |qs|)
        invariant forall c' :: 0 <= c' < c ==> h[r, c'] == Entry(lmds, vs, r, c', |qs|)
        invariant forall r, j :: 0 <= r < 9 && 0 <= j < |qs| ==> qmat[r, j] == vs[j][r]
      {
        h[r, c] := ProductEntry(lmds, vs, qmat, r, c);
      }
    }
    forall i, j, k, l | 0 <= i < 3 && 0 <= j < 3 && 0 <= k < 3 && 0 <= l < 3
      ensures h[3 * j + i, 3 * l + k] == ModeSum(lmds, qs, i, j, k, l, |qs|)
    {
      EntryIsModeSum(lmds, qs, i, j, k, l, |qs|);
    }
  }

  // One entry of the product of the three matrices.
  method ProductEntry(lmds: seq<real>, ghost vs: seq<seq<real>>, qmat: array2<real>, r: nat, c: nat)
    returns (total: real)
    requires Columns(lmds, vs, 9) && r < 9 && c < 9 && qmat.Length0 == 9 && qmat.Length1 == |lmds|
    requires forall r, j :: 0 <= r < 9 && 0 <= j < |vs| ==> qmat[r, j] == vs[j][r]
    ensures total == Entry(lmds, vs, r, c, |vs|)
  {
    total := 0.0;
    for m := 0 to |lmds|
      invariant total == Entry(lmds, vs, r, c, m)
    {
      total := total + qmat[r, m] * lmds[m] * qmat[c, m];
    }
  }

  lemma DotThree(a: seq<real>, b: seq<real>, n: nat, p: V3, q: V3)
    requires n + 3 <= |a| && n + 3 <= |b|
    requires p == V3(a[n], a[n + 1], a[n + 2]) && q == V3(b[n], b[n + 1], b[n + 2])
    ensures DotTo(a, b, n + 3) == DotTo(a, b, n) + Dot(p, q)
  {
    assert DotTo(a, b, n + 2) == DotTo(a, b, n) + a[n] * b[n] + a[n + 1] * b[n + 1];
  }

  lemma VecInner(a: M3, b: M3)
    ensures DotTo(Vec(a), Vec(b), 9) == Inner(a, b)
  {
    var x, y := Vec(a), Vec(b);
    DotThree(x, y, 0, a.c0, b.c0);
    DotThree(x, y, 3, a.c1, b.c1);
    DotThree(x, y, 6, a.c2, b.c2);
    hide Dot;
  }

  // Every column of Qmat is an eigenvector of the matrix the script assembles.
  lemma RebuiltEigenvectors(root2: real, u: M3, w: M3, v: M3, lmds: seq<real>, r: nat, j: nat)
    requires root2 > 0.0 && root2 * root2 == 2.0 && Orthogonal(u) && Orthogonal(v) && Orthogonal(w)
    requires |lmds| == 9 && r < 9 && j < 9
    ensures var vs := Vecs(RotateAll(u, Modes(root2, w), v));
      RowDot(lmds, vs, r, vs[j], 9, 9) == lmds[j] * vs[j][r]
  {
    hide Modes, Inner, Orthogonal, Rotate, DotTo, Vec, RowDot;
    var qs := RotateAll(u, Modes(root2, w), v);
    var vs := Vecs(qs);
    ModesOrthonormal(root2, u, w, v);
    forall i, k | 0 <= i < 9 && 0 <= k < 9
      ensures DotTo(vs[i], vs[k], 9) == if i == k then 1.0 else 0.0
    {
      VecInner(qs[i], qs[k]);
    }
    EigenColumn(lmds, vs, 9, r, j);
  }

  // x.T H_rebuilt x
  function QuadraticForm(lmds: seq<real>, vs: seq<seq<real>>, x: seq<real>, n: nat): real
    requires Columns(lmds, vs, |x|) && n <= |x|
  {
    if n == 0 then 0.0 else QuadraticForm(lmds, vs, x, n - 1) + x[n - 1] * RowDot(lmds, vs, n - 1, x, |vs|, |x|)
  }

  lemma {:induction false} FormStep(lmds: seq<real>, vs: seq<seq<real>>, x: seq<real>, n: nat, m: nat)
    requires Columns(lmds, vs, |x|) && n <= |x| && m <= |vs|
    ensures WeightedRows(lmds, vs, x, n, m) == SpectralPart(lmds, vs, x, n, m)
  {
    if m > 0 {
      FormStep(lmds, vs, x, n, m - 1);
      RowsStep(lmds, vs, x, n, m - 1);
    } else {
      NoRows(lmds, vs, x, n);
    }
  }

  function WeightedRows(lmds: seq<real>, vs: seq<seq<real>>, x: seq<real>, n: nat, m: nat): real
    requires Columns(lmds, vs, |x|) && n <= |x| && m <= |vs|
  {
    if n == 0 then 0.0 else WeightedRows(lmds, vs, x, n - 1, m) + x[n - 1] * SpectralRow(lmds, vs, n - 1, x, m)
  }

  function SpectralPart(lmds: seq<real>, vs: seq<seq<real>>, x: seq<real>, n: nat, m: nat): real
    requires Columns(lmds, vs, |x|) && n <= |x| && m <= |vs|
  {
    if m == 0 then 0.0
    else SpectralPart(lmds, vs, x, n, m - 1) + DotTo(vs[m - 1], x, n) * (lmds[m - 1] * DotTo(vs[m - 1], x, |x|))
  }

  lemma {:induction false} NoRows(lmds: seq<real>, vs: seq<seq<real>>, x: seq<real>, n: nat)
    requires Columns(lmds, vs, |x|) && n <= |x|
    ensures WeightedRows(lmds, vs, x, n, 0) == 0.0
  {
    if n > 0 {
      NoRows(lmds, vs, x, n - 1);
    }
  }

  lemma {:induction false} RowsStep(lmds: seq<real>, vs: seq<seq<real>>, x: seq<real>, n: nat, m: nat)
    requires Columns(lmds, vs, |x|) && n <= |x| && m < |vs|
    ensures WeightedRows(lmds, vs, x, n, m + 1)
         == WeightedRows(lmds, vs, x, n, m) + DotTo(vs[m], x, n) * (lmds[m] * DotTo(vs[m], x, |x|))
  {
    if n > 0 {
      RowsStep(lmds, vs, x, n - 1, m);
      RowsKernel(WeightedRows(lmds, vs, x, n - 1, m), DotTo(vs[m], x, n - 1), lmds[m], DotTo(vs[m], x, |x|), x[n - 1],
                 SpectralRow(lmds, vs, n - 1, x, m), vs[m][n - 1], WeightedRows(lmds, vs, x, n - 1, m + 1));
    }
  }

  lemma RowsKernel(rows: real, d: real, l: real, full: real, x: real, s: real, v: real, rows': real)
    requires rows' == rows + d * (l * full)
    ensures rows' + x * (s + v * l * full) == rows + x * s + (d + v * x) * (l * full)
  {
  }

  lemma {:induction false} FormRows(lmds: seq<real>, vs: seq<seq<real>>, x: seq<real>, n: nat)
    requires Columns(lmds, vs, |x|) && n <= |x|
    ensures QuadraticForm(lmds, vs, x, n) == WeightedRows(lmds, vs, x, n, |vs|)
  {
    if n > 0 {
      FormRows(lmds, vs, x, n - 1);
      RowIsSpectral(lmds, vs, n - 1, x, |vs|);
    }
  }

  lemma {:induction false} SpectralParts(lmds: seq<real>, qs: seq<M3>, x: M3, m: nat)
    requires |lmds| == |qs| && m <= |qs|
    ensures SpectralPart(lmds, Vecs(qs), Vec(x), 9, m) == Spectral(lmds[..m], qs[..m], x)
  {
    hide Vec, Inner, Mode;
    if m > 0 {
      SpectralParts(lmds, qs, x, m - 1);
      SpectralPrefix(lmds, qs, x, m - 1);
      VecInner(qs[m - 1], x);
      ModeIs(lmds[m - 1], qs[m - 1], x);
    }
  }

  lemma ModeIs(lmd: real, q: M3, x: M3)
    ensures Mode(lmd, q, x) == Inner(q, x) * (lmd * Inner(q, x))
  {
    hide Inner;
  }

  // The form of the assembled matrix is the spectral sum HessianTheorem names.
  lemma RebuiltFormIsSpectral(lmds: seq<real>, qs: seq<M3>, x: M3)
    requires |lmds| == |qs|
    ensures QuadraticForm(lmds, Vecs(qs), Vec(x), 9) == Spectral(lmds, qs, x)
  {
    hide Vec, Inner, Mode, Spectral;
    FormRows(lmds, Vecs(qs), Vec(x), 9);
    FormStep(lmds, Vecs(qs), Vec(x), 9, |qs|);
    SpectralParts(lmds, qs, x, |qs|);
    assert lmds[..|lmds|] == lmds && qs[..|qs|] == qs;
  }
}
