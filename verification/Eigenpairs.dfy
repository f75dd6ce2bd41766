// The nine rotated modes are an orthonormal eigenbasis, and the matrix the
// script assembles from them column by column acts as their spectral sum
// (eigsys/eigsys_invariants_3.py:134-139, 174-184, 198-201).
module Eigenpairs {
  import opened LinearAlgebra
  import opened Invariants3
  import opened Gradients3
  import opened Eigensystem3
  import opened Hessian3

  // ---- Orthonormality ------------------------------------------------------------

  // The inner product of every mode with y, read off y's entries.
  lemma AgainstModes(root2: real, w: M3, y: M3)
    requires root2 > 0.0
    ensures var q, k := Modes(root2, w), 1.0 / root2;
      && Inner(q[0], y) == k * (y.c1.x - y.c0.y) && Inner(q[1], y) == k * (y.c2.x - y.c0.z)
      && Inner(q[2], y) == k * (y.c2.y - y.c1.z) && Inner(q[3], y) == k * (y.c1.x + y.c0.y)
      && Inner(q[4], y) == k * (y.c2.x + y.c0.z) && Inner(q[5], y) == k * (y.c2.y + y.c1.z)
      && Inner(q[6], y) == Dot(w.c0, Diagonal(y)) && Inner(q[7], y) == Dot(w.c1, Diagonal(y))
      && Inner(q[8], y) == Dot(w.c2, Diagonal(y))
  {
    hide Inner, ScaleM, Diag, Dot, Diagonal;
    var k := 1.0 / root2;
    InnerUnits(y);
    InnerUnitsSymmetric(y);
    InnerScale(k, M3(V3(0.0, -1.0, 0.0), V3(1.0, 0.0, 0.0), V3(0.0, 0.0, 0.0)), y);
    InnerScale(k, M3(V3(0.0, 0.0, -1.0), V3(0.0, 0.0, 0.0), V3(1.0, 0.0, 0.0)), y);
    InnerScale(k, M3(V3(0.0, 0.0, 0.0), V3(0.0, 0.0, -1.0), V3(0.0, 1.0, 0.0)), y);
    InnerScale(k, M3(V3(0.0, 1.0, 0.0), V3(1.0, 0.0, 0.0), V3(0.0, 0.0, 0.0)), y);
    InnerScale(k, M3(V3(0.0, 0.0, 1.0), V3(0.0, 0.0, 0.0), V3(1.0, 0.0, 0.0)), y);
    InnerScale(k, M3(V3(0.0, 0.0, 0.0), V3(0.0, 0.0, 1.0), V3(0.0, 1.0, 0.0)), y);
    DiagonalInner(w.c0, y);
    DiagonalInner(w.c1, y);
    DiagonalInner(w.c2, y);
  }

  lemma DiagonalInner(c: V3, y: M3)
    ensures Inner(Diag(c), y) == Dot(c, Diagonal(y))
  {
  }

  predicate UnitRow(q: seq<M3>, i: nat, y: M3)
    requires |q| == 9
  {
    forall j :: 0 <= j < 9 ==> Inner(q[j], y) == if j == i then 1.0 else 0.0
  }

  lemma OffDiagonalRow(root2: real, w: M3, i: nat)
    requires root2 > 0.0 && root2 * root2 == 2.0 && i < 6
    ensures UnitRow(Modes(root2, w), i, Modes(root2, w)[i])
  {
    hide Inner, Modes, Dot, Diagonal;
    var k := 1.0 / root2;
    HalfOfOne(root2, k);
    var q := Modes(root2, w);
    var y := q[i];
    AgainstModes(root2, w, y);
    OffEntries(root2, w, i);
    ModeTimes(k, y.c1.x - y.c0.y, Inner(q[0], y));
    ModeTimes(k, y.c2.x - y.c0.z, Inner(q[1], y));
    ModeTimes(k, y.c2.y - y.c1.z, Inner(q[2], y));
    ModeTimes(k, y.c1.x + y.c0.y, Inner(q[3], y));
    ModeTimes(k, y.c2.x + y.c0.z, Inner(q[4], y));
    ModeTimes(k, y.c2.y + y.c1.z, Inner(q[5], y));
    FlatDiagonal(w.c0, y, Inner(q[6], y));
    FlatDiagonal(w.c1, y, Inner(q[7], y));
    FlatDiagonal(w.c2, y, Inner(q[8], y));
  }

  lemma ModeTimes(k: real, z: real, p: real)
    requires k * (2.0 * k) == 1.0 && p == k * z
    ensures z == 2.0 * k ==> p == 1.0
    ensures z == 0.0 ==> p == 0.0
  {
  }

  lemma FlatDiagonal(c: V3, y: M3, p: real)
    requires y.c0.x == 0.0 && y.c1.y == 0.0 && y.c2.z == 0.0 && p == Dot(c, Diagonal(y))
    ensures p == 0.0
  {
  }

  lemma HalfOfOne(root2: real, k: real)
    requires root2 > 0.0 && root2 * root2 == 2.0 && k == 1.0 / root2
    ensures k * (2.0 * k) == 1.0
  {
    assert k * root2 == 1.0;
    assert 2.0 * (k * k) == (k * root2) * (k * root2);
  }

  lemma OffEntries(root2: real, w: M3, i: nat)
    requires root2 > 0.0 && i < 6
    ensures var y, k := Modes(root2, w)[i], 1.0 / root2;
      && y.c0.x == 0.0 && y.c1.y == 0.0 && y.c2.z == 0.0
      && y.c1.x == (if i == 0 || i == 3 then k else 0.0) && y.c0.y == (if i == 0 then -k else if i == 3 then k else 0.0)
      && y.c2.x == (if i == 1 || i == 4 then k else 0.0) && y.c0.z == (if i == 1 then -k else if i == 4 then k else 0.0)
      && y.c2.y == (if i == 2 || i == 5 then k else 0.0) && y.c1.z == (if i == 2 then -k else if i == 5 then k else 0.0)
  {
  }

  lemma DiagonalRow(root2: real, w: M3, i: nat)
    requires root2 > 0.0 && Orthogonal(w) && 6 <= i < 9
    ensures UnitRow(Modes(root2, w), i, Modes(root2, w)[i])
  {
    hide Inner, Modes, Dot;
    var q := Modes(root2, w);
    var y := q[i];
    var c := if i == 6 then w.c0 else if i == 7 then w.c1 else w.c2;
    AgainstModes(root2, w, y);
    DiagonalEntries(root2, w, i);
    DotSymmetric(w.c0, w.c1);
    DotSymmetric(w.c0, w.c2);
    DotSymmetric(w.c1, w.c2);
  }

  lemma DiagonalEntries(root2: real, w: M3, i: nat)
    requires root2 > 0.0 && 6 <= i < 9
    ensures Modes(root2, w)[i] == Diag(if i == 6 then w.c0 else if i == 7 then w.c1 else w.c2)
  {
  }

  // U Qs[i] V.T are orthonormal: with nine of them, a complete eigenbasis.
  lemma ModesOrthonormal(root2: real, u: M3, w: M3, v: M3)
    requires root2 > 0.0 && root2 * root2 == 2.0 && Orthogonal(u) && Orthogonal(v) && Orthogonal(w)
    ensures var q := RotateAll(u, Modes(root2, w), v);
      forall i, j :: 0 <= i < 9 && 0 <= j < 9 ==> Inner(q[i], q[j]) == if i == j then 1.0 else 0.0
  {
    hide Inner, Modes, Rotate, Orthogonal;
    var m, q := Modes(root2, w), RotateAll(u, Modes(root2, w), v);
    forall i, j | 0 <= i < 9 && 0 <= j < 9
      ensures Inner(q[i], q[j]) == if i == j then 1.0 else 0.0
    {
      InnerRotateRotate(u, m[i], m[j], v);
      if j < 6 {
        OffDiagonalRow(root2, w, j);
      } else {
        DiagonalRow(root2, w, j);
      }
    }
  }
}
