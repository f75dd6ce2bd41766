// The six rotated modes of the 3x2 script are orthonormal
// (eigsys/eigsys_invariants_2.py:167-174, 185-188).
module Eigenpairs2 {
  import opened LinearAlgebra
  import opened Gradients3
  import opened Hessian3
  import opened Hessian2
  import opened Eigenpairs

  lemma ScaledNarrow(k: real, q: M3, y: M32)
    ensures Inner2(Narrow(ScaleM(k, q)), y) == k * Inner(q, Widen(y))
  {
    hide *;
    InnerNarrow(ScaleM(k, q), y);
    InnerScale(k, q, Widen(y));
  }

  lemma UnitAgainst(p: real, q: real, y: M32)
    ensures Inner2(M32(V3(0.0, 0.0, 1.0), ZERO), y) == y.c0.z && Inner2(M32(ZERO, V3(0.0, 0.0, 1.0)), y) == y.c1.z
    ensures Inner2(Diag2(p, q), y) == p * y.c0.x + q * y.c1.y
  {
  }

  // The inner product of every mode with y, read off y's entries.
  lemma AgainstModes2(root2: real, w: M2, y: M32)
    requires root2 > 0.0
    ensures var q, k := Modes2(root2, w), 1.0 / root2;
      && Inner2(q[0], y) == k * (y.c1.x - y.c0.y) && Inner2(q[1], y) == k * (y.c1.x + y.c0.y)
      && Inner2(q[2], y) == y.c0.z && Inner2(q[3], y) == y.c1.z
      && Inner2(q[4], y) == w.c0.x * y.c0.x + w.c0.y * y.c1.y && Inner2(q[5], y) == w.c1.x * y.c0.x + w.c1.y * y.c1.y
  {
    hide Inner2, Inner, ScaleM, Diag2, Narrow;
    InnerUnits(Widen(y));
    InnerUnitsSymmetric(Widen(y));
    ScaledNarrow(1.0 / root2, M3(V3(0.0, -1.0, 0.0), V3(1.0, 0.0, 0.0), V3(0.0, 0.0, 0.0)), y);
    ScaledNarrow(1.0 / root2, M3(V3(0.0, 1.0, 0.0), V3(1.0, 0.0, 0.0), V3(0.0, 0.0, 0.0)), y);
    UnitAgainst(w.c0.x, w.c0.y, y);
    UnitAgainst(w.c1.x, w.c1.y, y);
  }

  // The entries of a mode: two tied off-diagonal ones, two below, two on the diagonal.
  lemma Entries2(root2: real, w: M2, i: nat)
    requires root2 > 0.0 && i < 6
    ensures var y, k := Modes2(root2, w)[i], 1.0 / root2;
      && y.c1.x == (if i < 2 then k else 0.0) && y.c0.y == (if i == 0 then -k else if i == 1 then k else 0.0)
      && y.c0.z == (if i == 2 then 1.0 else 0.0) && y.c1.z == (if i == 3 then 1.0 else 0.0)
      && y.c0.x == (if i == 4 then w.c0.x else if i == 5 then w.c1.x else 0.0)
      && y.c1.y == (if i == 4 then w.c0.y else if i == 5 then w.c1.y else 0.0)
  {
  }

  // One mode against all six.
  predicate UnitRow2(r: seq<real>, j: nat) {
    |r| == 6 && forall i :: 0 <= i < 6 ==> r[i] == if i == j then 1.0 else 0.0
  }

  function Row2(q: seq<M32>, y: M32): seq<real>
    requires |q| == 6
  {
    [Inner2(q[0], y), Inner2(q[1], y), Inner2(q[2], y), Inner2(q[3], y), Inner2(q[4], y), Inner2(q[5], y)]
  }

  lemma OffKernel(j: nat, k: real, a: real, b: real, z0: real, z1: real, x: real, y: real, w: M2,
      r0: real, r1: real, r2: real, r3: real, r4: real, r5: real)
    requires j < 4 && k * (2.0 * k) == 1.0 && x == 0.0 && y == 0.0
    requires a == (if j < 2 then k else 0.0) && b == (if j == 0 then -k else if j == 1 then k else 0.0)
    requires z0 == (if j == 2 then 1.0 else 0.0) && z1 == (if j == 3 then 1.0 else 0.0)
    requires r0 == k * (a - b) && r1 == k * (a + b) && r2 == z0 && r3 == z1
    requires r4 == w.c0.x * x + w.c0.y * y && r5 == w.c1.x * x + w.c1.y * y
    ensures UnitRow2([r0, r1, r2, r3, r4, r5], j)
  {
    ModeTimes(k, a - b, r0);
    ModeTimes(k, a + b, r1);
    FlatPlane(w.c0.x, w.c0.y, x, y, r4);
    FlatPlane(w.c1.x, w.c1.y, x, y, r5);
  }

  lemma OffRow2(root2: real, w: M2, j: nat)
    requires root2 > 0.0 && root2 * root2 == 2.0 && j < 4
    ensures UnitRow2(Row2(Modes2(root2, w), Modes2(root2, w)[j]), j)
  {
    hide Modes2, Inner2, UnitRow2;
    var q, y, k := Modes2(root2, w), Modes2(root2, w)[j], 1.0 / root2;
    HalfOfOne(root2, k);
    AgainstModes2(root2, w, y);
    Entries2(root2, w, j);
    OffKernel(j, k, y.c1.x, y.c0.y, y.c0.z, y.c1.z, y.c0.x, y.c1.y, w, Inner2(q[0], y), Inner2(q[1], y),
              Inner2(q[2], y), Inner2(q[3], y), Inner2(q[4], y), Inner2(q[5], y));
  }

  lemma FlatPlane(p: real, q: real, x: real, y: real, r: real)
    requires r == p * x + q * y && x == 0.0 && y == 0.0
    ensures r == 0.0
  {
  }

  lemma FlatMode(k: real, z: real, p: real)
    requires z == 0.0 && p == k * z
    ensures p == 0.0
  {
  }

  lemma DiagonalKernel(j: nat, k: real, a: real, b: real, z0: real, z1: real, c: V2, w: M2,
      r0: real, r1: real, r2: real, r3: real, r4: real, r5: real)
    requires 4 <= j < 6 && Orthogonal2(w) && c == (if j == 4 then w.c0 else w.c1)
    requires a == 0.0 && b == 0.0 && z0 == 0.0 && z1 == 0.0
    requires r0 == k * (a - b) && r1 == k * (a + b) && r2 == z0 && r3 == z1
    requires r4 == w.c0.x * c.x + w.c0.y * c.y && r5 == w.c1.x * c.x + w.c1.y * c.y
    ensures UnitRow2([r0, r1, r2, r3, r4, r5], j)
  {
    FlatMode(k, a - b, r0);
    FlatMode(k, a + b, r1);
  }

  lemma DiagonalRow2(root2: real, w: M2, j: nat)
    requires root2 > 0.0 && Orthogonal2(w) && 4 <= j < 6
    ensures UnitRow2(Row2(Modes2(root2, w), Modes2(root2, w)[j]), j)
  {
    hide Modes2, Inner2, UnitRow2, Orthogonal2;
    var q, y, k := Modes2(root2, w), Modes2(root2, w)[j], 1.0 / root2;
    AgainstModes2(root2, w, y);
    Entries2(root2, w, j);
    DiagonalKernel(j, k, y.c1.x, y.c0.y, y.c0.z, y.c1.z, if j == 4 then w.c0 else w.c1, w,
                   Inner2(q[0], y), Inner2(q[1], y), Inner2(q[2], y), Inner2(q[3], y), Inner2(q[4], y),
                   Inner2(q[5], y));
  }

  lemma InnerRotated2(u: M3, m: M32, n: M32, v: M2)
    requires Orthogonal(u) && Orthogonal2(v)
    ensures Inner2(Rotate2(u, m, v), Rotate2(u, n, v)) == Inner2(m, n)
  {
    WidenOrthogonal(v);
    hide *;
    WidenRotate(u, m, v);
    WidenRotate(u, n, v);
    WidenInner(m, n);
    WidenInner(Rotate2(u, m, v), Rotate2(u, n, v));
    InnerRotateRotate(u, Widen(m), Widen(n), WidenFrame(v));
  }

  // U Q[i] V.T are orthonormal.
  lemma ModesOrthonormal2(root2: real, u: M3, w: M2, v: M2, i: nat, j: nat)
    requires root2 > 0.0 && root2 * root2 == 2.0 && Orthogonal(u) && Orthogonal2(v) && Orthogonal2(w) && i < 6 && j < 6
    ensures var q := Modes2(root2, w);
      Inner2(Rotate2(u, q[i], v), Rotate2(u, q[j], v)) == if i == j then 1.0 else 0.0
  {
    hide Inner2, Modes2, Rotate2, Orthogonal, Orthogonal2;
    var q := Modes2(root2, w);
    InnerRotated2(u, q[i], q[j], v);
    if j < 4 {
      OffRow2(root2, w, j);
    } else {
      DiagonalRow2(root2, w, j);
    }
    assert Inner2(q[i], q[j]) == Row2(q, q[j])[i];
  }
}
