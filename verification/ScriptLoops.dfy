// The loops of the invariant script that fill or accumulate a matrix, against the
// closed forms (eigsys/eigsys_invariants_3.py:51-57, 104-111, 165-169).
module ScriptLoops {
  import opened LinearAlgebra
  import opened Invariants3
  import opened Gradients3
  import opened Eigensystem3
  import opened Hessian3
  import opened Assembly

  // ---- adjugate: one signed minor after another ------------------------------------

  // The two indices left when i is deleted.
  function Before(i: nat): (k: nat)
    requires i < 3
    ensures k < 3 && k != i
  {
    if i == 0 then 1 else 0
  }

  function Behind(i: nat): (k: nat)
    requires i < 3
    ensures k < 3 && k != i && Before(i) < k
  {
    if i == 2 then 1 else 2
  }

  // det of the matrix with row i and column j deleted.
  function MinorDet(m: M3, i: nat, j: nat): real
    requires i < 3 && j < 3
  {
    At(m, Before(i), Before(j)) * At(m, Behind(i), Behind(j))
      - At(m, Before(i), Behind(j)) * At(m, Behind(i), Before(j))
  }

  function Sign(k: nat): real {
    if k % 2 == 0 then 1.0 else -1.0
  }

  lemma SignTimes(k: nat, x: real)
    ensures Sign(k) * x == if k % 2 == 0 then x else -x
  {
  }

  lemma FirstMinors(m: M3, i: nat)
    requires i < 3
    ensures At(Cofactors(m), i, 0) == if i == 1 then -MinorDet(m, i, 0) else MinorDet(m, i, 0)
  {
  }

  lemma MiddleMinors(m: M3, i: nat)
    requires i < 3
    ensures At(Cofactors(m), i, 1) == if i == 1 then MinorDet(m, i, 1) else -MinorDet(m, i, 1)
  {
  }

  lemma LastMinors(m: M3, i: nat)
    requires i < 3
    ensures At(Cofactors(m), i, 2) == if i == 1 then -MinorDet(m, i, 2) else MinorDet(m, i, 2)
  {
  }

  lemma SignedMinor(m: M3, i: nat, j: nat)
    requires i < 3 && j < 3
    ensures Sign(i + j) * MinorDet(m, i, j) == At(Cofactors(m), i, j)
  {
    hide *;
    SignTimes(i + j, MinorDet(m, i, j));
    if j == 0 {
      FirstMinors(m, i);
    } else if j == 1 {
      MiddleMinors(m, i);
    } else {
      LastMinors(m, i);
    }
  }

  method FillAdjugate(m: M3) returns (adj: M3)
    ensures adj == Adjugate(m)
  {
    hide MinorDet, At, Sign, Cofactors;
    var result := new real[3, 3];
    for i := 0 to 3
      invariant forall r, c :: 0 <= r < i && 0 <= c < 3 ==> result[r, c] == At(Cofactors(m), r, c)
    {
      for j := 0 to 3
        invariant forall r, c :: 0 <= r < i && 0 <= c < 3 ==> result[r, c] == At(Cofactors(m), r, c)
        invariant forall c :: 0 <= c < j ==> result[i, c] == At(Cofactors(m), i, c)
      {
        SignedMinor(m, i, j);
        result[i, j] := Sign(i + j) * MinorDet(m, i, j);
      }
    }
    TransposedEntries(Cofactors(m));
    return M3(V3(result[0, 0], result[0, 1], result[0, 2]), V3(result[1, 0], result[1, 1], result[1, 2]),
      V3(result[2, 0], result[2, 1], result[2, 2]));
  }

  lemma TransposedEntries(c: M3)
    ensures Transpose(c) == M3(V3(At(c, 0, 0), At(c, 0, 1), At(c, 0, 2)), V3(At(c, 1, 0), At(c, 1, 1), At(c, 1, 2)),
      V3(At(c, 2, 0), At(c, 2, 1), At(c, 2, 2)))
  {
  }

  // ---- Sums accumulated from zero ----------------------------------------------------

  function Accumulated(ks: seq<real>, ms: seq<M3>, n: nat): M3
    requires n <= |ks| == |ms|
  {
    if n == 0 then ZERO_M else AddM(Accumulated(ks, ms, n - 1), ScaleM(ks[n - 1], ms[n - 1]))
  }

  method Accumulate(ks: seq<real>, ms: seq<M3>) returns (sum: M3)
    requires |ks| == |ms|
    ensures sum == Accumulated(ks, ms, |ks|)
  {
    sum := ZERO_M;
    for k := 0 to |ks|
      invariant sum == Accumulated(ks, ms, k)
    {
      sum := AddM(sum, ScaleM(ks[k], ms[k]));
    }
  }

  lemma AddZero(m: M3)
    ensures AddM(ZERO_M, m) == m
  {
  }

  lemma ThreeAccumulated(g: V3, p: M3, q: M3, r: M3)
    ensures Accumulated([g.x, g.y, g.z], [p, q, r], 3) == AddM(AddM(ScaleM(g.x, p), ScaleM(g.y, q)), ScaleM(g.z, r))
  {
    var ks, ms := [g.x, g.y, g.z], [p, q, r];
    AddZero(ScaleM(g.x, p));
    hide AddM, ScaleM;
    assert Accumulated(ks, ms, 1) == AddM(Accumulated(ks, ms, 0), ScaleM(g.x, p));
    assert Accumulated(ks, ms, 2) == AddM(Accumulated(ks, ms, 1), ScaleM(g.y, q));
  }

  // g_F_rebuilt
  method RebuildGradient(f: M3, g: V3) returns (gradient: M3)
    ensures gradient == EnergyGradient(f, g)
  {
    hide AddM, ScaleM, GradI1, GradI2, GradI3, Accumulated;
    ThreeAccumulated(g, GradI1(f), GradI2(f), GradI3(f));
    gradient := Accumulate([g.x, g.y, g.z], [GradI1(f), GradI2(f), GradI3(f)]);
  }

  // sym_d2Eda2
  method AccumulateHessian(s: V3, g: V3, d2: M3) returns (h: M3)
    ensures h == D2Eda2(s, g, d2)
  {
    hide AddM, ScaleM, D2I1, D2I2, D2I3, Accumulated, MatMul, Transpose, DIda;
    ThreeAccumulated(g, D2I1(s), D2I2(s), D2I3(s));
    h := Accumulate([g.x, g.y, g.z], [D2I1(s), D2I2(s), D2I3(s)]);
    h := AddM(h, MatMul(MatMul(DIda(s), d2), Transpose(DIda(s))));
  }
}
