// The 3x2 case: a shell's deformation gradient, with the Hessian rebuilt from
// six eigenpairs (eigsys/eigsys_invariants_2.py). A 3x2 matrix is a 3x3 matrix
// whose third column is zero, and every quantity of the 3x2 script is the 3x3
// one at a third singular value of zero.
module Hessian2 {
  import opened LinearAlgebra
  import opened Invariants3
  import opened SecondOrder
  import opened Eigensystem3
  import opened Gradients3
  import opened Hessian3

  datatype V2 = V2(x: real, y: real)

  // Columns of a 2x2 matrix, and of a 3x2 matrix.
  datatype M2 = M2(c0: V2, c1: V2)

  datatype M32 = M32(c0: V3, c1: V3)

  function Dot2(a: V2, b: V2): real {
    a.x * b.x + a.y * b.y
  }

  function MulVec2(m: M2, v: V2): V2 {
    V2(m.c0.x * v.x + m.c1.x * v.y, m.c0.y * v.x + m.c1.y * v.y)
  }

  predicate Orthogonal2(m: M2) {
    Dot2(m.c0, m.c0) == 1.0 && Dot2(m.c1, m.c1) == 1.0 && Dot2(m.c0, m.c1) == 0.0
  }

  function Inner2(a: M32, b: M32): real {
    Dot(a.c0, b.c0) + Dot(a.c1, b.c1)
  }

  // F.T @ F
  function Gram2(f: M32): M2 {
    M2(V2(Dot(f.c0, f.c0), Dot(f.c1, f.c0)), V2(Dot(f.c0, f.c1), Dot(f.c1, f.c1)))
  }

  // trace and determinant of F.T @ F
  function Invariants2(f: M32): V2 {
    var c := Gram2(f);
    V2(c.c0.x + c.c1.y, c.c0.x * c.c1.y - c.c1.x * c.c0.y)
  }

  // u @ m @ v.T
  function Rotate2(u: M3, m: M32, v: M2): M32 {
    var a, b := MulVec(u, m.c0), MulVec(u, m.c1);
    M32(Add(Scale(v.c0.x, a), Scale(v.c1.x, b)), Add(Scale(v.c0.y, a), Scale(v.c1.y, b)))
  }

  function Along2(f: M32, x: M32, t: real): M32 {
    M32(Add(f.c0, Scale(t, x.c0)), Add(f.c1, Scale(t, x.c1)))
  }

  function Diag2(a: real, b: real): M32 {
    M32(V3(a, 0.0, 0.0), V3(0.0, b, 0.0))
  }

  // ---- The 3x3 matrices they are ----------------------------------------------

  function Widen(f: M32): M3 {
    M3(f.c0, f.c1, ZERO)
  }

  function Narrow(m: M3): M32 {
    M32(m.c0, m.c1)
  }

  function WidenFrame(v: M2): M3 {
    M3(V3(v.c0.x, v.c0.y, 0.0), V3(v.c1.x, v.c1.y, 0.0), V3(0.0, 0.0, 1.0))
  }

  lemma WidenInvariants(f: M32)
    ensures Invariants(Widen(f)) == V3(Invariants2(f).x, Invariants2(f).y, 0.0)
  {
    var w := Widen(f);
    InvariantsByMinors(w);
    WidenMinors(f);
    CrossDotCross(f.c0, f.c1, f.c0, f.c1);
    DotSymmetric(f.c0, f.c1);
    hide Dot, Cross, Det, Invariants, Cofactors;
  }

  lemma WidenMinors(f: M32)
    ensures var w := Widen(f);
      Cofactors(w) == M3(ZERO, ZERO, Cross(f.c0, f.c1)) && Det(w) == 0.0 && Dot(ZERO, ZERO) == 0.0
  {
  }

  lemma WidenOrthogonal(v: M2)
    requires Orthogonal2(v)
    ensures Orthogonal(WidenFrame(v))
  {
  }

  lemma WidenRotate(u: M3, m: M32, v: M2)
    ensures Rotate(u, Widen(m), WidenFrame(v)) == Widen(Rotate2(u, m, v))
  {
  }

  lemma WidenAlong(f: M32, x: M32, t: real)
    ensures Along(Widen(f), Widen(x), t) == Widen(Along2(f, x, t))
  {
  }

  lemma WidenInner(a: M32, b: M32)
    ensures Inner(Widen(a), Widen(b)) == Inner2(a, b)
  {
  }

  lemma UnrotateNarrow(u: M3, x: M32, v: M2)
    ensures Unrotate(u, Widen(x), WidenFrame(v)).c2 == ZERO
  {
  }

  // ---- The closed forms of the 3x2 script ---------------------------------------

  // Columns gI1 and gI2 in the singular values.
  function DIda2(a: real, b: real): M2 {
    M2(V2(2.0 * a, 2.0 * b), V2(2.0 * (a * (b * b)), 2.0 * (a * a * b)))
  }

  function D2Eda2(a: real, b: real, g: V2, h: M2): M2 {
    var d := DIda2(a, b);
    var p, q := MulVec2(d, MulVec2(h, V2(d.c0.x, d.c1.x))), MulVec2(d, MulVec2(h, V2(d.c0.y, d.c1.y)));
    M2(V2(g.x * 2.0 + g.y * (2.0 * (b * b)) + p.x, g.y * (4.0 * a * b) + p.y),
       V2(g.y * (4.0 * a * b) + q.x, g.x * 2.0 + g.y * (2.0 * (a * a)) + q.y))
  }

  // lmds
  function Eigenvalues2(a: real, b: real, g: V2, values: V2): (lmds: seq<real>)
    ensures |lmds| == 6
  {
    [2.0 * (g.x + a * b * g.y), 2.0 * (g.x - a * b * g.y), 2.0 * (g.x + b * b * g.y), 2.0 * (g.x + a * a * g.y),
      values.x, values.y]
  }

  // Q
  function Modes2(root2: real, w: M2): (qs: seq<M32>)
    requires root2 != 0.0
    ensures |qs| == 6
  {
    var k := 1.0 / root2;
    [Narrow(ScaleM(k, M3(V3(0.0, -1.0, 0.0), V3(1.0, 0.0, 0.0), V3(0.0, 0.0, 0.0)))),
     Narrow(ScaleM(k, M3(V3(0.0, 1.0, 0.0), V3(1.0, 0.0, 0.0), V3(0.0, 0.0, 0.0)))),
     M32(V3(0.0, 0.0, 1.0), ZERO), M32(ZERO, V3(0.0, 0.0, 1.0)),
     Diag2(w.c0.x, w.c0.y), Diag2(w.c1.x, w.c1.y)]
  }

  predicate EigenSystem2(h: M2, values: V2, w: M2) {
    && Orthogonal2(w)
    && MulVec2(h, w.c0) == V2(values.x * w.c0.x, values.x * w.c0.y)
    && MulVec2(h, w.c1) == V2(values.y * w.c1.x, values.y * w.c1.y)
  }

  function Mode2(lmd: real, q: M32, x: M32): real {
    lmd * Square(Inner2(q, x))
  }

  // x.T H_rebuilt x: the sum over the six modes.
  function RebuiltForm2(root2: real, u: M3, a: real, b: real, v: M2, g: V2, values: V2, w: M2, x: M32): real
    requires root2 > 0.0
  {
    var l, q := Eigenvalues2(a, b, g, values), Modes2(root2, w);
    Mode2(l[0], Rotate2(u, q[0], v), x) + Mode2(l[1], Rotate2(u, q[1], v), x) + Mode2(l[2], Rotate2(u, q[2], v), x)
    + Mode2(l[3], Rotate2(u, q[3], v), x) + Mode2(l[4], Rotate2(u, q[4], v), x) + Mode2(l[5], Rotate2(u, q[5], v), x)
  }

  // gI1 = 2 F and gI2 = 2 F adj(C).T, weighted by dEdI.
  function GradI2(f: M32): M32 {
    var c := Gram2(f);
    M32(Scale(2.0, Sub(Scale(c.c1.y, f.c0), Scale(c.c1.x, f.c1))),
        Scale(2.0, Sub(Scale(c.c0.x, f.c1), Scale(c.c0.y, f.c0))))
  }

  function EnergyGradient2(f: M32, g: V2): M32 {
    var h := GradI2(f);
    M32(Add(Scale(g.x, Scale(2.0, f.c0)), Scale(g.y, h.c0)), Add(Scale(g.x, Scale(2.0, f.c1)), Scale(g.y, h.c1)))
  }

  ghost predicate TaylorWithin2(e: V2 -> real, i: V2, g: V2, h: M2, eps: real, delta: real) {
    forall d: V2 :: Dot2(d, d) <= delta ==>
      Abs(e(V2(i.x + d.x, i.y + d.y)) - (e(i) + Dot2(g, d) + 0.5 * Dot2(d, MulVec2(h, d)))) <= eps * Dot2(d, d)
  }

  ghost predicate TaylorNear2(e: V2 -> real, i: V2, g: V2, h: M2, eps: real) {
    exists delta :: delta > 0.0 && TaylorWithin2(e, i, g, h, eps, delta)
  }

  ghost predicate TwiceDifferentiable2(e: V2 -> real, i: V2, g: V2, h: M2) {
    forall eps :: eps > 0.0 ==> TaylorNear2(e, i, g, h, eps)
  }

  function EnergyAlong2(e: V2 -> real, f: M32, x: M32): real -> real {
    t => e(Invariants2(Along2(f, x, t)))
  }

  // ---- The energy of two invariants as one of three -------------------------------

  function Pad(g: V2): V3 {
    V3(g.x, g.y, 0.0)
  }

  function PadM(h: M2): M3 {
    M3(Pad(h.c0), Pad(h.c1), ZERO)
  }

  function Lift(e: V2 -> real): V3 -> real {
    (i: V3) => e(V2(i.x, i.y))
  }

  lemma PadForms(g: V2, h: M2, d: V3)
    ensures Dot(Pad(g), d) == Dot2(g, V2(d.x, d.y))
    ensures Dot(d, MulVec(PadM(h), d)) == Dot2(V2(d.x, d.y), MulVec2(h, V2(d.x, d.y)))
  {
    PadMul(h, d);
    hide MulVec, PadM;
  }

  lemma PadMul(h: M2, d: V3)
    ensures MulVec(PadM(h), d) == Pad(MulVec2(h, V2(d.x, d.y)))
  {
  }

  lemma NormShrinks(d: V3)
    ensures 0.0 <= Dot2(V2(d.x, d.y), V2(d.x, d.y)) <= Dot(d, d)
  {
    SquareSign(d.x);
    SquareSign(d.y);
    SquareSign(d.z);
    NormSquares(d);
    hide Dot, Dot2, Square;
  }

  lemma NormSquares(d: V3)
    ensures Dot2(V2(d.x, d.y), V2(d.x, d.y)) == Square(d.x) + Square(d.y)
    ensures Dot(d, d) == Square(d.x) + Square(d.y) + Square(d.z)
  {
  }

  lemma LiftWithin(e: V2 -> real, i: V2, g: V2, h: M2, eps: real, delta: real)
    requires eps > 0.0 && TaylorWithin2(e, i, g, h, eps, delta)
    ensures TaylorWithin(Lift(e), Pad(i), Pad(g), PadM(h), eps, delta)
  {
    hide Abs, Dot, Dot2, MulVec, MulVec2, PadM;
    forall d: V3 | Dot(d, d) <= delta
      ensures Abs(Lift(e)(Add(Pad(i), d))
        - (Lift(e)(Pad(i)) + Dot(Pad(g), d) + 0.5 * Dot(d, MulVec(PadM(h), d)))) <= eps * Dot(d, d)
    {
      var d2 := V2(d.x, d.y);
      NormShrinks(d);
      PadForms(g, h, d);
      MulMonotone(Dot2(d2, d2), Dot(d, d), eps);
    }
  }

  lemma LiftDifferentiable(e: V2 -> real, i: V2, g: V2, h: M2)
    requires TwiceDifferentiable2(e, i, g, h)
    ensures TwiceDifferentiable(Lift(e), Pad(i), Pad(g), PadM(h))
  {
    hide TaylorWithin, TaylorWithin2, Pad, PadM, Lift;
    forall eps | eps > 0.0
      ensures TaylorNear(Lift(e), Pad(i), Pad(g), PadM(h), eps)
    {
      assert TaylorNear2(e, i, g, h, eps);
      var delta :| delta > 0.0 && TaylorWithin2(e, i, g, h, eps, delta);
      LiftWithin(e, i, g, h, eps, delta);
    }
  }

  // ---- The forms agree -------------------------------------------------------------

  // z == p x + q y
  ghost predicate Mixes(z: real, p: real, x: real, q: real, y: real) {
    z == p * x + q * y
  }

  lemma MixesSwap(z: real, p: real, x: real, q: real, y: real)
    requires Mixes(z, p, x, q, y)
    ensures Mixes(z, x, p, y, q)
  {
  }

  // m == h (x, y), entry by entry.
  ghost predicate Product2(m: V2, h: M2, x: real, y: real) {
    Mixes(m.x, h.c0.x, x, h.c1.x, y) && Mixes(m.y, h.c0.y, x, h.c1.y, y)
  }

  lemma MulVecEntries(h: M2, x: real, y: real)
    ensures Product2(MulVec2(h, V2(x, y)), h, x, y)
  {
  }

  lemma Exchange(h0: real, h1: real, d00: real, d10: real, d01: real, d11: real, u: real, w: real,
                 m: real, n: real, r0: real, r1: real, total: real)
    requires Mixes(m, h0, d00, h1, d01) && Mixes(n, h0, d10, h1, d11)
    requires Mixes(r0, d00, u, d10, w) && Mixes(r1, d01, u, d11, w) && Mixes(total, m, u, n, w)
    ensures Mixes(total, h0, r0, h1, r1)
  {
  }

  // d . (D h D.T) d == (D.T d) . h (D.T d), with every product named.
  lemma ConjugateKernel(h: M2, u: real, w: real, r: V2, d: M2, m: V2, n: V2, p: V2, q: V2, s: V2, t: V2, z: real)
    requires Mixes(r.x, d.c0.x, u, d.c0.y, w) && Mixes(r.y, d.c1.x, u, d.c1.y, w)
    requires Product2(m, h, d.c0.x, d.c1.x) && Product2(n, h, d.c0.y, d.c1.y)
    requires Product2(p, d, m.x, m.y) && Product2(q, d, n.x, n.y)
    requires Mixes(s.x, m.x, u, n.x, w) && Mixes(s.y, m.y, u, n.y, w)
    requires Mixes(t.x, p.x, u, q.x, w) && Mixes(t.y, p.y, u, q.y, w) && Mixes(z, t.x, u, t.y, w)
    ensures Product2(s, h, r.x, r.y) && Mixes(z, s.x, r.x, s.y, r.y)
  {
    hide Mixes;
    Exchange(h.c0.x, h.c1.x, d.c0.x, d.c0.y, d.c1.x, d.c1.y, u, w, m.x, n.x, r.x, r.y, s.x);
    Exchange(h.c0.y, h.c1.y, d.c0.x, d.c0.y, d.c1.x, d.c1.y, u, w, m.y, n.y, r.x, r.y, s.y);
    Exchange(d.c0.x, d.c1.x, m.x, n.x, m.y, n.y, u, w, p.x, q.x, s.x, s.y, t.x);
    Exchange(d.c0.y, d.c1.y, m.x, n.x, m.y, n.y, u, w, p.y, q.y, s.x, s.y, t.y);
    MixesSwap(t.x, d.c0.x, s.x, d.c1.x, s.y);
    MixesSwap(t.y, d.c0.y, s.x, d.c1.y, s.y);
    Exchange(s.x, s.y, d.c0.x, d.c0.y, d.c1.x, d.c1.y, u, w, t.x, t.y, r.x, r.y, z);
  }

  lemma ConjugateEnds(u: real, w: real, r: V2, p: V2, q: V2, s: V2, t: V2, z: real)
    requires Mixes(t.x, p.x, u, q.x, w) && Mixes(t.y, p.y, u, q.y, w) && Mixes(z, t.x, u, t.y, w)
    requires Mixes(z, s.x, r.x, s.y, r.y)
    ensures u * (p.x * u + q.x * w) + w * (p.y * u + q.y * w) == Dot2(r, s)
  {
    assert z == u * t.x + w * t.y;
  }

  // The entries of the Hessian, for p and q its rows of products.
  ghost predicate SplitEntries(m: M2, g: V2, aa: real, bb: real, ab: real, p: V2, q: V2) {
    && m.c0.x == g.x * 2.0 + g.y * (2.0 * bb) + p.x && m.c0.y == g.y * ab + p.y
    && m.c1.x == g.y * ab + q.x && m.c1.y == g.x * 2.0 + g.y * (2.0 * aa) + q.y
  }

  lemma FormSplit(g: V2, aa: real, bb: real, ab: real, p: V2, q: V2, u: real, w: real, m: M2)
    requires SplitEntries(m, g, aa, bb, ab, p, q)
    ensures Dot2(V2(u, w), MulVec2(m, V2(u, w)))
         == g.x * (2.0 * (u * u + w * w)) + g.y * (2.0 * (bb * (u * u)) + 2.0 * (ab * (u * w)) + 2.0 * (aa * (w * w)))
          + (u * (p.x * u + q.x * w) + w * (p.y * u + q.y * w))
  {
    FormSplitKernel(g.x, g.y, aa, bb, ab, p.x, p.y, q.x, q.y, u, w, m.c0.x, m.c0.y, m.c1.x, m.c1.y);
  }

  lemma FormSplitKernel(g1: real, g2: real, aa: real, bb: real, ab: real, p0: real, p1: real, q0: real, q1: real,
                        u: real, w: real, m00: real, m10: real, m01: real, m11: real)
    requires m00 == g1 * 2.0 + g2 * (2.0 * bb) + p0 && m10 == g2 * ab + p1
    requires m01 == g2 * ab + q0 && m11 == g1 * 2.0 + g2 * (2.0 * aa) + q1
    ensures u * (m00 * u + m01 * w) + w * (m10 * u + m11 * w)
         == g1 * (2.0 * (u * u + w * w)) + g2 * (2.0 * (bb * (u * u)) + 2.0 * (ab * (u * w)) + 2.0 * (aa * (w * w)))
          + (u * (p0 * u + q0 * w) + w * (p1 * u + q1 * w))
  {
  }

  // The singular-value Hessian of the script, as a form.
  lemma NarrowForm(a: real, b: real, g: V2, h: M2, u: real, w: real, r: V2)
    requires r == V2(2.0 * a * u + 2.0 * b * w, 2.0 * (a * (b * b)) * u + 2.0 * (a * a * b) * w)
    ensures Dot2(V2(u, w), MulVec2(D2Eda2(a, b, g, h), V2(u, w)))
         == g.x * (2.0 * (u * u + w * w))
           + g.y * (2.0 * (b * b * (u * u)) + 2.0 * (4.0 * a * b * (u * w)) + 2.0 * (a * a * (w * w)))
          + Dot2(r, MulVec2(h, r))
  {
    hide Dot2, MulVec2, DIda2, D2Eda2, SplitEntries;
    var d := DIda2(a, b);
    var m, n := MulVec2(h, V2(d.c0.x, d.c1.x)), MulVec2(h, V2(d.c0.y, d.c1.y));
    var p, q := MulVec2(d, m), MulVec2(d, n);
    HessianEntries2(a, b, g, h, d, p, q);
    FormSplit(g, a * a, b * b, 4.0 * a * b, p, q, u, w, D2Eda2(a, b, g, h));
    RowProducts(a, b, u, w, r, d);
    ConjugateWrap(h, u, w, r, d, m, n, p, q);
  }

  lemma HessianEntries2(a: real, b: real, g: V2, h: M2, d: M2, p: V2, q: V2)
    requires d == DIda2(a, b)
    requires p == MulVec2(d, MulVec2(h, V2(d.c0.x, d.c1.x))) && q == MulVec2(d, MulVec2(h, V2(d.c0.y, d.c1.y)))
    ensures SplitEntries(D2Eda2(a, b, g, h), g, a * a, b * b, 4.0 * a * b, p, q)
  {
    hide MulVec2, DIda2;
    var e := D2Eda2(a, b, g, h);
    assert e.c0.x == g.x * 2.0 + g.y * (2.0 * (b * b)) + p.x;
    assert e.c0.y == g.y * (4.0 * a * b) + p.y;
    assert e.c1.x == g.y * (4.0 * a * b) + q.x;
    assert e.c1.y == g.x * 2.0 + g.y * (2.0 * (a * a)) + q.y;
  }

  lemma RowProducts(a: real, b: real, u: real, w: real, r: V2, d: M2)
    requires r == V2(2.0 * a * u + 2.0 * b * w, 2.0 * (a * (b * b)) * u + 2.0 * (a * a * b) * w)
    requires d == DIda2(a, b)
    ensures Mixes(r.x, d.c0.x, u, d.c0.y, w) && Mixes(r.y, d.c1.x, u, d.c1.y, w)
  {
  }

  lemma ConjugateWrap(h: M2, u: real, w: real, r: V2, d: M2, m: V2, n: V2, p: V2, q: V2)
    requires Mixes(r.x, d.c0.x, u, d.c0.y, w) && Mixes(r.y, d.c1.x, u, d.c1.y, w)
    requires m == MulVec2(h, V2(d.c0.x, d.c1.x)) && n == MulVec2(h, V2(d.c0.y, d.c1.y))
    requires p == MulVec2(d, m) && q == MulVec2(d, n)
    ensures u * (p.x * u + q.x * w) + w * (p.y * u + q.y * w) == Dot2(r, MulVec2(h, r))
  {
    hide MulVec2, Dot2, Mixes;
    MulVecEntries(h, d.c0.x, d.c1.x);
    MulVecEntries(h, d.c0.y, d.c1.y);
    MulVecEntries(d, m.x, m.y);
    MulVecEntries(d, n.x, n.y);
    var s, t := Mixed2(m, u, n, w), Mixed2(p, u, q, w);
    var z := Mix2(t.x, u, t.y, w);
    MixedIs(m, u, n, w);
    MixedIs(p, u, q, w);
    MixIs(t.x, u, t.y, w);
    ConjugateKernel(h, u, w, r, d, m, n, p, q, s, t, z);
    ConjugateEnds(u, w, r, p, q, s, t, z);
    ProductIs(s, h, r);
  }

  function Mix2(p: real, x: real, q: real, y: real): real {
    p * x + q * y
  }

  function Mixed2(m: V2, u: real, n: V2, w: real): V2 {
    V2(Mix2(m.x, u, n.x, w), Mix2(m.y, u, n.y, w))
  }

  lemma MixIs(p: real, x: real, q: real, y: real)
    ensures Mixes(Mix2(p, x, q, y), p, x, q, y)
  {
  }

  lemma MixedIs(m: V2, u: real, n: V2, w: real)
    ensures var s := Mixed2(m, u, n, w); Mixes(s.x, m.x, u, n.x, w) && Mixes(s.y, m.y, u, n.y, w)
  {
  }

  lemma ProductIs(s: V2, h: M2, r: V2)
    requires Product2(s, h, r.x, r.y)
    ensures s == MulVec2(h, r)
  {
  }

  lemma WideGradient(s: V3, d: V3, q: V3)
    requires q == AreaGradient(s.x, s.y, s.z)
    ensures var p := MulVec(Transpose(DIda(s)), d); p.x == 2.0 * Dot(s, d) && p.y == 2.0 * Dot(q, d)
  {
    TransposeMulVec(DIda(s), d);
    Doubled(s, d);
    Doubled(q, d);
    assert s == V3(s.x, s.y, s.z);
    assert DIda(s).c0 == Scale(2.0, s) && DIda(s).c1 == Scale(2.0, q);
    hide MulVec, Transpose, Dot, Scale, DIda;
  }

  lemma FlatDot(x: real, y: real, z: real, u: real, w: real)
    ensures Dot(V3(x, y, z), V3(u, w, 0.0)) == x * u + y * w
  {
  }

  lemma FlatAreaGradient(a: real, b: real)
    ensures AreaGradient(a, b, 0.0) == V3(a * (b * b), a * a * b, 0.0)
  {
  }

  lemma WideEntries(a: real, b: real, u: real, w: real, p: V3, q: V3, d: V3)
    requires q == V3(a * (b * b), a * a * b, 0.0) && d == V3(u, w, 0.0)
    requires p.x == 2.0 * Dot(V3(a, b, 0.0), d) && p.y == 2.0 * Dot(q, d)
    ensures p.x == 2.0 * a * u + 2.0 * b * w && p.y == 2.0 * (a * (b * b)) * u + 2.0 * (a * a * b) * w
  {
    FlatDot(a, b, 0.0, u, w);
    FlatDot(a * (b * b), a * a * b, 0.0, u, w);
    hide Dot;
  }

  lemma WideForm(a: real, b: real, g: V2, h: M2, u: real, w: real, r: V2)
    requires r == V2(2.0 * a * u + 2.0 * b * w, 2.0 * (a * (b * b)) * u + 2.0 * (a * a * b) * w)
    ensures Form(Hessian3.D2Eda2(V3(a, b, 0.0), Pad(g), PadM(h)), V3(u, w, 0.0))
         == g.x * (2.0 * (u * u + w * w))
           + g.y * (2.0 * (b * b * (u * u)) + 2.0 * (4.0 * a * b * (u * w)) + 2.0 * (a * a * (w * w)))
          + Dot2(r, MulVec2(h, r))
  {
    hide *;
    var s, d := V3(a, b, 0.0), V3(u, w, 0.0);
    var p := MulVec(Transpose(DIda(s)), d);
    HessianForm(s, Pad(g), PadM(h), d);
    var q := AreaGradient(a, b, 0.0);
    WideGradient(s, d, q);
    FlatAreaGradient(a, b);
    WideEntries(a, b, u, w, p, q, d);
    assert r == V2(p.x, p.y);
    FormIs(PadM(h), p);
    PadForms(g, h, p);
    WideWeighted(a, b, g, u, w);
  }

  lemma WideWeighted(a: real, b: real, g: V2, u: real, w: real)
    ensures Form(Weighted(V3(a, b, 0.0), Pad(g)), V3(u, w, 0.0))
         == g.x * (2.0 * (u * u + w * w))
           + g.y * (2.0 * (b * b * (u * u)) + 2.0 * (4.0 * a * b * (u * w)) + 2.0 * (a * a * (w * w)))
  {
    hide *;
    var s, d := V3(a, b, 0.0), V3(u, w, 0.0);
    PadEntries(g, M2(g, g));
    WeightedForm(s, Pad(g), d);
    FlatForms(a, b, u, w);
    WeightedKernel(g.x, g.y, Pad(g), Form(D2I1(s), d), Form(D2I2(s), d), Form(D2I3(s), d), 2.0 * (u * u + w * w),
                   2.0 * (b * b * (u * u)) + 2.0 * (4.0 * a * b * (u * w)) + 2.0 * (a * a * (w * w)),
                     Form(Weighted(s, Pad(g)), d));
  }

  lemma WeightedKernel(g1: real, g2: real, g: V3, f1: real, f2: real, f3: real, e1: real, e2: real, total: real)
    requires g == V3(g1, g2, 0.0) && f1 == e1 && f2 == e2
    requires total == g.x * f1 + g.y * f2 + g.z * f3
    ensures total == g1 * e1 + g2 * e2
  {
  }

  lemma FormIs(h: M3, p: V3)
    ensures Form(h, p) == Dot(p, MulVec(h, p))
  {
  }

  lemma FlatForms(a: real, b: real, u: real, w: real)
    ensures var s, d := V3(a, b, 0.0), V3(u, w, 0.0);
      && Form(D2I1(s), d) == 2.0 * (u * u + w * w)
      && Form(D2I2(s), d) == 2.0 * (b * b * (u * u)) + 2.0 * (4.0 * a * b * (u * w)) + 2.0 * (a * a * (w * w))
  {
    var s, d := V3(a, b, 0.0), V3(u, w, 0.0);
    DoublyForm(D2I1(s), 1.0, 1.0, 1.0, 0.0, 0.0, 0.0, d);
    FormArea(s, d, a, b, 0.0);
    hide Form, D2I1, D2I2;
  }

  // The script's 2x2 Hessian is the 3x3 one on the first two singular values.
  lemma NarrowIsWide(a: real, b: real, g: V2, h: M2, u: real, w: real)
    ensures Dot2(V2(u, w), MulVec2(D2Eda2(a, b, g, h), V2(u, w)))
         == Form(Hessian3.D2Eda2(V3(a, b, 0.0), Pad(g), PadM(h)), V3(u, w, 0.0))
  {
    var r := V2(2.0 * a * u + 2.0 * b * w, 2.0 * (a * (b * b)) * u + 2.0 * (a * a * b) * w);
    hide *;
    NarrowForm(a, b, g, h, u, w, r);
    WideForm(a, b, g, h, u, w, r);
  }

  // ---- The six modes ------------------------------------------------------------------

  lemma PadEigenvector(h: M2, l: real, c: V2)
    requires MulVec2(h, c) == V2(l * c.x, l * c.y)
    ensures MulVec(PadM(h), Pad(c)) == Scale(l, Pad(c))
  {
    PadMul(h, Pad(c));
    hide MulVec, MulVec2, PadM;
  }

  lemma PadThird(h: M2)
    ensures MulVec(PadM(h), V3(0.0, 0.0, 1.0)) == Scale(0.0, V3(0.0, 0.0, 1.0))
  {
    PadMul(h, V3(0.0, 0.0, 1.0));
    hide MulVec, PadM;
  }

  lemma PadEntries(v: V2, w: M2)
    ensures Pad(v).x == v.x && Pad(v).y == v.y && Pad(v).z == 0.0
    ensures WidenFrame(w).c0 == Pad(w.c0) && WidenFrame(w).c1 == Pad(w.c1)
  {
  }

  lemma FormSpectral2(h: M2, values: V2, w: M2, v: V2)
    requires EigenSystem2(h, values, w)
    ensures Dot2(v, MulVec2(h, v)) == values.x * Square(Dot2(w.c0, v)) + values.y * Square(Dot2(w.c1, v))
  {
    hide MulVec, MulVec2, Scale, Orthogonal, Orthogonal2, PadM, Dot, Dot2, Square;
    WidenOrthogonal(w);
    PadEigenvector(h, values.x, w.c0);
    PadEigenvector(h, values.y, w.c1);
    PadThird(h);
    assert EigenSystem(PadM(h), Pad(values), WidenFrame(w));
    hide *;
    PadEntries(v, w);
    PadEntries(values, w);
    assert V2(Pad(v).x, Pad(v).y) == v;
    PadForms(w.c0, h, Pad(v));
    PadForms(w.c1, h, Pad(v));
    FormIs(PadM(h), Pad(v));
    FormSpectral(PadM(h), Pad(values), WidenFrame(w), Pad(v));
    ZeroTerm(Pad(values).z, Square(Dot(WidenFrame(w).c2, Pad(v))));
  }

  lemma ZeroTerm(z: real, x: real)
    requires z == 0.0
    ensures z * x == 0.0
  {
  }

  // The six modes against a direction, in the singular frame.
  lemma SpectralSix(root2: real, a: real, b: real, g: V2, values: V2, w: M2, y: M32)
    requires root2 > 0.0 && root2 * root2 == 2.0
    ensures var l, q := Eigenvalues2(a, b, g, values), Modes2(root2, w);
      Mode2(l[0], q[0], y) + Mode2(l[1], q[1], y) + Mode2(l[2], q[2], y) + Mode2(l[3], q[3], y) + Mode2(l[4], q[4], y)
        + Mode2(l[5], q[5], y)
      == 2.0 * PairForm(l[0], l[1], y.c1.x, y.c0.y) + l[2] * Square(y.c0.z) + l[3] * Square(y.c1.z)
       + (values.x * Square(Dot2(w.c0, V2(y.c0.x, y.c1.y))) + values.y * Square(Dot2(w.c1, V2(y.c0.x, y.c1.y))))
  {
    hide Square, PairForm, Mode2, ScaleM;
    var l := Eigenvalues2(a, b, g, values);
    var anti, sym := M3(V3(0.0, -1.0, 0.0), V3(1.0, 0.0, 0.0), V3(0.0, 0.0, 0.0)),
      M3(V3(0.0, 1.0, 0.0), V3(1.0, 0.0, 0.0), V3(0.0, 0.0, 0.0));
    NarrowPair(root2, l[0], l[1], anti, sym, y);
    NormalMode(l[2], l[3], y);
    DiagonalMode2(values.x, w.c0, y);
    DiagonalMode2(values.y, w.c1, y);
  }

  lemma NarrowPair(root2: real, lam: real, mu: real, anti: M3, sym: M3, y: M32)
    requires root2 > 0.0 && root2 * root2 == 2.0
    requires anti == M3(V3(0.0, -1.0, 0.0), V3(1.0, 0.0, 0.0), V3(0.0, 0.0, 0.0))
    requires sym == M3(V3(0.0, 1.0, 0.0), V3(1.0, 0.0, 0.0), V3(0.0, 0.0, 0.0))
    ensures Mode2(lam, Narrow(ScaleM(1.0 / root2, anti)), y) + Mode2(mu, Narrow(ScaleM(1.0 / root2, sym)), y)
         == 2.0 * PairForm(lam, mu, y.c1.x, y.c0.y)
  {
    hide Square, PairForm, ScaleM, Mode, Mode2, Inner;
    InnerUnits(Widen(y));
    InnerUnitsSymmetric(Widen(y));
    PairModesSum(root2, lam, mu, anti, sym, y.c1.x, y.c0.y, Widen(y));
    NarrowMode(lam, ScaleM(1.0 / root2, anti), y);
    NarrowMode(mu, ScaleM(1.0 / root2, sym), y);
  }

  // A zero third column sees only the first two.
  lemma NarrowMode(lmd: real, q: M3, y: M32)
    ensures Mode2(lmd, Narrow(q), y) == Mode(lmd, q, Widen(y))
  {
    InnerNarrow(q, y);
    hide Inner, Inner2, Square, Widen, Narrow;
  }

  lemma InnerNarrow(q: M3, y: M32)
    ensures Inner2(Narrow(q), y) == Inner(q, Widen(y))
  {
  }

  lemma NormalMode(l2: real, l3: real, y: M32)
    ensures Mode2(l2, M32(V3(0.0, 0.0, 1.0), ZERO), y) == l2 * Square(y.c0.z)
    ensures Mode2(l3, M32(ZERO, V3(0.0, 0.0, 1.0)), y) == l3 * Square(y.c1.z)
  {
    hide Square;
    assert Inner2(M32(V3(0.0, 0.0, 1.0), ZERO), y) == y.c0.z;
    assert Inner2(M32(ZERO, V3(0.0, 0.0, 1.0)), y) == y.c1.z;
  }

  lemma DiagonalMode2(value: real, c: V2, y: M32)
    ensures Mode2(value, Diag2(c.x, c.y), y) == value * Square(Dot2(c, V2(y.c0.x, y.c1.y)))
  {
    hide Square;
    assert Inner2(Diag2(c.x, c.y), y) == Dot2(c, V2(y.c0.x, y.c1.y));
  }

  lemma FlatEigenvalues(a: real, b: real, g: V2, values: V2)
    ensures var l, m, n := AntiEigenvalues(a, b, 0.0, Pad(g)), SymEigenvalues(a, b, 0.0, Pad(g)),
      Eigenvalues2(a, b, g, values);
      n[0] == l.x && n[1] == m.x && n[2] == l.y == m.y && n[3] == l.z == m.z
  {
  }

  // An off-diagonal pair one of whose entries the third column makes zero.
  lemma FlatPair(l: real, v: real)
    ensures 2.0 * PairForm(l, l, 0.0, v) == l * Square(v)
  {
  }

  // The script's six eigenpairs give the whole second-order term.
  lemma SpectralFlat(root2: real, a: real, b: real, g: V2, h: M2, values: V2, w: M2, y: M32)
    requires root2 > 0.0 && root2 * root2 == 2.0
    requires EigenSystem2(D2Eda2(a, b, g, h), values, w)
    ensures var l, q := Eigenvalues2(a, b, g, values), Modes2(root2, w);
      Mode2(l[0], q[0], y) + Mode2(l[1], q[1], y) + Mode2(l[2], q[2], y) + Mode2(l[3], q[3], y) + Mode2(l[4], q[4], y)
        + Mode2(l[5], q[5], y)
      == Form(Hessian3.D2Eda2(V3(a, b, 0.0), Pad(g), PadM(h)), Diagonal(Widen(y)))
       + 2.0 * PairSum(AntiEigenvalues(a, b, 0.0, Pad(g)), SymEigenvalues(a, b, 0.0, Pad(g)), Widen(y))
  {
    hide Square, PairForm, Mode2, EigenSystem2, D2Eda2, Hessian3.D2Eda2, Form, AntiEigenvalues, SymEigenvalues,
      Eigenvalues2, Modes2, Dot2, MulVec2, Pad, PadM;
    var l := Eigenvalues2(a, b, g, values);
    SpectralSix(root2, a, b, g, values, w, y);
    FlatEigenvalues(a, b, g, values);
    FlatPair(l[2], y.c0.z);
    FlatPair(l[3], y.c1.z);
    FormSpectral2(D2Eda2(a, b, g, h), values, w, V2(y.c0.x, y.c1.y));
    NarrowIsWide(a, b, g, h, y.c0.x, y.c1.y);
  }

  // ---- The theorem ----------------------------------------------------------------------

  lemma ModeRotated2(u: M3, v: M2, lmd: real, q: M32, x: M32, y: M32)
    requires Widen(y) == Unrotate(u, Widen(x), WidenFrame(v))
    ensures Mode2(lmd, Rotate2(u, q, v), x) == Mode2(lmd, q, y)
  {
    hide Inner, Inner2, Square, Rotate, Rotate2, Unrotate, Widen, WidenFrame;
    WidenRotate(u, q, v);
    WidenInner(Rotate2(u, q, v), x);
    WidenInner(q, y);
    InnerRotate(u, Widen(q), WidenFrame(v), Widen(x));
  }

  lemma RebuiltIs2(root2: real, u: M3, a: real, b: real, v: M2, g: V2, h: M2, values: V2, w: M2, x: M32, y: M32)
    requires root2 > 0.0 && root2 * root2 == 2.0
    requires EigenSystem2(D2Eda2(a, b, g, h), values, w)
    requires Widen(y) == Unrotate(u, Widen(x), WidenFrame(v))
    ensures RebuiltForm2(root2, u, a, b, v, g, values, w, x)
         == Form(Hessian3.D2Eda2(V3(a, b, 0.0), Pad(g), PadM(h)), Diagonal(Widen(y)))
          + 2.0 * PairSum(AntiEigenvalues(a, b, 0.0, Pad(g)), SymEigenvalues(a, b, 0.0, Pad(g)), Widen(y))
  {
    hide Mode2, EigenSystem2, D2Eda2, Hessian3.D2Eda2, Form, PairSum, AntiEigenvalues, SymEigenvalues, Eigenvalues2,
      Modes2, Pad, PadM, Widen, Unrotate, WidenFrame, Rotate2, Diagonal;
    var l, q := Eigenvalues2(a, b, g, values), Modes2(root2, w);
    SpectralFlat(root2, a, b, g, h, values, w, y);
    ModeRotated2(u, v, l[0], q[0], x, y);
    ModeRotated2(u, v, l[1], q[1], x, y);
    ModeRotated2(u, v, l[2], q[2], x, y);
    ModeRotated2(u, v, l[3], q[3], x, y);
    ModeRotated2(u, v, l[4], q[4], x, y);
    ModeRotated2(u, v, l[5], q[5], x, y);
  }

  lemma GradientInner2(f: M32, g: V2, x: M32)
    ensures Inner2(EnergyGradient2(f, g), x) == Dot(Pad(g), FirstVariation(Widen(f), Widen(x)))
  {
    hide *;
    GradientTerms2(f, g, x);
    FirstVariationFlat(f, x);
    PadEntries(g, M2(g, g));
    DotEntries(Pad(g), FirstVariation(Widen(f), Widen(x)));
    GradI2Inner2(f, x);
    ZeroTerm(Pad(g).z, FirstVariation(Widen(f), Widen(x)).z);
  }

  lemma GradientTerms2(f: M32, g: V2, x: M32)
    ensures Inner2(EnergyGradient2(f, g), x) == g.x * (2.0 * Inner2(f, x)) + g.y * Inner2(GradI2(f), x)
  {
    hide Dot, Add, Scale, GradI2;
    var h := GradI2(f);
    DotAdd(Scale(g.x, Scale(2.0, f.c0)), Scale(g.y, h.c0), x.c0);
    DotAdd(Scale(g.x, Scale(2.0, f.c1)), Scale(g.y, h.c1), x.c1);
    DotScale(g.x, Scale(2.0, f.c0), x.c0);
    DotScale(g.x, Scale(2.0, f.c1), x.c1);
    DotScale(2.0, f.c0, x.c0);
    DotScale(2.0, f.c1, x.c1);
    DotScale(g.y, h.c0, x.c0);
    DotScale(g.y, h.c1, x.c1);
  }

  lemma GradI2Inner2(f: M32, x: M32)
    ensures Inner2(GradI2(f), x) == 2.0 * Dot(Cross(f.c0, f.c1), Add(Cross(f.c0, x.c1), Cross(x.c0, f.c1)))
  {
    hide Dot, Add, Scale, Sub, Cross;
    var c, a, b := Gram2(f), f.c0, f.c1;
    MixedProduct(a, b, x.c0, x.c1);
    DotScale(2.0, Sub(Scale(c.c1.y, a), Scale(c.c1.x, b)), x.c0);
    DotScale(2.0, Sub(Scale(c.c0.x, b), Scale(c.c0.y, a)), x.c1);
    DotSubLeft(Scale(c.c1.y, a), Scale(c.c1.x, b), x.c0);
    DotSubLeft(Scale(c.c0.x, b), Scale(c.c0.y, a), x.c1);
    DotScale(c.c1.y, a, x.c0);
    DotScale(c.c1.x, b, x.c0);
    DotScale(c.c0.x, b, x.c1);
    DotScale(c.c0.y, a, x.c1);
  }

  lemma FirstVariationFlat(f: M32, x: M32)
    ensures var p := FirstVariation(Widen(f), Widen(x));
      && p.x == 2.0 * Inner2(f, x)
      && p.y == 2.0 * Dot(Cross(f.c0, f.c1), Add(Cross(f.c0, x.c1), Cross(x.c0, f.c1)))
  {
    hide Inner, Inner2, Det;
    WidenInner(f, x);
    WidenMixed(f, x);
  }

  lemma WidenMixed(f: M32, x: M32)
    ensures Inner(Cofactors(Widen(f)), MixedCofactors(Widen(f), Widen(x)))
         == Dot(Cross(f.c0, f.c1), Add(Cross(f.c0, x.c1), Cross(x.c0, f.c1)))
  {
    WidenMinors(f);
    hide Cross, Cofactors, Det;
    ZeroDot(MixedCofactors(Widen(f), Widen(x)).c0);
    ZeroDot(MixedCofactors(Widen(f), Widen(x)).c1);
    hide Dot, Add;
  }

  lemma ZeroDot(a: V3)
    ensures Dot(ZERO, a) == 0.0
  {
  }

  lemma EnergyWidened(e: V2 -> real, f: M32, x: M32, t: real)
    ensures EnergyAlong2(e, f, x)(t) == EnergyAlong(Lift(e), Widen(f), Widen(x))(t)
  {
    hide Invariants, Invariants2, Along, Along2, Widen;
    WidenAlong(f, x, t);
    WidenInvariants(Along2(f, x, t));
  }

  lemma EnergyRotated2(e: V2 -> real, u: M3, d: M32, v: M2, x: M32, y: M32, t: real)
    requires Orthogonal(u) && Orthogonal2(v)
    requires Widen(y) == Unrotate(u, Widen(x), WidenFrame(v))
    ensures EnergyAlong2(e, Rotate2(u, d, v), x)(t) == EnergyAlong(Lift(e), Widen(d), Widen(y))(t)
  {
    hide *;
    WidenOrthogonal(v);
    EnergyWidened(e, Rotate2(u, d, v), x, t);
    WidenRotate(u, d, v);
    EnergyRotated(Lift(e), u, Widen(d), WidenFrame(v), Widen(x), t);
  }

  lemma WidenDiag(a: real, b: real)
    ensures Widen(Diag2(a, b)) == Diag(V3(a, b, 0.0))
  {
  }

  lemma NarrowDirection(u: M3, x: M32, v: M2) returns (y: M32)
    ensures Widen(y) == Unrotate(u, Widen(x), WidenFrame(v))
  {
    UnrotateNarrow(u, x, v);
    hide Unrotate;
    y := Narrow(Unrotate(u, Widen(x), WidenFrame(v)));
  }

  lemma LiftAt(e: V2 -> real, f: M32)
    ensures Lift(e)(Invariants(Widen(f))) == e(Invariants2(f)) && Invariants(Widen(f)) == Pad(Invariants2(f))
  {
    WidenInvariants(f);
    hide Invariants, Invariants2, Widen;
  }

  // The 3x2 theorem: at F = U[:, :2] diag(a, b) V.T, with U extended by the
  // normal, the second-order term along X is half the form of the Hessian the
  // script rebuilds from its six eigenpairs, and the linear term is its gradient.
  lemma HessianTheorem2(e: V2 -> real, u: M3, a: real, b: real, v: M2, g: V2, h: M2, values: V2, w: M2, root2: real,
                        x: M32)
    requires Orthogonal(u) && Orthogonal2(v) && root2 > 0.0 && root2 * root2 == 2.0
    requires EigenSystem2(D2Eda2(a, b, g, h), values, w)
    requires TwiceDifferentiable2(e, Invariants2(Rotate2(u, Diag2(a, b), v)), g, h)
    ensures var f := Rotate2(u, Diag2(a, b), v);
      SecondOrderAt0(EnergyAlong2(e, f, x), e(Invariants2(f)), Inner2(EnergyGradient2(f, g), x),
                     0.5 * RebuiltForm2(root2, u, a, b, v, g, values, w, x))
  {
    hide *;
    var f, d, s := Rotate2(u, Diag2(a, b), v), Diag2(a, b), V3(a, b, 0.0);
    var y := NarrowDirection(u, x, v);
    var e3, g3, h3 := Lift(e), Pad(g), PadM(h);
    LiftDifferentiable(e, Invariants2(f), g, h);
    LiftAt(e, f);
    WidenDiag(a, b);
    WidenOrthogonal(v);
    WidenRotate(u, d, v);
    InvariantsRotate(u, Widen(d), WidenFrame(v));
    EnergySecondOrder(e3, Widen(d), Widen(y), g3, h3);
    ModelDiag(s, Widen(y), g3, h3);
    ThirdEntry(a, b);
    RebuiltIs2(root2, u, a, b, v, g, h, values, w, x, y);
    forall t
      ensures EnergyAlong2(e, f, x)(t) == EnergyAlong(e3, Widen(d), Widen(y))(t)
    {
      EnergyRotated2(e, u, d, v, x, y, t);
    }
    var k1, k2 := Dot(g3, FirstVariation(Widen(d), Widen(y))),
      Dot(g3, SecondVariation(Widen(d), Widen(y))) + 0.5 * Form(h3, FirstVariation(Widen(d), Widen(y)));
    SameExpansion(EnergyAlong2(e, f, x), EnergyAlong(e3, Widen(d), Widen(y)), e3(Invariants(Widen(d))), k1, k2);
    forall t
      ensures EnergyAlong2(e, f, x)(t) == EnergyAlong(e3, Widen(f), Widen(x))(t)
    {
      EnergyWidened(e, f, x, t);
    }
    var l1, l2 := Dot(g3, FirstVariation(Widen(f), Widen(x))),
      Dot(g3, SecondVariation(Widen(f), Widen(x))) + 0.5 * Form(h3, FirstVariation(Widen(f), Widen(x)));
    EnergySecondOrder(e3, Widen(f), Widen(x), g3, h3);
    SameExpansion(EnergyAlong2(e, f, x), EnergyAlong(e3, Widen(f), Widen(x)), e3(Invariants(Widen(f))), l1, l2);
    ExpansionUnique(EnergyAlong2(e, f, x), e3(Invariants(Widen(d))), k1, k2, e3(Invariants(Widen(f))), l1, l2);
    GradientInner2(f, g, x);
  }

  lemma ThirdEntry(a: real, b: real)
    ensures V3(a, b, 0.0).x == a && V3(a, b, 0.0).y == b && V3(a, b, 0.0).z == 0.0
  {
  }
}
