// The reference intersection tests the shell untangler is judged by: a segment
// against a triangle, and two triangles edge by edge
// (addon_host_tests/_shell_untangle_.py:44-71).
module Triangles {
  import opened LinearAlgebra

  datatype Triangle = Triangle(v0: V3, v1: V3, v2: V3)

  // 1e-14, the determinant under which an edge is taken as parallel.
  const THRESHOLD := 0.00000000000001

  function Corner(t: Triangle, i: nat): V3 {
    if i % 3 == 0 then t.v0 else if i % 3 == 1 then t.v1 else t.v2
  }

  function EdgeDet(p: V3, q: V3, tri: Triangle): real {
    Dot(Sub(tri.v1, tri.v0), Cross(Sub(q, p), Sub(tri.v2, tri.v0)))
  }

  // Moller-Trumbore on the closed segment pq.
  predicate SegmentHitsTriangle(p: V3, q: V3, tri: Triangle) {
    var e1, e2 := Sub(tri.v1, tri.v0), Sub(tri.v2, tri.v0);
    var d := Sub(q, p);
    var h := Cross(d, e2);
    var det := Dot(e1, h);
    if Abs(det) < THRESHOLD then false else
    var f := 1.0 / det;
    var s := Sub(p, tri.v0);
    var u := Times(f, Dot(s, h));
    if u < 0.0 || u > 1.0 then false else
    var qv := Cross(s, e1);
    var v := Times(f, Dot(d, qv));
    if v < 0.0 || u + v > 1.0 then false else
    var t := Times(f, Dot(e2, qv));
    0.0 <= t <= 1.0
  }

  // The point of the segment at parameter t, and of the triangle at (u, v).
  function OnSegment(p: V3, q: V3, t: real): V3 {
    Add(p, Scale(t, Sub(q, p)))
  }

  function OnTriangle(tri: Triangle, u: real, v: real): V3 {
    Add(tri.v0, Add(Scale(u, Sub(tri.v1, tri.v0)), Scale(v, Sub(tri.v2, tri.v0))))
  }

  ghost predicate Meets(p: V3, q: V3, tri: Triangle, t: real, u: real, v: real) {
    && 0.0 <= t <= 1.0 && u >= 0.0 && v >= 0.0 && u + v <= 1.0
    && OnSegment(p, q, t) == OnTriangle(tri, u, v)
  }

  // The closed segment and the closed triangle share a point.
  ghost predicate SegmentMeetsTriangle(p: V3, q: V3, tri: Triangle) {
    exists t, u, v :: Meets(p, q, tri, t, u, v)
  }

  // ---- Cramer's rule for one edge ---------------------------------------------------

  // s + t d == u e1 + v e2
  lemma EdgeSolution(e1: V3, e2: V3, d: V3, s: V3, t: real, u: real, v: real)
    requires Add(s, Scale(t, d)) == Add(Scale(u, e1), Scale(v, e2))
    ensures var h, qv := Cross(d, e2), Cross(s, e1);
      var det := Dot(e1, h);
      Dot(s, h) == u * det && Dot(d, qv) == v * det && Dot(e2, qv) == t * det
  {
    hide *;
    SolutionU(e1, e2, d, s, t, u, v);
    SolutionV(e1, e2, d, s, t, u, v);
    SolutionT(e1, e2, d, s, t, u, v);
  }

  lemma DotBoth(s: V3, t: real, d: V3, u: real, e1: V3, v: real, e2: V3, w: V3)
    requires Add(s, Scale(t, d)) == Add(Scale(u, e1), Scale(v, e2))
    ensures Dot(s, w) + t * Dot(d, w) == u * Dot(e1, w) + v * Dot(e2, w)
  {
    hide *;
    DotAdd(s, Scale(t, d), w);
    DotScale(t, d, w);
    DotAdd(Scale(u, e1), Scale(v, e2), w);
    DotScale(u, e1, w);
    DotScale(v, e2, w);
  }

  lemma SolutionU(e1: V3, e2: V3, d: V3, s: V3, t: real, u: real, v: real)
    requires Add(s, Scale(t, d)) == Add(Scale(u, e1), Scale(v, e2))
    ensures Dot(s, Cross(d, e2)) == u * Dot(e1, Cross(d, e2))
  {
    hide *;
    DotBoth(s, t, d, u, e1, v, e2, Cross(d, e2));
    CrossSelf(d, e2);
  }

  // d x e1 sees s and e2 only.
  lemma SolutionV(e1: V3, e2: V3, d: V3, s: V3, t: real, u: real, v: real)
    requires Add(s, Scale(t, d)) == Add(Scale(u, e1), Scale(v, e2))
    ensures Dot(d, Cross(s, e1)) == v * Dot(e1, Cross(d, e2))
  {
    hide *;
    var w := Cross(e1, d);
    DotBoth(s, t, d, u, e1, v, e2, w);
    CrossSelf(e1, d);
    MixedProductCyclic(d, s, e1);
    MixedProductCyclic(e1, d, e2);
    MixedProductCyclic(d, e2, e1);
  }

  lemma SolutionT(e1: V3, e2: V3, d: V3, s: V3, t: real, u: real, v: real)
    requires Add(s, Scale(t, d)) == Add(Scale(u, e1), Scale(v, e2))
    ensures Dot(e2, Cross(s, e1)) == t * Dot(e1, Cross(d, e2))
  {
    hide *;
    var w := Cross(e2, e1);
    DotBoth(s, t, d, u, e1, v, e2, w);
    CrossSelf(e2, e1);
    MixedProductCyclic(e2, s, e1);
    MixedProductCyclic(s, e1, e2);
    MixedProductCyclic(e1, d, e2);
    MixedProductCyclic(d, e2, e1);
    CrossAntisymmetric(e1, e2);
    DotNeg(s, Cross(e2, e1));
    DotNeg(d, Cross(e2, e1));
  }

  lemma CramerEdge(e1: V3, e2: V3, d: V3, s: V3, det: real)
    requires det == Dot(e1, Cross(d, e2))
    ensures Scale(-det, s) == Combine(-Dot(s, Cross(d, e2)), e1, -Dot(d, Cross(s, e1)), e2, Dot(e2, Cross(s, e1)), d)
  {
    hide *;
    Cramer(e1, e2, d, s);
    CrossAntisymmetric(e2, d);
    DotNeg(e1, Cross(d, e2));
    DotSymmetric(Cross(e2, d), s);
    DotNeg(s, Cross(d, e2));
    DotSymmetric(Cross(d, e1), s);
    MixedProductCyclic(s, d, e1);
    MixedProductCyclic(d, e1, s);
    CrossAntisymmetric(e1, s);
    DotNeg(d, Cross(s, e1));
    DotSymmetric(Cross(e1, e2), s);
    MixedProductCyclic(s, e1, e2);
    MixedProductCyclic(e1, e2, s);
  }

  lemma CramerDivided(e1: V3, e2: V3, d: V3, s: V3, nd: real, f: real, na: real, nb: real, c: real, t: real, u: real,
                      v: real)
    requires f * nd == -1.0 && u == -(f * na) && v == -(f * nb) && t == f * c
    requires Scale(nd, s) == Combine(na, e1, nb, e2, c, d)
    ensures Add(s, Scale(t, d)) == Add(Scale(u, e1), Scale(v, e2))
  {
    hide Scale, Combine;
    ScaleIs(nd, s);
    CombineEntries(na, e1, nb, e2, c, d);
    ScaleIs(t, d);
    ScaleIs(u, e1);
    ScaleIs(v, e2);
    DividedEntry(e1.x, e2.x, d.x, s.x, nd, f, na, nb, c, t, u, v);
    DividedEntry(e1.y, e2.y, d.y, s.y, nd, f, na, nb, c, t, u, v);
    DividedEntry(e1.z, e2.z, d.z, s.z, nd, f, na, nb, c, t, u, v);
  }

  lemma CombineEntries(p: real, a: V3, q: real, b: V3, r: real, c: V3)
    ensures Combine(p, a, q, b, r, c)
      == V3(p * a.x + q * b.x + r * c.x, p * a.y + q * b.y + r * c.y, p * a.z + q * b.z + r * c.z)
  {
  }

  lemma ScaleIs(k: real, a: V3)
    ensures Scale(k, a) == V3(k * a.x, k * a.y, k * a.z)
  {
  }

  lemma DividedEntry(e1: real, e2: real, d: real, s: real, nd: real, f: real, na: real, nb: real, c: real, t: real,
                     u: real, v: real)
    requires f * nd == -1.0 && u == -(f * na) && v == -(f * nb) && t == f * c
    requires nd * s == na * e1 + nb * e2 + c * d
    ensures s + t * d == u * e1 + v * e2
  {
    assert f * (nd * s) == -s;
    assert f * (na * e1 + nb * e2 + c * d) == -(u * e1) - v * e2 + t * d;
  }

  // Where the lines meet, in the triangle's own coordinates.
  lemma MeetingPoint(p: V3, q: V3, tri: Triangle, t: real, u: real, v: real)
    ensures OnSegment(p, q, t) == OnTriangle(tri, u, v) <==>
      Add(Sub(p, tri.v0), Scale(t, Sub(q, p))) == Add(Scale(u, Sub(tri.v1, tri.v0)), Scale(v, Sub(tri.v2, tri.v0)))
  {
    hide Scale;
  }

  lemma Undivided(det: real, f: real, x: real, p: real)
    requires det != 0.0 && f == 1.0 / det && p == x * det
    ensures f * p == x
  {
  }

  // The test answers exactly whether the closed segment meets the closed
  // triangle, wherever the determinant is not rejected; elsewhere it answers no.
  lemma SegmentExact(p: V3, q: V3, tri: Triangle)
    ensures SegmentHitsTriangle(p, q, tri) <==>
      Abs(EdgeDet(p, q, tri)) >= 0.00000000000001 && SegmentMeetsTriangle(p, q, tri)
  {
    if Abs(EdgeDet(p, q, tri)) >= THRESHOLD {
      if SegmentHitsTriangle(p, q, tri) {
        HitMeets(p, q, tri);
      }
      if SegmentMeetsTriangle(p, q, tri) {
        var t, u, v :| Meets(p, q, tri, t, u, v);
        MeetHits(p, q, tri, t, u, v);
      }
    }
  }

  // The numbers the test compares, named.
  ghost predicate Numbers(p: V3, q: V3, tri: Triangle, det: real, f: real, a: real, b: real, c: real) {
    var e1, e2, d, s := Sub(tri.v1, tri.v0), Sub(tri.v2, tri.v0), Sub(q, p), Sub(p, tri.v0);
    && det == Dot(e1, Cross(d, e2)) && det == EdgeDet(p, q, tri) && det != 0.0 && f == 1.0 / det
    && a == Dot(s, Cross(d, e2)) && b == Dot(d, Cross(s, e1)) && c == Dot(e2, Cross(s, e1))
  }

  lemma TestIs(p: V3, q: V3, tri: Triangle) returns (det: real, f: real, a: real, b: real, c: real)
    requires Abs(EdgeDet(p, q, tri)) >= THRESHOLD
    ensures Numbers(p, q, tri, det, f, a, b, c)
    ensures SegmentHitsTriangle(p, q, tri)
      <==> f * a >= 0.0 && f * b >= 0.0 && f * a + f * b <= 1.0 && 0.0 <= f * c <= 1.0
  {
    hide Dot, Cross, Sub;
    var e1, e2, d, s := Sub(tri.v1, tri.v0), Sub(tri.v2, tri.v0), Sub(q, p), Sub(p, tri.v0);
    det := Dot(e1, Cross(d, e2));
    f := 1.0 / det;
    a, b, c := Dot(s, Cross(d, e2)), Dot(d, Cross(s, e1)), Dot(e2, Cross(s, e1));
    assert Times(f, a) == f * a && Times(f, b) == f * b && Times(f, c) == f * c;
    hide Times;
  }

  lemma HitMeets(p: V3, q: V3, tri: Triangle)
    requires SegmentHitsTriangle(p, q, tri)
    ensures SegmentMeetsTriangle(p, q, tri)
  {
    assert Abs(EdgeDet(p, q, tri)) >= THRESHOLD by {
      hide Dot, Cross, Sub;
    }
    hide Dot, Cross, Sub, OnSegment, OnTriangle, SegmentHitsTriangle, EdgeDet, Scale, Add, Combine;
    var det, f, a, b, c := TestIs(p, q, tri);
    Reciprocal(det, f);
    CramerEdge(Sub(tri.v1, tri.v0), Sub(tri.v2, tri.v0), Sub(q, p), Sub(p, tri.v0), det);
    Solved(p, q, tri, det, f, a, b, c);
    assert Meets(p, q, tri, f * c, f * a, f * b);
  }

  lemma Reciprocal(det: real, f: real)
    requires det != 0.0 && f == 1.0 / det
    ensures f * -det == -1.0
  {
    assert f * det == 1.0;
  }

  lemma Solved(p: V3, q: V3, tri: Triangle, det: real, f: real, a: real, b: real, c: real)
    requires f * -det == -1.0
    requires Scale(-det, Sub(p, tri.v0)) == Combine(-a, Sub(tri.v1, tri.v0), -b, Sub(tri.v2, tri.v0), c, Sub(q, p))
    ensures OnSegment(p, q, f * c) == OnTriangle(tri, f * a, f * b)
  {
    hide Scale, Combine, OnSegment, OnTriangle, Sub, Add;
    CramerDivided(Sub(tri.v1, tri.v0), Sub(tri.v2, tri.v0), Sub(q, p), Sub(p, tri.v0), -det, f, -a, -b, c, f * c, f * a,
      f * b);
    MeetingPoint(p, q, tri, f * c, f * a, f * b);
  }

  lemma MeetHits(p: V3, q: V3, tri: Triangle, t: real, u: real, v: real)
    requires Abs(EdgeDet(p, q, tri)) >= THRESHOLD && Meets(p, q, tri, t, u, v)
    ensures SegmentHitsTriangle(p, q, tri)
  {
    hide Dot, Cross, Sub, OnSegment, OnTriangle, SegmentHitsTriangle, EdgeDet, Scale, Add;
    var det, f, a, b, c := TestIs(p, q, tri);
    MeetingPoint(p, q, tri, t, u, v);
    EdgeSolution(Sub(tri.v1, tri.v0), Sub(tri.v2, tri.v0), Sub(q, p), Sub(p, tri.v0), t, u, v);
    Undivided(det, f, u, a);
    Undivided(det, f, v, b);
    Undivided(det, f, t, c);
  }

  // ---- Two triangles ------------------------------------------------------------------

  // w.x * v0 + w.y * v1 + w.z * v2
  function Weighted(tri: Triangle, w: V3): V3 {
    Combine(w.x, tri.v0, w.y, tri.v1, w.z, tri.v2)
  }

  predicate Weights(w: V3) {
    w.x >= 0.0 && w.y >= 0.0 && w.z >= 0.0 && w.x + w.y + w.z == 1.0
  }

  // The closed triangles share a point.
  ghost predicate SharePoint(a: Triangle, b: Triangle) {
    exists w, v :: Weights(w) && Weights(v) && Weighted(a, w) == Weighted(b, v)
  }

  predicate EdgeHits(a: Triangle, b: Triangle, i: nat) {
    SegmentHitsTriangle(Corner(a, i), Corner(a, (i + 1) % 3), b)
  }

  ghost predicate SomeEdgeHits(a: Triangle, b: Triangle) {
    exists i: nat :: i < 3 && (EdgeHits(a, b, i) || EdgeHits(b, a, i))
  }

  // The determinant of edge i of a against b.
  function SideDet(a: Triangle, b: Triangle, i: nat): real {
    EdgeDet(Corner(a, i), Corner(a, (i + 1) % 3), b)
  }

  predicate EdgeAccepted(a: Triangle, b: Triangle, i: nat) {
    Abs(SideDet(a, b, i)) >= THRESHOLD
  }

  // No edge is rejected by the threshold unless it is exactly parallel.
  ghost predicate NoEdgeBlurred(a: Triangle, b: Triangle) {
    forall i: nat :: i < 3 ==>
      && (SideDet(a, b, i) == 0.0 || EdgeAccepted(a, b, i))
      && (SideDet(b, a, i) == 0.0 || EdgeAccepted(b, a, i))
  }

  ghost predicate SomeEdgeAccepted(a: Triangle, b: Triangle) {
    exists i: nat :: i < 3 && (EdgeAccepted(a, b, i) || EdgeAccepted(b, a, i))
  }

  // _intersect
  method Intersect(a: Triangle, b: Triangle) returns (hit: bool)
    ensures hit <==> SomeEdgeHits(a, b)
    ensures hit ==> SharePoint(a, b) && SomeEdgeAccepted(a, b)
    ensures NoEdgeBlurred(a, b) ==> (hit <==> SharePoint(a, b) && SomeEdgeAccepted(a, b))
  {
    hide SegmentHitsTriangle, Corner, SharePoint, NoEdgeBlurred, SomeEdgeAccepted;
    for i := 0 to 3
      invariant forall j: nat :: j < i ==> !EdgeHits(a, b, j) && !EdgeHits(b, a, j)
    {
      if SegmentHitsTriangle(Corner(a, i), Corner(a, (i + 1) % 3), b) {
        assert EdgeHits(a, b, i);
        SomeEdgeSound(a, b);
        SomeEdgeSharp(a, b);
        return true;
      }
      if SegmentHitsTriangle(Corner(b, i), Corner(b, (i + 1) % 3), a) {
        assert EdgeHits(b, a, i);
        SomeEdgeSound(a, b);
        SomeEdgeSharp(a, b);
        return true;
      }
    }
    if NoEdgeBlurred(a, b) && SharePoint(a, b) && SomeEdgeAccepted(a, b) {
      SharedPointFound(a, b);
    }
    return false;
  }

  // ---- Soundness: a hit is a shared point ----------------------------------------------

  // Weights of the point at t on edge i.
  function EdgeWeights(i: nat, t: real): V3
    requires i < 3
  {
    if i == 0 then V3(1.0 - t, t, 0.0) else if i == 1 then V3(0.0, 1.0 - t, t) else V3(t, 0.0, 1.0 - t)
  }

  lemma OnEdge(tri: Triangle, i: nat, t: real)
    requires i < 3
    ensures OnSegment(Corner(tri, i), Corner(tri, (i + 1) % 3), t) == Weighted(tri, EdgeWeights(i, t))
  {
    hide Combine, OnSegment;
    if i == 0 {
      EdgePoint(tri.v0, tri.v1, tri.v2, t, 0.0);
    } else if i == 1 {
      EdgePoint(tri.v1, tri.v2, tri.v0, t, 0.0);
      CombineTurned(1.0 - t, tri.v1, t, tri.v2, 0.0, tri.v0);
    } else {
      EdgePoint(tri.v2, tri.v0, tri.v1, t, 0.0);
      CombineTurned(1.0 - t, tri.v2, t, tri.v0, 0.0, tri.v1);
    }
  }

  lemma CombineTurned(p: real, a: V3, q: real, b: V3, r: real, c: V3)
    ensures Combine(p, a, q, b, r, c) == Combine(r, c, p, a, q, b) == Combine(q, b, r, c, p, a)
  {
    hide Scale;
  }

  lemma EdgePoint(p: V3, q: V3, r: V3, t: real, z: real)
    requires z == 0.0
    ensures OnSegment(p, q, t) == Combine(1.0 - t, p, t, q, z, r)
  {
    ScaleIs(t, Sub(q, p));
    CombineEntries(1.0 - t, p, t, q, z, r);
    hide Scale, Combine;
    EdgeEntry(p.x, q.x, r.x, t, z);
    EdgeEntry(p.y, q.y, r.y, t, z);
    EdgeEntry(p.z, q.z, r.z, t, z);
  }

  lemma EdgeEntry(p: real, q: real, r: real, t: real, z: real)
    requires z == 0.0
    ensures p + t * (q - p) == (1.0 - t) * p + t * q + z * r
  {
  }

  lemma OnFace(tri: Triangle, u: real, v: real)
    ensures OnTriangle(tri, u, v) == Weighted(tri, V3(1.0 - u - v, u, v))
  {
    CombineEntries(1.0 - u - v, tri.v0, u, tri.v1, v, tri.v2);
    ScaleIs(u, Sub(tri.v1, tri.v0));
    ScaleIs(v, Sub(tri.v2, tri.v0));
    hide Combine, Scale;
    FaceEntry(tri.v0.x, tri.v1.x, tri.v2.x, u, v);
    FaceEntry(tri.v0.y, tri.v1.y, tri.v2.y, u, v);
    FaceEntry(tri.v0.z, tri.v1.z, tri.v2.z, u, v);
  }

  lemma FaceEntry(a: real, b: real, c: real, u: real, v: real)
    ensures a + (u * (b - a) + v * (c - a)) == (1.0 - u - v) * a + u * b + v * c
  {
  }

  lemma EdgeSound(a: Triangle, b: Triangle, i: nat)
    requires i < 3 && EdgeHits(a, b, i)
    ensures SharePoint(a, b) && SharePoint(b, a)
  {
    hide SegmentHitsTriangle, OnSegment, OnTriangle, Weighted, Corner;
    var p, q := Corner(a, i), Corner(a, (i + 1) % 3);
    SegmentExact(p, q, b);
    var t, u, v :| Meets(p, q, b, t, u, v);
    OnEdge(a, i, t);
    OnFace(b, u, v);
    var w, w' := EdgeWeights(i, t), V3(1.0 - u - v, u, v);
    assert Weights(w) && Weights(w') && Weighted(a, w) == Weighted(b, w');
  }

  lemma SomeEdgeSound(a: Triangle, b: Triangle)
    requires SomeEdgeHits(a, b)
    ensures SharePoint(a, b)
  {
    hide EdgeHits, SharePoint;
    var i: nat :| i < 3 && (EdgeHits(a, b, i) || EdgeHits(b, a, i));
    if EdgeHits(a, b, i) {
      EdgeSound(a, b, i);
    } else {
      EdgeSound(b, a, i);
    }
  }

  lemma SomeEdgeSharp(a: Triangle, b: Triangle)
    requires SomeEdgeHits(a, b)
    ensures SomeEdgeAccepted(a, b)
  {
    hide SegmentHitsTriangle, EdgeDet, Corner, SegmentMeetsTriangle, Abs;
    var i: nat :| i < 3 && (EdgeHits(a, b, i) || EdgeHits(b, a, i));
    SegmentExact(Corner(a, i), Corner(a, (i + 1) % 3), b);
    SegmentExact(Corner(b, i), Corner(b, (i + 1) % 3), a);
    assert EdgeAccepted(a, b, i) || EdgeAccepted(b, a, i);
  }

  // ---- Completeness: the shared segment ends on an edge ----------------------------------

  // Moving along slopes from nonnegative coordinates, some coordinate that falls reaches
  // zero first.
  lemma FirstZero(w: seq<real>, k: seq<real>) returns (m: real, j: nat)
    requires |w| == |k| && (forall i :: 0 <= i < |w| ==> w[i] >= 0.0) && (exists i :: 0 <= i < |k| && k[i] < 0.0)
    ensures m >= 0.0 && j < |w| && k[j] < 0.0 && w[j] + m * k[j] == 0.0
    ensures forall i :: 0 <= i < |w| ==> w[i] + m * k[i] >= 0.0
  {
    var found := false;
    m, j := 0.0, 0;
    for i := 0 to |w|
      invariant found ==> m >= 0.0 && j < i && k[j] < 0.0 && w[j] + m * k[j] == 0.0
      invariant found ==> forall l :: 0 <= l < i ==> w[l] + m * k[l] >= 0.0
      invariant !found ==> forall l :: 0 <= l < i ==> k[l] >= 0.0
    {
      if k[i] < 0.0 {
        var stop := Ratio(w[i], k[i]);
        if !found || stop < m {
          forall l | 0 <= l < i
            ensures w[l] + stop * k[l] >= 0.0
          {
            if found {
              StepLess(w[l], k[l], m, stop);
            } else {
              StepUp(w[l], k[l], stop);
            }
          }
          found, m, j := true, stop, i;
        } else {
          StepLess(w[i], k[i], stop, m);
        }
      } else if found {
        StepUp(w[i], k[i], m);
      }
    }
  }

  lemma Ratio(w: real, k: real) returns (stop: real)
    requires w >= 0.0 && k < 0.0
    ensures stop >= 0.0 && w + stop * k == 0.0
  {
    stop := w / -k;
    assert stop * -k == w;
  }

  lemma StepUp(w: real, k: real, m: real)
    requires w >= 0.0 && k >= 0.0 && m >= 0.0
    ensures w + m * k >= 0.0
  {
  }

  lemma StepLess(w: real, k: real, m: real, m': real)
    requires w >= 0.0 && 0.0 <= m' <= m && w + m * k >= 0.0
    ensures w + m' * k >= 0.0
  {
    if k >= 0.0 {
      StepUp(w, k, m');
    } else {
      assert (m - m') * -k >= 0.0;
    }
  }

  function Normal(tri: Triangle): V3 {
    Cross(Sub(tri.v1, tri.v0), Sub(tri.v2, tri.v0))
  }

  // How the weights of a point of tri change along the line both planes share;
  // other is the normal of the other plane.
  function Slopes(tri: Triangle, other: V3): V3 {
    var p, q := -Dot(Sub(tri.v2, tri.v0), other), Dot(Sub(tri.v1, tri.v0), other);
    V3(-p - q, p, q)
  }

  // Slopes move a point of the plane along Normal(tri) x other.
  lemma SlopesDirection(tri: Triangle, other: V3)
    ensures Weighted(tri, Slopes(tri, other)) == Cross(Normal(tri), other)
  {
    var e1, e2, k := Sub(tri.v1, tri.v0), Sub(tri.v2, tri.v0), Slopes(tri, other);
    TripleProduct(e1, e2, other);
    CombineEntries(k.x, tri.v0, k.y, tri.v1, k.z, tri.v2);
    ScaleIs(Dot(e1, other), e2);
    ScaleIs(Dot(e2, other), e1);
    hide Combine, Scale, Dot, Cross;
    SlopeEntry(tri.v0.x, tri.v1.x, tri.v2.x, k.x, k.y, k.z);
    SlopeEntry(tri.v0.y, tri.v1.y, tri.v2.y, k.x, k.y, k.z);
    SlopeEntry(tri.v0.z, tri.v1.z, tri.v2.z, k.x, k.y, k.z);
    SlopeSigns(Dot(e2, other), k.y, e1);
  }

  lemma SlopeEntry(a: real, b: real, c: real, x: real, y: real, z: real)
    requires x == -y - z
    ensures x * a + y * b + z * c == z * (c - a) + y * (b - a)
  {
  }

  lemma SlopeSigns(d: real, p: real, e: V3)
    requires p == -d
    ensures p * e.x == -(d * e.x) && p * e.y == -(d * e.y) && p * e.z == -(d * e.z)
  {
  }

  lemma CrossScaleNegative(a: V3, b: V3)
    ensures Neg(Cross(a, b)) == Cross(b, a)
  {
    CrossAntisymmetric(b, a);
    hide Cross;
  }

  // Both triangles see the same line, once the second one's slopes are turned.
  lemma SameDirection(a: Triangle, b: Triangle)
    ensures Weighted(a, Slopes(a, Normal(b))) == Neg(Weighted(b, Slopes(b, Normal(a))))
  {
    hide *;
    SlopesDirection(a, Normal(b));
    SlopesDirection(b, Normal(a));
    CrossScaleNegative(Normal(b), Normal(a));
  }

  // w + m k, as weights and as points.
  function Moved(w: V3, m: real, k: V3): V3 {
    Add(w, Scale(m, k))
  }

  function Mix(x: real, a: real, y: real, b: real, z: real, c: real): real {
    x * a + y * b + z * c
  }

  lemma WeightedIs(tri: Triangle, w: V3)
    ensures Weighted(tri, w) == V3(Mix(w.x, tri.v0.x, w.y, tri.v1.x, w.z, tri.v2.x),
      Mix(w.x, tri.v0.y, w.y, tri.v1.y, w.z, tri.v2.y), Mix(w.x, tri.v0.z, w.y, tri.v1.z, w.z, tri.v2.z))
  {
    CombineEntries(w.x, tri.v0, w.y, tri.v1, w.z, tri.v2);
    hide Combine;
  }

  lemma ScaledTimes(s: real, a: V3)
    ensures Scale(s, a) == V3(Times(s, a.x), Times(s, a.y), Times(s, a.z))
  {
    ScaleIs(s, a);
    hide Scale;
  }

  lemma WeightedMoved(tri: Triangle, w: V3, m: real, k: V3)
    ensures Weighted(tri, Moved(w, m, k)) == Add(Weighted(tri, w), Scale(m, Weighted(tri, k)))
  {
    hide Weighted, Scale, Mix, Times;
    var n := Moved(w, m, k);
    WeightedIs(tri, w);
    WeightedIs(tri, k);
    WeightedIs(tri, n);
    ScaledTimes(m, k);
    ScaledTimes(m, Weighted(tri, k));
    MovedEntry(tri.v0.x, tri.v1.x, tri.v2.x, w, k, m, n);
    MovedEntry(tri.v0.y, tri.v1.y, tri.v2.y, w, k, m, n);
    MovedEntry(tri.v0.z, tri.v1.z, tri.v2.z, w, k, m, n);
  }

  lemma MovedEntry(a: real, b: real, c: real, w: V3, k: V3, m: real, n: V3)
    requires n == V3(w.x + Times(m, k.x), w.y + Times(m, k.y), w.z + Times(m, k.z))
    ensures Mix(n.x, a, n.y, b, n.z, c) == Mix(w.x, a, w.y, b, w.z, c) + Times(m, Mix(k.x, a, k.y, b, k.z, c))
  {
    MovedKernel(a, b, c, w.x, w.y, w.z, k.x, k.y, k.z, m, n.x, n.y, n.z);
  }

  lemma MovedKernel(a: real, b: real, c: real, w0: real, w1: real, w2: real, k0: real, k1: real, k2: real, m: real,
                    n0: real, n1: real, n2: real)
    requires n0 == w0 + m * k0 && n1 == w1 + m * k1 && n2 == w2 + m * k2
    ensures n0 * a + n1 * b + n2 * c == w0 * a + w1 * b + w2 * c + m * (k0 * a + k1 * b + k2 * c)
  {
  }

  // Moving both ways along the common line keeps a shared point shared.
  lemma MovedShared(a: Triangle, b: Triangle, w: V3, v: V3, m: real, k: V3, l: V3)
    requires Weighted(a, w) == Weighted(b, v)
    requires k == Slopes(a, Normal(b)) && l == Neg(Slopes(b, Normal(a)))
    ensures Weighted(a, Moved(w, m, k)) == Weighted(b, Moved(v, m, l))
  {
    hide *;
    WeightedMoved(a, w, m, k);
    WeightedMoved(b, v, m, l);
    SameDirection(a, b);
    WeightedNeg(b, Slopes(b, Normal(a)));
  }

  lemma WeightedNeg(tri: Triangle, k: V3)
    ensures Weighted(tri, Neg(k)) == Neg(Weighted(tri, k))
  {
    CombineEntries(k.x, tri.v0, k.y, tri.v1, k.z, tri.v2);
    CombineEntries(-k.x, tri.v0, -k.y, tri.v1, -k.z, tri.v2);
    hide Combine;
  }

  // Each slope is the determinant, negated, of the edge its weight is opposite of.
  lemma SlopesAreDets(a: Triangle, b: Triangle)
    ensures Slopes(a, Normal(b)) == V3(-SideDet(a, b, 1), -SideDet(a, b, 2), -SideDet(a, b, 0))
  {
    hide Dot, Cross, Sub;
    var e1, e2, n := Sub(a.v1, a.v0), Sub(a.v2, a.v0), Normal(b);
    DetIsHeight(a.v0, a.v1, b);
    DetIsHeight(a.v1, a.v2, b);
    DetIsHeight(a.v2, a.v0, b);
    HeightsClose(a, n);
  }

  lemma DetIsHeight(p: V3, q: V3, b: Triangle)
    ensures EdgeDet(p, q, b) == -Dot(Sub(q, p), Normal(b))
  {
    hide Dot, Cross, Sub;
    var d, f1, f2 := Sub(q, p), Sub(b.v1, b.v0), Sub(b.v2, b.v0);
    MixedProductCyclic(f1, d, f2);
    CrossAntisymmetric(f2, f1);
    DotNeg(d, Cross(f1, f2));
  }

  lemma HeightsClose(a: Triangle, n: V3)
    ensures Dot(Sub(a.v2, a.v1), n) == Dot(Sub(a.v2, a.v0), n) - Dot(Sub(a.v1, a.v0), n)
    ensures Dot(Sub(a.v0, a.v2), n) == -Dot(Sub(a.v2, a.v0), n)
  {
    hide Dot, Sub;
    HeightOf(a.v2, a.v1, n);
    HeightOf(a.v2, a.v0, n);
    HeightOf(a.v1, a.v0, n);
    HeightOf(a.v0, a.v2, n);
  }

  lemma HeightOf(p: V3, q: V3, n: V3)
    ensures Dot(Sub(p, q), n) == Dot(n, p) - Dot(n, q)
  {
    DotSub(n, p, q);
    DotSymmetric(Sub(p, q), n);
    hide Dot, Sub;
  }

  ghost predicate SomeSlant(a: Triangle, b: Triangle) {
    exists i: nat :: i < 3 && (SideDet(a, b, i) != 0.0 || SideDet(b, a, i) != 0.0)
  }

  lemma SlantSides(a: Triangle, b: Triangle)
    requires SomeSlant(a, b)
    ensures !AllZero(SideDet(a, b, 0), SideDet(a, b, 1), SideDet(a, b, 2)) ||
      !AllZero(SideDet(b, a, 0), SideDet(b, a, 1), SideDet(b, a, 2))
  {
    hide SideDet;
    var i: nat :| i < 3 && (SideDet(a, b, i) != 0.0 || SideDet(b, a, i) != 0.0);
    assert i == 0 || i == 1 || i == 2;
  }

  predicate AllZero(x: real, y: real, z: real) {
    x == 0.0 && y == 0.0 && z == 0.0
  }

  lemma SomeNegative(k: V3)
    requires k.x + k.y + k.z == 0.0 && NonNegative(k)
    ensures AllZero(k.x, k.y, k.z)
  {
  }

  lemma SomePositive(k: V3)
    requires k.x + k.y + k.z == 0.0 && NonNegative(Neg(k))
    ensures AllZero(k.x, k.y, k.z)
  {
  }

  // The slopes sum to zero, so where one is not zero one is negative.
  lemma SlopesNegative(a: Triangle, b: Triangle)
    requires SomeSlant(a, b)
    ensures !(NonNegative(Slopes(a, Normal(b))) && NonNegative(Neg(Slopes(b, Normal(a)))))
  {
    hide SideDet, Normal, Slopes, NonNegative, Neg, SomeSlant;
    var k, l := Slopes(a, Normal(b)), Slopes(b, Normal(a));
    SlopesAreDets(a, b);
    SlopesAreDets(b, a);
    SlopesSum(a, Normal(b));
    SlopesSum(b, Normal(a));
    SlantSides(a, b);
    if NonNegative(k) && NonNegative(Neg(l)) {
      SomeNegative(k);
      SomePositive(l);
    }
  }

  predicate NonNegative(w: V3) {
    w.x >= 0.0 && w.y >= 0.0 && w.z >= 0.0
  }

  function Slide(w: real, m: real, k: real): real {
    w + m * k
  }

  lemma FirstZeroEnds(w: seq<real>, k: seq<real>) returns (m: real, j: nat, ends: seq<real>)
    requires |w| == |k| && (forall i :: 0 <= i < |w| ==> w[i] >= 0.0) && (exists i :: 0 <= i < |k| && k[i] < 0.0)
    ensures |ends| == |w| && j < |w| && k[j] < 0.0 && ends[j] == 0.0
    ensures forall i :: 0 <= i < |w| ==> ends[i] == Slide(w[i], m, k[i]) && ends[i] >= 0.0
  {
    m, j := FirstZero(w, k);
    ends := seq(|w|, i requires 0 <= i < |w| => Slide(w[i], m, k[i]));
  }

  // The six coordinates of two vectors in turn.
  function Part(w: V3, v: V3, j: nat): real
    requires j < 6
  {
    if j < 3 then Entry(w, j) else Entry(v, j - 3)
  }

  function Entry(w: V3, j: nat): real
    requires j < 3
  {
    if j == 0 then w.x else if j == 1 then w.y else w.z
  }

  // The first coordinate to reach zero, for the six weights together.
  lemma FirstZeroMoved(w: V3, v: V3, k: V3, l: V3) returns (m: real, j: nat, w': V3, v': V3)
    requires NonNegative(w) && NonNegative(v) && !(NonNegative(k) && NonNegative(l))
    ensures w' == SlideAll(w, m, k) && v' == SlideAll(v, m, l)
    ensures NonNegative(w') && NonNegative(v') && j < 6 && Part(w', v', j) == 0.0 && Part(k, l, j) < 0.0
  {
    hide Slide;
    var start, slope := [w.x, w.y, w.z, v.x, v.y, v.z], [k.x, k.y, k.z, l.x, l.y, l.z];
    assert slope[0] < 0.0 || slope[1] < 0.0 || slope[2] < 0.0 || slope[3] < 0.0 || slope[4] < 0.0 || slope[5] < 0.0;
    var ends;
    m, j, ends := FirstZeroEnds(start, slope);
    assert ends == [ends[0], ends[1], ends[2], ends[3], ends[4], ends[5]];
    w', v' := V3(ends[0], ends[1], ends[2]), V3(ends[3], ends[4], ends[5]);
  }

  function SlideAll(w: V3, m: real, k: V3): V3 {
    V3(Slide(w.x, m, k.x), Slide(w.y, m, k.y), Slide(w.z, m, k.z))
  }

  // A point both triangles share, on an edge of one of them that is not parallel to the other.
  lemma BoundaryPoint(a: Triangle, b: Triangle, w: V3, v: V3) returns (w': V3, v': V3, j: nat)
    requires Weights(w) && Weights(v) && Weighted(a, w) == Weighted(b, v)
    requires SomeSlant(a, b)
    ensures Weights(w') && Weights(v') && Weighted(a, w') == Weighted(b, v')
    ensures j < 6 && Part(w', v', j) == 0.0
    ensures if j < 3 then SideDet(a, b, (j + 1) % 3) != 0.0 else SideDet(b, a, (j + 1) % 3) != 0.0
  {
    hide Weighted, Normal, Slopes, SideDet, SomeSlant, Moved, SlideAll;
    var k, l := Slopes(a, Normal(b)), Neg(Slopes(b, Normal(a)));
    SlopesNegative(a, b);
    SlopesSum(a, Normal(b));
    SlopesSum(b, Normal(a));
    SlopesAreDets(a, b);
    SlopesAreDets(b, a);
    var m;
    m, j, w', v' := FirstZeroMoved(w, v, k, l);
    MovedShared(a, b, w, v, m, k, l);
    MovedWeights(w, m, k);
    MovedWeights(v, m, l);
  }

  lemma SlopesSum(tri: Triangle, other: V3)
    ensures var k := Slopes(tri, other); k.x + k.y + k.z == 0.0
  {
    hide Dot, Sub;
  }

  lemma MovedWeights(w: V3, m: real, k: V3)
    requires k.x + k.y + k.z == 0.0
    ensures Moved(w, m, k) == SlideAll(w, m, k)
    ensures Moved(w, m, k).x + Moved(w, m, k).y + Moved(w, m, k).z == w.x + w.y + w.z
  {
    ZeroSum(m, k.x, k.y, k.z);
  }

  lemma ZeroSum(m: real, x: real, y: real, z: real)
    requires x + y + z == 0.0
    ensures m * x + m * y + m * z == 0.0
  {
    assert m * x + m * y + m * z == m * (x + y + z);
  }

  // Weights with a zero are those of a point on an edge.
  lemma EdgeOf(w: V3, j: nat) returns (i: nat, t: real)
    requires Weights(w) && j < 3 && Entry(w, j) == 0.0
    ensures i == (j + 1) % 3 && i < 3 && 0.0 <= t <= 1.0 && EdgeWeights(i, t) == w
  {
    i := (j + 1) % 3;
    t := if j == 0 then w.z else if j == 1 then w.x else w.y;
  }

  // A shared point on an edge of a makes that edge hit b.
  lemma EdgeComplete(a: Triangle, b: Triangle, w: V3, v: V3, j: nat)
    requires Weights(w) && Weights(v) && Weighted(a, w) == Weighted(b, v)
    requires j < 3 && Entry(w, j) == 0.0 && EdgeAccepted(a, b, (j + 1) % 3)
    ensures EdgeHits(a, b, (j + 1) % 3)
  {
    hide Weighted, SegmentHitsTriangle, EdgeDet, Corner, OnSegment, OnTriangle, EdgeWeights, Entry, Abs;
    var i, t := EdgeOf(w, j);
    var p, q := Corner(a, i), Corner(a, (i + 1) % 3);
    OnEdge(a, i, t);
    OnFace(b, v.y, v.z);
    assert V3(1.0 - v.y - v.z, v.y, v.z) == v;
    assert Meets(p, q, b, t, v.y, v.z);
    SegmentExact(p, q, b);
  }

  lemma AcceptedSlants(a: Triangle, b: Triangle)
    requires SomeEdgeAccepted(a, b)
    ensures SomeSlant(a, b)
  {
    hide SideDet;
    var i: nat :| i < 3 && (EdgeAccepted(a, b, i) || EdgeAccepted(b, a, i));
    assert SideDet(a, b, i) != 0.0 || SideDet(b, a, i) != 0.0;
  }

  // Where every rejected edge is exactly parallel and not all are, a shared point is found
  // by some edge.
  lemma SharedPointFound(a: Triangle, b: Triangle)
    requires NoEdgeBlurred(a, b) && SomeEdgeAccepted(a, b) && SharePoint(a, b)
    ensures SomeEdgeHits(a, b)
  {
    hide Weighted, EdgeHits, EdgeAccepted, SideDet, SomeEdgeAccepted, SomeSlant;
    var w, v :| Weights(w) && Weights(v) && Weighted(a, w) == Weighted(b, v);
    AcceptedSlants(a, b);
    var w', v', j := BoundaryPoint(a, b, w, v);
    var i := (j + 1) % 3;
    if j < 3 {
      EdgeComplete(a, b, w', v', j);
    } else {
      EdgeComplete(b, a, v', w', j - 3);
    }
  }

  // ---- Where the threshold costs an answer -----------------------------------------------

  // A triangle lies in its own plane, so every edge is rejected against it: two
  // equal triangles share points and the test answers no.
  lemma CoplanarMissed(a: Triangle)
    ensures SharePoint(a, a) && !SomeEdgeHits(a, a)
  {
    hide SegmentHitsTriangle, Weighted;
    var w := V3(1.0, 0.0, 0.0);
    assert Weights(w) && Weighted(a, w) == Weighted(a, w);
    forall i: nat | i < 3
      ensures !EdgeHits(a, a, i)
    {
      OwnEdgeFlat(a, i);
      SegmentExact(Corner(a, i), Corner(a, (i + 1) % 3), a);
    }
  }

  lemma OwnEdge(a: Triangle, i: nat)
    requires i < 3
    ensures var e1, e2 := Sub(a.v1, a.v0), Sub(a.v2, a.v0);
      Sub(Corner(a, (i + 1) % 3), Corner(a, i)) == if i == 0 then e1 else if i == 1 then Add(e2, Neg(e1)) else Neg(e2)
  {
  }

  lemma OwnEdgeFlat(a: Triangle, i: nat)
    requires i < 3
    ensures EdgeDet(Corner(a, i), Corner(a, (i + 1) % 3), a) == 0.0
  {
    hide Dot, Cross, Sub, Corner, Add, Neg;
    var e1, e2 := Sub(a.v1, a.v0), Sub(a.v2, a.v0);
    OwnEdge(a, i);
    CrossSelf(e1, e2);
    if i == 1 {
      FlatDiagonal(e1, e2, Add(e2, Neg(e1)));
    } else if i == 2 {
      FlatOpposite(e1, e2, Neg(e2));
    }
  }

  lemma FlatDiagonal(e1: V3, e2: V3, d: V3)
    requires d == Add(e2, Neg(e1))
    ensures Dot(e1, Cross(d, e2)) == 0.0
  {
    hide *;
    MixedProductCyclic(e1, d, e2);
    CrossSelf(e2, e1);
    DotAdd(e2, Neg(e1), Cross(e2, e1));
    DotNeg(Cross(e2, e1), e1);
    DotSymmetric(Cross(e2, e1), e1);
    DotSymmetric(Cross(e2, e1), Neg(e1));
  }

  lemma FlatOpposite(e1: V3, e2: V3, d: V3)
    requires d == Neg(e2)
    ensures Dot(e1, Cross(d, e2)) == 0.0
  {
    hide *;
    MixedProductCyclic(e1, d, e2);
    CrossSelf(e2, e1);
    DotNeg(Cross(e2, e1), e2);
    DotSymmetric(Cross(e2, e1), e2);
    DotSymmetric(Cross(e2, e1), Neg(e2));
  }

  // The threshold does not grow with the triangles: scaling a pair by s scales every
  // determinant by its cube.
  function Scaled(tri: Triangle, s: real): Triangle {
    Triangle(Scale(s, tri.v0), Scale(s, tri.v1), Scale(s, tri.v2))
  }

  lemma ScaledDet(p: V3, q: V3, tri: Triangle, s: real)
    ensures EdgeDet(Scale(s, p), Scale(s, q), Scaled(tri, s)) == s * (s * (s * EdgeDet(p, q, tri)))
  {
    hide Dot, Cross, Sub, Scale;
    ScaledSub(s, tri.v1, tri.v0);
    ScaledSub(s, tri.v2, tri.v0);
    ScaledSub(s, q, p);
    var d, e1, e2 := Sub(q, p), Sub(tri.v1, tri.v0), Sub(tri.v2, tri.v0);
    CrossScale(s, d, Scale(s, e2));
    CrossScale(s, e2, d);
    var w := Cross(d, e2);
    DotScale(s, e1, Scale(s, Scale(s, w)));
    DotScaleRight(s, e1, Scale(s, w));
    DotScaleRight(s, e1, w);
  }

  lemma ScaledSub(s: real, p: V3, q: V3)
    ensures Sub(Scale(s, p), Scale(s, q)) == Scale(s, Sub(p, q))
  {
    ScaleIs(s, p);
    ScaleIs(s, q);
    ScaleIs(s, Sub(p, q));
    hide Scale;
  }

  lemma DotScaleRight(s: real, a: V3, w: V3)
    ensures Dot(a, Scale(s, w)) == s * Dot(a, w)
  {
    DotSymmetric(a, Scale(s, w));
    DotScale(s, w, a);
    DotSymmetric(w, a);
    hide Dot, Scale;
  }

  lemma ScaledShares(a: Triangle, b: Triangle, s: real)
    requires SharePoint(a, b)
    ensures SharePoint(Scaled(a, s), Scaled(b, s))
  {
    hide Weighted, Weights, Scaled;
    var w, v :| Weights(w) && Weights(v) && Weighted(a, w) == Weighted(b, v);
    ScaledWeighted(a, w, s);
    ScaledWeighted(b, v, s);
    assert Weights(w) && Weights(v) && Weighted(Scaled(a, s), w) == Weighted(Scaled(b, s), v);
  }

  lemma ScaledWeighted(tri: Triangle, w: V3, s: real)
    ensures Weighted(Scaled(tri, s), w) == Scale(s, Weighted(tri, w))
  {
    hide Weighted, Scale, Mix, Times;
    var n := Weighted(tri, w);
    WeightedIs(tri, w);
    WeightedIs(Scaled(tri, s), w);
    ScaledTimes(s, tri.v0);
    ScaledTimes(s, tri.v1);
    ScaledTimes(s, tri.v2);
    ScaledTimes(s, n);
    ScaledEntry(s, w.x, tri.v0.x, w.y, tri.v1.x, w.z, tri.v2.x);
    ScaledEntry(s, w.x, tri.v0.y, w.y, tri.v1.y, w.z, tri.v2.y);
    ScaledEntry(s, w.x, tri.v0.z, w.y, tri.v1.z, w.z, tri.v2.z);
  }

  lemma ScaledEntry(s: real, x: real, a: real, y: real, b: real, z: real, c: real)
    ensures Mix(x, Times(s, a), y, Times(s, b), z, Times(s, c)) == Times(s, Mix(x, a, y, b, z, c))
  {
  }

  // Scaled by s the determinant d is under the threshold.
  predicate Rejects(s: real, d: real) {
    Abs(s * (s * (s * d))) < THRESHOLD
  }

  ghost predicate UnderThreshold(a: Triangle, b: Triangle, s: real) {
    forall i: nat :: i < 3 ==> Rejects(s, SideDet(a, b, i)) && Rejects(s, SideDet(b, a, i))
  }

  // Any two triangles that share a point, made small enough for the threshold, still share
  // one and are answered no.
  lemma SmallMissed(a: Triangle, b: Triangle, s: real)
    requires SharePoint(a, b) && UnderThreshold(a, b, s)
    ensures SharePoint(Scaled(a, s), Scaled(b, s)) && !SomeEdgeHits(Scaled(a, s), Scaled(b, s))
  {
    hide SegmentHitsTriangle, EdgeDet, Abs, Scale, SharePoint, SegmentMeetsTriangle;
    ScaledShares(a, b, s);
    var a', b' := Scaled(a, s), Scaled(b, s);
    forall i: nat | i < 3
      ensures !EdgeHits(a', b', i) && !EdgeHits(b', a', i)
    {
      assert Rejects(s, SideDet(a, b, i)) && Rejects(s, SideDet(b, a, i));
      ScaledSide(a, b, s, i);
      ScaledSide(b, a, s, i);
      SegmentExact(Corner(a', i), Corner(a', (i + 1) % 3), b');
      SegmentExact(Corner(b', i), Corner(b', (i + 1) % 3), a');
    }
  }

  lemma ScaledSide(a: Triangle, b: Triangle, s: real, i: nat)
    requires i < 3
    ensures SideDet(Scaled(a, s), Scaled(b, s), i) == s * (s * (s * SideDet(a, b, i)))
  {
    hide EdgeDet, Scale;
    ScaledDet(Corner(a, i), Corner(a, (i + 1) % 3), b, s);
  }

  // Every pair of triangles has a scale from which on it is under the threshold.
  lemma ScaleUnder(a: Triangle, b: Triangle) returns (s0: real)
    ensures s0 > 0.0 && forall s :: 0.0 < s <= s0 ==> UnderThreshold(a, b, s)
  {
    hide SideDet, DetSizes, Rejects;
    var m := 1.0 + DetSizes(a, b) + DetSizes(b, a);
    s0 := HalfThreshold(m);
    forall s | 0.0 < s <= s0 ensures UnderThreshold(a, b, s) {
      forall i: nat | i < 3 ensures Rejects(s, SideDet(a, b, i)) && Rejects(s, SideDet(b, a, i)) {
        DetWithin(a, b, i);
        DetWithin(b, a, i);
        CubeUnder(s, s0, SideDet(a, b, i), m);
        CubeUnder(s, s0, SideDet(b, a, i), m);
      }
    }
  }

  function DetSizes(a: Triangle, b: Triangle): (m: real)
    ensures m >= 0.0
  {
    Abs(SideDet(a, b, 0)) + Abs(SideDet(a, b, 1)) + Abs(SideDet(a, b, 2))
  }

  lemma DetWithin(a: Triangle, b: Triangle, i: nat)
    requires i < 3
    ensures Abs(SideDet(a, b, i)) <= DetSizes(a, b)
  {
    hide SideDet;
    assert i == 0 || i == 1 || i == 2;
  }

  lemma HalfThreshold(m: real) returns (s0: real)
    requires m >= 1.0
    ensures 0.0 < s0 <= 1.0 && s0 * m < THRESHOLD
  {
    s0 := THRESHOLD / (2.0 * m);
    assert s0 * (2.0 * m) == THRESHOLD;
    assert s0 * (2.0 * m) == 2.0 * (s0 * m);
    if s0 > 1.0 {
      MulMonotone(1.0, s0, m);
    }
  }

  lemma CubeUnder(s: real, s0: real, d: real, m: real)
    requires 0.0 < s <= s0 <= 1.0 && Abs(d) <= m && s0 * m < THRESHOLD
    ensures Rejects(s, d)
  {
    AbsProduct(s, d);
    SquareUnder(s, s0, Abs(d), m, Abs(s * d));
    Shrinks(s, s * d, s * (s * d));
    Shrinks(s, s * (s * d), s * (s * (s * d)));
  }

  lemma SquareUnder(s: real, s0: real, d: real, m: real, sd: real)
    requires 0.0 < s <= s0 && 0.0 <= d <= m && sd == s * d && s0 * m < THRESHOLD
    ensures sd < THRESHOLD
  {
    ProductSign(s, m - d);
    ProductSign(s0 - s, m);
    assert s * (m - d) + (s0 - s) * m == s0 * m - sd;
  }

  lemma Shrinks(s: real, x: real, sx: real)
    requires 0.0 < s <= 1.0 && sx == s * x
    ensures Abs(sx) <= Abs(x)
  {
    if x >= 0.0 {
      ProductSign(1.0 - s, x);
      ProductSign(s, x);
    } else {
      ProductSign(1.0 - s, -x);
      ProductSign(s, -x);
    }
  }

  // So every pair that shares a point, at some size and every smaller one, is answered no.
  lemma SmallPairMissed(a: Triangle, b: Triangle) returns (s0: real)
    requires SharePoint(a, b)
    ensures s0 > 0.0 && forall s :: 0.0 < s <= s0 ==>
      SharePoint(Scaled(a, s), Scaled(b, s)) && !SomeEdgeHits(Scaled(a, s), Scaled(b, s))
  {
    hide SharePoint, SomeEdgeHits, Scaled, SideDet;
    s0 := ScaleUnder(a, b);
    forall s | 0.0 < s <= s0
      ensures SharePoint(Scaled(a, s), Scaled(b, s)) && !SomeEdgeHits(Scaled(a, s), Scaled(b, s))
    {
      assert UnderThreshold(a, b, s);
      SmallMissed(a, b, s);
    }
  }
}
