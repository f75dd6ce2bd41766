// Distinct singular values move no faster than the deformation gradient: along F + t X the
// singular values, in some order, stay within a constant times t of those of F
// (eigsys/eigsys_3.py:120-177).
module SingularMotion {
  import opened LinearAlgebra
  import opened Invariants3
  import opened SecondOrder
  import opened Eigensystem3
  import opened Hessian3
  import opened SingularEnergies
  import opened SingularSolve

  predicate NonNegative(s: V3) {
    s.x >= 0.0 && s.y >= 0.0 && s.z >= 0.0
  }

  // The same three values in another order.
  predicate Permuted(a: V3, b: V3) {
    || b == a || b == V3(a.x, a.z, a.y) || b == V3(a.y, a.x, a.z)
    || b == V3(a.y, a.z, a.x) || b == V3(a.z, a.x, a.y) || b == V3(a.z, a.y, a.x)
  }

  // ---- The squared singular values are the roots of a cubic -------------------------------

  // det(z - F.T F) by the invariants of F.
  function Characteristic(i: V3, z: real): real {
    z * (z * z) - i.x * (z * z) + i.y * z - i.z
  }

  function Roots(z: real, a: real, b: real, c: real): real {
    (z - a) * (z - b) * (z - c)
  }

  lemma DiagInvariants(s: V3, a: real, b: real, c: real)
    requires a == s.x * s.x && b == s.y * s.y && c == s.z * s.z
    ensures Invariants(Diag(s)) == V3(a + b + c, a * b + b * c + c * a, a * b * c)
  {
    hide Inner, Cofactors, Det, Invariants, Diag;
    var n := V3(s.y * s.z, s.z * s.x, s.x * s.y);
    InvariantsByMinors(Diag(s));
    CofactorsDiag(s);
    DetDiag(s);
    DiagSquare(s);
    DiagSquare(n);
    SquareProducts(s.x, s.y, s.z, a, b, c);
  }

  lemma DiagSquare(n: V3)
    ensures Inner(Diag(n), Diag(n)) == n.x * n.x + n.y * n.y + n.z * n.z
  {
    InnerDiag(n, Diag(n));
    hide Inner;
  }

  lemma SquareProducts(x: real, y: real, z: real, a: real, b: real, c: real)
    requires a == x * x && b == y * y && c == z * z
    ensures y * z * (y * z) + z * x * (z * x) + x * y * (x * y) == a * b + b * c + c * a
    ensures x * y * z * (x * y * z) == a * b * c
  {
    assert y * z * (y * z) == b * c;
    assert z * x * (z * x) == c * a;
    assert x * y * (x * y) == a * b;
    assert x * y * z * (x * y * z) == x * y * (x * y) * (z * z);
  }

  lemma CharacteristicRoots(a: real, b: real, c: real, z: real)
    ensures Characteristic(V3(a + b + c, a * b + b * c + c * a, a * b * c), z) == Roots(z, a, b, c)
  {
  }

  lemma CharacteristicOf(s: V3, z: real)
    ensures Characteristic(Invariants(Diag(s)), z) == Roots(z, Square(s.x), Square(s.y), Square(s.z))
  {
    hide Invariants, Diag, Characteristic, Roots;
    var a, b, c := Square(s.x), Square(s.y), Square(s.z);
    DiagInvariants(s, a, b, c);
    CharacteristicRoots(a, b, c, z);
  }

  lemma PermutedInvariants(s: V3, v: V3)
    requires Permuted(s, v)
    ensures Invariants(Diag(v)) == Invariants(Diag(s))
  {
    hide Invariants, Diag;
    DiagInvariants(s, s.x * s.x, s.y * s.y, s.z * s.z);
    DiagInvariants(v, v.x * v.x, v.y * v.y, v.z * v.z);
    PermutedSums(s.x * s.x, s.y * s.y, s.z * s.z);
  }

  lemma PermutedSums(a: real, b: real, c: real)
    ensures a * b + b * c + c * a == a * c + c * b + b * a == b * a + a * c + c * b
    ensures a * b * c == a * c * b == b * a * c == b * c * a == c * a * b == c * b * a
  {
  }

  // ---- One root near each --------------------------------------------------------------------

  lemma AtLeast(x: real, y: real, m: real, n: real)
    requires Abs(x) >= m && Abs(y) >= n && m >= 0.0 && n >= 0.0
    ensures Abs(x * y) >= m * n
  {
    AbsProduct(x, y);
    hide Abs;
    MulMonotone(m, Abs(x), n);
    MulMonotone(n, Abs(y), Abs(x));
  }

  // A product below the cube of gap has a factor below gap.
  lemma SmallFactor(x: real, y: real, z: real, gap: real)
    requires gap > 0.0 && Abs(x * y * z) < gap * gap * gap
    ensures Abs(x) < gap || Abs(y) < gap || Abs(z) < gap
  {
    if Abs(x) >= gap && Abs(y) >= gap && Abs(z) >= gap {
      AtLeast(x, y, gap, gap);
      ProductSign(gap, gap);
      AtLeast(x * y, z, gap * gap, gap);
    }
  }

  // The third factor of a small product whose other two are at least gap.
  lemma ThirdFactor(x: real, y: real, z: real, gap: real, eps: real)
    requires gap > 0.0 && Abs(x * y * z) <= eps && Abs(y) >= gap && Abs(z) >= gap
    ensures Abs(x) * (gap * gap) <= eps
  {
    AtLeast(y, z, gap, gap);
    ProductSign(gap, gap);
    AbsProduct(x, y * z);
    assert x * y * z == x * (y * z);
    MulMonotone(gap * gap, Abs(y * z), Abs(x));
  }

  function At(s: V3, i: int): real {
    if i == 0 then s.x else if i == 1 then s.y else s.z
  }

  // The square of s.x, s.y or s.z that z is near.
  lemma NearRoot(z: real, s: V3, gap: real) returns (i: int)
    requires gap > 0.0 && Abs(Roots(z, Square(s.x), Square(s.y), Square(s.z))) < gap * gap * gap
    ensures 0 <= i < 3 && Abs(z - Square(At(s, i))) < gap
  {
    hide Square;
    var a, b, c := z - Square(s.x), z - Square(s.y), z - Square(s.z);
    SmallFactor(a, b, c, gap);
    i := if Abs(a) < gap then 0 else if Abs(b) < gap then 1 else 2;
  }

  lemma NotBoth(a: real, b: real, l: real, gap: real)
    requires Abs(a - b) >= 2.0 * gap && Abs(a - l) < gap
    ensures Abs(b - l) >= gap
  {
  }

  // The squares of three values, pairwise at least 2 gap apart.
  predicate Apart2(s: V3, gap: real) {
    && Abs(Square(s.x) - Square(s.y)) >= 2.0 * gap && Abs(Square(s.x) - Square(s.z)) >= 2.0 * gap
    && Abs(Square(s.y) - Square(s.z)) >= 2.0 * gap
  }

  // The roots at v are small at each squared singular value of s.
  predicate NearlyRoots(s: V3, v: V3, eps: real) {
    && Abs(Characteristic(Invariants(Diag(v)), Square(s.x))) <= eps
    && Abs(Characteristic(Invariants(Diag(v)), Square(s.y))) <= eps
    && Abs(Characteristic(Invariants(Diag(v)), Square(s.z))) <= eps
  }

  lemma Matched(s: V3, v: V3, gap: real, eps: real) returns (w: V3)
    requires gap > 0.0 && Apart2(s, gap) && NearlyRoots(s, v, eps) && eps < gap * gap * gap
    ensures Permuted(v, w) && Abs(Square(s.x) - Square(w.x)) < gap && Abs(Square(s.y) - Square(w.y)) < gap
      && Abs(Square(s.z) - Square(w.z)) < gap
  {
    hide Square, Characteristic, Roots, Abs, Invariants, Diag;
    CharacteristicOf(v, Square(s.x));
    CharacteristicOf(v, Square(s.y));
    CharacteristicOf(v, Square(s.z));
    var i := NearRoot(Square(s.x), v, gap);
    var j := NearRoot(Square(s.y), v, gap);
    var k := NearRoot(Square(s.z), v, gap);
    w := V3(At(v, i), At(v, j), At(v, k));
    NotBoth(Square(s.x), Square(s.y), Square(w.x), gap);
    NotBoth(Square(s.x), Square(s.z), Square(w.x), gap);
    NotBoth(Square(s.y), Square(s.z), Square(w.y), gap);
  }

  // Near its own root and at least gap from the other two, each within eps / gap^2.
  predicate OwnRoot(z: real, a: real, b: real, c: real, gap: real) {
    Abs(z - a) < gap && Abs(z - b) >= gap && Abs(z - c) >= gap
  }

  lemma OwnRoots(a: real, b: real, c: real, p: real, q: real, r: real, gap: real)
    requires Abs(a - b) >= 2.0 * gap && Abs(a - c) >= 2.0 * gap && Abs(b - c) >= 2.0 * gap
    requires Abs(a - p) < gap && Abs(b - q) < gap && Abs(c - r) < gap
    ensures OwnRoot(a, p, q, r, gap) && OwnRoot(b, q, r, p, gap) && OwnRoot(c, r, p, q, gap)
  {
  }

  lemma RootsTurned(z: real, a: real, b: real, c: real)
    ensures Roots(z, a, b, c) == Roots(z, b, c, a) && Roots(z, a, b, c) == Roots(z, c, a, b)
  {
  }

  lemma RootsAre(z: real, a: real, b: real, c: real, x: real, y: real, w: real)
    requires x == z - a && y == z - b && w == z - c
    ensures Roots(z, a, b, c) == x * y * w
  {
  }

  lemma RootClose(z: real, a: real, b: real, c: real, gap: real, eps: real)
    requires gap > 0.0 && Abs(Roots(z, a, b, c)) <= eps && OwnRoot(z, a, b, c, gap)
    ensures Abs(z - a) * (gap * gap) <= eps
  {
    var x, y, w := z - a, z - b, z - c;
    RootsAre(z, a, b, c, x, y, w);
    hide Abs, Roots;
    ThirdFactor(x, y, w, gap, eps);
  }

  lemma EachClose(s: V3, w: V3, gap: real, eps: real)
    requires gap > 0.0 && Apart2(s, gap) && NearlyRoots(s, w, eps)
    requires Abs(Square(s.x) - Square(w.x)) < gap && Abs(Square(s.y) - Square(w.y)) < gap
      && Abs(Square(s.z) - Square(w.z)) < gap
    ensures Abs(Square(s.x) - Square(w.x)) * (gap * gap) <= eps
    ensures Abs(Square(s.y) - Square(w.y)) * (gap * gap) <= eps
    ensures Abs(Square(s.z) - Square(w.z)) * (gap * gap) <= eps
  {
    hide Square, Characteristic, Roots, Abs, Invariants, Diag, OwnRoot;
    var a, b, c := Square(s.x), Square(s.y), Square(s.z);
    var p, q, r := Square(w.x), Square(w.y), Square(w.z);
    CharacteristicOf(w, a);
    CharacteristicOf(w, b);
    CharacteristicOf(w, c);
    OwnRoots(a, b, c, p, q, r, gap);
    RootClose(a, p, q, r, gap, eps);
    RootsTurned(b, p, q, r);
    RootClose(b, q, r, p, gap, eps);
    RootsTurned(c, p, q, r);
    RootClose(c, r, p, q, gap, eps);
  }

  // ---- Back from squares ----------------------------------------------------------------------

  lemma RootMove(a: real, b: real, eps: real, least: real)
    requires a >= least > 0.0 && b >= 0.0 && Abs(Square(a) - Square(b)) <= eps
    ensures Abs(a - b) * least <= eps
  {
    DifferenceOfSquares(a, b, a - b, a + b);
    AbsProduct(a - b, a + b);
    hide Square;
    assert Abs(a + b) == a + b;
    hide Abs;
    MulMonotone(least, a + b, Abs(a - b));
  }

  lemma DifferenceOfSquares(a: real, b: real, x: real, y: real)
    requires x == a - b && y == a + b
    ensures x * y == Square(a) - Square(b)
  {
  }

  lemma PositiveLeast(s: V3) returns (least: real)
    requires Positive(s)
    ensures least > 0.0 && s.x >= least && s.y >= least && s.z >= least
  {
    least := if s.x <= s.y && s.x <= s.z then s.x else if s.y <= s.z then s.y else s.z;
  }

  lemma GapOf(s: V3) returns (gap: real)
    requires Positive(s) && Distinct(s)
    ensures gap > 0.0 && Apart2(s, gap)
  {
    SquaresApart(s.x, s.y);
    SquaresApart(s.x, s.z);
    SquaresApart(s.y, s.z);
    var a, b, c := Square(s.x), Square(s.y), Square(s.z);
    assert a - b != 0.0 && a - c != 0.0 && b - c != 0.0;
    hide Square;
    var p, q, r := Abs(a - b), Abs(a - c), Abs(b - c);
    gap := (if p <= q && p <= r then p else if q <= r then q else r) / 2.0;
  }

  // ---- How far a move of the invariants takes them ---------------------------------------

  function Span(z: real): real {
    z * z + z + 1.0
  }

  lemma CharacteristicMove(i: V3, d: V3, z: real, n: real)
    requires Small(d, n) && z >= 0.0
    ensures Abs(Characteristic(Add(i, d), z) - Characteristic(i, z)) <= n * Span(z)
  {
    SmallEntries(d, n);
    hide *;
    CharacteristicShift(i, d, z, z * z);
    var total := Characteristic(Add(i, d), z) - Characteristic(i, z);
    MoveKernel(d.x, d.y, d.z, z, z * z, n, total);
  }

  lemma MoveKernel(dx: real, dy: real, dz: real, z: real, zz: real, n: real, total: real)
    requires Abs(dx) <= n && Abs(dy) <= n && Abs(dz) <= n && z >= 0.0 && zz == z * z
    requires total == -(dx * zz) + dy * z - dz
    ensures Abs(total) <= n * Span(z)
  {
    hide Abs;
    ProductSign(z, z);
    AbsNonNegative(zz);
    AbsNonNegative(z);
    var x, y, a, b := dx * zz, dy * z, n * zz, n * z;
    ProductBound(dx, zz, x, n, zz, a);
    ProductBound(dy, z, y, n, z, b);
    ThreeBounds(x, y, dz, a, b, n, total);
    Spread(n, z, zz);
  }

  lemma Spread(n: real, z: real, zz: real)
    requires zz == z * z
    ensures n * zz + n * z + n == n * Span(z)
  {
  }

  lemma CharacteristicShift(i: V3, d: V3, z: real, zz: real)
    requires zz == z * z
    ensures Characteristic(Add(i, d), z) - Characteristic(i, z) == -(d.x * zz) + d.y * z - d.z
  {
    var j := Add(i, d);
    assert j.x == i.x + d.x && j.y == i.y + d.y && j.z == i.z + d.z;
    hide Add;
    assert j.x * zz == i.x * zz + d.x * zz;
    assert j.y * z == i.y * z + d.y * z;
  }

  lemma ThreeBounds(x: real, y: real, z: real, a: real, b: real, c: real, total: real)
    requires Abs(x) <= a && Abs(y) <= b && Abs(z) <= c && total == -x + y - z
    ensures Abs(total) <= a + b + c
  {
  }

  // z^2 + z + 1 at each squared singular value, in all.
  function Reach(s: V3): real {
    var a, b, c := Square(s.x), Square(s.y), Square(s.z);
    Span(a) + Span(b) + Span(c)
  }

  lemma ReachCovers(s: V3, z: real)
    requires z == Square(s.x) || z == Square(s.y) || z == Square(s.z)
    ensures z >= 0.0 && 1.0 <= Span(z) <= Reach(s)
  {
    SpanAtLeast(s.x);
    SpanAtLeast(s.y);
    SpanAtLeast(s.z);
    hide Square, Span;
  }

  lemma SpanAtLeast(x: real)
    ensures Square(x) >= 0.0 && Span(Square(x)) >= 1.0
  {
    SquareSign(x);
    var z := Square(x);
    hide Square;
    ProductSign(z, z);
  }

  lemma OwnCharacteristic(s: V3, z: real)
    requires z == Square(s.x) || z == Square(s.y) || z == Square(s.z)
    ensures Characteristic(Invariants(Diag(s)), z) == 0.0
  {
    hide Square, Characteristic, Invariants, Diag;
    CharacteristicOf(s, z);
    RootsZero(z, Square(s.x), Square(s.y), Square(s.z));
  }

  lemma RootsZero(z: real, a: real, b: real, c: real)
    requires z == a || z == b || z == c
    ensures Roots(z, a, b, c) == 0.0
  {
  }

  lemma CharacteristicSmall(s: V3, d: V3, z: real, n: real)
    requires z == Square(s.x) || z == Square(s.y) || z == Square(s.z)
    requires Small(d, n) && n >= 0.0
    ensures Abs(Characteristic(Add(Invariants(Diag(s)), d), z)) <= n * Reach(s)
  {
    hide *;
    ReachCovers(s, z);
    OwnCharacteristic(s, z);
    CharacteristicMove(Invariants(Diag(s)), d, z, n);
    MulMonotone(Span(z), Reach(s), n);
  }

  // The three values are those of s, up to order and up to far.
  ghost predicate StayNear(s: V3, v: V3, far: real) {
    exists w :: Permuted(v, w) && Small(Sub(w, s), far)
  }

  lemma ValuesClose(s: V3, v: V3, d: V3, n: real, gap: real, least: real, far: real)
    requires gap > 0.0 && Apart2(s, gap) && s.x >= least && s.y >= least && s.z >= least > 0.0
    requires NonNegative(v) && Invariants(Diag(v)) == Add(Invariants(Diag(s)), d) && Small(d, n) && n >= 0.0
    requires n * Reach(s) < gap * gap * gap && far * (gap * gap * least) == n * Reach(s)
    ensures StayNear(s, v, far)
  {
    hide Reach, Small, Invariants, Diag, Add, Sub, Characteristic, Apart2, Square, Abs;
    CharacteristicSmall(s, d, Square(s.x), n);
    CharacteristicSmall(s, d, Square(s.y), n);
    CharacteristicSmall(s, d, Square(s.z), n);
    var eps := n * Reach(s);
    var w := Matched(s, v, gap, eps);
    PermutedInvariants(v, w);
    EachClose(s, w, gap, eps);
    EntryClose(s.x, w.x, gap, least, eps, far);
    EntryClose(s.y, w.y, gap, least, eps, far);
    EntryClose(s.z, w.z, gap, least, eps, far);
    SmallSub(w, s, far);
  }

  lemma SmallSub(w: V3, s: V3, far: real)
    requires Abs(s.x - w.x) <= far && Abs(s.y - w.y) <= far && Abs(s.z - w.z) <= far
    ensures Small(Sub(w, s), far)
  {
  }

  lemma EntryClose(a: real, b: real, gap: real, least: real, eps: real, far: real)
    requires gap > 0.0 && a >= least > 0.0 && b >= 0.0 && Abs(Square(a) - Square(b)) * (gap * gap) <= eps
    requires far * (gap * gap * least) == eps
    ensures Abs(a - b) <= far
  {
    hide Square, Abs;
    var u := gap * gap;
    ProductPositive(gap, gap, u);
    var q := eps / u;
    assert q * u == eps;
    Divided(Abs(Square(a) - Square(b)), q, u);
    RootMove(a, b, q, least);
    assert far * least == q by {
      assert far * least * u == far * (u * least);
      Divided(far * least, q, u);
      Divided(q, far * least, u);
    }
    Divided(Abs(a - b), far, least);
  }

  lemma Divided(x: real, y: real, u: real)
    requires u > 0.0 && x * u <= y * u
    ensures x <= y
  {
    if x > y {
      ProductPositive(x - y, u, (x - y) * u);
    }
  }

  // ---- Along a line ---------------------------------------------------------------------------

  lemma InvariantsMove(f: M3, x: M3) returns (m: real)
    ensures m > 0.0 && forall t :: Abs(t) <= 1.0 ==>
      exists d :: Invariants(Along(f, x, t)) == Add(Invariants(f), d) && Small(d, Abs(t) * m)
  {
    hide *;
    var p, q := FirstVariation(f, x), SecondVariation(f, x);
    var m0 := HigherBound(f, x);
    var k := 1.0 + Size(ZERO) + Size(ZERO_M.c0) + Size(ZERO_M.c1) + Size(ZERO_M.c2) + Size(p) + Size(q) + m0;
    SizesSmall(ZERO, ZERO_M, p, q, m0, k);
    m := 3.0 * k;
    forall t | Abs(t) <= 1.0
      ensures exists d :: Invariants(Along(f, x, t)) == Add(Invariants(f), d) && Small(d, Abs(t) * m)
    {
      var r := HigherVariation(f, x, t);
      SmallWeaken(r, m0, k);
      SmallVelocity(p, q, r, t, k);
      MoveIs(p, q, r, t, k, Abs(t) * m);
      InvariantsAlong(f, x, t);
      ExpansionDisplacement(Invariants(f), p, q, r, t);
      var d := Displacement(p, q, r, t);
      assert Invariants(Along(f, x, t)) == Add(Invariants(f), d);
    }
  }

  lemma MoveIs(p: V3, q: V3, r: V3, t: real, k: real, b: real)
    requires Small(Velocity(p, q, r, t), 3.0 * k) && b == Abs(t) * (3.0 * k)
    ensures Small(Displacement(p, q, r, t), b)
  {
    hide Small, Velocity, Abs, Scale;
    SmallScale(t, Velocity(p, q, r, t), Abs(t), 3.0 * k, b);
  }

  ghost predicate Follow(s: V3, f: M3, x: M3, c: real, r: real) {
    forall t, v :: Abs(t) <= r && NonNegative(v) && Invariants(Diag(v)) == Invariants(Along(f, x, t)) ==>
      StayNear(s, v, c * Abs(t))
  }

  // Along F + t X the singular values stay within c t of those of F.
  lemma ValuesFollow(s: V3, f: M3, x: M3) returns (c: real, r: real)
    requires Positive(s) && Distinct(s) && Invariants(f) == Invariants(Diag(s))
    ensures c > 0.0 && r > 0.0 && Follow(s, f, x, c, r)
  {
    hide *;
    var m := InvariantsMove(f, x);
    var gap := GapOf(s);
    var least := PositiveLeast(s);
    ReachCovers(s, Square(s.x));
    var k := Reach(s);
    c, r := Speeds(m, k, gap, least);
    assert Follow(s, f, x, c, r) by {
      FollowFrom(s, f, x, m, k, gap, least, c, r);
    }
  }

  predicate SpeedsFor(m: real, k: real, gap: real, least: real, c: real, r: real) {
    0.0 < r <= 1.0 && c > 0.0 && c * (gap * gap * least) == m * k && r * m * k < gap * gap * gap
  }

  lemma Speeds(m: real, k: real, gap: real, least: real) returns (c: real, r: real)
    requires m > 0.0 && k >= 1.0 && gap > 0.0 && least > 0.0
    ensures SpeedsFor(m, k, gap, least, c, r)
  {
    var mk, u, cube := m * k, gap * gap * least, gap * gap * gap;
    ProductPositive(m, k, mk);
    ProductPositive(gap, gap, gap * gap);
    ProductPositive(gap * gap, least, u);
    ProductPositive(gap * gap, gap, cube);
    c := mk / u;
    assert c * u == mk;
    if c <= 0.0 {
      MulMonotone(c, 0.0, u);
    }
    var q := cube / mk;
    assert q * mk == cube;
    if q <= 0.0 {
      MulMonotone(q, 0.0, mk);
    }
    r := if q <= 1.0 then q / 2.0 else 0.5;
    ProductPositive(q - r, mk, (q - r) * mk);
    assert r * m * k == r * mk;
  }

  lemma FollowFrom(s: V3, f: M3, x: M3, m: real, k: real, gap: real, least: real, c: real, r: real)
    requires Invariants(f) == Invariants(Diag(s)) && k == Reach(s) && k >= 1.0 && m > 0.0
    requires gap > 0.0 && Apart2(s, gap) && s.x >= least && s.y >= least && s.z >= least > 0.0
    requires SpeedsFor(m, k, gap, least, c, r)
    requires forall t :: Abs(t) <= 1.0 ==>
      exists d :: Invariants(Along(f, x, t)) == Add(Invariants(f), d) && Small(d, Abs(t) * m)
    ensures Follow(s, f, x, c, r)
  {
    hide Invariants, Diag, Along, Small, Add, Apart2, Reach, Abs, NonNegative, StayNear;
    forall t, v | Abs(t) <= r && NonNegative(v) && Invariants(Diag(v)) == Invariants(Along(f, x, t))
      ensures StayNear(s, v, c * Abs(t))
    {
      var d :| Invariants(Along(f, x, t)) == Add(Invariants(f), d) && Small(d, Abs(t) * m);
      AbsAbove(t);
      SpeedsAt(m, k, gap, least, c, r, Abs(t));
      ValuesClose(s, v, d, Abs(t) * m, gap, least, c * Abs(t));
    }
  }

  lemma SpeedsAt(m: real, k: real, gap: real, least: real, c: real, r: real, a: real)
    requires SpeedsFor(m, k, gap, least, c, r) && 0.0 <= a <= r && m > 0.0 && k >= 1.0
    ensures a * m >= 0.0 && a * m * k < gap * gap * gap && c * a * (gap * gap * least) == a * m * k
  {
    ProductSign(a, m);
    var mk := m * k;
    ProductSign(m, k);
    assert a * m * k == a * mk && r * m * k == r * mk;
    MulMonotone(a, r, mk);
    var u := gap * gap * least;
    assert c * a * u == a * (c * u);
  }
}
