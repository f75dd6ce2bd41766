// The orthographic z-buffer rasterizer of the calibration report: framing, and the
// in-place depth and image updates face by face (calibration/viz.py:44-52, 76-130).
module Rasterizer {
  import opened LinearAlgebra

  // ---- Faces over projected vertices -----------------------------------------------

  // A vertex as the renderer sees it: pixel position and depth.
  datatype Point = Point(x: real, y: real, d: real)

  datatype Face = Face(i0: nat, i1: nat, i2: nat)

  datatype Colour = Colour(red: nat, green: nat, blue: nat)

  const WHITE := Colour(255, 255, 255)

  datatype Depth = Infinite | At(d: real)

  predicate Indexes(f: Face, n: nat) {
    f.i0 < n && f.i1 < n && f.i2 < n
  }

  // Barycentric weights of a point of the face, with the depth they interpolate.
  ghost predicate Blend(p: Point, q: Point, r: Point, gx: real, gy: real, z: real, a: real, b: real, c: real) {
    && a >= 0.0 && b >= 0.0 && c >= 0.0 && a + b + c == 1.0
    && gx == a * p.x + b * q.x + c * r.x
    && gy == a * p.y + b * q.y + c * r.y
    && z == a * p.d + b * q.d + c * r.d
  }

  // Twice the signed area of the projected face.
  function Area(p: Point, q: Point, r: Point): real {
    (q.y - r.y) * (p.x - r.x) + (r.x - q.x) * (p.y - r.y)
  }

  // The closed, non-degenerate face passes over (gx, gy) at depth z.
  ghost predicate Hits(p: Point, q: Point, r: Point, gx: real, gy: real, z: real) {
    Area(p, q, r) != 0.0 && exists a, b, c :: Blend(p, q, r, gx, gy, z, a, b, c)
  }

  // ---- What the renderer computes at one pixel --------------------------------------

  function WeightA(p: Point, q: Point, r: Point, gx: real, gy: real): real
    requires Area(p, q, r) != 0.0
  {
    ((q.y - r.y) * (gx - r.x) + (r.x - q.x) * (gy - r.y)) / Area(p, q, r)
  }

  function WeightB(p: Point, q: Point, r: Point, gx: real, gy: real): real
    requires Area(p, q, r) != 0.0
  {
    ((r.y - p.y) * (gx - r.x) + (p.x - r.x) * (gy - r.y)) / Area(p, q, r)
  }

  function WeightC(p: Point, q: Point, r: Point, gx: real, gy: real): real
    requires Area(p, q, r) != 0.0
  {
    1.0 - WeightA(p, q, r, gx, gy) - WeightB(p, q, r, gx, gy)
  }

  predicate Inside(p: Point, q: Point, r: Point, gx: real, gy: real)
    requires Area(p, q, r) != 0.0
  {
    && WeightA(p, q, r, gx, gy) >= 0.0
    && WeightB(p, q, r, gx, gy) >= 0.0
    && WeightC(p, q, r, gx, gy) >= 0.0
  }

  function DepthAt(p: Point, q: Point, r: Point, gx: real, gy: real): real
    requires Area(p, q, r) != 0.0
  {
    WeightA(p, q, r, gx, gy) * p.d + WeightB(p, q, r, gx, gy) * q.d + WeightC(p, q, r, gx, gy) * r.d
  }

  function Centre(i: int): real {
    i as real + 0.5
  }

  predicate Nearer(z: real, old_: Depth) {
    old_.Infinite? || z < old_.d
  }

  // ---- The weights are the only barycentric ones --------------------------------------

  // With u, v the point relative to the third corner.
  lemma WeightsUnique(x0: real, y0: real, x1: real, y1: real, u: real, v: real, a: real, b: real)
    requires u == a * x0 + b * x1 && v == a * y0 + b * y1
    ensures y1 * u - x1 * v == a * (y1 * x0 - x1 * y0)
    ensures x0 * v - y0 * u == b * (y1 * x0 - x1 * y0)
  {
  }

  lemma WeightsSolve(x0: real, y0: real, x1: real, y1: real, u: real, v: real, den: real, na: real, nb: real)
    requires den == y1 * x0 - x1 * y0 && na == y1 * u - x1 * v && nb == x0 * v - y0 * u
    ensures na * x0 + nb * x1 == den * u && na * y0 + nb * y1 == den * v
  {
  }

  lemma DivideBoth(den: real, na: real, nb: real, a: real, b: real, x0: real, x1: real, u: real)
    requires den != 0.0 && a == na / den && b == nb / den && na * x0 + nb * x1 == den * u
    ensures a * x0 + b * x1 == u
  {
    assert a * den == na && b * den == nb;
    assert den * (a * x0 + b * x1) == den * u;
  }

  lemma Relative(a: real, b: real, c: real, x0: real, x1: real, x2: real, g: real)
    requires a + b + c == 1.0
    ensures g == a * x0 + b * x1 + c * x2 <==> g - x2 == a * (x0 - x2) + b * (x1 - x2)
  {
    assert a * (x0 - x2) + b * (x1 - x2) == a * x0 + b * x1 - (a + b) * x2;
    assert (a + b) * x2 == (1.0 - c) * x2;
  }

  lemma Divided(n: real, w: real, den: real)
    requires den != 0.0 && n == w * den
    ensures n / den == w
  {
  }

  lemma NumeratorForms(p: Point, q: Point, r: Point, gx: real, gy: real)
    ensures var x0, y0, x1, y1, u, v := p.x - r.x, p.y - r.y, q.x - r.x, q.y - r.y, gx - r.x, gy - r.y;
      && Area(p, q, r) == y1 * x0 - x1 * y0
      && (q.y - r.y) * (gx - r.x) + (r.x - q.x) * (gy - r.y) == y1 * u - x1 * v
      && (r.y - p.y) * (gx - r.x) + (p.x - r.x) * (gy - r.y) == x0 * v - y0 * u
  {
    NegTimes(q.x, r.x, p.y - r.y);
    NegTimes(q.x, r.x, gy - r.y);
    NegTimes(p.y, r.y, gx - r.x);
  }

  lemma NegTimes(a: real, b: real, k: real)
    ensures (b - a) * k == -((a - b) * k)
  {
  }

  // Any blend at (gx, gy) uses the weights computed there.
  lemma BlendIsComputed(p: Point, q: Point, r: Point, gx: real, gy: real, z: real, a: real, b: real, c: real)
    requires Area(p, q, r) != 0.0 && Blend(p, q, r, gx, gy, z, a, b, c)
    ensures a == WeightA(p, q, r, gx, gy) && b == WeightB(p, q, r, gx, gy) && c == WeightC(p, q, r, gx, gy)
  {
    var x0, y0, x1, y1, u, v := p.x - r.x, p.y - r.y, q.x - r.x, q.y - r.y, gx - r.x, gy - r.y;
    Relative(a, b, c, p.x, q.x, r.x, gx);
    Relative(a, b, c, p.y, q.y, r.y, gy);
    WeightsUnique(x0, y0, x1, y1, u, v, a, b);
    NumeratorForms(p, q, r, gx, gy);
    hide Area, Blend;
    Divided(y1 * u - x1 * v, a, Area(p, q, r));
    Divided(x0 * v - y0 * u, b, Area(p, q, r));
  }

  // The computed weights reproduce the point.
  lemma ComputedBlends(p: Point, q: Point, r: Point, gx: real, gy: real)
    requires Area(p, q, r) != 0.0 && Inside(p, q, r, gx, gy)
    ensures Blend(p, q, r, gx, gy, DepthAt(p, q, r, gx, gy),
      WeightA(p, q, r, gx, gy), WeightB(p, q, r, gx, gy), WeightC(p, q, r, gx, gy))
  {
    var a, b, c := WeightA(p, q, r, gx, gy), WeightB(p, q, r, gx, gy), WeightC(p, q, r, gx, gy);
    Reproduces(p, q, r, gx, gy, a, b);
    Relative(a, b, c, p.x, q.x, r.x, gx);
    Relative(a, b, c, p.y, q.y, r.y, gy);
    hide Area, WeightA, WeightB;
  }

  lemma Reproduces(p: Point, q: Point, r: Point, gx: real, gy: real, a: real, b: real)
    requires Area(p, q, r) != 0.0 && a == WeightA(p, q, r, gx, gy) && b == WeightB(p, q, r, gx, gy)
    ensures gx - r.x == a * (p.x - r.x) + b * (q.x - r.x) && gy - r.y == a * (p.y - r.y) + b * (q.y - r.y)
  {
    hide Area;
    var x0, y0, x1, y1, u, v := p.x - r.x, p.y - r.y, q.x - r.x, q.y - r.y, gx - r.x, gy - r.y;
    var den, na, nb := Area(p, q, r), y1 * u - x1 * v, x0 * v - y0 * u;
    NumeratorForms(p, q, r, gx, gy);
    WeightsSolve(x0, y0, x1, y1, u, v, den, na, nb);
    DivideBoth(den, na, nb, a, b, x0, x1, u);
    DivideBoth(den, na, nb, a, b, y0, y1, v);
  }

  // The barycentric test is exact, and the depth it interpolates is the only one.
  lemma TestIsExact(p: Point, q: Point, r: Point, gx: real, gy: real, z: real)
    requires Area(p, q, r) != 0.0
    ensures Hits(p, q, r, gx, gy, z) <==> Inside(p, q, r, gx, gy) && z == DepthAt(p, q, r, gx, gy)
  {
    hide Area, WeightA, WeightB, WeightC;
    if Hits(p, q, r, gx, gy, z) {
      var a, b, c :| Blend(p, q, r, gx, gy, z, a, b, c);
      BlendIsComputed(p, q, r, gx, gy, z, a, b, c);
    }
    if Inside(p, q, r, gx, gy) {
      ComputedBlends(p, q, r, gx, gy);
    }
  }

  // ---- The bounding box -----------------------------------------------------------------

  function Ceil(x: real): int {
    -((-x).Floor)
  }

  function Min3(a: real, b: real, c: real): real {
    if a <= b && a <= c then a else if b <= c then b else c
  }

  function Max3(a: real, b: real, c: real): real {
    if a >= b && a >= c then a else if b >= c then b else c
  }

  function Low(a: real, b: real, c: real): int {
    if Min3(a, b, c).Floor > 0 then Min3(a, b, c).Floor else 0
  }

  function High(a: real, b: real, c: real, size: nat): int {
    if Ceil(Max3(a, b, c)) < size - 1 then Ceil(Max3(a, b, c)) else size - 1
  }

  lemma AverageBetween(a: real, b: real, c: real, x: real, y: real, z: real, g: real)
    requires a >= 0.0 && b >= 0.0 && c >= 0.0 && a + b + c == 1.0 && g == a * x + b * y + c * z
    ensures Min3(x, y, z) <= g <= Max3(x, y, z)
  {
    WeightedBetween(a, b, c, x, y, z, g, Min3(x, y, z), Max3(x, y, z));
  }

  lemma WeightedBetween(a: real, b: real, c: real, x: real, y: real, z: real, g: real, m: real, n: real)
    requires a >= 0.0 && b >= 0.0 && c >= 0.0 && a + b + c == 1.0 && g == a * x + b * y + c * z
    requires m <= x <= n && m <= y <= n && m <= z <= n
    ensures m <= g <= n
  {
    WeightedAbove(a, b, c, x, y, z, m);
    WeightedAbove(a, b, c, -x, -y, -z, -n);
  }

  lemma WeightedAbove(a: real, b: real, c: real, x: real, y: real, z: real, m: real)
    requires a >= 0.0 && b >= 0.0 && c >= 0.0 && a + b + c == 1.0 && m <= x && m <= y && m <= z
    ensures m <= a * x + b * y + c * z
  {
    ProductSign(a, x - m);
    ProductSign(b, y - m);
    ProductSign(c, z - m);
    assert a * (x - m) + b * (y - m) + c * (z - m) == a * x + b * y + c * z - m * (a + b + c);
  }

  lemma FloorBelow(m: real, x: int)
    requires m <= Centre(x)
    ensures m.Floor <= x
  {
    assert m.Floor as real <= m;
  }

  lemma CeilAbove(m: real, x: int)
    requires m >= Centre(x)
    ensures Ceil(m) >= x
  {
    FloorBelow(-m, -x - 1);
  }

  // The clamped floor/ceil box never drops a covered pixel centre.
  lemma BoxCovers(p: Point, q: Point, r: Point, x: int, y: int, z: real, w: nat, h: nat)
    requires 0 <= x < w && 0 <= y < h && Hits(p, q, r, Centre(x), Centre(y), z)
    ensures Low(p.x, q.x, r.x) <= x <= High(p.x, q.x, r.x, w)
    ensures Low(p.y, q.y, r.y) <= y <= High(p.y, q.y, r.y, h)
  {
    var a, b, c :| Blend(p, q, r, Centre(x), Centre(y), z, a, b, c);
    AverageBetween(a, b, c, p.x, q.x, r.x, Centre(x));
    AverageBetween(a, b, c, p.y, q.y, r.y, Centre(y));
    hide *;
    FloorBelow(Min3(p.x, q.x, r.x), x);
    FloorBelow(Min3(p.y, q.y, r.y), y);
    CeilAbove(Max3(p.x, q.x, r.x), x);
    CeilAbove(Max3(p.y, q.y, r.y), y);
    LowHigh(p.x, q.x, r.x, x, w);
    LowHigh(p.y, q.y, r.y, y, h);
  }

  lemma LowHigh(a: real, b: real, c: real, i: int, size: nat)
    requires 0 <= i < size && Min3(a, b, c).Floor <= i && Ceil(Max3(a, b, c)) >= i
    ensures Low(a, b, c) <= i <= High(a, b, c, size)
  {
    hide Min3, Max3, Ceil;
  }

  // ---- One face drawn in place --------------------------------------------------------

  ghost predicate FaceHits(points: seq<Point>, f: Face, x: int, y: int, z: real)
    requires Indexes(f, |points|)
  {
    Hits(points[f.i0], points[f.i1], points[f.i2], Centre(x), Centre(y), z)
  }

  predicate Closer(p: Point, q: Point, r: Point, x: int, y: int, old_: Depth)
    requires Area(p, q, r) != 0.0
  {
    Inside(p, q, r, Centre(x), Centre(y)) && Nearer(DepthAt(p, q, r, Centre(x), Centre(y)), old_)
  }

  // One pixel after one face: taken by a nearer hit, and otherwise left alone.
  ghost predicate Drawn(points: seq<Point>, f: Face, x: int, y: int, col: Colour,
      depth: Depth, colour: Colour, depth': Depth, colour': Colour)
    requires Indexes(f, |points|)
  {
    && (forall z :: FaceHits(points, f, x, y, z) && Nearer(z, depth) ==> depth' == At(z) && colour' == col)
    && ((forall z :: FaceHits(points, f, x, y, z) ==> !Nearer(z, depth)) ==> depth' == depth && colour' == colour)
  }

  method DrawFace(points: seq<Point>, f: Face, col: Colour, img: array2<Colour>, zbuf: array2<Depth>)
    requires Indexes(f, |points|)
    requires img.Length0 == zbuf.Length0 && img.Length1 == zbuf.Length1
    modifies img, zbuf
    ensures forall y, x | 0 <= y < img.Length0 && 0 <= x < img.Length1 ::
      Drawn(points, f, x, y, col, old(zbuf[y, x]), old(img[y, x]), zbuf[y, x], img[y, x])
  {
    hide Area, Inside, DepthAt, Low, High, Centre;
    var h, w := img.Length0, img.Length1;
    var p, q, r := points[f.i0], points[f.i1], points[f.i2];
    var minx, maxx := Low(p.x, q.x, r.x), High(p.x, q.x, r.x, w);
    var miny, maxy := Low(p.y, q.y, r.y), High(p.y, q.y, r.y, h);
    forall y, x, z | 0 <= y < h && 0 <= x < w && FaceHits(points, f, x, y, z)
      ensures minx <= x <= maxx && miny <= y <= maxy
    {
      BoxCovers(p, q, r, x, y, z, w, h);
    }
    if maxx < minx || maxy < miny {
      return;
    }
    if Area(p, q, r) == 0.0 {
      return;
    }
    forall y, x, z ensures FaceHits(points, f, x, y, z) <==>
      Inside(p, q, r, Centre(x), Centre(y)) && z == DepthAt(p, q, r, Centre(x), Centre(y))
    {
      TestIsExact(p, q, r, Centre(x), Centre(y), z);
    }
    hide Hits;
    BoxInside(p, q, r, w, h);
    forall y, x | miny <= y <= maxy && minx <= x <= maxx && Closer(p, q, r, x, y, zbuf[y, x]) {
      img[y, x] := col;
    }
    forall y, x | miny <= y <= maxy && minx <= x <= maxx && Closer(p, q, r, x, y, zbuf[y, x]) {
      zbuf[y, x] := At(DepthAt(p, q, r, Centre(x), Centre(y)));
    }
  }

  lemma BoxInside(p: Point, q: Point, r: Point, w: nat, h: nat)
    ensures 0 <= Low(p.x, q.x, r.x) && 0 <= Low(p.y, q.y, r.y)
    ensures High(p.x, q.x, r.x, w) < w && High(p.y, q.y, r.y, h) < h
  {
  }

  // ---- The finished picture --------------------------------------------------------------

  predicate WellIndexed(faces: seq<Face>, n: nat) {
    forall k :: 0 <= k < |faces| ==> Indexes(faces[k], n)
  }

  ghost predicate HitBy(points: seq<Point>, faces: seq<Face>, k: int, x: int, y: int, z: real)
    requires WellIndexed(faces, |points|) && 0 <= k < |faces|
  {
    FaceHits(points, faces[k], x, y, z)
  }

  // Face k is the first of the first n to reach the least depth z over the pixel.
  ghost predicate FirstNearest(points: seq<Point>, faces: seq<Face>, n: nat, x: int, y: int, z: real, k: int)
    requires WellIndexed(faces, |points|) && n <= |faces|
  {
    && 0 <= k < n && HitBy(points, faces, k, x, y, z)
    && (forall j, z2 :: 0 <= j < n && HitBy(points, faces, j, x, y, z2) ==> z <= z2)
    && (forall j, z2 :: 0 <= j < k && HitBy(points, faces, j, x, y, z2) ==> z < z2)
  }

  // The brute-force picture of the first n faces at one pixel.
  ghost predicate PixelIs(points: seq<Point>, faces: seq<Face>, colours: seq<Colour>, n: nat, x: int, y: int,
      depth: Depth, colour: Colour)
    requires WellIndexed(faces, |points|) && n <= |faces| == |colours|
  {
    match depth
    case Infinite => colour == WHITE && forall k, z :: 0 <= k < n ==> !HitBy(points, faces, k, x, y, z)
    case At(z) => exists k :: FirstNearest(points, faces, n, x, y, z, k) && colour == colours[k]
  }

  lemma HitOnce(points: seq<Point>, f: Face, x: int, y: int, z: real, z2: real)
    requires Indexes(f, |points|) && FaceHits(points, f, x, y, z) && FaceHits(points, f, x, y, z2)
    ensures z == z2
  {
    var p, q, r := points[f.i0], points[f.i1], points[f.i2];
    assert Area(p, q, r) != 0.0;
    TestIsExact(p, q, r, Centre(x), Centre(y), z);
    TestIsExact(p, q, r, Centre(x), Centre(y), z2);
  }

  // Drawing one more face keeps every pixel right.
  lemma PixelStep(points: seq<Point>, faces: seq<Face>, colours: seq<Colour>, n: nat, x: int, y: int,
      depth: Depth, colour: Colour, depth': Depth, colour': Colour)
    requires WellIndexed(faces, |points|) && n < |faces| == |colours|
    requires PixelIs(points, faces, colours, n, x, y, depth, colour)
    requires Drawn(points, faces[n], x, y, colours[n], depth, colour, depth', colour')
    ensures PixelIs(points, faces, colours, n + 1, x, y, depth', colour')
  {
    hide FaceHits;
    if z :| HitBy(points, faces, n, x, y, z) && Nearer(z, depth) {
      forall z2 | HitBy(points, faces, n, x, y, z2) ensures z2 == z {
        HitOnce(points, faces[n], x, y, z, z2);
      }
      assert FirstNearest(points, faces, n + 1, x, y, z, n);
    } else {
      assert forall z :: FaceHits(points, faces[n], x, y, z) ==> HitBy(points, faces, n, x, y, z);
      if depth.At? {
        var k :| FirstNearest(points, faces, n, x, y, depth.d, k) && colour == colours[k];
        assert FirstNearest(points, faces, n + 1, x, y, depth.d, k);
      }
    }
  }

  ghost predicate Pictured(points: seq<Point>, faces: seq<Face>, colours: seq<Colour>, n: nat,
      img: array2<Colour>, zbuf: array2<Depth>)
    requires WellIndexed(faces, |points|) && n <= |faces| == |colours|
    reads img, zbuf
  {
    && img.Length0 == zbuf.Length0 && img.Length1 == zbuf.Length1
    && forall y, x :: 0 <= y < img.Length0 && 0 <= x < img.Length1 ==>
      PixelIs(points, faces, colours, n, x, y, zbuf[y, x], img[y, x])
  }

  method DrawNext(points: seq<Point>, faces: seq<Face>, colours: seq<Colour>, n: nat,
      img: array2<Colour>, zbuf: array2<Depth>)
    requires WellIndexed(faces, |points|) && n < |faces| == |colours|
    requires Pictured(points, faces, colours, n, img, zbuf)
    modifies img, zbuf
    ensures Pictured(points, faces, colours, n + 1, img, zbuf)
  {
    hide PixelIs, Drawn;
    DrawFace(points, faces[n], colours[n], img, zbuf);
    forall y, x | 0 <= y < img.Length0 && 0 <= x < img.Length1
      ensures PixelIs(points, faces, colours, n + 1, x, y, zbuf[y, x], img[y, x])
    {
      PixelStep(points, faces, colours, n, x, y, old(zbuf[y, x]), old(img[y, x]), zbuf[y, x], img[y, x]);
    }
  }

  // The face loop refines the brute-force picture.
  method DrawAll(points: seq<Point>, faces: seq<Face>, colours: seq<Colour>, w: nat, h: nat)
    returns (img: array2<Colour>, zbuf: array2<Depth>)
    requires WellIndexed(faces, |points|) && |colours| == |faces|
    ensures fresh(img) && fresh(zbuf) && img.Length0 == h && img.Length1 == w
    ensures Pictured(points, faces, colours, |faces|, img, zbuf)
  {
    hide HitBy;
    img := new Colour[h, w]((i, j) => WHITE);
    zbuf := new Depth[h, w]((i, j) => Infinite);
    for fi := 0 to |faces|
      invariant Pictured(points, faces, colours, fi, img, zbuf)
    {
      DrawNext(points, faces, colours, fi, img, zbuf);
    }
  }

  // ---- Drawing order, winding and shared edges ----------------------------------------

  predicate SameCorners(f: Face, g: Face) {
    multiset{f.i0, f.i1, f.i2} == multiset{g.i0, g.i1, g.i2}
  }

  lemma AreaSwap(p: Point, q: Point, r: Point)
    ensures Area(q, p, r) == -Area(p, q, r) && Area(p, r, q) == -Area(p, q, r)
  {
    AreaKernel(p.x, p.y, q.x, q.y, r.x, r.y);
  }

  lemma AreaKernel(px: real, py: real, qx: real, qy: real, rx: real, ry: real)
    ensures (py - ry) * (qx - rx) + (rx - px) * (qy - ry) == -((qy - ry) * (px - rx) + (rx - qx) * (py - ry))
    ensures (ry - qy) * (px - qx) + (qx - rx) * (py - qy) == -((qy - ry) * (px - rx) + (rx - qx) * (py - ry))
  {
  }

  lemma HitSwapped(p: Point, q: Point, r: Point, gx: real, gy: real, z: real)
    requires Hits(p, q, r, gx, gy, z)
    ensures Hits(q, p, r, gx, gy, z) && Hits(p, r, q, gx, gy, z)
  {
    AreaSwap(p, q, r);
    hide Area;
    var a, b, c :| Blend(p, q, r, gx, gy, z, a, b, c);
    assert Blend(q, p, r, gx, gy, z, b, a, c);
    assert Blend(p, r, q, gx, gy, z, a, c, b);
  }

  lemma FaceHitReordered(points: seq<Point>, f: Face, g: Face, x: int, y: int, z: real)
    requires Indexes(f, |points|) && Indexes(g, |points|) && SameCorners(f, g) && FaceHits(points, f, x, y, z)
    ensures FaceHits(points, g, x, y, z)
  {
    hide Hits, Centre;
    var p, q, r, gx, gy := points[f.i0], points[f.i1], points[f.i2], Centre(x), Centre(y);
    HitSwapped(p, q, r, gx, gy, z);
    HitSwapped(q, p, r, gx, gy, z);
    HitSwapped(p, r, q, gx, gy, z);
    HitSwapped(q, r, p, gx, gy, z);
    SixOrders(f.i0, f.i1, f.i2, g.i0, g.i1, g.i2);
  }

  lemma SixOrders(a: nat, b: nat, c: nat, x: nat, y: nat, z: nat)
    requires multiset{a, b, c} == multiset{x, y, z}
    ensures (x == a && ((y == b && z == c) || (y == c && z == b)))
      || (x == b && ((y == a && z == c) || (y == c && z == a)))
      || (x == c && ((y == a && z == b) || (y == b && z == a)))
  {
    assert x in multiset{a, b, c};
    if x == a {
      TwoOrders(a, b, c, y, z);
    } else if x == b {
      assert multiset{b, a, c} == multiset{a, b, c};
      TwoOrders(b, a, c, y, z);
    } else {
      assert multiset{c, a, b} == multiset{a, b, c};
      TwoOrders(c, a, b, y, z);
    }
  }

  lemma TwoOrders(a: nat, b: nat, c: nat, d: nat, e: nat)
    requires multiset{a, b, c} == multiset{a, d, e}
    ensures (b == d && c == e) || (b == e && c == d)
  {
    assert multiset{a, b, c} - multiset{a} == multiset{b, c};
    assert multiset{a, d, e} - multiset{a} == multiset{d, e};
    assert d in multiset{b, c} && b in multiset{d, e};
  }

  // Every coloured face of the first list is somewhere in the second, in some vertex order.
  predicate Within(faces: seq<Face>, colours: seq<Colour>, others: seq<Face>, painted: seq<Colour>)
    requires |faces| == |colours| && |others| == |painted|
  {
    forall i: nat | i < |faces| :: Matched(faces, colours, others, painted, i)
  }

  predicate Matched(faces: seq<Face>, colours: seq<Colour>, others: seq<Face>, painted: seq<Colour>, i: nat)
    requires |faces| == |colours| && |others| == |painted| && i < |faces|
  {
    exists j | 0 <= j < |others| :: SameCorners(faces[i], others[j]) && colours[i] == painted[j]
  }

  lemma HitWithin(points: seq<Point>, faces: seq<Face>, colours: seq<Colour>, others: seq<Face>, painted: seq<Colour>,
      x: int, y: int, i: int, z: real) returns (j: int)
    requires |faces| == |colours| && |others| == |painted| && Within(faces, colours, others, painted)
    requires WellIndexed(faces, |points|) && WellIndexed(others, |points|)
    requires 0 <= i < |faces| && HitBy(points, faces, i, x, y, z)
    ensures 0 <= j < |others| && HitBy(points, others, j, x, y, z) && colours[i] == painted[j]
  {
    hide FaceHits, SameCorners;
    assert Matched(faces, colours, others, painted, i);
    j :| 0 <= j < |others| && SameCorners(faces[i], others[j]) && colours[i] == painted[j];
    FaceHitReordered(points, faces[i], others[j], x, y, z);
  }

  ghost predicate NoColourTie(points: seq<Point>, faces: seq<Face>, colours: seq<Colour>, x: int, y: int, depth: Depth)
    requires WellIndexed(faces, |points|) && |faces| == |colours|
  {
    depth.At? ==> forall i, j | 0 <= i < |faces| && 0 <= j < |faces|
      && HitBy(points, faces, i, x, y, depth.d) && HitBy(points, faces, j, x, y, depth.d) :: colours[i] == colours[j]
  }

  // Two pictures of the same faces, drawn in any order and with any winding, have the
  // same depth everywhere and the same colour wherever no two colours tie.
  lemma OrderDoesNotMatter(points: seq<Point>, faces: seq<Face>, colours: seq<Colour>,
      others: seq<Face>, painted: seq<Colour>, x: int, y: int, depth: Depth, colour: Colour, depth': Depth,
        colour': Colour)
    requires |faces| == |colours| && |others| == |painted|
    requires WellIndexed(faces, |points|) && WellIndexed(others, |points|)
    requires Within(faces, colours, others, painted) && Within(others, painted, faces, colours)
    requires PixelIs(points, faces, colours, |faces|, x, y, depth, colour)
    requires PixelIs(points, others, painted, |others|, x, y, depth', colour')
    ensures depth == depth'
    ensures NoColourTie(points, faces, colours, x, y, depth) ==> colour == colour'
  {
    hide HitBy, Within;
    if depth.At? {
      var k :| FirstNearest(points, faces, |faces|, x, y, depth.d, k) && colour == colours[k];
      var j := HitWithin(points, faces, colours, others, painted, x, y, k, depth.d);
    }
    if depth'.At? {
      var k' :| FirstNearest(points, others, |others|, x, y, depth'.d, k') && colour' == painted[k'];
      var j' := HitWithin(points, others, painted, faces, colours, x, y, k', depth'.d);
    }
  }

  // The brute-force picture leaves nothing open: one depth and one colour a pixel.
  lemma PixelUnique(points: seq<Point>, faces: seq<Face>, colours: seq<Colour>, x: int, y: int,
      depth: Depth, colour: Colour, depth': Depth, colour': Colour)
    requires WellIndexed(faces, |points|) && |faces| == |colours|
    requires PixelIs(points, faces, colours, |faces|, x, y, depth, colour)
    requires PixelIs(points, faces, colours, |faces|, x, y, depth', colour')
    ensures depth == depth' && colour == colour'
  {
    hide HitBy;
    if depth.At? && depth'.At? {
      var k :| FirstNearest(points, faces, |faces|, x, y, depth.d, k) && colour == colours[k];
      var k' :| FirstNearest(points, faces, |faces|, x, y, depth'.d, k') && colour' == colours[k'];
      assert HitBy(points, faces, k, x, y, depth.d) && HitBy(points, faces, k', x, y, depth'.d);
      assert depth.d == depth'.d;
    }
  }

  // A pixel centre on an edge two non-degenerate faces share is inside both, at one depth.
  lemma NoCracks(p: Point, q: Point, r: Point, r2: Point, gx: real, gy: real, t: real)
    requires Area(p, q, r) != 0.0 && Area(p, q, r2) != 0.0 && 0.0 <= t <= 1.0
    requires gx == t * p.x + (1.0 - t) * q.x && gy == t * p.y + (1.0 - t) * q.y
    ensures Inside(p, q, r, gx, gy) && Inside(p, q, r2, gx, gy)
    ensures DepthAt(p, q, r, gx, gy) == DepthAt(p, q, r2, gx, gy) == t * p.d + (1.0 - t) * q.d
  {
    var z := t * p.d + (1.0 - t) * q.d;
    EdgeBlend(p, q, r, gx, gy, t);
    EdgeBlend(p, q, r2, gx, gy, t);
    hide Area, Blend, Inside, DepthAt;
    TestIsExact(p, q, r, gx, gy, z);
    TestIsExact(p, q, r2, gx, gy, z);
  }

  lemma EdgeBlend(p: Point, q: Point, r: Point, gx: real, gy: real, t: real)
    requires 0.0 <= t <= 1.0 && gx == t * p.x + (1.0 - t) * q.x && gy == t * p.y + (1.0 - t) * q.y
    ensures Blend(p, q, r, gx, gy, t * p.d + (1.0 - t) * q.d, t, 1.0 - t, 0.0)
  {
  }

  // ---- Framing -------------------------------------------------------------------------

  datatype View = Top | Side | Other(name: string)

  datatype Bounds = Bounds(smin: real, smax: real, tmin: real, tmax: real)

  // A vertex on the view's screen plane, with its depth.
  datatype OnScreen = OnScreen(s: real, t: real, d: real)

  datatype Frame = Frame(w: nat, h: nat, cs: real, ct: real, scale: real)

  function Project(v: V3, view: View): OnScreen
    requires !view.Other?
  {
    if view.Top? then OnScreen(v.x, v.z, -v.y) else OnScreen(v.x, v.y, -v.z)
  }

  function ProjectAll(vertices: seq<V3>, view: View): seq<OnScreen>
    requires !view.Other?
  {
    seq(|vertices|, i requires 0 <= i < |vertices| => Project(vertices[i], view))
  }

  function Least(xs: seq<real>): (m: real)
    requires xs != []
    ensures m in xs && forall x :: x in xs ==> m <= x
  {
    if |xs| == 1 then xs[0] else
    var rest := Least(xs[1..]);
    assert xs == [xs[0]] + xs[1..];
    if xs[0] <= rest then xs[0] else rest
  }

  function Greatest(xs: seq<real>): (m: real)
    requires xs != []
    ensures m in xs && forall x :: x in xs ==> x <= m
  {
    if |xs| == 1 then xs[0] else
    var rest := Greatest(xs[1..]);
    assert xs == [xs[0]] + xs[1..];
    if xs[0] >= rest then xs[0] else rest
  }

  function Extent(screen: seq<OnScreen>): Bounds
    requires screen != []
  {
    var ss := seq(|screen|, i requires 0 <= i < |screen| => screen[i].s);
    var ts := seq(|screen|, i requires 0 <= i < |screen| => screen[i].t);
    Bounds(Least(ss), Greatest(ss), Least(ts), Greatest(ts))
  }

  // 1e-9, the smallest extent divided by.
  const FLAT := 0.000000001

  function Wide(lo: real, hi: real): real {
    if hi - lo > FLAT then hi - lo else FLAT
  }

  function ScaleFor(size: nat, margin: real, wide: real): real
    requires wide > 0.0
  {
    (1.0 - 2.0 * margin) * (size as real) / wide
  }

  function Fit(b: Bounds, w: nat, h: nat, margin: real): Frame {
    var across := ScaleFor(w, margin, Wide(b.smin, b.smax));
    var down := ScaleFor(h, margin, Wide(b.tmin, b.tmax));
    Frame(w, h, (b.smin + b.smax) / 2.0, (b.tmin + b.tmax) / 2.0, if across <= down then across else down)
  }

  function ToPx(f: Frame, s: real, t: real): (real, real) {
    ((f.w as real) / 2.0 + (s - f.cs) * f.scale, (f.h as real) / 2.0 - (t - f.ct) * f.scale)
  }

  function Placed(screen: seq<OnScreen>, f: Frame): seq<Point> {
    seq(|screen|, i requires 0 <= i < |screen| =>
      var at := ToPx(f, screen[i].s, screen[i].t); Point(at.0, at.1, screen[i].d))
  }

  predicate InBounds(b: Bounds, s: real, t: real) {
    b.smin <= s <= b.smax && b.tmin <= t <= b.tmax
  }

  // Every vertex is within bounds that were fitted to the mesh.
  lemma FittedBounds(screen: seq<OnScreen>, i: nat)
    requires i < |screen|
    ensures InBounds(Extent(screen), screen[i].s, screen[i].t)
  {
    var ss := seq(|screen|, i requires 0 <= i < |screen| => screen[i].s);
    var ts := seq(|screen|, i requires 0 <= i < |screen| => screen[i].t);
    assert ss[i] in ss && ts[i] in ts;
  }

  // One axis: a point within [lo, hi], scaled about the middle, stays inside the margin.
  lemma AxisFramed(lo: real, hi: real, x: real, size: nat, margin: real, wide: real, scale: real)
    requires lo <= x <= hi && hi - lo <= wide && wide > 0.0 && 0.0 <= margin < 0.5
    requires 0.0 <= scale <= ScaleFor(size, margin, wide)
    ensures var room := (1.0 - 2.0 * margin) * (size as real);
      -room <= 2.0 * ((x - (lo + hi) / 2.0) * scale) <= room
  {
    var room := (1.0 - 2.0 * margin) * (size as real);
    Quotient(scale, room, wide);
    ScaledWithin(x - (lo + hi) / 2.0, scale, wide, room);
  }

  lemma RoomLeft(margin: real, size: real, off: real)
    requires var room := (1.0 - 2.0 * margin) * size; -room <= 2.0 * off <= room
    ensures margin * size <= size / 2.0 + off <= (1.0 - margin) * size
    ensures margin * size <= size / 2.0 - off <= (1.0 - margin) * size
  {
    assert (1.0 - 2.0 * margin) * size == size - 2.0 * (margin * size);
    assert (1.0 - margin) * size == size - margin * size;
  }

  lemma Quotient(scale: real, room: real, wide: real)
    requires wide > 0.0 && scale <= room / wide
    ensures scale * wide <= room
  {
    assert room / wide * wide == room;
    MulMonotone(scale, room / wide, wide);
  }

  lemma ScaledWithin(e: real, scale: real, wide: real, room: real)
    requires scale >= 0.0 && -wide <= 2.0 * e <= wide && scale * wide <= room
    ensures -room <= 2.0 * (e * scale) <= room
  {
    MulMonotone(2.0 * e, wide, scale);
    MulMonotone(-(2.0 * e), wide, scale);
  }

  lemma QuotientSign(n: real, d: real)
    requires n >= 0.0 && d > 0.0
    ensures n / d >= 0.0
  {
  }

  lemma RoomSign(margin: real, size: real)
    requires margin < 0.5 && size >= 0.0
    ensures (1.0 - 2.0 * margin) * size >= 0.0
  {
    ProductSign(size, 1.0 - 2.0 * margin);
  }

  predicate WithinRoom(off: real, size: nat, margin: real) {
    -((1.0 - 2.0 * margin) * (size as real)) <= 2.0 * off <= (1.0 - 2.0 * margin) * (size as real)
  }

  lemma FitRoom(b: Bounds, w: nat, h: nat, margin: real, s: real, t: real, f: Frame)
    requires 0.0 <= margin < 0.5 && InBounds(b, s, t) && f == Fit(b, w, h, margin)
    ensures WithinRoom((s - f.cs) * f.scale, w, margin) && WithinRoom((t - f.ct) * f.scale, h, margin)
  {
    var across, down := Wide(b.smin, b.smax), Wide(b.tmin, b.tmax);
    ScaleSign(w, margin, across);
    ScaleSign(h, margin, down);
    hide ScaleFor;
    AxisFramed(b.smin, b.smax, s, w, margin, across, f.scale);
    AxisFramed(b.tmin, b.tmax, t, h, margin, down, f.scale);
  }

  // Everything within the bounds lands inside the margin, on both axes.
  lemma InsideMargin(b: Bounds, w: nat, h: nat, margin: real, s: real, t: real)
    requires 0.0 <= margin < 0.5 && InBounds(b, s, t)
    ensures var (px, py) := ToPx(Fit(b, w, h, margin), s, t);
      && margin * (w as real) <= px <= (1.0 - margin) * (w as real)
      && margin * (h as real) <= py <= (1.0 - margin) * (h as real)
  {
    var f := Fit(b, w, h, margin);
    FitRoom(b, w, h, margin, s, t, f);
    assert f.w == w && f.h == h;
    hide Fit, InBounds;
    RoomLeft(margin, w as real, (s - f.cs) * f.scale);
    RoomLeft(margin, h as real, (t - f.ct) * f.scale);
  }

  lemma ScaleSign(size: nat, margin: real, wide: real)
    requires margin < 0.5 && wide > 0.0
    ensures ScaleFor(size, margin, wide) >= 0.0
  {
    RoomSign(margin, size as real);
    QuotientSign((1.0 - 2.0 * margin) * (size as real), wide);
  }

  // One scale serves both axes: a step on the screen plane becomes the same step in
  // pixels times the scale, rightwards for s and upwards for t.
  lemma UniformScale(f: Frame, s: real, t: real, s2: real, t2: real)
    ensures var (x, y) := ToPx(f, s, t); var (x2, y2) := ToPx(f, s2, t2);
      x2 - x == f.scale * (s2 - s) && y - y2 == f.scale * (t2 - t)
  {
  }
}
