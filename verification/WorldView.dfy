// What a picture shows of the mesh in its own space: the frame it is fitted to, and at each
// pixel the face nearest to the viewer (calibration/viz.py:41-52, 78-128).
module WorldView {
  import opened LinearAlgebra
  import opened Rasterizer

  // A coordinate of the mesh's space, as rightwards, upwards or towards the viewer.
  type Axis = V3 -> real

  // ---- The frame ------------------------------------------------------------------------------

  // The larger of an extent and 1e-9.
  function AtLeastTiny(x: real): real {
    if x > 0.000000001 then x else 0.000000001
  }

  // The middle of the bounds is the middle of the image, the bounds fit into what the margin
  // leaves of both sides, and fill one of them.
  ghost predicate Fitted(b: Bounds, w: nat, h: nat, margin: real, fr: Frame) {
    && fr.w == w && fr.h == h && 2.0 * fr.cs == b.smin + b.smax && 2.0 * fr.ct == b.tmin + b.tmax
    && fr.scale * AtLeastTiny(b.smax - b.smin) <= (1.0 - 2.0 * margin) * (w as real)
    && fr.scale * AtLeastTiny(b.tmax - b.tmin) <= (1.0 - 2.0 * margin) * (h as real)
    && (|| fr.scale * AtLeastTiny(b.smax - b.smin) == (1.0 - 2.0 * margin) * (w as real)
        || fr.scale * AtLeastTiny(b.tmax - b.tmin) == (1.0 - 2.0 * margin) * (h as real))
  }

  // The smallest bounds that hold every vertex.
  ghost predicate Tight(b: Bounds, vertices: seq<V3>, right: Axis, up: Axis) {
    && (forall v :: v in vertices ==> b.smin <= right(v) <= b.smax && b.tmin <= up(v) <= b.tmax)
    && (exists v :: v in vertices && right(v) == b.smin) && (exists v :: v in vertices && right(v) == b.smax)
    && (exists v :: v in vertices && up(v) == b.tmin) && (exists v :: v in vertices && up(v) == b.tmax)
  }

  lemma QuotientTimes(n: real, d: real)
    requires d > 0.0
    ensures n / d * d == n
  {
  }

  lemma ScaleLess(s: real, n: real, d: real)
    requires d > 0.0 && s <= n / d
    ensures s * d <= n
  {
    QuotientTimes(n, d);
    MulMonotone(s, n / d, d);
  }

  // Fit centres the bounds, and fills one axis of the frame.
  lemma FitFills(b: Bounds, w: nat, h: nat, margin: real)
    ensures Fitted(b, w, h, margin, Fit(b, w, h, margin))
  {
    var across, down := AtLeastTiny(b.smax - b.smin), AtLeastTiny(b.tmax - b.tmin);
    assert Wide(b.smin, b.smax) == across && Wide(b.tmin, b.tmax) == down;
    var m, n, f := (1.0 - 2.0 * margin) * (w as real), (1.0 - 2.0 * margin) * (h as real), Fit(b, w, h, margin);
    assert f.scale == if m / across <= n / down then m / across else n / down;
    hide Fit, AtLeastTiny, Wide;
    ScaleLess(f.scale, m, across);
    ScaleLess(f.scale, n, down);
    QuotientTimes(m, across);
    QuotientTimes(n, down);
  }

  // ---- The faces over a pixel -----------------------------------------------------------------

  // A point of the closed face.
  ghost predicate OnFace(p: V3, u: V3, v: V3, w: V3) {
    exists a, b, c :: a >= 0.0 && b >= 0.0 && c >= 0.0 && a + b + c == 1.0 && p == Combine(a, u, b, v, c, w)
  }

  // Twice the area the viewer sees of a face, with its sign.
  function Seen(u: V3, v: V3, w: V3, right: Axis, up: Axis): real {
    (right(v) - right(u)) * (up(w) - up(u)) - (right(w) - right(u)) * (up(v) - up(u))
  }

  // The point lies behind the middle of pixel (x, y): x grows rightwards and y downwards.
  predicate Behind(p: V3, fr: Frame, right: Axis, up: Axis, x: int, y: int) {
    && (fr.w as real) / 2.0 + (right(p) - fr.cs) * fr.scale == x as real + 0.5
    && (fr.h as real) / 2.0 - (up(p) - fr.ct) * fr.scale == y as real + 0.5
  }

  // A point of face f, which is not seen edge-on, behind the middle of the pixel.
  ghost predicate Covers(vertices: seq<V3>, f: Face, fr: Frame, right: Axis, up: Axis, x: int, y: int, p: V3)
    requires Indexes(f, |vertices|)
  {
    var u, v, w := vertices[f.i0], vertices[f.i1], vertices[f.i2];
    fr.scale != 0.0 && Seen(u, v, w, right, up) != 0.0 && OnFace(p, u, v, w) && Behind(p, fr, right, up, x, y)
  }

  // Face k is the first of those with a point nearest to the viewer behind the pixel, p.
  ghost predicate Nearest(vertices: seq<V3>, faces: seq<Face>, fr: Frame, right: Axis, up: Axis, toward: Axis,
                          x: int, y: int, k: int, p: V3)
    requires WellIndexed(faces, |vertices|) && 0 <= k < |faces|
  {
    && Covers(vertices, faces[k], fr, right, up, x, y, p)
    && (forall j, q :: 0 <= j < |faces| && Covers(vertices, faces[j], fr, right, up, x, y, q) ==>
      toward(q) <= toward(p))
    && forall j, q :: 0 <= j < k && Covers(vertices, faces[j], fr, right, up, x, y, q) ==> toward(q) < toward(p)
  }

  // The pixel shows the nearest face, or white where there is none.
  ghost predicate Shows(vertices: seq<V3>, faces: seq<Face>, colours: seq<Colour>, fr: Frame, right: Axis, up: Axis,
                        toward: Axis, x: int, y: int, depth: Depth, colour: Colour)
    requires WellIndexed(faces, |vertices|) && |faces| == |colours|
  {
    match depth
    case Infinite =>
      && colour == Colour(255, 255, 255)
      && forall k, p :: 0 <= k < |faces| ==> !Covers(vertices, faces[k], fr, right, up, x, y, p)
    case At(d) =>
      exists k, p :: 0 <= k < |faces| && Nearest(vertices, faces, fr, right, up, toward, x, y, k, p)
        && toward(p) == -d && colour == colours[k]
  }

  // ---- A projected face is the face it shows --------------------------------------------------

  ghost predicate LinearAxis(axis: Axis) {
    forall a, u, b, v, c, w :: axis(Combine(a, u, b, v, c, w)) == a * axis(u) + b * axis(v) + c * axis(w)
  }

  // points hold the vertices as the frame places them.
  ghost predicate PlacedBy(points: seq<Point>, vertices: seq<V3>, fr: Frame, right: Axis, up: Axis, toward: Axis) {
    && |points| == |vertices|
    && forall i :: 0 <= i < |vertices| ==> PlacedAt(points[i], vertices[i], fr, right, up, toward)
  }

  predicate PlacedAt(p: Point, v: V3, fr: Frame, right: Axis, up: Axis, toward: Axis) {
    && p.x == (fr.w as real) / 2.0 + (right(v) - fr.cs) * fr.scale
    && p.y == (fr.h as real) / 2.0 - (up(v) - fr.ct) * fr.scale
    && p.d == -toward(v)
  }

  // One coordinate of a blend, scaled and moved.
  lemma BlendMoved(a: real, b: real, c: real, x: real, y: real, z: real, g: real, k: real, o: real, m: real)
    requires a + b + c == 1.0 && g == a * x + b * y + c * z
    ensures o + (g - m) * k == a * (o + (x - m) * k) + b * (o + (y - m) * k) + c * (o + (z - m) * k)
  {
    assert a * (o + (x - m) * k) == a * o + (a * x - a * m) * k;
    assert b * (o + (y - m) * k) == b * o + (b * y - b * m) * k;
    assert c * (o + (z - m) * k) == c * o + (c * z - c * m) * k;
    var n := a + b + c;
    assert n * o == a * o + b * o + c * o && n * m == a * m + b * m + c * m;
  }

  lemma AreaPlaced(ux: real, uy: real, vx: real, vy: real, wx: real, wy: real, k: real, o: real, e: real, cs: real,
                   ct: real, p: Point, q: Point, r: Point, seen: real)
    requires p.x == o + (ux - cs) * k && q.x == o + (vx - cs) * k && r.x == o + (wx - cs) * k
    requires p.y == e - (uy - ct) * k && q.y == e - (vy - ct) * k && r.y == e - (wy - ct) * k
    requires seen == (vx - ux) * (wy - uy) - (wx - ux) * (vy - uy)
    ensures Area(p, q, r) == -(k * k * seen)
  {
    var a, b, c, d := q.y - r.y, p.x - r.x, r.x - q.x, p.y - r.y;
    assert a == (wy - vy) * k && b == (ux - wx) * k && c == (wx - vx) * k && d == (wy - uy) * k;
    assert a * b == k * k * ((wy - vy) * (ux - wx)) && c * d == k * k * ((wx - vx) * (wy - uy));
    assert (wy - vy) * (ux - wx) + (wx - vx) * (wy - uy) == -seen;
  }

  lemma PlacedArea(u: V3, v: V3, w: V3, p: Point, q: Point, r: Point, fr: Frame, right: Axis, up: Axis, toward: Axis)
    requires PlacedAt(p, u, fr, right, up, toward) && PlacedAt(q, v, fr, right, up, toward)
    requires PlacedAt(r, w, fr, right, up, toward)
    ensures Area(p, q, r) != 0.0 <==> fr.scale != 0.0 && Seen(u, v, w, right, up) != 0.0
  {
    var seen, k := Seen(u, v, w, right, up), fr.scale;
    AreaPlaced(right(u), up(u), right(v), up(v), right(w), up(w), k, (fr.w as real) / 2.0, (fr.h as real) / 2.0, fr.cs,
               fr.ct, p, q, r, seen);
    hide Area, Seen;
    SquareTimes(k, seen);
  }

  lemma SquareTimes(k: real, s: real)
    ensures k * k * s == 0.0 <==> k == 0.0 || s == 0.0
  {
    ProductZero(k, k, k * k);
    ProductZero(k * k, s, k * k * s);
  }

  // One axis of it: a blend of three placed coordinates is the placed blend.
  lemma AxisPlaced(a: real, b: real, c: real, x: real, y: real, z: real, g: real, k: real, o: real, m: real, p: real,
                   q: real, r: real)
    requires a + b + c == 1.0 && g == a * x + b * y + c * z
    requires p == o + (x - m) * k && q == o + (y - m) * k && r == o + (z - m) * k
    ensures o + (g - m) * k == a * p + b * q + c * r
  {
    BlendMoved(a, b, c, x, y, z, g, k, o, m);
  }

  lemma AxisDropped(a: real, b: real, c: real, x: real, y: real, z: real, g: real, k: real, o: real, m: real, p: real,
                    q: real, r: real)
    requires a + b + c == 1.0 && g == a * x + b * y + c * z
    requires p == o - (x - m) * k && q == o - (y - m) * k && r == o - (z - m) * k
    ensures o - (g - m) * k == a * p + b * q + c * r
  {
    Negated(x - m, k);
    Negated(y - m, k);
    Negated(z - m, k);
    Negated(g - m, k);
    AxisPlaced(a, b, c, x, y, z, g, -k, o, m, p, q, r);
  }

  // The blend with these weights is of the vertices too.
  ghost predicate BlendOf(u: V3, v: V3, w: V3, axis: Axis, a: real, b: real, c: real, at: V3) {
    axis(at) == a * axis(u) + b * axis(v) + c * axis(w)
  }

  lemma PlacedX(u: V3, v: V3, w: V3, p: Point, q: Point, r: Point, fr: Frame, right: Axis, up: Axis, toward: Axis,
                a: real, b: real, c: real, at: V3)
    requires PlacedAt(p, u, fr, right, up, toward) && PlacedAt(q, v, fr, right, up, toward)
    requires PlacedAt(r, w, fr, right, up, toward) && a + b + c == 1.0 && BlendOf(u, v, w, right, a, b, c, at)
    ensures (fr.w as real) / 2.0 + (right(at) - fr.cs) * fr.scale == a * p.x + b * q.x + c * r.x
  {
    AxisPlaced(a, b, c, right(u), right(v), right(w), right(at), fr.scale, (fr.w as real) / 2.0, fr.cs, p.x, q.x, r.x);
  }

  lemma PlacedY(u: V3, v: V3, w: V3, p: Point, q: Point, r: Point, fr: Frame, right: Axis, up: Axis, toward: Axis,
                a: real, b: real, c: real, at: V3)
    requires PlacedAt(p, u, fr, right, up, toward) && PlacedAt(q, v, fr, right, up, toward)
    requires PlacedAt(r, w, fr, right, up, toward) && a + b + c == 1.0 && BlendOf(u, v, w, up, a, b, c, at)
    ensures (fr.h as real) / 2.0 - (up(at) - fr.ct) * fr.scale == a * p.y + b * q.y + c * r.y
  {
    AxisDropped(a, b, c, up(u), up(v), up(w), up(at), fr.scale, (fr.h as real) / 2.0, fr.ct, p.y, q.y, r.y);
  }

  lemma PlacedD(u: V3, v: V3, w: V3, p: Point, q: Point, r: Point, fr: Frame, right: Axis, up: Axis, toward: Axis,
                a: real, b: real, c: real, at: V3)
    requires PlacedAt(p, u, fr, right, up, toward) && PlacedAt(q, v, fr, right, up, toward)
    requires PlacedAt(r, w, fr, right, up, toward) && BlendOf(u, v, w, toward, a, b, c, at)
    ensures a * p.d + b * q.d + c * r.d == -toward(at)
  {
    Negated(a, toward(u));
    Negated(b, toward(v));
    Negated(c, toward(w));
  }

  // Weights put a point of the face behind the pixel exactly where they blend its corners there.
  lemma BlendBehind(u: V3, v: V3, w: V3, p: Point, q: Point, r: Point, fr: Frame, right: Axis, up: Axis, toward: Axis,
                    a: real, b: real, c: real, x: int, y: int, at: V3)
    requires PlacedAt(p, u, fr, right, up, toward) && PlacedAt(q, v, fr, right, up, toward)
    requires PlacedAt(r, w, fr, right, up, toward) && a >= 0.0 && b >= 0.0 && c >= 0.0 && a + b + c == 1.0
    requires BlendOf(u, v, w, right, a, b, c, at) && BlendOf(u, v, w, up, a, b, c, at)
    requires BlendOf(u, v, w, toward, a, b, c, at)
    ensures Behind(at, fr, right, up, x, y) <==>
      Blend(p, q, r, Centre(x), Centre(y), -toward(at), a, b, c)
    ensures forall z :: Blend(p, q, r, Centre(x), Centre(y), z, a, b, c) ==> z == -toward(at)
  {
    hide PlacedAt, BlendOf;
    PlacedX(u, v, w, p, q, r, fr, right, up, toward, a, b, c, at);
    PlacedY(u, v, w, p, q, r, fr, right, up, toward, a, b, c, at);
    PlacedD(u, v, w, p, q, r, fr, right, up, toward, a, b, c, at);
  }

  lemma BlendsOf(u: V3, v: V3, w: V3, axis: Axis, a: real, b: real, c: real)
    requires LinearAxis(axis)
    ensures BlendOf(u, v, w, axis, a, b, c, Combine(a, u, b, v, c, w))
  {
    hide Combine;
  }

  lemma Negated(x: real, k: real)
    ensures x * -k == -(x * k)
  {
  }

  // The renderer's test finds a face at a pixel exactly where a point of it is behind the pixel.
  lemma HitCovers(points: seq<Point>, vertices: seq<V3>, f: Face, fr: Frame, right: Axis, up: Axis, toward: Axis,
                  x: int, y: int, z: real) returns (at: V3)
    requires PlacedBy(points, vertices, fr, right, up, toward) && Indexes(f, |vertices|)
    requires LinearAxis(right) && LinearAxis(up) && LinearAxis(toward) && FaceHits(points, f, x, y, z)
    ensures Covers(vertices, f, fr, right, up, x, y, at) && toward(at) == -z
  {
    hide Area, Seen, Combine, Behind, PlacedAt, Centre, Blend, LinearAxis;
    var u, v, w, p, q, r := vertices[f.i0], vertices[f.i1], vertices[f.i2], points[f.i0], points[f.i1], points[f.i2];
    var a, b, c :| Blend(p, q, r, Centre(x), Centre(y), z, a, b, c);
    BlendWeights(p, q, r, Centre(x), Centre(y), z, a, b, c);
    at := Combine(a, u, b, v, c, w);
    PlacedArea(u, v, w, p, q, r, fr, right, up, toward);
    BlendsOf(u, v, w, right, a, b, c);
    BlendsOf(u, v, w, up, a, b, c);
    BlendsOf(u, v, w, toward, a, b, c);
    BlendBehind(u, v, w, p, q, r, fr, right, up, toward, a, b, c, x, y, at);
  }

  lemma BlendWeights(p: Point, q: Point, r: Point, gx: real, gy: real, z: real, a: real, b: real, c: real)
    requires Blend(p, q, r, gx, gy, z, a, b, c)
    ensures a >= 0.0 && b >= 0.0 && c >= 0.0 && a + b + c == 1.0
  {
  }

  lemma CoverHits(points: seq<Point>, vertices: seq<V3>, f: Face, fr: Frame, right: Axis, up: Axis, toward: Axis,
                  x: int, y: int, at: V3)
    requires PlacedBy(points, vertices, fr, right, up, toward) && Indexes(f, |vertices|)
    requires LinearAxis(right) && LinearAxis(up) && LinearAxis(toward)
    requires Covers(vertices, f, fr, right, up, x, y, at)
    ensures FaceHits(points, f, x, y, -toward(at))
  {
    hide Area, Seen, Combine, Behind, PlacedAt, Centre, Blend, LinearAxis;
    var u, v, w, p, q, r := vertices[f.i0], vertices[f.i1], vertices[f.i2], points[f.i0], points[f.i1], points[f.i2];
    var a, b, c :| a >= 0.0 && b >= 0.0 && c >= 0.0 && a + b + c == 1.0 && at == Combine(a, u, b, v, c, w);
    PlacedArea(u, v, w, p, q, r, fr, right, up, toward);
    BlendsOf(u, v, w, right, a, b, c);
    BlendsOf(u, v, w, up, a, b, c);
    BlendsOf(u, v, w, toward, a, b, c);
    BlendBehind(u, v, w, p, q, r, fr, right, up, toward, a, b, c, x, y, at);
  }

  // The brute-force picture of the placed vertices is what the mesh shows.
  lemma PictureShows(points: seq<Point>, vertices: seq<V3>, faces: seq<Face>, colours: seq<Colour>, fr: Frame,
                     right: Axis, up: Axis, toward: Axis, x: int, y: int, depth: Depth, colour: Colour)
    requires PlacedBy(points, vertices, fr, right, up, toward) && |points| == |vertices|
    requires WellIndexed(faces, |vertices|) && |faces| == |colours|
    requires LinearAxis(right) && LinearAxis(up) && LinearAxis(toward)
    requires PixelIs(points, faces, colours, |faces|, x, y, depth, colour)
    ensures Shows(vertices, faces, colours, fr, right, up, toward, x, y, depth, colour)
  {
    hide Covers, FaceHits, PlacedBy, LinearAxis;
    forall k, p | 0 <= k < |faces| && Covers(vertices, faces[k], fr, right, up, x, y, p)
      ensures HitBy(points, faces, k, x, y, -toward(p))
    {
      CoverHits(points, vertices, faces[k], fr, right, up, toward, x, y, p);
    }
    if depth.At? {
      var k :| FirstNearest(points, faces, |faces|, x, y, depth.d, k) && colour == colours[k];
      var p := HitCovers(points, vertices, faces[k], fr, right, up, toward, x, y, depth.d);
      forall j, q | 0 <= j < |faces| && Covers(vertices, faces[j], fr, right, up, x, y, q)
        ensures toward(q) <= toward(p) && (j < k ==> toward(q) < toward(p))
      {
        assert HitBy(points, faces, j, x, y, -toward(q));
      }
      assert Nearest(vertices, faces, fr, right, up, toward, x, y, k, p);
    } else {
      forall k, p | 0 <= k < |faces| ensures !Covers(vertices, faces[k], fr, right, up, x, y, p) {
        assert !HitBy(points, faces, k, x, y, -toward(p));
      }
    }
  }

  // ---- The two views --------------------------------------------------------------------------

  lemma AxesLinear()
    ensures LinearAxis((v: V3) => v.x) && LinearAxis((v: V3) => v.y) && LinearAxis((v: V3) => v.z)
  {
    var x, y, z := (v: V3) => v.x, (v: V3) => v.y, (v: V3) => v.z;
    forall a, u, b, v, c, w
      ensures x(Combine(a, u, b, v, c, w)) == a * x(u) + b * x(v) + c * x(w)
      ensures y(Combine(a, u, b, v, c, w)) == a * y(u) + b * y(v) + c * y(w)
      ensures z(Combine(a, u, b, v, c, w)) == a * z(u) + b * z(v) + c * z(w)
    {
    }
  }
}
