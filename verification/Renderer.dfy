// The whole renderer of the calibration report: two-sided flat shading and the picture of a
// mesh (calibration/viz.py:44-130).
module Renderer {
  import opened Wrappers
  import opened LinearAlgebra
  import opened Rasterizer
  import opened WorldView

  // ---- Shading ------------------------------------------------------------------------------

  datatype Base = Base(red: real, green: real, blue: real)

  // The light's direction, not yet of unit length.
  function LightOf(view: View): V3 {
    if view.Top? then V3(0.35, 0.85, 0.40) else V3(0.45, 0.55, 0.70)
  }

  function FaceNormal(vertices: seq<V3>, f: Face): V3
    requires Indexes(f, |vertices|)
  {
    Cross(Sub(vertices[f.i1], vertices[f.i0]), Sub(vertices[f.i2], vertices[f.i0]))
  }

  // A zero vector is left alone. The square sqrt of np.linalg.norm is a parameter.
  function Unit(sqrt: real -> real, v: V3): V3 {
    if Norm(sqrt, v) == 0.0 then v else Normalize(sqrt, v)
  }

  // abs: either side of the sheet is lit.
  function Shade(sqrt: real -> real, n: V3, light: V3, ambient: real): real {
    ambient + Abs(Dot(Unit(sqrt, n), Unit(sqrt, light))) * (1.0 - ambient)
  }

  // np.clip(.., 0, 255) and the cut to a byte.
  function Channel(v: real): nat {
    if v < 0.0 then 0 else if v > 255.0 then 255 else v.Floor
  }

  function Lit(base: real, shade: real): nat {
    Channel(base * shade)
  }

  function Paint(base: Base, shade: real): Colour {
    Colour(Lit(base.red, shade), Lit(base.green, shade), Lit(base.blue, shade))
  }

  function FaceColour(sqrt: real -> real, vertices: seq<V3>, f: Face, view: View, ambient: real, base: Base): Colour
    requires Indexes(f, |vertices|)
  {
    Paint(base, Shade(sqrt, FaceNormal(vertices, f), LightOf(view), ambient))
  }

  function ColoursOf(sqrt: real -> real, vertices: seq<V3>, faces: seq<Face>, view: View, ambient: real, base: Base)
    : (colours: seq<Colour>)
    requires WellIndexed(faces, |vertices|)
    ensures |colours| == |faces|
  {
    seq(|faces|, i requires 0 <= i < |faces| => FaceColour(sqrt, vertices, faces[i], view, ambient, base))
  }

  // ---- How light a face can be ----------------------------------------------------------

  lemma UnitLength(sqrt: real -> real, v: V3)
    requires IsSqrt(sqrt)
    ensures Dot(Unit(sqrt, v), Unit(sqrt, v)) == if Dot(v, v) == 0.0 then 0.0 else 1.0
  {
    hide Dot, Scale, Normalize;
    DotSelf(v);
    if Dot(v, v) == 0.0 {
      RootOfZero(Norm(sqrt, v));
    } else {
      NormalizeUnit(sqrt, v);
    }
  }

  lemma RootOfZero(n: real)
    requires Square(n) == 0.0
    ensures n == 0.0
  {
    SquareSign(n);
  }

  // The inequality of Cauchy and Schwarz.
  lemma DotBounded(a: V3, b: V3)
    ensures Dot(a, b) * Dot(a, b) <= Dot(a, a) * Dot(b, b)
  {
    hide Dot, Cross;
    CrossDotCross(a, b, a, b);
    DotSelf(Cross(a, b));
    DotSymmetric(a, b);
  }

  lemma AtMost(x: real, p: real, xp: real)
    requires x <= 1.0 && p >= 0.0 && xp == x * p
    ensures xp <= p
  {
    ProductSign(1.0 - x, p);
    assert (1.0 - x) * p == p - xp;
  }

  lemma SquareBelowOne(x: real, sq: real)
    requires sq == x * x && sq <= 1.0
    ensures Abs(x) <= 1.0
  {
    if x > 1.0 {
      ProductSign(x - 1.0, x);
    } else if x < -1.0 {
      ProductSign(-x - 1.0, -x);
    }
  }

  lemma ShadeKernel(x: real, sq: real, p: real, q: real, pq: real, ambient: real, lit: real)
    requires sq == x * x && pq == p * q && sq <= pq && 0.0 <= p <= 1.0 && 0.0 <= q <= 1.0 && 0.0 <= ambient <= 1.0
    requires lit == Abs(x) * (1.0 - ambient)
    ensures 0.0 <= lit <= 1.0 - ambient
  {
    AtMost(p, q, pq);
    SquareBelowOne(x, sq);
    AtMost(Abs(x), 1.0 - ambient, lit);
    ProductSign(Abs(x), 1.0 - ambient);
  }

  // Every face is at least as light as the ambient light and never lighter than its colour.
  lemma ShadeRange(sqrt: real -> real, n: V3, light: V3, ambient: real)
    requires IsSqrt(sqrt) && 0.0 <= ambient <= 1.0
    ensures ambient <= Shade(sqrt, n, light, ambient) <= 1.0
  {
    hide Dot, Unit, Abs, IsSqrt;
    var a, b := Unit(sqrt, n), Unit(sqrt, light);
    UnitLength(sqrt, n);
    UnitLength(sqrt, light);
    DotBounded(a, b);
    ShadeKernel(Dot(a, b), Dot(a, b) * Dot(a, b), Dot(a, a), Dot(b, b), Dot(a, a) * Dot(b, b), ambient,
                Abs(Dot(a, b)) * (1.0 - ambient));
  }

  // So a colour within the byte range is never clipped, and darkens by no more than the
  // ambient light allows.
  lemma ChannelRange(sqrt: real -> real, n: V3, light: V3, ambient: real, base: real)
    requires IsSqrt(sqrt) && 0.0 <= ambient <= 1.0 && 0.0 <= base <= 255.0
    ensures var shade := Shade(sqrt, n, light, ambient);
      && Lit(base, shade) == (base * shade).Floor
      && ambient * base - 1.0 < Lit(base, shade) as real <= base
  {
    hide Shade, Lit;
    ShadeRange(sqrt, n, light, ambient);
    var shade := Shade(sqrt, n, light, ambient);
    LitKernel(base, shade, ambient, base * shade);
  }

  lemma LitKernel(base: real, shade: real, ambient: real, v: real)
    requires 0.0 <= ambient <= shade <= 1.0 && 0.0 <= base <= 255.0 && v == base * shade
    ensures Lit(base, shade) == v.Floor && ambient * base - 1.0 < Lit(base, shade) as real <= base
  {
    ProductSign(base, shade - ambient);
    assert base * (shade - ambient) == v - ambient * base;
    AtMost(shade, base, v);
    ProductSign(ambient, base);
    ChannelKept(v, ambient * base, base);
  }

  lemma ChannelKept(v: real, low: real, high: real)
    requires 0.0 <= low <= v <= high <= 255.0
    ensures Channel(v) == v.Floor && low - 1.0 < Channel(v) as real <= high
  {
  }

  // ---- What the shade and the channels mean -----------------------------------------------

  // c is the cosine between the line of n and that of the light, either side counted; a face
  // without a normal has none.
  ghost predicate Cosine(c: real, n: V3, light: V3) {
    && 0.0 <= c <= 1.0 && (n == ZERO ==> c == 0.0)
    && c * c * (Dot(n, n) * Dot(light, light)) == Dot(n, light) * Dot(n, light)
  }

  // The byte a channel of the base colour is cut to at this shade.
  predicate Byte(base: real, shade: real, k: nat) {
    var v := base * shade;
    && k <= 255 && (v < 0.0 ==> k == 0) && (v > 255.0 ==> k == 255)
    && (0.0 <= v <= 255.0 ==> k as real <= v < k as real + 1.0)
  }

  // The colour of the flat face p q r: the base colour dimmed from full, where the light falls
  // along the normal, to the ambient share, where it grazes the face.
  ghost predicate Lambert(p: V3, q: V3, r: V3, light: V3, ambient: real, base: Base, colour: Colour) {
    exists c :: Cosine(c, Cross(Sub(q, p), Sub(r, p)), light) && Dimmed(base, ambient + c * (1.0 - ambient), colour)
  }

  predicate Dimmed(base: Base, shade: real, colour: Colour) {
    Byte(base.red, shade, colour.red) && Byte(base.green, shade, colour.green) && Byte(base.blue, shade, colour.blue)
  }

  lemma LitIsByte(base: real, shade: real)
    ensures Byte(base, shade, Lit(base, shade))
  {
  }

  // A vector is its unit vector times its length, the zero vector too.
  lemma UnitTimes(sqrt: real -> real, v: V3)
    requires IsSqrt(sqrt)
    ensures Scale(Norm(sqrt, v), Unit(sqrt, v)) == v && Square(Norm(sqrt, v)) == Dot(v, v)
  {
    hide Dot, Scale, Normalize;
    DotSelf(v);
    if Dot(v, v) == 0.0 {
      RootOfZero(Norm(sqrt, v));
      ZeroScaled(Norm(sqrt, v));
    } else {
      NormalizeUnit(sqrt, v);
    }
  }

  lemma ZeroScaled(k: real)
    ensures Scale(k, ZERO) == ZERO
  {
  }

  lemma CosineKernel(x: real, m: real, n: real, mm: real, nn: real, d: real)
    requires mm == m * m && nn == n * n && d == m * (n * x)
    ensures x * x * (mm * nn) == d * d
  {
  }

  lemma AbsTwice(x: real)
    ensures Abs(x) * Abs(x) == x * x
  {
  }

  lemma CosineIs(sqrt: real -> real, n: V3, light: V3)
    requires IsSqrt(sqrt)
    ensures Cosine(CosineOf(sqrt, n, light), n, light)
  {
    hide Dot, Scale, Unit, Norm, Abs, IsSqrt;
    var a, b, k, l := Unit(sqrt, n), Unit(sqrt, light), Norm(sqrt, n), Norm(sqrt, light);
    var x := Dot(a, b);
    UnitTimes(sqrt, n);
    UnitTimes(sqrt, light);
    DotScale(k, a, Scale(l, b));
    DotScale(l, b, a);
    CosineKernel(x, k, l, Dot(n, n), Dot(light, light), Dot(n, light));
    AbsTwice(x);
    CosineRange(sqrt, n, light, x);
    if n == ZERO {
      ZeroUnit(sqrt, light);
    }
  }

  lemma CosineRange(sqrt: real -> real, n: V3, light: V3, x: real)
    requires IsSqrt(sqrt) && x == Dot(Unit(sqrt, n), Unit(sqrt, light))
    ensures 0.0 <= Abs(x) <= 1.0
  {
    hide Dot, Unit, IsSqrt;
    var a, b := Unit(sqrt, n), Unit(sqrt, light);
    UnitLength(sqrt, n);
    UnitLength(sqrt, light);
    DotBounded(a, b);
    AtMost(Dot(a, a), Dot(b, b), Dot(a, a) * Dot(b, b));
    SquareBelowOne(x, x * x);
  }

  lemma ZeroUnit(sqrt: real -> real, light: V3)
    requires IsSqrt(sqrt)
    ensures Abs(Dot(Unit(sqrt, ZERO), Unit(sqrt, light))) == 0.0
  {
    hide Dot, Normalize;
    ZeroDots(Unit(sqrt, light));
    ZeroDots(ZERO);
    RootOfZero(Norm(sqrt, ZERO));
  }

  lemma ZeroDots(v: V3)
    ensures Dot(ZERO, v) == 0.0
  {
  }

  // The cosine the shade is computed from.
  function CosineOf(sqrt: real -> real, n: V3, light: V3): real {
    Abs(Dot(Unit(sqrt, n), Unit(sqrt, light)))
  }

  lemma ShadeIs(sqrt: real -> real, n: V3, light: V3, ambient: real)
    ensures Shade(sqrt, n, light, ambient) == ambient + CosineOf(sqrt, n, light) * (1.0 - ambient)
  {
    hide Abs, Dot, Unit;
  }

  lemma PaintDims(base: Base, shade: real)
    ensures Dimmed(base, shade, Paint(base, shade))
  {
    hide Lit, Byte;
    LitIsByte(base.red, shade);
    LitIsByte(base.green, shade);
    LitIsByte(base.blue, shade);
  }

  lemma LambertBy(p: V3, q: V3, r: V3, light: V3, ambient: real, base: Base, colour: Colour, c: real, shade: real)
    requires Cosine(c, Cross(Sub(q, p), Sub(r, p)), light)
    requires shade == ambient + c * (1.0 - ambient) && Dimmed(base, shade, colour)
    ensures Lambert(p, q, r, light, ambient, base, colour)
  {
    hide Cosine, Dimmed, Cross, Sub;
  }

  lemma ColourIsLambert(sqrt: real -> real, vertices: seq<V3>, f: Face, view: View, ambient: real, base: Base)
    requires IsSqrt(sqrt) && Indexes(f, |vertices|)
    ensures Lambert(vertices[f.i0], vertices[f.i1], vertices[f.i2], LightOf(view), ambient, base,
                    FaceColour(sqrt, vertices, f, view, ambient, base))
  {
    hide Cosine, Dimmed, Cross, Sub, CosineOf, Shade, Paint, LightOf, Lambert, IsSqrt;
    var n, light := FaceNormal(vertices, f), LightOf(view);
    var shade := Shade(sqrt, n, light, ambient);
    CosineIs(sqrt, n, light);
    ShadeIs(sqrt, n, light, ambient);
    PaintDims(base, shade);
    LambertBy(vertices[f.i0], vertices[f.i1], vertices[f.i2], light, ambient, base, Paint(base, shade),
              CosineOf(sqrt, n, light), shade);
  }

  lemma LightNonzero(view: View)
    ensures Dot(LightOf(view), LightOf(view)) > 0.0
  {
  }

  lemma AlongLight(n: V3, light: V3)
    requires Cross(n, light) == ZERO
    ensures Dot(n, light) * Dot(n, light) == Dot(n, n) * Dot(light, light)
  {
    hide Dot, Cross;
    CrossDotCross(n, light, n, light);
    DotSymmetric(n, light);
    ZeroDots(ZERO);
  }

  lemma CosineAlong(c: real, n: V3, light: V3)
    requires Cosine(c, n, light) && n != ZERO && Dot(light, light) > 0.0
    ensures Cross(n, light) == ZERO ==> c == 1.0
    ensures Dot(n, light) == 0.0 ==> c == 0.0
  {
    hide Dot, Cross;
    DotSelf(n);
    if Cross(n, light) == ZERO {
      AlongLight(n, light);
    }
    CosineEnds(c, Dot(n, n), Dot(light, light), Dot(n, light));
  }

  // Full light along the normal, the ambient share alone across it, in each view's own light.
  lemma ShadeEnds(sqrt: real -> real, n: V3, ambient: real, light: V3, view: View)
    requires IsSqrt(sqrt) && n != ZERO && !view.Other?
    requires light == if view.Top? then V3(0.35, 0.85, 0.40) else V3(0.45, 0.55, 0.70)
    ensures Cross(n, light) == ZERO ==> Shade(sqrt, n, LightOf(view), ambient) == 1.0
    ensures Dot(n, light) == 0.0 ==> Shade(sqrt, n, LightOf(view), ambient) == ambient
  {
    assert light == LightOf(view);
    LightNonzero(view);
    hide Dot, Cross, CosineOf, LightOf, Shade, IsSqrt, Cosine;
    CosineIs(sqrt, n, light);
    ShadeIs(sqrt, n, light, ambient);
    CosineAlong(CosineOf(sqrt, n, light), n, light);
  }

  lemma CosineEnds(c: real, nn: real, ll: real, d: real)
    requires 0.0 <= c <= 1.0 && nn > 0.0 && ll > 0.0 && c * c * (nn * ll) == d * d
    ensures d * d == nn * ll ==> c == 1.0
    ensures d == 0.0 ==> c == 0.0
  {
    var p := nn * ll;
    ProductPositive(nn, ll, p);
    if d * d == p {
      assert c * c == 1.0 by {
        assert c * c == (c * c * p) / p;
      }
      AtMost(c, c, c * c);
    }
    if d == 0.0 {
      ProductZero(c * c, p, c * c * p);
      ProductZero(c, c, c * c);
    }
  }

  // ---- The order of a face's corners ------------------------------------------------------

  lemma NormalFlipped(sqrt: real -> real, n: V3, light: V3, ambient: real)
    ensures Shade(sqrt, Neg(n), light, ambient) == Shade(sqrt, n, light, ambient)
  {
    hide Dot, Scale;
    var m, b := Neg(n), Unit(sqrt, light);
    DotNeg(m, n);
    DotSymmetric(m, n);
    DotNeg(n, n);
    if Norm(sqrt, n) != 0.0 {
      ScaleNeg(1.0 / Norm(sqrt, n), n);
    }
    assert Unit(sqrt, m) == Neg(Unit(sqrt, n));
    DotNeg(b, Unit(sqrt, n));
    DotSymmetric(b, Unit(sqrt, n));
    DotSymmetric(b, Unit(sqrt, m));
  }

  lemma ScaleNeg(k: real, a: V3)
    ensures Scale(k, Neg(a)) == Neg(Scale(k, a))
  {
  }

  // Two corners exchanged turn the normal round.
  lemma NormalSwapped(p: V3, q: V3, r: V3)
    ensures Cross(Sub(r, p), Sub(q, p)) == Neg(Cross(Sub(q, p), Sub(r, p)))
    ensures Cross(Sub(p, q), Sub(r, q)) == Neg(Cross(Sub(q, p), Sub(r, p)))
  {
    CrossAntisymmetric(Sub(r, p), Sub(q, p));
    BaseMoved(Sub(q, p), Sub(r, p), Sub(p, q), Sub(r, q));
    hide Cross;
  }

  lemma BaseMoved(d: V3, e: V3, d': V3, e': V3)
    requires d' == Neg(d) && e' == Sub(e, d)
    ensures Cross(d', e') == Neg(Cross(d, e))
  {
    BaseEntry(d.y, d.z, e.y, e.z, d'.y, d'.z, e'.y, e'.z);
    BaseEntry(d.z, d.x, e.z, e.x, d'.z, d'.x, e'.z, e'.x);
    BaseEntry(d.x, d.y, e.x, e.y, d'.x, d'.y, e'.x, e'.y);
  }

  lemma BaseEntry(p: real, q: real, r: real, s: real, p': real, q': real, r': real, s': real)
    requires p' == -p && q' == -q && r' == r - p && s' == s - q
    ensures p' * s' - q' * r' == -(p * s - q * r)
  {
  }

  lemma NormalReordered(vertices: seq<V3>, f: Face, g: Face)
    requires Indexes(f, |vertices|) && Indexes(g, |vertices|) && SameCorners(f, g)
    ensures var n := FaceNormal(vertices, f); FaceNormal(vertices, g) == n || FaceNormal(vertices, g) == Neg(n)
  {
    hide Cross, Sub;
    var p, q, r := vertices[f.i0], vertices[f.i1], vertices[f.i2];
    SixOrders(f.i0, f.i1, f.i2, g.i0, g.i1, g.i2);
    NormalSwapped(p, q, r);
    NormalSwapped(q, r, p);
    NormalSwapped(r, p, q);
    NormalSwapped(q, p, r);
    NormalSwapped(p, r, q);
    NormalSwapped(r, q, p);
  }

  // A face has one colour, whichever way round its corners are listed.
  lemma ColourReordered(sqrt: real -> real, vertices: seq<V3>, f: Face, g: Face, view: View, ambient: real, base: Base)
    requires Indexes(f, |vertices|) && Indexes(g, |vertices|) && SameCorners(f, g)
    ensures FaceColour(sqrt, vertices, g, view, ambient, base) == FaceColour(sqrt, vertices, f, view, ambient, base)
  {
    hide FaceNormal, Shade, Paint;
    NormalReordered(vertices, f, g);
    NormalFlipped(sqrt, FaceNormal(vertices, f), LightOf(view), ambient);
  }

  predicate FacesWithin(faces: seq<Face>, others: seq<Face>) {
    forall i | 0 <= i < |faces| :: exists j | 0 <= j < |others| :: SameCorners(faces[i], others[j])
  }

  lemma ColouredWithin(sqrt: real -> real, vertices: seq<V3>, faces: seq<Face>, others: seq<Face>, view: View,
                       ambient: real, base: Base)
    requires WellIndexed(faces, |vertices|) && WellIndexed(others, |vertices|) && FacesWithin(faces, others)
    ensures Within(faces, ColoursOf(sqrt, vertices, faces, view, ambient, base),
                   others, ColoursOf(sqrt, vertices, others, view, ambient, base))
  {
    hide FaceColour, SameCorners;
    var colours := ColoursOf(sqrt, vertices, faces, view, ambient, base);
    var painted := ColoursOf(sqrt, vertices, others, view, ambient, base);
    forall i | 0 <= i < |faces|
      ensures Matched(faces, colours, others, painted, i)
    {
      var j :| 0 <= j < |others| && SameCorners(faces[i], others[j]);
      ColourReordered(sqrt, vertices, faces[i], others[j], view, ambient, base);
      assert colours[i] == painted[j];
    }
  }

  // A mesh listed in another order, its faces in any winding, gives the same depth at every
  // pixel and the same colour wherever faces of two colours do not tie.
  lemma MeshOrderDoesNotMatter(sqrt: real -> real, vertices: seq<V3>, points: seq<Point>, faces: seq<Face>,
                               others: seq<Face>, view: View, ambient: real, base: Base, x: int, y: int,
                               depth: Depth, colour: Colour, depth': Depth, colour': Colour)
    requires |points| == |vertices| && WellIndexed(faces, |vertices|) && WellIndexed(others, |vertices|)
    requires FacesWithin(faces, others) && FacesWithin(others, faces)
    requires PixelIs(points, faces, ColoursOf(sqrt, vertices, faces, view, ambient, base), |faces|, x, y, depth, colour)
    requires PixelIs(points, others, ColoursOf(sqrt, vertices, others, view, ambient, base), |others|, x, y,
                     depth', colour')
    ensures depth == depth'
    ensures NoColourTie(points, faces, ColoursOf(sqrt, vertices, faces, view, ambient, base), x, y, depth) ==>
      colour == colour'
  {
    hide Within, FacesWithin, PixelIs, NoColourTie, WellIndexed, ColoursOf;
    ColouredWithin(sqrt, vertices, faces, others, view, ambient, base);
    ColouredWithin(sqrt, vertices, others, faces, view, ambient, base);
    OrderDoesNotMatter(points, faces, ColoursOf(sqrt, vertices, faces, view, ambient, base),
                       others, ColoursOf(sqrt, vertices, others, view, ambient, base),
                       x, y, depth, colour, depth', colour');
  }

  // ---- The whole renderer --------------------------------------------------------------

  datatype Error = UnknownView | EmptyMesh

  datatype Rendering = Rendering(frame: Frame, img: array2<Colour>, zbuf: array2<Depth>)

  // The frame is fitted to the bounds given, or else to the smallest that hold the mesh.
  ghost predicate Framed(bounds: Option<Bounds>, vertices: seq<V3>, w: nat, h: nat, margin: real, fr: Frame,
                         right: Axis, up: Axis) {
    if bounds.Some? then Fitted(bounds.value, w, h, margin, fr)
    else exists b :: Tight(b, vertices, right, up) && Fitted(b, w, h, margin, fr)
  }

  // Every pixel shows the nearest face in the colour its light gives it.
  ghost predicate ShowsMesh(sqrt: real -> real, vertices: seq<V3>, faces: seq<Face>, light: V3, ambient: real,
                            base: Base, r: Rendering, right: Axis, up: Axis, toward: Axis)
    requires WellIndexed(faces, |vertices|)
    reads r.img, r.zbuf
  {
    exists colours | |colours| == |faces|
      && (IsSqrt(sqrt) ==> Coloured(vertices, faces, light, ambient, base, colours)) ::
      ShowsFaces(vertices, faces, colours, r, right, up, toward)
  }

  ghost predicate ShowsFaces(vertices: seq<V3>, faces: seq<Face>, colours: seq<Colour>, r: Rendering, right: Axis,
                             up: Axis, toward: Axis)
    requires WellIndexed(faces, |vertices|) && |colours| == |faces|
    reads r.img, r.zbuf
  {
    && r.zbuf.Length0 == r.img.Length0 && r.zbuf.Length1 == r.img.Length1
    && forall y, x :: 0 <= y < r.img.Length0 && 0 <= x < r.img.Length1 ==>
      Shows(vertices, faces, colours, r.frame, right, up, toward, x, y, r.zbuf[y, x], r.img[y, x])
  }

  ghost predicate Coloured(vertices: seq<V3>, faces: seq<Face>, light: V3, ambient: real, base: Base,
                           colours: seq<Colour>)
    requires WellIndexed(faces, |vertices|) && |colours| == |faces|
  {
    forall k :: 0 <= k < |faces| ==>
      Lambert(vertices[faces[k].i0], vertices[faces[k].i1], vertices[faces[k].i2], light, ambient, base, colours[k])
  }

  // From above: x to the right, z up, and the greatest height y nearest.
  ghost predicate TopPicture(sqrt: real -> real, vertices: seq<V3>, faces: seq<Face>, w: nat, h: nat, margin: real,
                             bounds: Option<Bounds>, ambient: real, base: Base, r: Rendering)
    requires WellIndexed(faces, |vertices|)
    reads r.img, r.zbuf
  {
    && Framed(bounds, vertices, w, h, margin, r.frame, (v: V3) => v.x, (v: V3) => v.z)
    && ShowsMesh(sqrt, vertices, faces, V3(0.35, 0.85, 0.40), ambient, base, r, (v: V3) => v.x, (v: V3) => v.z,
                 (v: V3) => v.y)
  }

  // From the side: x to the right, y up, and the greatest z nearest.
  ghost predicate SidePicture(sqrt: real -> real, vertices: seq<V3>, faces: seq<Face>, w: nat, h: nat, margin: real,
                              bounds: Option<Bounds>, ambient: real, base: Base, r: Rendering)
    requires WellIndexed(faces, |vertices|)
    reads r.img, r.zbuf
  {
    && Framed(bounds, vertices, w, h, margin, r.frame, (v: V3) => v.x, (v: V3) => v.y)
    && ShowsMesh(sqrt, vertices, faces, V3(0.45, 0.55, 0.70), ambient, base, r, (v: V3) => v.x, (v: V3) => v.y,
                 (v: V3) => v.z)
  }

  // The drawn pixels in the renderer's own terms, which MeshOrderDoesNotMatter compares.
  ghost predicate PixelsOf(sqrt: real -> real, vertices: seq<V3>, faces: seq<Face>, view: View, ambient: real,
                           base: Base, r: Rendering)
    requires WellIndexed(faces, |vertices|) && !view.Other?
    reads r.img, r.zbuf
  {
    Pictured(Placed(ProjectAll(vertices, view), r.frame), faces,
             ColoursOf(sqrt, vertices, faces, view, ambient, base), |faces|, r.img, r.zbuf)
  }

  // The view looks along these axes.
  ghost predicate Looks(view: View, right: Axis, up: Axis, toward: Axis)
    requires !view.Other?
  {
    forall v :: Project(v, view) == OnScreen(right(v), up(v), -toward(v))
  }

  // One coordinate's least and greatest value.
  lemma AxisTight(vertices: seq<V3>, values: seq<real>, axis: Axis)
    requires vertices != [] && |values| == |vertices|
    requires forall i :: 0 <= i < |vertices| ==> values[i] == axis(vertices[i])
    ensures forall v :: v in vertices ==> Least(values) <= axis(v) <= Greatest(values)
    ensures exists v :: v in vertices && axis(v) == Least(values)
    ensures exists v :: v in vertices && axis(v) == Greatest(values)
  {
    hide Least, Greatest;
    forall v | v in vertices ensures axis(v) in values {
      var i :| 0 <= i < |vertices| && vertices[i] == v;
      assert values[i] == axis(v);
    }
    var i :| 0 <= i < |values| && values[i] == Least(values);
    var j :| 0 <= j < |values| && values[j] == Greatest(values);
    assert axis(vertices[i]) == Least(values) && axis(vertices[j]) == Greatest(values);
  }

  lemma ExtentTight(vertices: seq<V3>, view: View, right: Axis, up: Axis, toward: Axis)
    requires vertices != [] && !view.Other? && Looks(view, right, up, toward)
    ensures Tight(Extent(ProjectAll(vertices, view)), vertices, right, up)
  {
    hide Project, Least, Greatest;
    var screen := ProjectAll(vertices, view);
    var ss := seq(|screen|, i requires 0 <= i < |screen| => screen[i].s);
    var ts := seq(|screen|, i requires 0 <= i < |screen| => screen[i].t);
    assert Extent(screen) == Bounds(Least(ss), Greatest(ss), Least(ts), Greatest(ts));
    AxisTight(vertices, ss, right);
    AxisTight(vertices, ts, up);
  }

  lemma FramedBy(bounds: Option<Bounds>, vertices: seq<V3>, view: View, w: nat, h: nat, margin: real, right: Axis,
                 up: Axis, toward: Axis)
    requires !view.Other? && (bounds.None? ==> vertices != []) && Looks(view, right, up, toward)
    ensures Framed(bounds, vertices, w, h, margin,
                   Fit(if bounds.Some? then bounds.value else Extent(ProjectAll(vertices, view)), w, h, margin),
                   right, up)
  {
    hide Fit, Fitted, Extent, Tight, Project, Looks;
    var b := if bounds.Some? then bounds.value else Extent(ProjectAll(vertices, view));
    FitFills(b, w, h, margin);
    if bounds.None? {
      ExtentTight(vertices, view, right, up, toward);
    }
  }

  lemma PlacedVertices(vertices: seq<V3>, view: View, fr: Frame, right: Axis, up: Axis, toward: Axis)
    requires !view.Other? && Looks(view, right, up, toward)
    ensures PlacedBy(Placed(ProjectAll(vertices, view), fr), vertices, fr, right, up, toward)
  {
    hide Project;
    forall i | 0 <= i < |vertices|
      ensures PlacedAt(Placed(ProjectAll(vertices, view), fr)[i], vertices[i], fr, right, up, toward)
    {
      assert ProjectAll(vertices, view)[i] == Project(vertices[i], view);
    }
  }

  lemma ColouredBy(sqrt: real -> real, vertices: seq<V3>, faces: seq<Face>, view: View, ambient: real, base: Base)
    requires IsSqrt(sqrt) && WellIndexed(faces, |vertices|)
    ensures Coloured(vertices, faces, LightOf(view), ambient, base,
                     ColoursOf(sqrt, vertices, faces, view, ambient, base))
  {
    hide Lambert, FaceColour, LightOf, IsSqrt;
    forall k | 0 <= k < |faces|
      ensures Lambert(vertices[faces[k].i0], vertices[faces[k].i1], vertices[faces[k].i2], LightOf(view), ambient, base,
                      ColoursOf(sqrt, vertices, faces, view, ambient, base)[k])
    {
      ColourIsLambert(sqrt, vertices, faces[k], view, ambient, base);
    }
  }

  lemma FacesShown(points: seq<Point>, vertices: seq<V3>, faces: seq<Face>, colours: seq<Colour>, r: Rendering,
                   right: Axis, up: Axis, toward: Axis)
    requires WellIndexed(faces, |vertices|) && |faces| == |colours| && |points| == |vertices|
    requires PlacedBy(points, vertices, r.frame, right, up, toward)
    requires LinearAxis(right) && LinearAxis(up) && LinearAxis(toward)
    requires Pictured(points, faces, colours, |faces|, r.img, r.zbuf)
    ensures ShowsFaces(vertices, faces, colours, r, right, up, toward)
  {
    hide Shows, PixelIs, LinearAxis, PlacedBy;
    forall y, x | 0 <= y < r.img.Length0 && 0 <= x < r.img.Length1
      ensures Shows(vertices, faces, colours, r.frame, right, up, toward, x, y, r.zbuf[y, x], r.img[y, x])
    {
      PictureShows(points, vertices, faces, colours, r.frame, right, up, toward, x, y, r.zbuf[y, x], r.img[y, x]);
    }
  }

  lemma MeshShown(sqrt: real -> real, vertices: seq<V3>, faces: seq<Face>, view: View, light: V3, ambient: real,
                  base: Base, r: Rendering, right: Axis, up: Axis, toward: Axis)
    requires WellIndexed(faces, |vertices|) && !view.Other? && light == LightOf(view)
    requires LinearAxis(right) && LinearAxis(up) && LinearAxis(toward) && Looks(view, right, up, toward)
    requires Pictured(Placed(ProjectAll(vertices, view), r.frame), faces,
                      ColoursOf(sqrt, vertices, faces, view, ambient, base), |faces|, r.img, r.zbuf)
    ensures ShowsMesh(sqrt, vertices, faces, light, ambient, base, r, right, up, toward)
  {
    hide Pictured, Coloured, LightOf, Looks, IsSqrt, LinearAxis, ShowsFaces, PlacedBy, ColoursOf, WellIndexed;
    var points := Placed(ProjectAll(vertices, view), r.frame);
    var colours := ColoursOf(sqrt, vertices, faces, view, ambient, base);
    PlacedVertices(vertices, view, r.frame, right, up, toward);
    if IsSqrt(sqrt) {
      ColouredBy(sqrt, vertices, faces, view, ambient, base);
    }
    FacesShown(points, vertices, faces, colours, r, right, up, toward);
  }

  lemma TopShown(sqrt: real -> real, vertices: seq<V3>, faces: seq<Face>, w: nat, h: nat, margin: real,
                 bounds: Option<Bounds>, ambient: real, base: Base, r: Rendering)
    requires WellIndexed(faces, |vertices|) && (bounds.None? ==> vertices != [])
    requires r.frame == Fit(if bounds.Some? then bounds.value else Extent(ProjectAll(vertices, Top)), w, h, margin)
    requires Pictured(Placed(ProjectAll(vertices, Top), r.frame), faces,
                      ColoursOf(sqrt, vertices, faces, Top, ambient, base), |faces|, r.img, r.zbuf)
    ensures TopPicture(sqrt, vertices, faces, w, h, margin, bounds, ambient, base, r)
  {
    assert Looks(Top, (v: V3) => v.x, (v: V3) => v.z, (v: V3) => v.y);
    assert LightOf(Top) == V3(0.35, 0.85, 0.40);
    hide ShowsMesh, Pictured, ColoursOf, Placed, ProjectAll, LinearAxis, Looks, Framed, Fit, Extent, LightOf,
      WellIndexed;
    AxesLinear();
    FramedBy(bounds, vertices, Top, w, h, margin, (v: V3) => v.x, (v: V3) => v.z, (v: V3) => v.y);
    MeshShown(sqrt, vertices, faces, Top, V3(0.35, 0.85, 0.40), ambient, base, r, (v: V3) => v.x, (v: V3) => v.z,
              (v: V3) => v.y);
  }

  lemma SideShown(sqrt: real -> real, vertices: seq<V3>, faces: seq<Face>, w: nat, h: nat, margin: real,
                  bounds: Option<Bounds>, ambient: real, base: Base, r: Rendering)
    requires WellIndexed(faces, |vertices|) && (bounds.None? ==> vertices != [])
    requires r.frame == Fit(if bounds.Some? then bounds.value else Extent(ProjectAll(vertices, Side)), w, h, margin)
    requires Pictured(Placed(ProjectAll(vertices, Side), r.frame), faces,
                      ColoursOf(sqrt, vertices, faces, Side, ambient, base), |faces|, r.img, r.zbuf)
    ensures SidePicture(sqrt, vertices, faces, w, h, margin, bounds, ambient, base, r)
  {
    assert Looks(Side, (v: V3) => v.x, (v: V3) => v.y, (v: V3) => v.z);
    assert LightOf(Side) == V3(0.45, 0.55, 0.70);
    hide ShowsMesh, Pictured, ColoursOf, Placed, ProjectAll, LinearAxis, Looks, Framed, Fit, Extent, LightOf,
      WellIndexed;
    AxesLinear();
    FramedBy(bounds, vertices, Side, w, h, margin, (v: V3) => v.x, (v: V3) => v.y, (v: V3) => v.z);
    MeshShown(sqrt, vertices, faces, Side, V3(0.45, 0.55, 0.70), ambient, base, r, (v: V3) => v.x, (v: V3) => v.y,
              (v: V3) => v.z);
  }

  method RenderOrtho(sqrt: real -> real, vertices: seq<V3>, faces: seq<Face>, view: View, w: nat, h: nat,
                     margin: real, bounds: Option<Bounds>, ambient: real, base: Base)
    returns (res: Result<Rendering, Error>)
    requires WellIndexed(faces, |vertices|)
    ensures res == Err(UnknownView) <==> view.Other?
    ensures res == Err(EmptyMesh) <==> !view.Other? && bounds.None? && vertices == []
    ensures res.Ok? ==> res.value.img.Length0 == h && res.value.img.Length1 == w
    ensures res.Ok? && view.Top? ==>
      TopPicture(sqrt, vertices, faces, w, h, margin, bounds, ambient, base, res.value)
    ensures res.Ok? && view.Side? ==>
      SidePicture(sqrt, vertices, faces, w, h, margin, bounds, ambient, base, res.value)
    ensures res.Ok? ==> PixelsOf(sqrt, vertices, faces, view, ambient, base, res.value)
  {
    hide Pictured, Fit, ColoursOf, TopPicture, SidePicture, Project, FaceColour;
    if view.Other? {
      return Err(UnknownView);
    }
    var screen := ProjectAll(vertices, view);
    var colours := ColoursOf(sqrt, vertices, faces, view, ambient, base);
    if bounds.None? && screen == [] {
      return Err(EmptyMesh);
    }
    var frame := Fit(if bounds.Some? then bounds.value else Extent(screen), w, h, margin);
    var img, zbuf := DrawAll(Placed(screen, frame), faces, colours, w, h);
    if view.Top? {
      TopShown(sqrt, vertices, faces, w, h, margin, bounds, ambient, base, Rendering(frame, img, zbuf));
    } else {
      SideShown(sqrt, vertices, faces, w, h, margin, bounds, ambient, base, Rendering(frame, img, zbuf));
    }
    return Ok(Rendering(frame, img, zbuf));
  }
}
