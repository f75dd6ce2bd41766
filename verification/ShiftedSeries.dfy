// The degree-10 replacement for sqrt(1 + x) - 1 in the shifted singular value
// routine, against the naive routine (eigsys/svd_shifted.cpp:36-86).
module ShiftedSeries {
  import opened LinearAlgebra

  // ---- Polynomials by their coefficients, lowest first -----------------------------

  function Eval(cs: seq<real>, x: real): real {
    if cs == [] then 0.0 else cs[0] + x * Eval(cs[1..], x)
  }

  function Pow(x: real, k: nat): real {
    if k == 0 then 1.0 else x * Pow(x, k - 1)
  }

  lemma EvalFive(a: real, b: real, c: real, d: real, e: real, rest: seq<real>, x: real, h: real)
    requires Eval(rest, x) == h
    ensures Eval([a, b, c, d, e] + rest, x) == a + x * (b + x * (c + x * (d + x * (e + x * h))))
  {
    hide Eval;
    EvalOne(e, rest, x, h);
    EvalOne(d, [e] + rest, x, e + x * h);
    EvalOne(c, [d] + ([e] + rest), x, d + x * (e + x * h));
    EvalOne(b, [c] + ([d] + ([e] + rest)), x, c + x * (d + x * (e + x * h)));
    EvalOne(a, [b] + ([c] + ([d] + ([e] + rest))), x, b + x * (c + x * (d + x * (e + x * h))));
    assert [a, b, c, d, e] + rest == [a] + ([b] + ([c] + ([d] + ([e] + rest))));
  }

  lemma EvalOne(a: real, rest: seq<real>, x: real, h: real)
    requires Eval(rest, x) == h
    ensures Eval([a] + rest, x) == a + x * h
  {
    EvalCons(a, rest, x);
    hide Eval;
  }

  lemma EvalNone(x: real)
    ensures Eval([], x) == 0.0
  {
  }

  lemma EvalCons(a: real, rest: seq<real>, x: real)
    ensures Eval([a] + rest, x) == a + x * Eval(rest, x)
  {
    assert ([a] + rest)[1..] == rest;
  }

  lemma {:induction false} PowAdd(x: real, m: nat, n: nat)
    ensures Pow(x, m) * Pow(x, n) == Pow(x, m + n)
  {
    if m > 0 {
      PowAdd(x, m - 1, n);
      Reassociate(x, Pow(x, m - 1), Pow(x, n));
    }
  }

  lemma Reassociate(x: real, y: real, z: real)
    ensures (x * y) * z == x * (y * z)
  {
  }

  // Small coefficients keep a polynomial small on |x| <= 1/2.
  ghost predicate AllSmall(cs: seq<real>, m: real) {
    forall i :: 0 <= i < |cs| ==> Abs(cs[i]) <= m / 2.0
  }

  lemma {:induction false} EvalSmall(cs: seq<real>, x: real, m: real)
    requires Abs(x) <= 0.5 && m >= 0.0 && AllSmall(cs, m)
    ensures Abs(Eval(cs, x)) <= m
  {
    hide AllSmall, Eval, Abs;
    if cs == [] {
      EvalNoneSmall(x, m);
    } else {
      SmallTail(cs, m);
      EvalSmall(cs[1..], x, m);
      EvalCons(cs[0], cs[1..], x);
      assert [cs[0]] + cs[1..] == cs;
      HalfStep(cs[0], x, Eval(cs[1..], x), m, Eval(cs, x));
    }
  }

  lemma EvalNoneSmall(x: real, m: real)
    requires m >= 0.0
    ensures Abs(Eval([], x)) <= m
  {
    EvalNone(x);
  }

  lemma SmallTail(cs: seq<real>, m: real)
    requires cs != [] && AllSmall(cs, m)
    ensures AllSmall(cs[1..], m) && Abs(cs[0]) <= m / 2.0
  {
  }

  lemma HalfStep(a: real, x: real, t: real, m: real, r: real)
    requires Abs(a) <= m / 2.0 && Abs(x) <= 0.5 && Abs(t) <= m && r == a + x * t
    ensures Abs(r) <= m
  {
    HalfProduct(x, t, m);
    HalfSum(a, x * t, m);
  }

  lemma HalfSum(a: real, t: real, m: real)
    requires Abs(a) <= m / 2.0 && Abs(t) <= m / 2.0
    ensures Abs(a + t) <= m
  {
  }

  lemma HalfProduct(x: real, t: real, m: real)
    requires Abs(x) <= 0.5 && Abs(t) <= m
    ensures Abs(x * t) <= m / 2.0
  {
    AbsProduct(x, t);
    MulMonotone(Abs(x), 0.5, Abs(t));
  }

  // ---- The ten coefficients in the code ---------------------------------------------------

  const COEFFICIENTS: seq<real> :=
    [1.0 / 2.0, -1.0 / 8.0, 1.0 / 16.0, -5.0 / 128.0, 7.0 / 256.0,
    -21.0 / 1024.0, 33.0 / 2048.0, -429.0 / 32768.0, 715.0 / 65536.0, -2431.0 / 262144.0]

  // p, the value that replaces sqrt(1 + x) - 1.
  function Series(x: real): real {
    x * Eval(COEFFICIENTS, x)
  }

  // q, the factor left over when the series is squared.
  const REMAINDER: seq<real> :=
    [-4199.0 / 262144.0, 12597.0 / 2097152.0, -3553.0 / 1048576.0, 17765.0 / 8388608.0, -46189.0 / 33554432.0,
    969969.0 / 1073741824.0, -627627.0 / 1073741824.0, 388531.0 / 1073741824.0, -1738165.0 / 8589934592.0,
      5909761.0 / 68719476736.0]

  lemma CoefficientsSplit()
    ensures COEFFICIENTS == [1.0 / 2.0, -1.0 / 8.0, 1.0 / 16.0, -5.0 / 128.0, 7.0 / 256.0] + COEFFICIENTS[5..]
    ensures COEFFICIENTS[5..] == [-21.0 / 1024.0, 33.0 / 2048.0, -429.0 / 32768.0, 715.0 / 65536.0,
      -2431.0 / 262144.0] + []
  {
  }

  lemma UpperExpanded(x: real)
    ensures Eval(COEFFICIENTS[5..], x) ==
      -21.0 / 1024.0 + x * (33.0 / 2048.0 + x * (-429.0 / 32768.0 + x * (715.0 / 65536.0 + x * (-2431.0 / 262144.0))))
  {
    EvalNone(x);
    hide *;
    CoefficientsSplit();
    EvalFive(-21.0 / 1024.0, 33.0 / 2048.0, -429.0 / 32768.0, 715.0 / 65536.0, -2431.0 / 262144.0, [], x, 0.0);
  }

  lemma CoefficientsExpanded(x: real)
    ensures Eval(COEFFICIENTS, x) ==
      1.0 / 2.0 + x * (-1.0 / 8.0 + x * (1.0 / 16.0 + x * (-5.0 / 128.0 + x * (7.0 / 256.0 +
        x * (-21.0 / 1024.0 + x * (33.0 / 2048.0 + x * (-429.0 / 32768.0 + x * (715.0 / 65536.0 +
        x * (-2431.0 / 262144.0)))))))))
  {
    hide *;
    UpperExpanded(x);
    CoefficientsSplit();
    EvalFive(1.0 / 2.0, -1.0 / 8.0, 1.0 / 16.0, -5.0 / 128.0, 7.0 / 256.0, COEFFICIENTS[5..], x,
      -21.0 / 1024.0 + x * (33.0 / 2048.0 + x * (-429.0 / 32768.0 + x * (715.0 / 65536.0 +
        x * (-2431.0 / 262144.0)))));
  }

  lemma SeriesExpanded(x: real)
    ensures 1.0 + Series(x) ==
      1.0 + x * (1.0 / 2.0 + x * (-1.0 / 8.0 + x * (1.0 / 16.0 + x * (-5.0 / 128.0 + x * (7.0 / 256.0 +
        x * (-21.0 / 1024.0 + x * (33.0 / 2048.0 + x * (-429.0 / 32768.0 + x * (715.0 / 65536.0 +
        x * (-2431.0 / 262144.0))))))))))
  {
    EvalCons(1.0, COEFFICIENTS, x);
    hide Eval;
    CoefficientsExpanded(x);
    EvalOne(1.0, COEFFICIENTS, x,
      1.0 / 2.0 + x * (-1.0 / 8.0 + x * (1.0 / 16.0 + x * (-5.0 / 128.0 + x * (7.0 / 256.0 +
        x * (-21.0 / 1024.0 + x * (33.0 / 2048.0 + x * (-429.0 / 32768.0 + x * (715.0 / 65536.0 +
        x * (-2431.0 / 262144.0))))))))));
  }

  function Zeros(n: nat): seq<real> {
    if n == 0 then [] else [0.0] + Zeros(n - 1)
  }

  lemma {:induction false} EvalShift(n: nat, cs: seq<real>, x: real)
    ensures Eval(Zeros(n) + cs, x) == Pow(x, n) * Eval(cs, x)
  {
    if n == 0 {
      assert Zeros(0) + cs == cs;
    } else {
      EvalShift(n - 1, cs, x);
      assert Zeros(n) + cs == [0.0] + (Zeros(n - 1) + cs);
      assert Pow(x, n) == x * Pow(x, n - 1);
      hide Eval, Pow, Zeros;
      EvalOne(0.0, Zeros(n - 1) + cs, x, Pow(x, n - 1) * Eval(cs, x));
      Reassociate(x, Pow(x, n - 1), Eval(cs, x));
    }
  }

  lemma {:induction false} ZerosAdd(m: nat, n: nat)
    ensures Zeros(m + n) == Zeros(m) + Zeros(n)
  {
    if m == 0 {
      assert [] + Zeros(n) == Zeros(n);
    } else {
      ZerosAdd(m - 1, n);
      assert [0.0] + (Zeros(m - 1) + Zeros(n)) == ([0.0] + Zeros(m - 1)) + Zeros(n);
    }
  }

  lemma RemainderSplit()
    ensures REMAINDER == [-4199.0 / 262144.0, 12597.0 / 2097152.0, -3553.0 / 1048576.0, 17765.0 / 8388608.0,
      -46189.0 / 33554432.0] + REMAINDER[5..]
    ensures REMAINDER[5..] ==
      [969969.0 / 1073741824.0, -627627.0 / 1073741824.0, 388531.0 / 1073741824.0, -1738165.0 / 8589934592.0,
        5909761.0 / 68719476736.0] + []
  {
  }

  lemma RemainderUpper(x: real)
    ensures Eval(REMAINDER[5..], x) ==
      969969.0 / 1073741824.0 + x * (-627627.0 / 1073741824.0 + x * (388531.0 / 1073741824.0 +
        x * (-1738165.0 / 8589934592.0 + x * (5909761.0 / 68719476736.0))))
  {
    EvalNone(x);
    hide *;
    RemainderSplit();
    EvalFive(969969.0 / 1073741824.0, -627627.0 / 1073741824.0, 388531.0 / 1073741824.0, -1738165.0 / 8589934592.0,
      5909761.0 / 68719476736.0, [], x, 0.0);
  }

  lemma RemainderEval(x: real)
    ensures Eval(REMAINDER, x) ==
      -4199.0 / 262144.0 + x * (12597.0 / 2097152.0 + x * (-3553.0 / 1048576.0 +
        x * (17765.0 / 8388608.0 + x * (-46189.0 / 33554432.0 + x * (969969.0 / 1073741824.0 +
        x * (-627627.0 / 1073741824.0 + x * (388531.0 / 1073741824.0 + x * (-1738165.0 / 8589934592.0 +
        x * (5909761.0 / 68719476736.0)))))))))
  {
    hide *;
    RemainderUpper(x);
    RemainderSplit();
    EvalFive(-4199.0 / 262144.0, 12597.0 / 2097152.0, -3553.0 / 1048576.0, 17765.0 / 8388608.0,
      -46189.0 / 33554432.0, REMAINDER[5..], x,
      969969.0 / 1073741824.0 + x * (-627627.0 / 1073741824.0 + x * (388531.0 / 1073741824.0 +
        x * (-1738165.0 / 8589934592.0 + x * (5909761.0 / 68719476736.0)))));
  }

  lemma FiveZeros(cs: seq<real>, x: real, h: real)
    requires Eval(cs, x) == h
    ensures Eval(Zeros(5) + cs, x) == x * x * x * x * x * h
  {
    EvalShift(5, cs, x);
    hide Eval;
    FifthPower(x, h);
  }

  lemma FifthPower(x: real, h: real)
    ensures Pow(x, 5) * h == x * x * x * x * x * h
  {
    assert Pow(x, 0) == 1.0;
    assert Pow(x, 1) == x * Pow(x, 0);
    assert Pow(x, 2) == x * Pow(x, 1);
    assert Pow(x, 3) == x * Pow(x, 2);
    assert Pow(x, 4) == x * Pow(x, 3);
    assert Pow(x, 5) == x * Pow(x, 4);
  }

  lemma OneZero(cs: seq<real>, x: real, h: real)
    requires Eval(cs, x) == h
    ensures Eval(Zeros(1) + cs, x) == x * h
  {
    EvalShift(1, cs, x);
    SmallPowers(x);
  }

  lemma RemainderOnce(x: real)
    ensures Eval(Zeros(1) + REMAINDER, x) == x *
      (-4199.0 / 262144.0 + x * (12597.0 / 2097152.0 + x * (-3553.0 / 1048576.0 +
        x * (17765.0 / 8388608.0 + x * (-46189.0 / 33554432.0 + x * (969969.0 / 1073741824.0 +
        x * (-627627.0 / 1073741824.0 + x * (388531.0 / 1073741824.0 + x * (-1738165.0 / 8589934592.0 +
        x * (5909761.0 / 68719476736.0))))))))))
  {
    hide *;
    RemainderEval(x);
    OneZero(REMAINDER, x,
      -4199.0 / 262144.0 + x * (12597.0 / 2097152.0 + x * (-3553.0 / 1048576.0 +
        x * (17765.0 / 8388608.0 + x * (-46189.0 / 33554432.0 + x * (969969.0 / 1073741824.0 +
        x * (-627627.0 / 1073741824.0 + x * (388531.0 / 1073741824.0 + x * (-1738165.0 / 8589934592.0 +
        x * (5909761.0 / 68719476736.0))))))))));
  }

  lemma RemainderSixth(x: real)
    ensures Eval(Zeros(5) + (Zeros(1) + REMAINDER), x) == x * x * x * x * x * x *
      (-4199.0 / 262144.0 + x * (12597.0 / 2097152.0 + x * (-3553.0 / 1048576.0 +
        x * (17765.0 / 8388608.0 + x * (-46189.0 / 33554432.0 + x * (969969.0 / 1073741824.0 +
        x * (-627627.0 / 1073741824.0 + x * (388531.0 / 1073741824.0 + x * (-1738165.0 / 8589934592.0 +
        x * (5909761.0 / 68719476736.0))))))))))
  {
    hide *;
    RemainderOnce(x);
    FiveZeros(Zeros(1) + REMAINDER, x, x *
      (-4199.0 / 262144.0 + x * (12597.0 / 2097152.0 + x * (-3553.0 / 1048576.0 +
        x * (17765.0 / 8388608.0 + x * (-46189.0 / 33554432.0 + x * (969969.0 / 1073741824.0 +
        x * (-627627.0 / 1073741824.0 + x * (388531.0 / 1073741824.0 + x * (-1738165.0 / 8589934592.0 +
        x * (5909761.0 / 68719476736.0)))))))))));
  }

  lemma RemainderShifted(x: real)
    ensures Eval(Zeros(11) + REMAINDER, x) == x * x * x * x * x * x * x * x * x * x * x *
      (-4199.0 / 262144.0 + x * (12597.0 / 2097152.0 + x * (-3553.0 / 1048576.0 +
        x * (17765.0 / 8388608.0 + x * (-46189.0 / 33554432.0 + x * (969969.0 / 1073741824.0 +
        x * (-627627.0 / 1073741824.0 + x * (388531.0 / 1073741824.0 + x * (-1738165.0 / 8589934592.0 +
        x * (5909761.0 / 68719476736.0))))))))))
  {
    hide *;
    RemainderSixth(x);
    ElevenZeros();
    FiveZeros(Zeros(5) + (Zeros(1) + REMAINDER), x, x * x * x * x * x * x *
      (-4199.0 / 262144.0 + x * (12597.0 / 2097152.0 + x * (-3553.0 / 1048576.0 +
        x * (17765.0 / 8388608.0 + x * (-46189.0 / 33554432.0 + x * (969969.0 / 1073741824.0 +
        x * (-627627.0 / 1073741824.0 + x * (388531.0 / 1073741824.0 + x * (-1738165.0 / 8589934592.0 +
        x * (5909761.0 / 68719476736.0)))))))))));
  }

  lemma ElevenZeros()
    ensures Zeros(11) + REMAINDER == Zeros(5) + (Zeros(5) + (Zeros(1) + REMAINDER))
  {
    ZerosAdd(5, 6);
    ZerosAdd(5, 1);
    hide Zeros;
    assert (Zeros(5) + (Zeros(5) + Zeros(1))) + REMAINDER == Zeros(5) + (Zeros(5) + (Zeros(1) + REMAINDER));
  }

  lemma RemainderExpanded(x: real)
    ensures Pow(x, 11) * Eval(REMAINDER, x) ==
      x * x * x * x * x * x * x * x * x * x * x *
      (-4199.0 / 262144.0 + x * (12597.0 / 2097152.0 + x * (-3553.0 / 1048576.0 +
        x * (17765.0 / 8388608.0 + x * (-46189.0 / 33554432.0 + x * (969969.0 / 1073741824.0 +
        x * (-627627.0 / 1073741824.0 + x * (388531.0 / 1073741824.0 + x * (-1738165.0 / 8589934592.0 +
        x * (5909761.0 / 68719476736.0))))))))))
  {
    hide *;
    EvalShift(11, REMAINDER, x);
    RemainderShifted(x);
  }

  lemma SquareKernel(x: real, p: real, r: real)
    requires p ==
      1.0 + x * (1.0 / 2.0 + x * (-1.0 / 8.0 + x * (1.0 / 16.0 + x * (-5.0 / 128.0 + x * (7.0 / 256.0 +
        x * (-21.0 / 1024.0 + x * (33.0 / 2048.0 + x * (-429.0 / 32768.0 + x * (715.0 / 65536.0 +
        x * (-2431.0 / 262144.0))))))))))
    requires r == x * x * x * x * x * x * x * x * x * x * x *
      (-4199.0 / 262144.0 + x * (12597.0 / 2097152.0 + x * (-3553.0 / 1048576.0 +
        x * (17765.0 / 8388608.0 + x * (-46189.0 / 33554432.0 + x * (969969.0 / 1073741824.0 +
        x * (-627627.0 / 1073741824.0 + x * (388531.0 / 1073741824.0 + x * (-1738165.0 / 8589934592.0 +
        x * (5909761.0 / 68719476736.0))))))))))
    ensures Square(p) - (1.0 + x) == r
  {
  }

  // The coefficients are exact: 1 + p squares to 1 + x up to x^11 times a known polynomial.
  lemma SquareIdentity(x: real)
    ensures Square(1.0 + Series(x)) - (1.0 + x) == Pow(x, 11) * Eval(REMAINDER, x)
  {
    hide *;
    SeriesExpanded(x);
    RemainderExpanded(x);
    SquareKernel(x, 1.0 + Series(x), Pow(x, 11) * Eval(REMAINDER, x));
  }

  lemma SmallPowers(x: real)
    ensures Pow(x, 1) == x
  {
    assert Pow(x, 0) == 1.0;
  }

  // ---- The error, from both sides ------------------------------------------------------

  lemma SeriesSize(x: real)
    requires Abs(x) <= 0.5
    ensures 0.6875 <= 1.0 + Series(x) <= 1.3125
  {
    var c := COEFFICIENTS;
    EvalCons(c[0], c[1..], x);
    assert c == [c[0]] + c[1..];
    EvalSmall(c[1..], x, 0.25);
    hide Eval;
    HalfProduct(x, Eval(c[1..], x), 0.25);
    HalfProduct(x, Eval(c, x), 0.625);
  }

  lemma RemainderSize(x: real)
    requires Abs(x) <= 0.5
    ensures -0.0221 <= Eval(REMAINDER, x) <= -0.01
  {
    var c := REMAINDER;
    EvalCons(c[0], c[1..], x);
    assert c == [c[0]] + c[1..];
    EvalSmall(c[1..], x, 0.01202);
    hide Eval;
    HalfProduct(x, Eval(c[1..], x), 0.01202);
  }

  lemma RootSize(x: real, s: real)
    requires Abs(x) <= 0.5 && s >= 0.0 && s * s == 1.0 + x
    ensures 0.7 <= s <= 1.23
  {
    RootOrder(0.7, s);
    RootOrder(s, 1.23);
  }

  lemma RootOrder(a: real, b: real)
    requires a >= 0.0 && b >= 0.0 && a * a <= b * b
    ensures a <= b
  {
    if b < a {
      StrictSign(a - b, a + b);
      Conjugate(a, b);
    }
  }

  lemma Conjugate(a: real, b: real)
    ensures (a - b) * (a + b) == a * a - b * b
  {
  }

  // A difference of squares over a sum between 1.3875 and 2.5425.
  lemma ErrorFromSquares(e: real, w: real, z: real, q: real)
    requires e * w == z * q && 1.3875 <= w <= 2.5425 && -0.0221 <= q <= -0.01
    ensures Abs(z) / 256.0 <= Abs(e) <= Abs(z) / 60.0
    ensures (z > 0.0 ==> e < 0.0) && (z < 0.0 ==> e > 0.0)
  {
    AbsProduct(e, w);
    AbsProduct(z, q);
    SizeKernel(Abs(e), w, Abs(z), -q, Abs(e * w));
    ErrorSign(e, w, z, q);
  }

  lemma SizeKernel(e: real, w: real, z: real, q: real, t: real)
    requires t == e * w && t == z * q
    requires 1.3875 <= w <= 2.5425 && 0.01 <= q <= 0.0221 && e >= 0.0 && z >= 0.0
    ensures z / 256.0 <= e <= z / 60.0
  {
    ProductBetween(e, 1.3875, w, 2.5425, t);
    ProductBetween(z, 0.01, q, 0.0221, t);
    LinearSize(e, z, t);
  }

  lemma ProductBetween(k: real, lo: real, x: real, hi: real, t: real)
    requires k >= 0.0 && lo <= x <= hi && t == k * x
    ensures lo * k <= t <= hi * k
  {
    ProductSign(k, x - lo);
    ProductSign(k, hi - x);
  }

  lemma LinearSize(e: real, z: real, t: real)
    requires 1.3875 * e <= t <= 2.5425 * e && 0.01 * z <= t <= 0.0221 * z && e >= 0.0 && z >= 0.0
    ensures z / 256.0 <= e <= z / 60.0
  {
  }

  lemma ErrorSign(e: real, w: real, z: real, q: real)
    requires e * w == z * q && w > 0.0 && q < 0.0
    ensures (z > 0.0 ==> e < 0.0) && (z < 0.0 ==> e > 0.0)
  {
    if z > 0.0 {
      StrictSign(z, -q);
      NegativeFactor(e, w);
    } else if z < 0.0 {
      StrictSign(-z, -q);
      NegativeFactor(-e, w);
    }
  }

  lemma NegativeFactor(e: real, w: real)
    requires e * w < 0.0 && w > 0.0
    ensures e < 0.0
  {
  }

  lemma StrictSign(a: real, b: real)
    requires a > 0.0 && b > 0.0
    ensures a * b > 0.0
  {
  }

  lemma DifferenceOfSquares(p: real, s: real)
    ensures (p - s) * (p + s) == Square(p) - s * s
  {
  }

  lemma ErrorParts(x: real, p: real, s: real, z: real, q: real)
    requires Square(p) - (1.0 + x) == z * q && s * s == 1.0 + x
    requires 0.6875 <= p <= 1.3125 && 0.7 <= s <= 1.23 && -0.0221 <= q <= -0.01
    ensures Abs(z) / 256.0 <= Abs(p - s) <= Abs(z) / 60.0
    ensures (z > 0.0 ==> p - s < 0.0) && (z < 0.0 ==> p - s > 0.0)
  {
    hide Abs, Square;
    DifferenceOfSquares(p, s);
    ErrorFromSquares(p - s, p + s, z, q);
  }

  // For |x| <= 1/2 the series is off by an eleventh power: never more than |x|^11 / 60,
  // never less than |x|^11 / 256, and always on the far side of 0 from x.
  lemma SeriesError(x: real, s: real)
    requires Abs(x) <= 0.5 && s >= 0.0 && s * s == 1.0 + x
    ensures var error := Series(x) - (s - 1.0);
      && Abs(Pow(x, 11)) / 256.0 <= Abs(error) <= Abs(Pow(x, 11)) / 60.0
      && (x > 0.0 ==> error < 0.0) && (x < 0.0 ==> error > 0.0)
  {
    hide Series, Eval, Pow, Square, Abs;
    SquareIdentity(x);
    SeriesSize(x);
    RemainderSize(x);
    RootSize(x, s);
    OddPower(x, 5);
    ErrorParts(x, 1.0 + Series(x), s, Pow(x, 11), Eval(REMAINDER, x));
  }

  lemma {:induction false} OddPower(x: real, n: nat)
    ensures (x > 0.0 ==> Pow(x, 2 * n + 1) > 0.0) && (x < 0.0 ==> Pow(x, 2 * n + 1) < 0.0)
  {
    if n == 0 {
      assert Pow(x, 1) == x * Pow(x, 0);
    } else {
      OddPower(x, n - 1);
      var y := Pow(x, 2 * n - 1);
      assert Pow(x, 2 * n + 1) == x * (x * y);
      if x > 0.0 {
        StrictSign(x, y);
        StrictSign(x, x * y);
      } else if x < 0.0 {
        StrictSign(-x, -y);
        StrictSign(-x, x * y);
      }
    }
  }

  // ---- The loop that adds the ten terms ------------------------------------------------

  function SumFrom(terms: seq<real>, k: nat): real
    requires k <= |terms|
    decreases |terms| - k
  {
    if k == |terms| then 0.0 else terms[k] + SumFrom(terms, k + 1)
  }

  lemma {:induction false} SumIsEval(terms: seq<real>, cs: seq<real>, x: real, k: nat)
    requires k <= |terms| == |cs| && forall j :: 0 <= j < |cs| ==> terms[j] == cs[j] * Pow(x, j + 1)
    ensures SumFrom(terms, k) == Pow(x, k + 1) * Eval(cs[k..], x)
    decreases |terms| - k
  {
    hide Eval, Pow;
    if k == |terms| {
      assert cs[k..] == [];
      EvalNone(x);
    } else {
      SumIsEval(terms, cs, x, k + 1);
      assert cs[k..] == [cs[k]] + cs[k + 1..];
      EvalCons(cs[k], cs[k + 1..], x);
      PowNext(x, k + 1);
      Distribute(cs[k], x, Pow(x, k + 1), Eval(cs[k + 1..], x));
    }
  }

  lemma PowNext(x: real, k: nat)
    ensures Pow(x, k + 1) == x * Pow(x, k)
  {
  }

  lemma Distribute(c: real, x: real, y: real, t: real)
    ensures c * y + (x * y) * t == y * (c + x * t)
  {
  }

  lemma PowTimes(x: real, m: nat, n: nat)
    ensures Times(Pow(x, m), Pow(x, n)) == Pow(x, m + n)
  {
    PowAdd(x, m, n);
    hide Pow;
  }

  method Terms(x1: real) returns (terms: seq<real>)
    ensures |terms| == |COEFFICIENTS| && forall j :: 0 <= j < |terms| ==> terms[j] == COEFFICIENTS[j] * Pow(x1, j + 1)
  {
    assert Pow(x1, 1) == x1 by { SmallPowers(x1); }
    hide Pow, Times;
    PowTimes(x1, 1, 1);
    PowTimes(x1, 2, 1);
    PowTimes(x1, 2, 2);
    PowTimes(x1, 3, 2);
    PowTimes(x1, 3, 3);
    PowTimes(x1, 4, 3);
    PowTimes(x1, 4, 4);
    PowTimes(x1, 5, 4);
    PowTimes(x1, 5, 5);
    var x2 := Times(x1, x1);
    var x3 := Times(x2, x1);
    var x4 := Times(x2, x2);
    var x5 := Times(x3, x2);
    var x6 := Times(x3, x3);
    var x7 := Times(x4, x3);
    var x8 := Times(x4, x4);
    var x9 := Times(x5, x4);
    var x10 := Times(x5, x5);
    terms := [0.5 * x1, -(1.0 / 8.0) * x2, 1.0 / 16.0 * x3, -(5.0 / 128.0) * x4, 7.0 / 256.0 * x5,
      -(21.0 / 1024.0) * x6, 33.0 / 2048.0 * x7, -(429.0 / 32768.0) * x8, 715.0 / 65536.0 * x9,
        -(2431.0 / 262144.0) * x10];
  }

  method AddTerms(x: real) returns (sum: real)
    ensures sum == Series(x)
  {
    var terms := Terms(x);
    sum := 0.0;
    var k := |terms| - 1;
    while k >= 0
      invariant -1 <= k < |terms| && sum == SumFrom(terms, k + 1)
    {
      sum := sum + terms[k];
      k := k - 1;
    }
    SumIsEval(terms, COEFFICIENTS, x, 0);
    assert COEFFICIENTS[0..] == COEFFICIENTS && Pow(x, 1) == x;
  }

  // ---- The two routines -----------------------------------------------------------------

  // A symmetric 2x2 matrix [[a, b], [b, d]].
  datatype Sym2 = Sym2(a: real, b: real, d: real)

  function Gram(f0: V3, f1: V3): Sym2 {
    Sym2(Dot(f0, f0), Dot(f0, f1), Dot(f1, f1))
  }

  // The form of FᵀF: the squared length of F's image of (x, y).
  lemma GramForm(f0: V3, f1: V3, x: real, y: real)
    ensures var m, v := Gram(f0, f1), Add(Scale(x, f0), Scale(y, f1));
      x * x * m.a + 2.0 * (x * y * m.b) + y * y * m.d == Dot(v, v)
  {
    hide Dot, Add, Scale;
    var v := Add(Scale(x, f0), Scale(y, f1));
    DotAdd(Scale(x, f0), Scale(y, f1), v);
    DotSymmetric(Scale(x, f0), v);
    DotSymmetric(Scale(y, f1), v);
    DotAdd(Scale(x, f0), Scale(y, f1), Scale(x, f0));
    DotAdd(Scale(x, f0), Scale(y, f1), Scale(y, f1));
    DotScaleScale(x, f0, f0);
    DotScaleScale(y, f1, f1);
    DotScale(x, f0, Scale(y, f1));
    DotScale(y, f1, f0);
    DotSymmetric(Scale(x, f0), Scale(y, f1));
  }

  function MinusIdentity(m: Sym2): Sym2 {
    Sym2(m.a - 1.0, m.b, m.d - 1.0)
  }

  // What an eigen-solver promises: both roots of the characteristic polynomial.
  ghost predicate Eigenvalues(m: Sym2, l0: real, l1: real) {
    l0 + l1 == m.a + m.d && l0 * l1 == m.a * m.d - m.b * m.b
  }

  function Sorted(a: real, b: real): (real, real) {
    if b < a then (b, a) else (a, b)
  }

  // Both eigenvalues replaced in place by the series, then sorted in place.
  method SingularValsMinusOneApprox(lmd: array<real>)
    requires lmd.Length == 2
    modifies lmd
    ensures (lmd[0], lmd[1]) == Sorted(Series(old(lmd[0])), Series(old(lmd[1])))
    ensures lmd[0] <= lmd[1]
    ensures multiset{lmd[0], lmd[1]} == multiset{Series(old(lmd[0])), Series(old(lmd[1]))}
  {
    hide Series;
    for i := 0 to 2
      invariant forall k :: 0 <= k < 2 ==> lmd[k] == if k < i then Series(old(lmd[k])) else old(lmd[k])
    {
      var sum := AddTerms(lmd[i]);
      lmd[i] := sum;
    }
    if lmd[1] < lmd[0] {
      lmd[0], lmd[1] := lmd[1], lmd[0];
    }
  }

  // What the naive routine returns, with s0 and s1 the square roots it takes.
  ghost predicate Naive(f0: V3, f1: V3, result: (real, real)) {
    exists l0, l1, s0, s1 :: Rooted(Gram(f0, f1), l0, l1, s0, s1) && result == Sorted(s0 - 1.0, s1 - 1.0)
  }

  ghost predicate Rooted(m: Sym2, l0: real, l1: real, s0: real, s1: real) {
    Eigenvalues(m, l0, l1) && s0 >= 0.0 && s0 * s0 == l0 && s1 >= 0.0 && s1 * s1 == l1
  }

  // Eigenvalues of A - I are those of A, less one.
  lemma ShiftedEigenvalues(m: Sym2, l0: real, l1: real, x0: real, x1: real)
    requires Eigenvalues(m, l0, l1) && Eigenvalues(MinusIdentity(m), x0, x1)
    ensures (l0 == x0 + 1.0 && l1 == x1 + 1.0) || (l0 == x1 + 1.0 && l1 == x0 + 1.0)
  {
    ShiftedProduct(m.a, m.b, m.d, x0, x1);
    SameRoots(l0, l1, x0 + 1.0, x1 + 1.0);
  }

  lemma ShiftedProduct(a: real, b: real, d: real, x0: real, x1: real)
    requires x0 + x1 == a - 1.0 + (d - 1.0) && x0 * x1 == (a - 1.0) * (d - 1.0) - b * b
    ensures (x0 + 1.0) * (x1 + 1.0) == a * d - b * b
  {
    assert (x0 + 1.0) * (x1 + 1.0) == x0 * x1 + (x0 + x1) + 1.0;
    assert (a - 1.0) * (d - 1.0) == a * d - (a + d) + 1.0;
  }

  lemma SameRoots(l0: real, l1: real, m0: real, m1: real)
    requires l0 + l1 == m0 + m1 && l0 * l1 == m0 * m1
    ensures (l0 == m0 && l1 == m1) || (l0 == m1 && l1 == m0)
  {
    assert (l0 - m0) * (l0 - m1) == l0 * l0 - l0 * (m0 + m1) + m0 * m1;
    assert l0 * (l0 + l1) == l0 * l0 + l0 * l1;
    NoDivisors(l0 - m0, l0 - m1);
  }

  lemma NoDivisors(a: real, b: real)
    requires a * b == 0.0
    ensures a == 0.0 || b == 0.0
  {
  }

  lemma SortedClose(a: real, b: real, c: real, d: real, e: real)
    requires (Abs(a - c) <= e && Abs(b - d) <= e) || (Abs(a - d) <= e && Abs(b - c) <= e)
    ensures Abs(Sorted(a, b).0 - Sorted(c, d).0) <= e && Abs(Sorted(a, b).1 - Sorted(c, d).1) <= e
  {
  }

  lemma {:induction false} PowerUp(x: real, r: real, n: nat)
    requires Abs(x) <= r
    ensures Abs(Pow(x, n)) <= Pow(r, n)
  {
    if n > 0 {
      PowerUp(x, r, n - 1);
      AbsProduct(x, Pow(x, n - 1));
      MulMonotone(Abs(x), r, Abs(Pow(x, n - 1)));
      MulMonotone(Abs(Pow(x, n - 1)), Pow(r, n - 1), r);
    }
  }

  // The fast routine stays within the series bound of the naive one, sorted entry by
  // sorted entry, whenever the shifted eigenvalues stay within r <= 1/2.
  lemma FastWithinBound(f0: V3, f1: V3, x0: real, x1: real, r: real, naive: (real, real))
    requires Eigenvalues(MinusIdentity(Gram(f0, f1)), x0, x1) && Naive(f0, f1, naive)
    requires Abs(x0) <= r && Abs(x1) <= r && r <= 0.5
    ensures var fast := Sorted(Series(x0), Series(x1));
      Abs(fast.0 - naive.0) <= Pow(r, 11) / 60.0 && Abs(fast.1 - naive.1) <= Pow(r, 11) / 60.0
  {
    var l0, l1, s0, s1 :| Rooted(Gram(f0, f1), l0, l1, s0, s1) && naive == Sorted(s0 - 1.0, s1 - 1.0);
    ShiftedEigenvalues(Gram(f0, f1), l0, l1, x0, x1);
    PowerUp(x0, r, 11);
    PowerUp(x1, r, 11);
    hide Series, Eval, Pow, Gram, Eigenvalues;
    if l0 == x0 + 1.0 && l1 == x1 + 1.0 {
      SeriesError(x0, s0);
      SeriesError(x1, s1);
    } else {
      SeriesError(x0, s1);
      SeriesError(x1, s0);
    }
    hide Sorted;
    SortedClose(Series(x0), Series(x1), s0 - 1.0, s1 - 1.0, Pow(r, 11) / 60.0);
  }
}
