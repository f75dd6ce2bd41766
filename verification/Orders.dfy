// Functions of a displacement that vanish to an order: bounded by a constant times a power
// of its size. Sums, products and forms of such functions are again such functions.
module Orders {
  import opened LinearAlgebra
  import opened SecondOrder
  import opened Eigensystem3

  function Power(n: real, k: nat): (p: real)
    requires n >= 0.0
    ensures p >= 0.0
  {
    if k == 0 then 1.0 else
    ProductSign(n, Power(n, k - 1));
    n * Power(n, k - 1)
  }

  ghost predicate OrderBy(f: V3 -> real, k: nat, c: real) {
    c >= 0.0 && forall d, n :: 0.0 <= n <= 1.0 && Small(d, n) ==> Abs(f(d)) <= c * Power(n, k)
  }

  // f(d) = O(|d|^k)
  ghost predicate Order(f: V3 -> real, k: nat) {
    exists c :: OrderBy(f, k, c)
  }

  lemma {:induction false} PowerAdd(n: real, k: nat, l: nat)
    requires n >= 0.0
    ensures Power(n, k) * Power(n, l) == Power(n, k + l)
  {
    if k > 0 {
      PowerAdd(n, k - 1, l);
      assert n * Power(n, k - 1) * Power(n, l) == n * (Power(n, k - 1) * Power(n, l));
    }
  }

  lemma PowerOne(n: real)
    requires n >= 0.0
    ensures Power(n, 1) == n
  {
    assert Power(n, 0) == 1.0;
  }

  lemma PowerStep(n: real, k: nat)
    requires n >= 0.0 && k > 0
    ensures Power(n, k) == n * Power(n, k - 1)
  {
  }

  lemma {:induction false} PowerLess(n: real, k: nat, l: nat)
    requires 0.0 <= n <= 1.0 && l <= k
    ensures Power(n, k) <= Power(n, l)
    decreases k
  {
    hide Power;
    if l < k {
      PowerLess(n, k - 1, l);
      PowerStep(n, k);
      Shrinks(n, Power(n, k - 1), Power(n, k));
    }
  }

  lemma Shrinks(n: real, p: real, q: real)
    requires 0.0 <= n <= 1.0 && p >= 0.0 && q == n * p
    ensures q <= p
  {
    var rest := 1.0 - n;
    ProductSign(rest, p);
    assert rest * p == p - q;
  }

  lemma OrderConst(f: V3 -> real, x: real)
    requires forall d :: f(d) == x
    ensures Order(f, 0)
  {
    assert OrderBy(f, 0, Abs(x)) by {
      forall d, n | 0.0 <= n <= 1.0 && Small(d, n) ensures Abs(f(d)) <= Abs(x) * Power(n, 0) {
      }
    }
  }

  lemma OrderEntries()
    ensures Order((d: V3) => d.x, 1) && Order((d: V3) => d.y, 1) && Order((d: V3) => d.z, 1)
  {
    forall n | n >= 0.0 ensures 1.0 * Power(n, 1) == n {
      PowerOne(n);
    }
    hide Power;
    assert OrderBy((d: V3) => d.x, 1, 1.0);
    assert OrderBy((d: V3) => d.y, 1, 1.0);
    assert OrderBy((d: V3) => d.z, 1, 1.0);
  }

  lemma OrderSum(f: V3 -> real, g: V3 -> real, h: V3 -> real, k: nat)
    requires Order(f, k) && Order(g, k) && forall d :: h(d) == f(d) + g(d)
    ensures Order(h, k)
  {
    var c :| OrderBy(f, k, c);
    var e :| OrderBy(g, k, e);
    forall d, n | 0.0 <= n <= 1.0 && Small(d, n) ensures Abs(h(d)) <= (c + e) * Power(n, k) {
      assert Abs(f(d)) <= c * Power(n, k) && Abs(g(d)) <= e * Power(n, k);
      SumBound(f(d), g(d), h(d), c, e, Power(n, k));
    }
    assert OrderBy(h, k, c + e);
  }

  lemma SumBound(x: real, y: real, z: real, c: real, e: real, p: real)
    requires Abs(x) <= c * p && Abs(y) <= e * p && z == x + y
    ensures Abs(z) <= (c + e) * p
  {
  }

  lemma OrderProduct(f: V3 -> real, k: nat, g: V3 -> real, l: nat, h: V3 -> real, j: nat)
    requires Order(f, k) && Order(g, l) && j == k + l && forall d :: h(d) == Times(f(d), g(d))
    ensures Order(h, j)
  {
    hide Power, Abs, Small, Times;
    var c :| OrderBy(f, k, c);
    var e :| OrderBy(g, l, e);
    ProductSign(c, e);
    var ce := c * e;
    forall d, n | 0.0 <= n <= 1.0 && Small(d, n) ensures Abs(h(d)) <= ce * Power(n, j) {
      ProductAt(f, k, c, g, l, e, h, j, ce, d, n);
    }
    assert OrderBy(h, j, ce);
  }

  lemma ProductAt(f: V3 -> real, k: nat, c: real, g: V3 -> real, l: nat, e: real, h: V3 -> real, j: nat, ce: real,
                  d: V3, n: real)
    requires OrderBy(f, k, c) && OrderBy(g, l, e) && j == k + l && h(d) == Times(f(d), g(d)) && ce == c * e
    requires 0.0 <= n <= 1.0 && Small(d, n)
    ensures Abs(h(d)) <= ce * Power(n, j)
  {
    assert Abs(f(d)) <= c * Power(n, k) && Abs(g(d)) <= e * Power(n, l) by {
      hide Power, Abs, Small;
    }
    hide Power, Abs, Small, OrderBy;
    PowerAdd(n, k, l);
    ProductOrder(f(d), g(d), h(d), c, e, Power(n, k), Power(n, l), Power(n, j));
  }

  lemma ProductOrder(x: real, y: real, z: real, c: real, e: real, p: real, q: real, pq: real)
    requires Abs(x) <= c * p && Abs(y) <= e * q && z == x * y && pq == p * q
    ensures Abs(z) <= (c * e) * pq
  {
    ProductBound(x, y, z, c * p, e * q, (c * p) * (e * q));
    assert (c * p) * (e * q) == (c * e) * (p * q);
  }

  // A function of higher order is of each lower one.
  lemma OrderLess(f: V3 -> real, k: nat, l: nat)
    requires Order(f, k) && l <= k
    ensures Order(f, l)
  {
    var c :| OrderBy(f, k, c);
    forall d, n | 0.0 <= n <= 1.0 && Small(d, n) ensures Abs(f(d)) <= c * Power(n, l) {
      assert Abs(f(d)) <= c * Power(n, k);
      PowerLess(n, k, l);
      ProductSign(c, Power(n, l) - Power(n, k));
    }
    assert OrderBy(f, l, c);
  }

  lemma OrderSame(f: V3 -> real, g: V3 -> real, k: nat)
    requires Order(f, k) && forall d :: g(d) == f(d)
    ensures Order(g, k)
  {
    var c :| OrderBy(f, k, c);
    assert OrderBy(g, k, c);
  }

  lemma OrderTimes(x: real, f: V3 -> real, g: V3 -> real, k: nat)
    requires Order(f, k) && forall d :: g(d) == x * f(d)
    ensures Order(g, k)
  {
    var one := (d: V3) => x;
    OrderConst(one, x);
    hide Order;
    forall d ensures g(d) == Times(one(d), f(d)) {
    }
    hide Times;
    OrderProduct(one, 0, f, k, g, k);
  }

  // ---- Vectors -------------------------------------------------------------------------------

  // Every entry of f(d) is O(|d|^k).
  ghost predicate OrderV(f: V3 -> V3, k: nat) {
    Order(d => f(d).x, k) && Order(d => f(d).y, k) && Order(d => f(d).z, k)
  }

  lemma OrderVEntries(f: V3 -> V3, k: nat, x: V3 -> real, y: V3 -> real, z: V3 -> real)
    requires Order(x, k) && Order(y, k) && Order(z, k)
    requires forall d :: f(d) == V3(x(d), y(d), z(d))
    ensures OrderV(f, k)
  {
    hide Order;
    OrderSame(x, d => f(d).x, k);
    OrderSame(y, d => f(d).y, k);
    OrderSame(z, d => f(d).z, k);
  }

  lemma OrderDot(f: V3 -> V3, k: nat, g: V3 -> V3, l: nat, h: V3 -> real, j: nat)
    requires OrderV(f, k) && OrderV(g, l) && j == k + l && forall d :: h(d) == Dot(f(d), g(d))
    ensures Order(h, j)
  {
    hide Order, Times, Dot;
    var x, y := (d: V3) => Times(f(d).x, g(d).x), (d: V3) => Times(f(d).y, g(d).y);
    var z := (d: V3) => Times(f(d).z, g(d).z);
    OrderProduct(d => f(d).x, k, d => g(d).x, l, x, j);
    OrderProduct(d => f(d).y, k, d => g(d).y, l, y, j);
    OrderProduct(d => f(d).z, k, d => g(d).z, l, z, j);
    var xy := (d: V3) => x(d) + y(d);
    OrderSum(x, y, xy, j);
    forall d ensures h(d) == xy(d) + z(d) {
      DotTimes(f(d), g(d));
    }
    OrderSum(xy, z, h, j);
  }

  lemma OrderConstV(v: V3)
    ensures OrderV(d => v, 0)
  {
    hide Order;
    OrderConst(d => v.x, v.x);
    OrderConst(d => v.y, v.y);
    OrderConst(d => v.z, v.z);
    OrderVEntries(d => v, 0, d => v.x, d => v.y, d => v.z);
  }

  lemma OrderSelf()
    ensures OrderV(d => d, 1)
  {
    hide Order;
    OrderEntries();
    OrderVEntries(d => d, 1, (d: V3) => d.x, (d: V3) => d.y, (d: V3) => d.z);
  }

  lemma OrderAddV(f: V3 -> V3, g: V3 -> V3, h: V3 -> V3, k: nat)
    requires OrderV(f, k) && OrderV(g, k) && forall d :: h(d) == Add(f(d), g(d))
    ensures OrderV(h, k)
  {
    hide Order;
    OrderSum(d => f(d).x, d => g(d).x, d => h(d).x, k);
    OrderSum(d => f(d).y, d => g(d).y, d => h(d).y, k);
    OrderSum(d => f(d).z, d => g(d).z, d => h(d).z, k);
  }

  lemma OrderLessV(f: V3 -> V3, k: nat, l: nat)
    requires OrderV(f, k) && l <= k
    ensures OrderV(f, l)
  {
    hide Order;
    OrderLess(d => f(d).x, k, l);
    OrderLess(d => f(d).y, k, l);
    OrderLess(d => f(d).z, k, l);
  }

  // A matrix keeps the order.
  lemma OrderMul(m: M3, f: V3 -> V3, k: nat, g: V3 -> V3)
    requires OrderV(f, k) && forall d :: g(d) == MulVec(m, f(d))
    ensures OrderV(g, k)
  {
    hide Order;
    var t := Transpose(m);
    OrderConstV(t.c0);
    OrderConstV(t.c1);
    OrderConstV(t.c2);
    var x, y, z := (d: V3) => Dot(t.c0, f(d)), (d: V3) => Dot(t.c1, f(d)), (d: V3) => Dot(t.c2, f(d));
    OrderDot(d => t.c0, 0, f, k, x, k);
    OrderDot(d => t.c1, 0, f, k, y, k);
    OrderDot(d => t.c2, 0, f, k, z, k);
    forall d ensures g(d) == V3(x(d), y(d), z(d)) {
      TransposeInvolution(m);
      TransposeMulVec(t, f(d));
    }
    OrderVEntries(g, k, x, y, z);
  }

  // A form of a displacement is of second order.
  lemma OrderForm(m: M3, h: V3 -> real)
    requires forall d :: h(d) == Form(m, d)
    ensures Order(h, 2)
  {
    hide Order;
    OrderSelf();
    var g := (d: V3) => MulVec(m, d);
    OrderMul(m, d => d, 1, g);
    OrderDot(d => d, 1, g, 1, h, 2);
  }
}
