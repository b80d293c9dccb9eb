/** Facts about products and quotients of reals, one at a time. */
module RealFacts {

  lemma MulMono(a: real, b: real, c: real)
    requires a >= 0.0 && b <= c
    ensures a * b <= a * c && b * a <= c * a
  {
  }

  lemma DivBack(a: real, d: real)
    requires d > 0.0
    ensures a / d * d == a
  {
  }

  lemma MulCancel(x: real, b: real, d: real)
    requires d > 0.0 && x * d <= b * d
    ensures x <= b
  {
    if x > b {
      MulStrict(d, b, x);
    }
  }

  lemma MulStrict(a: real, b: real, c: real)
    requires a > 0.0 && b < c
    ensures a * b < a * c && b * a < c * a
  {
  }

  lemma DivMono(a: real, b: real, d: real)
    requires d > 0.0 && a <= b * d
    ensures a / d <= b
  {
    DivBack(a, d);
    MulCancel(a / d, b, d);
  }

  lemma DivAbove(a: real, b: real, d: real)
    requires d > 0.0 && a >= b * d
    ensures a / d >= b
  {
    DivBack(a, d);
    MulCancel(b, a / d, d);
  }

  /** One step of a series: times `y`, divided by `q`. */
  function Next(t: real, y: real, q: real): real
    requires q > 0.0
  {
    t * y / q
  }

  lemma NextBack(t: real, y: real, q: real)
    requires q > 0.0
    ensures Next(t, y, q) * q == t * y
  {
    DivBack(t * y, q);
  }

  lemma NextNonNeg(t: real, y: real, q: real)
    requires q > 0.0 && t >= 0.0 && y >= 0.0
    ensures Next(t, y, q) >= 0.0
  {
    MulMono(t, 0.0, y);
    DivAbove(t * y, 0.0, q);
  }

  lemma NextFalls(t: real, y: real, q: real)
    requires q > 0.0 && t >= 0.0 && y <= q
    ensures Next(t, y, q) <= t
  {
    MulMono(t, y, q);
    DivMono(t * y, t, q);
  }

  lemma NextHalves(t: real, y: real, q: real)
    requires q > 0.0 && t >= 0.0 && 2.0 * y <= q
    ensures 2.0 * Next(t, y, q) <= t
  {
    NextBack(t, y, q);
    MulMono(t, 2.0 * y, q);
    var n := Next(t, y, q);
    assert (2.0 * n) * q == 2.0 * (t * y) == t * (2.0 * y);
    MulCancel(2.0 * n, t, q);
  }

  lemma NextRises(t: real, y: real, q: real)
    requires q > 0.0 && t >= 0.0 && y >= q
    ensures Next(t, y, q) >= t
  {
    MulMono(t, q, y);
    DivAbove(t * y, t, q);
  }

  lemma NextMono(t: real, y: real, u: real, z: real, q: real)
    requires q > 0.0 && 0.0 <= t <= u && 0.0 <= y <= z
    ensures Next(t, y, q) <= Next(u, z, q)
  {
    MulMono(t, y, z);
    MulMono(z, t, u);
    NextBack(u, z, q);
    DivMono(t * y, Next(u, z, q), q);
  }

  lemma HalvingStep(t: real, u: real, a: real, n: real)
    requires 0.0 <= t && 2.0 * t <= u && u * n <= a && n >= 1.0
    ensures t * (n + 1.0) <= a
  {
    MulMono(t, n + 1.0, 2.0 * n);
    MulMono(n, 2.0 * t, u);
    assert t * (2.0 * n) == (2.0 * t) * n;
  }

  lemma ProductPositive(a: real, b: real, r: real)
    requires a > 0.0 && b > 0.0 && r == a * b
    ensures r > 0.0
  {
  }

  function Sq(x: real): (r: real)
    ensures r >= 0.0 && (x > 0.0 ==> r > 0.0)
  {
    var r := x * x;
    if x > 0.0 then
      ProductPositive(x, x, r);
      r
    else r
  }

  lemma ProductOrder(a: real, b: real, c: real, d: real, r: real, s: real)
    requires 0.0 <= a <= c && 0.0 <= b <= d && r == a * b && s == c * d
    ensures r <= s
  {
    MulMono(a, b, d);
    MulMono(d, a, c);
  }

  lemma SqMono(a: real, b: real)
    requires 0.0 <= a <= b
    ensures Sq(a) <= Sq(b)
  {
    ProductOrder(a, a, b, b, Sq(a), Sq(b));
  }

  lemma SqBelowOne(q: real)
    requires 0.0 <= q < 1.0
    ensures 0.0 <= Sq(q) < 1.0
  {
    MulMono(q, 0.0, q);
    MulMono(q, q, 1.0);
  }

  lemma SqProduct(a: real, b: real)
    ensures Sq(a * b) == Sq(a) * Sq(b)
  {
  }

  lemma FractionBelowOne(i: real, n: real)
    requires 0.0 <= i < n
    ensures 0.0 <= i / n < 1.0
  {
    DivBack(i, n);
    DivAbove(i, 0.0, n);
    if i / n >= 1.0 {
      MulMono(n, 1.0, i / n);
    }
  }

  /** A product kept whole, so that proofs can treat it as one term. */
  function Times(a: real, b: real): real {
    a * b
  }

  lemma Regroup(q: real, t: real, y: real, n: real, f: real, p: real)
    requires Times(q, Sq(n)) == Times(t, y) && Times(t, Sq(f)) == p
    ensures Times(q, Sq(Times(f, n))) == Times(y, p)
  {
    SqProduct(f, n);
    assert q * (Sq(f) * Sq(n)) == (q * Sq(n)) * Sq(f);
    assert (t * y) * Sq(f) == y * (t * Sq(f));
  }

  lemma AddTail(d: real, u: real, t: real, q: real, y: real, first: real)
    requires d * (q - y) <= q * (first - u)
    requires t * q <= u * y
    ensures (d + u) * (q - y) <= q * (first - t)
  {
    assert (d + u) * (q - y) == d * (q - y) + u * q - u * y;
    assert q * (first - t) == q * (first - u) + q * u - t * q;
  }

  lemma DivOrder(a: real, b: real, d: real)
    requires d > 0.0 && a <= b
    ensures a / d <= b / d
  {
    DivBack(b, d);
    DivMono(a, b / d, d);
  }

  lemma DivUndo(a: real, t: real, d: real)
    requires d > 0.0 && a == Times(t, d)
    ensures a / d == t
  {
  }
}
