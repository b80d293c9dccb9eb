/** build-scripts/gen_audio_resampler_filter.c over exact reals: the modified Bessel series,
    stopped at the first small term, and the Kaiser window built from it. */
module KaiserFilter {
  import opened RealFacts

  const EPSILON: real := 0.000000000000000000001
  const PI: real := 3.14159265358979323846
  const SAMPLES_PER_ZERO_CROSSING := 512

  function Pow(x: real, n: nat): real {
    if n == 0 then 1.0 else Times(x, Pow(x, n - 1))
  }

  function Factorial(n: nat): (f: real)
    ensures f > 0.0
  {
    if n == 0 then 1.0 else Times(Factorial(n - 1), n as real)
  }

  /** k squared, by which the step to the k-th term divides. */
  function Square(k: nat): (q: real)
    ensures k > 0 ==> q > 0.0
  {
    Sq(k as real)
  }

  /** The k-th term of the series, `y` being the square of half the argument. */
  function Term(y: real, k: nat): real {
    if k == 0 then 1.0 else Next(Term(y, k - 1), y, Square(k))
  }

  /** The first n terms. */
  function Sum(y: real, n: nat): real {
    if n == 0 then 0.0 else Sum(y, n - 1) + Term(y, n - 1)
  }

  lemma SquaresGrow(k: nat, n: nat)
    requires k <= n
    ensures Square(k) <= Square(n)
  {
    SqMono(k as real, n as real);
  }

  // ---------- the term as the code computes it ----------

  lemma {:induction false} PowDouble(x: real, n: nat)
    ensures Pow(x, 2 * n) == Pow(Sq(x), n)
  {
    if n > 0 {
      PowDouble(x, n - 1);
      var p := Pow(x, 2 * (n - 1));
      assert Pow(x, 2 * n - 1) == Times(x, p);
      assert Times(x, Times(x, p)) == Times(Sq(x), p);
    }
  }

  lemma {:induction false} TermClosed(y: real, k: nat)
    ensures Times(Term(y, k), Sq(Factorial(k))) == Pow(y, k)
  {
    hide Times, Sq, Term, Factorial, Pow;
    if k == 0 {
      TermStarts(y);
    } else {
      TermClosed(y, k - 1);
      TermUnfolds(y, k);
      Regroup(Term(y, k), Term(y, k - 1), y, k as real, Factorial(k - 1), Pow(y, k - 1));
    }
  }

  lemma TermStarts(y: real)
    ensures Times(Term(y, 0), Sq(Factorial(0))) == Pow(y, 0)
  {
  }

  lemma TermUnfolds(y: real, k: nat)
    requires k > 0
    ensures Times(Term(y, k), Sq(k as real)) == Times(Term(y, k - 1), y)
    ensures Factorial(k) == Times(Factorial(k - 1), k as real)
    ensures Pow(y, k) == Times(y, Pow(y, k - 1))
  {
    hide Sq, Next;
    NextBack(Term(y, k - 1), y, Square(k));
  }

  lemma PowTwo(f: real)
    ensures Pow(f, 2) == Sq(f)
  {
    assert Pow(f, 0) == 1.0;
    assert Pow(f, 1) == f * 1.0 == f;
    assert Pow(f, 2) == Times(f, Pow(f, 1));
    hide Pow;
  }

  /** The quotient the loop computes is the term. */
  lemma TermIsDiff(xdiv2: real, k: nat)
    ensures Pow(Factorial(k), 2) > 0.0
    ensures Pow(xdiv2, k * 2) / Pow(Factorial(k), 2) == Term(Sq(xdiv2), k)
  {
    var f := Factorial(k);
    assert f > 0.0;
    hide Pow, Term, Factorial, Sq, Times;
    PowDouble(xdiv2, k);
    TermClosed(Sq(xdiv2), k);
    PowTwo(f);
    DivUndo(Pow(Sq(xdiv2), k), Term(Sq(xdiv2), k), Sq(f));
  }

  // ---------- the loop ends ----------

  lemma {:induction false} TermNonNegative(y: real, k: nat)
    requires y >= 0.0
    ensures Term(y, k) >= 0.0
  {
    if k > 0 {
      TermNonNegative(y, k - 1);
      NextNonNeg(Term(y, k - 1), y, Square(k));
    }
  }

  /** From here on each term is at most half of the one before. */
  function HalvingFrom(y: real): nat
    requires y >= 0.0
  {
    (2.0 * y).Floor + 1
  }

  lemma SquareAtLeast(k: nat)
    requires k > 0
    ensures Square(k) >= k as real
  {
    MulMono(k as real, 1.0, k as real);
  }

  lemma MulOne(a: real, b: real)
    requires b == 1.0
    ensures a * b == a
  {
  }

  lemma {:induction false} Halving(y: real, m: nat)
    requires y >= 0.0
    ensures Term(y, HalvingFrom(y) + m) * ((m + 1) as real) <= Term(y, HalvingFrom(y))
  {
    hide Next, Square;
    var k := HalvingFrom(y);
    if m > 0 {
      Halving(y, m - 1);
      SquareAtLeast(k + m);
      TermNonNegative(y, k + m);
      TermNonNegative(y, k + m - 1);
      NextHalves(Term(y, k + m - 1), y, Square(k + m));
      HalvingStep(Term(y, k + m), Term(y, k + m - 1), Term(y, k), m as real);
      assert m as real + 1.0 == (m + 1) as real;
    } else {
      MulOne(Term(y, k + m), (m + 1) as real);
    }
  }

  /** An index whose term is certainly small. */
  function Bound(y: real): nat
    requires y >= 0.0
  {
    TermNonNegative(y, HalvingFrom(y));
    HalvingFrom(y) + (Term(y, HalvingFrom(y)) / EPSILON).Floor + 1
  }

  lemma BoundIsSmall(y: real)
    requires y >= 0.0
    ensures Term(y, Bound(y)) < EPSILON
  {
    hide Term;
    var k := HalvingFrom(y);
    TermNonNegative(y, k);
    var n := Term(y, k) / EPSILON;
    var m := n.Floor + 1;
    Halving(y, m);
    if Term(y, k + m) >= EPSILON {
      MulMono((m + 1) as real, EPSILON, Term(y, k + m));
      DivBack(Term(y, k), EPSILON);
      MulMono(EPSILON, n, m as real);
    }
  }

  /** The first index from `i` whose term is below the threshold. */
  function FirstSmall(y: real, i: nat): (n: nat)
    requires y >= 0.0 && i <= Bound(y)
    ensures i <= n <= Bound(y) && Term(y, n) < EPSILON
    ensures forall k :: i <= k < n ==> Term(y, k) >= EPSILON
    decreases Bound(y) - i
  {
    BoundIsSmall(y);
    if Term(y, i) < EPSILON then i else FirstSmall(y, i + 1)
  }

  lemma BoundIsPositive(y: real)
    requires y >= 0.0
    ensures Bound(y) >= 1
  {
    TermNonNegative(y, HalvingFrom(y));
  }

  /** The index at which the loop breaks. */
  function Stop(y: real): (n: nat)
    requires y >= 0.0
    ensures n >= 1 && Term(y, n) < EPSILON
    ensures forall k :: 1 <= k < n ==> Term(y, k) >= EPSILON
  {
    BoundIsPositive(y);
    FirstSmall(y, 1)
  }

  /** What the series loop returns. */
  function Series(y: real): real
    requires y >= 0.0
  {
    Sum(y, Stop(y))
  }

  /** `bessel`: the loop ends for every argument and returns the truncated series. */
  method Bessel(x: real) returns (i0: real)
    ensures Sq(x / 2.0) >= 0.0
    ensures i0 == Series(Sq(x / 2.0))
  {
    hide Term, Sum, Pow, Factorial, Stop, Sq;
    var xdiv2 := x / 2.0;
    ghost var y := Sq(xdiv2);
    i0 := 1.0;
    var f := 1.0;
    var i := 1;
    FirstStep(y);
    while true
      invariant 1 <= i <= Stop(y) && f == Factorial(i) && i0 == Sum(y, i)
      decreases Stop(y) - i
    {
      TermIsDiff(xdiv2, i);
      NextStep(y, i);
      var diff := Pow(xdiv2, i * 2) / Pow(f, 2);
      if diff < EPSILON {
        break;
      }
      i0 := i0 + diff;
      i := i + 1;
      f := f * (i as real);
    }
  }

  lemma FirstStep(y: real)
    ensures Sum(y, 1) == 1.0 && Factorial(1) == 1.0
  {
    assert Sum(y, 1) == Sum(y, 0) + Term(y, 0);
    assert Factorial(1) == Factorial(0) * 1.0;
  }

  lemma NextStep(y: real, i: nat)
    ensures Sum(y, i + 1) == Sum(y, i) + Term(y, i)
    ensures Factorial(i + 1) == Factorial(i) * ((i + 1) as real)
  {
  }

  // ---------- the terms after the last one added ----------

  lemma StopIsLarge(y: real)
    requires y >= 0.0
    ensures y < Square(Stop(y))
  {
    hide Next, Square;
    var s := Stop(y);
    assert Term(y, s) == Next(Term(y, s - 1), y, Square(s));
    assert Term(y, s - 1) >= EPSILON by {
      assert s == 1 ==> Term(y, s - 1) == 1.0;
    }
    if y >= Square(s) {
      NextRises(Term(y, s - 1), y, Square(s));
    }
  }

  /** Once below the threshold the terms never grow again. */
  lemma {:induction false} LaterTermsAreSmall(y: real, k: nat)
    requires y >= 0.0 && k >= Stop(y)
    ensures Term(y, k) <= Term(y, Stop(y)) < EPSILON
  {
    hide Next, Square, Stop;
    if k > Stop(y) {
      LaterTermsAreSmall(y, k - 1);
      StopIsLarge(y);
      SquaresGrow(Stop(y), k);
      TermNonNegative(y, k - 1);
      NextFalls(Term(y, k - 1), y, Square(k));
    }
  }

  /** What truncation loses after any number of further terms, as a geometric tail. */
  lemma {:induction false} Tail(y: real, s: nat, n: nat)
    requires y >= 0.0 && n >= s
    ensures (Sum(y, n) - Sum(y, s)) * (Square(s + 1) - y) <= Square(s + 1) * (Term(y, s) - Term(y, n))
  {
    hide Next, Square;
    if n > s {
      Tail(y, s, n - 1);
      TermNonNegative(y, n - 1);
      TailStep(Term(y, n - 1), y, s, n);
      assert Term(y, n) == Next(Term(y, n - 1), y, Square(n));
      AddTail(Sum(y, n - 1) - Sum(y, s), Term(y, n - 1), Term(y, n), Square(s + 1), y, Term(y, s));
    } else {
      Nothing(Square(s + 1), Square(s + 1) - y);
    }
  }

  lemma Nothing(a: real, b: real)
    ensures a * 0.0 == 0.0 && 0.0 * b == 0.0
  {
  }

  lemma TailStep(u: real, y: real, s: nat, n: nat)
    requires y >= 0.0 && s < n
    ensures u >= 0.0 ==> Next(u, y, Square(n)) * Square(s + 1) <= u * y
  {
    if u >= 0.0 {
      SquaresGrow(s + 1, n);
      hide Next, Square;
      NextNonNeg(u, y, Square(n));
      NextBack(u, y, Square(n));
      MulMono(Next(u, y, Square(n)), Square(s + 1), Square(n));
    }
  }

  /** The truncated series falls short of any longer partial sum by less than
      EPSILON * (s+1)^2 / (2s+1), where s is the number of terms kept. */
  lemma TruncationError(y: real, n: nat)
    requires y >= 0.0 && n >= Stop(y)
    ensures 0.0 <= Sum(y, n) - Series(y)
    ensures var s := Stop(y);
      (Sum(y, n) - Series(y)) * (Square(s + 1) - Square(s)) < EPSILON * Square(s + 1)
  {
    hide Term, Sum, Square;
    var s := Stop(y);
    var d, q, p := Sum(y, n) - Sum(y, s), Square(s + 1), Square(s);
    Tail(y, s, n);
    StopIsLarge(y);
    SumGrows(y, s, n);
    TermNonNegative(y, n);
    TailBound(d, q, p, y, Term(y, s) - Term(y, n));
  }

  lemma TailBound(d: real, q: real, p: real, y: real, t: real)
    requires d >= 0.0 && q > 0.0 && y < p && t < EPSILON && d * (q - y) <= q * t
    ensures d * (q - p) < EPSILON * q
  {
    MulMono(d, q - p, q - y);
    MulStrict(q, t, EPSILON);
  }

  // ---------- monotonicity ----------

  lemma {:induction false} SumGrows(y: real, n: nat, m: nat)
    requires y >= 0.0 && n <= m
    ensures Sum(y, n) <= Sum(y, m)
  {
    if n < m {
      SumGrows(y, n, m - 1);
      TermNonNegative(y, m - 1);
    }
  }

  lemma {:induction false} TermMono(y: real, z: real, k: nat)
    requires 0.0 <= y <= z
    ensures Term(y, k) <= Term(z, k)
  {
    hide Next, Square;
    if k > 0 {
      TermMono(y, z, k - 1);
      TermNonNegative(y, k - 1);
      NextMono(Term(y, k - 1), y, Term(z, k - 1), z, Square(k));
    }
  }

  lemma {:induction false} SumMono(y: real, z: real, n: nat)
    requires 0.0 <= y <= z
    ensures Sum(y, n) <= Sum(z, n)
  {
    if n > 0 {
      SumMono(y, z, n - 1);
      TermMono(y, z, n - 1);
    }
  }

  /** A larger argument never stops earlier and never gives a smaller result. */
  lemma SeriesMono(y: real, z: real)
    requires 0.0 <= y <= z
    ensures Stop(y) <= Stop(z) && 1.0 <= Series(y) <= Series(z)
  {
    TermMono(y, z, Stop(z));
    SumMono(y, z, Stop(y));
    SumGrows(z, Stop(y), Stop(z));
    SumGrows(y, 1, Stop(y));
    FirstStep(y);
  }

  // ---------- the window ----------

  /** The square of half the argument for entry `i` of a table of `n`. */
  function Arg(beta: real, n: nat, i: nat): real
    requires i < n
  {
    Times(Sq(beta / 2.0), 1.0 - Ratio(i, n))
  }

  /** (i/n)^2. */
  function Ratio(i: nat, n: nat): (r: real)
    requires i < n
    ensures 0.0 <= r < 1.0
  {
    FractionBelowOne(i as real, n as real);
    SqBelowOne(i as real / n as real);
    Sq(i as real / n as real)
  }

  lemma ArgIsSquare(beta: real, n: nat, i: nat)
    requires i < n
    ensures 0.0 <= Arg(beta, n, i) <= Sq(beta / 2.0)
  {
    var b := Sq(beta / 2.0);
    MulMono(b, 0.0, 1.0 - Ratio(i, n));
    MulMono(b, 1.0 - Ratio(i, n), 1.0);
  }

  /** The window factor of entry `i`. */
  function Window(beta: real, n: nat, i: nat): real
    requires i < n
  {
    ArgIsSquare(beta, n, i);
    SeriesMono(Arg(beta, n, i), Sq(beta / 2.0));
    Series(Arg(beta, n, i)) / Series(Sq(beta / 2.0))
  }

  /** The window starts at 1, never grows, and stays above 1/bessel(beta). */
  lemma WindowFalls(beta: real, n: nat, i: nat, j: nat)
    requires i <= j < n
    ensures Sq(beta / 2.0) >= 0.0 && Series(Sq(beta / 2.0)) >= 1.0
    ensures 1.0 / Series(Sq(beta / 2.0)) <= Window(beta, n, j) <= Window(beta, n, i) <= 1.0
    ensures Window(beta, n, 0) == 1.0
  {
    hide Series;
    var b := Sq(beta / 2.0);
    ArgIsSquare(beta, n, i);
    ArgIsSquare(beta, n, j);
    ArgFalls(beta, n, i, j);
    SeriesMono(Arg(beta, n, j), Arg(beta, n, i));
    SeriesMono(Arg(beta, n, i), b);
    DivOrder(1.0, Series(Arg(beta, n, j)), Series(b));
    DivOrder(Series(Arg(beta, n, j)), Series(Arg(beta, n, i)), Series(b));
    DivOrder(Series(Arg(beta, n, i)), Series(b), Series(b));
    DivUndo(Series(b), 1.0, Series(b));
  }

  lemma ArgFalls(beta: real, n: nat, i: nat, j: nat)
    requires i <= j < n
    ensures Arg(beta, n, j) <= Arg(beta, n, i)
    ensures Arg(beta, n, 0) == Sq(beta / 2.0)
  {
    var d := n as real;
    DivOrder(i as real, j as real, d);
    DivAbove(i as real, 0.0, d);
    SqMono(i as real / d, j as real / d);
    MulMono(Sq(beta / 2.0), 1.0 - Ratio(j, n), 1.0 - Ratio(i, n));
    assert Ratio(0, n) == 0.0;
  }

  /** `r` is the root of 1 - (i/n)^2. */
  ghost predicate IsRoot(r: real, i: nat, n: nat) {
    r >= 0.0 && r * r * (n as real * n as real) == n as real * n as real - i as real * i as real
  }

  lemma RootIs(r: real, i: nat, n: nat)
    requires i < n && IsRoot(r, i, n)
    ensures Sq(r) == 1.0 - Ratio(i, n)
  {
    var d, e := n as real, i as real;
    var q, m := e / d, d * d;
    DivBack(e, d);
    SquareBack(q, d, e);
    ProductPositive(d, d, m);
    SameShare(r * r, q * q, m, e * e);
  }

  lemma SquareBack(q: real, d: real, e: real)
    requires q * d == e
    ensures q * q * (d * d) == e * e
  {
    assert q * q * (d * d) == (q * d) * (q * d);
  }

  lemma SameShare(a: real, b: real, m: real, c: real)
    requires m > 0.0 && a * m == m - c && b * m == c
    ensures a == 1.0 - b
  {
    assert (1.0 - b) * m == m - b * m;
    MulCancel(a, 1.0 - b, m);
    MulCancel(1.0 - b, a, m);
  }

  /** The window factor is the quotient of the Bessel values at beta * sqrt(1 - (i/n)^2) and at beta. */
  lemma WindowIs(beta: real, n: nat, i: nat, r: real)
    requires i < n && IsRoot(r, i, n)
    ensures Times(Window(beta, n, i), Series(Sq(beta / 2.0))) == Series(Sq(beta * r / 2.0))
  {
    RootIs(r, i, n);
    hide Series, IsRoot, Ratio;
    var b := Sq(beta / 2.0);
    HalfRoot(beta, r, 1.0 - Ratio(i, n));
    ArgIsSquare(beta, n, i);
    SeriesMono(Arg(beta, n, i), b);
    QuotientBack(Series(Arg(beta, n, i)), Series(b));
  }

  lemma QuotientBack(a: real, d: real)
    requires d > 0.0
    ensures Times(a / d, d) == a
  {
    DivBack(a, d);
  }

  /** What entry `i` of a table of `n` must hold: bessel(beta * sqrt(1 - (i/n)^2)) / bessel(beta),
      times the cardinal sine of pi i/512. */
  ghost predicate WindowedSinc(entry: real, beta: real, n: nat, i: nat, sin: real -> real)
    requires i > 0
  {
    var x := i as real / 512.0 * PI;
    forall r :: IsRoot(r, i, n) ==>
      entry * Series(Sq(beta / 2.0)) == Series(Sq(beta * r / 2.0)) * (sin(x) / x)
  }

  lemma EntryIs(beta: real, n: nat, i: nat, sin: real -> real)
    requires 1 <= i < n
    ensures WindowedSinc(Window(beta, n, i) * (sin(Angle(i)) / Angle(i)), beta, n, i, sin)
  {
    hide Series, IsRoot, Window, Sq;
    var w, x := Window(beta, n, i), i as real / 512.0 * PI;
    assert x == Angle(i) > 0.0;
    var sinc := sin(x) / x;
    var entry := w * sinc;
    forall r | IsRoot(r, i, n) ensures entry * Series(Sq(beta / 2.0)) == Series(Sq(beta * r / 2.0)) * sinc {
      WindowIs(beta, n, i, r);
      FactorOut(entry, w, sinc, Series(Sq(beta / 2.0)), Series(Sq(beta * r / 2.0)));
    }
  }

  lemma FactorOut(entry: real, w: real, q: real, s: real, b: real)
    requires entry == w * q && Times(w, s) == b
    ensures entry * s == b * q
  {
    assert w * q * s == (w * s) * q;
  }

  /** `kaiser_and_sinc`, for any function that squares back and any sine. */
  method KaiserAndSinc(table: array<real>, beta: real, sqrt: real -> real, sin: real -> real)
    requires table.Length > 0
    requires forall v: real :: v >= 0.0 ==> sqrt(v) * sqrt(v) == v
    modifies table
    ensures table[0] == 1.0
    ensures forall i :: 1 <= i < table.Length ==>
      table[i] == Window(beta, table.Length, i) * (sin(Angle(i)) / Angle(i))
    ensures forall i :: 1 <= i < table.Length ==> WindowedSinc(table[i], beta, table.Length, i, sin)
  {
    hide Sq, Series, Ratio, Window, WindowedSinc;
    var n := table.Length;
    var besselBeta := Bessel(beta);
    table[0] := 1.0;
    for i := 1 to n
      invariant table[0] == 1.0
      invariant forall k :: 1 <= k < i ==> table[k] == Window(beta, n, k) * (sin(Angle(k)) / Angle(k))
    {
      var kaiser := KaiserFactor(beta, n, i, besselBeta, sqrt);
      var x := Angle(i);
      table[i] := kaiser * (sin(x) / x);
    }
    forall i | 1 <= i < n ensures WindowedSinc(table[i], beta, n, i, sin) {
      EntryIs(beta, n, i, sin);
    }
  }

  /** The `kaiser` of one loop pass. */
  method KaiserFactor(beta: real, n: nat, i: nat, besselBeta: real, sqrt: real -> real)
    returns (kaiser: real)
    requires i < n && Sq(beta / 2.0) >= 0.0 && besselBeta == Series(Sq(beta / 2.0))
    requires forall v: real :: v >= 0.0 ==> sqrt(v) * sqrt(v) == v
    ensures kaiser == Window(beta, n, i)
  {
    hide Sq, Series, Ratio, Times;
    assert 0.0 <= Ratio(i, n) < 1.0;
    var root := sqrt(1.0 - Ratio(i, n));
    HalfRoot(beta, root, 1.0 - Ratio(i, n));
    ArgIsSquare(beta, n, i);
    SeriesMono(Arg(beta, n, i), Sq(beta / 2.0));
    var value := Bessel(beta * root);
    assert value == Series(Arg(beta, n, i));
    kaiser := value / besselBeta;
  }

  function Angle(i: nat): (x: real)
    ensures i > 0 ==> x > 0.0
  {
    i as real / (SAMPLES_PER_ZERO_CROSSING as real) * PI
  }

  lemma HalfRoot(beta: real, root: real, v: real)
    requires root * root == v
    ensures Sq(beta * root / 2.0) == Times(Sq(beta / 2.0), v)
  {
    assert beta * root / 2.0 == beta / 2.0 * root;
    SqProduct(beta / 2.0, root);
  }
}
