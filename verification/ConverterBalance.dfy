/** What the printed converters promise the loudspeakers: neither side is preferred, and nothing gets
    louder. */
module ConverterBalance {
  import opened Wrappers
  import opened ConverterProgram
  import opened ConverterGenerator
  import opened ConverterCorrectness
  import opened ConverterTable
  import opened ConverterSpeakers
  import opened RealFacts

  // ---------- rows ----------

  /** Two rows of coefficients, or of products with samples, that differ by exchanging each pair. */
  predicate Swapped(a: seq<real>, b: seq<real>, n: nat)
    requires 1 <= n <= 8
  {
    |a| == |b| == n && forall i | 0 <= i < n :: b[Mirror(n, i)] == a[i]
  }

  lemma SwappedIsFlipped(a: seq<real>, b: seq<real>, n: nat)
    requires 1 <= n <= 8
    ensures Swapped(a, b, n) <==> Flipped(a, b, n)
  {
  }

  lemma SwappedSum(a: seq<real>, b: seq<real>, n: nat)
    requires 1 <= n <= 8 && Swapped(a, b, n)
    ensures RowSum(a, n) == RowSum(b, n)
  {
    SwappedIsFlipped(a, b, n);
    SumIs(a);
    SumIs(b);
    hide RowSum;
  }

  /** The sum of a row, written out. */
  lemma SumIs(a: seq<real>)
    ensures |a| == 1 ==> RowSum(a, 1) == a[0]
    ensures |a| == 2 ==> RowSum(a, 2) == a[0] + a[1]
    ensures |a| == 3 ==> RowSum(a, 3) == a[0] + a[1] + a[2]
    ensures |a| == 4 ==> RowSum(a, 4) == a[0] + a[1] + a[2] + a[3]
    ensures |a| == 5 ==> RowSum(a, 5) == a[0] + a[1] + a[2] + a[3] + a[4]
    ensures |a| == 6 ==> RowSum(a, 6) == a[0] + a[1] + a[2] + a[3] + a[4] + a[5]
    ensures |a| == 7 ==> RowSum(a, 7) == a[0] + a[1] + a[2] + a[3] + a[4] + a[5] + a[6]
    ensures |a| == 8 ==> RowSum(a, 8) == a[0] + a[1] + a[2] + a[3] + a[4] + a[5] + a[6] + a[7]
  {
    forall k: nat | 0 < k <= |a| ensures RowSum(a, k) == RowSum(a, k - 1) + a[k - 1] {
    }
  }

  // ---------- tables ----------

  /** The row that holds the coefficients of output `j`. */
  lemma RowIs(n: nat, t: nat, j: nat)
    requires 1 <= n <= 8 && 1 <= t <= 8 && j < t
    ensures var rows := TableRows(n, t);
      && |rows| == t && |rows[j]| == n
      && forall i: nat :: i < n ==> Coef(Table(n, t), n, j, i) == rows[j][i]
  {
    RowsAreFair(n, t);
    hide TableRows, Coef, Flatten, Even, NonNegative, Heard;
    forall i: nat | i < n ensures Coef(Table(n, t), n, j, i) == TableRows(n, t)[j][i] {
      FlattenAt(TableRows(n, t), n, t, j, i);
    }
  }

  /** Rows `j` of an even table and of the speaker opposite. */
  lemma EvenRows(rows: Rows, n: nat, t: nat, j: nat)
    requires 1 <= n <= 8 && 1 <= t <= 8 && j < t && |rows| == t && Even(rows, n, t)
    ensures Mirror(t, j) < t && Swapped(rows[j], rows[Mirror(t, j)], n)
  {
    MirrorIs(t, j);
    hide Flipped;
    assert Flipped(rows[j], rows[Mirror(t, j)], n) || Flipped(rows[Mirror(t, j)], rows[j], n);
    SwappedIsFlipped(rows[j], rows[Mirror(t, j)], n);
    SwappedIsFlipped(rows[Mirror(t, j)], rows[j], n);
    SwappedBack(rows[Mirror(t, j)], rows[j], n);
  }

  lemma SwappedBack(a: seq<real>, b: seq<real>, n: nat)
    requires 1 <= n <= 8
    ensures Swapped(a, b, n) ==> Swapped(b, a, n)
  {
    if Swapped(a, b, n) {
      forall i: nat | i < n ensures a[Mirror(n, i)] == b[i] {
        MirrorIs(n, i);
        assert b[Mirror(n, Mirror(n, i))] == a[Mirror(n, i)];
      }
    }
  }

  // ---------- frames ----------

  /** The samples of a frame. */
  function Frame(buf: seq<real>, src: int, n: nat): (s: seq<real>)
    ensures |s| == n
  {
    seq(n, i requires 0 <= i < n => At(buf, src + i))
  }

  /** The products that make up output `j` of a frame. */
  function Products(m: Matrix, n: nat, j: nat, buf: seq<real>, src: int): (s: seq<real>)
    ensures |s| == n
  {
    seq(n, i requires 0 <= i < n => Times(Coef(m, n, j, i), At(buf, src + i)))
  }

  lemma {:induction false} MixIsSum(m: Matrix, n: nat, j: nat, buf: seq<real>, src: int, k: nat)
    requires k <= n
    ensures Mix(m, n, j, buf, src, k) == RowSum(Products(m, n, j, buf, src), k)
  {
    hide Coef, At;
    if k > 0 {
      MixIsSum(m, n, j, buf, src, k - 1);
    }
  }

  /** Rows and frames swapped alike have their products swapped. */
  lemma ProductsSwapped(m: Matrix, n: nat, j: nat, k: nat, a: seq<real>, b: seq<real>, src: int,
      row: seq<real>, other: seq<real>)
    requires 1 <= n <= 8 && Swapped(row, other, n) && Swapped(Frame(a, src, n), Frame(b, src, n), n)
    requires forall i: nat :: i < n ==> Coef(m, n, j, i) == row[i] && Coef(m, n, k, i) == other[i]
    ensures Swapped(Products(m, n, j, a, src), Products(m, n, k, b, src), n)
  {
    hide Coef, At, Mirror, Times, Layout;
    var x, y := Products(m, n, j, a, src), Products(m, n, k, b, src);
    forall i: nat | i < n ensures y[Mirror(n, i)] == x[i] {
      var o := Mirror(n, i);
      assert At(b, src + o) == Frame(b, src, n)[o] == Frame(a, src, n)[i] == At(a, src + i);
      assert Coef(m, n, k, o) == other[o] == row[i] == Coef(m, n, j, i);
    }
  }

  /** A frame with the speakers of each pair exchanged gives such a frame. */
  lemma MixMirrors(n: nat, t: nat, j: nat, a: seq<real>, b: seq<real>, src: int)
    requires 1 <= n <= 8 && 1 <= t <= 8 && j < t && Swapped(Frame(a, src, n), Frame(b, src, n), n)
    ensures Mix(Table(n, t), n, Mirror(t, j), b, src, n) == Mix(Table(n, t), n, j, a, src, n)
  {
    hide Coef, At, Table, TableRows, Mirror, Even, Bounded, NonNegative, Heard, Mix, Swapped, Frame;
    var m, k := Table(n, t), Mirror(t, j);
    RowsAreFair(n, t);
    EvenRows(TableRows(n, t), n, t, j);
    RowIs(n, t, j);
    RowIs(n, t, k);
    MixIsSum(m, n, j, a, src, n);
    MixIsSum(m, n, k, b, src, n);
    ProductsSwapped(m, n, j, k, a, b, src, TableRows(n, t)[j], TableRows(n, t)[k]);
    SwappedSum(Products(m, n, j, a, src), Products(m, n, k, b, src), n);
  }

  /** No sample is further from zero than `a`. */
  predicate Within(x: seq<real>, a: real) {
    forall i :: 0 <= i < |x| ==> -a <= x[i] <= a
  }

  lemma ScaleBound(c: real, x: real, a: real)
    requires c >= 0.0 && -a <= x <= a
    ensures -Times(c, a) <= c * x <= Times(c, a)
  {
    MulMono(c, -a, x);
    MulMono(c, x, a);
  }

  lemma {:induction false} MixBound(m: Matrix, n: nat, j: nat, buf: seq<real>, src: int, row: seq<real>, a: real,
      k: nat)
    requires k <= n == |row| && a >= 0.0 && Within(Frame(buf, src, n), a)
    requires forall i: nat :: i < n ==> Coef(m, n, j, i) == row[i] >= 0.0
    ensures -Times(RowSum(row, k), a) <= Mix(m, n, j, buf, src, k) <= Times(RowSum(row, k), a)
  {
    hide Coef, At, Times;
    if k == 0 {
      ZeroTimes(a);
    } else {
      MixBound(m, n, j, buf, src, row, a, k - 1);
      assert Frame(buf, src, n)[k - 1] == At(buf, src + k - 1);
      ScaleBound(row[k - 1], At(buf, src + k - 1), a);
      TimesAdds(RowSum(row, k - 1), row[k - 1], a);
    }
  }

  lemma MixIsBounded(n: nat, t: nat, j: nat, buf: seq<real>, src: int, a: real)
    requires 1 <= n <= 8 && 1 <= t <= 8 && j < t && a >= 0.0 && Within(Frame(buf, src, n), a)
    ensures -1.002 * a <= Mix(Table(n, t), n, j, buf, src, n) <= 1.002 * a
  {
    hide Coef, At, Table, TableRows, Even, Heard, Mix, Within, Frame, RowSum;
    RowsAreFair(n, t);
    RowIs(n, t, j);
    var row := TableRows(n, t)[j];
    forall i: nat | i < n ensures row[i] >= 0.0 {
      PositiveAt(row, n, i);
    }
    MixBound(Table(n, t), n, j, buf, src, row, a, n);
    MulMono(a, RowSum(row, n), 1.002);
  }

  lemma ZeroTimes(a: real)
    ensures Times(0.0, a) == 0.0
  {
  }

  lemma TimesAdds(b: real, c: real, a: real)
    ensures Times(b + c, a) == Times(b, a) + Times(c, a)
  {
  }

  // ---------- converters ----------

  /** `p` is the converter printed for these layouts, and the buffer has room for the frames. */
  ghost predicate Printed(n: nat, t: nat, p: Program, buf: seq<real>, frames: nat) {
    && 1 <= n <= 8 && 1 <= t <= 8 && n != t
    && Generate(Table(n, t), n, t) == Some(p) && Room(|buf|, n, t, frames)
  }

  lemma ConvertedAt(n: nat, t: nat, p: Program, buf: seq<real>, frames: nat, k: nat, j: nat)
    requires Printed(n, t, p, buf, frames) && k < frames && j < t
    ensures Frame(Run(p, buf, frames), Offset(k, t), t)[j] == Mix(Table(n, t), n, j, buf, Offset(k, n), n)
  {
    hide Table, Generate, Run, At, Offset, Mix, Fits;
    EveryConverterConverts(n, t);
    assert IsProduct(Table(n, t), n, t, buf, frames, Run(p, buf, frames));
    assert FrameDone(Table(n, t), n, t, buf, Run(p, buf, frames), k);
  }

  /** Frame by frame, `b` is `a` with the speakers of each pair exchanged. */
  ghost predicate SidesSwapped(a: seq<real>, b: seq<real>, frames: nat, n: nat) {
    1 <= n <= 8
    && forall k: nat :: k < frames ==> Swapped(Frame(a, Offset(k, n), n), Frame(b, Offset(k, n), n), n)
  }

  /** Every printed converter turns the same sound with left and right exchanged into the same sound
      with left and right exchanged. */
  lemma SidesAreAlike(n: nat, t: nat, p: Program, a: seq<real>, b: seq<real>, frames: nat)
    requires Printed(n, t, p, a, frames) && Printed(n, t, p, b, frames) && SidesSwapped(a, b, frames, n)
    ensures SidesSwapped(Run(p, a, frames), Run(p, b, frames), frames, t)
  {
    hide Generate, Run, Offset, Mix, Mirror, Frame, Room;
    forall k: nat | k < frames
      ensures Swapped(Frame(Run(p, a, frames), Offset(k, t), t), Frame(Run(p, b, frames), Offset(k, t), t), t)
    {
      var src := Offset(k, n);
      assert Swapped(Frame(a, src, n), Frame(b, src, n), n);
      SwappedFrame(n, t, p, a, b, frames, k);
    }
  }

  lemma SwappedFrame(n: nat, t: nat, p: Program, a: seq<real>, b: seq<real>, frames: nat, k: nat)
    requires Printed(n, t, p, a, frames) && Printed(n, t, p, b, frames) && k < frames
    requires Swapped(Frame(a, Offset(k, n), n), Frame(b, Offset(k, n), n), n)
    ensures Swapped(Frame(Run(p, a, frames), Offset(k, t), t), Frame(Run(p, b, frames), Offset(k, t), t), t)
  {
    var x, y := Frame(Run(p, a, frames), Offset(k, t), t), Frame(Run(p, b, frames), Offset(k, t), t);
    hide Run, Offset, Mix, Mirror, Frame, Table, Generate, Room;
    forall j: nat | j < t ensures y[Mirror(t, j)] == x[j] {
      ConvertedAt(n, t, p, a, frames, k, j);
      ConvertedAt(n, t, p, b, frames, k, Mirror(t, j));
      MixMirrors(n, t, j, a, b, Offset(k, n));
    }
  }

  /** No printed converter lets a sample grow beyond the loudest of its frame, up to the rounding of
      the tables. */
  lemma NothingGetsLouder(n: nat, t: nat, p: Program, buf: seq<real>, frames: nat, k: nat, a: real)
    requires Printed(n, t, p, buf, frames) && k < frames && a >= 0.0 && Within(Frame(buf, Offset(k, n), n), a)
    ensures Within(Frame(Run(p, buf, frames), Offset(k, t), t), 1.002 * a)
  {
    var x := Frame(Run(p, buf, frames), Offset(k, t), t);
    hide Run, Offset, Mix, Frame, Table, Generate, Room;
    forall j: nat | j < t ensures -1.002 * a <= x[j] <= 1.002 * a {
      ConvertedAt(n, t, p, buf, frames, k, j);
      MixIsBounded(n, t, j, buf, Offset(k, n), a);
    }
  }

  /** Every input is played by some output. */
  lemma NothingIsDropped(n: nat, t: nat, i: nat)
    requires 1 <= n <= 8 && 1 <= t <= 8 && i < n
    ensures exists j: nat :: j < t && Coef(Table(n, t), n, j, i) > 0.0
  {
    RowsAreFair(n, t);
    forall j: nat | j < t ensures Coef(Table(n, t), n, j, i) == TableRows(n, t)[j][i] {
      RowIs(n, t, j);
    }
    hide Coef, Table, TableRows, Even;
    assert Heard(TableRows(n, t), n, t, i);
  }
}
