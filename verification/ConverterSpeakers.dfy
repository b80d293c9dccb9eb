/** The loudspeakers behind the channels, and what each conversion table promises them. */
module ConverterSpeakers {
  import opened ConverterProgram
  import opened ConverterGenerator
  import opened ConverterCorrectness
  import opened ConverterTable

  datatype Speaker =
    | FrontLeft | FrontRight | FrontCenter | LowFrequency
    | BackLeft | BackRight | BackCenter | SideLeft | SideRight

  /** `channel_names`. */
  function Layout(chans: nat): (l: seq<Speaker>)
    ensures 1 <= chans <= 8 ==> |l| == chans
  {
    match chans
    case 1 => [FrontCenter]
    case 2 => [FrontLeft, FrontRight]
    case 3 => [FrontLeft, FrontRight, LowFrequency]
    case 4 => [FrontLeft, FrontRight, BackLeft, BackRight]
    case 5 => [FrontLeft, FrontRight, LowFrequency, BackLeft, BackRight]
    case 6 => [FrontLeft, FrontRight, FrontCenter, LowFrequency, BackLeft, BackRight]
    case 7 => [FrontLeft, FrontRight, FrontCenter, LowFrequency, BackCenter, SideLeft, SideRight]
    case 8 => [FrontLeft, FrontRight, FrontCenter, LowFrequency, BackLeft, BackRight, SideLeft, SideRight]
    case _ => []
  }

  /** The speaker on the other side. */
  function Opposite(s: Speaker): Speaker {
    match s
    case FrontLeft => FrontRight
    case FrontRight => FrontLeft
    case BackLeft => BackRight
    case BackRight => BackLeft
    case SideLeft => SideRight
    case SideRight => SideLeft
    case _ => s
  }

  /** The channel of the speaker on the other side: left speakers come right before theirs. */
  function Mirror(chans: nat, i: nat): (k: nat)
    requires i < |Layout(chans)|
    ensures k < |Layout(chans)|
  {
    match Layout(chans)[i]
    case FrontLeft => i + 1
    case BackLeft => i + 1
    case SideLeft => i + 1
    case FrontRight => i - 1
    case BackRight => i - 1
    case SideRight => i - 1
    case _ => i
  }

  lemma MirrorIs(chans: nat, i: nat)
    requires 1 <= chans <= 8 && i < chans
    ensures Layout(chans)[Mirror(chans, i)] == Opposite(Layout(chans)[i])
    ensures Mirror(chans, Mirror(chans, i)) == i
  {
  }

  // ---------- one table ----------

  /** `b` is row `a` with the speakers of each pair exchanged. */
  predicate Flipped(a: seq<real>, b: seq<real>, n: nat) {
    && |a| == |b| == n
    && match n
       case 1 => a[0] == b[0]
       case 2 => a[0] == b[1] && a[1] == b[0]
       case 3 => a[0] == b[1] && a[1] == b[0] && a[2] == b[2]
       case 4 => a[0] == b[1] && a[1] == b[0] && a[2] == b[3] && a[3] == b[2]
       case 5 => a[0] == b[1] && a[1] == b[0] && a[2] == b[2] && a[3] == b[4] && a[4] == b[3]
       case 6 => a[0] == b[1] && a[1] == b[0] && a[2] == b[2] && a[3] == b[3] && a[4] == b[5] && a[5] == b[4]
       case 7 => a[0] == b[1] && a[1] == b[0] && a[2] == b[2] && a[3] == b[3] && a[4] == b[4] && a[5] == b[6]
         && a[6] == b[5]
       case 8 => a[0] == b[1] && a[1] == b[0] && a[2] == b[2] && a[3] == b[3] && a[4] == b[5] && a[5] == b[4]
         && a[6] == b[7] && a[7] == b[6]
       case _ => false
  }

  /** Exchanging the speakers of each pair in the inputs and in the outputs changes nothing. */
  predicate Even(rows: Rows, n: nat, t: nat)
    requires |rows| == t
  {
    match t
    case 1 => Flipped(rows[0], rows[0], n)
    case 2 => Flipped(rows[0], rows[1], n)
    case 3 => Flipped(rows[0], rows[1], n) && Flipped(rows[2], rows[2], n)
    case 4 => Flipped(rows[0], rows[1], n) && Flipped(rows[2], rows[3], n)
    case 5 => Flipped(rows[0], rows[1], n) && Flipped(rows[2], rows[2], n) && Flipped(rows[3], rows[4], n)
    case 6 => Flipped(rows[0], rows[1], n) && Flipped(rows[2], rows[2], n) && Flipped(rows[3], rows[3], n)
      && Flipped(rows[4], rows[5], n)
    case 7 => Flipped(rows[0], rows[1], n) && Flipped(rows[2], rows[2], n) && Flipped(rows[3], rows[3], n)
      && Flipped(rows[4], rows[4], n) && Flipped(rows[5], rows[6], n)
    case 8 => Flipped(rows[0], rows[1], n) && Flipped(rows[2], rows[2], n) && Flipped(rows[3], rows[3], n)
      && Flipped(rows[4], rows[5], n) && Flipped(rows[6], rows[7], n)
    case _ => false
  }

  function RowSum(row: seq<real>, n: nat): real
    requires n <= |row|
  {
    if n == 0 then 0.0 else RowSum(row, n - 1) + row[n - 1]
  }

  /** No output is louder than the inputs, up to the rounding of the tables. */
  predicate Bounded(rows: Rows, n: nat) {
    forall j :: 0 <= j < |rows| ==> |rows[j]| == n && RowSum(rows[j], n) <= 1.002
  }

  predicate Positive(row: seq<real>, n: nat)
    requires n <= |row|
  {
    n == 0 || (Positive(row, n - 1) && row[n - 1] >= 0.0)
  }

  predicate NonNegative(rows: Rows, n: nat) {
    forall j :: 0 <= j < |rows| && |rows[j]| == n ==> Positive(rows[j], n)
  }

  lemma {:induction false} PositiveAt(row: seq<real>, n: nat, i: nat)
    requires i < n <= |row| && Positive(row, n)
    ensures row[i] >= 0.0
  {
    if i < n - 1 {
      PositiveAt(row, n - 1, i);
    }
  }

  /** Some output plays input `i`. */
  predicate Heard(rows: Rows, n: nat, t: nat, i: nat)
    requires i < n && |rows| == t && forall j :: 0 <= j < |rows| ==> |rows[j]| == n
  {
    match t
    case 1 => rows[0][i] > 0.0
    case 2 => rows[0][i] > 0.0 || rows[1][i] > 0.0
    case 3 => rows[0][i] > 0.0 || rows[1][i] > 0.0 || rows[2][i] > 0.0
    case 4 => rows[0][i] > 0.0 || rows[1][i] > 0.0 || rows[2][i] > 0.0 || rows[3][i] > 0.0
    case 5 => rows[0][i] > 0.0 || rows[1][i] > 0.0 || rows[2][i] > 0.0 || rows[3][i] > 0.0 || rows[4][i] > 0.0
    case 6 => rows[0][i] > 0.0 || rows[1][i] > 0.0 || rows[2][i] > 0.0 || rows[3][i] > 0.0 || rows[4][i] > 0.0
      || rows[5][i] > 0.0
    case 7 => rows[0][i] > 0.0 || rows[1][i] > 0.0 || rows[2][i] > 0.0 || rows[3][i] > 0.0 || rows[4][i] > 0.0
      || rows[5][i] > 0.0 || rows[6][i] > 0.0
    case 8 => rows[0][i] > 0.0 || rows[1][i] > 0.0 || rows[2][i] > 0.0 || rows[3][i] > 0.0 || rows[4][i] > 0.0
      || rows[5][i] > 0.0 || rows[6][i] > 0.0 || rows[7][i] > 0.0
    case _ => false
  }

  /** What a table of `t` rows for `n` inputs promises: no input is inverted, none is left out, no
      output is amplified, and both sides are treated alike. */
  predicate Fair(rows: Rows, n: nat, t: nat) {
    && |rows| == t && Bounded(rows, n) && NonNegative(rows, n) && Even(rows, n, t)
    && forall i: nat :: i < n ==> Heard(rows, n, t, i)
  }

  // ---------- the tables, one source layout after the other ----------

  lemma Rows1Fair(t: nat)
    requires 1 <= t <= 8
    ensures Fair(Rows1(t), 1, t)
  {
  }

  lemma Rows2Fair(t: nat)
    requires 1 <= t <= 8
    ensures Fair(Rows2(t), 2, t)
  {
  }

  lemma Rows3Bounded(t: nat)
    requires 1 <= t <= 8
    ensures Bounded(Rows3(t), 3)
  {
  }

  lemma Rows3NonNegative(t: nat)
    requires 1 <= t <= 8
    ensures NonNegative(Rows3(t), 3)
  {
  }

  lemma Rows3Even(t: nat)
    requires 1 <= t <= 8
    ensures |Rows3(t)| == t && Even(Rows3(t), 3, t)
  {
  }

  lemma Rows3Heard(t: nat, i: nat)
    requires 1 <= t <= 8 && i < 3 && |Rows3(t)| == t && Bounded(Rows3(t), 3)
    ensures Heard(Rows3(t), 3, t, i)
  {
  }

  lemma Rows3Fair(t: nat)
    requires 1 <= t <= 8
    ensures Fair(Rows3(t), 3, t)
  {
    Rows3Bounded(t);
    Rows3NonNegative(t);
    Rows3Even(t);
    hide Rows3, Bounded, NonNegative, Even;
    forall i: nat | i < 3 ensures Heard(Rows3(t), 3, t, i) {
      Rows3Heard(t, i);
    }
  }

  lemma Rows4Bounded(t: nat)
    requires 1 <= t <= 8
    ensures Bounded(Rows4(t), 4)
  {
  }

  lemma Rows4NonNegative(t: nat)
    requires 1 <= t <= 8
    ensures NonNegative(Rows4(t), 4)
  {
  }

  lemma Rows4Even(t: nat)
    requires 1 <= t <= 8
    ensures |Rows4(t)| == t && Even(Rows4(t), 4, t)
  {
  }

  lemma Rows4Heard(t: nat, i: nat)
    requires 1 <= t <= 8 && i < 4 && |Rows4(t)| == t && Bounded(Rows4(t), 4)
    ensures Heard(Rows4(t), 4, t, i)
  {
  }

  lemma Rows4Fair(t: nat)
    requires 1 <= t <= 8
    ensures Fair(Rows4(t), 4, t)
  {
    Rows4Bounded(t);
    Rows4NonNegative(t);
    Rows4Even(t);
    hide Rows4, Bounded, NonNegative, Even;
    forall i: nat | i < 4 ensures Heard(Rows4(t), 4, t, i) {
      Rows4Heard(t, i);
    }
  }

  lemma Rows5Bounded(t: nat)
    requires 1 <= t <= 8
    ensures Bounded(Rows5(t), 5)
  {
  }

  lemma Rows5NonNegative(t: nat)
    requires 1 <= t <= 8
    ensures NonNegative(Rows5(t), 5)
  {
  }

  lemma Rows5Even(t: nat)
    requires 1 <= t <= 8
    ensures |Rows5(t)| == t && Even(Rows5(t), 5, t)
  {
  }

  lemma Rows5Heard(t: nat, i: nat)
    requires 1 <= t <= 8 && i < 5 && |Rows5(t)| == t && Bounded(Rows5(t), 5)
    ensures Heard(Rows5(t), 5, t, i)
  {
  }

  lemma Rows5Fair(t: nat)
    requires 1 <= t <= 8
    ensures Fair(Rows5(t), 5, t)
  {
    Rows5Bounded(t);
    Rows5NonNegative(t);
    Rows5Even(t);
    hide Rows5, Bounded, NonNegative, Even;
    forall i: nat | i < 5 ensures Heard(Rows5(t), 5, t, i) {
      Rows5Heard(t, i);
    }
  }

  lemma Rows6Bounded(t: nat)
    requires 1 <= t <= 8
    ensures Bounded(Rows6(t), 6)
  {
  }

  lemma Rows6NonNegative(t: nat)
    requires 1 <= t <= 8
    ensures NonNegative(Rows6(t), 6)
  {
  }

  lemma Rows6Even(t: nat)
    requires 1 <= t <= 8
    ensures |Rows6(t)| == t && Even(Rows6(t), 6, t)
  {
  }

  lemma Rows6Heard(t: nat, i: nat)
    requires 1 <= t <= 8 && i < 6 && |Rows6(t)| == t && Bounded(Rows6(t), 6)
    ensures Heard(Rows6(t), 6, t, i)
  {
  }

  lemma Rows6Fair(t: nat)
    requires 1 <= t <= 8
    ensures Fair(Rows6(t), 6, t)
  {
    Rows6Bounded(t);
    Rows6NonNegative(t);
    Rows6Even(t);
    hide Rows6, Bounded, NonNegative, Even;
    forall i: nat | i < 6 ensures Heard(Rows6(t), 6, t, i) {
      Rows6Heard(t, i);
    }
  }

  lemma Rows7BoundedWide(t: nat)
    requires 6 <= t <= 8
    ensures Bounded(Rows7(t), 7)
  {
  }

  lemma Rows7Bounded(t: nat)
    requires 1 <= t <= 8
    ensures Bounded(Rows7(t), 7)
  {
    if t >= 6 {
      Rows7BoundedWide(t);
    }
  }

  lemma Rows7NonNegative(t: nat)
    requires 1 <= t <= 8
    ensures NonNegative(Rows7(t), 7)
  {
  }

  lemma Rows7Even(t: nat)
    requires 1 <= t <= 8
    ensures |Rows7(t)| == t && Even(Rows7(t), 7, t)
  {
  }

  lemma Rows7HeardWide(t: nat, i: nat)
    requires 6 <= t <= 8 && i < 7 && |Rows7(t)| == t && Bounded(Rows7(t), 7)
    ensures Heard(Rows7(t), 7, t, i)
  {
  }

  lemma Rows7Heard(t: nat, i: nat)
    requires 1 <= t <= 8 && i < 7 && |Rows7(t)| == t && Bounded(Rows7(t), 7)
    ensures Heard(Rows7(t), 7, t, i)
  {
    if t >= 6 {
      Rows7HeardWide(t, i);
    }
  }

  lemma Rows7Fair(t: nat)
    requires 1 <= t <= 8
    ensures Fair(Rows7(t), 7, t)
  {
    Rows7Bounded(t);
    Rows7NonNegative(t);
    Rows7Even(t);
    hide Rows7, Bounded, NonNegative, Even;
    forall i: nat | i < 7 ensures Heard(Rows7(t), 7, t, i) {
      Rows7Heard(t, i);
    }
  }

  lemma Rows8BoundedWide(t: nat)
    requires 6 <= t <= 8
    ensures Bounded(Rows8(t), 8)
  {
  }

  lemma Rows8Bounded(t: nat)
    requires 1 <= t <= 8
    ensures Bounded(Rows8(t), 8)
  {
    if t >= 6 {
      Rows8BoundedWide(t);
    }
  }

  lemma Rows8NonNegative(t: nat)
    requires 1 <= t <= 8
    ensures NonNegative(Rows8(t), 8)
  {
  }

  lemma Rows8EvenWide(t: nat)
    requires 6 <= t <= 8
    ensures |Rows8(t)| == t && Even(Rows8(t), 8, t)
  {
  }

  lemma Rows8Even(t: nat)
    requires 1 <= t <= 8
    ensures |Rows8(t)| == t && Even(Rows8(t), 8, t)
  {
    if t >= 6 {
      Rows8EvenWide(t);
    }
  }

  lemma Rows8HeardWide(t: nat, i: nat)
    requires 6 <= t <= 8 && i < 8 && |Rows8(t)| == t && Bounded(Rows8(t), 8)
    ensures Heard(Rows8(t), 8, t, i)
  {
  }

  lemma Rows8Heard(t: nat, i: nat)
    requires 1 <= t <= 8 && i < 8 && |Rows8(t)| == t && Bounded(Rows8(t), 8)
    ensures Heard(Rows8(t), 8, t, i)
  {
    if t >= 6 {
      Rows8HeardWide(t, i);
    }
  }

  lemma Rows8Fair(t: nat)
    requires 1 <= t <= 8
    ensures Fair(Rows8(t), 8, t)
  {
    Rows8Bounded(t);
    Rows8NonNegative(t);
    Rows8Even(t);
    hide Rows8, Bounded, NonNegative, Even;
    forall i: nat | i < 8 ensures Heard(Rows8(t), 8, t, i) {
      Rows8Heard(t, i);
    }
  }

  lemma RowsAreFair(n: nat, t: nat)
    requires 1 <= n <= 8 && 1 <= t <= 8
    ensures Fair(TableRows(n, t), n, t)
  {
    hide Rows1, Rows2, Rows3, Rows4, Rows5, Rows6, Rows7, Rows8, Fair;
    match n
    case 1 => Rows1Fair(t);
    case 2 => Rows2Fair(t);
    case 3 => Rows3Fair(t);
    case 4 => Rows4Fair(t);
    case 5 => Rows5Fair(t);
    case 6 => Rows6Fair(t);
    case 7 => Rows7Fair(t);
    case 8 => Rows8Fair(t);
  }
}
