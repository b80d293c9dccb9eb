/** A printed converter, run in place, computes the matrix product of every frame exactly when
    no input channel that is read straight from the buffer is read after being overwritten. */
module ConverterCorrectness {
  import opened Wrappers
  import opened ConverterProgram
  import opened ConverterGenerator

  /** Output `j` of the frame at `src`, over its first `i` inputs. */
  function Mix(m: Matrix, fromChans: nat, j: nat, buf: seq<real>, src: int, i: nat): real {
    if i == 0 then 0.0
    else Mix(m, fromChans, j, buf, src, i - 1) + Coef(m, fromChans, j, i - 1) * At(buf, src + i - 1)
  }

  /** `r` holds the converted frame `f` of `buf`. */
  predicate FrameDone(m: Matrix, fromChans: nat, toChans: nat, buf: seq<real>, r: seq<real>, f: nat) {
    forall j :: 0 <= j < toChans ==>
      At(r, Offset(f, toChans) + j) == Mix(m, fromChans, j, buf, Offset(f, fromChans), fromChans)
  }

  /** The out-of-place matrix product: every frame converted, the rest of the buffer untouched. */
  ghost predicate IsProduct(m: Matrix, fromChans: nat, toChans: nat, buf: seq<real>, n: nat, r: seq<real>) {
    && |r| == |buf|
    && (forall f :: 0 <= f < n ==> FrameDone(m, fromChans, toChans, buf, r, f))
    && (forall k :: Offset(n, toChans) <= k < |buf| ==> r[k] == buf[k])
  }

  /** An input that only one output uses, so that is not hoisted, must feed an output that is
      not written before it is read. */
  predicate Safe(m: Matrix, fromChans: nat, toChans: nat) {
    forall i, j | 0 <= i < fromChans && 0 <= j < toChans ::
      Uses(m, fromChans, toChans, i) == 1 && Coef(m, fromChans, j, i) != 0.0 ==>
        (if toChans > fromChans then i <= j else j <= i)
  }

  // ---------- one row ----------

  lemma {:induction false} LocalsAre(m: Matrix, fromChans: nat, toChans: nat, n: nat, i: nat)
    ensures i in LocalsOf(m, fromChans, toChans, n) <==> i < n && Uses(m, fromChans, toChans, i) > 1
  {
    if n > 0 {
      LocalsAre(m, fromChans, toChans, n - 1, i);
    }
  }

  lemma {:induction false} UsedSomewhere(m: Matrix, fromChans: nat, n: nat, j: nat, i: nat)
    requires j < n && Coef(m, fromChans, j, i) != 0.0
    ensures Uses(m, fromChans, n, i) >= 1
    ensures forall k :: 0 <= k < n && k != j && Coef(m, fromChans, k, i) != 0.0 ==> Uses(m, fromChans, n, i) >= 2
  {
    if j < n - 1 {
      UsedSomewhere(m, fromChans, n - 1, j, i);
    } else {
      forall k | 0 <= k < n && k != j && Coef(m, fromChans, k, i) != 0.0
        ensures Uses(m, fromChans, n - 1, i) >= 1
      {
        UsedSomewhere(m, fromChans, n - 1, k, i);
      }
    }
  }

  /** The sample a term of row `j` reads is the one the frame held at first. */
  ghost predicate Readable(m: Matrix, fromChans: nat, toChans: nat, j: nat, buf: seq<real>, buf0: seq<real>, src: int) {
    forall i :: 0 <= i < fromChans && Coef(m, fromChans, j, i) != 0.0 && Uses(m, fromChans, toChans, i) == 1 ==>
      At(buf, src + i) == At(buf0, src + i)
  }

  lemma TermReads(m: Matrix, fromChans: nat, toChans: nat, j: nat, i: nat, buf: seq<real>, buf0: seq<real>, src: int)
    requires i < fromChans && j < toChans && Coef(m, fromChans, j, i) != 0.0
    requires Readable(m, fromChans, toChans, j, buf, buf0, src)
    ensures TermValue(TermOf(m, fromChans, toChans, j, i), buf, src,
                      Load(LocalsOf(m, fromChans, toChans, fromChans), buf0, src))
      == Coef(m, fromChans, j, i) * At(buf0, src + i)
  {
    LocalsAre(m, fromChans, toChans, fromChans, i);
    UsedSomewhere(m, fromChans, toChans, j, i);
  }

  lemma {:induction false} RowDown(m: Matrix, fromChans: nat, toChans: nat, j: nat, i: nat,
                                   buf: seq<real>, buf0: seq<real>, src: int)
    requires i <= fromChans && j < toChans && Readable(m, fromChans, toChans, j, buf, buf0, src)
    ensures Total(TermsDown(m, fromChans, toChans, j, i), buf, src,
                  Load(LocalsOf(m, fromChans, toChans, fromChans), buf0, src))
      == Mix(m, fromChans, j, buf0, src, i)
  {
    hide Coef, At, TermOf, Load, LocalsOf, TermValue, Readable;
    if i > 0 {
      RowDown(m, fromChans, toChans, j, i - 1, buf, buf0, src);
      if Coef(m, fromChans, j, i - 1) != 0.0 {
        TermReads(m, fromChans, toChans, j, i - 1, buf, buf0, src);
      }
    }
  }

  lemma {:induction false} RowUp(m: Matrix, fromChans: nat, toChans: nat, j: nat, i: nat,
                                 buf: seq<real>, buf0: seq<real>, src: int)
    requires i <= fromChans && j < toChans && Readable(m, fromChans, toChans, j, buf, buf0, src)
    ensures Mix(m, fromChans, j, buf0, src, i)
      + Total(TermsUp(m, fromChans, toChans, j, i), buf, src,
              Load(LocalsOf(m, fromChans, toChans, fromChans), buf0, src))
      == Mix(m, fromChans, j, buf0, src, fromChans)
    decreases fromChans - i
  {
    hide Coef, At, TermOf, Load, LocalsOf, TermValue, Readable;
    if i < fromChans {
      RowUp(m, fromChans, toChans, j, i + 1, buf, buf0, src);
      if Coef(m, fromChans, j, i) != 0.0 {
        TermReads(m, fromChans, toChans, j, i, buf, buf0, src);
      }
    }
  }

  lemma WholeRowUp(m: Matrix, fromChans: nat, toChans: nat, j: nat, buf: seq<real>, buf0: seq<real>, src: int)
    requires j < toChans && Readable(m, fromChans, toChans, j, buf, buf0, src)
    ensures Total(TermsUp(m, fromChans, toChans, j, 0), buf, src,
                  Load(LocalsOf(m, fromChans, toChans, fromChans), buf0, src))
      == Mix(m, fromChans, j, buf0, src, fromChans)
  {
    RowUp(m, fromChans, toChans, j, 0, buf, buf0, src);
  }

  // ---------- one frame ----------

  /** Cells [lo, hi) hold outputs lo-dst and up of the frame at `src`; the others are as before. */
  ghost predicate Wrote(m: Matrix, fromChans: nat, buf0: seq<real>, src: int, dst: int, lo: int, hi: int,
                        buf: seq<real>, r: seq<real>) {
    && |r| == |buf|
    && forall k :: 0 <= k < |buf| ==>
      r[k] == if lo <= k < hi && dst <= k then Mix(m, fromChans, k - dst, buf0, src, fromChans) else buf[k]
  }

  lemma ReadableDown(m: Matrix, fromChans: nat, toChans: nat, j: nat,
                     buf: seq<real>, buf0: seq<real>, src: nat, dst: nat)
    requires Safe(m, fromChans, toChans) && fromChans < toChans && j < toChans
    requires |buf| == |buf0| && src <= dst
    requires forall k :: 0 <= k <= dst + j && k < |buf| ==> buf[k] == buf0[k]
    ensures Readable(m, fromChans, toChans, j, buf, buf0, src)
  {
    forall i | 0 <= i < fromChans && Coef(m, fromChans, j, i) != 0.0 && Uses(m, fromChans, toChans, i) == 1
      ensures At(buf, src + i) == At(buf0, src + i)
    {
      assert i <= j;
    }
  }

  lemma ReadableUp(m: Matrix, fromChans: nat, toChans: nat, j: nat,
                   buf: seq<real>, buf0: seq<real>, src: nat, dst: nat)
    requires Safe(m, fromChans, toChans) && toChans < fromChans && j < toChans
    requires |buf| == |buf0| && dst <= src
    requires forall k :: dst + j <= k < |buf| ==> buf[k] == buf0[k]
    ensures Readable(m, fromChans, toChans, j, buf, buf0, src)
  {
    forall i | 0 <= i < fromChans && Coef(m, fromChans, j, i) != 0.0 && Uses(m, fromChans, toChans, i) == 1
      ensures At(buf, src + i) == At(buf0, src + i)
    {
      assert j <= i;
    }
  }

  lemma BodyDownStep(m: Matrix, fromChans: nat, toChans: nat, j: nat,
                     buf: seq<real>, src: int, dst: int, locals: map<nat, real>)
    requires j > 0
    ensures RunBody(BodyDown(m, fromChans, toChans, j), buf, src, dst, locals)
      == RunBody(BodyDown(m, fromChans, toChans, j - 1),
                 Store(buf, dst + j - 1, Total(TermsDown(m, fromChans, toChans, j - 1, fromChans), buf, src, locals)),
                 src, dst, locals)
  {
  }

  lemma BodyUpStep(m: Matrix, fromChans: nat, toChans: nat, j: nat,
                   buf: seq<real>, src: int, dst: int, locals: map<nat, real>)
    requires j < toChans
    ensures RunBody(BodyUp(m, fromChans, toChans, j), buf, src, dst, locals)
      == RunBody(BodyUp(m, fromChans, toChans, j + 1),
                 Store(buf, dst + j, Total(TermsUp(m, fromChans, toChans, j, 0), buf, src, locals)),
                 src, dst, locals)
  {
  }

  lemma {:induction false} FrameDown(m: Matrix, fromChans: nat, toChans: nat, j: nat,
                                     buf: seq<real>, buf0: seq<real>, src: nat, dst: nat)
    requires Safe(m, fromChans, toChans) && fromChans < toChans && j <= toChans
    requires |buf| == |buf0| && src <= dst && dst + toChans <= |buf|
    requires forall k :: 0 <= k < dst + j ==> buf[k] == buf0[k]
    ensures Wrote(m, fromChans, buf0, src, dst, dst, dst + j, buf,
      RunBody(BodyDown(m, fromChans, toChans, j), buf, src, dst,
              Load(LocalsOf(m, fromChans, toChans, fromChans), buf0, src)))
    decreases j
  {
    hide Load, LocalsOf, TermsDown, Total, Coef, Uses, Mix, Safe, Readable;
    var locals := Load(LocalsOf(m, fromChans, toChans, fromChans), buf0, src);
    if j > 0 {
      ReadableDown(m, fromChans, toChans, j - 1, buf, buf0, src, dst);
      RowDown(m, fromChans, toChans, j - 1, fromChans, buf, buf0, src);
      BodyDownStep(m, fromChans, toChans, j, buf, src, dst, locals);
      hide RunBody, BodyDown;
      FrameDown(m, fromChans, toChans, j - 1,
                Store(buf, dst + j - 1, Mix(m, fromChans, j - 1, buf0, src, fromChans)), buf0, src, dst);
    }
  }

  lemma {:induction false} FrameUp(m: Matrix, fromChans: nat, toChans: nat, j: nat,
                                   buf: seq<real>, buf0: seq<real>, src: nat, dst: nat)
    requires Safe(m, fromChans, toChans) && toChans < fromChans && j <= toChans
    requires |buf| == |buf0| && dst <= src && dst + toChans <= |buf|
    requires forall k :: dst + j <= k < |buf| ==> buf[k] == buf0[k]
    ensures Wrote(m, fromChans, buf0, src, dst, dst + j, dst + toChans, buf,
      RunBody(BodyUp(m, fromChans, toChans, j), buf, src, dst,
              Load(LocalsOf(m, fromChans, toChans, fromChans), buf0, src)))
    decreases toChans - j
  {
    var locals := Load(LocalsOf(m, fromChans, toChans, fromChans), buf0, src);
    hide Load, LocalsOf, TermsUp, Total, Coef, Uses, Mix, Safe, Readable;
    if j < toChans {
      ReadableUp(m, fromChans, toChans, j, buf, buf0, src, dst);
      WholeRowUp(m, fromChans, toChans, j, buf, buf0, src);
      BodyUpStep(m, fromChans, toChans, j, buf, src, dst, locals);
      hide RunBody, BodyUp;
      FrameUp(m, fromChans, toChans, j + 1,
              Store(buf, dst + j, Mix(m, fromChans, j, buf0, src, fromChans)), buf0, src, dst);
    }
  }

  // ---------- every frame ----------

  lemma OffsetOrder(f: nat, small: nat, large: nat)
    requires small <= large
    ensures Offset(f, small) <= Offset(f, large)
  {
  }

  /** What a frame conversion writes, seen from frame `f`. */
  lemma WroteFrame(m: Matrix, fromChans: nat, toChans: nat, buf0: seq<real>, buf: seq<real>, r: seq<real>, f: nat)
    requires |buf| == |buf0| && Offset(f + 1, toChans) <= |buf|
    requires Wrote(m, fromChans, buf0, Offset(f, fromChans), Offset(f, toChans),
                   Offset(f, toChans), Offset(f, toChans) + toChans, buf, r)
    ensures FrameDone(m, fromChans, toChans, buf0, r, f)
    ensures forall k :: 0 <= k < |buf| && (k < Offset(f, toChans) || Offset(f + 1, toChans) <= k) ==> r[k] == buf[k]
  {
    OffsetStep(f, 0, toChans);
    hide Offset, Mix;
    forall j | 0 <= j < toChans
      ensures At(r, Offset(f, toChans) + j) == Mix(m, fromChans, j, buf0, Offset(f, fromChans), fromChans)
    {
      assert r[Offset(f, toChans) + j] == Mix(m, fromChans, j, buf0, Offset(f, fromChans), fromChans);
    }
  }

  lemma FrameDoneStays(m: Matrix, fromChans: nat, toChans: nat, buf0: seq<real>, r: seq<real>, r': seq<real>, f: nat)
    requires FrameDone(m, fromChans, toChans, buf0, r, f) && |r| == |r'|
    requires forall k :: Offset(f, toChans) <= k < Offset(f + 1, toChans) && k < |r| ==> r'[k] == r[k]
    ensures FrameDone(m, fromChans, toChans, buf0, r', f)
  {
    OffsetStep(f, 0, toChans);
    hide Mix;
    hide Offset;
    forall j | 0 <= j < toChans
      ensures At(r', Offset(f, toChans) + j) == Mix(m, fromChans, j, buf0, Offset(f, fromChans), fromChans)
    {
      assert At(r, Offset(f, toChans) + j) == Mix(m, fromChans, j, buf0, Offset(f, fromChans), fromChans);
    }
  }

  /** The locals are loaded before anything of the frame is overwritten. */
  lemma FrameReads(locals: seq<nat>, buf: seq<real>, buf0: seq<real>, src: nat, fromChans: nat, m: Matrix, toChans: nat)
    requires |buf| == |buf0| && locals == LocalsOf(m, fromChans, toChans, fromChans)
    requires forall x :: src <= x < src + fromChans && x < |buf| ==> buf[x] == buf0[x]
    ensures Load(locals, buf, src) == Load(locals, buf0, src)
  {
    forall i | i in locals ensures At(buf, src + i) == At(buf0, src + i) {
      LocalsAre(m, fromChans, toChans, fromChans, i);
    }
  }

  /** Frame `f` of a growing conversion, all later frames being done. */
  lemma OneFrameDown(m: Matrix, fromChans: nat, toChans: nat, p: Program, buf0: seq<real>, buf: seq<real>, f: nat)
    requires Safe(m, fromChans, toChans) && fromChans < toChans && Generate(m, fromChans, toChans) == Some(p)
    requires |buf| == |buf0| && Offset(f + 1, toChans) <= |buf|
    requires forall x :: 0 <= x < Offset(f + 1, toChans) ==> buf[x] == buf0[x]
    ensures Wrote(m, fromChans, buf0, Offset(f, fromChans), Offset(f, toChans),
                  Offset(f, toChans), Offset(f, toChans) + toChans, buf,
                  RunFrame(p, buf, Offset(f, fromChans), Offset(f, toChans)))
  {
    hide Safe, Offset, Mix, LocalsOf, BodyDown, RunBody, Wrote, Load;
    OffsetStep(f, 0, fromChans);
    OffsetStep(f, 0, toChans);
    OffsetOrder(f, fromChans, toChans);
    FrameReads(p.locals, buf, buf0, Offset(f, fromChans), fromChans, m, toChans);
    FrameDown(m, fromChans, toChans, toChans, buf, buf0, Offset(f, fromChans), Offset(f, toChans));
  }

  lemma {:induction false} FramesDown(m: Matrix, fromChans: nat, toChans: nat, p: Program, buf0: seq<real>,
                                      buf: seq<real>, k: nat)
    requires Safe(m, fromChans, toChans) && fromChans < toChans && Generate(m, fromChans, toChans) == Some(p)
    requires |buf| == |buf0| && Offset(k, toChans) <= |buf|
    requires forall x :: 0 <= x < Offset(k, toChans) ==> buf[x] == buf0[x]
    ensures forall f :: 0 <= f < k ==> FrameDone(m, fromChans, toChans, buf0, RunDown(p, buf, k), f)
    ensures forall x :: Offset(k, toChans) <= x < |buf| ==> RunDown(p, buf, k)[x] == buf[x]
    decreases k
  {
    hide Safe, Offset, FrameDone, LocalsOf, BodyDown, BodyUp, RunFrame, Wrote;
    if k > 0 {
      OffsetStep(k - 1, k, toChans);
      OneFrameDown(m, fromChans, toChans, p, buf0, buf, k - 1);
      var next := RunFrame(p, buf, Offset(k - 1, fromChans), Offset(k - 1, toChans));
      WroteFrame(m, fromChans, toChans, buf0, buf, next, k - 1);
      FramesDown(m, fromChans, toChans, p, buf0, next, k - 1);
      FrameDoneStays(m, fromChans, toChans, buf0, next, RunDown(p, next, k - 1), k - 1);
    }
  }

  /** Frame `f` of a shrinking conversion, all earlier frames being done. */
  lemma OneFrameUp(m: Matrix, fromChans: nat, toChans: nat, p: Program, buf0: seq<real>, buf: seq<real>, f: nat)
    requires Safe(m, fromChans, toChans) && toChans < fromChans && Generate(m, fromChans, toChans) == Some(p)
    requires |buf| == |buf0| && Offset(f + 1, toChans) <= |buf|
    requires forall x :: Offset(f, toChans) <= x < |buf| ==> buf[x] == buf0[x]
    ensures Wrote(m, fromChans, buf0, Offset(f, fromChans), Offset(f, toChans),
                  Offset(f, toChans), Offset(f, toChans) + toChans, buf,
                  RunFrame(p, buf, Offset(f, fromChans), Offset(f, toChans)))
  {
    hide Safe, Offset, Mix, LocalsOf, BodyUp, RunBody, Wrote, Load;
    OffsetStep(f, 0, toChans);
    OffsetOrder(f, toChans, fromChans);
    FrameReads(p.locals, buf, buf0, Offset(f, fromChans), fromChans, m, toChans);
    FrameUp(m, fromChans, toChans, 0, buf, buf0, Offset(f, fromChans), Offset(f, toChans));
  }

  lemma {:induction false} FramesUp(m: Matrix, fromChans: nat, toChans: nat, p: Program, buf0: seq<real>,
                                    buf: seq<real>, f: nat, n: nat)
    requires Safe(m, fromChans, toChans) && toChans < fromChans && Generate(m, fromChans, toChans) == Some(p)
    requires f <= n && |buf| == |buf0| && Offset(n, toChans) <= |buf|
    requires forall x :: Offset(f, toChans) <= x < |buf| ==> buf[x] == buf0[x]
    ensures forall g :: f <= g < n ==> FrameDone(m, fromChans, toChans, buf0, RunUp(p, buf, f, n), g)
    ensures forall x :: 0 <= x < |buf| && (x < Offset(f, toChans) || Offset(n, toChans) <= x) ==>
      RunUp(p, buf, f, n)[x] == buf[x]
    decreases n - f
  {
    hide Safe, Offset, FrameDone, LocalsOf, BodyDown, BodyUp, RunFrame, Wrote;
    if f < n {
      OffsetStep(f, n, toChans);
      OneFrameUp(m, fromChans, toChans, p, buf0, buf, f);
      var next := RunFrame(p, buf, Offset(f, fromChans), Offset(f, toChans));
      WroteFrame(m, fromChans, toChans, buf0, buf, next, f);
      OffsetUpTo(f + 1, n, toChans);
      FramesUp(m, fromChans, toChans, p, buf0, next, f + 1, n);
      FrameDoneStays(m, fromChans, toChans, buf0, next, RunUp(p, next, f + 1, n), f);
    }
  }

  lemma OffsetUpTo(f: nat, n: nat, width: nat)
    requires f <= n
    ensures Offset(f, width) <= Offset(n, width)
  {
    if f < n {
      OffsetStep(f, n, width);
    }
  }

  /** For every frame count and buffer, a safe matrix is converted exactly, in place. */
  lemma SafeConverts(m: Matrix, fromChans: nat, toChans: nat, p: Program, buf: seq<real>, n: nat)
    requires Safe(m, fromChans, toChans) && Generate(m, fromChans, toChans) == Some(p)
    requires Room(|buf|, fromChans, toChans, n)
    ensures IsProduct(m, fromChans, toChans, buf, n, Run(p, buf, n))
  {
    OffsetStep(0, 0, toChans);
    if fromChans < toChans {
      FramesDown(m, fromChans, toChans, p, buf, buf, n);
    } else {
      FramesUp(m, fromChans, toChans, p, buf, buf, 0, n);
    }
  }

  // ---------- the side condition is necessary ----------

  /** The printed converter is right on every buffer and frame count. */
  ghost predicate Converts(m: Matrix, fromChans: nat, toChans: nat, p: Program) {
    forall buf: seq<real>, n: nat | Room(|buf|, fromChans, toChans, n) ::
      IsProduct(m, fromChans, toChans, buf, n, Run(p, buf, n))
  }

  /** A row all of whose samples read as zero. */
  ghost predicate ReadsZero(m: Matrix, fromChans: nat, toChans: nat, j: nat, buf: seq<real>, locals: map<nat, real>) {
    forall i :: 0 <= i < fromChans && Coef(m, fromChans, j, i) != 0.0 ==>
      Operate(OperandOf(m, fromChans, toChans, i), buf, 0, locals) == 0.0
  }

  lemma {:induction false} ZeroRowDown(m: Matrix, fromChans: nat, toChans: nat, j: nat, i: nat,
      buf: seq<real>, locals: map<nat, real>)
    requires i <= fromChans && ReadsZero(m, fromChans, toChans, j, buf, locals)
    ensures Total(TermsDown(m, fromChans, toChans, j, i), buf, 0, locals) == 0.0
  {
    hide Coef, OperandOf, Operate;
    if i > 0 {
      ZeroRowDown(m, fromChans, toChans, j, i - 1, buf, locals);
    }
  }

  lemma {:induction false} ZeroRowUp(m: Matrix, fromChans: nat, toChans: nat, j: nat, i: nat,
      buf: seq<real>, locals: map<nat, real>)
    requires i <= fromChans && ReadsZero(m, fromChans, toChans, j, buf, locals)
    ensures Total(TermsUp(m, fromChans, toChans, j, i), buf, 0, locals) == 0.0
    decreases fromChans - i
  {
    hide Coef, OperandOf, Operate;
    if i < fromChans {
      ZeroRowUp(m, fromChans, toChans, j, i + 1, buf, locals);
    }
  }

  /** Input `i` feeds output `j` only, and output `j` is computed after cell `i` was overwritten. */
  ghost predicate ReadTooLate(m: Matrix, fromChans: nat, toChans: nat, i: nat, j: nat) {
    && i < fromChans && j < toChans
    && Uses(m, fromChans, toChans, i) == 1 && Coef(m, fromChans, j, i) != 0.0
    && if toChans > fromChans then j < i else i < j
  }

  /** Everything is zero except, perhaps, cell `i`. */
  predicate ZeroBut(buf: seq<real>, i: nat) {
    forall k :: 0 <= k < |buf| && k != i ==> buf[k] == 0.0
  }

  predicate ZeroLocalsBut(locals: map<nat, real>, i: nat) {
    forall k :: k in locals && k != i ==> locals[k] == 0.0
  }

  /** A row other than `j`, or row `j` once cell `i` is zero, comes out as zero. */
  lemma LateRowIsZero(m: Matrix, fromChans: nat, toChans: nat, i: nat, j: nat, row: nat,
      buf: seq<real>, locals: map<nat, real>)
    requires ReadTooLate(m, fromChans, toChans, i, j) && row < toChans
    requires ZeroBut(buf, i) && ZeroLocalsBut(locals, i)
    requires row == j ==> At(buf, i) == 0.0
    ensures ReadsZero(m, fromChans, toChans, row, buf, locals)
  {
    forall k | 0 <= k < fromChans && Coef(m, fromChans, row, k) != 0.0
      ensures Operate(OperandOf(m, fromChans, toChans, k), buf, 0, locals) == 0.0
    {
      if k == i && row != j {
        UsedSomewhere(m, fromChans, toChans, j, i);
      }
    }
  }

  lemma {:induction false} SparesDown(m: Matrix, fromChans: nat, toChans: nat, k: nat, j: nat,
                                      buf: seq<real>, locals: map<nat, real>)
    requires k <= j < |buf|
    ensures RunBody(BodyDown(m, fromChans, toChans, k), buf, 0, 0, locals)[j] == buf[j]
    decreases k
  {
    if k > 0 {
      var v := Total(TermsDown(m, fromChans, toChans, k - 1, fromChans), buf, 0, locals);
      BodyDownStep(m, fromChans, toChans, k, buf, 0, 0, locals);
      SparesDown(m, fromChans, toChans, k - 1, j, Store(buf, k - 1, v), locals);
    }
  }

  lemma {:induction false} SparesUp(m: Matrix, fromChans: nat, toChans: nat, k: nat, j: nat,
                                    buf: seq<real>, locals: map<nat, real>)
    requires j < k <= toChans && j < |buf|
    ensures RunBody(BodyUp(m, fromChans, toChans, k), buf, 0, 0, locals)[j] == buf[j]
    decreases toChans - k
  {
    if k < toChans {
      var v := Total(TermsUp(m, fromChans, toChans, k, 0), buf, 0, locals);
      BodyUpStep(m, fromChans, toChans, k, buf, 0, 0, locals);
      SparesUp(m, fromChans, toChans, k + 1, j, Store(buf, k, v), locals);
    }
  }

  lemma {:induction false} LateDown(m: Matrix, fromChans: nat, toChans: nat, i: nat, j: nat, k: nat,
                                    buf: seq<real>, locals: map<nat, real>)
    requires ReadTooLate(m, fromChans, toChans, i, j) && fromChans < toChans
    requires j < k <= toChans <= |buf| && ZeroBut(buf, i) && ZeroLocalsBut(locals, i)
    requires k <= i ==> buf[i] == 0.0
    ensures RunBody(BodyDown(m, fromChans, toChans, k), buf, 0, 0, locals)[j] == 0.0
    decreases k
  {
    hide RunBody, BodyDown, TermsDown, Total, Uses, Coef, ReadsZero;
    LateRowIsZero(m, fromChans, toChans, i, j, k - 1, buf, locals);
    ZeroRowDown(m, fromChans, toChans, k - 1, fromChans, buf, locals);
    BodyDownStep(m, fromChans, toChans, k, buf, 0, 0, locals);
    if k - 1 == j {
      SparesDown(m, fromChans, toChans, k - 1, j, Store(buf, k - 1, 0.0), locals);
    } else {
      LateDown(m, fromChans, toChans, i, j, k - 1, Store(buf, k - 1, 0.0), locals);
    }
  }

  lemma {:induction false} LateUp(m: Matrix, fromChans: nat, toChans: nat, i: nat, j: nat, k: nat,
                                  buf: seq<real>, locals: map<nat, real>)
    requires ReadTooLate(m, fromChans, toChans, i, j) && toChans < fromChans
    requires k <= j && fromChans <= |buf| && ZeroBut(buf, i) && ZeroLocalsBut(locals, i)
    requires i < k ==> buf[i] == 0.0
    ensures RunBody(BodyUp(m, fromChans, toChans, k), buf, 0, 0, locals)[j] == 0.0
    decreases toChans - k
  {
    hide RunBody, BodyUp, TermsUp, Total, Uses, Coef, ReadsZero;
    LateRowIsZero(m, fromChans, toChans, i, j, k, buf, locals);
    ZeroRowUp(m, fromChans, toChans, k, 0, buf, locals);
    BodyUpStep(m, fromChans, toChans, k, buf, 0, 0, locals);
    if k == j {
      SparesUp(m, fromChans, toChans, k + 1, j, Store(buf, k, 0.0), locals);
    } else {
      LateUp(m, fromChans, toChans, i, j, k + 1, Store(buf, k, 0.0), locals);
    }
  }

  /** One frame with a single non-zero sample. */
  function Impulse(size: nat, i: nat): (buf: seq<real>)
    ensures |buf| == size && forall k :: 0 <= k < size ==> buf[k] == if k == i then 1.0 else 0.0
  {
    seq(size, k => if k == i then 1.0 else 0.0)
  }

  lemma {:induction false} ImpulseMix(m: Matrix, fromChans: nat, j: nat, size: nat, i: nat, n: nat)
    requires i < size
    ensures Mix(m, fromChans, j, Impulse(size, i), 0, n) == if i < n then Coef(m, fromChans, j, i) else 0.0
  {
    hide Coef;
    if n > 0 {
      ImpulseMix(m, fromChans, j, size, i, n - 1);
    }
  }

  /** An unsafe matrix gives a converter that is wrong on a single frame holding one impulse. */
  lemma UnsafeFails(m: Matrix, fromChans: nat, toChans: nat, p: Program, i: nat, j: nat)
    requires ReadTooLate(m, fromChans, toChans, i, j) && Generate(m, fromChans, toChans) == Some(p)
    ensures var size := if fromChans < toChans then toChans else fromChans;
      && Room(size, fromChans, toChans, 1)
      && !IsProduct(m, fromChans, toChans, Impulse(size, i), 1, Run(p, Impulse(size, i), 1))
  {
    hide BodyDown, BodyUp, LocalsOf, Mix, Coef, Uses;
    var size := if fromChans < toChans then toChans else fromChans;
    var buf := Impulse(size, i);
    var locals := Load(p.locals, buf, 0);
    var r := RunFrame(p, buf, 0, 0);
    assert Run(p, buf, 1) == r by {
      if p.backwards {
        assert RunDown(p, r, 0) == r;
      } else {
        assert RunUp(p, r, 1, 1) == r;
      }
    }
    if fromChans < toChans {
      LateDown(m, fromChans, toChans, i, j, toChans, buf, locals);
    } else {
      LateUp(m, fromChans, toChans, i, j, 0, buf, locals);
    }
    assert r[j] == 0.0;
    ImpulseMix(m, fromChans, j, size, i, fromChans);
    assert Offset(0, toChans) == 0 && Offset(0, fromChans) == 0;
    assert !FrameDone(m, fromChans, toChans, buf, r, 0) by {
      assert At(r, Offset(0, toChans) + j) != Mix(m, fromChans, j, buf, Offset(0, fromChans), fromChans);
    }
  }

  /** The generator is right for a matrix exactly when the matrix is safe. */
  lemma ConvertsIffSafe(m: Matrix, fromChans: nat, toChans: nat, p: Program)
    requires Generate(m, fromChans, toChans) == Some(p)
    ensures Converts(m, fromChans, toChans, p) <==> Safe(m, fromChans, toChans)
  {
    hide IsProduct, Run, Generate, Uses, Coef, Room;
    if Safe(m, fromChans, toChans) {
      forall buf: seq<real>, n: nat | Room(|buf|, fromChans, toChans, n)
        ensures IsProduct(m, fromChans, toChans, buf, n, Run(p, buf, n))
      {
        SafeConverts(m, fromChans, toChans, p, buf, n);
      }
    } else {
      SameWidthPrintsNothing(m, fromChans, toChans, p);
      var i, j :| ReadTooLate(m, fromChans, toChans, i, j);
      UnsafeFails(m, fromChans, toChans, p, i, j);
      var size := if fromChans < toChans then toChans else fromChans;
      assert Room(|Impulse(size, i)|, fromChans, toChans, 1);
    }
  }

  lemma SameWidthPrintsNothing(m: Matrix, fromChans: nat, toChans: nat, p: Program)
    requires Generate(m, fromChans, toChans) == Some(p)
    ensures fromChans != toChans
    ensures !Safe(m, fromChans, toChans) ==> exists i, j :: ReadTooLate(m, fromChans, toChans, i, j)
  {
    if !Safe(m, fromChans, toChans) {
      var i, j :| 0 <= i < fromChans && 0 <= j < toChans
        && Uses(m, fromChans, toChans, i) == 1 && Coef(m, fromChans, j, i) != 0.0
        && !(if toChans > fromChans then i <= j else j <= i);
      assert ReadTooLate(m, fromChans, toChans, i, j);
    }
  }

  /** A printed converter never reads or writes outside its buffer or an unset local. */
  lemma GeneratedFits(m: Matrix, fromChans: nat, toChans: nat, p: Program)
    requires Generate(m, fromChans, toChans) == Some(p)
    ensures Fits(p)
  {
    forall i: nat ensures i in p.locals <==> i < fromChans && Uses(m, fromChans, toChans, i) > 1 {
      LocalsAre(m, fromChans, toChans, fromChans, i);
    }
    if fromChans < toChans {
      BodyDownFits(m, fromChans, toChans, toChans, p.locals);
    } else {
      BodyUpFits(m, fromChans, toChans, 0, p.locals);
    }
  }

  ghost predicate AssignFits(a: Assign, fromChans: nat, toChans: nat, locals: seq<nat>) {
    a.channel < toChans && forall t :: t in a.terms ==> OperandFits(t.operand, fromChans, locals)
  }

  ghost predicate AllHoisted(m: Matrix, fromChans: nat, toChans: nat, locals: seq<nat>) {
    forall i :: 0 <= i < fromChans && Uses(m, fromChans, toChans, i) > 1 ==> i in locals
  }

  lemma {:induction false} RowDownFits(m: Matrix, fromChans: nat, toChans: nat, j: nat, i: nat, locals: seq<nat>)
    requires i <= fromChans && AllHoisted(m, fromChans, toChans, locals)
    ensures forall t :: t in TermsDown(m, fromChans, toChans, j, i) ==> OperandFits(t.operand, fromChans, locals)
  {
    if i > 0 {
      RowDownFits(m, fromChans, toChans, j, i - 1, locals);
    }
  }

  lemma {:induction false} RowUpFits(m: Matrix, fromChans: nat, toChans: nat, j: nat, i: nat, locals: seq<nat>)
    requires i <= fromChans && AllHoisted(m, fromChans, toChans, locals)
    ensures forall t :: t in TermsUp(m, fromChans, toChans, j, i) ==> OperandFits(t.operand, fromChans, locals)
    decreases fromChans - i
  {
    if i < fromChans {
      RowUpFits(m, fromChans, toChans, j, i + 1, locals);
    }
  }

  lemma {:induction false} BodyDownFits(m: Matrix, fromChans: nat, toChans: nat, j: nat, locals: seq<nat>)
    requires j <= toChans && AllHoisted(m, fromChans, toChans, locals)
    ensures forall a :: a in BodyDown(m, fromChans, toChans, j) ==> AssignFits(a, fromChans, toChans, locals)
  {
    if j > 0 {
      RowDownFits(m, fromChans, toChans, j - 1, fromChans, locals);
      BodyDownFits(m, fromChans, toChans, j - 1, locals);
    }
  }

  lemma {:induction false} BodyUpFits(m: Matrix, fromChans: nat, toChans: nat, j: nat, locals: seq<nat>)
    requires j <= toChans && AllHoisted(m, fromChans, toChans, locals)
    ensures forall a :: a in BodyUp(m, fromChans, toChans, j) ==> AssignFits(a, fromChans, toChans, locals)
    decreases toChans - j
  {
    if j < toChans {
      RowUpFits(m, fromChans, toChans, j, 0, locals);
      BodyUpFits(m, fromChans, toChans, j + 1, locals);
    }
  }

  /** Generate, then run in place on one buffer: the whole pipeline. */
  method ConvertInPlace(m: Matrix, fromChans: nat, toChans: nat, buf: array<real>, numFrames: nat)
    requires 1 <= fromChans <= NUM_CHANNELS && 1 <= toChans <= NUM_CHANNELS && fromChans != toChans
    requires Shaped(m, fromChans, toChans) && Safe(m, fromChans, toChans)
    requires Room(buf.Length, fromChans, toChans, numFrames)
    modifies buf
    ensures IsProduct(m, fromChans, toChans, old(buf[..]), numFrames, buf[..])
  {
    var p := WriteConverter(m, fromChans, toChans);
    GeneratedFits(m, fromChans, toChans, p.value);
    SafeConverts(m, fromChans, toChans, p.value, buf[..], numFrames);
    Execute(p.value, buf, numFrames);
  }
}
