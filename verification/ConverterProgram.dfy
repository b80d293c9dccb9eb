/** build-scripts/gen_audio_channel_conversion.c as a compiler: the C it prints becomes a small
    program over one buffer, since callers pass the same memory as `dst` and `src`. */
module ConverterProgram {
  const NUM_CHANNELS := 8

  /** Where a term reads its sample: a hoisted local or the buffer itself. */
  datatype Operand = Local(channel: nat) | Source(channel: nat)

  /** `src` or `(src * coefficient)`. */
  datatype Term = Plain(operand: Operand) | Scaled(operand: Operand, coefficient: real)

  /** `dst[channel] = terms`, where no terms means `0.0f`. */
  datatype Assign = Assign(channel: nat, terms: seq<Term>)

  datatype Program = Program(backwards: bool, fromChans: nat, toChans: nat, locals: seq<nat>, body: seq<Assign>)

  // ---------- running a printed converter ----------

  /** The value read at `k`; `Execute` proves that it is never out of range. */
  function At(buf: seq<real>, k: int): real {
    if 0 <= k < |buf| then buf[k] else 0.0
  }

  function Store(buf: seq<real>, k: int, v: real): (r: seq<real>)
    ensures |r| == |buf|
  {
    if 0 <= k < |buf| then buf[k := v] else buf
  }

  function Load(locals: seq<nat>, buf: seq<real>, src: int): map<nat, real> {
    map i | i in locals :: At(buf, src + i)
  }

  function Operate(op: Operand, buf: seq<real>, src: int, locals: map<nat, real>): real {
    match op
    case Local(i) => if i in locals then locals[i] else 0.0
    case Source(i) => At(buf, src + i)
  }

  function TermValue(t: Term, buf: seq<real>, src: int, locals: map<nat, real>): real {
    match t
    case Plain(op) => Operate(op, buf, src, locals)
    case Scaled(op, c) => Operate(op, buf, src, locals) * c
  }

  function Total(terms: seq<Term>, buf: seq<real>, src: int, locals: map<nat, real>): real {
    if terms == [] then 0.0
    else TermValue(terms[0], buf, src, locals) + Total(terms[1..], buf, src, locals)
  }

  function RunBody(body: seq<Assign>, buf: seq<real>, src: int, dst: int, locals: map<nat, real>): (r: seq<real>)
    ensures |r| == |buf|
    decreases |body|
  {
    if body == [] then buf
    else
      var v := Total(body[0].terms, buf, src, locals);
      RunBody(body[1..], Store(buf, dst + body[0].channel, v), src, dst, locals)
  }

  function RunFrame(p: Program, buf: seq<real>, src: int, dst: int): (r: seq<real>)
    ensures |r| == |buf|
  {
    RunBody(p.body, buf, src, dst, Load(p.locals, buf, src))
  }

  /** Where frame `f` starts. */
  function Offset(f: nat, width: nat): nat {
    f * width
  }

  /** Frames k-1 down to 0. */
  function RunDown(p: Program, buf: seq<real>, k: nat): (r: seq<real>)
    ensures |r| == |buf|
    decreases k
  {
    if k == 0 then buf
    else RunDown(p, RunFrame(p, buf, Offset(k - 1, p.fromChans), Offset(k - 1, p.toChans)), k - 1)
  }

  /** Frames f up to n-1. */
  function RunUp(p: Program, buf: seq<real>, f: nat, n: nat): (r: seq<real>)
    requires f <= n
    ensures |r| == |buf|
    decreases n - f
  {
    if f == n then buf else RunUp(p, RunFrame(p, buf, Offset(f, p.fromChans), Offset(f, p.toChans)), f + 1, n)
  }

  function Run(p: Program, buf: seq<real>, numFrames: nat): seq<real> {
    if p.backwards then RunDown(p, buf, numFrames) else RunUp(p, buf, 0, numFrames)
  }

  // ---------- what makes a program safe to execute ----------

  predicate OperandFits(op: Operand, fromChans: nat, locals: seq<nat>) {
    match op
    case Local(i) => i in locals
    case Source(i) => i < fromChans
  }

  predicate Fits(p: Program) {
    && (forall i :: i in p.locals ==> i < p.fromChans)
    && (forall a :: a in p.body ==> a.channel < p.toChans)
    && (forall a, t :: a in p.body && t in a.terms ==> OperandFits(t.operand, p.fromChans, p.locals))
  }

  predicate Room(size: nat, fromChans: nat, toChans: nat, numFrames: nat) {
    Offset(numFrames, fromChans) <= size && Offset(numFrames, toChans) <= size
  }

  lemma TimesStep(f: nat, width: nat)
    ensures (f + 1) * width == f * width + width
  {
  }

  lemma {:induction false} TimesGrows(f: nat, n: nat, width: nat)
    requires f <= n
    ensures f * width <= n * width
    decreases n - f
  {
    if f < n {
      TimesStep(f, width);
      TimesGrows(f + 1, n, width);
    }
  }

  lemma OffsetStep(f: nat, n: nat, width: nat)
    ensures Offset(f + 1, width) == Offset(f, width) + width && Offset(0, width) == 0
    ensures f < n ==> Offset(f, width) + width <= Offset(n, width)
  {
    TimesStep(f, width);
    if f < n {
      TimesGrows(f + 1, n, width);
    }
  }

  /** The printed function itself: in place, pointers stepping over the frames. */
  method Execute(p: Program, buf: array<real>, numFrames: nat)
    requires Fits(p) && Room(buf.Length, p.fromChans, p.toChans, numFrames)
    modifies buf
    ensures buf[..] == Run(p, old(buf[..]), numFrames)
  {
    hide Fits, RunFrame;
    var src, dst: int := 0, 0;
    var i := numFrames;
    if p.backwards {
      src := src + (numFrames - 1) * p.fromChans;
      dst := dst + (numFrames - 1) * p.toChans;
      assert i > 0 ==> src == Offset(i - 1, p.fromChans) && dst == Offset(i - 1, p.toChans);
      hide Offset;
      while i != 0
        invariant 0 <= i <= numFrames
        invariant i > 0 ==> src == Offset(i - 1, p.fromChans) && dst == Offset(i - 1, p.toChans)
        invariant RunDown(p, buf[..], i) == RunDown(p, old(buf[..]), numFrames)
      {
        OffsetStep(i - 1, numFrames, p.fromChans);
        OffsetStep(i - 1, numFrames, p.toChans);
        if i > 1 {
          OffsetStep(i - 2, numFrames, p.fromChans);
          OffsetStep(i - 2, numFrames, p.toChans);
        }
        ExecuteFrame(p, buf, src, dst);
        i, src, dst := i - 1, src - p.fromChans, dst - p.toChans;
      }
    } else {
      hide Offset;
      OffsetStep(0, 0, p.fromChans);
      OffsetStep(0, 0, p.toChans);
      while i != 0
        invariant 0 <= i <= numFrames
        invariant src == Offset(numFrames - i, p.fromChans) && dst == Offset(numFrames - i, p.toChans)
        invariant RunUp(p, buf[..], numFrames - i, numFrames) == RunUp(p, old(buf[..]), 0, numFrames)
      {
        OffsetStep(numFrames - i, numFrames, p.fromChans);
        OffsetStep(numFrames - i, numFrames, p.toChans);
        ExecuteFrame(p, buf, src, dst);
        i, src, dst := i - 1, src + p.fromChans, dst + p.toChans;
      }
    }
  }

  /** One pass of the printed loop: the locals, then the assignments in order. */
  method ExecuteFrame(p: Program, buf: array<real>, src: nat, dst: nat)
    requires Fits(p) && src + p.fromChans <= buf.Length && dst + p.toChans <= buf.Length
    modifies buf
    ensures buf[..] == RunFrame(p, old(buf[..]), src, dst)
  {
    hide At, TermValue;
    var locals: map<nat, real> := map i | i in p.locals :: buf[src + i];
    LoadIs(p.locals, buf[..], src, locals);
    var b := 0;
    while b < |p.body|
      invariant 0 <= b <= |p.body|
      invariant RunBody(p.body[b..], buf[..], src, dst, locals) == RunBody(p.body, old(buf[..]), src, dst, locals)
    {
      assert p.body[b..][1..] == p.body[b + 1..];
      var a := p.body[b];
      forall t | t in a.terms ensures OperandFits(t.operand, p.fromChans, p.locals) {
      }
      var total := Add(a.terms, buf, src, locals, p);
      ghost var before := buf[..];
      buf[dst + a.channel] := total;
      assert buf[..] == Store(before, dst + a.channel, total);
      b := b + 1;
    }
  }

  lemma LoadIs(channels: seq<nat>, buf: seq<real>, src: nat, locals: map<nat, real>)
    requires forall i :: i in channels ==> src + i < |buf|
    requires locals == map i | i in channels :: buf[src + i]
    ensures locals == Load(channels, buf, src)
  {
  }

  /** The right-hand side of one assignment, added up term by term. */
  method Add(terms: seq<Term>, buf: array<real>, src: nat, locals: map<nat, real>, ghost p: Program)
    returns (total: real)
    requires src + p.fromChans <= buf.Length && forall i :: i in p.locals ==> i in locals
    requires forall t :: t in terms ==> OperandFits(t.operand, p.fromChans, p.locals)
    ensures total == Total(terms, buf[..], src, locals)
  {
    total := 0.0;
    var k := 0;
    while k < |terms|
      invariant 0 <= k <= |terms|
      invariant total + Total(terms[k..], buf[..], src, locals) == Total(terms, buf[..], src, locals)
    {
      var t := terms[k];
      assert OperandFits(t.operand, p.fromChans, p.locals);
      var sample := match t.operand case Local(i) => locals[i] case Source(i) => buf[src + i];
      total := total + if t.Plain? then sample else sample * t.coefficient;
      assert terms[k..][1..] == terms[k + 1..];
      k := k + 1;
    }
  }
}
