/** `write_converter`: from a conversion matrix to the converter it prints. */
module ConverterGenerator {
  import opened Wrappers
  import opened ConverterProgram

  /** A row-major coefficient table, one row of `fromChans` entries for each output channel. */
  type Matrix = seq<real>

  predicate Shaped(m: Matrix, fromChans: nat, toChans: nat) {
    Offset(toChans, fromChans) <= |m|
  }

  /** The coefficient of input `i` in output `j`. */
  function Coef(m: Matrix, fromChans: nat, j: nat, i: nat): real {
    At(m, Offset(j, fromChans) + i)
  }

  /** How many of the first `j` outputs use input `i`. */
  function Uses(m: Matrix, fromChans: nat, j: nat, i: nat): nat {
    if j == 0 then 0
    else Uses(m, fromChans, j - 1, i) + if Coef(m, fromChans, j - 1, i) != 0.0 then 1 else 0
  }

  function OperandOf(m: Matrix, fromChans: nat, toChans: nat, i: nat): Operand {
    if Uses(m, fromChans, toChans, i) > 1 then Local(i) else Source(i)
  }

  function TermOf(m: Matrix, fromChans: nat, toChans: nat, j: nat, i: nat): Term {
    var c := Coef(m, fromChans, j, i);
    if c == 1.0 then Plain(OperandOf(m, fromChans, toChans, i)) else Scaled(OperandOf(m, fromChans, toChans, i), c)
  }

  /** The terms of output `j` for inputs `i` and up, in printing order. */
  function TermsUp(m: Matrix, fromChans: nat, toChans: nat, j: nat, i: nat): seq<Term>
    requires i <= fromChans
    decreases fromChans - i
  {
    if i == fromChans then []
    else if Coef(m, fromChans, j, i) == 0.0 then TermsUp(m, fromChans, toChans, j, i + 1)
    else [TermOf(m, fromChans, toChans, j, i)] + TermsUp(m, fromChans, toChans, j, i + 1)
  }

  /** The terms of output `j` for inputs below `i`, in printing order when growing. */
  function TermsDown(m: Matrix, fromChans: nat, toChans: nat, j: nat, i: nat): seq<Term> {
    if i == 0 then []
    else if Coef(m, fromChans, j, i - 1) == 0.0 then TermsDown(m, fromChans, toChans, j, i - 1)
    else [TermOf(m, fromChans, toChans, j, i - 1)] + TermsDown(m, fromChans, toChans, j, i - 1)
  }

  function LocalsOf(m: Matrix, fromChans: nat, toChans: nat, i: nat): seq<nat> {
    if i == 0 then []
    else LocalsOf(m, fromChans, toChans, i - 1) + if Uses(m, fromChans, toChans, i - 1) > 1 then [i - 1] else []
  }

  /** Outputs j and up, in order. */
  function BodyUp(m: Matrix, fromChans: nat, toChans: nat, j: nat): seq<Assign>
    requires j <= toChans
    decreases toChans - j
  {
    if j == toChans then []
    else [Assign(j, TermsUp(m, fromChans, toChans, j, 0))] + BodyUp(m, fromChans, toChans, j + 1)
  }

  /** Outputs below j, last one first. */
  function BodyDown(m: Matrix, fromChans: nat, toChans: nat, j: nat): seq<Assign> {
    if j == 0 then []
    else
      [Assign(j - 1, TermsDown(m, fromChans, toChans, j - 1, fromChans))]
      + BodyDown(m, fromChans, toChans, j - 1)
  }

  /** The program printed for a matrix; none for equal widths. */
  function Generate(m: Matrix, fromChans: nat, toChans: nat): Option<Program> {
    if toChans == fromChans then None
    else
      var locals := LocalsOf(m, fromChans, toChans, fromChans);
      if toChans > fromChans then
        Some(Program(true, fromChans, toChans, locals, BodyDown(m, fromChans, toChans, toChans)))
      else Some(Program(false, fromChans, toChans, locals, BodyUp(m, fromChans, toChans, 0)))
  }

  /** `used` holds the number of outputs each input feeds. */
  ghost predicate Counted(m: Matrix, fromChans: nat, toChans: nat, used: array<int>)
    reads used
  {
    fromChans <= used.Length && forall i :: 0 <= i < fromChans ==> used[i] == Uses(m, fromChans, toChans, i)
  }

  /** The counting loop: `fptr` steps through the matrix once. */
  method CountUses(m: Matrix, fromChans: nat, toChans: nat) returns (used: array<int>)
    requires fromChans <= NUM_CHANNELS && Shaped(m, fromChans, toChans)
    ensures fresh(used) && Counted(m, fromChans, toChans, used)
  {
    used := new int[NUM_CHANNELS];
    for i := 0 to fromChans
      invariant forall k :: 0 <= k < i ==> used[k] == 0
    {
      used[i] := 0;
    }
    hide Offset;
    OffsetStep(0, 0, fromChans);
    var fptr := 0;
    for j := 0 to toChans
      invariant fptr == Offset(j, fromChans)
      invariant forall k :: 0 <= k < fromChans ==> used[k] == Uses(m, fromChans, j, k)
    {
      OffsetStep(j, toChans, fromChans);
      for i := 0 to fromChans
        invariant fptr == Offset(j, fromChans) + i
        invariant forall k :: 0 <= k < i ==> used[k] == Uses(m, fromChans, j + 1, k)
        invariant forall k :: i <= k < fromChans ==> used[k] == Uses(m, fromChans, j, k)
      {
        if m[fptr] != 0.0 {
          used[i] := used[i] + 1;
        }
        fptr := fptr + 1;
      }
    }
  }

  method WriteLocals(m: Matrix, fromChans: nat, toChans: nat, used: array<int>) returns (locals: seq<nat>)
    requires Counted(m, fromChans, toChans, used)
    ensures locals == LocalsOf(m, fromChans, toChans, fromChans)
  {
    locals := [];
    for i := 0 to fromChans
      invariant locals == LocalsOf(m, fromChans, toChans, i)
    {
      if used[i] > 1 {
        locals := locals + [i];
      }
    }
  }

  /** The printed term for a non-zero coefficient. */
  function Printed(coefficient: real, used: int, i: nat): Term {
    var op := if used > 1 then Local(i) else Source(i);
    if coefficient == 1.0 then Plain(op) else Scaled(op, coefficient)
  }

  method WriteRowDown(m: Matrix, fromChans: nat, toChans: nat, j: nat, used: array<int>) returns (terms: seq<Term>)
    requires Counted(m, fromChans, toChans, used) && j < toChans && Shaped(m, fromChans, toChans)
    ensures terms == TermsDown(m, fromChans, toChans, j, fromChans)
  {
    OffsetStep(j, toChans, fromChans);
    hide Offset;
    var fptr := Offset(j, fromChans);
    terms := [];
    var i := fromChans - 1;
    while i >= 0
      invariant -1 <= i < fromChans
      invariant terms + TermsDown(m, fromChans, toChans, j, i + 1) == TermsDown(m, fromChans, toChans, j, fromChans)
    {
      var coefficient := m[fptr + i];
      if coefficient != 0.0 {
        terms := terms + [Printed(coefficient, used[i], i)];
      }
      i := i - 1;
    }
  }

  method WriteRowUp(m: Matrix, fromChans: nat, toChans: nat, j: nat, used: array<int>) returns (terms: seq<Term>)
    requires Counted(m, fromChans, toChans, used) && j < toChans && Shaped(m, fromChans, toChans)
    ensures terms == TermsUp(m, fromChans, toChans, j, 0)
  {
    OffsetStep(j, toChans, fromChans);
    hide Offset;
    var fptr := Offset(j, fromChans);
    terms := [];
    for i := 0 to fromChans
      invariant terms + TermsUp(m, fromChans, toChans, j, i) == TermsUp(m, fromChans, toChans, j, 0)
    {
      var coefficient := m[fptr + i];
      if coefficient != 0.0 {
        terms := terms + [Printed(coefficient, used[i], i)];
      }
    }
  }

  /** write_converter, for the table of eight layouts. */
  method WriteConverter(m: Matrix, fromChans: nat, toChans: nat) returns (p: Option<Program>)
    requires 1 <= fromChans <= NUM_CHANNELS && 1 <= toChans <= NUM_CHANNELS && Shaped(m, fromChans, toChans)
    ensures p == Generate(m, fromChans, toChans)
  {
    hide Counted, TermsUp, TermsDown;
    if toChans == fromChans {
      return None;
    }
    var convertBackwards := toChans > fromChans;
    var used := CountUses(m, fromChans, toChans);
    var locals := WriteLocals(m, fromChans, toChans, used);
    var body: seq<Assign> := [];
    if convertBackwards {
      var j := toChans - 1;
      while j >= 0
        invariant -1 <= j < toChans && Counted(m, fromChans, toChans, used)
        invariant body + BodyDown(m, fromChans, toChans, j + 1) == BodyDown(m, fromChans, toChans, toChans)
      {
        var terms := WriteRowDown(m, fromChans, toChans, j, used);
        body := body + [Assign(j, terms)];
        j := j - 1;
      }
    } else {
      for j := 0 to toChans
        invariant Counted(m, fromChans, toChans, used)
        invariant body + BodyUp(m, fromChans, toChans, j) == BodyUp(m, fromChans, toChans, 0)
      {
        var terms := WriteRowUp(m, fromChans, toChans, j, used);
        body := body + [Assign(j, terms)];
      }
    }
    assert body + [] == body;
    p := Some(Program(convertBackwards, fromChans, toChans, locals, body));
  }
}
