/** src/SDL.c as it stands: the counter array indexed by bit position, the flag words, and the
    mutually recursive init and quit. Each method is proved to follow SubsystemModel. */
module SubsystemState {
  import opened Wrappers
  import opened BitWords
  import opened SubsystemModel
  import opened SubsystemLaws

  newtype uint8 = x: int | 0 <= x <= 255

  /** SDL_InitFlags. */
  function Flag(s: Sub): bv32 {
    match s
    case Timer => 0x1
    case Audio => 0x10
    case Video => 0x20
    case Joystick => 0x200
    case Haptic => 0x1000
    case Gamepad => 0x2000
    case Events => 0x4000
    case Sensor => 0x8000
  }

  /** The bit position of `s`, which is its index in the counter array. */
  function Index(s: Sub): (i: nat)
    ensures i < 32
  {
    match s
    case Timer => 0
    case Audio => 4
    case Video => 5
    case Joystick => 9
    case Haptic => 12
    case Gamepad => 13
    case Events => 14
    case Sensor => 15
  }

  const INIT_EVERYTHING: bv32 :=
    Flag(Timer) | Flag(Audio) | Flag(Video) | Flag(Events) |
    Flag(Joystick) | Flag(Haptic) | Flag(Gamepad) | Flag(Sensor)

  predicate Meets(a: bv32, b: bv32) {
    a & b != 0
  }

  /** `flags & SDL_INIT_s`. */
  predicate Has(flags: bv32, s: Sub) {
    Meets(flags, Flag(s))
  }

  /** The subsystems named by a flag word; other bits mean nothing to init and quit. */
  function SetOf(flags: bv32): set<Sub> {
    set s: Sub | Has(flags, s)
  }

  /** The position of the one bit of `Flag(s)`, as a word. */
  function BitOf(s: Sub): (b: bv32)
    ensures IsMsb(Flag(s), b) && b as int == Index(s)
  {
    match s
    case Timer => 0
    case Audio => 4
    case Video => 5
    case Joystick => 9
    case Haptic => 12
    case Gamepad => 13
    case Events => 14
    case Sensor => 15
  }

  lemma SetOfFlag(s: Sub)
    ensures SetOf(Flag(s)) == {s}
  {
    forall x ensures Has(Flag(s), x) <==> x == s {
      FlagsAreDisjoint(s, x);
    }
  }

  lemma FlagsAreDisjoint(s: Sub, x: Sub)
    ensures Meets(Flag(s), Flag(x)) <==> s == x
  {
  }

  lemma AndOr(a: bv32, b: bv32, m: bv32)
    ensures (a | b) & m != 0 <==> a & m != 0 || b & m != 0
  {
  }

  lemma MeetsOr(a: bv32, b: bv32, m: bv32)
    ensures Meets(a | b, m) <==> Meets(a, m) || Meets(b, m)
  {
    AndOr(a, b, m);
  }

  lemma HasOr(flags: bv32, s: Sub, x: Sub)
    ensures Has(flags | Flag(s), x) <==> Has(flags, x) || x == s
  {
    hide Flag, Meets;
    MeetsOr(flags, Flag(s), Flag(x));
    FlagsAreDisjoint(s, x);
  }

  lemma SetOfOr(flags: bv32, s: Sub)
    ensures SetOf(flags | Flag(s)) == SetOf(flags) + {s}
  {
    hide Has, Flag;
    forall x ensures Has(flags | Flag(s), x) <==> Has(flags, x) || x == s {
      HasOr(flags, s, x);
    }
  }

  lemma SetOfEverything()
    ensures SetOf(INIT_EVERYTHING) == EVERYTHING && SetOf(0) == {}
  {
    forall s ensures Has(INIT_EVERYTHING, s) && !Has(0, s) && s in EVERYTHING {
    }
  }

  /** The WasInit loop after looking at the bits below `i`. */
  ghost predicate Collected(initialized: bv32, asked: bv32, rc: seq<uint8>, i: bv32)
    requires |rc| == 32
  {
    forall k :: 0 <= k <= 31 ==>
      (TestBit(initialized, k) <==> k < i && TestBit(asked, k) && rc[k as int] > 0)
  }

  /** `flags` after `i` passes of `flags >>= 1`. */
  function Above(asked: bv32, i: bv32): bv32
    requires i <= 32
  {
    asked >> i
  }

  /** `flags & 1`. */
  predicate LowBit(left: bv32) {
    left & 1 == 1
  }

  /** `flags >> 1`. */
  function Half(left: bv32): bv32 {
    left >> 1
  }

  /** `initialized | (1 << i)`. */
  function Mark(initialized: bv32, i: bv32): bv32
    requires i <= 31
  {
    initialized | (1 << i)
  }

  lemma CollectBit(initialized: bv32, asked: bv32, rc: seq<uint8>, i: bv32)
    requires |rc| == 32 && i <= 31 && Collected(initialized, asked, rc, i)
    ensures Collected(if TestBit(asked, i) && rc[i as int] > 0 then Mark(initialized, i) else initialized,
                      asked, rc, i + 1)
  {
    hide TestBit, Mark;
    var next := if TestBit(asked, i) && rc[i as int] > 0 then Mark(initialized, i) else initialized;
    forall k | 0 <= k <= 31
      ensures TestBit(next, k) <==> k < i + 1 && TestBit(asked, k) && rc[k as int] > 0
    {
      assert TestBit(initialized, k) <==> k < i && TestBit(asked, k) && rc[k as int] > 0;
      SetOneBit(initialized, i, k);
      UpTo(k, i);
    }
  }

  /** One pass of the loop. */
  lemma CollectOne(initialized: bv32, asked: bv32, rc: seq<uint8>, i: bv32)
    requires |rc| == 32 && i <= 31 && Collected(initialized, asked, rc, i)
    ensures Collected(if LowBit(Above(asked, i)) && rc[i as int] > 0 then Mark(initialized, i) else initialized,
                      asked, rc, i + 1)
    ensures Half(Above(asked, i)) == Above(asked, i + 1)
  {
    CollectBit(initialized, asked, rc, i);
    LowestBit(asked, i);
    hide Collected, TestBit, Mark, LowBit, Half, Above;
  }

  lemma CountUp(i: bv32, count: bv32)
    requires i < count <= 32
    ensures i as int < 32 && i + 1 <= count && i as int < (i + 1) as int <= count as int
  {
  }

  lemma UpTo(k: bv32, i: bv32)
    requires i <= 31
    ensures k < i + 1 <==> k < i || k == i
  {
  }

  /** The loop may stop at the highest bit asked for. */
  lemma CollectedAll(initialized: bv32, asked: bv32, rc: seq<uint8>, msb: bv32)
    requires |rc| == 32 && IsMsb(asked, msb)
    requires Collected(initialized, asked, rc, if 32 < msb + 1 then 32 else msb + 1)
    ensures Collected(initialized, asked, rc, 32)
  {
    forall k | 0 <= k <= 31
      ensures TestBit(initialized, k) <==> TestBit(asked, k) && rc[k as int] > 0
    {
      AboveIsClear(asked, msb, k);
      UpTo(k, msb);
    }
    hide TestBit;
  }

  /** The fast path answers the same question as the loop. */
  lemma OneBitCollected(flags: bv32, rc: seq<uint8>, msb: bv32)
    requires |rc| == 32 && IsMsb(flags, msb) && HasExactlyOneBitSet32(flags)
    ensures Collected(if rc[msb as int] != 0 then flags else 0, flags, rc, 32)
  {
    OneBitIsPowerOfTwo(flags, msb);
    forall k | 0 <= k <= 31 ensures !TestBit(0, k) {
    }
    hide TestBit;
  }

  lemma LowestBit(x: bv32, i: bv32)
    requires i <= 31
    ensures LowBit(Above(x, i)) <==> TestBit(x, i)
    ensures Half(Above(x, i)) == Above(x, i + 1)
  {
  }

  lemma SetOneBit(x: bv32, i: bv32, k: bv32)
    requires i <= 31 && k <= 31
    ensures TestBit(Mark(x, i), k) <==> TestBit(x, k) || k == i
  {
  }

  // ---------- the counters as an array ----------

  predicate IsSubIndex(i: int) {
    i in {0, 4, 5, 9, 12, 13, 14, 15}
  }

  function CountsOf(rc: seq<uint8>): Counts
    requires |rc| == 32
  {
    Counts(rc[0] as nat, rc[4] as nat, rc[5] as nat, rc[9] as nat,
           rc[12] as nat, rc[13] as nat, rc[14] as nat, rc[15] as nat)
  }

  lemma CountsAt(rc: seq<uint8>, s: Sub)
    requires |rc| == 32
    ensures CountsOf(rc).Get(s) == rc[Index(s)] as nat && IsSubIndex(Index(s))
  {
  }

  lemma CountsPut(rc: seq<uint8>, s: Sub, n: uint8)
    requires |rc| == 32
    ensures CountsOf(rc[Index(s) := n]) == CountsOf(rc).Put(s, n as nat)
  {
  }

  /** No counter has to pass 255 for `f` to be initialised: no assertion of the source fires. */
  predicate Headroom(c: Counts, f: set<Sub>) {
    var c' := Acquired(c, f);
    && c'.timer <= 255 && c'.audio <= 255 && c'.video <= 255 && c'.joystick <= 255
    && c'.haptic <= 255 && c'.gamepad <= 255 && c'.events <= 255 && c'.sensor <= 255
  }

  lemma HeadroomFits(c: Counts, s: Sub)
    requires Headroom(c, {s})
    ensures c.Get(s) < 255
    ensures c.Get(s) == 0 && Dep(s).Some? ==>
      Headroom(c, {Dep(s).value}) && Acquired(c, {Dep(s).value}).Get(s) == 0
  {
  }

  /** What remains to be initialised still fits. */
  lemma HeadroomLeft(c: Counts, f: set<Sub>, done: set<Sub>, s: Sub)
    requires Headroom(c, f) && done <= f && s in f
    requires forall d :: d in done ==> InitPos(d) < InitPos(s)
    ensures Headroom(Acquired(c, done), {s})
  {
    AcquireOneMore(c, done, s);
  }

  lemma RankOfSingle(s: Sub)
    ensures RankOf({s}) == Rank(s)
  {
  }

  lemma RankOfMember(f: set<Sub>, s: Sub)
    requires s in f
    ensures Rank(s) <= RankOf(f)
  {
  }

  /** Where an init of `f` stands before its k-th block: what the rest, or the rollback once a
      block has failed, still has to do to reach `end`. */
  ghost predicate Underway(o: Oracle, f: set<Sub>, c: Counts, end: (State, bool),
                           k: nat, st: State, ok: bool, done: set<Sub>)
    requires k <= |INIT_ORDER|
  {
    && done <= f
    && Headroom(c, f)
    && if ok
       then end == InitFrom(o, st, f, k, done) && BroughtBefore(f, done, k) && st.counts == Acquired(c, done)
       else end == (SubsystemModel.Quit(false, st, done), false)
  }

  lemma StartsUnderway(o: Oracle, st: State, f: set<Sub>)
    requires Headroom(st.counts, f)
    ensures Underway(o, f, st.counts, Init(o, st, f), 0, st, true, {})
  {
    AcquireNothing(st.counts);
  }

  lemma EndsUnderway(o: Oracle, f: set<Sub>, c: Counts, end: (State, bool), st: State, ok: bool, done: set<Sub>)
    requires Underway(o, f, c, end, |INIT_ORDER|, st, ok, done)
    ensures end == if ok then (st, true) else (SubsystemModel.Quit(false, st, done), false)
    ensures RankOf(done) <= RankOf(f)
  {
    InitSkips(o, st, f, |INIT_ORDER|, done);
    RankOfSubset(f, done);
  }

  lemma RankOfSubset(f: set<Sub>, g: set<Sub>)
    requires g <= f
    ensures RankOf(g) <= RankOf(f)
  {
  }

  class Subsystems {
    const refCount: array<uint8>
    var inMainQuit: bool
    /** The backend routines called so far. */
    var trace: seq<Event>
    /** What the n-th backend call answers if it is an init. */
    const oracle: Oracle

    constructor (oracle: Oracle)
      ensures Valid() && fresh(refCount) && this.oracle == oracle
      ensures State() == INITIAL && !inMainQuit
    {
      this.oracle := oracle;
      refCount := new uint8[32](i => 0);
      inMainQuit := false;
      trace := [];
    }

    ghost predicate Valid()
      reads this, refCount
    {
      && refCount.Length == 32
      && forall i :: 0 <= i < 32 && !IsSubIndex(i) ==> refCount[i] == 0
    }

    ghost function State(): State
      reads this, refCount
      requires refCount.Length == 32
    {
      SubsystemModel.State(CountsOf(refCount[..]), trace)
    }

    // ---------- the counter helpers, on any word ----------

    /** SDL_IncrementSubsystemRefCount; the requires is its assertion. */
    method Increment(subsystem: bv32)
      requires refCount.Length == 32
      requires forall r :: IsMsb(subsystem, r) ==> refCount[r as int] < 255
      modifies refCount
      ensures subsystem == 0 ==> refCount[..] == old(refCount[..])
      ensures forall r :: IsMsb(subsystem, r) ==>
        refCount[..] == old(refCount[..])[r as int := old(refCount[r as int]) + 1]
    {
      var index := MostSignificantBitIndex32(subsystem);
      if index != MINUS_ONE {
        refCount[index as int] := refCount[index as int] + 1;
      }
    }

    /** SDL_DecrementSubsystemRefCount. */
    method Decrement(subsystem: bv32)
      requires refCount.Length == 32
      modifies refCount
      ensures subsystem == 0 ==> refCount[..] == old(refCount[..])
      ensures forall r :: IsMsb(subsystem, r) ==>
        refCount[..] == var n := old(refCount[r as int]);
          old(refCount[..])[r as int := if n > 0 then n - 1 else 0]
    {
      var index := MostSignificantBitIndex32(subsystem);
      if subsystem != 0 {
        MsbIsHighestBit(subsystem, index);
      }
      hide IsMsb, TestBit;
      if index != MINUS_ONE && refCount[index as int] > 0 {
        refCount[index as int] := refCount[index as int] - 1;
      }
    }

    /** SDL_ShouldInitSubsystem. */
    method ShouldInit(subsystem: bv32) returns (should: bool)
      requires refCount.Length == 32
      requires forall r :: IsMsb(subsystem, r) ==> refCount[r as int] < 255
      ensures subsystem == 0 ==> !should
      ensures forall r :: IsMsb(subsystem, r) ==> should == (refCount[r as int] == 0)
    {
      var index := MostSignificantBitIndex32(subsystem);
      should := index != MINUS_ONE && refCount[index as int] == 0;
    }

    /** SDL_ShouldQuitSubsystem. */
    method ShouldQuit(subsystem: bv32) returns (should: bool)
      requires refCount.Length == 32
      ensures subsystem == 0 ==> should == inMainQuit
      ensures forall r :: IsMsb(subsystem, r) ==>
        should == (refCount[r as int] == 1 || (refCount[r as int] > 0 && inMainQuit))
    {
      var index := MostSignificantBitIndex32(subsystem);
      if index != MINUS_ONE && refCount[index as int] == 0 {
        return false;
      }
      should := (index != MINUS_ONE && refCount[index as int] == 1) || inMainQuit;
    }

    // ---------- the backends ----------

    method BackendInit(s: Sub) returns (ok: bool)
      modifies this`trace
      ensures ok == oracle(old(|trace|)) && trace == old(trace) + [Started(s, ok)]
    {
      ok := oracle(|trace|);
      trace := trace + [Started(s, ok)];
    }

    method BackendQuit(s: Sub)
      modifies this`trace
      ensures trace == old(trace) + [Stopped(s)]
    {
      trace := trace + [Stopped(s)];
    }

    // ---------- init ----------

    /** SDL_InitOrIncrementSubsystem. */
    method InitOrIncrement(s: Sub) returns (ok: bool)
      requires Valid() && !inMainQuit && Headroom(State().counts, {s})
      modifies this`trace, refCount
      ensures Valid() && (State(), ok) == SubsystemModel.InitOrIncrement(oracle, old(State()), s)
      decreases Rank(s), 3, 0
    {
      hide Flag, CountsOf, Headroom, Acquired, SubsystemModel.Init, Bring;
      ghost var before := State();
      var index := MostSignificantBitIndex32(Flag(s));
      ghost var b := BitOf(s);
      assert IsMsb(Flag(s), index) && index == b by {
        AboveIsClear(Flag(s), b, index);
      }
      CountsAt(refCount[..], s);
      HeadroomFits(before.counts, s);
      if refCount[index as int] > 0 {
        CountsPut(refCount[..], s, refCount[Index(s)] + 1);
        refCount[index as int] := refCount[index as int] + 1;
        return true;
      }
      SetOfFlag(s);
      RankOfSingle(s);
      var code := InitSubSystem(Flag(s));
      ok := code == 0;
    }

    /** One block of SDL_InitSubSystem: the eight in the source differ in the subsystem and
        in the one it implies. */
    method InitBlock(s: Sub) returns (ok: bool)
      requires Valid() && !inMainQuit && Headroom(State().counts, {s})
      modifies this`trace, refCount
      ensures Valid() && (State(), ok) == Bring(oracle, old(State()), s)
      decreases Rank(s), 0, 0
    {
      hide Bring, SubsystemModel.InitOrIncrement, Acquired, Headroom, Flag, CountsOf;
      ghost var before := State();
      ghost var b := BitOf(s);
      BringIs(oracle, before, s);
      CountsAt(refCount[..], s);
      HeadroomFits(before.counts, s);
      var should := ShouldInit(Flag(s));
      if should {
        match Dep(s) {
          case None =>
          case Some(d) =>
            var up := InitOrIncrement(d);
            if !up {
              return false;
            }
            InitOrIncrementCounts(oracle, before, d);
        }
        ok := StartBackend(s);
      } else {
        CountsPut(refCount[..], s, refCount[Index(s)] + 1);
        Increment(Flag(s));
        ok := true;
      }
    }

    /** The middle of a block: the reference is taken, the backend runs, and on failure the
        reference is given back. */
    method StartBackend(s: Sub) returns (ok: bool)
      requires Valid() && State().counts.Get(s) == 0
      modifies this`trace, refCount
      ensures Valid() && (State(), ok) == Start(oracle, old(State()), s)
    {
      hide Flag, CountsOf;
      ghost var b := BitOf(s);
      ghost var rc := refCount[..];
      CountsAt(rc, s);
      CountsPut(rc, s, 1);
      Increment(Flag(s));
      ok := BackendInit(s);
      if !ok {
        Decrement(Flag(s));
        assert refCount[..] == rc;
      }
    }

    /** The k-th block, run if its flag is set and no earlier block failed; `initialized` is
        `flags_initialized`. */
    method InitStage(k: nat, flags: bv32, ok: bool, initialized: bv32, ghost c: Counts, ghost end: (State, bool))
      returns (ok': bool, initialized': bv32)
      requires k < |INIT_ORDER| && Valid() && !inMainQuit
      requires Underway(oracle, SetOf(flags), c, end, k, State(), ok, SetOf(initialized))
      modifies this`trace, refCount
      ensures Valid()
      ensures Underway(oracle, SetOf(flags), c, end, k + 1, State(), ok', SetOf(initialized'))
      decreases RankOf(SetOf(flags)), 1, 0
    {
      hide InitFrom, Bring, Has, Flag, CountsOf, Acquired, Headroom, SubsystemModel.Quit;
      ok', initialized' := ok, initialized;
      if !ok {
        return;
      }
      var s := INIT_ORDER[k];
      ghost var st := State();
      OrdersHaveNoRepeats(k);
      InitFromStep(oracle, st, SetOf(flags), k, SetOf(initialized));
      if Has(flags, s) {
        RankOfMember(SetOf(flags), s);
        HeadroomLeft(c, SetOf(flags), SetOf(initialized), s);
        ok' := InitBlock(s);
        if ok' {
          BringCounts(oracle, st, s);
          AcquireOneMore(c, SetOf(initialized), s);
          SetOfOr(initialized, s);
          initialized' := initialized | Flag(s);
        }
      }
    }

    /** SDL_InitSubSystem, with SDL_main ready. */
    method InitSubSystem(flags: bv32) returns (code: int)
      requires Valid() && !inMainQuit && Headroom(State().counts, SetOf(flags))
      modifies this`trace, refCount
      ensures Valid()
      ensures (State(), code == 0) == Init(oracle, old(State()), SetOf(flags)) && (code == 0 || code == -1)
      decreases RankOf(SetOf(flags)), 2, 0
    {
      hide Underway, Init, SubsystemModel.Quit, SetOf, CountsOf, Headroom, RankOf;
      ghost var c := State().counts;
      ghost var end := Init(oracle, State(), SetOf(flags));
      SetOfEverything();
      StartsUnderway(oracle, State(), SetOf(flags));
      var ok, initialized := InitStage(0, flags, true, 0, c, end);
      ok, initialized := InitStage(1, flags, ok, initialized, c, end);
      ok, initialized := InitStage(2, flags, ok, initialized, c, end);
      ok, initialized := InitStage(3, flags, ok, initialized, c, end);
      ok, initialized := InitStage(4, flags, ok, initialized, c, end);
      ok, initialized := InitStage(5, flags, ok, initialized, c, end);
      ok, initialized := InitStage(6, flags, ok, initialized, c, end);
      ok, initialized := InitStage(7, flags, ok, initialized, c, end);
      EndsUnderway(oracle, SetOf(flags), c, end, State(), ok, SetOf(initialized));
      if ok {
        return 0;
      }
      QuitSubSystem(initialized);
      return -1;
    }

    // ---------- quit ----------

    /** One block of SDL_QuitSubSystem. */
    method QuitBlock(s: Sub)
      requires Valid()
      modifies this`trace, refCount
      ensures Valid() && State() == Drop(inMainQuit, old(State()), s)
      decreases Rank(s), 0, 0
    {
      hide Flag, CountsOf, Drop, SubsystemModel.Quit;
      ghost var b := BitOf(s);
      ghost var before := State();
      CountsAt(refCount[..], s);
      DropIs(inMainQuit, before, s);
      var should := ShouldQuit(Flag(s));
      if should {
        BackendQuit(s);
        match Dep(s) {
          case None =>
          case Some(d) =>
            SetOfFlag(d);
            RankOfSingle(d);
            QuitSingle(inMainQuit, State(), d);
            QuitSubSystem(Flag(d));
        }
      }
      CountsAt(refCount[..], s);
      CountsPut(refCount[..], s, if refCount[Index(s)] > 0 then refCount[Index(s)] - 1 else 0);
      Decrement(Flag(s));
    }

    method QuitStage(k: nat, flags: bv32)
      requires k < |QUIT_ORDER| && Valid()
      modifies this`trace, refCount
      ensures Valid()
      ensures QuitFrom(inMainQuit, old(State()), SetOf(flags), k)
        == QuitFrom(inMainQuit, State(), SetOf(flags), k + 1)
      decreases RankOf(SetOf(flags)), 1, 0
    {
      hide QuitFrom, Drop, Has, Flag, CountsOf;
      var s := QUIT_ORDER[k];
      QuitFromStep(inMainQuit, State(), SetOf(flags), k);
      if Has(flags, s) {
        RankOfMember(SetOf(flags), s);
        QuitBlock(s);
      }
    }

    /** SDL_QuitSubSystem. */
    method QuitSubSystem(flags: bv32)
      requires Valid()
      modifies this`trace, refCount
      ensures Valid() && State() == SubsystemModel.Quit(inMainQuit, old(State()), SetOf(flags))
      decreases RankOf(SetOf(flags)), 2, 0
    {
      hide QuitFrom, Has, Flag, CountsOf;
      ghost var st := State();
      QuitStage(0, flags);
      QuitStage(1, flags);
      QuitStage(2, flags);
      QuitStage(3, flags);
      QuitStage(4, flags);
      QuitStage(5, flags);
      QuitStage(6, flags);
      QuitStage(7, flags);
      QuitSkips(inMainQuit, State(), SetOf(flags), 8);
    }

    /** SDL_Quit. */
    method Quit()
      requires Valid()
      modifies this, refCount
      ensures Valid() && !inMainQuit && State() == Shutdown(old(State()))
    {
      inMainQuit := true;
      SetOfEverything();
      QuitSubSystem(INIT_EVERYTHING);
      forall i | 0 <= i < refCount.Length {
        refCount[i] := 0;
      }
      inMainQuit := false;
    }

    // ---------- asking ----------

    /** SDL_WasInit: exactly the requested bits whose counter is positive, zero meaning all. */
    method WasInit(flags: bv32) returns (initialized: bv32)
      requires refCount.Length == 32
      ensures var asked := if flags == 0 then INIT_EVERYTHING else flags;
        forall k :: 0 <= k <= 31 ==>
          (TestBit(initialized, k) <==> TestBit(asked, k) && refCount[k as int] > 0)
    {
      hide TestBit, IsMsb, Flag, Collected;
      ghost var rc := refCount[..];
      if HasExactlyOneBitSet32(flags) {
        var index := MostSignificantBitIndex32(flags);
        MsbIsSmall(flags, index);
        OneBitCollected(flags, rc, index);
        initialized := if refCount[index as int] != 0 then flags else 0;
        CollectedIsAnswer(initialized, flags, rc);
        return;
      }
      var asked := if flags == 0 then INIT_EVERYTHING else flags;
      assert INIT_EVERYTHING != 0 by {
        EverythingIsSomething();
      }
      var msb := MostSignificantBitIndex32(asked);
      initialized := CollectInitialized(asked, msb);
      CollectedIsAnswer(initialized, asked, rc);
    }

    /** The loop of SDL_WasInit, up to the highest bit of `asked`. */
    method CollectInitialized(asked: bv32, msb: bv32) returns (initialized: bv32)
      requires refCount.Length == 32 && IsMsb(asked, msb)
      ensures Collected(initialized, asked, refCount[..], 32)
    {
      ghost var rc := refCount[..];
      MsbIsSmall(asked, msb);
      hide IsMsb, TestBit, Above, LowBit, Half, Mark, Collected;
      var count := if 32 < msb + 1 then 32 else msb + 1;
      var left := asked;
      var i: bv32 := 0;
      initialized := 0;
      NothingCollected(asked, rc);
      while i < count
        invariant i <= count <= 32 && left == Above(asked, i)
        invariant Collected(initialized, asked, rc, i)
        decreases count as int - i as int
      {
        CollectOne(initialized, asked, rc, i);
        CountUp(i, count);
        if LowBit(left) && refCount[i as int] > 0 {
          initialized := Mark(initialized, i);
        }
        left := Half(left);
        i := i + 1;
      }
      CollectedAll(initialized, asked, rc, msb);
    }
  }

  lemma CollectedIsAnswer(initialized: bv32, asked: bv32, rc: seq<uint8>)
    requires |rc| == 32 && Collected(initialized, asked, rc, 32)
    ensures forall k :: 0 <= k <= 31 ==> (TestBit(initialized, k) <==> TestBit(asked, k) && rc[k as int] > 0)
  {
  }

  lemma EverythingIsSomething()
    ensures INIT_EVERYTHING != 0
  {
  }

  lemma MsbIsSmall(x: bv32, msb: bv32)
    requires IsMsb(x, msb)
    ensures msb <= 31
  {
  }

  lemma NothingCollected(asked: bv32, rc: seq<uint8>)
    requires |rc| == 32
    ensures Collected(0, asked, rc, 0) && Above(asked, 0) == asked
  {
  }
}
