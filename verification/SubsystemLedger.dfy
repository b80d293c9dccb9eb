/** Runs in which clients only quit what they successfully initialised: how many
    references EVENTS and JOYSTICK hold, and why a dependency outlives its dependents. */
module SubsystemLedger {
  import opened SubsystemModel
  import opened SubsystemLaws
  import opened SubsystemRuns

  /** The client's own references after a successful init of `f`. */
  function Granted(ex: Counts, f: set<Sub>): Counts {
    Counts(ex.timer + One(Timer in f), ex.audio + One(Audio in f), ex.video + One(Video in f),
           ex.joystick + One(Joystick in f), ex.haptic + One(Haptic in f), ex.gamepad + One(Gamepad in f),
           ex.events + One(Events in f), ex.sensor + One(Sensor in f))
  }

  function Returned(ex: Counts, f: set<Sub>): Counts {
    Counts(Minus(ex.timer, One(Timer in f)), Minus(ex.audio, One(Audio in f)), Minus(ex.video, One(Video in f)),
           Minus(ex.joystick, One(Joystick in f)), Minus(ex.haptic, One(Haptic in f)),
           Minus(ex.gamepad, One(Gamepad in f)), Minus(ex.events, One(Events in f)),
           Minus(ex.sensor, One(Sensor in f)))
  }

  predicate Covers(ex: Counts, f: set<Sub>) {
    forall s :: s in f ==> ex.Get(s) > 0
  }

  /** The references JOYSTICK and EVENTS must hold for their dependents that are up. */
  function Implied(c: Counts): (int, int) {
    (One(c.gamepad > 0), One(c.video > 0) + One(c.audio > 0) + One(c.joystick > 0))
  }

  /** References that failed inits have left on JOYSTICK and EVENTS, and that nobody will return. */
  datatype Leaks = Leaks(joystick: nat, events: nat)

  const NONE := Leaks(0, 0)

  /** What the failed backend init of `s` leaves behind. */
  function LeakOf(s: Sub): Leaks {
    match s
    case Gamepad => Leaks(1, 0)
    case Video | Audio | Joystick => Leaks(0, 1)
    case _ => NONE
  }

  function Add(l: Leaks, m: Leaks): Leaks {
    Leaks(l.joystick + m.joystick, l.events + m.events)
  }

  /** The counters are the client's references plus the implied ones plus the leaked ones. */
  predicate Owes(c: Counts, ex: Counts, l: Leaks) {
    && c.timer == ex.timer && c.haptic == ex.haptic && c.sensor == ex.sensor
    && c.gamepad == ex.gamepad && c.video == ex.video && c.audio == ex.audio
    && c.joystick == ex.joystick + Implied(c).0 + l.joystick
    && c.events == ex.events + Implied(c).1 + l.events
  }

  lemma AcquireOwes(c: Counts, ex: Counts, l: Leaks, f: set<Sub>)
    requires Owes(c, ex, l)
    ensures Owes(Acquired(c, f), Granted(ex, f), l)
  {
  }

  lemma LeakOwes(c: Counts, ex: Counts, l: Leaks, s: Sub)
    requires Owes(c, ex, l) && c.Get(s) == 0
    ensures Owes(Leaked(c, s), ex, Add(l, LeakOf(s)))
  {
    assert Acquired(c, {Events}) == c.Up(Events);
    assert Acquired(c, {Joystick}).joystick == c.joystick + 1;
  }

  lemma ReleaseOwes(c: Counts, ex: Counts, l: Leaks, f: set<Sub>)
    requires Owes(c, ex, l) && Covers(ex, f)
    ensures Owes(Released(c, f), Returned(ex, f), l)
    ensures DepsHeld(Released(c, f))
  {
    assert Joystick in f ==> ex.Get(Joystick) > 0;
    assert Events in f ==> ex.Get(Events) > 0;
  }

  lemma GrantCovers(ex: Counts, f: set<Sub>)
    ensures Covers(Granted(ex, f), f)
  {
  }

  lemma {:induction false} QuitFromOrdered(st: State, f: set<Sub>, k: nat, c: Counts, ex: Counts, l: Leaks,
      done: set<Sub>)
    requires k <= 8 && DoneBefore(f, done, k)
    requires Sound(st) && StopsBeforeDep(st.trace)
    requires st.counts == Released(c, done) && Owes(c, ex, l) && Covers(ex, f)
    ensures StopsBeforeDep(QuitFrom(false, st, f, k).trace)
    decreases 8 - k
  {
    hide Released, Owes, Covers, InitOrdered, StopsBeforeDep, DepsHeld;
    if k < 8 {
      OrdersHaveNoRepeats(k);
      var s := QUIT_ORDER[k];
      if s in f {
        CoversLess(ex, f, done);
        ReleaseOwes(c, ex, l, done);
        DropKeeps(st, s, {});
        DropCounts(st, s);
        ReleaseOneMore(c, done, s);
        QuitFromOrdered(Drop(false, st, s), f, k + 1, c, ex, l, done + {s});
      } else {
        QuitFromOrdered(st, f, k + 1, c, ex, l, done);
      }
    }
  }

  lemma CoversLess(ex: Counts, f: set<Sub>, g: set<Sub>)
    requires Covers(ex, f) && g <= f
    ensures Covers(ex, g)
  {
  }

  lemma ReleaseNothing(c: Counts)
    ensures Released(c, {}) == c
  {
  }

  lemma QuitOrdered(st: State, f: set<Sub>, ex: Counts, l: Leaks)
    requires Sound(st) && StopsBeforeDep(st.trace) && Owes(st.counts, ex, l) && Covers(ex, f)
    ensures StopsBeforeDep(Quit(false, st, f).trace)
  {
    ReleaseNothing(st.counts);
    QuitFromOrdered(st, f, 0, st.counts, ex, l, {});
  }

  lemma {:induction false} InitFromOrdered(o: Oracle, st: State, f: set<Sub>, k: nat, c: Counts, ex: Counts, l: Leaks,
      done: set<Sub>)
    requires k <= 8 && BroughtBefore(f, done, k)
    requires Sound(st) && StopsBeforeDep(st.trace)
    requires st.counts == Acquired(c, done) && Owes(c, ex, l)
    ensures StopsBeforeDep(InitFrom(o, st, f, k, done).0.trace)
    decreases 8 - k
  {
    hide Acquired, Owes, Covers, InitOrdered, StopsBeforeDep, StopsOnlyUp, Granted, Leaked;
    if k < 8 {
      OrdersHaveNoRepeats(k);
      var s := INIT_ORDER[k];
      if s !in f {
        InitFromOrdered(o, st, f, k + 1, c, ex, l, done);
      } else {
        var (st', ok) := Bring(o, st, s);
        BringCounts(o, st, s);
        BringKeeps(o, st, s);
        if ok {
          AcquireOneMore(c, done, s);
          InitFromOrdered(o, st', f, k + 1, c, ex, l, done + {s});
        } else {
          AcquireOwes(c, ex, l, done);
          LeakOwes(st.counts, Granted(ex, done), l, Culprit(st'.trace));
          GrantCovers(ex, done);
          QuitOrdered(st', done, Granted(ex, done), Add(l, LeakOf(Culprit(st'.trace))));
        }
      }
    }
  }

  // ---------- runs ----------

  function NextLedger(o: Oracle, st: State, ex: Counts, op: Op): Counts {
    match op
    case InitOp(f) => if Init(o, st, f).1 then Granted(ex, f) else ex
    case QuitOp(f) => Returned(ex, f)
    case ShutdownOp => ex
  }

  function LedgerAfter(o: Oracle, st: State, ex: Counts, ops: seq<Op>): Counts
    decreases |ops|
  {
    if ops == [] then ex
    else LedgerAfter(o, Step(o, st, ops[0]), NextLedger(o, st, ex, ops[0]), ops[1..])
  }

  /** A failed init adds what its failed backend leaves behind. */
  function NextLeaks(o: Oracle, st: State, l: Leaks, op: Op): Leaks {
    if op.InitOp? && !Init(o, st, op.flags).1 then Add(l, LeakOf(Culprit(Init(o, st, op.flags).0.trace))) else l
  }

  function LeaksAfter(o: Oracle, st: State, l: Leaks, ops: seq<Op>): Leaks
    decreases |ops|
  {
    if ops == [] then l
    else LeaksAfter(o, Step(o, st, ops[0]), NextLeaks(o, st, l, ops[0]), ops[1..])
  }

  /** Every quit returns references the client holds, and SDL_Quit is not called. */
  predicate Balanced(o: Oracle, st: State, ex: Counts, ops: seq<Op>)
    decreases |ops|
  {
    ops == [] ||
    (&& !ops[0].ShutdownOp?
     && (ops[0].QuitOp? ==> Covers(ex, ops[0].flags))
     && Balanced(o, Step(o, st, ops[0]), NextLedger(o, st, ex, ops[0]), ops[1..]))
  }

  predicate EveryInitSucceeds(o: Oracle, st: State, ops: seq<Op>)
    decreases |ops|
  {
    ops == [] ||
    (&& (ops[0].InitOp? ==> Init(o, st, ops[0].flags).1)
     && EveryInitSucceeds(o, Step(o, st, ops[0]), ops[1..]))
  }

  lemma StepOwes(o: Oracle, st: State, ex: Counts, l: Leaks, op: Op)
    requires Owes(st.counts, ex, l)
    requires !op.ShutdownOp? && (op.QuitOp? ==> Covers(ex, op.flags))
    ensures Owes(Step(o, st, op).counts, NextLedger(o, st, ex, op), NextLeaks(o, st, l, op))
  {
    hide Acquired, Released, Owes, Granted, Returned, Covers, Leaked, Implied, LeakOf, Add;
    match op
    case InitOp(f) =>
      if Init(o, st, f).1 {
        InitCounts(o, st, f);
        AcquireOwes(st.counts, ex, l, f);
      } else {
        FailedInitLeaks(o, st, f);
        LeakOwes(st.counts, ex, l, Culprit(Init(o, st, f).0.trace));
      }
    case QuitOp(f) =>
      QuitCounts(st, f);
      ReleaseOwes(st.counts, ex, l, f);
  }

  lemma StepOrdered(o: Oracle, st: State, ex: Counts, l: Leaks, op: Op)
    requires Sound(st) && StopsBeforeDep(st.trace) && Owes(st.counts, ex, l)
    requires !op.ShutdownOp? && (op.QuitOp? ==> Covers(ex, op.flags))
    ensures Sound(Step(o, st, op)) && StopsBeforeDep(Step(o, st, op).trace)
  {
    hide Owes, InitOrdered, StopsBeforeDep;
    match op
    case InitOp(f) =>
      InitFromKeeps(o, st, f, 0, {});
      AcquireNothing(st.counts);
      InitFromOrdered(o, st, f, 0, st.counts, ex, l, {});
    case QuitOp(f) =>
      QuitFromKeeps(st, f, 0);
      QuitOrdered(st, f, ex, l);
  }

  lemma {:induction false} BalancedRunKeeps(o: Oracle, st: State, ex: Counts, l: Leaks, ops: seq<Op>)
    requires Balanced(o, st, ex, ops)
    requires Sound(st) && StopsBeforeDep(st.trace) && Owes(st.counts, ex, l)
    ensures var st' := Run(o, st, ops);
      && Owes(st'.counts, LedgerAfter(o, st, ex, ops), LeaksAfter(o, st, l, ops))
      && Sound(st') && StopsBeforeDep(st'.trace)
    decreases |ops|
  {
    if ops != [] {
      StepOwes(o, st, ex, l, ops[0]);
      StepOrdered(o, st, ex, l, ops[0]);
      BalancedRunKeeps(o, Step(o, st, ops[0]), NextLedger(o, st, ex, ops[0]), NextLeaks(o, st, l, ops[0]), ops[1..]);
    }
    hide Owes, Step, NextLedger, NextLeaks, StopsBeforeDep, Sound;
  }

  /** In every balanced run, whatever the backends answer: the counters are exactly the client's
      references, plus one for each dependent that is up, plus those that failed inits have leaked,
      and a dependent's quit routine always runs while its dependency is still up. */
  lemma EveryBalancedRunOwes(o: Oracle, ops: seq<Op>)
    requires Balanced(o, INITIAL, ZERO, ops)
    ensures var st := Run(o, INITIAL, ops);
      && Owes(st.counts, LedgerAfter(o, INITIAL, ZERO, ops), LeaksAfter(o, INITIAL, NONE, ops))
      && (EveryInitSucceeds(o, INITIAL, ops) ==> LeaksAfter(o, INITIAL, NONE, ops) == NONE)
      && StopsBeforeDep(st.trace)
  {
    hide Balanced, Run, LedgerAfter, LeaksAfter, EveryInitSucceeds;
    hide Owes, Sound, StopsBeforeDep;
    InitiallySound();
    BalancedRunKeeps(o, INITIAL, ZERO, NONE, ops);
    if EveryInitSucceeds(o, INITIAL, ops) {
      NoFailureNoLeak(o, INITIAL, NONE, ops);
    }
  }

  lemma InitiallySound()
    ensures Sound(INITIAL) && StopsBeforeDep(INITIAL.trace) && Owes(INITIAL.counts, ZERO, NONE)
  {
    forall s: Sub ensures ZERO.Get(s) == 0 && !IsUp([], s) {
    }
  }

  lemma {:induction false} NoFailureNoLeak(o: Oracle, st: State, l: Leaks, ops: seq<Op>)
    requires EveryInitSucceeds(o, st, ops)
    ensures LeaksAfter(o, st, l, ops) == l
    decreases |ops|
  {
    if ops != [] {
      NoFailureNoLeak(o, Step(o, st, ops[0]), l, ops[1..]);
    }
  }

  /** A client that has returned everything leaves up exactly what failed inits have leaked. */
  lemma OnlyLeaksLeftUp(o: Oracle, ops: seq<Op>)
    requires Balanced(o, INITIAL, ZERO, ops) && LedgerAfter(o, INITIAL, ZERO, ops) == ZERO
    ensures var st, l := Run(o, INITIAL, ops), LeaksAfter(o, INITIAL, NONE, ops);
      && st.counts == ZERO.(joystick := l.joystick, events := l.events + One(l.joystick > 0))
      && forall s :: IsUp(st.trace, s) <==>
        (s == Joystick && l.joystick > 0) || (s == Events && (l.joystick > 0 || l.events > 0))
  {
    hide Balanced, Run, LedgerAfter, LeaksAfter;
    hide IsUp, StartsOnlyDown, StartsAfterDep, StopsOnlyUp, StopsBeforeDep;
    EveryBalancedRunOwes(o, ops);
    EveryRunAlternates(o, ops);
  }

  /** So it leaves everything down if no init failed. */
  lemma NothingLeftUp(o: Oracle, ops: seq<Op>)
    requires Balanced(o, INITIAL, ZERO, ops) && EveryInitSucceeds(o, INITIAL, ops)
    requires LedgerAfter(o, INITIAL, ZERO, ops) == ZERO
    ensures Run(o, INITIAL, ops).counts == ZERO
    ensures forall s :: !IsUp(Run(o, INITIAL, ops).trace, s)
  {
    hide Balanced, Run, LedgerAfter, LeaksAfter, EveryInitSucceeds, IsUp;
    OnlyLeaksLeftUp(o, ops);
    NoFailureNoLeak(o, INITIAL, NONE, ops);
  }
}
