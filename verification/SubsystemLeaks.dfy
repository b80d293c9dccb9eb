/** What failed inits leak is never shut down again while clients only quit what they initialised. */
module SubsystemLeaks {
  import opened SubsystemModel
  import opened SubsystemLaws
  import opened SubsystemRuns
  import opened SubsystemLedger

  // ---------- a counter that stays positive means no quit call ----------

  lemma StopsAppend(trace: seq<Event>, e: Event, x: Sub)
    ensures Stops(trace + [e], x) == Stops(trace, x) + One(e == Stopped(x))
  {
    assert (trace + [e])[..|trace|] == trace;
  }

  lemma {:induction false} DropStops(st: State, s: Sub, x: Sub)
    ensures var st' := Drop(false, st, s);
      && st'.counts.Get(x) <= st.counts.Get(x)
      && (st'.counts.Get(x) > 0 ==> Stops(st'.trace, x) == Stops(st.trace, x))
    decreases Rank(s)
  {
    DropIs(false, st, s);
    DownOnly(st.counts, s, x);
    if st.counts.Get(s) == 1 {
      StopsAppend(st.trace, Stopped(s), x);
      DownOnly(DropChain(false, st, s).counts, s, x);
      if Dep(s).Some? {
        var stopped := st.(trace := st.trace + [Stopped(s)]);
        DropStops(stopped, Dep(s).value, x);
        DropStops(stopped, Dep(s).value, s);
      }
    }
  }

  lemma {:induction false} QuitFromStops(st: State, f: set<Sub>, k: nat, x: Sub)
    requires k <= 8
    ensures var st' := QuitFrom(false, st, f, k);
      && st'.counts.Get(x) <= st.counts.Get(x)
      && (st'.counts.Get(x) > 0 ==> Stops(st'.trace, x) == Stops(st.trace, x))
    decreases 8 - k
  {
    hide Drop, Counts.Get;
    if k < 8 {
      var s := QUIT_ORDER[k];
      QuitFromStep(false, st, f, k);
      DropStops(st, s, x);
      QuitFromStops(if s in f then Drop(false, st, s) else st, f, k + 1, x);
    }
  }

  /** Bringing a subsystem up calls no quit routine. */
  lemma {:induction false} BringStops(o: Oracle, st: State, s: Sub, x: Sub)
    ensures Stops(Bring(o, st, s).0.trace, x) == Stops(st.trace, x)
    decreases Rank(s)
  {
    BringIs(o, st, s);
    StopsAppend(st.trace, Started(s, o(|st.trace|)), x);
    if st.counts.Get(s) == 0 && Dep(s).Some? {
      var d := Dep(s).value;
      var st' := InitOrIncrement(o, st, d).0;
      InitSingle(o, st, d);
      BringStops(o, st, d, x);
      StopsAppend(st'.trace, Started(s, o(|st'.trace|)), x);
    }
  }

  lemma {:induction false} InitFromStops(o: Oracle, st: State, f: set<Sub>, k: nat, done: set<Sub>, x: Sub)
    requires k <= 8
    ensures var st' := InitFrom(o, st, f, k, done).0;
      st'.counts.Get(x) > 0 ==> Stops(st'.trace, x) == Stops(st.trace, x)
    decreases 8 - k
  {
    hide Bring, Counts.Get;
    if k < 8 {
      var s := INIT_ORDER[k];
      InitFromStep(o, st, f, k, done);
      BringStops(o, st, s, x);
      if s !in f {
        InitFromStops(o, st, f, k + 1, done, x);
      } else if Bring(o, st, s).1 {
        InitFromStops(o, Bring(o, st, s).0, f, k + 1, done + {s}, x);
      } else {
        QuitFromStops(Bring(o, st, s).0, done, 0, x);
      }
    }
  }

  /** A call that leaves a counter positive has not called that subsystem's quit routine. */
  lemma StepStops(o: Oracle, st: State, op: Op, x: Sub)
    requires !op.ShutdownOp? && Step(o, st, op).counts.Get(x) > 0
    ensures Stops(Step(o, st, op).trace, x) == Stops(st.trace, x)
  {
    hide Counts.Get;
    match op
    case InitOp(f) => InitFromStops(o, st, f, 0, {}, x);
    case QuitOp(f) => QuitFromStops(st, f, 0, x);
  }

  // ---------- leaked dependencies ----------

  /** `x` holds a reference that nobody will return. */
  predicate Holds(l: Leaks, x: Sub) {
    (x == Joystick && l.joystick > 0) || (x == Events && (l.joystick > 0 || l.events > 0))
  }

  lemma HoldsUp(c: Counts, ex: Counts, l: Leaks, x: Sub)
    requires Owes(c, ex, l) && Holds(l, x)
    ensures c.Get(x) > 0
  {
  }

  lemma {:induction false} LeakedKeeps(o: Oracle, st: State, ex: Counts, l: Leaks, ops: seq<Op>, x: Sub)
    requires Balanced(o, st, ex, ops) && Owes(st.counts, ex, l) && Holds(l, x)
    ensures Run(o, st, ops).counts.Get(x) > 0
    ensures Stops(Run(o, st, ops).trace, x) == Stops(st.trace, x)
    decreases |ops|
  {
    hide Owes, Stops, Counts.Get;
    HoldsUp(st.counts, ex, l, x);
    if ops != [] {
      hide Step;
      StepOwes(o, st, ex, l, ops[0]);
      HoldsUp(Step(o, st, ops[0]).counts, NextLedger(o, st, ex, ops[0]), NextLeaks(o, st, l, ops[0]), x);
      StepStops(o, st, ops[0], x);
      LeakedKeeps(o, Step(o, st, ops[0]), NextLedger(o, st, ex, ops[0]), NextLeaks(o, st, l, ops[0]), ops[1..], x);
    }
  }

  /** Once a failed init has leaked a reference, JOYSTICK or EVENTS stays up, and its quit routine is
      not called again, for the rest of the balanced run. */
  lemma LeakedStaysUp(o: Oracle, before: seq<Op>, after: seq<Op>, x: Sub)
    requires Balanced(o, INITIAL, ZERO, before + after) && Holds(LeaksAfter(o, INITIAL, NONE, before), x)
    ensures var st, end := Run(o, INITIAL, before), Run(o, INITIAL, before + after);
      IsUp(end.trace, x) && Stops(end.trace, x) == Stops(st.trace, x)
  {
    hide Balanced, Run, LeaksAfter, LedgerAfter, Holds, Owes, IsUp, Stops;
    hide Sound, StopsBeforeDep, StopsOnlyUp, StartsOnlyDown, StartsAfterDep, Counts.Get;
    InitiallySound();
    SplitRun(o, INITIAL, ZERO, NONE, before, after);
    var st, ex := Run(o, INITIAL, before), LedgerAfter(o, INITIAL, ZERO, before);
    var l := LeaksAfter(o, INITIAL, NONE, before);
    BalancedRunKeeps(o, INITIAL, ZERO, NONE, before);
    LeakedKeeps(o, st, ex, l, after, x);
    EveryRunAlternates(o, before + after);
  }

  lemma {:induction false} SplitRun(o: Oracle, st: State, ex: Counts, l: Leaks, before: seq<Op>, after: seq<Op>)
    requires Balanced(o, st, ex, before + after)
    ensures Balanced(o, st, ex, before)
    ensures Run(o, st, before + after) == Run(o, Run(o, st, before), after)
    ensures Balanced(o, Run(o, st, before), LedgerAfter(o, st, ex, before), after)
    decreases |before|
  {
    if before == [] {
      assert before + after == after;
    } else {
      assert (before + after)[1..] == before[1..] + after && (before + after)[0] == before[0];
      hide Step, NextLedger, NextLeaks;
      SplitRun(o, Step(o, st, before[0]), NextLedger(o, st, ex, before[0]), NextLeaks(o, st, l, before[0]),
               before[1..], after);
    }
  }
}
