/** When a failed SDL_InitSubSystem restores the counters, seen before the call. */
module SubsystemRollback {
  import opened Wrappers
  import opened SubsystemModel
  import opened SubsystemLaws

  /** Every requested subsystem that depends on another is up already. */
  predicate DependentsUp(c: Counts, f: set<Sub>) {
    forall s :: s in f && Dep(s).Some? ==> c.Get(s) > 0
  }

  /** Whatever the backends answer, a failed init of `f` leaves the counters as they were. */
  ghost predicate RollsBack(st: State, f: set<Sub>) {
    forall o: Oracle :: Init(o, st, f).1 || Init(o, st, f).0.counts == st.counts
  }

  // ---------- running with chosen answers ----------

  /** How many backends one block of SDL_InitSubSystem starts if all goes well. */
  function Needed(c: Counts, s: Sub): nat
    decreases Rank(s)
  {
    if c.Get(s) > 0 then 0
    else 1 + if Dep(s).Some? then Needed(c, Dep(s).value) else 0
  }

  /** The answers from position `n` on, `m` of them, are all good. */
  ghost predicate Good(o: Oracle, n: nat, m: nat) {
    forall k :: n <= k < n + m ==> o(k)
  }

  lemma {:induction false} BringSucceeds(o: Oracle, st: State, s: Sub)
    requires Good(o, |st.trace|, Needed(st.counts, s))
    ensures Bring(o, st, s).1
    ensures |Bring(o, st, s).0.trace| == |st.trace| + Needed(st.counts, s)
    decreases Rank(s), 0
  {
    BringIs(o, st, s);
    if st.counts.Get(s) == 0 && Dep(s).Some? {
      DependencySucceeds(o, st, Dep(s).value);
    }
  }

  lemma {:induction false} DependencySucceeds(o: Oracle, st: State, d: Sub)
    requires Good(o, |st.trace|, Needed(st.counts, d))
    ensures InitOrIncrement(o, st, d).1
    ensures |InitOrIncrement(o, st, d).0.trace| == |st.trace| + Needed(st.counts, d)
    decreases Rank(d), 1
  {
    if st.counts.Get(d) == 0 {
      InitSingle(o, st, d);
      BringSucceeds(o, st, d);
    }
  }

  /** With good answers only, every init succeeds. */
  lemma {:induction false} InitSucceeds(o: Oracle, st: State, f: set<Sub>, k: nat, done: set<Sub>)
    requires k <= 8 && forall n :: o(n)
    ensures InitFrom(o, st, f, k, done).1
    decreases 8 - k
  {
    if k < 8 {
      var s := INIT_ORDER[k];
      InitFromStep(o, st, f, k, done);
      if s in f {
        BringSucceeds(o, st, s);
        InitSucceeds(o, Bring(o, st, s).0, f, k + 1, done + {s});
      } else {
        InitSucceeds(o, st, f, k + 1, done);
      }
    }
  }

  /** A block whose dependency comes up but whose own backend fails. */
  lemma BringFails(o: Oracle, st: State, s: Sub)
    requires st.counts.Get(s) == 0
    requires Good(o, |st.trace|, Needed(st.counts, s) - 1) && !o(|st.trace| + Needed(st.counts, s) - 1)
    ensures !Bring(o, st, s).1 && FailedAt(Bring(o, st, s).0.trace, s)
  {
    hide *;
    NeededIs(st.counts, s);
    BringIs(o, st, s);
    if Dep(s).Some? {
      DependencySucceeds(o, st, Dep(s).value);
      StartFails(o, InitOrIncrement(o, st, Dep(s).value).0, s);
    } else {
      StartFails(o, st, s);
    }
  }

  lemma NeededIs(c: Counts, s: Sub)
    requires c.Get(s) == 0
    ensures Needed(c, s) == 1 + if Dep(s).Some? then Needed(c, Dep(s).value) else 0
  {
  }

  lemma StartFails(o: Oracle, st: State, s: Sub)
    requires !o(|st.trace|)
    ensures !Start(o, st, s).1 && FailedAt(Start(o, st, s).0.trace, s)
  {
    StartResult(o, st, s);
  }

  /** The answers that are good except at position `p`. */
  function AllBut(p: nat): Oracle {
    n => n != p
  }

  /** One bad answer makes a backend with a dependency fail, if a requested one is down. */
  lemma {:induction false} SomeAnswerLeaks(st: State, f: set<Sub>, k: nat, done: set<Sub>, x: Sub) returns (p: nat)
    requires k <= InitPos(x) && x in f && Dep(x).Some? && st.counts.Get(x) == 0
    ensures p >= |st.trace|
    ensures var (st', ok) := InitFrom(AllBut(p), st, f, k, done);
      !ok && LastStart(st'.trace).Some? && Dep(Culprit(st'.trace)).Some?
    decreases 8 - k
  {
    OrdersHaveNoRepeats(k);
    var s := INIT_ORDER[k];
    if s !in f {
      p := SomeAnswerLeaks(st, f, k + 1, done, x);
      InitFromStep(AllBut(p), st, f, k, done);
    } else if st.counts.Get(s) == 0 && Dep(s).Some? {
      p := |st.trace| + Needed(st.counts, s) - 1;
      InitFromStep(AllBut(p), st, f, k, done);
      BringFails(AllBut(p), st, s);
      QuitKeepsLastStart(false, Bring(AllBut(p), st, s).0, done, 0);
    } else {
      var st' := AfterGood(st, s);
      GoodKeepsOthers(st, s, x);
      p := SomeAnswerLeaks(st', f, k + 1, done + {s}, x);
      InitFromStep(AllBut(p), st, f, k, done);
      BringIs(AllBut(p), st, s);
    }
  }

  /** A block that starts at most its own backend, and well. */
  function AfterGood(st: State, s: Sub): State {
    if st.counts.Get(s) > 0 then Inc(st, s) else Inc(st.(trace := st.trace + [Started(s, true)]), s)
  }

  lemma GoodKeepsOthers(st: State, s: Sub, x: Sub)
    requires x != s
    ensures AfterGood(st, s).counts.Get(x) == st.counts.Get(x)
    ensures st.trace <= AfterGood(st, s).trace
    ensures st.counts.Get(s) == 0 ==> |AfterGood(st, s).trace| == |st.trace| + 1
  {
  }

  // ---------- the exact condition ----------

  /** A failed init is sure to restore the counters if and only if every requested subsystem that
      depends on another is up before the call. */
  lemma RollsBackIffDependentsUp(st: State, f: set<Sub>)
    ensures RollsBack(st, f) <==> DependentsUp(st.counts, f)
  {
    hide Init, InitFrom, Leaked, Acquired;
    if DependentsUp(st.counts, f) {
      forall o: Oracle | !Init(o, st, f).1 ensures Init(o, st, f).0.counts == st.counts {
        FailedInitLeaks(o, st, f);
      }
    } else {
      var x :| x in f && Dep(x).Some? && st.counts.Get(x) == 0;
      var p := SomeAnswerLeaks(st, f, 0, {}, x);
      InitIs(AllBut(p), st, f);
      FailedInitLeaks(AllBut(p), st, f);
      assert !RollsBack(st, f);
    }
  }

  lemma InitIs(o: Oracle, st: State, f: set<Sub>)
    ensures Init(o, st, f) == InitFrom(o, st, f, 0, {})
  {
  }

  /** The leak happens at once: EVENTS comes up for VIDEO, VIDEO fails, and EVENTS stays up. */
  lemma LeakExample()
    ensures Init(AllBut(1), INITIAL, {Video}) ==
      (State(ZERO.(events := 1), [Started(Events, true), Started(Video, false)]), false)
  {
    var o := AllBut(1);
    InitSingle(o, INITIAL, Video);
    BringIs(o, INITIAL, Video);
    InitSingle(o, INITIAL, Events);
    BringIs(o, INITIAL, Events);
    hide Init, Bring;
    var up := State(ZERO.(events := 1), [Started(Events, true)]);
    assert [] + [Started(Events, true)] == up.trace;
    assert Start(o, INITIAL, Events) == (up, true);
    assert InitOrIncrement(o, INITIAL, Events) == (up, true);
    assert up.trace + [Started(Video, false)] == [Started(Events, true), Started(Video, false)];
  }
}
