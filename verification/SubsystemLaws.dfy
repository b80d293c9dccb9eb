/** What SDL_InitSubSystem and SDL_QuitSubSystem do to the counters, in closed form,
    and the laws that follow: balance, rollback and the exact leak of a failed init. */
module SubsystemLaws {
  import opened Wrappers
  import opened SubsystemModel

  function One(b: bool): nat {
    if b then 1 else 0
  }

  function Minus(n: nat, m: nat): nat {
    if n < m then 0 else n - m
  }

  // ---------- closed forms ----------

  /** The references a successful init of `f` adds to JOYSTICK. */
  function JoystickGain(c: Counts, f: set<Sub>): nat {
    One(Joystick in f) + One(Gamepad in f && c.gamepad == 0)
  }

  /** The references a successful init of `f` adds to EVENTS. */
  function EventsGain(c: Counts, f: set<Sub>): nat {
    One(Events in f) + One(Video in f && c.video == 0) + One(Audio in f && c.audio == 0)
    + One(c.joystick == 0 && JoystickGain(c, f) > 0)
  }

  /** The counters after a successful init of `f`. */
  function Acquired(c: Counts, f: set<Sub>): Counts {
    Counts(c.timer + One(Timer in f), c.audio + One(Audio in f), c.video + One(Video in f),
           c.joystick + JoystickGain(c, f), c.haptic + One(Haptic in f),
           c.gamepad + One(Gamepad in f), c.events + EventsGain(c, f),
           c.sensor + One(Sensor in f))
  }

  function JoystickLoss(c: Counts, f: set<Sub>): nat {
    One(Joystick in f) + One(Gamepad in f && c.gamepad == 1)
  }

  function EventsLoss(c: Counts, f: set<Sub>): nat {
    One(Events in f) + One(Video in f && c.video == 1) + One(Audio in f && c.audio == 1)
    + One(0 < c.joystick <= JoystickLoss(c, f))
  }

  /** The counters after a quit of `f`, outside SDL_Quit. */
  function Released(c: Counts, f: set<Sub>): Counts {
    Counts(Minus(c.timer, One(Timer in f)), Minus(c.audio, One(Audio in f)),
           Minus(c.video, One(Video in f)), Minus(c.joystick, JoystickLoss(c, f)),
           Minus(c.haptic, One(Haptic in f)), Minus(c.gamepad, One(Gamepad in f)),
           Minus(c.events, EventsLoss(c, f)), Minus(c.sensor, One(Sensor in f)))
  }

  /** The counters left behind when the backend init of `s` is the one that failed. */
  function Leaked(c: Counts, s: Sub): Counts {
    match Dep(s)
    case None => c
    case Some(d) => Acquired(c, {d})
  }

  // ---------- positions in the two orders ----------

  function InitPos(s: Sub): (p: nat)
    ensures p < |INIT_ORDER| && INIT_ORDER[p] == s
  {
    match s
    case Events => 0
    case Timer => 1
    case Video => 2
    case Audio => 3
    case Joystick => 4
    case Gamepad => 5
    case Haptic => 6
    case Sensor => 7
  }

  function QuitPos(s: Sub): (p: nat)
    ensures p < |QUIT_ORDER| && QUIT_ORDER[p] == s
  {
    match s
    case Sensor => 0
    case Gamepad => 1
    case Joystick => 2
    case Haptic => 3
    case Audio => 4
    case Video => 5
    case Timer => 6
    case Events => 7
  }

  lemma OrdersHaveNoRepeats(k: nat)
    requires k < 8
    ensures InitPos(INIT_ORDER[k]) == k && QuitPos(QUIT_ORDER[k]) == k
  {
    assert k == 0 || k == 1 || k == 2 || k == 3 || k == 4 || k == 5 || k == 6 || k == 7;
  }

  // ---------- a single subsystem: the mutual recursion unrolled ----------

  lemma {:induction false} QuitSkips(force: bool, st: State, f: set<Sub>, k: nat)
    requires k <= 8
    requires forall s :: s in f ==> QuitPos(s) < k
    ensures QuitFrom(force, st, f, k) == st
    decreases 8 - k
  {
    if k < 8 {
      OrdersHaveNoRepeats(k);
      QuitSkips(force, st, f, k + 1);
    }
  }

  lemma {:induction false} QuitSingleFrom(force: bool, st: State, s: Sub, k: nat)
    requires k <= QuitPos(s)
    ensures QuitFrom(force, st, {s}, k) == Drop(force, st, s)
    decreases 8 - k
  {
    OrdersHaveNoRepeats(k);
    if k == QuitPos(s) {
      QuitSkips(force, Drop(force, st, s), {s}, k + 1);
    } else {
      QuitSingleFrom(force, st, s, k + 1);
    }
  }

  lemma QuitNothing(force: bool, st: State)
    ensures Quit(force, st, {}) == st
  {
    QuitSkips(force, st, {}, 0);
  }

  lemma QuitSingle(force: bool, st: State, s: Sub)
    ensures Quit(force, st, {s}) == Drop(force, st, s)
  {
    QuitSingleFrom(force, st, s, 0);
  }

  /** A quit block with the recursive SDL_QuitSubSystem call replaced by its single block. */
  function DropChain(force: bool, st: State, s: Sub): State {
    var stopped := st.(trace := st.trace + [Stopped(s)]);
    match Dep(s)
    case None => stopped
    case Some(d) => Drop(force, stopped, d)
  }

  function Dec(st: State, s: Sub): State {
    st.(counts := st.counts.Down(s))
  }

  lemma DropIs(force: bool, st: State, s: Sub)
    ensures Drop(force, st, s) ==
      if st.counts.Get(s) == 0 then st
      else if st.counts.Get(s) == 1 || force then Dec(DropChain(force, st, s), s)
      else Dec(st, s)
  {
    if Dep(s).Some? {
      QuitSingle(force, st.(trace := st.trace + [Stopped(s)]), Dep(s).value);
    }
  }

  /** A block of SDL_InitSubSystem, case by case. */
  lemma BringIs(o: Oracle, st: State, s: Sub)
    ensures Bring(o, st, s) ==
      if st.counts.Get(s) > 0 then (Inc(st, s), true)
      else if Dep(s).None? then Start(o, st, s)
      else if InitOrIncrement(o, st, Dep(s).value).1 then Start(o, InitOrIncrement(o, st, Dep(s).value).0, s)
      else (InitOrIncrement(o, st, Dep(s).value).0, false)
  {
  }

  lemma InitFromStep(o: Oracle, st: State, f: set<Sub>, k: nat, done: set<Sub>)
    requires k < |INIT_ORDER|
    ensures var s := INIT_ORDER[k];
      InitFrom(o, st, f, k, done) ==
      if s !in f then InitFrom(o, st, f, k + 1, done)
      else if Bring(o, st, s).1 then InitFrom(o, Bring(o, st, s).0, f, k + 1, done + {s})
      else (Quit(false, Bring(o, st, s).0, done), false)
  {
  }

  lemma QuitFromStep(force: bool, st: State, f: set<Sub>, k: nat)
    requires k < |QUIT_ORDER|
    ensures var s := QUIT_ORDER[k];
      QuitFrom(force, st, f, k) == QuitFrom(force, if s in f then Drop(force, st, s) else st, f, k + 1)
  {
  }

  lemma {:induction false} InitSkips(o: Oracle, st: State, f: set<Sub>, k: nat, done: set<Sub>)
    requires k <= 8
    requires forall s :: s in f ==> InitPos(s) < k
    ensures InitFrom(o, st, f, k, done) == (st, true)
    decreases 8 - k
  {
    if k < 8 {
      OrdersHaveNoRepeats(k);
      InitSkips(o, st, f, k + 1, done);
    }
  }

  lemma {:induction false} InitSingleFrom(o: Oracle, st: State, s: Sub, k: nat)
    requires k <= InitPos(s)
    ensures InitFrom(o, st, {s}, k, {}) == Bring(o, st, s)
    decreases 8 - k
  {
    OrdersHaveNoRepeats(k);
    if k == InitPos(s) {
      var r := Bring(o, st, s);
      if r.1 {
        InitSkips(o, r.0, {s}, k + 1, {} + {s});
      } else {
        QuitNothing(false, r.0);
      }
    } else {
      InitSingleFrom(o, st, s, k + 1);
    }
  }

  /** Initialising one subsystem is exactly its own block: nothing is there to roll back. */
  lemma InitSingle(o: Oracle, st: State, s: Sub)
    ensures Init(o, st, {s}) == Bring(o, st, s)
  {
    InitSingleFrom(o, st, s, 0);
  }

  // ---------- the closed forms are right ----------

  ghost predicate FailedAt(trace: seq<Event>, s: Sub) {
    LastStart(trace) == Some(Started(s, false))
  }

  /** The subsystem whose failed backend init ends the run of inits. */
  function Culprit(trace: seq<Event>): Sub {
    match LastStart(trace)
    case Some(e) => e.sub
    case None => Events
  }

  lemma StartResult(o: Oracle, st: State, s: Sub)
    ensures var (st', ok) := Start(o, st, s);
      && st'.trace == st.trace + [Started(s, ok)]
      && LastStart(st'.trace) == Some(Started(s, ok))
      && st'.counts == (if ok then st.counts.Up(s) else st.counts)
  {
  }

  /** What one init block promises: the reference and those it implies, or the exact leak. */
  ghost predicate BringOutcome(c: Counts, s: Sub, st': State, ok: bool) {
    if ok then st'.counts == Acquired(c, {s})
    else
      && c.Get(s) == 0
      && FailedAt(st'.trace, Culprit(st'.trace))
      && c.Get(Culprit(st'.trace)) == 0
      && st'.counts == Leaked(c, Culprit(st'.trace))
      && (Culprit(st'.trace) == s || Dep(s) == Some(Culprit(st'.trace))
          || (s == Gamepad && c.joystick == 0 && Culprit(st'.trace) == Events))
  }

  /** A block that starts its backend: the implied reference, then its own. */
  lemma AcquireChain(c: Counts, s: Sub)
    ensures Acquired(c, {s}) ==
      match Dep(s)
      case None => c.Up(s)
      case Some(d) => if c.Get(s) > 0 then c.Up(s) else Acquired(c, {d}).Up(s)
  {
    match s
    case Timer =>
    case Audio =>
    case Video =>
    case Joystick =>
    case Haptic =>
    case Gamepad =>
    case Events =>
    case Sensor =>
  }

  lemma {:induction false} BringCounts(o: Oracle, st: State, s: Sub)
    ensures BringOutcome(st.counts, s, Bring(o, st, s).0, Bring(o, st, s).1)
    decreases Rank(s), 0
  {
    hide Acquired;
    AcquireChain(st.counts, s);
    if st.counts.Get(s) > 0 {
      assert Bring(o, st, s) == (Inc(st, s), true);
    } else if Dep(s).None? {
      StartResult(o, st, s);
    } else {
      var (st', ok) := InitOrIncrement(o, st, Dep(s).value);
      InitOrIncrementCounts(o, st, Dep(s).value);
      if ok {
        StartResult(o, st', s);
        assert Bring(o, st, s) == Start(o, st', s);
      } else {
        assert Bring(o, st, s) == (st', false);
      }
    }
  }

  lemma {:induction false} InitOrIncrementCounts(o: Oracle, st: State, d: Sub)
    ensures BringOutcome(st.counts, d, InitOrIncrement(o, st, d).0, InitOrIncrement(o, st, d).1)
    decreases Rank(d), 1
  {
    hide Acquired;
    AcquireChain(st.counts, d);
    if st.counts.Get(d) == 0 {
      InitSingle(o, st, d);
      BringCounts(o, st, d);
    }
  }

  lemma ReleaseChain(c: Counts, s: Sub)
    ensures Released(c, {s}) ==
      match Dep(s)
      case None => c.Down(s)
      case Some(d) => if c.Get(s) == 1 then Released(c, {d}).Down(s) else c.Down(s)
    ensures Dep(s).Some? ==> Released(c, {Dep(s).value}).Get(s) == c.Get(s)
  {
    match s
    case Timer =>
    case Audio =>
    case Video =>
    case Joystick =>
    case Haptic =>
    case Gamepad =>
    case Events =>
    case Sensor =>
  }

  lemma {:induction false} DropCounts(st: State, s: Sub)
    ensures Drop(false, st, s).counts == Released(st.counts, {s})
    decreases Rank(s)
  {
    hide Released;
    ReleaseChain(st.counts, s);
    DropIs(false, st, s);
    if Dep(s).Some? {
      DropCounts(st.(trace := st.trace + [Stopped(s)]), Dep(s).value);
    }
  }

  ghost predicate DoneBefore(f: set<Sub>, done: set<Sub>, k: nat) {
    forall s :: s in done <==> s in f && QuitPos(s) < k
  }

  lemma ReleaseOneMore(c: Counts, done: set<Sub>, s: Sub)
    requires forall d :: d in done ==> QuitPos(d) < QuitPos(s)
    ensures Released(Released(c, done), {s}) == Released(c, done + {s})
  {
    assert s !in done;
  }

  lemma {:induction false} QuitFromCounts(st: State, f: set<Sub>, k: nat, c: Counts, done: set<Sub>)
    requires k <= 8 && DoneBefore(f, done, k)
    requires st.counts == Released(c, done)
    ensures QuitFrom(false, st, f, k).counts == Released(c, f)
    decreases 8 - k
  {
    if k == 8 {
      assert done == f;
    } else {
      OrdersHaveNoRepeats(k);
      var s := QUIT_ORDER[k];
      if s in f {
        DropCounts(st, s);
        ReleaseOneMore(c, done, s);
        QuitFromCounts(Drop(false, st, s), f, k + 1, c, done + {s});
      } else {
        QuitFromCounts(st, f, k + 1, c, done);
      }
    }
  }

  /** SDL_QuitSubSystem, closed form. */
  lemma QuitCounts(st: State, f: set<Sub>)
    ensures Quit(false, st, f).counts == Released(st.counts, f)
  {
    QuitFromCounts(st, f, 0, st.counts, {});
  }

  lemma LastStartThroughStops(trace: seq<Event>, s: Sub)
    ensures LastStart(trace + [Stopped(s)]) == LastStart(trace)
  {
    assert (trace + [Stopped(s)])[..|trace|] == trace;
  }

  lemma {:induction false} DropKeepsLastStart(force: bool, st: State, s: Sub)
    ensures LastStart(Drop(force, st, s).trace) == LastStart(st.trace)
    decreases Rank(s)
  {
    DropIs(force, st, s);
    LastStartThroughStops(st.trace, s);
    if Dep(s).Some? {
      DropKeepsLastStart(force, st.(trace := st.trace + [Stopped(s)]), Dep(s).value);
    }
  }

  lemma {:induction false} QuitKeepsLastStart(force: bool, st: State, f: set<Sub>, k: nat)
    requires k <= 8
    ensures LastStart(QuitFrom(force, st, f, k).trace) == LastStart(st.trace)
    decreases 8 - k
  {
    if k < 8 {
      DropKeepsLastStart(force, st, QUIT_ORDER[k]);
      QuitKeepsLastStart(force, if QUIT_ORDER[k] in f then Drop(force, st, QUIT_ORDER[k]) else st, f, k + 1);
    }
  }

  lemma AcquireNothing(c: Counts)
    ensures Acquired(c, {}) == c
  {
  }

  /** Taking one more subsystem after those before it in the init order. */
  lemma AcquireOneMore(c: Counts, done: set<Sub>, s: Sub)
    requires forall d :: d in done ==> InitPos(d) < InitPos(s)
    ensures Acquired(Acquired(c, done), {s}) == Acquired(c, done + {s})
    ensures Acquired(c, done).Get(s) == 0 ==> c.Get(s) == 0
  {
    assert s !in done;
  }

  /** Rolling back after the backend of `s` failed leaves only what that step itself took. */
  lemma RollbackLeavesLeak(c: Counts, done: set<Sub>, s: Sub, culprit: Sub)
    requires forall d :: d in done ==> InitPos(d) < InitPos(s)
    requires Acquired(c, done).Get(s) == 0
    requires culprit == s || Dep(s) == Some(culprit) || (s == Gamepad && culprit == Events)
    requires culprit != s ==> Acquired(c, done).Get(culprit) == 0
    ensures Released(Leaked(Acquired(c, done), culprit), done) == Leaked(c, culprit)
  {
    assert s !in done;
  }

  /** `x` is down, and it is one of `f` or a dependency that has to come up for one of `f`. */
  predicate Starts(c: Counts, f: set<Sub>, x: Sub) {
    && c.Get(x) == 0
    && (|| x in f
        || (exists s :: s in f && c.Get(s) == 0 && Dep(s) == Some(x))
        || (x == Events && Gamepad in f && c.gamepad == 0 && c.joystick == 0))
  }

  ghost predicate BroughtBefore(f: set<Sub>, done: set<Sub>, k: nat) {
    forall s :: s in done <==> s in f && InitPos(s) < k
  }

  lemma AcquireOnlyAdds(c: Counts, f: set<Sub>, s: Sub)
    ensures c.Get(s) <= Acquired(c, f).Get(s)
  {
  }

  lemma {:induction false} InitFromCounts(o: Oracle, st: State, f: set<Sub>, k: nat, c: Counts, done: set<Sub>)
    requires k <= 8 && BroughtBefore(f, done, k)
    requires st.counts == Acquired(c, done)
    ensures var (st', ok) := InitFrom(o, st, f, k, done);
      if ok then st'.counts == Acquired(c, f)
      else
        && FailedAt(st'.trace, Culprit(st'.trace)) && st'.counts == Leaked(c, Culprit(st'.trace))
        && Starts(c, f, Culprit(st'.trace))
    decreases 8 - k
  {
    if k == 8 {
      assert done == f;
    } else {
      OrdersHaveNoRepeats(k);
      var s := INIT_ORDER[k];
      if s !in f {
        InitFromCounts(o, st, f, k + 1, c, done);
      } else {
        var (st', ok) := Bring(o, st, s);
        BringCounts(o, st, s);
        if ok {
          AcquireOneMore(c, done, s);
          InitFromCounts(o, st', f, k + 1, c, done + {s});
        } else {
          RollbackLeavesLeak(c, done, s, Culprit(st'.trace));
          AcquireOnlyAdds(c, done, s);
          AcquireOnlyAdds(c, done, Joystick);
          AcquireOnlyAdds(c, done, Culprit(st'.trace));
          QuitCounts(st', done);
          QuitKeepsLastStart(false, st', done, 0);
        }
      }
    }
  }

  /** A successful init adds exactly the requested references and those they imply. */
  lemma InitCounts(o: Oracle, st: State, f: set<Sub>)
    requires Init(o, st, f).1
    ensures Init(o, st, f).0.counts == Acquired(st.counts, f)
  {
    InitFromCounts(o, st, f, 0, st.counts, {});
  }

  /** A failed init undoes every completed step. What remains is one successful init of the
      subsystem implied by the backend that failed, or nothing if it implies none. */
  lemma FailedInitLeaks(o: Oracle, st: State, f: set<Sub>)
    requires !Init(o, st, f).1
    ensures var st' := Init(o, st, f).0;
      var culprit := Culprit(st'.trace);
      && FailedAt(st'.trace, culprit) && Starts(st.counts, f, culprit)
      && st'.counts == Leaked(st.counts, culprit)
      && (st'.counts == st.counts <==> Dep(culprit).None?)
  {
    InitFromCounts(o, st, f, 0, st.counts, {});
  }

  /** Init then quit of the same flags restores every counter, whatever they were. */
  lemma InitThenQuitRestores(o: Oracle, st: State, f: set<Sub>)
    requires Init(o, st, f).1
    ensures Quit(false, Init(o, st, f).0, f).counts == st.counts
  {
    InitCounts(o, st, f);
    QuitCounts(Init(o, st, f).0, f);
  }
}
