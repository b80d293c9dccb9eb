/** What every run of SDL_InitSubSystem, SDL_QuitSubSystem and SDL_Quit keeps. */
module SubsystemRuns {
  import opened Wrappers
  import opened SubsystemModel
  import opened SubsystemLaws

  // ---------- appending to a trace ----------

  predicate UpAfter(e: Event, before: bool, s: Sub) {
    match e
    case Started(x, ok) => (ok && x == s) || before
    case Stopped(x) => x != s && before
  }

  lemma AppendUp(trace: seq<Event>, e: Event, s: Sub)
    ensures IsUp(trace + [e], s) == UpAfter(e, IsUp(trace, s), s)
  {
    assert (trace + [e])[..|trace|] == trace;
  }

  lemma AppendOrder(trace: seq<Event>, e: Event)
    ensures StartsOnlyDown(trace) && (e.Started? ==> !IsUp(trace, e.sub)) ==> StartsOnlyDown(trace + [e])
    ensures StartsAfterDep(trace) && (e.Started? ==> DepUp(trace, e.sub)) ==> StartsAfterDep(trace + [e])
    ensures StopsOnlyUp(trace) && (e.Stopped? ==> IsUp(trace, e.sub)) ==> StopsOnlyUp(trace + [e])
    ensures StopsBeforeDep(trace) && (e.Stopped? ==> DepUp(trace, e.sub)) ==> StopsBeforeDep(trace + [e])
  {
    forall k | 0 <= k <= |trace| ensures (trace + [e])[..k] == trace[..k] {
    }
    assert trace[..|trace|] == trace;
  }

  // ---------- counters agree with the trace ----------

  /** Outside `except`, a counter is positive exactly while the backend is up. */
  ghost predicate Agree(st: State, except: set<Sub>) {
    forall s :: s !in except ==> (st.counts.Get(s) > 0 <==> IsUp(st.trace, s))
  }

  ghost predicate InitOrdered(trace: seq<Event>) {
    StartsOnlyDown(trace) && StartsAfterDep(trace)
  }

  /** Inits happen only when down and after the dependency; quits are not judged here. */
  ghost predicate Sound(st: State) {
    Agree(st, {}) && InitOrdered(st.trace)
  }

  ghost predicate KeepsStops(before: seq<Event>, after: seq<Event>) {
    && (StopsOnlyUp(before) ==> StopsOnlyUp(after))
    && (StopsBeforeDep(before) ==> StopsBeforeDep(after))
  }

  lemma StartKeeps(o: Oracle, st: State, s: Sub)
    requires Sound(st) && st.counts.Get(s) == 0 && DepUp(st.trace, s)
    ensures Sound(Start(o, st, s).0) && KeepsStops(st.trace, Start(o, st, s).0.trace)
  {
    var e := Started(s, o(|st.trace|));
    AppendOrder(st.trace, e);
    forall x ensures IsUp(st.trace + [e], x) == UpAfter(e, IsUp(st.trace, x), x) {
      AppendUp(st.trace, e, x);
    }
  }

  lemma BringTakes(o: Oracle, st: State, s: Sub)
    ensures Bring(o, st, s).1 ==> Bring(o, st, s).0.counts.Get(s) > 0
  {
    BringCounts(o, st, s);
    assert Acquired(st.counts, {s}).Get(s) > 0;
    hide Acquired, Bring;
  }

  lemma IncKeeps(st: State, s: Sub)
    requires Sound(st) && st.counts.Get(s) > 0
    ensures Sound(Inc(st, s))
  {
  }

  /** The implied reference leaves the counter of `s` itself alone. */
  lemma DepSpares(o: Oracle, st: State, s: Sub, d: Sub)
    requires Dep(s) == Some(d) && st.counts.Get(s) == 0
    ensures InitOrIncrement(o, st, d).1 ==> InitOrIncrement(o, st, d).0.counts.Get(s) == 0
  {
    InitOrIncrementCounts(o, st, d);
    assert Acquired(st.counts, {d}).Get(s) == st.counts.Get(s);
    hide Acquired, InitOrIncrement;
  }

  lemma {:induction false} BringKeeps(o: Oracle, st: State, s: Sub)
    requires Sound(st)
    ensures Sound(Bring(o, st, s).0) && KeepsStops(st.trace, Bring(o, st, s).0.trace)
    decreases Rank(s), 0
  {
    hide Bring, InitOrIncrement, Start, Acquired, KeepsStops, InitOrdered;
    BringIs(o, st, s);
    if st.counts.Get(s) > 0 {
      IncKeeps(st, s);
      KeepsStopsIsPreorder(st.trace, st.trace, st.trace);
    } else if Dep(s).None? {
      StartKeeps(o, st, s);
    } else {
      var d := Dep(s).value;
      var st' := InitOrIncrement(o, st, d).0;
      InitOrIncrementKeeps(o, st, d);
      if InitOrIncrement(o, st, d).1 {
        DepSpares(o, st, s, d);
        StartKeeps(o, st', s);
        KeepsStopsIsPreorder(st.trace, st'.trace, Start(o, st', s).0.trace);
      }
    }
  }

  lemma KeepsStopsIsPreorder(a: seq<Event>, b: seq<Event>, c: seq<Event>)
    ensures KeepsStops(a, a)
    ensures KeepsStops(a, b) && KeepsStops(b, c) ==> KeepsStops(a, c)
  {
  }

  lemma {:induction false} InitOrIncrementKeeps(o: Oracle, st: State, d: Sub)
    requires Sound(st)
    ensures var (st', ok) := InitOrIncrement(o, st, d);
      Sound(st') && KeepsStops(st.trace, st'.trace) && (ok ==> st'.counts.Get(d) > 0)
    decreases Rank(d), 1
  {
    hide KeepsStops, InitOrdered;
    KeepsStopsIsPreorder(st.trace, st.trace, st.trace);
    if st.counts.Get(d) == 0 {
      InitSingle(o, st, d);
      BringKeeps(o, st, d);
      BringTakes(o, st, d);
    } else {
      IncKeeps(st, d);
    }
  }

  /** Every dependency of a subsystem that is up is up. */
  predicate DepsHeld(c: Counts) {
    && (c.gamepad > 0 ==> c.joystick > 0)
    && (c.video > 0 || c.audio > 0 || c.joystick > 0 ==> c.events > 0)
  }

  /** What a quit block keeps in a state where only higher subsystems disagree with the trace. */
  ghost predicate DropKept(st: State, s: Sub, except: set<Sub>, st': State) {
    && Agree(st', except)
    && InitOrdered(st'.trace)
    && (StopsOnlyUp(st.trace) ==> StopsOnlyUp(st'.trace))
    && (StopsBeforeDep(st.trace) && DepsHeld(st.counts) ==> StopsBeforeDep(st'.trace))
    && (forall x :: Rank(x) > Rank(s) ==> IsUp(st'.trace, x) == IsUp(st.trace, x))
  }

  /** The end of a quit block: the chain below `s` has run, now its own reference goes. */
  lemma DropEnds(st: State, s: Sub, except: set<Sub>, after: State)
    requires Agree(st, except) && InitOrdered(st.trace)
    requires st.counts.Get(s) == 1 && s !in except
    requires forall x :: x in except ==> Rank(x) > Rank(s)
    requires var stopped := st.(trace := st.trace + [Stopped(s)]);
      match Dep(s)
      case None => after == stopped
      case Some(d) => DropKept(stopped, d, except + {s}, after) && after.counts == Released(st.counts, {d})
    ensures DropKept(st, s, except, Dec(after, s))
  {
    hide Released, InitOrdered, StopsOnlyUp, StopsBeforeDep, IsUp;
    StopKeeps(st, s, except);
    ReleaseChain(st.counts, s);
    forall x ensures after.counts.Down(s).Get(x) == if x == s then 0 else after.counts.Get(x) {
      DownOnly(after.counts, s, x);
    }
    hide Counts.Get, Counts.Put, Counts.Down;
  }

  lemma DownOnly(c: Counts, s: Sub, x: Sub)
    ensures c.Down(s).Get(x) == if x == s && c.Get(x) > 0 then c.Get(x) - 1 else c.Get(x)
  {
  }

  lemma {:induction false} DropKeeps(st: State, s: Sub, except: set<Sub>)
    requires Agree(st, except) && InitOrdered(st.trace)
    requires forall x :: x in except ==> Rank(x) > Rank(s)
    ensures DropKept(st, s, except, Drop(false, st, s))
    decreases Rank(s)
  {
    hide Released, Drop, InitOrdered, StopsOnlyUp, StopsBeforeDep, IsUp;
    DropIs(false, st, s);
    if st.counts.Get(s) == 1 {
      if Dep(s).Some? {
        var stopped := st.(trace := st.trace + [Stopped(s)]);
        StopKeeps(st, s, except);
        DropKeeps(stopped, Dep(s).value, except + {s});
        DropCounts(stopped, Dep(s).value);
      }
      DropEnds(st, s, except, DropChain(false, st, s));
    }
  }

  lemma StopKeeps(st: State, s: Sub, except: set<Sub>)
    requires Agree(st, except) && InitOrdered(st.trace)
    requires st.counts.Get(s) == 1 && s !in except
    requires forall x :: x in except ==> Rank(x) > Rank(s)
    ensures var stopped := st.(trace := st.trace + [Stopped(s)]);
      && Agree(stopped, except + {s})
      && !IsUp(stopped.trace, s)
      && InitOrdered(stopped.trace)
      && (StopsOnlyUp(st.trace) ==> StopsOnlyUp(stopped.trace))
      && (StopsBeforeDep(st.trace) && DepsHeld(st.counts) ==> StopsBeforeDep(stopped.trace))
      && (forall x :: x != s ==> IsUp(stopped.trace, x) == IsUp(st.trace, x))
  {
    AppendOrder(st.trace, Stopped(s));
    forall x ensures IsUp(st.trace + [Stopped(s)], x) == UpAfter(Stopped(s), IsUp(st.trace, x), x) {
      AppendUp(st.trace, Stopped(s), x);
    }
  }

  lemma {:induction false} QuitFromKeeps(st: State, f: set<Sub>, k: nat)
    requires k <= 8 && Sound(st)
    ensures Sound(QuitFrom(false, st, f, k))
    ensures StopsOnlyUp(st.trace) ==> StopsOnlyUp(QuitFrom(false, st, f, k).trace)
    decreases 8 - k
  {
    if k < 8 {
      var s := QUIT_ORDER[k];
      DropKeeps(st, s, {});
      QuitFromKeeps(if s in f then Drop(false, st, s) else st, f, k + 1);
    }
  }

  lemma {:induction false} InitFromKeeps(o: Oracle, st: State, f: set<Sub>, k: nat, done: set<Sub>)
    requires k <= 8 && Sound(st)
    ensures Sound(InitFrom(o, st, f, k, done).0)
    ensures StopsOnlyUp(st.trace) ==> StopsOnlyUp(InitFrom(o, st, f, k, done).0.trace)
    decreases 8 - k
  {
    if k < 8 {
      var s := INIT_ORDER[k];
      if s !in f {
        InitFromKeeps(o, st, f, k + 1, done);
      } else {
        var (st', ok) := Bring(o, st, s);
        BringKeeps(o, st, s);
        if ok {
          InitFromKeeps(o, st', f, k + 1, done + {s});
        } else {
          QuitFromKeeps(st', done, 0);
        }
      }
    }
  }

  // ---------- SDL_Quit ----------

  function Min(n: nat, m: nat): nat {
    if n < m then n else m
  }

  function ForcedJoystick(c: Counts, f: set<Sub>): nat {
    Min(c.joystick, One(Joystick in f) + One(Gamepad in f && c.gamepad > 0))
  }

  /** How often a forced quit of `f` calls the quit routine of each subsystem. */
  function ForcedStops(c: Counts, f: set<Sub>): Counts {
    Counts(One(Timer in f && c.timer > 0), One(Audio in f && c.audio > 0), One(Video in f && c.video > 0),
           ForcedJoystick(c, f), One(Haptic in f && c.haptic > 0), One(Gamepad in f && c.gamepad > 0),
           Min(c.events, One(Events in f) + One(Video in f && c.video > 0) + One(Audio in f && c.audio > 0)
                         + ForcedJoystick(c, f)),
           One(Sensor in f && c.sensor > 0))
  }

  function Plus(a: Counts, b: Counts): Counts {
    Counts(a.timer + b.timer, a.audio + b.audio, a.video + b.video, a.joystick + b.joystick,
           a.haptic + b.haptic, a.gamepad + b.gamepad, a.events + b.events, a.sensor + b.sensor)
  }

  lemma PlusPlus(a: Counts, b: Counts, c: Counts)
    ensures Plus(Plus(a, c), b) == Plus(a, Plus(b, c))
  {
  }

  lemma PlusZero(a: Counts)
    ensures Plus(a, ZERO) == a && Plus(ZERO, a) == a
  {
  }

  lemma GetUp(c: Counts, s: Sub, x: Sub)
    ensures c.Up(s).Get(x) == c.Get(x) + One(x == s)
  {
  }

  lemma SameEverywhere(a: Counts, b: Counts)
    requires forall x :: a.Get(x) == b.Get(x)
    ensures a == b
  {
    assert a.Get(Timer) == b.Get(Timer) && a.Get(Audio) == b.Get(Audio) && a.Get(Video) == b.Get(Video);
    assert a.Get(Joystick) == b.Get(Joystick) && a.Get(Haptic) == b.Get(Haptic);
    assert a.Get(Gamepad) == b.Get(Gamepad) && a.Get(Events) == b.Get(Events) && a.Get(Sensor) == b.Get(Sensor);
  }

  lemma GetPlus(a: Counts, b: Counts, s: Sub)
    ensures Plus(a, b).Get(s) == a.Get(s) + b.Get(s)
  {
  }

  /** `n` more quit calls were made, each ending what was up. */
  ghost predicate StoppedBy(before: seq<Event>, after: seq<Event>, n: Counts) {
    forall s :: Stops(after, s) == Stops(before, s) + n.Get(s)
             && IsUp(after, s) == (IsUp(before, s) && n.Get(s) == 0)
  }

  /** A forced quit: each quit call went with one decrement. */
  ghost predicate Forced(before: State, after: State, n: Counts) {
    && before.counts == Plus(after.counts, n)
    && StoppedBy(before.trace, after.trace, n)
    && (InitOrdered(before.trace) ==> InitOrdered(after.trace))
  }

  lemma StopIsForced(trace: seq<Event>, s: Sub)
    ensures StoppedBy(trace, trace + [Stopped(s)], ZERO.Up(s))
    ensures InitOrdered(trace) ==> InitOrdered(trace + [Stopped(s)])
  {
    AppendOrder(trace, Stopped(s));
    assert (trace + [Stopped(s)])[..|trace|] == trace;
  }

  lemma StoppedByTwice(a: seq<Event>, b: seq<Event>, c: seq<Event>, n: Counts, m: Counts)
    requires StoppedBy(a, b, n) && StoppedBy(b, c, m)
    ensures StoppedBy(a, c, Plus(n, m))
  {
    forall s ensures Plus(n, m).Get(s) == n.Get(s) + m.Get(s) {
      GetPlus(n, m, s);
    }
    hide Plus;
  }

  /** The quit calls of a single forced block, spelled out. */
  lemma ForcedSingle(c: Counts, s: Sub, x: Sub)
    ensures ForcedStops(c, {s}).Get(x) ==
      if c.Get(s) == 0 then 0
      else if x == s then 1
      else if s == Gamepad && x == Joystick then Min(c.joystick, 1)
      else if s == Gamepad && x == Events then Min(c.events, Min(c.joystick, 1))
      else if x == Events && Dep(s) == Some(Events) then Min(c.events, 1)
      else 0
  {
  }

  lemma ForcedNone(c: Counts, s: Sub)
    requires c.Get(s) == 0
    ensures ForcedStops(c, {s}) == ZERO
  {
  }

  lemma ForcedChainAt(c: Counts, s: Sub, x: Sub)
    requires c.Get(s) > 0
    ensures ForcedStops(c, {s}).Get(x) ==
      One(x == s) + if Dep(s).None? then 0 else ForcedStops(c, {Dep(s).value}).Get(x)
    ensures Dep(s).Some? && x == s ==> ForcedStops(c, {Dep(s).value}).Get(x) == 0
  {
    ForcedSingle(c, s, x);
    if Dep(s).Some? {
      ForcedSingle(c, Dep(s).value, x);
    }
    hide ForcedStops;
  }

  /** Its own quit call first, then those of the chain below. */
  lemma ForcedChain(c: Counts, s: Sub, n: Counts)
    requires c.Get(s) > 0
    requires n == if Dep(s).None? then ZERO else ForcedStops(c, {Dep(s).value})
    ensures ForcedStops(c, {s}) == Plus(ZERO.Up(s), n)
    ensures n.Get(s) == 0
  {
    hide ForcedStops, Plus, Counts.Up, Counts.Put;
    ForcedChainAt(c, s, s);
    forall x ensures ForcedStops(c, {s}).Get(x) == Plus(ZERO.Up(s), n).Get(x) {
      ForcedChainAt(c, s, x);
      GetUp(ZERO, s, x);
      GetPlus(ZERO.Up(s), n, x);
    }
    SameEverywhere(ForcedStops(c, {s}), Plus(ZERO.Up(s), n));
  }

  lemma PutOneBack(c: Counts, s: Sub, after: Counts, n: Counts)
    requires c == Plus(after, n) && n.Get(s) == 0 && c.Get(s) > 0
    ensures c == Plus(after.Down(s), Plus(ZERO.Up(s), n))
  {
  }

  lemma {:induction false} ForcedDrop(st: State, s: Sub)
    ensures Forced(st, Drop(true, st, s), ForcedStops(st.counts, {s}))
    decreases Rank(s)
  {
    hide Plus, ForcedStops, Counts.Put, Counts.Up;
    DropIs(true, st, s);
    PlusZero(st.counts);
    if st.counts.Get(s) == 0 {
      ForcedNone(st.counts, s);
    }
    if st.counts.Get(s) > 0 {
      var stopped := st.(trace := st.trace + [Stopped(s)]);
      var after := DropChain(true, st, s);
      var n := if Dep(s).None? then ZERO else ForcedStops(st.counts, {Dep(s).value});
      StopIsForced(st.trace, s);
      ForcedChain(st.counts, s, n);
      if Dep(s).Some? {
        ForcedDrop(stopped, Dep(s).value);
      }
      StoppedByTwice(st.trace, stopped.trace, after.trace, ZERO.Up(s), n);
      PutOneBack(st.counts, s, after.counts, n);
    }
  }

  lemma ForcedOneMore(a: Counts, b: Counts, done: set<Sub>, s: Sub)
    requires forall d :: d in done ==> QuitPos(d) < QuitPos(s)
    requires a == Plus(b, ForcedStops(a, done))
    ensures Plus(ForcedStops(a, done), ForcedStops(b, {s})) == ForcedStops(a, done + {s})
  {
    assert s !in done;
  }

  lemma {:induction false} ForcedQuitFrom(st0: State, st: State, f: set<Sub>, k: nat, done: set<Sub>)
    requires k <= 8 && DoneBefore(f, done, k)
    requires Forced(st0, st, ForcedStops(st0.counts, done))
    ensures Forced(st0, QuitFrom(true, st, f, k), ForcedStops(st0.counts, f))
    decreases 8 - k
  {
    hide Plus, ForcedStops;
    if k == 8 {
      assert done == f;
    } else {
      OrdersHaveNoRepeats(k);
      var s := QUIT_ORDER[k];
      if s in f {
        var st' := Drop(true, st, s);
        ForcedDrop(st, s);
        ForcedOneMore(st0.counts, st.counts, done, s);
        StoppedByTwice(st0.trace, st.trace, st'.trace, ForcedStops(st0.counts, done), ForcedStops(st.counts, {s}));
        PlusPlus(st'.counts, ForcedStops(st0.counts, done), ForcedStops(st.counts, {s}));
        ForcedQuitFrom(st0, st', f, k + 1, done + {s});
      } else {
        ForcedQuitFrom(st0, st, f, k + 1, done);
      }
    }
  }

  /** The quit routine of `s` is called at least `n` more times. */
  predicate Calls(st: State, st': State, s: Sub, n: nat) {
    Stops(st'.trace, s) >= Stops(st.trace, s) + n
  }

  lemma ForcedEverything(c: Counts)
    ensures var n := ForcedStops(c, EVERYTHING);
      && (forall s :: n.Get(s) == 0 <==> c.Get(s) == 0)
      && (forall s :: n.Get(s) > 1 ==> s == Joystick || s == Events)
      && n.joystick == Min(c.joystick, 1 + One(c.gamepad > 0))
      && n.events == Min(c.events, 1 + One(c.video > 0) + One(c.audio > 0) + n.joystick)
  {
  }

  lemma ShutdownForces(st: State)
    ensures Forced(st, Quit(true, st, EVERYTHING), ForcedStops(st.counts, EVERYTHING))
  {
    assert ForcedStops(st.counts, {}) == ZERO;
    ForcedQuitFrom(st, st, EVERYTHING, 0, {});
  }

  lemma ShutdownAgrees(st: State, n: Counts)
    requires Sound(st) && Forced(st, Quit(true, st, EVERYTHING), n)
    requires forall s :: n.Get(s) == 0 <==> st.counts.Get(s) == 0
    ensures Sound(Shutdown(st))
  {
    assert forall s: Sub :: ZERO.Get(s) == 0;
  }

  /** SDL_Quit clears every counter, calls the quit routine of exactly the subsystems that
      were up, and calls one of them twice exactly when JOYSTICK or EVENTS has two references
      and a dependent that is up. */
  lemma ShutdownStopsAll(st: State)
    ensures Shutdown(st).counts == ZERO
    ensures forall s :: Calls(st, Shutdown(st), s, 1) <==> st.counts.Get(s) > 0
    ensures (exists s :: Calls(st, Shutdown(st), s, 2)) <==>
      || (st.counts.joystick > 1 && st.counts.gamepad > 0)
      || (st.counts.events > 1 && (st.counts.video > 0 || st.counts.audio > 0 || st.counts.joystick > 0))
    ensures Sound(st) ==> Sound(Shutdown(st))
  {
    var n := ForcedStops(st.counts, EVERYTHING);
    hide ForcedStops, Quit, QuitFrom;
    ShutdownForces(st);
    ForcedEverything(st.counts);
    if Sound(st) {
      ShutdownAgrees(st, n);
    }
    forall s, k: nat ensures Calls(st, Shutdown(st), s, k) <==> n.Get(s) >= k {
    }
    assert Calls(st, Shutdown(st), Joystick, 2) <==> n.joystick >= 2;
    assert Calls(st, Shutdown(st), Events, 2) <==> n.events >= 2;
  }

  // ---------- any run ----------

  predicate NoShutdown(ops: seq<Op>) {
    ShutdownOp !in ops
  }

  lemma {:induction false} RunKeeps(o: Oracle, st: State, ops: seq<Op>)
    requires Sound(st)
    ensures Sound(Run(o, st, ops))
    ensures StopsOnlyUp(st.trace) && NoShutdown(ops) ==> StopsOnlyUp(Run(o, st, ops).trace)
    decreases |ops|
  {
    if ops != [] {
      match ops[0] {
        case InitOp(f) => InitFromKeeps(o, st, f, 0, {});
        case QuitOp(f) => QuitFromKeeps(st, f, 0);
        case ShutdownOp => ShutdownStopsAll(st);
      }
      RunKeeps(o, Step(o, st, ops[0]), ops[1..]);
    }
  }

  /** From the start, for any calls in any order and any backend results: a counter is positive
      exactly while its backend is up, a backend is started only when down and with its
      dependency up, and, without SDL_Quit, stopped only when up. So inits and quits alternate. */
  lemma EveryRunAlternates(o: Oracle, ops: seq<Op>)
    ensures var st := Run(o, INITIAL, ops);
      && (forall s :: st.counts.Get(s) > 0 <==> IsUp(st.trace, s))
      && StartsOnlyDown(st.trace)
      && StartsAfterDep(st.trace)
      && (NoShutdown(ops) ==> StopsOnlyUp(st.trace))
  {
    RunKeeps(o, INITIAL, ops);
  }
}
