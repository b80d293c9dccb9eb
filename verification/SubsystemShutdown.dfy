/** Whether SDL_Quit calls the quit routine of each dependent before that of its dependency. */
module SubsystemShutdown {
  import opened Wrappers
  import opened SubsystemModel
  import opened SubsystemLaws
  import opened SubsystemRuns
  import opened SubsystemLedger
  import opened SubsystemRollback

  /** What decides about the next quit call: whether all were in order so far, and whether the two
      dependencies are still up. */
  datatype Progress = Progress(ordered: bool, joystickUp: bool, eventsUp: bool)

  ghost function ProgressOf(trace: seq<Event>): Progress {
    Progress(StopsBeforeDep(trace), IsUp(trace, Joystick), IsUp(trace, Events))
  }

  /** One quit call. */
  function After(p: Progress, s: Sub): Progress {
    Progress(
      p.ordered && (match s
                    case Gamepad => p.joystickUp
                    case Video | Audio | Joystick => p.eventsUp
                    case _ => true),
      p.joystickUp && s != Joystick,
      p.eventsUp && s != Events)
  }

  lemma StopProgress(trace: seq<Event>, s: Sub)
    ensures ProgressOf(trace + [Stopped(s)]) == After(ProgressOf(trace), s)
  {
    var e := Stopped(s);
    AppendOrder(trace, e);
    AppendUp(trace, e, Joystick);
    AppendUp(trace, e, Events);
    if StopsBeforeDep(trace + [e]) {
      forall k | 0 <= k < |trace| && trace[k].Stopped? ensures DepUp(trace[..k], trace[k].sub) {
        assert (trace + [e])[..k] == trace[..k] && (trace + [e])[k] == trace[k];
      }
      assert (trace + [e])[..|trace|] == trace && (trace + [e])[|trace|] == e;
      assert DepUp(trace, s);
    }
  }

  /** A forced quit block, on the counters and on the progress only. */
  function Forcing(c: Counts, p: Progress, s: Sub): (Counts, Progress)
    decreases Rank(s)
  {
    if c.Get(s) == 0 then (c, p)
    else
      var (c', p') := if Dep(s).Some? then Forcing(c, After(p, s), Dep(s).value) else (c, After(p, s));
      (c'.Down(s), p')
  }

  lemma {:induction false} DropForces(st: State, s: Sub)
    ensures var st' := Drop(true, st, s);
      (st'.counts, ProgressOf(st'.trace)) == Forcing(st.counts, ProgressOf(st.trace), s)
    decreases Rank(s)
  {
    hide ProgressOf, After;
    DropIs(true, st, s);
    StopProgress(st.trace, s);
    if Dep(s).Some? {
      DropForces(st.(trace := st.trace + [Stopped(s)]), Dep(s).value);
    }
  }

  /** The blocks of a forced quit of everything, from the k-th on. */
  function ForcingFrom(c: Counts, p: Progress, k: nat): Progress
    requires k <= |QUIT_ORDER|
    decreases |QUIT_ORDER| - k
  {
    if k == |QUIT_ORDER| then p
    else
      var (c', p') := Forcing(c, p, QUIT_ORDER[k]);
      ForcingFrom(c', p', k + 1)
  }

  lemma {:induction false} QuitForces(st: State, k: nat)
    requires k <= 8
    ensures ProgressOf(QuitFrom(true, st, EVERYTHING, k).trace) == ForcingFrom(st.counts, ProgressOf(st.trace), k)
    decreases 8 - k
  {
    hide ProgressOf, Forcing, Drop;
    if k < 8 {
      var s := QUIT_ORDER[k];
      OrdersHaveNoRepeats(k);
      QuitFromStep(true, st, EVERYTHING, k);
      DropForces(st, s);
      QuitForces(Drop(true, st, s), k + 1);
    }
  }

  // ---------- the forced blocks, one by one ----------

  /** A block without a dependency other than EVENTS says nothing about order. */
  lemma ForcingFree(c: Counts, p: Progress, s: Sub)
    requires s == Sensor || s == Haptic || s == Timer
    ensures var (c', p') := Forcing(c, p, s);
      && p' == p && c'.gamepad == c.gamepad && c'.joystick == c.joystick && c'.audio == c.audio
      && c'.video == c.video && c'.events == c.events
  {
  }

  lemma ForcingEvents(c: Counts, p: Progress)
    ensures var (c', p') := Forcing(c, p, Events);
      && p'.ordered == p.ordered && p'.joystickUp == p.joystickUp
      && p'.eventsUp == (p.eventsUp && c.events == 0)
      && c' == c.(events := Minus(c.events, 1))
  {
  }

  /** A block that depends on EVENTS: EVENTS goes down with it. */
  lemma ForcingDependent(c: Counts, p: Progress, s: Sub)
    requires s == Video || s == Audio || s == Joystick
    ensures var (c', p') := Forcing(c, p, s);
      if c.Get(s) == 0 then c' == c && p' == p
      else
        && p' == Progress(p.ordered && p.eventsUp, p.joystickUp && s != Joystick, p.eventsUp && c.events == 0)
        && c'.gamepad == c.gamepad && c'.events == Minus(c.events, 1)
        && c'.joystick == Minus(c.joystick, One(s == Joystick))
        && c'.audio == Minus(c.audio, One(s == Audio)) && c'.video == Minus(c.video, One(s == Video))
  {
    hide After;
    if c.Get(s) > 0 {
      ForcingEvents(c, After(p, s));
      AfterIs(p, s);
    }
  }

  lemma AfterIs(p: Progress, s: Sub)
    ensures After(p, s).ordered == (p.ordered && (s == Gamepad ==> p.joystickUp)
      && (s == Video || s == Audio || s == Joystick ==> p.eventsUp))
    ensures After(p, s).joystickUp == (p.joystickUp && s != Joystick)
    ensures After(p, s).eventsUp == (p.eventsUp && s != Events)
  {
  }

  lemma ForcingGamepad(c: Counts, p: Progress)
    ensures var (c', p') := Forcing(c, p, Gamepad);
      && c'.audio == c.audio && c'.video == c.video
      && if c.gamepad == 0 then c' == c && p' == p
      else if c.joystick == 0 then
        && p' == p.(ordered := p.ordered && p.joystickUp)
        && c'.joystick == 0 && c'.events == c.events
      else
        && p' == Progress(p.ordered && p.joystickUp && p.eventsUp, false, p.eventsUp && c.events == 0)
        && c'.joystick == c.joystick - 1 && c'.events == Minus(c.events, 1)
  {
    hide After;
    if c.gamepad > 0 {
      ForcingDependent(c, After(p, Gamepad), Joystick);
      AfterIs(p, Gamepad);
    }
  }

  /** At most one quit call goes to a dependent of EVENTS, and nothing is up without its dependency. */
  predicate OneDependent(c: Counts) {
    var n := ForcedStops(c, EVERYTHING);
    DepsHeld(c) && n.joystick + n.audio + n.video <= 1
  }

  lemma ForcingOrder(c: Counts, p: Progress)
    requires p.joystickUp == (c.joystick > 0) && p.eventsUp == (c.events > 0)
    ensures ForcingFrom(c, p, 0).ordered <==> p.ordered && OneDependent(c)
  {
    hide Forcing;
    assert QUIT_ORDER == [Sensor, Gamepad, Joystick, Haptic, Audio, Video, Timer, Events];
    ForcingFree(c, p, Sensor);
    var (c1, p1) := Forcing(c, p, Sensor);
    ForcingGamepad(c1, p1);
    var (c2, p2) := Forcing(c1, p1, Gamepad);
    ForcingDependent(c2, p2, Joystick);
    var (c3, p3) := Forcing(c2, p2, Joystick);
    ForcingFree(c3, p3, Haptic);
    var (c4, p4) := Forcing(c3, p3, Haptic);
    ForcingDependent(c4, p4, Audio);
    var (c5, p5) := Forcing(c4, p4, Audio);
    ForcingDependent(c5, p5, Video);
    var (c6, p6) := Forcing(c5, p5, Video);
    ForcingFree(c6, p6, Timer);
    var (c7, p7) := Forcing(c6, p6, Timer);
    ForcingEvents(c7, p7);
    var (c8, p8) := Forcing(c7, p7, Events);
    assert ForcingFrom(c, p, 0) == ForcingFrom(c1, p1, 1) == ForcingFrom(c2, p2, 2) == ForcingFrom(c3, p3, 3);
    assert ForcingFrom(c3, p3, 3) == ForcingFrom(c4, p4, 4) == ForcingFrom(c5, p5, 5) == ForcingFrom(c6, p6, 6);
    assert ForcingFrom(c6, p6, 6) == ForcingFrom(c7, p7, 7) == ForcingFrom(c8, p8, 8) == p8;
  }

  /** SDL_Quit keeps dependents before dependencies if and only if nothing is up without its dependency
      and JOYSTICK, AUDIO and VIDEO together get at most one quit call. */
  lemma ShutdownOrdered(st: State)
    requires Sound(st) && StopsBeforeDep(st.trace)
    ensures StopsBeforeDep(Shutdown(st).trace) <==> OneDependent(st.counts)
  {
    assert ProgressOf(st.trace) == Progress(true, st.counts.joystick > 0, st.counts.events > 0) by {
      assert st.counts.Get(Joystick) > 0 <==> IsUp(st.trace, Joystick);
      assert st.counts.Get(Events) > 0 <==> IsUp(st.trace, Events);
    }
    assert Shutdown(st).trace == QuitFrom(true, st, EVERYTHING, 0).trace;
    hide Sound, QuitFrom, Shutdown, OneDependent, ForcingFrom, StopsBeforeDep;
    QuitForces(st, 0);
    ForcingOrder(st.counts, ProgressOf(st.trace));
  }

  /** After a balanced run, where nothing is ever up without its dependency, only the calls count. */
  lemma BalancedShutdownOrdered(o: Oracle, ops: seq<Op>)
    requires Balanced(o, INITIAL, ZERO, ops)
    ensures var st := Run(o, INITIAL, ops);
      var n := ForcedStops(st.counts, EVERYTHING);
      StopsBeforeDep(Shutdown(st).trace) <==> n.joystick + n.audio + n.video <= 1
  {
    hide Balanced, Run, Shutdown, ForcedStops, StopsBeforeDep, Sound, Owes, LedgerAfter, LeaksAfter, DepsHeld;
    InitiallySound();
    BalancedRunKeeps(o, INITIAL, ZERO, NONE, ops);
    OwingHolds(Run(o, INITIAL, ops).counts, LedgerAfter(o, INITIAL, ZERO, ops), LeaksAfter(o, INITIAL, NONE, ops));
    ShutdownOrdered(Run(o, INITIAL, ops));
  }

  lemma OwingHolds(c: Counts, ex: Counts, l: Leaks)
    requires Owes(c, ex, l)
    ensures DepsHeld(c)
  {
  }

  /** A forced quit block that reaches EVENTS through `s`, for an `s` that depends on it. */
  lemma DropsBoth(st: State, s: Sub)
    requires Dep(s) == Some(Events) && st.counts.Get(s) > 0 && st.counts.events > 0
    ensures Drop(true, st, s)
      == State(st.counts.Down(s).Down(Events), st.trace + [Stopped(s)] + [Stopped(Events)])
  {
    DropIs(true, st, s);
    DropIs(true, st.(trace := st.trace + [Stopped(s)]), Events);
  }

  lemma DropsNothing(st: State, s: Sub)
    requires st.counts.Get(s) == 0
    ensures Drop(true, st, s) == st
  {
  }

  lemma ExampleStops(st: State)
    requires st.counts == ZERO.(gamepad := 1, joystick := 1, video := 1, events := 2)
    ensures Shutdown(st).trace == st.trace
      + [Stopped(Gamepad), Stopped(Joystick), Stopped(Events), Stopped(Video), Stopped(Events)]
  {
    hide Drop, QuitFrom;
    assert QUIT_ORDER == [Sensor, Gamepad, Joystick, Haptic, Audio, Video, Timer, Events];
    var q := st.trace + [Stopped(Gamepad)];
    DropIs(true, st, Gamepad);
    DropsBoth(st.(trace := q), Joystick);
    var st2 := State(ZERO.(video := 1, events := 1), q + [Stopped(Joystick)] + [Stopped(Events)]);
    assert Drop(true, st, Gamepad) == st2;
    DropsBoth(st2, Video);
    var st3 := State(ZERO, st2.trace + [Stopped(Video)] + [Stopped(Events)]);
    assert Drop(true, st2, Video) == st3;
    ExampleBlocks(st, st2, st3);
  }

  /** The blocks in between find nothing to quit. */
  lemma ExampleBlocks(st: State, st2: State, st3: State)
    requires st.counts.sensor == 0 && Drop(true, st, Gamepad) == st2
    requires st2.counts == ZERO.(video := 1, events := 1) && Drop(true, st2, Video) == st3 && st3.counts == ZERO
    ensures Quit(true, st, EVERYTHING) == st3
  {
    hide Drop;
    assert QUIT_ORDER == [Sensor, Gamepad, Joystick, Haptic, Audio, Video, Timer, Events];
    DropsNothing(st, Sensor);
    DropsNothing(st2, Joystick);
    DropsNothing(st2, Haptic);
    DropsNothing(st2, Audio);
    DropsNothing(st3, Timer);
    DropsNothing(st3, Events);
    QuitFromStep(true, st, EVERYTHING, 0);
    QuitFromStep(true, st, EVERYTHING, 1);
    QuitFromStep(true, st2, EVERYTHING, 2);
    QuitFromStep(true, st2, EVERYTHING, 3);
    QuitFromStep(true, st2, EVERYTHING, 4);
    QuitFromStep(true, st2, EVERYTHING, 5);
    QuitFromStep(true, st3, EVERYTHING, 6);
    QuitFromStep(true, st3, EVERYTHING, 7);
  }

  /** A run that shows both: one successful init of GAMEPAD and VIDEO, then SDL_Quit. EVENTS is quit
      before VIDEO, and once more after it. */
  lemma ShutdownExample()
    ensures var o: Oracle := n => true;
      var st := Run(o, INITIAL, [InitOp({Gamepad, Video})]);
      && st.counts == ZERO.(gamepad := 1, joystick := 1, video := 1, events := 2)
      && Shutdown(st).trace == st.trace
        + [Stopped(Gamepad), Stopped(Joystick), Stopped(Events), Stopped(Video), Stopped(Events)]
      && !StopsBeforeDep(Shutdown(st).trace)
  {
    var o: Oracle := n => true;
    var ops := [InitOp({Gamepad, Video})];
    var st := Run(o, INITIAL, ops);
    InitSucceeds(o, INITIAL, {Gamepad, Video}, 0, {});
    InitCounts(o, INITIAL, {Gamepad, Video});
    assert ops[1..] == [];
    assert st == Init(o, INITIAL, {Gamepad, Video}).0;
    assert Balanced(o, INITIAL, ZERO, ops);
    hide Init, InitFrom, Run, Balanced, Shutdown, StopsBeforeDep;
    assert st.counts == ZERO.(gamepad := 1, joystick := 1, video := 1, events := 2);
    BalancedShutdownOrdered(o, ops);
    ExampleStops(st);
  }
}
