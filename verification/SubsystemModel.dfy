/** The reference-counting protocol of src/SDL.c as pure functions over the counters
    and a trace of backend calls. The class in SubsystemState.dfy is proved to follow it. */
module SubsystemModel {
  import opened Wrappers

  datatype Sub = Timer | Audio | Video | Joystick | Haptic | Gamepad | Events | Sensor

  /** One call of a backend routine: an init with its outcome, or a quit. */
  datatype Event = Started(sub: Sub, ok: bool) | Stopped(sub: Sub)

  /** The outcome of a backend init, arbitrary, given by its position in the trace. */
  type Oracle = nat -> bool

  const EVERYTHING := {Timer, Audio, Video, Events, Joystick, Haptic, Gamepad, Sensor}

  datatype Counts = Counts(timer: nat, audio: nat, video: nat, joystick: nat,
                           haptic: nat, gamepad: nat, events: nat, sensor: nat)
  {
    function Get(s: Sub): nat {
      match s
      case Timer => timer
      case Audio => audio
      case Video => video
      case Joystick => joystick
      case Haptic => haptic
      case Gamepad => gamepad
      case Events => events
      case Sensor => sensor
    }

    function Put(s: Sub, n: nat): Counts {
      match s
      case Timer => this.(timer := n)
      case Audio => this.(audio := n)
      case Video => this.(video := n)
      case Joystick => this.(joystick := n)
      case Haptic => this.(haptic := n)
      case Gamepad => this.(gamepad := n)
      case Events => this.(events := n)
      case Sensor => this.(sensor := n)
    }

    /** Take one more reference. */
    function Up(s: Sub): Counts {
      Put(s, Get(s) + 1)
    }

    /** Give one reference back, never below zero. */
    function Down(s: Sub): Counts {
      Put(s, if Get(s) > 0 then Get(s) - 1 else 0)
    }
  }

  const ZERO := Counts(0, 0, 0, 0, 0, 0, 0, 0)

  datatype State = State(counts: Counts, trace: seq<Event>)

  /** The subsystem that must be up for `s` to be up. */
  function Dep(s: Sub): Option<Sub> {
    match s
    case Video | Audio | Joystick => Some(Events)
    case Gamepad => Some(Joystick)
    case _ => None
  }

  function Rank(s: Sub): nat {
    match s
    case Video | Audio | Joystick => 1
    case Gamepad => 2
    case _ => 0
  }

  function RankOf(f: set<Sub>): nat {
    if Gamepad in f then 2
    else if Video in f || Audio in f || Joystick in f then 1
    else 0
  }

  const INIT_ORDER := [Events, Timer, Video, Audio, Joystick, Gamepad, Haptic, Sensor]
  const QUIT_ORDER := [Sensor, Gamepad, Joystick, Haptic, Audio, Video, Timer, Events]

  // ---------- init ----------

  function Inc(st: State, s: Sub): State {
    st.(counts := st.counts.Up(s))
  }

  /** Run the backend init of `s`: the reference is taken first and given back on failure. */
  function Start(o: Oracle, st: State, s: Sub): (State, bool) {
    var ok := o(|st.trace|);
    var st' := st.(trace := st.trace + [Started(s, ok)]);
    if ok then (Inc(st', s), true) else (st', false)
  }

  /** One `if (flags & SDL_INIT_s)` block of SDL_InitSubSystem. */
  function Bring(o: Oracle, st: State, s: Sub): (State, bool)
    decreases Rank(s), 0, 0
  {
    if st.counts.Get(s) > 0 then (Inc(st, s), true)
    else
      match Dep(s)
      case None => Start(o, st, s)
      case Some(d) =>
        var (st', ok) := InitOrIncrement(o, st, d);
        if ok then Start(o, st', s) else (st', false)
  }

  function InitOrIncrement(o: Oracle, st: State, d: Sub): (State, bool)
    decreases Rank(d), 3, 0
  {
    if st.counts.Get(d) > 0 then (Inc(st, d), true) else Init(o, st, {d})
  }

  /** SDL_InitSubSystem: true stands for the return value 0. */
  function Init(o: Oracle, st: State, f: set<Sub>): (State, bool)
    decreases RankOf(f), 2, 0
  {
    InitFrom(o, st, f, 0, {})
  }

  /** The blocks of SDL_InitSubSystem from the k-th on, `done` being `flags_initialized`. */
  function InitFrom(o: Oracle, st: State, f: set<Sub>, k: nat, done: set<Sub>): (State, bool)
    requires k <= |INIT_ORDER|
    decreases RankOf(f), 1, |INIT_ORDER| - k
  {
    if k == |INIT_ORDER| then (st, true)
    else
      var s := INIT_ORDER[k];
      if s !in f then InitFrom(o, st, f, k + 1, done)
      else
        var (st', ok) := Bring(o, st, s);
        if ok then InitFrom(o, st', f, k + 1, done + {s})
        else (Quit(false, st', done), false)
  }

  // ---------- quit ----------

  /** One `if (flags & SDL_INIT_s)` block of SDL_QuitSubSystem; `force` is SDL_bInMainQuit. */
  function Drop(force: bool, st: State, s: Sub): State
    decreases Rank(s), 0, 0
  {
    var n := st.counts.Get(s);
    if n == 0 then st
    else
      var st' :=
        if n == 1 || force then
          var stopped := st.(trace := st.trace + [Stopped(s)]);
          match Dep(s)
          case None => stopped
          case Some(d) => Quit(force, stopped, {d})
        else st;
      st'.(counts := st'.counts.Down(s))
  }

  function Quit(force: bool, st: State, f: set<Sub>): State
    decreases RankOf(f), 2, 0
  {
    QuitFrom(force, st, f, 0)
  }

  function QuitFrom(force: bool, st: State, f: set<Sub>, k: nat): State
    requires k <= |QUIT_ORDER|
    decreases RankOf(f), 1, |QUIT_ORDER| - k
  {
    if k == |QUIT_ORDER| then st
    else
      var s := QUIT_ORDER[k];
      QuitFrom(force, if s in f then Drop(force, st, s) else st, f, k + 1)
  }

  /** SDL_Quit: a forced quit of everything, then the counters are cleared. */
  function Shutdown(st: State): State {
    Quit(true, st, EVERYTHING).(counts := ZERO)
  }

  // ---------- runs ----------

  datatype Op = InitOp(flags: set<Sub>) | QuitOp(flags: set<Sub>) | ShutdownOp

  function Step(o: Oracle, st: State, op: Op): State {
    match op
    case InitOp(f) => Init(o, st, f).0
    case QuitOp(f) => Quit(false, st, f)
    case ShutdownOp => Shutdown(st)
  }

  function Run(o: Oracle, st: State, ops: seq<Op>): State
    decreases |ops|
  {
    if ops == [] then st else Run(o, Step(o, st, ops[0]), ops[1..])
  }

  const INITIAL := State(ZERO, [])

  // ---------- reading a trace ----------

  /** Whether the last decisive backend call left `s` running. */
  predicate IsUp(trace: seq<Event>, s: Sub) {
    if trace == [] then false
    else
      match trace[|trace| - 1]
      case Started(x, true) => x == s || IsUp(trace[..|trace| - 1], s)
      case Started(_, false) => IsUp(trace[..|trace| - 1], s)
      case Stopped(x) => x != s && IsUp(trace[..|trace| - 1], s)
  }

  /** A backend is started only when down and with its dependency up, and stopped only when up. */
  ghost predicate StartsOnlyDown(trace: seq<Event>) {
    forall k :: 0 <= k < |trace| && trace[k].Started? ==>
      !IsUp(trace[..k], trace[k].sub)
  }

  ghost predicate StopsOnlyUp(trace: seq<Event>) {
    forall k :: 0 <= k < |trace| && trace[k].Stopped? ==> IsUp(trace[..k], trace[k].sub)
  }

  ghost predicate DepUp(trace: seq<Event>, s: Sub) {
    Dep(s).Some? ==> IsUp(trace, Dep(s).value)
  }

  ghost predicate StartsAfterDep(trace: seq<Event>) {
    forall k :: 0 <= k < |trace| && trace[k].Started? ==> DepUp(trace[..k], trace[k].sub)
  }

  ghost predicate StopsBeforeDep(trace: seq<Event>) {
    forall k :: 0 <= k < |trace| && trace[k].Stopped? ==> DepUp(trace[..k], trace[k].sub)
  }

  /** The subsystem whose backend init is the last one in the trace, with its outcome. */
  function LastStart(trace: seq<Event>): Option<Event> {
    if trace == [] then None
    else if trace[|trace| - 1].Started? then Some(trace[|trace| - 1])
    else LastStart(trace[..|trace| - 1])
  }

  /** How many times the quit routine of `s` was called. */
  function Stops(trace: seq<Event>, s: Sub): nat {
    if trace == [] then 0
    else Stops(trace[..|trace| - 1], s) + (if trace[|trace| - 1] == Stopped(s) then 1 else 0)
  }
}
