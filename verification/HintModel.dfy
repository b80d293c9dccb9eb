/** src/SDL_hints.c as a state machine on values: hints with priorities, an environment and watchers. */
module HintModel {
  import opened Wrappers

  /** SDL_HintPriority. */
  type Priority = p: int | 0 <= p <= 2
  const DEFAULT: Priority := 0
  const NORMAL: Priority := 1
  const OVERRIDE: Priority := 2

  type Text = Option<string>

  /** A registered callback with its userdata. */
  datatype Watcher = Watcher(callback: nat, userdata: nat)

  datatype Hint = Hint(name: string, value: Text, priority: Priority, watchers: seq<Watcher>)

  /** One call of a watcher. */
  datatype Note = Note(name: string, watcher: Watcher, oldValue: Text, newValue: Text)

  /** The hints, newest first, and every call made so far. */
  datatype World = World(hints: seq<Hint>, log: seq<Note>)

  /** The fixed environment, and which watchers unregister themselves: `quits` is asked with all
      calls made so far, the last of them being the one it decides about. */
  datatype Setting = Setting(env: string -> Text, quits: seq<Note> -> bool)

  // ---------- notifying ----------

  function NotesFor(ws: seq<Watcher>, name: string, oldValue: Text, newValue: Text): (notes: seq<Note>)
    ensures |notes| == |ws|
  {
    seq(|ws|, i requires 0 <= i < |ws| => Note(name, ws[i], oldValue, newValue))
  }

  /** The watchers that do not quit when they get `notes`, one each, after `log`. */
  function Staying(s: Setting, ws: seq<Watcher>, log: seq<Note>, notes: seq<Note>): seq<Watcher>
    requires |notes| == |ws|
  {
    if ws == [] then []
    else
      var n := |ws| - 1;
      Staying(s, ws[..n], log, notes[..n]) + if s.quits(log + notes) then [] else [ws[n]]
  }

  /** Hint `i` gets a value and a priority after its watchers were told `told`. */
  function Notified(s: Setting, w: World, i: nat, told: Text, value: Text, priority: Priority): World
    requires i < |w.hints|
  {
    var h := w.hints[i];
    var notes := NotesFor(h.watchers, h.name, h.value, told);
    World(w.hints[i := Hint(h.name, value, priority, Staying(s, h.watchers, w.log, notes))], w.log + notes)
  }

  // ---------- the operations ----------

  /** The position of the first hint called `name`, or the number of hints. */
  function IndexOf(hs: seq<Hint>, name: string): (i: nat)
    ensures i <= |hs|
    ensures i < |hs| ==> hs[i].name == name
    ensures forall j :: 0 <= j < i ==> hs[j].name != name
  {
    if hs == [] then 0 else if hs[0].name == name then 0 else 1 + IndexOf(hs[1..], name)
  }

  /** SDL_SetHintWithPriority: whether it succeeds, and the world after it. */
  function SetHint(s: Setting, w: World, name: Text, value: Text, priority: Priority): (World, bool) {
    if name == None || (s.env(name.value).Some? && priority < OVERRIDE) then (w, false)
    else
      var i := IndexOf(w.hints, name.value);
      if i == |w.hints| then (World([Hint(name.value, value, priority, [])] + w.hints, w.log), true)
      else if priority < w.hints[i].priority then (w, false)
      else if w.hints[i].value != value then (Notified(s, w, i, value, value, priority), true)
      else (World(w.hints[i := w.hints[i].(priority := priority)], w.log), true)
  }

  /** What a reset does to hint `i`. */
  function ResetAt(s: Setting, w: World, i: nat): World
    requires i < |w.hints|
  {
    var h := w.hints[i];
    if h.value != s.env(h.name) then Notified(s, w, i, s.env(h.name), None, DEFAULT)
    else World(w.hints[i := h.(value := None, priority := DEFAULT)], w.log)
  }

  /** SDL_ResetHint. */
  function ResetHint(s: Setting, w: World, name: Text): (World, bool) {
    if name == None || IndexOf(w.hints, name.value) == |w.hints| then (w, false)
    else (ResetAt(s, w, IndexOf(w.hints, name.value)), true)
  }

  /** SDL_ResetHints, from hint `i` on. */
  function ResetFrom(s: Setting, w: World, i: nat): World
    requires i <= |w.hints|
    decreases |w.hints| - i
  {
    if i == |w.hints| then w else ResetFrom(s, ResetAt(s, w, i), i + 1)
  }

  /** SDL_GetHint. */
  function GetHint(s: Setting, w: World, name: string): Text {
    var i := IndexOf(w.hints, name);
    if i < |w.hints| && (s.env(name) == None || w.hints[i].priority == OVERRIDE) then w.hints[i].value
    else s.env(name)
  }

  /** The watchers without the first that equals `x`. */
  function Without(ws: seq<Watcher>, x: Watcher): seq<Watcher> {
    if ws == [] then [] else if ws[0] == x then ws[1..] else [ws[0]] + Without(ws[1..], x)
  }

  /** SDL_DelHintCallback. */
  function DelCallback(w: World, name: string, x: Watcher): World {
    var i := IndexOf(w.hints, name);
    if i == |w.hints| then w
    else World(w.hints[i := w.hints[i].(watchers := Without(w.hints[i].watchers, x))], w.log)
  }

  /** The hint with a watcher in front, created when there is none of that name. */
  function AddWatcher(hs: seq<Hint>, name: string, x: Watcher): seq<Hint> {
    var i := IndexOf(hs, name);
    if i == |hs| then [Hint(name, None, DEFAULT, [x])] + hs
    else hs[i := hs[i].(watchers := [x] + hs[i].watchers)]
  }

  /** SDL_AddHintCallback: an earlier registration is dropped, and the new one is told the current
      value at once; it may quit right then. */
  function AddCallback(s: Setting, w: World, name: Text, callback: nat, userdata: nat): (World, bool) {
    if name == None || name.value == "" || callback == 0 then (w, false)
    else
      var x := Watcher(callback, userdata);
      var hs := AddWatcher(DelCallback(w, name.value, x).hints, name.value, x);
      var value := GetHint(s, World(hs, w.log), name.value);
      var told := World(hs, w.log + [Note(name.value, x, value, value)]);
      (if s.quits(told.log) then DelCallback(told, name.value, x) else told, true)
  }

  // ---------- runs ----------

  datatype Op =
    | Set(name: Text, value: Text, priority: Priority)
    | Reset(name: Text)
    | ResetAll
    | Add(name: Text, callback: nat, userdata: nat)
    | Del(hint: string, watcher: Watcher)
    | Clear

  function Step(s: Setting, w: World, op: Op): World {
    match op
    case Set(name, value, priority) => SetHint(s, w, name, value, priority).0
    case Reset(name) => ResetHint(s, w, name).0
    case ResetAll => ResetFrom(s, w, 0)
    case Add(name, callback, userdata) => AddCallback(s, w, name, callback, userdata).0
    case Del(name, x) => DelCallback(w, name, x)
    case Clear => World([], w.log)
  }

  /** The world after all of `ops`, starting without hints. */
  function Run(s: Setting, ops: seq<Op>): World {
    if ops == [] then World([], [])
    else Step(s, Run(s, ops[..|ops| - 1]), ops[|ops| - 1])
  }
}
