/** What the hints promise over whole runs: which set call wins, and that no watcher is stale. */
module HintLaws {
  import opened Wrappers
  import opened Sequences
  import opened HintModel

  /** The hint called `name`, if there is one. */
  function Slot(w: World, name: string): Option<Hint> {
    var i := IndexOf(w.hints, name);
    if i < |w.hints| then Some(w.hints[i]) else None
  }

  ghost predicate UniqueNames(hs: seq<Hint>) {
    forall i, j :: 0 <= i < j < |hs| ==> hs[i].name != hs[j].name
  }

  // ---------- finding a hint ----------

  lemma IndexIs(hs: seq<Hint>, name: string, i: nat)
    requires i <= |hs| && (i < |hs| ==> hs[i].name == name)
    requires forall j :: 0 <= j < i ==> hs[j].name != name
    ensures IndexOf(hs, name) == i
  {
  }

  /** Changing a hint but not its name moves nothing. */
  lemma IndexKept(hs: seq<Hint>, i: nat, h: Hint, name: string)
    requires i < |hs| && h.name == hs[i].name
    ensures IndexOf(hs[i := h], name) == IndexOf(hs, name)
  {
    IndexIs(hs[i := h], name, IndexOf(hs, name));
  }

  lemma IndexFront(h: Hint, hs: seq<Hint>, name: string)
    ensures IndexOf([h] + hs, name) == if h.name == name then 0 else 1 + IndexOf(hs, name)
  {
    assert ([h] + hs)[1..] == hs;
  }

  /** After changing hint `i`, which is the first of its name, only the slot of that name differs. */
  lemma SlotChanged(w: World, i: nat, h: Hint, log: seq<Note>, name: string)
    requires i < |w.hints| && h.name == w.hints[i].name && IndexOf(w.hints, h.name) == i
    ensures Slot(World(w.hints[i := h], log), name) == if name == h.name then Some(h) else Slot(w, name)
  {
    IndexKept(w.hints, i, h, name);
  }

  lemma UniqueIndex(hs: seq<Hint>, i: nat)
    requires UniqueNames(hs) && i < |hs|
    ensures IndexOf(hs, hs[i].name) == i
  {
    IndexIs(hs, hs[i].name, i);
  }

  // ---------- who was told what ----------

  /** The value last passed to watcher `x` of `name`. */
  function LastTold(log: seq<Note>, name: string, x: Watcher): Option<Text> {
    if log == [] then None
    else
      var note := log[|log| - 1];
      if note.name == name && note.watcher == x then Some(note.newValue)
      else LastTold(log[..|log| - 1], name, x)
  }

  /** Notes that are not for the watcher do not matter to it. */
  lemma {:induction false} ToldOthers(log: seq<Note>, notes: seq<Note>, name: string, x: Watcher)
    requires forall k :: 0 <= k < |notes| ==> notes[k].name != name || notes[k].watcher != x
    ensures LastTold(log + notes, name, x) == LastTold(log, name, x)
  {
    if notes == [] {
      assert log + notes == log;
    } else {
      assert (log + notes)[..|log + notes| - 1] == log + notes[..|notes| - 1];
      ToldOthers(log, notes[..|notes| - 1], name, x);
    }
  }

  lemma ToldNow(log: seq<Note>, note: Note)
    ensures LastTold(log + [note], note.name, note.watcher) == Some(note.newValue)
  {
    assert (log + [note])[|log|] == note;
  }

  /** After a round of notes every watcher of the round was last told the new value. */
  lemma ToldAll(log: seq<Note>, ws: seq<Watcher>, name: string, oldValue: Text, told: Text, x: Watcher)
    requires Distinct(ws) && x in ws
    ensures LastTold(log + NotesFor(ws, name, oldValue, told), name, x) == Some(told)
  {
    var notes := NotesFor(ws, name, oldValue, told);
    var k :| 0 <= k < |ws| && ws[k] == x;
    var upto, rest := log + notes[..k] + [notes[k]], notes[k + 1..];
    ToldNow(log + notes[..k], notes[k]);
    assert log + notes == upto + rest;
    forall j | 0 <= j < |rest| ensures rest[j].watcher != x {
      assert rest[j].watcher == ws[k + 1 + j];
    }
    ToldOthers(upto, rest, name, x);
  }

  lemma {:induction false} StayingAre(s: Setting, ws: seq<Watcher>, log: seq<Note>, notes: seq<Note>)
    requires |notes| == |ws|
    ensures forall x :: x in Staying(s, ws, log, notes) ==> x in ws
    ensures Distinct(ws) ==> Distinct(Staying(s, ws, log, notes))
  {
    if ws != [] {
      StayingAre(s, ws[..|ws| - 1], log, notes[..|ws| - 1]);
      assert Distinct(ws) ==> ws[|ws| - 1] !in ws[..|ws| - 1];
    }
  }

  /** A watcher stays after a round exactly when it did not quit at its own call. */
  lemma {:induction false} StaysUnlessItQuits(s: Setting, ws: seq<Watcher>, log: seq<Note>, notes: seq<Note>, k: nat)
    requires |notes| == |ws| && Distinct(ws) && k < |ws|
    ensures ws[k] in Staying(s, ws, log, notes) <==> !s.quits(log + notes[..k + 1])
  {
    var n := |ws| - 1;
    StayingAre(s, ws[..n], log, notes[..n]);
    if k < n {
      StaysUnlessItQuits(s, ws[..n], log, notes[..n], k);
      assert notes[..n][..k + 1] == notes[..k + 1];
    } else {
      assert notes[..k + 1] == notes;
    }
  }

  lemma {:induction false} WithoutIs(ws: seq<Watcher>, x: Watcher)
    requires Distinct(ws)
    ensures Distinct(Without(ws, x))
    ensures forall y :: y in Without(ws, x) <==> y in ws && y != x
  {
    if ws != [] {
      WithoutIs(ws[1..], x);
      assert forall y :: y in ws <==> y == ws[0] || y in ws[1..];
      assert ws[0] !in ws[1..];
    }
  }

  // ---------- the invariant of one name ----------

  /** The watchers of `name` are distinct, all were last told what SDL_GetHint returns, and only an
      override can store a value when the environment defines the name. */
  ghost predicate Fresh(s: Setting, w: World, name: string) {
    Slot(w, name).Some? ==>
      var h := Slot(w, name).value;
      forall x :: x in h.watchers ==> LastTold(w.log, name, x) == Some(GetHint(s, w, name))
  }

  ghost predicate Sane(s: Setting, w: World, name: string) {
    Slot(w, name).Some? ==>
      var h := Slot(w, name).value;
      && Distinct(h.watchers)
      && (s.env(name).Some? && h.value.Some? ==> h.priority == OVERRIDE)
  }

  /** The one call that can make watchers stale: overriding, with no value, a defined environment
      variable that nothing overrides yet. */
  ghost predicate GoesStale(s: Setting, w: World, op: Op, name: string) {
    && op == Set(Some(name), None, OVERRIDE) && s.env(name).Some?
    && Slot(w, name).Some?
    && Slot(w, name).value.priority != OVERRIDE && Slot(w, name).value.watchers != []
  }

  // ---------- one operation ----------

  /** Telling the watchers of hint `i` concerns no other name, and leaves none of its watchers stale. */
  lemma NotifiedOne(s: Setting, w: World, i: nat, told: Text, value: Text, priority: Priority, name: string)
    requires i < |w.hints| && IndexOf(w.hints, w.hints[i].name) == i
    ensures var w' := Notified(s, w, i, told, value, priority);
      && (name != w.hints[i].name ==>
            && Slot(w', name) == Slot(w, name)
            && forall x :: LastTold(w'.log, name, x) == LastTold(w.log, name, x))
      && (name == w.hints[i].name && Distinct(w.hints[i].watchers) ==>
            && Slot(w', name).Some?
            && var h := Slot(w', name).value;
            && h.value == value && h.priority == priority && Distinct(h.watchers)
            && forall x :: x in h.watchers ==> x in w.hints[i].watchers && LastTold(w'.log, name, x) == Some(told))
  {
    var h := w.hints[i];
    var notes := NotesFor(h.watchers, h.name, h.value, told);
    var ws := Staying(s, h.watchers, w.log, notes);
    SlotChanged(w, i, Hint(h.name, value, priority, ws), w.log + notes, name);
    StayingAre(s, h.watchers, w.log, notes);
    if name != h.name {
      forall x ensures LastTold(w.log + notes, name, x) == LastTold(w.log, name, x) {
        ToldOthers(w.log, notes, name, x);
      }
    } else if Distinct(h.watchers) {
      forall x | x in h.watchers ensures LastTold(w.log + notes, name, x) == Some(told) {
        ToldAll(w.log, h.watchers, h.name, h.value, told, x);
      }
    }
  }

  /** Only the priority changes: a defined environment variable may stop being the value. */
  lemma PriorityOnly(s: Setting, w: World, n: string, value: Text, priority: Priority)
    requires Slot(w, n).Some? && Slot(w, n).value.value == value && Slot(w, n).value.priority <= priority
    requires s.env(n).Some? ==> priority == OVERRIDE
    requires Sane(s, w, n)
    ensures var i := IndexOf(w.hints, n);
      var w' := World(w.hints[i := w.hints[i].(priority := priority)], w.log);
      && Sane(s, w', n)
      && (Fresh(s, w, n) ==> (Fresh(s, w', n) <==> !GoesStale(s, w, Set(Some(n), value, priority), n)))
  {
    var i := IndexOf(w.hints, n);
    var h := w.hints[i].(priority := priority);
    var w' := World(w.hints[i := h], w.log);
    SlotChanged(w, i, h, w.log, n);
    assert GetHint(s, w', n) == value;
    hide Distinct, LastTold, IndexOf, Slot;
    if Fresh(s, w, n) {
      if GoesStale(s, w, Set(Some(n), value, priority), n) {
        assert h.watchers[0] in h.watchers;
      }
    }
  }

  lemma SetKeeps(s: Setting, w: World, name: Text, value: Text, priority: Priority, n: string)
    requires Sane(s, w, n)
    ensures var w' := SetHint(s, w, name, value, priority).0;
      && Sane(s, w', n)
      && (Fresh(s, w, n) ==> (Fresh(s, w', n) <==> !GoesStale(s, w, Set(name, value, priority), n)))
  {
    hide Distinct, LastTold, Notified, IndexOf;
    var w' := SetHint(s, w, name, value, priority).0;
    if w' != w {
      var i := IndexOf(w.hints, name.value);
      if i == |w.hints| {
        IndexFront(Hint(name.value, value, priority, []), w.hints, n);
        NothingTwice();
      } else if w.hints[i].value != value {
        NotifiedOne(s, w, i, value, value, priority, n);
      } else if n == name.value {
        PriorityOnly(s, w, n, value, priority);
      } else {
        SlotChanged(w, i, w.hints[i].(priority := priority), w.log, n);
      }
    }
  }

  lemma NothingTwice()
    ensures Distinct<Watcher>([])
  {
  }

  lemma ResetOneKeeps(s: Setting, w: World, i: nat, n: string)
    requires i < |w.hints| && IndexOf(w.hints, w.hints[i].name) == i
    requires Sane(s, w, n)
    ensures Sane(s, ResetAt(s, w, i), n)
    ensures Fresh(s, w, n) ==> Fresh(s, ResetAt(s, w, i), n)
  {
    hide Distinct, LastTold, Notified;
    var h := w.hints[i];
    if h.value != s.env(h.name) {
      NotifiedOne(s, w, i, s.env(h.name), None, DEFAULT, n);
    } else {
      SlotChanged(w, i, h.(value := None, priority := DEFAULT), w.log, n);
    }
  }

  /** The names are the same, in the same order. */
  ghost predicate SameNames(hs: seq<Hint>, us: seq<Hint>) {
    |hs| == |us| && forall i :: 0 <= i < |hs| ==> hs[i].name == us[i].name
  }

  lemma SameNamesSameIndex(hs: seq<Hint>, us: seq<Hint>, n: string)
    requires SameNames(hs, us)
    ensures IndexOf(hs, n) == IndexOf(us, n)
    ensures UniqueNames(hs) ==> UniqueNames(us)
  {
    IndexIs(us, n, IndexOf(hs, n));
  }

  lemma {:induction false} ResetAllKeeps(s: Setting, w: World, i: nat, n: string)
    requires i <= |w.hints| && UniqueNames(w.hints) && Sane(s, w, n)
    ensures SameNames(w.hints, ResetFrom(s, w, i).hints)
    ensures Sane(s, ResetFrom(s, w, i), n)
    ensures Fresh(s, w, n) ==> Fresh(s, ResetFrom(s, w, i), n)
    decreases |w.hints| - i
  {
    hide Distinct, LastTold, Sane, Fresh;
    if i < |w.hints| {
      UniqueIndex(w.hints, i);
      ResetOneKeeps(s, w, i, n);
      ResetAllKeeps(s, ResetAt(s, w, i), i + 1, n);
    }
  }

  lemma DelKeeps(s: Setting, w: World, name: string, x: Watcher, n: string)
    requires Sane(s, w, n)
    ensures Sane(s, DelCallback(w, name, x), n)
    ensures Fresh(s, w, n) ==> Fresh(s, DelCallback(w, name, x), n)
    ensures n == name && Slot(DelCallback(w, name, x), n).Some? ==>
      x !in Slot(DelCallback(w, name, x), n).value.watchers
  {
    hide LastTold;
    var i := IndexOf(w.hints, name);
    if i < |w.hints| {
      var h := w.hints[i];
      SlotChanged(w, i, h.(watchers := Without(h.watchers, x)), w.log, n);
      if n == name {
        WithoutIs(h.watchers, x);
      }
    }
  }

  /** A new watcher in front, not told anything yet. */
  lemma AddWatcherSlot(w: World, name: string, x: Watcher, n: string)
    ensures var hs := AddWatcher(w.hints, name, x);
      Slot(World(hs, w.log), n) ==
      if n != name then Slot(w, n)
      else if Slot(w, n).Some? then Some(Slot(w, n).value.(watchers := [x] + Slot(w, n).value.watchers))
      else Some(Hint(name, None, DEFAULT, [x]))
  {
    var i := IndexOf(w.hints, name);
    if i == |w.hints| {
      IndexFront(Hint(name, None, DEFAULT, [x]), w.hints, n);
    } else {
      SlotChanged(w, i, w.hints[i].(watchers := [x] + w.hints[i].watchers), w.log, n);
    }
  }

  /** The new watcher in front is told the current value. */
  lemma AddToldKeeps(s: Setting, w: World, name: string, x: Watcher, n: string)
    requires Sane(s, w, n) && (n == name && Slot(w, n).Some? ==> x !in Slot(w, n).value.watchers)
    ensures var hs := AddWatcher(w.hints, name, x);
      var value := GetHint(s, World(hs, w.log), name);
      var told := World(hs, w.log + [Note(name, x, value, value)]);
      Sane(s, told, n) && (Fresh(s, w, n) ==> Fresh(s, told, n))
  {
    hide IndexOf;
    var hs := AddWatcher(w.hints, name, x);
    var value := GetHint(s, World(hs, w.log), name);
    var note := Note(name, x, value, value);
    var told := World(hs, w.log + [note]);
    AddWatcherSlot(w, name, x, n);
    assert Slot(told, n) == Slot(World(hs, w.log), n);
    assert told.log[..|told.log| - 1] == w.log;
    if Fresh(s, w, n) && Slot(told, n).Some? {
      assert GetHint(s, told, n) == GetHint(s, World(hs, w.log), n);
      forall y | y in Slot(told, n).value.watchers ensures LastTold(told.log, n, y) == Some(GetHint(s, told, n)) {
        if y != x || n != name {
          assert y in Slot(w, n).value.watchers;
        }
      }
    }
  }

  lemma AddKeeps(s: Setting, w: World, name: Text, callback: nat, userdata: nat, n: string)
    requires Sane(s, w, n)
    ensures var w' := AddCallback(s, w, name, callback, userdata).0;
      Sane(s, w', n) && (Fresh(s, w, n) ==> Fresh(s, w', n))
  {
    hide Sane, Fresh, Slot, GetHint, DelCallback, AddWatcher;
    if name.Some? && name.value != "" && callback != 0 {
      var x := Watcher(callback, userdata);
      var d := DelCallback(w, name.value, x);
      DelLog(w, name.value, x);
      DelKeeps(s, w, name.value, x, n);
      AddToldKeeps(s, d, name.value, x, n);
      var hs := AddWatcher(d.hints, name.value, x);
      var value := GetHint(s, World(hs, w.log), name.value);
      DelKeeps(s, World(hs, w.log + [Note(name.value, x, value, value)]), name.value, x, n);
    }
  }

  lemma DelLog(w: World, name: string, x: Watcher)
    ensures DelCallback(w, name, x).log == w.log
  {
  }

  lemma NamesStayUnique(s: Setting, w: World, op: Op)
    requires UniqueNames(w.hints)
    ensures UniqueNames(Step(s, w, op).hints)
  {
    hide Staying, NotesFor, Without, DelCallback;
    match op
    case Set(name, value, priority) =>
      FrontIsNew(w.hints, name);
    case Reset(name) =>
    case ResetAll =>
      ResetNames(s, w, 0);
    case Add(name, callback, userdata) =>
      AddNames(s, w, name, callback, userdata);
    case Del(name, x) =>
      DelNames(w, name, x);
    case Clear =>
  }

  lemma DelNames(w: World, name: string, x: Watcher)
    ensures SameNames(w.hints, DelCallback(w, name, x).hints)
  {
  }

  lemma AddNames(s: Setting, w: World, name: Text, callback: nat, userdata: nat)
    requires UniqueNames(w.hints)
    ensures UniqueNames(AddCallback(s, w, name, callback, userdata).0.hints)
  {
    hide DelCallback;
    if name.Some? && name.value != "" && callback != 0 {
      var x := Watcher(callback, userdata);
      var d := DelCallback(w, name.value, x);
      DelNames(w, name.value, x);
      FrontIsNew(d.hints, name);
      var hs := AddWatcher(d.hints, name.value, x);
      assert UniqueNames(hs);
      var value := GetHint(s, World(hs, w.log), name.value);
      DelNames(World(hs, w.log + [Note(name.value, x, value, value)]), name.value, x);
    }
  }

  lemma FrontIsNew(hs: seq<Hint>, name: Text)
    requires UniqueNames(hs)
    ensures name.Some? && IndexOf(hs, name.value) == |hs| ==>
      forall h: Hint :: h.name == name.value ==> UniqueNames([h] + hs)
  {
  }

  lemma {:induction false} ResetNames(s: Setting, w: World, i: nat)
    requires i <= |w.hints|
    ensures SameNames(w.hints, ResetFrom(s, w, i).hints)
    decreases |w.hints| - i
  {
    if i < |w.hints| {
      ResetNames(s, ResetAt(s, w, i), i + 1);
    }
  }

  // ---------- whole runs ----------

  /** One step keeps the watchers of a name up to date, with exactly one exception. */
  lemma StepKeeps(s: Setting, w: World, op: Op, n: string)
    requires UniqueNames(w.hints) && Sane(s, w, n)
    ensures Sane(s, Step(s, w, op), n)
    ensures Fresh(s, w, n) ==> (Fresh(s, Step(s, w, op), n) <==> !GoesStale(s, w, op, n))
  {
    match op
    case Set(name, value, priority) => SetKeeps(s, w, name, value, priority, n);
    case Reset(name) =>
      if name.Some? && IndexOf(w.hints, name.value) < |w.hints| {
        ResetOneKeeps(s, w, IndexOf(w.hints, name.value), n);
      }
    case ResetAll => ResetAllKeeps(s, w, 0, n);
    case Add(name, callback, userdata) => AddKeeps(s, w, name, callback, userdata, n);
    case Del(name, x) => DelKeeps(s, w, name, x, n);
    case Clear =>
  }

  lemma {:induction false} RunIsSane(s: Setting, ops: seq<Op>, n: string)
    ensures UniqueNames(Run(s, ops).hints) && Sane(s, Run(s, ops), n)
  {
    hide Sane, Fresh, Step, UniqueNames;
    if ops == [] {
      EmptyIsSane(s, n);
    } else {
      var before := ops[..|ops| - 1];
      RunIsSane(s, before, n);
      NamesStayUnique(s, Run(s, before), ops[|ops| - 1]);
      StepKeeps(s, Run(s, before), ops[|ops| - 1], n);
    }
  }

  lemma EmptyIsSane(s: Setting, n: string)
    ensures UniqueNames(World([], []).hints) && Sane(s, World([], []), n) && Fresh(s, World([], []), n)
  {
  }

  /** With the environment defining the name as well, a run leaves no watcher stale if it never makes
      the one call that overrides the environment variable with no value. */
  lemma {:induction false} NeverStaleWithEnvironment(s: Setting, ops: seq<Op>, n: string)
    requires forall k :: 0 <= k < |ops| ==> !GoesStale(s, Run(s, ops[..k]), ops[k], n)
    ensures Fresh(s, Run(s, ops), n)
  {
    hide Sane, Fresh, Step, UniqueNames, GoesStale;
    if ops == [] {
      EmptyIsSane(s, n);
    } else {
      var before := ops[..|ops| - 1];
      forall k | 0 <= k < |before| ensures !GoesStale(s, Run(s, before[..k]), before[k], n) {
        assert before[..k] == ops[..k];
      }
      NeverStaleWithEnvironment(s, before, n);
      RunIsSane(s, before, n);
      StepKeeps(s, Run(s, before), ops[|ops| - 1], n);
    }
  }

  /** In every run, as long as the environment does not define the name, the last value passed to
      each registered watcher is the one SDL_GetHint returns. */
  lemma NeverStale(s: Setting, ops: seq<Op>, n: string)
    requires s.env(n) == None
    ensures Fresh(s, Run(s, ops), n)
  {
    hide Fresh, Run;
    NeverStaleWithEnvironment(s, ops, n);
  }

  /** The exception happens: a watcher of a variable that the environment defines is not told when
      the variable is overridden with no value. */
  lemma StaleExample(s: Setting)
    requires s.env("SDL_A") == Some("1") && forall log :: !s.quits(log)
    ensures var ops := [Add(Some("SDL_A"), 1, 0), Set(Some("SDL_A"), None, OVERRIDE)];
      && GetHint(s, Run(s, ops[..1]), "SDL_A") == Some("1")
      && GetHint(s, Run(s, ops), "SDL_A") == None
      && Slot(Run(s, ops), "SDL_A") == Some(Hint("SDL_A", None, OVERRIDE, [Watcher(1, 0)]))
      && LastTold(Run(s, ops).log, "SDL_A", Watcher(1, 0)) == Some(Some("1"))
  {
    var ops := [Add(Some("SDL_A"), 1, 0), Set(Some("SDL_A"), None, OVERRIDE)];
    assert ops[..1][..0] == [] && ops[..1][0] == ops[0] && ops[..2] == ops;
    var w := Run(s, ops[..1]);
    assert Run(s, []) == World([], []);
    assert w == Step(s, World([], []), ops[0]);
    assert w == World([Hint("SDL_A", None, DEFAULT, [Watcher(1, 0)])],
                      [Note("SDL_A", Watcher(1, 0), Some("1"), Some("1"))]);
    assert Run(s, ops) == Step(s, w, ops[1]);
  }

  /** `notes` is one round of calls: every watcher of hint `h` once, in order, and afterwards exactly
      those that did not quit at their own call are left. */
  ghost predicate OneRound(s: Setting, h: Hint, log: seq<Note>, notes: seq<Note>, told: Text, left: seq<Watcher>) {
    && |notes| == |h.watchers|
    && (forall k :: 0 <= k < |notes| ==> notes[k] == Note(h.name, h.watchers[k], h.value, told))
    && (forall j, k :: 0 <= j < k < |notes| ==> notes[j].watcher != notes[k].watcher)
    && (forall k :: 0 <= k < |notes| ==> (h.watchers[k] in left <==> !s.quits(log + notes[..k + 1])))
    && (forall x :: x in left ==> x in h.watchers)
  }

  lemma RoundOf(s: Setting, h: Hint, log: seq<Note>, told: Text)
    requires Distinct(h.watchers)
    ensures var notes := NotesFor(h.watchers, h.name, h.value, told);
      OneRound(s, h, log, notes, told, Staying(s, h.watchers, log, notes))
  {
    var notes := NotesFor(h.watchers, h.name, h.value, told);
    StayingAre(s, h.watchers, log, notes);
    forall k | 0 <= k < |notes|
      ensures h.watchers[k] in Staying(s, h.watchers, log, notes) <==> !s.quits(log + notes[..k + 1])
    {
      StaysUnlessItQuits(s, h.watchers, log, notes, k);
    }
  }

  /** In every reachable world, a set call that changes the value makes one round of calls with the
      new value, and any other set call makes none. */
  lemma SetTellsEachOnce(s: Setting, ops: seq<Op>, n: string, value: Text, priority: Priority)
    requires Slot(Run(s, ops), n).Some?
    ensures var w, h := Run(s, ops), Slot(Run(s, ops), n).value;
      var (w', ok) := SetHint(s, w, Some(n), value, priority);
      if ok && value != h.value then
        Slot(w', n).Some? && OneRound(s, h, w.log, w'.log[|w.log|..], value, Slot(w', n).value.watchers)
        && w.log <= w'.log
      else w'.log == w.log
  {
    hide Run, Staying, Distinct, NotesFor, OneRound, IndexOf;
    var w := Run(s, ops);
    RunIsSane(s, ops, n);
    var h := Slot(w, n).value;
    RoundOf(s, h, w.log, value);
    var w' := SetHint(s, w, Some(n), value, priority).0;
    if w' != w {
      var i := IndexOf(w.hints, n);
      SlotChanged(w, i, w'.hints[i], w'.log, n);
      assert value != h.value ==> w'.log[|w.log|..] == NotesFor(h.watchers, n, h.value, value);
    }
  }

  /** In every reachable world, a reset tells each watcher the environment's value, once, exactly when
      that differs from the stored value. */
  lemma ResetTellsEachOnce(s: Setting, ops: seq<Op>, n: string)
    requires Slot(Run(s, ops), n).Some?
    ensures var w, h := Run(s, ops), Slot(Run(s, ops), n).value;
      var w' := ResetHint(s, w, Some(n)).0;
      if h.value != s.env(n) then
        Slot(w', n).Some? && OneRound(s, h, w.log, w'.log[|w.log|..], s.env(n), Slot(w', n).value.watchers)
        && w.log <= w'.log
      else w'.log == w.log
  {
    hide Run, Staying, Distinct, NotesFor, OneRound, IndexOf;
    var w := Run(s, ops);
    RunIsSane(s, ops, n);
    var h := Slot(w, n).value;
    RoundOf(s, h, w.log, s.env(n));
    var i := IndexOf(w.hints, n);
    var w' := ResetHint(s, w, Some(n)).0;
    SlotChanged(w, i, w'.hints[i], w'.log, n);
    assert h.value != s.env(n) ==> w'.log[|w.log|..] == NotesFor(h.watchers, n, h.value, s.env(n));
  }

  // ---------- which set call wins ----------

  /** A set call of `n` that the environment does not refuse. */
  predicate Counts(s: Setting, op: Op, n: string) {
    op.Set? && op.name == Some(n) && (s.env(n).Some? ==> op.priority == OVERRIDE)
  }

  predicate Resets(op: Op, n: string) {
    op == ResetAll || op == Clear || op == Reset(Some(n))
  }

  /** `ops[k]` is such a call, and no reset followed. */
  ghost predicate InForce(s: Setting, ops: seq<Op>, n: string, k: int) {
    0 <= k < |ops| && Counts(s, ops[k], n) && forall j :: k < j < |ops| ==> !Resets(ops[j], n)
  }

  /** `ops[k]` is the latest set call in force that no other outranks. */
  ghost predicate Wins(s: Setting, ops: seq<Op>, n: string, k: int) {
    && InForce(s, ops, n, k)
    && forall j :: InForce(s, ops, n, j) ==>
      ops[j].priority <= ops[k].priority && (j > k ==> ops[j].priority < ops[k].priority)
  }

  /** The winner, found from the front. */
  function Winner(s: Setting, ops: seq<Op>, n: string): (k: Option<nat>)
    ensures k.Some? ==> k.value < |ops| && Counts(s, ops[k.value], n)
  {
    if ops == [] then None
    else
      var last := |ops| - 1;
      var k := Winner(s, ops[..last], n);
      if Resets(ops[last], n) then None
      else if Counts(s, ops[last], n) && (k == None || ops[k.value].priority <= ops[last].priority) then Some(last)
      else k
  }

  lemma {:induction false} WinnerWins(s: Setting, ops: seq<Op>, n: string)
    ensures Winner(s, ops, n).Some? ==> Wins(s, ops, n, Winner(s, ops, n).value)
    ensures Winner(s, ops, n) == None ==> forall k :: !InForce(s, ops, n, k)
  {
    if ops != [] {
      var last := |ops| - 1;
      WinnerWins(s, ops[..last], n);
      forall k | k != last ensures InForce(s, ops, n, k) <==> !Resets(ops[last], n) && InForce(s, ops[..last], n, k) {
        assert 0 <= k < last ==> ops[..last][k] == ops[k];
      }
    }
  }

  /** Two calls cannot both win. */
  lemma OneWinner(s: Setting, ops: seq<Op>, n: string, j: int, k: int)
    requires Wins(s, ops, n, j) && Wins(s, ops, n, k)
    ensures j == k
  {
  }

  /** The stored value and priority of a name, if it has a hint. */
  function Stored(w: World, n: string): Option<(Text, Priority)> {
    if Slot(w, n).Some? then Some((Slot(w, n).value.value, Slot(w, n).value.priority)) else None
  }

  /** What a step does to the stored value and priority of a name. */
  function Restored(s: Setting, stored: Option<(Text, Priority)>, op: Op, n: string): Option<(Text, Priority)> {
    if op == Clear then None
    else if Resets(op, n) then (if stored.Some? then Some((None, DEFAULT)) else None)
    else if Counts(s, op, n) && (stored == None || stored.value.1 <= op.priority) then Some((op.value, op.priority))
    else if op.Add? && op.name == Some(n) && n != "" && op.callback != 0 && stored == None then Some((None, DEFAULT))
    else stored
  }

  lemma StepStores(s: Setting, w: World, op: Op, n: string)
    requires UniqueNames(w.hints)
    ensures Stored(Step(s, w, op), n) == Restored(s, Stored(w, n), op, n)
  {
    hide SetHint, ResetAt, ResetFrom, DelCallback, AddCallback;
    match op
    case Set(name, value, priority) =>
      SetStores(s, w, name, value, priority, n);
    case Reset(name) =>
      if name.Some? && IndexOf(w.hints, name.value) < |w.hints| {
        ResetStores(s, w, IndexOf(w.hints, name.value), n);
      }
    case ResetAll =>
      ResetAllStores(s, w, 0, n);
    case Add(name, callback, userdata) =>
      AddStores(s, w, name, callback, userdata, n);
    case Del(name, x) =>
      DelStores(w, name, x, n);
    case Clear =>
  }

  lemma SetStores(s: Setting, w: World, name: Text, value: Text, priority: Priority, n: string)
    ensures Stored(SetHint(s, w, name, value, priority).0, n)
      == Restored(s, Stored(w, n), Set(name, value, priority), n)
  {
    hide Staying, NotesFor, IndexOf;
    if name.Some? && (s.env(name.value).Some? ==> priority == OVERRIDE) {
      var i := IndexOf(w.hints, name.value);
      if i == |w.hints| {
        IndexFront(Hint(name.value, value, priority, []), w.hints, n);
      } else if priority >= w.hints[i].priority {
        var w' := SetHint(s, w, name, value, priority).0;
        SlotChanged(w, i, w'.hints[i], w'.log, n);
      }
    }
  }

  lemma ResetStores(s: Setting, w: World, i: nat, n: string)
    requires i < |w.hints| && IndexOf(w.hints, w.hints[i].name) == i
    ensures Stored(ResetAt(s, w, i), n) == if n == w.hints[i].name then Some((None, DEFAULT)) else Stored(w, n)
  {
    hide Staying, NotesFor;
    SlotChanged(w, i, ResetAt(s, w, i).hints[i], ResetAt(s, w, i).log, n);
  }

  lemma {:induction false} ResetAllStores(s: Setting, w: World, i: nat, n: string)
    requires i <= |w.hints| && UniqueNames(w.hints)
    ensures Stored(ResetFrom(s, w, i), n)
      == if i <= IndexOf(w.hints, n) < |w.hints| then Some((None, DEFAULT)) else Stored(w, n)
    decreases |w.hints| - i
  {
    hide Staying, NotesFor;
    if i < |w.hints| {
      UniqueIndex(w.hints, i);
      ResetStores(s, w, i, n);
      SameNamesSameIndex(w.hints, ResetAt(s, w, i).hints, n);
      ResetAllStores(s, ResetAt(s, w, i), i + 1, n);
    }
  }

  lemma DelStores(w: World, name: string, x: Watcher, n: string)
    ensures Stored(DelCallback(w, name, x), n) == Stored(w, n)
  {
    var i := IndexOf(w.hints, name);
    if i < |w.hints| {
      SlotChanged(w, i, w.hints[i].(watchers := Without(w.hints[i].watchers, x)), w.log, n);
    }
  }

  lemma AddStores(s: Setting, w: World, name: Text, callback: nat, userdata: nat, n: string)
    ensures Stored(AddCallback(s, w, name, callback, userdata).0, n)
      == Restored(s, Stored(w, n), Add(name, callback, userdata), n)
  {
    hide DelCallback, AddWatcher, GetHint;
    if name.Some? && name.value != "" && callback != 0 {
      var x := Watcher(callback, userdata);
      var d := DelCallback(w, name.value, x);
      DelStores(w, name.value, x, n);
      AddWatcherSlot(d, name.value, x, n);
      var hs := AddWatcher(d.hints, name.value, x);
      var value := GetHint(s, World(hs, w.log), name.value);
      DelStores(World(hs, w.log + [Note(name.value, x, value, value)]), name.value, x, n);
    }
  }

  /** The hint of a name holds the winner's value and priority, or nothing. */
  lemma {:induction false} WinnerIsStored(s: Setting, ops: seq<Op>, n: string)
    ensures var k := Winner(s, ops, n);
      if k.Some? then Stored(Run(s, ops), n) == Some((ops[k.value].value, ops[k.value].priority))
      else Stored(Run(s, ops), n) == None || Stored(Run(s, ops), n) == Some((None, DEFAULT))
  {
    hide Step, Stored, UniqueNames, Sane;
    if ops == [] {
      EmptyStoresNothing(n);
    } else {
      var before := ops[..|ops| - 1];
      WinnerIsStored(s, before, n);
      RunIsSane(s, before, n);
      StepStores(s, Run(s, before), ops[|ops| - 1], n);
    }
  }

  lemma EmptyStoresNothing(n: string)
    ensures Stored(World([], []), n) == None
  {
  }

  /** After any run, SDL_GetHint returns the value of the latest set call since the last reset that
      no other outranks; when there is none, it returns what the environment says. */
  lemma GetHintIsTheWinner(s: Setting, ops: seq<Op>, n: string)
    ensures forall k :: Wins(s, ops, n, k) ==> GetHint(s, Run(s, ops), n) == ops[k].value
    ensures (forall k :: !InForce(s, ops, n, k)) ==> GetHint(s, Run(s, ops), n) == s.env(n)
    ensures (exists k :: InForce(s, ops, n, k)) ==> exists k :: Wins(s, ops, n, k)
  {
    WinnerWins(s, ops, n);
    WinnerIsStored(s, ops, n);
    hide Run, IndexOf;
    var w := Winner(s, ops, n);
    if w.Some? {
      forall k | Wins(s, ops, n, k) ensures k == w.value {
        OneWinner(s, ops, n, k, w.value);
      }
    }
  }
}
