/** When the calls of src/SDL_hints.c succeed, in terms of the calls made before, and what
    registering a watcher does. */
module HintAnswers {
  import opened Wrappers
  import opened Sequences
  import opened HintModel
  import opened HintLaws

  // ---------- setting ----------

  lemma SlotIs(w: World, n: string)
    ensures Slot(w, n) == None <==> IndexOf(w.hints, n) == |w.hints|
    ensures Slot(w, n).Some? ==> Slot(w, n).value == w.hints[IndexOf(w.hints, n)]
  {
  }

  /** Whether a set call succeeds, by the stored priority only. */
  lemma SetAnswer(s: Setting, w: World, n: string, value: Text, priority: Priority)
    ensures SetHint(s, w, Some(n), value, priority).1 <==>
      && Counts(s, Set(Some(n), value, priority), n)
      && (Stored(w, n).Some? ==> Stored(w, n).value.1 <= priority)
  {
    SlotIs(w, n);
    hide Notified, IndexOf;
  }

  /** The last call wins exactly when it counts and the winner before does not outrank it. */
  lemma LastWins(s: Setting, ops: seq<Op>, n: string, op: Op)
    ensures var k := Winner(s, ops, n);
      Wins(s, ops + [op], n, |ops|) <==>
        !Resets(op, n) && Counts(s, op, n) && (k.Some? ==> ops[k.value].priority <= op.priority)
  {
    var all := ops + [op];
    assert all[..|all| - 1] == ops && all[|ops|] == op;
    WinnerWins(s, all, n);
    if Wins(s, all, n, |ops|) {
      OneWinner(s, all, n, |ops|, Winner(s, all, n).value);
    }
  }

  /** In every reachable world a set call succeeds if and only if it becomes the winner. */
  lemma SetSucceedsIffItWins(s: Setting, ops: seq<Op>, n: string, value: Text, priority: Priority)
    ensures SetHint(s, Run(s, ops), Some(n), value, priority).1 <==>
      Wins(s, ops + [Set(Some(n), value, priority)], n, |ops|)
  {
    SetAnswer(s, Run(s, ops), n, value, priority);
    LastWins(s, ops, n, Set(Some(n), value, priority));
    WinnerIsStored(s, ops, n);
    hide Run, SetHint, Wins, Winner, Stored, Counts;
  }

  // ---------- which names have a hint ----------

  /** A call that creates the hint `n` if there is none. */
  predicate Makes(s: Setting, op: Op, n: string) {
    Counts(s, op, n) || (op.Add? && op.name == Some(n) && n != "" && op.callback != 0)
  }

  /** `ops[k]` made the hint, or found it, and the hints were not cleared since. */
  ghost predicate Made(s: Setting, ops: seq<Op>, n: string, k: int) {
    0 <= k < |ops| && Makes(s, ops[k], n) && forall j :: k < j < |ops| ==> ops[j] != Clear
  }

  lemma MadeGrows(s: Setting, ops: seq<Op>, n: string, k: int)
    requires ops != []
    ensures var last := |ops| - 1;
      Made(s, ops, n, k) <==>
        if k == last then Makes(s, ops[last], n) else Made(s, ops[..last], n, k) && ops[last] != Clear
  {
    var last := |ops| - 1;
    hide Makes;
    if 0 <= k < last {
      assert ops[..last][k] == ops[k];
      assert forall j :: k < j < last ==> ops[..last][j] == ops[j];
    }
  }

  lemma StoredThere(s: Setting, w: World, op: Op, n: string)
    requires UniqueNames(w.hints)
    ensures Stored(Step(s, w, op), n).Some? <==> op != Clear && (Stored(w, n).Some? || Makes(s, op, n))
  {
    StepStores(s, w, op, n);
    hide Step, Stored, UniqueNames;
  }

  /** After any run a name has a hint if and only if an accepted set call or a registration made it
      and the hints were not cleared since. */
  lemma {:induction false} ThereIffMade(s: Setting, ops: seq<Op>, n: string)
    ensures Slot(Run(s, ops), n).Some? <==> exists k :: Made(s, ops, n, k)
  {
    if ops == [] {
      EmptyStoresNothing(n);
    } else {
      var last := |ops| - 1;
      ThereIffMade(s, ops[..last], n);
      RunIsSane(s, ops[..last], n);
      StoredThere(s, Run(s, ops[..last]), ops[last], n);
      forall k
        ensures Made(s, ops, n, k) <==>
          if k == last then Makes(s, ops[last], n) else Made(s, ops[..last], n, k) && ops[last] != Clear
      {
        MadeGrows(s, ops, n, k);
      }
      assert !Makes(s, Clear, n);
      hide Made, Makes, Step, Slot, UniqueNames, Sane;
      assert Made(s, ops, n, last) <==> Makes(s, ops[last], n);
    }
  }

  // ---------- answers ----------

  /** What a call returns; the calls without a result count as successful. */
  function Answer(s: Setting, w: World, op: Op): bool {
    match op
    case Set(name, value, priority) => SetHint(s, w, name, value, priority).1
    case Reset(name) => ResetHint(s, w, name).1
    case Add(name, callback, userdata) => AddCallback(s, w, name, callback, userdata).1
    case _ => true
  }

  /** The `k`-th call of a run should return `ok`: a set call succeeds exactly when it wins, a reset
      when an earlier call made the hint, a registration when its arguments are usable. */
  ghost predicate RightAnswer(s: Setting, ops: seq<Op>, k: nat, ok: bool)
    requires k < |ops|
  {
    match ops[k]
    case Set(name, _, _) => ok <==> name.Some? && Wins(s, ops[..k + 1], name.value, k)
    case Reset(name) => ok <==> name.Some? && exists j :: Made(s, ops[..k], name.value, j)
    case Add(name, callback, _) => ok <==> name.Some? && name.value != "" && callback != 0
    case _ => ok
  }

  lemma AnswersAreRight(s: Setting, ops: seq<Op>, k: nat)
    requires k < |ops|
    ensures RightAnswer(s, ops, k, Answer(s, Run(s, ops[..k]), ops[k]))
  {
    var before := ops[..k];
    assert before + [ops[k]] == ops[..k + 1];
    match ops[k]
    case Set(name, value, priority) =>
      if name.Some? {
        SetSucceedsIffItWins(s, before, name.value, value, priority);
      }
    case Reset(name) =>
      if name.Some? {
        ThereIffMade(s, before, name.value);
        SlotIs(Run(s, before), name.value);
      }
    case _ =>
  }

  // ---------- registering ----------

  /** The watchers of a name, newest first. */
  function Watching(w: World, n: string): seq<Watcher> {
    if Slot(w, n).Some? then Slot(w, n).value.watchers else []
  }

  lemma DelSlot(w: World, name: string, x: Watcher, n: string)
    ensures var w' := DelCallback(w, name, x);
      && w'.log == w.log
      && Slot(w', n) == if n == name && Slot(w, n).Some? then
                          Some(Slot(w, n).value.(watchers := Without(Slot(w, n).value.watchers, x)))
                        else Slot(w, n)
  {
    var i := IndexOf(w.hints, name);
    if i < |w.hints| {
      SlotChanged(w, i, w.hints[i].(watchers := Without(w.hints[i].watchers, x)), w.log, n);
    }
  }

  lemma SlotDecidesGet(s: Setting, w: World, u: World, n: string)
    requires Slot(w, n) == Slot(u, n)
      || (Slot(u, n).Some? && Slot(w, n) == None && Slot(u, n).value.value == None
          && Slot(u, n).value.priority == DEFAULT)
      || (Slot(w, n).Some? && Slot(u, n).Some? && Slot(w, n).value.value == Slot(u, n).value.value
          && Slot(w, n).value.priority == Slot(u, n).value.priority)
    ensures GetHint(s, w, n) == GetHint(s, u, n)
  {
    SlotIs(w, n);
    SlotIs(u, n);
    hide IndexOf;
  }

  /** In every reachable world a registration with usable arguments succeeds and calls the new watcher
      once, with the value SDL_GetHint returns as old and as new value. Then it is the newest watcher,
      an earlier registration of it being gone, unless it quit at that call. The other watchers stay,
      no value changes, and no other name is touched. */
  lemma AddRegisters(s: Setting, ops: seq<Op>, n: string, callback: nat, userdata: nat)
    requires n != "" && callback != 0
    ensures var w, x := Run(s, ops), Watcher(callback, userdata);
      var (w', ok) := AddCallback(s, w, Some(n), callback, userdata);
      var v := GetHint(s, w, n);
      && ok && w'.log == w.log + [Note(n, x, v, v)] && Slot(w', n).Some?
      && Watching(w', n) == (if s.quits(w'.log) then [] else [x]) + Without(Watching(w, n), x)
      && (forall y :: y in Without(Watching(w, n), x) <==> y in Watching(w, n) && y != x)
      && GetHint(s, w', n) == v
      && forall m :: m != n ==> Slot(w', m) == Slot(w, m)
  {
    var w, x := Run(s, ops), Watcher(callback, userdata);
    RunIsSane(s, ops, n);
    assert Distinct(Watching(w, n)) by {
      NothingTwice();
    }
    WithoutIs(Watching(w, n), x);
    var d := DelCallback(w, n, x);
    var hs := AddWatcher(d.hints, n, x);
    var u := World(hs, w.log);
    var v := GetHint(s, u, n);
    var told := World(hs, w.log + [Note(n, x, v, v)]);
    forall m
      ensures Slot(d, m) == if m == n && Slot(w, m).Some? then
                              Some(Slot(w, m).value.(watchers := Without(Slot(w, m).value.watchers, x)))
                            else Slot(w, m)
      ensures Slot(u, m) == if m != n then Slot(d, m)
                            else if Slot(d, m).Some? then
                              Some(Slot(d, m).value.(watchers := [x] + Slot(d, m).value.watchers))
                            else Some(Hint(n, None, DEFAULT, [x]))
      ensures Slot(told, m) == Slot(u, m)
    {
      DelSlot(w, n, x, m);
      AddWatcherSlot(d, n, x, m);
      SameHints(u, told, m);
    }
    DelSlot(w, n, x, n);
    WithoutFront(x, Without(Watching(w, n), x));
    forall m
      ensures var q := DelCallback(told, n, x);
        Slot(q, m) == if m == n && Slot(told, m).Some? then
                        Some(Slot(told, m).value.(watchers := Without(Slot(told, m).value.watchers, x)))
                      else Slot(told, m)
    {
      DelSlot(told, n, x, m);
    }
    DelSlot(told, n, x, n);
    hide Run, Slot, GetHint, DelCallback, AddWatcher, Without, Distinct, Sane, UniqueNames;
    SlotDecidesGet(s, w, u, n);
    SlotDecidesGet(s, w, AddCallback(s, w, Some(n), callback, userdata).0, n);
  }

  lemma SameHints(w: World, u: World, n: string)
    requires w.hints == u.hints
    ensures Slot(w, n) == Slot(u, n)
  {
  }

  lemma WithoutFront(x: Watcher, ws: seq<Watcher>)
    ensures Without([x] + ws, x) == ws
  {
    assert ([x] + ws)[1..] == ws;
  }

  /** In every reachable world an unregistration takes out exactly that watcher of that name, and
      calls nobody. */
  lemma DelUnregisters(s: Setting, ops: seq<Op>, n: string, x: Watcher)
    ensures var w := Run(s, ops);
      var w' := DelCallback(w, n, x);
      && w'.log == w.log
      && Watching(w', n) == Without(Watching(w, n), x)
      && (forall y :: y in Watching(w', n) <==> y in Watching(w, n) && y != x)
      && GetHint(s, w', n) == GetHint(s, w, n)
      && forall m :: m != n ==> Slot(w', m) == Slot(w, m)
  {
    var w := Run(s, ops);
    RunIsSane(s, ops, n);
    assert Distinct(Watching(w, n)) by {
      NothingTwice();
    }
    WithoutIs(Watching(w, n), x);
    forall m
      ensures var w' := DelCallback(w, n, x);
        && w'.log == w.log
        && Slot(w', m) == if m == n && Slot(w, m).Some? then
                            Some(Slot(w, m).value.(watchers := Without(Slot(w, m).value.watchers, x)))
                          else Slot(w, m)
    {
      DelSlot(w, n, x, m);
    }
    hide Run, Slot, GetHint, DelCallback, Distinct, Sane, UniqueNames;
    SlotDecidesGet(s, w, DelCallback(w, n, x), n);
  }
}
