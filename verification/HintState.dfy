/** src/SDL_hints.c on its global linked list, proved against the machine of HintModel. */
module HintState {
  import opened Wrappers
  import opened HintModel
  import opened HintNodes
  import L = HintLaws

  ghost function NodeAt(s: seq<Node>, i: nat): Node? {
    if i < |s| then s[i] else null
  }

  lemma FrontNode(h: Node, s: seq<Node>, j: nat)
    ensures NodeAt([h] + s, j) == if j == 0 then h else NodeAt(s, j - 1)
  {
  }

  class HintStore {
    const setting: Setting
    /** SDL_hints. */
    var hints: Node?
    /** Every call of a watcher so far. */
    var log: seq<Note>
    ghost var list: seq<Node>
    ghost var Repr: set<object>

    ghost predicate NodeOK(h: Node)
      reads this`Repr, h, h.watches
    {
      h in Repr && h.watches <= Repr && h.Valid()
    }

    /** The nodes of the list are linked, and no two share a name. */
    ghost predicate ListOK()
      reads this`hints, this`list, list
    {
      && hints == NodeAt(list, 0)
      && (forall i :: 0 <= i < |list| ==> list[i].next == NodeAt(list, i + 1))
      && (forall i, j :: 0 <= i < j < |list| ==> list[i].name != list[j].name)
    }

    ghost predicate Valid()
      reads this, Repr
    {
      && this in Repr
      && (forall i :: 0 <= i < |list| ==> list[i] in Repr && list[i].watches <= Repr)
      && ListOK()
      && (forall i :: 0 <= i < |list| ==> NodeOK(list[i]))
    }

    ghost function Hints(): (hs: seq<Hint>)
      reads this`list, list
      ensures |hs| == |list| && forall i :: 0 <= i < |list| ==> hs[i] == list[i].Value()
    {
      var l := list;
      seq(|l|, i requires 0 <= i < |l| reads l => l[i].Value())
    }

    /** The world this state stands for. */
    ghost function State(): World
      reads this, list
    {
      World(Hints(), log)
    }

    constructor (setting: Setting)
      ensures Valid() && fresh(Repr) && State() == World([], []) && this.setting == setting
    {
      this.setting := setting;
      hints, log, list, Repr := null, [], [], {this};
    }

    /** The search loop of every operation. */
    method FindHint(name: string) returns (hint: Node?, ghost i: nat)
      requires Valid()
      ensures i == IndexOf(Hints(), name) && hint == NodeAt(list, i)
      ensures i < |list| ==> hint.name == name
    {
      hint, i := hints, 0;
      while hint != null && name != hint.name
        invariant i <= |list| && hint == NodeAt(list, i)
        invariant forall j :: 0 <= j < i ==> list[j].name != name
        decreases |list| - i
      {
        hint := hint.next;
        i := i + 1;
      }
      L.IndexIs(Hints(), name, i);
    }

    /** Only hint `i` and its watches may change in a step, and neither its name nor its place does. */
    lemma OneHint(hs: seq<Hint>, i: nat, h: Hint)
      requires i < |list| && |hs| == |list| && list[i].Value() == h
      requires forall j :: 0 <= j < |list| && j != i ==> list[j].Value() == hs[j]
      ensures Hints() == hs[i := h]
    {
    }

    /** Two hints have no watch in common. */
    lemma ChainsApart(i: nat)
      requires Valid() && i < |list|
      ensures list[i].Valid()
      ensures forall j :: 0 <= j < |list| && j != i ==> list[j] != list[i]
      ensures forall j :: 0 <= j < |list| && j != i ==> list[j].watches !! list[i].watches
    {
    }

    lemma IsValid()
      requires this in Repr && ListOK() && forall i :: 0 <= i < |list| ==> NodeOK(list[i])
      ensures Valid()
    {
    }

    lemma NodeIs(h: Node)
      requires h in Repr && h.watches <= Repr && h.Valid()
      ensures NodeOK(h)
    {
    }

    /** More objects belong to the store, and the node is as it was. */
    twostate lemma StillOK(h: Node)
      requires old(NodeOK(h)) && unchanged(h) && old(Repr) <= Repr
      requires forall w :: w in h.watches ==> unchanged(w)
      ensures NodeOK(h)
    {
    }

    /** The invariant again, after a step that wrote to one hint only and did not unlink it. */
    twostate lemma StaysValid(new i: nat)
      requires old(Valid()) && i < |list|
      requires this in Repr && old(Repr) <= Repr
      requires list == old(list) && hints == old(hints) && list[i].next == old(list[i].next)
      requires forall j :: 0 <= j < |list| && j != i ==> unchanged(list[j])
      requires forall j, w :: 0 <= j < |list| && j != i && w in list[j].watches ==> unchanged(w)
      requires NodeOK(list[i])
      ensures Valid()
    {
      hide Node.Valid;
      forall j | 0 <= j < |list| ensures NodeOK(list[j]) {
        if j != i {
          StillOK(list[j]);
        }
      }
      IsValid();
    }

    /** SDL_DelHintCallback. */
    method DelHintCallback(name: string, callback: nat, userdata: nat)
      requires Valid()
      modifies Repr
      ensures Valid() && Repr == old(Repr) && list == old(list) && log == old(log)
      ensures State() == DelCallback(old(State()), name, Watcher(callback, userdata))
    {
      hide Node.Valid, Node.Value, Without, IndexOf, NodeOK, Hints, ListOK;
      var hint, i := FindHint(name);
      if hint != null {
        UnlinkAt(hint, i, callback, userdata);
      }
    }

    /** The part of SDL_DelHintCallback after the hint was found. */
    method UnlinkAt(hint: Node, ghost i: nat, callback: nat, userdata: nat)
      requires Valid() && i < |list| && hint == list[i]
      modifies hint`callbacks, hint`chain, hint.watches
      ensures Valid()
      ensures hint.chain == Cut(old(hint.chain), Watcher(callback, userdata))
      ensures Hints() == old(Hints())[i := old(hint.Value())
        .(watchers := Without(old(hint.Value()).watchers, Watcher(callback, userdata)))]
    {
      hide Node.Valid, Node.Value, Without, IndexOf, NodeOK, ListOK, Hints, Cut, Ids, Within;
      ChainsApart(i);
      hint.Unlink(callback, userdata);
      NodeIs(hint);
      StaysValid(i);
      OneHint(old(Hints()), i, hint.Value());
    }

    /** One call of a watcher, which may unregister itself. */
    method Call(hint: Node, ghost i: nat, entry: Watch, ghost m: nat, oldValue: Text, newValue: Text)
      requires Valid() && i < |list| && hint == list[i] && m < |hint.chain| && entry == hint.chain[m]
      modifies this`log, hint`callbacks, hint`chain, hint.watches
      ensures Valid() && log == old(log) + [Note(hint.name, IdOf(entry), oldValue, newValue)]
      ensures hint.chain ==
        if setting.quits(log) then old(hint.chain)[..m] + old(hint.chain)[m + 1..] else old(hint.chain)
      ensures Hints() == old(Hints())[i := old(hint.Value()).(watchers := Ids(hint.chain))]
    {
      hide Node.Valid, Without, IndexOf, NodeOK, ListOK, Hints, Cut, Within;
      ChainsApart(i);
      log := log + [Note(hint.name, Watcher(entry.callback, entry.userdata), oldValue, newValue)];
      if setting.quits(log) {
        DistinctChain(i);
        CutAt(hint.chain, IdOf(entry), m);
        CutIds(hint.chain, IdOf(entry));
        var found, j := FindHint(hint.name);
        SameHint(i, j);
        UnlinkAt(found, j, entry.callback, entry.userdata);
      }
    }

    lemma SameHint(i: nat, j: nat)
      requires Valid() && i < |list| && j == IndexOf(Hints(), list[i].name)
      ensures j == i
    {
      L.IndexIs(Hints(), list[i].name, i);
    }

    lemma DistinctChain(i: nat)
      requires Valid() && i < |list|
      ensures forall j, k :: 0 <= j < k < |list[i].chain| ==> IdOf(list[i].chain[j]) != IdOf(list[i].chain[k])
    {
    }

    /** The body of the notification loop: `next` is saved before the watcher is called. `c` is the
        chain the loop started on, of which `c[n]` is being told and `kept` is what stayed so far. */
    method NotifyOne(hint: Node, ghost i: nat, entry: Watch, oldValue: Text, newValue: Text,
        ghost c: seq<Watch>, ghost n: nat, ghost kept: seq<Watch>, ghost hs: seq<Hint>, ghost h: Hint)
      returns (next: Watch?, ghost now: seq<Watch>)
      requires Valid() && i < |list| && hint == list[i] && i < |hs|
      requires n < |c| && entry == c[n] && hint.chain == kept + c[n..]
      requires Hints() == hs[i := h.(watchers := Ids(hint.chain))]
      modifies this`log, hint`callbacks, hint`chain, hint.watches
      ensures Valid() && log == old(log) + [Note(hint.name, IdOf(entry), oldValue, newValue)]
      ensures next == WatchAt(c, n + 1)
      ensures now == if setting.quits(log) then kept else kept + [c[n]]
      ensures hint.chain == now + c[n + 1..]
      ensures Hints() == hs[i := h.(watchers := Ids(hint.chain))]
    {
      hide Node.Valid, Node.Value, IndexOf, NodeOK, ListOK, Valid, Hints, Within, Ids;
      ChainStep(kept, c, n);
      NextWatch(i, |kept|);
      FirstWatch(i);
      next := entry.next;
      Call(hint, i, entry, |kept|, oldValue, newValue);
      now := if setting.quits(log) then kept else kept + [c[n]];
    }

    /** The notification loop of SDL_SetHintWithPriority, SDL_ResetHint and SDL_ResetHints. */
    method Notify(hint: Node, ghost i: nat, oldValue: Text, newValue: Text)
      requires Valid() && i < |list| && hint == list[i]
      modifies this`log, hint`callbacks, hint`chain, hint.watches
      ensures Valid()
      ensures var h := old(hint.Value());
        var notes := NotesFor(h.watchers, h.name, oldValue, newValue);
        && log == old(log) + notes
        && Hints() == old(Hints())[i := h.(watchers := Staying(setting, h.watchers, old(log), notes))]
    {
      hide *;
      ghost var c := hint.chain;
      ghost var h, hs, r := hint.Value(), Hints(), Round(setting, hint.chain, hint.name, oldValue, newValue, log);
      ghost var n := 0;
      ghost var kept: seq<Watch> := [];
      NodeParts(hint);
      FirstWatch(i);
      r.Begins();
      assert hs[i := h.(watchers := Ids(c))] == hs;
      var entry := hint.callbacks;
      WatchIs(entry, c, 0);
      while entry != null
        invariant n <= |c| && (entry != null <==> n < |c|) && (n < |c| ==> entry == c[n])
        invariant Valid() && r.At(n, kept, log, hint.chain)
        invariant Hints() == hs[i := h.(watchers := Ids(hint.chain))]
        decreases |c| - n
      {
        r.Splits(n, kept, log, hint.chain);
        r.Goes(n, kept, log, hint.chain);
        entry, kept := NotifyOne(hint, i, entry, oldValue, newValue, c, n, kept, hs, h);
        WatchIs(entry, c, n + 1);
        n := n + 1;
      }
      r.Ends(kept, log, hint.chain);
    }

    lemma FirstWatch(i: nat)
      requires Valid() && i < |list|
      ensures list[i].callbacks == WatchAt(list[i].chain, 0)
      ensures Hints()[i] == list[i].Value()
    {
    }

    lemma NextWatch(i: nat, m: nat)
      requires Valid() && i < |list| && m < |list[i].chain|
      ensures list[i].chain[m].next == WatchAt(list[i].chain, m + 1)
    {
    }

    // ---------- setting and resetting ----------

    /** Storing a value and a priority in a hint. */
    method Store(hint: Node, ghost i: nat, value: Text, priority: Priority)
      requires Valid() && i < |list| && hint == list[i]
      modifies hint`value, hint`priority
      ensures Valid()
      ensures Hints() == old(Hints())[i := old(hint.Value()).(value := value, priority := priority)]
    {
      hide Node.Valid, Node.Value, IndexOf, NodeOK, ListOK, Hints, Within, Ids;
      ChainsApart(i);
      hint.Store(value, priority);
      NodeIs(hint);
      StaysValid(i);
      OneHint(old(Hints()), i, hint.Value());
    }

    lemma NewName(name: string)
      requires Valid() && IndexOf(Hints(), name) == |list|
      ensures forall i :: 0 <= i < |list| ==> list[i].name != name
    {
      forall i | 0 <= i < |list| ensures list[i].name != name {
        assert Hints()[i].name == list[i].name;
      }
    }

    /** The list with a node in front of another list. */
    lemma FrontIsValid(hint: Node, s: seq<Node>)
      requires this in Repr && list == [hint] + s && hints == hint && hint.next == NodeAt(s, 0) && NodeOK(hint)
      requires forall i :: 0 <= i < |s| ==> NodeOK(s[i]) && s[i].next == NodeAt(s, i + 1) && s[i].name != hint.name
      requires forall i, j :: 0 <= i < j < |s| ==> s[i].name != s[j].name
      ensures Valid()
    {
      hide NodeOK, NodeAt;
      forall i: nat ensures NodeAt(list, i) == if i == 0 then hint else NodeAt(s, i - 1) {
        FrontNode(hint, s, i);
      }
      assert forall i :: 0 <= i < |list| ==> list[i] == if i == 0 then hint else s[i - 1];
      forall i | 0 <= i < |list| ensures list[i].next == NodeAt(list, i + 1) {
      }
      forall i | 0 <= i < |list| ensures NodeOK(list[i]) {
      }
      IsValid();
    }

    /** A new hint at the head of the list. */
    method NewHint(name: string, value: Text, priority: Priority) returns (hint: Node)
      requires Valid() && IndexOf(Hints(), name) == |list|
      modifies this`hints, this`list, this`Repr
      ensures Valid() && fresh(hint) && Repr == old(Repr) + {hint} && list == [hint] + old(list)
      ensures Hints() == [Hint(name, value, priority, [])] + old(Hints())
    {
      hide Node.Valid, NodeOK, Hints, Within, Ids, Node.Value, IndexOf, NodeAt;
      NewName(name);
      hint := new Node(name, value, priority, hints);
      hints := hint;
      list := [hint] + list;
      Repr := Repr + {hint};
      NodeIs(hint);
      ghost var s := old(list);
      forall i | 0 <= i < |s| ensures NodeOK(s[i]) {
        StillOK(s[i]);
      }
      FrontIsValid(hint, s);
    }

    /** SDL_SetHintWithPriority. */
    method SetHintWithPriority(name: Text, value: Text, priority: Priority) returns (ok: bool)
      requires Valid()
      modifies Repr
      ensures Valid() && old(Repr) <= Repr && fresh(Repr - old(Repr))
      ensures (State(), ok) == HintModel.SetHint(setting, old(State()), name, value, priority)
    {
      hide Node.Valid, Node.Value, IndexOf, NodeOK, ListOK, Hints, Within, Ids, Staying, NotesFor;
      if name == None {
        return false;
      }
      var env := setting.env(name.value);
      if env.Some? && priority < OVERRIDE {
        return false;
      }
      var hint, i := FindHint(name.value);
      if hint != null {
        FirstWatch(i);
        NodeParts(hint);
        if priority < hint.priority {
          return false;
        }
        SetNode(hint, i, value, priority);
        return true;
      }
      hint := NewHint(name.value, value, priority);
      return true;
    }

    /** SDL_SetHintWithPriority on a hint that exists and does not outrank the call. */
    method SetNode(hint: Node, ghost i: nat, value: Text, priority: Priority)
      requires Valid() && i < |list| && hint == list[i]
      modifies this`log, hint`callbacks, hint`chain, hint`value, hint`priority, hint.watches
      ensures Valid()
      ensures var w := old(State());
        State() == if w.hints[i].value != value then Notified(setting, w, i, value, value, priority)
                   else World(w.hints[i := w.hints[i].(priority := priority)], w.log)
    {
      hide Node.Valid, Node.Value, IndexOf, NodeOK, ListOK, Hints, Within, Ids, Staying, NotesFor;
      FirstWatch(i);
      NodeParts(hint);
      if hint.value != value {
        var oldValue := hint.value;
        Store(hint, i, value, hint.priority);
        FirstWatch(i);
        Notify(hint, i, oldValue, value);
        FirstWatch(i);
        NodeParts(hint);
      }
      Store(hint, i, value, priority);
    }

    lemma NodeParts(h: Node)
      ensures var v := h.Value(); v.name == h.name && v.value == h.value && v.priority == h.priority
      ensures h.Value().watchers == Ids(h.chain)
    {
    }

    /** SDL_SetHint. */
    method SetHint(name: Text, value: Text) returns (ok: bool)
      requires Valid()
      modifies Repr
      ensures Valid() && old(Repr) <= Repr && fresh(Repr - old(Repr))
      ensures (State(), ok) == HintModel.SetHint(setting, old(State()), name, value, NORMAL)
    {
      ok := SetHintWithPriority(name, value, NORMAL);
    }

    /** The body that SDL_ResetHint and SDL_ResetHints share. */
    method ResetNode(hint: Node, ghost i: nat)
      requires Valid() && i < |list| && hint == list[i]
      modifies this`log, hint`callbacks, hint`chain, hint`value, hint`priority, hint.watches
      ensures Valid()
      ensures State() == ResetAt(setting, old(State()), i)
    {
      hide Node.Valid, Node.Value, IndexOf, NodeOK, ListOK, Hints, Within, Ids, Staying, NotesFor;
      var env := setting.env(hint.name);
      FirstWatch(i);
      NodeParts(hint);
      if (env == None && hint.value.Some?) || (env.Some? && hint.value == None)
        || (env.Some? && env.value != hint.value.value)
      {
        Notify(hint, i, hint.value, env);
        FirstWatch(i);
      }
      Store(hint, i, None, DEFAULT);
    }

    /** SDL_ResetHint. */
    method ResetHint(name: Text) returns (ok: bool)
      requires Valid()
      modifies Repr
      ensures Valid() && Repr == old(Repr)
      ensures (State(), ok) == HintModel.ResetHint(setting, old(State()), name)
    {
      hide Node.Valid, Node.Value, IndexOf, NodeOK, ListOK, Hints, Within, Ids, ResetAt;
      if name == None {
        return false;
      }
      var hint, i := FindHint(name.value);
      if hint != null {
        ResetNode(hint, i);
        return true;
      }
      return false;
    }

    /** SDL_ResetHints. */
    method ResetHints()
      requires Valid()
      modifies Repr
      ensures Valid() && Repr == old(Repr)
      ensures State() == ResetFrom(setting, old(State()), 0)
    {
      hide Node.Valid, Node.Value, IndexOf, NodeOK, Hints, Within, Ids, ResetAt;
      var hint := hints;
      ghost var i := 0;
      while hint != null
        invariant Valid() && Repr == old(Repr) && list == old(list)
        invariant i <= |list| && hint == NodeAt(list, i)
        invariant ResetFrom(setting, State(), i) == ResetFrom(setting, old(State()), 0)
        decreases |list| - i
      {
        ResetNode(hint, i);
        hint := hint.next;
        i := i + 1;
      }
    }

    /** SDL_GetHint. */
    method GetHint(name: string) returns (value: Text)
      requires Valid()
      ensures value == HintModel.GetHint(setting, State(), name)
    {
      hide Node.Valid, IndexOf, NodeOK, ListOK, Hints, Within, Ids;
      var env := setting.env(name);
      var hint, i := FindHint(name);
      if hint != null {
        FirstWatch(i);
        if env == None || hint.priority == OVERRIDE {
          return hint.value;
        }
      }
      return env;
    }

    // ---------- registering and clearing ----------

    /** A new watch at the head of a hint's chain. */
    method PushWatch(hint: Node, ghost i: nat, callback: nat, userdata: nat) returns (entry: Watch)
      requires Valid() && i < |list| && hint == list[i]
      requires Watcher(callback, userdata) !in hint.Value().watchers
      modifies this`Repr, hint`callbacks, hint`chain, hint`watches
      ensures Valid() && fresh(entry) && Repr == old(Repr) + {entry}
      ensures hint.chain == [entry] + old(hint.chain) && IdOf(entry) == Watcher(callback, userdata)
      ensures hint.watches == old(hint.watches) + {entry}
      ensures Hints() == old(Hints())[i := old(hint.Value())
        .(watchers := [Watcher(callback, userdata)] + old(hint.Value()).watchers)]
    {
      hide Node.Valid, Node.Value, IndexOf, NodeOK, ListOK, Hints, Within, Ids;
      ChainsApart(i);
      NodeParts(hint);
      NotInChain(hint.chain, Watcher(callback, userdata));
      entry := new Watch(callback, userdata, hint.callbacks, hint.name);
      hint.Push(entry);
      NodeParts(hint);
      IdsSplit(entry, old(hint.chain));
      Repr := Repr + {entry};
      NodeIs(hint);
      StaysValid(i);
      OneHint(old(Hints()), i, hint.Value());
    }

    /** The hint called `name`, created when there is none. */
    method HintFor(name: string) returns (hint: Node, ghost i: nat)
      requires Valid()
      modifies this`hints, this`list, this`Repr
      ensures Valid() && old(Repr) <= Repr && fresh(Repr - old(Repr))
      ensures i == IndexOf(Hints(), name) && i < |list| && hint == list[i]
      ensures var hs := old(Hints());
        Hints() == if IndexOf(hs, name) == |hs| then [Hint(name, None, DEFAULT, [])] + hs else hs
    {
      hide Node.Valid, Node.Value, IndexOf, NodeOK, ListOK, Hints, Within, Ids;
      var found;
      found, i := FindHint(name);
      if found == null {
        L.IndexFront(Hint(name, None, DEFAULT, []), Hints(), name);
        hint := NewHint(name, None, DEFAULT);
        i := 0;
      } else {
        hint := found;
      }
    }

    lemma NotThere(i: nat, x: Watcher)
      requires Valid() && i < |list|
      ensures x !in Without(list[i].Value().watchers, x)
    {
      hide Without;
      L.WithoutIs(list[i].Value().watchers, x);
    }

    /** SDL_AddHintCallback up to the point where the new watcher is called. */
    method Register(name: string, callback: nat, userdata: nat) returns (hint: Node, ghost i: nat, entry: Watch)
      requires Valid()
      modifies Repr
      ensures Valid() && old(Repr) <= Repr && fresh(Repr - old(Repr))
      ensures i == IndexOf(Hints(), name) && i < |list| && hint == list[i] && hint.name == name
      ensures hint.chain != [] && hint.chain[0] == entry && IdOf(entry) == Watcher(callback, userdata)
      ensures hint in Repr && hint.watches <= Repr
      ensures var x := Watcher(callback, userdata);
        State() == World(AddWatcher(DelCallback(old(State()), name, x).hints, name, x), old(log))
    {
      hide Node.Valid, Node.Value, IndexOf, NodeOK, ListOK, Hints, Within, Ids, Without;
      ghost var x := Watcher(callback, userdata);
      ghost var hs := Hints();
      forall j | 0 <= j < |list| ensures x !in Without(hs[j].watchers, x) {
        NotThere(j, x);
        FirstWatch(j);
      }
      DelHintCallback(name, callback, userdata);
      Unregistered(hs, name, x);
      hint, i := HintFor(name);
      ghost var fs := Hints();
      FirstWatch(i);
      NodeParts(hint);
      AddWatcherIs(DelCallback(old(State()), name, x).hints, fs, i, name, x);
      entry := PushWatch(hint, i, callback, userdata);
      L.IndexKept(fs, i, Hints()[i], name);
      ChainsApart(i);
    }

    /** SDL_AddHintCallback. */
    method AddHintCallback(name: Text, callback: nat, userdata: nat) returns (ok: bool)
      requires Valid()
      modifies Repr
      ensures Valid() && old(Repr) <= Repr && fresh(Repr - old(Repr))
      ensures (State(), ok) == AddCallback(setting, old(State()), name, callback, userdata)
    {
      hide Node.Valid, IndexOf, NodeOK, ListOK, Hints, Within, Ids, AddWatcher, HintModel.GetHint;
      if name == None || name.value == "" {
        return false;
      }
      if callback == 0 {
        return false;
      }
      var hint, i, entry := Register(name.value, callback, userdata);
      var value := GetHint(name.value);
      FirstWatch(i);
      ghost var rest := hint.chain[1..];
      assert hint.chain == [entry] + rest && hint.chain[..0] + rest == rest;
      IdsSplit(entry, rest);
      QuitsAtOnce(Hints(), i, name.value, IdOf(entry), Ids(rest));
      Call(hint, i, entry, 0, value, value);
      return true;
    }

    /** SDL_ClearHints. */
    method ClearHints()
      requires Valid()
      modifies this
      ensures Valid() && Repr == old(Repr) && State() == World([], old(log))
    {
      while hints != null
        invariant Valid() && log == old(log) && Repr == old(Repr)
        decreases |list|
      {
        hints := hints.next;
        list := list[1..];
      }
    }
  }

  /** Where the loop is: `kept` stays, `c[n..]` is still to be told. */
  lemma ChainStep(kept: seq<Watch>, c: seq<Watch>, n: nat)
    requires n < |c|
    ensures var full := kept + c[n..];
      && full[|kept|] == c[n] && WatchAt(full, |kept| + 1) == WatchAt(c, n + 1)
      && full[..|kept|] + full[|kept| + 1..] == kept + c[n + 1..]
      && full == kept + [c[n]] + c[n + 1..]
    ensures Ids(kept + [c[n]]) == Ids(kept) + [IdOf(c[n])]
  {
  }

  /** After a registration was dropped it is gone from its hint. */
  lemma Unregistered(hs: seq<Hint>, name: string, x: Watcher)
    requires forall j :: 0 <= j < |hs| ==> x !in Without(hs[j].watchers, x)
    ensures forall log :: var ds := DelCallback(World(hs, log), name, x).hints;
      IndexOf(ds, name) == IndexOf(hs, name) && |ds| == |hs|
      && (IndexOf(ds, name) < |ds| ==> x !in ds[IndexOf(ds, name)].watchers)
  {
    hide IndexOf, Without;
    var i := IndexOf(hs, name);
    if i < |hs| {
      L.IndexKept(hs, i, hs[i].(watchers := Without(hs[i].watchers, x)), name);
    }
  }

  /** Finding or creating the hint and then putting the watcher in front is one AddWatcher. */
  lemma AddWatcherIs(ds: seq<Hint>, fs: seq<Hint>, i: nat, name: string, x: Watcher)
    requires fs == if IndexOf(ds, name) == |ds| then [Hint(name, None, DEFAULT, [])] + ds else ds
    requires i < |fs| && i == IndexOf(fs, name)
    ensures fs[i := fs[i].(watchers := [x] + fs[i].watchers)] == AddWatcher(ds, name, x)
  {
    hide IndexOf;
    var h := Hint(name, None, DEFAULT, []);
    L.IndexFront(h, ds, name);
    if IndexOf(ds, name) == |ds| {
      ReplaceFront(h, Hint(name, None, DEFAULT, [x]), ds);
      assert [x] + h.watchers == [x];
    }
  }

  lemma ReplaceFront<T>(a: T, b: T, rest: seq<T>)
    ensures ([a] + rest)[0 := b] == [b] + rest && ([a] + rest)[0] == a
  {
  }

  /** Dropping the watcher that is in front. */
  lemma QuitsAtOnce(hs: seq<Hint>, i: nat, name: string, x: Watcher, ws: seq<Watcher>)
    requires i < |hs| && i == IndexOf(hs, name) && hs[i].watchers == [x] + ws
    ensures forall log :: DelCallback(World(hs, log), name, x) == World(hs[i := hs[i].(watchers := ws)], log)
    ensures hs[i := hs[i]] == hs
  {
    assert Without([x] + ws, x) == ws;
  }

  lemma NotInChain(c: seq<Watch>, x: Watcher)
    requires x !in Ids(c)
    ensures forall i :: 0 <= i < |c| ==> IdOf(c[i]) != x
  {
    forall i | 0 <= i < |c| ensures IdOf(c[i]) != x {
      assert Ids(c)[i] == IdOf(c[i]);
    }
  }

  lemma NotesStep(log: seq<Note>, ws: seq<Watcher>, name: string, oldValue: Text, newValue: Text, n: nat)
    requires n < |ws|
    ensures var notes := NotesFor(ws, name, oldValue, newValue);
      log + notes[..n] + [Note(name, ws[n], oldValue, newValue)] == log + notes[..n + 1]
  {
    var notes := NotesFor(ws, name, oldValue, newValue);
    assert notes[..n + 1] == notes[..n] + [notes[n]];
  }

  lemma StayingStep(s: Setting, ws: seq<Watcher>, log: seq<Note>, notes: seq<Note>, n: nat)
    requires |notes| == |ws| && n < |ws|
    ensures Staying(s, ws[..n + 1], log, notes[..n + 1])
      == Staying(s, ws[..n], log, notes[..n]) + if s.quits(log + notes[..n + 1]) then [] else [ws[n]]
  {
    assert ws[..n + 1][..n] == ws[..n] && notes[..n + 1][..n] == notes[..n];
  }

  lemma WatchIs(entry: Watch?, c: seq<Watch>, n: nat)
    requires n <= |c| && entry == WatchAt(c, n)
    ensures (entry != null <==> n < |c|) && (n < |c| ==> entry == c[n])
  {
  }

  /** One round of calls to the chain `c`, begun when the calls made were `log`. */
  datatype Round = Round(s: Setting, c: seq<Watch>, name: string, oldValue: Text, newValue: Text, log: seq<Note>) {
    ghost function Notes(): (notes: seq<Note>)
      ensures |notes| == |c|
    {
      NotesFor(Ids(c), name, oldValue, newValue)
    }

    /** After `n` calls: `kept` stayed of the watches called, and the rest is still in the chain. */
    ghost predicate At(n: nat, kept: seq<Watch>, now: seq<Note>, chain: seq<Watch>) {
      && n <= |c|
      && now == log + Notes()[..n]
      && chain == kept + c[n..]
      && Ids(kept) == Staying(s, Ids(c)[..n], log, Notes()[..n])
    }

    lemma Begins()
      ensures At(0, [], log, c)
    {
    }

    lemma Splits(n: nat, kept: seq<Watch>, now: seq<Note>, chain: seq<Watch>)
      requires At(n, kept, now, chain)
      ensures chain == kept + c[n..]
    {
    }

    lemma Goes(n: nat, kept: seq<Watch>, now: seq<Note>, chain: seq<Watch>)
      requires At(n, kept, now, chain) && n < |c|
      ensures var then' := now + [Note(name, IdOf(c[n]), oldValue, newValue)];
        var left := if s.quits(then') then kept else kept + [c[n]];
        At(n + 1, left, then', left + c[n + 1..])
    {
      NotesStep(log, Ids(c), name, oldValue, newValue, n);
      ChainStep(kept, c, n);
      StayingStep(s, Ids(c), log, Notes(), n);
      hide NotesFor, Ids, Staying;
    }

    lemma Ends(kept: seq<Watch>, now: seq<Note>, chain: seq<Watch>)
      requires At(|c|, kept, now, chain)
      ensures var notes := NotesFor(Ids(c), name, oldValue, newValue);
        now == log + notes && Ids(chain) == Staying(s, Ids(c), log, notes)
    {
      assert Notes()[..|c|] == Notes() && Ids(c)[..|c|] == Ids(c) && chain == kept;
    }
  }
}
