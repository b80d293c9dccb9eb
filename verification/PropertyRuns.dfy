/** Whole runs of src/SDL_properties.c, from the first call to SDL_QuitProperties. */
module PropertyRuns {
  import opened Wrappers
  import opened PropertyValues
  import opened Properties

  /** A call of the interface; `Set` with no value clears. */
  datatype Op =
    | Create
    | Global
    | Set(id: nat, name: Option<string>, value: Option<Value>)
    | Text(id: nat, name: Option<string>, defaultValue: Option<string>)
    | Destroy(id: nat)

  /** Groups of names, the id counter, the global group, and the cleanups accepted so far. */
  datatype World = World(view: Store, lastId: nat, globalId: nat, stored: multiset<Call>)

  function Created(w: World): World {
    var id := NextId(w.lastId);
    World(if id in w.view then w.view else w.view[id := map[]], id, w.globalId, w.stored)
  }

  /** What a call means for the abstract store. */
  function After(w: World, op: Op): World {
    match op
    case Create => Created(w)
    case Global =>
      if w.globalId != 0 then w
      else Created(w).(globalId := if NextId(w.lastId) in w.view then 0 else NextId(w.lastId))
    case Set(id, name, value) =>
      if id in w.view && name.Some? && name.value != "" then
        w.(view := w.view[id := Updated(w.view[id], name.value, value)], stored := w.stored + OwedByNew(value))
      else w
    case Text(_, _, _) => w
    case Destroy(id) => w.(view := w.view - {id})
  }

  function AfterAll(ops: seq<Op>): World {
    if ops == [] then World(map[], 0, 0, multiset{})
    else After(AfterAll(ops[..|ops| - 1]), ops[|ops| - 1])
  }

  // ---------- what the calls of a run store ----------

  /** A call that sets or clears `name` of group `id`. */
  predicate Sets(op: Op, id: nat, name: string) {
    op.Set? && op.id == id && op.name == Some(name) && name != ""
  }

  /** `ops[k]` is the last such call on a live group, and the group was not destroyed since. */
  ghost predicate LastSet(ops: seq<Op>, id: nat, name: string, k: int) {
    && 0 <= k < |ops| && Sets(ops[k], id, name) && id in AfterAll(ops[..k]).view
    && forall j :: k < j < |ops| ==> !Sets(ops[j], id, name) && ops[j] != Destroy(id)
  }

  ghost function Holds(s: Store, id: nat, name: string): Option<Value> {
    if id in s && name in s[id] then Some(s[id][name]) else None
  }

  lemma LastSetGrows(ops: seq<Op>, id: nat, name: string, k: int)
    requires ops != []
    ensures var n := |ops| - 1;
      LastSet(ops, id, name, k) <==>
        if k == n then Sets(ops[n], id, name) && id in AfterAll(ops[..n]).view
        else LastSet(ops[..n], id, name, k) && !Sets(ops[n], id, name) && ops[n] != Destroy(id)
  {
    var n := |ops| - 1;
    hide AfterAll;
    if 0 <= k < n {
      assert ops[..n][..k] == ops[..k];
      assert forall j :: k < j < n ==> ops[..n][j] == ops[j];
    }
  }

  /** What one call does to one name. */
  lemma StepHolds(w: World, op: Op, id: nat, name: string)
    ensures var s := After(w, op).view;
      Holds(s, id, name) ==
        if Sets(op, id, name) && id in w.view then op.value
        else if op == Destroy(id) then None
        else Holds(w.view, id, name)
    ensures Sets(op, id, name) && id !in w.view ==> Holds(w.view, id, name) == None
    ensures id in w.view && op != Destroy(id) ==> id in After(w, op).view
  {
  }

  /** After any run a name holds what the last call that set it gave it, and nothing if that call
      cleared it or there is none. */
  lemma {:induction false} HoldsLastSet(ops: seq<Op>, id: nat, name: string)
    ensures var v := Holds(AfterAll(ops).view, id, name);
      && (forall k :: LastSet(ops, id, name, k) ==> v == ops[k].value)
      && (v.Some? ==> exists k :: LastSet(ops, id, name, k))
  {
    if ops != [] {
      var n := |ops| - 1;
      HoldsLastSet(ops[..n], id, name);
      StepHolds(AfterAll(ops[..n]), ops[n], id, name);
      forall k
        ensures LastSet(ops, id, name, k) <==>
          if k == n then Sets(ops[n], id, name) && id in AfterAll(ops[..n]).view
          else LastSet(ops[..n], id, name, k) && !Sets(ops[n], id, name) && ops[n] != Destroy(id)
        ensures LastSet(ops[..n], id, name, k) ==> 0 <= k < n && ops[..n][k] == ops[k]
      {
        LastSetGrows(ops, id, name, k);
      }
      hide LastSet, After, Holds, Sets;
      if Sets(ops[n], id, name) && id in AfterAll(ops[..n]).view {
        assert LastSet(ops, id, name, n);
      }
    }
  }

  /** The accepted calls that stored the pointer, cleanup and userdata of `call`. */
  ghost function Storing(ops: seq<Op>, call: Call): set<nat> {
    set k: nat | k < |ops| && Stores(AfterAll(ops[..k]), ops[k], call)
  }

  predicate Stores(w: World, op: Op, call: Call) {
    && op.Set? && op.id in w.view && op.name.Some? && op.name.value != ""
    && op.value == Some(PointerValue(call.pointer, Some(call.cleanup), call.userdata))
  }

  lemma StoringGrows(ops: seq<Op>, call: Call)
    requires ops != []
    ensures var n := |ops| - 1;
      Storing(ops, call) == Storing(ops[..n], call) + if Stores(AfterAll(ops[..n]), ops[n], call) then {n} else {}
  {
    var n := |ops| - 1;
    hide AfterAll, Stores;
    forall k: nat | k < n ensures ops[..n][..k] == ops[..k] && ops[..n][k] == ops[k] {
    }
  }

  lemma StepStores(w: World, op: Op, call: Call)
    ensures After(w, op).stored[call] == w.stored[call] + if Stores(w, op, call) then 1 else 0
  {
  }

  /** The cleanups accepted in a run, counted: one for each call that stored such a pointer. */
  lemma {:induction false} StoredCounts(ops: seq<Op>, call: Call)
    ensures AfterAll(ops).stored[call] == |Storing(ops, call)|
  {
    if ops == [] {
      assert Storing(ops, call) == {};
    } else {
      var n := |ops| - 1;
      StoredCounts(ops[..n], call);
      StepStores(AfterAll(ops[..n]), ops[n], call);
      StoringGrows(ops, call);
      assert n !in Storing(ops[..n], call);
      hide After, Storing, Stores;
    }
  }

  // ---------- the calls on the store ----------

  ghost function WorldOf(store: PropertyStore): World
    reads store
  {
    World(store.view, store.lastId, store.globalId, store.stored)
  }

  /** A call that sets or clears a name makes the cleanup call of the pointer stored there, and no
      other; there is none if the call is refused or the name holds anything else. */
  ghost predicate Cleans(w: World, op: Op, before: seq<Call>, now: seq<Call>)
    requires op.Set?
  {
    var v := if op.name.Some? && op.name.value != "" then Holds(w.view, op.id, op.name.value) else None;
    && (forall p, c, u :: v == Some(PointerValue(p, Some(c), u)) ==> now == before + [Call(c, u, p)])
    && ((forall p, c, u :: v != Some(PointerValue(p, Some(c), u))) ==> now == before)
  }

  lemma CleansExactly(w: World, op: Op, before: seq<Call>)
    requires op.Set?
    ensures var ok := op.id in w.view && op.name.Some? && op.name.value != "";
      Cleans(w, op, before, before + if ok then CallsForName(w.view[op.id], op.name.value) else [])
  {
    var ok := op.id in w.view && op.name.Some? && op.name.value != "";
    assert before + [] == before;
    if ok && op.name.value in w.view[op.id] {
      var v := w.view[op.id][op.name.value];
      assert v.PointerValue? && v.cleanup.Some? ==> v == PointerValue(v.pointer, Some(v.cleanup.value), v.userdata);
    }
  }

  /** One call on the store does to it what the call means. */
  method Perform(store: PropertyStore, op: Op)
    requires store.Valid() && store.groups != null
    modifies store.Repr
    ensures store.Valid() && store.groups != null
    ensures old(store.Repr) <= store.Repr && fresh(store.Repr - old(store.Repr))
    ensures WorldOf(store) == After(old(WorldOf(store)), op)
    ensures op.Set? ==> Cleans(old(WorldOf(store)), op, old(store.cleanups), store.cleanups)
  {
    hide Cleans;
    if op.Set? {
      CleansExactly(WorldOf(store), op, store.cleanups);
    }
    hide PropertyStore.Valid, Updated, OwedByNew, CallsForName, NextId;
    match op
    case Create =>
      var id := store.CreateProperties();
    case Global =>
      var id := store.GetGlobalProperties();
    case Set(id, name, Some(v)) =>
      var ok := store.SetValue(id, name, v);
    case Set(id, name, None) =>
      var ok := store.ClearProperty(id, name);
    case Text(id, name, defaultValue) =>
      var text := store.GetStringProperty(id, name, defaultValue);
    case Destroy(id) =>
      store.DestroyProperties(id);
  }

  /** A new store after any sequence of calls. */
  method Play(libc: Libc, hashName: string -> nat, ops: seq<Op>) returns (store: PropertyStore)
    ensures store.Valid() && store.groups != null && fresh(store.Repr) && store.libc == libc
    ensures WorldOf(store) == AfterAll(ops)
  {
    hide PropertyStore.Valid, After, Cleans;
    store := new PropertyStore(libc, hashName);
    store.InitProperties();
    for k := 0 to |ops|
      invariant store.Valid() && store.groups != null && fresh(store.Repr) && store.libc == libc
      invariant WorldOf(store) == AfterAll(ops[..k])
    {
      assert ops[..k + 1][..k] == ops[..k];
      Perform(store, ops[k]);
    }
    assert ops[..|ops|] == ops;
  }

  /** Any sequence of calls followed by shutdown makes exactly the cleanup calls of the pointers it
      stored, each as often as it was stored. */
  method RunAndQuit(libc: Libc, hashName: string -> nat, ops: seq<Op>) returns (cleanups: seq<Call>)
    ensures forall call :: multiset(cleanups)[call] == |Storing(ops, call)|
    ensures multiset(cleanups) == AfterAll(ops).stored
  {
    forall call ensures AfterAll(ops).stored[call] == |Storing(ops, call)| {
      StoredCounts(ops, call);
    }
    hide PropertyStore.Valid, AfterAll, Storing;
    var store := Play(libc, hashName, ops);
    store.QuitProperties();
    return store.cleanups;
  }
}
