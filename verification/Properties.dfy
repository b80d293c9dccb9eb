/** src/SDL_properties.c: groups of named, typed values, found by id in a table of groups. */
module Properties {
  import opened Wrappers
  import opened HashTable
  import opened MapTable
  import opened PropertyValues
  import opened PropertyGroup

  /** The id SDL_CreateProperties takes next: one up, skipping zero on wrap-around. */
  function NextId(last: nat): (id: nat)
    ensures 0 < id < UINT32
  {
    if (last + 1) % UINT32 == 0 then 1 else (last + 1) % UINT32
  }

  /** The group after setting `name` to `v`, or clearing it when there is none. */
  function Updated(m: Names, name: string, v: Option<Value>): Names {
    if v.Some? then (m - {name})[name := v.value] else m - {name}
  }

  function ValueOf(p: Option<Property>): Option<Value> {
    if p.Some? then Some(p.value.value) else None
  }

  /** What a newly stored value will owe. */
  function OwedByNew(v: Option<Value>): multiset<Call> {
    if v.Some? then Owed(v.value) else multiset{}
  }

  /** The calls made when `name` is cleared in a group. */
  function CallsForName(m: Names, name: string): seq<Call> {
    if name in m then CallsFor(m[name]) else []
  }

  /** Setting or clearing a name moves exactly the calls of the old and the new value. */
  lemma SetMovesCalls(s: Store, id: nat, name: string, v: Option<Value>, done: seq<Call>, stored: multiset<Call>)
    requires id in s && stored == multiset(done) + OwedByStore(s)
    ensures stored + OwedByNew(v)
      == multiset(done + CallsForName(s[id], name)) + OwedByStore(s[id := Updated(s[id], name, v)])
  {
    hide OwedByStore, OwedIn, Owed, CallsFor;
    var cleared := s[id := s[id] - {name}];
    ClearOwes(s, id, name);
    OwedWhenPresent(s[id], name);
    if name in s[id] {
      CallsAreOwed(s[id][name], done);
    } else {
      assert done + [] == done;
    }
    if v.Some? {
      SetOwes(cleared, id, name, v.value);
      assert cleared[id := cleared[id][name := v.value]] == s[id := Updated(s[id], name, v)];
    }
  }

  /** Destroying a group makes exactly the calls it owed. */
  lemma DestroyMovesCalls(s: Store, id: nat, done: seq<Call>, calls: seq<Call>)
    requires id in s && multiset(calls) == OwedByGroup(s[id])
    ensures multiset(done) + OwedByStore(s) == multiset(done + calls) + OwedByStore(s - {id})
  {
    hide OwedByStore, OwedByGroup;
    StoreUpdate(s, id, map[]);
  }

  // Who owns an object of the store: a group id, or one of these.
  const GROUPS := 0
  const SELF := -1

  class PropertyStore {
    const libc: Libc
    const hashName: string -> nat
    /** SDL_properties. */
    var groups: HashTable?<nat, Group>
    /** SDL_last_properties_id. */
    var lastId: nat
    /** SDL_global_properties. */
    var globalId: nat
    /** The cleanup calls made so far. */
    var cleanups: seq<Call>
    /** The live groups, and the names and values in them. */
    ghost var live: map<nat, Group>
    ghost var view: Store
    /** What the table of groups holds: `live`, except half way through a create or destroy. */
    ghost var held: map<nat, Group>
    /** The calls that successfully stored values have ever owed. */
    ghost var stored: multiset<Call>
    /** Every object of the store, with the part it belongs to. */
    ghost var owner: map<object, int>
    ghost var Repr: set<object>

    ghost predicate Owns(tag: int, s: set<object>)
      reads this`owner
    {
      forall o :: o in s ==> o in owner && owner[o] == tag
    }

    ghost predicate GroupsOK()
      reads this`groups, this`held, this`globalId, this`owner, groups, if groups != null then groups.Repr else {}
    {
      && (groups == null ==> held == map[] && globalId == 0)
      && (groups != null ==> groups in groups.Repr && Owns(GROUPS, groups.Repr) && IsMap(groups, held))
    }

    ghost predicate GroupOK(id: nat, g: Group)
      reads this`owner, this`view, g, g.Repr
    {
      && g in g.Repr && Owns(id, g.Repr)
      && g.Valid() && g.libc == libc
      && id in view && view[id] == g.View()
    }

    /** All of the invariant except that the table holds the live groups. Its last line is
        conservation: each cleanup ever accepted has been called exactly once or is still owed by
        a live value. */
    ghost predicate Whole()
      reads this, Repr
    {
      && this in Repr && owner.Keys == Repr && owner[this] == SELF && lastId < UINT32
      && (groups != null ==> groups in Repr && groups.Repr <= Repr)
      && GroupsOK()
      && 0 !in live && live.Keys == view.Keys
      && (forall id :: id in live ==> live[id] in Repr && live[id].Repr <= Repr)
      && (forall id :: id in live ==> GroupOK(id, live[id]))
      && stored == multiset(cleanups) + OwedByStore(view)
    }

    /** The invariant of every run. */
    ghost predicate Valid()
      reads this, Repr
    {
      Whole() && held == live
    }

    constructor (libc: Libc, hashName: string -> nat)
      ensures Valid() && fresh(Repr) && groups == null && view == map[]
      ensures cleanups == [] && stored == multiset{} && lastId == 0 && globalId == 0
      ensures this.libc == libc
    {
      this.libc, this.hashName := libc, hashName;
      groups, lastId, globalId, cleanups := null, 0, 0, [];
      live, held, view, stored := map[], map[], map[], multiset{};
      Repr, owner := {this}, map[];
      new;
      owner := Joined({this}, SELF);
    }

    /** New objects join the store under one tag. */
    ghost function Joined(s: set<object>, tag: int): map<object, int>
      reads this`owner
    {
      map o | o in owner.Keys + s :: if o in owner then owner[o] else tag
    }

    /** New objects join the store. */
    ghost method Adopt(s: set<object>, tag: int)
      requires owner.Keys == Repr
      modifies this`owner, this`Repr
      ensures owner.Keys == Repr == old(Repr) + s
      ensures forall o :: o in old(owner) ==> owner[o] == old(owner[o])
      ensures (forall o :: o in s && o in old(owner) ==> old(owner[o]) == tag) ==> Owns(tag, s)
    {
      owner := Joined(s, tag);
      Repr := Repr + s;
    }

    // ---------- groups ----------

    /** Nothing observable changed. */
    twostate predicate Same()
      reads this
    {
      view == old(view) && cleanups == old(cleanups) && stored == old(stored)
    }

    /** The table and the two ids are as they were. */
    twostate predicate SameIds()
      reads this
    {
      groups == old(groups) && lastId == old(lastId) && globalId == old(globalId)
    }

    /** SDL_InitProperties. */
    method InitProperties()
      requires Valid()
      modifies this
      ensures Valid() && fresh(Repr - old(Repr)) && old(Repr) <= Repr && groups != null && Same()
      ensures live == old(live) && lastId == old(lastId) && globalId == old(globalId)
    {
      hide IsMap, OwedByStore, Group.Valid, Group.View;
      if groups == null {
        var t := NewTable();
        groups := t;
        owner := Joined(t.Repr, GROUPS);
        Repr := Repr + t.Repr;
      }
    }

    static method NewTable() returns (t: HashTable<nat, Group>)
      ensures IsMap(t, map[]) && fresh(t.Repr) && t in t.Repr
    {
      hide HashTable.Valid;
      t := new HashTable<nat, Group>(16, key => key, (a, b) => a == b, false);
      TableIsOwned(t);
    }

    /** Only the part of the store tagged `tag` was written to, and no object changed hands. */
    twostate predicate OnlyIn(tag: int)
      reads this, owner.Keys
    {
      && (forall o :: o in old(owner) ==> o in owner && owner[o] == old(owner[o]))
      && (forall o :: o in old(owner) && old(owner[o]) != tag && o != this ==> unchanged(o))
    }

    /** The other groups stay as they are. */
    twostate lemma GroupStays(new tag: int, new id: nat, g: Group)
      requires old(GroupOK(id, g)) && OnlyIn(tag) && tag != id && old(owner.Keys) == old(Repr)
      requires this in old(owner) && old(owner)[this] == SELF
      requires id in view && view[id] == old(view[id])
      ensures GroupOK(id, g)
    {
      hide IsMap, Group.View;
      assert g as object != this;
      assert forall o :: o in old(g.Repr) ==> unchanged(o);
    }

    /** The table of groups stays as it is. */
    twostate lemma TableStays(tag: int)
      requires old(GroupsOK()) && OnlyIn(tag) && tag != GROUPS && old(owner.Keys) == old(Repr)
      requires this in old(owner) && old(owner)[this] == SELF
      requires groups == old(groups) && globalId == old(globalId) && held == old(held)
      ensures GroupsOK() && (groups != null ==> groups.Repr == old(groups.Repr))
    {
      hide IsMap;
      if groups != null {
        assert groups as object != this;
        assert forall o :: o in old(groups.Repr) ==> unchanged(o);
      }
    }

    lemma TableIs()
      requires groups != null && groups in groups.Repr && Owns(GROUPS, groups.Repr) && IsMap(groups, held)
      ensures GroupsOK()
    {
      hide IsMap;
    }

    lemma GroupIs(id: nat, g: Group)
      requires g in g.Repr && Owns(id, g.Repr) && g.Valid() && g.libc == libc && id in view && view[id] == g.View()
      ensures GroupOK(id, g)
    {
    }

    lemma TableFacts()
      requires GroupsOK() && groups != null
      ensures groups in groups.Repr && Owns(GROUPS, groups.Repr) && IsMap(groups, held)
    {
    }

    twostate predicate WasWhole() {
      old(Whole())
    }

    twostate lemma WasThere()
      requires WasWhole()
      ensures this in old(owner) && old(owner)[this] == SELF && old(owner).Keys == old(Repr)
    {
      hide GroupsOK, GroupOK, OwedByStore;
    }

    /** The invariant again, after a step that wrote to one part only: what is left to see is the
        table of groups, every new or changed group, and the cleanup calls. */
    twostate lemma StaysWhole(tag: int)
      requires WasWhole() && OnlyIn(tag)
      requires this in Repr && owner.Keys == Repr && owner[this] == SELF && lastId < UINT32
      requires GroupsOK() && (groups != null ==> groups in Repr && groups.Repr <= Repr)
      requires 0 !in live && live.Keys == view.Keys
      requires forall id :: id in live ==>
        || (tag != id && id in old(live) && live[id] == old(live[id]) && view[id] == old(view[id]))
        || (live[id] in Repr && live[id].Repr <= Repr && GroupOK(id, live[id]))
      requires stored == multiset(cleanups) + OwedByStore(view)
      ensures Whole()
    {
      hide GroupsOK, GroupOK, OwedByStore, WasWhole, OnlyIn;
      WasThere();
      forall id | id in live ensures live[id] in Repr && live[id].Repr <= Repr && GroupOK(id, live[id]) {
        if !(live[id] in Repr && live[id].Repr <= Repr && GroupOK(id, live[id])) {
          OtherGroup(tag, id);
        }
      }
    }

    twostate lemma OtherGroup(new tag: int, new id: nat)
      requires WasWhole() && OnlyIn(tag)
      requires this in Repr && owner.Keys == Repr
      requires id in live && tag != id && id in old(live) && live[id] == old(live[id])
      requires id in view && view[id] == old(view[id])
      ensures live[id] in Repr && live[id].Repr <= Repr && GroupOK(id, live[id])
    {
      hide OwedByStore, GroupsOK, GroupOK, OnlyIn;
      GroupStays(tag, id, live[id]);
      GroupParts(id, live[id]);
    }

    lemma Parts()
      requires Whole()
      ensures this in Repr && owner.Keys == Repr && owner[this] == SELF && lastId < UINT32
      ensures GroupsOK() && (groups != null ==> groups in Repr && groups.Repr <= Repr)
      ensures 0 !in live && live.Keys == view.Keys
      ensures stored == multiset(cleanups) + OwedByStore(view)
    {
      hide GroupsOK, GroupOK;
    }

    lemma GroupParts(id: nat, g: Group)
      requires GroupOK(id, g)
      ensures g in g.Repr && Owns(id, g.Repr) && g.Valid() && g.libc == libc && id in view && view[id] == g.View()
    {
    }

    /** SDL_InsertIntoHashTable on the table of groups. */
    method InsertGroup(id: nat, g: Group) returns (ok: bool)
      requires Valid() && groups != null
      modifies this`held, this`owner, this`Repr, groups.Repr
      ensures Whole() && fresh(Repr - old(Repr)) && old(Repr) <= Repr
      ensures ok == (id !in live) && held == if ok then live[id := g] else live
      ensures lastId == old(lastId) && globalId == old(globalId) && groups == old(groups)
      ensures live == old(live) && Same()
    {
      hide IsMap, OwedByStore, Group.Valid, Group.View, GroupsOK, GroupOK, Whole;
      Parts();
      TableFacts();
      assert this !in groups.Repr;
      ok := Put(groups, id, g, live);
      held := if ok then live[id := g] else live;
      Adopt(groups.Repr, GROUPS);
      TableIs();
      StaysWhole(GROUPS);
    }

    /** A new empty group that is already in the table becomes live. */
    ghost method Enroll(id: nat, g: Group)
      requires Whole() && held == live[id := g] && id !in live && id != 0
      requires g.Valid() && g in g.Repr && g.Repr !! Repr && g.libc == libc && g.View() == map[]
      modifies this`live, this`view, this`owner, this`Repr
      ensures Valid() && Repr == old(Repr) + g.Repr
      ensures view == old(view)[id := map[]]
    {
      hide IsMap, OwedByStore, Group.Valid, Group.View, GroupsOK, GroupOK, Whole;
      Parts();
      StoreAdd(view, id);
      live, view := live[id := g], view[id := map[]];
      Adopt(g.Repr, id);
      GroupIs(id, g);
      TableStays(SELF);
      StaysWhole(SELF);
    }

    /** SDL_CreateProperties: fails exactly when the next id is still in use. */
    method CreateProperties() returns (id: nat)
      requires Valid()
      modifies Repr
      ensures Valid() && fresh(Repr - old(Repr)) && old(Repr) <= Repr
      ensures lastId == NextId(old(lastId)) && globalId == old(globalId)
      ensures id == if lastId in old(view) then 0 else lastId
      ensures id == 0 ==> Same()
      ensures id != 0 ==> id !in old(view) && view == old(view)[id := map[]]
      ensures cleanups == old(cleanups) && stored == old(stored) && groups != null
    {
      hide IsMap, OwedByStore, Group.Valid, Group.View, Whole;
      Parts();
      InitProperties();
      var g := new Group(libc, hashName);
      Parts();
      TakeId();
      id := lastId;
      var inserted := InsertGroup(id, g);
      if inserted {
        Enroll(id, g);
      } else {
        id := 0;
      }
    }

    method TakeId()
      requires Valid()
      modifies this`lastId
      ensures Valid() && lastId == NextId(old(lastId))
    {
      hide GroupsOK, GroupOK, OwedByStore, Whole;
      Parts();
      var id := (lastId + 1) % UINT32;
      if id == 0 {
        id := id + 1;
      }
      lastId := id;
      TableStays(SELF);
      StaysWhole(SELF);
    }

    // ---------- setting and clearing ----------

    lemma GroupAt(id: nat)
      requires Whole() && id in live
      ensures live[id] in Repr && live[id].Repr <= Repr && id != 0
      ensures var g := live[id];
        && g in g.Repr && Owns(id, g.Repr) && g.Valid() && g.libc == libc && id in view && view[id] == g.View()
    {
      hide IsMap, OwedByStore, Group.Valid, Group.View;
    }

    /** SDL_FreePropertyWithCleanup, for the part that can be observed. */
    method FreeProperty(property: Option<Property>, cleanup: bool)
      modifies this`cleanups
      ensures cleanups == old(cleanups)
        + (if property.Some? && cleanup then CallsFor(property.value.value) else [])
      ensures forall p, c, u :: property.Some? && property.value.value == PointerValue(p, Some(c), u) ==>
        cleanups == old(cleanups) + if cleanup then [Call(c, u, p)] else []
    {
      if property.Some? {
        match property.value.value {
          case PointerValue(pointer, Some(f), userdata) =>
            if cleanup {
              cleanups := cleanups + [Call(f, userdata, pointer)];
            }
          case _ =>
        }
      }
    }

    /** SDL_RemoveFromHashTable on a live group, with its nuke callback. */
    method ClearIn(ghost id: nat, g: Group, name: string)
      requires Valid() && id in live && g == live[id]
      modifies this`view, this`cleanups, g.Repr
      ensures Valid() && id in old(view)
      ensures view == old(view)[id := old(view)[id] - {name}]
      ensures cleanups == old(cleanups) + CallsForName(old(view)[id], name)
      ensures Repr == old(Repr) && live == old(live) && g.Repr == old(g.Repr) && SameIds()
    {
      hide IsMap, OwedByStore, Group.Valid, Group.View, GroupsOK, GroupOK, Whole, CallsFor;
      Parts();
      GroupAt(id);
      SetMovesCalls(view, id, name, None, cleanups, stored);
      assert this !in g.Repr;
      var gone := g.Clear(name);
      FreeProperty(gone, true);
      view := view[id := g.View()];
      GroupIs(id, g);
      TableStays(id);
      StaysWhole(id);
    }

    /** SDL_InsertIntoHashTable on a live group, of a name that was just cleared: never refused. */
    method AddIn(ghost id: nat, g: Group, name: string, p: Property)
      requires Valid() && id in live && g == live[id] && id in view && name !in view[id]
      requires p !in Repr && p.stringStorage == None
      modifies this`view, this`stored, this`owner, this`Repr, g.Repr
      ensures Valid() && fresh(Repr - old(Repr) - {p}) && old(Repr) <= Repr
      ensures view == old(view)[id := old(view)[id][name := p.value]]
      ensures stored == old(stored) + Owed(p.value) && SameIds()
    {
      hide IsMap, OwedByStore, Group.Valid, Group.View, GroupsOK, GroupOK, Whole, Owed;
      Parts();
      GroupAt(id);
      AddTo(id, g, name, p);
      Adopt(g.Repr, id);
      Record(id, name, p.value);
      GroupIs(id, g);
      TableStays(id);
      StaysWhole(id);
    }

    ghost method Record(id: nat, name: string, v: Value)
      requires id in view && name !in view[id] && stored == multiset(cleanups) + OwedByStore(view)
      modifies this`view, this`stored
      ensures view == old(view)[id := old(view)[id][name := v]]
      ensures stored == old(stored) + Owed(v)
      ensures stored == multiset(cleanups) + OwedByStore(view)
    {
      hide OwedByStore, Owed;
      SetOwes(view, id, name, v);
      view, stored := view[id := view[id][name := v]], stored + Owed(v);
    }

    /** The part of AddIn that writes to the group. */
    method AddTo(ghost id: nat, g: Group, name: string, p: Property)
      requires Valid() && id in live && g == live[id] && id in view && name !in view[id]
      requires p !in Repr && p.stringStorage == None
      modifies g.Repr
      ensures unchanged(this) && OnlyIn(id)
      ensures g.Valid() && g in g.Repr && g.libc == libc && g.View() == view[id][name := p.value]
      ensures fresh(g.Repr - old(g.Repr) - {p}) && old(g.Repr) <= g.Repr
      ensures forall o :: o in g.Repr && o in owner ==> owner[o] == id
    {
      hide IsMap, OwedByStore, Group.Valid, Group.View, GroupsOK, GroupOK, Whole, Owed;
      Parts();
      GroupAt(id);
      assert this !in g.Repr;
      var ok := g.Add(name, p);
      assert g in g.Repr;
    }

    /** Freeing the property of a refused call makes no cleanup call. */
    method Refuse(property: Option<Property>)
      requires Valid()
      modifies this`cleanups
      ensures Valid() && cleanups == old(cleanups)
    {
      hide GroupsOK, GroupOK, OwedByStore, Whole;
      Parts();
      FreeProperty(property, false);
      TableStays(SELF);
      StaysWhole(SELF);
    }

    /** The group with id `id`, if it is live. */
    method FindGroup(id: nat) returns (g: Option<Group>)
      requires Valid() && groups != null
      ensures g == if id in live then Some(live[id]) else None
    {
      hide OwedByStore, Group.Valid, GroupOK, IsMap;
      g := Lookup(groups, id, live);
    }

    /** Whether the arguments of a call name a property slot of a live group. */
    ghost predicate Accepts(id: nat, name: Option<string>)
      reads this`view
    {
      id in view && name.Some? && name.value != ""
    }

    /** Whether the call gets as far as looking the group up. */
    predicate LooksUp(id: nat, name: Option<string>) {
      id != 0 && name.Some? && name.value != ""
    }

    /** A call to set `name` to `v`, or to clear it: unusable arguments refuse it and nothing
        changes; otherwise the old value is cleaned up and the new one, if any, takes its place. */
    twostate predicate DidSet(id: nat, name: Option<string>, v: Option<Value>, ok: bool)
      reads this
    {
      && SameIds()
      && ok == old(Accepts(id, name))
      && (!ok ==> Same())
      && (ok ==>
            && view == old(view)[id := Updated(old(view)[id], name.value, v)]
            && cleanups == old(cleanups) + CallsForName(old(view)[id], name.value)
            && stored == old(stored) + OwedByNew(v))
    }

    /** SDL_PrivateSetProperty. */
    method PrivateSet(id: nat, name: Option<string>, property: Option<Property>) returns (ok: bool)
      requires Valid() && (LooksUp(id, name) ==> groups != null)
      requires property.Some? ==> property.value !in Repr && property.value.stringStorage == None
      modifies Repr
      ensures Valid() && old(Repr) <= Repr
      ensures fresh(Repr - old(Repr) - if property.Some? then {property.value} else {})
      ensures DidSet(id, name, ValueOf(property), ok)
    {
      hide IsMap, OwedByStore, Group.Valid, Group.View, GroupsOK, GroupOK, Whole, Owed, CallsForName, CallsFor;
      Parts();
      if id == 0 || name == None || name.value == "" {
        Refuse(property);
        return false;
      }
      var found := FindGroup(id);
      if found == None {
        Refuse(property);
        return false;
      }
      GroupAt(id);
      ClearIn(id, found.value, name.value);
      if property.Some? {
        AddIn(id, found.value, name.value, property.value);
      }
      return true;
    }

    method SetValue(id: nat, name: Option<string>, v: Value) returns (ok: bool)
      requires Valid() && (LooksUp(id, name) ==> groups != null)
      modifies Repr
      ensures Valid() && old(Repr) <= Repr && fresh(Repr - old(Repr))
      ensures DidSet(id, name, Some(v), ok)
    {
      hide Valid, CallsForName, OwedByNew, Updated;
      var p := new Property(v);
      ok := PrivateSet(id, name, Some(p));
    }

    /** SDL_ClearProperty. */
    method ClearProperty(id: nat, name: Option<string>) returns (ok: bool)
      requires Valid() && (LooksUp(id, name) ==> groups != null)
      modifies Repr
      ensures Valid() && old(Repr) <= Repr && fresh(Repr - old(Repr))
      ensures DidSet(id, name, None, ok)
    {
      hide Valid, DidSet;
      ok := PrivateSet(id, name, None);
    }

    /** SDL_SetPropertyWithCleanup; the null pointer clears. */
    method SetPropertyWithCleanup(id: nat, name: Option<string>, pointer: nat, cleanup: Option<nat>, userdata: nat)
      returns (ok: bool)
      requires Valid() && (LooksUp(id, name) ==> groups != null)
      modifies Repr
      ensures Valid() && old(Repr) <= Repr && fresh(Repr - old(Repr))
      ensures DidSet(id, name, if pointer == 0 then None else Some(PointerValue(pointer, cleanup, userdata)), ok)
    {
      hide Valid, DidSet;
      if pointer == 0 {
        ok := ClearProperty(id, name);
      } else {
        ok := SetValue(id, name, PointerValue(pointer, cleanup, userdata));
      }
    }

    /** SDL_SetProperty: a pointer that owes nothing. */
    method SetProperty(id: nat, name: Option<string>, pointer: nat) returns (ok: bool)
      requires Valid() && (LooksUp(id, name) ==> groups != null)
      modifies Repr
      ensures Valid() && old(Repr) <= Repr && fresh(Repr - old(Repr))
      ensures DidSet(id, name, if pointer == 0 then None else Some(PointerValue(pointer, None, 0)), ok)
    {
      hide Valid, DidSet;
      if pointer == 0 {
        ok := ClearProperty(id, name);
      } else {
        ok := SetValue(id, name, PointerValue(pointer, None, 0));
      }
    }

    /** SDL_SetStringProperty; the null string clears. */
    method SetStringProperty(id: nat, name: Option<string>, text: Option<string>) returns (ok: bool)
      requires Valid() && (LooksUp(id, name) ==> groups != null)
      modifies Repr
      ensures Valid() && old(Repr) <= Repr && fresh(Repr - old(Repr))
      ensures DidSet(id, name, if text == None then None else Some(StringValue(text.value)), ok)
    {
      hide Valid, DidSet;
      if text == None {
        ok := ClearProperty(id, name);
      } else {
        ok := SetValue(id, name, StringValue(text.value));
      }
    }

    // ---------- reading ----------

    /** The value a getter finds. */
    ghost function ValueAt(id: nat, name: Option<string>): Option<Value>
      reads this`view
    {
      if Accepts(id, name) && name.value in view[id] then Some(view[id][name.value]) else None
    }

    /** The look-up every getter starts with. */
    method Seek(id: nat, name: Option<string>) returns (p: Option<Property>)
      requires Valid() && (LooksUp(id, name) ==> groups != null)
      ensures ValueOf(p) == ValueAt(id, name)
    {
      hide IsMap, OwedByStore, Group.Valid, Group.View, GroupsOK, GroupOK, Whole;
      Parts();
      if id == 0 || name == None || name.value == "" {
        return None;
      }
      var g := FindGroup(id);
      if g == None {
        return None;
      }
      GroupAt(id);
      p := g.value.Find(name.value);
    }

    /** SDL_GetPropertyType. */
    method GetPropertyType(id: nat, name: Option<string>) returns (kind: Kind)
      requires Valid() && (LooksUp(id, name) ==> groups != null)
      ensures kind == if ValueAt(id, name).Some? then KindOf(ValueAt(id, name).value) else InvalidKind
    {
      hide Valid, ValueAt;
      var p := Seek(id, name);
      kind := if p.Some? then KindOf(p.value.value) else InvalidKind;
    }

    /** SDL_GetProperty. */
    method GetProperty(id: nat, name: Option<string>, defaultValue: nat) returns (pointer: nat)
      requires Valid() && (LooksUp(id, name) ==> groups != null)
      ensures var v := ValueAt(id, name);
        pointer == if v.Some? && v.value.PointerValue? then v.value.pointer else defaultValue
    {
      hide Valid, ValueAt;
      var p := Seek(id, name);
      pointer := if p.Some? && p.value.value.PointerValue? then p.value.value.pointer else defaultValue;
    }

    /** SDL_GetNumberProperty. */
    method GetNumberProperty(id: nat, name: Option<string>, defaultValue: int) returns (number: int)
      requires Valid() && (LooksUp(id, name) ==> groups != null)
      ensures var v := ValueAt(id, name);
        number == if v.Some? then AsNumber(libc, v.value, defaultValue) else defaultValue
    {
      hide Valid, ValueAt;
      var p := Seek(id, name);
      number := if p.Some? then AsNumber(libc, p.value.value, defaultValue) else defaultValue;
    }

    /** SDL_GetFloatProperty. */
    method GetFloatProperty(id: nat, name: Option<string>, defaultValue: real) returns (float: real)
      requires Valid() && (LooksUp(id, name) ==> groups != null)
      ensures var v := ValueAt(id, name);
        float == if v.Some? then AsFloat(libc, v.value, defaultValue) else defaultValue
    {
      hide Valid, ValueAt;
      var p := Seek(id, name);
      float := if p.Some? then AsFloat(libc, p.value.value, defaultValue) else defaultValue;
    }

    /** SDL_GetBooleanProperty. */
    method GetBooleanProperty(id: nat, name: Option<string>, defaultValue: bool) returns (boolean: bool)
      requires Valid() && (LooksUp(id, name) ==> groups != null)
      ensures var v := ValueAt(id, name);
        boolean == if v.Some? then AsBoolean(libc, v.value, defaultValue) else defaultValue
    {
      hide Valid, ValueAt;
      var p := Seek(id, name);
      boolean := if p.Some? then AsBoolean(libc, p.value.value, defaultValue) else defaultValue;
    }

    /** SDL_GetStringProperty: may fill a string cache, and leaves every value as it is. */
    method GetStringProperty(id: nat, name: Option<string>, defaultValue: Option<string>) returns (text: Option<string>)
      requires Valid() && (LooksUp(id, name) ==> groups != null)
      modifies Repr
      ensures Valid() && Repr == old(Repr) && Same()
      ensures lastId == old(lastId) && globalId == old(globalId) && groups == old(groups)
      ensures var v := ValueAt(id, name);
        text == if v.Some? then AsText(libc, v.value, defaultValue) else defaultValue
    {
      hide IsMap, OwedByStore, Group.Valid, Group.View, GroupsOK, GroupOK, Whole, AsText;
      Parts();
      if id == 0 || name == None || name.value == "" {
        return defaultValue;
      }
      var found := FindGroup(id);
      if found == None {
        return defaultValue;
      }
      var g := found.value;
      GroupAt(id);
      assert this !in g.Repr;
      text := g.GetString(name.value, defaultValue);
      GroupIs(id, g);
      TableStays(id);
      StaysWhole(id);
    }

    /** SDL_EnumerateProperties: each name of the group is reported exactly once. */
    method EnumerateProperties(id: nat, hasCallback: bool) returns (ok: bool, names: seq<string>)
      requires Valid() && (id != 0 && hasCallback ==> groups != null)
      ensures ok == (id in view && hasCallback)
      ensures !ok ==> names == []
      ensures ok ==> forall n :: n in names <==> n in view[id]
      ensures forall i, j :: 0 <= i < j < |names| ==> names[i] != names[j]
    {
      hide IsMap, OwedByStore, Group.Valid, Group.View, GroupsOK, GroupOK, Whole;
      Parts();
      if id == 0 || !hasCallback {
        return false, [];
      }
      var g := FindGroup(id);
      if g == None {
        return false, [];
      }
      GroupAt(id);
      names := g.value.Keys();
      ok := true;
    }

    // ---------- destroying ----------

    /** SDL_DestroyProperties: the group goes, and exactly the cleanups it owed are called. */
    method DestroyProperties(id: nat)
      requires Valid() && (id != 0 ==> groups != null)
      modifies Repr
      ensures Valid() && Repr == old(Repr)
      ensures view == old(view) - {id} && stored == old(stored)
      ensures multiset(cleanups)
        == multiset(old(cleanups)) + if id in old(view) then OwedByGroup(old(view)[id]) else multiset{}
      ensures groups == old(groups) && lastId == old(lastId) && globalId == old(globalId)
    {
      hide IsMap, OwedByStore, OwedByGroup, Group.Valid, Group.View, GroupsOK, GroupOK, Whole;
      Parts();
      if id == 0 {
        return;
      }
      var gone := RemoveGroup(id);
      if gone.Some? {
        FreeGroup(id, gone.value);
      }
    }

    /** SDL_FreeProperties, the nuke callback of the table of groups. */
    method FreeGroup(ghost id: nat, g: Group)
      requires Whole() && held == live - {id} && id in live && g == live[id]
      modifies this`cleanups, this`live, this`view
      ensures Valid() && id in old(view) && view == old(view) - {id}
      ensures multiset(cleanups) == multiset(old(cleanups)) + OwedByGroup(old(view)[id])
    {
      hide IsMap, OwedByStore, OwedByGroup, Group.Valid, Group.View, GroupsOK, GroupOK, Whole;
      Parts();
      GroupAt(id);
      var calls := g.Destroy();
      DestroyMovesCalls(view, id, cleanups, calls);
      cleanups := cleanups + calls;
      live, view := live - {id}, view - {id};
      TableStays(SELF);
      StaysWhole(SELF);
    }

    /** SDL_RemoveFromHashTable on the table of groups, up to its nuke callback. */
    method RemoveGroup(id: nat) returns (gone: Option<Group>)
      requires Valid() && groups != null
      modifies this`held, groups.Repr
      ensures Whole() && held == live - {id}
      ensures gone == if id in live then Some(live[id]) else None
      ensures lastId == old(lastId) && globalId == old(globalId) && groups == old(groups)
      ensures live == old(live) && Same() && Repr == old(Repr)
    {
      hide IsMap, OwedByStore, OwedByGroup, Group.Valid, Group.View, GroupsOK, GroupOK, Whole;
      Parts();
      TableFacts();
      assert this !in groups.Repr;
      gone := Drop(groups, id, live);
      held := live - {id};
      TableIs();
      StaysWhole(GROUPS);
    }

    /** SDL_GetGlobalProperties: the group created by the first call that could create one. */
    method GetGlobalProperties() returns (id: nat)
      requires Valid()
      modifies Repr
      ensures Valid() && fresh(Repr - old(Repr)) && old(Repr) <= Repr
      ensures id == globalId && cleanups == old(cleanups) && stored == old(stored)
      ensures old(globalId) != 0 ==> Same() && id == old(globalId) && lastId == old(lastId)
      ensures old(globalId) == 0 ==> lastId == NextId(old(lastId)) && id == if lastId in old(view) then 0 else lastId
      ensures view == if id == old(globalId) then old(view) else old(view)[id := map[]]
      ensures old(groups) != null ==> groups != null
    {
      hide OwedByStore, GroupsOK, GroupOK, Whole;
      id := globalId;
      if id == 0 {
        id := CreateProperties();
        SetGlobal(id);
      }
    }

    method SetGlobal(id: nat)
      requires Valid() && groups != null
      modifies this`globalId
      ensures Valid() && globalId == id && groups != null
    {
      hide IsMap, OwedByStore, GroupOK, Whole;
      Parts();
      globalId := id;
      TableAlso();
      StaysWhole(SELF);
    }

    /** The table of groups does not care about the global id while it exists. */
    twostate lemma TableAlso()
      requires old(GroupsOK()) && OnlyIn(SELF) && old(owner).Keys == old(Repr) && groups != null
      requires this in old(owner) && old(owner)[this] == SELF
      requires groups == old(groups) && held == old(held)
      ensures GroupsOK() && groups.Repr == old(groups.Repr)
    {
      hide IsMap;
      assert groups as object != this;
      assert forall o :: o in old(groups.Repr) ==> unchanged(o);
    }

    /** SDL_QuitProperties: nothing is left, and every cleanup ever stored has been called. */
    method QuitProperties()
      requires Valid()
      modifies Repr
      ensures Valid() && Repr == old(Repr) && groups == null && globalId == 0
      ensures view == map[] && stored == old(stored) && lastId == old(lastId)
      ensures multiset(cleanups) == stored
    {
      hide IsMap, OwedByStore, OwedByGroup, Group.Valid, Group.View, GroupsOK, GroupOK, Whole;
      Parts();
      GlobalNeedsTable();
      if globalId != 0 {
        DestroyProperties(globalId);
        Parts();
      }
      DestroyGroups();
    }

    lemma GlobalNeedsTable()
      requires GroupsOK()
      ensures groups == null ==> globalId == 0 && held == map[]
    {
    }

    /** The second half of SDL_QuitProperties. */
    method DestroyGroups()
      requires Valid()
      modifies this
      ensures Valid() && Repr == old(Repr) && groups == null && globalId == 0
      ensures view == map[] && stored == old(stored) && lastId == old(lastId)
      ensures multiset(cleanups) == stored
    {
      hide IsMap, OwedByStore, OwedByGroup, Group.Valid, Group.View, GroupsOK, GroupOK, Whole;
      Parts();
      GlobalNeedsTable();
      NoneOwed();
      if groups != null {
        TableFacts();
        forall id | id in live ensures live[id].Valid() && view[id] == live[id].View() {
          GroupAt(id);
        }
        var items := Nuke(groups, live);
        var calls := DestroyEach(groups, items, live, view);
        cleanups := cleanups + calls;
        groups, live, held, view := null, map[], map[], map[];
      }
      globalId := 0;
      TableGone();
      StaysWhole(SELF);
    }

    lemma TableGone()
      requires groups == null && held == map[] && globalId == 0
      ensures GroupsOK()
    {
    }
  }

  lemma NoneOwed()
    ensures OwedByStore(map[]) == multiset{}
  {
  }

  /** The nuke callback on every group of the table. */
  method DestroyEach(t: HashTable<nat, Group>, items: seq<Item<nat, Group>>, ghost m: map<nat, Group>, ghost v: Store)
    returns (calls: seq<Call>)
    requires PlainKeys(t) && Spells(t, items, m) && m.Keys == v.Keys
    requires forall id :: id in m ==> m[id].Valid() && v[id] == m[id].View()
    ensures multiset(calls) == OwedByStore(v)
  {
    hide PlainKeys, Spells, OwedByStore, OwedByGroup, Group.Valid, Group.View;
    ghost var left, owing := m, v;
    calls := [];
    for i := 0 to |items|
      invariant Spells(t, items[i..], left) && left.Keys == owing.Keys
      invariant forall id :: id in left ==> left[id].Valid() && owing[id] == left[id].View()
      invariant multiset(calls) + OwedByStore(owing) == OwedByStore(v)
    {
      SpellsRest(t, items[i..], left);
      ghost var id := items[i].key;
      assert items[i..][1..] == items[i + 1..];
      var done := items[i].value.Destroy();
      DestroyMovesCalls(owing, id, calls, done);
      calls := calls + done;
      left, owing := left - {id}, owing - {id};
    }
    assert items[|items|..] == [];
    SpellsNothing(t, left);
    assert owing == map[];
    NoneOwed();
  }
}
