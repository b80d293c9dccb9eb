/** SDL_Properties: one group of named values on a hash table, with cached renderings. */
module PropertyGroup {
  import opened Wrappers
  import opened HashTable
  import opened MapTable
  import opened PropertyValues

  /** SDL_Property: the value is fixed, the rendered string is filled in on demand. */
  class Property {
    const value: Value
    var stringStorage: Option<string>

    constructor (value: Value)
      ensures this.value == value && stringStorage == None
    {
      this.value := value;
      stringStorage := None;
    }
  }

  /** The values behind the objects. */
  ghost function ViewOf(m: map<string, Property>): Names {
    map n | n in m :: m[n].value
  }

  lemma ViewChanges(m: map<string, Property>, name: string)
    ensures ViewOf(m - {name}) == ViewOf(m) - {name}
    ensures forall p: Property :: ViewOf(m[name := p]) == ViewOf(m)[name := p.value]
    ensures name in ViewOf(m) <==> name in m
    ensures name in m ==> ViewOf(m)[name] == m[name].value
  {
  }

  class Group {
    const libc: Libc
    const props: HashTable<string, Property>
    ghost var names: map<string, Property>
    ghost var Repr: set<object>

    /** A filled string cache is the rendering of its own number or float. */
    ghost predicate CacheOK(p: Property)
      reads p
    {
      p.stringStorage.Some? ==> p.stringStorage == Rendered(libc, p.value)
    }

    ghost predicate Valid()
      reads this, Repr
    {
      && this in Repr
      && props in Repr && props in props.Repr && props.Repr <= Repr && this !in props.Repr
      && IsMap(props, names)
      && (forall n :: n in names ==> names[n] in Repr && names[n] !in props.Repr && CacheOK(names[n]))
    }

    ghost function View(): Names
      reads this
    {
      ViewOf(names)
    }

    constructor (libc: Libc, hashName: string -> nat)
      ensures Valid() && fresh(Repr) && this in Repr && this.libc == libc && View() == map[]
    {
      hide HashTable.Valid;
      this.libc := libc;
      var t := new HashTable<string, Property>(4, hashName, (a, b) => a == b, false);
      props := t;
      names := map[];
      Repr := {this, t} + t.Repr;
      new;
      assert IsMap(props, map[]);
    }

    /** SDL_FindInHashTable on the group. */
    method Find(name: string) returns (found: Option<Property>)
      requires Valid()
      ensures found == if name in names then Some(names[name]) else None
      ensures found.Some? == (name in View()) && (found.Some? ==> found.value.value == View()[name])
    {
      hide IsMap, ViewOf;
      ViewChanges(names, name);
      found := Lookup(props, name, names);
    }

    /** SDL_RemoveFromHashTable on the group; the property is the one to be freed. */
    method Clear(name: string) returns (gone: Option<Property>)
      requires Valid()
      modifies Repr
      ensures Valid() && Repr == old(Repr)
      ensures names == old(names) - {name}
      ensures gone == if name in old(names) then Some(old(names)[name]) else None
      ensures View() == old(View()) - {name}
      ensures gone.Some? == (name in old(View())) && (gone.Some? ==> gone.value.value == old(View())[name])
    {
      hide IsMap, ViewOf;
      ViewChanges(names, name);
      gone := Drop(props, name, names);
      names := names - {name};
    }

    /** SDL_InsertIntoHashTable on the group. */
    method Add(name: string, p: Property) returns (ok: bool)
      requires Valid() && p !in Repr && CacheOK(p)
      modifies Repr
      ensures Valid() && fresh(Repr - old(Repr) - {p}) && old(Repr) <= Repr
      ensures ok == (name !in old(names)) && (ok ==> p in Repr)
      ensures names == if ok then old(names)[name := p] else old(names)
      ensures ok == (name !in old(View())) && View() == if ok then old(View())[name := p.value] else old(View())
    {
      hide IsMap, ViewOf;
      ViewChanges(names, name);
      ok := Put(props, name, p, names);
      Repr := Repr + props.Repr;
      if ok {
        names := names[name := p];
        Repr := Repr + {p};
      }
    }

    /** SDL_GetStringProperty on the group: a number or float is rendered once and then kept. */
    method GetString(name: string, defaultValue: Option<string>) returns (text: Option<string>)
      requires Valid()
      modifies Repr
      ensures Valid() && Repr == old(Repr) && names == old(names)
      ensures View() == old(View())
      ensures text == if name in View() then AsText(libc, View()[name], defaultValue) else defaultValue
    {
      hide IsMap, ViewOf;
      ViewChanges(names, name);
      text := defaultValue;
      var found := Lookup(props, name, names);
      if found.Some? {
        var p := found.value;
        match p.value {
          case PointerValue(_, _, _) =>
          case StringValue(s) =>
            text := Some(s);
          case NumberValue(n) =>
            if p.stringStorage == None {
              p.stringStorage := Some(libc.formatNumber(n));
            }
            text := p.stringStorage;
          case FloatValue(f) =>
            if p.stringStorage == None {
              p.stringStorage := Some(libc.formatFloat(f));
            }
            text := p.stringStorage;
          case BooleanValue(b) =>
            text := Some(if b then "true" else "false");
        }
      }
    }

    /** The loop of SDL_EnumerateProperties: every name exactly once. */
    method Keys() returns (keys: seq<string>)
      requires Valid()
      ensures |keys| == |names|
      ensures forall i, j :: 0 <= i < j < |keys| ==> keys[i] != keys[j]
      ensures forall n :: n in keys <==> n in View()
    {
      hide IsMap, PlainKeys, Spells;
      var items := Visit(props, names);
      SpellsEachKeyOnce(props, items, names);
      keys := [];
      for i := 0 to |items|
        invariant |keys| == i
        invariant forall j :: 0 <= j < i ==> keys[j] == items[j].key
      {
        keys := keys + [items[i].key];
      }
    }

    /** SDL_DestroyHashTable on the group, with the nuke callback that frees each property: the
        cleanup calls made are exactly those the group owed. */
    method Destroy() returns (calls: seq<Call>)
      requires Valid()
      ensures multiset(calls) == OwedByGroup(View())
    {
      hide IsMap, PlainKeys, Spells, ViewOf, Owed, OwedByGroup;
      var items := Nuke(props, names);
      calls := FreeAll(props, items, names);
    }
  }

  /** The nuke callback on every property of a table. */
  method FreeAll(t: HashTable<string, Property>, items: seq<Item<string, Property>>, ghost m: map<string, Property>)
    returns (calls: seq<Call>)
    requires PlainKeys(t) && Spells(t, items, m)
    ensures multiset(calls) == OwedByGroup(ViewOf(m))
  {
    hide PlainKeys, Spells, ViewOf, Owed, CallsFor, OwedByGroup, OwedIn;
    ghost var left := m;
    calls := [];
    for i := 0 to |items|
      invariant Spells(t, items[i..], left)
      invariant multiset(calls) + OwedByGroup(ViewOf(left)) == OwedByGroup(ViewOf(m))
    {
      FreeStep(t, items[i..], left, calls);
      calls := calls + CallsFor(items[i].value.value);
      left := left - {items[i].key};
      assert items[i..][1..] == items[i + 1..];
    }
    assert items[|items|..] == [];
    SpellsNothing(t, left);
    NothingOwed();
  }

  lemma FreeStep(t: HashTable<string, Property>, s: seq<Item<string, Property>>, m: map<string, Property>,
      calls: seq<Call>)
    requires PlainKeys(t) && Spells(t, s, m) && s != []
    ensures Spells(t, s[1..], m - {s[0].key})
    ensures multiset(calls) + OwedByGroup(ViewOf(m))
      == multiset(calls + CallsFor(s[0].value.value)) + OwedByGroup(ViewOf(m - {s[0].key}))
  {
    hide PlainKeys, Spells, ViewOf, Owed, CallsFor, OwedByGroup, OwedIn;
    SpellsRest(t, s, m);
    ViewChanges(m, s[0].key);
    GroupUpdate(ViewOf(m), s[0].key, s[0].value.value);
    OwedWhenPresent(ViewOf(m), s[0].key);
    CallsAreOwed(s[0].value.value, calls);
  }

  lemma NothingOwed()
    ensures ViewOf(map[]) == map[] && OwedByGroup(map[]) == multiset{}
  {
  }
}
