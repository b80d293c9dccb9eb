/** A hash table that does not stack and whose keys match by equality is a map. */
module MapTable {
  import opened Wrappers
  import opened HashTable

  ghost predicate PlainKeys<K(!new), V>(t: HashTable<K, V>) {
    !t.stackable && forall a, b :: t.keymatch(a, b) <==> a == b
  }

  /** The stack of `k` in a table holding `m`. */
  ghost function ValuesOf<K, V>(m: map<K, V>, k: K): seq<V> {
    if k in m then [m[k]] else []
  }

  /** The table holds exactly the entries of `m`. */
  ghost predicate IsMap<K(!new), V>(t: HashTable<K, V>, m: map<K, V>)
    reads t, t.Repr
  {
    && t.Valid() && PlainKeys(t)
    && forall k :: t.Stack(k) == ValuesOf(m, k)
  }

  /** Look up: the table answers as the map. */
  method Lookup<K(!new), V>(t: HashTable<K, V>, key: K, ghost m: map<K, V>) returns (found: Option<V>)
    requires IsMap(t, m)
    ensures found == if key in m then Some(m[key]) else None
  {
    found := t.Find(key);
  }

  lemma TableIsOwned<K(!new), V>(t: HashTable<K, V>)
    requires t.Valid()
    ensures t in t.Repr && t.table in t.Repr
  {
  }

  /** Insert: refused exactly when the key is present. */
  method Put<K(!new), V>(t: HashTable<K, V>, key: K, value: V, ghost m: map<K, V>) returns (ok: bool)
    requires IsMap(t, m)
    modifies t.Repr
    ensures fresh(t.Repr - old(t.Repr)) && old(t.Repr) <= t.Repr
    ensures ok == (key !in m)
    ensures IsMap(t, if ok then m[key := value] else m)
  {
    hide HashTable.Valid, HashTable.Stack, HashTable.Consistent;
    TableIsOwned(t);
    ok := t.Insert(key, value);
  }

  /** Remove: hands back the value that was there. */
  method Drop<K(!new), V>(t: HashTable<K, V>, key: K, ghost m: map<K, V>) returns (gone: Option<V>)
    requires IsMap(t, m)
    modifies t.Repr
    ensures t.Repr == old(t.Repr)
    ensures gone == if key in m then Some(m[key]) else None
    ensures IsMap(t, m - {key})
  {
    hide HashTable.Valid, HashTable.Stack, HashTable.Consistent;
    ghost var before := t.Stack(key);
    assert before == ValuesOf(m, key);
    var item := t.Remove(key);
    if item.Some? {
      assert before == [item.value.value] + t.Stack(key);
      assert before[0] == item.value.value;
      gone := Some(item.value.value);
    } else {
      gone := None;
    }
  }

  /** A sequence of items that, read key by key, is the map. */
  ghost predicate Spells<K(!new), V>(t: HashTable<K, V>, s: seq<Item<K, V>>, m: map<K, V>) {
    forall k :: t.Matching(s, k) == ValuesOf(m, k)
  }

  lemma OrderSpells<K(!new), V>(t: HashTable<K, V>, m: map<K, V>)
    requires IsMap(t, m)
    ensures Spells(t, t.Order(), m)
  {
    forall k ensures t.Matching(t.Order(), k) == ValuesOf(m, k) {
      t.OrderIsEverything(k);
    }
  }

  /** Taking the first item off takes its key out of the map. */
  lemma SpellsRest<K(!new), V>(t: HashTable<K, V>, s: seq<Item<K, V>>, m: map<K, V>)
    requires PlainKeys(t) && Spells(t, s, m) && s != []
    ensures s[0].key in m && m[s[0].key] == s[0].value
    ensures Spells(t, s[1..], m - {s[0].key})
  {
    var x := s[0];
    assert ValuesOf(m, x.key) == t.Matching(s, x.key) == [x.value] + t.Matching(s[1..], x.key);
    assert ValuesOf(m, x.key)[0] == x.value;
    forall k ensures t.Matching(s[1..], k) == ValuesOf(m - {x.key}, k) {
      assert t.Matching(s, k) == (if k == x.key then [x.value] else []) + t.Matching(s[1..], k);
    }
  }

  lemma SpellsNothing<K(!new), V>(t: HashTable<K, V>, m: map<K, V>)
    requires Spells(t, [], m)
    ensures m == map[]
  {
    forall k ensures k !in m {
      assert t.Matching([], k) == ValuesOf(m, k);
    }
  }

  /** So an iteration meets every key exactly once. */
  lemma {:induction false} SpellsEachKeyOnce<K(!new), V>(t: HashTable<K, V>, s: seq<Item<K, V>>, m: map<K, V>)
    requires PlainKeys(t) && Spells(t, s, m)
    ensures |s| == |m|
    ensures forall i, j :: 0 <= i < j < |s| ==> s[i].key != s[j].key
    ensures forall i :: 0 <= i < |s| ==> s[i].key in m && m[s[i].key] == s[i].value
    ensures forall k :: k in m ==> exists i :: 0 <= i < |s| && s[i].key == k
  {
    if s == [] {
      SpellsNothing(t, m);
    } else {
      var x, rest, less := s[0], s[1..], m - {s[0].key};
      SpellsRest(t, s, m);
      SpellsEachKeyOnce(t, rest, less);
      hide PlainKeys, Spells;
      assert m == less[x.key := x.value];
      forall k | k in m ensures exists i :: 0 <= i < |s| && s[i].key == k {
        if k != x.key {
          var i :| 0 <= i < |rest| && rest[i].key == k;
          assert s[i + 1].key == k;
        }
      }
    }
  }

  /** Iterating the table spells out the map. */
  method Visit<K(!new), V>(t: HashTable<K, V>, ghost m: map<K, V>) returns (items: seq<Item<K, V>>)
    requires IsMap(t, m)
    ensures PlainKeys(t) && Spells(t, items, m)
  {
    OrderSpells(t, m);
    hide HashTable.Valid, HashTable.Stack, HashTable.Consistent, Spells;
    items := t.VisitAll();
  }

  /** Destroying the table hands out every entry of the map. */
  method Nuke<K(!new), V>(t: HashTable<K, V>, ghost m: map<K, V>) returns (items: seq<Item<K, V>>)
    requires IsMap(t, m)
    ensures PlainKeys(t) && Spells(t, items, m)
  {
    OrderSpells(t, m);
    hide HashTable.Valid, HashTable.Stack, HashTable.Consistent, Spells;
    items := t.Destroy();
  }
}
