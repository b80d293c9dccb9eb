/** src/SDL_hashtable.c: chained buckets of linked items, for any key type, match and hash. */
module HashTable {
  import opened Wrappers
  import opened Sequences

  /** SDL_HashItem: its key and value never change, only its link does. */
  class Item<K, V> {
    const key: K
    const value: V
    var next: Item?<K, V>

    constructor (key: K, value: V, next: Item?<K, V>)
      ensures this.key == key && this.value == value && this.next == next
    {
      this.key, this.value, this.next := key, value, next;
    }
  }

  // ---------- masking a hash ----------

  /** Bitwise and of two unsigned numbers. */
  function And(a: nat, b: nat): nat {
    if a == 0 || b == 0 then 0
    else (if a % 2 == 1 && b % 2 == 1 then 1 else 0) + 2 * And(a / 2, b / 2)
  }

  /** `num_buckets` as SDL_CreateHashTable accepts it. */
  predicate PowerOfTwo(n: nat) {
    n != 0 && And(n, n - 1) == 0
  }

  lemma {:induction false} AndBelow(a: nat, b: nat)
    ensures And(a, b) <= b
    ensures And(a, a) == a
  {
    if a != 0 && b != 0 {
      AndBelow(a / 2, b / 2);
    }
    if a != 0 {
      AndBelow(a / 2, a / 2);
    }
  }

  lemma HalfPower(n: nat)
    requires PowerOfTwo(n) && n > 1
    ensures n % 2 == 0 && PowerOfTwo(n / 2)
    ensures (n - 1) % 2 == 1 && (n - 1) / 2 == n / 2 - 1
  {
    if n % 2 == 1 {
      OddHasNoHole(n);
    }
  }

  lemma OddHasNoHole(n: nat)
    requires n % 2 == 1 && n > 1
    ensures And(n, n - 1) > 0
  {
    assert (n - 1) / 2 == n / 2;
    AndBelow(n / 2, n / 2);
  }

  function TwoTo(k: nat): nat {
    if k == 0 then 1 else 2 * TwoTo(k - 1)
  }

  lemma {:induction false} PowersPass(k: nat)
    ensures PowerOfTwo(TwoTo(k))
  {
    if k > 0 {
      PowersPass(k - 1);
      var m := TwoTo(k - 1);
      assert (2 * m - 1) / 2 == m - 1 && (2 * m) % 2 == 0;
    }
  }

  lemma {:induction false} PowerOf(n: nat) returns (k: nat)
    requires PowerOfTwo(n)
    ensures n == TwoTo(k)
  {
    if n == 1 {
      k := 0;
    } else {
      HalfPower(n);
      k := PowerOf(n / 2);
      k := k + 1;
    }
  }

  /** The test accepts exactly the powers of two. */
  lemma AcceptsPowersOfTwo(n: nat)
    ensures PowerOfTwo(n) <==> exists k :: n == TwoTo(k)
  {
    if PowerOfTwo(n) {
      var k := PowerOf(n);
    } else if k :| n == TwoTo(k) {
      PowersPass(k);
    }
  }

  lemma AtLeastOnce(n: int, d: int)
    requires n > 0 && d > 0
    ensures n * d >= n
  {
  }

  /** Quotient and remainder are unique. */
  lemma RemainderIs(h: nat, n: nat, t: int, r: nat)
    requires r < n && h == n * t + r
    ensures h % n == r
  {
    var d := h / n - t;
    assert h == n * (h / n) + h % n;
    assert n * d == r - h % n;
    if d > 0 {
      AtLeastOnce(n, d);
    } else if d < 0 {
      AtLeastOnce(n, -d);
    }
  }

  lemma HalfRemainder(h: nat, m: nat)
    requires m > 0
    ensures h % (2 * m) == h % 2 + 2 * (h / 2 % m)
  {
    var t, r := h / 2 / m, h / 2 % m;
    assert h / 2 == m * t + r;
    assert h == 2 * m * t + (2 * r + h % 2);
    RemainderIs(h, 2 * m, t, 2 * r + h % 2);
  }

  /** The mask is a block of low bits: masking is the remainder, so every bucket can be reached. */
  lemma {:induction false} MaskIsRemainder(h: nat, n: nat)
    requires PowerOfTwo(n)
    ensures And(h, n - 1) == h % n
    decreases n
  {
    if n > 1 {
      HalfPower(n);
      MaskIsRemainder(h / 2, n / 2);
      HalfRemainder(h, n / 2);
    }
  }

  /** The first item of `s` from position `i` on, or null when there is none. */
  ghost function ItemAt<K, V>(s: seq<Item<K, V>>, i: nat): Item?<K, V> {
    if i < |s| then s[i] else null
  }

  /** `head` and the `next` links spell out the chain `s`. */
  ghost predicate Linked<K, V>(head: Item?<K, V>, s: seq<Item<K, V>>)
    reads s
  {
    && head == ItemAt(s, 0)
    && forall i :: 0 <= i < |s| ==> s[i].next == ItemAt(s, i + 1)
  }

  /** A new item in front of a chain. */
  lemma LinkFront<K, V>(item: Item<K, V>, head: Item?<K, V>, s: seq<Item<K, V>>)
    requires Linked(head, s) && item.next == head
    ensures Linked(item, [item] + s)
  {
    var u := [item] + s;
    forall i | 0 <= i < |u| ensures u[i].next == ItemAt(u, i + 1) {
      assert ItemAt(u, i + 1) == ItemAt(s, i);
      if i > 0 {
        assert u[i] == s[i - 1];
      }
    }
  }

  lemma DistinctConcat<T>(s: seq<T>, u: seq<T>)
    requires Distinct(s) && Distinct(u) && forall x :: x in s ==> x !in u
    ensures Distinct(s + u)
  {
    forall i, j | 0 <= i < j < |s + u| ensures (s + u)[i] != (s + u)[j] {
      assert i < |s| ==> s[i] in s;
    }
  }

  lemma DistinctCut<T>(s: seq<T>, n: nat)
    requires n < |s| && Distinct(s)
    ensures Distinct(s[..n] + s[n + 1..])
  {
    CutIndex(s, n);
  }

  lemma CutItemAt<K, V>(s: seq<Item<K, V>>, n: nat, i: nat)
    requires n < |s|
    ensures ItemAt(s[..n] + s[n + 1..], i) == ItemAt(s, if i < n then i else i + 1)
    ensures ItemAt(s[..n] + s[n + 1..], i + 1) == ItemAt(s, if i + 1 < n then i + 1 else i + 2)
  {
    CutIndex(s, n);
  }

  lemma Shift<T>(done: seq<T>, x: T, rest: seq<T>)
    ensures done + ([x] + rest) == done + [x] + rest && |[x] + rest| == 1 + |rest|
  {
  }

  ghost function Flatten<T>(chains: seq<seq<T>>): seq<T> {
    if chains == [] then [] else chains[0] + Flatten(chains[1..])
  }

  lemma {:induction false} FlattenSplit<T>(chains: seq<seq<T>>, b: nat)
    requires b <= |chains|
    ensures Flatten(chains) == Flatten(chains[..b]) + Flatten(chains[b..])
  {
    if b > 0 {
      FlattenSplit(chains[1..], b - 1);
      assert chains[..b][1..] == chains[1..][..b - 1];
      assert chains[b..] == chains[1..][b - 1..];
    }
  }

  lemma {:induction false} FlattenHas<T>(chains: seq<seq<T>>, x: T)
    ensures x in Flatten(chains) <==> exists b :: 0 <= b < |chains| && x in chains[b]
  {
    if chains != [] {
      FlattenHas(chains[1..], x);
      assert forall b :: 0 <= b < |chains[1..]| ==> chains[1..][b] == chains[b + 1];
      if b :| 0 <= b < |chains| && x in chains[b] && b > 0 {
        assert x in chains[1..][b - 1];
      }
    }
  }

  class HashTable<K(!new), V> {
    const table: array<Item?<K, V>>
    const tableLen: nat
    const stackable: bool
    const hash: K -> nat
    const keymatch: (K, K) -> bool
    /** The items of each bucket, in chain order. */
    ghost var chains: seq<seq<Item<K, V>>>
    ghost var Repr: set<object>

    /** The match is an equivalence and the hash respects it. */
    ghost predicate Consistent() {
      && (forall a :: keymatch(a, a))
      && (forall a, b :: keymatch(a, b) ==> keymatch(b, a) && hash(a) == hash(b))
      && (forall a, b, c :: keymatch(a, b) && keymatch(b, c) ==> keymatch(a, c))
    }

    /** calc_hash. */
    function CalcHash(key: K): (b: nat)
      requires tableLen != 0
      ensures b < tableLen
    {
      AndBelow(hash(key), tableLen - 1);
      And(hash(key), tableLen - 1)
    }

    /** Bucket `b`: linked from `head`, no item twice, every key hashing here. */
    ghost predicate ChainOK(b: nat, head: Item?<K, V>, s: seq<Item<K, V>>)
      requires tableLen != 0
      reads s
    {
      && Distinct(s)
      && Linked(head, s)
      && forall i :: 0 <= i < |s| ==> CalcHash(s[i].key) == b
    }

    ghost predicate Owned(s: seq<Item<K, V>>)
      reads this
    {
      forall i :: 0 <= i < |s| ==> s[i] in Repr
    }

    ghost predicate Valid()
      reads this, Repr
    {
      && this in Repr && table in Repr
      && PowerOfTwo(tableLen) && tableLen != 0 && Consistent()
      && |chains| == table.Length == tableLen
      && (forall b :: 0 <= b < |chains| ==> Owned(chains[b]))
      && (forall b :: 0 <= b < |chains| ==> ChainOK(b, table[b], chains[b]))
    }

    // ---------- the abstract table ----------

    /** The values stored for `key` in a chain, newest first. */
    ghost function Matching(s: seq<Item<K, V>>, key: K): seq<V> {
      if s == [] then []
      else (if keymatch(key, s[0].key) then [s[0].value] else []) + Matching(s[1..], key)
    }

    /** The stack of values of `key`, newest first. */
    ghost function Stack(key: K): seq<V>
      requires Valid()
      reads this, Repr
    {
      Matching(chains[CalcHash(key)], key)
    }

    /** Every stored item, in iteration order. */
    ghost function Order(): seq<Item<K, V>>
      reads this
    {
      Flatten(chains)
    }

    constructor (numBuckets: nat, hash: K -> nat, keymatch: (K, K) -> bool, stackable: bool)
      requires PowerOfTwo(numBuckets)
      requires forall a :: keymatch(a, a)
      requires forall a, b :: keymatch(a, b) ==> keymatch(b, a) && hash(a) == hash(b)
      requires forall a, b, c :: keymatch(a, b) && keymatch(b, c) ==> keymatch(a, c)
      ensures Valid() && fresh(Repr)
      ensures this.hash == hash && this.keymatch == keymatch && this.stackable == stackable
      ensures forall k :: Stack(k) == []
      ensures chains == seq(numBuckets, i => [])
    {
      this.hash, this.keymatch, this.stackable, this.tableLen := hash, keymatch, stackable, numBuckets;
      var t: array<Item?<K, V>> := new Item?<K, V>[numBuckets](i => null);
      table := t;
      chains := seq(numBuckets, i => []);
      Repr := {this, t};
    }

    /** SDL_CreateHashTable: null for a size that is not a power of two. */
    static method Create(numBuckets: nat, hash: K -> nat, keymatch: (K, K) -> bool, stackable: bool)
      returns (t: HashTable?<K, V>)
      requires forall a :: keymatch(a, a)
      requires forall a, b :: keymatch(a, b) ==> keymatch(b, a) && hash(a) == hash(b)
      requires forall a, b, c :: keymatch(a, b) && keymatch(b, c) ==> keymatch(a, c)
      ensures t == null <==> !PowerOfTwo(numBuckets)
      ensures t != null ==> t.Valid() && fresh(t.Repr) && t.stackable == stackable && forall k :: t.Stack(k) == []
    {
      hide And;
      if numBuckets == 0 || And(numBuckets, numBuckets - 1) != 0 {
        return null;
      }
      t := new HashTable(numBuckets, hash, keymatch, stackable);
    }

    /** SDL_FindInHashTable. */
    method Find(key: K) returns (found: Option<V>)
      requires Valid()
      ensures found == (if Stack(key) == [] then None else Some(Stack(key)[0]))
    {
      var b := CalcHash(key);
      var i := table[b];
      ghost var n := 0;
      while i != null
        invariant 0 <= n <= |chains[b]|
        invariant i == ItemAt(chains[b], n)
        invariant Matching(chains[b][n..], key) == Stack(key)
        decreases |chains[b]| - n
      {
        assert chains[b][n..][1..] == chains[b][n + 1..];
        if keymatch(key, i.key) {
          return Some(i.value);
        }
        i := i.next;
        n := n + 1;
      }
      return None;
    }

    // ---------- changing the table ----------

    lemma {:induction false} MatchingAppend(s: seq<Item<K, V>>, u: seq<Item<K, V>>, key: K)
      ensures Matching(s + u, key) == Matching(s, key) + Matching(u, key)
    {
      if s == [] {
        assert s + u == u;
      } else {
        assert (s + u)[1..] == s[1..] + u && (s + u)[0] == s[0];
        MatchingAppend(s[1..], u, key);
        var own: seq<V> := if keymatch(key, s[0].key) then [s[0].value] else [];
        assert own + (Matching(s[1..], key) + Matching(u, key)) == own + Matching(s[1..], key) + Matching(u, key);
      }
    }

    lemma {:induction false} NoneMatch(s: seq<Item<K, V>>, key: K)
      requires forall i :: 0 <= i < |s| ==> !keymatch(key, s[i].key)
      ensures Matching(s, key) == []
    {
      if s != [] {
        NoneMatch(s[1..], key);
      }
    }

    /** The values `key` gains or loses with one item whose key is `added`. */
    ghost function Own(key: K, added: K, value: V): seq<V> {
      if keymatch(key, added) then [value] else []
    }

    /** Putting `item` at the head of its bucket. */
    lemma Pushed(before: seq<seq<Item<K, V>>>, item: Item<K, V>, k: K)
      requires Consistent() && tableLen != 0 && |before| == tableLen
      ensures var b := CalcHash(item.key);
        Matching(before[b := [item] + before[b]][CalcHash(k)], k)
        == Own(k, item.key, item.value) + Matching(before[CalcHash(k)], k)
    {
      var b := CalcHash(item.key);
      assert ([item] + before[b])[1..] == before[b];
    }

    lemma ChainFront(b: nat, item: Item<K, V>, s: seq<Item<K, V>>)
      requires tableLen != 0 && ChainOK(b, item.next, s) && item !in s && CalcHash(item.key) == b
      ensures ChainOK(b, item, [item] + s)
    {
      hide CalcHash;
      LinkFront(item, item.next, s);
      hide Linked;
    }

    /** SDL_InsertIntoHashTable. */
    method Insert(key: K, value: V) returns (ok: bool)
      requires Valid()
      modifies this`chains, this`Repr, table
      ensures Valid() && fresh(Repr - old(Repr)) && old(Repr) <= Repr
      ensures ok == (stackable || old(Stack(key)) == [])
      ensures forall k :: Stack(k) == (if ok then Own(k, key, value) else []) + old(Stack(k))
    {
      hide Consistent, PowerOfTwo, CalcHash, Matching, Own, Linked, Distinct;
      var b := CalcHash(key);
      if !stackable {
        var present := Find(key);
        if present.Some? {
          return false;
        }
      }
      ok := true;
      var item := new Item(key, value, table[b]);
      ghost var before := chains;
      forall k ensures Matching(before[b := [item] + before[b]][CalcHash(k)], k)
        == Own(k, key, value) + Matching(before[CalcHash(k)], k) {
        Pushed(before, item, k);
      }
      table[b] := item;
      chains := before[b := [item] + before[b]];
      Repr := Repr + {item};
      ChainFront(b, item, before[b]);
    }

    /** Taking out of its bucket the first item that matches `key`. */
    lemma Unlinked(before: seq<seq<Item<K, V>>>, n: nat, key: K, k: K)
      requires Consistent() && tableLen != 0 && |before| == tableLen
      requires var s := before[CalcHash(key)];
        n < |s| && keymatch(key, s[n].key) && forall i :: 0 <= i < n ==> !keymatch(key, s[i].key)
      ensures var b := CalcHash(key);
        var s := before[b];
        Matching(before[CalcHash(k)], k)
        == Own(k, key, s[n].value) + Matching(before[b := s[..n] + s[n + 1..]][CalcHash(k)], k)
    {
      var s := before[CalcHash(key)];
      var pre, post := s[..n], s[n + 1..];
      if CalcHash(k) == CalcHash(key) {
        assert s == pre + ([s[n]] + post);
        MatchingAppend(pre, [s[n]] + post, k);
        MatchingAppend(pre, post, k);
        assert ([s[n]] + post)[1..] == post;
        if keymatch(k, key) {
          NoneMatch(pre, k);
        }
      }
    }

    /** The walk of SDL_RemoveFromHashTable: the first match in a bucket and the item before it. */
    method Locate(b: nat, key: K) returns (prev: Item?<K, V>, item: Item?<K, V>, ghost n: nat)
      requires Valid() && b < table.Length
      ensures n <= |chains[b]| && item == ItemAt(chains[b], n)
      ensures prev == (if n > 0 then chains[b][n - 1] else null)
      ensures forall i :: 0 <= i < n ==> !keymatch(key, chains[b][i].key)
      ensures item != null ==> keymatch(key, item.key)
    {
      hide Consistent, PowerOfTwo, CalcHash;
      item := table[b];
      prev := null;
      n := 0;
      while item != null && !keymatch(key, item.key)
        invariant 0 <= n <= |chains[b]| && item == ItemAt(chains[b], n)
        invariant prev == (if n > 0 then chains[b][n - 1] else null)
        invariant forall i :: 0 <= i < n ==> !keymatch(key, chains[b][i].key)
        decreases |chains[b]| - n
      {
        prev, item := item, item.next;
        n := n + 1;
      }
    }

    /** SDL_RemoveFromHashTable; the item is the one handed to the nuke callback. */
    method Remove(key: K) returns (nuked: Option<Item<K, V>>)
      requires Valid()
      modifies Repr
      ensures Valid() && Repr == old(Repr)
      ensures nuked.None? <==> old(Stack(key)) == []
      ensures nuked.Some? ==> keymatch(key, nuked.value.key)
      ensures forall k :: old(Stack(k)) == (if nuked.Some? then Own(k, key, nuked.value.value) else []) + Stack(k)
    {
      hide Consistent, PowerOfTwo, CalcHash, Matching, Own, Distinct, Linked;
      var b := CalcHash(key);
      var prev, item, n := Locate(b, key);
      ghost var before := chains;
      ghost var chain := chains[b];
      if item == null {
        NoneMatch(chain, key);
        return None;
      }
      ghost var after := before[b := chain[..n] + chain[n + 1..]];
      forall k ensures Matching(before[CalcHash(k)], k)
        == Own(k, key, item.value) + Matching(after[CalcHash(k)], k) {
        Unlinked(before, n, key, k);
      }
      OwnItself(key, item.value);
      NotElsewhere(b, chain, n);
      Unlink(b, prev, item, chain, n);
      chains := after;
      return Some(item);
    }

    /** The two ways of taking `item` out of its chain. */
    method Unlink(b: nat, prev: Item?<K, V>, item: Item<K, V>, ghost chain: seq<Item<K, V>>, ghost n: nat)
      requires b < table.Length && tableLen != 0 && ChainOK(b, table[b], chain)
      requires n < |chain| && item == chain[n] && prev == (if n > 0 then chain[n - 1] else null)
      modifies table, prev
      ensures ChainOK(b, table[b], chain[..n] + chain[n + 1..])
      ensures forall c :: 0 <= c < table.Length && c != b ==> table[c] == old(table[c])
    {
      hide CalcHash;
      if prev != null {
        prev.next := item.next;
      } else {
        table[b] := item.next;
      }
      ChainCut(b, table[b], chain, n);
    }

    lemma NotElsewhere(b: nat, chain: seq<Item<K, V>>, n: nat)
      requires Valid() && b < |chains| && chains[b] == chain && n < |chain|
      ensures forall c :: 0 <= c < |chains| && c != b ==>
        chain[n] !in chains[c] && (n > 0 ==> chain[n - 1] !in chains[c])
    {
      hide CalcHash, Consistent, Linked, Distinct;
    }

    lemma OwnItself(key: K, value: V)
      requires Consistent()
      ensures Own(key, key, value) == [value] && keymatch(key, key)
    {
    }

    /** A chain whose n-th item has been bypassed. */
    lemma ChainCut(b: nat, head: Item?<K, V>, s: seq<Item<K, V>>, n: nat)
      requires tableLen != 0 && n < |s| && Distinct(s)
      requires forall i :: 0 <= i < |s| ==> CalcHash(s[i].key) == b
      requires forall i :: 0 <= i < |s| ==> s[i].next == ItemAt(s, if i + 1 == n then n + 1 else i + 1)
      requires head == ItemAt(s, if n == 0 then 1 else 0)
      ensures ChainOK(b, head, s[..n] + s[n + 1..])
    {
      hide CalcHash, Distinct;
      var u := s[..n] + s[n + 1..];
      CutIndex(s, n);
      DistinctCut(s, n);
      forall i | 0 <= i < |u| ensures u[i].next == ItemAt(u, i + 1) {
        CutItemAt(s, n, i);
      }
    }

    // ---------- iterating ----------

    lemma {:induction false} OrderMatchingFrom(b: nat, key: K)
      requires Valid() && b <= |chains|
      ensures Matching(Flatten(chains[b..]), key) == if b <= CalcHash(key) then Stack(key) else []
      decreases |chains| - b
    {
      if b < |chains| {
        OrderMatchingFrom(b + 1, key);
        assert chains[b..][1..] == chains[b + 1..];
        MatchingAppend(chains[b], Flatten(chains[b + 1..]), key);
        if b != CalcHash(key) {
          NoneMatch(chains[b], key);
        }
      }
    }

    lemma {:induction false} OrderDistinctFrom(b: nat)
      requires Valid() && b <= |chains|
      ensures Distinct(Flatten(chains[b..]))
      decreases |chains| - b
    {
      if b < |chains| {
        OrderDistinctFrom(b + 1);
        assert chains[b..][1..] == chains[b + 1..];
        hide Linked;
        forall x | x in chains[b] ensures x !in Flatten(chains[b + 1..]) {
          FlattenHas(chains[b + 1..], x);
        }
        hide Flatten;
        DistinctConcat(chains[b], Flatten(chains[b + 1..]));
      }
    }

    /** Iteration order holds every stored entry exactly once: no item twice, and for every key
        exactly its stack, newest first. */
    lemma OrderIsEverything(key: K)
      requires Valid()
      ensures Distinct(Order())
      ensures Matching(Order(), key) == Stack(key)
    {
      assert chains[0..] == chains;
      OrderDistinctFrom(0);
      OrderMatchingFrom(0, key);
    }

    /** Where `item` sits in its chain. */
    ghost function PlaceOf(item: Item<K, V>): (i: nat)
      requires Valid() && item in chains[CalcHash(item.key)]
      reads this, Repr
      ensures i < |chains[CalcHash(item.key)]| && chains[CalcHash(item.key)][i] == item
    {
      var i :| 0 <= i < |chains[CalcHash(item.key)]| && chains[CalcHash(item.key)][i] == item;
      i
    }

    /** What is left to visit once `iter` has been visited; everything when it is null. */
    ghost function RestAfter(iter: Item?<K, V>): seq<Item<K, V>>
      requires Valid() && (iter != null ==> iter in chains[CalcHash(iter.key)])
      reads this, Repr
    {
      if iter == null then Order()
      else
        var b := CalcHash(iter.key);
        chains[b][PlaceOf(iter) + 1..] + Flatten(chains[b + 1..])
    }

    lemma PlaceIs(b: nat, i: nat)
      requires Valid() && b < |chains| && i < |chains[b]|
      ensures CalcHash(chains[b][i].key) == b && PlaceOf(chains[b][i]) == i
    {
      hide Consistent, PowerOfTwo, CalcHash, Linked;
    }

    /** What is left from position `i` of bucket `b` on, split at the item there. */
    lemma RestSplits(b: nat, i: nat)
      requires Valid() && b < |chains| && i < |chains[b]|
      ensures CalcHash(chains[b][i].key) == b
      ensures chains[b][i..] + Flatten(chains[b + 1..]) == [chains[b][i]] + RestAfter(chains[b][i])
      ensures RestAfter(chains[b][i]) == chains[b][i + 1..] + Flatten(chains[b + 1..])
    {
      hide Consistent, PowerOfTwo, CalcHash, Linked;
      hide Flatten;
      assert CalcHash(chains[b][i].key) == b;
      PlaceIs(b, i);
      assert chains[b][i..] == [chains[b][i]] + chains[b][i + 1..];
    }

    /** Every bucket is linked from its table entry. */
    lemma Buckets()
      requires Valid()
      ensures tableLen != 0 && |chains| == table.Length == tableLen
      ensures forall b :: 0 <= b < tableLen ==> table[b] == ItemAt(chains[b], 0)
      ensures forall b, i :: 0 <= b < tableLen && 0 <= i < |chains[b]| ==> chains[b][i].next == ItemAt(chains[b], i + 1)
    {
      hide Consistent, PowerOfTwo, CalcHash, Distinct;
    }

    lemma NextBucket(idx: nat)
      requires idx < |chains|
      ensures Flatten(chains[idx..]) == chains[idx] + Flatten(chains[idx + 1..])
    {
      assert chains[idx..][1..] == chains[idx + 1..];
    }

    /** Where the walk starts: behind `iter`, or at the front of the table. */
    lemma RestStarts(iter: Item?<K, V>)
      requires Valid() && (iter != null ==> iter in chains[CalcHash(iter.key)])
      ensures iter == null ==> RestAfter(iter) == Flatten(chains[0..])
      ensures iter != null ==>
        var b, i := CalcHash(iter.key), PlaceOf(iter);
        && b < |chains| && i < |chains[b]| && chains[b][i] == iter
        && RestAfter(iter) == chains[b][i + 1..] + Flatten(chains[b + 1..])
    {
      hide Consistent, PowerOfTwo, CalcHash, Linked, Distinct, Flatten;
      assert chains[0..] == chains;
    }

    /** `item` and everything after it; nothing when it is null. */
    ghost function From(item: Item?<K, V>): seq<Item<K, V>>
      requires Valid() && (item != null ==> item in chains[CalcHash(item.key)])
      reads this, Repr
    {
      if item == null then [] else [item] + RestAfter(item)
    }

    /** SDL_IterateHashTable: the first item left to visit, or null at the end. */
    method Iterate(iter: Item?<K, V>) returns (next: Item?<K, V>)
      requires Valid() && (iter != null ==> iter in chains[CalcHash(iter.key)])
      ensures Valid() && chains == old(chains)
      ensures next == ItemAt(old(RestAfter(iter)), 0)
      ensures next != null ==> next in chains[CalcHash(next.key)]
      ensures From(next) == old(RestAfter(iter))
    {
      hide Valid, CalcHash, RestAfter, Flatten, PlaceOf;
      Buckets();
      RestStarts(iter);
      var item := iter;
      var idx := 0;
      ghost var b, i := 0, 0;
      if item != null {
        b, i := CalcHash(iter.key), PlaceOf(iter) + 1;
        item := item.next;
        if item == null {
          idx := CalcHash(iter.key) + 1;
          assert chains[b][i..] == [];
        }
      }
      while item == null && idx < tableLen
        invariant 0 <= idx <= tableLen
        invariant item == null ==> RestAfter(iter) == Flatten(chains[idx..])
        invariant 0 <= b && 0 <= i
        invariant item != null ==>
          b < |chains| && i < |chains[b]| && item == chains[b][i]
          && RestAfter(iter) == chains[b][i..] + Flatten(chains[b + 1..])
        decreases item == null, tableLen - idx
      {
        NextBucket(idx);
        b, i := idx, 0;
        item := table[idx];
        idx := idx + 1;
      }
      if item != null {
        RestSplits(b, i);
      } else {
        assert chains[idx..] == [];
        NothingLeft();
      }
      next := item;
    }

    lemma NothingLeft()
      ensures Flatten<Item<K, V>>([]) == []
    {
    }

    /** Driving SDL_IterateHashTable from a null iterator until it reports the end. */
    method VisitAll() returns (visited: seq<Item<K, V>>)
      requires Valid()
      ensures visited == old(Order())
    {
      assert RestAfter(null) == Order();
      Sized();
      hide *;
      visited := [];
      ghost var whole := Order();
      var iter := Iterate(null);
      while iter != null
        invariant Valid() && chains == old(chains)
        invariant iter != null ==> iter in chains[CalcHash(iter.key)]
        invariant visited + From(iter) == whole
        decreases |From(iter)|
      {
        FromSplits(iter);
        Shift(visited, iter, RestAfter(iter));
        visited := visited + [iter];
        iter := Iterate(iter);
      }
      FromSplits(null);
    }

    lemma Sized()
      requires Valid()
      ensures tableLen != 0 && |chains| == table.Length == tableLen
    {
    }

    lemma FromSplits(item: Item?<K, V>)
      requires Valid() && (item != null ==> item in chains[CalcHash(item.key)])
      ensures From(item) == if item == null then [] else [item] + RestAfter(item)
    {
      hide Consistent, PowerOfTwo, CalcHash, Linked, Distinct;
    }

    /** The part of a bucket that IterateKey has not looked at yet. */
    ghost function KeyRest(key: K, iter: Item?<K, V>): seq<Item<K, V>>
      requires Valid() && (iter != null ==> iter in chains[CalcHash(key)])
      reads this, Repr
    {
      if iter == null then chains[CalcHash(key)] else chains[CalcHash(key)][PlaceOf(iter) + 1..]
    }

    /** The value of `item` and the values of its key after it; nothing when it is null. */
    ghost function KeyFrom(key: K, item: Item?<K, V>): seq<V>
      requires Valid() && (item != null ==> item in chains[CalcHash(key)])
      reads this, Repr
    {
      if item == null then [] else [item.value] + Matching(KeyRest(key, item), key)
    }

    lemma KeyFromSplits(key: K, item: Item?<K, V>)
      requires Valid() && (item != null ==> item in chains[CalcHash(key)])
      ensures KeyFrom(key, item) == if item == null then [] else [item.value] + Matching(KeyRest(key, item), key)
    {
      hide Consistent, PowerOfTwo, CalcHash, Linked, Distinct;
    }

    lemma MatchingStep(s: seq<Item<K, V>>, n: nat, key: K)
      requires n < |s|
      ensures Matching(s[n..], key)
        == (if keymatch(key, s[n].key) then [s[n].value] else []) + Matching(s[n + 1..], key)
    {
      assert s[n..][1..] == s[n + 1..];
    }

    /** SDL_IterateHashTableKey: the next item of the same key, newest first. */
    method IterateKey(key: K, iter: Item?<K, V>) returns (next: Item?<K, V>)
      requires Valid() && (iter != null ==> iter in chains[CalcHash(key)])
      ensures Valid() && chains == old(chains)
      ensures next != null ==> next in chains[CalcHash(key)] && keymatch(key, next.key)
      ensures KeyFrom(key, next) == old(Matching(KeyRest(key, iter), key))
    {
      hide Valid, CalcHash, Matching, KeyRest, PlaceOf;
      Buckets();
      ghost var b := CalcHash(key);
      ghost var n := KeyPlace(key, iter);
      var item := if iter != null then iter.next else table[CalcHash(key)];
      while item != null && !keymatch(key, item.key)
        invariant 0 <= n <= |chains[b]| && item == ItemAt(chains[b], n)
        invariant Matching(KeyRest(key, iter), key) == Matching(chains[b][n..], key)
        decreases |chains[b]| - n
      {
        MatchingStep(chains[b], n, key);
        item := item.next;
        n := n + 1;
      }
      if item != null {
        MatchingStep(chains[b], n, key);
        KeyPlaceIs(key, n);
      } else {
        assert chains[b][n..] == [];
        NoneMatch([], key);
      }
      return item;
    }

    /** The position in its bucket from which IterateKey still has to look. */
    lemma KeyPlace(key: K, iter: Item?<K, V>) returns (n: nat)
      requires Valid() && (iter != null ==> iter in chains[CalcHash(key)])
      ensures n <= |chains[CalcHash(key)]|
      ensures iter == null ==> n == 0
      ensures iter != null ==> n > 0 && chains[CalcHash(key)][n - 1] == iter
      ensures KeyRest(key, iter) == chains[CalcHash(key)][n..]
    {
      hide Consistent, PowerOfTwo, CalcHash, Linked, Distinct;
      n := if iter == null then 0 else PlaceOf(iter) + 1;
    }

    lemma KeyPlaceIs(key: K, n: nat)
      requires Valid() && n < |chains[CalcHash(key)]|
      ensures KeyRest(key, chains[CalcHash(key)][n]) == chains[CalcHash(key)][n + 1..]
    {
      hide CalcHash, Linked;
      PlaceIs(CalcHash(key), n);
    }

    /** Driving SDL_IterateHashTableKey from a null iterator: the whole stack, newest first. */
    method VisitKey(key: K) returns (values: seq<V>)
      requires Valid()
      ensures values == old(Stack(key))
    {
      assert Matching(KeyRest(key, null), key) == Stack(key);
      Sized();
      hide *;
      values := [];
      ghost var whole := Stack(key);
      var iter := IterateKey(key, null);
      while iter != null
        invariant Valid() && chains == old(chains)
        invariant iter != null ==> iter in chains[CalcHash(key)]
        invariant values + KeyFrom(key, iter) == whole
        decreases |KeyFrom(key, iter)|
      {
        KeyFromSplits(key, iter);
        Shift(values, iter.value, Matching(KeyRest(key, iter), key));
        values := values + [iter.value];
        iter := IterateKey(key, iter);
      }
      KeyFromSplits(key, null);
    }

    /** SDL_HashTableEmpty. */
    method Empty() returns (empty: bool)
      requires Valid()
      ensures empty <==> Order() == []
    {
      hide Consistent, PowerOfTwo, CalcHash, Distinct;
      for i := 0 to tableLen
        invariant forall b :: 0 <= b < i ==> chains[b] == []
      {
        if table[i] != null {
          assert chains[i][0] in chains[i];
          FlattenHas(chains, chains[i][0]);
          return false;
        }
      }
      if Order() != [] {
        FlattenHas(chains, Order()[0]);
      }
      return true;
    }

    /** SDL_DestroyHashTable: every stored entry is handed to the nuke callback exactly once,
        in iteration order; the table itself is gone afterwards. */
    method Destroy() returns (nuked: seq<Item<K, V>>)
      requires Valid()
      ensures nuked == Order()
    {
      hide Consistent, PowerOfTwo, CalcHash, Distinct, ChainOK, Owned;
      nuked := [];
      assert chains[0..] == chains;
      for i := 0 to tableLen
        invariant nuked + Flatten(chains[i..]) == Order()
      {
        assert chains[i..][1..] == chains[i + 1..];
        var chain := DestroyChain(i);
        assert nuked + chain + Flatten(chains[i + 1..]) == nuked + (chain + Flatten(chains[i + 1..]));
        nuked := nuked + chain;
      }
    }

    /** The inner loop of SDL_DestroyHashTable: `next` is read before the item is freed. */
    method DestroyChain(b: nat) returns (nuked: seq<Item<K, V>>)
      requires Valid() && b < |chains|
      ensures nuked == chains[b]
    {
      hide Consistent, PowerOfTwo, CalcHash, Distinct;
      nuked := [];
      var item := table[b];
      while item != null
        invariant |nuked| <= |chains[b]| && item == ItemAt(chains[b], |nuked|)
        invariant nuked == chains[b][..|nuked|]
        decreases |chains[b]| - |nuked|
      {
        var next := item.next;
        nuked := nuked + [item];
        item := next;
      }
    }
  }
}
