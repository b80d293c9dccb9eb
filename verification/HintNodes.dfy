/** The linked lists of src/SDL_hints.c: a hint and its chain of watchers. */
module HintNodes {
  import opened Sequences
  import opened HintModel

  /** SDL_HintWatch. `home` is the name of the hint it is registered with. */
  class Watch {
    const callback: nat
    const userdata: nat
    ghost const home: string
    var next: Watch?

    constructor (callback: nat, userdata: nat, next: Watch?, ghost home: string)
      ensures this.callback == callback && this.userdata == userdata && this.next == next && this.home == home
    {
      this.callback, this.userdata, this.next, this.home := callback, userdata, next, home;
    }
  }

  ghost function WatchAt(c: seq<Watch>, i: nat): Watch? {
    if i < |c| then c[i] else null
  }

  ghost function IdOf(w: Watch): Watcher {
    Watcher(w.callback, w.userdata)
  }

  ghost function Ids(c: seq<Watch>): (ws: seq<Watcher>)
    ensures |ws| == |c| && forall i :: 0 <= i < |c| ==> ws[i] == IdOf(c[i])
  {
    seq(|c|, i requires 0 <= i < |c| => IdOf(c[i]))
  }

  lemma IdsSplit(w: Watch, c: seq<Watch>)
    ensures Ids([w] + c) == [IdOf(w)] + Ids(c)
  {
  }

  /** The chain without its first watch that is `x`. */
  ghost function Cut(c: seq<Watch>, x: Watcher): (d: seq<Watch>)
    ensures forall w :: w in d ==> w in c
  {
    if c == [] then [] else if IdOf(c[0]) == x then c[1..] else [c[0]] + Cut(c[1..], x)
  }

  lemma {:induction false} CutIds(c: seq<Watch>, x: Watcher)
    ensures Ids(Cut(c, x)) == Without(Ids(c), x)
  {
    if c != [] {
      CutIds(c[1..], x);
      IdsSplit(c[0], c[1..]);
      IdsSplit(c[0], Cut(c[1..], x));
      hide Ids;
      assert c == [c[0]] + c[1..];
      assert Ids(c)[1..] == Ids(c[1..]);
    }
  }

  /** Cutting at the first match. */
  lemma {:induction false} CutAt(c: seq<Watch>, x: Watcher, n: nat)
    requires n <= |c| && forall i :: 0 <= i < n ==> IdOf(c[i]) != x
    ensures n < |c| && IdOf(c[n]) == x ==> Cut(c, x) == c[..n] + c[n + 1..]
    ensures n == |c| ==> Cut(c, x) == c
  {
    if n > 0 {
      CutAt(c[1..], x, n - 1);
      assert n < |c| ==> c[..n] + c[n + 1..] == [c[0]] + (c[1..][..n - 1] + c[1..][n..]);
    }
  }

  /** All of the chain is in `ws`, and no two watches are the same registration. */
  ghost predicate Within(c: seq<Watch>, ws: set<Watch>) {
    && (forall i :: 0 <= i < |c| ==> c[i] in ws)
    && forall i, j :: 0 <= i < j < |c| ==> IdOf(c[i]) != IdOf(c[j])
  }

  lemma WithinDiffer(c: seq<Watch>, ws: set<Watch>)
    requires Within(c, ws)
    ensures forall i, j :: 0 <= i < j < |c| ==> c[i] != c[j]
    ensures forall i :: 0 <= i < |c| ==> c[i] in ws
  {
  }

  lemma CutWithin(c: seq<Watch>, ws: set<Watch>, n: nat)
    requires Within(c, ws) && n < |c|
    ensures Within(c[..n] + c[n + 1..], ws)
  {
    CutIndex(c, n);
  }

  lemma CutWatchAt(c: seq<Watch>, n: nat, i: nat)
    requires n < |c|
    ensures WatchAt(c[..n] + c[n + 1..], i) == WatchAt(c, if i < n then i else i + 1)
  {
  }

  lemma NextOf(c: seq<Watch>, n: nat)
    requires n < |c|
    ensures WatchAt(c, n) == c[n] && (n > 0 ==> WatchAt(c, n - 1) == c[n - 1])
  {
  }

  lemma FrontWithin(w: Watch, c: seq<Watch>, ws: set<Watch>)
    requires Within(c, ws) && forall i :: 0 <= i < |c| ==> IdOf(c[i]) != IdOf(w)
    ensures Within([w] + c, ws + {w})
  {
  }

  lemma FrontLinks(w: Watch, c: seq<Watch>)
    requires w.next == WatchAt(c, 0) && forall i :: 0 <= i < |c| ==> c[i].next == WatchAt(c, i + 1)
    ensures var d := [w] + c; d[0] == w && forall i :: 0 <= i < |d| ==> d[i].next == WatchAt(d, i + 1)
  {
    var d := [w] + c;
    forall i | 0 <= i < |d| ensures d[i].next == WatchAt(d, i + 1) {
      assert i > 0 ==> d[i] == c[i - 1];
    }
  }

  /** SDL_Hint. */
  class Node {
    const name: string
    var value: Text
    var priority: Priority
    var callbacks: Watch?
    var next: Node?
    ghost var chain: seq<Watch>
    /** The watches that are, or once were, in the chain. */
    ghost var watches: set<Watch>

    ghost predicate Valid()
      reads this, watches
    {
      && (forall w :: w in watches ==> w.home == name)
      && Within(chain, watches)
      && callbacks == WatchAt(chain, 0)
      && (forall i :: 0 <= i < |chain| ==> chain[i].next == WatchAt(chain, i + 1))
    }

    /** The hint this node stands for. */
    ghost function Value(): Hint
      reads this
    {
      Hint(name, value, priority, Ids(chain))
    }

    constructor (name: string, value: Text, priority: Priority, next: Node?)
      ensures Valid() && chain == [] && watches == {} && this.name == name && this.next == next
      ensures Value() == Hint(name, value, priority, [])
    {
      this.name, this.value, this.priority, this.next := name, value, priority, next;
      callbacks, chain, watches := null, [], {};
    }

    /** The search of SDL_DelHintCallback: the watch and the one before it. */
    method FindWatch(callback: nat, userdata: nat) returns (prev: Watch?, entry: Watch?, ghost n: nat)
      requires Valid()
      ensures n <= |chain| && entry == WatchAt(chain, n)
      ensures prev == (if n == 0 then null else chain[n - 1])
      ensures entry != null ==> IdOf(entry) == Watcher(callback, userdata)
      ensures forall i :: 0 <= i < n ==> IdOf(chain[i]) != Watcher(callback, userdata)
    {
      hide Within, Ids, Value;
      prev, entry, n := null, callbacks, 0;
      while entry != null && !(callback == entry.callback && userdata == entry.userdata)
        invariant n <= |chain| && entry == WatchAt(chain, n)
        invariant prev == (if n == 0 then null else chain[n - 1])
        invariant forall i :: 0 <= i < n ==> IdOf(chain[i]) != Watcher(callback, userdata)
        decreases |chain| - n
      {
        prev := entry;
        entry := entry.next;
        n := n + 1;
      }
    }

    /** Taking the watch at position `n` out of the chain. */
    method TakeOut(prev: Watch?, entry: Watch, ghost n: nat)
      requires n < |chain| && entry == chain[n] && prev == (if n == 0 then null else chain[n - 1])
      requires callbacks == WatchAt(chain, 0)
      requires forall i :: 0 <= i < |chain| ==> chain[i].next == WatchAt(chain, i + 1)
      requires forall i, j :: 0 <= i < j < |chain| ==> chain[i] != chain[j]
      modifies this`callbacks, this`chain, prev
      ensures chain == old(chain)[..n] + old(chain)[n + 1..]
      ensures callbacks == WatchAt(chain, 0)
      ensures forall i :: 0 <= i < |chain| ==> chain[i].next == WatchAt(chain, i + 1)
    {
      hide Ids, Cut, Value, WatchAt;
      ghost var c := chain;
      if prev != null {
        prev.next := entry.next;
      } else {
        callbacks := entry.next;
      }
      CutIndex(c, n);
      chain := c[..n] + c[n + 1..];
      CutWatchAt(c, n, 0);
      NextOf(c, n);
      forall i | 0 <= i < |chain| ensures chain[i].next == WatchAt(chain, i + 1) {
        CutWatchAt(c, n, i + 1);
      }
    }

    /** The inner loop of SDL_DelHintCallback. */
    method Unlink(callback: nat, userdata: nat)
      requires Valid()
      modifies this`callbacks, this`chain, watches
      ensures Valid() && chain == Cut(old(chain), Watcher(callback, userdata))
      ensures Value() == old(Value()).(watchers := Without(old(Value()).watchers, Watcher(callback, userdata)))
    {
      hide Ids, Cut;
      CutIds(chain, Watcher(callback, userdata));
      var prev, entry, n := FindWatch(callback, userdata);
      CutAt(chain, Watcher(callback, userdata), n);
      if entry != null {
        CutWithin(chain, watches, n);
        WithinDiffer(chain, watches);
        hide Within;
        TakeOut(prev, entry, n);
      }
    }

    /** Storing a value and a priority does not touch the chain. */
    method Store(value: Text, priority: Priority)
      requires Valid()
      modifies this`value, this`priority
      ensures Valid() && Value() == old(Value()).(value := value, priority := priority)
    {
      this.value := value;
      this.priority := priority;
    }

    /** Putting a watch that is not registered yet in front. */
    method Push(w: Watch)
      requires Valid() && w.next == callbacks && w.home == name
      requires forall i :: 0 <= i < |chain| ==> IdOf(chain[i]) != IdOf(w)
      modifies this`callbacks, this`chain, this`watches
      ensures Valid() && chain == [w] + old(chain) && watches == old(watches) + {w}
      ensures Value() == old(Value()).(watchers := [IdOf(w)] + old(Value()).watchers)
    {
      hide Ids, Within;
      FrontWithin(w, chain, watches);
      FrontLinks(w, chain);
      IdsSplit(w, chain);
      callbacks := w;
      chain, watches := [w] + chain, watches + {w};
    }
  }
}
