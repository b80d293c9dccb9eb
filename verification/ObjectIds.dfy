/** SDL_GetNextObjectID of src/SDL.c, called by any number of threads. */
module ObjectIds {
  import opened Wrappers

  /** A finished call: who made it, at which atomic step, and the step of its first attempt when it
      needed a second one. */
  datatype Return = Return(thread: nat, step: nat, first: Option<nat>, id: nat)

  /** The counter, the threads between their two attempts, and the finished calls. */
  datatype World = World(lastId: nat, waiting: map<nat, nat>, returned: seq<Return>)

  /** SDL_AtomicIncRef hands out the value before the increment. */
  function Incremented(lastId: nat): (id: nat)
    ensures id < UINT32
  {
    (lastId + 1) % UINT32
  }

  /** Atomic step number `step`: thread `t` increments the counter, for the first or the second time
      in its call. */
  function Step(w: World, t: nat, step: nat): World {
    var id := Incremented(w.lastId);
    if t in w.waiting then World(id, w.waiting - {t}, w.returned + [Return(t, step, Some(w.waiting[t]), id)])
    else if id == 0 then World(id, w.waiting[t := step], w.returned)
    else World(id, w.waiting, w.returned + [Return(t, step, None, id)])
  }

  /** An interleaving is the sequence of threads that take the atomic steps. */
  function Run(schedule: seq<nat>): World {
    if schedule == [] then World(0, map[], [])
    else
      var n := |schedule| - 1;
      Step(Run(schedule[..n]), schedule[n], n)
  }

  // ---------- every interleaving ----------

  /** The value the counter gets at a step does not depend on who takes it. */
  function IdAt(step: nat): nat {
    (step + 1) % UINT32
  }

  /** What is known of a call whose first attempt was at `first` and whose second may be at `step`. */
  ghost predicate Waited(schedule: seq<nat>, t: nat, first: nat, step: nat) {
    && first < step <= |schedule| && schedule[first] == t && IdAt(first) == 0
    && forall k :: first < k < step ==> schedule[k] != t
  }

  ghost predicate Explained(schedule: seq<nat>, r: Return) {
    && r.step < |schedule| && schedule[r.step] == r.thread && r.id == IdAt(r.step)
    && (r.first == None ==> r.id != 0)
    && (r.first.Some? ==> Waited(schedule, r.thread, r.first.value, r.step))
  }

  ghost predicate Good(schedule: seq<nat>, w: World) {
    && w.lastId == |schedule| % UINT32
    && (forall t :: t in w.waiting ==> Waited(schedule, t, w.waiting[t], |schedule|))
    && (forall i :: 0 <= i < |w.returned| ==> Explained(schedule, w.returned[i]))
    && (forall i, j :: 0 <= i < j < |w.returned| ==> w.returned[i].step < w.returned[j].step)
  }

  lemma ModuloSucc(n: nat)
    ensures (n % UINT32 + 1) % UINT32 == (n + 1) % UINT32
  {
  }

  lemma WaitsOn(schedule: seq<nat>, u: nat, t: nat, first: nat, step: nat)
    requires Waited(schedule, t, first, step)
    ensures Waited(schedule + [u], t, first, step)
    ensures step == |schedule| && u != t ==> Waited(schedule + [u], t, first, step + 1)
  {
  }

  lemma StaysExplained(schedule: seq<nat>, u: nat, r: Return)
    requires Explained(schedule, r)
    ensures Explained(schedule + [u], r)
  {
    if r.first.Some? {
      WaitsOn(schedule, u, r.thread, r.first.value, r.step);
    }
  }

  /** What the new step adds is explained by it. */
  lemma NewlyExplained(schedule: seq<nat>, w: World, t: nat)
    requires Good(schedule, w)
    ensures var n := |schedule|;
      && Incremented(w.lastId) == IdAt(n) == (n + 1) % UINT32
      && (t in w.waiting ==> Explained(schedule + [t], Return(t, n, Some(w.waiting[t]), IdAt(n))))
      && (IdAt(n) != 0 ==> Explained(schedule + [t], Return(t, n, None, IdAt(n))))
      && (IdAt(n) == 0 ==> Waited(schedule + [t], t, n, n + 1))
  {
    IdIs(|schedule|);
    if t in w.waiting {
      WaitsOn(schedule, t, t, w.waiting[t], |schedule|);
    }
  }

  lemma StepIsGood(schedule: seq<nat>, w: World, t: nat)
    requires Good(schedule, w)
    ensures Good(schedule + [t], Step(w, t, |schedule|))
  {
    NewlyExplained(schedule, w, t);
    var s, v := schedule + [t], Step(w, t, |schedule|);
    forall u | u in v.waiting ensures Waited(s, u, v.waiting[u], |s|) {
      if u != t {
        WaitsOn(schedule, t, u, w.waiting[u], |schedule|);
      }
    }
    hide Waited, IdAt;
    forall i | 0 <= i < |v.returned| ensures Explained(s, v.returned[i]) {
      if i < |w.returned| {
        StaysExplained(schedule, t, w.returned[i]);
      }
    }
    forall i | 0 <= i < |w.returned| ensures w.returned[i].step < |schedule| {
      assert Explained(schedule, w.returned[i]);
    }
  }

  lemma {:induction false} EveryRunIsGood(schedule: seq<nat>)
    ensures Good(schedule, Run(schedule))
  {
    if schedule != [] {
      var n := |schedule| - 1;
      EveryRunIsGood(schedule[..n]);
      StepIsGood(schedule[..n], Run(schedule[..n]), schedule[n]);
      assert schedule == schedule[..n] + [schedule[n]];
    }
  }

  lemma IdIs(step: nat)
    ensures Incremented(step % UINT32) == IdAt(step)
  {
    ModuloSucc(step);
  }

  lemma NotTooFar(p: nat, q: nat)
    requires p < q
    ensures IdAt(p) == IdAt(q) <==> (q - p) % UINT32 == 0
  {
  }

  /** Ids handed out less than 2^32 atomic steps apart differ, in every interleaving. */
  lemma NeverAmbiguous(schedule: seq<nat>, i: nat, j: nat)
    requires i < j < |Run(schedule).returned|
    requires Run(schedule).returned[j].step - Run(schedule).returned[i].step < UINT32
    ensures Run(schedule).returned[i].id != Run(schedule).returned[j].id
  {
    EveryRunIsGood(schedule);
    hide IdAt, Run;
    var a, b := Run(schedule).returned[i], Run(schedule).returned[j];
    assert Explained(schedule, a) && Explained(schedule, b);
    NotTooFar(a.step, b.step);
  }

  /** A call returns zero exactly when it needed a second attempt and the steps that other threads
      took in between are one less than a multiple of 2^32. */
  lemma ZeroExactlyWhenOutrun(schedule: seq<nat>, i: nat)
    requires i < |Run(schedule).returned|
    ensures var r := Run(schedule).returned[i];
      && (r.first.Some? ==> Waited(schedule, r.thread, r.first.value, r.step))
      && (r.id == 0 <==> r.first.Some? && (r.step - r.first.value - 1) % UINT32 == UINT32 - 1)
  {
    EveryRunIsGood(schedule);
    hide IdAt, Run;
    var r := Run(schedule).returned[i];
    assert Explained(schedule, r);
    if r.first.Some? {
      NotTooFar(r.first.value, r.step);
    }
  }

  /** So with fewer than 2^32 - 1 steps of others between the two attempts no call returns zero. */
  lemma NeverZero(schedule: seq<nat>, i: nat)
    requires i < |Run(schedule).returned|
    requires var r := Run(schedule).returned[i];
      r.first.Some? ==> r.step - r.first.value - 1 < UINT32 - 1
    ensures Run(schedule).returned[i].id != 0
  {
    ZeroExactlyWhenOutrun(schedule, i);
  }

  /** Steps of others leave a waiting thread waiting. */
  lemma {:induction false} StillWaiting(schedule: seq<nat>, k: nat, t: nat)
    requires k <= |schedule| && t in Run(schedule[..k]).waiting
    requires forall j :: k <= j < |schedule| ==> schedule[j] != t
    ensures t in Run(schedule).waiting && Run(schedule).waiting[t] == Run(schedule[..k]).waiting[t]
  {
    if k == |schedule| {
      assert schedule[..k] == schedule;
    } else {
      var n := |schedule| - 1;
      assert schedule[..n][..k] == schedule[..k];
      StillWaiting(schedule[..n], k, t);
    }
  }

  lemma {:induction false} NotWaiting(schedule: seq<nat>, t: nat)
    requires t !in schedule
    ensures t !in Run(schedule).waiting
  {
    if schedule != [] {
      NotWaiting(schedule[..|schedule| - 1], t);
    }
  }

  /** Zero is possible: a thread draws it, 2^32 - 1 steps of another pass, and it draws it again. */
  lemma ZeroHappens(early: seq<nat>, between: seq<nat>)
    requires |early| == |between| == UINT32 - 1
    requires 0 !in early && 0 !in between
    ensures var w := Run(early + [0] + between + [0]);
      w.returned != [] && w.returned[|w.returned| - 1] == Return(0, 2 * UINT32 - 1, Some(UINT32 - 1), 0)
  {
    var first := early + [0];
    var all := first + between;
    EveryRunIsGood(early);
    EveryRunIsGood(all);
    NotWaiting(early, 0);
    assert first[..|early|] == early && all[..|first|] == first;
    assert Run(first).waiting[0] == UINT32 - 1;
    forall j | |first| <= j < |all| ensures all[j] != 0 {
      assert all[j] == between[j - |first|];
    }
    StillWaiting(all, |first|, 0);
    assert (all + [0])[..|all|] == all;
  }

  // ---------- one thread ----------

  class Counter {
    var lastId: nat

    constructor ()
      ensures lastId == 0
    {
      lastId := 0;
    }

    /** SDL_AtomicAdd on a 32-bit counter. */
    method AtomicAdd(v: nat) returns (before: nat)
      modifies this
      ensures before == old(lastId) && lastId == (old(lastId) + v) % UINT32
    {
      before := lastId;
      lastId := (lastId + v) % UINT32;
    }

    /** SDL_GetNextObjectID, while other threads add `others` between the two attempts. */
    method GetNextObjectID(others: nat) returns (id: nat)
      requires lastId < UINT32
      modifies this
      ensures lastId == id < UINT32
      ensures id == if old(lastId) + 1 != UINT32 then old(lastId) + 1 else (others + 1) % UINT32
      ensures id == 0 <==> old(lastId) == UINT32 - 1 && others % UINT32 == UINT32 - 1
    {
      var before := AtomicAdd(1);
      id := (before + 1) % UINT32;
      if id == 0 {
        var interference := AtomicAdd(others);
        before := AtomicAdd(1);
        id := (before + 1) % UINT32;
      }
    }
  }
}
