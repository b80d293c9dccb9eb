/** Whole runs of src/SDL_hints.c on its linked lists. */
module HintRuns {
  import opened Wrappers
  import opened HintModel
  import opened HintState
  import L = HintLaws
  import A = HintAnswers

  /** One call on the linked lists is one step of the machine, with the machine's answer. */
  method Perform(store: HintStore, op: Op) returns (ok: bool)
    requires store.Valid()
    modifies store.Repr
    ensures store.Valid() && old(store.Repr) <= store.Repr && fresh(store.Repr - old(store.Repr))
    ensures store.State() == Step(store.setting, old(store.State()), op)
    ensures ok == A.Answer(store.setting, old(store.State()), op)
  {
    hide HintStore.Valid, HintStore.State;
    ok := true;
    match op
    case Set(name, value, priority) =>
      ok := store.SetHintWithPriority(name, value, priority);
    case Reset(name) =>
      ok := store.ResetHint(name);
    case ResetAll =>
      store.ResetHints();
    case Add(name, callback, userdata) =>
      ok := store.AddHintCallback(name, callback, userdata);
    case Del(name, x) =>
      store.DelHintCallback(name, x.callback, x.userdata);
    case Clear =>
      StoreInRepr(store);
      StateLog(store);
      store.ClearHints();
  }

  lemma StoreInRepr(store: HintStore)
    requires store.Valid()
    ensures store in store.Repr
  {
  }

  /** A store after any calls, from an empty list, with what each call returned. */
  method Play(setting: Setting, ops: seq<Op>) returns (store: HintStore, oks: seq<bool>)
    ensures store.Valid() && fresh(store.Repr) && store.setting == setting
    ensures store.State() == Run(setting, ops)
    ensures AllRight(setting, ops, oks)
  {
    store := new HintStore(setting);
    oks := [];
    assert ops[..0] == [];
    assert Run(setting, ops[..0]) == World([], []);
    NothingAnswered(setting, ops);
    hide HintStore.Valid, HintStore.State, Step, Run, A.Answer, AnswersTo;
    for k := 0 to |ops|
      invariant store.Valid() && fresh(store.Repr) && store.setting == setting
      invariant store.State() == Run(setting, ops[..k])
      invariant AnswersTo(setting, ops, oks, k)
    {
      RunOn(setting, ops, k);
      var ok := Perform(store, ops[k]);
      OneMoreAnswer(setting, ops, oks, k);
      oks := oks + [ok];
    }
    assert ops[..|ops|] == ops;
    AllAnswered(setting, ops, oks);
  }

  /** The first `k` answers are right. */
  ghost predicate AnswersTo(setting: Setting, ops: seq<Op>, oks: seq<bool>, k: nat) {
    |oks| == k <= |ops| && forall j :: 0 <= j < k ==> A.RightAnswer(setting, ops, j, oks[j])
  }

  ghost predicate AllRight(setting: Setting, ops: seq<Op>, oks: seq<bool>) {
    |oks| == |ops| && forall j :: 0 <= j < |ops| ==> A.RightAnswer(setting, ops, j, oks[j])
  }

  lemma NothingAnswered(setting: Setting, ops: seq<Op>)
    ensures AnswersTo(setting, ops, [], 0)
  {
  }

  lemma OneMoreAnswer(setting: Setting, ops: seq<Op>, oks: seq<bool>, k: nat)
    requires k < |ops| && AnswersTo(setting, ops, oks, k)
    ensures AnswersTo(setting, ops, oks + [A.Answer(setting, Run(setting, ops[..k]), ops[k])], k + 1)
  {
    A.AnswersAreRight(setting, ops, k);
    hide A.Answer, A.RightAnswer, Run;
  }

  lemma AllAnswered(setting: Setting, ops: seq<Op>, oks: seq<bool>)
    requires AnswersTo(setting, ops, oks, |ops|)
    ensures AllRight(setting, ops, oks)
  {
  }

  /** After any calls, from an empty list: the value read is that of the latest set call that no other
      outranks, the last value each watcher of the name was called with is the value read, unless the
      environment defines the name, and each call returned what it should. */
  method PlayAndRead(setting: Setting, ops: seq<Op>, n: string)
    returns (value: Text, log: seq<Note>, oks: seq<bool>)
    ensures forall k :: L.Wins(setting, ops, n, k) ==> value == ops[k].value
    ensures (forall k :: !L.InForce(setting, ops, n, k)) ==> value == setting.env(n)
    ensures log == Run(setting, ops).log
    ensures |oks| == |ops| && forall k :: 0 <= k < |ops| ==> A.RightAnswer(setting, ops, k, oks[k])
    ensures setting.env(n) == None && L.Slot(Run(setting, ops), n).Some? ==>
      forall x :: x in L.Slot(Run(setting, ops), n).value.watchers ==> L.LastTold(log, n, x) == Some(value)
  {
    hide HintStore.Valid, HintStore.State, Run, A.RightAnswer;
    var store;
    store, oks := Play(setting, ops);
    value := store.GetHint(n);
    log := store.log;
    StateLog(store);
    L.GetHintIsTheWinner(setting, ops, n);
    if setting.env(n) == None {
      L.NeverStale(setting, ops, n);
    }
  }

  lemma RunOn(setting: Setting, ops: seq<Op>, k: nat)
    requires k < |ops|
    ensures Run(setting, ops[..k + 1]) == Step(setting, Run(setting, ops[..k]), ops[k])
  {
    assert ops[..k + 1][..k] == ops[..k];
  }

  lemma StateLog(store: HintStore)
    ensures store.State().log == store.log
  {
  }
}
