/** The values of src/SDL_properties.c and the cleanup calls they owe. */
module PropertyValues {
  import opened Wrappers

  /** A cleanup function with the userdata and the pointer it is to be called with. */
  datatype Call = Call(cleanup: nat, userdata: nat, pointer: nat)

  /** The type tag and the union of an SDL_Property. */
  datatype Value =
    | PointerValue(pointer: nat, cleanup: Option<nat>, userdata: nat)
    | StringValue(text: string)
    | NumberValue(number: int)
    | FloatValue(float: real)
    | BooleanValue(boolean: bool)

  datatype Kind = InvalidKind | PointerKind | StringKind | NumberKind | FloatKind | BooleanKind

  function KindOf(v: Value): Kind {
    match v
    case PointerValue(_, _, _) => PointerKind
    case StringValue(_) => StringKind
    case NumberValue(_) => NumberKind
    case FloatValue(_) => FloatKind
    case BooleanValue(_) => BooleanKind
  }

  /** The library routines the conversions call. */
  datatype Libc = Libc(
    formatNumber: int -> string,
    formatFloat: real -> string,
    parseNumber: string -> int,
    parseFloat: string -> real,
    round: real -> int,
    saysFalse: string -> bool)

  /** What SDL_asprintf would put in string_storage, for the types that use it. */
  function Rendered(libc: Libc, v: Value): Option<string> {
    match v
    case NumberValue(n) => Some(libc.formatNumber(n))
    case FloatValue(f) => Some(libc.formatFloat(f))
    case _ => None
  }

  /** The cleanup calls a stored value still owes. */
  function Owed(v: Value): multiset<Call> {
    if v.PointerValue? && v.cleanup.Some? then multiset{Call(v.cleanup.value, v.userdata, v.pointer)}
    else multiset{}
  }

  /** The cleanup call made when a stored value goes away, if any. */
  function CallsFor(v: Value): seq<Call> {
    if v.PointerValue? && v.cleanup.Some? then [Call(v.cleanup.value, v.userdata, v.pointer)] else []
  }

  lemma CallsAreOwed(v: Value, done: seq<Call>)
    ensures multiset(done + CallsFor(v)) == multiset(done) + Owed(v)
  {
  }

  // ---------- reading a value as another type ----------

  /** SDL_GetStringBoolean; `saysFalse` compares with "false", ignoring case. */
  function TextToBoolean(libc: Libc, text: string, defaultValue: bool): bool {
    if text == "" then defaultValue
    else if text[0] == '0' || libc.saysFalse(text) then false
    else true
  }

  function AsText(libc: Libc, v: Value, defaultValue: Option<string>): Option<string> {
    match v
    case PointerValue(_, _, _) => defaultValue
    case StringValue(text) => Some(text)
    case BooleanValue(b) => Some(if b then "true" else "false")
    case _ => Rendered(libc, v)
  }

  function AsNumber(libc: Libc, v: Value, defaultValue: int): int {
    match v
    case PointerValue(_, _, _) => defaultValue
    case StringValue(text) => libc.parseNumber(text)
    case NumberValue(n) => n
    case FloatValue(f) => libc.round(f)
    case BooleanValue(b) => if b then 1 else 0
  }

  function AsFloat(libc: Libc, v: Value, defaultValue: real): real {
    match v
    case PointerValue(_, _, _) => defaultValue
    case StringValue(text) => libc.parseFloat(text)
    case NumberValue(n) => n as real
    case FloatValue(f) => f
    case BooleanValue(b) => if b then 1.0 else 0.0
  }

  function AsBoolean(libc: Libc, v: Value, defaultValue: bool): bool {
    match v
    case PointerValue(_, _, _) => defaultValue
    case StringValue(text) => TextToBoolean(libc, text, defaultValue)
    case NumberValue(n) => n != 0
    case FloatValue(f) => f != 0.0
    case BooleanValue(b) => b
  }

  type Names = map<string, Value>
  type Store = map<nat, Names>

  /** The sum of `f` over the values of a map. */
  ghost function Sum<K, V>(m: map<K, V>, f: V -> multiset<Call>): multiset<Call> {
    if m == map[] then multiset{}
    else
      var k :| k in m;
      f(m[k]) + Sum(m - {k}, f)
  }

  lemma Smaller<K, V>(m: map<K, V>, k: K)
    requires k in m
    ensures |m - {k}| < |m|
  {
    assert m == (m - {k})[k := m[k]];
  }

  /** Any key can be taken out first. */
  lemma {:induction false} SumWithout<K, V>(m: map<K, V>, f: V -> multiset<Call>, k: K)
    requires k in m
    ensures Sum(m, f) == f(m[k]) + Sum(m - {k}, f)
    decreases |m|
  {
    var j :| j in m && Sum(m, f) == f(m[j]) + Sum(m - {j}, f);
    if j != k {
      Smaller(m, j);
      Smaller(m, k);
      SumWithout(m - {j}, f, k);
      SumWithout(m - {k}, f, j);
      assert m - {j} - {k} == m - {k} - {j};
    }
  }

  /** The calls owed by all values of a group. */
  ghost function OwedByGroup(m: Names): multiset<Call> {
    Sum(m, Owed)
  }

  ghost function OwedByStore(s: Store): multiset<Call> {
    Sum(s, m => OwedByGroup(m))
  }

  /** What a value that may be absent owes. */
  function OwedIn(m: Names, name: string): multiset<Call> {
    if name in m then Owed(m[name]) else multiset{}
  }

  lemma OwedWhenPresent(m: Names, name: string)
    ensures OwedIn(m, name) == if name in m then Owed(m[name]) else multiset{}
  {
  }

  /** Clearing a name, then perhaps setting it, moves exactly its own calls. */
  lemma GroupUpdate(m: Names, name: string, v: Value)
    ensures OwedByGroup(m) == OwedIn(m, name) + OwedByGroup(m - {name})
    ensures OwedByGroup((m - {name})[name := v]) == OwedByGroup(m - {name}) + Owed(v)
  {
    hide Owed;
    if name in m {
      SumWithout(m, Owed, name);
    } else {
      assert m - {name} == m;
    }
    var n := (m - {name})[name := v];
    SumWithout(n, Owed, name);
    assert n - {name} == m - {name};
  }

  /** Replacing one group moves exactly the difference between the groups. */
  lemma StoreUpdate(s: Store, id: nat, m: Names)
    requires id in s
    ensures OwedByStore(s) == OwedByGroup(s[id]) + OwedByStore(s - {id})
    ensures OwedByStore(s[id := m]) == OwedByGroup(m) + OwedByStore(s - {id})
  {
    hide OwedByGroup;
    SumWithout(s, g => OwedByGroup(g), id);
    SumWithout(s[id := m], g => OwedByGroup(g), id);
    assert s[id := m] - {id} == s - {id};
  }

  lemma StoreAdd(s: Store, id: nat)
    requires id !in s
    ensures OwedByStore(s[id := map[]]) == OwedByStore(s)
  {
    SumWithout(s[id := map[]], g => OwedByGroup(g), id);
    assert s[id := map[]] - {id} == s;
  }

  /** Clearing a name in one group releases exactly what that name owed. */
  lemma ClearOwes(s: Store, id: nat, name: string)
    requires id in s
    ensures OwedByStore(s) == OwedIn(s[id], name) + OwedByStore(s[id := s[id] - {name}])
  {
    hide OwedByGroup, OwedByStore, OwedIn;
    StoreUpdate(s, id, s[id] - {name});
    GroupUpdate(s[id], name, BooleanValue(true));
  }

  /** Setting a fresh name in one group adds exactly what its value owes. */
  lemma SetOwes(s: Store, id: nat, name: string, v: Value)
    requires id in s && name !in s[id]
    ensures OwedByStore(s[id := s[id][name := v]]) == OwedByStore(s) + Owed(v)
  {
    hide OwedByGroup, OwedByStore, OwedIn, Owed;
    StoreUpdate(s, id, s[id][name := v]);
    GroupUpdate(s[id], name, v);
    assert s[id] - {name} == s[id];
  }
}
