/** What the getters of src/SDL_properties.c make of one value, and of each other's answers. */
module PropertyReadings {
  import opened Wrappers
  import opened PropertyValues
  import opened Properties
  import opened PropertyRuns

  /** The answers of all getters for one name. */
  datatype Answers = Answers(kind: Kind, pointer: nat, number: int, float: real, boolean: bool, text: Option<string>)

  /** The default values passed to them. */
  datatype Defaults = Defaults(pointer: nat, number: int, float: real, boolean: bool, text: Option<string>)

  /** The getter of the value's own type gives back what was set. */
  predicate GivesBack(v: Value, a: Answers) {
    match v
    case PointerValue(pointer, _, _) => a.kind == PointerKind && a.pointer == pointer
    case StringValue(text) => a.kind == StringKind && a.text == Some(text)
    case NumberValue(number) => a.kind == NumberKind && a.number == number
    case FloatValue(float) => a.kind == FloatKind && a.float == float
    case BooleanValue(boolean) => a.kind == BooleanKind && a.boolean == boolean
  }

  /** The other getters agree with that one, and give their defaults where they cannot convert. */
  predicate Agree(libc: Libc, a: Answers, d: Defaults) {
    && (a.kind != PointerKind ==> a.pointer == d.pointer)
    && match a.kind
       case InvalidKind => AllDefault(a, d)
       case PointerKind => AllDefault(a, d)
       case StringKind =>
         && a.text.Some?
         && a.number == libc.parseNumber(a.text.value) && a.float == libc.parseFloat(a.text.value)
         && (a.text.value == "" ==> a.boolean == d.boolean)
         && (a.text.value != "" ==> (a.boolean <==> a.text.value[0] != '0' && !libc.saysFalse(a.text.value)))
       case NumberKind =>
         && a.float == a.number as real && (a.boolean <==> a.number != 0)
         && a.text == Some(libc.formatNumber(a.number))
       case FloatKind =>
         && a.number == libc.round(a.float) && (a.boolean <==> a.float != 0.0)
         && a.text == Some(libc.formatFloat(a.float))
       case BooleanKind =>
         && (a.boolean ==> a.number == 1 && a.float == 1.0 && a.text == Some("true"))
         && (!a.boolean ==> a.number == 0 && a.float == 0.0 && a.text == Some("false"))
  }

  predicate AllDefault(a: Answers, d: Defaults) {
    a.number == d.number && a.float == d.float && a.boolean == d.boolean && a.text == d.text
  }

  /** What the conversions make of a value. */
  function Converted(libc: Libc, v: Option<Value>, d: Defaults): Answers {
    match v
    case None => Answers(InvalidKind, d.pointer, d.number, d.float, d.boolean, d.text)
    case Some(x) =>
      Answers(KindOf(x), if x.PointerValue? then x.pointer else d.pointer, AsNumber(libc, x, d.number),
              AsFloat(libc, x, d.float), AsBoolean(libc, x, d.boolean), AsText(libc, x, d.text))
  }

  lemma ConversionsAgree(libc: Libc, v: Option<Value>, d: Defaults)
    ensures Agree(libc, Converted(libc, v, d), d)
    ensures v.Some? ==> GivesBack(v.value, Converted(libc, v, d))
    ensures v == None ==> Converted(libc, v, d).kind == InvalidKind
  {
  }

  /** The getters that write to nothing. */
  method ReadPlain(store: PropertyStore, id: nat, name: Option<string>, d: Defaults)
    returns (kind: Kind, pointer: nat, number: int, float: real, boolean: bool)
    requires store.Valid() && store.groups != null
    ensures var a := Converted(store.libc, store.ValueAt(id, name), d);
      kind == a.kind && pointer == a.pointer && number == a.number && float == a.float && boolean == a.boolean
  {
    hide PropertyStore.Valid, PropertyStore.ValueAt, AsNumber, AsFloat, AsBoolean, AsText, KindOf;
    kind := store.GetPropertyType(id, name);
    pointer := store.GetProperty(id, name, d.pointer);
    number := store.GetNumberProperty(id, name, d.number);
    float := store.GetFloatProperty(id, name, d.float);
    boolean := store.GetBooleanProperty(id, name, d.boolean);
  }

  /** All getters, one after the other. */
  method ReadAll(store: PropertyStore, id: nat, name: Option<string>, d: Defaults) returns (a: Answers)
    requires store.Valid() && store.groups != null
    modifies store.Repr
    ensures store.Valid() && store.Repr == old(store.Repr) && store.groups != null
    ensures WorldOf(store) == old(WorldOf(store)) && store.cleanups == old(store.cleanups)
    ensures Agree(store.libc, a, d)
    ensures var v := old(store.ValueAt(id, name));
      (v.Some? ==> GivesBack(v.value, a)) && (v == None ==> a.kind == InvalidKind)
  {
    hide PropertyStore.Valid, PropertyStore.ValueAt, AsNumber, AsFloat, AsBoolean, AsText, KindOf, Agree, GivesBack;
    ConversionsAgree(store.libc, store.ValueAt(id, name), d);
    var kind, pointer, number, float, boolean := ReadPlain(store, id, name, d);
    var text := store.GetStringProperty(id, name, d.text);
    a := Answers(kind, pointer, number, float, boolean, text);
  }

  /** A value that is set is the value that is read. */
  method SetAndRead(store: PropertyStore, id: nat, name: Option<string>, v: Value, d: Defaults)
    returns (ok: bool, a: Answers)
    requires store.Valid() && store.groups != null
    modifies store.Repr
    ensures store.Valid() && old(store.Repr) <= store.Repr && fresh(store.Repr - old(store.Repr))
    ensures ok <==> id in old(store.view) && name.Some? && name.value != ""
    ensures ok ==> GivesBack(v, a) && Agree(store.libc, a, d)
  {
    hide PropertyStore.Valid, Agree, GivesBack;
    ok := store.SetValue(id, name, v);
    a := ReadAll(store, id, name, d);
  }

  /** Reading a value as text and storing the text: what is read back is the same again, as far as
      the library's own routines invert each other. */
  method ThroughText(store: PropertyStore, id: nat, name: Option<string>, d: Defaults)
    returns (a: Answers, b: Answers)
    requires store.Valid() && store.groups != null
    modifies store.Repr
    ensures store.Valid() && old(store.Repr) <= store.Repr && fresh(store.Repr - old(store.Repr))
    ensures a.kind == NumberKind && store.libc.parseNumber(store.libc.formatNumber(a.number)) == a.number ==>
      b.number == a.number
    ensures a.kind == FloatKind && store.libc.parseFloat(store.libc.formatFloat(a.float)) == a.float ==>
      b.float == a.float
    ensures a.kind == BooleanKind && store.libc.saysFalse("false") && !store.libc.saysFalse("true") ==>
      b.boolean == a.boolean
    ensures a.kind == StringKind ==> b == a
    ensures a.kind !in {InvalidKind, PointerKind} ==> b.kind == StringKind && b.text == a.text
  {
    hide PropertyStore.Valid;
    a := ReadAll(store, id, name, d);
    b := a;
    if a.kind != InvalidKind && a.kind != PointerKind {
      var ok := store.SetStringProperty(id, name, a.text);
      b := ReadAll(store, id, name, d);
    }
  }

  /** After any run, the getters give back what the last call that set the name gave it. */
  method RunAndRead(libc: Libc, hashName: string -> nat, ops: seq<Op>, id: nat, name: string, d: Defaults)
    returns (a: Answers)
    ensures Agree(libc, a, d)
    ensures forall k :: LastSet(ops, id, name, k) && ops[k].value.Some? ==> GivesBack(ops[k].value.value, a)
    ensures (forall k :: LastSet(ops, id, name, k) ==> ops[k].value == None) ==> a.kind == InvalidKind
  {
    HoldsLastSet(ops, id, name);
    assert name == "" ==> forall k :: !LastSet(ops, id, name, k);
    hide PropertyStore.Valid, AfterAll, LastSet, Agree, GivesBack;
    var store := Play(libc, hashName, ops);
    a := ReadAll(store, id, Some(name), d);
  }
}
