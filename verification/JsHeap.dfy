/** Runtime values: primitives, and references into a heap of lists and records that may be shared or cyclic. */
module JsHeap {
  import opened Options
  import opened JsonText

  datatype Value =
    | Undefined
    | NullV
    | BoolV(flag: bool)
    | IntV(value: SafeInt)
    | NumV(numeral: Numeral)
    | NonFinite
    | StrV(text: Text)
    | Opaque                       // functions, symbols, big integers
    | Ref(id: nat)                 // a reference outside the heap behaves like Opaque

  datatype Slot =
    | Data(value: Value, enumerable: bool)
    | Accessor(result: Value, enumerable: bool)
    | Hole                         // only in a list

  datatype Key = Name(text: Text) | Symbol(tag: nat)

  datatype Property = Property(key: Key, slot: Slot)

  datatype Proto = PlainProto | NullProto | ForeignProto

  datatype Object =
    | List(proto: Proto, slots: seq<Slot>, others: seq<Property>)
    | Record(proto: Proto, props: seq<Property>)

  predicate DistinctKeys(props: seq<Property>) {
    forall i, j :: 0 <= i < j < |props| ==> props[i].key != props[j].key
  }

  predicate Proper(o: Object) {
    match o
    case List(_, slots, others) =>
      |slots| < 0x1_0000_0000 && DistinctKeys(others) &&
      forall i :: 0 <= i < |others| ==> !others[i].slot.Hole?
    case Record(_, props) => DistinctKeys(props) && forall i :: 0 <= i < |props| ==> !props[i].slot.Hole?
  }

  type Heap = h: map<nat, Object> | forall id :: id in h ==> Proper(h[id]) witness map[]

  predicate IsObject(h: Heap, v: Value) { v.Ref? && v.id in h }

  predicate IsRecord(h: Heap, v: Value) { IsObject(h, v) && h[v.id].Record? }

  predicate IsList(h: Heap, v: Value) { IsObject(h, v) && h[v.id].List? }

  // The own property of that name, if any.
  function Find(props: seq<Property>, key: Key): (r: Option<Slot>)
    ensures r.None? <==> forall i :: 0 <= i < |props| ==> props[i].key != key
  {
    if props == [] then None
    else if props[0].key == key then Some(props[0].slot)
    else
      var r := Find(props[1..], key);
      assert forall i :: 1 <= i < |props| ==> props[i] == props[1..][i - 1];
      r
  }

  lemma {:induction false} FindAt(props: seq<Property>, i: nat)
    requires DistinctKeys(props) && i < |props|
    ensures Find(props, props[i].key) == Some(props[i].slot)
  {
    if i > 0 {
      FindAt(props[1..], i - 1);
    }
  }

  // The number of own keys of a list, its length key aside.
  function Present(slots: seq<Slot>): (n: nat)
    ensures n <= |slots|
  {
    if slots == [] then 0
    else Present(slots[..|slots| - 1]) + if slots[|slots| - 1].Hole? then 0 else 1
  }

  lemma {:induction false} PresentAll(slots: seq<Slot>)
    ensures Present(slots) == |slots| <==> forall i :: 0 <= i < |slots| ==> !slots[i].Hole?
  {
    if slots != [] {
      PresentAll(slots[..|slots| - 1]);
    }
  }

  function FromScalar(v: Value): (j: Json)
    requires ScalarData(v)
    ensures IsScalar(j)
  {
    match v
    case NullV => Null
    case BoolV(flag) => Bool(flag)
    case IntV(n) => Int(n)
    case NumV(numeral) => Num(numeral)
    case StrV(text) => Str(text)
  }

  predicate ScalarData(v: Value) { v.NullV? || v.BoolV? || v.IntV? || v.NumV? || v.StrV? }

  predicate PlainSlot(s: Slot) { s.Data? && s.enumerable }

  predicate DenseList(o: Object) {
    o.List? && o.others == [] && forall i :: 0 <= i < |o.slots| ==> PlainSlot(o.slots[i])
  }

  predicate PlainRecord(o: Object) {
    o.Record? && !o.proto.ForeignProto? &&
    forall i :: 0 <= i < |o.props| ==> o.props[i].key.Name? && PlainSlot(o.props[i].slot)
  }

  /** The value v is plain own data, and as JSON it is j. */
  ghost predicate Denotes(h: Heap, v: Value, j: Json)
    decreases j
  {
    match j
    case Arr(items) =>
      IsObject(h, v) && DenseList(h[v.id]) && |h[v.id].slots| == |items| &&
      forall i :: 0 <= i < |items| ==> Denotes(h, h[v.id].slots[i].value, items[i])
    case Obj(members) =>
      IsObject(h, v) && PlainRecord(h[v.id]) && |h[v.id].props| == |members| &&
      forall i :: 0 <= i < |members| ==>
        h[v.id].props[i].key == Name(members[i].key) && Denotes(h, h[v.id].props[i].slot.value, members[i].value)
    case _ => ScalarData(v) && FromScalar(v) == j
  }

  // Plain data means one JSON value.
  lemma {:induction false} DenotesOne(h: Heap, v: Value, a: Json, b: Json)
    requires Denotes(h, v, a) && Denotes(h, v, b)
    ensures a == b
    decreases a
  {
    match a {
      case Arr(items) =>
        forall i | 0 <= i < |items| ensures items[i] == b.items[i] {
          DenotesOne(h, h[v.id].slots[i].value, items[i], b.items[i]);
        }
      case Obj(members) =>
        forall i | 0 <= i < |members| ensures members[i] == b.members[i] {
          DenotesOne(h, h[v.id].props[i].slot.value, members[i].value, b.members[i].value);
        }
      case _ =>
    }
  }

  /** j is nested no deeper than d. */
  predicate Within(j: Json, d: int)
    decreases j
  {
    d >= 0 &&
    match j
    case Arr(items) => forall i :: 0 <= i < |items| ==> Within(items[i], d - 1)
    case Obj(members) => forall i :: 0 <= i < |members| ==> Within(members[i].value, d - 1)
    case _ => true
  }
}
