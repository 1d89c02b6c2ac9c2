/** Fresh objects: every JSON value with distinct keys is denoted by a value of some heap. */
module JsAllocation {
  import opened JsonText
  import opened JsonFacts
  import opened JsHeap

  /** What a fresh object can hold: distinct keys, and lists no longer than the language allows. */
  predicate Storable(j: Json) {
    match j
    case Arr(items) => |items| < 0x1_0000_0000 && forall i :: 0 <= i < |items| ==> Storable(items[i])
    case Obj(members) => DistinctMembers(members) && forall i :: 0 <= i < |members| ==> Storable(members[i].value)
    case _ => true
  }

  // A heap whose ids are all below the next one to use.
  datatype Stored<+T> = Stored(heap: Heap, next: nat, value: T)

  ghost predicate Below(h: Heap, next: nat) { forall id :: id in h ==> id < next }

  ghost predicate Extends(h: Heap, g: Heap) { forall id :: id in h ==> id in g && g[id] == h[id] }

  function ToScalar(j: Json): Value
    requires IsScalar(j)
  {
    match j
    case Null => NullV
    case Bool(flag) => BoolV(flag)
    case Int(n) => IntV(n)
    case Num(numeral) => NumV(numeral)
    case Str(text) => StrV(text)
  }

  function Store(h: Heap, next: nat, j: Json): Stored<Value>
    requires Storable(j)
    decreases j, 1
  {
    match j
    case Arr(items) =>
      var inner := StoreItems(h, next, items, j);
      Stored(inner.heap[inner.next := List(PlainProto, inner.value, [])], inner.next + 1, Ref(inner.next))
    case Obj(members) =>
      var inner := StoreMembers(h, next, members, j);
      Stored(inner.heap[inner.next := Record(PlainProto, inner.value)], inner.next + 1, Ref(inner.next))
    case _ => Stored(h, next, ToScalar(j))
  }

  function StoreItems(h: Heap, next: nat, items: seq<Json>, owner: Json): (r: Stored<seq<Slot>>)
    requires forall i :: 0 <= i < |items| ==> Storable(items[i]) && items[i] < owner
    ensures |r.value| == |items|
    decreases owner, 0, |items|
  {
    if items == [] then Stored(h, next, [])
    else
      var init := StoreItems(h, next, items[..|items| - 1], owner);
      var last := Store(init.heap, init.next, items[|items| - 1]);
      Stored(last.heap, last.next, init.value + [Data(last.value, true)])
  }

  function StoreMembers(h: Heap, next: nat, members: seq<Member>, owner: Json): (r: Stored<seq<Property>>)
    requires forall i :: 0 <= i < |members| ==> Storable(members[i].value) && members[i].value < owner
    ensures |r.value| == |members|
    ensures forall i :: 0 <= i < |members| ==> r.value[i].key == Name(members[i].key) && !r.value[i].slot.Hole?
    decreases owner, 0, |members|
  {
    if members == [] then Stored(h, next, [])
    else
      var n := |members| - 1;
      var init := StoreMembers(h, next, members[..n], owner);
      var last := Store(init.heap, init.next, members[n].value);
      Stored(last.heap, last.next, init.value + [Property(Name(members[n].key), Data(last.value, true))])
  }

  function Fresh(j: Json): Stored<Value>
    requires Storable(j)
  {
    Store(map[], 0, j)
  }

  // ---------------------------------------------------------------------------------------------

  lemma {:induction false} DenotesExtends(h: Heap, g: Heap, v: Value, j: Json)
    requires Extends(h, g) && Denotes(h, v, j)
    ensures Denotes(g, v, j)
    decreases j
  {
    match j {
      case Arr(items) =>
        forall i | 0 <= i < |items| ensures Denotes(g, h[v.id].slots[i].value, items[i]) {
          DenotesExtends(h, g, h[v.id].slots[i].value, items[i]);
        }
      case Obj(members) =>
        forall i | 0 <= i < |members| ensures Denotes(g, h[v.id].props[i].slot.value, members[i].value) {
          DenotesExtends(h, g, h[v.id].props[i].slot.value, members[i].value);
        }
      case _ =>
    }
  }

  lemma {:induction false} StoreDenotes(h: Heap, next: nat, j: Json)
    requires Storable(j) && Below(h, next)
    ensures var r := Store(h, next, j); Below(r.heap, r.next) && Extends(h, r.heap) && Denotes(r.heap, r.value, j)
    decreases j, 1
  {
    hide Denotes;
    match j {
      case Arr(items) =>
        StoreItemsDenote(h, next, items, j);
        var inner := StoreItems(h, next, items, j);
        ListDenotes(inner.heap, inner.next, inner.value, items);
      case Obj(members) =>
        StoreMembersDenote(h, next, members, j);
        var inner := StoreMembers(h, next, members, j);
        RecordDenotes(inner.heap, inner.next, inner.value, members);
      case _ =>
        ScalarDenotes(h, j);
    }
  }

  lemma ScalarDenotes(h: Heap, j: Json)
    requires IsScalar(j)
    ensures Denotes(h, ToScalar(j), j)
  {}

  // Putting the parts of a list or record into one new object.
  lemma ListDenotes(h: Heap, next: nat, slots: seq<Slot>, items: seq<Json>)
    requires Below(h, next) && |slots| == |items| < 0x1_0000_0000
    requires forall i :: 0 <= i < |items| ==> PlainSlot(slots[i]) && Denotes(h, slots[i].value, items[i])
    ensures Extends(h, h[next := List(PlainProto, slots, [])])
    ensures Denotes(h[next := List(PlainProto, slots, [])], Ref(next), Arr(items))
  {
    var g := h[next := List(PlainProto, slots, [])];
    forall i | 0 <= i < |items| ensures Denotes(g, slots[i].value, items[i]) {
      DenotesExtends(h, g, slots[i].value, items[i]);
    }
  }

  lemma RecordDenotes(h: Heap, next: nat, props: seq<Property>, members: seq<Member>)
    requires Below(h, next) && |props| == |members| && Proper(Record(PlainProto, props))
    requires forall i :: 0 <= i < |members| ==>
               props[i].key == Name(members[i].key) && PlainSlot(props[i].slot) &&
               Denotes(h, props[i].slot.value, members[i].value)
    ensures Extends(h, h[next := Record(PlainProto, props)])
    ensures Denotes(h[next := Record(PlainProto, props)], Ref(next), Obj(members))
  {
    var g := h[next := Record(PlainProto, props)];
    forall i | 0 <= i < |members| ensures Denotes(g, props[i].slot.value, members[i].value) {
      DenotesExtends(h, g, props[i].slot.value, members[i].value);
    }
  }

  lemma {:induction false} StoreItemsDenote(h: Heap, next: nat, items: seq<Json>, owner: Json)
    requires forall i :: 0 <= i < |items| ==> Storable(items[i]) && items[i] < owner
    requires Below(h, next)
    ensures var r := StoreItems(h, next, items, owner);
            Below(r.heap, r.next) && Extends(h, r.heap) &&
            forall i :: 0 <= i < |items| ==> PlainSlot(r.value[i]) && Denotes(r.heap, r.value[i].value, items[i])
    decreases owner, 0, |items|
  {
    hide Denotes, Storable, Store;
    if items != [] {
      var n := |items| - 1;
      StoreItemsDenote(h, next, items[..n], owner);
      var init := StoreItems(h, next, items[..n], owner);
      StoreDenotes(init.heap, init.next, items[n]);
      var last := Store(init.heap, init.next, items[n]);
      forall i | 0 <= i < n ensures Denotes(last.heap, init.value[i].value, items[i]) {
        DenotesExtends(init.heap, last.heap, init.value[i].value, items[..n][i]);
      }
    }
  }

  lemma {:induction false} StoreMembersDenote(h: Heap, next: nat, members: seq<Member>, owner: Json)
    requires forall i :: 0 <= i < |members| ==> Storable(members[i].value) && members[i].value < owner
    requires Below(h, next)
    ensures var r := StoreMembers(h, next, members, owner);
            Below(r.heap, r.next) && Extends(h, r.heap) &&
            forall i :: 0 <= i < |members| ==>
              PlainSlot(r.value[i].slot) && Denotes(r.heap, r.value[i].slot.value, members[i].value)
    decreases owner, 0, |members|
  {
    hide Denotes, Storable, Store;
    if members != [] {
      var n := |members| - 1;
      StoreMembersDenote(h, next, members[..n], owner);
      var init := StoreMembers(h, next, members[..n], owner);
      StoreDenotes(init.heap, init.next, members[n].value);
      var last := Store(init.heap, init.next, members[n].value);
      forall i | 0 <= i < n ensures Denotes(last.heap, init.value[i].slot.value, members[i].value) {
        DenotesExtends(init.heap, last.heap, init.value[i].slot.value, members[..n][i].value);
      }
    }
  }

  /** A fresh object denotes the value it was made from. */
  lemma FreshDenotes(j: Json)
    requires Storable(j)
    ensures Denotes(Fresh(j).heap, Fresh(j).value, j)
  {
    StoreDenotes(map[], 0, j);
  }

  /** What a heap value denotes can be stored again. */
  lemma {:induction false} DenotedStorable(h: Heap, v: Value, j: Json)
    requires Denotes(h, v, j)
    ensures Storable(j)
    decreases j
  {
    match j {
      case Arr(items) =>
        assert Proper(h[v.id]);
        forall i | 0 <= i < |items| ensures Storable(items[i]) {
          DenotedStorable(h, h[v.id].slots[i].value, items[i]);
        }
      case Obj(members) =>
        assert Proper(h[v.id]);
        forall i | 0 <= i < |members| ensures Storable(members[i].value) {
          DenotedStorable(h, h[v.id].props[i].slot.value, members[i].value);
        }
        forall a, b | 0 <= a < b < |members| ensures members[a].key != members[b].key {
          assert h[v.id].props[a].key != h[v.id].props[b].key;
        }
      case _ =>
    }
  }
}
