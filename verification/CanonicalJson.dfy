/** The canonical text of a JSON value, its keys sorted at every level: packages/contracts/src/schema.ts, canonicalize. */
module CanonicalJson {
  import opened JsonText
  import opened JsonFacts
  import opened Sorting

  const KEY_ORDER: (Member, Member) -> bool := (a: Member, b: Member) => TextLe(a.key, b.key)

  lemma KeyOrder()
    ensures Total(KEY_ORDER)
  {
    TextOrder();
  }

  lemma SortedMembers(members: seq<Member>)
    ensures multiset(Sort(members, KEY_ORDER)) == multiset(members)
    ensures Ordered(Sort(members, KEY_ORDER), KEY_ORDER)
    ensures forall m :: m in Sort(members, KEY_ORDER) <==> m in members
  {
    KeyOrder();
    SortOrdered(members, KEY_ORDER);
    forall m ensures m in Sort(members, KEY_ORDER) <==> m in members {
      assert m in multiset(members) <==> m in multiset(Sort(members, KEY_ORDER));
    }
  }

  function SortJson(v: Json): Json
    decreases v, 1
  {
    match v
    case Arr(items) => Arr(SortItems(items, v))
    case Obj(members) =>
      SortedMembers(members);
      Obj(SortValues(Sort(members, KEY_ORDER), v))
    case _ => v
  }

  function SortItems(items: seq<Json>, owner: Json): seq<Json>
    requires forall i :: 0 <= i < |items| ==> items[i] < owner
    decreases owner, 0, |items|
  {
    if items == [] then [] else [SortJson(items[0])] + SortItems(items[1..], owner)
  }

  function SortValues(members: seq<Member>, owner: Json): (r: seq<Member>)
    requires forall m :: m in members ==> m.value < owner
    ensures |r| == |members| && forall i :: 0 <= i < |members| ==> r[i].key == members[i].key
    decreases owner, 0, |members|
  {
    if members == [] then []
    else [Member(members[0].key, SortJson(members[0].value))] + SortValues(members[1..], owner)
  }

  function Canonicalize(v: Json): Text { Stringify(SortJson(v)) }

  lemma {:induction false} SortValuesOwner(members: seq<Member>, a: Json, b: Json)
    requires forall m :: m in members ==> m.value < a && m.value < b
    ensures SortValues(members, a) == SortValues(members, b)
  {
    if members != [] {
      SortValuesOwner(members[1..], a, b);
    }
  }

  lemma KeysTellApart(members: seq<Member>)
    requires DistinctMembers(members)
    ensures forall x, y :: x in members && y in members && KEY_ORDER(x, y) && KEY_ORDER(y, x) ==> x == y
  {
    forall x, y | x in members && y in members && KEY_ORDER(x, y) && KEY_ORDER(y, x) ensures x == y {
      TextLeAntisymmetric(x.key, y.key);
    }
  }

  /** Two records with the same members have the same canonical form, however they are ordered. */
  lemma SortPermuted(a: seq<Member>, b: seq<Member>)
    requires multiset(a) == multiset(b) && DistinctMembers(a)
    ensures SortJson(Obj(a)) == SortJson(Obj(b))
  {
    hide Sort, Ordered, Total, DistinctMembers, SortValues;
    KeyOrder();
    KeysTellApart(a);
    SortCanonical(a, b, KEY_ORDER);
    SortedMembers(a);
    SortedMembers(b);
    SortValuesOwner(Sort(a, KEY_ORDER), Obj(a), Obj(b));
  }

  // ---------------------------------------------------------------------------------------------
  // Records alike in their keys and in the canonical forms of their values

  predicate Alike(a: seq<Member>, b: seq<Member>) {
    |a| == |b| && forall i :: 0 <= i < |a| ==> a[i].key == b[i].key && SortJson(a[i].value) == SortJson(b[i].value)
  }

  lemma {:induction false} InsertAlike(x: Member, y: Member, a: seq<Member>, b: seq<Member>)
    requires x.key == y.key && SortJson(x.value) == SortJson(y.value) && Alike(a, b)
    ensures Alike(Insert(x, a, KEY_ORDER), Insert(y, b, KEY_ORDER))
  {
    hide SortJson, TextLe;
    if a != [] && !KEY_ORDER(x, a[0]) {
      InsertAlike(x, y, a[1..], b[1..]);
    }
  }

  lemma {:induction false} SortAlike(a: seq<Member>, b: seq<Member>)
    requires Alike(a, b)
    ensures Alike(Sort(a, KEY_ORDER), Sort(b, KEY_ORDER))
  {
    hide SortJson, Insert;
    if a != [] {
      SortAlike(a[1..], b[1..]);
      InsertAlike(a[0], b[0], Sort(a[1..], KEY_ORDER), Sort(b[1..], KEY_ORDER));
    }
  }

  lemma {:induction false} SortValuesAlike(a: seq<Member>, b: seq<Member>, x: Json, y: Json)
    requires Alike(a, b) && (forall m :: m in a ==> m.value < x) && (forall m :: m in b ==> m.value < y)
    ensures SortValues(a, x) == SortValues(b, y)
  {
    if a != [] {
      SortValuesAlike(a[1..], b[1..], x, y);
    }
  }

  lemma AlikeCanonical(a: seq<Member>, b: seq<Member>)
    requires Alike(a, b)
    ensures SortJson(Obj(a)) == SortJson(Obj(b))
  {
    hide Sort, Ordered, SortValues, Alike;
    SortAlike(a, b);
    SortedMembers(a);
    SortedMembers(b);
    SortValuesAlike(Sort(a, KEY_ORDER), Sort(b, KEY_ORDER), Obj(a), Obj(b));
  }

  // ---------------------------------------------------------------------------------------------
  // The canonical form is the value up to the order of keys

  /** The same lists, and in records the same values under the same keys, at every level. */
  ghost predicate SameUpToOrder(a: Json, b: Json)
    decreases a, 0
  {
    match a
    case Arr(items) => b.Arr? && |items| == |b.items| && forall i :: 0 <= i < |items| ==> SameUpToOrder(items[i], b.items[i])
    case Obj(members) =>
      b.Obj? && |members| == |b.members| && forall i :: 0 <= i < |members| ==> SameAmong(members[i].key, members[i].value, b.members)
    case _ => a == b
  }

  ghost predicate SameAmong(key: Text, value: Json, members: seq<Member>)
    decreases value, 1
  {
    exists k :: 0 <= k < |members| && members[k].key == key && SameUpToOrder(value, members[k].value)
  }

  lemma {:induction false} SortItemsAre(items: seq<Json>, owner: Json)
    requires forall i :: 0 <= i < |items| ==> items[i] < owner
    ensures |SortItems(items, owner)| == |items|
    ensures forall i :: 0 <= i < |items| ==> SortItems(items, owner)[i] == SortJson(items[i])
  {
    hide SortJson;
    if items != [] { SortItemsAre(items[1..], owner); }
  }

  lemma {:induction false} SortValuesAre(members: seq<Member>, owner: Json)
    requires forall m :: m in members ==> m.value < owner
    ensures |SortValues(members, owner)| == |members|
    ensures forall i :: 0 <= i < |members| ==>
              SortValues(members, owner)[i] == Member(members[i].key, SortJson(members[i].value))
  {
    hide SortJson;
    if members != [] { SortValuesAre(members[1..], owner); }
  }

  /** Nothing but the order of keys changes. */
  lemma {:induction false} CanonicalSame(j: Json)
    ensures SameUpToOrder(j, SortJson(j))
    decreases j, 1
  {
    match j {
      case Arr(items) =>
        SortItemsAre(items, j);
        forall i | 0 <= i < |items| ensures SameUpToOrder(items[i], SortJson(items[i])) { CanonicalSame(items[i]); }
      case Obj(members) => CanonicalRecord(members);
      case _ =>
    }
  }

  lemma CanonicalRecord(members: seq<Member>)
    ensures SameUpToOrder(Obj(members), SortJson(Obj(members)))
    decreases Obj(members), 0
  {
    hide SortJson, SameUpToOrder, Sort, SortValues, Ordered;
    var sorted := Sort(members, KEY_ORDER);
    SortedMembers(members);
    RecordSorted(members);
    SortValuesAre(sorted, Obj(members));
    assert |sorted| == |multiset(sorted)| && |members| == |multiset(members)|;
    var out := SortJson(Obj(members)).members;
    forall i | 0 <= i < |members| ensures SameAmong(members[i].key, members[i].value, out) {
      CanonicalSame(members[i].value);
      FoundSorted(members[i], members, sorted, out);
    }
    SameRecord(members, out);
  }

  lemma FoundSorted(m: Member, members: seq<Member>, sorted: seq<Member>, out: seq<Member>)
    requires m in members && |out| == |sorted| && (forall x :: x in sorted <==> x in members)
    requires forall k :: 0 <= k < |sorted| ==> out[k] == Member(sorted[k].key, SortJson(sorted[k].value))
    requires SameUpToOrder(m.value, SortJson(m.value))
    ensures SameAmong(m.key, m.value, out)
  {
    hide SameUpToOrder, SortJson;
    var k :| 0 <= k < |sorted| && sorted[k] == m;
    assert out[k].key == m.key;
  }

  lemma RecordSorted(members: seq<Member>)
    ensures forall m :: m in Sort(members, KEY_ORDER) ==> m.value < Obj(members)
    ensures SortJson(Obj(members)) == Obj(SortValues(Sort(members, KEY_ORDER), Obj(members)))
  {
    SortedMembers(members);
  }

  lemma SameRecord(members: seq<Member>, out: seq<Member>)
    requires |members| == |out|
    requires forall i :: 0 <= i < |members| ==> SameAmong(members[i].key, members[i].value, out)
    ensures SameUpToOrder(Obj(members), Obj(out))
  {}
}
