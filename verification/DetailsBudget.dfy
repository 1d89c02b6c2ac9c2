/** The shape budget of failure details: packages/contracts/src/failure.ts, budgetIssues and jsonDataSnapshot. */
module DetailsBudget {
  import opened Options
  import opened JsonText
  import opened JsHeap
  import opened FailureModel

  const DEEPEST := 4
  const MOST_LISTED := 32
  const MOST_FIELDS := 16

  datatype BudgetIssue = TooDeep | LongString | LongList | WideRecord

  function BudgetIssues(j: Json, depth: nat, limit: nat): seq<BudgetIssue>
    decreases j, 1
  {
    if depth > DEEPEST then [TooDeep]
    else
      match j
      case Str(text) => if Bytes(text) <= limit then [] else [LongString]
      case Arr(items) => if |items| <= MOST_LISTED then ItemIssues(items, depth + 1, limit, j) else [LongList]
      case Obj(members) => if |members| <= MOST_FIELDS then MemberIssues(members, depth + 1, limit, j) else [WideRecord]
      case _ => []
  }

  function ItemIssues(items: seq<Json>, depth: nat, limit: nat, owner: Json): seq<BudgetIssue>
    requires forall i :: 0 <= i < |items| ==> items[i] < owner
    decreases owner, 0, |items|
  {
    if items == [] then [] else BudgetIssues(items[0], depth, limit) + ItemIssues(items[1..], depth, limit, owner)
  }

  function MemberIssues(members: seq<Member>, depth: nat, limit: nat, owner: Json): seq<BudgetIssue>
    requires forall i :: 0 <= i < |members| ==> members[i].value < owner
    decreases owner, 0, |members|
  {
    if members == [] then []
    else BudgetIssues(members[0].value, depth, limit) + MemberIssues(members[1..], depth, limit, owner)
  }

  /** No deeper than four levels, no string, list or record beyond its limit. */
  predicate InBudget(j: Json, depth: nat, limit: nat)
    decreases j
  {
    depth <= DEEPEST &&
    match j
    case Str(text) => Bytes(text) <= limit
    case Arr(items) => |items| <= MOST_LISTED && forall i :: 0 <= i < |items| ==> InBudget(items[i], depth + 1, limit)
    case Obj(members) =>
      |members| <= MOST_FIELDS && forall i :: 0 <= i < |members| ==> InBudget(members[i].value, depth + 1, limit)
    case _ => true
  }

  /** The list of issues is empty exactly when the value is in budget. */
  lemma {:induction false} BudgetIff(j: Json, depth: nat, limit: nat)
    ensures BudgetIssues(j, depth, limit) == [] <==> InBudget(j, depth, limit)
    decreases j, 1
  {
    match j {
      case Arr(items) => if |items| <= MOST_LISTED { ItemsIff(items, depth + 1, limit, j); }
      case Obj(members) => if |members| <= MOST_FIELDS { MembersIff(members, depth + 1, limit, j); }
      case _ =>
    }
  }

  lemma {:induction false} ItemsIff(items: seq<Json>, depth: nat, limit: nat, owner: Json)
    requires forall i :: 0 <= i < |items| ==> items[i] < owner
    ensures ItemIssues(items, depth, limit, owner) == [] <==> forall i :: 0 <= i < |items| ==> InBudget(items[i], depth, limit)
    decreases owner, 0, |items|
  {
    hide InBudget, BudgetIssues;
    if items != [] {
      BudgetIff(items[0], depth, limit);
      ItemsIff(items[1..], depth, limit, owner);
      assert forall i :: 1 <= i < |items| ==> items[i] == items[1..][i - 1];
    }
  }

  lemma {:induction false} MembersIff(members: seq<Member>, depth: nat, limit: nat, owner: Json)
    requires forall i :: 0 <= i < |members| ==> members[i].value < owner
    ensures MemberIssues(members, depth, limit, owner) == [] <==>
            forall i :: 0 <= i < |members| ==> InBudget(members[i].value, depth, limit)
    decreases owner, 0, |members|
  {
    hide InBudget, BudgetIssues;
    if members != [] {
      BudgetIff(members[0].value, depth, limit);
      MembersIff(members[1..], depth, limit, owner);
      assert forall i :: 1 <= i < |members| ==> members[i] == members[1..][i - 1];
    }
  }

  // The order of the fields does not matter to the budget.
  lemma BudgetPermuted(a: seq<Member>, b: seq<Member>, depth: nat, limit: nat)
    requires multiset(a) == multiset(b) && InBudget(Obj(a), depth, limit)
    ensures InBudget(Obj(b), depth, limit)
  {
    assert |a| == |multiset(a)| && |b| == |multiset(b)|;
    forall i | 0 <= i < |b| ensures InBudget(b[i].value, depth + 1, limit) {
      assert b[i] in multiset(a);
    }
  }

  // ---------------------------------------------------------------------------------------------
  // The bounded copy of caller data

  function Snapshot(h: Heap, v: Value, depth: nat, limit: nat): Option<Json>
    decreases if depth <= DEEPEST then DEEPEST + 1 - depth else 0, 0
  {
    if depth > DEEPEST then None
    else if ScalarData(v) then if v.StrV? && Bytes(v.text) > limit then None else Some(FromScalar(v))
    else if IsList(h, v) then
      if |h[v.id].slots| > MOST_LISTED || !IsClosedList(h, v) then None
      else
        var items :- SnapshotItems(h, h[v.id].slots, depth + 1, limit);
        Some(Arr(items))
    else if !IsDataRecord(h, v) then None
    else
      var members :- SnapshotMembers(h, h[v.id].props, depth + 1, limit);
      Some(Obj(members))
  }

  function SnapshotItems(h: Heap, slots: seq<Slot>, depth: nat, limit: nat): Option<seq<Json>>
    decreases if depth <= DEEPEST then DEEPEST + 1 - depth else 0, 1, |slots|
  {
    if slots == [] then Some([])
    else if !slots[0].Data? then None
    else
      var item :- Snapshot(h, slots[0].value, depth, limit);
      var rest :- SnapshotItems(h, slots[1..], depth, limit);
      Some([item] + rest)
  }

  function SnapshotMembers(h: Heap, props: seq<Property>, depth: nat, limit: nat): Option<seq<Member>>
    decreases if depth <= DEEPEST then DEEPEST + 1 - depth else 0, 1, |props|
  {
    if props == [] then Some([])
    else if !props[0].key.Name? || !props[0].slot.Data? then None
    else
      var value :- Snapshot(h, props[0].slot.value, depth, limit);
      var rest :- SnapshotMembers(h, props[1..], depth, limit);
      Some([Member(props[0].key.text, value)] + rest)
  }

  // The value j shows v: lists have no keys but their elements, records are plain, and every part is own data.
  ghost predicate Holds(h: Heap, v: Value, j: Json)
    decreases j
  {
    match j
    case Arr(items) =>
      IsObject(h, v) && h[v.id].List? && h[v.id].others == [] && |h[v.id].slots| == |items| &&
      forall i :: 0 <= i < |items| ==> h[v.id].slots[i].Data? && Holds(h, h[v.id].slots[i].value, items[i])
    case Obj(members) =>
      IsObject(h, v) && h[v.id].Record? && !h[v.id].proto.ForeignProto? && |h[v.id].props| == |members| &&
      forall i :: 0 <= i < |members| ==>
        h[v.id].props[i].key == Name(members[i].key) && h[v.id].props[i].slot.Data? && h[v.id].props[i].slot.enumerable &&
        Holds(h, h[v.id].props[i].slot.value, members[i].value)
    case _ => v == ToScalar(j)
  }

  function ToScalar(j: Json): Value
    requires !j.Arr? && !j.Obj?
  {
    match j
    case Null => NullV
    case Bool(flag) => BoolV(flag)
    case Int(n) => IntV(n)
    case Num(numeral) => NumV(numeral)
    case Str(text) => StrV(text)
  }

  /** The copy of v is j exactly when v holds j and j is in budget. */
  lemma {:induction false} SnapshotMeans(h: Heap, v: Value, j: Json, depth: nat, limit: nat)
    ensures Snapshot(h, v, depth, limit) == Some(j) <==> Holds(h, v, j) && InBudget(j, depth, limit)
    decreases j, 1
  {
    hide InBudget, Holds, SnapshotItems, SnapshotMembers, Bytes;
    match j {
      case Arr(items) =>
        if IsList(h, v) && depth <= DEEPEST { ItemsMean(h, h[v.id].slots, items, depth + 1, limit, j); }
        ListMeans(h, v, items, depth, limit);
      case Obj(members) =>
        if IsRecord(h, v) && depth <= DEEPEST { MembersMean(h, h[v.id].props, members, depth + 1, limit, j); }
        RecordMeans(h, v, members, depth, limit);
      case _ =>
        ScalarMeans(h, v, j, depth, limit);
    }
  }

  lemma ScalarMeans(h: Heap, v: Value, j: Json, depth: nat, limit: nat)
    requires !j.Arr? && !j.Obj?
    ensures Snapshot(h, v, depth, limit) == Some(j) <==> Holds(h, v, j) && InBudget(j, depth, limit)
  {
    hide Bytes, SnapshotItems, SnapshotMembers;
  }

  // One list or record, given the copy of its parts.
  lemma ListMeans(h: Heap, v: Value, items: seq<Json>, depth: nat, limit: nat)
    requires IsList(h, v) && depth <= DEEPEST ==>
               (SnapshotItems(h, h[v.id].slots, depth + 1, limit) == Some(items) <==>
                ItemsHold(h, h[v.id].slots, items) && forall i :: 0 <= i < |items| ==> InBudget(items[i], depth + 1, limit))
    ensures Snapshot(h, v, depth, limit) == Some(Arr(items)) <==> Holds(h, v, Arr(items)) && InBudget(Arr(items), depth, limit)
  {
    hide SnapshotItems, SnapshotMembers, Bytes, Present;
    if IsList(h, v) { PresentAll(h[v.id].slots); }
  }

  lemma RecordMeans(h: Heap, v: Value, members: seq<Member>, depth: nat, limit: nat)
    requires IsRecord(h, v) && depth <= DEEPEST ==>
               (SnapshotMembers(h, h[v.id].props, depth + 1, limit) == Some(members) <==>
                MembersHold(h, h[v.id].props, members) &&
                forall i :: 0 <= i < |members| ==> InBudget(members[i].value, depth + 1, limit))
    ensures Snapshot(h, v, depth, limit) == Some(Obj(members)) <==>
            Holds(h, v, Obj(members)) && InBudget(Obj(members), depth, limit)
  {
    hide SnapshotItems, SnapshotMembers, Bytes;
  }

  ghost predicate ItemsHold(h: Heap, slots: seq<Slot>, items: seq<Json>) {
    |slots| == |items| && forall i :: 0 <= i < |items| ==> slots[i].Data? && Holds(h, slots[i].value, items[i])
  }

  ghost predicate MembersHold(h: Heap, props: seq<Property>, members: seq<Member>) {
    |props| == |members| &&
    forall i :: 0 <= i < |members| ==>
      props[i].key == Name(members[i].key) && props[i].slot.Data? && Holds(h, props[i].slot.value, members[i].value)
  }

  lemma {:induction false} ItemsMean(h: Heap, slots: seq<Slot>, items: seq<Json>, depth: nat, limit: nat, owner: Json)
    requires forall i :: 0 <= i < |items| ==> items[i] < owner
    ensures SnapshotItems(h, slots, depth, limit) == Some(items) <==>
            ItemsHold(h, slots, items) && forall i :: 0 <= i < |items| ==> InBudget(items[i], depth, limit)
    decreases owner, 0, |items|
  {
    hide Snapshot, InBudget, Holds;
    if items != [] && slots != [] {
      if slots[0].Data? { SnapshotMeans(h, slots[0].value, items[0], depth, limit); }
      ItemsMean(h, slots[1..], items[1..], depth, limit, owner);
      assert forall i :: 1 <= i < |items| ==> items[i] == items[1..][i - 1];
      assert |slots| == |items| ==> forall i :: 1 <= i < |slots| ==> slots[i] == slots[1..][i - 1];
      assert items == [items[0]] + items[1..];
    }
  }

  lemma {:induction false} MembersMean(
    h: Heap, props: seq<Property>, members: seq<Member>, depth: nat, limit: nat, owner: Json)
    requires forall i :: 0 <= i < |members| ==> members[i].value < owner
    ensures SnapshotMembers(h, props, depth, limit) == Some(members) <==>
            MembersHold(h, props, members) && forall i :: 0 <= i < |members| ==> InBudget(members[i].value, depth, limit)
    decreases owner, 0, |members|
  {
    hide Snapshot, InBudget, Holds;
    if members != [] && props != [] {
      if props[0].slot.Data? { SnapshotMeans(h, props[0].slot.value, members[0].value, depth, limit); }
      MembersMean(h, props[1..], members[1..], depth, limit, owner);
      assert forall i :: 1 <= i < |members| ==> members[i] == members[1..][i - 1];
      assert |props| == |members| ==> forall i :: 1 <= i < |props| ==> props[i] == props[1..][i - 1];
      assert members == [Member(members[0].key, members[0].value)] + members[1..];
    }
  }

  // Plain data holds what it denotes, and nothing else.
  lemma {:induction false} DenotedHolds(h: Heap, v: Value, j: Json)
    requires Denotes(h, v, j)
    ensures Holds(h, v, j)
    decreases j
  {
    match j {
      case Arr(items) =>
        forall i | 0 <= i < |items| ensures Holds(h, h[v.id].slots[i].value, items[i]) {
          DenotedHolds(h, h[v.id].slots[i].value, items[i]);
        }
      case Obj(members) =>
        forall i | 0 <= i < |members| ensures Holds(h, h[v.id].props[i].slot.value, members[i].value) {
          DenotedHolds(h, h[v.id].props[i].slot.value, members[i].value);
        }
      case _ =>
    }
  }

  lemma {:induction false} HoldsOne(h: Heap, v: Value, a: Json, b: Json)
    requires Holds(h, v, a) && Holds(h, v, b)
    ensures a == b
    decreases a
  {
    match a {
      case Arr(items) =>
        forall i | 0 <= i < |items| ensures items[i] == b.items[i] {
          HoldsOne(h, h[v.id].slots[i].value, items[i], b.items[i]);
        }
      case Obj(members) =>
        forall i | 0 <= i < |members| ensures members[i] == b.members[i] {
          HoldsOne(h, h[v.id].props[i].slot.value, members[i].value, b.members[i].value);
        }
      case _ =>
    }
  }

  /** Plain data is copied as itself when it is in budget, and refused otherwise. */
  lemma SnapshotIff(h: Heap, v: Value, j: Json, depth: nat, limit: nat)
    requires Denotes(h, v, j)
    ensures Snapshot(h, v, depth, limit) == if InBudget(j, depth, limit) then Some(j) else None
  {
    hide Snapshot, InBudget, Denotes, Holds;
    DenotedHolds(h, v, j);
    SnapshotMeans(h, v, j, depth, limit);
    if Snapshot(h, v, depth, limit).Some? {
      var k := Snapshot(h, v, depth, limit).value;
      SnapshotMeans(h, v, k, depth, limit);
      HoldsOne(h, v, j, k);
    }
  }
}
