/** The budgeted copy of caller data: packages/contracts/src/projection-recovery.ts, jsonDataCopy. */
module JsonDataCopy {
  import opened Options
  import opened JsonText
  import opened JsonFacts
  import opened JsHeap

  const DEPTH_LIMIT := 16

  // The same copy without a budget.
  function PlainCopy(h: Heap, v: Value, depth: nat): Option<Json>
    decreases if depth <= DEPTH_LIMIT then DEPTH_LIMIT + 1 - depth else 0, 0
  {
    if depth > DEPTH_LIMIT then None
    else if ScalarData(v) then Some(FromScalar(v))
    else if !IsObject(h, v) then None
    else if h[v.id].List? then
      if Present(h[v.id].slots) + |h[v.id].others| != |h[v.id].slots| then None
      else
        var items :- CopySlots(h, h[v.id].slots, depth + 1);
        Some(Arr(items))
    else if h[v.id].proto.ForeignProto? then None
    else
      var members :- CopyProperties(h, h[v.id].props, depth + 1);
      Some(Obj(members))
  }

  function CopySlots(h: Heap, slots: seq<Slot>, depth: nat): (r: Option<seq<Json>>)
    ensures r.Some? ==> |r.value| == |slots|
    decreases if depth <= DEPTH_LIMIT then DEPTH_LIMIT + 1 - depth else 0, 1, |slots|
  {
    if slots == [] then Some([])
    else
      var items :- CopySlots(h, slots[..|slots| - 1], depth);
      var last := slots[|slots| - 1];
      if !PlainSlot(last) then None
      else
        var item :- PlainCopy(h, last.value, depth);
        Some(items + [item])
  }

  function CopyProperties(h: Heap, props: seq<Property>, depth: nat): (r: Option<seq<Member>>)
    ensures r.Some? ==> |r.value| == |props|
    decreases if depth <= DEPTH_LIMIT then DEPTH_LIMIT + 1 - depth else 0, 1, |props|
  {
    if props == [] then Some([])
    else
      var members :- CopyProperties(h, props[..|props| - 1], depth);
      var last := props[|props| - 1];
      if !last.key.Name? || !PlainSlot(last.slot) then None
      else
        var value :- PlainCopy(h, last.slot.value, depth);
        Some(members + [Member(last.key.text, value)])
  }

  // The copy succeeds exactly on plain data nested no deeper than the limit, and then means the same.
  lemma {:induction false} CopyIff(h: Heap, v: Value, depth: nat, j: Json)
    ensures PlainCopy(h, v, depth) == Some(j) <==> Denotes(h, v, j) && Within(j, DEPTH_LIMIT - depth)
    decreases if depth <= DEPTH_LIMIT then DEPTH_LIMIT + 1 - depth else 0, 0
  {
    hide PlainCopy, Denotes, Within;
    if depth > DEPTH_LIMIT || !IsObject(h, v) {
      ScalarIff(h, v, depth, j);
    } else if h[v.id].List? {
      SlotsIff(h, h[v.id].slots, depth + 1, if j.Arr? then j.items else []);
      ListIff(h, v, depth, j);
    } else {
      PropertiesIff(h, h[v.id].props, depth + 1, if j.Obj? then j.members else []);
      RecordIff(h, v, depth, j);
    }
  }

  lemma ScalarIff(h: Heap, v: Value, depth: nat, j: Json)
    requires depth > DEPTH_LIMIT || !IsObject(h, v)
    ensures PlainCopy(h, v, depth) == Some(j) <==> Denotes(h, v, j) && Within(j, DEPTH_LIMIT - depth)
  {}

  // The list and record cases, given the facts about their parts.
  lemma ListIff(h: Heap, v: Value, depth: nat, j: Json)
    requires depth <= DEPTH_LIMIT && IsList(h, v)
    requires j.Arr? ==>
               (CopySlots(h, h[v.id].slots, depth + 1) == Some(j.items) <==>
                |h[v.id].slots| == |j.items| &&
                forall i :: 0 <= i < |j.items| ==>
                  PlainSlot(h[v.id].slots[i]) && Denotes(h, h[v.id].slots[i].value, j.items[i]) &&
                  Within(j.items[i], DEPTH_LIMIT - depth - 1))
    requires CopySlots(h, h[v.id].slots, depth + 1).Some? ==>
               forall i :: 0 <= i < |h[v.id].slots| ==> PlainSlot(h[v.id].slots[i])
    ensures PlainCopy(h, v, depth) == Some(j) <==> Denotes(h, v, j) && Within(j, DEPTH_LIMIT - depth)
  {
    PresentAll(h[v.id].slots);
  }

  lemma RecordIff(h: Heap, v: Value, depth: nat, j: Json)
    requires depth <= DEPTH_LIMIT && IsRecord(h, v)
    requires j.Obj? ==>
               (CopyProperties(h, h[v.id].props, depth + 1) == Some(j.members) <==>
                |h[v.id].props| == |j.members| &&
                forall i :: 0 <= i < |j.members| ==>
                  h[v.id].props[i].key == Name(j.members[i].key) && PlainSlot(h[v.id].props[i].slot) &&
                  Denotes(h, h[v.id].props[i].slot.value, j.members[i].value) &&
                  Within(j.members[i].value, DEPTH_LIMIT - depth - 1))
    ensures PlainCopy(h, v, depth) == Some(j) <==> Denotes(h, v, j) && Within(j, DEPTH_LIMIT - depth)
  {}

  lemma {:induction false} SlotsIff(h: Heap, slots: seq<Slot>, depth: nat, items: seq<Json>)
    ensures CopySlots(h, slots, depth) == Some(items) <==>
            |slots| == |items| &&
            forall i :: 0 <= i < |items| ==>
              PlainSlot(slots[i]) && Denotes(h, slots[i].value, items[i]) && Within(items[i], DEPTH_LIMIT - depth)
    ensures CopySlots(h, slots, depth).Some? ==> forall i :: 0 <= i < |slots| ==> PlainSlot(slots[i])
    decreases if depth <= DEPTH_LIMIT then DEPTH_LIMIT + 1 - depth else 0, 1, |slots|
  {
    if slots != [] {
      var n := |slots| - 1;
      var r := CopySlots(h, slots[..n], depth);
      SlotsIff(h, slots[..n], depth, if |items| > n then items[..n] else []);
      if r.Some? {
        if PlainSlot(slots[n]) {
          var c := PlainCopy(h, slots[n].value, depth);
          if c.Some? { CopyIff(h, slots[n].value, depth, c.value); }
        }
      }
      if |items| == |slots| {
        assert items == items[..n] + [items[n]];
        if PlainSlot(slots[n]) {
          CopyIff(h, slots[n].value, depth, items[n]);
        }
      }
    }
  }

  lemma {:induction false} PropertiesIff(h: Heap, props: seq<Property>, depth: nat, members: seq<Member>)
    ensures CopyProperties(h, props, depth) == Some(members) <==>
            |props| == |members| &&
            forall i :: 0 <= i < |members| ==>
              props[i].key == Name(members[i].key) && PlainSlot(props[i].slot) &&
              Denotes(h, props[i].slot.value, members[i].value) && Within(members[i].value, DEPTH_LIMIT - depth)
    decreases if depth <= DEPTH_LIMIT then DEPTH_LIMIT + 1 - depth else 0, 1, |props|
  {
    if props != [] {
      var n := |props| - 1;
      PropertiesIff(h, props[..n], depth, if |members| > n then members[..n] else []);
      if |members| == |props| {
        assert members == members[..n] + [members[n]];
        assert members[n] == Member(members[n].key, members[n].value);
        if PlainSlot(props[n].slot) {
          CopyIff(h, props[n].slot.value, depth, members[n].value);
        }
      }
    }
  }

  // A copied list or record starts with the copy of its prefix.
  lemma {:induction false} SlotsPrefix(h: Heap, slots: seq<Slot>, n: nat, depth: nat)
    requires n <= |slots| && CopySlots(h, slots, depth).Some?
    ensures CopySlots(h, slots[..n], depth) == Some(CopySlots(h, slots, depth).value[..n])
    decreases |slots|
  {
    var items := CopySlots(h, slots, depth).value;
    if n == |slots| {
      assert slots[..n] == slots && items[..n] == items;
    } else {
      var k := |slots| - 1;
      SlotsPrefix(h, slots[..k], n, depth);
      assert slots[..k][..n] == slots[..n] && items[..k][..n] == items[..n];
    }
  }

  lemma {:induction false} PropertiesPrefix(h: Heap, props: seq<Property>, n: nat, depth: nat)
    requires n <= |props| && CopyProperties(h, props, depth).Some?
    ensures CopyProperties(h, props[..n], depth) == Some(CopyProperties(h, props, depth).value[..n])
    decreases |props|
  {
    var members := CopyProperties(h, props, depth).value;
    if n == |props| {
      assert props[..n] == props && members[..n] == members;
    } else {
      var k := |props| - 1;
      PropertiesPrefix(h, props[..k], n, depth);
      assert props[..k][..n] == props[..n] && members[..k][..n] == members[..n];
    }
  }

  lemma SlotsBound(h: Heap, slots: seq<Slot>, n: nat, depth: nat)
    requires n <= |slots| && CopySlots(h, slots, depth).Some?
    ensures CopySlots(h, slots[..n], depth).Some?
    ensures ItemsSize(CopySlots(h, slots[..n], depth).value) <= ItemsSize(CopySlots(h, slots, depth).value)
  {
    SlotsPrefix(h, slots, n, depth);
    ItemsSizePrefix(CopySlots(h, slots, depth).value, n);
  }

  lemma PropertiesBound(h: Heap, props: seq<Property>, n: nat, depth: nat)
    requires n <= |props| && CopyProperties(h, props, depth).Some?
    ensures CopyProperties(h, props[..n], depth).Some?
    ensures MembersSize(CopyProperties(h, props[..n], depth).value) <= MembersSize(CopyProperties(h, props, depth).value)
  {
    PropertiesPrefix(h, props, n, depth);
    MembersSizePrefix(CopyProperties(h, props, depth).value, n);
  }

  lemma SlotsUnfold(h: Heap, slots: seq<Slot>, i: nat, depth: nat, items: seq<Json>)
    requires i < |slots| && CopySlots(h, slots[..i], depth) == Some(items)
    ensures !PlainSlot(slots[i]) ==> CopySlots(h, slots[..i + 1], depth).None?
    ensures PlainSlot(slots[i]) ==>
              match PlainCopy(h, slots[i].value, depth)
              case None => CopySlots(h, slots[..i + 1], depth).None?
              case Some(item) => CopySlots(h, slots[..i + 1], depth) == Some(items + [item])
  {
    var t := slots[..i + 1];
    assert t[..|t| - 1] == slots[..i] && t[|t| - 1] == slots[i];
  }

  // A slot that cannot be copied fails the whole list; any other grows the copied prefix by its item.
  lemma ListFails(h: Heap, slots: seq<Slot>, i: nat, depth: nat, items: seq<Json>)
    requires i < |slots| && CopySlots(h, slots[..i], depth) == Some(items)
    requires PlainSlot(slots[i]) ==> PlainCopy(h, slots[i].value, depth).None?
    ensures CopySlots(h, slots, depth).None?
  {
    SlotsUnfold(h, slots, i, depth, items);
    if CopySlots(h, slots, depth).Some? {
      SlotsBound(h, slots, i + 1, depth);
    }
  }

  lemma ListGrows(h: Heap, slots: seq<Slot>, i: nat, depth: nat, items: seq<Json>, item: Json)
    requires i < |slots| && CopySlots(h, slots[..i], depth) == Some(items)
    requires PlainSlot(slots[i]) && PlainCopy(h, slots[i].value, depth) == Some(item)
    ensures CopySlots(h, slots[..i + 1], depth) == Some(items + [item])
    ensures ItemsSize(items + [item]) == ItemsSize(items) + (if i > 0 then 1 else 0) + Size(item)
    ensures CopySlots(h, slots, depth).Some? ==>
              ItemsSize(items + [item]) <= ItemsSize(CopySlots(h, slots, depth).value)
  {
    SlotsUnfold(h, slots, i, depth, items);
    if CopySlots(h, slots, depth).Some? {
      SlotsBound(h, slots, i + 1, depth);
    }
    ItemsSizeAppend(items, item);
  }

  lemma PropertiesUnfold(h: Heap, props: seq<Property>, i: nat, depth: nat, members: seq<Member>)
    requires i < |props| && CopyProperties(h, props[..i], depth) == Some(members)
    ensures !props[i].key.Name? || !PlainSlot(props[i].slot) ==> CopyProperties(h, props[..i + 1], depth).None?
    ensures props[i].key.Name? && PlainSlot(props[i].slot) ==>
              match PlainCopy(h, props[i].slot.value, depth)
              case None => CopyProperties(h, props[..i + 1], depth).None?
              case Some(value) =>
                CopyProperties(h, props[..i + 1], depth) == Some(members + [Member(props[i].key.text, value)])
  {
    var t := props[..i + 1];
    assert t[..|t| - 1] == props[..i] && t[|t| - 1] == props[i];
  }

  // What one more entry adds to the copied prefix.
  lemma EntryCopied(h: Heap, props: seq<Property>, i: nat, depth: nat, members: seq<Member>)
    requires i < |props| && CopyProperties(h, props[..i], depth) == Some(members)
    ensures var p, full := props[i], CopyProperties(h, props[..i + 1], depth);
            if !p.key.Name? || !PlainSlot(p.slot) || PlainCopy(h, p.slot.value, depth).None? then full.None?
            else
              var m := Member(p.key.text, PlainCopy(h, p.slot.value, depth).value);
              full == Some(members + [m]) &&
              MembersSize(members + [m])
              == MembersSize(members) + (if i == 0 then 0 else 1) + Bytes(Quote(m.key)) + 1 + Size(m.value)
  {
    PropertiesUnfold(h, props, i, depth, members);
    if props[i].key.Name? && PlainSlot(props[i].slot) && PlainCopy(h, props[i].slot.value, depth).Some? {
      MembersSizeAppend(members, Member(props[i].key.text, PlainCopy(h, props[i].slot.value, depth).value));
    }
  }

  // What holds a prefix back holds the whole back.
  lemma PrefixFails(h: Heap, props: seq<Property>, n: nat, depth: nat, base: nat, maximum: nat)
    requires n <= |props|
    requires var part := CopyProperties(h, props[..n], depth); part.None? || base + MembersSize(part.value) > maximum
    ensures var full := CopyProperties(h, props, depth); full.None? || base + MembersSize(full.value) > maximum
  {
    if CopyProperties(h, props, depth).Some? { PropertiesBound(h, props, n, depth); }
  }

  // What a copy within a budget returns: everything or nothing.
  function Budgeted(full: Option<Json>, before: nat, maximum: nat): Option<Json> {
    if full.Some? && before + Size(full.value) <= maximum then full else None
  }

  // The copy of a list or record, and its size, in terms of its parts.
  lemma ListCopy(h: Heap, v: Value, depth: nat, items: Option<seq<Json>>)
    requires depth <= DEPTH_LIMIT && IsList(h, v)
    requires items == CopySlots(h, h[v.id].slots, depth + 1)
    ensures items.None? || Present(h[v.id].slots) + |h[v.id].others| != |h[v.id].slots| ==>
              PlainCopy(h, v, depth).None?
    ensures items.Some? && Present(h[v.id].slots) + |h[v.id].others| == |h[v.id].slots| ==>
              PlainCopy(h, v, depth) == Some(Arr(items.value)) && Size(Arr(items.value)) == 2 + ItemsSize(items.value)
  {
    if items.Some? { SizeIsSum(Arr(items.value)); }
  }

  lemma RecordCopy(h: Heap, v: Value, depth: nat, members: Option<seq<Member>>)
    requires depth <= DEPTH_LIMIT && IsRecord(h, v)
    requires members == CopyProperties(h, h[v.id].props, depth + 1)
    ensures members.None? || h[v.id].proto.ForeignProto? ==> PlainCopy(h, v, depth).None?
    ensures members.Some? && !h[v.id].proto.ForeignProto? ==>
              PlainCopy(h, v, depth) == Some(Obj(members.value)) && Size(Obj(members.value)) == 2 + MembersSize(members.value)
  {
    if members.Some? { SizeIsSum(Obj(members.value)); }
  }

  /** The running byte counter, and the copy that feeds it. */
  class DataCopier {
    const heap: Heap
    const maximum: nat
    var measured: nat

    constructor (heap: Heap, maximum: nat)
      ensures this.heap == heap && this.maximum == maximum && measured == 0
    {
      this.heap, this.maximum, measured := heap, maximum, 0;
    }

    method Add(count: nat) returns (ok: bool)
      modifies `measured
      ensures measured == old(measured) + count && ok == (measured <= maximum)
    {
      measured := measured + count;
      ok := measured <= maximum;
    }

    // Counts the comma before an entry, its key and the colon.
    method AddKey(first: bool, key: Text) returns (ok: bool)
      modifies `measured
      ensures var count := (if first then 0 else 1) + Bytes(Quote(key)) + 1;
              if ok then measured == old(measured) + count <= maximum else old(measured) + count > maximum
    {
      if !first {
        ok := Add(1);
        if !ok { return; }
      }
      ok := Add(Bytes(Quote(key)) + 1);
    }

    // Returns the whole copy and has counted its bytes, or finds that it does not fit or is not plain data.
    method Copy(value: Value, depth: nat) returns (r: Option<Json>)
      modifies `measured
      ensures r == Budgeted(PlainCopy(heap, value, depth), old(measured), maximum)
      ensures r.Some? ==> measured == old(measured) + Size(r.value)
      decreases if depth <= DEPTH_LIMIT then DEPTH_LIMIT + 1 - depth else 0, 2
    {
      if depth > DEPTH_LIMIT { return None; }
      if ScalarData(value) {
        var ok := Add(Bytes(Stringify(FromScalar(value))));
        return if ok then Some(FromScalar(value)) else None;
      }
      if !IsObject(heap, value) { return None; }
      if heap[value.id].List? {
        r := CopyList(value, depth);
      } else {
        r := CopyRecord(value, depth);
      }
    }

    method CopyList(value: Value, depth: nat) returns (r: Option<Json>)
      requires depth <= DEPTH_LIMIT && IsList(heap, value)
      modifies `measured
      ensures r == Budgeted(PlainCopy(heap, value, depth), old(measured), maximum)
      ensures r.Some? ==> measured == old(measured) + Size(r.value)
      decreases DEPTH_LIMIT + 1 - depth, 1
    {
      hide PlainCopy, CopySlots, Stringify, Utf8;
      var o := heap[value.id];
      ListCopy(heap, value, depth, CopySlots(heap, o.slots, depth + 1));
      var ok := Add(2);
      if !ok { return None; }
      if Present(o.slots) + |o.others| != |o.slots| { return None; }
      r := CopyElements(o.slots, depth + 1);
    }

    method CopyRecord(value: Value, depth: nat) returns (r: Option<Json>)
      requires depth <= DEPTH_LIMIT && IsRecord(heap, value)
      modifies `measured
      ensures r == Budgeted(PlainCopy(heap, value, depth), old(measured), maximum)
      ensures r.Some? ==> measured == old(measured) + Size(r.value)
      decreases DEPTH_LIMIT + 1 - depth, 1
    {
      hide PlainCopy, CopyProperties, Stringify, Utf8;
      var o := heap[value.id];
      RecordCopy(heap, value, depth, CopyProperties(heap, o.props, depth + 1));
      if o.proto.ForeignProto? { return None; }
      var ok := Add(2);
      if !ok { return None; }
      r := CopyEntries(o.props, depth + 1);
    }

    method CopyElements(slots: seq<Slot>, depth: nat) returns (r: Option<Json>)
      requires measured <= maximum
      modifies `measured
      ensures var full := CopySlots(heap, slots, depth);
              if full.Some? && old(measured) + ItemsSize(full.value) <= maximum
              then r == Some(Arr(full.value)) && measured == old(measured) + ItemsSize(full.value)
              else r == None
      decreases if depth <= DEPTH_LIMIT then DEPTH_LIMIT + 1 - depth else 0, 3
    {
      var items := [];
      assert CopySlots(heap, slots[..0], depth) == Some([]) && ItemsSize([]) == 0;
      hide *;
      for i := 0 to |slots|
        invariant CopySlots(heap, slots[..i], depth) == Some(items)
        invariant measured == old(measured) + ItemsSize(items) <= maximum
      {
        ghost var c := if PlainSlot(slots[i]) then PlainCopy(heap, slots[i].value, depth) else None;
        if c.Some? {
          ListGrows(heap, slots, i, depth, items, c.value);
        } else {
          ListFails(heap, slots, i, depth, items);
        }
        if i > 0 {
          var ok := Add(1);
          if !ok { return None; }
        }
        if !PlainSlot(slots[i]) { return None; }
        var item := Copy(slots[i].value, depth);
        if item.None? { return None; }
        items := items + [item.value];
      }
      assert slots[..|slots|] == slots;
      return Some(Arr(items));
    }

    method CopyEntries(props: seq<Property>, depth: nat) returns (r: Option<Json>)
      requires measured <= maximum
      modifies `measured
      ensures var full := CopyProperties(heap, props, depth);
              if full.Some? && old(measured) + MembersSize(full.value) <= maximum
              then r == Some(Obj(full.value)) && measured == old(measured) + MembersSize(full.value)
              else r == None
      decreases if depth <= DEPTH_LIMIT then DEPTH_LIMIT + 1 - depth else 0, 4
    {
      var members := [];
      ghost var base := measured;
      assert CopyProperties(heap, props[..0], depth) == Some([]) && MembersSize([]) == 0;
      hide *;
      for i := 0 to |props|
        invariant CopyProperties(heap, props[..i], depth) == Some(members)
        invariant measured == base + MembersSize(members) <= maximum
      {
        var more := CopyEntry(props, i, depth, members, base);
        if more.None? {
          PrefixFails(heap, props, i + 1, depth, base, maximum);
          return None;
        }
        members := more.value;
      }
      assert props[..|props|] == props;
      return Some(Obj(members));
    }

    // One more entry: its comma, key, colon and value are counted, or the entries so far cannot be copied within the budget.
    method CopyEntry(props: seq<Property>, i: nat, depth: nat, members: seq<Member>, ghost base: nat)
      returns (r: Option<seq<Member>>)
      requires i < |props| && CopyProperties(heap, props[..i], depth) == Some(members)
      requires measured == base + MembersSize(members) <= maximum
      modifies `measured
      ensures var full := CopyProperties(heap, props[..i + 1], depth);
              if full.Some? && base + MembersSize(full.value) <= maximum
              then r == full && measured == base + MembersSize(full.value)
              else r == None
      decreases if depth <= DEPTH_LIMIT then DEPTH_LIMIT + 1 - depth else 0, 3
    {
      hide PlainCopy, CopyProperties, MembersSize, Size, Bytes, Quote;
      EntryCopied(heap, props, i, depth, members);
      if !props[i].key.Name? { return None; }
      var ok := AddKey(i == 0, props[i].key.text);
      if !ok { return None; }
      if !PlainSlot(props[i].slot) { return None; }
      var value := Copy(props[i].slot.value, depth);
      if value.None? { return None; }
      r := Some(members + [Member(props[i].key.text, value.value)]);
    }
  }

  /** What the copy accepts: plain data, nested within the limit, whose compact text is within the budget. */
  ghost predicate Copyable(h: Heap, input: Value, maximum: nat, j: Json) {
    Denotes(h, input, j) && Within(j, DEPTH_LIMIT) && Size(j) <= maximum
  }

  method JsonDataCopy(h: Heap, input: Value, maximum: nat) returns (r: Option<Json>)
    ensures forall j :: r == Some(j) <==> Copyable(h, input, maximum, j)
  {
    var copier := new DataCopier(h, maximum);
    r := copier.Copy(input, 0);
    forall j ensures r == Some(j) <==> Copyable(h, input, maximum, j) {
      CopyIff(h, input, 0, j);
    }
  }
}
