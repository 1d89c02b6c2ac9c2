/** Collecting native diagnostics: packages/contracts/src/failure.ts, the first half of nativeFactsFor. */
module NativeCollection {
  import opened Options
  import opened JsonText
  import opened JsonFacts
  import opened JsHeap
  import opened PrettyJson
  import opened FailureModel

  const MOST_ITEMS := 32

  const ENTITY_ID: Text := U("entityId")
  const FIELD: Text := U("field")
  const INVARIANT: Text := U("invariant")
  const ISSUE_FIELDS: seq<Text> := [ENTITY_ID, FIELD, INVARIANT]
  const KIND: Text := U("kind")
  const RANGE: Text := U("range")
  const RANGE_FIELDS: seq<Text> := [U("startByte"), U("endByte"), U("startLine"), U("endLine")]
  const OBSERVED: Text := U("observed")

  predicate IsCounter(key: Text) { key == OMITTED_DIAGNOSTICS || key == OMITTED_CHARACTERS }

  // ---------------------------------------------------------------------------------------------
  // One item: kept whole, or dropped whole

  datatype Snap = Kept(item: Json) | Dropped(item: Json)

  // The code units of all strings in a value.
  function Letters(j: Json): nat {
    match j
    case Str(text) => |text|
    case Arr(items) => LettersOf(items)
    case Obj(members) => LettersIn(members)
    case _ => 0
  }

  function LettersOf(items: seq<Json>): nat { if items == [] then 0 else Letters(items[0]) + LettersOf(items[1..]) }

  function LettersIn(members: seq<Member>): nat {
    if members == [] then 0 else Letters(members[0].value) + LettersIn(members[1..])
  }

  function SnapText(v: Value): Option<Snap> {
    if !v.StrV? then None
    else if Bytes(v.text) > SHORT then Some(Dropped(Str(v.text)))
    else Some(Kept(Str(v.text)))
  }

  function TextMembers(props: seq<Property>): (r: Option<seq<Member>>)
    ensures r.Some? ==> |r.value| == |props|
    ensures r.Some? ==> forall i :: 0 <= i < |props| ==>
              props[i].key == Name(r.value[i].key) && props[i].slot.Data? &&
              props[i].slot.value.StrV? && r.value[i].value == Str(props[i].slot.value.text)
  {
    if props == [] then Some([])
    else
      var n := |props| - 1;
      var init :- TextMembers(props[..n]);
      var p := props[n];
      if p.key.Name? && p.slot.Data? && p.slot.value.StrV?
      then Some(init + [Member(p.key.text, Str(p.slot.value.text))]) else None
  }

  function CountMembers(props: seq<Property>): (r: Option<seq<Member>>)
    ensures r.Some? ==> |r.value| == |props|
    ensures r.Some? ==> forall i :: 0 <= i < |props| ==>
              props[i].key == Name(r.value[i].key) && props[i].slot.Data? &&
              IsCount(props[i].slot.value) && r.value[i].value == Int(props[i].slot.value.value)
  {
    if props == [] then Some([])
    else
      var n := |props| - 1;
      var init :- CountMembers(props[..n]);
      var p := props[n];
      if p.key.Name? && p.slot.Data? && IsCount(p.slot.value)
      then Some(init + [Member(p.key.text, Int(p.slot.value.value))]) else None
  }

  predicate IssueKeys(members: seq<Member>) {
    (forall f :: f in ISSUE_FIELDS ==> Lookup(members, f).Some?) &&
    forall i :: 0 <= i < |members| ==> members[i].key in ISSUE_FIELDS + [PATH]
  }

  function SnapIssue(h: Heap, v: Value): Option<Snap> {
    if !IsDataRecord(h, v) then None
    else
      var members :- TextMembers(h[v.id].props);
      if !IssueKeys(members) then None
      else if exists i :: 0 <= i < |members| && Bytes(members[i].value.text) > SHORT then Some(Dropped(Obj(members)))
      else Some(Kept(Obj(members)))
  }

  function SnapMarker(h: Heap, v: Value, kinds: seq<Text>): Option<Snap> {
    if !IsDataRecord(h, v) || |h[v.id].props| != 2 then None
    else
      var kind :- Read(h, v, KIND);
      var range :- Read(h, v, RANGE);
      if !kind.StrV? || kind.text !in kinds || !IsDataRecord(h, range) || |h[range.id].props| != 4 then None
      else
        var counts :- CountMembers(h[range.id].props);
        if forall f :: f in RANGE_FIELDS ==> Lookup(counts, f).Some?
        then Some(Kept(Obj([Member(KIND, Str(kind.text)), Member(RANGE, Obj(counts))]))) else None
  }

  predicate IsListRule(rule: NativeRule) { rule.Lines? || rule.Issues? || rule.Markers? }

  function SnapItem(h: Heap, rule: NativeRule, v: Value): Option<Snap>
    requires IsListRule(rule)
  {
    match rule
    case Lines => SnapText(v)
    case Issues => SnapIssue(h, v)
    case Markers(kinds) => SnapMarker(h, v, kinds)
  }

  // ---------------------------------------------------------------------------------------------
  // A whole list: its first 32 entries are looked at, the rest only counted

  datatype Draft<T> = Draft(kept: seq<T>, omitted: nat, characters: nat)

  function AddSnap<T>(d: Draft<T>, snap: Snap, kept: T): Draft<T> {
    match snap
    case Kept(_) => d.(kept := d.kept + [kept])
    case Dropped(item) => d.(omitted := d.omitted + 1, characters := d.characters + Letters(item))
  }

  function ListStep(h: Heap, rule: NativeRule, slot: Slot, index: nat, d: Draft<Json>): Option<Draft<Json>>
    requires IsListRule(rule)
  {
    if !slot.Data? then None
    else if index >= MOST_ITEMS then Some(d.(omitted := d.omitted + 1))
    else
      var snap :- SnapItem(h, rule, slot.value);
      Some(AddSnap(d, snap, snap.item))
  }

  function ListFold(h: Heap, rule: NativeRule, slots: seq<Slot>, start: Draft<Json>): Option<Draft<Json>>
    requires IsListRule(rule)
  {
    if slots == [] then Some(start)
    else
      var n := |slots| - 1;
      var d :- ListFold(h, rule, slots[..n], start);
      ListStep(h, rule, slots[n], n, d)
  }

  // ---------------------------------------------------------------------------------------------
  // The fields of a native failure

  function NativeStep(c: Table, rules: map<Text, NativeRule>, h: Heap, p: Property, d: Draft<Member>)
    : Option<Draft<Member>>
  {
    if !p.key.Name? || !p.slot.Data? then None
    else
      var key, v := p.key.text, p.slot.value;
      if key !in rules then
        if c.critical(key) || IsObject(h, v) then None
        else Some(d.(omitted := d.omitted + 1, characters := d.characters + if v.StrV? then |v.text| else 0))
      else if IsCounter(key) then
        if !IsCount(v) then None
        else if key == OMITTED_DIAGNOSTICS then Some(d.(omitted := d.omitted + v.value))
        else Some(d.(characters := d.characters + v.value))
      else RuledStep(h, key, rules[key], v, d)
  }

  function RuledStep(h: Heap, key: Text, rule: NativeRule, v: Value, d: Draft<Member>): Option<Draft<Member>> {
    match rule
    case Count =>
      if key == OBSERVED && (v.NumV? || (v.IntV? && v.value < 0)) then Some(d.(omitted := d.omitted + 1))
      else if IsCount(v) then Some(d.(kept := d.kept + [Member(key, Int(v.value))])) else None
    case Diagnostic(accepts) =>
      var snap :- SnapText(v);
      if snap.Kept? && !accepts(snap.item.text) then None else Some(AddSnap(d, snap, Member(key, snap.item)))
    case _ =>
      if !IsList(h, v) || h[v.id].others != [] || Present(h[v.id].slots) != |h[v.id].slots| then None
      else
        var list :- ListFold(h, rule, h[v.id].slots, Draft([], d.omitted, d.characters));
        Some(Draft(d.kept + [Member(key, Arr(list.kept))], list.omitted, list.characters))
  }

  function NativeFold(c: Table, rules: map<Text, NativeRule>, h: Heap, props: seq<Property>): Option<Draft<Member>> {
    if props == [] then Some(Draft([], 0, 0))
    else
      var d :- NativeFold(c, rules, h, props[..|props| - 1]);
      NativeStep(c, rules, h, props[|props| - 1], d)
  }

  // ---------------------------------------------------------------------------------------------
  // The loops

  lemma ListPrefix(h: Heap, rule: NativeRule, slots: seq<Slot>, start: Draft<Json>, i: nat)
    requires IsListRule(rule) && i < |slots|
    ensures ListFold(h, rule, slots[..i + 1], start)
            == match ListFold(h, rule, slots[..i], start)
               case None => None
               case Some(d) => ListStep(h, rule, slots[i], i, d)
  {
    assert slots[..i + 1][..i] == slots[..i] && slots[..i + 1] != [];
  }

  lemma {:induction false} ListFails(h: Heap, rule: NativeRule, slots: seq<Slot>, start: Draft<Json>, i: nat)
    requires IsListRule(rule) && i <= |slots| && ListFold(h, rule, slots[..i], start).None?
    ensures ListFold(h, rule, slots, start).None?
    decreases |slots| - i
  {
    if i == |slots| {
      assert slots[..i] == slots;
    } else {
      ListPrefix(h, rule, slots, start, i);
      ListFails(h, rule, slots, start, i + 1);
    }
  }

  method CollectList(h: Heap, rule: NativeRule, slots: seq<Slot>, start: Draft<Json>) returns (r: Option<Draft<Json>>)
    requires IsListRule(rule)
    ensures r == ListFold(h, rule, slots, start)
  {
    var values, omitted, characters := start.kept, start.omitted, start.characters;
    hide ListStep;
    for i := 0 to |slots|
      invariant ListFold(h, rule, slots[..i], start) == Some(Draft(values, omitted, characters))
    {
      ListPrefix(h, rule, slots, start, i);
      var next := ListStep(h, rule, slots[i], i, Draft(values, omitted, characters));
      if next.None? {
        ListFails(h, rule, slots, start, i + 1);
        return None;
      }
      values, omitted, characters := next.value.kept, next.value.omitted, next.value.characters;
    }
    assert slots[..|slots|] == slots;
    return Some(Draft(values, omitted, characters));
  }

  lemma NativePrefix(c: Table, rules: map<Text, NativeRule>, h: Heap, props: seq<Property>, i: nat)
    requires i < |props|
    ensures NativeFold(c, rules, h, props[..i + 1])
            == match NativeFold(c, rules, h, props[..i])
               case None => None
               case Some(d) => NativeStep(c, rules, h, props[i], d)
  {
    assert props[..i + 1][..i] == props[..i] && props[..i + 1] != [];
  }

  lemma {:induction false} NativeFails(c: Table, rules: map<Text, NativeRule>, h: Heap, props: seq<Property>, i: nat)
    requires i <= |props| && NativeFold(c, rules, h, props[..i]).None?
    ensures NativeFold(c, rules, h, props).None?
    decreases |props| - i
  {
    if i == |props| {
      assert props[..i] == props;
    } else {
      NativePrefix(c, rules, h, props, i);
      NativeFails(c, rules, h, props, i + 1);
    }
  }

  method CollectFields(c: Table, rules: map<Text, NativeRule>, h: Heap, props: seq<Property>)
    returns (r: Option<Draft<Member>>)
    ensures r == NativeFold(c, rules, h, props)
  {
    var result, omitted, characters := [], 0, 0;
    hide NativeStep;
    for i := 0 to |props|
      invariant NativeFold(c, rules, h, props[..i]) == Some(Draft(result, omitted, characters))
    {
      NativePrefix(c, rules, h, props, i);
      var next := CollectField(c, rules, h, props[i], Draft(result, omitted, characters));
      if next.None? {
        NativeFails(c, rules, h, props, i + 1);
        return None;
      }
      result, omitted, characters := next.value.kept, next.value.omitted, next.value.characters;
    }
    assert props[..|props|] == props;
    return Some(Draft(result, omitted, characters));
  }

  method CollectField(c: Table, rules: map<Text, NativeRule>, h: Heap, p: Property, d: Draft<Member>)
    returns (r: Option<Draft<Member>>)
    ensures r == NativeStep(c, rules, h, p, d)
  {
    if !p.key.Name? || !p.slot.Data? { return None; }
    var key, v := p.key.text, p.slot.value;
    if key in rules && !IsCounter(key) && IsListRule(rules[key]) {
      if !IsList(h, v) || h[v.id].others != [] || Present(h[v.id].slots) != |h[v.id].slots| { return None; }
      var list := CollectList(h, rules[key], h[v.id].slots, Draft([], d.omitted, d.characters));
      if list.None? { return None; }
      return Some(Draft(d.kept + [Member(key, Arr(list.value.kept))], list.value.omitted, list.value.characters));
    }
    return NativeStep(c, rules, h, p, d);
  }

  // ---------------------------------------------------------------------------------------------
  // Nothing is altered and nothing vanishes

  // The heap value behind a kept item is that item; a marker lists its kind before its range.
  ghost predicate SameItem(h: Heap, v: Value, j: Json) {
    Denotes(h, v, j) || (j.Obj? && |j.members| == 2 && Denotes(h, v, Obj([j.members[1], j.members[0]])))
  }

  lemma SnapSame(h: Heap, rule: NativeRule, v: Value)
    requires IsListRule(rule) && SnapItem(h, rule, v).Some?
    ensures SameItem(h, v, SnapItem(h, rule, v).value.item)
  {
    match rule
    case Lines =>
    case Issues => IssueSame(h, v);
    case Markers(kinds) => MarkerSame(h, v, kinds);
  }

  lemma IssueSame(h: Heap, v: Value)
    requires SnapIssue(h, v).Some?
    ensures Denotes(h, v, SnapIssue(h, v).value.item)
  {
    hide TextMembers, IssueKeys;
  }

  lemma MarkerSame(h: Heap, v: Value, kinds: seq<Text>)
    requires SnapMarker(h, v, kinds).Some?
    ensures SameItem(h, v, SnapMarker(h, v, kinds).value.item)
  {
    hide CountMembers, Lookup, Find;
    var props := h[v.id].props;
    var range := Read(h, v, RANGE).value;
    var counts := CountMembers(h[range.id].props).value;
    assert Denotes(h, range, Obj(counts));
    assert KIND[0] != RANGE[0];
    FieldIndex(h, v, KIND);
    FieldIndex(h, v, RANGE);
    var i :| 0 <= i < 2 && props[i].key == Name(KIND);
    var k :| 0 <= k < 2 && props[k].key == Name(RANGE);
    FindAt(props, i);
    FindAt(props, k);
    var item := SnapMarker(h, v, kinds).value.item;
    hide Read;
    if i == 0 {
      assert Denotes(h, v, item);
    } else {
      assert Denotes(h, v, Obj([item.members[1], item.members[0]]));
    }
  }

  lemma FieldIndex(h: Heap, v: Value, key: Text)
    requires IsRecord(h, v) && Read(h, v, key).Some? && Read(h, v, key).value != Undefined
    ensures exists i :: 0 <= i < |h[v.id].props| && h[v.id].props[i].key == Name(key)
  {}

  // How many list entries and fields a collected member, or a caller's field, stands for.
  function EntryCount(m: Member): nat { if m.value.Arr? then |m.value.items| else 1 }

  function Units(members: seq<Member>): nat { Sum(members, EntryCount) }

  function FieldUnit(rules: map<Text, NativeRule>, h: Heap, p: Property): nat {
    if !p.key.Name? || !p.slot.Data? then 0
    else if p.key.text == OMITTED_DIAGNOSTICS && p.key.text in rules then
      if IsCount(p.slot.value) then p.slot.value.value else 0
    else if p.key.text == OMITTED_CHARACTERS && p.key.text in rules then 0
    else if p.key.text in rules && IsListRule(rules[p.key.text]) && IsList(h, p.slot.value) then |h[p.slot.value.id].slots|
    else 1
  }

  function FieldUnits(rules: map<Text, NativeRule>, h: Heap, props: seq<Property>): nat {
    if props == [] then 0 else FieldUnits(rules, h, props[..|props| - 1]) + FieldUnit(rules, h, props[|props| - 1])
  }

  lemma {:induction false} ListConserves(h: Heap, rule: NativeRule, slots: seq<Slot>, start: Draft<Json>)
    requires IsListRule(rule) && ListFold(h, rule, slots, start).Some?
    ensures var d := ListFold(h, rule, slots, start).value;
            |d.kept| + d.omitted == |start.kept| + start.omitted + |slots|
  {
    hide SnapItem;
    if slots != [] {
      ListConserves(h, rule, slots[..|slots| - 1], start);
    }
  }

  /** Every entry and field a caller gives is kept or counted, on top of what the caller says was dropped before. */
  lemma {:induction false} NativeConserves(c: Table, rules: map<Text, NativeRule>, h: Heap, props: seq<Property>)
    requires NativeFold(c, rules, h, props).Some?
    ensures var d := NativeFold(c, rules, h, props).value; Units(d.kept) + d.omitted == FieldUnits(rules, h, props)
  {
    hide ListFold;
    if props != [] {
      var n := |props| - 1;
      NativeConserves(c, rules, h, props[..n]);
      var before, after := NativeFold(c, rules, h, props[..n]).value, NativeFold(c, rules, h, props).value;
      StepConserves(c, rules, h, props[n], before);
    }
  }

  lemma StepConserves(c: Table, rules: map<Text, NativeRule>, h: Heap, p: Property, d: Draft<Member>)
    requires NativeStep(c, rules, h, p, d).Some?
    ensures var next := NativeStep(c, rules, h, p, d).value;
            Units(next.kept) + next.omitted == Units(d.kept) + d.omitted + FieldUnit(rules, h, p)
  {
    hide ListFold;
    var next := NativeStep(c, rules, h, p, d).value;
    if |next.kept| > |d.kept| {
      assert next.kept == d.kept + [next.kept[|d.kept|]];
      UnitsAppend(d.kept, next.kept[|d.kept|]);
    }
    var key := p.key.text;
    if key in rules && !IsCounter(key) && IsListRule(rules[key]) {
      ListConserves(h, rules[key], h[p.slot.value.id].slots, Draft([], d.omitted, d.characters));
    }
  }

  // The code units in the entries looked at, and in a caller's field.
  function EntryLetters(h: Heap, rule: NativeRule, slots: seq<Slot>): nat
    requires IsListRule(rule)
  {
    if slots == [] then 0
    else
      var n := |slots| - 1;
      EntryLetters(h, rule, slots[..n])
      + if n < MOST_ITEMS && slots[n].Data? && SnapItem(h, rule, slots[n].value).Some?
        then Letters(SnapItem(h, rule, slots[n].value).value.item) else 0
  }

  function FieldLetters(rules: map<Text, NativeRule>, h: Heap, p: Property): nat {
    if !p.key.Name? || !p.slot.Data? then 0
    else if p.key.text in rules && IsCounter(p.key.text) then
      if p.key.text == OMITTED_CHARACTERS && IsCount(p.slot.value) then p.slot.value.value else 0
    else if p.key.text in rules && IsListRule(rules[p.key.text]) then
      if IsList(h, p.slot.value) then EntryLetters(h, rules[p.key.text], h[p.slot.value.id].slots) else 0
    else if p.slot.value.StrV? then |p.slot.value.text| else 0
  }

  function AllLetters(rules: map<Text, NativeRule>, h: Heap, props: seq<Property>): nat {
    if props == [] then 0 else AllLetters(rules, h, props[..|props| - 1]) + FieldLetters(rules, h, props[|props| - 1])
  }

  lemma {:induction false} LettersAppend(members: seq<Member>, m: Member)
    ensures LettersIn(members + [m]) == LettersIn(members) + Letters(m.value)
  {
    if members == [] {
      assert (members + [m])[1..] == [];
    } else {
      assert (members + [m])[1..] == members[1..] + [m];
      LettersAppend(members[1..], m);
    }
  }

  lemma {:induction false} LettersOfAppend(items: seq<Json>, item: Json)
    ensures LettersOf(items + [item]) == LettersOf(items) + Letters(item)
  {
    if items == [] {
      assert (items + [item])[1..] == [];
    } else {
      assert (items + [item])[1..] == items[1..] + [item];
      LettersOfAppend(items[1..], item);
    }
  }

  lemma {:induction false} ListLetters(h: Heap, rule: NativeRule, slots: seq<Slot>, start: Draft<Json>)
    requires IsListRule(rule) && ListFold(h, rule, slots, start).Some?
    ensures var d := ListFold(h, rule, slots, start).value;
            LettersOf(d.kept) + d.characters == LettersOf(start.kept) + start.characters + EntryLetters(h, rule, slots)
  {
    hide SnapItem, LettersOf, Letters;
    if slots != [] {
      var n := |slots| - 1;
      ListLetters(h, rule, slots[..n], start);
      if n < MOST_ITEMS {
        LettersOfAppend(ListFold(h, rule, slots[..n], start).value.kept, SnapItem(h, rule, slots[n].value).value.item);
      }
    }
  }

  /** The characters of every kept or dropped field are accounted for; entries past the limit are never read. */
  lemma {:induction false} NativeLetters(c: Table, rules: map<Text, NativeRule>, h: Heap, props: seq<Property>)
    requires NativeFold(c, rules, h, props).Some?
    ensures var d := NativeFold(c, rules, h, props).value;
            LettersIn(d.kept) + d.characters == AllLetters(rules, h, props)
  {
    hide NativeStep, FieldLetters;
    if props != [] {
      var n := |props| - 1;
      NativeLetters(c, rules, h, props[..n]);
      StepLetters(c, rules, h, props[n], NativeFold(c, rules, h, props[..n]).value);
    }
  }

  lemma StepLetters(c: Table, rules: map<Text, NativeRule>, h: Heap, p: Property, d: Draft<Member>)
    requires NativeStep(c, rules, h, p, d).Some?
    ensures var next := NativeStep(c, rules, h, p, d).value;
            LettersIn(next.kept) + next.characters == LettersIn(d.kept) + d.characters + FieldLetters(rules, h, p)
  {
    hide ListFold, EntryLetters;
    var next := NativeStep(c, rules, h, p, d).value;
    if |next.kept| > |d.kept| {
      assert next.kept == d.kept + [next.kept[|d.kept|]];
      LettersAppend(d.kept, next.kept[|d.kept|]);
    }
    var key := p.key.text;
    if key in rules && !IsCounter(key) && IsListRule(rules[key]) {
      ListLetters(h, rules[key], h[p.slot.value.id].slots, Draft([], d.omitted, d.characters));
    }
  }

  lemma UnitsAppend(members: seq<Member>, m: Member)
    ensures Units(members + [m]) == Units(members) + EntryCount(m)
  {
    SumSplit(members, [m], EntryCount);
    assert [m][1..] == [];
  }

  // The kept items are some of the first 32 entries, in their order.
  ghost predicate Places(h: Heap, slots: seq<Slot>, kept: seq<Json>, places: seq<nat>) {
    && |places| == |kept| && (forall i, j :: 0 <= i < j < |places| ==> places[i] < places[j])
    && forall i :: 0 <= i < |places| ==>
         places[i] < |slots| && places[i] < MOST_ITEMS && slots[places[i]].Data? &&
         SameItem(h, slots[places[i]].value, kept[i])
  }

  ghost predicate FromEntries(h: Heap, slots: seq<Slot>, kept: seq<Json>) {
    |kept| <= MOST_ITEMS && exists places :: Places(h, slots, kept, places)
  }

  /** No kept item is altered, and none changes its place. */
  lemma {:induction false} ListKeeps(h: Heap, rule: NativeRule, slots: seq<Slot>, start: Draft<Json>)
    requires IsListRule(rule) && start.kept == [] && ListFold(h, rule, slots, start).Some?
    ensures |ListFold(h, rule, slots, start).value.kept| <= |slots|
    ensures FromEntries(h, slots, ListFold(h, rule, slots, start).value.kept)
  {
    hide SnapItem, SameItem;
    if slots == [] {
      assert Places(h, slots, [], []);
    } else {
      var n := |slots| - 1;
      ListKeeps(h, rule, slots[..n], start);
      var before, kept := ListFold(h, rule, slots[..n], start).value.kept, ListFold(h, rule, slots, start).value.kept;
      var places: seq<nat> :| Places(h, slots[..n], before, places);
      if kept == before {
        assert Places(h, slots, kept, places);
      } else {
        SnapSame(h, rule, slots[n].value);
        assert Places(h, slots, kept, places + [n]);
      }
    }
  }

  // ---------------------------------------------------------------------------------------------
  // The forms of what is kept

  predicate Short(j: Json) { j.Str? && Bytes(j.text) <= SHORT }

  predicate IssueForm(j: Json) {
    j.Obj? && |j.members| <= 16 && IssueKeys(j.members) && forall i :: 0 <= i < |j.members| ==> Short(j.members[i].value)
  }

  predicate RangeForm(j: Json) {
    j.Obj? && |j.members| == 4 && (forall f :: f in RANGE_FIELDS ==> Lookup(j.members, f).Some?) &&
    forall i :: 0 <= i < 4 ==> j.members[i].value.Int? && j.members[i].value.value >= 0
  }

  predicate MarkerForm(kinds: seq<Text>, j: Json) {
    j.Obj? && |j.members| == 2 && j.members[0].key == KIND && j.members[1].key == RANGE &&
    j.members[0].value.Str? && j.members[0].value.text in kinds && RangeForm(j.members[1].value)
  }

  predicate ItemForm(rule: NativeRule, j: Json) {
    match rule
    case Lines => Short(j)
    case Issues => IssueForm(j)
    case Markers(kinds) => MarkerForm(kinds, j)
    case _ => false
  }

  predicate RuledForm(rule: NativeRule, j: Json) {
    match rule
    case Count => j.Int? && j.value >= 0
    case Diagnostic(accepts) => Short(j) && accepts(j.text)
    case _ => j.Arr? && |j.items| <= MOST_ITEMS && forall i :: 0 <= i < |j.items| ==> ItemForm(rule, j.items[i])
  }

  predicate FieldForm(rules: map<Text, NativeRule>, m: Member) {
    m.key in rules && !IsCounter(m.key) && RuledForm(rules[m.key], m.value)
  }

  lemma SnapForm(h: Heap, rule: NativeRule, v: Value)
    requires IsListRule(rule) && SnapItem(h, rule, v).Some? && SnapItem(h, rule, v).value.Kept?
    ensures ItemForm(rule, SnapItem(h, rule, v).value.item)
  {
    hide TextMembers, CountMembers, IssueKeys, Lookup, Read, IsDataRecord;
    if rule.Issues? {
      IssueSize(h, v);
    }
  }

  lemma IssueSize(h: Heap, v: Value)
    requires SnapIssue(h, v).Some?
    ensures |SnapIssue(h, v).value.item.members| <= 16
  {
    hide TextMembers, IssueKeys;
  }

  lemma {:induction false} ListForm(h: Heap, rule: NativeRule, slots: seq<Slot>, start: Draft<Json>)
    requires IsListRule(rule) && ListFold(h, rule, slots, start).Some?
    requires forall j :: j in start.kept ==> ItemForm(rule, j)
    ensures forall j :: j in ListFold(h, rule, slots, start).value.kept ==> ItemForm(rule, j)
  {
    hide SnapItem, ItemForm;
    if slots != [] {
      var n := |slots| - 1;
      ListForm(h, rule, slots[..n], start);
      if SnapItem(h, rule, slots[n].value).Some? && SnapItem(h, rule, slots[n].value).value.Kept? {
        SnapForm(h, rule, slots[n].value);
      }
    }
  }

  lemma StepForm(c: Table, rules: map<Text, NativeRule>, h: Heap, p: Property, d: Draft<Member>)
    requires NativeStep(c, rules, h, p, d).Some?
    ensures var next := NativeStep(c, rules, h, p, d).value;
            next.kept == d.kept ||
            (exists m :: next.kept == d.kept + [m] && p.key == Name(m.key) && FieldForm(rules, m))
  {
    hide ListFold, ItemForm, Short;
    var next := NativeStep(c, rules, h, p, d).value;
    if next.kept != d.kept {
      var m := next.kept[|d.kept|];
      var rule := rules[p.key.text];
      if IsListRule(rule) {
        var slots := h[p.slot.value.id].slots;
        ListKeeps(h, rule, slots, Draft([], d.omitted, d.characters));
        ListForm(h, rule, slots, Draft([], d.omitted, d.characters));
      } else if rule.Diagnostic? {
        assert Short(m.value) by { TextShort(p.slot.value); }
      }
      assert FieldForm(rules, m);
    }
  }

  lemma TextShort(v: Value)
    requires SnapText(v).Some? && SnapText(v).value.Kept?
    ensures Short(SnapText(v).value.item)
  {}

  lemma {:induction false} NativeForms(c: Table, rules: map<Text, NativeRule>, h: Heap, props: seq<Property>)
    requires DistinctKeys(props) && NativeFold(c, rules, h, props).Some?
    ensures var kept := NativeFold(c, rules, h, props).value.kept;
            DistinctMembers(kept) && (forall m :: m in kept ==> FieldForm(rules, m)) &&
            forall m :: m in kept ==> exists i :: 0 <= i < |props| && props[i].key == Name(m.key)
  {
    hide NativeStep, FieldForm;
    if props != [] {
      var n := |props| - 1;
      NativeForms(c, rules, h, props[..n]);
      StepForm(c, rules, h, props[n], NativeFold(c, rules, h, props[..n]).value);
      var before, kept := NativeFold(c, rules, h, props[..n]).value.kept, NativeFold(c, rules, h, props).value.kept;
      forall m | m in before ensures exists i :: 0 <= i < n && props[i].key == Name(m.key) {
        var i :| 0 <= i < n && props[..n][i].key == Name(m.key);
        assert props[i].key == Name(m.key);
      }
      forall m | m in before ensures Name(m.key) != props[n].key {}
      assert kept != before ==> |kept| == |before| + 1 && Name(kept[|before|].key) == props[n].key;
    }
  }
}
