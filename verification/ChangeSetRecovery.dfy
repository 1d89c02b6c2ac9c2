/** Recovery authority for unresolved journals: packages/contracts/src/changeset-recovery.ts. */
module ChangeSetRecovery {
  import opened Options
  import opened JsonText
  import opened JsonFacts
  import opened JsHeap
  import opened ProjectionRecovery

  const CHANGESET_LIMIT_BYTES := 262144
  const READBACK: Text := U("runtimeStatus.changeSetRecovery.unresolvedJournals")

  const UNRESOLVED: Text := U("unresolvedJournals")
  const JOURNAL_FIELDS: seq<Text> := [U("journalId"), U("changeSetId"), U("root"), U("reason")]
  const MANUAL: Text := U("manualRecoveryRequired")
  const READBACK_REQUIRED: Text := U("authorityReadbackRequired")
  const AUTHORITY_READBACK: Text := U("authorityReadback")
  const JOURNAL_COUNT: Text := U("journalCount")
  const AUTHORITY_DIGEST: Text := U("authorityDigest")
  const REFERENCE_FIELDS: seq<Text> := [MANUAL, READBACK_REQUIRED, AUTHORITY_READBACK, JOURNAL_COUNT, AUTHORITY_DIGEST]

  // An own data property of a record, read without running an accessor.
  function Own(h: Heap, v: Value, key: Text): Option<Value> {
    if !IsRecord(h, v) then None
    else
      var slot :- Find(h[v.id].props, Name(key));
      if slot.Data? then Some(slot.value) else None
  }

  // A plain record with exactly these fields.
  predicate HasFields(h: Heap, v: Value, fields: seq<Text>) {
    IsRecord(h, v) && !h[v.id].proto.ForeignProto? && |h[v.id].props| == |fields| &&
    forall i :: 0 <= i < |fields| ==> h[v.id].props[i].key.Name? && h[v.id].props[i].key.text in fields
  }

  function StringFields(h: Heap, v: Value, fields: seq<Text>): Option<seq<Member>> {
    if fields == [] then Some([])
    else
      var value :- Own(h, v, fields[0]);
      if !value.StrV? then None
      else
        var rest :- StringFields(h, v, fields[1..]);
        Some([Member(fields[0], Str(value.text))] + rest)
  }

  function JournalSnapshot(h: Heap, v: Value): Option<Json> {
    if !HasFields(h, v, JOURNAL_FIELDS) then None
    else
      var members :- StringFields(h, v, JOURNAL_FIELDS);
      Some(Obj(members))
  }

  function JournalItems(h: Heap, slots: seq<Slot>): (r: Option<seq<Json>>)
    ensures r.Some? ==> |r.value| == |slots|
  {
    if slots == [] then Some([])
    else if !slots[0].Data? then None
    else
      var journal :- JournalSnapshot(h, slots[0].value);
      var rest :- JournalItems(h, slots[1..]);
      Some([journal] + rest)
  }

  function JournalsSnapshot(h: Heap, v: Value): (r: Option<seq<Json>>)
    ensures r.Some? ==> |r.value| < 0x1_0000_0000
  {
    if !IsList(h, v) || Present(h[v.id].slots) + |h[v.id].others| != |h[v.id].slots| then None
    else JournalItems(h, h[v.id].slots)
  }

  function FullDetails(journals: seq<Json>): Json { Obj([Member(UNRESOLVED, Arr(journals))]) }

  function ReferenceDetails(count: SafeInt, digest: Text): Json {
    Obj([Member(MANUAL, Bool(true)), Member(READBACK_REQUIRED, Bool(true)), Member(AUTHORITY_READBACK, Str(READBACK)),
         Member(JOURNAL_COUNT, Int(count)), Member(AUTHORITY_DIGEST, Str(digest))])
  }

  /** The whole authority when it fits, else a reference to it. The digest function is a parameter. */
  function RecoveryDetails(h: Heap, journals: Value, digest: Json -> Text): Option<Json> {
    var unresolved :- JournalsSnapshot(h, journals);
    Some(if Size(FullDetails(unresolved)) <= CHANGESET_LIMIT_BYTES then FullDetails(unresolved)
         else ReferenceDetails(|unresolved|, digest(Arr(unresolved))))
  }

  predicate HasOwn(h: Heap, v: Value, key: Text) {
    IsObject(h, v) && Find(if h[v.id].List? then h[v.id].others else h[v.id].props, Name(key)).Some?
  }

  function DetailsSnapshot(h: Heap, v: Value): (r: Option<Json>)
    ensures r.Some? ==> r.value.Obj?
  {
    if HasOwn(h, v, UNRESOLVED) then
      if !HasFields(h, v, [UNRESOLVED]) then None
      else
        var value :- Own(h, v, UNRESOLVED);
        var journals :- JournalsSnapshot(h, value);
        if Size(FullDetails(journals)) > CHANGESET_LIMIT_BYTES then None else Some(FullDetails(journals))
    else if !HasFields(h, v, REFERENCE_FIELDS) then None
    else
      var manual :- Own(h, v, MANUAL);
      var required :- Own(h, v, READBACK_REQUIRED);
      var readback :- Own(h, v, AUTHORITY_READBACK);
      var count :- Own(h, v, JOURNAL_COUNT);
      var digest :- Own(h, v, AUTHORITY_DIGEST);
      if manual == BoolV(true) && required == BoolV(true) && readback == StrV(READBACK) &&
         count.IntV? && count.value >= 0 && digest.StrV? && DigestForm(digest.text)
      then Some(ReferenceDetails(count.value, digest.text)) else None
  }

  // ---------------------------------------------------------------------------------------------
  // The two shapes every accepted payload has

  predicate JournalForm(j: Json) {
    j.Obj? && |j.members| == 4 &&
    forall i :: 0 <= i < 4 ==> j.members[i].key == JOURNAL_FIELDS[i] && j.members[i].value.Str?
  }

  predicate RecoveryForm(j: Json) {
    || (j.Obj? && |j.members| == 1 && j.members[0].key == UNRESOLVED && j.members[0].value.Arr? &&
        (forall i :: 0 <= i < |j.members[0].value.items| ==> JournalForm(j.members[0].value.items[i])) &&
        Size(j) <= CHANGESET_LIMIT_BYTES)
    || (j.Obj? && |j.members| == 5 && j.members[3].value.Int? && j.members[3].value.value >= 0 &&
        j.members[4].value.Str? && DigestForm(j.members[4].value.text) &&
        j == ReferenceDetails(j.members[3].value.value, j.members[4].value.text))
  }

  lemma {:induction false} StringFieldsForm(h: Heap, v: Value, fields: seq<Text>)
    requires StringFields(h, v, fields).Some?
    ensures var r := StringFields(h, v, fields).value;
            |r| == |fields| && forall i :: 0 <= i < |fields| ==> r[i].key == fields[i] && r[i].value.Str?
  {
    if fields != [] {
      StringFieldsForm(h, v, fields[1..]);
    }
  }

  lemma {:induction false} JournalItemsForm(h: Heap, slots: seq<Slot>)
    requires JournalItems(h, slots).Some?
    ensures forall i :: 0 <= i < |slots| ==> JournalForm(JournalItems(h, slots).value[i])
  {
    if slots != [] {
      StringFieldsForm(h, slots[0].value, JOURNAL_FIELDS);
      JournalItemsForm(h, slots[1..]);
    }
  }

  lemma SnapshotForm(h: Heap, v: Value)
    requires DetailsSnapshot(h, v).Some?
    ensures RecoveryForm(DetailsSnapshot(h, v).value)
  {
    hide Size, Find, HasFields, Present, JournalForm, JournalItems, DigestForm, Own;
    if HasOwn(h, v, UNRESOLVED) {
      JournalItemsForm(h, h[Own(h, v, UNRESOLVED).value.id].slots);
    }
  }

  lemma ProducedForm(h: Heap, journals: Value, digest: Json -> Text)
    requires forall j :: DigestForm(digest(j))
    requires RecoveryDetails(h, journals, digest).Some?
    ensures RecoveryForm(RecoveryDetails(h, journals, digest).value)
  {
    hide Size;
    JournalItemsForm(h, h[journals.id].slots);
  }

  // ---------------------------------------------------------------------------------------------
  // Reading back plain data

  lemma DenotedOwn(h: Heap, v: Value, members: seq<Member>, i: nat)
    requires Denotes(h, v, Obj(members)) && i < |members|
    ensures Own(h, v, members[i].key).Some? && Denotes(h, Own(h, v, members[i].key).value, members[i].value)
  {
    FindAt(h[v.id].props, i);
  }

  lemma {:induction false} DenotedStrings(h: Heap, v: Value, members: seq<Member>, fields: seq<Text>, k: nat)
    requires Denotes(h, v, Obj(members)) && |fields| == |members| && k <= |fields|
    requires forall i :: 0 <= i < |fields| ==> members[i].key == fields[i] && members[i].value.Str?
    ensures StringFields(h, v, fields[k..]) == Some(members[k..])
    decreases |fields| - k
  {
    hide Own;
    if k < |fields| {
      DenotedOwn(h, v, members, k);
      DenotedStrings(h, v, members, fields, k + 1);
      assert fields[k..][1..] == fields[k + 1..];
      assert members[k..] == [members[k]] + members[k + 1..];
      assert members[k] == Member(fields[k], Str(members[k].value.text));
    }
  }

  lemma JournalReadback(h: Heap, v: Value, j: Json)
    requires JournalForm(j) && Denotes(h, v, j)
    ensures JournalSnapshot(h, v) == Some(j)
  {
    DenotedStrings(h, v, j.members, JOURNAL_FIELDS, 0);
    assert JOURNAL_FIELDS[0..] == JOURNAL_FIELDS && j.members[0..] == j.members;
    assert j == Obj(j.members);
  }

  lemma {:induction false} ItemsReadback(h: Heap, slots: seq<Slot>, items: seq<Json>)
    requires |slots| == |items|
    requires forall i :: 0 <= i < |items| ==>
               PlainSlot(slots[i]) && Denotes(h, slots[i].value, items[i]) && JournalForm(items[i])
    ensures JournalItems(h, slots) == Some(items)
  {
    hide JournalForm, Denotes, JournalSnapshot;
    if slots != [] {
      JournalReadback(h, slots[0].value, items[0]);
      ItemsReadback(h, slots[1..], items[1..]);
      assert items == [items[0]] + items[1..];
    }
  }

  lemma JournalsReadback(h: Heap, v: Value, items: seq<Json>)
    requires Denotes(h, v, Arr(items)) && forall i :: 0 <= i < |items| ==> JournalForm(items[i])
    ensures JournalsSnapshot(h, v) == Some(items)
  {
    hide JournalForm, JournalItems;
    PresentAll(h[v.id].slots);
    ItemsReadback(h, h[v.id].slots, items);
  }

  lemma DenotedFields(h: Heap, v: Value, members: seq<Member>, fields: seq<Text>)
    requires Denotes(h, v, Obj(members)) && |fields| == |members|
    requires forall i :: 0 <= i < |fields| ==> members[i].key == fields[i]
    ensures HasFields(h, v, fields)
  {}

  lemma FullReadback(h: Heap, v: Value, items: seq<Json>)
    requires Denotes(h, v, FullDetails(items)) && Size(FullDetails(items)) <= CHANGESET_LIMIT_BYTES
    requires forall i :: 0 <= i < |items| ==> JournalForm(items[i])
    ensures DetailsSnapshot(h, v) == Some(FullDetails(items))
  {
    hide Size, JournalForm, JournalsSnapshot;
    var members := FullDetails(items).members;
    DenotedOwn(h, v, members, 0);
    DenotedFields(h, v, members, [UNRESOLVED]);
    JournalsReadback(h, Own(h, v, UNRESOLVED).value, items);
  }

  lemma ReferenceReadback(h: Heap, v: Value, count: SafeInt, digest: Text)
    requires Denotes(h, v, ReferenceDetails(count, digest)) && count >= 0 && DigestForm(digest)
    ensures DetailsSnapshot(h, v) == Some(ReferenceDetails(count, digest))
  {
    hide HasOwn, HasFields, DigestForm, Own, Denotes, Size;
    ReferenceFields(h, v, ReferenceDetails(count, digest).members);
    ReferenceScalars(h, v, count, digest);
  }

  lemma ReferenceScalars(h: Heap, v: Value, count: SafeInt, digest: Text)
    requires Denotes(h, v, ReferenceDetails(count, digest))
    ensures Own(h, v, MANUAL) == Some(BoolV(true)) && Own(h, v, READBACK_REQUIRED) == Some(BoolV(true))
    ensures Own(h, v, AUTHORITY_READBACK) == Some(StrV(READBACK)) && Own(h, v, JOURNAL_COUNT) == Some(IntV(count))
    ensures Own(h, v, AUTHORITY_DIGEST) == Some(StrV(digest))
  {
    hide Own, Denotes;
    var members := ReferenceDetails(count, digest).members;
    ReferenceOwn(h, v, members);
    assert members[0].key == MANUAL && members[1].key == READBACK_REQUIRED && members[2].key == AUTHORITY_READBACK;
    assert members[3].key == JOURNAL_COUNT && members[4].key == AUTHORITY_DIGEST;
  }

  // Scalars are read back as themselves.
  lemma ReferenceOwn(h: Heap, v: Value, members: seq<Member>)
    requires Denotes(h, v, Obj(members))
    requires forall i :: 0 <= i < |members| ==> IsScalar(members[i].value)
    ensures forall i :: 0 <= i < |members| ==>
              Own(h, v, members[i].key).Some? && ScalarData(Own(h, v, members[i].key).value) &&
              FromScalar(Own(h, v, members[i].key).value) == members[i].value
  {
    forall i | 0 <= i < |members|
      ensures Own(h, v, members[i].key).Some? && ScalarData(Own(h, v, members[i].key).value) &&
              FromScalar(Own(h, v, members[i].key).value) == members[i].value
    {
      DenotedOwn(h, v, members, i);
    }
  }

  lemma ReferenceFields(h: Heap, v: Value, members: seq<Member>)
    requires Denotes(h, v, Obj(members)) && |members| == 5
    requires forall i :: 0 <= i < 5 ==> members[i].key == REFERENCE_FIELDS[i]
    ensures HasFields(h, v, REFERENCE_FIELDS) && !HasOwn(h, v, UNRESOLVED)
  {
    DenotedFields(h, v, members, REFERENCE_FIELDS);
    assert UNRESOLVED[0] != JOURNAL_COUNT[0];
    forall i | 0 <= i < 5 ensures h[v.id].props[i].key != Name(UNRESOLVED) {
      assert h[v.id].props[i].key == Name(REFERENCE_FIELDS[i]);
      assert |UNRESOLVED| == 18 && |MANUAL| == 22 && |READBACK_REQUIRED| == 25 && |AUTHORITY_READBACK| == 17;
    }
  }

  // ---------------------------------------------------------------------------------------------
  // Main results

  /** A payload of either shape passes the snapshot unchanged. */
  lemma FormPasses(h: Heap, v: Value, details: Json)
    requires RecoveryForm(details) && Denotes(h, v, details)
    ensures DetailsSnapshot(h, v) == Some(details)
  {
    hide Size, DetailsSnapshot, Denotes, JournalForm;
    if |details.members| == 1 {
      var items := details.members[0].value.items;
      assert details.members[0] == Member(UNRESOLVED, Arr(items));
      assert details.members == [details.members[0]];
      assert details == FullDetails(items);
      FullReadback(h, v, items);
    } else {
      ReferenceReadback(h, v, details.members[3].value.value, details.members[4].value.text);
    }
  }

  /** What the producer returns passes the snapshot unchanged, whatever the journals were. */
  lemma ProducedPassesSnapshot(h: Heap, journals: Value, digest: Json -> Text, g: Heap, v: Value)
    requires forall j :: DigestForm(digest(j))
    requires RecoveryDetails(h, journals, digest).Some?
    requires Denotes(g, v, RecoveryDetails(h, journals, digest).value)
    ensures DetailsSnapshot(g, v) == RecoveryDetails(h, journals, digest)
  {
    hide *;
    ProducedForm(h, journals, digest);
    FormPasses(g, v, RecoveryDetails(h, journals, digest).value);
  }

  /** Taking the snapshot of a snapshot changes nothing. */
  lemma SnapshotIdempotent(h: Heap, v: Value, g: Heap, w: Value)
    requires DetailsSnapshot(h, v).Some? && Denotes(g, w, DetailsSnapshot(h, v).value)
    ensures DetailsSnapshot(g, w) == DetailsSnapshot(h, v)
  {
    hide *;
    SnapshotForm(h, v);
    FormPasses(g, w, DetailsSnapshot(h, v).value);
  }

  /** Either shape fits the recovery budget. */
  lemma FormFits(details: Json)
    requires RecoveryForm(details)
    ensures Size(details) <= CHANGESET_LIMIT_BYTES
  {
    hide EntrySize, MembersSize, JournalForm, Size;
    if |details.members| == 5 {
      var digest := details.members[4].value.text;
      forall i | 0 <= i < 5 ensures EntrySize(details.members[i]) <= 1000 {
        EntryBound(details.members[i]);
      }
      MembersSizeBound(details.members, 1000);
      SizeIsSum(details);
    }
  }

  // ---------------------------------------------------------------------------------------------
  // Exactly what is accepted

  // A plain record with as many own properties as there are fields, each under one of them.
  predicate ClosedRecord(h: Heap, v: Value, fields: seq<Text>) {
    v.Ref? && v.id in h && h[v.id].Record? && (h[v.id].proto == PlainProto || h[v.id].proto == NullProto) &&
    |h[v.id].props| == |fields| && forall p :: p in h[v.id].props ==> exists f :: f in fields && p.key == Name(f)
  }

  lemma ClosedIff(h: Heap, v: Value, fields: seq<Text>)
    ensures HasFields(h, v, fields) <==> ClosedRecord(h, v, fields)
  {
    if ClosedRecord(h, v, fields) {
      forall i | 0 <= i < |fields| ensures h[v.id].props[i].key.Name? && h[v.id].props[i].key.text in fields {
        assert h[v.id].props[i] in h[v.id].props;
      }
    }
  }

  // The record holds this data under this key.
  predicate Holds(h: Heap, v: Value, key: Text, data: Value)
    requires v.Ref? && v.id in h && h[v.id].Record?
  {
    exists i :: 0 <= i < |h[v.id].props| && h[v.id].props[i].key == Name(key) && h[v.id].props[i].slot.Data? &&
                h[v.id].props[i].slot.value == data
  }

  lemma HoldsIff(h: Heap, v: Value, key: Text, data: Value)
    requires IsRecord(h, v)
    ensures Own(h, v, key) == Some(data) <==> Holds(h, v, key, data)
  {
    assert Proper(h[v.id]);
    var props := h[v.id].props;
    if i :| 0 <= i < |props| && props[i].key == Name(key) && props[i].slot.Data? && props[i].slot.value == data {
      FindAt(props, i);
    }
    if Own(h, v, key) == Some(data) { FindPlace(props, Name(key)); }
  }

  lemma {:induction false} FindPlace(props: seq<Property>, key: Key)
    requires Find(props, key).Some?
    ensures exists i :: 0 <= i < |props| && props[i].key == key && props[i].slot == Find(props, key).value
  {
    if props[0].key != key {
      FindPlace(props[1..], key);
      var i :| 0 <= i < |props| - 1 && props[1..][i].key == key && props[1..][i].slot == Find(props[1..], key).value;
      assert props[i + 1] == props[1..][i];
    }
  }

  lemma {:induction false} StringFieldsIff(h: Heap, v: Value, fields: seq<Text>, members: seq<Member>)
    requires IsRecord(h, v)
    ensures StringFields(h, v, fields) == Some(members) <==>
            |members| == |fields| &&
            forall i :: 0 <= i < |fields| ==>
              members[i].key == fields[i] && members[i].value.Str? && Own(h, v, fields[i]) == Some(StrV(members[i].value.text))
  {
    hide Own;
    if fields == [] {
    } else if members == [] {
      if StringFields(h, v, fields[1..]).Some? { StringFieldsForm(h, v, fields[1..]); }
    } else {
      StringFieldsIff(h, v, fields[1..], members[1..]);
      assert members == [members[0]] + members[1..];
      assert members[0] == Member(members[0].key, members[0].value);
      assert forall i :: 1 <= i < |fields| ==> fields[i] == fields[1..][i - 1];
      assert forall i :: 1 <= i < |members| ==> members[i] == members[1..][i - 1];
    }
  }

  /** A journal is accepted exactly when it is a closed record of four strings, which are what is taken. */
  lemma JournalIff(h: Heap, v: Value, j: Json)
    ensures JournalSnapshot(h, v) == Some(j) <==>
            ClosedRecord(h, v, JOURNAL_FIELDS) && JournalForm(j) &&
            forall i :: 0 <= i < 4 ==> Holds(h, v, JOURNAL_FIELDS[i], StrV(j.members[i].value.text))
  {
    hide HasFields, ClosedRecord, Own, Holds, StringFields;
    ClosedIff(h, v, JOURNAL_FIELDS);
    if HasFields(h, v, JOURNAL_FIELDS) {
      FieldsRecord(h, v, JOURNAL_FIELDS);
      if j.Obj? {
        StringFieldsIff(h, v, JOURNAL_FIELDS, j.members);
        if JournalForm(j) {
          forall i | 0 <= i < 4
            ensures Own(h, v, JOURNAL_FIELDS[i]) == Some(StrV(j.members[i].value.text))
                    <==> Holds(h, v, JOURNAL_FIELDS[i], StrV(j.members[i].value.text))
          {
            HoldsIff(h, v, JOURNAL_FIELDS[i], StrV(j.members[i].value.text));
          }
        }
        if JournalSnapshot(h, v) == Some(j) {
          forall i | 0 <= i < 4 ensures Holds(h, v, JOURNAL_FIELDS[i], StrV(j.members[i].value.text)) {
            HoldsIff(h, v, JOURNAL_FIELDS[i], StrV(j.members[i].value.text));
          }
        }
      }
    }
  }

  lemma FieldsRecord(h: Heap, v: Value, fields: seq<Text>)
    requires HasFields(h, v, fields)
    ensures IsRecord(h, v)
  {}

  lemma {:induction false} JournalItemsIff(h: Heap, slots: seq<Slot>, items: seq<Json>)
    ensures JournalItems(h, slots) == Some(items) <==>
            |slots| == |items| && forall i :: 0 <= i < |slots| ==> slots[i].Data? && JournalSnapshot(h, slots[i].value) == Some(items[i])
  {
    hide JournalSnapshot;
    if slots != [] && items != [] {
      JournalItemsIff(h, slots[1..], items[1..]);
      assert items == [items[0]] + items[1..];
      assert forall i :: 1 <= i < |slots| ==> slots[i] == slots[1..][i - 1];
      assert forall i :: 1 <= i < |items| ==> items[i] == items[1..][i - 1];
    }
  }

  /** Journals are accepted exactly as a dense list of such records and nothing else. */
  lemma JournalsIff(h: Heap, v: Value, items: seq<Json>)
    ensures JournalsSnapshot(h, v) == Some(items) <==>
            && v.Ref? && v.id in h && h[v.id].List? && h[v.id].others == [] && |h[v.id].slots| == |items|
            && forall i :: 0 <= i < |items| ==> h[v.id].slots[i].Data? && JournalSnapshot(h, h[v.id].slots[i].value) == Some(items[i])
  {
    hide JournalSnapshot, JournalItems;
    if IsList(h, v) {
      PresentAll(h[v.id].slots);
      JournalItemsIff(h, h[v.id].slots, items);
    }
  }

  // The whole authority under its one field.
  ghost predicate WholeAuthority(h: Heap, v: Value, d: Json) {
    ClosedRecord(h, v, [UNRESOLVED]) &&
    exists journals: Value, items: seq<Json> ::
      Holds(h, v, UNRESOLVED, journals) && JournalsSnapshot(h, journals) == Some(items) &&
      Size(FullDetails(items)) <= 262144 && d == FullDetails(items)
  }

  // A reference to it: two flags, where to read it, how many journals, and their digest.
  ghost predicate AuthorityReference(h: Heap, v: Value, d: Json) {
    ClosedRecord(h, v, REFERENCE_FIELDS) &&
    Holds(h, v, MANUAL, BoolV(true)) && Holds(h, v, READBACK_REQUIRED, BoolV(true)) && Holds(h, v, AUTHORITY_READBACK, StrV(READBACK)) &&
    exists n: SafeInt, digest: Text ::
      Holds(h, v, JOURNAL_COUNT, IntV(n)) && n >= 0 && Holds(h, v, AUTHORITY_DIGEST, StrV(digest)) && DigestForm(digest) &&
      d == ReferenceDetails(n, digest)
  }

  lemma WholeIff(h: Heap, v: Value, d: Json)
    requires HasFields(h, v, [UNRESOLVED])
    ensures DetailsSnapshot(h, v) == Some(d) <==> WholeAuthority(h, v, d)
    ensures HasOwn(h, v, UNRESOLVED)
  {
    hide Size, JournalsSnapshot, HasFields, ClosedRecord, Own, Holds, HasOwn;
    FieldsRecord(h, v, [UNRESOLVED]);
    ClosedIff(h, v, [UNRESOLVED]);
    OnlyField(h, v);
    forall data ensures Own(h, v, UNRESOLVED) == Some(data) <==> Holds(h, v, UNRESOLVED, data) { HoldsIff(h, v, UNRESOLVED, data); }
    if DetailsSnapshot(h, v) == Some(d) {
      var journals := Own(h, v, UNRESOLVED).value;
      assert Holds(h, v, UNRESOLVED, journals) && d == FullDetails(JournalsSnapshot(h, journals).value);
    }
  }

  lemma OnlyField(h: Heap, v: Value)
    requires HasFields(h, v, [UNRESOLVED])
    ensures HasOwn(h, v, UNRESOLVED)
  {
    assert h[v.id].props[0].key == Name(UNRESOLVED);
  }

  lemma ReferenceIff(h: Heap, v: Value, d: Json)
    requires !HasOwn(h, v, UNRESOLVED) && HasFields(h, v, REFERENCE_FIELDS)
    ensures DetailsSnapshot(h, v) == Some(d) <==> AuthorityReference(h, v, d)
  {
    hide HasFields, ClosedRecord, Own, Holds, HasOwn, DigestForm, JournalsSnapshot;
    FieldsRecord(h, v, REFERENCE_FIELDS);
    ClosedIff(h, v, REFERENCE_FIELDS);
    forall key, data ensures Own(h, v, key) == Some(data) <==> Holds(h, v, key, data) { HoldsIff(h, v, key, data); }
    if DetailsSnapshot(h, v) == Some(d) {
      assert Holds(h, v, JOURNAL_COUNT, Own(h, v, JOURNAL_COUNT).value);
      assert Holds(h, v, AUTHORITY_DIGEST, Own(h, v, AUTHORITY_DIGEST).value);
    }
  }

  /** The snapshot accepts exactly the whole authority within its budget, or a complete reference to it. */
  lemma DetailsSnapshotIff(h: Heap, v: Value, d: Json)
    ensures DetailsSnapshot(h, v) == Some(d) <==> WholeAuthority(h, v, d) || AuthorityReference(h, v, d)
  {
    hide HasOwn, HasFields, ClosedRecord, Holds, Own, Size, JournalsSnapshot, DigestForm;
    ClosedIff(h, v, [UNRESOLVED]);
    ClosedIff(h, v, REFERENCE_FIELDS);
    if HasOwn(h, v, UNRESOLVED) {
      NoReference(h, v);
      if HasFields(h, v, [UNRESOLVED]) { WholeIff(h, v, d); }
    } else {
      if HasFields(h, v, [UNRESOLVED]) { OnlyField(h, v); }
      if HasFields(h, v, REFERENCE_FIELDS) { ReferenceIff(h, v, d); }
    }
  }

  lemma NoReference(h: Heap, v: Value)
    requires HasOwn(h, v, UNRESOLVED)
    ensures !HasFields(h, v, REFERENCE_FIELDS)
  {
    KeysApart();
    if IsRecord(h, v) {
      var props := h[v.id].props;
      FindPlace(props, Name(UNRESOLVED));
      var i :| 0 <= i < |props| && props[i].key == Name(UNRESOLVED);
      assert props[i].key.text !in REFERENCE_FIELDS;
    }
  }

  lemma KeysApart()
    ensures UNRESOLVED !in REFERENCE_FIELDS
  {
    assert UNRESOLVED[0] != JOURNAL_COUNT[0];
    assert |UNRESOLVED| == 18 && |MANUAL| == 22 && |READBACK_REQUIRED| == 25 && |AUTHORITY_READBACK| == 17 && |AUTHORITY_DIGEST| == 15;
  }

  /** Given plain journals the producer returns them whole exactly when they fit, else their number and digest. */
  lemma ProducedIs(h: Heap, v: Value, items: seq<Json>, digest: Json -> Text)
    requires Denotes(h, v, Arr(items)) && forall i :: 0 <= i < |items| ==> JournalForm(items[i])
    ensures |items| < 0x1_0000_0000
    ensures RecoveryDetails(h, v, digest)
            == Some(if Size(FullDetails(items)) > 262144 then ReferenceDetails(|items|, digest(Arr(items))) else FullDetails(items))
  {
    hide JournalForm, Denotes, Size, JournalItems;
    JournalsReadback(h, v, items);
  }
}
