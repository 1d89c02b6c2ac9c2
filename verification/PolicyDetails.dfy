/** The details each kind of policy takes from caller data, and takes again from them: packages/contracts/src/failure.ts. */
module PolicyDetails {
  import opened Options
  import opened JsonText
  import opened JsonFacts
  import opened JsHeap
  import opened FailureModel
  import opened FailureEnvelopes
  import opened PlainPolicies
  import opened FactPolicies
  import opened NativeDiagnostics
  import opened NativeFixedPoint
  import ProjectionRecovery
  import ChangeSetRecovery

  // The details each kind of policy takes from what the caller gives.
  function Details(c: Table, reason: Text, policy: Policy, h: Heap, v: Value): (r: Option<Json>)
    requires WellFormedPolicy(c, policy)
    ensures r.Some? ==> r.value.Obj?
  {
    match policy.kind
    case Plain(_) => PlainDetails(c, policy, h, v)
    case Facts(schema) => FactDetails(c, schema, h, v)
    case Native(_) => NativeDetails(c, reason, policy, h, v)
    case Recovery => ProjectionRecovery.RecoveryDetailsSnapshot(reason, h, v, c.readbackValid)
    case JournalRecovery => ChangeSetRecovery.DetailsSnapshot(h, v)
  }

  // The same details, the members of a native record possibly in another order.
  ghost predicate SameDetails(policy: Policy, was: Json, now: Json) {
    now == was || (policy.kind.Native? && was.Obj? && now.Obj? && multiset(now.members) == multiset(was.members))
  }

  lemma DetailsAgain(c: Table, reason: Text, policy: Policy, h: Heap, v: Value, g: Heap, w: Value)
    requires WellFormedPolicy(c, policy) && !c.critical(OMITTED)
    requires Details(c, reason, policy, h, v).Some? && Denotes(g, w, Details(c, reason, policy, h, v).value)
    requires !IsRecovery(policy) ==> |Details(c, reason, policy, h, v).value.members| <= 16
    ensures Details(c, reason, policy, g, w).Some?
    ensures SameDetails(policy, Details(c, reason, policy, h, v).value, Details(c, reason, policy, g, w).value)
  {
    hide PlainDetails, FactDetails, NativeDetails, Denotes, Settle, Declares, DistinctSchema, IsDataRecord;
    hide ProjectionRecovery.RecoveryDetailsSnapshot, ChangeSetRecovery.DetailsSnapshot;
    match policy.kind
    case Plain(_) => PlainAgain(c, policy, h, v, g, w);
    case Facts(schema) => FactsAgain(c, schema, h, v, g, w);
    case Native(_) => NativeAgain(c, reason, policy, h, v, g, w);
    case Recovery => RecoveryAgain(c, reason, h, v, g, w);
    case JournalRecovery => ChangeSetRecovery.SnapshotIdempotent(h, v, g, w);
  }

  lemma RecoveryAgain(c: Table, reason: Text, h: Heap, v: Value, g: Heap, w: Value)
    requires ProjectionRecovery.RecoveryDetailsSnapshot(reason, h, v, c.readbackValid).Some?
    requires Denotes(g, w, ProjectionRecovery.RecoveryDetailsSnapshot(reason, h, v, c.readbackValid).value)
    ensures ProjectionRecovery.RecoveryDetailsSnapshot(reason, g, w, c.readbackValid)
            == ProjectionRecovery.RecoveryDetailsSnapshot(reason, h, v, c.readbackValid)
  {
    hide Denotes, Size, ProjectionRecovery.DetailsValid, ProjectionRecovery.RecoveryDetailsSnapshot;
    ProjectionRecovery.SnapshotIff(reason, h, v, c.readbackValid);
    ProjectionRecovery.SnapshotIff(reason, g, w, c.readbackValid);
  }

  // ---------------------------------------------------------------------------------------------
  // Empty records

  // Whatever heap holds it, an empty record gives the same details.
  lemma EmptyDetails(c: Table, reason: Text, policy: Policy, h: Heap, v: Value, g: Heap, w: Value)
    requires WellFormedPolicy(c, policy) && Denotes(h, v, Obj([])) && Denotes(g, w, Obj([]))
    ensures Details(c, reason, policy, h, v) == Details(c, reason, policy, g, w)
    ensures policy.kind.Plain? ==> Details(c, reason, policy, h, v) == Some(Obj([]))
  {
    hide PlainDetails, FactDetails, NativeDetails, Denotes, IsDataRecord, WellFormedPolicy, NativePolicy;
    hide ProjectionRecovery.RecoveryDetailsSnapshot, ChangeSetRecovery.DetailsSnapshot;
    NoProperties(h, v);
    NoProperties(g, w);
    match policy.kind
    case Plain(_) =>
      EmptyPlain(c, policy, h, v);
      EmptyPlain(c, policy, g, w);
    case Facts(schema) => EmptyFacts(c, schema, h, v, g, w);
    case Native(_) => EmptyNativeKind(c, reason, policy, h, v, g, w);
    case Recovery => EmptyRecovery(c, reason, h, v, g, w);
    case JournalRecovery => EmptyJournals(h, v, g, w);
  }

  lemma NoProperties(h: Heap, v: Value)
    requires Denotes(h, v, Obj([]))
    ensures IsDataRecord(h, v) && h[v.id].props == []
  {}

  lemma {:induction false} NothingDeclared(h: Heap, g: Heap, schema: seq<FactRule>)
    ensures Declared(h, [], schema) == Declared(g, [], schema)
  {
    if schema != [] { NothingDeclared(h, g, schema[..|schema| - 1]); }
  }

  lemma EmptyNativeKind(c: Table, reason: Text, policy: Policy, h: Heap, v: Value, g: Heap, w: Value)
    requires WellFormedPolicy(c, policy) && policy.kind.Native?
    requires IsDataRecord(h, v) && h[v.id].props == [] && IsDataRecord(g, w) && g[w.id].props == []
    ensures NativePolicy(c, policy)
    ensures NativeDetails(c, reason, policy, h, v) == NativeDetails(c, reason, policy, g, w)
  {
    hide NativeDetails, IsDataRecord;
    EmptyNative(c, reason, policy, h, v, g, w);
  }

  lemma EmptyPlain(c: Table, policy: Policy, h: Heap, v: Value)
    requires policy.kind.Plain? && IsDataRecord(h, v) && h[v.id].props == []
    ensures PlainDetails(c, policy, h, v) == Some(Obj([]))
  {
    assert [] + Closing(0) == [];
  }

  lemma EmptyFacts(c: Table, schema: seq<FactRule>, h: Heap, v: Value, g: Heap, w: Value)
    requires IsDataRecord(h, v) && h[v.id].props == [] && IsDataRecord(g, w) && g[w.id].props == []
    ensures FactDetails(c, schema, h, v) == FactDetails(c, schema, g, w)
  {
    NothingDeclared(h, g, schema);
  }

  lemma EmptyRecovery(c: Table, reason: Text, h: Heap, v: Value, g: Heap, w: Value)
    requires Denotes(h, v, Obj([])) && Denotes(g, w, Obj([]))
    ensures ProjectionRecovery.RecoveryDetailsSnapshot(reason, h, v, c.readbackValid)
            == ProjectionRecovery.RecoveryDetailsSnapshot(reason, g, w, c.readbackValid) == None
  {
    hide ProjectionRecovery.RecoveryDetailsSnapshot, Denotes;
    EmptyNotTaken(reason, h, v, c.readbackValid);
    EmptyNotTaken(reason, g, w, c.readbackValid);
  }

  lemma EmptyInvalid(reason: Text, readbackValid: Json -> bool)
    ensures !ProjectionRecovery.DetailsValid(reason, Obj([]), readbackValid)
  {}

  lemma EmptyNotTaken(reason: Text, h: Heap, v: Value, readbackValid: Json -> bool)
    requires Denotes(h, v, Obj([]))
    ensures ProjectionRecovery.RecoveryDetailsSnapshot(reason, h, v, readbackValid).None?
  {
    hide ProjectionRecovery.RecoveryDetailsSnapshot, ProjectionRecovery.DetailsValid, Denotes;
    ProjectionRecovery.SnapshotIff(reason, h, v, readbackValid);
    EmptyInvalid(reason, readbackValid);
    var r := ProjectionRecovery.RecoveryDetailsSnapshot(reason, h, v, readbackValid);
    if r.Some? { DenotesOne(h, v, r.value, Obj([])); }
  }

  lemma EmptyJournals(h: Heap, v: Value, g: Heap, w: Value)
    requires IsDataRecord(h, v) && h[v.id].props == [] && IsDataRecord(g, w) && g[w.id].props == []
    ensures ChangeSetRecovery.DetailsSnapshot(h, v).None? && ChangeSetRecovery.DetailsSnapshot(g, w).None?
  {}

  // ---------------------------------------------------------------------------------------------
  // The details of an unclassified failure

  lemma StepText(c: Table, h: Heap, p: Property, key: Text, text: Text, t: Tally)
    requires !c.critical(key) && (key == STAGE || key == ERROR_CLASS)
    requires p.key == Name(key) && PlainSlot(p.slot) && p.slot.value == StrV(text)
    ensures var known := if key == STAGE then text in STAGES else text in ERROR_CLASSES;
            PlainStep(c, UnclassifiedPolicy(), h, p, t)
            == Some(if known then t.(kept := t.kept + [Member(key, Str(text))]) else t.(omitted := t.omitted + 1))
  {
    FactKeys();
    assert OMITTED != STAGE && OMITTED != ERROR_CLASS;
  }

  predicate KnownText(m: Member) {
    m.value.Str? && if m.key == STAGE then m.value.text in STAGES else m.value.text in ERROR_CLASSES
  }

  function KnownTexts(members: seq<Member>): seq<Member> {
    if members == [] then []
    else
      var n := |members| - 1;
      if KnownText(members[n]) then KnownTexts(members[..n]) + [members[n]] else KnownTexts(members[..n])
  }

  // A text in a details field only ever adds itself or a dropped count.
  lemma {:induction false} TextsFold(c: Table, h: Heap, props: seq<Property>, members: seq<Member>)
    requires !c.critical(STAGE) && !c.critical(ERROR_CLASS) && |props| == |members|
    requires forall i :: 0 <= i < |members| ==>
               members[i].value.Str? && (members[i].key == STAGE || members[i].key == ERROR_CLASS) &&
               props[i].key == Name(members[i].key) && PlainSlot(props[i].slot) && Denotes(h, props[i].slot.value, members[i].value)
    ensures var r := PlainFold(c, UnclassifiedPolicy(), h, props); r.Some? && r.value.kept == KnownTexts(members)
  {
    hide PlainStep;
    if props != [] {
      var n := |props| - 1;
      TextsFold(c, h, props[..n], members[..n]);
      assert members[n] == Member(members[n].key, Str(members[n].value.text));
      StepText(c, h, props[n], members[n].key, members[n].value.text, PlainFold(c, UnclassifiedPolicy(), h, props[..n]).value);
    }
  }

  lemma LiteralLengths()
    ensures forall s :: s in STAGES ==> 0 < |s| <= 19
    ensures forall k :: k in ERROR_CLASSES ==> |k| <= 14
  {}

  lemma KnownOutput(stage: Text, errorClass: Option<Text>)
    ensures KnownTexts(UnclassifiedInput(stage, errorClass).members) == UnclassifiedOutput(stage, errorClass).members
  {
    LiteralLengths();
    hide STAGES, ERROR_CLASSES, KnownTexts;
    assert |STAGE| == 5 && |ERROR_CLASS| == 10;
    var a, b := Member(STAGE, Str(stage)), Member(ERROR_CLASS, Str(if errorClass.Some? then errorClass.value else []));
    KnownPair(a, b);
    assert UnclassifiedInput(stage, errorClass).members
        == if stage == [] then if errorClass.None? then [] else [b] else if errorClass.None? then [a] else [a, b];
    assert UnclassifiedOutput(stage, errorClass).members
        == (if KnownText(a) then [a] else []) + (if errorClass.Some? && KnownText(b) then [b] else []);
  }

  lemma OutputShape(stage: Text, errorClass: Option<Text>)
    ensures UnclassifiedDetails(UnclassifiedOutput(stage, errorClass))
  {
    LiteralLengths();
    hide STAGES, ERROR_CLASSES;
  }

  lemma KnownPair(a: Member, b: Member)
    ensures KnownTexts([]) == [] && KnownTexts([a]) == (if KnownText(a) then [a] else [])
    ensures KnownTexts([b]) == if KnownText(b) then [b] else []
    ensures KnownTexts([a, b]) == (if KnownText(a) then [a] else []) + (if KnownText(b) then [b] else [])
  {
    hide KnownText;
    assert [a][..0] == [] && [b][..0] == [] && [a, b][..1] == [a];
  }

  lemma UnclassifiedTaken(c: Table, h: Heap, v: Value, stage: Text, errorClass: Option<Text>)
    requires !c.critical(STAGE) && !c.critical(ERROR_CLASS)
    requires Denotes(h, v, UnclassifiedInput(stage, errorClass))
    ensures PlainDetails(c, UnclassifiedPolicy(), h, v) == Some(UnclassifiedOutput(stage, errorClass))
  {
    hide PlainFold;
    TextsFold(c, h, h[v.id].props, UnclassifiedInput(stage, errorClass).members);
    KnownOutput(stage, errorClass);
    var kept := UnclassifiedOutput(stage, errorClass).members;
    assert kept + [] == kept;
  }
}
