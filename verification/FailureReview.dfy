/** Reviewing failure data against the closed contract: packages/contracts/src/failure.ts, failureIssues. */
module FailureReview {
  import opened Options
  import opened JsonText
  import opened JsonFacts
  import opened JsonReadability
  import opened JsHeap
  import opened JsAllocation
  import opened CanonicalJson
  import opened FailureModel
  import opened FailureEnvelopes
  import opened DetailsBudget
  import opened FailureContract
  import opened PolicyDetails
  import ProjectionRecovery

  datatype Finding = NotARecord | NotClosed | OverBudget | Violation

  const FIELDS: seq<Text> := [CODE, MESSAGE, SEVERITY, RETRYABLE, ACTION, REASON_CODE, DETAILS]

  // A plain record with exactly the seven fields of a failure.
  predicate IsClosedRecord(h: Heap, v: Value)
    requires IsRecord(h, v)
  {
    var props := h[v.id].props;
    !h[v.id].proto.ForeignProto? && |props| == |FIELDS| &&
    forall i :: 0 <= i < |props| ==> props[i].slot.enumerable && props[i].key.Name? && props[i].key.text in FIELDS
  }

  // The policy the data names, if its code agrees.
  function NamedPolicy(c: Contract, code: Value, reason: Value): Option<Policy> {
    if reason.StrV? && reason.text in c.table.policies && code == StrV(PolicyOf(c, reason.text).code)
    then Some(PolicyOf(c, reason.text)) else None
  }

  // Recovery details are read by their own rules, all others by the bounded copy.
  function DetailsSnapshot(c: Contract, policy: Option<Policy>, reason: Value, h: Heap, v: Value): Option<Json> {
    if policy.Some? && IsRecovery(policy.value) then if reason.StrV? then c.take(reason.text, h, v) else None
    else Snapshot(h, v, 0, if policy.Some? then StringLimit(policy.value) else SHORT)
  }

  // The budget follows the policy the reason names, whatever the code says.
  function ReviewLimit(c: Contract, reason: Value): nat {
    if reason.StrV? && reason.text in c.table.policies && IsRecovery(PolicyOf(c, reason.text))
    then ProjectionRecovery.LIMIT_BYTES else DETAILS_LIMIT
  }

  // A field as the canonical text shows it: an undefined one is left out.
  function Shown(key: Text, v: Value): seq<Member> { if ScalarData(v) then [Member(key, FromScalar(v))] else [] }

  function DataJson(h: Heap, v: Value, details: Json): Json {
    Obj(ShownField(h, v, CODE) + ShownField(h, v, MESSAGE) + ShownField(h, v, SEVERITY) + ShownField(h, v, RETRYABLE)
        + ShownField(h, v, ACTION) + ShownField(h, v, REASON_CODE) + [Member(DETAILS, details)])
  }

  function ShownField(h: Heap, v: Value, key: Text): seq<Member> {
    match Read(h, v, key)
    case None => []
    case Some(value) => Shown(key, value)
  }

  predicate AllReadable(h: Heap, v: Value) { forall key :: key in FIELDS ==> Read(h, v, key).Some? }

  function Expected(c: Contract, h: Heap, v: Value, details: Stored<Value>): Option<Failure>
    requires WellFormed(c.table)
  {
    var code :- Read(h, v, CODE);
    var reason :- Read(h, v, REASON_CODE);
    var action :- Read(h, v, ACTION);
    var severity :- Read(h, v, SEVERITY);
    var retryable :- Read(h, v, RETRYABLE);
    KnownFailure(c, code, reason, details.heap, details.value, Attributes(action, severity, retryable))
  }

  function FailureIssues(c: Contract, h: Heap, v: Value): seq<Finding>
    requires Lawful(c)
  {
    if !IsRecord(h, v) then [NotARecord]
    else if !IsClosedRecord(h, v) then [NotClosed]
    else if !AllReadable(h, v) then [Violation]
    else
      var code, reason, message := Read(h, v, CODE).value, Read(h, v, REASON_CODE).value, Read(h, v, MESSAGE).value;
      match DetailsSnapshot(c, NamedPolicy(c, code, reason), reason, h, Read(h, v, DETAILS).value)
      case None => [Violation]
      case Some(details) =>
        if !message.StrV? || Bytes(message.text) > LONG || Size(details) > ReviewLimit(c, reason) then [OverBudget]
        else
          SnapshotStorable(c, code, reason, h, Read(h, v, DETAILS).value);
          match Expected(c, h, v, Fresh(details))
          case None => [Violation]
          case Some(f) =>
            if Canonicalize(DataJson(h, v, details)) == Canonicalize(FailureJson(f)) then [] else [NotClosed]
  }

  // ---------------------------------------------------------------------------------------------
  // A snapshot can be held by a fresh object

  lemma {:induction false} CopyStorable(h: Heap, v: Value, depth: nat, limit: nat)
    requires Snapshot(h, v, depth, limit).Some?
    ensures Storable(Snapshot(h, v, depth, limit).value)
    decreases if depth <= DEEPEST then DEEPEST + 1 - depth else 0, 0
  {
    if IsList(h, v) {
      ItemsStorable(h, h[v.id].slots, depth + 1, limit);
    } else if IsRecord(h, v) {
      assert Proper(h[v.id]);
      MembersStorable(h, h[v.id].props, depth + 1, limit);
    }
  }

  lemma {:induction false} ItemsStorable(h: Heap, slots: seq<Slot>, depth: nat, limit: nat)
    requires SnapshotItems(h, slots, depth, limit).Some?
    ensures var r := SnapshotItems(h, slots, depth, limit).value;
            |r| == |slots| && forall i :: 0 <= i < |r| ==> Storable(r[i])
    decreases if depth <= DEEPEST then DEEPEST + 1 - depth else 0, 1, |slots|
  {
    hide Snapshot, Storable;
    if slots != [] {
      CopyStorable(h, slots[0].value, depth, limit);
      ItemsStorable(h, slots[1..], depth, limit);
    }
  }

  lemma {:induction false} MembersStorable(h: Heap, props: seq<Property>, depth: nat, limit: nat)
    requires SnapshotMembers(h, props, depth, limit).Some?
    ensures var r := SnapshotMembers(h, props, depth, limit).value;
            |r| == |props| && forall i :: 0 <= i < |r| ==> props[i].key == Name(r[i].key) && Storable(r[i].value)
    decreases if depth <= DEEPEST then DEEPEST + 1 - depth else 0, 1, |props|
  {
    hide Snapshot, Storable;
    if props != [] {
      CopyStorable(h, props[0].slot.value, depth, limit);
      MembersStorable(h, props[1..], depth, limit);
    }
  }

  lemma SnapshotStorable(c: Contract, code: Value, reason: Value, h: Heap, v: Value)
    requires Lawful(c) && DetailsSnapshot(c, NamedPolicy(c, code, reason), reason, h, v).Some?
    ensures Storable(DetailsSnapshot(c, NamedPolicy(c, code, reason), reason, h, v).value)
  {
    hide Storable, Snapshot, WellFormed, InBudget;
    var policy := NamedPolicy(c, code, reason);
    if policy.Some? && IsRecovery(policy.value) {
      assert Storable(c.take(reason.text, h, v).value);
    } else {
      CopyStorable(h, v, 0, if policy.Some? then StringLimit(policy.value) else SHORT);
    }
  }

  // ---------------------------------------------------------------------------------------------
  // The contract finds nothing wrong with what it produces

  lemma FieldNames(g: Heap, v: Value, f: Failure)
    requires Denotes(g, v, FailureJson(f))
    ensures IsRecord(g, v) && IsClosedRecord(g, v)
  {
    var members := FailureHead(f) + [Member(DETAILS, f.details)];
    forall i | 0 <= i < 7 ensures members[i].key in FIELDS {
      assert members[i].key == FIELDS[i];
    }
  }

  lemma ShownFailure(g: Heap, v: Value, f: Failure)
    requires Denotes(g, v, FailureJson(f))
    ensures AllReadable(g, v) && DataJson(g, v, f.details) == FailureJson(f)
  {
    hide Read, Denotes, FromScalar;
    ReadFailure(g, v, f);
    ShownText(g, v, CODE, f.code);
    ShownText(g, v, MESSAGE, f.message);
    ShownText(g, v, SEVERITY, f.severity);
    ShownText(g, v, ACTION, f.action);
    ShownText(g, v, REASON_CODE, f.reasonCode);
    assert ShownField(g, v, RETRYABLE) == [Member(RETRYABLE, Bool(f.retryable))] by { ShownFlag(g, v, f.retryable); }
    hide ShownField;
    assert FailureHead(f) + [Member(DETAILS, f.details)]
        == [Member(CODE, Str(f.code))] + [Member(MESSAGE, Str(f.message))] + [Member(SEVERITY, Str(f.severity))]
           + [Member(RETRYABLE, Bool(f.retryable))] + [Member(ACTION, Str(f.action))]
           + [Member(REASON_CODE, Str(f.reasonCode))] + [Member(DETAILS, f.details)];
  }

  lemma ShownText(g: Heap, v: Value, key: Text, text: Text)
    requires Read(g, v, key) == Some(StrV(text))
    ensures ShownField(g, v, key) == [Member(key, Str(text))]
  {}

  lemma ShownFlag(g: Heap, v: Value, flag: bool)
    requires Read(g, v, RETRYABLE) == Some(BoolV(flag))
    ensures ShownField(g, v, RETRYABLE) == [Member(RETRYABLE, Bool(flag))]
  {}

  // The details of a produced failure are their own snapshot, within the limit.
  lemma ReviewDetails(c: Contract, f: Failure, g: Heap, w: Value)
    requires Lawful(c) && Produced(c, f) && Denotes(g, w, f.details)
    ensures f.reasonCode in c.table.policies && Bytes(f.message) <= LONG
    ensures NamedPolicy(c, StrV(f.code), StrV(f.reasonCode)) == Some(PolicyOf(c, f.reasonCode))
    ensures DetailsSnapshot(c, Some(PolicyOf(c, f.reasonCode)), StrV(f.reasonCode), g, w) == Some(f.details)
    ensures Size(f.details) <= ReviewLimit(c, StrV(f.reasonCode))
  {
    hide Chosen, AttributesAllowed, Size, Bytes, BudgetIssues, InBudget, Snapshot, Denotes;
    ProducedTaken(c, f, g, w);
    var policy := PolicyOf(c, f.reasonCode);
    BytesWithinUnits(policy.message);
    if !IsRecovery(policy) {
      ProducedInBudget(c, f);
      SnapshotIff(g, w, f.details, 0, StringLimit(policy));
    }
  }

  // The details of a produced failure were taken, and recovery details are taken again unchanged.
  lemma ProducedTaken(c: Contract, f: Failure, g: Heap, w: Value)
    requires Lawful(c) && Produced(c, f) && Denotes(g, w, f.details)
    ensures f.reasonCode in c.table.policies
    ensures f.code == PolicyOf(c, f.reasonCode).code && f.message == PolicyOf(c, f.reasonCode).message
    ensures IsRecovery(PolicyOf(c, f.reasonCode)) ==>
              c.take(f.reasonCode, g, w) == Some(f.details) && Size(f.details) <= ProjectionRecovery.LIMIT_BYTES
  {
    hide Chosen, AttributesAllowed, Size, WithinDetailsBudget, InBudget, Denotes, WellFormedPolicy;
    if IsRecovery(PolicyOf(c, f.reasonCode)) {
      assert SameDetails(PolicyOf(c, f.reasonCode), f.details, c.take(f.reasonCode, g, w).value);
    }
  }

  lemma SameCanonical(f: Failure, again: Failure)
    requires again == f.(details := again.details)
    requires SortJson(again.details) == SortJson(f.details)
    ensures Canonicalize(FailureJson(again)) == Canonicalize(FailureJson(f))
  {
    hide SortJson;
    AlikeCanonical(FailureHead(f) + [Member(DETAILS, f.details)], FailureHead(again) + [Member(DETAILS, again.details)]);
  }

  lemma DetailsCanonical(policy: Policy, was: Json, now: Json)
    requires SameDetails(policy, was, now) && Storable(was)
    ensures SortJson(now) == SortJson(was)
  {
    hide SortJson;
    if now != was {
      SortPermuted(was.members, now.members);
    }
  }

  lemma ProducedNamed(c: Contract, f: Failure)
    requires Lawful(c) && Produced(c, f)
    ensures f.reasonCode in c.table.policies
  {}

  // Reviewing the data of a produced failure rebuilds it, from a fresh copy of its details.
  lemma Rebuilt(c: Contract, f: Failure, g: Heap, v: Value)
    requires Lawful(c) && Produced(c, f) && Denotes(g, v, FailureJson(f)) && Storable(f.details)
    ensures Expected(c, g, v, Fresh(f.details)).Some?
    ensures Canonicalize(FailureJson(Expected(c, g, v, Fresh(f.details)).value)) == Canonicalize(FailureJson(f))
  {
    hide Read, Denotes, Storable, Fresh, Produced, KnownFailure, SameDetails, Canonicalize, SortJson, WellFormed, TakesAgain;
    ReadFailure(g, v, f);
    ProducedNamed(c, f);
    FreshDenotes(f.details);
    PolicyAgain(c, f, Fresh(f.details).heap, Fresh(f.details).value);
    var again := Expected(c, g, v, Fresh(f.details)).value;
    DetailsCanonical(PolicyOf(c, f.reasonCode), f.details, again.details);
    SameCanonical(f, again);
  }

  /** A produced failure has no issues, wherever it is read from. */
  lemma ProducedHasNoIssues(c: Contract, f: Failure, g: Heap, v: Value)
    requires Lawful(c) && Produced(c, f) && Denotes(g, v, FailureJson(f))
    ensures FailureIssues(c, g, v) == []
  {
    hide Read, Denotes, Storable, Fresh, Produced, Canonicalize, FailureJson, DataJson, Expected, Size, Bytes,
      DetailsSnapshot, ReviewLimit, IsClosedRecord, AllReadable, WellFormed, NamedPolicy;
    FieldNames(g, v, f);
    ReadFailure(g, v, f);
    ShownFailure(g, v, f);
    ReviewDetails(c, f, g, Read(g, v, DETAILS).value);
    DenotedStorable(g, Read(g, v, DETAILS).value, f.details);
    Rebuilt(c, f, g, v);
  }

  // The details the review works on, where it gets that far.
  function Reviewed(c: Contract, h: Heap, v: Value): Option<Json> {
    var code :- Read(h, v, CODE);
    var reason :- Read(h, v, REASON_CODE);
    var details :- Read(h, v, DETAILS);
    DetailsSnapshot(c, NamedPolicy(c, code, reason), reason, h, details)
  }

  /** Data without issues shows, field by field and up to key order, a failure the contract produces. */
  lemma NoIssuesMeansProduced(c: Contract, h: Heap, v: Value)
    requires Lawful(c) && FailureIssues(c, h, v) == []
    ensures Reviewed(c, h, v).Some?
    ensures exists f :: Produced(c, f) && Canonicalize(FailureJson(f)) == Canonicalize(DataJson(h, v, Reviewed(c, h, v).value))
  {
    hide Read, Storable, Fresh, Produced, KnownFailure, Canonicalize, DataJson, Size, Bytes, DetailsSnapshot, ReviewLimit,
      IsClosedRecord, WellFormed, NamedPolicy;
    assert CODE in FIELDS && REASON_CODE in FIELDS && DETAILS in FIELDS && ACTION in FIELDS && SEVERITY in FIELDS && RETRYABLE in FIELDS;
    var details := Reviewed(c, h, v).value;
    SnapshotStorable(c, Read(h, v, CODE).value, Read(h, v, REASON_CODE).value, h, Read(h, v, DETAILS).value);
    var stored := Fresh(details);
    KnownProduced(c, Read(h, v, CODE).value, Read(h, v, REASON_CODE).value, stored.heap, stored.value,
      Attributes(Read(h, v, ACTION).value, Read(h, v, SEVERITY).value, Read(h, v, RETRYABLE).value));
    assert Produced(c, Expected(c, h, v, stored).value);
  }

  // ---------------------------------------------------------------------------------------------
  // What has no issues is closed

  function KeysOf(props: seq<Property>): set<Key> { set p | p in props :: p.key }

  lemma {:induction false} KeyCount(props: seq<Property>)
    requires DistinctKeys(props)
    ensures |KeysOf(props)| == |props|
  {
    if props != [] {
      var n := |props| - 1;
      KeyCount(props[..n]);
      assert KeysOf(props) == KeysOf(props[..n]) + {props[n].key} by {
        assert props == props[..n] + [props[n]];
      }
      assert props[n].key !in KeysOf(props[..n]) by {
        assert forall p :: p in props[..n] ==> exists i :: 0 <= i < n && props[i] == p;
      }
    }
  }

  lemma {:induction false} NamesAtMost(fields: seq<Text>)
    ensures |set f | f in fields :: Name(f)| <= |fields|
  {
    if fields != [] {
      var n := |fields| - 1;
      NamesAtMost(fields[..n]);
      assert fields == fields[..n] + [fields[n]];
      assert (set f | f in fields :: Name(f)) == (set f | f in fields[..n] :: Name(f)) + {Name(fields[n])};
    }
  }

  lemma SameSize<T>(a: set<T>, b: set<T>)
    requires a <= b && |b| <= |a|
    ensures a == b
  {
    assert |b - a| == |b| - |a|;
  }

  // As many distinct keys as fields, all of them fields: each field is there.
  lemma AllThere(props: seq<Property>, fields: seq<Text>)
    requires DistinctKeys(props) && |props| == |fields|
    requires forall i :: 0 <= i < |props| ==> props[i].key.Name? && props[i].key.text in fields
    ensures forall f :: f in fields ==> exists i :: 0 <= i < |props| && props[i].key == Name(f)
  {
    KeyCount(props);
    NamesAtMost(fields);
    SameSize(KeysOf(props), set f | f in fields :: Name(f));
    forall f | f in fields ensures exists i :: 0 <= i < |props| && props[i].key == Name(f) {
      assert Name(f) in KeysOf(props);
    }
  }

  /** Data without issues is a plain record of exactly seven enumerable own data fields, those of a failure. */
  lemma NoIssuesMeansClosed(c: Contract, h: Heap, v: Value)
    requires Lawful(c) && FailureIssues(c, h, v) == []
    ensures IsObject(h, v) && h[v.id].Record? && !h[v.id].proto.ForeignProto?
    ensures var props := h[v.id].props;
            && |props| == 7
            && (forall i :: 0 <= i < 7 ==> props[i].slot.Data? && props[i].slot.enumerable)
            && (forall f :: f in [U("code"), U("message"), U("severity"), U("retryable"), U("action"), U("reasonCode"), U("details")] ==>
                  exists i :: 0 <= i < 7 && props[i].key == Name(f))
  {
    hide Storable, KnownFailure, Canonicalize, DataJson, Size, Bytes, DetailsSnapshot, ReviewLimit, WellFormed, NamedPolicy, Expected;
    var props := h[v.id].props;
    assert Proper(h[v.id]);
    AllThere(props, FIELDS);
    forall i | 0 <= i < 7 ensures props[i].slot.Data? {
      assert Read(h, v, props[i].key.text).Some?;
      FindAt(props, i);
    }
  }

  // ---------------------------------------------------------------------------------------------
  // The order of the fields does not matter

  lemma FindPermuted(p: seq<Property>, q: seq<Property>, key: Key)
    requires DistinctKeys(p) && DistinctKeys(q) && multiset(p) == multiset(q)
    ensures Find(p, key) == Find(q, key)
  {
    forall i | 0 <= i < |p| && p[i].key == key ensures Find(q, key) == Find(p, key) {
      assert p[i] in multiset(q);
      var k :| 0 <= k < |q| && q[k] == p[i];
      FindAt(p, i);
      FindAt(q, k);
    }
    forall k | 0 <= k < |q| && q[k].key == key ensures Find(p, key).Some? {
      assert q[k] in multiset(p);
      assert q[k] in p;
    }
  }

  lemma ClosedPermuted(h: Heap, v: Value, w: Value)
    requires IsRecord(h, v) && IsRecord(h, w) && h[v.id].proto == h[w.id].proto
    requires multiset(h[v.id].props) == multiset(h[w.id].props) && IsClosedRecord(h, v)
    ensures IsClosedRecord(h, w)
  {
    var p, q := h[v.id].props, h[w.id].props;
    assert |p| == |multiset(p)| && |q| == |multiset(q)|;
    forall i | 0 <= i < |q| ensures q[i] in p {
      assert q[i] in multiset(p);
    }
  }

  /** Records that differ in the order of their fields only have the same issues. */
  lemma ReviewIgnoresOrder(c: Contract, h: Heap, v: Value, w: Value)
    requires Lawful(c) && IsRecord(h, v) && IsRecord(h, w) && h[v.id].proto == h[w.id].proto
    requires multiset(h[v.id].props) == multiset(h[w.id].props)
    ensures FailureIssues(c, h, v) == FailureIssues(c, h, w)
  {
    hide Storable, KnownFailure, Canonicalize, Size, Bytes, DetailsSnapshot, ReviewLimit, WellFormed, NamedPolicy, IsClosedRecord,
      Read, DataJson, Expected;
    if IsClosedRecord(h, v) { ClosedPermuted(h, v, w); }
    if IsClosedRecord(h, w) { ClosedPermuted(h, w, v); }
    ReadPermuted(h, v, w);
    if AllReadable(h, v) {
      forall details ensures DataJson(h, v, details) == DataJson(h, w, details) { DataPermuted(h, v, w, details); }
      forall details ensures Expected(c, h, v, details) == Expected(c, h, w, details) { ExpectedPermuted(c, h, v, w, details); }
    }
  }

  lemma ReadPermuted(h: Heap, v: Value, w: Value)
    requires IsRecord(h, v) && IsRecord(h, w) && multiset(h[v.id].props) == multiset(h[w.id].props)
    ensures forall key :: Read(h, v, key) == Read(h, w, key)
  {
    assert Proper(h[v.id]) && Proper(h[w.id]);
    forall key ensures Read(h, v, key) == Read(h, w, key) {
      FindPermuted(h[v.id].props, h[w.id].props, Name(key));
    }
  }

  lemma DataPermuted(h: Heap, v: Value, w: Value, details: Json)
    requires forall key :: Read(h, v, key) == Read(h, w, key)
    ensures DataJson(h, v, details) == DataJson(h, w, details)
  {
    hide Read, Shown;
  }

  lemma ExpectedPermuted(c: Contract, h: Heap, v: Value, w: Value, details: Stored<Value>)
    requires WellFormed(c.table) && forall key :: Read(h, v, key) == Read(h, w, key)
    ensures Expected(c, h, v, details) == Expected(c, h, w, details)
  {
    hide Read, KnownFailure, WellFormed;
  }

  // Equal canonical texts mean equal values up to key order, when every numeral is one.
  lemma CanonicalTextsMean(a: Json, b: Json)
    requires Canonicalize(a) == Canonicalize(b) && Canonical(SortJson(a)) && Canonical(SortJson(b))
    ensures SortJson(a) == SortJson(b)
  {
    hide SortJson, Canonical;
    StringifyInjective(SortJson(a), SortJson(b));
  }
}
