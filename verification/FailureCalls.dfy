/** Calls of knownFailure as a whole: packages/contracts/src/failure.ts, lines 726-759. */
module FailureCalls {
  import opened Options
  import opened JsonText
  import opened JsonFacts
  import opened JsHeap
  import opened JsAllocation
  import opened FailureModel
  import opened FailureEnvelopes
  import opened PlainPolicies
  import opened FactPolicies
  import opened NativeCollection
  import opened NativeFitting
  import opened NativeDiagnostics
  import opened PolicyDetails
  import opened FailureContract
  import opened RealContract
  import opened FactBudget
  import opened DetailsAccepted
  import opened NativeOrder

  // ---------------------------------------------------------------------------------------------
  // Calls without details

  /** A plain policy called without details makes a failure with empty details. */
  lemma PlainWithoutDetails(c: Contract, reason: Text, h: Heap, a: Attributes)
    requires WellFormed(c.table) && ByTable(c) && reason in c.table.policies && PolicyOf(c, reason).kind.Plain?
    requires Allowed(c.table, PolicyOf(c, reason), a)
    ensures var made := KnownFailure(c, StrV(PolicyOf(c, reason).code), StrV(reason), h, Undefined, a);
            made.Some? && made.value.details == Obj([])
  {
    hide AttributesAllowed, Chosen, WithinDetailsBudget, WellFormedPolicy, Details, Fresh, Lawful;
    TableLawful(c);
    FreshDenotes(Obj([]));
    var empty := Fresh(Obj([]));
    DetailsDefault(c, StrV(PolicyOf(c, reason).code), StrV(reason), h, a, empty.heap, empty.value);
    EmptyReference(empty.heap, empty.value);
    EmptyDetails(c.table, reason, PolicyOf(c, reason), empty.heap, empty.value, empty.heap, empty.value);
    EmptyWithin(c, reason);
  }

  lemma EmptyWithin(c: Contract, reason: Text)
    requires WellFormed(c.table) && reason in c.table.policies
    ensures WithinDetailsBudget(PolicyOf(c, reason), Obj([]))
  {
    hide WellFormedPolicy, Size;
    WithinIff(c, reason, Obj([]));
    SizeIsSum(Obj([]));
  }

  // ---------------------------------------------------------------------------------------------
  // Fields that make a call fail

  /** A field the policy neither names nor may drop: an unknown critical key, or an object it does not take. */
  predicate Forbidden(c: Table, policy: Policy, h: Heap, p: Property) {
    p.key.Name? && p.slot.Data? &&
    var key, v := p.key.text, p.slot.value;
    match policy.kind
    case Plain(fields) => c.critical(key) || (IsObject(h, v) && key != CHECKS)
    case Facts(schema) => !Declares(schema, key) && !(key == OMITTED && IsCount(v)) && (c.critical(key) || IsObject(h, v))
    case Native(rules) => key !in rules && (c.critical(key) || IsObject(h, v))
    case _ => false
  }

  lemma ForbiddenDetails(c: Table, reason: Text, policy: Policy, h: Heap, input: Value, i: nat)
    requires WellFormedPolicy(c, policy) && IsRecord(h, input) && i < |h[input.id].props|
    requires Forbidden(c, policy, h, h[input.id].props[i])
    ensures Details(c, reason, policy, h, input).None?
  {
    hide PlainDetails, FactDetails, NativeFold, Fit, WellFormedPolicy, FactMet, IsDataRecord;
    match policy.kind
    case Plain(_) => PlainIff(c, policy, h, input);
    case Facts(schema) => FactsIff(c, schema, h, input);
    case Native(rules) => NativeFoldIff(c, rules, h, h[input.id].props);
    case _ =>
  }

  /** Such a field refuses the call, whatever stands around it and whatever attributes are asked for. */
  lemma ForbiddenRefused(c: Contract, code: Text, reason: Text, h: Heap, input: Value, a: Attributes, i: nat)
    requires WellFormed(c.table) && ByTable(c) && reason in c.table.policies
    requires IsRecord(h, input) && i < |h[input.id].props|
    requires Forbidden(c.table, PolicyOf(c, reason), h, h[input.id].props[i])
    ensures KnownFailure(c, StrV(code), StrV(reason), h, input, a).None?
  {
    hide AttributesAllowed, Chosen, WithinDetailsBudget, WellFormedPolicy, Details, Forbidden;
    ForbiddenDetails(c.table, reason, PolicyOf(c, reason), h, input, i);
  }

  // ---------------------------------------------------------------------------------------------
  // What native fitting measures

  /** Without attributes the failure made of native details is the one whose envelope fitting measured. */
  lemma FittedIsMade(c: Contract, code: Text, reason: Text, h: Heap, input: Value)
    requires WellFormed(c.table) && ByTable(c) && reason in c.table.policies && PolicyOf(c, reason).kind.Native?
    requires KnownFailure(c, StrV(code), StrV(reason), h, input, NO_ATTRIBUTES).Some?
    ensures var f := KnownFailure(c, StrV(code), StrV(reason), h, input, NO_ATTRIBUTES).value;
            f.details.Obj? && PolicyOf(c, reason).code in c.table.catalog &&
            f == NativeFailure(c.table, reason, PolicyOf(c, reason), f.details.members)
  {
    hide ActionKnown, WithinDetailsBudget, WellFormedPolicy, NativeDetails, Fresh, Produced, Lawful, AttributesAllowed;
    NativeByTable(c, reason, h, input);
    var f := KnownFailure(c, StrV(code), StrV(reason), h, input, NO_ATTRIBUTES).value;
    KnownProduced(c, StrV(code), StrV(reason), h, input, NO_ATTRIBUTES);
    NativeCode(c, reason);
    TableLawful(c);
    ProducedInBudget(c, f);
  }

  lemma NativeCode(c: Contract, reason: Text)
    requires WellFormed(c.table) && reason in c.table.policies && PolicyOf(c, reason).kind.Native?
    ensures PolicyOf(c, reason).code in c.table.catalog && PolicyOf(c, reason).code !in TRANSPORT_CODES
  {}

  // ---------------------------------------------------------------------------------------------
  // Failures read from data

  // The value under an own name, undefined where there is none.
  predicate HeldUnder(h: Heap, input: Value, name: Text, value: Value)
    requires IsRecord(h, input)
  {
    var props := h[input.id].props;
    || (value.Undefined? && forall i :: 0 <= i < |props| ==> props[i].key != Name(name))
    || (exists i :: 0 <= i < |props| && props[i].key == Name(name) && props[i].slot.Data? && props[i].slot.value == value)
  }

  lemma HeldRead(h: Heap, input: Value, name: Text, value: Value)
    requires IsRecord(h, input)
    ensures HeldUnder(h, input, name, value) <==> Read(h, input, name) == Some(value)
  {
    var props := h[input.id].props;
    assert Proper(h[input.id]);
    forall i | 0 <= i < |props| && props[i].key == Name(name) ensures Find(props, Name(name)) == Some(props[i].slot) {
      FindAt(props, i);
    }
  }

  /** A failure is read from data as a call with its six fields is made, an absent field as one left out. */
  lemma DataCall(c: Contract, h: Heap, input: Value, code: Value, reason: Value, details: Value, a: Attributes)
    requires WellFormed(c.table) && IsRecord(h, input)
    requires HeldUnder(h, input, U("code"), code) && HeldUnder(h, input, U("reasonCode"), reason)
    requires HeldUnder(h, input, U("details"), details) && HeldUnder(h, input, U("action"), a.action)
    requires HeldUnder(h, input, U("severity"), a.severity) && HeldUnder(h, input, U("retryable"), a.retryable)
    ensures FailureFromData(c, h, input) == KnownFailure(c, code, reason, h, details, a)
  {
    hide HeldUnder, Read, KnownFailure, WellFormed;
    HeldRead(h, input, CODE, code);
    HeldRead(h, input, REASON_CODE, reason);
    HeldRead(h, input, DETAILS, details);
    HeldRead(h, input, ACTION, a.action);
    HeldRead(h, input, SEVERITY, a.severity);
    HeldRead(h, input, RETRYABLE, a.retryable);
  }

  /** Nothing is read from what is no record, or from behind an accessor. */
  lemma DataRefused(c: Contract, h: Heap, input: Value, i: nat)
    requires WellFormed(c.table)
    requires !IsRecord(h, input) ||
             (i < |h[input.id].props| && h[input.id].props[i].slot.Accessor? &&
              h[input.id].props[i].key in [Name(CODE), Name(REASON_CODE), Name(DETAILS), Name(ACTION), Name(SEVERITY), Name(RETRYABLE)])
    ensures FailureFromData(c, h, input).None?
  {
    hide KnownFailure, WellFormed;
    if IsRecord(h, input) {
      assert Proper(h[input.id]);
      FindAt(h[input.id].props, i);
    }
  }
}
