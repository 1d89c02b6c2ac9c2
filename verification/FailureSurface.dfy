/** Where failures leave the program: packages/contracts/src/failure.ts, unclassifiedFailure to normalizeFailureResult. */
module FailureSurface {
  import opened Options
  import opened JsonText
  import opened JsonFacts
  import opened JsHeap
  import opened JsAllocation
  import opened PrettyJson
  import opened FailureModel
  import opened FailureEnvelopes
  import opened PolicyDetails
  import opened DetailsBudget
  import opened FailureContract
  import opened FailureReview

  const FAILURE: Text := U("failure")
  const OK: Text := U("ok")
  const METADATA: Text := U("failure-metadata")

  // What a handler caught: a FailureError object, or anything else under its error class.
  datatype Thrown =
    | FailureThrown(error: Value)
    | OtherThrown(errorClass: Text)
    | NothingThrown

  function ClassOf(thrown: Thrown): Option<Text> {
    match thrown
    case OtherThrown(errorClass) => Some(errorClass)
    case _ => None
  }

  // ---------------------------------------------------------------------------------------------
  // Unclassified failures

  lemma InputStorable(stage: Text, errorClass: Option<Text>)
    ensures Storable(UnclassifiedInput(stage, errorClass))
  {
    assert |STAGE| == 5 && |ERROR_CLASS| == 10;
  }

  function UnclassifiedFailure(c: Contract, stage: Text, errorClass: Option<Text>): Option<Failure>
    requires WellFormed(c.table)
  {
    InputStorable(stage, errorClass);
    var input := Fresh(UnclassifiedInput(stage, errorClass));
    KnownFailure(c, StrV(UNCLASSIFIED), StrV(UNCLASSIFIED_REASON), input.heap, input.value, NO_ATTRIBUTES)
  }

  function UnclassifiedMade(stage: Text, errorClass: Option<Text>): Failure {
    Failure(UNCLASSIFIED, UNCLASSIFIED_MESSAGE, ERROR, false, INSPECT, UNCLASSIFIED_REASON, UnclassifiedOutput(stage, errorClass))
  }

  lemma UnclassifiedBudget(details: Json)
    requires UnclassifiedDetails(details)
    ensures InBudget(details, 0, SHORT) && Size(details) <= DETAILS_LIMIT
  {
    hide Size, Bytes;
    UnclassifiedDetailsSize(details);
    forall i | 0 <= i < |details.members| ensures InBudget(details.members[i].value, 1, SHORT) {
      BytesWithinUnits(details.members[i].value.text);
    }
  }

  lemma UnclassifiedAttributes(c: Contract)
    requires Lawful(c)
    ensures Chosen(c.table, UnclassifiedPolicy(), NO_ATTRIBUTES) == (INSPECT, ERROR, false)
    ensures AttributesAllowed(c.table, UnclassifiedPolicy(), INSPECT, ERROR, false)
  {
    assert TRANSPORT_CODES == [U("RPC_TIMEOUT"), U("RPC_ABORTED")];
    assert |UNCLASSIFIED| == 23 && |U("RPC_TIMEOUT")| == 11 && |U("RPC_ABORTED")| == 11;
    assert ERROR == SEVERITIES[2] && INSPECT == EXTRA_ACTIONS[1];
  }

  /** An unclassified failure can always be made; its attributes are fixed, its details what is known of stage and class. */
  lemma UnclassifiedKnown(c: Contract, stage: Text, errorClass: Option<Text>)
    requires Lawful(c)
    ensures UnclassifiedFailure(c, stage, errorClass) == Some(UnclassifiedMade(stage, errorClass))
    ensures Produced(c, UnclassifiedMade(stage, errorClass))
  {
    hide UnclassifiedDetails, UnclassifiedOutput, TakesAgain, TakesStorable, AttributesAllowed, Chosen, Size, BudgetIssues, InBudget, Store, Produced, Denotes,
      UnclassifiedInput, WellFormedPolicy;
    InputStorable(stage, errorClass);
    FreshDenotes(UnclassifiedInput(stage, errorClass));
    var input := Fresh(UnclassifiedInput(stage, errorClass));
    var details := UnclassifiedOutput(stage, errorClass);
    OutputShape(stage, errorClass);
    UnclassifiedBudget(details);
    BudgetIff(details, 0, SHORT);
    UnclassifiedAttributes(c);
    InputIsObject(input.heap, input.value, stage, errorClass);
    MessageShort(c);
    KnownProduced(c, StrV(UNCLASSIFIED), StrV(UNCLASSIFIED_REASON), input.heap, input.value, NO_ATTRIBUTES);
  }

  lemma InputIsObject(h: Heap, v: Value, stage: Text, errorClass: Option<Text>)
    requires Denotes(h, v, UnclassifiedInput(stage, errorClass))
    ensures v.Ref?
  {}

  lemma MessageShort(c: Contract)
    requires Lawful(c)
    ensures Bytes(UNCLASSIFIED_MESSAGE) <= LONG && WellFormedPolicy(c.table, UnclassifiedPolicy())
  {
    hide Bytes;
    BytesWithinUnits(UNCLASSIFIED_MESSAGE);
  }

  // ---------------------------------------------------------------------------------------------
  // Envelopes

  function FailureEnvelope(c: Contract, requestId: Text, h: Heap, failure: Value): Option<Envelope>
    requires Lawful(c)
  {
    if Bytes(requestId) > SHORT then None
    else
      var error :- FailureFromData(c, h, failure);
      DataProduced(c, h, failure);
      if !IsRecovery(PolicyOf(c, error.reasonCode)) && !EnvelopeFits(Envelope(requestId, error)) then None
      else Some(Envelope(requestId, error))
  }

  // The envelope of a failure the contract has just made.
  function FreshEnvelope(c: Contract, requestId: Text, f: Failure): Option<Envelope>
    requires Lawful(c) && Produced(c, f)
  {
    ProducedStorable(c, f);
    FailureEnvelope(c, requestId, Fresh(FailureJson(f)).heap, Fresh(FailureJson(f)).value)
  }

  lemma ProducedStorable(c: Contract, f: Failure)
    requires Lawful(c) && Produced(c, f)
    ensures Storable(FailureJson(f))
  {
    hide AttributesAllowed, Chosen, BudgetIssues, InBudget, Size, Bytes, WellFormedPolicy, Storable;
    BudgetIff(f.details, 0, StringLimit(PolicyOf(c, f.reasonCode)));
    assert Storable(f.details);
    FailureStorable(f);
  }

  lemma FailureStorable(f: Failure)
    requires Storable(f.details)
    ensures Storable(FailureJson(f))
  {
    var members := FailureHead(f) + [Member(DETAILS, f.details)];
    assert |CODE| == 4 && |MESSAGE| == 7 && |SEVERITY| == 8 && |RETRYABLE| == 9 && |ACTION| == 6 && |REASON_CODE| == 10;
    assert |DETAILS| == 7 && MESSAGE[0] != DETAILS[0];
    forall i | 0 <= i < 7 ensures members[i].key == FIELDS[i] {}
    forall i, j | 0 <= i < j < 7 ensures FIELDS[i] != FIELDS[j] {}
  }

  function ToEnvelope(c: Contract, requestId: Text, h: Heap, thrown: Thrown, stage: Text): Option<Envelope>
    requires Lawful(c)
  {
    var first := FirstEnvelope(c, requestId, h, thrown, stage);
    if first.Some? then first
    else
      UnclassifiedKnown(c, METADATA, None);
      FreshEnvelope(c, requestId, UnclassifiedFailure(c, METADATA, None).value)
  }

  function FirstEnvelope(c: Contract, requestId: Text, h: Heap, thrown: Thrown, stage: Text): Option<Envelope>
    requires Lawful(c)
  {
    match thrown
    case FailureThrown(error) =>
      var failure :- Read(h, error, FAILURE);
      FailureEnvelope(c, requestId, h, failure)
    case _ =>
      var errorClass := ClassOf(thrown);
      UnclassifiedKnown(c, stage, errorClass);
      FreshEnvelope(c, requestId, UnclassifiedFailure(c, stage, errorClass).value)
  }

  datatype Normalized = Same(value: Value) | Enveloped(envelope: Envelope)

  function NormalizeFailureResult(c: Contract, h: Heap, result: Value, requestId: Text): Option<Normalized>
    requires Lawful(c)
  {
    if !IsRecord(h, result) then Some(Same(result))
    else
      var ok := Read(h, result, OK);
      if ok.Some? && ok.value != BoolV(false) then Some(Same(result))
      else
        var direct := if ok.None? then None else NormalizedError(c, h, result, requestId);
        var envelope :- if direct.Some? then direct else ToEnvelope(c, requestId, h, NothingThrown, METADATA);
        Some(Enveloped(envelope))
  }

  function NormalizedError(c: Contract, h: Heap, result: Value, requestId: Text): Option<Envelope>
    requires Lawful(c)
  {
    var error :- Read(h, result, ERROR);
    var failure :- FailureFromData(c, h, error);
    DataProduced(c, h, error);
    FreshEnvelope(c, requestId, failure)
  }

  // ---------------------------------------------------------------------------------------------
  // Main results

  /** What every envelope promises: the request it answers, a failure of the contract, and the budget. */
  ghost predicate Sound(c: Contract, requestId: Text, e: Envelope)
    requires Lawful(c)
  {
    && e.requestId == requestId && Produced(c, e.error)
    && (forall g: Heap, v: Value :: Denotes(g, v, FailureJson(e.error)) ==> FailureIssues(c, g, v) == [])
    && (IsRecovery(PolicyOf(c, e.error.reasonCode)) || EnvelopeFits(e))
  }

  lemma EnvelopeSound(c: Contract, requestId: Text, h: Heap, failure: Value)
    requires Lawful(c) && FailureEnvelope(c, requestId, h, failure).Some?
    ensures Bytes(requestId) <= SHORT && Sound(c, requestId, FailureEnvelope(c, requestId, h, failure).value)
  {
    hide FailureFromData, Produced, EnvelopeFits, Bytes, FailureIssues, Denotes, FailureJson;
    DataProduced(c, h, failure);
    var e := FailureEnvelope(c, requestId, h, failure).value;
    forall g: Heap, v: Value | Denotes(g, v, FailureJson(e.error)) ensures FailureIssues(c, g, v) == [] {
      ProducedHasNoIssues(c, e.error, g, v);
    }
  }

  // The unclassified failure has an envelope for every request id within the limit.
  lemma UnclassifiedEnvelope(c: Contract, requestId: Text, stage: Text, errorClass: Option<Text>)
    requires Lawful(c) && Bytes(requestId) <= SHORT
    ensures UnclassifiedFailure(c, stage, errorClass).Some? && Produced(c, UnclassifiedFailure(c, stage, errorClass).value)
    ensures FreshEnvelope(c, requestId, UnclassifiedFailure(c, stage, errorClass).value).Some?
  {
    hide UnclassifiedFailure, Produced, UnclassifiedDetails, EnvelopeFits, Bytes, FailureFromData, FailureJson, Fresh, Denotes,
      Storable, WellFormedPolicy;
    UnclassifiedKnown(c, stage, errorClass);
    OutputShape(stage, errorClass);
    var f := UnclassifiedFailure(c, stage, errorClass).value;
    ProducedStorable(c, f);
    FreshDenotes(FailureJson(f));
    FixedPoint(c, f, Fresh(FailureJson(f)).heap, Fresh(FailureJson(f)).value);
    UnclassifiedFits(f, requestId);
  }

  /** For every thrown value and every request id within the limit, and only those, there is an envelope, and it is sound. */
  lemma ToEnvelopeTotal(c: Contract, requestId: Text, h: Heap, thrown: Thrown, stage: Text)
    requires Lawful(c)
    ensures ToEnvelope(c, requestId, h, thrown, stage).Some? <==> Bytes(requestId) <= SHORT
    ensures ToEnvelope(c, requestId, h, thrown, stage).Some? ==> Sound(c, requestId, ToEnvelope(c, requestId, h, thrown, stage).value)
  {
    hide FailureEnvelope, Sound, Bytes, UnclassifiedFailure, Produced, UnclassifiedDetails, WellFormed, Read, FailureJson, Fresh;
    var errorClass := ClassOf(thrown);
    UnclassifiedKnown(c, METADATA, None);
    UnclassifiedKnown(c, stage, errorClass);
    if Bytes(requestId) <= SHORT { UnclassifiedEnvelope(c, requestId, METADATA, None); }
    FreshSound(c, requestId, UnclassifiedFailure(c, METADATA, None).value);
    FreshSound(c, requestId, UnclassifiedFailure(c, stage, errorClass).value);
    if thrown.FailureThrown? && Read(h, thrown.error, FAILURE).Some? &&
       FailureEnvelope(c, requestId, h, Read(h, thrown.error, FAILURE).value).Some?
    {
      EnvelopeSound(c, requestId, h, Read(h, thrown.error, FAILURE).value);
    }
  }

  lemma FreshSound(c: Contract, requestId: Text, f: Failure)
    requires Lawful(c) && Produced(c, f)
    ensures FreshEnvelope(c, requestId, f).Some? ==>
              Bytes(requestId) <= SHORT && Sound(c, requestId, FreshEnvelope(c, requestId, f).value)
  {
    hide FailureEnvelope, Sound, Bytes, Produced, WellFormed, FailureJson, Fresh;
    ProducedStorable(c, f);
    if FreshEnvelope(c, requestId, f).Some? {
      EnvelopeSound(c, requestId, Fresh(FailureJson(f)).heap, Fresh(FailureJson(f)).value);
    }
  }

  /** A result whose own ok is not false comes back as it is, whatever the request id; any other becomes a sound envelope. */
  lemma NormalizeTotal(c: Contract, h: Heap, result: Value, requestId: Text)
    requires Lawful(c)
    ensures var r := NormalizeFailureResult(c, h, result, requestId);
            var kept := !IsRecord(h, result) || (Read(h, result, OK).Some? && Read(h, result, OK).value != BoolV(false));
            && (kept <==> r == Some(Same(result)))
            && (!kept ==> (r.Some? <==> Bytes(requestId) <= SHORT))
            && (!kept && r.Some? ==> r.value.Enveloped? && Sound(c, requestId, r.value.envelope))
  {
    hide ToEnvelope, FreshEnvelope, FailureFromData, Sound, Bytes, Produced, WellFormed, Read;
    ToEnvelopeTotal(c, requestId, h, NothingThrown, METADATA);
    if IsRecord(h, result) && Read(h, result, ERROR).Some? {
      var error := Read(h, result, ERROR).value;
      if FailureFromData(c, h, error).Some? {
        DataProduced(c, h, error);
        FreshSound(c, requestId, FailureFromData(c, h, error).value);
      }
    }
  }

  // ---------------------------------------------------------------------------------------------
  // Which failure an envelope carries

  // The same failure, with native details possibly in another order.
  ghost predicate SameFailure(c: Contract, was: Failure, now: Failure) {
    was.reasonCode in c.table.policies && now == was.(details := now.details) &&
    SameDetails(PolicyOf(c, was.reasonCode), was.details, now.details)
  }

  // An envelope is refused for its request id or its size only.
  predicate EnvelopeAllowed(c: Contract, requestId: Text, f: Failure) {
    Bytes(requestId) <= SHORT && f.reasonCode in c.table.policies &&
    (IsRecovery(PolicyOf(c, f.reasonCode)) || EnvelopeFits(Envelope(requestId, f)))
  }

  lemma AllowedSame(c: Contract, requestId: Text, was: Failure, now: Failure)
    requires SameFailure(c, was, now)
    ensures EnvelopeAllowed(c, requestId, was) == EnvelopeAllowed(c, requestId, now)
  {
    hide Size, PrintedSize, EnvelopeJson, Bytes;
    if now.details != was.details {
      EnvelopePermuted(Envelope(requestId, was), was.details.members, now.details.members);
    }
  }

  /** The envelope of a failure the contract produced carries that failure, and exists whenever it is allowed. */
  lemma EnvelopeCarries(c: Contract, requestId: Text, f: Failure, h: Heap, v: Value)
    requires Lawful(c) && Produced(c, f) && Denotes(h, v, FailureJson(f))
    ensures var e := FailureEnvelope(c, requestId, h, v);
            (e.Some? <==> EnvelopeAllowed(c, requestId, f)) &&
            (e.Some? ==> e.value.requestId == requestId && SameFailure(c, f, e.value.error))
  {
    hide FailureFromData, Produced, EnvelopeFits, Bytes, FailureJson, Denotes, SameDetails;
    FixedPoint(c, f, h, v);
    ProducedNamed(c, f);
    AllowedSame(c, requestId, f, FailureFromData(c, h, v).value);
  }

  lemma FreshCarries(c: Contract, requestId: Text, f: Failure)
    requires Lawful(c) && Produced(c, f)
    ensures var e := FreshEnvelope(c, requestId, f);
            (e.Some? <==> EnvelopeAllowed(c, requestId, f)) &&
            (e.Some? ==> e.value.requestId == requestId && SameFailure(c, f, e.value.error))
  {
    hide FailureEnvelope, Produced, EnvelopeAllowed, SameFailure, FailureJson, Fresh;
    ProducedStorable(c, f);
    FreshDenotes(FailureJson(f));
    EnvelopeCarries(c, requestId, f, Fresh(FailureJson(f)).heap, Fresh(FailureJson(f)).value);
  }

  // The failure a surface should answer with: the thrown one where it is known, else what is known of the error.
  ghost predicate Answers(c: Contract, requestId: Text, h: Heap, thrown: Thrown, stage: Text, f: Failure)
    requires Lawful(c)
  {
    match thrown
    case FailureThrown(error) =>
      Produced(c, f) && Read(h, error, FAILURE).Some? && Denotes(h, Read(h, error, FAILURE).value, FailureJson(f))
    case OtherThrown(errorClass) => f == UnclassifiedMade(stage, Some(errorClass))
    case NothingThrown => f == UnclassifiedMade(stage, None)
  }

  /** A known failure reaches the caller when its envelope is allowed; otherwise the metadata failure does. */
  lemma ToEnvelopeCarries(c: Contract, requestId: Text, h: Heap, thrown: Thrown, stage: Text, f: Failure)
    requires Lawful(c) && Bytes(requestId) <= SHORT && Answers(c, requestId, h, thrown, stage, f)
    ensures ToEnvelope(c, requestId, h, thrown, stage).Some?
    ensures var error := ToEnvelope(c, requestId, h, thrown, stage).value.error;
            if EnvelopeAllowed(c, requestId, f) then SameFailure(c, f, error)
            else SameFailure(c, UnclassifiedMade(METADATA, None), error)
  {
    hide FailureEnvelope, FreshEnvelope, Bytes, UnclassifiedFailure, Produced, EnvelopeAllowed, SameFailure, WellFormed, Read,
      FailureJson, Denotes;
    UnclassifiedKnown(c, METADATA, None);
    UnclassifiedEnvelope(c, requestId, METADATA, None);
    FreshCarries(c, requestId, UnclassifiedMade(METADATA, None));
    match thrown {
      case FailureThrown(error) => EnvelopeCarries(c, requestId, f, h, Read(h, error, FAILURE).value);
      case _ =>
        UnclassifiedKnown(c, stage, ClassOf(thrown));
        FreshCarries(c, requestId, f);
    }
  }

  lemma SameFailureTrans(c: Contract, a: Failure, b: Failure, d: Failure)
    requires SameFailure(c, a, b) && SameFailure(c, b, d)
    ensures SameFailure(c, a, d)
  {}

  /** A failed result that holds a failure of the contract is answered with it when its envelope is allowed. */
  lemma NormalizeCarries(c: Contract, h: Heap, result: Value, requestId: Text, f: Failure)
    requires Lawful(c) && Bytes(requestId) <= SHORT && Read(h, result, OK) == Some(BoolV(false))
    requires Produced(c, f) && Read(h, result, ERROR).Some? && Denotes(h, Read(h, result, ERROR).value, FailureJson(f))
    ensures var r := NormalizeFailureResult(c, h, result, requestId);
            r.Some? && r.value.Enveloped? &&
            if EnvelopeAllowed(c, requestId, f) then SameFailure(c, f, r.value.envelope.error)
            else SameFailure(c, UnclassifiedMade(METADATA, None), r.value.envelope.error)
  {
    hide ToEnvelope, FreshEnvelope, FailureFromData, Bytes, Produced, SameFailure, EnvelopeAllowed, UnclassifiedFailure,
      FailureJson, Denotes;
    var error := Read(h, result, ERROR).value;
    RecordRead(h, result);
    ProducedNamed(c, f);
    FixedPoint(c, f, h, error);
    DataProduced(c, h, error);
    var again := FailureFromData(c, h, error).value;
    SameFrom(c, f, again);
    FreshCarries(c, requestId, again);
    AllowedSame(c, requestId, f, again);
    UnclassifiedKnown(c, METADATA, None);
    ToEnvelopeCarries(c, requestId, h, NothingThrown, METADATA, UnclassifiedMade(METADATA, None));
    if EnvelopeAllowed(c, requestId, f) {
      SameFailureTrans(c, f, again, FreshEnvelope(c, requestId, again).value.error);
    }
  }

  lemma RecordRead(h: Heap, result: Value)
    requires Read(h, result, OK) == Some(BoolV(false))
    ensures IsRecord(h, result)
  {}

  lemma SameFrom(c: Contract, f: Failure, again: Failure)
    requires Lawful(c) && Produced(c, f) && again == f.(details := again.details)
    requires f.reasonCode in c.table.policies && SameDetails(PolicyOf(c, f.reasonCode), f.details, again.details)
    ensures SameFailure(c, f, again)
  {}

  // The failure an envelope is asked to carry, or the metadata failure where it cannot.
  ghost predicate CarriesOr(c: Contract, requestId: Text, failure: Option<Failure>, e: Envelope) {
    if failure.Some? && EnvelopeAllowed(c, requestId, failure.value) then SameFailure(c, failure.value, e.error)
    else SameFailure(c, UnclassifiedMade(METADATA, None), e.error)
  }

  // What an object holds under a key, read as a failure.
  function HeldFailure(c: Contract, h: Heap, holder: Value, key: Text): Option<Failure>
    requires WellFormed(c.table)
  {
    var held :- Read(h, holder, key);
    FailureFromData(c, h, held)
  }

  lemma MetadataCarried(c: Contract, requestId: Text, h: Heap)
    requires Lawful(c) && Bytes(requestId) <= SHORT
    ensures var f := UnclassifiedMade(METADATA, None);
            && UnclassifiedFailure(c, METADATA, None) == Some(f) && Produced(c, f)
            && FreshEnvelope(c, requestId, f).Some? && SameFailure(c, f, FreshEnvelope(c, requestId, f).value.error)
            && ToEnvelope(c, requestId, h, NothingThrown, METADATA) == FreshEnvelope(c, requestId, f)
  {
    hide FailureEnvelope, FreshEnvelope, Bytes, UnclassifiedFailure, Produced, EnvelopeAllowed, SameFailure, WellFormed;
    UnclassifiedKnown(c, METADATA, None);
    UnclassifiedEnvelope(c, requestId, METADATA, None);
    FreshCarries(c, requestId, UnclassifiedMade(METADATA, None));
  }

  /** A thrown failure is carried as it is read when it can be; whatever else the error holds, the metadata failure is. */
  lemma ThrownCarried(c: Contract, requestId: Text, h: Heap, error: Value, stage: Text)
    requires Lawful(c) && Bytes(requestId) <= SHORT
    ensures var e := ToEnvelope(c, requestId, h, FailureThrown(error), stage);
            e.Some? && CarriesOr(c, requestId, HeldFailure(c, h, error, FAILURE), e.value)
  {
    hide FreshEnvelope, Bytes, UnclassifiedFailure, Produced, SameFailure, WellFormed, Read, FailureFromData, EnvelopeFits;
    MetadataCarried(c, requestId, h);
    if HeldFailure(c, h, error, FAILURE).Some? {
      var failure := Read(h, error, FAILURE).value;
      DataProduced(c, h, failure);
      var f := HeldFailure(c, h, error, FAILURE).value;
      ProducedNamed(c, f);
      SameSelf(c, f);
    }
  }

  lemma SameSelf(c: Contract, f: Failure)
    requires f.reasonCode in c.table.policies
    ensures SameFailure(c, f, f)
  {}

  /** A failed result is answered with the failure it holds, when it can be carried, and otherwise with the metadata failure. */
  lemma NormalizeAnswers(c: Contract, h: Heap, result: Value, requestId: Text)
    requires Lawful(c) && Bytes(requestId) <= SHORT
    requires IsRecord(h, result) && (Read(h, result, OK).None? || Read(h, result, OK) == Some(BoolV(false)))
    ensures var r := NormalizeFailureResult(c, h, result, requestId);
            r.Some? && r.value.Enveloped? &&
            CarriesOr(c, requestId, if Read(h, result, OK).Some? then HeldFailure(c, h, result, ERROR) else None, r.value.envelope)
  {
    hide ToEnvelope, FreshEnvelope, FailureFromData, Bytes, Produced, SameFailure, EnvelopeAllowed, UnclassifiedFailure, Read, WellFormed;
    MetadataCarried(c, requestId, h);
    if Read(h, result, OK).Some? && HeldFailure(c, h, result, ERROR).Some? {
      var error := Read(h, result, ERROR).value;
      DataProduced(c, h, error);
      FreshCarries(c, requestId, FailureFromData(c, h, error).value);
    }
  }
}
