/** The closed failure contract: packages/contracts/src/failure.ts, knownFailure and failureFromData. */
module FailureContract {
  import opened Options
  import opened JsonText
  import opened JsonFacts
  import opened JsHeap
  import opened JsAllocation
  import opened PrettyJson
  import opened FailureModel
  import opened FailureEnvelopes
  import opened PolicyDetails
  import opened DetailsBudget
  import ProjectionRecovery

  /** A table, and the way its policies take details from caller data. */
  datatype Contract = Contract(table: Table, take: (Text, Heap, Value) -> Option<Json>)

  function PolicyOf(c: Contract, reason: Text): Policy
    requires reason in c.table.policies
  {
    c.table.policies[reason]
  }

  // ---------------------------------------------------------------------------------------------
  // What taking details promises. RealContract shows that every well-formed table keeps these promises.

  // Details are records.
  ghost predicate TakesRecords(c: Contract) {
    forall reason, h, v :: c.take(reason, h, v).Some? ==> c.take(reason, h, v).value.Obj?
  }

  // Details taken from details are the same details.
  ghost predicate TakesAgain(c: Contract) {
    forall reason, h, v, g, w ::
      reason in c.table.policies && c.take(reason, h, v).Some? && Denotes(g, w, c.take(reason, h, v).value) &&
      (IsRecovery(PolicyOf(c, reason)) || InBudget(c.take(reason, h, v).value, 0, StringLimit(PolicyOf(c, reason)))) ==>
        c.take(reason, g, w).Some? &&
        SameDetails(PolicyOf(c, reason), c.take(reason, h, v).value, c.take(reason, g, w).value)
  }

  // A fresh object can hold them.
  ghost predicate TakesStorable(c: Contract) {
    forall reason, h, v ::
      reason in c.table.policies && c.take(reason, h, v).Some? &&
      (IsRecovery(PolicyOf(c, reason)) || InBudget(c.take(reason, h, v).value, 0, StringLimit(PolicyOf(c, reason)))) ==>
        Storable(c.take(reason, h, v).value)
  }

  // Recovery authority fits its own budget.
  ghost predicate TakesFitting(c: Contract) {
    forall reason, h, v ::
      reason in c.table.policies && IsRecovery(PolicyOf(c, reason)) && c.take(reason, h, v).Some? ==>
        Size(c.take(reason, h, v).value) <= ProjectionRecovery.LIMIT_BYTES
  }

  // Of an unclassified failure what is known is kept.
  ghost predicate TakesUnclassified(c: Contract) {
    forall stage, errorClass, h, v ::
      Denotes(h, v, UnclassifiedInput(stage, errorClass)) ==>
        c.take(UNCLASSIFIED_REASON, h, v) == Some(UnclassifiedOutput(stage, errorClass))
  }

  // All empty records are alike.
  ghost predicate TakesEmpty(c: Contract) {
    forall reason, h, v, g, w ::
      reason in c.table.policies && Denotes(h, v, Obj([])) && Denotes(g, w, Obj([])) ==>
        c.take(reason, h, v) == c.take(reason, g, w)
  }

  /** The contracts every result below is about. */
  ghost predicate Lawful(c: Contract) {
    WellFormed(c.table) && TakesRecords(c) && TakesAgain(c) && TakesStorable(c) && TakesFitting(c) && TakesUnclassified(c) &&
    TakesEmpty(c)
  }

  // ---------------------------------------------------------------------------------------------
  // Attributes

  datatype Attributes = Attributes(action: Value, severity: Value, retryable: Value)

  const NO_ATTRIBUTES := Attributes(Undefined, Undefined, Undefined)
  const SEVERITIES: seq<Text> := [U("notice"), U("warning"), U("error"), U("critical")]
  const EXTRA_ACTIONS: seq<Text> := [
    U("correct-command-arguments"), INSPECT, RECONCILE, U("install-compatible-codegraph")]

  function Catalog(c: Table, policy: Policy): Defaults
    requires policy.code in c.catalog || policy.code in TRANSPORT_CODES
  {
    if policy.code in TRANSPORT_CODES then Defaults(ERROR, false, RECONCILE) else c.catalog[policy.code]
  }

  predicate ActionKnown(c: Table, action: Text) {
    || action in EXTRA_ACTIONS
    || (exists code :: code in c.catalog && c.catalog[code].action == action)
    || (exists reason :: reason in c.policies && c.policies[reason].action == Some(action))
  }

  predicate AttributesAllowed(c: Table, policy: Policy, action: Text, severity: Text, retryable: bool)
    requires policy.code in c.catalog || policy.code in TRANSPORT_CODES
  {
    && ActionKnown(c, action) && severity in SEVERITIES
    && (policy.code in TRANSPORT_CODES ==> !retryable)
    && (policy.code == UNCLASSIFIED ==> action == INSPECT && severity == ERROR && !retryable)
    && (IsRecovery(policy) ==> Catalog(c, policy) == Defaults(severity, retryable, action))
  }

  predicate WithinDetailsBudget(policy: Policy, details: Json) {
    BudgetIssues(details, 0, StringLimit(policy)) == [] && Size(details) <= DETAILS_LIMIT && Bytes(policy.message) <= LONG
  }

  function Chosen(c: Table, policy: Policy, a: Attributes): (Text, Text, bool)
    requires policy.code in c.catalog || policy.code in TRANSPORT_CODES
  {
    var base := Catalog(c, policy);
    (if a.action.StrV? then a.action.text else if policy.action.Some? then policy.action.value else base.action,
     if a.severity.StrV? then a.severity.text else base.severity,
     if a.retryable.BoolV? then a.retryable.flag else if policy.retryable.Some? then policy.retryable.value else base.retryable)
  }

  predicate AttributeTypes(a: Attributes) {
    (a.action.Undefined? || a.action.StrV?) && (a.severity.Undefined? || a.severity.StrV?) &&
    (a.retryable.Undefined? || a.retryable.BoolV?)
  }

  // The failure a policy makes of its details and attributes.
  function PolicyFailure(c: Contract, reason: Text, h: Heap, details: Value, a: Attributes): Option<Failure>
    requires reason in c.table.policies && WellFormedPolicy(c.table, PolicyOf(c, reason))
  {
    var policy := PolicyOf(c, reason);
    var (action, severity, retryable) := Chosen(c.table, policy, a);
    if !AttributesAllowed(c.table, policy, action, severity, retryable) then None
    else
      var safe :- c.take(reason, h, details);
      if !IsRecovery(policy) && !WithinDetailsBudget(policy, safe) then None
      else Some(Failure(policy.code, policy.message, severity, retryable, action, reason, safe))
  }

  function KnownFailure(c: Contract, code: Value, reason: Value, h: Heap, details: Value, a: Attributes): Option<Failure>
    requires WellFormed(c.table)
  {
    if !code.StrV? || !reason.StrV? || !AttributeTypes(a) then None
    else if reason.text !in c.table.policies || PolicyOf(c, reason.text).code != code.text then None
    else if details.Undefined? then
      var empty := Fresh(Obj([]));
      PolicyFailure(c, reason.text, empty.heap, empty.value, a)
    else PolicyFailure(c, reason.text, h, details, a)
  }

  function FailureFromData(c: Contract, h: Heap, input: Value): Option<Failure>
    requires WellFormed(c.table)
  {
    var code :- Read(h, input, CODE);
    var reason :- Read(h, input, REASON_CODE);
    var details :- Read(h, input, DETAILS);
    var action :- Read(h, input, ACTION);
    var severity :- Read(h, input, SEVERITY);
    var retryable :- Read(h, input, RETRYABLE);
    KnownFailure(c, code, reason, h, details, Attributes(action, severity, retryable))
  }

  // What was asked for, else the first default there is.
  function First<T>(asked: Option<T>, policy: Option<T>, catalog: T): T {
    if asked.Some? then asked.value else if policy.Some? then policy.value else catalog
  }

  /** A failure carries its policy's code and message; what the caller asks for wins over policy, and policy over catalog. */
  lemma KnownFields(c: Contract, code: Value, reason: Value, h: Heap, details: Value, a: Attributes)
    requires WellFormed(c.table) && KnownFailure(c, code, reason, h, details, a).Some?
    ensures var f := KnownFailure(c, code, reason, h, details, a).value;
            && code == StrV(f.code) && reason == StrV(f.reasonCode) && f.reasonCode in c.table.policies
            && var policy := PolicyOf(c, f.reasonCode);
               var base := Catalog(c.table, policy);
            && f.code == policy.code && f.message == policy.message
            && f.action == First(if a.action.StrV? then Some(a.action.text) else None, policy.action, base.action)
            && f.severity == First(if a.severity.StrV? then Some(a.severity.text) else None, None, base.severity)
            && f.retryable == First(if a.retryable.BoolV? then Some(a.retryable.flag) else None, policy.retryable, base.retryable)
            && f.severity in SEVERITIES && ActionKnown(c.table, f.action) && (f.code in TRANSPORT_CODES ==> !f.retryable)
            && (f.code == UNCLASSIFIED ==> f.action == INSPECT && f.severity == ERROR && !f.retryable)
            && (IsRecovery(policy) ==> base == Defaults(f.severity, f.retryable, f.action))
  {
    hide ActionKnown, WithinDetailsBudget, Catalog, WellFormedPolicy, UnclassifiedPolicy, Fresh;
  }

  // The actions the contract knows.
  function Actions(t: Table): set<Text> {
    {U("correct-command-arguments"), U("inspect-diagnostics"), U("reconcile-before-retry"), U("install-compatible-codegraph")}
    + (set code | code in t.catalog :: t.catalog[code].action)
    + (set reason | reason in t.policies && t.policies[reason].action.Some? :: t.policies[reason].action.value)
  }

  lemma ActionsKnown(t: Table, action: Text)
    ensures ActionKnown(t, action) <==> action in Actions(t)
  {}

  // A required fact may be long: a text up to 1024 bytes, or a list of texts longer than 256.
  predicate LongFact(policy: Policy) {
    match policy.kind
    case Facts(schema) =>
      exists i :: 0 <= i < |schema| && !schema[i].optional &&
                  (match schema[i].rule
                   case LongWord(_, _) => true
                   case Words(_, limit, _) => limit > 256
                   case _ => false)
    case _ => false
  }

  // The details a failure of the policy can carry.
  predicate CarriesDetails(policy: Policy, details: Json) {
    match policy.kind
    case Recovery => true
    case JournalRecovery => true
    case _ => InBudget(details, 0, if LongFact(policy) then 1024 else 256) && Size(details) <= 8192
  }

  lemma CarriesIff(policy: Policy, details: Json)
    ensures CarriesDetails(policy, details) <==>
            IsRecovery(policy) || (InBudget(details, 0, StringLimit(policy)) && Size(details) <= DETAILS_LIMIT)
  {
    hide InBudget, Size;
  }

  predicate HasDefaults(t: Table, code: Text) { code in t.catalog || code == U("RPC_TIMEOUT") || code == U("RPC_ABORTED") }

  // The defaults of a code.
  function DefaultsOf(t: Table, code: Text): Defaults
    requires HasDefaults(t, code)
  {
    if code == U("RPC_TIMEOUT") || code == U("RPC_ABORTED") then Defaults(U("error"), false, U("reconcile-before-retry"))
    else t.catalog[code]
  }

  // What a policy allows its caller to ask for, its defaults filled in.
  predicate MayCarry(t: Table, policy: Policy, action: Text, severity: Text, retryable: bool)
    requires HasDefaults(t, policy.code)
  {
    && action in Actions(t) && severity in [U("notice"), U("warning"), U("error"), U("critical")]
    && (policy.code == U("RPC_TIMEOUT") || policy.code == U("RPC_ABORTED") ==> !retryable)
    && (policy.code == UNCLASSIFIED ==> action == U("inspect-diagnostics") && severity == U("error") && !retryable)
    && (policy.kind.Recovery? || policy.kind.JournalRecovery? ==>
          DefaultsOf(t, policy.code) == Defaults(severity, retryable, action))
  }

  lemma MayCarryIff(t: Table, policy: Policy, action: Text, severity: Text, retryable: bool)
    requires policy.code in t.catalog || policy.code in TRANSPORT_CODES
    ensures HasDefaults(t, policy.code)
    ensures Catalog(t, policy) == DefaultsOf(t, policy.code)
    ensures AttributesAllowed(t, policy, action, severity, retryable) <==> MayCarry(t, policy, action, severity, retryable)
  {
    hide ActionKnown, Actions;
    ActionsKnown(t, action);
  }

  /** A call returns a failure exactly for a registered pair, attributes the policy allows, and details taken within budget. */
  lemma KnownIff(c: Contract, code: Text, reason: Text, h: Heap, details: Value, a: Attributes)
    requires WellFormed(c.table) && !details.Undefined?
    ensures KnownFailure(c, StrV(code), StrV(reason), h, details, a).Some? <==>
            && reason in c.table.policies && PolicyOf(c, reason).code == code
            && (a.action.Undefined? || a.action.StrV?) && (a.severity.Undefined? || a.severity.StrV?)
            && (a.retryable.Undefined? || a.retryable.BoolV?)
            && HasDefaults(c.table, code)
            && var policy := PolicyOf(c, reason);
               var base := DefaultsOf(c.table, code);
               var action := First(if a.action.StrV? then Some(a.action.text) else None, policy.action, base.action);
               var severity := First(if a.severity.StrV? then Some(a.severity.text) else None, None, base.severity);
               var retryable := First(if a.retryable.BoolV? then Some(a.retryable.flag) else None, policy.retryable, base.retryable);
            && MayCarry(c.table, policy, action, severity, retryable)
            && c.take(reason, h, details).Some?
            && CarriesDetails(policy, c.take(reason, h, details).value)
    ensures KnownFailure(c, StrV(code), StrV(reason), h, details, a).Some? ==>
              Some(KnownFailure(c, StrV(code), StrV(reason), h, details, a).value.details) == c.take(reason, h, details)
  {
    hide AttributesAllowed, InBudget, Size, WellFormedPolicy, Catalog, WithinDetailsBudget, MayCarry, DefaultsOf, HasDefaults,
      CarriesDetails, StringLimit;
    if reason in c.table.policies {
      var policy := PolicyOf(c, reason);
      KnownCode(c, reason);
      var (action, severity, retryable) := Chosen(c.table, policy, a);
      MayCarryIff(c.table, policy, action, severity, retryable);
      if c.take(reason, h, details).Some? {
        WithinIff(c, reason, c.take(reason, h, details).value);
        CarriesIff(policy, c.take(reason, h, details).value);
      }
    }
  }

  lemma KnownCode(c: Contract, reason: Text)
    requires WellFormed(c.table) && reason in c.table.policies
    ensures PolicyOf(c, reason).code in c.table.catalog || PolicyOf(c, reason).code in TRANSPORT_CODES
  {}

  lemma WithinIff(c: Contract, reason: Text, details: Json)
    requires WellFormed(c.table) && reason in c.table.policies
    ensures WithinDetailsBudget(PolicyOf(c, reason), details) <==>
            InBudget(details, 0, StringLimit(PolicyOf(c, reason))) && Size(details) <= DETAILS_LIMIT
  {
    hide InBudget, BudgetIssues, Size, Bytes;
    BudgetIff(details, 0, StringLimit(PolicyOf(c, reason)));
    MessageWithin(c, reason);
  }

  lemma MessageWithin(c: Contract, reason: Text)
    requires WellFormed(c.table) && reason in c.table.policies
    ensures Bytes(PolicyOf(c, reason).message) <= LONG
  {
    BytesWithinUnits(PolicyOf(c, reason).message);
  }

  /** Details that are left out are an empty record. */
  lemma DetailsDefault(c: Contract, code: Value, reason: Value, h: Heap, a: Attributes, g: Heap, w: Value)
    requires Lawful(c) && Denotes(g, w, Obj([]))
    ensures KnownFailure(c, code, reason, h, Undefined, a) == KnownFailure(c, code, reason, g, w, a)
  {
    hide AttributesAllowed, Chosen, WithinDetailsBudget, WellFormedPolicy, TakesAgain, TakesStorable, TakesUnclassified, TakesRecords,
      TakesFitting, Fresh;
    FreshDenotes(Obj([]));
    EmptyReference(g, w);
  }

  lemma EmptyReference(g: Heap, w: Value)
    requires Denotes(g, w, Obj([]))
    ensures w.Ref?
  {}

  // ---------------------------------------------------------------------------------------------
  // What the contract produces is produced again from itself

  /** A failure some call of the contract returns. */
  ghost predicate Produced(c: Contract, f: Failure)
    requires WellFormed(c.table)
  {
    exists h, details, a ::
      f.reasonCode in c.table.policies && PolicyFailure(c, f.reasonCode, h, details, a) == Some(f)
  }

  lemma KnownProduced(c: Contract, code: Value, reason: Value, h: Heap, details: Value, a: Attributes)
    requires WellFormed(c.table) && KnownFailure(c, code, reason, h, details, a).Some?
    ensures Produced(c, KnownFailure(c, code, reason, h, details, a).value)
  {
    hide AttributesAllowed, Chosen, WithinDetailsBudget, WellFormedPolicy;
  }

  lemma DataProduced(c: Contract, h: Heap, input: Value)
    requires WellFormed(c.table) && FailureFromData(c, h, input).Some?
    ensures Produced(c, FailureFromData(c, h, input).value)
  {
    hide KnownFailure, Produced, Read;
    KnownProduced(c, Read(h, input, CODE).value, Read(h, input, REASON_CODE).value, h, Read(h, input, DETAILS).value,
      Attributes(Read(h, input, ACTION).value, Read(h, input, SEVERITY).value, Read(h, input, RETRYABLE).value));
  }

  lemma BudgetAgain(policy: Policy, was: Json, now: Json)
    requires WithinDetailsBudget(policy, was) && SameDetails(policy, was, now)
    ensures WithinDetailsBudget(policy, now)
  {
    hide Size, BudgetIssues, InBudget, Bytes;
    if now != was {
      BudgetIff(was, 0, StringLimit(policy));
      BudgetIff(now, 0, StringLimit(policy));
      BudgetPermuted(was.members, now.members, 0, StringLimit(policy));
      SizesPermuted(was.members, now.members, 0);
    }
  }

  /** What a produced failure keeps to, unless it carries recovery authority. */
  lemma ProducedInBudget(c: Contract, f: Failure)
    requires Lawful(c) && Produced(c, f)
    ensures f.reasonCode in c.table.policies
    ensures var policy := PolicyOf(c, f.reasonCode);
            !IsRecovery(policy) ==>
              f.details.Obj? && InBudget(f.details, 0, StringLimit(policy)) && Size(f.details) <= DETAILS_LIMIT
  {
    hide AttributesAllowed, Chosen, BudgetIssues, InBudget, Size, Bytes, WellFormedPolicy;
    BudgetIff(f.details, 0, StringLimit(PolicyOf(c, f.reasonCode)));
  }

  function OwnAttributes(f: Failure): Attributes { Attributes(StrV(f.action), StrV(f.severity), BoolV(f.retryable)) }

  /** A produced failure is produced again from its own fields and any plain data that denotes its details. */
  lemma PolicyAgain(c: Contract, f: Failure, g: Heap, w: Value)
    requires Lawful(c) && Produced(c, f) && Denotes(g, w, f.details)
    ensures var again := KnownFailure(c, StrV(f.code), StrV(f.reasonCode), g, w, OwnAttributes(f));
            again.Some? && again.value == f.(details := again.value.details) &&
            c.take(f.reasonCode, g, w) == Some(again.value.details) &&
            SameDetails(PolicyOf(c, f.reasonCode), f.details, again.value.details)
  {
    hide ActionKnown, WithinDetailsBudget, WellFormedPolicy, InBudget, SameDetails;
    ProducedInBudget(c, f);
    var policy := PolicyOf(c, f.reasonCode);
    assert c.take(f.reasonCode, g, w).Some? && SameDetails(policy, f.details, c.take(f.reasonCode, g, w).value);
    IsReference(c, f, g, w);
    if !IsRecovery(policy) { BudgetAgain(policy, f.details, c.take(f.reasonCode, g, w).value); }
  }

  lemma IsReference(c: Contract, f: Failure, g: Heap, w: Value)
    requires Lawful(c) && Produced(c, f) && Denotes(g, w, f.details)
    ensures w.Ref?
  {
    hide ActionKnown, WithinDetailsBudget, WellFormedPolicy;
  }

  // What is read from plain data holding a failure.
  lemma ReadFailure(g: Heap, v: Value, f: Failure)
    requires Denotes(g, v, FailureJson(f))
    ensures Read(g, v, CODE) == Some(StrV(f.code)) && Read(g, v, MESSAGE) == Some(StrV(f.message))
    ensures Read(g, v, SEVERITY) == Some(StrV(f.severity)) && Read(g, v, RETRYABLE) == Some(BoolV(f.retryable))
    ensures Read(g, v, ACTION) == Some(StrV(f.action)) && Read(g, v, REASON_CODE) == Some(StrV(f.reasonCode))
    ensures Read(g, v, DETAILS).Some? && Denotes(g, Read(g, v, DETAILS).value, f.details)
  {
    hide Read, Denotes, Find;
    var members := FailureHead(f) + [Member(DETAILS, f.details)];
    forall i | 0 <= i < 7
      ensures Read(g, v, members[i].key).Some? && Denotes(g, Read(g, v, members[i].key).value, members[i].value)
    {
      DenotedField(g, v, members, i);
    }
    assert members[0] == Member(CODE, Str(f.code)) && members[1] == Member(MESSAGE, Str(f.message));
    assert members[2] == Member(SEVERITY, Str(f.severity)) && members[3] == Member(RETRYABLE, Bool(f.retryable));
    assert members[4] == Member(ACTION, Str(f.action)) && members[5] == Member(REASON_CODE, Str(f.reasonCode));
    assert members[6] == Member(DETAILS, f.details);
    ScalarsRead(g, Read(g, v, CODE).value, Str(f.code));
    ScalarsRead(g, Read(g, v, MESSAGE).value, Str(f.message));
    ScalarsRead(g, Read(g, v, SEVERITY).value, Str(f.severity));
    ScalarsRead(g, Read(g, v, RETRYABLE).value, Bool(f.retryable));
    ScalarsRead(g, Read(g, v, ACTION).value, Str(f.action));
    ScalarsRead(g, Read(g, v, REASON_CODE).value, Str(f.reasonCode));
  }

  lemma ScalarsRead(g: Heap, v: Value, j: Json)
    requires Denotes(g, v, j)
    ensures j.Str? ==> v == StrV(j.text)
    ensures j.Bool? ==> v == BoolV(j.flag)
  {}

  /** Every produced failure is a fixed point: data that denotes it gives it back, native fields up to their order. */
  lemma FixedPoint(c: Contract, f: Failure, g: Heap, v: Value)
    requires Lawful(c) && Produced(c, f) && Denotes(g, v, FailureJson(f))
    ensures Read(g, v, DETAILS).Some? && Denotes(g, Read(g, v, DETAILS).value, f.details)
    ensures var again := FailureFromData(c, g, v);
            again.Some? && again.value == f.(details := again.value.details) &&
            c.take(f.reasonCode, g, Read(g, v, DETAILS).value) == Some(again.value.details) &&
            SameDetails(PolicyOf(c, f.reasonCode), f.details, again.value.details)
  {
    hide Read, KnownFailure, Produced, SameDetails, Denotes, WellFormed, TakesAgain, TakesRecords, TakesStorable, TakesUnclassified;
    ReadFailure(g, v, f);
    PolicyAgain(c, f, g, Read(g, v, DETAILS).value);
  }
}
