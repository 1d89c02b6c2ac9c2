/** When a call of knownFailure returns a failure, and which: packages/contracts/src/failure.ts, lines 726-759. */
module CallOutcome {
  import opened Options
  import opened JsonText
  import opened JsHeap
  import opened FailureModel
  import opened FailureEnvelopes
  import opened PolicyDetails
  import opened FailureContract
  import opened RealContract
  import opened DetailsTaken

  // What was asked for, if anything.
  function AskedText(v: Value): Option<Text> { if v.StrV? then Some(v.text) else None }

  function AskedFlag(v: Value): Option<bool> { if v.BoolV? then Some(v.flag) else None }

  /** The failure f answers the call. */
  ghost predicate Outcome(t: Table, code: Text, reason: Text, h: Heap, details: Value, a: Attributes, f: Failure) {
    reason in t.policies && t.policies[reason].code == code && HasDefaults(t, code) &&
    var policy := t.policies[reason];
    var base := DefaultsOf(t, code);
    && (a.action.Undefined? || a.action.StrV?) && (a.severity.Undefined? || a.severity.StrV?)
    && (a.retryable.Undefined? || a.retryable.BoolV?)
    && f.code == code && f.reasonCode == reason && f.message == policy.message
    && f.action == First(AskedText(a.action), policy.action, base.action)
    && f.severity == First(AskedText(a.severity), None, base.severity)
    && f.retryable == First(AskedFlag(a.retryable), policy.retryable, base.retryable)
    && MayCarry(t, policy, f.action, f.severity, f.retryable)
    && Means(t, reason, policy, h, details, f.details)
    && CarriesDetails(policy, f.details)
  }

  lemma CallAnswers(c: Contract, code: Text, reason: Text, h: Heap, details: Value, a: Attributes, f: Failure)
    requires WellFormed(c.table) && ByTable(c) && !details.Undefined?
    requires KnownFailure(c, StrV(code), StrV(reason), h, details, a) == Some(f)
    ensures Outcome(c.table, code, reason, h, details, a, f)
  {
    hide KnownFailure, Means, MayCarry, CarriesDetails, WellFormedPolicy, ActionKnown, Details, Catalog, DefaultsOf, HasDefaults;
    KnownIff(c, code, reason, h, details, a);
    KnownFields(c, StrV(code), StrV(reason), h, details, a);
    DefaultsSame(c, reason);
    DetailsMean(c.table, reason, c.table.policies[reason], h, details, f.details);
  }

  lemma OutcomeAnswers(c: Contract, code: Text, reason: Text, h: Heap, details: Value, a: Attributes, f: Failure)
    requires WellFormed(c.table) && ByTable(c) && !details.Undefined?
    requires Outcome(c.table, code, reason, h, details, a, f)
    ensures KnownFailure(c, StrV(code), StrV(reason), h, details, a).Some?
  {
    hide KnownFailure, Means, MayCarry, CarriesDetails, WellFormedPolicy, ActionKnown, Details, Catalog, DefaultsOf, HasDefaults;
    PolicyFormed(c, reason);
    DetailsMean(c.table, reason, c.table.policies[reason], h, details, f.details);
    KnownIff(c, code, reason, h, details, a);
  }

  lemma OneOutcome(c: Contract, code: Text, reason: Text, h: Heap, details: Value, a: Attributes, f: Failure, g: Failure)
    requires WellFormed(c.table)
    requires Outcome(c.table, code, reason, h, details, a, f) && Outcome(c.table, code, reason, h, details, a, g)
    ensures f == g
  {
    hide Means, MayCarry, CarriesDetails, WellFormedPolicy, DefaultsOf, HasDefaults;
    PolicyFormed(c, reason);
    DetailsMean(c.table, reason, c.table.policies[reason], h, details, f.details);
    DetailsMean(c.table, reason, c.table.policies[reason], h, details, g.details);
  }

  /** A call answers with a failure exactly when table, attributes and details say so. */
  lemma CallMeans(c: Contract, code: Text, reason: Text, h: Heap, details: Value, a: Attributes, f: Failure)
    requires WellFormed(c.table) && ByTable(c) && !details.Undefined?
    ensures KnownFailure(c, StrV(code), StrV(reason), h, details, a) == Some(f) <==>
            Outcome(c.table, code, reason, h, details, a, f)
  {
    hide KnownFailure, Outcome, WellFormed, ByTable;
    if KnownFailure(c, StrV(code), StrV(reason), h, details, a) == Some(f) {
      CallAnswers(c, code, reason, h, details, a, f);
    }
    if Outcome(c.table, code, reason, h, details, a, f) {
      OutcomeAnswers(c, code, reason, h, details, a, f);
      var g := KnownFailure(c, StrV(code), StrV(reason), h, details, a).value;
      CallAnswers(c, code, reason, h, details, a, g);
      OneOutcome(c, code, reason, h, details, a, f, g);
    }
  }

  lemma PolicyFormed(c: Contract, reason: Text)
    requires WellFormed(c.table) && reason in c.table.policies
    ensures WellFormedPolicy(c.table, c.table.policies[reason])
  {
    hide WellFormedPolicy;
  }

  lemma DefaultsSame(c: Contract, reason: Text)
    requires WellFormed(c.table) && reason in c.table.policies
    ensures HasDefaults(c.table, c.table.policies[reason].code)
    ensures WellFormedPolicy(c.table, c.table.policies[reason])
    ensures Catalog(c.table, c.table.policies[reason]) == DefaultsOf(c.table, c.table.policies[reason].code)
  {
    PolicyFormed(c, reason);
    hide WellFormed;
  }
}
