/** When a native failure read back keeps even the order of its fields: packages/contracts/src/failure.ts, lines 689-715 and 760-770. */
module NativeOrder {
  import opened Options
  import opened JsonText
  import opened JsonFacts
  import opened JsHeap
  import opened JsAllocation
  import opened FailureModel
  import opened FailureEnvelopes
  import opened NativeCollection
  import opened NativeFitting
  import opened NativeConservation
  import opened NativeDiagnostics
  import opened NativeFixedPoint
  import opened DetailsBudget
  import opened FailureContract
  import opened RealContract
  import opened FactBudget
  import opened FailureTable
  import opened FieldOrder
  import opened PathBehindCounters
  import opened ReversedCounters

  // ---------------------------------------------------------------------------------------------
  // Exactly when a failure read back is the same failure

  lemma NativeMembersForm(c: Table, reason: Text, policy: Policy, h: Heap, input: Value)
    requires NativePolicy(c, policy) && NativeDetails(c, reason, policy, h, input).Some?
    ensures DistinctMembers(NativeDetails(c, reason, policy, h, input).value.members)
  {
    hide NativeFold, Fit, Tidy, FieldForm, Summarizes, IssuesIn, DistinctMembers;
    var rules := policy.kind.rules;
    CollectedForm(c, rules, h, input);
    var d := NativeFold(c, rules, h, h[input.id].props).value;
    DraftTidy(rules, d.kept);
    FitForm(c, reason, policy, Summarizes(IssuesIn(d.kept)), d, rules);
  }

  // What a native policy takes from the details of a failure it made.
  lemma NativeTaken(c: Contract, f: Failure, g: Heap, w: Value)
    requires WellFormed(c.table) && ByTable(c) && Lawful(c) && Produced(c, f) && Denotes(g, w, f.details)
    requires PolicyOf(c, f.reasonCode).kind.Native?
    ensures f.details.Obj? && DistinctMembers(f.details.members)
    ensures c.take(f.reasonCode, g, w) == Some(Obj(Settle(f.details.members)))
  {
    hide AttributesAllowed, Chosen, WithinDetailsBudget, InBudget, Size, NativeDetails, Denotes, DistinctMembers, Settle;
    ProducedInBudget(c, f);
    var policy := PolicyOf(c, f.reasonCode);
    var h, input, a :| PolicyFailure(c, f.reasonCode, h, input, a) == Some(f);
    NativeByTable(c, f.reasonCode, h, input);
    NativeByTable(c, f.reasonCode, g, w);
    NativeMembersForm(c.table, f.reasonCode, policy, h, input);
    FewFields(f.details, StringLimit(policy));
    NativeAgain(c.table, f.reasonCode, policy, h, input, g, w);
  }

  lemma NativeByTable(c: Contract, reason: Text, h: Heap, v: Value)
    requires WellFormed(c.table) && ByTable(c) && reason in c.table.policies && PolicyOf(c, reason).kind.Native?
    ensures var policy := PolicyOf(c, reason);
            NativePolicy(c.table, policy) && OMITTED_DIAGNOSTICS in policy.kind.rules && OMITTED_CHARACTERS in policy.kind.rules &&
            c.take(reason, h, v) == NativeDetails(c.table, reason, policy, h, v)
  {
    hide NativeDetails;
  }

  /** Data that denotes a produced failure gives the very same failure exactly when native counters come last, count first. */
  lemma SameFailureIff(c: Contract, f: Failure, g: Heap, v: Value)
    requires WellFormed(c.table) && ByTable(c) && Produced(c, f) && Denotes(g, v, FailureJson(f))
    ensures f.reasonCode in c.table.policies && (PolicyOf(c, f.reasonCode).kind.Native? ==> f.details.Obj?)
    ensures FailureFromData(c, g, v) == Some(f) <==>
            (PolicyOf(c, f.reasonCode).kind.Native? ==> CountersLast(f.details.members))
  {
    hide WellFormed, ByTable, Lawful, Produced, FailureFromData, Denotes, Read, Settle, CountersLast, FailureJson, DistinctMembers;
    TableLawful(c);
    ProducedName(c, f);
    FixedPoint(c, f, g, v);
    if PolicyOf(c, f.reasonCode).kind.Native? {
      NativeTaken(c, f, g, Read(g, v, DETAILS).value);
      SettleSame(f.details.members);
    }
  }

  lemma ProducedName(c: Contract, f: Failure)
    requires WellFormed(c.table) && Produced(c, f)
    ensures f.reasonCode in c.table.policies
  {
    hide WellFormed;
  }

  // ---------------------------------------------------------------------------------------------
  // The same, told from what a caller gives

  // What is collected from the caller's fields is fitted at once, or its counters and its path are written in order.
  predicate KeepsOrder(t: Table, reason: Text, policy: Policy, h: Heap, input: Value)
    requires NativePolicy(t, policy) && NativeDetails(t, reason, policy, h, input).Some?
  {
    var d := NativeFold(t, policy.kind.rules, h, h[input.id].props).value;
    var summarize := Summarizes(IssuesIn(d.kept));
    match AfterOne(t, reason, policy, summarize, d)
    case None => true
    case Some(next) =>
      !CharactersFirst(d) && !(summarize && PathReturns(d, next, NativeDetails(t, reason, policy, h, input).value.members))
  }

  lemma KeepsOrderIff(t: Table, reason: Text, policy: Policy, h: Heap, input: Value)
    requires NativePolicy(t, policy) && NativeDetails(t, reason, policy, h, input).Some?
    ensures KeepsOrder(t, reason, policy, h, input) <==> CountersLast(NativeDetails(t, reason, policy, h, input).value.members)
  {
    hide NativeFold, Fit, Tidy, Summarizes, IssuesIn, CountersLast, AfterOne, CharactersFirst, PathReturns, FreshCounters,
      DistinctMembers;
    var rules := policy.kind.rules;
    CollectedForm(t, rules, h, input);
    NoCounters(t, rules, h, input);
    var d := NativeFold(t, rules, h, h[input.id].props).value;
    DraftTidy(rules, d.kept);
    FitOrderIff(t, reason, policy, Summarizes(IssuesIn(d.kept)), d);
  }

  /** A native failure comes back as it was made exactly when what its caller gave keeps its order. */
  lemma CallKeptIff(c: Contract, reason: Text, h: Heap, input: Value, a: Attributes, f: Failure, g: Heap, v: Value)
    requires WellFormed(c.table) && ByTable(c) && reason in c.table.policies && PolicyOf(c, reason).kind.Native?
    requires KnownFailure(c, StrV(PolicyOf(c, reason).code), StrV(reason), h, input, a) == Some(f) && !input.Undefined?
    requires Denotes(g, v, FailureJson(f))
    ensures NativePolicy(c.table, PolicyOf(c, reason)) && NativeDetails(c.table, reason, PolicyOf(c, reason), h, input).Some?
    ensures FailureFromData(c, g, v) == Some(f) <==> KeepsOrder(c.table, reason, PolicyOf(c, reason), h, input)
  {
    hide NativeDetails, AttributesAllowed, Chosen, WithinDetailsBudget, Denotes, KeepsOrder, CountersLast, FailureFromData,
      FailureJson, Produced, WellFormedPolicy;
    NativeByTable(c, reason, h, input);
    KnownProduced(c, StrV(PolicyOf(c, reason).code), StrV(reason), h, input, a);
    SameFailureIff(c, f, g, v);
    KeepsOrderIff(c.table, reason, PolicyOf(c, reason), h, input);
  }

  // ---------------------------------------------------------------------------------------------
  // Two failures that come back in another order

  // Details in another order than the one they are read back in, from a call that returns a failure.
  lemma ReadBackDiffers(c: Contract, reason: Text, a: Attributes, h: Heap, v: Value, members: seq<Member>)
    requires WellFormed(c.table) && ByTable(c) && reason in c.table.policies && PolicyOf(c, reason).kind.Native?
    requires Allowed(c.table, PolicyOf(c, reason), a) && v.Ref?
    requires NativePolicy(c.table, PolicyOf(c, reason))
    requires NativeDetails(c.table, reason, PolicyOf(c, reason), h, v) == Some(Obj(members)) && !CountersLast(members)
    requires InBudget(Obj(members), 0, SHORT) && Size(Obj(members)) <= DETAILS_LIMIT
    ensures var made := KnownFailure(c, StrV(PolicyOf(c, reason).code), StrV(reason), h, v, a);
            made.Some? && made.value.details == Obj(members) &&
            forall g, w :: Denotes(g, w, FailureJson(made.value)) ==> FailureFromData(c, g, w) != made
  {
    hide Denotes, BudgetIssues, InBudget, Size, Bytes, AttributesAllowed, Chosen, CountersLast, WellFormedPolicy, NativeDetails,
      FailureFromData, FailureJson, Produced;
    var policy := PolicyOf(c, reason);
    NativeByTable(c, reason, h, v);
    BudgetIff(Obj(members), 0, SHORT);
    ShortMessage(c.table, reason);
    var made := KnownFailure(c, StrV(policy.code), StrV(reason), h, v, a);
    KnownProduced(c, StrV(policy.code), StrV(reason), h, v, a);
    forall g, w | Denotes(g, w, FailureJson(made.value)) ensures FailureFromData(c, g, w) != made {
      SameFailureIff(c, made.value, g, w);
    }
  }

  // The policy takes issues, and its failures have a short head.
  ghost predicate IssueReason(c: Contract, reason: Text, a: Attributes) {
    WellFormed(c.table) && ByTable(c) && reason in c.table.policies && Allowed(c.table, PolicyOf(c, reason), a) &&
    IssuePolicy(c.table, PolicyOf(c, reason)) && ShortHead(c.table, reason, PolicyOf(c, reason))
  }

  // The call of such a reason with these details returns the failure with those, which no data that denotes it gives back.
  ghost predicate ComesBackOtherwise(c: Contract, reason: Text, a: Attributes, given: Json, details: Json)
    requires IssueReason(c, reason, a) && Storable(given)
  {
    var made := KnownFailure(c, StrV(PolicyOf(c, reason).code), StrV(reason), Fresh(given).heap, Fresh(given).value, a);
    made.Some? && made.value.details == details &&
    forall g, w :: Denotes(g, w, FailureJson(made.value)) ==> FailureFromData(c, g, w) != made
  }

  /** Two large issues with different paths and a counted omission: the path ends behind the count. */
  lemma PathReordered(c: Contract, reason: Text, a: Attributes)
    requires IssueReason(c, reason, a)
    ensures Storable(Obj(TwoIssues(FIRST, SECOND)))
    ensures ComesBackOtherwise(c, reason, a, Obj(TwoIssues(FIRST, SECOND)), Obj(OneIssue(FIRST, U("a"), LETTERS)))
  {
    hide *;
    TwoIssuesStorable();
    var given := Fresh(Obj(TwoIssues(FIRST, SECOND)));
    FreshDenotes(Obj(TwoIssues(FIRST, SECOND)));
    PartsOf(c, reason, a);
    PathComesLater(c.table, reason, PolicyOf(c, reason), given.heap, given.value);
    FittedInBudget();
    IsObjectHere(given.heap, given.value, TwoIssues(FIRST, SECOND));
    ReadBackDiffers(c, reason, a, given.heap, given.value, OneIssue(FIRST, U("a"), LETTERS));
    Otherwise(c, reason, a, Obj(TwoIssues(FIRST, SECOND)), Obj(OneIssue(FIRST, U("a"), LETTERS)));
  }

  /** Two large issues without a path and counted characters alone: the characters end before the count. */
  lemma CountersReordered(c: Contract, reason: Text, a: Attributes)
    requires IssueReason(c, reason, a)
    ensures Storable(Obj(BothIssues(BARE, BARE, COUNTED)))
    ensures ComesBackOtherwise(c, reason, a, Obj(BothIssues(BARE, BARE, COUNTED)), Obj(FirstIssue(BARE, BARE_LETTERS)))
  {
    hide *;
    BothIssuesStorable();
    var given := Fresh(Obj(BothIssues(BARE, BARE, COUNTED)));
    FreshDenotes(Obj(BothIssues(BARE, BARE, COUNTED)));
    PartsOf(c, reason, a);
    CharactersComeFirst(c.table, reason, PolicyOf(c, reason), given.heap, given.value);
    FirstIssueInBudget();
    IsObjectHere(given.heap, given.value, BothIssues(BARE, BARE, COUNTED));
    ReadBackDiffers(c, reason, a, given.heap, given.value, FirstIssue(BARE, BARE_LETTERS));
    Otherwise(c, reason, a, Obj(BothIssues(BARE, BARE, COUNTED)), Obj(FirstIssue(BARE, BARE_LETTERS)));
  }

  lemma Otherwise(c: Contract, reason: Text, a: Attributes, given: Json, details: Json)
    requires IssueReason(c, reason, a) && Storable(given)
    requires var made := KnownFailure(c, StrV(PolicyOf(c, reason).code), StrV(reason), Fresh(given).heap, Fresh(given).value, a);
             made.Some? && made.value.details == details &&
             forall g, w :: Denotes(g, w, FailureJson(made.value)) ==> FailureFromData(c, g, w) != made
    ensures ComesBackOtherwise(c, reason, a, given, details)
  {
    hide KnownFailure, FailureFromData, FailureJson, Denotes;
  }

  lemma PartsOf(c: Contract, reason: Text, a: Attributes)
    requires IssueReason(c, reason, a)
    ensures WellFormed(c.table) && ByTable(c) && reason in c.table.policies && Allowed(c.table, PolicyOf(c, reason), a)
    ensures IssuePolicy(c.table, PolicyOf(c, reason)) && ShortHead(c.table, reason, PolicyOf(c, reason))
    ensures PolicyOf(c, reason).kind.Native? && NativePolicy(c.table, PolicyOf(c, reason))
  {
    hide WellFormed, ByTable, Allowed, ShortHead;
  }

  lemma IsObjectHere(h: Heap, v: Value, members: seq<Member>)
    requires Denotes(h, v, Obj(members))
    ensures v.Ref?
  {}

  const INVALID_MODEL: Text := U("native-context-model-invalid")

  /** There is such a contract and such a call: the sample table's, with no attributes given. */
  lemma InvalidModelAllowed(readbackValid: Json -> bool)
    ensures var t := Sample(readbackValid);
            INVALID_MODEL in t.policies && t.policies[INVALID_MODEL] == MODEL_INVALID && SCHEMA_INVALID in t.catalog &&
            IssuePolicy(t, MODEL_INVALID) && ShortHead(t, INVALID_MODEL, MODEL_INVALID) && Allowed(t, MODEL_INVALID, NO_ATTRIBUTES)
  {
    hide ScalarBounds;
    SampleIssues(readbackValid);
    hide Sample, IssuePolicy, ShortHead, Allowed;
    InvalidModelIssues(Sample(readbackValid));
    InvalidModelHead(Sample(readbackValid));
  }

  lemma SampleIssues(readbackValid: Json -> bool)
    ensures var t := Sample(readbackValid);
            INVALID_MODEL in t.policies && t.policies[INVALID_MODEL] == MODEL_INVALID && SCHEMA_INVALID in t.catalog &&
            t.catalog[SCHEMA_INVALID].severity == ERROR && Allowed(t, MODEL_INVALID, NO_ATTRIBUTES)
  {}

  lemma InvalidModelIssues(t: Table)
    requires SCHEMA_INVALID in t.catalog
    ensures IssuePolicy(t, MODEL_INVALID)
  {}

  lemma InvalidModelHead(t: Table)
    requires SCHEMA_INVALID in t.catalog && t.catalog[SCHEMA_INVALID].severity == ERROR
    ensures ShortHead(t, INVALID_MODEL, MODEL_INVALID)
  {
    Scalars6(FailureHead(NativeFailure(t, INVALID_MODEL, MODEL_INVALID, [])));
  }
}
