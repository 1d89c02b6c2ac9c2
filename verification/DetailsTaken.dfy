/** What a policy takes from caller data, kind by kind, and what a call makes of it: packages/contracts/src/failure.ts. */
module DetailsTaken {
  import opened Options
  import opened JsonText
  import opened JsonFacts
  import opened Sequences
  import opened JsHeap
  import opened FailureModel
  import opened PlainPolicies
  import opened FactPolicies
  import opened FactBudget
  import opened NativeCollection
  import opened NativeFitting
  import opened NativeConservation
  import opened NativeDiagnostics
  import opened NativeTurns
  import opened DetailsAccepted
  import opened DetailsKept
  import opened PolicyDetails
  import ProjectionRecovery
  import ChangeSetRecovery

  // The closing count of what was left out, at most a million.
  function CountOf(n: int): seq<Member> {
    if n <= 0 then [] else [Member(OMITTED, Int(if n < 1_000_000 then n else 1_000_000))]
  }

  ghost predicate PlainMeans(c: Table, policy: Policy, h: Heap, v: Value, j: Json)
    requires policy.kind.Plain?
  {
    IsRecord(h, v) &&
    var props := h[v.id].props;
    var kept := Collected(props, PlainRule(policy, h));
    && (forall i :: 0 <= i < |props| ==> PlainSupported(c, policy, h, props[i]))
    && j == Obj(kept + if policy.code == UNCLASSIFIED then [] else CountOf(Weights(policy, props) - |kept|))
  }

  ghost predicate FactsMean(c: Table, schema: seq<FactRule>, h: Heap, v: Value, j: Json) {
    IsRecord(h, v) && !h[v.id].proto.ForeignProto? &&
    var props := h[v.id].props;
    && |props| <= 16
    && (forall i :: 0 <= i < |schema| ==> FactMet(h, props, schema[i]))
    && (forall i :: 0 <= i < |props| ==>
          props[i].key.Name? && props[i].slot.Data? && props[i].slot.enumerable && FactSupported(c, schema, h, props[i]))
    && j == Obj(Collected(schema, FactsRule(h, props)) + CountOf(FactUnits(schema, props)))
  }

  // What is collected, and what is left out of it: entries and fields, and code units.
  ghost predicate Collects(rules: map<Text, NativeRule>, h: Heap, props: seq<Property>, d: Draft<Member>) {
    && d.kept == Collected(props, FieldsRule(rules, h))
    && Units(d.kept) + d.omitted == FieldUnits(rules, h, props)
    && LettersIn(d.kept) + d.characters == AllLetters(rules, h, props)
  }

  ghost predicate NativeMeans(c: Table, reason: Text, policy: Policy, h: Heap, v: Value, j: Json)
    requires policy.kind.Native?
  {
    policy.code in c.catalog && IsRecord(h, v) && PlainRecord(h[v.id]) &&
    var props := h[v.id].props;
    && |props| <= 16
    && (forall i :: 0 <= i < |props| ==> NativeSupported(c, policy.kind.rules, h, props[i]))
    && exists d, n: nat ::
         Collects(policy.kind.rules, h, props, d) && j.Obj? &&
         FirstFit(c, reason, policy, Summarizes(IssuesIn(d.kept)), d, n) &&
         Shown(Summarizes(IssuesIn(d.kept)), d, n) == Some(j.members)
  }

  ghost predicate RecoveryMeans(c: Table, reason: Text, h: Heap, v: Value, j: Json) {
    Denotes(h, v, j) && Within(j, 16) && Size(j) <= ProjectionRecovery.LIMIT_BYTES &&
    ProjectionRecovery.DetailsValid(reason, j, c.readbackValid)
  }

  ghost predicate JournalsMean(h: Heap, v: Value, j: Json) {
    ChangeSetRecovery.WholeAuthority(h, v, j) || ChangeSetRecovery.AuthorityReference(h, v, j)
  }

  /** The details j are what the policy makes of v. */
  ghost predicate Means(c: Table, reason: Text, policy: Policy, h: Heap, v: Value, j: Json) {
    match policy.kind
    case Plain(_) => PlainMeans(c, policy, h, v, j)
    case Facts(schema) => FactsMean(c, schema, h, v, j)
    case Native(_) => NativeMeans(c, reason, policy, h, v, j)
    case Recovery => RecoveryMeans(c, reason, h, v, j)
    case JournalRecovery => JournalsMean(h, v, j)
  }

  lemma PlainMeansIff(c: Table, policy: Policy, h: Heap, v: Value, j: Json)
    requires policy.kind.Plain?
    ensures PlainDetails(c, policy, h, v) == Some(j) <==> PlainMeans(c, policy, h, v, j)
  {
    hide PlainSupported, PlainFold, Collected, Weights;
    PlainIff(c, policy, h, v);
    if PlainDetails(c, policy, h, v).Some? {
      PlainBooks(c, policy, h, v);
      PlainCollects(c, policy, h, h[v.id].props);
    }
  }

  lemma FactsMeanIff(c: Table, schema: seq<FactRule>, h: Heap, v: Value, j: Json)
    ensures FactDetails(c, schema, h, v) == Some(j) <==> FactsMean(c, schema, h, v, j)
  {
    hide FactMet, FactSupported, Collected, FactUnits, Declared, Undeclared;
    FactsIff(c, schema, h, v);
    if FactDetails(c, schema, h, v).Some? {
      FactsBooks(c, schema, h, v);
      DeclaredCollects(h, h[v.id].props, schema);
    }
  }

  lemma CollectsFold(c: Table, rules: map<Text, NativeRule>, h: Heap, props: seq<Property>, d: Draft<Member>)
    requires NativeFold(c, rules, h, props).Some?
    ensures Collects(rules, h, props, d) <==> d == NativeFold(c, rules, h, props).value
  {
    hide NativeFold, Collected, Units, FieldUnits, AllLetters, LettersIn;
    NativeCollects(c, rules, h, props);
    NativeConserves(c, rules, h, props);
    NativeLetters(c, rules, h, props);
  }

  lemma OneFirst(c: Table, reason: Text, policy: Policy, summarize: bool, d: Draft<Member>, n: nat, k: nat)
    requires policy.code in c.catalog
    requires FirstFit(c, reason, policy, summarize, d, n) && FirstFit(c, reason, policy, summarize, d, k)
    ensures n == k
  {
    hide FitsAt;
  }

  lemma FitMeans(c: Table, reason: Text, policy: Policy, summarize: bool, d: Draft<Member>, out: seq<Member>)
    requires policy.code in c.catalog && Tidy(summarize, d.kept)
    ensures Fit(c, reason, policy, summarize, d) == Some(out) <==>
            exists n: nat :: FirstFit(c, reason, policy, summarize, d, n) && Shown(summarize, d, n) == Some(out)
  {
    hide FitsAt, Fit, Shown, Tidy;
    FitIsFirst(c, reason, policy, summarize, d);
    forall n: nat, k: nat | FirstFit(c, reason, policy, summarize, d, n) && FirstFit(c, reason, policy, summarize, d, k) ensures n == k {
      OneFirst(c, reason, policy, summarize, d, n, k);
    }
  }

  lemma NativeMeansIff(c: Table, reason: Text, policy: Policy, h: Heap, v: Value, j: Json)
    requires NativePolicy(c, policy)
    ensures NativeDetails(c, reason, policy, h, v) == Some(j) <==> NativeMeans(c, reason, policy, h, v, j)
  {
    hide NativeFold, NativeSupported, FirstFit, Fit, Summarizes, IssuesIn, Shown, PathRule, PlainRecord, DraftForm, Tidy, Collects;
    if IsDataRecord(h, v) {
      var rules, props := policy.kind.rules, h[v.id].props;
      NativeFoldIff(c, rules, h, props);
      if NativeFold(c, rules, h, props).Some? {
        var d := NativeFold(c, rules, h, props).value;
        forall e ensures Collects(rules, h, props, e) <==> e == d { CollectsFold(c, rules, h, props, e); }
        CollectedForm(c, rules, h, v);
        DraftTidy(rules, d.kept);
        if j.Obj? { FitMeans(c, reason, policy, Summarizes(IssuesIn(d.kept)), d, j.members); }
      }
    }
  }

  lemma RecoveryMeansIff(c: Table, reason: Text, h: Heap, v: Value, j: Json)
    ensures ProjectionRecovery.RecoveryDetailsSnapshot(reason, h, v, c.readbackValid) == Some(j) <==> RecoveryMeans(c, reason, h, v, j)
  {
    hide Denotes, Within, Size, ProjectionRecovery.DetailsValid, ProjectionRecovery.RecoveryDetailsSnapshot;
    ProjectionRecovery.SnapshotIff(reason, h, v, c.readbackValid);
  }

  lemma JournalsMeanIff(h: Heap, v: Value, j: Json)
    ensures ChangeSetRecovery.DetailsSnapshot(h, v) == Some(j) <==> JournalsMean(h, v, j)
  {
    hide ChangeSetRecovery.DetailsSnapshot, ChangeSetRecovery.WholeAuthority, ChangeSetRecovery.AuthorityReference;
    ChangeSetRecovery.DetailsSnapshotIff(h, v, j);
  }

  lemma NativeOf(c: Table, policy: Policy)
    requires WellFormedPolicy(c, policy) && policy.kind.Native?
    ensures NativePolicy(c, policy)
  {}

  /** Details are taken exactly as the kind of the policy says. */
  lemma DetailsMean(c: Table, reason: Text, policy: Policy, h: Heap, v: Value, j: Json)
    requires WellFormedPolicy(c, policy)
    ensures Details(c, reason, policy, h, v) == Some(j) <==> Means(c, reason, policy, h, v, j)
  {
    hide PlainDetails, FactDetails, NativeDetails, PlainMeans, FactsMean, NativeMeans, RecoveryMeans, JournalsMean;
    hide ProjectionRecovery.RecoveryDetailsSnapshot, ChangeSetRecovery.DetailsSnapshot, WellFormedPolicy;
    match policy.kind
    case Plain(_) => PlainMeansIff(c, policy, h, v, j);
    case Facts(schema) => FactsMeanIff(c, schema, h, v, j);
    case Native(_) => NativeOf(c, policy); NativeMeansIff(c, reason, policy, h, v, j);
    case Recovery => RecoveryMeansIff(c, reason, h, v, j);
    case JournalRecovery => JournalsMeanIff(h, v, j);
  }
}
