/** What fitting native diagnostics keeps, counts and never changes: packages/contracts/src/failure.ts, lines 686-714. */
module NativeConservation {
  import opened Options
  import opened JsonText
  import opened JsonFacts
  import opened PrettyJson
  import opened FailureModel
  import opened NativeCollection
  import opened NativeFitting

  // ---------------------------------------------------------------------------------------------
  // Counting: the path is left out where it is a summary, and the counters count nothing themselves

  predicate Uncounted(summarize: bool, key: Text) { IsCounter(key) || (summarize && key == PATH) }

  function UnitWeight(summarize: bool): Member -> nat { (m: Member) => if Uncounted(summarize, m.key) then 0 else EntryCount(m) }

  function LetterWeight(summarize: bool): Member -> nat {
    (m: Member) => if summarize && m.key == PATH then 0 else Letters(m.value)
  }

  // The number under a counter's key.
  function Recorded(members: seq<Member>, key: Text): nat {
    match Lookup(members, key)
    case Some(Int(n)) => if n >= 0 then n else 0
    case _ => 0
  }

  // A counter is only there once something was counted.
  predicate FreshCounters(d: Draft<Member>) {
    (d.omitted == 0 ==> Lookup(d.kept, OMITTED_DIAGNOSTICS).None?) &&
    (d.characters == 0 ==> Lookup(d.kept, OMITTED_CHARACTERS).None?)
  }

  lemma ShrinkUnits(summarize: bool, d: Draft<Member>)
    requires Tidy(summarize, d.kept) && Refresh(summarize, d).Some?
    requires Shrink(Refresh(summarize, d).value, d).Some?
    ensures var members := Refresh(summarize, d).value;
            var next := Shrink(members, d).value;
            && Sum(next.kept, UnitWeight(summarize)) + next.omitted == Sum(members, UnitWeight(summarize)) + d.omitted
            && Sum(next.kept, LetterWeight(summarize)) + next.characters
               == Sum(members, LetterWeight(summarize)) + d.characters
  {
    hide Refresh, Lookup, Sum, LastList, LastText;
    var members := Refresh(summarize, d).value;
    FitDecreases(summarize, d);
    ShrinkSum(members, d, UnitWeight(summarize));
    ShrinkSum(members, d, LetterWeight(summarize));
    match LastList(members) {
      case Some(i) =>
        LookupAt(members, i);
        var items := members[i].value.items;
        assert items == items[..|items| - 1] + [items[|items| - 1]];
        LettersOfAppend(items[..|items| - 1], items[|items| - 1]);
      case None =>
        LookupAt(members, LastText(members).value);
        if summarize { NoEntriesNoPath(summarize, d); }
    }
  }

  lemma ShrinkCounters(summarize: bool, d: Draft<Member>)
    requires Tidy(summarize, d.kept) && Refresh(summarize, d).Some? && FreshCounters(d)
    requires Shrink(Refresh(summarize, d).value, d).Some?
    ensures FreshCounters(Shrink(Refresh(summarize, d).value, d).value)
  {
    hide Refresh, Lookup, Shrink;
    var members := Refresh(summarize, d).value;
    RefreshLookup(summarize, d, PATH);
    ShrinkLookup(members, d, OMITTED_CHARACTERS);
    ShrinkCounts(members, d);
  }

  lemma ShrinkCounts(members: seq<Member>, d: Draft<Member>)
    requires Shrink(members, d).Some?
    ensures Shrink(members, d).value.omitted == d.omitted + 1 && Shrink(members, d).value.characters >= d.characters
  {}

  /** The omission count grows by exactly the list entries and fields that go, and the characters by theirs. */
  lemma {:induction false} FitConserves(c: Table, reason: Text, policy: Policy, summarize: bool, d: Draft<Member>)
    requires policy.code in c.catalog && Tidy(summarize, d.kept) && FreshCounters(d)
    requires Fit(c, reason, policy, summarize, d).Some?
    ensures var out := Fit(c, reason, policy, summarize, d).value;
            && Sum(out, UnitWeight(summarize)) + Recorded(out, OMITTED_DIAGNOSTICS)
               == Sum(d.kept, UnitWeight(summarize)) + d.omitted
            && Sum(out, LetterWeight(summarize)) + Recorded(out, OMITTED_CHARACTERS)
               == Sum(d.kept, LetterWeight(summarize)) + d.characters
    decreases Entries(d.kept), Strings(d.kept)
  {
    hide Refresh, Lookup, Sum, Shrink, Fits, DistinctMembers, Tidy;
    var members := Refresh(summarize, d).value;
    FitDecreases(summarize, d);
    RefreshWeights(summarize, d);
    if !Fits(c, reason, policy, members) {
      ShrinkUnits(summarize, d);
      ShrinkCounters(summarize, d);
      FitConserves(c, reason, policy, summarize, Shrink(members, d).value);
    }
  }

  lemma RefreshWeights(summarize: bool, d: Draft<Member>)
    requires Tidy(summarize, d.kept) && FreshCounters(d) && Refresh(summarize, d).Some?
    ensures var members := Refresh(summarize, d).value;
            && Sum(members, UnitWeight(summarize)) == Sum(d.kept, UnitWeight(summarize))
            && Sum(members, LetterWeight(summarize)) == Sum(d.kept, LetterWeight(summarize))
            && Recorded(members, OMITTED_DIAGNOSTICS) == d.omitted
            && Recorded(members, OMITTED_CHARACTERS) == d.characters
  {
    hide Refresh, Lookup, Sum, DistinctMembers;
    RefreshSum(summarize, d, UnitWeight(summarize));
    RefreshSum(summarize, d, LetterWeight(summarize));
    RefreshLookup(summarize, d, PATH);
  }

  // ---------------------------------------------------------------------------------------------
  // Keeping: a field stands as collected, or its list ends earlier, or its string is gone

  predicate Trimmed(was: Option<Json>, now: Option<Json>) {
    || now == was
    || (was.Some? && was.value.Str? && now.None?)
    || (was.Some? && was.value.Arr? && now.Some? && now.value.Arr? && now.value.items <= was.value.items)
  }

  /** Fitting alters no diagnostic: under each key but the summary and the counters, something is kept as it was. */
  lemma {:induction false} FitTrims(
    c: Table, reason: Text, policy: Policy, summarize: bool, d: Draft<Member>, key: Text)
    requires policy.code in c.catalog && Tidy(summarize, d.kept) && !Uncounted(summarize, key)
    requires Fit(c, reason, policy, summarize, d).Some?
    ensures Trimmed(Lookup(d.kept, key), Lookup(Fit(c, reason, policy, summarize, d).value, key))
    decreases Entries(d.kept), Strings(d.kept)
  {
    hide Refresh, Lookup, Shrink, Fits, DistinctMembers;
    var members := Refresh(summarize, d).value;
    FitDecreases(summarize, d);
    RefreshLookup(summarize, d, key);
    if !Fits(c, reason, policy, members) {
      ShrinkLookup(members, d, key);
      FitTrims(c, reason, policy, summarize, Shrink(members, d).value, key);
    }
  }

  lemma {:induction false} NoListNoEntries(members: seq<Member>)
    requires forall i :: 0 <= i < |members| && members[i].value.Arr? ==> members[i].value.items == []
    ensures Entries(members) == 0
  {
    if members != [] {
      NoListNoEntries(members[1..]);
    }
  }

  lemma {:induction false} FitEntries(c: Table, reason: Text, policy: Policy, summarize: bool, d: Draft<Member>)
    requires policy.code in c.catalog && Tidy(summarize, d.kept) && Fit(c, reason, policy, summarize, d).Some?
    ensures Entries(Fit(c, reason, policy, summarize, d).value) <= Entries(d.kept)
    decreases Entries(d.kept), Strings(d.kept)
  {
    hide Refresh, Shrink, Fits, Tidy, Sum;
    FitDecreases(summarize, d);
    if !Fits(c, reason, policy, Refresh(summarize, d).value) {
      FitEntries(c, reason, policy, summarize, Shrink(Refresh(summarize, d).value, d).value);
    }
  }

  /** No string goes while a list entry is left. */
  lemma {:induction false} FitSparesTexts(
    c: Table, reason: Text, policy: Policy, summarize: bool, d: Draft<Member>, key: Text)
    requires policy.code in c.catalog && Tidy(summarize, d.kept) && !Uncounted(summarize, key)
    requires Fit(c, reason, policy, summarize, d).Some? && Entries(Fit(c, reason, policy, summarize, d).value) > 0
    requires Lookup(d.kept, key).Some? && Lookup(d.kept, key).value.Str?
    ensures Lookup(Fit(c, reason, policy, summarize, d).value, key) == Lookup(d.kept, key)
    decreases Entries(d.kept), Strings(d.kept)
  {
    hide Refresh, Lookup, Shrink, Fits, DistinctMembers, Sum;
    var members := Refresh(summarize, d).value;
    FitDecreases(summarize, d);
    RefreshLookup(summarize, d, key);
    if !Fits(c, reason, policy, members) {
      var next := Shrink(members, d).value;
      ShrinkLookup(members, d, key);
      FitEntries(c, reason, policy, summarize, next);
      if LastList(members).None? { NoListNoEntries(members); }
      FitSparesTexts(c, reason, policy, summarize, next, key);
    }
  }

  /** On success both budgets hold, and the summary is the one of the issues that are left. */
  lemma {:induction false} FitSettles(c: Table, reason: Text, policy: Policy, summarize: bool, d: Draft<Member>)
    requires policy.code in c.catalog && Tidy(summarize, d.kept)
    requires Fit(c, reason, policy, summarize, d).Some?
    ensures var out := Fit(c, reason, policy, summarize, d).value;
            Fits(c, reason, policy, out) && Tidy(summarize, out) &&
            (summarize ==> Lookup(out, PATH) == match Summary(IssuesIn(out)) case None => None case Some(path) => Some(Str(path)))
    decreases Entries(d.kept), Strings(d.kept)
  {
    hide Refresh, Lookup, Shrink, Fits, DistinctMembers, Summary;
    var members := Refresh(summarize, d).value;
    FitDecreases(summarize, d);
    FittingKeys();
    RefreshLookup(summarize, d, ISSUES);
    if !Fits(c, reason, policy, members) {
      FitSettles(c, reason, policy, summarize, Shrink(members, d).value);
    }
  }

  // ---------------------------------------------------------------------------------------------
  // The form of what is left

  predicate DraftForm(rules: map<Text, NativeRule>, members: seq<Member>) {
    DistinctMembers(members) &&
    forall m :: m in members ==> if IsCounter(m.key) then m.value.Int? && m.value.value > 0 else FieldForm(rules, m)
  }

  // The issues rule comes with a path field that takes any text.
  ghost predicate PathRule(rules: map<Text, NativeRule>) {
    ISSUES in rules ==> PATH in rules && rules[PATH].Diagnostic? && forall t: Text :: rules[PATH].accepts(t)
  }

  lemma PathShort(rule: NativeRule, issue: Json)
    requires IsListRule(rule) && ItemForm(rule, issue) && PathOf(issue).Some?
    ensures Bytes(PathOf(issue).value) <= SHORT
  {
    hide Lookup, Bytes, IssueKeys, RangeForm;
    LookupIndex(issue.members, PATH);
    var i :| 0 <= i < |issue.members| && issue.members[i] == Member(PATH, Lookup(issue.members, PATH).value);
    assert PATH[0] != KIND[0] && PATH[0] != RANGE[0];
  }

  lemma SummaryForm(rules: map<Text, NativeRule>, members: seq<Member>)
    requires DraftForm(rules, members) && PathRule(rules)
    requires Summary(IssuesIn(members)).Some?
    ensures FieldForm(rules, Member(PATH, Str(Summary(IssuesIn(members)).value)))
  {
    hide Lookup, ItemForm, Bytes, DistinctMembers;
    FittingKeys();
    LookupIndex(members, ISSUES);
    var issue := IssuesIn(members)[0];
    PathShort(rules[ISSUES], issue);
  }

  lemma DraftTidy(rules: map<Text, NativeRule>, members: seq<Member>)
    requires DraftForm(rules, members) && PathRule(rules)
    ensures Tidy(Summarizes(IssuesIn(members)), members)
  {
    hide Lookup, ItemForm, DistinctMembers;
    FittingKeys();
    if Lookup(members, ISSUES).Some? { LookupIndex(members, ISSUES); }
    if Lookup(members, PATH).Some? { LookupIndex(members, PATH); }
    if Lookup(members, OMITTED_DIAGNOSTICS).Some? { LookupIndex(members, OMITTED_DIAGNOSTICS); }
    if Lookup(members, OMITTED_CHARACTERS).Some? { LookupIndex(members, OMITTED_CHARACTERS); }
  }

  lemma RefreshForm(rules: map<Text, NativeRule>, summarize: bool, d: Draft<Member>)
    requires DraftForm(rules, d.kept) && PathRule(rules) && Refresh(summarize, d).Some?
    ensures DraftForm(rules, Refresh(summarize, d).value)
  {
    hide Put, Without, FieldForm, Summary, IssuesIn, DistinctMembers;
    var a := Summarized(summarize, d.kept);
    if summarize {
      match Summary(IssuesIn(d.kept)) {
        case Some(path) =>
          SummaryForm(rules, d.kept);
          PutKeys(d.kept, PATH, Str(path));
          FittingKeys();
        case None => WithoutKeys(d.kept, PATH);
      }
    }
    assert DraftForm(rules, a);
    CountedForm(rules, a, OMITTED_DIAGNOSTICS, d.omitted);
    CountedForm(rules, Counted(a, OMITTED_DIAGNOSTICS, d.omitted), OMITTED_CHARACTERS, d.characters);
  }

  lemma CountedForm(rules: map<Text, NativeRule>, members: seq<Member>, key: Text, n: nat)
    requires DraftForm(rules, members) && n <= MAX_SAFE_INTEGER && IsCounter(key)
    ensures DraftForm(rules, Counted(members, key, n))
  {
    hide Put, FieldForm, DistinctMembers;
    PutKeys(members, key, Int(n));
  }

  lemma ShrinkForm(rules: map<Text, NativeRule>, members: seq<Member>, d: Draft<Member>)
    requires DraftForm(rules, members) && Shrink(members, d).Some?
    ensures DraftForm(rules, Shrink(members, d).value.kept)
  {
    hide ItemForm, Bytes;
    ShrinkKeys(members, d);
    hide DistinctMembers;
    var next := Shrink(members, d).value.kept;
    forall m | m in next
      ensures if IsCounter(m.key) then m.value.Int? && m.value.value > 0 else FieldForm(rules, m)
    {
      if m !in members {
        var i := LastList(members).value;
        assert members[i] in members && m == next[i];
        assert IsListRule(rules[m.key]);
        assert forall k :: 0 <= k < |m.value.items| ==> m.value.items[k] == members[i].value.items[k];
      }
    }
  }

  lemma {:induction false} FitForm(c: Table, reason: Text, policy: Policy, summarize: bool, d: Draft<Member>,
                                   rules: map<Text, NativeRule>)
    requires policy.code in c.catalog && Tidy(summarize, d.kept) && DraftForm(rules, d.kept) && PathRule(rules)
    requires Fit(c, reason, policy, summarize, d).Some?
    ensures DraftForm(rules, Fit(c, reason, policy, summarize, d).value)
    decreases Entries(d.kept), Strings(d.kept)
  {
    hide Refresh, Lookup, Shrink, Fits, DraftForm, Tidy, PathRule;
    var members := Refresh(summarize, d).value;
    FitDecreases(summarize, d);
    RefreshForm(rules, summarize, d);
    if !Fits(c, reason, policy, members) {
      ShrinkForm(rules, members, d);
      FitForm(c, reason, policy, summarize, Shrink(members, d).value, rules);
    }
  }
}
