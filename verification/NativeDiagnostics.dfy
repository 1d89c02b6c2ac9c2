/** Native failure details as a whole: packages/contracts/src/failure.ts, nativeFactsFor. */
module NativeDiagnostics {
  import opened Options
  import opened JsonText
  import opened JsonFacts
  import opened JsHeap
  import opened PrettyJson
  import opened FailureModel
  import opened NativeCollection
  import opened NativeFitting
  import opened NativeConservation

  // A native policy whose diagnostics can be fitted.
  ghost predicate NativePolicy(c: Table, policy: Policy) {
    policy.kind.Native? && policy.code in c.catalog && PathRule(policy.kind.rules)
  }

  lemma CollectedForm(c: Table, rules: map<Text, NativeRule>, h: Heap, input: Value)
    requires IsDataRecord(h, input) && NativeFold(c, rules, h, h[input.id].props).Some?
    ensures DraftForm(rules, NativeFold(c, rules, h, h[input.id].props).value.kept)
  {
    hide NativeFold, RuledForm;
    assert Proper(h[input.id]);
    NativeForms(c, rules, h, h[input.id].props);
  }

  function NativeDetails(c: Table, reason: Text, policy: Policy, h: Heap, input: Value): (r: Option<Json>)
    requires NativePolicy(c, policy)
    ensures r.Some? ==> r.value.Obj?
  {
    if !IsDataRecord(h, input) then None
    else
      var d :- NativeFold(c, policy.kind.rules, h, h[input.id].props);
      CollectedForm(c, policy.kind.rules, h, input);
      DraftTidy(policy.kind.rules, d.kept);
      var members :- Fit(c, reason, policy, Summarizes(IssuesIn(d.kept)), d);
      Some(Obj(members))
  }

  method NativeFactsFor(c: Table, reason: Text, policy: Policy, h: Heap, input: Value) returns (r: Option<Json>)
    requires NativePolicy(c, policy)
    ensures r == NativeDetails(c, reason, policy, h, input)
  {
    if !IsDataRecord(h, input) { return None; }
    var d := CollectFields(c, policy.kind.rules, h, h[input.id].props);
    if d.None? { return None; }
    CollectedForm(c, policy.kind.rules, h, input);
    DraftTidy(policy.kind.rules, d.value.kept);
    var members := FitBudget(c, reason, policy, Summarizes(IssuesIn(d.value.kept)), d.value);
    if members.None? { return None; }
    return Some(Obj(members.value));
  }

  // Without fields the heap does not matter.
  lemma EmptyNative(c: Table, reason: Text, policy: Policy, h: Heap, v: Value, g: Heap, w: Value)
    requires NativePolicy(c, policy)
    requires IsDataRecord(h, v) && h[v.id].props == [] && IsDataRecord(g, w) && g[w.id].props == []
    ensures NativeDetails(c, reason, policy, h, v) == NativeDetails(c, reason, policy, g, w)
  {
    hide Fit;
  }

  // ---------------------------------------------------------------------------------------------
  // The books balance, from the caller's fields to the fitted details

  lemma {:induction false} WeightSplit(members: seq<Member>, summarize: bool, whole: Member -> nat, rest: Member -> nat)
    requires DistinctMembers(members) && forall m :: m in members ==> !IsCounter(m.key)
    requires forall m :: m in members ==> rest(m) == if summarize && m.key == PATH then 0 else whole(m)
    ensures Sum(members, whole) == Sum(members, rest) + if summarize then WeightAt(members, PATH, whole) else 0
  {
    if members != [] {
      WeightSplit(members[1..], summarize, whole, rest);
      LookupAbsent(members[1..], PATH);
      assert members[0] == Member(members[0].key, members[0].value);
    }
  }

  lemma {:induction false} LettersAreSum(members: seq<Member>)
    ensures LettersIn(members) == Sum(members, LetterWeight(false))
  {
    if members != [] {
      LettersAreSum(members[1..]);
    }
  }

  // What the path field holds, in entries and in code units, when it becomes a summary.
  function SummaryUnits(d: Draft<Member>): nat {
    if Summarizes(IssuesIn(d.kept)) then WeightAt(d.kept, PATH, EntryCount) else 0
  }

  function SummaryLetters(d: Draft<Member>): nat {
    if Summarizes(IssuesIn(d.kept)) then WeightAt(d.kept, PATH, LetterWeight(false)) else 0
  }

  /** Everything a caller gave is in the details or in their counts, but for a path that became a summary. */
  lemma NativeBooks(c: Table, reason: Text, policy: Policy, h: Heap, input: Value)
    requires NativePolicy(c, policy) && OMITTED_DIAGNOSTICS in policy.kind.rules && OMITTED_CHARACTERS in policy.kind.rules
    requires NativeDetails(c, reason, policy, h, input).Some?
    ensures var rules, props := policy.kind.rules, h[input.id].props;
            var out := NativeDetails(c, reason, policy, h, input).value.members;
            var d := NativeFold(c, rules, h, props).value;
            var summarize := Summarizes(IssuesIn(d.kept));
            && Sum(out, UnitWeight(summarize)) + Recorded(out, OMITTED_DIAGNOSTICS) + SummaryUnits(d)
               == FieldUnits(rules, h, props)
            && Sum(out, LetterWeight(summarize)) + Recorded(out, OMITTED_CHARACTERS) + SummaryLetters(d)
               == AllLetters(rules, h, props)
  {
    hide NativeFold, Summarizes, IssuesIn, Sum, Lookup, FieldForm, AllLetters, FieldUnits, Fit, Tidy;
    var rules, props := policy.kind.rules, h[input.id].props;
    var d := NativeFold(c, rules, h, props).value;
    var summarize := Summarizes(IssuesIn(d.kept));
    CollectedForm(c, rules, h, input);
    DraftTidy(rules, d.kept);
    NativeConserves(c, rules, h, props);
    NativeLetters(c, rules, h, props);
    NoCounters(c, rules, h, input);
    FitConserves(c, reason, policy, summarize, d);
    WeightSplit(d.kept, summarize, EntryCount, UnitWeight(summarize));
    WeightSplit(d.kept, summarize, LetterWeight(false), LetterWeight(summarize));
    LettersAreSum(d.kept);
  }

  lemma NoCounters(c: Table, rules: map<Text, NativeRule>, h: Heap, input: Value)
    requires IsDataRecord(h, input) && NativeFold(c, rules, h, h[input.id].props).Some?
    ensures var d := NativeFold(c, rules, h, h[input.id].props).value;
            (forall m :: m in d.kept ==> !IsCounter(m.key)) && FreshCounters(d) && DistinctMembers(d.kept)
  {
    hide NativeFold, RuledForm, Lookup;
    assert Proper(h[input.id]);
    NativeForms(c, rules, h, h[input.id].props);
    LookupAbsent(NativeFold(c, rules, h, h[input.id].props).value.kept, OMITTED_DIAGNOSTICS);
    LookupAbsent(NativeFold(c, rules, h, h[input.id].props).value.kept, OMITTED_CHARACTERS);
  }

  // ---------------------------------------------------------------------------------------------
  // Every list entry left is one the caller gave

  // The caller's field behind a collected member.
  ghost predicate Given(h: Heap, p: Property, m: Member) {
    p.key == Name(m.key) && p.slot.Data? &&
    if m.value.Arr? then IsList(h, p.slot.value) && FromEntries(h, h[p.slot.value.id].slots, m.value.items)
    else Denotes(h, p.slot.value, m.value)
  }

  lemma StepGiven(c: Table, rules: map<Text, NativeRule>, h: Heap, p: Property, d: Draft<Member>)
    requires NativeStep(c, rules, h, p, d).Some?
    ensures var next := NativeStep(c, rules, h, p, d).value;
            next.kept == d.kept || (exists m :: next.kept == d.kept + [m] && Given(h, p, m))
  {
    hide ListFold, FromEntries, Present;
    var next := NativeStep(c, rules, h, p, d).value;
    if next.kept != d.kept {
      var m := next.kept[|d.kept|];
      if IsListRule(rules[p.key.text]) {
        ListKeeps(h, rules[p.key.text], h[p.slot.value.id].slots, Draft([], d.omitted, d.characters));
      }
      assert Given(h, p, m);
    }
  }

  lemma {:induction false} FoldGiven(c: Table, rules: map<Text, NativeRule>, h: Heap, props: seq<Property>, m: Member)
    requires NativeFold(c, rules, h, props).Some? && m in NativeFold(c, rules, h, props).value.kept
    ensures exists p :: p in props && Given(h, p, m)
  {
    hide NativeStep, Given;
    if props != [] {
      var n := |props| - 1;
      var before := NativeFold(c, rules, h, props[..n]).value;
      StepGiven(c, rules, h, props[n], before);
      if m in before.kept {
        FoldGiven(c, rules, h, props[..n], m);
        var p :| p in props[..n] && Given(h, p, m);
        assert p in props;
      } else {
        assert props[n] in props;
      }
    }
  }

  lemma EntriesPrefix(h: Heap, slots: seq<Slot>, items: seq<Json>, n: nat)
    requires FromEntries(h, slots, items) && n <= |items|
    ensures FromEntries(h, slots, items[..n])
  {
    hide SameItem;
    var places: seq<nat> :| Places(h, slots, items, places);
    assert Places(h, slots, items[..n], places[..n]);
  }

  /** Each diagnostic left, other than the summary and the counters, is what the caller gave, unaltered. */
  lemma NativeKeeps(c: Table, reason: Text, policy: Policy, h: Heap, input: Value, m: Member)
    requires NativePolicy(c, policy) && NativeDetails(c, reason, policy, h, input).Some?
    requires m in NativeDetails(c, reason, policy, h, input).value.members
    requires var d := NativeFold(c, policy.kind.rules, h, h[input.id].props).value;
             !Uncounted(Summarizes(IssuesIn(d.kept)), m.key)
    ensures exists p :: p in h[input.id].props && Given(h, p, m)
  {
    hide NativeFold, Summarizes, IssuesIn, Lookup, FieldForm, Fit, Denotes, FromEntries, DistinctMembers;
    var rules, props := policy.kind.rules, h[input.id].props;
    var d := NativeFold(c, rules, h, props).value;
    var summarize := Summarizes(IssuesIn(d.kept));
    CollectedForm(c, rules, h, input);
    DraftTidy(rules, d.kept);
    var out := Fit(c, reason, policy, summarize, d).value;
    FitSettles(c, reason, policy, summarize, d);
    FitTrims(c, reason, policy, summarize, d, m.key);
    var i :| 0 <= i < |out| && out[i] == m;
    LookupAt(out, i);
    var was := Member(m.key, Lookup(d.kept, m.key).value);
    LookupIndex(d.kept, m.key);
    FoldGiven(c, rules, h, props, was);
    var p :| p in props && Given(h, p, was);
    if m.value != was.value {
      var n := |m.value.items|;
      EntriesPrefix(h, h[p.slot.value.id].slots, was.value.items, n);
      assert was.value.items[..n] == m.value.items;
    }
    assert m == Member(m.key, m.value) && Given(h, p, m);
  }
}
