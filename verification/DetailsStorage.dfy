/** Failure details have distinct keys at every level, so a fresh object can hold them. */
module DetailsStorage {
  import opened JsonText
  import opened JsonFacts
  import opened JsHeap
  import opened JsAllocation
  import opened FailureModel
  import opened PlainPolicies
  import opened FactPolicies
  import opened NativeCollection
  import opened NativeFitting
  import opened NativeConservation
  import opened NativeDiagnostics
  import opened DetailsBudget
  import opened PolicyDetails
  import ProjectionRecovery
  import ChangeSetRecovery

  lemma AppendKey(members: seq<Member>, m: Member)
    requires DistinctMembers(members) && forall x :: x in members ==> x.key != m.key
    ensures DistinctMembers(members + [m])
  {}

  // A record of in-budget parts, each with distinct keys inside.
  lemma PartsStorable(members: seq<Member>)
    requires DistinctMembers(members) && forall m :: m in members ==> Storable(m.value)
    ensures Storable(Obj(members))
  {}

  // ---------------------------------------------------------------------------------------------
  // Plain and fact details

  lemma {:induction false} PlainKeys(c: Table, policy: Policy, h: Heap, props: seq<Property>)
    requires policy.kind.Plain? && DistinctKeys(props) && PlainFold(c, policy, h, props).Some?
    ensures var kept := PlainFold(c, policy, h, props).value.kept;
            DistinctMembers(kept) && forall m :: m in kept ==> exists i :: 0 <= i < |props| && props[i].key == Name(m.key)
  {
    hide Fact;
    if props != [] {
      var n := |props| - 1;
      PlainKeys(c, policy, h, props[..n]);
      var before, kept := PlainFold(c, policy, h, props[..n]).value.kept, PlainFold(c, policy, h, props).value.kept;
      forall m | m in before ensures exists i :: 0 <= i < n && props[i].key == Name(m.key) {
        var i :| 0 <= i < n && props[..n][i].key == Name(m.key);
        assert props[i].key == Name(m.key);
      }
      if kept != before { AppendKey(before, kept[|before|]); }
    }
  }

  lemma FactStorable(key: Text, j: Json)
    requires FactForm(key, j)
    ensures Storable(j) && key != OMITTED
  {
    hide IsCheck;
    FactKeys();
  }

  lemma PlainStorable(c: Table, policy: Policy, h: Heap, v: Value)
    requires policy.kind.Plain? && PlainDetails(c, policy, h, v).Some?
    ensures Storable(PlainDetails(c, policy, h, v).value)
  {
    hide PlainFold, FactForm, Storable, DistinctMembers;
    assert Proper(h[v.id]);
    PlainKeys(c, policy, h, h[v.id].props);
    PlainKeeps(c, policy, h, h[v.id].props);
    var t := PlainFold(c, policy, h, h[v.id].props).value;
    forall m | m in t.kept ensures Storable(m.value) && m.key != OMITTED { FactStorable(m.key, m.value); }
    ClosingStorable(t.kept, t.omitted);
    ClosingStorable(t.kept, 0);
    assert t.kept + [] == t.kept;
  }

  lemma ClosingStorable(kept: seq<Member>, omitted: nat)
    requires DistinctMembers(kept) && forall m :: m in kept ==> Storable(m.value) && m.key != OMITTED
    ensures Storable(Obj(kept + Closing(omitted)))
  {
    if omitted > 0 { AppendKey(kept, Closing(omitted)[0]); }
    PartsStorable(kept + Closing(omitted));
  }

  lemma {:induction false} DeclaredKeys(h: Heap, props: seq<Property>, schema: seq<FactRule>)
    requires DistinctSchema(schema) && Declared(h, props, schema).Some?
    ensures var kept := Declared(h, props, schema).value;
            DistinctMembers(kept) &&
            forall m :: m in kept ==> exists i :: 0 <= i < |schema| && schema[i].key == m.key && RuleForm(schema[i].rule, m.value)
  {
    hide RuleValue, RuleForm;
    if schema != [] {
      var n := |schema| - 1;
      DeclaredKeys(h, props, schema[..n]);
      var before, kept := Declared(h, props, schema[..n]).value, Declared(h, props, schema).value;
      forall m | m in before ensures exists i :: 0 <= i < n && schema[i].key == m.key && RuleForm(schema[i].rule, m.value) {
        var i :| 0 <= i < n && schema[..n][i].key == m.key && RuleForm(schema[..n][i].rule, m.value);
        assert schema[i].key == m.key && RuleForm(schema[i].rule, m.value);
      }
      if kept != before {
        RuleValueForm(h, schema[n].rule, Find(props, Name(schema[n].key)).value.value);
        AppendKey(before, kept[|before|]);
      }
    }
  }

  lemma RuleStorable(rule: Rule, j: Json)
    requires RuleForm(rule, j) && (j.Arr? ==> |j.items| < 0x1_0000_0000)
    requires rule.Pairs? ==> rule.first != rule.second
    ensures Storable(j)
  {
    hide ShortText, PairForm;
    match rule
    case Pairs(least, most, first, second, pairs) =>
      forall i | 0 <= i < |j.items| ensures Storable(j.items[i]) {
        PairStorable(j.items[i], first, second, pairs);
      }
    case _ =>
  }

  lemma PairStorable(j: Json, first: Text, second: Text, pairs: (Text, Text) -> bool)
    requires PairForm(j, first, second, pairs) && first != second
    ensures Storable(j)
  {}

  lemma FactsStorable(c: Table, schema: seq<FactRule>, h: Heap, v: Value, limit: nat)
    requires DistinctSchema(schema) && !Declares(schema, OMITTED) && FactDetails(c, schema, h, v).Some?
    requires forall i :: 0 <= i < |schema| && schema[i].rule.Pairs? ==> schema[i].rule.first != schema[i].rule.second
    requires InBudget(FactDetails(c, schema, h, v).value, 0, limit)
    ensures Storable(FactDetails(c, schema, h, v).value)
  {
    hide Declared, Undeclared, RuleForm, Storable, DistinctMembers, DistinctSchema, Closing;
    var kept := Declared(h, h[v.id].props, schema).value;
    var omitted := Undeclared(c, schema, h, h[v.id].props).value;
    DeclaredKeys(h, h[v.id].props, schema);
    forall m | m in kept ensures Storable(m.value) && m.key != OMITTED {
      var i :| 0 <= i < |schema| && schema[i].key == m.key && RuleForm(schema[i].rule, m.value);
      var k :| 0 <= k < |kept| && kept[k] == m;
      assert (kept + Closing(omitted))[k] == m;
      RuleStorable(schema[i].rule, m.value);
    }
    ClosingStorable(kept, omitted);
  }

  // ---------------------------------------------------------------------------------------------
  // Native details: every item denotes something the caller holds

  lemma ItemStorable(h: Heap, v: Value, j: Json)
    requires SameItem(h, v, j)
    ensures Storable(j)
  {
    hide Denotes;
    if Denotes(h, v, j) {
      DenotedStorable(h, v, j);
    } else {
      DenotedStorable(h, v, Obj([j.members[1], j.members[0]]));
      var a, b := j.members[1], j.members[0];
      assert [a, b][0].key != [a, b][1].key;
      assert Storable([a, b][0].value) && Storable([a, b][1].value);
    }
  }

  lemma EntriesStorable(h: Heap, slots: seq<Slot>, items: seq<Json>)
    requires FromEntries(h, slots, items)
    ensures Storable(Arr(items))
  {
    hide SameItem;
    var places: seq<nat> :| Places(h, slots, items, places);
    forall i | 0 <= i < |items| ensures Storable(items[i]) {
      ItemStorable(h, slots[places[i]].value, items[i]);
    }
  }

  lemma NativeStorable(c: Table, reason: Text, policy: Policy, h: Heap, v: Value)
    requires NativePolicy(c, policy) && NativeDetails(c, reason, policy, h, v).Some?
    ensures Storable(NativeDetails(c, reason, policy, h, v).value)
  {
    hide NativeFold, Fit, Summarizes, IssuesIn, FieldForm, Storable, Denotes, FromEntries, Lookup;
    var rules := policy.kind.rules;
    CollectedForm(c, rules, h, v);
    var d := NativeFold(c, rules, h, h[v.id].props).value;
    DraftTidy(rules, d.kept);
    var summarize := Summarizes(IssuesIn(d.kept));
    FitForm(c, reason, policy, summarize, d, rules);
    FitSettles(c, reason, policy, summarize, d);
    var out := Fit(c, reason, policy, summarize, d).value;
    forall m | m in out ensures Storable(m.value) {
      if Uncounted(summarize, m.key) {
        SummaryScalar(rules, out, summarize, m);
      } else {
        NativeKeeps(c, reason, policy, h, v, m);
        var p :| p in h[v.id].props && Given(h, p, m);
        if m.value.Arr? {
          EntriesStorable(h, h[p.slot.value.id].slots, m.value.items);
        } else {
          DenotedStorable(h, p.slot.value, m.value);
        }
      }
    }
    PartsStorable(out);
  }

  lemma SummaryScalar(rules: map<Text, NativeRule>, out: seq<Member>, summarize: bool, m: Member)
    requires DraftForm(rules, out) && Tidy(summarize, out) && m in out && Uncounted(summarize, m.key)
    ensures Storable(m.value)
  {
    hide FieldForm, Lookup;
    var i :| 0 <= i < |out| && out[i] == m;
    LookupAt(out, i);
  }

  // ---------------------------------------------------------------------------------------------
  // Recovery payloads

  lemma CopyStorable(reason: Text, h: Heap, v: Value, readbackValid: Json -> bool)
    requires ProjectionRecovery.RecoveryDetailsSnapshot(reason, h, v, readbackValid).Some?
    ensures Storable(ProjectionRecovery.RecoveryDetailsSnapshot(reason, h, v, readbackValid).value)
  {
    hide Denotes, Size, ProjectionRecovery.DetailsValid, ProjectionRecovery.RecoveryDetailsSnapshot, Storable;
    ProjectionRecovery.SnapshotIff(reason, h, v, readbackValid);
    DenotedStorable(h, v, ProjectionRecovery.RecoveryDetailsSnapshot(reason, h, v, readbackValid).value);
  }

  lemma JournalStorable(j: Json)
    requires ChangeSetRecovery.JournalForm(j)
    ensures Storable(j)
  {
    var f := ChangeSetRecovery.JOURNAL_FIELDS;
    assert |f[0]| == 9 && |f[1]| == 11 && |f[2]| == 4 && |f[3]| == 6;
  }

  lemma ReferenceStorable(count: SafeInt, digest: Text)
    ensures Storable(ChangeSetRecovery.ReferenceDetails(count, digest))
  {
    var f := ChangeSetRecovery.REFERENCE_FIELDS;
    assert |f[0]| == 22 && |f[1]| == 25 && |f[2]| == 17 && |f[3]| == 12 && |f[4]| == 15;
    var members := ChangeSetRecovery.ReferenceDetails(count, digest).members;
    forall i | 0 <= i < 5 ensures members[i].key == f[i] {}
  }

  lemma JournalsStorable(h: Heap, v: Value)
    requires ChangeSetRecovery.DetailsSnapshot(h, v).Some?
    ensures Storable(ChangeSetRecovery.DetailsSnapshot(h, v).value)
  {
    hide ChangeSetRecovery.JournalForm, ChangeSetRecovery.DetailsSnapshot, Size;
    hide ProjectionRecovery.DigestForm, ChangeSetRecovery.ReferenceDetails;
    var details := ChangeSetRecovery.DetailsSnapshot(h, v).value;
    ChangeSetRecovery.SnapshotForm(h, v);
    if |details.members| == 1 {
      ListLength(h, v);
      var items := details.members[0].value.items;
      forall i | 0 <= i < |items| ensures Storable(items[i]) { JournalStorable(items[i]); }
      assert Storable(details.members[0].value);
    } else {
      ReferenceStorable(details.members[3].value.value, details.members[4].value.text);
    }
  }

  lemma ListLength(h: Heap, v: Value)
    requires ChangeSetRecovery.DetailsSnapshot(h, v).Some?
    requires |ChangeSetRecovery.DetailsSnapshot(h, v).value.members| == 1
    requires ChangeSetRecovery.DetailsSnapshot(h, v).value.members[0].value.Arr?
    ensures |ChangeSetRecovery.DetailsSnapshot(h, v).value.members[0].value.items| < 0x1_0000_0000
  {
    hide ChangeSetRecovery.JournalsSnapshot, ChangeSetRecovery.HasFields, ChangeSetRecovery.HasOwn, Size;
    hide ChangeSetRecovery.Own, ProjectionRecovery.DigestForm;
  }

  /** Whatever a policy returns, a fresh object can hold it. */
  lemma DetailsStorable(c: Table, reason: Text, policy: Policy, h: Heap, v: Value)
    requires WellFormedPolicy(c, policy) && Details(c, reason, policy, h, v).Some?
    requires !IsRecovery(policy) ==> InBudget(Details(c, reason, policy, h, v).value, 0, StringLimit(policy))
    ensures Storable(Details(c, reason, policy, h, v).value)
  {
    hide PlainDetails, FactDetails, NativeDetails, Declares, DistinctSchema, InBudget, Storable;
    hide ProjectionRecovery.RecoveryDetailsSnapshot, ChangeSetRecovery.DetailsSnapshot;
    match policy.kind
    case Plain(_) => PlainStorable(c, policy, h, v);
    case Facts(schema) => FactsStorable(c, schema, h, v, StringLimit(policy));
    case Native(_) => NativeStorable(c, reason, policy, h, v);
    case Recovery => CopyStorable(reason, h, v, c.readbackValid);
    case JournalRecovery => JournalsStorable(h, v);
  }

  // Recovery details are within the recovery budget.
  lemma RecoveryFits(c: Table, reason: Text, policy: Policy, h: Heap, v: Value)
    requires WellFormedPolicy(c, policy) && IsRecovery(policy) && Details(c, reason, policy, h, v).Some?
    ensures Size(Details(c, reason, policy, h, v).value) <= ProjectionRecovery.LIMIT_BYTES
  {
    hide Size, Denotes, ProjectionRecovery.RecoveryDetailsSnapshot, ChangeSetRecovery.DetailsSnapshot;
    hide ProjectionRecovery.DetailsValid, ChangeSetRecovery.RecoveryForm;
    if policy.kind.JournalRecovery? {
      ChangeSetRecovery.SnapshotForm(h, v);
      ChangeSetRecovery.FormFits(Details(c, reason, policy, h, v).value);
    } else {
      ProjectionRecovery.SnapshotIff(reason, h, v, c.readbackValid);
    }
  }
}
