/** Native details taken from native details are the same, up to the place of the counters. */
module NativeFixedPoint {
  import opened Options
  import opened JsonText
  import opened JsonFacts
  import opened JsHeap
  import opened PrettyJson
  import opened FailureModel
  import opened FailureEnvelopes
  import opened NativeCollection
  import opened NativeFitting
  import opened NativeConservation
  import opened NativeDiagnostics

  // ---------------------------------------------------------------------------------------------
  // Items are taken whole again

  lemma {:induction false} TextMembersAgain(h: Heap, props: seq<Property>, members: seq<Member>)
    requires |props| == |members| && forall i :: 0 <= i < |members| ==> members[i].value.Str?
    requires forall i :: 0 <= i < |members| ==>
               props[i].key == Name(members[i].key) && PlainSlot(props[i].slot) && Denotes(h, props[i].slot.value, members[i].value)
    ensures TextMembers(props) == Some(members)
  {
    if props != [] {
      var n := |props| - 1;
      TextMembersAgain(h, props[..n], members[..n]);
      assert members == members[..n] + [members[n]];
      assert members[n] == Member(members[n].key, Str(members[n].value.text));
    }
  }

  lemma {:induction false} CountMembersAgain(h: Heap, props: seq<Property>, members: seq<Member>)
    requires |props| == |members| && forall i :: 0 <= i < |members| ==> members[i].value.Int? && members[i].value.value >= 0
    requires forall i :: 0 <= i < |members| ==>
               props[i].key == Name(members[i].key) && PlainSlot(props[i].slot) && Denotes(h, props[i].slot.value, members[i].value)
    ensures CountMembers(props) == Some(members)
  {
    if props != [] {
      var n := |props| - 1;
      CountMembersAgain(h, props[..n], members[..n]);
      assert members == members[..n] + [members[n]];
      assert members[n] == Member(members[n].key, Int(members[n].value.value));
    }
  }

  lemma IssueAgain(h: Heap, v: Value, j: Json)
    requires IssueForm(j) && Denotes(h, v, j)
    ensures SnapIssue(h, v) == Some(Kept(j))
  {
    hide IssueKeys, Utf8;
    TextMembersAgain(h, h[v.id].props, j.members);
  }

  lemma MarkerAgain(h: Heap, v: Value, kinds: seq<Text>, j: Json)
    requires MarkerForm(kinds, j) && Denotes(h, v, j)
    ensures SnapMarker(h, v, kinds) == Some(Kept(j))
  {
    hide Lookup, Find, Read;
    DenotedField(h, v, j.members, 0);
    DenotedField(h, v, j.members, 1);
    var range := h[v.id].props[1].slot.value;
    CountMembersAgain(h, h[range.id].props, j.members[1].value.members);
    var counts := j.members[1].value.members;
    assert j.members[1].value == Obj(counts);
    assert j.members == [Member(KIND, Str(j.members[0].value.text)), Member(RANGE, Obj(counts))];
  }

  lemma ItemAgain(h: Heap, rule: NativeRule, v: Value, j: Json)
    requires IsListRule(rule) && ItemForm(rule, j) && Denotes(h, v, j)
    ensures SnapItem(h, rule, v) == Some(Kept(j))
  {
    hide SnapIssue, SnapMarker, IssueForm, MarkerForm;
    match rule
    case Lines =>
    case Issues => IssueAgain(h, v, j);
    case Markers(kinds) => MarkerAgain(h, v, kinds, j);
  }

  lemma {:induction false} ListAgain(h: Heap, rule: NativeRule, slots: seq<Slot>, items: seq<Json>, start: Draft<Json>)
    requires IsListRule(rule) && |slots| == |items| <= MOST_ITEMS && start.kept == []
    requires forall i :: 0 <= i < |items| ==>
               PlainSlot(slots[i]) && Denotes(h, slots[i].value, items[i]) && ItemForm(rule, items[i])
    ensures ListFold(h, rule, slots, start) == Some(start.(kept := items))
  {
    hide SnapItem, ItemForm, Denotes;
    if slots != [] {
      var n := |slots| - 1;
      ListAgain(h, rule, slots[..n], items[..n], start);
      ItemAgain(h, rule, slots[n].value, items[n]);
      assert items == items[..n] + [items[n]];
    }
  }

  // ---------------------------------------------------------------------------------------------
  // Fields are taken whole again, and counters are read back

  // The members that are no counters, and those under one counter's key.
  function Strip(members: seq<Member>): seq<Member> {
    if members == [] then []
    else
      var n := |members| - 1;
      if IsCounter(members[n].key) then Strip(members[..n]) else Strip(members[..n]) + [members[n]]
  }

  function Only(members: seq<Member>, key: Text): seq<Member> {
    if members == [] then []
    else
      var n := |members| - 1;
      if members[n].key == key then Only(members[..n], key) + [members[n]] else Only(members[..n], key)
  }

  function Total(members: seq<Member>): nat {
    if members == [] then 0
    else
      var last := members[|members| - 1].value;
      Total(members[..|members| - 1]) + if last.Int? && last.value >= 0 then last.value else 0
  }

  function DraftOf(members: seq<Member>): Draft<Member> {
    Draft(Strip(members), Total(Only(members, OMITTED_DIAGNOSTICS)), Total(Only(members, OMITTED_CHARACTERS)))
  }

  lemma FieldAgain(c: Table, rules: map<Text, NativeRule>, h: Heap, p: Property, m: Member, d: Draft<Member>)
    requires FieldForm(rules, m) && p.key == Name(m.key) && PlainSlot(p.slot) && Denotes(h, p.slot.value, m.value)
    ensures NativeStep(c, rules, h, p, d) == Some(d.(kept := d.kept + [m]))
  {
    hide ItemForm, ListFold;
    var rule := rules[m.key];
    assert m == Member(m.key, m.value);
    if IsListRule(rule) {
      PresentAll(h[p.slot.value.id].slots);
      ListAgain(h, rule, h[p.slot.value.id].slots, m.value.items, Draft([], d.omitted, d.characters));
    }
  }

  lemma CounterAgain(c: Table, rules: map<Text, NativeRule>, h: Heap, p: Property, m: Member, d: Draft<Member>)
    requires IsCounter(m.key) && m.value.Int? && m.value.value > 0
    requires OMITTED_DIAGNOSTICS in rules && OMITTED_CHARACTERS in rules
    requires p.key == Name(m.key) && PlainSlot(p.slot) && Denotes(h, p.slot.value, m.value)
    ensures NativeStep(c, rules, h, p, d)
            == Some(if m.key == OMITTED_DIAGNOSTICS then d.(omitted := d.omitted + m.value.value)
                    else d.(characters := d.characters + m.value.value))
  {}

  lemma TotalAppend(members: seq<Member>, m: Member)
    requires m.value.Int? && m.value.value > 0
    ensures Total(members + [m]) == Total(members) + m.value.value
  {
    assert (members + [m])[..|members|] == members;
  }

  lemma DraftOfStep(members: seq<Member>)
    requires members != []
    requires var m := members[|members| - 1]; IsCounter(m.key) ==> m.value.Int? && m.value.value > 0
    ensures var m, d := members[|members| - 1], DraftOf(members[..|members| - 1]);
            DraftOf(members) == if !IsCounter(m.key) then d.(kept := d.kept + [m])
                                else if m.key == OMITTED_DIAGNOSTICS then d.(omitted := d.omitted + m.value.value)
                                else d.(characters := d.characters + m.value.value)
  {
    hide Total;
    FittingKeys();
    var n := |members| - 1;
    if IsCounter(members[n].key) {
      TotalAppend(Only(members[..n], members[n].key), members[n]);
    }
  }

  lemma {:induction false} FoldAgain(c: Table, rules: map<Text, NativeRule>, h: Heap, props: seq<Property>, members: seq<Member>)
    requires |props| == |members| && OMITTED_DIAGNOSTICS in rules && OMITTED_CHARACTERS in rules
    requires forall m :: m in members ==> if IsCounter(m.key) then m.value.Int? && m.value.value > 0 else FieldForm(rules, m)
    requires forall i :: 0 <= i < |members| ==>
               props[i].key == Name(members[i].key) && PlainSlot(props[i].slot) && Denotes(h, props[i].slot.value, members[i].value)
    ensures NativeFold(c, rules, h, props) == Some(DraftOf(members))
  {
    hide NativeFold, NativeStep, FieldForm, Denotes, DraftOf, PlainSlot;
    if props == [] {
      NothingFolded(c, rules, h);
      assert members == [] && props == [];
    } else {
      var n := |props| - 1;
      assert members[n] in members && forall m :: m in members[..n] ==> m in members;
      FoldAgain(c, rules, h, props[..n], members[..n]);
      FoldLast(c, rules, h, props, members);
    }
  }

  lemma NothingFolded(c: Table, rules: map<Text, NativeRule>, h: Heap)
    ensures NativeFold(c, rules, h, []) == Some(DraftOf([]))
  {}

  lemma FoldLast(c: Table, rules: map<Text, NativeRule>, h: Heap, props: seq<Property>, members: seq<Member>)
    requires |props| == |members| > 0 && OMITTED_DIAGNOSTICS in rules && OMITTED_CHARACTERS in rules
    requires NativeFold(c, rules, h, props[..|props| - 1]) == Some(DraftOf(members[..|props| - 1]))
    requires var m, p := members[|props| - 1], props[|props| - 1];
             (if IsCounter(m.key) then m.value.Int? && m.value.value > 0 else FieldForm(rules, m)) &&
             p.key == Name(m.key) && PlainSlot(p.slot) && Denotes(h, p.slot.value, m.value)
    ensures NativeFold(c, rules, h, props) == Some(DraftOf(members))
  {
    hide NativeStep, FieldForm, Denotes, DraftOf, PlainSlot;
    var n := |props| - 1;
    DraftOfStep(members);
    if IsCounter(members[n].key) {
      CounterAgain(c, rules, h, props[n], members[n], DraftOf(members[..n]));
    } else {
      FieldAgain(c, rules, h, props[n], members[n], DraftOf(members[..n]));
    }
  }

  // ---------------------------------------------------------------------------------------------
  // Counters last

  lemma {:induction false} SplitBag(members: seq<Member>)
    ensures multiset(members)
            == multiset(Strip(members)) + multiset(Only(members, OMITTED_DIAGNOSTICS)) + multiset(Only(members, OMITTED_CHARACTERS))
  {
    FittingKeys();
    if members != [] {
      var n := |members| - 1;
      var init, m := members[..n], members[n];
      SplitBag(init);
      assert multiset(members) == multiset(init) + multiset{m} by { assert members == init + [m]; }
      assert multiset(Strip(members)) == multiset(Strip(init)) + if IsCounter(m.key) then multiset{} else multiset{m};
      OnlyBag(init, m, OMITTED_DIAGNOSTICS);
      OnlyBag(init, m, OMITTED_CHARACTERS);
    }
  }

  lemma OnlyBag(init: seq<Member>, m: Member, key: Text)
    ensures multiset(Only(init + [m], key)) == multiset(Only(init, key)) + if m.key == key then multiset{m} else multiset{}
  {
    assert (init + [m])[..|init|] == init;
  }

  lemma {:induction false} OnlyOne(members: seq<Member>, key: Text)
    requires DistinctMembers(members)
    ensures Only(members, key) == match Lookup(members, key) case None => [] case Some(value) => [Member(key, value)]
  {
    if members != [] {
      var n := |members| - 1;
      OnlyOne(members[..n], key);
      LookupLast(members, key);
      if members[n].key == key {
        LookupAbsent(members[..n], key);
        assert members[n] == Member(key, members[n].value);
      }
    }
  }

  lemma {:induction false} LookupLast(members: seq<Member>, key: Text)
    requires members != []
    ensures var n := |members| - 1;
            Lookup(members, key)
            == if Lookup(members[..n], key).Some? then Lookup(members[..n], key)
               else if members[n].key == key then Some(members[n].value) else None
  {
    if |members| > 1 {
      assert members[..|members| - 1][1..] == members[1..][..|members| - 2];
      LookupLast(members[1..], key);
    }
  }

  lemma {:induction false} StripLookup(members: seq<Member>, key: Text)
    ensures Lookup(Strip(members), key) == if IsCounter(key) then None else Lookup(members, key)
  {
    if members != [] {
      var n := |members| - 1;
      StripLookup(members[..n], key);
      LookupLast(members, key);
      if !IsCounter(members[n].key) {
        assert Strip(members)[..|Strip(members)| - 1] == Strip(members[..n]);
        LookupLast(Strip(members), key);
      }
    }
  }

  // The same members with their counters moved to the end.
  function Settle(members: seq<Member>): seq<Member> {
    Strip(members) + Only(members, OMITTED_DIAGNOSTICS) + Only(members, OMITTED_CHARACTERS)
  }

  lemma SettleBag(members: seq<Member>)
    ensures multiset(Settle(members)) == multiset(members)
  {
    SplitBag(members);
  }

  lemma CountedNew(members: seq<Member>, key: Text, only: seq<Member>)
    requires Lookup(members, key).None?
    requires only == [] || exists n: SafeInt :: n > 0 && only == [Member(key, Int(n))]
    ensures Total(only) <= MAX_SAFE_INTEGER && Counted(members, key, Total(only)) == members + only
  {
    if only != [] {
      var n: SafeInt :| n > 0 && only == [Member(key, Int(n))];
      assert Total(only) == Total(only[..0]) + n;
      PutNew(members, key, Int(n));
    }
  }

  lemma OnlyCounter(rules: map<Text, NativeRule>, members: seq<Member>, key: Text)
    requires DraftForm(rules, members) && IsCounter(key)
    ensures var only := Only(members, key); only == [] || exists n: SafeInt :: n > 0 && only == [Member(key, Int(n))]
  {
    hide FieldForm, Lookup;
    OnlyOne(members, key);
    if Lookup(members, key).Some? {
      LookupIndex(members, key);
    }
  }

  // The path of the details read back is already the summary of their issues.
  lemma SummaryAgain(rules: map<Text, NativeRule>, out: seq<Member>, summarize: bool)
    requires DraftForm(rules, out)
    requires summarize ==> Lookup(out, PATH) == match Summary(IssuesIn(out)) case None => None case Some(path) => Some(Str(path))
    requires !summarize ==> !Summarizes(IssuesIn(out))
    ensures IssuesIn(Strip(out)) == IssuesIn(out)
    ensures Summarized(Summarizes(IssuesIn(out)), Strip(out)) == Strip(out)
  {
    hide Lookup, Put, Without, Summary, Summarizes;
    FittingKeys();
    StripLookup(out, ISSUES);
    StripLookup(out, PATH);
    if Summarizes(IssuesIn(out)) {
      match Summary(IssuesIn(out)) {
        case Some(path) => PutSame(Strip(out), PATH, Str(path));
        case None => WithoutSame(Strip(out), PATH);
      }
    }
  }

  lemma RefreshAgain(rules: map<Text, NativeRule>, out: seq<Member>, summarize: bool)
    requires DraftForm(rules, out)
    requires Summarized(summarize, Strip(out)) == Strip(out)
    ensures Refresh(summarize, DraftOf(out)) == Some(Settle(out))
  {
    hide Strip, Only, Total, DraftForm, Summarized, Counted, Lookup;
    FittingKeys();
    OnlyCounter(rules, out, OMITTED_DIAGNOSTICS);
    OnlyCounter(rules, out, OMITTED_CHARACTERS);
    var a, b := Only(out, OMITTED_DIAGNOSTICS), Only(out, OMITTED_CHARACTERS);
    StripLookup(out, OMITTED_DIAGNOSTICS);
    StripLookup(out, OMITTED_CHARACTERS);
    CountedNew(Strip(out), OMITTED_DIAGNOSTICS, a);
    if a != [] { LookupAppendOther(Strip(out), a[0], OMITTED_CHARACTERS); } else { assert Strip(out) + a == Strip(out); }
    assert Strip(out) + a == if a == [] then Strip(out) else Strip(out) + [a[0]];
    CountedNew(Strip(out) + a, OMITTED_CHARACTERS, b);
  }

  lemma LookupAppendOther(members: seq<Member>, m: Member, key: Text)
    requires m.key != key
    ensures Lookup(members + [m], key) == Lookup(members, key)
  {
    assert (members + [m])[..|members|] == members;
    LookupLast(members + [m], key);
  }

  // Without a path in any issue before fitting there is none after it.
  lemma NoPathAfter(c: Table, reason: Text, policy: Policy, summarize: bool, d: Draft<Member>)
    requires policy.code in c.catalog && Tidy(summarize, d.kept) && !Summarizes(IssuesIn(d.kept))
    requires Fit(c, reason, policy, summarize, d).Some?
    ensures !Summarizes(IssuesIn(Fit(c, reason, policy, summarize, d).value))
  {
    hide Lookup, Fit, Tidy, PathOf;
    FittingKeys();
    FitTrims(c, reason, policy, summarize, d, ISSUES);
    var was, now := IssuesIn(d.kept), IssuesIn(Fit(c, reason, policy, summarize, d).value);
    assert now <= was;
    forall i | 0 <= i < |now| ensures PathOf(now[i]).None? {
      assert now[i] == was[i];
    }
  }

  // The budget holds for the details whatever the order of their members.
  lemma FitsPermuted(c: Table, reason: Text, policy: Policy, a: seq<Member>, b: seq<Member>)
    requires policy.code in c.catalog && multiset(a) == multiset(b) && Fits(c, reason, policy, a)
    ensures Fits(c, reason, policy, b)
  {
    hide Size, PrintedSize, EnvelopeJson;
    SizesPermuted(a, b, 0);
    EnvelopePermuted(Envelope(EXPORT_ID, NativeFailure(c, reason, policy, a)), a, b);
  }

  /** Details of at most 16 fields taken from native details are the same details, with the counters last. */
  lemma NativeAgain(c: Table, reason: Text, policy: Policy, h: Heap, input: Value, g: Heap, v: Value)
    requires NativePolicy(c, policy) && OMITTED_DIAGNOSTICS in policy.kind.rules && OMITTED_CHARACTERS in policy.kind.rules
    requires NativeDetails(c, reason, policy, h, input).Some?
    requires Denotes(g, v, NativeDetails(c, reason, policy, h, input).value)
    requires |NativeDetails(c, reason, policy, h, input).value.members| <= 16
    ensures var out := NativeDetails(c, reason, policy, h, input).value.members;
            NativeDetails(c, reason, policy, g, v) == Some(Obj(Settle(out))) && multiset(Settle(out)) == multiset(out)
  {
    hide NativeFold, Refresh, Fits, Tidy, FieldForm, Summarizes, IssuesIn, Settle, Summary, Lookup, DistinctMembers,
      Summarized, Strip, Total, Only;
    var rules := policy.kind.rules;
    CollectedForm(c, rules, h, input);
    var d := NativeFold(c, rules, h, h[input.id].props).value;
    DraftTidy(rules, d.kept);
    var summarize := Summarizes(IssuesIn(d.kept));
    var out := NativeDetails(c, reason, policy, h, input).value.members;
    FitSettles(c, reason, policy, summarize, d);
    FitForm(c, reason, policy, summarize, d, rules);
    if !summarize { NoPathAfter(c, reason, policy, summarize, d); }
    FoldAgain(c, rules, g, g[v.id].props, out);
    SummaryAgain(rules, out, summarize);
    RefreshAgain(rules, out, Summarizes(IssuesIn(out)));
    SettleBag(out);
    FitsPermuted(c, reason, policy, out, Settle(out));
  }

  // ---------------------------------------------------------------------------------------------
  // When nothing at all changes

  // The counters come last, the count before the characters.
  predicate CountersLast(members: seq<Member>) {
    forall i, j :: 0 <= i < j < |members| && IsCounter(members[i].key) ==>
      members[i].key == OMITTED_DIAGNOSTICS && members[j].key == OMITTED_CHARACTERS
  }

  lemma {:induction false} StripPlain(members: seq<Member>)
    ensures forall m :: m in Strip(members) ==> !IsCounter(m.key)
    ensures (forall m :: m in members ==> !IsCounter(m.key)) ==> Strip(members) == members
  {
    if members != [] {
      var n := |members| - 1;
      StripPlain(members[..n]);
      assert members == members[..n] + [members[n]];
    }
  }

  lemma {:induction false} OnlyNone(members: seq<Member>, key: Text)
    requires forall m :: m in members ==> m.key != key
    ensures Only(members, key) == []
  {
    if members != [] {
      OnlyNone(members[..|members| - 1], key);
    }
  }

  lemma {:induction false} OnlyKey(members: seq<Member>, key: Text)
    requires DistinctMembers(members)
    ensures |Only(members, key)| <= 1 && forall m :: m in Only(members, key) ==> m.key == key
  {
    hide Lookup;
    OnlyOne(members, key);
  }

  /** Reading native details back keeps even their order exactly when the counters are already last. */
  lemma SettleSame(members: seq<Member>)
    requires DistinctMembers(members)
    ensures Settle(members) == members <==> CountersLast(members)
  {
    FittingKeys();
    StripPlain(members);
    OnlyKey(members, OMITTED_DIAGNOSTICS);
    OnlyKey(members, OMITTED_CHARACTERS);
    if Settle(members) == members {
      SettledLast(Strip(members), Only(members, OMITTED_DIAGNOSTICS), Only(members, OMITTED_CHARACTERS));
    }
    if CountersLast(members) {
      LastSettled(members);
    }
  }

  lemma SettledLast(plain: seq<Member>, counts: seq<Member>, characters: seq<Member>)
    requires forall m :: m in plain ==> !IsCounter(m.key)
    requires |counts| <= 1 && (forall m :: m in counts ==> m.key == OMITTED_DIAGNOSTICS)
    requires |characters| <= 1 && (forall m :: m in characters ==> m.key == OMITTED_CHARACTERS)
    ensures CountersLast(plain + counts + characters)
  {
    var all := plain + counts + characters;
    forall i | 0 <= i < |all|
      ensures i < |plain| ==> !IsCounter(all[i].key)
      ensures |plain| <= i < |plain| + |counts| ==> all[i].key == OMITTED_DIAGNOSTICS
      ensures |plain| + |counts| <= i ==> all[i].key == OMITTED_CHARACTERS
    {
      if i < |plain| { assert all[i] == plain[i]; }
      else if i < |plain| + |counts| { assert all[i] == counts[i - |plain|]; }
      else { assert all[i] == characters[i - |plain| - |counts|]; }
    }
  }

  lemma {:induction false} LastSettled(members: seq<Member>)
    requires DistinctMembers(members) && CountersLast(members)
    ensures Settle(members) == members
  {
    FittingKeys();
    if members != [] {
      var n := |members| - 1;
      var init := members[..n];
      assert members == init + [members[n]];
      LastSettled(init);
      if members[n].key == OMITTED_CHARACTERS {
        OnlyNone(init, OMITTED_CHARACTERS);
      } else {
        StripPlain(init);
        OnlyNone(init, OMITTED_DIAGNOSTICS);
        OnlyNone(init, OMITTED_CHARACTERS);
      }
    }
  }
}
