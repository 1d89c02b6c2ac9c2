/** Which details a policy takes and which it refuses: packages/contracts/src/failure.ts, lines 349-371, 498-514 and 648-685. */
module DetailsAccepted {
  import opened Options
  import opened JsonText
  import opened JsonFacts
  import opened JsHeap
  import opened FailureModel
  import opened PlainPolicies
  import opened FactPolicies
  import opened FactBudget
  import opened NativeCollection

  // ---------------------------------------------------------------------------------------------
  // Plain details

  const CHECKS: Text := U("checks")

  // A list of checks under a field that takes one.
  predicate ChecksField(policy: Policy, h: Heap, p: Property)
    requires policy.kind.Plain? && p.key.Name? && p.slot.Data?
  {
    p.key.text == CHECKS && CHECKS in policy.kind.fields && Checks(h, p.slot.value).Some?
  }

  /** No critical key, and no object but a list of checks. */
  predicate PlainSupported(c: Table, policy: Policy, h: Heap, p: Property)
    requires policy.kind.Plain?
  {
    p.key.Symbol? ||
    (!c.critical(p.key.text) && (p.slot.Data? && IsObject(h, p.slot.value) ==> ChecksField(policy, h, p)))
  }

  lemma PlainStepIff(c: Table, policy: Policy, h: Heap, p: Property, t: Tally)
    requires policy.kind.Plain?
    ensures PlainStep(c, policy, h, p, t).Some? <==> PlainSupported(c, policy, h, p)
  {
    hide Checks;
    assert CHECKS[0] == 0x63 && STAGE[0] == 0x73 && ERROR_CLASS[0] == 0x65;
  }

  lemma {:induction false} PlainFoldIff(c: Table, policy: Policy, h: Heap, props: seq<Property>)
    requires policy.kind.Plain?
    ensures PlainFold(c, policy, h, props).Some? <==> forall i :: 0 <= i < |props| ==> PlainSupported(c, policy, h, props[i])
  {
    hide PlainStep, PlainSupported;
    if props != [] {
      var n := |props| - 1;
      PlainFoldIff(c, policy, h, props[..n]);
      assert forall i :: 0 <= i < n ==> props[..n][i] == props[i];
      if PlainFold(c, policy, h, props[..n]).Some? {
        PlainStepIff(c, policy, h, props[n], PlainFold(c, policy, h, props[..n]).value);
      }
    }
  }

  /** Plain details are taken exactly from a record all of whose fields are supported. */
  lemma PlainIff(c: Table, policy: Policy, h: Heap, input: Value)
    requires policy.kind.Plain?
    ensures PlainDetails(c, policy, h, input).Some? <==>
            IsRecord(h, input) && forall i :: 0 <= i < |h[input.id].props| ==> PlainSupported(c, policy, h, h[input.id].props[i])
  {
    hide PlainSupported, PlainFold;
    if IsRecord(h, input) { PlainFoldIff(c, policy, h, h[input.id].props); }
  }

  // The fact a property is kept as, if it is.
  function PlainKept(policy: Policy, h: Heap, p: Property): Option<Member>
    requires policy.kind.Plain?
  {
    if p.key.Name? && p.slot.Data? && (p.key.text == STAGE || p.key.text in policy.kind.fields) &&
       !(p.key.text == OMITTED && policy.code != UNCLASSIFIED && IsCount(p.slot.value)) && Fact(h, p.key.text, p.slot.value).Some?
    then Some(Member(p.key.text, Fact(h, p.key.text, p.slot.value).value))
    else None
  }

  lemma PlainStepKept(c: Table, policy: Policy, h: Heap, p: Property, t: Tally)
    requires policy.kind.Plain? && PlainStep(c, policy, h, p, t).Some?
    ensures PlainStep(c, policy, h, p, t).value.kept
            == t.kept + match PlainKept(policy, h, p) case None => [] case Some(m) => [m]
  {
    hide Fact;
    assert t.kept + [] == t.kept;
  }

  /** The details are the kept facts and, but for an unclassified failure, the capped count of what was dropped. */
  lemma PlainBooks(c: Table, policy: Policy, h: Heap, input: Value)
    requires policy.kind.Plain? && PlainDetails(c, policy, h, input).Some?
    ensures var t := PlainFold(c, policy, h, h[input.id].props).value;
            && t.omitted == Weights(policy, h[input.id].props) - |t.kept|
            && PlainDetails(c, policy, h, input).value.members
               == if policy.code == UNCLASSIFIED || t.omitted == 0 then t.kept
                  else t.kept + [Member(OMITTED, Int(if t.omitted < 1_000_000 then t.omitted else 1_000_000))]
  {
    hide PlainFold;
    PlainConserves(c, policy, h, h[input.id].props);
    assert forall kept: seq<Member> :: kept + [] == kept;
  }

  // ---------------------------------------------------------------------------------------------
  // Fact details

  /** A declared key, an earlier count, or a value that is no object under a key that is not critical. */
  predicate FactSupported(c: Table, schema: seq<FactRule>, h: Heap, p: Property)
    requires p.key.Name? && p.slot.Data?
  {
    || Declares(schema, p.key.text)
    || (p.key.text == OMITTED && IsCount(p.slot.value))
    || (!c.critical(p.key.text) && !IsObject(h, p.slot.value))
  }

  lemma {:induction false} DeclaredIff(h: Heap, props: seq<Property>, schema: seq<FactRule>)
    ensures Declared(h, props, schema).Some? <==> forall i :: 0 <= i < |schema| ==> FactMet(h, props, schema[i])
  {
    hide RuleValue, Find;
    if schema != [] {
      var n := |schema| - 1;
      DeclaredIff(h, props, schema[..n]);
      assert forall i :: 0 <= i < n ==> schema[..n][i] == schema[i];
    }
  }

  // What an undeclared field adds to the count.
  function FactUnit(schema: seq<FactRule>, p: Property): nat
    requires p.key.Name? && p.slot.Data?
  {
    if Declares(schema, p.key.text) then 0
    else if p.key.text == OMITTED && IsCount(p.slot.value) then p.slot.value.value
    else 1
  }

  function FactUnits(schema: seq<FactRule>, props: seq<Property>): nat
    requires forall i :: 0 <= i < |props| ==> props[i].key.Name? && props[i].slot.Data?
  {
    if props == [] then 0 else FactUnits(schema, props[..|props| - 1]) + FactUnit(schema, props[|props| - 1])
  }

  lemma {:induction false} UndeclaredIff(c: Table, schema: seq<FactRule>, h: Heap, props: seq<Property>)
    requires forall i :: 0 <= i < |props| ==> props[i].key.Name? && props[i].slot.Data?
    ensures Undeclared(c, schema, h, props).Some? <==> forall i :: 0 <= i < |props| ==> FactSupported(c, schema, h, props[i])
    ensures Undeclared(c, schema, h, props).Some? ==> Undeclared(c, schema, h, props).value == FactUnits(schema, props)
  {
    hide Declares;
    if props != [] {
      var n := |props| - 1;
      UndeclaredIff(c, schema, h, props[..n]);
      assert forall i :: 0 <= i < n ==> props[..n][i] == props[i];
    }
  }

  lemma PlainFieldsOnly(h: Heap, input: Value)
    requires IsDataRecord(h, input)
    ensures var props := h[input.id].props; forall i :: 0 <= i < |props| ==> props[i].key.Name? && props[i].slot.Data?
  {}

  /** Fact details are taken from a plain record of at most 16 fields, exactly when facts meet their rules and the rest is supported. */
  lemma FactsIff(c: Table, schema: seq<FactRule>, h: Heap, input: Value)
    ensures FactDetails(c, schema, h, input).Some? <==>
            && IsRecord(h, input) && !h[input.id].proto.ForeignProto?
            && var props := h[input.id].props;
            && |props| <= 16
            && (forall i :: 0 <= i < |schema| ==> FactMet(h, props, schema[i]))
            && (forall i :: 0 <= i < |props| ==>
                  props[i].key.Name? && props[i].slot.Data? && props[i].slot.enumerable && FactSupported(c, schema, h, props[i]))
  {
    hide Declared, Undeclared, FactMet, FactSupported;
    if IsDataRecord(h, input) {
      PlainFieldsOnly(h, input);
      DeclaredIff(h, h[input.id].props, schema);
      UndeclaredIff(c, schema, h, h[input.id].props);
    }
  }

  /** The details are the declared facts and the capped count of the undeclared fields, earlier counts carried over. */
  lemma FactsBooks(c: Table, schema: seq<FactRule>, h: Heap, input: Value)
    requires FactDetails(c, schema, h, input).Some?
    ensures IsDataRecord(h, input)
    ensures var props := h[input.id].props; forall i :: 0 <= i < |props| ==> props[i].key.Name? && props[i].slot.Data?
    ensures var props := h[input.id].props;
            var omitted := FactUnits(schema, props);
            && Declared(h, props, schema).Some?
            && FactDetails(c, schema, h, input).value.members
               == if omitted == 0 then Declared(h, props, schema).value
                  else Declared(h, props, schema).value + [Member(OMITTED, Int(if omitted < 1_000_000 then omitted else 1_000_000))]
  {
    hide Declared, Undeclared, PlainRecord;
    PlainFieldsOnly(h, input);
    UndeclaredIff(c, schema, h, h[input.id].props);
    assert forall kept: seq<Member> :: kept + [] == kept;
  }

  // ---------------------------------------------------------------------------------------------
  // The values a rule takes

  lemma {:induction false} TextsIff(slots: seq<Slot>, accepts: Text -> bool)
    ensures TextItems(slots, accepts).Some? <==>
            forall i :: 0 <= i < |slots| ==> slots[i].Data? && slots[i].value.StrV? && accepts(slots[i].value.text)
    ensures TextItems(slots, accepts).Some? ==>
              forall i :: 0 <= i < |slots| ==> slots[i].Data? && slots[i].value.StrV? &&
                                               TextItems(slots, accepts).value[i] == Str(slots[i].value.text)
  {
    if slots != [] {
      var n := |slots| - 1;
      TextsIff(slots[..n], accepts);
      assert forall i :: 0 <= i < n ==> slots[..n][i] == slots[i];
    }
  }

  // The checks a plain fact may list.
  lemma ChecksExact(h: Heap, v: Value)
    ensures Checks(h, v).Some? <==>
            IsList(h, v) && |h[v.id].slots| <= 32 &&
            forall i :: 0 <= i < |h[v.id].slots| ==>
              h[v.id].slots[i].Data? && h[v.id].slots[i].value.StrV? &&
              (h[v.id].slots[i].value.text == U("ownership") || h[v.id].slots[i].value.text == U("anchors"))
    ensures Checks(h, v).Some? ==>
              Checks(h, v).value.Arr? && |Checks(h, v).value.items| == |h[v.id].slots| &&
              forall i :: 0 <= i < |h[v.id].slots| ==> h[v.id].slots[i].Data? && h[v.id].slots[i].value.StrV? &&
                                                       Checks(h, v).value.items[i] == Str(h[v.id].slots[i].value.text)
  {
    if IsList(h, v) { TextsIff(h[v.id].slots, IsCheck); }
  }

  // A plain record of two strings that go together.
  predicate PairMet(h: Heap, v: Value, first: Text, second: Text, pairs: (Text, Text) -> bool) {
    IsRecord(h, v) && PlainRecord(h[v.id]) && |h[v.id].props| == 2 &&
    match (Read(h, v, first), Read(h, v, second))
    case (Some(StrV(a)), Some(StrV(b))) => pairs(a, b)
    case _ => false
  }

  lemma PairIff(h: Heap, slot: Slot, first: Text, second: Text, pairs: (Text, Text) -> bool)
    ensures FactPolicies.Pair(h, slot, first, second, pairs).Some? <==> slot.Data? && PairMet(h, slot.value, first, second, pairs)
    ensures FactPolicies.Pair(h, slot, first, second, pairs).Some? ==>
              slot.Data? && PairShown(h, slot.value, first, second, FactPolicies.Pair(h, slot, first, second, pairs).value)
  {
    hide Read, PlainRecord;
  }

  lemma {:induction false} PairsIff(h: Heap, slots: seq<Slot>, first: Text, second: Text, pairs: (Text, Text) -> bool)
    ensures PairItems(h, slots, first, second, pairs).Some? <==>
            forall i :: 0 <= i < |slots| ==> slots[i].Data? && PairMet(h, slots[i].value, first, second, pairs)
    ensures PairItems(h, slots, first, second, pairs).Some? ==>
              forall i :: 0 <= i < |slots| ==>
                slots[i].Data? && PairShown(h, slots[i].value, first, second, PairItems(h, slots, first, second, pairs).value[i])
  {
    hide FactPolicies.Pair, PairMet, PairShown;
    if slots != [] {
      var n := |slots| - 1;
      PairsIff(h, slots[..n], first, second, pairs);
      assert forall i :: 0 <= i < n ==> slots[..n][i] == slots[i];
      PairIff(h, slots[n], first, second, pairs);
    }
  }

  predicate PairShown(h: Heap, v: Value, first: Text, second: Text, j: Json) {
    match (Read(h, v, first), Read(h, v, second))
    case (Some(StrV(a)), Some(StrV(b))) => j == Obj([Member(first, Str(a)), Member(second, Str(b))])
    case _ => false
  }

  // A list whose own keys are its length and its elements.
  predicate PureList(h: Heap, v: Value) {
    IsList(h, v) && h[v.id].others == [] && forall i :: 0 <= i < |h[v.id].slots| ==> h[v.id].slots[i].Data?
  }

  /** The value v meets the rule. */
  predicate RuleMet(h: Heap, rule: Rule, v: Value) {
    match rule
    case Uint => v.IntV? && 0 <= v.value
    case Boolean => v.BoolV?
    case Word(accepts) => v.StrV? && Bytes(v.text) <= 256 && accepts(v.text)
    case LongWord(accepts, orNull) => (orNull && v.NullV?) || (v.StrV? && Bytes(v.text) <= 1024 && accepts(v.text))
    case Words(count, limit, accepts) =>
      PureList(h, v) && |h[v.id].slots| <= count &&
      forall i :: 0 <= i < |h[v.id].slots| ==>
        var word := h[v.id].slots[i].value; word.StrV? && Bytes(word.text) <= limit && accepts(word.text)
    case Pairs(least, most, first, second, pairs) =>
      PureList(h, v) && least <= |h[v.id].slots| <= most &&
      forall i :: 0 <= i < |h[v.id].slots| ==> PairMet(h, h[v.id].slots[i].value, first, second, pairs)
  }

  /** The value j shows what v holds, the fields of a pair in the order of the rule. */
  predicate RuleShown(h: Heap, rule: Rule, v: Value, j: Json) {
    match rule
    case Words(_, _, _) =>
      PureList(h, v) && j.Arr? && |j.items| == |h[v.id].slots| &&
      forall i :: 0 <= i < |j.items| ==> h[v.id].slots[i].value.StrV? && j.items[i] == Str(h[v.id].slots[i].value.text)
    case Pairs(_, _, first, second, _) =>
      PureList(h, v) && j.Arr? && |j.items| == |h[v.id].slots| &&
      forall i :: 0 <= i < |j.items| ==> PairShown(h, h[v.id].slots[i].value, first, second, j.items[i])
    case _ => ScalarData(v) && j == FromScalar(v)
  }

  lemma PureClosed(h: Heap, v: Value)
    requires IsList(h, v) && forall i :: 0 <= i < |h[v.id].slots| ==> h[v.id].slots[i].Data?
    ensures PureList(h, v) <==> IsClosedList(h, v)
  {
    PresentAll(h[v.id].slots);
  }

  lemma WordsMet(h: Heap, rule: Rule, v: Value)
    requires rule.Words?
    ensures RuleValue(h, rule, v).Some? <==> RuleMet(h, rule, v)
    ensures RuleValue(h, rule, v).Some? ==> RuleShown(h, rule, v, RuleValue(h, rule, v).value)
  {
    hide Bytes, Present;
    var accepts := t => ShortText(t, rule.limit, rule.accepts);
    if IsList(h, v) {
      var slots := h[v.id].slots;
      TextsIff(slots, accepts);
      if forall i :: 0 <= i < |slots| ==> slots[i].Data? { PureClosed(h, v); }
      assert forall t: Text :: accepts(t) <==> Bytes(t) <= rule.limit && rule.accepts(t);
    }
  }

  lemma PairsMet(h: Heap, rule: Rule, v: Value)
    requires rule.Pairs?
    ensures RuleValue(h, rule, v).Some? <==> RuleMet(h, rule, v)
    ensures RuleValue(h, rule, v).Some? ==> RuleShown(h, rule, v, RuleValue(h, rule, v).value)
  {
    hide Present, PairMet, PairShown;
    if IsList(h, v) {
      var slots := h[v.id].slots;
      PairsIff(h, slots, rule.first, rule.second, rule.pairs);
      if forall i :: 0 <= i < |slots| ==> slots[i].Data? { PureClosed(h, v); }
    }
  }

  /** A fact is taken exactly when it meets its rule, and it is taken as it is. */
  lemma RuleValueIff(h: Heap, rule: Rule, v: Value)
    ensures RuleValue(h, rule, v).Some? <==> RuleMet(h, rule, v)
    ensures RuleValue(h, rule, v).Some? ==> RuleShown(h, rule, v, RuleValue(h, rule, v).value)
  {
    hide Bytes;
    match rule
    case Words(_, _, _) => WordsMet(h, rule, v);
    case Pairs(_, _, _, _, _) => PairsMet(h, rule, v);
    case _ =>
  }

  // ---------------------------------------------------------------------------------------------
  // Native details

  // An issue: strings under the three required keys, and under path at most.
  predicate IssueSupported(h: Heap, v: Value) {
    IsDataRecord(h, v) &&
    var props := h[v.id].props;
    && (forall i :: 0 <= i < |props| ==>
          props[i].slot.Data? && props[i].slot.value.StrV? && props[i].key.Name? && props[i].key.text in ISSUE_FIELDS + [PATH])
    && (forall f :: f in ISSUE_FIELDS ==> exists i :: 0 <= i < |props| && props[i].key == Name(f))
  }

  predicate CountsOnly(h: Heap, v: Value) {
    IsDataRecord(h, v) && |h[v.id].props| == 4 &&
    var props := h[v.id].props;
    && (forall i :: 0 <= i < 4 ==> props[i].slot.Data? && IsCount(props[i].slot.value) && props[i].key.Name?)
    && (forall f :: f in RANGE_FIELDS ==> exists i :: 0 <= i < 4 && props[i].key == Name(f))
  }

  // A marker: one of the kinds, and a range of four counts.
  predicate MarkerSupported(h: Heap, v: Value, kinds: seq<Text>) {
    IsDataRecord(h, v) && |h[v.id].props| == 2 &&
    Read(h, v, KIND).Some? && Read(h, v, KIND).value.StrV? && Read(h, v, KIND).value.text in kinds &&
    Read(h, v, RANGE).Some? && CountsOnly(h, Read(h, v, RANGE).value)
  }

  predicate ItemSupported(h: Heap, rule: NativeRule, v: Value)
    requires IsListRule(rule)
  {
    match rule
    case Lines => v.StrV?
    case Issues => IssueSupported(h, v)
    case Markers(kinds) => MarkerSupported(h, v, kinds)
  }

  lemma {:induction false} TextMembersIff(props: seq<Property>)
    ensures TextMembers(props).Some? <==>
            forall i :: 0 <= i < |props| ==> props[i].slot.Data? && props[i].slot.value.StrV? && props[i].key.Name?
  {
    if props != [] { TextMembersIff(props[..|props| - 1]); }
  }

  lemma {:induction false} CountMembersIff(props: seq<Property>)
    ensures CountMembers(props).Some? <==>
            forall i :: 0 <= i < |props| ==> props[i].slot.Data? && IsCount(props[i].slot.value) && props[i].key.Name?
  {
    if props != [] { CountMembersIff(props[..|props| - 1]); }
  }

  lemma LookupNamed(props: seq<Property>, members: seq<Member>, key: Text)
    requires |props| == |members| && forall i :: 0 <= i < |props| ==> props[i].key == Name(members[i].key)
    ensures Lookup(members, key).Some? <==> exists i :: 0 <= i < |props| && props[i].key == Name(key)
  {
    LookupAbsent(members, key);
    if i :| 0 <= i < |members| && members[i].key == key { assert props[i].key == Name(key); }
  }

  lemma IssueIff(h: Heap, v: Value)
    ensures SnapIssue(h, v).Some? <==> IssueSupported(h, v)
    ensures SnapIssue(h, v).Some? ==>
              (SnapIssue(h, v).value.Kept? <==>
               forall i :: 0 <= i < |h[v.id].props| ==> Bytes(h[v.id].props[i].slot.value.text) <= SHORT)
  {
    hide Bytes, Lookup, PlainRecord, TextMembers;
    if IsDataRecord(h, v) {
      PlainFieldsOnly(h, v);
      var props := h[v.id].props;
      TextMembersIff(props);
      if TextMembers(props).Some? {
        forall f ensures Lookup(TextMembers(props).value, f).Some? <==> exists i :: 0 <= i < |props| && props[i].key == Name(f) {
          LookupNamed(props, TextMembers(props).value, f);
        }
      }
    }
  }

  lemma CountsIff(h: Heap, v: Value)
    requires IsDataRecord(h, v) && |h[v.id].props| == 4
    ensures CountsOnly(h, v) <==>
            CountMembers(h[v.id].props).Some? && forall f :: f in RANGE_FIELDS ==> Lookup(CountMembers(h[v.id].props).value, f).Some?
  {
    hide Lookup, PlainRecord, CountMembers;
    PlainFieldsOnly(h, v);
    var props := h[v.id].props;
    CountMembersIff(props);
    if CountMembers(props).Some? {
      forall f ensures Lookup(CountMembers(props).value, f).Some? <==> exists i :: 0 <= i < |props| && props[i].key == Name(f) {
        LookupNamed(props, CountMembers(props).value, f);
      }
    }
  }

  lemma MarkerIff(h: Heap, v: Value, kinds: seq<Text>)
    ensures SnapMarker(h, v, kinds).Some? <==> MarkerSupported(h, v, kinds)
    ensures SnapMarker(h, v, kinds).Some? ==> SnapMarker(h, v, kinds).value.Kept?
  {
    hide CountsOnly, PlainRecord, CountMembers, Lookup;
    if IsDataRecord(h, v) && Read(h, v, RANGE).Some? {
      var range := Read(h, v, RANGE).value;
      if IsDataRecord(h, range) && |h[range.id].props| == 4 { CountsIff(h, range); }
    }
    RangeCounts(h, v);
  }

  lemma RangeCounts(h: Heap, v: Value)
    ensures Read(h, v, RANGE).Some? && CountsOnly(h, Read(h, v, RANGE).value) ==>
              IsDataRecord(h, Read(h, v, RANGE).value) && |h[Read(h, v, RANGE).value.id].props| == 4
  {}

  lemma ItemIff(h: Heap, rule: NativeRule, v: Value)
    requires IsListRule(rule)
    ensures SnapItem(h, rule, v).Some? <==> ItemSupported(h, rule, v)
    ensures SnapItem(h, rule, v).Some? ==>
              (SnapItem(h, rule, v).value.Kept? <==>
               match rule
               case Lines => Bytes(v.text) <= SHORT
               case Issues => forall i :: 0 <= i < |h[v.id].props| ==> Bytes(h[v.id].props[i].slot.value.text) <= SHORT
               case Markers(_) => true)
  {
    hide SnapIssue, SnapMarker, IssueSupported, MarkerSupported, Bytes;
    match rule
    case Lines =>
    case Issues => IssueIff(h, v);
    case Markers(kinds) => MarkerIff(h, v, kinds);
  }

  // A list that is dense own data; its first 32 entries are looked at.
  predicate ListSupported(h: Heap, rule: NativeRule, v: Value)
    requires IsListRule(rule)
  {
    IsList(h, v) && h[v.id].others == [] &&
    var slots := h[v.id].slots;
    forall i :: 0 <= i < |slots| ==> slots[i].Data? && (i < 32 ==> ItemSupported(h, rule, slots[i].value))
  }

  /** The value a rule takes; outside the rules, no object and no critical key. */
  predicate NativeSupported(c: Table, rules: map<Text, NativeRule>, h: Heap, p: Property) {
    p.key.Name? && p.slot.Data? &&
    var key, v := p.key.text, p.slot.value;
    if key !in rules then !c.critical(key) && !IsObject(h, v)
    else if key == OMITTED_DIAGNOSTICS || key == OMITTED_CHARACTERS then IsCount(v)
    else
      match rules[key]
      case Count => IsCount(v) || (key == OBSERVED && (v.NumV? || v.IntV?))
      case Diagnostic(accepts) => v.StrV? && (Bytes(v.text) <= SHORT ==> accepts(v.text))
      case _ => ListSupported(h, rules[key], v)
  }

  lemma {:induction false} ListFoldIff(h: Heap, rule: NativeRule, slots: seq<Slot>, start: Draft<Json>)
    requires IsListRule(rule)
    ensures ListFold(h, rule, slots, start).Some? <==>
            forall i :: 0 <= i < |slots| ==> slots[i].Data? && (i < 32 ==> ItemSupported(h, rule, slots[i].value))
  {
    hide SnapItem, ItemSupported;
    if slots != [] {
      var n := |slots| - 1;
      ListFoldIff(h, rule, slots[..n], start);
      assert forall i :: 0 <= i < n ==> slots[..n][i] == slots[i];
      if slots[n].Data? { ItemIff(h, rule, slots[n].value); }
    }
  }

  lemma NativeStepIff(c: Table, rules: map<Text, NativeRule>, h: Heap, p: Property, d: Draft<Member>)
    ensures NativeStep(c, rules, h, p, d).Some? <==> NativeSupported(c, rules, h, p)
  {
    hide Bytes, ItemSupported, ListFold;
    if p.key.Name? && p.slot.Data? && p.key.text in rules && IsListRule(rules[p.key.text]) && IsList(h, p.slot.value) {
      PresentAll(h[p.slot.value.id].slots);
      ListFoldIff(h, rules[p.key.text], h[p.slot.value.id].slots, Draft([], d.omitted, d.characters));
    }
  }

  lemma {:induction false} NativeFoldIff(c: Table, rules: map<Text, NativeRule>, h: Heap, props: seq<Property>)
    ensures NativeFold(c, rules, h, props).Some? <==> forall i :: 0 <= i < |props| ==> NativeSupported(c, rules, h, props[i])
  {
    hide NativeStep, NativeSupported;
    if props != [] {
      var n := |props| - 1;
      NativeFoldIff(c, rules, h, props[..n]);
      assert forall i :: 0 <= i < n ==> props[..n][i] == props[i];
      if NativeFold(c, rules, h, props[..n]).Some? {
        NativeStepIff(c, rules, h, props[n], NativeFold(c, rules, h, props[..n]).value);
      }
    }
  }
}
